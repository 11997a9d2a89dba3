/** The byte layout the decoder is built for, and the proof that decoding it gives
    back the account it was rendered from. */
module Render {
  import opened Wrappers
  import opened Bytes
  import opened Scan
  import opened Numbers
  import opened Parser
  import opened ParserFacts
  import opened Mapper

  /** `"key"`: the quoted key literal. */
  function KeyText(k: Key): (r: seq<byte>)
    ensures |r| == |KeyName(k)| + 2 && r[0] == Quote
  {
    [Quote] + Ascii(KeyName(k)) + [Quote]
  }

  function NameValueText(s: seq<byte>): seq<byte> {
    [Colon, Quote] + s + [Quote]
  }

  /** Account numbers are written with exactly ten digits, zero-padded. */
  function NumberValueText(n: nat): seq<byte> {
    [Colon] + Digits(n, AccountNumberWidth)
  }

  function BalanceValueText(b: seq<byte>): seq<byte> {
    [Colon] + b
  }

  function FlagValueText(v: bool): seq<byte> {
    [Colon] + (if v then Ascii("true") else Ascii("false"))
  }

  predicate OtherWellFormed(o: OtherAccount) {
    o.name.Some? && QuoteFree(o.name.value) && 0 <= o.accountNumber < Pow(10, AccountNumberWidth)
  }

  /** The accounts this layout can carry: quote-free names, ten-digit account numbers,
      a six-byte balance starting with a digit, and three favourites. */
  predicate WellFormed(a: Account) {
    && a.name.Some? && QuoteFree(a.name.value)
    && 0 <= a.accountNumber < Pow(10, AccountNumberWidth)
    && |a.balance| == BalanceWidth && IsDigit(a.balance[0])
    && |a.favoriteAccounts| == 3
    && forall i :: 0 <= i < 3 ==> OtherWellFormed(a.favoriteAccounts[i])
  }

  /** One key/value pair of the layout; `favoriteAccounts` has no value text of its own. */
  datatype Entry = NameEntry(name: seq<byte>) | NumberEntry(number: nat) | BalanceEntry(balance: seq<byte>)
                 | FlagEntry(flag: bool) | ArrayEntry

  /** An entry with the separator bytes written before its key. */
  datatype Item = Item(junk: seq<byte>, entry: Entry)

  function EntryKey(e: Entry): Key {
    match e
    case NameEntry(_) => Name
    case NumberEntry(_) => AccountNumber
    case BalanceEntry(_) => Balance
    case FlagEntry(_) => IsActive
    case ArrayEntry => FavoriteAccounts
  }

  function ValueText(e: Entry): seq<byte> {
    match e
    case NameEntry(s) => NameValueText(s)
    case NumberEntry(n) => NumberValueText(n)
    case BalanceEntry(b) => BalanceValueText(b)
    case FlagEntry(v) => FlagValueText(v)
    case ArrayEntry => []
  }

  /** The items written one after the other, then `tail`. */
  function ItemsText(items: seq<Item>, tail: seq<byte>): seq<byte> {
    if |items| == 0 then tail
    else items[0].junk + (KeyText(EntryKey(items[0].entry)) + (ValueText(items[0].entry) + ItemsText(items[1..], tail)))
  }

  predicate EntryWellFormed(e: Entry) {
    match e
    case NameEntry(s) => QuoteFree(s)
    case NumberEntry(n) => n < Pow(10, AccountNumberWidth)
    case BalanceEntry(b) => |b| == BalanceWidth && IsDigit(b[0])
    case FlagEntry(_) => true
    case ArrayEntry => true
  }

  /** The parser awaits a key, expects this item's key next, and can store its value. */
  predicate Applicable(p: Parser, it: Item) {
    && p.pending.None? && p.keyIndex < |AccKeys| && AccKeys[p.keyIndex] == EntryKey(it.entry)
    && QuoteFree(it.junk) && EntryWellFormed(it.entry)
    && (p.inArray ==> p.acc.favorites.Some? && p.slot < |p.acc.favorites.value|)
  }

  /** The state after the key and value of an applicable item, written from the layout's
      point of view: each entry fills its own slot (the current nested record inside the
      array) and the cursor moves past the item's text. */
  function Effect(p: Parser, it: Item): (n: Parser)
    requires Applicable(p, it)
  {
    var e := it.entry;
    var q := p.(cursor := p.cursor + |it.junk| + |KeyText(EntryKey(e))| + |ValueText(e)|, keyIndex := p.keyIndex + 1);
    var f := if p.inArray then p.acc.favorites.value[p.slot] else EmptyNested;
    match e
    case NameEntry(s) =>
      q.(acc := if p.inArray then Store(p.acc, p.slot, f.(name := Some(s))) else p.acc.(name := Some(s)))
    case NumberEntry(x) =>
      if p.inArray then q.(keyIndex := p.keyIndex + 2, acc := Store(p.acc, p.slot, f.(accountNumber := Some(x))))
      else q.(acc := p.acc.(accountNumber := Some(x)))
    case BalanceEntry(b) => q.(acc := p.acc.(balance := Some(b)))
    case FlagEntry(v) =>
      if p.inArray then q.(slot := p.slot + 1, keyIndex := 0, acc := Store(p.acc, p.slot, f.(isActive := Some(v))))
      else q.(acc := p.acc.(isActive := Some(v)))
    case ArrayEntry =>
      q.(inArray := true, keyIndex := 0, acc := p.acc.(favorites := Some([EmptyNested, EmptyNested, EmptyNested])))
  }

  /** Every item is applicable in the state the previous ones lead to. */
  predicate RunsClean(p: Parser, items: seq<Item>)
    decreases |items|
  {
    |items| == 0 || (Applicable(p, items[0]) && RunsClean(Effect(p, items[0]), items[1..]))
  }

  function EffectAll(p: Parser, items: seq<Item>): Parser
    requires RunsClean(p, items)
    decreases |items|
  {
    if |items| == 0 then p else EffectAll(Effect(p, items[0]), items[1..])
  }

  /** The items of one favourite account, opened by `open`. */
  function OtherItems(o: OtherAccount, open: seq<byte>): seq<Item>
    requires OtherWellFormed(o)
  {
    [Item(open, NameEntry(o.name.value)), Item([Comma], NumberEntry(o.accountNumber)),
     Item([Comma], FlagEntry(o.isActive))]
  }

  /** The top-level items, up to the `favoriteAccounts` key. */
  function TopItems(a: Account): seq<Item>
    requires WellFormed(a)
  {
    [Item([LBrace], NameEntry(a.name.value)), Item([Comma], NumberEntry(a.accountNumber)),
     Item([Comma], BalanceEntry(a.balance)), Item([Comma], FlagEntry(a.isActive)), Item([Comma], ArrayEntry)]
  }

  /** The items of the whole record, in the key order the decoder assumes. */
  function AccountItems(a: Account): seq<Item>
    requires WellFormed(a)
  {
    var f := a.favoriteAccounts;
    TopItems(a)
    + OtherItems(f[0], [Colon, LBracket, LBrace])
    + OtherItems(f[1], [RBrace, Comma, LBrace])
    + OtherItems(f[2], [RBrace, Comma, LBrace])
  }

  /** The bytes the decoder is built for: `{"name":"..","accountNumber":dddddddddd,
      "balance":bbbbbb,"isActive":true,"favoriteAccounts":[{..},{..},{..}]}`. */
  function RenderAccount(a: Account): seq<byte>
    requires WellFormed(a)
  {
    ItemsText(AccountItems(a), [RBrace, RBracket, RBrace])
  }

  lemma DrainStep(p: Parser, s: Step)
    requires NextToken(p) == Ok(s) && s.token != EndOfInput
    ensures Drain(p) == Drain(s.next)
  {
  }

  lemma SuffixAfter(buf: seq<byte>, c: nat, pre: seq<byte>, rest: seq<byte>)
    requires c <= |buf| && buf[c..] == pre + rest
    ensures c + |pre| <= |buf| && buf[c + |pre|..] == rest
  {
    assert buf[c + |pre|..] == buf[c..][|pre|..];
  }

  /** A quote behind quote-free bytes is the first quote from where those bytes start. */
  lemma QuoteAfterJunk(buf: seq<byte>, c: nat, junk: seq<byte>, tail: seq<byte>)
    requires c <= |buf| && buf[c..] == junk + tail && |tail| > 0 && tail[0] == Quote && QuoteFree(junk)
    ensures FirstAt(buf, c, c + |junk|, QuoteByte)
  {
    assert buf[c + |junk|] == buf[c..][|junk|] == Quote;
    forall j | c <= j < c + |junk| ensures !Matches(QuoteByte, buf[j]) {
      assert buf[j] == buf[c..][j - c] == junk[j - c];
    }
  }

  /** A key token over quote-free `junk` and the expected key's text lands right after
      that text. */
  lemma KeyStepOver(p: Parser, junk: seq<byte>, k: Key, rest: seq<byte>, n: Parser)
    requires p.pending.None? && p.keyIndex < |AccKeys| && AccKeys[p.keyIndex] == k && QuoteFree(junk)
    requires p.cursor <= |p.buf| && p.buf[p.cursor..] == junk + (KeyText(k) + rest)
    requires n == p.(cursor := p.cursor + |junk| + |KeyText(k)|, keyIndex := p.keyIndex + 1, pending := Some(k))
    ensures NextToken(p) == Ok(Step(n, KeyToken))
  {
    var tail := KeyText(k) + rest;
    assert tail[0] == Quote;
    QuoteAfterJunk(p.buf, p.cursor, junk, tail);
    KeyStepLanding(p, p.cursor + |junk|);
  }

  /** Where the two quotes around a rendered name lie. */
  lemma NameQuotes(buf: seq<byte>, c: nat, s: seq<byte>, rest: seq<byte>)
    requires QuoteFree(s) && c <= |buf| && buf[c..] == NameValueText(s) + rest
    ensures FirstAt(buf, c, c + 1, QuoteByte) && FirstAt(buf, c + 2, c + 2 + |s|, QuoteByte)
    ensures buf[c + 2..c + 2 + |s|] == s
  {
    var w := buf[c..];
    assert w[0] == Colon && w[1] == Quote && w[2 + |s|] == Quote;
    assert forall i :: 0 <= i < |s| ==> w[2 + i] == s[i];
    forall j | c + 2 <= j < c + 2 + |s| ensures !Matches(QuoteByte, buf[j]) {
      assert buf[j] == w[j - c];
    }
    assert w[2..2 + |s|] == s;
    assert buf[c + 2..c + 2 + |s|] == w[2..2 + |s|];
  }

  /** A rendered `name` value is read back as the quote-free bytes written. */
  lemma NameStepOver(p: Parser, s: seq<byte>, rest: seq<byte>, n: Parser)
    requires p.pending == Some(Name) && QuoteFree(s)
    requires p.inArray ==> p.acc.favorites.Some? && p.slot < |p.acc.favorites.value|
    requires p.cursor <= |p.buf| && p.buf[p.cursor..] == NameValueText(s) + rest
    requires n == p.(cursor := p.cursor + |NameValueText(s)|, pending := None,
                     acc := if p.inArray then Store(p.acc, p.slot, p.acc.favorites.value[p.slot].(name := Some(s)))
                            else p.acc.(name := Some(s)))
    ensures NextToken(p) == Ok(Step(n, ValueToken))
  {
    NameQuotes(p.buf, p.cursor, s, rest);
    NameValueSlice(p, p.cursor + 1, p.cursor + 2 + |s|);
  }

  /** A rendered `accountNumber` value reads back as the number written. */
  lemma NumberStepOver(p: Parser, x: nat, rest: seq<byte>, n: Parser)
    requires p.pending == Some(AccountNumber) && x < Pow(10, AccountNumberWidth)
    requires p.inArray ==> p.acc.favorites.Some? && p.slot < |p.acc.favorites.value|
    requires p.cursor <= |p.buf| && p.buf[p.cursor..] == NumberValueText(x) + rest
    requires n == p.(cursor := p.cursor + |NumberValueText(x)|, pending := None,
                     keyIndex := if p.inArray then p.keyIndex + 1 else p.keyIndex,
                     acc := if p.inArray then Store(p.acc, p.slot, p.acc.favorites.value[p.slot].(accountNumber := Some(x)))
                            else p.acc.(accountNumber := Some(x)))
    ensures NextToken(p) == Ok(Step(n, ValueToken))
  {
    var c := p.cursor;
    var w := p.buf[c..];
    var ds := Digits(x, AccountNumberWidth);
    assert w[0] == Colon && w[1] == ds[0];
    assert FirstAt(p.buf, c, c + 1, DigitByte);
    AccountNumberWindow(p, c + 1);
    assert p.buf[c + 1..c + 11] == w[1..11] == ds;
    DigitsRoundTrip(x, AccountNumberWidth);
  }

  /** A rendered `balance` value is read back as the six bytes written. */
  lemma BalanceStepOver(p: Parser, b: seq<byte>, rest: seq<byte>, n: Parser)
    requires p.pending == Some(Balance) && |b| == BalanceWidth && IsDigit(b[0])
    requires p.cursor <= |p.buf| && p.buf[p.cursor..] == BalanceValueText(b) + rest
    requires n == p.(cursor := p.cursor + |BalanceValueText(b)|, pending := None, acc := p.acc.(balance := Some(b)))
    ensures NextToken(p) == Ok(Step(n, ValueToken))
  {
    var c := p.cursor;
    var w := p.buf[c..];
    assert w[0] == Colon && w[1] == b[0];
    assert FirstAt(p.buf, c, c + 1, DigitByte);
    BalanceWindow(p, c + 1);
    assert p.buf[c + 1..c + 7] == w[1..7] == b;
  }

  /** A rendered flag starts right after the colon with `t` or `f`. */
  lemma FlagStart(buf: seq<byte>, c: nat, v: bool, rest: seq<byte>)
    requires c <= |buf| && buf[c..] == FlagValueText(v) + rest
    ensures FirstAt(buf, c, c + 1, BooleanStart) && buf[c + 1] == (if v then LowerT else LowerF)
    ensures |FlagValueText(v)| == (if v then 5 else 6)
  {
    assert Ascii("true")[0] == LowerT;
    assert Ascii("false")[0] == LowerF;
    assert buf[c] == buf[c..][0] == Colon;
    assert buf[c + 1] == buf[c..][1];
  }

  /** A rendered `isActive` value is read back as the flag written. */
  lemma FlagStepOver(p: Parser, v: bool, rest: seq<byte>, n: Parser)
    requires p.pending == Some(IsActive)
    requires p.inArray ==> p.acc.favorites.Some? && p.slot < |p.acc.favorites.value|
    requires p.cursor <= |p.buf| && p.buf[p.cursor..] == FlagValueText(v) + rest
    requires n == if p.inArray
        then p.(cursor := p.cursor + |FlagValueText(v)|, pending := None, slot := p.slot + 1, keyIndex := 0,
                acc := Store(p.acc, p.slot, p.acc.favorites.value[p.slot].(isActive := Some(v))))
        else p.(cursor := p.cursor + |FlagValueText(v)|, pending := None, acc := p.acc.(isActive := Some(v)))
    ensures NextToken(p) == Ok(Step(n, ValueToken))
  {
    FlagStart(p.buf, p.cursor, v, rest);
    BooleanLiteral(p, p.cursor + 1);
  }

  /** The text of one item followed by `rest` lies at the cursor. */
  predicate ItemAhead(p: Parser, it: Item, rest: seq<byte>) {
    p.cursor <= |p.buf| && p.buf[p.cursor..] == it.junk + (KeyText(EntryKey(it.entry)) + (ValueText(it.entry) + rest))
  }

  /** The parser reaches `n`, with `rest` ahead, without reporting anything in between. */
  predicate LeadsTo(p: Parser, n: Parser, rest: seq<byte>) {
    Drain(p) == Drain(n) && n.buf == p.buf && n.cursor <= |n.buf| && n.buf[n.cursor..] == rest
  }

  /** The state between an item's key token and its value token. */
  function AfterKey(p: Parser, it: Item): Parser {
    p.(cursor := p.cursor + |it.junk| + |KeyText(EntryKey(it.entry))|, keyIndex := p.keyIndex + 1,
       pending := Some(EntryKey(it.entry)))
  }

  /** Where the key text and the value text of an item end. */
  lemma ItemSuffixes(p: Parser, it: Item, rest: seq<byte>)
    requires Applicable(p, it) && ItemAhead(p, it, rest)
    ensures var k := AfterKey(p, it); k.buf == p.buf && k.cursor <= |k.buf| && k.buf[k.cursor..] == ValueText(it.entry) + rest
    ensures Effect(p, it).cursor == AfterKey(p, it).cursor + |ValueText(it.entry)|
    ensures Effect(p, it).cursor <= |p.buf| && p.buf[Effect(p, it).cursor..] == rest
  {
    var key := KeyText(EntryKey(it.entry));
    var value := ValueText(it.entry);
    assert it.junk + (key + (value + rest)) == (it.junk + key) + (value + rest);
    SuffixAfter(p.buf, p.cursor, it.junk + key, value + rest);
    SuffixAfter(p.buf, AfterKey(p, it).cursor, value, rest);
  }

  /** The key token of an item leaves its value pending right after the key text. */
  lemma KeyOfItem(p: Parser, it: Item, tail: seq<byte>)
    requires p.pending.None? && p.keyIndex < |AccKeys| && AccKeys[p.keyIndex] == EntryKey(it.entry) && QuoteFree(it.junk)
    requires p.cursor <= |p.buf| && p.buf[p.cursor..] == it.junk + (KeyText(EntryKey(it.entry)) + tail)
    ensures NextToken(p) == Ok(Step(AfterKey(p, it), KeyToken))
  {
    KeyStepOver(p, it.junk, EntryKey(it.entry), tail, AfterKey(p, it));
  }

  /** The value token of an applicable item, entry by entry. */
  lemma ValueOfItem(p: Parser, it: Item, rest: seq<byte>)
    requires Applicable(p, it)
    requires var k := AfterKey(p, it); k.cursor <= |k.buf| && k.buf[k.cursor..] == ValueText(it.entry) + rest
    ensures NextToken(AfterKey(p, it)) == Ok(Step(Effect(p, it), ValueToken))
  {
    match it.entry
    case NameEntry(_) => NameOfItem(p, it, rest);
    case NumberEntry(_) => NumberOfItem(p, it, rest);
    case BalanceEntry(_) => BalanceOfItem(p, it, rest);
    case FlagEntry(_) => FlagOfItem(p, it, rest);
    case ArrayEntry => EnterArrayStep(AfterKey(p, it));
  }

  lemma NameOfItem(p: Parser, it: Item, rest: seq<byte>)
    requires Applicable(p, it) && it.entry.NameEntry?
    requires var k := AfterKey(p, it); k.cursor <= |k.buf| && k.buf[k.cursor..] == ValueText(it.entry) + rest
    ensures NextToken(AfterKey(p, it)) == Ok(Step(Effect(p, it), ValueToken))
  {
    NameStepOver(AfterKey(p, it), it.entry.name, rest, Effect(p, it));
  }

  lemma NumberOfItem(p: Parser, it: Item, rest: seq<byte>)
    requires Applicable(p, it) && it.entry.NumberEntry?
    requires var k := AfterKey(p, it); k.cursor <= |k.buf| && k.buf[k.cursor..] == ValueText(it.entry) + rest
    ensures NextToken(AfterKey(p, it)) == Ok(Step(Effect(p, it), ValueToken))
  {
    NumberStepOver(AfterKey(p, it), it.entry.number, rest, Effect(p, it));
  }

  lemma BalanceOfItem(p: Parser, it: Item, rest: seq<byte>)
    requires Applicable(p, it) && it.entry.BalanceEntry?
    requires var k := AfterKey(p, it); k.cursor <= |k.buf| && k.buf[k.cursor..] == ValueText(it.entry) + rest
    ensures NextToken(AfterKey(p, it)) == Ok(Step(Effect(p, it), ValueToken))
  {
    BalanceStepOver(AfterKey(p, it), it.entry.balance, rest, Effect(p, it));
  }

  lemma FlagOfItem(p: Parser, it: Item, rest: seq<byte>)
    requires Applicable(p, it) && it.entry.FlagEntry?
    requires var k := AfterKey(p, it); k.cursor <= |k.buf| && k.buf[k.cursor..] == ValueText(it.entry) + rest
    ensures NextToken(AfterKey(p, it)) == Ok(Step(Effect(p, it), ValueToken))
  {
    FlagStepOver(AfterKey(p, it), it.entry.flag, rest, Effect(p, it));
  }

  /** One applicable item: a key token and a value token lead to `Effect`, with the rest of
      the rendering ahead. */
  lemma ItemRun(p: Parser, it: Item, rest: seq<byte>)
    requires Applicable(p, it) && ItemAhead(p, it, rest)
    ensures NextToken(p) == Ok(Step(AfterKey(p, it), KeyToken))
    ensures NextToken(AfterKey(p, it)) == Ok(Step(Effect(p, it), ValueToken))
    ensures Effect(p, it).cursor <= |p.buf| && p.buf[Effect(p, it).cursor..] == rest
  {
    ItemSuffixes(p, it, rest);
    KeyOfItem(p, it, ValueText(it.entry) + rest);
    ValueOfItem(p, it, rest);
  }

  /** A clean run over a list of items leads from `p` to `EffectAll(p, items)`. */
  lemma {:induction false} ItemsRun(p: Parser, items: seq<Item>, tail: seq<byte>)
    requires RunsClean(p, items)
    requires p.cursor <= |p.buf| && p.buf[p.cursor..] == ItemsText(items, tail)
    ensures LeadsTo(p, EffectAll(p, items), tail)
    decreases |items|
  {
    if |items| > 0 {
      var it := items[0];
      ItemRun(p, it, ItemsText(items[1..], tail));
      DrainStep(p, Step(AfterKey(p, it), KeyToken));
      DrainStep(AfterKey(p, it), Step(Effect(p, it), ValueToken));
      ItemsRun(Effect(p, it), items[1..], tail);
    }
  }

  /** Splitting the head off a concatenation. */
  lemma ConcatHead<T>(xs: seq<T>, ys: seq<T>)
    requires |xs| > 0
    ensures xs + ys == [xs[0]] + (xs[1..] + ys)
  {
    assert xs == [xs[0]] + xs[1..];
  }

  lemma {:induction false} RunsCleanAppend(p: Parser, xs: seq<Item>, ys: seq<Item>)
    requires RunsClean(p, xs) && RunsClean(EffectAll(p, xs), ys)
    ensures RunsClean(p, xs + ys) && EffectAll(p, xs + ys) == EffectAll(EffectAll(p, xs), ys)
    decreases |xs|
  {
    if |xs| > 0 {
      var it := xs[0];
      RunsCleanAppend(Effect(p, it), xs[1..], ys);
      ConcatHead(xs, ys);
      RunsCleanCons(p, it, xs[1..] + ys);
    } else {
      assert xs + ys == ys;
    }
  }

  lemma {:induction false} RunsCleanCons(p: Parser, it: Item, rest: seq<Item>)
    requires Applicable(p, it) && RunsClean(Effect(p, it), rest)
    ensures RunsClean(p, [it] + rest) && EffectAll(p, [it] + rest) == EffectAll(Effect(p, it), rest)
  {
    assert ([it] + rest)[0] == it && ([it] + rest)[1..] == rest;
  }

  /** The three items of a favourite account fill the current nested record and move
      to the next slot. */
  lemma OtherChunk(p: Parser, o: OtherAccount, open: seq<byte>)
    requires p.pending.None? && p.inArray && p.keyIndex == 0 && QuoteFree(open) && OtherWellFormed(o)
    requires p.acc.favorites.Some? && p.slot < |p.acc.favorites.value|
    ensures RunsClean(p, OtherItems(o, open))
    ensures var n := EffectAll(p, OtherItems(o, open));
      n == p.(cursor := n.cursor, slot := p.slot + 1,
              acc := Store(p.acc, p.slot, Nested(o.name, Some(o.accountNumber), Some(o.isActive))))
  {
    var items := OtherItems(o, open);
    assert items == [items[0]] + ([items[1]] + ([items[2]] + []));
    var p1 := Effect(p, items[0]);
    var p2 := Effect(p1, items[1]);
    var p3 := Effect(p2, items[2]);
    assert RunsClean(p3, []) && EffectAll(p3, []) == p3;
    RunsCleanCons(p2, items[2], []);
    RunsCleanCons(p1, items[1], [items[2]] + []);
    RunsCleanCons(p, items[0], [items[1]] + ([items[2]] + []));
    assert p3.acc.favorites.value == p.acc.favorites.value[p.slot := Nested(o.name, Some(o.accountNumber), Some(o.isActive))];
  }

  /** The five top-level items fill the top-level fields and enter array mode with three
      empty nested records. */
  lemma TopChunk(p: Parser, a: Account)
    requires WellFormed(a) && p.pending.None? && !p.inArray && p.keyIndex == 0
    ensures RunsClean(p, TopItems(a))
    ensures var n := EffectAll(p, TopItems(a));
      n == p.(cursor := n.cursor, inArray := true,
              acc := p.acc.(name := a.name, accountNumber := Some(a.accountNumber), balance := Some(a.balance),
                            isActive := Some(a.isActive), favorites := Some([EmptyNested, EmptyNested, EmptyNested])))
  {
    var items := TopItems(a);
    assert items == [items[0]] + ([items[1]] + ([items[2]] + ([items[3]] + ([items[4]] + []))));
    var p1 := Effect(p, items[0]);
    var p2 := Effect(p1, items[1]);
    var p3 := Effect(p2, items[2]);
    var p4 := Effect(p3, items[3]);
    var p5 := Effect(p4, items[4]);
    assert RunsClean(p5, []) && EffectAll(p5, []) == p5;
    RunsCleanCons(p4, items[4], []);
    RunsCleanCons(p3, items[3], [items[4]] + []);
    RunsCleanCons(p2, items[2], [items[3]] + ([items[4]] + []));
    RunsCleanCons(p1, items[1], [items[2]] + ([items[3]] + ([items[4]] + [])));
    RunsCleanCons(p, items[0], [items[1]] + ([items[2]] + ([items[3]] + ([items[4]] + []))));
  }

  function NestedOf(o: OtherAccount): Nested {
    Nested(o.name, Some(o.accountNumber), Some(o.isActive))
  }

  /** What the decoder has accumulated once the whole rendering of `a` is read. */
  function FinalAcc(a: Account): Accumulator
    requires WellFormed(a)
  {
    var f := a.favoriteAccounts;
    Accumulator(a.name, Some(a.accountNumber), Some(a.balance), Some(a.isActive),
                Some([NestedOf(f[0]), NestedOf(f[1]), NestedOf(f[2])]))
  }

  /** All items of the rendering run cleanly from a fresh parser and fill in `FinalAcc`. */
  lemma AccountRun(a: Account)
    requires WellFormed(a)
    ensures RunsClean(Init(RenderAccount(a)), AccountItems(a))
    ensures var n := EffectAll(Init(RenderAccount(a)), AccountItems(a));
      n.pending.None? && n.acc == FinalAcc(a)
  {
    var p := Init(RenderAccount(a));
    var f := a.favoriteAccounts;
    var t, o0, o1, o2 := TopItems(a), OtherItems(f[0], [Colon, LBracket, LBrace]),
      OtherItems(f[1], [RBrace, Comma, LBrace]), OtherItems(f[2], [RBrace, Comma, LBrace]);
    assert OtherWellFormed(f[0]) && OtherWellFormed(f[1]) && OtherWellFormed(f[2]);
    TopChunk(p, a);
    var pt := EffectAll(p, t);
    OtherChunk(pt, f[0], [Colon, LBracket, LBrace]);
    RunsCleanAppend(p, t, o0);
    var pa := EffectAll(pt, o0);
    OtherChunk(pa, f[1], [RBrace, Comma, LBrace]);
    RunsCleanAppend(p, t + o0, o1);
    var pb := EffectAll(pa, o1);
    OtherChunk(pb, f[2], [RBrace, Comma, LBrace]);
    RunsCleanAppend(p, t + o0 + o1, o2);
    var pc := EffectAll(pb, o2);
    assert AccountItems(a) == t + o0 + o1 + o2;
    assert pc.acc.favorites.value == [NestedOf(f[0]), NestedOf(f[1]), NestedOf(f[2])];
  }

  /** The accumulator of a rendering assembles back into the account. */
  lemma AssembleFinal(a: Account)
    requires WellFormed(a)
    ensures ReadAccount(FinalAcc(a)) == Ok(a)
  {
    var r := ReadAccount(FinalAcc(a));
    var f := a.favoriteAccounts;
    assert Complete(FinalAcc(a));
    forall i | 0 <= i < 3 ensures r.value.favoriteAccounts[i] == f[i] {
      assert OtherFrom(r.value.favoriteAccounts[i], FinalAcc(a).favorites.value[i]);
    }
    assert r.value.favoriteAccounts == f;
  }

  /** A parser with no pending key whose remaining bytes hold no quote drains to the
      end of the buffer in one step. */
  lemma DrainQuoteFreeTail(n: Parser, tail: seq<byte>)
    requires n.pending.None? && n.cursor <= |n.buf| && n.buf[n.cursor..] == tail && QuoteFree(tail)
    ensures Drain(n) == Ok(n.(cursor := |n.buf|))
  {
    assert NoQuoteAhead(n) by {
      forall j | n.cursor <= j < |n.buf| ensures !Matches(QuoteByte, n.buf[j]) {
        assert n.buf[j] == tail[j - n.cursor];
      }
    }
    EndOfInputExactly(n);
  }

  /** Round trip: decoding the rendering of a well-formed account gives the account back. */
  lemma RoundTrip(a: Account)
    requires WellFormed(a)
    ensures Decode(RenderAccount(a)) == Ok(a)
  {
    var p := Init(RenderAccount(a));
    var tail: seq<byte> := [RBrace, RBracket, RBrace];
    AccountRun(a);
    ItemsRun(p, AccountItems(a), tail);
    DrainQuoteFreeTail(EffectAll(p, AccountItems(a)), tail);
    AssembleFinal(a);
  }
}
