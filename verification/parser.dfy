/** The schema-bound token state machine of `AdhocParser`: a cursor over an immutable
    byte buffer, a positional key counter into the fixed key list, a nested-record
    counter, and the key/value accumulator it fills. */
module Parser {
  import opened Wrappers
  import opened Bytes
  import opened Scan
  import opened Numbers

  /** The five keys the decoder knows, in the order it assumes they appear. */
  datatype Key = Name | AccountNumber | Balance | IsActive | FavoriteAccounts

  /** `ACC_KEYS`: key number i is assumed to be the i-th key token met. */
  const AccKeys: seq<Key> := [Name, AccountNumber, Balance, IsActive, FavoriteAccounts]

  /** The literal name of a key; only its length is used while parsing. */
  function KeyName(k: Key): string {
    match k
    case Name => "name"
    case AccountNumber => "accountNumber"
    case Balance => "balance"
    case IsActive => "isActive"
    case FavoriteAccounts => "favoriteAccounts"
  }

  /** Widths the value scanners assume without checking. */
  const AccountNumberWidth: nat := 10
  const BalanceWidth: nat := 6
  const TrueWidth: nat := 4
  const FalseWidth: nat := 5

  /** The map kept for one entry of the `favoriteAccounts` array. */
  datatype Nested = Nested(name: Option<seq<byte>>, accountNumber: Option<int>, isActive: Option<bool>)

  const EmptyNested := Nested(None, None, None)

  /** The `jsonKeyValues` map: one optional slot per key; the balance is kept as the
      raw six-byte window that the source hands to its floating-point parser. */
  datatype Accumulator = Accumulator(
    name: Option<seq<byte>>,
    accountNumber: Option<int>,
    balance: Option<seq<byte>>,
    isActive: Option<bool>,
    favorites: Option<seq<Nested>>)

  const EmptyAccumulator := Accumulator(None, None, None, None, None)

  /** The exceptions the source can raise while parsing or assembling. */
  datatype Fault = IndexOutOfBounds | NullPointer

  /** The parser's fields: `posArray` (cursor), `posAcc` (keyIndex), `posOacc` (slot),
      `processingArray` (inArray), `processingKey` (pending) and `jsonKeyValues` (acc). */
  datatype Parser = Parser(
    buf: seq<byte>,
    cursor: nat,
    keyIndex: nat,
    slot: nat,
    inArray: bool,
    pending: Option<Key>,
    acc: Accumulator)

  /** What `nextToken` reports; `EndOfInput` is the source's `null`. */
  datatype Token = KeyToken | ValueToken | EndOfInput

  datatype Step = Step(next: Parser, token: Token)

  /** A fresh parser over `input`, as the constructor builds it. */
  function Init(input: seq<byte>): (r: Parser)
    ensures r.buf == input && r.cursor == 0 && Measure(r) == 2 * |input|
    ensures r.pending.None? && !r.inArray && r.keyIndex == 0 && r.slot == 0
    ensures r.acc == EmptyAccumulator && Favorite(r.acc, 0) == Err(NullPointer)
  {
    Parser(input, 0, 0, 0, false, None, EmptyAccumulator)
  }

  /** Twice the bytes left to read, plus one while a key awaits its value. */
  function Measure(p: Parser): nat {
    2 * (if p.cursor < |p.buf| then |p.buf| - p.cursor else 0) + (if p.pending.Some? then 1 else 0)
  }

  /** One call of `nextToken`. */
  function NextToken(p: Parser): (r: Result<Step, Fault>)
    ensures r.Ok? ==> r.value.next.buf == p.buf && p.cursor <= r.value.next.cursor
    ensures r.Ok? && r.value.token != EndOfInput ==> Measure(r.value.next) < Measure(p)
    ensures r.Ok? ==> (r.value.token == ValueToken <==> p.pending.Some?)
  {
    match p.pending
    case None => KeyStep(p)
    case Some(k) =>
      match ValueStep(p, k)
      case Err(e) => Err(e)
      case Ok(q) => Ok(Step(q, ValueToken))
  }

  /** KEY mode: skip to the next quote and assume the key there is `ACC_KEYS[posAcc]`,
      jumping over its length and closing quote without reading them. With no quote
      left the guarded loop leaves the cursor at the end and reports end of input. */
  function KeyStep(p: Parser): (r: Result<Step, Fault>)
    requires p.pending.None?
    ensures r.Err? <==> !NoneMatch(p.buf, p.cursor, |p.buf|, QuoteByte) && p.keyIndex >= |AccKeys|
    ensures r.Err? ==> r.error == IndexOutOfBounds
    ensures r.Ok? ==> r.value.token != ValueToken
    ensures r.Ok? ==> (r.value.token == EndOfInput <==> NoneMatch(p.buf, p.cursor, |p.buf|, QuoteByte))
    ensures r.Ok? ==> var n := r.value.next;
      n.buf == p.buf && n.acc == p.acc && n.slot == p.slot && n.inArray == p.inArray
    ensures r.Ok? && r.value.token == EndOfInput ==>
      r.value.next == p.(cursor := r.value.next.cursor) && |p.buf| <= r.value.next.cursor
    ensures r.Ok? && r.value.token == KeyToken ==> var k := AccKeys[p.keyIndex]; var n := r.value.next;
      && n.pending == Some(k) && n.keyIndex == p.keyIndex + 1
      && p.cursor + |KeyName(k)| + 2 <= n.cursor < |p.buf| + |KeyName(k)| + 2 && p.buf[n.cursor - |KeyName(k)| - 2] == Quote
      && NoneMatch(p.buf, p.cursor, n.cursor - |KeyName(k)| - 2, QuoteByte)
  {
    match Find(p.buf, p.cursor, QuoteByte)
    case None =>
      Ok(Step(p.(cursor := if p.cursor < |p.buf| then |p.buf| else p.cursor), EndOfInput))
    case Some(q) =>
      if p.keyIndex < |AccKeys| then
        var k := AccKeys[p.keyIndex];
        Ok(Step(p.(cursor := q + |KeyName(k)| + 2, keyIndex := p.keyIndex + 1, pending := Some(k)), KeyToken))
      else
        Err(IndexOutOfBounds)
  }

  /** VALUE mode: dispatch on the pending key; every branch clears it. */
  function ValueStep(p: Parser, k: Key): (r: Result<Parser, Fault>)
    ensures r.Ok? ==> r.value.buf == p.buf && p.cursor <= r.value.cursor && r.value.pending.None?
  {
    match k
    case Name => NameValue(p)
    case AccountNumber => AccountNumberValue(p)
    case Balance => BalanceValue(p)
    case IsActive => BooleanValue(p)
    case FavoriteAccounts => Ok(EnterArray(p))
  }

  /** `getOthersAccounts()[slot]`: null when the array was never stored. */
  function Favorite(acc: Accumulator, slot: nat): (r: Result<Nested, Fault>)
    ensures r.Ok? <==> acc.favorites.Some? && slot < |acc.favorites.value|
    ensures r.Ok? ==> r.value == acc.favorites.value[slot]
    ensures r.Err? ==> (r.error == NullPointer <==> acc.favorites.None?)
  {
    match acc.favorites
    case None => Err(NullPointer)
    case Some(arr) => if slot < |arr| then Ok(arr[slot]) else Err(IndexOutOfBounds)
  }

  /** A value step's frame: same buffer, same mode, key answered, cursor moved forward. */
  predicate Moved(p: Parser, q: Parser) {
    q.buf == p.buf && q.inArray == p.inArray && q.pending.None? && p.cursor < q.cursor
  }

  /** `s` lies strictly between two quotes, the opening one the first at or after `from`
      and the closing one at `close`, and holds no quote itself. */
  predicate Quoted(buf: seq<byte>, from: nat, close: int, s: seq<byte>) {
    && from + |s| < close < |buf| && buf[close] == Quote && buf[close - |s| - 1] == Quote
    && NoneMatch(buf, from, close - |s| - 1, QuoteByte)
    && buf[close - |s|..close] == s && QuoteFree(s)
  }

  /** Replaces the nested map at `slot`. */
  function Store(acc: Accumulator, slot: nat, n: Nested): (r: Accumulator)
    requires acc.favorites.Some? && slot < |acc.favorites.value|
  {
    acc.(favorites := Some(acc.favorites.value[slot := n]))
  }

  /** The two `findNextQuote` scans of the `name` value: the text strictly between the
      next two quotes, unescaped, and the index of the closing quote. */
  function QuotedText(buf: seq<byte>, from: nat): (r: Result<(seq<byte>, nat), Fault>)
    ensures r.Ok? <==> exists j :: from <= j < |buf| && buf[j] == Quote && !NoneMatch(buf, j + 1, |buf|, QuoteByte)
    ensures r.Err? ==> r.error == IndexOutOfBounds
    ensures r.Ok? ==> Quoted(buf, from, r.value.1, r.value.0)
  {
    match Find(buf, from, QuoteByte)
    case None => Err(IndexOutOfBounds)
    case Some(open) =>
      match Find(buf, open + 1, QuoteByte)
      case None => Err(IndexOutOfBounds)
      case Some(close) => Ok((buf[open + 1..close], close))
  }

  /** The `name` value. Inside the array it goes to the current nested map, which is
      looked up only after both quotes were found. */
  function NameValue(p: Parser): (r: Result<Parser, Fault>)
    ensures r.Ok? ==> Moved(p, r.value) && r.value.keyIndex == p.keyIndex && r.value.slot == p.slot
    ensures r.Ok? ==> var t := QuotedText(p.buf, p.cursor);
      t.Ok? && r.value.cursor == t.value.1 + 1 && Quoted(p.buf, p.cursor, r.value.cursor - 1, t.value.0)
    ensures r.Ok? && !p.inArray ==> r.value.acc == p.acc.(name := Some(QuotedText(p.buf, p.cursor).value.0))
    ensures r.Ok? && p.inArray ==>
      (&& p.acc.favorites.Some? && p.slot < |p.acc.favorites.value|
       && r.value.acc == Store(p.acc, p.slot,
            p.acc.favorites.value[p.slot].(name := Some(QuotedText(p.buf, p.cursor).value.0))))
    ensures r.Err? && r.error == NullPointer ==> p.inArray && p.acc.favorites.None?
  {
    match QuotedText(p.buf, p.cursor)
    case Err(e) => Err(e)
    case Ok((text, close)) =>
      var q := p.(cursor := close + 1, pending := None);
      if !p.inArray then
        Ok(q.(acc := p.acc.(name := Some(text))))
      else
        match Favorite(p.acc, p.slot)
        case Err(e) => Err(e)
        case Ok(n) => Ok(q.(acc := Store(p.acc, p.slot, n.(name := Some(text)))))
  }

  /** The `accountNumber` value: ten bytes from the first digit. Inside the array the
      key counter also steps over `balance`, which nested records do not carry. */
  function AccountNumberValue(p: Parser): (r: Result<Parser, Fault>)
    ensures r.Ok? ==> Moved(p, r.value) && r.value.slot == p.slot
    ensures r.Ok? ==> var d := r.value.cursor - AccountNumberWidth;
      && p.cursor <= d && r.value.cursor <= |p.buf| && IsDigit(p.buf[d])
      && NoneMatch(p.buf, p.cursor, d, DigitByte)
    ensures r.Ok? ==> r.value.keyIndex == if p.inArray then p.keyIndex + 1 else p.keyIndex
    ensures r.Ok? && !p.inArray ==>
      r.value.acc == p.acc.(accountNumber := Some(DecimalValue(p.buf[r.value.cursor - AccountNumberWidth..r.value.cursor])))
    ensures r.Ok? && p.inArray ==>
      (&& p.acc.favorites.Some? && p.slot < |p.acc.favorites.value|
       && r.value.acc == Store(p.acc, p.slot, p.acc.favorites.value[p.slot].(accountNumber :=
            Some(DecimalValue(p.buf[r.value.cursor - AccountNumberWidth..r.value.cursor])))))
    ensures r.Err? && r.error == NullPointer ==> p.inArray && p.acc.favorites.None?
  {
    match Find(p.buf, p.cursor, DigitByte)
    case None => Err(IndexOutOfBounds)
    case Some(d) =>
      var q := p.(cursor := d + AccountNumberWidth, pending := None);
      if !p.inArray then
        if d + AccountNumberWidth <= |p.buf| then
          Ok(q.(acc := p.acc.(accountNumber := Some(DecimalValue(p.buf[d..d + AccountNumberWidth])))))
        else
          Err(IndexOutOfBounds)
      else
        match Favorite(p.acc, p.slot)
        case Err(e) => Err(e)
        case Ok(n) =>
          if d + AccountNumberWidth <= |p.buf| then
            var v := DecimalValue(p.buf[d..d + AccountNumberWidth]);
            Ok(q.(keyIndex := p.keyIndex + 1, acc := Store(p.acc, p.slot, n.(accountNumber := Some(v)))))
          else
            Err(IndexOutOfBounds)
  }

  /** The `balance` value: the six bytes from the first digit, always stored at top level. */
  function BalanceValue(p: Parser): (r: Result<Parser, Fault>)
    ensures r.Ok? ==> Moved(p, r.value) && r.value.keyIndex == p.keyIndex && r.value.slot == p.slot
    ensures r.Ok? ==> var d := r.value.cursor - BalanceWidth;
      && p.cursor <= d && r.value.cursor <= |p.buf| && IsDigit(p.buf[d])
      && NoneMatch(p.buf, p.cursor, d, DigitByte)
      && r.value.acc == p.acc.(balance := Some(p.buf[d..r.value.cursor]))
    ensures r.Err? ==> r.error == IndexOutOfBounds
  {
    match Find(p.buf, p.cursor, DigitByte)
    case None => Err(IndexOutOfBounds)
    case Some(d) =>
      if d + BalanceWidth <= |p.buf| then
        Ok(p.(cursor := d + BalanceWidth, pending := None,
              acc := p.acc.(balance := Some(p.buf[d..d + BalanceWidth]))))
      else
        Err(IndexOutOfBounds)
  }

  /** `findBooleanValue`: the first `t` or `f` decides, and the cursor jumps over the
      literal's length without reading it. */
  function ReadBoolean(buf: seq<byte>, from: nat): (r: Result<(bool, nat), Fault>)
    ensures r.Ok? <==> !NoneMatch(buf, from, |buf|, BooleanStart)
    ensures r.Err? ==> r.error == IndexOutOfBounds
    ensures r.Ok? ==> var at := r.value.1 - (if r.value.0 then TrueWidth else FalseWidth);
      && from <= at < |buf| && Matches(BooleanStart, buf[at]) && NoneMatch(buf, from, at, BooleanStart)
      && (r.value.0 <==> buf[at] == LowerT)
  {
    match Find(buf, from, BooleanStart)
    case None => Err(IndexOutOfBounds)
    case Some(b) =>
      if buf[b] == LowerF then Ok((false, b + FalseWidth)) else Ok((true, b + TrueWidth))
  }

  /** The `isActive` value. Inside the array it closes the current nested record:
      the slot advances and the key counter restarts. */
  function BooleanValue(p: Parser): (r: Result<Parser, Fault>)
    ensures r.Ok? ==> Moved(p, r.value)
    ensures r.Ok? ==> ReadBoolean(p.buf, p.cursor).Ok? && r.value.cursor == ReadBoolean(p.buf, p.cursor).value.1
    ensures r.Ok? && !p.inArray ==>
      && r.value.acc == p.acc.(isActive := Some(ReadBoolean(p.buf, p.cursor).value.0))
      && r.value.keyIndex == p.keyIndex && r.value.slot == p.slot
    ensures r.Ok? && p.inArray ==>
      (&& p.acc.favorites.Some? && p.slot < |p.acc.favorites.value|
       && r.value.acc == Store(p.acc, p.slot,
            p.acc.favorites.value[p.slot].(isActive := Some(ReadBoolean(p.buf, p.cursor).value.0)))
       && r.value.slot == p.slot + 1 && r.value.keyIndex == 0)
    ensures r.Err? && r.error == NullPointer ==> p.inArray && p.acc.favorites.None?
  {
    if !p.inArray then
      match ReadBoolean(p.buf, p.cursor)
      case Err(e) => Err(e)
      case Ok((v, after)) => Ok(p.(cursor := after, pending := None, acc := p.acc.(isActive := Some(v))))
    else
      match Favorite(p.acc, p.slot)
      case Err(e) => Err(e)
      case Ok(n) =>
        match ReadBoolean(p.buf, p.cursor)
        case Err(e) => Err(e)
        case Ok((v, after)) =>
          Ok(p.(cursor := after, pending := None, slot := p.slot + 1, keyIndex := 0,
                acc := Store(p.acc, p.slot, n.(isActive := Some(v)))))
  }

  /** The `favoriteAccounts` value: reads nothing, stores three empty nested maps and
      switches to the nested schema. */
  function EnterArray(p: Parser): (r: Parser)
    ensures r.buf == p.buf && r.cursor == p.cursor && r.slot == p.slot
    ensures r.inArray && r.pending.None? && r.keyIndex == 0
    ensures r.acc.(favorites := p.acc.favorites) == p.acc
    ensures forall i :: 0 <= i < 3 ==> Favorite(r.acc, i) == Ok(EmptyNested)
    ensures Favorite(r.acc, 3) == Err(IndexOutOfBounds)
  {
    p.(inArray := true, pending := None, keyIndex := 0,
       acc := p.acc.(favorites := Some([EmptyNested, EmptyNested, EmptyNested])))
  }
}
