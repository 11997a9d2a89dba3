/** What one `nextToken` call does, stated against the bytes rather than the scanners,
    and the invariant that the positional counters keep from a fresh parser on. */
module ParserFacts {
  import opened Wrappers
  import opened Bytes
  import opened Scan
  import opened Numbers
  import opened Parser

  /** No quote byte lies between the cursor and the end of the buffer. */
  predicate NoQuoteAhead(p: Parser) {
    NoneMatch(p.buf, p.cursor, |p.buf|, QuoteByte)
  }

  /** `at` holds the first byte of class `t` at or after `from`. */
  predicate FirstAt(buf: seq<byte>, from: nat, at: nat, t: Target) {
    from <= at < |buf| && Matches(t, buf[at]) && NoneMatch(buf, from, at, t)
  }

  /** The top-level slots other than the nested array. */
  predicate SameTopLevel(a: Accumulator, b: Accumulator) {
    a.name == b.name && a.accountNumber == b.accountNumber && a.balance == b.balance && a.isActive == b.isActive
  }

  /** KEY mode: the first quote at or after the cursor starts the key assumed to be
      `AccKeys[keyIndex]`; the cursor lands just past that key's length and its closing
      quote, the counter moves on by one, and nothing else changes. */
  lemma KeyStepLanding(p: Parser, q: nat)
    requires p.pending.None? && p.keyIndex < |AccKeys|
    requires FirstAt(p.buf, p.cursor, q, QuoteByte)
    ensures var k := AccKeys[p.keyIndex];
      NextToken(p) == Ok(Step(p.(cursor := q + |KeyName(k)| + 2, keyIndex := p.keyIndex + 1, pending := Some(k)), KeyToken))
  {
    FindIs(p.buf, p.cursor, q, QuoteByte);
  }

  /** The key's own bytes are never compared: two buffers that agree up to and including
      the first quote give the same key token and the same next state. */
  lemma KeyBytesNotCompared(p: Parser, other: seq<byte>, q: nat)
    requires p.pending.None? && FirstAt(p.buf, p.cursor, q, QuoteByte)
    requires q < |other| && forall j :: p.cursor <= j <= q ==> other[j] == p.buf[j]
    ensures NextToken(p).Ok? <==> NextToken(p.(buf := other)).Ok?
    ensures NextToken(p).Ok? ==>
      NextToken(p.(buf := other)).value == Step(NextToken(p).value.next.(buf := other), KeyToken)
  {
    FindIs(p.buf, p.cursor, q, QuoteByte);
    assert FirstAt(other, p.cursor, q, QuoteByte);
    FindIs(other, p.cursor, q, QuoteByte);
  }

  /** End of input is reported exactly when no quote is left ahead of the cursor; the
      cursor then rests at the end of the buffer (or stays beyond it) and the
      accumulator is untouched. */
  lemma EndOfInputExactly(p: Parser)
    requires p.pending.None?
    ensures (NextToken(p).Ok? && NextToken(p).value.token == EndOfInput) <==> NoQuoteAhead(p)
    ensures NoQuoteAhead(p) ==>
      NextToken(p) == Ok(Step(p.(cursor := if p.cursor < |p.buf| then |p.buf| else p.cursor), EndOfInput))
  {
  }

  /** The `name` value is exactly the bytes strictly between the next two quotes; the
      cursor ends one past the closing quote, and the text goes to the top-level slot or,
      inside the array, to the current nested record only. */
  lemma NameValueSlice(p: Parser, open: nat, close: nat)
    requires p.pending == Some(Name)
    requires FirstAt(p.buf, p.cursor, open, QuoteByte) && FirstAt(p.buf, open + 1, close, QuoteByte)
    requires p.inArray ==> p.acc.favorites.Some? && p.slot < |p.acc.favorites.value|
    ensures NextToken(p).Ok? && NextToken(p).value.token == ValueToken
    ensures var n := NextToken(p).value.next;
      n == p.(cursor := close + 1, pending := None, acc := n.acc)
    ensures var n := NextToken(p).value.next; var text := p.buf[open + 1..close];
      && QuoteFree(text)
      && (!p.inArray ==> n.acc == p.acc.(name := Some(text)))
      && (p.inArray ==> n.acc == Store(p.acc, p.slot, p.acc.favorites.value[p.slot].(name := Some(text))))
  {
    QuotedTextIs(p.buf, p.cursor, open, close);
  }

  /** The two quote scans stop at the first two quotes ahead. */
  lemma QuotedTextIs(buf: seq<byte>, from: nat, open: nat, close: nat)
    requires FirstAt(buf, from, open, QuoteByte) && FirstAt(buf, open + 1, close, QuoteByte)
    ensures QuotedText(buf, from) == Ok((buf[open + 1..close], close))
  {
    FindIs(buf, from, open, QuoteByte);
    FindIs(buf, open + 1, close, QuoteByte);
  }

  /** The `accountNumber` value is the ten bytes from the first digit read as a decimal
      number, below 10^10 when they are all digits; the cursor advances past them, and
      inside the array the key counter also skips `balance`. */
  lemma AccountNumberWindow(p: Parser, d: nat)
    requires p.pending == Some(AccountNumber)
    requires FirstAt(p.buf, p.cursor, d, DigitByte) && d + AccountNumberWidth <= |p.buf|
    requires p.inArray ==> p.acc.favorites.Some? && p.slot < |p.acc.favorites.value|
    ensures NextToken(p).Ok?
    ensures var n := NextToken(p).value.next; var v := DecimalValue(p.buf[d..d + 10]);
      && n == p.(cursor := d + 10, pending := None, keyIndex := n.keyIndex, acc := n.acc)
      && (!p.inArray ==> n.keyIndex == p.keyIndex && n.acc == p.acc.(accountNumber := Some(v)))
      && (p.inArray ==>
            n.keyIndex == p.keyIndex + 1
            && n.acc == Store(p.acc, p.slot, p.acc.favorites.value[p.slot].(accountNumber := Some(v))))
    ensures AllDigits(p.buf[d..d + 10]) ==> 0 <= DecimalValue(p.buf[d..d + 10]) < Pow(10, 10)
  {
    FindIs(p.buf, p.cursor, d, DigitByte);
    if AllDigits(p.buf[d..d + 10]) {
      DecimalValueRange(p.buf[d..d + 10]);
    }
  }

  /** The `balance` value is the six-byte window from the first digit; it always goes to
      the top-level slot and the cursor advances past it. */
  lemma BalanceWindow(p: Parser, d: nat)
    requires p.pending == Some(Balance)
    requires FirstAt(p.buf, p.cursor, d, DigitByte) && d + BalanceWidth <= |p.buf|
    ensures NextToken(p) ==
      Ok(Step(p.(cursor := d + 6, pending := None, acc := p.acc.(balance := Some(p.buf[d..d + 6]))), ValueToken))
  {
    FindIs(p.buf, p.cursor, d, DigitByte);
  }

  /** The `isActive` value is true exactly when the first `t`/`f` byte is `t`; the cursor
      lands four bytes further for true and five for false. Inside the array it closes
      the nested record: the slot moves on and the key counter restarts. */
  lemma BooleanLiteral(p: Parser, b: nat)
    requires p.pending == Some(IsActive)
    requires FirstAt(p.buf, p.cursor, b, BooleanStart)
    requires p.inArray ==> p.acc.favorites.Some? && p.slot < |p.acc.favorites.value|
    ensures NextToken(p).Ok?
    ensures var n := NextToken(p).value.next; var v := p.buf[b] == LowerT;
      && n.cursor == (if v then b + 4 else b + 5)
      && n == p.(cursor := n.cursor, pending := None, slot := n.slot, keyIndex := n.keyIndex, acc := n.acc)
      && (!p.inArray ==> n.slot == p.slot && n.keyIndex == p.keyIndex && n.acc == p.acc.(isActive := Some(v)))
      && (p.inArray ==>
            n.slot == p.slot + 1 && n.keyIndex == 0
            && n.acc == Store(p.acc, p.slot, p.acc.favorites.value[p.slot].(isActive := Some(v))))
  {
    FindIs(p.buf, p.cursor, b, BooleanStart);
  }

  /** The key skip is not bounded by the buffer: a lone quote moves the cursor past
      the end, so the cursor is not always within the buffer. */
  lemma CursorCanPassEnd()
    ensures var p := Init([Quote]);
      NextToken(p).Ok? && NextToken(p).value.token == KeyToken && NextToken(p).value.next.cursor == 6 > |p.buf|
  {
    FindIs([Quote], 0, 0, QuoteByte);
  }

  /** The `favoriteAccounts` value consumes no byte: it stores three empty nested maps,
      enters array mode and restarts the key counter. */
  lemma EnterArrayStep(p: Parser)
    requires p.pending == Some(FavoriteAccounts)
    ensures NextToken(p) == Ok(Step(p.(inArray := true, pending := None, keyIndex := 0,
      acc := p.acc.(favorites := Some([EmptyNested, EmptyNested, EmptyNested]))), ValueToken))
  {
  }

  /** The counter discipline reachable from a fresh parser. At top level the key counter
      walks `name, accountNumber, balance, isActive, favoriteAccounts`; inside the array it
      only ever stands on `name`, `accountNumber` or `isActive` (0, 1, 3 while awaiting a
      key), and the slot never passes 3. */
  predicate Consistent(p: Parser) {
    && (!p.inArray ==>
          && p.slot == 0 && p.acc.favorites.None?
          && (match p.pending
              case None => p.keyIndex < |AccKeys|
              case Some(k) => 1 <= p.keyIndex <= |AccKeys| && AccKeys[p.keyIndex - 1] == k))
    && (p.inArray ==>
          && p.acc.favorites.Some? && |p.acc.favorites.value| == 3 && p.slot <= 3
          && (match p.pending
              case None => p.keyIndex == 0 || p.keyIndex == 1 || p.keyIndex == 3
              case Some(k) => (p.keyIndex == 1 || p.keyIndex == 2 || p.keyIndex == 4) && AccKeys[p.keyIndex - 1] == k))
  }

  lemma InitConsistent(input: seq<byte>)
    ensures Consistent(Init(input))
  {
  }

  /** Every successful step keeps the counter discipline; in array mode a step touches
      no top-level slot and only the nested record at the current slot; a key step or
      end of input leaves the accumulator alone. */
  lemma StepPreservesConsistent(p: Parser)
    requires Consistent(p) && NextToken(p).Ok?
    ensures Consistent(NextToken(p).value.next)
    ensures p.pending.None? ==> NextToken(p).value.next.acc == p.acc
    ensures p.inArray ==> var a := NextToken(p).value.next.acc;
      && SameTopLevel(a, p.acc) && a.favorites.Some? && |a.favorites.value| == 3
      && forall j :: 0 <= j < 3 && j != p.slot ==> a.favorites.value[j] == p.acc.favorites.value[j]
  {
  }

  /** From a consistent state the only failure is an index fault while a value is read
      (a scan running off the buffer, or a fourth nested record): the key list lookup
      never overruns, a key step never fails, and the nested array is never null. */
  lemma ConsistentFaults(p: Parser)
    requires Consistent(p) && NextToken(p).Err?
    ensures NextToken(p).error == IndexOutOfBounds
    ensures p.pending.Some? && p.pending != Some(FavoriteAccounts)
  {
  }
}
