/** The forward-only cursor scans of the decoder (`findNextQuote`, `findNextDigit`,
    the boolean scan and the key loop of `nextToken`). */
module Scan {
  import opened Wrappers
  import opened Bytes

  /** The byte classes the decoder scans for. */
  datatype Target = QuoteByte | DigitByte | BooleanStart

  predicate Matches(t: Target, b: byte) {
    match t
    case QuoteByte => b == Quote
    case DigitByte => IsDigit(b)
    case BooleanStart => b == LowerF || b == LowerT
  }

  /** No byte at an index in [from, to) of `buf` matches `t`. */
  predicate NoneMatch(buf: seq<byte>, from: nat, to: nat, t: Target) {
    forall j :: from <= j < to && j < |buf| ==> !Matches(t, buf[j])
  }

  /** The first index at or after `from` whose byte matches `t`, or `None` when the
      buffer ends first (where the unguarded Java loops index past the array). */
  function Find(buf: seq<byte>, from: nat, t: Target): (r: Option<nat>)
    decreases |buf| - from
    ensures r.Some? ==> from <= r.value < |buf| && Matches(t, buf[r.value])
    ensures r.Some? ==> NoneMatch(buf, from, r.value, t)
    ensures r.None? <==> NoneMatch(buf, from, |buf|, t)
  {
    if from >= |buf| then None
    else if Matches(t, buf[from]) then Some(from)
    else Find(buf, from + 1, t)
  }

  /** A matching byte preceded only by non-matching ones is the one `Find` reports. */
  lemma FindIs(buf: seq<byte>, from: nat, at: nat, t: Target)
    requires from <= at < |buf| && Matches(t, buf[at]) && NoneMatch(buf, from, at, t)
    ensures Find(buf, from, t) == Some(at)
  {
  }
}
