/** `AdhocJsonMapper.readValue`: drain the parser, then assemble an `Account` with
    exactly three `OtherAccount`s from the accumulator. */
module Mapper {
  import opened Wrappers
  import opened Bytes
  import opened Parser
  import opened ParserFacts

  /** A favourite account: no balance. A missing name stays null. */
  datatype OtherAccount = OtherAccount(name: Option<seq<byte>>, accountNumber: int, isActive: bool)

  /** The decoded record; the balance is the raw six-byte window. */
  datatype Account = Account(
    name: Option<seq<byte>>,
    accountNumber: int,
    balance: seq<byte>,
    isActive: bool,
    favoriteAccounts: seq<OtherAccount>)

  /** A parser that has reported end of input: asking again changes nothing. */
  predicate Drained(p: Parser) {
    p.pending.None? && p.cursor >= |p.buf|
  }

  /** The `while (nextToken() != null)` loop: steps until end of input, or the first fault. */
  function Drain(p: Parser): (r: Result<Parser, Fault>)
    decreases Measure(p)
    ensures r.Ok? ==> r.value.buf == p.buf && p.cursor <= r.value.cursor && Drained(r.value)
    ensures r.Ok? ==> NextToken(r.value) == Ok(Step(r.value, EndOfInput))
  {
    match NextToken(p)
    case Err(e) => Err(e)
    case Ok(s) =>
      if s.token == EndOfInput then Ok(s.next) else Drain(s.next)
  }

  /** A nested map carries the two fields an `OtherAccount` cannot do without. */
  predicate NestedComplete(n: Nested) {
    n.accountNumber.Some? && n.isActive.Some?
  }

  /** Every value the assembly unboxes is present. */
  predicate Complete(acc: Accumulator) {
    && acc.accountNumber.Some? && acc.balance.Some? && acc.isActive.Some?
    && acc.favorites.Some? && |acc.favorites.value| >= 3
    && forall i :: 0 <= i < 3 ==> NestedComplete(acc.favorites.value[i])
  }

  /** `o` carries exactly the fields of the nested map `n`. */
  predicate OtherFrom(o: OtherAccount, n: Nested) {
    o.name == n.name && Some(o.accountNumber) == n.accountNumber && Some(o.isActive) == n.isActive
  }

  /** `getOtherAccountValues`: entry `idx` of the stored array. The mapper reads the
      same map entry as the parser's `getOthersAccounts()[posOacc]`, so it is that lookup. */
  function OtherAccountValues(acc: Accumulator, idx: nat): (r: Result<Nested, Fault>)
    ensures r.Ok? <==> acc.favorites.Some? && idx < |acc.favorites.value|
    ensures r.Ok? ==> r.value == acc.favorites.value[idx]
  {
    Favorite(acc, idx)
  }

  /** `composeOtherAccount`: the nested name, account number and flag; a nested balance is never read. */
  function ComposeOtherAccount(acc: Accumulator, idx: nat): (r: Result<OtherAccount, Fault>)
    ensures r.Ok? <==> OtherAccountValues(acc, idx).Ok? && NestedComplete(OtherAccountValues(acc, idx).value)
    ensures r.Ok? ==> OtherFrom(r.value, acc.favorites.value[idx])
  {
    match OtherAccountValues(acc, idx)
    case Err(e) => Err(e)
    case Ok(n) =>
      match (n.accountNumber, n.isActive)
      case (Some(num), Some(active)) => Ok(OtherAccount(n.name, num, active))
      case _ => Err(NullPointer)
  }

  /** `a` carries exactly the top-level fields of `acc`, and its three favourites the
      fields of nested maps 0, 1 and 2 in that order. */
  predicate AssembledFrom(a: Account, acc: Accumulator)
    requires Complete(acc)
  {
    && a.name == acc.name
    && Some(a.accountNumber) == acc.accountNumber
    && Some(a.balance) == acc.balance
    && Some(a.isActive) == acc.isActive
    && |a.favoriteAccounts| == 3
    && forall i :: 0 <= i < 3 ==> OtherFrom(a.favoriteAccounts[i], acc.favorites.value[i])
  }

  /** The assembly after draining: the four top-level fields and three favourites built
      from nested entries 0, 1 and 2 in that order. */
  function ReadAccount(acc: Accumulator): (r: Result<Account, Fault>)
    ensures r.Ok? <==> Complete(acc)
    ensures r.Ok? ==> AssembledFrom(r.value, acc)
  {
    match (acc.accountNumber, acc.balance, acc.isActive)
    case (Some(num), Some(bal), Some(active)) =>
      (match (ComposeOtherAccount(acc, 0), ComposeOtherAccount(acc, 1), ComposeOtherAccount(acc, 2))
       case (Ok(o0), Ok(o1), Ok(o2)) => Ok(Account(acc.name, num, bal, active, [o0, o1, o2]))
       case (Err(e), _, _) => Err(e)
       case (_, Err(e), _) => Err(e)
       case (_, _, Err(e)) => Err(e))
    case _ => Err(NullPointer)
  }

  /** The private `readValue(parser, type)`: the accumulator is read only once the parser
      has reported end of input. */
  function ReadValue(p: Parser): (r: Result<Account, Fault>)
    ensures r.Ok? <==> Drain(p).Ok? && Complete(Drain(p).value.acc)
    ensures r.Ok? ==> NextToken(Drain(p).value) == Ok(Step(Drain(p).value, EndOfInput))
    ensures r.Ok? ==> AssembledFrom(r.value, Drain(p).value.acc)
    ensures Drain(p).Err? ==> r == Err(Drain(p).error)
  {
    match Drain(p)
    case Err(e) => Err(e)
    case Ok(q) => ReadAccount(q.acc)
  }

  /** `readValue(byte[], type)`: a fresh parser per call, so the result depends on the
      bytes alone. What it holds is `ReadValue`'s contract on that parser; how it fails
      is `DecodeFaults`. */
  function Decode(input: seq<byte>): (r: Result<Account, Fault>)
    ensures r.Ok? ==> |r.value.favoriteAccounts| == 3
  {
    ReadValue(Init(input))
  }

  /** Draining a consistent parser keeps it consistent, and the only fault the loop can
      raise is an index fault. */
  lemma {:induction false} DrainConsistent(p: Parser)
    requires Consistent(p)
    ensures Drain(p).Ok? ==> Consistent(Drain(p).value)
    ensures Drain(p).Err? ==> Drain(p).error == IndexOutOfBounds
    decreases Measure(p)
  {
    match NextToken(p)
    case Err(_) =>
      ConsistentFaults(p);
    case Ok(s) =>
      StepPreservesConsistent(p);
      if s.token != EndOfInput {
        DrainConsistent(s.next);
      }
  }

  /** The assembly fails only by unboxing a missing value, provided the nested array is
      either absent or holds three records. */
  lemma AssemblyFaults(acc: Accumulator)
    requires acc.favorites.Some? ==> |acc.favorites.value| == 3
    ensures ReadAccount(acc).Err? ==> ReadAccount(acc).error == NullPointer
  {
  }

  /** The two kinds of failure of `Decode` are told apart by where they arise: an index
      fault comes from the token loop, a null dereference from the assembly. */
  lemma DecodeFaults(input: seq<byte>)
    ensures Decode(input).Err? ==>
      (Decode(input).error == IndexOutOfBounds <==> Drain(Init(input)).Err?)
  {
    InitConsistent(input);
    DrainConsistent(Init(input));
    var d := Drain(Init(input));
    if d.Ok? {
      AssemblyFaults(d.value.acc);
    }
  }
}
