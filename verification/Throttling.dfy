/** Debug credits: spent one by one per operation, received in batches from the agent. */
module Throttling {
  import opened Prelude

  const MINIMUM_CREDITS := 1.0

  /** The operation name of a request; start_span may be called without one. */
  type Op = Option<string>

  type Credits = map<Op, real>

  /** One element of a response's balances: usable, with an amount that cannot be added, or without its keys. */
  datatype Received = Balance(op: Op, amount: real) | BadAmount(op: Op) | Malformed

  function Credit(c: Credits, op: Op): real {
    if op in c then c[op] else 0.0
  }

  /** is_allowed: the credits after, and the answer. A first request registers the operation. */
  function Ask(c: Credits, op: Op): (Credits, bool) {
    if op !in c then (c[op := 0.0], false)
    else if c[op] < MINIMUM_CREDITS then (c, false)
    else (c[op := c[op] - MINIMUM_CREDITS], true)
  }

  /** _update_credits: the elements up to the first that raises; what was added before it stays. */
  function Update(c: Credits, rs: seq<Received>): (Credits, bool)
    decreases |rs|
  {
    if rs == [] then (c, true)
    else
      match rs[0]
      case Balance(op, amount) => Update(c[op := Credit(c, op) + amount], rs[1..])
      case BadAmount(op) => (c[op := Credit(c, op)], false)
      case Malformed => (c, false)
  }

  class RemoteThrottler {
    var credits: Credits

    constructor ()
      ensures credits == map[]
    {
      credits := map[];
    }

    method IsAllowed(op: Op) returns (ok: bool)
      modifies this
      ensures (credits, ok) == Ask(old(credits), op)
    {
      if op !in credits {
        credits := credits[op := 0.0];
        return false;
      }
      var value := credits[op];
      if value < MINIMUM_CREDITS { return false; }
      credits := credits[op := value - MINIMUM_CREDITS];
      ok := true;
    }

    method UpdateCredits(balances: seq<Received>) returns (ok: bool)
      modifies this
      ensures (credits, ok) == Update(old(credits), balances)
    {
      var i := 0;
      while i < |balances|
        invariant 0 <= i <= |balances| && Update(credits, balances[i..]) == Update(old(credits), balances)
      {
        assert balances[i..][1..] == balances[i + 1..];
        ghost var before := credits;
        var b := balances[i];
        if b.Malformed? { return false; }
        if b.op !in credits { credits := credits[b.op := 0.0]; }
        if b.BadAmount? {
          assert credits == before[b.op := Credit(before, b.op)];
          return false;
        }
        credits := credits[b.op := credits[b.op] + b.amount];
        assert credits == before[b.op := Credit(before, b.op) + b.amount];
        i := i + 1;
      }
      ok := true;
    }
  }

  // ----------------------------------------------------------------- the ledger

  datatype Call = Asks(op: Op) | Updates(balances: seq<Received>)

  /** Credits after a history of calls. */
  function Final(calls: seq<Call>): Credits {
    if calls == [] then map[]
    else
      var c, last := Final(calls[..|calls| - 1]), calls[|calls| - 1];
      match last
      case Asks(op) => Ask(c, op).0
      case Updates(rs) => Update(c, rs).0
  }

  predicate GrantedLast(calls: seq<Call>, op: Op)
    requires calls != []
  {
    calls[|calls| - 1] == Asks(op) && Ask(Final(calls[..|calls| - 1]), op).1
  }

  /** How many requests for an operation were allowed. */
  function Grants(calls: seq<Call>, op: Op): nat {
    if calls == [] then 0 else Grants(calls[..|calls| - 1], op) + if GrantedLast(calls, op) then 1 else 0
  }

  /** What one response adds for an operation, repeated elements included. */
  function Amounts(rs: seq<Received>, op: Op): real {
    if rs == [] || !rs[0].Balance? then 0.0
    else (if rs[0].op == op then rs[0].amount else 0.0) + Amounts(rs[1..], op)
  }

  function ReceivedFor(calls: seq<Call>, op: Op): real {
    if calls == [] then 0.0
    else
      var last := calls[|calls| - 1];
      ReceivedFor(calls[..|calls| - 1], op) + if last.Updates? then Amounts(last.balances, op) else 0.0
  }

  lemma {:induction false} UpdateAdds(c: Credits, rs: seq<Received>, op: Op)
    ensures Credit(Update(c, rs).0, op) == Credit(c, op) + Amounts(rs, op)
    decreases |rs|
  {
    if rs != [] && rs[0].Balance? {
      UpdateAdds(c[rs[0].op := Credit(c, rs[0].op) + rs[0].amount], rs[1..], op);
    }
  }

  /** In every history and for every operation, current credits and grants add up to the balances received. */
  lemma {:induction false} CreditConservation(calls: seq<Call>, op: Op)
    ensures Credit(Final(calls), op) + Grants(calls, op) as real == ReceivedFor(calls, op)
  {
    if calls != [] {
      var before, last := calls[..|calls| - 1], calls[|calls| - 1];
      CreditConservation(before, op);
      if last.Updates? { UpdateAdds(Final(before), last.balances, op); }
    }
  }

  /** A request is allowed exactly when what was received exceeds what was granted by at least one credit. */
  lemma AllowedIff(calls: seq<Call>, op: Op)
    ensures Ask(Final(calls), op).1 <==> ReceivedFor(calls, op) - Grants(calls, op) as real >= MINIMUM_CREDITS
  {
    CreditConservation(calls, op);
  }

  predicate NonNegative(calls: seq<Call>) {
    forall i, j ::
      (0 <= i < |calls| && calls[i].Updates? && 0 <= j < |calls[i].balances| && calls[i].balances[j].Balance?) ==>
        calls[i].balances[j].amount >= 0.0
  }

  lemma {:induction false} AmountsNonNegative(rs: seq<Received>, op: Op)
    requires forall j :: 0 <= j < |rs| && rs[j].Balance? ==> rs[j].amount >= 0.0
    ensures Amounts(rs, op) >= 0.0
  {
    if rs != [] { AmountsNonNegative(rs[1..], op); }
  }

  lemma {:induction false} CreditsStayNonNegative(calls: seq<Call>, op: Op)
    requires NonNegative(calls)
    ensures Credit(Final(calls), op) >= 0.0
  {
    if calls != [] {
      var before, last := calls[..|calls| - 1], calls[|calls| - 1];
      CreditsStayNonNegative(before, op);
      if last.Updates? {
        UpdateAdds(Final(before), last.balances, op);
        AmountsNonNegative(last.balances, op);
      }
    }
  }

  /** With balances that are not negative, an operation is granted at most the whole credits received for it. */
  lemma GrantsWithinReceived(calls: seq<Call>, op: Op)
    requires NonNegative(calls)
    ensures Grants(calls, op) <= ReceivedFor(calls, op).Floor
  {
    CreditConservation(calls, op);
    CreditsStayNonNegative(calls, op);
  }

  /** Credit may be taken back: with a negative balance more can have been granted than was received in the end. */
  lemma NegativeBalancesOverspend()
    ensures var op := Some("op");
            var calls := [Updates([Balance(op, 1.0)]), Asks(op), Updates([Balance(op, -1.0)])];
            Grants(calls, op) == 1 && ReceivedFor(calls, op) == 0.0
  {
    var op := Some("op");
    var plus, minus := [Balance(op, 1.0)], [Balance(op, -1.0)];
    var c1 := [Updates(plus)];
    var c2 := c1 + [Asks(op)];
    var c3 := c2 + [Updates(minus)];
    assert c3[..2] == c2 && c2[..1] == c1 && c1[..0] == [];
    assert plus[1..] == [] && minus[1..] == [] && Amounts([], op) == 0.0;
    assert Amounts(plus, op) == 1.0;
    assert Amounts(minus, op) == -1.0;
    AllowedIff(c1, op);
    assert ReceivedFor(c1, op) == 1.0 && Grants(c1, op) == 0;
    assert GrantedLast(c2, op) && Grants(c2, op) == 1;
    assert c3 == [Updates([Balance(op, 1.0)]), Asks(op), Updates([Balance(op, -1.0)])];
  }


  // ------------------------------------------------------------ known operations

  /** A response names the operation before or in the first element that raises. */
  predicate Named(rs: seq<Received>, op: Op) {
    exists j :: 0 <= j < |rs| && !rs[j].Malformed? && rs[j].op == op && forall i :: 0 <= i < j ==> rs[i].Balance?
  }

  lemma {:induction false} UpdateKnows(c: Credits, rs: seq<Received>, op: Op)
    ensures op in Update(c, rs).0 <==> op in c || Named(rs, op)
    decreases |rs|
  {
    if rs != [] && rs[0].Balance? {
      UpdateKnows(c[rs[0].op := Credit(c, rs[0].op) + rs[0].amount], rs[1..], op);
      if Named(rs[1..], op) {
        var j :| 0 <= j < |rs[1..]| && !rs[1..][j].Malformed? && rs[1..][j].op == op
                 && forall i :: 0 <= i < j ==> rs[1..][i].Balance?;
        assert rs[j + 1] == rs[1..][j] && forall i :: 0 < i <= j ==> rs[i] == rs[1..][i - 1];
      }
      if Named(rs, op) && rs[0].op != op {
        var j :| 0 <= j < |rs| && !rs[j].Malformed? && rs[j].op == op && forall i :: 0 <= i < j ==> rs[i].Balance?;
        assert rs[1..][j - 1] == rs[j] && forall i :: 0 <= i < j - 1 ==> rs[1..][i] == rs[i + 1];
      }
    }
  }

  predicate Mentions(call: Call, op: Op) {
    call == Asks(op) || (call.Updates? && Named(call.balances, op))
  }

  /** The operations that have credits are exactly those that were asked for or named in a response. */
  lemma {:induction false} KnownIff(calls: seq<Call>, op: Op)
    ensures op in Final(calls) <==> exists call :: call in calls && Mentions(call, op)
  {
    hide Update, Named;
    if calls != [] {
      var before, last := calls[..|calls| - 1], calls[|calls| - 1];
      assert calls == before + [last];
      KnownIff(before, op);
      assert forall call :: call in calls <==> call in before || call == last;
      if last.Updates? { UpdateKnows(Final(before), last.balances, op); }
      assert op in Final(calls) <==> op in Final(before) || Mentions(last, op);
    }
  }

  /** A first request is refused and costs nothing. */
  lemma FirstIsRefused(calls: seq<Call>, op: Op)
    requires forall call :: call in calls ==> !Mentions(call, op)
    ensures !Ask(Final(calls), op).1 && Ask(Final(calls), op).0 == Final(calls)[op := 0.0]
  {
    KnownIff(calls, op);
  }
}
