/** Closing several reporters at once: one future for all of theirs, resolved by a counting callback. */
module CompositeReporter {

  function Below(n: nat): (s: set<nat>)
    ensures forall i: nat :: i in s <==> i < n
  {
    if n == 0 then {} else Below(n - 1) + {n - 1}
  }

  lemma {:induction false} BelowCount(n: nat)
    ensures |Below(n)| == n
  {
    if n > 0 {
      BelowCount(n - 1);
    }
  }

  /** A set of reporters numbers them all exactly when the count says so. */
  lemma {:induction false} AllCounted(s: set<nat>, n: nat)
    requires forall i :: i in s ==> i < n
    ensures |s| <= n
    ensures |s| == n <==> s == Below(n)
  {
    BelowCount(n);
    if s == {} {
      if n > 0 { assert 0 in Below(n); }
    } else {
      var rest := Below(n) - s;
      assert s !! rest && s + rest == Below(n);
      assert |s| + |rest| == |Below(n)|;
    }
  }

  /** One call of close() on a composite of so many reporters. */
  class Closing {
    const reporters: nat
    var count: nat
    var resolved: bool
    /** The reporters whose own close() future is resolved. */
    ghost var done: set<nat>

    /** The future is resolved exactly when there is a reporter and all of them are closed. */
    ghost predicate Valid()
      reads this
    {
      && (forall i :: i in done ==> i < reporters)
      && count == |done|
      && (resolved <==> reporters > 0 && done == Below(reporters))
    }

    constructor (reporters: nat)
      ensures Valid() && this.reporters == reporters && done == {} && count == 0
    {
      this.reporters := reporters;
      count, resolved, done := 0, false, {};
      new;
      if reporters > 0 { assert 0 in Below(reporters) && 0 !in done; }
    }

    /** The done callback of one reporter's future. It never resolves the future a second time. */
    method OnClose(ghost who: nat)
      requires Valid() && who < reporters && who !in done
      modifies this
      ensures Valid() && done == old(done) + {who}
      ensures !old(resolved)
      ensures resolved <==> done == Below(reporters)
    {
      AllCounted(done, reporters);
      assert who in Below(reporters);
      count := count + 1;
      done := done + {who};
      AllCounted(done, reporters);
      if count == reporters { resolved := true; }
    }
  }

  /** A composite of no reporters never resolves the future of its close(). */
  lemma EmptyNeverResolves(c: Closing)
    requires c.Valid() && c.reporters == 0
    ensures !c.resolved && c.count == 0
  {
  }
}
