/** The leaky-bucket rate limiter: its value semantics and what any run of calls can spend.
    Times are inputs on a clock that does not run backwards; amounts are reals. */
module TokenBucket {
  import opened Prelude

  datatype Bucket = Bucket(rate: real, cap: real, balance: real, last: real)

  ghost predicate Sane(b: Bucket) {
    b.rate >= 0.0 && b.cap > 0.0 && 0.0 <= b.balance <= b.cap
  }

  /** Credit earned over a span of time. */
  function Earned(rate: real, span: real): (e: real)
    ensures rate >= 0.0 && span >= 0.0 ==> e >= 0.0
    ensures span == 0.0 ==> e == 0.0
  {
    span * rate
  }

  /** The share of a balance x when a bucket of a given size is resized. */
  function Share(resized: real, x: real, size: real): (r: real)
    requires size != 0.0
    ensures 0.0 <= x <= size && resized > 0.0 ==> 0.0 <= r <= resized && r <= x + Max(0.0, resized - size)
  {
    if 0.0 <= x <= size && resized > 0.0 then ShareBounds(x, size, resized); resized * x / size
    else resized * x / size
  }

  lemma ShareBounds(x: real, size: real, resized: real)
    requires 0.0 <= x <= size && size > 0.0 && resized > 0.0
    ensures 0.0 <= resized * x / size <= resized
    ensures resized * x / size <= x + Max(0.0, resized - size)
  {
    var f := x / size;
    assert x == f * size && 0.0 <= f <= 1.0;
    assert resized * x / size == resized * f;
    if resized >= size {
      assert (resized - size) * f <= resized - size;
      assert resized * f == (resized - size) * f + size * f;
    } else {
      assert resized * f <= size * f;
    }
  }

  lemma EarnedAdds(rate: real, t: real, u: real, v: real)
    ensures Earned(rate, u - t) + Earned(rate, v - u) == Earned(rate, v - t)
  {
  }

  function Tick(b: Bucket, now: real): Bucket {
    b.(last := now, balance := Min(b.cap, b.balance + Earned(b.rate, now - b.last)))
  }

  datatype Op = Spend(at: real, cost: real) | Rescale(at: real, rate: real, cap: real)

  /** check_credit and update: the new bucket, and whether credit was granted. */
  function Apply(b: Bucket, op: Op): (Bucket, bool)
    requires b.cap != 0.0
  {
    var ticked := Tick(b, op.at);
    match op
    case Spend(_, cost) =>
      if ticked.balance >= cost then (ticked.(balance := ticked.balance - cost), true) else (ticked, false)
    case Rescale(_, rate, cap) =>
      (Bucket(rate, cap, Share(cap, ticked.balance, ticked.cap), ticked.last), false)
  }

  ghost predicate ValidOp(now: real, op: Op) {
    op.at >= now && (op.Spend? ==> op.cost >= 0.0) && (op.Rescale? ==> op.rate >= 0.0 && op.cap > 0.0)
  }

  /** A run on a clock that does not run backwards. */
  ghost predicate Timed(now: real, ops: seq<Op>)
    decreases |ops|
  {
    ops == [] || (ValidOp(now, ops[0]) && Timed(ops[0].at, ops[1..]))
  }

  /** Credit accrues at the rate. */
  lemma EarnedIs(rate: real, span: real)
    ensures Earned(rate, span) == rate * span
  {
  }

  /** check_credit: the balance is refilled at the rate up to the maximum; then a cost it covers, even exactly, is
      charged, and any other leaves it. */
  lemma SpendExactly(b: Bucket, at: real, cost: real)
    requires b.cap != 0.0
    ensures var filled := b.balance + b.rate * (at - b.last);
            var level := if filled > b.cap then b.cap else filled;
            var (after, ok) := Apply(b, Spend(at, cost));
            && (ok <==> level >= cost)
            && after == Bucket(b.rate, b.cap, if ok then level - cost else level, at)
  {
    hide Earned;
    EarnedIs(b.rate, at - b.last);
    var filled := b.balance + b.rate * (at - b.last);
    assert Tick(b, at).balance == if filled > b.cap then b.cap else filled;
  }

  /** update: the refilled balance keeps its proportion to the maximum. */
  lemma RescaleExactly(b: Bucket, at: real, rate: real, cap: real)
    requires b.cap != 0.0
    ensures var filled := b.balance + b.rate * (at - b.last);
            var level := if filled > b.cap then b.cap else filled;
            var (after, ok) := Apply(b, Rescale(at, rate, cap));
            && !ok && after.rate == rate && after.cap == cap && after.last == at
            && after.balance * b.cap == cap * level
  {
    EarnedIs(b.rate, at - b.last);
    ShareIsProportional(cap, Tick(b, at).balance, b.cap);
  }

  lemma ShareIsProportional(resized: real, x: real, size: real)
    requires size != 0.0
    ensures Share(resized, x, size) * size == resized * x
  {
    DividedBack(resized * x, size);
  }

  lemma DividedBack(y: real, size: real)
    requires size != 0.0
    ensures y / size * size == y
  {
  }

  lemma ApplyKeepsSane(b: Bucket, op: Op)
    requires Sane(b) && ValidOp(b.last, op)
    ensures Sane(Apply(b, op).0) && Apply(b, op).0.last == op.at
  {
  }

  /** The state and the decisions after a run; a rescaling decides false. */
  ghost function Final(b: Bucket, ops: seq<Op>): (r: Bucket)
    requires Sane(b) && Timed(b.last, ops)
    ensures Sane(r)
    decreases |ops|
  {
    if ops == [] then b else ApplyKeepsSane(b, ops[0]); Final(Apply(b, ops[0]).0, ops[1..])
  }

  ghost function Decisions(b: Bucket, ops: seq<Op>): (ds: seq<bool>)
    requires Sane(b) && Timed(b.last, ops)
    ensures |ds| == |ops|
    decreases |ops|
  {
    if ops == [] then []
    else ApplyKeepsSane(b, ops[0]); [Apply(b, ops[0]).1] + Decisions(Apply(b, ops[0]).0, ops[1..])
  }

  // ----------------------------------------------------------- upper bounds

  function Granted(ops: seq<Op>, ds: seq<bool>): real
    requires |ops| == |ds|
  {
    if ops == [] then 0.0
    else (if ops[0].Spend? && ds[0] then ops[0].cost else 0.0) + Granted(ops[1..], ds[1..])
  }

  /** The sum of rate * duration over the run, with the rates in force. */
  function Refill(rate: real, last: real, ops: seq<Op>): real
    decreases |ops|
  {
    if ops == [] then 0.0
    else Earned(rate, ops[0].at - last) + Refill(if ops[0].Rescale? then ops[0].rate else rate, ops[0].at, ops[1..])
  }

  /** The sum of max(0, new - old) over the rescalings. */
  function Growth(cap: real, ops: seq<Op>): real
    decreases |ops|
  {
    if ops == [] then 0.0
    else if ops[0].Spend? then Growth(cap, ops[1..])
    else Max(0.0, ops[0].cap - cap) + Growth(ops[0].cap, ops[1..])
  }

  /** One call: what it grants and leaves is covered by what was there, the refill and the growth. */
  lemma StepBound(b: Bucket, op: Op)
    requires Sane(b) && ValidOp(b.last, op)
    ensures (if op.Spend? && Apply(b, op).1 then op.cost else 0.0) + Apply(b, op).0.balance
            <= b.balance + Earned(b.rate, op.at - b.last) + if op.Rescale? then Max(0.0, op.cap - b.cap) else 0.0
  {
  }

  lemma Unroll(b: Bucket, ops: seq<Op>)
    requires Sane(b) && Timed(b.last, ops) && ops != []
    ensures Sane(Apply(b, ops[0]).0) && Timed(Apply(b, ops[0]).0.last, ops[1..])
    ensures Decisions(b, ops) == [Apply(b, ops[0]).1] + Decisions(Apply(b, ops[0]).0, ops[1..])
    ensures Decisions(b, ops)[1..] == Decisions(Apply(b, ops[0]).0, ops[1..])
    ensures Final(b, ops) == Final(Apply(b, ops[0]).0, ops[1..])
  {
  }

  /** No run spends more than it started with, was refilled with, and gained by rescaling. */
  lemma {:induction false} SpendingBound(b: Bucket, ops: seq<Op>)
    requires Sane(b) && Timed(b.last, ops)
    ensures Granted(ops, Decisions(b, ops)) + Final(b, ops).balance
            <= b.balance + Refill(b.rate, b.last, ops) + Growth(b.cap, ops)
    decreases |ops|
  {
    hide Earned, Share;
    if ops != [] {
      Unroll(b, ops);
      SpendingBound(Apply(b, ops[0]).0, ops[1..]);
      StepBound(b, ops[0]);
    }
  }

  ghost predicate NoRescale(ops: seq<Op>) {
    forall i :: 0 <= i < |ops| ==> ops[i].Spend?
  }

  lemma {:induction false} RefillIsElapsed(rate: real, last: real, ops: seq<Op>)
    requires NoRescale(ops) && ops != []
    ensures Refill(rate, last, ops) == Earned(rate, ops[|ops| - 1].at - last)
    decreases |ops|
  {
    hide Earned;
    if |ops| > 1 {
      RefillIsElapsed(rate, ops[0].at, ops[1..]);
      EarnedAdds(rate, last, ops[0].at, ops[|ops| - 1].at);
    }
  }

  lemma {:induction false} NoGrowth(cap: real, ops: seq<Op>)
    requires NoRescale(ops)
    ensures Growth(cap, ops) == 0.0
    decreases |ops|
  {
    if ops != [] { NoGrowth(cap, ops[1..]); }
  }

  /** Whatever happened before, any window without update grants at most cap + rate * window. */
  lemma WindowBound(b: Bucket, ops: seq<Op>)
    requires Sane(b) && Timed(b.last, ops) && NoRescale(ops) && ops != []
    ensures Granted(ops, Decisions(b, ops)) <= b.cap + Earned(b.rate, ops[|ops| - 1].at - ops[0].at)
  {
    hide Earned, Share;
    var b0 := Tick(b, ops[0].at);
    TickFirst(b, ops);
    SpendingBound(b0, ops);
    RefillIsElapsed(b.rate, ops[0].at, ops);
    NoGrowth(b.cap, ops);
  }

  lemma TickFirst(b: Bucket, ops: seq<Op>)
    requires Sane(b) && Timed(b.last, ops) && ops != []
    ensures var b0 := Tick(b, ops[0].at);
            Sane(b0) && Timed(b0.last, ops) && Decisions(b0, ops) == Decisions(b, ops)
  {
  }

  // ------------------------------------------- the continuous bucket it refines

  /** The level a continuously filling bucket would have at time t. */
  function Level(b: Bucket, t: real): real {
    Tick(b, t).balance
  }

  /** Clipping composes: ticking in between changes nothing. */
  lemma ClippingComposes(b: Bucket, t: real, u: real)
    requires b.rate >= 0.0 && b.last <= t <= u
    ensures Level(Tick(b, t), u) == Level(b, u)
  {
  }

  ghost predicate SameLevel(a: Bucket, b: Bucket, t: real) {
    a.rate == b.rate && a.cap == b.cap && a.last <= t && b.last <= t && Level(a, t) == Level(b, t)
  }

  lemma SameLevelStays(a: Bucket, b: Bucket, t: real, u: real)
    requires SameLevel(a, b, t) && t <= u && a.rate >= 0.0
    ensures SameLevel(a, b, u)
  {
    hide Earned, Share;
    ClippingComposes(a, t, u);
    ClippingComposes(b, t, u);
  }

  /** The ops (or decisions) that keep selects. */
  function Select<T>(xs: seq<T>, keep: seq<bool>): seq<T>
    requires |xs| == |keep|
  {
    if xs == [] then [] else (if keep[0] then [xs[0]] else []) + Select(xs[1..], keep[1..])
  }

  lemma AppliedSameLevel(a: Bucket, b: Bucket, op: Op)
    requires Sane(a) && Sane(b) && SameLevel(a, b, op.at)
    requires ValidOp(a.last, op) && ValidOp(b.last, op)
    ensures Apply(a, op).1 == Apply(b, op).1
    ensures SameLevel(Apply(a, op).0, Apply(b, op).0, op.at)
    ensures op.Spend? && !Apply(a, op).1 ==> SameLevel(Apply(a, op).0, b, op.at)
  {
  }

  /** Two buckets with the same level decide alike when one of them never sees some calls
      that the other refuses. */
  lemma {:induction false} RefusedCallsLeaveNoTrace(a: Bucket, b: Bucket, ops: seq<Op>, keep: seq<bool>)
    requires Sane(a) && Sane(b) && SameLevel(a, b, a.last) && Timed(a.last, ops) && |keep| == |ops|
    requires forall i :: 0 <= i < |ops| && !keep[i] ==> ops[i].Spend? && !Decisions(a, ops)[i]
    ensures Timed(b.last, Select(ops, keep))
    ensures Decisions(b, Select(ops, keep)) == Select(Decisions(a, ops), keep)
    decreases |ops|
  {
    hide Earned, Share;
    if ops != [] {
      var op := ops[0];
      var a1, rest := Apply(a, op).0, Select(ops[1..], keep[1..]);
      var b1 := if keep[0] then Apply(b, op).0 else b;
      SameLevelStays(a, b, a.last, op.at);
      AppliedSameLevel(a, b, op);
      Unroll(a, ops);
      ApplyKeepsSane(b, op);
      forall i | 0 <= i < |ops[1..]| && !keep[1..][i]
        ensures ops[1..][i].Spend? && !Decisions(a1, ops[1..])[i]
      {
        assert !keep[i + 1] && !Decisions(a, ops)[i + 1];
      }
      RefusedCallsLeaveNoTrace(a1, b1, ops[1..], keep[1..]);
      if keep[0] {
        KeepHead(b, op, rest);
      } else {
        assert Select(ops, keep) == rest && Select(Decisions(a, ops), keep) ==
               Select(Decisions(a1, ops[1..]), keep[1..]);
      }
    }
  }

  lemma KeepHead(b: Bucket, op: Op, rest: seq<Op>)
    requires Sane(b) && ValidOp(b.last, op) && Timed(op.at, rest) && Sane(Apply(b, op).0)
             && Apply(b, op).0.last == op.at
    ensures Timed(b.last, [op] + rest)
    ensures Decisions(b, [op] + rest) == [Apply(b, op).1] + Decisions(Apply(b, op).0, rest)
  {
  }

  /** The promise of the lazy tick, for a bucket and any run: delete any refused calls, and every
      remaining call is decided as before. */
  lemma DeletingRefusedCalls(b: Bucket, ops: seq<Op>, keep: seq<bool>)
    requires Sane(b) && Timed(b.last, ops) && |keep| == |ops|
    requires forall i :: 0 <= i < |ops| && !keep[i] ==> ops[i].Spend? && !Decisions(b, ops)[i]
    ensures Timed(b.last, Select(ops, keep))
    ensures Decisions(b, Select(ops, keep)) == Select(Decisions(b, ops), keep)
  {
    RefusedCallsLeaveNoTrace(b, b, ops, keep);
  }

  // ------------------------------------- the rate, read as a bound per second

  /** What a limiter made for r traces per second holds when it is full. */
  function FullBucket(r: real, now: real): Bucket {
    Bucket(r, Max(r, 1.0), Max(r, 1.0), now)
  }

  ghost predicate UnitSpends(ops: seq<Op>) {
    forall i :: 0 <= i < |ops| ==> ops[i].Spend? && ops[i].cost == 1.0
  }

  function Count(ds: seq<bool>): nat {
    if ds == [] then 0 else (if ds[0] then 1 else 0) + Count(ds[1..])
  }

  lemma {:induction false} GrantedIsCount(ops: seq<Op>, ds: seq<bool>)
    requires UnitSpends(ops) && |ds| == |ops|
    ensures Granted(ops, ds) == Count(ds) as real
  {
    if ops != [] { GrantedIsCount(ops[1..], ds[1..]); }
  }

  /** At most r calls are granted in every window shorter than a second, from any state. */
  ghost predicate KeepsPerSecond(r: real) {
    forall b: Bucket, ops: seq<Op> ::
      (Sane(b) && b.rate == r && b.cap == Max(r, 1.0) && Timed(b.last, ops) && UnitSpends(ops) &&
       ops != [] && ops[|ops| - 1].at - ops[0].at < 1.0) ==>
        Count(Decisions(b, ops)) as real <= r
  }

  /** n calls at the same moment. */
  function Burst(n: nat, now: real): (ops: seq<Op>)
    ensures |ops| == n && UnitSpends(ops) && forall i :: 0 <= i < n ==> ops[i].at == now
  {
    if n == 0 then [] else [Spend(now, 1.0)] + Burst(n - 1, now)
  }

  lemma {:induction false} BurstThenOne(b: Bucket, n: nat, later: real)
    requires Sane(b) && n as real <= b.balance && later >= b.last && b.cap >= 1.0
    requires b.balance - n as real + Earned(b.rate, later - b.last) >= 1.0
    ensures var ops := Burst(n, b.last) + [Spend(later, 1.0)];
            Timed(b.last, ops) && Count(Decisions(b, ops)) == n + 1
    decreases n
  {
    hide Share;
    var ops := Burst(n, b.last) + [Spend(later, 1.0)];
    if n == 0 {
      assert ops == [Spend(later, 1.0)];
      assert Decisions(b, ops) == [true] + [];
    } else {
      hide Earned;
      var b1 := Apply(b, Spend(b.last, 1.0)).0;
      assert Tick(b, b.last) == b;
      assert ops[1..] == Burst(n - 1, b1.last) + [Spend(later, 1.0)];
      BurstThenOne(b1, n - 1, later);
      Unroll(b, ops);
    }
  }

  /** How long a full bucket needs to make up for the fraction of its rate. */
  lemma FractionEarned(r: real) returns (n: nat, w: real)
    requires r > 1.0
    ensures n as real <= r < n as real + 1.0 && 0.0 < w < 1.0
    ensures r - n as real + Earned(r, w) == 1.0
  {
    n := r.Floor;
    var missing := 1.0 - (r - n as real);
    w := missing / r;
    assert r * w == missing;
  }

  lemma FasterBreaksIt(r: real)
    requires r > 1.0
    ensures !KeepsPerSecond(r)
  {
    var n, w := FractionEarned(r);
    hide Earned, Share, Decisions;
    var b := FullBucket(r, 0.0);
    BurstThenOne(b, n, w);
    var ops := Burst(n, 0.0) + [Spend(w, 1.0)];
    assert ops[0].at == 0.0 && ops[|ops| - 1].at == w;
  }

  lemma SlowerBreaksIt(r: real)
    requires 0.0 <= r < 1.0
    ensures !KeepsPerSecond(r)
  {
    var b := FullBucket(r, 0.0);
    BurstThenOne(b, 0, 0.0);
    var ops := Burst(0, 0.0) + [Spend(0.0, 1.0)];
    assert ops == [Spend(0.0, 1.0)];
  }

  lemma OneKeepsIt()
    ensures KeepsPerSecond(1.0)
  {
    forall b: Bucket, ops: seq<Op> | Sane(b) && b.rate == 1.0 && b.cap == Max(1.0, 1.0) && Timed(b.last, ops) &&
        UnitSpends(ops) && ops != [] && ops[|ops| - 1].at - ops[0].at < 1.0
      ensures Count(Decisions(b, ops)) as real <= 1.0
    {
      OneInWindow(b, ops);
    }
  }

  lemma OneInWindow(b: Bucket, ops: seq<Op>)
    requires Sane(b) && b.rate == 1.0 && b.cap == 1.0 && Timed(b.last, ops) && UnitSpends(ops) && ops != []
    requires ops[|ops| - 1].at - ops[0].at < 1.0
    ensures Count(Decisions(b, ops)) as real <= 1.0
  {
    hide Decisions, Granted, Count;
    WindowBound(b, ops);
    GrantedIsCount(ops, Decisions(b, ops));
    assert Earned(1.0, ops[|ops| - 1].at - ops[0].at) < 1.0;
  }

  /** "At most r per second", read for every window shorter than a second, holds exactly for r = 1:
      a full bucket gives max(r, 1) at once and refills during the window. WindowBound is what holds for all r. */
  lemma PerSecondIff(r: real)
    requires r >= 0.0
    ensures KeepsPerSecond(r) <==> r == 1.0
  {
    if r > 1.0 {
      FasterBreaksIt(r);
    } else if r < 1.0 {
      SlowerBreaksIt(r);
    } else {
      OneKeepsIt();
    }
  }
}
