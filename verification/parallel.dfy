/**
 The OpenMP `moveCircles`: the same per-circle body run as a parallel loop
 over the indices. Each iteration reads and writes only its own element, so
 the model lets the iterations run in any order: a schedule is a sequence of
 indices, and running it applies the body at those indices one after
 another. Two threads interleaving their halves are one such order.
 */
module Parallel {
  import opened Circles
  import opened Motion

  /** The loop body for index `i`, applied to the shared vector. */
  function StepAt(cfg: Config, cs: seq<Circle>, i: nat): (r: seq<Circle>)
    requires i < |cs|
    ensures |r| == |cs|
    ensures r[i] == StepCircle(cfg, cs[i])
    ensures forall k :: 0 <= k < |cs| && k != i ==> r[k] == cs[k]
  {
    cs[i := StepCircle(cfg, cs[i])]
  }

  predicate Indices(order: seq<nat>, n: nat) {
    forall k :: 0 <= k < |order| ==> order[k] < n
  }

  predicate Distinct(order: seq<nat>) {
    forall a, b :: 0 <= a < b < |order| ==> order[a] != order[b]
  }

  /** A schedule of the parallel loop: every index exactly once. */
  predicate IsSchedule(order: seq<nat>, n: nat) {
    && Indices(order, n)
    && Distinct(order)
    && forall i :: 0 <= i < n ==> i in order
  }

  /** The vector after the iterations in `order` have run, in that order. */
  function Run(cfg: Config, cs: seq<Circle>, order: seq<nat>): (r: seq<Circle>)
    requires Indices(order, |cs|)
    ensures |r| == |cs|
    decreases |order|
  {
    if order == [] then cs
    else StepAt(cfg, Run(cfg, cs, order[..|order| - 1]), order[|order| - 1])
  }

  /** After running distinct iterations, an element has been stepped exactly
      when its index was scheduled, and stepped from its original value. */
  lemma {:induction false} RunEffect(cfg: Config, cs: seq<Circle>, order: seq<nat>)
    requires Indices(order, |cs|)
    requires Distinct(order)
    ensures forall i :: 0 <= i < |cs| ==>
      Run(cfg, cs, order)[i] == if i in order then StepCircle(cfg, cs[i]) else cs[i]
    decreases |order|
  {
    if order != [] {
      var front := order[..|order| - 1];
      var last := order[|order| - 1];
      RunEffect(cfg, cs, front);
      assert order == front + [last];
      assert last !in front by {
        forall k | 0 <= k < |front|
          ensures front[k] != last
        {
          assert front[k] == order[k];
        }
      }
      forall i | 0 <= i < |cs|
        ensures Run(cfg, cs, order)[i] == if i in order then StepCircle(cfg, cs[i]) else cs[i]
      {
        if i == last {
          assert i in order;
        } else {
          assert (i in order) == (i in front);
        }
      }
    }
  }

  /** Parallel equals sequential: every schedule of the parallel loop leaves
      the vector exactly as the ascending sequential loop does. */
  lemma ScheduleMatchesSequential(cfg: Config, cs: seq<Circle>, order: seq<nat>)
    requires IsSchedule(order, |cs|)
    ensures Run(cfg, cs, order) == Tick(cfg, cs)
  {
    RunEffect(cfg, cs, order);
  }

  /** The indices `lo .. hi - 1` in ascending order. */
  function Range(lo: nat, hi: nat): (r: seq<nat>)
    requires lo <= hi
    ensures |r| == hi - lo
    ensures forall k :: 0 <= k < |r| ==> r[k] == lo + k
  {
    seq(hi - lo, k requires 0 <= k < hi - lo => lo + k)
  }

  /** The two-thread static split: thread 0 takes `0 .. k - 1` and thread 1
      takes `k .. n - 1`. Whichever thread finishes first, the result is the
      sequential one. */
  lemma TwoThreadSplit(cfg: Config, cs: seq<Circle>, k: nat)
    requires k <= |cs|
    ensures Run(cfg, cs, Range(0, k) + Range(k, |cs|)) == Tick(cfg, cs)
    ensures Run(cfg, cs, Range(k, |cs|) + Range(0, k)) == Tick(cfg, cs)
  {
    var n := |cs|;
    var ab := Range(0, k) + Range(k, n);
    var ba := Range(k, n) + Range(0, k);
    forall i | 0 <= i < n ensures i in ab && i in ba {
      if i < k {
        assert ab[i] == i;
        assert ba[n - k + i] == i;
      } else {
        assert ab[i] == i;
        assert ba[i - k] == i;
      }
    }
    ScheduleMatchesSequential(cfg, cs, ab);
    ScheduleMatchesSequential(cfg, cs, ba);
  }

  /** The parallel loop under one schedule: the body runs at each scheduled
      index in turn, on the shared vector. Whatever the schedule, the result
      is the sequential pass. */
  method RunSchedule(cfg: Config, cs: seq<Circle>, order: seq<nat>) returns (out: seq<Circle>)
    requires IsSchedule(order, |cs|)
    ensures out == Tick(cfg, cs)
  {
    out := cs;
    var k := 0;
    while k < |order|
      invariant 0 <= k <= |order|
      invariant out == Run(cfg, cs, order[..k])
    {
      assert order[..k + 1][..k] == order[..k];
      out := StepAt(cfg, out, order[k]);
      k := k + 1;
    }
    assert order[..|order|] == order;
    ScheduleMatchesSequential(cfg, cs, order);
  }
}
