/**
 The 1800x1000 OpenMP program: centre-based bounce lines at 20 and 1780
 (x) and 20 and 980 (y), the wall loop split across two threads, no
 collision pass, at most 750 circles. Generation is read sequentially.
 */
module ScreenSeqMacParallel {
  import opened Circles
  import opened Generation
  import opened Motion
  import opened Parallel
  import opened Trajectory

  const Cfg := Config(1800, 1000, 20, 5, 750, 20, Interior)

  /** The count check and generation: exactly `count` circles when
      1 <= count <= 750, inside x in [20, 1779], y in [20, 979], speeds in
      [-5, 5]. */
  function Initialize(count: int, draws: seq<nat>): (r: Result<seq<Circle>>)
    requires 1 <= count <= 750 ==> 7 * count <= |draws|
    ensures r.Failure? <==> count < 1 || count > 750
    ensures r.Success? ==> |r.value| == count
    ensures r.Success? ==> forall i :: 0 <= i < |r.value| ==>
      && 20 <= r.value[i].x <= 1779 && 20 <= r.value[i].y <= 979
      && -5 <= r.value[i].dx <= 5 && -5 <= r.value[i].dy <= 5
  {
    Generation.Initialize(Cfg, count, draws)
  }

  /** One frame of the parallel `moveCircles` under any schedule of its
      iterations: each circle is updated from its own state alone, reversing
      dx exactly when its new x is at most 20 or at least 1780 and dy exactly
      when its new y is at most 20 or at least 980; colour and speeds are
      kept, and overlapping circles do not affect each other. */
  method MoveCircles(cs: seq<Circle>, order: seq<nat>) returns (out: seq<Circle>)
    requires IsSchedule(order, |cs|)
    ensures |out| == |cs|
    ensures forall i :: 0 <= i < |cs| ==>
      && out[i].x == cs[i].x + cs[i].dx
      && out[i].y == cs[i].y + cs[i].dy
      && out[i].dx == (if out[i].x <= 20 || out[i].x >= 1780 then -cs[i].dx else cs[i].dx)
      && out[i].dy == (if out[i].y <= 20 || out[i].y >= 980 then -cs[i].dy else cs[i].dy)
      && out[i].color == cs[i].color
      && Abs(out[i].dx) == Abs(cs[i].dx) && Abs(out[i].dy) == Abs(cs[i].dy)
  {
    out := RunSchedule(Cfg, cs, order);
  }

  /** Bounded trajectories: from any generated state, every circle stays in
      x in [15, 1785] and y in [15, 985] for any number of frames. */
  lemma TrajectoryBounded(count: int, draws: seq<nat>, k: nat)
    requires 1 <= count <= 750 ==> 7 * count <= |draws|
    requires Initialize(count, draws).Success?
    ensures var cs := Initialize(count, draws).value;
      forall i :: 0 <= i < |cs| ==>
        && 15 <= Iterate(Cfg, cs, k)[i].x <= 1785
        && 15 <= Iterate(Cfg, cs, k)[i].y <= 985
  {
    GeneratedStaysInBounds(Cfg, Initialize(count, draws).value, k);
  }
}
