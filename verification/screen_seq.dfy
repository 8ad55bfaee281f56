/**
 `ScreenSeq.cpp`, the first 640x480 program: anchor-based bounce lines at 0 and 600 (x)
 and 0 and 440 (y), no collision pass, at most 100 circles. It spawns
 coordinates with the same formula as the other programs, `+ R` and all, so
 the spawn range [20, 619] reaches past the upper bounce line 600 (and
 [20, 459] past 440).
 */
module ScreenSeq {
  import opened Circles
  import opened Generation
  import opened Motion
  import opened Trajectory

  const Cfg := Config(640, 480, 20, 5, 100, 20, Anchor)

  /** The same program with the spawn range moved onto the anchor box,
      [0, 599] by [0, 439]. */
  const AlignedCfg := Config(640, 480, 20, 5, 100, 0, Anchor)

  /** The count check and generation: exactly `count` circles when
      1 <= count <= 100, inside x in [20, 619], y in [20, 459], speeds in
      [-5, 5]. */
  function Initialize(count: int, draws: seq<nat>): (r: Result<seq<Circle>>)
    requires 1 <= count <= 100 ==> 7 * count <= |draws|
    ensures r.Failure? <==> count < 1 || count > 100
    ensures r.Success? ==> |r.value| == count
    ensures r.Success? ==> forall i :: 0 <= i < |r.value| ==>
      && 20 <= r.value[i].x <= 619 && 20 <= r.value[i].y <= 459
      && -5 <= r.value[i].dx <= 5 && -5 <= r.value[i].dy <= 5
  {
    Generation.Initialize(Cfg, count, draws)
  }

  /** One frame of `moveCircles`: dx reverses exactly when the new x is at
      most 0 or at least 600, dy exactly when the new y is at most 0 or at
      least 440; colour and speeds are kept. */
  method MoveCircles(cs: seq<Circle>) returns (out: seq<Circle>)
    ensures |out| == |cs|
    ensures forall i :: 0 <= i < |cs| ==>
      && out[i].x == cs[i].x + cs[i].dx
      && out[i].y == cs[i].y + cs[i].dy
      && out[i].dx == (if out[i].x <= 0 || out[i].x >= 600 then -cs[i].dx else cs[i].dx)
      && out[i].dy == (if out[i].y <= 0 || out[i].y >= 440 then -cs[i].dy else cs[i].dy)
      && out[i].color == cs[i].color
      && Abs(out[i].dx) == Abs(cs[i].dx) && Abs(out[i].dy) == Abs(cs[i].dy)
  {
    out := Motion.MoveCircles(Cfg, cs);
  }

  /** Bounded trajectories as written: from any generated state, every
      circle stays in x in [-5, 624] and y in [-5, 464] for any number of
      frames. The upper bound is the top of the spawn range plus one speed,
      not the bounce line plus one speed, because of the overshoot below. */
  lemma TrajectoryBounded(count: int, draws: seq<nat>, k: nat)
    requires 1 <= count <= 100 ==> 7 * count <= |draws|
    requires Initialize(count, draws).Success?
    ensures var cs := Initialize(count, draws).value;
      forall i :: 0 <= i < |cs| ==>
        && -5 <= Iterate(Cfg, cs, k)[i].x <= 624
        && -5 <= Iterate(Cfg, cs, k)[i].y <= 464
  {
    var cs := Initialize(count, draws).value;
    GeneratedStaysAboveLower(Cfg, cs, k);
    IterateIsPerCircle(Cfg, cs, k);
    forall i | 0 <= i < |cs|
      ensures Iterate(Cfg, cs, k)[i].x <= 624 && Iterate(Cfg, cs, k)[i].y <= 464
    {
      IterCircleAxes(Cfg, cs[i], k);
      AxisStaysBelow(0, 600, 619, 5, XState(cs[i]), k);
      AxisStaysBelow(0, 440, 459, 5, YState(cs[i]), k);
    }
  }

  /** The overshoot: a generated circle with x >= 605 is beyond the bounce
      line now and after its next move, so it reverses on every frame and
      alternates between x and x + dx forever, never returning below 600;
      the same holds for y >= 445 against 440. */
  lemma OvershootSticks(c: Circle, k: nat)
    requires Spawned(Cfg, c)
    ensures c.x >= 605 ==>
      && IterCircle(Cfg, c, k).x == (if k % 2 == 0 then c.x else c.x + c.dx)
      && IterCircle(Cfg, c, k).x >= 600
    ensures c.y >= 445 ==>
      && IterCircle(Cfg, c, k).y == (if k % 2 == 0 then c.y else c.y + c.dy)
      && IterCircle(Cfg, c, k).y >= 440
  {
    IterCircleAxes(Cfg, c, k);
    if c.x >= 605 {
      AxisTwoCycle(0, 600, XState(c), k);
    }
    if c.y >= 445 {
      AxisTwoCycle(0, 440, YState(c), k);
    }
  }

  /** Such circles are generated: the draws below give x = 610, dx = 3, and
      that circle shuttles between 610 and 613 for ever. */
  lemma OvershootExample(k: nat)
    ensures var c := SpawnCircle(Cfg, [590, 0, 8, 5, 0, 0, 0]);
      && c.x == 610 && c.dx == 3
      && IterCircle(Cfg, c, k).x == (if k % 2 == 0 then 610 else 613)
  {
    var c := SpawnCircle(Cfg, [590, 0, 8, 5, 0, 0, 0]);
    OvershootSticks(c, k);
  }

  /** With the spawn range moved onto the anchor box, every generated circle
      stays in x in [-5, 605] and y in [-5, 445] for any number of frames. */
  lemma AlignedTrajectoryBounded(count: int, draws: seq<nat>, k: nat)
    requires 1 <= count <= 100 ==> 7 * count <= |draws|
    requires Generation.Initialize(AlignedCfg, count, draws).Success?
    ensures var cs := Generation.Initialize(AlignedCfg, count, draws).value;
      forall i :: 0 <= i < |cs| ==>
        && -5 <= Iterate(AlignedCfg, cs, k)[i].x <= 605
        && -5 <= Iterate(AlignedCfg, cs, k)[i].y <= 445
  {
    GeneratedStaysInBounds(AlignedCfg, Generation.Initialize(AlignedCfg, count, draws).value, k);
  }
}
