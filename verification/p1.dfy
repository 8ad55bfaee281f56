/**
 The 640x480 sequential program: centre-based bounce lines at 20 and 620
 (x) and 20 and 460 (y), no collision pass, at most 750 circles.
 */
module P1 {
  import opened Circles
  import opened Generation
  import opened Motion
  import opened Trajectory
  import Raster

  const Cfg := Config(640, 480, 20, 5, 750, 20, Interior)

  /** The count check and generation: exactly `count` circles when
      1 <= count <= 750, inside the spawn box x in [20, 619],
      y in [20, 459], speeds in [-5, 5]. */
  function Initialize(count: int, draws: seq<nat>): (r: Result<seq<Circle>>)
    requires 1 <= count <= 750 ==> 7 * count <= |draws|
    ensures r.Failure? <==> count < 1 || count > 750
    ensures r.Success? ==> |r.value| == count
    ensures r.Success? ==> forall i :: 0 <= i < |r.value| ==>
      && 20 <= r.value[i].x <= 619 && 20 <= r.value[i].y <= 459
      && -5 <= r.value[i].dx <= 5 && -5 <= r.value[i].dy <= 5
  {
    Generation.Initialize(Cfg, count, draws)
  }

  /** One frame of `moveCircles`: every circle advances by its own
      velocity, reverses dx exactly when its new x is at most 20 or at least
      620, reverses dy exactly when its new y is at most 20 or at least 460,
      and keeps its colour and speeds. */
  method MoveCircles(cs: seq<Circle>) returns (out: seq<Circle>)
    ensures |out| == |cs|
    ensures forall i :: 0 <= i < |cs| ==>
      && out[i].x == cs[i].x + cs[i].dx
      && out[i].y == cs[i].y + cs[i].dy
      && out[i].dx == (if out[i].x <= 20 || out[i].x >= 620 then -cs[i].dx else cs[i].dx)
      && out[i].dy == (if out[i].y <= 20 || out[i].y >= 460 then -cs[i].dy else cs[i].dy)
      && out[i].color == cs[i].color
  {
    out := Motion.MoveCircles(Cfg, cs);
  }

  /** Bounded trajectories: from any generated state, every circle stays in
      x in [15, 625] and y in [15, 465] for any number of frames. */
  lemma TrajectoryBounded(count: int, draws: seq<nat>, k: nat)
    requires 1 <= count <= 750 ==> 7 * count <= |draws|
    requires Initialize(count, draws).Success?
    ensures var cs := Initialize(count, draws).value;
      forall i :: 0 <= i < |cs| ==>
        && 15 <= Iterate(Cfg, cs, k)[i].x <= 625
        && 15 <= Iterate(Cfg, cs, k)[i].y <= 465
  {
    GeneratedStaysInBounds(Cfg, Initialize(count, draws).value, k);
  }

  /** What `render` paints for one circle: the disk of radius 20 centred at
      (x + 20, y + 20). */
  method PaintCircle(c: Circle) returns (pts: seq<Raster.Point>)
    ensures forall p :: p in pts <==> Raster.InDisk(c.x + 20, c.y + 20, 20, p)
    ensures Raster.Point(c.x + 20, c.y + 20) in pts
  {
    pts := Raster.FilledCirclePoints(c.x + 20, c.y + 20, 20);
  }
}
