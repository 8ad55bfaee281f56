/**
 The per-circle part of `moveCircles`: advance each coordinate by its
 velocity, then reverse a velocity component when the new coordinate is at
 or past one of that axis's bounce lines. The two axes never interact, so the
 update is written once for one axis and applied to x and y.
 */
module Motion {
  import opened Circles

  /** A coordinate and its velocity component. */
  datatype AxisState = AxisState(p: int, v: int)

  /** At or past one of the bounce lines `lo`, `hi`. */
  predicate Outside(lo: int, hi: int, p: int) {
    p <= lo || p >= hi
  }

  /** One axis of one tick. */
  function AxisStep(lo: int, hi: int, s: AxisState): (r: AxisState)
    ensures r.p == s.p + s.v
    ensures Outside(lo, hi, r.p) ==> r.v == -s.v
    ensures !Outside(lo, hi, r.p) ==> r.v == s.v
    ensures Abs(r.v) == Abs(s.v)
  {
    var p := s.p + s.v;
    if p <= lo || p >= hi then AxisState(p, -s.v) else AxisState(p, s.v)
  }

  function XState(c: Circle): AxisState { AxisState(c.x, c.dx) }
  function YState(c: Circle): AxisState { AxisState(c.y, c.dy) }

  /** The body of the `moveCircles` wall loop for one circle. Each axis
      evolves on its own; the colour is untouched; speeds keep their
      magnitude. */
  function StepCircle(cfg: Config, c: Circle): (r: Circle)
    ensures XState(r) == AxisStep(cfg.Lo(), cfg.HiX(), XState(c))
    ensures YState(r) == AxisStep(cfg.Lo(), cfg.HiY(), YState(c))
    ensures r.x == c.x + c.dx && r.y == c.y + c.dy
    ensures r.dx == (if Outside(cfg.Lo(), cfg.HiX(), r.x) then -c.dx else c.dx)
    ensures r.dy == (if Outside(cfg.Lo(), cfg.HiY(), r.y) then -c.dy else c.dy)
    ensures r.color == c.color
    ensures Abs(r.dx) == Abs(c.dx) && Abs(r.dy) == Abs(c.dy)
  {
    var x := AxisStep(cfg.Lo(), cfg.HiX(), XState(c));
    var y := AxisStep(cfg.Lo(), cfg.HiY(), YState(c));
    Circle(x.p, y.p, x.v, y.v, c.color)
  }

  /** One whole wall pass: every circle stepped on its own. */
  function Tick(cfg: Config, cs: seq<Circle>): (r: seq<Circle>)
    ensures |r| == |cs|
    ensures forall i :: 0 <= i < |cs| ==> r[i] == StepCircle(cfg, cs[i])
  {
    seq(|cs|, i requires 0 <= i < |cs| => StepCircle(cfg, cs[i]))
  }

  /** The wall loop as the sequential programs run it: a range-for over the
      vector, updating each element in place in ascending order. */
  method MoveCircles(cfg: Config, cs: seq<Circle>) returns (out: seq<Circle>)
    ensures out == Tick(cfg, cs)
    ensures forall i :: 0 <= i < |cs| ==>
      && out[i].color == cs[i].color
      && Abs(out[i].dx) == Abs(cs[i].dx)
      && Abs(out[i].dy) == Abs(cs[i].dy)
  {
    out := cs;
    var i := 0;
    while i < |out|
      invariant |out| == |cs|
      invariant 0 <= i <= |cs|
      invariant forall k :: 0 <= k < i ==> out[k] == StepCircle(cfg, cs[k])
      invariant forall k :: i <= k < |cs| ==> out[k] == cs[k]
    {
      out := out[i := StepCircle(cfg, out[i])];
      i := i + 1;
    }
  }

  /** A circle's next state depends on nothing but its own current state:
      whatever the other circles are, circle `i` steps the same way. */
  lemma TickIsLocal(cfg: Config, cs: seq<Circle>, ds: seq<Circle>, i: nat)
    requires i < |cs| && i < |ds|
    requires cs[i] == ds[i]
    ensures Tick(cfg, cs)[i] == Tick(cfg, ds)[i]
  {
  }
}
