/**
 Many ticks of the wall-only `moveCircles`: where a circle can go. The
 bounce test fires after the move and only reverses the velocity, so a
 coordinate may sit up to one speed past a bounce line; the invariants below
 show it never gets further than that when it starts between the lines, and
 show the two-tick cycle it falls into when it starts beyond one.
 */
module Trajectory {
  import opened Circles
  import opened Motion
  import opened Generation

  /** `k` ticks of one axis. */
  function IterAxis(lo: int, hi: int, s: AxisState, k: nat): (r: AxisState)
    ensures Abs(r.v) == Abs(s.v)
  {
    if k == 0 then s else AxisStep(lo, hi, IterAxis(lo, hi, s, k - 1))
  }

  /** `k` ticks of one circle. */
  function IterCircle(cfg: Config, c: Circle, k: nat): Circle {
    if k == 0 then c else StepCircle(cfg, IterCircle(cfg, c, k - 1))
  }

  /** `k` ticks of the whole store. */
  function Iterate(cfg: Config, cs: seq<Circle>, k: nat): (r: seq<Circle>)
    ensures |r| == |cs|
  {
    if k == 0 then cs else Tick(cfg, Iterate(cfg, cs, k - 1))
  }

  /** Over any number of ticks each axis of each circle evolves on its own,
      from that circle's own start, and the colour never changes. */
  lemma {:induction false} IterCircleAxes(cfg: Config, c: Circle, k: nat)
    ensures XState(IterCircle(cfg, c, k)) == IterAxis(cfg.Lo(), cfg.HiX(), XState(c), k)
    ensures YState(IterCircle(cfg, c, k)) == IterAxis(cfg.Lo(), cfg.HiY(), YState(c), k)
    ensures IterCircle(cfg, c, k).color == c.color
  {
    if k > 0 {
      IterCircleAxes(cfg, c, k - 1);
    }
  }

  /** The store after `k` ticks is every circle after `k` ticks on its own. */
  lemma {:induction false} IterateIsPerCircle(cfg: Config, cs: seq<Circle>, k: nat)
    ensures forall i :: 0 <= i < |cs| ==> Iterate(cfg, cs, k)[i] == IterCircle(cfg, cs[i], k)
  {
    if k > 0 {
      IterateIsPerCircle(cfg, cs, k - 1);
    }
  }

  /** No lower than one speed below `lo`, now or after the next move. */
  predicate LowerSafe(lo: int, speed: int, s: AxisState) {
    s.p >= lo - speed && (s.v < 0 ==> s.p + s.v >= lo - speed)
  }

  /** No higher than one speed above `hi`, now or after the next move. */
  predicate UpperSafe(hi: int, speed: int, s: AxisState) {
    s.p <= hi + speed && (s.v > 0 ==> s.p + s.v <= hi + speed)
  }

  lemma LowerSafeStep(lo: int, hi: int, speed: int, s: AxisState)
    requires Abs(s.v) <= speed
    requires LowerSafe(lo, speed, s)
    ensures LowerSafe(lo, speed, AxisStep(lo, hi, s))
  {
  }

  lemma UpperSafeStep(lo: int, hi: int, speed: int, s: AxisState)
    requires Abs(s.v) <= speed
    requires UpperSafe(hi, speed, s)
    ensures UpperSafe(hi, speed, AxisStep(lo, hi, s))
  {
  }

  /** Starting on or above the lower line with speed at most `speed`, an axis
      never goes more than `speed` below that line. */
  lemma {:induction false} AxisStaysAboveLower(lo: int, hi: int, speed: int, s: AxisState, k: nat)
    requires lo <= s.p
    requires Abs(s.v) <= speed
    ensures LowerSafe(lo, speed, IterAxis(lo, hi, s, k))
    ensures lo - speed <= IterAxis(lo, hi, s, k).p
  {
    if k > 0 {
      AxisStaysAboveLower(lo, hi, speed, s, k - 1);
      LowerSafeStep(lo, hi, speed, IterAxis(lo, hi, s, k - 1));
    }
  }

  /** Starting between the two lines with speed at most `speed`, an axis stays
      within one speed of the band forever. */
  lemma {:induction false} AxisStaysInBand(lo: int, hi: int, speed: int, s: AxisState, k: nat)
    requires lo <= s.p <= hi
    requires Abs(s.v) <= speed
    ensures LowerSafe(lo, speed, IterAxis(lo, hi, s, k))
    ensures UpperSafe(hi, speed, IterAxis(lo, hi, s, k))
    ensures lo - speed <= IterAxis(lo, hi, s, k).p <= hi + speed
  {
    if k > 0 {
      AxisStaysInBand(lo, hi, speed, s, k - 1);
      LowerSafeStep(lo, hi, speed, IterAxis(lo, hi, s, k - 1));
      UpperSafeStep(lo, hi, speed, IterAxis(lo, hi, s, k - 1));
    }
  }

  /** The upper invariant is kept for any ceiling `top` at or above the
      upper line, not just for the line itself. */
  lemma UpperSafeAboveStep(lo: int, hi: int, top: int, speed: int, s: AxisState)
    requires hi <= top
    requires Abs(s.v) <= speed
    requires UpperSafe(top, speed, s)
    ensures UpperSafe(top, speed, AxisStep(lo, hi, s))
  {
  }

  /** A coordinate that starts at most `top`, which may be past the upper
      line, with speed at most `speed`, never goes more than `speed` above
      `top`. */
  lemma {:induction false} AxisStaysBelow(lo: int, hi: int, top: int, speed: int, s: AxisState, k: nat)
    requires hi <= top
    requires s.p <= top
    requires Abs(s.v) <= speed
    ensures UpperSafe(top, speed, IterAxis(lo, hi, s, k))
    ensures IterAxis(lo, hi, s, k).p <= top + speed
  {
    if k > 0 {
      AxisStaysBelow(lo, hi, top, speed, s, k - 1);
      UpperSafeAboveStep(lo, hi, top, speed, IterAxis(lo, hi, s, k - 1));
    }
  }

  /** A coordinate that is beyond a bounce line now and will still be beyond
      one after its next move is caught: its velocity reverses on every tick
      and it alternates between its start and start + velocity forever. */
  lemma {:induction false} AxisTwoCycle(lo: int, hi: int, s: AxisState, k: nat)
    requires Outside(lo, hi, s.p)
    requires Outside(lo, hi, s.p + s.v)
    ensures IterAxis(lo, hi, s, k) ==
      if k % 2 == 0 then s else AxisState(s.p + s.v, -s.v)
  {
    if k > 0 {
      AxisTwoCycle(lo, hi, s, k - 1);
    }
  }

  /** Bounded trajectories: when the spawn range is aligned with the bounce
      lines, every generated circle stays within one maximum speed of the
      bounce box on both axes, for any number of ticks. */
  lemma GeneratedStaysInBounds(cfg: Config, cs: seq<Circle>, k: nat)
    requires cfg.Valid()
    requires cfg.SpawnAligned()
    requires forall i :: 0 <= i < |cs| ==> Spawned(cfg, cs[i])
    ensures forall i :: 0 <= i < |cs| ==>
      && cfg.Lo() - cfg.maxSpeed <= Iterate(cfg, cs, k)[i].x <= cfg.HiX() + cfg.maxSpeed
      && cfg.Lo() - cfg.maxSpeed <= Iterate(cfg, cs, k)[i].y <= cfg.HiY() + cfg.maxSpeed
  {
    IterateIsPerCircle(cfg, cs, k);
    forall i | 0 <= i < |cs|
      ensures cfg.Lo() - cfg.maxSpeed <= Iterate(cfg, cs, k)[i].x <= cfg.HiX() + cfg.maxSpeed
      ensures cfg.Lo() - cfg.maxSpeed <= Iterate(cfg, cs, k)[i].y <= cfg.HiY() + cfg.maxSpeed
    {
      IterCircleAxes(cfg, cs[i], k);
      AxisStaysInBand(cfg.Lo(), cfg.HiX(), cfg.maxSpeed, XState(cs[i]), k);
      AxisStaysInBand(cfg.Lo(), cfg.HiY(), cfg.maxSpeed, YState(cs[i]), k);
    }
  }

  /** The lower half of the bound needs only that the spawn range starts on
      or above the lower bounce line. */
  lemma GeneratedStaysAboveLower(cfg: Config, cs: seq<Circle>, k: nat)
    requires cfg.Valid()
    requires cfg.Lo() <= cfg.spawnOffset
    requires forall i :: 0 <= i < |cs| ==> Spawned(cfg, cs[i])
    ensures forall i :: 0 <= i < |cs| ==>
      && cfg.Lo() - cfg.maxSpeed <= Iterate(cfg, cs, k)[i].x
      && cfg.Lo() - cfg.maxSpeed <= Iterate(cfg, cs, k)[i].y
  {
    IterateIsPerCircle(cfg, cs, k);
    forall i | 0 <= i < |cs|
      ensures cfg.Lo() - cfg.maxSpeed <= Iterate(cfg, cs, k)[i].x
      ensures cfg.Lo() - cfg.maxSpeed <= Iterate(cfg, cs, k)[i].y
    {
      IterCircleAxes(cfg, cs[i], k);
      AxisStaysAboveLower(cfg.Lo(), cfg.HiX(), cfg.maxSpeed, XState(cs[i]), k);
      AxisStaysAboveLower(cfg.Lo(), cfg.HiY(), cfg.maxSpeed, YState(cs[i]), k);
    }
  }
}
