/**
 The 1800x1000 sequential program with collisions: centre-based bounce
 lines at 20 and 1780 (x) and 20 and 980 (y), then the pairwise collision
 pass with threshold (2 * 20)^2 = 1600, at most 750 circles.
 */
module ScreenSeqMac {
  import opened Circles
  import opened Generation
  import opened Motion
  import opened Pairs
  import opened Collision

  const Cfg := Config(1800, 1000, 20, 5, 750, 20, Interior)

  /** The count check and generation: exactly `count` circles when
      1 <= count <= 750, inside x in [20, 1779], y in [20, 979], speeds in
      [-5, 5]. */
  function Initialize(count: int, draws: seq<nat>): (r: Result<seq<Circle>>)
    requires 1 <= count <= 750 ==> 7 * count <= |draws|
    ensures r.Failure? <==> count < 1 || count > 750
    ensures r.Success? ==> |r.value| == count
    ensures r.Success? ==> forall i :: 0 <= i < |r.value| ==>
      && 20 <= r.value[i].x <= 1779 && 20 <= r.value[i].y <= 979
      && -5 <= r.value[i].dx <= 5 && -5 <= r.value[i].dy <= 5
  {
    Generation.Initialize(Cfg, count, draws)
  }

  /** One frame of `moveCircles` with the coincident-centre guard: the wall
      pass, then the collision pass. The count and every colour are kept;
      each circle's velocity is its wall-pass velocity reversed once per
      touching pair it was in, so |dx| and |dy| never change; a circle in no
      touching pair leaves the frame exactly as the wall pass left it. */
  method MoveCircles(cs: seq<Circle>, nudge: Nudge) returns (out: seq<Circle>, hits: seq<Pair>)
    ensures |out| == |cs|
    ensures forall k :: 0 <= k < |cs| ==>
      && out[k].dx == Flip(StepCircle(Cfg, cs[k]).dx, Involvements(hits, k))
      && out[k].dy == Flip(StepCircle(Cfg, cs[k]).dy, Involvements(hits, k))
      && out[k].color == cs[k].color
      && Abs(out[k].dx) == Abs(cs[k].dx)
      && Abs(out[k].dy) == Abs(cs[k].dy)
    ensures forall k :: 0 <= k < |cs| && Involvements(hits, k) == 0 ==> out[k] == StepCircle(Cfg, cs[k])
    ensures out == Pass(Cfg, Tick(Cfg, cs), AllPairs(|cs|), nudge).circles
    ensures hits == Pass(Cfg, Tick(Cfg, cs), AllPairs(|cs|), nudge).hits
  {
    var walled := Motion.MoveCircles(Cfg, cs);
    out, hits := CollisionPass(Cfg, walled, nudge);
  }

  /** One frame as written: the wall pass, then the unguarded collision
      pass, which has no outcome once it reaches touching circles with
      coincident centres. */
  function MoveCirclesAsWritten(cs: seq<Circle>, nudge: Nudge): (r: Result<seq<Circle>>)
    ensures r.Success? ==> |r.value| == |cs|
    ensures r.Failure? ==> r.error.CoincidentCentres? && r.error.i < r.error.j < |cs|
  {
    PassAsWritten(Cfg, Tick(Cfg, cs), AllPairs(|cs|), nudge)
  }

  /** The unguarded frame fails exactly when the guarded one meets a
      touching pair with coincident centres, and otherwise agrees with it. */
  lemma AsWrittenAgreesUnlessCoincident(cs: seq<Circle>, nudge: Nudge)
    ensures var g := Pass(Cfg, Tick(Cfg, cs), AllPairs(|cs|), nudge);
      && (MoveCirclesAsWritten(cs, nudge).Failure? <==> g.coincident != [])
      && (MoveCirclesAsWritten(cs, nudge).Success? ==> MoveCirclesAsWritten(cs, nudge).value == g.circles)
  {
    AsWrittenFailsOnlyOnCoincidence(Cfg, Tick(Cfg, cs), AllPairs(|cs|), nudge);
  }

  /** Coincident centres are reachable: two circles generated from the same
      seven draws move identically through the wall pass, touch with distance
      zero, and the frame as written cannot complete. */
  lemma IdenticalDrawsBreakFrame(d: seq<nat>, nudge: Nudge)
    requires |d| == 7
    ensures var cs := Generation.Generate(Cfg, 2, d + d);
      MoveCirclesAsWritten(cs, nudge) == Failure(CoincidentCentres(0, 1))
  {
    var cs := Generation.Generate(Cfg, 2, d + d);
    assert DrawsOf(d + d, 0) == d && DrawsOf(d + d, 1) == d;
    assert cs[0] == cs[1];
    var ws := Tick(Cfg, cs);
    assert ws == [ws[0], ws[1]];
    CoincidentCentresCounterexample(Cfg, ws[0], ws[1], nudge);
  }
}
