/**
 The pairwise collision pass of the sequential macOS program's
 `moveCircles`. Every unordered pair is examined once, in ascending order;
 a pair whose integer squared centre distance is at most (2R)^2 has both
 velocities fully reversed and both centres pushed apart. Later pairs see
 the effects of earlier ones.

 The push is computed in floating point (square root, normalisation,
 truncation back to int). It is a parameter here: a `Nudge` sees both
 centres and returns both new centres, and cannot touch anything else.
 The push divides by the distance, so a pair with coincident centres has
 no defined outcome; `PassAsWritten` reports it as an error, while `Pass`
 (the guarded pass the rest of the model uses) skips the push for that
 pair and still reverses the velocities.
 */
module Collision {
  import opened Circles
  import opened Pairs

  type Nudge = (Pos, Pos) -> (Pos, Pos)

  function DistSq(a: Circle, b: Circle): int {
    (a.x - b.x) * (a.x - b.x) + (a.y - b.y) * (a.y - b.y)
  }

  /** The collision test: centres at most two radii apart. */
  predicate Touching(cfg: Config, a: Circle, b: Circle) {
    DistSq(a, b) <= 4 * cfg.radius * cfg.radius
  }

  /** Both velocity components reversed. */
  function Reverse(c: Circle): (r: Circle)
    ensures r.x == c.x && r.y == c.y && r.color == c.color
    ensures r.dx == -c.dx && r.dy == -c.dy
  {
    c.(dx := -c.dx, dy := -c.dy)
  }

  /** The centre replaced, everything else kept. */
  function MoveTo(c: Circle, p: Pos): (r: Circle)
    ensures r.dx == c.dx && r.dy == c.dy && r.color == c.color
    ensures r.x == p.x && r.y == p.y
  {
    c.(x := p.x, y := p.y)
  }

  /** The store during a pass, with the pairs found touching so far and
      those among them whose centres coincided. */
  datatype PassState = PassState(circles: seq<Circle>, hits: seq<Pair>, coincident: seq<Pair>)

  /** Both members of a touching pair reversed, and pushed apart unless their
      centres coincide. */
  function Collide(cs: seq<Circle>, p: Pair, nudge: Nudge): (r: seq<Circle>)
    requires ValidPair(p, |cs|)
    ensures |r| == |cs|
    ensures r[p.i].dx == -cs[p.i].dx && r[p.i].dy == -cs[p.i].dy
    ensures r[p.j].dx == -cs[p.j].dx && r[p.j].dy == -cs[p.j].dy
    ensures forall k :: 0 <= k < |cs| ==> r[k].color == cs[k].color
    ensures forall k :: 0 <= k < |cs| && k != p.i && k != p.j ==> r[k] == cs[k]
  {
    var a := cs[p.i];
    var b := cs[p.j];
    if DistSq(a, b) == 0 then
      cs[p.i := Reverse(a)][p.j := Reverse(b)]
    else
      var moved := nudge(Pos(a.x, a.y), Pos(b.x, b.y));
      cs[p.i := MoveTo(Reverse(a), moved.0)][p.j := MoveTo(Reverse(b), moved.1)]
  }

  /** One examined pair. A pair that is not touching leaves the state as it
      was; a touching one is recorded and collided. */
  function ResolvePair(cfg: Config, st: PassState, p: Pair, nudge: Nudge): (r: PassState)
    requires ValidPair(p, |st.circles|)
    ensures |r.circles| == |st.circles|
    ensures !Touching(cfg, st.circles[p.i], st.circles[p.j]) ==> r == st
    ensures Touching(cfg, st.circles[p.i], st.circles[p.j]) ==>
      && r.hits == st.hits + [p]
      && r.circles == Collide(st.circles, p, nudge)
  {
    var a := st.circles[p.i];
    var b := st.circles[p.j];
    if !Touching(cfg, a, b) then st
    else if DistSq(a, b) == 0 then
      PassState(Collide(st.circles, p, nudge), st.hits + [p], st.coincident + [p])
    else
      PassState(Collide(st.circles, p, nudge), st.hits + [p], st.coincident)
  }

  /** The guarded pass over the pairs `ps`, in order. */
  function Pass(cfg: Config, cs: seq<Circle>, ps: seq<Pair>, nudge: Nudge): (r: PassState)
    requires AllValid(ps, |cs|)
    ensures |r.circles| == |cs|
    ensures forall k :: 0 <= k < |cs| ==> r.circles[k].color == cs[k].color
    decreases |ps|
  {
    if ps == [] then PassState(cs, [], [])
    else ResolvePair(cfg, Pass(cfg, cs, ps[..|ps| - 1], nudge), ps[|ps| - 1], nudge)
  }

  lemma PassSnoc(cfg: Config, cs: seq<Circle>, ps: seq<Pair>, p: Pair, nudge: Nudge)
    requires AllValid(ps, |cs|) && ValidPair(p, |cs|)
    ensures AllValid(ps + [p], |cs|)
    ensures Pass(cfg, cs, ps + [p], nudge) == ResolvePair(cfg, Pass(cfg, cs, ps, nudge), p, nudge)
  {
    assert (ps + [p])[..|ps|] == ps;
  }

  /** `v` reversed once per count. */
  function Flip(v: int, times: nat): (r: int)
    ensures Abs(r) == Abs(v)
  {
    if times % 2 == 0 then v else -v
  }

  predicate Involves(p: Pair, k: nat) {
    p.i == k || p.j == k
  }

  /** How many of the recorded pairs circle `k` was part of. */
  function Involvements(hits: seq<Pair>, k: nat): nat {
    if hits == [] then 0
    else Involvements(hits[..|hits| - 1], k) + (if Involves(hits[|hits| - 1], k) then 1 else 0)
  }

  /** After a pass, each circle's velocity is its starting velocity reversed
      once for every touching pair it was in: an even number of hits
      restores it. */
  lemma {:induction false} PassVelocities(cfg: Config, cs: seq<Circle>, ps: seq<Pair>, nudge: Nudge)
    requires AllValid(ps, |cs|)
    ensures forall k :: 0 <= k < |cs| ==>
      && Pass(cfg, cs, ps, nudge).circles[k].dx == Flip(cs[k].dx, Involvements(Pass(cfg, cs, ps, nudge).hits, k))
      && Pass(cfg, cs, ps, nudge).circles[k].dy == Flip(cs[k].dy, Involvements(Pass(cfg, cs, ps, nudge).hits, k))
    decreases |ps|
  {
    if ps != [] {
      var front := ps[..|ps| - 1];
      var p := ps[|ps| - 1];
      PassVelocities(cfg, cs, front, nudge);
      var prev := Pass(cfg, cs, front, nudge);
      var r := Pass(cfg, cs, ps, nudge);
      if Touching(cfg, prev.circles[p.i], prev.circles[p.j]) {
        assert r.hits == prev.hits + [p];
        assert (prev.hits + [p])[..|prev.hits|] == prev.hits;
        forall k | 0 <= k < |cs|
          ensures r.circles[k].dx == Flip(cs[k].dx, Involvements(r.hits, k))
          ensures r.circles[k].dy == Flip(cs[k].dy, Involvements(r.hits, k))
        {
          assert Involvements(r.hits, k) ==
            Involvements(prev.hits, k) + (if Involves(p, k) then 1 else 0);
        }
      }
    }
  }

  /** The pass changes nothing about a circle that was in no touching pair:
      its position, velocity and colour are as they were before the pass. */
  lemma {:induction false} PassFrame(cfg: Config, cs: seq<Circle>, ps: seq<Pair>, nudge: Nudge)
    requires AllValid(ps, |cs|)
    ensures forall k :: 0 <= k < |cs| && Involvements(Pass(cfg, cs, ps, nudge).hits, k) == 0 ==>
      Pass(cfg, cs, ps, nudge).circles[k] == cs[k]
    decreases |ps|
  {
    if ps != [] {
      var front := ps[..|ps| - 1];
      var p := ps[|ps| - 1];
      PassFrame(cfg, cs, front, nudge);
      var prev := Pass(cfg, cs, front, nudge);
      var r := Pass(cfg, cs, ps, nudge);
      if Touching(cfg, prev.circles[p.i], prev.circles[p.j]) {
        assert r.hits == prev.hits + [p];
        assert (prev.hits + [p])[..|prev.hits|] == prev.hits;
        forall k | 0 <= k < |cs| && Involvements(r.hits, k) == 0
          ensures r.circles[k] == cs[k]
        {
          assert Involvements(r.hits, k) ==
            Involvements(prev.hits, k) + (if Involves(p, k) then 1 else 0);
        }
      }
    }
  }

  /** The pass as written: the push divides by the distance, so reaching a
      touching pair with coincident centres is an error. */
  function ResolvePairAsWritten(cfg: Config, cs: seq<Circle>, p: Pair, nudge: Nudge): (r: Result<seq<Circle>>)
    requires ValidPair(p, |cs|)
    ensures r.Failure? <==> Touching(cfg, cs[p.i], cs[p.j]) && DistSq(cs[p.i], cs[p.j]) == 0
    ensures r.Failure? ==> r.error == CoincidentCentres(p.i, p.j)
    ensures r.Success? ==> |r.value| == |cs|
  {
    var a := cs[p.i];
    var b := cs[p.j];
    if !Touching(cfg, a, b) then Success(cs)
    else if DistSq(a, b) == 0 then Failure(CoincidentCentres(p.i, p.j))
    else Success(Collide(cs, p, nudge))
  }

  function PassAsWritten(cfg: Config, cs: seq<Circle>, ps: seq<Pair>, nudge: Nudge): (r: Result<seq<Circle>>)
    requires AllValid(ps, |cs|)
    ensures r.Success? ==> |r.value| == |cs|
    ensures r.Failure? ==> r.error.CoincidentCentres? && r.error.i < r.error.j < |cs|
    decreases |ps|
  {
    if ps == [] then Success(cs)
    else
      var prev := PassAsWritten(cfg, cs, ps[..|ps| - 1], nudge);
      if prev.Failure? then prev
      else ResolvePairAsWritten(cfg, prev.value, ps[|ps| - 1], nudge)
  }

  /** The pass as written fails exactly when the guarded pass meets a
      touching pair with coincident centres, names the first such pair, and
      otherwise produces the same store. */
  lemma {:induction false} AsWrittenFailsOnlyOnCoincidence(cfg: Config, cs: seq<Circle>, ps: seq<Pair>, nudge: Nudge)
    requires AllValid(ps, |cs|)
    ensures PassAsWritten(cfg, cs, ps, nudge).Failure? <==> Pass(cfg, cs, ps, nudge).coincident != []
    ensures PassAsWritten(cfg, cs, ps, nudge).Success? ==>
      PassAsWritten(cfg, cs, ps, nudge).value == Pass(cfg, cs, ps, nudge).circles
    ensures PassAsWritten(cfg, cs, ps, nudge).Failure? ==>
      var first := Pass(cfg, cs, ps, nudge).coincident[0];
      PassAsWritten(cfg, cs, ps, nudge).error == CoincidentCentres(first.i, first.j)
    decreases |ps|
  {
    if ps != [] {
      AsWrittenFailsOnlyOnCoincidence(cfg, cs, ps[..|ps| - 1], nudge);
    }
  }

  /** The visiting order for two circles is the single pair (0, 1). */
  lemma AllPairsOfTwo()
    ensures AllPairs(2) == [Pair(0, 1)]
  {
    assert Row(0, 1, 2) == [Pair(0, 1)];
    assert RowsBelow(2, 1) == [Pair(0, 1)];
    assert RowsBelow(2, 2) == RowsBelow(2, 1) + Row(1, 2, 2);
  }

  /** Any two circles at the same centre: the pass as written cannot
      complete, while the guarded pass reverses both and leaves them in
      place. */
  lemma CoincidentCentresCounterexample(cfg: Config, a: Circle, b: Circle, nudge: Nudge)
    requires a.x == b.x && a.y == b.y
    ensures PassAsWritten(cfg, [a, b], AllPairs(2), nudge) == Failure(CoincidentCentres(0, 1))
    ensures Pass(cfg, [a, b], AllPairs(2), nudge).circles == [Reverse(a), Reverse(b)]
  {
    var cs := [a, b];
    var p := Pair(0, 1);
    AllPairsOfTwo();
    assert [p][..0] == [];
    assert DistSq(a, b) == 0;
    assert cfg.radius * cfg.radius >= 0;
    assert PassAsWritten(cfg, cs, [], nudge) == Success(cs);
    assert PassAsWritten(cfg, cs, [p], nudge) == ResolvePairAsWritten(cfg, cs, p, nudge);
    assert Pass(cfg, cs, [p], nudge) == ResolvePair(cfg, PassState(cs, [], []), p, nudge);
    assert Collide(cs, p, nudge) == cs[0 := Reverse(a)][1 := Reverse(b)];
  }

  /** One iteration of the inner loop: the integer squared distance of the
      pair as the store stands now, and the collision if it is in range. */
  method ExaminePair(cfg: Config, s: seq<Circle>, i: nat, j: nat, nudge: Nudge) returns (t: seq<Circle>, hit: bool)
    requires i < j < |s|
    ensures hit <==> Touching(cfg, s[i], s[j])
    ensures !hit ==> t == s
    ensures hit ==> t == Collide(s, Pair(i, j), nudge)
  {
    var dx := s[i].x - s[j].x;
    var dy := s[i].y - s[j].y;
    var distanceSquared := dx * dx + dy * dy;
    hit := distanceSquared <= 4 * cfg.radius * cfg.radius;
    t := s;
    if hit {
      var ci := s[i];
      var cj := s[j];
      if distanceSquared == 0 {
        t := t[i := Reverse(ci)][j := Reverse(cj)];
      } else {
        var moved := nudge(Pos(ci.x, ci.y), Pos(cj.x, cj.y));
        t := t[i := MoveTo(Reverse(ci), moved.0)][j := MoveTo(Reverse(cj), moved.1)];
      }
    }
  }

  /** Examining one more pair carries the pass on by that pair. */
  lemma ScanStep(cfg: Config, cs: seq<Circle>, nudge: Nudge, done: seq<Pair>, p: Pair,
                 s: seq<Circle>, h: seq<Pair>, t: seq<Circle>, hit: bool)
    requires AllValid(done, |cs|) && ValidPair(p, |cs|)
    requires s == Pass(cfg, cs, done, nudge).circles
    requires h == Pass(cfg, cs, done, nudge).hits
    requires hit <==> Touching(cfg, s[p.i], s[p.j])
    requires !hit ==> t == s
    requires hit ==> t == Collide(s, p, nudge)
    ensures t == Pass(cfg, cs, done + [p], nudge).circles
    ensures (if hit then h + [p] else h) == Pass(cfg, cs, done + [p], nudge).hits
  {
    PassSnoc(cfg, cs, done, p, nudge);
  }

  /** The inner loop for one `i`: pairs (i, i + 1) .. (i, n - 1), carrying
      the pass on from where the rows below `i` left it. */
  method ScanRow(cfg: Config, cs: seq<Circle>, nudge: Nudge, i: nat, s: seq<Circle>, h: seq<Pair>)
    returns (out: seq<Circle>, hits: seq<Pair>)
    requires i < |cs|
    requires s == Pass(cfg, cs, RowsBelow(|cs|, i), nudge).circles
    requires h == Pass(cfg, cs, RowsBelow(|cs|, i), nudge).hits
    ensures out == Pass(cfg, cs, RowsBelow(|cs|, i + 1), nudge).circles
    ensures hits == Pass(cfg, cs, RowsBelow(|cs|, i + 1), nudge).hits
  {
    var n := |cs|;
    out, hits := s, h;
    var j := i + 1;
    ScannedSteps(n, i, j);
    while j < n
      invariant i + 1 <= j <= n
      invariant out == Pass(cfg, cs, Scanned(n, i, j), nudge).circles
      invariant hits == Pass(cfg, cs, Scanned(n, i, j), nudge).hits
    {
      ScannedSteps(n, i, j);
      ghost var before := out;
      var hit;
      out, hit := ExaminePair(cfg, out, i, j, nudge);
      ScanStep(cfg, cs, nudge, Scanned(n, i, j), Pair(i, j), before, hits, out, hit);
      if hit {
        hits := hits + [Pair(i, j)];
      }
      j := j + 1;
    }
    ScannedSteps(n, i, j);
  }

  /** The collision loop nest as the program runs it, updating the store in
      place, with the guard. It visits the pairs in ascending order, records
      the touching ones, and reverses each circle once per touching pair. */
  method CollisionPass(cfg: Config, cs: seq<Circle>, nudge: Nudge) returns (out: seq<Circle>, hits: seq<Pair>)
    ensures out == Pass(cfg, cs, AllPairs(|cs|), nudge).circles
    ensures hits == Pass(cfg, cs, AllPairs(|cs|), nudge).hits
    ensures |out| == |cs|
    ensures forall k :: 0 <= k < |cs| ==>
      && out[k].dx == Flip(cs[k].dx, Involvements(hits, k))
      && out[k].dy == Flip(cs[k].dy, Involvements(hits, k))
      && out[k].color == cs[k].color
    ensures forall k :: 0 <= k < |cs| && Involvements(hits, k) == 0 ==> out[k] == cs[k]
  {
    var n := |cs|;
    out := cs;
    hits := [];
    var i := 0;
    while i < n
      invariant 0 <= i <= n
      invariant out == Pass(cfg, cs, RowsBelow(n, i), nudge).circles
      invariant hits == Pass(cfg, cs, RowsBelow(n, i), nudge).hits
    {
      out, hits := ScanRow(cfg, cs, nudge, i, out, hits);
      i := i + 1;
    }
    PassVelocities(cfg, cs, AllPairs(n), nudge);
    PassFrame(cfg, cs, AllPairs(n), nudge);
  }
}
