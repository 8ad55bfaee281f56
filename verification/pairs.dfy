/**
 The order in which the collision pass visits pairs: the outer index `i`
 ascends, and for each `i` the inner index `j` runs from `i + 1` upwards.
 */
module Pairs {

  datatype Pair = Pair(i: nat, j: nat)

  /** Strictly earlier in the visiting order (lexicographic on (i, j)). */
  predicate Before(p: Pair, q: Pair) {
    p.i < q.i || (p.i == q.i && p.j < q.j)
  }

  /** An unordered pair of distinct circles out of `n`, written i < j. */
  predicate ValidPair(p: Pair, n: nat) {
    p.i < p.j < n
  }

  predicate AllValid(ps: seq<Pair>, n: nat) {
    forall k :: 0 <= k < |ps| ==> ValidPair(ps[k], n)
  }

  predicate Ascending(ps: seq<Pair>) {
    forall a, b :: 0 <= a < b < |ps| ==> Before(ps[a], ps[b])
  }

  /** The pairs `(i, from) .. (i, to - 1)`: one run of the inner loop. */
  function Row(i: nat, from: nat, to: nat): (r: seq<Pair>)
    requires from <= to
    ensures |r| == to - from
    ensures forall k :: 0 <= k < |r| ==> r[k] == Pair(i, from + k)
  {
    seq(to - from, k requires 0 <= k < to - from => Pair(i, from + k))
  }

  /** One more step of the inner loop appends one pair to its run. */
  lemma RowSnoc(i: nat, from: nat, to: nat)
    requires from <= to
    ensures Row(i, from, to + 1) == Row(i, from, to) + [Pair(i, to)]
  {
    assert Row(i, from, to + 1)[to - from] == Pair(i, to);
  }

  /** Every pair the outer loop has finished with once it reaches `i`. */
  function RowsBelow(n: nat, i: nat): (r: seq<Pair>)
    requires i <= n
    ensures AllValid(r, n)
  {
    if i == 0 then [] else RowsBelow(n, i - 1) + Row(i - 1, i, n)
  }

  /** The pairs visited once the outer loop is at `i` and the inner loop
      at `j`. */
  function Scanned(n: nat, i: nat, j: nat): (r: seq<Pair>)
    requires i < n && i + 1 <= j <= n
    ensures AllValid(r, n)
  {
    RowsBelow(n, i) + Row(i, i + 1, j)
  }

  /** Where the inner loop starts, what each of its steps adds, and where it
      ends. */
  lemma ScannedSteps(n: nat, i: nat, j: nat)
    requires i < n && i + 1 <= j <= n
    ensures Scanned(n, i, i + 1) == RowsBelow(n, i)
    ensures j < n ==> Scanned(n, i, j + 1) == Scanned(n, i, j) + [Pair(i, j)]
    ensures Scanned(n, i, n) == RowsBelow(n, i + 1)
  {
    assert Row(i, i + 1, i + 1) == [];
    if j < n {
      RowSnoc(i, i + 1, j);
    }
  }

  /** The pairs finished below `i` are exactly those whose first index is
      below `i`, and they were visited in strictly ascending order. */
  lemma {:induction false} RowsBelowContents(n: nat, i: nat)
    requires i <= n
    ensures Ascending(RowsBelow(n, i))
    ensures forall p :: p in RowsBelow(n, i) <==> ValidPair(p, n) && p.i < i
  {
    if i > 0 {
      RowsBelowContents(n, i - 1);
      var prev := RowsBelow(n, i - 1);
      var row := Row(i - 1, i, n);
      assert RowsBelow(n, i) == prev + row;
      assert forall a, b :: 0 <= a < |prev| && 0 <= b < |row| ==> Before(prev[a], row[b]);
      forall p | ValidPair(p, n) && p.i == i - 1
        ensures p in row
      {
        assert row[p.j - i] == p;
      }
    }
  }

  /** The whole visiting order of the collision pass over `n` circles. */
  function AllPairs(n: nat): (r: seq<Pair>)
    ensures AllValid(r, n)
  {
    RowsBelow(n, n)
  }

  /** Every unordered pair is visited, nothing else is, and the visits are in
      strictly ascending order; so no pair is visited twice. */
  lemma AllPairsExactlyOnce(n: nat)
    ensures forall p :: p in AllPairs(n) <==> ValidPair(p, n)
    ensures Ascending(AllPairs(n))
    ensures forall a, b :: 0 <= a < b < |AllPairs(n)| ==> AllPairs(n)[a] != AllPairs(n)[b]
  {
    RowsBelowContents(n, n);
  }
}
