/** The lines of the grid field: every unordered pair of particles is tested once, and a
    pair closer than 1.5 lattice pitches is joined by a line whose opacity fades with
    distance. */
module Connections {
  import opened Basics
  import opened Grid

  /** `gap * 1.5`. */
  const ConnectionRadius: real := 52.5

  /** A pair of list indices (i, j). */
  type IndexPair = (nat, nat)

  /** Lexicographic order on index pairs: the order of the nested i/j loops. */
  predicate PairBefore(a: IndexPair, b: IndexPair)
  {
    a.0 < b.0 || (a.0 == b.0 && a.1 < b.1)
  }

  /** The inner loop's pairs (i, j), (i, j + 1), ..., (i, n - 1). */
  function PairsRow(i: nat, j: nat, n: nat): seq<IndexPair>
    decreases n - j
  {
    if j >= n then [] else [(i, j)] + PairsRow(i, j + 1, n)
  }

  /** The pairs visited by the outer loop from row i on. */
  function PairsFrom(i: nat, n: nat): seq<IndexPair>
    decreases n - i
  {
    if i >= n then [] else PairsRow(i, i + 1, n) + PairsFrom(i + 1, n)
  }

  /** Every pair (i, j) with i < j < n, in loop order. */
  function Pairs(n: nat): seq<IndexPair>
  {
    PairsFrom(0, n)
  }

  lemma {:induction false} PairsRowMembers(i: nat, j: nat, n: nat)
    decreases n - j
    ensures forall p :: p in PairsRow(i, j, n) <==> p.0 == i && j <= p.1 < n
  {
    if j < n {
      PairsRowMembers(i, j + 1, n);
    }
  }

  lemma {:induction false} PairsFromMembers(i: nat, n: nat)
    decreases n - i
    ensures forall p :: p in PairsFrom(i, n) <==> i <= p.0 < p.1 < n
  {
    if i < n {
      PairsRowMembers(i, i + 1, n);
      PairsFromMembers(i + 1, n);
    }
  }

  /** The loops visit exactly the pairs (i, j) with i < j < n. */
  lemma PairsMembers(n: nat)
    ensures forall p :: p in Pairs(n) <==> p.0 < p.1 < n
  {
    PairsFromMembers(0, n);
  }

  /** The pairs come strictly ordered, so no pair is visited twice. */
  predicate StrictlyOrdered(ps: seq<IndexPair>)
  {
    forall a, b :: 0 <= a < b < |ps| ==> PairBefore(ps[a], ps[b])
  }

  lemma {:induction false} PairsRowOrdered(i: nat, j: nat, n: nat)
    decreases n - j
    ensures StrictlyOrdered(PairsRow(i, j, n))
  {
    if j < n {
      PairsRowOrdered(i, j + 1, n);
      PairsRowMembers(i, j + 1, n);
      var ps := PairsRow(i, j, n);
      forall a, b | 0 <= a < b < |ps|
        ensures PairBefore(ps[a], ps[b])
      {
        if a > 0 {
          assert ps[a] == PairsRow(i, j + 1, n)[a - 1];
        }
        assert ps[b] == PairsRow(i, j + 1, n)[b - 1];
        assert ps[b] in PairsRow(i, j + 1, n);
      }
    }
  }

  lemma {:induction false} PairsFromOrdered(i: nat, n: nat)
    decreases n - i
    ensures StrictlyOrdered(PairsFrom(i, n))
  {
    if i < n {
      PairsRowOrdered(i, i + 1, n);
      PairsRowMembers(i, i + 1, n);
      PairsFromOrdered(i + 1, n);
      PairsFromMembers(i + 1, n);
      var row, rest := PairsRow(i, i + 1, n), PairsFrom(i + 1, n);
      var ps := PairsFrom(i, n);
      forall a, b | 0 <= a < b < |ps|
        ensures PairBefore(ps[a], ps[b])
      {
        if b < |row| {
          assert ps[a] == row[a] && ps[b] == row[b];
        } else if a < |row| {
          assert ps[a] == row[a] && ps[a] in row;
          assert ps[b] == rest[b - |row|] && ps[b] in rest;
        } else {
          assert ps[a] == rest[a - |row|] && ps[b] == rest[b - |row|];
        }
      }
    }
  }

  lemma PairsOrdered(n: nat)
    ensures StrictlyOrdered(Pairs(n))
  {
    PairsFromOrdered(0, n);
  }

  lemma {:induction false} PairsRowCount(i: nat, j: nat, n: nat)
    requires j <= n
    decreases n - j
    ensures |PairsRow(i, j, n)| == n - j
  {
    if j < n {
      PairsRowCount(i, j + 1, n);
    }
  }

  lemma {:induction false} PairsFromCount(i: nat, n: nat)
    requires i <= n
    decreases n - i
    ensures 2 * |PairsFrom(i, n)| == (n - i) * (n - i - 1)
  {
    if i < n {
      PairsRowCount(i, i + 1, n);
      PairsFromCount(i + 1, n);
      var m := n - i;
      assert 2 * (m - 1) + (m - 1) * (m - 2) == m * (m - 1);
    }
  }

  /** n * (n - 1) / 2 pairs are tested. */
  lemma PairsCount(n: nat)
    ensures |Pairs(n)| == n * (n - 1) / 2
  {
    PairsFromCount(0, n);
  }

  /** A line between the particles at indices i and j, with its opacity. */
  datatype Edge = Edge(i: nat, j: nat, opacity: real)

  /** The line's opacity `1 - distance / connectionRadius`. */
  function Opacity(distance: real): (o: real)
    ensures 0.0 <= distance < ConnectionRadius ==> 0.0 < o <= 1.0
    ensures distance < ConnectionRadius ==> 0.0 < o
  {
    1.0 - distance / ConnectionRadius
  }

  /** A nearer pair is drawn more opaque. */
  lemma OpacityDecreasing(near: real, far: real)
    requires near <= far
    ensures Opacity(far) <= Opacity(near)
  {
  }

  /** The distance between the particles at indices i and j. */
  function PairDistance(pts: seq<GridState>, i: nat, j: nat, sqrt: real -> real): real
    requires i < |pts| && j < |pts|
  {
    Length(pts[i].x - pts[j].x, pts[i].y - pts[j].y, sqrt)
  }

  /** The line drawn for one pair: one edge if both indices name particles and the two
      are close enough, none otherwise. */
  function EdgeFor(pts: seq<GridState>, i: nat, j: nat, sqrt: real -> real): seq<Edge>
  {
    if i < |pts| && j < |pts| && PairDistance(pts, i, j, sqrt) < ConnectionRadius
    then [Edge(i, j, Opacity(PairDistance(pts, i, j, sqrt)))]
    else []
  }

  /** The lines drawn while visiting the pairs ps in order. */
  function EdgesOf(pts: seq<GridState>, ps: seq<IndexPair>, sqrt: real -> real): seq<Edge>
  {
    if ps == [] then [] else EdgeFor(pts, ps[0].0, ps[0].1, sqrt) + EdgesOf(pts, ps[1..], sqrt)
  }

  /** The lines one frame draws for the (already updated) particles pts. */
  function Edges(pts: seq<GridState>, sqrt: real -> real): seq<Edge>
  {
    EdgesOf(pts, Pairs(|pts|), sqrt)
  }

  lemma {:induction false} EdgesOfAppend(pts: seq<GridState>, a: seq<IndexPair>, b: seq<IndexPair>, sqrt: real -> real)
    ensures EdgesOf(pts, a + b, sqrt) == EdgesOf(pts, a, sqrt) + EdgesOf(pts, b, sqrt)
  {
    if a != [] {
      assert (a + b)[1..] == a[1..] + b;
      EdgesOfAppend(pts, a[1..], b, sqrt);
    } else {
      assert a + b == b;
    }
  }

  /** An edge is drawn for a visited pair exactly when both are particles closer than
      52.5, and it carries that pair's opacity. */
  lemma {:induction false} EdgesOfMembers(pts: seq<GridState>, ps: seq<IndexPair>, sqrt: real -> real)
    ensures forall e :: e in EdgesOf(pts, ps, sqrt) <==>
      && (e.i, e.j) in ps && e.i < |pts| && e.j < |pts|
      && PairDistance(pts, e.i, e.j, sqrt) < ConnectionRadius
      && e.opacity == Opacity(PairDistance(pts, e.i, e.j, sqrt))
  {
    if ps != [] {
      EdgesOfMembers(pts, ps[1..], sqrt);
      assert ps == [ps[0]] + ps[1..];
    }
  }

  /** The edges' pairs are strictly ordered: no pair has two lines. */
  predicate EdgesInOrder(es: seq<Edge>)
  {
    forall a, b :: 0 <= a < b < |es| ==> PairBefore((es[a].i, es[a].j), (es[b].i, es[b].j))
  }

  /** Lines drawn for pairs that all follow `first` are for pairs that follow `first`. */
  lemma {:induction false} EdgesOfFollow(pts: seq<GridState>, ps: seq<IndexPair>, first: IndexPair, sqrt: real -> real)
    requires forall k :: 0 <= k < |ps| ==> PairBefore(first, ps[k])
    ensures forall e :: e in EdgesOf(pts, ps, sqrt) ==> PairBefore(first, (e.i, e.j))
  {
    if ps != [] {
      EdgesOfFollow(pts, ps[1..], first, sqrt);
    }
  }

  /** The edges come in the order of their pairs, which is strict when the pairs' is. */
  lemma {:induction false} EdgesOfOrdered(pts: seq<GridState>, ps: seq<IndexPair>, sqrt: real -> real)
    requires StrictlyOrdered(ps)
    ensures EdgesInOrder(EdgesOf(pts, ps, sqrt))
  {
    if ps != [] {
      var tail := ps[1..];
      assert StrictlyOrdered(tail) by {
        forall a, b | 0 <= a < b < |tail|
          ensures PairBefore(tail[a], tail[b])
        {
          assert tail[a] == ps[a + 1] && tail[b] == ps[b + 1];
        }
      }
      EdgesOfOrdered(pts, tail, sqrt);
      assert forall k :: 0 <= k < |tail| ==> PairBefore(ps[0], tail[k]) by {
        forall k | 0 <= k < |tail|
          ensures PairBefore(ps[0], tail[k])
        {
          assert tail[k] == ps[k + 1];
        }
      }
      EdgesOfFollow(pts, tail, ps[0], sqrt);
      var head := EdgeFor(pts, ps[0].0, ps[0].1, sqrt);
      var rest := EdgesOf(pts, tail, sqrt);
      var es := EdgesOf(pts, ps, sqrt);
      assert es == head + rest;
      forall a, b | 0 <= a < b < |es|
        ensures PairBefore((es[a].i, es[a].j), (es[b].i, es[b].j))
      {
        if a < |head| {
          assert (es[a].i, es[a].j) == ps[0];
          assert es[b] == rest[b - |head|] && es[b] in rest;
        } else {
          assert es[a] == rest[a - |head|] && es[b] == rest[b - |head|];
        }
      }
    }
  }

  /** The frame draws a line for the pair (i, j) iff i < j and they are closer than 52.5;
      the line carries the opacity 1 - distance / 52.5, which lies in (0, 1]. */
  lemma EdgesMembers(pts: seq<GridState>, sqrt: real -> real)
    requires IsSqrt(sqrt)
    ensures forall e :: e in Edges(pts, sqrt) <==>
      && e.i < e.j < |pts|
      && PairDistance(pts, e.i, e.j, sqrt) < ConnectionRadius
      && e.opacity == Opacity(PairDistance(pts, e.i, e.j, sqrt))
    ensures forall e :: e in Edges(pts, sqrt) ==> 0.0 < e.opacity <= 1.0
  {
    PairsMembers(|pts|);
    EdgesOfMembers(pts, Pairs(|pts|), sqrt);
    forall e | e in Edges(pts, sqrt)
      ensures 0.0 < e.opacity <= 1.0
    {
      LengthFacts(pts[e.i].x - pts[e.j].x, pts[e.i].y - pts[e.j].y, sqrt);
    }
  }

  /** Each pair is drawn at most once, and lines come in loop order. */
  lemma EdgesOrdered(pts: seq<GridState>, sqrt: real -> real)
    ensures EdgesInOrder(Edges(pts, sqrt))
  {
    PairsOrdered(|pts|);
    EdgesOfOrdered(pts, Pairs(|pts|), sqrt);
  }
}
