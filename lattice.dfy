/** The grid field's layout: rest positions on a square lattice of pitch 35 covering
    [0, width) x [0, height), listed column by column (x-major, then y ascending). */
module Lattice {
  import opened Grid

  /** The lattice pitch (`gap`). */
  const Gap: nat := 35

  /** The number of lattice lines 0, 35, 70, ... below `extent`, that is ceil(extent / 35). */
  function Cells(extent: nat): (c: nat)
    ensures c * 35 >= extent
    ensures c == 0 || (c - 1) * 35 < extent
    ensures c == 0 <==> extent == 0
  {
    (extent + 34) / 35
  }

  /** The particle created for lattice column c and row r. */
  function LatticePoint(c: nat, r: nat): GridState
  {
    Rest((c * 35) as real, (r * 35) as real)
  }

  /** Column c: one particle per row, top to bottom. */
  function Column(c: nat, height: nat): seq<GridState>
  {
    seq(Cells(height), r requires 0 <= r => LatticePoint(c, r))
  }

  /** The first `columns` columns, left to right. */
  function LatticePrefix(columns: nat, height: nat): seq<GridState>
  {
    if columns == 0 then [] else LatticePrefix(columns - 1, height) + Column(columns - 1, height)
  }

  /** The whole lattice for a surface of the given size. */
  function Layout(width: nat, height: nat): seq<GridState>
  {
    LatticePrefix(Cells(width), height)
  }

  /** p is the lattice point of some column below `columns` and some row of the surface. */
  ghost predicate OnLattice(p: GridState, columns: nat, height: nat)
  {
    exists c: nat, r: nat :: c < columns && r < Cells(height) && p == LatticePoint(c, r)
  }

  /** Every lattice point of the surface lies inside it, at rest on its origin, with zero
      distance, force and displacement. */
  lemma LatticePointInBounds(c: nat, r: nat, width: nat, height: nat)
    requires c < Cells(width) && r < Cells(height)
    ensures var p := LatticePoint(c, r);
      && 0.0 <= p.x < width as real && 0.0 <= p.y < height as real
      && p.originX == p.x && p.originY == p.y
      && p.distance == 0.0 && p.force == 0.0 && p.dx == 0.0 && p.dy == 0.0
  {
  }

  lemma {:induction false} PrefixSize(columns: nat, height: nat)
    ensures |LatticePrefix(columns, height)| == columns * Cells(height)
  {
    if columns > 0 {
      PrefixSize(columns - 1, height);
      var h := Cells(height);
      assert (columns - 1) * h + h == columns * h;
    }
  }

  /** The layout has ceil(width / 35) * ceil(height / 35) particles. */
  lemma LayoutSize(width: nat, height: nat)
    ensures |Layout(width, height)| == Cells(width) * Cells(height)
    ensures |Layout(width, height)| == ((width + 34) / 35) * ((height + 34) / 35)
  {
    PrefixSize(Cells(width), height);
  }

  lemma {:induction false} PrefixAt(columns: nat, height: nat, c: nat, r: nat)
    requires c < columns && r < Cells(height)
    ensures c * Cells(height) + r < |LatticePrefix(columns, height)|
    ensures LatticePrefix(columns, height)[c * Cells(height) + r] == LatticePoint(c, r)
  {
    var h := Cells(height);
    PrefixSize(columns - 1, height);
    PrefixSize(columns, height);
    var front := LatticePrefix(columns - 1, height);
    if c == columns - 1 {
      assert c * h + r == |front| + r;
    } else {
      PrefixAt(columns - 1, height, c, r);
    }
  }

  /** The particle of column c and row r sits at index c * ceil(height / 35) + r: together
      with LayoutSize this fixes the layout completely. */
  lemma LayoutAt(width: nat, height: nat, c: nat, r: nat)
    requires c < Cells(width) && r < Cells(height)
    ensures c * Cells(height) + r < |Layout(width, height)|
    ensures Layout(width, height)[c * Cells(height) + r] == LatticePoint(c, r)
  {
    PrefixAt(Cells(width), height, c, r);
  }

  lemma {:induction false} PrefixOnLattice(columns: nat, height: nat)
    ensures forall k :: 0 <= k < |LatticePrefix(columns, height)| ==>
      OnLattice(LatticePrefix(columns, height)[k], columns, height)
  {
    if columns > 0 {
      PrefixOnLattice(columns - 1, height);
      var front := LatticePrefix(columns - 1, height);
      var all := LatticePrefix(columns, height);
      forall k | 0 <= k < |all|
        ensures OnLattice(all[k], columns, height)
      {
        if k < |front| {
          assert OnLattice(front[k], columns - 1, height);
          var c: nat, r: nat :| c < columns - 1 && r < Cells(height) && front[k] == LatticePoint(c, r);
          assert all[k] == LatticePoint(c, r);
        } else {
          var r := k - |front|;
          assert all[k] == LatticePoint(columns - 1, r);
        }
      }
    }
  }

  /** Every particle of the layout is a lattice point of the surface. */
  lemma LayoutOnLattice(width: nat, height: nat)
    ensures forall k :: 0 <= k < |Layout(width, height)| ==>
      OnLattice(Layout(width, height)[k], Cells(width), height)
  {
    PrefixOnLattice(Cells(width), height);
  }

  /** Every particle of the layout lies inside the surface, at a multiple of 35 on both
      axes, at rest on its origin. */
  lemma LayoutInBounds(width: nat, height: nat, k: nat)
    requires k < |Layout(width, height)|
    ensures var p := Layout(width, height)[k];
      && 0.0 <= p.x < width as real && 0.0 <= p.y < height as real
      && (exists c: nat, r: nat :: p.x == (c * 35) as real && p.y == (r * 35) as real)
      && p == Rest(p.x, p.y)
  {
    LayoutOnLattice(width, height);
    var p := Layout(width, height)[k];
    var c: nat, r: nat :| c < Cells(width) && r < Cells(height) && p == LatticePoint(c, r);
    LatticePointInBounds(c, r, width, height);
  }

  /** Column-major order: a comes before b when its x is smaller, or its x is equal and
      its y is smaller. */
  predicate XMajor(a: GridState, b: GridState)
  {
    a.x < b.x || (a.x == b.x && a.y < b.y)
  }

  /** Every particle comes strictly before all later ones in x-major order. */
  predicate XMajorSorted(s: seq<GridState>)
  {
    forall k1, k2 :: 0 <= k1 < k2 < |s| ==> XMajor(s[k1], s[k2])
  }

  lemma {:induction false} PrefixSorted(columns: nat, height: nat)
    ensures XMajorSorted(LatticePrefix(columns, height))
  {
    if columns > 0 {
      PrefixSorted(columns - 1, height);
      PrefixOnLattice(columns - 1, height);
      var front := LatticePrefix(columns - 1, height);
      var s := LatticePrefix(columns, height);
      forall k1, k2 | 0 <= k1 < k2 < |s|
        ensures XMajor(s[k1], s[k2])
      {
        if k2 < |front| {
          assert s[k1] == front[k1] && s[k2] == front[k2];
        } else if k1 < |front| {
          assert s[k1] == front[k1];
          assert OnLattice(front[k1], columns - 1, height);
          var c: nat, r: nat :| c < columns - 1 && r < Cells(height) && front[k1] == LatticePoint(c, r);
          assert s[k2] == LatticePoint(columns - 1, k2 - |front|);
          assert c * 35 < (columns - 1) * 35;
        } else {
          var r1, r2 := k1 - |front|, k2 - |front|;
          assert s[k1] == LatticePoint(columns - 1, r1);
          assert s[k2] == LatticePoint(columns - 1, r2);
          assert r1 * 35 < r2 * 35;
        }
      }
    }
  }

  /** The layout lists the particles x-major, then y ascending; in particular no position
      occurs twice. */
  lemma LayoutSorted(width: nat, height: nat)
    ensures XMajorSorted(Layout(width, height))
  {
    PrefixSorted(Cells(width), height);
  }
}
