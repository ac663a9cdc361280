/** The interactive grid field: lays out one particle per lattice point of the surface
    and, each frame, updates every particle against the shared pointer and draws the
    lines between close pairs. */
module Background {
  import opened Basics
  import opened Canvas
  import opened Grid
  import opened Lattice
  import opened Connections

  class BackgroundSystem {
    const canvasManager: CanvasManager
    const mouse: Pointer
    var particles: seq<GridParticle>

    /** The field reads the surface manager's pointer, and each particle is listed once. */
    ghost predicate Valid()
      reads this
    {
      mouse == canvasManager.mouse && Distinct(particles)
    }

    /** Binds the surface manager and its pointer, then lays out the lattice. */
    constructor (canvasManager: CanvasManager)
      ensures Valid()
      ensures this.canvasManager == canvasManager && mouse == canvasManager.mouse
      ensures Views(particles) == Layout(canvasManager.width, canvasManager.height)
      ensures forall k :: 0 <= k < |particles| ==> fresh(particles[k])
    {
      this.canvasManager := canvasManager;
      mouse := canvasManager.mouse;
      particles := [];
      new;
      Init();
    }

    /** Discards the old particles and creates one at rest on every lattice point of the
        current surface, column by column. */
    method Init()
      requires mouse == canvasManager.mouse
      modifies this
      ensures Valid()
      ensures Views(particles) == Layout(canvasManager.width, canvasManager.height)
      ensures forall k :: 0 <= k < |particles| ==> fresh(particles[k])
    {
      particles := [];
      var width := canvasManager.width;
      var height := canvasManager.height;
      var x: nat := 0;
      ghost var c: nat := 0;
      while x < width
        invariant x == c * 35 && c <= Cells(width)
        invariant Views(particles) == LatticePrefix(c, height)
        invariant Distinct(particles)
        invariant forall k :: 0 <= k < |particles| ==> fresh(particles[k])
        decreases width - x
      {
        var y: nat := 0;
        ghost var r: nat := 0;
        while y < height
          invariant y == r * 35 && r <= Cells(height)
          invariant Views(particles) == LatticePrefix(c, height) + Column(c, height)[..r]
          invariant Distinct(particles)
          invariant forall k :: 0 <= k < |particles| ==> fresh(particles[k])
          decreases height - y
        {
          var p := new GridParticle(x as real, y as real);
          ViewsAppend(particles, p);
          DistinctAppend(particles, p);
          ColumnStep(c, height, r);
          particles := particles + [p];
          y := y + Gap;
          r := r + 1;
        }
        ColumnDone(c, height, y, r);
        x := x + Gap;
        c := c + 1;
      }
      ColumnsDone(width, x, c);
    }

    /** One frame: every particle is updated against the pointer, in list order, and then
        every pair of particles is tested; the lines drawn are returned. */
    method Render(sqrt: real -> real) returns (edges: seq<Edge>)
      requires Valid()
      modifies particles
      ensures Valid() && unchanged(this)
      ensures Views(particles) == Steps(old(Views(particles)), mouse.x, mouse.y, sqrt)
      ensures edges == Edges(Views(particles), sqrt)
    {
      var k := 0;
      while k < |particles|
        invariant 0 <= k <= |particles|
        invariant forall m :: 0 <= m < k ==>
          particles[m].State() == GridStep(old(particles[m].State()), mouse.x, mouse.y, sqrt)
        invariant forall m :: k <= m < |particles| ==> particles[m].State() == old(particles[m].State())
      {
        particles[k].Update(mouse, sqrt);
        k := k + 1;
      }
      edges := Connect(sqrt);
    }

    /** The body of the pair loop: the line between particles i and j, if any. */
    method Link(i: nat, j: nat, sqrt: real -> real, ghost pts: seq<GridState>) returns (line: seq<Edge>)
      requires pts == Views(particles) && i < |pts| && j < |pts|
      ensures line == EdgeFor(pts, i, j, sqrt)
    {
      var p1 := particles[i];
      var p2 := particles[j];
      var distance := Length(p1.x - p2.x, p1.y - p2.y, sqrt);
      PairDistanceIs(pts, i, j, p1.x - p2.x, p1.y - p2.y, sqrt);
      if distance < ConnectionRadius {
        line := [Edge(i, j, Opacity(distance))];
      } else {
        line := [];
      }
    }

    /** The all-pairs loop: (i, j) for i < j, i ascending, then j ascending. */
    method Connect(sqrt: real -> real) returns (edges: seq<Edge>)
      ensures edges == Edges(Views(particles), sqrt)
    {
      ghost var pts := Views(particles);
      ghost var goal := Edges(pts, sqrt);
      var n := |particles|;
      edges := [];
      var i := 0;
      while i < n
        invariant 0 <= i <= n
        invariant edges + EdgesOf(pts, PairsFrom(i, n), sqrt) == goal
      {
        ghost var before := edges;
        edges := ConnectRow(i, sqrt, edges, pts);
        FromAdvance(pts, i, n, before, goal, sqrt);
        i := i + 1;
      }
    }

    /** The inner loop for particle i: the pairs (i, i + 1), ..., (i, n - 1), with the
        lines found appended to `edges`. */
    method ConnectRow(i: nat, sqrt: real -> real, edges0: seq<Edge>, ghost pts: seq<GridState>)
      returns (edges: seq<Edge>)
      requires pts == Views(particles) && i < |pts|
      ensures edges == edges0 + EdgesOf(pts, PairsRow(i, i + 1, |pts|), sqrt)
    {
      var n := |particles|;
      ghost var goal := edges0 + EdgesOf(pts, PairsRow(i, i + 1, n), sqrt);
      edges := edges0;
      var j := i + 1;
      while j < n
        invariant i + 1 <= j <= n
        invariant edges + EdgesOf(pts, PairsRow(i, j, n), sqrt) == goal
      {
        var line := Link(i, j, sqrt, pts);
        RowAdvance(pts, i, j, n, edges, line, goal, sqrt);
        edges := edges + line;
        j := j + 1;
      }
      assert PairsRow(i, j, n) == [];
    }
  }

  lemma ViewsAppend(ps: seq<GridParticle>, p: GridParticle)
    ensures Views(ps + [p]) == Views(ps) + [p.State()]
  {
  }

  lemma ColumnStep(c: nat, height: nat, r: nat)
    requires r < Cells(height)
    ensures Column(c, height)[..r + 1] == Column(c, height)[..r] + [LatticePoint(c, r)]
  {
  }

  /** The row loop stops after exactly ceil(height / 35) rows. */
  lemma ColumnDone(c: nat, height: nat, y: nat, r: nat)
    requires y == r * 35 && r <= Cells(height) && height <= y
    ensures Column(c, height)[..r] == Column(c, height)
  {
  }

  /** The column loop stops after exactly ceil(width / 35) columns. */
  lemma ColumnsDone(width: nat, x: nat, c: nat)
    requires x == c * 35 && c <= Cells(width) && width <= x
    ensures c == Cells(width)
  {
  }

  lemma PairDistanceIs(pts: seq<GridState>, i: nat, j: nat, dx: real, dy: real, sqrt: real -> real)
    requires i < |pts| && j < |pts|
    requires dx == pts[i].x - pts[j].x && dy == pts[i].y - pts[j].y
    ensures Length(dx, dy, sqrt) == PairDistance(pts, i, j, sqrt)
  {
  }

  /** The inner loop's remaining work, one pair peeled off. */
  lemma RowStep(pts: seq<GridState>, i: nat, j: nat, n: nat, sqrt: real -> real)
    requires j < n
    ensures EdgesOf(pts, PairsRow(i, j, n), sqrt) == EdgeFor(pts, i, j, sqrt) + EdgesOf(pts, PairsRow(i, j + 1, n), sqrt)
  {
    var ps := PairsRow(i, j, n);
    assert ps[0] == (i, j) && ps[1..] == PairsRow(i, j + 1, n);
  }

  /** Handling the pair (i, j) moves its line from the inner loop's remaining work to the output. */
  lemma RowAdvance(pts: seq<GridState>, i: nat, j: nat, n: nat, done: seq<Edge>, line: seq<Edge>,
                   goal: seq<Edge>, sqrt: real -> real)
    requires j < n && line == EdgeFor(pts, i, j, sqrt)
    requires done + EdgesOf(pts, PairsRow(i, j, n), sqrt) == goal
    ensures (done + line) + EdgesOf(pts, PairsRow(i, j + 1, n), sqrt) == goal
  {
    RowStep(pts, i, j, n, sqrt);
    Shift(done, EdgesOf(pts, PairsRow(i, j, n), sqrt), line, EdgesOf(pts, PairsRow(i, j + 1, n), sqrt), goal);
  }

  /** Finishing row i moves its lines from the outer loop's remaining work to the output. */
  lemma FromAdvance(pts: seq<GridState>, i: nat, n: nat, done: seq<Edge>, goal: seq<Edge>, sqrt: real -> real)
    requires i < n && done + EdgesOf(pts, PairsFrom(i, n), sqrt) == goal
    ensures (done + EdgesOf(pts, PairsRow(i, i + 1, n), sqrt)) + EdgesOf(pts, PairsFrom(i + 1, n), sqrt) == goal
  {
    EdgesOfAppend(pts, PairsRow(i, i + 1, n), PairsFrom(i + 1, n), sqrt);
    Shift(done, EdgesOf(pts, PairsFrom(i, n), sqrt), EdgesOf(pts, PairsRow(i, i + 1, n), sqrt),
          EdgesOf(pts, PairsFrom(i + 1, n), sqrt), goal);
  }

  /** Moving the next piece of work from the remaining list onto the output. */
  lemma Shift<T>(done: seq<T>, todo: seq<T>, next: seq<T>, rest: seq<T>, total: seq<T>)
    requires done + todo == total && todo == next + rest
    ensures (done + next) + rest == total
  {
  }
}
