/** The animation driver: one surface manager, the grid field and the cursor trail, all
    reading the same pointer record; each animation frame renders the grid, then the trail. */
module Engine {
  import opened Canvas
  import opened Lattice
  import opened Connections
  import Grid
  import Trail
  import opened Background

  class Main {
    const canvasManager: CanvasManager
    const backgroundSystem: BackgroundSystem
    const particleTrailSystem: Trail.ParticleTrailSystem

    /** Both systems are bound to the one surface manager's pointer and are each valid. */
    ghost predicate Valid()
      reads this, backgroundSystem, particleTrailSystem, particleTrailSystem.particles
    {
      && backgroundSystem.canvasManager == canvasManager
      && backgroundSystem.Valid()
      && particleTrailSystem.mouse == canvasManager.mouse
      && particleTrailSystem.Valid()
    }

    /** Builds the surface manager, lays out the grid for the initial surface, starts an
        empty trail and runs the first frame. The first frame is odd, so it emits nothing
        and makes no random draw; the arguments r standing for those draws are not read. */
    constructor (innerWidth: nat, innerHeight: nat, scrollHeight: nat, sqrt: real -> real)
      ensures Valid()
      ensures canvasManager.width == innerWidth && canvasManager.height == scrollHeight
      ensures canvasManager.mouse.x == innerWidth as real / 2.0
      ensures canvasManager.mouse.y == innerHeight as real / 2.0
      ensures Grid.Views(backgroundSystem.particles) ==
        Grid.Steps(Layout(innerWidth, scrollHeight), canvasManager.mouse.x, canvasManager.mouse.y, sqrt)
      ensures particleTrailSystem.frameCount == 1 && particleTrailSystem.particles == []
    {
      var manager := new CanvasManager(innerWidth, innerHeight, scrollHeight);
      var grid := new BackgroundSystem(manager);
      var trail := new Trail.ParticleTrailSystem(manager.mouse);
      canvasManager := manager;
      backgroundSystem := grid;
      particleTrailSystem := trail;
      new;
      var edges := FirstFrame(sqrt);
    }

    /** The frame the constructor runs: frame 1 is odd, so the trail stays empty and no
        random draw is made. */
    method FirstFrame(sqrt: real -> real) returns (edges: seq<Edge>)
      requires Valid() && particleTrailSystem.frameCount == 0 && particleTrailSystem.particles == []
      modifies backgroundSystem.particles, particleTrailSystem, particleTrailSystem.particles
      ensures Valid()
      ensures unchanged(canvasManager, canvasManager.mouse, backgroundSystem)
      ensures Grid.Views(backgroundSystem.particles) ==
        Grid.Steps(old(Grid.Views(backgroundSystem.particles)), canvasManager.mouse.x, canvasManager.mouse.y, sqrt)
      ensures particleTrailSystem.frameCount == 1 && particleTrailSystem.particles == []
    {
      ghost var before := Trail.Views(particleTrailSystem.particles);
      assert before == [];
      edges := Tick(sqrt, 0.0, 0.0, 0.0);
      Trail.OddFrameFromEmpty(before, Trail.Views(particleTrailSystem.particles), particleTrailSystem.frameCount,
                              canvasManager.mouse.x, canvasManager.mouse.y, 0.0, 0.0, 0.0);
    }

    /** One animation frame: the grid field renders, then the trail. Clearing the surface
        first only draws. r1, r2, r3 are the random draws a new trail particle would take. */
    method Tick(sqrt: real -> real, r1: real, r2: real, r3: real) returns (edges: seq<Edge>)
      requires Valid()
      requires 0.0 <= r1 < 1.0 && 0.0 <= r2 < 1.0 && 0.0 <= r3 < 1.0
      modifies backgroundSystem.particles, particleTrailSystem, particleTrailSystem.particles
      ensures Valid()
      ensures unchanged(canvasManager, canvasManager.mouse, backgroundSystem)
      ensures Grid.Views(backgroundSystem.particles) ==
        Grid.Steps(old(Grid.Views(backgroundSystem.particles)), canvasManager.mouse.x, canvasManager.mouse.y, sqrt)
      ensures edges == Edges(Grid.Views(backgroundSystem.particles), sqrt)
      ensures particleTrailSystem.frameCount == old(particleTrailSystem.frameCount) + 1
      ensures Trail.Views(particleTrailSystem.particles) ==
        Trail.Survivors(old(Trail.Views(particleTrailSystem.particles))
          + Trail.Emitted(particleTrailSystem.frameCount, canvasManager.mouse.x, canvasManager.mouse.y, r1, r2, r3))
      ensures |particleTrailSystem.particles| <= Trail.MaxPopulation
    {
      edges := RenderGrid(sqrt);
      RenderTrail(r1, r2, r3);
    }

    /** The grid half of a frame; the trail is not touched. */
    method RenderGrid(sqrt: real -> real) returns (edges: seq<Edge>)
      requires Valid()
      modifies backgroundSystem.particles
      ensures Valid()
      ensures Grid.Views(backgroundSystem.particles) ==
        Grid.Steps(old(Grid.Views(backgroundSystem.particles)), canvasManager.mouse.x, canvasManager.mouse.y, sqrt)
      ensures edges == Edges(Grid.Views(backgroundSystem.particles), sqrt)
      ensures unchanged(particleTrailSystem, canvasManager.mouse)
      ensures Trail.Views(particleTrailSystem.particles) == old(Trail.Views(particleTrailSystem.particles))
    {
      edges := backgroundSystem.Render(sqrt);
    }

    /** The trail half of a frame; the grid is not touched. */
    method RenderTrail(r1: real, r2: real, r3: real)
      requires Valid()
      requires 0.0 <= r1 < 1.0 && 0.0 <= r2 < 1.0 && 0.0 <= r3 < 1.0
      modifies particleTrailSystem, particleTrailSystem.particles
      ensures Valid()
      ensures particleTrailSystem.frameCount == old(particleTrailSystem.frameCount) + 1
      ensures Trail.Views(particleTrailSystem.particles) ==
        Trail.Survivors(old(Trail.Views(particleTrailSystem.particles))
          + Trail.Emitted(particleTrailSystem.frameCount, canvasManager.mouse.x, canvasManager.mouse.y, r1, r2, r3))
      ensures |particleTrailSystem.particles| <= Trail.MaxPopulation
      ensures unchanged(canvasManager.mouse)
      ensures Grid.Views(backgroundSystem.particles) == old(Grid.Views(backgroundSystem.particles))
    {
      particleTrailSystem.Render(r1, r2, r3);
    }

    /** A window resize: the surface manager's listener, registered first, resizes the
        surface; the grid field's listener then lays the lattice out again. */
    method Resize(innerWidth: nat, scrollHeight: nat)
      requires Valid()
      modifies canvasManager, backgroundSystem
      ensures Valid()
      ensures canvasManager.width == innerWidth && canvasManager.height == scrollHeight
      ensures Grid.Views(backgroundSystem.particles) == Layout(innerWidth, scrollHeight)
      ensures unchanged(canvasManager.mouse, particleTrailSystem)
    {
      canvasManager.SetCanvasDimensions(innerWidth, scrollHeight);
      backgroundSystem.Init();
    }

    /** A pointer move: both systems see the new document-space position. */
    method MouseMove(clientX: real, clientY: real, scrollX: real, scrollY: real)
      requires Valid()
      modifies canvasManager.mouse
      ensures Valid()
      ensures backgroundSystem.mouse.x == particleTrailSystem.mouse.x == clientX + scrollX
      ensures backgroundSystem.mouse.y == particleTrailSystem.mouse.y == clientY + scrollY
    {
      canvasManager.OnMouseMove(clientX, clientY, scrollX, scrollY);
    }
  }
}
