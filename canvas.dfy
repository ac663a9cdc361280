/** The surface manager: the drawing surface's dimensions and the shared pointer record. */
module Canvas {

  /** The pointer record `{x, y}`. One instance exists; the grid field and the
      trail emitter hold the same reference, so a move is seen by both. */
  class Pointer {
    var x: real
    var y: real

    constructor (x0: real, y0: real)
      ensures x == x0 && y == y0
    {
      x, y := x0, y0;
    }
  }

  /** A viewport (client) coordinate turned into a document coordinate. */
  function DocumentCoordinate(client: real, scroll: real): (doc: real)
    ensures doc - scroll == client
  {
    client + scroll
  }

  /** Whatever the scroll offset, a point of the document seen through the viewport
      is tracked at the same document coordinate. */
  lemma ScrollInvariant(doc: real, scroll1: real, scroll2: real)
    ensures DocumentCoordinate(doc - scroll1, scroll1) == DocumentCoordinate(doc - scroll2, scroll2) == doc
  {
  }

  class CanvasManager {
    var width: nat
    var height: nat
    const mouse: Pointer

    /** The viewport size and the document's scroll height are the host's values at startup. */
    constructor (innerWidth: nat, innerHeight: nat, scrollHeight: nat)
      ensures width == innerWidth && height == scrollHeight
      ensures fresh(mouse)
      ensures mouse.x == innerWidth as real / 2.0 && mouse.y == innerHeight as real / 2.0
    {
      mouse := new Pointer(innerWidth as real / 2.0, innerHeight as real / 2.0);
      new;
      SetCanvasDimensions(innerWidth, scrollHeight);
    }

    /** Width follows the viewport, height the document's full scroll height. */
    method SetCanvasDimensions(innerWidth: nat, scrollHeight: nat)
      modifies this
      ensures width == innerWidth && height == scrollHeight
      ensures unchanged(mouse)
    {
      width := innerWidth;
      height := scrollHeight;
    }

    /** The pointer is stored in document space: client coordinate plus scroll offset. */
    method OnMouseMove(clientX: real, clientY: real, scrollX: real, scrollY: real)
      modifies mouse
      ensures mouse.x == DocumentCoordinate(clientX, scrollX)
      ensures mouse.y == DocumentCoordinate(clientY, scrollY)
      ensures unchanged(this)
    {
      mouse.x := clientX + scrollX;
      mouse.y := clientY + scrollY;
    }
  }
}
