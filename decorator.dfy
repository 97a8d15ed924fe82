/** The application object: the placed-decoration list, the drag state and the
    handlers that change them. The toolkit's queries (items under the pointer
    and their tags, the closest canvas item, pointer and canvas geometry) and the
    random jitter reach the handlers as parameters. */
module Decorator {
  import opened Records
  import opened TreeGeometry
  import opened Palette
  import opened Placement

  /** Canvas item ids are handed out in ascending order from 1. Drawing the tree
      creates 26 items (trunk, three layers, star, ground line and twenty
      snowflakes) before any decoration, so the first decoration is item 27. */
  const FirstDecorationItemId := 27

  /** The jitter bound of `random.randint(-10, 10)`, both ends included. */
  const MaxJitter := 10

  /** The pointer is over the tree canvas: the canvas rectangle, edges included. */
  predicate PointerOverCanvas(px: int, py: int, canvasX: int, canvasY: int, width: int, height: int) {
    canvasX <= px <= canvasX + width && canvasY <= py <= canvasY + height
  }

  /** A release at screen point (px, py) places the dragged decoration: over the
      canvas, and on the tree in canvas coordinates. */
  predicate DropLands(px: int, py: int, canvasX: int, canvasY: int, width: int, height: int) {
    PointerOverCanvas(px, py, canvasX, canvasY, width, height) && OnTree(px - canvasX, py - canvasY)
  }

  /** A release outside the canvas rectangle never places anything. */
  lemma DropOffCanvasNeverLands(px: int, py: int, canvasX: int, canvasY: int, width: int, height: int)
    requires !PointerOverCanvas(px, py, canvasX, canvasY, width, height)
    ensures !DropLands(px, py, canvasX, canvasY, width, height)
  {
  }

  /** A release that lands is at most 75 from the tree axis and inside the band,
      in canvas coordinates. */
  lemma DropLandsOnTreeBox(px: int, py: int, canvasX: int, canvasY: int, width: int, height: int)
    requires DropLands(px, py, canvasX, canvasY, width, height)
    ensures 175 <= px - canvasX <= 325 && 250 <= py - canvasY <= 450
  {
    AcceptedWithinBox(px - canvasX, py - canvasY);
  }

  class ChristmasTreeDecorator {
    /** The palette, in drawing order. */
    const decorations: seq<Decoration>
    /** The decorations on the tree, in the order they were placed. */
    var placed: seq<PlacedDecoration>
    /** The kind being dragged from the palette, if any. */
    var dragging: Option<Decoration>
    var dragStartX: int
    var dragStartY: int
    /** The id the tree canvas gives the next item it creates. */
    var nextItemId: int

    /** Every placed entry is a decoration item of the tree canvas, and the ids
        increase along the list, so no two entries share one. */
    ghost predicate Valid()
      reads this
    {
      FirstDecorationItemId <= nextItemId &&
      IdsIncreasing(placed) &&
      forall k :: 0 <= k < |placed| ==> FirstDecorationItemId <= placed[k].canvasId < nextItemId
    }

    constructor ()
      ensures Valid()
      ensures decorations == Catalogue() && placed == [] && dragging == None
      ensures dragStartX == 0 && dragStartY == 0 && nextItemId == FirstDecorationItemId
    {
      decorations := Catalogue();
      placed := [];
      dragging := None;
      dragStartX, dragStartY := 0, 0;
      nextItemId := FirstDecorationItemId;
    }

    /** Press on the palette: the first palette tag under the pointer chooses
        the kind to drag, and the press point is recorded. If parsing the tag or
        looking the index up raises, the handler stops and nothing changes. */
    method OnDecorationClick(itemTags: seq<seq<string>>, eventX: int, eventY: int) returns (outcome: PressOutcome)
      requires Valid()
      modifies this`dragging, this`dragStartX, this`dragStartY
      ensures Valid()
      ensures outcome == PressSelection(decorations, itemTags)
      ensures outcome.Selected? ==>
        dragging == Some(outcome.decoration) && dragStartX == eventX && dragStartY == eventY
      ensures !outcome.Selected? ==>
        dragging == old(dragging) && dragStartX == old(dragStartX) && dragStartY == old(dragStartY)
    {
      var tag := FindDecorationTag(itemTags);
      if tag.None? {
        return NoPaletteTag;
      }
      var index := ParseTag(tag.value);
      if index.None? {
        return Raised(ValueError);
      }
      var chosen := PyIndex(decorations, index.value);
      if chosen.None? {
        return Raised(IndexError);
      }
      dragging := chosen;
      dragStartX := eventX;
      dragStartY := eventY;
      return Selected(chosen.value);
    }

    /** Press on the tree canvas: `hit` is the canvas item closest to the press.
        The first placed entry drawn as that item is removed; nothing else moves. */
    method OnTreeClick(hit: int)
      requires Valid()
      modifies this`placed
      ensures Valid()
      ensures placed == RemoveFirstWithId(old(placed), hit)
      ensures !HasCanvasId(placed, hit)
    {
      var found := FindByCanvasId(placed, hit);
      if found.Some? {
        var i := found.value;
        ListRemoveOfFirstMatch(placed, hit, i);
        RemovedIdIsGone(placed, hit, i);
        RemoveFirstSplices(placed, hit, i);
        placed := ListRemove(placed, placed[i]);
      } else {
        RemoveAbsentIsIdentity(placed, hit);
      }
    }

    /** Put `decoration` on the tree near (x, y): the position moves by the
        jitter, the canvas hands out a fresh item id, and the entry is appended. */
    method PlaceDecoration(x: int, y: int, decoration: Decoration, jitterX: int, jitterY: int)
      requires Valid()
      requires -MaxJitter <= jitterX <= MaxJitter && -MaxJitter <= jitterY <= MaxJitter
      modifies this`placed, this`nextItemId
      ensures Valid()
      ensures placed == old(placed) + [PlacedDecoration(decoration, x + jitterX, y + jitterY, old(nextItemId))]
      ensures nextItemId == old(nextItemId) + 1
      ensures !HasCanvasId(old(placed), placed[|placed| - 1].canvasId)
    {
      var px := x + jitterX;
      var py := y + jitterY;
      var itemId := nextItemId;
      nextItemId := nextItemId + 1;
      placed := placed + [PlacedDecoration(decoration, px, py, itemId)];
    }

    /** Mouse release anywhere. With a drag in progress the dragged kind is
        placed when the pointer is over the tree canvas and on the tree, and the
        drag ends either way. Without one nothing happens. */
    method OnGlobalDrop(pointerX: int, pointerY: int, canvasX: int, canvasY: int,
                        canvasWidth: int, canvasHeight: int, jitterX: int, jitterY: int)
      requires Valid()
      requires -MaxJitter <= jitterX <= MaxJitter && -MaxJitter <= jitterY <= MaxJitter
      modifies this`placed, this`nextItemId, this`dragging
      ensures Valid()
      ensures old(dragging).None? ==>
        dragging == None && placed == old(placed) && nextItemId == old(nextItemId)
      ensures old(dragging).Some? ==> dragging == None
      ensures old(dragging).Some? && DropLands(pointerX, pointerY, canvasX, canvasY, canvasWidth, canvasHeight) ==>
        placed == old(placed) + [PlacedDecoration(old(dragging).value,
                                   pointerX - canvasX + jitterX, pointerY - canvasY + jitterY, old(nextItemId))] &&
        nextItemId == old(nextItemId) + 1
      ensures !(old(dragging).Some? && DropLands(pointerX, pointerY, canvasX, canvasY, canvasWidth, canvasHeight)) ==>
        placed == old(placed) && nextItemId == old(nextItemId)
    {
      if dragging.Some? {
        if canvasX <= pointerX <= canvasX + canvasWidth && canvasY <= pointerY <= canvasY + canvasHeight {
          var x := pointerX - canvasX;
          var y := pointerY - canvasY;
          var onTree := IsOnTree(x, y);
          if onTree {
            PlaceDecoration(x, y, dragging.value, jitterX, jitterY);
          }
        }
        dragging := None;
      }
    }
  }

  /** A whole interaction: press on palette item `i`, release over the tree
      canvas at a point on the tree, then click the new decoration. The store
      grows by one entry of kind `i` and the click takes it away again. */
  method PlaceThenRemove(i: nat, pointerX: int, pointerY: int, jitterX: int, jitterY: int)
      returns (afterPlace: seq<PlacedDecoration>, afterRemove: seq<PlacedDecoration>)
    requires i < |Catalogue()|
    requires DropLands(pointerX, pointerY, 0, 0, 500, 550)
    requires -MaxJitter <= jitterX <= MaxJitter && -MaxJitter <= jitterY <= MaxJitter
    ensures |afterPlace| == 1 && afterPlace[0].decoration == Catalogue()[i]
    ensures afterPlace[0].canvasId == FirstDecorationItemId
    ensures afterRemove == []
  {
    var app := new ChristmasTreeDecorator();
    var press := app.OnDecorationClick([[TagOf(i)]], 0, 0);
    assert Flatten([[TagOf(i)]]) == [TagOf(i)];
    TagRoundTrip(i);
    PressOnItemSelectsIt(app.decorations, [[TagOf(i)]], i);
    app.OnGlobalDrop(pointerX, pointerY, 0, 0, 500, 550, jitterX, jitterY);
    afterPlace := app.placed;
    app.OnTreeClick(afterPlace[0].canvasId);
    afterRemove := app.placed;
  }
}
