# Christmas Tree Decorator, modelled in Dafny

The program is a single-window tkinter application. A palette on the right offers
eight decoration kinds. The user drags a kind onto a tree drawn on the left canvas,
and clicks a placed decoration to remove it. This project models the decision logic
behind those gestures and proves what it promises:

- **Tree hit-test** (`is_on_tree`, module `TreeGeometry`). A drop point counts as on the
  tree when it lies in the vertical band 250..450 and inside one of three layers
  centred on x = 250 (centre rows 380, 320, 260; widths 150, 120, 90). A layer accepts
  `|y - cy| <= 70` and `|x - 250| <= width * (1 - |y - cy| / 70) / 2`. The model states
  that test exactly in integers as `140 * |x - 250| <= width * (70 - |y - cy|)`. Each
  layer's accepted region is a diamond around its centre row, not the drawn triangle
  (apex at the centre row, base 70 rows lower). `HitAreaIsNotDrawnTree` exhibits one
  point of each kind of disagreement. The model follows the hit-test.
- **Placement store** (`placed_decorations`, module `Placement` and the class field
  `placed`). Placing appends one record at a point jittered by at most 10 per axis. The
  record gets a fresh canvas item id. Clicking removes the first record drawn as the
  canvas item closest to the click, and nothing else.
- **Drag state** (`dragging_decoration`, class `Decorator.ChristmasTreeDecorator`).
  - A press on the palette selects the kind named by the first `decoration_<i>` tag under
    the pointer.
  - A release with a drag in progress places that kind when the pointer is inside the
    tree canvas (edges included) and on the tree. The drag then ends whatever happened.
  - A release without a drag does nothing.
- **Palette layout and tag codec** (module `Palette`). Item `i` sits at column `i % 2`,
  row `i // 2`, centre `(50 + 100 * (i % 2), 50 + 80 * (i // 2))`, on a 60 by 40
  background. It is tagged `decoration_<i>`. The press handler reads the index back
  with `int(tag.split("_")[1])`.

The toolkit's answers reach the handlers as parameters:
- the tags of the items under the pointer;
- the canvas item closest to a click;
- the pointer position;
- the tree canvas's screen rectangle;
- the random jitter.

Tk hands out canvas item ids in ascending order and never reuses them. The model keeps
the tree canvas's next id as a counter. Drawing the tree creates 26 items first (trunk,
three layers, star, ground line, twenty snowflakes), so the first decoration is item 27.

Three facts about the code that a reader might not expect:
- The band-edge point (250, 450) is accepted: the interpolated width there is 0 and
  `0 <= 0` (`BottomEdgeRow`).
- Each layer's accepted region is a diamond around its centre row, not the drawn
  triangle (`HitAreaIsNotDrawnTree`).
- Click removal matches the id of the canvas item closest to the click. There is no
  distance limit, so a click far from every decoration still removes one when a
  decoration is the closest item.

## Model

| member | source | states |
|---|---|---|
| `TreeGeometry.IsOnTree` | christmas_tree_decorator.py:258-278 | The band check, then the layers in order with early return, decides exactly `OnTree`: inside the band 250..450 and accepted by some layer. |
| `TreeGeometry.OnTreeIsCentredInterval` | christmas_tree_decorator.py:265-276 | A point is on the tree iff it is in the band and 140 times its distance from x = 250 is at most the widest layer reach at its row. So each row is one interval centred on the axis. |
| `TreeGeometry.OutsideBandRejected` | christmas_tree_decorator.py:261-262 | No point with y < 250 or y > 450 is on the tree, whatever x is. |
| `TreeGeometry.BandCutsTopLayer` | christmas_tree_decorator.py:261-272 | The band check is not redundant: the top layer alone accepts (250, 200), and the hit-test rejects it. |
| `TreeGeometry.MirrorSymmetric` | christmas_tree_decorator.py:265-276 | (x, y) is on the tree iff its mirror image (500 - x, y) is. |
| `TreeGeometry.MonotoneInward` | christmas_tree_decorator.py:265-276 | If (x, y) is on the tree and x' is no farther from 250 than x, then (x', y) is on the tree. |
| `TreeGeometry.AcceptedWithinBox` | christmas_tree_decorator.py:258-278 | Every accepted point has 175 <= x <= 325 and 250 <= y <= 450. |
| `TreeGeometry.BottomEdgeRow` | christmas_tree_decorator.py:271-276 | On row 450 the interpolated width is 0, so exactly x = 250 is accepted. |
| `TreeGeometry.TopEdgeRow` | christmas_tree_decorator.py:261-276 | On row 250 exactly 212 <= x <= 288 is accepted. The top layer gives 90 * 60 / 140 = 38.57 either side. |
| `TreeGeometry.ExactRow436` | christmas_tree_decorator.py:271-276 | In the exact model row 436 accepts 235 <= x <= 265: the half-width is 150 * 14 / 140 = 15, ends included. |
| `TreeGeometry.BottomCentreRow` | christmas_tree_decorator.py:271-276 | On row 380 exactly 175 <= x <= 325 is accepted: the full half-width 75, boundary included. |
| `TreeGeometry.HitAreaIsNotDrawnTree` | christmas_tree_decorator.py:123-130 | (250, 255) is accepted but lies above every drawn triangle. (200, 449) lies inside the drawn bottom triangle but is rejected. |
| `Records.Catalogue` | christmas_tree_decorator.py:38-47 | The palette offers eight kinds. |
| `Palette.CentersDistinct` | christmas_tree_decorator.py:149-158 | Distinct palette indices get distinct grid centres. |
| `Palette.BackgroundsDisjoint` | christmas_tree_decorator.py:154-165 | The 60 by 40 background rectangles of distinct items do not overlap, edges included. |
| `Palette.CatalogueFitsCanvas` | christmas_tree_decorator.py:153-162 | Each of the eight backgrounds lies within the 250 by 500 palette canvas. |
| `Palette.NatToDecimal` | christmas_tree_decorator.py:164 | The index written into a tag is a non-empty run of decimal digits. |
| `Palette.DecimalRoundTrip` | christmas_tree_decorator.py:205 | Reading back the decimal digits of n gives n. |
| `Palette.UpToUnderscore` | christmas_tree_decorator.py:205 | The field `split("_")` yields is a prefix of the text without an underscore, and it is followed by an underscore or the end of the text. |
| `Palette.TagRoundTrip` | christmas_tree_decorator.py:204-205 | `decoration_<i>` starts with the palette prefix, and parsing it gives back i. |
| `Palette.TagsDistinct` | christmas_tree_decorator.py:164 | Distinct palette items carry distinct tags. |
| `Palette.Flatten` | christmas_tree_decorator.py:200-203 | The tags the handler visits are exactly the tags of the items under the pointer. |
| `Palette.FirstDecorationTag` | christmas_tree_decorator.py:203-204 | The tag found has the palette prefix and is among the tags. None is found iff no tag has the prefix. |
| `Palette.FirstDecorationTagIsFirst` | christmas_tree_decorator.py:200-209 | The tag found is the first with the palette prefix: it stands at some position k, and no tag before k has the prefix. |
| `Palette.PyIndex` | christmas_tree_decorator.py:206 | A Python list index succeeds iff -len <= k < len. A non-negative index picks element k. |
| `Palette.PressOnItemSelectsIt` | christmas_tree_decorator.py:198-209 | When the first palette tag under the pointer is item i's, the press selects `decorations[i]`. |
| `Palette.PressOffItemsSelectsNothing` | christmas_tree_decorator.py:198-204 | A press with no palette tag under the pointer selects nothing. |
| `Palette.NegativeTagWrapsAround` | christmas_tree_decorator.py:205-206 | A tag the palette never draws, `decoration_-1`, selects the last of eight kinds, as Python's negative indexing does. |
| `Palette.TagPastEndRaises` | christmas_tree_decorator.py:205-206 | `decoration_8` with eight kinds raises IndexError, and the press selects nothing. |
| `Palette.NonNumericTagRaises` | christmas_tree_decorator.py:205 | `decoration_x` raises ValueError in `int`, and the press selects nothing. |
| `Palette.FindDecorationTag` | christmas_tree_decorator.py:200-204 | The nested loop over items and their tags returns the first tag with the palette prefix, or none. |
| `Placement.RemoveFirstWithId` | christmas_tree_decorator.py:214-219 | Removal shortens the list by one iff some entry has the clicked id. Otherwise the length is unchanged. |
| `Placement.RemoveFirstSplices` | christmas_tree_decorator.py:215-219 | Removal takes out exactly the first entry with the clicked id. The entries before and after it stay, in order. |
| `Placement.RemoveAbsentIsIdentity` | christmas_tree_decorator.py:215-216 | When no entry has the clicked id, the list is unchanged. |
| `Placement.ListRemoveOfFirstMatch` | christmas_tree_decorator.py:218 | `list.remove` of the first entry with the id removes at that same position, although it matches by value equality. |
| `Placement.RemoveAfterAppend` | christmas_tree_decorator.py:214-219 | Appending an entry with a fresh id and then clicking that id restores the list exactly. |
| `Placement.RemovedIdIsGone` | christmas_tree_decorator.py:214-219 | With increasing ids, no entry with the clicked id remains after removal, and the ids still increase. |
| `Placement.FindByCanvasId` | christmas_tree_decorator.py:215-219 | The search loop returns the index of the first entry with the id, or none iff no entry has it. |
| `Decorator.DropOffCanvasNeverLands` | christmas_tree_decorator.py:242-243 | A release outside the tree canvas rectangle never places a decoration. |
| `Decorator.DropLandsOnTreeBox` | christmas_tree_decorator.py:242-251 | A release that places is at canvas x 175..325 and y 250..450, before jitter. |
| `Decorator.ChristmasTreeDecorator.constructor` | christmas_tree_decorator.py:37-55 | The app starts with the eight kinds, no placed decorations, no drag and a drag origin of (0, 0). |
| `Decorator.ChristmasTreeDecorator.OnDecorationClick` | christmas_tree_decorator.py:195-209 | A press follows `PressSelection`. On a selection it sets the drag and records the press point. If no palette tag is found or the handler raises, nothing changes. |
| `Decorator.ChristmasTreeDecorator.OnTreeClick` | christmas_tree_decorator.py:211-219 | The list becomes `RemoveFirstWithId` of the old list. No entry with the clicked id remains, and the ids stay unique and increasing. |
| `Decorator.ChristmasTreeDecorator.PlaceDecoration` | christmas_tree_decorator.py:280-296 | Exactly one record is appended at the jittered point, with the given kind and a canvas id no earlier entry has. Earlier entries are unchanged and in order. |
| `Decorator.ChristmasTreeDecorator.OnGlobalDrop` | christmas_tree_decorator.py:228-256 | Without a drag nothing changes. With a drag, the drag always ends. The list grows by the dragged kind at the jittered canvas point, and the next item id advances by one, iff the pointer is inside the canvas rectangle and on the tree. Otherwise the list is unchanged. |
| `Decorator.PlaceThenRemove` | christmas_tree_decorator.py:280-296 | Pressing palette item i, releasing on the tree and clicking the new item places one record of kind i as item 27 and then leaves the list empty again. |

## Left out

- All drawing and widget work: window and frames, the tree picture, labels, fonts,
  colours and the `decoration.name.split()[0]` caption. Also the cursor change in
  `on_drag`, the cursor reset on release and `mainloop`. These are toolkit calls with no
  decision in them.
- The snowflakes are not modelled. Only their count enters, as the 26 items drawn before
  the first decoration.
- The canvas itself is not modelled. `create_text` is the id counter, and the
  `tree_canvas.delete(item)` on removal has no counterpart. The model therefore does not
  state that the list and the drawn items stay in step.
- Toolkit queries (`find_overlapping`, `gettags`, `find_closest`, `winfo_pointerx/y`,
  `winfo_rootx/y`, `winfo_width/height`) are parameters. The model does not know how Tk
  picks the closest item or orders overlapping items.
- `random.randint(-10, 10)` is a caller-supplied jitter in -10..10.
- Floating point: line 274 divides in doubles. The model uses the exact integer
  comparison instead. The two disagree at some boundary points. On row 436 (56 rows below
  the bottom layer's centre) the doubles give a half-width of 14.999999999999996, so the
  source rejects (235, 436) and (265, 436). The model accepts both (`ExactRow436`).
- Palette.PyInt: Python's `int` also accepts surrounding whitespace and non-ASCII
  decimal digits. The model treats those as ValueError. The palette never draws such a
  tag.
- `drag_start_x` and `drag_start_y` are recorded, as in the source, but nothing reads
  them.
