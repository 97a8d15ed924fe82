/** The tree hit-test `is_on_tree`: which canvas points count as "on the tree"
    when a decoration is dropped.

    The source interpolates each layer's width with floating-point division and
    compares `|x - cx| <= width * (1 - |y - cy| / 70) / 2`. Multiplying both sides
    by 140 gives the exact integer test `140 * |x - cx| <= width * (70 - |y - cy|)`,
    which is what this model uses. */
module TreeGeometry {

  /** A tree layer as the hit-test sees it: a centre and a width at the centre row. */
  datatype Layer = Layer(centerX: int, centerY: int, width: int)

  /** Half the height of every layer's vertical band. */
  const LayerHalfHeight := 70

  /** The fixed vertical band checked before any layer. */
  const BandTop := 250
  const BandBottom := 450

  /** The vertical axis every layer is centred on. */
  const TreeAxis := 250

  /** Bottom, middle and top layer, in the order the hit-test tries them. */
  const TreeLayers := [Layer(250, 380, 150), Layer(250, 320, 120), Layer(250, 260, 90)]

  function Abs(n: int): (r: nat)
    ensures r == n || r == -n
  {
    if n < 0 then -n else n
  }

  predicate InBand(y: int) {
    BandTop <= y <= BandBottom
  }

  /** One layer's test: the point is within the layer's band and no farther from
      the centre column than half the width interpolated at this row. The width
      falls linearly from `width` at the centre row to 0 at the band edges, so the
      accepted region is a diamond symmetric about the centre row. */
  predicate LayerAccepts(l: Layer, x: int, y: int) {
    Abs(y - l.centerY) <= LayerHalfHeight &&
    2 * LayerHalfHeight * Abs(x - l.centerX) <= l.width * (LayerHalfHeight - Abs(y - l.centerY))
  }

  /** What `is_on_tree` decides: inside the band and accepted by some layer. */
  predicate OnTree(x: int, y: int) {
    InBand(y) && exists i :: 0 <= i < |TreeLayers| && LayerAccepts(TreeLayers[i], x, y)
  }

  /** The hit-test as the source runs it: band check first, then the layers in
      order, returning as soon as one accepts. */
  method IsOnTree(x: int, y: int) returns (on: bool)
    ensures on <==> OnTree(x, y)
  {
    if y < BandTop || y > BandBottom {
      return false;
    }
    var layers := TreeLayers;
    for i := 0 to |layers|
      invariant forall k :: 0 <= k < i ==> !LayerAccepts(layers[k], x, y)
    {
      var l := layers[i];
      var dy := Abs(y - l.centerY);
      if dy <= LayerHalfHeight {
        if 2 * LayerHalfHeight * Abs(x - l.centerX) <= l.width * (LayerHalfHeight - dy) {
          return true;
        }
      }
    }
    return false;
  }

  // ---------------------------------------------------------------------------
  // An independent description of the accepted region: row by row.

  /** 140 times the half-width a layer accepts at row `y`, or -1 when the row is
      outside the layer's band (so that no distance is accepted). */
  function LayerReach(l: Layer, y: int): int {
    if Abs(y - l.centerY) <= LayerHalfHeight
    then l.width * (LayerHalfHeight - Abs(y - l.centerY))
    else -1
  }

  function Max(a: int, b: int): int { if a < b then b else a }

  /** 140 times the half-width of the tree at row `y`: the widest layer there. */
  function Reach(y: int): int {
    Max(LayerReach(TreeLayers[0], y), Max(LayerReach(TreeLayers[1], y), LayerReach(TreeLayers[2], y)))
  }

  /** Each row of the accepted region is one interval centred on the tree axis,
      as wide as the widest layer at that row. */
  lemma OnTreeIsCentredInterval(x: int, y: int)
    ensures OnTree(x, y) <==> InBand(y) && 140 * Abs(x - TreeAxis) <= Reach(y)
  {
    var d := 140 * Abs(x - TreeAxis);
    if InBand(y) && d <= Reach(y) {
      if d <= LayerReach(TreeLayers[0], y) {
        assert LayerAccepts(TreeLayers[0], x, y);
      } else if d <= LayerReach(TreeLayers[1], y) {
        assert LayerAccepts(TreeLayers[1], x, y);
      } else {
        assert LayerAccepts(TreeLayers[2], x, y);
      }
    }
    if OnTree(x, y) {
      var i :| 0 <= i < |TreeLayers| && LayerAccepts(TreeLayers[i], x, y);
      assert d <= LayerReach(TreeLayers[i], y);
    }
  }

  /** Nothing outside the band is on the tree, whatever `x` is. */
  lemma OutsideBandRejected(x: int, y: int)
    requires y < BandTop || y > BandBottom
    ensures !OnTree(x, y)
  {
  }

  /** The band check is not redundant: the top layer alone would accept points
      above row 250. */
  lemma BandCutsTopLayer()
    ensures LayerAccepts(TreeLayers[2], 250, 200) && !OnTree(250, 200)
  {
  }

  /** The hit-test is mirror-symmetric about the tree axis. */
  lemma MirrorSymmetric(x: int, y: int)
    ensures OnTree(x, y) <==> OnTree(2 * TreeAxis - x, y)
  {
    OnTreeIsCentredInterval(x, y);
    OnTreeIsCentredInterval(2 * TreeAxis - x, y);
  }

  /** Moving a point towards the axis along its row keeps it on the tree. */
  lemma MonotoneInward(x: int, x': int, y: int)
    requires OnTree(x, y)
    requires Abs(x' - TreeAxis) <= Abs(x - TreeAxis)
    ensures OnTree(x', y)
  {
    OnTreeIsCentredInterval(x, y);
    OnTreeIsCentredInterval(x', y);
  }

  /** Every accepted point lies in the box 175..325 by 250..450: at most 75 from
      the axis, the bottom layer's half-width at its centre row. */
  lemma AcceptedWithinBox(x: int, y: int)
    requires OnTree(x, y)
    ensures 175 <= x <= 325 && BandTop <= y <= BandBottom
  {
    OnTreeIsCentredInterval(x, y);
    assert Reach(y) <= 10500;
  }

  /** On the bottom band edge the interpolated width is 0, so only the axis
      itself is accepted; (250, 450) is on the tree. */
  lemma BottomEdgeRow(x: int)
    ensures OnTree(x, 450) <==> x == TreeAxis
  {
    OnTreeIsCentredInterval(x, 450);
  }

  /** The top row of the band is 38 either side of the axis (top layer, 10 rows
      above its centre: 90 * 60 / 140 = 38.57). */
  lemma TopEdgeRow(x: int)
    ensures OnTree(x, 250) <==> 212 <= x <= 288
  {
    OnTreeIsCentredInterval(x, 250);
  }

  /** Row 436 is 56 rows below the bottom layer's centre: the exact half-width
      is 150 * 14 / 140 = 15, so 235..265 is accepted, ends included. */
  lemma ExactRow436(x: int)
    ensures OnTree(x, 436) <==> 235 <= x <= 265
  {
    OnTreeIsCentredInterval(x, 436);
  }

  /** On the bottom layer's centre row the accepted half-width is exactly 75. */
  lemma BottomCentreRow(x: int)
    ensures OnTree(x, 380) <==> 175 <= x <= 325
  {
    OnTreeIsCentredInterval(x, 380);
  }

  // ---------------------------------------------------------------------------
  // The triangles the tree is drawn with (apex at the layer's row, base 70 rows
  // lower, half-base width // 2) are a different region from the one accepted.

  predicate InDrawnTriangle(l: Layer, x: int, y: int) {
    l.centerY <= y <= l.centerY + LayerHalfHeight &&
    LayerHalfHeight * Abs(x - l.centerX) <= (l.width / 2) * (y - l.centerY)
  }

  predicate InDrawnTree(x: int, y: int) {
    exists i :: 0 <= i < |TreeLayers| && InDrawnTriangle(TreeLayers[i], x, y)
  }

  /** A point above the drawn apex is accepted, and a point inside the drawn
      bottom triangle is rejected. */
  lemma HitAreaIsNotDrawnTree()
    ensures OnTree(250, 255) && !InDrawnTree(250, 255)
    ensures !OnTree(200, 449) && InDrawnTree(200, 449)
  {
    assert LayerAccepts(TreeLayers[2], 250, 255);
    assert InDrawnTriangle(TreeLayers[0], 200, 449);
    OnTreeIsCentredInterval(200, 449);
  }
}
