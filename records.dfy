/** Value types shared by the whole model: the optional value used in place of
    Python's None, the decoration template and the record of a placed decoration,
    and the two Python exceptions the palette press handler can raise. */
module Records {

  datatype Option<+T> = None | Some(value: T)

  /** A decoration kind offered by the palette: set once at start-up, never changed. */
  datatype Decoration = Decoration(name: string, color: string, symbol: string, size: int)

  /** One decoration instance on the tree, with the id of the canvas item that shows it. */
  datatype PlacedDecoration = PlacedDecoration(decoration: Decoration, x: int, y: int, canvasId: int)

  /** The exceptions `int(...)` and list indexing raise inside the press handler. */
  datatype PyError = ValueError | IndexError

  /** The eight kinds the application offers, in palette order. The default size
      of 20 applies where the source gives none; every entry gives one. */
  function Catalogue(): (ds: seq<Decoration>)
    ensures |ds| == 8
    ensures forall i :: 0 <= i < |ds| ==> 18 <= ds[i].size <= 25
  {
    [ Decoration("Star", "#FFD700", "\U{2605}", 25),
      Decoration("Ball Red", "#FF0000", "\U{25CF}", 20),
      Decoration("Ball Blue", "#0066FF", "\U{25CF}", 20),
      Decoration("Ball Gold", "#FFD700", "\U{25CF}", 20),
      Decoration("Bell", "#C0C0C0", "\U{1F514}", 18),
      Decoration("Candy Cane", "#FF69B4", "\U{1F36D}", 18),
      Decoration("Gift", "#00FF00", "\U{1F381}", 22),
      Decoration("Angel", "#FFFFFF", "\U{1F47C}", 20) ]
  }
}
