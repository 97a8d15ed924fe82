/** The decoration palette: the grid the kinds are laid out on, the
    `decoration_<i>` tag each palette item carries, and how a press on the palette
    turns the tags under the pointer back into a decoration. */
module Palette {
  import opened Records

  // ---------------------------------------------------------------------------
  // Grid layout: two columns, 100 apart, rows 80 apart, starting at (50, 50).

  const Columns := 2

  datatype Point = Point(x: int, y: int)

  /** A closed axis-parallel rectangle, as the canvas draws it. */
  datatype Rect = Rect(left: int, top: int, right: int, bottom: int)

  /** Centre of palette item `i`: column `i % 2`, row `i // 2`. */
  function PaletteCenter(i: nat): Point {
    Point(50 + (i % Columns) * 100, 50 + (i / Columns) * 80)
  }

  /** The clickable background rectangle of palette item `i`, 60 by 40. */
  function BackgroundRect(i: nat): Rect {
    var c := PaletteCenter(i);
    Rect(c.x - 30, c.y - 20, c.x + 30, c.y + 20)
  }

  predicate Overlap(a: Rect, b: Rect) {
    a.left <= b.right && b.left <= a.right && a.top <= b.bottom && b.top <= a.bottom
  }

  /** Distinct items have distinct centres. */
  lemma CentersDistinct(i: nat, j: nat)
    requires i != j
    ensures PaletteCenter(i) != PaletteCenter(j)
  {
    assert i == Columns * (i / Columns) + i % Columns;
    assert j == Columns * (j / Columns) + j % Columns;
  }

  /** The background rectangles of distinct items do not even touch: columns are
      100 apart against a width of 60, rows 80 apart against a height of 40. */
  lemma BackgroundsDisjoint(i: nat, j: nat)
    requires i != j
    ensures !Overlap(BackgroundRect(i), BackgroundRect(j))
  {
    CentersDistinct(i, j);
    if i / Columns == j / Columns {
      assert i % Columns != j % Columns;
    } else if i / Columns < j / Columns {
      assert PaletteCenter(i).y + 80 <= PaletteCenter(j).y;
    } else {
      assert PaletteCenter(j).y + 80 <= PaletteCenter(i).y;
    }
  }

  /** The eight kinds of the catalogue fit on the 250 by 500 palette canvas. */
  lemma CatalogueFitsCanvas(i: nat)
    requires i < |Catalogue()|
    ensures 0 <= BackgroundRect(i).left && BackgroundRect(i).right <= 250
    ensures 0 <= BackgroundRect(i).top && BackgroundRect(i).bottom <= 500
  {
  }

  // ---------------------------------------------------------------------------
  // The tag codec: `f"decoration_{i}"` and `int(tag.split("_")[1])`.

  const TagPrefix := "decoration_"

  predicate HasDecorationPrefix(tag: string) {
    |TagPrefix| <= |tag| && tag[..|TagPrefix|] == TagPrefix
  }

  predicate IsDigit(c: char) { '0' <= c <= '9' }

  predicate AllDigits(s: string) { forall k :: 0 <= k < |s| ==> IsDigit(s[k]) }

  function DigitChar(d: nat): char
    requires d < 10
  {
    ['0', '1', '2', '3', '4', '5', '6', '7', '8', '9'][d]
  }

  function DigitValue(c: char): nat
    requires IsDigit(c)
  {
    c as int - '0' as int
  }

  /** Python's `str(n)` for a natural number: decimal, no leading zeros. */
  function NatToDecimal(n: nat): (s: string)
    ensures |s| > 0 && AllDigits(s)
  {
    if n < 10 then [DigitChar(n)] else NatToDecimal(n / 10) + [DigitChar(n % 10)]
  }

  /** The value of a non-empty run of decimal digits. */
  function DecimalValue(s: string): nat
    requires AllDigits(s)
  {
    if s == [] then 0 else 10 * DecimalValue(s[..|s| - 1]) + DigitValue(s[|s| - 1])
  }

  /** Python's `int(s)` on the strings this model considers: an optional sign
      followed by one or more ASCII digits; anything else raises ValueError. */
  function PyInt(s: string): Option<int> {
    var sign := if |s| > 0 && (s[0] == '+' || s[0] == '-') then 1 else 0;
    var digits := s[sign..];
    if digits == [] || !AllDigits(digits) then None
    else
      var magnitude: int := DecimalValue(digits);
      Some(if sign == 1 && s[0] == '-' then -magnitude else magnitude)
  }

  /** The text up to (not including) the first underscore. */
  function UpToUnderscore(s: string): (r: string)
    ensures r <= s && '_' !in r
    ensures |r| < |s| ==> s[|r|] == '_'
  {
    if s == [] || s[0] == '_' then [] else [s[0]] + UpToUnderscore(s[1..])
  }

  /** `tag.split("_")[1]` for a tag starting with `decoration_`: the field after
      the prefix's underscore, which is the first underscore of the tag. */
  function SecondField(tag: string): string
    requires HasDecorationPrefix(tag)
  {
    UpToUnderscore(tag[|TagPrefix|..])
  }

  function ParseTag(tag: string): Option<int>
    requires HasDecorationPrefix(tag)
  {
    PyInt(SecondField(tag))
  }

  /** The tag palette item `i` is drawn with. */
  function TagOf(i: nat): string {
    TagPrefix + NatToDecimal(i)
  }

  lemma {:induction false} DecimalRoundTrip(n: nat)
    ensures DecimalValue(NatToDecimal(n)) == n
  {
    var s := NatToDecimal(n);
    if n >= 10 {
      DecimalRoundTrip(n / 10);
      assert s[..|s| - 1] == NatToDecimal(n / 10);
    }
  }

  /** Parsing the tag of item `i` gives back `i`. */
  lemma TagRoundTrip(i: nat)
    ensures HasDecorationPrefix(TagOf(i))
    ensures ParseTag(TagOf(i)) == Some(i)
  {
    var t := TagOf(i);
    var digits := NatToDecimal(i);
    assert t[..|TagPrefix|] == TagPrefix;
    assert t[|TagPrefix|..] == digits;
    UpToUnderscoreOfDigits(digits);
    DecimalRoundTrip(i);
  }

  lemma {:induction false} UpToUnderscoreOfDigits(s: string)
    requires AllDigits(s)
    ensures UpToUnderscore(s) == s
  {
    if s != [] {
      UpToUnderscoreOfDigits(s[1..]);
    }
  }

  /** Distinct palette items carry distinct tags. */
  lemma TagsDistinct(i: nat, j: nat)
    requires i != j
    ensures TagOf(i) != TagOf(j)
  {
    TagRoundTrip(i);
    TagRoundTrip(j);
  }

  // ---------------------------------------------------------------------------
  // Which decoration a press on the palette selects.

  /** The tags of the items under the pointer, item after item. */
  function Flatten(itemTags: seq<seq<string>>): (r: seq<string>)
    ensures forall t :: t in r <==> exists i :: 0 <= i < |itemTags| && t in itemTags[i]
  {
    if itemTags == [] then [] else Flatten(itemTags[..|itemTags| - 1]) + itemTags[|itemTags| - 1]
  }

  /** The first tag starting with `decoration_`, if any. */
  function FirstDecorationTag(tags: seq<string>): (r: Option<string>)
    ensures r.Some? ==> r.value in tags && HasDecorationPrefix(r.value)
    ensures r.None? <==> forall k :: 0 <= k < |tags| ==> !HasDecorationPrefix(tags[k])
  {
    if tags == [] then None
    else if HasDecorationPrefix(tags[0]) then Some(tags[0])
    else FirstDecorationTag(tags[1..])
  }

  /** The tag found is the first with the palette prefix: every tag before it
      lacks the prefix. */
  lemma {:induction false} FirstDecorationTagIsFirst(tags: seq<string>)
    ensures FirstDecorationTag(tags).Some? ==>
      exists k :: 0 <= k < |tags| && tags[k] == FirstDecorationTag(tags).value &&
        forall j :: 0 <= j < k ==> !HasDecorationPrefix(tags[j])
  {
    if tags != [] && !HasDecorationPrefix(tags[0]) {
      FirstDecorationTagIsFirst(tags[1..]);
      if FirstDecorationTag(tags[1..]).Some? {
        var k :| 0 <= k < |tags[1..]| && tags[1..][k] == FirstDecorationTag(tags[1..]).value &&
          forall j :: 0 <= j < k ==> !HasDecorationPrefix(tags[1..][j]);
        assert tags[k + 1] == tags[1..][k];
        assert forall j :: 0 <= j < k + 1 ==> !HasDecorationPrefix(tags[j]) by {
          forall j | 0 <= j < k + 1 ensures !HasDecorationPrefix(tags[j]) {
            if j > 0 { assert tags[j] == tags[1..][j - 1]; }
          }
        }
      }
    }
  }

  lemma {:induction false} FirstDecorationTagAppend(a: seq<string>, b: seq<string>)
    ensures FirstDecorationTag(a + b) ==
      if FirstDecorationTag(a).Some? then FirstDecorationTag(a) else FirstDecorationTag(b)
  {
    if a != [] {
      assert (a + b)[0] == a[0];
      assert (a + b)[1..] == a[1..] + b;
      FirstDecorationTagAppend(a[1..], b);
    } else {
      assert a + b == b;
    }
  }

  /** Python list indexing: a negative index counts from the end, anything
      else outside the list raises IndexError. */
  function PyIndex<T>(s: seq<T>, k: int): (r: Option<T>)
    ensures r.Some? <==> -|s| <= k < |s|
    ensures 0 <= k < |s| ==> r == Some(s[k])
  {
    if 0 <= k < |s| then Some(s[k])
    else if -|s| <= k < 0 then Some(s[|s| + k])
    else None
  }

  /** How a palette press ends: no palette tag under the pointer, a decoration
      selected, or an exception out of the handler. */
  datatype PressOutcome = NoPaletteTag | Selected(decoration: Decoration) | Raised(error: PyError)

  /** The handler stops at the first `decoration_` tag it meets, whether the
      parse and the lookup succeed or raise. */
  function PressSelection(decorations: seq<Decoration>, itemTags: seq<seq<string>>): PressOutcome {
    match FirstDecorationTag(Flatten(itemTags))
    case None => NoPaletteTag
    case Some(tag) =>
      match ParseTag(tag)
      case None => Raised(ValueError)
      case Some(k) =>
        match PyIndex(decorations, k)
        case None => Raised(IndexError)
        case Some(d) => Selected(d)
  }

  /** A press whose first palette tag is item `i`'s selects `decorations[i]`. */
  lemma PressOnItemSelectsIt(decorations: seq<Decoration>, itemTags: seq<seq<string>>, i: nat)
    requires i < |decorations|
    requires FirstDecorationTag(Flatten(itemTags)) == Some(TagOf(i))
    ensures PressSelection(decorations, itemTags) == Selected(decorations[i])
  {
    TagRoundTrip(i);
  }

  /** Tags the palette never draws behave as in Python. A negative index counts
      from the end of the list. */
  lemma NegativeTagWrapsAround(decorations: seq<Decoration>)
    requires |decorations| == 8
    ensures PressSelection(decorations, [["decoration_-1"]]) == Selected(decorations[7])
  {
    var tag := "decoration_-1";
    assert Flatten([[tag]]) == [tag];
    assert HasDecorationPrefix(tag) && tag[|TagPrefix|..] == "-1";
    assert DecimalValue("1") == 1 by { assert "1"[..0] == []; }
    assert PyInt("-1") == Some(-1) by { assert "-1"[1..] == "1"; }
    assert ParseTag(tag) == Some(-1);
  }

  /** An index past the end of the list raises IndexError. */
  lemma TagPastEndRaises(decorations: seq<Decoration>)
    requires |decorations| == 8
    ensures PressSelection(decorations, [["decoration_8"]]) == Raised(IndexError)
  {
    var tag := "decoration_8";
    assert Flatten([[tag]]) == [tag];
    assert HasDecorationPrefix(tag) && tag[|TagPrefix|..] == "8";
    assert DecimalValue("8") == 8 by { assert "8"[..0] == []; }
    assert PyInt("8") == Some(8) by { assert "8"[0..] == "8"; }
    assert ParseTag(tag) == Some(8);
  }

  /** A field that is not an integer raises ValueError. */
  lemma NonNumericTagRaises(decorations: seq<Decoration>)
    ensures PressSelection(decorations, [["decoration_x"]]) == Raised(ValueError)
  {
    var tag := "decoration_x";
    assert Flatten([[tag]]) == [tag];
    assert HasDecorationPrefix(tag) && tag[|TagPrefix|..] == "x";
    assert UpToUnderscore("x") == "x";
    assert PyInt("x") == None by { assert !IsDigit("x"[0]); }
    assert ParseTag(tag) == None;
  }

  /** A press with no palette tag under the pointer selects nothing. */
  lemma PressOffItemsSelectsNothing(decorations: seq<Decoration>, itemTags: seq<seq<string>>)
    requires forall i, t :: 0 <= i < |itemTags| && t in itemTags[i] ==> !HasDecorationPrefix(t)
    ensures PressSelection(decorations, itemTags) == NoPaletteTag
  {
  }

  /** The search loop of the press handler: items in order, each item's tags in
      order, stopping at the first tag with the palette prefix. */
  method FindDecorationTag(itemTags: seq<seq<string>>) returns (tag: Option<string>)
    ensures tag == FirstDecorationTag(Flatten(itemTags))
  {
    var i := 0;
    while i < |itemTags|
      invariant 0 <= i <= |itemTags|
      invariant FirstDecorationTag(Flatten(itemTags[..i])) == None
    {
      var tags := itemTags[i];
      var j := 0;
      while j < |tags|
        invariant 0 <= j <= |tags|
        invariant forall k :: 0 <= k < j ==> !HasDecorationPrefix(tags[k])
      {
        if HasDecorationPrefix(tags[j]) {
          assert FirstDecorationTag(tags[..j + 1]) == Some(tags[j]) by {
            assert tags[..j + 1] == tags[..j] + [tags[j]];
            FirstDecorationTagAppend(tags[..j], [tags[j]]);
          }
          FoundInItem(itemTags, i, tags[..j + 1]);
          return Some(tags[j]);
        }
        j := j + 1;
      }
      assert tags[..j] == tags;
      assert itemTags[..i + 1][..i] == itemTags[..i];
      FirstDecorationTagAppend(Flatten(itemTags[..i]), tags);
      i := i + 1;
    }
    assert itemTags[..i] == itemTags;
    return None;
  }

  /** When no earlier item has a palette tag and a prefix of item `i`'s tags
      ends with one, that one is the first of all the tags. */
  lemma FoundInItem(itemTags: seq<seq<string>>, i: nat, head: seq<string>)
    requires i < |itemTags| && head <= itemTags[i]
    requires FirstDecorationTag(Flatten(itemTags[..i])) == None
    requires FirstDecorationTag(head).Some?
    ensures FirstDecorationTag(Flatten(itemTags)) == FirstDecorationTag(head)
  {
    var tags := itemTags[i];
    var rest := tags[|head|..];
    assert tags == head + rest;
    FirstDecorationTagAppend(head, rest);
    FlattenSplit(itemTags, i);
    FirstDecorationTagAppend(Flatten(itemTags[..i]), tags);
    FirstDecorationTagAppend(Flatten(itemTags[..i]) + tags, Flatten(itemTags[i + 1..]));
  }

  lemma {:induction false} FlattenSplit(itemTags: seq<seq<string>>, i: nat)
    requires i < |itemTags|
    ensures Flatten(itemTags) == Flatten(itemTags[..i]) + itemTags[i] + Flatten(itemTags[i + 1..])
    decreases |itemTags|
  {
    var n := |itemTags|;
    if i == n - 1 {
      assert itemTags[..n - 1] == itemTags[..i];
      assert itemTags[i + 1..] == [];
    } else {
      var front := itemTags[..n - 1];
      FlattenSplit(front, i);
      assert front[..i] == itemTags[..i];
      assert front[i] == itemTags[i];
      var tail := itemTags[i + 1..];
      assert tail[..|tail| - 1] == front[i + 1..];
      assert tail[|tail| - 1] == itemTags[n - 1];
    }
  }
}
