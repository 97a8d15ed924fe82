/** The list of placed decorations: how click-to-remove finds and deletes an
    entry, stated on sequences. */
module Placement {
  import opened Records

  predicate HasCanvasId(s: seq<PlacedDecoration>, id: int) {
    exists k :: 0 <= k < |s| && s[k].canvasId == id
  }

  /** Index `i` holds the first entry whose canvas item is `id`. */
  predicate IsFirstWithId(s: seq<PlacedDecoration>, id: int, i: int) {
    0 <= i < |s| && s[i].canvasId == id &&
    forall k :: 0 <= k < i ==> s[k].canvasId != id
  }

  /** The list after removing the first entry drawn as canvas item `id`, or the
      list itself when there is none. */
  function RemoveFirstWithId(s: seq<PlacedDecoration>, id: int): (r: seq<PlacedDecoration>)
    ensures |r| == if HasCanvasId(s, id) then |s| - 1 else |s|
  {
    if s == [] then []
    else if s[0].canvasId == id then s[1..]
    else [s[0]] + RemoveFirstWithId(s[1..], id)
  }

  /** Python's `list.remove(v)`: drop the first element equal to `v`. */
  function ListRemove<T(==)>(s: seq<T>, v: T): seq<T> {
    if s == [] then []
    else if s[0] == v then s[1..]
    else [s[0]] + ListRemove(s[1..], v)
  }

  /** Removal takes out exactly the first matching entry; everything before and
      after it stays, in the same order. */
  lemma {:induction false} RemoveFirstSplices(s: seq<PlacedDecoration>, id: int, i: int)
    requires IsFirstWithId(s, id, i)
    ensures RemoveFirstWithId(s, id) == s[..i] + s[i + 1..]
  {
    if i > 0 {
      RemoveFirstSplices(s[1..], id, i - 1);
      assert s[1..][..i - 1] == s[1..i];
      assert s[1..][i..] == s[i + 1..];
      assert [s[0]] + s[1..i] == s[..i];
    }
  }

  /** When no entry is canvas item `id`, removal changes nothing. */
  lemma {:induction false} RemoveAbsentIsIdentity(s: seq<PlacedDecoration>, id: int)
    requires !HasCanvasId(s, id)
    ensures RemoveFirstWithId(s, id) == s
  {
    if s != [] {
      assert !HasCanvasId(s[1..], id) by {
        forall k | 0 <= k < |s| - 1 ensures s[1..][k].canvasId != id {
          assert s[1..][k] == s[k + 1];
        }
      }
      RemoveAbsentIsIdentity(s[1..], id);
    }
  }

  /** Removing the entry `list.remove` is handed (the first one with the clicked
      id) is the same as removing the first entry with that id: any equal entry
      has that id too, so none can come earlier. */
  lemma {:induction false} ListRemoveOfFirstMatch(s: seq<PlacedDecoration>, id: int, i: int)
    requires IsFirstWithId(s, id, i)
    ensures ListRemove(s, s[i]) == RemoveFirstWithId(s, id)
  {
    if i > 0 {
      ListRemoveOfFirstMatch(s[1..], id, i - 1);
    }
  }

  /** Placing an entry with a fresh id and then clicking that id gives back the
      list as it was. */
  lemma {:induction false} RemoveAfterAppend(s: seq<PlacedDecoration>, p: PlacedDecoration)
    requires !HasCanvasId(s, p.canvasId)
    ensures RemoveFirstWithId(s + [p], p.canvasId) == s
  {
    var t := s + [p];
    assert IsFirstWithId(t, p.canvasId, |s|);
    RemoveFirstSplices(t, p.canvasId, |s|);
    assert t[..|s|] == s;
  }

  /** Canvas ids increase along the list: entries are kept in the order they
      were placed, each with an id the canvas handed out after the earlier ones. */
  predicate IdsIncreasing(s: seq<PlacedDecoration>) {
    forall j, k :: 0 <= j < k < |s| ==> s[j].canvasId < s[k].canvasId
  }

  /** With ids unique, a click on an entry removes it and leaves no entry with
      that id behind. */
  lemma RemovedIdIsGone(s: seq<PlacedDecoration>, id: int, i: int)
    requires IdsIncreasing(s) && IsFirstWithId(s, id, i)
    ensures !HasCanvasId(RemoveFirstWithId(s, id), id)
    ensures IdsIncreasing(RemoveFirstWithId(s, id))
  {
    RemoveFirstSplices(s, id, i);
    var r := s[..i] + s[i + 1..];
    assert forall k :: 0 <= k < |r| ==> r[k] == if k < i then s[k] else s[k + 1];
  }

  /** The search loop of the click handler: walk the list in order and stop at
      the first entry drawn as canvas item `id`. */
  method FindByCanvasId(s: seq<PlacedDecoration>, id: int) returns (found: Option<nat>)
    ensures found.Some? ==> IsFirstWithId(s, id, found.value)
    ensures found.None? <==> !HasCanvasId(s, id)
  {
    var i := 0;
    while i < |s|
      invariant 0 <= i <= |s|
      invariant forall k :: 0 <= k < i ==> s[k].canvasId != id
    {
      if s[i].canvasId == id {
        return Some(i);
      }
      i := i + 1;
    }
    return None;
  }
}
