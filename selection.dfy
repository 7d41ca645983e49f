/** The selection of the asset grid: the ordered list of selected asset ids
    that every selectable cell shares. Tapping a cell takes the first
    occurrence of its asset's id out of the list, or appends the id when it
    is absent; a cell shows its checkmark when the list contains its id. */
module Selection {
  import opened Wrappers

  /** No id occurs twice in the list. */
  predicate NoDuplicates(s: seq<string>)
  {
    forall i, j :: 0 <= i < j < |s| ==> s[i] != s[j]
  }

  /** `s` with its first occurrence of `x` taken out; `s` itself when `x` is absent. */
  function RemoveFirst(s: seq<string>, x: string): seq<string>
  {
    if s == [] then []
    else if s[0] == x then s[1..]
    else [s[0]] + RemoveFirst(s[1..], x)
  }

  /** The list after a tap on the asset with id `id`. */
  function Toggled(s: seq<string>, id: string): seq<string>
  {
    if id in s then RemoveFirst(s, id) else s + [id]
  }

  /** The list after a series of taps, in order. */
  function ApplyTaps(s: seq<string>, taps: seq<string>): seq<string>
    decreases |taps|
  {
    if taps == [] then s else ApplyTaps(Toggled(s, taps[0]), taps[1..])
  }

  /** Index of the first occurrence of `x` in `s`, as `Array.firstIndex(of:)`. */
  method FirstIndex(s: seq<string>, x: string) returns (r: Option<nat>)
    ensures r.None? <==> x !in s
    ensures r.Some? ==> r.value < |s| && s[r.value] == x && x !in s[..r.value]
  {
    var i := 0;
    while i < |s|
      invariant i <= |s|
      invariant x !in s[..i]
    {
      if s[i] == x {
        return Some(i);
      }
      assert s[..i + 1] == s[..i] + [s[i]];
      i := i + 1;
    }
    assert s[..i] == s;
    return None;
  }

  /** Removing the first occurrence of `x`, found at `i`, splices out exactly position `i`. */
  lemma {:induction false} RemoveFirstAt(s: seq<string>, x: string, i: nat)
    requires i < |s| && s[i] == x && x !in s[..i]
    ensures RemoveFirst(s, x) == s[..i] + s[i + 1..]
    decreases i
  {
    if i > 0 {
      assert s[0] in s[..i];
      assert s[1..][..i - 1] == s[1..i];
      RemoveFirstAt(s[1..], x, i - 1);
      assert s[..i] == [s[0]] + s[1..i];
      assert s[1..][i..] == s[i + 1..];
    }
  }

  /** A tap on a selected asset removes exactly its first occurrence: the
      list shrinks by one and the others keep their relative order. */
  lemma ToggleRemovesFirst(s: seq<string>, id: string, i: nat)
    requires i < |s| && s[i] == id && id !in s[..i]
    ensures Toggled(s, id) == s[..i] + s[i + 1..]
    ensures |Toggled(s, id)| == |s| - 1
    ensures multiset(Toggled(s, id)) == multiset(s) - multiset{id}
  {
    RemoveFirstAt(s, id, i);
    assert s == s[..i] + [s[i]] + s[i + 1..];
  }

  /** A tap on an asset that is not selected appends its id and leaves every
      other entry where it was. */
  lemma ToggleAppendsAbsent(s: seq<string>, id: string)
    requires id !in s
    ensures |Toggled(s, id)| == |s| + 1
    ensures Toggled(s, id)[..|s|] == s && Toggled(s, id)[|s|] == id
  {
  }

  /** Every id in the list has a first occurrence. */
  lemma {:induction false} FirstOccurrence(s: seq<string>, x: string) returns (i: nat)
    requires x in s
    ensures i < |s| && s[i] == x && x !in s[..i]
    decreases |s|
  {
    if s[0] == x {
      i := 0;
    } else {
      assert x in s[1..];
      var j := FirstOccurrence(s[1..], x);
      i := j + 1;
      assert s[..i] == [s[0]] + s[1..][..j];
    }
  }

  /** Position `k` of the list with position `i` spliced out. */
  lemma SpliceAt(s: seq<string>, i: nat, k: nat)
    requires i < |s| && k < |s| - 1
    ensures (s[..i] + s[i + 1..])[k] == s[if k < i then k else k + 1]
  {
  }

  /** A tap leaves the membership of every other id unchanged. */
  lemma ToggleKeepsOthers(s: seq<string>, id: string, y: string)
    requires y != id
    ensures y in Toggled(s, id) <==> y in s
  {
    if id in s {
      var i := FirstOccurrence(s, id);
      RemoveFirstAt(s, id, i);
      var r := Toggled(s, id);
      if y in r {
        var k :| 0 <= k < |r| && r[k] == y;
        SpliceAt(s, i, k);
      }
      if y in s {
        var j :| 0 <= j < |s| && s[j] == y;
        var k := if j < i then j else j - 1;
        SpliceAt(s, i, k);
        assert r[k] == y;
      }
    }
  }

  /** Taps preserve "no id twice", and on such a list the tapped id flips in or out. */
  lemma ToggleKeepsNoDuplicates(s: seq<string>, id: string)
    requires NoDuplicates(s)
    ensures NoDuplicates(Toggled(s, id))
    ensures id in Toggled(s, id) <==> id !in s
  {
    var r := Toggled(s, id);
    if id in s {
      var i := FirstOccurrence(s, id);
      RemoveFirstAt(s, id, i);
      forall a, b | 0 <= a < b < |r| ensures r[a] != r[b] {
        SpliceAt(s, i, a);
        SpliceAt(s, i, b);
      }
      forall k | 0 <= k < |r| ensures r[k] != id {
        SpliceAt(s, i, k);
      }
    } else {
      assert r[|s|] == id;
    }
  }

  /** Two taps on an asset that was not selected leave the list exactly as it was. */
  lemma ToggleTwiceAbsent(s: seq<string>, id: string)
    requires id !in s
    ensures Toggled(Toggled(s, id), id) == s
  {
    var t := s + [id];
    assert t[..|s|] == s;
    RemoveFirstAt(t, id, |s|);
  }

  /** Two taps on a selected asset (at position `i` of a list without
      duplicates) keep the same ids but move it to the end. */
  lemma ToggleTwicePresent(s: seq<string>, id: string, i: nat)
    requires NoDuplicates(s) && i < |s| && s[i] == id
    ensures Toggled(Toggled(s, id), id) == s[..i] + s[i + 1..] + [id]
    ensures multiset(Toggled(Toggled(s, id), id)) == multiset(s)
  {
    assert id !in s[..i];
    ToggleRemovesFirst(s, id, i);
    ToggleKeepsNoDuplicates(s, id);
  }

  /** Taps on distinct assets that were not selected append them in tap order. */
  lemma {:induction false} TapsAppendInOrder(s: seq<string>, taps: seq<string>)
    requires NoDuplicates(taps) && forall t :: t in taps ==> t !in s
    ensures ApplyTaps(s, taps) == s + taps
    decreases |taps|
  {
    if taps != [] {
      assert taps[0] in taps;
      var rest := taps[1..];
      assert NoDuplicates(rest) by {
        forall a, b | 0 <= a < b < |rest| ensures rest[a] != rest[b] {
          assert rest[a] == taps[a + 1] && rest[b] == taps[b + 1];
        }
      }
      forall t | t in rest ensures t !in s + [taps[0]] {
        var k :| 0 <= k < |rest| && rest[k] == t;
        assert taps[k + 1] == t;
      }
      assert s + [taps[0]] + rest == s + taps;
      TapsAppendInOrder(s + [taps[0]], rest);
    }
  }

  /** Any series of taps starting from a list without duplicates leaves one without duplicates. */
  lemma {:induction false} TapsKeepNoDuplicates(s: seq<string>, taps: seq<string>)
    requires NoDuplicates(s)
    ensures NoDuplicates(ApplyTaps(s, taps))
    decreases |taps|
  {
    if taps != [] {
      ToggleKeepsNoDuplicates(s, taps[0]);
      TapsKeepNoDuplicates(Toggled(s, taps[0]), taps[1..]);
    }
  }

  /** Selecting a, b and c, in that order, gives [a, b, c]. */
  lemma SelectInOrder(a: string, b: string, c: string)
    requires a != b && b != c && a != c
    ensures ApplyTaps([], [a, b, c]) == [a, b, c]
  {
    assert NoDuplicates([a, b, c]);
    assert [] + [a, b, c] == [a, b, c];
    TapsAppendInOrder([], [a, b, c]);
  }

  /** Two taps are two toggles, in order. */
  lemma TwoTaps(s: seq<string>, x: string, y: string)
    ensures ApplyTaps(s, [x, y]) == Toggled(Toggled(s, x), y)
  {
    assert [x, y][1..] == [y] && [y][1..] == [];
    var once := Toggled(s, x);
    assert ApplyTaps(s, [x, y]) == ApplyTaps(once, [y]);
    assert ApplyTaps(once, [y]) == ApplyTaps(Toggled(once, y), []);
  }

  /** Deselecting and reselecting b in [a, b, c] gives [a, c, b]. */
  lemma ReselectMovesToEnd(abc: seq<string>)
    requires |abc| == 3 && NoDuplicates(abc)
    ensures ApplyTaps(abc, [abc[1], abc[1]]) == [abc[0], abc[2], abc[1]]
  {
    ToggleTwicePresent(abc, abc[1], 1);
    TwoTaps(abc, abc[1], abc[1]);
    assert abc[..1] + abc[2..] + [abc[1]] == [abc[0], abc[2], abc[1]];
  }

  /** The selection shared by the cells of one grid. */
  class SelectionList {
    var selectedIds: seq<string>

    /** The state every tap preserves. */
    ghost predicate Valid()
      reads this
    {
      NoDuplicates(selectedIds)
    }

    /** The grid starts with nothing selected. */
    constructor ()
      ensures selectedIds == [] && Valid()
    {
      selectedIds := [];
    }

    /** Whether the cell of the asset with id `assetId` shows its checkmark
        (`selectedIds.contains`). */
    method Contains(assetId: string) returns (visible: bool)
      ensures visible <==> assetId in selectedIds
    {
      visible := false;
      var i := 0;
      while i < |selectedIds|
        invariant i <= |selectedIds|
        invariant visible <==> assetId in selectedIds[..i]
      {
        assert selectedIds[..i + 1] == selectedIds[..i] + [selectedIds[i]];
        visible := visible || selectedIds[i] == assetId;
        i := i + 1;
      }
      assert selectedIds[..i] == selectedIds;
    }

    /** The tap handler of the cell of the asset with id `assetId`. */
    method Toggle(assetId: string)
      modifies this
      ensures selectedIds == Toggled(old(selectedIds), assetId)
      ensures old(Valid()) ==> Valid()
      ensures old(Valid()) ==> (assetId in selectedIds <==> assetId !in old(selectedIds))
      ensures forall y :: y != assetId ==> (y in selectedIds <==> y in old(selectedIds))
    {
      forall y | y != assetId ensures y in Toggled(selectedIds, assetId) <==> y in selectedIds {
        ToggleKeepsOthers(selectedIds, assetId, y);
      }
      if Valid() {
        ToggleKeepsNoDuplicates(selectedIds, assetId);
      }
      var firstIndex := FirstIndex(selectedIds, assetId);
      match firstIndex {
        case Some(i) =>
          RemoveFirstAt(selectedIds, assetId, i);
          selectedIds := selectedIds[..i] + selectedIds[i + 1..];
        case None =>
          selectedIds := selectedIds + [assetId];
      }
    }
  }
}
