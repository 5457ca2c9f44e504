/**
 The window of cached block heights: a bounded ascending list with an index,
 which always holds the largest distinct heights ever added.
 */
module BlockWindow {
  import opened Commons

  /** Strictly ascending. */
  ghost predicate Ascending(s: seq<nat>) {
    forall i, j | 0 <= i < j < |s| :: s[i] < s[j]
  }

  function Elements(s: seq<nat>): set<nat> {
    set x | x in s
  }

  /** top holds the k largest members of all. */
  ghost predicate Largest(top: set<nat>, all: set<nat>, k: nat) {
    && top <= all
    && |top| <= k
    && (top != all ==> |top| == k)
    && forall x, y | x in all && x !in top && y in top :: x < y
  }

  lemma {:induction false} AscendingSize(s: seq<nat>)
    requires Ascending(s)
    ensures |Elements(s)| == |s|
  {
    if s == [] {
    } else {
      var n := |s| - 1;
      AscendingSize(s[..n]);
      assert Elements(s) == Elements(s[..n]) + {s[n]};
    }
  }

  /** A set has at most one choice of k largest members. */
  lemma LargestIsUnique(a: set<nat>, b: set<nat>, all: set<nat>, k: nat)
    requires Largest(a, all, k) && Largest(b, all, k)
    ensures a == b
  {
    if a <= b {
      SubsetSize(a, b);
    } else if b <= a {
      SubsetSize(b, a);
    } else {
      assert false;
    }
  }

  /** An ascending list is determined by its members. */
  lemma {:induction false} AscendingIsUnique(s: seq<nat>, t: seq<nat>)
    requires Ascending(s) && Ascending(t) && Elements(s) == Elements(t)
    ensures s == t
  {
    AscendingSize(s);
    AscendingSize(t);
    if s == [] {
    } else {
      var n := |s| - 1;
      assert s[n] in Elements(t) && t[n] in Elements(s);
      assert s[n] == t[n];
      assert Elements(s[..n]) == Elements(s) - {s[n]};
      assert Elements(t[..n]) == Elements(t) - {t[n]};
      AscendingIsUnique(s[..n], t[..n]);
    }
  }

  /** A window that has room, or already holds the height, keeps all its members. */
  lemma LargestGrows(top: set<nat>, all: set<nat>, k: nat, h: nat)
    requires Largest(top, all, k) && h !in top && |top| < k
    ensures Largest(top + {h}, all + {h}, k)
  {
    assert top == all;
  }

  lemma LargestKeeps(top: set<nat>, all: set<nat>, k: nat, h: nat)
    requires Largest(top, all, k) && (h in top || (|top| == k && forall y | y in top :: h < y))
    ensures Largest(top, all + {h}, k)
  {
    if h in top {
      assert all + {h} == all;
    }
  }

  /** A full window lets its least member go for a larger height. */
  lemma LargestReplaces(top: set<nat>, all: set<nat>, k: nat, h: nat, least: nat)
    requires Largest(top, all, k) && h !in top && |top| == k
    requires least in top && least < h && forall y | y in top :: least <= y
    ensures Largest(top + {h} - {least}, all + {h}, k)
  {
    assert h !in all;
    assert top + {h} - {least} == (top - {least}) + {h};
  }

  /** An element of the list. */
  class Element {
    const value: nat

    constructor (value: nat)
      ensures this.value == value
    {
      this.value := value;
    }
  }

  function ValuesOf(heights: seq<Element>): (s: seq<nat>)
    ensures |s| == |heights| && forall i | 0 <= i < |s| :: s[i] == heights[i].value
  {
    seq(|heights|, i requires 0 <= i < |heights| => heights[i].value)
  }

  /** The index maps exactly the heights of the list, each to its own element. */
  ghost predicate Indexed(heights: seq<Element>, index: map<nat, Element>) {
    index.Keys == Elements(ValuesOf(heights)) && forall i | 0 <= i < |heights| :: index[heights[i].value] == heights[i]
  }

  function Inserted(heights: seq<Element>, k: nat, e: Element): (r: seq<Element>)
    requires k <= |heights|
    ensures |r| == |heights| + 1
  {
    heights[..k] + [e] + heights[k..]
  }

  /** A new height in its place keeps list and index together. */
  lemma InsertKeeps(heights: seq<Element>, index: map<nat, Element>, k: nat, e: Element)
    requires Ascending(ValuesOf(heights)) && Indexed(heights, index) && e.value !in index
    requires k <= |heights| && (forall i | 0 <= i < k :: heights[i].value < e.value)
    requires forall i | k <= i < |heights| :: e.value < heights[i].value
    ensures var longer := Inserted(heights, k, e);
            Ascending(ValuesOf(longer)) && Indexed(longer, index[e.value := e])
            && Elements(ValuesOf(longer)) == Elements(ValuesOf(heights)) + {e.value}
  {
    var s := ValuesOf(heights);
    var longer := Inserted(heights, k, e);
    assert ValuesOf(longer) == s[..k] + [e.value] + s[k..];
    InsertedElements(s, k, e.value);
    IndexInserted(heights, index, k, e);
  }

  lemma IndexInserted(heights: seq<Element>, index: map<nat, Element>, k: nat, e: Element)
    requires Indexed(heights, index) && e.value !in index && k <= |heights|
    ensures forall x | x in Inserted(heights, k, e) ::
              x.value in index[e.value := e] && index[e.value := e][x.value] == x
  {
    var s := ValuesOf(heights);
    forall x | x in Inserted(heights, k, e) && x != e
      ensures x.value in index && index[x.value] == x
    {
      assert x in heights[..k] || x in heights[k..];
      var i :| 0 <= i < |heights| && heights[i] == x;
      assert s[i] in Elements(s);
    }
  }

  lemma InsertedElements(s: seq<nat>, k: nat, h: nat)
    requires Ascending(s) && k <= |s| && (forall i | 0 <= i < k :: s[i] < h) && forall i | k <= i < |s| :: h < s[i]
    ensures Ascending(s[..k] + [h] + s[k..]) && Elements(s[..k] + [h] + s[k..]) == Elements(s) + {h}
  {
    assert s == s[..k] + s[k..];
  }

  /** The front of an ascending list is its least member. */
  lemma FrontIsLeast(s: seq<nat>)
    requires Ascending(s) && s != []
    ensures Ascending(s[1..]) && Elements(s[1..]) == Elements(s) - {s[0]}
    ensures s[0] in Elements(s) && forall y | y in Elements(s) :: s[0] <= y
  {
    assert s == [s[0]] + s[1..];
  }

  /** Removing the front removes the least height from list and index. */
  lemma RemoveKeeps(heights: seq<Element>, index: map<nat, Element>)
    requires Ascending(ValuesOf(heights)) && Indexed(heights, index) && heights != []
    ensures Ascending(ValuesOf(heights[1..])) && Indexed(heights[1..], index - {heights[0].value})
    ensures Elements(ValuesOf(heights[1..])) == Elements(ValuesOf(heights)) - {heights[0].value}
  {
    var s := ValuesOf(heights);
    assert ValuesOf(heights[1..]) == s[1..];
    FrontIsLeast(s);
    var rest := heights[1..];
    forall i | 0 <= i < |rest|
      ensures rest[i].value in index && rest[i].value != s[0] && index[rest[i].value] == rest[i]
    {
      assert rest[i] == heights[i + 1] && s[i + 1] in Elements(s);
    }
  }

  /** List, index and members belong together, and hold the largest of all heights. */
  ghost predicate Window(heights: seq<Element>, index: map<nat, Element>, maxLen: nat, all: set<nat>) {
    maxLen > 0 && Ascending(ValuesOf(heights))
    && Indexed(heights, index) && Largest(Elements(ValuesOf(heights)), all, maxLen)
  }

  /** The new height has its place in front of position k. */
  ghost predicate Between(heights: seq<Element>, k: int, height: nat) {
    0 <= k <= |heights| && (k > 0 ==> heights[k - 1].value < height) && Above(heights, k, height)
  }

  ghost predicate Above(heights: seq<Element>, k: int, height: nat) {
    forall i | 0 <= i < |heights| && k <= i :: height < heights[i].value
  }

  lemma NothingAbove(heights: seq<Element>, height: nat)
    ensures Above(heights, |heights|, height)
  {
  }

  lemma OneMoreAbove(heights: seq<Element>, k: nat, height: nat)
    requires Above(heights, k + 1, height) && k < |heights| && height < heights[k].value
    ensures Above(heights, k, height)
  {
  }

  lemma BetweenAll(heights: seq<Element>, k: nat, height: nat)
    requires Ascending(ValuesOf(heights)) && Between(heights, k, height)
    ensures forall i | 0 <= i < k :: heights[i].value < height
  {
    var s := ValuesOf(heights);
    forall i | 0 <= i < k
      ensures s[i] < height
    {
      assert i < k - 1 ==> s[i] < s[k - 1];
    }
  }

  /** With room, the list with the new height is the window of one more height. */
  lemma GrowWindow(heights: seq<Element>, index: map<nat, Element>, maxLen: nat, all: set<nat>, k: nat, e: Element)
    requires Window(heights, index, maxLen, all) && e.value !in index && Between(heights, k, e.value)
             && |heights| < maxLen
    ensures var after := Inserted(heights, k, e);
            Window(after, index[e.value := e], maxLen, all + {e.value})
            && Evicts(Elements(ValuesOf(heights)), Elements(ValuesOf(after)), e.value, 0)
  {
    var top := Elements(ValuesOf(heights));
    AscendingSize(ValuesOf(heights));
    BetweenAll(heights, k, e.value);
    hide Ascending, Largest, Elements, ValuesOf, Between;
    InsertKeeps(heights, index, k, e);
    ContentsKeyed(heights, index, e.value);
    LargestGrows(top, all, maxLen, e.value);
  }

  /** When full, the front goes: it is less than the new height, which stands behind it. */
  lemma ReplaceWindow(heights: seq<Element>, index: map<nat, Element>, maxLen: nat, all: set<nat>, k: nat, e: Element)
    requires Window(heights, index, maxLen, all) && e.value !in index && Between(heights, k, e.value) && k > 0
    requires |heights| == maxLen
    ensures var after := Inserted(heights, k, e)[1..];
            var oldHeight := Inserted(heights, k, e)[0].value;
            Window(after, index[e.value := e] - {oldHeight}, maxLen, all + {e.value})
            && Evicts(Elements(ValuesOf(heights)), Elements(ValuesOf(after)), e.value, oldHeight)
  {
    var top := Elements(ValuesOf(heights));
    var least := heights[0].value;
    AscendingSize(ValuesOf(heights));
    BetweenAll(heights, k, e.value);
    FrontStays(heights, k, e);
    hide Ascending, Indexed, Largest, Elements, ValuesOf, Between, Above, Inserted, Evicts;
    ContentsKeyed(heights, index, e.value);
    InsertKeeps(heights, index, k, e);
    RemoveKeeps(Inserted(heights, k, e), index[e.value := e]);
    LargestReplaces(top, all, maxLen, e.value, least);
    LeastEvicted(top, e.value, least);
  }

  lemma FrontStays(heights: seq<Element>, k: nat, e: Element)
    requires Ascending(ValuesOf(heights)) && Between(heights, k, e.value) && k > 0
    ensures Inserted(heights, k, e)[0] == heights[0]
    ensures var top, least := Elements(ValuesOf(heights)), heights[0].value;
            least in top && least < e.value && forall y | y in top :: least <= y
  {
    FrontIsLeast(ValuesOf(heights));
    BetweenAll(heights, k, e.value);
  }

  lemma LeastEvicted(top: set<nat>, height: nat, least: nat)
    requires least in top && height !in top
    ensures Evicts(top, top + {height} - {least}, height, least)
  {
  }

  /** The window is unchanged by a height it holds, or by one below all when full. */
  lemma KeepWindow(heights: seq<Element>, index: map<nat, Element>, maxLen: nat, all: set<nat>, height: nat)
    requires Window(heights, index, maxLen, all)
    requires height in index || (|heights| >= maxLen && Between(heights, 0, height))
    ensures Window(heights, index, maxLen, all + {height})
    ensures Evicts(Elements(ValuesOf(heights)), Elements(ValuesOf(heights)), height, 0)
  {
    var top := Elements(ValuesOf(heights));
    AscendingSize(ValuesOf(heights));
    LargestKeeps(top, all, maxLen, height);
  }

  class Blocks {
    var heights: seq<Element>
    var index: map<nat, Element>
    const maxLen: nat
    /** Every height ever added. */
    ghost var added: set<nat>

    ghost function Values(): seq<nat>
      reads this
    {
      ValuesOf(heights)
    }

    ghost function Contents(): set<nat>
      reads this
    {
      Elements(Values())
    }

    ghost predicate Valid()
      reads this
    {
      Window(heights, index, maxLen, added)
    }

    constructor (maxLen: nat)
      requires maxLen > 0
      ensures Valid() && this.maxLen == maxLen && added == {} && Contents() == {}
    {
      this.maxLen := maxLen;
      heights := [];
      index := map[];
      added := {};
    }

    /** Go: add. Returns the height that was removed to make room, or 0. */
    method Add(height: nat) returns (removed: nat)
      requires Valid()
      modifies this
      ensures Valid() && added == old(added) + {height}
      ensures Evicts(old(Contents()), Contents(), height, removed)
    {
      hide Ascending, Indexed, Largest, Elements, ValuesOf, Evicts, Window, Between;
      if height in index {
        KeepWindow(heights, index, maxLen, added, height);
        added := added + {height};
        return 0;
      }
      var e := FindPlace(height);
      if e >= 0 {
        removed := InsertAfter(height, e);
        return;
      }
      if maxLen > |heights| {
        var inserted := new Element(height);
        GrowWindow(heights, index, maxLen, added, 0, inserted);
        assert Inserted(heights, 0, inserted) == [inserted] + heights;
        heights := [inserted] + heights;
        index := index[height := inserted];
      } else {
        KeepWindow(heights, index, maxLen, added, height);
      }
      added := added + {height};
      return 0;
    }

    /** The loop from the back: the last element below the height, or -1. */
    method FindPlace(height: nat) returns (e: int)
      requires Valid() && height !in index
      ensures -1 <= e < |heights| && Between(heights, e + 1, height)
    {
      NothingAbove(heights, height);
      hide Ascending, Indexed, Largest, Elements, ValuesOf, Window, Above;
      e := |heights| - 1;
      while e >= 0
        invariant -1 <= e < |heights| && Above(heights, e + 1, height)
      {
        var curHeight := heights[e].value;
        if curHeight < height {
          return;
        }
        OtherHeight(heights, index, maxLen, added, e, height);
        OneMoreAbove(heights, e, height);
        e := e - 1;
      }
    }

    /** The step of the loop that inserts behind position e. */
    method InsertAfter(height: nat, e: nat) returns (removed: nat)
      requires Valid() && height !in index && e < |heights| && Between(heights, e + 1, height)
      modifies this
      ensures Valid() && added == old(added) + {height}
      ensures Evicts(old(Contents()), Contents(), height, removed)
    {
      hide Window, Evicts, Between, ValuesOf, Elements;
      var inserted := new Element(height);
      var newHeights, newIndex, oldHeight := Place(heights, index, maxLen, added, e, inserted);
      heights, index, added := newHeights, newIndex, added + {height};
      return oldHeight;
    }

    /** The list and the index with the new element; if the list is then too long, its front goes. */
    static method Place(heights: seq<Element>, index: map<nat, Element>, maxLen: nat, ghost all: set<nat>, e: nat,
                        inserted: Element)
      returns (newHeights: seq<Element>, newIndex: map<nat, Element>, oldHeight: nat)
      requires Window(heights, index, maxLen, all) && inserted.value !in index
      requires e < |heights| && Between(heights, e + 1, inserted.value)
      ensures Window(newHeights, newIndex, maxLen, all + {inserted.value})
      ensures Evicts(Elements(ValuesOf(heights)), Elements(ValuesOf(newHeights)), inserted.value, oldHeight)
    {
      WindowFits(heights, index, maxLen, all);
      hide Ascending, Indexed, Largest, Elements, ValuesOf, Evicts, Window, Between, Above, Inserted;
      newHeights := Inserted(heights, e + 1, inserted);
      newIndex := index[inserted.value := inserted];
      oldHeight := 0;
      if maxLen < |newHeights| {
        ReplaceWindow(heights, index, maxLen, all, e + 1, inserted);
        oldHeight := newHeights[0].value;
        newHeights := newHeights[1..];
        newIndex := newIndex - {oldHeight};
      } else {
        GrowWindow(heights, index, maxLen, all, e + 1, inserted);
      }
    }

    method Exists(height: nat) returns (r: bool)
      requires Valid()
      ensures r <==> height in Contents()
    {
      return height in index;
    }
  }

  /** The height removed is the only one that can leave, and 0 stands for none. */
  ghost predicate Evicts(before: set<nat>, after: set<nat>, height: nat, removed: nat) {
    && before - after <= {removed}
    && (before <= after ==> removed == 0)
    && after <= before + {height}
  }

  lemma ContentsKeyed(heights: seq<Element>, index: map<nat, Element>, height: nat)
    requires Indexed(heights, index)
    ensures height in index <==> height in Elements(ValuesOf(heights))
  {
  }

  lemma OtherHeight(heights: seq<Element>, index: map<nat, Element>, maxLen: nat, all: set<nat>, e: nat, height: nat)
    requires Window(heights, index, maxLen, all) && e < |heights| && height !in index
    ensures heights[e].value != height
  {
    assert ValuesOf(heights)[e] in Elements(ValuesOf(heights));
  }

  lemma WindowFits(heights: seq<Element>, index: map<nat, Element>, maxLen: nat, all: set<nat>)
    requires Window(heights, index, maxLen, all)
    ensures |heights| <= maxLen
  {
    AscendingSize(ValuesOf(heights));
  }

  /** For positive heights the result says exactly what was evicted. */
  twostate lemma RemovedIsEvicted(b: Blocks, height: nat, removed: nat)
    requires Evicts(old(b.Contents()), b.Contents(), height, removed)
    requires 0 !in old(b.added) && old(b.Valid())
    ensures old(b.Contents()) - b.Contents() == if removed == 0 then {} else {removed}
  {
    assert 0 !in old(b.Contents());
    if !(old(b.Contents()) <= b.Contents()) {
      var y :| y in old(b.Contents()) && y !in b.Contents();
      assert y in old(b.Contents()) - b.Contents();
    }
  }

  /** Two windows of one size to which the same heights were added, in any order, are equal lists. */
  lemma OrderIrrelevant(a: Blocks, b: Blocks)
    requires a.Valid() && b.Valid() && a.maxLen == b.maxLen && a.added == b.added
    ensures a.Values() == b.Values()
  {
    LargestIsUnique(a.Contents(), b.Contents(), a.added, a.maxLen);
    AscendingIsUnique(a.Values(), b.Values());
  }

  /** The windows of slow and fast blocks. */
  class Cache {
    const slowBlocks: Blocks
    const fastBlocks: Blocks
    const tMin: int

    ghost predicate Valid()
      reads this, slowBlocks, fastBlocks
    {
      slowBlocks != fastBlocks && slowBlocks.Valid() && fastBlocks.Valid()
    }

    constructor (nAvg: nat, tMin: int)
      requires nAvg > 0
      ensures Valid() && this.tMin == tMin && slowBlocks.maxLen == nAvg && fastBlocks.maxLen == nAvg
      ensures slowBlocks.added == {} && fastBlocks.added == {}
    {
      this.tMin := tMin;
      slowBlocks := new Blocks(nAvg);
      fastBlocks := new Blocks(nAvg);
    }

    /** Go: AddBlock. A block generated faster than tMin is fast. */
    method AddBlock(height: nat, generationTime: int) returns (removed: nat)
      requires Valid()
      modifies slowBlocks, fastBlocks
      ensures Valid()
      ensures slowBlocks.added == old(slowBlocks.added) + (if generationTime < tMin then {} else {height})
      ensures fastBlocks.added == old(fastBlocks.added) + (if generationTime < tMin then {height} else {})
      ensures var b := if generationTime < tMin then fastBlocks else slowBlocks;
              Evicts(old(b.Contents()), b.Contents(), height, removed)
    {
      hide Ascending, Indexed, Largest, Elements, ValuesOf, Evicts;
      if generationTime < tMin {
        removed := fastBlocks.Add(height);
      } else {
        removed := slowBlocks.Add(height);
      }
    }

    /** Go: WasSlowBlock. Whether the height is a slow block, and whether it is known at all. */
    method WasSlowBlock(height: nat) returns (slow: bool, exists_: bool)
      requires Valid()
      ensures slow <==> height in slowBlocks.Contents()
      ensures exists_ <==> height in slowBlocks.Contents() + fastBlocks.Contents()
    {
      var isSlow := slowBlocks.Exists(height);
      if isSlow {
        return true, true;
      }
      var isFast := fastBlocks.Exists(height);
      if isFast {
        return false, true;
      }
      return false, false;
    }
  }
}
