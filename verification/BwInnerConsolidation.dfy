/**
 Inner consolidation: collects a separator delta chain into a fresh base node.

 Records are gathered newest first into a sorted set that keeps the first record of a
 key. At a base the gathered records below the branch's high key are merged with the
 array; the low key's item is written first and skipped in the leftmost base.
 */
module BwInnerConsolidation {
  import opened BwItems
  import opened BwRecords
  import opened SmallSets
  import opened BwBuffer
  import opened BwInnerChain
  import Nav = BwInnerNavigation

  predicate KeyLess(r: Record, s: Record) {
    r.item.key < s.item.key
  }

  predicate KeyEqual(r: Record, s: Record) {
    r.item.key == s.item.key
  }

  // ---------------------------------------------------------------- merging at a base

  /** Copies the smaller head of base and records, or drops a deleted separator. */
  method MergeHeads(items: seq<Item>, from: nat, end: nat, sss: SortedSmallSet<Record>, out: ItemBuffer,
                    ghost rest: seq<Record>, ghost tail: seq<Record>)
    returns (next: nat, popped: bool)
    requires sss.Valid() && out.Valid() && sss.start < sss.end
    requires sss.Contents == rest + tail && rest != [] && Records(rest) && from < end <= |items|
    requires |out.Contents| + |MergeItems(items[from..end], rest)| <= out.data.Length
    modifies sss`start, sss`Contents, out, out.data
    ensures sss.Valid() && out.Valid() && from <= next <= end
    ensures sss.start == old(sss.start) + (if popped then 1 else 0) && (popped || next == from + 1)
    ensures var rest' := if popped then rest[1..] else rest;
      && sss.Contents == rest' + tail
      && out.Contents + MergeItems(items[next..end], rest') == old(out.Contents) + MergeItems(items[from..end], rest)
  {
    var front := sss.GetFront();
    ghost var s := items[from..end];
    assert s[0] == items[from] && s[1..] == items[from + 1..end];
    if items[from].key < front.item.key {
      Regroup(out.Contents, [items[from]], MergeItems(s[1..], rest));
      out.PushBack(items[from]);
      return from + 1, false;
    }
    next := if front.item.key < items[from].key then from else from + 1;
    popped := true;
    DropFirst(rest, tail);
    Regroup(out.Contents, if front.kind.Delete? then [] else [front.item], MergeItems(items[next..end], rest[1..]));
    front := sss.PopFront();
    if !front.kind.Delete? {
      out.PushBack(front.item);
    }
  }

  lemma DropFirst(a: seq<Record>, b: seq<Record>)
    requires a != []
    ensures (a + b)[1..] == a[1..] + b
  {
  }

  /** Stores the records left when the base is used up. */
  method DrainRecords(sss: SortedSmallSet<Record>, e: nat, out: ItemBuffer, ghost recs: seq<Record>, ghost tail: seq<Record>)
    requires sss.Valid() && out.Valid() && sss.start <= e <= sss.end
    requires sss.Contents == recs + tail && |recs| == e - sss.start && Records(recs)
    requires |out.Contents| + |MergeItems([], recs)| <= out.data.Length
    modifies sss`start, sss`Contents, out, out.data
    ensures sss.Valid() && out.Valid() && sss.Contents == tail
    ensures out.Contents == old(out.Contents) + MergeItems([], recs)
  {
    ghost var rest := recs;
    ghost var total := out.Contents + MergeItems([], recs);
    while sss.start != e
      invariant sss.Valid() && out.Valid() && sss.start <= e
      invariant sss.Contents == rest + tail && |rest| == e - sss.start && Records(rest)
      invariant out.Contents + MergeItems([], rest) == total
      decreases e - sss.start
    {
      DropFirst(rest, tail);
      var front := sss.PopFront();
      assert front == rest[0];
      assert MergeItems([], rest) == (if front.kind.Delete? then [] else [front.item]) + MergeItems([], rest[1..]);
      Regroup(out.Contents, if front.kind.Delete? then [] else [front.item], MergeItems([], rest[1..]));
      if !front.kind.Delete? {
        out.PushBack(front.item);
      }
      rest := rest[1..];
    }
    assert rest + tail == tail;
  }

  /** Merges until the base or the records are used up. */
  method MergeWhileBoth(items: seq<Item>, first: nat, end: nat, sss: SortedSmallSet<Record>, e: nat, out: ItemBuffer,
                        ghost recs: seq<Record>, ghost tail: seq<Record>)
    returns (copyStart: nat, ghost rest: seq<Record>)
    requires sss.Valid() && out.Valid() && sss.start <= e <= sss.end && first <= end <= |items|
    requires sss.Contents == recs + tail && |recs| == e - sss.start && Records(recs)
    requires |out.Contents| + |MergeItems(items[first..end], recs)| <= out.data.Length
    modifies sss`start, sss`Contents, out, out.data
    ensures sss.Valid() && out.Valid() && sss.start <= e <= sss.end && first <= copyStart <= end
    ensures sss.start == e || copyStart == end
    ensures sss.Contents == rest + tail && |rest| == e - sss.start && Records(rest)
    ensures out.Contents + MergeItems(items[copyStart..end], rest) == old(out.Contents) + MergeItems(items[first..end], recs)
  {
    copyStart, rest := first, recs;
    while sss.start != e && copyStart != end
      invariant sss.Valid() && out.Valid() && sss.start <= e <= sss.end && first <= copyStart <= end
      invariant sss.Contents == rest + tail && |rest| == e - sss.start && Records(rest)
      invariant out.Contents + MergeItems(items[copyStart..end], rest) == old(out.Contents) + MergeItems(items[first..end], recs)
      decreases e - sss.start + end - copyStart
    {
      var popped;
      copyStart, popped := MergeHeads(items, copyStart, end, sss, out, rest, tail);
      rest := if popped then rest[1..] else rest;
    }
  }

  /** Copies what is left of the base, or stores what is left of the records. */
  method MergeRemaining(items: seq<Item>, copyStart: nat, end: nat, sss: SortedSmallSet<Record>, e: nat, out: ItemBuffer,
                        ghost rest: seq<Record>, ghost tail: seq<Record>)
    requires sss.Valid() && out.Valid() && sss.start <= e <= sss.end && copyStart <= end <= |items| && (sss.start == e || copyStart == end)
    requires sss.Contents == rest + tail && |rest| == e - sss.start && Records(rest)
    requires |out.Contents| + |MergeItems(items[copyStart..end], rest)| <= out.data.Length
    modifies sss`start, sss`Contents, out, out.data
    ensures sss.Valid() && out.Valid() && sss.Contents == tail
    ensures out.Contents == old(out.Contents) + MergeItems(items[copyStart..end], rest)
  {
    if sss.start == e {
      assert rest == [] && rest + tail == tail;
      out.PushRange(items, copyStart, end);
    } else {
      assert items[copyStart..end] == [];
      DrainRecords(sss, e, out, rest, tail);
    }
  }

  /** The base case of collection. */
  method MergeBase(items: seq<Item>, first: nat, end: nat, high: Bound, sss: SortedSmallSet<Record>, out: ItemBuffer)
    requires sss.Valid() && out.Valid() && Records(sss.Contents) && first <= end <= |items|
    requires |out.Contents| + |MergeItems(items[first..end], sss.Contents[..CountBelow(sss.Contents, high)])| <= out.data.Length
    modifies sss`start, sss`Contents, out, out.data
    ensures sss.Valid() && out.Valid()
    ensures sss.Contents == old(Tail(sss.Contents, high))
    ensures out.Contents == old(out.Contents) + old(MergeItems(items[first..end], sss.Contents[..CountBelow(sss.Contents, high)]))
  {
    var e := ScanEnd(high, sss);
    ghost var recs := sss.Contents[..e - sss.start];
    ghost var tail := Tail(sss.Contents, high);
    assert sss.Contents == recs + tail;
    var copyStart;
    ghost var rest;
    copyStart, rest := MergeWhileBoth(items, first, end, sss, e, out, recs, tail);
    MergeRemaining(items, copyStart, end, sss, e, out, rest, tail);
  }

  // ---------------------------------------------------------------- gathering records

  /** The separators collection has to deliver under the gathered records, below the high key. */
  ghost function Goal(c: Chain, recs: seq<Record>, high: Bound): map<Key, NodeID> {
    Restrict(Overlay(Seps(c), RecordMap(recs)), high)
  }

  /** The leftmost branch leaves out the low key's item, which is already written. */
  ghost function Expected(c: Chain, recs: seq<Record>, high: Bound, lowId: NodeID): map<Key, NodeID>
    requires BasesSorted(c)
  {
    if Low(c).value == lowId then Goal(c, recs, high) - {Low(c).key} else Goal(c, recs, high)
  }

  ghost predicate Gathered(c: Chain, high: Bound, recs: seq<Record>, lowId: NodeID) {
    && WellFormed(c) && FirstsDiffer(c, lowId) && Records(recs)
    && (HighBound(c) == high || (c.Base? && Below(Low(c).key, high)))
    && (forall i :: 0 <= i < |recs| ==> Low(c).key <= recs[i].item.key)
    && (Low(c).value == lowId ==> forall i :: 0 <= i < |recs| ==> Low(c).key < recs[i].item.key)
  }

  /** The place FirstNotLess finds: smaller keys before it, no smaller ones from it on. */
  lemma PlaceFound(recs: seq<Record>, r: Record)
    requires Records(recs)
    ensures var i := FirstNotLess(recs, r, KeyLess);
      && (forall j :: 0 <= j < i ==> recs[j].item.key < r.item.key)
      && (forall j :: i <= j < |recs| ==> r.item.key <= recs[j].item.key)
  {
    var i := FirstNotLess(recs, r, KeyLess);
    assert i < |recs| ==> !KeyLess(recs[i], r);
    forall j | 0 <= j < i ensures recs[j].item.key < r.item.key {
      assert KeyLess(recs[j], r);
    }
  }

  lemma InsertOncePoint(recs: seq<Record>, r: Record)
    requires Records(recs)
    ensures r.item.key in RecordMap(recs) ==> InsertedOnce(recs, r, KeyLess, KeyEqual) == recs
    ensures r.item.key !in RecordMap(recs) ==>
      var i := FirstNotLess(recs, r, KeyLess);
      Separates(recs, i, r.item.key) && InsertedOnce(recs, r, KeyLess, KeyEqual) == Inserted(recs, i, r)
  {
    PlaceFound(recs, r);
    var i := FirstNotLess(recs, r, KeyLess);
    if r.item.key in RecordMap(recs) {
      var j := RecordMapFrom(recs, r.item.key);
      assert i == j;
    } else if i < |recs| {
      RecordMapHas(recs, i);
    }
  }

  lemma GatherSepGoal(c: Chain, high: Bound, recs: seq<Record>)
    requires c.Data? && Records(recs) && Below(c.rec.item.key, high)
    ensures var s := InsertedOnce(recs, c.rec, KeyLess, KeyEqual);
      Records(s) && Goal(c.child, s, high) == Goal(c, recs, high) && Tail(s, high) == Tail(recs, high)
  {
    var r := c.rec;
    InsertOncePoint(recs, r);
    if r.item.key in RecordMap(recs) {
      OverlayKnown(Seps(c.child), r, RecordMap(recs));
    } else {
      var i := FirstNotLess(recs, r, KeyLess);
      InsertSorted(recs, i, r);
      InsertKeepsTail(recs, i, r, high);
      RecordMapInserted(recs, i, r);
      OverlayNew(Seps(c.child), r, RecordMap(recs));
    }
  }

  lemma InsertedOnceFrom(recs: seq<Record>, r: Record, lo: Key)
    requires r.item.key > lo && forall i :: 0 <= i < |recs| ==> lo <= recs[i].item.key
    ensures var s := InsertedOnce(recs, r, KeyLess, KeyEqual);
      && (forall i :: 0 <= i < |s| ==> lo <= s[i].item.key)
      && ((forall i :: 0 <= i < |recs| ==> lo < recs[i].item.key) ==> forall i :: 0 <= i < |s| ==> lo < s[i].item.key)
  {
  }

  /** Passing a record: the newest record of a key decides, older ones are dropped. */
  lemma GatherSep(c: Chain, high: Bound, recs: seq<Record>, lowId: NodeID)
    requires Gathered(c, high, recs, lowId) && c.Data?
    ensures var s := InsertedOnce(recs, c.rec, KeyLess, KeyEqual);
      && Gathered(c.child, high, s, lowId)
      && Goal(c.child, s, high) == Goal(c, recs, high) && Tail(s, high) == Tail(recs, high)
  {
    GatherSepGoal(c, high, recs);
    InsertedOnceFrom(recs, c.rec, Low(c).key);
  }

  lemma SkipSplit(c: Chain, high: Bound, recs: seq<Record>, lowId: NodeID)
    requires Gathered(c, high, recs, lowId) && c.Split?
    ensures Gathered(c.child, high, recs, lowId) && Goal(c.child, recs, high) == Goal(c, recs, high)
  {
    assert Goal(c.child, recs, high) == Goal(c, recs, high);
  }

  /** Walks down to the base or merge record of the branch, gathering the records passed. */
  method GatherRecords(c: Chain, lowId: NodeID, sss: SortedSmallSet<Record>) returns (node: Chain)
    requires sss.Valid() && sss.less == KeyLess && sss.eq == KeyEqual
    requires Gathered(c, HighBound(c), sss.Contents, lowId) && sss.end + Depth(c) <= sss.data.Length
    modifies sss`end, sss`Contents, sss.data
    ensures sss.Valid() && (node.Base? || node.Merge?) && (node == c || node < c)
    ensures BasesSorted(node) && Low(node) == Low(c)
    ensures Gathered(node, HighBound(c), sss.Contents, lowId)
    ensures Goal(node, sss.Contents, HighBound(c)) == old(Goal(c, sss.Contents, HighBound(c)))
    ensures Tail(sss.Contents, HighBound(c)) == old(Tail(sss.Contents, HighBound(c)))
    ensures sss.end + Depth(node) <= old(sss.end) + Depth(c)
  {
    ghost var high := HighBound(c);
    node := c;
    while node.Data? || node.Split?
      invariant sss.Valid() && (node == c || node < c) && Gathered(node, high, sss.Contents, lowId)
      invariant Low(node) == Low(c)
      invariant Goal(node, sss.Contents, high) == old(Goal(c, sss.Contents, HighBound(c)))
      invariant Tail(sss.Contents, high) == old(Tail(sss.Contents, HighBound(c)))
      invariant sss.end + Depth(node) <= old(sss.end) + Depth(c)
      decreases node
    {
      if node.Data? {
        GatherSep(node, high, sss.Contents, lowId);
        sss.Insert(node.rec);
      } else {
        SkipSplit(node, high, sss.Contents, lowId);
      }
      node := node.child;
    }
  }

  // ---------------------------------------------------------------- base and merge branches

  lemma MapOfSkip(items: seq<Item>, t: seq<Item>)
    requires items != [] && Sorted([items[0]] + t)
    ensures Sorted(t) && MapOf(t) == MapOf([items[0]] + t) - {items[0].key}
  {
    MapOfCons(items[0], t);
    SortedSlice([items[0]] + t, 1, |t| + 1);
    assert ([items[0]] + t)[1..|t| + 1] == t;
  }

  /** At a base the merge delivers what is expected of the branch. */
  lemma BaseExpected(c: Chain, high: Bound, recs: seq<Record>, lowId: NodeID)
    requires Gathered(c, high, recs, lowId) && c.Base?
    ensures var first, end := if c.items[0].value == lowId then 1 else 0, CopyEnd(c.items, high);
      && first <= end
      && var t := MergeItems(c.items[first..end], recs[..CountBelow(recs, high)]);
         Sorted(t) && MapOf(t) == Expected(c, recs, high, lowId)
  {
    var end := CopyEnd(c.items, high);
    var below := recs[..CountBelow(recs, high)];
    MergeBelow(c.items, recs, high);
    assert end >= 1;
    var base := c.items[..end];
    assert c.items[0..end] == base && c.items[1..end] == base[1..];
    if c.items[0].value == lowId {
      MergeRun(base, 1, below);
      assert base[..1] == [c.items[0]];
      MapOfSkip(c.items, MergeItems(base[1..], below));
    }
  }

  lemma CopyEndFromOne(items: seq<Item>, high: Bound)
    requires items != [] && Sorted(items) && Below(items[0].key, high)
    ensures Sorted(items[1..])
    ensures CopyEnd(items, high) == if high.id == INVALID_NODE_ID then |items| else 1 + LowerBound(items[1..], high.key)
  {
    SortedSlice(items, 1, |items|);
    assert items[1..|items|] == items[1..];
    if high.id != INVALID_NODE_ID {
      Nav.LowerBoundFrom(items, high.key, 1);
    }
  }

  /** What a merge record is expected to deliver: its left branch and then its right branch. */
  lemma MergeExpected(c: Chain, recs: seq<Record>, lowId: NodeID)
    requires Gathered(c, HighBound(c), recs, lowId) && c.Merge?
    ensures var b := HighBound(c.child);
      var l, r := Expected(c.child, recs, b, lowId), Expected(c.right, Tail(recs, b), HighBound(c), lowId);
      && Expected(c, recs, HighBound(c), lowId) == l + r
      && |Expected(c, recs, HighBound(c), lowId)| == |l| + |r|
      && (forall k :: k in l ==> k < c.mergeKey) && (forall k :: k in r ==> c.mergeKey <= k)
  {
    var b, h := HighBound(c.child), HighBound(c);
    SepsInRange(c.child);
    SepsInRange(c.right);
    RecordMapParts(recs, b);
    BranchGoals(Seps(c.child), Seps(c.right), RecordMap(recs), b, h);
    var g, r := Goal(c.child, recs, b), Goal(c.right, Tail(recs, b), h);
    var l := Expected(c.child, recs, b, lowId);
    assert Goal(c, recs, h) == g + r;
    assert Low(c).key !in r;
    MinusUnion(g, r, Low(c).key);
    UnionSize(l, r);
  }

  lemma MinusUnion(a: map<Key, NodeID>, b: map<Key, NodeID>, k: Key)
    requires k !in b
    ensures (a + b) - {k} == (a - {k}) + b
  {
  }

  lemma ReadyForBranches(c: Chain, recs: seq<Record>, lowId: NodeID)
    requires Gathered(c, HighBound(c), recs, lowId) && c.Merge?
    ensures Gathered(c.child, HighBound(c.child), recs, lowId)
    ensures Gathered(c.right, HighBound(c.right), Tail(recs, HighBound(c.child)), lowId)
    ensures Tail(Tail(recs, HighBound(c.child)), HighBound(c)) == Tail(recs, HighBound(c))
  {
    SepsInRange(c.right);
    TailTail(recs, HighBound(c.child), HighBound(c));
  }

  // ---------------------------------------------------------------- collection

  lemma BaseReady(c: Chain, high: Bound, recs: seq<Record>, lowId: NodeID) returns (t: seq<Item>)
    requires Gathered(c, high, recs, lowId) && c.Base?
    ensures Records(recs) && c.items != [] && Sorted(c.items) && Sorted(c.items[1..])
    ensures CopyEnd(c.items, high) == if high.id == INVALID_NODE_ID then |c.items| else 1 + LowerBound(c.items[1..], high.key)
    ensures var first := if c.items[0].value == lowId then 1 else 0;
      first <= CopyEnd(c.items, high) && t == MergeItems(c.items[first..CopyEnd(c.items, high)], recs[..CountBelow(recs, high)])
    ensures Sorted(t) && MapOf(t) == Expected(c, recs, high, lowId) && |t| == |MapOf(t)|
  {
    CopyEndFromOne(c.items, high);
    BaseExpected(c, high, recs, lowId);
    var first := if c.items[0].value == lowId then 1 else 0;
    t := MergeItems(c.items[first..CopyEnd(c.items, high)], recs[..CountBelow(recs, high)]);
    MapOfSize(t);
  }

  /** Collection at a base node. */
  method CollectBase(c: Chain, high: Bound, lowId: NodeID, sss: SortedSmallSet<Record>, out: ItemBuffer)
    returns (ghost t: seq<Item>)
    requires sss.Valid() && out.Valid() && c.Base? && Gathered(c, high, sss.Contents, lowId)
    requires |out.Contents| + |Expected(c, sss.Contents, high, lowId)| <= out.data.Length
    modifies sss`start, sss`Contents, out, out.data
    ensures sss.Valid() && out.Valid() && sss.Contents == old(Tail(sss.Contents, high))
    ensures out.Contents == old(out.Contents) + t && Sorted(t)
    ensures MapOf(t) == old(Expected(c, sss.Contents, high, lowId))
  {
    t := BaseReady(c, high, sss.Contents, lowId);
    var end := if high.id == INVALID_NODE_ID then |c.items| else 1 + LowerBound(c.items[1..], high.key);
    var first := if c.items[0].value == lowId then 1 else 0;
    MergeBase(c.items, first, end, high, sss, out);
  }

  /** Collection at a merge record: the left branch and then the right one. */
  method CollectBranches(c: Chain, lowId: NodeID, sss: SortedSmallSet<Record>, out: ItemBuffer)
    returns (ghost t: seq<Item>)
    requires sss.Valid() && out.Valid() && sss.less == KeyLess && sss.eq == KeyEqual && c.Merge?
    requires Gathered(c, HighBound(c), sss.Contents, lowId) && sss.end + Depth(c) <= sss.data.Length
    requires |out.Contents| + |Expected(c, sss.Contents, HighBound(c), lowId)| <= out.data.Length
    modifies sss`start, sss`end, sss`Contents, sss.data, out, out.data
    ensures sss.Valid() && out.Valid() && sss.end <= old(sss.end) + Depth(c)
    ensures sss.Contents == old(Tail(sss.Contents, HighBound(c)))
    ensures out.Contents == old(out.Contents) + t && Sorted(t)
    ensures MapOf(t) == old(Expected(c, sss.Contents, HighBound(c), lowId))
    decreases c, 0
  {
    ghost var recs := sss.Contents;
    MergeExpected(c, recs, lowId);
    ReadyForBranches(c, recs, lowId);
    ghost var left := CollectAllSepsOnInnerRecursive(c.child, lowId, sss, out);
    MapOfAt(left);
    ghost var right := CollectAllSepsOnInnerRecursive(c.right, lowId, sss, out);
    t := left + right;
    Regroup(old(out.Contents), left, right);
    SortedConcat(left, right, c.mergeKey);
    MapOfConcat(left, right);
  }

  /** Collects the chain under the records gathered above it; consumes those below its high key. */
  method CollectAllSepsOnInnerRecursive(c: Chain, lowId: NodeID, sss: SortedSmallSet<Record>, out: ItemBuffer)
    returns (ghost t: seq<Item>)
    requires sss.Valid() && out.Valid() && sss.less == KeyLess && sss.eq == KeyEqual
    requires Gathered(c, HighBound(c), sss.Contents, lowId) && sss.end + Depth(c) <= sss.data.Length
    requires |out.Contents| + |Expected(c, sss.Contents, HighBound(c), lowId)| <= out.data.Length
    modifies sss`start, sss`end, sss`Contents, sss.data, out, out.data
    ensures sss.Valid() && out.Valid() && sss.end <= old(sss.end) + Depth(c)
    ensures sss.Contents == old(Tail(sss.Contents, HighBound(c)))
    ensures out.Contents == old(out.Contents) + t && Sorted(t)
    ensures MapOf(t) == old(Expected(c, sss.Contents, HighBound(c), lowId))
    decreases c, 1
  {
    var node := GatherRecords(c, lowId, sss);
    if node.Base? {
      t := CollectBase(node, HighBound(c), lowId, sss, out);
    } else {
      t := CollectBranches(node, lowId, sss, out);
    }
  }

  lemma GoalOfNothing(c: Chain)
    requires WellFormed(c)
    ensures Goal(c, [], HighBound(c)) == Seps(c)
  {
    SepsInRange(c);
    assert Overlay(Seps(c), map[]) == Seps(c);
  }

  lemma StartExpected(c: Chain)
    requires WellFormed(c)
    ensures Expected(c, [], HighBound(c), Low(c).value) == Seps(c) - {Low(c).key}
    ensures |Expected(c, [], HighBound(c), Low(c).value)| == ItemCount(c) - 1
  {
    GoalOfNothing(c);
    ItemCountIsSize(c);
    SepsInRange(c);
    RemoveSize(Seps(c), Low(c).key);
  }

  lemma StartGathering(c: Chain)
    requires WellFormed(c) && FirstsDiffer(c, Low(c).value)
    ensures Gathered(c, HighBound(c), [], Low(c).value)
    ensures Expected(c, [], HighBound(c), Low(c).value) == Seps(c) - {Low(c).key}
    ensures |Expected(c, [], HighBound(c), Low(c).value)| == ItemCount(c) - 1
  {
    StartExpected(c);
  }

  lemma LowFirst(c: Chain, t: seq<Item>)
    requires WellFormed(c) && Sorted(t) && MapOf(t) == Seps(c) - {Low(c).key}
    ensures Sorted([Low(c)] + t)
  {
    SepsInRange(c);
    forall j | 0 <= j < |t| ensures Low(c).key < t[j].key {
      MapOfHas(t, j);
      assert t[j].key in Seps(c);
    }
  }

  lemma FreshBase(c: Chain, t: seq<Item>)
    requires WellFormed(c) && Sorted(t) && MapOf(t) == Seps(c) - {Low(c).key}
    ensures var node := Base([Low(c)] + t, HighBound(c));
      WellFormed(node) && Seps(node) == Seps(c) && |[Low(c)] + t| == ItemCount(c)
  {
    var items := [Low(c)] + t;
    LowFirst(c, t);
    MapOfCons(Low(c), t);
    SepsInRange(c);
    assert MapOf(items) == Seps(c);
    ItemCountIsSize(c);
    MapOfSize(items);
    forall i | 0 <= i < |items| ensures Below(items[i].key, HighBound(c)) {
      MapOfHas(items, i);
      assert items[i].key in Seps(c);
    }
  }

  /** The stack storage of a collection: an empty set as large as the chain's depth, the low item written. */
  method Prepare(capacity: nat, depth: nat, low: Item) returns (sss: SortedSmallSet<Record>, out: ItemBuffer)
    requires capacity > 0
    ensures fresh(sss) && fresh(sss.data) && fresh(out) && fresh(out.data)
    ensures sss.Valid() && sss.Contents == [] && sss.end == 0 && sss.data.Length == depth
    ensures sss.less == KeyLess && sss.eq == KeyEqual
    ensures out.Valid() && out.Contents == [low] && out.data.Length == capacity
  {
    out := new ItemBuffer(capacity);
    var storage := new Record[depth](_ => Record(Insert, Item(0, 0), IndexPair(0, false)));
    sss := new SortedSmallSet<Record>(storage, KeyLess, KeyEqual);
    out.PushBack(low);
  }

  /**
   Consolidation. The collected node holds exactly the replayed separators, the low
   key's child first, fills the arrays sized from the item count exactly, and routes
   every key as the chain did.
   */
  method CollectAllSepsOnInner(snapshot: Chain) returns (node: Chain)
    requires WellFormed(snapshot) && FirstsDiffer(snapshot, Low(snapshot).value)
    ensures node.Base? && WellFormed(node) && Seps(node) == Seps(snapshot)
    ensures node.items[0] == Low(snapshot) && node.bound == HighBound(snapshot)
    ensures |node.items| == ItemCount(snapshot)
    ensures forall k, id :: Nav.Routes(node, k, id) <==> Nav.Routes(snapshot, k, id)
  {
    StartGathering(snapshot);
    ItemCountIsSize(snapshot);
    SepsInRange(snapshot);
    var sss, out := Prepare(ItemCount(snapshot), Depth(snapshot), Low(snapshot));
    ghost var t := CollectAllSepsOnInnerRecursive(snapshot, Low(snapshot).value, sss, out);
    FreshBase(snapshot, t);
    node := Base(out.Items(), HighBound(snapshot));
  }
}
