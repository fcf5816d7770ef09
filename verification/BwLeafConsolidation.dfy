/**
 Leaf consolidation: collects a delta chain into a fresh base node.

 Records are gathered newest first; a bloom filter drops older records of a key
 already gathered. At a base the gathered records below the branch's high key are
 merged with the array, driven only by the index every record carries. A merge record
 collects its left branch and then its right branch into the same buffer.
 */
module BwLeafConsolidation {
  import opened BwItems
  import opened BwLeafChain
  import opened BwRecords
  import opened SmallSets
  import opened BwBuffer

  predicate Located(items: seq<Item>, r: Record)
    requires Sorted(items)
  {
    r.at == Locate(items, r.item.key)
  }

  /** The next record, at the current copy position, is merged by one pop. */
  lemma MergePop(items: seq<Item>, high: Bound, recs: seq<Record>)
    requires Sorted(items) && Records(recs) && recs != []
    requires Located(items, recs[0]) && Below(recs[0].item.key, high)
    ensures var r, end := recs[0], CopyEnd(items, high);
      var next := r.at.index + if r.at.present then 1 else 0;
      && next <= end
      && MergeItems(items[r.at.index..end], recs)
         == (if r.kind.Delete? then [] else [r.item]) + MergeItems(items[next..end], recs[1..])
  {
    var r, end := recs[0], CopyEnd(items, high);
    var p := r.at.index;
  }

  /** Records after one that replaced its base item sit strictly further right. */
  lemma IndexAdvances(items: seq<Item>, r: Record, s: Record)
    requires Sorted(items) && Located(items, r) && Located(items, s) && r.item.key < s.item.key
    ensures s.at.index >= r.at.index + if r.at.present then 1 else 0
  {
    var p, q := r.at.index, s.at.index;
    assert p > 0 ==> items[p - 1].key < r.item.key;
    assert q < |items| ==> s.item.key <= items[q].key;
  }

  /** What merging still has to append: base items from `i` on and the records in [start, e). */
  ghost function Remaining(items: seq<Item>, i: nat, high: Bound, recs: seq<Record>): seq<Item>
    requires Sorted(items) && Records(recs) && i <= CopyEnd(items, high)
  {
    MergeItems(items[i..CopyEnd(items, high)], recs)
  }

  ghost predicate Mergeable(items: seq<Item>, high: Bound, recs: seq<Record>)
    requires Sorted(items)
  {
    Records(recs) && forall i :: 0 <= i < |recs| ==> Located(items, recs[i]) && Below(recs[i].item.key, high)
  }

  lemma DropFirst(a: seq<Record>, b: seq<Record>)
    requires a != []
    ensures (a + b)[1..] == a[1..] + b
  {
  }

  /** What storing the front record's item leaves to be merged. */
  lemma PopEffect(items: seq<Item>, high: Bound, recs: seq<Record>, out: seq<Item>)
    requires Sorted(items) && recs != [] && Mergeable(items, high, recs) && recs[0].at.index <= CopyEnd(items, high)
    ensures Mergeable(items, high, recs[1..])
    ensures var r := recs[0];
      var next := r.at.index + if r.at.present then 1 else 0;
      && next <= CopyEnd(items, high) && (|recs| > 1 ==> next <= recs[1].at.index)
      && (if r.kind.Delete? then out else out + [r.item]) + Remaining(items, next, high, recs[1..])
         == out + Remaining(items, r.at.index, high, recs)
      && (!r.kind.Delete? ==> |Remaining(items, r.at.index, high, recs)| > 0)
  {
    MergePop(items, high, recs);
    if |recs| > 1 {
      IndexAdvances(items, recs[0], recs[1]);
    }
    var r := recs[0];
    var next := r.at.index + if r.at.present then 1 else 0;
    Regroup(out, if r.kind.Delete? then [] else [r.item], Remaining(items, next, high, recs[1..]));
  }

  /** Merges the front record: stores its item unless it deletes. */
  method PopOne(items: seq<Item>, high: Bound, sss: SortedSmallSet<Record>, out: ItemBuffer,
                ghost rest: seq<Record>, ghost tail: seq<Record>)
    returns (overwritten: bool)
    requires Sorted(items) && sss.Valid() && out.Valid() && sss.start < sss.end
    requires sss.Contents == rest + tail && rest != [] && Mergeable(items, high, rest)
    requires rest[0].at.index <= CopyEnd(items, high)
    requires |out.Contents| + |Remaining(items, rest[0].at.index, high, rest)| <= out.data.Length
    modifies sss`start, sss`Contents, out, out.data
    ensures sss.Valid() && out.Valid() && sss.start == old(sss.start) + 1 && sss.Contents == rest[1..] + tail
    ensures Mergeable(items, high, rest[1..])
    ensures var next := rest[0].at.index + if overwritten then 1 else 0;
      && next <= CopyEnd(items, high)
      && (|rest| > 1 ==> next <= rest[1].at.index)
      && out.Contents + Remaining(items, next, high, rest[1..])
         == old(out.Contents) + Remaining(items, rest[0].at.index, high, rest)
  {
    PopEffect(items, high, rest, out.Contents);
    overwritten := sss.GetFront().at.present;
    DropFirst(rest, tail);
    var front := sss.PopFront();
    if !front.kind.Delete? {
      out.PushBack(front.item);
    }
  }

  /** Pops every record at the front's index; tells whether one replaced the base item there. */
  method PopRun(items: seq<Item>, high: Bound, sss: SortedSmallSet<Record>, e: nat, out: ItemBuffer,
                ghost recs: seq<Record>, ghost tail: seq<Record>)
    returns (overwritten: bool, ghost rest: seq<Record>)
    requires Sorted(items) && sss.Valid() && out.Valid() && sss.start < e <= sss.end
    requires sss.Contents == recs + tail && |recs| == e - sss.start && Mergeable(items, high, recs)
    requires recs[0].at.index <= CopyEnd(items, high)
    requires |out.Contents| + |Remaining(items, recs[0].at.index, high, recs)| <= out.data.Length
    modifies sss`start, sss`Contents, out, out.data
    ensures sss.Valid() && out.Valid() && old(sss.start) < sss.start <= e
    ensures sss.Contents == rest + tail && |rest| == e - sss.start && Mergeable(items, high, rest)
    ensures var next := recs[0].at.index + if overwritten then 1 else 0;
      && next <= CopyEnd(items, high)
      && (rest != [] ==> next <= rest[0].at.index)
      && out.Contents + Remaining(items, next, high, rest)
         == old(out.Contents) + Remaining(items, recs[0].at.index, high, recs)
  {
    var current := sss.GetFront().at.index;
    overwritten, rest := false, recs;
    ghost var total := out.Contents + Remaining(items, current, high, rest);
    while true
      invariant sss.Valid() && out.Valid() && old(sss.start) <= sss.start < e
      invariant sss.Contents == rest + tail && |rest| == e - sss.start
      invariant Mergeable(items, high, rest) && rest[0].at.index == current && !overwritten
      invariant out.Contents + Remaining(items, current, high, rest) == total
      decreases e - sss.start
    {
      var present := PopOne(items, high, sss, out, rest, tail);
      overwritten := overwritten || present;
      rest := rest[1..];
      if sss.start == e || sss.GetFront().at.index != current {
        break;
      }
    }
  }

  /** One round of merging: the base run before the front record, then the records at its index. */
  method MergeRound(items: seq<Item>, high: Bound, sss: SortedSmallSet<Record>, e: nat, out: ItemBuffer, copyStart: nat,
                    ghost recs: seq<Record>, ghost tail: seq<Record>)
    returns (next: nat, ghost rest: seq<Record>)
    requires Sorted(items) && sss.Valid() && out.Valid() && sss.start < e <= sss.end
    requires sss.Contents == recs + tail && |recs| == e - sss.start && Mergeable(items, high, recs)
    requires copyStart <= CopyEnd(items, high) && copyStart <= recs[0].at.index
    requires |out.Contents| + |Remaining(items, copyStart, high, recs)| <= out.data.Length
    modifies sss`start, sss`Contents, out, out.data
    ensures sss.Valid() && out.Valid() && old(sss.start) < sss.start <= e
    ensures sss.Contents == rest + tail && |rest| == e - sss.start && Mergeable(items, high, rest)
    ensures next <= CopyEnd(items, high) && (rest != [] ==> next <= rest[0].at.index)
    ensures out.Contents + Remaining(items, next, high, rest) == old(out.Contents) + Remaining(items, copyStart, high, recs)
  {
    var current := sss.GetFront().at.index;
    CopyRun(items, copyStart, current, high, recs);
    Regroup(out.Contents, items[copyStart..current], Remaining(items, current, high, recs));
    out.PushRange(items, copyStart, current);
    var overwritten;
    overwritten, rest := PopRun(items, high, sss, e, out, recs, tail);
    next := if overwritten then current + 1 else current;
  }

  /** Merges all records before e; what is left of the base is returned by its start. */
  method MergeRecords(items: seq<Item>, high: Bound, sss: SortedSmallSet<Record>, e: nat, out: ItemBuffer,
                      ghost recs: seq<Record>, ghost tail: seq<Record>)
    returns (copyStart: nat)
    requires Sorted(items) && sss.Valid() && out.Valid() && sss.start <= e <= sss.end
    requires sss.Contents == recs + tail && |recs| == e - sss.start && Mergeable(items, high, recs)
    requires |out.Contents| + |Remaining(items, 0, high, recs)| <= out.data.Length
    modifies sss`start, sss`Contents, out, out.data
    ensures sss.Valid() && out.Valid() && sss.Contents == tail && copyStart <= CopyEnd(items, high)
    ensures out.Contents + items[copyStart..CopyEnd(items, high)] == old(out.Contents) + Remaining(items, 0, high, recs)
  {
    ghost var rest := recs;
    copyStart := 0;
    while sss.start != e
      invariant sss.Valid() && out.Valid() && sss.start <= e && copyStart <= CopyEnd(items, high)
      invariant sss.Contents == rest + tail && |rest| == e - sss.start && Mergeable(items, high, rest)
      invariant rest != [] ==> copyStart <= rest[0].at.index
      invariant out.Contents + Remaining(items, copyStart, high, rest) == old(out.Contents) + Remaining(items, 0, high, recs)
      decreases e - sss.start
    {
      copyStart, rest := MergeRound(items, high, sss, e, out, copyStart, rest, tail);
    }
    assert rest == [] && rest + tail == tail;
  }

  /** Merges the base array with the records before e, the base's rest included. */
  method MergePart(items: seq<Item>, high: Bound, sss: SortedSmallSet<Record>, e: nat, out: ItemBuffer,
                   ghost recs: seq<Record>, ghost tail: seq<Record>)
    requires Sorted(items) && sss.Valid() && out.Valid() && sss.start <= e <= sss.end
    requires sss.Contents == recs + tail && |recs| == e - sss.start && Mergeable(items, high, recs)
    requires |out.Contents| + |Remaining(items, 0, high, recs)| <= out.data.Length
    modifies sss`start, sss`Contents, out, out.data
    ensures sss.Valid() && out.Valid() && sss.Contents == tail && out.Contents == old(out.Contents) + Remaining(items, 0, high, recs)
  {
    var copyStart := MergeRecords(items, high, sss, e, out, recs, tail);
    out.PushRange(items, copyStart, CopyEnd(items, high));
  }

  /** The base case of collection: merges the base array with the gathered records. */
  method MergeBase(items: seq<Item>, high: Bound, sss: SortedSmallSet<Record>, out: ItemBuffer)
    requires Sorted(items) && sss.Valid() && out.Valid() && Records(sss.Contents)
    requires Mergeable(items, high, sss.Contents[..CountBelow(sss.Contents, high)])
    requires |out.Contents| + |Remaining(items, 0, high, sss.Contents[..CountBelow(sss.Contents, high)])| <= out.data.Length
    modifies sss`start, sss`Contents, out, out.data
    ensures sss.Valid() && out.Valid()
    ensures sss.Contents == old(Tail(sss.Contents, high))
    ensures out.Contents == old(out.Contents) + old(Remaining(items, 0, high, sss.Contents[..CountBelow(sss.Contents, high)]))
  {
    var e := ScanEnd(high, sss);
    ghost var recs := sss.Contents[..e - sss.start];
    ghost var tail := Tail(sss.Contents, high);
    assert sss.Contents == recs + tail;
    MergePart(items, high, sss, e, out, recs, tail);
  }

  lemma CopyRun(items: seq<Item>, i: nat, j: nat, high: Bound, recs: seq<Record>)
    requires Sorted(items) && Mergeable(items, high, recs) && recs != []
    requires i <= j == recs[0].at.index
    ensures j <= CopyEnd(items, high)
    ensures Remaining(items, i, high, recs) == items[i..j] + Remaining(items, j, high, recs)
  {
    MergePop(items, high, recs);
    var s := items[i..CopyEnd(items, high)];
    MergeRun(s, j - i, recs);
    assert s[..j - i] == items[i..j] && s[j - i..] == items[j..CopyEnd(items, high)];
  }

  /** The order of the gathered records: by key, then by index. */
  predicate RecordLess(r: Record, s: Record) {
    r.item.key < s.item.key || (r.item.key == s.item.key && r.at.index < s.at.index)
  }

  /** Gathered records carry positions in the branch of the chain that owns their key. */
  ghost predicate Placed(c: Chain, recs: seq<Record>, high: Bound)
    requires BasesSorted(c)
  {
    Records(recs) && forall i :: 0 <= i < |recs| ==> PlacedOne(c, recs[i], high)
  }

  ghost predicate PlacedOne(c: Chain, r: Record, high: Bound)
    requires BasesSorted(c)
  {
    BranchSorted(c, r.item.key);
    LowKey(c) <= r.item.key && (Below(r.item.key, high) ==> Located(BranchItems(c, r.item.key), r))
  }

  /** In the chain's range, the keys already seen are exactly those of the gathered records. */
  ghost predicate Tracked(low: Key, high: Bound, recs: seq<Record>, seen: set<Key>) {
    forall k :: low <= k && Below(k, high) ==> (k in seen <==> k in RecordMap(recs))
  }

  /** The map collection has to deliver: the chain under the gathered records, below the high key. */
  ghost function Goal(c: Chain, recs: seq<Record>, high: Bound): map<Key, Value> {
    Restrict(Overlay(Contents(c), RecordMap(recs)), high)
  }

  /** Where the sorted set puts a record of a new key. */
  lemma InsertPoint(recs: seq<Record>, r: Record)
    requires Records(recs) && r.item.key !in RecordMap(recs)
    ensures Separates(recs, FirstGreater(recs, r, RecordLess), r.item.key)
  {
    RecordMapAt(recs);
    var i := FirstGreater(recs, r, RecordLess);
    assert i < |recs| ==> RecordLess(r, recs[i]);
    forall j | 0 <= j < i ensures recs[j].item.key < r.item.key {
      assert !RecordLess(r, recs[j]);
    }
  }

  /** Passing a data record moves its effect from the chain to the gathered records. */
  lemma GatherGoal(c: Chain, recs: seq<Record>, high: Bound, i: nat)
    requires c.Data? && Records(recs)
    ensures c.rec.item.key in RecordMap(recs) ==> Goal(c, recs, high) == Goal(c.child, recs, high)
    ensures c.rec.item.key !in RecordMap(recs) && Separates(recs, i, c.rec.item.key) ==>
      Goal(c, recs, high) == Goal(c.child, Inserted(recs, i, c.rec), high)
  {
    if c.rec.item.key in RecordMap(recs) {
      OverlayKnown(Contents(c.child), c.rec, RecordMap(recs));
    } else if Separates(recs, i, c.rec.item.key) {
      InsertSorted(recs, i, c.rec);
      RecordMapInserted(recs, i, c.rec);
      OverlayNew(Contents(c.child), c.rec, RecordMap(recs));
    }
  }

  /** At a base the merge delivers the goal, in order. */
  lemma BaseGoal(c: Chain, recs: seq<Record>, high: Bound)
    requires c.Base? && Sorted(c.items) && Records(recs)
    ensures var t := Remaining(c.items, 0, high, recs[..CountBelow(recs, high)]);
      Sorted(t) && MapOf(t) == Goal(c, recs, high)
  {
    MergeBelow(c.items, recs, high);
    assert c.items[0..CopyEnd(c.items, high)] == c.items[..CopyEnd(c.items, high)];
  }

  /** The goal of a merge record is the goal of its left branch and then that of its right branch. */
  lemma MergeGoal(c: Chain, recs: seq<Record>)
    requires WellFormed(c) && c.Merge? && Records(recs)
    requires forall i :: 0 <= i < |recs| ==> LowKey(c) <= recs[i].item.key
    ensures var n := CountBelow(recs, HighBound(c.child));
      var l, r := Goal(c.child, recs, HighBound(c.child)), Goal(c.right, recs[n..], HighBound(c));
      && Goal(c, recs, HighBound(c)) == l + r
      && |Goal(c, recs, HighBound(c))| == |l| + |r|
      && (forall k :: k in l ==> k < c.mergeKey) && (forall k :: k in r ==> c.mergeKey <= k)
  {
    var b, h := HighBound(c.child), HighBound(c);
    var p := RecordMap(recs);
    RecordMapParts(recs, b);
    KeysInRange(c.child);
    KeysInRange(c.right);
    var l, r := Goal(c.child, recs, b), Goal(c.right, recs[CountBelow(recs, b)..], h);
    BranchGoals(Contents(c.child), Contents(c.right), p, b, h);
    UnionSize(l, r);
  }

  /** What gathering keeps true: positions, the seen keys, and the map still to deliver. */
  ghost predicate Gathered(c: Chain, low: Key, high: Bound, recs: seq<Record>, seen: set<Key>) {
    && WellFormed(c) && !c.Remove? && LowKey(c) == low
    && Placed(c, recs, high) && Tracked(low, high, recs, seen)
    && (HighBound(c) == high || (c.Base? && forall k :: low <= k && Below(k, high) ==> Below(k, HighBound(c))))
  }

  /** Only keys of the chain's range were added to the seen keys. */
  ghost predicate Grown(c: Chain, was: set<Key>, now: set<Key>) {
    was <= now && forall k :: k in now && k !in was ==> InRange(k, c)
  }

  lemma GrowOne(c: Chain, was: set<Key>, now: set<Key>, k: Key)
    requires Grown(c, was, now) && InRange(k, c)
    ensures Grown(c, was, now + {k})
  {
  }

  /** One record, seen for the first time, joins the gathered records. */
  lemma GatherRecord(c: Chain, low: Key, high: Bound, recs: seq<Record>, seen: set<Key>)
    requires Gathered(c, low, high, recs, seen) && c.Data? && c.rec.item.key !in seen
    ensures var i := FirstGreater(recs, c.rec, RecordLess);
      var s := Inserted(recs, i, c.rec);
      && Gathered(c.child, low, high, s, seen + {c.rec.item.key})
      && Goal(c.child, s, high) == Goal(c, recs, high) && Tail(s, high) == Tail(recs, high)
  {
    var r := c.rec;
    var i := FirstGreater(recs, r, RecordLess);
    assert HighBound(c) == high && r.item.key !in RecordMap(recs);
    InsertPoint(recs, r);
    InsertKeepsTail(recs, i, r, high);
    InsertSorted(recs, i, r);
    RecordMapInserted(recs, i, r);
    GatherGoal(c, recs, high, i);
    PlacedInserted(c, recs, i, high);
  }

  lemma PlacedInserted(c: Chain, recs: seq<Record>, i: nat, high: Bound)
    requires c.Data? && WellFormed(c) && HighBound(c) == high && Placed(c, recs, high) && i <= |recs| && Records(Inserted(recs, i, c.rec))
    ensures Placed(c.child, Inserted(recs, i, c.rec), high)
  {
    var s := Inserted(recs, i, c.rec);
    forall j | 0 <= j < |s| ensures PlacedOne(c.child, s[j], high) {
      if j != i {
        assert PlacedOne(c, recs[if j < i then j else j - 1], high);
      }
    }
  }

  /** A record of a key seen before is superseded: the gathered records already decide its key. */
  lemma SkipRecord(c: Chain, low: Key, high: Bound, recs: seq<Record>, seen: set<Key>)
    requires Gathered(c, low, high, recs, seen) && c.Data? && c.rec.item.key in seen
    ensures Gathered(c.child, low, high, recs, seen) && Goal(c.child, recs, high) == Goal(c, recs, high)
  {
    GatherGoal(c, recs, high, 0);
    forall j | 0 <= j < |recs| ensures PlacedOne(c.child, recs[j], high) {
      assert PlacedOne(c, recs[j], high);
    }
  }

  lemma SkipSplit(c: Chain, low: Key, high: Bound, recs: seq<Record>, seen: set<Key>)
    requires Gathered(c, low, high, recs, seen) && c.Split?
    ensures Gathered(c.child, low, high, recs, seen) && Goal(c.child, recs, high) == Goal(c, recs, high)
  {
    assert Goal(c.child, recs, high) == Goal(c, recs, high);
    forall j | 0 <= j < |recs| ensures PlacedOne(c.child, recs[j], high) {
      assert PlacedOne(c, recs[j], high);
    }
  }

  /** Adds a record to the gathered ones unless its key was seen. */
  method GatherOne(c: Chain, ghost low: Key, ghost high: Bound, sss: SortedSmallSet<Record>, seen: BloomFilter)
    requires sss.Valid() && seen.Valid() && sss.less == RecordLess && c.Data?
    requires Gathered(c, low, high, sss.Contents, seen.Contents)
    requires sss.end < sss.data.Length && seen.count < seen.data.Length
    modifies sss`end, sss`Contents, sss.data, seen, seen.data, seen.bits
    ensures sss.Valid() && seen.Valid()
    ensures Gathered(c.child, low, high, sss.Contents, seen.Contents)
    ensures Goal(c.child, sss.Contents, high) == old(Goal(c, sss.Contents, high))
    ensures Tail(sss.Contents, high) == old(Tail(sss.Contents, high))
    ensures sss.end <= old(sss.end) + 1 && seen.count <= old(seen.count) + 1
    ensures seen.Contents == old(seen.Contents) || seen.Contents == old(seen.Contents) + {c.rec.item.key}
  {
    var known := seen.Exists(c.rec.item.key);
    if known {
      SkipRecord(c, low, high, sss.Contents, seen.Contents);
    } else {
      GatherRecord(c, low, high, sss.Contents, seen.Contents);
      seen.Insert(c.rec.item.key);
      sss.InsertNoDedup(c.rec);
    }
  }

  /** Walks down to the base or merge record of the branch, gathering the records passed. */
  method GatherRecords(c: Chain, sss: SortedSmallSet<Record>, seen: BloomFilter) returns (node: Chain)
    requires sss.Valid() && seen.Valid() && sss.less == RecordLess
    requires Gathered(c, LowKey(c), HighBound(c), sss.Contents, seen.Contents)
    requires sss.end + Depth(c) <= sss.data.Length && seen.count + Depth(c) <= seen.data.Length
    modifies sss`end, sss`Contents, sss.data, seen, seen.data, seen.bits
    ensures sss.Valid() && seen.Valid()
    ensures (node.Base? || node.Merge?) && (node == c || node < c)
    ensures Gathered(node, LowKey(c), HighBound(c), sss.Contents, seen.Contents)
    ensures Goal(node, sss.Contents, HighBound(c)) == old(Goal(c, sss.Contents, HighBound(c)))
    ensures Tail(sss.Contents, HighBound(c)) == old(Tail(sss.Contents, HighBound(c)))
    ensures sss.end + Depth(node) <= old(sss.end) + Depth(c) && seen.count + Depth(node) <= old(seen.count) + Depth(c)
    ensures Grown(c, old(seen.Contents), seen.Contents)
  {
    ghost var low, high := LowKey(c), HighBound(c);
    node := c;
    while node.Data? || node.Split?
      invariant sss.Valid() && seen.Valid() && (node == c || node < c)
      invariant Gathered(node, low, high, sss.Contents, seen.Contents)
      invariant Goal(node, sss.Contents, high) == old(Goal(c, sss.Contents, HighBound(c)))
      invariant Tail(sss.Contents, high) == old(Tail(sss.Contents, HighBound(c)))
      invariant sss.end + Depth(node) <= old(sss.end) + Depth(c)
      invariant seen.count + Depth(node) <= old(seen.count) + Depth(c)
      invariant Grown(c, old(seen.Contents), seen.Contents)
      decreases node
    {
      if node.Split? {
        SkipSplit(node, low, high, sss.Contents, seen.Contents);
      } else {
        GrowOne(c, old(seen.Contents), seen.Contents, node.rec.item.key);
        GatherOne(node, low, high, sss, seen);
      }
      node := node.child;
    }
  }

  lemma ReadyToMerge(c: Chain, recs: seq<Record>, high: Bound)
    requires c.Base? && Sorted(c.items) && Placed(c, recs, high)
    ensures Mergeable(c.items, high, recs[..CountBelow(recs, high)])
  {
    CountBelowSplits(recs, high);
    forall i | 0 <= i < CountBelow(recs, high) ensures Located(c.items, recs[i]) {
      assert PlacedOne(c, recs[i], high);
    }
  }

  lemma ReadyForLeft(c: Chain, low: Key, high: Bound, recs: seq<Record>, seen: set<Key>)
    requires Gathered(c, low, high, recs, seen) && c.Merge?
    ensures Gathered(c.child, low, HighBound(c.child), recs, seen)
  {
    KeysInRange(c.right);
    forall i | 0 <= i < |recs| ensures PlacedOne(c.child, recs[i], HighBound(c.child)) {
      assert PlacedOne(c, recs[i], high);
    }
  }

  lemma TailTracked(c: Chain, low: Key, high: Bound, recs: seq<Record>, was: set<Key>, seen: set<Key>)
    requires Tracked(low, high, recs, was) && Grown(c, was, seen) && Records(recs)
    requires HighBound(c).id != INVALID_NODE_ID && low <= HighBound(c).key
    ensures Tracked(HighBound(c).key, high, Tail(recs, HighBound(c)), seen)
  {
    RecordMapParts(recs, HighBound(c));
  }

  /** Collecting the left branch leaves exactly what the right branch needs. */
  lemma ReadyForRight(c: Chain, low: Key, high: Bound, recs: seq<Record>, was: set<Key>, seen: set<Key>)
    requires Gathered(c, low, high, recs, was) && c.Merge? && Grown(c.child, was, seen)
    ensures Gathered(c.right, LowKey(c.right), high, Tail(recs, HighBound(c.child)), seen)
    ensures Tail(Tail(recs, HighBound(c.child)), high) == Tail(recs, high)
  {
    var b := HighBound(c.child);
    KeysInRange(c.child);
    KeysInRange(c.right);
    TailTail(recs, b, high);
    TailTracked(c.child, low, high, recs, was, seen);
    var rest := Tail(recs, b);
    forall i | 0 <= i < |rest| ensures PlacedOne(c.right, rest[i], high) {
      assert PlacedOne(c, recs[CountBelow(recs, b) + i], high);
    }
  }

  lemma GrownByBranches(c: Chain, s0: set<Key>, s1: set<Key>, s2: set<Key>)
    requires WellFormed(c) && c.Merge? && Grown(c.child, s0, s1) && Grown(c.right, s1, s2)
    ensures Grown(c, s0, s2)
  {
    KeysInRange(c.child);
    KeysInRange(c.right);
  }

  lemma GrownTrans(c: Chain, d: Chain, s0: set<Key>, s1: set<Key>, s2: set<Key>)
    requires LowKey(c) == LowKey(d) && HighBound(c) == HighBound(d) && Grown(c, s0, s1) && Grown(d, s1, s2)
    ensures Grown(c, s0, s2)
  {
  }

  lemma StartGathering(c: Chain)
    requires WellFormed(c) && !c.Remove?
    ensures Gathered(c, LowKey(c), HighBound(c), [], {})
    ensures Goal(c, [], HighBound(c)) == Contents(c)
  {
    assert Overlay(Contents(c), map[]) == Contents(c);
    assert Restrict(Contents(c), HighBound(c)) == Contents(c) by {
      KeysInRange(c);
    }
  }

  lemma FreshBase(c: Chain, t: seq<Item>)
    requires WellFormed(c) && Sorted(t) && MapOf(t) == Contents(c)
    ensures WellFormed(Base(LowKey(c), t, HighBound(c))) && |t| == ItemCount(c)
  {
    KeysInRange(c);
    ItemCountIsSize(c);
    MapOfAt(t);
  }

  /** Collection at a base node. */
  method CollectBase(c: Chain, low: Key, high: Bound, sss: SortedSmallSet<Record>, ghost seen: set<Key>, out: ItemBuffer)
    returns (ghost t: seq<Item>)
    requires sss.Valid() && out.Valid() && c.Base? && Gathered(c, low, high, sss.Contents, seen)
    requires |out.Contents| + |Goal(c, sss.Contents, high)| <= out.data.Length
    modifies sss`start, sss`Contents, out, out.data
    ensures sss.Valid() && out.Valid()
    ensures sss.Contents == old(Tail(sss.Contents, high))
    ensures out.Contents == old(out.Contents) + t && Sorted(t)
    ensures MapOf(t) == old(Goal(c, sss.Contents, high))
  {
    CountBelowSplits(sss.Contents, high);
    t := Remaining(c.items, 0, high, sss.Contents[..CountBelow(sss.Contents, high)]);
    BaseGoal(c, sss.Contents, high);
    MapOfSize(t);
    ReadyToMerge(c, sss.Contents, high);
    MergeBase(c.items, high, sss, out);
  }

  /** Collection at a merge record: the left branch and then the right one. */
  method CollectBranches(c: Chain, sss: SortedSmallSet<Record>, seen: BloomFilter, out: ItemBuffer)
    returns (ghost t: seq<Item>)
    requires sss.Valid() && seen.Valid() && out.Valid() && sss.less == RecordLess && c.Merge?
    requires Gathered(c, LowKey(c), HighBound(c), sss.Contents, seen.Contents)
    requires sss.end + Depth(c) <= sss.data.Length && seen.count + Depth(c) <= seen.data.Length
    requires |out.Contents| + |Goal(c, sss.Contents, HighBound(c))| <= out.data.Length
    modifies sss`start, sss`end, sss`Contents, sss.data, seen, seen.data, seen.bits, out, out.data
    ensures sss.Valid() && seen.Valid() && out.Valid()
    ensures sss.end <= old(sss.end) + Depth(c) && seen.count <= old(seen.count) + Depth(c)
    ensures sss.Contents == old(Tail(sss.Contents, HighBound(c)))
    ensures Grown(c, old(seen.Contents), seen.Contents)
    ensures out.Contents == old(out.Contents) + t && Sorted(t)
    ensures MapOf(t) == old(Goal(c, sss.Contents, HighBound(c)))
    decreases c, 0
  {
    ghost var recs, was := sss.Contents, seen.Contents;
    MergeGoal(c, recs);
    ReadyForLeft(c, LowKey(c), HighBound(c), recs, was);
    ghost var left := CollectAllValuesOnLeafRecursive(c.child, sss, seen, out);
    ghost var mid := seen.Contents;
    MapOfAt(left);
    ReadyForRight(c, LowKey(c), HighBound(c), recs, was, mid);
    ghost var right := CollectAllValuesOnLeafRecursive(c.right, sss, seen, out);
    t := left + right;
    Regroup(old(out.Contents), left, right);
    GrownByBranches(c, was, mid, seen.Contents);
    SortedConcat(left, right, c.mergeKey);
    MapOfConcat(left, right);
  }

  /** Collection at the node where gathering stops: a base or a merge record. */
  method CollectGathered(node: Chain, low: Key, high: Bound, sss: SortedSmallSet<Record>, seen: BloomFilter, out: ItemBuffer)
    returns (ghost t: seq<Item>)
    requires sss.Valid() && seen.Valid() && out.Valid() && sss.less == RecordLess && (node.Base? || node.Merge?)
    requires Gathered(node, low, high, sss.Contents, seen.Contents)
    requires sss.end + Depth(node) <= sss.data.Length && seen.count + Depth(node) <= seen.data.Length
    requires |out.Contents| + |Goal(node, sss.Contents, high)| <= out.data.Length
    modifies sss`start, sss`end, sss`Contents, sss.data, seen, seen.data, seen.bits, out, out.data
    ensures sss.Valid() && seen.Valid() && out.Valid()
    ensures sss.end <= old(sss.end) + Depth(node) && seen.count <= old(seen.count) + Depth(node)
    ensures sss.Contents == old(Tail(sss.Contents, high))
    ensures if node.Base? then seen.Contents == old(seen.Contents) else Grown(node, old(seen.Contents), seen.Contents)
    ensures out.Contents == old(out.Contents) + t && Sorted(t)
    ensures MapOf(t) == old(Goal(node, sss.Contents, high))
    decreases node, 1
  {
    if node.Base? {
      t := CollectBase(node, low, high, sss, seen.Contents, out);
    } else {
      t := CollectBranches(node, sss, seen, out);
    }
  }

  /** Collects the chain under the records gathered above it; consumes those below its high key. */
  method CollectAllValuesOnLeafRecursive(c: Chain, sss: SortedSmallSet<Record>, seen: BloomFilter, out: ItemBuffer)
    returns (ghost t: seq<Item>)
    requires sss.Valid() && seen.Valid() && out.Valid() && sss.less == RecordLess
    requires Gathered(c, LowKey(c), HighBound(c), sss.Contents, seen.Contents)
    requires sss.end + Depth(c) <= sss.data.Length && seen.count + Depth(c) <= seen.data.Length
    requires |out.Contents| + |Goal(c, sss.Contents, HighBound(c))| <= out.data.Length
    modifies sss`start, sss`end, sss`Contents, sss.data, seen, seen.data, seen.bits, out, out.data
    ensures sss.Valid() && seen.Valid() && out.Valid()
    ensures sss.end <= old(sss.end) + Depth(c) && seen.count <= old(seen.count) + Depth(c)
    ensures sss.Contents == old(Tail(sss.Contents, HighBound(c)))
    ensures Grown(c, old(seen.Contents), seen.Contents)
    ensures out.Contents == old(out.Contents) + t && Sorted(t)
    ensures MapOf(t) == old(Goal(c, sss.Contents, HighBound(c)))
    decreases c, 2
  {
    var node := GatherRecords(c, sss, seen);
    ghost var mid := seen.Contents;
    t := CollectGathered(node, LowKey(c), HighBound(c), sss, seen, out);
    if node.Merge? {
      GrownTrans(c, node, old(seen.Contents), mid, seen.Contents);
    }
  }

  /** The stack storage of a collection, sized from the chain's depth and item count. */
  method Prepare(capacity: nat, depth: nat, hash: int -> nat)
    returns (sss: SortedSmallSet<Record>, seen: BloomFilter, out: ItemBuffer)
    ensures fresh(sss) && fresh(sss.data) && fresh(seen) && fresh(seen.data) && fresh(seen.bits) && fresh(out) && fresh(out.data)
    ensures sss.Valid() && sss.Contents == [] && sss.end == 0 && sss.data.Length == depth && sss.less == RecordLess
    ensures seen.Valid() && seen.Contents == {} && seen.count == 0 && seen.data.Length == 2 * depth
    ensures out.Valid() && out.Contents == [] && out.data.Length == capacity
  {
    out := new ItemBuffer(capacity);
    var seenStorage := new int[2 * depth](_ => 0);
    seen := new BloomFilter(seenStorage, hash);
    var storage := new Record[depth](_ => Record(Insert, Item(0, 0), IndexPair(0, false)));
    sss := new SortedSmallSet<Record>(storage, RecordLess, (_, _) => false);
  }

  /**
   Consolidation. The collected node holds exactly the replayed map, in strictly
   ascending key order, and fills the buffer sized from the item count exactly.
   */
  method CollectAllValuesOnLeaf(snapshot: Chain, hash: int -> nat) returns (node: Chain)
    requires WellFormed(snapshot) && !snapshot.Remove?
    ensures node.Base? && WellFormed(node) && Contents(node) == Contents(snapshot)
    ensures node.low == LowKey(snapshot) && node.bound == HighBound(snapshot)
    ensures Sorted(node.items) && |node.items| == ItemCount(snapshot)
  {
    ItemCountIsSize(snapshot);
    StartGathering(snapshot);
    var sss, seen, out := Prepare(ItemCount(snapshot), Depth(snapshot), hash);
    ghost var t := CollectAllValuesOnLeafRecursive(snapshot, sss, seen, out);
    FreshBase(snapshot, t);
    assert [] + t == t;
    node := Base(LowKey(snapshot), out.Items(), HighBound(snapshot));
  }
}
