/**
 Finding the left sibling of a removed child: a descending merge of records and base
 that stops at the second live separator. A chain with a merge record is consolidated
 first, as the program does.
 */
module BwLeftSibling {
  import opened BwItems
  import opened BwRecords
  import opened SmallSets
  import opened BwInnerChain
  import opened BwInnerConsolidation
  import Nav = BwInnerNavigation

  predicate KeyGreater(r: Record, s: Record) {
    s.item.key < r.item.key
  }

  /** Records in strictly descending key order, none above the given key. */
  predicate Descending(p: seq<Record>, top: Key) {
    && (forall i, j :: 0 <= i < j < |p| ==> p[j].item.key < p[i].item.key)
    && (forall i :: 0 <= i < |p| ==> p[i].item.key <= top)
  }

  /** The separators up to and including the key. */
  ghost function UpTo(m: map<Key, NodeID>, key: Key): map<Key, NodeID> {
    map k | k in m && k <= key :: m[k]
  }

  /** What base and gathered records still say about the separators up to the key. */
  ghost function Live(c: Chain, recs: seq<Record>, key: Key): map<Key, NodeID> {
    UpTo(Overlay(Seps(c), RecordMap(recs)), key)
  }

  /** `id` is the child of the largest separator below the key. */
  ghost predicate IsLeftSibling(c: Chain, key: Key, id: NodeID) {
    exists p :: IsPredecessor(Seps(c), key, p) && Seps(c)[p] == id
  }

  ghost predicate IsPredecessor(m: map<Key, NodeID>, key: Key, p: Key) {
    p in m && p < key && forall s :: s in m && s < key ==> s <= p
  }

  // ---------------------------------------------------------------- gathering

  lemma DescendingPoint(recs: seq<Record>, r: Record, top: Key)
    requires Descending(recs, top)
    ensures var i := FirstNotLess(recs, r, KeyGreater);
      && (forall j :: 0 <= j < i ==> r.item.key < recs[j].item.key)
      && (forall j :: i <= j < |recs| ==> recs[j].item.key <= r.item.key)
  {
    var i := FirstNotLess(recs, r, KeyGreater);
    assert i < |recs| ==> !KeyGreater(recs[i], r);
    forall j | 0 <= j < i ensures r.item.key < recs[j].item.key {
      assert KeyGreater(recs[j], r);
    }
  }

  lemma InsertDescending(recs: seq<Record>, r: Record, top: Key)
    requires Descending(recs, top) && r.item.key <= top
    ensures var s := InsertedOnce(recs, r, KeyGreater, KeyEqual);
      && Descending(s, top)
      && RecordMap(s) == if r.item.key in RecordMap(recs) then RecordMap(recs) else RecordMap(recs)[r.item.key := r]
  {
    DescendingPoint(recs, r, top);
    RecordMapAt(recs);
    var i := FirstNotLess(recs, r, KeyGreater);
    if !(i < |recs| && KeyEqual(recs[i], r)) {
      InsertedDescending(recs, i, r, top);
      RecordMapInserted(recs, i, r);
    }
  }

  lemma InsertedDescending(recs: seq<Record>, i: nat, r: Record, top: Key)
    requires Descending(recs, top) && r.item.key <= top && i <= |recs|
    requires forall j :: 0 <= j < i ==> r.item.key < recs[j].item.key
    requires forall j :: i <= j < |recs| ==> recs[j].item.key < r.item.key
    ensures Descending(Inserted(recs, i, r), top)
  {
    var s := Inserted(recs, i, r);
    forall a, b | 0 <= a < b < |s| ensures s[b].item.key < s[a].item.key {
      assert s[a] == if a < i then recs[a] else if a == i then r else recs[a - 1];
      assert s[b] == if b < i then recs[b] else if b == i then r else recs[b - 1];
    }
  }

  /** Passing a record keeps the live separators; records above the key are not gathered. */
  lemma GatherLive(c: Chain, recs: seq<Record>, key: Key)
    requires c.Data? && Descending(recs, key)
    ensures var s := if c.rec.item.key <= key then InsertedOnce(recs, c.rec, KeyGreater, KeyEqual) else recs;
      Descending(s, key) && Live(c.child, s, key) == Live(c, recs, key)
  {
    var r := c.rec;
    if r.item.key <= key {
      InsertDescending(recs, r, key);
      if r.item.key in RecordMap(recs) {
        OverlayKnown(Seps(c.child), r, RecordMap(recs));
      } else {
        OverlayNew(Seps(c.child), r, RecordMap(recs));
      }
    } else {
      RecordMapAt(recs);
      SkipAbove(Seps(c.child), r, RecordMap(recs), key);
    }
  }

  lemma SkipAbove(m: map<Key, NodeID>, r: Record, p: map<Key, Record>, key: Key)
    requires r.item.key > key
    ensures UpTo(Overlay(Applied(m, r), p), key) == UpTo(Overlay(m, p), key)
  {
  }

  lemma PassSplit(c: Chain, recs: seq<Record>, key: Key)
    requires WellFormed(c) && c.Split? && Below(key, c.split)
    ensures Live(c.child, recs, key) == Live(c, recs, key)
  {
  }

  // ---------------------------------------------------------------- descending merge

  /** The largest key of base and records: taking it off takes it off the overlay. */
  lemma TakeTop(m: map<Key, NodeID>, p: map<Key, Record>, k: Key)
    ensures Overlay(m - {k}, p - {k}) == Overlay(m, p) - {k}
  {
  }

  /** The separators still to be enumerated: those of `all` below the bound. */
  ghost predicate Enumerating(all: map<Key, NodeID>, bound: Key, m: map<Key, NodeID>, p: map<Key, Record>) {
    Overlay(m, p) == map k | k in all && k < bound :: all[k]
  }

  lemma {:induction false} PopItem(items: seq<Item>)
    requires Sorted(items) && items != []
    ensures var n := |items| - 1; MapOf(items[..n]) == MapOf(items) - {items[n].key}
  {
    var n := |items| - 1;
    if items[n].key in MapOf(items[..n]) {
      var i := MapOfFrom(items[..n], items[n].key);
    }
  }

  lemma PopRecord(recs: seq<Record>, top: Key)
    requires Descending(recs, top) && recs != []
    ensures RecordMap(recs[1..]) == RecordMap(recs) - {recs[0].item.key}
  {
    if recs[0].item.key in RecordMap(recs[1..]) {
      var i := RecordMapFrom(recs[1..], recs[0].item.key);
    }
  }

  /** Taking the top key off either enumerates it or skips a deleted separator. */
  lemma TakeStep(all: map<Key, NodeID>, bound: Key, m: map<Key, NodeID>, p: map<Key, Record>, k: Key)
    requires Enumerating(all, bound, m, p)
    requires forall s :: s in m || s in p ==> s <= k
    ensures k in Overlay(m, p) ==>
      && k in all && k < bound && all[k] == Overlay(m, p)[k] && Enumerating(all, k, m - {k}, p - {k})
      && forall s :: s in all && s < bound ==> s <= k
    ensures k !in Overlay(m, p) ==> Enumerating(all, bound, m - {k}, p - {k})
  {
    TakeTop(m, p, k);
    var o := Overlay(m, p);
    assert forall s :: s in o <==> s in all && s < bound;
    assert forall s :: s in o ==> s <= k;
  }

  lemma MaxItem(items: seq<Item>)
    requires Sorted(items) && items != []
    ensures forall s :: s in MapOf(items) ==> s <= items[|items| - 1].key
  {
    forall s | s in MapOf(items) ensures s <= items[|items| - 1].key { var i := MapOfFrom(items, s); }
  }

  lemma MaxRecord(recs: seq<Record>, top: Key)
    requires Descending(recs, top) && recs != []
    ensures forall s :: s in RecordMap(recs) ==> s <= recs[0].item.key
  {
    forall s | s in RecordMap(recs) ensures s <= recs[0].item.key { var i := RecordMapFrom(recs, s); }
  }

  /** The base item on top: no record meets it. */
  lemma TopItem(items: seq<Item>, recs: seq<Record>, top: Key)
    requires Sorted(items) && items != [] && Descending(recs, top)
    requires recs != [] ==> recs[0].item.key < items[|items| - 1].key
    ensures var n, m, p := |items| - 1, MapOf(items), RecordMap(recs);
      var k := items[n].key;
      && (forall s :: s in m || s in p ==> s <= k)
      && k in Overlay(m, p) && Overlay(m, p)[k] == items[n].value
      && MapOf(items[..n]) == m - {k} && p == p - {k}
  {
    MaxItem(items);
    if recs != [] {
      MaxRecord(recs, top);
    }
    PopItem(items);
  }

  /** The record on top: its key is the base's top key, or above it. The record decides. */
  lemma TopRecord(items: seq<Item>, recs: seq<Record>, top: Key)
    requires Sorted(items) && items != [] && Descending(recs, top) && recs != []
    requires items[|items| - 1].key <= recs[0].item.key
    ensures var m, p, k := MapOf(items), RecordMap(recs), recs[0].item.key;
      && (forall s :: s in m || s in p ==> s <= k)
      && (k in Overlay(m, p) <==> !recs[0].kind.Delete?) && (k in Overlay(m, p) ==> Overlay(m, p)[k] == recs[0].item.value)
      && RecordMap(recs[1..]) == p - {k}
      && (items[|items| - 1].key < k ==> m == m - {k})
  {
    MaxItem(items);
    MaxRecord(recs, top);
    PopRecord(recs, top);
  }

  predicate AboveFirst(items: seq<Item>, recs: seq<Record>) {
    items != [] && forall i :: 0 <= i < |recs| ==> items[0].key < recs[i].item.key
  }

  /** One step of the descending merge; `n` base items are left. */
  method TakeOne(items: seq<Item>, n: nat, sss: SortedSmallSet<Record>,
                 ghost all: map<Key, NodeID>, ghost bound: Key, ghost top: Key)
    returns (n': nat, found: Option<NodeID>, ghost k: Key)
    requires Sorted(items) && 1 <= n <= |items| && sss.Valid()
    requires Descending(sss.Contents, top) && AboveFirst(items, sss.Contents)
    requires Enumerating(all, bound, MapOf(items[..n]), RecordMap(sss.Contents))
    modifies sss`start, sss`Contents
    ensures sss.Valid() && n' <= n && n' + |sss.Contents| < n + |old(sss.Contents)|
    ensures Descending(sss.Contents, top) && AboveFirst(items, sss.Contents)
    ensures Enumerating(all, if found.Some? then k else bound, MapOf(items[..n']), RecordMap(sss.Contents))
    ensures found.Some? ==> k in all && k < bound && all[k] == found.value && forall s :: s in all && s < bound ==> s <= k
  {
    var x := items[n - 1];
    ghost var base := items[..n];
    SortedSlice(items, 0, n);
    assert items[0..n] == base && base[..n - 1] == items[..n - 1];
    if sss.start < sss.end && (n == 1 || x.key <= sss.GetFront().item.key) {
      k := sss.GetFront().item.key;
      n' := if x.key == sss.GetFront().item.key then n - 1 else n;
      TopRecord(base, sss.Contents, top);
      if n' < n {
        PopItem(base);
      }
      TakeStep(all, bound, MapOf(base), RecordMap(sss.Contents), k);
      var r := sss.PopFront();
      found := if r.kind.Delete? then None else Some(r.item.value);
    } else {
      k := x.key;
      TopItem(base, sss.Contents, top);
      TakeStep(all, bound, MapOf(base), RecordMap(sss.Contents), k);
      n' := n - 1;
      found := Some(x.value);
    }
  }

  /** Enumerates live separators downwards; the second one is the left sibling's. */
  method SecondFromTop(items: seq<Item>, count: nat, sss: SortedSmallSet<Record>, key: Key, ghost all: map<Key, NodeID>)
    returns (id: NodeID, ghost p: Key)
    requires Sorted(items) && 1 <= count <= |items| && sss.Valid()
    requires Descending(sss.Contents, key) && AboveFirst(items, sss.Contents)
    requires Enumerating(all, key + 1, MapOf(items[..count]), RecordMap(sss.Contents))
    requires key in all && items[0].key in all && items[0].key < key
    modifies sss`start, sss`Contents
    ensures IsPredecessor(all, key, p) && all[p] == id
  {
    var n: nat, counter: nat := count, 0;
    ghost var bound := key + 1;
    id, p := 0, key;
    while counter < 2
      invariant counter <= 2 && n <= count && sss.Valid()
      invariant Descending(sss.Contents, key) && AboveFirst(items, sss.Contents)
      invariant Enumerating(all, bound, MapOf(items[..n]), RecordMap(sss.Contents))
      invariant bound == if counter == 0 then key + 1 else if counter == 1 then key else p
      invariant counter == 2 ==> IsPredecessor(all, key, p) && all[p] == id
      decreases n + |sss.Contents|
    {
      SomeLeft(items, n, sss.Contents, all, bound, key);
      var found;
      ghost var k;
      n, found, k := TakeOne(items, n, sss, all, bound, key);
      if found.Some? {
        id, p, bound := found.value, k, k;
        counter := counter + 1;
      }
    }
  }

  /** While the low separator is to come, the base is not used up. */
  lemma SomeLeft(items: seq<Item>, n: nat, recs: seq<Record>, all: map<Key, NodeID>, bound: Key, top: Key)
    requires n <= |items| && AboveFirst(items, recs) && Descending(recs, top)
    requires Enumerating(all, bound, MapOf(items[..n]), RecordMap(recs)) && items[0].key in all && items[0].key < bound
    ensures n > 0
  {
    RecordMapAt(recs);
    assert items[0].key in Overlay(MapOf(items[..n]), RecordMap(recs));
  }

  /** Where the enumeration starts on a base. */
  lemma StartEnumerating(c: Chain, recs: seq<Record>, key: Key)
    requires c.Base? && Sorted(c.items) && Descending(recs, key)
    ensures Enumerating(Live(c, recs, key), key + 1, MapOf(c.items[..UpperBound(c.items, key)]), RecordMap(recs))
  {
    MapOfPrefix(c.items, Bound(key + 1, 1));
    forall k | k in RecordMap(recs) ensures k <= key { var i := RecordMapFrom(recs, k); }
    EnumerateAll(MapOf(c.items), RecordMap(recs), key);
  }

  lemma EnumerateAll(m: map<Key, NodeID>, p: map<Key, Record>, key: Key)
    requires forall k :: k in p ==> k <= key
    ensures Enumerating(UpTo(Overlay(m, p), key), key + 1, Restrict(m, Bound(key + 1, 1)), p)
  {
  }

  /** Gathers one record, unless it is above the key. */
  method GatherOne(c: Chain, key: Key, ghost low: Item, sss: SortedSmallSet<Record>)
    requires c.Data? && sss.Valid() && sss.less == KeyGreater && sss.eq == KeyEqual && sss.end < sss.data.Length
    requires Descending(sss.Contents, key) && AboveFirst([low], sss.Contents) && low.key < c.rec.item.key
    modifies sss`end, sss`Contents, sss.data
    ensures sss.Valid() && sss.end <= old(sss.end) + 1 && Descending(sss.Contents, key) && AboveFirst([low], sss.Contents)
    ensures Live(c.child, sss.Contents, key) == old(Live(c, sss.Contents, key))
  {
    GatherLive(c, sss.Contents, key);
    if c.rec.item.key <= key {
      StillAbove(sss.Contents, c.rec, low);
      sss.Insert(c.rec);
    }
  }

  /** Walks to the base, gathering the records up to the key; a merge record forces consolidation. */
  method GatherUpTo(snapshot: Chain, key: Key, sss: SortedSmallSet<Record>) returns (node: Chain)
    requires WellFormed(snapshot) && FirstsDiffer(snapshot, Low(snapshot).value) && InRange(key, snapshot)
    requires sss.Valid() && sss.Contents == [] && sss.less == KeyGreater && sss.eq == KeyEqual
    requires sss.end + Depth(snapshot) <= sss.data.Length
    modifies sss`end, sss`Contents, sss.data
    ensures sss.Valid() && node.Base? && WellFormed(node) && Low(node) == Low(snapshot)
    ensures Descending(sss.Contents, key) && AboveFirst(node.items, sss.Contents)
    ensures Live(node, sss.Contents, key) == UpTo(Seps(snapshot), key)
  {
    node := snapshot;
    assert Overlay(Seps(snapshot), map[]) == Seps(snapshot);
    while !node.Base?
      invariant sss.Valid() && sss.end + Depth(node) <= sss.data.Length
      invariant WellFormed(node) && InRange(key, node) && Low(node) == Low(snapshot)
      invariant Descending(sss.Contents, key) && AboveFirst([Low(snapshot)], sss.Contents)
      invariant Live(node, sss.Contents, key) == UpTo(Seps(snapshot), key)
      decreases if node.Base? then 0 else 1, node
    {
      if node.Merge? {
        node := CollectAllSepsOnInner(snapshot);
        sss.Invalidate();
        assert Overlay(Seps(node), map[]) == Seps(node);
      } else if node.Split? {
        PassSplit(node, sss.Contents, key);
        node := node.child;
      } else {
        GatherOne(node, key, Low(snapshot), sss);
        node := node.child;
      }
    }
  }

  lemma StillAbove(recs: seq<Record>, r: Record, low: Item)
    requires AboveFirst([low], recs) && low.key < r.item.key
    ensures AboveFirst([low], InsertedOnce(recs, r, KeyGreater, KeyEqual))
  {
  }

  /** An empty set that gathers records in descending order. */
  method NewSet(capacity: nat) returns (sss: SortedSmallSet<Record>)
    ensures fresh(sss) && fresh(sss.data) && sss.Valid() && sss.Contents == [] && sss.end == 0 && sss.data.Length == capacity
    ensures sss.less == KeyGreater && sss.eq == KeyEqual
  {
    var storage := new Record[capacity](_ => Record(Insert, Item(0, 0), IndexPair(0, false)));
    sss := new SortedSmallSet<Record>(storage, KeyGreater, KeyEqual);
  }

  /** The search for the key may start behind the first item. */
  lemma CountFromOne(items: seq<Item>, key: Key)
    requires items != [] && Sorted(items) && items[0].key <= key
    ensures Sorted(items[1..]) && 1 + UpperBound(items[1..], key) == UpperBound(items, key)
  {
    Nav.LowerBoundFrom(items, key + 1, 1);
  }

  lemma PredecessorUpTo(m: map<Key, NodeID>, key: Key, p: Key)
    requires IsPredecessor(UpTo(m, key), key, p)
    ensures IsPredecessor(m, key, p) && m[p] == UpTo(m, key)[p]
  {
    assert forall s :: s in m && s < key ==> s in UpTo(m, key);
  }

  /**
   The left sibling of the child of a non-leftmost separator: the child of the
   separator's predecessor in the replayed map.
   */
  method FindLeftSibling(snapshot: Chain, key: Key) returns (id: NodeID)
    requires WellFormed(snapshot) && FirstsDiffer(snapshot, Low(snapshot).value)
    requires InRange(key, snapshot) && key in Seps(snapshot) && Low(snapshot).key < key
    ensures IsLeftSibling(snapshot, key, id)
  {
    var sss := NewSet(Depth(snapshot));
    var node := GatherUpTo(snapshot, key, sss);
    ghost var all := UpTo(Seps(snapshot), key);
    SepsInRange(snapshot);
    CountFromOne(node.items, key);
    var count := 1 + UpperBound(node.items[1..], key);
    StartEnumerating(node, sss.Contents, key);
    ghost var p;
    id, p := SecondFromTop(node.items, count, sss, key, all);
    PredecessorUpTo(Seps(snapshot), key, p);
  }
}
