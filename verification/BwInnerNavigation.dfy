/**
 Routing through an inner delta chain.

 The walk answers from a record when the key falls into the range the record caches;
 otherwise it narrows the search of the base with the record's location.
 */
module BwInnerNavigation {
  import opened BwItems
  import opened BwInnerChain

  /** f is the largest separator not above k. */
  ghost predicate IsFloor(m: map<Key, NodeID>, k: Key, f: Key) {
    f in m && f <= k && forall s :: s in m && s <= k ==> s <= f
  }

  /** The chain sends k to this child. */
  ghost predicate Routes(c: Chain, k: Key, id: NodeID) {
    exists f :: IsFloor(Seps(c), k, f) && Seps(c)[f] == id
  }

  /** A chain routes a key to one child only. */
  lemma RoutesUnique(c: Chain, k: Key, id: NodeID, id': NodeID)
    requires Routes(c, k, id) && Routes(c, k, id')
    ensures id == id'
  {
  }

  predicate MergeFree(c: Chain) {
    match c
    case Base(_, _) => true
    case Merge(_, _, _, _) => false
    case _ => MergeFree(c.child)
  }

  lemma {:induction false} OneBranch(c: Chain, k: Key, l: Key)
    requires MergeFree(c)
    ensures BranchItems(c, k) == BranchItems(c, l)
  {
    match c
    case Base(_, _) =>
    case Merge(_, _, _, _) =>
    case _ => OneBranch(c.child, k, l);
  }

  /** The range an insert caches: inside it the new child answers, outside the chain below does. */
  lemma StepInsert(c: Chain, key: Key, id: NodeID)
    requires WellFormed(c) && c.Data? && c.rec.kind.Insert? && InRange(key, c)
    ensures c.rec.item.key <= key && Below(key, c.next) ==> Routes(c, key, c.rec.item.value)
    ensures !(c.rec.item.key <= key && Below(key, c.next)) && Routes(c.child, key, id) ==> Routes(c, key, id)
  {
    var k := c.rec.item.key;
    SepsInRange(c.child);
    if k <= key && Below(key, c.next) {
      assert IsFloor(Seps(c), key, k);
    } else if Routes(c.child, key, id) {
      var f :| IsFloor(Seps(c.child), key, f) && Seps(c.child)[f] == id;
      assert IsFloor(Seps(c), key, f);
    }
  }

  /** The range a delete caches: inside it the previous child answers, outside the chain below does. */
  lemma StepDelete(c: Chain, key: Key, id: NodeID)
    requires WellFormed(c) && c.Data? && c.rec.kind.Delete? && InRange(key, c)
    ensures c.prev.key <= key && Below(key, c.next) ==> Routes(c, key, c.prev.value)
    ensures !(c.prev.key <= key && Below(key, c.next)) && Routes(c.child, key, id) ==> Routes(c, key, id)
  {
    SepsInRange(c.child);
    if c.prev.key <= key && Below(key, c.next) {
      assert IsFloor(Seps(c), key, c.prev.key);
    } else if Routes(c.child, key, id) {
      var f :| IsFloor(Seps(c.child), key, f) && Seps(c.child)[f] == id;
      assert IsFloor(Seps(c), key, f);
    }
  }

  lemma StepSplit(c: Chain, key: Key, id: NodeID)
    requires WellFormed(c) && c.Split? && InRange(key, c) && Routes(c.child, key, id)
    ensures Routes(c, key, id)
  {
    var f :| IsFloor(Seps(c.child), key, f) && Seps(c.child)[f] == id;
    assert IsFloor(Seps(c), key, f);
  }

  lemma StepMerge(c: Chain, key: Key, id: NodeID)
    requires WellFormed(c) && c.Merge? && InRange(key, c)
    ensures InRange(key, if key >= c.mergeKey then c.right else c.child)
    ensures Routes(if key >= c.mergeKey then c.right else c.child, key, id) ==> Routes(c, key, id)
  {
    var d := if key >= c.mergeKey then c.right else c.child;
    SepsInRange(c.right);
    SepsInRange(c.child);
    if Routes(d, key, id) {
      var f :| IsFloor(Seps(d), key, f) && Seps(d)[f] == id;
      assert key >= c.mergeKey ==> c.mergeKey <= f;
      assert IsFloor(Seps(c), key, f);
    }
  }

  /** Items before `start` are not above the key, items from `end` on are above it. */
  ghost predicate Narrowed(items: seq<Item>, key: Key, start: int, end: int) {
    && 1 <= start <= end <= |items|
    && (forall i :: 0 <= i < start ==> items[i].key <= key)
    && (forall i :: end <= i < |items| ==> key < items[i].key)
  }

  /** The last item of a base not above the key answers for it. */
  lemma BaseRoutes(c: Chain, key: Key, i: nat)
    requires c.Base? && Sorted(c.items) && i < |c.items| && c.items[i].key <= key
    requires i + 1 < |c.items| ==> key < c.items[i + 1].key
    ensures Routes(c, key, c.items[i].value)
  {
    MapOfAt(c.items);
    forall s | s in MapOf(c.items) && s <= key ensures s <= c.items[i].key {
      var j :| 0 <= j < |c.items| && c.items[j].key == s;
    }
    assert IsFloor(Seps(c), key, c.items[i].key);
  }

  /** A narrowed search ends on the last item not above the key. */
  lemma NarrowedIndex(items: seq<Item>, key: Key, start: nat, end: nat, u: nat)
    requires Narrowed(items, key, start, end) && u <= end - start
    requires u > 0 ==> items[start..end][u - 1].key <= key
    requires u < end - start ==> key < items[start..end][u].key
    ensures items[start + u - 1].key <= key && (start + u < |items| ==> key < items[start + u].key)
  {
  }

  /** The size of the base the low key pointer leads to. */
  function LeftmostSize(c: Chain): nat {
    match c
    case Base(items, _) => |items|
    case _ => LeftmostSize(c.child)
  }

  lemma {:induction false} StartNarrowed(c: Chain, key: Key)
    requires WellFormed(c) && MergeFree(c) && InRange(key, c)
    ensures Narrowed(BranchItems(c, key), key, 1, LeftmostSize(c)) && BranchItems(c, key)[0] == Low(c)
  {
    match c
    case Base(_, _) =>
    case Merge(_, _, _, _) =>
    case _ => StartNarrowed(c.child, key);
  }

  /** Passing a record narrows the search on its side of the key. */
  lemma NarrowByRecord(c: Chain, key: Key, start: int, end: int)
    requires WellFormed(c) && c.Data? && MergeFree(c) && Narrowed(BranchItems(c, key), key, start, end)
    ensures var p, items := c.rec.at.index, BranchItems(c.child, key);
      if key >= c.rec.item.key then Narrowed(items, key, if start < p then p else start, end)
      else Narrowed(items, key, start, if p < end then p else end)
  {
    var k := c.rec.item.key;
    BranchSorted(c.child, k);
    OneBranch(c.child, key, k);
    var items := BranchItems(c.child, k);
    var p := c.rec.at.index;
    assert p > 0 ==> items[p - 1].key < k;
    assert p < |items| ==> k <= items[p].key;
    assert end < |items| ==> key < items[end].key;
    assert items[start - 1].key <= key;
  }

  /** Routes a key of the node's range to the child of the largest separator not above it. */
  method NavigateInnerNode(snapshot: Chain, key: Key) returns (id: NodeID)
    requires WellFormed(snapshot) && InRange(key, snapshot)
    ensures Routes(snapshot, key, id)
  {
    var node := snapshot;
    var start, end := 1, LeftmostSize(snapshot);
    if MergeFree(snapshot) {
      StartNarrowed(snapshot, key);
    }
    while !node.Base?
      invariant WellFormed(node) && InRange(key, node)
      invariant forall i :: Routes(node, key, i) ==> Routes(snapshot, key, i)
      invariant MergeFree(node) ==> Narrowed(BranchItems(node, key), key, start, end)
      decreases node
    {
      if node.Merge? {
        forall i { StepMerge(node, key, i); }
        node := if key >= node.mergeKey then node.right else node.child;
        start, end := 1, LeftmostSize(node);
        if MergeFree(node) {
          StartNarrowed(node, key);
        }
      } else if node.Split? {
        forall i | Routes(node.child, key, i) { StepSplit(node, key, i); }
        node := node.child;
      } else {
        var k := node.rec.item.key;
        if node.rec.kind.Insert? {
          forall i { StepInsert(node, key, i); }
          if key >= k && Below(key, node.next) {
            return node.rec.item.value;
          }
        } else {
          forall i { StepDelete(node, key, i); }
          if Low(node).value == node.prev.value || key >= node.prev.key {
            if Below(key, node.next) {
              return node.prev.value;
            }
          }
        }
        if MergeFree(node) {
          NarrowByRecord(node, key, start, end);
        }
        if key >= k {
          start := if start < node.rec.at.index then node.rec.at.index else start;
        } else {
          end := if node.rec.at.index < end then node.rec.at.index else end;
        }
        node := node.child;
      }
    }
    id := SearchBase(node, key, start, end);
  }

  /** The search of a base array within the bounds found on the way. */
  method SearchBase(c: Chain, key: Key, start: int, end: int) returns (id: NodeID)
    requires c.Base? && Sorted(c.items) && Narrowed(c.items, key, start, end)
    ensures Routes(c, key, id)
  {
    SortedSlice(c.items, start, end);
    var u := UpperBound(c.items[start..end], key);
    NarrowedIndex(c.items, key, start, end, u);
    BaseRoutes(c, key, start + u - 1);
    id := c.items[start + u - 1].value;
  }

  /**
   Looks for a separator above the low key, and finds the location a record for it must
   carry. Used by the completion of splits and merges before they post on the parent.
   */
  method FindSeparator(snapshot: Chain, key: Key) returns (found: Option<NodeID>, location: nat)
    requires WellFormed(snapshot) && InRange(key, snapshot) && Low(snapshot).key < key
    requires FirstsDiffer(snapshot, Low(snapshot).value)
    ensures found == Lookup(Seps(snapshot), key)
    ensures Sorted(BranchItems(snapshot, key)) && location == LowerBound(BranchItems(snapshot, key), key)
  {
    var low := Low(snapshot);
    var node := snapshot;
    BranchSorted(snapshot, key);
    while !node.Base?
      invariant WellFormed(node) && InRange(key, node) && FirstsDiffer(node, low.value)
      invariant Low(node).value == low.value ==> Low(node).key < key
      invariant Lookup(Seps(node), key) == Lookup(Seps(snapshot), key)
      invariant BranchItems(node, key) == BranchItems(snapshot, key)
      decreases node
    {
      if node.Merge? {
        LookupMerge(node, key);
        node := if key >= node.mergeKey then node.right else node.child;
      } else if node.Split? {
        node := node.child;
      } else {
        if node.rec.item.key == key {
          return if node.rec.kind.Insert? then Some(node.rec.item.value) else None, node.rec.at.index;
        }
        node := node.child;
      }
    }
    var first := if low.value == node.items[0].value then 1 else 0;
    LowerBoundFrom(node.items, key, first);
    location := first + LowerBound(node.items[first..], key);
    LookupBase(node.items, key);
    if location == |node.items| || node.items[location].key != key {
      return None, location;
    }
    return Some(node.items[location].value), location;
  }

  lemma LowerBoundFrom(items: seq<Item>, key: Key, first: nat)
    requires Sorted(items) && first <= |items| && forall i :: 0 <= i < first ==> items[i].key < key
    ensures Sorted(items[first..]) && first + LowerBound(items[first..], key) == LowerBound(items, key)
  {
    var p := first + LowerBound(items[first..], key);
    assert forall i :: first <= i < |items| ==> items[first..][i - first] == items[i];
    LowerBoundUnique(items, key, p);
  }

  lemma LookupMerge(c: Chain, key: Key)
    requires WellFormed(c) && c.Merge? && InRange(key, c)
    ensures InRange(key, if key >= c.mergeKey then c.right else c.child)
    ensures Lookup(Seps(if key >= c.mergeKey then c.right else c.child), key) == Lookup(Seps(c), key)
  {
    SepsInRange(c.right);
    SepsInRange(c.child);
    if key < c.mergeKey {
      assert key !in Seps(c.right);
    } else {
      assert key !in Seps(c.child);
    }
  }

  // ---------------------------------------------------------------- posting on the parent

  /** A posted insert takes over exactly the keys from its separator up to the next one. */
  lemma InsertedRoutes(c: Chain, key: Key, id: NodeID)
    requires WellFormed(c) && c.Data? && c.rec.kind.Insert? && InRange(key, c)
    requires exists i :: Routes(c.child, key, i)
    ensures Routes(c, key, id) <==>
      if c.rec.item.key <= key && Below(key, c.next) then id == c.rec.item.value else Routes(c.child, key, id)
  {
    var i :| Routes(c.child, key, i);
    StepInsert(c, key, i);
    StepInsert(c, key, id);
  }

  /** A posted delete hands the keys of its separator to the previous one, and no others. */
  lemma DeletedRoutes(c: Chain, key: Key, id: NodeID)
    requires WellFormed(c) && c.Data? && c.rec.kind.Delete? && InRange(key, c)
    requires exists i :: Routes(c.child, key, i)
    ensures Routes(c, key, id) <==>
      if c.prev.key <= key && Below(key, c.next) then id == c.prev.value else Routes(c.child, key, id)
  {
    var i :| Routes(c.child, key, i);
    StepDelete(c, key, i);
    StepDelete(c, key, id);
  }

  /** Completing a split: offers the new separator unless the parent has it. */
  method PostInnerInsert(parent: Chain, item: Item, next: Bound) returns (posted: Option<Chain>)
    requires WellFormed(parent) && FirstsDiffer(parent, Low(parent).value)
    requires InRange(item.key, parent) && Low(parent).key < item.key
    requires item.key in Seps(parent) || IsNext(parent, item.key, next)
    ensures posted.None? <==> item.key in Seps(parent)
    ensures posted.Some? ==> WellFormed(posted.value) && FirstsDiffer(posted.value, Low(parent).value)
    ensures posted.Some? ==> Seps(posted.value) == Seps(parent)[item.key := item.value] && posted.value.Data? && posted.value.child == parent
    ensures posted.Some? ==> posted.value.rec.kind.Insert? && posted.value.next == next
  {
    var found, location := FindSeparator(parent, item.key);
    posted := if found.Some? then None
              else Some(Data(Record(Insert, item, IndexPair(location, false)), item, next, parent));
  }

  /** Completing a merge: offers to delete the removed child's separator if the parent has it. */
  method PostInnerDelete(parent: Chain, item: Item, prev: Item, next: Bound) returns (posted: Option<Chain>)
    requires WellFormed(parent) && FirstsDiffer(parent, Low(parent).value)
    requires InRange(item.key, parent) && Low(parent).key < item.key
    requires item.key !in Seps(parent) || (IsPrev(parent, item.key, prev) && IsNext(parent, item.key, next))
    ensures posted.None? <==> item.key !in Seps(parent)
    ensures posted.Some? ==> WellFormed(posted.value) && FirstsDiffer(posted.value, Low(parent).value)
    ensures posted.Some? ==> Seps(posted.value) == Seps(parent) - {item.key} && posted.value.Data? && posted.value.child == parent
    ensures posted.Some? ==> posted.value.rec.kind.Delete? && posted.value.prev == prev && posted.value.next == next
  {
    var found, location := FindSeparator(parent, item.key);
    posted := if found.None? then None
              else Some(Data(Record(Delete, item, IndexPair(location, true)), prev, next, parent));
  }
}
