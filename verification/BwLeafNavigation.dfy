/**
 Navigating a leaf delta chain, and the records that insert, upsert and delete post.

 The loop walks from the newest record to the base and narrows the binary search of
 the base with the index every passed record carries.
 */
module BwLeafNavigation {
  import opened BwItems
  import opened BwLeafChain

  /** Items before `start` are below the key, items from `end` on are above it; -1 is the array's end. */
  ghost predicate Narrowed(items: seq<Item>, key: Key, start: int, end: int) {
    && 0 <= start <= |items| && -1 <= end <= |items|
    && (forall i :: 0 <= i < start ==> items[i].key < key)
    && (end != -1 ==> forall i :: end <= i < |items| ==> key < items[i].key)
  }

  /** A narrowed search finds the position the whole array gives. */
  lemma NarrowedLocate(items: seq<Item>, key: Key, start: int, end: int)
    requires Sorted(items) && Narrowed(items, key, start, end)
    ensures start <= (if end == -1 then |items| else end)
    ensures Sorted(items[start..if end == -1 then |items| else end])
    ensures start + LowerBound(items[start..if end == -1 then |items| else end], key) == LowerBound(items, key)
  {
    var e := if end == -1 then |items| else end;
    assert e < |items| ==> key < items[e].key;
    var s := items[start..e];
    var p := start + LowerBound(s, key);
    assert forall i :: start <= i < e ==> s[i - start] == items[i];
    assert forall i :: 0 <= i < p ==> items[i].key < key;
    assert forall i :: p <= i < |items| ==> key <= items[i].key;
    LowerBoundUnique(items, key, p);
  }

  /** No merge record remains below: every record shares one base array. */
  predicate MergeFree(c: Chain) {
    match c
    case Base(_, _, _) => true
    case Merge(_, _, _, _) => false
    case _ => MergeFree(c.child)
  }

  lemma {:induction false} OneBranch(c: Chain, k: Key, l: Key)
    requires MergeFree(c)
    ensures BranchItems(c, k) == BranchItems(c, l)
  {
    match c
    case Base(_, _, _) =>
    case Merge(_, _, _, _) =>
    case _ => OneBranch(c.child, k, l);
  }

  /** Passing a record of another key on the same base keeps the search narrowed. */
  lemma NarrowByRecord(c: Chain, key: Key, start: int, end: int)
    requires WellFormed(c) && c.Data? && MergeFree(c)
    requires Narrowed(BranchItems(c, key), key, start, end)
    ensures key > c.rec.item.key ==> Narrowed(BranchItems(c.child, key), key, c.rec.at.index, end)
    ensures key < c.rec.item.key ==> Narrowed(BranchItems(c.child, key), key, start, c.rec.at.index)
  {
    BranchSorted(c.child, c.rec.item.key);
    OneBranch(c.child, key, c.rec.item.key);
  }

  /** Descending into the branch a merge record picks keeps the key's value and base. */
  lemma StepMerge(c: Chain, key: Key)
    requires WellFormed(c) && c.Merge? && InRange(key, c)
    ensures var d := if key >= c.mergeKey then c.right else c.child;
      InRange(key, d) && Lookup(Contents(d), key) == Lookup(Contents(c), key) && BranchItems(d, key) == BranchItems(c, key)
  {
    KeysInRange(c.right);
    KeysInRange(c.child);
    if key < c.mergeKey {
      assert key !in Contents(c.right);
    } else {
      assert key !in Contents(c.child);
    }
  }

  /**
   Finds the key on a leaf snapshot. The index-narrowed walk agrees with replay, and
   it returns the position a new record for the key must carry.
   */
  method NavigateLeafNode(snapshot: Chain, key: Key) returns (found: Option<Item>, at: IndexPair)
    requires WellFormed(snapshot) && !snapshot.Remove? && InRange(key, snapshot)
    ensures found == (if key in Contents(snapshot) then Some(Item(key, Contents(snapshot)[key])) else None)
    ensures Sorted(BranchItems(snapshot, key)) && at == Locate(BranchItems(snapshot, key), key)
  {
    var node := snapshot;
    var start: int, end: int := 0, -1;
    BranchSorted(snapshot, key);
    while !node.Base?
      invariant WellFormed(node) && !node.Remove? && InRange(key, node)
      invariant Lookup(Contents(node), key) == Lookup(Contents(snapshot), key)
      invariant BranchItems(node, key) == BranchItems(snapshot, key)
      invariant MergeFree(node) ==> Narrowed(BranchItems(node, key), key, start, end)
      decreases node
    {
      if node.Merge? {
        StepMerge(node, key);
        node := if key >= node.mergeKey then node.right else node.child;
        start, end := 0, -1;
      } else if node.Split? {
        node := node.child;
      } else {
        var rec := node.rec;
        if rec.item.key == key {
          return if rec.kind.Delete? then None else Some(rec.item), rec.at;
        }
        if MergeFree(node) {
          NarrowByRecord(node, key, start, end);
        }
        if key > rec.item.key {
          start := rec.at.index;
        } else {
          end := rec.at.index;
        }
        node := node.child;
      }
    }
    found, at := SearchBase(node.items, key, start, end);
  }

  /** The search of a base array within the bounds found on the way. */
  method SearchBase(items: seq<Item>, key: Key, start: int, end: int) returns (found: Option<Item>, at: IndexPair)
    requires Sorted(items) && Narrowed(items, key, start, end)
    ensures found == (if key in MapOf(items) then Some(Item(key, MapOf(items)[key])) else None) && at == Locate(items, key)
  {
    var e := if end == -1 then |items| else end;
    NarrowedLocate(items, key, start, end);
    var p := start + LowerBound(items[start..e], key);
    LookupBase(items, key);
    if p != |items| && items[p].key == key {
      return Some(items[p]), IndexPair(p, true);
    }
    return None, IndexPair(p, false);
  }

  // ---------------------------------------------------------------- posting records

  /** What one round of Insert offers to the mapping table; None when the key is there. */
  method PostInsert(snapshot: Chain, key: Key, value: Value) returns (posted: Option<Chain>)
    requires WellFormed(snapshot) && !snapshot.Remove? && InRange(key, snapshot)
    ensures posted.None? <==> key in Contents(snapshot)
    ensures posted.Some? ==> WellFormed(posted.value) && Contents(posted.value) == Contents(snapshot)[key := value]
    ensures posted.Some? ==> posted.value.Data? && posted.value.child == snapshot && posted.value.rec.item.key == key
  {
    var found, at := NavigateLeafNode(snapshot, key);
    posted := if found.Some? then None else Some(Data(Record(Insert, Item(key, value), at), snapshot));
  }

  /** What one round of Upsert offers: an update of a present key, an insert of an absent one. */
  method PostUpsert(snapshot: Chain, key: Key, value: Value) returns (posted: Chain, newKey: bool)
    requires WellFormed(snapshot) && !snapshot.Remove? && InRange(key, snapshot)
    ensures newKey <==> key !in Contents(snapshot)
    ensures WellFormed(posted) && Contents(posted) == Contents(snapshot)[key := value]
    ensures posted.Data? && posted.child == snapshot && posted.rec.item.key == key
  {
    var found, at := NavigateLeafNode(snapshot, key);
    newKey := found.None?;
    posted := Data(Record(if newKey then Insert else Update, Item(key, value), at), snapshot);
  }

  /** What one round of Delete offers; None when the key is not there. */
  method PostDelete(snapshot: Chain, key: Key) returns (posted: Option<Chain>)
    requires WellFormed(snapshot) && !snapshot.Remove? && InRange(key, snapshot)
    ensures posted.None? <==> key !in Contents(snapshot)
    ensures posted.Some? ==> WellFormed(posted.value) && Contents(posted.value) == Contents(snapshot) - {key}
    ensures posted.Some? ==> posted.value.Data? && posted.value.child == snapshot && posted.value.rec.item.key == key
  {
    var found, at := NavigateLeafNode(snapshot, key);
    posted := if found.None? then None else Some(Data(Record(Delete, found.value, at), snapshot));
  }
}
