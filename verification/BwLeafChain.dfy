/**
 The leaf delta chains of the Bw-tree.

 A published chain is immutable, so it is a value: insert, delete, update, split,
 remove and merge records stacked over a sorted base array. `Contents` replays the
 log and is the meaning of a chain. The program never replays; it navigates and
 consolidates with cached indices (see BwLeafNavigation and BwLeafConsolidation).

 The metadata every record caches (low key, high key pair, depth, item count) is
 computed by each constructor from its children, so it is a function of the chain.
 */
module BwLeafChain {
  import opened BwItems

  datatype Chain =
    | Base(low: Key, items: seq<Item>, bound: Bound)
    | Data(rec: Record, child: Chain)
    | Split(split: Bound, siblingCount: nat, child: Chain)
    | Remove(removed: NodeID, child: Chain)
    | Merge(mergeKey: Key, deleted: NodeID, right: Chain, child: Chain)

  function LowKey(c: Chain): Key {
    match c
    case Base(low, _, _) => low
    case _ => LowKey(c.child)
  }

  function HighBound(c: Chain): Bound {
    match c
    case Base(_, _, b) => b
    case Split(s, _, _) => s
    case Merge(_, _, r, _) => HighBound(r)
    case _ => HighBound(c.child)
  }

  function ItemCount(c: Chain): int {
    match c
    case Base(_, items, _) => |items|
    case Data(r, d) => ItemCount(d) + (match r.kind case Insert => 1 case Delete => -1 case Update => 0)
    case Split(_, n, d) => ItemCount(d) - n
    case Merge(_, _, r, d) => ItemCount(d) + ItemCount(r)
    case _ => ItemCount(c.child)
  }

  function Depth(c: Chain): nat {
    match c
    case Base(_, _, _) => 0
    case Merge(_, _, r, d) => Depth(d) + Depth(r)
    case Data(_, d) => Depth(d) + 1
    case _ => Depth(c.child)
  }

  predicate InRange(k: Key, c: Chain) {
    LowKey(c) <= k && Below(k, HighBound(c))
  }

  /** Replaying the log: the map a chain stands for. */
  function Contents(c: Chain): map<Key, Value>
  {
    match c
    case Base(_, items, _) => MapOf(items)
    case Data(r, d) => Applied(Contents(d), r)
    case Split(s, _, d) => Restrict(Contents(d), s)
    case Remove(_, d) => Contents(d)
    case Merge(_, _, r, d) => Contents(d) + Contents(r)
  }

  predicate BasesSorted(c: Chain) {
    match c
    case Base(_, items, _) => Sorted(items)
    case Merge(_, _, r, d) => BasesSorted(r) && BasesSorted(d)
    case _ => BasesSorted(c.child)
  }

  /** The base array that holds the branch of the chain responsible for k. */
  function BranchItems(c: Chain, k: Key): seq<Item> {
    match c
    case Base(_, items, _) => items
    case Merge(m, _, r, d) => if k >= m then BranchItems(r, k) else BranchItems(d, k)
    case _ => BranchItems(c.child, k)
  }

  lemma {:induction false} BranchSorted(c: Chain, k: Key)
    requires BasesSorted(c)
    ensures Sorted(BranchItems(c, k))
    decreases c
  {
    match c
    case Base(_, _, _) =>
    case Merge(_, _, r, d) => BranchSorted(r, k); BranchSorted(d, k);
    case _ => BranchSorted(c.child, k);
  }

  /**
   What the posting code establishes: data records lie inside the node's range, an
   insert meets an absent key, a delete or update a present one, each carries the
   position of its key in its branch's base; splits and removes are posted on a base
   node only; a merge glues adjacent ranges.
   */
  predicate WellFormed(c: Chain)
    ensures WellFormed(c) ==> BasesSorted(c)
  {
    match c
    case Base(low, items, b) =>
      Sorted(items) && (b.id != INVALID_NODE_ID ==> low < b.key)
      && forall i :: 0 <= i < |items| ==> low <= items[i].key && Below(items[i].key, b)
    case Split(s, n, d) =>
      d.Base? && WellFormed(d) && s.id != INVALID_NODE_ID
      && LowKey(d) < s.key && Below(s.key, d.bound)
      && n == |d.items| - LowerBound(d.items, s.key)
    case Remove(_, d) => d.Base? && WellFormed(d)
    case Merge(m, id, r, d) =>
      WellFormed(r) && WellFormed(d) && !r.Remove? && !d.Remove?
      && HighBound(d) == Bound(m, id) && id != INVALID_NODE_ID && LowKey(r) == m
    case Data(r, d) => WellFormed(d) && CanPost(d, r)
  }

  /** The record fits on the chain: range, presence of the key and cached position. */
  predicate CanPost(c: Chain, r: Record)
    requires BasesSorted(c)
  {
    && !c.Remove? && InRange(r.item.key, c)
    && (r.kind.Insert? <==> r.item.key !in Contents(c))
    && (BranchSorted(c, r.item.key); r.at == Locate(BranchItems(c, r.item.key), r.item.key))
  }

  /** Every key of a chain lies in its range, and the range is not empty. */
  lemma {:induction false} KeysInRange(c: Chain)
    requires WellFormed(c)
    ensures forall k :: k in Contents(c) ==> InRange(k, c)
    ensures HighBound(c).id != INVALID_NODE_ID ==> LowKey(c) < HighBound(c).key
  {
    match c
    case Base(_, items, _) => MapOfAt(items);
    case Merge(_, _, r, d) => KeysInRange(r); KeysInRange(d);
    case _ => KeysInRange(c.child);
  }

  lemma MergeDisjoint(d: Chain, r: Chain)
    requires WellFormed(d) && WellFormed(r) && HighBound(d).id != INVALID_NODE_ID && LowKey(r) == HighBound(d).key
    ensures Contents(d).Keys !! Contents(r).Keys
  {
    KeysInRange(d);
    KeysInRange(r);
    forall k | k in Contents(d).Keys ensures k !in Contents(r).Keys {
      assert InRange(k, d);
    }
  }

  /** The cached item count is the number of keys the replayed log holds. */
  lemma {:induction false} ItemCountIsSize(c: Chain)
    requires WellFormed(c)
    ensures ItemCount(c) == |Contents(c)|
  {
    match c
    case Base(_, items, _) => MapOfAt(items);
    case Split(s, n, d) => SplitSize(d.items, s);
    case Merge(_, _, r, d) =>
      ItemCountIsSize(r);
      ItemCountIsSize(d);
      MergeDisjoint(d, r);
      UnionSize(Contents(d), Contents(r));
    case Data(r, d) =>
      ItemCountIsSize(d);
      if r.kind.Delete? {
        RemoveSize(Contents(d), r.item.key);
      }
    case _ => ItemCountIsSize(c.child);
  }
}
