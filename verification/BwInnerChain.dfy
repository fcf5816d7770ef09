/**
 The inner delta chains of the Bw-tree: separator inserts and deletes, splits and
 merges over a sorted base array of (key, child id) items. `Seps` replays the log.

 A data record's `at.index` is its cached location, the lower-bound position of its key
 in the base of its branch. An insert also caches the next separator (or the end of
 the node) and a delete the previous and the next one.
 */
module BwInnerChain {
  import opened BwItems

  datatype Chain =
    | Base(items: seq<Item>, bound: Bound)
    | Data(rec: Record, prev: Item, next: Bound, child: Chain)
    | Split(split: Bound, siblingCount: nat, child: Chain)
    | Merge(mergeKey: Key, deleted: NodeID, right: Chain, child: Chain)

  /** Bases are sorted and hold at least the low key's item. */
  predicate BasesSorted(c: Chain) {
    match c
    case Base(items, _) => items != [] && Sorted(items)
    case Merge(_, _, r, d) => BasesSorted(r) && BasesSorted(d)
    case _ => BasesSorted(c.child)
  }

  /** The low key and the child it routes to: the first item of the leftmost base. */
  function Low(c: Chain): Item
    requires BasesSorted(c)
  {
    match c
    case Base(items, _) => items[0]
    case _ => Low(c.child)
  }

  function HighBound(c: Chain): Bound {
    match c
    case Base(_, b) => b
    case Split(s, _, _) => s
    case Merge(_, _, r, _) => HighBound(r)
    case Data(_, _, _, d) => HighBound(d)
  }

  function ItemCount(c: Chain): int {
    match c
    case Base(items, _) => |items|
    case Data(r, _, _, d) => ItemCount(d) + if r.kind.Delete? then -1 else 1
    case Split(_, n, d) => ItemCount(d) - n
    case Merge(_, _, r, d) => ItemCount(d) + ItemCount(r)
  }

  function Depth(c: Chain): nat {
    match c
    case Base(_, _) => 0
    case Data(_, _, _, d) => Depth(d) + 1
    case Split(_, _, d) => Depth(d)
    case Merge(_, _, r, d) => Depth(d) + Depth(r)
  }

  predicate InRange(k: Key, c: Chain)
    requires BasesSorted(c)
  {
    Low(c).key <= k && Below(k, HighBound(c))
  }

  /** Replaying the log: the separators of a chain and the children they route to. */
  function Seps(c: Chain): map<Key, NodeID> {
    match c
    case Base(items, _) => MapOf(items)
    case Data(r, _, _, d) => Applied(Seps(d), r)
    case Split(s, _, d) => Restrict(Seps(d), s)
    case Merge(_, _, r, d) => Seps(d) + Seps(r)
  }

  function BranchItems(c: Chain, k: Key): seq<Item> {
    match c
    case Base(items, _) => items
    case Merge(m, _, r, d) => if k >= m then BranchItems(r, k) else BranchItems(d, k)
    case _ => BranchItems(c.child, k)
  }

  lemma {:induction false} BranchSorted(c: Chain, k: Key)
    requires BasesSorted(c)
    ensures BranchItems(c, k) != [] && Sorted(BranchItems(c, k))
    decreases c
  {
    match c
    case Base(_, _) =>
    case Merge(_, _, r, d) => BranchSorted(r, k); BranchSorted(d, k);
    case _ => BranchSorted(c.child, k);
  }

  /** `next` is the separator right after k, or closes the node's range. */
  predicate IsNext(c: Chain, k: Key, next: Bound)
    requires BasesSorted(c)
  {
    if next.id != INVALID_NODE_ID && next.key in Seps(c)
    then k < next.key && forall s :: s in Seps(c) && k < s ==> next.key <= s
    else (next.id == INVALID_NODE_ID || (HighBound(c).id != INVALID_NODE_ID && HighBound(c).key <= next.key))
         && forall s :: s in Seps(c) ==> s <= k
  }

  /** `prev` is the separator right before k; the low child's id belongs to the low key alone. */
  predicate IsPrev(c: Chain, k: Key, prev: Item)
    requires BasesSorted(c)
  {
    && prev.key in Seps(c) && Seps(c)[prev.key] == prev.value && prev.key < k
    && (forall s :: s in Seps(c) && s < k ==> s <= prev.key)
    && (prev.value == Low(c).value ==> prev.key == Low(c).key)
  }

  /** The record fits on the chain: it inserts an absent separator or deletes a present one. */
  predicate CanPost(c: Chain, r: Record, prev: Item, next: Bound)
    requires BasesSorted(c)
  {
    var k := r.item.key;
    && !r.kind.Update? && InRange(k, c) && Low(c).key < k
    && (r.kind.Insert? <==> k !in Seps(c)) && IsNext(c, k, next)
    && (r.kind.Delete? ==> IsPrev(c, k, prev))
    && (BranchSorted(c, k); r.at.index == LowerBound(BranchItems(c, k), k))
  }

  predicate WellFormed(c: Chain)
    ensures WellFormed(c) ==> BasesSorted(c)
  {
    match c
    case Base(items, b) =>
      items != [] && Sorted(items) && forall i :: 0 <= i < |items| ==> Below(items[i].key, b)
    case Split(s, n, d) =>
      d.Base? && WellFormed(d) && s.id != INVALID_NODE_ID && Low(d).key < s.key && Below(s.key, d.bound)
      && n == |d.items| - LowerBound(d.items, s.key)
    case Merge(m, id, r, d) =>
      WellFormed(r) && WellFormed(d) && HighBound(d) == Bound(m, id) && id != INVALID_NODE_ID && Low(r).key == m
    case Data(r, p, n, d) => WellFormed(d) && CanPost(d, r, p, n)
  }

  /** The low key is a separator, and every separator lies in the node's range. */
  lemma {:induction false} SepsInRange(c: Chain)
    requires WellFormed(c)
    ensures Low(c).key in Seps(c) && Seps(c)[Low(c).key] == Low(c).value
    ensures forall k :: k in Seps(c) ==> InRange(k, c)
    ensures Below(Low(c).key, HighBound(c))
  {
    match c
    case Base(items, _) => MapOfAt(items);
    case Merge(_, _, r, d) => SepsInRange(r); SepsInRange(d);
    case _ => SepsInRange(c.child);
  }

  lemma BranchesDisjoint(d: Chain, r: Chain)
    requires WellFormed(d) && WellFormed(r) && HighBound(d).id != INVALID_NODE_ID && Low(r).key == HighBound(d).key
    ensures Seps(d).Keys !! Seps(r).Keys
  {
    SepsInRange(d);
    SepsInRange(r);
    forall k | k in Seps(d).Keys ensures k !in Seps(r).Keys {
      assert InRange(k, d);
    }
  }

  /** The cached item count is the number of separators. */
  lemma {:induction false} ItemCountIsSize(c: Chain)
    requires WellFormed(c)
    ensures ItemCount(c) == |Seps(c)|
  {
    match c
    case Base(items, _) => MapOfAt(items);
    case Split(s, _, d) => SplitSize(d.items, s);
    case Merge(_, _, r, d) =>
      ItemCountIsSize(r);
      ItemCountIsSize(d);
      BranchesDisjoint(d, r);
      UnionSize(Seps(d), Seps(r));
    case Data(r, _, _, d) =>
      ItemCountIsSize(d);
      if r.kind.Delete? {
        RemoveSize(Seps(d), r.item.key);
      }
  }

  /** No branch but the leftmost starts with the given child. */
  predicate FirstsDiffer(c: Chain, id: NodeID)
    requires BasesSorted(c)
  {
    match c
    case Base(_, _) => true
    case Merge(_, _, r, d) => Low(r).value != id && FirstsDiffer(r, id) && FirstsDiffer(d, id)
    case _ => FirstsDiffer(c.child, id)
  }
}
