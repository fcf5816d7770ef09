/**
 Two levels of the Bw-tree: one inner chain, the root, over the leaves of BwMappingTable.

 A thread takes a snapshot of the root, then one of a leaf. If the leaf's chain starts
 with a split or a merge record, it first finishes that change: it posts the separator on
 the root, or deletes it there, by a compare-and-swap against its root snapshot, unless
 the snapshot shows that this was done. Only then may it post on that leaf or go on to
 the right. Root chains are told apart by a version, as the program tells them by address.

 The neighbour separators that a root record caches are read off the leaf, never looked
 up in the root; that they are the right ones is proved here over every interleaving.
 */
module BwTwoLevel {
  import opened BwItems
  import L = BwLeafChain
  import N = BwInnerChain
  import R = BwInnerNavigation
  import T = BwMappingTable

  /**
   A thread's snapshots: none, of the root, or of the root and a leaf. `passed` says that
   the leaf's chain needs no finishing, or that the thread knows it was finished.
   */
  datatype View =
    | Out
    | Top(version: nat, root: N.Chain)
    | At(version: nat, root: N.Chain, id: NodeID, leaf: L.Chain, passed: bool)

  /** `posted` is auxiliary: every leaf whose separator has been posted on the root. */
  datatype State = State(leaves: T.State, root: N.Chain, version: nat, posted: set<NodeID>, views: map<nat, View>)

  datatype Step =
    | ReadRoot(t: nat)
    | Visit(t: nat, key: Key)
    | GoRight(t: nat)
    | Finish(t: nat)
    | OnLeaf(t: nat, e: T.Step)
    | Refresh(node: N.Chain)

  predicate Unfinished(c: L.Chain) {
    c.Split? || c.Remove? || c.Merge?
  }

  /** The thread holds this leaf snapshot and may post on it. */
  predicate Holds(v: View, id: NodeID, c: L.Chain) {
    v.At? && v.id == id && v.leaf == c && v.passed
  }

  /** A thread works on the leaf that it holds. */
  predicate Gate(v: View, t: nat, e: T.Step) {
    match e
    case PostData(id, c, _) => Holds(v, id, c)
    case Consolidate(id, c, _) => Holds(v, id, c)
    case InstallSibling(u, id, c, _, _) => u == t && Holds(v, id, c)
    case PostSplit(u) => u == t
    case PostRemove(id, c) => Holds(v, id, c)
    case ReadRemoved(u, id) => u == t && v.At? && v.id == id
    case PostMerge(u, l, c) => u == t && Holds(v, l, c)
  }

  ghost predicate Enabled(s: State, e: Step) {
    match e
    case ReadRoot(t) => t in s.views
    case Visit(t, k) =>
      t in s.views && !s.views[t].Out? && k in N.Seps(s.views[t].root) && N.Seps(s.views[t].root)[k] in s.leaves.table
    case GoRight(t) =>
      t in s.views && s.views[t].At? && s.views[t].passed
      && L.HighBound(s.views[t].leaf).id != INVALID_NODE_ID && L.HighBound(s.views[t].leaf).id in s.leaves.table
    case Finish(t) =>
      t in s.views && s.views[t].At? && !s.views[t].passed && (s.views[t].leaf.Split? || s.views[t].leaf.Merge?)
      && N.BasesSorted(s.views[t].root)
    case OnLeaf(t, e) => t in s.views && T.Enabled(s.leaves, e) && Gate(s.views[t], t, e)
    case Refresh(n) =>
      N.WellFormed(n) && R.MergeFree(n) && N.BasesSorted(s.root) && N.Seps(n) == N.Seps(s.root)
      && N.Low(n) == N.Low(s.root) && N.HighBound(n) == N.HighBound(s.root)
  }

  /** Loads a leaf. */
  function Look(s: State, t: nat, v: View, id: NodeID): State
    requires !v.Out? && id in s.leaves.table
  {
    var c := s.leaves.table[id];
    s.(views := s.views[t := At(v.version, v.root, id, c, !Unfinished(c))])
  }

  /** The records that finish a split and a merge, with the position of their key in the base. */
  function InsertOf(p: N.Chain, item: Item, next: Bound): N.Chain
    requires N.BasesSorted(p)
  {
    N.BranchSorted(p, item.key);
    N.Data(Record(Insert, item, IndexPair(LowerBound(N.BranchItems(p, item.key), item.key), false)), item, next, p)
  }

  function DeleteOf(p: N.Chain, item: Item, prev: Item, next: Bound): N.Chain
    requires N.BasesSorted(p)
  {
    N.BranchSorted(p, item.key);
    N.Data(Record(Delete, item, IndexPair(LowerBound(N.BranchItems(p, item.key), item.key), true)), prev, next, p)
  }

  /** Swaps the root for a chain posted on the thread's snapshot. */
  function Swap(s: State, t: nat, root: N.Chain): State
    requires t in s.views && s.views[t].At?
  {
    s.(root := root, version := s.version + 1, views := s.views[t := s.views[t].(version := s.version + 1, root := root, passed := true)])
  }

  function Abort(s: State, t: nat): State {
    s.(views := s.views[t := Out])
  }

  function Pass(s: State, t: nat): State
    requires t in s.views && s.views[t].At?
  {
    s.(views := s.views[t := s.views[t].(passed := true)])
  }

  /** The separator the leaf's split owes the root is the split's own; its next one is the high key below the split. */
  function FinishSplit(s: State, t: nat): State
    requires t in s.views && s.views[t].At? && s.views[t].leaf.Split? && N.BasesSorted(s.views[t].root)
  {
    var v := s.views[t];
    var k, id := v.leaf.split.key, v.leaf.split.id;
    if k in N.Seps(v.root) then if N.Seps(v.root)[k] == id then Pass(s, t) else Abort(s, t)
    else if v.version != s.version then Abort(s, t)
    else Swap(s, t, InsertOf(v.root, Item(k, id), L.HighBound(v.leaf.child))).(posted := s.posted + {id})
  }

  /** The separator of a merged leaf goes; the one before it is the merging leaf's, the one after it the merged leaf's high key. */
  function FinishMerge(s: State, t: nat): State
    requires t in s.views && s.views[t].At? && s.views[t].leaf.Merge? && N.BasesSorted(s.views[t].root)
  {
    var v := s.views[t];
    if v.version != s.version then Abort(s, t)
    else if v.leaf.mergeKey !in N.Seps(v.root) then Pass(s, t)
    else Swap(s, t, DeleteOf(v.root, Item(v.leaf.mergeKey, v.leaf.deleted), Item(L.LowKey(v.leaf), v.id), L.HighBound(v.leaf.right)))
  }

  /** The one known entry a leaf step may change. */
  ghost function Target(s: T.State, e: T.Step): NodeID
    requires T.Enabled(s, e)
  {
    if e.InstallSibling? || e.ReadRemoved? || !T.Succeeds(s, e) then INVALID_NODE_ID else T.Offer(s, e).0
  }

  ghost function LeafApplied(s: State, e: T.Step): State
    requires T.Enabled(s.leaves, e)
  {
    s.(leaves := T.Apply(s.leaves, e))
  }

  /** After its own successful step on the leaf it looks at, a thread goes on with the chain it installed. */
  ghost function StepOnLeaf(s: State, t: nat, e: T.Step): State
    requires t in s.views && T.Enabled(s.leaves, e)
  {
    var g, id, v := LeafApplied(s, e), Target(s.leaves, e), s.views[t];
    if id != INVALID_NODE_ID && v.At? && v.id == id && id in g.leaves.table then Look(g, t, v, id) else g
  }

  ghost function Next(s: State, e: Step): State
    requires Enabled(s, e)
  {
    match e
    case ReadRoot(t) => s.(views := s.views[t := Top(s.version, s.root)])
    case Visit(t, k) => Look(s, t, s.views[t], N.Seps(s.views[t].root)[k])
    case GoRight(t) => Look(s, t, s.views[t], L.HighBound(s.views[t].leaf).id)
    case Finish(t) => if s.views[t].leaf.Split? then FinishSplit(s, t) else FinishMerge(s, t)
    case OnLeaf(t, e) => StepOnLeaf(s, t, e)
    case Refresh(n) => s.(root := n, version := s.version + 1)
  }

  // ---------------------------------------------------------------- invariant

  predicate Known(posted: set<NodeID>, id: NodeID) {
    id in posted || id == INVALID_NODE_ID
  }

  /** The leaf's chain starts with the merge that took in `id` at this key. */
  predicate Absorbs(table: map<NodeID, L.Chain>, l: NodeID, k: Key, id: NodeID) {
    l in table && table[l].Merge? && table[l].mergeKey == k && table[l].deleted == id
  }

  /** A separator leads to a leaf that starts there, linked or just taken in by its neighbour. */
  ghost predicate SepOK(s: State, k: Key)
    requires k in N.Seps(s.root)
  {
    var id := N.Seps(s.root)[k];
    && id in s.posted && id in s.leaves.table && L.LowKey(s.leaves.table[id]) == k
    && (id in s.leaves.order || exists l :: l in s.leaves.order && Absorbs(s.leaves.table, l, k, id))
  }

  /** A linked leaf that was posted has its separator. */
  predicate HasSep(s: State, id: NodeID) {
    && id in s.leaves.table && L.LowKey(s.leaves.table[id]) in N.Seps(s.root)
    && N.Seps(s.root)[L.LowKey(s.leaves.table[id])] == id
  }

  /** A chain's right neighbour was posted, but for that of a split record on top; so was the leaf of a merge record on top. */
  predicate Seen(s: State, c: L.Chain) {
    && (!c.Split? ==> Known(s.posted, L.HighBound(c).id))
    && (c.Merge? ==> c.deleted in s.posted && c.deleted in s.leaves.table && L.LowKey(s.leaves.table[c.deleted]) == c.mergeKey)
  }

  /** The sibling of a split not yet posted has not changed. */
  predicate LeafOK(s: State, id: NodeID) {
    && id in s.leaves.table && Seen(s, s.leaves.table[id])
    && var c := s.leaves.table[id];
       (c.Split? && c.split.id !in s.posted ==>
         && Known(s.posted, L.HighBound(c.child).id) && c.split.id in s.leaves.table
         && s.leaves.table[c.split.id].Base? && s.leaves.table[c.split.id].bound == L.HighBound(c.child))
  }

  predicate ThreadOK(s: State, h: T.Thread) {
    h.Splitting? ==> h.node in s.posted && Known(s.posted, L.HighBound(h.snapshot).id)
  }

  /** No separator of the root leads to the leaf. */
  ghost predicate NoSep(root: N.Chain, id: NodeID) {
    forall k :: k in N.Seps(root) ==> N.Seps(root)[k] != id
  }

  /** The split or merge on top of the chain is finished. */
  ghost predicate Finished(s: State, c: L.Chain) {
    && !c.Remove? && (c.Split? ==> c.split.id in s.posted) && (c.Merge? ==> NoSep(s.root, c.deleted))
  }

  /** Every child of a root snapshot is a posted leaf that starts at its separator. */
  predicate RootSeen(s: State, root: N.Chain) {
    && N.WellFormed(root)
    && forall k :: k in N.Seps(root) ==>
         N.Seps(root)[k] in s.posted && N.Seps(root)[k] in s.leaves.table && L.LowKey(s.leaves.table[N.Seps(root)[k]]) == k
  }

  /** What the thread will post on the root is owed: the leaf still has this chain and the root lacks the change. */
  predicate Owed(s: State, v: View)
    requires v.At?
  {
    var c := v.leaf;
    && (c.Split? && c.split.key !in N.Seps(s.root) ==>
         c.split.id !in s.posted && v.id in s.leaves.table && s.leaves.table[v.id] == c)
    && (c.Merge? && c.mergeKey in N.Seps(s.root) ==>
         N.Seps(s.root)[c.mergeKey] == c.deleted && v.id in s.leaves.table && s.leaves.table[v.id] == c)
  }

  ghost predicate ViewOK(s: State, v: View) {
    && (!v.Out? ==> RootSeen(s, v.root) && v.version <= s.version && (v.version == s.version ==> v.root == s.root))
    && (v.At? ==>
         && v.id in s.posted && Seen(s, v.leaf)
         && (v.passed ==> Finished(s, v.leaf)) && (!v.passed && v.version == s.version ==> Owed(s, v)))
  }

  ghost predicate RootOK(s: State) {
    && N.WellFormed(s.root) && R.MergeFree(s.root) && N.HighBound(s.root).id == INVALID_NODE_ID
    && T.FIRST_LEAF_NODE_ID in s.leaves.table
    && N.Low(s.root) == Item(L.LowKey(s.leaves.table[T.FIRST_LEAF_NODE_ID]), T.FIRST_LEAF_NODE_ID)
    && s.posted <= s.leaves.known && T.FIRST_LEAF_NODE_ID in s.posted
  }

  ghost predicate Levels(s: State) {
    && RootOK(s)
    && (forall k {:trigger SepOK(s, k)} :: k in N.Seps(s.root) ==> SepOK(s, k))
    && (forall id {:trigger HasSep(s, id)} :: id in s.leaves.order && id in s.posted ==> HasSep(s, id))
    && (forall id {:trigger LeafOK(s, id)} :: id in s.leaves.known ==> LeafOK(s, id))
  }

  ghost predicate Inv(s: State) {
    && T.Inv(s.leaves) && Levels(s)
    && (forall t :: t in s.leaves.threads ==> ThreadOK(s, s.leaves.threads[t]))
    && (forall t :: t in s.views ==> ViewOK(s, s.views[t]))
  }

  // ---------------------------------------------------------------- ranges of leaves

  /** Only one leaf covers a key. */
  lemma {:induction false} OneLeaf(table: map<NodeID, L.Chain>, o: seq<NodeID>, x: NodeID, y: NodeID, k: Key)
    requires T.Linked(table, o) && x in o && y in o && x in table && y in table
    requires L.InRange(k, table[x]) && L.InRange(k, table[y])
    ensures x == y
  {
    if o[0] != x && o[0] != y {
      OneLeaf(table, o[1..], x, y, k);
    } else {
      T.LowOrder(table, o, x);
      T.LowOrder(table, o, y);
    }
  }

  /** A linked leaf covers its low key. */
  lemma CoversLow(s: State, x: NodeID)
    requires T.Inv(s.leaves) && x in s.leaves.order
    ensures x in s.leaves.table && L.WellFormed(s.leaves.table[x]) && L.InRange(L.LowKey(s.leaves.table[x]), s.leaves.table[x])
  {
    T.LinkedIn(s.leaves.table, s.leaves.order);
    L.KeysInRange(s.leaves.table[x]);
  }

  /** The merge key lies strictly inside the merged leaf. */
  lemma CoversMerge(s: State, l: NodeID)
    requires T.Inv(s.leaves) && l in s.leaves.order && l in s.leaves.table && s.leaves.table[l].Merge?
    ensures var c := s.leaves.table[l]; L.LowKey(c) < c.mergeKey && L.InRange(c.mergeKey, c)
  {
    CoversLow(s, l);
    L.KeysInRange(s.leaves.table[l].child);
    L.KeysInRange(s.leaves.table[l].right);
  }

  /** The leaf that covers a separator: its own, or the one that took its own in. */
  lemma SepCover(s: State, k: Key) returns (l: NodeID)
    requires T.Inv(s.leaves) && Levels(s) && k in N.Seps(s.root)
    ensures l in s.leaves.order && l in s.leaves.table && L.InRange(k, s.leaves.table[l])
    ensures if L.LowKey(s.leaves.table[l]) == k then l == N.Seps(s.root)[k] else Absorbs(s.leaves.table, l, k, N.Seps(s.root)[k])
  {
    assert SepOK(s, k);
    var id := N.Seps(s.root)[k];
    if id in s.leaves.order {
      l := id;
      CoversLow(s, id);
    } else {
      l :| l in s.leaves.order && Absorbs(s.leaves.table, l, k, id);
      CoversMerge(s, l);
    }
  }

  /** The right neighbour of a linked leaf is linked and starts where the leaf ends. */
  lemma Neighbour(s: State, x: NodeID)
    requires T.Inv(s.leaves) && x in s.leaves.order && x in s.leaves.table && L.HighBound(s.leaves.table[x]).id != INVALID_NODE_ID
    ensures var b := L.HighBound(s.leaves.table[x]); b.id in s.leaves.order && b.id in s.leaves.table && L.LowKey(s.leaves.table[b.id]) == b.key
  {
    T.NextInOrder(s.leaves.table, s.leaves.order, x);
    T.NextLow(s.leaves.table, s.leaves.order, x);
  }

  // ---------------------------------------------------------------- the neighbours a root record caches

  /** The sibling of a split that the root lacks: linked, starting at the split key, ending where the split leaf ended. */
  lemma PendingSibling(s: State, x: NodeID)
    requires T.Inv(s.leaves) && Levels(s) && x in s.leaves.known && x in s.leaves.table && s.leaves.table[x].Split?
    requires s.leaves.table[x].split.id !in s.posted
    ensures var c := s.leaves.table[x]; var f := c.split.id;
      && x in s.leaves.order && f in s.leaves.order && f in s.leaves.table && s.leaves.table[f].Base? && L.LowKey(s.leaves.table[f]) == c.split.key
      && L.HighBound(s.leaves.table[f]) == L.HighBound(c.child) && Known(s.posted, L.HighBound(c.child).id)
      && L.LowKey(c) < c.split.key
  {
    assert LeafOK(s, x);
    T.LiveInOrder(s.leaves, x);
    Neighbour(s, x);
  }

  /** No separator lies inside a leaf, apart from that of a leaf it has just taken in. */
  lemma NoSepInside(s: State, x: NodeID, k: Key)
    requires T.Inv(s.leaves) && Levels(s) && x in s.leaves.order && x in s.leaves.table && k in N.Seps(s.root)
    requires L.LowKey(s.leaves.table[x]) < k && Below(k, L.HighBound(s.leaves.table[x]))
    ensures Absorbs(s.leaves.table, x, k, N.Seps(s.root)[k])
  {
    var l := SepCover(s, k);
    OneLeaf(s.leaves.table, s.leaves.order, x, l, k);
  }

  /** A posted right neighbour of a linked leaf is the next separator. */
  lemma NextSep(s: State, x: NodeID, from: Key)
    requires T.Inv(s.leaves) && Levels(s) && x in s.leaves.order && x in s.leaves.table && L.InRange(from, s.leaves.table[x])
    requires Known(s.posted, L.HighBound(s.leaves.table[x]).id)
    requires s.leaves.table[x].Merge? ==> s.leaves.table[x].mergeKey <= from
    ensures N.IsNext(s.root, from, L.HighBound(s.leaves.table[x]))
  {
    var b := L.HighBound(s.leaves.table[x]);
    forall k | k in N.Seps(s.root) && from < k ensures b.id != INVALID_NODE_ID && b.key <= k {
      if Below(k, b) {
        NoSepInside(s, x, k);
      }
    }
    if b.id != INVALID_NODE_ID {
      Neighbour(s, x);
      assert HasSep(s, b.id);
    }
  }

  lemma AboveFirst(s: State, x: NodeID)
    requires T.Inv(s.leaves) && RootOK(s) && x in s.leaves.order && x in s.leaves.table
    ensures N.Low(s.root).key <= L.LowKey(s.leaves.table[x])
  {
    T.LowOrder(s.leaves.table, s.leaves.order, x);
  }

  lemma {:induction false} FreeOfMerges(c: N.Chain, id: NodeID)
    requires N.BasesSorted(c) && R.MergeFree(c)
    ensures N.FirstsDiffer(c, id)
  {
    match c
    case Base(_, _) =>
    case Data(_, _, _, d) => FreeOfMerges(d, id);
    case Split(_, _, d) => FreeOfMerges(d, id);
    case Merge(_, _, _, _) =>
  }

  /**
   Finishing a split: the high key below the split record is the next separator of the
   root, so what BwInnerNavigation.PostInnerInsert asks of its caller holds.
   */
  lemma SplitNeighbour(s: State, t: nat)
    requires Inv(s) && t in s.views && s.views[t].At? && !s.views[t].passed && s.views[t].leaf.Split? && s.views[t].version == s.version
    requires s.views[t].leaf.split.key !in N.Seps(s.root)
    ensures var k := s.views[t].leaf.split.key;
      && s.views[t].root == s.root && N.FirstsDiffer(s.root, N.Low(s.root).value)
      && N.InRange(k, s.root) && N.Low(s.root).key < k && N.IsNext(s.root, k, L.HighBound(s.views[t].leaf.child))
  {
    var v := s.views[t];
    assert ViewOK(s, v);
    PendingSibling(s, v.id);
    AboveFirst(s, v.id);
    FreeOfMerges(s.root, N.Low(s.root).value);
    var f := v.leaf.split.id;
    CoversLow(s, f);
    NextSep(s, f, v.leaf.split.key);
  }

  /**
   Finishing a merge: the leaf itself is the previous separator's child and the merged
   leaf's high key the next separator, as BwInnerNavigation.PostInnerDelete asks.
   */
  lemma MergeNeighbours(s: State, t: nat)
    requires Inv(s) && t in s.views && s.views[t].At? && !s.views[t].passed && s.views[t].leaf.Merge? && s.views[t].version == s.version
    requires s.views[t].leaf.mergeKey in N.Seps(s.root)
    ensures var v := s.views[t]; var k := v.leaf.mergeKey;
      && v.root == s.root && N.FirstsDiffer(s.root, N.Low(s.root).value) && N.InRange(k, s.root) && N.Low(s.root).key < k
      && N.Seps(s.root)[k] == v.leaf.deleted
      && N.IsPrev(s.root, k, Item(L.LowKey(v.leaf), v.id)) && N.IsNext(s.root, k, L.HighBound(v.leaf.right))
  {
    var v := s.views[t];
    assert ViewOK(s, v);
    T.LiveInOrder(s.leaves, v.id);
    CoversMerge(s, v.id);
    AboveFirst(s, v.id);
    FreeOfMerges(s.root, N.Low(s.root).value);
    assert LeafOK(s, v.id) && HasSep(s, v.id);
    NextSep(s, v.id, v.leaf.mergeKey);
    forall k | k in N.Seps(s.root) && k < v.leaf.mergeKey ensures k <= L.LowKey(v.leaf) {
      if L.LowKey(v.leaf) < k { NoSepInside(s, v.id, k); }
    }
  }

  // ---------------------------------------------------------------- reading steps

  lemma ReadRootKeeps(s: State, t: nat)
    requires Inv(s) && t in s.views
    ensures Inv(s.(views := s.views[t := Top(s.version, s.root)]))
  {
    var g := s.(views := s.views[t := Top(s.version, s.root)]);
    SameButView(s, g, t);
    forall k | k in N.Seps(s.root) ensures N.Seps(s.root)[k] in s.posted && N.Seps(s.root)[k] in s.leaves.table
      && L.LowKey(s.leaves.table[N.Seps(s.root)[k]]) == k
    {
      assert SepOK(s, k);
    }
  }

  /** Changing one view disturbs nothing else. */
  lemma SameButView(s: State, g: State, t: nat)
    requires Inv(s) && t in g.views && g == s.(views := s.views[t := g.views[t]])
    ensures T.Inv(g.leaves) && Levels(g) && (ViewOK(g, g.views[t]) ==> Inv(g))
  {
    SameLevels(s, g);
    forall u | u in g.views && u != t ensures ViewOK(g, g.views[u]) {
      assert ViewOK(s, s.views[u]);
      SameView(s, g, s.views[u]);
    }
    forall u | u in g.leaves.threads ensures ThreadOK(g, g.leaves.threads[u]) {
      assert ThreadOK(s, s.leaves.threads[u]);
    }
  }

  lemma SameView(s: State, g: State, v: View)
    requires ViewOK(s, v) && g == s.(views := g.views)
    ensures ViewOK(g, v)
  {
  }

  lemma SameLevels(s: State, g: State)
    requires Levels(s) && g.leaves == s.leaves && N.WellFormed(g.root) && R.MergeFree(g.root) && N.Seps(g.root) == N.Seps(s.root)
    requires N.Low(g.root) == N.Low(s.root) && N.HighBound(g.root) == N.HighBound(s.root) && g.posted == s.posted
    ensures Levels(g)
  {
    forall k | k in N.Seps(g.root) ensures SepOK(g, k) { assert SepOK(s, k); }
    forall id | id in g.leaves.order && id in g.posted ensures HasSep(g, id) { assert HasSep(s, id); }
    forall id | id in g.leaves.known ensures LeafOK(g, id) { assert LeafOK(s, id); }
  }

  /** What a loaded leaf's chain owes the current root. */
  lemma LookOwed(s: State, v: View)
    requires T.Inv(s.leaves) && Levels(s) && v.At? && v.id in s.posted && v.id in s.leaves.table && v.leaf == s.leaves.table[v.id]
    ensures Owed(s, v)
  {
    var c := v.leaf;
    if c.Split? || c.Merge? { T.LiveInOrder(s.leaves, v.id); }
    if c.Split? && c.split.key !in N.Seps(s.root) {
      Neighbour(s, v.id);
      assert c.split.id in s.posted ==> HasSep(s, c.split.id);
    } else if c.Merge? && c.mergeKey in N.Seps(s.root) {
      CoversMerge(s, v.id);
      NoSepInside(s, v.id, c.mergeKey);
    }
  }

  lemma LookKeeps(s: State, t: nat, v: View, id: NodeID)
    requires Inv(s) && t in s.views && v == s.views[t] && !v.Out? && id in s.posted && id in s.leaves.table
    ensures Inv(Look(s, t, v, id))
  {
    var g := Look(s, t, v, id);
    SameButView(s, g, t);
    assert ViewOK(s, v) && LeafOK(s, id);
    LookOwed(g, g.views[t]);
  }

  /** Where a thread stands, and where its snapshots lead, there is a posted leaf. */
  lemma VisitPosted(s: State, t: nat, k: Key)
    requires Inv(s) && t in s.views && !s.views[t].Out? && k in N.Seps(s.views[t].root)
    ensures N.Seps(s.views[t].root)[k] in s.posted && N.Seps(s.views[t].root)[k] in s.leaves.table
  {
    assert ViewOK(s, s.views[t]);
  }

  lemma RightPosted(s: State, t: nat)
    requires Inv(s) && t in s.views && s.views[t].At? && s.views[t].passed && L.HighBound(s.views[t].leaf).id != INVALID_NODE_ID
    ensures L.HighBound(s.views[t].leaf).id in s.posted && L.HighBound(s.views[t].leaf).id in s.leaves.table
  {
    assert ViewOK(s, s.views[t]);
  }

  // ---------------------------------------------------------------- steps on the root

  lemma RefreshKeeps(s: State, n: N.Chain)
    requires Inv(s) && Enabled(s, Refresh(n))
    ensures Inv(Next(s, Refresh(n)))
  {
    var g := Next(s, Refresh(n));
    SameLevels(s, g);
    forall u | u in g.views ensures ViewOK(g, g.views[u]) { assert ViewOK(s, s.views[u]); }
    forall u | u in g.leaves.threads ensures ThreadOK(g, g.leaves.threads[u]) { assert ThreadOK(s, s.leaves.threads[u]); }
  }

  lemma PassKeeps(s: State, t: nat)
    requires Inv(s) && t in s.views && s.views[t].At? && Finished(s, s.views[t].leaf)
    ensures Inv(Pass(s, t))
  {
    SameButView(s, Pass(s, t), t);
    assert ViewOK(s, s.views[t]);
  }

  lemma AbortKeeps(s: State, t: nat)
    requires Inv(s)
    ensures Inv(Abort(s, t))
  {
    SameButView(s, Abort(s, t), t);
  }

  lemma ViewsAfterInsert(s: State, g: State, v: View, f: NodeID)
    requires ViewOK(s, v) && g.leaves == s.leaves && g.posted == s.posted + {f} && g.version == s.version + 1 && f !in s.posted
    requires forall k :: k in N.Seps(g.root) ==> N.Seps(g.root)[k] == f || (k in N.Seps(s.root) && N.Seps(s.root)[k] == N.Seps(g.root)[k])
    ensures ViewOK(g, v)
  {
  }

  lemma InsertWellFormed(root: N.Chain, item: Item, next: Bound)
    requires N.WellFormed(root) && R.MergeFree(root) && item.key !in N.Seps(root)
    requires N.InRange(item.key, root) && N.Low(root).key < item.key && N.IsNext(root, item.key, next)
    ensures var c := InsertOf(root, item, next);
      && N.WellFormed(c) && R.MergeFree(c) && N.Seps(c) == N.Seps(root)[item.key := item.value]
      && N.Low(c) == N.Low(root) && N.HighBound(c) == N.HighBound(root)
  {
  }

  lemma DeleteWellFormed(root: N.Chain, item: Item, prev: Item, next: Bound)
    requires N.WellFormed(root) && R.MergeFree(root) && item.key in N.Seps(root)
    requires N.InRange(item.key, root) && N.Low(root).key < item.key && N.IsNext(root, item.key, next) && N.IsPrev(root, item.key, prev)
    ensures var c := DeleteOf(root, item, prev, next);
      && N.WellFormed(c) && R.MergeFree(c) && N.Seps(c) == N.Seps(root) - {item.key}
      && N.Low(c) == N.Low(root) && N.HighBound(c) == N.HighBound(root)
  {
  }

  /** The new separator leads to the linked sibling; everything else is as before. */
  lemma LevelsAfterInsert(s: State, g: State, k: Key, f: NodeID)
    requires Levels(s) && g.leaves == s.leaves && g.posted == s.posted + {f} && N.WellFormed(g.root) && R.MergeFree(g.root)
    requires k !in N.Seps(s.root) && N.Seps(g.root) == N.Seps(s.root)[k := f] && N.Low(g.root) == N.Low(s.root) && N.HighBound(g.root) == N.HighBound(s.root)
    requires f in s.leaves.order && f in s.leaves.known && f in s.leaves.table && L.LowKey(s.leaves.table[f]) == k
    ensures Levels(g)
  {
    forall q | q in N.Seps(g.root) ensures SepOK(g, q) { assert q != k ==> SepOK(s, q); }
    forall id | id in g.leaves.order && id in g.posted ensures HasSep(g, id) { assert id != f ==> HasSep(s, id); }
    forall id | id in g.leaves.known ensures LeafOK(g, id) { assert LeafOK(s, id); }
  }

  lemma FinishSplitKeeps(s: State, t: nat)
    requires Inv(s) && Enabled(s, Finish(t)) && s.views[t].leaf.Split?
    ensures Inv(FinishSplit(s, t))
  {
    var v := s.views[t];
    var k, f := v.leaf.split.key, v.leaf.split.id;
    assert ViewOK(s, v);
    if k in N.Seps(v.root) {
      if N.Seps(v.root)[k] == f { PassKeeps(s, t); } else { AbortKeeps(s, t); }
    } else if v.version != s.version {
      AbortKeeps(s, t);
    } else {
      InsertKeeps(s, t);
    }
  }

  lemma InsertKeeps(s: State, t: nat)
    requires Inv(s) && Enabled(s, Finish(t)) && s.views[t].leaf.Split? && s.views[t].version == s.version
    requires s.views[t].leaf.split.key !in N.Seps(s.views[t].root)
    ensures Inv(FinishSplit(s, t))
  {
    var v := s.views[t];
    var k, f := v.leaf.split.key, v.leaf.split.id;
    assert ViewOK(s, v);
    SplitNeighbour(s, t);
    PendingSibling(s, v.id);
    InsertWellFormed(s.root, Item(k, f), L.HighBound(v.leaf.child));
    var g := FinishSplit(s, t);
    LevelsAfterInsert(s, g, k, f);
    forall u | u in s.views ensures ViewOK(g, s.views[u]) {
      assert ViewOK(s, s.views[u]);
      ViewsAfterInsert(s, g, s.views[u], f);
    }
    NewRootView(g, v.leaf, v.id);
    forall u | u in g.leaves.threads ensures ThreadOK(g, g.leaves.threads[u]) { assert ThreadOK(s, s.leaves.threads[u]); }
  }

  /** The thread that swapped the root goes on with its own chain. */
  lemma NewRootView(g: State, c: L.Chain, id: NodeID)
    requires Levels(g) && id in g.posted && Seen(g, c) && Finished(g, c)
    ensures ViewOK(g, At(g.version, g.root, id, c, true))
  {
    forall k | k in N.Seps(g.root) ensures N.Seps(g.root)[k] in g.posted && N.Seps(g.root)[k] in g.leaves.table
      && L.LowKey(g.leaves.table[N.Seps(g.root)[k]]) == k
    {
      assert SepOK(g, k);
    }
  }

  /** The separator of a leaf that is linked no more goes; everything else is as before. */
  lemma LevelsAfterDelete(s: State, g: State, k: Key)
    requires T.Inv(s.leaves) && Levels(s) && g.leaves == s.leaves && g.posted == s.posted && N.WellFormed(g.root) && R.MergeFree(g.root)
    requires k in N.Seps(s.root) && N.Seps(g.root) == N.Seps(s.root) - {k} && N.Low(g.root) == N.Low(s.root) && N.HighBound(g.root) == N.HighBound(s.root)
    requires forall id :: id in s.leaves.order && id in s.leaves.table ==> L.LowKey(s.leaves.table[id]) != k
    ensures Levels(g)
  {
    forall q | q in N.Seps(g.root) ensures SepOK(g, q) { assert SepOK(s, q); }
    forall id | id in g.leaves.order && id in g.posted ensures HasSep(g, id) { assert HasSep(s, id); }
    forall id | id in g.leaves.known ensures LeafOK(g, id) { assert LeafOK(s, id); }
  }

  lemma FinishMergeKeeps(s: State, t: nat)
    requires Inv(s) && Enabled(s, Finish(t)) && s.views[t].leaf.Merge?
    ensures Inv(FinishMerge(s, t))
  {
    var v := s.views[t];
    assert ViewOK(s, v);
    if v.version != s.version {
      AbortKeeps(s, t);
    } else if v.leaf.mergeKey !in N.Seps(v.root) {
      forall k | k in N.Seps(s.root) ensures N.Seps(s.root)[k] != v.leaf.deleted { assert SepOK(s, k); }
      PassKeeps(s, t);
    } else {
      DeleteKeeps(s, t);
    }
  }

  lemma DeleteKeeps(s: State, t: nat)
    requires Inv(s) && Enabled(s, Finish(t)) && s.views[t].leaf.Merge? && s.views[t].version == s.version
    requires s.views[t].leaf.mergeKey in N.Seps(s.views[t].root)
    ensures Inv(FinishMerge(s, t))
  {
    var v := s.views[t];
    var k, id := v.leaf.mergeKey, v.leaf.deleted;
    assert ViewOK(s, v);
    MergeNeighbours(s, t);
    DeleteWellFormed(s.root, Item(k, id), Item(L.LowKey(v.leaf), v.id), L.HighBound(v.leaf.right));
    var g := FinishMerge(s, t);
    NoneStartsInside(s, v.id);
    LevelsAfterDelete(s, g, k);
    forall q | q in N.Seps(s.root) && q != k ensures N.Seps(s.root)[q] != id { assert SepOK(s, q); }
    assert Finished(g, v.leaf);
    forall u | u in s.views ensures ViewOK(g, s.views[u]) { assert ViewOK(s, s.views[u]); }
    NewRootView(g, v.leaf, v.id);
    forall u | u in g.leaves.threads ensures ThreadOK(g, g.leaves.threads[u]) { assert ThreadOK(s, s.leaves.threads[u]); }
  }

  /** No linked leaf starts at the merge key of another one. */
  lemma NoneStartsInside(s: State, x: NodeID)
    requires T.Inv(s.leaves) && x in s.leaves.known && x in s.leaves.table && s.leaves.table[x].Merge?
    ensures forall y :: y in s.leaves.order && y in s.leaves.table ==> L.LowKey(s.leaves.table[y]) != s.leaves.table[x].mergeKey
  {
    T.LiveInOrder(s.leaves, x);
    CoversMerge(s, x);
    forall y | y in s.leaves.order && y in s.leaves.table ensures L.LowKey(s.leaves.table[y]) != s.leaves.table[x].mergeKey {
      CoversLow(s, y);
      if L.LowKey(s.leaves.table[y]) == s.leaves.table[x].mergeKey {
        OneLeaf(s.leaves.table, s.leaves.order, x, y, s.leaves.table[x].mergeKey);
      }
    }
  }

  // ---------------------------------------------------------------- steps on a leaf

  /** The leaf step changes at most one known entry, that of a posted leaf with nothing left to finish, and keeps low keys. */
  ghost predicate Touches(s: State, g: State, id: NodeID) {
    && g == s.(leaves := g.leaves) && s.leaves.known <= g.leaves.known
    && (forall x {:trigger x in s.leaves.known} :: x in s.leaves.known ==>
         && x in s.leaves.table && x in g.leaves.table && L.LowKey(g.leaves.table[x]) == L.LowKey(s.leaves.table[x])
         && (g.leaves.table[x] == s.leaves.table[x] || x == id))
    && (id in s.leaves.known ==> id in s.leaves.table && (g.leaves.table[id] == s.leaves.table[id] || (id in s.posted && Finished(s, s.leaves.table[id]))))
  }

  lemma ViewTouched(s: State, g: State, id: NodeID, v: View)
    requires Touches(s, g, id) && s.posted <= s.leaves.known && ViewOK(s, v)
    ensures ViewOK(g, v)
  {
    if !v.Out? {
      forall k | k in N.Seps(v.root) ensures N.Seps(v.root)[k] in g.leaves.table && L.LowKey(g.leaves.table[N.Seps(v.root)[k]]) == k {
        var x := N.Seps(v.root)[k];
        assert x in s.posted && L.LowKey(s.leaves.table[x]) == k;
        assert x in s.leaves.known;
      }
    }
    if v.At? && !v.passed && v.version == s.version {
      assert v.id in s.leaves.known;
      assert Owed(g, v);
    }
  }

  /** A chain put on a finished one, with the same bound, is as good as it. */
  lemma SeenAfter(s: State, c: L.Chain, d: L.Chain)
    requires Seen(s, c) && Finished(s, c) && L.HighBound(d) == L.HighBound(c) && !d.Split? && !d.Merge?
    ensures Seen(s, d)
  {
  }

  /** Data, consolidation and remove records: one leaf's chain changes, its range and the order stay. */
  lemma EntryLevels(s: State, g: State, id: NodeID, d: L.Chain)
    requires T.Inv(s.leaves) && Levels(s) && Touches(s, g, id) && id in s.posted && id in s.leaves.table && Finished(s, s.leaves.table[id])
    requires g.leaves.table == s.leaves.table[id := d] && g.leaves.order == s.leaves.order && g.leaves.known == s.leaves.known
    requires L.HighBound(d) == L.HighBound(s.leaves.table[id]) && !d.Split? && !d.Merge?
    ensures Levels(g)
  {
    assert T.FIRST_LEAF_NODE_ID in s.leaves.known;
    forall k | k in N.Seps(g.root) ensures SepOK(g, k) {
      assert SepOK(s, k);
      SepTouched(s, g, id, k);
    }
    forall x | x in g.leaves.order && x in g.posted ensures HasSep(g, x) { assert HasSep(s, x) && x in s.leaves.known; }
    forall x | x in g.leaves.known ensures LeafOK(g, x) {
      assert LeafOK(s, x) && LeafOK(s, id);
      if x == id { SeenAfter(s, s.leaves.table[id], d); }
      SeenTouched(s, g, id, g.leaves.table[x]);
    }
  }

  /** A separator stays good while its leaf stays linked. */
  lemma SepTouched(s: State, g: State, id: NodeID, k: Key)
    requires Touches(s, g, id) && s.posted <= s.leaves.known && k in N.Seps(s.root) && SepOK(s, k)
    requires (forall x :: x in s.leaves.order ==> x in s.leaves.known)
    requires forall x :: x in s.leaves.order && x != N.Seps(s.root)[k] ==> x in g.leaves.order || NoAbsorber(s, x)
    requires N.Seps(s.root)[k] in s.leaves.order ==> N.Seps(s.root)[k] in g.leaves.order
    ensures SepOK(g, k)
  {
    var c := N.Seps(s.root)[k];
    assert c in s.leaves.known;
    if c !in s.leaves.order {
      var l :| l in s.leaves.order && Absorbs(s.leaves.table, l, k, c);
      assert l in s.leaves.known;
      assert Absorbs(g.leaves.table, l, k, c);
    }
  }

  predicate NoAbsorber(s: State, x: NodeID) {
    x in s.leaves.table && !s.leaves.table[x].Merge?
  }

  lemma SeenTouched(s: State, g: State, id: NodeID, c: L.Chain)
    requires Touches(s, g, id) && s.posted <= s.leaves.known && Seen(s, c)
    ensures Seen(g, c)
  {
  }

  /** A split: the sibling joins the order, not yet posted. */
  lemma SplitLevels(s: State, g: State, id: NodeID, at: nat, f: NodeID)
    requires T.Inv(s.leaves) && Levels(s) && Touches(s, g, id) && id in s.posted && id in s.leaves.table && T.CanSplit(s.leaves.table[id], at)
    requires f in s.leaves.table && f !in s.leaves.known && s.leaves.table[f] == T.Sibling(s.leaves.table[id], at)
    requires g.leaves.table == s.leaves.table[id := T.SplitOf(s.leaves.table[id], at, f)] && g.leaves.known == s.leaves.known + {f}
    requires forall x :: x in g.leaves.order <==> x in s.leaves.order || x == f
    ensures Levels(g)
  {
    assert T.FIRST_LEAF_NODE_ID in s.leaves.known && id in s.leaves.known && LeafOK(s, id);
    forall k | k in N.Seps(g.root) ensures SepOK(g, k) {
      assert SepOK(s, k);
      SepTouched(s, g, id, k);
    }
    forall x | x in g.leaves.order && x in g.posted ensures HasSep(g, x) { assert HasSep(s, x) && x in s.leaves.known; }
    forall x | x in g.leaves.known ensures LeafOK(g, x) {
      if x in s.leaves.known && x != id {
        assert LeafOK(s, x);
        SeenTouched(s, g, id, s.leaves.table[x]);
      }
    }
  }

  /** A merge: the removed leaf leaves the order; its separator is covered by the merge record. */
  lemma MergeLevels(s: State, g: State, id: NodeID, r: NodeID, right: L.Chain)
    requires T.Inv(s.leaves) && Levels(s) && Touches(s, g, id) && id in s.posted && id in s.leaves.order && id in s.leaves.table && id != r
    requires Finished(s, s.leaves.table[id]) && L.HighBound(s.leaves.table[id]).id == r && r != INVALID_NODE_ID
    requires r in s.leaves.known && r in s.leaves.table && s.leaves.table[r] == L.Remove(r, right)
    requires g.leaves.table == s.leaves.table[id := T.MergeOf(s.leaves.table[id], right)] && g.leaves.known == s.leaves.known
    requires forall x :: x in g.leaves.order <==> x in s.leaves.order && x != r
    ensures Levels(g)
  {
    assert T.FIRST_LEAF_NODE_ID in s.leaves.known && id in s.leaves.known && LeafOK(s, id) && LeafOK(s, r);
    Neighbour(s, id);
    forall k | k in N.Seps(g.root) ensures SepOK(g, k) {
      assert SepOK(s, k);
      if N.Seps(g.root)[k] == r {
        assert Absorbs(g.leaves.table, id, k, r);
      } else {
        SepTouched(s, g, id, k);
      }
    }
    forall x | x in g.leaves.order && x in g.posted ensures HasSep(g, x) { assert HasSep(s, x) && x in s.leaves.known; }
    forall x | x in g.leaves.known ensures LeafOK(g, x) {
      assert LeafOK(s, x);
      if x != id { SeenTouched(s, g, id, s.leaves.table[x]); }
    }
  }

  lemma ThreadsKept(s: State, g: State)
    requires (forall t :: t in s.leaves.threads ==> ThreadOK(s, s.leaves.threads[t])) && g == s.(leaves := g.leaves)
    requires forall t :: t in g.leaves.threads ==>
      !g.leaves.threads[t].Splitting? || ThreadOK(s, g.leaves.threads[t]) || (t in s.leaves.threads && g.leaves.threads[t] == s.leaves.threads[t])
    ensures forall t :: t in g.leaves.threads ==> ThreadOK(g, g.leaves.threads[t])
  {
    forall t | t in g.leaves.threads ensures ThreadOK(g, g.leaves.threads[t]) {
      assert t in s.leaves.threads ==> ThreadOK(s, s.leaves.threads[t]);
    }
  }

  /** Nothing a view or the root relies on changes. */
  lemma IdleLevels(s: State, g: State)
    requires Levels(s) && T.Inv(s.leaves) && Touches(s, g, INVALID_NODE_ID) && g.leaves.order == s.leaves.order && g.leaves.known == s.leaves.known
    requires forall x :: x in s.leaves.table ==> x in g.leaves.table && g.leaves.table[x] == s.leaves.table[x]
    ensures Levels(g)
  {
    forall k | k in N.Seps(g.root) ensures SepOK(g, k) {
      assert SepOK(s, k);
      SepTouched(s, g, INVALID_NODE_ID, k);
    }
    forall x | x in g.leaves.order && x in g.posted ensures HasSep(g, x) { assert HasSep(s, x); }
    forall x | x in g.leaves.known ensures LeafOK(g, x) {
      assert LeafOK(s, x);
      SeenTouched(s, g, INVALID_NODE_ID, s.leaves.table[x]);
    }
  }

  lemma LeafTouches(s: State, t: nat, e: T.Step)
    requires Inv(s) && Enabled(s, OnLeaf(t, e))
    ensures Touches(s, LeafApplied(s, e), Target(s.leaves, e))
    ensures Target(s.leaves, e) != INVALID_NODE_ID ==>
      var id := Target(s.leaves, e); id in s.posted && id in s.leaves.table && Finished(s, s.leaves.table[id])
  {
    assert ViewOK(s, s.views[t]);
    if e.PostSplit? { assert ThreadOK(s, s.leaves.threads[t]) && T.ThreadOK(s.leaves, s.leaves.threads[t]); }
    forall x | x in s.leaves.known ensures x in s.leaves.table && x in T.Apply(s.leaves, e).table
      && L.LowKey(T.Apply(s.leaves, e).table[x]) == L.LowKey(s.leaves.table[x])
    {
      T.LowStable(s.leaves, e, x);
    }
  }

  lemma LeafLevels(s: State, t: nat, e: T.Step)
    requires Inv(s) && Enabled(s, OnLeaf(t, e))
    ensures Levels(LeafApplied(s, e))
  {
    var g := LeafApplied(s, e);
    LeafTouches(s, t, e);
    var id := Target(s.leaves, e);
    if e.InstallSibling? || e.ReadRemoved? || !T.Succeeds(s.leaves, e) {
      IdleLevels(s, g);
    } else if e.PostSplit? {
      var h := s.leaves.threads[t];
      assert T.ThreadOK(s.leaves, h);
      T.LiveInOrder(s.leaves, id);
      T.AfterIds(s.leaves.order, id, h.newId);
      SplitLevels(s, g, id, h.at, h.newId);
    } else if e.PostMerge? {
      var h := s.leaves.threads[t];
      assert T.ThreadOK(s.leaves, h);
      T.LiveInOrder(s.leaves, id);
      T.WithoutIds(s.leaves.order, h.removed);
      MergeLevels(s, g, id, h.removed, h.right);
    } else {
      EntryLevels(s, g, id, T.Offer(s.leaves, e).2);
    }
  }

  lemma LeafAppliedKeeps(s: State, t: nat, e: T.Step)
    requires Inv(s) && Enabled(s, OnLeaf(t, e))
    ensures Inv(LeafApplied(s, e))
  {
    var g := LeafApplied(s, e);
    T.StepCorrect(s.leaves, e);
    LeafLevels(s, t, e);
    forall u | u in g.views ensures ViewOK(g, g.views[u]) {
      assert ViewOK(s, s.views[u]);
      LeafTouches(s, t, e);
      ViewTouched(s, g, Target(s.leaves, e), s.views[u]);
    }
    LeafAppliedThreads(s, t, e);
  }

  lemma LeafAppliedThreads(s: State, t: nat, e: T.Step)
    requires Inv(s) && Enabled(s, OnLeaf(t, e))
    ensures forall u :: u in LeafApplied(s, e).leaves.threads ==> ThreadOK(LeafApplied(s, e), LeafApplied(s, e).leaves.threads[u])
  {
    assert ViewOK(s, s.views[t]);
    ThreadsKept(s, LeafApplied(s, e));
  }

  lemma LeafKeeps(s: State, t: nat, e: T.Step)
    requires Inv(s) && Enabled(s, OnLeaf(t, e))
    ensures Inv(Next(s, OnLeaf(t, e)))
  {
    LeafAppliedKeeps(s, t, e);
    var g, id, v := LeafApplied(s, e), Target(s.leaves, e), s.views[t];
    if id != INVALID_NODE_ID && v.At? && v.id == id && id in g.leaves.table {
      LeafTouches(s, t, e);
      LookKeeps(g, t, v, id);
    }
  }

  /** Every step of every thread, on the root or on a leaf, keeps the invariant of both levels. */
  lemma StepKeepsInv(s: State, e: Step)
    requires Inv(s) && Enabled(s, e)
    ensures Inv(Next(s, e))
  {
    match e
    case ReadRoot(t) => ReadRootKeeps(s, t);
    case Visit(t, k) => VisitPosted(s, t, k); LookKeeps(s, t, s.views[t], N.Seps(s.views[t].root)[k]);
    case GoRight(t) => RightPosted(s, t); LookKeeps(s, t, s.views[t], L.HighBound(s.views[t].leaf).id);
    case Finish(t) => if s.views[t].leaf.Split? { FinishSplitKeeps(s, t); } else { FinishMergeKeeps(s, t); }
    case OnLeaf(t, e) => LeafKeeps(s, t, e);
    case Refresh(n) => RefreshKeeps(s, n);
  }

  // ---------------------------------------------------------------- what finishing achieves

  /**
   Finishing a split from current snapshots posts exactly its separator on the root, with its
   new leaf; the thread then holds the new root and may go on. From an outdated root, or
   finding the separator there, it changes nothing but its own view.
   */
  lemma FinishSplitEffect(s: State, t: nat)
    requires Inv(s) && Enabled(s, Finish(t)) && s.views[t].leaf.Split?
    ensures var g, v := Next(s, Finish(t)), s.views[t]; var k, id := v.leaf.split.key, v.leaf.split.id;
      if k !in N.Seps(v.root) && v.version == s.version then
        && N.Seps(g.root) == N.Seps(s.root)[k := id] && g.posted == s.posted + {id} && g.version > s.version && g.leaves == s.leaves
        && g.views == s.views[t := At(g.version, g.root, v.id, v.leaf, true)]
      else
        && g == s.(views := s.views[t := g.views[t]])
        && g.views[t] == if k in N.Seps(v.root) && N.Seps(v.root)[k] == id then v.(passed := true) else Out
  {
    var v := s.views[t];
    assert ViewOK(s, v);
    if v.leaf.split.key !in N.Seps(v.root) && v.version == s.version {
      SplitNeighbour(s, t);
      InsertWellFormed(s.root, Item(v.leaf.split.key, v.leaf.split.id), L.HighBound(v.leaf.child));
    }
  }

  /**
   Finishing a merge from the current root deletes exactly the merged leaf's separator, if it
   is there, and the thread may go on; an outdated thread changes nothing and starts again.
   */
  lemma FinishMergeEffect(s: State, t: nat)
    requires Inv(s) && Enabled(s, Finish(t)) && s.views[t].leaf.Merge?
    ensures var g, v := Next(s, Finish(t)), s.views[t]; var k := v.leaf.mergeKey;
      if v.version != s.version then g == s.(views := s.views[t := Out])
      else if k !in N.Seps(s.root) then g == s.(views := s.views[t := v.(passed := true)])
      else
        && N.Seps(g.root) == N.Seps(s.root) - {k} && g.posted == s.posted && g.version > s.version && g.leaves == s.leaves
        && g.views == s.views[t := At(g.version, g.root, v.id, v.leaf, true)]
  {
    var v := s.views[t];
    assert ViewOK(s, v);
    if v.version == s.version && v.leaf.mergeKey in N.Seps(s.root) {
      MergeNeighbours(s, t);
      DeleteWellFormed(s.root, Item(v.leaf.mergeKey, v.leaf.deleted), Item(L.LowKey(v.leaf), v.id), L.HighBound(v.leaf.right));
    }
  }

  /** The steps lead from one state to the other. */
  ghost predicate Leads(s: State, steps: seq<Step>, g: State)
    decreases |steps|
  {
    if steps == [] then s == g else Enabled(s, steps[0]) && Leads(Next(s, steps[0]), steps[1..], g)
  }

  lemma LeadsOn(s: State, step: Step, steps: seq<Step>, g: State)
    requires Enabled(s, step) && Leads(Next(s, step), steps, g)
    ensures Leads(s, [step] + steps, g)
  {
    assert ([step] + steps)[1..] == steps;
  }

  lemma {:induction false} LeadsConcat(s: State, a: seq<Step>, m: State, b: seq<Step>, g: State)
    requires Leads(s, a, m) && Leads(m, b, g)
    ensures Leads(s, a + b, g)
    decreases |a|
  {
    if a == [] {
      assert a + b == b;
    } else {
      LeadsConcat(Next(s, a[0]), a[1..], m, b, g);
      assert (a + b)[1..] == a[1..] + b;
    }
  }

  /** One step more. */
  lemma Extend(s: State, steps: seq<Step>, m: State, e: Step)
    requires Leads(s, steps, m) && Inv(m) && Enabled(m, e)
    ensures Leads(s, steps + [e], Next(m, e)) && Inv(Next(m, e))
  {
    StepKeepsInv(m, e);
    LeadsOn(m, e, [], Next(m, e));
    assert [e] + [] == [e];
    LeadsConcat(s, steps, m, [e], Next(m, e));
  }

  /** Reading the root and then a leaf gives current snapshots of both. */
  lemma Looks(s: State, t: nat, x: NodeID) returns (g: State)
    requires Inv(s) && t in s.views && x in s.leaves.order && x in s.posted
    ensures Inv(g) && x in s.leaves.table && Leads(s, [ReadRoot(t), Visit(t, L.LowKey(s.leaves.table[x]))], g)
    ensures var c := s.leaves.table[x];
      g == s.(views := s.views[t := At(s.version, s.root, x, c, !c.Split? && !c.Remove? && !c.Merge?)])
  {
    assert HasSep(s, x);
    var k := L.LowKey(s.leaves.table[x]);
    var a := Next(s, ReadRoot(t));
    StepKeepsInv(s, ReadRoot(t));
    g := Next(a, Visit(t, k));
    StepKeepsInv(a, Visit(t, k));
    LeadsOn(a, Visit(t, k), [], g);
    LeadsOn(s, ReadRoot(t), [Visit(t, k)], g);
    assert [Visit(t, k)] + [] == [Visit(t, k)] && [ReadRoot(t)] + [Visit(t, k)] == [ReadRoot(t), Visit(t, k)];
  }

  /**
   Any split or merge left on top of a leaf can be finished by any thread that starts at the
   root: three steps, undisturbed, and the root has the separator of the new leaf, or lacks
   that of the merged one, and the thread may work on the leaf.
   */
  lemma AnyoneFinishes(s: State, t: nat, x: NodeID) returns (steps: seq<Step>, g: State)
    requires Inv(s) && t in s.views && x in s.leaves.order && x in s.posted && x in s.leaves.table
    requires s.leaves.table[x].Split? || s.leaves.table[x].Merge?
    ensures Leads(s, steps, g) && |steps| == 3 && Inv(g) && g.leaves == s.leaves && t in g.views && Holds(g.views[t], x, s.leaves.table[x])
    ensures var c := s.leaves.table[x];
      if c.Split? then N.Seps(g.root) == N.Seps(s.root)[c.split.key := c.split.id] else N.Seps(g.root) == N.Seps(s.root) - {c.mergeKey}
  {
    var a := Looks(s, t, x);
    FinishesHere(a, t, x);
    var k := L.LowKey(s.leaves.table[x]);
    Extend(s, [ReadRoot(t), Visit(t, k)], a, Finish(t));
    steps, g := [ReadRoot(t), Visit(t, k)] + [Finish(t)], Next(a, Finish(t));
  }

  /** With current snapshots of both, finishing succeeds. */
  lemma FinishesHere(s: State, t: nat, x: NodeID)
    requires Inv(s) && t in s.views && x in s.leaves.order && x in s.leaves.table && (s.leaves.table[x].Split? || s.leaves.table[x].Merge?)
    requires s.views[t] == At(s.version, s.root, x, s.leaves.table[x], false)
    ensures Enabled(s, Finish(t)) && var g, c := Next(s, Finish(t)), s.leaves.table[x];
      && g.leaves == s.leaves && t in g.views && Holds(g.views[t], x, c)
      && if c.Split? then N.Seps(g.root) == N.Seps(s.root)[c.split.key := c.split.id] else N.Seps(g.root) == N.Seps(s.root) - {c.mergeKey}
  {
    if s.leaves.table[x].Split? {
      SplitKnown(s, x);
      FinishSplitEffect(s, t);
    } else {
      FinishMergeEffect(s, t);
    }
  }

  /** A split's key is in the root only with its own new leaf. */
  lemma SplitKnown(s: State, x: NodeID)
    requires T.Inv(s.leaves) && Levels(s) && x in s.leaves.order && x in s.leaves.table && s.leaves.table[x].Split?
    ensures var c := s.leaves.table[x]; c.split.key in N.Seps(s.root) ==> N.Seps(s.root)[c.split.key] == c.split.id
  {
    var c := s.leaves.table[x];
    CoversLow(s, x);
    Neighbour(s, x);
    if c.split.key in N.Seps(s.root) {
      var l := SepCover(s, c.split.key);
      CoversLow(s, c.split.id);
      OneLeaf(s.leaves.table, s.leaves.order, l, c.split.id, c.split.key);
    }
  }

  // ---------------------------------------------------------------- every run

  /** The empty tree: a root whose only child is the first leaf. */
  ghost function Init(low: Key, threads: set<nat>): State {
    State(T.Init(low, threads), N.Base([Item(low, T.FIRST_LEAF_NODE_ID)], Bound(0, INVALID_NODE_ID)), 0,
          {T.FIRST_LEAF_NODE_ID}, map t | t in threads :: Out)
  }

  lemma InitRoot(low: Key, threads: set<nat>)
    ensures var r := Init(low, threads).root; N.WellFormed(r) && N.Seps(r) == map[low := T.FIRST_LEAF_NODE_ID]
  {
    var items := [Item(low, T.FIRST_LEAF_NODE_ID)];
    assert items[..0] == [] && MapOf([]) == map[];
  }

  lemma InitLeaves(low: Key, threads: set<nat>)
    ensures T.Inv(T.Init(low, threads)) && T.Map(T.Init(low, threads)) == map[]
  {
    var l := T.Init(low, threads);
    T.LinkedOne(l.table, T.FIRST_LEAF_NODE_ID);
    assert L.Contents(l.table[T.FIRST_LEAF_NODE_ID]) == map[];
  }

  lemma InitInv(low: Key, threads: set<nat>)
    ensures Inv(Init(low, threads)) && T.Map(Init(low, threads).leaves) == map[]
  {
    var s := Init(low, threads);
    InitRoot(low, threads);
    InitLeaves(low, threads);
    assert HasSep(s, T.FIRST_LEAF_NODE_ID) && SepOK(s, low) && LeafOK(s, T.FIRST_LEAF_NODE_ID);
  }

  ghost predicate IsRun(s: State, steps: seq<Step>)
    decreases |steps|
  {
    steps == [] || (Enabled(s, steps[0]) && IsRun(Next(s, steps[0]), steps[1..]))
  }

  ghost function Run(s: State, steps: seq<Step>): State
    requires IsRun(s, steps)
    decreases |steps|
  {
    if steps == [] then s else Run(Next(s, steps[0]), steps[1..])
  }

  /** The data records that took effect. */
  ghost function RunLog(s: State, steps: seq<Step>): seq<Record>
    requires IsRun(s, steps)
    decreases |steps|
  {
    if steps == [] then []
    else Logged(s, steps[0]) + RunLog(Next(s, steps[0]), steps[1..])
  }

  ghost function Logged(s: State, e: Step): seq<Record>
    requires Enabled(s, e)
  {
    if e.OnLeaf? then T.Logged(s.leaves, e.e) else []
  }

  /** A step changes the map by the data record it makes take effect, if any. */
  lemma StepMap(s: State, e: Step)
    requires Inv(s) && Enabled(s, e)
    ensures T.Map(Next(s, e).leaves) == T.ReplayLog(T.Map(s.leaves), Logged(s, e))
  {
    if e.OnLeaf? { T.StepCorrect(s.leaves, e.e); }
  }

  /** Both levels over every run: the invariant holds, and the map is the replay of the data records that took effect. */
  lemma {:induction false} RunCorrect(s: State, steps: seq<Step>)
    requires Inv(s) && IsRun(s, steps)
    ensures Inv(Run(s, steps)) && T.Map(Run(s, steps).leaves) == T.ReplayLog(T.Map(s.leaves), RunLog(s, steps))
    decreases |steps|
  {
    if steps != [] {
      var e := steps[0];
      StepKeepsInv(s, e);
      RunCorrect(Next(s, e), steps[1..]);
      StepMap(s, e);
      T.ReplayConcat(T.Map(s.leaves), Logged(s, e), RunLog(Next(s, e), steps[1..]));
    }
  }

  /** From the empty tree, every run keeps both levels consistent and yields the map of its data records. */
  lemma FromEmpty(low: Key, threads: set<nat>, steps: seq<Step>)
    requires IsRun(Init(low, threads), steps)
    ensures var g := Run(Init(low, threads), steps);
      Inv(g) && T.Map(g.leaves) == T.ReplayLog(map[], RunLog(Init(low, threads), steps))
  {
    InitInv(low, threads);
    RunCorrect(Init(low, threads), steps);
  }

  /** A thread's snapshots always lead to existing leaves, and its root snapshot can be searched. */
  lemma NeverStuck(s: State, t: nat, k: Key)
    requires Inv(s) && t in s.views && !s.views[t].Out?
    ensures k in N.Seps(s.views[t].root) ==> Enabled(s, Visit(t, k))
    ensures s.views[t].At? && s.views[t].passed && L.HighBound(s.views[t].leaf).id != INVALID_NODE_ID ==> Enabled(s, GoRight(t))
    ensures s.views[t].At? && !s.views[t].passed && (s.views[t].leaf.Split? || s.views[t].leaf.Merge?) ==> Enabled(s, Finish(t))
  {
    assert ViewOK(s, s.views[t]);
  }

  // ---------------------------------------------------------------- searching from the root

  /** A key is not past a leaf that ends above the key's separator, if the leaf's right neighbour has a separator. */
  lemma NotPast(s: State, x: NodeID, key: Key, f: Key)
    requires T.Inv(s.leaves) && Levels(s) && x in s.leaves.order && x in s.leaves.table && R.IsFloor(N.Seps(s.root), key, f)
    requires Below(f, L.HighBound(s.leaves.table[x])) && Known(s.posted, L.HighBound(s.leaves.table[x]).id)
    ensures Below(key, L.HighBound(s.leaves.table[x]))
  {
    var b := L.HighBound(s.leaves.table[x]);
    if b.id != INVALID_NODE_ID {
      Neighbour(s, x);
      assert HasSep(s, b.id);
    }
  }

  /** The leaf a key belongs to, as seen from the child that the root routes it to. */
  ghost predicate Reached(s: State, id: NodeID, leaf: NodeID) {
    || leaf == id
    || (id in s.leaves.table && s.leaves.table[id].Split? && s.leaves.table[id].split.id == leaf && leaf !in s.posted)
    || (id !in s.leaves.order && leaf in s.leaves.table && s.leaves.table[leaf].Merge? && s.leaves.table[leaf].deleted == id)
  }

  /**
   In every state, a key that the root routes to a child belongs to that child's leaf, or to
   the sibling of its split that the root does not have yet, or to the leaf that has taken
   the child in and not yet had its separator deleted. That leaf answers for the whole map.
   */
  lemma RootFindsLeaf(s: State, key: Key, id: NodeID) returns (leaf: NodeID)
    requires Inv(s) && R.Routes(s.root, key, id)
    ensures leaf in s.leaves.order && leaf in s.leaves.table && L.InRange(key, s.leaves.table[leaf]) && Reached(s, id, leaf)
    ensures Lookup(L.Contents(s.leaves.table[leaf]), key) == Lookup(T.Map(s.leaves), key)
  {
    var f :| R.IsFloor(N.Seps(s.root), key, f) && N.Seps(s.root)[f] == id;
    leaf := SepCover(s, f);
    var c := s.leaves.table[leaf];
    assert LeafOK(s, leaf) && SepOK(s, f);
    if id in s.leaves.order {
      CoversLow(s, id);
      OneLeaf(s.leaves.table, s.leaves.order, leaf, id, f);
    }
    if c.Split? && c.split.id !in s.posted && !Below(key, c.split) {
      PendingSibling(s, leaf);
      leaf := c.split.id;
      CoversLow(s, leaf);
      NotPast(s, leaf, key, f);
    } else if !(c.Split? && c.split.id !in s.posted) {
      NotPast(s, leaf, key, f);
    }
    T.LeafAnswers(s.leaves, leaf, key);
  }

  /** A thread that starts at the root looks at a live leaf and has finished whatever was left to do on it. */
  lemma LooksAndFinishes(s: State, t: nat, x: NodeID) returns (steps: seq<Step>, g: State)
    requires Inv(s) && t in s.views && x in s.leaves.order && x in s.posted && x in s.leaves.table && !s.leaves.table[x].Remove?
    ensures Leads(s, steps, g) && Inv(g) && g.leaves == s.leaves && t in g.views && Holds(g.views[t], x, s.leaves.table[x])
  {
    var c := s.leaves.table[x];
    if c.Split? || c.Merge? {
      steps, g := AnyoneFinishes(s, t, x);
    } else {
      g := Looks(s, t, x);
      steps := [ReadRoot(t), Visit(t, L.LowKey(c))];
    }
  }

  /**
   A search that runs alone, if the child the root routes its key to is not being removed,
   ends on the leaf of the key, with nothing left to finish there, and the leaves untouched.
   */
  lemma SearchAlone(s: State, t: nat, key: Key, id: NodeID) returns (steps: seq<Step>, g: State, x: NodeID)
    requires Inv(s) && t in s.views && R.Routes(s.root, key, id) && id in s.leaves.table && !s.leaves.table[id].Remove?
    ensures Leads(s, steps, g) && Inv(g) && g.leaves == s.leaves && x in s.leaves.order && x in s.leaves.table && L.InRange(key, s.leaves.table[x])
    ensures t in g.views && Holds(g.views[t], x, s.leaves.table[x])
  {
    var f :| R.IsFloor(N.Seps(s.root), key, f) && N.Seps(s.root)[f] == id;
    assert SepOK(s, f);
    T.LiveInOrder(s.leaves, id);
    x := RootFindsLeaf(s, key, id);
    steps, g := LooksAndFinishes(s, t, id);
    if x != id {
      PendingSibling(s, id);
      GoesRight(g, t, id, x);
      Extend(s, steps, g, GoRight(t));
      steps, g := steps + [GoRight(t)], Next(g, GoRight(t));
    }
  }

  /** From a leaf with nothing left to finish, a thread goes to the base right of it. */
  lemma GoesRight(s: State, t: nat, id: NodeID, x: NodeID)
    requires Inv(s) && t in s.views && id in s.leaves.table && Holds(s.views[t], id, s.leaves.table[id])
    requires L.HighBound(s.leaves.table[id]).id == x && x in s.leaves.order && x in s.leaves.table && s.leaves.table[x].Base?
    ensures Enabled(s, GoRight(t)) && var g := Next(s, GoRight(t)); g.leaves == s.leaves && t in g.views && Holds(g.views[t], x, s.leaves.table[x])
  {
    assert x in s.leaves.known;
  }

  /** A thread that holds the leaf of a key can upsert it there. */
  lemma UpsertsHere(s: State, t: nat, x: NodeID, key: Key, value: Value) returns (e: Step)
    requires Inv(s) && t in s.views && x in s.leaves.order && x in s.leaves.table && L.InRange(key, s.leaves.table[x])
    requires Holds(s.views[t], x, s.leaves.table[x])
    ensures Enabled(s, e) && T.Map(Next(s, e).leaves) == T.Map(s.leaves)[key := value]
  {
    assert ViewOK(s, s.views[t]);
    T.UpsertNow(s.leaves, x, key, value);
    var c := s.leaves.table[x];
    e := OnLeaf(t, T.PostData(x, c, T.RecordFor(c, if key in T.Map(s.leaves) then Update else Insert, key, value)));
  }

  /** And delete it, if it is there. */
  lemma DeletesHere(s: State, t: nat, x: NodeID, key: Key) returns (e: Step)
    requires Inv(s) && t in s.views && x in s.leaves.order && x in s.leaves.table && L.InRange(key, s.leaves.table[x])
    requires Holds(s.views[t], x, s.leaves.table[x]) && key in T.Map(s.leaves)
    ensures Enabled(s, e) && T.Map(Next(s, e).leaves) == T.Map(s.leaves) - {key}
  {
    assert ViewOK(s, s.views[t]);
    T.DeleteNow(s.leaves, x, key);
    var c := s.leaves.table[x];
    e := OnLeaf(t, T.PostData(x, c, T.RecordFor(c, Delete, key, 0)));
  }

  /** While no leaf has a split or merge on top, the separators of the root are exactly the low keys of the linked leaves. */
  lemma QuietSeps(s: State)
    requires Inv(s) && forall x :: x in s.leaves.order && x in s.leaves.table ==> !s.leaves.table[x].Split? && !s.leaves.table[x].Merge?
    ensures forall k, id :: (k in N.Seps(s.root) && N.Seps(s.root)[k] == id) <==> (id in s.leaves.order && id in s.leaves.table && L.LowKey(s.leaves.table[id]) == k)
  {
    forall id | id in s.leaves.order ensures id in s.posted { AllPosted(s, s.leaves.order, id); }
    forall id | id in s.leaves.order ensures HasSep(s, id) {}
    forall k | k in N.Seps(s.root) ensures SepOK(s, k) {}
  }

  lemma {:induction false} AllPosted(s: State, o: seq<NodeID>, id: NodeID)
    requires Inv(s) && T.Linked(s.leaves.table, o) && o[0] in s.posted && id in o
    requires forall x :: x in o ==> x in s.leaves.known && x in s.leaves.table && !s.leaves.table[x].Split?
    ensures id in s.posted
  {
    if id != o[0] {
      assert LeafOK(s, o[0]);
      AllPosted(s, o[1..], id);
    }
  }
}
