/**
 The leaf level of the Bw-tree as a step machine over the mapping table.

 Every change of a published leaf is one compare-and-swap of its table entry against a
 snapshot taken earlier; a failed one changes nothing. A split first stores the new
 sibling under a new id; a merge first reads the removed leaf's contents. Between its
 two steps a thread may be overtaken by any steps of other threads.
 */
module BwMappingTable {
  import opened BwItems
  import opened BwLeafChain

  /** The id of the leftmost leaf, which is never removed. */
  const FIRST_LEAF_NODE_ID: NodeID := 2

  /** What a thread carries between the two steps of a split or a merge. */
  datatype Thread =
    | Idle
    | Splitting(node: NodeID, snapshot: Chain, at: nat, newId: NodeID)
    | Merging(removed: NodeID, right: Chain)

  /**
   `order` and `known` are auxiliary: the leaves in link order, and every leaf ever
   linked. `known` keeps the ids of merged leaves.
   */
  datatype State = State(table: map<NodeID, Chain>, order: seq<NodeID>, known: set<NodeID>, threads: map<nat, Thread>)

  datatype Step =
    | PostData(id: NodeID, snapshot: Chain, rec: Record)
    | Consolidate(id: NodeID, snapshot: Chain, node: Chain)
    | InstallSibling(t: nat, id: NodeID, snapshot: Chain, at: nat, newId: NodeID)
    | PostSplit(t: nat)
    | PostRemove(id: NodeID, snapshot: Chain)
    | ReadRemoved(t: nat, id: NodeID)
    | PostMerge(t: nat, left: NodeID, snapshot: Chain)

  /** The split sibling: the items from the split point on, under the old high key. */
  function Sibling(base: Chain, at: nat): Chain
    requires base.Base? && at < |base.items|
  {
    Base(base.items[at].key, base.items[at..], base.bound)
  }

  function SplitOf(base: Chain, at: nat, newId: NodeID): Chain
    requires base.Base? && at < |base.items|
  {
    Split(Bound(base.items[at].key, newId), |base.items| - at, base)
  }

  predicate CanSplit(c: Chain, at: nat) {
    c.Base? && 0 < at < |c.items|
  }

  const LEAF_NODE_SIZE_LOWER_THRESHOLD := 16

  predicate Ascending(items: seq<Item>) {
    forall i, j :: 0 <= i < j < |items| ==> items[i].key <= items[j].key
  }

  /**
   The split point: the start of the run of items that share the middle key, or the end
   of that run, whichever leaves enough items. It never separates equal keys; with
   unique keys it is the middle.
   */
  method FindSplitPoint(items: seq<Item>) returns (at: int)
    requires Ascending(items) && |items| / 2 > 1
    ensures at != -1 ==> 0 < at < |items| && items[at - 1].key < items[at].key
    ensures at != -1 ==> at > LEAF_NODE_SIZE_LOWER_THRESHOLD || |items| - at > LEAF_NODE_SIZE_LOWER_THRESHOLD
    ensures Sorted(items) ==> at == if |items| / 2 > LEAF_NODE_SIZE_LOWER_THRESHOLD then |items| / 2 else -1
  {
    var central := |items| / 2;
    var it := central - 1;
    while it != 0 && items[it].key == items[central].key
      invariant 0 <= it < central && items[it + 1].key == items[central].key
      invariant Sorted(items) ==> it == central - 1
    {
      it := it - 1;
    }
    it := it + 1;
    if it > LEAF_NODE_SIZE_LOWER_THRESHOLD {
      return it;
    }
    it := central + 1;
    while it != |items| && items[it].key == items[central].key
      invariant central < it <= |items| && items[it - 1].key == items[central].key
      invariant Sorted(items) ==> it == central + 1
    {
      it := it + 1;
    }
    return if |items| - it > LEAF_NODE_SIZE_LOWER_THRESHOLD then it else -1;
  }

  /** What a thread checks, on its snapshots alone, before it attempts a step. */
  ghost predicate Enabled(s: State, e: Step) {
    match e
    case PostData(id, c, r) => id in s.known && WellFormed(c) && CanPost(c, r)
    case Consolidate(id, c, n) =>
      id in s.known && WellFormed(c) && !c.Remove? && n.Base? && WellFormed(n)
      && Contents(n) == Contents(c) && LowKey(n) == LowKey(c) && HighBound(n) == HighBound(c)
    case InstallSibling(t, id, c, at, f) =>
      t in s.threads && s.threads[t].Idle? && id in s.known && WellFormed(c) && CanSplit(c, at)
      && f !in s.table && f != INVALID_NODE_ID
    case PostSplit(t) => t in s.threads && s.threads[t].Splitting? && CanSplit(s.threads[t].snapshot, s.threads[t].at)
    case PostRemove(id, c) => id in s.known && id != FIRST_LEAF_NODE_ID && c.Base?
    case ReadRemoved(t, id) => t in s.threads && s.threads[t].Idle? && id in s.known && id in s.table && s.table[id].Remove?
    case PostMerge(t, l, c) =>
      t in s.threads && s.threads[t].Merging? && l in s.known && WellFormed(c) && !c.Remove?
      && HighBound(c).id == s.threads[t].removed
  }

  /** The new entry a step offers in exchange for its snapshot. */
  ghost function Offer(s: State, e: Step): (NodeID, Chain, Chain)
    requires Enabled(s, e) && !e.InstallSibling? && !e.ReadRemoved?
  {
    match e
    case PostData(id, c, r) => (id, c, Data(r, c))
    case Consolidate(id, c, n) => (id, c, n)
    case PostSplit(t) => var h := s.threads[t]; (h.node, h.snapshot, SplitOf(h.snapshot, h.at, h.newId))
    case PostRemove(id, c) => (id, c, Remove(id, c))
    case PostMerge(t, l, c) => (l, c, MergeOf(c, s.threads[t].right))
  }

  ghost predicate Succeeds(s: State, e: Step)
    requires Enabled(s, e) && !e.InstallSibling? && !e.ReadRemoved?
  {
    var (id, old_, _) := Offer(s, e);
    id in s.table && s.table[id] == old_
  }

  /** One step; the auxiliary link order follows a successful split or merge. */
  ghost function Apply(s: State, e: Step): State
    requires Enabled(s, e)
  {
    if e.InstallSibling? then
      s.(table := s.table[e.newId := Sibling(e.snapshot, e.at)],
         threads := s.threads[e.t := Splitting(e.id, e.snapshot, e.at, e.newId)])
    else if e.ReadRemoved? then s.(threads := s.threads[e.t := Merging(e.id, s.table[e.id].child)])
    else
      var (id, _, new_) := Offer(s, e);
      var done := Succeeds(s, e);
      var table := if done then s.table[id := new_] else s.table;
      if e.PostSplit? then
        var f := s.threads[e.t].newId;
        State(table, if done then After(s.order, id, f) else s.order, if done then s.known + {f} else s.known,
              s.threads[e.t := Idle])
      else if e.PostMerge? then
        State(table, if done then Without(s.order, s.threads[e.t].removed) else s.order, s.known, s.threads[e.t := Idle])
      else s.(table := table)
  }

  function After(o: seq<NodeID>, id: NodeID, f: NodeID): seq<NodeID> {
    if o == [] then [] else if o[0] == id then [id, f] + o[1..] else [o[0]] + After(o[1..], id, f)
  }

  function Without(o: seq<NodeID>, id: NodeID): seq<NodeID> {
    if o == [] then [] else if o[0] == id then o[1..] else [o[0]] + Without(o[1..], id)
  }

  // ---------------------------------------------------------------- invariant

  predicate DistinctIds(o: seq<NodeID>) {
    forall i, j :: 0 <= i < j < |o| ==> o[i] != o[j]
  }

  /** The leaves from the first on: well formed, each ending where its right sibling starts. */
  ghost predicate Linked(table: map<NodeID, Chain>, o: seq<NodeID>) {
    && o != [] && o[0] in table && WellFormed(table[o[0]])
    && if |o| == 1 then HighBound(table[o[0]]).id == INVALID_NODE_ID
       else Linked(table, o[1..]) && o[1] != INVALID_NODE_ID && HighBound(table[o[0]]) == Bound(LowKey(table[o[1]]), o[1])
  }

  ghost predicate ThreadOK(s: State, h: Thread) {
    match h
    case Idle => true
    case Splitting(id, c, at, f) =>
      id in s.known && WellFormed(c) && CanSplit(c, at) && f != INVALID_NODE_ID
      && f in s.table && f !in s.known && s.table[f] == Sibling(c, at)
    case Merging(id, r) => id in s.known && id in s.table && s.table[id] == Remove(id, r)
  }

  /** The links, and that only linked leaves accept changes. */
  ghost predicate Shape(table: map<NodeID, Chain>, o: seq<NodeID>, known: set<NodeID>) {
    && Linked(table, o) && DistinctIds(o) && o[0] == FIRST_LEAF_NODE_ID
    && known <= table.Keys && INVALID_NODE_ID !in known && (forall id :: id in o ==> id in known)
    && (forall id :: id in known && id !in o ==> table[id].Remove?)
    && (forall id :: id in known && table[id].Remove? ==> table[id].removed == id && id != FIRST_LEAF_NODE_ID)
  }

  ghost predicate ThreadsOK(s: State) {
    && (forall t :: t in s.threads ==> ThreadOK(s, s.threads[t]))
    && (forall t, u :: t in s.threads && u in s.threads && t != u && s.threads[t].Splitting? && s.threads[u].Splitting?
          ==> s.threads[t].newId != s.threads[u].newId)
  }

  ghost predicate Inv(s: State) {
    Shape(s.table, s.order, s.known) && ThreadsOK(s)
  }

  /** The map read by following next-node ids from the first leaf. */
  ghost function Collect(table: map<NodeID, Chain>, o: seq<NodeID>): map<Key, Value>
  {
    if o == [] || o[0] !in table then map[] else Contents(table[o[0]]) + Collect(table, o[1..])
  }

  // ---------------------------------------------------------------- the list of leaves

  lemma {:induction false} LinkedIn(table: map<NodeID, Chain>, o: seq<NodeID>)
    requires Linked(table, o)
    ensures forall id :: id in o ==> id in table && WellFormed(table[id])
  {
    if |o| > 1 {
      LinkedIn(table, o[1..]);
    }
  }

  /** Keys of a list of leaves are not below the first leaf's low key. */
  lemma {:induction false} CollectFrom(table: map<NodeID, Chain>, o: seq<NodeID>)
    requires Linked(table, o)
    ensures forall k :: k in Collect(table, o) ==> LowKey(table[o[0]]) <= k
  {
    KeysInRange(table[o[0]]);
    if |o| > 1 {
      CollectFrom(table, o[1..]);
    }
  }

  /** Leaves further right start further right. */
  lemma {:induction false} LowOrder(table: map<NodeID, Chain>, o: seq<NodeID>, id: NodeID)
    requires Linked(table, o) && id in o
    ensures id in table && LowKey(table[o[0]]) <= LowKey(table[id])
    ensures id != o[0] ==> |o| > 1 && HighBound(table[o[0]]).key <= LowKey(table[id])
  {
    KeysInRange(table[o[0]]);
    if id != o[0] {
      LowOrder(table, o[1..], id);
    }
  }

  lemma {:induction false} Frame(table: map<NodeID, Chain>, o: seq<NodeID>, id: NodeID, c: Chain)
    requires Linked(table, o) && id !in o
    ensures Linked(table[id := c], o) && Collect(table[id := c], o) == Collect(table, o)
  {
    if |o| > 1 {
      Frame(table, o[1..], id, c);
    }
  }

  lemma AppliedLeft(m: map<Key, Value>, n: map<Key, Value>, r: Record)
    requires r.item.key !in n
    ensures Applied(m, r) + n == Applied(m + n, r)
  {
  }

  lemma AppliedRight(m: map<Key, Value>, n: map<Key, Value>, r: Record)
    requires r.item.key !in m
    ensures m + Applied(n, r) == Applied(m + n, r)
  {
  }

  /** Replacing an entry by one of the same range keeps the links. */
  lemma {:induction false} Replace(table: map<NodeID, Chain>, o: seq<NodeID>, id: NodeID, c: Chain)
    requires Linked(table, o) && DistinctIds(o) && id in o && id in table
    requires WellFormed(c) && LowKey(c) == LowKey(table[id]) && HighBound(c) == HighBound(table[id])
    ensures Linked(table[id := c], o)
    ensures Contents(c) == Contents(table[id]) ==> Collect(table[id := c], o) == Collect(table, o)
  {
    if o[0] == id {
      if |o| > 1 {
        Frame(table, o[1..], id, c);
      }
    } else {
      Replace(table, o[1..], id, c);
    }
  }

  /** Posting a data record changes the map by exactly that record. */
  lemma {:induction false} ReplaceData(table: map<NodeID, Chain>, o: seq<NodeID>, id: NodeID, c: Chain)
    requires Linked(table, o) && DistinctIds(o) && id in o && id in table
    requires WellFormed(c) && c.Data? && c.child == table[id]
    ensures Collect(table[id := c], o) == Applied(Collect(table, o), c.rec)
  {
    if o[0] == id {
      if |o| > 1 {
        Frame(table, o[1..], id, c);
        CollectFrom(table, o[1..]);
        AppliedLeft(Contents(c.child), Collect(table, o[1..]), c.rec);
      }
    } else {
      ReplaceData(table, o[1..], id, c);
      KeysInRange(table[o[0]]);
      LowOrder(table, o, id);
      AppliedRight(Contents(table[o[0]]), Collect(table, o[1..]), c.rec);
    }
  }

  /** A split distributes a base over the shortened node and its sibling. */
  lemma SplitParts(c: Chain, at: nat, f: NodeID)
    requires WellFormed(c) && CanSplit(c, at) && f != INVALID_NODE_ID
    ensures var l, r := SplitOf(c, at, f), Sibling(c, at);
      && WellFormed(l) && WellFormed(r) && LowKey(l) == LowKey(c) && HighBound(r) == HighBound(c)
      && HighBound(l) == Bound(LowKey(r), f) && Contents(l) + Contents(r) == Contents(c)
  {
    SplitContents(c, at, f);
    SortedSlice(c.items, at, |c.items|);
    assert c.items[at..|c.items|] == c.items[at..];
    assert c.items[0].key < c.items[at].key;
  }

  lemma SplitContents(c: Chain, at: nat, f: NodeID)
    requires WellFormed(c) && CanSplit(c, at) && f != INVALID_NODE_ID
    ensures LowerBound(c.items, c.items[at].key) == at
    ensures Contents(SplitOf(c, at, f)) + Contents(Sibling(c, at)) == Contents(c)
  {
    ItemsCut(c.items, at, f);
  }

  lemma BoundAt(items: seq<Item>, at: nat)
    requires Sorted(items) && at < |items|
    ensures LowerBound(items, items[at].key) == at
  {
    LowerBoundUnique(items, items[at].key, at);
  }

  lemma ItemsCut(items: seq<Item>, at: nat, f: NodeID)
    requires Sorted(items) && at < |items| && f != INVALID_NODE_ID
    ensures LowerBound(items, items[at].key) == at
    ensures Restrict(MapOf(items), Bound(items[at].key, f)) + MapOf(items[at..]) == MapOf(items)
  {
    var k := items[at].key;
    BoundAt(items, at);
    assert Restrict(MapOf(items), Bound(k, f)) == MapOf(items[..at]) by { MapOfPrefix(items, Bound(k, f)); }
    assert MapOf(items) == MapOf(items[..at]) + MapOf(items[at..]) by {
      assert items == items[..at] + items[at..];
      MapOfConcat(items[..at], items[at..]);
    }
  }

  lemma LinkedCons(table: map<NodeID, Chain>, x: NodeID, t: seq<NodeID>)
    requires x in table && WellFormed(table[x]) && Linked(table, t)
    requires t[0] != INVALID_NODE_ID && HighBound(table[x]) == Bound(LowKey(table[t[0]]), t[0])
    ensures Linked(table, [x] + t) && Collect(table, [x] + t) == Contents(table[x]) + Collect(table, t)
  {
    assert ([x] + t)[1..] == t;
  }

  lemma LinkedOne(table: map<NodeID, Chain>, x: NodeID)
    requires x in table && WellFormed(table[x]) && HighBound(table[x]).id == INVALID_NODE_ID
    ensures Linked(table, [x]) && Collect(table, [x]) == Contents(table[x])
  {
  }

  /** The sibling takes the node's place in front of the leaves to its right. */
  lemma SplitTail(table: map<NodeID, Chain>, id: NodeID, t: seq<NodeID>, f: NodeID, left: Chain)
    requires id in table && f in table && WellFormed(table[f]) && HighBound(table[f]) == HighBound(table[id]) && f != id
    requires Linked(table, [id] + t) && id !in t
    ensures Linked(table[id := left], [f] + t)
    ensures Collect(table[id := left], [f] + t) == Contents(table[f]) + Collect(table, t)
  {
    var table' := table[id := left];
    assert ([id] + t)[1..] == t;
    if t == [] {
      LinkedOne(table', f);
      assert [f] + t == [f];
    } else {
      Frame(table, t, id, left);
      LinkedCons(table', f, t);
    }
  }

  lemma SplitHead(table: map<NodeID, Chain>, o: seq<NodeID>, at: nat, f: NodeID)
    requires Linked(table, o) && o[0] !in o[1..] && f !in o && f != INVALID_NODE_ID
    requires CanSplit(table[o[0]], at) && f in table && table[f] == Sibling(table[o[0]], at)
    ensures var table', o' := table[o[0] := SplitOf(table[o[0]], at, f)], [o[0]] + ([f] + o[1..]);
      Linked(table', o') && Collect(table', o') == Collect(table, o)
  {
    var id, t := o[0], o[1..];
    var left := SplitOf(table[id], at, f);
    SplitParts(table[id], at, f);
    assert o == [id] + t;
    SplitTail(table, id, t, f, left);
    LinkedCons(table[id := left], id, [f] + t);
    MapRegroup(Contents(left), Contents(table[f]), Collect(table, t));
  }

  lemma MapRegroup(a: map<Key, Value>, b: map<Key, Value>, c: map<Key, Value>)
    ensures a + (b + c) == (a + b) + c
  {
  }

  /** A successful split links the sibling right after the node and keeps the map. */
  lemma {:induction false} ReplaceSplit(table: map<NodeID, Chain>, o: seq<NodeID>, id: NodeID, at: nat, f: NodeID)
    requires Linked(table, o) && DistinctIds(o) && id in o && id in table && f !in o && f != INVALID_NODE_ID
    requires WellFormed(table[id]) && CanSplit(table[id], at) && f in table && table[f] == Sibling(table[id], at)
    ensures var table', o' := table[id := SplitOf(table[id], at, f)], After(o, id, f);
      && o' != [] && o'[0] == o[0] && LowKey(table'[o[0]]) == LowKey(table[o[0]])
      && Linked(table', o') && Collect(table', o') == Collect(table, o)
  {
    if o[0] == id {
      SplitHead(table, o, at, f);
      assert [id, f] + o[1..] == [id] + ([f] + o[1..]);
    } else {
      ReplaceSplit(table, o[1..], id, at, f);
      LinkedCons(table[id := SplitOf(table[id], at, f)], o[0], After(o[1..], id, f));
    }
  }

  lemma DistinctCons(x: NodeID, t: seq<NodeID>)
    requires DistinctIds(t) && x !in t
    ensures DistinctIds([x] + t)
  {
  }

  lemma {:induction false} AfterIds(o: seq<NodeID>, id: NodeID, f: NodeID)
    requires DistinctIds(o) && id in o && f !in o
    ensures DistinctIds(After(o, id, f))
    ensures forall i :: i in After(o, id, f) <==> i in o || i == f
  {
    assert o == [o[0]] + o[1..];
    if o[0] == id {
      DistinctCons(f, o[1..]);
      DistinctCons(id, [f] + o[1..]);
      assert [id, f] + o[1..] == [id] + ([f] + o[1..]);
    } else {
      AfterIds(o[1..], id, f);
      DistinctCons(o[0], After(o[1..], id, f));
    }
  }

  lemma {:induction false} WithoutIds(o: seq<NodeID>, id: NodeID)
    requires DistinctIds(o)
    ensures DistinctIds(Without(o, id))
    ensures forall i :: i in Without(o, id) <==> i in o && i != id
  {
    if o != [] {
      assert o == [o[0]] + o[1..];
      WithoutIds(o[1..], id);
      if o[0] != id {
        DistinctCons(o[0], Without(o[1..], id));
      }
    }
  }

  /** The right neighbour a leaf names is the next one in link order. */
  lemma {:induction false} NextInOrder(table: map<NodeID, Chain>, o: seq<NodeID>, id: NodeID)
    requires Linked(table, o) && id in o && id in table && HighBound(table[id]).id != INVALID_NODE_ID
    ensures |o| > 1 && HighBound(table[id]).id in o[1..]
  {
    if o[0] != id {
      NextInOrder(table, o[1..], id);
    }
  }

  function MergeOf(left: Chain, right: Chain): Chain {
    Merge(HighBound(left).key, HighBound(left).id, right, left)
  }

  /** A leaf with its removed right neighbour merged in covers both ranges and both maps. */
  lemma MergedChain(c: Chain, r: Chain, id: NodeID)
    requires WellFormed(c) && WellFormed(r) && !c.Remove? && r.Remove? && id != INVALID_NODE_ID && HighBound(c) == Bound(LowKey(r), id)
    ensures var m := MergeOf(c, r.child);
      WellFormed(m) && Contents(m) == Contents(c) + Contents(r) && LowKey(m) == LowKey(c) && HighBound(m) == HighBound(r)
  {
  }

  /** The merged chain takes the removed leaf's place in front of the leaves to its right. */
  lemma MergeTail(table: map<NodeID, Chain>, id: NodeID, x: NodeID, t: seq<NodeID>, merged: Chain)
    requires x in table && Linked(table, [x] + t) && id !in t && WellFormed(merged) && HighBound(merged) == HighBound(table[x])
    ensures Linked(table[id := merged], [id] + t)
    ensures Collect(table[id := merged], [id] + t) == Contents(merged) + Collect(table, t)
  {
    var table' := table[id := merged];
    assert ([x] + t)[1..] == t;
    if t == [] {
      LinkedOne(table', id);
      assert [id] + t == [id];
    } else {
      Frame(table, t, id, merged);
      LinkedCons(table', id, t);
    }
  }

  lemma MergeHead(table: map<NodeID, Chain>, o: seq<NodeID>)
    requires Linked(table, o) && |o| > 1 && o[0] !in o[1..] && o[1] in table && !table[o[0]].Remove? && table[o[1]].Remove?
    ensures var table' := table[o[0] := MergeOf(table[o[0]], table[o[1]].child)];
      Linked(table', [o[0]] + o[2..]) && Collect(table', [o[0]] + o[2..]) == Collect(table, o)
  {
    var t := o[2..];
    var c, r := table[o[0]], table[o[1]];
    MergedChain(c, r, o[1]);
    assert o[1..] == [o[1]] + t && ([o[1]] + t)[1..] == t;
    MergeTail(table, o[0], o[1], t, MergeOf(c, r.child));
    MapRegroup(Contents(c), Contents(r), Collect(table, t));
  }

  /** A successful merge unlinks the removed leaf, gives its contents to the left sibling and keeps the map. */
  lemma {:induction false} ReplaceMerge(table: map<NodeID, Chain>, o: seq<NodeID>, id: NodeID, r: NodeID)
    requires Linked(table, o) && DistinctIds(o) && id in o && id in table && r != INVALID_NODE_ID && r != o[0]
    requires !table[id].Remove? && HighBound(table[id]).id == r && r in table && table[r].Remove?
    ensures var table', o' := table[id := MergeOf(table[id], table[r].child)], Without(o, r);
      && o' != [] && o'[0] == o[0] && LowKey(table'[o[0]]) == LowKey(table[o[0]])
      && Linked(table', o') && Collect(table', o') == Collect(table, o)
  {
    if o[0] == id {
      MergeHead(table, o);
      assert Without(o[1..], r) == o[1..][1..] == o[2..];
    } else {
      NextInOrder(table, o[1..], id);
      assert r != o[1];
      ReplaceMerge(table, o[1..], id, r);
      LinkedCons(table[id := MergeOf(table[id], table[r].child)], o[0], Without(o[1..], r));
    }
  }

  // ---------------------------------------------------------------- every step

  /** The data record a step makes take effect, if any. */
  ghost function Logged(s: State, e: Step): seq<Record>
    requires Enabled(s, e)
  {
    if e.PostData? && e.id in s.table && s.table[e.id] == e.snapshot then [e.rec] else []
  }

  ghost function ReplayLog(m: map<Key, Value>, log: seq<Record>): map<Key, Value>
    decreases |log|
  {
    if log == [] then m else ReplayLog(Applied(m, log[0]), log[1..])
  }

  ghost function Map(s: State): map<Key, Value> {
    Collect(s.table, s.order)
  }

  /** What one step must do: keep the invariant and change the map by its logged record only. */
  ghost predicate StepOK(s: State, e: Step)
    requires Enabled(s, e)
  {
    Inv(Apply(s, e)) && Map(Apply(s, e)) == ReplayLog(Map(s), Logged(s, e))
  }

  lemma LiveInOrder(s: State, id: NodeID)
    requires Inv(s) && id in s.known && !s.table[id].Remove?
    ensures id in s.order && WellFormed(s.table[id])
  {
    LinkedIn(s.table, s.order);
  }

  lemma StepData(s: State, e: Step)
    requires Inv(s) && Enabled(s, e) && e.PostData?
    ensures StepOK(s, e)
  {
    if Succeeds(s, e) {
      LiveInOrder(s, e.id);
      Replace(s.table, s.order, e.id, Data(e.rec, e.snapshot));
      ReplaceData(s.table, s.order, e.id, Data(e.rec, e.snapshot));
    }
  }

  lemma StepConsolidate(s: State, e: Step)
    requires Inv(s) && Enabled(s, e) && e.Consolidate?
    ensures StepOK(s, e)
  {
    if Succeeds(s, e) {
      LiveInOrder(s, e.id);
      Replace(s.table, s.order, e.id, e.node);
    }
  }

  lemma StepRemove(s: State, e: Step)
    requires Inv(s) && Enabled(s, e) && e.PostRemove?
    ensures StepOK(s, e)
  {
    if Succeeds(s, e) {
      LiveInOrder(s, e.id);
      Replace(s.table, s.order, e.id, Remove(e.id, e.snapshot));
    }
  }

  lemma StepInstall(s: State, e: Step)
    requires Inv(s) && Enabled(s, e) && e.InstallSibling?
    ensures StepOK(s, e)
  {
    Frame(s.table, s.order, e.newId, Sibling(e.snapshot, e.at));
  }

  lemma StepRead(s: State, e: Step)
    requires Inv(s) && Enabled(s, e) && e.ReadRemoved?
    ensures StepOK(s, e)
  {
  }

  /** Changing one live entry disturbs no thread: pending siblings are private, removed leaves are frozen. */
  lemma OthersOK(s: State, s': State, t: nat, id: NodeID, c: Chain)
    requires ThreadsOK(s) && id in s.known && id in s.table && !s.table[id].Remove?
    requires s'.table == s.table[id := c] && s'.threads == s.threads[t := Idle]
    requires s.known <= s'.known
    requires forall f :: f in s'.known && f !in s.known ==> t in s.threads && s.threads[t].Splitting? && s.threads[t].newId == f
    ensures ThreadsOK(s')
  {
    forall u | u in s'.threads ensures ThreadOK(s', s'.threads[u]) {
      if u != t {
        assert ThreadOK(s, s.threads[u]);
      }
    }
  }

  lemma SplitShape(s: State, h: Thread)
    requires Shape(s.table, s.order, s.known) && ThreadOK(s, h) && h.Splitting?
    requires h.node in s.order && h.node in s.table && s.table[h.node] == h.snapshot
    ensures var table', o' := s.table[h.node := SplitOf(h.snapshot, h.at, h.newId)], After(s.order, h.node, h.newId);
      Shape(table', o', s.known + {h.newId}) && Collect(table', o') == Collect(s.table, s.order)
  {
    ReplaceSplit(s.table, s.order, h.node, h.at, h.newId);
    AfterIds(s.order, h.node, h.newId);
  }

  lemma StepSplit(s: State, e: Step)
    requires Inv(s) && Enabled(s, e) && e.PostSplit?
    ensures StepOK(s, e)
  {
    var h := s.threads[e.t];
    assert ThreadOK(s, h);
    if Succeeds(s, e) {
      LiveInOrder(s, h.node);
      SplitShape(s, h);
      OthersOK(s, Apply(s, e), e.t, h.node, SplitOf(h.snapshot, h.at, h.newId));
    }
  }

  /** A merge that succeeds finds the removed leaf still linked: it is merged exactly once. */
  lemma MergeFindsLinked(s: State, e: Step)
    requires Inv(s) && Enabled(s, e) && e.PostMerge? && Succeeds(s, e)
    ensures s.threads[e.t].removed in s.order && s.threads[e.t].removed !in Apply(s, e).order
  {
    var h := s.threads[e.t];
    assert ThreadOK(s, h);
    LiveInOrder(s, e.left);
    NextInOrder(s.table, s.order, e.left);
    WithoutIds(s.order, h.removed);
  }

  lemma MergeShape(s: State, h: Thread, left: NodeID)
    requires Shape(s.table, s.order, s.known) && ThreadOK(s, h) && h.Merging?
    requires left in s.order && left in s.table && !s.table[left].Remove? && HighBound(s.table[left]).id == h.removed
    ensures var table', o' := s.table[left := MergeOf(s.table[left], h.right)], Without(s.order, h.removed);
      Shape(table', o', s.known) && Collect(table', o') == Collect(s.table, s.order)
  {
    ReplaceMerge(s.table, s.order, left, h.removed);
    WithoutIds(s.order, h.removed);
  }

  lemma StepMerge(s: State, e: Step)
    requires Inv(s) && Enabled(s, e) && e.PostMerge?
    ensures StepOK(s, e)
  {
    var h := s.threads[e.t];
    assert ThreadOK(s, h);
    if Succeeds(s, e) {
      LiveInOrder(s, e.left);
      MergeShape(s, h, e.left);
      OthersOK(s, Apply(s, e), e.t, e.left, MergeOf(e.snapshot, h.right));
    }
  }

  /** Every step keeps the invariant and changes the map only by a posted data record. */
  lemma StepCorrect(s: State, e: Step)
    requires Inv(s) && Enabled(s, e)
    ensures Inv(Apply(s, e)) && Map(Apply(s, e)) == ReplayLog(Map(s), Logged(s, e))
  {
    match e
    case PostData(_, _, _) => StepData(s, e);
    case Consolidate(_, _, _) => StepConsolidate(s, e);
    case InstallSibling(_, _, _, _, _) => StepInstall(s, e);
    case PostSplit(_) => StepSplit(s, e);
    case PostRemove(_, _) => StepRemove(s, e);
    case ReadRemoved(_, _) => StepRead(s, e);
    case PostMerge(_, _, _) => StepMerge(s, e);
  }

  // ---------------------------------------------------------------- what each step does

  /** The table changes at one entry, if it still holds the snapshot, and otherwise not at all. */
  predicate Exchanged(old_: map<NodeID, Chain>, new_: map<NodeID, Chain>, id: NodeID, snapshot: Chain, node: Chain) {
    new_ == if id in old_ && old_[id] == snapshot then old_[id := node] else old_
  }

  /**
   A data record is posted, and takes effect in the map, exactly if the table still holds the
   snapshot it was made for; otherwise nothing changes.
   */
  lemma DataEffect(s: State, id: NodeID, c: Chain, r: Record)
    requires Inv(s) && Enabled(s, PostData(id, c, r))
    ensures var g := Apply(s, PostData(id, c, r));
      && Exchanged(s.table, g.table, id, c, Data(r, c)) && g == s.(table := g.table)
      && Map(g) == if id in s.table && s.table[id] == c then Applied(Map(s), r) else Map(s)
  {
    var e := PostData(id, c, r);
    StepData(s, e);
    assert ReplayLog(Applied(Map(s), r), []) == Applied(Map(s), r);
    assert [r][1..] == [];
  }

  /** Consolidation replaces exactly the snapshot it was made from. */
  lemma ConsolidateEffect(s: State, id: NodeID, c: Chain, n: Chain)
    requires Inv(s) && Enabled(s, Consolidate(id, c, n))
    ensures var g := Apply(s, Consolidate(id, c, n));
      Exchanged(s.table, g.table, id, c, n) && g == s.(table := g.table) && Map(g) == Map(s)
  {
    StepConsolidate(s, Consolidate(id, c, n));
  }

  /** A remove record is posted on exactly the snapshot it was made for. */
  lemma RemoveEffect(s: State, id: NodeID, c: Chain)
    requires Inv(s) && Enabled(s, PostRemove(id, c))
    ensures var g := Apply(s, PostRemove(id, c));
      Exchanged(s.table, g.table, id, c, Remove(id, c)) && g == s.(table := g.table) && Map(g) == Map(s)
  {
    StepRemove(s, PostRemove(id, c));
  }

  /** A split first stores the upper items under a new id, which no leaf names yet. */
  lemma InstallEffect(s: State, t: nat, id: NodeID, c: Chain, at: nat, f: NodeID)
    requires Inv(s) && Enabled(s, InstallSibling(t, id, c, at, f))
    ensures var g := Apply(s, InstallSibling(t, id, c, at, f));
      && g == s.(table := s.table[f := Base(c.items[at].key, c.items[at..], c.bound)], threads := s.threads[t := Splitting(id, c, at, f)])
      && Map(g) == Map(s)
  {
    StepInstall(s, InstallSibling(t, id, c, at, f));
  }

  /** The split record goes on the snapshot, and the new leaf then comes right behind the split one; else only the thread is done. */
  lemma SplitEffect(s: State, t: nat)
    requires Inv(s) && Enabled(s, PostSplit(t))
    ensures var g, h := Apply(s, PostSplit(t)), s.threads[t]; var k := h.snapshot.items[h.at].key;
      && Exchanged(s.table, g.table, h.node, h.snapshot, Split(Bound(k, h.newId), |h.snapshot.items| - h.at, h.snapshot))
      && g.threads == s.threads[t := Idle] && Map(g) == Map(s)
      && (if h.node in s.table && s.table[h.node] == h.snapshot
          then g.known == s.known + {h.newId} && h.newId in g.order && HighBound(g.table[h.node]) == Bound(k, h.newId)
          else g.known == s.known && g.order == s.order)
  {
    var h := s.threads[t];
    StepSplit(s, PostSplit(t));
    assert ThreadOK(s, h);
    if Succeeds(s, PostSplit(t)) {
      LiveInOrder(s, h.node);
      AfterIds(s.order, h.node, h.newId);
    }
  }

  /** Reading a removed leaf keeps its contents for the merge. */
  lemma ReadEffect(s: State, t: nat, id: NodeID)
    requires Inv(s) && Enabled(s, ReadRemoved(t, id))
    ensures var g := Apply(s, ReadRemoved(t, id));
      exists r :: s.table[id] == Remove(id, r) && g == s.(threads := s.threads[t := Merging(id, r)])
  {
    assert s.table[id] == Remove(id, s.table[id].child);
  }

  /** The merge record goes on the left sibling's snapshot, and the removed leaf then leaves the order; else only the thread is done. */
  lemma MergeEffect(s: State, t: nat, l: NodeID, c: Chain)
    requires Inv(s) && Enabled(s, PostMerge(t, l, c))
    ensures var g, h := Apply(s, PostMerge(t, l, c)), s.threads[t];
      && Exchanged(s.table, g.table, l, c, Merge(HighBound(c).key, h.removed, h.right, c))
      && g.threads == s.threads[t := Idle] && g.known == s.known && Map(g) == Map(s)
      && (if l in s.table && s.table[l] == c then forall x :: x in g.order <==> x in s.order && x != h.removed else g.order == s.order)
  {
    StepMerge(s, PostMerge(t, l, c));
    WithoutIds(s.order, s.threads[t].removed);
  }

  // ---------------------------------------------------------------- operations that nobody disturbs

  /** The record for a key on a chain: where its key sits in its branch's base. */
  function RecordFor(c: Chain, kind: Kind, k: Key, v: Value): Record
    requires WellFormed(c)
  {
    BranchSorted(c, k);
    Record(kind, Item(k, v), Locate(BranchItems(c, k), k))
  }

  /** On the leaf of its key, unless that leaf is being removed, an insert or an update of the current chain takes effect. */
  lemma UpsertNow(s: State, id: NodeID, k: Key, v: Value)
    requires Inv(s) && id in s.order && id in s.table && !s.table[id].Remove? && InRange(k, s.table[id])
    ensures WellFormed(s.table[id])
    ensures var c := s.table[id]; var e := PostData(id, c, RecordFor(c, if k in Map(s) then Update else Insert, k, v));
      Enabled(s, e) && Map(Apply(s, e)) == Map(s)[k := v]
  {
    LinkedIn(s.table, s.order);
    var c := s.table[id];
    LeafAnswers(s, id, k);
    assert k in Map(s) <==> k in Contents(c);
    DataEffect(s, id, c, RecordFor(c, if k in Map(s) then Update else Insert, k, v));
  }

  /** So does a delete of a key that is there. */
  lemma DeleteNow(s: State, id: NodeID, k: Key)
    requires Inv(s) && id in s.order && id in s.table && !s.table[id].Remove? && InRange(k, s.table[id]) && k in Map(s)
    ensures WellFormed(s.table[id])
    ensures var c := s.table[id]; var e := PostData(id, c, RecordFor(c, Delete, k, 0));
      Enabled(s, e) && Map(Apply(s, e)) == Map(s) - {k}
  {
    LinkedIn(s.table, s.order);
    var c := s.table[id];
    LeafAnswers(s, id, k);
    assert k in Contents(c);
    DataEffect(s, id, c, RecordFor(c, Delete, k, 0));
  }

  /** A base with two items or more can be split at any item but the first: two steps, and the upper items are a leaf of their own behind it. */
  lemma SplitNow(s: State, t: nat, id: NodeID, at: nat, f: NodeID)
    requires Inv(s) && t in s.threads && s.threads[t].Idle? && id in s.order && id in s.table && s.table[id].Base?
    requires 0 < at < |s.table[id].items| && f !in s.table && f != INVALID_NODE_ID
    ensures Enabled(s, InstallSibling(t, id, s.table[id], at, f))
    ensures var a := Apply(s, InstallSibling(t, id, s.table[id], at, f)); Enabled(a, PostSplit(t))
    ensures var c := s.table[id]; var g := Apply(Apply(s, InstallSibling(t, id, c, at, f)), PostSplit(t)); var k := c.items[at].key;
      && Map(g) == Map(s) && id in g.table && f in g.order && f in g.table && g.threads[t].Idle?
      && HighBound(g.table[id]) == Bound(k, f) && LowKey(g.table[f]) == k && HighBound(g.table[f]) == c.bound
  {
    LinkedIn(s.table, s.order);
    var e := InstallSibling(t, id, s.table[id], at, f);
    StepInstall(s, e);
    InstallEffect(s, t, id, s.table[id], at, f);
    SplitEffect(Apply(s, e), t);
  }

  /** A leaf with a live base can be merged into its live left neighbour: three steps, and it is out of the order with the map unchanged. */
  lemma MergeNow(s: State, t: nat, left: NodeID, id: NodeID)
    requires Inv(s) && t in s.threads && s.threads[t].Idle? && left in s.order && left in s.table && !s.table[left].Remove?
    requires HighBound(s.table[left]).id == id && id in s.order && id in s.table && s.table[id].Base? && id != FIRST_LEAF_NODE_ID && id != left
    ensures Enabled(s, PostRemove(id, s.table[id]))
    ensures var a := Apply(s, PostRemove(id, s.table[id])); Enabled(a, ReadRemoved(t, id))
    ensures var b := Apply(Apply(s, PostRemove(id, s.table[id])), ReadRemoved(t, id)); Enabled(b, PostMerge(t, left, s.table[left]))
    ensures var b := Apply(Apply(s, PostRemove(id, s.table[id])), ReadRemoved(t, id)); var g := Apply(b, PostMerge(t, left, s.table[left]));
      && Map(g) == Map(s) && id !in g.order && left in g.table && HighBound(g.table[left]) == s.table[id].bound && g.threads[t].Idle?
  {
    LinkedIn(s.table, s.order);
    var r := PostRemove(id, s.table[id]);
    StepRemove(s, r);
    RemoveEffect(s, id, s.table[id]);
    var a := Apply(s, r);
    StepRead(a, ReadRemoved(t, id));
    ReadEffect(a, t, id);
    var b := Apply(a, ReadRemoved(t, id));
    MergeEffect(b, t, left, s.table[left]);
  }

  // ---------------------------------------------------------------- every run

  /** The empty tree: one empty leaf over the whole key range. */
  ghost function Init(low: Key, threads: set<nat>): State {
    State(map[FIRST_LEAF_NODE_ID := Base(low, [], Bound(0, INVALID_NODE_ID))], [FIRST_LEAF_NODE_ID],
          {FIRST_LEAF_NODE_ID}, map t | t in threads :: Idle)
  }

  /** A run: steps of any threads in any order, each enabled when it is taken. */
  ghost predicate IsRun(s: State, steps: seq<Step>)
    decreases |steps|
  {
    steps == [] || (Enabled(s, steps[0]) && IsRun(Apply(s, steps[0]), steps[1..]))
  }

  ghost function Run(s: State, steps: seq<Step>): State
    requires IsRun(s, steps)
    decreases |steps|
  {
    if steps == [] then s else Run(Apply(s, steps[0]), steps[1..])
  }

  ghost function RunLog(s: State, steps: seq<Step>): seq<Record>
    requires IsRun(s, steps)
    decreases |steps|
  {
    if steps == [] then [] else Logged(s, steps[0]) + RunLog(Apply(s, steps[0]), steps[1..])
  }

  lemma {:induction false} ReplayConcat(m: map<Key, Value>, a: seq<Record>, b: seq<Record>)
    ensures ReplayLog(m, a + b) == ReplayLog(ReplayLog(m, a), b)
    decreases |a|
  {
    if a == [] {
      assert a + b == b;
    } else {
      assert (a + b)[1..] == a[1..] + b;
      ReplayConcat(Applied(m, a[0]), a[1..], b);
    }
  }

  /** Over every run the map is the replay of the successful data steps, in their order. */
  lemma {:induction false} RunCorrect(s: State, steps: seq<Step>)
    requires Inv(s) && IsRun(s, steps)
    ensures Inv(Run(s, steps)) && Map(Run(s, steps)) == ReplayLog(Map(s), RunLog(s, steps))
    decreases |steps|
  {
    if steps != [] {
      StepCorrect(s, steps[0]);
      RunCorrect(Apply(s, steps[0]), steps[1..]);
      ReplayConcat(Map(s), Logged(s, steps[0]), RunLog(Apply(s, steps[0]), steps[1..]));
    }
  }

  /** From the empty tree, every interleaving yields the map of its successful data steps. */
  lemma TreeIsItsLog(low: Key, threads: set<nat>, steps: seq<Step>)
    requires IsRun(Init(low, threads), steps)
    ensures Map(Run(Init(low, threads), steps)) == ReplayLog(map[], RunLog(Init(low, threads), steps))
  {
    var s := Init(low, threads);
    LinkedOne(s.table, FIRST_LEAF_NODE_ID);
    assert Contents(s.table[FIRST_LEAF_NODE_ID]) == map[];
    RunCorrect(s, steps);
  }

  /** The links determine the order: a reader that follows next-node ids sees these leaves. */
  lemma {:induction false} OrderUnique(table: map<NodeID, Chain>, a: seq<NodeID>, b: seq<NodeID>)
    requires Linked(table, a) && Linked(table, b) && a[0] == b[0]
    ensures a == b
  {
    if |a| == 1 {
      assert |b| == 1;
    } else {
      OrderUnique(table, a[1..], b[1..]);
      assert a == [a[0]] + a[1..] && b == [b[0]] + b[1..];
    }
  }

  // ---------------------------------------------------------------- searches

  /** A leaf's low key never changes, so a search standing right of it stays right of it. */
  lemma LowStable(s: State, e: Step, id: NodeID)
    requires Inv(s) && Enabled(s, e) && id in s.known
    ensures id in Apply(s, e).table && LowKey(Apply(s, e).table[id]) == LowKey(s.table[id])
  {
    assert e.PostSplit? || e.PostMerge? ==> ThreadOK(s, s.threads[e.t]);
  }

  lemma {:induction false} NextLow(table: map<NodeID, Chain>, o: seq<NodeID>, id: NodeID)
    requires Linked(table, o) && id in o && id in table && HighBound(table[id]).id != INVALID_NODE_ID
    ensures HighBound(table[id]).id in table && LowKey(table[HighBound(table[id]).id]) == HighBound(table[id]).key
  {
    if o[0] != id {
      NextLow(table, o[1..], id);
    }
  }

  /** Going right on a key at or above the high key lands on a leaf that starts at or below the key. */
  lemma GoRight(s: State, id: NodeID, key: Key)
    requires Inv(s) && id in s.order && LowKey(s.table[id]) <= key && !Below(key, HighBound(s.table[id]))
    ensures var next := HighBound(s.table[id]).id;
      next in s.known && LowKey(s.table[next]) <= key
  {
    NextLow(s.table, s.order, id);
    NextInOrder(s.table, s.order, id);
  }

  lemma {:induction false} CollectAt(table: map<NodeID, Chain>, o: seq<NodeID>, id: NodeID, key: Key)
    requires Linked(table, o) && DistinctIds(o) && id in o && id in table && InRange(key, table[id])
    ensures Lookup(Collect(table, o), key) == Lookup(Contents(table[id]), key)
  {
    KeysInRange(table[o[0]]);
    if o[0] == id {
      if |o| > 1 {
        CollectFrom(table, o[1..]);
      }
    } else {
      LowOrder(table, o, id);
      CollectAt(table, o[1..], id, key);
    }
  }

  /** The leaf whose range covers the key answers for the whole map. */
  lemma LeafAnswers(s: State, id: NodeID, key: Key)
    requires Inv(s) && id in s.order && InRange(key, s.table[id])
    ensures Lookup(Contents(s.table[id]), key) == Lookup(Map(s), key)
  {
    CollectAt(s.table, s.order, id, key);
  }
}
