/**
 Progress of the Bw-tree protocol: from every reachable state, whatever splits, removes and
 merges other threads have left half done, any idle thread can finish them on its own and
 complete its operation.
 */
module BwProgress {
  import opened BwItems
  import L = BwLeafChain
  import N = BwInnerChain
  import T = BwMappingTable
  import opened BwTwoLevel

  // ---------------------------------------------------------------- neighbours

  /** Some leaf covers every key from the first leaf's low key on. */
  lemma {:induction false} LeafFor(table: map<NodeID, L.Chain>, o: seq<NodeID>, key: Key) returns (x: NodeID)
    requires T.Linked(table, o) && L.LowKey(table[o[0]]) <= key
    ensures x in o && x in table && L.InRange(key, table[x])
  {
    x := o[0];
    if !Below(key, L.HighBound(table[x])) {
      x := LeafFor(table, o[1..], key);
    }
  }

  function Position(o: seq<NodeID>, x: NodeID): nat {
    if o == [] || o[0] == x then 0 else 1 + Position(o[1..], x)
  }

  /** The leaf before another one in link order. */
  lemma {:induction false} LeafBefore(table: map<NodeID, L.Chain>, o: seq<NodeID>, x: NodeID) returns (l: NodeID)
    requires T.Linked(table, o) && T.DistinctIds(o) && x in o && x != o[0] && x in table
    ensures l in o && l in table && L.WellFormed(table[l]) && L.HighBound(table[l]) == Bound(L.LowKey(table[x]), x) && Position(o, l) < Position(o, x) && l != x
  {
    if o[1] == x {
      l := o[0];
      assert Position(o[1..], x) == 0;
    } else {
      l := LeafBefore(table, o[1..], x);
    }
  }

  /** A linked leaf that the root does not know yet is the base that its left neighbour's split made. */
  lemma UnpostedBase(s: State, l: NodeID, x: NodeID)
    requires Inv(s) && l in s.leaves.order && l in s.leaves.table && L.HighBound(s.leaves.table[l]).id == x && x != INVALID_NODE_ID && x !in s.posted
    ensures x in s.leaves.table && s.leaves.table[x].Base? && s.leaves.table[l].Split? && s.leaves.table[l].split.id == x && l in s.posted
  {
    assert LeafOK(s, l);
    if l !in s.posted { UnpostedIsBase(s, l); }
  }

  lemma UnpostedIsBase(s: State, x: NodeID)
    requires Inv(s) && x in s.leaves.order && x !in s.posted
    ensures x in s.leaves.table && s.leaves.table[x].Base?
  {
    T.LinkedIn(s.leaves.table, s.leaves.order);
    var p := LeafBefore(s.leaves.table, s.leaves.order, x);
    assert LeafOK(s, p);
  }

  /** A thread can make the root know a linked leaf. */
  lemma Posts(s: State, t: nat, x: NodeID) returns (steps: seq<Step>, g: State)
    requires Inv(s) && t in s.views && x in s.leaves.order
    ensures Leads(s, steps, g) && Inv(g) && g.leaves == s.leaves && t in g.views && x in g.posted
  {
    if x in s.posted {
      steps, g := [], s;
    } else {
      T.LinkedIn(s.leaves.table, s.leaves.order);
      var l := LeafBefore(s.leaves.table, s.leaves.order, x);
      UnpostedBase(s, l, x);
      steps, g := AnyoneFinishes(s, t, l);
      assert SepOK(g, s.leaves.table[l].split.key);
    }
  }

  /** A thread can come to hold any live leaf with nothing left to finish on it. */
  lemma Reaches(s: State, t: nat, x: NodeID) returns (steps: seq<Step>, g: State)
    requires Inv(s) && t in s.views && x in s.leaves.order && x in s.leaves.table && !s.leaves.table[x].Remove?
    ensures Leads(s, steps, g) && Inv(g) && g.leaves == s.leaves && t in g.views && Holds(g.views[t], x, s.leaves.table[x])
  {
    var a, m, b;
    a, m := Posts(s, t, x);
    b, g := LooksAndFinishes(m, t, x);
    LeadsConcat(s, a, m, b, g);
    steps := a + b;
  }

  // ---------------------------------------------------------------- merging a removed leaf

  /** The leaf is removed and still linked; its thread has no split or merge of its own under way. */
  predicate Removed(s: State, t: nat, x: NodeID) {
    && x in s.leaves.order && x in s.leaves.table && s.leaves.table[x].Remove? && t in s.views
    && t in s.leaves.threads && s.leaves.threads[t].Idle?
  }

  /** A thread reads the contents of a removed leaf. */
  lemma ReadsRemoved(s: State, t: nat, x: NodeID) returns (steps: seq<Step>, g: State)
    requires Inv(s) && Removed(s, t, x)
    ensures Leads(s, steps, g) && Inv(g) && t in g.views
    ensures g.leaves == s.leaves.(threads := s.leaves.threads[t := T.Merging(x, s.leaves.table[x].child)])
  {
    assert x in s.leaves.known;
    var l := LeafBefore(s.leaves.table, s.leaves.order, x);
    if x !in s.posted { UnpostedBase(s, l, x); }
    var a := Looks(s, t, x);
    steps := [ReadRoot(t), Visit(t, L.LowKey(s.leaves.table[x]))];
    var e := OnLeaf(t, T.ReadRemoved(t, x));
    Extend(s, steps, a, e);
    steps, g := steps + [e], Next(a, e);
  }

  /** What merging leaf x into leaf l leaves: x is unlinked, l covers its range, the map stays and removed leaves stay as they are. */
  ghost predicate MergedInto(s: State, g: State, t: nat, l: NodeID, x: NodeID) {
    && Inv(g) && T.Map(g.leaves) == T.Map(s.leaves) && t in g.views && t in g.leaves.threads && g.leaves.threads[t].Idle?
    && l in g.leaves.table && l in s.leaves.table && x in s.leaves.table && g.leaves.table[l].Merge?
    && g.leaves.table == s.leaves.table[l := g.leaves.table[l]] && L.LowKey(g.leaves.table[l]) == L.LowKey(s.leaves.table[l])
    && L.HighBound(g.leaves.table[l]) == L.HighBound(s.leaves.table[x])
    && (forall y :: y in g.leaves.order <==> y in s.leaves.order && y != x)
  }

  lemma Merges(s: State, t: nat, l: NodeID, x: NodeID) returns (e: Step)
    requires Inv(s) && t in s.views && l in s.leaves.order && l in s.leaves.table && !s.leaves.table[l].Remove?
    requires Holds(s.views[t], l, s.leaves.table[l]) && L.HighBound(s.leaves.table[l]).id == x
    requires t in s.leaves.threads && s.leaves.threads[t].Merging? && s.leaves.threads[t].removed == x
    ensures Enabled(s, e) && MergedInto(s, Next(s, e), t, l, x)
  {
    MergeLeaves(s.leaves, t, l, x);
    e := OnLeaf(t, T.PostMerge(t, l, s.leaves.table[l]));
    StepKeepsInv(s, e);
    assert Next(s, e).leaves == T.Apply(s.leaves, e.e);
  }

  lemma MergeLeaves(s: T.State, t: nat, l: NodeID, x: NodeID)
    requires T.Inv(s) && l in s.order && l in s.table && !s.table[l].Remove? && L.HighBound(s.table[l]).id == x
    requires t in s.threads && s.threads[t].Merging? && s.threads[t].removed == x
    ensures x in s.table && T.Enabled(s, T.PostMerge(t, l, s.table[l]))
    ensures var g := T.Apply(s, T.PostMerge(t, l, s.table[l]));
      && T.Map(g) == T.Map(s) && t in g.threads && g.threads[t].Idle? && l in g.table && g.table[l].Merge? && g.table == s.table[l := g.table[l]]
      && L.LowKey(g.table[l]) == L.LowKey(s.table[l]) && L.HighBound(g.table[l]) == L.HighBound(s.table[x])
      && (forall y :: y in g.order <==> y in s.order && y != x)
  {
    T.LinkedIn(s.table, s.order);
    assert T.ThreadOK(s, s.threads[t]);
    T.MergeEffect(s, t, l, s.table[l]);
  }

  /** A thread can merge a removed leaf into its left neighbour, if that one is live. */
  lemma MergeIntoLive(s: State, t: nat, l: NodeID, x: NodeID) returns (steps: seq<Step>, g: State)
    requires Inv(s) && Removed(s, t, x) && l in s.leaves.order && l in s.leaves.table && !s.leaves.table[l].Remove?
    requires L.HighBound(s.leaves.table[l]).id == x
    ensures Leads(s, steps, g) && MergedInto(s, g, t, l, x)
  {
    var a, m, b, n;
    a, m := ReadsRemoved(s, t, x);
    b, n := Reaches(m, t, l);
    LeadsConcat(s, a, m, b, n);
    var e := Merges(n, t, l, x);
    Extend(s, a + b, n, e);
    steps, g := a + b + [e], Next(n, e);
    SameMap(s, n);
    assert MergedInto(n, g, t, l, x);
  }

  lemma SameMap(s: State, n: State)
    requires n.leaves == s.leaves.(threads := n.leaves.threads)
    ensures T.Map(n.leaves) == T.Map(s.leaves)
  {
  }

  /** What merging leaf x away leaves: the map stays, a live leaf l covers its keys, removed leaves and those further right stay. */
  ghost predicate MergedAway(s: State, g: State, t: nat, l: NodeID, x: NodeID) {
    && Inv(g) && T.Map(g.leaves) == T.Map(s.leaves) && t in g.views && t in g.leaves.threads && g.leaves.threads[t].Idle?
    && x in s.leaves.table && l in g.leaves.order && l in g.leaves.table && !g.leaves.table[l].Remove?
    && L.LowKey(g.leaves.table[l]) <= L.LowKey(s.leaves.table[x]) && L.HighBound(g.leaves.table[l]) == L.HighBound(s.leaves.table[x])
    && (forall y :: y in s.leaves.table && s.leaves.table[y].Remove? ==> y in g.leaves.table && g.leaves.table[y] == s.leaves.table[y])
    && (forall y :: y in s.leaves.order && Position(s.leaves.order, y) > Position(s.leaves.order, x) ==> y in g.leaves.order)
  }

  lemma MergedDirectly(s: State, g: State, t: nat, l: NodeID, x: NodeID)
    requires l in s.leaves.order && l != x && MergedInto(s, g, t, l, x) && !s.leaves.table[l].Remove? && L.LowKey(s.leaves.table[l]) <= L.LowKey(s.leaves.table[x])
    ensures MergedAway(s, g, t, l, x)
  {
  }

  lemma MergedAfter(s: State, m: State, g: State, t: nat, l: NodeID, p: NodeID, x: NodeID)
    requires MergedAway(s, m, t, l, p) && MergedInto(m, g, t, l, x) && l != x
    requires p in s.leaves.table && x in s.leaves.table && s.leaves.table[x].Remove? && Position(s.leaves.order, p) < Position(s.leaves.order, x)
    requires L.LowKey(s.leaves.table[p]) <= L.LowKey(s.leaves.table[x])
    ensures MergedAway(s, g, t, l, x)
  {
    assert m.leaves.table[x] == s.leaves.table[x];
    assert g.leaves.table == m.leaves.table[l := g.leaves.table[l]];
  }

  /**
   A thread can merge any removed leaf away, first merging away the removed leaves to the left
   of it; the map stays, and the leaf it ends up in covers its keys.
   */
  lemma {:induction false} MergeAway(s: State, t: nat, x: NodeID) returns (steps: seq<Step>, g: State, l: NodeID)
    requires Inv(s) && Removed(s, t, x)
    ensures Leads(s, steps, g) && MergedAway(s, g, t, l, x)
    decreases Position(s.leaves.order, x)
  {
    var p := RemovedBefore(s, t, x);
    if !s.leaves.table[p].Remove? {
      l := p;
      steps, g := MergeIntoLive(s, t, l, x);
      MergedDirectly(s, g, t, l, x);
    } else {
      var a, m, b;
      a, m, l := MergeAway(s, t, p);
      b, g := MergeIntoLive(m, t, l, x);
      LeadsConcat(s, a, m, b, g);
      steps := a + b;
      MergedAfter(s, m, g, t, l, p, x);
    }
  }

  lemma RemovedBefore(s: State, t: nat, x: NodeID) returns (p: NodeID)
    requires Inv(s) && Removed(s, t, x)
    ensures p in s.leaves.order && p in s.leaves.table && p != x && Position(s.leaves.order, p) < Position(s.leaves.order, x)
    ensures L.HighBound(s.leaves.table[p]).id == x && L.LowKey(s.leaves.table[p]) <= L.LowKey(s.leaves.table[x])
  {
    assert x in s.leaves.known;
    p := LeafBefore(s.leaves.table, s.leaves.order, x);
    L.KeysInRange(s.leaves.table[p]);
  }

  // ---------------------------------------------------------------- operations

  /** Any idle thread can come to hold the live leaf of any key, with nothing left to finish there and the map as it was. */
  lemma ReachesKey(s: State, t: nat, key: Key) returns (steps: seq<Step>, g: State, x: NodeID)
    requires Inv(s) && t in s.views && t in s.leaves.threads && s.leaves.threads[t].Idle?
    requires N.Low(s.root).key <= key
    ensures Leads(s, steps, g) && Inv(g) && T.Map(g.leaves) == T.Map(s.leaves) && t in g.views
    ensures x in g.leaves.order && x in g.leaves.table && L.InRange(key, g.leaves.table[x]) && Holds(g.views[t], x, g.leaves.table[x])
  {
    x := LeafFor(s.leaves.table, s.leaves.order, key);
    var m := s;
    steps := [];
    if s.leaves.table[x].Remove? {
      steps, m, x := MergeAway(s, t, x);
    }
    var b;
    b, g := Reaches(m, t, x);
    LeadsConcat(s, steps, m, b, g);
    steps := steps + b;
  }

  /**
   From every reachable state, whatever other threads have left undone, any idle thread can
   complete an upsert of any key: the map then has the pair and is otherwise as it was.
   */
  lemma UpsertCompletes(s: State, t: nat, key: Key, value: Value) returns (steps: seq<Step>, g: State)
    requires Inv(s) && t in s.views && t in s.leaves.threads && s.leaves.threads[t].Idle?
    requires N.Low(s.root).key <= key
    ensures Leads(s, steps, g) && Inv(g) && T.Map(g.leaves) == T.Map(s.leaves)[key := value]
  {
    var m, x;
    steps, m, x := ReachesKey(s, t, key);
    var e := UpsertsHere(m, t, x, key, value);
    Extend(s, steps, m, e);
    steps, g := steps + [e], Next(m, e);
  }

  /** And a delete of any key that is in the map: the map then lacks it and is otherwise as it was. */
  lemma DeleteCompletes(s: State, t: nat, key: Key) returns (steps: seq<Step>, g: State)
    requires Inv(s) && t in s.views && t in s.leaves.threads && s.leaves.threads[t].Idle?
    requires N.Low(s.root).key <= key && key in T.Map(s.leaves)
    ensures Leads(s, steps, g) && Inv(g) && T.Map(g.leaves) == T.Map(s.leaves) - {key}
  {
    var m, x;
    steps, m, x := ReachesKey(s, t, key);
    var e := DeletesHere(m, t, x, key);
    Extend(s, steps, m, e);
    steps, g := steps + [e], Next(m, e);
  }
}
