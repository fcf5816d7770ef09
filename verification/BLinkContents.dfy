/**
 What the latched B-link tree holds: the leaf chain, read from left to right, changes
 only when an insert of a new key executes on its leaf, and then by that pair alone.
 */
module BLinkContents {
  import opened BLinkSplit
  import opened BLinkTree
  import opened BLinkRuns
  import opened BLinkSafety

  // ---------------------------------------------------------------- seekers

  predicate Covers(nodes: map<Id, Node>, id: Id, k: Key) {
    id in nodes && nodes[id].level == 0 && nodes[id].low <= k < nodes[id].high
  }

  lemma CoverExists(s: State, k: Key, i: nat) returns (id: Id)
    requires Core(s) && 0 <= k < MAX && i < |s.levels[0]| && LevelOK(s.nodes, s.levels[0], 0)
    requires s.nodes[s.levels[0][i]].low <= k
    ensures Covers(s.nodes, id, k)
    decreases |s.levels[0]| - i
  {
    var o := s.levels[0];
    assert NodeOK(s.nodes, s.maxItems, s.maxKeys, o[i]);
    if k < s.nodes[o[i]].high {
      id := o[i];
    } else {
      assert s.nodes[o[i]].right == NextIn(o, i);
      id := CoverExists(s, k, i + 1);
    }
  }

  /** Leaf ranges tile the key space: every key has exactly one leaf. */
  lemma LeavesTile(s: State, k: Key) returns (id: Id)
    requires Inv(s) && 0 <= k < MAX
    ensures Covers(s.nodes, id, k) && forall x :: Covers(s.nodes, x, k) ==> x == id
  {
    assert LevelOK(s.nodes, s.levels[0], 0);
    id := CoverExists(s, k, 0);
    forall x | Covers(s.nodes, x, k) ensures x == id {
      if x != id { LeavesApart(s, x, id); }
    }
  }

  // ---------------------------------------------------------------- the leaf chain

  predicate In(nodes: map<Id, Node>, o: seq<Id>) {
    forall i :: 0 <= i < |o| ==> o[i] in nodes
  }

  /** The keys of the given nodes, one after the other. */
  function Keys(nodes: map<Id, Node>, o: seq<Id>): seq<Key>
    requires In(nodes, o)
  {
    if o == [] then [] else nodes[o[0]].keys + Keys(nodes, o[1..])
  }

  function Vals(nodes: map<Id, Node>, o: seq<Id>): seq<Value>
    requires In(nodes, o)
  {
    if o == [] then [] else nodes[o[0]].vals + Vals(nodes, o[1..])
  }

  lemma {:induction false} Concat(nodes: map<Id, Node>, a: seq<Id>, b: seq<Id>)
    requires In(nodes, a) && In(nodes, b)
    ensures In(nodes, a + b) && Keys(nodes, a + b) == Keys(nodes, a) + Keys(nodes, b)
    ensures Vals(nodes, a + b) == Vals(nodes, a) + Vals(nodes, b)
  {
    if a == [] {
      assert a + b == b;
    } else {
      Concat(nodes, a[1..], b);
      assert (a + b)[1..] == a[1..] + b;
      assert In(nodes, a + b);
    }
  }

  lemma {:induction false} Frame(a: map<Id, Node>, b: map<Id, Node>, o: seq<Id>)
    requires In(a, o) && In(b, o) && forall i :: 0 <= i < |o| ==> b[o[i]].keys == a[o[i]].keys && b[o[i]].vals == a[o[i]].vals
    ensures Keys(b, o) == Keys(a, o) && Vals(b, o) == Vals(a, o)
  {
    if o != [] { Frame(a, b, o[1..]); }
  }

  /** Leaves whose ranges follow each other. */
  predicate Chain(nodes: map<Id, Node>, o: seq<Id>, max: nat) {
    && In(nodes, o) && (forall i :: 0 <= i < |o| ==> LeafOK(nodes[o[i]], max) && 0 <= nodes[o[i]].low && nodes[o[i]].high <= MAX)
    && forall i, j :: 0 <= i < j < |o| ==> nodes[o[i]].high <= nodes[o[j]].low
  }

  lemma {:induction false} ChainSorted(nodes: map<Id, Node>, o: seq<Id>, max: nat, lo: Key, hi: Key)
    requires Chain(nodes, o, max) && forall i :: 0 <= i < |o| ==> lo <= nodes[o[i]].low && nodes[o[i]].high <= hi
    ensures Sorted(Keys(nodes, o)) && |Vals(nodes, o)| == |Keys(nodes, o)|
    ensures forall i :: 0 <= i < |Keys(nodes, o)| ==> lo <= Keys(nodes, o)[i] < hi
  {
    if o != [] {
      ChainSorted(nodes, o[1..], max, nodes[o[0]].high, hi);
      assert nodes[o[0]].high <= hi;
    }
  }

  lemma LeafChain(s: State)
    requires Core(s)
    ensures LevelOK(s.nodes, s.levels[0], 0) && Chain(s.nodes, s.levels[0], s.maxItems)
  {
    assert LevelOK(s.nodes, s.levels[0], 0);
    var o := s.levels[0];
    forall i | 0 <= i < |o| ensures LeafOK(s.nodes[o[i]], s.maxItems) && 0 <= s.nodes[o[i]].low && s.nodes[o[i]].high <= MAX {
      assert NodeOK(s.nodes, s.maxItems, s.maxKeys, o[i]);
    }
    forall i, j | 0 <= i < j < |o| ensures s.nodes[o[i]].high <= s.nodes[o[j]].low {
      LeafOrder(s, i, j);
    }
  }

  // ---------------------------------------------------------------- one insertion

  /** The chain with one pair added at its place. */
  ghost predicate Grown(keys: seq<Key>, vals: seq<Value>, k: Key, v: Value, keys': seq<Key>, vals': seq<Value>) {
    && Sorted(keys) && |vals| == |keys| && k !in keys
    && keys' == InsertAt(keys, LowerBound(keys, k), k) && vals' == InsertAt(vals, LowerBound(keys, k), v)
  }

  lemma InsertMiddle<T>(a: seq<T>, m: seq<T>, b: seq<T>, p: nat, x: T)
    requires p <= |m|
    ensures InsertAt(a + m + b, |a| + p, x) == a + InsertAt(m, p, x) + b
  {
    InsertRight(a, m, p, x);
    InsertLeft(a + m, b, |a| + p, x);
  }

  lemma MiddleBound(a: seq<Key>, m: seq<Key>, b: seq<Key>, k: Key)
    requires Sorted(a + m + b) && Sorted(m) && k !in m
    requires (forall i :: 0 <= i < |a| ==> a[i] < k) && (forall i :: 0 <= i < |b| ==> k < b[i])
    ensures k !in a + m + b && LowerBound(a + m + b, k) == |a| + LowerBound(m, k)
  {
    var all, p := a + m + b, |a| + LowerBound(m, k);
    forall i | 0 <= i < |all| ensures all[i] != k && (i < p ==> all[i] < k) && (i >= p ==> k <= all[i]) {
      assert all[i] == if i < |a| then a[i] else if i < |a| + |m| then m[i - |a|] else b[i - |a| - |m|];
    }
    LowerBoundUnique(all, k, p);
  }

  lemma CutAt(nodes: map<Id, Node>, o: seq<Id>, i: nat)
    requires In(nodes, o) && i < |o|
    ensures In(nodes, o[..i]) && In(nodes, o[i + 1..])
    ensures Keys(nodes, o) == Keys(nodes, o[..i]) + nodes[o[i]].keys + Keys(nodes, o[i + 1..])
    ensures Vals(nodes, o) == Vals(nodes, o[..i]) + nodes[o[i]].vals + Vals(nodes, o[i + 1..])
  {
    Concat(nodes, o[..i], o[i..]);
    assert o[..i] + o[i..] == o && o[i..][1..] == o[i + 1..];
    Regroup(Keys(nodes, o[..i]), nodes[o[i]].keys, Keys(nodes, o[i + 1..]));
    Regroup(Vals(nodes, o[..i]), nodes[o[i]].vals, Vals(nodes, o[i + 1..]));
  }

  lemma Regroup<T>(a: seq<T>, b: seq<T>, c: seq<T>)
    ensures a + (b + c) == a + b + c
  {
  }

  /** The leaves left of a leaf hold smaller keys, those to its right larger ones. */
  lemma Around(nodes: map<Id, Node>, o: seq<Id>, i: nat, max: nat, k: Key)
    requires Chain(nodes, o, max) && i < |o| && nodes[o[i]].low <= k < nodes[o[i]].high && k !in nodes[o[i]].keys
    ensures Sorted(Keys(nodes, o)) && |Vals(nodes, o)| == |Keys(nodes, o)| && k !in Keys(nodes, o)
    ensures In(nodes, o[..i]) && |Vals(nodes, o[..i])| == |Keys(nodes, o[..i])|
    ensures LowerBound(Keys(nodes, o), k) == |Keys(nodes, o[..i])| + LowerBound(nodes[o[i]].keys, k)
  {
    CutAt(nodes, o, i);
    ChainSorted(nodes, o, max, 0, MAX);
    ChainSorted(nodes, o[..i], max, 0, nodes[o[i]].low);
    ChainSorted(nodes, o[i + 1..], max, nodes[o[i]].high, MAX);
    MiddleBound(Keys(nodes, o[..i]), nodes[o[i]].keys, Keys(nodes, o[i + 1..]), k);
  }

  lemma Spliced(nodes: map<Id, Node>, nodes': map<Id, Node>, a: seq<Id>, ms: seq<Id>, b: seq<Id>)
    requires In(nodes, a) && In(nodes, b) && In(nodes', a) && In(nodes', b) && In(nodes', ms)
    requires forall j :: 0 <= j < |a| ==> nodes'[a[j]].keys == nodes[a[j]].keys && nodes'[a[j]].vals == nodes[a[j]].vals
    requires forall j :: 0 <= j < |b| ==> nodes'[b[j]].keys == nodes[b[j]].keys && nodes'[b[j]].vals == nodes[b[j]].vals
    ensures In(nodes', a + ms + b)
    ensures Keys(nodes', a + ms + b) == Keys(nodes, a) + Keys(nodes', ms) + Keys(nodes, b)
    ensures Vals(nodes', a + ms + b) == Vals(nodes, a) + Vals(nodes', ms) + Vals(nodes, b)
  {
    Frame(nodes, nodes', a);
    Frame(nodes, nodes', b);
    Concat(nodes', a, ms);
    Concat(nodes', a + ms, b);
  }

  /** Replacing one leaf of a chain by leaves that hold its pairs and a new one. */
  lemma ChainGrown(nodes: map<Id, Node>, nodes': map<Id, Node>, o: seq<Id>, i: nat, ms: seq<Id>, max: nat, k: Key, v: Value)
    requires Chain(nodes, o, max) && i < |o| && nodes[o[i]].low <= k < nodes[o[i]].high && k !in nodes[o[i]].keys
    requires In(nodes', o[..i] + ms + o[i + 1..]) && In(nodes', ms) && In(nodes, o[..i]) && In(nodes, o[i + 1..])
    requires Keys(nodes', o[..i] + ms + o[i + 1..]) == Keys(nodes, o[..i]) + Keys(nodes', ms) + Keys(nodes, o[i + 1..])
    requires Vals(nodes', o[..i] + ms + o[i + 1..]) == Vals(nodes, o[..i]) + Vals(nodes', ms) + Vals(nodes, o[i + 1..])
    requires var n := nodes[o[i]]; var p := LowerBound(n.keys, k);
      Keys(nodes', ms) == InsertAt(n.keys, p, k) && Vals(nodes', ms) == InsertAt(n.vals, p, v)
    ensures Grown(Keys(nodes, o), Vals(nodes, o), k, v,
                  Keys(nodes', o[..i] + ms + o[i + 1..]), Vals(nodes', o[..i] + ms + o[i + 1..]))
  {
    var n := nodes[o[i]];
    Around(nodes, o, i, max, k);
    CutAt(nodes, o, i);
    GrownParts(Keys(nodes, o[..i]), n.keys, Keys(nodes, o[i + 1..]), Vals(nodes, o[..i]), n.vals, Vals(nodes, o[i + 1..]), k, v);
  }

  lemma GrownParts(a: seq<Key>, m: seq<Key>, b: seq<Key>, av: seq<Value>, mv: seq<Value>, bv: seq<Value>, k: Key, v: Value)
    requires Sorted(a + m + b) && Sorted(m) && k !in a + m + b && |av| == |a| && |mv| == |m| && |av + mv + bv| == |a + m + b|
    requires LowerBound(a + m + b, k) == |a| + LowerBound(m, k)
    ensures var p := LowerBound(m, k);
      Grown(a + m + b, av + mv + bv, k, v, a + InsertAt(m, p, k) + b, av + InsertAt(mv, p, v) + bv)
  {
    var p := LowerBound(m, k);
    InsertMiddle(a, m, b, p, k);
    InsertMiddle(av, mv, bv, p, v);
  }

  // ---------------------------------------------------------------- steps

  /** All pairs of the tree in key order, as two parallel sequences. */
  ghost function AllKeys(s: State): seq<Key>
    requires Core(s)
  {
    assert LevelOK(s.nodes, s.levels[0], 0);
    Keys(s.nodes, s.levels[0])
  }

  ghost function AllVals(s: State): seq<Value>
    requires Core(s)
  {
    assert LevelOK(s.nodes, s.levels[0], 0);
    Vals(s.nodes, s.levels[0])
  }

  lemma Ordered(s: State)
    requires Core(s)
    ensures Sorted(AllKeys(s)) && |AllVals(s)| == |AllKeys(s)|
    ensures forall i :: 0 <= i < |AllKeys(s)| ==> 0 <= AllKeys(s)[i] < MAX
  {
    LeafChain(s);
    ChainSorted(s.nodes, s.levels[0], s.maxItems, 0, MAX);
  }

  /** A key is in the tree exactly if it is in the leaf that covers it. */
  lemma InItsLeaf(s: State, id: Id, k: Key)
    requires Core(s) && Covers(s.nodes, id, k)
    ensures k in AllKeys(s) <==> k in s.nodes[id].keys
  {
    assert Listed(s.nodes, s.levels, id);
    LeafChain(s);
    var o := s.levels[0];
    var i := IndexOf(o, id);
    if k in s.nodes[id].keys {
      CutAt(s.nodes, o, i);
    } else {
      Around(s.nodes, o, i, s.maxItems, k);
    }
  }

  predicate SameLeaves(s: State, g: State) {
    && s.levels != [] && g.levels != [] && g.levels[0] == s.levels[0]
    && forall id :: id in s.nodes && id in s.levels[0] ==>
      id in g.nodes && g.nodes[id].keys == s.nodes[id].keys && g.nodes[id].vals == s.nodes[id].vals
  }

  lemma SameContents(s: State, g: State)
    requires Core(s) && Core(g) && SameLeaves(s, g)
    ensures AllKeys(g) == AllKeys(s) && AllVals(g) == AllVals(s)
  {
    assert LevelOK(s.nodes, s.levels[0], 0) && LevelOK(g.nodes, g.levels[0], 0);
    Frame(s.nodes, g.nodes, s.levels[0]);
  }

  lemma Others(o: seq<Id>, i: nat)
    requires DistinctIds(o) && i < |o|
    ensures o[i] !in o[..i] && o[i] !in o[i + 1..]
  {
  }

  lemma Untouched(nodes: map<Id, Node>, nodes': map<Id, Node>, a: seq<Id>, at: Id)
    requires In(nodes, a) && at !in a
    requires forall id :: id in nodes && id != at ==>
      id in nodes' && nodes'[id].keys == nodes[id].keys && nodes'[id].vals == nodes[id].vals
    ensures In(nodes', a)
    ensures forall j :: 0 <= j < |a| ==> nodes'[a[j]].keys == nodes[a[j]].keys && nodes'[a[j]].vals == nodes[a[j]].vals
  {
    forall j | 0 <= j < |a| ensures a[j] != at && a[j] in nodes {
      assert a[j] in a;
    }
  }

  lemma LeafReplaced(nodes: map<Id, Node>, nodes': map<Id, Node>, o: seq<Id>, i: nat, ms: seq<Id>, max: nat, k: Key, v: Value)
    requires Chain(nodes, o, max) && DistinctIds(o) && i < |o|
    requires nodes[o[i]].low <= k < nodes[o[i]].high && k !in nodes[o[i]].keys && In(nodes', ms)
    requires forall id :: id in nodes && id != o[i] ==>
      id in nodes' && nodes'[id].keys == nodes[id].keys && nodes'[id].vals == nodes[id].vals
    requires var n := nodes[o[i]]; var p := LowerBound(n.keys, k);
      Keys(nodes', ms) == InsertAt(n.keys, p, k) && Vals(nodes', ms) == InsertAt(n.vals, p, v)
    ensures In(nodes', o[..i] + ms + o[i + 1..])
    ensures Grown(Keys(nodes, o), Vals(nodes, o), k, v,
                  Keys(nodes', o[..i] + ms + o[i + 1..]), Vals(nodes', o[..i] + ms + o[i + 1..]))
  {
    CutAt(nodes, o, i);
    Others(o, i);
    Untouched(nodes, nodes', o[..i], o[i]);
    Untouched(nodes, nodes', o[i + 1..], o[i]);
    Spliced(nodes, nodes', o[..i], ms, o[i + 1..]);
    ChainGrown(nodes, nodes', o, i, ms, max, k, v);
  }

  lemma SetLeafContents(s: State, g: State, at: Id, k: Key, v: Value)
    requires Core(s) && Core(g) && Covers(s.nodes, at, k) && k !in s.nodes[at].keys && Placed(s, at) && g.levels == s.levels
    requires var n := s.nodes[at]; var i := LowerBound(n.keys, k);
      g.nodes == s.nodes[at := n.(keys := InsertAt(n.keys, i, k), vals := InsertAt(n.vals, i, v), spare := Fewer(n.spare))]
    ensures Grown(AllKeys(s), AllVals(s), k, v, AllKeys(g), AllVals(g))
  {
    LeafChain(s);
    var o := s.levels[0];
    var i := IndexOf(o, at);
    Single(g.nodes, at);
    Whole(o, i);
    LeafReplaced(s.nodes, g.nodes, o, i, [at], s.maxItems, k, v);
  }

  lemma Whole(o: seq<Id>, i: nat)
    requires i < |o|
    ensures o[..i] + [o[i]] + o[i + 1..] == o
  {
  }

  lemma Single(nodes: map<Id, Node>, id: Id)
    requires id in nodes
    ensures In(nodes, [id]) && Keys(nodes, [id]) == nodes[id].keys && Vals(nodes, [id]) == nodes[id].vals
  {
    assert Keys(nodes, []) == [] && Vals(nodes, []) == [];
    assert [id][1..] == [];
  }

  lemma Pair(nodes: map<Id, Node>, x: Id, y: Id)
    requires x in nodes && y in nodes
    ensures In(nodes, [x, y]) && Keys(nodes, [x, y]) == nodes[x].keys + nodes[y].keys
    ensures Vals(nodes, [x, y]) == nodes[x].vals + nodes[y].vals
  {
    Single(nodes, x);
    Single(nodes, y);
    Concat(nodes, [x], [y]);
    assert [x] + [y] == [x, y];
  }

  lemma LeafHalvesFrame(s: State, at: Id, k: Key, v: Value, f: Id)
    requires Placed(s, at) && s.nodes[at].level == 0 && |s.nodes[at].keys| >= 2 && k !in s.nodes[at].keys && f !in s.nodes
    ensures var h := LeafHalves(s, at, k, v, f).nodes; var p := LowerBound(s.nodes[at].keys, k);
      && (forall id :: id in s.nodes && id != at ==> id in h && h[id].keys == s.nodes[id].keys && h[id].vals == s.nodes[id].vals)
      && h[at].keys + h[f].keys == InsertAt(s.nodes[at].keys, p, k)
      && h[at].vals + h[f].vals == InsertAt(s.nodes[at].vals, p, v)
  {
    LeafSplitIsInsertion(s.nodes[at].keys, s.nodes[at].vals, k, v);
  }

  lemma LeafSplitContents(s: State, at: Id, k: Key, v: Value, f: Id)
    requires Core(s) && Covers(s.nodes, at, k) && k !in s.nodes[at].keys && |s.nodes[at].keys| == s.maxItems && f !in s.nodes && f != NONE
    ensures Placed(s, at) && Core(LeafHalves(s, at, k, v, f))
    ensures var h := LeafHalves(s, at, k, v, f); Grown(AllKeys(s), AllVals(s), k, v, AllKeys(h), AllVals(h))
  {
    LeafHalvesKeep(s, at, k, v, f);
    var h := LeafHalves(s, at, k, v, f);
    LeafHalvesFrame(s, at, k, v, f);
    LeafChain(s);
    var o := s.levels[0];
    var i := IndexOf(o, at);
    Pair(h.nodes, at, f);
    LeafReplaced(s.nodes, h.nodes, o, i, [at, f], s.maxItems, k, v);
    After(o, i, f);
  }

  lemma After(o: seq<Id>, i: nat, f: Id)
    requires i < |o|
    ensures InsertAt(o, i + 1, f) == o[..i] + [o[i], f] + o[i + 1..]
  {
  }

  lemma AscendSameLeaves(h: State, t: nat, k: Key, at: Id, sepKey: Key, f: Id, r: Id)
    requires h.levels != [] && at in h.nodes && r !in h.nodes
    ensures SameLeaves(h, Ascend(h, t, k, at, sepKey, f, r))
  {
  }

  lemma InnerHalvesSameLeaves(s: State, at: Id, sepKey: Key, sep: Id, f: Id)
    requires LevelsOK(s.nodes, s.levels) && Placed(s, at) && s.nodes[at].level > 0 && |s.nodes[at].keys| >= 2 && f !in s.nodes
    ensures SameLeaves(s, InnerHalves(s, at, sepKey, sep, f))
  {
    var g := InnerHalves(s, at, sepKey, sep, f);
    assert g.levels == WithSibling(s.levels, s.nodes[at].level, at, f);
    assert forall id :: id in s.levels[0] ==> id in s.nodes && s.nodes[id].level == 0 by { assert LevelOK(s.nodes, s.levels[0], 0); }
    forall id | id in s.nodes && id in s.levels[0]
      ensures id in g.nodes && g.nodes[id].keys == s.nodes[id].keys && g.nodes[id].vals == s.nodes[id].vals
    {
      InnerHalvesNodes(s, at, sepKey, sep, f);
    }
  }

  lemma InnerStepSameLeaves(s: State, t: nat, f: Id, r: Id)
    requires Inv(s) && t in s.tasks && s.tasks[t].Post? && Standing(s, s.tasks[t]) && f !in s.nodes && r !in s.nodes && f != r
    ensures var p := s.tasks[t]; SameLeaves(s, InsertIntoInner(s, t, p.key, p.sepKey, p.sep, p.at, f, r))
  {
    var p := s.tasks[t];
    var n := s.nodes[p.at];
    if |n.keys| < s.maxKeys {
      assert LevelOK(s.nodes, s.levels[0], 0);
    } else {
      var h := InnerHalves(s, p.at, p.sepKey, p.sep, f);
      InnerHalvesSameLeaves(s, p.at, p.sepKey, p.sep, f);
      AscendSameLeaves(h, t, p.key, p.at, SplitInner(n.keys, n.seps, p.sepKey, p.sep).keyUp, f, r);
    }
  }

  /** The step executes an insert on the leaf of its key. */
  predicate LeafTurn(s: State, step: Step) {
    && step.Execute? && step.t in s.tasks && s.tasks[step.t].Seek? && Standing(s, s.tasks[step.t])
    && var n := s.nodes[s.tasks[step.t].at]; n.level == 0 && s.tasks[step.t].key < n.high
  }

  lemma SplitTurnContents(s: State, g: State, t: nat, at: Id, k: Key, v: Value, f: Id, r: Id)
    requires Core(s) && Core(g) && Covers(s.nodes, at, k) && k !in s.nodes[at].keys && |s.nodes[at].keys| == s.maxItems
    requires f !in s.nodes && f != NONE && r !in s.nodes && r != f && Placed(s, at)
    requires var h := LeafHalves(s, at, k, v, f); var a := Ascend(h, t, k, at, h.nodes[f].keys[0], f, r);
      g.nodes == a.nodes && g.levels == a.levels
    ensures Grown(AllKeys(s), AllVals(s), k, v, AllKeys(g), AllVals(g))
  {
    LeafSplitContents(s, at, k, v, f);
    var h := LeafHalves(s, at, k, v, f);
    AscendSameLeaves(h, t, k, at, h.nodes[f].keys[0], f, r);
    SameContents(h, g);
  }

  lemma BoundOfPresent(keys: seq<Key>, k: Key)
    requires Sorted(keys) && k in keys
    ensures LowerBound(keys, k) < |keys| && keys[LowerBound(keys, k)] == k
  {
    var j :| 0 <= j < |keys| && keys[j] == k;
    LowerBoundUnique(keys, k, j);
  }

  lemma LeafInsertContents(s: State, g: State, t: nat, at: Id, k: Key, v: Value, f: Id, r: Id)
    requires Core(s) && Core(g) && Placed(s, at) && Covers(s.nodes, at, k) && f !in s.nodes && f != NONE && r !in s.nodes && r != f
    requires var a := InsertIntoLeaf(s, t, k, v, at, f, r); g.nodes == a.nodes && g.levels == a.levels
    ensures if k in s.nodes[at].keys then AllKeys(g) == AllKeys(s) && AllVals(g) == AllVals(s)
            else Grown(AllKeys(s), AllVals(s), k, v, AllKeys(g), AllVals(g))
  {
    var n := s.nodes[at];
    var i := LowerBound(n.keys, k);
    if k in n.keys { BoundOfPresent(n.keys, k); }
    if i < |n.keys| && n.keys[i] == k {
      SameContents(s, g);
    } else if |n.keys| < s.maxItems {
      SetLeafContents(s, g, at, k, v);
    } else {
      SplitTurnContents(s, g, t, at, k, v, f, r);
    }
  }

  lemma LeafTurnContents(s: State, step: Step)
    requires Inv(s) && Enabled(s, step) && LeafTurn(s, step)
    ensures Inv(Next(s, step)) && var h := s.tasks[step.t]; var g := Next(s, step);
      if h.key in AllKeys(s) then AllKeys(g) == AllKeys(s) && AllVals(g) == AllVals(s)
      else Grown(AllKeys(s), AllVals(s), h.key, h.value, AllKeys(g), AllVals(g))
  {
    StepKeepsInv(s, step);
    var h := s.tasks[step.t];
    assert TaskOK(s.nodes, h);
    InItsLeaf(s, h.at, h.key);
    LeafInsertContents(s, Next(s, step), step.t, h.at, h.key, h.value, step.f, step.r);
  }

  lemma OtherTurnContents(s: State, step: Step)
    requires Inv(s) && Enabled(s, step) && !LeafTurn(s, step)
    ensures (step.Execute? ==> Standing(s, s.tasks[step.t])) && Inv(Next(s, step))
    ensures var g := Next(s, step); AllKeys(g) == AllKeys(s) && AllVals(g) == AllVals(s) && g.log == s.log
  {
    StepKeepsInv(s, step);
    var g := Next(s, step);
    if step.Execute? && s.tasks[step.t].Post? && s.tasks[step.t].key < s.nodes[s.tasks[step.t].at].high {
      InnerStepSameLeaves(s, step.t, step.f, step.r);
      SameContents(s, g);
    } else {
      assert g.nodes == s.nodes && g.levels == s.levels;
    }
  }

  // ---------------------------------------------------------------- runs

  /** The map of a sorted chain. */
  ghost function MapOf(keys: seq<Key>, vals: seq<Value>): map<Key, Value>
    requires Sorted(keys) && |vals| == |keys|
  {
    map i | 0 <= i < |keys| :: keys[i] := vals[i]
  }

  lemma InsertedEntry<T>(s: seq<T>, p: nat, x: T, i: nat)
    requires p <= |s| && i <= |s|
    ensures i < p ==> InsertAt(s, p, x)[i] == s[i]
    ensures i == p ==> InsertAt(s, p, x)[i] == x
    ensures i > p ==> InsertAt(s, p, x)[i] == s[i - 1]
  {
  }

  lemma MapOfGrown(keys: seq<Key>, vals: seq<Value>, k: Key, v: Value, keys': seq<Key>, vals': seq<Value>)
    requires Grown(keys, vals, k, v, keys', vals')
    ensures Sorted(keys') && |vals'| == |keys'| && MapOf(keys', vals') == MapOf(keys, vals)[k := v]
  {
    InsertSorted(keys, k);
    var p := LowerBound(keys, k);
    var a, b := MapOf(keys, vals)[k := v], MapOf(keys', vals');
    forall i | 0 <= i < |keys'| ensures keys'[i] in a && a[keys'[i]] == vals'[i] {
      InsertedEntry(keys, p, k, i);
      InsertedEntry(vals, p, v, i);
    }
    forall x | x in a ensures x in b {
      InsertedIn(keys, p, k, x);
    }
  }

  ghost function Contents(s: State): map<Key, Value>
    requires Core(s)
  {
    Ordered(s);
    MapOf(AllKeys(s), AllVals(s))
  }

  /** Inserts one after the other; the first insert of a key wins. */
  function FirstWins(log: seq<Entry>): map<Key, Value> {
    if log == [] then map[]
    else
      var m, e := FirstWins(log[..|log| - 1]), log[|log| - 1];
      if e.key in m then m else m[e.key := e.value]
  }

  lemma LogStep(s: State, step: Step)
    requires Inv(s) && Enabled(s, step) && Contents(s) == FirstWins(s.log)
    ensures (step.Execute? ==> Standing(s, s.tasks[step.t])) && Inv(Next(s, step))
    ensures Contents(Next(s, step)) == FirstWins(Next(s, step).log)
  {
    if LeafTurn(s, step) {
      LeafTurnContents(s, step);
      var g, h := Next(s, step), s.tasks[step.t];
      Ordered(s);
      assert g.log == s.log + [Entry(h.key, h.value)];
      assert g.log[..|g.log| - 1] == s.log;
      assert h.key in AllKeys(s) <==> h.key in Contents(s);
      if h.key !in AllKeys(s) {
        MapOfGrown(AllKeys(s), AllVals(s), h.key, h.value, AllKeys(g), AllVals(g));
      }
    } else {
      OtherTurnContents(s, step);
    }
  }

  /** A new tree: one empty leaf. */
  predicate Init(s: State) {
    && 2 <= s.maxItems && 2 <= s.maxKeys && s.root != NONE && s.levels == [[s.root]] && s.tasks == map[] && s.log == []
    && s.nodes == map[s.root := Node(0, 0, [], [], seq(s.maxItems, _ => Unwritten), [], MAX, NONE, NONE)]
  }

  lemma InitInv(s: State)
    requires Init(s)
    ensures Inv(s) && Contents(s) == FirstWins(s.log)
  {
    assert LevelOK(s.nodes, s.levels[0], 0);
    assert s.levels[0] == [s.root];
    Single(s.nodes, s.root);
  }

  /** A run of the tree under any interleaving of inserts and lookups. */
  ghost predicate Run(states: seq<State>, steps: seq<Step>) {
    && |states| == |steps| + 1 && Init(states[0])
    && forall i :: 0 <= i < |steps| ==>
      && Enabled(states[i], steps[i]) && (steps[i].Execute? ==> Standing(states[i], states[i].tasks[steps[i].t]))
      && states[i + 1] == Next(states[i], steps[i])
  }

  /**
   In every state of every run the invariant holds and the tree is the first-insert-wins
   map of the inserts that have reached their leaf: none is lost, none counts twice.
   */
  lemma {:induction false} RunCorrect(states: seq<State>, steps: seq<Step>, i: nat)
    requires Run(states, steps) && i < |states|
    ensures Inv(states[i]) && Contents(states[i]) == FirstWins(states[i].log)
  {
    if i == 0 {
      InitInv(states[0]);
    } else {
      RunCorrect(states, steps, i - 1);
      assert states[i - 1 + 1] == Next(states[i - 1], steps[i - 1]);
      LogStep(states[i - 1], steps[i - 1]);
    }
  }

  /**
   In every state of every run, a task never follows a null link, a seeker stands at a node
   that does not start above its key, and it stays only on the leaf of its key.
   */
  lemma SeekerSafe(states: seq<State>, steps: seq<Step>, i: nat, t: nat)
    requires Run(states, steps) && i < |states| && t in states[i].tasks
    requires states[i].tasks[t].Seek? || states[i].tasks[t].Find? || states[i].tasks[t].Post?
    ensures var s := states[i]; Standing(s, s.tasks[t])
    ensures var s := states[i]; var n, k := s.nodes[s.tasks[t].at], s.tasks[t].key;
      && (!s.tasks[t].Post? ==> n.low <= k)
      && (n.high <= k ==> n.right in s.nodes && s.nodes[n.right].low <= k && s.nodes[n.right].level == n.level)
      && (k < n.high && n.level > 0 ==>
           var c := Route(n.keys, n.seps, k); c in s.nodes && s.nodes[c].level == n.level - 1)
      && (k < n.high && !s.tasks[t].Post? && n.level > 0 ==> s.nodes[Route(n.keys, n.seps, k)].low <= k)
      && (k < n.high && !s.tasks[t].Post? && n.level == 0 ==>
           Covers(s.nodes, s.tasks[t].at, k) && forall x :: Covers(s.nodes, x, k) ==> x == s.tasks[t].at)
  {
    RunCorrect(states, steps, i);
    var s := states[i];
    TaskStanding(s, t);
    assert TaskOK(s.nodes, s.tasks[t]);
    var at, k := s.tasks[t].at, s.tasks[t].key;
    if Covers(s.nodes, at, k) {
      var id := LeavesTile(s, k);
    }
  }

  /** No run gets stuck on a task: an enabled execution always stands on a node of the tree. */
  lemma NeverStuck(states: seq<State>, steps: seq<Step>, i: nat, step: Step)
    requires Run(states, steps) && i < |states| && Enabled(states[i], step) && step.Execute?
    ensures Standing(states[i], states[i].tasks[step.t])
  {
    RunCorrect(states, steps, i);
    TaskStanding(states[i], step.t);
  }

  /** The place of a leaf's pair in the chain. */
  lemma PairAt(nodes: map<Id, Node>, o: seq<Id>, i: nat, p: nat, max: nat) returns (q: nat)
    requires Chain(nodes, o, max) && i < |o| && p < |nodes[o[i]].keys|
    ensures q < |Keys(nodes, o)| == |Vals(nodes, o)|
    ensures Keys(nodes, o)[q] == nodes[o[i]].keys[p] && Vals(nodes, o)[q] == nodes[o[i]].vals[p]
  {
    CutAt(nodes, o, i);
    ChainSorted(nodes, o, max, 0, MAX);
    ChainSorted(nodes, o[..i], max, 0, MAX);
    q := |Keys(nodes, o[..i])| + p;
  }

  lemma ReadPresent(s: State, at: Id, k: Key, raw: Option<Value>)
    requires Core(s) && Covers(s.nodes, at, k) && Placed(s, at) && k in s.nodes[at].keys
    ensures k in Contents(s) && ReadLeaf(s.nodes[at], k, raw) == Some(Contents(s)[k])
  {
    LeafChain(s);
    Ordered(s);
    var o, p := s.levels[0], LowerBound(s.nodes[at].keys, k);
    BoundOfPresent(s.nodes[at].keys, k);
    var q := PairAt(s.nodes, o, IndexOf(o, at), p, s.maxItems);
  }

  /** In every state of every run, a pair that a split left in an unused slot is at or above its leaf's high key. */
  lemma SpareAbove(states: seq<State>, steps: seq<Step>, i: nat, id: Id, j: nat)
    requires Run(states, steps) && i < |states| && id in states[i].nodes && states[i].nodes[id].level == 0
    ensures |states[i].nodes[id].keys| + |states[i].nodes[id].spare| == states[i].maxItems
    ensures j < |states[i].nodes[id].spare| && states[i].nodes[id].spare[j].Left? ==> states[i].nodes[id].high <= states[i].nodes[id].spare[j].key
  {
    RunCorrect(states, steps, i);
    var s := states[i];
    assert NodeOK(s.nodes, s.maxItems, s.maxKeys, id);
    assert j < |s.nodes[id].spare| ==> SlotAbove(s.nodes[id].spare[j], s.nodes[id].high);
  }

  /** The lookup of a key compares it with a slot never written or past the array: it is above all keys of the leaf. */
  predicate ReadsRaw(n: Node, k: Key) {
    (forall i :: 0 <= i < |n.keys| ==> n.keys[i] < k) && (n.spare == [] || n.spare[0].Unwritten?)
  }

  /**
   A lookup at its leaf returns the value of a key that is present. An absent key is reported
   absent unless it is above every key of the leaf and the slot behind them was never written
   or is past the array; pairs left behind by a split are never taken for it.
   */
  lemma LookupCorrect(s: State, t: nat, raw: Option<Value>)
    requires Inv(s) && t in s.tasks && s.tasks[t].Find? && Standing(s, s.tasks[t])
    requires s.nodes[s.tasks[t].at].level == 0 && s.tasks[t].key < s.nodes[s.tasks[t].at].high
    ensures var n, k := s.nodes[s.tasks[t].at], s.tasks[t].key; var r := ReadLeaf(n, k, raw);
      && (k in Contents(s) ==> r == Some(Contents(s)[k]))
      && (k !in Contents(s) ==> r == if ReadsRaw(n, k) then raw else None)
  {
    assert TaskOK(s.nodes, s.tasks[t]);
    var at, k := s.tasks[t].at, s.tasks[t].key;
    InItsLeaf(s, at, k);
    Ordered(s);
    assert k in AllKeys(s) <==> k in Contents(s);
    if k in s.nodes[at].keys {
      ReadPresent(s, at, k, raw);
    } else {
      assert NodeOK(s.nodes, s.maxItems, s.maxKeys, at);
      ReadAbsent(s.nodes[at], k, raw, s.maxItems);
    }
  }

  lemma ReadAbsent(n: Node, k: Key, raw: Option<Value>, max: nat)
    requires LeafOK(n, max) && SpareOK(n, max) && k !in n.keys && k < n.high
    ensures ReadLeaf(n, k, raw) == if ReadsRaw(n, k) then raw else None
  {
    var p := LowerBound(n.keys, k);
    assert p < |n.keys| ==> n.keys[p] in n.keys;
    assert n.spare != [] ==> SlotAbove(n.spare[0], n.high);
  }
}
