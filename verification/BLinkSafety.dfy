/** Every step of every interleaving keeps the invariant; seekers reach exactly the leaf of their key. */
module BLinkSafety {
  import opened BLinkSplit
  import opened BLinkTree
  import opened BLinkRuns

  // ---------------------------------------------------------------- parents

  lemma ParentKept(a: map<Id, Node>, b: map<Id, Node>, id: Id)
    requires Extends(a, b) && id in a && ParentOK(a, id) && b[id].parent == a[id].parent
    ensures ParentOK(b, id)
  {
  }

  lemma AdoptParents(a: map<Id, Node>, children: seq<Id>, p: Id, except: set<Id>)
    requires Parented(a, except) && p in a && p != NONE
    requires forall c :: c in children ==> c in a && a[c].level + 1 == a[p].level
    ensures Parented(Adopt(a, children, p), except) && Extends(a, Adopt(a, children, p))
  {
    var b := Adopt(a, children, p);
    forall id | id in b && id !in except ensures ParentOK(b, id) {
      if id !in children {
        assert ParentOK(a, id);
        ParentKept(a, b, id);
      }
    }
  }

  lemma EditParents(a: map<Id, Node>, at: Id, m: Node, except: set<Id>)
    requires Parented(a, except) && at in a && m.parent == a[at].parent && m.level == a[at].level && m.low == a[at].low
    ensures Parented(a[at := m], except)
  {
    var b := a[at := m];
    forall id | id in b && id !in except ensures ParentOK(b, id) {
      assert ParentOK(a, id);
      ParentKept(a, b, id);
    }
  }

  /** The new sibling has the parent of the node it was split from, if that one has any. */
  lemma HalvesParents(a: map<Id, Node>, at: Id, left: Node, right: Node, f: Id, root: Id)
    requires Parented(a, {root}) && at in a && f !in a && left.level == right.level == a[at].level && left.low == a[at].low
    requires left.parent == right.parent == a[at].parent
    ensures Parented(a[at := left][f := right], if at == root then {root, f} else {root})
  {
    var b := a[at := left][f := right];
    assert Extends(a, b);
    forall id | id in b && id != root && (id == f ==> at != root) ensures ParentOK(b, id) {
      if id == f {
        assert ParentOK(a, at);
      } else {
        assert ParentOK(a, id);
        ParentKept(a, b, id);
      }
    }
  }

  lemma NewRootParents(h: State, at: Id, f: Id, key: Key, r: Id)
    requires Core(h) && Parented(h.nodes, {at, f}) && at in h.nodes && f in h.nodes && r !in h.nodes && r != NONE
    requires h.nodes[at].level == h.nodes[f].level
    ensures Rooted(NewRoot(h, at, f, key, r))
  {
    var g := NewRoot(h, at, f, key, r);
    forall id | id in g.nodes && id != r ensures ParentOK(g.nodes, id) {
      if id != at && id != f {
        assert ParentOK(h.nodes, id);
      }
    }
  }

  lemma AdoptBoth(h: map<Id, Node>, low: bool, sep: Id, at: Id, children: seq<Id>, f: Id, except: set<Id>)
    requires Parented(h, except) && at in h && at != NONE && f in h && f != NONE && sep in h && h[sep].level + 1 == h[at].level
    requires forall c :: c in children ==> c in h && h[c].level + 1 == h[f].level
    ensures Parented(Adopt(if low then Adopt(h, [sep], at) else h, children, f), except)
  {
    AdoptParents(h, [sep], at, except);
    AdoptParents(if low then Adopt(h, [sep], at) else h, children, f, except);
  }

  lemma SplitParents(nodes: map<Id, Node>, at: Id, a: Node, b: Node, low: bool, sep: Id, f: Id, root: Id)
    requires Parented(nodes, {root}) && at in nodes && sep in nodes && f !in nodes && at != NONE && f != NONE
    requires nodes[sep].level + 1 == nodes[at].level && a.level == b.level == nodes[at].level && a.low == nodes[at].low
    requires a.parent == b.parent == nodes[at].parent
    requires forall c :: c in b.seps ==> c in nodes && nodes[c].level + 1 == b.level
    ensures var h := nodes[at := a][f := b];
      Parented(Adopt(if low then Adopt(h, [sep], at) else h, b.seps, f), if at == root then {root, f} else {root})
  {
    var h := nodes[at := a][f := b];
    HalvesParents(nodes, at, a, b, f, root);
    AdoptBoth(h, low, sep, at, b.seps, f, if at == root then {root, f} else {root});
  }

  lemma InnerHalvesParents(s: State, at: Id, sepKey: Key, sep: Id, f: Id)
    requires Core(s) && Rooted(s) && at in s.nodes && sep in s.nodes && s.nodes[sep].low == sepKey && |s.nodes[at].keys| >= 2
    requires s.nodes[at].level == s.nodes[sep].level + 1 && Unplaced(s.nodes, sep) && f !in s.nodes && f != NONE
    ensures Placed(s, at)
    ensures Parented(InnerHalves(s, at, sepKey, sep, f).nodes, if at == s.root then {s.root, f} else {s.root})
  {
    PlacedIn(s, at);
    var n := s.nodes[at];
    SepKeyNew(s, at, sepKey, sep);
    InnerSplitFits(s.nodes, n, sepKey, sep, f, s.maxKeys);
    SplitParents(s.nodes, at, LeftHalf(n, sepKey, sep, f), RightHalf(n, sepKey, sep),
                 sepKey < n.keys[|n.keys| / 2 - 1], sep, f, s.root);
  }

  // ---------------------------------------------------------------- tasks

  /** Every child in a slot was in one before, or is one of the given nodes. */
  ghost predicate SlotsFrom(a: map<Id, Node>, b: map<Id, Node>, extra: set<Id>) {
    forall x, c :: x in b && c in b[x].seps ==> c in extra || !Unplaced(a, c)
  }

  lemma StaysUnplaced(a: map<Id, Node>, b: map<Id, Node>, extra: set<Id>, sep: Id)
    requires SlotsFrom(a, b, extra) && Unplaced(a, sep) && sep !in extra
    ensures Unplaced(b, sep)
  {
  }

  /** Tasks other than the one executing are not disturbed. */
  lemma TasksKept(s: State, s': State, t: nat, h: Task, extra: set<Id>)
    requires TasksOK(s) && t in s.tasks && Extends(s.nodes, s'.nodes) && s'.tasks == s.tasks[t := h]
    requires SlotsFrom(s.nodes, s'.nodes, extra) && TaskOK(s'.nodes, h)
    requires forall u :: u in s.tasks && u != t && s.tasks[u].Post? ==> s.tasks[u].sep !in extra
    requires h.Post? ==> h.sep !in s.nodes || (s.tasks[t].Post? && h.sep == s.tasks[t].sep)
    ensures TasksOK(s')
  {
    forall u | u in s'.tasks ensures TaskOK(s'.nodes, s'.tasks[u]) {
      if u != t && s.tasks[u].Post? {
        StaysUnplaced(s.nodes, s'.nodes, extra, s.tasks[u].sep);
      }
    }
    forall u, v | u in s'.tasks && v in s'.tasks && u != v ensures SepsDiffer(s'.tasks[u], s'.tasks[v]) {
      assert SepsDiffer(s.tasks[u], s.tasks[v]);
      assert TaskOK(s.nodes, s.tasks[u]) && TaskOK(s.nodes, s.tasks[v]);
    }
  }

  // ---------------------------------------------------------------- steps

  lemma TaskStanding(s: State, t: nat)
    requires Inv(s) && t in s.tasks && (s.tasks[t].Seek? || s.tasks[t].Find? || s.tasks[t].Post?)
    ensures Standing(s, s.tasks[t])
  {
    PlacedIn(s, s.tasks[t].at);
  }

  lemma SameSlots(a: map<Id, Node>, b: map<Id, Node>, extra: set<Id>)
    requires a.Keys == b.Keys && forall id :: id in a ==> b[id].seps == a[id].seps
    ensures SlotsFrom(a, b, extra)
  {
    forall x, c | x in b && c in b[x].seps ensures !Unplaced(a, c) {
      assert c in a[x].seps;
    }
  }

  lemma MoveKeeps(s: State, t: nat, h: Task)
    requires Inv(s) && t in s.tasks && TaskOK(s.nodes, h) && (h.Post? ==> s.tasks[t].Post? && h.sep == s.tasks[t].sep)
    ensures Inv(s.(tasks := s.tasks[t := h]))
  {
    SameSlots(s.nodes, s.nodes, {});
    TasksKept(s, s.(tasks := s.tasks[t := h]), t, h, {});
  }

  lemma SetLeafStep(s: State, t: nat, k: Key, v: Value, at: Id)
    requires Inv(s) && t in s.tasks && at in s.nodes && s.nodes[at].level == 0 && s.nodes[at].low <= k < s.nodes[at].high
    requires NodeOK(s.nodes, s.maxItems, s.maxKeys, at) && k !in s.nodes[at].keys && |s.nodes[at].keys| < s.maxItems
    ensures var n := s.nodes[at]; var i := LowerBound(n.keys, k);
      Inv(SetLeaf(s.(tasks := s.tasks[t := Done]), at, InsertAt(n.keys, i, k), InsertAt(n.vals, i, v)))
  {
    var n := s.nodes[at];
    var i := LowerBound(n.keys, k);
    InsertedLeaf(n, k, v, s.maxItems);
    var d := s.(tasks := s.tasks[t := Done]);
    SetLeafKeeps(d, at, InsertAt(n.keys, i, k), InsertAt(n.vals, i, v));
    var g := SetLeaf(d, at, InsertAt(n.keys, i, k), InsertAt(n.vals, i, v));
    EditParents(s.nodes, at, g.nodes[at], {s.root});
    SameSlots(s.nodes, g.nodes, {});
    TasksKept(s, g, t, Done, {});
  }

  /** No task posts a node of the top level. */
  lemma TopNotPosted(s: State, u: nat, id: Id)
    requires Core(s) && TasksOK(s) && u in s.tasks && s.tasks[u].Post? && id in s.nodes && s.nodes[id].level == |s.levels| - 1
    ensures s.tasks[u].sep != id
  {
    assert TaskOK(s.nodes, s.tasks[u]);
    assert Listed(s.nodes, s.levels, s.tasks[u].at);
  }

  /** A split has placed sibling `f` after `at`; `extra` holds the separator it has also put in a slot, if any. */
  ghost predicate SplitOf(s: State, h: State, at: Id, sepKey: Key, f: Id, extra: set<Id>) {
    && at in s.nodes && f !in s.nodes && f != NONE && Listed(s.nodes, s.levels, at)
    && Core(h) && h.root == s.root && h.tasks == s.tasks && Extends(s.nodes, h.nodes) && h.nodes.Keys == s.nodes.Keys + {f}
    && Parented(h.nodes, if at == s.root then {s.root, f} else {s.root})
    && h.nodes[at].parent == s.nodes[at].parent && h.nodes[f].level == h.nodes[at].level && h.nodes[f].low == sepKey
    && h.levels == WithSibling(s.levels, s.nodes[at].level, at, f)
    && s.root in h.nodes && (at != s.root ==> h.nodes[s.root].parent == NONE)
    && SlotsFrom(s.nodes, h.nodes, extra) && Unplaced(h.nodes, f)
  }

  lemma RootGrows(s: State, h: State, f: Id)
    requires Core(s) && Rooted(s) && Listed(s.nodes, s.levels, s.root)
    requires h.levels == WithSibling(s.levels, s.nodes[s.root].level, s.root, f)
    ensures h.levels[|h.levels| - 1] == [s.root, f]
  {
    var top := |s.levels| - 1;
    assert LevelOK(s.nodes, s.levels[top], top);
    assert s.levels[top][0] == s.root;
  }

  lemma NewRootSlots(s: State, h: State, at: Id, key: Key, f: Id, r: Id, extra: set<Id>)
    requires SlotsFrom(s.nodes, h.nodes, extra) && at in h.nodes
    ensures SlotsFrom(s.nodes, NewRoot(h, at, f, key, r).nodes, extra + {at, f})
  {
  }

  lemma RootNotPosted(s: State, u: nat, f: Id)
    requires Core(s) && Rooted(s) && TasksOK(s) && u in s.tasks && s.tasks[u].Post? && f !in s.nodes
    ensures s.tasks[u].sep != s.root && s.tasks[u].sep != f
  {
    RootLevel(s);
    TopNotPosted(s, u, s.root);
    assert TaskOK(s.nodes, s.tasks[u]);
  }

  lemma NewRootExtends(h: State, at: Id, f: Id, key: Key, r: Id)
    requires at in h.nodes && r !in h.nodes
    ensures Extends(h.nodes, NewRoot(h, at, f, key, r).nodes)
  {
  }

  lemma NewRootStep(s: State, h: State, t: nat, sepKey: Key, f: Id, r: Id, extra: set<Id>)
    requires Inv(s) && t in s.tasks && SplitOf(s, h, s.root, sepKey, f, extra) && r !in h.nodes && r != NONE
    requires forall u :: u in s.tasks && u != t && s.tasks[u].Post? ==> s.tasks[u].sep !in extra
    ensures var g := NewRoot(h, s.root, f, sepKey, r); Inv(g.(tasks := g.tasks[t := Done]))
  {
    var g := NewRoot(h, s.root, f, sepKey, r);
    RootGrows(s, h, f);
    NewRootKeeps(h, s.root, f, r);
    NewRootParents(h, s.root, f, sepKey, r);
    NewRootSlots(s, h, s.root, sepKey, f, r, extra);
    forall u | u in s.tasks && u != t && s.tasks[u].Post? ensures s.tasks[u].sep !in extra + {s.root, f} { RootNotPosted(s, u, f); }
    NewRootExtends(h, s.root, f, sepKey, r);
    TasksKept(s, g.(tasks := g.tasks[t := Done]), t, Done, extra + {s.root, f});
  }

  lemma RootLevel(s: State)
    requires Core(s) && Rooted(s)
    ensures s.nodes[s.root].level == |s.levels| - 1
  {
    var top := |s.levels| - 1;
    assert LevelOK(s.nodes, s.levels[top], top);
    assert s.levels[top][0] == s.root;
  }

  lemma PostStep(s: State, h: State, t: nat, k: Key, at: Id, sepKey: Key, f: Id, extra: set<Id>)
    requires Inv(s) && t in s.tasks && 0 <= k < MAX && SplitOf(s, h, at, sepKey, f, extra) && at != s.root
    requires forall u :: u in s.tasks && u != t && s.tasks[u].Post? ==> s.tasks[u].sep !in extra
    ensures Inv(h.(tasks := h.tasks[t := Post(k, sepKey, f, h.nodes[at].parent)]))
  {
    assert ParentOK(s.nodes, at);
    var p := Post(k, sepKey, f, h.nodes[at].parent);
    TasksKept(s, h.(tasks := h.tasks[t := p]), t, p, extra);
  }

  /** After a split the step either grows the tree or goes on to the parent. */
  lemma AscendKeeps(s: State, h: State, t: nat, k: Key, at: Id, sepKey: Key, f: Id, r: Id, extra: set<Id>)
    requires Inv(s) && t in s.tasks && 0 <= k < MAX && SplitOf(s, h, at, sepKey, f, extra) && r !in h.nodes && r != NONE
    requires forall u :: u in s.tasks && u != t && s.tasks[u].Post? ==> s.tasks[u].sep !in extra
    ensures Inv(Ascend(h, t, k, at, sepKey, f, r))
  {
    if at == s.root {
      NewRootStep(s, h, t, sepKey, f, r, extra);
    } else {
      assert ParentOK(s.nodes, at);
      PostStep(s, h, t, k, at, sepKey, f, extra);
    }
  }

  lemma LeafSplitOf(s: State, at: Id, k: Key, v: Value, f: Id)
    requires Inv(s) && Placed(s, at) && s.nodes[at].level == 0 && s.nodes[at].low <= k < s.nodes[at].high
    requires k !in s.nodes[at].keys && |s.nodes[at].keys| == s.maxItems && f !in s.nodes && f != NONE
    ensures var h := LeafHalves(s, at, k, v, f); SplitOf(s, h, at, h.nodes[f].low, f, {}) && h.nodes[f].low == h.nodes[f].keys[0]
  {
    LeafHalvesKeep(s, at, k, v, f);
    LeafHalved(s, at, k, v, f);
    HalvedSplitOf(s, LeafHalves(s, at, k, v, f), at, f);
  }

  lemma HalvedSplitOf(s: State, h: State, at: Id, f: Id)
    requires Core(s) && Rooted(s) && Core(h) && HalvedLeaf(s.nodes, h.nodes, at, f) && Placed(s, at) && s.nodes[at].level == 0 && f != NONE
    requires h.levels == WithSibling(s.levels, 0, at, f) && h.root == s.root && h.tasks == s.tasks
    ensures SplitOf(s, h, at, h.nodes[f].low, f, {})
  {
    HalvesParents(s.nodes, at, h.nodes[at], h.nodes[f], f, s.root);
    assert h.nodes == s.nodes[at := h.nodes[at]][f := h.nodes[f]];
    forall x, c | x in h.nodes && c in h.nodes[x].seps ensures !Unplaced(s.nodes, c) {
      assert c in s.nodes[x].seps;
    }
    FreshUnplaced(s, f);
  }

  lemma LeafSplitStep(s: State, t: nat, k: Key, v: Value, at: Id, f: Id, r: Id)
    requires Inv(s) && t in s.tasks && at in s.nodes && s.nodes[at].level == 0 && s.nodes[at].low <= k < s.nodes[at].high
    requires 0 <= k < MAX && k !in s.nodes[at].keys && |s.nodes[at].keys| >= s.maxItems
    requires f !in s.nodes && r !in s.nodes && f != r && f != NONE && r != NONE && Placed(s, at)
    ensures var h := LeafHalves(s, at, k, v, f); Inv(Ascend(h, t, k, at, h.nodes[f].keys[0], f, r))
  {
    LeafSplitOf(s, at, k, v, f);
    HalvedStep(s, LeafHalves(s, at, k, v, f), t, k, at, f, r);
  }

  lemma HalvedStep(s: State, h: State, t: nat, k: Key, at: Id, f: Id, r: Id)
    requires Inv(s) && t in s.tasks && 0 <= k < MAX && f in h.nodes && SplitOf(s, h, at, h.nodes[f].low, f, {}) && r !in s.nodes && r != f && r != NONE
    ensures Inv(Ascend(h, t, k, at, h.nodes[f].low, f, r))
  {
    AscendKeeps(s, h, t, k, at, h.nodes[f].low, f, r, {});
  }

  lemma SlotsOfHalves(nodes: map<Id, Node>, at: Id, a: seq<Id>, b: seq<Id>, h: map<Id, Node>, sep: Id, f: Id)
    requires at in nodes && f !in nodes && h.Keys == nodes.Keys + {f} && Unplaced(nodes, f) && sep != f
    requires h[at].seps == a && h[f].seps == b && forall x :: x in nodes && x != at ==> h[x].seps == nodes[x].seps
    requires forall c :: c in a || c in b ==> c == sep || c in nodes[at].seps
    ensures SlotsFrom(nodes, h, {sep}) && Unplaced(h, f)
  {
    forall x, c | x in h && c in h[x].seps ensures c == sep || (c != f && !Unplaced(nodes, c)) {
      assert c == sep || c in nodes[if x == f then at else x].seps;
    }
  }

  /** Apart from parents, an inner split changes the split node and adds its sibling. */
  lemma InnerHalvesNodes(s: State, at: Id, sepKey: Key, sep: Id, f: Id)
    requires Placed(s, at) && s.nodes[at].level > 0 && |s.nodes[at].keys| >= 2
    ensures var h, m := InnerHalves(s, at, sepKey, sep, f).nodes,
                        s.nodes[at := LeftHalf(s.nodes[at], sepKey, sep, f)][f := RightHalf(s.nodes[at], sepKey, sep)];
      h.Keys == m.Keys && forall x :: x in m ==> h[x] == m[x].(parent := h[x].parent)
  {
    var n := s.nodes[at];
    var m := s.nodes[at := LeftHalf(n, sepKey, sep, f)][f := RightHalf(n, sepKey, sep)];
    AdoptFrame(m, [sep], at);
    AdoptFrame(if sepKey < n.keys[|n.keys| / 2 - 1] then Adopt(m, [sep], at) else m, RightHalf(n, sepKey, sep).seps, f);
  }

  lemma InnerHalvesFrame(s: State, at: Id, sepKey: Key, sep: Id, f: Id)
    requires Placed(s, at) && s.nodes[at].level > 0 && |s.nodes[at].keys| >= 2 && f !in s.nodes
    ensures var h := InnerHalves(s, at, sepKey, sep, f).nodes;
      && h.Keys == s.nodes.Keys + {f} && Extends(s.nodes, h)
      && h[at].seps == LeftHalf(s.nodes[at], sepKey, sep, f).seps && h[f].seps == RightHalf(s.nodes[at], sepKey, sep).seps
      && forall x :: x in s.nodes && x != at ==> h[x].seps == s.nodes[x].seps
  {
    InnerHalvesNodes(s, at, sepKey, sep, f);
    FrameOfHalves(s.nodes, InnerHalves(s, at, sepKey, sep, f).nodes, at, LeftHalf(s.nodes[at], sepKey, sep, f), RightHalf(s.nodes[at], sepKey, sep), f);
  }

  lemma FrameOfHalves(a: map<Id, Node>, h: map<Id, Node>, at: Id, left: Node, right: Node, f: Id)
    requires at in a && f !in a && left.level == a[at].level && left.low == a[at].low
    requires h.Keys == a[at := left][f := right].Keys && forall x :: x in h ==> h[x] == a[at := left][f := right][x].(parent := h[x].parent)
    ensures h.Keys == a.Keys + {f} && Extends(a, h) && h[at].seps == left.seps && h[f].seps == right.seps
    ensures forall x :: x in a && x != at ==> h[x].seps == a[x].seps
  {
  }

  /** What splitting an inner node does to slots. */
  lemma InnerHalvesSlots(s: State, at: Id, sepKey: Key, sep: Id, f: Id)
    requires Core(s) && at in s.nodes && sep in s.nodes && s.nodes[sep].low == sepKey && |s.nodes[at].keys| >= 2
    requires s.nodes[at].level == s.nodes[sep].level + 1 && Unplaced(s.nodes, sep) && f !in s.nodes
    ensures Placed(s, at)
    ensures var h := InnerHalves(s, at, sepKey, sep, f);
      SlotsFrom(s.nodes, h.nodes, {sep}) && Unplaced(h.nodes, f)
  {
    PlacedIn(s, at);
    var n := s.nodes[at];
    SepKeyNew(s, at, sepKey, sep);
    InnerSplitFits(s.nodes, n, sepKey, sep, f, s.maxKeys);
    FreshUnplaced(s, f);
    InnerHalvesFrame(s, at, sepKey, sep, f);
    SlotsOfHalves(s.nodes, at, LeftHalf(n, sepKey, sep, f).seps, RightHalf(n, sepKey, sep).seps,
                  InnerHalves(s, at, sepKey, sep, f).nodes, sep, f);
  }

  /** Only nodes one level below the split one change their parent. */
  lemma InnerHalvesKeepParent(s: State, at: Id, sepKey: Key, sep: Id, f: Id, x: Id)
    requires Core(s) && at in s.nodes && sep in s.nodes && s.nodes[sep].low == sepKey && |s.nodes[at].keys| >= 2
    requires s.nodes[at].level == s.nodes[sep].level + 1 && Unplaced(s.nodes, sep) && f !in s.nodes
    requires x in s.nodes && s.nodes[x].level >= s.nodes[at].level
    ensures Placed(s, at) && InnerHalves(s, at, sepKey, sep, f).nodes[x].parent == s.nodes[x].parent
  {
    PlacedIn(s, at);
    SepKeyNew(s, at, sepKey, sep);
    InnerSplitFits(s.nodes, s.nodes[at], sepKey, sep, f, s.maxKeys);
  }

  lemma InnerSplitOf(s: State, at: Id, sepKey: Key, sep: Id, f: Id)
    requires Core(s) && Rooted(s) && at in s.nodes && sep in s.nodes && s.nodes[sep].low == sepKey && |s.nodes[at].keys| >= 2
    requires s.nodes[at].level == s.nodes[sep].level + 1 && Unplaced(s.nodes, sep) && f !in s.nodes && f != NONE
    ensures Placed(s, at) && var n := s.nodes[at];
      SplitOf(s, InnerHalves(s, at, sepKey, sep, f), at, SplitInner(n.keys, n.seps, sepKey, sep).keyUp, f, {sep})
  {
    InnerHalvesKeep(s, at, sepKey, sep, f);
    InnerHalvesParents(s, at, sepKey, sep, f);
    InnerHalvesSlots(s, at, sepKey, sep, f);
    InnerHalvesFrame(s, at, sepKey, sep, f);
    InnerHalvesKeepParent(s, at, sepKey, sep, f, at);
    assert Listed(s.nodes, s.levels, at);
    RootLevel(s);
    InnerHalvesKeepParent(s, at, sepKey, sep, f, s.root);
  }

  lemma AddSepParents(s: State, at: Id, sepKey: Key, sep: Id)
    requires Core(s) && Rooted(s) && at in s.nodes && sep in s.nodes && s.nodes[at].level == s.nodes[sep].level + 1
    ensures Placed(s, at) && Rooted(AddSep(s, at, sepKey, sep))
  {
    PlacedIn(s, at);
    var n := s.nodes[at];
    var i := LowerBound(n.keys, sepKey);
    var m := n.(keys := InsertAt(n.keys, i, sepKey), seps := InsertAt(n.seps, i + 1, sep));
    EditParents(s.nodes, at, m, {s.root});
    AdoptParents(s.nodes[at := m], [sep], at, {s.root});
    RootLevel(s);
  }

  lemma AddSepSlots(s: State, at: Id, sepKey: Key, sep: Id)
    requires at in s.nodes && Sorted(s.nodes[at].keys) && |s.nodes[at].seps| == |s.nodes[at].keys| + 1
    ensures SlotsFrom(s.nodes, AddSep(s, at, sepKey, sep).nodes, {sep}) && Extends(s.nodes, AddSep(s, at, sepKey, sep).nodes)
  {
    var n := s.nodes[at];
    var i := LowerBound(n.keys, sepKey);
    var b := AddSep(s, at, sepKey, sep).nodes;
    forall x, c | x in b && c in b[x].seps ensures c == sep || !Unplaced(s.nodes, c) {
      if x == at { InsertedIn(n.seps, i + 1, sep, c); }
      assert c == sep || c in s.nodes[x].seps;
    }
  }

  lemma OnlyPoster(s: State, t: nat)
    requires TasksOK(s) && t in s.tasks && s.tasks[t].Post?
    ensures forall u :: u in s.tasks && u != t && s.tasks[u].Post? ==> s.tasks[u].sep != s.tasks[t].sep
  {
    forall u | u in s.tasks && u != t && s.tasks[u].Post? ensures s.tasks[u].sep != s.tasks[t].sep {
      assert SepsDiffer(s.tasks[u], s.tasks[t]);
    }
  }

  lemma RoomStep(s: State, t: nat)
    requires Inv(s) && t in s.tasks && s.tasks[t].Post? && Standing(s, s.tasks[t]) && |s.nodes[s.tasks[t].at].keys| < s.maxKeys
    ensures var p := s.tasks[t]; Inv(AddSep(s.(tasks := s.tasks[t := Done]), p.at, p.sepKey, p.sep))
  {
    var p := s.tasks[t];
    assert TaskOK(s.nodes, p);
    var d := s.(tasks := s.tasks[t := Done]);
    AddSepKeeps(d, p.at, p.sepKey, p.sep);
    AddSepParents(d, p.at, p.sepKey, p.sep);
    AddSepSlots(d, p.at, p.sepKey, p.sep);
    OnlyPoster(s, t);
    TasksKept(s, AddSep(d, p.at, p.sepKey, p.sep), t, Done, {p.sep});
  }

  lemma InnerStep(s: State, t: nat, f: Id, r: Id)
    requires Inv(s) && t in s.tasks && s.tasks[t].Post? && f !in s.nodes && r !in s.nodes && f != r && f != NONE && r != NONE
    ensures var p := s.tasks[t]; Standing(s, p) && Inv(InsertIntoInner(s, t, p.key, p.sepKey, p.sep, p.at, f, r))
  {
    TaskStanding(s, t);
    var p := s.tasks[t];
    if |s.nodes[p.at].keys| < s.maxKeys {
      RoomStep(s, t);
    } else {
      assert TaskOK(s.nodes, p);
      InnerSplitOf(s, p.at, p.sepKey, p.sep, f);
      OnlyPoster(s, t);
      var n := s.nodes[p.at];
      AscendKeeps(s, InnerHalves(s, p.at, p.sepKey, p.sep, f), t, p.key, p.at,
                  SplitInner(n.keys, n.seps, p.sepKey, p.sep).keyUp, f, r, {p.sep});
    }
  }

  lemma LeafStep(s: State, t: nat, f: Id, r: Id)
    requires Inv(s) && t in s.tasks && s.tasks[t].Seek? && f !in s.nodes && r !in s.nodes && f != r && f != NONE && r != NONE
    requires Standing(s, s.tasks[t])
    requires var n := s.nodes[s.tasks[t].at]; n.level == 0 && s.tasks[t].key < n.high
    ensures var h := s.tasks[t]; Inv(InsertIntoLeaf(s, t, h.key, h.value, h.at, f, r))
  {
    var h := s.tasks[t];
    assert TaskOK(s.nodes, h);
    var n := s.nodes[h.at];
    var i := LowerBound(n.keys, h.key);
    if i < |n.keys| && n.keys[i] == h.key {
      MoveKeeps(s, t, Done);
    } else if |n.keys| < s.maxItems {
      SetLeafStep(s, t, h.key, h.value, h.at);
    } else {
      LeafSplitStep(s, t, h.key, h.value, h.at, f, r);
    }
  }

  /** Every step of every interleaving keeps the invariant. */
  lemma StepKeepsInv(s: State, step: Step)
    requires Inv(s) && Enabled(s, step)
    ensures (step.Execute? ==> Standing(s, s.tasks[step.t])) && Inv(Next(s, step))
  {
    if step.Execute? {
      var t := step.t;
      TaskStanding(s, t);
      assert TaskOK(s.nodes, s.tasks[t]);
      var h := s.tasks[t];
      var n := s.nodes[h.at];
      if n.high <= h.key {
        MoveKeeps(s, t, Moved(h, n.right));
      } else if h.Post? {
        InnerStep(s, t, step.f, step.r);
      } else if n.level > 0 {
        MoveKeeps(s, t, Moved(h, Route(n.keys, n.seps, h.key)));
      } else if h.Find? {
        MoveKeeps(s, t, Found(h.key, ReadLeaf(n, h.key, step.raw)));
      } else {
        LeafStep(s, t, step.f, step.r);
      }
    } else {
      StartKeeps(s, step);
    }
  }

  lemma StartKeeps(s: State, step: Step)
    requires Inv(s) && Enabled(s, step) && !step.Execute?
    ensures Inv(Next(s, step))
  {
    var top := |s.levels| - 1;
    assert LevelOK(s.nodes, s.levels[top], top);
    assert s.levels[top][0] == s.root;
  }
}
