/**
 Inserts run one at a time: between two of them parents are exact, every child ends where
 the next separator begins, and the tree passes every consistency check. While an insert
 is posting a separator, the only deviation is the node left of that separator.
 */
module BLinkSequential {
  import opened BLinkSplit
  import opened BLinkTree
  import opened BLinkRuns
  import opened BLinkSafety
  import opened BLinkContents

  /** Where the range of the child in slot i must end. */
  function Bound(n: Node, i: nat): Key {
    if i < |n.keys| then n.keys[i] else n.high
  }

  /** Where a child's range ends once the sibling that is being posted is counted in. */
  function Reach(nodes: map<Id, Node>, sep: Id, c: Id): Key
    requires c in nodes
  {
    if sep in nodes && nodes[c].right == sep then nodes[sep].high else nodes[c].high
  }

  predicate KidOK(nodes: map<Id, Node>, sep: Id, n: Node, id: Id, i: nat)
    requires i < |n.seps|
  {
    n.seps[i] in nodes && nodes[n.seps[i]].parent == id && Reach(nodes, sep, n.seps[i]) == Bound(n, i)
  }

  /** The children of a node point back to it and end where the next one begins. */
  predicate Kids(nodes: map<Id, Node>, sep: Id, n: Node, id: Id) {
    forall i {:trigger KidOK(nodes, sep, n, id, i)} :: 0 <= i < |n.seps| ==> KidOK(nodes, sep, n, id, i)
  }

  /** The keys of an inner node lie strictly inside its range. */
  predicate Inside(n: Node) {
    n.keys != [] && n.low < n.keys[0] && n.keys[|n.keys| - 1] < n.high
  }

  predicate InParent(nodes: map<Id, Node>, id: Id)
    requires id in nodes
  {
    nodes[id].parent in nodes && id in nodes[nodes[id].parent].seps
  }

  predicate Tidy(nodes: map<Id, Node>, root: Id, sep: Id, id: Id)
    requires id in nodes
  {
    && (nodes[id].level > 0 ==> Inside(nodes[id]) && Kids(nodes, sep, nodes[id], id))
    && (id != root && id != sep ==> InParent(nodes, id))
  }

  predicate AllTidy(nodes: map<Id, Node>, root: Id, sep: Id) {
    forall id {:trigger Tidy(nodes, root, sep, id)} :: id in nodes ==> Tidy(nodes, root, sep, id)
  }

  // ---------------------------------------------------------------- ranges

  lemma Ranged(s: State, sep: Id, id: Id)
    requires Core(s) && id in s.nodes && Tidy(s.nodes, s.root, sep, id)
    ensures s.nodes[id].low < s.nodes[id].high
  {
    var n := s.nodes[id];
    assert NodeOK(s.nodes, s.maxItems, s.maxKeys, id);
    if n.level > 0 {
      assert n.keys[0] <= n.keys[|n.keys| - 1];
    }
  }

  /** Only one node has a given right neighbour. */
  lemma RightOnce(s: State, x: Id, y: Id)
    requires Core(s) && x in s.nodes && y in s.nodes && s.nodes[x].right == s.nodes[y].right != NONE
    ensures x == y
  {
    assert NodeOK(s.nodes, s.maxItems, s.maxKeys, x) && NodeOK(s.nodes, s.maxItems, s.maxKeys, y);
    assert Listed(s.nodes, s.levels, x) && Listed(s.nodes, s.levels, y);
    var l := s.nodes[x].level;
    var o := s.levels[l];
    assert LevelOK(s.nodes, o, l);
    var i, j := IndexOf(o, x), IndexOf(o, y);
    assert s.nodes[o[i]].right == NextIn(o, i) && s.nodes[o[j]].right == NextIn(o, j);
  }

  /** Adding the posted separator to a node: every child then ends at its bound. */
  lemma AddedKids(nodes: map<Id, Node>, sep: Id, n: Node, id: Id, j: nat, max: nat)
    requires InnerOK(nodes, n, max) && Kids(nodes, sep, n, id) && Inside(n) && sep in nodes && j < |n.seps|
    requires nodes[n.seps[j]].right == sep && nodes[n.seps[j]].high == nodes[sep].low
    requires nodes[n.seps[j]].low < nodes[sep].low < nodes[sep].high
    requires forall i :: 0 <= i < |n.seps| && i != j ==> nodes[n.seps[i]].right != sep
    ensures LowerBound(n.keys, nodes[sep].low) == j
    ensures var m := n.(keys := InsertAt(n.keys, j, nodes[sep].low), seps := InsertAt(n.seps, j + 1, sep));
      && Inside(m)
      && forall i :: 0 <= i < |m.seps| ==>
        m.seps[i] in nodes && nodes[m.seps[i]].high == Bound(m, i) && (m.seps[i] != sep ==> nodes[m.seps[i]].parent == id)
  {
    var k := nodes[sep].low;
    var m := n.(keys := InsertAt(n.keys, j, k), seps := InsertAt(n.seps, j + 1, sep));
    assert KidOK(nodes, sep, n, id, j);
    assert j > 0 ==> n.keys[j - 1] == nodes[n.seps[j]].low;
    LowerBoundUnique(n.keys, k, j);
    forall i | 0 <= i < |m.seps| ensures m.seps[i] in nodes && nodes[m.seps[i]].high == Bound(m, i)
      && (m.seps[i] != sep ==> nodes[m.seps[i]].parent == id)
    {
      if i <= j {
        assert KidOK(nodes, sep, n, id, i) && m.seps[i] == n.seps[i];
      } else if i == j + 1 {
        assert m.seps[i] == sep;
      } else {
        assert KidOK(nodes, sep, n, id, i - 1) && m.seps[i] == n.seps[i - 1];
      }
    }
  }

  // ---------------------------------------------------------------- what a split leaves alone

  lemma KidsMoved(a: map<Id, Node>, h: map<Id, Node>, sep: Id, sep': Id, n: Node, m: Node, id: Id)
    requires Kids(a, sep, n, id) && m.keys == n.keys && m.seps == n.seps && m.high == n.high
    requires forall c :: c in n.seps && c in a ==>
      c in h && h[c].parent == a[c].parent && Reach(h, sep', c) == Reach(a, sep, c)
    ensures Kids(h, sep', m, id)
  {
    forall i | 0 <= i < |n.seps| ensures KidOK(h, sep', m, id, i) {
      assert KidOK(a, sep, n, id, i);
      assert n.seps[i] in n.seps;
    }
  }

  /** `f` has been split off `at`; all other nodes keep their end and their right neighbour. */
  predicate SplitShape(a: map<Id, Node>, h: map<Id, Node>, at: Id, f: Id) {
    && at in a && f !in a && h.Keys == a.Keys + {f} && h[at].right == f && h[f].high == a[at].high
    && forall c :: c in a && c != at ==> h[c].right == a[c].right != f && h[c].high == a[c].high
  }

  lemma ReachKept(a: map<Id, Node>, h: map<Id, Node>, at: Id, f: Id, sep: Id, c: Id)
    requires SplitShape(a, h, at, f) && c in a && (sep in a ==> a[c].right != sep)
    ensures Reach(h, f, c) == Reach(a, sep, c)
  {
  }

  /** The posted separator is the right neighbour of a child of `at` and of no other node. */
  predicate Beside(a: map<Id, Node>, at: Id, sep: Id, left: Id) {
    at in a && left in a && left in a[at].seps && sep in a && forall x :: x in a ==> (a[x].right == sep <==> x == left)
  }

  // ---------------------------------------------------------------- splitting a leaf

  lemma LeafShape(s: State, h: map<Id, Node>, at: Id, f: Id)
    requires Core(s) && HalvedLeaf(s.nodes, h, at, f) && f != NONE
    ensures SplitShape(s.nodes, h, at, f)
  {
    forall c | c in s.nodes ensures s.nodes[c].right != f {
      assert NodeOK(s.nodes, s.maxItems, s.maxKeys, c);
    }
  }

  lemma NoneAbsent(s: State)
    requires Core(s)
    ensures NONE !in s.nodes
  {
    assert NONE in s.nodes ==> NodeOK(s.nodes, s.maxItems, s.maxKeys, NONE);
  }

  lemma LeafSplitTidy(s: State, h: map<Id, Node>, at: Id, f: Id)
    requires Core(s) && HalvedLeaf(s.nodes, h, at, f) && s.nodes[at].level == 0 && f != NONE && AllTidy(s.nodes, s.root, NONE)
    ensures AllTidy(h, s.root, f)
  {
    NoneAbsent(s);
    LeafShape(s, h, at, f);
    forall id | id in h ensures Tidy(h, s.root, f, id) {
      if id != f {
        assert Tidy(s.nodes, s.root, NONE, id);
        if h[id].level > 0 {
          forall c | c in h[id].seps && c in s.nodes ensures Reach(h, f, c) == Reach(s.nodes, NONE, c) {
            ReachKept(s.nodes, h, at, f, NONE, c);
          }
          KidsMoved(s.nodes, h, NONE, f, s.nodes[id], h[id], id);
        }
      }
    }
  }

  // ---------------------------------------------------------------- posting with room

  lemma AddSepKids(s: State, at: Id, sep: Id, left: Id, id: Id)
    requires Placed(s, at) && s.nodes[at].level > 0 && SlotsOnce(s.nodes) && Unplaced(s.nodes, sep) && NONE !in s.nodes
    requires Beside(s.nodes, at, sep, left) && id in s.nodes && id != at && Kids(s.nodes, sep, s.nodes[id], id)
    ensures var g := AddSep(s, at, s.nodes[sep].low, sep).nodes; Kids(g, NONE, g[id], id)
  {
    var g := AddSep(s, at, s.nodes[sep].low, sep).nodes;
    forall c | c in s.nodes[id].seps && c in s.nodes
      ensures c in g && g[c].parent == s.nodes[c].parent && Reach(g, NONE, c) == Reach(s.nodes, sep, c)
    {
      assert SlotsApart(s.nodes, id, at);
      assert c != left && c != sep;
    }
    KidsMoved(s.nodes, g, sep, NONE, s.nodes[id], g[id], id);
  }

  lemma AddSepInParent(s: State, at: Id, sep: Id, id: Id)
    requires Placed(s, at) && s.nodes[at].level > 0 && sep in s.nodes && id in s.nodes && (id != sep ==> InParent(s.nodes, id))
    ensures InParent(AddSep(s, at, s.nodes[sep].low, sep).nodes, id)
  {
    var n := s.nodes[at];
    InsertedIn(n.seps, LowerBound(n.keys, s.nodes[sep].low) + 1, sep, id);
  }

  lemma AddSepTidy(s: State, at: Id, sep: Id, left: Id)
    requires Core(s) && at in s.nodes && sep in s.nodes && s.nodes[at].level == s.nodes[sep].level + 1
    requires Unplaced(s.nodes, sep) && AllTidy(s.nodes, s.root, sep) && Beside(s.nodes, at, sep, left)
    ensures Placed(s, at) && AllTidy(AddSep(s, at, s.nodes[sep].low, sep).nodes, s.root, NONE)
  {
    PlacedIn(s, at);
    NoneAbsent(s);
    var g := AddSep(s, at, s.nodes[sep].low, sep).nodes;
    var j := LeftSlot(s, at, sep, left);
    AddedSlots(s, at, sep, left, j);
    forall id | id in g ensures Tidy(g, s.root, NONE, id) {
      assert Tidy(s.nodes, s.root, sep, id);
      if id != s.root { AddSepInParent(s, at, sep, id); }
      if g[id].level > 0 && id != at { AddSepKids(s, at, sep, left, id); }
    }
  }

  /** The slot of the node left of the posted separator, with the facts about its neighbours. */
  lemma LeftSlot(s: State, at: Id, sep: Id, left: Id) returns (j: nat)
    requires Core(s) && Placed(s, at) && s.nodes[at].level > 0 && AllTidy(s.nodes, s.root, sep) && Beside(s.nodes, at, sep, left)
    ensures var n := s.nodes[at]; j < |n.seps| && n.seps[j] == left && Kids(s.nodes, sep, n, at) && Inside(n)
    ensures var n := s.nodes[at]; forall i :: 0 <= i < |n.seps| && i != j ==> s.nodes[n.seps[i]].right != sep
    ensures s.nodes[left].high == s.nodes[sep].low && s.nodes[left].low < s.nodes[sep].low < s.nodes[sep].high
  {
    j := IndexOf(s.nodes[at].seps, left);
    assert Tidy(s.nodes, s.root, sep, at) && Tidy(s.nodes, s.root, sep, left) && Tidy(s.nodes, s.root, sep, sep);
    assert NodeOK(s.nodes, s.maxItems, s.maxKeys, left) && NodeOK(s.nodes, s.maxItems, s.maxKeys, sep);
    Ranged(s, sep, left);
    Ranged(s, sep, sep);
  }

  lemma AddedSlots(s: State, at: Id, sep: Id, left: Id, j: nat)
    requires Core(s) && Placed(s, at) && s.nodes[at].level > 0 && Beside(s.nodes, at, sep, left) && NONE !in s.nodes
    requires var n := s.nodes[at]; j < |n.seps| && n.seps[j] == left && Kids(s.nodes, sep, n, at) && Inside(n)
    requires var n := s.nodes[at]; forall i :: 0 <= i < |n.seps| && i != j ==> s.nodes[n.seps[i]].right != sep
    requires s.nodes[left].high == s.nodes[sep].low && s.nodes[left].low < s.nodes[sep].low < s.nodes[sep].high
    ensures var n, g := s.nodes[at], AddSep(s, at, s.nodes[sep].low, sep).nodes;
      g[at].seps == InsertAt(n.seps, j + 1, sep) && Inside(g[at]) && Kids(g, NONE, g[at], at)
  {
    var n, g := s.nodes[at], AddSep(s, at, s.nodes[sep].low, sep).nodes;
    AddedKids(s.nodes, sep, n, at, j, s.maxKeys);
    var m := n.(keys := InsertAt(n.keys, j, s.nodes[sep].low), seps := InsertAt(n.seps, j + 1, sep));
    assert g[at].seps == m.seps && g[at].keys == m.keys && g[at].high == m.high && g[at].low == m.low;
    forall i | 0 <= i < |m.seps| ensures KidOK(g, NONE, g[at], at, i) {
    }
  }

  // ---------------------------------------------------------------- posting with a split

  /** Cutting a node with its children: each half ends where its last child ends. */
  lemma CutKids(nodes: map<Id, Node>, h: map<Id, Node>, m: Node, a: Node, b: Node, at: Id, f: Id)
    requires m.keys == a.keys + [b.low] + b.keys && m.seps == a.seps + b.seps && Sorted(m.keys) && Inside(m)
    requires |a.seps| == |a.keys| + 1 && |b.seps| == |b.keys| + 1 && a.keys != [] && b.keys != []
    requires a.low == m.low && a.high == b.low && b.high == m.high
    requires forall i :: 0 <= i < |m.seps| ==> m.seps[i] in nodes && nodes[m.seps[i]].high == Bound(m, i)
    requires forall c :: c in m.seps ==> c in h && h[c].high == nodes[c].high && h[c].right != f
    requires (forall c :: c in a.seps ==> h[c].parent == at) && (forall c :: c in b.seps ==> h[c].parent == f)
    ensures Inside(a) && Inside(b) && Kids(h, f, a, at) && Kids(h, f, b, f)
  {
    var c := |a.seps|;
    assert m.keys[c - 1] == b.low && m.keys[0] == a.keys[0];
    assert m.keys[c - 2] == a.keys[c - 2] && m.keys[c] == b.keys[0] && m.keys[|m.keys| - 1] == b.keys[|b.keys| - 1];
    forall i | 0 <= i < |a.seps| ensures KidOK(h, f, a, at, i) {
      assert a.seps[i] == m.seps[i] && a.seps[i] in a.seps && m.seps[i] in m.seps;
      assert Bound(a, i) == Bound(m, i);
    }
    forall i | 0 <= i < |b.seps| ensures KidOK(h, f, b, f, i) {
      assert b.seps[i] == m.seps[c + i] && b.seps[i] in b.seps && m.seps[c + i] in m.seps;
      assert Bound(b, i) == Bound(m, c + i);
    }
  }

  /** Which half the posted separator goes to. */
  lemma SepHalf(n: Node, sepKey: Key, sep: Id, f: Id)
    requires |n.keys| >= 2 && |n.seps| == |n.keys| + 1 && Sorted(n.keys) && sep !in n.seps
    ensures sep in LeftHalf(n, sepKey, sep, f).seps ==> sepKey < n.keys[|n.keys| / 2 - 1]
  {
  }

  lemma NoLinkTo(s: State, f: Id)
    requires Core(s) && f !in s.nodes && f != NONE
    ensures forall c :: c in s.nodes ==> s.nodes[c].right != f
  {
    forall c | c in s.nodes ensures s.nodes[c].right != f {
      assert NodeOK(s.nodes, s.maxItems, s.maxKeys, c);
    }
  }

  /** The node map after an inner split, field by field. */
  lemma InnerShape(s: State, at: Id, sepKey: Key, sep: Id, f: Id)
    requires Placed(s, at) && s.nodes[at].level > 0 && |s.nodes[at].keys| >= 2 && f !in s.nodes
    requires forall c :: c in s.nodes ==> s.nodes[c].right != f
    ensures var h, n := InnerHalves(s, at, sepKey, sep, f).nodes, s.nodes[at];
      && SplitShape(s.nodes, h, at, f)
      && (forall x :: x in s.nodes && x != at ==> h[x] == s.nodes[x].(parent := h[x].parent))
      && h[at] == LeftHalf(n, sepKey, sep, f).(parent := h[at].parent)
      && h[f] == RightHalf(n, sepKey, sep).(parent := h[f].parent)
  {
    InnerHalvesNodes(s, at, sepKey, sep, f);
    ShapeOfHalves(s.nodes, InnerHalves(s, at, sepKey, sep, f).nodes, at, LeftHalf(s.nodes[at], sepKey, sep, f), RightHalf(s.nodes[at], sepKey, sep), f);
  }

  lemma ShapeOfHalves(a: map<Id, Node>, h: map<Id, Node>, at: Id, left: Node, right: Node, f: Id)
    requires at in a && f !in a && left.right == f && right.high == a[at].high && forall c :: c in a ==> a[c].right != f
    requires h.Keys == a[at := left][f := right].Keys && forall x :: x in h ==> h[x] == a[at := left][f := right][x].(parent := h[x].parent)
    ensures SplitShape(a, h, at, f) && (forall x :: x in a && x != at ==> h[x] == a[x].(parent := h[x].parent))
    ensures h[at] == left.(parent := h[at].parent) && h[f] == right.(parent := h[f].parent)
  {
  }

  lemma InnerParents(s: State, at: Id, sepKey: Key, sep: Id, f: Id)
    requires Placed(s, at) && s.nodes[at].level > 0 && |s.nodes[at].keys| >= 2 && f !in s.nodes && sep in s.nodes && at != sep
    ensures var h, n := InnerHalves(s, at, sepKey, sep, f).nodes, s.nodes[at];
      forall x :: x in s.nodes ==>
        (h[x].parent == if x in RightHalf(n, sepKey, sep).seps then f
                        else if x == sep && sepKey < n.keys[|n.keys| / 2 - 1] then at else s.nodes[x].parent)
  {
  }

  /** What posting with a split starts from. */
  ghost predicate Posting(s: State, at: Id, sep: Id, left: Id) {
    && Core(s) && Placed(s, at) && sep in s.nodes && s.nodes[at].level == s.nodes[sep].level + 1 && |s.nodes[at].keys| >= 2
    && Unplaced(s.nodes, sep) && AllTidy(s.nodes, s.root, sep) && Beside(s.nodes, at, sep, left)
  }

  /** The separators of the two halves are those of the node and the posted one. */
  lemma HalfSeps(s: State, at: Id, sep: Id, left: Id, f: Id)
    requires Posting(s, at, sep, left)
    ensures var n := s.nodes[at];
      var a, b := LeftHalf(n, s.nodes[sep].low, sep, f), RightHalf(n, s.nodes[sep].low, sep);
      && (forall c :: c in a.seps || c in b.seps <==> c == sep || c in n.seps)
      && (forall c :: !(c in a.seps && c in b.seps))
      && (sep in a.seps ==> s.nodes[sep].low < n.keys[|n.keys| / 2 - 1])
  {
    SepKeyNew(s, at, s.nodes[sep].low, sep);
    InnerSplitFits(s.nodes, s.nodes[at], s.nodes[sep].low, sep, f, s.maxKeys);
    SepHalf(s.nodes[at], s.nodes[sep].low, sep, f);
  }

  /** Parents after the split: the halves own their separators, nobody else changes. */
  lemma HalfParents(s: State, at: Id, sep: Id, left: Id, f: Id)
    requires Posting(s, at, sep, left) && f !in s.nodes
    ensures var h, n := InnerHalves(s, at, s.nodes[sep].low, sep, f).nodes, s.nodes[at];
      var a, b := LeftHalf(n, s.nodes[sep].low, sep, f), RightHalf(n, s.nodes[sep].low, sep);
      && (forall c :: c in b.seps && c in s.nodes ==> h[c].parent == f)
      && (forall c :: c in a.seps && c in s.nodes ==> h[c].parent == if c == sep then at else s.nodes[c].parent)
      && (forall c :: c in s.nodes && c != sep && c !in n.seps ==> h[c].parent == s.nodes[c].parent)
  {
    HalfSeps(s, at, sep, left, f);
    InnerParents(s, at, s.nodes[sep].low, sep, f);
  }

  /** The node with the posted separator inserted, before the cut. */
  lemma Uncut(s: State, at: Id, sep: Id, left: Id, f: Id) returns (m: Node)
    requires Posting(s, at, sep, left)
    ensures var n, k := s.nodes[at], s.nodes[sep].low;
      var a, b := LeftHalf(n, k, sep, f), RightHalf(n, k, sep);
      && m.keys == a.keys + [b.low] + b.keys && m.seps == a.seps + b.seps && Sorted(m.keys) && Inside(m)
      && |a.seps| == |a.keys| + 1 && |b.seps| == |b.keys| + 1 && a.keys != [] && b.keys != []
      && a.low == m.low && b.high == m.high
    ensures forall i :: 0 <= i < |m.seps| ==>
      m.seps[i] in s.nodes && s.nodes[m.seps[i]].high == Bound(m, i) && (m.seps[i] != sep ==> s.nodes[m.seps[i]].parent == at)
    ensures forall c :: c in m.seps ==> c in s.nodes && c != at
  {
    var n, k := s.nodes[at], s.nodes[sep].low;
    var j := LeftSlot(s, at, sep, left);
    AddedKids(s.nodes, sep, n, at, j, s.maxKeys);
    SepKeyNew(s, at, k, sep);
    SplitIsInsertion(n.keys, n.seps, k, sep);
    InsertSorted(n.keys, k);
    MembersLower(s, at, sep, j);
    m := n.(keys := InsertAt(n.keys, j, k), seps := InsertAt(n.seps, j + 1, sep));
  }

  lemma HalvesKids(s: State, at: Id, sep: Id, left: Id, f: Id)
    requires Posting(s, at, sep, left) && f !in s.nodes && f != NONE
    ensures var h := InnerHalves(s, at, s.nodes[sep].low, sep, f).nodes;
      && at in h && f in h && Inside(h[at]) && Inside(h[f]) && Kids(h, f, h[at], at) && Kids(h, f, h[f], f)
  {
    var n, k := s.nodes[at], s.nodes[sep].low;
    var h := InnerHalves(s, at, k, sep, f).nodes;
    var a, b := LeftHalf(n, k, sep, f), RightHalf(n, k, sep);
    var m := Uncut(s, at, sep, left, f);
    NoLinkTo(s, f);
    InnerShape(s, at, k, sep, f);
    HalfParents(s, at, sep, left, f);
    HalvesOwn(s.nodes, h, m, a, b, at, f, sep, n);
    SameKids(h, f, a, h[at], at);
    SameKids(h, f, b, h[f], f);
  }

  lemma SameKids(h: map<Id, Node>, sep: Id, n: Node, m: Node, id: Id)
    requires Kids(h, sep, n, id) && m.keys == n.keys && m.seps == n.seps && m.high == n.high
    ensures Kids(h, sep, m, id)
  {
    forall i | 0 <= i < |m.seps| ensures KidOK(h, sep, m, id, i) {
      assert KidOK(h, sep, n, id, i);
    }
  }

  lemma MembersLower(s: State, at: Id, sep: Id, j: nat)
    requires Core(s) && Placed(s, at) && sep in s.nodes && s.nodes[at].level == s.nodes[sep].level + 1 && j < |s.nodes[at].seps|
    ensures forall c :: c in InsertAt(s.nodes[at].seps, j + 1, sep) ==> c in s.nodes && c != at && (c == sep || c in s.nodes[at].seps)
  {
    forall c | c in InsertAt(s.nodes[at].seps, j + 1, sep)
      ensures c in s.nodes && c != at && (c == sep || c in s.nodes[at].seps)
    {
      InsertedIn(s.nodes[at].seps, j + 1, sep, c);
    }
  }

  lemma HalvesOwn(nodes: map<Id, Node>, h: map<Id, Node>, m: Node, a: Node, b: Node, at: Id, f: Id, sep: Id, n: Node)
    requires m.keys == a.keys + [b.low] + b.keys && m.seps == a.seps + b.seps && Sorted(m.keys) && Inside(m)
    requires |a.seps| == |a.keys| + 1 && |b.seps| == |b.keys| + 1 && a.keys != [] && b.keys != []
    requires a.low == m.low && a.high == b.low && b.high == m.high && SplitShape(nodes, h, at, f)
    requires forall i :: 0 <= i < |m.seps| ==>
      m.seps[i] in nodes && nodes[m.seps[i]].high == Bound(m, i) && (m.seps[i] != sep ==> nodes[m.seps[i]].parent == at)
    requires forall c :: c in m.seps ==> c in nodes && c != at
    requires forall c :: c in b.seps && c in nodes ==> h[c].parent == f
    requires forall c :: c in a.seps && c in nodes ==> h[c].parent == if c == sep then at else nodes[c].parent
    ensures Inside(a) && Inside(b) && Kids(h, f, a, at) && Kids(h, f, b, f)
  {
    forall c | c in a.seps || c in b.seps ensures c in m.seps {}
    forall c | c in a.seps ensures h[c].parent == at {
      assert c in m.seps;
      var i :| 0 <= i < |m.seps| && m.seps[i] == c;
    }
    CutKids(nodes, h, m, a, b, at, f);
  }

  lemma InnerSplitOthers(s: State, at: Id, sep: Id, left: Id, f: Id, id: Id)
    requires Posting(s, at, sep, left) && f !in s.nodes && f != NONE && id in s.nodes && id != at && s.nodes[id].level > 0
    ensures var h := InnerHalves(s, at, s.nodes[sep].low, sep, f).nodes; id in h && Inside(h[id]) && Kids(h, f, h[id], id)
  {
    var h := InnerHalves(s, at, s.nodes[sep].low, sep, f).nodes;
    NoLinkTo(s, f);
    InnerShape(s, at, s.nodes[sep].low, sep, f);
    HalfParents(s, at, sep, left, f);
    assert Tidy(s.nodes, s.root, sep, id);
    forall c | c in s.nodes[id].seps && c in s.nodes
      ensures c in h && h[c].parent == s.nodes[c].parent && Reach(h, f, c) == Reach(s.nodes, sep, c)
    {
      assert SlotsApart(s.nodes, id, at);
      assert c != sep && c !in s.nodes[at].seps;
      ReachKept(s.nodes, h, at, f, sep, c);
    }
    KidsMoved(s.nodes, h, sep, f, s.nodes[id], h[id], id);
  }

  lemma MemberInParent(s: State, at: Id, sep: Id, left: Id, f: Id, id: Id)
    requires Posting(s, at, sep, left) && f !in s.nodes && f != NONE && id in s.nodes && (id == sep || id in s.nodes[at].seps)
    ensures var h := InnerHalves(s, at, s.nodes[sep].low, sep, f).nodes; id in h && InParent(h, id)
  {
    var h, n := InnerHalves(s, at, s.nodes[sep].low, sep, f).nodes, s.nodes[at];
    InnerHalvesFrame(s, at, s.nodes[sep].low, sep, f);
    HalfSeps(s, at, sep, left, f);
    HalfParents(s, at, sep, left, f);
    assert Tidy(s.nodes, s.root, sep, at);
    if id != sep {
      var i :| 0 <= i < |n.seps| && n.seps[i] == id;
      assert KidOK(s.nodes, sep, n, at, i);
    }
  }

  lemma InnerSplitInParent(s: State, at: Id, sep: Id, left: Id, f: Id, id: Id)
    requires Posting(s, at, sep, left) && f !in s.nodes && f != NONE && id in s.nodes && id != s.root
    ensures var h := InnerHalves(s, at, s.nodes[sep].low, sep, f).nodes; id in h && InParent(h, id)
  {
    if id == sep || id in s.nodes[at].seps {
      MemberInParent(s, at, sep, left, f, id);
    } else {
      InnerHalvesFrame(s, at, s.nodes[sep].low, sep, f);
      HalfParents(s, at, sep, left, f);
      assert Tidy(s.nodes, s.root, sep, id);
    }
  }

  lemma InnerSplitTidy(s: State, at: Id, sep: Id, left: Id, f: Id)
    requires Posting(s, at, sep, left) && f !in s.nodes && f != NONE
    ensures AllTidy(InnerHalves(s, at, s.nodes[sep].low, sep, f).nodes, s.root, f)
  {
    var h := InnerHalves(s, at, s.nodes[sep].low, sep, f).nodes;
    HalvesKids(s, at, sep, left, f);
    InnerHalvesFrame(s, at, s.nodes[sep].low, sep, f);
    forall id | id in h ensures Tidy(h, s.root, f, id) {
      if id != f && id != s.root { InnerSplitInParent(s, at, sep, left, f, id); }
      if id != f && id != at && h[id].level > 0 { InnerSplitOthers(s, at, sep, left, f, id); }
    }
  }

  // ---------------------------------------------------------------- a new root

  lemma NewRootTidy(h: State, at: Id, f: Id, r: Id)
    requires Core(h) && at in h.nodes && f in h.nodes && at != f && r !in h.nodes && r != NONE
    requires h.levels[|h.levels| - 1] == [at, f] && AllTidy(h.nodes, at, f)
    ensures AllTidy(NewRoot(h, at, f, h.nodes[f].low, r).nodes, r, NONE)
  {
    NoneAbsent(h);
    var top := |h.levels| - 1;
    var o := h.levels[top];
    assert LevelOK(h.nodes, o, top);
    assert o[0] == at && o[1] == f && h.nodes[o[0]].right == NextIn(o, 0) && h.nodes[o[1]].right == NextIn(o, 1);
    assert NodeOK(h.nodes, h.maxItems, h.maxKeys, at) && NodeOK(h.nodes, h.maxItems, h.maxKeys, f);
    assert Tidy(h.nodes, at, f, at);
    Ranged(h.(root := at), f, at);
    var g := NewRoot(h, at, f, h.nodes[f].low, r).nodes;
    assert KidOK(g, NONE, g[r], r, 0) && KidOK(g, NONE, g[r], r, 1);
    forall id | id in g ensures Tidy(g, r, NONE, id) {
      if id != r {
        assert Tidy(h.nodes, at, f, id);
        if id != at && id != f { NewRootInParent(h, at, f, r, id); }
        if g[id].level > 0 { NewRootKids(h, at, f, r, id); }
      }
    }
  }

  lemma NewRootInParent(h: State, at: Id, f: Id, r: Id, id: Id)
    requires at in h.nodes && f in h.nodes && id in h.nodes && id != at && id != f && r !in h.nodes && InParent(h.nodes, id)
    ensures InParent(NewRoot(h, at, f, h.nodes[f].low, r).nodes, id)
  {
  }

  lemma NewRootKids(h: State, at: Id, f: Id, r: Id, id: Id)
    requires Core(h) && at in h.nodes && f in h.nodes && at != f && r !in h.nodes && r != NONE
    requires id in h.nodes && Kids(h.nodes, f, h.nodes[id], id)
    requires h.nodes[at].right == f && h.nodes[at].level == h.nodes[f].level == |h.levels| - 1
    ensures var g := NewRoot(h, at, f, h.nodes[f].low, r).nodes; Kids(g, NONE, g[id], id)
  {
    var g := NewRoot(h, at, f, h.nodes[f].low, r).nodes;
    TopUnplaced(h, at);
    TopUnplaced(h, f);
    NoneAbsent(h);
    forall c | c in h.nodes[id].seps && c in h.nodes
      ensures c in g && g[c].parent == h.nodes[c].parent && Reach(g, NONE, c) == Reach(h.nodes, f, c)
    {
      if h.nodes[c].right == f {
        RightOnce(h, c, at);
      }
    }
    KidsMoved(h.nodes, g, f, NONE, h.nodes[id], g[id], id);
  }

  // ---------------------------------------------------------------- the sequential invariant

  predicate Active(h: Task) {
    h.Seek? || h.Find? || h.Post?
  }

  /** A seeker is always inside the range of its node; a poster is at the parent of the node it split. */
  ghost predicate Close(s: State, h: Task) {
    match h
    case Seek(k, _, at) => at in s.nodes && s.nodes[at].low <= k < s.nodes[at].high
    case Find(k, at) => at in s.nodes && s.nodes[at].low <= k < s.nodes[at].high
    case Post(k, _, sep, at) =>
      exists left :: Beside(s.nodes, at, sep, left) && s.nodes[left].low <= k < s.nodes[sep].high
    case _ => true
  }

  /** At most one task is active; `sep` is the separator it is posting, if any. */
  ghost predicate SeqInv(s: State, sep: Id) {
    && Inv(s) && AllTidy(s.nodes, s.root, sep)
    && (forall t, u :: t in s.tasks && u in s.tasks && Active(s.tasks[t]) && Active(s.tasks[u]) ==> t == u)
    && (forall t :: t in s.tasks ==> Close(s, s.tasks[t]) && (s.tasks[t].Post? ==> s.tasks[t].sep == sep))
    && (sep != NONE ==> exists t :: t in s.tasks && s.tasks[t].Post?)
    && (s.log == [] ==> s.levels == [[s.root]])
    && (forall id :: id in s.nodes && s.nodes[id].level == 0 && s.log != [] ==> s.nodes[id].keys != [])
  }

  // ---------------------------------------------------------------- steps, one task at a time

  /** A task starts only when no other is active. */
  predicate Alone(s: State, step: Step) {
    !step.Execute? ==> forall t :: t in s.tasks ==> !Active(s.tasks[t])
  }

  lemma BesideSplit(s: State, h: State, at: Id, f: Id)
    requires Core(s) && Core(h) && SplitShape(s.nodes, h.nodes, at, f) && f != NONE && at != s.root
    requires InParent(h.nodes, at)
    ensures Beside(h.nodes, h.nodes[at].parent, f, at)
  {
    forall x | x in h.nodes ensures h.nodes[x].right == f <==> x == at {
      if h.nodes[x].right == f { RightOnce(h, x, at); }
    }
  }

  /** After a split on the way up, either the new root completes the insert or its sibling is being posted. */
  lemma AscendTidy(s: State, h: State, t: nat, k: Key, at: Id, f: Id, r: Id, extra: set<Id>)
    requires Inv(s) && t in s.tasks && SplitShape(s.nodes, h.nodes, at, f) && SplitOf(s, h, at, h.nodes[f].low, f, extra)
    requires r !in h.nodes && r != NONE && f != NONE && AllTidy(h.nodes, s.root, f)
    requires h.nodes[at].low <= k < h.nodes[f].high
    ensures var g := Ascend(h, t, k, at, h.nodes[f].low, f, r);
      AllTidy(g.nodes, g.root, if at == s.root then NONE else f) && Close(g, g.tasks[t])
      && (at == s.root ==> g.tasks[t].Done?)
  {
    if at == s.root {
      RootGrows(s, h, f);
      NewRootTidy(h, at, f, r);
    } else {
      assert ParentOK(s.nodes, at);
      assert Tidy(h.nodes, s.root, f, at);
      BesideSplit(s, h, at, f);
      var g := Ascend(h, t, k, at, h.nodes[f].low, f, r);
      assert Beside(g.nodes, g.tasks[t].at, f, at);
    }
  }

  /** The node a posting task stands on covers the task's key. */
  lemma PosterInside(s: State, sep: Id, t: nat, left: Id)
    requires SeqInv(s, sep) && t in s.tasks && s.tasks[t].Post?
    requires Beside(s.nodes, s.tasks[t].at, sep, left) && s.nodes[left].low <= s.tasks[t].key < s.nodes[sep].high
    ensures var n := s.nodes[s.tasks[t].at]; n.low <= s.tasks[t].key < n.high && s.nodes[sep].high <= n.high
  {
    var at := s.tasks[t].at;
    var n := s.nodes[at];
    assert TaskOK(s.nodes, s.tasks[t]);
    PlacedIn(s, at);
    assert Tidy(s.nodes, s.root, sep, at);
    var j := IndexOf(n.seps, left);
    assert KidOK(s.nodes, sep, n, at, j);
    assert j > 0 ==> n.keys[0] <= n.keys[j - 1] == s.nodes[left].low;
    assert j < |n.keys| ==> n.keys[j] <= n.keys[|n.keys| - 1];
  }

  lemma PostSplitTidy(s: State, t: nat, k: Key, at: Id, sep: Id, left: Id, f: Id, r: Id)
    requires Inv(s) && t in s.tasks && Posting(s, at, sep, left) && s.nodes[at].low <= k < s.nodes[at].high
    requires f !in s.nodes && r !in s.nodes && f != r && f != NONE && r != NONE
    ensures var n, sk := s.nodes[at], s.nodes[sep].low;
      var g := Ascend(InnerHalves(s, at, sk, sep, f), t, k, at, SplitInner(n.keys, n.seps, sk, sep).keyUp, f, r);
      && AllTidy(g.nodes, g.root, if at == s.root then NONE else f) && Close(g, g.tasks[t]) && (at == s.root ==> g.tasks[t].Done?)
  {
    InnerSplitTidy(s, at, sep, left, f);
    InnerSplitOf(s, at, s.nodes[sep].low, sep, f);
    NoLinkTo(s, f);
    InnerShape(s, at, s.nodes[sep].low, sep, f);
    AscendTidy(s, InnerHalves(s, at, s.nodes[sep].low, sep, f), t, k, at, f, r, {sep});
  }

  /** The outcome of a step of the one active task. */
  ghost predicate Outcome(g: State, t: nat, f: Id) {
    && t in g.tasks && Close(g, g.tasks[t]) && AllTidy(g.nodes, g.root, if g.tasks[t].Post? then f else NONE)
    && (g.tasks[t].Post? ==> g.tasks[t].sep == f)
  }

  lemma PostTidy(s: State, sep: Id, t: nat, f: Id, r: Id, left: Id)
    requires SeqInv(s, sep) && t in s.tasks && s.tasks[t].Post? && Standing(s, s.tasks[t])
    requires Beside(s.nodes, s.tasks[t].at, sep, left) && s.nodes[left].low <= s.tasks[t].key < s.nodes[sep].high
    requires f !in s.nodes && r !in s.nodes && f != r && f != NONE && r != NONE
    ensures var p := s.tasks[t]; Outcome(InsertIntoInner(s, t, p.key, p.sepKey, p.sep, p.at, f, r), t, f)
  {
    var p := s.tasks[t];
    assert TaskOK(s.nodes, p);
    PosterInside(s, sep, t, left);
    if |s.nodes[p.at].keys| < s.maxKeys {
      AddSepTidy(s.(tasks := s.tasks[t := Done]), p.at, sep, left);
    } else {
      assert Posting(s, p.at, sep, left);
      PostSplitTidy(s, t, p.key, p.at, sep, left, f, r);
      InnerHalvesKeepParent(s, p.at, p.sepKey, sep, f, p.at);
      assert p.at != s.root ==> ParentOK(s.nodes, p.at);
    }
  }

  /** Changing the pairs of a leaf disturbs nothing above it. */
  lemma SetLeafTidy(s: State, at: Id, keys: seq<Key>, vals: seq<Value>)
    requires at in s.nodes && s.nodes[at].level == 0 && NONE !in s.nodes && AllTidy(s.nodes, s.root, NONE)
    ensures AllTidy(SetLeaf(s, at, keys, vals).nodes, s.root, NONE)
  {
    var g := SetLeaf(s, at, keys, vals).nodes;
    forall id | id in g ensures Tidy(g, s.root, NONE, id) {
      assert Tidy(s.nodes, s.root, NONE, id);
      if g[id].level > 0 { KidsMoved(s.nodes, g, NONE, NONE, s.nodes[id], g[id], id); }
    }
  }

  lemma LeafSplitStepTidy(s: State, t: nat, k: Key, v: Value, at: Id, f: Id, r: Id)
    requires Inv(s) && t in s.tasks && Placed(s, at) && s.nodes[at].level == 0 && AllTidy(s.nodes, s.root, NONE)
    requires s.nodes[at].low <= k < s.nodes[at].high && k !in s.nodes[at].keys && |s.nodes[at].keys| >= s.maxItems
    requires f !in s.nodes && r !in s.nodes && f != r && f != NONE && r != NONE
    ensures var h := LeafHalves(s, at, k, v, f); Outcome(Ascend(h, t, k, at, h.nodes[f].keys[0], f, r), t, f)
  {
    var h := LeafHalves(s, at, k, v, f);
    LeafHalved(s, at, k, v, f);
    LeafSplitOf(s, at, k, v, f);
    HalvedOutcome(s, h, t, k, at, f, r);
  }

  lemma HalvedOutcome(s: State, h: State, t: nat, k: Key, at: Id, f: Id, r: Id)
    requires Inv(s) && t in s.tasks && HalvedLeaf(s.nodes, h.nodes, at, f) && SplitOf(s, h, at, h.nodes[f].low, f, {})
    requires s.nodes[at].level == 0 && AllTidy(s.nodes, s.root, NONE) && s.nodes[at].low <= k < s.nodes[at].high
    requires r !in s.nodes && f != r && f != NONE && r != NONE
    ensures Outcome(Ascend(h, t, k, at, h.nodes[f].low, f, r), t, f)
  {
    LeafShape(s, h.nodes, at, f);
    LeafSplitTidy(s, h.nodes, at, f);
    AscendTidy(s, h, t, k, at, f, r, {});
    assert at != s.root ==> ParentOK(s.nodes, at);
  }

  lemma LeafTidy(s: State, t: nat, f: Id, r: Id)
    requires SeqInv(s, NONE) && t in s.tasks && s.tasks[t].Seek? && Standing(s, s.tasks[t])
    requires s.nodes[s.tasks[t].at].level == 0
    requires f !in s.nodes && r !in s.nodes && f != r && f != NONE && r != NONE
    ensures var h := s.tasks[t]; Outcome(InsertIntoLeaf(s, t, h.key, h.value, h.at, f, r), t, f)
  {
    var h := s.tasks[t];
    assert Close(s, h);
    NoneAbsent(s);
    var n := s.nodes[h.at];
    var i := LowerBound(n.keys, h.key);
    if !(i < |n.keys| && n.keys[i] == h.key) {
      if |n.keys| < s.maxItems {
        SetLeafTidy(s, h.at, InsertAt(n.keys, i, h.key), InsertAt(n.vals, i, h.value));
      } else {
        LeafSplitStepTidy(s, t, h.key, h.value, h.at, f, r);
      }
    }
  }

  /** Going down, a seeker stays inside the range of its node. */
  lemma DescendInside(s: State, at: Id, k: Key)
    requires Core(s) && Placed(s, at) && s.nodes[at].level > 0 && AllTidy(s.nodes, s.root, NONE)
    requires s.nodes[at].low <= k < s.nodes[at].high
    ensures var n := s.nodes[at]; var c := Route(n.keys, n.seps, k); c in s.nodes && s.nodes[c].low <= k < s.nodes[c].high
  {
    NoneAbsent(s);
    var n := s.nodes[at];
    assert Tidy(s.nodes, s.root, NONE, at);
    assert KidOK(s.nodes, NONE, n, at, Slot(n.keys, k));
  }

  /** No leaf is empty after the first insert has reached its leaf. */
  lemma NonEmptyKept(s: State, step: Step)
    requires Inv(s) && Enabled(s, step) && LeafTurn(s, step) && (s.log == [] ==> s.levels == [[s.root]])
    requires forall id :: id in s.nodes && s.nodes[id].level == 0 && s.log != [] ==> s.nodes[id].keys != []
    ensures forall id :: id in Next(s, step).nodes && Next(s, step).nodes[id].level == 0 ==> Next(s, step).nodes[id].keys != []
  {
    var h := s.tasks[step.t];
    var g := Next(s, step);
    forall id | id in g.nodes && g.nodes[id].level == 0 ensures g.nodes[id].keys != [] {
      if id in s.nodes && id != h.at {
        assert Listed(s.nodes, s.levels, id) && Listed(s.nodes, s.levels, h.at);
        OtherLeaf(s, step, id);
      } else {
        OwnLeaf(s, step, id);
      }
    }
  }

  lemma OtherLeaf(s: State, step: Step, id: Id)
    requires Enabled(s, step) && LeafTurn(s, step) && id in s.nodes && id != s.tasks[step.t].at
    ensures id in Next(s, step).nodes && Next(s, step).nodes[id].keys == s.nodes[id].keys
    ensures Next(s, step).nodes[id].level == s.nodes[id].level
  {
    var h := s.tasks[step.t];
    InsertOther(s, step.t, h.key, h.value, h.at, step.f, step.r, id);
  }

  lemma InsertOther(s: State, t: nat, k: Key, v: Value, at: Id, f: Id, r: Id, id: Id)
    requires Placed(s, at) && s.nodes[at].level == 0 && f !in s.nodes && r !in s.nodes && r != f && id in s.nodes && id != at
    ensures var g := InsertIntoLeaf(s, t, k, v, at, f, r).nodes; id in g && g[id].keys == s.nodes[id].keys && g[id].level == s.nodes[id].level
  {
    var n := s.nodes[at];
    BoundOf(n.keys, k);
    if |n.keys| >= s.maxItems && k !in n.keys {
      LeafHalved(s, at, k, v, f);
      var m := LeafHalves(s, at, k, v, f);
      AscendKeepsKeys(m, t, k, at, m.nodes[f].keys[0], f, r, id);
    }
  }

  /** The lower bound of a key tells whether it is there. */
  lemma BoundOf(keys: seq<Key>, k: Key)
    requires Sorted(keys)
    ensures k in keys <==> LowerBound(keys, k) < |keys| && keys[LowerBound(keys, k)] == k
  {
    if k in keys { BoundOfPresent(keys, k); }
  }

  lemma AscendKeepsKeys(h: State, t: nat, k: Key, at: Id, sepKey: Key, f: Id, r: Id, id: Id)
    requires at in h.nodes && r !in h.nodes && id in h.nodes
    ensures var g := Ascend(h, t, k, at, sepKey, f, r).nodes; id in g && g[id].keys == h.nodes[id].keys && g[id].level == h.nodes[id].level
  {
  }

  lemma OwnLeaf(s: State, step: Step, id: Id)
    requires Enabled(s, step) && LeafTurn(s, step) && (id == s.tasks[step.t].at || id !in s.nodes)
    ensures id in Next(s, step).nodes && Next(s, step).nodes[id].level == 0 ==> Next(s, step).nodes[id].keys != []
  {
    var h := s.tasks[step.t];
    var n := s.nodes[h.at];
    BoundOf(n.keys, h.key);
    if |n.keys| >= s.maxItems && h.key !in n.keys { OwnHalves(s, step.t, h.key, h.value, h.at, step.f, step.r, id); }
  }

  lemma OwnHalves(s: State, t: nat, k: Key, v: Value, at: Id, f: Id, r: Id, id: Id)
    requires Placed(s, at) && s.nodes[at].level == 0 && |s.nodes[at].keys| >= 2 && k !in s.nodes[at].keys && f !in s.nodes && r !in s.nodes && r != f
    requires id == at || id !in s.nodes
    ensures var h := LeafHalves(s, at, k, v, f); var g := Ascend(h, t, k, at, h.nodes[f].keys[0], f, r);
      id in g.nodes && g.nodes[id].level == 0 ==> g.nodes[id].keys != []
  {
    LeafHalved(s, at, k, v, f);
    var h := LeafHalves(s, at, k, v, f);
    if id in h.nodes { AscendKeepsKeys(h, t, k, at, h.nodes[f].keys[0], f, r, id); }
  }

  /** Steps that leave the tree alone: a start, or a seeker going down. */
  lemma IdleStep(s: State, sep: Id, step: Step)
    requires SeqInv(s, sep) && Enabled(s, step) && Alone(s, step)
    requires step.Execute? ==> s.tasks[step.t].Find? || (s.tasks[step.t].Seek? && s.nodes[s.tasks[step.t].at].level > 0)
    ensures (step.Execute? ==> Standing(s, s.tasks[step.t])) && SeqInv(Next(s, step), NONE)
  {
    StepKeepsInv(s, step);
    var g := Next(s, step);
    assert sep == NONE;
    if step.Execute? {
      var h := s.tasks[step.t];
      assert Close(s, h);
      if s.nodes[h.at].level > 0 {
        DescendInside(s, h.at, h.key);
      }
    } else {
      assert TaskOK(g.nodes, g.tasks[step.t]);
      RootCovers(s);
    }
    assert g.nodes == s.nodes && g.levels == s.levels && g.log == s.log && g.root == s.root;
    assert Close(g, g.tasks[step.t]);
    SameClose(s, g, step.t);
  }

  lemma RootCovers(s: State)
    requires Inv(s)
    ensures s.nodes[s.root].high == MAX
  {
    var top := |s.levels| - 1;
    var o := s.levels[top];
    assert LevelOK(s.nodes, o, top);
    assert o[0] == s.root && s.nodes[o[0]].right == NextIn(o, 0);
    assert NodeOK(s.nodes, s.maxItems, s.maxKeys, s.root);
  }

  /** The tasks that are not active are close whatever the tree is. */
  lemma SameClose(s: State, g: State, t: nat)
    requires t in g.tasks && Close(g, g.tasks[t]) && (forall u :: u in g.tasks && u != t ==> !Active(g.tasks[u]))
    ensures forall u :: u in g.tasks ==> Close(g, g.tasks[u])
  {
  }

  lemma OnlyActive(s: State, sep: Id, t: nat)
    requires SeqInv(s, sep) && t in s.tasks && Active(s.tasks[t])
    ensures (forall u :: u in s.tasks && u != t ==> !Active(s.tasks[u])) && (!s.tasks[t].Post? ==> sep == NONE)
    ensures s.tasks[t].Post? ==> s.tasks[t].sep == sep && sep != NONE
  {
    NoneAbsent(s);
    assert TaskOK(s.nodes, s.tasks[t]);
  }

  lemma PostWork(s: State, sep: Id, step: Step) returns (next: Id)
    requires SeqInv(s, sep) && Enabled(s, step) && step.Execute? && s.tasks[step.t].Post?
    ensures Standing(s, s.tasks[step.t]) && SeqInv(Next(s, step), next)
  {
    var t, h := step.t, s.tasks[step.t];
    OnlyActive(s, sep, t);
    StepKeepsInv(s, step);
    var g := Next(s, step);
    assert Close(s, h);
    var left :| Beside(s.nodes, h.at, sep, left) && s.nodes[left].low <= h.key < s.nodes[sep].high;
    PosterInside(s, sep, t, left);
    PostTidy(s, sep, t, step.f, step.r, left);
    PostKeepsLeaves(s, step);
    PostLog(s, step);
    next := if g.tasks[t].Post? then step.f else NONE;
    OutcomeInv(s, g, t, step.f, next);
  }

  lemma PostLog(s: State, step: Step)
    requires Enabled(s, step) && step.Execute? && s.tasks[step.t].Post? && Standing(s, s.tasks[step.t])
    ensures var g := Next(s, step); g.log == s.log && step.t in g.tasks && g.tasks == s.tasks[step.t := g.tasks[step.t]]
  {
  }

  lemma LeafWork(s: State, step: Step) returns (next: Id)
    requires SeqInv(s, NONE) && Enabled(s, step) && step.Execute?
    requires s.tasks[step.t].Seek? && s.nodes[s.tasks[step.t].at].level == 0
    ensures Standing(s, s.tasks[step.t]) && SeqInv(Next(s, step), next)
  {
    var t, h := step.t, s.tasks[step.t];
    OnlyActive(s, NONE, t);
    StepKeepsInv(s, step);
    var g := Next(s, step);
    assert Close(s, h);
    LeafTidy(s, t, step.f, step.r);
    NonEmptyKept(s, step);
    LeafLog(s, step);
    next := if g.tasks[t].Post? then step.f else NONE;
    OutcomeInv(s, g, t, step.f, next);
  }

  lemma LeafLog(s: State, step: Step)
    requires Enabled(s, step) && LeafTurn(s, step)
    ensures var g, h := Next(s, step), InsertIntoLeaf(s, step.t, s.tasks[step.t].key, s.tasks[step.t].value, s.tasks[step.t].at, step.f, step.r);
      g == h.(log := g.log) && g.log != [] && step.t in g.tasks && g.tasks == s.tasks[step.t := g.tasks[step.t]]
  {
  }

  lemma OutcomeInv(s: State, g: State, t: nat, f: Id, next: Id)
    requires Inv(g) && Outcome(g, t, f) && next == if g.tasks[t].Post? then f else NONE
    requires t in s.tasks && g.tasks == s.tasks[t := g.tasks[t]] && forall u :: u in s.tasks && u != t ==> !Active(s.tasks[u])
    requires g.log != [] && forall id :: id in g.nodes && g.nodes[id].level == 0 ==> g.nodes[id].keys != []
    ensures SeqInv(g, next)
  {
    SameClose(s, g, t);
  }

  lemma PostKeepsLeaves(s: State, step: Step)
    requires Inv(s) && Enabled(s, step) && step.Execute? && s.tasks[step.t].Post? && Standing(s, s.tasks[step.t])
    requires s.tasks[step.t].key < s.nodes[s.tasks[step.t].at].high && (s.log == [] ==> s.levels == [[s.root]])
    requires forall id :: id in s.nodes && s.nodes[id].level == 0 && s.log != [] ==> s.nodes[id].keys != []
    ensures s.log != []
    ensures forall id :: id in Next(s, step).nodes && Next(s, step).nodes[id].level == 0 ==> Next(s, step).nodes[id].keys != []
  {
    StepKeepsInv(s, step);
    var g := Next(s, step);
    assert Listed(s.nodes, s.levels, s.tasks[step.t].at);
    InnerStepSameLeaves(s, step.t, step.f, step.r);
    forall id | id in g.nodes && g.nodes[id].level == 0 ensures g.nodes[id].keys != [] {
      assert Listed(g.nodes, g.levels, id);
      assert LevelOK(s.nodes, s.levels[0], 0);
    }
  }

  /** One task at a time, every step keeps the tree tidy. */
  lemma SeqStep(s: State, sep: Id, step: Step) returns (next: Id)
    requires SeqInv(s, sep) && Enabled(s, step) && Alone(s, step)
    ensures (step.Execute? ==> Standing(s, s.tasks[step.t])) && SeqInv(Next(s, step), next)
  {
    if step.Execute? && s.tasks[step.t].Post? {
      next := PostWork(s, sep, step);
    } else if step.Execute? && s.tasks[step.t].Seek? && s.nodes[s.tasks[step.t].at].level == 0 {
      OnlyActive(s, sep, step.t);
      next := LeafWork(s, step);
    } else {
      next := NONE;
      IdleStep(s, sep, step);
    }
  }
}
