/** The invariant of the latched B-link tree is kept by every step of every task. */
module BLinkRuns {
  import opened BLinkSplit
  import opened BLinkTree

  // ---------------------------------------------------------------- frames

  /** Old nodes keep their level and low bound. */
  predicate Extends(a: map<Id, Node>, b: map<Id, Node>) {
    forall id :: id in a ==> id in b && b[id].level == a[id].level && b[id].low == a[id].low
  }

  lemma InnerKept(a: map<Id, Node>, b: map<Id, Node>, n: Node, maxKeys: nat)
    requires Extends(a, b) && InnerOK(a, n, maxKeys)
    ensures InnerOK(b, n, maxKeys)
  {
  }

  lemma NodeKept(s: State, b: map<Id, Node>, id: Id)
    requires Extends(s.nodes, b) && id in s.nodes && NodeOK(s.nodes, s.maxItems, s.maxKeys, id) && id in b
    requires b[id] == s.nodes[id].(parent := b[id].parent)
    ensures NodeOK(b, s.maxItems, s.maxKeys, id)
  {
    if s.nodes[id].level > 0 {
      InnerKept(s.nodes, b, s.nodes[id], s.maxKeys);
    }
  }

  lemma LowKept(a: map<Id, Node>, b: map<Id, Node>)
    requires Extends(a, b) && a.Keys == b.Keys && LowUnique(a)
    ensures LowUnique(b)
  {
    forall x, y | x in b && y in b && x != y ensures LowsDiffer(b, x, y) {
      assert LowsDiffer(a, x, y);
    }
  }

  lemma LevelsKept(a: map<Id, Node>, b: map<Id, Node>, levels: seq<seq<Id>>)
    requires Extends(a, b) && a.Keys == b.Keys && LevelsOK(a, levels)
    requires forall id :: id in a ==> b[id].right == a[id].right
    ensures LevelsOK(b, levels)
  {
    forall l | 0 <= l < |levels| ensures LevelOK(b, levels[l], l) {
      assert LevelOK(a, levels[l], l);
    }
    forall id | id in b ensures Listed(b, levels, id) {
      assert Listed(a, levels, id);
    }
  }

  lemma AdoptFrame(a: map<Id, Node>, children: seq<Id>, p: Id)
    ensures var b := Adopt(a, children, p); b.Keys == a.Keys && forall x :: x in a ==> b[x] == a[x].(parent := b[x].parent)
  {
  }

  /** Only parent fields changed. */
  lemma SlotsSame(a: map<Id, Node>, b: map<Id, Node>)
    requires SlotsOnce(a) && a.Keys == b.Keys && forall id :: id in a ==> b[id].seps == a[id].seps
    ensures SlotsOnce(b)
  {
    forall x, y | x in b && y in b && x != y ensures SlotsApart(b, x, y) { assert SlotsApart(a, x, y); }
  }

  lemma AdoptKeeps(s: State, children: seq<Id>, p: Id)
    requires Core(s)
    ensures Core(s.(nodes := Adopt(s.nodes, children, p)))
  {
    var b := Adopt(s.nodes, children, p);
    forall id | id in b ensures NodeOK(b, s.maxItems, s.maxKeys, id) {
      assert NodeOK(s.nodes, s.maxItems, s.maxKeys, id);
      NodeKept(s, b, id);
    }
    SlotsSame(s.nodes, b);
    LowKept(s.nodes, b);
    LevelsKept(s.nodes, b, s.levels);
  }

  lemma PlacedIn(s: State, id: Id)
    requires Core(s) && id in s.nodes
    ensures Placed(s, id)
  {
    assert NodeOK(s.nodes, s.maxItems, s.maxKeys, id) && Listed(s.nodes, s.levels, id);
  }

  // ---------------------------------------------------------------- leaf and separator insertion

  lemma SetLeafKeeps(s: State, at: Id, keys: seq<Key>, vals: seq<Value>)
    requires Core(s) && at in s.nodes && s.nodes[at].level == 0
    requires LeafOK(s.nodes[at].(keys := keys, vals := vals), s.maxItems) && |keys| == |s.nodes[at].keys| + 1
    ensures Core(SetLeaf(s, at, keys, vals))
  {
    var b := SetLeaf(s, at, keys, vals).nodes;
    forall id | id in b ensures NodeOK(b, s.maxItems, s.maxKeys, id) {
      assert NodeOK(s.nodes, s.maxItems, s.maxKeys, id);
      if id != at { NodeKept(s, b, id); }
    }
    SlotsSame(s.nodes, b);
    LowKept(s.nodes, b);
    LevelsKept(s.nodes, b, s.levels);
  }

  /** A separator being posted is a new key for every node of its level. */
  lemma SepKeyNew(s: State, at: Id, sepKey: Key, sep: Id)
    requires Core(s) && at in s.nodes && sep in s.nodes && s.nodes[sep].low == sepKey
    requires s.nodes[at].level == s.nodes[sep].level + 1 && Unplaced(s.nodes, sep)
    ensures sepKey !in s.nodes[at].keys
  {
    var n := s.nodes[at];
    assert NodeOK(s.nodes, s.maxItems, s.maxKeys, at);
    forall i | 0 <= i < |n.keys| ensures n.keys[i] != sepKey {
      var c := n.seps[i + 1];
      assert c in n.seps;
      assert LowsDiffer(s.nodes, c, sep);
    }
  }

  lemma InsertedDistinct(o: seq<Id>, i: nat, x: Id)
    requires DistinctIds(o) && i <= |o| && x !in o
    ensures DistinctIds(InsertAt(o, i, x))
  {
    var r := InsertAt(o, i, x);
    forall a, b | 0 <= a < b < |r| ensures r[a] != r[b] {
      assert r[a] == if a < i then o[a] else if a == i then x else o[a - 1];
      assert r[b] == if b < i then o[b] else if b == i then x else o[b - 1];
    }
  }

  lemma InsertedIn<T>(o: seq<T>, i: nat, x: T, y: T)
    requires i <= |o|
    ensures y in InsertAt(o, i, x) <==> y == x || y in o
  {
    var r := InsertAt(o, i, x);
    assert r[i] == x;
    if y in o {
      var j :| 0 <= j < |o| && o[j] == y;
      assert r[if j < i then j else j + 1] == y;
    }
  }

  /** The inserted separator fits the separators around it. */
  lemma InsertedInner(nodes: map<Id, Node>, n: Node, sepKey: Key, sep: Id, max: nat)
    requires InnerOK(nodes, n, max) && |n.keys| < max
    requires sep in nodes && nodes[sep].low == sepKey && nodes[sep].level + 1 == n.level && sepKey !in n.keys
    ensures var i := LowerBound(n.keys, sepKey);
      InnerOK(nodes, n.(keys := InsertAt(n.keys, i, sepKey), seps := InsertAt(n.seps, i + 1, sep)), max)
  {
    var i := LowerBound(n.keys, sepKey);
    InsertSorted(n.keys, sepKey);
    var keys, seps := InsertAt(n.keys, i, sepKey), InsertAt(n.seps, i + 1, sep);
    forall j | 0 <= j < |seps| ensures seps[j] in nodes && nodes[seps[j]].level + 1 == n.level
      && (j > 0 ==> nodes[seps[j]].low == keys[j - 1]) {
      assert seps[j] == if j <= i then n.seps[j] else if j == i + 1 then sep else n.seps[j - 1];
      assert j > 0 ==> keys[j - 1] == if j - 1 < i then n.keys[j - 1] else if j - 1 == i then sepKey else n.keys[j - 2];
    }
  }

  /** The separators of one node change to ones that were there or were in no slot. */
  lemma SlotsKept(a: map<Id, Node>, b: map<Id, Node>, at: Id, sep: Id)
    requires SlotsOnce(a) && a.Keys == b.Keys && at in a && Unplaced(a, sep) && DistinctIds(b[at].seps)
    requires forall id :: id in a && id != at ==> b[id].seps == a[id].seps
    requires forall c :: c in b[at].seps ==> c == sep || c in a[at].seps
    ensures SlotsOnce(b)
  {
    forall x, y | x in b && y in b && x != y ensures SlotsApart(b, x, y) {
      assert SlotsApart(a, x, y);
    }
  }

  lemma AddSepEdit(s: State, at: Id, m: Node, sep: Id)
    requires Core(s) && at in s.nodes && m.level == s.nodes[at].level && m.low == s.nodes[at].low && m.high == s.nodes[at].high
    requires m.right == s.nodes[at].right && InnerOK(s.nodes, m, s.maxKeys) && Unplaced(s.nodes, sep)
    requires DistinctIds(m.seps) && forall c :: c in m.seps ==> c == sep || c in s.nodes[at].seps
    ensures Core(s.(nodes := s.nodes[at := m]))
  {
    var b := s.nodes[at := m];
    assert Extends(s.nodes, b);
    InnerKept(s.nodes, b, m, s.maxKeys);
    forall id | id in b ensures NodeOK(b, s.maxItems, s.maxKeys, id) {
      assert NodeOK(s.nodes, s.maxItems, s.maxKeys, id);
      if id != at { NodeKept(s, b, id); }
    }
    SlotsKept(s.nodes, b, at, sep);
    LowKept(s.nodes, b);
    LevelsKept(s.nodes, b, s.levels);
  }

  lemma AddSepKeeps(s: State, at: Id, sepKey: Key, sep: Id)
    requires Core(s) && at in s.nodes && sep in s.nodes && s.nodes[sep].low == sepKey
    requires s.nodes[at].level == s.nodes[sep].level + 1 && Unplaced(s.nodes, sep) && |s.nodes[at].keys| < s.maxKeys
    ensures NodeOK(s.nodes, s.maxItems, s.maxKeys, at) && Core(AddSep(s, at, sepKey, sep))
  {
    var n := s.nodes[at];
    assert NodeOK(s.nodes, s.maxItems, s.maxKeys, at);
    SepKeyNew(s, at, sepKey, sep);
    var i := LowerBound(n.keys, sepKey);
    var m := n.(keys := InsertAt(n.keys, i, sepKey), seps := InsertAt(n.seps, i + 1, sep));
    InsertedInner(s.nodes, n, sepKey, sep, s.maxKeys);
    InsertedDistinct(n.seps, i + 1, sep);
    forall c | c in m.seps ensures c == sep || c in n.seps { InsertedIn(n.seps, i + 1, sep, c); }
    AddSepEdit(s, at, m, sep);
    AdoptKeeps(s.(nodes := s.nodes[at := m]), [sep], at);
  }

  // ---------------------------------------------------------------- splits

  /** What the two halves of a split must satisfy. */
  ghost predicate HalvesFit(s: State, at: Id, left: Node, right: Node, f: Id) {
    && at in s.nodes && f !in s.nodes && f != NONE
    && var n := s.nodes[at];
    && left.level == right.level == n.level && left.low == n.low && left.right == f
    && left.high == right.low && 0 <= right.low < MAX && right.high == n.high && right.right == n.right
    && (forall y :: y in s.nodes ==> s.nodes[y].level != n.level || s.nodes[y].low != right.low)
    && DistinctIds(left.seps) && DistinctIds(right.seps)
  }

  lemma HalvesLevel(a: map<Id, Node>, o: seq<Id>, l: nat, at: Id, left: Node, right: Node, f: Id)
    requires LevelOK(a, o, l) && at in o && f !in a && left.level == right.level == l && left.low == a[at].low
    requires left.right == f && right.right == a[at].right
    ensures LevelOK(a[at := left][f := right], InsertAt(o, IndexOf(o, at) + 1, f), l)
  {
    var b := a[at := left][f := right];
    var p := IndexOf(o, at);
    var q := InsertAt(o, p + 1, f);
    InsertedDistinct(o, p + 1, f);
    assert o[p] == at && o[0] in a;
    forall i | 0 <= i < |q|
      ensures q[i] in b && b[q[i]].level == l && b[q[i]].right == NextIn(q, i)
    {
      if i < p {
        assert q[i] == o[i] && q[i + 1] == o[i + 1] && o[i] != at && o[i] in a;
      } else if i == p {
        assert q[i] == at && q[i + 1] == f;
      } else if i == p + 1 {
        assert q[i] == f && (i + 1 < |q| ==> q[i + 1] == o[p + 1]);
      } else {
        assert q[i] == o[i - 1] && (i + 1 < |q| ==> q[i + 1] == o[i]) && o[i - 1] != at && o[i - 1] in a;
      }
    }
    assert q[0] == o[0];
  }

  lemma OtherLevel(a: map<Id, Node>, o: seq<Id>, l: nat, at: Id, left: Node, right: Node, f: Id)
    requires LevelOK(a, o, l) && at in a && f !in a && a[at].level != l
    ensures LevelOK(a[at := left][f := right], o, l)
  {
    assert forall i :: 0 <= i < |o| ==> o[i] != at && o[i] != f;
  }

  lemma HalvesLevels(s: State, at: Id, left: Node, right: Node, f: Id)
    requires Core(s) && HalvesFit(s, at, left, right, f)
    ensures Placed(s, at) && var h := Halves(s, at, left, right, f); LevelsOK(h.nodes, h.levels)
  {
    PlacedIn(s, at);
    assert LevelOK(s.nodes, s.levels[left.level], left.level);
    HalvesLevel(s.nodes, s.levels[left.level], left.level, at, left, right, f);
    var h := Halves(s, at, left, right, f);
    forall l | 0 <= l < |h.levels| ensures LevelOK(h.nodes, h.levels[l], l) {
      if l != left.level {
        assert LevelOK(s.nodes, s.levels[l], l);
        OtherLevel(s.nodes, s.levels[l], l, at, left, right, f);
      }
    }
    var o := s.levels[left.level];
    forall id | id in h.nodes ensures Listed(h.nodes, h.levels, id) {
      assert id in s.nodes ==> Listed(s.nodes, s.levels, id);
      if h.nodes[id].level == left.level {
        InsertedIn(o, IndexOf(o, at) + 1, f, id);
      }
    }
  }

  lemma HalvesSlots(a: map<Id, Node>, at: Id, left: Node, right: Node, f: Id, sep: Id)
    requires SlotsOnce(a) && at in a && f !in a && Unplaced(a, sep)
    requires DistinctIds(left.seps) && DistinctIds(right.seps)
    requires forall c :: !(c in left.seps && c in right.seps)
    requires forall c :: c in left.seps || c in right.seps ==> c == sep || c in a[at].seps
    ensures SlotsOnce(a[at := left][f := right])
  {
    var b := a[at := left][f := right];
    forall x, y | x in b && y in b && x != y ensures SlotsApart(b, x, y) {
      var v, w := if x == f then at else x, if y == f then at else y;
      assert v != w ==> SlotsApart(a, v, w);
    }
  }

  lemma HalvesKeep(s: State, at: Id, left: Node, right: Node, f: Id, sep: Id)
    requires Core(s) && HalvesFit(s, at, left, right, f) && Unplaced(s.nodes, sep)
    requires forall c :: !(c in left.seps && c in right.seps)
    requires forall c :: c in left.seps || c in right.seps ==> c == sep || c in s.nodes[at].seps
    requires (LeafOK(left, s.maxItems) && SpareOK(left, s.maxItems)) || InnerOK(s.nodes, left, s.maxKeys)
    requires (LeafOK(right, s.maxItems) && SpareOK(right, s.maxItems)) || InnerOK(s.nodes, right, s.maxKeys)
    ensures Placed(s, at) && Core(Halves(s, at, left, right, f))
  {
    HalvesLevels(s, at, left, right, f);
    var b := Halves(s, at, left, right, f).nodes;
    HalvesSlots(s.nodes, at, left, right, f, sep);
    assert Extends(s.nodes, b);
    assert NodeOK(s.nodes, s.maxItems, s.maxKeys, at);
    forall x, y | x in b && y in b && x != y ensures LowsDiffer(b, x, y) {
      assert x in s.nodes && y in s.nodes ==> LowsDiffer(s.nodes, x, y);
    }
    forall id | id in b ensures NodeOK(b, s.maxItems, s.maxKeys, id) {
      if id != at && id != f {
        assert NodeOK(s.nodes, s.maxItems, s.maxKeys, id);
        NodeKept(s, b, id);
      } else if b[id].level > 0 {
        InnerKept(s.nodes, b, b[id], s.maxKeys);
      }
    }
  }

  // ---------------------------------------------------------------- splitting a leaf

  lemma Neighbours(s: State, j: nat)
    requires Core(s) && j + 1 < |s.levels[0]|
    ensures LevelOK(s.nodes, s.levels[0], 0) && var x, y := s.nodes[s.levels[0][j]], s.nodes[s.levels[0][j + 1]];
      x.high == y.low && y.low < y.high
  {
    var o := s.levels[0];
    assert LevelOK(s.nodes, o, 0);
    assert NodeOK(s.nodes, s.maxItems, s.maxKeys, o[j]) && s.nodes[o[j]].right == NextIn(o, j);
    assert NodeOK(s.nodes, s.maxItems, s.maxKeys, o[j + 1]);
  }

  lemma LeafOrder(s: State, i: nat, j: nat)
    requires Core(s) && i < j < |s.levels[0]|
    ensures LevelOK(s.nodes, s.levels[0], 0)
    ensures s.nodes[s.levels[0][i]].high <= s.nodes[s.levels[0][j]].low
  {
    Neighbours(s, j - 1);
    if i < j - 1 {
      LeafOrder(s, i, j - 1);
      Neighbours(s, j - 2);
    }
  }

  /** Leaf ranges do not overlap. */
  lemma LeavesApart(s: State, x: Id, y: Id)
    requires Core(s) && x in s.nodes && y in s.nodes && x != y && s.nodes[x].level == s.nodes[y].level == 0
    ensures s.nodes[x].high <= s.nodes[y].low || s.nodes[y].high <= s.nodes[x].low
  {
    assert Listed(s.nodes, s.levels, x) && Listed(s.nodes, s.levels, y);
    var o := s.levels[0];
    var i, j := IndexOf(o, x), IndexOf(o, y);
    if i < j { LeafOrder(s, i, j); } else { LeafOrder(s, j, i); }
  }

  /** Cutting a well-formed leaf at a key gives two well-formed ones. */
  lemma CutLeaf(m: Node, left: Node, right: Node, max: nat)
    requires LeafOK(m, max + 1) && m.keys == left.keys + right.keys
    requires |left.keys| == |left.vals| <= max && |right.keys| == |right.vals| <= max && left.keys != [] && right.keys != []
    requires left.level == right.level == 0 && left.seps == right.seps == []
    requires left.low == m.low && left.high == right.low == right.keys[0] && right.high == m.high
    ensures LeafOK(left, max) && LeafOK(right, max)
  {
    var c := |left.keys|;
    assert m.keys[c] == right.keys[0] && m.keys[0] == left.keys[0];
    assert left.keys + [] + right.keys == m.keys;
    CutSorted(left.keys, [], right.keys);
    assert forall i :: 0 <= i < c ==> left.keys[i] == m.keys[i] && m.keys[i] < m.keys[c];
    assert forall i :: 0 <= i < |right.keys| ==> right.keys[i] == m.keys[c + i];
  }

  lemma InsertedLeaf(n: Node, key: Key, value: Value, max: nat)
    requires LeafOK(n, max) && key !in n.keys && n.low <= key < n.high
    ensures var i := LowerBound(n.keys, key);
      LeafOK(n.(keys := InsertAt(n.keys, i, key), vals := InsertAt(n.vals, i, value)), max + 1)
  {
    InsertSorted(n.keys, key);
  }

  /** The pairs a split leaves behind are at or above the left half's new high key. */
  lemma LeftBehindAbove(keys: seq<Key>, vals: seq<Value>, key: Key, value: Value)
    requires |keys| >= 2 && |vals| == |keys| && Sorted(keys) && key !in keys
    ensures var p, b := SplitLeaf(keys, vals, key, value), LeftBehind(keys, vals, key);
      && p.rightKeys != [] && |p.leftKeys| + |b| == |keys| && forall i :: 0 <= i < |b| ==> SlotAbove(b[i], p.rightKeys[0])
  {
    LeafSplitSizes(keys, vals, key, value);
  }

  function LeftLeaf(n: Node, key: Key, value: Value, f: Id): Node
    requires |n.keys| >= 2 && |n.vals| == |n.keys| && Sorted(n.keys) && key !in n.keys
  {
    LeafSplitIsInsertion(n.keys, n.vals, key, value);
    var p := SplitLeaf(n.keys, n.vals, key, value);
    n.(keys := p.leftKeys, vals := p.leftVals, spare := LeftBehind(n.keys, n.vals, key), high := p.rightKeys[0], right := f)
  }

  function RightLeaf(n: Node, key: Key, value: Value, max: nat): Node
    requires 2 <= |n.keys| <= max && |n.vals| == |n.keys| && Sorted(n.keys) && key !in n.keys
  {
    LeafSplitIsInsertion(n.keys, n.vals, key, value);
    var p := SplitLeaf(n.keys, n.vals, key, value);
    Node(0, p.rightKeys[0], p.rightKeys, p.rightVals, seq(max - |p.rightKeys|, _ => Unwritten), [], n.high, n.right, n.parent)
  }

  lemma LeafHalvesOK(n: Node, key: Key, value: Value, max: nat, f: Id)
    requires LeafOK(n, max) && key !in n.keys && n.low <= key < n.high && 2 <= max == |n.keys|
    ensures var left, right := LeftLeaf(n, key, value, f), RightLeaf(n, key, value, max);
      && LeafOK(left, max) && SpareOK(left, max) && LeafOK(right, max) && SpareOK(right, max) && n.low < right.low < n.high
  {
    LeafSplitIsInsertion(n.keys, n.vals, key, value);
    InsertedLeaf(n, key, value, max);
    var i := LowerBound(n.keys, key);
    LeftBehindAbove(n.keys, n.vals, key, value);
    CutLeaf(n.(keys := InsertAt(n.keys, i, key), vals := InsertAt(n.vals, i, value)),
            LeftLeaf(n, key, value, f), RightLeaf(n, key, value, max), max);
  }

  /** No leaf starts strictly inside another one. */
  lemma LowInside(s: State, at: Id, low: Key, y: Id)
    requires Core(s) && at in s.nodes && y in s.nodes && s.nodes[at].level == 0 && s.nodes[at].low < low < s.nodes[at].high
    ensures s.nodes[y].level != 0 || s.nodes[y].low != low
  {
    assert NodeOK(s.nodes, s.maxItems, s.maxKeys, y);
    if s.nodes[y].level == 0 && y != at {
      LeavesApart(s, at, y);
    }
  }

  lemma LeafHalvesAre(s: State, at: Id, key: Key, value: Value, f: Id)
    requires Placed(s, at) && s.nodes[at].level == 0 && |s.nodes[at].keys| == s.maxItems && key !in s.nodes[at].keys
    ensures LeafHalves(s, at, key, value, f)
      == Halves(s, at, LeftLeaf(s.nodes[at], key, value, f), RightLeaf(s.nodes[at], key, value, s.maxItems), f)
  {
  }

  /** What a leaf split changes: the split leaf's pairs, unused slots, high key and right link, and a new right sibling. */
  predicate HalvedLeaf(a: map<Id, Node>, h: map<Id, Node>, at: Id, f: Id) {
    && at in a && f !in a && h.Keys == a.Keys + {f} && (forall x :: x in a && x != at ==> h[x] == a[x])
    && h[at] == a[at].(keys := h[at].keys, vals := h[at].vals, spare := h[at].spare, high := h[f].low, right := f)
    && h[f].level == 0 && h[f].seps == [] && h[f].high == a[at].high && h[f].right == a[at].right && h[f].parent == a[at].parent
    && h[at].keys != [] && h[f].keys != [] && h[f].low == h[f].keys[0]
  }

  lemma LeafHalved(s: State, at: Id, key: Key, value: Value, f: Id)
    requires Placed(s, at) && s.nodes[at].level == 0 && |s.nodes[at].keys| >= 2 && key !in s.nodes[at].keys && f !in s.nodes
    ensures HalvedLeaf(s.nodes, LeafHalves(s, at, key, value, f).nodes, at, f)
  {
    LeafSplitIsInsertion(s.nodes[at].keys, s.nodes[at].vals, key, value);
  }

  lemma LeafHalvesKeep(s: State, at: Id, key: Key, value: Value, f: Id)
    requires Core(s) && at in s.nodes && s.nodes[at].level == 0 && |s.nodes[at].keys| == s.maxItems && key !in s.nodes[at].keys
    requires s.nodes[at].low <= key < s.nodes[at].high && f !in s.nodes && f != NONE
    ensures Placed(s, at) && Core(LeafHalves(s, at, key, value, f))
  {
    PlacedIn(s, at);
    var n := s.nodes[at];
    LeafHalvesOK(n, key, value, s.maxItems, f);
    var left, right := LeftLeaf(n, key, value, f), RightLeaf(n, key, value, s.maxItems);
    forall y | y in s.nodes ensures s.nodes[y].level != 0 || s.nodes[y].low != right.low {
      LowInside(s, at, right.low, y);
    }
    FreshUnplaced(s, f);
    HalvesKeep(s, at, left, right, f, f);
    LeafHalvesAre(s, at, key, value, f);
  }

  lemma FreshUnplaced(s: State, f: Id)
    requires Core(s) && f !in s.nodes
    ensures Unplaced(s.nodes, f)
  {
    forall x | x in s.nodes ensures f !in s.nodes[x].seps {
      assert NodeOK(s.nodes, s.maxItems, s.maxKeys, x);
    }
  }

  // ---------------------------------------------------------------- splitting an inner node

  /** Cutting a well-formed inner node at a key gives two well-formed ones. */
  lemma CutInner(nodes: map<Id, Node>, m: Node, left: Node, right: Node, up: Key, max: nat)
    requires InnerOK(nodes, m, max + 1)
    requires m.keys == left.keys + [up] + right.keys && m.seps == left.seps + right.seps
    requires |left.seps| == |left.keys| + 1 && |right.seps| == |right.keys| + 1
    requires 1 <= |left.keys| && 1 <= |right.keys|
    requires left.level == right.level == m.level && left.vals == right.vals == [] && left.low == m.low && right.low == up
    ensures InnerOK(nodes, left, max) && InnerOK(nodes, right, max)
  {
    CutSorted(left.keys, [up], right.keys);
    var c := |left.seps|;
    forall i | 0 <= i < c ensures left.seps[i] == m.seps[i] && (i > 0 ==> left.keys[i - 1] == m.keys[i - 1]) {}
    forall i | 0 <= i < |right.seps|
      ensures right.seps[i] == m.seps[c + i] && (i > 0 ==> right.keys[i - 1] == m.keys[c + i - 1])
    {
    }
    assert m.keys[c - 1] == up;
  }

  lemma CutDistinct(all: seq<Id>, a: seq<Id>, b: seq<Id>)
    requires DistinctIds(all) && all == a + b
    ensures DistinctIds(a) && DistinctIds(b) && forall c :: !(c in a && c in b)
  {
    forall i | 0 <= i < |a| ensures a[i] == all[i] {}
    forall i | 0 <= i < |b| ensures b[i] == all[|a| + i] {}
    forall i, j | 0 <= i < |a| && 0 <= j < |b| ensures a[i] != b[j] {
      assert all[i] != all[|a| + j];
    }
  }

  /** The key that moves up is the low bound of no node of the level. */
  lemma KeyUpNew(s: State, at: Id, sep: Id, c: Id, y: Id)
    requires Core(s) && at in s.nodes && Unplaced(s.nodes, sep) && c in s.nodes
    requires s.nodes[c].level + 1 == s.nodes[at].level && (c == sep || c in s.nodes[at].seps)
    requires s.nodes[at].seps != [] && c != s.nodes[at].seps[0] && y in s.nodes
    ensures s.nodes[y].level != s.nodes[at].level || s.nodes[y].low != s.nodes[c].low
  {
    assert NodeOK(s.nodes, s.maxItems, s.maxKeys, y);
    if s.nodes[y].level == s.nodes[at].level {
      var d := s.nodes[y].seps[0];
      assert d in s.nodes[y].seps;
      assert y != at ==> SlotsApart(s.nodes, y, at);
      if d != c {
        assert LowsDiffer(s.nodes, d, c);
      }
    }
  }

  /** The halves of an inner split before any parent is set. */
  function LeftHalf(n: Node, sepKey: Key, sep: Id, f: Id): Node
    requires |n.keys| >= 2 && |n.seps| == |n.keys| + 1 && Sorted(n.keys)
  {
    var p := SplitInner(n.keys, n.seps, sepKey, sep);
    n.(keys := p.leftKeys, seps := p.leftSeps, high := p.keyUp, right := f)
  }

  function RightHalf(n: Node, sepKey: Key, sep: Id): Node
    requires |n.keys| >= 2 && |n.seps| == |n.keys| + 1 && Sorted(n.keys)
  {
    var p := SplitInner(n.keys, n.seps, sepKey, sep);
    Node(n.level, p.keyUp, p.rightKeys, [], [], p.rightSeps, n.high, n.right, n.parent)
  }

  lemma InnerSplitFits(nodes: map<Id, Node>, n: Node, sepKey: Key, sep: Id, f: Id, max: nat)
    requires InnerOK(nodes, n, max) && |n.keys| >= 2 && DistinctIds(n.seps) && sep !in n.seps
    requires sep in nodes && nodes[sep].low == sepKey && nodes[sep].level + 1 == n.level && sepKey !in n.keys
    ensures var a, b := LeftHalf(n, sepKey, sep, f), RightHalf(n, sepKey, sep);
      && InnerOK(nodes, a, max) && InnerOK(nodes, b, max) && DistinctIds(a.seps) && DistinctIds(b.seps)
      && (forall c :: !(c in a.seps && c in b.seps))
      && (forall c :: c in a.seps || c in b.seps <==> c == sep || c in n.seps)
      && b.seps[0] != n.seps[0] && a.seps[0] == n.seps[0]
  {
    SplitIsInsertion(n.keys, n.seps, sepKey, sep);
    var i := LowerBound(n.keys, sepKey);
    var m := n.(keys := InsertAt(n.keys, i, sepKey), seps := InsertAt(n.seps, i + 1, sep));
    WiderInner(nodes, n, max);
    InsertedInner(nodes, n, sepKey, sep, max + 1);
    var a, b := LeftHalf(n, sepKey, sep, f), RightHalf(n, sepKey, sep);
    CutInner(nodes, m, a, b, a.high, max);
    InsertedDistinct(n.seps, i + 1, sep);
    CutDistinct(m.seps, a.seps, b.seps);
    forall c ensures c in a.seps || c in b.seps <==> c == sep || c in n.seps {
      InsertedIn(n.seps, i + 1, sep, c);
      InConcat(a.seps, b.seps, c);
    }
    assert a.seps[0] == m.seps[0] == n.seps[0];
    assert a.seps[0] in a.seps && b.seps[0] in b.seps;
  }

  lemma WiderInner(nodes: map<Id, Node>, n: Node, max: nat)
    requires InnerOK(nodes, n, max)
    ensures InnerOK(nodes, n, max + 1)
  {
  }

  lemma InConcat(a: seq<Id>, b: seq<Id>, c: Id)
    ensures c in a + b <==> c in a || c in b
  {
  }

  /** The cut itself, before children get their new parent. */
  lemma InnerCut(s: State, at: Id, sepKey: Key, sep: Id, f: Id)
    requires Core(s) && at in s.nodes && sep in s.nodes && s.nodes[sep].low == sepKey && |s.nodes[at].keys| >= 2
    requires s.nodes[at].level == s.nodes[sep].level + 1 && Unplaced(s.nodes, sep) && f !in s.nodes && f != NONE
    ensures Placed(s, at) && Core(Halves(s, at, LeftHalf(s.nodes[at], sepKey, sep, f), RightHalf(s.nodes[at], sepKey, sep), f))
  {
    PlacedIn(s, at);
    var n := s.nodes[at];
    SepKeyNew(s, at, sepKey, sep);
    InnerSplitFits(s.nodes, n, sepKey, sep, f, s.maxKeys);
    var a, b := LeftHalf(n, sepKey, sep, f), RightHalf(n, sepKey, sep);
    assert b.seps[0] in b.seps;
    forall y | y in s.nodes ensures s.nodes[y].level != n.level || s.nodes[y].low != b.low {
      KeyUpNew(s, at, sep, b.seps[0], y);
    }
    assert NodeOK(s.nodes, s.maxItems, s.maxKeys, b.seps[0]);
    HalvesKeep(s, at, a, b, f, sep);
  }

  lemma InnerHalvesKeep(s: State, at: Id, sepKey: Key, sep: Id, f: Id)
    requires Core(s) && at in s.nodes && sep in s.nodes && s.nodes[sep].low == sepKey && |s.nodes[at].keys| >= 2
    requires s.nodes[at].level == s.nodes[sep].level + 1 && Unplaced(s.nodes, sep) && f !in s.nodes && f != NONE
    ensures Placed(s, at) && Core(InnerHalves(s, at, sepKey, sep, f))
  {
    InnerCut(s, at, sepKey, sep, f);
    var n := s.nodes[at];
    var b := RightHalf(n, sepKey, sep);
    var h := Halves(s, at, LeftHalf(n, sepKey, sep, f), b, f);
    if sepKey < n.keys[|n.keys| / 2 - 1] {
      AdoptKeeps(h, [sep], at);
      AdoptKeeps(h.(nodes := Adopt(h.nodes, [sep], at)), b.seps, f);
    } else {
      AdoptKeeps(h, b.seps, f);
    }
  }

  // ---------------------------------------------------------------- a new root

  lemma NewRootKeeps(h: State, at: Id, f: Id, r: Id)
    requires Core(h) && at in h.nodes && f in h.nodes && at != f && r !in h.nodes && r != NONE
    requires h.levels[|h.levels| - 1] == [at, f]
    ensures Core(NewRoot(h, at, f, h.nodes[f].low, r))
  {
    var top := |h.levels| - 1;
    assert LevelOK(h.nodes, h.levels[top], top);
    assert h.levels[top][0] == at && h.levels[top][1] == f;
    var g := h.(nodes := Adopt(h.nodes, [at, f], r));
    AdoptKeeps(h, [at, f], r);
    TopUnplaced(g, at);
    TopUnplaced(g, f);
    RootAdded(g, at, f, r);
  }

  /** Nodes of the top level are in no slot. */
  lemma TopUnplaced(h: State, c: Id)
    requires Core(h) && c in h.nodes && h.nodes[c].level == |h.levels| - 1
    ensures Unplaced(h.nodes, c)
  {
    forall x | x in h.nodes ensures c !in h.nodes[x].seps {
      assert NodeOK(h.nodes, h.maxItems, h.maxKeys, x) && Listed(h.nodes, h.levels, x);
    }
  }

  lemma RootLevels(a: map<Id, Node>, levels: seq<seq<Id>>, r: Id, root: Node)
    requires LevelsOK(a, levels) && r !in a && root.level == |levels| && root.low == 0 && root.right == NONE
    ensures LevelsOK(a[r := root], levels + [[r]])
  {
    var b, next := a[r := root], levels + [[r]];
    forall l | 0 <= l < |next| ensures LevelOK(b, next[l], l) {
      if l < |levels| {
        assert LevelOK(a, levels[l], l);
      }
    }
    forall id | id in b ensures Listed(b, next, id) {
      assert id != r ==> Listed(a, levels, id);
    }
  }

  lemma RootSlots(a: map<Id, Node>, at: Id, f: Id, r: Id, root: Node)
    requires SlotsOnce(a) && r !in a && at != f && root.seps == [at, f] && Unplaced(a, at) && Unplaced(a, f)
    ensures SlotsOnce(a[r := root])
  {
    var b := a[r := root];
    forall x, y | x in b && y in b && x != y ensures SlotsApart(b, x, y) {
      assert x != r && y != r ==> SlotsApart(a, x, y);
    }
  }

  lemma RootAdded(g: State, at: Id, f: Id, r: Id)
    requires Core(g) && at in g.nodes && f in g.nodes && at != f && r !in g.nodes && r != NONE
    requires g.nodes[at].level == g.nodes[f].level == |g.levels| - 1 && g.nodes[at].low == 0
    requires Unplaced(g.nodes, at) && Unplaced(g.nodes, f)
    ensures var root := Node(|g.levels|, 0, [g.nodes[f].low], [], [], [at, f], MAX, NONE, NONE);
      Core(g.(nodes := g.nodes[r := root], root := r, levels := g.levels + [[r]]))
  {
    var root := Node(|g.levels|, 0, [g.nodes[f].low], [], [], [at, f], MAX, NONE, NONE);
    var b := g.nodes[r := root];
    var s := g.(nodes := b, root := r, levels := g.levels + [[r]]);
    RootLevels(g.nodes, g.levels, r, root);
    RootSlots(g.nodes, at, f, r, root);
    assert Extends(g.nodes, b);
    forall id | id in b ensures NodeOK(b, s.maxItems, s.maxKeys, id) {
      if id != r {
        assert NodeOK(g.nodes, g.maxItems, g.maxKeys, id);
        NodeKept(g, b, id);
      }
    }
    forall x, y | x in b && y in b && x != y ensures LowsDiffer(b, x, y) {
      assert x != r ==> Listed(g.nodes, g.levels, x);
      assert y != r ==> Listed(g.nodes, g.levels, y);
      assert x != r && y != r ==> LowsDiffer(g.nodes, x, y);
    }
  }
}
