/** The tree's own consistency checks and its iterator, and why a tree between inserts passes them. */
module BLinkCheck {
  import opened BLinkSplit
  import opened BLinkTree
  import opened BLinkRuns
  import opened BLinkSafety
  import opened BLinkContents
  import opened BLinkSequential

  // ---------------------------------------------------------------- the checks

  method IsKeyOrderValid(n: Node) returns (ok: bool)
    ensures ok <==> Sorted(n.keys)
  {
    var index := 1;
    while index < |n.keys|
      invariant 1 <= index && (index <= |n.keys| || |n.keys| == 0)
      invariant |n.keys| > 0 ==> Sorted(n.keys[..index])
    {
      if n.keys[index - 1] >= n.keys[index] {
        return false;
      }
      assert n.keys[..index + 1] == n.keys[..index] + [n.keys[index]];
      assert n.keys[..index][index - 1] == n.keys[index - 1];
      index := index + 1;
    }
    assert |n.keys| > 0 ==> n.keys[..index] == n.keys;
    return true;
  }

  method IsNoNullSeparator(n: Node) returns (ok: bool)
    requires n.level > 0 ==> |n.seps| == |n.keys| + 1
    ensures ok <==> (n.level > 0 ==> NONE !in n.seps)
  {
    if n.level > 0 {
      var index := 0;
      while index <= |n.keys|
        invariant 0 <= index <= |n.keys| + 1 && NONE !in n.seps[..index]
      {
        if n.seps[index] == NONE {
          return false;
        }
        index := index + 1;
      }
    }
    return true;
  }

  function LastKey(n: Node): Key
    requires n.keys != []
  {
    n.keys[|n.keys| - 1]
  }

  /** The children of an inner node are there and hold keys. */
  predicate Readable(nodes: map<Id, Node>, n: Node) {
    n.level > 0 ==> |n.seps| == |n.keys| + 1 && forall i :: 0 <= i < |n.seps| ==> n.seps[i] in nodes && nodes[n.seps[i]].keys != []
  }

  ghost predicate ChildrenInOrder(nodes: map<Id, Node>, n: Node)
    requires Readable(nodes, n)
  {
    n.level > 0 ==> forall i :: 0 <= i < |n.keys| ==> LastKey(nodes[n.seps[i]]) < n.keys[i]
  }

  method IsChildrenOrderValid(nodes: map<Id, Node>, n: Node) returns (ok: bool)
    requires Readable(nodes, n)
    ensures ok <==> ChildrenInOrder(nodes, n)
  {
    if n.level > 0 {
      var index := 0;
      while index < |n.keys|
        invariant 0 <= index <= |n.keys| && forall i :: 0 <= i < index ==> LastKey(nodes[n.seps[i]]) < n.keys[i]
      {
        if LastKey(nodes[n.seps[index]]) >= n.keys[index] {
          return false;
        }
        index := index + 1;
      }
    }
    return true;
  }

  function IsLeaf(nodes: map<Id, Node>, id: Id): bool
    requires id in nodes
  {
    nodes[id].level == 0
  }

  /** Siblings are all leaves or all inner nodes. */
  ghost predicate LevelsAgree(nodes: map<Id, Node>, n: Node)
    requires Readable(nodes, n) && (n.right != NONE ==> n.right in nodes)
  {
    && (n.right != NONE ==> ((n.level == 0) == IsLeaf(nodes, n.right)))
    && (n.level > 0 ==> forall i :: 0 <= i < |n.seps| ==> IsLeaf(nodes, n.seps[i]) == IsLeaf(nodes, n.seps[0]))
  }

  method IsLevelValid(nodes: map<Id, Node>, n: Node) returns (ok: bool)
    requires Readable(nodes, n) && (n.right != NONE ==> n.right in nodes)
    ensures ok <==> LevelsAgree(nodes, n)
  {
    if n.right != NONE && (n.level == 0) != IsLeaf(nodes, n.right) {
      return false;
    }
    if n.level > 0 {
      var index := 0;
      while index < |n.keys|
        invariant 0 <= index <= |n.keys|
        invariant forall i :: 0 <= i <= index ==> IsLeaf(nodes, n.seps[i]) == IsLeaf(nodes, n.seps[0])
      {
        if IsLeaf(nodes, n.seps[index]) != IsLeaf(nodes, n.seps[index + 1]) {
          return false;
        }
        index := index + 1;
      }
    }
    return true;
  }

  predicate ParentReadable(nodes: map<Id, Node>, p: Id) {
    p != NONE ==> p in nodes && nodes[p].level > 0 && Readable(nodes, nodes[p]) && nodes[p].keys != []
  }

  /** The first slot of the child, with the child's keys on the right side of the separators there. */
  predicate ExactAt(n: Node, p: Node, id: Id, i: nat)
    requires n.keys != [] && p.keys != [] && |p.seps| == |p.keys| + 1
  {
    && i < |p.seps| && p.seps[i] == id && id !in p.seps[..i]
    && if i < |p.keys| then LastKey(n) < p.keys[i] else p.keys[i - 1] <= n.keys[0]
  }

  /** The node is in one of its parent's slots, with its keys on the right side of the separators there. */
  ghost predicate ParentExact(nodes: map<Id, Node>, id: Id)
    requires id in nodes && nodes[id].keys != []
    requires ParentReadable(nodes, nodes[id].parent)
  {
    var n := nodes[id];
    n.parent != NONE ==> exists i :: ExactAt(n, nodes[n.parent], id, i)
  }

  lemma FirstSlot(o: seq<Id>, id: Id, i: nat, j: nat)
    requires i < |o| && j < |o| && o[i] == o[j] == id && id !in o[..i] && id !in o[..j]
    ensures i == j
  {
  }

  method CheckParent(nodes: map<Id, Node>, id: Id) returns (ok: bool)
    requires id in nodes && nodes[id].keys != []
    requires ParentReadable(nodes, nodes[id].parent)
    ensures ok <==> ParentExact(nodes, id)
  {
    var n := nodes[id];
    if n.parent == NONE {
      return true;
    }
    var p := nodes[n.parent];
    var index := 0;
    while index < |p.seps| && p.seps[index] != id
      invariant 0 <= index <= |p.seps| && id !in p.seps[..index]
    {
      index := index + 1;
    }
    if index == |p.seps| {
      assert p.seps[..index] == p.seps;
      return false;
    }
    forall i: nat | ExactAt(n, p, id, i) ensures i == index {
      FirstSlot(p.seps, id, i, index);
    }
    ok := if index < |p.keys| then LastKey(n) < p.keys[index] else n.keys[0] >= p.keys[index - 1];
    assert ok <==> ExactAt(n, p, id, index);
  }

  /** What it takes to run the checks on a node. */
  predicate Checkable(nodes: map<Id, Node>, id: Id) {
    && id in nodes && nodes[id].keys != [] && Readable(nodes, nodes[id]) && (nodes[id].right != NONE ==> nodes[id].right in nodes)
    && ParentReadable(nodes, nodes[id].parent)
  }

  /** All checks on one node. */
  ghost predicate Passes(nodes: map<Id, Node>, id: Id)
    requires Checkable(nodes, id)
  {
    var n := nodes[id];
    && LastKey(n) < n.high && Sorted(n.keys) && (n.level > 0 ==> NONE !in n.seps)
    && ChildrenInOrder(nodes, n) && LevelsAgree(nodes, n) && ParentExact(nodes, id)
  }

  method CheckNode(nodes: map<Id, Node>, id: Id) returns (ok: bool)
    requires Checkable(nodes, id)
    ensures ok <==> Passes(nodes, id)
  {
    var n := nodes[id];
    var order := IsKeyOrderValid(n);
    var separators := IsNoNullSeparator(n);
    var children := IsChildrenOrderValid(nodes, n);
    var levels := IsLevelValid(nodes, n);
    var parent := CheckParent(nodes, id);
    ok := LastKey(n) < n.high && order && separators && children && levels && parent;
  }

  // ---------------------------------------------------------------- a tidy tree passes

  lemma KeysIn(s: State, id: Id)
    requires SeqInv(s, NONE) && s.log != [] && id in s.nodes
    ensures Placed(s, id) && s.nodes[id].keys != [] && s.nodes[id].low <= s.nodes[id].keys[0] && LastKey(s.nodes[id]) < s.nodes[id].high
  {
    PlacedIn(s, id);
    assert Tidy(s.nodes, s.root, NONE, id);
  }

  lemma TidyReadable(s: State, id: Id)
    requires SeqInv(s, NONE) && s.log != [] && id in s.nodes
    ensures Readable(s.nodes, s.nodes[id])
  {
    PlacedIn(s, id);
    forall c | c in s.nodes ensures s.nodes[c].keys != [] { KeysIn(s, c); }
  }

  lemma TidyCheckable(s: State, id: Id)
    requires SeqInv(s, NONE) && s.log != [] && id in s.nodes
    ensures Checkable(s.nodes, id)
  {
    KeysIn(s, id);
    TidyReadable(s, id);
    if id != s.root {
      assert ParentOK(s.nodes, id);
      KeysIn(s, s.nodes[id].parent);
      TidyReadable(s, s.nodes[id].parent);
    }
  }

  lemma TidyChildren(s: State, id: Id)
    requires SeqInv(s, NONE) && s.log != [] && id in s.nodes && Readable(s.nodes, s.nodes[id])
    ensures ChildrenInOrder(s.nodes, s.nodes[id])
  {
    var n := s.nodes[id];
    NoneAbsent(s);
    if n.level > 0 {
      assert Tidy(s.nodes, s.root, NONE, id);
      forall i | 0 <= i < |n.keys| ensures LastKey(s.nodes[n.seps[i]]) < n.keys[i] {
        assert KidOK(s.nodes, NONE, n, id, i);
        KeysIn(s, n.seps[i]);
      }
    }
  }

  lemma TidyParent(s: State, id: Id)
    requires SeqInv(s, NONE) && s.log != [] && id in s.nodes && Checkable(s.nodes, id)
    ensures ParentExact(s.nodes, id)
  {
    NoneAbsent(s);
    if id != s.root {
      assert Tidy(s.nodes, s.root, NONE, id) && ParentOK(s.nodes, id);
      var p := s.nodes[s.nodes[id].parent];
      assert Tidy(s.nodes, s.root, NONE, s.nodes[id].parent);
      PlacedIn(s, s.nodes[id].parent);
      var i := IndexOf(p.seps, id);
      assert id !in p.seps[..i];
      assert KidOK(s.nodes, NONE, p, s.nodes[id].parent, i);
      KeysIn(s, id);
      assert ExactAt(s.nodes[id], p, id, i);
    }
  }

  /** Between two inserts every node of a non-empty tree passes every check. */
  lemma TidyPasses(s: State, id: Id)
    requires SeqInv(s, NONE) && s.log != [] && id in s.nodes
    ensures Checkable(s.nodes, id) && Passes(s.nodes, id)
  {
    TidyCheckable(s, id);
    KeysIn(s, id);
    NoneAbsent(s);
    TidyChildren(s, id);
    TidyParent(s, id);
  }

  // ---------------------------------------------------------------- the iterator

  /** The nodes from the top level down, each level from left to right. */
  function TopDown(levels: seq<seq<Id>>): seq<Id> {
    if levels == [] then [] else levels[|levels| - 1] + TopDown(levels[..|levels| - 1])
  }

  /** The first node of a level is the first child of the first node above it. */
  lemma FirstChild(s: State, l: nat)
    requires Inv(s) && 0 < l < |s.levels|
    ensures s.levels[l] != [] && s.levels[l - 1] != [] && s.levels[l][0] in s.nodes
    ensures var n := s.nodes[s.levels[l][0]]; n.seps != [] && n.seps[0] == s.levels[l - 1][0]
  {
    assert LevelOK(s.nodes, s.levels[l], l) && LevelOK(s.nodes, s.levels[l - 1], l - 1);
    var x, y := s.levels[l][0], s.levels[l - 1][0];
    assert NodeOK(s.nodes, s.maxItems, s.maxKeys, x);
    var c := s.nodes[x].seps[0];
    assert c == y || LowsDiffer(s.nodes, c, y);
  }

  lemma TopDownSplit(levels: seq<seq<Id>>, l: nat)
    requires l < |levels|
    ensures TopDown(levels[..l + 1]) == levels[l] + TopDown(levels[..l])
  {
    assert levels[..l + 1][..l] == levels[..l];
  }

  /** What has been visited and what is still ahead of position j of level l make up the whole walk. */
  ghost predicate Ahead(levels: seq<seq<Id>>, l: nat, j: nat, visited: seq<Id>) {
    l < |levels| && j <= |levels[l]| && visited + levels[l][j..] + TopDown(levels[..l]) == TopDown(levels)
  }

  lemma AheadStart(levels: seq<seq<Id>>)
    requires levels != []
    ensures Ahead(levels, |levels| - 1, 0, [])
  {
    var o := levels[|levels| - 1];
    assert [] + o[0..] == o;
  }

  lemma AheadRight(levels: seq<seq<Id>>, l: nat, j: nat, visited: seq<Id>)
    requires Ahead(levels, l, j, visited) && j < |levels[l]|
    ensures Ahead(levels, l, j + 1, visited + [levels[l][j]])
  {
    var o := levels[l];
    assert visited + o[j..] == visited + [o[j]] + o[j + 1..];
  }

  lemma AheadDown(levels: seq<seq<Id>>, l: nat, visited: seq<Id>)
    requires 0 < l && l < |levels| && Ahead(levels, l, |levels[l]|, visited)
    ensures Ahead(levels, l - 1, 0, visited)
  {
    TopDownSplit(levels, l - 1);
    var o := levels[l - 1];
    assert visited + levels[l][|levels[l]|..] == visited;
    assert visited + o[0..] == visited + o;
    assert visited + (o + TopDown(levels[..l - 1])) == visited + o + TopDown(levels[..l - 1]);
  }

  lemma AheadEnd(levels: seq<seq<Id>>, visited: seq<Id>)
    requires levels != [] && Ahead(levels, 0, |levels[0]|, visited)
    ensures visited == TopDown(levels)
  {
    assert levels[..0] == [];
  }

  /** The iterator's position: the j-th node of level l. */
  ghost predicate Position(s: State, l: nat, j: nat, current: Id, first: Id) {
    l < |s.levels| && LevelOK(s.nodes, s.levels[l], l) && j < |s.levels[l]| && current == s.levels[l][j] && first == s.levels[l][0]
  }

  /** One step of the iterator: right, or down to the next level, or past the end. */
  method Advance(s: State, current: Id, first: Id, ghost l: nat, ghost j: nat) returns (next: Id, start: Id)
    requires Inv(s) && Position(s, l, j, current, first)
    ensures j + 1 < |s.levels[l]| ==> Position(s, l, j + 1, next, start)
    ensures j + 1 == |s.levels[l]| && l > 0 ==> Position(s, l - 1, 0, next, start)
    ensures j + 1 == |s.levels[l]| && l == 0 ==> next == NONE
  {
    NoneAbsent(s);
    assert s.nodes[s.levels[l][j]].right == NextIn(s.levels[l], j);
    next, start := NONE, first;
    if s.nodes[current].right != NONE {
      next := s.nodes[current].right;
    } else if s.nodes[current].level > 0 {
      FirstChild(s, l);
      assert LevelOK(s.nodes, s.levels[l - 1], l - 1);
      start := s.nodes[first].seps[0];
      next := start;
    }
  }

  /** Iterating from the root ends, having visited every level from left to right, top level first. */
  method Iterate(s: State) returns (visited: seq<Id>)
    requires Inv(s)
    ensures visited == TopDown(s.levels)
  {
    var current, first := s.root, s.root;
    visited := [];
    ghost var l, j: nat := |s.levels| - 1, 0;
    NoneAbsent(s);
    AheadStart(s.levels);
    assert LevelOK(s.nodes, s.levels[l], l) && s.levels[l][0] == s.root;
    while current != NONE
      invariant current != NONE ==> Position(s, l, j, current, first) && Ahead(s.levels, l, j, visited)
      invariant current == NONE ==> visited == TopDown(s.levels)
      decreases if current == NONE then 0 else 1, l, if l < |s.levels| then |s.levels[l]| - j else 0
    {
      AheadRight(s.levels, l, j, visited);
      visited := visited + [current];
      current, first := Advance(s, current, first, l, j);
      j := j + 1;
      if j == |s.levels[l]| {
        if l > 0 {
          AheadDown(s.levels, l, visited);
          l, j := l - 1, 0;
        } else {
          AheadEnd(s.levels, visited);
        }
      }
    }
  }

  /** The walk visits each node exactly once. */
  lemma EachOnce(s: State)
    requires Inv(s)
    ensures DistinctIds(TopDown(s.levels)) && forall id :: id in s.nodes <==> id in TopDown(s.levels)
  {
    WalkOf(s, |s.levels|);
    assert s.levels[..|s.levels|] == s.levels;
    forall id | id in s.nodes ensures id in TopDown(s.levels) {
      assert Listed(s.nodes, s.levels, id);
    }
  }

  lemma WalkOf(s: State, l: nat)
    requires Inv(s) && l <= |s.levels|
    ensures DistinctIds(TopDown(s.levels[..l]))
    ensures forall id :: id in TopDown(s.levels[..l]) <==> id in s.nodes && s.nodes[id].level < l
  {
    if l > 0 {
      WalkOf(s, l - 1);
      TopDownSplit(s.levels, l - 1);
      var o, rest := s.levels[l - 1], TopDown(s.levels[..l - 1]);
      assert LevelOK(s.nodes, o, l - 1);
      forall id ensures id in o + rest <==> id in s.nodes && s.nodes[id].level < l {
        assert id in s.nodes ==> Listed(s.nodes, s.levels, id);
      }
      JoinDistinct(o, rest);
    }
  }

  lemma JoinDistinct(a: seq<Id>, b: seq<Id>)
    requires DistinctIds(a) && DistinctIds(b) && forall c :: !(c in a && c in b)
    ensures DistinctIds(a + b)
  {
    forall i, j | 0 <= i < j < |a + b| ensures (a + b)[i] != (a + b)[j] {
      if i < |a| && j >= |a| {
        assert a[i] in a && b[j - |a|] in b;
      }
    }
  }

  // ---------------------------------------------------------------- runs of one task at a time

  ghost predicate SeqRun(states: seq<State>, steps: seq<Step>) {
    Run(states, steps) && forall i :: 0 <= i < |steps| ==> Alone(states[i], steps[i])
  }

  lemma InitTidy(s: State)
    requires Init(s)
    ensures SeqInv(s, NONE)
  {
    InitInv(s);
    forall id | id in s.nodes ensures Tidy(s.nodes, s.root, NONE, id) {
    }
  }

  lemma {:induction false} SeqRunTidy(states: seq<State>, steps: seq<Step>, i: nat) returns (sep: Id)
    requires SeqRun(states, steps) && i < |states|
    ensures SeqInv(states[i], sep)
  {
    if i == 0 {
      sep := NONE;
      InitTidy(states[0]);
    } else {
      var before := SeqRunTidy(states, steps, i - 1);
      assert Alone(states[i - 1], steps[i - 1]);
      assert states[i - 1 + 1] == Next(states[i - 1], steps[i - 1]);
      sep := SeqStep(states[i - 1], before, steps[i - 1]);
    }
  }

  /**
   After any non-empty series of inserts, one at a time, the tree passes every check on
   every node and holds the first value inserted for each key.
   */
  lemma AfterInserts(states: seq<State>, steps: seq<Step>, i: nat, id: Id)
    requires SeqRun(states, steps) && i < |states| && states[i].log != [] && id in states[i].nodes
    requires forall t :: t in states[i].tasks ==> !states[i].tasks[t].Post?
    ensures Inv(states[i]) && Contents(states[i]) == FirstWins(states[i].log)
    ensures Checkable(states[i].nodes, id) && Passes(states[i].nodes, id)
  {
    RunCorrect(states, steps, i);
    var sep := SeqRunTidy(states, steps, i);
    TidyPasses(states[i], id);
  }

  /** Checking a whole tree between inserts reports no error. */
  method Check(s: State) returns (clean: bool)
    requires SeqInv(s, NONE) && s.log != []
    ensures clean
  {
    var visited := Iterate(s);
    EachOnce(s);
    clean := true;
    for i := 0 to |visited|
      invariant clean
    {
      TidyPasses(s, visited[i]);
      var ok := CheckNode(s.nodes, visited[i]);
      clean := clean && ok;
    }
  }
}
