/**
 The B-link tree under latched tasks, as a step machine.

 Each step is one execution of a task on a node under the node's exclusive latch; the
 writes to children's parent fields, to a split-off sibling and to the root belong to
 the step. Between steps other tasks run freely, so parent pointers may be stale and a
 separator may be posted to a node that no longer covers it. What survives every
 interleaving: a child's low bound is its separator, and right links continue exactly
 where a node ends.
 */
module BLinkTree {
  import opened BLinkSplit

  type Id = nat
  const NONE: Id := 0

  /** Largest 64-bit key; it marks the end of a level. */
  const MAX: Key := 0xFFFF_FFFF_FFFF_FFFF

  datatype Option<+T> = None | Some(value: T)

  datatype Entry = Entry(key: Key, value: Value)

  /** An unused slot of a leaf: never written, or left behind by a split. */
  datatype Spare = Unwritten | Left(key: Key, value: Value)

  /**
   `low` is auxiliary: the bound the node was created with. No step reads it. `spare` are
   a leaf's unused slots, those behind its pairs.
   */
  datatype Node = Node(level: nat, low: Key, keys: seq<Key>, vals: seq<Value>, spare: seq<Spare>, seps: seq<Id>,
                       high: Key, right: Id, parent: Id)

  /** An insert seeks its leaf and then posts separators upwards; a lookup only seeks. */
  datatype Task =
    | Seek(key: Key, value: Value, at: Id)
    | Post(key: Key, sepKey: Key, sep: Id, at: Id)
    | Find(key: Key, at: Id)
    | Found(key: Key, result: Option<Value>)
    | Done

  /**
   `levels` and `log` are auxiliary: the nodes of each level from left to right, leaves
   first, and the pairs of the inserts in the order in which they reached their leaf.
   */
  datatype State = State(maxItems: nat, maxKeys: nat, nodes: map<Id, Node>, root: Id,
                         levels: seq<seq<Id>>, tasks: map<nat, Task>, log: seq<Entry>)

  // ---------------------------------------------------------------- invariant

  /** Links to the right continue a node exactly where it ends. */
  predicate LinkOK(nodes: map<Id, Node>, id: Id)
    requires id in nodes
  {
    var n := nodes[id];
    && id != NONE && 0 <= n.low < MAX && n.high <= MAX && (n.right == NONE <==> n.high == MAX)
    && (n.right != NONE ==>
      n.right in nodes && nodes[n.right].level == n.level && nodes[n.right].low == n.high)
  }

  predicate LeafOK(n: Node, maxItems: nat) {
    && n.level == 0 && n.seps == [] && |n.vals| == |n.keys| <= maxItems && Sorted(n.keys) && n.low < n.high
    && forall i :: 0 <= i < |n.keys| ==> n.low <= n.keys[i] < n.high
  }

  predicate SlotAbove(x: Spare, high: Key) {
    x.Left? ==> high <= x.key
  }

  /** The unused slots fill the leaf up; a pair left behind in one is none of the leaf's range. */
  predicate SpareOK(n: Node, maxItems: nat) {
    |n.keys| + |n.spare| == maxItems && forall i :: 0 <= i < |n.spare| ==> SlotAbove(n.spare[i], n.high)
  }

  /** The child in slot 0 starts where the node starts, every other child at its separator. */
  predicate InnerOK(nodes: map<Id, Node>, n: Node, maxKeys: nat) {
    && n.level > 0 && n.vals == [] && |n.seps| == |n.keys| + 1 && 1 <= |n.keys| <= maxKeys && Sorted(n.keys)
    && (forall i :: 0 <= i < |n.seps| ==> n.seps[i] in nodes && nodes[n.seps[i]].level + 1 == n.level)
    && nodes[n.seps[0]].low == n.low
    && (forall i :: 1 <= i < |n.seps| ==> nodes[n.seps[i]].low == n.keys[i - 1])
  }

  predicate NodeOK(nodes: map<Id, Node>, maxItems: nat, maxKeys: nat, id: Id)
    requires id in nodes
  {
    LinkOK(nodes, id) && ((LeafOK(nodes[id], maxItems) && SpareOK(nodes[id], maxItems)) || InnerOK(nodes, nodes[id], maxKeys))
  }

  predicate DistinctIds(o: seq<Id>) {
    forall i, j :: 0 <= i < j < |o| ==> o[i] != o[j]
  }

  /** No two nodes of a level share a low bound. */
  predicate LowUnique(nodes: map<Id, Node>) {
    forall x, y {:trigger LowsDiffer(nodes, x, y)} :: x in nodes && y in nodes && x != y ==> LowsDiffer(nodes, x, y)
  }

  predicate LowsDiffer(nodes: map<Id, Node>, x: Id, y: Id)
    requires x in nodes && y in nodes
  {
    nodes[x].level == nodes[y].level ==> nodes[x].low != nodes[y].low
  }

  /** No two slots share a child. */
  ghost predicate SlotsOnce(nodes: map<Id, Node>) {
    && (forall x :: x in nodes ==> DistinctIds(nodes[x].seps))
    && (forall x, y {:trigger SlotsApart(nodes, x, y)} :: x in nodes && y in nodes && x != y ==> SlotsApart(nodes, x, y))
  }

  ghost predicate SlotsApart(nodes: map<Id, Node>, x: Id, y: Id)
    requires x in nodes && y in nodes
  {
    forall c :: c in nodes[x].seps ==> c !in nodes[y].seps
  }

  predicate Unplaced(nodes: map<Id, Node>, sep: Id) {
    forall x :: x in nodes ==> sep !in nodes[x].seps
  }

  function NextIn(o: seq<Id>, i: nat): Id {
    if i + 1 < |o| then o[i + 1] else NONE
  }

  /** The right links of a level run through the listed nodes, each once, starting at the least key. */
  predicate LevelOK(nodes: map<Id, Node>, o: seq<Id>, l: nat) {
    && o != [] && DistinctIds(o)
    && (forall i :: 0 <= i < |o| ==> o[i] in nodes && nodes[o[i]].level == l)
    && (forall i :: 0 <= i < |o| ==> nodes[o[i]].right == NextIn(o, i))
    && nodes[o[0]].low == 0
  }

  predicate LevelsOK(nodes: map<Id, Node>, levels: seq<seq<Id>>) {
    && levels != [] && (forall l {:trigger LevelOK(nodes, levels[l], l)} :: 0 <= l < |levels| ==> LevelOK(nodes, levels[l], l))
    && (forall id {:trigger Listed(nodes, levels, id)} :: id in nodes ==> Listed(nodes, levels, id))
  }

  predicate Listed(nodes: map<Id, Node>, levels: seq<seq<Id>>, id: Id)
    requires id in nodes
  {
    nodes[id].level < |levels| && id in levels[nodes[id].level]
  }

  /** What every edit of a node keeps. */
  ghost predicate Core(s: State) {
    && 2 <= s.maxItems && 2 <= s.maxKeys
    && (forall id {:trigger NodeOK(s.nodes, s.maxItems, s.maxKeys, id)} :: id in s.nodes ==> NodeOK(s.nodes, s.maxItems, s.maxKeys, id))
    && LowUnique(s.nodes) && SlotsOnce(s.nodes) && LevelsOK(s.nodes, s.levels)
  }

  predicate ParentOK(nodes: map<Id, Node>, id: Id)
    requires id in nodes
  {
    var p := nodes[id].parent;
    p != NONE && p in nodes && nodes[p].level == nodes[id].level + 1
  }

  /** Every node but the given ones has a parent one level up. */
  predicate Parented(nodes: map<Id, Node>, except: set<Id>) {
    forall id {:trigger ParentOK(nodes, id)} :: id in nodes && id !in except ==> ParentOK(nodes, id)
  }

  /** The root is alone on the top level; every other node has a parent one level up. */
  predicate Rooted(s: State) {
    && s.levels != [] && s.levels[|s.levels| - 1] == [s.root] && s.root in s.nodes
    && s.nodes[s.root].parent == NONE && Parented(s.nodes, {s.root})
  }

  /** A seeker stands at or left of its leaf; a separator being posted is in no slot. */
  ghost predicate TaskOK(nodes: map<Id, Node>, h: Task) {
    match h
    case Seek(k, _, at) => 0 <= k < MAX && at in nodes && nodes[at].low <= k
    case Find(k, at) => 0 <= k < MAX && at in nodes && nodes[at].low <= k
    case Post(k, sk, sep, at) =>
      && 0 <= k < MAX && at in nodes && sep in nodes && nodes[sep].low == sk
      && nodes[at].level == nodes[sep].level + 1 && Unplaced(nodes, sep)
    case _ => true
  }

  ghost predicate TasksOK(s: State) {
    && (forall t :: t in s.tasks ==> TaskOK(s.nodes, s.tasks[t]))
    && (forall t, u {:trigger SepsDiffer(s.tasks[t], s.tasks[u])} :: t in s.tasks && u in s.tasks && t != u ==> SepsDiffer(s.tasks[t], s.tasks[u]))
  }

  /** No two tasks post the same node. */
  predicate SepsDiffer(a: Task, b: Task) {
    a.Post? && b.Post? ==> a.sep != b.sep
  }

  ghost predicate Inv(s: State) {
    Core(s) && Rooted(s) && TasksOK(s)
  }

  // ---------------------------------------------------------------- steps

  /** The node a task executes on: well formed and listed in its level. */
  predicate Placed(s: State, at: Id) {
    at in s.nodes && 2 <= s.maxItems && 2 <= s.maxKeys && NodeOK(s.nodes, s.maxItems, s.maxKeys, at) && Listed(s.nodes, s.levels, at)
  }

  function IndexOf(o: seq<Id>, id: Id): (i: nat)
    requires id in o
    ensures i < |o| && o[i] == id
  {
    if o[0] == id then 0 else 1 + IndexOf(o[1..], id)
  }

  /** Makes `p` the parent of the given nodes. */
  function Adopt(nodes: map<Id, Node>, children: seq<Id>, p: Id): map<Id, Node> {
    map id | id in nodes :: if id in children then nodes[id].(parent := p) else nodes[id]
  }

  /** Grows the tree by a root over a split root and its sibling. */
  function NewRoot(s: State, left: Id, right: Id, key: Key, r: Id): State
    requires left in s.nodes
  {
    var root := Node(s.nodes[left].level + 1, s.nodes[left].low, [key], [], [], [left, right], MAX, NONE, NONE);
    s.(nodes := Adopt(s.nodes, [left, right], r)[r := root], root := r, levels := s.levels + [[r]])
  }

  /** Lists a new node right after another one of its level. */
  function WithSibling(levels: seq<seq<Id>>, l: nat, at: Id, f: Id): seq<seq<Id>>
    requires l < |levels| && at in levels[l]
  {
    levels[l := InsertAt(levels[l], IndexOf(levels[l], at) + 1, f)]
  }

  /** Installs the halves of a split: the node keeps the left one, `f` is its new right sibling. */
  function Halves(s: State, at: Id, left: Node, right: Node, f: Id): State
    requires left.level < |s.levels| && at in s.levels[left.level]
  {
    s.(nodes := s.nodes[at := left][f := right], levels := WithSibling(s.levels, left.level, at, f))
  }

  /** What a split leaves in the left half's unused slots: the moved pairs, but for the one an insertion shifts away. */
  function LeftBehind(keys: seq<Key>, vals: seq<Value>, key: Key): seq<Spare>
    requires |keys| >= 2 && |vals| == |keys|
  {
    var left := |keys| / 2;
    var from := if key < keys[left] then left + 1 else left;
    seq(|keys| - from, j requires 0 <= j < |keys| - from => Left(keys[from + j], vals[from + j]))
  }

  function LeafHalves(s: State, at: Id, key: Key, value: Value, f: Id): (h: State)
    requires Placed(s, at) && s.nodes[at].level == 0 && |s.nodes[at].keys| >= 2 && key !in s.nodes[at].keys
    ensures at in h.nodes && f in h.nodes && h.nodes[f].keys != []
  {
    var n := s.nodes[at];
    LeafSplitIsInsertion(n.keys, n.vals, key, value);
    var p := SplitLeaf(n.keys, n.vals, key, value);
    Halves(s, at, n.(keys := p.leftKeys, vals := p.leftVals, spare := LeftBehind(n.keys, n.vals, key), high := p.rightKeys[0], right := f),
           Node(0, p.rightKeys[0], p.rightKeys, p.rightVals, seq(s.maxItems - |p.rightKeys|, _ => Unwritten), [], n.high, n.right, n.parent), f)
  }

  /** Splits a full inner node; the children of the new half, and the posted one, get their parent set. */
  function InnerHalves(s: State, at: Id, sepKey: Key, sep: Id, f: Id): State
    requires Placed(s, at) && s.nodes[at].level > 0 && |s.nodes[at].keys| >= 2
  {
    var n := s.nodes[at];
    var p := SplitInner(n.keys, n.seps, sepKey, sep);
    var h := Halves(s, at, n.(keys := p.leftKeys, seps := p.leftSeps, high := p.keyUp, right := f),
                    Node(n.level, p.keyUp, p.rightKeys, [], [], p.rightSeps, n.high, n.right, n.parent), f);
    var kept := if sepKey < n.keys[|n.keys| / 2 - 1] then Adopt(h.nodes, [sep], at) else h.nodes;
    h.(nodes := Adopt(kept, p.rightSeps, f))
  }

  /** Inserting a pair shifts the last one into the first unused slot. */
  function Fewer(spare: seq<Spare>): seq<Spare> {
    if spare == [] then [] else spare[1..]
  }

  function SetLeaf(s: State, at: Id, keys: seq<Key>, vals: seq<Value>): State
    requires at in s.nodes
  {
    s.(nodes := s.nodes[at := s.nodes[at].(keys := keys, vals := vals, spare := Fewer(s.nodes[at].spare))])
  }

  function AddSep(s: State, at: Id, sepKey: Key, sep: Id): State
    requires at in s.nodes && Sorted(s.nodes[at].keys) && |s.nodes[at].seps| == |s.nodes[at].keys| + 1
  {
    var n := s.nodes[at];
    var i := LowerBound(n.keys, sepKey);
    s.(nodes := Adopt(s.nodes[at := n.(keys := InsertAt(n.keys, i, sepKey), seps := InsertAt(n.seps, i + 1, sep))], [sep], at))
  }

  /** After a split: a new root, or on to the parent with the new sibling as separator. */
  function Ascend(h: State, t: nat, key: Key, at: Id, sepKey: Key, f: Id, r: Id): State
    requires at in h.nodes
  {
    if h.nodes[at].parent == NONE then
      var g := NewRoot(h, at, f, sepKey, r);
      g.(tasks := g.tasks[t := Done])
    else
      h.(tasks := h.tasks[t := Post(key, sepKey, f, h.nodes[at].parent)])
  }

  function InsertIntoLeaf(s: State, t: nat, key: Key, value: Value, at: Id, f: Id, r: Id): State
    requires Placed(s, at) && s.nodes[at].level == 0 && f != at
  {
    var n := s.nodes[at];
    var i := LowerBound(n.keys, key);
    if i < |n.keys| && n.keys[i] == key then
      s.(tasks := s.tasks[t := Done])
    else if |n.keys| < s.maxItems then
      SetLeaf(s.(tasks := s.tasks[t := Done]), at, InsertAt(n.keys, i, key), InsertAt(n.vals, i, value))
    else
      var h := LeafHalves(s, at, key, value, f);
      Ascend(h, t, key, at, h.nodes[f].keys[0], f, r)
  }

  function InsertIntoInner(s: State, t: nat, key: Key, sepKey: Key, sep: Id, at: Id, f: Id, r: Id): State
    requires Placed(s, at) && s.nodes[at].level > 0 && f != at
  {
    var n := s.nodes[at];
    if |n.keys| < s.maxKeys then
      AddSep(s.(tasks := s.tasks[t := Done]), at, sepKey, sep)
    else
      Ascend(InnerHalves(s, at, sepKey, sep, f), t, key, at, SplitInner(n.keys, n.seps, sepKey, sep).keyUp, f, r)
  }

  /**
   What a lookup reads from its leaf. Above all keys of the leaf it compares with the first
   unused slot; `raw` is what that gives for a slot never written or past a full leaf's array.
   */
  function ReadLeaf(n: Node, key: Key, raw: Option<Value>): Option<Value>
    requires Sorted(n.keys) && |n.vals| == |n.keys|
  {
    var i := LowerBound(n.keys, key);
    if i < |n.keys| then if n.keys[i] == key then Some(n.vals[i]) else None
    else if n.spare == [] || n.spare[0].Unwritten? then raw
    else if n.spare[0].key == key then Some(n.spare[0].value) else None
  }

  datatype Step =
    | Insert(t: nat, key: Key, value: Value)
    | Lookup(t: nat, key: Key)
    | Execute(t: nat, f: Id, r: Id, raw: Option<Value>)

  /** Tasks start with keys below the largest one; an execution has two unused addresses at hand. */
  predicate Enabled(s: State, step: Step) {
    match step
    case Insert(t, k, _) => t !in s.tasks && 0 <= k < MAX
    case Lookup(t, k) => t !in s.tasks && 0 <= k < MAX
    case Execute(t, f, r, _) =>
      && t in s.tasks && !s.tasks[t].Done? && !s.tasks[t].Found?
      && f != r && f != NONE && r != NONE && f !in s.nodes && r !in s.nodes
  }

  /** A task that can execute stands on a placed node, above the leaves when it posts. */
  predicate Standing(s: State, h: Task) {
    (h.Seek? || h.Find? || h.Post?) && Placed(s, h.at) && (h.Post? ==> s.nodes[h.at].level > 0)
  }

  function Moved(h: Task, at: Id): Task {
    match h
    case Seek(k, v, _) => Seek(k, v, at)
    case Find(k, _) => Find(k, at)
    case Post(k, sk, sep, _) => Post(k, sk, sep, at)
    case _ => h
  }

  function Next(s: State, step: Step): State
    requires Enabled(s, step) && (step.Execute? ==> Standing(s, s.tasks[step.t]))
  {
    match step
    case Insert(t, k, v) => s.(tasks := s.tasks[t := Seek(k, v, s.root)])
    case Lookup(t, k) => s.(tasks := s.tasks[t := Find(k, s.root)])
    case Execute(t, f, r, raw) =>
      var at := s.tasks[t].at;
      var n := s.nodes[at];
      var k := s.tasks[t].key;
      if n.high <= k then s.(tasks := s.tasks[t := Moved(s.tasks[t], n.right)])
      else if s.tasks[t].Post? then InsertIntoInner(s, t, k, s.tasks[t].sepKey, s.tasks[t].sep, at, f, r)
      else if n.level > 0 then s.(tasks := s.tasks[t := Moved(s.tasks[t], Route(n.keys, n.seps, k))])
      else if s.tasks[t].Find? then s.(tasks := s.tasks[t := Found(k, ReadLeaf(n, k, raw))])
      else InsertIntoLeaf(s, t, k, s.tasks[t].value, at, f, r).(log := s.log + [Entry(k, s.tasks[t].value)])
  }
}
