/**
 Epoch-based reclamation of Bw-tree nodes, as a step machine. Every thread keeps a list
 of the nodes it has retired, and collects only from its own list, from inside its epoch:
 it reads the slots of all threads one by one and then frees a prefix of the list.
 */
module BwEpochs {

  /** The slot value of a thread outside every epoch: the largest 64-bit number. */
  const MAX: nat := 0xFFFF_FFFF_FFFF_FFFF

  type Thread = nat
  type Node = nat

  datatype Garbage = Garbage(node: Node, epoch: nat)

  /** What a thread inside its epoch is doing with its garbage list. */
  datatype Collector = Working | Tagged(node: Node, epoch: nat) | Scanning(i: nat, min: nat) | Freeing(min: nat)

  datatype Worker = Outside(slot: nat) | Joining(epoch: nat, slot: nat) | Inside(epoch: nat, pc: Collector)

  /** What the other threads read of a thread. */
  function Slot(w: Worker): nat {
    match w
    case Outside(slot) => slot
    case Joining(_, slot) => slot
    case Inside(e, _) => e
  }

  /**
   `holders` is auxiliary: for each unlinked node, the threads that were inside an epoch
   when it was unlinked and still are, so that they may have reached it.
   */
  datatype State = State(global: nat, workers: seq<Worker>, lists: seq<seq<Garbage>>, linked: set<Node>,
                         holders: map<Node, set<Thread>>, freed: set<Node>)

  datatype Step =
    | Load(t: Thread)
    | Join(t: Thread)
    | Leave(t: Thread)
    | Unlink(x: Node)
    | Tag(t: Thread, x: Node)
    | Append(t: Thread)
    | Collect(t: Thread)
    | Scan(t: Thread)
    | Free(t: Thread)
    | Advance

  function Insiders(s: State): set<Thread> {
    set t: Thread | t < |s.workers| && s.workers[t].Inside?
  }

  predicate Doing(s: State, t: Thread) {
    t < |s.workers| && t < |s.lists| && s.workers[t].Inside?
  }

  /** A thread retires nodes that have been unlinked; the epoch counter is assumed not to reach its last value. */
  predicate Enabled(s: State, step: Step) {
    match step
    case Load(t) => t < |s.workers| && s.workers[t].Outside?
    case Join(t) => t < |s.workers| && s.workers[t].Joining?
    case Leave(t) => Doing(s, t) && s.workers[t].pc.Working?
    case Unlink(x) => x in s.linked
    case Tag(t, x) => Doing(s, t) && s.workers[t].pc.Working? && x in s.holders && x !in s.linked
    case Append(t) => Doing(s, t) && s.workers[t].pc.Tagged?
    case Collect(t) => Doing(s, t) && s.workers[t].pc.Working?
    case Scan(t) => Doing(s, t) && s.workers[t].pc.Scanning?
    case Free(t) => Doing(s, t) && s.workers[t].pc.Freeing?
    case Advance => s.global + 1 < MAX
  }

  function Min(a: nat, b: nat): nat {
    if a < b then a else b
  }

  function Do(s: State, t: Thread, pc: Collector): State
    requires Doing(s, t)
  {
    s.(workers := s.workers[t := s.workers[t].(pc := pc)])
  }

  function Next(s: State, step: Step): State
    requires Enabled(s, step)
  {
    match step
    case Load(t) => s.(workers := s.workers[t := Joining(s.global, Slot(s.workers[t]))])
    case Join(t) => s.(workers := s.workers[t := Inside(s.workers[t].epoch, Working)])
    case Leave(t) => s.(workers := s.workers[t := Outside(MAX)], holders := map x | x in s.holders :: s.holders[x] - {t})
    case Unlink(x) => s.(linked := s.linked - {x}, holders := s.holders[x := Insiders(s)])
    case Tag(t, x) => Do(s, t, Tagged(x, s.global))
    case Append(t) =>
      var g := Garbage(s.workers[t].pc.node, s.workers[t].pc.epoch);
      Do(s, t, Working).(lists := s.lists[t := s.lists[t] + [g]])
    case Collect(t) => Do(s, t, Scanning(0, MAX))
    case Scan(t) =>
      var pc := s.workers[t].pc;
      if pc.i < |s.workers| then Do(s, t, Scanning(pc.i + 1, Min(pc.min, Slot(s.workers[pc.i])))) else Do(s, t, Freeing(pc.min))
    case Free(t) =>
      if s.lists[t] == [] || s.lists[t][0].epoch >= s.workers[t].pc.min then Do(s, t, Working)
      else s.(lists := s.lists[t := s.lists[t][1..]], freed := s.freed + {s.lists[t][0].node})
    case Advance => s.(global := s.global + 1)
  }

  // ---------------------------------------------------------------- invariant

  predicate WorkerOK(s: State, w: Worker) {
    && (w.Inside? || w.Joining? ==> w.epoch <= s.global)
    && (w.Inside? && w.pc.Tagged? ==> w.pc.epoch <= s.global)
  }

  predicate HoldersOK(s: State, x: Node)
    requires x in s.holders
  {
    forall t :: t in s.holders[x] ==> t < |s.workers| && s.workers[t].Inside?
  }

  /** The collecting thread has read the slot. */
  predicate Scanned(pc: Collector, t: Thread) {
    pc.Freeing? || (pc.Scanning? && t < pc.i)
  }

  /** Every thread that may have reached a retired node joined no later than it was tagged, and its owner's pass knows it. */
  ghost predicate GarbageOK(s: State, pc: Collector, g: Garbage) {
    && g.epoch <= s.global && g.node in s.holders
    && forall t :: t in s.holders[g.node] && t < |s.workers| && s.workers[t].Inside? ==>
      (s.workers[t].epoch <= g.epoch && (Scanned(pc, t) ==> pc.min <= s.workers[t].epoch))
  }

  function Pc(w: Worker): Collector {
    if w.Inside? then w.pc else Working
  }

  /** A thread's list is in order of its epochs. */
  predicate Ordered(o: seq<Garbage>) {
    forall i, j :: 0 <= i < j < |o| ==> o[i].epoch <= o[j].epoch
  }

  ghost predicate ListOK(s: State, t: Thread)
    requires t < |s.lists| && t < |s.workers|
  {
    && Ordered(s.lists[t]) && (forall i :: 0 <= i < |s.lists[t]| ==> GarbageOK(s, Pc(s.workers[t]), s.lists[t][i]))
    && (Pc(s.workers[t]).Tagged? ==>
         var g := Garbage(s.workers[t].pc.node, s.workers[t].pc.epoch);
         GarbageOK(s, Working, g) && forall i :: 0 <= i < |s.lists[t]| ==> s.lists[t][i].epoch <= g.epoch)
  }

  ghost predicate Inv(s: State) {
    && s.global < MAX && |s.lists| == |s.workers| && (forall x :: x in s.linked ==> x !in s.holders)
    && (forall t :: 0 <= t < |s.workers| ==> WorkerOK(s, s.workers[t]))
    && (forall x {:trigger HoldersOK(s, x)} :: x in s.holders ==> HoldersOK(s, x))
    && (forall t {:trigger ListOK(s, t)} :: 0 <= t < |s.lists| ==> ListOK(s, t))
  }

  // ---------------------------------------------------------------- every step

  /** An entry stays right: holders only leave, and a pass only reads more slots. */
  lemma KeptEntry(s: State, step: Step, t: Thread, g: Garbage)
    requires Inv(s) && Enabled(s, step) && t < |s.workers| && GarbageOK(s, Pc(s.workers[t]), g)
    ensures GarbageOK(Next(s, step), Pc(Next(s, step).workers[t]), g)
  {
    var n := Next(s, step);
    var pc := Pc(n.workers[t]);
    assert HoldersOK(s, g.node);
    forall u | u in n.holders[g.node] && u < |n.workers| && n.workers[u].Inside?
      ensures n.workers[u].epoch <= g.epoch && (Scanned(pc, u) ==> pc.min <= n.workers[u].epoch)
    {
      assert u in s.holders[g.node];
    }
  }

  lemma TagEntry(s: State, t: Thread, x: Node)
    requires Inv(s) && Enabled(s, Tag(t, x))
    ensures GarbageOK(Next(s, Tag(t, x)), Working, Garbage(x, s.global))
  {
    assert HoldersOK(s, x);
    forall u | u in s.holders[x] ensures s.workers[u].epoch <= s.global {
      assert WorkerOK(s, s.workers[u]);
    }
  }

  lemma WorkingEntry(s: State, step: Step, g: Garbage)
    requires Inv(s) && Enabled(s, step) && GarbageOK(s, Working, g)
    ensures GarbageOK(Next(s, step), Working, g)
  {
    var n := Next(s, step);
    assert HoldersOK(s, g.node);
    forall u | u in n.holders[g.node] && u < |n.workers| && n.workers[u].Inside? ensures n.workers[u].epoch <= g.epoch {
      assert u in s.holders[g.node];
    }
  }

  lemma ListKept(s: State, step: Step, t: Thread)
    requires Inv(s) && Enabled(s, step) && t < |s.lists|
    ensures |Next(s, step).lists| == |Next(s, step).workers| == |s.workers| && ListOK(Next(s, step), t)
  {
    var n := Next(s, step);
    assert ListOK(s, t) && WorkerOK(s, s.workers[t]);
    forall i | 0 <= i < |n.lists[t]| ensures GarbageOK(n, Pc(n.workers[t]), n.lists[t][i]) {
      var g := n.lists[t][i];
      if step == Append(t) && i == |s.lists[t]| {
        WorkingEntry(s, step, g);
      } else {
        assert g in s.lists[t];
        KeptEntry(s, step, t, g);
      }
    }
    if Pc(n.workers[t]).Tagged? {
      var g := Garbage(n.workers[t].pc.node, n.workers[t].pc.epoch);
      if step.Tag? && step.t == t { TagEntry(s, t, step.x); } else { WorkingEntry(s, step, g); }
    }
  }

  /** Every step of every interleaving keeps the invariant; in particular every list stays in epoch order. */
  lemma StepKeepsInv(s: State, step: Step)
    requires Inv(s) && Enabled(s, step)
    ensures Inv(Next(s, step))
  {
    var n := Next(s, step);
    forall t | 0 <= t < |n.workers| ensures WorkerOK(n, n.workers[t]) {
      assert WorkerOK(s, s.workers[t]);
    }
    forall x | x in n.holders ensures HoldersOK(n, x) {
      if !(step.Unlink? && step.x == x) { assert HoldersOK(s, x); }
    }
    forall t | 0 <= t < |n.lists| ensures ListOK(n, t) { ListKept(s, step, t); }
  }

  // ---------------------------------------------------------------- safety

  /** The next step of the thread frees the node at the front of its list. */
  predicate Frees(s: State, t: Thread, x: Node) {
    Doing(s, t) && s.workers[t].pc.Freeing? && s.lists[t] != [] && s.lists[t][0].node == x && s.lists[t][0].epoch < s.workers[t].pc.min
  }

  /** No node is freed while a thread that could have reached it before it was unlinked is still inside its epoch. */
  lemma FreeSafe(s: State, t: Thread, x: Node)
    requires Inv(s) && Frees(s, t, x)
    ensures x in s.holders && s.holders[x] == {}
  {
    assert ListOK(s, t);
    assert GarbageOK(s, s.workers[t].pc, s.lists[t][0]) && HoldersOK(s, x);
    if u :| u in s.holders[x] { assert false; }
  }

  /**
   Freed memory and garbage lists change in two ways only: a thread whose turn it is to free
   takes exactly the front entry off its own list and frees its node, and a thread that
   retires a node appends it with the epoch it tagged it with.
   */
  lemma StepFrees(s: State, step: Step)
    requires Enabled(s, step)
    ensures var n := Next(s, step);
      if step.Free? && s.lists[step.t] != [] && Frees(s, step.t, s.lists[step.t][0].node) then
        && n.freed == s.freed + {s.lists[step.t][0].node} && n.lists == s.lists[step.t := s.lists[step.t][1..]] && n.workers == s.workers
      else if step.Append? then
        n.freed == s.freed && n.lists == s.lists[step.t := s.lists[step.t] + [Garbage(s.workers[step.t].pc.node, s.workers[step.t].pc.epoch)]]
      else n.freed == s.freed && n.lists == s.lists
    ensures step.Tag? ==> Next(s, step).workers[step.t].pc == Tagged(step.x, s.global)
  {
  }

  predicate Init(s: State) {
    && s.global == 0 && |s.lists| == |s.workers| && s.holders == map[] && s.freed == {}
    && (forall t :: 0 <= t < |s.workers| ==> s.workers[t] == Outside(0)) && (forall t :: 0 <= t < |s.lists| ==> s.lists[t] == [])
  }

  ghost predicate IsRun(states: seq<State>, steps: seq<Step>) {
    && |states| == |steps| + 1 && Init(states[0])
    && forall i :: 0 <= i < |steps| ==> Enabled(states[i], steps[i]) && states[i + 1] == Next(states[i], steps[i])
  }

  lemma InitInv(s: State)
    requires Init(s)
    ensures Inv(s)
  {
    forall t | 0 <= t < |s.lists| ensures ListOK(s, t) {}
  }

  /** In every run no thread frees a node that another thread may still hold. */
  lemma {:induction false} RunSafe(states: seq<State>, steps: seq<Step>, i: nat)
    requires IsRun(states, steps) && i < |states|
    ensures Inv(states[i])
    ensures forall t, x :: Frees(states[i], t, x) ==> x in states[i].holders && states[i].holders[x] == {}
  {
    if i == 0 {
      InitInv(states[0]);
    } else {
      RunSafe(states, steps, i - 1);
      assert states[i - 1 + 1] == Next(states[i - 1], steps[i - 1]);
      StepKeepsInv(states[i - 1], steps[i - 1]);
    }
    forall t, x | Frees(states[i], t, x) ensures x in states[i].holders && states[i].holders[x] == {} {
      FreeSafe(states[i], t, x);
    }
  }

  /** In every run, a node that a step frees is held by nobody, and is freed by its own thread from the front of its list. */
  lemma RunFreed(states: seq<State>, steps: seq<Step>, i: nat, x: Node)
    requires IsRun(states, steps) && i < |steps| && x in states[i + 1].freed && x !in states[i].freed
    ensures x in states[i].holders && states[i].holders[x] == {} && steps[i].Free? && Frees(states[i], steps[i].t, x)
  {
    RunSafe(states, steps, i);
    assert states[i + 1] == Next(states[i], steps[i]);
    StepFrees(states[i], steps[i]);
  }

  // ---------------------------------------------------------------- one collection

  /** How many entries at the front are older than the minimum. */
  function Prefix(o: seq<Garbage>, min: nat): (n: nat)
    ensures n <= |o| && (forall i :: 0 <= i < n ==> o[i].epoch < min) && (n < |o| ==> o[n].epoch >= min)
  {
    if o != [] && o[0].epoch < min then
      var n := 1 + Prefix(o[1..], min);
      assert forall i :: 1 <= i < n ==> o[i] == o[1..][i - 1];
      n
    else 0
  }

  /** In an ordered list the freed prefix holds exactly the entries older than the minimum. */
  lemma PrefixExact(o: seq<Garbage>, min: nat, i: nat)
    requires Ordered(o) && i < |o|
    ensures o[i].epoch < min <==> i < Prefix(o, min)
  {
    var n := Prefix(o, min);
    if n <= i { assert o[n].epoch <= o[i].epoch; }
  }

  // ---------------------------------------------------------------- a collection that runs alone

  /** Entering and leaving an epoch: a thread outside is inside the current epoch after two steps, and outside, holding nothing, after a third. */
  lemma EnterAndLeave(s: State, t: Thread)
    requires t < |s.workers| && t < |s.lists| && s.workers[t].Outside?
    ensures var inside := s.(workers := s.workers[t := Inside(s.global, Working)]);
      && Leads(s, [Load(t)] + [Join(t)], inside) && Enabled(inside, Leave(t))
      && Next(inside, Leave(t)).workers == s.workers[t := Outside(MAX)]
      && forall x :: x in Next(inside, Leave(t)).holders ==> t !in Next(inside, Leave(t)).holders[x]
  {
    var inside := s.(workers := s.workers[t := Inside(s.global, Working)]);
    var a := Next(s, Load(t));
    assert Next(a, Join(t)) == inside;
    LeadsOn(a, Join(t), [], inside);
    assert [Join(t)] + [] == [Join(t)];
    LeadsOn(s, Load(t), [Join(t)], inside);
    assert inside.workers[t := Outside(MAX)] == s.workers[t := Outside(MAX)];
  }

  predicate Leads(s: State, steps: seq<Step>, g: State)
    decreases |steps|
  {
    if steps == [] then s == g else Enabled(s, steps[0]) && Leads(Next(s, steps[0]), steps[1..], g)
  }

  lemma LeadsOn(s: State, step: Step, steps: seq<Step>, g: State)
    requires Enabled(s, step) && Leads(Next(s, step), steps, g)
    ensures Leads(s, [step] + steps, g)
  {
    assert ([step] + steps)[1..] == steps;
  }

  lemma {:induction false} LeadsConcat(s: State, a: seq<Step>, m: State, b: seq<Step>, g: State)
    requires Leads(s, a, m) && Leads(m, b, g)
    ensures Leads(s, a + b, g)
    decreases |a|
  {
    if a == [] {
      assert a + b == b;
    } else {
      LeadsConcat(Next(s, a[0]), a[1..], m, b, g);
      assert (a + b)[1..] == a[1..] + b;
    }
  }

  /** The smallest slot from the i-th on, and a given bound. */
  function LeastSlot(workers: seq<Worker>, i: nat, bound: nat): (m: nat)
    requires i <= |workers|
    ensures m <= bound && (forall u :: i <= u < |workers| ==> m <= Slot(workers[u]))
    ensures m == bound || exists u :: i <= u < |workers| && m == Slot(workers[u])
    decreases |workers| - i
  {
    if i == |workers| then bound else LeastSlot(workers, i + 1, Min(bound, Slot(workers[i])))
  }

  /** Reading the slots one by one yields the smallest. */
  lemma {:induction false} ScansAll(s: State, t: Thread) returns (steps: seq<Step>, g: State)
    requires Doing(s, t) && s.workers[t].pc.Scanning? && s.workers[t].pc.i <= |s.workers|
    ensures Leads(s, steps, g) && g == Do(s, t, Freeing(LeastSlot(s.workers, s.workers[t].pc.i, s.workers[t].pc.min)))
    decreases |s.workers| - s.workers[t].pc.i
  {
    var pc := s.workers[t].pc;
    var m := Next(s, Scan(t));
    if pc.i == |s.workers| {
      steps, g := [], m;
    } else {
      steps, g := ScansAll(m, t);
      SameSlots(s.workers, t, m.workers[t].pc, pc.i + 1, Min(pc.min, Slot(s.workers[pc.i])));
    }
    LeadsOn(s, Scan(t), steps, g);
    steps := [Scan(t)] + steps;
  }

  /** What a thread does with its list is not seen in its slot. */
  lemma {:induction false} SameSlots(workers: seq<Worker>, t: Thread, pc: Collector, i: nat, bound: nat)
    requires t < |workers| && workers[t].Inside? && i <= |workers|
    ensures LeastSlot(workers[t := workers[t].(pc := pc)], i, bound) == LeastSlot(workers, i, bound)
    decreases |workers| - i
  {
    if i < |workers| { SameSlots(workers, t, pc, i + 1, Min(bound, Slot(workers[i]))); }
  }

  function Nodes(o: seq<Garbage>): set<Node> {
    set g | g in o :: g.node
  }

  /** Freeing from the front takes exactly the entries older than the minimum. */
  lemma {:induction false} FreesPrefix(s: State, t: Thread) returns (steps: seq<Step>, g: State)
    requires Doing(s, t) && s.workers[t].pc.Freeing?
    ensures var o, p := s.lists[t], Prefix(s.lists[t], s.workers[t].pc.min);
      && Leads(s, steps, g) && g.lists == s.lists[t := o[p..]] && g.freed == s.freed + Nodes(o[..p])
      && g == Do(s, t, Working).(lists := g.lists, freed := g.freed)
    decreases |s.lists[t]|
  {
    var o, p, m := s.lists[t], Prefix(s.lists[t], s.workers[t].pc.min), Next(s, Free(t));
    if p == 0 {
      steps, g := [], m;
      assert o[..0] == [] && o[0..] == o && s.lists[t := o] == s.lists;
    } else {
      steps, g := FreesPrefix(m, t);
      assert o[..p] == [o[0]] + o[1..][..p - 1] && o[1..][p - 1..] == o[p..];
      assert Nodes(o[..p]) == {o[0].node} + Nodes(o[1..][..p - 1]);
    }
    LeadsOn(s, Free(t), steps, g);
    steps := [Free(t)] + steps;
  }

  /**
   A collection that runs alone frees exactly the entries of the thread's own list that were
   tagged before every slot it can read, its own included, and keeps the others in order.
   */
  lemma CollectAlone(s: State, t: Thread) returns (steps: seq<Step>, g: State)
    requires Inv(s) && Doing(s, t) && s.workers[t].pc.Working?
    ensures var o, p := s.lists[t], Prefix(s.lists[t], LeastSlot(s.workers, 0, MAX));
      && Leads(s, steps, g) && g.workers == s.workers && g.lists == s.lists[t := o[p..]] && g.freed == s.freed + Nodes(o[..p])
    ensures forall i :: 0 <= i < |s.lists[t]| ==>
      (i < Prefix(s.lists[t], LeastSlot(s.workers, 0, MAX)) <==> forall u :: 0 <= u < |s.workers| ==> s.lists[t][i].epoch < Slot(s.workers[u]))
  {
    var a := Next(s, Collect(t));
    SameSlots(s.workers, t, Scanning(0, MAX), 0, MAX);
    var b, c, d;
    b, c := ScansAll(a, t);
    d, g := FreesPrefix(c, t);
    LeadsConcat(a, b, c, d, g);
    LeadsOn(s, Collect(t), b + d, g);
    steps := [Collect(t)] + (b + d);
    assert g.workers == s.workers;
    forall i | 0 <= i < |s.lists[t]|
      ensures i < Prefix(s.lists[t], LeastSlot(s.workers, 0, MAX)) <==> forall u :: 0 <= u < |s.workers| ==> s.lists[t][i].epoch < Slot(s.workers[u])
    {
      assert ListOK(s, t);
      PrefixExact(s.lists[t], LeastSlot(s.workers, 0, MAX), i);
      assert GarbageOK(s, Working, s.lists[t][i]);
    }
  }

  class GarbageList {
    var nodes: seq<Garbage>
    var freed: seq<Garbage>

    /** Frees from the front until an entry is not older than the minimum. */
    method PerformGC(min: nat)
      modifies this
      ensures nodes == old(nodes)[Prefix(old(nodes), min)..] && freed == old(freed) + old(nodes)[..Prefix(old(nodes), min)]
    {
      ghost var n := 0;
      while nodes != [] && nodes[0].epoch < min
        invariant n <= |old(nodes)| && nodes == old(nodes)[n..] && freed == old(freed) + old(nodes)[..n]
        invariant n + Prefix(nodes, min) == Prefix(old(nodes), min)
        decreases |nodes|
      {
        var first := nodes[0];
        nodes := nodes[1..];
        freed := freed + [first];
        n := n + 1;
      }
    }
  }
}
