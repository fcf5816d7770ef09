/**
 Epoch-based reclamation of B-link nodes, as a step machine. Joining an epoch loads the
 global epoch and then stores it in the thread's slot; retiring a node loads the global
 epoch and then queues the node. The collector advances the global epoch, reads the
 slots one by one, and then drains the queue while workers go on.
 */
module BLinkEpochs {

  /** The slot value of a thread outside every epoch: the largest 32-bit number. */
  const MAX: nat := 0xFFFF_FFFF

  type Thread = nat
  type Node = nat

  /** Where a worker stands; a slot is 0 before the thread has ever joined. */
  datatype Worker = Fresh | Outside | Joining(epoch: nat, slot: nat) | Inside(epoch: nat)

  function Slot(w: Worker): nat {
    match w
    case Fresh => 0
    case Outside => MAX
    case Joining(_, slot) => slot
    case Inside(e) => e
  }

  datatype Garbage = Garbage(node: Node, epoch: nat)

  /** The collector by its next step: advancing, reading slot i with the minimum so far, or draining. */
  datatype Collector = Sleeping | Scanning(i: nat, min: nat) | Draining(min: nat)

  /**
   `holders` is auxiliary: for each unlinked node, the threads that were inside an epoch
   when it was unlinked and still are, so that they may have reached it.
   */
  datatype State = State(global: nat, workers: seq<Worker>, linked: set<Node>, holders: map<Node, set<Thread>>,
                         tagged: map<Node, nat>, queue: seq<Garbage>, deferred: seq<Garbage>, pc: Collector, freed: set<Node>)

  datatype Step =
    | Load(t: Thread)
    | Join(t: Thread)
    | Leave(t: Thread)
    | Unlink(x: Node)
    | Tag(x: Node)
    | Push(x: Node)
    | Advance
    | Scan
    | Drain
    | EndDrain

  function Insiders(s: State): set<Thread> {
    set t: Thread | t < |s.workers| && s.workers[t].Inside?
  }

  /** A node is unlinked once, then tagged, then pushed. The epoch counter is assumed not to reach its last value. */
  predicate Enabled(s: State, step: Step) {
    match step
    case Load(t) => t < |s.workers| && (s.workers[t].Fresh? || s.workers[t].Outside?)
    case Join(t) => t < |s.workers| && s.workers[t].Joining?
    case Leave(t) => t < |s.workers| && s.workers[t].Inside?
    case Unlink(x) => x in s.linked
    case Tag(x) => x in s.holders && x !in s.linked && x !in s.tagged && Unqueued(s, x)
    case Push(x) => x in s.tagged
    case Advance => s.pc.Sleeping? && s.global + 1 < MAX
    case Scan => s.pc.Scanning?
    case Drain => s.pc.Draining? && s.queue != []
    case EndDrain => s.pc.Draining?
  }

  /** The node has not been pushed, nor freed. */
  predicate Unqueued(s: State, x: Node) {
    x !in s.freed && (forall i :: 0 <= i < |s.queue| ==> s.queue[i].node != x) && (forall i :: 0 <= i < |s.deferred| ==> s.deferred[i].node != x)
  }

  function Min(a: nat, b: nat): nat {
    if a < b then a else b
  }

  function Next(s: State, step: Step): State
    requires Enabled(s, step)
  {
    match step
    case Load(t) => s.(workers := s.workers[t := Joining(s.global, Slot(s.workers[t]))])
    case Join(t) => s.(workers := s.workers[t := Inside(s.workers[t].epoch)])
    case Leave(t) =>
      s.(workers := s.workers[t := Outside], holders := map x | x in s.holders :: s.holders[x] - {t})
    case Unlink(x) => s.(linked := s.linked - {x}, holders := s.holders[x := Insiders(s)])
    case Tag(x) => s.(tagged := s.tagged[x := s.global])
    case Push(x) => s.(tagged := s.tagged - {x}, queue := s.queue + [Garbage(x, s.tagged[x])])
    case Advance => s.(global := s.global + 1, pc := Scanning(0, MAX))
    case Scan =>
      if s.pc.i < |s.workers| then s.(pc := Scanning(s.pc.i + 1, Min(s.pc.min, Slot(s.workers[s.pc.i]))))
      else s.(pc := Draining(s.pc.min))
    case Drain =>
      var g := s.queue[0];
      if g.epoch < s.pc.min then s.(queue := s.queue[1..], freed := s.freed + {g.node})
      else s.(queue := s.queue[1..], deferred := s.deferred + [g])
    case EndDrain => s.(queue := s.queue + s.deferred, deferred := [], pc := Sleeping)
  }

  // ---------------------------------------------------------------- invariant

  predicate WorkerOK(s: State, w: Worker) {
    (w.Inside? || w.Joining? ==> w.epoch <= s.global) && (w.Joining? ==> w.slot == 0 || w.slot == MAX)
  }

  /** The slots of scanned threads are taken into account. */
  predicate Scanned(s: State, t: Thread) {
    s.pc.Draining? || (s.pc.Scanning? && t < s.pc.i)
  }

  /** Every thread that may have reached a retired node joined no later than it was tagged, and the pass knows it. */
  ghost predicate GarbageOK(s: State, x: Node, r: nat) {
    && r <= s.global && x in s.holders
    && forall t :: t in s.holders[x] && t < |s.workers| && s.workers[t].Inside? ==>
      (s.workers[t].epoch <= r && (Scanned(s, t) ==> s.pc.min <= s.workers[t].epoch || r == s.global))
  }

  predicate HoldersOK(s: State, x: Node)
    requires x in s.holders
  {
    forall t :: t in s.holders[x] ==> t < |s.workers| && s.workers[t].Inside?
  }

  ghost predicate Inv(s: State) {
    && s.global < MAX
    && (forall t :: 0 <= t < |s.workers| ==> WorkerOK(s, s.workers[t]))
    && (forall x {:trigger HoldersOK(s, x)} :: x in s.holders ==> HoldersOK(s, x))
    && (forall x :: x in s.tagged ==> GarbageOK(s, x, s.tagged[x]))
    && (forall i :: 0 <= i < |s.queue| ==> GarbageOK(s, s.queue[i].node, s.queue[i].epoch))
    && (forall i :: 0 <= i < |s.deferred| ==> GarbageOK(s, s.deferred[i].node, s.deferred[i].epoch))
    && (s.pc.Draining? || s.deferred == [])
  }

  // ---------------------------------------------------------------- every step

  /** A step that loses no information about holders keeps a node's garbage entry right. */
  lemma KeptEntry(s: State, step: Step, x: Node, r: nat)
    requires Inv(s) && Enabled(s, step) && GarbageOK(s, x, r) && (step.Unlink? ==> step.x != x)
    ensures GarbageOK(Next(s, step), x, r)
  {
    var g := Next(s, step);
    forall t | t in g.holders[x] && t < |g.workers| && g.workers[t].Inside?
      ensures g.workers[t].epoch <= r && (Scanned(g, t) ==> g.pc.min <= g.workers[t].epoch || r == g.global)
    {
      assert HoldersOK(s, x) && t in s.holders[x];
    }
  }

  /** Retired nodes are not linked any more. */
  ghost predicate Retired(s: State) {
    forall x :: x in s.linked ==> x !in s.tagged && Unqueued(s, x) && x !in s.holders
  }

  lemma RetiredKept(s: State, step: Step)
    requires Inv(s) && Retired(s) && Enabled(s, step)
    ensures Retired(Next(s, step))
  {
    var g := Next(s, step);
    forall x | x in g.linked ensures x !in g.tagged && Unqueued(g, x) && x !in g.holders {
      assert x in s.linked && Unqueued(s, x);
    }
  }

  lemma EntriesKept(s: State, step: Step)
    requires Inv(s) && Retired(s) && Enabled(s, step)
    ensures var g := Next(s, step);
      && (forall x :: x in g.tagged ==> GarbageOK(g, x, g.tagged[x]))
      && (forall i :: 0 <= i < |g.queue| ==> GarbageOK(g, g.queue[i].node, g.queue[i].epoch))
      && (forall i :: 0 <= i < |g.deferred| ==> GarbageOK(g, g.deferred[i].node, g.deferred[i].epoch))
  {
    var g := Next(s, step);
    forall x | x in g.tagged ensures GarbageOK(g, x, g.tagged[x]) {
      if x in s.tagged {
        KeptEntry(s, step, x, s.tagged[x]);
      } else {
        assert HoldersOK(s, x);
        forall t | t in s.holders[x] ensures s.workers[t].epoch <= s.global { assert WorkerOK(s, s.workers[t]); }
      }
    }
    forall i | 0 <= i < |g.queue| ensures GarbageOK(g, g.queue[i].node, g.queue[i].epoch) {
      var e := g.queue[i];
      assert e in s.queue || e in s.deferred || (step.Push? && e == Garbage(step.x, s.tagged[step.x]));
      KeptEntry(s, step, e.node, e.epoch);
    }
    forall i | 0 <= i < |g.deferred| ensures GarbageOK(g, g.deferred[i].node, g.deferred[i].epoch) {
      var e := g.deferred[i];
      assert e in s.queue || e in s.deferred;
      KeptEntry(s, step, e.node, e.epoch);
    }
  }

  /** Every step of every interleaving keeps the invariant. */
  lemma StepKeepsInv(s: State, step: Step)
    requires Inv(s) && Retired(s) && Enabled(s, step)
    ensures Inv(Next(s, step)) && Retired(Next(s, step))
  {
    EntriesKept(s, step);
    RetiredKept(s, step);
    var g := Next(s, step);
    forall t | 0 <= t < |g.workers| ensures WorkerOK(g, g.workers[t]) {
      assert WorkerOK(s, s.workers[t]);
    }
    forall x | x in g.holders ensures HoldersOK(g, x) {
      if !(step.Unlink? && step.x == x) { assert HoldersOK(s, x); }
    }
  }

  // ---------------------------------------------------------------- safety

  /** The step frees the node at the front of the queue. */
  predicate Frees(s: State, x: Node) {
    s.pc.Draining? && s.queue != [] && s.queue[0].node == x && s.queue[0].epoch < s.pc.min
  }

  /**
   An entry tagged before the current epoch is freed only when no thread still inside its
   epoch could have reached the node, whatever the minimum of the pass and whatever workers
   do while the queue is drained.
   */
  lemma FreeSafe(s: State, x: Node)
    requires Inv(s) && Frees(s, x) && s.queue[0].epoch < s.global
    ensures x in s.holders && s.holders[x] == {}
  {
    assert GarbageOK(s, x, s.queue[0].epoch) && HoldersOK(s, x);
    if t :| t in s.holders[x] { assert false; }
  }

  /** When the pass reads the slots and drains the queue in one go, the minimum needs no such bound. */
  lemma OneStepPassSafe(s: State, i: nat, min: nat)
    requires Inv(s) && i < |s.queue| && (forall t :: 0 <= t < |s.workers| ==> min <= Slot(s.workers[t])) && s.queue[i].epoch < min
    ensures s.queue[i].node in s.holders && s.holders[s.queue[i].node] == {}
  {
    var x := s.queue[i].node;
    assert GarbageOK(s, x, s.queue[i].epoch) && HoldersOK(s, x);
    if t :| t in s.holders[x] { assert false; }
  }

  /** Reading the slot of any thread that is not outside all epochs brings the minimum down to the bound. */
  lemma ScanBounds(s: State)
    requires Inv(s) && s.pc.Scanning? && s.pc.i < |s.workers| && Slot(s.workers[s.pc.i]) != MAX
    ensures Next(s, Scan).pc.Scanning? && Next(s, Scan).pc.min <= s.global
  {
    assert WorkerOK(s, s.workers[s.pc.i]);
  }

  predicate Leads(s: State, steps: seq<Step>, g: State)
    decreases |steps|
  {
    if steps == [] then s == g else Enabled(s, steps[0]) && Leads(Next(s, steps[0]), steps[1..], g)
  }

  lemma LeadsOn(s: State, step: Step, steps: seq<Step>, g: State)
    requires Enabled(s, step) && Leads(Next(s, step), steps, g)
    ensures Leads(s, [step] + steps, g)
  {
    assert ([step] + steps)[1..] == steps;
  }

  lemma {:induction false} LeadsConcat(s: State, a: seq<Step>, m: State, b: seq<Step>, g: State)
    requires Leads(s, a, m) && Leads(m, b, g)
    ensures Leads(s, a + b, g)
    decreases |a|
  {
    if a == [] {
      assert a + b == b;
    } else {
      LeadsConcat(Next(s, a[0]), a[1..], m, b, g);
      assert (a + b)[1..] == a[1..] + b;
    }
  }

  lemma LeadsOne(s: State, a: seq<Step>, m: State, step: Step)
    requires Leads(s, a, m) && Enabled(m, step)
    ensures Leads(s, a + [step], Next(m, step))
  {
    assert Leads(Next(m, step), [], Next(m, step));
    LeadsOn(m, step, [], Next(m, step));
    assert [step] + [] == [step];
    LeadsConcat(s, a, m, [step], Next(m, step));
  }

  // ---------------------------------------------------------------- a pass is safe exactly below the bound

  /** The steps stay within the drain of one pass. */
  predicate InPass(steps: seq<Step>) {
    forall i :: 0 <= i < |steps| ==> !steps[i].EndDrain? && !steps[i].Advance? && !steps[i].Scan?
  }

  ghost predicate FreesUnheld(s: State) {
    forall x :: Frees(s, x) ==> x in s.holders && s.holders[x] == {}
  }

  /** Whatever happens until the pass ends, it frees only nodes that nobody holds. */
  ghost predicate PassSafe(s: State) {
    forall steps, g :: InPass(steps) && Leads(s, steps, g) ==> FreesUnheld(g)
  }

  lemma {:induction false} BoundedPass(s: State, steps: seq<Step>, g: State)
    requires Inv(s) && Retired(s) && s.pc.Draining? && s.pc.min <= s.global && InPass(steps) && Leads(s, steps, g)
    ensures FreesUnheld(g)
    decreases |steps|
  {
    if steps == [] {
      forall x | Frees(s, x) ensures x in s.holders && s.holders[x] == {} { FreeSafe(s, x); }
    } else {
      StepKeepsInv(s, steps[0]);
      BoundedPass(Next(s, steps[0]), steps[1..], g);
    }
  }

  /** A pass can empty the queue before anything else happens. */
  lemma {:induction false} DrainAll(s: State) returns (steps: seq<Step>, g: State)
    requires Inv(s) && Retired(s) && s.pc.Draining?
    ensures Leads(s, steps, g) && InPass(steps) && |steps| == |s.queue| && Inv(g) && Retired(g)
    ensures g.queue == [] && g.pc == s.pc && g.global == s.global && g.workers == s.workers && g.linked == s.linked
    decreases |s.queue|
  {
    if s.queue == [] {
      steps, g := [], s;
    } else {
      StepKeepsInv(s, Drain);
      steps, g := DrainAll(Next(s, Drain));
      LeadsOn(s, Drain, steps, g);
      steps := [Drain] + steps;
    }
  }

  /** The steps a thread still needs to be inside an epoch. */
  function Entering(w: Worker, t: Thread): seq<Step> {
    match w
    case Inside(_) => []
    case Joining(_, _) => [Join(t)]
    case _ => [Load(t), Join(t)]
  }

  lemma Enters(s: State, t: Thread) returns (g: State)
    requires Inv(s) && Retired(s) && t < |s.workers|
    ensures Leads(s, Entering(s.workers[t], t), g) && Inv(g) && Retired(g) && t < |g.workers| && g.workers[t].Inside?
    ensures g == s.(workers := g.workers)
  {
    assert Leads(s, [], s);
    g := s;
    var steps: seq<Step> := [];
    if s.workers[t].Fresh? || s.workers[t].Outside? {
      StepKeepsInv(g, Load(t));
      LeadsOne(s, steps, g, Load(t));
      steps, g := steps + [Load(t)], Next(g, Load(t));
    }
    if g.workers[t].Joining? {
      StepKeepsInv(g, Join(t));
      LeadsOne(s, steps, g, Join(t));
      steps, g := steps + [Join(t)], Next(g, Join(t));
    }
    assert steps == Entering(s.workers[t], t);
  }

  /** With an empty queue and a thread inside, a node unlinked and retired now is the next one to be freed. */
  lemma RetireHeld(s: State, t: Thread, x: Node) returns (g: State)
    requires Inv(s) && Retired(s) && s.pc.Draining? && s.pc.min > s.global && s.queue == []
    requires t < |s.workers| && s.workers[t].Inside? && x in s.linked
    ensures Leads(s, [Unlink(x), Tag(x), Push(x)], g) && Frees(g, x) && x in g.holders && t in g.holders[x]
  {
    assert Unqueued(s, x);
    var a := Next(s, Unlink(x));
    assert t in a.holders[x] && Unqueued(a, x);
    var b := Next(a, Tag(x));
    g := Next(b, Push(x));
    assert Leads(s, [], s);
    LeadsOne(s, [], s, Unlink(x));
    LeadsOne(s, [] + [Unlink(x)], a, Tag(x));
    LeadsOne(s, [] + [Unlink(x)] + [Tag(x)], b, Push(x));
    assert [] + [Unlink(x)] + [Tag(x)] + [Push(x)] == [Unlink(x), Tag(x), Push(x)];
    assert g.queue == [Garbage(x, s.global)];
  }

  /**
   Beyond the bound the pass is not safe: from every such state, for every thread and every
   linked node, the pass drains what is queued, the thread enters an epoch unless it is in
   one, the node is unlinked and retired, and the pass frees it while the thread may hold it.
   */
  lemma FreeUnsafe(s: State, t: Thread, x: Node) returns (steps: seq<Step>, g: State)
    requires Inv(s) && Retired(s) && s.pc.Draining? && s.pc.min > s.global && t < |s.workers| && x in s.linked
    ensures Leads(s, steps, g) && InPass(steps) && |steps| == |s.queue| + |Entering(s.workers[t], t)| + 3
    ensures Frees(g, x) && x in g.holders && t in g.holders[x]
  {
    var head, a := DrainAll(s);
    var tail;
    tail, g := EnterAndRetire(a, t, x);
    LeadsConcat(s, head, a, tail, g);
    steps := head + tail;
  }

  lemma EnterAndRetire(s: State, t: Thread, x: Node) returns (steps: seq<Step>, g: State)
    requires Inv(s) && Retired(s) && s.pc.Draining? && s.pc.min > s.global && s.queue == [] && t < |s.workers| && x in s.linked
    ensures Leads(s, steps, g) && InPass(steps) && |steps| == |Entering(s.workers[t], t)| + 3
    ensures Frees(g, x) && x in g.holders && t in g.holders[x]
  {
    var retire := [Unlink(x), Tag(x), Push(x)];
    var b := Enters(s, t);
    g := RetireHeld(b, t, x);
    LeadsConcat(s, Entering(s.workers[t], t), b, retire, g);
    steps := Entering(s.workers[t], t) + retire;
  }

  /** With a thread and a linked node about, a pass is safe exactly if its minimum does not exceed the global epoch. */
  lemma PassSafeIff(s: State)
    requires Inv(s) && Retired(s) && s.pc.Draining? && s.workers != [] && s.linked != {}
    ensures PassSafe(s) <==> s.pc.min <= s.global
  {
    if s.pc.min <= s.global {
      forall steps, g | InPass(steps) && Leads(s, steps, g) ensures FreesUnheld(g) { BoundedPass(s, steps, g); }
    } else {
      var x :| x in s.linked;
      var steps, g := FreeUnsafe(s, 0, x);
      assert !FreesUnheld(g);
    }
  }

  /** The only thread joins and leaves, and the collector, finding it outside, starts to drain without a bound. */
  lemma DrainsUnbounded(s: State) returns (steps: seq<Step>, d: State)
    requires Init(s) && |s.workers| == 1
    ensures |steps| == 6 && Leads(s, steps, d) && Inv(d) && Retired(d)
    ensures d.pc == Draining(MAX) && d.global == 1 && d.queue == [] && d.linked == s.linked && d.freed == {} && d.workers == [Outside]
  {
    var all := [Load(0), Join(0), Leave(0), Advance, Scan, Scan];
    steps, d := [], s;
    for i := 0 to 6
      invariant steps == all[..i] && Leads(s, steps, d) && Inv(d) && Retired(d) && |d.workers| == 1
      invariant d.linked == s.linked && d.queue == [] && d.freed == {} && d.global == if i < 4 then 0 else 1
      invariant d.workers[0] == if i == 0 then Fresh else if i == 1 then Joining(0, 0) else if i == 2 then Inside(0) else Outside
      invariant d.pc == if i < 4 then Sleeping else if i == 4 then Scanning(0, MAX) else if i == 5 then Scanning(1, MAX) else Draining(MAX)
    {
      StepKeepsInv(d, all[i]);
      LeadsOne(s, steps, d, all[i]);
      steps, d := steps + [all[i]], Next(d, all[i]);
    }
  }

  /**
   From every initial state with one thread and a linked node, a run of eleven steps leads
   to a pass that frees the node while the thread may hold it.
   */
  lemma UnsafeRun(s: State, x: Node) returns (steps: seq<Step>, g: State)
    requires Init(s) && |s.workers| == 1 && x in s.linked
    ensures |steps| == 11 && Leads(s, steps, g) && Frees(g, x) && x in g.holders && 0 in g.holders[x]
  {
    var head, d := DrainsUnbounded(s);
    var tail;
    tail, g := FreeUnsafe(d, 0, x);
    LeadsConcat(s, head, d, tail, g);
    steps := head + tail;
  }

  // ---------------------------------------------------------------- runs

  predicate Init(s: State) {
    && s.global == 0 && (forall t :: 0 <= t < |s.workers| ==> s.workers[t] == Fresh) && s.holders == map[] && s.tagged == map[]
    && s.queue == s.deferred == [] && s.pc == Sleeping && s.freed == {}
  }

  ghost predicate IsRun(states: seq<State>, steps: seq<Step>) {
    && |states| == |steps| + 1 && Init(states[0])
    && forall i :: 0 <= i < |steps| ==> Enabled(states[i], steps[i]) && states[i + 1] == Next(states[i], steps[i])
  }

  /**
   In every state of every run, an entry tagged before the current epoch is freed only when
   nobody holds its node; and the pass under way, with a thread and a linked node about, is
   safe to its end exactly if its minimum does not exceed the global epoch.
   */
  lemma {:induction false} RunSafe(states: seq<State>, steps: seq<Step>, i: nat)
    requires IsRun(states, steps) && i < |states|
    ensures Inv(states[i]) && Retired(states[i])
    ensures forall x :: Frees(states[i], x) && states[i].queue[0].epoch < states[i].global ==> x in states[i].holders && states[i].holders[x] == {}
    ensures states[i].pc.Draining? && states[i].workers != [] && states[i].linked != {} ==>
      (PassSafe(states[i]) <==> states[i].pc.min <= states[i].global)
  {
    if i > 0 {
      RunSafe(states, steps, i - 1);
      assert states[i - 1 + 1] == Next(states[i - 1], steps[i - 1]);
      StepKeepsInv(states[i - 1], steps[i - 1]);
    }
    var s := states[i];
    forall x | Frees(s, x) && s.queue[0].epoch < s.global ensures x in s.holders && s.holders[x] == {} {
      FreeSafe(s, x);
    }
    if s.pc.Draining? && s.workers != [] && s.linked != {} { PassSafeIff(s); }
  }

  /** Entering and leaving an epoch: a thread outside is inside the current epoch after two steps, and outside, holding nothing, after a third. */
  lemma EnterAndLeave(s: State, t: Thread)
    requires t < |s.workers| && s.workers[t].Outside?
    ensures var inside := s.(workers := s.workers[t := Inside(s.global)]);
      && Leads(s, [Load(t)] + [Join(t)], inside) && Enabled(inside, Leave(t)) && Next(inside, Leave(t)).workers == s.workers
      && forall x :: x in Next(inside, Leave(t)).holders ==> t !in Next(inside, Leave(t)).holders[x]
  {
    var inside := s.(workers := s.workers[t := Inside(s.global)]);
    var a := Next(s, Load(t));
    assert Next(a, Join(t)) == inside;
    assert Leads(s, [], s);
    LeadsOne(s, [], s, Load(t));
    assert [] + [Load(t)] == [Load(t)];
    LeadsOne(s, [Load(t)], a, Join(t));
    assert inside.workers[t := Outside] == s.workers;
  }

  /**
   Freed memory and the queue change in three ways only: draining takes the front entry off
   and frees its node exactly if it is older than the minimum, else defers it; a push appends
   its node with the epoch it was tagged with; the end of the pass requeues what was deferred.
   */
  lemma StepFrees(s: State, step: Step)
    requires Enabled(s, step)
    ensures var g := Next(s, step);
      if step.Drain? then
        && g.queue == s.queue[1..]
        && (if Frees(s, s.queue[0].node) then g.freed == s.freed + {s.queue[0].node} && g.deferred == s.deferred
            else g.freed == s.freed && g.deferred == s.deferred + [s.queue[0]])
      else if step.Push? then g.freed == s.freed && g.deferred == s.deferred && g.queue == s.queue + [Garbage(step.x, s.tagged[step.x])]
      else if step.EndDrain? then g.freed == s.freed && g.deferred == [] && g.queue == s.queue + s.deferred
      else g.freed == s.freed && g.deferred == s.deferred && g.queue == s.queue
    ensures step.Tag? ==> step.x in Next(s, step).tagged && Next(s, step).tagged[step.x] == s.global
  {
  }

  /** In every run, a node that a step frees was tagged before the minimum of its pass, and if before the current epoch, is held by nobody. */
  lemma RunFreed(states: seq<State>, steps: seq<Step>, i: nat, x: Node)
    requires IsRun(states, steps) && i < |steps| && x in states[i + 1].freed && x !in states[i].freed
    ensures var s := states[i];
      && steps[i].Drain? && Frees(s, x) && s.queue[0].epoch < s.pc.min
      && (s.queue[0].epoch < s.global ==> x in s.holders && s.holders[x] == {})
  {
    RunSafe(states, steps, i);
    assert states[i + 1] == Next(states[i], steps[i]);
    StepFrees(states[i], steps[i]);
  }

  // ---------------------------------------------------------------- the loops of one pass

  /** The smallest slot of all threads. */
  method MinLocalEpoch(slots: seq<nat>) returns (min: nat)
    requires slots != []
    ensures min in slots && forall i :: 0 <= i < |slots| ==> min <= slots[i]
  {
    min := slots[0];
    for i := 1 to |slots|
      invariant min in slots && forall j :: 0 <= j < i ==> min <= slots[j]
    {
      min := Min(min, slots[i]);
    }
  }

  /** The entries a pass frees, or requeues, in order. */
  function Select(queue: seq<Garbage>, min: nat, free: bool): seq<Garbage> {
    if queue == [] then []
    else (if (queue[0].epoch < min) == free then [queue[0]] else []) + Select(queue[1..], min, free)
  }

  /** Every drained entry is freed or requeued, and only once. */
  lemma {:induction false} DrainConserves(queue: seq<Garbage>, min: nat)
    ensures multiset(Select(queue, min, true)) + multiset(Select(queue, min, false)) == multiset(queue)
    ensures forall g :: g in Select(queue, min, true) ==> g.epoch < min
    ensures forall g :: g in Select(queue, min, false) ==> g.epoch >= min
  {
    if queue != [] {
      DrainConserves(queue[1..], min);
      assert queue == [queue[0]] + queue[1..];
    }
  }

  lemma Regroup(a: seq<Garbage>, g: Garbage, b: seq<Garbage>)
    ensures a + ([g] + b) == a + [g] + b && a + ([] + b) == a + b
  {
  }

  // ---------------------------------------------------------------- a pass that runs alone

  /** The smallest slot from the i-th on, and a given bound. */
  function LeastSlot(workers: seq<Worker>, i: nat, bound: nat): (m: nat)
    requires i <= |workers|
    ensures m <= bound && (forall u :: i <= u < |workers| ==> m <= Slot(workers[u]))
    ensures m == bound || exists u :: i <= u < |workers| && m == Slot(workers[u])
    decreases |workers| - i
  {
    if i == |workers| then bound else LeastSlot(workers, i + 1, Min(bound, Slot(workers[i])))
  }

  lemma {:induction false} ScansAll(s: State) returns (steps: seq<Step>, g: State)
    requires s.pc.Scanning? && s.pc.i <= |s.workers|
    ensures Leads(s, steps, g) && g == s.(pc := Draining(LeastSlot(s.workers, s.pc.i, s.pc.min)))
    decreases |s.workers| - s.pc.i
  {
    var m := Next(s, Scan);
    steps, g := [], m;
    if s.pc.i < |s.workers| { steps, g := ScansAll(m); }
    LeadsOn(s, Scan, steps, g);
    steps := [Scan] + steps;
  }

  function Nodes(o: seq<Garbage>): set<Node> {
    set g | g in o :: g.node
  }

  lemma {:induction false} DrainsQueue(s: State) returns (steps: seq<Step>, g: State)
    requires s.pc.Draining?
    ensures Leads(s, steps, g)
    ensures g == s.(queue := [], deferred := s.deferred + Select(s.queue, s.pc.min, false), freed := s.freed + Nodes(Select(s.queue, s.pc.min, true)))
    decreases |s.queue|
  {
    if s.queue == [] {
      steps, g := [], s;
      assert Nodes([]) == {} && s.deferred + [] == s.deferred;
    } else {
      var m, q := Next(s, Drain), s.queue[1..];
      steps, g := DrainsQueue(m);
      LeadsOn(s, Drain, steps, g);
      steps := [Drain] + steps;
      Regroup(s.deferred, s.queue[0], Select(q, s.pc.min, false));
      assert Nodes([s.queue[0]] + Select(q, s.pc.min, true)) == {s.queue[0].node} + Nodes(Select(q, s.pc.min, true));
    }
  }

  /**
   A pass that runs alone advances the epoch, frees exactly the queued entries tagged before
   every slot, and requeues the others in their order.
   */
  lemma PassAlone(s: State) returns (steps: seq<Step>, g: State)
    requires Inv(s) && s.pc.Sleeping? && s.global + 1 < MAX
    ensures var min := LeastSlot(s.workers, 0, MAX);
      && Leads(s, steps, g)
      && g == s.(global := s.global + 1, queue := Select(s.queue, min, false), freed := s.freed + Nodes(Select(s.queue, min, true)))
    ensures forall e :: e in s.queue ==>
      (e.epoch < LeastSlot(s.workers, 0, MAX) <==> forall u :: 0 <= u < |s.workers| ==> e.epoch < Slot(s.workers[u]))
  {
    var a := Next(s, Advance);
    var b, c := ScansAll(a);
    var d, e := DrainsQueue(c);
    g := Next(e, EndDrain);
    assert Leads(s, [], s);
    LeadsOne(s, [], s, Advance);
    LeadsConcat(s, [] + [Advance], a, b, c);
    LeadsConcat(s, [] + [Advance] + b, c, d, e);
    LeadsOne(s, [] + [Advance] + b + d, e, EndDrain);
    steps := [] + [Advance] + b + d + [EndDrain];
    forall x | x in s.queue ensures x.epoch < MAX {
      var i :| 0 <= i < |s.queue| && s.queue[i] == x;
      assert GarbageOK(s, s.queue[i].node, s.queue[i].epoch);
    }
  }

  class Reclaimer {
    var queue: seq<Garbage>
    var freed: seq<Garbage>

    /** Drains the queue, frees what is older than the minimum and requeues the rest in order. */
    method ReclaimEpochGarbage(min: nat)
      modifies this
      ensures queue == Select(old(queue), min, false)
      ensures freed == old(freed) + Select(old(queue), min, true)
    {
      var deferred: seq<Garbage> := [];
      while queue != []
        invariant deferred + Select(queue, min, false) == Select(old(queue), min, false)
        invariant freed + Select(queue, min, true) == old(freed) + Select(old(queue), min, true)
        decreases |queue|
      {
        var garbage := queue[0];
        queue := queue[1..];
        Regroup(deferred, garbage, Select(queue, min, false));
        Regroup(freed, garbage, Select(queue, min, true));
        if garbage.epoch < min {
          freed := freed + [garbage];
        } else {
          deferred := deferred + [garbage];
        }
      }
      if deferred != [] {
        queue := queue + deferred;
      }
    }
  }
}
