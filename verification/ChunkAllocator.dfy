/**
 The chunk list a Bw-tree base node allocates its records from, as a step machine: the
 guard load, the subtraction from the tail, the load of the next chunk and the
 compare-and-swap that installs a new one are separate steps of each thread.
 Addresses are offsets from a chunk's limit, so chunks do not overlap.
 */
module ChunkAllocator {

  type Thread = nat

  const NONE: nat := 0

  /** A chunk's tail, which may fall below its limit, and its successor; the successor's number is never 0. */
  datatype Chunk = Chunk(tail: int, next: nat)

  /** An allocation by its next step on chunk c. */
  datatype Pc = Idle | Guard(c: nat, size: nat) | Subtract(c: nat, size: nat) | Look(c: nat, size: nat) | Install(c: nat, size: nat)

  /** A successful result: `size` bytes from offset `lo` of a chunk. */
  datatype Block = Block(chunk: nat, lo: int, size: nat)

  datatype State = State(chunkSize: nat, maxSize: nat, chunks: seq<Chunk>, threads: seq<Pc>, blocks: seq<Block>)

  datatype Step = Allocate(t: Thread, size: nat) | Run(t: Thread)

  /** Allocation starts at the first chunk. */
  predicate Enabled(s: State, step: Step) {
    match step
    case Allocate(t, size) => t < |s.threads| && s.threads[t].Idle? && size <= s.maxSize && s.chunks != []
    case Run(t) => t < |s.threads| && !s.threads[t].Idle? && s.threads[t].c < |s.chunks|
  }

  function Go(s: State, t: Thread, pc: Pc): State
    requires t < |s.threads|
  {
    s.(threads := s.threads[t := pc])
  }

  function Exec(s: State, t: Thread): State
    requires Enabled(s, Run(t))
  {
    var c := s.threads[t].c;
    var chunk := s.chunks[c];
    match s.threads[t]
    case Guard(_, size) => Go(s, t, if chunk.tail < 0 then Look(c, size) else Subtract(c, size))
    case Subtract(_, size) =>
      var newTail := chunk.tail - size;
      var g := s.(chunks := s.chunks[c := chunk.(tail := newTail)]);
      if newTail < 0 then Go(g, t, Look(c, size)) else Go(g, t, Idle).(blocks := s.blocks + [Block(c, newTail, size)])
    case Look(_, size) => Go(s, t, if chunk.next != NONE then Guard(chunk.next, size) else Install(c, size))
    case Install(_, size) =>
      if chunk.next != NONE then Go(s, t, Guard(chunk.next, size))
      else Go(s, t, Guard(|s.chunks|, size)).(chunks := s.chunks[c := chunk.(next := |s.chunks|)] + [Chunk(s.chunkSize, NONE)])
  }

  function Next(s: State, step: Step): State
    requires Enabled(s, step)
  {
    match step
    case Allocate(t, size) => Go(s, t, Guard(0, size))
    case Run(t) => Exec(s, t)
  }

  // ---------------------------------------------------------------- invariant

  /** Threads that have passed a chunk's guard and not yet subtracted. */
  function Passed(threads: seq<Pc>, c: nat): nat {
    if threads == [] then 0
    else (if threads[0].Subtract? && threads[0].c == c then 1 else 0) + Passed(threads[1..], c)
  }

  /** How far the tail can have fallen: one request for every thread that is not about to subtract. */
  predicate TailOK(s: State, c: nat)
    requires c < |s.chunks|
  {
    s.chunks[c].tail <= s.chunkSize && s.chunks[c].tail >= -(s.maxSize * (|s.threads| - Passed(s.threads, c)))
  }

  /** Successors are later chunks, and no two chunks share one. */
  predicate LinkOK(s: State, c: nat)
    requires c < |s.chunks|
  {
    s.chunks[c].next != NONE ==> c < s.chunks[c].next < |s.chunks|
  }

  predicate BlockOK(s: State, b: Block) {
    b.chunk < |s.chunks| && 0 <= b.lo && s.chunks[b.chunk].tail <= b.lo && b.lo + b.size <= s.chunkSize
  }

  predicate Disjoint(a: Block, b: Block) {
    a.chunk != b.chunk || a.lo + a.size <= b.lo || b.lo + b.size <= a.lo
  }

  predicate ThreadOK(s: State, pc: Pc) {
    !pc.Idle? ==> pc.c < |s.chunks| && pc.size <= s.maxSize
  }

  ghost predicate Inv(s: State) {
    && s.chunks != [] && (forall t :: 0 <= t < |s.threads| ==> ThreadOK(s, s.threads[t]))
    && (forall c {:trigger TailOK(s, c)} :: 0 <= c < |s.chunks| ==> TailOK(s, c))
    && (forall c {:trigger LinkOK(s, c)} :: 0 <= c < |s.chunks| ==> LinkOK(s, c))
    && (forall c, d :: 0 <= c < d < |s.chunks| ==> s.chunks[c].next == NONE || s.chunks[c].next != s.chunks[d].next)
    && (forall i :: 0 <= i < |s.blocks| ==> BlockOK(s, s.blocks[i]))
    && (forall i, j {:trigger Disjoint(s.blocks[i], s.blocks[j])} :: 0 <= i < j < |s.blocks| ==> Disjoint(s.blocks[i], s.blocks[j]))
  }

  // ---------------------------------------------------------------- counting

  lemma {:induction false} PassedUpdate(threads: seq<Pc>, t: nat, pc: Pc, c: nat)
    requires t < |threads|
    ensures Passed(threads[t := pc], c) == Passed(threads, c) - (if threads[t].Subtract? && threads[t].c == c then 1 else 0)
      + (if pc.Subtract? && pc.c == c then 1 else 0)
    ensures Passed(threads, c) <= |threads|
  {
    if t > 0 {
      PassedUpdate(threads[1..], t - 1, pc, c);
      assert threads[t := pc][1..] == threads[1..][t - 1 := pc];
    } else {
      assert threads[t := pc][1..] == threads[1..];
      PassedBound(threads[1..], c);
    }
  }

  lemma {:induction false} PassedBound(threads: seq<Pc>, c: nat)
    ensures Passed(threads, c) <= |threads|
  {
    if threads != [] { PassedBound(threads[1..], c); }
  }

  /** The bound grows by one request when one thread fewer is about to subtract, and is never above zero. */
  lemma Bound(max: nat, n: nat, p: nat)
    requires p <= n
    ensures -(max * (n - p)) <= 0 && -(max * n) <= -(max * (n - p))
    ensures p > 0 ==> -(max * (n - (p - 1))) == -(max * (n - p)) - max
  {
    if p > 0 { assert max * (n - (p - 1)) == max * (n - p) + max; }
    assert max * n == max * (n - p) + max * p;
  }

  // ---------------------------------------------------------------- every step

  lemma TailKept(s: State, step: Step, c: nat)
    requires Inv(s) && Enabled(s, step) && c < |Next(s, step).chunks|
    ensures TailOK(Next(s, step), c)
  {
    var g, t, n := Next(s, step), step.t, |s.threads|;
    PassedUpdate(s.threads, t, g.threads[t], c);
    PassedBound(g.threads, c);
    var p := Passed(s.threads, c);
    assert g.threads == s.threads[t := g.threads[t]];
    Bound(s.maxSize, n, Passed(g.threads, c));
    if c < |s.chunks| {
      assert TailOK(s, c) && ThreadOK(s, s.threads[t]);
      Bound(s.maxSize, n, p);
    }
  }

  lemma BlocksKept(s: State, step: Step)
    requires Inv(s) && Enabled(s, step)
    ensures var g := Next(s, step);
      && (forall i :: 0 <= i < |g.blocks| ==> BlockOK(g, g.blocks[i]))
      && (forall i, j :: 0 <= i < j < |g.blocks| ==> Disjoint(g.blocks[i], g.blocks[j]))
  {
    var g := Next(s, step);
    if step.Run? { assert TailOK(s, s.threads[step.t].c) && ThreadOK(s, s.threads[step.t]); }
    forall i | 0 <= i < |g.blocks| ensures BlockOK(g, g.blocks[i]) {
      if i < |s.blocks| { assert BlockOK(s, s.blocks[i]); }
    }
    forall i, j | 0 <= i < j < |g.blocks| ensures Disjoint(g.blocks[i], g.blocks[j]) {
      assert BlockOK(s, s.blocks[i]);
      if j < |s.blocks| { assert Disjoint(s.blocks[i], s.blocks[j]); }
    }
  }

  lemma LinksKept(s: State, step: Step)
    requires Inv(s) && Enabled(s, step)
    ensures var g := Next(s, step);
      && (forall c :: 0 <= c < |g.chunks| ==> LinkOK(g, c))
      && (forall c, d :: 0 <= c < d < |g.chunks| ==> g.chunks[c].next == NONE || g.chunks[c].next != g.chunks[d].next)
  {
    var g := Next(s, step);
    forall c | 0 <= c < |g.chunks| ensures LinkOK(g, c) {
      if c < |s.chunks| { assert LinkOK(s, c); }
    }
    forall c, d | 0 <= c < d < |g.chunks| ensures g.chunks[c].next == NONE || g.chunks[c].next != g.chunks[d].next {
      assert LinkOK(s, c);
      if d < |s.chunks| { assert LinkOK(s, d); }
    }
  }

  /** Every step of every interleaving keeps the invariant. */
  lemma StepKeepsInv(s: State, step: Step)
    requires Inv(s) && Enabled(s, step)
    ensures Inv(Next(s, step))
  {
    var g := Next(s, step);
    forall c | 0 <= c < |g.chunks| ensures TailOK(g, c) { TailKept(s, step, c); }
    BlocksKept(s, step);
    LinksKept(s, step);
    forall t | 0 <= t < |g.threads| ensures ThreadOK(g, g.threads[t]) {
      assert ThreadOK(s, s.threads[t]);
      if step.Run? { assert LinkOK(s, s.threads[step.t].c); }
    }
  }

  /** Once a chunk has a successor it keeps it: no step installs another. */
  lemma OneSuccessor(s: State, step: Step, c: nat)
    requires Enabled(s, step) && c < |s.chunks| && s.chunks[c].next != NONE
    ensures c < |Next(s, step).chunks| && Next(s, step).chunks[c].next == s.chunks[c].next
  {
  }

  // ---------------------------------------------------------------- runs

  predicate Init(s: State) {
    && s.chunks == [Chunk(s.chunkSize, NONE)] && s.blocks == [] && forall t :: 0 <= t < |s.threads| ==> s.threads[t].Idle?
  }

  ghost predicate IsRun(states: seq<State>, steps: seq<Step>) {
    && |states| == |steps| + 1 && Init(states[0])
    && forall i :: 0 <= i < |steps| ==> Enabled(states[i], steps[i]) && states[i + 1] == Next(states[i], steps[i])
  }

  lemma InitInv(s: State)
    requires Init(s)
    ensures Inv(s)
  {
    PassedBound(s.threads, 0);
    Bound(s.maxSize, |s.threads|, Passed(s.threads, 0));
  }

  lemma {:induction false} RunInv(states: seq<State>, steps: seq<Step>, i: nat)
    requires IsRun(states, steps) && i < |states|
    ensures Inv(states[i])
  {
    if i == 0 {
      InitInv(states[0]);
    } else {
      RunInv(states, steps, i - 1);
      assert states[i - 1 + 1] == Next(states[i - 1], steps[i - 1]);
      StepKeepsInv(states[i - 1], steps[i - 1]);
    }
  }

  /** In every run, an allocation under way always stands on an existing chunk. */
  lemma NeverStuck(states: seq<State>, steps: seq<Step>, i: nat, t: Thread)
    requires IsRun(states, steps) && i < |states| && t < |states[i].threads| && !states[i].threads[t].Idle?
    ensures Enabled(states[i], Run(t))
  {
    RunInv(states, steps, i);
    assert ThreadOK(states[i], states[i].threads[t]);
  }

  // ---------------------------------------------------------------- what callers get

  /** The size of a thread's latest request. */
  function Asked(steps: seq<Step>, t: Thread): nat
    decreases |steps|
  {
    if steps == [] then 0
    else
      var n := |steps| - 1;
      if steps[n].Allocate? && steps[n].t == t then steps[n].size else Asked(steps[..n], t)
  }

  /** An allocation under way carries the size its thread has asked for. */
  lemma {:induction false} RunAsked(states: seq<State>, steps: seq<Step>, i: nat, t: Thread)
    requires IsRun(states, steps) && i < |states| && t < |states[i].threads| && !states[i].threads[t].Idle?
    ensures states[i].threads[t].size == Asked(steps[..i], t)
  {
    if i > 0 {
      var n := i - 1;
      assert steps[..i][..n] == steps[..n] && states[n + 1] == Next(states[n], steps[n]);
      if !states[n].threads[t].Idle? { RunAsked(states, steps, n, t); }
    }
  }

  /** The step is the last of an allocation. */
  predicate Ends(step: Step, after: State) {
    step.Run? && step.t < |after.threads| && after.threads[step.t].Idle?
  }

  /**
   The last step of an allocation adds one block, of the size its thread has asked for, at
   the new tail of its chunk; no other step adds or changes a block.
   */
  lemma RunGrants(states: seq<State>, steps: seq<Step>, i: nat)
    requires IsRun(states, steps) && i < |steps|
    ensures var s, g, t := states[i], states[i + 1], steps[i].t;
      if Ends(steps[i], g) then
        && t < |s.threads| && !s.threads[t].Idle? && s.threads[t].c < |g.chunks|
        && g.blocks == s.blocks + [Block(s.threads[t].c, g.chunks[s.threads[t].c].tail, Asked(steps[..i], t))]
      else g.blocks == s.blocks
  {
    assert states[i + 1] == Next(states[i], steps[i]);
    if steps[i].Run? { RunAsked(states, steps, i, steps[i].t); }
  }

  /** The sizes asked for by the allocations that have ended, in the order of their ends. */
  ghost function Granted(states: seq<State>, steps: seq<Step>, i: nat): seq<nat>
    requires i <= |steps| < |states|
  {
    if i == 0 then [] else Granted(states, steps, i - 1) + if Ends(steps[i - 1], states[i]) then [Asked(steps[..i - 1], steps[i - 1].t)] else []
  }

  lemma {:induction false} RunSizes(states: seq<State>, steps: seq<Step>, i: nat)
    requires IsRun(states, steps) && i < |states|
    ensures |states[i].blocks| == |Granted(states, steps, i)|
    ensures forall a :: 0 <= a < |states[i].blocks| ==> states[i].blocks[a].size == Granted(states, steps, i)[a]
  {
    if i > 0 {
      RunSizes(states, steps, i - 1);
      RunGrants(states, steps, i - 1);
      assert states[i - 1 + 1] == states[i];
    }
  }

  /** In every run there is one result for every allocation that has ended; the bytes asked for are disjoint ranges inside their chunk. */
  lemma RunDisjoint(states: seq<State>, steps: seq<Step>, i: nat, a: nat, b: nat)
    requires IsRun(states, steps) && i < |states| && a < b < |Granted(states, steps, i)|
    ensures |states[i].blocks| == |Granted(states, steps, i)|
    ensures var x, y := states[i].blocks[a], states[i].blocks[b]; var m, n := Granted(states, steps, i)[a], Granted(states, steps, i)[b];
      && 0 <= x.lo && x.lo + m <= states[i].chunkSize && 0 <= y.lo && y.lo + n <= states[i].chunkSize
      && (x.chunk == y.chunk ==> x.lo + m <= y.lo || y.lo + n <= x.lo)
  {
    RunInv(states, steps, i);
    RunSizes(states, steps, i);
    var s := states[i];
    assert BlockOK(s, s.blocks[a]) && BlockOK(s, s.blocks[b]) && Disjoint(s.blocks[a], s.blocks[b]);
  }

  // ---------------------------------------------------------------- an allocation that runs alone

  /** The state after so many steps of one thread, or when its allocation has ended. */
  ghost function Alone(s: State, t: Thread, n: nat): State
    decreases n
  {
    if n == 0 || !Enabled(s, Run(t)) then s else Alone(Next(s, Run(t)), t, n - 1)
  }

  lemma {:induction false} AloneMore(s: State, t: Thread, m: nat, n: nat)
    ensures Alone(Alone(s, t, m), t, n) == Alone(s, t, m + n)
    decreases m
  {
    if m > 0 && Enabled(s, Run(t)) { AloneMore(Next(s, Run(t)), t, m - 1, n); }
  }

  /** On a chunk with room the next two steps succeed. */
  lemma TakesHere(s: State, t: Thread)
    requires t < |s.threads| && s.threads[t].Guard? && s.threads[t].c < |s.chunks| && s.threads[t].size <= s.chunks[s.threads[t].c].tail
    ensures var pc, g := s.threads[t], Alone(s, t, 2);
      g.threads == s.threads[t := Idle] && g.blocks == s.blocks + [Block(pc.c, s.chunks[pc.c].tail - pc.size, pc.size)]
  {
    var a := Next(s, Run(t));
    var b := Next(a, Run(t));
    assert Alone(b, t, 0) == b;
    assert Alone(a, t, 1) == b;
    assert b.threads == s.threads[t := Idle];
  }

  /** The steps from one chunk to the next: with no room the thread looks for a successor, and installs one if there is none. */
  lemma GoesOn(s: State, t: Thread) returns (n: nat)
    requires Inv(s) && t < |s.threads| && s.threads[t].Guard? && s.threads[t].c < |s.chunks| && s.chunks[s.threads[t].c].tail < s.threads[t].size
    ensures var pc, g := s.threads[t], Alone(s, t, n);
      && 2 <= n <= 4 && Inv(g) && g.blocks == s.blocks && |g.threads| == |s.threads| && g.chunkSize == s.chunkSize
      && g.threads[t].Guard? && g.threads[t].size == pc.size && pc.c < g.threads[t].c < |g.chunks|
      && (|g.chunks| == |s.chunks| || (g.threads[t].c == |s.chunks| && |g.chunks| == |s.chunks| + 1 && g.chunks[|s.chunks|].tail == s.chunkSize))
  {
    var c := s.threads[t].c;
    var a := Next(s, Run(t));
    StepKeepsInv(s, Run(t));
    n := 1;
    assert Alone(a, t, 0) == a && Alone(s, t, 1) == a;
    var b := a;
    if a.threads[t].Subtract? {
      b := Next(a, Run(t));
      StepKeepsInv(a, Run(t));
      n := 2;
      assert Alone(b, t, 0) == b && Alone(a, t, 1) == b;
      AloneMore(s, t, 1, 1);
    }
    assert b.threads[t] == Look(c, s.threads[t].size) && Alone(s, t, n) == b;
    var m := LooksOn(b, t);
    AloneMore(s, t, n, m);
    n := n + m;
  }

  lemma LooksOn(s: State, t: Thread) returns (n: nat)
    requires Inv(s) && t < |s.threads| && s.threads[t].Look? && s.threads[t].c < |s.chunks|
    ensures var pc, g := s.threads[t], Alone(s, t, n);
      && 1 <= n <= 2 && Inv(g) && g.blocks == s.blocks && |g.threads| == |s.threads| && g.chunkSize == s.chunkSize
      && g.threads[t].Guard? && g.threads[t].size == pc.size && pc.c < g.threads[t].c < |g.chunks|
      && (|g.chunks| == |s.chunks| || (g.threads[t].c == |s.chunks| && |g.chunks| == |s.chunks| + 1 && g.chunks[|s.chunks|].tail == s.chunkSize))
  {
    assert LinkOK(s, s.threads[t].c);
    var a := Next(s, Run(t));
    StepKeepsInv(s, Run(t));
    n := 1;
    assert Alone(a, t, 0) == a && Alone(s, t, 1) == a;
    if a.threads[t].Install? {
      var b := Next(a, Run(t));
      StepKeepsInv(a, Run(t));
      assert Alone(b, t, 0) == b && Alone(a, t, 1) == b;
      AloneMore(s, t, 1, 1);
      n := 2;
    }
  }

  /** A request that fits into a chunk, running alone from any state, ends, with one new block of exactly its size. */
  lemma {:induction false} AllocatesAlone(s: State, t: Thread) returns (n: nat)
    requires Inv(s) && t < |s.threads| && s.threads[t].Guard? && s.threads[t].size <= s.chunkSize
    ensures var g := Alone(s, t, n);
      && t < |g.threads| && g.threads[t].Idle? && |g.blocks| == |s.blocks| + 1 && g.blocks[..|s.blocks|] == s.blocks
      && g.blocks[|s.blocks|].size == s.threads[t].size
    decreases |s.chunks| - s.threads[t].c
  {
    assert ThreadOK(s, s.threads[t]);
    if s.threads[t].size <= s.chunks[s.threads[t].c].tail {
      TakesHere(s, t);
      n := 2;
    } else {
      n := GoesOn(s, t);
      var g := Alone(s, t, n);
      var m;
      if |g.chunks| == |s.chunks| {
        m := AllocatesAlone(g, t);
      } else {
        TakesHere(g, t);
        m := 2;
      }
      AloneMore(s, t, n, m);
      n := n + m;
    }
  }

  /** A request of a thread that has none under way, running alone, gets its block. */
  lemma RequestServed(s: State, t: Thread, size: nat) returns (n: nat)
    requires Inv(s) && t < |s.threads| && s.threads[t].Idle? && size <= s.maxSize && size <= s.chunkSize
    ensures Enabled(s, Allocate(t, size)) && var g := Alone(Next(s, Allocate(t, size)), t, n);
      t < |g.threads| && g.threads[t].Idle? && |g.blocks| == |s.blocks| + 1 && g.blocks[..|s.blocks|] == s.blocks && g.blocks[|s.blocks|].size == size
  {
    StepKeepsInv(s, Allocate(t, size));
    n := AllocatesAlone(Next(s, Allocate(t, size)), t);
  }

  /** In every run with N threads and requests of at most S bytes, no tail falls more than N * S below its limit. */
  lemma RunTailBound(states: seq<State>, steps: seq<Step>, i: nat, c: nat)
    requires IsRun(states, steps) && i < |states| && c < |states[i].chunks|
    ensures states[i].chunks[c].tail >= -(states[i].maxSize * |states[i].threads|)
  {
    RunInv(states, steps, i);
    var s := states[i];
    assert TailOK(s, c);
    PassedBound(s.threads, c);
    Bound(s.maxSize, |s.threads|, Passed(s.threads, c));
  }
}
