/**
 The 32-bit version lock, as a step machine: taking it loads an unlocked version and then
 compares and swaps it to the locked one; releasing it adds to the version again.
 */
module VersionLock {

  const WORD: nat := 0x1_0000_0000
  const STEP: nat := 2
  const FIRST: nat := 4

  /** How many write sections bring the version back to where it was. */
  const PERIOD: nat := 0x4000_0000

  type Thread = nat

  /**
   `sections` and `holder` are auxiliary: the number of completed write sections and the
   thread that has swapped the version and not yet released it.
   */
  datatype State = State(version: nat, seen: map<Thread, nat>, holder: set<Thread>, sections: nat)

  predicate IsLocked(version: nat) {
    version / STEP % 2 == 1
  }

  datatype Step = Load(t: Thread) | Swap(t: Thread) | Unlock(t: Thread)

  /** A load of a locked version only spins; a thread swaps with the version it has seen. */
  predicate Enabled(s: State, step: Step) {
    match step
    case Load(t) => t !in s.holder
    case Swap(t) => t in s.seen && t !in s.holder
    case Unlock(t) => t in s.holder
  }

  function Next(s: State, step: Step): State
    requires Enabled(s, step)
  {
    match step
    case Load(t) => if IsLocked(s.version) then s else s.(seen := s.seen[t := s.version])
    case Swap(t) =>
      if s.version == s.seen[t] then s.(version := (s.version + STEP) % WORD, seen := s.seen - {t}, holder := s.holder + {t})
      else s.(seen := s.seen - {t})
    case Unlock(t) => s.(version := (s.version + STEP) % WORD, holder := s.holder - {t}, sections := s.sections + 1)
  }

  predicate Init(s: State) {
    s.version == FIRST && s.seen == map[] && s.holder == {} && s.sections == 0
  }

  /** Sections begun so far. */
  function Begun(s: State): nat {
    s.sections + |s.holder|
  }

  /** The version counts section beginnings and ends modulo 2^32; at most one thread holds the lock. */
  ghost predicate Inv(s: State) {
    && |s.holder| <= 1 && s.version == (FIRST + 2 * STEP * s.sections + STEP * |s.holder|) % WORD
    && (forall t :: t in s.seen ==> !IsLocked(s.seen[t]))
  }

  /** The version has its lock bit set exactly while a thread holds the lock. */
  lemma BitIsHolder(n: nat, h: nat)
    requires h <= 1
    ensures IsLocked((FIRST + 2 * STEP * n + STEP * h) % WORD) <==> h == 1
    ensures (FIRST + 2 * STEP * n + STEP * h) % WORD / (2 * STEP) == (1 + n) % PERIOD
  {
    var x := FIRST + 2 * STEP * n + STEP * h;
    var q, m := (1 + n) / PERIOD, (1 + n) % PERIOD;
    assert x == q * WORD + (4 * m + 2 * h);
    WrapsTo(q, 4 * m + 2 * h);
  }

  lemma WrapsTo(q: nat, r: nat)
    requires r < WORD
    ensures (q * WORD + r) % WORD == r
  {
  }

  lemma AddWraps(x: nat)
    ensures (x % WORD + STEP) % WORD == (x + STEP) % WORD
  {
  }

  /** Every step of every interleaving keeps the lock exclusive and the version in step. */
  lemma StepKeepsInv(s: State, step: Step)
    requires Inv(s) && Enabled(s, step)
    ensures Inv(Next(s, step))
    ensures Begun(s) <= Begun(Next(s, step)) && s.sections <= Next(s, step).sections
  {
    BitIsHolder(s.sections, |s.holder|);
    AddWraps(FIRST + 2 * STEP * s.sections + STEP * |s.holder|);
    if step.Swap? && s.version == s.seen[step.t] {
      assert s.holder == {};
      assert Next(s, step).holder == {step.t};
    } else if step.Unlock? {
      assert s.holder == {step.t} by { OnlyHolder(s.holder, step.t); }
      assert Next(s, step).holder == {};
    }
  }

  lemma OnlyHolder(h: set<Thread>, t: Thread)
    requires |h| <= 1 && t in h
    ensures h == {t}
  {
    assert |h - {t}| == |h| - 1;
    assert h == {t} + (h - {t});
  }

  // ---------------------------------------------------------------- runs

  ghost predicate IsRun(states: seq<State>, steps: seq<Step>) {
    && |states| == |steps| + 1 && Init(states[0])
    && forall i :: 0 <= i < |steps| ==> Enabled(states[i], steps[i]) && states[i + 1] == Next(states[i], steps[i])
  }

  /** In every run at most one thread holds the lock. */
  lemma {:induction false} RunExclusive(states: seq<State>, steps: seq<Step>, i: nat)
    requires IsRun(states, steps) && i < |states|
    ensures Inv(states[i]) && |states[i].holder| <= 1
  {
    if i > 0 {
      RunExclusive(states, steps, i - 1);
      assert states[i - 1 + 1] == Next(states[i - 1], steps[i - 1]);
      StepKeepsInv(states[i - 1], steps[i - 1]);
    }
  }

  /**
   In every run: a swap takes the lock exactly if the version is still the one its thread
   has seen, and then nobody held it; a release ends the section; nothing else changes who
   holds the lock or the version.
   */
  lemma RunEffect(states: seq<State>, steps: seq<Step>, i: nat)
    requires IsRun(states, steps) && i < |steps|
    ensures var s, g, t := states[i], states[i + 1], steps[i].t;
      if steps[i].Swap? && t in s.seen && s.seen[t] == s.version then
        s.holder == {} && g.holder == {t} && g.sections == s.sections && IsLocked(g.version)
      else if steps[i].Unlock? then s.holder == {t} && g.holder == {} && g.sections == s.sections + 1 && !IsLocked(g.version)
      else g.holder == s.holder && g.sections == s.sections && g.version == s.version
  {
    var s, g := states[i], states[i + 1];
    assert g == Next(s, steps[i]);
    RunExclusive(states, steps, i);
    StepKeepsInv(s, steps[i]);
    BitIsHolder(s.sections, |s.holder|);
    BitIsHolder(g.sections, |g.holder|);
    if steps[i].Unlock? { OnlyHolder(s.holder, steps[i].t); }
  }

  /** With nobody in between, trying the lock takes it exactly if it is free. */
  lemma TryLockAlone(s: State, t: Thread)
    requires Inv(s) && t !in s.holder && t !in s.seen
    ensures Enabled(s, Load(t)) && var a := Next(s, Load(t));
      if s.holder == {} then Enabled(a, Swap(t)) && Next(a, Swap(t)).holder == {t} else a == s
  {
    BitIsHolder(s.sections, |s.holder|);
    if s.holder != {} {
      assert |s.holder| == 1;
    }
  }

  lemma {:induction false} OnlyGrows(states: seq<State>, steps: seq<Step>, i: nat, j: nat)
    requires IsRun(states, steps) && i <= j < |states|
    ensures Begun(states[i]) <= Begun(states[j]) && states[i].sections <= states[j].sections
  {
    if i < j {
      OnlyGrows(states, steps, i, j - 1);
      RunExclusive(states, steps, j - 1);
      assert states[j - 1 + 1] == Next(states[j - 1], steps[j - 1]);
      StepKeepsInv(states[j - 1], steps[j - 1]);
    }
  }

  /**
   A reader that saw an unlocked version at i finds it unchanged at j exactly if nobody
   holds the lock at j and the sections completed in between are a multiple of 2^30.
   */
  lemma ValidIff(states: seq<State>, steps: seq<Step>, i: nat, j: nat)
    requires IsRun(states, steps) && i <= j < |states| && !IsLocked(states[i].version)
    ensures states[i].sections <= states[j].sections
    ensures states[j].version == states[i].version <==>
      states[j].holder == {} && (states[j].sections - states[i].sections) % PERIOD == 0
  {
    RunExclusive(states, steps, i);
    RunExclusive(states, steps, j);
    OnlyGrows(states, steps, i, j);
    var a, b := states[i], states[j];
    BitIsHolder(a.sections, |a.holder|);
    BitIsHolder(b.sections, |b.holder|);
    SamePeriod(a.sections, b.sections);
    if b.holder == {} && (b.sections - a.sections) % PERIOD == 0 {
      SameVersion(a.sections, b.sections);
    } else if b.holder != {} {
      assert |b.holder| == 1;
    }
  }

  lemma SamePeriod(m: nat, n: nat)
    requires m <= n
    ensures (1 + m) % PERIOD == (1 + n) % PERIOD <==> (n - m) % PERIOD == 0
  {
    var q := (n - m) / PERIOD;
    assert n - m == q * PERIOD + (n - m) % PERIOD;
  }

  lemma SameVersion(m: nat, n: nat)
    requires m <= n && (n - m) % PERIOD == 0
    ensures (FIRST + 2 * STEP * n) % WORD == (FIRST + 2 * STEP * m) % WORD
  {
    var q := (n - m) / PERIOD;
    assert FIRST + 2 * STEP * n == q * WORD + (FIRST + 2 * STEP * m);
  }

  /**
   If fewer than 2^30 write sections complete between a reader's version read and its
   successful validation, no writer held the lock at any time in between.
   */
  lemma ValidationSound(states: seq<State>, steps: seq<Step>, i: nat, j: nat, k: nat)
    requires IsRun(states, steps) && i <= k <= j < |states| && !IsLocked(states[i].version)
    requires states[j].version == states[i].version && states[j].sections - states[i].sections < PERIOD
    ensures states[k].holder == {} && states[k].sections == states[i].sections
  {
    ValidIff(states, steps, i, j);
    RunExclusive(states, steps, i);
    BitIsHolder(states[i].sections, |states[i].holder|);
    OnlyGrows(states, steps, i, k);
    OnlyGrows(states, steps, k, j);
    assert Begun(states[i]) == Begun(states[j]);
  }

  // ---------------------------------------------------------------- the bound is sharp

  lemma Extended(states: seq<State>, steps: seq<Step>, step: Step)
    requires IsRun(states, steps) && Enabled(states[|steps|], step)
    ensures IsRun(states + [Next(states[|steps|], step)], steps + [step])
  {
    var r, q := states + [Next(states[|steps|], step)], steps + [step];
    forall i | 0 <= i < |q| ensures Enabled(r[i], q[i]) && r[i + 1] == Next(r[i], q[i]) {
      assert i < |steps| ==> r[i] == states[i] && r[i + 1] == states[i + 1] && q[i] == steps[i];
    }
  }

  /** One thread can complete any number of sections. */
  lemma {:induction false} SectionsRun(n: nat) returns (states: seq<State>, steps: seq<Step>)
    ensures IsRun(states, steps)
    ensures states[0].version == FIRST && states[|steps|].sections == n && states[|steps|].holder == {}
  {
    if n == 0 {
      states, steps := [State(FIRST, map[], {}, 0)], [];
    } else {
      states, steps := SectionsRun(n - 1);
      RunExclusive(states, steps, |steps|);
      var s := states[|steps|];
      BitIsHolder(s.sections, |s.holder|);
      var a := Next(s, Load(0));
      Extended(states, steps, Load(0));
      states, steps := states + [a], steps + [Load(0)];
      var b := Next(a, Swap(0));
      Extended(states, steps, Swap(0));
      states, steps := states + [b], steps + [Swap(0)];
      assert b.holder == {0};
      Extended(states, steps, Unlock(0));
      states, steps := states + [Next(b, Unlock(0))], steps + [Unlock(0)];
    }
  }

  /** A run in which a reader's version validates although a writer held the lock 2^30 times in between. */
  lemma StaleVersionValidates() returns (states: seq<State>, steps: seq<Step>)
    ensures IsRun(states, steps) && !IsLocked(states[0].version) && states[|steps|].version == states[0].version
    ensures states[|steps|].sections - states[0].sections == PERIOD
  {
    states, steps := SectionsRun(PERIOD);
    ValidIff(states, steps, 0, |steps|);
  }
}
