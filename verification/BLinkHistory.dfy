/**
 What the callers of the B-link tree get, by their own calls: which pair an insert stores,
 what a lookup answers, and that either one, running alone, ends.

 The log of BLinkTree is auxiliary; here it is tied to the Insert steps of the run.
 */
module BLinkHistory {
  import opened BLinkSplit
  import opened BLinkTree
  import opened BLinkRuns
  import opened BLinkSafety
  import opened BLinkContents

  // ---------------------------------------------------------------- the calls of a run

  /** The pair a task was called to insert. */
  function Inserted(steps: seq<Step>, t: nat): Option<Entry>
    decreases |steps|
  {
    if steps == [] then None
    else
      var n := |steps| - 1;
      if steps[n].Insert? && steps[n].t == t then Some(Entry(steps[n].key, steps[n].value)) else Inserted(steps[..n], t)
  }

  /** The key a task was called to look up. */
  function Sought(steps: seq<Step>, t: nat): Option<Key>
    decreases |steps|
  {
    if steps == [] then None
    else
      var n := |steps| - 1;
      if steps[n].Lookup? && steps[n].t == t then Some(steps[n].key) else Sought(steps[..n], t)
  }

  /** What other steps leave of a task: it is as it was, or it moves to another node. */
  predicate Carries(a: Task, b: Task) {
    && (a.Seek? && b.Seek? ==> a.key == b.key && a.value == b.value) && (a.Find? && b.Find? ==> a.key == b.key)
    && (b.Seek? ==> a.Seek?) && (b.Find? ==> a.Find?) && (a.Find? ==> b.Find? || b.Found?) && (a.Found? ==> b == a)
    && (a.Seek? ==> !b.Find? && !b.Found?) && (a.Done? ==> b.Done?) && (a.Post? ==> b.Post? || b.Done?)
  }

  /** No step forgets a task, or changes its kind, its key or its value. */
  lemma StepCarries(s: State, step: Step, t: nat)
    requires Inv(s) && Enabled(s, step) && (step.Execute? ==> Standing(s, s.tasks[step.t])) && t in s.tasks
    ensures t in Next(s, step).tasks && Carries(s.tasks[t], Next(s, step).tasks[t])
  {
    if step.Execute? {
      TaskStays(s, step, t);
    }
  }

  lemma TaskStays(s: State, step: Step, t: nat)
    requires Inv(s) && Enabled(s, step) && step.Execute? && Standing(s, s.tasks[step.t]) && t in s.tasks
    ensures t in Next(s, step).tasks && Carries(s.tasks[t], Next(s, step).tasks[t])
  {
    var h := s.tasks[step.t];
    var n := s.nodes[h.at];
    if h.key < n.high && h.Post? {
      InnerTasks(s, step.t, step.f, step.r);
    } else if h.key < n.high && n.level == 0 && h.Seek? {
      LeafTasks(s, step.t, step.f, step.r);
    }
  }

  /** An insert at its leaf ends, or goes on to post a separator; other tasks are left alone. */
  lemma LeafTasks(s: State, t: nat, f: Id, r: Id)
    requires t in s.tasks && s.tasks[t].Seek? && Standing(s, s.tasks[t]) && s.nodes[s.tasks[t].at].level == 0 && f !in s.nodes
    ensures var h := s.tasks[t]; var g := InsertIntoLeaf(s, t, h.key, h.value, h.at, f, r);
      && t in g.tasks && g.tasks == s.tasks[t := g.tasks[t]]
      && (g.tasks[t].Done? || (g.tasks[t].Post? && g.tasks[t].key == h.key && g.tasks[t].sep == f && f in g.nodes && g.nodes[f].level == 0))
  {
    var h := s.tasks[t];
    var n := s.nodes[h.at];
    var i := LowerBound(n.keys, h.key);
    if !(i < |n.keys| && n.keys[i] == h.key) && |n.keys| >= s.maxItems {
      LeafHalved(s, h.at, h.key, h.value, f);
    }
  }

  lemma InnerTasks(s: State, t: nat, f: Id, r: Id)
    requires t in s.tasks && s.tasks[t].Post? && Standing(s, s.tasks[t]) && f !in s.nodes
    ensures var p := s.tasks[t]; var g := InsertIntoInner(s, t, p.key, p.sepKey, p.sep, p.at, f, r);
      && t in g.tasks && g.tasks == s.tasks[t := g.tasks[t]]
      && (g.tasks[t].Done? || (g.tasks[t].Post? && g.tasks[t].key == p.key && g.tasks[t].sep == f && |g.levels| == |s.levels|
                               && f in g.nodes && g.nodes[f].level == s.nodes[p.at].level))
  {
    var p := s.tasks[t];
    if |s.nodes[p.at].keys| >= s.maxKeys {
      InnerHalvesNodes(s, p.at, p.sepKey, p.sep, f);
    }
  }

  /** In every state of every run, a seeking insert carries the pair it was called with, and a lookup its key. */
  lemma {:induction false} RunTask(states: seq<State>, steps: seq<Step>, i: nat, t: nat)
    requires Run(states, steps) && i < |states| && t in states[i].tasks
    ensures states[i].tasks[t].Seek? ==> Inserted(steps[..i], t) == Some(Entry(states[i].tasks[t].key, states[i].tasks[t].value))
    ensures states[i].tasks[t].Find? ==> Sought(steps[..i], t) == Some(states[i].tasks[t].key)
  {
    if i > 0 {
      var n := i - 1;
      assert steps[..i][..n] == steps[..n] && states[n + 1] == Next(states[n], steps[n]);
      if t in states[n].tasks {
        RunTask(states, steps, n, t);
        RunCorrect(states, steps, n);
        StepCarries(states[n], steps[n], t);
      } else {
        NewTask(states[n], steps[n], t);
      }
    }
  }

  /** Tasks appear only by their calls. */
  lemma NewTask(s: State, step: Step, t: nat)
    requires Enabled(s, step) && (step.Execute? ==> Standing(s, s.tasks[step.t])) && t !in s.tasks && t in Next(s, step).tasks
    ensures step.t == t && (step.Insert? || step.Lookup?)
    ensures step.Insert? ==> Next(s, step).tasks[t] == Seek(step.key, step.value, s.root)
    ensures step.Lookup? ==> Next(s, step).tasks[t] == Find(step.key, s.root)
  {
    if step.Execute? {
      var h := s.tasks[step.t];
      var n := s.nodes[h.at];
      if h.key < n.high && h.Post? {
        InnerTasks(s, step.t, step.f, step.r);
      } else if h.key < n.high && n.level == 0 && h.Seek? {
        LeafTasks(s, step.t, step.f, step.r);
      }
    }
  }

  // ---------------------------------------------------------------- inserts

  /** The pairs of the inserts that have executed on their leaf, as they were called, in that order. */
  ghost function Landed(states: seq<State>, steps: seq<Step>, i: nat): seq<Entry>
    requires i <= |steps| < |states|
  {
    if i == 0 then []
    else
      var n := i - 1;
      Landed(states, steps, n)
      + if LeafTurn(states[n], steps[n]) && Inserted(steps[..n], steps[n].t).Some? then [Inserted(steps[..n], steps[n].t).value] else []
  }

  lemma {:induction false} RunLog(states: seq<State>, steps: seq<Step>, i: nat)
    requires Run(states, steps) && i < |states|
    ensures states[i].log == Landed(states, steps, i)
  {
    if i > 0 {
      var n := i - 1;
      var s, step := states[n], steps[n];
      RunLog(states, steps, n);
      RunCorrect(states, steps, n);
      assert states[n + 1] == Next(s, step);
      if LeafTurn(s, step) {
        RunTask(states, steps, n, step.t);
      } else {
        OtherTurnContents(s, step);
      }
    }
  }

  /** In every state of every run, the tree is the first-insert-wins map of the pairs that inserts were called with, of those that have reached their leaf. */
  lemma RunMap(states: seq<State>, steps: seq<Step>, i: nat)
    requires Run(states, steps) && i < |states|
    ensures Inv(states[i]) && Contents(states[i]) == FirstWins(Landed(states, steps, i))
  {
    RunCorrect(states, steps, i);
    RunLog(states, steps, i);
  }

  /** One step changes the map only if it executes an insert of a new key on its leaf, and then by that pair. */
  lemma StepContents(s: State, step: Step)
    requires Inv(s) && Enabled(s, step)
    ensures (step.Execute? ==> Standing(s, s.tasks[step.t])) && Inv(Next(s, step))
    ensures Contents(Next(s, step)) ==
      if LeafTurn(s, step) && s.tasks[step.t].key !in Contents(s) then Contents(s)[s.tasks[step.t].key := s.tasks[step.t].value] else Contents(s)
  {
    if LeafTurn(s, step) {
      LeafTurnContents(s, step);
      var g, h := Next(s, step), s.tasks[step.t];
      Ordered(s);
      assert h.key in AllKeys(s) <==> h.key in Contents(s);
      if h.key !in AllKeys(s) {
        MapOfGrown(AllKeys(s), AllVals(s), h.key, h.value, AllKeys(g), AllVals(g));
      }
    } else {
      OtherTurnContents(s, step);
    }
  }

  /** In every state of every run, an insert that no longer seeks has its key in the tree. */
  lemma {:induction false} RunInserted(states: seq<State>, steps: seq<Step>, i: nat, t: nat)
    requires Run(states, steps) && i < |states| && Inserted(steps[..i], t).Some?
    ensures Inv(states[i]) && t in states[i].tasks && (states[i].tasks[t].Seek? || Inserted(steps[..i], t).value.key in Contents(states[i]))
    ensures !states[i].tasks[t].Find? && !states[i].tasks[t].Found?
  {
    RunCorrect(states, steps, i);
    if i > 0 {
      var n := i - 1;
      var s, step := states[n], steps[n];
      assert steps[..i][..n] == steps[..n] && states[n + 1] == Next(s, step);
      if !(step.Insert? && step.t == t) {
        RunInserted(states, steps, n, t);
        StepCarries(s, step, t);
        StepContents(s, step);
        if s.tasks[t].Seek? {
          RunTask(states, steps, n, t);
          StopsAtLeaf(s, step, t);
        }
      }
    }
  }

  /** An insert stops seeking only by executing on its leaf. */
  lemma StopsAtLeaf(s: State, step: Step, t: nat)
    requires Inv(s) && Enabled(s, step) && (step.Execute? ==> Standing(s, s.tasks[step.t])) && t in s.tasks && s.tasks[t].Seek?
    ensures t in Next(s, step).tasks && (Next(s, step).tasks[t].Seek? || (LeafTurn(s, step) && step.t == t))
  {
    if step.Execute? {
      var h := s.tasks[step.t];
      var n := s.nodes[h.at];
      if h.key < n.high && h.Post? {
        InnerTasks(s, step.t, step.f, step.r);
      } else if h.key < n.high && n.level == 0 && h.Seek? {
        LeafTasks(s, step.t, step.f, step.r);
      }
    }
  }

  // ---------------------------------------------------------------- lookups

  /**
   In every run, a lookup that executes on its leaf answers for the key it was called with:
   the value the tree holds, or nothing if it holds none, unless it compares with a slot
   never written or past the array.
   */
  lemma RunLookup(states: seq<State>, steps: seq<Step>, i: nat)
    requires Run(states, steps) && i < |steps| && steps[i].Execute? && states[i].tasks[steps[i].t].Find?
    requires var s := states[i]; var h := s.tasks[steps[i].t]; s.nodes[h.at].level == 0 && h.key < s.nodes[h.at].high
    ensures Inv(states[i])
    ensures var s, t := states[i], steps[i].t; var n, k := s.nodes[s.tasks[t].at], s.tasks[t].key;
      && Sought(steps[..i], t) == Some(k) && t in states[i + 1].tasks
      && states[i + 1].tasks[t] == Found(k, if k in Contents(s) then Some(Contents(s)[k]) else if ReadsRaw(n, k) then steps[i].raw else None)
  {
    RunCorrect(states, steps, i);
    assert states[i + 1] == Next(states[i], steps[i]);
    RunTask(states, steps, i, steps[i].t);
    LookupCorrect(states[i], steps[i].t, steps[i].raw);
  }

  // ---------------------------------------------------------------- tasks that run alone

  /** The steps lead from one state to the other. */
  ghost predicate Leads(s: State, steps: seq<Step>, g: State)
    decreases |steps|
  {
    if steps == [] then s == g
    else Enabled(s, steps[0]) && (steps[0].Execute? ==> Standing(s, s.tasks[steps[0].t])) && Leads(Next(s, steps[0]), steps[1..], g)
  }

  lemma LeadsOn(s: State, step: Step, steps: seq<Step>, g: State)
    requires Enabled(s, step) && (step.Execute? ==> Standing(s, s.tasks[step.t])) && Leads(Next(s, step), steps, g)
    ensures Leads(s, [step] + steps, g)
  {
    assert ([step] + steps)[1..] == steps;
  }

  /** All steps execute the one task. */
  predicate Only(steps: seq<Step>, t: nat) {
    forall i :: 0 <= i < |steps| ==> steps[i].Execute? && steps[i].t == t
  }

  /** How many nodes there are from this one to the right end of its level. */
  ghost function Remaining(s: State, at: Id): nat
    requires at in s.nodes && Listed(s.nodes, s.levels, at)
  {
    var o := s.levels[s.nodes[at].level];
    |o| - IndexOf(o, at)
  }

  /** Following a right link brings the end of the level nearer. */
  lemma RightNearer(s: State, at: Id)
    requires Core(s) && at in s.nodes && s.nodes[at].right != NONE
    ensures Listed(s.nodes, s.levels, at)
    ensures var b := s.nodes[at].right;
      && b in s.nodes && Listed(s.nodes, s.levels, b)
      && s.nodes[b].level == s.nodes[at].level && Remaining(s, b) < Remaining(s, at)
  {
    assert NodeOK(s.nodes, s.maxItems, s.maxKeys, at) && Listed(s.nodes, s.levels, at);
    var l, b := s.nodes[at].level, s.nodes[at].right;
    var o := s.levels[l];
    assert LevelOK(s.nodes, o, l) && Listed(s.nodes, s.levels, b);
    var i := IndexOf(o, at);
    assert s.nodes[o[i]].right == NextIn(o, i);
    assert o[i + 1] == b && IndexOf(o, b) == i + 1;
  }

  lemma {:induction false} NatBound(ids: set<nat>) returns (b: nat)
    ensures forall x :: x in ids ==> x < b
  {
    b := 0;
    if ids != {} {
      var x :| x in ids;
      var c := NatBound(ids - {x});
      b := if c <= x then x + 1 else c;
      forall y | y in ids ensures y < b { assert y == x || y in ids - {x}; }
    }
  }

  /** There are always two unused addresses. */
  lemma FreshIds(s: State) returns (f: Id, r: Id)
    ensures f != r && f != NONE && r != NONE && f !in s.nodes && r !in s.nodes
  {
    var b := NatBound(s.nodes.Keys);
    f, r := b + 1, b + 2;
  }

  /** A task short of its leaf, or short of the node that covers its key, moves right or down and changes nothing else. */
  lemma MovesOn(s: State, t: nat, f: Id, r: Id, raw: Option<Value>)
    requires Inv(s) && t in s.tasks && Standing(s, s.tasks[t]) && Enabled(s, Execute(t, f, r, raw))
    requires var h := s.tasks[t]; s.nodes[h.at].high <= h.key || (!h.Post? && s.nodes[h.at].level > 0)
    ensures var g, h := Next(s, Execute(t, f, r, raw)), s.tasks[t];
      && t in g.tasks && (g.tasks[t].Seek? || g.tasks[t].Find? || g.tasks[t].Post?) && g.tasks[t] == Moved(h, g.tasks[t].at)
      && g == s.(tasks := s.tasks[t := g.tasks[t]]) && Inv(g)
    ensures var to, h := Next(s, Execute(t, f, r, raw)).tasks[t].at, s.tasks[t];
      && to in s.nodes && Listed(s.nodes, s.levels, h.at) && Listed(s.nodes, s.levels, to)
      && (if s.nodes[h.at].high <= h.key then s.nodes[to].level == s.nodes[h.at].level && Remaining(s, to) < Remaining(s, h.at)
          else s.nodes[to].level + 1 == s.nodes[h.at].level)
  {
    var h := s.tasks[t];
    StepKeepsInv(s, Execute(t, f, r, raw));
    assert TaskOK(s.nodes, h) && NodeOK(s.nodes, s.maxItems, s.maxKeys, h.at);
    if s.nodes[h.at].high <= h.key {
      RightNearer(s, h.at);
    } else {
      var n := s.nodes[h.at];
      var c := Route(n.keys, n.seps, h.key);
      assert c in n.seps;
      assert Listed(s.nodes, s.levels, c);
    }
  }

  /** One execution of a lookup: it is nearer to its leaf, or it has its answer. */
  lemma LookupTurn(s: State, t: nat, f: Id, r: Id, raw: Option<Value>)
    requires Inv(s) && t in s.tasks && s.tasks[t].Find? && Enabled(s, Execute(t, f, r, raw))
    ensures Standing(s, s.tasks[t]) && Listed(s.nodes, s.levels, s.tasks[t].at)
    ensures var m, k := Next(s, Execute(t, f, r, raw)), s.tasks[t].key;
      && Inv(m) && t in m.tasks && m == s.(tasks := s.tasks[t := m.tasks[t]])
      && (if m.tasks[t].Find? then m.tasks[t].key == k else m.tasks[t].Found? && Answers(s, k, m.tasks[t], raw))
    ensures var m := Next(s, Execute(t, f, r, raw));
      m.tasks[t].Find? ==>
        && m.tasks[t].at in s.nodes && Listed(s.nodes, s.levels, m.tasks[t].at)
        && var l, l' := s.nodes[s.tasks[t].at].level, s.nodes[m.tasks[t].at].level;
           l' < l || (l' == l && Remaining(s, m.tasks[t].at) < Remaining(s, s.tasks[t].at))
  {
    TaskStanding(s, t);
    var h := s.tasks[t];
    if s.nodes[h.at].high <= h.key || s.nodes[h.at].level > 0 {
      MovesOn(s, t, f, r, raw);
    } else {
      StepKeepsInv(s, Execute(t, f, r, raw));
      LookupCorrect(s, t, raw);
    }
  }

  /** The answer of a lookup is what the tree holds; `raw` is what a slot never written, or past an array, would give. */
  ghost predicate Answers(s: State, k: Key, h: Task, raw: Option<Value>)
    requires Core(s)
  {
    h.Found? && h.key == k && (if k in Contents(s) then h.result == Some(Contents(s)[k]) else h.result == None || h.result == raw)
  }

  lemma SameTree(s: State, m: State)
    requires Core(s) && m == s.(tasks := m.tasks)
    ensures Core(m) && Contents(m) == Contents(s)
  {
  }

  /**
   A lookup that runs alone from any reachable state ends, with the tree untouched and the
   answer that the tree holds.
   */
  lemma {:induction false} LookupEnds(s: State, t: nat, raw: Option<Value>) returns (steps: seq<Step>, g: State)
    requires Inv(s) && t in s.tasks && s.tasks[t].Find?
    ensures Leads(s, steps, g) && Only(steps, t) && t in g.tasks && g == s.(tasks := s.tasks[t := g.tasks[t]])
    ensures Answers(s, s.tasks[t].key, g.tasks[t], raw)
    decreases s.nodes[s.tasks[t].at].level, Remaining(s, s.tasks[t].at)
  {
    var f, r := FreshIds(s);
    var step := Execute(t, f, r, raw);
    LookupTurn(s, t, f, r, raw);
    var m := Next(s, step);
    steps, g := [], m;
    if m.tasks[t].Find? {
      steps, g := LookupEnds(m, t, raw);
      SameTree(s, m);
    }
    LeadsOn(s, step, steps, g);
    steps := [step] + steps;
  }

  /** One execution of a posting task: it ends, or it is nearer to the end of its level, or a level up. */
  lemma PostTurn(s: State, t: nat, f: Id, r: Id)
    requires Inv(s) && t in s.tasks && s.tasks[t].Post? && Enabled(s, Execute(t, f, r, None))
    ensures Standing(s, s.tasks[t]) && Listed(s.nodes, s.levels, s.tasks[t].at)
    ensures var m := Next(s, Execute(t, f, r, None));
      && Inv(m) && Contents(m) == Contents(s) && t in m.tasks && m.tasks == s.tasks[t := m.tasks[t]] && (m.tasks[t].Done? || m.tasks[t].Post?)
    ensures var m := Next(s, Execute(t, f, r, None));
      m.tasks[t].Post? ==>
        && m.tasks[t].at in m.nodes && Listed(m.nodes, m.levels, m.tasks[t].at) && |m.levels| == |s.levels|
        && var l, l' := s.nodes[s.tasks[t].at].level, m.nodes[m.tasks[t].at].level;
           l' > l || (l' == l && Remaining(m, m.tasks[t].at) < Remaining(s, s.tasks[t].at))
  {
    TaskStanding(s, t);
    var h, m := s.tasks[t], Next(s, Execute(t, f, r, None));
    StepContents(s, Execute(t, f, r, None));
    if s.nodes[h.at].high <= h.key {
      MovesOn(s, t, f, r, None);
    } else {
      InnerTasks(s, t, f, r);
      if m.tasks[t].Post? { Ascends(s, m, t, f); }
    }
  }

  /** A separator being posted, running alone, ends up in a node. */
  lemma {:induction false} PostEnds(s: State, t: nat) returns (steps: seq<Step>, g: State)
    requires Inv(s) && t in s.tasks && s.tasks[t].Post?
    ensures Leads(s, steps, g) && Only(steps, t) && Inv(g) && t in g.tasks && g.tasks == s.tasks[t := Done] && Contents(g) == Contents(s)
    decreases |s.levels| - s.nodes[s.tasks[t].at].level, Remaining(s, s.tasks[t].at)
  {
    var f, r := FreshIds(s);
    var step := Execute(t, f, r, None);
    PostTurn(s, t, f, r);
    var m := Next(s, step);
    steps, g := [], m;
    if m.tasks[t].Post? { steps, g := PostEnds(m, t); }
    LeadsOn(s, step, steps, g);
    steps := [step] + steps;
  }

  /** A posted separator's node is one level up. */
  lemma Ascends(s: State, m: State, t: nat, f: Id)
    requires Inv(m) && t in m.tasks && m.tasks[t].Post? && m.tasks[t].sep == f && f in m.nodes && |m.levels| == |s.levels|
    ensures m.tasks[t].at in m.nodes && m.nodes[m.tasks[t].at].level == m.nodes[f].level + 1
    ensures Listed(m.nodes, m.levels, m.tasks[t].at)
  {
    assert TaskOK(m.nodes, m.tasks[t]);
    assert Listed(m.nodes, m.levels, m.tasks[t].at);
  }

  /** One execution of a seeking insert: it is nearer to its leaf, or it has put its pair into it. */
  lemma InsertTurn(s: State, t: nat, f: Id, r: Id)
    requires Inv(s) && t in s.tasks && s.tasks[t].Seek? && Enabled(s, Execute(t, f, r, None))
    ensures Standing(s, s.tasks[t]) && Listed(s.nodes, s.levels, s.tasks[t].at)
    ensures var m, k, v := Next(s, Execute(t, f, r, None)), s.tasks[t].key, s.tasks[t].value;
      && Inv(m) && t in m.tasks && m.tasks == s.tasks[t := m.tasks[t]]
      && (if m.tasks[t].Seek? then m.tasks[t].key == k && m.tasks[t].value == v && Contents(m) == Contents(s)
          else (m.tasks[t].Done? || m.tasks[t].Post?) && Contents(m) == if k in Contents(s) then Contents(s) else Contents(s)[k := v])
    ensures var m := Next(s, Execute(t, f, r, None));
      m.tasks[t].Seek? ==>
        && m.tasks[t].at in m.nodes && Listed(m.nodes, m.levels, m.tasks[t].at)
        && var l, l' := s.nodes[s.tasks[t].at].level, m.nodes[m.tasks[t].at].level;
           l' < l || (l' == l && Remaining(m, m.tasks[t].at) < Remaining(s, s.tasks[t].at))
  {
    TaskStanding(s, t);
    var h := s.tasks[t];
    StepContents(s, Execute(t, f, r, None));
    if s.nodes[h.at].high <= h.key || s.nodes[h.at].level > 0 {
      MovesOn(s, t, f, r, None);
    } else {
      LeafTasks(s, t, f, r);
    }
  }

  lemma {:induction false} LeadsConcat(s: State, a: seq<Step>, m: State, b: seq<Step>, g: State)
    requires Leads(s, a, m) && Leads(m, b, g)
    ensures Leads(s, a + b, g)
    decreases |a|
  {
    if a == [] {
      assert a + b == b;
    } else {
      LeadsConcat(Next(s, a[0]), a[1..], m, b, g);
      assert (a + b)[1..] == a[1..] + b;
    }
  }

  /** The map with a pair added, unless its key is there. */
  function Added(m: map<Key, Value>, k: Key, v: Value): map<Key, Value> {
    if k in m then m else m[k := v]
  }

  /** The steps of one task lead to a state in which it is not seeking any more, and the map has its pair. */
  ghost predicate Lands(s: State, steps: seq<Step>, g: State, t: nat) {
    && t in s.tasks && s.tasks[t].Seek? && Core(s) && Leads(s, steps, g) && Only(steps, t) && Inv(g) && t in g.tasks
    && g.tasks == s.tasks[t := g.tasks[t]] && (g.tasks[t].Done? || g.tasks[t].Post?)
    && Contents(g) == Added(Contents(s), s.tasks[t].key, s.tasks[t].value)
  }

  lemma LandsOn(s: State, step: Step, m: State, steps: seq<Step>, g: State, t: nat)
    requires Enabled(s, step) && step.Execute? && step.t == t && Standing(s, s.tasks[t]) && m == Next(s, step) && Core(s)
    requires s.tasks[t].Seek? && Lands(m, steps, g, t) && m.tasks == s.tasks[t := m.tasks[t]] && Contents(m) == Contents(s)
    requires m.tasks[t].key == s.tasks[t].key && m.tasks[t].value == s.tasks[t].value
    ensures Lands(s, [step] + steps, g, t)
  {
    LeadsOn(s, step, steps, g);
  }

  /** A seeking insert, running alone, puts its pair into its leaf. */
  lemma {:induction false} SeekEnds(s: State, t: nat) returns (steps: seq<Step>, g: State)
    requires Inv(s) && t in s.tasks && s.tasks[t].Seek?
    ensures Lands(s, steps, g, t)
    decreases s.nodes[s.tasks[t].at].level, Remaining(s, s.tasks[t].at)
  {
    var f, r := FreshIds(s);
    var step := Execute(t, f, r, None);
    InsertTurn(s, t, f, r);
    var m := Next(s, step);
    if m.tasks[t].Seek? {
      steps, g := SeekEnds(m, t);
      LandsOn(s, step, m, steps, g, t);
      steps := [step] + steps;
    } else {
      g := m;
      LeadsOn(s, step, [], g);
      steps := [step] + [];
    }
  }

  /**
   An insert that runs alone from any reachable state, whatever other tasks have left undone,
   ends, with its pair in the tree unless the key was there, and nothing else changed in the map.
   */
  lemma InsertEnds(s: State, t: nat) returns (steps: seq<Step>, g: State)
    requires Inv(s) && t in s.tasks && s.tasks[t].Seek?
    ensures Lands(s, steps, g, t) && g.tasks[t].Done?
  {
    steps, g := SeekEnds(s, t);
    if g.tasks[t].Post? { steps, g := PostsOn(s, steps, g, t); }
  }

  /** A call to insert any key below the largest, running alone, ends with the pair in the tree unless the key was there. */
  lemma InsertCall(s: State, t: nat, k: Key, v: Value) returns (steps: seq<Step>, g: State)
    requires Inv(s) && t !in s.tasks && 0 <= k < MAX
    ensures Leads(s, steps, g) && steps != [] && steps[0] == Insert(t, k, v) && Only(steps[1..], t)
    ensures Inv(g) && g.tasks == s.tasks[t := Done] && Contents(g) == Added(Contents(s), k, v)
  {
    var m := Next(s, Insert(t, k, v));
    StartKeeps(s, Insert(t, k, v));
    SameTree(s, m);
    steps, g := InsertEnds(m, t);
    LeadsOn(s, Insert(t, k, v), steps, g);
    assert ([Insert(t, k, v)] + steps)[1..] == steps;
    steps := [Insert(t, k, v)] + steps;
  }

  /** A call to look up any key below the largest, running alone, ends with the answer that the tree holds. */
  lemma LookupCall(s: State, t: nat, k: Key, raw: Option<Value>) returns (steps: seq<Step>, g: State)
    requires Inv(s) && t !in s.tasks && 0 <= k < MAX
    ensures Leads(s, steps, g) && steps != [] && steps[0] == Lookup(t, k) && Only(steps[1..], t)
    ensures t in g.tasks && g == s.(tasks := s.tasks[t := g.tasks[t]]) && Answers(s, k, g.tasks[t], raw)
  {
    var m := Next(s, Lookup(t, k));
    StartKeeps(s, Lookup(t, k));
    SameTree(s, m);
    steps, g := LookupEnds(m, t, raw);
    LeadsOn(s, Lookup(t, k), steps, g);
    assert ([Lookup(t, k)] + steps)[1..] == steps;
    steps := [Lookup(t, k)] + steps;
  }

  lemma PostsOn(s: State, a: seq<Step>, m: State, t: nat) returns (steps: seq<Step>, g: State)
    requires Lands(s, a, m, t) && m.tasks[t].Post?
    ensures Lands(s, steps, g, t) && g.tasks[t].Done?
  {
    var b;
    b, g := PostEnds(m, t);
    LeadsConcat(s, a, m, b, g);
    steps := a + b;
  }
}
