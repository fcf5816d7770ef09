/**
 What a reader of the Masstree leaf list sees by following next pointers, marks ignored,
 in every state of every run.

 `list` changes at the last store of each operation. While a leaf is being linked, leaves
 behind it can be unlinked completely; readers then still pass through those leaves, until
 the last store of the pending link. In every state a walk ends and visits the leaves of
 `list` in order.
 */
module LeafLinkReaders {
  import opened LeafLink

  // ---------------------------------------------------------------- invariant

  /** The leaf is being added by an operation whose last store is still to come. */
  ghost predicate Pending(s: State, x: Id) {
    exists u :: u in s.ops && s.ops[u].SplitFinish? && s.ops[u].nr == x
  }

  /** A leaf is being added behind x. */
  ghost predicate Linking(s: State, x: Id) {
    exists u :: u in s.ops && s.ops[u].SplitFinish? && s.ops[u].n == x
  }

  /** Next pointers lead from one leaf to another through these leaves, which have been unlinked. */
  predicate Detour(s: State, from: Id, to: Id, q: seq<Id>) {
    && from == (if q == [] then to else q[0])
    && (forall i :: 0 <= i < |q| ==> q[i] in s.dead && q[i] !in s.list && q[i] in s.next && s.next[q[i]].id == Hop(q, i, to))
  }

  function Hop(q: seq<Id>, i: nat, to: Id): Id {
    if i + 1 < |q| then q[i + 1] else to
  }

  /** A leaf of the list leads to the next one, unless a leaf is being added behind it. */
  ghost predicate EdgeSeen(s: State, x: Id) {
    x in s.next && (s.next[x].id == Succ(s.list, x) || Linking(s, x))
  }

  /** The leaf being added leads to the rest of the list; the leaf before it gets there through unlinked leaves. */
  ghost predicate LinkOK(s: State, op: Op) {
    op.SplitFinish? ==>
      && op.n in s.list && op.nr in s.next && s.next[op.nr].id == Succ(s.list, op.n)
      && exists q :: Detour(s, op.next, Succ(s.list, op.n), q)
  }

  ghost predicate Readers(s: State) {
    && s.list != [] && s.list[0] == s.first && Distinct(s.list) && NONE !in s.list
    && (forall x {:trigger EdgeSeen(s, x)} :: x in s.list ==> EdgeSeen(s, x))
    && (forall u {:trigger LinkOK(s, s.ops[u])} :: u in s.ops ==> LinkOK(s, s.ops[u]))
    && (forall x :: x in s.back ==> x in s.list || Pending(s, x))
  }

  // ---------------------------------------------------------------- lists

  /** An element has one predecessor. */
  lemma {:induction false} OnePred(o: seq<Id>, a: Id, b: Id)
    requires Distinct(o) && NONE !in o && Succ(o, a) == Succ(o, b) != NONE
    ensures a == b
  {
    SuccIn(o, a);
    SuccIn(o, b);
    if o[0] != a && o[0] != b {
      OnePred(o[1..], a, b);
    } else if o[0] == a && o[0] != b {
      SuccIn(o[1..], b);
    } else if o[0] == b && o[0] != a {
      SuccIn(o[1..], a);
    }
  }

  // ---------------------------------------------------------------- steps that are nobody's last store

  /** A leaf an operation works on and that prev pointers know is in the list. */
  lemma WorksOnList(s: State, t: nat)
    requires Inv(s) && Readers(s) && t in s.ops && s.ops[t].n in s.back
    ensures s.ops[t].n in s.list
  {
    assert OpOK(s, s.ops[t]);
    forall u | u in s.ops && s.ops[u].SplitFinish? ensures s.ops[u].nr != s.ops[t].n {
      assert u == t || Apart(s.ops[u], s.ops[t]);
    }
  }

  /** An operation that has not reached its last store works on a leaf that leads to the next one. */
  lemma LeadsOn(s: State, t: nat)
    requires Inv(s) && Readers(s) && t in s.ops && s.ops[t].n in s.list && !s.ops[t].SplitFinish?
    ensures s.ops[t].n in s.next && s.next[s.ops[t].n].id == Succ(s.list, s.ops[t].n)
  {
    assert EdgeSeen(s, s.ops[t].n);
    forall u | u in s.ops && s.ops[u].SplitFinish? ensures s.ops[u].n != s.ops[t].n {
      assert Apart(s.ops[u], s.ops[t]);
    }
  }

  lemma DetourKept(s: State, g: State, from: Id, to: Id, q: seq<Id>)
    requires Detour(s, from, to, q) && (forall x :: x in s.dead ==> x in g.dead)
    requires forall x :: x in s.dead && x in s.next ==> x in g.next && g.next[x].id == s.next[x].id && (x in g.list ==> x in s.list)
    ensures Detour(g, from, to, q)
  {
  }

  predicate LastStore(s: State, step: Step) {
    step.Run? && step.t in s.ops && (s.ops[step.t].SplitFinish? || s.ops[step.t].UnlinkFinish?)
  }

  lemma DeadGrows(s: State, step: Step)
    requires Enabled(s, step)
    ensures forall x :: x in s.dead ==> x in Next(s, step).dead
  {
  }

  /** Unlinked leaves keep their next pointers. */
  lemma DeadKeepNext(s: State, step: Step, x: Id)
    requires Inv(s) && Enabled(s, step) && x in s.dead
    ensures x in s.next && x in Next(s, step).next && Next(s, step).next[x].id == s.next[x].id
  {
    if step.Run? { assert OpOK(s, s.ops[step.t]); }
  }

  lemma LinkKept(s: State, step: Step, u: nat)
    requires Inv(s) && Readers(s) && Enabled(s, step) && !LastStore(s, step) && u in s.ops && u != step.t
    ensures LinkOK(Next(s, step), s.ops[u])
  {
    var w, g := s.ops[u], Next(s, step);
    assert LinkOK(s, w) && OpOK(s, w);
    if w.SplitFinish? {
      SameIds(s, step);
      if step.Run? { assert Apart(w, s.ops[step.t]); }
      var q :| Detour(s, w.next, Succ(s.list, w.n), q);
      forall x | x in s.dead ensures x in g.next && g.next[x].id == s.next[x].id { DeadKeepNext(s, step, x); }
      DeadGrows(s, step);
      DetourKept(s, g, w.next, Succ(s.list, w.n), q);
    }
  }

  /** An operation that comes to its last store finds the list as it left it. */
  lemma LinkBegins(s: State, step: Step)
    requires Inv(s) && Readers(s) && Enabled(s, step) && !LastStore(s, step)
    ensures step.t in Next(s, step).ops && LinkOK(Next(s, step), Next(s, step).ops[step.t])
  {
    var g, t := Next(s, step), step.t;
    Moves(s, step);
    if g.ops[t].SplitFinish? {
      SameIds(s, step);
      assert OpOK(s, s.ops[t]);
      WorksOnList(s, t);
      LeadsOn(s, t);
      assert Detour(g, g.ops[t].next, Succ(g.list, g.ops[t].n), []);
    }
  }

  lemma EdgesKept(s: State, step: Step, x: Id)
    requires Inv(s) && Readers(s) && Enabled(s, step) && !LastStore(s, step) && x in s.list
    ensures EdgeSeen(Next(s, step), x)
  {
    var g := Next(s, step);
    assert EdgeSeen(s, x);
    SameIds(s, step);
    Moves(s, step);
    if step.Run? { assert OpOK(s, s.ops[step.t]); }
    if Linking(s, x) {
      var u :| u in s.ops && s.ops[u].SplitFinish? && s.ops[u].n == x;
      assert u in g.ops && g.ops[u] == s.ops[u];
    }
  }

  lemma BackKept(s: State, step: Step, x: Id)
    requires Inv(s) && Readers(s) && Enabled(s, step) && !LastStore(s, step) && x in Next(s, step).back
    ensures x in s.list || Pending(Next(s, step), x)
  {
    var g := Next(s, step);
    Moves(s, step);
    if x in s.back && x !in s.list {
      var u :| u in s.ops && s.ops[u].SplitFinish? && s.ops[u].nr == x;
      assert u in g.ops && g.ops[u] == s.ops[u];
    }
  }

  lemma OtherStepKeeps(s: State, step: Step)
    requires Inv(s) && Readers(s) && Enabled(s, step) && !LastStore(s, step)
    ensures Readers(Next(s, step)) && Next(s, step).list == s.list
  {
    var g := Next(s, step);
    Moves(s, step);
    SameIds(s, step);
    forall x | x in g.list ensures EdgeSeen(g, x) { EdgesKept(s, step, x); }
    forall x | x in g.back ensures x in g.list || Pending(g, x) { BackKept(s, step, x); }
    forall u | u in g.ops ensures LinkOK(g, g.ops[u]) {
      if u != step.t { LinkKept(s, step, u); } else { LinkBegins(s, step); }
    }
  }

  // ---------------------------------------------------------------- the last store of a link

  lemma LinkedDetour(s: State, t: nat, u: nat, q: seq<Id>)
    requires Inv(s) && Readers(s) && t in s.ops && s.ops[t].SplitFinish? && Reads(s, s.ops[t])
    requires u in s.ops && u != t && s.ops[u].SplitFinish? && Detour(s, s.ops[u].next, Succ(s.list, s.ops[u].n), q)
    ensures u in Exec(s, t).ops && Detour(Exec(s, t), s.ops[u].next, Succ(Exec(s, t).list, s.ops[u].n), q)
  {
    var op, w, g := s.ops[t], s.ops[u], Exec(s, t);
    assert OpOK(s, op) && LinkOK(s, op) && LinkOK(s, w) && Apart(w, op) && Apart(op, w);
    InsertIn(s.list, op.n, op.nr);
    SuccInsert(s.list, op.n, op.nr, w.n);
    forall x | x in s.dead ensures x in g.next && g.next[x].id == s.next[x].id { DeadKeepNext(s, Run(t), x); }
    DetourKept(s, g, w.next, Succ(s.list, w.n), q);
  }

  lemma LinkedOther(s: State, t: nat, u: nat)
    requires Inv(s) && Readers(s) && t in s.ops && s.ops[t].SplitFinish? && Reads(s, s.ops[t]) && u in s.ops && u != t
    ensures LinkOK(Exec(s, t), s.ops[u])
  {
    var op, w := s.ops[t], s.ops[u];
    assert OpOK(s, op) && LinkOK(s, op) && LinkOK(s, w) && Apart(w, op) && Apart(op, w);
    if w.SplitFinish? {
      InsertIn(s.list, op.n, op.nr);
      SuccInsert(s.list, op.n, op.nr, w.n);
      var q :| Detour(s, w.next, Succ(s.list, w.n), q);
      LinkedDetour(s, t, u, q);
    }
  }

  lemma LinkKeeps(s: State, t: nat)
    requires Inv(s) && Readers(s) && t in s.ops && s.ops[t].SplitFinish? && Reads(s, s.ops[t])
    ensures Readers(Exec(s, t))
  {
    var op, g := s.ops[t], Exec(s, t);
    assert OpOK(s, op) && LinkOK(s, op);
    InsertIn(s.list, op.n, op.nr);
    if op.next == NONE { InsertIn(s.back, op.n, op.nr); }
    forall x | x in g.list ensures EdgeSeen(g, x) {
      SuccInsert(s.list, op.n, op.nr, x);
      if x != op.n && x != op.nr {
        assert EdgeSeen(s, x);
        if Linking(s, x) {
          var u :| u in s.ops && s.ops[u].SplitFinish? && s.ops[u].n == x;
          assert u in g.ops;
        }
      }
    }
    forall u | u in g.ops ensures LinkOK(g, g.ops[u]) { LinkedOther(s, t, u); }
    forall x | x in g.back ensures x in g.list || Pending(g, x) {
      if x != op.nr && x !in s.list {
        var u :| u in s.ops && s.ops[u].SplitFinish? && s.ops[u].nr == x;
        assert u in g.ops;
      }
    }
  }

  // ---------------------------------------------------------------- the last store of an unlink

  /** The leaf before an unlinked one in the list: its predecessor, or the leaf behind which that one is being added. */
  lemma BeforeUnlinked(s: State, t: nat) returns (a: Id, u: nat)
    requires Inv(s) && Readers(s) && t in s.ops && s.ops[t].UnlinkFinish?
    ensures var op := s.ops[t];
      && op.n in s.list && op.n in s.next && s.next[op.n].id == op.next == Succ(s.list, op.n)
      && a in s.list && Succ(s.list, a) == op.n
      && (if Pending(s, op.prev) then u in s.ops && s.ops[u].SplitFinish? && s.ops[u].nr == op.prev && s.ops[u].n == a && op.prev !in s.list
          else a == op.prev)
  {
    var op := s.ops[t];
    assert OpOK(s, op) && Holds(op, op.prev);
    a, u := op.prev, t;
    if Pending(s, op.prev) {
      u :| u in s.ops && s.ops[u].SplitFinish? && s.ops[u].nr == op.prev;
      assert LinkOK(s, s.ops[u]) && OpOK(s, s.ops[u]);
      a := s.ops[u].n;
    } else {
      assert EdgeSeen(s, op.prev);
      forall w | w in s.ops && s.ops[w].SplitFinish? ensures s.ops[w].n != op.prev {
        assert Apart(s.ops[w], op) && Holds(s.ops[w], s.ops[w].n);
      }
    }
    SuccIn(s.list, a);
    LeadsOn(s, t);
  }

  lemma DetourLonger(s: State, g: State, from: Id, n: Id, y: Id, q: seq<Id>)
    requires Detour(s, from, n, q) && n in s.dead && n in s.next && s.next[n].id == y && n !in g.list && g.dead == s.dead
    requires forall x :: x in s.dead && x in s.next ==> x in g.next && g.next[x].id == s.next[x].id && (x in g.list ==> x in s.list)
    ensures Detour(g, from, y, q + [n])
  {
    var r := q + [n];
    forall i | 0 <= i < |r|
      ensures r[i] in g.dead && r[i] !in g.list && r[i] in g.next && g.next[r[i]].id == Hop(r, i, y)
    {
      assert i < |q| ==> r[i] == q[i] && Hop(r, i, y) == Hop(q, i, n);
    }
  }

  lemma UnlinkedDetour(s: State, t: nat, w: nat, q: seq<Id>) returns (r: seq<Id>)
    requires Inv(s) && Readers(s) && t in s.ops && s.ops[t].UnlinkFinish? && Reads(s, s.ops[t])
    requires w in s.ops && s.ops[w].SplitFinish? && Detour(s, s.ops[w].next, Succ(s.list, s.ops[w].n), q)
    ensures q <= r && (!Pending(s, s.ops[t].prev) ==> r == q) && w in Exec(s, t).ops && Detour(Exec(s, t), s.ops[w].next, Succ(Exec(s, t).list, s.ops[w].n), r)
  {
    var op, v, g := s.ops[t], s.ops[w], Exec(s, t);
    var a, u := BeforeUnlinked(s, t);
    assert OpOK(s, op) && LinkOK(s, v) && Apart(v, op) && Holds(v, v.n) && Holds(op, op.prev);
    RemoveIn(s.list, op.n);
    SuccRemove(s.list, a, op.n, v.n);
    forall x | x in s.dead ensures x in g.next && g.next[x].id == s.next[x].id { DeadKeepNext(s, Run(t), x); }
    r := q;
    if v.n == a {
      r := q + [op.n];
      DetourLonger(s, g, v.next, op.n, op.next, q);
    } else {
      DetourKept(s, g, v.next, Succ(s.list, v.n), q);
    }
  }

  lemma UnlinkedOther(s: State, t: nat, a: Id, u: nat, w: nat)
    requires Inv(s) && Readers(s) && t in s.ops && s.ops[t].UnlinkFinish? && Reads(s, s.ops[t]) && w in s.ops && w != t
    requires s.ops[t].n in s.list && Succ(s.list, a) == s.ops[t].n && s.ops[t].next == Succ(s.list, s.ops[t].n)
    requires if Pending(s, s.ops[t].prev) then u in s.ops && s.ops[u].SplitFinish? && s.ops[u].nr == s.ops[t].prev && s.ops[u].n == a
             else a == s.ops[t].prev
    ensures LinkOK(Exec(s, t), s.ops[w])
  {
    var op, v := s.ops[t], s.ops[w];
    assert OpOK(s, op) && LinkOK(s, v) && Apart(v, op) && Holds(op, op.prev);
    if v.SplitFinish? {
      assert Holds(v, v.n) && Pending(s, v.nr);
      RemoveIn(s.list, op.n);
      SuccRemove(s.list, a, op.n, v.n);
      assert u !in s.ops || u == w || Apart(s.ops[u], v);
      var q :| Detour(s, v.next, Succ(s.list, v.n), q);
      var r := UnlinkedDetour(s, t, w, q);
    }
  }

  lemma UnlinkedEdge(s: State, t: nat, a: Id, u: nat, x: Id)
    requires Inv(s) && Readers(s) && t in s.ops && s.ops[t].UnlinkFinish? && Reads(s, s.ops[t]) && x in s.list && x != s.ops[t].n
    requires Succ(s.list, a) == s.ops[t].n && s.ops[t].next == Succ(s.list, s.ops[t].n)
    requires if Pending(s, s.ops[t].prev)
             then u in s.ops && s.ops[u].SplitFinish? && s.ops[u].n == a && s.ops[t].prev !in s.list else a == s.ops[t].prev
    ensures EdgeSeen(Exec(s, t), x)
  {
    var op, g := s.ops[t], Exec(s, t);
    assert OpOK(s, op) && EdgeSeen(s, x);
    SuccRemove(s.list, a, op.n, x);
    if x == a && Pending(s, op.prev) {
      assert u in g.ops && g.ops[u].n == x;
    } else if x != a && Linking(s, x) {
      var w :| w in s.ops && s.ops[w].SplitFinish? && s.ops[w].n == x;
      assert w in g.ops;
    }
  }

  lemma UnlinkKeeps(s: State, t: nat)
    requires Inv(s) && Readers(s) && t in s.ops && s.ops[t].UnlinkFinish? && Reads(s, s.ops[t])
    ensures Readers(Exec(s, t)) && s.ops[t].n in s.list && s.ops[t].n !in Exec(s, t).list
  {
    var op, g := s.ops[t], Exec(s, t);
    var a, u := BeforeUnlinked(s, t);
    assert OpOK(s, op);
    RemoveIn(s.list, op.n);
    forall x | x in g.list ensures EdgeSeen(g, x) { UnlinkedEdge(s, t, a, u, x); }
    forall w | w in g.ops ensures LinkOK(g, g.ops[w]) { UnlinkedOther(s, t, a, u, w); }
    forall x | x in g.back ensures x in g.list || Pending(g, x) {
      if x !in s.list {
        var w :| w in s.ops && s.ops[w].SplitFinish? && s.ops[w].nr == x;
        assert w in g.ops;
      }
    }
  }

  // ---------------------------------------------------------------- every run

  /** Every step of every interleaving keeps it. */
  lemma StepKeepsReaders(s: State, step: Step)
    requires Inv(s) && Readers(s) && Enabled(s, step)
    ensures Readers(Next(s, step))
  {
    if !LastStore(s, step) { OtherStepKeeps(s, step); }
    else if s.ops[step.t].SplitFinish? { LinkKeeps(s, step.t); }
    else { UnlinkKeeps(s, step.t); }
  }

  lemma InitReaders(s: State)
    requires Init(s)
    ensures Readers(s)
  {
    assert s.list[1..] == [];
    forall x | x in s.list ensures EdgeSeen(s, x) { assert x == s.first; }
  }

  lemma {:induction false} RunReaders(states: seq<State>, steps: seq<Step>, i: nat)
    requires IsRun(states, steps) && i < |states|
    ensures Inv(states[i]) && Readers(states[i])
  {
    RunInv(states, steps, i);
    if i == 0 {
      InitReaders(states[0]);
    } else {
      RunReaders(states, steps, i - 1);
      assert states[i - 1 + 1] == Next(states[i - 1], steps[i - 1]);
      StepKeepsReaders(states[i - 1], steps[i - 1]);
    }
  }

  // ---------------------------------------------------------------- what readers see

  /** No leaf has been unlinked behind the leaf that this operation is adding. */
  predicate Undisturbed(s: State, op: Op) {
    op.SplitFinish? && op.nr in s.next ==> s.next[op.nr].id == op.next
  }

  /**
   In every state of every run, readers see exactly the list that changes at each
   operation's last store if and only if no pending link has been overtaken by an unlink.
   */
  lemma SeeListIff(s: State)
    requires Inv(s) && Readers(s)
    ensures ReadersSee(s, s.list) <==> forall u :: u in s.ops ==> Undisturbed(s, s.ops[u])
  {
    forall u | u in s.ops && s.ops[u].SplitFinish?
      ensures s.ops[u].nr in s.next && s.ops[u].n in s.list && s.ops[u].n in s.next
      ensures Undisturbed(s, s.ops[u]) <==> s.next[s.ops[u].n].id == Succ(s.list, s.ops[u].n)
    {
      assert LinkOK(s, s.ops[u]) && OpOK(s, s.ops[u]);
    }
    forall x | x in s.list ensures x in s.next && (s.next[x].id == Succ(s.list, x) || Linking(s, x)) {
      assert EdgeSeen(s, x);
    }
  }

  lemma RunSeesListIff(states: seq<State>, steps: seq<Step>, i: nat)
    requires IsRun(states, steps) && i < |states|
    ensures ReadersSee(states[i], states[i].list) <==> forall u :: u in states[i].ops ==> Undisturbed(states[i], states[i].ops[u])
  {
    RunReaders(states, steps, i);
    SeeListIff(states[i]);
  }

  /**
   In every state, the last store of a link takes effect: the new leaf is in the list, the
   leaf before it leads to it and it leads on, so readers no longer pass through leaves
   unlinked behind it. They see the whole list exactly if no other link is overtaken.
   */
  lemma LinkTakesEffect(s: State, t: nat)
    requires Inv(s) && Readers(s) && t in s.ops && s.ops[t].SplitFinish? && Reads(s, s.ops[t])
    ensures var op, g := s.ops[t], Exec(s, t);
      && g.list == InsertAfter(s.list, op.n, op.nr) && op.n in g.list && op.nr in g.list && !Linking(g, op.n)
      && g.next[op.n].id == op.nr == Succ(g.list, op.n) && g.next[op.nr].id == Succ(g.list, op.nr)
      && (ReadersSee(g, g.list) <==> forall u :: u in s.ops && u != t ==> Undisturbed(s, s.ops[u]))
  {
    LinkedEdges(s, t);
    LinkedSeen(s, t);
  }

  lemma LinkedSeen(s: State, t: nat)
    requires Inv(s) && Readers(s) && t in s.ops && s.ops[t].SplitFinish? && Reads(s, s.ops[t])
    ensures ReadersSee(Exec(s, t), Exec(s, t).list) <==> forall u :: u in s.ops && u != t ==> Undisturbed(s, s.ops[u])
  {
    var op, g := s.ops[t], Exec(s, t);
    assert ReadersSee(g, g.list) <==> forall u :: u in g.ops ==> Undisturbed(g, g.ops[u]) by {
      StepKeepsInv(s, Run(t));
      StepKeepsReaders(s, Run(t));
      SeeListIff(g);
    }
    forall u | u in s.ops && u != t ensures u in g.ops && g.ops[u] == s.ops[u] && (Undisturbed(g, g.ops[u]) <==> Undisturbed(s, s.ops[u])) {
      LinkDisturbsNone(s, t, u);
    }
  }

  lemma LinkedEdges(s: State, t: nat)
    requires Inv(s) && Readers(s) && t in s.ops && s.ops[t].SplitFinish? && Reads(s, s.ops[t])
    ensures var op, g := s.ops[t], Exec(s, t);
      && g.list == InsertAfter(s.list, op.n, op.nr) && op.n in g.list && op.nr in g.list && !Linking(g, op.n)
      && g.next[op.n].id == op.nr == Succ(g.list, op.n) && g.next[op.nr].id == Succ(g.list, op.nr)
  {
    var op, g := s.ops[t], Exec(s, t);
    assert OpOK(s, op) && LinkOK(s, op);
    InsertIn(s.list, op.n, op.nr);
    SuccInsert(s.list, op.n, op.nr, op.n);
    SuccInsert(s.list, op.n, op.nr, op.nr);
    forall u | u in s.ops && u != t ensures s.ops[u].n != op.n { LinkDisturbsNone(s, t, u); }
  }

  lemma LinkDisturbsNone(s: State, t: nat, u: nat)
    requires Inv(s) && t in s.ops && s.ops[t].SplitFinish? && Reads(s, s.ops[t]) && u in s.ops && u != t
    ensures s.ops[u].n != s.ops[t].n && (Undisturbed(Exec(s, t), s.ops[u]) <==> Undisturbed(s, s.ops[u]))
  {
    assert Apart(s.ops[u], s.ops[t]) && OpOK(s, s.ops[t]);
  }

  /** A leaf with a Detour behind it: the first leaf of the detour is not in the list. */
  lemma DetourOutside(s: State, op: Op)
    requires Inv(s) && Readers(s) && op.SplitFinish? && LinkOK(s, op) && op.next != Succ(s.list, op.n)
    ensures op.next !in s.list && op.next in s.dead
  {
    var q :| Detour(s, op.next, Succ(s.list, op.n), q);
  }

  lemma UnlinkDisturbs(s: State, t: nat)
    requires Inv(s) && Readers(s) && t in s.ops && s.ops[t].UnlinkFinish? && Reads(s, s.ops[t]) && Pending(s, s.ops[t].prev)
    ensures exists u :: u in Exec(s, t).ops && !Undisturbed(Exec(s, t), Exec(s, t).ops[u])
  {
    var op, g := s.ops[t], Exec(s, t);
    var a, u := BeforeUnlinked(s, t);
    assert OpOK(s, op) && LinkOK(s, s.ops[u]) && OpOK(s, s.ops[u]) && u in g.ops;
    SuccIn(s.list, op.n);
    if s.ops[u].next != op.n { DetourOutside(s, s.ops[u]); }
    assert !Undisturbed(g, g.ops[u]);
  }

  lemma UnlinkDisturbsNone(s: State, t: nat)
    requires t in s.ops && s.ops[t].UnlinkFinish? && Reads(s, s.ops[t]) && !Pending(s, s.ops[t].prev)
    ensures (forall u :: u in Exec(s, t).ops ==> Undisturbed(Exec(s, t), Exec(s, t).ops[u]))
      <==> (forall u :: u in s.ops ==> Undisturbed(s, s.ops[u]))
  {
    var g := Exec(s, t);
    forall w | w in s.ops && w != t ensures w in g.ops && (Undisturbed(g, g.ops[w]) <==> Undisturbed(s, s.ops[w])) {
      if s.ops[w].SplitFinish? { assert Pending(s, s.ops[w].nr); }
    }
  }

  /**
   In every state, an unlink takes its leaf out of the list at its last store. The readers'
   view is the list afterwards exactly if it was before and the predecessor is not a leaf
   still being added.
   */
  lemma UnlinkEffectIff(s: State, t: nat)
    requires Inv(s) && Readers(s) && t in s.ops && s.ops[t].UnlinkFinish? && Reads(s, s.ops[t])
    ensures var op, g := s.ops[t], Exec(s, t);
      && op.n in s.list && g.list == Remove(s.list, op.n) && op.n !in g.list
      && (ReadersSee(g, g.list) <==> ReadersSee(s, s.list) && !Pending(s, op.prev))
  {
    var op, g := s.ops[t], Exec(s, t);
    StepKeepsInv(s, Run(t));
    UnlinkKeeps(s, t);
    SeeListIff(s);
    SeeListIff(g);
    if Pending(s, op.prev) { UnlinkDisturbs(s, t); } else { UnlinkDisturbsNone(s, t); }
  }

  /** Readers pass through the leaf on their way to the leaf after one behind which a leaf is being added. */
  ghost predicate Passed(s: State, x: Id) {
    exists u, q {:trigger Detour(s, s.ops[u].next, Succ(s.list, s.ops[u].n), q)} ::
      u in s.ops && s.ops[u].SplitFinish? && Detour(s, s.ops[u].next, Succ(s.list, s.ops[u].n), q) && x in q
  }

  /** Next pointers lead one way only. */
  lemma {:induction false} DetourUnique(s: State, from: Id, to: Id, q: seq<Id>, r: seq<Id>)
    requires Detour(s, from, to, q) && Detour(s, from, to, r) && (to == NONE || to in s.list) && NONE !in s.dead
    ensures q == r
    decreases |q|
  {
    if q != [] && r != [] {
      DetourTail(s, to, q);
      DetourTail(s, to, r);
      DetourUnique(s, s.next[q[0]].id, to, q[1..], r[1..]);
      assert q == [q[0]] + q[1..] && r == [r[0]] + r[1..];
    }
  }

  lemma DetourTail(s: State, to: Id, q: seq<Id>)
    requires q != [] && Detour(s, q[0], to, q)
    ensures Detour(s, s.next[q[0]].id, to, q[1..])
  {
    var r := q[1..];
    forall i | 0 <= i < |r| ensures r[i] in s.dead && r[i] !in s.list && r[i] in s.next && s.next[r[i]].id == Hop(r, i, to) {
      assert r[i] == q[i + 1] && Hop(r, i, to) == Hop(q, i + 1, to);
    }
  }

  /** In every state, readers still see an unlinked leaf after the unlink's last store exactly if its predecessor is still being added. */
  lemma UnlinkedSeenIff(s: State, t: nat)
    requires Inv(s) && Readers(s) && t in s.ops && s.ops[t].UnlinkFinish? && Reads(s, s.ops[t])
    ensures Passed(Exec(s, t), s.ops[t].n) <==> Pending(s, s.ops[t].prev)
  {
    var op, g := s.ops[t], Exec(s, t);
    if Pending(s, op.prev) {
      var u, q := UnlinkIneffective(s, t);
      assert Detour(g, g.ops[u].next, Succ(g.list, g.ops[u].n), q);
    } else if Passed(g, op.n) {
      var u, q :| u in g.ops && g.ops[u].SplitFinish? && Detour(g, g.ops[u].next, Succ(g.list, g.ops[u].n), q) && op.n in q;
      NotPassed(s, t, u, q);
    }
  }

  lemma NotPassed(s: State, t: nat, u: nat, q: seq<Id>)
    requires Inv(s) && Readers(s) && t in s.ops && s.ops[t].UnlinkFinish? && Reads(s, s.ops[t]) && !Pending(s, s.ops[t].prev)
    requires u in s.ops && u != t && s.ops[u].SplitFinish? && Detour(Exec(s, t), s.ops[u].next, Succ(Exec(s, t).list, s.ops[u].n), q)
    ensures s.ops[t].n !in q
  {
    var g := Exec(s, t);
    UnlinkKeeps(s, t);
    StepKeepsInv(s, Run(t));
    assert LinkOK(s, s.ops[u]);
    var p :| Detour(s, s.ops[u].next, Succ(s.list, s.ops[u].n), p);
    var r := UnlinkedDetour(s, t, u, p);
    SuccIn(g.list, s.ops[u].n);
    DetourUnique(g, s.ops[u].next, Succ(g.list, s.ops[u].n), q, r);
  }

  /**
   Behind a leaf still being added, the last store of an unlink changes no next pointer of
   the list: the unlinked leaf joins the leaves readers pass through there.
   */
  lemma UnlinkIneffective(s: State, t: nat) returns (u: nat, q: seq<Id>)
    requires Inv(s) && Readers(s) && t in s.ops && s.ops[t].UnlinkFinish? && Reads(s, s.ops[t]) && Pending(s, s.ops[t].prev)
    ensures forall x :: x in s.list && x in s.next ==> x in Exec(s, t).next && Exec(s, t).next[x] == s.next[x]
    ensures t !in Exec(s, t).ops && u in Exec(s, t).ops && u in s.ops && Exec(s, t).ops[u] == s.ops[u] && s.ops[u].SplitFinish?
    ensures s.ops[t].n in q && Detour(Exec(s, t), s.ops[u].next, Succ(Exec(s, t).list, s.ops[u].n), q)
  {
    var op, g := s.ops[t], Exec(s, t);
    var a;
    a, u := BeforeUnlinked(s, t);
    assert OpOK(s, op) && LinkOK(s, s.ops[u]) && OpOK(s, s.ops[u]) && Apart(s.ops[u], op);
    var r :| Detour(s, s.ops[u].next, op.n, r);
    q := r + [op.n];
    RemoveIn(s.list, op.n);
    SuccRemove(s.list, a, op.n, a);
    forall x | x in s.dead ensures x in g.next && g.next[x].id == s.next[x].id { DeadKeepNext(s, Run(t), x); }
    DetourLonger(s, g, s.ops[u].next, op.n, op.next, r);
    assert q[|r|] == op.n;
  }

  /** Until the last store of the pending link, readers go on passing through every leaf unlinked behind it. */
  lemma SeenUntilLinked(s: State, step: Step, u: nat, q: seq<Id>) returns (r: seq<Id>)
    requires Inv(s) && Readers(s) && Enabled(s, step) && u in s.ops && s.ops[u].SplitFinish? && step != Run(u)
    requires Detour(s, s.ops[u].next, Succ(s.list, s.ops[u].n), q)
    ensures var g := Next(s, step);
      && u in g.ops && g.ops[u] == s.ops[u] && q <= r && Detour(g, s.ops[u].next, Succ(g.list, s.ops[u].n), r)
  {
    var w, g := s.ops[u], Next(s, step);
    assert LinkOK(s, w) && OpOK(s, w);
    forall x | x in s.dead ensures x in g.next && g.next[x].id == s.next[x].id { DeadKeepNext(s, step, x); }
    DeadGrows(s, step);
    r := q;
    if !LastStore(s, step) {
      Moves(s, step);
      SameIds(s, step);
      DetourKept(s, g, w.next, Succ(s.list, w.n), q);
    } else if s.ops[step.t].SplitFinish? {
      LinkedDetour(s, step.t, u, q);
    } else {
      r := UnlinkedDetour(s, step.t, u, q);
    }
  }

  // ---------------------------------------------------------------- a reader's walk

  /** Following next pointers from the first of these leaves runs through them and ends. */
  predicate IsWalk(s: State, w: seq<Id>) {
    w != [] && forall i :: 0 <= i < |w| ==> w[i] in s.next && s.next[w[i]].id == Hop(w, i, NONE)
  }

  /** The leaves of the walk that are in the list. */
  function Listed(w: seq<Id>, o: seq<Id>): seq<Id> {
    if w == [] then [] else (if w[0] in o then [w[0]] else []) + Listed(w[1..], o)
  }

  lemma {:induction false} ListedConcat(a: seq<Id>, b: seq<Id>, o: seq<Id>)
    ensures Listed(a + b, o) == Listed(a, o) + Listed(b, o)
  {
    if a == [] {
      assert a + b == b;
    } else {
      ListedConcat(a[1..], b, o);
      assert (a + b)[1..] == a[1..] + b;
      Regroup(if a[0] in o then [a[0]] else [], Listed(a[1..], o), Listed(b, o));
    }
  }

  lemma Regroup(a: seq<Id>, b: seq<Id>, c: seq<Id>)
    ensures a + (b + c) == (a + b) + c
  {
  }

  lemma {:induction false} ListedNone(q: seq<Id>, o: seq<Id>)
    requires forall i :: 0 <= i < |q| ==> q[i] !in o
    ensures Listed(q, o) == []
  {
    if q != [] { ListedNone(q[1..], o); }
  }

  lemma ListedJoin(x: Id, q: seq<Id>, rest: seq<Id>, o: seq<Id>)
    requires x in o && forall i :: 0 <= i < |q| ==> q[i] !in o
    ensures Listed([x] + q + rest, o) == [x] + Listed(rest, o)
  {
    ListedConcat([x] + q, rest, o);
    ListedConcat([x], q, o);
    ListedNone(q, o);
    assert Listed([x], o) == [x] by { assert [x][1..] == []; }
  }

  /** From a leaf of the list, through unlinked leaves if any, to the next leaf of the list. */
  lemma NextInList(s: State, x: Id) returns (q: seq<Id>)
    requires Inv(s) && Readers(s) && x in s.list
    ensures x in s.next && Detour(s, s.next[x].id, Succ(s.list, x), q)
  {
    assert EdgeSeen(s, x);
    q := [];
    if s.next[x].id != Succ(s.list, x) {
      var u :| u in s.ops && s.ops[u].SplitFinish? && s.ops[u].n == x;
      assert LinkOK(s, s.ops[u]) && OpOK(s, s.ops[u]);
      q :| Detour(s, s.ops[u].next, Succ(s.list, x), q);
    }
  }

  lemma JoinWalk(s: State, x: Id, q: seq<Id>, w: seq<Id>)
    requires x in s.next && Detour(s, s.next[x].id, if w == [] then NONE else w[0], q) && (w == [] || IsWalk(s, w))
    ensures IsWalk(s, [x] + q + w)
  {
    var r := [x] + q + w;
    var to := if w == [] then NONE else w[0];
    forall i | 0 <= i < |r| ensures r[i] in s.next && s.next[r[i]].id == Hop(r, i, NONE) {
      if i == 0 {
        assert r[0] == x;
      } else if i <= |q| {
        assert r[i] == q[i - 1] && Hop(r, i, NONE) == Hop(q, i - 1, to);
      } else {
        var j := i - 1 - |q|;
        assert r[i] == w[j] && Hop(r, i, NONE) == Hop(w, j, NONE);
      }
    }
  }

  /** The walk from the i-th leaf of the list on. */
  lemma {:induction false} WalkOn(s: State, i: nat) returns (w: seq<Id>)
    requires Inv(s) && Readers(s) && i < |s.list|
    ensures IsWalk(s, w) && w[0] == s.list[i] && Listed(w, s.list) == s.list[i..]
    ensures forall k :: 0 <= k < |w| ==> w[k] in s.list || w[k] in s.dead
    decreases |s.list| - i
  {
    var x := s.list[i];
    var q := NextInList(s, x);
    SuccAt(s.list, i);
    var rest := [];
    if i + 1 < |s.list| { rest := WalkOn(s, i + 1); }
    JoinWalk(s, x, q, rest);
    w := [x] + q + rest;
    ListedJoin(x, q, rest, s.list);
    assert s.list[i..] == [x] + s.list[i + 1..];
    assert i + 1 == |s.list| ==> s.list[i + 1..] == [] && Listed([], s.list) == [];
  }

  lemma {:induction false} WalkIs(s: State, w: seq<Id>, i: nat, k: nat)
    requires IsWalk(s, w) && NONE !in s.next && i < |w| && i + k <= |w|
    ensures Walk(s.next, w[i], k) == if i + k < |w| then w[i + k] else NONE
    decreases k
  {
    if k > 0 && i + 1 < |w| { WalkIs(s, w, i + 1, k - 1); }
  }

  /**
   In every state of every run, a reader's walk from the first leaf ends, and it visits the
   leaves of the list in order; all it visits besides are leaves that have been unlinked.
   */
  lemma RunWalk(states: seq<State>, steps: seq<Step>, i: nat) returns (w: seq<Id>)
    requires IsRun(states, steps) && i < |states|
    ensures var s := states[i];
      && w != [] && w[0] == s.first && Listed(w, s.list) == s.list && (forall k :: 0 <= k < |w| ==> w[k] in s.list || w[k] in s.dead)
      && (forall k: nat :: k <= |w| ==> Walk(s.next, s.first, k) == if k < |w| then w[k] else NONE)
  {
    RunReaders(states, steps, i);
    var s := states[i];
    w := WalkOn(s, 0);
    assert s.list[0..] == s.list;
    forall k: nat | k <= |w| ensures Walk(s.next, s.first, k) == if k < |w| then w[k] else NONE { WalkIs(s, w, 0, k); }
  }

  /** Whenever no edge is marked, the list of the last stores and the list of the prev stores are the same. */
  lemma QuietSame(s: State)
    requires Inv(s) && Readers(s) && forall x :: x in s.back && x in s.next ==> !s.next[x].marked
    ensures s.list == s.back && ReadersSee(s, s.list)
  {
    QuietList(s);
    forall u | u in s.ops ensures Undisturbed(s, s.ops[u]) { assert OpOK(s, s.ops[u]); }
    SeeListIff(s);
    SameList(s, s.list, s.back, |s.list|);
    SameList(s, s.back, s.list, |s.back|);
  }

  lemma {:induction false} SameList(s: State, a: seq<Id>, b: seq<Id>, k: nat)
    requires ReadersSee(s, a) && ReadersSee(s, b) && k <= |a|
    ensures k <= |b| && forall i :: 0 <= i < k ==> a[i] == b[i]
  {
    if k > 1 {
      SameList(s, a, b, k - 1);
      SuccAt(a, k - 2);
      SuccAt(b, k - 2);
      assert a[k - 2] in a && b[k - 2] in b && a[k - 1] in a;
    }
  }

  // ---------------------------------------------------------------- operations that run alone

  /** The steps lead from one state to the other. */
  predicate Leads(s: State, steps: seq<Step>, g: State)
    decreases |steps|
  {
    if steps == [] then s == g else Enabled(s, steps[0]) && Leads(Next(s, steps[0]), steps[1..], g)
  }

  lemma {:induction false} LeadsConcat(s: State, a: seq<Step>, m: State, b: seq<Step>, g: State)
    requires Leads(s, a, m) && Leads(m, b, g)
    ensures Leads(s, a + b, g)
    decreases |a|
  {
    if a == [] {
      assert a + b == b;
    } else {
      LeadsConcat(Next(s, a[0]), a[1..], m, b, g);
      assert (a + b)[1..] == a[1..] + b;
    }
  }

  lemma LeadsOne(s: State, a: seq<Step>, m: State, step: Step)
    requires Leads(s, a, m) && Enabled(m, step)
    ensures Leads(s, a + [step], Next(m, step))
  {
    assert [step][1..] == [] && Leads(Next(m, step), [], Next(m, step));
    LeadsConcat(s, a, m, [step], Next(m, step));
  }

  lemma {:induction false} LeadsKeeps(s: State, steps: seq<Step>, g: State)
    requires Inv(s) && Readers(s) && Leads(s, steps, g)
    ensures Inv(g) && Readers(g)
    decreases |steps|
  {
    if steps != [] {
      StepKeepsInv(s, steps[0]);
      StepKeepsReaders(s, steps[0]);
      LeadsKeeps(Next(s, steps[0]), steps[1..], g);
    }
  }

  /** The state of a link before its last store, when nothing else has happened since it began. */
  predicate Halfway(s: State, g: State, t: nat, n: Id, nr: Id, y: Id) {
    && g.ops == s.ops[t := SplitFinish(n, nr, y)] && g.list == s.list && g.first == s.first && g.dead == s.dead
    && g.next == s.next[nr := Ptr(y, false)][n := Ptr(y, y != NONE)]
    && g.prev == (if y == NONE then s.prev[nr := n] else s.prev[nr := n][y := nr])
    && g.back == (if y == NONE then s.back else InsertAfter(s.back, n, nr))
  }

  /** A link that runs alone up to its last store. */
  lemma LinkPends(s: State, t: nat, n: Id, nr: Id, y: Id) returns (steps: seq<Step>, g: State)
    requires Enabled(s, LinkSplit(t, n, nr)) && n in s.next && n in s.prev && s.next[n] == Ptr(y, false) && (y != NONE ==> y in s.prev) && y != nr && nr !in s.prev
    ensures Leads(s, steps, g) && Halfway(s, g, t, n, nr, y)
  {
    var b, d;
    steps, b := LinkBegun(s, t, n, nr);
    steps, d := LinkLocks(s, t, n, nr, y, steps, b);
    steps, g := LinkJoins(s, t, n, nr, y, steps, d);
  }

  lemma LinkBegun(s: State, t: nat, n: Id, nr: Id) returns (steps: seq<Step>, b: State)
    requires Enabled(s, LinkSplit(t, n, nr)) && n in s.next && n in s.prev
    ensures Leads(s, steps, b) && b == s.(ops := s.ops[t := SplitRead(n, nr)], next := s.next[nr := Ptr(NONE, false)], prev := s.prev[nr := n])
  {
    var a := Next(s, LinkSplit(t, n, nr));
    assert Leads(s, [], s);
    LeadsOne(s, [], s, LinkSplit(t, n, nr));
    b := Next(a, Run(t));
    LeadsOne(s, [] + [LinkSplit(t, n, nr)], a, Run(t));
    steps := [] + [LinkSplit(t, n, nr)] + [Run(t)];
    assert b.ops == s.ops[t := SplitRead(n, nr)] && b.prev == s.prev[nr := n];
  }

  lemma LinkJoins(s: State, t: nat, n: Id, nr: Id, y: Id, before: seq<Step>, d: State) returns (steps: seq<Step>, g: State)
    requires Leads(s, before, d) && t in d.ops && d.ops[t] == SplitNext(n, nr, y) && n in d.next && n in d.prev && nr in d.next
    ensures Leads(s, steps, g) && g.ops == d.ops[t := SplitFinish(n, nr, y)] && g.list == d.list && g.first == d.first && g.dead == d.dead
    ensures g.next == d.next[nr := Ptr(y, false)] && g.prev == if y == NONE then d.prev else d.prev[y := nr]
    ensures g.back == if y == NONE then d.back else InsertAfter(d.back, n, nr)
  {
    var e := Next(d, Run(t));
    LeadsOne(s, before, d, Run(t));
    assert e.ops == d.ops[t := SplitBack(n, nr, y)];
    LeadsOne(s, before + [Run(t)], e, Run(t));
    steps, g := before + [Run(t)] + [Run(t)], Next(e, Run(t));
    assert g.ops == d.ops[t := SplitFinish(n, nr, y)];
  }

  /** A link takes hold of the edge of its leaf. */
  lemma LinkLocks(s: State, t: nat, n: Id, nr: Id, y: Id, before: seq<Step>, b: State) returns (steps: seq<Step>, d: State)
    requires Leads(s, before, b) && t in b.ops && b.ops[t] == SplitRead(n, nr) && Reads(b, b.ops[t]) && b.next[n] == Ptr(y, false)
    ensures Leads(s, steps, d) && d == b.(ops := b.ops[t := SplitNext(n, nr, y)], next := b.next[n := Ptr(y, y != NONE)])
  {
    var c := Next(b, Run(t));
    LeadsOne(s, before, b, Run(t));
    steps, d := before + [Run(t)], c;
    if y != NONE {
      assert c.ops[t] == SplitCas(n, nr, y);
      LeadsOne(s, steps, c, Run(t));
      steps, d := steps + [Run(t)], Next(c, Run(t));
    } else {
      assert d.next == b.next[n := Ptr(NONE, false)];
    }
  }

  /** A link that runs alone completes. */
  lemma LinkCompletes(s: State, t: nat, n: Id, nr: Id, y: Id) returns (steps: seq<Step>, g: State)
    requires Enabled(s, LinkSplit(t, n, nr)) && n in s.next && n in s.prev && s.next[n] == Ptr(y, false) && (y != NONE ==> y in s.prev) && y != nr && nr !in s.prev
    ensures Leads(s, steps, g) && g.ops == s.ops && g.first == s.first && g.list == InsertAfter(s.list, n, nr) && g.back == InsertAfter(s.back, n, nr)
    ensures g.next == s.next[nr := Ptr(y, false)][n := Ptr(nr, false)] && g.prev == if y == NONE then s.prev[nr := n] else s.prev[nr := n][y := nr]
  {
    var h;
    steps, h := LinkPends(s, t, n, nr, y);
    LeadsOne(s, steps, h, Run(t));
    steps, g := steps + [Run(t)], Next(h, Run(t));
    assert g.ops == s.ops;
  }

  /** An unlink that runs alone, behind a leaf that leads to it, completes. */
  lemma UnlinkCompletes(s: State, t: nat, n: Id, y: Id, p: Id) returns (steps: seq<Step>, g: State)
    requires Enabled(s, Unlink(t, n)) && n in s.next && n in s.prev && p in s.next && p != n
    requires s.next[n] == Ptr(y, false) && s.prev[n] == p && s.next[p] == Ptr(n, false) && n != NONE
    ensures Leads(s, steps, g) && g.ops == s.ops && g.list == Remove(s.list, n) && g.first == s.first
    ensures g.next == s.next[n := Ptr(y, y != NONE)][p := Ptr(y, false)]
  {
    var a := Next(s, Unlink(t, n));
    assert Leads(s, [], s);
    LeadsOne(s, [], s, Unlink(t, n));
    var b, d;
    steps, b := UnlinkLocks(s, t, n, y, [] + [Unlink(t, n)], a);
    steps, d := UnlinkHolds(s, t, n, y, p, steps, b);
    steps, g := UnlinkEnds(s, t, n, y, p, steps, d);
    assert g.ops == s.ops;
  }

  /** An unlink that has locked its leaf's own edge takes hold of the edge to it. */
  lemma UnlinkHolds(s: State, t: nat, n: Id, y: Id, p: Id, before: seq<Step>, b: State) returns (steps: seq<Step>, d: State)
    requires Leads(s, before, b) && t in b.ops && b.ops[t] == UnlinkPrev(n, y) && n in b.next && n in b.prev && p in b.next
    requires b.prev[n] == p && b.next[p] == Ptr(n, false)
    ensures Leads(s, steps, d) && d == b.(ops := b.ops[t := UnlinkBack(n, y, p)], next := b.next[p := Ptr(n, true)])
  {
    var c := Next(b, Run(t));
    LeadsOne(s, before, b, Run(t));
    assert c == b.(ops := b.ops[t := UnlinkCasPrev(n, y, p)]);
    LeadsOne(s, before + [Run(t)], c, Run(t));
    steps, d := before + [Run(t)] + [Run(t)], Next(c, Run(t));
  }

  lemma UnlinkEnds(s: State, t: nat, n: Id, y: Id, p: Id, before: seq<Step>, d: State) returns (steps: seq<Step>, g: State)
    requires Leads(s, before, d) && t in d.ops && d.ops[t] == UnlinkBack(n, y, p) && n in d.next && n in d.prev && p in d.next
    ensures Leads(s, steps, g) && g.ops == d.ops - {t} && g.list == Remove(d.list, n) && g.first == d.first && g.next == d.next[p := Ptr(y, false)]
  {
    var e := Next(d, Run(t));
    LeadsOne(s, before, d, Run(t));
    assert e.ops == d.ops[t := UnlinkFinish(n, y, p)];
    LeadsOne(s, before + [Run(t)], e, Run(t));
    steps, g := before + [Run(t)] + [Run(t)], Next(e, Run(t));
    assert g.ops == d.ops - {t};
  }

  lemma UnlinkLocks(s: State, t: nat, n: Id, y: Id, before: seq<Step>, a: State) returns (steps: seq<Step>, d: State)
    requires Leads(s, before, a) && t in a.ops && a.ops[t] == UnlinkRead(n) && Reads(a, a.ops[t]) && a.next[n] == Ptr(y, false)
    ensures Leads(s, steps, d) && d == a.(ops := a.ops[t := UnlinkPrev(n, y)], next := a.next[n := Ptr(y, y != NONE)])
  {
    var c := Next(a, Run(t));
    LeadsOne(s, before, a, Run(t));
    steps, d := before + [Run(t)], c;
    if y != NONE {
      assert c.ops[t] == UnlinkCas(n, y);
      LeadsOne(s, steps, c, Run(t));
      steps, d := steps + [Run(t)], Next(c, Run(t));
    } else {
      assert d.next == a.next[n := Ptr(NONE, false)];
    }
  }

  // ---------------------------------------------------------------- an unlinked leaf still seen

  /** The leaf is in the list with a settled edge on either side of it, and nothing is under way. */
  predicate Settled(s: State, a: Id, n: Id, z: Id) {
    && s.ops == map[] && a in s.back && n in s.back && n != s.first && n != a && n != NONE && a in s.next && n in s.next && a in s.prev && n in s.prev
    && s.next[a] == Ptr(n, false) && s.next[n] == Ptr(z, false)
  }

  lemma HalfwayReady(s: State, h: State, a: Id, n: Id, z: Id, y: Id, t: nat, u: nat)
    requires Inv(s) && Settled(s, a, n, z) && y !in s.next && y != NONE && t != u && Halfway(s, h, t, a, y, n)
    ensures Enabled(h, Unlink(u, n)) && n in h.next && n in h.prev && y in h.next && y != n && h.next[n] == Ptr(z, false)
    ensures h.prev[n] == y && h.next[y] == Ptr(n, false)
  {
    assert y in s.back ==> EdgeOK(s, y);
    InsertIn(s.back, a, y);
  }

  /** A link behind a, stopped before its last store, and a complete unlink of the leaf after a. */
  lemma UnlinkBehindLink(s: State, a: Id, n: Id, z: Id, y: Id, t: nat, u: nat) returns (steps: seq<Step>, g: State)
    requires Inv(s) && Settled(s, a, n, z) && y !in s.next && y != NONE && t != u
    ensures Leads(s, steps, g) && g.ops.Keys == {t} && g.ops[t] == SplitFinish(a, y, n) && g.list == Remove(s.list, n)
    ensures n in g.next && a in g.next && g.next[a].id == n
  {
    var h;
    steps, h := LinkPends(s, t, a, y, n);
    HalfwayReady(s, h, a, n, z, y, t, u);
    var more;
    more, g := UnlinkCompletes(h, u, n, z, y);
    LeadsConcat(s, steps, h, more, g);
    steps := steps + more;
  }

  /**
   From the initial list: a leaf x is linked; a link of y behind the first leaf stops before
   its last store; x is unlinked, and no unlink is under way any more. The first leaf's next
   pointer still leads to x.
   */
  lemma UnlinkedStillSeen(s: State, x: Id, y: Id) returns (steps: seq<Step>, g: State)
    requires Init(s) && x != NONE && y != NONE && x != y && x != s.first && y != s.first
    ensures Leads(s, steps, g) && g.ops.Keys == {0} && g.ops[0] == SplitFinish(s.first, y, x)
    ensures x !in g.list && Walk(g.next, g.first, 1) == x
  {
    InitInv(s);
    InitReaders(s);
    var a;
    steps, a := LinkCompletes(s, 0, s.first, x, NONE);
    LeadsKeeps(s, steps, a);
    assert a.back == [s.first, x];
    var more;
    more, g := UnlinkBehindLink(a, s.first, x, NONE, y, 0, 1);
    LeadsConcat(s, steps, a, more, g);
    steps := steps + more;
    RemoveIn(a.list, x);
    LeadsFirst(s, steps, g);
  }

  lemma {:induction false} LeadsFirst(s: State, steps: seq<Step>, g: State)
    requires Leads(s, steps, g)
    ensures g.first == s.first
    decreases |steps|
  {
    if steps != [] { LeadsFirst(Next(s, steps[0]), steps[1..], g); }
  }
}
