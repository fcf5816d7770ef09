/**
 The intrusive multi-producer single-consumer queue, as a step machine: every read,
 write and exchange of a shared word is one step. A push clears the last item's link,
 exchanges the head and only then links the old head to its first item, so the list the
 consumer walks may have gaps. The consumer pushes the stub with the same three steps.
 */
module MpscQueue {

  type Item = nat
  const NONE: Item := 0

  /** The writer that is the consumer itself, pushing the stub. */
  const CONSUMER: nat := 0

  /** A push of one item or of a linked batch, by its next step. */
  datatype Writer = Clear(items: seq<Item>) | Exchange(items: seq<Item>) | Link(prev: Item, first: Item)

  /** The next step of pop_front. */
  datatype Consumer = Idle | AtItem | CheckHead | Pushing | ReRead

  /**
   `chain`, `pushed` and `popped` are auxiliary: the items from the tail to the head in
   the order of their exchanges, all items ever exchanged in and all items returned.
   */
  datatype State = State(next: Item -> Item, head: Item, tail: Item, stub: Item, writers: map<nat, Writer>, pc: Consumer,
                         chain: seq<Item>, pushed: seq<Item>, popped: seq<Item>)

  function Set(next: Item -> Item, x: Item, y: Item): Item -> Item {
    z => if z == x then y else next(z)
  }

  /** The items of a chain other than the stub. */
  function Real(chain: seq<Item>, stub: Item): seq<Item> {
    if chain == [] then []
    else (if chain[0] == stub then [] else [chain[0]]) + Real(chain[1..], stub)
  }

  // ---------------------------------------------------------------- invariant

  predicate Distinct(o: seq<Item>) {
    forall i, j :: 0 <= i < j < |o| ==> o[i] != o[j]
  }

  /** The i-th item of the chain is linked to its successor, or a writer is about to link it. */
  ghost predicate LinkedAt(s: State, i: nat)
    requires i + 1 < |s.chain|
  {
    || s.next(s.chain[i]) == s.chain[i + 1]
    || (s.next(s.chain[i]) == NONE && exists t :: t in s.writers && s.writers[t].Link? && s.writers[t].prev == s.chain[i])
  }

  /** A writer that has exchanged the head still owes the link from one item to the next. */
  ghost predicate Owes(s: State, w: Writer) {
    w.Link? ==> s.next(w.prev) == NONE && exists i :: 0 <= i && i + 1 < |s.chain| && s.chain[i] == w.prev && s.chain[i + 1] == w.first
  }

  /** Items being pushed are linked among themselves and belong to that push alone. */
  ghost predicate Owns(s: State, t: nat, w: Writer) {
    !w.Link? ==>
      && w.items != [] && Distinct(w.items) && NONE !in w.items
      && (forall x :: x in w.items ==> x !in s.chain)
      && (forall i :: 0 <= i && i + 1 < |w.items| ==> s.next(w.items[i]) == w.items[i + 1])
      && (w.Exchange? ==> s.next(w.items[|w.items| - 1]) == NONE)
      && (t != CONSUMER ==> s.stub !in w.items) && (t == CONSUMER ==> w.items == [s.stub])
  }

  /** No item is written by two pushes. */
  predicate Apart(v: Writer, w: Writer) {
    && (v.Link? && w.Link? ==> v.prev != w.prev)
    && (!v.Link? && !w.Link? ==> forall x :: x in v.items ==> x !in w.items)
  }

  ghost predicate Inv(s: State) {
    && s.stub != NONE && s.chain != [] && Distinct(s.chain) && NONE !in s.chain
    && s.tail == s.chain[0] && s.head == s.chain[|s.chain| - 1] && s.next(s.head) == NONE
    && (forall i {:trigger LinkedAt(s, i)} :: 0 <= i && i + 1 < |s.chain| ==> LinkedAt(s, i))
    && (forall t :: t in s.writers ==> Owes(s, s.writers[t]) && Owns(s, t, s.writers[t]))
    && (forall t, u {:trigger Apart(s.writers[t], s.writers[u])} :: t in s.writers && u in s.writers && t != u ==> Apart(s.writers[t], s.writers[u]))
    && (s.pc == Pushing <==> CONSUMER in s.writers)
    && (s.pc in {AtItem, CheckHead, Pushing, ReRead} ==> s.tail != s.stub)
    && s.pushed == s.popped + Real(s.chain, s.stub)
  }

  predicate Init(s: State) {
    && s.stub != NONE && s.head == s.tail == s.stub && s.chain == [s.stub] && s.next(s.stub) == NONE
    && s.writers == map[] && s.pc == Idle && s.pushed == s.popped == []
  }

  // ---------------------------------------------------------------- steps

  datatype Step = Begin(t: nat, items: seq<Item>) | Write(t: nat) | Pop

  /** A producer pushes linked items that are neither queued nor being pushed, nor the stub. */
  ghost predicate Enabled(s: State, step: Step) {
    match step
    case Begin(t, items) =>
      && t != CONSUMER && t !in s.writers && items != [] && Distinct(items) && NONE !in items && s.stub !in items
      && (forall x :: x in items ==> x !in s.chain)
      && (forall i :: 0 <= i && i + 1 < |items| ==> s.next(items[i]) == items[i + 1])
      && (forall u :: u in s.writers && !s.writers[u].Link? ==> forall x :: x in items ==> x !in s.writers[u].items)
    case Write(t) => t in s.writers
    case Pop => s.pc != Pushing
  }

  function First(o: seq<Item>): Item {
    if o == [] then NONE else o[0]
  }

  function Last(o: seq<Item>): Item {
    if o == [] then NONE else o[|o| - 1]
  }

  function Rest(o: seq<Item>): seq<Item> {
    if o == [] then [] else o[1..]
  }

  ghost function WriteStep(s: State, t: nat): State
    requires t in s.writers
  {
    match s.writers[t]
    case Clear(items) =>
      s.(next := Set(s.next, Last(items), NONE), writers := s.writers[t := Exchange(items)])
    case Exchange(items) =>
      s.(head := Last(items), writers := s.writers[t := Link(s.head, First(items))],
         chain := s.chain + items, pushed := s.pushed + Real(items, s.stub))
    case Link(prev, first) =>
      s.(next := Set(s.next, prev, first), writers := s.writers - {t}, pc := if t == CONSUMER then ReRead else s.pc)
  }

  /** The consumer takes its tail item and moves on to the next. */
  ghost function Take(s: State): State {
    s.(tail := s.next(s.tail), chain := Rest(s.chain), popped := s.popped + [s.tail], pc := Idle)
  }

  /** The consumer leaves the stub at the tail behind. */
  ghost function SkipStub(s: State): State {
    s.(tail := s.next(s.tail), chain := Rest(s.chain), pc := AtItem)
  }

  ghost function PopStep(s: State): State {
    match s.pc
    case Idle =>
      if s.tail == s.stub then if s.next(s.tail) == NONE then s else SkipStub(s)
      else if s.next(s.tail) != NONE then Take(s) else s.(pc := CheckHead)
    case AtItem => if s.next(s.tail) != NONE then Take(s) else s.(pc := CheckHead)
    case CheckHead => if s.tail != s.head then s.(pc := Idle) else s.(pc := Pushing, writers := s.writers[CONSUMER := Clear([s.stub])])
    case ReRead => if s.next(s.tail) != NONE then Take(s) else s.(pc := Idle)
    case Pushing => s
  }

  ghost function Next(s: State, step: Step): State
    requires Enabled(s, step)
  {
    match step
    case Begin(t, items) => s.(writers := s.writers[t := Clear(items)])
    case Write(t) => WriteStep(s, t)
    case Pop => PopStep(s)
  }

  // ---------------------------------------------------------------- lemmas

  lemma {:induction false} RealConcat(a: seq<Item>, b: seq<Item>, stub: Item)
    ensures Real(a + b, stub) == Real(a, stub) + Real(b, stub)
  {
    if a == [] {
      assert a + b == b;
    } else {
      RealConcat(a[1..], b, stub);
      assert (a + b)[1..] == a[1..] + b;
      Regroup(if a[0] == stub then [] else [a[0]], Real(a[1..], stub), Real(b, stub));
    }
  }

  lemma Regroup(a: seq<Item>, b: seq<Item>, c: seq<Item>)
    ensures a + (b + c) == (a + b) + c
  {
  }

  lemma Joined(a: seq<Item>, b: seq<Item>)
    requires Distinct(a) && Distinct(b) && forall x :: x in b ==> x !in a
    ensures Distinct(a + b)
  {
    forall i, j | 0 <= i < j < |a + b| ensures (a + b)[i] != (a + b)[j] {
      if i < |a| && j >= |a| {
        assert a[i] in a && b[j - |a|] in b;
      }
    }
  }

  lemma ClearKeeps(s: State, t: nat)
    requires Inv(s) && t in s.writers && s.writers[t].Clear?
    ensures Inv(WriteStep(s, t))
  {
    var w := s.writers[t];
    assert Owns(s, t, w);
    var g := WriteStep(s, t);
    var last := w.items[|w.items| - 1];
    assert last in w.items;
    forall i | 0 <= i && i + 1 < |s.chain| ensures LinkedAt(g, i) {
      assert LinkedAt(s, i) && s.chain[i] in s.chain;
      StillOwed(s, g, t, i);
    }
    forall u | u in g.writers ensures Owes(g, g.writers[u]) && Owns(g, u, g.writers[u]) { ClearOther(s, t, u); }
    forall u, v | u in g.writers && v in g.writers && u != v ensures Apart(g.writers[u], g.writers[v]) {
      assert Apart(s.writers[u], s.writers[v]);
    }
  }

  lemma ClearOther(s: State, t: nat, u: nat)
    requires Inv(s) && t in s.writers && s.writers[t].Clear? && u in s.writers
    ensures Owes(WriteStep(s, t), WriteStep(s, t).writers[u]) && Owns(WriteStep(s, t), u, WriteStep(s, t).writers[u])
  {
    var w := s.writers[t];
    assert Owes(s, s.writers[u]) && Owns(s, u, s.writers[u]) && Owns(s, t, w);
    assert w.items[|w.items| - 1] in w.items;
    if u != t && !s.writers[u].Link? {
      assert Apart(w, s.writers[u]);
    }
  }

  lemma ExchangeKeeps(s: State, t: nat)
    requires Inv(s) && t in s.writers && s.writers[t].Exchange?
    ensures Inv(WriteStep(s, t))
  {
    var w := s.writers[t];
    assert Owns(s, t, w);
    var g := WriteStep(s, t);
    var n := |s.chain|;
    Joined(s.chain, w.items);
    RealConcat(s.chain, w.items, s.stub);
    Regroup(s.popped, Real(s.chain, s.stub), Real(w.items, s.stub));
    assert g.chain[n - 1] == s.head && g.chain[n] == w.items[0];
    forall i | 0 <= i && i + 1 < |g.chain| ensures LinkedAt(g, i) { ExchangeLinked(s, t, i); }
    forall u | u in g.writers ensures Owes(g, g.writers[u]) && Owns(g, u, g.writers[u]) {
      ExchangeOther(s, g, t, u);
    }
    forall u, v | u in g.writers && v in g.writers && u != v ensures Apart(g.writers[u], g.writers[v]) { ExchangeApart(s, t, u, v); }
  }

  /** After the exchange, the old links are as they were, the one from the old head is owed, and those of the batch are in place. */
  lemma ExchangeLinked(s: State, t: nat, i: nat)
    requires Inv(s) && t in s.writers && s.writers[t].Exchange? && i + 1 < |WriteStep(s, t).chain|
    ensures LinkedAt(WriteStep(s, t), i)
  {
    var w, g, n := s.writers[t], WriteStep(s, t), |s.chain|;
    assert Owns(s, t, w);
    if i + 1 < n {
      assert LinkedAt(s, i);
      StillOwed(s, g, t, i);
    } else if i == n - 1 {
      assert g.writers[t] == Link(g.chain[i], g.chain[i + 1]);
    } else {
      assert g.chain[i] == w.items[i - n] && g.chain[i + 1] == w.items[i - n + 1];
    }
  }

  lemma ExchangeApart(s: State, t: nat, u: nat, v: nat)
    requires Inv(s) && t in s.writers && s.writers[t].Exchange? && u in s.writers && v in s.writers && u != v
    ensures Apart(WriteStep(s, t).writers[u], WriteStep(s, t).writers[v])
  {
    assert Apart(s.writers[u], s.writers[v]);
    OldHeadFree(s, u);
    OldHeadFree(s, v);
  }

  /** Nobody owes a link from the head. */
  lemma OldHeadFree(s: State, u: nat)
    requires Inv(s) && u in s.writers
    ensures s.writers[u].Link? ==> s.writers[u].prev != s.head
  {
    assert Owes(s, s.writers[u]);
  }

  lemma StillOwed(s: State, g: State, t: nat, i: nat)
    requires i + 1 < |s.chain| && i + 1 < |g.chain| && LinkedAt(s, i) && t in s.writers && !s.writers[t].Link?
    requires g.next(s.chain[i]) == s.next(s.chain[i]) && t in g.writers && g.writers == s.writers[t := g.writers[t]]
    requires g.chain[i] == s.chain[i] && g.chain[i + 1] == s.chain[i + 1]
    ensures LinkedAt(g, i)
  {
    if s.next(s.chain[i]) != s.chain[i + 1] {
      var u :| u in s.writers && s.writers[u].Link? && s.writers[u].prev == s.chain[i];
      assert u in g.writers && g.writers[u].prev == g.chain[i];
    }
  }

  lemma ExchangeOther(s: State, g: State, t: nat, u: nat)
    requires Inv(s) && t in s.writers && s.writers[t].Exchange? && g == WriteStep(s, t) && u in g.writers
    requires s.writers[t].items != []
    ensures Owes(g, g.writers[u]) && Owns(g, u, g.writers[u])
  {
    assert Owes(s, s.writers[u]) && Owns(s, u, s.writers[u]);
    if u == t {
      var n := |s.chain|;
      assert g.chain[n - 1] == s.head && g.chain[n] == s.writers[t].items[0];
    } else if s.writers[u].Link? {
      var i :| 0 <= i && i + 1 < |s.chain| && s.chain[i] == s.writers[u].prev && s.chain[i + 1] == s.writers[u].first;
      assert g.chain[i] == s.chain[i] && g.chain[i + 1] == s.chain[i + 1];
    } else {
      assert Apart(s.writers[u], s.writers[t]);
    }
  }

  lemma LinkKeeps(s: State, t: nat)
    requires Inv(s) && t in s.writers && s.writers[t].Link?
    ensures Inv(WriteStep(s, t))
  {
    var g := WriteStep(s, t);
    assert Owes(s, s.writers[t]);
    forall i | 0 <= i && i + 1 < |g.chain| ensures LinkedAt(g, i) { LinkLinked(s, t, i); }
    forall u | u in g.writers ensures Owes(g, g.writers[u]) && Owns(g, u, g.writers[u]) { LinkOther(s, t, u); }
    forall u, v | u in g.writers && v in g.writers && u != v ensures Apart(g.writers[u], g.writers[v]) {
      assert Apart(s.writers[u], s.writers[v]);
    }
  }

  /** The store puts the owed link in place and leaves the others as they were. */
  lemma LinkLinked(s: State, t: nat, i: nat)
    requires Inv(s) && t in s.writers && s.writers[t].Link? && i + 1 < |s.chain|
    ensures LinkedAt(WriteStep(s, t), i)
  {
    var w, g := s.writers[t], WriteStep(s, t);
    assert Owes(s, w) && LinkedAt(s, i);
    var k :| 0 <= k && k + 1 < |s.chain| && s.chain[k] == w.prev && s.chain[k + 1] == w.first;
    if i != k && s.next(s.chain[i]) != s.chain[i + 1] {
      var u :| u in s.writers && s.writers[u].Link? && s.writers[u].prev == s.chain[i];
      assert u in g.writers && g.writers[u] == s.writers[u];
    }
  }

  lemma LinkOther(s: State, t: nat, u: nat)
    requires Inv(s) && t in s.writers && s.writers[t].Link? && u in s.writers && u != t
    ensures Owes(WriteStep(s, t), s.writers[u]) && Owns(WriteStep(s, t), u, s.writers[u])
  {
    assert Owes(s, s.writers[u]) && Owns(s, u, s.writers[u]) && Owes(s, s.writers[t]);
    assert Apart(s.writers[u], s.writers[t]);
    assert s.writers[t].prev in s.chain;
  }

  /** Dropping the tail item, whose link is in place. */
  lemma DropKeeps(s: State, g: State)
    requires Inv(s) && s.next(s.tail) != NONE && |s.chain| > 0 && s.pc != Pushing
    requires g.chain == s.chain[1..] && g.tail == s.next(s.tail) && g.head == s.head && g.next == s.next && g.stub == s.stub
    requires g.writers == s.writers && g.pc in {Idle, AtItem} && (g.pc == AtItem ==> s.tail == s.stub)
    requires g.pushed == s.pushed && g.popped == s.popped + (if s.tail == s.stub then [] else [s.tail])
    ensures Inv(g) && |s.chain| > 1
  {
    assert |s.chain| > 1;
    assert LinkedAt(s, 0);
    forall i | 0 <= i && i + 1 < |g.chain| ensures LinkedAt(g, i) {
      assert LinkedAt(s, i + 1);
    }
    forall u | u in g.writers ensures Owes(g, g.writers[u]) && Owns(g, u, g.writers[u]) {
      assert Owes(s, s.writers[u]) && Owns(s, u, s.writers[u]);
      if s.writers[u].Link? {
        var i :| 0 <= i && i + 1 < |s.chain| && s.chain[i] == s.writers[u].prev && s.chain[i + 1] == s.writers[u].first;
        assert i > 0;
        assert g.chain[i - 1] == s.chain[i] && g.chain[i] == s.chain[i + 1];
      }
    }
    Regroup(s.popped, if s.tail == s.stub then [] else [s.tail], Real(g.chain, s.stub));
  }

  lemma PopKeeps(s: State)
    requires Inv(s) && s.pc != Pushing
    ensures Inv(PopStep(s))
  {
    var g := PopStep(s);
    if s.pc == CheckHead && s.tail == s.head {
      assert s.chain == [s.tail];
      StubReady(s, g);
    } else if s.pc != CheckHead && s.next(s.tail) != NONE {
      DropKeeps(s, g);
    } else {
      forall i | 0 <= i && i + 1 < |g.chain| ensures LinkedAt(g, i) {
        assert LinkedAt(s, i);
      }
      forall u | u in g.writers ensures Owes(g, g.writers[u]) && Owns(g, u, g.writers[u]) {
        assert Owes(s, s.writers[u]) && Owns(s, u, s.writers[u]);
      }
    }
  }

  /** The stub is pushed only when it is nowhere: the queue never holds it twice. */
  lemma StubReady(s: State, g: State)
    requires Inv(s) && s.pc == CheckHead && s.chain == [s.tail] && s.tail == s.head && g == PopStep(s)
    ensures Inv(g)
  {
    forall u | u in g.writers ensures Owes(g, g.writers[u]) && Owns(g, u, g.writers[u]) {
      if u != CONSUMER {
        assert Owes(s, s.writers[u]) && Owns(s, u, s.writers[u]);
      }
    }
    forall u, v | u in g.writers && v in g.writers && u != v ensures Apart(g.writers[u], g.writers[v]) {
      assert u != CONSUMER ==> Owns(s, u, s.writers[u]);
      assert v != CONSUMER ==> Owns(s, v, s.writers[v]);
      assert u != CONSUMER && v != CONSUMER ==> Apart(s.writers[u], s.writers[v]);
    }
  }

  lemma BeginKeeps(s: State, t: nat, items: seq<Item>)
    requires Inv(s) && Enabled(s, Begin(t, items))
    ensures Inv(s.(writers := s.writers[t := Clear(items)]))
  {
    var g := s.(writers := s.writers[t := Clear(items)]);
    forall i | 0 <= i && i + 1 < |g.chain| ensures LinkedAt(g, i) {
      assert LinkedAt(s, i);
      if s.next(s.chain[i]) != s.chain[i + 1] {
        var u :| u in s.writers && s.writers[u].Link? && s.writers[u].prev == s.chain[i];
        assert u in g.writers && g.writers[u] == s.writers[u];
      }
    }
    forall u | u in g.writers ensures Owes(g, g.writers[u]) && Owns(g, u, g.writers[u]) {
      if u != t {
        assert Owes(s, s.writers[u]) && Owns(s, u, s.writers[u]);
      }
    }
    forall u, v | u in g.writers && v in g.writers && u != v ensures Apart(g.writers[u], g.writers[v]) {
      if u != t && v != t { assert Apart(s.writers[u], s.writers[v]); }
    }
  }

  /** Every step of every interleaving keeps the invariant. */
  lemma StepKeepsInv(s: State, step: Step)
    requires Inv(s) && Enabled(s, step)
    ensures Inv(Next(s, step))
  {
    match step
    case Begin(t, items) => BeginKeeps(s, t, items);
    case Write(t) =>
      if s.writers[t].Clear? { ClearKeeps(s, t); } else if s.writers[t].Exchange? { ExchangeKeeps(s, t); } else { LinkKeeps(s, t); }
    case Pop => PopKeeps(s);
  }

  // ---------------------------------------------------------------- runs

  ghost predicate Run(states: seq<State>, steps: seq<Step>) {
    && |states| == |steps| + 1 && Init(states[0])
    && forall i :: 0 <= i < |steps| ==>
      Enabled(states[i], steps[i]) && states[i + 1] == Next(states[i], steps[i])
  }

  lemma InitInv(s: State)
    requires Init(s)
    ensures Inv(s)
  {
    assert s.chain[1..] == [] && Real([], s.stub) == [];
  }

  lemma {:induction false} RunInv(states: seq<State>, steps: seq<Step>, i: nat)
    requires Run(states, steps) && i < |states|
    ensures Inv(states[i])
  {
    if i == 0 {
      InitInv(states[0]);
    } else {
      RunInv(states, steps, i - 1);
      assert states[i - 1 + 1] == Next(states[i - 1], steps[i - 1]);
      StepKeepsInv(states[i - 1], steps[i - 1]);
    }
  }

  // ---------------------------------------------------------------- what producers push, by their calls alone

  /** The items of a producer's latest push. */
  function Latest(steps: seq<Step>, t: nat): seq<Item>
    decreases |steps|
  {
    if steps == [] then []
    else
      var n := |steps| - 1;
      if steps[n].Begin? && steps[n].t == t then steps[n].items else Latest(steps[..n], t)
  }

  /** How many writes a producer has done since it began its latest push; the second one is the exchange. */
  function Writes(steps: seq<Step>, t: nat): nat
    decreases |steps|
  {
    if steps == [] then 0
    else
      var n := |steps| - 1;
      if steps[n].Begin? && steps[n].t == t then 0
      else Writes(steps[..n], t) + if steps[n] == Write(t) then 1 else 0
  }

  /** The step exchanges the head for a producer. */
  predicate Exchanges(before: seq<Step>, step: Step) {
    step.Write? && step.t != CONSUMER && Writes(before, step.t) == 1
  }

  /** The items of all pushes whose exchange has happened, in the order of the exchanges. */
  function Queued(steps: seq<Step>): seq<Item>
    decreases |steps|
  {
    if steps == [] then []
    else
      var n := |steps| - 1;
      Queued(steps[..n]) + if Exchanges(steps[..n], steps[n]) then Latest(steps[..n], steps[n].t) else []
  }

  /** A push under way holds the items it began with, and its next step follows from its writes so far. */
  lemma {:induction false} RunWriter(states: seq<State>, steps: seq<Step>, i: nat, t: nat)
    requires Run(states, steps) && i < |states| && t != CONSUMER && t in states[i].writers
    ensures var w, items := states[i].writers[t], Latest(steps[..i], t);
      match Writes(steps[..i], t) case 0 => w == Clear(items) case 1 => w == Exchange(items) case 2 => w.Link? case _ => false
  {
    if i > 0 {
      var n := i - 1;
      assert steps[..i][..n] == steps[..n] && states[n + 1] == Next(states[n], steps[n]);
      StepWriter(states[n], steps[n], t);
      if t in states[n].writers { RunWriter(states, steps, n, t); }
    }
  }

  /** A producer's push goes on only by its own steps. */
  lemma StepWriter(s: State, step: Step, t: nat)
    requires Enabled(s, step) && t != CONSUMER && t in Next(s, step).writers
    ensures var w := Next(s, step).writers[t];
      if step.Begin? && step.t == t then w == Clear(step.items)
      else t in s.writers && (if step == Write(t) then (if s.writers[t].Clear? then w == Exchange(s.writers[t].items) else s.writers[t].Exchange? && w.Link?)
                              else w == s.writers[t])
  {
  }

  lemma {:induction false} RealOfItems(items: seq<Item>, stub: Item)
    requires stub !in items
    ensures Real(items, stub) == items
  {
    if items != [] {
      RealOfItems(items[1..], stub);
      assert items == [items[0]] + items[1..];
    }
  }

  /** A producer's exchange appends exactly the items it began with; no other step appends anything. */
  lemma ExchangeAppends(states: seq<State>, steps: seq<Step>, i: nat)
    requires Run(states, steps) && i < |steps|
    ensures var items := if Exchanges(steps[..i], steps[i]) then Latest(steps[..i], steps[i].t) else [];
      states[i + 1].pushed == states[i].pushed + items
    ensures states[i + 1].head != states[i].head ==>
      || (Exchanges(steps[..i], steps[i]) && states[i + 1].head == Last(Latest(steps[..i], steps[i].t)))
      || (steps[i] == Write(CONSUMER) && states[i + 1].head == states[i].stub)
  {
    var s, step := states[i], steps[i];
    assert states[i + 1] == Next(s, step);
    RunInv(states, steps, i);
    if step.Write? {
      var w := s.writers[step.t];
      assert Owns(s, step.t, w);
      if step.t == CONSUMER {
        assert Real([s.stub], s.stub) == [] by { assert [s.stub][1..] == []; }
      } else {
        RunWriter(states, steps, i, step.t);
        if w.Exchange? { RealOfItems(w.items, s.stub); }
      }
    }
  }

  /**
   In every state of every run the queue holds each item, the stub included, at most once.
   The items that producers have pushed, in the order of their exchanges, are those returned
   followed by those still queued: none is lost, repeated or overtaken.
   */
  lemma {:induction false} RunCorrect(states: seq<State>, steps: seq<Step>, i: nat)
    requires Run(states, steps) && i < |states|
    ensures Inv(states[i]) && Distinct(states[i].chain)
    ensures states[i].pushed == Queued(steps[..i]) == states[i].popped + Real(states[i].chain, states[i].stub)
  {
    RunInv(states, steps, i);
    if i > 0 {
      RunCorrect(states, steps, i - 1);
      ExchangeAppends(states, steps, i - 1);
      assert steps[..i][..i - 1] == steps[..i - 1] && states[i - 1 + 1] == states[i];
    }
  }

  /** The steps lead from one state to the other. */
  ghost predicate Leads(s: State, steps: seq<Step>, g: State)
    decreases |steps|
  {
    if steps == [] then s == g else Enabled(s, steps[0]) && Leads(Next(s, steps[0]), steps[1..], g)
  }

  lemma {:induction false} LeadsOne(s: State, a: seq<Step>, m: State, step: Step)
    requires Leads(s, a, m) && Enabled(m, step)
    ensures Leads(s, a + [step], Next(m, step))
    decreases |a|
  {
    if a == [] {
      assert a + [step] == [step] && [step][1..] == [];
    } else {
      LeadsOne(Next(s, a[0]), a[1..], m, step);
      assert (a + [step])[1..] == a[1..] + [step];
    }
  }

  /** The first two steps of a push: the last item's link is cleared. */
  lemma PushBegins(s: State, t: nat, items: seq<Item>) returns (b: State)
    requires Inv(s) && Enabled(s, Begin(t, items))
    ensures Leads(s, [Begin(t, items), Write(t)], b)
    ensures b == s.(next := b.next, writers := s.writers[t := Exchange(items)])
    ensures b.next(items[|items| - 1]) == NONE && forall x :: x != items[|items| - 1] ==> b.next(x) == s.next(x)
  {
    var a := Next(s, Begin(t, items));
    b := Next(a, Write(t));
    assert Leads(s, [], s);
    LeadsOne(s, [], s, Begin(t, items));
    LeadsOne(s, [] + [Begin(t, items)], a, Write(t));
    assert [] + [Begin(t, items)] + [Write(t)] == [Begin(t, items), Write(t)];
    assert b.writers == s.writers[t := Exchange(items)];
  }

  /** The last two: the head is exchanged and the old head linked. */
  lemma PushLinks(s: State, t: nat, items: seq<Item>) returns (g: State)
    requires t in s.writers && s.writers[t] == Exchange(items) && items != [] && t != CONSUMER
    ensures Leads(s, [Write(t), Write(t)], g)
    ensures g == s.(next := g.next, head := items[|items| - 1], writers := s.writers - {t}, chain := s.chain + items, pushed := s.pushed + Real(items, s.stub))
    ensures g.next(s.head) == items[0] && forall x :: x != s.head ==> g.next(x) == s.next(x)
  {
    var c := Next(s, Write(t));
    assert c.writers[t] == Link(s.head, items[0]);
    g := Next(c, Write(t));
    assert Leads(s, [], s);
    LeadsOne(s, [], s, Write(t));
    LeadsOne(s, [] + [Write(t)], c, Write(t));
    assert [] + [Write(t)] + [Write(t)] == [Write(t), Write(t)];
    assert g.writers == s.writers - {t};
  }

  lemma {:induction false} LeadsConcat(s: State, a: seq<Step>, m: State, b: seq<Step>, g: State)
    requires Leads(s, a, m) && Leads(m, b, g)
    ensures Leads(s, a + b, g)
    decreases |a|
  {
    if a == [] {
      assert a + b == b;
    } else {
      LeadsConcat(Next(s, a[0]), a[1..], m, b, g);
      assert (a + b)[1..] == a[1..] + b;
    }
  }

  lemma RealAppended(chain: seq<Item>, items: seq<Item>, stub: Item)
    requires stub !in items
    ensures Real(chain + items, stub) == Real(chain, stub) + items
  {
    RealConcat(chain, items, stub);
    RealOfItems(items, stub);
  }

  /** A push that runs alone, one item or a batch, ends with its items behind all others, linked, and nothing else changed. */
  lemma PushCompletes(s: State, t: nat, items: seq<Item>) returns (g: State)
    requires Inv(s) && Enabled(s, Begin(t, items))
    ensures Leads(s, [Begin(t, items), Write(t)] + [Write(t), Write(t)], g)
    ensures g.chain == s.chain + items && Real(g.chain, g.stub) == Real(s.chain, s.stub) + items
    ensures g.head == items[|items| - 1] && g.next(s.head) == items[0] && g.next(g.head) == NONE
    ensures g.writers == s.writers && g.tail == s.tail && g.popped == s.popped && g.pc == s.pc
    ensures forall x :: x != s.head && x != g.head ==> g.next(x) == s.next(x)
  {
    var b := PushBegins(s, t, items);
    g := PushLinks(b, t, items);
    LeadsConcat(s, [Begin(t, items), Write(t)], b, [Write(t), Write(t)], g);
    assert s.head in s.chain && items[|items| - 1] in items;
    RealAppended(s.chain, items, s.stub);
    assert b.writers - {t} == s.writers;
  }

  /** On an empty queue, an item pushed alone is the one a pop then returns. */
  lemma PushThenPop(s: State, t: nat, x: Item) returns (g: State)
    requires Init(s) && t != CONSUMER && x != NONE && x != s.stub
    ensures Leads(s, [Begin(t, [x]), Write(t)] + [Write(t), Write(t)], g) && PopAlone(g, 7).pc == Idle && PopAlone(g, 7).popped == [x]
  {
    InitInv(s);
    g := PushCompletes(s, t, [x]);
    var steps := [Begin(t, [x]), Write(t)] + [Write(t), Write(t)];
    LeadsKeeps(s, steps, g);
    assert s.chain[1..] == [] && Real(s.chain, s.stub) == [];
    PopDelivers(g);
  }

  lemma {:induction false} LeadsKeeps(s: State, steps: seq<Step>, g: State)
    requires Inv(s) && Leads(s, steps, g)
    ensures Inv(g)
    decreases |steps|
  {
    if steps != [] {
      StepKeepsInv(s, steps[0]);
      LeadsKeeps(Next(s, steps[0]), steps[1..], g);
    }
  }

  /** Is the item one that a push still writes to? */
  predicate Written(w: Writer, x: Item) {
    if w.Link? then w.prev == x else x in w.items
  }

  /** A pop that returns an item returns the oldest one, and no push writes to it any more. */
  lemma ReturnSafe(s: State)
    requires Inv(s) && s.pc != Pushing && PopStep(s).popped != s.popped
    ensures Real(s.chain, s.stub) != [] && PopStep(s).popped == s.popped + [Real(s.chain, s.stub)[0]]
    ensures forall t :: t in PopStep(s).writers ==> !Written(PopStep(s).writers[t], s.tail)
    ensures s.tail !in PopStep(s).chain && s.tail != s.stub
  {
    var g := PopStep(s);
    forall t | t in g.writers ensures !Written(g.writers[t], s.tail) {
      assert Owes(s, s.writers[t]) && Owns(s, t, s.writers[t]);
    }
  }

  // ---------------------------------------------------------------- a pop that runs alone

  /** The steps of pop_front and of its own push of the stub, while no producer runs. */
  ghost function Solo(s: State): State {
    if s.pc == Pushing && CONSUMER in s.writers then WriteStep(s, CONSUMER) else PopStep(s)
  }

  /** The state when pop_front returns, or after that many further steps. */
  ghost function PopAlone(s: State, steps: nat): State
    decreases steps
  {
    var g := Solo(s);
    if steps == 0 || g.pc == Idle then g else PopAlone(g, steps - 1)
  }

  /** Once every push is complete the whole chain is linked. */
  lemma AllLinked(s: State, i: nat)
    requires Inv(s) && (forall t :: t in s.writers ==> !s.writers[t].Link?) && i + 1 < |s.chain|
    ensures s.next(s.chain[i]) == s.chain[i + 1]
  {
    assert LinkedAt(s, i);
  }

  lemma TakesFirst(s: State)
    requires Inv(s) && s.writers == map[] && s.pc in {Idle, AtItem} && s.tail != s.stub && |s.chain| > 1
    ensures Solo(s).pc == Idle && Solo(s).popped == s.popped + [s.tail]
  {
    AllLinked(s, 0);
  }

  /** With its head equal to its tail, the consumer pushes the stub and then returns the tail. */
  lemma TakesChecked(s: State)
    requires s.pc == CheckHead && s.writers == map[] && s.tail == s.head && s.chain == [s.tail] && s.tail != s.stub && s.stub != NONE
    ensures PopAlone(s, 5).pc == Idle && PopAlone(s, 5).popped == s.popped + [s.tail]
  {
    var b := Solo(s);
    var c := Solo(b);
    var d := Solo(c);
    assert d.writers[CONSUMER] == Link(s.tail, s.stub);
    var e := Solo(d);
    assert e.next(s.tail) == s.stub && e.tail == s.tail;
    assert PopAlone(e, 1) == Solo(e);
    assert PopAlone(d, 2) == PopAlone(e, 1);
    assert PopAlone(c, 3) == PopAlone(d, 2);
    assert PopAlone(b, 4) == PopAlone(c, 3);
  }

  /** The last item is returned only after the stub has been pushed behind it. */
  lemma TakesLast(s: State)
    requires Inv(s) && s.writers == map[] && s.pc in {Idle, AtItem} && s.tail != s.stub && |s.chain| == 1
    ensures PopAlone(s, 6).pc == Idle && PopAlone(s, 6).popped == s.popped + [s.tail]
  {
    assert s.chain == [s.tail];
    TakesChecked(Solo(s));
  }

  lemma PopMore(s: State, steps: nat, more: nat)
    requires PopAlone(s, steps).pc == Idle && steps <= more
    ensures PopAlone(s, more) == PopAlone(s, steps)
    decreases steps
  {
    if steps > 0 && Solo(s).pc != Idle { PopMore(Solo(s), steps - 1, more - 1); }
  }

  /**
   With no push under way, a pop ends within eight steps of its own and returns the oldest
   item, or nothing exactly if none is queued.
   */
  lemma PopDelivers(s: State)
    requires Inv(s) && s.writers == map[] && s.pc == Idle
    ensures PopAlone(s, 7).pc == Idle
    ensures var waiting := Real(s.chain, s.stub);
      PopAlone(s, 7).popped == if waiting == [] then s.popped else s.popped + [waiting[0]]
  {
    if s.tail != s.stub {
      if |s.chain| > 1 { TakesFirst(s); } else { TakesLast(s); PopMore(s, 6, 7); }
    } else if |s.chain| > 1 {
      AllLinked(s, 0);
      var a := Solo(s);
      PopKeeps(s);
      if |a.chain| > 1 {
        TakesFirst(a);
        PopMore(a, 0, 6);
      } else {
        TakesLast(a);
      }
    } else {
      assert s.chain[1..] == [];
    }
  }
}
