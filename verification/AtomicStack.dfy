/**
 The array stack with a versioned top pointer, as a step machine: one producer that swaps
 the top for null, writes its items and stores the new top, and any number of consumers
 that load the top, read the slot and compare and swap. Slot writes and reads are steps
 of their own, so a consumer may read a slot that is being overwritten.
 */
module AtomicStack {

  type Thread = nat
  type Item = int

  /** The top is null while a push is under way; a bottom of -1 stands for the empty stack. */
  datatype Top = Null | At(index: int, version: nat)

  /** The producer by its next step: writing the remaining items above `top`, then storing. */
  datatype Producer = Idle | Writing(bottom: int, version: nat, top: int, items: seq<Item>, todo: seq<Item>)

  datatype Consumer = Loaded(index: int, version: nat) | Read(index: int, version: nat, item: Item)

  /**
   `stack`, `pushed`, `popped` and `latest` are auxiliary: the abstract stack with its
   bottom first, everything pushed and popped, and the latest version of a top that was
   not null.
   */
  datatype State = State(data: map<int, Item>, top: Top, producer: Producer, consumers: map<Thread, Consumer>,
                         stack: seq<Item>, pushed: multiset<Item>, popped: multiset<Item>, latest: nat)

  datatype Step = Prepare(items: seq<Item>) | Write | Store | Load(t: Thread) | ReadSlot(t: Thread) | Swap(t: Thread)

  /** A consumer that loads null or an empty stack returns at once; the array is assumed large enough. */
  predicate Enabled(s: State, step: Step) {
    match step
    case Prepare(_) => s.producer.Idle? && s.top.At?
    case Write => s.producer.Writing? && s.producer.todo != []
    case Store => s.producer.Writing? && s.producer.todo == []
    case Load(t) => t !in s.consumers
    case ReadSlot(t) => t in s.consumers && s.consumers[t].Loaded? && s.consumers[t].index in s.data
    case Swap(t) => t in s.consumers && s.consumers[t].Read?
  }

  /** What a consumer does with a top it has loaded: give up, or go on to read the slot. */
  function Loads(s: State, t: Thread): State {
    if s.top.Null? || s.top.index < 0 then s.(consumers := s.consumers - {t})
    else s.(consumers := s.consumers[t := Loaded(s.top.index, s.top.version)])
  }

  function Next(s: State, step: Step): State
    requires Enabled(s, step)
  {
    match step
    case Prepare(items) => s.(top := Null, producer := Writing(s.top.index, s.top.version, s.top.index, items, items))
    case Write =>
      var p := s.producer;
      s.(data := s.data[p.top + 1 := p.todo[0]], producer := p.(top := p.top + 1, todo := p.todo[1..]))
    case Store =>
      var p := s.producer;
      s.(top := At(p.top, p.version + 1), producer := Idle, stack := s.stack + p.items,
         pushed := s.pushed + multiset(p.items), latest := p.version + 1)
    case Load(t) => Loads(s, t)
    case ReadSlot(t) =>
      var c := s.consumers[t];
      s.(consumers := s.consumers[t := Read(c.index, c.version, s.data[c.index])])
    case Swap(t) =>
      var c := s.consumers[t];
      if s.top == At(c.index, c.version) then
        s.(top := At(c.index - 1, c.version + 1), consumers := s.consumers - {t},
           stack := if s.stack == [] then [] else s.stack[..|s.stack| - 1], popped := s.popped + multiset{c.item}, latest := c.version + 1)
      else Loads(s, t)
  }

  // ---------------------------------------------------------------- invariant

  /** The array holds these items from slot `at` on. */
  predicate Holds(data: map<int, Item>, at: int, items: seq<Item>) {
    forall j :: at <= j < at + |items| ==> j in data && data[j] == items[j - at]
  }

  /** The top of the stack and its version, wherever they are kept. */
  function Index(s: State): int {
    if s.producer.Writing? then s.producer.bottom else if s.top.At? then s.top.index else -1
  }

  predicate ProducerOK(s: State, p: Producer) {
    p.Writing? ==>
      && s.top == Null && p.version == s.latest && p.bottom <= p.top && |p.todo| <= |p.items|
      && p.top - p.bottom + |p.todo| == |p.items| && p.todo == p.items[|p.items| - |p.todo|..]
      && Holds(s.data, p.bottom + 1, p.items[..|p.items| - |p.todo|])
  }

  /** A snapshot of the latest version is a snapshot of the stack as it is. */
  predicate ConsumerOK(s: State, c: Consumer) {
    && 0 <= c.index && c.index in s.data && c.version <= s.latest
    && (c.version == s.latest ==> c.index == Index(s) && (c.Read? ==> s.data[c.index] == c.item))
  }

  ghost predicate Inv(s: State) {
    && Index(s) == |s.stack| - 1 && Holds(s.data, 0, s.stack) && (s.top.At? ==> s.producer.Idle? && s.top.version == s.latest)
    && (s.producer.Idle? ==> s.top.At?) && ProducerOK(s, s.producer)
    && (forall t :: t in s.consumers ==> ConsumerOK(s, s.consumers[t]))
    && s.pushed == s.popped + multiset(s.stack)
  }

  // ---------------------------------------------------------------- every step

  lemma WriteKeeps(s: State)
    requires Inv(s) && Enabled(s, Write)
    ensures Inv(Next(s, Write))
  {
    var g, p := Next(s, Write), s.producer;
    var k := |p.items| - |p.todo|;
    assert p.items[k..][0] == p.items[k] && p.items[k..][1..] == p.items[k + 1..];
    HoldsOne(s.data, p.bottom + 1, p.items[..k], p.todo[0]);
    assert p.items[..k + 1] == p.items[..k] + [p.todo[0]];
    forall t | t in g.consumers ensures ConsumerOK(g, g.consumers[t]) { assert ConsumerOK(s, s.consumers[t]); }
  }

  lemma HoldsOne(data: map<int, Item>, at: int, items: seq<Item>, x: Item)
    requires Holds(data, at, items)
    ensures Holds(data[at + |items| := x], at, items + [x])
  {
  }

  lemma HoldsConcat(data: map<int, Item>, a: seq<Item>, b: seq<Item>)
    requires Holds(data, 0, a) && Holds(data, |a|, b)
    ensures Holds(data, 0, a + b)
  {
    forall j | 0 <= j < |a + b| ensures j in data && data[j] == (a + b)[j] {
      assert j >= |a| ==> j in data && data[j] == b[j - |a|];
    }
  }

  lemma StoreKeeps(s: State)
    requires Inv(s) && Enabled(s, Store)
    ensures Inv(Next(s, Store))
  {
    var g, p := Next(s, Store), s.producer;
    assert p.items[..|p.items|] == p.items;
    HoldsConcat(s.data, s.stack, p.items);
    forall t | t in g.consumers ensures ConsumerOK(g, g.consumers[t]) { assert ConsumerOK(s, s.consumers[t]); }
  }

  /** A swap that succeeds takes the top of the stack as it is at that moment. */
  lemma SwapTakesTop(s: State, t: Thread)
    requires Inv(s) && Enabled(s, Swap(t)) && s.top == At(s.consumers[t].index, s.consumers[t].version)
    ensures s.stack != [] && s.consumers[t].item == s.stack[|s.stack| - 1]
    ensures Next(s, Swap(t)).stack == s.stack[..|s.stack| - 1]
  {
    assert ConsumerOK(s, s.consumers[t]);
    assert s.data[|s.stack| - 1] == s.stack[|s.stack| - 1];
  }

  lemma SwapKeeps(s: State, t: Thread)
    requires Inv(s) && Enabled(s, Swap(t))
    ensures Inv(Next(s, Swap(t)))
  {
    var g := Next(s, Swap(t));
    if s.top == At(s.consumers[t].index, s.consumers[t].version) {
      SwapTakesTop(s, t);
      var n := |s.stack| - 1;
      assert s.stack == s.stack[..n] + [s.stack[n]];
      forall u | u in g.consumers ensures ConsumerOK(g, g.consumers[u]) { assert ConsumerOK(s, s.consumers[u]); }
    } else {
      LoadKeeps(s, t);
    }
  }

  lemma LoadKeeps(s: State, t: Thread)
    requires Inv(s)
    ensures Inv(Loads(s, t))
  {
    var g := Loads(s, t);
    if s.top.At? && s.top.index >= 0 { assert s.top.index in s.data; }
    forall u | u in g.consumers ensures ConsumerOK(g, g.consumers[u]) {
      if u != t { assert ConsumerOK(s, s.consumers[u]); }
    }
  }

  /** Every step of every interleaving keeps the invariant. */
  lemma StepKeepsInv(s: State, step: Step)
    requires Inv(s) && Enabled(s, step)
    ensures Inv(Next(s, step))
  {
    match step
    case Prepare(items) =>
      assert items[|items| - |items|..] == items;
      forall t | t in s.consumers ensures ConsumerOK(Next(s, step), s.consumers[t]) { assert ConsumerOK(s, s.consumers[t]); }
    case Write => WriteKeeps(s);
    case Store => StoreKeeps(s);
    case Load(t) => LoadKeeps(s, t);
    case ReadSlot(t) =>
      forall u | u in Next(s, step).consumers ensures ConsumerOK(Next(s, step), Next(s, step).consumers[u]) {
        assert ConsumerOK(s, s.consumers[u]);
      }
    case Swap(t) => SwapKeeps(s, t);
  }

  /** Versions of tops that are not null only increase, so an old snapshot never matches again. */
  lemma VersionsIncrease(s: State, step: Step)
    requires Inv(s) && Enabled(s, step)
    ensures s.latest <= Next(s, step).latest
    ensures Next(s, step).top.At? && Next(s, step).top != s.top ==> Next(s, step).top.version > s.latest
  {
  }

  // ---------------------------------------------------------------- runs

  predicate Init(s: State) {
    && s.top == At(-1, 0) && s.producer == Idle && s.consumers == map[] && s.stack == [] && s.latest == 0
    && s.pushed == s.popped == multiset{}
  }

  ghost predicate IsRun(states: seq<State>, steps: seq<Step>) {
    && |states| == |steps| + 1 && Init(states[0])
    && forall i :: 0 <= i < |steps| ==> Enabled(states[i], steps[i]) && states[i + 1] == Next(states[i], steps[i])
  }

  /** In every run, what has been pushed is what has been popped plus what is on the stack: no item is popped twice. */
  lemma {:induction false} RunCorrect(states: seq<State>, steps: seq<Step>, i: nat)
    requires IsRun(states, steps) && i < |states|
    ensures Inv(states[i]) && states[i].pushed == states[i].popped + multiset(states[i].stack)
  {
    if i > 0 {
      RunCorrect(states, steps, i - 1);
      assert states[i - 1 + 1] == Next(states[i - 1], steps[i - 1]);
      StepKeepsInv(states[i - 1], steps[i - 1]);
    }
  }

  /** In every run, a pop that succeeds returns the value on top of the stack and removes it, and nothing else. */
  lemma RunLifo(states: seq<State>, steps: seq<Step>, i: nat, t: Thread)
    requires IsRun(states, steps) && i < |steps| && steps[i] == Swap(t) && states[i + 1].popped != states[i].popped
    ensures var s := states[i];
      && s.stack != [] && t in s.consumers && s.consumers[t].Read?
      && s.consumers[t].item == s.stack[|s.stack| - 1] && states[i + 1].stack == s.stack[..|s.stack| - 1]
      && states[i + 1].popped == s.popped + multiset{s.stack[|s.stack| - 1]}
  {
    RunCorrect(states, steps, i);
    assert states[i + 1] == Next(states[i], steps[i]);
    SwapTakesTop(states[i], t);
  }

  /** The items of the latest push. */
  function Latest(steps: seq<Step>): seq<Item>
    decreases |steps|
  {
    if steps == [] then []
    else
      var n := |steps| - 1;
      if steps[n].Prepare? then steps[n].items else Latest(steps[..n])
  }

  lemma {:induction false} RunLatest(states: seq<State>, steps: seq<Step>, i: nat)
    requires IsRun(states, steps) && i < |states| && states[i].producer.Writing?
    ensures states[i].producer.items == Latest(steps[..i])
  {
    if i > 0 {
      var n := i - 1;
      assert steps[..i][..n] == steps[..n] && states[n + 1] == Next(states[n], steps[n]);
      if states[n].producer.Writing? { RunLatest(states, steps, n); }
    }
  }

  /**
   In every run, the store that ends a push puts exactly the items it began with on top, in
   their order; a swap on the current top takes the top item; nothing else changes the stack.
   */
  lemma RunStack(states: seq<State>, steps: seq<Step>, i: nat)
    requires IsRun(states, steps) && i < |steps|
    ensures var s, g := states[i], states[i + 1];
      if steps[i].Store? then g.stack == s.stack + Latest(steps[..i]) && g.pushed == s.pushed + multiset(Latest(steps[..i])) && g.popped == s.popped
      else if steps[i].Swap? && steps[i].t in s.consumers && s.top == At(s.consumers[steps[i].t].index, s.consumers[steps[i].t].version) then
        && s.stack != [] && g.stack == s.stack[..|s.stack| - 1] && g.pushed == s.pushed
        && g.popped == s.popped + multiset{s.stack[|s.stack| - 1]}
      else g.stack == s.stack && g.pushed == s.pushed && g.popped == s.popped
  {
    RunCorrect(states, steps, i);
    var s := states[i];
    assert states[i + 1] == Next(s, steps[i]);
    if steps[i].Store? { RunLatest(states, steps, i); }
    if steps[i].Swap? && s.top == At(s.consumers[steps[i].t].index, s.consumers[steps[i].t].version) { SwapTakesTop(s, steps[i].t); }
  }

  // ---------------------------------------------------------------- operations that run alone

  predicate Leads(s: State, steps: seq<Step>, g: State)
    decreases |steps|
  {
    if steps == [] then s == g else Enabled(s, steps[0]) && Leads(Next(s, steps[0]), steps[1..], g)
  }

  lemma LeadsOn(s: State, step: Step, steps: seq<Step>, g: State)
    requires Enabled(s, step) && Leads(Next(s, step), steps, g)
    ensures Leads(s, [step] + steps, g)
  {
    assert ([step] + steps)[1..] == steps;
  }

  /** A pop that runs alone while no push is under way returns the top item and removes it, or nothing exactly if the stack is empty. */
  lemma PopAlone(s: State, t: Thread) returns (steps: seq<Step>, g: State)
    requires Inv(s) && s.producer.Idle? && t !in s.consumers
    ensures Leads(s, steps, g) && g.consumers == s.consumers && g.producer.Idle?
    ensures if s.stack == [] then steps == [Load(t)] && g == s
            else steps == [Load(t), ReadSlot(t), Swap(t)] && g.stack == s.stack[..|s.stack| - 1] && g.popped == s.popped + multiset{s.stack[|s.stack| - 1]}
  {
    var a := Next(s, Load(t));
    if s.stack == [] {
      assert s.consumers - {t} == s.consumers;
      steps, g := [Load(t)], a;
      LeadsOn(s, Load(t), [], g);
    } else {
      StepKeepsInv(s, Load(t));
      assert ConsumerOK(a, a.consumers[t]);
      var b := Next(a, ReadSlot(t));
      StepKeepsInv(a, ReadSlot(t));
      g := Next(b, Swap(t));
      SwapTakesTop(b, t);
      LeadsOn(b, Swap(t), [], g);
      LeadsOn(a, ReadSlot(t), [Swap(t)], g);
      LeadsOn(s, Load(t), [ReadSlot(t), Swap(t)], g);
      steps := [Load(t), ReadSlot(t), Swap(t)];
      assert g.consumers == s.consumers;
    }
  }

  /** The writes a push still has to do. */
  lemma {:induction false} WritesAll(s: State) returns (steps: seq<Step>, g: State)
    requires Inv(s) && s.producer.Writing?
    ensures Leads(s, steps, g) && Inv(g) && g.producer.Writing? && g.producer.todo == [] && g.producer.items == s.producer.items
    ensures g.stack == s.stack && g.popped == s.popped && g.pushed == s.pushed && g.consumers == s.consumers
    decreases |s.producer.todo|
  {
    if s.producer.todo == [] {
      steps, g := [], s;
    } else {
      StepKeepsInv(s, Write);
      steps, g := WritesAll(Next(s, Write));
      LeadsOn(s, Write, steps, g);
      steps := [Write] + steps;
    }
  }

  lemma {:induction false} LeadsConcat(s: State, a: seq<Step>, m: State, b: seq<Step>, g: State)
    requires Leads(s, a, m) && Leads(m, b, g)
    ensures Leads(s, a + b, g)
    decreases |a|
  {
    if a == [] {
      assert a + b == b;
    } else {
      LeadsConcat(Next(s, a[0]), a[1..], m, b, g);
      assert (a + b)[1..] == a[1..] + b;
    }
  }

  /** A push that runs alone, of one item or of many, puts exactly its items on top. */
  lemma PushAlone(s: State, items: seq<Item>) returns (steps: seq<Step>, g: State)
    requires Inv(s) && s.producer.Idle?
    ensures Leads(s, steps, g) && g.producer.Idle? && g.stack == s.stack + items && g.pushed == s.pushed + multiset(items) && g.popped == s.popped
  {
    StepKeepsInv(s, Prepare(items));
    var b;
    steps, b := WritesAll(Next(s, Prepare(items)));
    g := Next(b, Store);
    LeadsOn(s, Prepare(items), steps, b);
    LeadsOn(b, Store, [], g);
    assert [Store] + [] == [Store];
    LeadsConcat(s, [Prepare(items)] + steps, b, [Store], g);
    steps := [Prepare(items)] + steps + [Store];
  }

  /** In every run, a consumer that has loaded a top can read its slot. */
  lemma NeverStuck(states: seq<State>, steps: seq<Step>, i: nat, t: Thread)
    requires IsRun(states, steps) && i < |states| && t in states[i].consumers && states[i].consumers[t].Loaded?
    ensures Enabled(states[i], ReadSlot(t))
  {
    RunCorrect(states, steps, i);
    assert ConsumerOK(states[i], states[i].consumers[t]);
  }
}
