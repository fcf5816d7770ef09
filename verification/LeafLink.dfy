/**
 The concurrent doubly linked list of Masstree leaves, as a step machine: every load,
 store and compare-and-swap is one step. Marking a node's next pointer locks that edge.

 The list the prev pointers describe changes at the store to prev, one store before the
 end of an operation; prev is its inverse in every state. What readers see by following
 next pointers is the subject of LeafLinkReaders.
 */
module LeafLink {

  type Id = nat
  const NONE: Id := 0

  datatype Ptr = Ptr(id: Id, marked: bool)

  // ---------------------------------------------------------------- lists

  /** The element after x, or NONE. */
  function Succ(o: seq<Id>, x: Id): Id {
    if o == [] then NONE else if o[0] == x then (if |o| > 1 then o[1] else NONE) else Succ(o[1..], x)
  }

  function InsertAfter(o: seq<Id>, n: Id, r: Id): seq<Id> {
    if o == [] then [] else if o[0] == n then [n, r] + o[1..] else [o[0]] + InsertAfter(o[1..], n, r)
  }

  function Remove(o: seq<Id>, n: Id): seq<Id> {
    if o == [] then [] else if o[0] == n then o[1..] else [o[0]] + Remove(o[1..], n)
  }

  predicate Distinct(o: seq<Id>) {
    o == [] || (o[0] !in o[1..] && Distinct(o[1..]))
  }

  lemma {:induction false} SuccIn(o: seq<Id>, x: Id)
    requires Distinct(o) && NONE !in o
    ensures Succ(o, x) != NONE ==> x in o && Succ(o, x) in o && Succ(o, x) != x && Succ(o, x) != o[0]
  {
    if o != [] && o[0] != x {
      SuccIn(o[1..], x);
    }
  }

  lemma {:induction false} InsertIn(o: seq<Id>, n: Id, r: Id)
    requires Distinct(o) && n in o && r !in o
    ensures var q := InsertAfter(o, n, r); Distinct(q) && q != [] && q[0] == o[0] && forall x :: x in q <==> x == r || x in o
  {
    if o[0] == n {
      assert InsertAfter(o, n, r) == [n] + ([r] + o[1..]);
      assert ([r] + o[1..])[1..] == o[1..] && ([n] + ([r] + o[1..]))[1..] == [r] + o[1..];
    } else {
      InsertIn(o[1..], n, r);
      assert InsertAfter(o, n, r)[1..] == InsertAfter(o[1..], n, r);
    }
  }

  lemma {:induction false} SuccInsert(o: seq<Id>, n: Id, r: Id, x: Id)
    requires Distinct(o) && n in o && r !in o
    ensures Succ(InsertAfter(o, n, r), x) == if x == n then r else if x == r then Succ(o, n) else Succ(o, x)
  {
    var q := InsertAfter(o, n, r);
    if o[0] == n {
      assert q[1..] == [r] + o[1..] && q[1..][1..] == o[1..];
    } else {
      InsertIn(o[1..], n, r);
      SuccInsert(o[1..], n, r, x);
      assert q[1..] == InsertAfter(o[1..], n, r);
    }
  }

  lemma {:induction false} RemoveIn(o: seq<Id>, n: Id)
    requires Distinct(o)
    ensures Distinct(Remove(o, n)) && forall x :: x in Remove(o, n) <==> x in o && x != n
    ensures o != [] && o[0] != n ==> Remove(o, n) != [] && Remove(o, n)[0] == o[0]
  {
    if o != [] && o[0] != n {
      RemoveIn(o[1..], n);
      assert Remove(o, n)[1..] == Remove(o[1..], n);
    }
  }

  lemma {:induction false} SuccRemove(o: seq<Id>, p: Id, n: Id, x: Id)
    requires Distinct(o) && NONE !in o && Succ(o, p) == n && n != NONE && x != n
    ensures Succ(Remove(o, n), x) == if x == p then Succ(o, n) else Succ(o, x)
  {
    SuccIn(o, p);
    if o[0] == p {
      assert Remove(o, n) == [p] + o[2..] && o[1..][1..] == o[2..];
      assert Remove(o, n)[1..] == o[2..];
    } else {
      SuccRemove(o[1..], p, n, x);
      SuccIn(o[1..], p);
      RemoveIn(o[1..], n);
      assert Remove(o, n)[1..] == Remove(o[1..], n);
    }
  }

  /** Every element but the first has one before it. */
  lemma {:induction false} PredOf(o: seq<Id>, n: Id) returns (p: Id)
    requires Distinct(o) && n in o && n != o[0]
    ensures p in o && Succ(o, p) == n
  {
    if o[1] == n {
      p := o[0];
    } else {
      p := PredOf(o[1..], n);
    }
  }

  // ---------------------------------------------------------------- operations

  /** An operation by its next step; link_split inserts nr after n, unlink removes n. */
  datatype Op =
    | SplitPrev(n: Id, nr: Id)
    | SplitRead(n: Id, nr: Id)
    | SplitCas(n: Id, nr: Id, seen: Id)
    | SplitNext(n: Id, nr: Id, next: Id)
    | SplitBack(n: Id, nr: Id, next: Id)
    | SplitFinish(n: Id, nr: Id, next: Id)
    | UnlinkRead(n: Id)
    | UnlinkCas(n: Id, seen: Id)
    | UnlinkPrev(n: Id, next: Id)
    | UnlinkCasPrev(n: Id, next: Id, prev: Id)
    | UnlinkBack(n: Id, next: Id, prev: Id)
    | UnlinkFinish(n: Id, next: Id, prev: Id)

  predicate IsSplit(op: Op) {
    op.SplitPrev? || op.SplitRead? || op.SplitCas? || op.SplitNext? || op.SplitBack? || op.SplitFinish?
  }

  /**
   `back`, `list` and `dead` are auxiliary: the list that prev pointers invert, changed at
   the store to prev; the list changed at the last store of each operation; and the
   leaves that have left `back`.
   */
  datatype State = State(next: map<Id, Ptr>, prev: map<Id, Id>, ops: map<nat, Op>, first: Id,
                         back: seq<Id>, list: seq<Id>, dead: set<Id>)

  function Store(s: State, x: Id, p: Ptr): State {
    s.(next := s.next[x := p])
  }

  function Back(s: State, x: Id, p: Id): State {
    s.(prev := s.prev[x := p])
  }

  function Go(s: State, t: nat, op: Op): State {
    s.(ops := s.ops[t := op])
  }

  /** The nodes an operation's own step reads exist. */
  predicate Reads(s: State, op: Op) {
    && op.n in s.next && op.n in s.prev && (IsSplit(op) ==> op.nr in s.next)
    && (op.UnlinkCasPrev? || op.UnlinkBack? || op.UnlinkFinish? ==> op.prev in s.next)
  }

  function Exec(s: State, t: nat): State
    requires t in s.ops && Reads(s, s.ops[t])
  {
    match s.ops[t]
    case SplitPrev(n, nr) => Go(Back(s, nr, n), t, SplitRead(n, nr))
    case SplitRead(n, nr) =>
      if s.next[n].id == NONE then Go(s, t, SplitNext(n, nr, NONE))
      else if s.next[n].marked then s else Go(s, t, SplitCas(n, nr, s.next[n].id))
    case SplitCas(n, nr, seen) =>
      if s.next[n] == Ptr(seen, false) then Go(Store(s, n, Ptr(seen, true)), t, SplitNext(n, nr, seen))
      else Go(s, t, SplitRead(n, nr))
    case SplitNext(n, nr, y) => Go(Store(s, nr, Ptr(y, false)), t, SplitBack(n, nr, y))
    case SplitBack(n, nr, y) =>
      if y == NONE then Go(s, t, SplitFinish(n, nr, y))
      else Go(Back(s, y, nr), t, SplitFinish(n, nr, y)).(back := InsertAfter(s.back, n, nr))
    case SplitFinish(n, nr, y) =>
      Store(s, n, Ptr(nr, false)).(ops := s.ops - {t}, list := InsertAfter(s.list, n, nr),
                                   back := if y == NONE then InsertAfter(s.back, n, nr) else s.back)
    case UnlinkRead(n) =>
      if s.next[n].id == NONE then Go(s, t, UnlinkPrev(n, NONE))
      else if s.next[n].marked then s else Go(s, t, UnlinkCas(n, s.next[n].id))
    case UnlinkCas(n, seen) =>
      if s.next[n] == Ptr(seen, false) then Go(Store(s, n, Ptr(seen, true)), t, UnlinkPrev(n, seen))
      else Go(s, t, UnlinkRead(n))
    case UnlinkPrev(n, y) => Go(s, t, UnlinkCasPrev(n, y, s.prev[n]))
    case UnlinkCasPrev(n, y, p) =>
      if s.next[p] == Ptr(n, false) then Go(Store(s, p, Ptr(n, true)), t, UnlinkBack(n, y, p))
      else Go(s, t, UnlinkPrev(n, y))
    case UnlinkBack(n, y, p) =>
      (if y == NONE then Go(s, t, UnlinkFinish(n, y, p)) else Go(Back(s, y, p), t, UnlinkFinish(n, y, p)))
        .(back := Remove(s.back, n), dead := s.dead + {n})
    case UnlinkFinish(n, y, p) => Store(s, p, Ptr(y, false)).(ops := s.ops - {t}, list := Remove(s.list, n))
  }

  datatype Step = LinkSplit(t: nat, n: Id, nr: Id) | Unlink(t: nat, n: Id) | Run(t: nat)

  /** No operation has locked the leaf: neither as the one it works on nor as the one it adds. */
  predicate Unlocked(s: State, n: Id) {
    forall t :: t in s.ops ==> s.ops[t].n != n && (IsSplit(s.ops[t]) ==> s.ops[t].nr != n)
  }

  /** Operations work on leaves of the list that nobody else has locked; the first leaf stays. */
  predicate Enabled(s: State, step: Step) {
    match step
    case LinkSplit(t, n, nr) => t !in s.ops && n in s.back && Unlocked(s, n) && nr !in s.next && nr != NONE
    case Unlink(t, n) => t !in s.ops && n in s.back && n != s.first && Unlocked(s, n)
    case Run(t) => t in s.ops && Reads(s, s.ops[t])
  }

  function Next(s: State, step: Step): State
    requires Enabled(s, step)
  {
    match step
    case LinkSplit(t, n, nr) =>
      s.(ops := s.ops[t := SplitPrev(n, nr)], next := s.next[nr := Ptr(NONE, false)], prev := s.prev[nr := NONE])
    case Unlink(t, n) => s.(ops := s.ops[t := UnlinkRead(n)])
    case Run(t) => Exec(s, t)
  }

  // ---------------------------------------------------------------- invariant

  /** The operation has locked the edge that leaves x. */
  predicate Holds(op: Op, x: Id) {
    || ((op.SplitNext? || op.SplitBack? || op.SplitFinish?) && x == op.n)
    || ((op.UnlinkPrev? || op.UnlinkCasPrev? || op.UnlinkBack? || op.UnlinkFinish?) && x == op.n)
    || ((op.UnlinkBack? || op.UnlinkFinish?) && x == op.prev)
  }

  /** A locked edge: marked, or null and held by the owner of its leaf. */
  predicate Locked(s: State, x: Id, y: Id) {
    x in s.next && s.next[x] == Ptr(y, y != NONE)
  }

  predicate OpOK(s: State, op: Op) {
    && op.n in s.next && (IsSplit(op) ==> op.nr in s.next && op.nr in s.prev && op.nr != NONE && op.nr != op.n && op.nr !in s.dead)
    && match op
       case SplitPrev(n, nr) => n in s.back && nr !in s.back && nr !in s.list
       case SplitRead(n, nr) => n in s.back && nr !in s.back && nr !in s.list && s.prev[nr] == n
       case SplitCas(n, nr, seen) => n in s.back && nr !in s.back && nr !in s.list && s.prev[nr] == n && seen != NONE
       case SplitNext(n, nr, y) =>
         n in s.back && nr !in s.back && nr !in s.list && s.prev[nr] == n && Succ(s.back, n) == y && Locked(s, n, y)
       case SplitBack(n, nr, y) =>
         n in s.back && nr !in s.back && nr !in s.list && s.prev[nr] == n && Succ(s.back, n) == y && Locked(s, n, y)
         && s.next[nr] == Ptr(y, false)
       case SplitFinish(n, nr, y) =>
         && n in s.back && nr !in s.list && s.prev[nr] == n && Locked(s, n, y)
         && if y == NONE then nr !in s.back && Succ(s.back, n) == NONE && s.next[nr] == Ptr(NONE, false)
            else nr in s.back && Succ(s.back, n) == nr
       case UnlinkRead(n) => n in s.back && n != s.first
       case UnlinkCas(n, seen) => n in s.back && n != s.first && seen != NONE
       case UnlinkPrev(n, y) => n in s.back && n != s.first && Succ(s.back, n) == y && Locked(s, n, y)
       case UnlinkCasPrev(n, y, p) =>
         n in s.back && n != s.first && Succ(s.back, n) == y && Locked(s, n, y) && (p in s.back || p in s.dead)
       case UnlinkBack(n, y, p) =>
         && n in s.back && n != s.first && Succ(s.back, n) == y && Locked(s, n, y)
         && p in s.back && Succ(s.back, p) == n && Locked(s, p, n) && p != n
       case UnlinkFinish(n, y, p) =>
         && n in s.dead && n != s.first && Locked(s, n, y)
         && p in s.back && Succ(s.back, p) == y && Locked(s, p, n) && p != n
  }

  /** The edge that leaves a leaf is settled, or some operation holds it. */
  ghost predicate EdgeOK(s: State, x: Id) {
    x in s.next && (s.next[x] == Ptr(Succ(s.back, x), false) || exists t :: t in s.ops && Holds(s.ops[t], x))
  }

  /** prev is the inverse of the list. */
  predicate BackOK(s: State, x: Id) {
    Succ(s.back, x) != NONE ==> Succ(s.back, x) in s.prev && s.prev[Succ(s.back, x)] == x
  }

  /** Two operations lock different leaves and hold different edges. */
  ghost predicate Apart(v: Op, w: Op) {
    && v.n != w.n && (IsSplit(v) ==> v.nr != w.n) && (IsSplit(v) && IsSplit(w) ==> v.nr != w.nr)
    && forall x :: !(Holds(v, x) && Holds(w, x))
  }

  ghost predicate Inv(s: State) {
    && s.next.Keys == s.prev.Keys && NONE !in s.next && NONE !in s.back && s.back != [] && s.back[0] == s.first && Distinct(s.back)
    && (forall x {:trigger EdgeOK(s, x)} :: x in s.back ==> EdgeOK(s, x))
    && (forall x {:trigger BackOK(s, x)} :: x in s.back ==> BackOK(s, x))
    && (forall x :: x in s.list ==> x in s.next)
    && (forall x :: x in s.dead ==> x !in s.back && x in s.next && (s.next[x].marked || s.next[x].id == NONE))
    && (forall t {:trigger OpOK(s, s.ops[t])} :: t in s.ops ==> OpOK(s, s.ops[t]))
    && (forall t, u {:trigger Apart(s.ops[t], s.ops[u])} :: t in s.ops && u in s.ops && t != u ==> Apart(s.ops[t], s.ops[u]))
  }

  // ---------------------------------------------------------------- steps keep it

  predicate SameLeaves(v: Op, w: Op) {
    v.n == w.n && (IsSplit(v) <==> IsSplit(w)) && (IsSplit(v) ==> v.nr == w.nr)
  }

  /** The edges an operation holds leave existing leaves. */
  lemma HeldExists(s: State, u: nat, x: Id)
    requires Inv(s) && u in s.ops && Holds(s.ops[u], x)
    ensures x in s.next && x != NONE && (s.next[x].marked || (s.next[x] == Ptr(NONE, false) && x == s.ops[u].n))
  {
    assert OpOK(s, s.ops[u]);
    if x in s.back { assert EdgeOK(s, x); }
  }

  /** An operation holds neither the edge of w nor one that `op` holds. */
  ghost predicate Clear(v: Op, op: Op, w: Id) {
    forall x :: Holds(v, x) ==> x != w && !Holds(op, x)
  }

  /** The step writes no edge but that of w and no prev pointer but that of v; no other operation depends on them. */
  ghost predicate Writes(s: State, g: State, t: nat, w: Id, v: Id) {
    && t in s.ops && t in g.ops && g == s.(next := g.next, prev := g.prev, ops := s.ops[t := g.ops[t]])
    && g.next.Keys == s.next.Keys && g.prev.Keys == s.prev.Keys
    && (forall x :: x in s.next && x in g.next && x != w ==> g.next[x] == s.next[x])
    && (forall x :: x in s.prev && x in g.prev && x != v ==> g.prev[x] == s.prev[x])
    && v !in s.back && w !in s.dead && (w in s.back ==> Holds(g.ops[t], w)) && SameLeaves(s.ops[t], g.ops[t])
    && (forall x :: Holds(s.ops[t], x) ==> Holds(g.ops[t], x))
    && (forall u {:trigger Clear(s.ops[u], g.ops[t], w)} :: u in s.ops && u != t ==> Clear(s.ops[u], g.ops[t], w))
    && (forall u :: u in s.ops && u != t && IsSplit(s.ops[u]) ==>
         s.ops[u].nr != v && (s.ops[u].nr == w ==> s.ops[u].SplitFinish? && s.ops[u].next != NONE))
  }

  lemma OtherKept(s: State, g: State, t: nat, w: Id, v: Id, u: nat)
    requires Inv(s) && Writes(s, g, t, w, v) && u in s.ops && u != t
    ensures OpOK(g, s.ops[u]) && Apart(g.ops[t], s.ops[u]) && Apart(s.ops[u], g.ops[t])
  {
    assert OpOK(s, s.ops[u]) && Apart(s.ops[t], s.ops[u]) && Apart(s.ops[u], s.ops[t]) && Clear(s.ops[u], g.ops[t], w);
  }

  lemma Kept(s: State, g: State, t: nat, w: Id, v: Id)
    requires Inv(s) && Writes(s, g, t, w, v) && OpOK(g, g.ops[t])
    ensures Inv(g)
  {
    forall x | x in g.back ensures EdgeOK(g, x) {
      assert EdgeOK(s, x);
      if exists u :: u in s.ops && Holds(s.ops[u], x) {
        var u :| u in s.ops && Holds(s.ops[u], x);
        assert u in g.ops && Holds(g.ops[u], x);
      } else if x == w {
        assert t in g.ops && Holds(g.ops[t], x);
      }
    }
    forall x | x in g.back ensures BackOK(g, x) {
      assert BackOK(s, x);
      SuccIn(s.back, x);
    }
    forall u | u in g.ops ensures OpOK(g, g.ops[u]) {
      if u != t { OtherKept(s, g, t, w, v, u); }
    }
    forall a, b | a in g.ops && b in g.ops && a != b ensures Apart(g.ops[a], g.ops[b]) {
      if a == t { OtherKept(s, g, t, w, v, b); }
      else if b == t { OtherKept(s, g, t, w, v, a); }
      else { assert Apart(s.ops[a], s.ops[b]); }
    }
  }

  /** A null edge is held only by the operation that works on its leaf. */
  lemma NotHeldTwice(s: State, t: nat, u: nat)
    requires Inv(s) && t in s.ops && u in s.ops && u != t && s.ops[t].n in s.next && s.next[s.ops[t].n] == Ptr(NONE, false)
    ensures !Holds(s.ops[u], s.ops[t].n)
  {
    assert OpOK(s, s.ops[u]) && Apart(s.ops[u], s.ops[t]);
    if Holds(s.ops[u], s.ops[t].n) { HeldExists(s, u, s.ops[t].n); }
  }

  /** A step that only moves its operation on, possibly taking hold of a null edge of its own leaf. */
  lemma MoveKept(s: State, t: nat, op: Op)
    requires Inv(s) && t in s.ops && SameLeaves(s.ops[t], op) && OpOK(s, op)
    requires forall x :: Holds(s.ops[t], x) ==> Holds(op, x)
    requires forall x :: Holds(op, x) && !Holds(s.ops[t], x) ==> x == op.n && s.next[op.n] == Ptr(NONE, false)
    ensures Inv(Go(s, t, op))
  {
    var g := Go(s, t, op);
    assert g.ops[t] == op;
    forall u | u in s.ops && u != t ensures Clear(s.ops[u], g.ops[t], NONE) {
      assert Apart(s.ops[u], s.ops[t]);
      forall x | Holds(s.ops[u], x) ensures x != NONE && !Holds(op, x) {
        HeldExists(s, u, x);
        if x == op.n && !Holds(s.ops[t], x) && Holds(op, x) { NotHeldTwice(s, t, u); }
      }
    }
    forall u | u in s.ops && u != t && IsSplit(s.ops[u]) ensures s.ops[u].nr != NONE { assert OpOK(s, s.ops[u]); }
    assert g.ops[t] == op && NONE !in s.dead;
    assert Writes(s, g, t, NONE, NONE);
    Kept(s, g, t, NONE, NONE);
  }

  /** Locking an edge that nobody holds. */
  lemma LockKept(s: State, t: nat, op: Op, x: Id, y: Id)
    requires Inv(s) && t in s.ops && SameLeaves(s.ops[t], op) && x in s.back && x in s.next && s.next[x] == Ptr(y, false) && y != NONE
    requires Holds(op, x) && (forall z :: Holds(s.ops[t], z) ==> Holds(op, z)) && (forall z :: Holds(op, z) ==> z == x || Holds(s.ops[t], z))
    requires OpOK(Store(s, x, Ptr(y, true)), op)
    ensures Inv(Go(Store(s, x, Ptr(y, true)), t, op))
  {
    var g := Go(Store(s, x, Ptr(y, true)), t, op);
    forall u | u in s.ops && u != t ensures Clear(s.ops[u], op, x) {
      assert Apart(s.ops[u], s.ops[t]);
      forall z | Holds(s.ops[u], z) ensures z != x && !Holds(op, z) { HeldExists(s, u, z); }
    }
    forall u | u in s.ops && u != t && IsSplit(s.ops[u])
      ensures s.ops[u].nr != NONE && (s.ops[u].nr == x ==> s.ops[u].SplitFinish? && s.ops[u].next != NONE)
    {
      assert OpOK(s, s.ops[u]);
    }
    assert g.ops[t] == op;
    assert Writes(s, g, t, x, NONE);
    Kept(s, g, t, x, NONE);
  }

  // ---------------------------------------------------------------- reads, locks and private writes

  lemma ReadKeeps(s: State, t: nat)
    requires Inv(s) && t in s.ops && (s.ops[t].SplitRead? || s.ops[t].UnlinkRead? || s.ops[t].UnlinkPrev?)
    ensures Reads(s, s.ops[t]) && Inv(Exec(s, t))
  {
    var op := s.ops[t];
    assert OpOK(s, op) && EdgeOK(s, op.n);
    if op.UnlinkPrev? {
      var p := PredOf(s.back, op.n);
      assert BackOK(s, p);
      MoveKept(s, t, UnlinkCasPrev(op.n, op.next, s.prev[op.n]));
    } else if s.next[op.n].id == NONE {
      NullEdge(s, t);
      MoveKept(s, t, if op.SplitRead? then SplitNext(op.n, op.nr, NONE) else UnlinkPrev(op.n, NONE));
    } else if !s.next[op.n].marked {
      MoveKept(s, t, if op.SplitRead? then SplitCas(op.n, op.nr, s.next[op.n].id) else UnlinkCas(op.n, s.next[op.n].id));
    }
  }

  /** A null edge of the leaf an operation works on, not yet held by it, is settled. */
  lemma NullEdge(s: State, t: nat)
    requires Inv(s) && t in s.ops && (s.ops[t].SplitRead? || s.ops[t].UnlinkRead?) && s.ops[t].n in s.next && s.next[s.ops[t].n].id == NONE
    ensures s.next[s.ops[t].n] == Ptr(NONE, false) && Succ(s.back, s.ops[t].n) == NONE
  {
    var n := s.ops[t].n;
    assert OpOK(s, s.ops[t]) && EdgeOK(s, n);
    if u :| u in s.ops && Holds(s.ops[u], n) {
      HeldOther(s, t, u, n);
    }
  }

  /** An edge held by another operation than the one working on its leaf is marked towards a leaf. */
  lemma HeldOther(s: State, t: nat, u: nat, n: Id)
    requires Inv(s) && t in s.ops && u in s.ops && s.ops[t].n == n && !Holds(s.ops[t], n) && Holds(s.ops[u], n)
    ensures n in s.next && s.next[n].marked && s.next[n].id != NONE
  {
    assert OpOK(s, s.ops[u]) && Apart(s.ops[t], s.ops[u]) && Apart(s.ops[u], s.ops[t]);
  }

  lemma CasKeeps(s: State, t: nat)
    requires Inv(s) && t in s.ops && (s.ops[t].SplitCas? || s.ops[t].UnlinkCas?)
    ensures Reads(s, s.ops[t]) && Inv(Exec(s, t))
  {
    var op := s.ops[t];
    assert OpOK(s, op) && EdgeOK(s, op.n);
    if s.next[op.n] == Ptr(op.seen, false) {
      if u :| u in s.ops && Holds(s.ops[u], op.n) {
        HeldOther(s, t, u, op.n);
      }
      LockKept(s, t, if op.SplitCas? then SplitNext(op.n, op.nr, op.seen) else UnlinkPrev(op.n, op.seen), op.n, op.seen);
    } else {
      MoveKept(s, t, if op.SplitCas? then SplitRead(op.n, op.nr) else UnlinkRead(op.n));
    }
  }

  lemma CasPrevKeeps(s: State, t: nat)
    requires Inv(s) && t in s.ops && s.ops[t].UnlinkCasPrev?
    ensures Reads(s, s.ops[t]) && Inv(Exec(s, t))
  {
    var op := s.ops[t];
    assert OpOK(s, op);
    if op.prev in s.back { assert EdgeOK(s, op.prev); }
    assert EdgeOK(s, op.n);
    if s.next[op.prev] == Ptr(op.n, false) {
      if u :| u in s.ops && Holds(s.ops[u], op.prev) {
        HeldExists(s, u, op.prev);
      }
      SuccIn(s.back, op.prev);
      LockKept(s, t, UnlinkBack(op.n, op.next, op.prev), op.prev, op.n);
    } else {
      MoveKept(s, t, UnlinkPrev(op.n, op.next));
    }
  }

  lemma PrivateKeeps(s: State, t: nat)
    requires Inv(s) && t in s.ops && (s.ops[t].SplitPrev? || s.ops[t].SplitNext?)
    ensures Reads(s, s.ops[t]) && Inv(Exec(s, t))
  {
    var op := s.ops[t];
    assert OpOK(s, op);
    var g := Exec(s, t);
    var w, v := if op.SplitNext? then op.nr else NONE, if op.SplitPrev? then op.nr else NONE;
    forall u | u in s.ops && u != t ensures Clear(s.ops[u], g.ops[t], w)
      && (IsSplit(s.ops[u]) ==> s.ops[u].nr != w && s.ops[u].nr != v)
    {
      assert OpOK(s, s.ops[u]) && Apart(s.ops[t], s.ops[u]) && Apart(s.ops[u], s.ops[t]);
      forall x | Holds(s.ops[u], x) ensures x != w && !Holds(g.ops[t], x) { HeldExists(s, u, x); }
    }
    assert Writes(s, g, t, w, v);
    Kept(s, g, t, w, v);
  }

  // ---------------------------------------------------------------- stores that change the lists

  /** Two leaves with the same successor are the same. */
  lemma SuccOnce(s: State, x: Id, y: Id)
    requires Inv(s) && Succ(s.back, x) == Succ(s.back, y) != NONE
    ensures x == y
  {
    SuccIn(s.back, x);
    SuccIn(s.back, y);
    assert BackOK(s, x) && BackOK(s, y);
  }

  lemma ApartMoved(v: Op, v': Op, w: Op)
    requires SameLeaves(v, v') && (forall x :: Holds(v', x) ==> Holds(v, x)) && Apart(v, w) && Apart(w, v)
    ensures Apart(v', w) && Apart(w, v')
  {
  }

  /** An operation is not disturbed by a change of `back` away from its leaves. */
  lemma OpMoved(s: State, g: State, w: Op)
    requires OpOK(s, w) && s.next.Keys == s.prev.Keys && g.next == s.next && g.prev.Keys == s.prev.Keys
    requires g.first == s.first && g.list == s.list
    requires w.n in s.back ==> w.n in g.back
    requires forall x :: Holds(w, x) && x in s.back ==> x in g.back && Succ(g.back, x) == Succ(s.back, x)
    requires IsSplit(w) ==> (w.nr in g.back <==> w.nr in s.back) && w.nr !in g.dead && g.prev[w.nr] == s.prev[w.nr]
    requires (forall x :: x in s.back ==> x in g.back || x in g.dead) && (forall x :: x in s.dead ==> x in g.dead)
    ensures OpOK(g, w)
  {
    assert Holds(w, w.n) || !Holds(w, w.n);
    assert w.UnlinkBack? || w.UnlinkFinish? ==> Holds(w, w.prev);
  }

  /** What two operations have in common when one is about to change the successor of its leaf. */
  lemma OtherFacts(s: State, t: nat, u: nat)
    requires Inv(s) && t in s.ops && u in s.ops && u != t && (s.ops[t].SplitBack? || s.ops[t].UnlinkBack?)
    ensures var op, w := s.ops[t], s.ops[u];
      && OpOK(s, op) && OpOK(s, w) && w.n != op.n && (forall x :: Holds(w, x) ==> x != op.n && (op.UnlinkBack? ==> x != op.prev))
      && (IsSplit(w) ==> w.nr != op.n && w.nr != op.next && (op.SplitBack? ==> w.nr != op.nr))
  {
    var op, w := s.ops[t], s.ops[u];
    assert OpOK(s, op) && OpOK(s, w) && Apart(op, w) && Apart(w, op);
    assert Holds(op, op.n) && (op.UnlinkBack? ==> Holds(op, op.prev));
    SuccIn(s.back, op.n);
    if IsSplit(w) && w.nr == op.next { NewNotNext(s, t, u); }
  }

  /** The leaf another operation is adding does not follow the leaf this one works on. */
  lemma NewNotNext(s: State, t: nat, u: nat)
    requires Inv(s) && t in s.ops && u in s.ops && u != t && (s.ops[t].SplitBack? || s.ops[t].UnlinkBack?) && IsSplit(s.ops[u])
    ensures s.ops[u].nr != s.ops[t].next
  {
    var op, w := s.ops[t], s.ops[u];
    assert OpOK(s, op) && OpOK(s, w) && Apart(op, w);
    SuccIn(s.back, op.n);
    if w.SplitFinish? && w.next != NONE && w.nr == op.next { SuccOnce(s, w.n, op.n); }
  }

  /** The new leaf is placed behind n for the prev pointers. */
  lemma PlacedOther(s: State, g: State, n: Id, nr: Id, y: Id, w: Op)
    requires Distinct(s.back) && n in s.back && nr !in s.back && s.next.Keys == s.prev.Keys && y in s.prev && y != NONE
    requires OpOK(s, w) && w.n != n && (forall x :: Holds(w, x) ==> x != n) && (IsSplit(w) ==> w.nr != nr && w.nr != y)
    requires g.next == s.next && g.prev == s.prev[y := nr] && g.back == InsertAfter(s.back, n, nr)
    requires g.first == s.first && g.list == s.list && g.dead == s.dead
    ensures OpOK(g, w)
  {
    InsertIn(s.back, n, nr);
    forall x | Holds(w, x) && x in s.back ensures x in g.back && Succ(g.back, x) == Succ(s.back, x) {
      SuccInsert(s.back, n, nr, x);
    }
    OpMoved(s, g, w);
  }

  lemma PlacedBack(s: State, t: nat, x: Id)
    requires Inv(s) && t in s.ops && s.ops[t].SplitBack? && s.ops[t].next != NONE && Reads(s, s.ops[t])
    requires x in s.back || x == s.ops[t].nr
    ensures BackOK(Exec(s, t), x)
  {
    var op := s.ops[t];
    assert OpOK(s, op);
    InsertIn(s.back, op.n, op.nr);
    SuccIn(s.back, op.n);
    SuccInsert(s.back, op.n, op.nr, x);
    if x != op.n && x != op.nr {
      assert BackOK(s, x);
      SuccIn(s.back, x);
      if Succ(s.back, x) == op.next { SuccOnce(s, x, op.n); }
    }
  }

  lemma PlacedEdges(s: State, t: nat, x: Id)
    requires Inv(s) && t in s.ops && s.ops[t].SplitBack? && s.ops[t].next != NONE && Reads(s, s.ops[t]) && x in Exec(s, t).back
    ensures EdgeOK(Exec(s, t), x) && BackOK(Exec(s, t), x)
  {
    var op, g := s.ops[t], Exec(s, t);
    assert OpOK(s, op);
    InsertIn(s.back, op.n, op.nr);
    SuccInsert(s.back, op.n, op.nr, x);
    PlacedBack(s, t, x);
    if x == op.n {
      assert t in g.ops && Holds(g.ops[t], x);
    } else if x != op.nr {
      assert EdgeOK(s, x);
      if u :| u in s.ops && Holds(s.ops[u], x) { assert u in g.ops && Holds(g.ops[u], x); }
    }
  }

  lemma PlacedOps(s: State, t: nat, u: nat)
    requires Inv(s) && t in s.ops && s.ops[t].SplitBack? && s.ops[t].next != NONE && Reads(s, s.ops[t]) && u in s.ops
    ensures OpOK(Exec(s, t), Exec(s, t).ops[u])
  {
    var op := s.ops[t];
    assert OpOK(s, op);
    SuccIn(s.back, op.n);
    assert EdgeOK(s, op.next);
    if u != t {
      OtherFacts(s, t, u);
      PlacedOther(s, Exec(s, t), op.n, op.nr, op.next, s.ops[u]);
    } else {
      InsertIn(s.back, op.n, op.nr);
      SuccInsert(s.back, op.n, op.nr, op.n);
    }
  }

  lemma PlaceKeeps(s: State, t: nat)
    requires Inv(s) && t in s.ops && s.ops[t].SplitBack? && s.ops[t].next != NONE
    ensures Reads(s, s.ops[t]) && Inv(Exec(s, t))
  {
    var op := s.ops[t];
    assert OpOK(s, op);
    var g := Exec(s, t);
    InsertIn(s.back, op.n, op.nr);
    SuccIn(s.back, op.n);
    assert EdgeOK(s, op.next);
    forall x | x in g.back ensures EdgeOK(g, x) && BackOK(g, x) { PlacedEdges(s, t, x); }
    forall u | u in g.ops ensures OpOK(g, g.ops[u]) { PlacedOps(s, t, u); }
    OpsApart(s, g, t);
  }

  lemma OpsApart(s: State, g: State, t: nat)
    requires Inv(s) && t in s.ops && t in g.ops && g.ops == s.ops[t := g.ops[t]]
    requires SameLeaves(s.ops[t], g.ops[t]) && forall x :: Holds(g.ops[t], x) ==> Holds(s.ops[t], x)
    ensures forall a, b :: a in g.ops && b in g.ops && a != b ==> Apart(g.ops[a], g.ops[b])
  {
    forall a, b | a in g.ops && b in g.ops && a != b ensures Apart(g.ops[a], g.ops[b]) {
      assert Apart(s.ops[a], s.ops[b]) && Apart(s.ops[b], s.ops[a]);
      if a == t { ApartMoved(s.ops[t], g.ops[t], s.ops[b]); } else if b == t { ApartMoved(s.ops[t], g.ops[t], s.ops[a]); }
    }
  }

  lemma UnplacedOther(s: State, g: State, n: Id, p: Id, w: Op)
    requires Distinct(s.back) && NONE !in s.back && n in s.back && Succ(s.back, p) == n && s.next.Keys == s.prev.Keys
    requires OpOK(s, w) && w.n != n && (forall x :: Holds(w, x) ==> x != n && x != p) && (IsSplit(w) ==> w.nr != n)
    requires g.next == s.next && g.prev.Keys == s.prev.Keys && g.back == Remove(s.back, n)
    requires IsSplit(w) && w.nr in s.prev ==> g.prev[w.nr] == s.prev[w.nr]
    requires g.first == s.first && g.list == s.list && g.dead == s.dead + {n}
    ensures OpOK(g, w)
  {
    RemoveIn(s.back, n);
    forall x | Holds(w, x) && x in s.back ensures x in g.back && Succ(g.back, x) == Succ(s.back, x) {
      SuccRemove(s.back, p, n, x);
    }
    OpMoved(s, g, w);
  }

  lemma UnplacedEdges(s: State, t: nat, x: Id)
    requires Inv(s) && t in s.ops && s.ops[t].UnlinkBack? && Reads(s, s.ops[t]) && x in Exec(s, t).back
    ensures EdgeOK(Exec(s, t), x) && BackOK(Exec(s, t), x)
  {
    var op, g := s.ops[t], Exec(s, t);
    assert OpOK(s, op);
    RemoveIn(s.back, op.n);
    SuccRemove(s.back, op.prev, op.n, x);
    assert t in g.ops && Holds(g.ops[t], op.prev);
    assert EdgeOK(s, x);
    if u :| u in s.ops && Holds(s.ops[u], x) { assert u in g.ops && Holds(g.ops[u], x); }
    UnplacedBack(s, t, x);
  }

  lemma UnplacedBack(s: State, t: nat, x: Id)
    requires Inv(s) && t in s.ops && s.ops[t].UnlinkBack? && Reads(s, s.ops[t]) && x in s.back && x != s.ops[t].n
    ensures BackOK(Exec(s, t), x)
  {
    var op := s.ops[t];
    assert OpOK(s, op) && BackOK(s, x);
    SuccIn(s.back, op.n);
    SuccIn(s.back, x);
    SuccRemove(s.back, op.prev, op.n, x);
    if Succ(s.back, x) == op.next != NONE { SuccOnce(s, x, op.n); }
  }

  lemma UnplacedOps(s: State, t: nat, u: nat)
    requires Inv(s) && t in s.ops && s.ops[t].UnlinkBack? && Reads(s, s.ops[t]) && u in s.ops
    ensures OpOK(Exec(s, t), Exec(s, t).ops[u])
  {
    var op := s.ops[t];
    assert OpOK(s, op);
    if u != t {
      OtherFacts(s, t, u);
      SuccIn(s.back, op.n);
      assert op.next != NONE ==> EdgeOK(s, op.next);
      UnplacedOther(s, Exec(s, t), op.n, op.prev, s.ops[u]);
    } else {
      RemoveIn(s.back, op.n);
      SuccRemove(s.back, op.prev, op.n, op.prev);
    }
  }

  lemma UnplaceKeeps(s: State, t: nat)
    requires Inv(s) && t in s.ops && s.ops[t].UnlinkBack?
    ensures Reads(s, s.ops[t]) && Inv(Exec(s, t))
  {
    var op := s.ops[t];
    assert OpOK(s, op);
    var g := Exec(s, t);
    RemoveIn(s.back, op.n);
    SuccIn(s.back, op.n);
    forall x | x in g.back ensures EdgeOK(g, x) && BackOK(g, x) { UnplacedEdges(s, t, x); }
    forall u | u in g.ops ensures OpOK(g, g.ops[u]) { UnplacedOps(s, t, u); }
    OpsApart(s, g, t);
  }

  /** The last store of an operation releases the edge it wrote; `back` does not change. */
  lemma ReleaseKeeps(s: State, t: nat)
    requires Inv(s) && t in s.ops && (s.ops[t].UnlinkFinish? || (s.ops[t].SplitFinish? && s.ops[t].next != NONE))
    ensures Reads(s, s.ops[t]) && Inv(Exec(s, t))
  {
    var op := s.ops[t];
    assert OpOK(s, op);
    var g := Exec(s, t);
    var w := if op.UnlinkFinish? then op.prev else op.n;
    assert Holds(op, w);
    forall x | x in g.back ensures EdgeOK(g, x) {
      assert EdgeOK(s, x);
      if u :| u in s.ops && Holds(s.ops[u], x) && u != t { assert u in g.ops && Holds(g.ops[u], x) && Apart(op, s.ops[u]); }
    }
    forall x | x in g.back ensures BackOK(g, x) { assert BackOK(s, x); }
    ListKept(s, t);
    forall u | u in g.ops ensures OpOK(g, g.ops[u]) {
      assert OpOK(s, s.ops[u]) && Apart(op, s.ops[u]) && Apart(s.ops[u], op);
    }
    forall a, b | a in g.ops && b in g.ops && a != b ensures Apart(g.ops[a], g.ops[b]) { assert Apart(s.ops[a], s.ops[b]); }
  }

  lemma {:induction false} InsertSubset(o: seq<Id>, n: Id, r: Id, x: Id)
    ensures x in InsertAfter(o, n, r) ==> x == r || x in o
  {
    if o != [] && o[0] != n { InsertSubset(o[1..], n, r, x); }
  }

  lemma {:induction false} RemoveSubset(o: seq<Id>, n: Id, x: Id)
    ensures x in Remove(o, n) ==> x in o
  {
    if o != [] && o[0] != n { RemoveSubset(o[1..], n, x); }
  }

  lemma ListKept(s: State, t: nat)
    requires Inv(s) && t in s.ops && Reads(s, s.ops[t]) && (s.ops[t].UnlinkFinish? || s.ops[t].SplitFinish?)
    ensures forall x :: x in Exec(s, t).list ==> x in s.list || (s.ops[t].SplitFinish? && x == s.ops[t].nr)
  {
    var op := s.ops[t];
    forall x | x in Exec(s, t).list ensures x in s.list || (op.SplitFinish? && x == op.nr) {
      if op.SplitFinish? { InsertSubset(s.list, op.n, op.nr, x); } else { RemoveSubset(s.list, op.n, x); }
    }
  }

  lemma AppendKeeps(s: State, t: nat)
    requires Inv(s) && t in s.ops && s.ops[t].SplitFinish? && s.ops[t].next == NONE
    ensures Reads(s, s.ops[t]) && Inv(Exec(s, t))
  {
    var op := s.ops[t];
    assert OpOK(s, op);
    var g := Exec(s, t);
    InsertIn(s.back, op.n, op.nr);
    ListKept(s, t);
    assert Holds(op, op.n);
    forall x | x in g.back ensures EdgeOK(g, x) && BackOK(g, x) {
      SuccInsert(s.back, op.n, op.nr, x);
      if x != op.nr && x != op.n {
        assert EdgeOK(s, x) && BackOK(s, x);
        SuccIn(s.back, x);
        if u :| u in s.ops && Holds(s.ops[u], x) { assert u in g.ops && Holds(g.ops[u], x); }
      }
    }
    forall u | u in g.ops ensures OpOK(g, g.ops[u]) {
      var w := s.ops[u];
      assert OpOK(s, w) && Apart(op, w) && Apart(w, op);
      SuccInsert(s.back, op.n, op.nr, w.n);
      if w.UnlinkBack? || w.UnlinkFinish? {
        assert Holds(w, w.prev);
        SuccInsert(s.back, op.n, op.nr, w.prev);
      }
    }
    forall a, b | a in g.ops && b in g.ops && a != b ensures Apart(g.ops[a], g.ops[b]) { assert Apart(s.ops[a], s.ops[b]); }
  }

  lemma StartOp(s: State, g: State, w: Op)
    requires OpOK(s, w) && g.back == s.back && g.list == s.list && g.dead == s.dead && g.first == s.first
    requires forall x :: x in s.next ==> x in g.next && g.next[x] == s.next[x]
    requires forall x :: x in s.prev ==> x in g.prev && g.prev[x] == s.prev[x]
    ensures OpOK(g, w)
  {
  }

  lemma StartEdges(s: State, step: Step)
    requires Inv(s) && Enabled(s, step) && !step.Run?
    ensures forall x :: x in s.back ==> EdgeOK(Next(s, step), x) && BackOK(Next(s, step), x) && x in s.next
  {
    var g := Next(s, step);
    forall x | x in s.back ensures EdgeOK(g, x) && BackOK(g, x) && x in s.next {
      assert EdgeOK(s, x) && BackOK(s, x);
      SuccIn(s.back, x);
      if u :| u in s.ops && Holds(s.ops[u], x) { assert u in g.ops && Holds(g.ops[u], x); }
    }
  }

  lemma StartApart(s: State, step: Step, u: nat)
    requires Inv(s) && Enabled(s, step) && !step.Run? && u in s.ops
    ensures Apart(Next(s, step).ops[step.t], s.ops[u]) && Apart(s.ops[u], Next(s, step).ops[step.t])
  {
    assert OpOK(s, s.ops[u]);
  }

  lemma StartKeeps(s: State, step: Step)
    requires Inv(s) && Enabled(s, step) && !step.Run?
    ensures Inv(Next(s, step))
  {
    var g := Next(s, step);
    StartEdges(s, step);
    forall u | u in g.ops ensures OpOK(g, g.ops[u]) {
      if u != step.t { StartOp(s, g, s.ops[u]); }
    }
    forall a, b | a in g.ops && b in g.ops && a != b ensures Apart(g.ops[a], g.ops[b]) {
      if a != step.t && b != step.t { assert Apart(s.ops[a], s.ops[b]); }
      else { StartApart(s, step, if a != step.t then a else b); }
    }
  }

  /** Every step of every interleaving keeps the invariant. */
  lemma StepKeepsInv(s: State, step: Step)
    requires Inv(s) && Enabled(s, step)
    ensures Inv(Next(s, step))
  {
    if step.Run? {
      var op := s.ops[step.t];
      if op.SplitRead? || op.UnlinkRead? || op.UnlinkPrev? { ReadKeeps(s, step.t); }
      else if op.SplitCas? || op.UnlinkCas? { CasKeeps(s, step.t); }
      else if op.UnlinkCasPrev? { CasPrevKeeps(s, step.t); }
      else if op.SplitPrev? || op.SplitNext? { PrivateKeeps(s, step.t); }
      else if op.SplitBack? {
        assert OpOK(s, op);
        if op.next == NONE { MoveKept(s, step.t, SplitFinish(op.n, op.nr, NONE)); } else { PlaceKeeps(s, step.t); }
      }
      else if op.UnlinkBack? { UnplaceKeeps(s, step.t); }
      else if op.SplitFinish? && op.next == NONE { AppendKeeps(s, step.t); }
      else { ReleaseKeeps(s, step.t); }
    } else {
      StartKeeps(s, step);
    }
  }

  // ---------------------------------------------------------------- what readers see

  /** Following next pointers from the first leaf, marks ignored, runs through exactly these leaves. */
  ghost predicate ReadersSee(s: State, o: seq<Id>) {
    && o != [] && o[0] == s.first && Distinct(o) && NONE !in o
    && forall x :: x in o ==> x in s.next && s.next[x].id == Succ(o, x)
  }

  /** The leaf reached after k links. */
  function Walk(next: map<Id, Ptr>, x: Id, k: nat): Id
    decreases k
  {
    if k == 0 || x !in next then x else Walk(next, next[x].id, k - 1)
  }

  lemma {:induction false} SuccAt(o: seq<Id>, k: nat)
    requires Distinct(o) && k < |o|
    ensures Succ(o, o[k]) == if k + 1 < |o| then o[k + 1] else NONE
  {
    if k > 0 {
      assert o[k] in o[1..];
      SuccAt(o[1..], k - 1);
    }
  }

  /** In every state, prev leads from each leaf of `back` to the leaf before it. */
  lemma PrevInverse(s: State, x: Id)
    requires Inv(s) && x in s.back && Succ(s.back, x) != NONE
    ensures Succ(s.back, x) in s.back && Succ(s.back, x) in s.prev && s.prev[Succ(s.back, x)] == x
  {
    assert BackOK(s, x);
    SuccIn(s.back, x);
  }

  /** Whenever no edge of the list is marked, readers see `back`, and prev is the inverse of next. */
  lemma QuietList(s: State)
    requires Inv(s) && forall x :: x in s.back && x in s.next ==> !s.next[x].marked
    ensures ReadersSee(s, s.back)
    ensures forall x :: x in s.back && s.next[x].id != NONE ==> s.next[x].id in s.prev && s.prev[s.next[x].id] == x
  {
    forall x | x in s.back ensures x in s.next && s.next[x].id == Succ(s.back, x) {
      assert EdgeOK(s, x);
      if u :| u in s.ops && Holds(s.ops[u], x) {
        assert OpOK(s, s.ops[u]);
      }
    }
    forall x | x in s.back && s.next[x].id != NONE ensures s.next[x].id in s.prev && s.prev[s.next[x].id] == x {
      assert BackOK(s, x);
    }
  }

  /** How a step that is nobody's last store moves its operation and `back`. */
  lemma Moves(s: State, step: Step)
    requires Inv(s) && Enabled(s, step) && (step.Run? ==> !s.ops[step.t].SplitFinish? && !s.ops[step.t].UnlinkFinish?)
    ensures var g, t := Next(s, step), step.t;
      && t in g.ops && g.ops == s.ops[t := g.ops[t]]
      && (forall x :: x in g.back ==> x in s.back || (g.ops[t].SplitFinish? && g.ops[t].nr == x))
      && (g.ops[t].SplitFinish? ==>
           t in s.ops && s.ops[t].SplitBack? && g.ops[t] == SplitFinish(s.ops[t].n, s.ops[t].nr, s.ops[t].next) && g.next == s.next)
  {
    if step.Run? {
      var op := s.ops[step.t];
      assert OpOK(s, op);
      if op.SplitBack? { InsertIn(s.back, op.n, op.nr); }
      if op.UnlinkBack? { RemoveIn(s.back, op.n); }
    }
  }

  /** Only a last store, and the first store to a private leaf, change where a next pointer leads. */
  lemma SameIds(s: State, step: Step)
    requires Enabled(s, step) && (step.Run? ==> !s.ops[step.t].SplitFinish? && !s.ops[step.t].UnlinkFinish?)
    ensures Next(s, step).first == s.first && Next(s, step).list == s.list
    ensures forall x :: x in s.next ==>
      (x in Next(s, step).next
       && (Next(s, step).next[x].id == s.next[x].id || (step.Run? && s.ops[step.t].SplitNext? && x == s.ops[step.t].nr)))
  {
  }

  // ---------------------------------------------------------------- runs

  predicate Init(s: State) {
    && s.ops == map[] && s.dead == {} && s.first != NONE && s.back == s.list == [s.first]
    && s.next == map[s.first := Ptr(NONE, false)] && s.prev == map[s.first := NONE]
  }

  ghost predicate IsRun(states: seq<State>, steps: seq<Step>) {
    && |states| == |steps| + 1 && Init(states[0])
    && forall i :: 0 <= i < |steps| ==> Enabled(states[i], steps[i]) && states[i + 1] == Next(states[i], steps[i])
  }

  lemma InitInv(s: State)
    requires Init(s)
    ensures Inv(s)
  {
    assert s.back[1..] == [];
  }

  /** The invariant, and with it prev as the inverse of `back`, holds in every state of every run. */
  lemma {:induction false} RunInv(states: seq<State>, steps: seq<Step>, i: nat)
    requires IsRun(states, steps) && i < |states|
    ensures Inv(states[i])
  {
    if i == 0 {
      InitInv(states[0]);
    } else {
      RunInv(states, steps, i - 1);
      assert states[i - 1 + 1] == Next(states[i - 1], steps[i - 1]);
      StepKeepsInv(states[i - 1], steps[i - 1]);
    }
  }

  /** In every run, an operation under way always finds the leaves its next step reads. */
  lemma NeverStuck(states: seq<State>, steps: seq<Step>, i: nat, t: nat)
    requires IsRun(states, steps) && i < |states| && t in states[i].ops
    ensures Enabled(states[i], Run(t))
  {
    RunInv(states, steps, i);
    assert OpOK(states[i], states[i].ops[t]);
    if states[i].ops[t].UnlinkBack? || states[i].ops[t].UnlinkFinish? { assert EdgeOK(states[i], states[i].ops[t].prev); }
    if states[i].ops[t].UnlinkCasPrev? && states[i].ops[t].prev in states[i].back { assert EdgeOK(states[i], states[i].ops[t].prev); }
  }
}
