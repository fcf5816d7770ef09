/**
 The upgradable reader-writer spin lock, as a step machine over its 32-bit word: every
 atomic operation on the word is one step, so a failed shared attempt and both
 downgrades of a writer take two.
 */
module RwSpinLock {

  const READER: int := 4
  const UPGRADED: int := 2
  const WRITER: int := 1
  const WORD: int := 0x1_0000_0000

  /** The reader count has 30 bits. */
  const MAX_THREADS: int := 0x4000_0000

  /**
   What a thread holds, or is in the middle of: backing out of a failed shared attempt, or
   turning a write lock into a read lock or an upgrade lock.
   */
  datatype Role = Nothing | Reader | Upgrader | Writer | BackingOut | ToReader | ToUpgrader

  datatype State = State(bits: int, roles: seq<Role>)

  /** fetch_add on a 32-bit word. */
  function Add(bits: int, d: int): int {
    (bits + d) % WORD
  }

  function Flag(bits: int): bool {
    bits / UPGRADED % 2 == 1
  }

  /** fetch_or of the upgrade bit. */
  function OrUpgraded(bits: int): int {
    if Flag(bits) then bits else bits + UPGRADED
  }

  /** fetch_and that clears the writer and upgrade bits. */
  function ClearBits(bits: int): int {
    bits - bits % READER
  }

  datatype Op =
    | TryLock
    | Unlock
    | TryLockShared
    | BackOut
    | UnlockShared
    | DowngradeToShared
    | FinishToShared
    | TryLockUpgrade
    | UnlockUpgrade
    | TryUpgradeToWriter
    | UpgradeToShared
    | DowngradeToUpgrade
    | FinishToUpgrade

  /** Each operation is called by a thread that holds what it gives up. */
  predicate May(r: Role, op: Op) {
    match op
    case TryLock => r.Nothing?
    case Unlock => r.Writer?
    case TryLockShared => r.Nothing?
    case BackOut => r.BackingOut?
    case UnlockShared => r.Reader?
    case DowngradeToShared => r.Writer?
    case FinishToShared => r.ToReader?
    case TryLockUpgrade => r.Nothing?
    case UnlockUpgrade => r.Upgrader?
    case TryUpgradeToWriter => r.Upgrader?
    case UpgradeToShared => r.Upgrader?
    case DowngradeToUpgrade => r.Writer?
    case FinishToUpgrade => r.ToUpgrader?
  }

  /** The new word and what the thread then holds. */
  function Effect(bits: int, r: Role, op: Op): (int, Role) {
    match op
    case TryLock => if bits == 0 then (WRITER, Writer) else (bits, r)
    case Unlock => (ClearBits(bits), Nothing)
    case TryLockShared => (Add(bits, READER), if bits % READER == 0 then Reader else BackingOut)
    case BackOut => (Add(bits, -READER), Nothing)
    case UnlockShared => (Add(bits, -READER), Nothing)
    case DowngradeToShared => (Add(bits, READER), ToReader)
    case FinishToShared => (ClearBits(bits), Reader)
    case TryLockUpgrade => (OrUpgraded(bits), if bits % READER == 0 then Upgrader else Nothing)
    case UnlockUpgrade => (Add(bits, -UPGRADED), Nothing)
    case TryUpgradeToWriter => if bits == UPGRADED then (WRITER, Writer) else (bits, r)
    case UpgradeToShared => (Add(bits, READER - UPGRADED), Reader)
    case DowngradeToUpgrade => (OrUpgraded(bits), ToUpgrader)
    case FinishToUpgrade => (Add(bits, -WRITER), Upgrader)
  }

  predicate Enabled(s: State, t: nat, op: Op) {
    t < |s.roles| && May(s.roles[t], op)
  }

  function Next(s: State, t: nat, op: Op): State
    requires Enabled(s, t, op)
  {
    var (bits, r) := Effect(s.bits, s.roles[t], op);
    State(bits, s.roles[t := r])
  }

  // ---------------------------------------------------------------- invariant

  /** The thread's share of the reader count. */
  function Counted(r: Role): nat {
    if r.Reader? || r.BackingOut? || r.ToReader? then 1 else 0
  }

  predicate Writes(r: Role) {
    r.Writer? || r.ToReader? || r.ToUpgrader?
  }

  function WriterShare(r: Role): nat {
    if Writes(r) then 1 else 0
  }

  function Readers(roles: seq<Role>): nat {
    if roles == [] then 0 else Counted(roles[0]) + Readers(roles[1..])
  }

  function Writers(roles: seq<Role>): nat {
    if roles == [] then 0 else WriterShare(roles[0]) + Writers(roles[1..])
  }

  /** What two threads may hold at the same time. */
  predicate Compatible(a: Role, b: Role) {
    && (Writes(a) ==> !Writes(b) && !b.Reader? && !b.Upgrader?)
    && (a.Upgrader? ==> !Writes(b) && !b.Upgrader?)
  }

  /** The upgrade bit without the writer bit has an owner. */
  ghost predicate FlagOwned(s: State) {
    && (Flag(s.bits) && s.bits % 2 == 0 ==> exists t :: 0 <= t < |s.roles| && s.roles[t].Upgrader?)
    && (forall t :: 0 <= t < |s.roles| && (s.roles[t].Upgrader? || s.roles[t].ToUpgrader?) ==> Flag(s.bits))
  }

  /** The word: four times the reader count, plus the upgrade bit, plus the writer bit. */
  predicate Encodes(s: State) {
    s.bits == READER * Readers(s.roles) + (if Flag(s.bits) then UPGRADED else 0) + Writers(s.roles) && Writers(s.roles) <= 1
  }

  ghost predicate Inv(s: State) {
    && |s.roles| < MAX_THREADS && Encodes(s) && FlagOwned(s)
    && (forall t, u {:trigger Compatible(s.roles[t], s.roles[u])} :: 0 <= t < |s.roles| && 0 <= u < |s.roles| && t != u ==>
         Compatible(s.roles[t], s.roles[u]))
  }

  // ---------------------------------------------------------------- counting

  lemma {:induction false} ReadersUpdate(roles: seq<Role>, t: nat, r: Role)
    requires t < |roles|
    ensures Readers(roles[t := r]) == Readers(roles) - Counted(roles[t]) + Counted(r)
    ensures Readers(roles) >= Counted(roles[t]) && Readers(roles) <= |roles|
  {
    if t > 0 {
      ReadersUpdate(roles[1..], t - 1, r);
      assert roles[t := r][1..] == roles[1..][t - 1 := r];
    } else {
      assert roles[t := r][1..] == roles[1..];
      ReadersBound(roles[1..]);
    }
  }

  lemma {:induction false} ReadersBound(roles: seq<Role>)
    ensures Readers(roles) <= |roles|
  {
    if roles != [] { ReadersBound(roles[1..]); }
  }

  lemma {:induction false} WritersUpdate(roles: seq<Role>, t: nat, r: Role)
    requires t < |roles|
    ensures Writers(roles[t := r]) == Writers(roles) - WriterShare(roles[t]) + WriterShare(r)
    ensures Writers(roles) >= WriterShare(roles[t])
  {
    if t > 0 {
      WritersUpdate(roles[1..], t - 1, r);
      assert roles[t := r][1..] == roles[1..][t - 1 := r];
    } else {
      assert roles[t := r][1..] == roles[1..];
    }
  }

  /** With no reader counted and no writer, nobody reads or writes. */
  lemma NobodyCounted(s: State, t: nat)
    requires t < |s.roles|
    ensures Readers(s.roles) == 0 ==> Counted(s.roles[t]) == 0
    ensures Writers(s.roles) == 0 ==> !Writes(s.roles[t])
  {
    ReadersUpdate(s.roles, t, s.roles[t]);
    WritersUpdate(s.roles, t, s.roles[t]);
  }

  /** A word of the given reader count, upgrade bit and writer bit. */
  function Word(readers: int, upgraded: bool, writers: int): int {
    READER * readers + (if upgraded then UPGRADED else 0) + writers
  }

  lemma WordBits(readers: nat, upgraded: bool, writers: nat)
    requires writers <= 1
    ensures var b := Word(readers, upgraded, writers);
      && b % 2 == writers && Flag(b) == upgraded && b % READER == writers + (if upgraded then UPGRADED else 0)
      && b == b / READER * READER + b % READER && b / READER == readers
  {
    var b, u := Word(readers, upgraded, writers), if upgraded then 1 else 0;
    assert b == 4 * readers + (2 * u + writers) && b / 4 == readers;
    assert b == 2 * (2 * readers + u) + writers && b / 2 == 2 * readers + u;
    assert b / 2 % 2 == u;
  }

  /** How each operation's arithmetic changes the three parts of the word. */
  lemma Arithmetic(readers: nat, upgraded: bool, writers: nat)
    requires writers <= 1 && readers <= MAX_THREADS - 1
    ensures var b := Word(readers, upgraded, writers);
      && 0 <= b < WORD && ClearBits(b) == Word(readers, false, 0) && OrUpgraded(b) == Word(readers, true, writers)
      && (readers + 1 < MAX_THREADS ==> Add(b, READER) == Word(readers + 1, upgraded, writers))
      && (readers > 0 ==> Add(b, -READER) == Word(readers - 1, upgraded, writers))
      && (upgraded ==> Add(b, -UPGRADED) == Word(readers, false, writers))
      && (upgraded && readers + 1 < MAX_THREADS ==> Add(b, READER - UPGRADED) == Word(readers + 1, false, writers))
      && (writers == 1 ==> Add(b, -WRITER) == Word(readers, upgraded, 0))
      && (b == 0 ==> readers == 0 && !upgraded && writers == 0)
      && (b == UPGRADED ==> readers == 0 && upgraded && writers == 0)
  {
    WordBits(readers, upgraded, writers);
  }

  /** The parts of the word after an operation. */
  function Upgraded(u: bool, bits: int, r: Role, op: Op): bool {
    match op
    case Unlock => false
    case FinishToShared => false
    case TryLockUpgrade => true
    case UnlockUpgrade => false
    case UpgradeToShared => false
    case DowngradeToUpgrade => true
    case TryUpgradeToWriter => if bits == UPGRADED then false else u
    case _ => u
  }

  /** Each operation changes the parts of the word by the thread's own shares. */
  lemma EffectWord(readers: nat, u: bool, writers: nat, r: Role, op: Op)
    requires May(r, op) && Counted(r) <= readers && WriterShare(r) <= writers <= 1
    requires (r.Upgrader? ==> writers == 0) && (r.Upgrader? || r.ToUpgrader? ==> u)
    requires var e := Effect(Word(readers, u, writers), r, op); readers < MAX_THREADS && readers - Counted(r) + Counted(e.1) < MAX_THREADS
    ensures var b := Word(readers, u, writers); var e := Effect(b, r, op);
      && e.0 == Word(readers - Counted(r) + Counted(e.1), Upgraded(u, b, r, op), writers - WriterShare(r) + WriterShare(e.1))
      && writers - WriterShare(r) + WriterShare(e.1) <= 1
  {
    WordBits(readers, u, writers);
    Arithmetic(readers, u, writers);
  }

  lemma WordKept(s: State, t: nat, op: Op)
    requires Inv(s) && Enabled(s, t, op)
    ensures var g := Next(s, t, op);
      g.bits == Word(Readers(g.roles), Upgraded(Flag(s.bits), s.bits, s.roles[t], op), Writers(g.roles)) && Writers(g.roles) <= 1
  {
    var g := Next(s, t, op);
    ReadersUpdate(s.roles, t, g.roles[t]);
    WritersUpdate(s.roles, t, g.roles[t]);
    ReadersBound(g.roles);
    WriterAlone(s, t);
    EffectWord(Readers(s.roles), Flag(s.bits), Writers(s.roles), s.roles[t], op);
  }

  lemma WordEncodes(s: State, u: bool)
    requires s.bits == Word(Readers(s.roles), u, Writers(s.roles)) && Writers(s.roles) <= 1
    ensures Encodes(s) && Flag(s.bits) == u && s.bits % 2 == Writers(s.roles)
  {
    WordBits(Readers(s.roles), u, Writers(s.roles));
  }

  /** The word still encodes what the threads hold. */
  lemma EncodesKept(s: State, t: nat, op: Op)
    requires Inv(s) && Enabled(s, t, op)
    ensures Encodes(Next(s, t, op)) && Flag(Next(s, t, op).bits) == Upgraded(Flag(s.bits), s.bits, s.roles[t], op)
    ensures Next(s, t, op).bits % 2 == Writers(Next(s, t, op).roles)
  {
    WordKept(s, t, op);
    WordEncodes(Next(s, t, op), Upgraded(Flag(s.bits), s.bits, s.roles[t], op));
  }

  /** A thread that writes has the only writer share, an upgrader none beside it. */
  lemma WriterAlone(s: State, t: nat)
    requires Inv(s) && t < |s.roles|
    ensures s.roles[t].Upgrader? ==> Writers(s.roles) == 0
  {
    if s.roles[t].Upgrader? {
      forall u | 0 <= u < |s.roles| ensures !Writes(s.roles[u]) {
        if u != t { assert Compatible(s.roles[t], s.roles[u]); }
      }
      NoWriters(s.roles);
    }
  }

  lemma {:induction false} NoWriters(roles: seq<Role>)
    requires forall u :: 0 <= u < |roles| ==> !Writes(roles[u])
    ensures Writers(roles) == 0
  {
    if roles != [] { NoWriters(roles[1..]); }
  }

  // ---------------------------------------------------------------- every step

  /** The word tells the thread that takes a lock that nobody incompatible holds one. */
  lemma Free(s: State, u: nat)
    requires Inv(s) && u < |s.roles|
    ensures s.bits % READER == 0 ==> !Writes(s.roles[u]) && !s.roles[u].Upgrader?
    ensures s.bits == 0 || s.bits == UPGRADED ==> !Writes(s.roles[u]) && !s.roles[u].Reader?
  {
    WordBits(Readers(s.roles), Flag(s.bits), Writers(s.roles));
    NobodyCounted(s, u);
  }

  lemma CompatibleKept(s: State, t: nat, op: Op, u: nat)
    requires Inv(s) && Enabled(s, t, op) && u < |s.roles| && u != t
    ensures Compatible(Next(s, t, op).roles[t], s.roles[u]) && Compatible(s.roles[u], Next(s, t, op).roles[t])
  {
    assert Compatible(s.roles[t], s.roles[u]) && Compatible(s.roles[u], s.roles[t]);
    Free(s, u);
  }

  lemma FlagKept(s: State, t: nat, op: Op)
    requires Inv(s) && Enabled(s, t, op)
    ensures FlagOwned(Next(s, t, op))
  {
    var g := Next(s, t, op);
    EncodesKept(s, t, op);
    WritersUpdate(s.roles, t, g.roles[t]);
    WordBits(Readers(s.roles), Flag(s.bits), Writers(s.roles));
    forall u | 0 <= u < |g.roles| && (g.roles[u].Upgrader? || g.roles[u].ToUpgrader?) ensures Flag(g.bits) {
      if u != t { assert Compatible(s.roles[t], s.roles[u]) && Compatible(s.roles[u], s.roles[t]); }
    }
    if Flag(g.bits) && g.bits % 2 == 0 && !g.roles[t].Upgrader? {
      StillOwned(s, t, op);
    }
  }

  lemma StillOwned(s: State, t: nat, op: Op)
    requires Inv(s) && Enabled(s, t, op) && Flag(Next(s, t, op).bits) && Next(s, t, op).bits % 2 == 0
    requires !Next(s, t, op).roles[t].Upgrader?
    ensures exists u :: 0 <= u < |s.roles| && Next(s, t, op).roles[u].Upgrader?
  {
    var g := Next(s, t, op);
    EncodesKept(s, t, op);
    WritersUpdate(s.roles, t, g.roles[t]);
    WordBits(Readers(s.roles), Flag(s.bits), Writers(s.roles));
    assert Flag(s.bits) && s.bits % 2 == 0;
    var u :| 0 <= u < |s.roles| && s.roles[u].Upgrader?;
    assert u != t;
    assert g.roles[u].Upgrader?;
  }

  /** Every operation of every interleaving keeps the invariant. */
  lemma StepKeepsInv(s: State, t: nat, op: Op)
    requires Inv(s) && Enabled(s, t, op)
    ensures Inv(Next(s, t, op))
  {
    var g := Next(s, t, op);
    EncodesKept(s, t, op);
    FlagKept(s, t, op);
    forall a, b | 0 <= a < |g.roles| && 0 <= b < |g.roles| && a != b ensures Compatible(g.roles[a], g.roles[b]) {
      if a == t { CompatibleKept(s, t, op, b); }
      else if b == t { CompatibleKept(s, t, op, a); }
      else { assert Compatible(s.roles[a], s.roles[b]); }
    }
  }

  // ---------------------------------------------------------------- runs

  predicate Init(s: State) {
    s.bits == 0 && |s.roles| < MAX_THREADS && forall t :: 0 <= t < |s.roles| ==> s.roles[t] == Nothing
  }

  ghost predicate IsRun(states: seq<State>, ops: seq<(nat, Op)>) {
    && |states| == |ops| + 1 && Init(states[0])
    && forall i :: 0 <= i < |ops| ==> Enabled(states[i], ops[i].0, ops[i].1) && states[i + 1] == Next(states[i], ops[i].0, ops[i].1)
  }

  lemma {:induction false} NoReaders(roles: seq<Role>)
    requires forall u :: 0 <= u < |roles| ==> roles[u] == Nothing
    ensures Readers(roles) == 0
  {
    if roles != [] { NoReaders(roles[1..]); }
  }

  lemma {:induction false} RunInv(states: seq<State>, ops: seq<(nat, Op)>, i: nat)
    requires IsRun(states, ops) && i < |states|
    ensures Inv(states[i])
  {
    if i == 0 {
      NoReaders(states[0].roles);
      NoWriters(states[0].roles);
    } else {
      RunInv(states, ops, i - 1);
      assert states[i - 1 + 1] == Next(states[i - 1], ops[i - 1].0, ops[i - 1].1);
      StepKeepsInv(states[i - 1], ops[i - 1].0, ops[i - 1].1);
    }
  }

  // ---------------------------------------------------------------- what each operation achieves

  predicate NobodyHolds(roles: seq<Role>) {
    forall u :: 0 <= u < |roles| ==> roles[u].Nothing?
  }

  predicate NobodyReads(roles: seq<Role>) {
    forall u :: 0 <= u < |roles| ==> Counted(roles[u]) == 0
  }

  predicate NobodyWritesOrUpgrades(roles: seq<Role>) {
    forall u :: 0 <= u < |roles| ==> !Writes(roles[u]) && !roles[u].Upgrader?
  }

  lemma {:induction false} NoneCounted(roles: seq<Role>)
    ensures NobodyReads(roles) <==> Readers(roles) == 0
    ensures (forall u :: 0 <= u < |roles| ==> !Writes(roles[u])) <==> Writers(roles) == 0
  {
    if roles != [] {
      NoneCounted(roles[1..]);
      assert forall u :: 0 < u < |roles| ==> roles[u] == roles[1..][u - 1];
    }
  }

  /** The two low bits are clear exactly if nobody writes or upgrades. */
  lemma LowBitsIff(s: State)
    requires Inv(s)
    ensures s.bits % READER == 0 <==> NobodyWritesOrUpgrades(s.roles)
    ensures s.bits == 0 <==> NobodyHolds(s.roles)
  {
    var u := Flag(s.bits);
    WordBits(Readers(s.roles), u, Writers(s.roles));
    NoneCounted(s.roles);
    assert NobodyWritesOrUpgrades(s.roles) ==> !u;
    assert NobodyHolds(s.roles) ==> NobodyReads(s.roles) && NobodyWritesOrUpgrades(s.roles);
    if s.bits == 0 {
      forall t | 0 <= t < |s.roles| ensures s.roles[t].Nothing? { assert Counted(s.roles[t]) == 0 && !Writes(s.roles[t]); }
    }
  }

  /** An upgrader finds the word at the upgrade bit alone exactly if nobody reads. */
  lemma UpgradedIff(s: State, t: nat)
    requires Inv(s) && t < |s.roles| && s.roles[t].Upgrader?
    ensures s.bits == UPGRADED <==> NobodyReads(s.roles)
  {
    WordBits(Readers(s.roles), Flag(s.bits), Writers(s.roles));
    NoneCounted(s.roles);
    WriterAlone(s, t);
  }

  /** What the thread holds after an operation, by what all threads hold before it. */
  function Outcome(roles: seq<Role>, op: Op): Role {
    match op
    case TryLock => if NobodyHolds(roles) then Writer else Nothing
    case TryLockShared => if NobodyWritesOrUpgrades(roles) then Reader else BackingOut
    case TryLockUpgrade => if NobodyWritesOrUpgrades(roles) then Upgrader else Nothing
    case TryUpgradeToWriter => if NobodyReads(roles) then Writer else Upgrader
    case DowngradeToShared => ToReader
    case FinishToShared => Reader
    case UpgradeToShared => Reader
    case DowngradeToUpgrade => ToUpgrader
    case FinishToUpgrade => Upgrader
    case Unlock => Nothing
    case BackOut => Nothing
    case UnlockShared => Nothing
    case UnlockUpgrade => Nothing
  }

  /**
   Whether an attempt succeeds depends on what the other threads hold: a write lock is got
   exactly if nobody holds or attempts anything, a read or upgrade lock exactly if nobody
   writes or upgrades, and an upgrade to a write lock exactly if nobody reads.
   */
  lemma OpOutcome(s: State, t: nat, op: Op)
    requires Inv(s) && Enabled(s, t, op)
    ensures Next(s, t, op).roles == s.roles[t := Outcome(s.roles, op)]
  {
    LowBitsIff(s);
    if s.roles[t].Upgrader? { UpgradedIff(s, t); }
  }

  predicate Leads(s: State, t: nat, ops: seq<Op>, g: State)
    decreases |ops|
  {
    if ops == [] then s == g else Enabled(s, t, ops[0]) && Leads(Next(s, t, ops[0]), t, ops[1..], g)
  }

  lemma TwoOps(s: State, t: nat, a: Op, b: Op)
    requires Enabled(s, t, a) && Enabled(Next(s, t, a), t, b)
    ensures Leads(s, t, [a, b], Next(Next(s, t, a), t, b))
  {
    assert [a, b][1..] == [b] && [b][1..] == [];
  }

  lemma SameWord(s: State, g: State)
    requires Inv(s) && Inv(g) && g.roles == s.roles && Flag(g.bits) == Flag(s.bits)
    ensures g == s
  {
  }

  /** What is acquired can be released, and then the lock is as it was: reading, writing and upgrading leave no trace. */
  lemma RoundTrips(s: State, t: nat)
    requires Inv(s) && t < |s.roles| && s.roles[t].Nothing?
    ensures NobodyHolds(s.roles) ==> Leads(s, t, [TryLock, Unlock], s)
    ensures NobodyWritesOrUpgrades(s.roles) ==> Leads(s, t, [TryLockShared, UnlockShared], s) && Leads(s, t, [TryLockUpgrade, UnlockUpgrade], s)
    ensures !NobodyWritesOrUpgrades(s.roles) ==> Leads(s, t, [TryLockShared, BackOut], s)
  {
    LowBitsIff(s);
    if NobodyHolds(s.roles) { RoundTrip(s, t, TryLock, Unlock); }
    if NobodyWritesOrUpgrades(s.roles) {
      RoundTrip(s, t, TryLockShared, UnlockShared);
      RoundTrip(s, t, TryLockUpgrade, UnlockUpgrade);
    } else {
      RoundTrip(s, t, TryLockShared, BackOut);
    }
  }

  lemma RoundTrip(s: State, t: nat, a: Op, b: Op)
    requires Inv(s) && t < |s.roles| && s.roles[t].Nothing? && May(Nothing, a) && May(Outcome(s.roles, a), b) && Outcome(s.roles, b) == Nothing
    requires Upgraded(Upgraded(Flag(s.bits), s.bits, Nothing, a), Next(s, t, a).bits, Outcome(s.roles, a), b) == Flag(s.bits)
    requires b == Unlock || b == UnlockShared || b == UnlockUpgrade || b == BackOut
    ensures Leads(s, t, [a, b], s)
  {
    var m := Next(s, t, a);
    OpOutcome(s, t, a);
    StepKeepsInv(s, t, a);
    EncodesKept(s, t, a);
    var g := Next(m, t, b);
    OpOutcome(m, t, b);
    StepKeepsInv(m, t, b);
    EncodesKept(m, t, b);
    assert g.roles == s.roles;
    SameWord(s, g);
    TwoOps(s, t, a, b);
  }

  /** In every run the operations achieve exactly that. */
  lemma RunOutcome(states: seq<State>, ops: seq<(nat, Op)>, i: nat)
    requires IsRun(states, ops) && i < |ops|
    ensures ops[i].0 < |states[i].roles| && states[i + 1].roles == states[i].roles[ops[i].0 := Outcome(states[i].roles, ops[i].1)]
  {
    RunInv(states, ops, i);
    assert states[i + 1] == Next(states[i], ops[i].0, ops[i].1);
    OpOutcome(states[i], ops[i].0, ops[i].1);
  }

  /**
   In every state of every run: the word encodes the number of holders, and an upgrade bit
   without the writer bit has an owner.
   */
  lemma RunEncodes(states: seq<State>, ops: seq<(nat, Op)>, i: nat)
    requires IsRun(states, ops) && i < |states|
    ensures var s := states[i];
      && (Flag(s.bits) && s.bits % 2 == 0 ==> exists o :: 0 <= o < |s.roles| && s.roles[o].Upgrader?)
      && s.bits == Word(Readers(s.roles), Flag(s.bits), Writers(s.roles)) && 0 <= s.bits < WORD
  {
    RunInv(states, ops, i);
    var s := states[i];
    ReadersBound(s.roles);
    Arithmetic(Readers(s.roles), Flag(s.bits), Writers(s.roles));
  }

  /**
   In every state of every run: a writer excludes readers, upgraders and other writers;
   there is one writer or upgrader at most; an upgrade bit without the writer bit has
   exactly one owner; and the word encodes the number of holders.
   */
  lemma RunExclusive(states: seq<State>, ops: seq<(nat, Op)>, i: nat, t: nat, u: nat)
    requires IsRun(states, ops) && i < |states| && t < |states[i].roles| && u < |states[i].roles| && t != u
    ensures var s := states[i];
      && (Writes(s.roles[t]) ==> !s.roles[u].Reader? && !s.roles[u].Upgrader? && !Writes(s.roles[u]))
      && (s.roles[t].Upgrader? ==> !s.roles[u].Upgrader? && !Writes(s.roles[u]))
      && (Flag(s.bits) && s.bits % 2 == 0 ==> exists o :: 0 <= o < |s.roles| && s.roles[o].Upgrader?)
      && s.bits == Word(Readers(s.roles), Flag(s.bits), Writers(s.roles)) && 0 <= s.bits < WORD
  {
    RunInv(states, ops, i);
    RunEncodes(states, ops, i);
    assert Compatible(states[i].roles[t], states[i].roles[u]);
  }
}
