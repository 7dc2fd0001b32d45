/**
 * Boot migrations of many replicas that share one database: a server-side advisory lock, a ledger
 * of applied migrations, and lock connections that may drop.
 *
 * Each boot attempt is a program counter over the awaits of `createBootDataSource`. Any attempt may
 * take its next step at any time, any await may reject, and a retry of a failed boot is a new attempt.
 */
module BootMigrations {
  import opened Basics

  type Migration = string

  /** The await an attempt is suspended at; `failed` says that an error is being carried through a finally. */
  datatype Pc =
    | MigratorInit | MigratorUtc
    | LockConnect | SetStatementTimeout | SetIdleTimeout | LockWait
    | ReadLedger | Migrating(pending: seq<Migration>)
    | Unlocking(failed: bool) | Ending(failed: bool) | DestroyMigrator(failed: bool)
    | RuntimeInit | RuntimeUtc | RuntimeDestroy
    | Returned | Threw

  /** `failure` is history: an await that fails the boot rejected, or the lock dropped while it was held. */
  datatype Attempt = Attempt(
    pc: Pc, holding: bool, lockLost: bool, connected: bool,
    lockCreated: bool, endCalled: bool, migratorDestroyed: bool, runtimeOpen: bool, failure: bool)

  const STARTED := Attempt(MigratorInit, false, false, false, false, false, false, false, false)

  datatype State = State(attempts: map<nat, Attempt>, lockHolder: Option<nat>, ledger: seq<Migration>)

  datatype Label =
    | Start(id: nat)
    | Grant(id: nat)                 // the server hands the lock to a waiting session
    | Commit(id: nat, count: nat)    // a transaction applies the next `count` pending migrations
    | Resolve(id: nat)               // the pending await resolves
    | Reject(id: nat)                // the pending await rejects
    | Drop(id: nat)                  // the lock connection drops

  /** The migrations of the chain the ledger does not list, in chain order. */
  function Pending(chain: seq<Migration>, ledger: seq<Migration>): seq<Migration> {
    if chain == [] then []
    else (if chain[0] in ledger then [] else [chain[0]]) + Pending(chain[1..], ledger)
  }

  /** Where an attempt is suspended after its pending await resolves. */
  function AfterResolve(pc: Pc, lockLost: bool, missing: seq<Migration>): Pc {
    match pc
    case MigratorInit => MigratorUtc
    case MigratorUtc => LockConnect
    case LockConnect => SetStatementTimeout
    case SetStatementTimeout => SetIdleTimeout
    case SetIdleTimeout => LockWait
    case LockWait => ReadLedger
    case ReadLedger => Migrating(missing)
    case Migrating(_) => Unlocking(lockLost)
    case Unlocking(failed) => Ending(failed)
    case Ending(failed) => DestroyMigrator(failed)
    case DestroyMigrator(failed) => if failed then Threw else RuntimeInit
    case RuntimeInit => RuntimeUtc
    case RuntimeUtc => Returned
    case RuntimeDestroy => Threw
    case Returned => Returned
    case Threw => Threw
  }

  /** Where it is suspended after that await rejects; the rejections of the last five are swallowed. */
  function AfterReject(pc: Pc): Pc {
    match pc
    case MigratorInit => DestroyMigrator(true)
    case MigratorUtc => DestroyMigrator(true)
    case LockConnect => Ending(true)
    case SetStatementTimeout => Ending(true)
    case LockWait => Ending(true)
    case ReadLedger => Unlocking(true)
    case Migrating(_) => Unlocking(true)
    case RuntimeInit => RuntimeDestroy
    case RuntimeUtc => RuntimeDestroy
    case SetIdleTimeout => LockWait
    case Unlocking(failed) => Ending(failed)
    case Ending(failed) => DestroyMigrator(failed)
    case DestroyMigrator(failed) => if failed then Threw else RuntimeInit
    case RuntimeDestroy => Threw
    case Returned => Returned
    case Threw => Threw
  }

  /** The awaits whose rejection fails the boot. */
  predicate Fatal(pc: Pc) {
    || pc.MigratorInit? || pc.MigratorUtc? || pc.LockConnect? || pc.SetStatementTimeout? || pc.LockWait?
    || pc.ReadLedger? || pc.Migrating? || pc.RuntimeInit? || pc.RuntimeUtc?
  }

  /** Arriving at an await makes the call it awaits, and sets the flags written on the way. */
  function Enter(a: Attempt, pc: Pc): Attempt {
    a.(pc := pc,
       holding := pc.ReadLedger? || pc.Migrating?,
       connected := if pc.SetStatementTimeout? then true else a.connected && !pc.DestroyMigrator?,
       lockCreated := a.lockCreated || pc.LockConnect?,
       endCalled := a.endCalled || pc.Ending?,
       migratorDestroyed := a.migratorDestroyed || pc.DestroyMigrator?,
       runtimeOpen := if pc.RuntimeInit? then true else a.runtimeOpen && !pc.RuntimeDestroy?)
  }

  function Resolved(chain: seq<Migration>, ledger: seq<Migration>, a: Attempt): Attempt {
    Enter(a, AfterResolve(a.pc, a.lockLost, Pending(chain, ledger)))
  }

  function Rejected(a: Attempt): Attempt {
    Enter(a.(failure := a.failure || Fatal(a.pc)), AfterReject(a.pc))
  }

  /** What the drop of the lock connection does on the client: a holder stops where it stands. */
  function Dropped(a: Attempt): Attempt {
    var b := a.(connected := false);
    if a.holding then b.(lockLost := true, migratorDestroyed := true, failure := true) else b
  }

  /** An await on the lock session resolves only while it is connected, and the lock only once granted. */
  predicate CanResolve(s: State, id: nat)
    requires id in s.attempts
  {
    var a := s.attempts[id];
    match a.pc
    case SetStatementTimeout => a.connected
    case SetIdleTimeout => a.connected
    case LockWait => s.lockHolder == Some(id)
    case Migrating(pending) => pending == []
    case _ => true
  }

  /** The lock session is gone, or is told to unlock, so the server takes the lock back. */
  predicate Frees(s: State, l: Label)
    requires l.id in s.attempts
  {
    var pc := s.attempts[l.id].pc;
    s.lockHolder == Some(l.id) && (l.Drop? || pc.Ending? || (l.Resolve? && pc.Unlocking?))
  }

  function Step(chain: seq<Migration>, s: State, l: Label): State {
    if l.Start? then
      if l.id in s.attempts then s else s.(attempts := s.attempts[l.id := STARTED])
    else if l.id !in s.attempts then s
    else
      var a := s.attempts[l.id];
      var freed := if Frees(s, l) then None else s.lockHolder;
      match l
      case Grant(id) =>
        if s.lockHolder.None? && a.pc.LockWait? && a.connected then s.(lockHolder := Some(id)) else s
      case Commit(id, count) =>
        if a.pc.Migrating? && 1 <= count <= |a.pc.pending|
        then s.(ledger := s.ledger + a.pc.pending[..count],
                attempts := s.attempts[id := a.(pc := Migrating(a.pc.pending[count..]))])
        else s
      case Resolve(id) =>
        if CanResolve(s, id)
        then s.(attempts := s.attempts[id := Resolved(chain, s.ledger, a)], lockHolder := freed) else s
      case Reject(id) => s.(attempts := s.attempts[id := Rejected(a)], lockHolder := freed)
      case Drop(id) =>
        if a.connected then s.(attempts := s.attempts[id := Dropped(a)], lockHolder := freed) else s
  }

  function Run(chain: seq<Migration>, initial: seq<Migration>, labels: seq<Label>): State {
    if labels == [] then State(map[], None, initial)
    else Step(chain, Run(chain, initial, labels[..|labels| - 1]), labels[|labels| - 1])
  }

  // ----- one attempt, under any interleaving and any drop -----

  predicate Carries(pc: Pc) {
    match pc
    case Unlocking(failed) => failed
    case Ending(failed) => failed
    case DestroyMigrator(failed) => failed
    case RuntimeDestroy => true
    case Threw => true
    case _ => false
  }

  predicate AttemptOk(a: Attempt) {
    && (a.holding <==> a.pc.ReadLedger? || a.pc.Migrating?)
    && (a.failure <==> Carries(a.pc) || (a.holding && a.lockLost))
    && (a.lockLost ==> a.failure)
    && (a.pc.MigratorInit? || a.pc.MigratorUtc? ==> !a.lockCreated && !a.endCalled)
    && (UsesLock(a.pc) ==> a.lockCreated)
    && (a.pc.DestroyMigrator? || Past(a.pc) ==> (a.lockCreated <==> a.endCalled))
    && (a.pc.Ending? ==> a.lockCreated && a.endCalled)
    && (a.pc.DestroyMigrator? || Past(a.pc) ==> a.migratorDestroyed)
    && (a.runtimeOpen <==> a.pc.RuntimeInit? || a.pc.RuntimeUtc? || a.pc.Returned?)
  }

  /** Between the creation of the lock client and its end(). */
  predicate UsesLock(pc: Pc) {
    || pc.LockConnect? || pc.SetStatementTimeout? || pc.SetIdleTimeout? || pc.LockWait?
    || pc.ReadLedger? || pc.Migrating? || pc.Unlocking?
  }

  /** The migration pool's finally has run. */
  predicate Past(pc: Pc) {
    pc.RuntimeInit? || pc.RuntimeUtc? || pc.RuntimeDestroy? || pc.Returned? || pc.Threw?
  }

  ghost predicate AttemptsOk(s: State) { forall id :: id in s.attempts ==> AttemptOk(s.attempts[id]) }

  lemma ResolvingIsOk(chain: seq<Migration>, ledger: seq<Migration>, a: Attempt)
    requires AttemptOk(a)
    ensures AttemptOk(Resolved(chain, ledger, a))
  {
  }

  lemma RejectingIsOk(a: Attempt)
    requires AttemptOk(a)
    ensures AttemptOk(Rejected(a))
  {
  }

  lemma DroppingIsOk(a: Attempt)
    requires AttemptOk(a)
    ensures AttemptOk(Dropped(a))
  {
  }

  /** Only the attempt a label names changes, and only in one of four ways. */
  lemma StepMoves(chain: seq<Migration>, s: State, l: Label, id: nat)
    requires id in s.attempts
    ensures id in Step(chain, s, l).attempts
    ensures var a, b := s.attempts[id], Step(chain, s, l).attempts[id];
      || b == a
      || (l == Resolve(id) && CanResolve(s, id) && b == Resolved(chain, s.ledger, a))
      || (l == Reject(id) && b == Rejected(a))
      || (l == Drop(id) && b == Dropped(a))
      || (l.Commit? && l.id == id && a.pc.Migrating? && l.count <= |a.pc.pending| && b == a.(pc := Migrating(a.pc.pending[l.count..])))
  {
  }

  lemma StepKeepsAttempts(chain: seq<Migration>, s: State, l: Label)
    requires AttemptsOk(s)
    ensures AttemptsOk(Step(chain, s, l))
  {
    var t := Step(chain, s, l);
    forall id | id in t.attempts ensures AttemptOk(t.attempts[id]) {
      if id in s.attempts {
        StepMoves(chain, s, l, id);
        OneStaysOk(chain, s.ledger, s.attempts[id], t.attempts[id]);
      } else {
        assert t.attempts[id] == STARTED;
      }
    }
  }

  lemma OneStaysOk(chain: seq<Migration>, ledger: seq<Migration>, a: Attempt, b: Attempt)
    requires AttemptOk(a)
    requires || b == a || b == Resolved(chain, ledger, a) || b == Rejected(a) || b == Dropped(a)
             || (a.pc.Migrating? && b.pc.Migrating? && b == a.(pc := b.pc))
    ensures AttemptOk(b)
  {
    ResolvingIsOk(chain, ledger, a);
    RejectingIsOk(a);
    DroppingIsOk(a);
  }

  lemma {:induction false} RunKeepsAttempts(chain: seq<Migration>, initial: seq<Migration>, labels: seq<Label>)
    ensures AttemptsOk(Run(chain, initial, labels))
  {
    if labels != [] {
      RunKeepsAttempts(chain, initial, labels[..|labels| - 1]);
      StepKeepsAttempts(chain, Run(chain, initial, labels[..|labels| - 1]), labels[|labels| - 1]);
    }
  }

  /**
   * However an attempt ends, destroy() was called on its migration pool and end() on its lock client
   * if it made one; it returns exactly when no failing await rejected and the lock never dropped
   * while it was held, and then alone is a runtime pool left open.
   */
  lemma EveryExitCleansUp(chain: seq<Migration>, initial: seq<Migration>, labels: seq<Label>, id: nat)
    requires id in Run(chain, initial, labels).attempts
    requires var pc := Run(chain, initial, labels).attempts[id].pc; pc.Returned? || pc.Threw?
    ensures var a := Run(chain, initial, labels).attempts[id];
      && a.migratorDestroyed
      && (a.lockCreated ==> a.endCalled)
      && (a.pc.Returned? <==> !a.failure)
      && (a.runtimeOpen <==> a.pc.Returned?)
  {
    RunKeepsAttempts(chain, initial, labels);
    assert AttemptOk(Run(chain, initial, labels).attempts[id]);
  }

  // ----- a full ledger before every success, drops or not -----

  ghost predicate Full(chain: seq<Migration>, ledger: seq<Migration>) {
    forall m :: m in chain ==> m in ledger
  }

  /** Past a migration run that succeeded. */
  predicate Succeeded(pc: Pc) {
    match pc
    case Unlocking(failed) => !failed
    case Ending(failed) => !failed
    case DestroyMigrator(failed) => !failed
    case _ => Past(pc) && !pc.Threw?
  }

  ghost predicate Accounted(chain: seq<Migration>, ledger: seq<Migration>, pc: Pc) {
    && (pc.Migrating? ==> Full(chain, ledger + pc.pending))
    && (Succeeded(pc) ==> Full(chain, ledger))
  }

  ghost predicate AllAccounted(chain: seq<Migration>, s: State) {
    forall id :: id in s.attempts ==> Accounted(chain, s.ledger, s.attempts[id].pc)
  }

  lemma {:induction false} PendingCompletes(chain: seq<Migration>, ledger: seq<Migration>)
    ensures Full(chain, ledger + Pending(chain, ledger))
  {
    if chain != [] {
      PendingCompletes(chain[1..], ledger);
      forall m | m in chain ensures m in ledger + Pending(chain, ledger) {
        if m != chain[0] { assert m in chain[1..]; }
      }
    }
  }

  lemma PcAfterResolve(pc: Pc, lockLost: bool, missing: seq<Migration>)
    ensures var b := AfterResolve(pc, lockLost, missing);
      && (Succeeded(b) ==> Succeeded(pc) || pc.Migrating?)
      && (b.Migrating? ==> pc.ReadLedger? && b.pending == missing)
      && (Critical(b) ==> pc.LockWait? || pc.ReadLedger? || pc.Migrating?)
  {
  }

  lemma PcAfterReject(pc: Pc)
    ensures Succeeded(AfterReject(pc)) ==> Succeeded(pc)
    ensures !AfterReject(pc).Migrating?
    ensures Critical(AfterReject(pc)) ==> pc.ReadLedger? || pc.Migrating?
  {
  }

  lemma MoreStaysAccounted(chain: seq<Migration>, ledger: seq<Migration>, more: seq<Migration>, pc: Pc)
    requires Accounted(chain, ledger, pc)
    ensures Accounted(chain, ledger + more, pc)
  {
  }

  lemma StepKeepsAccounted(chain: seq<Migration>, s: State, l: Label)
    requires AllAccounted(chain, s)
    ensures AllAccounted(chain, Step(chain, s, l))
  {
    var t := Step(chain, s, l);
    forall id | id in t.attempts ensures Accounted(chain, t.ledger, t.attempts[id].pc) {
      if id in s.attempts {
        assert Accounted(chain, s.ledger, s.attempts[id].pc);
        OneStaysAccounted(chain, s, l, id);
      }
    }
  }

  lemma OneStaysAccounted(chain: seq<Migration>, s: State, l: Label, id: nat)
    requires id in s.attempts && Accounted(chain, s.ledger, s.attempts[id].pc)
    ensures id in Step(chain, s, l).attempts && Accounted(chain, Step(chain, s, l).ledger, Step(chain, s, l).attempts[id].pc)
  {
    if l.Commit? && Step(chain, s, l) != s {
      CommitAccounts(chain, s, l, id);
    } else {
      StepMoves(chain, s, l, id);
      MoveAccounts(chain, s.ledger, s.attempts[id]);
    }
  }

  lemma MoveAccounts(chain: seq<Migration>, ledger: seq<Migration>, a: Attempt)
    requires Accounted(chain, ledger, a.pc)
    ensures Accounted(chain, ledger, Rejected(a).pc) && Accounted(chain, ledger, Dropped(a).pc)
    ensures (a.pc.Migrating? ==> a.pc.pending == []) ==> Accounted(chain, ledger, Resolved(chain, ledger, a).pc)
  {
    PcAfterResolve(a.pc, a.lockLost, Pending(chain, ledger));
    PcAfterReject(a.pc);
    PendingCompletes(chain, ledger);
    assert ledger + [] == ledger;
  }

  lemma CommitAccounts(chain: seq<Migration>, s: State, l: Label, id: nat)
    requires id in s.attempts && Accounted(chain, s.ledger, s.attempts[id].pc)
    requires l.Commit? && l.id in s.attempts && s.attempts[l.id].pc.Migrating? && 1 <= l.count <= |s.attempts[l.id].pc.pending|
    ensures Accounted(chain, Step(chain, s, l).ledger, Step(chain, s, l).attempts[id].pc)
  {
    var pending := s.attempts[l.id].pc.pending;
    if l.id == id {
      assert s.ledger + pending == s.ledger + pending[..l.count] + pending[l.count..];
    } else {
      MoreStaysAccounted(chain, s.ledger, pending[..l.count], s.attempts[id].pc);
    }
  }

  lemma {:induction false} RunKeepsAccounted(chain: seq<Migration>, initial: seq<Migration>, labels: seq<Label>)
    ensures AllAccounted(chain, Run(chain, initial, labels))
  {
    if labels != [] {
      RunKeepsAccounted(chain, initial, labels[..|labels| - 1]);
      StepKeepsAccounted(chain, Run(chain, initial, labels[..|labels| - 1]), labels[|labels| - 1]);
    }
  }

  /** A DataSource is returned only once every migration of the chain is in the ledger, even if lock connections drop. */
  lemma ReturnedMeansMigrated(chain: seq<Migration>, initial: seq<Migration>, labels: seq<Label>, id: nat)
    requires id in Run(chain, initial, labels).attempts && Run(chain, initial, labels).attempts[id].pc.Returned?
    ensures Full(chain, Run(chain, initial, labels).ledger)
  {
    RunKeepsAccounted(chain, initial, labels);
    assert Accounted(chain, Run(chain, initial, labels).ledger, Run(chain, initial, labels).attempts[id].pc);
  }

  // ----- one at a time and in order, while no holder's connection drops -----

  /** No lock connection drops while the server has granted it the lock. */
  predicate HeldLocksStay(chain: seq<Migration>, initial: seq<Migration>, labels: seq<Label>) {
    if labels == [] then true
    else
      var before := labels[..|labels| - 1];
      var l := labels[|labels| - 1];
      && HeldLocksStay(chain, initial, before)
      && (l.Drop? ==> Run(chain, initial, before).lockHolder != Some(l.id))
  }

  /** That is, none of the drops of the run hits the holder of its moment. */
  lemma {:induction false} HeldLocksStayIff(chain: seq<Migration>, initial: seq<Migration>, labels: seq<Label>)
    ensures HeldLocksStay(chain, initial, labels) <==>
      forall k :: 0 <= k < |labels| && labels[k].Drop? ==> Run(chain, initial, labels[..k]).lockHolder != Some(labels[k].id)
  {
    if labels != [] {
      var before := labels[..|labels| - 1];
      HeldLocksStayIff(chain, initial, before);
      assert forall k :: 0 <= k < |before| ==> before[..k] == labels[..k] && before[k] == labels[k];
    }
  }

  ghost predicate Distinct(ms: seq<Migration>) {
    forall i, j :: 0 <= i < j < |ms| ==> ms[i] != ms[j]
  }

  /** From the lock grant the attempt has seen to its unlock. */
  predicate Critical(pc: Pc) { pc.ReadLedger? || pc.Migrating? || pc.Unlocking? }

  predicate Guarded(holder: Option<nat>, id: nat, pc: Pc) { Critical(pc) ==> holder == Some(id) }

  /** `todo` is what the chain lacked at the start, `done` how much of it the ledger now lists. */
  ghost predicate InStep(todo: seq<Migration>, done: nat, holder: Option<nat>, id: nat, pc: Pc)
    requires done <= |todo|
  {
    && Guarded(holder, id, pc)
    && (pc.Migrating? ==> pc.pending == todo[done..])
    && (Succeeded(pc) ==> done == |todo|)
  }

  ghost predicate Serial(chain: seq<Migration>, initial: seq<Migration>, s: State, done: nat) {
    var todo := Pending(chain, initial);
    && done <= |todo|
    && s.ledger == initial + todo[..done]
    && forall id :: id in s.attempts ==> InStep(todo, done, s.lockHolder, id, s.attempts[id].pc)
  }

  lemma {:induction false} PendingDependsOn(chain: seq<Migration>, l1: seq<Migration>, l2: seq<Migration>)
    requires forall m :: m in chain ==> (m in l1 <==> m in l2)
    ensures Pending(chain, l1) == Pending(chain, l2)
  {
    if chain != [] { PendingDependsOn(chain[1..], l1, l2); }
  }

  /** After the first `k` missing migrations are applied exactly the others are missing. */
  lemma {:induction false} PendingAfter(chain: seq<Migration>, ledger: seq<Migration>, k: nat)
    requires Distinct(chain) && k <= |Pending(chain, ledger)|
    ensures Pending(chain, ledger + Pending(chain, ledger)[..k]) == Pending(chain, ledger)[k..]
  {
    if k == 0 {
      assert ledger + Pending(chain, ledger)[..0] == ledger;
    } else if chain != [] {
      var rest := chain[1..];
      if chain[0] in ledger {
        PendingAfter(rest, ledger, k);
        assert Pending(chain, ledger) == Pending(rest, ledger);
        assert chain[0] in ledger + Pending(chain, ledger)[..k];
      } else {
        var p := Pending(rest, ledger);
        PendingAfter(rest, ledger, k - 1);
        assert Pending(chain, ledger)[..k] == [chain[0]] + p[..k - 1];
        var applied := ledger + ([chain[0]] + p[..k - 1]);
        assert chain[0] in applied;
        forall m | m in rest ensures m in applied <==> m in ledger + p[..k - 1] {
          var j :| 0 <= j < |rest| && rest[j] == m;
          assert chain[j + 1] == m && chain[0] != chain[j + 1];
        }
        PendingDependsOn(rest, applied, ledger + p[..k - 1]);
      }
    }
  }

  lemma {:induction false} PendingIsNew(chain: seq<Migration>, ledger: seq<Migration>)
    requires Distinct(chain)
    ensures Distinct(Pending(chain, ledger))
    ensures forall m :: m in Pending(chain, ledger) ==> m in chain && m !in ledger
  {
    if chain != [] {
      PendingIsNew(chain[1..], ledger);
      var p := Pending(chain[1..], ledger);
      forall m | m in p ensures m != chain[0] {
        assert m in chain[1..];
        var j :| 0 <= j < |chain[1..]| && chain[1..][j] == m;
        assert chain[j + 1] == m && chain[0] != chain[j + 1];
      }
      if chain[0] !in ledger { assert Pending(chain, ledger) == [chain[0]] + p; }
    }
  }

  lemma StepKeepsSerial(chain: seq<Migration>, initial: seq<Migration>, s: State, done: nat, l: Label) returns (done': nat)
    requires Distinct(chain) && Serial(chain, initial, s, done)
    requires l.Drop? ==> s.lockHolder != Some(l.id)
    ensures Serial(chain, initial, Step(chain, s, l), done')
  {
    var todo := Pending(chain, initial);
    var t := Step(chain, s, l);
    done' := done;
    if l.Commit? && t != s {
      CommitKeepsSerial(chain, initial, s, done, l);
      done' := done + l.count;
    } else {
      forall id | id in t.attempts ensures InStep(todo, done, t.lockHolder, id, t.attempts[id].pc) {
        if id in s.attempts { OneStaysInStep(chain, initial, s, done, l, id); }
      }
    }
  }

  lemma OneStaysInStep(chain: seq<Migration>, initial: seq<Migration>, s: State, done: nat, l: Label, id: nat)
    requires Distinct(chain) && Serial(chain, initial, s, done) && id in s.attempts
    requires (l.Commit? ==> Step(chain, s, l) == s) && (l.Drop? ==> s.lockHolder != Some(l.id))
    ensures id in Step(chain, s, l).attempts
    ensures InStep(Pending(chain, initial), done, Step(chain, s, l).lockHolder, id, Step(chain, s, l).attempts[id].pc)
  {
    var a := s.attempts[id];
    assert InStep(Pending(chain, initial), done, s.lockHolder, id, a.pc);
    if l.id == id {
      PendingAfter(chain, initial, done);
      PcAfterResolve(a.pc, a.lockLost, Pending(chain, s.ledger));
      PcAfterReject(a.pc);
    } else {
      OthersKeepTheirLock(chain, s, l, id);
    }
  }

  lemma OthersKeepTheirLock(chain: seq<Migration>, s: State, l: Label, id: nat)
    requires id in s.attempts && l.id != id
    ensures id in Step(chain, s, l).attempts && Step(chain, s, l).attempts[id] == s.attempts[id]
    ensures s.lockHolder == Some(id) ==> Step(chain, s, l).lockHolder == Some(id)
  {
  }

  lemma TakeMore(initial: seq<Migration>, todo: seq<Migration>, done: nat, count: nat)
    requires done + count <= |todo|
    ensures initial + todo[..done] + todo[done..][..count] == initial + todo[..done + count]
    ensures todo[done..][count..] == todo[done + count..]
  {
    assert todo[..done] + todo[done..][..count] == todo[..done + count];
  }

  lemma CommitKeepsSerial(chain: seq<Migration>, initial: seq<Migration>, s: State, done: nat, l: Label)
    requires Serial(chain, initial, s, done) && l.Commit? && l.id in s.attempts
    requires s.attempts[l.id].pc.Migrating? && 1 <= l.count <= |s.attempts[l.id].pc.pending|
    ensures Serial(chain, initial, Step(chain, s, l), done + l.count)
  {
    var todo := Pending(chain, initial);
    var t := Step(chain, s, l);
    assert InStep(todo, done, s.lockHolder, l.id, s.attempts[l.id].pc);
    TakeMore(initial, todo, done, l.count);
    forall id | id in t.attempts ensures InStep(todo, done + l.count, t.lockHolder, id, t.attempts[id].pc) {
      assert InStep(todo, done, s.lockHolder, id, s.attempts[id].pc);
    }
  }

  lemma {:induction false} RunIsSerial(chain: seq<Migration>, initial: seq<Migration>, labels: seq<Label>) returns (done: nat)
    requires Distinct(chain) && HeldLocksStay(chain, initial, labels)
    ensures Serial(chain, initial, Run(chain, initial, labels), done)
  {
    if labels == [] {
      done := 0;
      assert initial + Pending(chain, initial)[..0] == initial;
    } else {
      done := RunIsSerial(chain, initial, labels[..|labels| - 1]);
      done := StepKeepsSerial(chain, initial, Run(chain, initial, labels[..|labels| - 1]), done, labels[|labels| - 1]);
    }
  }

  lemma OneStaysGuarded(chain: seq<Migration>, s: State, l: Label, id: nat)
    requires id in s.attempts && Guarded(s.lockHolder, id, s.attempts[id].pc)
    requires l.Drop? ==> s.lockHolder != Some(l.id)
    ensures id in Step(chain, s, l).attempts
    ensures Guarded(Step(chain, s, l).lockHolder, id, Step(chain, s, l).attempts[id].pc)
  {
    var a := s.attempts[id];
    if l.id == id {
      PcAfterResolve(a.pc, a.lockLost, Pending(chain, s.ledger));
      PcAfterReject(a.pc);
    } else {
      OthersKeepTheirLock(chain, s, l, id);
    }
  }

  lemma {:induction false} RunIsGuarded(chain: seq<Migration>, initial: seq<Migration>, labels: seq<Label>, id: nat)
    requires HeldLocksStay(chain, initial, labels) && id in Run(chain, initial, labels).attempts
    ensures Guarded(Run(chain, initial, labels).lockHolder, id, Run(chain, initial, labels).attempts[id].pc)
  {
    if labels != [] {
      var s := Run(chain, initial, labels[..|labels| - 1]);
      if id in s.attempts {
        RunIsGuarded(chain, initial, labels[..|labels| - 1], id);
        OneStaysGuarded(chain, s, labels[|labels| - 1], id);
      }
    }
  }

  /** At most one attempt is between its lock grant and its unlock. */
  lemma OneMigratesAtATime(chain: seq<Migration>, initial: seq<Migration>, labels: seq<Label>, i: nat, j: nat)
    requires HeldLocksStay(chain, initial, labels)
    requires i in Run(chain, initial, labels).attempts && Critical(Run(chain, initial, labels).attempts[i].pc)
    requires j in Run(chain, initial, labels).attempts && Critical(Run(chain, initial, labels).attempts[j].pc)
    ensures i == j
  {
    RunIsGuarded(chain, initial, labels, i);
    RunIsGuarded(chain, initial, labels, j);
  }

  /**
   * The ledger is what it was at first, followed by the first few of the migrations it lacked, each
   * once and in chain order; and by all of them as soon as any attempt has succeeded.
   */
  lemma AppliedOnceInOrder(chain: seq<Migration>, initial: seq<Migration>, labels: seq<Label>) returns (done: nat)
    requires Distinct(chain) && HeldLocksStay(chain, initial, labels)
    ensures done <= |Pending(chain, initial)|
    ensures Run(chain, initial, labels).ledger == initial + Pending(chain, initial)[..done]
    ensures Distinct(Pending(chain, initial))
    ensures forall m :: m in Pending(chain, initial) ==> m in chain && m !in initial
    ensures forall id :: id in Run(chain, initial, labels).attempts && Run(chain, initial, labels).attempts[id].pc.Returned? ==>
      done == |Pending(chain, initial)|
  {
    done := RunIsSerial(chain, initial, labels);
    PendingIsNew(chain, initial);
    forall id | id in Run(chain, initial, labels).attempts && Run(chain, initial, labels).attempts[id].pc.Returned?
      ensures done == |Pending(chain, initial)|
    {
      assert InStep(Pending(chain, initial), done, Run(chain, initial, labels).lockHolder, id, Run(chain, initial, labels).attempts[id].pc);
    }
  }

  // ----- why the lock must stay -----

  lemma RunExtends(chain: seq<Migration>, initial: seq<Migration>, labels: seq<Label>, l: Label)
    ensures Run(chain, initial, labels + [l]) == Step(chain, Run(chain, initial, labels), l)
  {
    assert (labels + [l])[..|labels|] == labels;
  }

  /** `s`, but for one attempt. */
  function With(s: State, id: nat, a: Attempt): State { s.(attempts := s.attempts[id := a]) }

  /** The next await of an attempt resolves. */
  lemma Advances(chain: seq<Migration>, initial: seq<Migration>, labels: seq<Label>, s: State, id: nat, a: Attempt)
    requires Run(chain, initial, labels) == With(s, id, a) && CanResolve(With(s, id, a), id)
    requires !a.pc.Ending? && !a.pc.Unlocking?
    ensures Run(chain, initial, labels + [Resolve(id)]) == With(s, id, Resolved(chain, s.ledger, a))
  {
    RunExtends(chain, initial, labels, Resolve(id));
    var b := Resolved(chain, s.ledger, a);
    assert s.attempts[id := a][id := b] == s.attempts[id := b];
  }

  const CONNECTING := STARTED.(pc := LockConnect, lockCreated := true)
  const WAITING := STARTED.(pc := LockWait, connected := true, lockCreated := true)

  function MigratingNow(todo: seq<Migration>): Attempt { WAITING.(pc := Migrating(todo), holding := true) }

  function Connects(labels: seq<Label>, id: nat): seq<Label> {
    labels + [Start(id)] + [Resolve(id)] + [Resolve(id)]
  }

  function Waits(labels: seq<Label>, id: nat): seq<Label> {
    Connects(labels, id) + [Resolve(id)] + [Resolve(id)] + [Resolve(id)]
  }

  /** A boot that finds the lock free and reads the ledger. */
  function Boots(labels: seq<Label>, id: nat): seq<Label> {
    Waits(labels, id) + [Grant(id)] + [Resolve(id)] + [Resolve(id)]
  }

  lemma BootsToConnect(chain: seq<Migration>, initial: seq<Migration>, labels: seq<Label>, id: nat)
    requires id !in Run(chain, initial, labels).attempts
    ensures Run(chain, initial, Connects(labels, id)) == With(Run(chain, initial, labels), id, CONNECTING)
  {
    var s, started := Run(chain, initial, labels), labels + [Start(id)];
    RunExtends(chain, initial, labels, Start(id));
    Advances(chain, initial, started, s, id, STARTED);
    Advances(chain, initial, started + [Resolve(id)], s, id, STARTED.(pc := MigratorUtc));
  }

  lemma BootsToWait(chain: seq<Migration>, initial: seq<Migration>, labels: seq<Label>, id: nat)
    requires id !in Run(chain, initial, labels).attempts
    ensures Run(chain, initial, Waits(labels, id)) == With(Run(chain, initial, labels), id, WAITING)
  {
    var s, c := Run(chain, initial, labels), Connects(labels, id);
    BootsToConnect(chain, initial, labels, id);
    Advances(chain, initial, c, s, id, CONNECTING);
    Advances(chain, initial, c + [Resolve(id)], s, id, WAITING.(pc := SetStatementTimeout));
    Advances(chain, initial, c + [Resolve(id)] + [Resolve(id)], s, id, WAITING.(pc := SetIdleTimeout));
  }

  lemma BootsToMigrate(chain: seq<Migration>, initial: seq<Migration>, labels: seq<Label>, id: nat)
    requires id !in Run(chain, initial, labels).attempts && Run(chain, initial, labels).lockHolder.None?
    ensures var s := Run(chain, initial, labels);
      Run(chain, initial, Boots(labels, id)) ==
      With(s.(lockHolder := Some(id)), id, MigratingNow(Pending(chain, s.ledger)))
  {
    var s, granted := Run(chain, initial, labels), Waits(labels, id) + [Grant(id)];
    var held := s.(lockHolder := Some(id));
    BootsToWait(chain, initial, labels, id);
    RunExtends(chain, initial, Waits(labels, id), Grant(id));
    assert Run(chain, initial, granted) == With(held, id, WAITING);
    Advances(chain, initial, granted, held, id, WAITING);
    Advances(chain, initial, granted + [Resolve(id)], held, id, WAITING.(pc := ReadLedger, holding := true));
  }

  function HolderDrops(): seq<Label> { Boots([], 0) + [Drop(0)] }

  /** One replica migrates, its lock connection drops, another takes the lock, and both commit. */
  function DropWhileHolding(): seq<Label> { Boots(HolderDrops(), 1) + [Commit(0, 1)] + [Commit(1, 1)] }

  lemma DropFreesTheLock(chain: seq<Migration>, initial: seq<Migration>)
    ensures Run(chain, initial, HolderDrops()) ==
      State(map[0 := Dropped(MigratingNow(Pending(chain, initial)))], None, initial)
  {
    var empty, a := State(map[], None, initial), MigratingNow(Pending(chain, initial));
    BootsToMigrate(chain, initial, [], 0);
    RunExtends(chain, initial, Boots([], 0), Drop(0));
    assert With(empty, 0, a).attempts == map[0 := a];
    assert map[0 := a][0 := Dropped(a)] == map[0 := Dropped(a)];
  }

  /** With the drop of one holder, two migrate at a time, and whatever is missing first is applied twice. */
  lemma DroppedLockAppliesTwice(chain: seq<Migration>, initial: seq<Migration>)
    requires Pending(chain, initial) != []
    ensures var s := Run(chain, initial, DropWhileHolding());
      && s.ledger == initial + [Pending(chain, initial)[0]] + [Pending(chain, initial)[0]]
      && 0 in s.attempts && 1 in s.attempts && Critical(s.attempts[0].pc) && Critical(s.attempts[1].pc)
  {
    var both := Boots(HolderDrops(), 1);
    DropFreesTheLock(chain, initial);
    BootsToMigrate(chain, initial, HolderDrops(), 1);
    RunExtends(chain, initial, both, Commit(0, 1));
    RunExtends(chain, initial, both + [Commit(0, 1)], Commit(1, 1));
    BothCommit(chain, Run(chain, initial, both), Pending(chain, initial));
  }

  lemma BothCommit(chain: seq<Migration>, s: State, todo: seq<Migration>)
    requires 0 in s.attempts && s.attempts[0].pc == Migrating(todo) && todo != []
    requires 1 in s.attempts && s.attempts[1].pc == Migrating(todo)
    ensures var t := Step(chain, Step(chain, s, Commit(0, 1)), Commit(1, 1));
      && t.ledger == s.ledger + [todo[0]] + [todo[0]]
      && 0 in t.attempts && 1 in t.attempts && Critical(t.attempts[0].pc) && Critical(t.attempts[1].pc)
  {
    assert todo[..1] == [todo[0]];
  }
}
