/** The boot lock comes free again, and replicas that boot one after another all get through. */
module BootProgress {
  import opened Basics
  import opened BootMigrations

  // ----- who holds the lock -----

  /** Between asking for the lock and the end of the lock session. */
  predicate MayHold(pc: Pc) { pc.LockWait? || pc.ReadLedger? || pc.Migrating? || pc.Unlocking? || pc.Ending? }

  predicate HolderOk(s: State) {
    s.lockHolder.Some? ==> s.lockHolder.value in s.attempts && MayHold(s.attempts[s.lockHolder.value].pc)
  }

  lemma HolderStays(pc: Pc, lockLost: bool, missing: seq<Migration>)
    requires MayHold(pc) && !pc.Ending?
    ensures MayHold(AfterResolve(pc, lockLost, missing)) && MayHold(AfterReject(pc))
  {
  }

  lemma StepKeepsHolder(chain: seq<Migration>, s: State, l: Label)
    requires HolderOk(s)
    ensures HolderOk(Step(chain, s, l))
  {
    if s.lockHolder == Some(l.id) && l.id in s.attempts {
      var a := s.attempts[l.id];
      if !a.pc.Ending? { HolderStays(a.pc, a.lockLost, Pending(chain, s.ledger)); }
    }
  }

  /** In every run, under any rejections and drops, the lock is held by an attempt that has yet to end its lock session. */
  lemma {:induction false} HolderIsUnderWay(chain: seq<Migration>, initial: seq<Migration>, labels: seq<Label>)
    ensures HolderOk(Run(chain, initial, labels))
  {
    if labels != [] {
      var before := labels[..|labels| - 1];
      HolderIsUnderWay(chain, initial, before);
      StepKeepsHolder(chain, Run(chain, initial, before), labels[|labels| - 1]);
    }
  }

  /** So an attempt that has returned or thrown holds nothing, and with no holder a connected waiter is granted the lock. */
  lemma FinishedHoldsNothing(chain: seq<Migration>, initial: seq<Migration>, labels: seq<Label>, id: nat)
    requires id in Run(chain, initial, labels).attempts
    ensures var s := Run(chain, initial, labels);
      && (s.attempts[id].pc.Returned? || s.attempts[id].pc.Threw? ==> s.lockHolder != Some(id))
      && (s.lockHolder.None? && s.attempts[id].pc.LockWait? && s.attempts[id].connected ==>
            Run(chain, initial, labels + [Grant(id)]).lockHolder == Some(id))
  {
    HolderIsUnderWay(chain, initial, labels);
    RunExtends(chain, initial, labels, Grant(id));
  }

  /** The unlock frees the lock at once; when it fails, the end of the session does, whether that fails or not. */
  lemma UnlockOrEndFrees(chain: seq<Migration>, s: State, id: nat)
    requires s.lockHolder == Some(id) && id in s.attempts
    ensures s.attempts[id].pc.Unlocking? ==>
      && Step(chain, s, Resolve(id)).lockHolder.None?
      && Step(chain, Step(chain, s, Reject(id)), Resolve(id)).lockHolder.None?
      && Step(chain, Step(chain, s, Reject(id)), Reject(id)).lockHolder.None?
  {
  }

  // ----- what fails a boot -----

  function After(labels: seq<Label>, more: seq<Label>): seq<Label> { labels + more }

  /** A failure once noted stays, whatever follows. */
  lemma {:induction false} FailureStays(chain: seq<Migration>, initial: seq<Migration>, labels: seq<Label>, more: seq<Label>, id: nat)
    requires id in Run(chain, initial, labels).attempts && Run(chain, initial, labels).attempts[id].failure
    ensures id in Run(chain, initial, After(labels, more)).attempts
    ensures Run(chain, initial, After(labels, more)).attempts[id].failure
  {
    if more == [] {
      assert labels + more == labels;
    } else {
      var n := |more| - 1;
      FailureStays(chain, initial, labels, more[..n], id);
      assert labels + more == After(labels, more[..n]) + [more[n]];
      RunExtends(chain, initial, After(labels, more[..n]), more[n]);
    }
  }

  lemma FailedNeverReturns(chain: seq<Migration>, initial: seq<Migration>, labels: seq<Label>, more: seq<Label>, id: nat)
    requires id in Run(chain, initial, labels).attempts && Run(chain, initial, labels).attempts[id].failure
    ensures id in Run(chain, initial, After(labels, more)).attempts
    ensures !Run(chain, initial, After(labels, more)).attempts[id].pc.Returned?
  {
    FailureStays(chain, initial, labels, more, id);
    if Run(chain, initial, After(labels, more)).attempts[id].pc.Returned? {
      EveryExitCleansUp(chain, initial, After(labels, more), id);
    }
  }

  /**
   * An attempt of which one of these awaits rejects, or whose lock connection drops between its lock and its
   * unlock, never returns a data source, in any continuation of any run.
   */
  lemma RejectedNeverReturns(chain: seq<Migration>, initial: seq<Migration>, labels: seq<Label>, more: seq<Label>, id: nat)
    requires id in Run(chain, initial, labels).attempts
    requires var pc := Run(chain, initial, labels).attempts[id].pc;
      || pc.MigratorInit? || pc.MigratorUtc? || pc.LockConnect? || pc.SetStatementTimeout? || pc.LockWait?
      || pc.ReadLedger? || pc.Migrating? || pc.RuntimeInit? || pc.RuntimeUtc?
    ensures id in Run(chain, initial, After(labels + [Reject(id)], more)).attempts
    ensures !Run(chain, initial, After(labels + [Reject(id)], more)).attempts[id].pc.Returned?
  {
    RunExtends(chain, initial, labels, Reject(id));
    FailedNeverReturns(chain, initial, labels + [Reject(id)], more, id);
  }

  lemma DroppedNeverReturns(chain: seq<Migration>, initial: seq<Migration>, labels: seq<Label>, more: seq<Label>, id: nat)
    requires id in Run(chain, initial, labels).attempts && Run(chain, initial, labels).attempts[id].connected
    requires var pc := Run(chain, initial, labels).attempts[id].pc; pc.ReadLedger? || pc.Migrating?
    ensures id in Run(chain, initial, After(labels + [Drop(id)], more)).attempts
    ensures !Run(chain, initial, After(labels + [Drop(id)], more)).attempts[id].pc.Returned?
  {
    RunKeepsAttempts(chain, initial, labels);
    assert AttemptOk(Run(chain, initial, labels).attempts[id]);
    RunExtends(chain, initial, labels, Drop(id));
    FailedNeverReturns(chain, initial, labels + [Drop(id)], more, id);
  }

  // ----- what a dropped lock connection means -----

  /** An attempt has noticed the loss of the lock exactly when its session is gone while it holds, and has torn its pool down. */
  predicate Linked(a: Attempt) {
    && (a.pc.MigratorInit? || a.pc.MigratorUtc? || a.pc.LockConnect? ==> !a.connected)
    && (a.pc.ReadLedger? || a.pc.Migrating? ==> (a.lockLost <==> !a.connected))
    && (a.lockLost ==> a.migratorDestroyed && !a.connected)
  }

  ghost predicate AllLinked(s: State) {
    && (forall id :: id in s.attempts ==> Linked(s.attempts[id]))
    && (s.lockHolder.Some? ==> s.lockHolder.value in s.attempts && s.attempts[s.lockHolder.value].connected)
  }

  lemma MovesKeepLinked(a: Attempt, pc: Pc)
    requires AttemptOk(a) && Linked(a)
    requires pc.LockConnect? ==> !a.connected
    requires pc.SetStatementTimeout? ==> !a.lockLost
    requires pc.ReadLedger? ==> a.pc.LockWait? && a.connected
    requires pc.Migrating? ==> a.holding
    requires !pc.MigratorInit? && (pc.MigratorUtc? ==> a.pc.MigratorInit?)
    ensures Linked(Enter(a, pc))
  {
  }

  lemma ResolveKeepsLinked(chain: seq<Migration>, s: State, id: nat)
    requires AttemptsOk(s) && AllLinked(s) && id in s.attempts && CanResolve(s, id)
    ensures Linked(Resolved(chain, s.ledger, s.attempts[id]))
  {
    var a := s.attempts[id];
    assert AttemptOk(a) && Linked(a);
    match a.pc
    case Returned =>
    case Threw =>
    case _ => MovesKeepLinked(a, AfterResolve(a.pc, a.lockLost, Pending(chain, s.ledger)));
  }

  lemma RejectKeepsLinked(a: Attempt)
    requires AttemptOk(a) && Linked(a)
    ensures Linked(Rejected(a))
  {
  }

  lemma StepKeepsLinked(chain: seq<Migration>, s: State, l: Label)
    requires AttemptsOk(s) && AllLinked(s) && HolderOk(s)
    ensures AllLinked(Step(chain, s, l))
  {
    if l.id in s.attempts {
      var a := s.attempts[l.id];
      assert AttemptOk(a) && Linked(a);
      if l.Resolve? && CanResolve(s, l.id) { ResolveKeepsLinked(chain, s, l.id); }
      if l.Reject? { RejectKeepsLinked(a); }
    }
  }

  lemma {:induction false} RunKeepsLinked(chain: seq<Migration>, initial: seq<Migration>, labels: seq<Label>)
    ensures AllLinked(Run(chain, initial, labels))
  {
    if labels != [] {
      var before := labels[..|labels| - 1];
      RunKeepsLinked(chain, initial, before);
      RunKeepsAttempts(chain, initial, before);
      HolderIsUnderWay(chain, initial, before);
      StepKeepsLinked(chain, Run(chain, initial, before), labels[|labels| - 1]);
    }
  }

  /** Waiting for a lock that can no longer be granted, or on the way out of that. */
  predicate CutOff(s: State, id: nat) {
    && id in s.attempts && s.lockHolder != Some(id) && !s.attempts[id].connected
    && var pc := s.attempts[id].pc;
       || pc.SetStatementTimeout? || pc.SetIdleTimeout? || pc.LockWait? || pc.Threw?
       || pc == Ending(true) || pc == DestroyMigrator(true)
  }

  lemma StepKeepsCutOff(chain: seq<Migration>, s: State, l: Label, id: nat)
    requires CutOff(s, id)
    ensures CutOff(Step(chain, s, l), id)
  {
  }

  /**
   * An attempt whose lock connection drops before its wait for the lock resolves never holds it again, never migrates and
   * never returns, in any continuation of any run.
   */
  lemma {:induction false} DroppedWaiterNeverHolds(chain: seq<Migration>, initial: seq<Migration>, labels: seq<Label>, more: seq<Label>, id: nat)
    requires id in Run(chain, initial, labels).attempts && Run(chain, initial, labels).attempts[id].connected
    requires var pc := Run(chain, initial, labels).attempts[id].pc;
      pc.SetStatementTimeout? || pc.SetIdleTimeout? || pc.LockWait?
    ensures CutOff(Run(chain, initial, After(labels + [Drop(id)], more)), id)
  {
    if more == [] {
      assert After(labels + [Drop(id)], more) == labels + [Drop(id)];
      HolderIsUnderWay(chain, initial, labels);
      RunExtends(chain, initial, labels, Drop(id));
    } else {
      var n := |more| - 1;
      var shorter := After(labels + [Drop(id)], more[..n]);
      DroppedWaiterNeverHolds(chain, initial, labels, more[..n], id);
      assert After(labels + [Drop(id)], more) == shorter + [more[n]];
      RunExtends(chain, initial, shorter, more[n]);
      StepKeepsCutOff(chain, Run(chain, initial, shorter), more[n], id);
    }
  }

  // ----- one boot after another -----

  /** Which of the awaits whose rejection is swallowed reject. */
  datatype Luck = Luck(idle: bool, unlock: bool, end: bool, destroy: bool)

  function Outcome(id: nat, rejects: bool): Label { if rejects then Reject(id) else Resolve(id) }

  /** An await whose rejection is swallowed: going on after it is the same either way. */
  predicate Swallowed(pc: Pc) { pc.SetIdleTimeout? || pc.Unlocking? || pc.Ending? || pc.DestroyMigrator? }

  lemma SwallowedIsResolved(chain: seq<Migration>, ledger: seq<Migration>, a: Attempt)
    requires Swallowed(a.pc)
    ensures Rejected(a) == Resolved(chain, ledger, a)
  {
  }

  /** One await of attempt id settles, with the lock in someone's hands or not. */
  lemma Settles(chain: seq<Migration>, initial: seq<Migration>, labels: seq<Label>, s: State, id: nat, a: Attempt, rejects: bool)
    requires Run(chain, initial, labels) == With(s, id, a) && CanResolve(With(s, id, a), id)
    requires rejects ==> Swallowed(a.pc)
    ensures Run(chain, initial, labels + [Outcome(id, rejects)]) ==
      With(s.(lockHolder := if Frees(With(s, id, a), Outcome(id, rejects)) then None else s.lockHolder), id, Resolved(chain, s.ledger, a))
  {
    RunExtends(chain, initial, labels, Outcome(id, rejects));
    var b := Resolved(chain, s.ledger, a);
    if rejects { SwallowedIsResolved(chain, s.ledger, a); }
    assert s.attempts[id := a][id := b] == s.attempts[id := b];
  }

  function AsksForLock(labels: seq<Label>, id: nat, luck: Luck): seq<Label> {
    Connects(labels, id) + [Resolve(id)] + [Resolve(id)] + [Outcome(id, luck.idle)]
  }

  function ReadsLedger(labels: seq<Label>, id: nat, luck: Luck): seq<Label> {
    AsksForLock(labels, id, luck) + [Grant(id)] + [Resolve(id)] + [Resolve(id)]
  }

  /** All that is missing, in one transaction. */
  function Applies(labels: seq<Label>, id: nat, luck: Luck, todo: seq<Migration>): seq<Label> {
    ReadsLedger(labels, id, luck) + if todo == [] then [] else [Commit(id, |todo|)]
  }

  function LetsGo(labels: seq<Label>, id: nat, luck: Luck, todo: seq<Migration>): seq<Label> {
    Applies(labels, id, luck, todo) + [Resolve(id)] + [Outcome(id, luck.unlock)] + [Outcome(id, luck.end)]
  }

  /** A whole boot. */
  function BootsFully(labels: seq<Label>, id: nat, luck: Luck, todo: seq<Migration>): seq<Label> {
    LetsGo(labels, id, luck, todo) + [Outcome(id, luck.destroy)] + [Resolve(id)] + [Resolve(id)]
  }

  const ENDED := Attempt(DestroyMigrator(false), false, false, false, true, true, true, false, false)
  const BOOTED := ENDED.(pc := Returned, runtimeOpen := true)

  lemma ReachesLock(chain: seq<Migration>, initial: seq<Migration>, labels: seq<Label>, id: nat, luck: Luck)
    requires id !in Run(chain, initial, labels).attempts && Run(chain, initial, labels).lockHolder.None?
    ensures Run(chain, initial, AsksForLock(labels, id, luck)) == With(Run(chain, initial, labels), id, WAITING)
  {
    var s, c := Run(chain, initial, labels), Connects(labels, id);
    BootsToConnect(chain, initial, labels, id);
    Advances(chain, initial, c, s, id, CONNECTING);
    Advances(chain, initial, c + [Resolve(id)], s, id, WAITING.(pc := SetStatementTimeout));
    Settles(chain, initial, c + [Resolve(id)] + [Resolve(id)], s, id, WAITING.(pc := SetIdleTimeout), luck.idle);
  }

  lemma ReachesLedger(chain: seq<Migration>, initial: seq<Migration>, labels: seq<Label>, id: nat, luck: Luck)
    requires id !in Run(chain, initial, labels).attempts && Run(chain, initial, labels).lockHolder.None?
    ensures var s := Run(chain, initial, labels);
      Run(chain, initial, ReadsLedger(labels, id, luck)) ==
      With(s.(lockHolder := Some(id)), id, MigratingNow(Pending(chain, s.ledger)))
  {
    var s, asked := Run(chain, initial, labels), AsksForLock(labels, id, luck);
    var held := s.(lockHolder := Some(id));
    ReachesLock(chain, initial, labels, id, luck);
    RunExtends(chain, initial, asked, Grant(id));
    assert Run(chain, initial, asked + [Grant(id)]) == With(held, id, WAITING);
    Advances(chain, initial, asked + [Grant(id)], held, id, WAITING);
    Advances(chain, initial, asked + [Grant(id)] + [Resolve(id)], held, id, WAITING.(pc := ReadLedger, holding := true));
  }

  lemma AppliesAll(chain: seq<Migration>, initial: seq<Migration>, labels: seq<Label>, id: nat, luck: Luck)
    requires id !in Run(chain, initial, labels).attempts && Run(chain, initial, labels).lockHolder.None?
    ensures var s := Run(chain, initial, labels);
      var todo := Pending(chain, s.ledger);
      Run(chain, initial, Applies(labels, id, luck, todo)) ==
      With(s.(lockHolder := Some(id), ledger := s.ledger + todo), id, MigratingNow([]))
  {
    var s, before := Run(chain, initial, labels), ReadsLedger(labels, id, luck);
    var todo := Pending(chain, s.ledger);
    ReachesLedger(chain, initial, labels, id, luck);
    if todo == [] {
      assert s.ledger + todo == s.ledger && before + [] == before;
    } else {
      RunExtends(chain, initial, before, Commit(id, |todo|));
      assert todo[..|todo|] == todo && todo[|todo|..] == [];
      var a, b := MigratingNow(todo), MigratingNow([]);
      assert s.attempts[id := a][id := b] == s.attempts[id := b];
    }
  }

  const UNLOCKING := WAITING.(pc := Unlocking(false))
  const ENDING := UNLOCKING.(pc := Ending(false), endCalled := true)

  /** From a finished migration over the unlock to the end of the session. */
  lemma Unlocks(chain: seq<Migration>, initial: seq<Migration>, labels: seq<Label>, s: State, id: nat, rejects: bool)
    requires s.lockHolder == Some(id) && Run(chain, initial, labels) == With(s, id, MigratingNow([]))
    ensures Run(chain, initial, labels + [Resolve(id)] + [Outcome(id, rejects)]) ==
      With(s.(lockHolder := if rejects then Some(id) else None), id, ENDING)
  {
    Settles(chain, initial, labels, s, id, MigratingNow([]), false);
    Settles(chain, initial, labels + [Resolve(id)], s, id, UNLOCKING, rejects);
  }

  lemma EndsSession(chain: seq<Migration>, initial: seq<Migration>, labels: seq<Label>, s: State, id: nat, rejects: bool)
    requires s.lockHolder == None || s.lockHolder == Some(id)
    requires Run(chain, initial, labels) == With(s, id, ENDING)
    ensures Run(chain, initial, labels + [Outcome(id, rejects)]) == With(s.(lockHolder := None), id, ENDED)
  {
    Settles(chain, initial, labels, s, id, ENDING, rejects);
  }

  lemma LetsGoOfLock(chain: seq<Migration>, initial: seq<Migration>, labels: seq<Label>, id: nat, luck: Luck)
    requires id !in Run(chain, initial, labels).attempts && Run(chain, initial, labels).lockHolder.None?
    ensures var s := Run(chain, initial, labels);
      var todo := Pending(chain, s.ledger);
      Run(chain, initial, LetsGo(labels, id, luck, todo)) == With(s.(ledger := s.ledger + todo), id, ENDED)
  {
    var s := Run(chain, initial, labels);
    var todo := Pending(chain, s.ledger);
    var applied := Applies(labels, id, luck, todo);
    var held := s.(lockHolder := Some(id), ledger := s.ledger + todo);
    AppliesAll(chain, initial, labels, id, luck);
    Unlocks(chain, initial, applied, held, id, luck.unlock);
    EndsSession(chain, initial, applied + [Resolve(id)] + [Outcome(id, luck.unlock)],
      held.(lockHolder := if luck.unlock then Some(id) else None), id, luck.end);
  }

  lemma OpensRuntime(chain: seq<Migration>, initial: seq<Migration>, labels: seq<Label>, s: State, id: nat, rejects: bool)
    requires s.lockHolder.None? && Run(chain, initial, labels) == With(s, id, ENDED)
    ensures Run(chain, initial, labels + [Outcome(id, rejects)] + [Resolve(id)] + [Resolve(id)]) == With(s, id, BOOTED)
  {
    var runtime := ENDED.(pc := RuntimeInit, runtimeOpen := true);
    var destroyed := labels + [Outcome(id, rejects)];
    Settles(chain, initial, labels, s, id, ENDED, rejects);
    Settles(chain, initial, destroyed, s, id, runtime, false);
    Settles(chain, initial, destroyed + [Resolve(id)], s, id, runtime.(pc := RuntimeUtc), false);
  }

  /** A boot that finds the lock free gets through, whichever of the swallowed awaits reject, and leaves the lock free. */
  lemma BootGetsThrough(chain: seq<Migration>, initial: seq<Migration>, labels: seq<Label>, id: nat, luck: Luck)
    requires id !in Run(chain, initial, labels).attempts && Run(chain, initial, labels).lockHolder.None?
    ensures var s := Run(chain, initial, labels);
      var todo := Pending(chain, s.ledger);
      Run(chain, initial, BootsFully(labels, id, luck, todo)) == With(s.(ledger := s.ledger + todo), id, BOOTED)
  {
    var s := Run(chain, initial, labels);
    var todo := Pending(chain, s.ledger);
    LetsGoOfLock(chain, initial, labels, id, luck);
    OpensRuntime(chain, initial, LetsGo(labels, id, luck, todo), s.(ledger := s.ledger + todo), id, luck.destroy);
  }

  lemma {:induction false} NothingPending(chain: seq<Migration>, ledger: seq<Migration>)
    requires Full(chain, ledger)
    ensures Pending(chain, ledger) == []
  {
    if chain != [] { NothingPending(chain[1..], ledger); }
  }

  /** The ledger once n replicas have each applied what they found missing. */
  function LedgerAfter(chain: seq<Migration>, initial: seq<Migration>, n: nat): seq<Migration> {
    if n == 0 then initial
    else LedgerAfter(chain, initial, n - 1) + Pending(chain, LedgerAfter(chain, initial, n - 1))
  }

  /** The first n replicas and no others have returned, the lock is free, and the ledger is this. */
  ghost predicate AllReturned(s: State, n: nat, ledger: seq<Migration>) {
    && s.lockHolder.None? && s.ledger == ledger
    && (forall id: nat :: id in s.attempts <==> id < n)
    && (forall id: nat :: id < n ==> s.attempts[id].pc.Returned?)
  }

  /** The next replica boots, with the luck it is given, behind any run that left the others so. */
  lemma NextReturns(chain: seq<Migration>, initial: seq<Migration>, labels: seq<Label>, n: nat, luck: Luck, ledger: seq<Migration>)
    returns (longer: seq<Label>)
    requires AllReturned(Run(chain, initial, labels), n, ledger)
    ensures AllReturned(Run(chain, initial, longer), n + 1, ledger + Pending(chain, ledger))
  {
    var s := Run(chain, initial, labels);
    assert n !in s.attempts;
    longer := BootsFully(labels, n, luck, Pending(chain, ledger));
    BootGetsThrough(chain, initial, labels, n, luck);
  }

  lemma {:induction false} ReturnInTurn(chain: seq<Migration>, initial: seq<Migration>, luck: nat -> Luck, n: nat)
    returns (labels: seq<Label>)
    ensures AllReturned(Run(chain, initial, labels), n, LedgerAfter(chain, initial, n))
  {
    if n == 0 {
      labels := [];
    } else {
      labels := ReturnInTurn(chain, initial, luck, n - 1);
      labels := NextReturns(chain, initial, labels, n - 1, luck(n - 1), LedgerAfter(chain, initial, n - 1));
    }
  }

  /** The first applies all that is missing, the others nothing. */
  lemma {:induction false} FirstAppliesAll(chain: seq<Migration>, initial: seq<Migration>, n: nat)
    requires n >= 1
    ensures LedgerAfter(chain, initial, n) == initial + Pending(chain, initial)
  {
    var ledger := initial + Pending(chain, initial);
    if n > 1 {
      FirstAppliesAll(chain, initial, n - 1);
      PendingCompletes(chain, initial);
      NothingPending(chain, ledger);
      assert ledger + [] == ledger;
    } else {
      assert LedgerAfter(chain, initial, 0) == initial;
    }
  }

  /**
   * For any chain, ledger and number of replicas, and whichever swallowed awaits reject, there is a run in
   * which they boot one after another and all return, the chain is applied, and the lock is free.
   */
  lemma AllBoot(chain: seq<Migration>, initial: seq<Migration>, luck: nat -> Luck, n: nat) returns (labels: seq<Label>)
    requires n >= 1
    ensures AllReturned(Run(chain, initial, labels), n, initial + Pending(chain, initial))
  {
    labels := ReturnInTurn(chain, initial, luck, n);
    FirstAppliesAll(chain, initial, n);
  }
}
