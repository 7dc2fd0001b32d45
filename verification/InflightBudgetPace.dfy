/** The pace check of the in-flight body budget: whom it never drops, and what it leaves held. */
module InflightBudgetPace {
  import opened Basics
  import opened InflightBudget
  import opened InflightBudgetSafety
  import opened InflightBudgetTiming

  function Target(f: Flight): int { if f.declared.Some? then f.declared.value else f.reserved }

  function Received(s: State, f: Flight): int { ReadOn(s, f.socket) - f.startBytes }

  /** The sender has delivered its target, or as much of it as the elapsed part of the request timeout. */
  predicate OnPace(cfg: Config, s: State, f: Flight) {
    Received(s, f) >= Target(f) || Received(s, f) * cfg.requestTimeoutMs >= Target(f) * (s.now - f.admittedAt)
  }

  /** On pace at every poll of request `i` in the run. */
  predicate AlwaysOnPace(cfg: Config, events: seq<Event>, i: nat) {
    if events == [] then true
    else
      var before := events[..|events| - 1];
      var s := Run(cfg, before);
      && AlwaysOnPace(cfg, before, i)
      && (events[|events| - 1] == Polls(i) && i < |s.flights| ==> OnPace(cfg, s, s.flights[i]))
  }

  lemma OnPaceNotBehind(cfg: Config, s: State, f: Flight)
    requires OnPace(cfg, s, f) && Target(f) >= 0
    ensures !BehindPace(cfg, s, f)
  {
    LargerFactor(Target(f), s.now - f.admittedAt - STALL_TIMEOUT_MS, s.now - f.admittedAt);
  }

  /** A chunked body is never priced below its opening placeholder. */
  predicate AtLeastPlaceholder(cfg: Config, f: Flight) {
    f.declared.None? ==> f.reserved >= Charge(cfg, f.client, UndeclaredReservation(cfg))
  }

  /** Re-pricing a chunked body raises its target only to bytes that have arrived. */
  lemma RepricingKeepsPace(cfg: Config, s: State, f: Flight)
    requires f.declared.None? && AtLeastPlaceholder(cfg, f) && OnPace(cfg, s, f)
    requires f.reserved <= ActualSize(cfg, s, f)
    ensures OnPace(cfg, s, Repriced(cfg, s, f, false))
  {
    if ActualSize(cfg, s, f) > f.reserved {
      assert Received(s, f) >= ActualSize(cfg, s, f);
    }
  }

  lemma InspectKeepsPace(cfg: Config, s: State, i: nat)
    requires i < |s.flights| && FlightOk(cfg, s, s.flights[i]) && AtLeastPlaceholder(cfg, s.flights[i])
    ensures AtLeastPlaceholder(cfg, Inspect(cfg, s, i).flights[i])
    ensures OnPace(cfg, s, s.flights[i]) && s.flights[i].dropped != Some(Pace) ==>
      Inspect(cfg, s, i).flights[i].dropped != Some(Pace)
  {
    var f := s.flights[i];
    var s1 := Reconcile(cfg, s, i, false);
    var f1 := s1.flights[i];
    ReconcileKeepsFloor(cfg, s, i, false);
    if OnPace(cfg, s, f) && !f1.released {
      if f.declared.None? { RepricingKeepsPace(cfg, s, f); }
      assert OnPace(cfg, s1, f1);
      OnPaceNotBehind(cfg, s1, f1);
    }
  }

  lemma ReconcileKeepsFloor(cfg: Config, s: State, i: nat, complete: bool)
    requires i < |s.flights| && AtLeastPlaceholder(cfg, s.flights[i])
    ensures AtLeastPlaceholder(cfg, Reconcile(cfg, s, i, complete).flights[i])
    ensures Reconcile(cfg, s, i, complete).flights[i].dropped == Some(Pace) ==> s.flights[i].dropped == Some(Pace)
    ensures var f, g := s.flights[i], Reconcile(cfg, s, i, complete).flights[i];
      !g.released ==> g == f || (f.declared.None? && g == Repriced(cfg, s, f, complete))
  {
  }

  lemma PollKeepsPace(cfg: Config, s: State, i: nat)
    requires i < |s.flights| && FlightOk(cfg, s, s.flights[i]) && AtLeastPlaceholder(cfg, s.flights[i])
    ensures |Poll(cfg, s, i).flights| == |s.flights|
    ensures AtLeastPlaceholder(cfg, Poll(cfg, s, i).flights[i])
    ensures OnPace(cfg, s, s.flights[i]) && s.flights[i].dropped != Some(Pace) ==>
      Poll(cfg, s, i).flights[i].dropped != Some(Pace)
  {
    var s0 := CountPoll(s, i);
    if i in s.complete {
      ReconcileKeepsFloor(cfg, s0, i, true);
    } else {
      InspectKeepsPace(cfg, s0, i);
    }
  }

  lemma StepKeepsPace(cfg: Config, s: State, e: Event, i: nat)
    requires i < |s.flights| && FlightOk(cfg, s, s.flights[i]) && AtLeastPlaceholder(cfg, s.flights[i])
    requires i < |Step(cfg, s, e).flights|
    ensures AtLeastPlaceholder(cfg, Step(cfg, s, e).flights[i])
    ensures (e == Polls(i) ==> OnPace(cfg, s, s.flights[i])) && s.flights[i].dropped != Some(Pace) ==>
      Step(cfg, s, e).flights[i].dropped != Some(Pace)
  {
    match e {
      case Polls(j) =>
        if j == i { PollKeepsPace(cfg, s, i); } else if j < |s.flights| { PollKeepsOthers(cfg, s, j); }
      case Ends(j) =>
        if j == i {
          ReconcileKeepsFloor(cfg, s, i, true);
        } else if j < |s.flights| {
          SettleMoves(cfg, s, j);
        }
      case _ =>
    }
  }

  lemma OpenedAtPlaceholder(cfg: Config, s: State, e: Event)
    ensures |s.flights| < |Step(cfg, s, e).flights| ==>
      && |Step(cfg, s, e).flights| == |s.flights| + 1
      && AtLeastPlaceholder(cfg, Step(cfg, s, e).flights[|s.flights|])
      && Step(cfg, s, e).flights[|s.flights|].dropped == None
  {
    match e {
      case Polls(j) => if j < |s.flights| { PollKeepsOthers(cfg, s, j); }
      case Ends(j) => if j < |s.flights| { SettleMoves(cfg, s, j); }
      case _ =>
    }
  }

  /** A sender that keeps to the target's even pace is never dropped for falling behind. */
  lemma {:induction false} PacedSenderKept(cfg: Config, events: seq<Event>, i: nat)
    requires ValidConfig(cfg) && i < |Run(cfg, events).flights|
    ensures AtLeastPlaceholder(cfg, Run(cfg, events).flights[i])
    ensures AlwaysOnPace(cfg, events, i) ==> Run(cfg, events).flights[i].dropped != Some(Pace)
  {
    if events != [] {
      var before := events[..|events| - 1];
      var s := Run(cfg, before);
      RunKeepsInv(cfg, before);
      if i < |s.flights| {
        PacedSenderKept(cfg, before, i);
        assert FlightOk(cfg, s, s.flights[i]);
        StepKeepsPace(cfg, s, events[|events| - 1], i);
      } else {
        OpenedAtPlaceholder(cfg, s, events[|events| - 1]);
      }
    }
  }

  // ----- what is still held past the request timeout -----

  /** A declared body that is neither released nor settled. */
  predicate Awaited(f: Flight) { f.declared.Some? && !f.released && !f.settled }

  /**
   * While its timer runs, a declared body was short of its length at its last poll but on pace there; with
   * the timer gone, all of it has arrived.
   */
  predicate PaceOk(cfg: Config, s: State, f: Flight) {
    Awaited(f) ==>
      var seen := f.lastBytes - f.startBytes;
      && 0 < f.declared.value && f.startBytes <= f.lastBytes <= ReadOn(s, f.socket)
      && (if f.armed
          then seen < f.declared.value &&
               seen * cfg.requestTimeoutMs >= f.declared.value * (LastPollAt(f) - f.admittedAt - STALL_TIMEOUT_MS)
          else Received(s, f) >= f.declared.value)
  }

  /** A punctual poll that finds the body unfinished. */
  lemma WatchedKeepsPaceOk(cfg: Config, s: State, f: Flight)
    requires cfg.requestTimeoutMs > 0 && PaceOk(cfg, s, f) && f.armed && s.now == LastPollAt(f) + STALL_POLL_MS
    ensures PaceOk(cfg, s, Watched(cfg, s, f.(polls := f.polls + 1)))
  {
    var f1 := f.(polls := f.polls + 1);
    assert LastPollAt(f1) == s.now;
  }

  /** Whatever else happens to the world leaves it so. */
  lemma PaceOkFrame(cfg: Config, s: State, t: State, f: Flight)
    requires PaceOk(cfg, s, f) && ReadOn(s, f.socket) <= ReadOn(t, f.socket)
    ensures PaceOk(cfg, t, f)
  {
  }

  lemma ReconcileSkipsDeclared(cfg: Config, s: State, i: nat, complete: bool)
    requires i < |s.flights| && s.flights[i].declared.Some?
    ensures Reconcile(cfg, s, i, complete) == s
  {
  }

  /** What a poll makes of a declared body. */
  lemma PollOfDeclared(cfg: Config, s: State, i: nat)
    requires i < |s.flights| && s.flights[i].declared.Some? && !s.flights[i].released
    ensures |Poll(cfg, s, i).flights| == |s.flights|
    ensures var f := s.flights[i].(polls := s.flights[i].polls + 1);
      Poll(cfg, s, i).flights[i] == if i in s.complete then f.(armed := false, settled := true) else Watched(cfg, s, f)
  {
    ReconcileSkipsDeclared(cfg, CountPoll(s, i), i, i in s.complete);
  }

  /** What a step leaves of a declared, unreleased request: itself, its poll, or a request no longer awaited. */
  lemma StepOfDeclared(cfg: Config, s: State, e: Event, i: nat)
    requires i < |s.flights| && s.flights[i].declared.Some? && !s.flights[i].released
    ensures i < |Step(cfg, s, e).flights|
    ensures var f, g := s.flights[i], Step(cfg, s, e).flights[i];
      || g == f
      || !Awaited(g)
      || (e == Polls(i) && f.armed && g == Watched(cfg, s, f.(polls := f.polls + 1)))
  {
    match e {
      case Polls(j) =>
        if j == i { PollOfDeclared(cfg, s, i); } else if j < |s.flights| { PollKeepsOthers(cfg, s, j); }
      case Ends(j) =>
        if j == i {
          ReconcileSkipsDeclared(cfg, s, i, true);
        } else if j < |s.flights| {
          SettleMoves(cfg, s, j);
        }
      case _ =>
    }
  }

  /** Nothing comes back to life, and lengths stay as declared. */
  lemma StepStaysGone(cfg: Config, s: State, e: Event, i: nat)
    requires ValidConfig(cfg) && Inv(cfg, s) && i < |s.flights|
    ensures i < |Step(cfg, s, e).flights|
    ensures s.flights[i].released ==> Step(cfg, s, e).flights[i].released
    ensures Step(cfg, s, e).flights[i].declared == s.flights[i].declared
  {
    StepKeepsInv(cfg, s, e);
    RunIsDisarmed(cfg, s);
    StepMoves(cfg, s, e);
    assert ClockMove(s, e, i, s.flights[i], Step(cfg, s, e).flights[i]);
  }

  lemma StepKeepsPaceOk(cfg: Config, s: State, e: Event, i: nat)
    requires ValidConfig(cfg) && Inv(cfg, s) && cfg.requestTimeoutMs > 0 && Punctual(s, e)
    requires i < |s.flights| && PaceOk(cfg, s, s.flights[i])
    ensures i < |Step(cfg, s, e).flights| && PaceOk(cfg, Step(cfg, s, e), Step(cfg, s, e).flights[i])
  {
    var f, t := s.flights[i], Step(cfg, s, e);
    StepStaysGone(cfg, s, e, i);
    if f.declared.Some? && !f.released {
      StepOfDeclared(cfg, s, e, i);
      RunIsDisarmed(cfg, s);
      StepMoves(cfg, s, e);
      if Awaited(t.flights[i]) {
        if t.flights[i] == f {
          PaceOkFrame(cfg, s, t, f);
        } else {
          WatchedKeepsPaceOk(cfg, s, f);
          PaceOkFrame(cfg, s, t, t.flights[i]);
        }
      }
    }
  }

  lemma OpenedIsPaceOk(cfg: Config, s: State, e: Event)
    requires ValidConfig(cfg) && Inv(cfg, s) && |s.flights| < |Step(cfg, s, e).flights|
    ensures |Step(cfg, s, e).flights| == |s.flights| + 1
    ensures PaceOk(cfg, Step(cfg, s, e), Step(cfg, s, e).flights[|s.flights|])
  {
    RunIsDisarmed(cfg, s);
    StepMoves(cfg, s, e);
  }

  /** A step keeps it of the requests there were, and gives it to the one it opens. */
  lemma NextIsPaceOk(cfg: Config, s: State, e: Event, i: nat)
    requires ValidConfig(cfg) && Inv(cfg, s) && cfg.requestTimeoutMs > 0 && Punctual(s, e)
    requires i < |Step(cfg, s, e).flights| && (i < |s.flights| ==> PaceOk(cfg, s, s.flights[i]))
    ensures PaceOk(cfg, Step(cfg, s, e), Step(cfg, s, e).flights[i])
  {
    if i < |s.flights| { StepKeepsPaceOk(cfg, s, e, i); } else { OpenedIsPaceOk(cfg, s, e); }
  }

  lemma {:induction false} RunKeepsPaceOk(cfg: Config, events: seq<Event>, i: nat)
    requires ValidConfig(cfg) && OnSchedule(cfg, events) && cfg.requestTimeoutMs > 0
    requires i < |Run(cfg, events).flights|
    ensures PaceOk(cfg, Run(cfg, events), Run(cfg, events).flights[i])
  {
    if events != [] {
      var n := |events| - 1;
      var s := Run(cfg, events[..n]);
      RunKeepsInv(cfg, events[..n]);
      if i < |s.flights| { RunKeepsPaceOk(cfg, events[..n], i); }
      NextIsPaceOk(cfg, s, events[n], i);
    }
  }

  /** Short at a poll past the timeout and the grace is behind pace. */
  lemma LateAndShortIsBehind(seen: int, declared: int, timeout: int, elapsed: int)
    requires 0 < timeout <= elapsed && 0 <= declared
    ensures seen < declared ==> seen * timeout < declared * elapsed
  {
    LargerFactor(declared, timeout, elapsed);
    LargerFactor(timeout, seen + 1, Max(seen + 1, declared));
  }

  /** A whole poll period past the timeout and the grace, or its last poll past them. */
  predicate IsLate(cfg: Config, s: State, f: Flight) {
    || s.now >= f.admittedAt + cfg.requestTimeoutMs + STALL_TIMEOUT_MS + STALL_POLL_MS
    || LastPollAt(f) >= f.admittedAt + cfg.requestTimeoutMs + STALL_TIMEOUT_MS
  }

  lemma LateHasArrived(cfg: Config, s: State, f: Flight)
    requires cfg.requestTimeoutMs > 0 && Awaited(f) && PaceOk(cfg, s, f) && TimelyOk(s, f) && IsLate(cfg, s, f)
    ensures Received(s, f) >= f.declared.value && !f.armed
  {
    var elapsed := LastPollAt(f) - f.admittedAt - STALL_TIMEOUT_MS;
    if cfg.requestTimeoutMs <= elapsed {
      LateAndShortIsBehind(f.lastBytes - f.startBytes, f.declared.value, cfg.requestTimeoutMs, elapsed);
    }
  }

  /**
   * With punctual polls, a declared body that any run still holds 20 s past the request timeout, or after a
   * poll 15 s past it, has had every declared byte arrive since admission, and its timer is gone.
   */
  lemma HeldPastTimeoutHasArrived(cfg: Config, events: seq<Event>, i: nat)
    requires ValidConfig(cfg) && OnSchedule(cfg, events) && cfg.requestTimeoutMs > 0
    requires i < |Run(cfg, events).flights|
    requires Awaited(Run(cfg, events).flights[i]) && IsLate(cfg, Run(cfg, events), Run(cfg, events).flights[i])
    ensures var s, f := Run(cfg, events), Run(cfg, events).flights[i];
      Received(s, f) >= f.declared.value && !f.armed
  {
    var s := Run(cfg, events);
    RunKeepsPaceOk(cfg, events, i);
    RunKeepsTimely(cfg, events);
    assert TimelyOk(s, s.flights[i]);
    LateHasArrived(cfg, s, s.flights[i]);
  }
}
