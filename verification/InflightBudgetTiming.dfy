/** When the poll of the in-flight body budget drops a body, and when it cannot. */
module InflightBudgetTiming {
  import opened Basics
  import opened InflightBudget
  import opened InflightBudgetSafety

  /** The moment the latest byte arrived on the request's socket since admission, or the admission itself. */
  function LastByteAt(s: State, f: Flight): int {
    if f.socket in s.lastReceive then Max(f.admittedAt, s.lastReceive[f.socket]) else f.admittedAt
  }

  function LastPollAt(f: Flight): int { f.admittedAt + STALL_POLL_MS * f.polls }

  /** The timer of every armed request fires exactly when it is due, never early and never late. */
  predicate Punctual(s: State, e: Event) {
    match e
    case Polls(i) => i < |s.flights| && s.flights[i].armed ==> s.now == LastPollAt(s.flights[i]) + STALL_POLL_MS
    case Passes(ms) =>
      forall i :: 0 <= i < |s.flights| && s.flights[i].armed ==> s.now + ms <= LastPollAt(s.flights[i]) + STALL_POLL_MS
    case _ => true
  }

  predicate OnSchedule(cfg: Config, events: seq<Event>) {
    if events == [] then true
    else
      var before := events[..|events| - 1];
      OnSchedule(cfg, before) && Punctual(Run(cfg, before), events[|events| - 1])
  }

  // ----- what a step does to one request, without the sums it consulted -----

  /** `g` is `f` after something that neither its timer nor its progress clock noticed. */
  predicate SameClock(f: Flight, g: Flight) {
    && g.socket == f.socket && g.startBytes == f.startBytes && g.admittedAt == f.admittedAt && g.declared == f.declared
    && g.polls == f.polls && g.lastBytes == f.lastBytes && g.lastProgress == f.lastProgress
  }

  /** What a poll that found the body unfinished may leave behind. */
  predicate WatchMove(s: State, f: Flight, g: Flight) {
    var readNow := ReadOn(s, f.socket);
    if g.armed then
      && f.armed
      && (if f.lastBytes == readNow
          then SameClock(f, g) && s.now - f.lastProgress < STALL_TIMEOUT_MS
          else SameClock(f.(lastBytes := readNow, lastProgress := s.now), g))
    else
      && (SameClock(f, g) || SameClock(f.(lastBytes := readNow, lastProgress := s.now), g))
      && (g.dropped == Some(Stall) ==>
            f.dropped == Some(Stall) || (f.lastBytes == readNow && s.now - f.lastProgress >= STALL_TIMEOUT_MS))
  }

  predicate ClockMove(s: State, e: Event, i: nat, f: Flight, g: Flight) {
    if e == Polls(i) && f.armed then WatchMove(s, f.(polls := f.polls + 1), g)
    else SameClock(f, g) && (g.armed ==> f.armed) && (g.dropped == Some(Stall) ==> f.dropped == Some(Stall))
  }

  /** What the step changes around the requests. */
  predicate WorldMove(s: State, e: Event, t: State) {
    && t.now == s.now + (if e.Passes? then e.ms else 0)
    && (if e.Receives? && e.count > 0
        then t.bytesRead == s.bytesRead[e.socket := ReadOn(s, e.socket) + e.count] &&
             t.lastReceive == s.lastReceive[e.socket := s.now]
        else t.bytesRead == s.bytesRead && t.lastReceive == s.lastReceive)
  }

  lemma ReconcileMoves(cfg: Config, s: State, i: nat, complete: bool)
    requires i < |s.flights|
    ensures var f, g := s.flights[i], Reconcile(cfg, s, i, complete).flights[i];
      && SameClock(f, g) && (g.armed ==> f.armed) && (g.released ==> f.released || !g.armed)
      && (g.dropped == f.dropped || (!g.armed && g.dropped != Some(Stall) && g.dropped != Some(Pace)))
    ensures forall j :: 0 <= j < |s.flights| && j != i ==> Reconcile(cfg, s, i, complete).flights[j] == s.flights[j]
  {
  }

  lemma SettleMoves(cfg: Config, s: State, i: nat)
    requires i < |s.flights|
    ensures Settle(cfg, s, i) == s.(flights := Settle(cfg, s, i).flights) && |Settle(cfg, s, i).flights| == |s.flights|
    ensures forall j :: 0 <= j < |s.flights| && j != i ==> Settle(cfg, s, i).flights[j] == s.flights[j]
    ensures var f, g := s.flights[i], Settle(cfg, s, i).flights[i];
      && SameClock(f, g) && (g.armed ==> f.armed && f.released)
      && (g.dropped == f.dropped || (g.dropped != Some(Stall) && g.dropped != Some(Pace)))
  {
    ReconcileMoves(cfg, s, i, true);
  }

  lemma WatchedMoves(cfg: Config, s: State, f: Flight)
    ensures WatchMove(s, f, Watched(cfg, s, f))
  {
  }

  lemma InspectMoves(cfg: Config, s: State, i: nat)
    requires i < |s.flights| && !s.flights[i].released
    ensures Inspect(cfg, s, i) == s.(flights := Inspect(cfg, s, i).flights) && |Inspect(cfg, s, i).flights| == |s.flights|
    ensures forall j :: 0 <= j < |s.flights| && j != i ==> Inspect(cfg, s, i).flights[j] == s.flights[j]
    ensures WatchMove(s, s.flights[i], Inspect(cfg, s, i).flights[i])
  {
    ReconcileMoves(cfg, s, i, false);
    var s1 := Reconcile(cfg, s, i, false);
    WatchedMoves(cfg, s1, s1.flights[i]);
  }

  lemma StepMoves(cfg: Config, s: State, e: Event)
    requires Disarmed(s.flights)
    ensures WorldMove(s, e, Step(cfg, s, e))
    ensures |s.flights| <= |Step(cfg, s, e).flights|
    ensures forall i :: 0 <= i < |s.flights| ==> ClockMove(s, e, i, s.flights[i], Step(cfg, s, e).flights[i])
    ensures |s.flights| < |Step(cfg, s, e).flights| ==>
      && e.Arrives? && |Step(cfg, s, e).flights| == |s.flights| + 1
      && exists charge :: Step(cfg, s, e).flights[|s.flights|] == Opened(s, e.head, charge)
  {
    match e {
      case Polls(j) =>
        if j < |s.flights| && s.flights[j].armed {
          var s0 := CountPoll(s, j);
          if j in s.complete { SettleMoves(cfg, s0, j); } else { InspectMoves(cfg, s0, j); }
        }
      case Ends(j) => if j < |s.flights| { SettleMoves(cfg, s, j); }
      case _ =>
    }
  }

  lemma PollKeepsOthers(cfg: Config, s: State, j: nat)
    requires j < |s.flights|
    ensures |Poll(cfg, s, j).flights| == |s.flights|
    ensures forall k :: 0 <= k < |s.flights| && k != j ==> Poll(cfg, s, j).flights[k] == s.flights[k]
  {
    SettleMoves(cfg, CountPoll(s, j), j);
    ReconcileMoves(cfg, CountPoll(s, j), j, false);
  }

  // ----- silence, on any schedule -----

  predicate ClockOk(s: State) {
    forall k :: k in s.lastReceive ==> s.lastReceive[k] <= s.now
  }

  /** A body whose bytes have all been seen was last heard of no later than the poll that saw them. */
  predicate SilenceOk(s: State, f: Flight) {
    && f.startBytes <= f.lastBytes <= ReadOn(s, f.socket)
    && f.admittedAt <= f.lastProgress <= s.now
    && (f.lastBytes == ReadOn(s, f.socket) ==> LastByteAt(s, f) <= f.lastProgress)
  }

  ghost predicate Quiet(s: State) {
    ClockOk(s) && forall i :: 0 <= i < |s.flights| ==> SilenceOk(s, s.flights[i])
  }

  lemma OneStaysQuiet(s: State, e: Event, t: State, i: nat, f: Flight, g: Flight)
    requires WorldMove(s, e, t) && ClockMove(s, e, i, f, g)
    requires ClockOk(s) && SilenceOk(s, f)
    ensures ClockOk(t) && SilenceOk(t, g)
  {
  }

  lemma {:induction false} RunKeepsQuiet(cfg: Config, events: seq<Event>)
    requires ValidConfig(cfg)
    ensures Quiet(Run(cfg, events)) && Disarmed(Run(cfg, events).flights)
  {
    RunKeepsInv(cfg, events);
    RunIsDisarmed(cfg, Run(cfg, events));
    if events != [] {
      var n := |events| - 1;
      RunKeepsQuiet(cfg, events[..n]);
      var s := Run(cfg, events[..n]);
      var t := Run(cfg, events);
      StepMoves(cfg, s, events[n]);
      forall i | 0 <= i < |t.flights| ensures SilenceOk(t, t.flights[i]) {
        if i < |s.flights| { OneStaysQuiet(s, events[n], t, i, s.flights[i], t.flights[i]); }
      }
    }
  }

  lemma RunIsDisarmed(cfg: Config, s: State)
    requires FlightsOk(cfg, s)
    ensures Disarmed(s.flights)
  {
    forall i | 0 <= i < |s.flights| && s.flights[i].released ensures !s.flights[i].armed {
      assert FlightOk(cfg, s, s.flights[i]);
    }
  }

  /** Whatever the schedule, a request is dropped as stalled only after 15 s without a byte. */
  lemma StallNeedsSilence(cfg: Config, events: seq<Event>, e: Event, i: nat)
    requires ValidConfig(cfg) && i < |Run(cfg, events).flights|
    requires Run(cfg, events).flights[i].dropped != Some(Stall)
    ensures i < |Step(cfg, Run(cfg, events), e).flights|
    ensures Step(cfg, Run(cfg, events), e).flights[i].dropped == Some(Stall) ==>
      Run(cfg, events).now - LastByteAt(Run(cfg, events), Run(cfg, events).flights[i]) >= STALL_TIMEOUT_MS
  {
    var s := Run(cfg, events);
    RunKeepsQuiet(cfg, events);
    RunKeepsInv(cfg, events);
    StepMoves(cfg, s, e);
    SilenceBeforeStall(cfg, s, e, i, s.flights[i], Step(cfg, s, e).flights[i]);
  }

  lemma SilenceBeforeStall(cfg: Config, s: State, e: Event, i: nat, f: Flight, g: Flight)
    requires ClockMove(s, e, i, f, g) && SilenceOk(s, f)
    requires f.dropped != Some(Stall) && g.dropped == Some(Stall) ==> !g.armed
    ensures f.dropped != Some(Stall) && g.dropped == Some(Stall) ==> s.now - LastByteAt(s, f) >= STALL_TIMEOUT_MS
  {
  }

  // ----- the bound, on schedule -----

  /** Where an armed, unfinished request stands between two punctual polls. */
  predicate TimelyOk(s: State, f: Flight) {
    f.armed ==>
      && LastPollAt(f) <= s.now <= LastPollAt(f) + STALL_POLL_MS
      && f.lastProgress <= LastPollAt(f) <= f.lastProgress + 2 * STALL_POLL_MS
      && (f.lastProgress - f.admittedAt) % STALL_POLL_MS == 0
      && (f.lastBytes == ReadOn(s, f.socket) ==> f.lastProgress <= LastByteAt(s, f) + STALL_POLL_MS)
      && (f.lastBytes != ReadOn(s, f.socket) ==> LastPollAt(f) <= LastByteAt(s, f))
  }

  ghost predicate Timely(s: State) {
    forall i :: 0 <= i < |s.flights| ==> TimelyOk(s, s.flights[i])
  }

  predicate DueIn(s: State, e: Event, i: nat, f: Flight) {
    && (e == Polls(i) && f.armed ==> s.now == LastPollAt(f) + STALL_POLL_MS)
    && (e.Passes? && f.armed ==> s.now + e.ms <= LastPollAt(f) + STALL_POLL_MS)
  }

  lemma OneStaysTimely(s: State, e: Event, t: State, i: nat, f: Flight, g: Flight)
    requires WorldMove(s, e, t) && ClockMove(s, e, i, f, g) && DueIn(s, e, i, f)
    requires ClockOk(s) && SilenceOk(s, f) && TimelyOk(s, f)
    ensures TimelyOk(t, g)
  {
    if e == Polls(i) && g.armed && f.lastBytes == ReadOn(s, f.socket) {
      assert s.now - f.lastProgress < STALL_TIMEOUT_MS;
      assert s.now == f.admittedAt + STALL_POLL_MS * (f.polls + 1);
    }
  }

  lemma {:induction false} RunKeepsTimely(cfg: Config, events: seq<Event>)
    requires ValidConfig(cfg) && OnSchedule(cfg, events)
    ensures Timely(Run(cfg, events))
  {
    if events != [] {
      var n := |events| - 1;
      RunKeepsTimely(cfg, events[..n]);
      RunKeepsQuiet(cfg, events[..n]);
      var s := Run(cfg, events[..n]);
      var t := Run(cfg, events);
      StepMoves(cfg, s, events[n]);
      forall i | 0 <= i < |t.flights| ensures TimelyOk(t, t.flights[i]) {
        if i < |s.flights| { OneStaysTimely(s, events[n], t, i, s.flights[i], t.flights[i]); }
      }
    }
  }

  /**
   * With punctual polls a request that is still held and watched has been silent for at most 20 s:
   * an armed, unfinished body is gone no later than that after its last byte.
   */
  lemma StallWithinTwentySeconds(cfg: Config, events: seq<Event>, i: nat)
    requires ValidConfig(cfg) && OnSchedule(cfg, events)
    requires i < |Run(cfg, events).flights| && Run(cfg, events).flights[i].armed
    ensures Run(cfg, events).now - LastByteAt(Run(cfg, events), Run(cfg, events).flights[i]) <= 20_000
  {
    RunKeepsTimely(cfg, events);
    assert TimelyOk(Run(cfg, events), Run(cfg, events).flights[i]);
  }

  // ----- who is no longer watched -----

  /** All the bytes the request declared have arrived since admission. */
  predicate FullyArrived(s: State, f: Flight) {
    f.declared.Some? && ReadOn(s, f.socket) - f.startBytes >= f.declared.value
  }

  /** Held, unsettled and unwatched is fully arrived. */
  predicate UnwatchedOk(s: State, f: Flight) { f.released || f.settled || f.armed || FullyArrived(s, f) }

  lemma InspectUnwatched(cfg: Config, s: State, i: nat)
    requires i < |s.flights| && s.flights[i].armed && !s.flights[i].released
    ensures |Inspect(cfg, s, i).flights| == |s.flights| && UnwatchedOk(s, Inspect(cfg, s, i).flights[i])
  {
    ReconcileMoves(cfg, s, i, false);
    var f1 := Reconcile(cfg, s, i, false).flights[i];
    assert f1.released || f1.armed;
  }

  lemma PollUnwatched(cfg: Config, s: State, i: nat)
    requires i < |s.flights| && s.flights[i].armed && !s.flights[i].released
    ensures |Poll(cfg, s, i).flights| == |s.flights| && UnwatchedOk(s, Poll(cfg, s, i).flights[i])
  {
    if i !in s.complete { InspectUnwatched(cfg, CountPoll(s, i), i); }
  }

  /** A step that does not poll the request leaves it as it was, or ends it. */
  lemma OthersUnwatched(cfg: Config, s: State, e: Event, i: nat)
    requires i < |s.flights| && (e == Polls(i) ==> !s.flights[i].armed)
    ensures i < |Step(cfg, s, e).flights|
    ensures var f, g := s.flights[i], Step(cfg, s, e).flights[i]; g == f || g.released || g.settled
  {
    match e {
      case Polls(j) => if j < |s.flights| && j != i { PollKeepsOthers(cfg, s, j); }
      case Ends(j) => if j < |s.flights| && j != i { SettleMoves(cfg, s, j); }
      case _ =>
    }
  }

  lemma StepKeepsUnwatched(cfg: Config, s: State, e: Event, i: nat)
    requires Disarmed(s.flights) && i < |s.flights| && UnwatchedOk(s, s.flights[i])
    ensures i < |Step(cfg, s, e).flights| && UnwatchedOk(Step(cfg, s, e), Step(cfg, s, e).flights[i])
  {
    StepMoves(cfg, s, e);
    if e == Polls(i) && s.flights[i].armed { PollUnwatched(cfg, s, i); } else { OthersUnwatched(cfg, s, e, i); }
  }

  lemma {:induction false} RunKeepsUnwatched(cfg: Config, events: seq<Event>, i: nat)
    requires ValidConfig(cfg) && i < |Run(cfg, events).flights|
    ensures UnwatchedOk(Run(cfg, events), Run(cfg, events).flights[i])
  {
    if events != [] {
      var n := |events| - 1;
      var s := Run(cfg, events[..n]);
      RunKeepsQuiet(cfg, events[..n]);
      if i < |s.flights| {
        RunKeepsUnwatched(cfg, events[..n], i);
        StepKeepsUnwatched(cfg, s, events[n], i);
      } else {
        StepMoves(cfg, s, events[n]);
      }
    }
  }

  /**
   * With punctual polls, a request that has been silent for more than 20 s has been released, has settled,
   * or has had every declared byte arrive.
   */
  lemma SilentIsGoneOrArrived(cfg: Config, events: seq<Event>, i: nat)
    requires ValidConfig(cfg) && OnSchedule(cfg, events) && i < |Run(cfg, events).flights|
    requires Run(cfg, events).now - LastByteAt(Run(cfg, events), Run(cfg, events).flights[i]) > 20_000
    ensures var s, f := Run(cfg, events), Run(cfg, events).flights[i]; f.released || f.settled || FullyArrived(s, f)
  {
    RunKeepsUnwatched(cfg, events, i);
    if Run(cfg, events).flights[i].armed { StallWithinTwentySeconds(cfg, events, i); }
  }
}
