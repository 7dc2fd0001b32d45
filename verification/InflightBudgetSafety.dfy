/** What every run of the in-flight body budget keeps, whatever the order of its callbacks. */
module InflightBudgetSafety {
  import opened Basics
  import opened InflightBudget

  // ----- sums -----

  lemma {:induction false} SumUpdate(cfg: Config, scope: Scope, m: Measure, s: seq<Flight>, i: nat, f: Flight)
    requires i < |s|
    ensures Sum(cfg, scope, m, s[i := f])
         == Sum(cfg, scope, m, s) - Weight(cfg, scope, m, s[i]) + Weight(cfg, scope, m, f)
  {
    var n := |s| - 1;
    if i == n {
      assert s[i := f][..n] == s[..n];
    } else {
      assert s[i := f][..n] == s[..n][i := f];
      SumUpdate(cfg, scope, m, s[..n], i, f);
    }
  }

  lemma SumAppend(cfg: Config, scope: Scope, m: Measure, s: seq<Flight>, f: Flight)
    ensures Sum(cfg, scope, m, s + [f]) == Sum(cfg, scope, m, s) + Weight(cfg, scope, m, f)
  {
    assert (s + [f])[..|s|] == s;
  }

  /** A measure that is nowhere larger sums to no more. */
  lemma {:induction false} SumOrdered(cfg: Config, s1: Scope, m1: Measure, s2: Scope, m2: Measure, s: seq<Flight>)
    requires forall i :: 0 <= i < |s| ==> Weight(cfg, s1, m1, s[i]) <= Weight(cfg, s2, m2, s[i])
    ensures Sum(cfg, s1, m1, s) <= Sum(cfg, s2, m2, s)
  {
    if s != [] { SumOrdered(cfg, s1, m1, s2, m2, s[..|s| - 1]); }
  }

  lemma {:induction false} SumSplits(cfg: Config, scope: Scope, s: seq<Flight>)
    ensures Sum(cfg, scope, Held, s) == Sum(cfg, scope, Firm, s) + Sum(cfg, scope, Grown, s)
  {
    if s != [] { SumSplits(cfg, scope, s[..|s| - 1]); }
  }

  // ----- the invariant -----

  predicate Idle(flights: seq<Flight>) {
    forall i :: 0 <= i < |flights| ==> flights[i].released
  }

  /** A released request has no timer left. */
  predicate Disarmed(flights: seq<Flight>) {
    forall i :: 0 <= i < |flights| && flights[i].released ==> !flights[i].armed
  }

  predicate FlightOk(cfg: Config, s: State, f: Flight) {
    && 0 <= f.grown
    && f.grown < f.reserved
    && (!f.settled || f.declared.Some? ==> f.grown == 0)
    && (f.released || f.settled ==> !f.armed)
    && (f.dropped.Some? ==> f.released)
    && f.startBytes <= f.lastBytes <= ReadOn(s, f.socket)
    && f.reserved <= ActualOrDeclared(cfg, s, f)
  }

  function ActualOrDeclared(cfg: Config, s: State, f: Flight): int {
    if f.declared.Some? then Charge(cfg, f.client, f.declared.value) else ActualSize(cfg, s, f)
  }

  function Limit(cfg: Config, scope: Scope): int {
    match scope
    case Everyone => cfg.budget
    case Anonymous => cfg.anonPool
    case One(c) => ShareCap(cfg, c)
  }

  ghost predicate WithinLimits(cfg: Config, flights: seq<Flight>) {
    forall scope :: Sum(cfg, scope, Firm, flights) <= Limit(cfg, scope)
  }

  function TrackedAddresses(flights: seq<Flight>): set<Client> {
    set c | c in LiveClients(flights) && c.ByAddress?
  }

  ghost predicate FlightsOk(cfg: Config, s: State) {
    forall i :: 0 <= i < |s.flights| ==> FlightOk(cfg, s, s.flights[i])
  }

  ghost predicate Inv(cfg: Config, s: State) {
    && FlightsOk(cfg, s)
    && WithinLimits(cfg, s.flights)
    && |TrackedAddresses(s.flights)| <= MAX_TRACKED_CLIENTS
  }

  lemma LimitsPositive(cfg: Config)
    requires ValidConfig(cfg)
    ensures forall scope :: 0 < Limit(cfg, scope)
  {
  }

  lemma ChargeMonotone(cfg: Config, c: Client, a: int, b: int)
    requires a <= b
    ensures Charge(cfg, c, a) <= Charge(cfg, c, b)
  {
  }

  // ----- replacing one flight -----

  lemma SubsetSize<T>(a: set<T>, b: set<T>)
    requires a <= b
    ensures |a| <= |b|
  {
    if a != {} {
      var x :| x in a;
      SubsetSize(a - {x}, b - {x});
    }
  }

  lemma ReplaceKeepsLimits(cfg: Config, flights: seq<Flight>, i: nat, f: Flight)
    requires WithinLimits(cfg, flights) && i < |flights|
    requires forall scope :: Weight(cfg, scope, Firm, f) <= Weight(cfg, scope, Firm, flights[i])
    ensures WithinLimits(cfg, flights[i := f])
  {
    forall scope ensures Sum(cfg, scope, Firm, flights[i := f]) <= Limit(cfg, scope) {
      SumUpdate(cfg, scope, Firm, flights, i, f);
      assert Weight(cfg, scope, Firm, f) <= Weight(cfg, scope, Firm, flights[i]);
    }
  }

  /** A flight may be replaced by one that is live no longer, or is no firmer than before. */
  lemma ReplaceKeepsInv(cfg: Config, s: State, i: nat, f: Flight)
    requires Inv(cfg, s) && i < |s.flights| && FlightOk(cfg, s, f)
    requires f.client == s.flights[i].client
    requires s.flights[i].released ==> f.released
    requires f.released || f.reserved - f.grown <= s.flights[i].reserved - s.flights[i].grown
    ensures Inv(cfg, s.(flights := s.flights[i := f]))
  {
    assert FlightOk(cfg, s, s.flights[i]);
    ReplaceKeepsLimits(cfg, s.flights, i, f);
    ReplaceKeepsClients(cfg, s, i, f);
    ReplaceKeepsFlights(cfg, s, i, f);
  }

  lemma ReplaceKeepsFlights(cfg: Config, s: State, i: nat, f: Flight)
    requires FlightsOk(cfg, s) && i < |s.flights| && FlightOk(cfg, s, f)
    ensures FlightsOk(cfg, s.(flights := s.flights[i := f]))
  {
    var t := s.(flights := s.flights[i := f]);
    forall j | 0 <= j < |t.flights| ensures FlightOk(cfg, t, t.flights[j]) {
      FlightOkFrame(cfg, s, t, t.flights[j]);
    }
  }

  lemma FlightOkFrame(cfg: Config, s: State, t: State, f: Flight)
    requires FlightOk(cfg, s, f) && ReadOn(s, f.socket) <= ReadOn(t, f.socket)
    ensures FlightOk(cfg, t, f)
  {
    var u := UndeclaredReservation(cfg);
    ChargeMonotone(cfg, f.client, Max(u, ReadOn(s, f.socket) - f.startBytes), Max(u, ReadOn(t, f.socket) - f.startBytes));
  }

  lemma ReplaceKeepsClients(cfg: Config, s: State, i: nat, f: Flight)
    requires i < |s.flights|
    requires |TrackedAddresses(s.flights)| <= MAX_TRACKED_CLIENTS
    requires f.client == s.flights[i].client
    requires s.flights[i].released ==> f.released
    ensures |TrackedAddresses(s.flights[i := f])| <= MAX_TRACKED_CLIENTS
  {
    var t := s.flights[i := f];
    forall c | c in LiveClients(t) ensures c in LiveClients(s.flights) {
      var j :| 0 <= j < |t| && !t[j].released && t[j].client == c;
      assert !s.flights[j].released && s.flights[j].client == c;
    }
    SubsetSize(TrackedAddresses(t), TrackedAddresses(s.flights));
  }

  lemma FirmAtMostHeld(cfg: Config, s: State, scope: Scope)
    requires FlightsOk(cfg, s)
    ensures Sum(cfg, scope, Firm, s.flights) <= Sum(cfg, scope, Held, s.flights)
  {
    forall i | 0 <= i < |s.flights| ensures Weight(cfg, scope, Firm, s.flights[i]) <= Weight(cfg, scope, Held, s.flights[i]) {
      assert FlightOk(cfg, s, s.flights[i]);
    }
    SumOrdered(cfg, scope, Firm, scope, Held, s.flights);
  }

  // ----- the steps -----

  /** Request `i` alone changed, and its reservation was not lowered. */
  predicate OnlyMoves(before: seq<Flight>, after: seq<Flight>, i: nat) {
    && i < |before| == |after|
    && after[i].reserved >= before[i].reserved
    && forall j :: 0 <= j < |before| && j != i ==> after[j] == before[j]
  }

  lemma ReconcileKeepsInv(cfg: Config, s: State, i: nat, complete: bool)
    requires ValidConfig(cfg) && Inv(cfg, s) && i < |s.flights|
    requires !complete ==> !s.flights[i].settled
    ensures complete && !s.flights[i].released ==>
      Inv(cfg, s.(flights := Reconcile(cfg, s, i, true).flights[i := Reconcile(cfg, s, i, true).flights[i].(armed := false, settled := true)]))
    ensures !complete ==> Inv(cfg, Reconcile(cfg, s, i, complete))
    ensures OnlyMoves(s.flights, Reconcile(cfg, s, i, complete).flights, i)
    ensures Reconcile(cfg, s, i, complete).flights[i].settled == s.flights[i].settled
    ensures s.flights[i].released ==> Reconcile(cfg, s, i, complete) == s
  {
    var f := s.flights[i];
    var s' := Reconcile(cfg, s, i, complete);
    if complete {
      if !f.released {
        var g := s'.flights[i].(armed := false, settled := true);
        assert s'.flights[i := g] == s.flights[i := g];
        ReplaceKeepsInv(cfg, s, i, g);
      }
    } else if s'.flights != s.flights {
      if s'.flights[i].released {
        ReplaceKeepsInv(cfg, s, i, s'.flights[i]);
      } else {
        GrowthKeepsInv(cfg, s, i);
      }
    }
  }

  /** An unfinished body that grew and was not dropped is within every limit it counts towards. */
  lemma GrowthKeepsInv(cfg: Config, s: State, i: nat)
    requires ValidConfig(cfg) && Inv(cfg, s) && i < |s.flights|
    requires !s.flights[i].released && !s.flights[i].settled && s.flights[i].declared.None?
    requires Reconcile(cfg, s, i, false).flights != s.flights
    requires !Reconcile(cfg, s, i, false).flights[i].released
    ensures Inv(cfg, Reconcile(cfg, s, i, false))
  {
    var g := Repriced(cfg, s, s.flights[i], false);
    assert FlightOk(cfg, s, s.flights[i]);
    assert FlightOk(cfg, s, g);
    assert Overrun(cfg, s.flights[i := g], g) == None;
    ReplaceKeepsFlights(cfg, s, i, g);
    GrowthKeepsLimits(cfg, s, i, g);
    ReplaceKeepsClients(cfg, s, i, g);
  }

  lemma GrowthKeepsLimits(cfg: Config, s: State, i: nat, g: Flight)
    requires WithinLimits(cfg, s.flights) && i < |s.flights| && !s.flights[i].released
    requires g.client == s.flights[i].client && !g.released
    requires FlightsOk(cfg, s.(flights := s.flights[i := g]))
    requires Overrun(cfg, s.flights[i := g], g) == None
    ensures WithinLimits(cfg, s.flights[i := g])
  {
    var t := s.flights[i := g];
    forall scope ensures Sum(cfg, scope, Firm, t) <= Limit(cfg, scope) {
      SumUpdate(cfg, scope, Firm, s.flights, i, g);
      FirmAtMostHeld(cfg, s.(flights := t), scope);
    }
  }

  lemma SettleKeepsInv(cfg: Config, s: State, i: nat)
    requires ValidConfig(cfg) && Inv(cfg, s) && i < |s.flights|
    ensures Inv(cfg, Settle(cfg, s, i))
    ensures OnlyMoves(s.flights, Settle(cfg, s, i).flights, i)
    ensures s.flights[i].released ==> Settle(cfg, s, i) == s
  {
    ReconcileKeepsInv(cfg, s, i, true);
  }

  lemma WatchingIsHarmless(cfg: Config, s: State, f: Flight)
    requires FlightOk(cfg, s, f) && !f.settled
    ensures FlightOk(cfg, s, Watched(cfg, s, f))
    ensures Watched(cfg, s, f).client == f.client
    ensures Watched(cfg, s, f).reserved == f.reserved && Watched(cfg, s, f).grown == f.grown
  {
  }

  lemma InspectKeepsInv(cfg: Config, s: State, i: nat)
    requires ValidConfig(cfg) && Inv(cfg, s) && i < |s.flights| && !s.flights[i].settled
    ensures Inv(cfg, Inspect(cfg, s, i))
    ensures OnlyMoves(s.flights, Inspect(cfg, s, i).flights, i)
  {
    ReconcileKeepsInv(cfg, s, i, false);
    var s1 := Reconcile(cfg, s, i, false);
    if !s1.flights[i].released {
      assert FlightOk(cfg, s1, s1.flights[i]);
      WatchingIsHarmless(cfg, s1, s1.flights[i]);
      ReplaceKeepsInv(cfg, s1, i, Watched(cfg, s1, s1.flights[i]));
    }
  }

  lemma PollKeepsInv(cfg: Config, s: State, i: nat)
    requires ValidConfig(cfg) && Inv(cfg, s) && i < |s.flights| && s.flights[i].armed
    ensures Inv(cfg, Poll(cfg, s, i))
    ensures OnlyMoves(s.flights, Poll(cfg, s, i).flights, i)
  {
    assert FlightOk(cfg, s, s.flights[i]);
    ReplaceKeepsInv(cfg, s, i, s.flights[i].(polls := s.flights[i].polls + 1));
    if i in s.complete {
      SettleKeepsInv(cfg, CountPoll(s, i), i);
    } else {
      InspectKeepsInv(cfg, CountPoll(s, i), i);
    }
  }

  lemma AdmissionKeepsInv(cfg: Config, s: State, h: Head)
    requires ValidConfig(cfg) && Inv(cfg, s)
    ensures Inv(cfg, Step(cfg, s, Arrives(h)))
  {
    var v := Decide(cfg, s.flights, h);
    if v.Admitted? {
      var f := Opened(s, h, v.charge);
      assert FlightOk(cfg, s, f);
      AdmissionKeepsLimits(cfg, s, h, f);
      AdmissionKeepsClients(s.flights, f);
      AdmissionKeepsFlights(cfg, s, f);
    }
  }

  lemma AdmissionKeepsFlights(cfg: Config, s: State, f: Flight)
    requires FlightsOk(cfg, s) && FlightOk(cfg, s, f)
    ensures FlightsOk(cfg, s.(flights := s.flights + [f]))
  {
    var t := s.(flights := s.flights + [f]);
    forall i | 0 <= i < |t.flights| ensures FlightOk(cfg, t, t.flights[i]) {
      FlightOkFrame(cfg, s, t, t.flights[i]);
    }
  }

  lemma AdmissionKeepsLimits(cfg: Config, s: State, h: Head, f: Flight)
    requires FlightsOk(cfg, s) && WithinLimits(cfg, s.flights)
    requires !Busy(cfg, s.flights, h) && f.client == h.client && f.reserved == Charge(cfg, h.client, Wanted(cfg, h)) && f.grown == 0
    ensures WithinLimits(cfg, s.flights + [f])
  {
    forall scope ensures Sum(cfg, scope, Firm, s.flights + [f]) <= Limit(cfg, scope) {
      SumAppend(cfg, scope, Firm, s.flights, f);
      FirmAtMostHeld(cfg, s, scope);
    }
  }

  lemma AdmissionKeepsClients(flights: seq<Flight>, f: Flight)
    requires |TrackedAddresses(flights)| <= MAX_TRACKED_CLIENTS
    requires f.client.ByAddress? && f.client !in LiveClients(flights) ==> |LiveClients(flights)| < MAX_TRACKED_CLIENTS
    ensures |TrackedAddresses(flights + [f])| <= MAX_TRACKED_CLIENTS
  {
    var t := flights + [f];
    forall c | c in LiveClients(t) ensures c in LiveClients(flights) || c == f.client {
      var j :| 0 <= j < |t| && !t[j].released && t[j].client == c;
      if j < |flights| { assert flights[j] == t[j]; }
    }
    SubsetSize(TrackedAddresses(flights), LiveClients(flights));
    if f.client.ByAddress? && f.client !in LiveClients(flights) {
      SubsetSize(TrackedAddresses(t), TrackedAddresses(flights) + {f.client});
    } else {
      SubsetSize(TrackedAddresses(t), TrackedAddresses(flights));
    }
  }

  lemma EnvironmentKeepsInv(cfg: Config, s: State, s': State)
    requires Inv(cfg, s) && s'.flights == s.flights
    requires forall k :: ReadOn(s, k) <= ReadOn(s', k)
    ensures Inv(cfg, s')
  {
    forall i | 0 <= i < |s.flights| ensures FlightOk(cfg, s', s.flights[i]) {
      FlightOkFrame(cfg, s, s', s.flights[i]);
    }
  }

  /** Every step keeps the invariant, never lowers a reservation, and leaves an ended request alone. */
  lemma StepKeepsInv(cfg: Config, s: State, e: Event)
    requires ValidConfig(cfg) && Inv(cfg, s)
    ensures Inv(cfg, Step(cfg, s, e))
    ensures |s.flights| <= |Step(cfg, s, e).flights|
    ensures forall i :: 0 <= i < |s.flights| ==> Step(cfg, s, e).flights[i].reserved >= s.flights[i].reserved
    ensures forall i :: 0 <= i < |s.flights| && s.flights[i].released ==> Step(cfg, s, e).flights[i] == s.flights[i]
  {
    match e {
      case Arrives(h) => AdmissionKeepsInv(cfg, s, h);
      case Polls(i) => if i < |s.flights| && s.flights[i].armed { PollKeepsInv(cfg, s, i); }
      case Ends(i) => if i < |s.flights| { SettleKeepsInv(cfg, s, i); }
      case Terminates(i, _) =>
        if i < |s.flights| && !s.flights[i].released { ReplaceKeepsInv(cfg, s, i, Released(s.flights[i])); }
      case Receives(_, _) => EnvironmentKeepsInv(cfg, s, Step(cfg, s, e));
      case Completes(_) => EnvironmentKeepsInv(cfg, s, Step(cfg, s, e));
      case Passes(_) => EnvironmentKeepsInv(cfg, s, Step(cfg, s, e));
    }
  }

  lemma {:induction false} RunKeepsInv(cfg: Config, events: seq<Event>)
    requires ValidConfig(cfg)
    ensures Inv(cfg, Run(cfg, events))
  {
    if events == [] {
      LimitsPositive(cfg);
      assert forall scope :: Sum(cfg, scope, Firm, []) == 0;
    } else {
      RunKeepsInv(cfg, events[..|events| - 1]);
      StepKeepsInv(cfg, Run(cfg, events[..|events| - 1]), events[|events| - 1]);
    }
  }

  // ----- the promises -----

  /**
   * In every reachable state the bytes priced to bodies still arriving fit the budget, the anonymous
   * pool and each client's share, and what is held beyond a limit is at most what live chunked
   * bodies grew by when they completed.
   */
  lemma ArrivingWithinEveryLimit(cfg: Config, events: seq<Event>, scope: Scope)
    requires ValidConfig(cfg)
    ensures Sum(cfg, scope, Arriving, Run(cfg, events).flights) <= Limit(cfg, scope)
    ensures Sum(cfg, scope, Held, Run(cfg, events).flights)
         <= Limit(cfg, scope) + Sum(cfg, scope, Grown, Run(cfg, events).flights)
  {
    var s := Run(cfg, events);
    RunKeepsInv(cfg, events);
    SumOrdered(cfg, scope, Arriving, scope, Firm, s.flights);
    SumSplits(cfg, scope, s.flights);
  }

  predicate AllDeclared(flights: seq<Flight>) {
    forall i :: 0 <= i < |flights| && !flights[i].released ==> flights[i].declared.Some?
  }

  /** With only declared bodies in flight nothing is ever over a limit. */
  lemma DeclaredNeverOver(cfg: Config, events: seq<Event>, scope: Scope)
    requires ValidConfig(cfg) && AllDeclared(Run(cfg, events).flights)
    ensures Sum(cfg, scope, Held, Run(cfg, events).flights) <= Limit(cfg, scope)
  {
    var s := Run(cfg, events);
    RunKeepsInv(cfg, events);
    DeclaredIsFirm(cfg, s, scope);
  }

  lemma DeclaredIsFirm(cfg: Config, s: State, scope: Scope)
    requires FlightsOk(cfg, s) && AllDeclared(s.flights)
    ensures Sum(cfg, scope, Held, s.flights) <= Sum(cfg, scope, Firm, s.flights)
  {
    forall i | 0 <= i < |s.flights|
      ensures Weight(cfg, scope, Held, s.flights[i]) <= Weight(cfg, scope, Firm, s.flights[i])
    {
      assert FlightOk(cfg, s, s.flights[i]);
    }
    SumOrdered(cfg, scope, Held, scope, Firm, s.flights);
  }

  /** A reservation only grows until it is released, and a released one is final, over any stretch of a run. */
  lemma {:induction false} ReservationsOnlyGrow(cfg: Config, before: seq<Event>, after: seq<Event>, i: nat)
    requires ValidConfig(cfg) && i < |Run(cfg, before).flights|
    ensures i < |Run(cfg, before + after).flights|
    ensures Run(cfg, before).flights[i].reserved <= Run(cfg, before + after).flights[i].reserved
    ensures Run(cfg, before).flights[i].released ==> Run(cfg, before + after).flights[i] == Run(cfg, before).flights[i]
  {
    if after == [] {
      assert before + after == before;
    } else {
      var n := |after| - 1;
      ReservationsOnlyGrow(cfg, before, after[..n], i);
      assert (before + after)[..|before + after| - 1] == before + after[..n];
      RunKeepsInv(cfg, before + after[..n]);
      StepKeepsInv(cfg, Run(cfg, before + after[..n]), after[n]);
    }
  }

  /** The cap on the client map holds in every reachable state: spoofed addresses cannot widen it. */
  lemma TrackedAddressesBounded(cfg: Config, events: seq<Event>)
    requires ValidConfig(cfg)
    ensures |TrackedAddresses(Run(cfg, events).flights)| <= MAX_TRACKED_CLIENTS
  {
    RunKeepsInv(cfg, events);
  }
}
