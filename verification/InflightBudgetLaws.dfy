/**
 * What the in-flight body budget answers and does, exactly, in the numbers it was configured with: when a
 * request is admitted, what a body is re-priced at, and why one is dropped.
 */
module InflightBudgetLaws {
  import opened Basics
  import opened InflightBudget
  import opened InflightBudgetSafety
  import opened InflightBudgetTiming
  import Admission = InflightBudgetAdmission

  // ----- admission -----

  /** A body is indicated and its encoding is not one that is stored as it arrives. */
  predicate IsCompressed(h: Head) { h.encoded && (h.chunked || h.lengthIsNumber) }

  /** What a body of unknown length is opened at: 1 MiB, or the whole of a smaller budget. */
  function Placeholder(cfg: Config): int { if cfg.budget < 1_048_576 then cfg.budget else 1_048_576 }

  function Size(cfg: Config, h: Head): int {
    if h.declared.Some? then h.declared.value else if h.chunked then Placeholder(cfg) else 0
  }

  /** A new address finds ten thousand clients tracked. */
  predicate MapIsFull(flights: seq<Flight>, c: Client) {
    c.ByAddress? && c !in LiveClients(flights) && |LiveClients(flights)| >= 10_000
  }

  lemma {:induction false} SumNotNegative(cfg: Config, scope: Scope, flights: seq<Flight>)
    requires forall i :: 0 <= i < |flights| ==> flights[i].reserved >= 0
    ensures Sum(cfg, scope, Held, flights) >= 0
  {
    if flights != [] { SumNotNegative(cfg, scope, flights[..|flights| - 1]); }
  }

  /** 415 is answered exactly to compressed bodies, and nothing is asked of a request without a body. */
  lemma EncodingLaw(cfg: Config, flights: seq<Flight>, h: Head)
    requires ValidConfig(cfg)
    ensures Decide(cfg, flights, h) == Refused(415) <==> IsCompressed(h)
    ensures Decide(cfg, flights, h) == PassedThrough <==> !IsCompressed(h) && Size(cfg, h) == 0
  {
  }

  /** With a recognised key, or without the anonymous tier. */
  lemma AdmissionLaw(cfg: Config, flights: seq<Flight>, h: Head)
    requires ValidConfig(cfg) && forall i :: 0 <= i < |flights| ==> flights[i].reserved >= 0
    requires !IsCompressed(h) && Size(cfg, h) > 0 && (h.client.ByKey? || !cfg.tiered)
    ensures var n, v := Size(cfg, h), Decide(cfg, flights, h);
      && (v == Admitted(n) <==>
            && Sum(cfg, Everyone, Held, flights) + n <= cfg.budget
            && Sum(cfg, One(h.client), Held, flights) + n <= cfg.perClientCap
            && !MapIsFull(flights, h.client))
      && (v == Refused(413) <==> h.declared.Some? && (n > cfg.budget || n > cfg.perClientCap))
      && (v == Admitted(n) || v == Refused(413) || v == Refused(503))
  {
    SumNotNegative(cfg, Everyone, flights);
    SumNotNegative(cfg, One(h.client), flights);
  }

  /** Without a recognised key, in the anonymous tier: charged at most the body cap. */
  lemma AnonymousAdmissionLaw(cfg: Config, flights: seq<Flight>, h: Head)
    requires ValidConfig(cfg) && forall i :: 0 <= i < |flights| ==> flights[i].reserved >= 0
    requires !IsCompressed(h) && Size(cfg, h) > 0 && h.client.ByAddress? && cfg.tiered
    ensures var n, v := Size(cfg, h), Decide(cfg, flights, h);
      var charge := if n < cfg.bodyLimit then n else cfg.bodyLimit;
      && (v == Admitted(charge) <==>
            && Sum(cfg, Everyone, Held, flights) + n <= cfg.budget
            && Sum(cfg, One(h.client), Held, flights) + charge <= cfg.anonClientCap
            && Sum(cfg, Anonymous, Held, flights) + charge <= cfg.anonPool
            && !MapIsFull(flights, h.client))
      && (v == Refused(413) <==>
            h.declared.Some? && (n > cfg.budget || charge > cfg.anonClientCap || charge > cfg.anonPool))
      && (v == Admitted(charge) || v == Refused(413) || v == Refused(503))
  {
    SumNotNegative(cfg, Everyone, flights);
    SumNotNegative(cfg, One(h.client), flights);
    SumNotNegative(cfg, Anonymous, flights);
  }

  /** Bytes of bodies still arriving, in every run, against the configured numbers. */
  lemma ArrivingWithinCaps(cfg: Config, events: seq<Event>, c: Client)
    requires ValidConfig(cfg)
    ensures var flights := Run(cfg, events).flights;
      && Sum(cfg, Everyone, InflightBudget.Arriving, flights) <= cfg.budget
      && Sum(cfg, Anonymous, InflightBudget.Arriving, flights) <= cfg.anonPool
      && (c.ByKey? || !cfg.tiered ==> Sum(cfg, One(c), InflightBudget.Arriving, flights) <= cfg.perClientCap)
      && (c.ByAddress? && cfg.tiered ==> Sum(cfg, One(c), InflightBudget.Arriving, flights) <= cfg.anonClientCap)
  {
    ArrivingWithinEveryLimit(cfg, events, Everyone);
    ArrivingWithinEveryLimit(cfg, events, Anonymous);
    ArrivingWithinEveryLimit(cfg, events, One(c));
  }

  /** While none is settled, what is arriving is all that is held, so the limits bound that as well. */
  lemma {:induction false} UnsettledIsArriving(cfg: Config, scope: Scope, flights: seq<Flight>)
    requires forall i :: 0 <= i < |flights| ==> !flights[i].settled
    ensures Sum(cfg, scope, InflightBudget.Arriving, flights) == Sum(cfg, scope, Held, flights)
  {
    if flights != [] {
      UnsettledIsArriving(cfg, scope, flights[..|flights| - 1]);
    }
  }

  // ----- the caps -----

  /** The options are kept, and the anonymous pool is a quarter of the budget, at least two bodies, at most all of it. */
  lemma PoolLaw(budget: int, share: real, tiered: bool, bodyLimit: int, requestTimeoutMs: int)
    requires budget >= 1 && bodyLimit >= 1
    ensures var cfg := Create(budget, share, tiered, bodyLimit, requestTimeoutMs);
      && cfg.budget == budget && cfg.tiered == tiered && cfg.bodyLimit == bodyLimit
      && cfg.requestTimeoutMs == requestTimeoutMs
      && cfg.anonPool == Min(budget, Max(2 * bodyLimit, budget / 4))
  {
    Admission.QuarterOf(budget);
  }

  /** A share is rounded down to whole bytes. */
  lemma ShareLaw(n: int, share: real)
    requires n >= 0 && 1.0 / 4503599627370496.0 <= share <= 1.0
    ensures ShareOf(n, share) as real <= n as real * share < (ShareOf(n, share) + 1) as real
  {
    assert Clamped(share) == share;
  }

  /** One outside that range counts as its nearer end. */
  lemma ShareIsClamped(n: int, share: real)
    ensures share > 1.0 ==> ShareOf(n, share) == n
    ensures share < 1.0 / 4503599627370496.0 ==> ShareOf(n, share) == ShareOf(n, 1.0 / 4503599627370496.0)
  {
    if share > 1.0 {
      assert n as real * 1.0 == n as real;
      assert (n as real).Floor == n;
    }
  }

  /** A client's cap is its share of the budget, at least a byte; an anonymous one's its share of the pool, at least a body. */
  lemma CapsLaw(budget: int, share: real, tiered: bool, bodyLimit: int, requestTimeoutMs: int)
    requires budget >= 1 && bodyLimit >= 1
    ensures var cfg := Create(budget, share, tiered, bodyLimit, requestTimeoutMs);
      && cfg.perClientCap == Max(1, ShareOf(budget, share))
      && cfg.anonClientCap == Max(Min(bodyLimit, cfg.anonPool), ShareOf(cfg.anonPool, share))
  {
  }

  // ----- re-pricing -----

  predicate IsAnon(cfg: Config, c: Client) { cfg.tiered && c.ByAddress? }

  function Received(s: State, f: Flight): int { ReadOn(s, f.socket) - f.startBytes }

  /** The bytes that have arrived, at least the placeholder, and for an anonymous client at most the body cap. */
  function PricedAt(cfg: Config, s: State, f: Flight): int {
    var n := if Received(s, f) > Placeholder(cfg) then Received(s, f) else Placeholder(cfg);
    if IsAnon(cfg, f.client) && n > cfg.bodyLimit then cfg.bodyLimit else n
  }

  lemma PricedAtIsActual(cfg: Config, s: State, f: Flight)
    requires ValidConfig(cfg)
    ensures ActualSize(cfg, s, f) == PricedAt(cfg, s, f)
  {
  }

  function OwnCap(cfg: Config, c: Client): int { if c.ByAddress? && cfg.tiered then cfg.anonClientCap else cfg.perClientCap }

  /** The first limit that growing request i by `more` bytes would cross. */
  function Crossed(cfg: Config, flights: seq<Flight>, c: Client, more: int): Option<DropReason> {
    if Sum(cfg, One(c), Held, flights) + more > OwnCap(cfg, c) then Some(OverShare)
    else if Sum(cfg, Everyone, Held, flights) + more > cfg.budget then Some(OverBudget)
    else if c.ByAddress? && cfg.tiered && Sum(cfg, Anonymous, Held, flights) + more > cfg.anonPool then Some(OverPool)
    else None
  }

  lemma OverrunIsCrossed(cfg: Config, s: State, i: nat, g: Flight)
    requires i < |s.flights| && !s.flights[i].released && !g.released && g.client == s.flights[i].client
    ensures Overrun(cfg, s.flights[i := g], g) == Crossed(cfg, s.flights, g.client, g.reserved - s.flights[i].reserved)
  {
    SumUpdate(cfg, One(g.client), Held, s.flights, i, g);
    SumUpdate(cfg, Everyone, Held, s.flights, i, g);
    SumUpdate(cfg, Anonymous, Held, s.flights, i, g);
  }

  /** An unfinished chunked body that a poll finds grown over a limit. */
  predicate GrowsOver(cfg: Config, s: State, i: nat, f: Flight) {
    && f.declared.None? && PricedAt(cfg, s, f) > f.reserved
    && Crossed(cfg, s.flights, f.client, PricedAt(cfg, s, f) - f.reserved).Some?
  }

  lemma ReconcileLaw(cfg: Config, s: State, i: nat, complete: bool)
    requires ValidConfig(cfg) && Inv(cfg, s) && i < |s.flights| && !s.flights[i].released
    ensures var f, g := s.flights[i], Reconcile(cfg, s, i, complete).flights[i];
      && g.reserved == (if f.declared.Some? then f.reserved else PricedAt(cfg, s, f))
      && (g.released <==> !complete && GrowsOver(cfg, s, i, f))
      && g.dropped == (if g.released then Crossed(cfg, s.flights, f.client, PricedAt(cfg, s, f) - f.reserved) else f.dropped)
      && (!g.released ==> g.armed == f.armed && SameClock(f, g))
  {
    var f := s.flights[i];
    assert FlightOk(cfg, s, f);
    PricedAtIsActual(cfg, s, f);
    OverrunIsCrossed(cfg, s, i, Repriced(cfg, s, f, complete));
  }

  /** In every run a reservation changes at its request's polls and end alone, to what has arrived of a chunked body. */
  lemma ReservationLaw(cfg: Config, events: seq<Event>, e: Event, i: nat)
    requires ValidConfig(cfg) && i < |Run(cfg, events).flights|
    ensures var s := Run(cfg, events);
      var f := s.flights[i];
      && i < |Step(cfg, s, e).flights|
      && Step(cfg, s, e).flights[i].reserved ==
           if f.declared.None? && ((e == Polls(i) && f.armed) || (e == Ends(i) && !f.released)) then PricedAt(cfg, s, f)
           else f.reserved
  {
    var s := Run(cfg, events);
    RunKeepsInv(cfg, events);
    StepReserves(cfg, s, e, i);
  }

  lemma PollReserves(cfg: Config, s: State, i: nat)
    requires ValidConfig(cfg) && Inv(cfg, s) && i < |s.flights| && s.flights[i].armed && !s.flights[i].released
    ensures |Poll(cfg, s, i).flights| == |s.flights|
    ensures Poll(cfg, s, i).flights[i].reserved ==
      if s.flights[i].declared.Some? then s.flights[i].reserved else PricedAt(cfg, s, s.flights[i])
  {
    var s0 := CountPoll(s, i);
    CountPollKeepsInv(cfg, s, i);
    ReconcileLaw(cfg, s0, i, i in s.complete);
    if i in s.complete { SettleReserves(cfg, s0, i); } else { InspectReserves(cfg, s0, i); }
  }

  lemma SettleReserves(cfg: Config, s: State, i: nat)
    requires i < |s.flights|
    ensures |Settle(cfg, s, i).flights| == |s.flights|
    ensures Settle(cfg, s, i).flights[i].reserved == Reconcile(cfg, s, i, true).flights[i].reserved
  {
  }

  lemma InspectReserves(cfg: Config, s: State, i: nat)
    requires i < |s.flights|
    ensures |Inspect(cfg, s, i).flights| == |s.flights|
    ensures Inspect(cfg, s, i).flights[i].reserved == Reconcile(cfg, s, i, false).flights[i].reserved
  {
  }

  lemma CountPollKeepsInv(cfg: Config, s: State, i: nat)
    requires Inv(cfg, s) && i < |s.flights|
    ensures Inv(cfg, CountPoll(s, i))
  {
    assert FlightOk(cfg, s, s.flights[i]);
    ReplaceKeepsInv(cfg, s, i, s.flights[i].(polls := s.flights[i].polls + 1));
  }

  lemma StepReserves(cfg: Config, s: State, e: Event, i: nat)
    requires ValidConfig(cfg) && Inv(cfg, s) && i < |s.flights|
    ensures i < |Step(cfg, s, e).flights|
    ensures var f := s.flights[i];
      Step(cfg, s, e).flights[i].reserved ==
        if f.declared.None? && ((e == Polls(i) && f.armed) || (e == Ends(i) && !f.released)) then PricedAt(cfg, s, f)
        else f.reserved
  {
    assert FlightOk(cfg, s, s.flights[i]);
    match e {
      case Polls(j) =>
        if j == i {
          if s.flights[i].armed { PollReserves(cfg, s, i); }
        } else if j < |s.flights| {
          PollKeepsOthers(cfg, s, j);
        }
      case Ends(j) =>
        if j == i {
          if !s.flights[i].released { ReconcileLaw(cfg, s, i, true); }
        } else if j < |s.flights| {
          SettleMoves(cfg, s, j);
        }
      case _ =>
    }
  }

  // ----- why a body is dropped -----

  /** Behind the pace that lands the target inside the request timeout, after fifteen seconds of grace. */
  predicate Lags(cfg: Config, s: State, f: Flight) {
    var target := if f.declared.Some? then f.declared.value else PricedAt(cfg, s, f);
    && cfg.requestTimeoutMs > 0 && Received(s, f) < target
    && Received(s, f) * cfg.requestTimeoutMs < target * (s.now - f.admittedAt - 15_000)
  }

  /** Why a poll drops a body that is not complete: growth over a limit, then pace, then fifteen silent seconds. */
  function Reason(cfg: Config, s: State, i: nat, f: Flight): Option<DropReason> {
    if GrowsOver(cfg, s, i, f) then Crossed(cfg, s.flights, f.client, PricedAt(cfg, s, f) - f.reserved)
    else if Lags(cfg, s, f) then Some(Pace)
    else if ReadOn(s, f.socket) == f.lastBytes && s.now - f.lastProgress >= 15_000 then Some(Stall)
    else None
  }

  lemma WatchedLaw(cfg: Config, s: State, f: Flight)
    requires f.armed && !f.released && f.dropped.None?
    ensures var g := Watched(cfg, s, f);
      && g.released == g.dropped.Some?
      && g.dropped == (if BehindPace(cfg, s, f) then Some(Pace)
                       else if ReadOn(s, f.socket) == f.lastBytes && s.now - f.lastProgress >= 15_000 then Some(Stall)
                       else None)
      && (!g.released ==>
            && (g.armed <==> !(f.declared.Some? && ReadOn(s, f.socket) != f.lastBytes && Received(s, f) >= f.declared.value))
            && g.lastBytes == ReadOn(s, f.socket)
            && g.lastProgress == if ReadOn(s, f.socket) == f.lastBytes then f.lastProgress else s.now)
  {
  }

  lemma InspectLaw(cfg: Config, s: State, i: nat)
    requires ValidConfig(cfg) && Inv(cfg, s) && i < |s.flights| && s.flights[i].armed
    ensures |Inspect(cfg, s, i).flights| == |s.flights|
    ensures var f, g := s.flights[i], Inspect(cfg, s, i).flights[i];
      && g.dropped == Reason(cfg, s, i, f) && g.released == g.dropped.Some?
      && (!g.released ==>
            && (g.armed <==> !(f.declared.Some? && ReadOn(s, f.socket) != f.lastBytes && Received(s, f) >= f.declared.value))
            && g.lastBytes == ReadOn(s, f.socket)
            && g.lastProgress == if ReadOn(s, f.socket) == f.lastBytes then f.lastProgress else s.now)
  {
    var f := s.flights[i];
    assert FlightOk(cfg, s, f);
    ReconcileLaw(cfg, s, i, false);
    var s1 := Reconcile(cfg, s, i, false);
    if !s1.flights[i].released {
      assert BehindPace(cfg, s1, s1.flights[i]) <==> Lags(cfg, s, f);
      WatchedLaw(cfg, s1, s1.flights[i]);
    }
  }

  /**
   * In every run a request is dropped by its own polls alone, exactly for the reason above, and released by
   * that or by its first terminal event.
   */
  lemma DropLaw(cfg: Config, events: seq<Event>, e: Event, i: nat)
    requires ValidConfig(cfg) && i < |Run(cfg, events).flights|
    ensures var s := Run(cfg, events);
      var f := s.flights[i];
      && i < |Step(cfg, s, e).flights|
      && Step(cfg, s, e).flights[i].dropped ==
           (if e == Polls(i) && f.armed && i !in s.complete then Reason(cfg, s, i, f) else f.dropped)
      && (Step(cfg, s, e).flights[i].released <==>
            f.released || Step(cfg, s, e).flights[i].dropped.Some? || (e.Terminates? && e.request == i))
  {
    RunKeepsInv(cfg, events);
    StepDrops(cfg, Run(cfg, events), e, i);
  }

  lemma PollDrops(cfg: Config, s: State, i: nat)
    requires ValidConfig(cfg) && Inv(cfg, s) && i < |s.flights| && s.flights[i].armed
    ensures |Poll(cfg, s, i).flights| == |s.flights|
    ensures var g := Poll(cfg, s, i).flights[i];
      && g.dropped == (if i in s.complete then None else Reason(cfg, s, i, s.flights[i]))
      && g.released == g.dropped.Some?
      && (i in s.complete ==> g.settled && !g.armed)
  {
    var s0 := CountPoll(s, i);
    assert FlightOk(cfg, s, s.flights[i]);
    CountPollKeepsInv(cfg, s, i);
    CountPollKeepsReason(cfg, s, i);
    if i in s.complete { ReconcileLaw(cfg, s0, i, true); } else { InspectLaw(cfg, s0, i); }
  }

  lemma SameHolding(cfg: Config, scope: Scope, s: State, i: nat)
    requires i < |s.flights|
    ensures Sum(cfg, scope, Held, CountPoll(s, i).flights) == Sum(cfg, scope, Held, s.flights)
  {
    SumUpdate(cfg, scope, Held, s.flights, i, CountPoll(s, i).flights[i]);
  }

  lemma CountPollKeepsReason(cfg: Config, s: State, i: nat)
    requires i < |s.flights|
    ensures Reason(cfg, CountPoll(s, i), i, CountPoll(s, i).flights[i]) == Reason(cfg, s, i, s.flights[i])
  {
    SameHolding(cfg, One(s.flights[i].client), s, i);
    SameHolding(cfg, Everyone, s, i);
    SameHolding(cfg, Anonymous, s, i);
  }

  lemma StepDrops(cfg: Config, s: State, e: Event, i: nat)
    requires ValidConfig(cfg) && Inv(cfg, s) && i < |s.flights|
    ensures i < |Step(cfg, s, e).flights|
    ensures Step(cfg, s, e).flights[i].dropped ==
      if e == Polls(i) && s.flights[i].armed && i !in s.complete then Reason(cfg, s, i, s.flights[i]) else s.flights[i].dropped
    ensures Step(cfg, s, e).flights[i].released <==>
      s.flights[i].released || Step(cfg, s, e).flights[i].dropped.Some? || (e.Terminates? && e.request == i)
  {
    assert FlightOk(cfg, s, s.flights[i]);
    match e {
      case Polls(j) =>
        if j == i {
          if s.flights[i].armed { PollDrops(cfg, s, i); }
        } else if j < |s.flights| {
          PollKeepsOthers(cfg, s, j);
        }
      case Ends(j) =>
        if j == i {
          if !s.flights[i].released { ReconcileLaw(cfg, s, i, true); }
        } else if j < |s.flights| {
          SettleMoves(cfg, s, j);
        }
      case _ =>
    }
  }
}
