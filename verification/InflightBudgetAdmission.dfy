/** What the refusals of the in-flight body budget mean for the sender. */
module InflightBudgetAdmission {
  import opened Basics
  import opened InflightBudget
  import opened InflightBudgetSafety
  import Middleware = InflightBudgetMiddleware

  /** A request the encoding guard lets through and that declares a non-empty body. */
  predicate DeclaresBody(h: Head) {
    h.declared.Some? && h.declared.value > 0 && !((h.chunked || h.lengthIsNumber) && h.encoded)
  }

  lemma IdleHoldsNothing(cfg: Config, flights: seq<Flight>)
    requires Idle(flights)
    ensures forall scope :: Sum(cfg, scope, Held, flights) == 0
    ensures LiveClients(flights) == {}
  {
    forall scope ensures Sum(cfg, scope, Held, flights) == 0 {
      Middleware.EndedSum(cfg, scope, flights);
    }
  }

  /**
   * 413 is answered exactly to the declared bodies an idle server refuses as well, whatever is in
   * flight now; so a 503 is only ever answered to one that an idle server would admit.
   */
  lemma TooLargeIffRefusedWhenIdle(cfg: Config, flights: seq<Flight>, idle: seq<Flight>, h: Head)
    requires ValidConfig(cfg) && Idle(idle) && DeclaresBody(h)
    ensures Decide(cfg, flights, h) == Refused(413) <==> !Decide(cfg, idle, h).Admitted?
    ensures Decide(cfg, flights, h) == Refused(503) ==> Decide(cfg, idle, h).Admitted?
  {
    IdleHoldsNothing(cfg, idle);
  }

  lemma HalfOf(n: int)
    requires n >= 0
    ensures (n as real * 0.5).Floor == n / 2
  {
    var half := n as real * 0.5;
    assert (2 * (n / 2)) as real <= n as real < (2 * (n / 2) + 2) as real;
    assert (n / 2) as real <= half < (n / 2 + 1) as real;
  }

  lemma QuarterOf(n: int)
    requires n >= 0
    ensures (n as real * 0.25).Floor == n / 4
  {
    var quarter := n as real * 0.25;
    assert (4 * (n / 4)) as real <= n as real < (4 * (n / 4) + 4) as real;
    assert (n / 4) as real <= quarter < (n / 4 + 1) as real;
  }

  /** The caps of a tiered budget with the default half share. */
  ghost predicate HalfShare(cfg: Config) {
    && cfg.budget >= 1 && cfg.bodyLimit >= 1 && cfg.tiered
    && cfg == Create(cfg.budget, 0.5, true, cfg.bodyLimit, cfg.requestTimeoutMs)
  }

  lemma HalfShareCaps(cfg: Config)
    requires HalfShare(cfg)
    ensures ValidConfig(cfg)
    ensures cfg.budget >= 2 ==> cfg.perClientCap == cfg.budget / 2
    ensures cfg.anonPool == Min(cfg.budget, Max(2 * cfg.bodyLimit, cfg.budget / 4))
    ensures cfg.anonClientCap == Max(Min(cfg.bodyLimit, cfg.anonPool), cfg.anonPool / 2)
  {
    HalfOf(cfg.budget);
    QuarterOf(cfg.budget);
    HalfOf(cfg.anonPool);
  }

  ghost predicate OnlyHeldBy(cfg: Config, flights: seq<Flight>, scope: Scope) {
    forall i :: 0 <= i < |flights| && !flights[i].released ==> InScope(cfg, scope, flights[i])
  }

  lemma {:induction false} AllHeldBy(cfg: Config, flights: seq<Flight>, scope: Scope, m: Measure)
    requires OnlyHeldBy(cfg, flights, scope)
    ensures Sum(cfg, Everyone, m, flights) == Sum(cfg, scope, m, flights)
  {
    if flights != [] {
      var n := |flights| - 1;
      assert OnlyHeldBy(cfg, flights[..n], scope);
      assert flights[n].released || InScope(cfg, scope, flights[n]);
      AllHeldBy(cfg, flights[..n], scope, m);
    }
  }

  lemma {:induction false} NoneHeldBy(cfg: Config, flights: seq<Flight>, scope: Scope)
    requires forall i :: 0 <= i < |flights| && !flights[i].released ==> !InScope(cfg, scope, flights[i])
    ensures Sum(cfg, scope, Held, flights) == 0
  {
    if flights != [] { NoneHeldBy(cfg, flights[..|flights| - 1], scope); }
  }

  /** Beside anonymous traffic alone, a keyed body up to the cap is admitted if and only if the budget has room for it. */
  lemma KeyedBodyFitsIff(cfg: Config, flights: seq<Flight>, h: Head)
    requires HalfShare(cfg) && cfg.budget >= 3 * cfg.bodyLimit
    requires DeclaresBody(h) && h.client.ByKey? && h.declared.value <= cfg.bodyLimit
    requires OnlyHeldBy(cfg, flights, Anonymous)
    ensures Decide(cfg, flights, h) ==
      if Sum(cfg, Anonymous, Held, flights) + h.declared.value <= cfg.budget then Admitted(h.declared.value)
      else Refused(503)
  {
    HalfShareCaps(cfg);
    AllHeldBy(cfg, flights, Anonymous, Held);
    NoneHeldBy(cfg, flights, One(h.client));
  }

  /**
   * With the default half share and a budget of at least three body caps, anonymous traffic within
   * its pool never keeps out a keyed body up to the cap.
   */
  lemma KeyedBodyAlwaysFits(cfg: Config, flights: seq<Flight>, h: Head)
    requires HalfShare(cfg) && cfg.budget >= 3 * cfg.bodyLimit
    requires DeclaresBody(h) && h.client.ByKey? && h.declared.value <= cfg.bodyLimit
    requires OnlyHeldBy(cfg, flights, Anonymous)
    requires Sum(cfg, Anonymous, Held, flights) <= cfg.anonPool
    ensures Decide(cfg, flights, h) == Admitted(h.declared.value)
  {
    HalfShareCaps(cfg);
    KeyedBodyFitsIff(cfg, flights, h);
  }

  /** A body up to the cap from an address other than `sender`. */
  predicate CappedBodyOfAnother(cfg: Config, sender: Client, h: Head) {
    h.client.ByAddress? && h.client != sender && DeclaresBody(h) && h.declared.value <= cfg.bodyLimit
  }

  ghost predicate OthersAdmitted(cfg: Config, flights: seq<Flight>, sender: Client) {
    forall h :: CappedBodyOfAnother(cfg, sender, h) ==> Decide(cfg, flights, h) == Admitted(h.declared.value)
  }

  /** What one address alone holds decides, with the pool, whether a body of another fits beside it. */
  lemma FitsBesideIff(cfg: Config, flights: seq<Flight>, sender: Client, h: Head)
    requires HalfShare(cfg) && cfg.budget >= 2 * cfg.bodyLimit && sender.ByAddress?
    requires OnlyHeldBy(cfg, flights, One(sender)) && CappedBodyOfAnother(cfg, sender, h)
    ensures Decide(cfg, flights, h) ==
      if Sum(cfg, One(sender), Held, flights) + h.declared.value <= cfg.anonPool then Admitted(h.declared.value)
      else Refused(503)
  {
    HalfShareCaps(cfg);
    AllHeldBy(cfg, flights, One(sender), Held);
    AnonymousHolds(cfg, flights, sender);
    NoneHeldBy(cfg, flights, One(h.client));
    assert LiveClients(flights) <= {sender};
    SubsetSize(LiveClients(flights), {sender});
  }

  lemma {:induction false} AnonymousHolds(cfg: Config, flights: seq<Flight>, sender: Client)
    requires IsAnonymous(cfg, sender) && OnlyHeldBy(cfg, flights, One(sender))
    ensures Sum(cfg, Anonymous, Held, flights) == Sum(cfg, One(sender), Held, flights)
  {
    if flights != [] {
      var n := |flights| - 1;
      assert OnlyHeldBy(cfg, flights[..n], One(sender));
      AnonymousHolds(cfg, flights[..n], sender);
      assert flights[n].released || flights[n].client == sender;
    }
  }

  lemma RoomAdmitsOthers(cfg: Config, flights: seq<Flight>, sender: Client)
    requires HalfShare(cfg) && cfg.budget >= 2 * cfg.bodyLimit && sender.ByAddress?
    requires OnlyHeldBy(cfg, flights, One(sender))
    requires Sum(cfg, One(sender), Held, flights) + cfg.bodyLimit <= cfg.anonPool
    ensures OthersAdmitted(cfg, flights, sender)
  {
    forall h | CappedBodyOfAnother(cfg, sender, h)
      ensures Decide(cfg, flights, h) == Admitted(h.declared.value)
    {
      FitsBesideIff(cfg, flights, sender, h);
    }
  }

  lemma OthersAdmittedHaveRoom(cfg: Config, flights: seq<Flight>, sender: Client)
    requires HalfShare(cfg) && cfg.budget >= 2 * cfg.bodyLimit && sender.ByAddress?
    requires OnlyHeldBy(cfg, flights, One(sender)) && OthersAdmitted(cfg, flights, sender)
    ensures Sum(cfg, One(sender), Held, flights) + cfg.bodyLimit <= cfg.anonPool
  {
    var other := sender.address + "'";
    assert |other| == |sender.address| + 1;
    var full := Head(ByAddress(other), Some(cfg.bodyLimit), false, true, false, 0);
    assert CappedBodyOfAnother(cfg, sender, full) && full.declared.value == cfg.bodyLimit;
    FitsBesideIff(cfg, flights, sender, full);
  }

  /** Every other address's capped body is admitted if and only if a full one still fits in the pool. */
  lemma OthersAdmittedIff(cfg: Config, flights: seq<Flight>, sender: Client)
    requires HalfShare(cfg) && cfg.budget >= 2 * cfg.bodyLimit && sender.ByAddress?
    requires OnlyHeldBy(cfg, flights, One(sender))
    ensures OthersAdmitted(cfg, flights, sender) <==>
      Sum(cfg, One(sender), Held, flights) + cfg.bodyLimit <= cfg.anonPool
  {
    if OthersAdmitted(cfg, flights, sender) {
      OthersAdmittedHaveRoom(cfg, flights, sender);
    } else if Sum(cfg, One(sender), Held, flights) + cfg.bodyLimit <= cfg.anonPool {
      RoomAdmitsOthers(cfg, flights, sender);
    }
  }

  /**
   * With the default half share and a budget of at least two body caps, an address that alone holds
   * anything leaves room for every other's capped body, in every run, unless a completing reconcile has
   * grown one of its chunked bodies.
   */
  lemma OneAnonymousClientLeavesRoom(cfg: Config, events: seq<Event>, sender: Client)
    requires HalfShare(cfg) && cfg.budget >= 2 * cfg.bodyLimit && sender.ByAddress?
    requires OnlyHeldBy(cfg, Run(cfg, events).flights, One(sender))
    requires Sum(cfg, One(sender), Grown, Run(cfg, events).flights) == 0
    ensures OthersAdmitted(cfg, Run(cfg, events).flights, sender)
  {
    HalfShareCaps(cfg);
    ArrivingWithinEveryLimit(cfg, events, One(sender));
    OthersAdmittedIff(cfg, Run(cfg, events).flights, sender);
  }

  /** In every run without completing growth, a keyed body up to the cap fits beside anonymous traffic. */
  lemma KeyedBodyFitsInRuns(cfg: Config, events: seq<Event>, h: Head)
    requires HalfShare(cfg) && cfg.budget >= 3 * cfg.bodyLimit
    requires DeclaresBody(h) && h.client.ByKey? && h.declared.value <= cfg.bodyLimit
    requires OnlyHeldBy(cfg, Run(cfg, events).flights, Anonymous)
    requires Sum(cfg, Anonymous, Grown, Run(cfg, events).flights) == 0
    ensures Decide(cfg, Run(cfg, events).flights, h) == Admitted(h.declared.value)
  {
    HalfShareCaps(cfg);
    ArrivingWithinEveryLimit(cfg, events, Anonymous);
    KeyedBodyAlwaysFits(cfg, Run(cfg, events).flights, h);
  }
}
