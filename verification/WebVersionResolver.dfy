/** The resolver's module state updated in place, and the loop that pins a build. */
module WebVersionResolver {
  import opened Basics
  import opened WebVersion
  import opened WebVersionCache

  /** What downloading a build's page comes to: the page, WhatsApp's logged-out page, or an error. */
  datatype Download = Page | LoggedOutPage | Unavailable

  /** What one turn of the loop meets: the clock where it is read, the registry and the download. */
  datatype World = World(askedAt: int, settledAt: int, outcome: Outcome, download: Download, rejectedAt: int)

  datatype Reply = Known(version: Option<string>) | Waiting

  /** A build that may name a file: a digit, then word characters, dots and dashes. */
  predicate IsFileName(v: string) {
    && IsBuildNumber(v)
    && forall i :: 0 <= i < |v| ==>
      '0' <= v[i] <= '9' || 'a' <= v[i] <= 'z' || 'A' <= v[i] <= 'Z' || v[i] == '_' || v[i] == '.' || v[i] == '-'
  }

  predicate Served(v: string, w: World) { IsFileName(v) && w.download.Page? }

  predicate TurnedAway(v: string, w: World) { IsFileName(v) && w.download.LoggedOutPage? }

  /** The builds tried so far, each turned away on its own turn, none twice and none rejected before. */
  predicate AllTurnedAway(tried: seq<string>, world: nat -> World, before: set<string>) {
    && Distinct(tried)
    && forall k :: 0 <= k < |tried| ==> tried[k] !in before && TurnedAway(tried[k], world(k))
  }

  function Elements(tried: seq<string>): set<string> { set v | v in tried }

  /** The whole trail: all but the last turned away, the last also new; pin and rejections as they came. */
  predicate Trail(tried: seq<string>, world: nat -> World, before: set<string>, after: set<string>, pin: Option<string>) {
    if tried == [] then pin.None? && after == before
    else
      var n := |tried| - 1;
      && AllTurnedAway(tried[..n], world, before)
      && tried[n] !in before && tried[n] !in tried[..n]
      && pin == (if Served(tried[n], world(n)) then Some(tried[n]) else None)
      && after == before + Elements(if TurnedAway(tried[n], world(n)) then tried else tried[..n])
  }

  lemma TrailDistinct(tried: seq<string>, world: nat -> World, before: set<string>, after: set<string>, pin: Option<string>)
    requires Trail(tried, world, before, after, pin)
    ensures Distinct(tried)
    ensures forall k :: 0 <= k < |tried| ==> tried[k] !in before
    ensures forall k :: 0 <= k < |tried| - 1 ==> TurnedAway(tried[k], world(k))
    ensures forall v :: v in after <==> v in before || exists k :: 0 <= k < |tried| && tried[k] == v && TurnedAway(v, world(k))
  {
    if tried != [] {
      var front := tried[..|tried| - 1];
      assert forall k :: 0 <= k < |front| ==> tried[k] == front[k];
    }
  }

  /** With all of them turned away the trail may end without a pin. */
  lemma TrailMayEnd(tried: seq<string>, world: nat -> World, before: set<string>)
    requires AllTurnedAway(tried, world, before)
    ensures Trail(tried, world, before, before + Elements(tried), None)
  {
    if tried != [] {
      var n := |tried| - 1;
      assert forall k :: 0 <= k < n ==> tried[..n][k] == tried[k];
      assert TurnedAway(tried[n], world(n));
    }
  }

  class Resolver {
    var cached: Option<string>
    var cachedAt: int
    var flight: Flight
    var lastFailureAt: int
    var candidates: seq<string>
    var rejected: set<string>
    ghost var lastRead: Option<Read>
    ghost var started: nat
    ghost var settled: nat

    ghost function View(): State
      reads this
    {
      State(cached, cachedAt, flight, lastFailureAt, candidates, rejected, lastRead, started, settled)
    }

    constructor ()
      ensures View() == START
    {
      cached, cachedAt, flight, lastFailureAt, candidates, rejected := None, 0, Idle, 0, [], {};
      lastRead, started, settled := None, 0, 0;
    }

    /** resolveCurrentWebVersion up to its first await. */
    method Begin(now: int) returns (reply: Reply)
      modifies this
      ensures View() == Step(old(View()), Resolve(now))
      ensures reply.Known? ==> View() == old(View()) && reply.version == cached
      ensures reply.Waiting? ==> flight.Fetching?
      ensures reply.Waiting? && old(flight.Idle?) ==> flight.previous == old(cached)
    {
      if cached.Some? && now - cachedAt < CACHE_TTL_MS { return Known(cached); }
      if flight.Fetching? { return Waiting; }
      if lastFailureAt != 0 && now - lastFailureAt < FAILURE_BACKOFF_MS { return Known(cached); }
      flight, started := Fetching(cached), started + 1;
      return Waiting;
    }

    /** The registry answers or fails. */
    method Finish(now: int, o: Outcome) returns (answer: Option<string>)
      requires flight.Fetching?
      modifies this
      ensures View() == Step(old(View()), Settle(now, o))
      ensures answer == Answer(old(View()), now, o)
    {
      var previous := flight.previous;
      var ranked := [];
      if o.Listing? { ranked := Rank(o.versions, now, NamedCurrent(o.current), rejected); }
      if ranked != [] {
        candidates, cached, cachedAt := ranked, Some(ranked[0]), now;
        lastRead := Some(Read(o.versions, NamedCurrent(o.current), now));
        answer := Some(ranked[0]);
      } else {
        lastFailureAt := now;
        answer := previous;
      }
      flight, settled := Idle, settled + 1;
    }

    /** A download found the logged-out page. */
    method Reject(v: string, willRetry: bool, now: int)
      modifies this
      ensures View() == Step(old(View()), LoggedOut(now, v, willRetry))
    {
      rejected := rejected + {v};
      candidates := Without(candidates, {v});
      if cached == Some(v) {
        if willRetry && candidates != [] {
          cached, cachedAt := Some(candidates[0]), now;
        } else {
          cached, cachedAt := None, 0;
        }
      }
    }

    /** One resolve with no other call running: never a build known to be rejected. */
    method ResolveCurrent(w: World) returns (answer: Option<string>)
      requires Inv(View()) && flight.Idle?
      modifies this
      ensures Inv(View()) && flight.Idle? && rejected == old(rejected)
      ensures answer.Some? ==> answer.value !in rejected
      ensures answer == cached
      ensures var asked := Step(old(View()), Resolve(w.askedAt));
        View() == if asked.flight.Fetching? then Step(asked, Settle(w.settledAt, w.outcome)) else asked
    {
      var reply := Begin(w.askedAt);
      StepKeepsInv(old(View()), Resolve(w.askedAt));
      if reply.Known? {
        answer := reply.version;
      } else {
        ghost var fetching := View();
        answer := Finish(w.settledAt, w.outcome);
        StepKeepsInv(fetching, Settle(w.settledAt, w.outcome));
      }
      if answer.Some? { CandidatesClean(View(), answer.value); }
    }

    /** Download the page of v: Some(v) when it is served; a build turned away is never offered again. */
    method LocalisePin(v: string, w: World, willRetry: bool) returns (pin: Option<string>)
      requires Inv(View())
      modifies this
      ensures Inv(View()) && flight == old(flight)
      ensures pin == if Served(v, w) then Some(v) else None
      ensures rejected == if TurnedAway(v, w) then old(rejected) + {v} else old(rejected)
      ensures View() == if TurnedAway(v, w) then Step(old(View()), LoggedOut(w.rejectedAt, v, willRetry)) else old(View())
    {
      if !IsFileName(v) { return None; }
      match w.download
      case Page => return Some(v);
      case LoggedOutPage =>
        Reject(v, willRetry, w.rejectedAt);
        StepKeepsInv(old(View()), LoggedOut(w.rejectedAt, v, willRetry));
        return None;
      case Unavailable => return None;
    }

    /** One turn of the auto pin: the build resolved, if any, and the pin its download gives. */
    method TryOne(w: World, willRetry: bool) returns (current: Option<string>, pin: Option<string>)
      requires Inv(View()) && flight.Idle?
      modifies this
      ensures Inv(View()) && flight.Idle?
      ensures current.None? ==> pin.None? && rejected == old(rejected) && cached.None?
      ensures current.Some? ==>
        && current.value !in old(rejected)
        && pin == (if Served(current.value, w) then current else None)
        && rejected == old(rejected) + (if TurnedAway(current.value, w) then {current.value} else {})
    {
      current := ResolveCurrent(w);
      pin := None;
      if current.Some? { pin := LocalisePin(current.value, w, willRetry); }
    }

    /**
     * The auto pin: at most three builds are tried, no build twice and none rejected before; all but
     * the last were turned away, and a pin is the last build tried, whose page was served. It stops
     * short of three, the last one turned away, only when nothing is left to try.
     */
    method ResolveAuto(world: nat -> World) returns (pin: Option<string>, tried: seq<string>)
      requires Inv(View()) && flight.Idle?
      modifies this
      ensures Inv(View()) && flight.Idle?
      ensures |tried| <= 3 && Trail(tried, world, old(rejected), rejected, pin)
      ensures |tried| < 3 && (tried == [] || TurnedAway(tried[|tried| - 1], world(|tried| - 1))) ==> cached.None?
    {
      tried := [];
      var attempt := 1;
      while true
        invariant 1 <= attempt <= MAX_AUTO_BUILDS && |tried| == attempt - 1
        invariant Inv(View()) && flight.Idle?
        invariant AllTurnedAway(tried, world, old(rejected))
        invariant rejected == old(rejected) + Elements(tried)
        decreases MAX_AUTO_BUILDS - attempt
      {
        var current;
        current, pin := TryOne(world(attempt - 1), attempt < MAX_AUTO_BUILDS);
        if current.None? {
          TrailMayEnd(tried, world, old(rejected));
          return;
        }
        var v := current.value;
        TrailExtends(tried, v, world, old(rejected), rejected, pin);
        tried := tried + [v];
        if pin.Some? || v !in rejected || attempt >= MAX_AUTO_BUILDS { return; }
        attempt := attempt + 1;
      }
    }
  }

  lemma TrailExtends(
    tried: seq<string>, v: string, world: nat -> World, before: set<string>, after: set<string>, pin: Option<string>)
    requires AllTurnedAway(tried, world, before) && v !in before + Elements(tried)
    requires pin == if Served(v, world(|tried|)) then Some(v) else None
    requires after == before + Elements(tried) + (if TurnedAway(v, world(|tried|)) then {v} else {})
    ensures Trail(tried + [v], world, before, after, pin)
    ensures v in after ==> AllTurnedAway(tried + [v], world, before) && after == before + Elements(tried + [v])
  {
    assert (tried + [v])[..|tried|] == tried;
    assert Elements(tried + [v]) == Elements(tried) + {v};
  }
}
