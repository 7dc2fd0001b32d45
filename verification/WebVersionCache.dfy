/** The cached build, the shared registry read and the builds rejected since, over every order of their steps. */
module WebVersionCache {
  import opened Basics
  import opened WebVersion

  const CACHE_TTL_MS: int := 24 * 60 * 60 * 1000
  const FAILURE_BACKOFF_MS: int := 60_000
  const MAX_AUTO_BUILDS: nat := 3

  /** The registry read under way, and the build that was cached when it began. */
  datatype Flight = Idle | Fetching(previous: Option<string>)

  /** A registry answer, and when it came. */
  datatype Read = Read(versions: seq<Listed>, current: Option<string>, at: int)

  /** The module's variables; lastRead, started and settled are history the code does not keep. */
  datatype State = State(
    cached: Option<string>, cachedAt: int, flight: Flight, lastFailureAt: int,
    candidates: seq<string>, rejected: set<string>,
    lastRead: Option<Read>, started: nat, settled: nat)

  datatype Outcome = Failed | Listing(versions: seq<Listed>, current: Option<string>)

  datatype Event =
    | Resolve(now: int)
    | Settle(now: int, outcome: Outcome)
    | LoggedOut(now: int, version: string, willRetry: bool)

  const START := State(None, 0, Idle, 0, [], {}, None, 0, 0)

  predicate CacheFresh(s: State, now: int) { s.cached.Some? && now - s.cachedAt < CACHE_TTL_MS }

  predicate BackingOff(s: State, now: int) { s.lastFailureAt != 0 && now - s.lastFailureAt < FAILURE_BACKOFF_MS }

  predicate StartsRead(s: State, now: int) { !CacheFresh(s, now) && s.flight.Idle? && !BackingOff(s, now) }

  /** The registry's current build counts only when it looks like a build number. */
  function NamedCurrent(current: Option<string>): Option<string> {
    if current.Some? && IsBuildNumber(current.value) then current else None
  }

  function Offered(s: State, now: int, o: Outcome): seq<string> {
    if o.Failed? then [] else Rank(o.versions, now, NamedCurrent(o.current), s.rejected)
  }

  function AfterRead(s: State, now: int, o: Outcome): State {
    var ranked := Offered(s, now, o);
    var done := s.(flight := Idle, settled := s.settled + 1);
    if ranked == [] then done.(lastFailureAt := now)
    else done.(candidates := ranked, cached := Some(ranked[0]), cachedAt := now,
               lastRead := Some(Read(o.versions, NamedCurrent(o.current), now)))
  }

  function AfterReject(s: State, now: int, v: string, willRetry: bool): State {
    var left := Without(s.candidates, {v});
    var r := s.(rejected := s.rejected + {v}, candidates := left);
    if s.cached != Some(v) then r
    else if willRetry && left != [] then r.(cached := Some(left[0]), cachedAt := now)
    else r.(cached := None, cachedAt := 0)
  }

  function Step(s: State, e: Event): State {
    match e
    case Resolve(now) =>
      if StartsRead(s, now) then s.(flight := Fetching(s.cached), started := s.started + 1) else s
    case Settle(now, o) => if s.flight.Idle? then s else AfterRead(s, now, o)
    case LoggedOut(now, v, willRetry) => AfterReject(s, now, v, willRetry)
  }

  function Run(events: seq<Event>): State {
    if events == [] then START else Step(Run(events[..|events| - 1]), events[|events| - 1])
  }

  /** What the callers waiting on a read get when it settles. */
  function Answer(s: State, now: int, o: Outcome): Option<string>
    requires s.flight.Fetching?
  {
    var ranked := Offered(s, now, o);
    if ranked == [] then s.flight.previous else Some(ranked[0])
  }

  // ----- what every run keeps -----

  /** What the last successful read offers, less every build rejected by now. */
  function Remaining(s: State): seq<string> {
    match s.lastRead
    case None => []
    case Some(r) => Without(Rank(r.versions, r.at, r.current, {}), s.rejected)
  }

  predicate Inv(s: State) {
    && s.candidates == Remaining(s)
    && (s.cached.Some? ==> s.candidates != [] && s.cached.value == s.candidates[0])
    && s.started == s.settled + (if s.flight.Idle? then 0 else 1)
  }

  lemma CandidatesClean(s: State, v: string)
    requires Inv(s)
    ensures Distinct(s.candidates)
    ensures v in s.candidates ==> v !in s.rejected
  {
    if s.lastRead.Some? {
      var r := s.lastRead.value;
      var ranked := Rank(r.versions, r.at, r.current, {});
      DedupeDistinct(WithCurrent(Versions(NewestFirst(SettledBuilds(r.versions, r.at, {}))), r.current, {}));
      WithoutDistinct(ranked, s.rejected);
      InWithout(ranked, s.rejected, v);
    }
  }

  lemma AfterReadKeepsInv(s: State, now: int, o: Outcome)
    requires Inv(s) && s.flight.Fetching?
    ensures Inv(AfterRead(s, now, o))
  {
    if o.Listing? {
      RankCommutes(o.versions, now, NamedCurrent(o.current), {}, s.rejected);
      assert {} + s.rejected == s.rejected;
    }
  }

  lemma AfterRejectKeepsInv(s: State, now: int, v: string, willRetry: bool)
    requires Inv(s)
    ensures Inv(AfterReject(s, now, v, willRetry))
  {
    if s.lastRead.Some? {
      var r := s.lastRead.value;
      WithoutTwice(Rank(r.versions, r.at, r.current, {}), s.rejected, {v});
    }
    if s.cached.Some? && s.cached.value != v { WithoutKeepsHead(s.candidates, {v}); }
  }

  lemma StepKeepsInv(s: State, e: Event)
    requires Inv(s)
    ensures Inv(Step(s, e))
  {
    match e
    case Resolve(_) =>
    case Settle(now, o) => if s.flight.Fetching? { AfterReadKeepsInv(s, now, o); }
    case LoggedOut(now, v, willRetry) => AfterRejectKeepsInv(s, now, v, willRetry);
  }

  lemma {:induction false} RunKeepsInv(events: seq<Event>)
    ensures Inv(Run(events))
  {
    if events != [] {
      RunKeepsInv(events[..|events| - 1]);
      StepKeepsInv(Run(events[..|events| - 1]), events[|events| - 1]);
    }
  }

  /** The cached build is the best the last read offered of those not rejected, and no candidate is a rejected one. */
  lemma CacheIsBestRemaining(events: seq<Event>, v: string)
    ensures var s := Run(events); s.candidates == Remaining(s) && Distinct(s.candidates)
    ensures var s := Run(events); s.cached.Some? ==>
      && s.candidates != [] && s.cached == Some(s.candidates[0]) && s.cached.value !in s.rejected
    ensures v in Run(events).candidates ==> v !in Run(events).rejected
  {
    var s := Run(events);
    RunKeepsInv(events);
    CandidatesClean(s, v);
    if s.cached.Some? { CandidatesClean(s, s.cached.value); }
  }

  /** However calls overlap, the registry is being read at most once. */
  lemma OneReadAtATime(events: seq<Event>)
    ensures 0 <= Run(events).started - Run(events).settled <= 1
    ensures Run(events).started - Run(events).settled == 1 <==> Run(events).flight.Fetching?
  {
    RunKeepsInv(events);
  }

  // ----- falling back -----

  lemma RunExtends(events: seq<Event>, e: Event)
    ensures Run(events + [e]) == Step(Run(events), e)
  {
    assert (events + [e])[..|events|] == events;
  }

  lemma MovesToSecond(s: State, now: int)
    requires Inv(s) && s.cached.Some? && |s.candidates| > 1
    ensures var moved := AfterReject(s, now, s.cached.value, true);
      && moved.candidates == s.candidates[1..]
      && moved.cached == Some(s.candidates[1]) && moved.cachedAt == now
  {
    CandidatesClean(s, s.cached.value);
    WithoutHead(s.candidates);
  }

  /**
   * Rejecting the cached build moves the cache to the second candidate, and a resolve within the
   * cache's life answers it without a registry read.
   */
  lemma FallbackNeedsNoRead(events: seq<Event>, now: int, later: int)
    requires Run(events).cached.Some? && |Run(events).candidates| > 1
    requires later - now < CACHE_TTL_MS
    ensures var s := Run(events);
      var moved := Run(events + [LoggedOut(now, s.cached.value, true)]);
      && moved.cached == Some(s.candidates[1]) && moved.candidates == s.candidates[1..]
      && Step(moved, Resolve(later)) == moved && CacheFresh(moved, later)
  {
    var s := Run(events);
    RunKeepsInv(events);
    MovesToSecond(s, now);
    RunExtends(events, LoggedOut(now, s.cached.value, true));
  }

  // ----- what waiting callers are told -----

  /**
   * A settling read hands its callers a rejected build if and only if it brought nothing usable and
   * the build cached when it began has been rejected while it was under way.
   */
  lemma AnswerRejectedIff(events: seq<Event>, now: int, o: Outcome)
    requires Run(events).flight.Fetching?
    ensures var s := Run(events); var a := Answer(s, now, o);
      (a.Some? && a.value in s.rejected) <==>
      (Offered(s, now, o) == [] && s.flight.previous.Some? && s.flight.previous.value in s.rejected)
  {
    var s := Run(events);
    var ranked := Offered(s, now, o);
    if ranked != [] {
      RankCommutes(o.versions, now, NamedCurrent(o.current), {}, s.rejected);
      assert {} + s.rejected == s.rejected;
      InWithout(Rank(o.versions, now, NamedCurrent(o.current), {}), s.rejected, ranked[0]);
    }
  }

  /** The first read names v alone. */
  function Named(v: string): State {
    State(Some(v), 1, Idle, 0, [v], {}, Some(Read([], Some(v), 1)), 1, 1)
  }

  lemma FirstRead(v: string)
    requires IsBuildNumber(v)
    ensures Run([Resolve(1), Settle(1, Listing([], Some(v)))]) == Named(v)
  {
    RunExtends([], Resolve(1));
    assert [] + [Resolve(1)] == [Resolve(1)];
    RunExtends([Resolve(1)], Settle(1, Listing([], Some(v))));
    assert [Resolve(1)] + [Settle(1, Listing([], Some(v)))] == [Resolve(1), Settle(1, Listing([], Some(v)))];
    NamesOnly(v);
  }

  lemma NamesOnly(v: string)
    requires IsBuildNumber(v)
    ensures Step(Step(START, Resolve(1)), Settle(1, Listing([], Some(v)))) == Named(v)
  {
    PickIsNewestSettled([], 1, Some(v), {});
    assert Offered(Step(START, Resolve(1)), 1, Listing([], Some(v))) == [v];
  }

  /** So it does happen, to any build v: it expires, a refresh begins, v is rejected, the refresh fails. */
  lemma RejectedBuildAnswered(v: string)
    requires IsBuildNumber(v)
    ensures var now := 1 + CACHE_TTL_MS;
      var s := Run([Resolve(1), Settle(1, Listing([], Some(v)))] + [Resolve(now)] + [LoggedOut(now, v, true)]);
      s.flight.Fetching? && Answer(s, now, Failed) == Some(v) && v in s.rejected
  {
    var now := 1 + CACHE_TTL_MS;
    var events := [Resolve(1), Settle(1, Listing([], Some(v)))];
    FirstRead(v);
    RunExtends(events, Resolve(now));
    RunExtends(events + [Resolve(now)], LoggedOut(now, v, true));
  }

  // ----- when the registry is read -----

  /** A resolve reads the registry if and only if no read is under way, no build was cached within a day, and none failed within a minute. */
  lemma ReadStartsIff(s: State, now: int)
    ensures var t := Step(s, Resolve(now));
      && (t.started == s.started + 1 <==>
            && s.flight.Idle?
            && (s.cached.None? || now - s.cachedAt >= 86_400_000)
            && (s.lastFailureAt == 0 || now - s.lastFailureAt >= 60_000))
      && (t.started == s.started + 1 ==> t == s.(flight := Fetching(s.cached), started := s.started + 1))
      && (t.started != s.started + 1 ==> t == s)
  {
  }

  /** No event but a settling read moves the backoff mark. */
  lemma {:induction false} MarkStays(events: seq<Event>, more: seq<Event>)
    requires forall i :: 0 <= i < |more| ==> !more[i].Settle?
    ensures Run(events + more).lastFailureAt == Run(events).lastFailureAt
  {
    if more == [] {
      assert events + more == events;
    } else {
      var n := |more| - 1;
      MarkStays(events, more[..n]);
      assert events + more == events + more[..n] + [more[n]];
      RunExtends(events + more[..n], more[n]);
    }
  }

  /** A read that fails, or names nothing usable, is not repeated for a minute, whatever happens in between. */
  lemma FailedReadBacksOff(events: seq<Event>, at: int, o: Outcome, more: seq<Event>, now: int)
    requires Run(events).flight.Fetching? && Offered(Run(events), at, o) == [] && at != 0
    requires forall i :: 0 <= i < |more| ==> !more[i].Settle?
    requires now - at < 60_000
    ensures var s := Run(events + [Settle(at, o)] + more); Step(s, Resolve(now)) == s
  {
    var s := Run(events + [Settle(at, o)] + more);
    RunExtends(events, Settle(at, o));
    MarkStays(events + [Settle(at, o)], more);
    ReadStartsIff(s, now);
  }

  /** A read that names something is answered from the cache for a day, with its best build that has not been rejected. */
  lemma GoodReadLastsADay(events: seq<Event>, at: int, o: Outcome, now: int)
    requires Run(events).flight.Fetching? && Offered(Run(events), at, o) != [] && now - at < 86_400_000
    ensures var s := Run(events + [Settle(at, o)]);
      && s.cached == Some(Offered(Run(events), at, o)[0]) && s.candidates == Offered(Run(events), at, o)
      && Step(s, Resolve(now)) == s
  {
    RunExtends(events, Settle(at, o));
    ReadStartsIff(Run(events + [Settle(at, o)]), now);
  }

  /** Rejecting the cached build for good empties the cache, so that the next resolve reads again unless it backs off. */
  lemma LastRejectionReadsAgain(events: seq<Event>, at: int, now: int)
    requires Run(events).cached.Some? && Run(events).flight.Idle?
    requires Run(events).lastFailureAt == 0 || now - Run(events).lastFailureAt >= 60_000
    ensures var s := Run(events + [LoggedOut(at, Run(events).cached.value, false)]);
      s.cached.None? && Step(s, Resolve(now)).flight == Fetching(None)
  {
    RunExtends(events, LoggedOut(at, Run(events).cached.value, false));
  }

  /** Rejecting any other build leaves the cached one as it is, for as long. */
  lemma OtherRejectionKeepsCache(events: seq<Event>, at: int, v: string, willRetry: bool)
    requires Run(events).cached != Some(v)
    ensures var s, t := Run(events), Run(events + [LoggedOut(at, v, willRetry)]);
      t.cached == s.cached && t.cachedAt == s.cachedAt
  {
    RunExtends(events, LoggedOut(at, v, willRetry));
  }

  predicate Numbered(v: string) { v != "" && v[0] in "0123456789" }

  /** What the registry names counts only when it is a build number. */
  predicate ReadNamesNumber(s: State) {
    s.lastRead.Some? && s.lastRead.value.current.Some? ==> Numbered(s.lastRead.value.current.value)
  }

  lemma NamedIsNumbered(current: Option<string>)
    ensures NamedCurrent(current).Some? ==> Numbered(NamedCurrent(current).value)
  {
  }

  lemma StepNamesNumber(s: State, e: Event)
    requires ReadNamesNumber(s)
    ensures ReadNamesNumber(Step(s, e))
  {
    if e.Settle? && e.outcome.Listing? { NamedIsNumbered(e.outcome.current); }
  }

  lemma {:induction false} RunNamesNumber(events: seq<Event>)
    ensures ReadNamesNumber(Run(events))
  {
    if events != [] {
      var n := |events| - 1;
      RunNamesNumber(events[..n]);
      StepNamesNumber(Run(events[..n]), events[n]);
    }
  }

  lemma RankedAreNumbered(versions: seq<Listed>, now: int, current: Option<string>, v: string)
    requires current.Some? ==> Numbered(current.value)
    requires v in Rank(versions, now, current, {})
    ensures Numbered(v)
  {
    InRankIff(versions, now, current, {}, v);
  }

  lemma RemainingAreNumbered(s: State, v: string)
    requires ReadNamesNumber(s) && v in Remaining(s)
    ensures Numbered(v)
  {
    var r := s.lastRead.value;
    InWithout(Rank(r.versions, r.at, r.current, {}), s.rejected, v);
    RankedAreNumbered(r.versions, r.at, r.current, v);
  }

  /** In every run, whatever the registry lists or names, a build that may be pinned begins with a digit. */
  lemma CandidatesAreNumbered(events: seq<Event>, v: string)
    requires v in Run(events).candidates || Run(events).cached == Some(v)
    ensures Numbered(v)
  {
    RunKeepsInv(events);
    RunNamesNumber(events);
    RemainingAreNumbered(Run(events), v);
  }
}
