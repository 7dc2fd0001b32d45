/** The registry of live engines: who is live for a session, over which proxy, and who is told when that ends. */
module EngineRegistry {
  import opened Basics

  /** An engine is compared by identity alone. */
  datatype Engine = Engine(serial: nat)

  datatype Entry = Entry(id: string, engine: Engine)

  /** One call of a retire listener, and the engine the registry answered for that session at that moment. */
  datatype Report = Report(listener: nat, id: string, engine: Engine, registered: Option<Engine>)

  /** The two maps, engines in insertion order, the number of listeners, and every call made to them. */
  datatype State = State(engines: seq<Entry>, proxies: map<string, Option<string>>, listeners: nat, reports: seq<Report>)

  datatype Event =
    | Set(id: string, engine: Engine, proxy: Option<string>)
    | Delete(id: string)
    | Clear
    | DeleteIfLive(id: string, engine: Engine)
    | OnRetire

  const START := State([], map[], 0, [])

  // ----- an insertion-ordered map -----

  function Lookup(s: seq<Entry>, id: string): Option<Engine> {
    if s == [] then None
    else if s[|s| - 1].id == id then Some(s[|s| - 1].engine)
    else Lookup(s[..|s| - 1], id)
  }

  function Replace(s: seq<Entry>, id: string, e: Engine): seq<Entry> {
    if s == [] then []
    else if s[|s| - 1].id == id then s[..|s| - 1] + [Entry(id, e)]
    else Replace(s[..|s| - 1], id, e) + [s[|s| - 1]]
  }

  function Put(s: seq<Entry>, id: string, e: Engine): seq<Entry> {
    if Lookup(s, id).None? then s + [Entry(id, e)] else Replace(s, id, e)
  }

  function Remove(s: seq<Entry>, id: string): seq<Entry> {
    if s == [] then []
    else if s[|s| - 1].id == id then Remove(s[..|s| - 1], id)
    else Remove(s[..|s| - 1], id) + [s[|s| - 1]]
  }

  predicate OneEach(s: seq<Entry>) {
    s != [] ==> OneEach(s[..|s| - 1]) && Lookup(s[..|s| - 1], s[|s| - 1].id).None?
  }

  lemma LookupAppend(s: seq<Entry>, e: Entry, id: string)
    ensures Lookup(s + [e], id) == if e.id == id then Some(e.engine) else Lookup(s, id)
    ensures OneEach(s + [e]) <==> OneEach(s) && Lookup(s, e.id).None?
  {
    assert (s + [e])[..|s|] == s;
  }

  lemma {:induction false} LookupReplace(s: seq<Entry>, id: string, e: Engine, other: string)
    requires Lookup(s, id).Some?
    ensures Lookup(Replace(s, id, e), other) == if other == id then Some(e) else Lookup(s, other)
  {
    var front, last := s[..|s| - 1], s[|s| - 1];
    if last.id == id {
      LookupAppend(front, Entry(id, e), other);
    } else {
      LookupReplace(front, id, e, other);
      LookupAppend(Replace(front, id, e), last, other);
    }
  }

  lemma LookupPut(s: seq<Entry>, id: string, e: Engine, other: string)
    ensures Lookup(Put(s, id, e), other) == if other == id then Some(e) else Lookup(s, other)
  {
    if Lookup(s, id).None? { LookupAppend(s, Entry(id, e), other); } else { LookupReplace(s, id, e, other); }
  }

  lemma {:induction false} LookupRemove(s: seq<Entry>, id: string, other: string)
    ensures Lookup(Remove(s, id), other) == if other == id then None else Lookup(s, other)
  {
    if s != [] {
      var front, last := s[..|s| - 1], s[|s| - 1];
      LookupRemove(front, id, other);
      LookupAppend(Remove(front, id), last, other);
    }
  }

  lemma {:induction false} ReplaceOneEach(s: seq<Entry>, id: string, e: Engine)
    requires OneEach(s) && Lookup(s, id).Some?
    ensures OneEach(Replace(s, id, e))
  {
    var front, last := s[..|s| - 1], s[|s| - 1];
    if last.id == id {
      LookupAppend(front, Entry(id, e), id);
    } else {
      ReplaceOneEach(front, id, e);
      LookupReplace(front, id, e, last.id);
      LookupAppend(Replace(front, id, e), last, id);
    }
  }

  lemma PutOneEach(s: seq<Entry>, id: string, e: Engine)
    requires OneEach(s)
    ensures OneEach(Put(s, id, e))
  {
    if Lookup(s, id).None? { LookupAppend(s, Entry(id, e), id); } else { ReplaceOneEach(s, id, e); }
  }

  lemma {:induction false} RemoveOneEach(s: seq<Entry>, id: string)
    requires OneEach(s)
    ensures OneEach(Remove(s, id))
  {
    if s != [] {
      var front, last := s[..|s| - 1], s[|s| - 1];
      RemoveOneEach(front, id);
      LookupRemove(front, id, last.id);
      LookupAppend(Remove(front, id), last, id);
    }
  }

  // ----- operations -----

  /** Every listener, in turn, told that e is no longer live. */
  function Broadcast(listeners: nat, e: Entry, engines: seq<Entry>): seq<Report> {
    if listeners == 0 then []
    else Broadcast(listeners - 1, e, engines) + [Report(listeners - 1, e.id, e.engine, Lookup(engines, e.id))]
  }

  function Retire(s: State, e: Entry): State {
    s.(reports := s.reports + Broadcast(s.listeners, e, s.engines))
  }

  function RetireAll(s: State, entries: seq<Entry>): State {
    if entries == [] then s else Retire(RetireAll(s, entries[..|entries| - 1]), entries[|entries| - 1])
  }

  function AfterSet(s: State, id: string, e: Engine, proxy: Option<string>): State {
    var previous := Lookup(s.engines, id);
    var t := s.(engines := Put(s.engines, id, e), proxies := s.proxies[id := proxy]);
    if previous.Some? && previous.value != e then Retire(t, Entry(id, previous.value)) else t
  }

  function AfterDelete(s: State, id: string): State {
    var previous := Lookup(s.engines, id);
    var t := s.(engines := Remove(s.engines, id), proxies := s.proxies - {id});
    if previous.Some? then Retire(t, Entry(id, previous.value)) else t
  }

  function Step(s: State, event: Event): State {
    match event
    case Set(id, e, proxy) => AfterSet(s, id, e, proxy)
    case Delete(id) => AfterDelete(s, id)
    case Clear => RetireAll(s.(engines := [], proxies := map[]), s.engines)
    case DeleteIfLive(id, e) => if Lookup(s.engines, id) == Some(e) then AfterDelete(s, id) else s
    case OnRetire => s.(listeners := s.listeners + 1)
  }

  function Run(events: seq<Event>): State {
    if events == [] then START else Step(Run(events[..|events| - 1]), events[|events| - 1])
  }

  // ----- what the registry is meant to hold, read off the trace -----

  /** The engine live for id after the events: the last one set, unless it has been removed since. */
  function Live(events: seq<Event>, id: string): Option<Engine> {
    if events == [] then None
    else
      var before := Live(events[..|events| - 1], id);
      match events[|events| - 1]
      case Set(i, e, _) => if i == id then Some(e) else before
      case Delete(i) => if i == id then None else before
      case Clear => None
      case DeleteIfLive(i, e) => if i == id && before == Some(e) then None else before
      case OnRetire => before
  }

  /** The proxy given by the set that last touched id's live engine; None when direct or not live. */
  function LiveProxy(events: seq<Event>, id: string): Option<string> {
    if events == [] || Live(events, id).None? then None
    else
      match events[|events| - 1]
      case Set(i, _, proxy) => if i == id then proxy else LiveProxy(events[..|events| - 1], id)
      case _ => LiveProxy(events[..|events| - 1], id)
  }

  function Listeners(events: seq<Event>): nat {
    if events == [] then 0
    else Listeners(events[..|events| - 1]) + if events[|events| - 1].OnRetire? then 1 else 0
  }

  /** How often, since the listener was added, e stopped being the live engine of id. */
  function Stops(events: seq<Event>, listener: nat, id: string, e: Engine): nat {
    if events == [] then 0
    else
      var before := events[..|events| - 1];
      Stops(before, listener, id, e) +
      if listener < Listeners(before) && Live(before, id) == Some(e) && Live(events, id) != Some(e) then 1 else 0
  }

  function Told(reports: seq<Report>, listener: nat, id: string, e: Engine): nat {
    if reports == [] then 0
    else
      var r := reports[|reports| - 1];
      Told(reports[..|reports| - 1], listener, id, e) +
      if r.listener == listener && r.id == id && r.engine == e then 1 else 0
  }

  // ----- the maps -----

  function ProxyUrl(s: State, id: string): Option<string> { if id in s.proxies then s.proxies[id] else None }

  ghost predicate Inv(s: State) {
    && OneEach(s.engines)
    && forall id :: id in s.proxies <==> Lookup(s.engines, id).Some?
  }

  /** Reports are made and nothing else. */
  predicate OnlyReports(s: State, t: State) {
    t.engines == s.engines && t.proxies == s.proxies && t.listeners == s.listeners
  }

  lemma {:induction false} RetireAllOnlyReports(s: State, entries: seq<Entry>)
    ensures OnlyReports(s, RetireAll(s, entries))
  {
    if entries != [] { RetireAllOnlyReports(s, entries[..|entries| - 1]); }
  }

  lemma DeleteKeepsInv(s: State, id: string)
    requires Inv(s)
    ensures Inv(AfterDelete(s, id))
  {
    RemoveOneEach(s.engines, id);
    forall other ensures other in AfterDelete(s, id).proxies <==> Lookup(AfterDelete(s, id).engines, other).Some? {
      LookupRemove(s.engines, id, other);
    }
  }

  lemma SetKeepsInv(s: State, id: string, e: Engine, proxy: Option<string>)
    requires Inv(s)
    ensures Inv(AfterSet(s, id, e, proxy))
  {
    PutOneEach(s.engines, id, e);
    var t := AfterSet(s, id, e, proxy);
    forall other ensures other in t.proxies <==> Lookup(t.engines, other).Some? {
      LookupPut(s.engines, id, e, other);
    }
  }

  lemma StepKeepsInv(s: State, event: Event)
    requires Inv(s)
    ensures Inv(Step(s, event))
  {
    match event
    case Set(id, e, proxy) => SetKeepsInv(s, id, e, proxy);
    case Delete(id) => DeleteKeepsInv(s, id);
    case Clear => RetireAllOnlyReports(s.(engines := [], proxies := map[]), s.engines);
    case DeleteIfLive(id, e) => DeleteKeepsInv(s, id);
    case OnRetire =>
  }

  lemma {:induction false} RunKeepsInv(events: seq<Event>)
    ensures Inv(Run(events))
  {
    if events != [] {
      RunKeepsInv(events[..|events| - 1]);
      StepKeepsInv(Run(events[..|events| - 1]), events[|events| - 1]);
    }
  }

  /** After every trace the registry answers the engine the trace leaves live. */
  lemma {:induction false} HoldsTheLive(events: seq<Event>, id: string)
    ensures Lookup(Run(events).engines, id) == Live(events, id)
    ensures Run(events).listeners == Listeners(events)
  {
    if events != [] {
      var before := events[..|events| - 1];
      var s := Run(before);
      HoldsTheLive(before, id);
      match events[|events| - 1]
      case Set(i, e, _) => LookupPut(s.engines, i, e, id);
      case Delete(i) => LookupRemove(s.engines, i, id);
      case Clear => RetireAllOnlyReports(s.(engines := [], proxies := map[]), s.engines);
      case DeleteIfLive(i, e) =>
        HoldsTheLive(before, i);
        LookupRemove(s.engines, i, id);
      case OnRetire =>
    }
  }

  /** And the proxy of the set that last touched it, none once it is gone. */
  lemma {:induction false} ProxyOfTheLive(events: seq<Event>, id: string)
    ensures ProxyUrl(Run(events), id) == LiveProxy(events, id)
  {
    RunKeepsInv(events);
    HoldsTheLive(events, id);
    if events != [] && Live(events, id).Some? {
      var before := events[..|events| - 1];
      ProxyOfTheLive(before, id);
    }
  }

  /** A teardown of an engine that is not the live one changes nothing at all. */
  lemma StaleTeardownIsNothing(events: seq<Event>, id: string, e: Engine)
    requires Live(events, id) != Some(e)
    ensures Run(events + [DeleteIfLive(id, e)]) == Run(events)
  {
    HoldsTheLive(events, id);
    assert (events + [DeleteIfLive(id, e)])[..|events|] == events;
  }

  // ----- the reports -----

  lemma {:induction false} ToldAppend(a: seq<Report>, b: seq<Report>, listener: nat, id: string, e: Engine)
    ensures Told(a + b, listener, id, e) == Told(a, listener, id, e) + Told(b, listener, id, e)
  {
    if b == [] {
      assert a + b == a;
    } else {
      var front := b[..|b| - 1];
      ToldAppend(a, front, listener, id, e);
      assert (a + b)[..|a + b| - 1] == a + front;
    }
  }

  lemma {:induction false} ToldBroadcast(listeners: nat, entry: Entry, engines: seq<Entry>, listener: nat, id: string, e: Engine)
    ensures Told(Broadcast(listeners, entry, engines), listener, id, e) ==
      if listener < listeners && entry == Entry(id, e) then 1 else 0
  {
    if listeners > 0 {
      ToldBroadcast(listeners - 1, entry, engines, listener, id, e);
      var front := Broadcast(listeners - 1, entry, engines);
      assert Broadcast(listeners, entry, engines)[..|front|] == front;
    }
  }

  lemma ToldRetire(s: State, entry: Entry, listener: nat, id: string, e: Engine)
    ensures Told(Retire(s, entry).reports, listener, id, e) ==
      Told(s.reports, listener, id, e) + if listener < s.listeners && entry == Entry(id, e) then 1 else 0
  {
    ToldAppend(s.reports, Broadcast(s.listeners, entry, s.engines), listener, id, e);
    ToldBroadcast(s.listeners, entry, s.engines, listener, id, e);
  }

  lemma {:induction false} ToldRetireAll(s: State, entries: seq<Entry>, listener: nat, id: string, e: Engine)
    requires OneEach(entries)
    ensures Told(RetireAll(s, entries).reports, listener, id, e) ==
      Told(s.reports, listener, id, e) + if listener < s.listeners && Lookup(entries, id) == Some(e) then 1 else 0
  {
    if entries != [] {
      var front := entries[..|entries| - 1];
      ToldRetireAll(s, front, listener, id, e);
      RetireAllOnlyReports(s, front);
      ToldRetire(RetireAll(s, front), entries[|entries| - 1], listener, id, e);
    }
  }

  /** One step tells a listener of a pair exactly when the step ends that pair. */
  lemma ToldStep(s: State, event: Event, listener: nat, id: string, e: Engine)
    requires Inv(s)
    ensures Told(Step(s, event).reports, listener, id, e) == Told(s.reports, listener, id, e) +
      if listener < s.listeners && Lookup(s.engines, id) == Some(e) && Lookup(Step(s, event).engines, id) != Some(e)
      then 1 else 0
  {
    match event
    case Set(i, e', proxy) => ToldSet(s, i, e', proxy, listener, id, e);
    case Delete(i) => ToldDelete(s, i, listener, id, e);
    case Clear =>
      var t := s.(engines := [], proxies := map[]);
      RetireAllOnlyReports(t, s.engines);
      ToldRetireAll(t, s.engines, listener, id, e);
    case DeleteIfLive(i, _) => ToldDelete(s, i, listener, id, e);
    case OnRetire =>
  }

  lemma ToldSet(s: State, i: string, e': Engine, proxy: Option<string>, listener: nat, id: string, e: Engine)
    ensures var t := AfterSet(s, i, e', proxy);
      Told(t.reports, listener, id, e) == Told(s.reports, listener, id, e) +
      if listener < s.listeners && Lookup(s.engines, id) == Some(e) && Lookup(t.engines, id) != Some(e) then 1 else 0
  {
    var previous := Lookup(s.engines, i);
    LookupPut(s.engines, i, e', id);
    if previous.Some? {
      ToldRetire(s.(engines := Put(s.engines, i, e'), proxies := s.proxies[i := proxy]),
        Entry(i, previous.value), listener, id, e);
    }
  }

  lemma ToldDelete(s: State, i: string, listener: nat, id: string, e: Engine)
    ensures var t := AfterDelete(s, i);
      Told(t.reports, listener, id, e) == Told(s.reports, listener, id, e) +
      if listener < s.listeners && Lookup(s.engines, id) == Some(e) && Lookup(t.engines, id) != Some(e) then 1 else 0
  {
    var previous := Lookup(s.engines, i);
    LookupRemove(s.engines, i, id);
    if previous.Some? {
      ToldRetire(s.(engines := Remove(s.engines, i), proxies := s.proxies - {i}),
        Entry(i, previous.value), listener, id, e);
    }
  }

  /** Over every trace, each listener hears of a pair once per time it stops being live, and never otherwise. */
  lemma {:induction false} RetiredOncePerStop(events: seq<Event>, listener: nat, id: string, e: Engine)
    ensures Told(Run(events).reports, listener, id, e) == Stops(events, listener, id, e)
  {
    if events != [] {
      var before := events[..|events| - 1];
      RetiredOncePerStop(before, listener, id, e);
      RunKeepsInv(before);
      HoldsTheLive(before, id);
      HoldsTheLive(events, id);
      ToldStep(Run(before), events[|events| - 1], listener, id, e);
    }
  }

  /** A report finds its engine already stale. */
  predicate Stale(reports: seq<Report>) {
    forall k :: 0 <= k < |reports| ==> reports[k].registered != Some(reports[k].engine)
  }

  lemma {:induction false} BroadcastStale(listeners: nat, e: Entry, engines: seq<Entry>)
    requires Lookup(engines, e.id) != Some(e.engine)
    ensures Stale(Broadcast(listeners, e, engines))
  {
    if listeners > 0 { BroadcastStale(listeners - 1, e, engines); }
  }

  lemma RetireStale(s: State, e: Entry)
    requires Stale(s.reports) && Lookup(s.engines, e.id) != Some(e.engine)
    ensures Stale(Retire(s, e).reports)
  {
    BroadcastStale(s.listeners, e, s.engines);
  }

  lemma {:induction false} RetireAllStale(s: State, entries: seq<Entry>)
    requires Stale(s.reports) && s.engines == []
    ensures Stale(RetireAll(s, entries).reports)
  {
    if entries != [] {
      RetireAllStale(s, entries[..|entries| - 1]);
      RetireAllOnlyReports(s, entries[..|entries| - 1]);
      RetireStale(RetireAll(s, entries[..|entries| - 1]), entries[|entries| - 1]);
    }
  }

  lemma SetStale(s: State, id: string, e: Engine, proxy: Option<string>)
    requires Stale(s.reports)
    ensures Stale(AfterSet(s, id, e, proxy).reports)
  {
    var previous := Lookup(s.engines, id);
    LookupPut(s.engines, id, e, id);
    if previous.Some? && previous.value != e {
      RetireStale(s.(engines := Put(s.engines, id, e), proxies := s.proxies[id := proxy]), Entry(id, previous.value));
    }
  }

  lemma DeleteStale(s: State, id: string)
    requires Stale(s.reports)
    ensures Stale(AfterDelete(s, id).reports)
  {
    var previous := Lookup(s.engines, id);
    LookupRemove(s.engines, id, id);
    if previous.Some? {
      RetireStale(s.(engines := Remove(s.engines, id), proxies := s.proxies - {id}), Entry(id, previous.value));
    }
  }

  /** Every report of every trace is made after the map changed. */
  lemma {:induction false} ReportedAfterTheChange(events: seq<Event>)
    ensures Stale(Run(events).reports)
  {
    if events != [] {
      var s := Run(events[..|events| - 1]);
      ReportedAfterTheChange(events[..|events| - 1]);
      match events[|events| - 1]
      case Set(id, e, proxy) => SetStale(s, id, e, proxy);
      case Delete(id) => DeleteStale(s, id);
      case Clear => RetireAllStale(s.(engines := [], proxies := map[]), s.engines);
      case DeleteIfLive(id, _) => DeleteStale(s, id);
      case OnRetire =>
    }
  }

  // ----- the service -----

  class Registry {
    var engines: seq<Entry>
    var proxies: map<string, Option<string>>
    var listeners: nat
    var reports: seq<Report>

    ghost function View(): State
      reads this
    {
      State(engines, proxies, listeners, reports)
    }

    constructor ()
      ensures View() == START
    {
      engines, proxies, listeners, reports := [], map[], 0, [];
    }

    /** Calls each listener in the order they were added. */
    method Retired(e: Entry)
      modifies this`reports
      ensures View() == Retire(old(View()), e)
    {
      for k := 0 to listeners
        invariant reports == old(reports) + Broadcast(k, e, engines)
      {
        reports := reports + [Report(k, e.id, e.engine, Lookup(engines, e.id))];
      }
    }

    method SetEngine(id: string, engine: Engine, proxy: Option<string>)
      modifies this
      ensures View() == Step(old(View()), Set(id, engine, proxy))
    {
      var previous := Lookup(engines, id);
      engines := Put(engines, id, engine);
      proxies := proxies[id := proxy];
      if previous.Some? && previous.value != engine { Retired(Entry(id, previous.value)); }
    }

    method Delete(id: string) returns (deleted: bool)
      modifies this
      ensures View() == Step(old(View()), Event.Delete(id))
      ensures deleted <==> Lookup(old(engines), id).Some?
    {
      var previous := Lookup(engines, id);
      proxies := proxies - {id};
      engines := Remove(engines, id);
      deleted := previous.Some?;
      if previous.Some? { Retired(Entry(id, previous.value)); }
    }

    method Clear()
      modifies this
      ensures View() == Step(old(View()), Event.Clear)
    {
      var previous := engines;
      engines, proxies := [], map[];
      ghost var cleared := View();
      for k := 0 to |previous|
        invariant View() == RetireAll(cleared, previous[..k])
      {
        assert previous[..k + 1][..k] == previous[..k];
        Retired(previous[k]);
      }
      assert previous[..|previous|] == previous;
    }

    method DeleteIfLive(id: string, engine: Engine) returns (deleted: bool)
      modifies this
      ensures View() == Step(old(View()), Event.DeleteIfLive(id, engine))
      ensures deleted <==> Lookup(old(engines), id) == Some(engine)
    {
      if Lookup(engines, id) != Some(engine) { return false; }
      deleted := Delete(id);
    }

    method OnRetire()
      modifies this`listeners
      ensures View() == Step(old(View()), Event.OnRetire)
    {
      listeners := listeners + 1;
    }

    method Handle(event: Event)
      modifies this
      ensures View() == Step(old(View()), event)
    {
      match event
      case Set(id, e, proxy) => SetEngine(id, e, proxy);
      case Delete(id) => var _ := Delete(id);
      case Clear => Clear();
      case DeleteIfLive(id, e) => var _ := DeleteIfLive(id, e);
      case OnRetire => OnRetire();
    }
  }

  /** Any trace through the service: what it answers for id and what its listeners heard. */
  method Serve(events: seq<Event>, id: string) returns (live: Option<Engine>, proxy: Option<string>, heard: seq<Report>)
    ensures live == Live(events, id) && proxy == LiveProxy(events, id)
    ensures forall l: nat, i, e :: Told(heard, l, i, e) == Stops(events, l, i, e)
    ensures Stale(heard)
  {
    var registry := new Registry();
    for k := 0 to |events|
      invariant registry.View() == Run(events[..k])
    {
      assert events[..k + 1][..k] == events[..k];
      registry.Handle(events[k]);
    }
    assert events[..|events|] == events;
    live := Lookup(registry.engines, id);
    proxy := if id in registry.proxies then registry.proxies[id] else None;
    heard := registry.reports;
    HoldsTheLive(events, id);
    ProxyOfTheLive(events, id);
    ReportedAfterTheChange(events);
    forall l: nat, i, e ensures Told(heard, l, i, e) == Stops(events, l, i, e) { RetiredOncePerStop(events, l, i, e); }
  }
}
