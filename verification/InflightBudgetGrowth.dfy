/**
 * Runs of the in-flight body budget in which chunked bodies, admitted at their placeholder, grow as they
 * complete, where nothing stops them, and keep other senders out.
 */
module InflightBudgetGrowth {
  import opened Basics
  import opened InflightBudget
  import opened InflightBudgetSafety
  import opened InflightBudgetAdmission

  const MIB: int := 1024 * 1024

  function Chunked(address: string, socket: nat): Head { Head(ByAddress(address), None, true, false, false, socket) }

  /** n chunked bodies of one address arrive, each on a socket of its own. */
  function Arriving(address: string, n: nat): seq<Event> {
    if n == 0 then [] else Arriving(address, n - 1) + [Arrives(Chunked(address, n - 1))]
  }

  /** The first k of them have been sent in full, and parsed to the end. */
  function Sent(address: string, n: nat, cap: nat, k: nat): seq<Event> {
    if k == 0 then Arriving(address, n)
    else Sent(address, n, cap, k - 1) + [Receives(k - 1, cap)] + [Completes(k - 1)]
  }

  /** Five seconds later the timers of the first k fire. */
  function Polled(address: string, n: nat, cap: nat, k: nat): seq<Event> {
    if k == 0 then Sent(address, n, cap, n) + [Passes(STALL_POLL_MS as nat)]
    else Polled(address, n, cap, k - 1) + [Polls(k - 1)]
  }

  lemma RunExtends(cfg: Config, events: seq<Event>, e: Event)
    ensures Run(cfg, events + [e]) == Step(cfg, Run(cfg, events), e)
  {
    assert (events + [e])[..|events|] == events;
  }

  function Open(address: string, socket: nat): Flight {
    Flight(ByAddress(address), None, socket, 0, 0, MIB, false, true, 0, 0, None, false, 0, 0)
  }

  function Full(address: string, socket: nat, cap: nat): Flight {
    Open(address, socket).(reserved := cap, armed := false, settled := true, grown := cap - MIB, polls := 1)
  }

  /** The first k bodies grown to the cap, the rest at their placeholder. */
  function Bodies(address: string, n: nat, cap: nat, k: nat): (fs: seq<Flight>)
    ensures |fs| == n
  {
    seq(n, i requires 0 <= i < n => if i < k then Full(address, i, cap) else Open(address, i))
  }

  /** Room for n placeholders of one address. */
  ghost predicate Admits(cfg: Config, cap: nat, n: nat) {
    && HalfShare(cfg) && cfg.bodyLimit == cap && cfg.budget >= 2 * cap && n * MIB <= cap && cap > MIB
    && n < MAX_TRACKED_CLIENTS
  }

  lemma {:induction false} SumOfSame(cfg: Config, scope: Scope, fs: seq<Flight>, w: int)
    requires forall i :: 0 <= i < |fs| ==> Weight(cfg, scope, Held, fs[i]) == w
    ensures Sum(cfg, scope, Held, fs) == |fs| * w
  {
    if fs != [] {
      var n := |fs| - 1;
      SumOfSame(cfg, scope, fs[..n], w);
      assert n * w + w == (n + 1) * w;
    }
  }

  lemma SumOfOpen(cfg: Config, scope: Scope, address: string, n: nat, cap: nat)
    requires cfg.tiered && (scope.One? ==> scope.client == ByAddress(address))
    ensures Sum(cfg, scope, Held, Bodies(address, n, cap, 0)) == n * MIB
  {
    SumOfSame(cfg, scope, Bodies(address, n, cap, 0), MIB);
  }

  lemma SumOfFull(cfg: Config, scope: Scope, address: string, n: nat, cap: nat)
    requires cfg.tiered && (scope.One? ==> scope.client == ByAddress(address))
    ensures Sum(cfg, scope, Held, Bodies(address, n, cap, n)) == n * cap
  {
    SumOfSame(cfg, scope, Bodies(address, n, cap, n), cap);
  }

  lemma OneClient(address: string, n: nat, cap: nat)
    ensures |LiveClients(Bodies(address, n, cap, 0))| <= 1
  {
    var fs, c := Bodies(address, n, cap, 0), ByAddress(address);
    assert LiveClients(fs) <= {c};
    SubsetSize(LiveClients(fs), {c});
  }

  lemma NextPlaceholderFits(cfg: Config, address: string, n: nat, cap: nat)
    requires Admits(cfg, cap, n + 1)
    ensures Decide(cfg, Bodies(address, n, cap, 0), Chunked(address, n)) == Admitted(MIB)
  {
    HalfShareCaps(cfg);
    SumOfOpen(cfg, Everyone, address, n, cap);
    SumOfOpen(cfg, Anonymous, address, n, cap);
    SumOfOpen(cfg, One(ByAddress(address)), address, n, cap);
    OneClient(address, n, cap);
  }

  lemma OneArrives(cfg: Config, address: string, n: nat, cap: nat)
    requires Admits(cfg, cap, n + 1)
    ensures Step(cfg, EMPTY.(flights := Bodies(address, n, cap, 0)), Arrives(Chunked(address, n))) ==
      EMPTY.(flights := Bodies(address, n + 1, cap, 0))
  {
    var s := EMPTY.(flights := Bodies(address, n, cap, 0));
    NextPlaceholderFits(cfg, address, n, cap);
    assert Opened(s, Chunked(address, n), MIB) == Open(address, n);
    assert Bodies(address, n + 1, cap, 0) == Bodies(address, n, cap, 0) + [Open(address, n)];
  }

  /** n bodies have arrived, and nothing else has happened. */
  ghost predicate ArrivedOf(s: State, address: string, n: nat, cap: nat) {
    s == EMPTY.(flights := Bodies(address, n, cap, 0))
  }

  lemma ArriveOne(cfg: Config, before: seq<Event>, address: string, n: nat, cap: nat)
    requires Admits(cfg, cap, n + 1) && ArrivedOf(Run(cfg, before), address, n, cap)
    ensures ArrivedOf(Run(cfg, before + [Arrives(Chunked(address, n))]), address, n + 1, cap)
  {
    RunExtends(cfg, before, Arrives(Chunked(address, n)));
    OneArrives(cfg, address, n, cap);
  }

  lemma AdmitsFewer(cfg: Config, cap: nat, n: nat)
    requires Admits(cfg, cap, n + 1)
    ensures Admits(cfg, cap, n)
  {
  }

  lemma {:induction false} AllArrive(cfg: Config, address: string, n: nat, cap: nat)
    requires Admits(cfg, cap, n)
    ensures ArrivedOf(Run(cfg, Arriving(address, n)), address, n, cap)
  {
    if n == 0 {
      NoneArrived(cfg, address, cap);
    } else {
      AdmitsFewer(cfg, cap, n - 1);
      AllArrive(cfg, address, n - 1, cap);
      ArriveOne(cfg, Arriving(address, n - 1), address, n - 1, cap);
    }
  }

  lemma NoneArrived(cfg: Config, address: string, cap: nat)
    ensures ArrivedOf(Run(cfg, Arriving(address, 0)), address, 0, cap)
  {
    assert Bodies(address, 0, cap, 0) == [];
  }

  /** What has been sent of the first k, and nothing else has moved. */
  ghost predicate SentOf(s: State, address: string, n: nat, cap: nat, k: nat) {
    && s.flights == Bodies(address, n, cap, 0)
    && forall i: nat :: i < n ==> ReadOn(s, i) == (if i < k then cap else 0) && (i < k ==> i in s.complete)
  }

  lemma SendOne(cfg: Config, s: State, address: string, n: nat, cap: nat, k: nat)
    requires k < n && SentOf(s, address, n, cap, k)
    ensures SentOf(Step(cfg, Step(cfg, s, Receives(k, cap)), Completes(k)), address, n, cap, k + 1)
  {
    var t := Step(cfg, Step(cfg, s, Receives(k, cap)), Completes(k));
    forall i: nat | i < n ensures ReadOn(t, i) == (if i < k + 1 then cap else 0) && (i < k + 1 ==> i in t.complete) {
      assert ReadOn(s, i) == if i < k then cap else 0;
    }
  }

  lemma SendNext(cfg: Config, before: seq<Event>, address: string, n: nat, cap: nat, k: nat)
    requires k < n && SentOf(Run(cfg, before), address, n, cap, k)
    ensures SentOf(Run(cfg, before + [Receives(k, cap)] + [Completes(k)]), address, n, cap, k + 1)
  {
    RunExtends(cfg, before, Receives(k, cap));
    RunExtends(cfg, before + [Receives(k, cap)], Completes(k));
    SendOne(cfg, Run(cfg, before), address, n, cap, k);
  }

  lemma {:induction false} AllSent(cfg: Config, address: string, n: nat, cap: nat, k: nat)
    requires Admits(cfg, cap, n) && k <= n
    ensures SentOf(Run(cfg, Sent(address, n, cap, k)), address, n, cap, k)
  {
    if k == 0 {
      AllArrive(cfg, address, n, cap);
      NoneSent(Run(cfg, Arriving(address, n)), address, n, cap);
    } else {
      AllSent(cfg, address, n, cap, k - 1);
      SendNext(cfg, Sent(address, n, cap, k - 1), address, n, cap, k - 1);
    }
  }

  lemma NoneSent(s: State, address: string, n: nat, cap: nat)
    requires ArrivedOf(s, address, n, cap)
    ensures SentOf(s, address, n, cap, 0)
  {
  }

  lemma PollGrows(cfg: Config, s: State, i: nat, address: string, cap: nat)
    requires HalfShare(cfg) && cfg.bodyLimit == cap && cfg.budget >= 2 * cap && cap > MIB
    requires i < |s.flights| && s.flights[i] == Open(address, i) && ReadOn(s, i) == cap && i in s.complete
    ensures Step(cfg, s, Polls(i)) == s.(flights := s.flights[i := Full(address, i, cap)])
  {
    var s0 := CountPoll(s, i);
    var f := s0.flights[i];
    assert ActualSize(cfg, s0, f) == cap;
    assert Repriced(cfg, s0, f, true) == f.(reserved := cap, grown := cap - MIB);
  }

  /** The first k have grown, and all have been sent. */
  ghost predicate GrownOf(s: State, address: string, n: nat, cap: nat, k: nat) {
    && s.flights == Bodies(address, n, cap, k)
    && forall i: nat :: i < n ==> ReadOn(s, i) == cap && i in s.complete
  }

  lemma GrowOne(cfg: Config, s: State, address: string, n: nat, cap: nat, k: nat)
    requires Admits(cfg, cap, n) && k < n && GrownOf(s, address, n, cap, k)
    ensures GrownOf(Step(cfg, s, Polls(k)), address, n, cap, k + 1)
  {
    assert ReadOn(s, k) == cap;
    PollGrows(cfg, s, k, address, cap);
    var t := Step(cfg, s, Polls(k));
    assert Bodies(address, n, cap, k + 1) == Bodies(address, n, cap, k)[k := Full(address, k, cap)];
    forall i: nat | i < n ensures ReadOn(t, i) == cap && i in t.complete { assert ReadOn(s, i) == cap; }
  }

  lemma PollOne(cfg: Config, before: seq<Event>, address: string, n: nat, cap: nat, k: nat)
    requires Admits(cfg, cap, n) && k < n && GrownOf(Run(cfg, before), address, n, cap, k)
    ensures GrownOf(Run(cfg, before + [Polls(k)]), address, n, cap, k + 1)
  {
    RunExtends(cfg, before, Polls(k));
    GrowOne(cfg, Run(cfg, before), address, n, cap, k);
  }

  lemma AllWait(cfg: Config, address: string, n: nat, cap: nat)
    requires Admits(cfg, cap, n)
    ensures GrownOf(Run(cfg, Polled(address, n, cap, 0)), address, n, cap, 0)
  {
    var sent := Sent(address, n, cap, n);
    AllSent(cfg, address, n, cap, n);
    RunExtends(cfg, sent, Passes(STALL_POLL_MS as nat));
    WaitKeeps(cfg, Run(cfg, sent), address, n, cap);
  }

  lemma {:induction false} AllGrow(cfg: Config, address: string, n: nat, cap: nat, k: nat)
    requires Admits(cfg, cap, n) && k <= n
    ensures GrownOf(Run(cfg, Polled(address, n, cap, k)), address, n, cap, k)
  {
    if k == 0 {
      AllWait(cfg, address, n, cap);
    } else {
      AllGrow(cfg, address, n, cap, k - 1);
      PollOne(cfg, Polled(address, n, cap, k - 1), address, n, cap, k - 1);
    }
  }

  lemma WaitKeeps(cfg: Config, s: State, address: string, n: nat, cap: nat)
    requires SentOf(s, address, n, cap, n)
    ensures GrownOf(Step(cfg, s, Passes(STALL_POLL_MS as nat)), address, n, cap, 0)
  {
    var t := Step(cfg, s, Passes(STALL_POLL_MS as nat));
    forall i: nat | i < n ensures ReadOn(t, i) == cap && i in t.complete { assert ReadOn(s, i) == cap; }
  }

  /** n bodies of one address, admitted at their placeholders, hold n caps once they are complete. */
  lemma CompletedBodiesHold(cfg: Config, address: string, n: nat, cap: nat)
    requires Admits(cfg, cap, n)
    ensures var fs := Run(cfg, Polled(address, n, cap, n)).flights;
      && OnlyHeldBy(cfg, fs, One(ByAddress(address))) && OnlyHeldBy(cfg, fs, Anonymous)
      && Sum(cfg, One(ByAddress(address)), Held, fs) == n * cap && Sum(cfg, Anonymous, Held, fs) == n * cap
  {
    AllGrow(cfg, address, n, cap, n);
    SumOfFull(cfg, One(ByAddress(address)), address, n, cap);
    SumOfFull(cfg, Anonymous, address, n, cap);
  }

  /**
   * What one anonymous client leaves to others. For every body cap from 2 MiB and a budget of two, two chunked
   * bodies of one address that grow as they complete keep out every body of any other address.
   */
  lemma CompletedBodiesFillThePool(cfg: Config, address: string, cap: nat, h: Head)
    requires HalfShare(cfg) && cfg.bodyLimit == cap && cfg.budget == 2 * cap && cap >= 2 * MIB
    requires CappedBodyOfAnother(cfg, ByAddress(address), h)
    ensures OnlyHeldBy(cfg, Run(cfg, Polled(address, 2, cap, 2)).flights, One(ByAddress(address)))
    ensures Decide(cfg, Run(cfg, Polled(address, 2, cap, 2)).flights, h) == Refused(503)
  {
    HalfShareCaps(cfg);
    CompletedBodiesHold(cfg, address, 2, cap);
    FitsBesideIff(cfg, Run(cfg, Polled(address, 2, cap, 2)).flights, ByAddress(address), h);
  }

  /** For every cap from 3 MiB and a budget of three, three of them keep out every keyed body up to the cap. */
  lemma CompletedBodiesKeepKeysOut(cfg: Config, address: string, cap: nat, h: Head)
    requires HalfShare(cfg) && cfg.bodyLimit == cap && cfg.budget == 3 * cap && cap >= 3 * MIB
    requires DeclaresBody(h) && h.client.ByKey? && h.declared.value <= cap
    ensures OnlyHeldBy(cfg, Run(cfg, Polled(address, 3, cap, 3)).flights, Anonymous)
    ensures Decide(cfg, Run(cfg, Polled(address, 3, cap, 3)).flights, h) == Refused(503)
  {
    CompletedBodiesHold(cfg, address, 3, cap);
    KeyedBodyFitsIff(cfg, Run(cfg, Polled(address, 3, cap, 3)).flights, h);
  }
}
