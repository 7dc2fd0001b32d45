/**
 * The pairing QR handlers of the Baileys backport: pair-device flows, one shared QR timer, and
 * companion-registration refreshes that rotate the secret under the QR on screen.
 */
module PairingQr {
  import opened Basics

  /** One pair-device handler: the refs it was given, how many it has shifted, and whether its await is over. */
  datatype FlowVars = Flow(refs: seq<string>, taken: nat, started: bool)

  type Flow = f: FlowVars | f.taken <= |f.refs| witness FlowVars.Flow([], 0, false)

  datatype Timer = Timer(flow: nat, ms: int)

  /** What the handlers emit. `first` tells a ref shown for the first time from a re-rendered one. */
  datatype Emission =
    | Qr(flow: nat, index: nat, ref: string, secret: string, first: bool)
    | SecretRotated(secret: string)
    | RefsEnded(flow: nat)

  /**
   * `shown` is the flow whose renderQR refreshPairingQR names, `qrTimer` the shared variable, and
   * `pending` the timers that have neither fired nor been cleared.
   */
  datatype State = State(
    open: bool, me: bool, secret: string, flows: seq<Flow>, shown: Option<nat>,
    qrTimer: Option<nat>, pending: map<nat, Timer>, nextTimer: nat, log: seq<Emission>)

  /** qrTimeout of 0 stands for an unset option. */
  function FirstMs(qrTimeout: nat): int { if qrTimeout != 0 then qrTimeout else 60_000 }
  function NextMs(qrTimeout: nat): int { if qrTimeout != 0 then qrTimeout else 20_000 }

  function Opened(secret: string): State { State(true, false, secret, [], None, None, map[], 0, []) }

  function Render(s: State, f: nat, first: bool): State
    requires f < |s.flows|
  {
    var flow := s.flows[f];
    if !s.open || flow.taken == 0 || s.me then s
    else s.(log := s.log + [Qr(f, flow.taken - 1, flow.refs[flow.taken - 1], s.secret, first)])
  }

  function Gen(qrTimeout: nat, s: State, f: nat): State
    requires f < |s.flows|
  {
    var flow := s.flows[f];
    if !s.open || s.me then s
    else if flow.taken == |flow.refs| then s.(log := s.log + [RefsEnded(f)])
    else
      var s1 := Render(s.(flows := s.flows[f := flow.(taken := flow.taken + 1)]), f, true);
      s1.(qrTimer := Some(s.nextTimer),
          pending := s.pending[s.nextTimer := Timer(f, if flow.taken == 0 then FirstMs(qrTimeout) else NextMs(qrTimeout))],
          nextTimer := s.nextTimer + 1)
  }

  /** clearTimeout(qrTimer). */
  function Cleared(s: State): map<nat, Timer> {
    if s.qrTimer.Some? then s.pending - {s.qrTimer.value} else s.pending
  }

  datatype Event =
    | PairDevice(refs: seq<string>)               // the stanza arrives; the handler awaits its reply
    | Replied(flow: nat)                          // that await resolves and the handler goes on
    | Fires(timer: nat)
    | Refresh(recognised: bool, secret: string)   // a companion_reg_refresh notification
    | Paired                                      // creds.me is set
    | Closes

  function Step(qrTimeout: nat, s: State, e: Event): State {
    match e
    case PairDevice(refs) => s.(flows := s.flows + [Flow(refs, 0, false)])
    case Replied(f) =>
      if f >= |s.flows| || s.flows[f].started then s
      else Gen(qrTimeout, s.(flows := s.flows[f := s.flows[f].(started := true)], shown := Some(f), pending := Cleared(s)), f)
    case Fires(t) =>
      if t !in s.pending then s
      else
        var f := s.pending[t].flow;
        var s1 := s.(pending := s.pending - {t});
        if f < |s.flows| then Gen(qrTimeout, s1, f) else s1
    case Refresh(recognised, secret) =>
      if s.me || !s.open || !recognised then s
      else
        var s1 := s.(secret := secret, log := s.log + [SecretRotated(secret)]);
        if s.shown.Some? && s.shown.value < |s.flows| then Render(s1, s.shown.value, false) else s1
    case Paired => s.(me := true)
    case Closes => s.(open := false)
  }

  function RunFrom(qrTimeout: nat, s: State, events: seq<Event>): State {
    if events == [] then s
    else Step(qrTimeout, RunFrom(qrTimeout, s, events[..|events| - 1]), events[|events| - 1])
  }

  function Run(qrTimeout: nat, secret: string, events: seq<Event>): State {
    RunFrom(qrTimeout, Opened(secret), events)
  }

  // ----- the invariant -----

  /** The indices of the refs of flow `f` shown for the first time, in the order they were shown. */
  function FreshOf(log: seq<Emission>, f: nat): seq<nat> {
    if log == [] then []
    else
      var last := log[|log| - 1];
      FreshOf(log[..|log| - 1], f) + if last.Qr? && last.flow == f && last.first then [last.index] else []
  }

  function UpTo(n: nat): seq<nat> { seq(n, i => i) }

  predicate FlowOk(flow: Flow) { !flow.started ==> flow.taken == 0 }

  ghost predicate Inv(qrTimeout: nat, s: State) {
    && (forall f :: 0 <= f < |s.flows| ==> FlowOk(s.flows[f]))
    && (s.shown.Some? ==> s.shown.value < |s.flows| && s.flows[s.shown.value].started)
    && (forall t :: t in s.pending ==>
          && s.qrTimer == Some(t) && t < s.nextTimer
          && s.shown == Some(s.pending[t].flow)
          && s.pending[t].flow < |s.flows|
          && s.flows[s.pending[t].flow].taken >= 1
          && s.pending[t].ms == (if s.flows[s.pending[t].flow].taken == 1 then FirstMs(qrTimeout) else NextMs(qrTimeout)))
    && (forall f :: 0 <= f < |s.flows| ==> FreshOf(s.log, f) == UpTo(s.flows[f].taken))
    && (forall f :: f >= |s.flows| ==> FreshOf(s.log, f) == [])
  }

  lemma FreshAppend(log: seq<Emission>, e: Emission, f: nat)
    ensures FreshOf(log + [e], f) == FreshOf(log, f) + if e.Qr? && e.flow == f && e.first then [e.index] else []
  {
    assert (log + [e])[..|log|] == log;
  }

  lemma GenKeepsInv(qrTimeout: nat, s: State, f: nat)
    requires Inv(qrTimeout, s) && s.pending == map[] && s.shown == Some(f)
    ensures Inv(qrTimeout, Gen(qrTimeout, s, f))
  {
    var t := Gen(qrTimeout, s, f);
    if t != s {
      var last := t.log[|t.log| - 1];
      assert t.log == s.log + [last];
      forall g ensures FreshOf(t.log, g) == FreshOf(s.log, g) + if last.Qr? && last.flow == g then [last.index] else [] {
        FreshAppend(s.log, last, g);
      }
    }
  }

  lemma StepKeepsInv(qrTimeout: nat, s: State, e: Event)
    requires Inv(qrTimeout, s)
    ensures Inv(qrTimeout, Step(qrTimeout, s, e))
  {
    match e {
      case Replied(f) =>
        if f < |s.flows| && !s.flows[f].started {
          assert FlowOk(s.flows[f]);
          var s1 := s.(flows := s.flows[f := s.flows[f].(started := true)], shown := Some(f), pending := Cleared(s));
          assert s1.pending == map[];
          GenKeepsInv(qrTimeout, s1, f);
        }
      case Fires(t) =>
        if t in s.pending {
          var s1 := s.(pending := s.pending - {t});
          assert s1.pending == map[];
          GenKeepsInv(qrTimeout, s1, s.pending[t].flow);
        }
      case Refresh(recognised, secret) => RefreshKeepsInv(qrTimeout, s, recognised, secret);
      case _ =>
    }
  }

  /** A refresh rotates the secret and re-renders; it takes no ref and touches no timer. */
  lemma RefreshKeepsInv(qrTimeout: nat, s: State, recognised: bool, secret: string)
    requires Inv(qrTimeout, s)
    ensures Inv(qrTimeout, Step(qrTimeout, s, Refresh(recognised, secret)))
    ensures var t := Step(qrTimeout, s, Refresh(recognised, secret));
      t.flows == s.flows && t.qrTimer == s.qrTimer && t.pending == s.pending && t.shown == s.shown
  {
    var t := Step(qrTimeout, s, Refresh(recognised, secret));
    if t != s {
      forall g ensures FreshOf(t.log, g) == FreshOf(s.log, g) {
        FreshAppend(s.log, SecretRotated(secret), g);
        var s1 := s.log + [SecretRotated(secret)];
        if t.log != s1 {
          FreshAppend(s1, t.log[|t.log| - 1], g);
          assert t.log == s1 + [t.log[|t.log| - 1]];
        }
      }
    }
  }

  lemma {:induction false} RunKeepsInv(qrTimeout: nat, secret: string, events: seq<Event>)
    ensures Inv(qrTimeout, Run(qrTimeout, secret, events))
  {
    if events != [] {
      RunKeepsInv(qrTimeout, secret, events[..|events| - 1]);
      StepKeepsInv(qrTimeout, Run(qrTimeout, secret, events[..|events| - 1]), events[|events| - 1]);
    }
  }

  // ----- the promises -----

  /** At most one QR timer is ever pending, and it belongs to the flow on screen. */
  lemma OneTimer(qrTimeout: nat, secret: string, events: seq<Event>, t: nat, u: nat)
    requires t in Run(qrTimeout, secret, events).pending && u in Run(qrTimeout, secret, events).pending
    ensures t == u
    ensures Run(qrTimeout, secret, events).shown == Some(Run(qrTimeout, secret, events).pending[t].flow)
  {
    RunKeepsInv(qrTimeout, secret, events);
  }

  /** Each flow's refs are shown from the first on, each taken once and in order. */
  lemma RefsTakenInOrder(qrTimeout: nat, secret: string, events: seq<Event>, f: nat)
    requires f < |Run(qrTimeout, secret, events).flows|
    ensures FreshOf(Run(qrTimeout, secret, events).log, f) == UpTo(Run(qrTimeout, secret, events).flows[f].taken)
  {
    RunKeepsInv(qrTimeout, secret, events);
  }

  /** What may be emitted while the state is `t`: a QR of the latest flow's current ref under the current secret. */
  predicate Proper(t: State, e: Emission) {
    match e
    case Qr(f, index, ref, secret, _) =>
      && t.shown == Some(f) && f < |t.flows| && secret == t.secret
      && t.flows[f].taken == index + 1 && index < |t.flows[f].refs| && ref == t.flows[f].refs[index]
    case SecretRotated(secret) => secret == t.secret
    case RefsEnded(f) => t.shown == Some(f) && f < |t.flows| && t.flows[f].taken == |t.flows[f].refs|
  }

  /** Every emission of every step is proper, and nothing at all is emitted once paired or closed. */
  lemma EmissionsAreProper(qrTimeout: nat, secret: string, events: seq<Event>, e: Event)
    ensures var s, t := Run(qrTimeout, secret, events), Step(qrTimeout, Run(qrTimeout, secret, events), e);
      && s.log <= t.log
      && (s.me || !s.open ==> t.log == s.log)
      && forall i :: |s.log| <= i < |t.log| ==> Proper(t, t.log[i])
  {
    RunKeepsInv(qrTimeout, secret, events);
    StepEmitsProperly(qrTimeout, Run(qrTimeout, secret, events), e);
  }

  lemma StepEmitsProperly(qrTimeout: nat, s: State, e: Event)
    requires Inv(qrTimeout, s)
    ensures var t := Step(qrTimeout, s, e);
      && s.log <= t.log
      && (s.me || !s.open ==> t.log == s.log)
      && forall i :: |s.log| <= i < |t.log| ==> Proper(t, t.log[i])
  {
    match e {
      case Replied(f) => if f < |s.flows| { assert FlowOk(s.flows[f]); }
      case Fires(t) => if t in s.pending { assert FlowOk(s.flows[s.pending[t].flow]); }
      case Refresh(_, _) => if s.shown.Some? { assert FlowOk(s.flows[s.shown.value]); }
      case _ =>
    }
  }

  lemma PairedStepIsSilent(qrTimeout: nat, s: State, e: Event)
    requires s.me
    ensures var t := Step(qrTimeout, s, e); t.me && t.log == s.log && t.secret == s.secret
  {
  }

  /** After creds.me is set the rest of the run shows no QR, rotates no secret and never runs out of refs. */
  lemma {:induction false} SilentOncePaired(qrTimeout: nat, s: State, after: seq<Event>)
    ensures var t := RunFrom(qrTimeout, Step(qrTimeout, s, Paired), after); t.me && t.log == s.log && t.secret == s.secret
  {
    if after != [] {
      var n := |after| - 1;
      SilentOncePaired(qrTimeout, s, after[..n]);
      PairedStepIsSilent(qrTimeout, RunFrom(qrTimeout, Step(qrTimeout, s, Paired), after[..n]), after[n]);
    }
  }

  lemma ClosedStepIsSilent(qrTimeout: nat, s: State, e: Event)
    requires !s.open
    ensures var t := Step(qrTimeout, s, e); !t.open && t.log == s.log && t.secret == s.secret
  {
  }

  /** Nor does it once the socket has closed. */
  lemma {:induction false} SilentOnceClosed(qrTimeout: nat, s: State, after: seq<Event>)
    ensures var t := RunFrom(qrTimeout, Step(qrTimeout, s, Closes), after); !t.open && t.log == s.log && t.secret == s.secret
  {
    if after != [] {
      var n := |after| - 1;
      SilentOnceClosed(qrTimeout, s, after[..n]);
      ClosedStepIsSilent(qrTimeout, RunFrom(qrTimeout, Step(qrTimeout, s, Closes), after[..n]), after[n]);
    }
  }

  // ----- what must be emitted -----

  /** The QR on screen: the last one emitted. */
  function OnScreen(log: seq<Emission>): Option<Emission> {
    if log == [] then None
    else if log[|log| - 1].Qr? then Some(log[|log| - 1])
    else OnScreen(log[..|log| - 1])
  }

  lemma OnScreenAppend(log: seq<Emission>, e: Emission)
    ensures OnScreen(log + [e]) == if e.Qr? then Some(e) else OnScreen(log)
  {
    assert (log + [e])[..|log|] == log;
  }

  /** While open and not paired, the screen shows the current ref of the shown flow under the current secret. */
  predicate ScreenOk(s: State) {
    s.open && !s.me && s.shown.Some? && s.shown.value < |s.flows| && s.flows[s.shown.value].taken > 0 ==>
      var f, k := s.shown.value, s.flows[s.shown.value].taken - 1;
      var qr := OnScreen(s.log);
      && qr.Some? && qr.value.Qr? && qr.value.flow == f && qr.value.index == k
      && qr.value.ref == s.flows[f].refs[k] && qr.value.secret == s.secret
  }

  /** The next ref of flow f: its QR, and a timer of its own; or, with none left, the end. */
  predicate ShowsNext(s: State, t: State, f: nat, ms: int)
    requires f < |s.flows|
  {
    var flow := s.flows[f];
    && t.secret == s.secret && t.shown == Some(f)
    && if flow.taken < |flow.refs| then
         && t.log == s.log + [Qr(f, flow.taken, flow.refs[flow.taken], s.secret, true)]
         && t.flows == s.flows[f := Flow(flow.refs, flow.taken + 1, true)]
         && t.qrTimer == Some(s.nextTimer) && t.pending == map[s.nextTimer := Timer(f, ms)]
         && t.nextTimer == s.nextTimer + 1
       else
         && t.log == s.log + [RefsEnded(f)] && t.pending == map[]
         && t.flows == s.flows[f := Flow(flow.refs, flow.taken, true)]
  }

  /** In every run, while open and not paired, a reply shows its flow's first ref, for a minute unless configured otherwise. */
  lemma ReplyShowsFirst(qrTimeout: nat, secret: string, events: seq<Event>, f: nat)
    requires var s := Run(qrTimeout, secret, events); s.open && !s.me && f < |s.flows| && !s.flows[f].started
    ensures var s := Run(qrTimeout, secret, events);
      ShowsNext(s, Step(qrTimeout, s, Replied(f)), f, if qrTimeout == 0 then 60_000 else qrTimeout)
  {
    var s := Run(qrTimeout, secret, events);
    RunKeepsInv(qrTimeout, secret, events);
    assert FlowOk(s.flows[f]);
    assert Cleared(s) == map[];
  }

  /** A timer that fires shows the next one, for twenty seconds. */
  lemma TimerShowsNext(qrTimeout: nat, secret: string, events: seq<Event>, t: nat)
    requires var s := Run(qrTimeout, secret, events); s.open && !s.me && t in s.pending
    ensures var s := Run(qrTimeout, secret, events);
      var f := s.pending[t].flow;
      && f < |s.flows|
      && ShowsNext(s, Step(qrTimeout, s, Fires(t)), f, if qrTimeout == 0 then 20_000 else qrTimeout)
  {
    var s := Run(qrTimeout, secret, events);
    RunKeepsInv(qrTimeout, secret, events);
    assert s.pending - {t} == map[];
    assert FlowOk(s.flows[s.pending[t].flow]);
  }

  /** A recognised refresh rotates the secret and shows the same ref again, under the new one. */
  lemma RefreshShowsAgain(qrTimeout: nat, secret: string, events: seq<Event>, rotated: string)
    requires var s := Run(qrTimeout, secret, events); s.open && !s.me
    ensures var s := Run(qrTimeout, secret, events);
      var t := Step(qrTimeout, s, Refresh(true, rotated));
      && t.secret == rotated
      && t.log == s.log + [SecretRotated(rotated)] +
           if s.shown.Some? && s.shown.value < |s.flows| && s.flows[s.shown.value].taken > 0 then
             var f, k := s.shown.value, s.flows[s.shown.value].taken - 1;
             [Qr(f, k, s.flows[f].refs[k], rotated, false)]
           else []
  {
  }

  lemma StepKeepsScreen(qrTimeout: nat, s: State, e: Event)
    requires Inv(qrTimeout, s) && ScreenOk(s)
    ensures ScreenOk(Step(qrTimeout, s, e))
  {
    match e {
      case Replied(f) =>
        if f < |s.flows| && !s.flows[f].started {
          assert FlowOk(s.flows[f]);
          GenKeepsScreen(qrTimeout, s.(flows := s.flows[f := s.flows[f].(started := true)], shown := Some(f), pending := Cleared(s)), f);
        }
      case Fires(t) =>
        if t in s.pending { GenKeepsScreen(qrTimeout, s.(pending := s.pending - {t}), s.pending[t].flow); }
      case Refresh(_, secret) =>
        var s1 := s.log + [SecretRotated(secret)];
        OnScreenAppend(s.log, SecretRotated(secret));
        if s.shown.Some? {
          var flow := s.flows[s.shown.value];
          if flow.taken > 0 { OnScreenAppend(s1, Qr(s.shown.value, flow.taken - 1, flow.refs[flow.taken - 1], secret, false)); }
        }
      case _ =>
    }
  }

  lemma GenKeepsScreen(qrTimeout: nat, s: State, f: nat)
    requires f < |s.flows| && s.shown == Some(f) && (s.flows[f].taken > 0 ==> ScreenOk(s))
    ensures ScreenOk(Gen(qrTimeout, s, f))
  {
    var flow := s.flows[f];
    if flow.taken == |flow.refs| {
      OnScreenAppend(s.log, RefsEnded(f));
    } else {
      OnScreenAppend(s.log, Qr(f, flow.taken, flow.refs[flow.taken], s.secret, true));
    }
  }

  /** In every run the QR on screen is never one under a retired secret, of an older flow, or of a ref already replaced. */
  lemma {:induction false} ScreenIsCurrent(qrTimeout: nat, secret: string, events: seq<Event>)
    ensures ScreenOk(Run(qrTimeout, secret, events))
  {
    if events != [] {
      var before := events[..|events| - 1];
      ScreenIsCurrent(qrTimeout, secret, before);
      RunKeepsInv(qrTimeout, secret, before);
      StepKeepsScreen(qrTimeout, Run(qrTimeout, secret, before), events[|events| - 1]);
    }
  }

  // ----- a flow nothing disturbs -----

  /** The refs arrive, the reply is sent, and k timers fire. */
  function Undisturbed(refs: seq<string>, k: nat): seq<Event> {
    if k == 0 then [PairDevice(refs)] + [Replied(0)] else Undisturbed(refs, k - 1) + [Fires(k - 1)]
  }

  function FirstShown(refs: seq<string>, secret: string, k: nat): seq<Emission>
    requires k <= |refs|
  {
    seq(k, i requires 0 <= i < k => Qr(0, i, refs[i], secret, true))
  }

  /** The first k refs of the only flow have been shown, and the timer for the next one is set. */
  predicate HasShown(s: State, refs: seq<string>, secret: string, k: nat)
    requires 0 < k <= |refs|
  {
    && s.open && !s.me && s.secret == secret && s.flows == [Flow(refs, k, true)] && s.shown == Some(0)
    && s.nextTimer == k && s.qrTimer == Some(k - 1) && k - 1 in s.pending && s.pending[k - 1].flow == 0
    && s.log == FirstShown(refs, secret, k)
  }

  lemma RunExtends(qrTimeout: nat, secret: string, events: seq<Event>, e: Event)
    ensures Run(qrTimeout, secret, events + [e]) == Step(qrTimeout, Run(qrTimeout, secret, events), e)
  {
    assert (events + [e])[..|events|] == events;
  }

  lemma ShowsFirst(qrTimeout: nat, secret: string, refs: seq<string>)
    requires refs != []
    ensures HasShown(Run(qrTimeout, secret, Undisturbed(refs, 0)), refs, secret, 1)
  {
    RunExtends(qrTimeout, secret, [], PairDevice(refs));
    assert [] + [PairDevice(refs)] == [PairDevice(refs)];
    RunExtends(qrTimeout, secret, [PairDevice(refs)], Replied(0));
  }

  lemma ShowsOneMore(qrTimeout: nat, s: State, refs: seq<string>, secret: string, k: nat)
    requires 0 < k < |refs| && HasShown(s, refs, secret, k)
    ensures HasShown(Step(qrTimeout, s, Fires(k - 1)), refs, secret, k + 1)
  {
    assert FirstShown(refs, secret, k + 1) == FirstShown(refs, secret, k) + [Qr(0, k, refs[k], secret, true)];
  }

  lemma {:induction false} ShowsUpTo(qrTimeout: nat, secret: string, refs: seq<string>, k: nat)
    requires k < |refs|
    ensures HasShown(Run(qrTimeout, secret, Undisturbed(refs, k)), refs, secret, k + 1)
  {
    if k == 0 {
      ShowsFirst(qrTimeout, secret, refs);
    } else {
      ShowsUpTo(qrTimeout, secret, refs, k - 1);
      RunExtends(qrTimeout, secret, Undisturbed(refs, k - 1), Fires(k - 1));
      ShowsOneMore(qrTimeout, Run(qrTimeout, secret, Undisturbed(refs, k - 1)), refs, secret, k);
    }
  }

  lemma EndsAfterLast(qrTimeout: nat, s: State, refs: seq<string>, secret: string)
    requires refs != [] && HasShown(s, refs, secret, |refs|)
    ensures Step(qrTimeout, s, Fires(|refs| - 1)).log == FirstShown(refs, secret, |refs|) + [RefsEnded(0)]
  {
  }

  /** On a new socket every ref is shown once, in the order given, and then the refs have ended. */
  lemma EveryRefIsShown(qrTimeout: nat, secret: string, refs: seq<string>)
    requires refs != []
    ensures Run(qrTimeout, secret, Undisturbed(refs, |refs|)).log == FirstShown(refs, secret, |refs|) + [RefsEnded(0)]
  {
    var before := Undisturbed(refs, |refs| - 1);
    ShowsUpTo(qrTimeout, secret, refs, |refs| - 1);
    EndsAfterLast(qrTimeout, Run(qrTimeout, secret, before), refs, secret);
    RunExtends(qrTimeout, secret, before, Fires(|refs| - 1));
  }

  // ----- the handlers -----

  /** The socket the handlers close over. Each handler is proved to make the matching step. */
  class PairingSocket {
    const qrTimeout: nat
    var isOpen: bool
    var me: bool
    var advSecretKey: string
    var flows: seq<Flow>
    var refreshPairingQR: Option<nat>
    var qrTimer: Option<nat>
    var pending: map<nat, Timer>
    var nextTimer: nat
    var emitted: seq<Emission>

    ghost function View(): State
      reads this
    {
      State(isOpen, me, advSecretKey, flows, refreshPairingQR, qrTimer, pending, nextTimer, emitted)
    }

    constructor (qrTimeout: nat, secret: string)
      ensures this.qrTimeout == qrTimeout && View() == Opened(secret)
    {
      this.qrTimeout := qrTimeout;
      isOpen, me, advSecretKey := true, false, secret;
      flows, refreshPairingQR, qrTimer, pending, nextTimer, emitted := [], None, None, map[], 0, [];
    }

    method RenderQR(f: nat, first: bool)
      requires f < |flows|
      modifies this`emitted
      ensures View() == Render(old(View()), f, first)
    {
      if !isOpen || flows[f].taken == 0 || me { return; }
      emitted := emitted + [Qr(f, flows[f].taken - 1, flows[f].refs[flows[f].taken - 1], advSecretKey, first)];
    }

    method GenPairQR(f: nat)
      requires f < |flows|
      modifies this
      ensures View() == Gen(qrTimeout, old(View()), f)
    {
      if !isOpen || me { return; }
      var flow := flows[f];
      if flow.taken == |flow.refs| {
        emitted := emitted + [RefsEnded(f)];
        return;
      }
      flows := flows[f := flow.(taken := flow.taken + 1)];
      RenderQR(f, true);
      var qrMs := if flow.taken == 0 then FirstMs(qrTimeout) else NextMs(qrTimeout);
      qrTimer := Some(nextTimer);
      pending := pending[nextTimer := Timer(f, qrMs)];
      nextTimer := nextTimer + 1;
    }

    method Handle(e: Event)
      modifies this
      ensures View() == Step(qrTimeout, old(View()), e)
    {
      match e
      case PairDevice(refs) => flows := flows + [Flow(refs, 0, false)];
      case Replied(f) =>
        if f < |flows| && !flows[f].started {
          flows := flows[f := flows[f].(started := true)];
          refreshPairingQR := Some(f);
          if qrTimer.Some? { pending := pending - {qrTimer.value}; }
          GenPairQR(f);
        }
      case Fires(t) =>
        if t in pending {
          var f := pending[t].flow;
          pending := pending - {t};
          if f < |flows| { GenPairQR(f); }
        }
      case Refresh(recognised, secret) =>
        if me || !isOpen || !recognised { return; }
        advSecretKey := secret;
        emitted := emitted + [SecretRotated(secret)];
        if refreshPairingQR.Some? && refreshPairingQR.value < |flows| { RenderQR(refreshPairingQR.value, false); }
      case Paired => me := true;
      case Closes => isOpen := false;
    }
  }

  /** Whatever the interleaving, the handlers' emissions are those of the run. */
  method Observe(qrTimeout: nat, secret: string, events: seq<Event>) returns (emitted: seq<Emission>)
    ensures emitted == Run(qrTimeout, secret, events).log
  {
    var socket := new PairingSocket(qrTimeout, secret);
    var n := 0;
    while n < |events|
      invariant 0 <= n <= |events|
      invariant socket.qrTimeout == qrTimeout && socket.View() == Run(qrTimeout, secret, events[..n])
    {
      assert events[..n + 1][..n] == events[..n];
      socket.Handle(events[n]);
      n := n + 1;
    }
    assert events[..n] == events;
    emitted := socket.emitted;
  }
}
