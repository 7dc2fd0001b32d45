/**
 * The in-flight request-body budget as a transition system over the requests themselves.
 *
 * Nothing here keeps a counter: what a client, the anonymous tier or the whole server holds is
 * DEFINED as a sum over the live requests. The middleware that keeps running counters instead is
 * the class in InflightBudgetMiddleware, proved to make the same decisions and the same moves.
 */
module InflightBudget {
  import opened Basics

  /** A share is kept per recognised API key, and otherwise per client address. */
  datatype Client = ByKey(id: string) | ByAddress(address: string)

  /**
   * What `createInflightBodyBudget` fixes once: the options and the caps it derives from them.
   * `tiered` says whether the classify option is on, which is what creates the anonymous tier.
   */
  datatype Config = Config(
    budget: int, tiered: bool, bodyLimit: int, requestTimeoutMs: int,
    perClientCap: int, anonPool: int, anonClientCap: int)

  const STALL_TIMEOUT_MS: int := 15_000
  const STALL_POLL_MS: int := 5_000
  const UNDECLARED_OPENING_RESERVATION_BYTES: int := 1024 * 1024
  const MAX_TRACKED_CLIENTS: int := 10_000
  const EPSILON: real := 1.0 / 4503599627370496.0

  /** The share option, clamped to (0, 1]. */
  function Clamped(share: real): real {
    var atLeast := if share < EPSILON then EPSILON else share;
    if atLeast > 1.0 then 1.0 else atLeast
  }

  /** The share of n bytes, in whole bytes. */
  function ShareOf(n: int, share: real): int { (n as real * Clamped(share)).Floor }

  function Create(budget: int, share: real, tiered: bool, bodyLimit: int, requestTimeoutMs: int): (cfg: Config)
    requires budget >= 1 && bodyLimit >= 1
    ensures ValidConfig(cfg)
  {
    var pool := Min(budget, Max(2 * bodyLimit, (budget as real * 0.25).Floor));
    Config(budget, tiered, bodyLimit, requestTimeoutMs,
           Max(1, ShareOf(budget, share)),
           pool,
           Max(Min(bodyLimit, pool), ShareOf(pool, share)))
  }

  ghost predicate ValidConfig(cfg: Config) {
    cfg.budget >= 1 && cfg.bodyLimit >= 1 && cfg.perClientCap >= 1 && cfg.anonPool >= 1 && cfg.anonClientCap >= 1
  }

  function UndeclaredReservation(cfg: Config): int {
    Max(1, Min(UNDECLARED_OPENING_RESERVATION_BYTES, cfg.budget))
  }

  predicate IsAnonymous(cfg: Config, c: Client) { cfg.tiered && c.ByAddress? }

  function ShareCap(cfg: Config, c: Client): int {
    if IsAnonymous(cfg, c) then cfg.anonClientCap else cfg.perClientCap
  }

  /** What a request of this client is charged for `bytes`: an anonymous one never more than the body cap. */
  function Charge(cfg: Config, c: Client, bytes: int): int {
    if IsAnonymous(cfg, c) then Min(bytes, cfg.bodyLimit) else bytes
  }

  datatype DropReason = Stall | Pace | OverShare | OverBudget | OverPool

  /**
   * One admitted request: the variables its callbacks close over. `settled`, `grown` and `polls` are
   * history that no decision reads: whether a completing reconcile has run, the bytes such reconciles
   * added, and how often the poll timer has fired.
   */
  datatype Flight = Flight(
    client: Client, declared: Option<nat>, socket: nat, startBytes: nat, admittedAt: int,
    reserved: int, released: bool, armed: bool, lastBytes: nat, lastProgress: int,
    dropped: Option<DropReason>, settled: bool, grown: int, polls: nat)

  /** The middleware's requests in admission order, and what it observes of the world around it. */
  datatype State = State(
    flights: seq<Flight>,
    bytesRead: map<nat, nat>,     // socket.bytesRead, 0 until something arrives
    lastReceive: map<nat, int>,   // when the socket's latest byte arrived
    complete: set<nat>,           // the requests Node has parsed to the end
    now: int)

  const EMPTY := State([], map[], map[], {}, 0)

  function ReadOn(s: State, socket: nat): nat {
    if socket in s.bytesRead then s.bytesRead[socket] else 0
  }

  // ----- what is held, as sums over the live requests -----

  datatype Scope = Everyone | Anonymous | One(client: Client)
  /** Held: the reservation. Firm: without completing growth. Arriving: of bodies not settled. Grown: completing growth. */
  datatype Measure = Held | Firm | Arriving | Grown

  predicate InScope(cfg: Config, scope: Scope, f: Flight) {
    match scope
    case Everyone => true
    case Anonymous => IsAnonymous(cfg, f.client)
    case One(c) => f.client == c
  }

  function Weight(cfg: Config, scope: Scope, m: Measure, f: Flight): int {
    if f.released || !InScope(cfg, scope, f) then 0 else
    match m
    case Held => f.reserved
    case Firm => f.reserved - f.grown
    case Arriving => if f.settled then 0 else f.reserved
    case Grown => f.grown
  }

  function Sum(cfg: Config, scope: Scope, m: Measure, flights: seq<Flight>): int {
    if flights == [] then 0
    else Sum(cfg, scope, m, flights[..|flights| - 1]) + Weight(cfg, scope, m, flights[|flights| - 1])
  }

  function LiveClients(flights: seq<Flight>): set<Client> {
    set i | 0 <= i < |flights| && !flights[i].released :: flights[i].client
  }

  // ----- admission -----

  /** The parts of a request head that admission looks at. */
  datatype Head = Head(
    client: Client, declared: Option<nat>, chunked: bool, lengthIsNumber: bool, encoded: bool,
    socket: nat)

  datatype Verdict = PassedThrough | Admitted(charge: int) | Refused(status: int)

  function Wanted(cfg: Config, h: Head): int {
    match h.declared
    case Some(n) => n
    case None => if h.chunked then UndeclaredReservation(cfg) else 0
  }

  /** Refused even with nothing else in flight. */
  predicate TooLarge(cfg: Config, h: Head) {
    var charge := Charge(cfg, h.client, Wanted(cfg, h));
    h.declared.Some? &&
    (h.declared.value > cfg.budget || charge > ShareCap(cfg, h.client) ||
     (IsAnonymous(cfg, h.client) && charge > cfg.anonPool))
  }

  predicate Busy(cfg: Config, flights: seq<Flight>, h: Head) {
    var charge := Charge(cfg, h.client, Wanted(cfg, h));
    || Sum(cfg, Everyone, Held, flights) + Wanted(cfg, h) > cfg.budget
    || Sum(cfg, One(h.client), Held, flights) + charge > ShareCap(cfg, h.client)
    || (IsAnonymous(cfg, h.client) && Sum(cfg, Anonymous, Held, flights) + charge > cfg.anonPool)
    || (h.client.ByAddress? && |LiveClients(flights)| >= MAX_TRACKED_CLIENTS && h.client !in LiveClients(flights))
  }

  function Decide(cfg: Config, flights: seq<Flight>, h: Head): Verdict {
    if (h.chunked || h.lengthIsNumber) && h.encoded then Refused(415)
    else if Wanted(cfg, h) == 0 then PassedThrough
    else if TooLarge(cfg, h) then Refused(413)
    else if Busy(cfg, flights, h) then Refused(503)
    else Admitted(Charge(cfg, h.client, Wanted(cfg, h)))
  }

  function Opened(s: State, h: Head, charge: int): Flight {
    var read := ReadOn(s, h.socket);
    Flight(h.client, h.declared, h.socket, read, s.now, charge, false, true, read, s.now, None, false, 0, 0)
  }

  // ----- the callbacks of one admitted request -----

  function Released(f: Flight): Flight { f.(released := true, armed := false) }

  function Dropped(f: Flight, why: DropReason): Flight { Released(f).(dropped := Some(why)) }

  /** The size a chunked body is re-priced at. */
  function ActualSize(cfg: Config, s: State, f: Flight): int {
    Charge(cfg, f.client, Max(UndeclaredReservation(cfg), ReadOn(s, f.socket) - f.startBytes))
  }

  function Repriced(cfg: Config, s: State, f: Flight, complete: bool): Flight {
    var actual := ActualSize(cfg, s, f);
    f.(reserved := actual, grown := f.grown + if complete then actual - f.reserved else 0)
  }

  /** Why a body whose re-pricing led to these requests is cut off, if it is. */
  function Overrun(cfg: Config, flights: seq<Flight>, f: Flight): Option<DropReason> {
    if Sum(cfg, One(f.client), Held, flights) > ShareCap(cfg, f.client) then Some(OverShare)
    else if Sum(cfg, Everyone, Held, flights) > cfg.budget then Some(OverBudget)
    else if IsAnonymous(cfg, f.client) && Sum(cfg, Anonymous, Held, flights) > cfg.anonPool then Some(OverPool)
    else None
  }

  function Reconcile(cfg: Config, s: State, i: nat, complete: bool): (s': State)
    requires i < |s.flights|
    ensures |s'.flights| == |s.flights| && s' == s.(flights := s'.flights)
  {
    var f := s.flights[i];
    if f.released || f.declared.Some? || ActualSize(cfg, s, f) == f.reserved then s else
      var g := Repriced(cfg, s, f, complete);
      var flights := s.flights[i := g];
      if !complete && g.reserved > f.reserved && Overrun(cfg, flights, g).Some?
      then s.(flights := s.flights[i := Dropped(g, Overrun(cfg, flights, g).value)])
      else s.(flights := flights)
  }

  function Settle(cfg: Config, s: State, i: nat): State
    requires i < |s.flights|
  {
    var s1 := Reconcile(cfg, s, i, true);
    if s1.flights[i].released then s1
    else s1.(flights := s1.flights[i := s1.flights[i].(armed := false, settled := true)])
  }

  /** Behind the pace that lands `target` within the request timeout, after the stall grace. */
  predicate BehindPace(cfg: Config, s: State, f: Flight) {
    var target := if f.declared.Some? then f.declared.value else f.reserved;
    var received := ReadOn(s, f.socket) - f.startBytes;
    && cfg.requestTimeoutMs > 0
    && received < target
    && received * cfg.requestTimeoutMs < target * (s.now - f.admittedAt - STALL_TIMEOUT_MS)
  }

  /** What the poll does with a body that is neither complete nor already dropped by its re-pricing. */
  function Watched(cfg: Config, s: State, f: Flight): Flight {
    var readNow := ReadOn(s, f.socket);
    if BehindPace(cfg, s, f) then Dropped(f, Pace)
    else if readNow != f.lastBytes then
      f.(lastBytes := readNow, lastProgress := s.now,
         armed := f.armed && !(f.declared.Some? && readNow - f.startBytes >= f.declared.value))
    else if s.now - f.lastProgress >= STALL_TIMEOUT_MS then Dropped(f, Stall)
    else f
  }

  /** The re-pricing and the watch of a body that is not complete. */
  function Inspect(cfg: Config, s: State, i: nat): State
    requires i < |s.flights|
  {
    var s1 := Reconcile(cfg, s, i, false);
    if s1.flights[i].released then s1
    else s1.(flights := s1.flights[i := Watched(cfg, s1, s1.flights[i])])
  }

  function CountPoll(s: State, i: nat): State
    requires i < |s.flights|
  {
    s.(flights := s.flights[i := s.flights[i].(polls := s.flights[i].polls + 1)])
  }

  function Poll(cfg: Config, s: State, i: nat): State
    requires i < |s.flights|
  {
    if i in s.complete then Settle(cfg, CountPoll(s, i), i) else Inspect(cfg, CountPoll(s, i), i)
  }

  // ----- runs -----

  datatype TerminalEvent = ResponseFinish | ResponseClose | ResponseError | RequestClose | RequestError

  datatype Event =
    | Arrives(head: Head)
    | Receives(socket: nat, count: nat)
    | Completes(request: nat)
    | Polls(request: nat)
    | Ends(request: nat)
    | Terminates(request: nat, which: TerminalEvent)
    | Passes(ms: nat)

  function Step(cfg: Config, s: State, e: Event): State {
    match e
    case Arrives(h) =>
      var v := Decide(cfg, s.flights, h);
      if v.Admitted? then s.(flights := s.flights + [Opened(s, h, v.charge)]) else s
    case Receives(socket, count) =>
      if count == 0 then s
      else s.(bytesRead := s.bytesRead[socket := ReadOn(s, socket) + count],
              lastReceive := s.lastReceive[socket := s.now])
    case Completes(i) => s.(complete := s.complete + {i})
    case Polls(i) => if i < |s.flights| && s.flights[i].armed then Poll(cfg, s, i) else s
    case Ends(i) => if i < |s.flights| then Settle(cfg, s, i) else s
    case Terminates(i, _) =>
      if i < |s.flights| && !s.flights[i].released
      then s.(flights := s.flights[i := Released(s.flights[i])]) else s
    case Passes(ms) => s.(now := s.now + ms)
  }

  function Run(cfg: Config, events: seq<Event>): State {
    if events == [] then EMPTY
    else Step(cfg, Run(cfg, events[..|events| - 1]), events[|events| - 1])
  }
}
