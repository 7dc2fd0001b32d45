/**
 * The middleware of the in-flight body budget: running counters updated in place by its callbacks.
 *
 * `View()` forgets the counters. Every method is proved to move the view exactly as the transition
 * system of InflightBudget does, so the counters are a fast form of sums nobody computes.
 */
module InflightBudgetMiddleware {
  import opened Basics
  import opened InflightBudget
  import Safety = InflightBudgetSafety

  ghost predicate ClientsMatch(cfg: Config, flights: seq<Flight>, clients: map<Client, int>) {
    && clients.Keys == LiveClients(flights)
    && forall c :: c in clients ==> clients[c] == Sum(cfg, One(c), Held, flights)
  }

  /** Each counter is the sum it stands for, and the map tracks exactly the clients with a live request. */
  ghost predicate CountersMatch(cfg: Config, flights: seq<Flight>, inFlight: int, anon: int, clients: map<Client, int>) {
    && inFlight == Sum(cfg, Everyone, Held, flights)
    && anon == Sum(cfg, Anonymous, Held, flights)
    && ClientsMatch(cfg, flights, clients)
  }

  predicate Positive(flights: seq<Flight>) {
    forall i :: 0 <= i < |flights| ==> flights[i].reserved >= 1
  }

  // ----- sums of one client -----

  lemma {:induction false} ClientSum(cfg: Config, flights: seq<Flight>, c: Client)
    requires Positive(flights)
    ensures c in LiveClients(flights) ==> Sum(cfg, One(c), Held, flights) >= 1
    ensures c !in LiveClients(flights) ==> Sum(cfg, One(c), Held, flights) == 0
  {
    if flights != [] {
      var n := |flights| - 1;
      ClientSum(cfg, flights[..n], c);
      if c in LiveClients(flights) {
        var j :| 0 <= j < |flights| && !flights[j].released && flights[j].client == c;
        if j < n { assert flights[..n][j].client == c; }
      } else {
        assert flights[n].released || flights[n].client != c;
        assert c !in LiveClients(flights[..n]);
      }
    }
  }

  /** The live clients after request `i` is replaced: only its own client can come or go. */
  lemma LiveClientsUpdate(flights: seq<Flight>, i: nat, f: Flight, c: Client)
    requires i < |flights| && f.client == flights[i].client && c != f.client
    ensures c in LiveClients(flights[i := f]) <==> c in LiveClients(flights)
  {
    var t := flights[i := f];
    if c in LiveClients(t) {
      var j :| 0 <= j < |t| && !t[j].released && t[j].client == c;
      assert flights[j] == t[j];
    }
    if c in LiveClients(flights) {
      var j :| 0 <= j < |flights| && !flights[j].released && flights[j].client == c;
      assert flights[j] == t[j];
    }
  }

  lemma LiveClientsAppend(flights: seq<Flight>, f: Flight)
    requires !f.released
    ensures LiveClients(flights + [f]) == LiveClients(flights) + {f.client}
  {
    var t := flights + [f];
    forall c | c in LiveClients(t) ensures c in LiveClients(flights) + {f.client} {
      var j :| 0 <= j < |t| && !t[j].released && t[j].client == c;
      if j < |flights| { assert flights[j] == t[j]; }
    }
    forall c | c in LiveClients(flights) + {f.client} ensures c in LiveClients(t) {
      if c == f.client {
        assert t[|flights|] == f;
      } else {
        var j :| 0 <= j < |flights| && !flights[j].released && flights[j].client == c;
        assert t[j] == flights[j];
      }
    }
  }

  /** The client map after request `i` becomes `f`, written as the source writes it. */
  lemma ClientsUpdate(cfg: Config, flights: seq<Flight>, i: nat, f: Flight, clients: map<Client, int>)
    requires i < |flights| && f.client == flights[i].client && !flights[i].released
    requires Positive(flights) && f.reserved >= 1 && ClientsMatch(cfg, flights, clients)
    ensures f.client in clients
    ensures var busy := clients[f.client] - flights[i].reserved + (if f.released then 0 else f.reserved);
            ClientsMatch(cfg, flights[i := f], if busy > 0 then clients[f.client := busy] else clients - {f.client})
  {
    var c := f.client;
    var t := flights[i := f];
    assert flights[i].client in LiveClients(flights);
    var busy := clients[c] - flights[i].reserved + (if f.released then 0 else f.reserved);
    var after := if busy > 0 then clients[c := busy] else clients - {c};
    Safety.SumUpdate(cfg, One(c), Held, flights, i, f);
    ClientSum(cfg, t, c);
    forall d ensures d in after.Keys <==> d in LiveClients(t) {
      if d != c { LiveClientsUpdate(flights, i, f, d); }
    }
    forall d | d in after ensures after[d] == Sum(cfg, One(d), Held, t) {
      Safety.SumUpdate(cfg, One(d), Held, flights, i, f);
    }
  }

  lemma ClientsAppend(cfg: Config, flights: seq<Flight>, f: Flight, clients: map<Client, int>)
    requires !f.released && Positive(flights) && ClientsMatch(cfg, flights, clients)
    ensures var busy := if f.client in clients then clients[f.client] else 0;
            ClientsMatch(cfg, flights + [f], clients[f.client := busy + f.reserved])
  {
    var t := flights + [f];
    var busy := if f.client in clients then clients[f.client] else 0;
    var after := clients[f.client := busy + f.reserved];
    LiveClientsAppend(flights, f);
    ClientSum(cfg, flights, f.client);
    forall d | d in after ensures after[d] == Sum(cfg, One(d), Held, t) {
      Safety.SumAppend(cfg, One(d), Held, flights, f);
    }
  }

  lemma CountersAppend(cfg: Config, flights: seq<Flight>, f: Flight, inFlight: int, anon: int, clients: map<Client, int>)
    requires !f.released && Positive(flights) && CountersMatch(cfg, flights, inFlight, anon, clients)
    ensures CountersMatch(cfg, flights + [f], inFlight + f.reserved,
              if IsAnonymous(cfg, f.client) then anon + f.reserved else anon,
              clients[f.client := (if f.client in clients then clients[f.client] else 0) + f.reserved])
  {
    Safety.SumAppend(cfg, Everyone, Held, flights, f);
    Safety.SumAppend(cfg, Anonymous, Held, flights, f);
    ClientsAppend(cfg, flights, f, clients);
  }

  /** The counters after a live request is resized or, with `f` released, ended. */
  lemma CountersUpdate(cfg: Config, flights: seq<Flight>, i: nat, f: Flight, inFlight: int, anon: int, clients: map<Client, int>)
    requires i < |flights| && f.client == flights[i].client && !flights[i].released
    requires Positive(flights) && f.reserved >= 1 && CountersMatch(cfg, flights, inFlight, anon, clients)
    ensures f.client in clients
    ensures var delta := (if f.released then 0 else f.reserved) - flights[i].reserved;
            var busy := clients[f.client] + delta;
            && (busy <= 0 ==> f.released)
            && CountersMatch(cfg, flights[i := f], inFlight + delta,
                 if IsAnonymous(cfg, f.client) then anon + delta else anon,
                 if busy > 0 then clients[f.client := busy] else clients - {f.client})
  {
    Safety.SumUpdate(cfg, Everyone, Held, flights, i, f);
    Safety.SumUpdate(cfg, Anonymous, Held, flights, i, f);
    ClientsUpdate(cfg, flights, i, f, clients);
    Safety.SumUpdate(cfg, One(f.client), Held, flights, i, f);
    ClientSum(cfg, flights[i := f], f.client);
    if !f.released { assert flights[i := f][i].client in LiveClients(flights[i := f]); }
  }

  class Budget {
    const cfg: Config
    var inFlightBytes: int
    var anonInFlight: int
    var clientInFlight: map<Client, int>
    // What the callbacks of each admitted request close over, in admission order.
    var requests: seq<Flight>
    // What is observed of sockets, of the parser and of the clock.
    var bytesRead: map<nat, nat>
    var lastReceive: map<nat, int>
    var complete: set<nat>
    var now: int

    ghost function View(): State
      reads this
    {
      State(requests, bytesRead, lastReceive, complete, now)
    }

    ghost predicate Valid()
      reads this
    {
      && ValidConfig(cfg)
      && Positive(requests)
      && Safety.Disarmed(requests)
      && CountersMatch(cfg, requests, inFlightBytes, anonInFlight, clientInFlight)
    }

    constructor (cfg: Config)
      requires ValidConfig(cfg)
      ensures Valid() && this.cfg == cfg && View() == EMPTY
    {
      this.cfg := cfg;
      inFlightBytes, anonInFlight, clientInFlight := 0, 0, map[];
      requests, bytesRead, lastReceive, complete, now := [], map[], map[], {}, 0;
    }

    /** The refusals, in the order the middleware tries them. */
    method Consider(h: Head) returns (v: Verdict)
      requires Valid()
      ensures v == Decide(cfg, requests, h)
    {
      var reserved := match h.declared
        case Some(n) => n
        case None => if h.chunked then UndeclaredReservation(cfg) else 0;
      if (h.chunked || h.lengthIsNumber) && h.encoded {
        return Refused(415);
      }
      if reserved == 0 {
        return PassedThrough;
      }
      var anonymous := IsAnonymous(cfg, h.client);
      var shareCap := ShareCap(cfg, h.client);
      var clientBusy := if h.client in clientInFlight then clientInFlight[h.client] else 0;
      ClientSum(cfg, requests, h.client);
      var mapAtCapacity :=
        h.client.ByAddress? && |clientInFlight| >= MAX_TRACKED_CLIENTS && h.client !in clientInFlight;
      assert |clientInFlight| == |clientInFlight.Keys|;
      var charge := Charge(cfg, h.client, reserved);
      if h.declared.Some? && (h.declared.value > cfg.budget || charge > shareCap || (anonymous && charge > cfg.anonPool)) {
        return Refused(413);
      }
      if inFlightBytes + reserved > cfg.budget || clientBusy + charge > shareCap ||
         (anonymous && anonInFlight + charge > cfg.anonPool) || mapAtCapacity {
        return Refused(503);
      }
      v := Admitted(charge);
    }

    method Middleware(h: Head) returns (v: Verdict)
      requires Valid()
      modifies this`inFlightBytes, this`anonInFlight, this`clientInFlight, this`requests
      ensures Valid()
      ensures v == Decide(cfg, old(requests), h)
      ensures View() == Step(cfg, old(View()), Arrives(h))
    {
      v := Consider(h);
      if v.Admitted? {
        var read := if h.socket in bytesRead then bytesRead[h.socket] else 0;
        Take(Flight(h.client, h.declared, h.socket, read, now, v.charge, false, true, read, now, None, false, 0, 0));
      }
    }

    method Take(f: Flight)
      requires Valid() && f.reserved >= 1 && !f.released
      modifies this`inFlightBytes, this`anonInFlight, this`clientInFlight, this`requests
      ensures Valid() && requests == old(requests) + [f]
    {
      CountersAppend(cfg, requests, f, inFlightBytes, anonInFlight, clientInFlight);
      inFlightBytes := inFlightBytes + f.reserved;
      if IsAnonymous(cfg, f.client) { anonInFlight := anonInFlight + f.reserved; }
      var clientBusy := if f.client in clientInFlight then clientInFlight[f.client] else 0;
      clientInFlight := clientInFlight[f.client := clientBusy + f.reserved];
      requests := requests + [f];
    }

    /** The first terminal event wins; the others find the request released. */
    method Release(i: nat)
      requires Valid() && i < |requests|
      modifies this`inFlightBytes, this`anonInFlight, this`clientInFlight, this`requests
      ensures Valid()
      ensures requests == if old(requests)[i].released then old(requests)
                          else old(requests)[i := Released(old(requests)[i])]
    {
      var f := requests[i];
      if f.released { return; }
      var g := f.(released := true, armed := false);
      CountersUpdate(cfg, requests, i, g, inFlightBytes, anonInFlight, clientInFlight);
      inFlightBytes := inFlightBytes - f.reserved;
      if IsAnonymous(cfg, f.client) { anonInFlight := anonInFlight - f.reserved; }
      var busy := (if f.client in clientInFlight then clientInFlight[f.client] else f.reserved) - f.reserved;
      if busy > 0 {
        clientInFlight := clientInFlight[f.client := busy];
      } else {
        clientInFlight := clientInFlight - {f.client};
      }
      requests := requests[i := g];
    }

    /** Release the reservation, then cut the connection. */
    method Drop(i: nat, why: DropReason)
      requires Valid() && i < |requests| && !requests[i].released
      modifies this`inFlightBytes, this`anonInFlight, this`clientInFlight, this`requests
      ensures Valid()
      ensures requests == old(requests)[i := Dropped(old(requests)[i], why)]
    {
      Release(i);
      var g := requests[i].(dropped := Some(why));
      MarkOnly(cfg, requests, i, g, inFlightBytes, anonInFlight, clientInFlight);
      requests := requests[i := g];
    }

    /** Move a live reservation to the size in `g`, and every counter with it. */
    method Resize(i: nat, g: Flight)
      requires Valid() && i < |requests| && !requests[i].released
      requires g.client == requests[i].client && !g.released && g.reserved >= 1
      modifies this`inFlightBytes, this`anonInFlight, this`clientInFlight, this`requests
      ensures Valid() && requests == old(requests)[i := g]
      ensures g.client in clientInFlight
    {
      var delta := g.reserved - requests[i].reserved;
      CountersUpdate(cfg, requests, i, g, inFlightBytes, anonInFlight, clientInFlight);
      inFlightBytes := inFlightBytes + delta;
      if IsAnonymous(cfg, g.client) { anonInFlight := anonInFlight + delta; }
      clientInFlight := clientInFlight[g.client := (if g.client in clientInFlight then clientInFlight[g.client] else 0) + delta];
      requests := requests[i := g];
    }

    /** Which limit, if any, the counters put the client of request `i` over. */
    method Exceeded(i: nat) returns (why: Option<DropReason>)
      requires Valid() && i < |requests| && !requests[i].released
      ensures why == Overrun(cfg, requests, requests[i])
    {
      var c := requests[i].client;
      assert c in LiveClients(requests);
      var busy := clientInFlight[c];
      var overTier := IsAnonymous(cfg, c) && anonInFlight > cfg.anonPool;
      if busy > ShareCap(cfg, c) || inFlightBytes > cfg.budget || overTier {
        why := Some(if busy > ShareCap(cfg, c) then OverShare else if inFlightBytes > cfg.budget then OverBudget else OverPool);
      } else {
        why := None;
      }
    }

    /** Resize a body, and drop it if that must not go over a limit and does. */
    method GrowTo(i: nat, g: Flight, mayDrop: bool)
      requires Valid() && i < |requests| && !requests[i].released
      requires g.client == requests[i].client && !g.released && g.reserved >= 1
      modifies this`inFlightBytes, this`anonInFlight, this`clientInFlight, this`requests
      ensures Valid()
      ensures var why := Overrun(cfg, old(requests)[i := g], g);
              requests == old(requests)[i := if mayDrop && why.Some? then Dropped(g, why.value) else g]
    {
      Resize(i, g);
      if mayDrop {
        var why := Exceeded(i);
        if why.Some? { Drop(i, why.value); }
      }
    }

    method Reprice(i: nat, atEnd: bool)
      requires Valid() && i < |requests|
      modifies this`inFlightBytes, this`anonInFlight, this`clientInFlight, this`requests
      ensures Valid()
      ensures View() == Reconcile(cfg, old(View()), i, atEnd)
    {
      var f := requests[i];
      if f.released || f.declared.Some? { return; }
      var readNow := if f.socket in bytesRead then bytesRead[f.socket] else 0;
      var actual := Charge(cfg, f.client, Max(UndeclaredReservation(cfg), readNow - f.startBytes));
      var delta := actual - f.reserved;
      if delta == 0 { return; }
      GrowTo(i, f.(reserved := actual, grown := f.grown + if atEnd then delta else 0), !atEnd && delta > 0);
    }

    method SettleBody(i: nat)
      requires Valid() && i < |requests|
      modifies this`inFlightBytes, this`anonInFlight, this`clientInFlight, this`requests
      ensures Valid()
      ensures View() == Settle(cfg, old(View()), i)
    {
      Reprice(i, true);
      if !requests[i].released {
        Mark(i, requests[i].(armed := false, settled := true));
      }
    }

    /** The poll timer of request `i` fires. */
    method PollTimer(i: nat)
      requires Valid() && i < |requests| && requests[i].armed
      modifies this`inFlightBytes, this`anonInFlight, this`clientInFlight, this`requests
      ensures Valid()
      ensures View() == Poll(cfg, old(View()), i)
    {
      Mark(i, requests[i].(polls := requests[i].polls + 1));
      if i in complete {
        SettleBody(i);
        return;
      }
      Reprice(i, false);
      if requests[i].released { return; }
      Watch(i);
    }

    method Watch(i: nat)
      requires Valid() && i < |requests| && !requests[i].released
      modifies this`inFlightBytes, this`anonInFlight, this`clientInFlight, this`requests
      ensures Valid()
      ensures requests == old(requests)[i := Watched(cfg, old(View()), old(requests)[i])]
    {
      var f := requests[i];
      var readNow := if f.socket in bytesRead then bytesRead[f.socket] else 0;
      if cfg.requestTimeoutMs > 0 {
        var target := if f.declared.Some? then f.declared.value else f.reserved;
        var scaled := target * (now - f.admittedAt - STALL_TIMEOUT_MS);
        if readNow - f.startBytes < target && (readNow - f.startBytes) * cfg.requestTimeoutMs < scaled {
          Drop(i, Pace);
          return;
        }
      }
      if readNow != f.lastBytes {
        var arrived := f.declared.Some? && readNow - f.startBytes >= f.declared.value;
        Mark(i, f.(lastBytes := readNow, lastProgress := now, armed := f.armed && !arrived));
        return;
      }
      if now - f.lastProgress >= STALL_TIMEOUT_MS {
        Drop(i, Stall);
      }
    }

    /** A write to the request's own variables that the counters do not see. */
    method Mark(i: nat, g: Flight)
      requires Valid() && i < |requests|
      requires g.client == requests[i].client && g.reserved == requests[i].reserved && g.released == requests[i].released
      requires g.released ==> !g.armed
      modifies this`requests
      ensures Valid() && requests == old(requests)[i := g]
    {
      MarkOnly(cfg, requests, i, g, inFlightBytes, anonInFlight, clientInFlight);
      requests := requests[i := g];
    }

    /** Any callback, in any order. */
    method Handle(e: Event)
      requires Valid()
      modifies this
      ensures Valid()
      ensures View() == Step(cfg, old(View()), e)
    {
      match e
      case Arrives(h) => var _ := Middleware(h);
      case Receives(socket, count) =>
        if count > 0 {
          bytesRead := bytesRead[socket := (if socket in bytesRead then bytesRead[socket] else 0) + count];
          lastReceive := lastReceive[socket := now];
        }
      case Completes(i) => complete := complete + {i};
      case Polls(i) => if i < |requests| && requests[i].armed { PollTimer(i); }
      case Ends(i) => if i < |requests| { SettleBody(i); }
      case Terminates(i, _) => if i < |requests| { Release(i); }
      case Passes(ms) => now := now + ms;
    }
  }

  lemma MarkOnly(cfg: Config, flights: seq<Flight>, i: nat, g: Flight, inFlight: int, anon: int, clients: map<Client, int>)
    requires i < |flights| && Positive(flights) && CountersMatch(cfg, flights, inFlight, anon, clients)
    requires g.client == flights[i].client && g.reserved == flights[i].reserved && g.released == flights[i].released
    ensures CountersMatch(cfg, flights[i := g], inFlight, anon, clients)
  {
    var t := flights[i := g];
    Safety.SumUpdate(cfg, Everyone, Held, flights, i, g);
    Safety.SumUpdate(cfg, Anonymous, Held, flights, i, g);
    forall c ensures c in LiveClients(t) <==> c in LiveClients(flights) {
      if c != g.client {
        LiveClientsUpdate(flights, i, g, c);
      } else {
        ClientSum(cfg, flights, c);
        ClientSum(cfg, t, c);
        Safety.SumUpdate(cfg, One(c), Held, flights, i, g);
      }
    }
    forall c | c in clients ensures clients[c] == Sum(cfg, One(c), Held, t) {
      Safety.SumUpdate(cfg, One(c), Held, flights, i, g);
    }
  }

  /** After any run of callbacks the counters are the sums over the run's live requests. */
  method Serve(cfg: Config, events: seq<Event>) returns (inFlight: int, anon: int, clients: map<Client, int>)
    requires ValidConfig(cfg)
    ensures CountersMatch(cfg, Run(cfg, events).flights, inFlight, anon, clients)
  {
    var b := new Budget(cfg);
    var n := 0;
    while n < |events|
      invariant 0 <= n <= |events|
      invariant b.Valid() && b.cfg == cfg && b.View() == Run(cfg, events[..n])
    {
      assert events[..n + 1][..n] == events[..n];
      b.Handle(events[n]);
      n := n + 1;
    }
    assert events[..n] == events;
    inFlight, anon, clients := b.inFlightBytes, b.anonInFlight, b.clientInFlight;
  }

  /** Once every request has ended each counter is back to 0 and the map is empty. */
  lemma AllEndedMeansIdle(cfg: Config, flights: seq<Flight>, inFlight: int, anon: int, clients: map<Client, int>)
    requires CountersMatch(cfg, flights, inFlight, anon, clients)
    requires Safety.Idle(flights)
    ensures inFlight == 0 && anon == 0 && clients == map[]
  {
    EndedSum(cfg, Everyone, flights);
    EndedSum(cfg, Anonymous, flights);
    assert LiveClients(flights) == {};
  }

  lemma {:induction false} EndedSum(cfg: Config, scope: Scope, flights: seq<Flight>)
    requires Safety.Idle(flights)
    ensures Sum(cfg, scope, Held, flights) == 0
  {
    if flights != [] { EndedSum(cfg, scope, flights[..|flights| - 1]); }
  }
}
