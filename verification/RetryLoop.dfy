/**
 * The Go client's retry loop against an arbitrary server, and when it may send a message twice.
 *
 * What the outside does is a function of the attempt: what the round trip answers, how long the
 * request deadline still is when the loop looks, whether the body can be rewound, and whether the
 * sleep runs out or the context ends it.
 */
module RetryLoop {
  import opened Basics
  import opened RetryPolicy
  import Path = PathEncoding

  // ----- the request that doRaw builds -----

  datatype Request = Request(verb: string, keyed: bool, hasDeadline: bool)

  function UpperChar(c: char): char { if 'a' <= c <= 'z' then (c as int - 32) as char else c }

  function ToUpper(s: string): string { seq(|s|, i requires 0 <= i < |s| => UpperChar(s[i])) }

  /** The letters a to z become A to Z, and no other character changes. */
  lemma UpperOf(verb: string, i: nat)
    requires i < |verb|
    ensures forall n: nat :: n < 26 && verb[i] == Path.LOWER[n] ==> ToUpper(verb)[i] == Path.UPPER[n]
    ensures verb[i] !in Path.LOWER ==> ToUpper(verb)[i] == verb[i]
  {
    Path.IsLower(verb[i]);
  }

  predicate ValidKey(key: string) {
    1 <= |key| <= 255 && forall i :: 0 <= i < |key| ==> 0x21 <= key[i] as int <= 0x7e
  }

  /** The request sent for a call, or None when the path or the idempotency key is refused first. */
  function Build(verb: string, path: string, rawPath: bool, key: Option<string>, hasDeadline: bool): Option<Request> {
    var upper := ToUpper(verb);
    if !Path.PathOk(path, rawPath) || (key.Some? && !ValidKey(key.value)) then None
    else Some(Request(upper, key.Some? && upper == "POST" && Path.IsIdempotentSendPath(path), hasDeadline))
  }

  /** The routes that take a key: /api/sessions/{id}/messages/ and one of these. */
  const KEYED_SEGMENTS := [
    "send-text", "send-image", "send-video", "send-audio", "send-document", "send-sticker",
    "send-location", "send-contact", "send-template", "send-poll", "reply", "forward"]

  /** 1 to 255 visible ASCII characters. */
  predicate IsVisible(key: string) { key != "" && |key| < 256 && forall i :: 0 <= i < |key| ==> '!' <= key[i] <= '~' }

  /** A request is built exactly for an acceptable path and key, and carries the key exactly on a POST to such a route. */
  lemma KeySentIff(verb: string, path: string, rawPath: bool, key: Option<string>, hasDeadline: bool)
    ensures var built := Build(verb, path, rawPath, key, hasDeadline);
      && (built.Some? <==> Path.PathOk(path, rawPath) && (key.Some? ==> IsVisible(key.value)))
      && (built.Some? ==>
            && built.value.verb == ToUpper(verb) && built.value.hasDeadline == hasDeadline
            && (built.value.keyed <==>
                  && key.Some? && ToUpper(verb) == "POST"
                  && var parts := Path.Split(Path.Slash, Path.CutQuery(path));
                     && |parts| == 6 && parts[1] == "api" && parts[2] == "sessions" && parts[4] == "messages"
                     && parts[5] in KEYED_SEGMENTS))
  {
  }

  // ----- one attempt -----

  /** `stopped`: the context was cancelled or its deadline passed. `pacing`: the body carries SEND_PACING_LIMITED. */
  datatype Answer =
    | NetError(stopped: bool)
    | Reply(status: int, retryAfter: string, date: Option<int>, body: seq<int>, readable: bool, pacing: bool)

  predicate IsIdempotent(verb: string) { verb in ["GET", "HEAD", "OPTIONS", "PUT", "DELETE"] }

  predicate RetryableForMethod(req: Request, a: Answer)
    requires a.Reply?
  {
    IsIdempotent(req.verb) ||
    (a.status in [429, 503] && (a.status != 503 || req.keyed || a.retryAfter != ""))
  }

  datatype Verdict = Sleep(delay: int) | HandBack | ReadFailure

  function Wait(req: Request, delay: int, left: int): Verdict {
    if req.hasDeadline && left < delay then HandBack else Sleep(delay)
  }

  /** The backoff, or a longer Retry-After when the policy honours it. */
  function Pause(p: Policy, attempt: nat, a: Answer): int {
    var delay := Delay(p, attempt);
    if a.Reply? && p.respectRetryAfter then
      var after := RetryAfter(a.retryAfter, a.date);
      if after.Some? && after.value > delay then after.value else delay
    else delay
  }

  datatype Turn = Retry | GiveBack | Unreadable

  /** Whether the answer to an attempt calls for another. */
  function Consider(p: Policy, req: Request, a: Answer, attempt: nat): Turn {
    match a
    case NetError(stopped) =>
      if stopped || !IsIdempotent(req.verb) || attempt >= p.maxRetries then GiveBack else Retry
    case Reply(status, _, _, _, readable, pacing) =>
      if !RetryableStatus(p, status) || !RetryableForMethod(req, a) || attempt >= p.maxRetries then GiveBack
      else if status == 429 && !readable then Unreadable
      else if status == 429 && pacing then GiveBack
      else Retry
  }

  function Judge(p: Policy, req: Request, a: Answer, attempt: nat, left: int): Verdict {
    match Consider(p, req, a, attempt)
    case Retry => Wait(req, Pause(p, attempt, a), left)
    case GiveBack => HandBack
    case Unreadable => ReadFailure
  }

  // ----- whole runs -----

  /** What the outside has in store for each attempt, however many are made. */
  datatype World = World(answers: nat -> Answer, left: nat -> int, rewinds: nat -> bool, woken: nat -> bool)

  function Verdicts(p: Policy, req: Request, w: World, i: nat): Verdict {
    Judge(p, req, w.answers(i), i, w.left(i))
  }

  datatype End = RewindFailed | Returned | ReadFailed | Cancelled

  predicate GoesOn(p: Policy, req: Request, w: World, i: nat) {
    w.rewinds(i) && Verdicts(p, req, w, i).Sleep? && w.woken(i)
  }

  predicate EndsAt(p: Policy, req: Request, w: World, n: nat, end: End) {
    match end
    case RewindFailed => !w.rewinds(n)
    case Returned => w.rewinds(n) && Verdicts(p, req, w, n) == HandBack
    case ReadFailed => w.rewinds(n) && Verdicts(p, req, w, n) == ReadFailure
    case Cancelled => w.rewinds(n) && Verdicts(p, req, w, n).Sleep? && !w.woken(n)
  }

  /** The run made attempts 0 to `n`, each but the last followed by a full sleep, and ended so. */
  ghost predicate Ran(p: Policy, req: Request, w: World, n: nat, end: End) {
    (forall i :: 0 <= i < n ==> GoesOn(p, req, w, i)) && EndsAt(p, req, w, n, end)
  }

  /** A response: what reading its body still yields, and whether the network body is still open. */
  class Response {
    const answer: Answer
    var unread: seq<int>
    var open: bool

    ghost predicate Untouched()
      requires answer.Reply?
      reads this
    {
      unread == answer.body && open
    }

    constructor (answer: Answer)
      requires answer.Reply?
      ensures this.answer == answer && Untouched()
    {
      this.answer := answer;
      unread, open := answer.body, true;
    }

    /** Reads a 429 to tell the pacing refusal, and puts the bytes back in memory. */
    method IsSendPacingRefusal() returns (pacing: bool, failed: bool)
      requires answer.Reply? && Untouched()
      modifies this
      ensures failed == (answer.status == 429 && !answer.readable)
      ensures pacing == (answer.status == 429 && answer.readable && answer.pacing)
      ensures failed ==> !open
      ensures !failed ==> unread == answer.body
    {
      if answer.status != 429 { return false, false; }
      var data := unread;
      unread, open := [], false;
      if !answer.readable { return false, true; }
      unread := data;
      return answer.pacing, false;
    }

    method DrainAndClose()
      modifies this
      ensures unread == [] && !open
    {
      unread, open := [], false;
    }
  }

  /** The first half of a turn of the loop: a 429 may have to be read, and is put back unless that fails. */
  method Weigh(p: Policy, req: Request, a: Answer, attempt: nat, r: Response?) returns (turn: Turn)
    requires r != null <==> a.Reply?
    requires r != null ==> r.answer == a && r.Untouched()
    modifies r
    ensures turn == Consider(p, req, a, attempt)
    ensures r != null && turn == Unreadable ==> !r.open
    ensures r != null && turn != Unreadable ==> r.unread == a.body
  {
    var retryable := false;
    match a {
      case NetError(stopped) =>
        if stopped { return GiveBack; }
        retryable := IsIdempotent(req.verb);
      case Reply(status, _, _, _, _, _) =>
        if RetryableStatus(p, status) {
          retryable := RetryableForMethod(req, a) && attempt < p.maxRetries;
          if retryable {
            var pacing, failed := r.IsSendPacingRefusal();
            if failed { return Unreadable; }
            retryable := !pacing;
          }
        }
    }
    return if !retryable || attempt >= p.maxRetries then GiveBack else Retry;
  }

  method DelayAfter(p: Policy, attempt: nat, a: Answer) returns (delay: int)
    requires ValidPolicy(p)
    ensures delay == Pause(p, attempt, a)
  {
    delay := Backoff(p, attempt);
    if a.Reply? && p.respectRetryAfter {
      var after := RetryAfter(a.retryAfter, a.date);
      if after.Some? && after.value > delay { delay := after.value; }
    }
  }

  /**
   * The loop, with the response of each attempt that got one. Responses it gives up are closed; the one
   * it returns can still be read byte for byte, also when the pacing check had to read it first.
   */
  method RoundTrip(p: Policy, req: Request, w: World) returns (n: nat, end: End, rs: seq<Response?>)
    requires ValidPolicy(p)
    ensures Ran(p, req, w, n, end)
    ensures |rs| == if end == RewindFailed then n else n + 1
    ensures forall i :: 0 <= i < |rs| ==> (rs[i] != null <==> w.answers(i).Reply?)
    ensures forall i :: 0 <= i < |rs| && rs[i] != null && i < n ==> !rs[i].open
    ensures end == Returned && rs[n] != null ==> rs[n].unread == w.answers(n).body
    ensures (end == ReadFailed || end == Cancelled) && rs[n] != null ==> !rs[n].open
  {
    n, rs := 0, [];
    while true
      invariant n == 0 || n <= p.maxRetries
      invariant |rs| == n && forall i :: 0 <= i < n ==> GoesOn(p, req, w, i)
      invariant forall i :: 0 <= i < n ==> (rs[i] != null <==> w.answers(i).Reply?)
      invariant forall i :: 0 <= i < n && rs[i] != null ==> !rs[i].open
      decreases p.maxRetries - n
    {
      if !w.rewinds(n) { return n, RewindFailed, rs; }
      var a := w.answers(n);
      var r: Response? := null;
      if a.Reply? { r := new Response(a); }
      rs := rs + [r];
      var turn := Weigh(p, req, a, n, r);
      match turn {
        case Unreadable => return n, ReadFailed, rs;
        case GiveBack => return n, Returned, rs;
        case Retry =>
      }
      var delay := DelayAfter(p, n, a);
      if req.hasDeadline && w.left(n) < delay { return n, Returned, rs; }
      if r != null { r.DrainAndClose(); }
      if !w.woken(n) { return n, Cancelled, rs; }
      n := n + 1;
    }
  }

  // ----- what every run keeps -----

  /** At most max(0, MaxRetries) + 1 attempts, whatever the outside has in store. */
  lemma AttemptsBounded(p: Policy, req: Request, w: World, n: nat, end: End)
    requires Ran(p, req, w, n, end)
    ensures n <= Max(0, p.maxRetries)
  {
    if n > 0 { assert GoesOn(p, req, w, n - 1); }
  }

  // ----- when a run goes on -----

  /** A 429 that must go back: it cannot be read, or it is the gateway's send pacing. */
  predicate PacingOrUnreadable(a: Answer) { a.Reply? && a.status == 429 && (a.pacing || !a.readable) }

  predicate InPolicy(p: Policy, status: int) {
    if p.retryableStatuses.Some? then status in p.retryableStatuses.value
    else status == 429 || status == 500 || status == 502 || status == 503 || status == 504
  }

  /** Worth another attempt to a method that may be repeated: a lost connection, or a status of the policy. */
  predicate Transient(p: Policy, a: Answer) {
    if a.NetError? then !a.stopped else InPolicy(p, a.status) && !PacingOrUnreadable(a)
  }

  predicate Repeatable(verb: string) {
    verb == "GET" || verb == "HEAD" || verb == "OPTIONS" || verb == "PUT" || verb == "DELETE"
  }

  /** The backoff, or the Retry-After of a reply when the policy honours it and it is longer. */
  function Rest(p: Policy, i: nat, a: Answer): int {
    if a.Reply? && p.respectRetryAfter && RetryAfter(a.retryAfter, a.date).Some?
    then Max(Delay(p, i), RetryAfter(a.retryAfter, a.date).value)
    else Delay(p, i)
  }

  /**
   * An attempt is followed by a sleep, of exactly the rest above, if and only if attempts are left, the
   * answer is transient, to any other method besides safe to resend after, and the rest fits the deadline.
   */
  lemma SleepsIff(p: Policy, req: Request, w: World, i: nat)
    ensures Verdicts(p, req, w, i).Sleep? <==>
      && i < p.maxRetries
      && Transient(p, w.answers(i))
      && (Repeatable(req.verb) || SafeToResend(req, w.answers(i)))
      && (req.hasDeadline ==> Rest(p, i, w.answers(i)) <= w.left(i))
    ensures Verdicts(p, req, w, i).Sleep? ==> Verdicts(p, req, w, i).delay == Rest(p, i, w.answers(i))
  {
  }

  /** The caller gets an error in place of the answer exactly when a 429 that would be retried cannot be read. */
  lemma ReadFailsIff(p: Policy, req: Request, w: World, i: nat)
    ensures Verdicts(p, req, w, i) == ReadFailure <==>
      && i < p.maxRetries && w.answers(i).Reply? && w.answers(i).status == 429 && !w.answers(i).readable
      && InPolicy(p, 429)
  {
  }

  predicate MayGoOn(p: Policy, req: Request, w: World, i: nat) {
    && i < p.maxRetries && Transient(p, w.answers(i)) && (Repeatable(req.verb) || SafeToResend(req, w.answers(i)))
    && (req.hasDeadline ==> Rest(p, i, w.answers(i)) <= w.left(i))
  }

  /** A run whose body rewinds and whose context lives on ends at the first attempt that may not be followed by another. */
  lemma RunEndsAtFirst(p: Policy, req: Request, w: World, n: nat, end: End)
    requires Ran(p, req, w, n, end) && forall k: nat :: w.rewinds(k) && w.woken(k)
    ensures forall k: nat :: k < n ==> MayGoOn(p, req, w, k)
    ensures !MayGoOn(p, req, w, n)
  {
    forall k: nat | k < n ensures MayGoOn(p, req, w, k) {
      assert GoesOn(p, req, w, k);
      SleepsIff(p, req, w, k);
    }
    assert w.rewinds(n) && w.woken(n);
    SleepsIff(p, req, w, n);
  }

  // ----- the time a run sleeps -----

  /** How long the sleep after attempt `i` takes; a timer set to a negative delay fires at once. */
  function SleepOf(p: Policy, req: Request, w: World, i: nat): nat {
    var v := Verdicts(p, req, w, i);
    if v.Sleep? then Max(0, v.delay) else 0
  }

  function TotalSleep(p: Policy, req: Request, w: World, n: nat): nat {
    if n == 0 then 0 else TotalSleep(p, req, w, n - 1) + SleepOf(p, req, w, n - 1)
  }

  lemma {:induction false} EachSleepCounts(p: Policy, req: Request, w: World, n: nat, i: nat)
    requires i < n
    ensures SleepOf(p, req, w, i) <= TotalSleep(p, req, w, n)
  {
    if i < n - 1 { EachSleepCounts(p, req, w, n - 1, i); }
  }

  /** Between two looks at the deadline at least the sleep between them has passed. */
  ghost predicate ClockRuns(p: Policy, req: Request, w: World, n: nat) {
    forall i :: 0 <= i < n ==> w.left(i + 1) <= w.left(i) - SleepOf(p, req, w, i)
  }

  /** A sleep begun fits in what is left, and is no shorter than the backoff or the Retry-After it honours. */
  lemma SleepFits(p: Policy, req: Request, w: World, i: nat)
    requires Verdicts(p, req, w, i).Sleep?
    ensures req.hasDeadline ==> SleepOf(p, req, w, i) <= Max(0, w.left(i))
    ensures SleepOf(p, req, w, i) >= Delay(p, i)
    ensures var a := w.answers(i);
      a.Reply? && p.respectRetryAfter && RetryAfter(a.retryAfter, a.date).Some? ==>
        SleepOf(p, req, w, i) >= RetryAfter(a.retryAfter, a.date).value
  {
  }

  lemma {:induction false} SleepsAddUp(p: Policy, req: Request, w: World, n: nat)
    requires req.hasDeadline && ClockRuns(p, req, w, n)
    requires forall i :: 0 <= i < n ==> GoesOn(p, req, w, i)
    ensures TotalSleep(p, req, w, n) + w.left(n) <= w.left(0)
    ensures TotalSleep(p, req, w, n) <= Max(0, w.left(0))
  {
    if n > 0 {
      SleepsAddUp(p, req, w, n - 1);
      assert GoesOn(p, req, w, n - 1);
      SleepFits(p, req, w, n - 1);
      assert w.left(n - 1 + 1) <= w.left(n - 1) - SleepOf(p, req, w, n - 1);
    }
  }

  /**
   * All sleeps of a run together, the one a cancelled context breaks off included, take no longer than
   * was left of the deadline at the first decision to sleep.
   */
  lemma SleepsWithinDeadline(p: Policy, req: Request, w: World, n: nat, end: End)
    requires req.hasDeadline && Ran(p, req, w, n, end) && ClockRuns(p, req, w, n)
    ensures TotalSleep(p, req, w, n) + (if end == Cancelled then SleepOf(p, req, w, n) else 0) <= Max(0, w.left(0))
  {
    SleepsAddUp(p, req, w, n);
    if end == Cancelled { SleepFits(p, req, w, n); }
  }

  // ----- what is sent again -----

  /** What lets a non-idempotent request be sent again. */
  predicate SafeToResend(req: Request, a: Answer) {
    && a.Reply?
    && (|| (a.status == 429 && !a.pacing)
        || (a.status == 503 && (req.keyed || a.retryAfter != "")))
  }

  lemma ResentOnlyWhenSafe(p: Policy, req: Request, w: World, n: nat, end: End, i: nat)
    requires Ran(p, req, w, n, end) && i < n && !IsIdempotent(req.verb)
    ensures SafeToResend(req, w.answers(i))
  {
    assert GoesOn(p, req, w, i);
  }

  // ----- at most one message -----

  /**
   * What the gateway does with an attempt: nothing, because it was refused first or never arrived, or
   * carry it out. Carrying it out sends the message or not, and may end without knowing which.
   */
  datatype Deed = Nothing | Carry(sends: bool, unknown: bool)

  predicate HoldsKeys(req: Request, path: string) { req.keyed && Path.IsIdempotentSendPath(path) }

  /**
   * Whether the gateway holds the request's key when attempt `i` arrives. It is recorded when the
   * request is carried out, and freed again when nothing was sent.
   */
  function KeyHeld(req: Request, path: string, deeds: nat -> Deed, i: nat): bool {
    i > 0 &&
    (KeyHeld(req, path, deeds, i - 1) ||
     (HoldsKeys(req, path) && deeds(i - 1).Carry? && (deeds(i - 1).sends || deeds(i - 1).unknown)))
  }

  /** A message goes out with attempt `i`: a replay of a key that is held is answered without sending. */
  predicate Sends(req: Request, path: string, deeds: nat -> Deed, i: nat) {
    deeds(i).Carry? && deeds(i).sends && !KeyHeld(req, path, deeds, i)
  }

  predicate IsRefusal(a: Answer) { a.Reply? && (a.status == 429 || (a.status == 503 && a.retryAfter != "")) }

  /** A 429, and a 503 with Retry-After, is answered before acting on the request. */
  ghost predicate RefusesFirst(w: World, deeds: nat -> Deed) {
    forall i: nat :: IsRefusal(w.answers(i)) ==> deeds(i) == Nothing
  }

  function Messages(req: Request, path: string, deeds: nat -> Deed, n: nat): nat {
    if n == 0 then 0 else Messages(req, path, deeds, n - 1) + if Sends(req, path, deeds, n - 1) then 1 else 0
  }

  /** The attempts among the first n that send a message. */
  ghost function Senders(req: Request, path: string, deeds: nat -> Deed, n: nat): set<nat> {
    set i: nat | i < n && Sends(req, path, deeds, i)
  }

  lemma {:induction false} MessagesIsCount(req: Request, path: string, deeds: nat -> Deed, n: nat)
    ensures Messages(req, path, deeds, n) == |Senders(req, path, deeds, n)|
  {
    if n > 0 {
      MessagesIsCount(req, path, deeds, n - 1);
      var before := Senders(req, path, deeds, n - 1);
      assert Senders(req, path, deeds, n) == if Sends(req, path, deeds, n - 1) then before + {n - 1} else before;
    }
  }

  /** A gateway holds no key of a request without one, or on another route than the send routes. */
  lemma {:induction false} NoKeyNoHold(req: Request, path: string, deeds: nat -> Deed, i: nat)
    requires !req.keyed || !Path.IsIdempotentSendPath(path)
    ensures !KeyHeld(req, path, deeds, i)
  {
    if i > 0 { NoKeyNoHold(req, path, deeds, i - 1); }
  }

  /** With a key, a message sent is a key held from then on. */
  lemma {:induction false} KeyedOnce(req: Request, path: string, deeds: nat -> Deed, n: nat)
    requires HoldsKeys(req, path)
    ensures Messages(req, path, deeds, n) <= 1
    ensures Messages(req, path, deeds, n) == 1 ==> KeyHeld(req, path, deeds, n)
  {
    if n > 0 { KeyedOnce(req, path, deeds, n - 1); }
  }

  /** Without one, the run goes on only past attempts that sent nothing. */
  lemma {:induction false} UnkeyedNone(p: Policy, req: Request, path: string, w: World, deeds: nat -> Deed, n: nat)
    requires !IsIdempotent(req.verb) && !req.keyed && RefusesFirst(w, deeds)
    requires forall i :: 0 <= i < n ==> GoesOn(p, req, w, i)
    ensures Messages(req, path, deeds, n) == 0
  {
    if n > 0 {
      UnkeyedNone(p, req, path, w, deeds, n - 1);
      assert GoesOn(p, req, w, n - 1);
      assert deeds(n - 1) == Nothing;
    }
  }

  /**
   * A POST or PATCH that the client builds delivers at most one message over a whole retry run,
   * whatever is answered, against a gateway that refuses before acting and keeps the keys it is given.
   */
  lemma AtMostOneMessage(verb: string, path: string, rawPath: bool, key: Option<string>, hasDeadline: bool,
                         p: Policy, w: World, deeds: nat -> Deed, n: nat, end: End)
    requires Build(verb, path, rawPath, key, hasDeadline).Some?
    requires var req := Build(verb, path, rawPath, key, hasDeadline).value;
      !IsIdempotent(req.verb) && Ran(p, req, w, n, end) && RefusesFirst(w, deeds)
    ensures Messages(Build(verb, path, rawPath, key, hasDeadline).value, path, deeds, n + 1) <= 1
  {
    var req := Build(verb, path, rawPath, key, hasDeadline).value;
    if req.keyed {
      KeyedOnce(req, path, deeds, n + 1);
    } else {
      UnkeyedNone(p, req, path, w, deeds, n);
    }
  }
}
