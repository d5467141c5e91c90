/**
 * The device-login polling loop (section 3.5 of RFC 8628). Times and durations are
 * nanoseconds; a duration is a signed 64-bit count and wraps around as one.
 */
module DevicePolling {
  import opened Wrappers

  const SECOND: int := 1_000_000_000
  const TWO_63: int := 0x8000_0000_0000_0000
  const TWO_64: int := 0x1_0000_0000_0000_0000

  /** Five seconds for each of `k` slow-downs. */
  function Extra(k: nat): int {
    5_000_000_000 * k
  }

  function Wrap(n: int): (r: int)
    ensures -TWO_63 <= r < TWO_63
    ensures -TWO_63 <= n < TWO_63 ==> r == n
  {
    (n + TWO_63) % TWO_64 - TWO_63
  }

  /** time.Duration(n) * time.Second */
  function Seconds(n: int): int {
    Wrap(n * SECOND)
  }

  datatype DeviceCode = DeviceCode(expiresIn: int, interval: int)

  /** The service's answer to one token request; `interval` is the one the error carries, 0 for none. */
  datatype Reply = Token | Pending | SlowDown(interval: int) | Denied | ExpiredToken | OtherServiceError | TransportError

  /**
   * One turn of the loop as the outside world plays it: time spent before the expiry check,
   * whether the sleep is cancelled, how far it overruns, how long the request takes.
   */
  datatype Round = Round(idle: nat, cancelled: bool, overrun: nat, latency: nat, reply: Reply)

  datatype Outcome = Approved | LoginExpired | LoginDenied | Cancelled | Failed | StillWaiting

  /** A request that was sent: when, and the interval slept before it. */
  datatype Request = Request(at: int, interval: int)

  function InitialInterval(code: DeviceCode): (interval: int)
    ensures interval > 0
  {
    var d := Seconds(code.interval);
    if d <= 0 then Extra(1) else d
  }

  function NextInterval(interval: int, reply: Reply): int {
    match reply
    case SlowDown(n) => if n > 0 then Seconds(n) else Wrap(interval + Extra(1))
    case _ => interval
  }

  function Max(a: int, b: int): int {
    if a < b then b else a
  }

  /** The interval a code names, in seconds, or five seconds when it names none; as long as it fits a duration. */
  lemma FirstInterval(code: DeviceCode)
    requires -TWO_63 <= code.interval * SECOND < TWO_63
    ensures InitialInterval(code) == (if code.interval > 0 then code.interval else 5) * 1_000_000_000
  {
  }

  /** A sleep of a non-positive duration returns at once. */
  function WakeTime(now: int, interval: int, overrun: nat): int {
    if interval <= 0 then now else now + interval + overrun
  }

  function EndOf(reply: Reply): Option<Outcome> {
    match reply
    case Token => Some(Approved)
    case Denied => Some(LoginDenied)
    case ExpiredToken => Some(LoginExpired)
    case OtherServiceError => Some(Failed)
    case TransportError => Some(Failed)
    case Pending => None
    case SlowDown(_) => None
  }

  /** The whole run of the loop from time `now`; the script running out leaves it waiting. */
  function PollFrom(now: int, interval: int, expiresAt: int, script: seq<Round>): (Outcome, seq<Request>)
    decreases |script|
  {
    if script == [] then (StillWaiting, [])
    else
      var round := script[0];
      var checked := now + round.idle;
      if checked > expiresAt then (LoginExpired, [])
      else if round.cancelled then (Cancelled, [])
      else
        var sent := WakeTime(checked, interval, round.overrun);
        var answered := sent + round.latency;
        var request := Request(sent, interval);
        if EndOf(round.reply).Some? then (EndOf(round.reply).value, [request])
        else if answered > expiresAt then (LoginExpired, [request])
        else
          var (outcome, rest) := PollFrom(answered, NextInterval(interval, round.reply), expiresAt, script[1..]);
          (outcome, [request] + rest)
  }

  /** A run in which `before` had already been sent. */
  function Sent(before: seq<Request>, run: (Outcome, seq<Request>)): (Outcome, seq<Request>) {
    (run.0, before + run.1)
  }

  lemma SentInTurn(before: seq<Request>, run: (Outcome, seq<Request>))
    ensures run.1 != [] ==> Sent(before, run) == Sent(before + [run.1[0]], (run.0, run.1[1..]))
    ensures run.1 == [] ==> Sent(before, run) == (run.0, before)
    ensures before == [] ==> Sent(before, run) == run
  {
    assert before + [] == before && [] + run.1 == run.1;
    if run.1 != [] {
      assert before + run.1 == before + [run.1[0]] + run.1[1..];
    }
  }

  /** One turn of the loop at position `i` ends the run, or sends one request and leaves the rest of the script. */
  lemma Turn(before: seq<Request>, now: int, interval: int, expiresAt: int, script: seq<Round>, i: nat)
    requires i < |script|
    ensures var round := script[i];
            var sent := WakeTime(now + round.idle, interval, round.overrun);
            var run, requests := Sent(before, PollFrom(now, interval, expiresAt, script[i..])), before + [Request(sent, interval)];
            if now + round.idle > expiresAt then run == (LoginExpired, before)
            else if round.cancelled then run == (Cancelled, before)
            else if EndOf(round.reply).Some? then run == (EndOf(round.reply).value, requests)
            else if sent + round.latency > expiresAt then run == (LoginExpired, requests)
            else run == Sent(requests, PollFrom(sent + round.latency, NextInterval(interval, round.reply), expiresAt, script[i + 1..]))
  {
    assert script[i..][0] == script[i] && script[i..][1..] == script[i + 1..];
    SentInTurn(before, PollFrom(now, interval, expiresAt, script[i..]));
  }

  function Poll(code: DeviceCode, start: int, script: seq<Round>): (Outcome, seq<Request>) {
    PollFrom(start, InitialInterval(code), start + Seconds(code.expiresIn), script)
  }

  method PollDeviceToken(code: DeviceCode, start: int, script: seq<Round>) returns (outcome: Outcome, requests: seq<Request>)
    ensures (outcome, requests) == Poll(code, start, script)
  {
    var interval := Seconds(code.interval);
    if interval <= 0 {
      interval := Extra(1);
    }
    var expiresAt := start + Seconds(code.expiresIn);
    var now := start;
    requests := [];
    var i := 0;
    assert script[0..] == script;
    SentInTurn([], Poll(code, start, script));
    while i < |script|
      invariant 0 <= i <= |script|
      invariant Poll(code, start, script) == Sent(requests, PollFrom(now, interval, expiresAt, script[i..]))
    {
      var round := script[i];
      Turn(requests, now, interval, expiresAt, script, i);
      now := now + round.idle;
      if now > expiresAt {
        return LoginExpired, requests;
      }
      if round.cancelled {
        return Cancelled, requests;
      }
      now := WakeTime(now, interval, round.overrun);
      requests := requests + [Request(now, interval)];
      now := now + round.latency;
      match round.reply {
        case Token => return Approved, requests;
        case Pending =>
        case SlowDown(n) =>
          if n > 0 {
            interval := Seconds(n);
          } else {
            interval := Wrap(interval + Extra(1));
          }
        case Denied => return LoginDenied, requests;
        case ExpiredToken => return LoginExpired, requests;
        case OtherServiceError => return Failed, requests;
        case TransportError => return Failed, requests;
      }
      if now > expiresAt {
        return LoginExpired, requests;
      }
      i := i + 1;
    }
    SentInTurn(requests, (StillWaiting, []));
    outcome := StillWaiting;
  }

  // --- how a run ends ------------------------------------------------------------------------------

  /** Every reply so far only asked to go on. */
  predicate OnlyWaiting(script: seq<Round>) {
    forall r :: r in script ==> r.reply == Pending || r.reply.SlowDown?
  }

  /**
   * A run ends with what the service answered to its last request, if that ends it, and nothing
   * before did: approved by a token, denied or expired by those answers, failed by any other error.
   * Otherwise it expired by the clock, was cancelled before a request, or the outside world stopped.
   */
  lemma {:induction false} OutcomeIsLastReply(now: int, interval: int, expiresAt: int, script: seq<Round>)
    ensures var (outcome, requests) := PollFrom(now, interval, expiresAt, script);
            var n := |requests|;
            && n <= |script|
            && (n > 0 ==> OnlyWaiting(script[..n - 1]))
            && (outcome == Approved <==> n > 0 && script[n - 1].reply == Token)
            && (outcome == LoginDenied <==> n > 0 && script[n - 1].reply == Denied)
            && (outcome == Failed <==> n > 0 && script[n - 1].reply in {OtherServiceError, TransportError})
            && (n > 0 && script[n - 1].reply == ExpiredToken ==> outcome == LoginExpired)
            && (outcome == Cancelled ==> n < |script| && script[n].cancelled && OnlyWaiting(script[..n]))
            && (outcome == StillWaiting ==> n == |script| && OnlyWaiting(script))
    decreases |script|
  {
    var (outcome, requests) := PollFrom(now, interval, expiresAt, script);
    if requests != [] {
      var round := script[0];
      var answered := WakeTime(now + round.idle, interval, round.overrun) + round.latency;
      if EndOf(round.reply).None? && answered <= expiresAt {
        var rest := script[1..];
        OutcomeIsLastReply(answered, NextInterval(interval, round.reply), expiresAt, rest);
        var n := |requests|;
        assert |PollFrom(answered, NextInterval(interval, round.reply), expiresAt, rest).1| == n - 1;
        WaitsFirst(script, n);
        if n == 1 {
          assert script[..1] == [round];
        }
      }
    }
  }

  lemma WaitsFirst(script: seq<Round>, n: nat)
    requires 1 <= n <= |script| && (script[0].reply == Pending || script[0].reply.SlowDown?)
    ensures OnlyWaiting(script[1..][..n - 1]) ==> OnlyWaiting(script[..n])
    ensures n > 1 && OnlyWaiting(script[1..][..n - 2]) ==> OnlyWaiting(script[..n - 1])
    ensures OnlyWaiting(script[1..]) ==> OnlyWaiting(script)
  {
    assert script == [script[0]] + script[1..];
    assert script[..n] == [script[0]] + script[1..][..n - 1];
    if n > 1 {
      assert script[..n - 1] == [script[0]] + script[1..][..n - 2];
    }
  }

  // --- how many requests -------------------------------------------------------------------------

  /** Wrapping never lengthens a lifetime. */
  lemma LifetimeNeverGrows(n: nat)
    ensures Seconds(n) <= n * SECOND
  {
    var x := n * SECOND + TWO_63;
    assert x % TWO_64 <= x;
  }

  function Waiting(n: nat): seq<Round> {
    seq(n, _ => Round(0, false, 0, 0, Pending))
  }

  lemma {:induction false} WaitingUsesAll(now: int, interval: int, expiresAt: int, n: nat)
    requires interval > 0 && (n > 0 ==> now + (n - 1) * interval <= expiresAt)
    ensures |PollFrom(now, interval, expiresAt, Waiting(n)).1| == n
    decreases n
  {
    if n > 0 {
      assert Waiting(n)[1..] == Waiting(n - 1);
      assert (n - 1) * interval == (n - 2) * interval + interval;
      if n > 1 {
        assert (n - 2) * interval >= 0;
        WaitingUsesAll(now + interval, interval, expiresAt, n - 1);
      }
    }
  }

  /** The bound is reached: waiting out a non-negative lifetime costs exactly one request more than it holds intervals. */
  lemma WaitingMeetsTheBound(code: DeviceCode, start: int)
    requires Seconds(code.expiresIn) >= 0
    ensures var n := Seconds(code.expiresIn) / InitialInterval(code) + 1;
            |Poll(code, start, Waiting(n)).1| == n
  {
    var lifetime, interval := Seconds(code.expiresIn), InitialInterval(code);
    var n := lifetime / interval + 1;
    FullIntervals(lifetime, interval);
    WaitingUsesAll(start, interval, start + lifetime, n);
  }

  /** A duration that has wrapped below zero is not slept at all. */
  lemma {:induction false} SleeplessUsesAll(now: int, interval: int, expiresAt: int, n: nat)
    requires interval <= 0 && now <= expiresAt
    ensures |PollFrom(now, interval, expiresAt, Waiting(n)).1| == n
    decreases n
  {
    if n > 0 {
      assert Waiting(n)[1..] == Waiting(n - 1);
      SleeplessUsesAll(now, interval, expiresAt, n - 1);
    }
  }

  /**
   * As long as the first slow-down could not wrap the interval, or would come too late to matter,
   * none ever does: every request but the first is paid for with an initial interval.
   */
  lemma {:induction false} UnwrappedRequestsFit(now: int, interval: int, expiresAt: int, script: seq<Round>, least: int)
    requires NoneSupplied(script) && 0 < least <= interval && expiresAt - now < TWO_63
    requires interval + Extra(1) < TWO_63 || expiresAt - now < interval
    ensures var requests := PollFrom(now, interval, expiresAt, script).1;
            requests != [] ==> (|requests| - 1) * least <= expiresAt - now
    decreases |script|
  {
    var requests := PollFrom(now, interval, expiresAt, script).1;
    if |requests| > 1 {
      var round := script[0];
      var answered := WakeTime(now + round.idle, interval, round.overrun) + round.latency;
      var rest := requests[1..];
      assert round in script && forall r :: r in script[1..] ==> r in script;
      assert rest == PollFrom(answered, NextInterval(interval, round.reply), expiresAt, script[1..]).1;
      UnwrappedRequestsFit(answered, NextInterval(interval, round.reply), expiresAt, script[1..], least);
      assert (|requests| - 1) * least == (|rest| - 1) * least + least;
    }
  }

  /** What arrives off the wire for a script, when no error body carries an interval. */
  function Wired(script: seq<Round>): seq<WireRound> {
    seq(|script|, i requires 0 <= i < |script| => WireRound(script[i], None))
  }

  lemma WaitingIsReceived(n: nat)
    ensures Received(Wired(Waiting(n))) == Waiting(n)
    ensures Received(Wired(Slowed(n))) == Slowed(n)
  {
  }

  /** Whatever comes off the wire, at most one request more than the code lives seconds is sent. */
  ghost predicate BoundHolds(code: DeviceCode, start: int) {
    forall wire: seq<WireRound> :: |Poll(code, start, Received(wire)).1| <= code.expiresIn + 1
  }

  /** A slow-down answered to the first request does not wrap the interval below zero, or comes too late for a second. */
  predicate NeverWraps(code: DeviceCode) {
    InitialInterval(code) + Extra(1) < TWO_63 || Seconds(code.expiresIn) < InitialInterval(code)
  }

  /** The lifetime holds no more than `expiresIn` initial intervals, and no slow-down wraps the interval within it. */
  predicate KeepsPace(code: DeviceCode) {
    var lifetime, interval := Seconds(code.expiresIn), InitialInterval(code);
    (lifetime < 0 || lifetime / interval <= code.expiresIn) && NeverWraps(code)
  }

  lemma KeepingPaceBounds(code: DeviceCode, start: int, wire: seq<WireRound>)
    requires code.expiresIn >= 0 && KeepsPace(code)
    ensures |Poll(code, start, Received(wire)).1| <= code.expiresIn + 1
  {
    var lifetime, interval, script := Seconds(code.expiresIn), InitialInterval(code), Received(wire);
    assert NoneSupplied(script);
    UnwrappedRequestsFit(start, interval, start + lifetime, script, interval);
    var requests := Poll(code, start, script).1;
    if requests != [] {
      assert lifetime >= 0;
      QuotientBound(|requests| - 1, interval, lifetime);
    }
  }

  /** One slow-down wraps the interval, and from then on nothing is waited for. */
  lemma WrappedSlowDownBreaks(code: DeviceCode, start: int)
    requires code.expiresIn >= 0 && !NeverWraps(code)
    ensures !BoundHolds(code, start)
  {
    var n := code.expiresIn + 1;
    WaitingIsReceived(n);
    SlowedUsesAll(code, start, n);
    assert |Poll(code, start, Received(Wired(Slowed(n)))).1| == n + 1;
  }

  /** One slow-down, and then only waiting. */
  function Slowed(n: nat): seq<Round> {
    [Round(0, false, 0, 0, SlowDown(0))] + Waiting(n)
  }

  lemma SlowedUsesAll(code: DeviceCode, start: int, n: nat)
    requires !NeverWraps(code)
    ensures var requests := Poll(code, start, Slowed(n)).1;
            |requests| == n + 1 && (n > 0 ==> requests[1].interval == Wrap(InitialInterval(code) + Extra(1)) < 0)
  {
    SlowedFrom(start, InitialInterval(code), start + Seconds(code.expiresIn), n);
  }

  /** The first request is answered in time, and the wrapped interval is not slept. */
  lemma SlowedFrom(now: int, interval: int, expiresAt: int, n: nat)
    requires 0 < interval < TWO_63 <= interval + Extra(1) && interval <= expiresAt - now
    ensures var requests := PollFrom(now, interval, expiresAt, Slowed(n)).1;
            |requests| == n + 1 && (n > 0 ==> requests[1].interval == Wrap(interval + Extra(1)) < 0)
  {
    var next, later := Wrap(interval + Extra(1)), now + interval;
    WrapsBelowZero(interval);
    SleeplessUsesAll(later, next, expiresAt, n);
    var slowed := Slowed(n);
    assert slowed[0] == Round(0, false, 0, 0, SlowDown(0)) && slowed[1..] == Waiting(n);
    var rest := PollFrom(later, next, expiresAt, Waiting(n)).1;
    assert PollFrom(now, interval, expiresAt, slowed).1 == [Request(later, interval)] + rest;
    if n > 0 {
      WaitingStarts(later, next, expiresAt, n);
    }
  }

  lemma WaitingStarts(now: int, interval: int, expiresAt: int, n: nat)
    requires n > 0 && interval <= 0 && now <= expiresAt
    ensures var requests := PollFrom(now, interval, expiresAt, Waiting(n)).1;
            requests != [] && requests[0] == Request(now, interval)
  {
  }

  lemma WrapsBelowZero(interval: int)
    requires TWO_63 - Extra(1) <= interval < TWO_63
    ensures Wrap(interval + Extra(1)) < 0
  {
    assert interval + Extra(1) + TWO_63 == (interval + Extra(1) - TWO_63) + TWO_64;
  }

  /**
   * The loop sends at most `expiresIn` + 1 requests whatever is answered, slow-downs included, if
   * and only if the code keeps pace: a condition on the code alone.
   */
  lemma BoundHoldsExactly(code: DeviceCode, start: int)
    requires code.expiresIn >= 0
    ensures BoundHolds(code, start) <==> KeepsPace(code)
  {
    var lifetime, interval := Seconds(code.expiresIn), InitialInterval(code);
    if KeepsPace(code) {
      forall wire: seq<WireRound> ensures |Poll(code, start, Received(wire)).1| <= code.expiresIn + 1 {
        KeepingPaceBounds(code, start, wire);
      }
    } else if lifetime >= 0 && lifetime / interval > code.expiresIn {
      WaitingMeetsTheBound(code, start);
      var n := lifetime / interval + 1;
      FullIntervals(lifetime, interval);
      WaitingIsReceived(n);
      assert |Poll(code, start, Received(Wired(Waiting(n)))).1| > code.expiresIn + 1;
    } else {
      WrappedSlowDownBreaks(code, start);
    }
  }

  /** Every code whose interval and five seconds more still fit a duration keeps pace. */
  lemma OrdinaryCodesKeepPace(code: DeviceCode, start: int)
    requires code.expiresIn >= 0 && code.interval >= 0 && code.interval * SECOND + Extra(1) < TWO_63
    ensures BoundHolds(code, start) && SpacingHolds(code, start)
  {
    var lifetime, interval := Seconds(code.expiresIn), InitialInterval(code);
    LifetimeNeverGrows(code.expiresIn);
    assert SECOND <= interval && interval + Extra(1) < TWO_63;
    if lifetime >= 0 {
      SecondsHoldFewIntervals(lifetime, interval, code.expiresIn);
    }
    BoundHoldsExactly(code, start);
    SpacingHoldsExactly(code, start);
  }

  lemma SecondsHoldFewIntervals(lifetime: nat, interval: int, seconds: nat)
    requires SECOND <= interval && lifetime <= seconds * SECOND
    ensures lifetime / interval <= seconds
  {
    ProductsGrow(SECOND, interval, seconds);
    FullIntervals(lifetime, interval);
    assert (seconds + 1) * interval == seconds * interval + interval;
    if lifetime / interval > seconds {
      ProductsGrow(seconds + 1, lifetime / interval, interval);
    }
  }

  lemma FullIntervals(n: nat, d: int)
    requires d > 0
    ensures 0 <= n / d && (n / d) * d <= n < (n / d + 1) * d
  {
    assert n == (n / d) * d + n % d;
  }

  lemma QuotientBound(q: nat, d: int, n: nat)
    requires d > 0 && q * d <= n
    ensures q <= n / d
  {
    FullIntervals(n, d);
    if q >= n / d + 1 {
      ProductsGrow(n / d + 1, q, d);
    }
  }

  lemma ProductsGrow(a: nat, b: nat, d: nat)
    requires a <= b
    ensures a * d <= b * d && d * a <= d * b
  {
  }

  /** A code whose interval overflows the duration type is polled more often than once a second. */
  lemma OverflowBreaksTheBound()
    ensures var code := DeviceCode(1, 18446744074);
            && InitialInterval(code) == 290448384
            && |Poll(code, 0, Waiting(4)).1| == 4 > code.expiresIn + 1
  {
    var code := DeviceCode(1, 18446744074);
    assert Seconds(1) == SECOND;
    assert InitialInterval(code) == 290448384;
    WaitingUsesAll(0, 290448384, SECOND, 4);
  }

  // --- how far apart ----------------------------------------------------------------------------

  function SlowDowns(script: seq<Round>): nat {
    if script == [] then 0 else SlowDowns(script[1..]) + if script[0].reply.SlowDown? then 1 else 0
  }

  predicate NoneSupplied(script: seq<Round>) {
    forall r :: r in script && r.reply.SlowDown? ==> r.reply.interval <= 0
  }

  /** Each request is sent at least its interval after the request before it (or the start). */
  predicate SpacedByIntervals(now: int, requests: seq<Request>) {
    && (requests != [] ==> requests[0].at >= now + requests[0].interval)
    && forall i :: 0 <= i < |requests| - 1 ==> requests[i + 1].at >= requests[i].at + requests[i + 1].interval
  }

  lemma SlowDownsOfFirst(script: seq<Round>, i: nat)
    requires 0 < i <= |script|
    ensures SlowDowns(script[..i]) == SlowDowns(script[1..][..i - 1]) + if script[0].reply.SlowDown? then 1 else 0
  {
    assert script[..i][1..] == script[1..][..i - 1];
  }

  /** Request i carries the first interval and five seconds for every slow-down answered before it, and is spaced by that much. */
  predicate SpacedAsSpecified(now: int, interval: int, script: seq<Round>, requests: seq<Request>) {
    && |requests| <= |script|
    && SpacedByIntervals(now, requests)
    && forall i :: 0 <= i < |requests| ==> requests[i].interval == interval + Extra(SlowDowns(script[..i]))
  }

  /** The spacing of a run in which no interval is supplied and the first slow-down cannot wrap the interval, or comes too late to. */
  lemma {:induction false} SpacingGrows(now: int, interval: int, expiresAt: int, script: seq<Round>)
    requires NoneSupplied(script) && 0 < interval && expiresAt - now < TWO_63
    requires interval + Extra(1) < TWO_63 || expiresAt - now < interval
    ensures SpacedAsSpecified(now, interval, script, PollFrom(now, interval, expiresAt, script).1)
    decreases |script|
  {
    var requests := PollFrom(now, interval, expiresAt, script).1;
    if |requests| >= 1 {
      var round := script[0];
      var next := NextInterval(interval, round.reply);
      var answered := WakeTime(now + round.idle, interval, round.overrun) + round.latency;
      assert script[..0] == [];
      assert round in script && forall r :: r in script[1..] ==> r in script;
      var rest := requests[1..];
      if |requests| > 1 {
        assert rest == PollFrom(answered, next, expiresAt, script[1..]).1;
        SpacingGrows(answered, next, expiresAt, script[1..]);
        forall i | 0 <= i < |requests|
          ensures requests[i].interval == interval + Extra(SlowDowns(script[..i]))
          ensures i + 1 < |requests| ==> requests[i + 1].at >= requests[i].at + requests[i + 1].interval
        {
          if i > 0 {
            assert requests[i] == rest[i - 1];
            SlowDownsOfFirst(script, i);
            assert i + 1 < |requests| ==> requests[i + 1] == rest[i];
          } else {
            assert requests[1] == rest[0];
          }
        }
      }
    }
  }

  // --- the interval a slow_down carries -----------------------------------------------------------

  /** How Go's JSON decoder presents a number, and what the integer reader accepts. */
  datatype Decoded = Missing | GoInt(n: int) | JsonNumber(n: int) | Float64(r: real)

  function IntValueOrDefault(value: Decoded, fallback: int): int {
    match value
    case GoInt(n) => n
    case JsonNumber(n) => n
    case _ => fallback
  }

  /** The error reader decodes without UseNumber, so a number arrives as a float. */
  function ErrorEnvelopeInterval(field: Option<int>): Decoded {
    match field
    case None => Missing
    case Some(n) => Float64(n as real)
  }

  function ReadSlowDown(field: Option<int>): Reply {
    SlowDown(IntValueOrDefault(ErrorEnvelopeInterval(field), 0))
  }

  /** A reply as it comes off the wire, with the interval field of its JSON body. */
  datatype WireRound = WireRound(round: Round, intervalField: Option<int>)

  function Received(wire: seq<WireRound>): seq<Round> {
    seq(|wire|, i requires 0 <= i < |wire| =>
      if wire[i].round.reply.SlowDown? then wire[i].round.(reply := ReadSlowDown(wire[i].intervalField)) else wire[i].round)
  }

  /** Two wire scripts that differ only in the intervals their slow-downs name. */
  predicate SameButIntervals(one: seq<WireRound>, two: seq<WireRound>) {
    && |one| == |two|
    && forall i :: 0 <= i < |one| ==>
         one[i].round == two[i].round || (one[i].round.reply.SlowDown? && two[i].round == one[i].round.(reply := two[i].round.reply) && two[i].round.reply.SlowDown?)
  }

  /** Whatever interval the service names in a slow_down, the loop reads none: the run is the same for any other. */
  lemma ServerIntervalIsNeverRead(code: DeviceCode, start: int, wire: seq<WireRound>, other: seq<WireRound>)
    requires SameButIntervals(wire, other)
    ensures Poll(code, start, Received(wire)) == Poll(code, start, Received(other))
    ensures NoneSupplied(Received(wire))
  {
    assert Received(wire) == Received(other);
  }

  /** Whatever comes off the wire, every request is spaced as specified. */
  ghost predicate SpacingHolds(code: DeviceCode, start: int) {
    forall wire: seq<WireRound> :: SpacedAsSpecified(start, InitialInterval(code), Received(wire), Poll(code, start, Received(wire)).1)
  }

  /**
   * The loop spaces its requests by the code's interval plus five seconds a slow-down, whatever is
   * answered and named, if and only if a first slow-down within the lifetime cannot wrap the
   * interval: a condition on the code alone.
   */
  lemma SpacingHoldsExactly(code: DeviceCode, start: int)
    ensures SpacingHolds(code, start) <==> NeverWraps(code)
  {
    if NeverWraps(code) {
      forall wire: seq<WireRound> ensures SpacedAsSpecified(start, InitialInterval(code), Received(wire), Poll(code, start, Received(wire)).1) {
        SpacingGrows(start, InitialInterval(code), start + Seconds(code.expiresIn), Received(wire));
      }
    } else {
      WaitingIsReceived(1);
      SlowedUsesAll(code, start, 1);
      assert !SpacedAsSpecified(start, InitialInterval(code), Received(Wired(Slowed(1))), Poll(code, start, Received(Wired(Slowed(1)))).1);
    }
  }

  /** A code that lives one enormous interval: its second request, after one slow-down, is sent at a negative interval, without any wait. */
  lemma SlowDownWrapsTheInterval()
    ensures var code := DeviceCode(9223372036, 9223372036);
            var requests := Poll(code, 0, Received(Wired(Slowed(1)))).1;
            && !SpacingHolds(code, 0)
            && |requests| == 2 && requests[1].interval < 0 && requests[1].at == requests[0].at
  {
    var code := DeviceCode(9223372036, 9223372036);
    assert Seconds(9223372036) == 9223372036000000000;
    WaitingIsReceived(1);
    SlowedUsesAll(code, 0, 1);
    SpacingHoldsExactly(code, 0);
  }
}
