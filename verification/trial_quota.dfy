/** The send quota of a trial mailbox: a daily and a total count kept by compare-and-set updates. */
module TrialQuota {
  import opened Wrappers
  import opened Grants

  const WINDOW: int := 86_400_000

  /** The quota fields of a trial; `live` says its status is active or claimed. */
  datatype Quota = Quota(dailyLimit: nat, totalLimit: nat, daily: nat, total: nat, windowStart: Time, expiresAt: Time, live: bool)

  predicate Applies(q: Quota, now: Time) {
    q.live && q.expiresAt > now
  }

  predicate WindowIsOver(q: Quota, now: Time) {
    q.windowStart + WINDOW <= now
  }

  /** The reset only matches while the window is still the one that was read. */
  function ResetWindow(q: Quota, read: Quota, now: Time): Quota {
    if q.windowStart == read.windowStart then q.(daily := 0, windowStart := now) else q
  }

  predicate MaySend(q: Quota, now: Time) {
    Applies(q, now) && q.daily < q.dailyLimit && q.total < q.totalLimit
  }

  function Counted(q: Quota): Quota {
    q.(daily := q.daily + 1, total := q.total + 1)
  }

  /** The early refusal, decided on what was read. */
  predicate RefusedEarly(read: Quota, now: Time) {
    (!WindowIsOver(read, now) && read.daily >= read.dailyLimit) || read.total >= read.totalLimit
  }

  class TrialRow {
    var quota: Quota

    constructor (q: Quota)
      ensures quota == q
    {
      quota := q;
    }

    /** One send with nothing else running: it is counted, refused, or not subject to the quota at all. */
    method ConsumeSendQuota(now: Time) returns (allowed: bool)
      modifies this
      ensures var q := old(quota);
              var window := if now - q.windowStart >= 24 * 60 * 60 * 1000 then q.(daily := 0, windowStart := now) else q;
              if !q.live || q.expiresAt <= now then allowed && quota == q
              else allowed == (window.daily < q.dailyLimit && q.total < q.totalLimit)
                   && quota == (if allowed then window.(daily := window.daily + 1, total := window.total + 1) else window)
    {
      var read := quota;
      if !Applies(read, now) {
        return true;
      }
      if WindowIsOver(read, now) {
        quota := ResetWindow(quota, read, now);
      }
      if RefusedEarly(read, now) {
        return false;
      }
      if !MaySend(quota, now) {
        return false;
      }
      quota := Counted(quota);
      return true;
    }
  }

  // --- many sends at once --------------------------------------------------------------------------------------

  /** A send between its steps: it has read the trial, and then perhaps reset the window. */
  datatype Send = HasRead(now: Time, read: Quota) | PastReset(now: Time, read: Quota)

  datatype World = World(quota: Quota, clock: Time, flying: multiset<Send>, sent: nat, resets: nat)

  datatype Event =
    | Pass(span: nat)
    | Begin(now: Time)
    | Reset(send: Send)
    | Increment(send: Send)
    | Withdraw(live: bool)

  function Next(w: World, e: Event): World {
    match e
    case Pass(span) => w.(clock := w.clock + span)
    case Begin(now) =>
      if now <= w.clock && Applies(w.quota, now) then w.(flying := w.flying + multiset{HasRead(now, w.quota)}) else w
    case Reset(s) =>
      if s in w.flying && s.HasRead? then
        var rest := w.flying - multiset{s};
        var moved := if RefusedEarly(s.read, s.now) then rest else rest + multiset{PastReset(s.now, s.read)};
        if WindowIsOver(s.read, s.now) then
          w.(quota := ResetWindow(w.quota, s.read, s.now), flying := moved,
             resets := w.resets + if w.quota.windowStart == s.read.windowStart then 1 else 0)
        else w.(flying := moved)
      else w
    case Increment(s) =>
      if s in w.flying && s.PastReset? then
        if MaySend(w.quota, s.now) then w.(quota := Counted(w.quota), flying := w.flying - multiset{s}, sent := w.sent + 1)
        else w.(flying := w.flying - multiset{s})
      else w
    case Withdraw(live) => w.(quota := w.quota.(live := live))
  }

  function Run(w: World, events: seq<Event>): World
    decreases |events|
  {
    if events == [] then w else Run(Next(w, events[0]), events[1..])
  }

  /** Each reset pays for up to a day's limit and moves the window on by at least a day. */
  predicate Accounted(w: World, first: Quota) {
    && w.quota.dailyLimit == first.dailyLimit && w.quota.totalLimit == first.totalLimit
    && w.quota.total == first.total + w.sent
    && (w.sent > 0 ==> w.quota.total <= first.totalLimit)
    && w.sent + first.daily <= w.quota.daily + Times(Max(first.dailyLimit, first.daily), w.resets)
    && w.quota.daily <= Max(first.dailyLimit, first.daily)
    && w.quota.windowStart >= first.windowStart + Times(WINDOW, w.resets)
    && (w.resets > 0 ==> w.quota.windowStart <= w.clock)
    && forall s :: s in w.flying ==> s.now <= w.clock
  }

  function Max(a: nat, b: nat): nat {
    if a < b then b else a
  }

  function Times(a: nat, n: nat): nat {
    if n == 0 then 0 else a + Times(a, n - 1)
  }

  lemma StepStaysAccounted(w: World, e: Event, first: Quota)
    requires Accounted(w, first)
    ensures Accounted(Next(w, e), first)
  {
    if e.Reset? {
      ResetStaysAccounted(w, e.send, first);
    }
  }

  lemma ResetStaysAccounted(w: World, s: Send, first: Quota)
    requires Accounted(w, first)
    ensures Accounted(Next(w, Reset(s)), first)
  {
    var next := Next(w, Reset(s));
    if s in w.flying && s.HasRead? {
      assert s.now <= w.clock;
      assert forall other :: other in next.flying ==> other.now <= w.clock;
    }
  }

  lemma {:induction false} RunStaysAccounted(w: World, events: seq<Event>, first: Quota)
    requires Accounted(w, first)
    ensures Accounted(Run(w, events), first)
    decreases |events|
  {
    if events != [] {
      StepStaysAccounted(w, events[0], first);
      RunStaysAccounted(Next(w, events[0]), events[1..], first);
    }
  }

  lemma {:induction false} TimesIsProduct(a: nat, n: nat)
    ensures Times(a, n) == a * n
  {
    if n > 0 {
      TimesIsProduct(a, n - 1);
    }
  }

  /**
   * However sends interleave, those counted never exceed what was left of the total, and never
   * exceed a day's limit for the current window and for every full day since it began.
   */
  lemma QuotaHoldsUnderRaces(q: Quota, clock: Time, events: seq<Event>)
    requires q.daily <= q.dailyLimit && q.total <= q.totalLimit
    ensures var last := Run(World(q, clock, multiset{}, 0, 0), events);
            && last.sent <= q.totalLimit - q.total
            && last.sent <= q.dailyLimit - q.daily + q.dailyLimit * last.resets
            && (last.resets > 0 ==> q.windowStart + WINDOW * last.resets <= last.clock)
  {
    var w := World(q, clock, multiset{}, 0, 0);
    RunStaysAccounted(w, events, q);
    var last := Run(w, events);
    TimesIsProduct(q.dailyLimit, last.resets);
    TimesIsProduct(WINDOW, last.resets);
  }
}
