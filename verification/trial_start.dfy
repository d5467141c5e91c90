/**
 * Starting trials. A start counts the active trials, later has the mail server create a mailbox,
 * and then writes all its rows in one transaction or else deletes the mailbox again.
 */
module TrialStart {
  import opened Wrappers
  import opened Capabilities
  import opened Grants
  import opened Trials
  import Text

  datatype Plan = Plan(id: string, capabilities: seq<Capability>, postClaim: seq<Capability>, mailbox: string, org: string, lifetime: nat, claimLifetime: nat)

  function ExpiryOf(plan: Plan, startedAt: Time): Time {
    startedAt + 1000 * plan.lifetime
  }

  function GrantOf(plan: Plan, startedAt: Time, n: nat): CapabilityGrant
    requires n < |plan.capabilities|
  {
    var c := plan.capabilities[n];
    CapabilityGrant(plan.id, Some(c), TrialConstraints(c, plan.org, plan.mailbox), GrantActive, Some(ExpiryOf(plan, startedAt)))
  }

  function GrantRows(plan: Plan, startedAt: Time, count: nat): map<GrantId, CapabilityGrant>
    requires count <= |plan.capabilities|
  {
    map n: nat | n < count :: (plan.id, n) := GrantOf(plan, startedAt, n)
  }

  /** Everything one start writes. */
  function WithRows(s: TrialState, plan: Plan, startedAt: Time, user: string): TrialState {
    var expiresAt := ExpiryOf(plan, startedAt);
    TrialState(
      s.trials[plan.id := Trial(plan.capabilities, plan.postClaim, plan.mailbox, user, expiresAt, TrialActive, None, None)],
      s.intents[plan.id := Intent(startedAt + 1000 * plan.claimLifetime, IntentPending, None, None)],
      s.hosts[plan.id := HostRecord(None, HostActive, Some(expiresAt))],
      s.agents[plan.id := AgentRecord(plan.id, None, AgentActive, Some(expiresAt))],
      s.grants + GrantRows(plan, startedAt, |plan.capabilities|))
  }

  /** No row of any table carries the id. */
  predicate HasNoRow(s: TrialState, id: string) {
    && id !in s.trials && id !in s.intents && id !in s.hosts && id !in s.agents
    && forall g :: g in s.grants ==> g.0 != id
  }

  /** Host, agent, trial, claim intent, and a grant for each of the trial's capabilities. */
  predicate HasAllRows(s: TrialState, id: string) {
    && id in s.trials && id in s.intents && id in s.hosts && id in s.agents
    && forall n: nat :: n < |s.trials[id].capabilities| ==> (id, n) in s.grants && s.grants[(id, n)].capability == Some(s.trials[id].capabilities[n])
  }

  /**
   * Row by row: the trial is active for as many seconds as planned, its claim can be decided for as
   * many as planned, and each of its capabilities is granted, for its organization and mailbox and
   * for as long.
   */
  ghost predicate IsStarted(s: TrialState, plan: Plan, startedAt: Time, user: string) {
    var id := plan.id;
    && id in s.trials && (forall t :: IsActiveTrial(s.trials[id], t) <==> t < startedAt + 1000 * plan.lifetime)
    && s.trials[id].capabilities == plan.capabilities && s.trials[id].postClaim == plan.postClaim
    && s.trials[id].mailbox == plan.mailbox && s.trials[id].mailboxUser == user
    && id in s.intents && s.intents[id].status == IntentPending && s.intents[id].expiresAt == startedAt + 1000 * plan.claimLifetime
    && id in s.hosts && s.hosts[id].status == HostActive && s.hosts[id].user.None? && s.hosts[id].expiresAt == Some(startedAt + 1000 * plan.lifetime)
    && id in s.agents && s.agents[id].status == AgentActive && s.agents[id].host == id && s.agents[id].user.None?
    && s.agents[id].expiresAt == Some(startedAt + 1000 * plan.lifetime)
    && forall n: nat :: n < |plan.capabilities| ==> (id, n) in s.grants && IsTrialGrant(s.grants[(id, n)], plan, startedAt, plan.capabilities[n])
  }

  ghost predicate IsTrialGrant(g: CapabilityGrant, plan: Plan, startedAt: Time, c: Capability) {
    && g.agent == plan.id && GrantOrganization(g) == Some(plan.org)
    && (forall a :: CapabilityGrantConfers(g, a) <==> a == AuthorityOn(plan.org, Some(Text.Lower(plan.mailbox)), c))
    && forall t :: IsCapabilityGrantActive(g, t) <==> t < startedAt + 1000 * plan.lifetime
  }

  lemma RowsAreStarted(s: TrialState, plan: Plan, startedAt: Time, user: string)
    ensures IsStarted(WithRows(s, plan, startedAt, user), plan, startedAt, user)
  {
    var t := WithRows(s, plan, startedAt, user);
    forall n: nat | n < |plan.capabilities| ensures (plan.id, n) in t.grants && IsTrialGrant(t.grants[(plan.id, n)], plan, startedAt, plan.capabilities[n]) {
      assert (plan.id, n) in GrantRows(plan, startedAt, |plan.capabilities|);
      TrialGrantReadsBack(GrantOf(plan, startedAt, n), plan.capabilities[n], plan.org, plan.mailbox);
    }
  }

  // --- one start ---------------------------------------------------------------------------------------------

  datatype Provisioning = Created(user: string) | NoUserReturned | CreateFailed

  datatype Deletion = Deleted | DeleteFailed

  datatype Ending = Started | Refused | CleanedUp | AggregateFailure

  lemma OneMoreGrantRow(table: map<GrantId, CapabilityGrant>, plan: Plan, startedAt: Time, n: nat)
    requires n < |plan.capabilities|
    ensures (table + GrantRows(plan, startedAt, n))[(plan.id, n) := GrantOf(plan, startedAt, n)] == table + GrantRows(plan, startedAt, n + 1)
  {
  }

  /** One grant row per capability, in order. */
  method StageGrants(table: map<GrantId, CapabilityGrant>, plan: Plan, startedAt: Time, failsBefore: Option<nat>)
    returns (staged: Option<map<GrantId, CapabilityGrant>>)
    ensures staged.None? <==> failsBefore.Some? && failsBefore.value < |plan.capabilities|
    ensures staged.Some? ==> staged.value == table + GrantRows(plan, startedAt, |plan.capabilities|)
  {
    var rows := table;
    assert table + GrantRows(plan, startedAt, 0) == table;
    for n := 0 to |plan.capabilities|
      invariant rows == table + GrantRows(plan, startedAt, n)
      invariant failsBefore.Some? ==> failsBefore.value >= n
    {
      if failsBefore == Some(n) {
        return None;
      }
      OneMoreGrantRow(table, plan, startedAt, n);
      rows := rows[(plan.id, n) := GrantOf(plan, startedAt, n)];
    }
    return Some(rows);
  }

  class TrialDatabase {
    var trials: map<string, Trial>
    var intents: map<string, Intent>
    var hosts: map<string, HostRecord>
    var agents: map<string, AgentRecord>
    var grants: map<GrantId, CapabilityGrant>

    constructor (s: TrialState)
      ensures Snapshot() == s
    {
      trials, intents, hosts, agents, grants := s.trials, s.intents, s.hosts, s.agents, s.grants;
    }

    function Snapshot(): TrialState
      reads this
    {
      TrialState(trials, intents, hosts, agents, grants)
    }

    /** One transaction; `failsBefore` is the number of the write that fails, if one does. */
    method CreateRows(plan: Plan, startedAt: Time, user: string, failsBefore: Option<nat>) returns (ok: bool)
      modifies this
      ensures ok <==> failsBefore.None? || failsBefore.value >= |plan.capabilities| + 4
      ensures Snapshot() == if ok then WithRows(old(Snapshot()), plan, startedAt, user) else old(Snapshot())
    {
      var expiresAt := ExpiryOf(plan, startedAt);
      if failsBefore == Some(0) || failsBefore == Some(1) {
        return false;
      }
      var stagedHosts := hosts[plan.id := HostRecord(None, HostActive, Some(expiresAt))];
      var stagedAgents := agents[plan.id := AgentRecord(plan.id, None, AgentActive, Some(expiresAt))];
      var stagedGrants := StageGrants(grants, plan, startedAt, if failsBefore.Some? then Some(failsBefore.value - 2) else None);
      if stagedGrants.None? || failsBefore == Some(|plan.capabilities| + 2) || failsBefore == Some(|plan.capabilities| + 3) {
        return false;
      }
      trials := trials[plan.id := Trial(plan.capabilities, plan.postClaim, plan.mailbox, user, expiresAt, TrialActive, None, None)];
      intents := intents[plan.id := Intent(startedAt + 1000 * plan.claimLifetime, IntentPending, None, None)];
      hosts, agents, grants := stagedHosts, stagedAgents, stagedGrants.value;
      return true;
    }

    /**
     * The saga of one start. Once the mail server has returned a user, it ends with all rows and
     * the mailbox kept, or with no row and the mailbox deleted, or with no row, the mailbox not
     * confirmed deleted, and the aggregate error.
     */
    method StartTrial(plan: Plan, startedAt: Time, maxActive: nat, keysAccepted: bool, provisioning: Provisioning, failsBefore: Option<nat>, deletion: Deletion)
      returns (ending: Ending)
      modifies this
      ensures var s := old(Snapshot());
              var active := set id | id in s.trials && s.trials[id].status == TrialActive && startedAt < s.trials[id].expiresAt;
              var provisioned := |active| < maxActive && keysAccepted && provisioning.Created?;
              var rowsFail := failsBefore.Some? && failsBefore.value < |plan.capabilities| + 4;
              && (ending == Refused <==> !provisioned)
              && (ending == Started <==> provisioned && !rowsFail)
              && (ending == CleanedUp <==> provisioned && rowsFail && deletion == Deleted)
              && (ending == AggregateFailure <==> provisioned && rowsFail && deletion == DeleteFailed)
              && Snapshot() == (if ending == Started then WithRows(s, plan, startedAt, provisioning.user) else s)
              && (ending == Started ==> IsStarted(Snapshot(), plan, startedAt, provisioning.user))
    {
      assert ActiveTrials(trials, startedAt) == set id | id in trials && trials[id].status == TrialActive && startedAt < trials[id].expiresAt;
      RowsAreStarted(Snapshot(), plan, startedAt, if provisioning.Created? then provisioning.user else "");
      if |ActiveTrials(trials, startedAt)| >= maxActive || !keysAccepted {
        return Refused;
      }
      match provisioning
      case NoUserReturned => return Refused;
      case CreateFailed => return Refused;
      case Created(user) =>
        var ok := CreateRows(plan, startedAt, user, failsBefore);
        if ok {
          return Started;
        }
        match deletion
        case Deleted => return CleanedUp;
        case DeleteFailed => return AggregateFailure;
    }
  }

  // --- many starts at once -----------------------------------------------------------------------------------

  datatype Flight =
    | Counted(plan: Plan, startedAt: Time)
    | Provisioned(plan: Plan, startedAt: Time, user: string)
    | Failing(plan: Plan, user: string)

  /** How a start that was given a mailbox user ended. */
  datatype Outcome = KeptRows(user: string) | DeletedMailbox(user: string) | RaisedAggregate(user: string, mailboxGone: bool)

  /** `unnamed` counts mailboxes the mail server may have made without returning a user; `issued` are all users it ever returned. */
  datatype World = World(
    s: TrialState, now: Time, flights: map<string, Flight>, outcomes: map<string, Outcome>,
    mailboxes: set<string>, issued: set<string>, unnamed: nat)

  datatype Event =
    | Tick(span: nat)
    | Count(plan: Plan, startedAt: Time)
    | Drop(id: string)
    | CreateUser(id: string, user: string)
    | CreateUnnamed(id: string, made: bool)
    | CommitRows(id: string)
    | FailRows(id: string)
    | DeleteUser(id: string)
    | FailDelete(id: string, mailboxGone: bool)
    | Settle(id: string, status: TrialStatus)

  datatype Limits = Limits(maxActive: nat, atOnce: nat)

  /** A new random id: nothing stored, in flight or finished has it. */
  predicate IsNew(w: World, id: string) {
    id !in w.flights && id !in w.outcomes && HasNoRow(w.s, id)
  }

  function Next(w: World, e: Event, limits: Limits): World {
    match e
    case Tick(span) => w.(now := w.now + span)
    case Count(plan, startedAt) =>
      if IsNew(w, plan.id) && startedAt <= w.now && |w.flights| < limits.atOnce && |ActiveTrials(w.s.trials, startedAt)| < limits.maxActive
      then w.(flights := w.flights[plan.id := Counted(plan, startedAt)]) else w
    case Drop(id) => if id in w.flights && w.flights[id].Counted? then w.(flights := w.flights - {id}) else w
    case CreateUser(id, user) =>
      if id in w.flights && w.flights[id].Counted? && user !in w.issued
      then w.(flights := w.flights[id := Provisioned(w.flights[id].plan, w.flights[id].startedAt, user)],
              mailboxes := w.mailboxes + {user}, issued := w.issued + {user})
      else w
    case CreateUnnamed(id, made) =>
      if id in w.flights && w.flights[id].Counted?
      then w.(flights := w.flights - {id}, unnamed := w.unnamed + if made then 1 else 0) else w
    case CommitRows(id) =>
      if id in w.flights && w.flights[id].Provisioned?
      then w.(s := WithRows(w.s, w.flights[id].plan, w.flights[id].startedAt, w.flights[id].user),
              flights := w.flights - {id}, outcomes := w.outcomes[id := KeptRows(w.flights[id].user)])
      else w
    case FailRows(id) =>
      if id in w.flights && w.flights[id].Provisioned?
      then w.(flights := w.flights[id := Failing(w.flights[id].plan, w.flights[id].user)]) else w
    case DeleteUser(id) =>
      if id in w.flights && w.flights[id].Failing?
      then w.(flights := w.flights - {id}, outcomes := w.outcomes[id := DeletedMailbox(w.flights[id].user)],
              mailboxes := w.mailboxes - {w.flights[id].user})
      else w
    case FailDelete(id, mailboxGone) =>
      if id in w.flights && w.flights[id].Failing?
      then w.(flights := w.flights - {id}, outcomes := w.outcomes[id := RaisedAggregate(w.flights[id].user, mailboxGone)],
              mailboxes := if mailboxGone then w.mailboxes - {w.flights[id].user} else w.mailboxes)
      else w
    case Settle(id, status) =>
      if id in w.s.trials && status != TrialActive
      then w.(s := w.s.(trials := w.s.trials[id := w.s.trials[id].(status := status)])) else w
  }

  function Run(w: World, events: seq<Event>, limits: Limits): World
    decreases |events|
  {
    if events == [] then w else Run(Next(w, events[0], limits), events[1..], limits)
  }

  predicate FlightsCarryTheirIds(w: World) {
    forall id :: id in w.flights ==> w.flights[id].plan.id == id
  }

  // --- capacity ------------------------------------------------------------------------------------------------

  lemma SubsetSize<T>(a: set<T>, b: set<T>)
    requires a <= b
    ensures |a| <= |b|
  {
    assert b == a + (b - a);
  }

  lemma OneMoreSize<T>(a: set<T>, b: set<T>, x: T)
    requires a <= b + {x}
    ensures |a| <= |b| + 1
  {
    SubsetSize(a, b + {x});
  }

  lemma FlightsSize(flights: map<string, Flight>, id: string)
    requires id in flights
    ensures |flights - {id}| == |flights| - 1
  {
    assert (flights - {id}).Keys == flights.Keys - {id};
    assert |flights.Keys| == |flights| && |(flights - {id}).Keys| == |flights - {id}|;
  }

  /** Active trials and starts in flight together. */
  function Load(w: World): nat {
    |ActiveTrials(w.s.trials, w.now)| + |w.flights|
  }

  predicate WithinLoad(w: World, limits: Limits) {
    FlightsCarryTheirIds(w) && Load(w) <= limits.maxActive + limits.atOnce - 1
  }

  lemma FlightEnds(w: World, next: World, id: string)
    requires id in w.flights && next.flights == w.flights - {id}
    requires ActiveTrials(next.s.trials, next.now) <= ActiveTrials(w.s.trials, w.now) + {id}
    ensures Load(next) <= Load(w)
  {
    FlightsSize(w.flights, id);
    OneMoreSize(ActiveTrials(next.s.trials, next.now), ActiveTrials(w.s.trials, w.now), id);
  }

  lemma FlightsStay(w: World, next: World)
    requires next.flights.Keys == w.flights.Keys
    requires ActiveTrials(next.s.trials, next.now) <= ActiveTrials(w.s.trials, w.now)
    ensures Load(next) <= Load(w)
  {
    assert |next.flights| == |next.flights.Keys| && |w.flights| == |w.flights.Keys|;
    SubsetSize(ActiveTrials(next.s.trials, next.now), ActiveTrials(w.s.trials, w.now));
  }

  lemma OneMoreFlight(flights: map<string, Flight>, id: string, flight: Flight)
    requires id !in flights
    ensures |flights[id := flight]| == |flights| + 1
  {
    var more := flights[id := flight];
    assert more.Keys == flights.Keys + {id};
    assert |more| == |more.Keys| && |flights| == |flights.Keys|;
  }

  lemma FlightBegins(w: World, plan: Plan, startedAt: Time, limits: Limits)
    requires limits.atOnce >= 1 && WithinLoad(w, limits)
    ensures WithinLoad(Next(w, Count(plan, startedAt), limits), limits)
  {
    var next := Next(w, Count(plan, startedAt), limits);
    if next != w {
      SubsetSize(ActiveTrials(w.s.trials, w.now), ActiveTrials(w.s.trials, startedAt));
      OneMoreFlight(w.flights, plan.id, Counted(plan, startedAt));
    }
  }

  /** A step other than a count ends a flight, or leaves flights and active trials as they are or fewer. */
  lemma FlightCommits(w: World, id: string, limits: Limits)
    requires FlightsCarryTheirIds(w)
    ensures Load(Next(w, CommitRows(id), limits)) <= Load(w)
  {
    var next := Next(w, CommitRows(id), limits);
    if next != w {
      FlightEnds(w, next, id);
    }
  }

  lemma StepAddsNoLoad(w: World, e: Event, limits: Limits)
    requires FlightsCarryTheirIds(w) && !e.Count?
    ensures Load(Next(w, e, limits)) <= Load(w)
  {
    var next := Next(w, e, limits);
    if next != w {
      match e
      case Tick(_) => FlightsStay(w, next);
      case Settle(_, _) => FlightsStay(w, next);
      case CreateUser(_, _) => FlightsStay(w, next);
      case FailRows(_) => FlightsStay(w, next);
      case CommitRows(id) => FlightCommits(w, id, limits);
      case Drop(id) => FlightEnds(w, next, id);
      case CreateUnnamed(id, _) => FlightEnds(w, next, id);
      case DeleteUser(id) => FlightEnds(w, next, id);
      case FailDelete(id, _) => FlightEnds(w, next, id);
    }
  }

  lemma FlightsKeepTheirIds(w: World, e: Event, limits: Limits)
    requires FlightsCarryTheirIds(w)
    ensures FlightsCarryTheirIds(Next(w, e, limits))
  {
  }

  lemma StepStaysWithinLoad(w: World, e: Event, limits: Limits)
    requires WithinLoad(w, limits) && limits.atOnce >= 1
    ensures WithinLoad(Next(w, e, limits), limits)
  {
    if e.Count? {
      FlightBegins(w, e.plan, e.startedAt, limits);
    } else {
      StepAddsNoLoad(w, e, limits);
      FlightsKeepTheirIds(w, e, limits);
    }
  }

  lemma {:induction false} RunStaysWithinLoad(w: World, events: seq<Event>, limits: Limits)
    requires WithinLoad(w, limits) && limits.atOnce >= 1
    ensures WithinLoad(Run(w, events, limits), limits)
    decreases |events|
  {
    if events != [] {
      StepStaysWithinLoad(w, events[0], limits);
      RunStaysWithinLoad(Next(w, events[0], limits), events[1..], limits);
    }
  }

  /**
   * In every run with at most `atOnce` starts past their count at a time, the active unexpired
   * trials never exceed the limit by more than `atOnce - 1`; one at a time, they never exceed it.
   */
  lemma CapacityHoldsUnderRaces(w: World, events: seq<Event>, limits: Limits)
    requires w.flights == map[] && |ActiveTrials(w.s.trials, w.now)| <= limits.maxActive && limits.atOnce >= 1
    ensures var last := Run(w, events, limits);
            && |ActiveTrials(last.s.trials, last.now)| <= limits.maxActive + limits.atOnce - 1
            && (limits.atOnce == 1 ==> |ActiveTrials(last.s.trials, last.now)| <= limits.maxActive)
  {
    RunStaysWithinLoad(w, events, limits);
  }

  // --- the bound is reached --------------------------------------------------------------------------------------

  const EMPTY := World(NO_TRIALS, 0, map[], map[], {}, {}, 0)

  /** Distinct ids for as many starts as one likes. */
  function Name(n: nat): string {
    seq(n, _ => 'x')
  }

  function SomePlan(n: nat): Plan {
    Plan(Name(n), [], [], "", "", 1, 1)
  }

  function CountOf(n: nat): Event {
    Count(SomePlan(n), 0)
  }

  lemma NamesDiffer(m: nat, n: nat)
    ensures Name(m) == Name(n) <==> m == n
  {
    assert |Name(m)| == m && |Name(n)| == n;
  }

  /** So many trials are active, starts `started` to `counted` - 1 are in flight, later ids are new. */
  ghost predicate Reached(w: World, started: nat, counted: nat) {
    && started <= counted && w.now == 0
    && |ActiveTrials(w.s.trials, 0)| == started && |w.flights| == counted - started
    && (forall n: nat :: started <= n < counted ==> Name(n) in w.flights && w.flights[Name(n)] == Counted(SomePlan(n), 0))
    && (forall n: nat :: counted <= n ==> IsNew(w, Name(n)))
    && (forall n: nat :: started <= n ==> Name(n) !in w.issued && Name(n) !in w.s.trials)
  }

  lemma CountOneMore(w: World, started: nat, counted: nat, limits: Limits)
    requires Reached(w, started, counted) && started < limits.maxActive && counted - started < limits.atOnce
    ensures Reached(Next(w, CountOf(counted), limits), started, counted + 1)
  {
    assert IsNew(w, Name(counted));
    var next := Next(w, CountOf(counted), limits);
    assert next == w.(flights := w.flights[Name(counted) := Counted(SomePlan(counted), 0)]);
    OneMoreFlight(w.flights, Name(counted), Counted(SomePlan(counted), 0));
    forall n: nat | started <= n < counted + 1 ensures Name(n) in next.flights && next.flights[Name(n)] == Counted(SomePlan(n), 0) {
      NamesDiffer(n, counted);
    }
    forall n: nat | counted + 1 <= n ensures IsNew(next, Name(n)) {
      NamesDiffer(n, counted);
      assert IsNew(w, Name(n));
    }
  }

  function Finish(n: nat): seq<Event> {
    [CreateUser(Name(n), Name(n)), CommitRows(Name(n))]
  }

  /** The rows of an active trial that has no capabilities touch no other id. */
  lemma RowsOfOne(s: TrialState, n: nat, m: nat)
    requires m != n && HasNoRow(s, Name(m))
    ensures HasNoRow(WithRows(s, SomePlan(n), 0, Name(n)), Name(m))
  {
    NamesDiffer(n, m);
    assert GrantRows(SomePlan(n), 0, 0) == map[];
  }

  lemma FinishedFlight(w: World, n: nat, limits: Limits)
    requires Name(n) in w.flights && w.flights[Name(n)] == Counted(SomePlan(n), 0) && Name(n) !in w.issued
    ensures var done := Run(w, Finish(n), limits);
            && done.s == WithRows(w.s, SomePlan(n), 0, Name(n)) && done.flights == w.flights - {Name(n)}
            && done.issued == w.issued + {Name(n)} && done.now == w.now && done.outcomes == w.outcomes[Name(n) := KeptRows(Name(n))]
  {
    var id := Name(n);
    var made := Next(w, CreateUser(id, id), limits);
    var done := Next(made, CommitRows(id), limits);
    assert Finish(n)[1..] == [CommitRows(id)] && [CommitRows(id)][1..] == [];
    assert Run(made, [CommitRows(id)], limits) == Run(done, [], limits) == done;
    assert made.flights - {id} == w.flights - {id};
  }

  lemma FinishOne(w: World, started: nat, counted: nat, limits: Limits)
    requires Reached(w, started, counted) && started < counted
    ensures Reached(Run(w, Finish(started), limits), started + 1, counted)
  {
    var id, done := Name(started), Run(w, Finish(started), limits);
    FinishedFlight(w, started, limits);
    FlightsSize(w.flights, id);
    FinishedIsActive(w, started, counted, limits);
    forall n: nat | started + 1 <= n ensures Name(n) != id {
      NamesDiffer(n, started);
    }
    OthersStayNew(w, started, counted, limits);
  }

  lemma FinishedIsActive(w: World, started: nat, counted: nat, limits: Limits)
    requires Reached(w, started, counted) && started < counted
    ensures |ActiveTrials(Run(w, Finish(started), limits).s.trials, 0)| == started + 1
  {
    FinishedFlight(w, started, limits);
    assert ActiveTrials(Run(w, Finish(started), limits).s.trials, 0) == ActiveTrials(w.s.trials, 0) + {Name(started)};
  }

  lemma OthersStayNew(w: World, started: nat, counted: nat, limits: Limits)
    requires Reached(w, started, counted) && started < counted
    ensures forall n: nat :: counted <= n ==> IsNew(Run(w, Finish(started), limits), Name(n))
  {
    FinishedFlight(w, started, limits);
    forall n: nat | counted <= n ensures IsNew(Run(w, Finish(started), limits), Name(n)) {
      assert IsNew(w, Name(n));
      RowsOfOne(w.s, started, n);
      NamesDiffer(n, started);
    }
  }

  lemma {:induction false} RunJoined(w: World, one: seq<Event>, two: seq<Event>, limits: Limits)
    ensures Run(w, one + two, limits) == Run(Run(w, one, limits), two, limits)
    decreases |one|
  {
    if one == [] {
      assert one + two == two;
    } else {
      assert (one + two)[0] == one[0] && (one + two)[1..] == one[1..] + two;
      RunJoined(Next(w, one[0], limits), one[1..], two, limits);
    }
  }

  lemma {:induction false} FillOneAtATime(limits: Limits, count: nat) returns (events: seq<Event>)
    requires limits.atOnce >= 1 && count <= limits.maxActive
    ensures Reached(Run(EMPTY, events, limits), count, count)
  {
    events := [];
    if count > 0 {
      var before := FillOneAtATime(limits, count - 1);
      var w := Run(EMPTY, before, limits);
      CountOneMore(w, count - 1, count - 1, limits);
      FinishOne(Next(w, CountOf(count - 1), limits), count - 1, count, limits);
      var more := [CountOf(count - 1)] + Finish(count - 1);
      assert more[1..] == Finish(count - 1);
      RunJoined(EMPTY, before, more, limits);
      events := before + more;
    } else {
      NothingReached();
    }
  }

  lemma NothingReached()
    ensures Reached(EMPTY, 0, 0)
  {
    assert ActiveTrials(map[], 0) == {};
  }

  lemma {:induction false} CountMany(w: World, started: nat, counted: nat, more: nat, limits: Limits) returns (events: seq<Event>)
    requires Reached(w, started, counted) && started < limits.maxActive && counted + more - started <= limits.atOnce
    ensures Reached(Run(w, events, limits), started, counted + more)
    decreases more
  {
    events := [];
    if more > 0 {
      CountOneMore(w, started, counted, limits);
      var rest := CountMany(Next(w, CountOf(counted), limits), started, counted + 1, more - 1, limits);
      events := [CountOf(counted)] + rest;
      assert events[1..] == rest;
    }
  }

  lemma {:induction false} FinishAll(w: World, started: nat, counted: nat, limits: Limits) returns (events: seq<Event>)
    requires Reached(w, started, counted)
    ensures Reached(Run(w, events, limits), counted, counted)
    decreases counted - started
  {
    events := [];
    if started < counted {
      FinishOne(w, started, counted, limits);
      var rest := FinishAll(Run(w, Finish(started), limits), started + 1, counted, limits);
      events := Finish(started) + rest;
      RunJoined(w, Finish(started), rest, limits);
    }
  }

  /** The bound is exact: with `atOnce` starts racing, some run ends with the limit exceeded by `atOnce - 1`. */
  lemma CapacityBoundIsReached(limits: Limits) returns (events: seq<Event>)
    requires limits.maxActive >= 1 && limits.atOnce >= 1
    ensures var last := Run(EMPTY, events, limits);
            |ActiveTrials(last.s.trials, last.now)| == limits.maxActive + limits.atOnce - 1
  {
    var started := limits.maxActive - 1;
    var fill := FillOneAtATime(limits, started);
    var filled := Run(EMPTY, fill, limits);
    var count := CountMany(filled, started, started, limits.atOnce, limits);
    var counted := Run(filled, count, limits);
    var finish := FinishAll(counted, started, started + limits.atOnce, limits);
    events := fill + (count + finish);
    RunJoined(EMPTY, fill, count + finish, limits);
    RunJoined(filled, count, finish, limits);
  }

  // --- nothing leaks silently ------------------------------------------------------------------------------------

  /** The mailbox user a start was given, while in flight or after its end. */
  function UserOf(w: World, id: string): Option<string> {
    if id in w.flights then
      (match w.flights[id]
       case Counted(_, _) => None
       case Provisioned(_, _, user) => Some(user)
       case Failing(_, user) => Some(user))
    else if id in w.outcomes then Some(w.outcomes[id].user)
    else None
  }

  /** Starts whose mailbox the mail server still has. */
  predicate StillHas(w: World, id: string) {
    UserOf(w, id).Some? && (id in w.outcomes ==> w.outcomes[id].KeptRows? || (w.outcomes[id].RaisedAggregate? && !w.outcomes[id].mailboxGone))
  }

  /** Every start has its own mailbox user; the mail server has those, and the ones it had before, and no others. */
  predicate MailboxesAccounted(w: World, before: set<string>) {
    && w.flights.Keys !! w.outcomes.Keys
    && before <= w.issued && w.mailboxes <= w.issued
    && (forall id :: id in w.flights.Keys + w.outcomes.Keys && UserOf(w, id).Some? ==>
          && UserOf(w, id).value in w.issued && UserOf(w, id).value !in before
          && (UserOf(w, id).value in w.mailboxes <==> StillHas(w, id)))
    && (forall id, other :: id in w.flights.Keys + w.outcomes.Keys && other in w.flights.Keys + w.outcomes.Keys ==>
          (UserOf(w, id).Some? && UserOf(w, id) == UserOf(w, other) ==> id == other))
    && (forall user :: user in w.mailboxes && user !in before ==>
          exists id :: id in w.flights.Keys + w.outcomes.Keys && UserOf(w, id) == Some(user))
  }

  /** A start has all its rows once it has kept them, and none otherwise. */
  predicate RowsAccounted(w: World) {
    && FlightsCarryTheirIds(w)
    && (forall id :: id in w.flights ==> HasNoRow(w.s, id))
    && forall id :: id in w.outcomes ==>
         if w.outcomes[id].KeptRows? then HasAllRows(w.s, id) && w.s.trials[id].mailboxUser == w.outcomes[id].user
         else HasNoRow(w.s, id)
  }

  lemma CommitKeepsRows(w: World, id: string, limits: Limits)
    requires RowsAccounted(w) && w.flights.Keys !! w.outcomes.Keys && id in w.flights && w.flights[id].Provisioned?
    ensures RowsAccounted(Next(w, CommitRows(id), limits))
  {
    var plan, startedAt, user := w.flights[id].plan, w.flights[id].startedAt, w.flights[id].user;
    var next := Next(w, CommitRows(id), limits);
    forall other | other != id && HasNoRow(w.s, other) ensures HasNoRow(next.s, other) {
    }
    forall other | other != id && HasAllRows(w.s, other) ensures HasAllRows(next.s, other) && next.s.trials[other] == w.s.trials[other] {
    }
    assert HasAllRows(next.s, id) && next.s.trials[id].mailboxUser == user;
  }

  lemma SettleKeepsRows(w: World, id: string, status: TrialStatus, limits: Limits)
    requires RowsAccounted(w)
    ensures RowsAccounted(Next(w, Settle(id, status), limits))
  {
    var next := Next(w, Settle(id, status), limits);
    assert next.s.trials.Keys == w.s.trials.Keys;
    assert forall other :: HasNoRow(next.s, other) <==> HasNoRow(w.s, other);
  }

  lemma StepKeepsRows(w: World, e: Event, limits: Limits)
    requires RowsAccounted(w) && w.flights.Keys !! w.outcomes.Keys
    ensures RowsAccounted(Next(w, e, limits))
  {
    var next := Next(w, e, limits);
    if next != w {
      match e
      case CommitRows(id) => CommitKeepsRows(w, id, limits);
      case Settle(id, status) => SettleKeepsRows(w, id, status, limits);
      case _ => assert next.s == w.s;
    }
  }

  /** Where the flights and outcomes of a step differ, only one start's own entry does. */
  ghost predicate OnlyChanges(w: World, next: World, id: string) {
    forall other :: other != id ==>
      && (other in next.flights <==> other in w.flights) && (other in w.flights ==> next.flights[other] == w.flights[other])
      && (other in next.outcomes <==> other in w.outcomes) && (other in w.outcomes ==> next.outcomes[other] == w.outcomes[other])
  }

  lemma OthersKeepUsers(w: World, next: World, id: string, other: string)
    requires OnlyChanges(w, next, id) && other != id
    ensures UserOf(next, other) == UserOf(w, other) && (StillHas(next, other) <==> StillHas(w, other))
  {
  }

  /** A start moves on with the user it has: the mail server keeps the mailbox exactly while the start still counts it. */
  lemma StartMovesOn(w: World, next: World, id: string, before: set<string>)
    requires MailboxesAccounted(w, before) && OnlyChanges(w, next, id)
    requires id in w.flights && UserOf(w, id).Some? && UserOf(next, id) == UserOf(w, id)
    requires next.flights.Keys !! next.outcomes.Keys && id in next.flights.Keys + next.outcomes.Keys
    requires next.issued == w.issued
    requires next.mailboxes == if StillHas(next, id) then w.mailboxes else w.mailboxes - {UserOf(w, id).value}
    ensures MailboxesAccounted(next, before)
  {
    forall other | other != id ensures UserOf(next, other) == UserOf(w, other) && (StillHas(next, other) <==> StillHas(w, other)) {
      OthersKeepUsers(w, next, id, other);
    }
    forall user | user in next.mailboxes && user !in before
      ensures exists other :: other in next.flights.Keys + next.outcomes.Keys && UserOf(next, other) == Some(user)
    {
      var other :| other in w.flights.Keys + w.outcomes.Keys && UserOf(w, other) == Some(user);
      assert UserOf(next, other) == Some(user);
    }
  }

  lemma StartIsGivenUser(w: World, next: World, id: string, user: string, before: set<string>)
    requires MailboxesAccounted(w, before) && OnlyChanges(w, next, id)
    requires id in w.flights && UserOf(w, id).None? && user !in w.issued
    requires next.flights.Keys == w.flights.Keys && next.outcomes == w.outcomes && UserOf(next, id) == Some(user)
    requires next.issued == w.issued + {user} && next.mailboxes == w.mailboxes + {user}
    ensures MailboxesAccounted(next, before)
  {
    forall other | other != id ensures UserOf(next, other) == UserOf(w, other) && (StillHas(next, other) <==> StillHas(w, other)) {
      OthersKeepUsers(w, next, id, other);
    }
    forall u | u in next.mailboxes && u !in before
      ensures exists other :: other in next.flights.Keys + next.outcomes.Keys && UserOf(next, other) == Some(u)
    {
      if u == user {
        assert UserOf(next, id) == Some(u);
      } else {
        var other :| other in w.flights.Keys + w.outcomes.Keys && UserOf(w, other) == Some(u);
        assert UserOf(next, other) == Some(u);
      }
    }
  }

  /** A start without a user comes or goes. */
  lemma StartWithoutUser(w: World, next: World, id: string, before: set<string>)
    requires MailboxesAccounted(w, before) && OnlyChanges(w, next, id)
    requires UserOf(w, id).None? && UserOf(next, id).None? && next.outcomes == w.outcomes && next.flights.Keys !! next.outcomes.Keys
    requires next.issued == w.issued && next.mailboxes == w.mailboxes
    ensures MailboxesAccounted(next, before)
  {
    forall other | other != id ensures UserOf(next, other) == UserOf(w, other) && (StillHas(next, other) <==> StillHas(w, other)) {
      OthersKeepUsers(w, next, id, other);
    }
    forall user | user in next.mailboxes && user !in before
      ensures exists other :: other in next.flights.Keys + next.outcomes.Keys && UserOf(next, other) == Some(user)
    {
      var other :| other in w.flights.Keys + w.outcomes.Keys && UserOf(w, other) == Some(user);
      assert other != id && UserOf(next, other) == Some(user);
    }
  }

  lemma UserlessStep(w: World, e: Event, limits: Limits, before: set<string>)
    requires MailboxesAccounted(w, before) && (e.Count? || e.Drop? || e.CreateUnnamed?)
    ensures MailboxesAccounted(Next(w, e, limits), before)
  {
    var next := Next(w, e, limits);
    if next != w {
      var id := if e.Count? then e.plan.id else e.id;
      StartWithoutUser(w, next, id, before);
    }
  }

  lemma DeletionMovesOn(w: World, e: Event, limits: Limits, before: set<string>)
    requires MailboxesAccounted(w, before) && (e.DeleteUser? || e.FailDelete?) && Next(w, e, limits) != w
    requires UserOf(w, e.id).Some? && UserOf(w, e.id).value in w.mailboxes
    ensures MailboxesAccounted(Next(w, e, limits), before)
  {
    StartMovesOn(w, Next(w, e, limits), e.id, before);
  }

  lemma UserStep(w: World, e: Event, limits: Limits, before: set<string>)
    requires MailboxesAccounted(w, before) && (e.CommitRows? || e.FailRows? || e.DeleteUser? || e.FailDelete?)
    ensures MailboxesAccounted(Next(w, e, limits), before)
  {
    var next := Next(w, e, limits);
    if next != w {
      assert UserOf(w, e.id).Some? && UserOf(w, e.id).value in w.mailboxes;
      if e.CommitRows? || e.FailRows? {
        StartMovesOn(w, next, e.id, before);
      } else {
        DeletionMovesOn(w, e, limits, before);
      }
    }
  }

  lemma StepKeepsMailboxes(w: World, e: Event, limits: Limits, before: set<string>)
    requires MailboxesAccounted(w, before)
    ensures MailboxesAccounted(Next(w, e, limits), before)
  {
    var next := Next(w, e, limits);
    if e.Tick? || e.Settle? {
      OnlyStoreChanges(w, next, before);
    } else if e.Count? || e.Drop? || e.CreateUnnamed? {
      UserlessStep(w, e, limits, before);
    } else if e.CreateUser? {
      if next != w {
        StartIsGivenUser(w, next, e.id, e.user, before);
      }
    } else {
      UserStep(w, e, limits, before);
    }
  }

  lemma OnlyStoreChanges(w: World, next: World, before: set<string>)
    requires MailboxesAccounted(w, before)
    requires next == w.(s := next.s, now := next.now)
    ensures MailboxesAccounted(next, before)
  {
    forall id ensures UserOf(next, id) == UserOf(w, id) && (StillHas(next, id) <==> StillHas(w, id)) {
    }
  }

  lemma {:induction false} RunKeepsAccounts(w: World, events: seq<Event>, limits: Limits, before: set<string>)
    requires MailboxesAccounted(w, before) && RowsAccounted(w)
    ensures MailboxesAccounted(Run(w, events, limits), before) && RowsAccounted(Run(w, events, limits))
    decreases |events|
  {
    if events != [] {
      StepKeepsMailboxes(w, events[0], limits, before);
      StepKeepsRows(w, events[0], limits);
      RunKeepsAccounts(Next(w, events[0], limits), events[1..], limits, before);
    }
  }

  /** Starts that raised the aggregate error, and those of them whose mailbox was gone all the same. */
  function Aggregates(w: World): set<string> {
    set id | id in w.outcomes && w.outcomes[id].RaisedAggregate?
  }

  function GoneAnyway(w: World): set<string> {
    set id | id in w.outcomes && w.outcomes[id].RaisedAggregate? && w.outcomes[id].mailboxGone
  }

  /** New mailboxes that belong to no trial and to no start in flight. */
  function Leaked(w: World, before: set<string>): set<string> {
    set user | user in w.mailboxes && user !in before
               && (forall id :: id in w.flights ==> UserOf(w, id) != Some(user))
               && (forall id :: id in w.outcomes && w.outcomes[id].KeptRows? ==> w.outcomes[id].user != user)
  }

  lemma {:induction false} SizeOfUsers(w: World, ids: set<string>)
    requires ids <= w.outcomes.Keys
    requires forall id, other :: id in ids && other in ids && w.outcomes[id].user == w.outcomes[other].user ==> id == other
    ensures |set id | id in ids :: w.outcomes[id].user| == |ids|
    decreases |ids|
  {
    if ids == {} {
      assert (set id | id in ids :: w.outcomes[id].user) == {};
    } else {
      var x :| x in ids;
      var rest := ids - {x};
      SizeOfUsers(w, rest);
      assert (set id | id in ids :: w.outcomes[id].user) == (set id | id in rest :: w.outcomes[id].user) + {w.outcomes[x].user};
    }
  }

  lemma LeakedAreRaised(w: World, before: set<string>)
    requires MailboxesAccounted(w, before)
    ensures Leaked(w, before) == set id | id in Aggregates(w) - GoneAnyway(w) :: w.outcomes[id].user
    ensures |Leaked(w, before)| == |Aggregates(w)| - |GoneAnyway(w)|
  {
    var raised := Aggregates(w) - GoneAnyway(w);
    forall user ensures user in Leaked(w, before) <==> user in set id | id in raised :: w.outcomes[id].user {
      if user in Leaked(w, before) {
        var id :| id in w.flights.Keys + w.outcomes.Keys && UserOf(w, id) == Some(user);
        assert StillHas(w, id) && id in raised;
      }
      if id :| id in raised && w.outcomes[id].user == user {
        assert UserOf(w, id) == Some(user) && StillHas(w, id);
        assert forall other :: other in w.flights.Keys + w.outcomes.Keys && UserOf(w, other) == Some(user) ==> other == id;
      }
    }
    forall id, other | id in raised && other in raised && w.outcomes[id].user == w.outcomes[other].user ensures id == other {
      assert UserOf(w, id) == UserOf(w, other);
    }
    SizeOfUsers(w, raised);
    assert GoneAnyway(w) <= Aggregates(w);
  }

  /**
   * Over every run, each start that was given a mailbox user and has ended either kept the mailbox
   * and all its rows, or has no row and no mailbox, or has no row and raised the aggregate error.
   * Mailboxes that leak are therefore counted by those errors, less the deletions that worked
   * although they were reported as failed.
   */
  lemma NothingLeaksSilently(w: World, events: seq<Event>, limits: Limits)
    requires w.flights == map[] && w.outcomes == map[] && w.mailboxes <= w.issued
    ensures var last := Run(w, events, limits);
            && (forall id :: id in last.outcomes ==>
                  match last.outcomes[id]
                  case KeptRows(user) => HasAllRows(last.s, id) && last.s.trials[id].mailboxUser == user && user in last.mailboxes
                  case DeletedMailbox(user) => HasNoRow(last.s, id) && user !in last.mailboxes
                  case RaisedAggregate(user, gone) => HasNoRow(last.s, id) && (user in last.mailboxes <==> !gone))
            && |Leaked(last, w.mailboxes)| == |Aggregates(last)| - |GoneAnyway(last)|
            && (|Leaked(last, w.mailboxes)| == |Aggregates(last)| <==> GoneAnyway(last) == {})
  {
    RunKeepsAccounts(w, events, limits, w.mailboxes);
    var last := Run(w, events, limits);
    LeakedAreRaised(last, w.mailboxes);
    forall id | id in last.outcomes ensures UserOf(last, id) == Some(last.outcomes[id].user) {
    }
  }
}
