/** Enrollment grant requests: created pending, and applied, expired or revoked under concurrency. */
module Enrollment {
  import opened Wrappers
  import opened Capabilities
  import opened Grants
  import opened GrantWrites
  import opened Authorization
  import RecipientPolicy

  // --- what applying a request writes ---------------------------------------------------------------------

  function RequestedMailboxKeys(r: EnrollmentRequest, agent: string): set<MailboxKey> {
    set i, j | 0 <= i < |r.mailboxGrants| && 0 <= j < |r.mailboxGrants[i].grants| ::
      MailboxKey(r.org, r.mailboxGrants[i].mailbox, Principal(AgentPrincipal, agent), r.mailboxGrants[i].grants[j])
  }

  function RequestedSystemKeys(r: EnrollmentRequest, agent: string): set<SystemKey> {
    set i | 0 <= i < |r.permissions| :: SystemKey(r.org, Principal(AgentPrincipal, agent), r.permissions[i])
  }

  function Upserted<K>(table: map<K, GrantState>, keys: set<K>, expiresAt: Option<Time>): map<K, GrantState> {
    map k | k in table.Keys + keys :: if k in keys then Activated(expiresAt) else table[k]
  }

  /** The state after the request's grants were written for the agent and the request marked applied. */
  function Applied(s: State, id: string, r: EnrollmentRequest, agent: string): State {
    s.(mailbox := Upserted(s.mailbox, RequestedMailboxKeys(r, agent), r.expiresAt),
       system := Upserted(s.system, RequestedSystemKeys(r, agent), r.expiresAt),
       requests := s.requests[id := r.(status := RequestApplied, appliedAgent := Some(agent))])
  }

  predicate IsPending(s: State, id: string) {
    id in s.requests && s.requests[id].status == RequestPending
  }

  datatype Outcome = WasApplied | WasExpired | WasMissing

  /** What one apply does to a state in which it commits, from the copy of the request it read. */
  function ApplyCommit(s: State, id: string, r: EnrollmentRequest, agent: string, now: Time): (State, Outcome) {
    if !Unexpired(r.expiresAt, now) then
      (if IsPending(s, id) then s.(requests := s.requests[id := s.requests[id].(status := RequestExpired)]) else s, WasExpired)
    else if agent !in s.agents || s.agents[agent].host != r.host then (s, WasMissing)
    else if !IsPending(s, id) then (s, WasMissing)
    else (Applied(s, id, r, agent), WasApplied)
  }

  function WithdrawnRequest(s: State, id: string): State {
    if IsPending(s, id) then
      var host := s.requests[id].host;
      s.(requests := s.requests[id := s.requests[id].(status := RequestRevoked)],
         hosts := if host in s.hosts && s.hosts[host].status == HostPendingEnrollment
                  then s.hosts[host := s.hosts[host].(status := HostRevoked)] else s.hosts)
    else s
  }

  // --- the operation on the store --------------------------------------------------------------------------

  function Listed<T>(list: seq<T>): set<T> {
    set x | x in list
  }

  function KeysUpTo(r: EnrollmentRequest, agent: string, n: nat): set<MailboxKey>
    requires n <= |r.mailboxGrants|
  {
    RequestedMailboxKeys(r.(mailboxGrants := r.mailboxGrants[..n]), agent)
  }

  /** The upserts of one entry of the request, each capability once. */
  method WriteMailboxRequest(db: Database, r: EnrollmentRequest, n: nat, agent: string)
    requires n < |r.mailboxGrants|
    modifies db
    ensures db.Snapshot() == old(db.Snapshot()).(
              mailbox := Upserted(old(db.mailbox), Listed(Keyed(r, n, agent)), r.expiresAt))
  {
    ghost var s := db.Snapshot();
    var keys := Keyed(r, n, agent);
    var written: set<MailboxKey> := {};
    assert Upserted(s.mailbox, {}, r.expiresAt) == s.mailbox;
    for j := 0 to |keys|
      invariant written == Listed(keys[..j])
      invariant db.Snapshot() == s.(mailbox := Upserted(s.mailbox, written, r.expiresAt))
    {
      assert keys[..j + 1] == keys[..j] + [keys[j]];
      if keys[j] !in written {
        db.Execute(ActivateMailbox(keys[j], r.expiresAt));
        OneMoreUpserted(s.mailbox, written, keys[j], r.expiresAt);
      }
      written := written + {keys[j]};
    }
    assert keys[..|keys|] == keys;
  }

  function Keyed(r: EnrollmentRequest, n: nat, agent: string): seq<MailboxKey>
    requires n < |r.mailboxGrants|
  {
    var entry := r.mailboxGrants[n];
    seq(|entry.grants|, j requires 0 <= j < |entry.grants| => MailboxKey(r.org, entry.mailbox, Principal(AgentPrincipal, agent), entry.grants[j]))
  }

  lemma KeysOneMore(r: EnrollmentRequest, agent: string, n: nat)
    requires n < |r.mailboxGrants|
    ensures KeysUpTo(r, agent, n + 1) == KeysUpTo(r, agent, n) + Listed(Keyed(r, n, agent))
  {
    var before, after := r.mailboxGrants[..n], r.mailboxGrants[..n + 1];
    forall k ensures k in KeysUpTo(r, agent, n + 1) <==> k in KeysUpTo(r, agent, n) + Listed(Keyed(r, n, agent)) {
      if k in KeysUpTo(r, agent, n) {
        var i, j :| 0 <= i < |before| && 0 <= j < |before[i].grants|
                    && k == MailboxKey(r.org, before[i].mailbox, Principal(AgentPrincipal, agent), before[i].grants[j]);
        assert after[i] == before[i];
      }
      if k in Keyed(r, n, agent) {
        var j :| 0 <= j < |Keyed(r, n, agent)| && Keyed(r, n, agent)[j] == k;
        assert after[n] == r.mailboxGrants[n];
      }
      if k in KeysUpTo(r, agent, n + 1) {
        var i, j :| 0 <= i < |after| && 0 <= j < |after[i].grants|
                    && k == MailboxKey(r.org, after[i].mailbox, Principal(AgentPrincipal, agent), after[i].grants[j]);
        if i < n {
          assert before[i] == after[i];
        } else {
          assert Keyed(r, n, agent)[j] == k;
        }
      }
    }
  }

  /**
   * One transaction: claims the request by compare-and-set and upserts exactly its grants, or
   * marks it expired, or leaves everything as it was.
   */
  method ApplyForAgent(db: Database, id: string, agent: string, now: Time) returns (outcome: Outcome)
    modifies db
    ensures var s := old(db.Snapshot());
            if !IsPending(s, id) then outcome == WasMissing && db.Snapshot() == s
            else (db.Snapshot(), outcome) == ApplyCommit(s, id, s.requests[id], agent, now)
  {
    if id !in db.requests || db.requests[id].status != RequestPending {
      return WasMissing;
    }
    var r := db.requests[id];
    if !Unexpired(r.expiresAt, now) {
      db.requests := db.requests[id := r.(status := RequestExpired)];
      return WasExpired;
    }
    if agent !in db.agents || db.agents[agent].host != r.host {
      return WasMissing;
    }
    ghost var s := db.Snapshot();
    WriteRequestedGrants(db, r, agent);
    db.requests := db.requests[id := r.(status := RequestApplied, appliedAgent := Some(agent))];
    return WasApplied;
  }

  /** The request is looked up by host: any pending one of that host, or none. */
  method ApplyForHost(db: Database, host: string, agent: string, now: Time) returns (outcome: Outcome)
    modifies db
    ensures var s := old(db.Snapshot());
            if forall id :: IsPending(s, id) ==> s.requests[id].host != host then outcome == WasMissing && db.Snapshot() == s
            else exists id :: IsPending(s, id) && s.requests[id].host == host && (db.Snapshot(), outcome) == ApplyCommit(s, id, s.requests[id], agent, now)
  {
    if exists id :: id in db.requests && db.requests[id].status == RequestPending && db.requests[id].host == host {
      var id :| id in db.requests && db.requests[id].status == RequestPending && db.requests[id].host == host;
      outcome := ApplyForAgent(db, id, agent, now);
    } else {
      outcome := WasMissing;
    }
  }

  method WriteRequestedGrants(db: Database, r: EnrollmentRequest, agent: string)
    modifies db
    ensures db.Snapshot() == old(db.Snapshot()).(
              mailbox := Upserted(old(db.mailbox), RequestedMailboxKeys(r, agent), r.expiresAt),
              system := Upserted(old(db.system), RequestedSystemKeys(r, agent), r.expiresAt))
  {
    ghost var s := db.Snapshot();
    assert KeysUpTo(r, agent, 0) == {};
    assert Upserted(s.mailbox, {}, r.expiresAt) == s.mailbox;
    for n := 0 to |r.mailboxGrants|
      invariant db.Snapshot() == s.(mailbox := Upserted(s.mailbox, KeysUpTo(r, agent, n), r.expiresAt))
    {
      WriteMailboxRequest(db, r, n, agent);
      KeysOneMore(r, agent, n);
      UpsertedTwice(s.mailbox, KeysUpTo(r, agent, n), Listed(Keyed(r, n, agent)), r.expiresAt);
    }
    assert r.(mailboxGrants := r.mailboxGrants[..|r.mailboxGrants|]) == r;
    WriteSystemRequest(db, r, agent);
  }

  method WriteSystemRequest(db: Database, r: EnrollmentRequest, agent: string)
    modifies db
    ensures db.Snapshot() == old(db.Snapshot()).(system := Upserted(old(db.system), RequestedSystemKeys(r, agent), r.expiresAt))
  {
    ghost var s := db.Snapshot();
    var permissions := Listed(r.permissions);
    var written: set<SystemKey> := {};
    assert Upserted(s.system, {}, r.expiresAt) == s.system;
    while permissions != {}
      invariant permissions <= Listed(r.permissions)
      invariant written == set p | p in Listed(r.permissions) - permissions :: SystemKey(r.org, Principal(AgentPrincipal, agent), p)
      invariant db.Snapshot() == s.(system := Upserted(s.system, written, r.expiresAt))
    {
      var p :| p in permissions;
      var k := SystemKey(r.org, Principal(AgentPrincipal, agent), p);
      db.Execute(ActivateSystem(k, r.expiresAt));
      OneMoreUpserted(s.system, written, k, r.expiresAt);
      written := written + {k};
      permissions := permissions - {p};
    }
    assert written == RequestedSystemKeys(r, agent);
  }

  lemma OneMoreUpserted<K>(table: map<K, GrantState>, keys: set<K>, k: K, expiresAt: Option<Time>)
    ensures Upserted(table, keys, expiresAt)[k := Activated(expiresAt)] == Upserted(table, keys + {k}, expiresAt)
  {
  }

  lemma UpsertedTwice<K>(table: map<K, GrantState>, one: set<K>, two: set<K>, expiresAt: Option<Time>)
    ensures Upserted(Upserted(table, one, expiresAt), two, expiresAt) == Upserted(table, one + two, expiresAt)
  {
  }

  /** The check of both creating and revoking: every grant the request asks for must be manageable. */
  predicate CanManageRequest(ctx: Context, r: EnrollmentRequest, parse: RecipientPolicy.AddressParser) {
    && (forall i, j :: 0 <= i < |r.mailboxGrants| && 0 <= j < |r.mailboxGrants[i].grants| ==>
          CanManageAdminAgentGrant(ctx, NamedMailboxGrant(r.mailboxGrants[i].grants[j]), Some(r.mailboxGrants[i].mailbox), parse))
    && (forall i :: 0 <= i < |r.permissions| ==> CanManageAdminAgentGrant(ctx, NamedPermission(r.permissions[i]), None, parse))
  }

  /** Checks, then the compare-and-set and the host of a request nobody has taken up. */
  method RevokeEnrollment(db: Database, ctx: Context, id: string, parse: RecipientPolicy.AddressParser) returns (ok: bool)
    modifies db
    ensures var s := old(db.Snapshot());
            && (ok <==> CanManageAgents(ctx, parse) && IsPending(s, id) && s.requests[id].org == ctx.org && CanManageRequest(ctx, s.requests[id], parse))
            && db.Snapshot() == (if ok then WithdrawnRequest(s, id) else s)
  {
    if !CanManageAgents(ctx, parse) || id !in db.requests || db.requests[id].status != RequestPending || db.requests[id].org != ctx.org {
      return false;
    }
    var r := db.requests[id];
    var allowed := CheckRequest(ctx, r, parse);
    if !allowed {
      return false;
    }
    db.requests := db.requests[id := r.(status := RequestRevoked)];
    if r.host in db.hosts && db.hosts[r.host].status == HostPendingEnrollment {
      db.hosts := db.hosts[r.host := db.hosts[r.host].(status := HostRevoked)];
    }
    return true;
  }

  /** The loops over the request's grants, refusing at the first that may not be managed. */
  method CheckRequest(ctx: Context, r: EnrollmentRequest, parse: RecipientPolicy.AddressParser) returns (ok: bool)
    ensures ok <==> CanManageRequest(ctx, r, parse)
  {
    for i := 0 to |r.mailboxGrants|
      invariant forall m, j :: 0 <= m < i && 0 <= j < |r.mailboxGrants[m].grants| ==>
                                 CanManageAdminAgentGrant(ctx, NamedMailboxGrant(r.mailboxGrants[m].grants[j]), Some(r.mailboxGrants[m].mailbox), parse)
    {
      for j := 0 to |r.mailboxGrants[i].grants|
        invariant forall n :: 0 <= n < j ==>
                                CanManageAdminAgentGrant(ctx, NamedMailboxGrant(r.mailboxGrants[i].grants[n]), Some(r.mailboxGrants[i].mailbox), parse)
      {
        if !CanManageAdminAgentGrant(ctx, NamedMailboxGrant(r.mailboxGrants[i].grants[j]), Some(r.mailboxGrants[i].mailbox), parse) {
          return false;
        }
      }
    }
    for i := 0 to |r.permissions|
      invariant forall n :: 0 <= n < i ==> CanManageAdminAgentGrant(ctx, NamedPermission(r.permissions[n]), None, parse)
    {
      if !CanManageAdminAgentGrant(ctx, NamedPermission(r.permissions[i]), None, parse) {
        return false;
      }
    }
    return true;
  }

  // --- concurrency -------------------------------------------------------------------------------------------

  /** A transaction that has read its request and not yet committed. */
  datatype Attempt =
    | ApplyAttempt(id: string, copy: EnrollmentRequest, agent: string, startedAt: Time)
    | RevokeAttempt(id: string, copy: EnrollmentRequest)

  datatype World = World(s: State, now: Time, flying: multiset<Attempt>)

  datatype Event =
    | Tick(span: nat)
    | Create(id: string, request: EnrollmentRequest)
    | Begin(attempt: Attempt)
    | Commit(attempt: Attempt)
    | Abort(attempt: Attempt)

  /** An attempt reads a pending request as it is now. */
  predicate CanBegin(w: World, a: Attempt) {
    IsPending(w.s, a.id) && a.copy == w.s.requests[a.id] && (a.ApplyAttempt? ==> a.startedAt <= w.now)
  }

  function Committed(s: State, a: Attempt): State {
    match a
    case ApplyAttempt(id, copy, agent, startedAt) => ApplyCommit(s, id, copy, agent, startedAt).0
    case RevokeAttempt(id, _) => WithdrawnRequest(s, id)
  }

  function Next(w: World, e: Event): World {
    match e
    case Tick(span) => w.(now := w.now + span)
    case Create(id, request) =>
      if id in w.s.requests then w else w.(s := w.s.(requests := w.s.requests[id := request.(status := RequestPending)]))
    case Begin(a) => if CanBegin(w, a) then w.(flying := w.flying + multiset{a}) else w
    case Commit(a) => if a in w.flying then World(Committed(w.s, a), w.now, w.flying - multiset{a}) else w
    case Abort(a) => if a in w.flying then w.(flying := w.flying - multiset{a}) else w
  }

  function Run(w: World, events: seq<Event>): World
    decreases |events|
  {
    if events == [] then w else Run(Next(w, events[0]), events[1..])
  }

  /** A request is the same promise whatever its status. */
  predicate SamePromise(r: EnrollmentRequest, t: EnrollmentRequest) {
    t == r.(status := t.status, appliedAgent := t.appliedAgent)
  }

  /** What was read is still what is stored, status aside. */
  predicate Consistent(w: World) {
    forall a :: a in w.flying ==> a.id in w.s.requests && SamePromise(a.copy, w.s.requests[a.id]) && a.copy.status == RequestPending
  }

  /** An attempt whose commit writes grants. */
  predicate WouldWin(s: State, a: Attempt) {
    && a.ApplyAttempt? && IsPending(s, a.id) && Unexpired(a.copy.expiresAt, a.startedAt)
    && a.agent in s.agents && s.agents[a.agent].host == a.copy.host
  }

  /** The commit of an attempt whose copy is still what is stored. */
  lemma CommitKeepsRequest(s: State, a: Attempt, id: string)
    requires id in s.requests && a.id in s.requests && SamePromise(a.copy, s.requests[a.id])
    ensures id in Committed(s, a).requests && SamePromise(s.requests[id], Committed(s, a).requests[id])
    ensures s.requests[id].status != RequestPending ==> Committed(s, a).requests[id] == s.requests[id]
    ensures IsPending(s, id) && Committed(s, a).requests[id].status == RequestApplied <==> WouldWin(s, a) && a.id == id
  {
    if a.ApplyAttempt? {
      ApplyKeepsRequest(s, a.id, a.copy, a.agent, a.startedAt, id);
    } else {
      WithdrawKeepsRequest(s, a.id, id);
    }
  }

  lemma ApplyKeepsRequest(s: State, own: string, copy: EnrollmentRequest, agent: string, now: Time, id: string)
    requires id in s.requests && own in s.requests && SamePromise(copy, s.requests[own])
    ensures var t := ApplyCommit(s, own, copy, agent, now).0;
            && id in t.requests && SamePromise(s.requests[id], t.requests[id])
            && (s.requests[id].status != RequestPending || own != id ==> t.requests[id] == s.requests[id])
            && (IsPending(s, own) && t.requests[own].status == RequestApplied <==>
                  && IsPending(s, own) && Unexpired(copy.expiresAt, now)
                  && agent in s.agents && s.agents[agent].host == copy.host)
  {
    var t := ApplyCommit(s, own, copy, agent, now).0;
    assert own != id ==> id in t.requests && t.requests[id] == s.requests[id];
  }

  lemma WithdrawKeepsRequest(s: State, own: string, id: string)
    requires id in s.requests && own in s.requests
    ensures var t := WithdrawnRequest(s, own);
            && id in t.requests && SamePromise(s.requests[id], t.requests[id])
            && (s.requests[id].status != RequestPending || own != id ==> t.requests[id] == s.requests[id])
            && (IsPending(s, id) ==> t.requests[id].status != RequestApplied)
  {
  }

  lemma SamePromiseTransits(r: EnrollmentRequest, t: EnrollmentRequest, u: EnrollmentRequest)
    requires SamePromise(r, t) && SamePromise(t, u)
    ensures SamePromise(r, u)
  {
  }

  lemma StepKeepsRequests(w: World, e: Event, id: string)
    requires Consistent(w) && id in w.s.requests
    ensures id in Next(w, e).s.requests && SamePromise(w.s.requests[id], Next(w, e).s.requests[id])
  {
    if e.Commit? && e.attempt in w.flying {
      CommitKeepsRequest(w.s, e.attempt, id);
    }
  }

  lemma StepKeepsConsistent(w: World, e: Event)
    requires Consistent(w)
    ensures Consistent(Next(w, e))
  {
    var next := Next(w, e);
    forall a | a in next.flying
      ensures a.id in next.s.requests && SamePromise(a.copy, next.s.requests[a.id]) && a.copy.status == RequestPending
    {
      if a in w.flying {
        StepKeepsRequests(w, e, a.id);
        SamePromiseTransits(a.copy, w.s.requests[a.id], next.s.requests[a.id]);
      }
    }
  }

  /** The step at which this attempt's apply claims its request. */
  predicate Wins(w: World, e: Event, id: string) {
    e.Commit? && e.attempt in w.flying && e.attempt.id == id && WouldWin(w.s, e.attempt)
  }

  lemma WinningWritesExactly(w: World, e: Event, id: string)
    requires Consistent(w) && Wins(w, e, id)
    ensures Next(w, e).s == Applied(w.s, id, w.s.requests[id], e.attempt.agent)
  {
    var copy, stored := e.attempt.copy, w.s.requests[id];
    assert SamePromise(copy, stored);
    assert RequestedMailboxKeys(copy, e.attempt.agent) == RequestedMailboxKeys(stored, e.attempt.agent);
    assert RequestedSystemKeys(copy, e.attempt.agent) == RequestedSystemKeys(stored, e.attempt.agent);
  }

  lemma UnwonCommitWritesNoGrants(s: State, a: Attempt)
    requires !WouldWin(s, a)
    ensures Committed(s, a).mailbox == s.mailbox && Committed(s, a).system == s.system
  {
  }

  /** A step that wins nothing writes no grant. */
  lemma OtherStepsWriteNoGrants(w: World, e: Event)
    requires e.Commit? ==> !Wins(w, e, e.attempt.id)
    ensures Next(w, e).s.mailbox == w.s.mailbox && Next(w, e).s.system == w.s.system
  {
    if e.Commit? {
      UnwonStepWritesNoGrants(w, e.attempt);
    } else {
      OnlyCommitsWriteGrants(w, e);
    }
  }

  lemma OnlyCommitsWriteGrants(w: World, e: Event)
    requires !e.Commit?
    ensures Next(w, e).s.mailbox == w.s.mailbox && Next(w, e).s.system == w.s.system
  {
  }

  lemma UnwonStepWritesNoGrants(w: World, a: Attempt)
    requires !Wins(w, Commit(a), a.id)
    ensures Next(w, Commit(a)).s.mailbox == w.s.mailbox && Next(w, Commit(a)).s.system == w.s.system
  {
    if a in w.flying {
      UnwonCommitWritesNoGrants(w.s, a);
    }
  }

  /** A request keeps its promise for ever, and its status too once that is not pending. */
  lemma StepKeepsRequest(w: World, e: Event, id: string)
    requires Consistent(w) && id in w.s.requests
    ensures id in Next(w, e).s.requests && SamePromise(w.s.requests[id], Next(w, e).s.requests[id])
    ensures w.s.requests[id].status != RequestPending ==> Next(w, e).s.requests[id] == w.s.requests[id]
    ensures Wins(w, e, id) <==> IsPending(w.s, id) && Next(w, e).s.requests[id].status == RequestApplied
  {
    if e.Commit? && e.attempt in w.flying {
      CommitKeepsRequest(w.s, e.attempt, id);
    }
  }

  /** How many steps of the run take the request out of pending. */
  function Departures(w: World, events: seq<Event>, id: string): nat
    decreases |events|
  {
    if events == [] then 0
    else
      var next := Next(w, events[0]);
      (if IsPending(w.s, id) && !IsPending(next.s, id) then 1 else 0) + Departures(next, events[1..], id)
  }

  /** How many steps of the run write this request's grants. */
  function Applications(w: World, events: seq<Event>, id: string): nat
    decreases |events|
  {
    if events == [] then 0
    else (if Wins(w, events[0], id) then 1 else 0) + Applications(Next(w, events[0]), events[1..], id)
  }

  lemma {:induction false} SettledStaysSettled(w: World, events: seq<Event>, id: string)
    requires Consistent(w) && id in w.s.requests && w.s.requests[id].status != RequestPending
    ensures var last := Run(w, events).s;
            && id in last.requests && last.requests[id] == w.s.requests[id]
            && Departures(w, events, id) == 0 && Applications(w, events, id) == 0
    decreases |events|
  {
    if events != [] {
      StepKeepsConsistent(w, events[0]);
      StepKeepsRequest(w, events[0], id);
      SettledStaysSettled(Next(w, events[0]), events[1..], id);
    }
  }

  /**
   * Over any interleaving of reads, commits, aborts, new requests and passing time, a pending
   * request leaves pending at most once, exactly when it ends settled; its grants are written
   * exactly once if it ends applied, and never if it ends pending, expired or revoked.
   */
  lemma {:induction false} ConsumedAtMostOnce(w: World, events: seq<Event>, id: string)
    requires Consistent(w) && IsPending(w.s, id)
    ensures var last := Run(w, events).s;
            && id in last.requests && SamePromise(w.s.requests[id], last.requests[id])
            && Departures(w, events, id) == (if IsPending(last, id) then 0 else 1)
            && Applications(w, events, id) == (if last.requests[id].status == RequestApplied then 1 else 0)
    decreases |events|
  {
    if events != [] {
      var next := Next(w, events[0]);
      StepKeepsConsistent(w, events[0]);
      StepKeepsRequest(w, events[0], id);
      if IsPending(next.s, id) {
        ConsumedAtMostOnce(next, events[1..], id);
      } else {
        SettledStaysSettled(next, events[1..], id);
      }
    }
  }

  /** The grants an applied request wrote: exactly its pairs, active, with its expiry; all other documents stay. */
  lemma AppliedExactly(s: State, id: string, r: EnrollmentRequest, agent: string)
    requires IsPending(s, id) && r == s.requests[id]
    ensures var t := Applied(s, id, r, agent);
            && (forall k: MailboxKey :: k in RequestedMailboxKeys(r, agent) <==>
                  && k.org == r.org && k.principal == Principal(AgentPrincipal, agent)
                  && exists i :: 0 <= i < |r.mailboxGrants| && k.mailbox == r.mailboxGrants[i].mailbox && k.grant in r.mailboxGrants[i].grants)
            && (forall k: SystemKey :: k in RequestedSystemKeys(r, agent) <==>
                  k.org == r.org && k.principal == Principal(AgentPrincipal, agent) && k.permission in r.permissions)
            && (forall k :: k in RequestedMailboxKeys(r, agent) ==> k in t.mailbox && t.mailbox[k] == GrantState(Active, r.expiresAt, true))
            && (forall k :: k in RequestedSystemKeys(r, agent) ==> k in t.system && t.system[k] == GrantState(Active, r.expiresAt, true))
            && (forall k :: k !in RequestedMailboxKeys(r, agent) ==> (k in t.mailbox <==> k in s.mailbox) && (k in s.mailbox ==> t.mailbox[k] == s.mailbox[k]))
            && (forall k :: k !in RequestedSystemKeys(r, agent) ==> (k in t.system <==> k in s.system) && (k in s.system ==> t.system[k] == s.system[k]))
            && t.capability == s.capability && t.agents == s.agents && t.hosts == s.hosts
  {
  }
}
