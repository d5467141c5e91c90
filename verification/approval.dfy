/** Approving an agent's pending capability grants: choosing them, binding them to an organization, activating them. */
module Approval {
  import opened Wrappers
  import opened Capabilities
  import opened Grants
  import opened Ability
  import opened GrantWrites
  import opened Authorization
  import RecipientPolicy
  import Text

  type GrantDocument = (string, CapabilityGrant)

  datatype Refusal = OutsideRequest | NothingPending | NotPending | InvalidConstraints | NoLongerPending | NotClaimable

  // --- choosing ------------------------------------------------------------------------------------------

  predicate ReadyForBinding(g: CapabilityGrant) {
    g.status == GrantPending && g.capability.Some? && IsRequest(g.capability.value, g.constraints)
  }

  predicate CanBeApproved(allowBinding: bool, org: string, g: CapabilityGrant) {
    GrantOrganization(g) == Some(org) || (allowBinding && GrantOrganization(g).None? && ReadyForBinding(g))
  }

  function Filter(grants: seq<GrantDocument>, keep: CapabilityGrant -> bool): seq<GrantDocument> {
    if grants == [] then []
    else Filter(grants[..|grants| - 1], keep) + if keep(grants[|grants| - 1].1) then [grants[|grants| - 1]] else []
  }

  lemma {:induction false} FilterKeeps(grants: seq<GrantDocument>, keep: CapabilityGrant -> bool)
    ensures forall d :: d in Filter(grants, keep) <==> d in grants && keep(d.1)
  {
    if grants != [] {
      FilterKeeps(grants[..|grants| - 1], keep);
      assert grants == grants[..|grants| - 1] + [grants[|grants| - 1]];
    }
  }

  function CapabilitiesOf(grants: seq<GrantDocument>): set<Option<Capability>> {
    set d | d in grants :: d.1.capability
  }

  function Named(capabilities: set<Capability>): set<Option<Capability>> {
    set c | c in capabilities :: Some(c)
  }

  function PendingHere(allowBinding: bool, org: string): CapabilityGrant -> bool {
    (g: CapabilityGrant) => g.status == GrantPending && CanBeApproved(allowBinding, org, g)
  }

  function NamedAmong(wanted: set<Capability>): CapabilityGrant -> bool {
    (g: CapabilityGrant) => g.capability.Some? && g.capability.value in wanted
  }

  /** `approval` are the capabilities of the approval request; `requested` those the approver names, if any. */
  function SelectApprovalGrants(allowBinding: bool, approval: set<Capability>, requested: Option<set<Capability>>, org: string, grants: seq<GrantDocument>)
    : Result<seq<GrantDocument>, Refusal>
  {
    var wanted := if requested.Some? then requested.value else approval;
    if requested.Some? && approval != {} && !(wanted <= approval) then Err(OutsideRequest)
    else
      var pending := Filter(grants, PendingHere(allowBinding, org));
      if pending == [] then Err(NothingPending)
      else if wanted == {} then Ok(pending)
      else if !(Named(wanted) <= CapabilitiesOf(pending)) then Err(NotPending)
      else Ok(Filter(pending, NamedAmong(wanted)))
  }

  predicate IsApprovable(d: GrantDocument, allowBinding: bool, org: string, grants: seq<GrantDocument>) {
    d in grants && d.1.status == GrantPending && CanBeApproved(allowBinding, org, d.1)
  }

  /**
   * What is chosen: pending grants of the organization (or unbound ones, where binding is allowed)
   * and among them every one asked for; with capabilities named, exactly those and none outside
   * the approval request. It fails exactly when that is impossible.
   */
  lemma SelectionIsWhatWasAsked(allowBinding: bool, approval: set<Capability>, requested: Option<set<Capability>>, org: string, grants: seq<GrantDocument>)
    ensures var r := SelectApprovalGrants(allowBinding, approval, requested, org, grants);
            var wanted := if requested.Some? then requested.value else approval;
            && (r.Ok? ==>
                  && r.value != []
                  && (wanted != {} ==> CapabilitiesOf(r.value) == Named(wanted))
                  && (requested.Some? && approval != {} ==> wanted <= approval)
                  && (forall d :: d in r.value <==> IsApprovable(d, allowBinding, org, grants) && (wanted == {} || d.1.capability in Named(wanted))))
            && (r.Ok? <==>
                  && (requested.Some? && approval != {} ==> wanted <= approval)
                  && (exists d :: IsApprovable(d, allowBinding, org, grants))
                  && forall c :: c in wanted ==> exists d :: IsApprovable(d, allowBinding, org, grants) && d.1.capability == Some(c))
  {
    var wanted := if requested.Some? then requested.value else approval;
    var pending := Filter(grants, PendingHere(allowBinding, org));
    FilterKeeps(grants, PendingHere(allowBinding, org));
    assert forall d :: d in pending <==> IsApprovable(d, allowBinding, org, grants);
    if pending != [] {
      assert pending[0] in pending;
    }
    if Named(wanted) <= CapabilitiesOf(pending) {
      ChosenAreNamed(pending, wanted);
    }
    WantedAreFound(pending, wanted);
  }

  lemma ChosenAreNamed(pending: seq<GrantDocument>, wanted: set<Capability>)
    requires Named(wanted) <= CapabilitiesOf(pending)
    ensures var chosen := Filter(pending, NamedAmong(wanted));
            && (forall d :: d in chosen <==> d in pending && d.1.capability in Named(wanted))
            && CapabilitiesOf(chosen) == Named(wanted)
            && (wanted != {} ==> chosen != [])
  {
    var chosen := Filter(pending, NamedAmong(wanted));
    FilterKeeps(pending, NamedAmong(wanted));
    forall c | c in Named(wanted) ensures c in CapabilitiesOf(chosen) {
      assert c in CapabilitiesOf(pending);
      var d :| d in pending && d.1.capability == c;
      assert d in chosen;
    }
    if wanted != {} {
      var c :| c in wanted;
      assert Some(c) in CapabilitiesOf(chosen);
    }
  }

  lemma WantedAreFound(pending: seq<GrantDocument>, wanted: set<Capability>)
    ensures Named(wanted) <= CapabilitiesOf(pending) <==> forall c :: c in wanted ==> exists d :: d in pending && d.1.capability == Some(c)
  {
    if Named(wanted) <= CapabilitiesOf(pending) {
      forall c | c in wanted ensures exists d :: d in pending && d.1.capability == Some(c) {
        assert Some(c) in Named(wanted);
      }
    }
  }

  // --- binding -------------------------------------------------------------------------------------------

  predicate NeedsBinding(g: CapabilityGrant) {
    GrantOrganization(g).None? && g.status == GrantPending
  }

  /** The copy the approval goes on with: constraints replaced by bound ones. */
  function BoundCopy(g: CapabilityGrant, org: string): Option<CapabilityGrant> {
    if !NeedsBinding(g) then Some(g)
    else if g.capability.None? || BoundConstraints(g.capability.value, g.constraints, org).None? then None
    else Some(g.(constraints := BoundConstraints(g.capability.value, g.constraints, org).value))
  }

  /** Whatever could be approved for an organization reads back as that organization once bound. */
  lemma BoundBelongsToOrganization(allowBinding: bool, org: string, g: CapabilityGrant)
    requires g.status == GrantPending && CanBeApproved(allowBinding, org, g)
    ensures var bound := BoundCopy(g, org);
            && bound.Some? && GrantOrganization(bound.value) == Some(org)
            && bound.value == g.(constraints := bound.value.constraints)
            && NormalizedMailbox(GrantMailbox(bound.value)) == NormalizedMailbox(GrantMailbox(g))
  {
    if GrantOrganization(g).None? {
      var c := g.capability.value;
      BoundReadsBack(c, g.constraints, org);
      if IsMailboxScoped(c) {
        Text.LowerIsIdempotent(g.constraints.mailbox.value);
      }
    }
  }

  /** Only constraints of grants that stay pending differ between the two tables. */
  predicate OnlyConstraintsDiffer(before: map<string, CapabilityGrant>, after: map<string, CapabilityGrant>) {
    && before.Keys == after.Keys
    && forall id :: id in before ==>
         after[id] == before[id] || (before[id].status == GrantPending && after[id] == before[id].(constraints := after[id].constraints))
  }

  predicate DistinctIds(grants: seq<GrantDocument>) {
    forall i, j :: 0 <= i < j < |grants| ==> grants[i].0 != grants[j].0
  }

  /** Every grant can be bound, and those that must be are pending where they are stored. */
  predicate Bindable(table: map<string, CapabilityGrant>, grants: seq<GrantDocument>, org: string) {
    forall g :: g in grants ==> BoundCopy(g.1, org).Some? && (NeedsBinding(g.1) ==> IsPendingGrant(table, g.0))
  }

  /** Every grant of the list is stored bound to the organization. */
  predicate AllBound(after: map<string, CapabilityGrant>, org: string, grants: seq<GrantDocument>) {
    forall g :: g in grants ==>
      && BoundCopy(g.1, org).Some?
      && (NeedsBinding(g.1) ==> IsPendingGrant(after, g.0) && after[g.0].constraints == BoundCopy(g.1, org).value.constraints)
  }

  /** Only grants of the list that had to be bound differ. */
  predicate OthersUntouched(before: map<string, CapabilityGrant>, after: map<string, CapabilityGrant>, grants: seq<GrantDocument>) {
    forall id :: id in before && (forall g :: g in grants && g.0 == id ==> !NeedsBinding(g.1)) ==> id in after && after[id] == before[id]
  }

  predicate Stored(before: map<string, CapabilityGrant>, after: map<string, CapabilityGrant>, org: string, grants: seq<GrantDocument>) {
    OnlyConstraintsDiffer(before, after) && AllBound(after, org, grants) && OthersUntouched(before, after, grants)
  }

  /** The table after one more grant of the list is bound. */
  function BoundNext(table: map<string, CapabilityGrant>, g: GrantDocument, org: string): map<string, CapabilityGrant>
    requires BoundCopy(g.1, org).Some? && (NeedsBinding(g.1) ==> IsPendingGrant(table, g.0))
  {
    if NeedsBinding(g.1) then table[g.0 := table[g.0].(constraints := BoundCopy(g.1, org).value.constraints)] else table
  }

  lemma BindOneMore(before: map<string, CapabilityGrant>, after: map<string, CapabilityGrant>, org: string, grants: seq<GrantDocument>, n: nat)
    requires n < |grants| && DistinctIds(grants) && Stored(before, after, org, grants[..n])
    requires BoundCopy(grants[n].1, org).Some? && (NeedsBinding(grants[n].1) ==> IsPendingGrant(after, grants[n].0))
    ensures Stored(before, BoundNext(after, grants[n], org), org, grants[..n + 1])
  {
    BoundOneMore(after, org, grants, n);
    UntouchedOneMore(before, after, org, grants, n);
  }

  lemma BoundOneMore(after: map<string, CapabilityGrant>, org: string, grants: seq<GrantDocument>, n: nat)
    requires n < |grants| && DistinctIds(grants) && AllBound(after, org, grants[..n])
    requires BoundCopy(grants[n].1, org).Some? && (NeedsBinding(grants[n].1) ==> IsPendingGrant(after, grants[n].0))
    ensures AllBound(BoundNext(after, grants[n], org), org, grants[..n + 1])
  {
    assert grants[..n + 1] == grants[..n] + [grants[n]];
    forall g | g in grants[..n] ensures g.0 != grants[n].0 {
      var i :| 0 <= i < n && grants[i] == g;
    }
  }

  lemma UntouchedOneMore(before: map<string, CapabilityGrant>, after: map<string, CapabilityGrant>, org: string, grants: seq<GrantDocument>, n: nat)
    requires n < |grants| && DistinctIds(grants) && OthersUntouched(before, after, grants[..n])
    requires BoundCopy(grants[n].1, org).Some? && (NeedsBinding(grants[n].1) ==> IsPendingGrant(after, grants[n].0))
    ensures OthersUntouched(before, BoundNext(after, grants[n], org), grants[..n + 1])
  {
    var part := grants[..n + 1];
    assert part == grants[..n] + [grants[n]] && grants[n] in part;
    UntouchedByPart(before, after, grants[..n], part);
  }

  lemma UntouchedByPart(before: map<string, CapabilityGrant>, after: map<string, CapabilityGrant>, part: seq<GrantDocument>, whole: seq<GrantDocument>)
    requires part <= whole && OthersUntouched(before, after, part)
    ensures OthersUntouched(before, after, whole)
  {
    assert forall g :: g in part ==> g in whole;
  }

  lemma StoredWereBindable(before: map<string, CapabilityGrant>, after: map<string, CapabilityGrant>, org: string, grants: seq<GrantDocument>)
    requires Stored(before, after, org, grants)
    ensures Bindable(before, grants, org)
  {
  }

  /**
   * Binds the unbound grants one update at a time. It succeeds exactly when all can be bound, and
   * then every copy is bound to the organization and stored so; whatever happens, no grant's status
   * changes.
   */
  method BindToOrganization(db: Database, org: string, grants: seq<GrantDocument>) returns (r: Result<seq<GrantDocument>, Refusal>)
    requires DistinctIds(grants)
    modifies db
    ensures db.Snapshot() == old(db.Snapshot()).(capability := db.capability)
    ensures OnlyConstraintsDiffer(old(db.capability), db.capability) && OthersUntouched(old(db.capability), db.capability, grants)
    ensures r.Ok? <==> Bindable(old(db.capability), grants, org)
    ensures r.Ok? ==> AllBound(db.capability, org, grants)
    ensures r.Ok? ==> |r.value| == |grants| && forall i :: 0 <= i < |grants| ==> Some(r.value[i].1) == BoundCopy(grants[i].1, org) && r.value[i].0 == grants[i].0
  {
    var copies: seq<GrantDocument> := [];
    for n := 0 to |grants|
      invariant db.Snapshot() == old(db.Snapshot()).(capability := db.capability)
      invariant Stored(old(db.capability), db.capability, org, grants[..n])
      invariant |copies| == n && forall i :: 0 <= i < n ==> Some(copies[i].1) == BoundCopy(grants[i].1, org) && copies[i].0 == grants[i].0
    {
      var (id, g) := grants[n];
      var copy := BoundCopy(g, org);
      assert grants[n] in grants;
      UntouchedByPart(old(db.capability), db.capability, grants[..n], grants);
      if copy.None? {
        return Err(InvalidConstraints);
      }
      if NeedsBinding(g) && (id !in db.capability || db.capability[id].status != GrantPending) {
        return Err(NoLongerPending);
      }
      BindOneMore(old(db.capability), db.capability, org, grants, n);
      if NeedsBinding(g) {
        db.Execute(BindCapability(id, copy.value.constraints));
      }
      copies := copies + [(id, copy.value)];
    }
    assert grants[..|grants|] == grants;
    StoredWereBindable(old(db.capability), db.capability, org, grants);
    return Ok(copies);
  }

  // --- activating ----------------------------------------------------------------------------------------

  /** The lifetime a capability is granted for when the approver names none. */
  type Lifetimes = Capability -> Option<nat>

  function ApprovedExpiry(g: CapabilityGrant, now: Time, ttl: Option<nat>, lifetimes: Lifetimes): Option<Time> {
    if ttl.Some? then Some(now + 1000 * ttl.value)
    else if g.capability.None? then None
    else
      match lifetimes(g.capability.value)
      case Some(seconds) => if seconds > 0 then Some(now + 1000 * seconds) else None
      case None => None
  }

  function ActivatedGrant(g: CapabilityGrant, now: Time, ttl: Option<nat>, lifetimes: Lifetimes): CapabilityGrant {
    g.(status := GrantActive, expiresAt := ApprovedExpiry(g, now, ttl, lifetimes))
  }

  function ActivatedTable(table: map<string, CapabilityGrant>, ids: set<string>, now: Time, ttl: Option<nat>, lifetimes: Lifetimes): map<string, CapabilityGrant> {
    map id | id in table :: if id in ids then ActivatedGrant(table[id], now, ttl, lifetimes) else table[id]
  }

  predicate IsPendingGrant(table: map<string, CapabilityGrant>, id: string) {
    id in table && table[id].status == GrantPending
  }

  /** Every compare-and-set of the transaction matches. */
  predicate CanActivate(s: State, ids: set<string>, agent: string, host: string) {
    && (forall id :: id in ids ==> IsPendingGrant(s.capability, id))
    && agent in s.agents && s.agents[agent].status == AgentPending
    && host in s.hosts && (s.hosts[host].status == HostActive || s.hosts[host].status == HostPending)
  }

  function Approved(s: State, ids: set<string>, agent: string, host: string, user: string, now: Time, ttl: Option<nat>, lifetimes: Lifetimes): State
    requires agent in s.agents && host in s.hosts
  {
    s.(capability := ActivatedTable(s.capability, ids, now, ttl, lifetimes),
       agents := s.agents[agent := s.agents[agent].(status := AgentActive, user := Some(user), expiresAt := None)],
       hosts := s.hosts[host := s.hosts[host].(status := HostActive, user := Some(user), expiresAt := None)])
  }

  function StillPending(table: map<string, CapabilityGrant>, ids: set<string>): set<string> {
    set id | id in ids && IsPendingGrant(table, id)
  }

  function IdsOf(grants: seq<GrantDocument>): set<string> {
    set d | d in grants :: d.0
  }

  /** One transaction: every grant, the agent and the host become active, or nothing changes at all. */
  method ApplyApproved(db: Database, grants: seq<GrantDocument>, agent: string, host: string, user: string, now: Time, ttl: Option<nat>, lifetimes: Lifetimes)
    returns (ok: bool)
    requires DistinctIds(grants)
    modifies db
    ensures ok <==> CanActivate(old(db.Snapshot()), IdsOf(grants), agent, host)
    ensures ok ==> db.Snapshot() == Approved(old(db.Snapshot()), IdsOf(grants), agent, host, user, now, ttl, lifetimes)
    ensures !ok ==> db.Snapshot() == old(db.Snapshot())
    ensures ok ==> forall id :: id in IdsOf(grants) ==>
                                  id in old(db.capability) && id in db.capability
                                  && forall t :: IsCapabilityGrantActive(db.capability[id], t) <==> LivesAt(old(db.capability)[id], now, ttl, lifetimes, t)
  {
    TableLives(db.capability, IdsOf(grants), now, ttl, lifetimes);
    var staged := db.capability;
    var matched := true;
    ghost var done: set<string> := {};
    for n := 0 to |grants|
      invariant done == IdsOf(grants[..n])
      invariant matched <==> forall id :: id in done ==> IsPendingGrant(db.capability, id)
      invariant staged == ActivatedTable(db.capability, StillPending(db.capability, done), now, ttl, lifetimes)
    {
      var id := grants[n].0;
      assert grants[..n + 1] == grants[..n] + [grants[n]];
      assert id !in done;
      if IsPendingGrant(staged, id) {
        staged := staged[id := ActivatedGrant(staged[id], now, ttl, lifetimes)];
      } else {
        matched := false;
      }
      done := done + {id};
    }
    assert grants[..|grants|] == grants;
    if !matched || agent !in db.agents || db.agents[agent].status != AgentPending {
      return false;
    }
    if host !in db.hosts || !(db.hosts[host].status == HostActive || db.hosts[host].status == HostPending) {
      return false;
    }
    assert StillPending(db.capability, done) == done;
    db.capability := staged;
    db.agents := db.agents[agent := db.agents[agent].(status := AgentActive, user := Some(user), expiresAt := None)];
    db.hosts := db.hosts[host := db.hosts[host].(status := HostActive, user := Some(user), expiresAt := None)];
    return true;
  }

  predicate CanManageGrantDocument(ctx: Context, g: CapabilityGrant, parse: RecipientPolicy.AddressParser) {
    g.capability.Some? && CanManageAgentGrant(ctx, g.capability.value, GrantMailbox(g), parse)
  }

  /** The grants were just read from the table. */
  predicate ReadFrom(grants: seq<GrantDocument>, table: map<string, CapabilityGrant>) {
    DistinctIds(grants) && forall d :: d in grants ==> d.0 in table && table[d.0] == d.1
  }

  /** The list is the agent's open grants, each once. */
  predicate AreOpenGrantsOf(grants: seq<GrantDocument>, table: map<string, CapabilityGrant>, agent: string) {
    && ReadFrom(grants, table)
    && (forall d :: d in grants ==> d.1.agent == agent && IsCapabilityGrantOpen(d.1))
    && forall id :: id in table && table[id].agent == agent && IsCapabilityGrantOpen(table[id]) ==> (id, table[id]) in grants
  }

  datatype Decision = Decision(
    allowBinding: bool, approval: set<Capability>, requested: Option<set<Capability>>, agent: string, host: string, user: string, ttl: Option<nat>)

  /** No open grant of the agent may belong to another organization. */
  predicate AllInScope(allowBinding: bool, org: string, grants: seq<GrantDocument>) {
    forall g :: g in grants ==> CanBeApproved(allowBinding, org, g.1)
  }

  function Choose(d: Decision, org: string, grants: seq<GrantDocument>): Result<seq<GrantDocument>, Refusal> {
    SelectApprovalGrants(d.allowBinding, d.approval, d.requested, org, grants)
  }

  lemma FilteredIdsStayDistinct(grants: seq<GrantDocument>, keep: CapabilityGrant -> bool)
    requires DistinctIds(grants)
    ensures DistinctIds(Filter(grants, keep))
  {
    if grants != [] {
      var front, last := grants[..|grants| - 1], grants[|grants| - 1];
      FilteredIdsStayDistinct(front, keep);
      FilterKeeps(front, keep);
      forall d | d in Filter(front, keep) ensures d.0 != last.0 {
        var i :| 0 <= i < |front| && front[i] == d;
      }
    }
  }

  lemma ChosenAreDistinct(d: Decision, org: string, grants: seq<GrantDocument>)
    requires DistinctIds(grants) && Choose(d, org, grants).Ok?
    ensures DistinctIds(Choose(d, org, grants).value)
  {
    var wanted := if d.requested.Some? then d.requested.value else d.approval;
    FilteredIdsStayDistinct(grants, PendingHere(d.allowBinding, org));
    FilteredIdsStayDistinct(Filter(grants, PendingHere(d.allowBinding, org)), NamedAmong(wanted));
  }

  // --- the same on the table ------------------------------------------------------------------------------

  /** The capabilities asked for: those the approver names, or else those of the approval request; none stands for all. */
  function Wanted(d: Decision): set<Capability> {
    if d.requested.Some? then d.requested.value else d.approval
  }

  predicate IsOpenOf(table: map<string, CapabilityGrant>, agent: string, id: string) {
    id in table && table[id].agent == agent && (table[id].status == GrantActive || table[id].status == GrantPending)
  }

  /** The grant reads back as the organization, or it is a request that a binding decision may bind to it. */
  predicate MayBeTakenFor(org: string, allowBinding: bool, g: CapabilityGrant) {
    || GrantOrganization(g) == Some(org)
    || (allowBinding && GrantOrganization(g).None? && g.status == GrantPending && g.capability.Some? && BoundConstraints(g.capability.value, g.constraints, org).Some?)
  }

  /** A pending grant of the agent that was asked for. */
  predicate IsChosen(table: map<string, CapabilityGrant>, d: Decision, id: string) {
    && id in table && table[id].agent == d.agent && table[id].status == GrantPending
    && (Wanted(d) == {} || (table[id].capability.Some? && table[id].capability.value in Wanted(d)))
  }

  predicate ManagesGrant(ctx: Context, g: CapabilityGrant, parse: RecipientPolicy.AddressParser) {
    g.capability.Some? && Can(ctx.rules, Manage, AgentGrant, Resource(ctx.org, GrantMailbox(g), Some(g.capability.value), None), parse)
  }

  /** Everything a decision needs of the stored documents and of its session. */
  ghost predicate MayDecide(s: State, ctx: Context, d: Decision, parse: RecipientPolicy.AddressParser) {
    && CanManageAgents(ctx, parse)
    && (forall id :: IsOpenOf(s.capability, d.agent, id) ==> MayBeTakenFor(ctx.org, d.allowBinding, s.capability[id]))
    && (d.requested.Some? && d.approval != {} ==> d.requested.value <= d.approval)
    && (exists id :: id in s.capability && s.capability[id].agent == d.agent && s.capability[id].status == GrantPending)
    && (forall c :: c in Wanted(d) ==> exists id :: IsChosen(s.capability, d, id) && s.capability[id].capability == Some(c))
    && (forall id :: IsChosen(s.capability, d, id) ==> ManagesGrant(ctx, s.capability[id], parse))
    && d.agent in s.agents && s.agents[d.agent].status == AgentPending
    && d.host in s.hosts && (s.hosts[d.host].status == HostActive || s.hosts[d.host].status == HostPending)
  }

  /** The chosen grant lives as long as the approver says, or else as its capability's positive lifetime; without either it never lapses. */
  predicate LivesAt(g: CapabilityGrant, now: Time, ttl: Option<nat>, lifetimes: Lifetimes, t: Time) {
    if ttl.Some? then t < now + 1000 * ttl.value
    else if g.capability.Some? && lifetimes(g.capability.value).Some? && lifetimes(g.capability.value).value > 0
    then t < now + 1000 * lifetimes(g.capability.value).value
    else true
  }

  lemma ActivatedLives(g: CapabilityGrant, now: Time, ttl: Option<nat>, lifetimes: Lifetimes)
    ensures forall t :: IsCapabilityGrantActive(ActivatedGrant(g, now, ttl, lifetimes), t) <==> LivesAt(g, now, ttl, lifetimes, t)
  {
  }

  lemma TableLives(table: map<string, CapabilityGrant>, ids: set<string>, now: Time, ttl: Option<nat>, lifetimes: Lifetimes)
    ensures var active := ActivatedTable(table, ids, now, ttl, lifetimes);
            forall id :: id in ids && id in table ==> forall t :: IsCapabilityGrantActive(active[id], t) <==> LivesAt(table[id], now, ttl, lifetimes, t)
  {
    forall id | id in ids && id in table
      ensures forall t :: IsCapabilityGrantActive(ActivatedTable(table, ids, now, ttl, lifetimes)[id], t) <==> LivesAt(table[id], now, ttl, lifetimes, t)
    {
      ActivatedLives(table[id], now, ttl, lifetimes);
    }
  }

  lemma OpenAreScoped(d: Decision, org: string, grants: seq<GrantDocument>, table: map<string, CapabilityGrant>)
    requires AreOpenGrantsOf(grants, table, d.agent)
    ensures AllInScope(d.allowBinding, org, grants) <==> forall id :: IsOpenOf(table, d.agent, id) ==> MayBeTakenFor(org, d.allowBinding, table[id])
  {
    forall id | IsOpenOf(table, d.agent, id) ensures CanBeApproved(d.allowBinding, org, table[id]) <==> MayBeTakenFor(org, d.allowBinding, table[id]) {
    }
    if AllInScope(d.allowBinding, org, grants) {
      forall id | IsOpenOf(table, d.agent, id) ensures MayBeTakenFor(org, d.allowBinding, table[id]) {
        assert (id, table[id]) in grants;
      }
    }
    if forall id :: IsOpenOf(table, d.agent, id) ==> MayBeTakenFor(org, d.allowBinding, table[id]) {
      forall g | g in grants ensures CanBeApproved(d.allowBinding, org, g.1) {
        assert IsOpenOf(table, d.agent, g.0);
      }
    }
  }

  lemma ApprovableIsPending(d: Decision, org: string, grants: seq<GrantDocument>, table: map<string, CapabilityGrant>, g: GrantDocument)
    requires AreOpenGrantsOf(grants, table, d.agent) && AllInScope(d.allowBinding, org, grants)
    ensures IsApprovable(g, d.allowBinding, org, grants) <==> g.0 in table && table[g.0] == g.1 && g.1.agent == d.agent && g.1.status == GrantPending
  {
  }

  /** When every open grant is in scope, what is chosen are exactly the pending grants asked for. */
  lemma ChosenAreAsked(d: Decision, org: string, grants: seq<GrantDocument>, table: map<string, CapabilityGrant>)
    requires AreOpenGrantsOf(grants, table, d.agent) && AllInScope(d.allowBinding, org, grants)
    ensures Choose(d, org, grants).Ok? <==>
              && (d.requested.Some? && d.approval != {} ==> d.requested.value <= d.approval)
              && (exists id :: id in table && table[id].agent == d.agent && table[id].status == GrantPending)
              && (forall c :: c in Wanted(d) ==> exists id :: IsChosen(table, d, id) && table[id].capability == Some(c))
    ensures Choose(d, org, grants).Ok? ==> forall id :: id in IdsOf(Choose(d, org, grants).value) <==> IsChosen(table, d, id)
  {
    SelectionIsWhatWasAsked(d.allowBinding, d.approval, d.requested, org, grants);
    forall g ensures IsApprovable(g, d.allowBinding, org, grants) <==> g.0 in table && table[g.0] == g.1 && g.1.agent == d.agent && g.1.status == GrantPending {
      ApprovableIsPending(d, org, grants, table, g);
    }
    forall id | id in table && table[id].agent == d.agent && table[id].status == GrantPending ensures IsApprovable((id, table[id]), d.allowBinding, org, grants) {
      ApprovableIsPending(d, org, grants, table, (id, table[id]));
    }
    if Choose(d, org, grants).Ok? {
      var chosen := Choose(d, org, grants).value;
      forall id | IsChosen(table, d, id) ensures id in IdsOf(chosen) {
        assert (id, table[id]) in chosen;
      }
    }
  }

  lemma CanApproveIsMayDecide(s: State, ctx: Context, d: Decision, grants: seq<GrantDocument>, accepted: bool, parse: RecipientPolicy.AddressParser)
    requires AreOpenGrantsOf(grants, s.capability, d.agent)
    ensures CanApprove(s, ctx, d, grants, accepted, parse) <==> accepted && MayDecide(s, ctx, d, parse)
  {
    OpenAreScoped(d, ctx.org, grants, s.capability);
    if AllInScope(d.allowBinding, ctx.org, grants) {
      ChosenAreAsked(d, ctx.org, grants, s.capability);
      if Choose(d, ctx.org, grants).Ok? {
        ChosenAreManaged(s, ctx, d, grants, parse);
      }
    }
  }

  lemma ChosenAreManaged(s: State, ctx: Context, d: Decision, grants: seq<GrantDocument>, parse: RecipientPolicy.AddressParser)
    requires AreOpenGrantsOf(grants, s.capability, d.agent) && AllInScope(d.allowBinding, ctx.org, grants) && Choose(d, ctx.org, grants).Ok?
    ensures (forall c :: c in Choose(d, ctx.org, grants).value ==> CanManageGrantDocument(ctx, c.1, parse))
            <==> forall id :: IsChosen(s.capability, d, id) ==> ManagesGrant(ctx, s.capability[id], parse)
  {
    var chosen := Choose(d, ctx.org, grants).value;
    ChosenAreAsked(d, ctx.org, grants, s.capability);
    SelectionIsWhatWasAsked(d.allowBinding, d.approval, d.requested, ctx.org, grants);
    if forall c :: c in chosen ==> CanManageGrantDocument(ctx, c.1, parse) {
      forall id | IsChosen(s.capability, d, id) ensures ManagesGrant(ctx, s.capability[id], parse) {
        var c :| c in chosen && c.0 == id;
        assert IsApprovable(c, d.allowBinding, ctx.org, grants);
      }
    }
    if forall id :: IsChosen(s.capability, d, id) ==> ManagesGrant(ctx, s.capability[id], parse) {
      forall c | c in chosen ensures CanManageGrantDocument(ctx, c.1, parse) {
        assert c.0 in IdsOf(chosen) && IsApprovable(c, d.allowBinding, ctx.org, grants);
      }
    }
  }

  /** Grant by grant: the chosen ones are active for the organization as long as approved, for what they were asked for; no other changes. */
  ghost predicate ApprovesGrants(before: map<string, CapabilityGrant>, after: map<string, CapabilityGrant>, d: Decision, org: string, now: Time, lifetimes: Lifetimes) {
    && after.Keys == before.Keys
    && (forall id :: id in before && !IsChosen(before, d, id) ==> after[id] == before[id])
    && (forall id :: IsChosen(before, d, id) ==> ApprovesGrant(before[id], after[id], d, org, now, lifetimes))
  }

  ghost predicate ApprovesGrant(g: CapabilityGrant, h: CapabilityGrant, d: Decision, org: string, now: Time, lifetimes: Lifetimes) {
    && h.agent == g.agent && h.capability == g.capability
    && (if GrantOrganization(g).Some? then h.constraints == g.constraints
        else g.capability.Some? && Some(h.constraints) == BoundConstraints(g.capability.value, g.constraints, org))
    && GrantOrganization(h) == Some(org)
    && forall t :: IsCapabilityGrantActive(h, t) <==> LivesAt(g, now, d.ttl, lifetimes, t)
  }

  lemma ApprovedGrant(g: CapabilityGrant, d: Decision, org: string, now: Time, lifetimes: Lifetimes)
    requires g.status == GrantPending && g.capability.Some? && BoundCopy(g, org).Some? && GrantOrganization(BoundCopy(g, org).value) == Some(org)
    ensures ApprovesGrant(g, ActivatedGrant(BoundCopy(g, org).value, now, d.ttl, lifetimes), d, org, now, lifetimes)
  {
    ActivatedLives(BoundCopy(g, org).value, now, d.ttl, lifetimes);
  }

  /** What a decision needs, all of it. `accepted` is what the authentication service answered. */
  predicate CanApprove(s: State, ctx: Context, d: Decision, grants: seq<GrantDocument>, accepted: bool, parse: RecipientPolicy.AddressParser) {
    && accepted && CanManageAgents(ctx, parse)
    && AllInScope(d.allowBinding, ctx.org, grants)
    && Choose(d, ctx.org, grants).Ok?
    && (forall c :: c in Choose(d, ctx.org, grants).value ==> CanManageGrantDocument(ctx, c.1, parse))
    && d.agent in s.agents && s.agents[d.agent].status == AgentPending
    && d.host in s.hosts && (s.hosts[d.host].status == HostActive || s.hosts[d.host].status == HostPending)
  }

  /**
   * The whole decision on the agent's open grants: it succeeds exactly when everything it needs is
   * there. The chosen grants are then active for the approver's organization, bound and with the
   * approved expiry, and no other grant has changed; when it does not succeed, no grant, agent or
   * host has changed status.
   */
  method DecideApproval(db: Database, ctx: Context, d: Decision, grants: seq<GrantDocument>, accepted: bool, now: Time, lifetimes: Lifetimes,
                        parse: RecipientPolicy.AddressParser) returns (ok: bool)
    requires AreOpenGrantsOf(grants, db.capability, d.agent)
    modifies db
    ensures ok <==> accepted && MayDecide(old(db.Snapshot()), ctx, d, parse)
    ensures ok ==> ApprovesGrants(old(db.capability), db.capability, d, ctx.org, now, lifetimes)
    ensures ok ==>
              && d.agent in old(db.agents) && d.host in old(db.hosts)
              && db.agents == old(db.agents)[d.agent := old(db.agents)[d.agent].(status := AgentActive, user := Some(d.user), expiresAt := None)]
              && db.hosts == old(db.hosts)[d.host := old(db.hosts)[d.host].(status := HostActive, user := Some(d.user), expiresAt := None)]
    ensures !ok ==>
              && OnlyConstraintsDiffer(old(db.capability), db.capability)
              && db.Snapshot() == old(db.Snapshot()).(capability := db.capability)
    ensures db.mailbox == old(db.mailbox) && db.system == old(db.system) && db.requests == old(db.requests)
  {
    CanApproveIsMayDecide(db.Snapshot(), ctx, d, grants, accepted, parse);
    var chosen := Choose(d, ctx.org, grants);
    if !CanManageAgents(ctx, parse) || !AllInScope(d.allowBinding, ctx.org, grants) || chosen.Err? || !accepted {
      return false;
    }
    var allowed := CanManageAll(ctx, chosen.value, parse);
    if !allowed {
      return false;
    }
    ChosenAreDistinct(d, ctx.org, grants);
    ChosenAreBindable(d, ctx.org, grants, db.capability);
    var bound := BindToOrganization(db, ctx.org, chosen.value);
    assert bound.Ok?;
    ghost var table := db.capability;
    BindingsAreStored(old(db.capability), table, d, ctx.org, grants);
    ok := ApplyApproved(db, chosen.value, d.agent, d.host, d.user, now, d.ttl, lifetimes);
    if ok {
      ApprovalApproves(old(db.capability), table, d, ctx.org, grants, now, lifetimes);
    }
  }

  lemma ApprovalApproves(before: map<string, CapabilityGrant>, table: map<string, CapabilityGrant>, d: Decision, org: string, grants: seq<GrantDocument>, now: Time, lifetimes: Lifetimes)
    requires AreOpenGrantsOf(grants, before, d.agent) && AllInScope(d.allowBinding, org, grants) && Choose(d, org, grants).Ok?
    requires Stored(before, table, org, Choose(d, org, grants).value)
    requires forall c :: c in Choose(d, org, grants).value ==> c.1.capability.Some?
    ensures ApprovesGrants(before, ActivatedTable(table, IdsOf(Choose(d, org, grants).value), now, d.ttl, lifetimes), d, org, now, lifetimes)
  {
    var chosen := Choose(d, org, grants).value;
    BindingsAreStored(before, table, d, org, grants);
    ActivationKeepsBindings(table, IdsOf(chosen), now, d.ttl, lifetimes);
    ChosenAreAsked(d, org, grants, before);
    forall id | IsChosen(before, d, id)
      ensures ApprovesGrant(before[id], ActivatedTable(table, IdsOf(chosen), now, d.ttl, lifetimes)[id], d, org, now, lifetimes)
    {
      var c :| c in chosen && c.0 == id;
      ChosenIsApproved(before, table, d, org, grants, c, now, lifetimes);
    }
  }

  lemma ChosenIsApproved(before: map<string, CapabilityGrant>, table: map<string, CapabilityGrant>, d: Decision, org: string, grants: seq<GrantDocument>, c: GrantDocument, now: Time, lifetimes: Lifetimes)
    requires ReadFrom(grants, before) && Choose(d, org, grants).Ok? && c in Choose(d, org, grants).value && c.1.capability.Some?
    requires c.0 in table && BoundCopy(c.1, org) == Some(table[c.0]) && GrantOrganization(table[c.0]) == Some(org)
    ensures c.0 in before && ApprovesGrant(before[c.0], ActivatedGrant(table[c.0], now, d.ttl, lifetimes), d, org, now, lifetimes)
  {
    SelectionIsWhatWasAsked(d.allowBinding, d.approval, d.requested, org, grants);
    assert IsApprovable(c, d.allowBinding, org, grants);
    ApprovedGrant(c.1, d, org, now, lifetimes);
  }

  lemma ChosenAreBindable(d: Decision, org: string, grants: seq<GrantDocument>, table: map<string, CapabilityGrant>)
    requires ReadFrom(grants, table) && Choose(d, org, grants).Ok?
    ensures Bindable(table, Choose(d, org, grants).value, org)
    ensures forall c :: c in Choose(d, org, grants).value ==> IsPendingGrant(table, c.0)
  {
    SelectionIsWhatWasAsked(d.allowBinding, d.approval, d.requested, org, grants);
    forall c | c in Choose(d, org, grants).value ensures BoundCopy(c.1, org).Some? && IsPendingGrant(table, c.0) {
      assert IsApprovable(c, d.allowBinding, org, grants);
      BoundBelongsToOrganization(d.allowBinding, org, c.1);
    }
  }

  lemma ActivationKeepsBindings(table: map<string, CapabilityGrant>, ids: set<string>, now: Time, ttl: Option<nat>, lifetimes: Lifetimes)
    ensures var active := ActivatedTable(table, ids, now, ttl, lifetimes);
            && (forall id :: id in ids && id in table ==> active[id] == ActivatedGrant(table[id], now, ttl, lifetimes))
            && (forall id :: id in table && id !in ids ==> active[id] == table[id])
  {
  }

  method CanManageAll(ctx: Context, grants: seq<GrantDocument>, parse: RecipientPolicy.AddressParser) returns (ok: bool)
    ensures ok <==> forall c :: c in grants ==> CanManageGrantDocument(ctx, c.1, parse)
  {
    for n := 0 to |grants|
      invariant forall i :: 0 <= i < n ==> CanManageGrantDocument(ctx, grants[i].1, parse)
    {
      if !CanManageGrantDocument(ctx, grants[n].1, parse) {
        assert grants[n] in grants;
        return false;
      }
    }
    return true;
  }

  lemma BindingsAreStored(before: map<string, CapabilityGrant>, after: map<string, CapabilityGrant>, d: Decision, org: string, grants: seq<GrantDocument>)
    requires ReadFrom(grants, before) && Choose(d, org, grants).Ok?
    requires Stored(before, after, org, Choose(d, org, grants).value)
    ensures forall c :: c in Choose(d, org, grants).value ==>
                          && c.0 in IdsOf(Choose(d, org, grants).value)
                          && IsPendingGrant(after, c.0) && BoundCopy(c.1, org) == Some(after[c.0]) && GrantOrganization(after[c.0]) == Some(org)
    ensures forall id :: id in before && id !in IdsOf(Choose(d, org, grants).value) ==> after[id] == before[id]
  {
    var chosen := Choose(d, org, grants).value;
    SelectionIsWhatWasAsked(d.allowBinding, d.approval, d.requested, org, grants);
    forall c | c in chosen
      ensures IsPendingGrant(after, c.0) && BoundCopy(c.1, org) == Some(after[c.0]) && GrantOrganization(after[c.0]) == Some(org)
    {
      assert IsApprovable(c, d.allowBinding, org, grants);
      BoundBelongsToOrganization(d.allowBinding, org, c.1);
      ChosenAreDistinct(d, org, grants);
    }
    forall id | id in before && id !in IdsOf(chosen) ensures after[id] == before[id] {
      assert forall c :: c in chosen ==> c.0 != id;
    }
  }
}
