/**
 * What the writes that follow their checks can do to each other: exactly when one makes authority
 * live again, and under which organization an approval activates a grant.
 */
module Races {
  import opened Wrappers
  import opened Capabilities
  import opened Grants
  import opened Ability
  import opened GrantWrites
  import opened Authorization
  import opened Delegation
  import Approval
  import GrantReplacement
  import RecipientPolicy

  // --- when authority becomes live -----------------------------------------------------------------------------

  /**
   * A step makes live an authority that was not live if and only if it commits work in flight that
   * takes effect and confers it: an unexpired upsert, an insert of a missing document or request,
   * or an activation whose compare-and-sets all match.
   */
  lemma BecomesLiveExactly(w: World, e: Event, out: Outside, a: Authority)
    requires !Live(w.s, w.now, a)
    ensures Live(Next(w, e, out).s, Next(w, e, out).now, a) <==>
              e.Commit? && e.work in w.pool && TakesEffect(w.s, w.now, e.work, out.lifetimes, a)
  {
    if e.Commit? && e.work in w.pool {
      WorkMakesLive(w.s, w.now, e.work, out.lifetimes, a);
    } else if Live(Next(w, e, out).s, Next(w, e, out).now, a) {
      OtherStepsMakeNothingLive(w, e, out, a);
    }
  }

  /** No step from here can make anything live that is not. */
  ghost predicate NothingCanAppear(w: World, out: Outside) {
    forall e, a :: Live(Next(w, e, out).s, Next(w, e, out).now, a) ==> Live(w.s, w.now, a)
  }

  /** No work in flight would confer, effectively, anything that is not live. */
  ghost predicate NothingNewInFlight(w: World, out: Outside) {
    forall work, a :: work in w.pool && TakesEffect(w.s, w.now, work, out.lifetimes, a) ==> Live(w.s, w.now, a)
  }

  /** So from one moment to the next no authority appears exactly while no such work is in flight. */
  lemma NothingAppearsExactly(w: World, out: Outside)
    ensures NothingCanAppear(w, out) <==> NothingNewInFlight(w, out)
  {
    if NothingNewInFlight(w, out) {
      forall e, a | Live(Next(w, e, out).s, Next(w, e, out).now, a) ensures Live(w.s, w.now, a) {
        if !Live(w.s, w.now, a) {
          BecomesLiveExactly(w, e, out, a);
        }
      }
    }
    if NothingCanAppear(w, out) {
      forall work, a | work in w.pool && TakesEffect(w.s, w.now, work, out.lifetimes, a) ensures Live(w.s, w.now, a) {
        WorkMakesLive(w.s, w.now, work, out.lifetimes, a);
        assert Live(Next(w, Commit(work), out).s, Next(w, Commit(work), out).now, a);
      }
    }
  }

  /** In particular an upsert in flight outlives the revocation of its grant. */
  lemma LateUpsertUndoesRevocation(w: World, k: MailboxKey, expiresAt: Option<Time>, out: Outside, a: Authority)
    requires OneWrite(ActivateMailbox(k, expiresAt)) in w.pool && Unexpired(expiresAt, w.now) && MailboxKeyConfers(k, a)
    ensures var revoked := Next(w, Revoke(RevokeMailbox(k)), out);
            var written := Next(revoked, Commit(OneWrite(ActivateMailbox(k, expiresAt))), out);
            Live(written.s, written.now, a)
  {
    var work, revoked := OneWrite(ActivateMailbox(k, expiresAt)), Next(w, Revoke(RevokeMailbox(k)), out);
    WorkMakesLive(revoked.s, revoked.now, work, out.lifetimes, a);
  }

  // --- under which organization a grant is activated ---------------------------------------------------------------

  /** The binding this step applies to the grant, if it applies one: the grant must still be pending. */
  ghost function AppliedBinding(w: World, e: Event, id: string): Option<RawConstraints> {
    if e.Commit? && e.work in w.pool && e.work.OneWrite? && e.work.write.BindCapability? && e.work.write.id == id
       && Approval.IsPendingGrant(w.s.capability, id)
    then Some(e.work.write.constraints) else None
  }

  /** The last binding a run applies to the grant. */
  ghost function LastBinding(w: World, events: seq<Event>, id: string, out: Outside): Option<RawConstraints>
    decreases |events|
  {
    if events == [] then None
    else
      var later := LastBinding(Next(w, events[0], out), events[1..], id, out);
      if later.Some? then later else AppliedBinding(w, events[0], id)
  }

  lemma WriteBinds(s: State, w: Write, id: string)
    requires id in s.capability
    ensures id in Apply(s, w).capability && Apply(s, w).capability[id].capability == s.capability[id].capability
    ensures Apply(s, w).capability[id].constraints ==
            if w.BindCapability? && w.id == id && Approval.IsPendingGrant(s.capability, id) then w.constraints else s.capability[id].constraints
  {
    match w
    case RevokeCapability(_) =>
    case BindCapability(_, _) =>
    case _ => assert Apply(s, w).capability == s.capability;
  }

  lemma StepBinds(w: World, e: Event, id: string, out: Outside)
    requires id in w.s.capability
    ensures var next := Next(w, e, out).s.capability;
            && id in next && next[id].capability == w.s.capability[id].capability
            && next[id].constraints == (if AppliedBinding(w, e, id).Some? then AppliedBinding(w, e, id).value else w.s.capability[id].constraints)
  {
    match e
    case Commit(work) => CommitBinds(w, work, id, out);
    case Revoke(write) => WriteBinds(w.s, write, id);
    case TakeUpEnrollment(_, _, _) => EnrollmentEvolvesNothing(w, e, out);
    case WithdrawEnrollment(_) => EnrollmentEvolvesNothing(w, e, out);
    case _ =>
  }

  lemma CommitBinds(w: World, work: InFlight, id: string, out: Outside)
    requires id in w.s.capability
    ensures var e := Commit(work);
            var next := Next(w, e, out).s.capability;
            && id in next && next[id].capability == w.s.capability[id].capability
            && next[id].constraints == (if AppliedBinding(w, e, id).Some? then AppliedBinding(w, e, id).value else w.s.capability[id].constraints)
  {
    if work in w.pool && work.OneWrite? {
      WriteBinds(w.s, work.write, id);
    }
  }

  /** A grant keeps its capability, and its constraints are those of the last binding applied. */
  lemma {:induction false} RunBinds(w: World, events: seq<Event>, id: string, out: Outside)
    requires id in w.s.capability
    ensures var last := Run(w, events, out).s.capability;
            && id in last && last[id].capability == w.s.capability[id].capability
            && last[id].constraints == (if LastBinding(w, events, id, out).Some? then LastBinding(w, events, id, out).value
                                        else w.s.capability[id].constraints)
    decreases |events|
  {
    if events != [] {
      StepBinds(w, events[0], id, out);
      RunBinds(Next(w, events[0], out), events[1..], id, out);
    }
  }

  /** The organization a grant reads back as under these constraints. */
  function OrganizationUnder(g: CapabilityGrant, constraints: RawConstraints): Option<string> {
    GrantOrganization(g.(constraints := constraints))
  }

  /** What the grant reads back as after a run, by its last binding. */
  ghost function OrganizationAfter(w: World, events: seq<Event>, id: string, out: Outside): Option<string>
    requires id in w.s.capability
  {
    var last := LastBinding(w, events, id, out);
    if last.Some? then OrganizationUnder(w.s.capability[id], last.value) else GrantOrganization(w.s.capability[id])
  }

  lemma SameOrganization(g: CapabilityGrant, h: CapabilityGrant)
    requires g.capability == h.capability && g.constraints == h.constraints
    ensures GrantOrganization(g) == GrantOrganization(h)
  {
  }

  /**
   * An activation that commits makes each of its grants active as a grant of the organization that
   * bound it last, whoever is activating it.
   */
  lemma ActivatedUnderLastBinding(w: World, events: seq<Event>, work: InFlight, id: string, out: Outside)
    requires id in w.s.capability && work.Activation? && id in work.ids
    requires work in Run(w, events, out).pool && Approval.CanActivate(Run(w, events, out).s, work.ids, work.agent, work.host)
    ensures var activated := Next(Run(w, events, out), Commit(work), out).s.capability;
            && id in activated && activated[id].status == GrantActive
            && GrantOrganization(activated[id]) == OrganizationAfter(w, events, id, out)
  {
    RunBinds(w, events, id, out);
    var at := Run(w, events, out);
    var activated, last := Next(at, Commit(work), out).s.capability, LastBinding(w, events, id, out);
    assert activated[id].constraints == at.s.capability[id].constraints && activated[id].capability == at.s.capability[id].capability;
    var g := w.s.capability[id];
    SameOrganization(activated[id], if last.Some? then g.(constraints := last.value) else g);
  }

  /** How many bindings of the grant the run applies to this organization, or to none or another. */
  ghost function BindingsTo(w: World, events: seq<Event>, id: string, org: string, own: bool, out: Outside): nat
    requires id in w.s.capability
    decreases |events|
  {
    if events == [] then 0
    else
      var applied := AppliedBinding(w, events[0], id);
      StepBinds(w, events[0], id, out);
      (if applied.Some? && (OrganizationUnder(w.s.capability[id], applied.value) == Some(org)) == own then 1 else 0)
      + BindingsTo(Next(w, events[0], out), events[1..], id, org, own, out)
  }

  lemma {:induction false} LastBindingIsCounted(w: World, events: seq<Event>, id: string, org: string, out: Outside)
    requires id in w.s.capability
    ensures var last := LastBinding(w, events, id, out);
            && (last.None? <==> BindingsTo(w, events, id, org, true, out) == 0 && BindingsTo(w, events, id, org, false, out) == 0)
            && (last.Some? && OrganizationUnder(w.s.capability[id], last.value) == Some(org) ==> BindingsTo(w, events, id, org, true, out) > 0)
            && (last.Some? && OrganizationUnder(w.s.capability[id], last.value) != Some(org) ==> BindingsTo(w, events, id, org, false, out) > 0)
    decreases |events|
  {
    if events != [] {
      var next := Next(w, events[0], out);
      StepBinds(w, events[0], id, out);
      LastBindingIsCounted(next, events[1..], id, org, out);
      var later := LastBinding(next, events[1..], id, out);
      if later.Some? {
        SameOrganization(w.s.capability[id].(constraints := later.value), next.s.capability[id].(constraints := later.value));
      }
    }
  }

  /**
   * From a moment at which the grant reads back as the organization: it still does after a run if
   * and only if the run applies no binding of it, or the last one applied is to that organization
   * again. With no other organization's binding applied it does; with one, and none of its own
   * after, it does not.
   */
  lemma StaysBoundExactly(w: World, events: seq<Event>, id: string, org: string, out: Outside)
    requires id in w.s.capability && GrantOrganization(w.s.capability[id]) == Some(org)
    ensures var last := LastBinding(w, events, id, out);
            var own, others := BindingsTo(w, events, id, org, true, out), BindingsTo(w, events, id, org, false, out);
            var kept := OrganizationAfter(w, events, id, out) == Some(org);
            && (kept <==> last.None? || OrganizationUnder(w.s.capability[id], last.value) == Some(org))
            && (others == 0 ==> kept)
            && (own == 0 ==> (kept <==> others == 0))
  {
    LastBindingIsCounted(w, events, id, org, out);
  }

  // --- an approver's own binding and activation -------------------------------------------------------------------

  function OwnBinding(org: string, c: Approval.GrantDocument): InFlight
    requires Approval.BoundCopy(c.1, org).Some?
  {
    OneWrite(BindCapability(c.0, Approval.BoundCopy(c.1, org).value.constraints))
  }

  function OwnActivation(org: string, d: Approval.Decision, grants: seq<Approval.GrantDocument>): InFlight
    requires Approval.Choose(d, org, grants).Ok?
  {
    Activation(Approval.IdsOf(Approval.Choose(d, org, grants).value), d.agent, d.host, d.user, d.ttl)
  }

  lemma ChosenBindsToOrganization(d: Approval.Decision, org: string, grants: seq<Approval.GrantDocument>, c: Approval.GrantDocument)
    requires Approval.Choose(d, org, grants).Ok? && c in Approval.Choose(d, org, grants).value
    ensures Approval.BoundCopy(c.1, org).Some? && GrantOrganization(Approval.BoundCopy(c.1, org).value) == Some(org)
    ensures Approval.BoundCopy(c.1, org).value == c.1.(constraints := Approval.BoundCopy(c.1, org).value.constraints)
  {
    ChosenIsApprovable(d, org, grants, c);
    Approval.BoundBelongsToOrganization(d.allowBinding, org, c.1);
  }

  /** A chosen grant, bound when the approver's own binding is applied, reads back as the approver's organization. */
  lemma OwnBindingReadsBack(w: World, ctx: Context, d: Approval.Decision, grants: seq<Approval.GrantDocument>, c: Approval.GrantDocument,
                            before: seq<Event>, out: Outside)
    requires CanBegin(w, ctx, Approve(d, grants), out.parse) && c in Approval.Choose(d, ctx.org, grants).value
    requires Approval.BoundCopy(c.1, ctx.org).Some?
    requires var ready := Run(Next(w, Begin(ctx, Approve(d, grants)), out), before, out);
             OwnBinding(ctx.org, c) in ready.pool && Approval.IsPendingGrant(ready.s.capability, c.0)
    ensures var bound := Next(Run(Next(w, Begin(ctx, Approve(d, grants)), out), before, out), Commit(OwnBinding(ctx.org, c)), out);
            c.0 in bound.s.capability && GrantOrganization(bound.s.capability[c.0]) == Some(ctx.org)
  {
    ChosenIsApprovable(d, ctx.org, grants, c);
    ChosenBindsToOrganization(d, ctx.org, grants, c);
    var begun := Next(w, Begin(ctx, Approve(d, grants)), out);
    StepFrame(w, Begin(ctx, Approve(d, grants)), out);
    RunBinds(begun, before, c.0, out);
    var ready := Run(begun, before, out);
    StepBinds(ready, Commit(OwnBinding(ctx.org, c)), c.0, out);
    SameOrganization(Next(ready, Commit(OwnBinding(ctx.org, c)), out).s.capability[c.0], Approval.BoundCopy(c.1, ctx.org).value);
  }

  /**
   * The property over every interleaving: an approver's checks pass; anything happens; its binding
   * of a chosen grant is applied; anything happens; its activation commits. The grant is then
   * active for the approver's organization if and only if the last binding applied in between, if
   * any, was to that organization; and unless that organization bound it again, if and only if no
   * other organization's binding was applied in between.
   */
  lemma ActivatedForApproverExactly(w: World, ctx: Context, d: Approval.Decision, grants: seq<Approval.GrantDocument>, c: Approval.GrantDocument,
                                    before: seq<Event>, between: seq<Event>, out: Outside)
    requires CanBegin(w, ctx, Approve(d, grants), out.parse) && c in Approval.Choose(d, ctx.org, grants).value
    requires Approval.BoundCopy(c.1, ctx.org).Some?
    requires var ready := Run(Next(w, Begin(ctx, Approve(d, grants)), out), before, out);
             && OwnBinding(ctx.org, c) in ready.pool && Approval.IsPendingGrant(ready.s.capability, c.0)
             && var at := Run(Next(ready, Commit(OwnBinding(ctx.org, c)), out), between, out);
                OwnActivation(ctx.org, d, grants) in at.pool && Approval.CanActivate(at.s, Approval.IdsOf(Approval.Choose(d, ctx.org, grants).value), d.agent, d.host)
    ensures var bound := Next(Run(Next(w, Begin(ctx, Approve(d, grants)), out), before, out), Commit(OwnBinding(ctx.org, c)), out);
            && c.0 in bound.s.capability
            && var last := LastBinding(bound, between, c.0, out);
            var activated := Next(Run(bound, between, out), Commit(OwnActivation(ctx.org, d, grants)), out).s.capability;
            && c.0 in activated && activated[c.0].status == GrantActive
            && (GrantOrganization(activated[c.0]) == Some(ctx.org) <==>
                  last.None? || OrganizationUnder(bound.s.capability[c.0], last.value) == Some(ctx.org))
            && (BindingsTo(bound, between, c.0, ctx.org, true, out) == 0 ==>
                  (GrantOrganization(activated[c.0]) == Some(ctx.org) <==> BindingsTo(bound, between, c.0, ctx.org, false, out) == 0))
  {
    OwnBindingReadsBack(w, ctx, d, grants, c, before, out);
    var bound := Next(Run(Next(w, Begin(ctx, Approve(d, grants)), out), before, out), Commit(OwnBinding(ctx.org, c)), out);
    assert c.0 in Approval.IdsOf(Approval.Choose(d, ctx.org, grants).value);
    ActivatedUnderLastBinding(bound, between, OwnActivation(ctx.org, d, grants), c.0, out);
    StaysBoundExactly(bound, between, c.0, ctx.org, out);
  }

  // --- two runs -----------------------------------------------------------------------------------------------------

  function Managing(org: string, p: Principal): SystemKey {
    SystemKey(org, p, ManageAgents)
  }

  /** The session of a principal whose one grant is agent management. */
  function ManagerSession(org: string, p: Principal): Context {
    Context(Actor(p, None, None), org, [StatusRule(org)] + SystemCapabilityRules(Managing(org, p), AgentManage))
  }

  /** The state holds exactly that one grant for the principal, and it is active. */
  predicate HoldsOnlyManagement(s: State, now: Time, org: string, p: Principal) {
    && p.kind != AgentPrincipal && s.mailbox == map[]
    && Managing(org, p) in s.system && IsGrantActive(s.system[Managing(org, p)], now)
    && forall k :: k in s.system && k.principal == p ==> k == Managing(org, p)
  }

  lemma ManagerRules(org: string, p: Principal, st: GrantState, now: Time, rule: Rule)
    requires IsGrantActive(st, now)
    ensures rule in ManagerSession(org, p).rules <==> SystemGrantYields(Managing(org, p), st, ManagerSession(org, p).actor, now, rule)
  {
    assert SystemBundle(ManageAgents) == [AgentManage] && SystemBundle(ManageAgents)[0] == AgentManage;
  }

  lemma ManagerIsBuilt(s: State, now: Time, org: string, p: Principal)
    requires HoldsOnlyManagement(s, now, org, p)
    ensures BuiltFrom(ManagerSession(org, p), s, now) && !Administers(ManagerSession(org, p).actor, org)
  {
    var ctx, docs, k := ManagerSession(org, p), DocumentsOf(s), Managing(org, p);
    assert (k, s.system[k]) in docs.system;
    forall rule ensures rule in ctx.rules <==> Yields(docs, ctx.actor, now, rule) {
      ManagerRules(org, p, s.system[k], now, rule);
      if Yields(docs, ctx.actor, now, rule) {
        var other, st :| (other, st) in docs.system && SystemGrantYields(other, st, ctx.actor, now, rule);
        assert other == k && st == s.system[k];
      }
    }
  }

  lemma ManagerManages(org: string, p: Principal, mailbox: Option<string>, parse: RecipientPolicy.AddressParser)
    ensures CanManageAgentGrant(ManagerSession(org, p), AgentManage, mailbox, parse)
    ensures CanManageAdminAgentGrant(ManagerSession(org, p), NamedPermission(ManageAgents), mailbox, parse)
  {
    var rules := ManagerSession(org, p).rules;
    assert rules[2] == Rule({Manage}, AgentGrant, GrantInOrganization(org, AgentManage));
    assert Answers(rules[2], Manage, AgentGrant, Resource(org, mailbox, Some(AgentManage), None), parse);
  }

  const LENDER := Principal(ServicePrincipal, "lender")
  const BORROWED := Managing("org", Principal(AgentPrincipal, "borrower"))

  /** The lender's grant lapses at time 10. */
  const LENDING := State(map[], map[Managing("org", LENDER) := GrantState(Active, Some(10), true)], map[], map[], map[], map[])

  const LEND := Begin(ManagerSession("org", LENDER), ReplaceSystemPermissions(BORROWED.principal, {ManageAgents}))
  const LOAN := OneWrite(ActivateSystem(BORROWED, None))

  lemma LenderMayLend(out: Outside)
    ensures Next(World(LENDING, 0, multiset{}), LEND, out) == World(LENDING, 0, multiset{LOAN})
  {
    ManagerIsBuilt(LENDING, 0, "org", LENDER);
    ManagerManages("org", LENDER, None, out.parse);
    assert GrantReplacement.StaleSystemKeys(LENDING, "org", BORROWED.principal, {ManageAgents}) == {};
    assert GrantReplacement.WantedSystemKeys("org", BORROWED.principal, {ManageAgents}) == {BORROWED};
    assert Issued(LENDING, LEND.ctx, LEND.operation) == {LOAN};
  }

  lemma LentUntilTen()
    ensures var a := OnOrganization("org", AgentManage);
            SystemKeyConfers(BORROWED, a) && Live(LENDING, 0, a) && !Live(LENDING, 20, a)
  {
    var a, k := OnOrganization("org", AgentManage), Managing("org", LENDER);
    assert SystemBundle(ManageAgents)[0] == AgentManage;
    LiveByTable(LENDING, 0, a);
    LiveByTable(LENDING, 20, a);
    assert k in LENDING.system && SystemKeyConfers(k, a);
  }

  /** A run in which authority lapses and comes back: the write was checked before the lapse and made after it. */
  lemma LapsedAuthorityCanReturn(out: Outside)
    ensures var w, a := World(LENDING, 0, multiset{}), OnOrganization("org", AgentManage);
            var lapsed := Run(w, [LEND, Tick(20)], out);
            var written := Next(lapsed, Commit(LOAN), out);
            Live(w.s, w.now, a) && !Live(lapsed.s, lapsed.now, a) && Live(written.s, written.now, a)
  {
    var w, a := World(LENDING, 0, multiset{}), OnOrganization("org", AgentManage);
    RunOfTwo(w, LEND, Tick(20), out);
    LenderMayLend(out);
    LentUntilTen();
    LoanTakesEffect(out.lifetimes);
    BecomesLiveExactly(World(LENDING, 20, multiset{LOAN}), Commit(LOAN), out, a);
  }

  lemma LoanTakesEffect(lifetimes: Approval.Lifetimes)
    ensures TakesEffect(LENDING, 20, LOAN, lifetimes, OnOrganization("org", AgentManage))
  {
    assert SystemBundle(ManageAgents)[0] == AgentManage;
  }

  lemma RunOfTwo(w: World, one: Event, two: Event, out: Outside)
    ensures Run(w, [one, two], out) == Next(Next(w, one, out), two, out)
  {
    assert [one, two][1..] == [two] && [two][1..] == [];
    assert Run(Next(w, one, out), [two], out) == Run(Next(Next(w, one, out), two, out), [], out);
  }

  const FIRST := Principal(UserSession, "first")
  const SECOND := Principal(UserSession, "second")
  const ASKED := CapabilityGrant("agent", Some(AgentManage), Nothing, GrantPending, None)

  /** An unclaimed agent has asked for agent management; two managers of different organizations can approve it. */
  const ASKING := State(
    map[], map[Managing("one", FIRST) := Activated(None), Managing("two", SECOND) := Activated(None)],
    map["grant" := ASKED], map[], map["agent" := AgentRecord("host", None, AgentPending, None)], map["host" := HostRecord(None, HostPending, None)])

  const DECISION := Approval.Decision(true, {}, None, "agent", "host", "user", None)
  const ASKED_GRANTS: seq<Approval.GrantDocument> := [("grant", ASKED)]

  function BoundTo(org: string): RawConstraints {
    Constraints(Present(org), Absent, Absent, Absent, Absent, false)
  }

  function Bind(org: string): InFlight {
    OneWrite(BindCapability("grant", BoundTo(org)))
  }

  const ACTIVATE := Activation({"grant"}, "agent", "host", "user", None)

  lemma AskedIsChosen(org: string)
    ensures Approval.Choose(DECISION, org, ASKED_GRANTS) == Ok(ASKED_GRANTS)
    ensures Approval.BoundCopy(ASKED, org) == Some(ASKED.(constraints := BoundTo(org)))
  {
    var keep := Approval.PendingHere(true, org);
    assert GrantOrganization(ASKED) == None && Approval.CanBeApproved(true, org, ASKED) && keep(ASKED);
    assert |ASKED_GRANTS| == 1 && ASKED_GRANTS[..0] == [] && ASKED_GRANTS[0] == ("grant", ASKED);
    assert Approval.Filter(ASKED_GRANTS, keep) == Approval.Filter([], keep) + [ASKED_GRANTS[0]];
    assert Approval.Filter(ASKED_GRANTS, keep) == ASKED_GRANTS;
  }

  lemma ManagerMayApprove(s: State, now: Time, org: string, p: Principal, out: Outside)
    requires HoldsOnlyManagement(s, now, org, p) && s.capability == map["grant" := ASKED]
    ensures CanBegin(World(s, now, multiset{}), ManagerSession(org, p), Approve(DECISION, ASKED_GRANTS), out.parse)
    ensures Issued(s, ManagerSession(org, p), Approve(DECISION, ASKED_GRANTS)) == {Bind(org), ACTIVATE}
  {
    var ctx := ManagerSession(org, p);
    ManagerIsBuilt(s, now, org, p);
    AskedIsChosen(org);
    ManagerManages(org, p, GrantMailbox(ASKED), out.parse);
    assert ASKED_GRANTS[0] in ASKED_GRANTS;
    assert Bindings(org, ASKED_GRANTS) == {Bind(org)};
    assert Approval.IdsOf(ASKED_GRANTS) == {"grant"};
  }

  const APPROVE_ONE := Begin(ManagerSession("one", FIRST), Approve(DECISION, ASKED_GRANTS))
  const APPROVE_TWO := Begin(ManagerSession("two", SECOND), Approve(DECISION, ASKED_GRANTS))

  lemma BothMayApprove(out: Outside)
    ensures Next(Next(World(ASKING, 0, multiset{}), APPROVE_ONE, out), APPROVE_TWO, out)
            == World(ASKING, 0, multiset{Bind("one"), ACTIVATE} + multiset{Bind("two"), ACTIVATE})
  {
    ManagerMayApprove(ASKING, 0, "one", FIRST, out);
    ManagerMayApprove(ASKING, 0, "two", SECOND, out);
  }

  function AskedAndBound(org: string): State {
    ASKING.(capability := map["grant" := ASKED.(constraints := BoundTo(org))])
  }

  const RACE := [APPROVE_ONE, APPROVE_TWO, Commit(Bind("one")), Commit(Bind("two"))]

  lemma RunOfFour(w: World, one: Event, two: Event, three: Event, four: Event, out: Outside)
    ensures Run(w, [one, two, three, four], out) == Next(Next(Next(Next(w, one, out), two, out), three, out), four, out)
  {
    var a := Next(w, one, out);
    var b := Next(a, two, out);
    assert [one, two, three, four][1..] == [two, three, four];
    assert [two, three, four][1..] == [three, four];
    assert [three, four][1..] == [four] && [four][1..] == [];
    assert Run(b, [three, four], out) == Run(Next(b, three, out), [four], out);
    assert Run(a, [two, three, four], out) == Run(b, [three, four], out);
  }

  lemma BindsInRace(s: State, org: string, pool: multiset<InFlight>, out: Outside)
    requires Bind(org) in pool && "grant" in s.capability && s.capability == map["grant" := s.capability["grant"]]
    requires s == ASKING.(capability := s.capability)
    requires s.capability["grant"] == ASKED.(constraints := s.capability["grant"].constraints)
    ensures Next(World(s, 0, pool), Commit(Bind(org)), out) == World(AskedAndBound(org), 0, pool - multiset{Bind(org)})
  {
    assert s.capability["grant" := ASKED.(constraints := BoundTo(org))] == AskedAndBound(org).capability;
  }

  lemma BothBind(out: Outside)
    ensures Run(World(ASKING, 0, multiset{}), RACE, out) == World(AskedAndBound("two"), 0, multiset{ACTIVATE, ACTIVATE})
  {
    BothMayApprove(out);
    RunOfFour(World(ASKING, 0, multiset{}), APPROVE_ONE, APPROVE_TWO, Commit(Bind("one")), Commit(Bind("two")), out);
    var pool := multiset{Bind("one"), ACTIVATE} + multiset{Bind("two"), ACTIVATE};
    BindsInRace(ASKING, "one", pool, out);
    BindingsLeave(Bind("one"), Bind("two"), ACTIVATE);
    BindsInRace(AskedAndBound("one"), "two", pool - multiset{Bind("one")}, out);
  }

  lemma BindingsLeave<T>(one: T, two: T, left: T)
    requires one != two
    ensures var pool := multiset{one, left} + multiset{two, left};
            two in pool - multiset{one} && pool - multiset{one} - multiset{two} == multiset{left, left}
  {
  }

  /**
   * A run from nothing in flight in which both approvers' checks pass, both bind, and the activation
   * that goes through makes the grant the second organization's.
   */
  lemma ActivatedUnderAnotherOrganization(out: Outside)
    ensures var at := Run(World(ASKING, 0, multiset{}), RACE, out);
            var activated := Next(at, Commit(ACTIVATE), out).s.capability;
            && ACTIVATE in at.pool && "grant" in activated
            && activated["grant"].status == GrantActive && GrantOrganization(activated["grant"]) == Some("two")
  {
    BothBind(out);
    BoundIsActivated("two", multiset{ACTIVATE, ACTIVATE}, out);
  }

  lemma BoundIsActivated(org: string, pool: multiset<InFlight>, out: Outside)
    requires ACTIVATE in pool
    ensures var activated := Next(World(AskedAndBound(org), 0, pool), Commit(ACTIVATE), out).s.capability;
            "grant" in activated && activated["grant"].status == GrantActive && GrantOrganization(activated["grant"]) == Some(org)
  {
    var s := AskedAndBound(org);
    assert Approval.CanActivate(s, {"grant"}, "agent", "host");
    var g := s.capability["grant"];
    assert ParseGrantConstraints(AgentManage, g.constraints) == Some(OrganizationConstraints(org));
    SameOrganization(g, Approval.ActivatedGrant(g, 0, None, out.lifetimes));
  }
}
