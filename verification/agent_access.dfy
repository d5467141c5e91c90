/** The agent-access view and the revoke operation behind its button. */
module AgentAccess {
  import opened Wrappers
  import opened Capabilities
  import opened Grants
  import opened Ability
  import opened GrantWrites
  import opened Authorization
  import Approval
  import Revocation
  import RecipientPolicy

  datatype Session = Session(ctx: Context, user: string)

  // --- which agents a session sees -------------------------------------------------------------------------

  predicate OwnsHost(s: State, user: string, host: string) {
    host in s.hosts && s.hosts[host].user == Some(user)
  }

  predicate Owns(s: State, user: string, agent: string) {
    agent in s.agents && (s.agents[agent].user == Some(user) || OwnsHost(s, user, s.agents[agent].host))
  }

  /** Open capability grants of the agent that read back as the session's organization. */
  function ScopedOpenGrants(s: State, org: string, agent: string): set<string> {
    set id | id in s.capability && s.capability[id].agent == agent && IsCapabilityGrantOpen(s.capability[id])
             && GrantOrganization(s.capability[id]) == Some(org)
  }

  /** The agents the view starts from: owned ones, and for a manager those with an open grant in the organization. */
  function KnownAgents(s: State, session: Session, parse: RecipientPolicy.AddressParser): set<string> {
    set agent | agent in s.agents
                && (|| Owns(s, session.user, agent)
                    || (CanManageAgents(session.ctx, parse) && ScopedOpenGrants(s, session.ctx.org, agent) != {}))
  }

  /** Of those, the view lists the ones with a grant or a visible approval in the organization. */
  predicate IsListed(s: State, session: Session, agent: string, hasVisibleApproval: bool, parse: RecipientPolicy.AddressParser) {
    && agent in KnownAgents(s, session, parse)
    && (hasVisibleApproval || exists id :: id in s.capability && s.capability[id].agent == agent && GrantOrganization(s.capability[id]) == Some(session.ctx.org))
  }

  // --- the grants shown for each agent -----------------------------------------------------------------------

  datatype MailGrants = MailGrants(mailbox: set<MailboxKey>, system: set<SystemKey>)

  const NO_MAIL_GRANTS := MailGrants({}, {})

  function OpenMailGrants(s: State, org: string, agent: string): MailGrants {
    MailGrants(set k | k in s.mailbox && k.org == org && k.principal == Principal(AgentPrincipal, agent) && IsOpen(s.mailbox[k]),
               set k | k in s.system && k.org == org && k.principal == Principal(AgentPrincipal, agent) && IsOpen(s.system[k]))
  }

  predicate IsGrouped(byAgent: map<string, MailGrants>, agents: set<string>, mailbox: set<MailboxKey>, system: set<SystemKey>) {
    && byAgent.Keys == agents
    && forall agent :: agent in byAgent ==>
         && byAgent[agent].mailbox == (set k | k in mailbox && k.principal.id == agent)
         && byAgent[agent].system == (set k | k in system && k.principal.id == agent)
  }

  lemma GroupsOneMoreMailbox(byAgent: map<string, MailGrants>, agents: set<string>, found: set<MailboxKey>, system: set<SystemKey>, k: MailboxKey)
    requires IsGrouped(byAgent, agents, found, system) && k.principal.id in agents
    ensures var entry := byAgent[k.principal.id];
            IsGrouped(byAgent[k.principal.id := entry.(mailbox := entry.mailbox + {k})], agents, found + {k}, system)
  {
  }

  lemma GroupsOneMoreSystem(byAgent: map<string, MailGrants>, agents: set<string>, mailbox: set<MailboxKey>, found: set<SystemKey>, k: SystemKey)
    requires IsGrouped(byAgent, agents, mailbox, found) && k.principal.id in agents
    ensures var entry := byAgent[k.principal.id];
            IsGrouped(byAgent[k.principal.id := entry.(system := entry.system + {k})], agents, mailbox, found + {k})
  {
  }

  function QueriedMailbox(s: State, org: string, agents: set<string>): set<MailboxKey> {
    set k | k in s.mailbox && k.org == org && k.principal.kind == AgentPrincipal && k.principal.id in agents && IsOpen(s.mailbox[k])
  }

  function QueriedSystem(s: State, org: string, agents: set<string>): set<SystemKey> {
    set k | k in s.system && k.org == org && k.principal.kind == AgentPrincipal && k.principal.id in agents && IsOpen(s.system[k])
  }

  lemma GroupedIsOpen(s: State, org: string, agents: set<string>, byAgent: map<string, MailGrants>, agent: string)
    requires IsGrouped(byAgent, agents, QueriedMailbox(s, org, agents), QueriedSystem(s, org, agents)) && agent in agents
    ensures byAgent[agent] == OpenMailGrants(s, org, agent)
  {
    assert byAgent[agent].mailbox == OpenMailGrants(s, org, agent).mailbox;
    assert byAgent[agent].system == OpenMailGrants(s, org, agent).system;
  }

  /** Two queries for all listed agents at once, then loops that sort their results by agent. */
  method ListMailGrantsForAgents(s: State, org: string, agents: set<string>) returns (byAgent: map<string, MailGrants>)
    ensures byAgent.Keys == agents
    ensures forall agent :: agent in agents ==> byAgent[agent] == OpenMailGrants(s, org, agent)
  {
    byAgent := map agent | agent in agents :: NO_MAIL_GRANTS;
    var mailbox := QueriedMailbox(s, org, agents);
    ghost var found: set<MailboxKey> := {};
    while mailbox != {}
      invariant found + mailbox == QueriedMailbox(s, org, agents) && found !! mailbox
      invariant IsGrouped(byAgent, agents, found, {})
    {
      var k :| k in mailbox;
      GroupsOneMoreMailbox(byAgent, agents, found, {}, k);
      var entry := byAgent[k.principal.id];
      byAgent := byAgent[k.principal.id := entry.(mailbox := entry.mailbox + {k})];
      mailbox, found := mailbox - {k}, found + {k};
    }
    var system := QueriedSystem(s, org, agents);
    ghost var also: set<SystemKey> := {};
    while system != {}
      invariant also + system == QueriedSystem(s, org, agents) && also !! system
      invariant IsGrouped(byAgent, agents, QueriedMailbox(s, org, agents), also)
    {
      var k :| k in system;
      GroupsOneMoreSystem(byAgent, agents, QueriedMailbox(s, org, agents), also, k);
      var entry := byAgent[k.principal.id];
      byAgent := byAgent[k.principal.id := entry.(system := entry.system + {k})];
      system, also := system - {k}, also + {k};
    }
    forall agent | agent in agents ensures byAgent[agent] == OpenMailGrants(s, org, agent) {
      GroupedIsOpen(s, org, agents, byAgent, agent);
    }
  }

  // --- the flag and the checks ---------------------------------------------------------------------------------

  predicate CanManageMailboxGrant(ctx: Context, k: MailboxKey, parse: RecipientPolicy.AddressParser) {
    forall c :: c in MailboxBundle(k.grant) ==> CanManageAgentGrant(ctx, c, Some(k.mailbox), parse)
  }

  predicate CanManageSystemGrant(ctx: Context, k: SystemKey, parse: RecipientPolicy.AddressParser) {
    forall c :: c in SystemBundle(k.permission) ==> CanManageAgentGrant(ctx, c, None, parse)
  }

  /** The flag of one listed agent, from the documents the view has at hand. */
  predicate CanRevokeFlag(session: Session, agent: string, record: AgentRecord, scoped: map<string, CapabilityGrant>, mail: MailGrants, parse: RecipientPolicy.AddressParser) {
    && CanManageAgents(session.ctx, parse) && record.status != AgentRevoked && record.status != AgentExpired
    && (forall id :: id in scoped && scoped[id].agent == agent && IsCapabilityGrantOpen(scoped[id]) ==>
          Approval.CanManageGrantDocument(session.ctx, scoped[id], parse))
    && (forall k :: k in mail.mailbox ==> CanManageMailboxGrant(session.ctx, k, parse))
    && (forall k :: k in mail.system ==> CanManageSystemGrant(session.ctx, k, parse))
  }

  /** All grants of the organization, open or not, of all the view's agents. */
  function ScopedGrants(s: State, session: Session, parse: RecipientPolicy.AddressParser): map<string, CapabilityGrant> {
    map id | id in s.capability && s.capability[id].agent in KnownAgents(s, session, parse) && GrantOrganization(s.capability[id]) == Some(session.ctx.org)
      :: s.capability[id]
  }

  predicate ShownRevocable(s: State, session: Session, agent: string, parse: RecipientPolicy.AddressParser)
    requires agent in s.agents
  {
    CanRevokeFlag(session, agent, s.agents[agent], ScopedGrants(s, session, parse), OpenMailGrants(s, session.ctx.org, agent), parse)
  }

  /** The view computes the flag of every listed agent from the grants it grouped. */
  method ShowRevocable(s: State, session: Session, listed: set<string>, parse: RecipientPolicy.AddressParser) returns (shown: set<string>)
    requires listed <= s.agents.Keys
    ensures forall agent :: agent in shown <==> agent in listed && ShownRevocable(s, session, agent, parse)
  {
    var byAgent := ListMailGrantsForAgents(s, session.ctx.org, listed);
    var scoped := ScopedGrants(s, session, parse);
    shown := set agent | agent in listed && CanRevokeFlag(session, agent, s.agents[agent], scoped, byAgent[agent], parse);
  }

  predicate IsVisible(s: State, session: Session, agent: string, parse: RecipientPolicy.AddressParser) {
    && agent in s.agents
    && (|| s.agents[agent].user == Some(session.user)
        || OwnsHost(s, session.user, s.agents[agent].host)
        || (CanManageAgents(session.ctx, parse) && ScopedOpenGrants(s, session.ctx.org, agent) != {}))
  }

  /** Every authorization check of the revoke operation. */
  predicate RevokeAuthorized(s: State, session: Session, agent: string, parse: RecipientPolicy.AddressParser) {
    && IsVisible(s, session, agent, parse)
    && CanManageAgents(session.ctx, parse)
    && (forall id :: id in ScopedOpenGrants(s, session.ctx.org, agent) ==> Approval.CanManageGrantDocument(session.ctx, s.capability[id], parse))
    && (forall k :: k in OpenMailGrants(s, session.ctx.org, agent).mailbox ==> CanManageMailboxGrant(session.ctx, k, parse))
    && (forall k :: k in OpenMailGrants(s, session.ctx.org, agent).system ==> CanManageSystemGrant(session.ctx, k, parse))
  }

  // --- the same on the documents ------------------------------------------------------------------------------------

  /** A stored document of the agent that is active or pending, expired or not. */
  predicate IsOpenDocument(s: State, agent: string, doc: Revocation.Document) {
    match doc
    case MailboxDocument(k) => k in s.mailbox && k.principal == Principal(AgentPrincipal, agent) && Revocation.IsActiveOrPending(s.mailbox[k])
    case SystemDocument(k) => k in s.system && k.principal == Principal(AgentPrincipal, agent) && Revocation.IsActiveOrPending(s.system[k])
    case CapabilityDocument(id, g) => id in s.capability && s.capability[id] == g && g.agent == agent && (g.status == GrantActive || g.status == GrantPending)
  }

  predicate ManagesDocument(ctx: Context, doc: Revocation.Document, parse: RecipientPolicy.AddressParser) {
    match doc
    case MailboxDocument(k) => forall c :: c in MailboxBundle(k.grant) ==> Revocation.Manages(ctx, Some(k.mailbox), c, parse)
    case SystemDocument(k) => forall c :: c in SystemBundle(k.permission) ==> Revocation.Manages(ctx, None, c, parse)
    case CapabilityDocument(_, g) => g.capability.Some? && Revocation.Manages(ctx, GrantMailbox(g), g.capability.value, parse)
  }

  /** The session's user owns the agent or its host, or the session manages agents and one of its open capability grants is the organization's. */
  predicate MaySee(s: State, session: Session, agent: string, parse: RecipientPolicy.AddressParser) {
    && agent in s.agents
    && (|| s.agents[agent].user == Some(session.user)
        || (s.agents[agent].host in s.hosts && s.hosts[s.agents[agent].host].user == Some(session.user))
        || (&& CanManageAgents(session.ctx, parse)
            && exists id :: id in s.capability && s.capability[id].agent == agent && (s.capability[id].status == GrantActive || s.capability[id].status == GrantPending)
                            && GrantOrganization(s.capability[id]) == Some(session.ctx.org)))
  }

  /** Who may revoke: the session sees the agent, manages agents, and manages every open document of it in the organization. */
  ghost predicate MayRevokeHere(s: State, session: Session, agent: string, parse: RecipientPolicy.AddressParser) {
    && MaySee(s, session, agent, parse) && CanManageAgents(session.ctx, parse)
    && forall doc: Revocation.Document :: IsOpenDocument(s, agent, doc) && doc.Organization() == Some(session.ctx.org) ==> ManagesDocument(session.ctx, doc, parse)
  }

  lemma VisibleIsSeen(s: State, session: Session, agent: string, parse: RecipientPolicy.AddressParser)
    ensures IsVisible(s, session, agent, parse) <==> MaySee(s, session, agent, parse)
  {
    if id :| id in s.capability && s.capability[id].agent == agent && (s.capability[id].status == GrantActive || s.capability[id].status == GrantPending)
             && GrantOrganization(s.capability[id]) == Some(session.ctx.org) {
      assert id in ScopedOpenGrants(s, session.ctx.org, agent);
    }
    if id :| id in ScopedOpenGrants(s, session.ctx.org, agent) {
      assert s.capability[id].status == GrantActive || s.capability[id].status == GrantPending;
    }
  }

  lemma AuthorizedExactly(s: State, session: Session, agent: string, parse: RecipientPolicy.AddressParser)
    ensures RevokeAuthorized(s, session, agent, parse) <==> MayRevokeHere(s, session, agent, parse)
  {
    var org := session.ctx.org;
    VisibleIsSeen(s, session, agent, parse);
    if RevokeAuthorized(s, session, agent, parse) {
      forall doc: Revocation.Document | IsOpenDocument(s, agent, doc) && doc.Organization() == Some(org) ensures ManagesDocument(session.ctx, doc, parse) {
        match doc
        case MailboxDocument(k) => assert k in OpenMailGrants(s, org, agent).mailbox;
        case SystemDocument(k) => assert k in OpenMailGrants(s, org, agent).system;
        case CapabilityDocument(id, g) => assert id in ScopedOpenGrants(s, org, agent);
      }
    }
    if MayRevokeHere(s, session, agent, parse) {
      AuthorizedOnDocuments(s, session, agent, parse);
    }
  }

  lemma AuthorizedOnDocuments(s: State, session: Session, agent: string, parse: RecipientPolicy.AddressParser)
    requires MayRevokeHere(s, session, agent, parse) && IsVisible(s, session, agent, parse)
    ensures RevokeAuthorized(s, session, agent, parse)
  {
    var org := session.ctx.org;
    forall id | id in ScopedOpenGrants(s, org, agent) ensures Approval.CanManageGrantDocument(session.ctx, s.capability[id], parse) {
      assert ManagesDocument(session.ctx, Revocation.CapabilityDocument(id, s.capability[id]), parse);
    }
    forall k | k in OpenMailGrants(s, org, agent).mailbox ensures CanManageMailboxGrant(session.ctx, k, parse) {
      assert ManagesDocument(session.ctx, Revocation.MailboxDocument(k), parse);
    }
    forall k | k in OpenMailGrants(s, org, agent).system ensures CanManageSystemGrant(session.ctx, k, parse) {
      assert ManagesDocument(session.ctx, Revocation.SystemDocument(k), parse);
    }
  }

  /** The view lists exactly the agents the session may see that have a grant or a visible approval in the organization. */
  lemma ListedExactly(s: State, session: Session, agent: string, hasVisibleApproval: bool, parse: RecipientPolicy.AddressParser)
    ensures IsListed(s, session, agent, hasVisibleApproval, parse) <==>
              && MaySee(s, session, agent, parse)
              && (hasVisibleApproval || exists id :: id in s.capability && s.capability[id].agent == agent && GrantOrganization(s.capability[id]) == Some(session.ctx.org))
  {
    VisibleIsSeen(s, session, agent, parse);
  }

  /** Document by document: the agent's open ones in the organization are revoked, and nothing else changes. */
  ghost predicate RevokesHere(s: State, t: State, agent: string, org: string) {
    && t.mailbox.Keys == s.mailbox.Keys && t.system.Keys == s.system.Keys && t.capability.Keys == s.capability.Keys
    && (forall k :: k in s.mailbox ==>
          t.mailbox[k] == if k.org == org && IsOpenDocument(s, agent, Revocation.MailboxDocument(k)) then s.mailbox[k].(status := Revoked) else s.mailbox[k])
    && (forall k :: k in s.system ==>
          t.system[k] == if k.org == org && IsOpenDocument(s, agent, Revocation.SystemDocument(k)) then s.system[k].(status := Revoked) else s.system[k])
    && (forall id :: id in s.capability ==>
          t.capability[id] == if GrantOrganization(s.capability[id]) == Some(org) && IsOpenDocument(s, agent, Revocation.CapabilityDocument(id, s.capability[id]))
                              then s.capability[id].(status := GrantRevoked) else s.capability[id])
    && t.requests == s.requests && t.agents == s.agents && t.hosts == s.hosts
  }

  lemma WithdrawnRevokesHere(s: State, agent: string, org: string)
    ensures RevokesHere(s, Revocation.Withdrawn(s, agent, org, ScopedOpenGrants(s, org, agent), false), agent, org)
  {
  }

  lemma RemainingExactly(s: State, agent: string, org: string)
    ensures HasRemainingAccess(s, agent, org) <==> exists doc: Revocation.Document :: IsOpenDocument(s, agent, doc) && doc.Organization() != Some(org)
  {
    if id :| id in s.capability && s.capability[id].agent == agent && IsCapabilityGrantOpen(s.capability[id]) && GrantOrganization(s.capability[id]) != Some(org) {
      var doc := Revocation.CapabilityDocument(id, s.capability[id]);
      assert IsOpenDocument(s, agent, doc) && doc.Organization() != Some(org);
    } else if k :| k in s.mailbox && k.principal == Principal(AgentPrincipal, agent) && IsOpen(s.mailbox[k]) && k.org != org {
      assert IsOpenDocument(s, agent, Revocation.MailboxDocument(k)) && Revocation.MailboxDocument(k).Organization() == Some(k.org);
    } else if k :| k in s.system && k.principal == Principal(AgentPrincipal, agent) && IsOpen(s.system[k]) && k.org != org {
      assert IsOpenDocument(s, agent, Revocation.SystemDocument(k)) && Revocation.SystemDocument(k).Organization() == Some(k.org);
    }
    forall doc: Revocation.Document | IsOpenDocument(s, agent, doc) && doc.Organization() != Some(org) ensures HasRemainingAccess(s, agent, org) {
      match doc
      case MailboxDocument(k) => assert IsOpen(s.mailbox[k]);
      case SystemDocument(k) => assert IsOpen(s.system[k]);
      case CapabilityDocument(id, g) => assert IsCapabilityGrantOpen(s.capability[id]);
    }
  }

  /** For a listed agent the flag says exactly that the revoke is authorized and the record not already revoked or expired. */
  lemma FlagIsExact(s: State, session: Session, agent: string, hasVisibleApproval: bool, parse: RecipientPolicy.AddressParser)
    requires IsListed(s, session, agent, hasVisibleApproval, parse)
    ensures ShownRevocable(s, session, agent, parse) <==>
              && MayRevokeHere(s, session, agent, parse)
              && s.agents[agent].status != AgentRevoked && s.agents[agent].status != AgentExpired
  {
    AuthorizedExactly(s, session, agent, parse);
    var scoped := ScopedGrants(s, session, parse);
    forall id ensures id in scoped && scoped[id].agent == agent && IsCapabilityGrantOpen(scoped[id]) <==> id in ScopedOpenGrants(s, session.ctx.org, agent) {
    }
  }

  // --- the operation -----------------------------------------------------------------------------------------------

  /** Access the agent keeps: any open grant that is not the organization's, readable or not. */
  predicate HasRemainingAccess(s: State, agent: string, org: string) {
    || (exists id :: id in s.capability && s.capability[id].agent == agent && IsCapabilityGrantOpen(s.capability[id])
                     && GrantOrganization(s.capability[id]) != Some(org))
    || (exists k :: k in s.mailbox && k.principal == Principal(AgentPrincipal, agent) && IsOpen(s.mailbox[k]) && k.org != org)
    || (exists k :: k in s.system && k.principal == Principal(AgentPrincipal, agent) && IsOpen(s.system[k]) && k.org != org)
  }

  /** Checks first, then one update per capability grant and two for the mail grants. */
  method RevokeAgent(db: Database, session: Session, agent: string, parse: RecipientPolicy.AddressParser) returns (ok: bool, remaining: bool)
    modifies db
    ensures var s, org := old(db.Snapshot()), session.ctx.org;
            && (ok <==> MayRevokeHere(s, session, agent, parse))
            && db.Snapshot() == (if ok then Revocation.Withdrawn(s, agent, org, ScopedOpenGrants(s, org, agent), false) else s)
            && (ok ==> RevokesHere(s, db.Snapshot(), agent, org))
            && (ok ==> (remaining <==> exists doc: Revocation.Document :: IsOpenDocument(s, agent, doc) && doc.Organization() != Some(org)))
  {
    var s, org := db.Snapshot(), session.ctx.org;
    AuthorizedExactly(s, session, agent, parse);
    WithdrawnRevokesHere(s, agent, org);
    RemainingExactly(s, agent, org);
    if !RevokeAuthorized(s, session, agent, parse) {
      return false, false;
    }
    remaining := HasRemainingAccess(s, agent, org);
    RevokeGrants(db, ScopedOpenGrants(s, org, agent));
    db.mailbox := map k | k in db.mailbox ::
      if k.org == org && k.principal == Revocation.AgentOf(agent) && IsOpen(db.mailbox[k]) then RevokedGrant(db.mailbox[k]) else db.mailbox[k];
    db.system := map k | k in db.system ::
      if k.org == org && k.principal == Revocation.AgentOf(agent) && IsOpen(db.system[k]) then RevokedGrant(db.system[k]) else db.system[k];
    ok := true;
  }

  method RevokeGrants(db: Database, ids: set<string>)
    requires forall id :: id in ids ==> id in db.capability && IsCapabilityGrantOpen(db.capability[id])
    modifies db
    ensures db.Snapshot() == old(db.Snapshot()).(capability := RevokedIn(old(db.capability), ids))
  {
    ghost var s := db.Snapshot();
    var remaining := ids;
    ghost var done: set<string> := {};
    assert RevokedIn(s.capability, done) == s.capability;
    while remaining != {}
      invariant done + remaining == ids && done !! remaining
      invariant db.Snapshot() == s.(capability := RevokedIn(s.capability, done))
    {
      var id :| id in remaining;
      RevokeOneMore(s.capability, done, id);
      db.Execute(RevokeCapability(id));
      remaining, done := remaining - {id}, done + {id};
    }
  }

  function RevokedIn(table: map<string, CapabilityGrant>, ids: set<string>): map<string, CapabilityGrant> {
    map id | id in table :: if id in ids then table[id].(status := GrantRevoked) else table[id]
  }

  lemma RevokeOneMore(table: map<string, CapabilityGrant>, ids: set<string>, id: string)
    requires id in table && id !in ids && IsCapabilityGrantOpen(table[id])
    ensures RevokedIn(table, ids)[id := RevokedIn(table, ids)[id].(status := GrantRevoked)] == RevokedIn(table, ids + {id})
    ensures IsCapabilityGrantOpen(RevokedIn(table, ids)[id])
  {
  }

  /** After the revoke the agent is answered no to everything in the organization, and as before elsewhere. */
  lemma RevokeRemovesExactly(
    s: State, org: string, agent: string, actor: Actor, later: Time,
    action: Action, subject: Subject, resource: Resource, parse: RecipientPolicy.AddressParser)
    requires actor.principal == Principal(AgentPrincipal, agent)
    ensures var t := Revocation.Withdrawn(s, agent, org, ScopedOpenGrants(s, org, agent), false);
            && (resource.org == org ==> !Allowed(t, actor, later, action, subject, resource, parse))
            && (resource.org != org ==>
                  (Allowed(t, actor, later, action, subject, resource, parse) <==> Allowed(s, actor, later, action, subject, resource, parse)))
  {
    var ids := ScopedOpenGrants(s, org, agent);
    if resource.org == org {
      Revocation.NothingLeftInOrganization(s, agent, org, ids, false, actor, later, action, subject, resource, parse);
    } else {
      Revocation.OtherAnswersStay(s, agent, org, ids, false, actor, later, action, subject, resource, parse);
    }
  }
}
