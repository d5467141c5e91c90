/** Revoking an agent in one organization. */
module Revocation {
  import opened Wrappers
  import opened Capabilities
  import opened Grants
  import opened Ability
  import opened GrantWrites
  import opened Authorization
  import RecipientPolicy

  function AgentOf(agent: string): Principal {
    Principal(AgentPrincipal, agent)
  }

  /** The organization a capability grant speaks for, if it is open and unexpired. */
  function OpenOrganization(g: CapabilityGrant, now: Time): Option<string> {
    if IsCapabilityGrantOpen(g) && Unexpired(g.expiresAt, now) then GrantOrganization(g) else None
  }

  function OpenMailboxKeys(s: State, agent: string): set<MailboxKey> {
    set k | k in s.mailbox && k.principal == AgentOf(agent) && IsOpen(s.mailbox[k])
  }

  function OpenSystemKeys(s: State, agent: string): set<SystemKey> {
    set k | k in s.system && k.principal == AgentOf(agent) && IsOpen(s.system[k])
  }

  function OrganizationCapabilityIds(s: State, agent: string, org: string, now: Time): set<string> {
    set id | id in s.capability && s.capability[id].agent == agent && OpenOrganization(s.capability[id], now) == Some(org)
  }

  predicate HasOtherActiveAccess(s: State, agent: string, org: string, now: Time) {
    || (exists k :: k in OpenMailboxKeys(s, agent) && k.org != org)
    || (exists k :: k in OpenSystemKeys(s, agent) && k.org != org)
    || (exists id :: id in s.capability && s.capability[id].agent == agent
                     && OpenOrganization(s.capability[id], now).Some? && OpenOrganization(s.capability[id], now) != Some(org))
  }

  predicate HasAccess(s: State, agent: string, org: string, now: Time) {
    || (exists k :: k in OpenMailboxKeys(s, agent) && k.org == org)
    || (exists k :: k in OpenSystemKeys(s, agent) && k.org == org)
    || OrganizationCapabilityIds(s, agent, org, now) != {}
  }

  /** The organization may deal with the agent: the session's user owns it or its host, or it has access there. */
  predicate InReach(s: State, org: string, user: Option<string>, agent: string, now: Time) {
    && agent in s.agents
    && (|| (user.Some? && s.agents[agent].user == user)
        || (user.Some? && s.agents[agent].host in s.hosts && s.hosts[s.agents[agent].host].user == user)
        || HasAccess(s, agent, org, now))
  }

  /** The same on the documents. */
  ghost predicate Reaches(s: State, org: string, user: Option<string>, agent: string, now: Time) {
    && agent in s.agents
    && (|| (user.Some? && s.agents[agent].user == user)
        || (user.Some? && s.agents[agent].host in s.hosts && s.hosts[s.agents[agent].host].user == user)
        || exists doc :: IsOpenDocument(s, agent, now, doc) && doc.Organization() == Some(org))
  }

  lemma ReachExactly(s: State, org: string, user: Option<string>, agent: string, now: Time)
    ensures InReach(s, org, user, agent, now) <==> Reaches(s, org, user, agent, now)
  {
    AccessIsDocuments(s, agent, org, now);
  }

  predicate MayRevoke(ctx: Context, s: State, agent: string, now: Time, parse: RecipientPolicy.AddressParser) {
    && CanManageAgents(ctx, parse)
    && (forall k :: k in OpenMailboxKeys(s, agent) && k.org == ctx.org ==> CanManageAdminAgentGrant(ctx, NamedMailboxGrant(k.grant), Some(k.mailbox), parse))
    && (forall k :: k in OpenSystemKeys(s, agent) && k.org == ctx.org ==> CanManageAdminAgentGrant(ctx, NamedPermission(k.permission), None, parse))
    && (forall id :: id in OrganizationCapabilityIds(s, agent, ctx.org, now) ==>
          CanManageAdminAgentGrant(ctx, NamedCapability(s.capability[id].capability.value), None, parse))
  }

  /** The three table updates: two by what is stored when they run, the third by the ids read before. */
  function Withdrawn(s: State, agent: string, org: string, ids: set<string>, recordToo: bool): State {
    s.(mailbox := map k | k in s.mailbox :: if k.org == org && k.principal == AgentOf(agent) && IsOpen(s.mailbox[k]) then RevokedGrant(s.mailbox[k]) else s.mailbox[k],
       system := map k | k in s.system :: if k.org == org && k.principal == AgentOf(agent) && IsOpen(s.system[k]) then RevokedGrant(s.system[k]) else s.system[k],
       capability := map id | id in s.capability :: if id in ids then s.capability[id].(status := GrantRevoked) else s.capability[id],
       agents := if recordToo && agent in s.agents then s.agents[agent := s.agents[agent].(status := AgentRevoked)] else s.agents)
  }

  // --- the same on the documents -------------------------------------------------------------------------

  /** One document of any of the three grant tables. */
  datatype Document =
    | MailboxDocument(mailboxKey: MailboxKey)
    | SystemDocument(systemKey: SystemKey)
    | CapabilityDocument(id: string, grant: CapabilityGrant)
  {
    /** The organization it speaks for, if it can be read. */
    function Organization(): Option<string> {
      match this
      case MailboxDocument(k) => Some(k.org)
      case SystemDocument(k) => Some(k.org)
      case CapabilityDocument(_, g) => GrantOrganization(g)
    }
  }

  predicate IsActiveOrPending(s: GrantState) {
    s.status == Active || s.status == Pending
  }

  /** A stored document of the agent, active or pending; a capability grant must not have expired. */
  predicate IsOpenDocument(s: State, agent: string, now: Time, doc: Document) {
    match doc
    case MailboxDocument(k) => k in s.mailbox && k.principal == Principal(AgentPrincipal, agent) && IsActiveOrPending(s.mailbox[k])
    case SystemDocument(k) => k in s.system && k.principal == Principal(AgentPrincipal, agent) && IsActiveOrPending(s.system[k])
    case CapabilityDocument(id, g) =>
      && id in s.capability && s.capability[id] == g && g.agent == agent && (g.status == GrantActive || g.status == GrantPending)
      && (g.expiresAt.None? || g.expiresAt.value > now)
  }

  predicate Manages(ctx: Context, mailbox: Option<string>, c: Capability, parse: RecipientPolicy.AddressParser) {
    Can(ctx.rules, Manage, AgentGrant, Resource(ctx.org, mailbox, Some(c), None), parse)
  }

  /** The session's rules let it manage all of the document; a capability grant is asked about without its mailbox. */
  predicate ManagesDocument(ctx: Context, doc: Document, parse: RecipientPolicy.AddressParser) {
    match doc
    case MailboxDocument(k) => forall c :: c in MailboxBundle(k.grant) ==> Manages(ctx, Some(k.mailbox), c, parse)
    case SystemDocument(k) => forall c :: c in SystemBundle(k.permission) ==> Manages(ctx, None, c, parse)
    case CapabilityDocument(_, g) => g.capability.Some? && Manages(ctx, None, g.capability.value, parse)
  }

  lemma MayRevokeExactly(ctx: Context, s: State, agent: string, now: Time, parse: RecipientPolicy.AddressParser)
    ensures MayRevoke(ctx, s, agent, now, parse) <==>
              && CanManageAgents(ctx, parse)
              && forall doc :: IsOpenDocument(s, agent, now, doc) && doc.Organization() == Some(ctx.org) ==> ManagesDocument(ctx, doc, parse)
  {
    if MayRevoke(ctx, s, agent, now, parse) {
      forall doc | IsOpenDocument(s, agent, now, doc) && doc.Organization() == Some(ctx.org) ensures ManagesDocument(ctx, doc, parse) {
        match doc
        case MailboxDocument(k) =>
          assert k in OpenMailboxKeys(s, agent);
          BundleIsManaged(ctx, NamedMailboxGrant(k.grant), Some(k.mailbox), parse);
        case SystemDocument(k) =>
          assert k in OpenSystemKeys(s, agent);
          BundleIsManaged(ctx, NamedPermission(k.permission), None, parse);
        case CapabilityDocument(id, g) =>
          assert id in OrganizationCapabilityIds(s, agent, ctx.org, now);
          BundleIsManaged(ctx, NamedCapability(g.capability.value), None, parse);
      }
    }
    if CanManageAgents(ctx, parse) && forall doc :: IsOpenDocument(s, agent, now, doc) && doc.Organization() == Some(ctx.org) ==> ManagesDocument(ctx, doc, parse) {
      forall k | k in OpenMailboxKeys(s, agent) && k.org == ctx.org ensures CanManageAdminAgentGrant(ctx, NamedMailboxGrant(k.grant), Some(k.mailbox), parse) {
        assert ManagesDocument(ctx, MailboxDocument(k), parse);
        BundleIsManaged(ctx, NamedMailboxGrant(k.grant), Some(k.mailbox), parse);
      }
      forall k | k in OpenSystemKeys(s, agent) && k.org == ctx.org ensures CanManageAdminAgentGrant(ctx, NamedPermission(k.permission), None, parse) {
        assert ManagesDocument(ctx, SystemDocument(k), parse);
        BundleIsManaged(ctx, NamedPermission(k.permission), None, parse);
      }
      forall id | id in OrganizationCapabilityIds(s, agent, ctx.org, now)
        ensures CanManageAdminAgentGrant(ctx, NamedCapability(s.capability[id].capability.value), None, parse)
      {
        assert ManagesDocument(ctx, CapabilityDocument(id, s.capability[id]), parse);
        BundleIsManaged(ctx, NamedCapability(s.capability[id].capability.value), None, parse);
      }
    }
  }

  lemma BundleIsManaged(ctx: Context, name: GrantName, mailbox: Option<string>, parse: RecipientPolicy.AddressParser)
    requires !name.NamedUnknown?
    ensures CanManageAdminAgentGrant(ctx, name, mailbox, parse) <==> forall c :: c in RequiredGrantCapabilities(name) ==> Manages(ctx, mailbox, c, parse)
  {
    var required := RequiredGrantCapabilities(name);
    assert required != [];
    if CanManageAdminAgentGrant(ctx, name, mailbox, parse) {
      forall c | c in required ensures Manages(ctx, mailbox, c, parse) {
        var i :| 0 <= i < |required| && required[i] == c;
        assert CanManageAgentGrant(ctx, required[i], mailbox, parse);
      }
    }
    if forall c :: c in required ==> Manages(ctx, mailbox, c, parse) {
      forall i | 0 <= i < |required| ensures CanManageAgentGrant(ctx, required[i], mailbox, parse) {
        assert required[i] in required;
      }
    }
  }

  lemma AccessIsDocuments(s: State, agent: string, org: string, now: Time)
    ensures HasAccess(s, agent, org, now) <==> exists doc :: IsOpenDocument(s, agent, now, doc) && doc.Organization() == Some(org)
    ensures HasOtherActiveAccess(s, agent, org, now) <==>
              exists doc :: IsOpenDocument(s, agent, now, doc) && doc.Organization().Some? && doc.Organization() != Some(org)
  {
    DocumentsOfAccess(s, agent, org, now);
    forall doc | IsOpenDocument(s, agent, now, doc) && doc.Organization() == Some(org) ensures HasAccess(s, agent, org, now) {
      DocumentGivesAccess(s, agent, org, now, doc);
    }
    forall doc | IsOpenDocument(s, agent, now, doc) && doc.Organization().Some? && doc.Organization() != Some(org)
      ensures HasOtherActiveAccess(s, agent, org, now)
    {
      DocumentGivesAccess(s, agent, org, now, doc);
    }
  }

  lemma DocumentGivesAccess(s: State, agent: string, org: string, now: Time, doc: Document)
    requires IsOpenDocument(s, agent, now, doc) && doc.Organization().Some?
    ensures if doc.Organization() == Some(org) then HasAccess(s, agent, org, now) else HasOtherActiveAccess(s, agent, org, now)
  {
    match doc
    case MailboxDocument(k) => assert k in OpenMailboxKeys(s, agent);
    case SystemDocument(k) => assert k in OpenSystemKeys(s, agent);
    case CapabilityDocument(id, g) =>
      assert OpenOrganization(s.capability[id], now) == GrantOrganization(g);
      if GrantOrganization(g) == Some(org) {
        assert id in OrganizationCapabilityIds(s, agent, org, now);
      }
  }

  lemma DocumentsOfAccess(s: State, agent: string, org: string, now: Time)
    ensures HasAccess(s, agent, org, now) ==> exists doc :: IsOpenDocument(s, agent, now, doc) && doc.Organization() == Some(org)
    ensures HasOtherActiveAccess(s, agent, org, now) ==>
              exists doc :: IsOpenDocument(s, agent, now, doc) && doc.Organization().Some? && doc.Organization() != Some(org)
  {
    if k :| k in OpenMailboxKeys(s, agent) && k.org == org {
      assert IsOpenDocument(s, agent, now, MailboxDocument(k)) && MailboxDocument(k).Organization() == Some(org);
    } else if k :| k in OpenSystemKeys(s, agent) && k.org == org {
      assert IsOpenDocument(s, agent, now, SystemDocument(k)) && SystemDocument(k).Organization() == Some(org);
    } else if id :| id in OrganizationCapabilityIds(s, agent, org, now) {
      var doc := CapabilityDocument(id, s.capability[id]);
      assert IsOpenDocument(s, agent, now, doc) && doc.Organization() == Some(org);
    }
    if k :| k in OpenMailboxKeys(s, agent) && k.org != org {
      assert IsOpenDocument(s, agent, now, MailboxDocument(k)) && MailboxDocument(k).Organization() == Some(k.org);
    } else if k :| k in OpenSystemKeys(s, agent) && k.org != org {
      assert IsOpenDocument(s, agent, now, SystemDocument(k)) && SystemDocument(k).Organization() == Some(k.org);
    } else if id :| id in s.capability && s.capability[id].agent == agent
                    && OpenOrganization(s.capability[id], now).Some? && OpenOrganization(s.capability[id], now) != Some(org) {
      var doc := CapabilityDocument(id, s.capability[id]);
      assert IsOpenDocument(s, agent, now, doc) && doc.Organization() == OpenOrganization(s.capability[id], now);
    }
  }

  /** Document by document: the agent's open ones in the organization are revoked and no other changes. */
  ghost predicate RevokesDocuments(s: State, t: State, agent: string, org: string, now: Time) {
    && t.mailbox.Keys == s.mailbox.Keys && t.system.Keys == s.system.Keys && t.capability.Keys == s.capability.Keys
    && (forall k :: k in s.mailbox ==>
          t.mailbox[k] == if k.org == org && IsOpenDocument(s, agent, now, MailboxDocument(k)) then s.mailbox[k].(status := Revoked) else s.mailbox[k])
    && (forall k :: k in s.system ==>
          t.system[k] == if k.org == org && IsOpenDocument(s, agent, now, SystemDocument(k)) then s.system[k].(status := Revoked) else s.system[k])
    && (forall id :: id in s.capability ==>
          t.capability[id] == if GrantOrganization(s.capability[id]) == Some(org) && IsOpenDocument(s, agent, now, CapabilityDocument(id, s.capability[id]))
                              then s.capability[id].(status := GrantRevoked) else s.capability[id])
    && t.requests == s.requests && t.hosts == s.hosts
  }

  /** The agent's record is revoked exactly when none of its open documents speaks for another organization. */
  ghost predicate RevokesRecord(s: State, t: State, agent: string, org: string, now: Time) {
    && ((forall doc :: IsOpenDocument(s, agent, now, doc) && doc.Organization().Some? ==> doc.Organization() == Some(org)) ==>
          agent in s.agents ==> t.agents == s.agents[agent := s.agents[agent].(status := AgentRevoked)])
    && ((exists doc :: IsOpenDocument(s, agent, now, doc) && doc.Organization().Some? && doc.Organization() != Some(org)) ==> t.agents == s.agents)
  }

  lemma WithdrawnRevokes(s: State, agent: string, org: string, now: Time)
    ensures RevokesDocuments(s, Withdrawn(s, agent, org, OrganizationCapabilityIds(s, agent, org, now), !HasOtherActiveAccess(s, agent, org, now)), agent, org, now)
  {
    forall id | id in s.capability
      ensures id in OrganizationCapabilityIds(s, agent, org, now) <==>
                GrantOrganization(s.capability[id]) == Some(org) && IsOpenDocument(s, agent, now, CapabilityDocument(id, s.capability[id]))
    {
    }
  }

  lemma WithdrawnRevokesRecord(s: State, agent: string, org: string, now: Time)
    ensures RevokesRecord(s, Withdrawn(s, agent, org, OrganizationCapabilityIds(s, agent, org, now), !HasOtherActiveAccess(s, agent, org, now)), agent, org, now)
  {
    AccessIsDocuments(s, agent, org, now);
  }

  method Withdraw(db: Database, agent: string, org: string, ids: set<string>, recordToo: bool)
    modifies db
    ensures db.Snapshot() == Withdrawn(old(db.Snapshot()), agent, org, ids, recordToo)
  {
    db.mailbox := map k | k in db.mailbox ::
      if k.org == org && k.principal == AgentOf(agent) && IsOpen(db.mailbox[k]) then RevokedGrant(db.mailbox[k]) else db.mailbox[k];
    db.system := map k | k in db.system ::
      if k.org == org && k.principal == AgentOf(agent) && IsOpen(db.system[k]) then RevokedGrant(db.system[k]) else db.system[k];
    db.capability := map id | id in db.capability ::
      if id in ids then db.capability[id].(status := GrantRevoked) else db.capability[id];
    if recordToo && agent in db.agents {
      db.agents := db.agents[agent := db.agents[agent].(status := AgentRevoked)];
    }
  }

  /** The operation when nothing else runs between its read and its writes. */
  method RevokeAgent(db: Database, ctx: Context, agent: string, now: Time, parse: RecipientPolicy.AddressParser) returns (ok: bool)
    modifies db
    ensures var s := old(db.Snapshot());
            && (ok <==> agent in s.agents && HasAccess(s, agent, ctx.org, now) && MayRevoke(ctx, s, agent, now, parse))
            && db.Snapshot() == if ok then Withdrawn(s, agent, ctx.org, OrganizationCapabilityIds(s, agent, ctx.org, now),
                                                     !HasOtherActiveAccess(s, agent, ctx.org, now))
                                else s
    ensures ok ==> RemovesExactly(old(db.Snapshot()), db.Snapshot(), agent, ctx.org, now, parse)
    ensures ok ==> RevokesDocuments(old(db.Snapshot()), db.Snapshot(), agent, ctx.org, now) && RevokesRecord(old(db.Snapshot()), db.Snapshot(), agent, ctx.org, now)
    ensures ok <==> && agent in old(db.agents) && CanManageAgents(ctx, parse)
                    && (exists doc :: IsOpenDocument(old(db.Snapshot()), agent, now, doc) && doc.Organization() == Some(ctx.org))
                    && (forall doc :: IsOpenDocument(old(db.Snapshot()), agent, now, doc) && doc.Organization() == Some(ctx.org) ==> ManagesDocument(ctx, doc, parse))
  {
    var s := db.Snapshot();
    AccessIsDocuments(s, agent, ctx.org, now);
    MayRevokeExactly(ctx, s, agent, now, parse);
    WithdrawnRevokes(s, agent, ctx.org, now);
    WithdrawnRevokesRecord(s, agent, ctx.org, now);
    if agent !in db.agents || !CanManageAgents(ctx, parse) || !HasAccess(s, agent, ctx.org, now) || !MayRevoke(ctx, s, agent, now, parse) {
      return false;
    }
    var ids := OrganizationCapabilityIds(s, agent, ctx.org, now);
    var other := HasOtherActiveAccess(s, agent, ctx.org, now);
    Withdraw(db, agent, ctx.org, ids, !other);
    RevocationIsExact(s, agent, ctx.org, now, parse);
    return true;
  }

  /**
   * At every time from then on the agent is answered no to everything in the organization and as
   * before elsewhere, everyone else is answered as before, and a revoked record answers nothing.
   */
  ghost predicate RemovesExactly(s: State, t: State, agent: string, org: string, now: Time, parse: RecipientPolicy.AddressParser) {
    && (forall actor, later, action, subject, resource: Resource ::
          IsAgent(actor, agent) && now <= later && (resource.org == org || !HasOtherActiveAccess(s, agent, org, now)) ==>
            !Allowed(t, actor, later, action, subject, resource, parse))
    && (forall actor, later, action, subject, resource: Resource ::
          now <= later && (resource.org != org || !IsAgent(actor, agent)) ==>
            (Allowed(t, actor, later, action, subject, resource, parse) <==> Allowed(s, actor, later, action, subject, resource, parse)))
    && (agent in s.agents && !HasOtherActiveAccess(s, agent, org, now) ==> agent in t.agents && t.agents[agent].status == AgentRevoked)
  }

  lemma RevocationIsExact(s: State, agent: string, org: string, now: Time, parse: RecipientPolicy.AddressParser)
    ensures RemovesExactly(s, Withdrawn(s, agent, org, OrganizationCapabilityIds(s, agent, org, now), !HasOtherActiveAccess(s, agent, org, now)),
                           agent, org, now, parse)
  {
    var ids, other := OrganizationCapabilityIds(s, agent, org, now), HasOtherActiveAccess(s, agent, org, now);
    var t := Withdrawn(s, agent, org, ids, !other);
    forall actor, later, action, subject, resource: Resource | IsAgent(actor, agent) && now <= later && (resource.org == org || !other)
      ensures !Allowed(t, actor, later, action, subject, resource, parse)
    {
      RevocationRemovesExactly(s, agent, org, now, actor, later, action, subject, resource, parse);
    }
    forall actor, later, action, subject, resource: Resource | now <= later && (resource.org != org || !IsAgent(actor, agent))
      ensures Allowed(t, actor, later, action, subject, resource, parse)
              <==> Allowed(s, actor, later, action, subject, resource, parse)
    {
      OtherAnswersStay(s, agent, org, ids, !other, actor, later, action, subject, resource, parse);
    }
  }

  // --- what is left -----------------------------------------------------------------------------------------

  predicate IsAgent(actor: Actor, agent: string) {
    actor.principal == AgentOf(agent)
  }

  /** The capability grants a revocation misses: in its organization, but not among the ids it read. */
  predicate Missed(s: State, agent: string, org: string, ids: set<string>, id: string) {
    id in s.capability && s.capability[id].agent == agent && GrantOrganization(s.capability[id]) == Some(org) && id !in ids
  }

  /**
   * Whatever happened between the read and the writes: if no missed capability grant is live at a
   * later time, the agent is then answered no to everything in the organization.
   */
  lemma NothingLeftInOrganization(
    s: State, agent: string, org: string, ids: set<string>, recordToo: bool, actor: Actor, later: Time,
    action: Action, subject: Subject, resource: Resource, parse: RecipientPolicy.AddressParser)
    requires IsAgent(actor, agent) && resource.org == org
    requires forall id :: Missed(s, agent, org, ids, id) ==> !IsCapabilityGrantActive(s.capability[id], later)
    ensures !Allowed(Withdrawn(s, agent, org, ids, recordToo), actor, later, action, subject, resource, parse)
  {
    var t := Withdrawn(s, agent, org, ids, recordToo);
    forall g | g in t.capability.Values && GrantOrganization(g) == Some(org) && Principal(AgentPrincipal, g.agent) == actor.principal
      ensures !IsCapabilityGrantActive(g, later)
    {
      var id :| id in t.capability && t.capability[id] == g;
      if id !in ids {
        assert Missed(s, agent, org, ids, id);
      }
    }
    NothingWithoutDocuments(t, actor, later, action, subject, resource, parse);
  }

  /** A live grant of an organization confers one authority there. */
  function AuthorityOfGrant(g: CapabilityGrant): Authority
    requires GrantOrganization(g).Some?
  {
    AuthorityOn(GrantOrganization(g).value, GrantMailbox(g), g.capability.value)
  }

  lemma GrantConfersOneAuthority(g: CapabilityGrant, a: Authority)
    requires GrantOrganization(g).Some?
    ensures CapabilityGrantConfers(g, a) <==> a == AuthorityOfGrant(g)
  {
  }

  /** What the agent still holds in the organization is exactly what the missed live grants confer. */
  lemma HeldAfterRevokingExactly(s: State, agent: string, org: string, ids: set<string>, recordToo: bool, later: Time, a: Authority)
    requires a.org == org
    ensures Holds(Withdrawn(s, agent, org, ids, recordToo), later, AgentOf(agent), a) <==>
              exists id :: Missed(s, agent, org, ids, id) && IsCapabilityGrantActive(s.capability[id], later) && CapabilityGrantConfers(s.capability[id], a)
  {
    var t := Withdrawn(s, agent, org, ids, recordToo);
    if Holds(t, later, AgentOf(agent), a) {
      var id :| id in t.capability && Principal(AgentPrincipal, t.capability[id].agent) == AgentOf(agent)
                && IsCapabilityGrantActive(t.capability[id], later) && CapabilityGrantConfers(t.capability[id], a);
      assert t.capability[id] == s.capability[id] && Missed(s, agent, org, ids, id);
    }
    if id :| Missed(s, agent, org, ids, id) && IsCapabilityGrantActive(s.capability[id], later) && CapabilityGrantConfers(s.capability[id], a) {
      assert t.capability[id] == s.capability[id];
    }
  }

  /** Some question about the organization is answered yes. */
  ghost predicate AnswersSomething(t: State, actor: Actor, now: Time, org: string, parse: RecipientPolicy.AddressParser) {
    exists action, subject, resource: Resource :: resource.org == org && Allowed(t, actor, now, action, subject, resource, parse)
  }

  lemma MissedGrantAnswers(s: State, agent: string, org: string, ids: set<string>, recordToo: bool, id: string, actor: Actor, later: Time, parse: RecipientPolicy.AddressParser)
    requires IsAgent(actor, agent) && Missed(s, agent, org, ids, id) && IsCapabilityGrantActive(s.capability[id], later)
    ensures AnswersSomething(Withdrawn(s, agent, org, ids, recordToo), actor, later, org, parse)
  {
    var t, a, resource := Withdrawn(s, agent, org, ids, recordToo), AuthorityOfGrant(s.capability[id]), Resource(org, None, None, None);
    GrantConfersOneAuthority(s.capability[id], a);
    HeldAfterRevokingExactly(s, agent, org, ids, recordToo, later, a);
    HeldAuthorityAnswers(t, actor, later, a, ReadStatus, Organization, resource, parse);
  }

  /**
   * Whatever happened between the read and the writes: something about the organization is still
   * answered yes if and only if some capability grant outside the ids read is live; and of grants
   * there the agent may manage exactly those of the authorities such grants confer.
   */
  lemma LeftInOrganizationExactly(
    s: State, agent: string, org: string, ids: set<string>, recordToo: bool, actor: Actor, later: Time,
    mailbox: Option<string>, c: Capability, parse: RecipientPolicy.AddressParser)
    requires IsAgent(actor, agent)
    ensures var t := Withdrawn(s, agent, org, ids, recordToo);
            && (AnswersSomething(t, actor, later, org, parse) <==>
                  exists id :: Missed(s, agent, org, ids, id) && IsCapabilityGrantActive(s.capability[id], later))
            && (MayManageGrant(t, actor, later, org, mailbox, c, parse) <==>
                  exists id :: Missed(s, agent, org, ids, id) && IsCapabilityGrantActive(s.capability[id], later)
                               && AuthorityOfGrant(s.capability[id]) == AuthorityOn(org, mailbox, c))
  {
    var t, a := Withdrawn(s, agent, org, ids, recordToo), AuthorityOn(org, mailbox, c);
    if id :| Missed(s, agent, org, ids, id) && IsCapabilityGrantActive(s.capability[id], later) {
      MissedGrantAnswers(s, agent, org, ids, recordToo, id, actor, later, parse);
    } else {
      forall action, subject, resource: Resource | resource.org == org ensures !Allowed(t, actor, later, action, subject, resource, parse) {
        NothingLeftInOrganization(s, agent, org, ids, recordToo, actor, later, action, subject, resource, parse);
      }
    }
    ManagingIsHolding(t, actor, later, org, mailbox, c, parse);
    HeldAfterRevokingExactly(s, agent, org, ids, recordToo, later, a);
    forall id | Missed(s, agent, org, ids, id) ensures CapabilityGrantConfers(s.capability[id], a) <==> AuthorityOfGrant(s.capability[id]) == a {
      GrantConfersOneAuthority(s.capability[id], a);
    }
  }

  /** Elsewhere, and for everyone else, the answers stay as they were. */
  lemma OtherAnswersStay(
    s: State, agent: string, org: string, ids: set<string>, recordToo: bool, actor: Actor, later: Time,
    action: Action, subject: Subject, resource: Resource, parse: RecipientPolicy.AddressParser)
    requires !IsAgent(actor, agent) || resource.org != org
    requires forall id :: id in ids && id in s.capability ==> s.capability[id].agent == agent && GrantOrganization(s.capability[id]) == Some(org)
    ensures Allowed(Withdrawn(s, agent, org, ids, recordToo), actor, later, action, subject, resource, parse)
            <==> Allowed(s, actor, later, action, subject, resource, parse)
  {
    var t := Withdrawn(s, agent, org, ids, recordToo);
    forall g: CapabilityGrant | GrantOrganization(g) == Some(resource.org) && Principal(AgentPrincipal, g.agent) == actor.principal && IsCapabilityGrantActive(g, later)
      ensures g in s.capability.Values <==> g in t.capability.Values
    {
      if g in s.capability.Values {
        var id :| id in s.capability && s.capability[id] == g;
        assert id !in ids && t.capability[id] == g;
      }
      if g in t.capability.Values {
        var id :| id in t.capability && t.capability[id] == g;
        assert s.capability[id] == g;
      }
    }
    AnswersStayInside(s, t, actor, later, action, subject, resource, parse);
  }

  /**
   * Revoking an agent in an organization removes exactly that organization's authority, for all
   * time: no answer there, the same answers in every other; and when the agent's record was
   * revoked too, no answer anywhere.
   */
  lemma RevocationRemovesExactly(
    s: State, agent: string, org: string, now: Time, actor: Actor, later: Time,
    action: Action, subject: Subject, resource: Resource, parse: RecipientPolicy.AddressParser)
    requires IsAgent(actor, agent) && now <= later
    ensures var other := HasOtherActiveAccess(s, agent, org, now);
            var t := Withdrawn(s, agent, org, OrganizationCapabilityIds(s, agent, org, now), !other);
            && (resource.org == org ==> !Allowed(t, actor, later, action, subject, resource, parse))
            && (resource.org != org ==>
                  (Allowed(t, actor, later, action, subject, resource, parse) <==> Allowed(s, actor, later, action, subject, resource, parse)))
            && (!other ==> !Allowed(t, actor, later, action, subject, resource, parse))
            && (!other && agent in s.agents ==> t.agents[agent].status == AgentRevoked)
  {
    var ids, other := OrganizationCapabilityIds(s, agent, org, now), HasOtherActiveAccess(s, agent, org, now);
    if resource.org == org {
      forall id | Missed(s, agent, org, ids, id) ensures !IsCapabilityGrantActive(s.capability[id], later) {
        assert OpenOrganization(s.capability[id], now) != Some(org);
      }
      NothingLeftInOrganization(s, agent, org, ids, !other, actor, later, action, subject, resource, parse);
    } else {
      OtherAnswersStay(s, agent, org, ids, !other, actor, later, action, subject, resource, parse);
      if !other {
        NoAccessNoAnswer(s, agent, org, now, actor, later, action, subject, resource, parse);
      }
    }
  }

  lemma NoAccessNoAnswer(
    s: State, agent: string, org: string, now: Time, actor: Actor, later: Time,
    action: Action, subject: Subject, resource: Resource, parse: RecipientPolicy.AddressParser)
    requires IsAgent(actor, agent) && now <= later && resource.org != org && !HasOtherActiveAccess(s, agent, org, now)
    ensures !Allowed(s, actor, later, action, subject, resource, parse)
  {
    forall k | k in s.mailbox && k.org == resource.org && k.principal == actor.principal ensures !IsGrantActive(s.mailbox[k], later) {
      assert k !in OpenMailboxKeys(s, agent);
    }
    forall k | k in s.system && k.org == resource.org && k.principal == actor.principal ensures !IsGrantActive(s.system[k], later) {
      assert k !in OpenSystemKeys(s, agent);
    }
    forall g | g in s.capability.Values && GrantOrganization(g) == Some(resource.org) && Principal(AgentPrincipal, g.agent) == actor.principal
      ensures !IsCapabilityGrantActive(g, later)
    {
      var id :| id in s.capability && s.capability[id] == g;
      assert OpenOrganization(g, now) != Some(resource.org);
    }
    NothingWithoutDocuments(s, actor, later, action, subject, resource, parse);
  }

  /**
   * Capability grants are revoked by the ids read, so one approved between the read and the write
   * keeps its authority; mailbox and system grants are revoked as they are found.
   */
  lemma GrantApprovedInBetweenSurvives(agent: string, org: string, now: Time, actor: Actor, parse: RecipientPolicy.AddressParser)
    requires IsAgent(actor, agent)
    ensures var g := CapabilityGrant(agent, Some(AgentManage), Constraints(Present(org), Absent, Absent, Absent, Absent, false), GrantActive, None);
            var read := State(map[], map[], map[], map[], map[], map[]);
            var written := read.(capability := map["new" := g]);
            var t := Withdrawn(written, agent, org, OrganizationCapabilityIds(read, agent, org, now), true);
            MayManageGrant(t, actor, now, org, None, AgentManage, parse)
  {
    var g := CapabilityGrant(agent, Some(AgentManage), Constraints(Present(org), Absent, Absent, Absent, Absent, false), GrantActive, None);
    var read := State(map[], map[], map[], map[], map[], map[]);
    var written := read.(capability := map["new" := g]);
    var t := Withdrawn(written, agent, org, OrganizationCapabilityIds(read, agent, org, now), true);
    assert t.capability["new"] == g;
    assert CapabilityGrantConfers(g, OnOrganization(org, AgentManage));
    assert Holds(t, now, actor.principal, OnOrganization(org, AgentManage));
    HeldAuthorityAnswers(t, actor, now, OnOrganization(org, AgentManage), Manage, AgentGrant, Resource(org, None, Some(AgentManage), None), parse);
  }
}
