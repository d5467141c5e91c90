/** The checks an operation makes before it writes: may this session manage these grants? */
module Authorization {
  import opened Wrappers
  import opened Capabilities
  import opened Grants
  import opened Ability
  import RecipientPolicy

  /** A session: who asks, in which organization, with the ability built for it. */
  datatype Context = Context(actor: Actor, org: string, rules: seq<Rule>)

  /** The ability was built from the grants of this state at this time. */
  ghost predicate BuiltFrom(ctx: Context, s: State, now: Time) {
    forall rule :: rule in ctx.rules <==> Yields(DocumentsOf(s), ctx.actor, now, rule)
  }

  lemma RulesAnswerForState(ctx: Context, s: State, now: Time, action: Action, subject: Subject, resource: Resource, parse: RecipientPolicy.AddressParser)
    requires BuiltFrom(ctx, s, now)
    ensures Can(ctx.rules, action, subject, resource, parse) <==> Allowed(s, ctx.actor, now, action, subject, resource, parse)
  {
    if Can(ctx.rules, action, subject, resource, parse) {
      var i :| 0 <= i < |ctx.rules| && Answers(ctx.rules[i], action, subject, resource, parse);
      RuleAnswers(ctx, s, now, ctx.rules[i], action, subject, resource, parse);
    }
    if Allowed(s, ctx.actor, now, action, subject, resource, parse) {
      var rule :| Yields(DocumentsOf(s), ctx.actor, now, rule) && Answers(rule, action, subject, resource, parse);
      RuleAnswers(ctx, s, now, rule, action, subject, resource, parse);
    }
  }

  lemma RuleAnswers(ctx: Context, s: State, now: Time, rule: Rule, action: Action, subject: Subject, resource: Resource, parse: RecipientPolicy.AddressParser)
    requires BuiltFrom(ctx, s, now) && Answers(rule, action, subject, resource, parse)
    requires rule in ctx.rules || Yields(DocumentsOf(s), ctx.actor, now, rule)
    ensures Can(ctx.rules, action, subject, resource, parse) && Allowed(s, ctx.actor, now, action, subject, resource, parse)
  {
    assert rule in ctx.rules;
    assert Yields(DocumentsOf(s), ctx.actor, now, rule);
  }

  /** What a grant is called in a check: a mailbox grant, one capability, a system permission, or nothing known. */
  datatype GrantName = NamedMailboxGrant(grant: MailboxGrant) | NamedCapability(capability: Capability) | NamedPermission(permission: SystemPermission) | NamedUnknown

  function RequiredGrantCapabilities(name: GrantName): seq<Capability> {
    match name
    case NamedMailboxGrant(g) => MailboxBundle(g)
    case NamedCapability(c) => [c]
    case NamedPermission(p) => SystemBundle(p)
    case NamedUnknown => []
  }

  predicate CanManageAgentGrant(ctx: Context, c: Capability, mailbox: Option<string>, parse: RecipientPolicy.AddressParser) {
    Can(ctx.rules, Manage, AgentGrant, Resource(ctx.org, mailbox, Some(c), None), parse)
  }

  predicate CanManageAdminAgentGrant(ctx: Context, name: GrantName, mailbox: Option<string>, parse: RecipientPolicy.AddressParser) {
    var required := RequiredGrantCapabilities(name);
    required != [] && forall i :: 0 <= i < |required| ==> CanManageAgentGrant(ctx, required[i], mailbox, parse)
  }

  predicate CanManageAgents(ctx: Context, parse: RecipientPolicy.AddressParser) {
    Can(ctx.rules, Manage, Agent, Resource(ctx.org, None, None, None), parse)
  }

  /** For a session that does not administer its organization, one check passes exactly when it holds that authority. */
  lemma CheckMeansHolding(ctx: Context, s: State, now: Time, c: Capability, mailbox: Option<string>, parse: RecipientPolicy.AddressParser)
    requires BuiltFrom(ctx, s, now) && !Administers(ctx.actor, ctx.org)
    ensures CanManageAgentGrant(ctx, c, mailbox, parse) <==> Holds(s, now, ctx.actor.principal, AuthorityOn(ctx.org, mailbox, c))
  {
    RulesAnswerForState(ctx, s, now, Manage, AgentGrant, Resource(ctx.org, mailbox, Some(c), None), parse);
    ManagingIsHolding(s, ctx.actor, now, ctx.org, mailbox, c, parse);
  }

  /** The check on a whole grant passes exactly when every capability of its bundle is held. */
  lemma GrantCheckMeansHolding(ctx: Context, s: State, now: Time, name: GrantName, mailbox: Option<string>, parse: RecipientPolicy.AddressParser)
    requires BuiltFrom(ctx, s, now) && !Administers(ctx.actor, ctx.org)
    ensures CanManageAdminAgentGrant(ctx, name, mailbox, parse) <==>
              && !name.NamedUnknown?
              && forall c :: c in RequiredGrantCapabilities(name) ==> Holds(s, now, ctx.actor.principal, AuthorityOn(ctx.org, mailbox, c))
  {
    forall c ensures CanManageAgentGrant(ctx, c, mailbox, parse) <==> Holds(s, now, ctx.actor.principal, AuthorityOn(ctx.org, mailbox, c)) {
      CheckMeansHolding(ctx, s, now, c, mailbox, parse);
    }
  }

  /** So whoever passes the check on a mailbox grant already holds everything the grant would confer. */
  lemma CheckedMailboxGrantIsHeld(ctx: Context, s: State, now: Time, k: MailboxKey, a: Authority, parse: RecipientPolicy.AddressParser)
    requires BuiltFrom(ctx, s, now) && !Administers(ctx.actor, ctx.org) && k.org == ctx.org
    requires CanManageAdminAgentGrant(ctx, NamedMailboxGrant(k.grant), Some(k.mailbox), parse)
    requires MailboxKeyConfers(k, a)
    ensures Holds(s, now, ctx.actor.principal, a)
  {
    GrantCheckMeansHolding(ctx, s, now, NamedMailboxGrant(k.grant), Some(k.mailbox), parse);
    MailboxBundlesPartition(a.capability);
    assert a == AuthorityOn(ctx.org, Some(k.mailbox), a.capability);
  }

  lemma PermissionConfersOnOrganization(k: SystemKey, a: Authority)
    requires SystemKeyConfers(k, a)
    ensures a.capability in RequiredGrantCapabilities(NamedPermission(k.permission)) && a == AuthorityOn(k.org, None, a.capability)
  {
  }

  lemma CheckedPermissionIsHeld(ctx: Context, s: State, now: Time, k: SystemKey, a: Authority, parse: RecipientPolicy.AddressParser)
    requires BuiltFrom(ctx, s, now) && !Administers(ctx.actor, ctx.org) && k.org == ctx.org
    requires CanManageAdminAgentGrant(ctx, NamedPermission(k.permission), None, parse)
    requires SystemKeyConfers(k, a)
    ensures Holds(s, now, ctx.actor.principal, a)
  {
    PermissionConfersOnOrganization(k, a);
    GrantCheckMeansHolding(ctx, s, now, NamedPermission(k.permission), None, parse);
  }

  /** Managing agents is for administrators and holders of that authority. */
  lemma AgentManagementMeansHolding(ctx: Context, s: State, now: Time, parse: RecipientPolicy.AddressParser)
    requires BuiltFrom(ctx, s, now)
    ensures CanManageAgents(ctx, parse) <==> Administers(ctx.actor, ctx.org) || Holds(s, now, ctx.actor.principal, OnOrganization(ctx.org, AgentManage))
  {
    var r, a := Resource(ctx.org, None, None, None), OnOrganization(ctx.org, AgentManage);
    RulesAnswerForState(ctx, s, now, Manage, Agent, r, parse);
    if Administers(ctx.actor, ctx.org) {
      AdministratorsAreAllowedExactly(s, ctx.actor, now, Manage, Agent, r, parse);
    } else {
      AbilityIsWhatAuthoritiesUnlock(s, ctx.actor, now, Manage, Agent, r, parse);
      if b :| Holds(s, now, ctx.actor.principal, b) && Unlocks(b, Manage, Agent, r) {
        assert b == a;
      }
    }
  }

  /** An administrator's session passes the check on every grant of a known name, on any mailbox. */
  lemma AdministratorsPassEveryCheck(ctx: Context, s: State, now: Time, name: GrantName, mailbox: Option<string>, parse: RecipientPolicy.AddressParser)
    requires BuiltFrom(ctx, s, now) && Administers(ctx.actor, ctx.org) && !name.NamedUnknown?
    ensures CanManageAdminAgentGrant(ctx, name, mailbox, parse)
  {
    forall c ensures CanManageAgentGrant(ctx, c, mailbox, parse) {
      var r := Resource(ctx.org, mailbox, Some(c), None);
      RulesAnswerForState(ctx, s, now, Manage, AgentGrant, r, parse);
      AdministratorsAreAllowedExactly(s, ctx.actor, now, Manage, AgentGrant, r, parse);
    }
  }
}
