/** The rule list a principal's grants are compiled into, and the questions it answers. */
module Ability {
  import opened Wrappers
  import opened Capabilities
  import opened Grants
  import RecipientPolicy

  datatype Role = Owner | Administrator | Member

  /** Who asks: a principal, and for a session its active organization and role there. */
  datatype Actor = Actor(principal: Principal, org: Option<string>, role: Option<Role>)

  predicate IsAdministrator(actor: Actor) {
    && actor.principal.kind == UserSession && actor.org.Some?
    && (actor.role == Some(Owner) || actor.role == Some(Administrator))
  }

  datatype Resource = Resource(org: string, mailbox: Option<string>, capability: Option<Capability>, recipients: Option<seq<string>>)

  /** The conditions a rule can carry. */
  datatype Condition =
    | InOrganization(org: string)
    | OnOneMailbox(org: string, mailbox: string)
    | MessageTo(org: string, mailbox: string, capability: Capability, allow: RecipientPolicy.AllowList)
    | GrantOnMailbox(org: string, mailbox: string, capability: Capability)
    | GrantInOrganization(org: string, capability: Capability)

  datatype Rule = Rule(actions: set<Action>, subject: Subject, condition: Condition)

  predicate SameMailbox(resource: Resource, mailbox: string) {
    NormalizedMailbox(resource.mailbox) == NormalizedMailbox(Some(mailbox))
  }

  predicate Satisfies(condition: Condition, resource: Resource, parse: RecipientPolicy.AddressParser) {
    && resource.org == condition.org
    && match condition
       case InOrganization(_) => true
       case OnOneMailbox(_, mailbox) => SameMailbox(resource, mailbox)
       case MessageTo(_, mailbox, c, allow) =>
         SameMailbox(resource, mailbox) && (c in {MessageSend, MessageReply} ==> RecipientPolicy.RecipientsSatisfy(parse, allow, resource.recipients))
       case GrantOnMailbox(_, mailbox, c) => SameMailbox(resource, mailbox) && resource.capability == Some(c)
       case GrantInOrganization(_, c) => resource.capability == Some(c)
  }

  /** A rule whose actions include `manage` answers every action on its subject. */
  predicate Answers(rule: Rule, action: Action, subject: Subject, resource: Resource, parse: RecipientPolicy.AddressParser) {
    rule.subject == subject && (action in rule.actions || Manage in rule.actions) && Satisfies(rule.condition, resource, parse)
  }

  predicate Can(rules: seq<Rule>, action: Action, subject: Subject, resource: Resource, parse: RecipientPolicy.AddressParser) {
    exists i :: 0 <= i < |rules| && Answers(rules[i], action, subject, resource, parse)
  }

  // --- the rules of one document --------------------------------------------------------------------

  function AdministratorRules(org: string): seq<Rule> {
    var everywhere := InOrganization(org);
    [ Rule({ReadStatus}, Organization, everywhere),
      Rule({Archive, Create, CreateDraft, List, Manage, MarkRead, Read, Reply, Search, Send, Update}, Mailbox, everywhere),
      Rule({Archive, List, Manage, MarkRead, Read, Reply, Search, Send}, Message, everywhere),
      Rule({CreateDraft, Read, Send}, Draft, everywhere),
      Rule({Manage}, Domain, everywhere),
      Rule({Manage}, ForwardingGroup, everywhere),
      Rule({Claim, Manage}, Agent, everywhere),
      Rule({Manage}, AgentGrant, everywhere),
      Rule({Manage}, OAuthConnection, everywhere) ]
  }

  /** The rules of one capability of a mailbox grant. */
  function MailboxCapabilityRules(k: MailboxKey, c: Capability): seq<Rule> {
    var condition := OnOneMailbox(k.org, k.mailbox);
    [ Rule({ActionOf(c)}, Mailbox, condition),
      Rule({ActionOf(c)}, Message, condition),
      Rule({ActionOf(c)}, Draft, condition),
      Rule({Manage}, AgentGrant, GrantOnMailbox(k.org, k.mailbox, c)) ]
  }

  const READING: set<Action> := {List, Read, Search}

  /** The rules of one capability of a system grant, status rule aside. */
  function SystemCapabilityRules(k: SystemKey, c: Capability): seq<Rule> {
    var condition := InOrganization(k.org);
    (match k.permission
     case CreateAccounts => [Rule({ActionOf(c)}, Mailbox, condition)]
     case ManageAccounts => [Rule({ActionOf(c)}, Mailbox, condition)]
     case ManageForwardingGroups => [Rule({ActionOf(c)}, ForwardingGroup, condition)]
     case ReadAllMailboxes => [Rule(READING, Mailbox, condition), Rule(READING, Message, condition)]
     case ManageAgents => [Rule({Manage}, Agent, condition)]
     case ManageDomains => [Rule({Manage}, Domain, condition)]
     case ManageOAuthConnections => [Rule({Manage}, OAuthConnection, condition)])
    + [Rule({Manage}, AgentGrant, GrantInOrganization(k.org, c))]
  }

  function CapabilityRules(c: Capability, raw: RawConstraints): seq<Rule> {
    match ParseGrantConstraints(c, raw)
    case None => []
    case Some(MailboxConstraints(org, mailbox, allow)) =>
      [ Rule({ReadStatus}, Organization, InOrganization(org)),
        Rule({ActionOf(c)}, Mailbox, OnOneMailbox(org, mailbox)),
        Rule({ActionOf(c)}, Message, MessageTo(org, mailbox, c, allow)),
        Rule({ActionOf(c)}, Draft, OnOneMailbox(org, mailbox)),
        Rule({Manage}, AgentGrant, GrantOnMailbox(org, mailbox, c)) ]
    case Some(OrganizationConstraints(org)) =>
      [Rule({ReadStatus}, Organization, InOrganization(org))] + OwnRules(c, org) + [Rule({Manage}, AgentGrant, GrantInOrganization(org, c))]
  }

  /** The rules of an organization-wide capability that are its own. */
  function OwnRules(c: Capability, org: string): seq<Rule> {
    var condition := InOrganization(org);
    match c
    case MailboxCreate => [Rule({ActionOf(c)}, Mailbox, condition)]
    case MailboxProvision => [Rule({ActionOf(c)}, Mailbox, condition)]
    case MailboxUpdate => [Rule({ActionOf(c)}, Mailbox, condition)]
    case ForwardingGroupManage => [Rule({ActionOf(c)}, ForwardingGroup, condition)]
    case MailboxReadAll => [Rule(READING, Mailbox, condition), Rule(READING, Message, condition)]
    case AgentClaim => [Rule({ActionOf(c)}, Agent, condition)]
    case AgentManage => [Rule({ActionOf(c)}, Agent, condition)]
    case OAuthConnectionManage => [Rule({ActionOf(c)}, OAuthConnection, condition)]
    case DomainManage => [Rule({ActionOf(c)}, Domain, condition)]
    case _ => []
  }

  // --- the rules of all documents ---------------------------------------------------------------------

  datatype Documents = Documents(
    mailbox: set<(MailboxKey, GrantState)>, system: set<(SystemKey, GrantState)>, capability: set<CapabilityGrant>)

  predicate MailboxGrantYields(k: MailboxKey, s: GrantState, actor: Actor, now: Time, rule: Rule) {
    && IsGrantActive(s, now) && k.principal == actor.principal
    && (|| rule == Rule({ReadStatus}, Organization, InOrganization(k.org))
        || exists c :: c in MailboxBundle(k.grant) && rule in MailboxCapabilityRules(k, c))
  }

  predicate SystemGrantYields(k: SystemKey, s: GrantState, actor: Actor, now: Time, rule: Rule) {
    && IsGrantActive(s, now) && k.principal == actor.principal
    && (|| rule == Rule({ReadStatus}, Organization, InOrganization(k.org))
        || exists c :: c in SystemBundle(k.permission) && rule in SystemCapabilityRules(k, c))
  }

  predicate CapabilityGrantYields(g: CapabilityGrant, actor: Actor, now: Time, rule: Rule) {
    && IsCapabilityGrantActive(g, now) && actor.principal == Principal(AgentPrincipal, g.agent)
    && g.capability.Some? && rule in CapabilityRules(g.capability.value, g.constraints)
  }

  /** The ability as a set of rules: whose documents, and which rules each contributes. */
  ghost predicate Yields(docs: Documents, actor: Actor, now: Time, rule: Rule) {
    || (IsAdministrator(actor) && rule in AdministratorRules(actor.org.value))
    || (exists k, s :: (k, s) in docs.mailbox && MailboxGrantYields(k, s, actor, now, rule))
    || (exists k, s :: (k, s) in docs.system && SystemGrantYields(k, s, actor, now, rule))
    || (exists g :: g in docs.capability && CapabilityGrantYields(g, actor, now, rule))
  }

  function Listed<T>(list: seq<T>): set<T> {
    set x | x in list
  }

  method MailboxGrantRules(k: MailboxKey) returns (rules: seq<Rule>)
    ensures forall rule :: rule in rules <==>
                             || rule == Rule({ReadStatus}, Organization, InOrganization(k.org))
                             || exists c :: c in MailboxBundle(k.grant) && rule in MailboxCapabilityRules(k, c)
  {
    rules := [Rule({ReadStatus}, Organization, InOrganization(k.org))];
    var bundle := MailboxBundle(k.grant);
    for n := 0 to |bundle|
      invariant forall rule :: rule in rules <==>
                                 || rule == Rule({ReadStatus}, Organization, InOrganization(k.org))
                                 || exists m :: 0 <= m < n && rule in MailboxCapabilityRules(k, bundle[m])
    {
      rules := rules + MailboxCapabilityRules(k, bundle[n]);
    }
  }

  method SystemGrantRules(k: SystemKey) returns (rules: seq<Rule>)
    ensures forall rule :: rule in rules <==>
                             || rule == Rule({ReadStatus}, Organization, InOrganization(k.org))
                             || exists c :: c in SystemBundle(k.permission) && rule in SystemCapabilityRules(k, c)
  {
    rules := [Rule({ReadStatus}, Organization, InOrganization(k.org))];
    var bundle := SystemBundle(k.permission);
    for n := 0 to |bundle|
      invariant forall rule :: rule in rules <==>
                                 || rule == Rule({ReadStatus}, Organization, InOrganization(k.org))
                                 || exists m :: 0 <= m < n && rule in SystemCapabilityRules(k, bundle[m])
    {
      rules := rules + SystemCapabilityRules(k, bundle[n]);
    }
  }

  /** The builder's loops produce exactly the rules of the live documents of this principal. */
  method BuildAgentMailAbility(
    mailboxGrants: seq<(MailboxKey, GrantState)>, systemGrants: seq<(SystemKey, GrantState)>, capabilityGrants: seq<CapabilityGrant>,
    actor: Actor, now: Time) returns (rules: seq<Rule>)
    ensures var docs := Documents(Listed(mailboxGrants), Listed(systemGrants), Listed(capabilityGrants));
            forall rule :: rule in rules <==> Yields(docs, actor, now, rule)
  {
    rules := if IsAdministrator(actor) then AdministratorRules(actor.org.value) else [];
    var none := Documents({}, {}, {});
    ghost var docs := none;
    for i := 0 to |mailboxGrants|
      invariant docs == none.(mailbox := Listed(mailboxGrants[..i]))
      invariant forall rule :: rule in rules <==> Yields(docs, actor, now, rule)
    {
      var (k, s) := mailboxGrants[i];
      var more: seq<Rule> := [];
      if IsGrantActive(s, now) && k.principal == actor.principal {
        more := MailboxGrantRules(k);
      }
      ghost var next := docs.(mailbox := Listed(mailboxGrants[..i + 1]));
      OneMoreMailboxGrant(docs, next, k, s, actor, now);
      rules, docs := rules + more, next;
    }
    assert mailboxGrants[..|mailboxGrants|] == mailboxGrants;
    ghost var mailboxOnly := docs;
    for i := 0 to |systemGrants|
      invariant docs == mailboxOnly.(system := Listed(systemGrants[..i]))
      invariant forall rule :: rule in rules <==> Yields(docs, actor, now, rule)
    {
      var (k, s) := systemGrants[i];
      var more: seq<Rule> := [];
      if IsGrantActive(s, now) && k.principal == actor.principal {
        more := SystemGrantRules(k);
      }
      ghost var next := docs.(system := Listed(systemGrants[..i + 1]));
      OneMoreSystemGrant(docs, next, k, s, actor, now);
      rules, docs := rules + more, next;
    }
    assert systemGrants[..|systemGrants|] == systemGrants;
    ghost var mailboxAndSystem := docs;
    for i := 0 to |capabilityGrants|
      invariant docs == mailboxAndSystem.(capability := Listed(capabilityGrants[..i]))
      invariant forall rule :: rule in rules <==> Yields(docs, actor, now, rule)
    {
      var g := capabilityGrants[i];
      var more: seq<Rule> := [];
      if IsCapabilityGrantActive(g, now) && actor.principal == Principal(AgentPrincipal, g.agent) && g.capability.Some? {
        more := CapabilityRules(g.capability.value, g.constraints);
      }
      ghost var next := docs.(capability := Listed(capabilityGrants[..i + 1]));
      OneMoreCapabilityGrant(docs, next, g, actor, now);
      rules, docs := rules + more, next;
    }
    assert capabilityGrants[..|capabilityGrants|] == capabilityGrants;
  }

  lemma OneMoreMailboxGrant(docs: Documents, next: Documents, k: MailboxKey, s: GrantState, actor: Actor, now: Time)
    requires next == docs.(mailbox := docs.mailbox + {(k, s)})
    ensures forall rule :: Yields(next, actor, now, rule) <==> Yields(docs, actor, now, rule) || MailboxGrantYields(k, s, actor, now, rule)
  {
  }

  lemma OneMoreSystemGrant(docs: Documents, next: Documents, k: SystemKey, s: GrantState, actor: Actor, now: Time)
    requires next == docs.(system := docs.system + {(k, s)})
    ensures forall rule :: Yields(next, actor, now, rule) <==> Yields(docs, actor, now, rule) || SystemGrantYields(k, s, actor, now, rule)
  {
  }

  lemma OneMoreCapabilityGrant(docs: Documents, next: Documents, g: CapabilityGrant, actor: Actor, now: Time)
    requires next == docs.(capability := docs.capability + {g})
    ensures forall rule :: Yields(next, actor, now, rule) <==> Yields(docs, actor, now, rule) || CapabilityGrantYields(g, actor, now, rule)
  {
  }

  // --- what the ability answers ---------------------------------------------------------------------

  function DocumentsOf(s: State): Documents {
    Documents(s.mailbox.Items, s.system.Items, s.capability.Values)
  }

  /** What `can` answers for a principal whose grants are all those of the state. */
  ghost predicate Allowed(s: State, actor: Actor, now: Time, action: Action, subject: Subject, resource: Resource, parse: RecipientPolicy.AddressParser) {
    exists rule :: Yields(DocumentsOf(s), actor, now, rule) && Answers(rule, action, subject, resource, parse)
  }

  ghost predicate MayManageGrant(s: State, actor: Actor, now: Time, org: string, mailbox: Option<string>, c: Capability, parse: RecipientPolicy.AddressParser) {
    Allowed(s, actor, now, Manage, AgentGrant, Resource(org, mailbox, Some(c), None), parse)
  }

  // --- an ability is what its authorities unlock -----------------------------------------------------------

  predicate Administers(actor: Actor, org: string) {
    IsAdministrator(actor) && actor.org.value == org
  }

  /** What one capability held on a whole organization unlocks there, beside its own grants and the status. */
  predicate OrganizationCapabilityAllows(c: Capability, action: Action, subject: Subject) {
    match subject
    case Mailbox =>
      || (c.MailboxCreate? && action.Create?) || (c.MailboxProvision? && action.Provision?) || (c.MailboxUpdate? && action.Update?)
      || (c.MailboxReadAll? && action in READING)
    case Message => c.MailboxReadAll? && action in READING
    case ForwardingGroup => c.ForwardingGroupManage?
    case Agent => c.AgentManage? || (c.AgentClaim? && action.Claim?)
    case OAuthConnection => c.OAuthConnectionManage?
    case Domain => c.DomainManage?
    case _ => false
  }

  /** What one authority unlocks, whichever table it comes from. */
  predicate Unlocks(a: Authority, action: Action, subject: Subject, r: Resource) {
    && a.org == r.org
    && match subject
       case Organization => action == ReadStatus
       case AgentGrant => r.capability == Some(a.capability) && (a.OnMailbox? ==> a.mailbox == NormalizedMailbox(r.mailbox))
       case _ =>
         if a.OnMailbox? then
           && subject in {Mailbox, Message, Draft} && a.mailbox == NormalizedMailbox(r.mailbox)
           && (ActionOf(a.capability) == action || ActionOf(a.capability) == Manage)
         else OrganizationCapabilityAllows(a.capability, action, subject)
  }

  function StatusRule(org: string): Rule {
    Rule({ReadStatus}, Organization, InOrganization(org))
  }

  lemma AnswersOnMailbox(act: Action, own: Subject, org: string, mailbox: string, action: Action, subject: Subject, r: Resource, parse: RecipientPolicy.AddressParser)
    ensures Answers(Rule({act}, own, OnOneMailbox(org, mailbox)), action, subject, r, parse) <==>
              subject == own && (act == action || act == Manage) && r.org == org && SameMailbox(r, mailbox)
  {
  }

  lemma AnswersInOrganization(acts: set<Action>, own: Subject, org: string, action: Action, subject: Subject, r: Resource, parse: RecipientPolicy.AddressParser)
    ensures Answers(Rule(acts, own, InOrganization(org)), action, subject, r, parse) <==>
              subject == own && (action in acts || Manage in acts) && r.org == org
  {
  }

  lemma AnswersOnGrants(c: Capability, org: string, mailbox: string, action: Action, subject: Subject, r: Resource, parse: RecipientPolicy.AddressParser)
    ensures Answers(Rule({Manage}, AgentGrant, GrantOnMailbox(org, mailbox, c)), action, subject, r, parse) <==>
              subject == AgentGrant && r.org == org && SameMailbox(r, mailbox) && r.capability == Some(c)
    ensures Answers(Rule({Manage}, AgentGrant, GrantInOrganization(org, c)), action, subject, r, parse) <==>
              subject == AgentGrant && r.org == org && r.capability == Some(c)
  {
  }

  lemma CanOne(rule: Rule, action: Action, subject: Subject, r: Resource, parse: RecipientPolicy.AddressParser)
    ensures Can([rule], action, subject, r, parse) <==> Answers(rule, action, subject, r, parse)
  {
    assert [rule][0] == rule;
  }

  lemma CanPart(part: seq<Rule>, whole: seq<Rule>, action: Action, subject: Subject, r: Resource, parse: RecipientPolicy.AddressParser)
    requires Can(part, action, subject, r, parse) && forall rule :: rule in part ==> rule in whole
    ensures Can(whole, action, subject, r, parse)
  {
    var i :| 0 <= i < |part| && Answers(part[i], action, subject, r, parse);
    OneRuleAnswers(whole, part[i], action, subject, r, parse);
  }

  lemma CanSomePart(before: seq<Rule>, after: seq<Rule>, action: Action, subject: Subject, r: Resource, parse: RecipientPolicy.AddressParser)
    requires Can(before + after, action, subject, r, parse)
    ensures Can(before, action, subject, r, parse) || Can(after, action, subject, r, parse)
  {
    var rules := before + after;
    var i :| 0 <= i < |rules| && Answers(rules[i], action, subject, r, parse);
    if i < |before| {
      OneRuleAnswers(before, rules[i], action, subject, r, parse);
    } else {
      OneRuleAnswers(after, rules[i], action, subject, r, parse);
    }
  }

  lemma CanWithin(before: seq<Rule>, after: seq<Rule>, action: Action, subject: Subject, r: Resource, parse: RecipientPolicy.AddressParser)
    ensures Can(before + after, action, subject, r, parse) <==> Can(before, action, subject, r, parse) || Can(after, action, subject, r, parse)
  {
    if Can(before + after, action, subject, r, parse) {
      CanSomePart(before, after, action, subject, r, parse);
    }
    if Can(before, action, subject, r, parse) {
      CanPart(before, before + after, action, subject, r, parse);
    }
    if Can(after, action, subject, r, parse) {
      CanPart(after, before + after, action, subject, r, parse);
    }
  }

  lemma CanAmongFive(one: Rule, two: Rule, three: Rule, four: Rule, five: Rule, action: Action, subject: Subject, r: Resource, parse: RecipientPolicy.AddressParser)
    ensures Can([one, two, three, four, five], action, subject, r, parse) <==>
              || Answers(one, action, subject, r, parse) || Answers(two, action, subject, r, parse) || Answers(three, action, subject, r, parse)
              || Answers(four, action, subject, r, parse) || Answers(five, action, subject, r, parse)
  {
    var rules := [one, two, three, four, five];
    assert rules[0] == one && rules[1] == two && rules[2] == three && rules[3] == four && rules[4] == five;
    assert forall i :: 0 <= i < |rules| ==> rules[i] in [one, two, three, four, five];
  }

  lemma MailboxRulesUnlock(k: MailboxKey, c: Capability, action: Action, subject: Subject, r: Resource, parse: RecipientPolicy.AddressParser)
    ensures Can([StatusRule(k.org)] + MailboxCapabilityRules(k, c), action, subject, r, parse)
            <==> Unlocks(OnMailbox(k.org, NormalizedMailbox(Some(k.mailbox)), c), action, subject, r)
  {
    var here, act := OnOneMailbox(k.org, k.mailbox), {ActionOf(c)};
    var manage := Rule({Manage}, AgentGrant, GrantOnMailbox(k.org, k.mailbox, c));
    assert [StatusRule(k.org)] + MailboxCapabilityRules(k, c)
        == [StatusRule(k.org), Rule(act, Mailbox, here), Rule(act, Message, here), Rule(act, Draft, here), manage];
    CanAmongFive(StatusRule(k.org), Rule(act, Mailbox, here), Rule(act, Message, here), Rule(act, Draft, here), manage, action, subject, r, parse);
    AnswersInOrganization({ReadStatus}, Organization, k.org, action, subject, r, parse);
    AnswersOnMailbox(ActionOf(c), Mailbox, k.org, k.mailbox, action, subject, r, parse);
    AnswersOnMailbox(ActionOf(c), Message, k.org, k.mailbox, action, subject, r, parse);
    AnswersOnMailbox(ActionOf(c), Draft, k.org, k.mailbox, action, subject, r, parse);
    AnswersOnGrants(c, k.org, k.mailbox, action, subject, r, parse);
  }

  lemma ReadAllUnlocks(org: string, action: Action, subject: Subject, r: Resource, parse: RecipientPolicy.AddressParser)
    ensures Can(OwnRules(MailboxReadAll, org), action, subject, r, parse) <==> r.org == org && OrganizationCapabilityAllows(MailboxReadAll, action, subject)
  {
    var first, second := Rule(READING, Mailbox, InOrganization(org)), Rule(READING, Message, InOrganization(org));
    assert OwnRules(MailboxReadAll, org) == [first] + [second];
    CanWithin([first], [second], action, subject, r, parse);
    CanOne(first, action, subject, r, parse);
    CanOne(second, action, subject, r, parse);
    AnswersInOrganization(READING, Mailbox, org, action, subject, r, parse);
    AnswersInOrganization(READING, Message, org, action, subject, r, parse);
    assert Manage !in READING;
  }

  /** Each other organization-wide capability has one rule of its own, or none. */
  lemma OneOwnRuleUnlocks(c: Capability, org: string, action: Action, subject: Subject, r: Resource, parse: RecipientPolicy.AddressParser)
    requires OwnRules(c, org) == [Rule({ActionOf(c)}, OwnSubject(c), InOrganization(org))] && !c.MailboxReadAll?
    ensures Can(OwnRules(c, org), action, subject, r, parse) <==> r.org == org && OrganizationCapabilityAllows(c, action, subject)
  {
    CanOne(Rule({ActionOf(c)}, OwnSubject(c), InOrganization(org)), action, subject, r, parse);
    AnswersInOrganization({ActionOf(c)}, OwnSubject(c), org, action, subject, r, parse);
    OwnSubjectUnlocks(c, action, subject);
  }

  lemma OwnRulesUnlock(c: Capability, org: string, action: Action, subject: Subject, r: Resource, parse: RecipientPolicy.AddressParser)
    ensures Can(OwnRules(c, org), action, subject, r, parse) <==> r.org == org && OrganizationCapabilityAllows(c, action, subject)
  {
    OwnRulesAreFew(c, org, action, subject);
    if c.MailboxReadAll? {
      ReadAllUnlocks(org, action, subject, r, parse);
    } else if OwnRules(c, org) != [] {
      OneOwnRuleUnlocks(c, org, action, subject, r, parse);
    }
  }

  lemma OwnRulesAreFew(c: Capability, org: string, action: Action, subject: Subject)
    ensures c.MailboxReadAll? || OwnRules(c, org) == [] || OwnRules(c, org) == [Rule({ActionOf(c)}, OwnSubject(c), InOrganization(org))]
    ensures OwnRules(c, org) == [] ==> !OrganizationCapabilityAllows(c, action, subject)
  {
  }

  lemma OwnSubjectUnlocks(c: Capability, action: Action, subject: Subject)
    requires !c.MailboxReadAll? && OwnRules(c, "") != []
    ensures OrganizationCapabilityAllows(c, action, subject) <==> subject == OwnSubject(c) && (ActionOf(c) == action || ActionOf(c) == Manage)
  {
  }

  function OwnSubject(c: Capability): Subject {
    match c
    case ForwardingGroupManage => ForwardingGroup
    case AgentClaim => Agent
    case AgentManage => Agent
    case OAuthConnectionManage => OAuthConnection
    case DomainManage => Domain
    case _ => Mailbox
  }

  lemma OrganizationRulesUnlock(c: Capability, raw: RawConstraints, org: string, action: Action, subject: Subject, r: Resource, parse: RecipientPolicy.AddressParser)
    requires ParseGrantConstraints(c, raw) == Some(OrganizationConstraints(org))
    ensures Can(CapabilityRules(c, raw), action, subject, r, parse) <==> Unlocks(OnOrganization(org, c), action, subject, r)
  {
    var manage := Rule({Manage}, AgentGrant, GrantInOrganization(org, c));
    assert CapabilityRules(c, raw) == [StatusRule(org)] + OwnRules(c, org) + [manage];
    CanWithin([StatusRule(org)] + OwnRules(c, org), [manage], action, subject, r, parse);
    CanWithin([StatusRule(org)], OwnRules(c, org), action, subject, r, parse);
    CanOne(StatusRule(org), action, subject, r, parse);
    CanOne(manage, action, subject, r, parse);
    OwnRulesUnlock(c, org, action, subject, r, parse);
    AnswersInOrganization({ReadStatus}, Organization, org, action, subject, r, parse);
    AnswersOnGrants(c, org, "", action, subject, r, parse);
  }

  /** A system permission's rules are those of its capability, written down a second time. */
  lemma SystemRulesUnlock(k: SystemKey, c: Capability, action: Action, subject: Subject, r: Resource, parse: RecipientPolicy.AddressParser)
    requires c in SystemBundle(k.permission)
    ensures Can([StatusRule(k.org)] + SystemCapabilityRules(k, c), action, subject, r, parse)
            <==> Unlocks(OnOrganization(k.org, c), action, subject, r)
  {
    var raw := Constraints(Present(k.org), Absent, Absent, Absent, Absent, false);
    assert [StatusRule(k.org)] + SystemCapabilityRules(k, c) == CapabilityRules(c, raw);
    OrganizationRulesUnlock(c, raw, k.org, action, subject, r, parse);
  }

  lemma ConstrainedRulesAnswer(c: Capability, org: string, mailbox: string, allow: RecipientPolicy.AllowList,
                               action: Action, subject: Subject, r: Resource, parse: RecipientPolicy.AddressParser)
    ensures var here, act := OnOneMailbox(org, mailbox), {ActionOf(c)};
            var message, manage := Rule(act, Message, MessageTo(org, mailbox, c, allow)), Rule({Manage}, AgentGrant, GrantOnMailbox(org, mailbox, c));
            Can([StatusRule(org), Rule(act, Mailbox, here), message, Rule(act, Draft, here), manage], action, subject, r, parse) <==>
              || Answers(message, action, subject, r, parse)
              || (subject != Message && Unlocks(OnMailbox(org, NormalizedMailbox(Some(mailbox)), c), action, subject, r))
  {
    var here, act := OnOneMailbox(org, mailbox), {ActionOf(c)};
    var message, manage := Rule(act, Message, MessageTo(org, mailbox, c, allow)), Rule({Manage}, AgentGrant, GrantOnMailbox(org, mailbox, c));
    CanAmongFive(StatusRule(org), Rule(act, Mailbox, here), message, Rule(act, Draft, here), manage, action, subject, r, parse);
    AnswersInOrganization({ReadStatus}, Organization, org, action, subject, r, parse);
    AnswersOnMailbox(ActionOf(c), Mailbox, org, mailbox, action, subject, r, parse);
    AnswersOnMailbox(ActionOf(c), Draft, org, mailbox, action, subject, r, parse);
    AnswersOnGrants(c, org, mailbox, action, subject, r, parse);
  }

  /** Of a constrained capability grant, only the message rule looks at more than the authority. */
  lemma ConstrainedRulesUnlock(c: Capability, raw: RawConstraints, org: string, mailbox: string, allow: RecipientPolicy.AllowList,
                               action: Action, subject: Subject, r: Resource, parse: RecipientPolicy.AddressParser)
    requires ParseGrantConstraints(c, raw) == Some(MailboxConstraints(org, mailbox, allow))
    ensures var a := OnMailbox(org, NormalizedMailbox(Some(mailbox)), c);
            && (Can(CapabilityRules(c, raw), action, subject, r, parse) ==> Unlocks(a, action, subject, r))
            && (subject != Message && Unlocks(a, action, subject, r) ==> Can(CapabilityRules(c, raw), action, subject, r, parse))
  {
    ConstrainedRulesAnswer(c, org, mailbox, allow, action, subject, r, parse);
    AnswersToMessage(c, org, mailbox, allow, action, subject, r, parse);
  }

  lemma AnswersToMessage(c: Capability, org: string, mailbox: string, allow: RecipientPolicy.AllowList,
                         action: Action, subject: Subject, r: Resource, parse: RecipientPolicy.AddressParser)
    ensures Answers(Rule({ActionOf(c)}, Message, MessageTo(org, mailbox, c, allow)), action, subject, r, parse) ==>
              subject == Message && (ActionOf(c) == action || ActionOf(c) == Manage) && r.org == org && SameMailbox(r, mailbox)
  {
  }

  lemma OneRuleAnswers(rules: seq<Rule>, rule: Rule, action: Action, subject: Subject, r: Resource, parse: RecipientPolicy.AddressParser)
    requires rule in rules && Answers(rule, action, subject, r, parse)
    ensures Can(rules, action, subject, r, parse)
  {
    var i :| 0 <= i < |rules| && rules[i] == rule;
  }

  lemma MailboxGrantUnlocks(k: MailboxKey, st: GrantState, actor: Actor, now: Time, rule: Rule, action: Action, subject: Subject, r: Resource, parse: RecipientPolicy.AddressParser)
    returns (c: Capability)
    requires MailboxGrantYields(k, st, actor, now, rule) && Answers(rule, action, subject, r, parse)
    ensures c in MailboxBundle(k.grant) && Unlocks(OnMailbox(k.org, NormalizedMailbox(Some(k.mailbox)), c), action, subject, r)
  {
    c := MailboxBundle(k.grant)[0];
    if d :| d in MailboxBundle(k.grant) && rule in MailboxCapabilityRules(k, d) {
      c := d;
    }
    OneRuleAnswers([StatusRule(k.org)] + MailboxCapabilityRules(k, c), rule, action, subject, r, parse);
    MailboxRulesUnlock(k, c, action, subject, r, parse);
  }

  lemma SystemGrantUnlocks(k: SystemKey, st: GrantState, actor: Actor, now: Time, rule: Rule, action: Action, subject: Subject, r: Resource, parse: RecipientPolicy.AddressParser)
    returns (c: Capability)
    requires SystemGrantYields(k, st, actor, now, rule) && Answers(rule, action, subject, r, parse)
    ensures c in SystemBundle(k.permission) && Unlocks(OnOrganization(k.org, c), action, subject, r)
  {
    c := SystemBundle(k.permission)[0];
    OneRuleAnswers([StatusRule(k.org)] + SystemCapabilityRules(k, c), rule, action, subject, r, parse);
    SystemRulesUnlock(k, c, action, subject, r, parse);
  }

  lemma CapabilityGrantUnlocks(g: CapabilityGrant, actor: Actor, now: Time, rule: Rule, action: Action, subject: Subject, r: Resource, parse: RecipientPolicy.AddressParser)
    returns (a: Authority)
    requires CapabilityGrantYields(g, actor, now, rule) && Answers(rule, action, subject, r, parse)
    ensures CapabilityGrantConfers(g, a) && Unlocks(a, action, subject, r)
  {
    var c := g.capability.value;
    OneRuleAnswers(CapabilityRules(c, g.constraints), rule, action, subject, r, parse);
    match ParseGrantConstraints(c, g.constraints).value
    case MailboxConstraints(org, mailbox, allow) =>
      ConstrainedRulesUnlock(c, g.constraints, org, mailbox, allow, action, subject, r, parse);
      a := OnMailbox(org, NormalizedMailbox(Some(mailbox)), c);
    case OrganizationConstraints(org) =>
      OrganizationRulesUnlock(c, g.constraints, org, action, subject, r, parse);
      a := OnOrganization(org, c);
  }

  lemma AdministratorRulesStayInside(org: string, rule: Rule)
    requires rule in AdministratorRules(org)
    ensures rule.condition == InOrganization(org)
  {
  }

  /** What an administrator may do with everything of a kind in the organization. */
  predicate AdministratorMay(action: Action, subject: Subject) {
    match subject
    case Organization => action == ReadStatus
    case Draft => action == CreateDraft || action == Read || action == Send
    case ApiKey => false
    case Agent => true
    case AgentGrant => true
    case Domain => true
    case ForwardingGroup => true
    case Mailbox => true
    case Message => true
    case OAuthConnection => true
  }

  /** One rule for each kind of subject. */
  function AdministratorRuleFor(org: string, subject: Subject): Rule
    requires !subject.ApiKey?
  {
    var rules := AdministratorRules(org);
    match subject
    case Organization => rules[0]
    case Mailbox => rules[1]
    case Message => rules[2]
    case Draft => rules[3]
    case Domain => rules[4]
    case ForwardingGroup => rules[5]
    case Agent => rules[6]
    case AgentGrant => rules[7]
    case OAuthConnection => rules[8]
  }

  lemma AdministratorRuleAnswers(org: string, action: Action, subject: Subject, r: Resource, parse: RecipientPolicy.AddressParser)
    requires !subject.ApiKey?
    ensures Answers(AdministratorRuleFor(org, subject), action, subject, r, parse) <==> r.org == org && AdministratorMay(action, subject)
  {
  }

  lemma AdministratorRulesAreFew(org: string, rule: Rule)
    requires rule in AdministratorRules(org)
    ensures !rule.subject.ApiKey? && rule == AdministratorRuleFor(org, rule.subject)
  {
  }

  lemma AdministratorAnswersExactly(s: State, actor: Actor, now: Time, action: Action, subject: Subject, r: Resource, parse: RecipientPolicy.AddressParser)
    requires Administers(actor, r.org) && AdministratorMay(action, subject)
    ensures Allowed(s, actor, now, action, subject, r, parse)
  {
    var rule := AdministratorRuleFor(r.org, subject);
    AdministratorRuleAnswers(r.org, action, subject, r, parse);
    assert rule in AdministratorRules(r.org);
    assert Yields(DocumentsOf(s), actor, now, rule);
  }

  lemma AnswersAreUnlocked(s: State, actor: Actor, now: Time, action: Action, subject: Subject, r: Resource, parse: RecipientPolicy.AddressParser)
    returns (a: Authority)
    requires !(Administers(actor, r.org) && AdministratorMay(action, subject)) && Allowed(s, actor, now, action, subject, r, parse)
    ensures Holds(s, now, actor.principal, a) && Unlocks(a, action, subject, r)
  {
    var docs := DocumentsOf(s);
    var rule :| Yields(docs, actor, now, rule) && Answers(rule, action, subject, r, parse);
    if IsAdministrator(actor) {
      assert rule !in AdministratorRules(actor.org.value) by {
        if rule in AdministratorRules(actor.org.value) {
          AdministratorRulesAreFew(actor.org.value, rule);
          AdministratorRuleAnswers(actor.org.value, action, subject, r, parse);
        }
      }
    }
    if k, st :| (k, st) in docs.mailbox && MailboxGrantYields(k, st, actor, now, rule) {
      var c := MailboxGrantUnlocks(k, st, actor, now, rule, action, subject, r, parse);
      a := OnMailbox(k.org, NormalizedMailbox(Some(k.mailbox)), c);
      assert MailboxKeyConfers(k, a);
    } else if k, st :| (k, st) in docs.system && SystemGrantYields(k, st, actor, now, rule) {
      var c := SystemGrantUnlocks(k, st, actor, now, rule, action, subject, r, parse);
      a := OnOrganization(k.org, c);
      assert SystemKeyConfers(k, a);
    } else {
      var g :| g in docs.capability && CapabilityGrantYields(g, actor, now, rule);
      a := CapabilityGrantUnlocks(g, actor, now, rule, action, subject, r, parse);
      var id :| id in s.capability && s.capability[id] == g;
    }
  }

  lemma HeldMailboxAnswers(s: State, k: MailboxKey, actor: Actor, now: Time, a: Authority, action: Action, subject: Subject, r: Resource, parse: RecipientPolicy.AddressParser)
    requires k in s.mailbox && k.principal == actor.principal && IsGrantActive(s.mailbox[k], now) && MailboxKeyConfers(k, a)
    requires Unlocks(a, action, subject, r)
    ensures Allowed(s, actor, now, action, subject, r, parse)
  {
    var rules := [StatusRule(k.org)] + MailboxCapabilityRules(k, a.capability);
    MailboxRulesUnlock(k, a.capability, action, subject, r, parse);
    var i :| 0 <= i < |rules| && Answers(rules[i], action, subject, r, parse);
    assert rules[i] == StatusRule(k.org) || rules[i] in MailboxCapabilityRules(k, a.capability);
    assert (k, s.mailbox[k]) in DocumentsOf(s).mailbox && MailboxGrantYields(k, s.mailbox[k], actor, now, rules[i]);
  }

  lemma HeldSystemAnswers(s: State, k: SystemKey, actor: Actor, now: Time, a: Authority, action: Action, subject: Subject, r: Resource, parse: RecipientPolicy.AddressParser)
    requires k in s.system && k.principal == actor.principal && IsGrantActive(s.system[k], now) && SystemKeyConfers(k, a)
    requires Unlocks(a, action, subject, r)
    ensures Allowed(s, actor, now, action, subject, r, parse)
  {
    var rules := [StatusRule(k.org)] + SystemCapabilityRules(k, a.capability);
    SystemRulesUnlock(k, a.capability, action, subject, r, parse);
    var i :| 0 <= i < |rules| && Answers(rules[i], action, subject, r, parse);
    assert rules[i] == StatusRule(k.org) || rules[i] in SystemCapabilityRules(k, a.capability);
    assert (k, s.system[k]) in DocumentsOf(s).system && SystemGrantYields(k, s.system[k], actor, now, rules[i]);
  }

  lemma HeldCapabilityAnswers(s: State, id: string, actor: Actor, now: Time, a: Authority, action: Action, subject: Subject, r: Resource, parse: RecipientPolicy.AddressParser)
    requires id in s.capability && Principal(AgentPrincipal, s.capability[id].agent) == actor.principal
    requires IsCapabilityGrantActive(s.capability[id], now) && CapabilityGrantConfers(s.capability[id], a)
    requires Unlocks(a, action, subject, r) && subject != Message
    ensures Allowed(s, actor, now, action, subject, r, parse)
  {
    var g := s.capability[id];
    var c := a.capability;
    match ParseGrantConstraints(c, g.constraints).value {
      case MailboxConstraints(org, mailbox, allow) => ConstrainedRulesUnlock(c, g.constraints, org, mailbox, allow, action, subject, r, parse);
      case OrganizationConstraints(org) => OrganizationRulesUnlock(c, g.constraints, org, action, subject, r, parse);
    }
    var rules := CapabilityRules(c, g.constraints);
    var i :| 0 <= i < |rules| && Answers(rules[i], action, subject, r, parse);
    assert g in DocumentsOf(s).capability && CapabilityGrantYields(g, actor, now, rules[i]);
  }

  lemma HeldAuthorityAnswers(s: State, actor: Actor, now: Time, a: Authority, action: Action, subject: Subject, r: Resource, parse: RecipientPolicy.AddressParser)
    requires Holds(s, now, actor.principal, a) && Unlocks(a, action, subject, r) && subject != Message
    ensures Allowed(s, actor, now, action, subject, r, parse)
  {
    if k :| k in s.mailbox && k.principal == actor.principal && IsGrantActive(s.mailbox[k], now) && MailboxKeyConfers(k, a) {
      HeldMailboxAnswers(s, k, actor, now, a, action, subject, r, parse);
    } else if k :| k in s.system && k.principal == actor.principal && IsGrantActive(s.system[k], now) && SystemKeyConfers(k, a) {
      HeldSystemAnswers(s, k, actor, now, a, action, subject, r, parse);
    } else {
      var id :| id in s.capability && Principal(AgentPrincipal, s.capability[id].agent) == actor.principal
                && IsCapabilityGrantActive(s.capability[id], now) && CapabilityGrantConfers(s.capability[id], a);
      HeldCapabilityAnswers(s, id, actor, now, a, action, subject, r, parse);
    }
  }

  /**
   * The whole ability of a principal who does not administer the organization: whatever it is
   * allowed there, one of its authorities unlocks; and apart from messages, where recipients count
   * too, whatever an authority unlocks it is allowed, whichever table confers it.
   */
  lemma AbilityIsWhatAuthoritiesUnlock(s: State, actor: Actor, now: Time, action: Action, subject: Subject, r: Resource, parse: RecipientPolicy.AddressParser)
    requires !Administers(actor, r.org)
    ensures Allowed(s, actor, now, action, subject, r, parse) ==> exists a :: Holds(s, now, actor.principal, a) && Unlocks(a, action, subject, r)
    ensures subject != Message && (exists a :: Holds(s, now, actor.principal, a) && Unlocks(a, action, subject, r)) ==>
              Allowed(s, actor, now, action, subject, r, parse)
  {
    if Allowed(s, actor, now, action, subject, r, parse) {
      var a := AnswersAreUnlocked(s, actor, now, action, subject, r, parse);
    }
    if subject != Message {
      if a :| Holds(s, now, actor.principal, a) && Unlocks(a, action, subject, r) {
        HeldAuthorityAnswers(s, actor, now, a, action, subject, r, parse);
      }
    }
  }

  /**
   * An administrator is allowed exactly what its table says, and whatever else an authority it
   * holds unlocks, which with messages could add nothing.
   */
  lemma AdministratorsAreAllowedExactly(s: State, actor: Actor, now: Time, action: Action, subject: Subject, r: Resource, parse: RecipientPolicy.AddressParser)
    requires Administers(actor, r.org)
    ensures Allowed(s, actor, now, action, subject, r, parse) <==>
              AdministratorMay(action, subject) || exists a :: Holds(s, now, actor.principal, a) && Unlocks(a, action, subject, r)
  {
    if AdministratorMay(action, subject) {
      AdministratorAnswersExactly(s, actor, now, action, subject, r, parse);
    } else {
      if Allowed(s, actor, now, action, subject, r, parse) {
        var a := AnswersAreUnlocked(s, actor, now, action, subject, r, parse);
      }
      if a :| Holds(s, now, actor.principal, a) && Unlocks(a, action, subject, r) {
        HeldAuthorityAnswers(s, actor, now, a, action, subject, r, parse);
      }
    }
  }

  /**
   * The whole ability, whoever asks: besides messages, allowed is exactly what the table of
   * administrators allows to a session of an owner or administrator in its own organization, and
   * what an authority the principal holds unlocks.
   */
  lemma AbilityIsExactly(s: State, actor: Actor, now: Time, action: Action, subject: Subject, r: Resource, parse: RecipientPolicy.AddressParser)
    requires subject != Message
    ensures Allowed(s, actor, now, action, subject, r, parse) <==>
              || (&& actor.principal.kind == UserSession && actor.org == Some(r.org) && (actor.role == Some(Owner) || actor.role == Some(Administrator))
                  && AdministratorMay(action, subject))
              || exists a :: Holds(s, now, actor.principal, a) && Unlocks(a, action, subject, r)
  {
    if Administers(actor, r.org) {
      AdministratorsAreAllowedExactly(s, actor, now, action, subject, r, parse);
    } else {
      AbilityIsWhatAuthoritiesUnlock(s, actor, now, action, subject, r, parse);
    }
  }

  lemma HeldInItsScope(s: State, now: Time, p: Principal, a: Authority)
    requires Holds(s, now, p, a)
    ensures a.OnMailbox? <==> IsMailboxScoped(a.capability)
  {
    MailboxBundlesPartition(a.capability);
  }

  /** Who does not administer an organization may manage exactly the grants of authority it holds there itself. */
  lemma ManagingIsHolding(s: State, actor: Actor, now: Time, org: string, mailbox: Option<string>, c: Capability, parse: RecipientPolicy.AddressParser)
    requires !Administers(actor, org)
    ensures MayManageGrant(s, actor, now, org, mailbox, c, parse) <==> Holds(s, now, actor.principal, AuthorityOn(org, mailbox, c))
  {
    var r := Resource(org, mailbox, Some(c), None);
    if MayManageGrant(s, actor, now, org, mailbox, c, parse) {
      var a := AnswersAreUnlocked(s, actor, now, Manage, AgentGrant, r, parse);
      HeldInItsScope(s, now, actor.principal, a);
      assert a == AuthorityOn(org, mailbox, c);
    }
    if Holds(s, now, actor.principal, AuthorityOn(org, mailbox, c)) {
      HeldAuthorityAnswers(s, actor, now, AuthorityOn(org, mailbox, c), Manage, AgentGrant, r, parse);
    }
  }

  /** Agents of an organization may be claimed exactly by who administers it or holds agent management or agent claiming there. */
  lemma ClaimingIsAllowedExactly(s: State, actor: Actor, now: Time, r: Resource, parse: RecipientPolicy.AddressParser)
    ensures Allowed(s, actor, now, Claim, Agent, r, parse) <==>
              || Administers(actor, r.org)
              || Holds(s, now, actor.principal, OnOrganization(r.org, AgentManage))
              || Holds(s, now, actor.principal, OnOrganization(r.org, AgentClaim))
  {
    if Administers(actor, r.org) {
      var rule := Rule({Claim, Manage}, Agent, InOrganization(r.org));
      assert AdministratorRules(r.org)[6] == rule;
      assert Yields(DocumentsOf(s), actor, now, rule) && Answers(rule, Claim, Agent, r, parse);
    } else {
      if Allowed(s, actor, now, Claim, Agent, r, parse) {
        var a := AnswersAreUnlocked(s, actor, now, Claim, Agent, r, parse);
        assert a == OnOrganization(r.org, a.capability) && a.capability in {AgentManage, AgentClaim};
      }
      forall c | c in {AgentManage, AgentClaim} && Holds(s, now, actor.principal, OnOrganization(r.org, c))
        ensures Allowed(s, actor, now, Claim, Agent, r, parse)
      {
        HeldAuthorityAnswers(s, actor, now, OnOrganization(r.org, c), Claim, Agent, r, parse);
      }
    }
  }

  // --- who may send ---------------------------------------------------------------------------------

  /** Every recipient of the message parses and is covered by an entry of the list, and there is one. */
  ghost predicate RecipientsCovered(parse: RecipientPolicy.AddressParser, allow: RecipientPolicy.AllowList, recipients: Option<seq<string>>) {
    && recipients.Some? && recipients.value != []
    && forall r :: r in recipients.value ==> parse(r).Some? && RecipientPolicy.Covers(allow, parse(r).value)
  }

  /** What a mailbox grant lets its holder do with messages. */
  predicate GrantHandles(g: MailboxGrant, action: Action) {
    match g
    case ManageMessages => true
    case SendAs => action == Send || action == Reply
    case ReadMailbox => action in READING
    case CreateDrafts => action == CreateDraft
  }

  predicate MailboxGrantAllows(k: MailboxKey, s: GrantState, actor: Actor, now: Time, action: Action, r: Resource) {
    && s.status == Active && (s.expiresAt.None? || now < s.expiresAt.value) && s.supported && k.principal == actor.principal && k.org == r.org && SameMailbox(r, k.mailbox)
    && GrantHandles(k.grant, action)
  }

  /** A capability grant for the action, or one that manages; the allow-list of one that sends or replies must cover the recipients. */
  ghost predicate CapabilityGrantAllows(g: CapabilityGrant, actor: Actor, now: Time, action: Action, r: Resource, parse: RecipientPolicy.AddressParser) {
    && g.status == GrantActive && (g.expiresAt.None? || now < g.expiresAt.value) && Principal(AgentPrincipal, g.agent) == actor.principal
    && g.capability.Some? && IsMailboxScoped(g.capability.value)
    && (g.capability == Some(MessageManage) || ActionOf(g.capability.value) == action)
    && var parsed := ParseGrantConstraints(g.capability.value, g.constraints);
       && parsed.Some? && parsed.value.org == r.org && SameMailbox(r, parsed.value.mailbox)
       && (g.capability == Some(MessageSend) || g.capability == Some(MessageReply) ==>
             parsed.value.allow == RecipientPolicy.OPEN || RecipientsCovered(parse, parsed.value.allow, r.recipients))
  }

  predicate SomeMailboxGrantAllows(s: State, actor: Actor, now: Time, action: Action, r: Resource) {
    exists k :: k in s.mailbox && MailboxGrantAllows(k, s.mailbox[k], actor, now, action, r)
  }

  ghost predicate SomeCapabilityGrantAllows(s: State, actor: Actor, now: Time, action: Action, r: Resource, parse: RecipientPolicy.AddressParser) {
    exists id :: id in s.capability && CapabilityGrantAllows(s.capability[id], actor, now, action, r, parse)
  }

  lemma MailboxMessageRule(k: MailboxKey, c: Capability, rule: Rule)
    ensures rule == Rule({ActionOf(c)}, Message, OnOneMailbox(k.org, k.mailbox)) <==> rule in MailboxCapabilityRules(k, c) && rule.subject == Message
  {
    assert MailboxCapabilityRules(k, c)[1] == Rule({ActionOf(c)}, Message, OnOneMailbox(k.org, k.mailbox));
  }

  lemma BundleHandles(g: MailboxGrant, action: Action)
    ensures GrantHandles(g, action) <==> exists c :: c in MailboxBundle(g) && ActionOf(c) in {action, Manage}
  {
    if GrantHandles(g, action) {
      var c := match g
        case ManageMessages => MessageManage
        case SendAs => if action == Send then MessageSend else MessageReply
        case ReadMailbox => if action == List then MessageList else if action == Read then MessageRead else MessageSearch
        case CreateDrafts => MessageCreateDraft;
      assert c in MailboxBundle(g) && ActionOf(c) in {action, Manage};
    }
  }

  lemma MailboxGrantAnswers(k: MailboxKey, s: GrantState, actor: Actor, now: Time, action: Action, r: Resource, parse: RecipientPolicy.AddressParser)
    ensures MailboxGrantAllows(k, s, actor, now, action, r) <==>
              exists rule :: MailboxGrantYields(k, s, actor, now, rule) && Answers(rule, action, Message, r, parse)
  {
    BundleHandles(k.grant, action);
    if MailboxGrantAllows(k, s, actor, now, action, r) {
      var c :| c in MailboxBundle(k.grant) && ActionOf(c) in {action, Manage};
      var rule := Rule({ActionOf(c)}, Message, OnOneMailbox(k.org, k.mailbox));
      MailboxMessageRule(k, c, rule);
      AnswersOnMailbox(ActionOf(c), Message, k.org, k.mailbox, action, Message, r, parse);
      assert MailboxGrantYields(k, s, actor, now, rule);
    }
    if rule :| MailboxGrantYields(k, s, actor, now, rule) && Answers(rule, action, Message, r, parse) {
      var c :| c in MailboxBundle(k.grant) && rule in MailboxCapabilityRules(k, c);
      MailboxMessageRule(k, c, rule);
      AnswersOnMailbox(ActionOf(c), Message, k.org, k.mailbox, action, Message, r, parse);
    }
  }

  /** The rule of a capability grant on one mailbox that speaks about messages. */
  lemma MessageRule(c: Capability, raw: RawConstraints, rule: Rule)
    requires IsMailboxScoped(c) && rule in CapabilityRules(c, raw) && rule.subject == Message
    ensures var parsed := ParseGrantConstraints(c, raw);
            && parsed.Some? && parsed.value.MailboxConstraints?
            && rule == Rule({ActionOf(c)}, Message, MessageTo(parsed.value.org, parsed.value.mailbox, c, parsed.value.allow))
  {
  }

  lemma OnlyManagingManages(c: Capability)
    requires IsMailboxScoped(c)
    ensures ActionOf(c) == Manage <==> c == MessageManage
  {
  }

  lemma AnswersOnMessages(c: Capability, org: string, mailbox: string, allow: RecipientPolicy.AllowList, action: Action, r: Resource, parse: RecipientPolicy.AddressParser)
    requires RecipientPolicy.OneLineAddresses(parse) && IsMailboxScoped(c)
    ensures Answers(Rule({ActionOf(c)}, Message, MessageTo(org, mailbox, c, allow)), action, Message, r, parse) <==>
              && (c == MessageManage || ActionOf(c) == action) && org == r.org && SameMailbox(r, mailbox)
              && (c == MessageSend || c == MessageReply ==> allow == RecipientPolicy.OPEN || RecipientsCovered(parse, allow, r.recipients))
  {
    OnlyManagingManages(c);
    RecipientPolicy.SatisfiedExactlyWhenCovered(parse, allow, r.recipients);
  }

  /** The rules of a mailbox-scoped capability include exactly one about messages. */
  lemma OneMessageRule(c: Capability, raw: RawConstraints)
    requires IsMailboxScoped(c) && ParseGrantConstraints(c, raw).Some?
    ensures var parsed := ParseGrantConstraints(c, raw).value;
            && parsed.MailboxConstraints?
            && Rule({ActionOf(c)}, Message, MessageTo(parsed.org, parsed.mailbox, c, parsed.allow)) in CapabilityRules(c, raw)
  {
    var parsed := ParseGrantConstraints(c, raw).value;
    assert CapabilityRules(c, raw)[2] == Rule({ActionOf(c)}, Message, MessageTo(parsed.org, parsed.mailbox, c, parsed.allow));
  }

  /** A capability grant on one mailbox answers about messages exactly when it is live there, for the action, and its allow-list holds. */
  lemma CapabilityGrantAnswers(g: CapabilityGrant, actor: Actor, now: Time, action: Action, r: Resource, parse: RecipientPolicy.AddressParser)
    requires RecipientPolicy.OneLineAddresses(parse) && g.capability.Some? && IsMailboxScoped(g.capability.value)
    ensures CapabilityGrantAllows(g, actor, now, action, r, parse) <==>
              exists rule :: CapabilityGrantYields(g, actor, now, rule) && Answers(rule, action, Message, r, parse)
  {
    var c := g.capability.value;
    if CapabilityGrantAllows(g, actor, now, action, r, parse) {
      AllowingGrantHasRule(g, actor, now, action, r, parse);
    }
    if rule :| CapabilityGrantYields(g, actor, now, rule) && Answers(rule, action, Message, r, parse) {
      var parsed := ParseGrantConstraints(c, g.constraints).value;
      MessageRule(c, g.constraints, rule);
      AnswersOnMessages(c, parsed.org, parsed.mailbox, parsed.allow, action, r, parse);
    }
  }

  lemma AllowingGrantHasRule(g: CapabilityGrant, actor: Actor, now: Time, action: Action, r: Resource, parse: RecipientPolicy.AddressParser)
    requires RecipientPolicy.OneLineAddresses(parse) && CapabilityGrantAllows(g, actor, now, action, r, parse)
    ensures exists rule :: CapabilityGrantYields(g, actor, now, rule) && Answers(rule, action, Message, r, parse)
  {
    var c := g.capability.value;
    var parsed := ParseGrantConstraints(c, g.constraints).value;
    OneMessageRule(c, g.constraints);
    AnswersOnMessages(c, parsed.org, parsed.mailbox, parsed.allow, action, r, parse);
    assert CapabilityGrantYields(g, actor, now, Rule({ActionOf(c)}, Message, MessageTo(parsed.org, parsed.mailbox, c, parsed.allow)));
  }

  /** Besides the grants on one mailbox only reading all mailboxes speaks about messages. */
  lemma OtherMessageRules(s: State, actor: Actor, now: Time, action: Action, r: Resource, rule: Rule, parse: RecipientPolicy.AddressParser)
    requires !Administers(actor, r.org) && Yields(DocumentsOf(s), actor, now, rule) && Answers(rule, action, Message, r, parse)
    requires forall k, st :: (k, st) in DocumentsOf(s).mailbox ==> !MailboxGrantYields(k, st, actor, now, rule)
    requires forall g :: g in DocumentsOf(s).capability && CapabilityGrantYields(g, actor, now, rule) ==> !IsMailboxScoped(g.capability.value)
    ensures action in READING && Holds(s, now, actor.principal, OnOrganization(r.org, MailboxReadAll))
  {
    var docs := DocumentsOf(s);
    if IsAdministrator(actor) && rule in AdministratorRules(actor.org.value) {
      AdministratorRulesStayInside(actor.org.value, rule);
    } else if k, st :| (k, st) in docs.system && SystemGrantYields(k, st, actor, now, rule) {
      SystemMessageRule(s, k, actor, now, action, r, rule, parse);
    } else {
      var g :| g in docs.capability && CapabilityGrantYields(g, actor, now, rule);
      var id :| id in s.capability && s.capability[id] == g;
      OrganizationMessageRule(s, id, actor, now, action, r, rule, parse);
    }
  }

  lemma SystemMessageRule(s: State, k: SystemKey, actor: Actor, now: Time, action: Action, r: Resource, rule: Rule, parse: RecipientPolicy.AddressParser)
    requires k in s.system && SystemGrantYields(k, s.system[k], actor, now, rule) && Answers(rule, action, Message, r, parse)
    ensures action in READING && Holds(s, now, actor.principal, OnOrganization(r.org, MailboxReadAll))
  {
    var c := SystemGrantUnlocks(k, s.system[k], actor, now, rule, action, Message, r, parse);
    assert SystemKeyConfers(k, OnOrganization(k.org, c));
  }

  lemma OrganizationMessageRule(s: State, id: string, actor: Actor, now: Time, action: Action, r: Resource, rule: Rule, parse: RecipientPolicy.AddressParser)
    requires id in s.capability && CapabilityGrantYields(s.capability[id], actor, now, rule) && Answers(rule, action, Message, r, parse)
    requires !IsMailboxScoped(s.capability[id].capability.value)
    ensures action in READING && Holds(s, now, actor.principal, OnOrganization(r.org, MailboxReadAll))
  {
    var a := CapabilityGrantUnlocks(s.capability[id], actor, now, rule, action, Message, r, parse);
    assert a == OnOrganization(r.org, MailboxReadAll);
  }

  /**
   * Something may be done with a message of a mailbox exactly by who administers the organization,
   * has a live grant there for it, or one that manages (a constrained grant to send or reply must
   * cover every recipient), or may read all mailboxes and only reads.
   */
  lemma MessagesAreAllowedExactly(s: State, actor: Actor, now: Time, action: Action, r: Resource, parse: RecipientPolicy.AddressParser)
    requires RecipientPolicy.OneLineAddresses(parse)
    ensures Allowed(s, actor, now, action, Message, r, parse) <==>
              || Administers(actor, r.org)
              || SomeMailboxGrantAllows(s, actor, now, action, r)
              || SomeCapabilityGrantAllows(s, actor, now, action, r, parse)
              || (action in READING && Holds(s, now, actor.principal, OnOrganization(r.org, MailboxReadAll)))
  {
    if Administers(actor, r.org) {
      AdministratorsHandleMessages(s, actor, now, action, r, parse);
    } else if Allowed(s, actor, now, action, Message, r, parse) {
      MessageAnswerHasGrant(s, actor, now, action, r, parse);
    }
    if SomeMailboxGrantAllows(s, actor, now, action, r) || SomeCapabilityGrantAllows(s, actor, now, action, r, parse) {
      AllowingGrantAnswers(s, actor, now, action, r, parse);
    }
    if action in READING && Holds(s, now, actor.principal, OnOrganization(r.org, MailboxReadAll)) {
      ReadingAllAnswers(s, actor, now, action, r, parse);
    }
  }

  lemma AdministratorsHandleMessages(s: State, actor: Actor, now: Time, action: Action, r: Resource, parse: RecipientPolicy.AddressParser)
    requires Administers(actor, r.org)
    ensures Allowed(s, actor, now, action, Message, r, parse)
  {
    var rule := AdministratorRules(r.org)[2];
    assert rule in AdministratorRules(r.org);
    assert Yields(DocumentsOf(s), actor, now, rule) && Answers(rule, action, Message, r, parse);
  }

  lemma AllowingGrantAnswers(s: State, actor: Actor, now: Time, action: Action, r: Resource, parse: RecipientPolicy.AddressParser)
    requires RecipientPolicy.OneLineAddresses(parse)
    requires SomeMailboxGrantAllows(s, actor, now, action, r) || SomeCapabilityGrantAllows(s, actor, now, action, r, parse)
    ensures Allowed(s, actor, now, action, Message, r, parse)
  {
    if k :| k in s.mailbox && MailboxGrantAllows(k, s.mailbox[k], actor, now, action, r) {
      MailboxGrantAnswers(k, s.mailbox[k], actor, now, action, r, parse);
      assert (k, s.mailbox[k]) in DocumentsOf(s).mailbox;
    } else {
      var id :| id in s.capability && CapabilityGrantAllows(s.capability[id], actor, now, action, r, parse);
      CapabilityGrantAnswers(s.capability[id], actor, now, action, r, parse);
      assert s.capability[id] in DocumentsOf(s).capability;
    }
  }

  lemma MessageAnswerHasGrant(s: State, actor: Actor, now: Time, action: Action, r: Resource, parse: RecipientPolicy.AddressParser)
    requires !Administers(actor, r.org) && RecipientPolicy.OneLineAddresses(parse) && Allowed(s, actor, now, action, Message, r, parse)
    ensures || SomeMailboxGrantAllows(s, actor, now, action, r)
            || SomeCapabilityGrantAllows(s, actor, now, action, r, parse)
            || (action in READING && Holds(s, now, actor.principal, OnOrganization(r.org, MailboxReadAll)))
  {
    var docs := DocumentsOf(s);
    var rule :| Yields(docs, actor, now, rule) && Answers(rule, action, Message, r, parse);
    if k, st :| (k, st) in docs.mailbox && MailboxGrantYields(k, st, actor, now, rule) {
      MailboxGrantAnswers(k, st, actor, now, action, r, parse);
      assert k in s.mailbox && s.mailbox[k] == st;
    } else if g :| g in docs.capability && CapabilityGrantYields(g, actor, now, rule) && IsMailboxScoped(g.capability.value) {
      CapabilityGrantAnswers(g, actor, now, action, r, parse);
      var id :| id in s.capability && s.capability[id] == g;
    } else {
      OtherMessageRules(s, actor, now, action, r, rule, parse);
    }
  }

  lemma ReadingAllAnswers(s: State, actor: Actor, now: Time, action: Action, r: Resource, parse: RecipientPolicy.AddressParser)
    requires action in READING && Holds(s, now, actor.principal, OnOrganization(r.org, MailboxReadAll))
    ensures Allowed(s, actor, now, action, Message, r, parse)
  {
    var a := OnOrganization(r.org, MailboxReadAll);
    if k :| k in s.system && k.principal == actor.principal && IsGrantActive(s.system[k], now) && SystemKeyConfers(k, a) {
      HeldSystemAnswers(s, k, actor, now, a, action, Message, r, parse);
    } else {
      var id :| id in s.capability && Principal(AgentPrincipal, s.capability[id].agent) == actor.principal
                && IsCapabilityGrantActive(s.capability[id], now) && CapabilityGrantConfers(s.capability[id], a);
      HeldOrganizationAnswers(s, id, actor, now, a, action, Message, r, parse);
    }
  }

  lemma HeldOrganizationAnswers(s: State, id: string, actor: Actor, now: Time, a: Authority, action: Action, subject: Subject, r: Resource, parse: RecipientPolicy.AddressParser)
    requires id in s.capability && Principal(AgentPrincipal, s.capability[id].agent) == actor.principal && a.OnOrganization?
    requires IsCapabilityGrantActive(s.capability[id], now) && CapabilityGrantConfers(s.capability[id], a) && Unlocks(a, action, subject, r)
    ensures Allowed(s, actor, now, action, subject, r, parse)
  {
    var g, c := s.capability[id], a.capability;
    var parsed := ParseGrantConstraints(c, g.constraints).value;
    OrganizationRulesUnlock(c, g.constraints, parsed.org, action, subject, r, parse);
    var rules := CapabilityRules(c, g.constraints);
    var i :| 0 <= i < |rules| && Answers(rules[i], action, subject, r, parse);
    assert g in DocumentsOf(s).capability && CapabilityGrantYields(g, actor, now, rules[i]);
  }

  predicate MailboxGrantSends(k: MailboxKey, s: GrantState, actor: Actor, now: Time, r: Resource) {
    && s.status == Active && (s.expiresAt.None? || now < s.expiresAt.value) && s.supported && k.principal == actor.principal && k.org == r.org && SameMailbox(r, k.mailbox)
    && (k.grant == SendAs || k.grant == ManageMessages)
  }

  /** The capability for sending or replying. */
  function SendingCapability(action: Action): (c: Capability)
    ensures IsMailboxScoped(c)
  {
    if action == Reply then MessageReply else MessageSend
  }

  /** A live capability grant there that manages, whatever its allow-list, or is for the action and has an open or covering list. */
  ghost predicate CapabilityGrantSends(g: CapabilityGrant, actor: Actor, now: Time, action: Action, r: Resource, parse: RecipientPolicy.AddressParser) {
    && g.status == GrantActive && (g.expiresAt.None? || now < g.expiresAt.value) && Principal(AgentPrincipal, g.agent) == actor.principal
    && (g.capability == Some(SendingCapability(action)) || g.capability == Some(MessageManage))
    && var parsed := ParseGrantConstraints(g.capability.value, g.constraints);
       && parsed.Some? && parsed.value.org == r.org && SameMailbox(r, parsed.value.mailbox)
       && (g.capability == Some(SendingCapability(action)) ==> parsed.value.allow == RecipientPolicy.OPEN || RecipientsCovered(parse, parsed.value.allow, r.recipients))
  }

  predicate SomeMailboxGrantSends(s: State, actor: Actor, now: Time, r: Resource) {
    exists k :: k in s.mailbox && MailboxGrantSends(k, s.mailbox[k], actor, now, r)
  }

  ghost predicate SomeCapabilityGrantSends(s: State, actor: Actor, now: Time, action: Action, r: Resource, parse: RecipientPolicy.AddressParser) {
    exists id :: id in s.capability && CapabilityGrantSends(s.capability[id], actor, now, action, r, parse)
  }

  lemma AllowingIsSending(g: CapabilityGrant, actor: Actor, now: Time, action: Action, r: Resource, parse: RecipientPolicy.AddressParser)
    requires action == Send || action == Reply
    ensures CapabilityGrantAllows(g, actor, now, action, r, parse) <==> CapabilityGrantSends(g, actor, now, action, r, parse)
  {
    if g.capability.Some? && IsMailboxScoped(g.capability.value) {
      assert ActionOf(g.capability.value) == action <==> g.capability.value == SendingCapability(action);
    }
  }

  lemma SendingMailboxGrants(s: State, actor: Actor, now: Time, action: Action, r: Resource)
    requires action == Send || action == Reply
    ensures SomeMailboxGrantAllows(s, actor, now, action, r) <==> SomeMailboxGrantSends(s, actor, now, r)
  {
    if k :| k in s.mailbox && MailboxGrantSends(k, s.mailbox[k], actor, now, r) {
      assert MailboxGrantAllows(k, s.mailbox[k], actor, now, action, r);
    }
    if k :| k in s.mailbox && MailboxGrantAllows(k, s.mailbox[k], actor, now, action, r) {
      assert MailboxGrantSends(k, s.mailbox[k], actor, now, r);
    }
  }

  lemma SendingCapabilityGrants(s: State, actor: Actor, now: Time, action: Action, r: Resource, parse: RecipientPolicy.AddressParser)
    requires action == Send || action == Reply
    ensures SomeCapabilityGrantAllows(s, actor, now, action, r, parse) <==> SomeCapabilityGrantSends(s, actor, now, action, r, parse)
  {
    if id :| id in s.capability && CapabilityGrantSends(s.capability[id], actor, now, action, r, parse) {
      AllowingIsSending(s.capability[id], actor, now, action, r, parse);
    }
    if id :| id in s.capability && CapabilityGrantAllows(s.capability[id], actor, now, action, r, parse) {
      AllowingIsSending(s.capability[id], actor, now, action, r, parse);
    }
  }

  /**
   * Sending and replying: besides who administers the organization, exactly who has a live grant
   * there for it, or one that manages messages; a constrained grant to send or reply must cover
   * every recipient.
   */
  lemma SendingIsAllowedExactly(s: State, actor: Actor, now: Time, action: Action, r: Resource, parse: RecipientPolicy.AddressParser)
    requires (action == Send || action == Reply) && RecipientPolicy.OneLineAddresses(parse)
    ensures Allowed(s, actor, now, action, Message, r, parse) <==>
              Administers(actor, r.org) || SomeMailboxGrantSends(s, actor, now, r) || SomeCapabilityGrantSends(s, actor, now, action, r, parse)
  {
    MessagesAreAllowedExactly(s, actor, now, action, r, parse);
    SendingMailboxGrants(s, actor, now, action, r);
    SendingCapabilityGrants(s, actor, now, action, r, parse);
    assert action !in READING;
  }

  // --- answers stay inside their organization ------------------------------------------------------------

  lemma MailboxRulesStayInside(k: MailboxKey, s: GrantState, actor: Actor, now: Time, rule: Rule)
    requires MailboxGrantYields(k, s, actor, now, rule)
    ensures rule.condition.org == k.org
  {
  }

  lemma SystemRulesStayInside(k: SystemKey, s: GrantState, actor: Actor, now: Time, rule: Rule)
    requires SystemGrantYields(k, s, actor, now, rule)
    ensures rule.condition.org == k.org
  {
  }

  lemma CapabilityRulesStayInside(g: CapabilityGrant, actor: Actor, now: Time, rule: Rule)
    requires CapabilityGrantYields(g, actor, now, rule)
    ensures GrantOrganization(g) == Some(rule.condition.org)
  {
  }

  /** The documents that speak for one principal in one organization at one time. */
  ghost predicate SameDocumentsIn(s: State, t: State, now: Time, p: Principal, org: string) {
    && (forall k: MailboxKey :: k.org == org && k.principal == p ==>
          ((k in s.mailbox && IsGrantActive(s.mailbox[k], now)) <==> (k in t.mailbox && IsGrantActive(t.mailbox[k], now))))
    && (forall k: SystemKey :: k.org == org && k.principal == p ==>
          ((k in s.system && IsGrantActive(s.system[k], now)) <==> (k in t.system && IsGrantActive(t.system[k], now))))
    && (forall g: CapabilityGrant :: GrantOrganization(g) == Some(org) && Principal(AgentPrincipal, g.agent) == p && IsCapabilityGrantActive(g, now) ==>
          (g in s.capability.Values <==> g in t.capability.Values))
  }

  lemma SameRulesIn(s: State, t: State, actor: Actor, now: Time, rule: Rule)
    requires SameDocumentsIn(s, t, now, actor.principal, rule.condition.org)
    requires Yields(DocumentsOf(s), actor, now, rule)
    ensures Yields(DocumentsOf(t), actor, now, rule)
  {
    var docs := DocumentsOf(s);
    if IsAdministrator(actor) && rule in AdministratorRules(actor.org.value) {
    } else if k, st :| (k, st) in docs.mailbox && MailboxGrantYields(k, st, actor, now, rule) {
      MailboxRulesStayInside(k, st, actor, now, rule);
      assert MailboxGrantYields(k, t.mailbox[k], actor, now, rule);
      assert (k, t.mailbox[k]) in DocumentsOf(t).mailbox;
    } else if k, st :| (k, st) in docs.system && SystemGrantYields(k, st, actor, now, rule) {
      SystemRulesStayInside(k, st, actor, now, rule);
      assert SystemGrantYields(k, t.system[k], actor, now, rule);
      assert (k, t.system[k]) in DocumentsOf(t).system;
    } else {
      var g :| g in docs.capability && CapabilityGrantYields(g, actor, now, rule);
      CapabilityRulesStayInside(g, actor, now, rule);
    }
  }

  lemma AnswersCarryOver(s: State, t: State, actor: Actor, now: Time, action: Action, subject: Subject, resource: Resource, parse: RecipientPolicy.AddressParser)
    requires SameDocumentsIn(s, t, now, actor.principal, resource.org)
    requires Allowed(s, actor, now, action, subject, resource, parse)
    ensures Allowed(t, actor, now, action, subject, resource, parse)
  {
    var rule :| Yields(DocumentsOf(s), actor, now, rule) && Answers(rule, action, subject, resource, parse);
    SameRulesIn(s, t, actor, now, rule);
  }

  /** Two states with the same live documents of a principal in an organization answer alike there. */
  lemma AnswersStayInside(s: State, t: State, actor: Actor, now: Time, action: Action, subject: Subject, resource: Resource, parse: RecipientPolicy.AddressParser)
    requires SameDocumentsIn(s, t, now, actor.principal, resource.org)
    ensures Allowed(s, actor, now, action, subject, resource, parse) <==> Allowed(t, actor, now, action, subject, resource, parse)
  {
    if Allowed(s, actor, now, action, subject, resource, parse) {
      AnswersCarryOver(s, t, actor, now, action, subject, resource, parse);
    }
    if Allowed(t, actor, now, action, subject, resource, parse) {
      AnswersCarryOver(t, s, actor, now, action, subject, resource, parse);
    }
  }

  /** A principal with no live document in an organization, and no administrator of it, is answered no there. */
  lemma NothingWithoutDocuments(s: State, actor: Actor, now: Time, action: Action, subject: Subject, resource: Resource, parse: RecipientPolicy.AddressParser)
    requires !Administers(actor, resource.org)
    requires forall k :: k in s.mailbox && k.org == resource.org && k.principal == actor.principal ==> !IsGrantActive(s.mailbox[k], now)
    requires forall k :: k in s.system && k.org == resource.org && k.principal == actor.principal ==> !IsGrantActive(s.system[k], now)
    requires forall g :: g in s.capability.Values && GrantOrganization(g) == Some(resource.org) && Principal(AgentPrincipal, g.agent) == actor.principal ==>
                           !IsCapabilityGrantActive(g, now)
    ensures !Allowed(s, actor, now, action, subject, resource, parse)
  {
    var empty := State(map[], map[], map[], s.requests, s.agents, s.hosts);
    assert SameDocumentsIn(s, empty, now, actor.principal, resource.org);
    AnswersStayInside(s, empty, actor, now, action, subject, resource, parse);
    if Allowed(empty, actor, now, action, subject, resource, parse) {
      var a := AnswersAreUnlocked(empty, actor, now, action, subject, resource, parse);
      assert false;
    }
  }
}
