/** The documents of the three grant tables and their neighbours, and the authority they confer. */
module Grants {
  import opened Wrappers
  import opened Text
  import opened Capabilities
  import RecipientPolicy

  type Time = int

  datatype PrincipalKind = AgentPrincipal | ApiKeyPrincipal | OAuthClientPrincipal | ServicePrincipal | UserSession

  datatype Principal = Principal(kind: PrincipalKind, id: string)

  /** The unique index of the mailbox-grant table. */
  datatype MailboxKey = MailboxKey(org: string, mailbox: string, principal: Principal, grant: MailboxGrant)

  /** The unique index of the system-grant table. */
  datatype SystemKey = SystemKey(org: string, principal: Principal, permission: SystemPermission)

  datatype GrantStatus = Active | Expired | Pending | Revoked

  /** What a mailbox or system grant document holds besides its key; `supported` says its constraints parse. */
  datatype GrantState = GrantState(status: GrantStatus, expiresAt: Option<Time>, supported: bool)

  /** A field of a constraints object: missing, refused by its schema, or accepted with this value. */
  datatype Field<+T> = Absent | Invalid | Present(value: T)

  /** The constraints of a capability grant as stored, once read as JSON; `extra` marks an unknown key. */
  datatype RawConstraints =
    | Nothing
    | NotAnObject
    | Constraints(organization: Field<string>, mailbox: Field<string>, recipients: Field<seq<string>>,
                  domains: Field<seq<string>>, patterns: Field<seq<string>>, extra: bool)

  datatype CapabilityStatus = GrantActive | GrantPending | GrantDenied | GrantRevoked | GrantConsumed

  /** `capability` is None when the stored name is not one of the known ones. */
  datatype CapabilityGrant = CapabilityGrant(
    agent: string, capability: Option<Capability>, constraints: RawConstraints,
    status: CapabilityStatus, expiresAt: Option<Time>)

  datatype RequestStatus = RequestApplied | RequestExpired | RequestPending | RequestRevoked

  datatype MailboxRequest = MailboxRequest(mailbox: string, grants: seq<MailboxGrant>)

  datatype EnrollmentRequest = EnrollmentRequest(
    host: string, org: string, mailboxGrants: seq<MailboxRequest>, permissions: seq<SystemPermission>,
    expiresAt: Option<Time>, status: RequestStatus, appliedAgent: Option<string>)

  datatype AgentStatus = AgentActive | AgentPending | AgentExpired | AgentRevoked | AgentRejected | AgentClaimed

  datatype AgentRecord = AgentRecord(host: string, user: Option<string>, status: AgentStatus, expiresAt: Option<Time>)

  datatype HostStatus = HostActive | HostPending | HostPendingEnrollment | HostRevoked | HostRejected

  datatype HostRecord = HostRecord(user: Option<string>, status: HostStatus, expiresAt: Option<Time>)

  /** Everything the grant operations read and write; capability grants, requests, agents and hosts by id. */
  datatype State = State(
    mailbox: map<MailboxKey, GrantState>,
    system: map<SystemKey, GrantState>,
    capability: map<string, CapabilityGrant>,
    requests: map<string, EnrollmentRequest>,
    agents: map<string, AgentRecord>,
    hosts: map<string, HostRecord>)

  // --- liveness ------------------------------------------------------------------------------------

  predicate Unexpired(expiresAt: Option<Time>, now: Time) {
    expiresAt.None? || expiresAt.value > now
  }

  predicate IsGrantActive(s: GrantState, now: Time) {
    s.status == Active && Unexpired(s.expiresAt, now) && s.supported
  }

  predicate IsOpen(s: GrantState) {
    s.status == Active || s.status == Pending
  }

  predicate IsCapabilityGrantActive(g: CapabilityGrant, now: Time) {
    g.status == GrantActive && Unexpired(g.expiresAt, now)
  }

  predicate IsCapabilityGrantOpen(g: CapabilityGrant) {
    g.status == GrantActive || g.status == GrantPending
  }

  // --- constraints ------------------------------------------------------------------------------------

  datatype ParsedConstraints =
    | MailboxConstraints(org: string, mailbox: string, allow: RecipientPolicy.AllowList)
    | OrganizationConstraints(org: string)

  function Mapped(values: seq<string>, f: string -> string): seq<string> {
    seq(|values|, i requires 0 <= i < |values| => f(values[i]))
  }

  function MappedField(field: Field<seq<string>>, f: string -> string): Field<seq<string>> {
    match field
    case Present(values) => Present(Mapped(values, f))
    case other => other
  }

  function Values(field: Field<seq<string>>): seq<string> {
    if field.Present? then field.value else []
  }

  /** The part of the mailbox schema that grants and requests share. */
  predicate MailboxPartParses(c: RawConstraints) {
    c.Constraints? && c.mailbox.Present? && !c.recipients.Invalid? && !c.domains.Invalid? && !c.patterns.Invalid? && !c.extra
  }

  predicate NothingButOrganization(c: RawConstraints) {
    c.Constraints? && c.mailbox.Absent? && c.recipients.Absent? && c.domains.Absent? && c.patterns.Absent? && !c.extra
  }

  /** The mailbox schema lower-cases what it accepts, and trims domains and patterns. */
  function MailboxPart(c: RawConstraints): (r: RawConstraints)
    requires MailboxPartParses(c)
    ensures MailboxPartParses(r)
  {
    c.(mailbox := Present(Lower(c.mailbox.value)), recipients := MappedField(c.recipients, Lower),
       domains := MappedField(c.domains, TrimLower), patterns := MappedField(c.patterns, TrimLower))
  }

  /** Grant constraints, by the schema the capability calls for. */
  function ParseGrantConstraints(c: Capability, raw: RawConstraints): Option<ParsedConstraints> {
    if IsMailboxScoped(c) then
      if MailboxPartParses(raw) && raw.organization.Present? then
        var parsed := MailboxPart(raw);
        Some(MailboxConstraints(raw.organization.value, parsed.mailbox.value,
                                RecipientPolicy.AllowList(Values(parsed.recipients), Values(parsed.domains), Values(parsed.patterns))))
      else None
    else if NothingButOrganization(raw) && raw.organization.Present? then Some(OrganizationConstraints(raw.organization.value))
    else None
  }

  /**
   * What parses: for an organization-wide capability the object that names the organization and
   * nothing else; for a mailbox one an object with both names, no refused field and no unknown one.
   */
  lemma ParsesExactly(c: Capability, raw: RawConstraints)
    ensures !IsMailboxScoped(c) ==> forall org ::
              ParseGrantConstraints(c, raw) == Some(OrganizationConstraints(org)) <==> raw == Constraints(Present(org), Absent, Absent, Absent, Absent, false)
    ensures IsMailboxScoped(c) ==>
              (ParseGrantConstraints(c, raw).Some? <==>
                 && raw.Constraints? && raw.organization.Present? && raw.mailbox.Present? && raw.extra == false
                 && raw.recipients != Invalid && raw.domains != Invalid && raw.patterns != Invalid)
    ensures ParseGrantConstraints(c, raw).Some? ==> (ParseGrantConstraints(c, raw).value.MailboxConstraints? <==> IsMailboxScoped(c))
    ensures IsMailboxScoped(c) && ParseGrantConstraints(c, raw).Some? ==>
              && ParseGrantConstraints(c, raw).value.org == raw.organization.value
              && ParseGrantConstraints(c, raw).value.mailbox == Lower(raw.mailbox.value)
              && (forall i :: 0 <= i < |ParseGrantConstraints(c, raw).value.allow.recipients| ==>
                    raw.recipients.Present? && i < |raw.recipients.value| && ParseGrantConstraints(c, raw).value.allow.recipients[i] == Lower(raw.recipients.value[i]))
              && (raw.recipients.Present? ==> |ParseGrantConstraints(c, raw).value.allow.recipients| == |raw.recipients.value|)
              && (raw.domains.Present? ==> |ParseGrantConstraints(c, raw).value.allow.domains| == |raw.domains.value|)
              && (raw.patterns.Present? ==> |ParseGrantConstraints(c, raw).value.allow.patterns| == |raw.patterns.value|)
  {
  }

  /** Request constraints name no organization; an organization-wide request may be missing altogether. */
  predicate IsRequest(c: Capability, raw: RawConstraints) {
    if IsMailboxScoped(c) then MailboxPartParses(raw) && raw.organization.Absent?
    else raw.Nothing? || (NothingButOrganization(raw) && raw.organization.Absent?)
  }

  /** A request's constraints with an organization put in. */
  function BoundConstraints(c: Capability, raw: RawConstraints, org: string): Option<RawConstraints> {
    if !IsRequest(c, raw) then None
    else if IsMailboxScoped(c) then
      var part := MailboxPart(raw);
      Some(part.(organization := Present(org)))
    else Some(Constraints(Present(org), Absent, Absent, Absent, Absent, false))
  }

  function GrantOrganization(g: CapabilityGrant): Option<string> {
    if g.capability.None? then None
    else
      var parsed := ParseGrantConstraints(g.capability.value, g.constraints);
      if parsed.None? then None else Some(parsed.value.org)
  }

  /** The mailbox a grant or request is about, when it is about one. */
  function GrantMailbox(g: CapabilityGrant): Option<string> {
    if g.capability.None? || !IsMailboxScoped(g.capability.value) || !MailboxPartParses(g.constraints) || g.constraints.organization.Invalid?
    then None
    else Some(Lower(g.constraints.mailbox.value))
  }

  /** What can be bound: nothing or an empty object, or for a mailbox an object that names one and no organization, with no refused field and no unknown one. */
  lemma RequestsExactly(c: Capability, raw: RawConstraints, org: string)
    ensures BoundConstraints(c, raw, org).Some? <==>
              if IsMailboxScoped(c) then
                && raw.Constraints? && raw.organization == Absent && raw.mailbox.Present? && !raw.extra
                && raw.recipients != Invalid && raw.domains != Invalid && raw.patterns != Invalid
              else raw == Nothing || raw == Constraints(Absent, Absent, Absent, Absent, Absent, false)
  {
  }

  /** The mailbox a grant or a request is about is what it reads back as, or would once bound. */
  lemma GrantMailboxExactly(g: CapabilityGrant, org: string)
    requires g.capability.Some?
    ensures GrantMailbox(g).Some? <==>
              IsMailboxScoped(g.capability.value) && (ParseGrantConstraints(g.capability.value, g.constraints).Some? || BoundConstraints(g.capability.value, g.constraints, org).Some?)
    ensures GrantMailbox(g).Some? ==> GrantMailbox(g).value == Lower(g.constraints.mailbox.value)
  {
  }

  /** Binding a request and reading it back gives the organization it was bound to, and the same mailbox. */
  lemma BoundReadsBack(c: Capability, raw: RawConstraints, org: string)
    requires BoundConstraints(c, raw, org).Some?
    ensures ParseGrantConstraints(c, BoundConstraints(c, raw, org).value).Some?
    ensures var parsed := ParseGrantConstraints(c, BoundConstraints(c, raw, org).value).value;
            && parsed.org == org
            && (parsed.MailboxConstraints? <==> IsMailboxScoped(c))
            && (IsMailboxScoped(c) ==>
                  && parsed.mailbox == Lower(raw.mailbox.value)
                  && parsed.allow == RecipientPolicy.AllowList(Values(MappedField(raw.recipients, Lower)),
                                                               Values(MappedField(raw.domains, TrimLower)),
                                                               Values(MappedField(raw.patterns, TrimLower))))
  {
    if IsMailboxScoped(c) {
      LowerIsIdempotent(raw.mailbox.value);
      MappedTwice(Values(raw.recipients));
      MappedTwice(Values(raw.domains));
      MappedTwice(Values(raw.patterns));
    }
  }

  lemma MappedTwice(values: seq<string>)
    ensures Mapped(Mapped(values, Lower), Lower) == Mapped(values, Lower)
    ensures Mapped(Mapped(values, TrimLower), TrimLower) == Mapped(values, TrimLower)
  {
    forall v | v in values ensures Lower(Lower(v)) == Lower(v) && TrimLower(TrimLower(v)) == TrimLower(v) {
      LowerIsIdempotent(v);
      TrimLowerIsIdempotent(v);
    }
  }

  // --- authority ------------------------------------------------------------------------------------

  function NormalizedMailbox(value: Option<string>): string {
    if value.Some? then TrimLower(value.value) else ""
  }

  /** A capability on a normalized mailbox, or on a whole organization. */
  datatype Authority = OnMailbox(org: string, mailbox: string, capability: Capability) | OnOrganization(org: string, capability: Capability)

  function AuthorityOn(org: string, mailbox: Option<string>, c: Capability): Authority {
    if IsMailboxScoped(c) then OnMailbox(org, NormalizedMailbox(mailbox), c) else OnOrganization(org, c)
  }

  predicate MailboxKeyConfers(k: MailboxKey, a: Authority) {
    a.OnMailbox? && a.org == k.org && a.mailbox == NormalizedMailbox(Some(k.mailbox)) && a.capability in MailboxBundle(k.grant)
  }

  predicate SystemKeyConfers(k: SystemKey, a: Authority) {
    a.OnOrganization? && a.org == k.org && a.capability in SystemBundle(k.permission)
  }

  predicate CapabilityGrantConfers(g: CapabilityGrant, a: Authority) {
    && g.capability == Some(a.capability)
    && match ParseGrantConstraints(a.capability, g.constraints)
       case None => false
       case Some(MailboxConstraints(org, mailbox, _)) => a == OnMailbox(org, NormalizedMailbox(Some(mailbox)), a.capability)
       case Some(OrganizationConstraints(org)) => a == OnOrganization(org, a.capability)
  }

  predicate RequestConfers(r: EnrollmentRequest, a: Authority) {
    && a.org == r.org
    && match a
       case OnMailbox(_, mailbox, c) =>
         exists i, j :: 0 <= i < |r.mailboxGrants| && 0 <= j < |r.mailboxGrants[i].grants|
                        && NormalizedMailbox(Some(r.mailboxGrants[i].mailbox)) == mailbox
                        && c in MailboxBundle(r.mailboxGrants[i].grants[j])
       case OnOrganization(_, c) => exists i :: 0 <= i < |r.permissions| && c in SystemBundle(r.permissions[i])
  }

  /** The principal itself holds the authority at this time. */
  ghost predicate Holds(s: State, now: Time, p: Principal, a: Authority) {
    || (exists k :: k in s.mailbox && k.principal == p && IsGrantActive(s.mailbox[k], now) && MailboxKeyConfers(k, a))
    || (exists k :: k in s.system && k.principal == p && IsGrantActive(s.system[k], now) && SystemKeyConfers(k, a))
    || (exists id :: id in s.capability && Principal(AgentPrincipal, s.capability[id].agent) == p
                     && IsCapabilityGrantActive(s.capability[id], now) && CapabilityGrantConfers(s.capability[id], a))
  }

  predicate Promises(r: EnrollmentRequest, now: Time, a: Authority) {
    r.status == RequestPending && Unexpired(r.expiresAt, now) && RequestConfers(r, a)
  }

  /** The authority is held by some principal, or promised by a pending enrollment request. */
  ghost predicate Live(s: State, now: Time, a: Authority) {
    (exists p :: Holds(s, now, p, a)) || (exists id :: id in s.requests && Promises(s.requests[id], now, a))
  }
}
