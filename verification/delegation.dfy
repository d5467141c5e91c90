/**
 * Granting under concurrency. Operations read and check first and write later, one write at a
 * time and in any order; a run interleaves any number of them with passing time. Authority is
 * never created: what is live at the end was live, or already in flight, at the start.
 */
module Delegation {
  import opened Wrappers
  import opened Capabilities
  import opened Grants
  import opened Ability
  import opened GrantWrites
  import opened Authorization
  import Enrollment
  import Approval
  import GrantReplacement
  import RecipientPolicy

  // --- the machine -----------------------------------------------------------------------------------------

  /** A write that was checked and not yet made: a single one, or the transaction that activates approved grants. */
  datatype InFlight = OneWrite(write: Write) | Activation(ids: set<string>, agent: string, host: string, user: string, ttl: Option<nat>)

  datatype World = World(s: State, now: Time, pool: multiset<InFlight>)

  datatype Operation =
    | ReplaceMailboxGrants(principal: Principal, desired: seq<MailboxRequest>)
    | ReplaceSystemPermissions(principal: Principal, permissions: set<SystemPermission>)
    | GrantInitialMailbox(agent: string, mailbox: string, bundle: set<MailboxGrant>)
    | CreateEnrollment(id: string, request: EnrollmentRequest)
    | Approve(decision: Approval.Decision, grants: seq<Approval.GrantDocument>)

  datatype Event =
    | Tick(span: nat)
    | Begin(ctx: Context, operation: Operation)
    | Commit(work: InFlight)
    | Abandon(work: InFlight)
    | TakeUpEnrollment(id: string, agent: string, startedAt: Time)
    | WithdrawEnrollment(id: string)
    | Revoke(write: Write)
    | AskForGrant(id: string, grant: CapabilityGrant)

  datatype Outside = Outside(parse: RecipientPolicy.AddressParser, lifetimes: Approval.Lifetimes)

  /** The checks each operation makes on what it read. */
  predicate Checked(s: State, ctx: Context, op: Operation, parse: RecipientPolicy.AddressParser) {
    match op
    case ReplaceMailboxGrants(p, desired) =>
      GrantReplacement.MayReplace(ctx, GrantReplacement.StaleKeys(s, ctx.org, p, desired), GrantReplacement.WantedKeys(ctx.org, p, desired), parse)
    case ReplaceSystemPermissions(p, permissions) =>
      GrantReplacement.MayReplaceSystem(
        ctx, GrantReplacement.StaleSystemKeys(s, ctx.org, p, permissions) + GrantReplacement.WantedSystemKeys(ctx.org, p, permissions), parse)
    case GrantInitialMailbox(_, mailbox, grants) =>
      forall g :: g in grants ==> CanManageAdminAgentGrant(ctx, NamedMailboxGrant(g), Some(mailbox), parse)
    case CreateEnrollment(_, request) =>
      request.org == ctx.org && request.status == RequestPending && Enrollment.CanManageRequest(ctx, request, parse)
    case Approve(d, grants) =>
      && Approval.ReadFrom(grants, s.capability)
      && Approval.Choose(d, ctx.org, grants).Ok?
      && forall c :: c in Approval.Choose(d, ctx.org, grants).value ==> Approval.CanManageGrantDocument(ctx, c.1, parse)
  }

  function Each(writes: set<Write>): set<InFlight> {
    set w | w in writes :: OneWrite(w)
  }

  function Bindings(org: string, chosen: seq<Approval.GrantDocument>): set<InFlight> {
    set c | c in chosen && Approval.NeedsBinding(c.1) && Approval.BoundCopy(c.1, org).Some? ::
      OneWrite(BindCapability(c.0, Approval.BoundCopy(c.1, org).value.constraints))
  }

  /** The writes an operation goes on to make. */
  function Issued(s: State, ctx: Context, op: Operation): set<InFlight> {
    match op
    case ReplaceMailboxGrants(p, desired) =>
      Each(GrantReplacement.MailboxWrites(GrantReplacement.StaleKeys(s, ctx.org, p, desired), GrantReplacement.WantedKeys(ctx.org, p, desired)))
    case ReplaceSystemPermissions(p, permissions) =>
      Each((set k | k in GrantReplacement.StaleSystemKeys(s, ctx.org, p, permissions) :: RevokeSystem(k))
           + set k | k in GrantReplacement.WantedSystemKeys(ctx.org, p, permissions) :: ActivateSystem(k, None))
    case GrantInitialMailbox(agent, mailbox, grants) =>
      set g | g in grants :: OneWrite(CreateMailbox(MailboxKey(ctx.org, mailbox, Principal(AgentPrincipal, agent), g)))
    case CreateEnrollment(id, request) => {OneWrite(AddRequest(id, request))}
    case Approve(d, grants) =>
      if Approval.Choose(d, ctx.org, grants).Err? then {}
      else
        var chosen := Approval.Choose(d, ctx.org, grants).value;
        Bindings(ctx.org, chosen) + {Activation(Approval.IdsOf(chosen), d.agent, d.host, d.user, d.ttl)}
  }

  predicate OnlyRevokes(w: Write) {
    w.RevokeMailbox? || w.RevokeSystem? || w.RevokeCapability?
  }

  function Perform(s: State, now: Time, work: InFlight, lifetimes: Approval.Lifetimes): State {
    match work
    case OneWrite(w) => Apply(s, w)
    case Activation(ids, agent, host, user, ttl) =>
      if Approval.CanActivate(s, ids, agent, host) then Approval.Approved(s, ids, agent, host, user, now, ttl, lifetimes) else s
  }

  /** Sessions that begin an operation do not administer its organization, and their ability is built from what is stored then. */
  ghost predicate CanBegin(w: World, ctx: Context, op: Operation, parse: RecipientPolicy.AddressParser) {
    !Administers(ctx.actor, ctx.org) && BuiltFrom(ctx, w.s, w.now) && Checked(w.s, ctx, op, parse)
  }

  ghost function Next(w: World, e: Event, out: Outside): World {
    match e
    case Tick(span) => w.(now := w.now + span)
    case Begin(ctx, op) => if CanBegin(w, ctx, op, out.parse) then w.(pool := w.pool + multiset(Issued(w.s, ctx, op))) else w
    case Commit(work) => if work in w.pool then World(Perform(w.s, w.now, work, out.lifetimes), w.now, w.pool - multiset{work}) else w
    case Abandon(work) => w.(pool := w.pool - multiset{work})
    case TakeUpEnrollment(id, agent, startedAt) =>
      if Enrollment.IsPending(w.s, id) && startedAt <= w.now then w.(s := Enrollment.ApplyCommit(w.s, id, w.s.requests[id], agent, startedAt).0) else w
    case WithdrawEnrollment(id) => w.(s := Enrollment.WithdrawnRequest(w.s, id))
    case Revoke(write) => if OnlyRevokes(write) then w.(s := Apply(w.s, write)) else w
    case AskForGrant(id, g) =>
      if id !in w.s.capability && g.status == GrantPending
      then w.(s := w.s.(capability := w.s.capability[id := g])) else w
  }

  ghost function Run(w: World, events: seq<Event>, out: Outside): World
    decreases |events|
  {
    if events == [] then w else Run(Next(w, events[0], out), events[1..], out)
  }

  // --- the checks, on the session's rules ---------------------------------------------------------------------

  /** An enrollment request is checked capability by capability, each on its own mailbox or on the organization. */
  lemma RequestCheckExactly(ctx: Context, r: EnrollmentRequest, parse: RecipientPolicy.AddressParser)
    ensures Enrollment.CanManageRequest(ctx, r, parse) <==>
              && (forall i, g :: 0 <= i < |r.mailboxGrants| && g in r.mailboxGrants[i].grants ==>
                    GrantReplacement.ManagesMailboxGrant(ctx, r.mailboxGrants[i].mailbox, g, parse))
              && forall permission :: permission in r.permissions ==> GrantReplacement.ManagesPermission(ctx, permission, parse)
  {
    forall mailbox, g
      ensures CanManageAdminAgentGrant(ctx, NamedMailboxGrant(g), Some(mailbox), parse) <==> GrantReplacement.ManagesMailboxGrant(ctx, mailbox, g, parse)
    {
      GrantReplacement.ManagesBundle(ctx, mailbox, g, parse);
    }
    forall permission ensures CanManageAdminAgentGrant(ctx, NamedPermission(permission), None, parse) <==> GrantReplacement.ManagesPermission(ctx, permission, parse) {
      GrantReplacement.ManagesSystemBundle(ctx, permission, parse);
    }
    if Enrollment.CanManageRequest(ctx, r, parse) {
      forall i, g | 0 <= i < |r.mailboxGrants| && g in r.mailboxGrants[i].grants
        ensures GrantReplacement.ManagesMailboxGrant(ctx, r.mailboxGrants[i].mailbox, g, parse)
      {
        var j :| 0 <= j < |r.mailboxGrants[i].grants| && r.mailboxGrants[i].grants[j] == g;
        assert CanManageAdminAgentGrant(ctx, NamedMailboxGrant(r.mailboxGrants[i].grants[j]), Some(r.mailboxGrants[i].mailbox), parse);
      }
    }
    if && (forall i, g :: 0 <= i < |r.mailboxGrants| && g in r.mailboxGrants[i].grants ==>
             GrantReplacement.ManagesMailboxGrant(ctx, r.mailboxGrants[i].mailbox, g, parse))
       && forall permission :: permission in r.permissions ==> GrantReplacement.ManagesPermission(ctx, permission, parse)
    {
      forall i, j | 0 <= i < |r.mailboxGrants| && 0 <= j < |r.mailboxGrants[i].grants|
        ensures CanManageAdminAgentGrant(ctx, NamedMailboxGrant(r.mailboxGrants[i].grants[j]), Some(r.mailboxGrants[i].mailbox), parse)
      {
        assert r.mailboxGrants[i].grants[j] in r.mailboxGrants[i].grants;
      }
      assert forall i :: 0 <= i < |r.permissions| ==> r.permissions[i] in r.permissions;
    }
  }

  /** What each operation on grants and requests checks. */
  lemma ChecksExactly(s: State, ctx: Context, op: Operation, parse: RecipientPolicy.AddressParser)
    ensures op.ReplaceMailboxGrants? ==>
              (Checked(s, ctx, op, parse) <==> GrantReplacement.ReplacementAllowed(s.mailbox, ctx, op.principal, op.desired, parse))
    ensures op.ReplaceSystemPermissions? ==>
              (Checked(s, ctx, op, parse) <==> GrantReplacement.SystemReplacementAllowed(s.system, ctx, op.principal, op.permissions, parse))
    ensures op.GrantInitialMailbox? ==>
              (Checked(s, ctx, op, parse) <==> forall g :: g in op.bundle ==> GrantReplacement.ManagesMailboxGrant(ctx, op.mailbox, g, parse))
    ensures op.CreateEnrollment? ==>
              (Checked(s, ctx, op, parse) <==>
                 && op.request.org == ctx.org && op.request.status == RequestPending
                 && (forall i, g :: 0 <= i < |op.request.mailboxGrants| && g in op.request.mailboxGrants[i].grants ==>
                       GrantReplacement.ManagesMailboxGrant(ctx, op.request.mailboxGrants[i].mailbox, g, parse))
                 && forall permission :: permission in op.request.permissions ==> GrantReplacement.ManagesPermission(ctx, permission, parse))
  {
    match op
    case ReplaceMailboxGrants(p, desired) => GrantReplacement.MayReplaceExactly(s, ctx, p, desired, parse);
    case ReplaceSystemPermissions(p, permissions) => GrantReplacement.MayReplaceSystemExactly(s, ctx, p, permissions, parse);
    case GrantInitialMailbox(_, mailbox, bundle) =>
      forall g ensures CanManageAdminAgentGrant(ctx, NamedMailboxGrant(g), Some(mailbox), parse) <==> GrantReplacement.ManagesMailboxGrant(ctx, mailbox, g, parse) {
        GrantReplacement.ManagesBundle(ctx, mailbox, g, parse);
      }
    case CreateEnrollment(_, request) => RequestCheckExactly(ctx, request, parse);
    case Approve(_, _) =>
  }

  // --- what is in flight would confer -----------------------------------------------------------------------

  ghost predicate WriteConfers(s: State, w: Write, a: Authority) {
    match w
    case ActivateMailbox(k, _) => MailboxKeyConfers(k, a)
    case CreateMailbox(k) => MailboxKeyConfers(k, a)
    case ActivateSystem(k, _) => SystemKeyConfers(k, a)
    case AddRequest(_, r) => RequestConfers(r, a)
    case BindCapability(id, constraints) => id in s.capability && CapabilityGrantConfers(s.capability[id].(constraints := constraints), a)
    case _ => false
  }

  ghost predicate Confers(s: State, work: InFlight, a: Authority) {
    match work
    case OneWrite(w) => WriteConfers(s, w, a)
    case Activation(ids, _, _, _, _) => exists id :: id in ids && id in s.capability && CapabilityGrantConfers(s.capability[id], a)
  }

  /** Grants named by work in flight exist: they were read, and grants are never deleted. */
  predicate NamesKnownGrants(s: State, work: InFlight) {
    match work
    case OneWrite(BindCapability(id, _)) => id in s.capability
    case Activation(ids, _, _, _, _) => ids <= s.capability.Keys
    case _ => true
  }

  ghost predicate WellFormed(w: World) {
    forall work :: work in w.pool ==> NamesKnownGrants(w.s, work)
  }

  ghost predicate Authorized(w: World, a: Authority) {
    Live(w.s, w.now, a) || exists work :: work in w.pool && Confers(w.s, work, a)
  }

  // --- live authority, table by table -----------------------------------------------------------------------

  ghost predicate MailboxLive(table: map<MailboxKey, GrantState>, now: Time, a: Authority) {
    exists k :: k in table && IsGrantActive(table[k], now) && MailboxKeyConfers(k, a)
  }

  ghost predicate SystemLive(table: map<SystemKey, GrantState>, now: Time, a: Authority) {
    exists k :: k in table && IsGrantActive(table[k], now) && SystemKeyConfers(k, a)
  }

  ghost predicate CapabilityLive(table: map<string, CapabilityGrant>, now: Time, a: Authority) {
    exists id :: id in table && IsCapabilityGrantActive(table[id], now) && CapabilityGrantConfers(table[id], a)
  }

  ghost predicate RequestsLive(table: map<string, EnrollmentRequest>, now: Time, a: Authority) {
    exists id :: id in table && Promises(table[id], now, a)
  }

  lemma LiveByTable(s: State, now: Time, a: Authority)
    ensures Live(s, now, a) <==>
              MailboxLive(s.mailbox, now, a) || SystemLive(s.system, now, a) || CapabilityLive(s.capability, now, a) || RequestsLive(s.requests, now, a)
  {
    if k :| k in s.mailbox && IsGrantActive(s.mailbox[k], now) && MailboxKeyConfers(k, a) {
      assert Holds(s, now, k.principal, a);
    }
    if k :| k in s.system && IsGrantActive(s.system[k], now) && SystemKeyConfers(k, a) {
      assert Holds(s, now, k.principal, a);
    }
    if id :| id in s.capability && IsCapabilityGrantActive(s.capability[id], now) && CapabilityGrantConfers(s.capability[id], a) {
      assert Holds(s, now, Principal(AgentPrincipal, s.capability[id].agent), a);
    }
  }

  /** Writing one document: the table confers what the document does, and nothing else it did not confer before. */
  lemma MailboxWritten(table: map<MailboxKey, GrantState>, k: MailboxKey, st: GrantState, now: Time, a: Authority)
    ensures MailboxLive(table[k := st], now, a) ==> MailboxLive(table, now, a) || (IsGrantActive(st, now) && MailboxKeyConfers(k, a))
    ensures IsGrantActive(st, now) && MailboxKeyConfers(k, a) ==> MailboxLive(table[k := st], now, a)
  {
    assert k in table[k := st];
  }

  lemma SystemWritten(table: map<SystemKey, GrantState>, k: SystemKey, st: GrantState, now: Time, a: Authority)
    ensures SystemLive(table[k := st], now, a) ==> SystemLive(table, now, a) || (IsGrantActive(st, now) && SystemKeyConfers(k, a))
    ensures IsGrantActive(st, now) && SystemKeyConfers(k, a) ==> SystemLive(table[k := st], now, a)
  {
    assert k in table[k := st];
  }

  lemma RequestWritten(table: map<string, EnrollmentRequest>, id: string, r: EnrollmentRequest, now: Time, a: Authority)
    ensures RequestsLive(table[id := r], now, a) ==> RequestsLive(table, now, a) || Promises(r, now, a)
    ensures Promises(r, now, a) ==> RequestsLive(table[id := r], now, a)
  {
    assert id in table[id := r];
  }

  lemma InactiveCapabilityWritten(table: map<string, CapabilityGrant>, id: string, g: CapabilityGrant, now: Time, a: Authority)
    requires g.status != GrantActive && CapabilityLive(table[id := g], now, a)
    ensures CapabilityLive(table, now, a)
  {
    var other :| other in table[id := g] && IsCapabilityGrantActive(table[id := g][other], now) && CapabilityGrantConfers(table[id := g][other], a);
    assert other != id;
  }

  // --- when a write makes authority live ------------------------------------------------------------------------

  /** The write happens, and what it writes is live and confers the authority. */
  ghost predicate WriteTakesEffect(s: State, now: Time, w: Write, a: Authority) {
    match w
    case ActivateMailbox(k, expiresAt) => Unexpired(expiresAt, now) && MailboxKeyConfers(k, a)
    case CreateMailbox(k) => k !in s.mailbox && MailboxKeyConfers(k, a)
    case ActivateSystem(k, expiresAt) => Unexpired(expiresAt, now) && SystemKeyConfers(k, a)
    case AddRequest(id, r) => id !in s.requests && Promises(r, now, a)
    case _ => false
  }

  ghost predicate TakesEffect(s: State, now: Time, work: InFlight, lifetimes: Approval.Lifetimes, a: Authority) {
    match work
    case OneWrite(w) => WriteTakesEffect(s, now, w, a)
    case Activation(ids, agent, host, _, ttl) =>
      && Approval.CanActivate(s, ids, agent, host)
      && exists id :: id in ids && CapabilityGrantConfers(s.capability[id], a)
                      && Unexpired(Approval.ApprovedExpiry(s.capability[id], now, ttl, lifetimes), now)
  }

  lemma MailboxWriteMakesLive(s: State, w: Write, now: Time, a: Authority)
    requires w.ActivateMailbox? || w.CreateMailbox? || w.RevokeMailbox?
    ensures Live(Apply(s, w), now, a) ==> Live(s, now, a) || WriteTakesEffect(s, now, w, a)
    ensures WriteTakesEffect(s, now, w, a) ==> Live(Apply(s, w), now, a)
  {
    LiveByTable(s, now, a);
    LiveByTable(Apply(s, w), now, a);
    var k := w.mailboxKey;
    if k in Apply(s, w).mailbox {
      MailboxWritten(s.mailbox, k, Apply(s, w).mailbox[k], now, a);
    }
  }

  lemma SystemWriteMakesLive(s: State, w: Write, now: Time, a: Authority)
    requires w.ActivateSystem? || w.RevokeSystem?
    ensures Live(Apply(s, w), now, a) ==> Live(s, now, a) || WriteTakesEffect(s, now, w, a)
    ensures WriteTakesEffect(s, now, w, a) ==> Live(Apply(s, w), now, a)
  {
    LiveByTable(s, now, a);
    LiveByTable(Apply(s, w), now, a);
    var k := w.systemKey;
    if k in Apply(s, w).system {
      SystemWritten(s.system, k, Apply(s, w).system[k], now, a);
    }
  }

  /** A grant that is not active confers nothing, whatever it replaces. */
  lemma InactiveGrantAddsNothing(s: State, id: string, g: CapabilityGrant, now: Time, a: Authority)
    requires g.status != GrantActive
    requires Live(s.(capability := s.capability[id := g]), now, a)
    ensures Live(s, now, a)
  {
    var t := s.(capability := s.capability[id := g]);
    LiveByTable(s, now, a);
    LiveByTable(t, now, a);
    if CapabilityLive(t.capability, now, a) {
      InactiveCapabilityWritten(s.capability, id, g, now, a);
    }
  }

  lemma CapabilityWriteIsInactive(s: State, w: Write)
    requires (w.RevokeCapability? || w.BindCapability?) && Apply(s, w) != s
    ensures w.id in Apply(s, w).capability && Apply(s, w).capability[w.id].status != GrantActive
    ensures Apply(s, w) == s.(capability := s.capability[w.id := Apply(s, w).capability[w.id]])
  {
  }

  lemma CapabilityWriteMakesNothingLive(s: State, w: Write, now: Time, a: Authority)
    requires (w.RevokeCapability? || w.BindCapability?) && Live(Apply(s, w), now, a)
    ensures Live(s, now, a)
  {
    if Apply(s, w) != s {
      CapabilityWriteIsInactive(s, w);
      InactiveGrantAddsNothing(s, w.id, Apply(s, w).capability[w.id], now, a);
    }
  }

  lemma RequestWriteMakesLive(s: State, id: string, r: EnrollmentRequest, now: Time, a: Authority)
    ensures Live(Apply(s, AddRequest(id, r)), now, a) ==> Live(s, now, a) || WriteTakesEffect(s, now, AddRequest(id, r), a)
    ensures WriteTakesEffect(s, now, AddRequest(id, r), a) ==> Live(Apply(s, AddRequest(id, r)), now, a)
  {
    if id !in s.requests {
      assert Apply(s, AddRequest(id, r)) == s.(requests := s.requests[id := r]);
      RequestAdded(s, id, r, now, a);
    } else {
      assert Apply(s, AddRequest(id, r)) == s;
    }
  }

  lemma RequestAdded(s: State, id: string, r: EnrollmentRequest, now: Time, a: Authority)
    ensures var t := s.(requests := s.requests[id := r]);
            (Live(t, now, a) ==> Live(s, now, a) || Promises(r, now, a)) && (Promises(r, now, a) ==> Live(t, now, a))
  {
    var t := s.(requests := s.requests[id := r]);
    LiveByTable(s, now, a);
    LiveByTable(t, now, a);
    RequestWritten(s.requests, id, r, now, a);
    assert t.mailbox == s.mailbox && t.system == s.system && t.capability == s.capability && t.requests == s.requests[id := r];
  }

  lemma WriteMakesLive(s: State, w: Write, now: Time, a: Authority)
    ensures Live(Apply(s, w), now, a) ==> Live(s, now, a) || WriteTakesEffect(s, now, w, a)
    ensures WriteTakesEffect(s, now, w, a) ==> Live(Apply(s, w), now, a)
  {
    match w
    case ActivateMailbox(_, _) => MailboxWriteMakesLive(s, w, now, a);
    case CreateMailbox(_) => MailboxWriteMakesLive(s, w, now, a);
    case RevokeMailbox(_) => MailboxWriteMakesLive(s, w, now, a);
    case ActivateSystem(_, _) => SystemWriteMakesLive(s, w, now, a);
    case RevokeSystem(_) => SystemWriteMakesLive(s, w, now, a);
    case AddRequest(id, r) => RequestWriteMakesLive(s, id, r, now, a);
    case RevokeCapability(_) => if Live(Apply(s, w), now, a) { CapabilityWriteMakesNothingLive(s, w, now, a); }
    case BindCapability(_, _) => if Live(Apply(s, w), now, a) { CapabilityWriteMakesNothingLive(s, w, now, a); }
  }

  lemma ActivationMakesLive(s: State, now: Time, work: InFlight, lifetimes: Approval.Lifetimes, a: Authority)
    requires work.Activation? && Approval.CanActivate(s, work.ids, work.agent, work.host)
    ensures Live(Perform(s, now, work, lifetimes), now, a) ==> Live(s, now, a) || TakesEffect(s, now, work, lifetimes, a)
    ensures TakesEffect(s, now, work, lifetimes, a) ==> Live(Perform(s, now, work, lifetimes), now, a)
  {
    var t := Perform(s, now, work, lifetimes);
    LiveByTable(s, now, a);
    LiveByTable(t, now, a);
    ActivatedMakesLive(s.capability, work.ids, now, work.ttl, lifetimes, a);
  }

  lemma ActivatedMakesLive(table: map<string, CapabilityGrant>, ids: set<string>, now: Time, ttl: Option<nat>, lifetimes: Approval.Lifetimes, a: Authority)
    requires forall id :: id in ids ==> id in table
    ensures var activated := Approval.ActivatedTable(table, ids, now, ttl, lifetimes);
            var effective := exists id :: id in ids && CapabilityGrantConfers(table[id], a) && Unexpired(Approval.ApprovedExpiry(table[id], now, ttl, lifetimes), now);
            && (CapabilityLive(activated, now, a) ==> CapabilityLive(table, now, a) || effective)
            && (effective ==> CapabilityLive(activated, now, a))
  {
    var activated := Approval.ActivatedTable(table, ids, now, ttl, lifetimes);
    if id :| id in activated && IsCapabilityGrantActive(activated[id], now) && CapabilityGrantConfers(activated[id], a) {
      if id in ids {
        assert CapabilityGrantConfers(table[id], a);
      } else {
        assert activated[id] == table[id];
      }
    }
    if id :| id in ids && CapabilityGrantConfers(table[id], a) && Unexpired(Approval.ApprovedExpiry(table[id], now, ttl, lifetimes), now) {
      assert IsCapabilityGrantActive(activated[id], now) && CapabilityGrantConfers(activated[id], a);
    }
  }

  /** Performed work makes live what takes effect, and nothing else that was not live before. */
  lemma WorkMakesLive(s: State, now: Time, work: InFlight, lifetimes: Approval.Lifetimes, a: Authority)
    ensures Live(Perform(s, now, work, lifetimes), now, a) ==> Live(s, now, a) || TakesEffect(s, now, work, lifetimes, a)
    ensures TakesEffect(s, now, work, lifetimes, a) ==> Live(Perform(s, now, work, lifetimes), now, a)
  {
    match work
    case OneWrite(w) => WriteMakesLive(s, w, now, a);
    case Activation(ids, agent, host, _, _) =>
      if Approval.CanActivate(s, ids, agent, host) {
        ActivationMakesLive(s, now, work, lifetimes, a);
      }
  }

  lemma EffectIsConferred(s: State, now: Time, work: InFlight, lifetimes: Approval.Lifetimes, a: Authority)
    requires TakesEffect(s, now, work, lifetimes, a)
    ensures Confers(s, work, a)
  {
  }

  /** A write adds no authority but what it confers itself. */
  lemma WorkAddsOnlyItsOwn(s: State, now: Time, work: InFlight, lifetimes: Approval.Lifetimes, a: Authority)
    requires Live(Perform(s, now, work, lifetimes), now, a)
    ensures Live(s, now, a) || Confers(s, work, a)
  {
    WorkMakesLive(s, now, work, lifetimes, a);
    if TakesEffect(s, now, work, lifetimes, a) {
      EffectIsConferred(s, now, work, lifetimes, a);
    }
  }

  // --- the other steps make nothing live --------------------------------------------------------------------------

  lemma TimeOnlyEnds(s: State, now: Time, later: Time, a: Authority)
    requires now <= later && Live(s, later, a)
    ensures Live(s, now, a)
  {
    LiveByTable(s, now, a);
    LiveByTable(s, later, a);
    if k :| k in s.mailbox && IsGrantActive(s.mailbox[k], later) && MailboxKeyConfers(k, a) {
      assert IsGrantActive(s.mailbox[k], now);
    } else if k :| k in s.system && IsGrantActive(s.system[k], later) && SystemKeyConfers(k, a) {
      assert IsGrantActive(s.system[k], now);
    } else if id :| id in s.capability && IsCapabilityGrantActive(s.capability[id], later) && CapabilityGrantConfers(s.capability[id], a) {
      assert IsCapabilityGrantActive(s.capability[id], now);
    } else {
      var id :| id in s.requests && Promises(s.requests[id], later, a);
      assert Promises(s.requests[id], now, a);
    }
  }

  lemma RevokingAddsNothing(s: State, w: Write, now: Time, a: Authority)
    requires OnlyRevokes(w) && Live(Apply(s, w), now, a)
    ensures Live(s, now, a)
  {
    WriteMakesLive(s, w, now, a);
  }

  lemma AppliedMailboxWasPromised(s: State, id: string, agent: string, now: Time, a: Authority)
    requires Enrollment.IsPending(s, id) && MailboxLive(Enrollment.Applied(s, id, s.requests[id], agent).mailbox, now, a)
    ensures MailboxLive(s.mailbox, now, a) || RequestsLive(s.requests, now, a)
  {
    var r := s.requests[id];
    var table := Enrollment.Applied(s, id, r, agent).mailbox;
    var k :| k in table && IsGrantActive(table[k], now) && MailboxKeyConfers(k, a);
    if k in Enrollment.RequestedMailboxKeys(r, agent) {
      var i, j :| 0 <= i < |r.mailboxGrants| && 0 <= j < |r.mailboxGrants[i].grants|
                  && k == MailboxKey(r.org, r.mailboxGrants[i].mailbox, Principal(AgentPrincipal, agent), r.mailboxGrants[i].grants[j]);
      assert Promises(r, now, a);
    } else {
      assert k in s.mailbox && table[k] == s.mailbox[k];
    }
  }

  lemma AppliedSystemWasPromised(s: State, id: string, agent: string, now: Time, a: Authority)
    requires Enrollment.IsPending(s, id) && SystemLive(Enrollment.Applied(s, id, s.requests[id], agent).system, now, a)
    ensures SystemLive(s.system, now, a) || RequestsLive(s.requests, now, a)
  {
    var r := s.requests[id];
    var table := Enrollment.Applied(s, id, r, agent).system;
    var k :| k in table && IsGrantActive(table[k], now) && SystemKeyConfers(k, a);
    if k in Enrollment.RequestedSystemKeys(r, agent) {
      var i :| 0 <= i < |r.permissions| && k == SystemKey(r.org, Principal(AgentPrincipal, agent), r.permissions[i]);
      assert Promises(r, now, a);
    } else {
      assert k in s.system && table[k] == s.system[k];
    }
  }

  /** The requests still pending were there before. */
  predicate OnlySettles(before: map<string, EnrollmentRequest>, after: map<string, EnrollmentRequest>) {
    forall id :: id in after && after[id].status == RequestPending ==> id in before && before[id] == after[id]
  }

  lemma AppliedAddsNothing(s: State, id: string, agent: string, now: Time, a: Authority)
    requires Enrollment.IsPending(s, id) && Live(Enrollment.Applied(s, id, s.requests[id], agent), now, a)
    ensures Live(s, now, a)
  {
    var t := Enrollment.Applied(s, id, s.requests[id], agent);
    LiveByTable(s, now, a);
    LiveByTable(t, now, a);
    if MailboxLive(t.mailbox, now, a) {
      AppliedMailboxWasPromised(s, id, agent, now, a);
    } else if SystemLive(t.system, now, a) {
      AppliedSystemWasPromised(s, id, agent, now, a);
    } else if RequestsLive(t.requests, now, a) {
      RequestWritten(s.requests, id, t.requests[id], now, a);
    }
  }

  /** A request that lapsed or was withdrawn promises nothing more. */
  lemma SettlingAddsNothing(s: State, t: State, now: Time, a: Authority)
    requires t.mailbox == s.mailbox && t.system == s.system && t.capability == s.capability && OnlySettles(s.requests, t.requests)
    requires Live(t, now, a)
    ensures Live(s, now, a)
  {
    LiveByTable(s, now, a);
    LiveByTable(t, now, a);
    if id :| id in t.requests && Promises(t.requests[id], now, a) {
      assert Promises(s.requests[id], now, a);
    }
  }

  /** Applying a request turns its own promise into grants with the same expiry. */
  lemma TakingUpAddsNothing(s: State, id: string, agent: string, startedAt: Time, now: Time, a: Authority)
    requires Enrollment.IsPending(s, id) && startedAt <= now
    requires Live(Enrollment.ApplyCommit(s, id, s.requests[id], agent, startedAt).0, now, a)
    ensures Live(s, now, a)
  {
    CommitAppliesOrSettles(s, id, agent, startedAt);
    var t := Enrollment.ApplyCommit(s, id, s.requests[id], agent, startedAt).0;
    if t == Enrollment.Applied(s, id, s.requests[id], agent) {
      AppliedAddsNothing(s, id, agent, now, a);
    } else {
      SettlingAddsNothing(s, t, now, a);
    }
  }

  lemma CommitAppliesOrSettles(s: State, id: string, agent: string, startedAt: Time)
    requires Enrollment.IsPending(s, id)
    ensures var t := Enrollment.ApplyCommit(s, id, s.requests[id], agent, startedAt).0;
            || t == Enrollment.Applied(s, id, s.requests[id], agent)
            || (t.mailbox == s.mailbox && t.system == s.system && t.capability == s.capability && OnlySettles(s.requests, t.requests))
  {
  }

  lemma WithdrawingAddsNothing(s: State, id: string, now: Time, a: Authority)
    requires Live(Enrollment.WithdrawnRequest(s, id), now, a)
    ensures Live(s, now, a)
  {
    WithdrawingSettles(s, id);
    SettlingAddsNothing(s, Enrollment.WithdrawnRequest(s, id), now, a);
  }

  lemma WithdrawingSettles(s: State, id: string)
    ensures var t := Enrollment.WithdrawnRequest(s, id);
            t.mailbox == s.mailbox && t.system == s.system && t.capability == s.capability && OnlySettles(s.requests, t.requests)
  {
  }

  // --- what is issued was held ---------------------------------------------------------------------------------

  lemma HeldIsLive(s: State, now: Time, p: Principal, a: Authority)
    requires Holds(s, now, p, a)
    ensures Live(s, now, a)
  {
  }

  lemma CheckedRequestIsLive(ctx: Context, s: State, now: Time, r: EnrollmentRequest, a: Authority, parse: RecipientPolicy.AddressParser)
    requires BuiltFrom(ctx, s, now) && !Administers(ctx.actor, ctx.org) && r.org == ctx.org
    requires Enrollment.CanManageRequest(ctx, r, parse) && RequestConfers(r, a)
    ensures Live(s, now, a)
  {
    if a.OnMailbox? {
      var i, j :| 0 <= i < |r.mailboxGrants| && 0 <= j < |r.mailboxGrants[i].grants|
                  && NormalizedMailbox(Some(r.mailboxGrants[i].mailbox)) == a.mailbox && a.capability in MailboxBundle(r.mailboxGrants[i].grants[j]);
      var k := MailboxKey(r.org, r.mailboxGrants[i].mailbox, ctx.actor.principal, r.mailboxGrants[i].grants[j]);
      CheckedMailboxGrantIsHeld(ctx, s, now, k, a, parse);
    } else {
      var i :| 0 <= i < |r.permissions| && a.capability in SystemBundle(r.permissions[i]);
      CheckedPermissionIsHeld(ctx, s, now, SystemKey(r.org, ctx.actor.principal, r.permissions[i]), a, parse);
    }
    HeldIsLive(s, now, ctx.actor.principal, a);
  }

  /** What a grant confers in its organization is what the approver was asked about. */
  lemma GrantConfersItsAuthority(g: CapabilityGrant, org: string, a: Authority)
    requires CapabilityGrantConfers(g, a) && GrantOrganization(g) == Some(org)
    ensures a == AuthorityOn(org, GrantMailbox(g), a.capability)
  {
  }

  lemma CheckedGrantIsLive(ctx: Context, s: State, now: Time, g: CapabilityGrant, allowBinding: bool, a: Authority, parse: RecipientPolicy.AddressParser)
    requires BuiltFrom(ctx, s, now) && !Administers(ctx.actor, ctx.org)
    requires g.status == GrantPending && Approval.CanBeApproved(allowBinding, ctx.org, g) && Approval.CanManageGrantDocument(ctx, g, parse)
    requires CapabilityGrantConfers(Approval.BoundCopy(g, ctx.org).value, a)
    ensures Live(s, now, a)
  {
    Approval.BoundBelongsToOrganization(allowBinding, ctx.org, g);
    var bound := Approval.BoundCopy(g, ctx.org).value;
    GrantConfersItsAuthority(bound, ctx.org, a);
    CheckMeansHolding(ctx, s, now, a.capability, GrantMailbox(g), parse);
    HeldIsLive(s, now, ctx.actor.principal, a);
  }

  lemma ChosenIsApprovable(d: Approval.Decision, org: string, grants: seq<Approval.GrantDocument>, c: Approval.GrantDocument)
    requires Approval.Choose(d, org, grants).Ok? && c in Approval.Choose(d, org, grants).value
    ensures c in grants && c.1.status == GrantPending && Approval.CanBeApproved(d.allowBinding, org, c.1)
  {
    Approval.SelectionIsWhatWasAsked(d.allowBinding, d.approval, d.requested, org, grants);
    assert Approval.IsApprovable(c, d.allowBinding, org, grants);
  }

  lemma IssuedBindingIsLive(s: State, now: Time, ctx: Context, op: Operation, c: Approval.GrantDocument, a: Authority, parse: RecipientPolicy.AddressParser)
    requires op.Approve? && !Administers(ctx.actor, ctx.org) && BuiltFrom(ctx, s, now) && Checked(s, ctx, op, parse)
    requires c in Approval.Choose(op.decision, ctx.org, op.grants).value && Approval.BoundCopy(c.1, ctx.org).Some?
    requires WriteConfers(s, BindCapability(c.0, Approval.BoundCopy(c.1, ctx.org).value.constraints), a)
    ensures Live(s, now, a)
  {
    ChosenIsApprovable(op.decision, ctx.org, op.grants, c);
    Approval.BoundBelongsToOrganization(op.decision.allowBinding, ctx.org, c.1);
    CheckedGrantIsLive(ctx, s, now, c.1, op.decision.allowBinding, a, parse);
  }

  /** An unbound grant confers nothing until it is bound; a bound one is its own bound copy. */
  lemma IssuedActivationIsLive(s: State, now: Time, ctx: Context, op: Operation, c: Approval.GrantDocument, a: Authority, parse: RecipientPolicy.AddressParser)
    requires op.Approve? && !Administers(ctx.actor, ctx.org) && BuiltFrom(ctx, s, now) && Checked(s, ctx, op, parse)
    requires c in Approval.Choose(op.decision, ctx.org, op.grants).value
    requires c.0 in s.capability && CapabilityGrantConfers(s.capability[c.0], a)
    ensures Live(s, now, a)
  {
    ChosenIsApprovable(op.decision, ctx.org, op.grants, c);
    CheckedGrantIsLive(ctx, s, now, c.1, op.decision.allowBinding, a, parse);
  }

  lemma IssuedApprovalIsLive(s: State, now: Time, ctx: Context, op: Operation, work: InFlight, a: Authority, parse: RecipientPolicy.AddressParser)
    requires op.Approve? && !Administers(ctx.actor, ctx.org) && BuiltFrom(ctx, s, now) && Checked(s, ctx, op, parse)
    requires work in Issued(s, ctx, op) && Confers(s, work, a)
    ensures Live(s, now, a)
  {
    var chosen := Approval.Choose(op.decision, ctx.org, op.grants).value;
    if work in Bindings(ctx.org, chosen) {
      var c :| c in chosen && Approval.NeedsBinding(c.1) && Approval.BoundCopy(c.1, ctx.org).Some?
               && work == OneWrite(BindCapability(c.0, Approval.BoundCopy(c.1, ctx.org).value.constraints));
      IssuedBindingIsLive(s, now, ctx, op, c, a, parse);
    } else {
      var id :| id in work.ids && id in s.capability && CapabilityGrantConfers(s.capability[id], a);
      var c :| c in chosen && c.0 == id;
      IssuedActivationIsLive(s, now, ctx, op, c, a, parse);
    }
  }

  /** Everything an operation issues confers only what its session held when it was checked. */
  lemma IssuedIsLive(s: State, now: Time, ctx: Context, op: Operation, work: InFlight, a: Authority, parse: RecipientPolicy.AddressParser)
    requires !Administers(ctx.actor, ctx.org) && BuiltFrom(ctx, s, now) && Checked(s, ctx, op, parse)
    requires work in Issued(s, ctx, op) && Confers(s, work, a)
    ensures Live(s, now, a)
  {
    match op
    case Approve(_, _) => IssuedApprovalIsLive(s, now, ctx, op, work, a, parse);
    case CreateEnrollment(_, request) => CheckedRequestIsLive(ctx, s, now, request, a, parse);
    case ReplaceSystemPermissions(p, permissions) =>
      CheckedPermissionIsHeld(ctx, s, now, work.write.systemKey, a, parse);
      HeldIsLive(s, now, ctx.actor.principal, a);
    case ReplaceMailboxGrants(p, desired) =>
      CheckedMailboxGrantIsHeld(ctx, s, now, work.write.mailboxKey, a, parse);
      HeldIsLive(s, now, ctx.actor.principal, a);
    case GrantInitialMailbox(_, _, _) =>
      CheckedMailboxGrantIsHeld(ctx, s, now, work.write.mailboxKey, a, parse);
      HeldIsLive(s, now, ctx.actor.principal, a);
  }

  lemma IssuedNamesKnownGrants(s: State, ctx: Context, op: Operation, parse: RecipientPolicy.AddressParser)
    requires Checked(s, ctx, op, parse)
    ensures forall work :: work in Issued(s, ctx, op) ==> NamesKnownGrants(s, work)
  {
    if op.Approve? {
      var d, grants := op.decision, op.grants;
      Approval.SelectionIsWhatWasAsked(d.allowBinding, d.approval, d.requested, ctx.org, grants);
      forall c | c in Approval.Choose(d, ctx.org, grants).value ensures c.0 in s.capability {
        assert Approval.IsApprovable(c, d.allowBinding, ctx.org, grants);
      }
    }
  }

  // --- work in flight across a step ------------------------------------------------------------------------------

  /** Grants keep their capability, and change their constraints only when this binding does. */
  ghost predicate GrantsEvolve(s: State, t: State, binding: Option<InFlight>) {
    forall id :: id in s.capability ==> GrantEvolves(s, t, binding, id)
  }

  predicate GrantEvolves(s: State, t: State, binding: Option<InFlight>, id: string)
    requires id in s.capability
  {
    && id in t.capability && t.capability[id].capability == s.capability[id].capability
    && (|| t.capability[id].constraints == s.capability[id].constraints
        || binding == Some(OneWrite(BindCapability(id, t.capability[id].constraints))))
  }

  lemma ConferringEvolves(s: State, t: State, binding: Option<InFlight>, work: InFlight, a: Authority)
    requires GrantsEvolve(s, t, binding) && NamesKnownGrants(s, work) && Confers(t, work, a)
    ensures Confers(s, work, a) || (binding.Some? && Confers(s, binding.value, a))
    ensures NamesKnownGrants(t, work)
  {
    if work.Activation? {
      var id :| id in work.ids && id in t.capability && CapabilityGrantConfers(t.capability[id], a);
      assert CapabilityGrantConfers(s.capability[id].(constraints := t.capability[id].constraints), a);
      if t.capability[id].constraints == s.capability[id].constraints {
        assert CapabilityGrantConfers(s.capability[id], a);
      }
    } else if work.write.BindCapability? {
      var id, constraints := work.write.id, work.write.constraints;
      assert CapabilityGrantConfers(s.capability[id].(constraints := constraints), a);
    }
  }

  lemma NamesStayKnown(s: State, t: State, binding: Option<InFlight>, work: InFlight)
    requires GrantsEvolve(s, t, binding) && NamesKnownGrants(s, work)
    ensures NamesKnownGrants(t, work)
  {
  }

  lemma StepEvolvesGrants(w: World, e: Event, out: Outside)
    ensures GrantsEvolve(w.s, Next(w, e, out).s, if e.Commit? then Some(e.work) else None)
  {
    match e
    case Commit(work) => WorkEvolvesGrants(w.s, w.now, work, out.lifetimes);
    case Revoke(write) => WriteEvolvesGrants(w.s, write);
    case TakeUpEnrollment(_, _, _) => EnrollmentEvolvesNothing(w, e, out);
    case WithdrawEnrollment(_) => EnrollmentEvolvesNothing(w, e, out);
    case _ =>
  }

  lemma EnrollmentEvolvesNothing(w: World, e: Event, out: Outside)
    requires e.TakeUpEnrollment? || e.WithdrawEnrollment?
    ensures Next(w, e, out).s.capability == w.s.capability
  {
  }

  lemma WorkEvolvesGrants(s: State, now: Time, work: InFlight, lifetimes: Approval.Lifetimes)
    ensures GrantsEvolve(s, Perform(s, now, work, lifetimes), Some(work))
  {
    if work.OneWrite? {
      WriteEvolvesGrants(s, work.write);
    }
  }

  lemma WriteEvolvesGrants(s: State, w: Write)
    ensures GrantsEvolve(s, Apply(s, w), Some(OneWrite(w)))
  {
    forall id | id in s.capability ensures GrantEvolves(s, Apply(s, w), Some(OneWrite(w)), id) {
      if !NamesCapability(w, id) {
        CapabilityFrame(s, w, id);
      }
    }
  }

  /** Time, enrollment and revocation on the state itself. */
  lemma StateStepMakesNothingLive(w: World, e: Event, out: Outside, a: Authority)
    requires e.TakeUpEnrollment? || e.WithdrawEnrollment?
    requires Live(Next(w, e, out).s, w.now, a)
    ensures Live(w.s, w.now, a)
  {
    if e.WithdrawEnrollment? {
      WithdrawingAddsNothing(w.s, e.id, w.now, a);
    } else if Enrollment.IsPending(w.s, e.id) && e.startedAt <= w.now {
      TakingUpAddsNothing(w.s, e.id, e.agent, e.startedAt, w.now, a);
    }
  }

  lemma GrantStepMakesNothingLive(w: World, e: Event, out: Outside, a: Authority)
    requires e.Revoke? || e.AskForGrant?
    requires Live(Next(w, e, out).s, w.now, a)
    ensures Live(w.s, w.now, a)
  {
    if e.Revoke? {
      if OnlyRevokes(e.write) {
        RevokingAddsNothing(w.s, e.write, w.now, a);
      }
    } else if e.id !in w.s.capability && e.grant.status == GrantPending {
      InactiveGrantAddsNothing(w.s, e.id, e.grant, w.now, a);
    }
  }

  lemma StepFrame(w: World, e: Event, out: Outside)
    ensures Next(w, e, out).now == if e.Tick? then w.now + e.span else w.now
    ensures e.Tick? || e.Begin? || e.Abandon? || (e.Commit? && e.work !in w.pool) ==> Next(w, e, out).s == w.s
  {
  }

  lemma OtherStepsMakeNothingLive(w: World, e: Event, out: Outside, a: Authority)
    requires !(e.Commit? && e.work in w.pool) && Live(Next(w, e, out).s, Next(w, e, out).now, a)
    ensures Live(w.s, w.now, a)
  {
    var next := Next(w, e, out);
    StepFrame(w, e, out);
    if e.Tick? {
      TimeOnlyEnds(w.s, w.now, next.now, a);
    } else if e.TakeUpEnrollment? || e.WithdrawEnrollment? {
      StateStepMakesNothingLive(w, e, out, a);
    } else if e.Revoke? || e.AskForGrant? {
      GrantStepMakesNothingLive(w, e, out, a);
    }
  }

  /** One step authorizes nothing new. */
  lemma StepCreatesNoAuthority(w: World, e: Event, out: Outside, a: Authority)
    requires WellFormed(w) && Authorized(Next(w, e, out), a)
    ensures Authorized(w, a)
  {
    var next := Next(w, e, out);
    if Live(next.s, next.now, a) {
      if e.Commit? && e.work in w.pool {
        WorkAddsOnlyItsOwn(w.s, w.now, e.work, out.lifetimes, a);
      } else {
        OtherStepsMakeNothingLive(w, e, out, a);
      }
    } else {
      var work :| work in next.pool && Confers(next.s, work, a);
      WorkWasAuthorized(w, e, out, work, a);
    }
  }

  lemma WorkWasAuthorized(w: World, e: Event, out: Outside, work: InFlight, a: Authority)
    requires WellFormed(w) && work in Next(w, e, out).pool && Confers(Next(w, e, out).s, work, a)
    ensures Authorized(w, a)
  {
    var next := Next(w, e, out);
    if work in w.pool {
      StepEvolvesGrants(w, e, out);
      ConferringEvolves(w.s, next.s, if e.Commit? then Some(e.work) else None, work, a);
      if e.Commit? && e.work !in w.pool {
        assert next == w;
      }
    } else {
      IssuedIsLive(w.s, w.now, e.ctx, e.operation, work, a, out.parse);
    }
  }

  lemma StepStaysWellFormed(w: World, e: Event, out: Outside)
    requires WellFormed(w)
    ensures WellFormed(Next(w, e, out))
  {
    var next := Next(w, e, out);
    StepEvolvesGrants(w, e, out);
    forall work | work in next.pool ensures NamesKnownGrants(next.s, work) {
      if work in w.pool {
        NamesStayKnown(w.s, next.s, if e.Commit? then Some(e.work) else None, work);
      } else {
        IssuedNamesKnownGrants(w.s, e.ctx, e.operation, out.parse);
      }
    }
  }

  /** The initial grants of a new agent reach that agent: once written where none was stored, each confers its bundle on it. */
  lemma InitialGrantsReachTheAgent(s: State, ctx: Context, agent: string, mailbox: string, grants: set<MailboxGrant>, g: MailboxGrant, c: Capability, now: Time)
    requires g in grants && c in MailboxBundle(g) && MailboxKey(ctx.org, mailbox, Principal(AgentPrincipal, agent), g) !in s.mailbox
    ensures exists work :: work in Issued(s, ctx, GrantInitialMailbox(agent, mailbox, grants)) && work.OneWrite?
                           && Holds(Apply(s, work.write), now, Principal(AgentPrincipal, agent), OnMailbox(ctx.org, NormalizedMailbox(Some(mailbox)), c))
  {
    var k := MailboxKey(ctx.org, mailbox, Principal(AgentPrincipal, agent), g);
    var work := OneWrite(CreateMailbox(k));
    assert work in Issued(s, ctx, GrantInitialMailbox(agent, mailbox, grants));
    var t := Apply(s, work.write);
    assert k in t.mailbox && IsGrantActive(t.mailbox[k], now) && MailboxKeyConfers(k, OnMailbox(ctx.org, NormalizedMailbox(Some(mailbox)), c));
  }

  // --- whole runs --------------------------------------------------------------------------------------------------

  lemma {:induction false} RunCreatesNoAuthority(w: World, events: seq<Event>, out: Outside, a: Authority)
    requires WellFormed(w) && Authorized(Run(w, events, out), a)
    ensures Authorized(w, a)
    decreases |events|
  {
    if events != [] {
      StepStaysWellFormed(w, events[0], out);
      RunCreatesNoAuthority(Next(w, events[0], out), events[1..], out, a);
      StepCreatesNoAuthority(w, events[0], out, a);
    }
  }

  /** Delegation creates no authority: in every run that starts with nothing in flight, whatever is live at the end was live at the start. */
  lemma DelegationCreatesNoAuthority(w: World, events: seq<Event>, out: Outside, a: Authority)
    requires w.pool == multiset{} && Live(Run(w, events, out).s, Run(w, events, out).now, a)
    ensures Live(w.s, w.now, a)
  {
    RunCreatesNoAuthority(w, events, out, a);
  }
}
