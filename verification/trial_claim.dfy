/** Claiming a trial agent: approve and deny decisions racing for one claim. */
module TrialClaim {
  import opened Wrappers
  import opened Capabilities
  import opened Grants
  import opened Trials
  import opened TrialStart
  import Text

  datatype Verdict = Approve | Deny

  /**
   * A decision that has read its claim and not yet committed. `source` numbers the grants it may
   * create; `read` are all grants of the agent as they were read.
   */
  datatype Attempt = Attempt(
    id: string, verdict: Verdict, user: string, org: string, trial: Trial, read: map<GrantId, CapabilityGrant>, source: string)

  predicate IsPendingIntent(s: TrialState, id: string) {
    id in s.intents && s.intents[id].status == IntentPending
  }

  function GrantsOfAgent(s: TrialState, id: string): map<GrantId, CapabilityGrant> {
    map g | g in s.grants && s.grants[g].agent == id :: s.grants[g]
  }

  /** The checks before the transaction, on what was read. */
  predicate CanBegin(s: TrialState, now: Time, a: Attempt) {
    && IsPendingIntent(s, a.id) && s.intents[a.id].expiresAt > now
    && a.id in s.trials && a.trial == s.trials[a.id] && IsActiveTrial(a.trial, now)
    && a.id in s.agents && a.id in s.hosts
    && a.read == GrantsOfAgent(s, a.id)
  }

  // --- the transaction ----------------------------------------------------------------------------------------

  /** The grants the decision read as active: it will keep or revoke each of them. */
  function ReadActive(a: Attempt): set<GrantId> {
    set g | g in a.read && a.read[g].status == GrantActive
  }

  function ReadCapabilities(a: Attempt): set<Option<Capability>> {
    set g | g in ReadActive(a) :: a.read[g].capability
  }

  function ClaimedGrant(a: Attempt, c: Capability): CapabilityGrant {
    CapabilityGrant(a.id, Some(c), TrialConstraints(c, a.org, a.trial.mailbox), GrantActive, Some(a.trial.expiresAt))
  }

  /** What the update does to one grant read as active: bind it to the claiming organization, or revoke it. */
  function DecidedGrant(a: Attempt, g: CapabilityGrant): CapabilityGrant {
    if g.capability.Some? && g.capability.value in PostClaimCapabilities(a.trial)
    then g.(constraints := TrialConstraints(g.capability.value, a.org, a.trial.mailbox), expiresAt := Some(a.trial.expiresAt))
    else g.(status := GrantRevoked)
  }

  /** The numbers of the post-claim capabilities no active grant was read for. */
  function MissingNumbers(a: Attempt, count: nat): set<nat>
    requires count <= |PostClaimCapabilities(a.trial)|
  {
    set n: nat | n < count && Some(PostClaimCapabilities(a.trial)[n]) !in ReadCapabilities(a)
  }

  function NewGrants(a: Attempt, count: nat): map<GrantId, CapabilityGrant>
    requires count <= |PostClaimCapabilities(a.trial)|
  {
    map n | n in MissingNumbers(a, count) :: (a.source, n) := ClaimedGrant(a, PostClaimCapabilities(a.trial)[n])
  }

  function Decided(a: Attempt, grants: map<GrantId, CapabilityGrant>, done: set<GrantId>): map<GrantId, CapabilityGrant> {
    map g | g in grants :: if g in done then DecidedGrant(a, grants[g]) else grants[g]
  }

  predicate IsActiveGrantOf(grants: map<GrantId, CapabilityGrant>, g: GrantId, id: string) {
    g in grants && grants[g].agent == id && grants[g].status == GrantActive
  }

  predicate AreFree(a: Attempt, grants: map<GrantId, CapabilityGrant>, count: nat)
    requires count <= |PostClaimCapabilities(a.trial)|
  {
    forall n :: n in MissingNumbers(a, count) ==> (a.source, n) !in grants
  }

  /** Every compare-and-set of an approval matches, and the ids of its new grants are free. */
  predicate CanApprove(s: TrialState, a: Attempt) {
    && IsPendingIntent(s, a.id)
    && (forall g :: g in ReadActive(a) ==> IsActiveGrantOf(s.grants, g, a.id))
    && AreFree(a, s.grants, |PostClaimCapabilities(a.trial)|)
    && a.id in s.trials && s.trials[a.id].status == TrialActive
    && a.id in s.hosts && s.hosts[a.id].status == HostActive
    && a.id in s.agents && s.agents[a.id].status == AgentActive
  }

  function Approved(s: TrialState, a: Attempt): TrialState
    requires CanApprove(s, a)
  {
    TrialState(
      s.trials[a.id := s.trials[a.id].(status := TrialClaimed, claimedBy := Some(a.user), claimedOrg := Some(a.org))],
      s.intents[a.id := s.intents[a.id].(status := IntentApproved, approvedBy := Some(a.user), targetOrg := Some(a.org))],
      s.hosts[a.id := s.hosts[a.id].(user := Some(a.user))],
      s.agents[a.id := s.agents[a.id].(user := Some(a.user))],
      Decided(a, s.grants, ReadActive(a)) + NewGrants(a, |PostClaimCapabilities(a.trial)|))
  }

  function Denied(s: TrialState, id: string): TrialState
    requires IsPendingIntent(s, id)
  {
    s.(intents := s.intents[id := s.intents[id].(status := IntentDenied)])
  }

  predicate Succeeds(s: TrialState, a: Attempt) {
    if a.verdict.Deny? then IsPendingIntent(s, a.id) else CanApprove(s, a)
  }

  /** All or nothing. */
  function Committed(s: TrialState, a: Attempt): TrialState {
    if !Succeeds(s, a) then s else if a.verdict.Deny? then Denied(s, a.id) else Approved(s, a)
  }

  /** The approval's two loops over a staged copy; nothing is stored unless everything matched. */
  method Decide(db: TrialDatabase, a: Attempt) returns (ok: bool)
    modifies db
    ensures ok <==> Succeeds(old(db.Snapshot()), a)
    ensures db.Snapshot() == Committed(old(db.Snapshot()), a)
  {
    if a.id !in db.intents || db.intents[a.id].status != IntentPending {
      return false;
    }
    if a.verdict.Deny? {
      db.intents := db.intents[a.id := db.intents[a.id].(status := IntentDenied)];
      return true;
    }
    var kept := DecideReadGrants(a, db.grants);
    if kept.None? {
      return false;
    }
    var all := AddMissingGrants(a, db.grants, kept.value);
    if all.None? {
      return false;
    }
    if a.id !in db.trials || db.trials[a.id].status != TrialActive || a.id !in db.hosts || db.hosts[a.id].status != HostActive
       || a.id !in db.agents || db.agents[a.id].status != AgentActive {
      return false;
    }
    db.trials := db.trials[a.id := db.trials[a.id].(status := TrialClaimed, claimedBy := Some(a.user), claimedOrg := Some(a.org))];
    db.intents := db.intents[a.id := db.intents[a.id].(status := IntentApproved, approvedBy := Some(a.user), targetOrg := Some(a.org))];
    db.hosts := db.hosts[a.id := db.hosts[a.id].(user := Some(a.user))];
    db.agents := db.agents[a.id := db.agents[a.id].(user := Some(a.user))];
    db.grants := all.value;
    return true;
  }

  method DecideReadGrants(a: Attempt, grants: map<GrantId, CapabilityGrant>) returns (staged: Option<map<GrantId, CapabilityGrant>>)
    ensures staged.Some? <==> forall g :: g in ReadActive(a) ==> IsActiveGrantOf(grants, g, a.id)
    ensures staged.Some? ==> staged.value == Decided(a, grants, ReadActive(a))
  {
    var rows := grants;
    var remaining := ReadActive(a);
    ghost var done: set<GrantId> := {};
    assert Decided(a, grants, {}) == grants;
    while remaining != {}
      invariant done + remaining == ReadActive(a) && done !! remaining
      invariant forall g :: g in done ==> IsActiveGrantOf(grants, g, a.id)
      invariant rows == Decided(a, grants, done)
    {
      var g :| g in remaining;
      if !IsActiveGrantOf(rows, g, a.id) {
        assert !IsActiveGrantOf(grants, g, a.id);
        return None;
      }
      rows := rows[g := DecidedGrant(a, rows[g])];
      remaining, done := remaining - {g}, done + {g};
    }
    return Some(rows);
  }

  method AddMissingGrants(a: Attempt, grants: map<GrantId, CapabilityGrant>, kept: map<GrantId, CapabilityGrant>)
    returns (staged: Option<map<GrantId, CapabilityGrant>>)
    requires kept.Keys == grants.Keys
    ensures var post := PostClaimCapabilities(a.trial);
            && (staged.Some? <==> AreFree(a, grants, |post|))
            && (staged.Some? ==> staged.value == kept + NewGrants(a, |post|))
  {
    var post := PostClaimCapabilities(a.trial);
    var rows := kept;
    assert kept + NewGrants(a, 0) == kept;
    for n := 0 to |post|
      invariant AreFree(a, grants, n)
      invariant rows == kept + NewGrants(a, n)
    {
      MissingOneMore(a, n);
      if Some(post[n]) !in ReadCapabilities(a) {
        FreeOneMore(a, grants, n);
        if (a.source, n) in grants {
          return None;
        }
        RowsOneMore(a, kept, n);
        rows := rows[(a.source, n) := ClaimedGrant(a, post[n])];
      }
    }
    return Some(rows);
  }

  lemma FreeOneMore(a: Attempt, grants: map<GrantId, CapabilityGrant>, n: nat)
    requires n < |PostClaimCapabilities(a.trial)| && Some(PostClaimCapabilities(a.trial)[n]) !in ReadCapabilities(a)
    ensures AreFree(a, grants, n + 1) <==> AreFree(a, grants, n) && (a.source, n) !in grants
    ensures (a.source, n) in grants ==> !AreFree(a, grants, |PostClaimCapabilities(a.trial)|)
  {
    MissingOneMore(a, n);
    assert n in MissingNumbers(a, |PostClaimCapabilities(a.trial)|);
  }

  lemma RowsOneMore(a: Attempt, kept: map<GrantId, CapabilityGrant>, n: nat)
    requires n < |PostClaimCapabilities(a.trial)| && Some(PostClaimCapabilities(a.trial)[n]) !in ReadCapabilities(a)
    ensures kept + NewGrants(a, n + 1) == (kept + NewGrants(a, n))[(a.source, n) := ClaimedGrant(a, PostClaimCapabilities(a.trial)[n])]
  {
    MissingOneMore(a, n);
  }

  lemma MissingOneMore(a: Attempt, n: nat)
    requires n < |PostClaimCapabilities(a.trial)|
    ensures var post := PostClaimCapabilities(a.trial);
            if Some(post[n]) !in ReadCapabilities(a)
            then MissingNumbers(a, n + 1) == MissingNumbers(a, n) + {n}
                 && NewGrants(a, n + 1) == NewGrants(a, n)[(a.source, n) := ClaimedGrant(a, post[n])]
            else MissingNumbers(a, n + 1) == MissingNumbers(a, n) && NewGrants(a, n + 1) == NewGrants(a, n)
  {
    var post := PostClaimCapabilities(a.trial);
    assert Some(post[n]) !in ReadCapabilities(a) ==> MissingNumbers(a, n + 1) == MissingNumbers(a, n) + {n};
    assert Some(post[n]) in ReadCapabilities(a) ==> MissingNumbers(a, n + 1) == MissingNumbers(a, n);
  }

  /** Row by row: what must still be as it was read for an approval to commit. */
  ghost predicate StillAsRead(s: TrialState, a: Attempt) {
    && a.id in s.intents && s.intents[a.id].status == IntentPending
    && a.id in s.trials && s.trials[a.id].status == TrialActive
    && a.id in s.hosts && s.hosts[a.id].status == HostActive
    && a.id in s.agents && s.agents[a.id].status == AgentActive
    && (forall g :: g in a.read && a.read[g].status == GrantActive ==> g in s.grants && s.grants[g].agent == a.id && s.grants[g].status == GrantActive)
  }

  /** A denial commits exactly while the claim is pending; an approval, its new ids being free, exactly while everything is as it was read. */
  lemma SucceedsExactly(s: TrialState, a: Attempt)
    requires forall g :: g in s.grants ==> g.0 != a.source
    ensures Succeeds(s, a) <==> if a.verdict.Deny? then a.id in s.intents && s.intents[a.id].status == IntentPending else StillAsRead(s, a)
  {
    if a.verdict.Approve? {
      assert AreFree(a, s.grants, |PostClaimCapabilities(a.trial)|);
      assert forall g :: g in ReadActive(a) <==> g in a.read && a.read[g].status == GrantActive;
      if StillAsRead(s, a) {
        assert forall g :: g in ReadActive(a) ==> IsActiveGrantOf(s.grants, g, a.id);
      }
      if CanApprove(s, a) {
        forall g | g in a.read && a.read[g].status == GrantActive ensures IsActiveGrantOf(s.grants, g, a.id) {
          assert g in ReadActive(a);
        }
      }
    }
  }

  // --- what a decision leaves ------------------------------------------------------------------------------------

  /** A denial, or an approval that does not match, touches no trial, host, agent or grant. */
  lemma OnlyApprovalChangesAccess(s: TrialState, a: Attempt)
    requires a.verdict.Deny? || !CanApprove(s, a)
    ensures Committed(s, a) == s.(intents := Committed(s, a).intents)
  {
  }

  function ActiveGrants(s: TrialState, id: string): set<GrantId> {
    set g | g in s.grants && IsActiveGrantOf(s.grants, g, id)
  }

  function ActiveCapabilities(s: TrialState, id: string): set<Option<Capability>> {
    set g | g in ActiveGrants(s, id) :: s.grants[g].capability
  }

  /** Active grants of the agent that the decision did not read as active. */
  function Unread(s: TrialState, a: Attempt): set<GrantId> {
    ActiveGrants(s, a.id) - ReadActive(a)
  }

  /** Capabilities do not change in place, and the ids of stored grants are not the decision's new ones. */
  predicate ReadStillThere(s: TrialState, a: Attempt) {
    && (forall g :: g in ReadActive(a) && g in s.grants ==> s.grants[g].capability == a.read[g].capability)
    && forall n :: n in MissingNumbers(a, |PostClaimCapabilities(a.trial)|) ==> (a.source, n) !in a.read
  }

  /** What the agent may keep: the post-claim capabilities if the trial names any, and otherwise all it had. */
  predicate KeepsAfterClaim(trial: Trial, c: Capability) {
    if trial.postClaim != [] then c in trial.postClaim else c in trial.capabilities
  }

  function PostClaim(a: Attempt): set<Option<Capability>> {
    set c: Capability | KeepsAfterClaim(a.trial, c) :: Some(c)
  }

  predicate IsClaimedGrant(a: Attempt, g: CapabilityGrant) {
    && g.capability.Some? && KeepsAfterClaim(a.trial, g.capability.value)
    && g.agent == a.id && g.status == GrantActive
    && g.constraints == TrialConstraints(g.capability.value, a.org, a.trial.mailbox) && g.expiresAt == Some(a.trial.expiresAt)
  }

  /** Each grant active after the approval is one of its own, or one it had not read. */
  lemma ActiveAfterApproval(s: TrialState, a: Attempt, g: GrantId)
    requires CanApprove(s, a) && ReadStillThere(s, a)
    requires g in ActiveGrants(Approved(s, a), a.id)
    ensures (g in Unread(s, a) && Approved(s, a).grants[g] == s.grants[g]) || IsClaimedGrant(a, Approved(s, a).grants[g])
  {
    var t := Approved(s, a);
    if n :| n in MissingNumbers(a, |PostClaimCapabilities(a.trial)|) && g == (a.source, n) {
      assert g in NewGrants(a, |PostClaimCapabilities(a.trial)|);
    } else {
      assert g !in NewGrants(a, |PostClaimCapabilities(a.trial)|);
      assert t.grants[g] == Decided(a, s.grants, ReadActive(a))[g];
    }
  }

  /** Every post-claim capability is active after the approval. */
  lemma PostClaimIsActive(s: TrialState, a: Attempt, c: Capability)
    requires CanApprove(s, a) && ReadStillThere(s, a) && c in PostClaimCapabilities(a.trial)
    ensures Some(c) in ActiveCapabilities(Approved(s, a), a.id)
  {
    var t, post := Approved(s, a), PostClaimCapabilities(a.trial);
    if Some(c) in ReadCapabilities(a) {
      var g :| g in ReadActive(a) && a.read[g].capability == Some(c);
      assert IsActiveGrantOf(s.grants, g, a.id);
      assert g !in NewGrants(a, |post|);
      assert g in ActiveGrants(t, a.id) && t.grants[g].capability == Some(c);
    } else {
      var n :| 0 <= n < |post| && post[n] == c;
      assert n in MissingNumbers(a, |post|);
      var g := (a.source, n);
      assert g in NewGrants(a, |post|) && t.grants[g] == ClaimedGrant(a, c);
      assert g in ActiveGrants(t, a.id);
    }
  }

  /** Grants the decision had not read stay as they are. */
  lemma UnreadStays(s: TrialState, a: Attempt, g: GrantId)
    requires CanApprove(s, a) && g in s.grants && g !in ReadActive(a)
    ensures g in Approved(s, a).grants && Approved(s, a).grants[g] == s.grants[g]
  {
    assert g !in NewGrants(a, |PostClaimCapabilities(a.trial)|);
  }

  /** Capabilities of grants that became active between the read and the commit. */
  function BetweenCapabilities(s: TrialState, a: Attempt): set<Option<Capability>> {
    set g | g in Unread(s, a) && g in s.grants :: s.grants[g].capability
  }

  lemma ActiveAreKnown(s: TrialState, a: Attempt)
    requires CanApprove(s, a) && ReadStillThere(s, a)
    ensures ActiveCapabilities(Approved(s, a), a.id) <= PostClaim(a) + BetweenCapabilities(s, a)
  {
    var t := Approved(s, a);
    forall c | c in ActiveCapabilities(t, a.id) ensures c in PostClaim(a) + BetweenCapabilities(s, a) {
      var g :| g in ActiveGrants(t, a.id) && t.grants[g].capability == c;
      ActiveAfterApproval(s, a, g);
      if IsClaimedGrant(a, t.grants[g]) {
        assert c.value in PostClaimCapabilities(a.trial);
      }
    }
  }

  lemma KnownAreActive(s: TrialState, a: Attempt)
    requires CanApprove(s, a) && ReadStillThere(s, a)
    ensures PostClaim(a) + BetweenCapabilities(s, a) <= ActiveCapabilities(Approved(s, a), a.id)
  {
    var t := Approved(s, a);
    forall c | c in PostClaim(a) ensures c in ActiveCapabilities(t, a.id) {
      PostClaimIsActive(s, a, c.value);
    }
    forall c | c in BetweenCapabilities(s, a) ensures c in ActiveCapabilities(t, a.id) {
      var g :| g in Unread(s, a) && g in s.grants && s.grants[g].capability == c;
      UnreadStays(s, a, g);
      assert g in ActiveGrants(t, a.id);
    }
  }

  lemma ClaimedReadsBack(a: Attempt, g: CapabilityGrant)
    requires IsClaimedGrant(a, g)
    ensures GrantOrganization(g) == Some(a.org)
  {
  }

  /**
   * The exact result of an approval: the agent's active capabilities are the post-claim ones and
   * those of grants that became active after the decision's read. So they are exactly the
   * post-claim ones if and only if whatever was granted in between is among them; and every other
   * active grant belongs to the claiming organization and ends with the trial.
   */
  lemma ApprovalIsExact(s: TrialState, a: Attempt)
    requires CanApprove(s, a) && ReadStillThere(s, a)
    ensures var t := Approved(s, a);
            && ActiveCapabilities(t, a.id) == PostClaim(a) + BetweenCapabilities(s, a)
            && (ActiveCapabilities(t, a.id) == PostClaim(a) <==> BetweenCapabilities(s, a) <= PostClaim(a))
            && (forall g :: g in ActiveGrants(t, a.id) && g !in Unread(s, a) ==> IsClaimedGrant(a, t.grants[g]) && GrantOrganization(t.grants[g]) == Some(a.org))
            && (forall g :: g in s.grants && g !in ReadActive(a) ==> g in t.grants && t.grants[g] == s.grants[g])
            && t.trials[a.id].status == TrialClaimed && t.trials[a.id].claimedOrg == Some(a.org)
            && t.hosts[a.id].user == Some(a.user) && t.agents[a.id].user == Some(a.user)
  {
    var t := Approved(s, a);
    ActiveAreKnown(s, a);
    KnownAreActive(s, a);
    forall g | g in ActiveGrants(t, a.id) && g !in Unread(s, a)
      ensures IsClaimedGrant(a, t.grants[g]) && GrantOrganization(t.grants[g]) == Some(a.org)
    {
      ActiveAfterApproval(s, a, g);
      ClaimedReadsBack(a, t.grants[g]);
    }
    forall g | g in s.grants && g !in ReadActive(a) ensures g in t.grants && t.grants[g] == s.grants[g] {
      UnreadStays(s, a, g);
    }
  }

  // --- the same on the trial's own fields ------------------------------------------------------------------------

  /**
   * With nothing granted in between, the agent has after an approval exactly the capabilities the
   * trial keeps, each active for the claiming organization alone and until the trial ends, and
   * every other one it was read with is revoked.
   */
  lemma ClaimKeepsExactly(s: TrialState, a: Attempt)
    requires CanApprove(s, a) && ReadStillThere(s, a) && Unread(s, a) == {}
    ensures var t := Approved(s, a);
            && (forall c :: Some(c) in ActiveCapabilities(t, a.id) <==> KeepsAfterClaim(a.trial, c))
            && (forall g :: g in t.grants && t.grants[g].agent == a.id && t.grants[g].status == GrantActive ==> IsKeptGrant(a, t.grants[g]))
            && (forall g :: g in a.read && a.read[g].status == GrantActive && !(a.read[g].capability.Some? && KeepsAfterClaim(a.trial, a.read[g].capability.value)) ==>
                  g in t.grants && t.grants[g].status == GrantRevoked)
  {
    var t := Approved(s, a);
    ApprovalIsExact(s, a);
    forall c ensures Some(c) in PostClaim(a) <==> KeepsAfterClaim(a.trial, c) {
    }
    forall g | g in t.grants && t.grants[g].agent == a.id && t.grants[g].status == GrantActive ensures IsKeptGrant(a, t.grants[g]) {
      assert g in ActiveGrants(t, a.id) && g !in Unread(s, a);
      ClaimedIsKept(a, t.grants[g]);
    }
    forall g | g in a.read && a.read[g].status == GrantActive && !(a.read[g].capability.Some? && KeepsAfterClaim(a.trial, a.read[g].capability.value))
      ensures g in t.grants && t.grants[g].status == GrantRevoked
    {
      DroppedIsRevoked(s, a, g);
    }
  }

  /** It speaks for the claiming organization, for one kept capability, and ends with the trial. */
  predicate IsKeptGrant(a: Attempt, g: CapabilityGrant) {
    && g.capability.Some? && KeepsAfterClaim(a.trial, g.capability.value)
    && GrantOrganization(g) == Some(a.org)
    && CapabilityGrantConfers(g, AuthorityOn(a.org, Some(Text.Lower(a.trial.mailbox)), g.capability.value))
    && g.expiresAt == Some(a.trial.expiresAt)
  }

  lemma ClaimedIsKept(a: Attempt, g: CapabilityGrant)
    requires IsClaimedGrant(a, g)
    ensures IsKeptGrant(a, g)
  {
    TrialGrantReadsBack(g, g.capability.value, a.org, a.trial.mailbox);
  }

  lemma DroppedIsRevoked(s: TrialState, a: Attempt, g: GrantId)
    requires CanApprove(s, a) && ReadStillThere(s, a) && g in ReadActive(a)
    requires !(a.read[g].capability.Some? && a.read[g].capability.value in PostClaimCapabilities(a.trial))
    ensures g in Approved(s, a).grants && Approved(s, a).grants[g].status == GrantRevoked
  {
    assert g !in NewGrants(a, |PostClaimCapabilities(a.trial)|);
    assert IsActiveGrantOf(s.grants, g, a.id);
  }

  /** A trial just started from the plan, its id new, and an approval that begins on exactly what the start wrote, with new ids of its own. */
  predicate ClaimsStarted(s: TrialState, plan: Plan, startedAt: Time, user: string, now: Time, a: Attempt) {
    && HasNoRow(s, plan.id) && (forall g :: g in s.grants ==> s.grants[g].agent != plan.id && g.0 != a.source) && a.source != plan.id
    && a.id == plan.id && a.verdict.Approve? && CanBegin(WithRows(s, plan, startedAt, user), now, a)
  }

  /** It speaks for the organization, and lives until then if it is active. */
  ghost predicate IsClaimedFor(g: CapabilityGrant, org: string, end: Time) {
    GrantOrganization(g) == Some(org) && forall at :: IsCapabilityGrantActive(g, at) <==> g.status == GrantActive && at < end
  }

  /**
   * From policy to claim: a trial started under a request that names post-claim capabilities, and
   * claimed by an approval that reads what the start wrote, ends with exactly those of them, for
   * the claiming organization; and every other capability it started with is revoked.
   */
  lemma ClaimedTrialHasWhatWasRequested(
    s: TrialState, configured: seq<Capability>, requested: Option<seq<Capability>>, postClaim: seq<Capability>,
    plan: Plan, startedAt: Time, user: string, now: Time, a: Attempt)
    requires ClaimsStarted(s, plan, startedAt, user, now, a)
    requires ResolveCapabilities(configured, requested, Some(postClaim)) == Ok((plan.capabilities, plan.postClaim)) && postClaim != []
    ensures var t := Committed(WithRows(s, plan, startedAt, user), a);
            && (forall c :: Some(c) in ActiveCapabilities(t, plan.id) <==> c in postClaim)
            && (forall n: nat :: n < |plan.capabilities| && plan.capabilities[n] !in postClaim ==> (plan.id, n) in t.grants && t.grants[(plan.id, n)].status == GrantRevoked)
            && (forall g :: g in t.grants && t.grants[g].agent == plan.id && t.grants[g].status == GrantActive ==>
                  IsClaimedFor(t.grants[g], a.org, startedAt + 1000 * plan.lifetime))
  {
    PolicyStaysWithinConfiguration(configured, requested, Some(postClaim));
    assert postClaim[0] in plan.postClaim;
    forall c ensures c in plan.postClaim <==> c in postClaim {
    }
    ClaimedCapabilities(s, plan, startedAt, user, now, a);
    ClaimedGrants(s, plan, startedAt, user, now, a);
  }

  lemma ClaimedCapabilities(s: TrialState, plan: Plan, startedAt: Time, user: string, now: Time, a: Attempt)
    requires ClaimsStarted(s, plan, startedAt, user, now, a) && plan.postClaim != []
    ensures var t := Committed(WithRows(s, plan, startedAt, user), a);
            && (forall c :: Some(c) in ActiveCapabilities(t, plan.id) <==> c in plan.postClaim)
            && (forall n: nat :: n < |plan.capabilities| && plan.capabilities[n] !in plan.postClaim ==> (plan.id, n) in t.grants && t.grants[(plan.id, n)].status == GrantRevoked)
  {
    var begun := WithRows(s, plan, startedAt, user);
    StartedIsRead(s, plan, startedAt, user, now, a);
    ClaimKeepsExactly(begun, a);
    forall n: nat | n < |plan.capabilities| && plan.capabilities[n] !in plan.postClaim
      ensures (plan.id, n) in Committed(begun, a).grants && Committed(begun, a).grants[(plan.id, n)].status == GrantRevoked
    {
      StartedGrantDropped(s, plan, startedAt, user, now, a, n);
    }
  }

  lemma StartedGrantDropped(s: TrialState, plan: Plan, startedAt: Time, user: string, now: Time, a: Attempt, n: nat)
    requires ClaimsStarted(s, plan, startedAt, user, now, a) && plan.postClaim != [] && n < |plan.capabilities| && plan.capabilities[n] !in plan.postClaim
    ensures var t := Committed(WithRows(s, plan, startedAt, user), a);
            (plan.id, n) in t.grants && t.grants[(plan.id, n)].status == GrantRevoked
  {
    var begun := WithRows(s, plan, startedAt, user);
    StartedIsRead(s, plan, startedAt, user, now, a);
    StartedGrantIsRead(s, plan, startedAt, user, now, a, n);
    DroppedIsRevoked(begun, a, (plan.id, n));
  }

  lemma StartedGrantIsRead(s: TrialState, plan: Plan, startedAt: Time, user: string, now: Time, a: Attempt, n: nat)
    requires ClaimsStarted(s, plan, startedAt, user, now, a) && n < |plan.capabilities|
    ensures (plan.id, n) in ReadActive(a) && a.read[(plan.id, n)].capability == Some(plan.capabilities[n])
  {
    assert (plan.id, n) in GrantRows(plan, startedAt, |plan.capabilities|);
    assert WithRows(s, plan, startedAt, user).grants[(plan.id, n)] == GrantOf(plan, startedAt, n) == a.read[(plan.id, n)];
  }

  lemma ClaimedGrants(s: TrialState, plan: Plan, startedAt: Time, user: string, now: Time, a: Attempt)
    requires ClaimsStarted(s, plan, startedAt, user, now, a)
    ensures var t := Committed(WithRows(s, plan, startedAt, user), a);
            forall g :: g in t.grants && t.grants[g].agent == plan.id && t.grants[g].status == GrantActive ==>
                          IsClaimedFor(t.grants[g], a.org, startedAt + 1000 * plan.lifetime)
  {
    var begun := WithRows(s, plan, startedAt, user);
    StartedIsRead(s, plan, startedAt, user, now, a);
    ClaimKeepsExactly(begun, a);
    forall g | g in Approved(begun, a).grants && Approved(begun, a).grants[g].agent == a.id && Approved(begun, a).grants[g].status == GrantActive
      ensures IsClaimedFor(Approved(begun, a).grants[g], a.org, startedAt + 1000 * plan.lifetime)
    {
      KeptIsClaimed(a, Approved(begun, a).grants[g]);
    }
  }

  lemma KeptIsClaimed(a: Attempt, g: CapabilityGrant)
    requires IsKeptGrant(a, g)
    ensures IsClaimedFor(g, a.org, a.trial.expiresAt)
  {
  }

  lemma StartedIsRead(s: TrialState, plan: Plan, startedAt: Time, user: string, now: Time, a: Attempt)
    requires ClaimsStarted(s, plan, startedAt, user, now, a)
    ensures var begun := WithRows(s, plan, startedAt, user);
            && CanApprove(begun, a) && ReadStillThere(begun, a) && Unread(begun, a) == {}
            && a.trial.capabilities == plan.capabilities && a.trial.postClaim == plan.postClaim && a.trial.expiresAt == startedAt + 1000 * plan.lifetime
  {
    var begun := WithRows(s, plan, startedAt, user);
    forall g | g in begun.grants ensures g.0 != a.source {
      if g !in s.grants {
        assert g in GrantRows(plan, startedAt, |plan.capabilities|);
      }
    }
  }

  // --- decisions under concurrency ---------------------------------------------------------------------------------

  datatype ClaimWorld = ClaimWorld(s: TrialState, now: Time, flying: multiset<Attempt>)

  /** Anything else may add, change or revoke grants, agents and hosts at any time. */
  datatype ClaimEvent =
    | Pass(span: nat)
    | Begin(attempt: Attempt)
    | Commit(attempt: Attempt)
    | Abandon(attempt: Attempt)
    | Meanwhile(hosts: map<string, HostRecord>, agents: map<string, AgentRecord>, grants: map<GrantId, CapabilityGrant>)

  function NextClaim(w: ClaimWorld, e: ClaimEvent): ClaimWorld {
    match e
    case Pass(span) => w.(now := w.now + span)
    case Begin(a) => if CanBegin(w.s, w.now, a) then w.(flying := w.flying + multiset{a}) else w
    case Commit(a) => if a in w.flying then ClaimWorld(Committed(w.s, a), w.now, w.flying - multiset{a}) else w
    case Abandon(a) => w.(flying := w.flying - multiset{a})
    case Meanwhile(hosts, agents, grants) => w.(s := w.s.(hosts := hosts, agents := agents, grants := grants))
  }

  function RunClaims(w: ClaimWorld, events: seq<ClaimEvent>): ClaimWorld
    decreases |events|
  {
    if events == [] then w else RunClaims(NextClaim(w, events[0]), events[1..])
  }

  predicate DecidesClaim(w: ClaimWorld, e: ClaimEvent, id: string) {
    e.Commit? && e.attempt in w.flying && e.attempt.id == id && Succeeds(w.s, e.attempt)
  }

  /** How many steps of the run decide the claim. */
  function Decisions(w: ClaimWorld, events: seq<ClaimEvent>, id: string): nat
    decreases |events|
  {
    if events == [] then 0
    else (if DecidesClaim(w, events[0], id) then 1 else 0) + Decisions(NextClaim(w, events[0]), events[1..], id)
  }

  /** A claim leaves pending exactly at a deciding step, with that decision's status; the trial is claimed exactly by an approval. */
  lemma StepDecides(w: ClaimWorld, e: ClaimEvent, id: string)
    requires id in w.s.intents
    ensures var next := NextClaim(w, e);
            && id in next.s.intents
            && (DecidesClaim(w, e, id) ==>
                  IsPendingIntent(w.s, id) && next.s.intents[id].status == if e.attempt.verdict.Deny? then IntentDenied else IntentApproved)
            && (!DecidesClaim(w, e, id) ==> next.s.intents[id] == w.s.intents[id])
            && (id in w.s.trials ==>
                  && id in next.s.trials
                  && (next.s.trials[id] != w.s.trials[id] ==> DecidesClaim(w, e, id) && e.attempt.verdict.Approve?))
  {
  }

  lemma {:induction false} ResolvedStaysResolved(w: ClaimWorld, events: seq<ClaimEvent>, id: string)
    requires id in w.s.intents && !IsPendingIntent(w.s, id)
    ensures var last := RunClaims(w, events).s;
            && id in last.intents && last.intents[id] == w.s.intents[id] && Decisions(w, events, id) == 0
            && (id in w.s.trials ==> id in last.trials && last.trials[id] == w.s.trials[id])
    decreases |events|
  {
    if events != [] {
      StepDecides(w, events[0], id);
      ResolvedStaysResolved(NextClaim(w, events[0]), events[1..], id);
    }
  }

  /**
   * In every interleaving at most one decision of a claim commits. The claim ends pending, denied
   * or approved accordingly, and the trial record differs from its start only in the last case.
   */
  lemma {:induction false} DecidedAtMostOnce(w: ClaimWorld, events: seq<ClaimEvent>, id: string)
    requires IsPendingIntent(w.s, id)
    ensures var last := RunClaims(w, events).s;
            && id in last.intents
            && Decisions(w, events, id) == (if IsPendingIntent(last, id) then 0 else 1)
            && last.intents[id].status in {IntentPending, IntentDenied, IntentApproved}
            && (id in w.s.trials ==>
                  id in last.trials && (last.trials[id] != w.s.trials[id] ==> last.intents[id].status == IntentApproved))
    decreases |events|
  {
    if events != [] {
      var next := NextClaim(w, events[0]);
      StepDecides(w, events[0], id);
      if IsPendingIntent(next.s, id) {
        DecidedAtMostOnce(next, events[1..], id);
      } else {
        ResolvedStaysResolved(next, events[1..], id);
      }
    }
  }

  // --- approvals inside a run ------------------------------------------------------------------------------------------

  /** Grants are never deleted and keep their agent and capability. */
  predicate GrantsLast(before: map<GrantId, CapabilityGrant>, after: map<GrantId, CapabilityGrant>) {
    forall g :: g in before ==> g in after && after[g].capability == before[g].capability
  }

  /** What ids guarantee: a new decision has a new source, and nobody else creates grants under it. */
  predicate LawfulStep(w: ClaimWorld, e: ClaimEvent) {
    match e
    case Begin(a) => (forall g :: g in w.s.grants ==> g.0 != a.source) && (forall b :: b in w.flying ==> b.source != a.source)
    case Meanwhile(_, _, grants) =>
      GrantsLast(w.s.grants, grants) && forall g, b :: g in grants && g !in w.s.grants && b in w.flying ==> b.source != g.0
    case _ => true
  }

  predicate LawfulRun(w: ClaimWorld, events: seq<ClaimEvent>)
    decreases |events|
  {
    events == [] || (LawfulStep(w, events[0]) && LawfulRun(NextClaim(w, events[0]), events[1..]))
  }

  /** At this moment the claim is pending and not yet over, the trial is active and not yet over, and what the decision read is what is stored. */
  predicate MayBeDecided(w: ClaimWorld, a: Attempt) {
    && a.id in w.s.intents && w.s.intents[a.id].status == IntentPending && w.now < w.s.intents[a.id].expiresAt
    && a.id in w.s.trials && a.trial == w.s.trials[a.id] && a.trial.status == TrialActive && w.now < a.trial.expiresAt
    && a.read == map g | g in w.s.grants && w.s.grants[g].agent == a.id :: w.s.grants[g]
  }

  /** Every decision in flight began at such a moment of the run. */
  lemma {:induction false} DecisionsBeginInTime(w: ClaimWorld, events: seq<ClaimEvent>, a: Attempt) returns (n: nat)
    requires a !in w.flying && a in RunClaims(w, events).flying
    ensures n < |events| && events[n] == Begin(a) && MayBeDecided(RunClaims(w, events[..n]), a)
    decreases |events|
  {
    var next := NextClaim(w, events[0]);
    if a in next.flying {
      n := 0;
      assert events[..0] == [];
    } else {
      n := DecisionsBeginInTime(next, events[1..], a);
      assert events[..n + 1][0] == events[0] && events[..n + 1][1..] == events[1..][..n];
      n := n + 1;
    }
  }

  /** What each decision in flight read is still there, and the ids of its new grants are still free. */
  predicate ReadsHold(w: ClaimWorld) {
    && (forall a :: a in w.flying ==> GrantsLast(a.read, w.s.grants))
    && (forall a, g :: a in w.flying && g in w.s.grants ==> g.0 != a.source)
    && (forall a :: a in w.flying ==> w.flying[a] == 1)
    && (forall a, b :: a in w.flying && b in w.flying && a.source == b.source ==> a == b)
  }

  lemma CommitLastsGrants(s: TrialState, a: Attempt)
    ensures GrantsLast(s.grants, Committed(s, a).grants)
    ensures forall g :: g in Committed(s, a).grants && g !in s.grants ==> g.0 == a.source
  {
    if Succeeds(s, a) && a.verdict.Approve? {
      forall g | g in s.grants ensures g !in NewGrants(a, |PostClaimCapabilities(a.trial)|) {
      }
    }
  }

  lemma GrantsLastTransits(one: map<GrantId, CapabilityGrant>, two: map<GrantId, CapabilityGrant>, three: map<GrantId, CapabilityGrant>)
    requires GrantsLast(one, two) && GrantsLast(two, three)
    ensures GrantsLast(one, three)
  {
  }

  lemma StepKeepsReads(w: ClaimWorld, e: ClaimEvent)
    requires ReadsHold(w) && LawfulStep(w, e)
    ensures ReadsHold(NextClaim(w, e))
  {
    StepLastsGrants(w, e);
    StepKeepsSources(w, e);
    if e.Commit? && e.attempt in w.flying {
      CommitLastsGrants(w.s, e.attempt);
    }
  }

  lemma StepKeepsSources(w: ClaimWorld, e: ClaimEvent)
    requires ReadsHold(w) && LawfulStep(w, e)
    ensures var next := NextClaim(w, e);
            && (forall a :: a in next.flying ==> next.flying[a] == 1)
            && forall a, b :: a in next.flying && b in next.flying && a.source == b.source ==> a == b
  {
  }

  lemma StepLastsGrants(w: ClaimWorld, e: ClaimEvent)
    requires ReadsHold(w) && LawfulStep(w, e)
    ensures forall a :: a in NextClaim(w, e).flying ==> GrantsLast(a.read, NextClaim(w, e).s.grants)
  {
    var next := NextClaim(w, e);
    if e.Commit? && e.attempt in w.flying {
      CommitLastsGrants(w.s, e.attempt);
    }
    assert GrantsLast(w.s.grants, next.s.grants);
    forall a | a in next.flying ensures GrantsLast(a.read, next.s.grants) {
      if a in w.flying {
        GrantsLastTransits(a.read, w.s.grants, next.s.grants);
      }
    }
  }

  lemma {:induction false} RunKeepsReads(w: ClaimWorld, events: seq<ClaimEvent>)
    requires ReadsHold(w) && LawfulRun(w, events)
    ensures ReadsHold(RunClaims(w, events))
    decreases |events|
  {
    if events != [] {
      StepKeepsReads(w, events[0]);
      RunKeepsReads(NextClaim(w, events[0]), events[1..]);
    }
  }

  /** The state after an approval, from the one before it. */
  predicate IsExactResult(s: TrialState, t: TrialState, a: Attempt) {
    && ActiveCapabilities(t, a.id) == PostClaim(a) + BetweenCapabilities(s, a)
    && (forall g :: g in ActiveGrants(t, a.id) && g !in Unread(s, a) ==> IsClaimedGrant(a, t.grants[g]) && GrantOrganization(t.grants[g]) == Some(a.org))
    && forall g :: g in s.grants && g !in ReadActive(a) ==> g in t.grants && t.grants[g] == s.grants[g]
  }

  lemma CommittedApprovalIsExact(w: ClaimWorld, a: Attempt)
    requires ReadsHold(w) && a in w.flying && a.verdict.Approve? && CanApprove(w.s, a)
    ensures IsExactResult(w.s, NextClaim(w, Commit(a)).s, a)
  {
    ReadsAreStillThere(w, a);
    ApprovedIsExact(w.s, a);
    CommitApproves(w, a);
  }

  lemma CommitApproves(w: ClaimWorld, a: Attempt)
    requires a in w.flying && a.verdict.Approve? && CanApprove(w.s, a)
    ensures NextClaim(w, Commit(a)).s == Approved(w.s, a)
  {
  }

  lemma ApprovedIsExact(s: TrialState, a: Attempt)
    requires CanApprove(s, a) && ReadStillThere(s, a)
    ensures IsExactResult(s, Approved(s, a), a)
  {
    ApprovalIsExact(s, a);
  }

  /** So every approval that commits in a run starting with none in flight has the exact result. */
  lemma EveryApprovalIsExact(w: ClaimWorld, events: seq<ClaimEvent>, a: Attempt)
    requires w.flying == multiset{} && LawfulRun(w, events)
    requires a in RunClaims(w, events).flying && a.verdict.Approve? && CanApprove(RunClaims(w, events).s, a)
    ensures IsExactResult(RunClaims(w, events).s, NextClaim(RunClaims(w, events), Commit(a)).s, a)
  {
    RunKeepsReads(w, events);
    CommittedApprovalIsExact(RunClaims(w, events), a);
  }

  lemma ReadsAreStillThere(w: ClaimWorld, a: Attempt)
    requires ReadsHold(w) && a in w.flying
    ensures ReadStillThere(w.s, a)
  {
    forall n | n in MissingNumbers(a, |PostClaimCapabilities(a.trial)|) ensures (a.source, n) !in a.read {
      assert (a.source, n) in a.read ==> (a.source, n) in w.s.grants;
    }
  }
}
