/** Trial agents: the rows a trial is made of, and the policy it starts under. */
module Trials {
  import opened Wrappers
  import opened Capabilities
  import opened Grants
  import Text

  datatype TrialStatus = TrialActive | TrialClaimed | TrialExpired | TrialRevoked

  datatype IntentStatus = IntentApproved | IntentDenied | IntentExpired | IntentPending

  /** A trial; its host, agent and claim intent are stored under the same id. */
  datatype Trial = Trial(
    capabilities: seq<Capability>, postClaim: seq<Capability>, mailbox: string, mailboxUser: string,
    expiresAt: Time, status: TrialStatus, claimedBy: Option<string>, claimedOrg: Option<string>)

  datatype Intent = Intent(expiresAt: Time, status: IntentStatus, approvedBy: Option<string>, targetOrg: Option<string>)

  /** Grants are numbered within the transaction that creates them. */
  type GrantId = (string, nat)

  datatype TrialState = TrialState(
    trials: map<string, Trial>,
    intents: map<string, Intent>,
    hosts: map<string, HostRecord>,
    agents: map<string, AgentRecord>,
    grants: map<GrantId, CapabilityGrant>)

  const NO_TRIALS := TrialState(map[], map[], map[], map[], map[])

  // --- policy -----------------------------------------------------------------------------------------------

  /** The members of the list, each at its first position. */
  function Unique(list: seq<Capability>): (r: seq<Capability>)
    ensures forall x :: x in r <==> x in list
    ensures forall i, j :: 0 <= i < j < |r| ==> r[i] != r[j]
  {
    if list == [] then []
    else
      var front, last := list[..|list| - 1], list[|list| - 1];
      assert list == front + [last];
      var rest := Unique(front);
      if last in front then rest else rest + [last]
  }

  /** What an empty or missing list of requested capabilities falls back to. */
  function Requested(list: Option<seq<Capability>>, fallback: seq<Capability>): seq<Capability> {
    if list.Some? && list.value != [] then list.value else fallback
  }

  function ResolveCapabilities(configured: seq<Capability>, requested: Option<seq<Capability>>, requestedPostClaim: Option<seq<Capability>>)
    : Result<(seq<Capability>, seq<Capability>), string>
  {
    var capabilities := Requested(requested, configured);
    var postClaim := Requested(requestedPostClaim, capabilities);
    if exists i :: 0 <= i < |capabilities + postClaim| && (capabilities + postClaim)[i] !in configured
    then Err("Requested trial capability is not allowed by server policy")
    else Ok((Unique(capabilities), Unique(postClaim)))
  }

  lemma RefusedExactly(configured: seq<Capability>, capabilities: seq<Capability>, postClaim: seq<Capability>)
    ensures (exists i :: 0 <= i < |capabilities + postClaim| && (capabilities + postClaim)[i] !in configured) <==>
              (exists c :: c in capabilities && c !in configured) || (exists c :: c in postClaim && c !in configured)
  {
    var both := capabilities + postClaim;
    assert forall c :: c in both <==> c in capabilities || c in postClaim;
    if c :| c in both && c !in configured {
      var i :| 0 <= i < |both| && both[i] == c;
    }
  }

  /** A trial never gets a capability the server is not configured for, before or after its claim. */
  lemma PolicyStaysWithinConfiguration(configured: seq<Capability>, requested: Option<seq<Capability>>, requestedPostClaim: Option<seq<Capability>>)
    ensures var r := ResolveCapabilities(configured, requested, requestedPostClaim);
            && (r.Ok? ==>
                  && (forall c :: c in r.value.0 + r.value.1 ==> c in configured)
                  && (configured != [] ==> r.value.0 != [] && r.value.1 != [])
                  && (requested.Some? && requested.value != [] ==> forall c :: c in r.value.0 <==> c in requested.value)
                  && (requestedPostClaim.Some? && requestedPostClaim.value != [] ==> forall c :: c in r.value.1 <==> c in requestedPostClaim.value))
            && (r.Err? <==>
                  || (requested.Some? && exists c :: c in requested.value && c !in configured)
                  || (requestedPostClaim.Some? && exists c :: c in requestedPostClaim.value && c !in configured))
  {
    var capabilities := Requested(requested, configured);
    var postClaim := Requested(requestedPostClaim, capabilities);
    RefusedExactly(configured, capabilities, postClaim);
    if configured != [] && ResolveCapabilities(configured, requested, requestedPostClaim).Ok? {
      assert capabilities[0] in Unique(capabilities) && postClaim[0] in Unique(postClaim);
    }
  }

  // --- rows --------------------------------------------------------------------------------------------------

  /** The constraints a trial grant is stored with: the organization, and for a message capability the mailbox. */
  function TrialConstraints(c: Capability, org: string, mailbox: string): RawConstraints {
    Constraints(Present(org), if IsMailboxScoped(c) then Present(mailbox) else Absent, Absent, Absent, Absent, false)
  }

  /** Such a grant reads back as that organization, and for a message capability as that mailbox. */
  lemma TrialGrantReadsBack(g: CapabilityGrant, c: Capability, org: string, mailbox: string)
    requires g.capability == Some(c) && g.constraints == TrialConstraints(c, org, mailbox)
    ensures GrantOrganization(g) == Some(org)
    ensures forall a: Authority :: CapabilityGrantConfers(g, a) <==> a == AuthorityOn(org, Some(Text.Lower(mailbox)), c)
  {
  }

  function PostClaimCapabilities(trial: Trial): seq<Capability> {
    Unique(if trial.postClaim != [] then trial.postClaim else trial.capabilities)
  }

  predicate IsActiveTrial(trial: Trial, now: Time) {
    trial.status == TrialActive && trial.expiresAt > now
  }

  function ActiveTrials(trials: map<string, Trial>, now: Time): set<string> {
    set id | id in trials && IsActiveTrial(trials[id], now)
  }
}
