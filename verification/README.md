# Agent Mail: a verified model

This project models, in Dafny, the parts of Agent Mail where mistakes are hardest to see, and proves
what they promise for all inputs and all runs.

* **Grant authority.** Mailbox, system and capability grants are compiled into a rule list
  (`ability.dfy`), checked before every operation (`authorization.dfy`), and changed by replacement,
  enrollment, approval and revocation (`grant_replacement.dfy`, `enrollment.dfy`, `approval.dfy`,
  `revocation.dfy`, `agent_access.dfy`) as single writes on a store (`grant_writes.dfy`).
  `delegation.dfy` lets any number of those operations interleave with passing time, each reading and
  checking first and writing later; `races.dfy` says exactly what such writes can do to each other.
* **Trials.** Starting (`trial_start.dfy`), claiming (`trial_claim.dfy`) and sending under a quota
  (`trial_quota.dfy`), each as one operation on its rows and as a machine over every interleaving.
* **The inbound archive.** The worker's keys and announcement against the backend's separately written
  check (`archive.dfy`), with the regular expressions both sides build (`regex.dfy`).
* **The command line.** Argument parsing, the disclosure check and its identity terms, reply recipients
  and device-login polling.
* **The admin console's pages** (`pagination.dfy`) and the recipient allow-lists (`recipient_policy.dfy`).

Operations that change state step by step are methods with loops on a store object or on local
variables, and are proved against functions of the state before; what the system promises is proved
about those functions and about runs of them. `dafny verify dfyconfig.toml` checks everything.

## Reading notes

* A rule whose actions include `manage` answers every action on its subject, as the authorization
  library documents. Claims about who may grant what are made on the question `manage AgentGrant`.
* A session's ability is taken to be built from all grants stored at the time of its check. The code
  loads only those of the session's own principal and organization; `Ability.AnswersStayInside` is why
  that makes no difference to questions about that organization.
* A transaction, and every single update, is one atomic step. Between the read of an operation and its
  writes anything may happen.
* Ids are unequal unless the same; clocks never run backwards; expiry compares a stored time with the
  clock, and a grant without an expiry never lapses.
* A field of a constraints object is missing, refused, or accepted with a value: the verdicts of the
  schema library on addresses, domains and patterns are part of the value. The values the schema
  itself rewrites are taken to be accepted again.
* Where a property fails of the code, a theorem says exactly when it holds and a concrete run shows that
  it can fail. From one moment to the next authority appears exactly when a write in flight takes effect
  (`Races.BecomesLiveExactly`, `Races.NothingAppearsExactly`), so authority that lapsed or was revoked
  can come back (`Races.LapsedAuthorityCanReturn`, `Races.LateUpsertUndoesRevocation`). An approval
  activates a grant under whichever organization bound it last (`Races.ActivatedUnderLastBinding`,
  `Races.ActivatedForApproverExactly`), which may not be the approver's
  (`Races.ActivatedUnderAnotherOrganization`). A revocation leaves exactly the capability grants it did
  not read (`Revocation.LeftInOrganizationExactly`), such as one approved in between
  (`Revocation.GrantApprovedInBetweenSurvives`). The polling bound and the
  spacing depend on the device code alone (`DevicePolling.BoundHoldsExactly`,
  `DevicePolling.SpacingHoldsExactly`), and enormous intervals break them
  (`DevicePolling.OverflowBreaksTheBound`, `DevicePolling.SlowDownWrapsTheInterval`).
* Also found: a grant that manages messages sends without regard to its allow-list
  (`Ability.SendingIsAllowedExactly`); `paperclip-tool` is the one command whose JSON flag the error path
  misses (`ArgumentParser.PaperclipToolDisagrees`); an interval sent along with `slow_down` is never read
  (`DevicePolling.ServerIntervalIsNeverRead`); `*` and `?` of a recipient pattern take no line break
  (`RecipientPolicy.CompiledGlobIsExact`, `RecipientPolicy.LineBreaksEscapeTheGlob`).

## Model

| member | source | states |
|---|---|---|
| `Capabilities.MailboxBundlesPartition` | packages/db/src/agent-mail-permission-schema.ts:371-376 | Every `email.message.` capability lies in exactly one mailbox-grant bundle, and no other capability lies in any |
| `Grants.BoundReadsBack` | packages/backend/src/agent-access/service.ts:2236-2253 | Binding request constraints to an organization and parsing them again gives that organization, the lower-cased mailbox and the normalised allow-lists |
| `Grants.ParsesExactly` | packages/db/src/agent-mail-permission-schema.ts:334-366 | What constraints parse: for an organization-wide capability the object naming the organization and nothing else; for a mailbox one an object with both names and no refused or unknown field, and with what values |
| `Grants.RequestsExactly` | packages/backend/src/agent-access/service.ts:2236-2253 | What can be bound: nothing or an empty object, or for a mailbox an object that names one, no organization, and no refused or unknown field |
| `Ability.BuildAgentMailAbility` | packages/backend/src/agent-mail/permission-policy.ts:97-235 | The builder's loops yield a rule exactly when an administrator's role, or a live, supported document of this principal, contributes it |
| `Ability.AbilityIsWhatAuthoritiesUnlock` | packages/backend/src/agent-mail/permission-policy.ts:97-235 | For a principal who does not administer the organization: whatever it is allowed there, an authority it holds unlocks; and apart from messages, whatever an authority unlocks (by a separately written table) it is allowed, whichever of the three tables confers it |
| `Ability.AbilityIsExactly` | packages/backend/src/agent-mail/permission-policy.ts:97-235 | Whoever asks, and besides messages: allowed is exactly what a separately written table allows the session of an owner or administrator in its own organization, and what an authority the principal holds unlocks |
| `Ability.SystemRulesUnlock` | packages/backend/src/agent-mail/permission-policy.ts:184-220 | A system permission's rules are exactly those of its capability granted directly, and unlock the same |
| `Ability.ManagingIsHolding` | packages/backend/src/agent-mail/permission-policy.ts:146-233 | Who does not administer the organization may manage a grant (organization, mailbox, capability) if and only if it holds that authority live in one of the three tables |
| `Ability.MessagesAreAllowedExactly` | packages/backend/src/agent-mail/permission-policy.ts:281-361 | Any action on a message of a mailbox is allowed if and only if the session administers the organization, or some live mailbox or capability grant there is for the action or manages (one to send or reply only with an open or covering allow-list), or the principal may read all mailboxes and the action reads |
| `Ability.SendingIsAllowedExactly` | packages/backend/src/agent-mail/permission-policy.ts:146-171 | Sending and replying: besides who administers the organization, exactly who has a live grant there for it or one that manages; a constrained grant to send or reply must cover every recipient, a managing one never looks at its allow-list |
| `Ability.CapabilityGrantAnswers` | packages/backend/src/agent-mail/permission-policy.ts:281-361 | A mailbox-scoped capability grant answers about messages exactly when it is live, on that mailbox, for the action or managing, and, where it sends or replies, its allow-list is open or covers every recipient |
| `Ability.ClaimingIsAllowedExactly` | packages/backend/src/agent-access/trial-service.ts:756-761 | Claiming in an organization is allowed exactly to its owners and administrators, and to holders of agent management or agent claiming there |
| `Ability.AnswersStayInside` | packages/backend/src/agent-mail/permission-policy.ts:440-442 | Answers about an organization depend only on the principal's live documents of that organization |
| `Ability.NothingWithoutDocuments` | packages/backend/src/agent-mail/permission-policy.ts:97-235 | Without a live document there, and without administering it, every question about an organization is answered no |
| `Authorization.GrantCheckMeansHolding` | packages/backend/src/agent-mail/admin-service.ts:2314-2340 | The check on a whole grant passes exactly when the grant's name is known and every capability of its bundle is held |
| `Authorization.CheckedMailboxGrantIsHeld` | packages/backend/src/agent-mail/admin-service.ts:2300-2312 | Whoever passes the check on a mailbox grant already holds everything the grant would confer |
| `Authorization.CheckedPermissionIsHeld` | packages/backend/src/agent-mail/admin-service.ts:2365-2385 | The same for a system permission |
| `Authorization.AdministratorsPassEveryCheck` | packages/backend/src/agent-mail/permission-policy.ts:117-145 | An owner's or administrator's session passes the check on every grant of a known name, on any mailbox |
| `Authorization.AgentManagementMeansHolding` | packages/backend/src/agent-mail/admin-service.ts:2286-2298 | Managing agents is for who administers the organization and who holds that authority there, and for nobody else |
| `RecipientPolicy.PassesAreOneTranslation` | packages/backend/src/agent-mail/permission-policy.ts:488-496 | The three rewriting passes over a glob equal one translation per character |
| `RecipientPolicy.CompiledGlobIsExact` | packages/backend/src/agent-mail/permission-policy.ts:483-496 | For every string: the compiled expression is well formed and accepts it exactly when the glob matches it with neither `*` nor `?` taking a line break |
| `RecipientPolicy.CompiledGlobMeansGlob` | packages/backend/src/agent-mail/permission-policy.ts:483-496 | So on one-line strings it accepts exactly what the glob matches |
| `RecipientPolicy.SatisfiedExactlyWhenCovered` | packages/backend/src/agent-mail/permission-policy.ts:448-481 | An allow-list allows a message exactly when it is empty, or the message has recipients, all parse, and each is covered by name, domain or glob |
| `GrantWrites.Database.Execute` | packages/backend/src/agent-mail/admin-service.ts:1141-1178 | Each single write (upsert, insert under the unique index, update by id, compare-and-set) leaves every document it does not name as it was, deletes nothing, and leaves the named one live until the written expiry, closed, rebound only while pending, or as it was stored before an insert |
| `GrantReplacement.NormalizeAgentMailboxGrantInputs` | packages/backend/src/agent-mail/admin-service.ts:2584-2605 | One entry per named account, each with every capability any input asks for it, once and in order; fails exactly when an account does not parse |
| `GrantReplacement.EveryOrderReplaces` | packages/backend/src/agent-mail/admin-service.ts:1141-1178 | Executing the concurrent writes in any order, with any repetition, reaches one and the same state |
| `GrantReplacement.ReplacementIsExact` | packages/backend/src/agent-mail/admin-service.ts:1101-1178 | That state holds, as active or pending, exactly the wanted (mailbox, capability) pairs after normalisation; no other principal or organization changes; repeating revokes and changes nothing |
| `GrantReplacement.ReplaceMailboxGrants` | packages/backend/src/agent-mail/admin-service.ts:1214-1311 | On the documents: the operation succeeds exactly when the session manages agents, the target was found, and the session's rules let it manage everything conferred by each open document no longer asked for and by each one asked for; then each of the former is revoked, each of the latter active for good, and no other document changes; otherwise nothing does |
| `GrantReplacement.ReplacingIsHolding` | packages/backend/src/agent-mail/admin-service.ts:1117-1140 | Whoever may replace grants without administering the organization holds every authority the replacement takes away or gives |
| `GrantReplacement.ReplaceAgentMailboxGrants` | packages/backend/src/agent-mail/admin-service.ts:1079-1178 | For an agent the target must exist and belong to the session's user, directly or through its host, or have an open document in the organization; the rest is the same, and its open pairs are then exactly the wanted ones |
| `GrantReplacement.SystemReplacementIsExact` | packages/backend/src/agent-mail/admin-service.ts:852-914 | The same exactness for system permissions |
| `GrantReplacement.ReplaceSystemPermissions` | packages/backend/src/agent-mail/admin-service.ts:1335-1435 | The same, document by document, for system permissions |
| `GrantReplacement.ReplacingSystemIsHolding` | packages/backend/src/agent-mail/admin-service.ts:862-878 | And the same of what a replacement of permissions takes away or gives |
| `GrantReplacement.ReplaceAgentSystemPermissions` | packages/backend/src/agent-mail/admin-service.ts:829-914 | The same for an agent: on success it has exactly the named permissions open |
| `Delegation.ChecksExactly` | packages/backend/src/agent-mail/admin-service.ts:2314-2385 | What replacement, initial grants and enrollment requests check: that the session's rules let it manage every capability each grant would confer or have taken away, on its own mailbox or on the organization |
| `Delegation.IssuedIsLive` | packages/backend/src/agent-mail/admin-service.ts:2314-2340 | Every write an operation goes on to make confers only authority its session held when it was checked |
| `Delegation.InitialGrantsReachTheAgent` | packages/backend/src/agent-mail/admin-service.ts:2541-2573 | Each initial grant, written where none was stored, confers its whole bundle on the agent it is for |
| `Delegation.WorkMakesLive` | packages/backend/src/agent-mail/admin-service.ts:1141-1178 | Committing work makes an authority live that was not if and only if the work takes effect and confers it |
| `Delegation.TakingUpAddsNothing` | packages/backend/src/agent-mail/enrollment-grants.ts:75-211 | Applying an enrollment request adds nothing to what the pending request already promised, with the same expiry |
| `Delegation.StepCreatesNoAuthority` | packages/backend/src/agent-mail/permission-policy.ts:146-233 | No step of any operation, of time, or of an agent asking for grants authorizes anything that was neither live nor in flight |
| `Delegation.DelegationCreatesNoAuthority` | packages/backend/src/agent-mail/admin-service.ts:1101-1178 | Over every interleaving of replacement, initial grants, enrollment, approval and revocation by sessions that do not administer the organization they act in, starting with nothing in flight: what is live at the end was live at the start |
| `Delegation.RunCreatesNoAuthority` | packages/backend/src/agent-access/service.ts:466-520 | The same with writes already in flight at the start: what ends up live or in flight was live or in flight |
| `Races.BecomesLiveExactly` | packages/backend/src/agent-mail/admin-service.ts:1114-1178 | A step makes live what was not live if and only if it commits work in flight that takes effect and confers it: an unexpired upsert, an insert of a missing document or request, an activation whose compare-and-sets match and whose lifetime has not passed |
| `Races.NothingAppearsExactly` | packages/backend/src/agent-mail/admin-service.ts:1114-1178 | Nothing can become live in the next step if and only if no such work in flight confers anything that is not live already |
| `Races.LateUpsertUndoesRevocation` | packages/backend/src/agent-mail/admin-service.ts:1944-1976 | Whatever the state: an unexpired upsert in flight outlives the revocation of its grant |
| `Races.LapsedAuthorityCanReturn` | packages/backend/src/agent-mail/admin-service.ts:1114-1178 | A run from nothing in flight, its checks passing, in which authority lapses and comes back |
| `Enrollment.ApplyForHost` | packages/backend/src/agent-mail/enrollment-grants.ts:75-88 | The request is any pending one of the agent's host; with none, nothing changes |
| `Enrollment.ApplyForAgent` | packages/backend/src/agent-mail/enrollment-grants.ts:88-211 | One transaction claims the request and writes exactly its grants, or marks it expired, or changes nothing |
| `Enrollment.WriteRequestedGrants` | packages/backend/src/agent-mail/enrollment-grants.ts:122-184 | The de-duplicated upserts are exactly the request's mailbox and system grants with its expiry |
| `Enrollment.AppliedExactly` | packages/backend/src/agent-mail/enrollment-grants.ts:122-184 | An applied request's documents are active with its expiry, belong to the agent and its organization, and nothing else changes |
| `Enrollment.RevokeEnrollment` | packages/backend/src/agent-mail/admin-service.ts:2008-2090 | A pending request is revoked exactly when the session manages agents, the request belongs to its organization and every grant it asks for is manageable; its unclaimed host is revoked with it |
| `Enrollment.CheckRequest` | packages/backend/src/agent-mail/admin-service.ts:2342-2363 | The loops pass exactly when every requested grant and permission is manageable, which is the flag shown for a pending enrollment |
| `Enrollment.WinningWritesExactly` | packages/backend/src/agent-mail/enrollment-grants.ts:104-184 | The step that claims a request reaches exactly the applied state |
| `Enrollment.OtherStepsWriteNoGrants` | packages/backend/src/agent-mail/enrollment-grants.ts:75-120 | A commit that does not claim its request writes no grant |
| `Enrollment.ConsumedAtMostOnce` | packages/backend/src/agent-mail/enrollment-grants.ts:104-120 | Over every interleaving of reads, commits and aborts of applies and revokes, a request leaves pending at most once and never changes again; its grants are written once if it ends applied and never otherwise |
| `Approval.SelectionIsWhatWasAsked` | packages/backend/src/agent-access/service.ts:1403-1456 | The chosen grants are exactly the approvable pending ones asked for; with capabilities named their set equals it and lies inside a non-empty approval request; it fails exactly when that is impossible |
| `Approval.BoundBelongsToOrganization` | packages/backend/src/agent-access/service.ts:1458-1474 | Whatever could be approved for an organization reads back as that organization once bound, on the same mailbox |
| `Approval.BindToOrganization` | packages/backend/src/agent-access/service.ts:1476-1509 | Binding succeeds exactly when every grant can be bound and the unbound ones are still pending; it changes only constraints of pending grants, and on success every unbound one is stored bound to the organization |
| `Approval.ApplyApproved` | packages/backend/src/agent-access/service.ts:522-650 | The transaction succeeds exactly when every compare-and-set matches, activating grants, agent and host, and otherwise changes nothing; each grant is then live for as many seconds as the approver names, or else for its capability's positive lifetime, or else for good |
| `Approval.DecideApproval` | packages/backend/src/agent-access/service.ts:452-520 | On the documents: a decision succeeds if and only if the service accepted, the session manages agents, every open grant of the agent is the organization's or may be bound to it, what is asked for lies within the request and is all pending, the session's rules let it manage each chosen grant, and agent and host can be activated; then exactly the chosen grants change: they are bound to the organization as they were asked for and live as long as approved; a failed one changes no status |
| `Races.ActivatedUnderLastBinding` | packages/backend/src/agent-access/service.ts:537-557 | Over every interleaving, an activation that commits makes each of its grants active as a grant of the organization of the last binding applied to it |
| `Races.StaysBoundExactly` | packages/backend/src/agent-access/service.ts:1476-1509 | A grant bound to an organization reads back as it after a run if and only if no later binding was applied or the last one was to it again; unless that organization binds again, if and only if no other organization's binding was applied |
| `Races.ActivatedForApproverExactly` | packages/backend/src/agent-access/service.ts:476-520 | An approver's checks pass, anything happens, its binding of a chosen grant is applied, anything happens, its activation commits: the grant is then active for the approver's organization under exactly that condition on the bindings in between |
| `Races.ActivatedUnderAnotherOrganization` | packages/backend/src/agent-access/service.ts:466-520 | A run from nothing in flight in which the checks of two approvers of different organizations pass, both bind, and the grant is activated as the second's |
| `Revocation.RevokeAgent` | packages/backend/src/agent-mail/admin-service.ts:1853-1996 | On the documents: it succeeds exactly when the agent exists, the session manages agents, some open document of the agent speaks for the organization and the session's rules let it manage all such; then exactly those are revoked, the record is revoked exactly when no open document speaks for another organization, and the agent is answered no there at every later time while every other answer stays |
| `Revocation.RevocationRemovesExactly` | packages/backend/src/agent-mail/admin-service.ts:1871-1980 | At any later time every question about the organization is answered no, every other organization's answers are unchanged, and when the record was revoked too nothing is answered anywhere |
| `Revocation.LeftInOrganizationExactly` | packages/backend/src/agent-mail/admin-service.ts:1944-1980 | With other steps between read and writes: something about the organization is still answered yes if and only if some capability grant there outside the ids read is live, and the grants still manageable are exactly those such grants confer |
| `Revocation.HeldAfterRevokingExactly` | packages/backend/src/agent-mail/admin-service.ts:1944-1980 | What the agent still holds there is exactly what those missed live grants confer |
| `Revocation.OtherAnswersStay` | packages/backend/src/agent-mail/admin-service.ts:1944-1980 | Answers elsewhere, and for every other principal, stay as they were |
| `AgentAccess.ListMailGrantsForAgents` | packages/backend/src/agent-access/service.ts:1542-1606 | The loops give each agent exactly its open mailbox and system grants in the organization |
| `AgentAccess.ShowRevocable` | packages/backend/src/agent-access/service.ts:2015-2047 | The view marks exactly the listed agents whose flag holds on their own documents |
| `AgentAccess.ListedExactly` | packages/backend/src/agent-access/service.ts:235-300 | The view lists exactly the agents the session's user owns, directly or through a host, or the session manages by an open grant there, that have a grant or a visible approval in the organization |
| `AgentAccess.FlagIsExact` | packages/backend/src/agent-access/service.ts:1041-1066 | For a listed agent the flag holds if and only if the session may see it, manages agents and manages every open document of it in the organization, and the record is neither revoked nor expired |
| `AgentAccess.RevokeAgent` | packages/backend/src/agent-access/service.ts:652-710 | On the documents: the revoke passes exactly under those conditions on session and documents, then revokes exactly the agent's open documents in the organization, and reports whether any other remains open |
| `AgentAccess.RevokeRemovesExactly` | packages/backend/src/agent-access/service.ts:681-710 | After it every question about the organization is answered no and other organizations' answers are unchanged |
| `Trials.PolicyStaysWithinConfiguration` | packages/backend/src/agent-access/trial-service.ts:826-862 | A trial's capabilities, before and after its claim, lie within the configured ones and are those requested; a request is refused exactly for a capability outside |
| `Trials.TrialGrantReadsBack` | packages/backend/src/agent-access/trial-service.ts:950-985 | A trial grant reads back as its organization and confers exactly its capability on its mailbox or organization |
| `TrialStart.TrialDatabase.CreateRows` | packages/backend/src/agent-access/trial-service.ts:220-316 | The transaction writes every row of the trial, or none, whichever write fails |
| `TrialStart.TrialDatabase.StartTrial` | packages/backend/src/agent-access/trial-service.ts:150-346 | A start is refused, ends with all rows, is cleaned up, or ends with the aggregate error, each if and only if the number of active unexpired trials, keys, provisioning, the transaction and the deletion say so; with all rows, trial, host, agent and a grant for each capability live for as many seconds as planned |
| `TrialStart.CapacityHoldsUnderRaces` | packages/backend/src/agent-access/trial-service.ts:879-898 | With at most k starts at once the active unexpired trials never exceed max + k - 1 in any interleaving, and with k = 1 never max |
| `TrialStart.CapacityBoundIsReached` | packages/backend/src/agent-access/trial-service.ts:157-159 | For every max and k at least 1 some run reaches max + k - 1, so the bound is exact |
| `TrialStart.NothingLeaksSilently` | packages/backend/src/agent-access/trial-service.ts:317-346 | Over every run each ended start has mailbox and all rows, or neither, or no row and the aggregate error; mailboxes leaked equal the aggregate errors less the deletions that worked although reported failed |
| `TrialStart.LeakedAreRaised` | packages/backend/src/agent-access/trial-service.ts:195-207 | The mailboxes that belong to no trial and no start in flight are exactly those of the starts that raised the aggregate error and were not deleted |
| `TrialClaim.Decide` | packages/backend/src/agent-access/trial-service.ts:439-600 | A decision commits exactly when its compare-and-sets match, and otherwise changes nothing |
| `TrialClaim.OnlyApprovalChangesAccess` | packages/backend/src/agent-access/trial-service.ts:439-455 | A denial and an approval that does not match leave trial, host, agent and grants unchanged |
| `TrialClaim.ApprovalIsExact` | packages/backend/src/agent-access/trial-service.ts:497-554 | After an approval the agent's active capabilities are the post-claim ones and those granted after the decision's read; they are exactly the post-claim ones if and only if the latter are among them; every active grant that was read belongs to the claiming organization and ends with the trial |
| `TrialClaim.ClaimKeepsExactly` | packages/backend/src/agent-access/trial-service.ts:1047-1053 | On the trial's own fields: with nothing granted in between, a capability is active after an approval if and only if the trial's post-claim list names it, or has none and the trial had it; each is the claiming organization's and ends with the trial, and every other one is revoked |
| `TrialClaim.ClaimedTrialHasWhatWasRequested` | packages/backend/src/agent-access/trial-service.ts:150-600 | From policy to claim: a trial started under a request naming post-claim capabilities ends its claim with exactly those, for the claiming organization and until it ends; every other capability it started with is revoked |
| `TrialClaim.SucceedsExactly` | packages/backend/src/agent-access/trial-service.ts:439-600 | A denial commits exactly while the claim is pending; an approval exactly while claim, trial, host, agent and every grant read as active are still so |
| `TrialClaim.DecisionsBeginInTime` | packages/backend/src/agent-access/trial-service.ts:412-437 | Over every interleaving, each decision began while its claim was pending and unexpired and its trial active and unexpired |
| `TrialClaim.EveryApprovalIsExact` | packages/backend/src/agent-access/trial-service.ts:425-554 | The same result for every approval that commits in any interleaving of decisions with other changes to grants, agents and hosts |
| `TrialClaim.DecidedAtMostOnce` | packages/backend/src/agent-access/trial-service.ts:775-794 | Over every interleaving at most one decision of a claim commits, and the trial record changes only by an approval |
| `TrialQuota.TrialRow.ConsumeSendQuota` | packages/backend/src/agent-mail/service.ts:182-256 | One send is counted, refused, or not subject to a quota, with the window reset first when a day has passed |
| `TrialQuota.QuotaHoldsUnderRaces` | packages/backend/src/agent-mail/service.ts:200-256 | However sends interleave, those counted never exceed what was left of the total, nor a day's limit for each day since the window began |
| `Archive.PrefixSurvivesExactlyForSegments` | packages/cloudflare-email-worker/src/lib.ts:199-233 | A prefix made by the backend passes the worker's normalisation unchanged if and only if the organization id is a non-blank, trimmed, slash-free segment |
| `Archive.PatternMeansShape` | packages/backend/src/agent-mail/ingest.ts:238-251 | The backend's compiled pattern accepts a key exactly when it has the dated bundle shape |
| `Archive.KeysMatchUntil9999` | packages/backend/src/agent-mail/ingest.ts:238-251 | Keys the worker lays for a date match the backend's pattern if and only if the year has four digits |
| `Archive.WorkerAndBackendAgree` | packages/backend/src/agent-mail/ingest.ts:201-236 | For a matching deployment every announcement of the worker is accepted unchanged by the backend, exactly until the year 9999 |
| `Archive.AcceptedExactly` | packages/backend/src/agent-mail/ingest.ts:201-251 | Whatever is announced: the backend accepts exactly what comes over its own connection, names its own organization, prefix, domain record and domain, and has three keys of the dated shape; it forwards that with its own organization |
| `Archive.OthersAreRefused` | packages/backend/src/agent-mail/ingest.ts:201-236 | What one deployment's worker announces is accepted by a backend exactly when they share connection, organization, domain record and domain, until the year 9999 |
| `Archive.NormalizedExactly` | packages/cloudflare-email-worker/src/lib.ts:199-233 | The worker accepts as its prefix exactly six plain segments ending in `mail/inbound`, naming its organization and domain, with any slashes and blanks around them |
| `Archive.PrefixIsMadeExactly` | packages/backend/src/agent-mail/runtime-projection.ts:38-43 | The backend makes a prefix exactly for a domain of two or more valid labels, in lower case whatever its case |
| `Archive.DistinctIngestsDisjointKeys` | packages/cloudflare-email-worker/src/lib.ts:235-248 | Distinct slash-free ingest ids give disjoint key sets, whatever the prefixes and dates |
| `Archive.KeysOfCreatedPrefix` | packages/backend/src/agent-mail/runtime-projection.ts:38-43 | Under a prefix made by the backend the worker lays its keys without changing it |
| `Regex.EscapedTextIsLiteral` | packages/backend/src/agent-mail/ingest.ts:291-293 | An escaped text, followed by anything but a quantifier, matches itself and nothing else |
| `ArgumentParser.ScanCommand` | apps/at-email-cli/internal/atemail/parser.go:179-330 | The index loop with its look-ahead reads exactly what the left-to-right scan reads |
| `ArgumentParser.TakeFlagValue` | apps/at-email-cli/internal/atemail/parser.go:796-809 | The option's value and the index it ends at, or the missing-argument error |
| `ArgumentParser.ScanIsTheGrammar` | apps/at-email-cli/internal/atemail/parser.go:392-794 | The scan accepts exactly the renderings of well-formed lines (switches, joined or separate options, words, a terminator and its tail), and reads each as its meaning |
| `ArgumentParser.ScanReadsLine` | apps/at-email-cli/internal/atemail/parser.go:431-468 | Round trip: rendering a well-formed line and scanning it gives back its meaning |
| `ArgumentParser.ParseArgs` | apps/at-email-cli/internal/atemail/parser.go:88-132 | On success a name of the command stands first, the words after it are the rendering of a well-formed, complete line, and the arguments are that line's words, settings and switches; the JSON flag is set exactly when asked for before any `--` (always for `paperclip-tool`); it fails exactly when there is no such reading |
| `ArgumentParser.PlainLinesParse` | apps/at-email-cli/internal/atemail/parser.go:88-152 | Every command but `send` parses from any of its names and as many plain words as it wants |
| `ArgumentParser.HelpIsAnswered` | apps/at-email-cli/internal/atemail/parser.go:88-160 | A help switch alone, after a group or after a command asks for that help |
| `ArgumentParser.TablesAgree` | apps/at-email-cli/internal/atemail/parser.go:179-794 | Which commands take which option and switch, against a table written the other way round |
| `ArgumentParser.PositiveNumerals` | apps/at-email-cli/internal/atemail/parser.go:811-820 | A positive number is accepted in any decimal numeral of it, with leading zeros and a plus, as long as it fits 64 bits |
| `ArgumentParser.PlainWordsExactly` | apps/at-email-cli/internal/atemail/parser.go:822-832 | A plain word has no leading dash, except for messages and searches where a dash and digits may stand |
| `ArgumentParser.ArgvRequestsJSON` | apps/at-email-cli/internal/atemail/main.go:229-242 | True exactly when `--json` stands after the first word and before any `--` |
| `ArgumentParser.ScanAgreesWithParser` | apps/at-email-cli/internal/atemail/main.go:229-242 | For every line that parses, other than as `paperclip-tool`, the parsed JSON flag equals the scan; `paperclip-tool` always parses to JSON |
| `ArgumentParser.PaperclipToolDisagrees` | apps/at-email-cli/internal/atemail/parser.go:134-152 | A concrete line on which that one command and the scan disagree |
| `ArgumentParser.ItemTokensAndJson` | apps/at-email-cli/internal/atemail/parser.go:834-839 | No well-formed option, value or word is `--`, and only the switch itself is `--json` |
| `Disclosure.NormalizationIsIdempotent` | apps/at-email-cli/internal/atemail/config.go:169-172 | Normalising twice changes nothing, and keeps the words |
| `Disclosure.WordsAreRuns` | apps/at-email-cli/internal/atemail/config.go:169-172 | The words of a text are the longest runs of letters and digits of its lower-case form without apostrophes |
| `Disclosure.PaddedSearchIsWordMatching` | apps/at-email-cli/internal/atemail/config.go:174-176 | Padded substring search of normalised texts holds exactly when the term's words are a contiguous run of the text's words |
| `Disclosure.CheckField` | apps/at-email-cli/internal/atemail/security.go:88-112 | A field passes exactly when no phrase and no term occurs in it as words, and otherwise the first one that does is named |
| `Disclosure.ValidateOutboundMessage` | apps/at-email-cli/internal/atemail/security.go:75-115 | The message passes exactly when no phrase and no identity term occurs, as words, in its subject or body; the subject is reported first |
| `IdentityTerms.IdentityCandidates` | apps/at-email-cli/internal/atemail/config.go:86-104 | The candidates of a value, each once: itself, its Matrix local part, and their words with and without a short first word |
| `IdentityTerms.LocalpartExactly` | apps/at-email-cli/internal/atemail/config.go:119-126 | The local part is what stands between a leading `@` and the first colon, and there is none without both |
| `IdentityTerms.RunsAreRuns` | apps/at-email-cli/internal/atemail/config.go:128-137 | The slug parts are the longest runs of letters and digits |
| `IdentityTerms.UsableMeans` | apps/at-email-cli/internal/atemail/config.go:139-167 | Of normal text, usable is what is not generic, has five characters besides spaces and a letter, and with twelve or more a letter beyond the hexadecimal ones |
| `IdentityTerms.BuildInternalIdentityTerms` | apps/at-email-cli/internal/atemail/config.go:62-84 | The terms stand for exactly the usable candidates of the configured variables, each normal form once per variable |
| `IdentityTerms.TermsCoverIdentities` | apps/at-email-cli/internal/atemail/config.go:62-84 | Dropping duplicates loses nothing: a text is clean of the terms if and only if it discloses no usable candidate at all |
| `ReplyRecipients.ExtractAddresses` | apps/at-email-cli/internal/atemail/mail.go:99-122 | The addresses of objects first and of parsed headers after, trimmed and non-empty |
| `ReplyRecipients.AppendUniqueAddress` | apps/at-email-cli/internal/atemail/mail.go:143-154 | An address is appended exactly when it is usable and its key is new, and the key is then known |
| `ReplyRecipients.AppendAll` | apps/at-email-cli/internal/atemail/mail.go:82-84 | A whole list keeps exactly its first occurrences, in order, and the known keys pass on to the next list |
| `ReplyRecipients.ResolveReplyRecipients` | apps/at-email-cli/internal/atemail/mail.go:68-97 | No address twice (ignoring case), none of the mailbox's own, every other target in To, with reply-all every other original recipient in To or Cc, in first-seen order; fails exactly when nobody else could be written to |
| `DevicePolling.PollDeviceToken` | apps/at-email-cli/internal/atemail/auth.go:329-376 | The loop's outcome and the requests it sends equal the specified run, turn by turn |
| `DevicePolling.OutcomeIsLastReply` | apps/at-email-cli/internal/atemail/auth.go:337-376 | A run is approved, denied or failed if and only if its last request was answered so, and nothing before ended it |
| `DevicePolling.FirstInterval` | apps/at-email-cli/internal/atemail/auth.go:329-333 | The first interval is the code's, in seconds, or five seconds |
| `DevicePolling.BoundHoldsExactly` | apps/at-email-cli/internal/atemail/auth.go:329-364 | Whatever is answered, slow-downs included, at most ExpiresIn + 1 requests are sent, if and only if the lifetime holds no more than ExpiresIn initial intervals and a first slow-down within it cannot wrap the interval: a condition on the code alone |
| `DevicePolling.OrdinaryCodesKeepPace` | apps/at-email-cli/internal/atemail/auth.go:329-358 | Every code whose interval and five seconds more fit a duration keeps that bound and the spacing |
| `DevicePolling.OverflowBreaksTheBound` | apps/at-email-cli/internal/atemail/auth.go:330-335 | A concrete interval that overflows the duration type breaks the bound |
| `DevicePolling.SpacingHoldsExactly` | apps/at-email-cli/internal/atemail/auth.go:330-358 | Whatever is answered, each request is spaced by the first interval plus five seconds for every slow-down before it, if and only if a first slow-down within the lifetime cannot wrap the interval: a condition on the code alone |
| `DevicePolling.SpacingGrows` | apps/at-email-cli/internal/atemail/auth.go:352-358 | The spacing of any run in which no interval is supplied, under that condition at its start |
| `DevicePolling.SlowDownWrapsTheInterval` | apps/at-email-cli/internal/atemail/auth.go:352-358 | A concrete code whose second request, after one slow-down, is sent at a negative interval, without any wait |
| `DevicePolling.ServerIntervalIsNeverRead` | apps/at-email-cli/internal/atemail/auth.go:642-653 | Whatever intervals the slow-downs name, none is read: two exchanges that differ only in them run alike |
| `Pagination.PagesPartition` | packages/backend/src/agent-mail/admin-service.ts:1700-1722 | Pages one to the last hold the list once and in order, and any later page is the last one |
| `Pagination.PagesAreFull` | packages/backend/src/agent-mail/admin-service.ts:1700-1722 | Every page but the last is full, and a page is empty only for an empty list |
| `Pagination.WalkingShowsEverythingOnce` | packages/backend/src/agent-mail/admin-service.ts:1608-1698 | For any requested page size, walking a section shows every matching record once and in order, in the agents section separately for agents, principals and pending enrollments |
| `Pagination.FilterKeepsMatching` | packages/backend/src/agent-mail/admin-service.ts:1608-1698 | The filter keeps the record of every matching position and of no other, in order |
| `Pagination.RequestedSizes` | packages/backend/src/agent-mail/admin-service.ts:1842-1851 | A page size asked for is used between one and a hundred, rounded down, beyond that the nearer of the two, and twenty-five without |
| `Pagination.PastTheEndIsTheLastPage` | packages/backend/src/agent-mail/admin-service.ts:1842-1851 | Any requested page number gives the page it names or the last, and the view says which |

## Left out

- Delegation.DelegationCreatesNoAuthority: compares authority by organization, mailbox and capability; recipient allow-lists are not compared, and trial steps and administrators are excluded, as both create authority on purpose.
- Delegation.DelegationCreatesNoAuthority: an operation's writes may be made in any order, so an approval may activate before it binds; the code's order is one of those covered.
- Approval.DecideApproval: the answer of the authentication service is a parameter, and its own writes to the approval request are not modelled; nor is who may see the agent, which only lets fewer decisions through.
- AgentAccess.RevokeAgent: whether the authentication service then retires the agent is left to the caller; the result says whether access remains.
- AgentAccess.FlagIsExact: which approvals are visible in the view is a parameter.
- GrantReplacement.ReplaceMailboxGrants: looking up an API key or OAuth client in the organization is a parameter (`found`), here and in `ReplaceSystemPermissions`; for an agent target the look-up is modelled.
- GrantReplacement.NormalizeAgentMailboxGrantInputs: the account parser is a parameter, and the order of the entries (by locale) is any order.
- TrialStart.NothingLeaksSilently: counts mailboxes whose user id the mail server returned; one it made without returning an id is counted apart, as nothing could delete it.
- TrialStart.TrialDatabase.StartTrial: admission tokens, random ids, key parsing and audit entries are not modelled; whether the keys are accepted is a parameter.
- TrialClaim.EveryApprovalIsExact: assumes of other steps what random ids guarantee: grants are never deleted, keep their capability, and are not created under a decision's new ids.
- ArgumentParser.ScanIsTheGrammar: one table-driven scan stands for the per-command parsers; settings are kept as the list of those given, so defaults and the last-one-wins reading of a repeated option are not modelled.
- Archive.WorkerAndBackendAgree: parsing of the notification, hashes, signatures and the writing of objects are not modelled.
- Disclosure.ValidateOutboundMessage: the list of forbidden phrases is a parameter.
- DevicePolling.PollDeviceToken: the heartbeat line printed while waiting is not modelled; the outside world is a script of turns.
- Pagination.WalkingShowsEverythingOnce: what a query or status filter matches is a parameter.
- ReplyRecipients.ResolveReplyRecipients: the address-list parser of the mail library is a parameter.
- Lower-casing: the TypeScript side lowers only `A` to `Z` in the model; the Go side also the two other letters whose lower case is an ASCII letter (U+0130, U+212A). Other alphabets keep their case.
- Revoking single capability grants, the approval preview, forwarding groups, domains and mailbox accounts would add only easier members.
- HTTP handling, audit entries, logging, user interface, cryptography and the mail server are not part of this model.
