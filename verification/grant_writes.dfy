/** The single atomic writes the grant operations are made of, and a store that executes them. */
module GrantWrites {
  import opened Wrappers
  import opened Capabilities
  import opened Grants

  datatype Write =
    | ActivateMailbox(mailboxKey: MailboxKey, expiresAt: Option<Time>)
    | CreateMailbox(mailboxKey: MailboxKey)
    | RevokeMailbox(mailboxKey: MailboxKey)
    | ActivateSystem(systemKey: SystemKey, expiresAt: Option<Time>)
    | RevokeSystem(systemKey: SystemKey)
    | RevokeCapability(id: string)
    | BindCapability(id: string, constraints: RawConstraints)
    | AddRequest(id: string, request: EnrollmentRequest)

  /** An upsert sets status, expiry and (empty) constraints whether or not the document was there. */
  function Activated(expiresAt: Option<Time>): GrantState {
    GrantState(Active, expiresAt, true)
  }

  function RevokedGrant(s: GrantState): GrantState {
    s.(status := Revoked)
  }

  /** One write: an upsert, an insert refused by the unique index, an update by id, or a compare-and-set. */
  function Apply(s: State, w: Write): State {
    match w
    case ActivateMailbox(k, expiresAt) => s.(mailbox := s.mailbox[k := Activated(expiresAt)])
    case CreateMailbox(k) => if k in s.mailbox then s else s.(mailbox := s.mailbox[k := Activated(None)])
    case RevokeMailbox(k) => if k in s.mailbox then s.(mailbox := s.mailbox[k := RevokedGrant(s.mailbox[k])]) else s
    case ActivateSystem(k, expiresAt) => s.(system := s.system[k := Activated(expiresAt)])
    case RevokeSystem(k) => if k in s.system then s.(system := s.system[k := RevokedGrant(s.system[k])]) else s
    case RevokeCapability(id) =>
      if id in s.capability && IsCapabilityGrantOpen(s.capability[id])
      then s.(capability := s.capability[id := s.capability[id].(status := GrantRevoked)]) else s
    case BindCapability(id, constraints) =>
      if id in s.capability && s.capability[id].status == GrantPending
      then s.(capability := s.capability[id := s.capability[id].(constraints := constraints)]) else s
    case AddRequest(id, request) => if id in s.requests then s else s.(requests := s.requests[id := request])
  }

  // --- what a write may change ---------------------------------------------------------------------------------

  predicate NamesMailbox(w: Write, k: MailboxKey) {
    (w.ActivateMailbox? || w.CreateMailbox? || w.RevokeMailbox?) && w.mailboxKey == k
  }

  predicate NamesSystem(w: Write, k: SystemKey) {
    (w.ActivateSystem? || w.RevokeSystem?) && w.systemKey == k
  }

  predicate NamesCapability(w: Write, id: string) {
    (w.RevokeCapability? || w.BindCapability?) && w.id == id
  }

  predicate Kept<K, V(==)>(before: map<K, V>, after: map<K, V>, k: K) {
    (k in after <==> k in before) && (k in before ==> after[k] == before[k])
  }

  /** Every document the write does not name is as it was. */
  ghost predicate ChangesOnlyNamed(s: State, t: State, w: Write) {
    && (forall k :: !NamesMailbox(w, k) ==> Kept(s.mailbox, t.mailbox, k))
    && (forall k :: !NamesSystem(w, k) ==> Kept(s.system, t.system, k))
    && (forall id :: !NamesCapability(w, id) ==> Kept(s.capability, t.capability, id))
    && (forall id :: !(w.AddRequest? && w.id == id) ==> Kept(s.requests, t.requests, id))
    && t.agents == s.agents && t.hosts == s.hosts
  }

  /** What the named document is afterwards: never deleted, and changed only as far as the write's filter matched. */
  ghost predicate DoesItsPart(s: State, t: State, w: Write) {
    match w
    case ActivateMailbox(k, expiresAt) => k in t.mailbox && forall now :: IsGrantActive(t.mailbox[k], now) <==> Unexpired(expiresAt, now)
    case CreateMailbox(k) => k in t.mailbox && (if k in s.mailbox then t.mailbox[k] == s.mailbox[k] else forall now :: IsGrantActive(t.mailbox[k], now))
    case RevokeMailbox(k) => (k in t.mailbox <==> k in s.mailbox) && (k in t.mailbox ==> !IsOpen(t.mailbox[k]))
    case ActivateSystem(k, expiresAt) => k in t.system && forall now :: IsGrantActive(t.system[k], now) <==> Unexpired(expiresAt, now)
    case RevokeSystem(k) => (k in t.system <==> k in s.system) && (k in t.system ==> !IsOpen(t.system[k]))
    case RevokeCapability(id) =>
      (id in t.capability <==> id in s.capability)
      && (id in s.capability ==> !IsCapabilityGrantOpen(t.capability[id]) && (IsCapabilityGrantOpen(s.capability[id]) || t.capability[id] == s.capability[id]))
    case BindCapability(id, constraints) =>
      (id in t.capability <==> id in s.capability)
      && (id in s.capability ==>
            t.capability[id] == if s.capability[id].status == GrantPending then s.capability[id].(constraints := constraints) else s.capability[id])
    case AddRequest(id, request) => id in t.requests && t.requests[id] == if id in s.requests then s.requests[id] else request
  }

  lemma MailboxFrame(s: State, w: Write, k: MailboxKey)
    requires !NamesMailbox(w, k)
    ensures Kept(s.mailbox, Apply(s, w).mailbox, k)
  {
  }

  lemma SystemFrame(s: State, w: Write, k: SystemKey)
    requires !NamesSystem(w, k)
    ensures Kept(s.system, Apply(s, w).system, k)
  {
  }

  lemma CapabilityFrame(s: State, w: Write, id: string)
    requires !NamesCapability(w, id)
    ensures Kept(s.capability, Apply(s, w).capability, id)
  {
  }

  lemma RequestFrame(s: State, w: Write, id: string)
    requires !(w.AddRequest? && w.id == id)
    ensures Kept(s.requests, Apply(s, w).requests, id)
  {
  }

  lemma ApplyChangesOnlyNamed(s: State, w: Write)
    ensures ChangesOnlyNamed(s, Apply(s, w), w)
  {
    var t := Apply(s, w);
    forall k | !NamesMailbox(w, k) ensures Kept(s.mailbox, t.mailbox, k) {
      MailboxFrame(s, w, k);
    }
    forall k | !NamesSystem(w, k) ensures Kept(s.system, t.system, k) {
      SystemFrame(s, w, k);
    }
    forall id | !NamesCapability(w, id) ensures Kept(s.capability, t.capability, id) {
      CapabilityFrame(s, w, id);
    }
    forall id | !(w.AddRequest? && w.id == id) ensures Kept(s.requests, t.requests, id) {
      RequestFrame(s, w, id);
    }
  }

  lemma ApplyDoesItsPart(s: State, w: Write)
    ensures DoesItsPart(s, Apply(s, w), w)
  {
  }

  function ApplyAll(s: State, writes: seq<Write>): State {
    if writes == [] then s else Apply(ApplyAll(s, writes[..|writes| - 1]), writes[|writes| - 1])
  }

  class Database {
    var mailbox: map<MailboxKey, GrantState>
    var system: map<SystemKey, GrantState>
    var capability: map<string, CapabilityGrant>
    var requests: map<string, EnrollmentRequest>
    var agents: map<string, AgentRecord>
    var hosts: map<string, HostRecord>

    constructor (s: State)
      ensures Snapshot() == s
    {
      mailbox, system, capability := s.mailbox, s.system, s.capability;
      requests, agents, hosts := s.requests, s.agents, s.hosts;
    }

    function Snapshot(): State
      reads this
    {
      State(mailbox, system, capability, requests, agents, hosts)
    }

    method Execute(w: Write)
      modifies this
      ensures Snapshot() == Apply(old(Snapshot()), w)
      ensures ChangesOnlyNamed(old(Snapshot()), Snapshot(), w) && DoesItsPart(old(Snapshot()), Snapshot(), w)
    {
      ApplyChangesOnlyNamed(Snapshot(), w);
      ApplyDoesItsPart(Snapshot(), w);
      match w
      case ActivateMailbox(k, expiresAt) =>
        mailbox := mailbox[k := Activated(expiresAt)];
      case CreateMailbox(k) =>
        if k !in mailbox {
          mailbox := mailbox[k := Activated(None)];
        }
      case RevokeMailbox(k) =>
        if k in mailbox {
          mailbox := mailbox[k := RevokedGrant(mailbox[k])];
        }
      case ActivateSystem(k, expiresAt) =>
        system := system[k := Activated(expiresAt)];
      case RevokeSystem(k) =>
        if k in system {
          system := system[k := RevokedGrant(system[k])];
        }
      case RevokeCapability(id) =>
        if id in capability && IsCapabilityGrantOpen(capability[id]) {
          capability := capability[id := capability[id].(status := GrantRevoked)];
        }
      case BindCapability(id, constraints) =>
        if id in capability && capability[id].status == GrantPending {
          capability := capability[id := capability[id].(constraints := constraints)];
        }
      case AddRequest(id, request) =>
        if id !in requests {
          requests := requests[id := request];
        }
    }
  }
}
