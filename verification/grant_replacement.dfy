/** Replacing the mailbox grants or the system permissions of one principal in one organization. */
module GrantReplacement {
  import opened Wrappers
  import opened Capabilities
  import opened Grants
  import opened Ability
  import opened GrantWrites
  import opened Authorization
  import opened Text
  import Revocation
  import RecipientPolicy

  // --- merging the input --------------------------------------------------------------------------------

  datatype GrantInput = GrantInput(account: string, grants: seq<MailboxGrant>)

  /** The account parser: a canonical address on one of the organization's domains, or nothing. */
  type AccountParser = string -> Option<string>

  function Listed<T>(list: seq<T>): set<T> {
    set x | x in list
  }

  predicate NoDuplicates<T(==)>(list: seq<T>) {
    forall i, j :: 0 <= i < j < |list| ==> list[i] != list[j]
  }

  /** Everything the inputs ask for, per account they name. */
  predicate AsksFor(inputs: seq<GrantInput>, normalize: AccountParser, mailbox: string, g: MailboxGrant) {
    exists i :: 0 <= i < |inputs| && normalize(inputs[i].account) == Some(mailbox) && g in inputs[i].grants
  }

  predicate NamesMailbox(inputs: seq<GrantInput>, normalize: AccountParser, mailbox: string) {
    exists i :: 0 <= i < |inputs| && normalize(inputs[i].account) == Some(mailbox)
  }

  /** The names of the grants in alphabetical order. */
  const SORTED_GRANTS: seq<MailboxGrant> := [CreateDrafts, ManageMessages, ReadMailbox, SendAs]

  function Sorted(grants: set<MailboxGrant>, from: nat): seq<MailboxGrant>
    requires from <= |SORTED_GRANTS|
    decreases |SORTED_GRANTS| - from
  {
    if from == |SORTED_GRANTS| then []
    else (if SORTED_GRANTS[from] in grants then [SORTED_GRANTS[from]] else []) + Sorted(grants, from + 1)
  }

  lemma {:induction false} SortedLists(grants: set<MailboxGrant>, from: nat)
    requires from <= |SORTED_GRANTS|
    ensures forall g :: g in Sorted(grants, from) <==> g in grants && g in SORTED_GRANTS[from..]
    ensures NoDuplicates(Sorted(grants, from))
    decreases |SORTED_GRANTS| - from
  {
    if from < |SORTED_GRANTS| {
      SortedLists(grants, from + 1);
      assert SORTED_GRANTS[from..] == [SORTED_GRANTS[from]] + SORTED_GRANTS[from + 1..];
    }
  }

  predicate Merged(inputs: seq<GrantInput>, normalize: AccountParser, merged: map<string, set<MailboxGrant>>) {
    && (forall i :: 0 <= i < |inputs| ==> normalize(inputs[i].account).Some? && normalize(inputs[i].account).value in merged)
    && forall mailbox :: mailbox in merged ==>
         && NamesMailbox(inputs, normalize, mailbox)
         && forall g :: g in merged[mailbox] <==> AsksFor(inputs, normalize, mailbox, g)
  }

  method MergeByMailbox(inputs: seq<GrantInput>, normalize: AccountParser) returns (r: Result<map<string, set<MailboxGrant>>, string>)
    ensures r.Err? <==> exists i :: 0 <= i < |inputs| && normalize(inputs[i].account).None?
    ensures r.Ok? ==> Merged(inputs, normalize, r.value)
  {
    var merged: map<string, set<MailboxGrant>> := map[];
    for i := 0 to |inputs|
      invariant Merged(inputs[..i], normalize, merged)
    {
      var account := normalize(inputs[i].account);
      if account.None? {
        return Err(inputs[i].account);
      }
      var mailbox := account.value;
      var known := if mailbox in merged then merged[mailbox] else {};
      var grants := known;
      for j := 0 to |inputs[i].grants|
        invariant grants == known + Listed(inputs[i].grants[..j])
      {
        grants := grants + {inputs[i].grants[j]};
      }
      assert inputs[i].grants[..|inputs[i].grants|] == inputs[i].grants;
      MergeOneMore(inputs, i, normalize, merged, mailbox, grants);
      merged := merged[mailbox := grants];
    }
    assert inputs[..|inputs|] == inputs;
    assert forall i :: 0 <= i < |inputs| ==> normalize(inputs[i].account).Some?;
    return Ok(merged);
  }

  lemma MergeOneMore(inputs: seq<GrantInput>, i: nat, normalize: AccountParser, merged: map<string, set<MailboxGrant>>, mailbox: string, grants: set<MailboxGrant>)
    requires i < |inputs| && Merged(inputs[..i], normalize, merged) && normalize(inputs[i].account) == Some(mailbox)
    requires grants == (if mailbox in merged then merged[mailbox] else {}) + Listed(inputs[i].grants)
    ensures Merged(inputs[..i + 1], normalize, merged[mailbox := grants])
  {
    var before, after := inputs[..i], inputs[..i + 1];
    assert after == before + [inputs[i]];
    forall m, g ensures AsksFor(after, normalize, m, g) <==> AsksFor(before, normalize, m, g) || (m == mailbox && g in inputs[i].grants) {
      if AsksFor(before, normalize, m, g) {
        var j :| 0 <= j < |before| && normalize(before[j].account) == Some(m) && g in before[j].grants;
        assert after[j] == before[j];
      }
      if m == mailbox && g in inputs[i].grants {
        assert after[i] == inputs[i];
      }
    }
    forall m | m in merged[mailbox := grants] ensures NamesMailbox(after, normalize, m) {
      if m == mailbox {
        assert after[i] == inputs[i];
      } else {
        var j :| 0 <= j < |before| && normalize(before[j].account) == Some(m);
        assert after[j] == before[j];
      }
    }
    if mailbox !in merged {
      assert forall g :: !AsksFor(before, normalize, mailbox, g);
    }
  }

  predicate HasEntry(requests: seq<MailboxRequest>, mailbox: string) {
    exists i :: 0 <= i < |requests| && requests[i].mailbox == mailbox
  }

  /** The list has one entry for each of these keys of the map, with its set in order. */
  predicate Lists(requests: seq<MailboxRequest>, merged: map<string, set<MailboxGrant>>, keys: set<string>) {
    && (forall i, j :: 0 <= i < j < |requests| ==> requests[i].mailbox != requests[j].mailbox)
    && (forall i :: 0 <= i < |requests| ==>
          && requests[i].mailbox in keys && requests[i].mailbox in merged
          && requests[i].grants == Sorted(merged[requests[i].mailbox], 0))
    && forall mailbox :: mailbox in keys ==> HasEntry(requests, mailbox)
  }

  method ListByMailbox(merged: map<string, set<MailboxGrant>>) returns (requests: seq<MailboxRequest>)
    ensures Lists(requests, merged, merged.Keys)
  {
    var remaining := merged.Keys;
    requests := [];
    ghost var listed: set<string> := {};
    while remaining != {}
      invariant Lists(requests, merged, listed)
      invariant remaining !! listed && merged.Keys == listed + remaining
    {
      var mailbox :| mailbox in remaining;
      ListsOneMore(requests, merged, listed, mailbox);
      requests := requests + [MailboxRequest(mailbox, Sorted(merged[mailbox], 0))];
      listed := listed + {mailbox};
      remaining := remaining - {mailbox};
    }
  }

  lemma ListsOneMore(requests: seq<MailboxRequest>, merged: map<string, set<MailboxGrant>>, listed: set<string>, mailbox: string)
    requires Lists(requests, merged, listed) && mailbox in merged && mailbox !in listed
    ensures Lists(requests + [MailboxRequest(mailbox, Sorted(merged[mailbox], 0))], merged, listed + {mailbox})
  {
    var more := requests + [MailboxRequest(mailbox, Sorted(merged[mailbox], 0))];
    assert more[|requests|].mailbox == mailbox;
    forall m | m in listed ensures HasEntry(more, m) {
      assert HasEntry(requests, m);
      var i :| 0 <= i < |requests| && requests[i].mailbox == m;
      assert more[i].mailbox == m;
    }
  }

  /** One entry per named account, each asking once for everything any input asks for that account. */
  method NormalizeAgentMailboxGrantInputs(inputs: seq<GrantInput>, normalize: AccountParser) returns (r: Result<seq<MailboxRequest>, string>)
    ensures r.Err? <==> exists i :: 0 <= i < |inputs| && normalize(inputs[i].account).None?
    ensures r.Ok? ==>
              && (forall i, j :: 0 <= i < j < |r.value| ==> r.value[i].mailbox != r.value[j].mailbox)
              && (forall mailbox :: NamesMailbox(inputs, normalize, mailbox) <==> HasEntry(r.value, mailbox))
              && (forall i :: 0 <= i < |r.value| ==>
                    && NoDuplicates(r.value[i].grants)
                    && forall g :: g in r.value[i].grants <==> AsksFor(inputs, normalize, r.value[i].mailbox, g))
  {
    var merged := MergeByMailbox(inputs, normalize);
    if merged.Err? {
      return Err(merged.error);
    }
    var requests := ListByMailbox(merged.value);
    EveryGrantIsSorted();
    forall i | 0 <= i < |requests|
      ensures NoDuplicates(requests[i].grants) && forall g :: g in requests[i].grants <==> g in merged.value[requests[i].mailbox]
    {
      SortedLists(merged.value[requests[i].mailbox], 0);
    }
    forall mailbox | NamesMailbox(inputs, normalize, mailbox) ensures mailbox in merged.value {
      var i :| 0 <= i < |inputs| && normalize(inputs[i].account) == Some(mailbox);
    }
    return Ok(requests);
  }

  lemma EveryGrantIsSorted()
    ensures forall g: MailboxGrant :: g in SORTED_GRANTS[0..]
  {
    forall g: MailboxGrant ensures g in SORTED_GRANTS[0..] {
      match g
      case CreateDrafts => assert SORTED_GRANTS[0] == g;
      case ManageMessages => assert SORTED_GRANTS[1] == g;
      case ReadMailbox => assert SORTED_GRANTS[2] == g;
      case SendAs => assert SORTED_GRANTS[3] == g;
    }
  }

  // --- the writes and their end state -------------------------------------------------------------------

  /** Grants are compared by normalized mailbox. */
  function PairOf(k: MailboxKey): (string, MailboxGrant) {
    (NormalizedMailbox(Some(k.mailbox)), k.grant)
  }

  /** The documents the upserts name. */
  function WantedKeys(org: string, p: Principal, desired: seq<MailboxRequest>): set<MailboxKey> {
    set i, j | 0 <= i < |desired| && 0 <= j < |desired[i].grants| :: MailboxKey(org, desired[i].mailbox, p, desired[i].grants[j])
  }

  function WantedPairs(org: string, p: Principal, desired: seq<MailboxRequest>): set<(string, MailboxGrant)> {
    set k | k in WantedKeys(org, p, desired) :: PairOf(k)
  }

  /** The active or pending grants of the principal in the organization. */
  function OpenKeys(s: State, org: string, p: Principal): set<MailboxKey> {
    set k | k in s.mailbox && k.org == org && k.principal == p && IsOpen(s.mailbox[k])
  }

  function OpenPairs(s: State, org: string, p: Principal): set<(string, MailboxGrant)> {
    set k | k in OpenKeys(s, org, p) :: PairOf(k)
  }

  function StaleKeys(s: State, org: string, p: Principal, desired: seq<MailboxRequest>): set<MailboxKey> {
    set k | k in OpenKeys(s, org, p) && PairOf(k) !in WantedPairs(org, p, desired)
  }

  /** A table after some documents were revoked and others upserted. */
  function Settle<K>(table: map<K, GrantState>, revoked: set<K>, activated: set<K>): map<K, GrantState> {
    map k | k in table.Keys + activated ::
      if k in activated then Activated(None) else if k in revoked then RevokedGrant(table[k]) else table[k]
  }

  function MailboxWrites(revoked: set<MailboxKey>, activated: set<MailboxKey>): set<Write> {
    (set k | k in revoked :: RevokeMailbox(k)) + (set k | k in activated :: ActivateMailbox(k, None))
  }

  /** A write already done or done now: the settled table takes it in. */
  lemma SettleOneMailboxWrite(s: State, revoked: set<MailboxKey>, activated: set<MailboxKey>, w: Write)
    requires w.RevokeMailbox? || (w.ActivateMailbox? && w.expiresAt == None)
    requires w.RevokeMailbox? ==> w.mailboxKey in s.mailbox && w.mailboxKey !in activated
    requires w.ActivateMailbox? ==> w.mailboxKey !in revoked
    ensures Apply(s.(mailbox := Settle(s.mailbox, revoked, activated)), w) ==
            if w.RevokeMailbox? then s.(mailbox := Settle(s.mailbox, revoked + {w.mailboxKey}, activated))
            else s.(mailbox := Settle(s.mailbox, revoked, activated + {w.mailboxKey}))
  {
  }

  function RevokedBy(writes: seq<Write>): set<MailboxKey> {
    set w | w in writes && w.RevokeMailbox? :: w.mailboxKey
  }

  function ActivatedBy(writes: seq<Write>): set<MailboxKey> {
    set w | w in writes && w.ActivateMailbox? :: w.mailboxKey
  }

  function SettledBy(s: State, order: seq<Write>): State {
    s.(mailbox := Settle(s.mailbox, RevokedBy(order), ActivatedBy(order)))
  }

  /** However often and in whatever order the writes of a replacement are executed, they settle to the same table. */
  lemma {:induction false} AnyOrderSettles(s: State, order: seq<Write>, revoked: set<MailboxKey>, activated: set<MailboxKey>)
    requires revoked <= s.mailbox.Keys && revoked !! activated
    requires Listed(order) <= MailboxWrites(revoked, activated)
    ensures ApplyAll(s, order) == SettledBy(s, order)
  {
    if order == [] {
      assert Settle(s.mailbox, {}, {}) == s.mailbox;
    } else {
      var front, w := order[..|order| - 1], order[|order| - 1];
      assert order == front + [w];
      assert Listed(front) <= Listed(order) && w in Listed(order);
      AnyOrderSettles(s, front, revoked, activated);
      OneMoreSettles(s, front, w, revoked, activated);
    }
  }

  lemma OneMoreSettles(s: State, front: seq<Write>, w: Write, revoked: set<MailboxKey>, activated: set<MailboxKey>)
    requires revoked <= s.mailbox.Keys && revoked !! activated
    requires Listed(front) <= MailboxWrites(revoked, activated) && w in MailboxWrites(revoked, activated)
    ensures Apply(SettledBy(s, front), w) == SettledBy(s, front + [w])
  {
    OneMoreByOrder(front, w);
    ByOrderWithin(front, revoked, activated);
    SettleOneMailboxWrite(s, RevokedBy(front), ActivatedBy(front), w);
  }

  lemma OneMoreByOrder(front: seq<Write>, w: Write)
    ensures RevokedBy(front + [w]) == RevokedBy(front) + if w.RevokeMailbox? then {w.mailboxKey} else {}
    ensures ActivatedBy(front + [w]) == ActivatedBy(front) + if w.ActivateMailbox? then {w.mailboxKey} else {}
  {
  }

  lemma ByOrderWithin(order: seq<Write>, revoked: set<MailboxKey>, activated: set<MailboxKey>)
    requires Listed(order) <= MailboxWrites(revoked, activated)
    ensures RevokedBy(order) <= revoked && ActivatedBy(order) <= activated
  {
    forall w | w in order ensures w in MailboxWrites(revoked, activated) {
      assert w in Listed(order);
    }
  }

  lemma StaleIsUnwanted(s: State, org: string, p: Principal, desired: seq<MailboxRequest>)
    ensures StaleKeys(s, org, p, desired) !! WantedKeys(org, p, desired)
  {
    assert forall k :: k in WantedKeys(org, p, desired) ==> PairOf(k) in WantedPairs(org, p, desired);
  }

  function Replaced(s: State, org: string, p: Principal, desired: seq<MailboxRequest>): State {
    s.(mailbox := Settle(s.mailbox, StaleKeys(s, org, p, desired), WantedKeys(org, p, desired)))
  }

  /** Every completion order of the concurrent writes reaches the replaced state. */
  lemma EveryOrderReplaces(s: State, org: string, p: Principal, desired: seq<MailboxRequest>, order: seq<Write>)
    requires Listed(order) == MailboxWrites(StaleKeys(s, org, p, desired), WantedKeys(org, p, desired))
    ensures ApplyAll(s, order) == Replaced(s, org, p, desired)
  {
    var stale, wanted := StaleKeys(s, org, p, desired), WantedKeys(org, p, desired);
    StaleIsUnwanted(s, org, p, desired);
    AnyOrderSettles(s, order, stale, wanted);
    forall k ensures k in stale <==> k in RevokedBy(order) {
      if k in stale {
        assert RevokeMailbox(k) in Listed(order);
      }
      if k in RevokedBy(order) {
        var w :| w in order && w.RevokeMailbox? && w.mailboxKey == k;
        assert w in Listed(order);
      }
    }
    forall k ensures k in wanted <==> k in ActivatedBy(order) {
      if k in wanted {
        assert ActivateMailbox(k, None) in Listed(order);
      }
      if k in ActivatedBy(order) {
        var w :| w in order && w.ActivateMailbox? && w.mailboxKey == k;
        assert w in Listed(order);
      }
    }
    assert RevokedBy(order) == stale && ActivatedBy(order) == wanted;
  }

  /** The open grants afterwards are exactly the wanted ones, by normalized mailbox. */
  lemma ReplacedPairs(s: State, org: string, p: Principal, desired: seq<MailboxRequest>)
    ensures OpenPairs(Replaced(s, org, p, desired), org, p) == WantedPairs(org, p, desired)
  {
    var t := Replaced(s, org, p, desired);
    var wanted := WantedKeys(org, p, desired);
    forall pair | pair in OpenPairs(t, org, p) ensures pair in WantedPairs(org, p, desired) {
      var k :| k in OpenKeys(t, org, p) && PairOf(k) == pair;
      if k !in wanted {
        assert k in OpenKeys(s, org, p) && k !in StaleKeys(s, org, p, desired);
      }
    }
    forall pair | pair in WantedPairs(org, p, desired) ensures pair in OpenPairs(t, org, p) {
      var k :| k in wanted && PairOf(k) == pair;
      assert k in OpenKeys(t, org, p);
    }
  }

  /** Replacing again finds nothing to revoke and changes nothing. */
  lemma ReplacedStays(s: State, org: string, p: Principal, desired: seq<MailboxRequest>)
    ensures var t := Replaced(s, org, p, desired);
            StaleKeys(t, org, p, desired) == {} && Replaced(t, org, p, desired) == t
  {
    var t := Replaced(s, org, p, desired);
    ReplacedPairs(s, org, p, desired);
    forall k | k in OpenKeys(t, org, p) ensures PairOf(k) in WantedPairs(org, p, desired) {
      assert PairOf(k) in OpenPairs(t, org, p);
    }
    assert StaleKeys(t, org, p, desired) == {};
    assert Settle(t.mailbox, {}, WantedKeys(org, p, desired)) == t.mailbox;
  }

  /**
   * The replaced state holds exactly the wanted grants, by normalized mailbox; every wanted one is
   * active and never expires; nothing of any other principal or organization changed; and
   * replacing again finds nothing to revoke and changes nothing.
   */
  lemma ReplacementIsExact(s: State, org: string, p: Principal, desired: seq<MailboxRequest>)
    ensures var t := Replaced(s, org, p, desired);
            && OpenPairs(t, org, p) == WantedPairs(org, p, desired)
            && (forall k :: k in WantedKeys(org, p, desired) ==> k in t.mailbox && t.mailbox[k] == Activated(None))
            && (forall k: MailboxKey :: k.org != org || k.principal != p ==>
                  (k in t.mailbox <==> k in s.mailbox) && (k in s.mailbox ==> t.mailbox[k] == s.mailbox[k]))
            && t.(mailbox := s.mailbox) == s
            && StaleKeys(t, org, p, desired) == {}
            && Replaced(t, org, p, desired) == t
  {
    ReplacedPairs(s, org, p, desired);
    ReplacedStays(s, org, p, desired);
  }

  /** The checks before any write: every stale and every wanted grant must be manageable. */
  predicate MayReplace(ctx: Context, stale: set<MailboxKey>, wanted: set<MailboxKey>, parse: RecipientPolicy.AddressParser) {
    forall k :: k in stale + wanted ==> CanManageAdminAgentGrant(ctx, NamedMailboxGrant(k.grant), Some(k.mailbox), parse)
  }

  /** The session's rules answer that it may manage everything such a grant on the mailbox confers. */
  predicate ManagesMailboxGrant(ctx: Context, mailbox: string, g: MailboxGrant, parse: RecipientPolicy.AddressParser) {
    forall c :: c in MailboxBundle(g) ==> Can(ctx.rules, Manage, AgentGrant, Resource(ctx.org, Some(mailbox), Some(c), None), parse)
  }

  /** Some entry asks for this grant, on the mailbox however it is spelled. */
  predicate Asked(desired: seq<MailboxRequest>, mailbox: string, g: MailboxGrant) {
    exists i :: 0 <= i < |desired| && TrimLower(desired[i].mailbox) == TrimLower(mailbox) && g in desired[i].grants
  }

  /** Some entry asks for this grant with this very spelling. */
  predicate Spelled(desired: seq<MailboxRequest>, mailbox: string, g: MailboxGrant) {
    exists i :: 0 <= i < |desired| && desired[i].mailbox == mailbox && g in desired[i].grants
  }

  /** The principal's document in the organization that is open and not asked for any more. */
  predicate IsUnwanted(table: map<MailboxKey, GrantState>, org: string, p: Principal, desired: seq<MailboxRequest>, k: MailboxKey) {
    && k in table && k.org == org && k.principal == p && (table[k].status == Active || table[k].status == Pending)
    && !Asked(desired, k.mailbox, k.grant)
  }

  lemma UnwantedIsStale(s: State, org: string, p: Principal, desired: seq<MailboxRequest>, k: MailboxKey)
    ensures IsUnwanted(s.mailbox, org, p, desired, k) <==> k in StaleKeys(s, org, p, desired)
  {
    AskedIsWanted(org, p, desired, k.mailbox, k.grant);
  }

  lemma StaleAreUnwanted(s: State, org: string, p: Principal, desired: seq<MailboxRequest>)
    ensures StaleKeys(s, org, p, desired) == set k | k in s.mailbox && IsUnwanted(s.mailbox, org, p, desired, k)
  {
    forall k ensures IsUnwanted(s.mailbox, org, p, desired, k) <==> k in StaleKeys(s, org, p, desired) {
      UnwantedIsStale(s, org, p, desired, k);
    }
  }

  lemma AskedIsWanted(org: string, p: Principal, desired: seq<MailboxRequest>, mailbox: string, g: MailboxGrant)
    ensures Asked(desired, mailbox, g) <==> (TrimLower(mailbox), g) in WantedPairs(org, p, desired)
    ensures Spelled(desired, mailbox, g) <==> MailboxKey(org, mailbox, p, g) in WantedKeys(org, p, desired)
  {
    if i :| 0 <= i < |desired| && TrimLower(desired[i].mailbox) == TrimLower(mailbox) && g in desired[i].grants {
      var j :| 0 <= j < |desired[i].grants| && desired[i].grants[j] == g;
      assert MailboxKey(org, desired[i].mailbox, p, desired[i].grants[j]) in WantedKeys(org, p, desired);
      assert PairOf(MailboxKey(org, desired[i].mailbox, p, g)) == (TrimLower(mailbox), g);
    }
    if i :| 0 <= i < |desired| && desired[i].mailbox == mailbox && g in desired[i].grants {
      var j :| 0 <= j < |desired[i].grants| && desired[i].grants[j] == g;
      assert MailboxKey(org, desired[i].mailbox, p, desired[i].grants[j]) in WantedKeys(org, p, desired);
    }
  }

  /** Document by document: what was asked for is active for good, what is no longer asked for is revoked, the rest is as before. */
  ghost predicate ReplacesDocuments(before: map<MailboxKey, GrantState>, after: map<MailboxKey, GrantState>, org: string, p: Principal, desired: seq<MailboxRequest>) {
    forall k: MailboxKey ::
      if k.org == org && k.principal == p && Spelled(desired, k.mailbox, k.grant) then k in after && after[k] == GrantState(Active, None, true)
      else && (k in after <==> k in before)
           && (k in before ==> after[k] == if IsUnwanted(before, org, p, desired, k) then before[k].(status := Revoked) else before[k])
  }

  lemma ReplacedReplaces(s: State, org: string, p: Principal, desired: seq<MailboxRequest>)
    ensures ReplacesDocuments(s.mailbox, Replaced(s, org, p, desired).mailbox, org, p, desired)
  {
    forall k: MailboxKey
      ensures IsUnwanted(s.mailbox, org, p, desired, k) <==> k in StaleKeys(s, org, p, desired)
      ensures k in WantedKeys(org, p, desired) <==> k.org == org && k.principal == p && Spelled(desired, k.mailbox, k.grant)
    {
      UnwantedIsStale(s, org, p, desired, k);
      AskedIsWanted(org, p, desired, k.mailbox, k.grant);
    }
  }

  /** Everything the operation would revoke or write is manageable. */
  ghost predicate ReplacementAllowed(table: map<MailboxKey, GrantState>, ctx: Context, p: Principal, desired: seq<MailboxRequest>, parse: RecipientPolicy.AddressParser) {
    && (forall k :: IsUnwanted(table, ctx.org, p, desired, k) ==> ManagesMailboxGrant(ctx, k.mailbox, k.grant, parse))
    && (forall i, g :: 0 <= i < |desired| && g in desired[i].grants ==> ManagesMailboxGrant(ctx, desired[i].mailbox, g, parse))
  }

  lemma ManagesBundle(ctx: Context, mailbox: string, g: MailboxGrant, parse: RecipientPolicy.AddressParser)
    ensures CanManageAdminAgentGrant(ctx, NamedMailboxGrant(g), Some(mailbox), parse) <==> ManagesMailboxGrant(ctx, mailbox, g, parse)
  {
    var bundle := MailboxBundle(g);
    assert bundle == RequiredGrantCapabilities(NamedMailboxGrant(g)) && bundle != [];
    if CanManageAdminAgentGrant(ctx, NamedMailboxGrant(g), Some(mailbox), parse) {
      forall c | c in bundle ensures CanManageAgentGrant(ctx, c, Some(mailbox), parse) {
        var i :| 0 <= i < |bundle| && bundle[i] == c;
      }
    }
    if ManagesMailboxGrant(ctx, mailbox, g, parse) {
      forall i | 0 <= i < |bundle| ensures CanManageAgentGrant(ctx, bundle[i], Some(mailbox), parse) {
        assert bundle[i] in bundle;
      }
    }
  }

  lemma MayReplaceExactly(s: State, ctx: Context, p: Principal, desired: seq<MailboxRequest>, parse: RecipientPolicy.AddressParser)
    ensures MayReplace(ctx, StaleKeys(s, ctx.org, p, desired), WantedKeys(ctx.org, p, desired), parse) <==> ReplacementAllowed(s.mailbox, ctx, p, desired, parse)
  {
    var stale, wanted := StaleKeys(s, ctx.org, p, desired), WantedKeys(ctx.org, p, desired);
    if MayReplace(ctx, stale, wanted, parse) {
      forall k | IsUnwanted(s.mailbox, ctx.org, p, desired, k) ensures ManagesMailboxGrant(ctx, k.mailbox, k.grant, parse) {
        UnwantedIsStale(s, ctx.org, p, desired, k);
        ManagesBundle(ctx, k.mailbox, k.grant, parse);
      }
      forall i, g | 0 <= i < |desired| && g in desired[i].grants ensures ManagesMailboxGrant(ctx, desired[i].mailbox, g, parse) {
        AskedIsWanted(ctx.org, p, desired, desired[i].mailbox, g);
        assert MailboxKey(ctx.org, desired[i].mailbox, p, g) in stale + wanted;
        ManagesBundle(ctx, desired[i].mailbox, g, parse);
      }
    }
    if ReplacementAllowed(s.mailbox, ctx, p, desired, parse) {
      forall k: MailboxKey | k in stale + wanted ensures CanManageAdminAgentGrant(ctx, NamedMailboxGrant(k.grant), Some(k.mailbox), parse) {
        UnwantedIsStale(s, ctx.org, p, desired, k);
        ManagesBundle(ctx, k.mailbox, k.grant, parse);
      }
    }
  }

  /** So whoever replaces grants without administering the organization held everything it took away, and everything it gave. */
  lemma ReplacingIsHolding(s: State, ctx: Context, now: Time, p: Principal, desired: seq<MailboxRequest>, mailbox: string, g: MailboxGrant, c: Capability, parse: RecipientPolicy.AddressParser)
    requires BuiltFrom(ctx, s, now) && !Administers(ctx.actor, ctx.org) && ReplacementAllowed(s.mailbox, ctx, p, desired, parse)
    requires c in MailboxBundle(g)
    requires Spelled(desired, mailbox, g) || IsUnwanted(s.mailbox, ctx.org, p, desired, MailboxKey(ctx.org, mailbox, p, g))
    ensures Holds(s, now, ctx.actor.principal, OnMailbox(ctx.org, TrimLower(mailbox), c))
  {
    MailboxBundlesPartition(c);
    CheckMeansHolding(ctx, s, now, c, Some(mailbox), parse);
    if i :| 0 <= i < |desired| && desired[i].mailbox == mailbox && g in desired[i].grants {
      assert ManagesMailboxGrant(ctx, desired[i].mailbox, g, parse);
    }
  }

  /** The writes complete in an order nobody chooses. */
  method WriteMailboxGrants(db: Database, stale: set<MailboxKey>, wanted: set<MailboxKey>)
    requires stale <= db.mailbox.Keys && stale !! wanted
    modifies db
    ensures db.Snapshot() == old(db.Snapshot()).(mailbox := Settle(old(db.mailbox), stale, wanted))
  {
    ghost var s := db.Snapshot();
    var pending := stale + wanted;
    ghost var revoked: set<MailboxKey>, activated: set<MailboxKey> := {}, {};
    assert Settle(s.mailbox, revoked, activated) == s.mailbox;
    while pending != {}
      invariant revoked <= stale && activated <= wanted
      invariant pending == (stale - revoked) + (wanted - activated)
      invariant db.Snapshot() == s.(mailbox := Settle(s.mailbox, revoked, activated))
    {
      var k :| k in pending;
      var w := if k in stale then RevokeMailbox(k) else ActivateMailbox(k, None);
      SettleOneMailboxWrite(s, revoked, activated, w);
      db.Execute(w);
      if k in stale {
        revoked := revoked + {k};
      } else {
        activated := activated + {k};
      }
      pending := pending - {k};
    }
    assert revoked == stale && activated == wanted;
  }

  /** `found` says whether the principal was found to be one the organization may deal with. */
  method ReplaceMailboxGrants(db: Database, ctx: Context, found: bool, p: Principal, desired: seq<MailboxRequest>, parse: RecipientPolicy.AddressParser)
    returns (r: Result<nat, string>)
    modifies db
    ensures var s := old(db.Snapshot());
            && (r.Ok? <==> CanManageAgents(ctx, parse) && found && ReplacementAllowed(s.mailbox, ctx, p, desired, parse))
            && db.Snapshot() == (if r.Ok? then Replaced(s, ctx.org, p, desired) else s)
            && (r.Ok? ==> r.value == |set k | k in s.mailbox && IsUnwanted(s.mailbox, ctx.org, p, desired, k)|)
    ensures r.Ok? ==> ReplacesDocuments(old(db.mailbox), db.mailbox, ctx.org, p, desired)
  {
    MayReplaceExactly(db.Snapshot(), ctx, p, desired, parse);
    StaleAreUnwanted(db.Snapshot(), ctx.org, p, desired);
    ReplacedReplaces(db.Snapshot(), ctx.org, p, desired);
    var stale, wanted := StaleKeys(db.Snapshot(), ctx.org, p, desired), WantedKeys(ctx.org, p, desired);
    if !CanManageAgents(ctx, parse) || !found || !MayReplace(ctx, stale, wanted, parse) {
      return Err("Agent grant management is not authorized");
    }
    StaleIsUnwanted(db.Snapshot(), ctx.org, p, desired);
    WriteMailboxGrants(db, stale, wanted);
    return Ok(|stale|);
  }

  /** For an agent the target must exist and be in the organization's reach. */
  method ReplaceAgentMailboxGrants(db: Database, ctx: Context, user: Option<string>, agent: string, desired: seq<MailboxRequest>, now: Time,
                                   parse: RecipientPolicy.AddressParser) returns (r: Result<nat, string>)
    modifies db
    ensures var s, p := old(db.Snapshot()), Principal(AgentPrincipal, agent);
            && (r.Ok? <==> CanManageAgents(ctx, parse) && Revocation.Reaches(s, ctx.org, user, agent, now) && ReplacementAllowed(s.mailbox, ctx, p, desired, parse))
            && (r.Ok? ==> OpenPairs(db.Snapshot(), ctx.org, p) == WantedPairs(ctx.org, p, desired))
            && db.Snapshot() == (if r.Ok? then Replaced(s, ctx.org, p, desired) else s)
            && (r.Ok? ==> ReplacesDocuments(s.mailbox, db.mailbox, ctx.org, p, desired))
  {
    var p := Principal(AgentPrincipal, agent);
    ReplacedPairs(db.Snapshot(), ctx.org, p, desired);
    Revocation.ReachExactly(db.Snapshot(), ctx.org, user, agent, now);
    r := ReplaceMailboxGrants(db, ctx, Revocation.InReach(db.Snapshot(), ctx.org, user, agent, now), p, desired, parse);
  }

  // --- system permissions -------------------------------------------------------------------------------

  function WantedSystemKeys(org: string, p: Principal, permissions: set<SystemPermission>): set<SystemKey> {
    set permission | permission in permissions :: SystemKey(org, p, permission)
  }

  function StaleSystemKeys(s: State, org: string, p: Principal, permissions: set<SystemPermission>): set<SystemKey> {
    set k | k in s.system && k.org == org && k.principal == p && IsOpen(s.system[k]) && k.permission !in permissions
  }

  function ReplacedSystem(s: State, org: string, p: Principal, permissions: set<SystemPermission>): State {
    s.(system := Settle(s.system, StaleSystemKeys(s, org, p, permissions), WantedSystemKeys(org, p, permissions)))
  }

  function OpenPermissions(s: State, org: string, p: Principal): set<SystemPermission> {
    set k | k in s.system && k.org == org && k.principal == p && IsOpen(s.system[k]) :: k.permission
  }

  lemma SystemReplacementIsExact(s: State, org: string, p: Principal, permissions: set<SystemPermission>)
    ensures var t := ReplacedSystem(s, org, p, permissions);
            && OpenPermissions(t, org, p) == permissions
            && (forall permission :: permission in permissions ==>
                  SystemKey(org, p, permission) in t.system && t.system[SystemKey(org, p, permission)] == Activated(None))
            && (forall k: SystemKey :: k.org != org || k.principal != p ==>
                  (k in t.system <==> k in s.system) && (k in s.system ==> t.system[k] == s.system[k]))
            && t.(system := s.system) == s
            && StaleSystemKeys(t, org, p, permissions) == {}
            && ReplacedSystem(t, org, p, permissions) == t
  {
    var t := ReplacedSystem(s, org, p, permissions);
    forall permission ensures permission in OpenPermissions(t, org, p) <==> permission in permissions {
      var k := SystemKey(org, p, permission);
      if permission in permissions {
        assert k in WantedSystemKeys(org, p, permissions) && k in t.system;
      }
    }
    assert Settle(t.system, {}, WantedSystemKeys(org, p, permissions)) == t.system;
  }

  predicate MayReplaceSystem(ctx: Context, keys: set<SystemKey>, parse: RecipientPolicy.AddressParser) {
    forall k :: k in keys ==> CanManageAdminAgentGrant(ctx, NamedPermission(k.permission), None, parse)
  }

  predicate ManagesPermission(ctx: Context, permission: SystemPermission, parse: RecipientPolicy.AddressParser) {
    forall c :: c in SystemBundle(permission) ==> Can(ctx.rules, Manage, AgentGrant, Resource(ctx.org, None, Some(c), None), parse)
  }

  predicate IsUnwantedPermission(table: map<SystemKey, GrantState>, org: string, p: Principal, permissions: set<SystemPermission>, k: SystemKey) {
    k in table && k.org == org && k.principal == p && (table[k].status == Active || table[k].status == Pending) && k.permission !in permissions
  }

  ghost predicate ReplacesSystemDocuments(before: map<SystemKey, GrantState>, after: map<SystemKey, GrantState>, org: string, p: Principal, permissions: set<SystemPermission>) {
    forall k: SystemKey ::
      if k.org == org && k.principal == p && k.permission in permissions then k in after && after[k] == GrantState(Active, None, true)
      else && (k in after <==> k in before)
           && (k in before ==> after[k] == if IsUnwantedPermission(before, org, p, permissions, k) then before[k].(status := Revoked) else before[k])
  }

  lemma ReplacedReplacesSystem(s: State, org: string, p: Principal, permissions: set<SystemPermission>)
    ensures ReplacesSystemDocuments(s.system, ReplacedSystem(s, org, p, permissions).system, org, p, permissions)
  {
    var stale, wanted := StaleSystemKeys(s, org, p, permissions), WantedSystemKeys(org, p, permissions);
    forall k: SystemKey ensures IsUnwantedPermission(s.system, org, p, permissions, k) <==> k in stale {
    }
    forall k: SystemKey ensures k.org == org && k.principal == p && k.permission in permissions <==> k in wanted {
    }
  }

  ghost predicate SystemReplacementAllowed(table: map<SystemKey, GrantState>, ctx: Context, p: Principal, permissions: set<SystemPermission>, parse: RecipientPolicy.AddressParser) {
    && (forall k :: IsUnwantedPermission(table, ctx.org, p, permissions, k) ==> ManagesPermission(ctx, k.permission, parse))
    && (forall permission :: permission in permissions ==> ManagesPermission(ctx, permission, parse))
  }

  lemma ManagesSystemBundle(ctx: Context, permission: SystemPermission, parse: RecipientPolicy.AddressParser)
    ensures CanManageAdminAgentGrant(ctx, NamedPermission(permission), None, parse) <==> ManagesPermission(ctx, permission, parse)
  {
    var bundle := SystemBundle(permission);
    assert bundle == RequiredGrantCapabilities(NamedPermission(permission)) && |bundle| == 1;
    assert bundle[0] in bundle && forall c :: c in bundle ==> c == bundle[0];
  }

  lemma MayReplaceSystemExactly(s: State, ctx: Context, p: Principal, permissions: set<SystemPermission>, parse: RecipientPolicy.AddressParser)
    ensures MayReplaceSystem(ctx, StaleSystemKeys(s, ctx.org, p, permissions) + WantedSystemKeys(ctx.org, p, permissions), parse)
            <==> SystemReplacementAllowed(s.system, ctx, p, permissions, parse)
  {
    var keys := StaleSystemKeys(s, ctx.org, p, permissions) + WantedSystemKeys(ctx.org, p, permissions);
    if MayReplaceSystem(ctx, keys, parse) {
      forall k | IsUnwantedPermission(s.system, ctx.org, p, permissions, k) ensures ManagesPermission(ctx, k.permission, parse) {
        assert k in keys;
        ManagesSystemBundle(ctx, k.permission, parse);
      }
      forall permission | permission in permissions ensures ManagesPermission(ctx, permission, parse) {
        assert SystemKey(ctx.org, p, permission) in keys;
        ManagesSystemBundle(ctx, permission, parse);
      }
    }
    if SystemReplacementAllowed(s.system, ctx, p, permissions, parse) {
      forall k: SystemKey | k in keys ensures CanManageAdminAgentGrant(ctx, NamedPermission(k.permission), None, parse) {
        assert IsUnwantedPermission(s.system, ctx.org, p, permissions, k) || k.permission in permissions;
        ManagesSystemBundle(ctx, k.permission, parse);
      }
    }
  }

  lemma ReplacingSystemIsHolding(s: State, ctx: Context, now: Time, p: Principal, permissions: set<SystemPermission>, permission: SystemPermission, c: Capability, parse: RecipientPolicy.AddressParser)
    requires BuiltFrom(ctx, s, now) && !Administers(ctx.actor, ctx.org) && SystemReplacementAllowed(s.system, ctx, p, permissions, parse)
    requires c in SystemBundle(permission)
    requires permission in permissions || IsUnwantedPermission(s.system, ctx.org, p, permissions, SystemKey(ctx.org, p, permission))
    ensures Holds(s, now, ctx.actor.principal, OnOrganization(ctx.org, c))
  {
    CheckMeansHolding(ctx, s, now, c, None, parse);
    PermissionConfersOnOrganization(SystemKey(ctx.org, p, permission), OnOrganization(ctx.org, c));
  }

  lemma SettleOneSystemWrite(s: State, revoked: set<SystemKey>, activated: set<SystemKey>, w: Write)
    requires w.RevokeSystem? || (w.ActivateSystem? && w.expiresAt == None)
    requires w.RevokeSystem? ==> w.systemKey in s.system && w.systemKey !in activated
    requires w.ActivateSystem? ==> w.systemKey !in revoked
    ensures Apply(s.(system := Settle(s.system, revoked, activated)), w) ==
            if w.RevokeSystem? then s.(system := Settle(s.system, revoked + {w.systemKey}, activated))
            else s.(system := Settle(s.system, revoked, activated + {w.systemKey}))
  {
  }

  method WriteSystemGrants(db: Database, stale: set<SystemKey>, wanted: set<SystemKey>)
    requires stale <= db.system.Keys && stale !! wanted
    modifies db
    ensures db.Snapshot() == old(db.Snapshot()).(system := Settle(old(db.system), stale, wanted))
  {
    ghost var s := db.Snapshot();
    var pending := stale + wanted;
    ghost var revoked: set<SystemKey>, activated: set<SystemKey> := {}, {};
    assert Settle(s.system, revoked, activated) == s.system;
    while pending != {}
      invariant revoked <= stale && activated <= wanted
      invariant pending == (stale - revoked) + (wanted - activated)
      invariant db.Snapshot() == s.(system := Settle(s.system, revoked, activated))
    {
      var k :| k in pending;
      var w := if k in stale then RevokeSystem(k) else ActivateSystem(k, None);
      SettleOneSystemWrite(s, revoked, activated, w);
      db.Execute(w);
      if k in stale {
        revoked := revoked + {k};
      } else {
        activated := activated + {k};
      }
      pending := pending - {k};
    }
    assert revoked == stale && activated == wanted;
  }

  method ReplaceSystemPermissions(db: Database, ctx: Context, found: bool, p: Principal, permissions: set<SystemPermission>, parse: RecipientPolicy.AddressParser)
    returns (r: Result<nat, string>)
    modifies db
    ensures var s := old(db.Snapshot());
            && (r.Ok? <==> CanManageAgents(ctx, parse) && found && SystemReplacementAllowed(s.system, ctx, p, permissions, parse))
            && db.Snapshot() == (if r.Ok? then ReplacedSystem(s, ctx.org, p, permissions) else s)
            && (r.Ok? ==> r.value == |set k | k in s.system && IsUnwantedPermission(s.system, ctx.org, p, permissions, k)|)
    ensures r.Ok? ==> ReplacesSystemDocuments(old(db.system), db.system, ctx.org, p, permissions)
  {
    MayReplaceSystemExactly(db.Snapshot(), ctx, p, permissions, parse);
    ReplacedReplacesSystem(db.Snapshot(), ctx.org, p, permissions);
    var stale, wanted := StaleSystemKeys(db.Snapshot(), ctx.org, p, permissions), WantedSystemKeys(ctx.org, p, permissions);
    if !CanManageAgents(ctx, parse) || !found || !MayReplaceSystem(ctx, stale + wanted, parse) {
      return Err("Agent grant management is not authorized");
    }
    assert stale == set k | k in db.system && IsUnwantedPermission(db.system, ctx.org, p, permissions, k);
    WriteSystemGrants(db, stale, wanted);
    return Ok(|stale|);
  }

  method ReplaceAgentSystemPermissions(db: Database, ctx: Context, user: Option<string>, agent: string, permissions: set<SystemPermission>, now: Time,
                                       parse: RecipientPolicy.AddressParser) returns (r: Result<nat, string>)
    modifies db
    ensures var s, p := old(db.Snapshot()), Principal(AgentPrincipal, agent);
            && (r.Ok? ==> OpenPermissions(db.Snapshot(), ctx.org, p) == permissions)
            && db.Snapshot() == (if r.Ok? then ReplacedSystem(s, ctx.org, p, permissions) else s)
            && (r.Ok? <==> CanManageAgents(ctx, parse) && Revocation.Reaches(s, ctx.org, user, agent, now) && SystemReplacementAllowed(s.system, ctx, p, permissions, parse))
            && (r.Ok? ==> ReplacesSystemDocuments(s.system, db.system, ctx.org, p, permissions))
  {
    var p := Principal(AgentPrincipal, agent);
    SystemReplacementIsExact(db.Snapshot(), ctx.org, p, permissions);
    Revocation.ReachExactly(db.Snapshot(), ctx.org, user, agent, now);
    r := ReplaceSystemPermissions(db, ctx, Revocation.InReach(db.Snapshot(), ctx.org, user, agent, now), p, permissions, parse);
  }
}
