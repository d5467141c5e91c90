/** How the admin console cuts its lists into pages. */
module Pagination {
  import opened Wrappers

  const DEFAULT_ADMIN_PAGE_SIZE: nat := 25
  const MAX_ADMIN_PAGE_SIZE: nat := 100

  /** A number from the request; `None` stands for a missing or non-finite one. */
  type Requested = Option<real>

  function Max(a: int, b: int): int {
    if a < b then b else a
  }

  function Min(a: int, b: int): int {
    if a < b then a else b
  }

  function NormalizeAdminPage(value: Requested): (page: nat)
    ensures page >= 1
  {
    if value.Some? then Max(1, value.value.Floor) else 1
  }

  function NormalizeAdminPageSize(value: Requested): (size: nat)
    ensures 1 <= size <= MAX_ADMIN_PAGE_SIZE
  {
    if value.Some? then Min(MAX_ADMIN_PAGE_SIZE, Max(1, value.value.Floor)) else DEFAULT_ADMIN_PAGE_SIZE
  }

  /** A size asked for is used as it is between one and a hundred, rounded down; beyond, the nearer of the two; none means twenty-five. */
  lemma RequestedSizes(value: Requested)
    ensures value.None? ==> NormalizeAdminPageSize(value) == 25 && NormalizeAdminPage(value) == 1
    ensures value.Some? && 1.0 <= value.value < 101.0 ==> NormalizeAdminPageSize(value) as real <= value.value < NormalizeAdminPageSize(value) as real + 1.0
    ensures value.Some? && value.value >= 101.0 ==> NormalizeAdminPageSize(value) == 100
    ensures value.Some? && value.value < 1.0 ==> NormalizeAdminPageSize(value) == 1 && NormalizeAdminPage(value) == 1
    ensures value.Some? && 1.0 <= value.value ==> NormalizeAdminPage(value) as real <= value.value < NormalizeAdminPage(value) as real + 1.0
  {
  }

  function Ceiling(n: nat, d: nat): nat
    requires d > 0
  {
    if n % d == 0 then n / d else n / d + 1
  }

  datatype View = View(filteredRecords: nat, page: nat, pageSize: nat, totalRecords: nat)

  function TotalPages(records: nat, pageSize: nat): (pages: nat)
    requires pageSize > 0
    ensures pages >= 1
  {
    Max(1, Ceiling(records, pageSize))
  }

  /** The view shown, and the index its page starts at. */
  function ToAdminPagination(filteredRecords: nat, page: nat, pageSize: nat, totalRecords: nat): (nat, View)
    requires page >= 1 && pageSize >= 1
  {
    var bounded := Min(page, TotalPages(filteredRecords, pageSize));
    ((bounded - 1) * pageSize, View(filteredRecords, bounded, pageSize, totalRecords))
  }

  /** Array.prototype.slice with non-negative bounds. */
  function Slice<T>(list: seq<T>, start: nat, end: nat): seq<T>
    requires start <= end
  {
    if start >= |list| then [] else list[start..Min(end, |list|)]
  }

  function Filter<T>(list: seq<T>, keep: T -> bool): seq<T> {
    if list == [] then [] else (if keep(list[0]) then [list[0]] else []) + Filter(list[1..], keep)
  }

  datatype Section = AccountsSection | AgentsSection | GroupsSection

  datatype Lists<C, A, G, E, P> =
    Lists(accounts: seq<C>, agents: seq<A>, groups: seq<G>, pendingEnrollments: seq<E>, principals: seq<P>)

  /** The query and status filters, one per kind of record. */
  datatype Filters<!C, !A, !G, !E, !P> =
    Filters(account: C -> bool, agent: A -> bool, group: G -> bool, enrollment: E -> bool, principal: P -> bool)

  /** The agents section pages three kinds of record as one list. */
  datatype Record<A, P, E> = Agent(agent: A) | Principal(principal: P) | PendingEnrollment(enrollment: E)

  function TagAgents<A, P, E>(agents: seq<A>): seq<Record<A, P, E>> {
    seq(|agents|, i requires 0 <= i < |agents| => Agent(agents[i]))
  }

  function TagPrincipals<A, P, E>(principals: seq<P>): seq<Record<A, P, E>> {
    seq(|principals|, i requires 0 <= i < |principals| => Principal(principals[i]))
  }

  function TagEnrollments<A, P, E>(enrollments: seq<E>): seq<Record<A, P, E>> {
    seq(|enrollments|, i requires 0 <= i < |enrollments| => PendingEnrollment(enrollments[i]))
  }

  function AgentsOf<A, P, E>(records: seq<Record<A, P, E>>): seq<A> {
    if records == [] then [] else (if records[0].Agent? then [records[0].agent] else []) + AgentsOf(records[1..])
  }

  function PrincipalsOf<A, P, E>(records: seq<Record<A, P, E>>): seq<P> {
    if records == [] then [] else (if records[0].Principal? then [records[0].principal] else []) + PrincipalsOf(records[1..])
  }

  function EnrollmentsOf<A, P, E>(records: seq<Record<A, P, E>>): seq<E> {
    if records == [] then []
    else (if records[0].PendingEnrollment? then [records[0].enrollment] else []) + EnrollmentsOf(records[1..])
  }

  function AgentRecords<C, A, G, E, P>(lists: Lists<C, A, G, E, P>, keep: Filters<C, A, G, E, P>): seq<Record<A, P, E>> {
    TagAgents<A, P, E>(Filter(lists.agents, keep.agent))
    + TagPrincipals<A, P, E>(Filter(lists.principals, keep.principal))
    + TagEnrollments<A, P, E>(Filter(lists.pendingEnrollments, keep.enrollment))
  }

  function PaginateAdminSection<C, A, G, E, P>(
    lists: Lists<C, A, G, E, P>, keep: Filters<C, A, G, E, P>, section: Section, page: nat, pageSize: nat): (Lists<C, A, G, E, P>, View)
    requires page >= 1 && pageSize >= 1
  {
    match section
    case GroupsSection =>
      var filtered := Filter(lists.groups, keep.group);
      var (start, view) := ToAdminPagination(|filtered|, page, pageSize, |lists.groups|);
      (lists.(groups := Slice(filtered, start, start + pageSize)), view)
    case AgentsSection =>
      var filtered := AgentRecords(lists, keep);
      var total := |lists.agents| + |lists.principals| + |lists.pendingEnrollments|;
      var (start, view) := ToAdminPagination(|filtered|, page, pageSize, total);
      var paged := Slice(filtered, start, start + pageSize);
      (lists.(agents := AgentsOf(paged), pendingEnrollments := EnrollmentsOf(paged), principals := PrincipalsOf(paged)), view)
    case AccountsSection =>
      var filtered := Filter(lists.accounts, keep.account);
      var (start, view) := ToAdminPagination(|filtered|, page, pageSize, |lists.accounts|);
      (lists.(accounts := Slice(filtered, start, start + pageSize)), view)
  }

  // --- what the filter keeps ----------------------------------------------------------------------

  /** Positions of the matching records, in order. */
  function MatchingPositions<T>(list: seq<T>, keep: T -> bool): (at: seq<nat>) {
    if list == [] then []
    else (if keep(list[0]) then [0] else []) + Shifted(MatchingPositions(list[1..], keep))
  }

  function Shifted(at: seq<nat>): seq<nat> {
    seq(|at|, i requires 0 <= i < |at| => at[i] + 1)
  }

  predicate AreMatching<T>(at: seq<nat>, list: seq<T>, keep: T -> bool) {
    && (forall i :: 0 <= i < |at| ==> at[i] < |list| && keep(list[at[i]]))
    && forall i, j :: 0 <= i < j < |at| ==> at[i] < at[j]
  }

  lemma {:induction false} PositionsMatch<T>(list: seq<T>, keep: T -> bool)
    ensures AreMatching(MatchingPositions(list, keep), list, keep)
  {
    if list != [] {
      var rest := list[1..];
      PositionsMatch(rest, keep);
      MatchingShifted(MatchingPositions(rest, keep), list, keep);
    }
  }

  lemma MatchingShifted<T>(later: seq<nat>, list: seq<T>, keep: T -> bool)
    requires list != [] && AreMatching(later, list[1..], keep)
    ensures AreMatching(Shifted(later), list, keep)
    ensures keep(list[0]) ==> AreMatching([0] + Shifted(later), list, keep)
  {
  }

  lemma {:induction false} MatchesHavePositions<T>(list: seq<T>, keep: T -> bool, p: nat)
    requires p < |list| && keep(list[p])
    ensures p in MatchingPositions(list, keep)
  {
    var at, later := MatchingPositions(list, keep), MatchingPositions(list[1..], keep);
    if p == 0 {
      assert at[0] == 0;
    } else {
      MatchesHavePositions(list[1..], keep, p - 1);
      var i :| 0 <= i < |later| && later[i] == p - 1;
      assert Shifted(later)[i] == p;
    }
  }

  lemma PicksMore<T>(list: seq<T>, kept: seq<T>, at: seq<nat>, one: seq<T>, first: seq<nat>)
    requires list != [] && |kept| == |at| && forall i :: 0 <= i < |kept| ==> at[i] < |list| - 1 && kept[i] == list[1..][at[i]]
    requires (one == [] && first == []) || (one == [list[0]] && first == [0])
    ensures |one + kept| == |first + Shifted(at)|
    ensures forall i :: 0 <= i < |one + kept| ==> (first + Shifted(at))[i] < |list| && (one + kept)[i] == list[(first + Shifted(at))[i]]
  {
    forall i | |one| <= i < |one + kept| ensures (first + Shifted(at))[i] < |list| && (one + kept)[i] == list[(first + Shifted(at))[i]] {
      assert (first + Shifted(at))[i] == at[i - |one|] + 1 && (one + kept)[i] == kept[i - |one|];
    }
  }

  lemma {:induction false} FilterPicks<T>(list: seq<T>, keep: T -> bool)
    ensures |Filter(list, keep)| == |MatchingPositions(list, keep)|
    ensures forall i :: 0 <= i < |Filter(list, keep)| ==>
              MatchingPositions(list, keep)[i] < |list| && Filter(list, keep)[i] == list[MatchingPositions(list, keep)[i]]
  {
    if list != [] {
      var rest := list[1..];
      FilterPicks(rest, keep);
      PicksMore(list, Filter(rest, keep), MatchingPositions(rest, keep), if keep(list[0]) then [list[0]] else [], if keep(list[0]) then [0] else []);
    }
  }

  /** Filtering keeps the record of every matching position and of no other, in order. */
  lemma FilterKeepsMatching<T>(list: seq<T>, keep: T -> bool)
    ensures var kept, at := Filter(list, keep), MatchingPositions(list, keep);
            && |kept| == |at|
            && (forall i :: 0 <= i < |at| ==> at[i] < |list| && keep(list[at[i]]) && kept[i] == list[at[i]])
            && (forall i, j :: 0 <= i < j < |at| ==> at[i] < at[j])
            && forall p: nat :: p < |list| && keep(list[p]) ==> p in at
  {
    FilterPicks(list, keep);
    PositionsMatch(list, keep);
    forall p: nat | p < |list| && keep(list[p]) ensures p in MatchingPositions(list, keep) {
      MatchesHavePositions(list, keep, p);
    }
  }

  // --- pages partition the list ---------------------------------------------------------------------

  function PageOf<T>(list: seq<T>, page: nat, pageSize: nat): seq<T>
    requires page >= 1 && pageSize >= 1
  {
    var start := ToAdminPagination(|list|, page, pageSize, 0).0;
    Slice(list, start, start + pageSize)
  }

  function FirstPages<T>(list: seq<T>, count: nat, pageSize: nat): seq<T>
    requires pageSize >= 1
  {
    if count == 0 then [] else FirstPages(list, count - 1, pageSize) + PageOf(list, count, pageSize)
  }

  lemma CeilingBounds(n: nat, d: nat)
    requires d > 0
    ensures Ceiling(n, d) * d >= n
    ensures n > 0 ==> Ceiling(n, d) > 0 && (Ceiling(n, d) - 1) * d < n
  {
    assert n == (n / d) * d + n % d;
    assert (n / d + 1) * d == (n / d) * d + d;
    assert (n / d - 1) * d == (n / d) * d - d;
  }

  lemma Multiples(a: nat, b: nat, d: nat)
    requires a <= b
    ensures a * d <= b * d
  {
  }

  /** Page `count` starts where the pages before it end, within the list unless that is empty. */
  lemma NextPage(records: nat, count: nat, pageSize: nat)
    requires pageSize >= 1 && 1 <= count <= TotalPages(records, pageSize)
    ensures 0 <= (count - 1) * pageSize && count * pageSize == (count - 1) * pageSize + pageSize
    ensures (count - 1) * pageSize <= records
  {
    OneMoreTimes(count - 1, pageSize);
    if records > 0 {
      PagesFit(records, count, pageSize);
    } else {
      assert count == 1;
    }
  }

  lemma OneMoreTimes(n: nat, d: nat)
    ensures 0 <= n * d && (n + 1) * d == n * d + d
  {
  }

  lemma PagesFit(records: nat, count: nat, pageSize: nat)
    requires pageSize >= 1 && records > 0 && 1 <= count <= TotalPages(records, pageSize)
    ensures (count - 1) * pageSize < records
  {
    CeilingBounds(records, pageSize);
    var last := Ceiling(records, pageSize) - 1;
    assert count - 1 <= last;
    Multiples(count - 1, last, pageSize);
  }

  lemma {:induction false} FirstPagesAreAPrefix<T>(list: seq<T>, count: nat, pageSize: nat)
    requires pageSize >= 1 && count <= TotalPages(|list|, pageSize)
    ensures FirstPages(list, count, pageSize) == list[..Min(count * pageSize, |list|)]
  {
    if count > 0 {
      FirstPagesAreAPrefix(list, count - 1, pageSize);
      NextPage(|list|, count, pageSize);
      var start := (count - 1) * pageSize;
      assert PageOf(list, count, pageSize) == Slice(list, start, start + pageSize);
    }
  }

  /** Pages one to the last hold the whole list once and in order; a page past the end is the last one. */
  lemma PagesPartition<T>(list: seq<T>, pageSize: nat)
    requires pageSize >= 1
    ensures FirstPages(list, TotalPages(|list|, pageSize), pageSize) == list
    ensures forall page :: page >= TotalPages(|list|, pageSize) ==>
                             PageOf(list, page, pageSize) == PageOf(list, TotalPages(|list|, pageSize), pageSize)
  {
    FirstPagesAreAPrefix(list, TotalPages(|list|, pageSize), pageSize);
    CeilingBounds(|list|, pageSize);
  }

  /** Every page but the last is full, and the last is empty only for an empty list. */
  lemma PagesAreFull<T>(list: seq<T>, page: nat, pageSize: nat)
    requires pageSize >= 1 && 1 <= page <= TotalPages(|list|, pageSize)
    ensures page < TotalPages(|list|, pageSize) ==> |PageOf(list, page, pageSize)| == pageSize
    ensures PageOf(list, page, pageSize) == [] <==> list == []
  {
    CeilingBounds(|list|, pageSize);
    assert (page - 1) * pageSize + pageSize == page * pageSize;
    if |list| > 0 {
      Multiples(page - 1, Ceiling(|list|, pageSize) - 1, pageSize);
      if page < TotalPages(|list|, pageSize) {
        Multiples(page, Ceiling(|list|, pageSize) - 1, pageSize);
      }
    }
  }

  // --- the mixed list of the agents section -----------------------------------------------------------

  lemma Associate<T>(one: seq<T>, two: seq<T>, three: seq<T>)
    ensures one + (two + three) == one + two + three
  {
  }

  lemma {:induction false} AgentsOfJoined<A, P, E>(one: seq<Record<A, P, E>>, two: seq<Record<A, P, E>>)
    ensures AgentsOf(one + two) == AgentsOf(one) + AgentsOf(two)
  {
    if one == [] {
      assert one + two == two;
    } else {
      var head := if one[0].Agent? then [one[0].agent] else [];
      var joined := one + two;
      assert joined[0] == one[0] && joined[1..] == one[1..] + two;
      AgentsOfJoined(one[1..], two);
      Associate(head, AgentsOf(one[1..]), AgentsOf(two));
    }
  }

  lemma {:induction false} PrincipalsOfJoined<A, P, E>(one: seq<Record<A, P, E>>, two: seq<Record<A, P, E>>)
    ensures PrincipalsOf(one + two) == PrincipalsOf(one) + PrincipalsOf(two)
  {
    if one == [] {
      assert one + two == two;
    } else {
      var head := if one[0].Principal? then [one[0].principal] else [];
      var joined := one + two;
      assert joined[0] == one[0] && joined[1..] == one[1..] + two;
      PrincipalsOfJoined(one[1..], two);
      Associate(head, PrincipalsOf(one[1..]), PrincipalsOf(two));
    }
  }

  lemma {:induction false} EnrollmentsOfJoined<A, P, E>(one: seq<Record<A, P, E>>, two: seq<Record<A, P, E>>)
    ensures EnrollmentsOf(one + two) == EnrollmentsOf(one) + EnrollmentsOf(two)
  {
    if one == [] {
      assert one + two == two;
    } else {
      var head := if one[0].PendingEnrollment? then [one[0].enrollment] else [];
      var joined := one + two;
      assert joined[0] == one[0] && joined[1..] == one[1..] + two;
      EnrollmentsOfJoined(one[1..], two);
      Associate(head, EnrollmentsOf(one[1..]), EnrollmentsOf(two));
    }
  }

  lemma KindsOfJoined<A, P, E>(one: seq<Record<A, P, E>>, two: seq<Record<A, P, E>>)
    ensures AgentsOf(one + two) == AgentsOf(one) + AgentsOf(two)
    ensures PrincipalsOf(one + two) == PrincipalsOf(one) + PrincipalsOf(two)
    ensures EnrollmentsOf(one + two) == EnrollmentsOf(one) + EnrollmentsOf(two)
  {
    AgentsOfJoined(one, two);
    PrincipalsOfJoined(one, two);
    EnrollmentsOfJoined(one, two);
  }

  lemma {:induction false} KindsOfAgents<A, P, E>(agents: seq<A>)
    ensures var records := TagAgents<A, P, E>(agents);
            AgentsOf(records) == agents && PrincipalsOf(records) == [] && EnrollmentsOf(records) == []
  {
    if agents != [] {
      KindsOfAgents<A, P, E>(agents[1..]);
      assert TagAgents<A, P, E>(agents)[1..] == TagAgents<A, P, E>(agents[1..]);
    }
  }

  lemma {:induction false} KindsOfPrincipals<A, P, E>(principals: seq<P>)
    ensures var records := TagPrincipals<A, P, E>(principals);
            AgentsOf(records) == [] && PrincipalsOf(records) == principals && EnrollmentsOf(records) == []
  {
    if principals != [] {
      KindsOfPrincipals<A, P, E>(principals[1..]);
      assert TagPrincipals<A, P, E>(principals)[1..] == TagPrincipals<A, P, E>(principals[1..]);
    }
  }

  lemma {:induction false} KindsOfEnrollments<A, P, E>(enrollments: seq<E>)
    ensures var records := TagEnrollments<A, P, E>(enrollments);
            AgentsOf(records) == [] && PrincipalsOf(records) == [] && EnrollmentsOf(records) == enrollments
  {
    if enrollments != [] {
      KindsOfEnrollments<A, P, E>(enrollments[1..]);
      assert TagEnrollments<A, P, E>(enrollments)[1..] == TagEnrollments<A, P, E>(enrollments[1..]);
    }
  }

  lemma KindsOfAgentRecords<C, A, G, E, P>(lists: Lists<C, A, G, E, P>, keep: Filters<C, A, G, E, P>)
    ensures var records := AgentRecords(lists, keep);
            && AgentsOf(records) == Filter(lists.agents, keep.agent)
            && PrincipalsOf(records) == Filter(lists.principals, keep.principal)
            && EnrollmentsOf(records) == Filter(lists.pendingEnrollments, keep.enrollment)
  {
    var agents, principals := Filter(lists.agents, keep.agent), Filter(lists.principals, keep.principal);
    var enrollments := Filter(lists.pendingEnrollments, keep.enrollment);
    KindsOfAgents<A, P, E>(agents);
    KindsOfPrincipals<A, P, E>(principals);
    KindsOfEnrollments<A, P, E>(enrollments);
    KindsOfJoined(TagAgents<A, P, E>(agents), TagPrincipals<A, P, E>(principals));
    KindsOfJoined(TagAgents<A, P, E>(agents) + TagPrincipals<A, P, E>(principals), TagEnrollments<A, P, E>(enrollments));
  }

  // --- walking through a section -----------------------------------------------------------------------

  /** Everything a reader meets on pages 1 to `count` of a section. */
  function Walk<C, A, G, E, P>(
    lists: Lists<C, A, G, E, P>, keep: Filters<C, A, G, E, P>, section: Section, count: nat, pageSize: nat): Lists<C, A, G, E, P>
    requires pageSize >= 1
  {
    if count == 0 then Lists([], [], [], [], [])
    else
      var before := Walk(lists, keep, section, count - 1, pageSize);
      var shown := PaginateAdminSection(lists, keep, section, count, pageSize).0;
      Lists(before.accounts + shown.accounts, before.agents + shown.agents, before.groups + shown.groups,
            before.pendingEnrollments + shown.pendingEnrollments, before.principals + shown.principals)
  }

  function LastPage<C, A, G, E, P>(
    lists: Lists<C, A, G, E, P>, keep: Filters<C, A, G, E, P>, section: Section, pageSize: nat): (page: nat)
    requires pageSize >= 1
    ensures page >= 1
  {
    var records := match section
      case AccountsSection => |Filter(lists.accounts, keep.account)|
      case AgentsSection => |AgentRecords(lists, keep)|
      case GroupsSection => |Filter(lists.groups, keep.group)|;
    TotalPages(records, pageSize)
  }

  lemma AccountsPage<C, A, G, E, P>(lists: Lists<C, A, G, E, P>, keep: Filters<C, A, G, E, P>, page: nat, pageSize: nat)
    requires page >= 1 && pageSize >= 1
    ensures PaginateAdminSection(lists, keep, AccountsSection, page, pageSize).0.accounts == PageOf(Filter(lists.accounts, keep.account), page, pageSize)
  {
  }

  lemma GroupsPage<C, A, G, E, P>(lists: Lists<C, A, G, E, P>, keep: Filters<C, A, G, E, P>, page: nat, pageSize: nat)
    requires page >= 1 && pageSize >= 1
    ensures PaginateAdminSection(lists, keep, GroupsSection, page, pageSize).0.groups == PageOf(Filter(lists.groups, keep.group), page, pageSize)
  {
  }

  lemma {:induction false} WalkAccounts<C, A, G, E, P>(lists: Lists<C, A, G, E, P>, keep: Filters<C, A, G, E, P>, count: nat, pageSize: nat)
    requires pageSize >= 1
    ensures Walk(lists, keep, AccountsSection, count, pageSize).accounts
            == FirstPages(Filter(lists.accounts, keep.account), count, pageSize)
  {
    if count > 0 {
      WalkAccounts(lists, keep, count - 1, pageSize);
      AccountsPage(lists, keep, count, pageSize);
    }
  }

  lemma {:induction false} WalkGroups<C, A, G, E, P>(lists: Lists<C, A, G, E, P>, keep: Filters<C, A, G, E, P>, count: nat, pageSize: nat)
    requires pageSize >= 1
    ensures Walk(lists, keep, GroupsSection, count, pageSize).groups
            == FirstPages(Filter(lists.groups, keep.group), count, pageSize)
  {
    if count > 0 {
      WalkGroups(lists, keep, count - 1, pageSize);
      GroupsPage(lists, keep, count, pageSize);
    }
  }

  lemma AgentsPage<C, A, G, E, P>(lists: Lists<C, A, G, E, P>, keep: Filters<C, A, G, E, P>, page: nat, pageSize: nat)
    requires page >= 1 && pageSize >= 1
    ensures var shown := PaginateAdminSection(lists, keep, AgentsSection, page, pageSize).0;
            var records := PageOf(AgentRecords(lists, keep), page, pageSize);
            && shown.agents == AgentsOf(records)
            && shown.principals == PrincipalsOf(records)
            && shown.pendingEnrollments == EnrollmentsOf(records)
  {
  }

  lemma {:induction false} WalkAgents<C, A, G, E, P>(lists: Lists<C, A, G, E, P>, keep: Filters<C, A, G, E, P>, count: nat, pageSize: nat)
    requires pageSize >= 1
    ensures Walk(lists, keep, AgentsSection, count, pageSize).agents == AgentsOf(FirstPages(AgentRecords(lists, keep), count, pageSize))
  {
    if count > 0 {
      WalkAgents(lists, keep, count - 1, pageSize);
      AgentsPage(lists, keep, count, pageSize);
      var records := AgentRecords(lists, keep);
      AgentsOfJoined(FirstPages(records, count - 1, pageSize), PageOf(records, count, pageSize));
    }
  }

  lemma {:induction false} WalkPrincipals<C, A, G, E, P>(lists: Lists<C, A, G, E, P>, keep: Filters<C, A, G, E, P>, count: nat, pageSize: nat)
    requires pageSize >= 1
    ensures Walk(lists, keep, AgentsSection, count, pageSize).principals == PrincipalsOf(FirstPages(AgentRecords(lists, keep), count, pageSize))
  {
    if count > 0 {
      WalkPrincipals(lists, keep, count - 1, pageSize);
      AgentsPage(lists, keep, count, pageSize);
      var records := AgentRecords(lists, keep);
      PrincipalsOfJoined(FirstPages(records, count - 1, pageSize), PageOf(records, count, pageSize));
    }
  }

  lemma {:induction false} WalkEnrollments<C, A, G, E, P>(lists: Lists<C, A, G, E, P>, keep: Filters<C, A, G, E, P>, count: nat, pageSize: nat)
    requires pageSize >= 1
    ensures Walk(lists, keep, AgentsSection, count, pageSize).pendingEnrollments == EnrollmentsOf(FirstPages(AgentRecords(lists, keep), count, pageSize))
  {
    if count > 0 {
      WalkEnrollments(lists, keep, count - 1, pageSize);
      AgentsPage(lists, keep, count, pageSize);
      var records := AgentRecords(lists, keep);
      EnrollmentsOfJoined(FirstPages(records, count - 1, pageSize), PageOf(records, count, pageSize));
    }
  }

  /**
   * Whatever page size is asked for, walking a section from page one to its last page shows
   * every matching record of every kind of that section once and in order.
   */
  lemma WalkingShowsEverythingOnce<C, A, G, E, P>(
    lists: Lists<C, A, G, E, P>, keep: Filters<C, A, G, E, P>, section: Section, requested: Requested)
    ensures var size := NormalizeAdminPageSize(requested);
            var met := Walk(lists, keep, section, LastPage(lists, keep, section, size), size);
            && (section.AccountsSection? ==> met.accounts == Filter(lists.accounts, keep.account))
            && (section.GroupsSection? ==> met.groups == Filter(lists.groups, keep.group))
            && (section.AgentsSection? ==>
                  && met.agents == Filter(lists.agents, keep.agent)
                  && met.principals == Filter(lists.principals, keep.principal)
                  && met.pendingEnrollments == Filter(lists.pendingEnrollments, keep.enrollment))
  {
    var size := NormalizeAdminPageSize(requested);
    var last := LastPage(lists, keep, section, size);
    match section
    case AccountsSection =>
      WalkAccounts(lists, keep, last, size);
      PagesPartition(Filter(lists.accounts, keep.account), size);
    case GroupsSection =>
      WalkGroups(lists, keep, last, size);
      PagesPartition(Filter(lists.groups, keep.group), size);
    case AgentsSection =>
      WalkAgents(lists, keep, last, size);
      WalkPrincipals(lists, keep, last, size);
      WalkEnrollments(lists, keep, last, size);
      PagesPartition(AgentRecords(lists, keep), size);
      KindsOfAgentRecords(lists, keep);
  }

  lemma BoundedTwice(records: nat, page: nat, pageSize: nat, totalRecords: nat)
    requires page >= 1 && pageSize >= 1
    ensures var shown := Min(page, TotalPages(records, pageSize));
            && ToAdminPagination(records, page, pageSize, totalRecords) == ToAdminPagination(records, shown, pageSize, totalRecords)
            && ToAdminPagination(records, page, pageSize, totalRecords).1.page == shown
  {
  }

  /** Any requested page number, however large, gives the page it names or the last one, and says which. */
  lemma PastTheEndIsTheLastPage<C, A, G, E, P>(
    lists: Lists<C, A, G, E, P>, keep: Filters<C, A, G, E, P>, section: Section, page: Requested, requested: Requested)
    ensures var size := NormalizeAdminPageSize(requested);
            var last := LastPage(lists, keep, section, size);
            var shown := Min(NormalizeAdminPage(page), last);
            && PaginateAdminSection(lists, keep, section, NormalizeAdminPage(page), size)
               == PaginateAdminSection(lists, keep, section, shown, size)
            && PaginateAdminSection(lists, keep, section, NormalizeAdminPage(page), size).1.page == shown
  {
    var size := NormalizeAdminPageSize(requested);
    match section
    case AccountsSection => BoundedTwice(|Filter(lists.accounts, keep.account)|, NormalizeAdminPage(page), size, |lists.accounts|);
    case GroupsSection => BoundedTwice(|Filter(lists.groups, keep.group)|, NormalizeAdminPage(page), size, |lists.groups|);
    case AgentsSection =>
      BoundedTwice(|AgentRecords(lists, keep)|, NormalizeAdminPage(page), size, |lists.agents| + |lists.principals| + |lists.pendingEnrollments|);
  }
}
