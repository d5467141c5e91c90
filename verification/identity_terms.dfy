/** The internal names a message must not disclose, gathered from the environment. */
module IdentityTerms {
  import opened Wrappers
  import opened Text
  import opened GoText
  import opened Disclosure

  const IDENTITY_KEYS: seq<string> :=
    ["AGENTTEAM_AGENT_KEY", "AGENTTEAM_RUNTIME_NAME", "FORGE_USERNAME", "OPENVIKING_USER", "OPENVIKING_AGENT", "MATRIX_USER_ID"]

  const GENERIC_TERMS: set<string> := {"agent", "assistant", "bot", "system", "runtime", "user", "admin", "ceo", "cto", "cfo"}

  type Environment = map<string, string>

  // --- candidates -----------------------------------------------------------------------------------------

  predicate IsAlnum(c: char) {
    'A' <= c <= 'Z' || 'a' <= c <= 'z' || '0' <= c <= '9'
  }

  /** The longest runs of letters and digits, in order. */
  function Runs(s: string): seq<string> {
    if s == "" then []
    else if !IsAlnum(s[0]) then Runs(s[1..])
    else if |s| == 1 || !IsAlnum(s[1]) then [[s[0]]] + Runs(s[1..])
    else
      var rest := Runs(s[1..]);
      if rest == [] then [[s[0]]] else [[s[0]] + rest[0]] + rest[1..]
  }

  const ALPHANUMERIC: char -> bool := (c: char) => 'A' <= c <= 'Z' || 'a' <= c <= 'z' || '0' <= c <= '9'

  lemma {:induction false} RunsAreRuns(s: string)
    ensures AreRunsOf(Runs(s), s, ALPHANUMERIC)
  {
    if s == "" {
      NoRuns(ALPHANUMERIC);
    } else {
      RunsAreRuns(s[1..]);
      assert s == [s[0]] + s[1..];
      if !IsAlnum(s[0]) {
        OtherThenRuns(Runs(s[1..]), s[1..], s[0], ALPHANUMERIC);
      } else if |s| == 1 || !IsAlnum(s[1]) {
        NewRun(Runs(s[1..]), s[1..], s[0], ALPHANUMERIC);
      } else {
        LongerRun(Runs(s[1..]), s[1..], s[0], ALPHANUMERIC);
      }
    }
  }

  function SlugParts(value: string): seq<string> {
    Runs(TrimSpace(value))
  }

  function BeforeColon(s: string): string {
    if s == "" || s[0] == ':' then "" else [s[0]] + BeforeColon(s[1..])
  }

  /** `@local:server` names `local`. */
  function MatrixUserLocalpart(value: string): string {
    var cleaned := TrimSpace(value);
    if cleaned != "" && cleaned[0] == '@' && ':' in cleaned then TrimSpace(BeforeColon(cleaned[1..])) else ""
  }

  lemma {:induction false} BeforeColonStops(local: string, server: string)
    requires ':' !in local
    ensures BeforeColon(local + ":" + server) == local
  {
    var s := local + ":" + server;
    if local != "" {
      assert s[1..] == local[1..] + ":" + server;
      assert s[0] == local[0] && local[0] in local;
      BeforeColonStops(local[1..], server);
    }
  }

  lemma {:induction false} ColonDivides(s: string) returns (server: string)
    requires ':' in s
    ensures ':' !in BeforeColon(s) && s == BeforeColon(s) + ":" + server
  {
    if s[0] == ':' {
      server := s[1..];
    } else {
      server := ColonDivides(s[1..]);
    }
  }

  /** The local part is what stands between a leading `@` and the first colon; without both there is none. */
  lemma LocalpartExactly(value: string)
    ensures forall local: string, server: string :: ':' !in local && TrimSpace(value) == "@" + local + ":" + server ==> MatrixUserLocalpart(value) == TrimSpace(local)
    ensures (forall local: string, server: string :: TrimSpace(value) != "@" + local + ":" + server) ==> MatrixUserLocalpart(value) == ""
  {
    var cleaned := TrimSpace(value);
    forall local: string, server: string | ':' !in local && cleaned == "@" + local + ":" + server ensures MatrixUserLocalpart(value) == TrimSpace(local) {
      assert cleaned[1..] == local + ":" + server && cleaned[|local| + 1] == ':';
      BeforeColonStops(local, server);
    }
    if cleaned != "" && cleaned[0] == '@' && ':' in cleaned {
      assert cleaned == ['@'] + cleaned[1..];
      var server := ColonDivides(cleaned[1..]);
      assert cleaned == "@" + BeforeColon(cleaned[1..]) + ":" + server;
    }
  }

  /** The value itself and its local part. */
  function Bases(value: string): set<string> {
    {TrimSpace(value), TrimSpace(MatrixUserLocalpart(value))} - {""}
  }

  /** The words of a base, and without a short first word the words after it. */
  function Derived(base: string): set<string> {
    var parts := SlugParts(base);
    ((if |parts| >= 2 then {TrimSpace(Join(parts, ' '))} else {})
     + (if |parts| >= 3 && 1 <= |parts[0]| <= 4 then {TrimSpace(Join(parts[1..], ' '))} else {})) - {""}
  }

  function Candidates(value: string): set<string> {
    Bases(value) + set b, c | b in Bases(value) && c in Derived(b) :: c
  }

  ghost predicate Lists(list: seq<string>, members: set<string>) {
    && (forall c :: c in list <==> c in members)
    && forall i, j :: 0 <= i < j < |list| ==> list[i] != list[j]
  }

  method AddCandidate(candidates: seq<string>, value: string, ghost members: set<string>) returns (more: seq<string>)
    requires Lists(candidates, members)
    ensures Lists(more, members + ({TrimSpace(value)} - {""}))
  {
    var cleaned := TrimSpace(value);
    if cleaned == "" || cleaned in candidates {
      return candidates;
    }
    return candidates + [cleaned];
  }

  method AddDerived(candidates: seq<string>, base: string, ghost members: set<string>) returns (more: seq<string>)
    requires Lists(candidates, members)
    ensures Lists(more, members + Derived(base))
  {
    more := candidates;
    ghost var known := members;
    var parts := SlugParts(base);
    if |parts| >= 2 {
      more := AddCandidate(more, Join(parts, ' '), known);
      known := known + ({TrimSpace(Join(parts, ' '))} - {""});
    }
    if |parts| >= 3 && 1 <= |parts[0]| <= 4 {
      more := AddCandidate(more, Join(parts[1..], ' '), known);
      known := known + ({TrimSpace(Join(parts[1..], ' '))} - {""});
    }
    assert known == members + Derived(base);
  }

  method AddBases(value: string) returns (bases: seq<string>)
    ensures Lists(bases, Bases(value))
  {
    bases := AddCandidate([], value, {});
    var local := MatrixUserLocalpart(value);
    if local != "" {
      bases := AddCandidate(bases, local, {TrimSpace(value)} - {""});
    }
    assert TrimSpace("") == "";
    assert Bases(value) == ({TrimSpace(value)} - {""}) + ({TrimSpace(local)} - {""});
  }

  method IdentityCandidates(value: string) returns (candidates: seq<string>)
    ensures Lists(candidates, Candidates(value))
  {
    var initial := AddBases(value);
    candidates := AddAllDerived(initial, Bases(value));
    DerivationsOfAll(initial, Bases(value));
  }

  method AddAllDerived(initial: seq<string>, ghost bases: set<string>) returns (candidates: seq<string>)
    requires Lists(initial, bases)
    ensures Lists(candidates, bases + Derivations(initial, |initial|))
  {
    candidates := initial;
    ghost var members := bases;
    for i := 0 to |initial|
      invariant members == bases + Derivations(initial, i)
      invariant Lists(candidates, members)
    {
      candidates := AddDerived(candidates, initial[i], members);
      members := members + Derived(initial[i]);
    }
  }

  function Derivations(bases: seq<string>, count: nat): set<string>
    requires count <= |bases|
  {
    if count == 0 then {} else Derivations(bases, count - 1) + Derived(bases[count - 1])
  }

  lemma {:induction false} DerivedIsDerivation(bases: seq<string>, count: nat, i: nat, c: string)
    requires i < count <= |bases| && c in Derived(bases[i])
    ensures c in Derivations(bases, count)
  {
    if i < count - 1 {
      DerivedIsDerivation(bases, count - 1, i, c);
    }
  }

  lemma {:induction false} DerivationHasBase(bases: seq<string>, count: nat, c: string) returns (base: string)
    requires count <= |bases| && c in Derivations(bases, count)
    ensures base in bases && c in Derived(base)
  {
    base := bases[count - 1];
    if c !in Derived(base) {
      base := DerivationHasBase(bases, count - 1, c);
    }
  }

  lemma DerivationsOfAll(bases: seq<string>, members: set<string>)
    requires Lists(bases, members)
    ensures Derivations(bases, |bases|) == set b, c | b in members && c in Derived(b) :: c
  {
    var all := set b, c | b in members && c in Derived(b) :: c;
    forall c | c in all ensures c in Derivations(bases, |bases|) {
      var b :| b in members && c in Derived(b);
      assert b in bases;
      var i :| 0 <= i < |bases| && bases[i] == b;
      DerivedIsDerivation(bases, |bases|, i, c);
    }
    forall c | c in Derivations(bases, |bases|) ensures c in all {
      var base := DerivationHasBase(bases, |bases|, c);
    }
  }

  // --- usable terms ----------------------------------------------------------------------------------------

  function DropSpace(c: char): string {
    if c == ' ' then "" else [c]
  }

  predicate IsDigit(c: char) {
    '0' <= c <= '9'
  }

  /** Long enough, not a generic word, not a number, not a hexadecimal identifier, and with a letter. */
  predicate UsableIdentityTerm(normalized: string) {
    var compact := FlatMap(normalized, DropSpace);
    && normalized != "" && normalized !in GENERIC_TERMS && |compact| >= 5
    && (exists i :: 0 <= i < |compact| && !IsDigit(compact[i]))
    && !(|compact| >= 12 && forall i :: 0 <= i < |compact| ==> IsDigit(compact[i]) || 'a' <= compact[i] <= 'f')
    && exists i :: 0 <= i < |compact| && ('a' <= compact[i] <= 'z' || 'A' <= compact[i] <= 'Z')
  }

  /** How many characters of a text are not spaces. */
  function Ink(s: string): nat {
    if s == "" then 0 else (if s[0] == ' ' then 0 else 1) + Ink(s[1..])
  }

  lemma {:induction false} CompactText(s: string)
    ensures |FlatMap(s, DropSpace)| == Ink(s)
    ensures forall c :: c in FlatMap(s, DropSpace) <==> c in s && c != ' '
  {
    if s != "" {
      CompactText(s[1..]);
      assert FlatMap(s, DropSpace) == DropSpace(s[0]) + FlatMap(s[1..], DropSpace);
      assert forall c :: c in s <==> c == s[0] || c in s[1..];
    }
  }

  /**
   * Of normal text, usable is what is not a generic word, has at least five characters besides
   * spaces, a letter among them, and when there are twelve or more a letter beyond the hexadecimal
   * ones.
   */
  lemma UsableMeans(value: string)
    ensures var text := NormalizeDisclosureText(value);
            UsableIdentityTerm(text) <==>
              && text !in GENERIC_TERMS && Ink(text) >= 5 && (exists c :: c in text && 'a' <= c <= 'z')
              && (Ink(text) >= 12 ==> exists c :: c in text && 'f' < c <= 'z')
  {
    var text := NormalizeDisclosureText(value);
    var compact := FlatMap(text, DropSpace);
    CompactText(text);
    WordsAreWords(value);
    JoinedWordsAreSpaced(Words(value));
    assert forall c :: c in text ==> IsWordChar(c) || c == ' ';
    if c :| c in text && 'a' <= c <= 'z' {
      assert c in compact;
      var i :| 0 <= i < |compact| && compact[i] == c;
    }
    if c :| c in text && 'f' < c <= 'z' {
      assert c in compact;
      var i :| 0 <= i < |compact| && compact[i] == c;
    }
    forall i | 0 <= i < |compact| ensures compact[i] in text && IsWordChar(compact[i]) {
      assert compact[i] in compact;
    }
  }

  function ValueOf(env: Environment, key: string): string {
    if key in env then TrimSpace(env[key]) else ""
  }

  /** What the environment gives away under one key. */
  predicate IsIdentity(env: Environment, key: string, candidate: string) {
    && ValueOf(env, key) != "" && candidate in Candidates(ValueOf(env, key))
    && UsableIdentityTerm(NormalizeDisclosureText(candidate))
  }

  /** A term of the key that normalizes as the candidate does. */
  predicate Represented(terms: seq<IdentityTerm>, key: string, candidate: string) {
    exists i :: 0 <= i < |terms| && terms[i].source == key && NormalizeDisclosureText(terms[i].value) == NormalizeDisclosureText(candidate)
  }

  predicate NoneTwice(terms: seq<IdentityTerm>) {
    forall i, j :: 0 <= i < j < |terms| ==>
                     terms[i].source != terms[j].source || NormalizeDisclosureText(terms[i].value) != NormalizeDisclosureText(terms[j].value)
  }

  ghost predicate SeenAre(seen: set<(string, string)>, terms: seq<IdentityTerm>) {
    forall key, normalized :: (key, normalized) in seen <==>
      exists i :: 0 <= i < |terms| && terms[i].source == key && NormalizeDisclosureText(terms[i].value) == normalized
  }

  ghost predicate AddedFor(env: Environment, key: string, terms: seq<IdentityTerm>, more: seq<IdentityTerm>) {
    terms <= more && forall i :: |terms| <= i < |more| ==> more[i].source == key && IsIdentity(env, key, more[i].value)
  }

  /** One candidate: skipped, already there, or added. */
  method AddTerm(env: Environment, key: string, terms: seq<IdentityTerm>, seen: set<(string, string)>, candidate: string)
    returns (more: seq<IdentityTerm>, known: set<(string, string)>)
    requires ValueOf(env, key) != "" && candidate in Candidates(ValueOf(env, key)) && NoneTwice(terms) && SeenAre(seen, terms)
    ensures AddedFor(env, key, terms, more) && NoneTwice(more) && SeenAre(known, more)
    ensures IsIdentity(env, key, candidate) ==> Represented(more, key, candidate)
  {
    more, known := terms, seen;
    var normalized := NormalizeDisclosureText(candidate);
    if !UsableIdentityTerm(normalized) {
      return;
    }
    if (key, normalized) in known {
      SeenIsRepresented(more, known, key, candidate);
      return;
    }
    OneMoreTerm(more, known, IdentityTerm(key, candidate));
    more, known := more + [IdentityTerm(key, candidate)], known + {(key, normalized)};
  }

  /** All usable candidates of one value, each normal form once. */
  method AddTerms(env: Environment, key: string, terms: seq<IdentityTerm>, seen: set<(string, string)>)
    returns (more: seq<IdentityTerm>, known: set<(string, string)>)
    requires ValueOf(env, key) != "" && NoneTwice(terms) && SeenAre(seen, terms)
    ensures AddedFor(env, key, terms, more)
    ensures forall c :: IsIdentity(env, key, c) ==> Represented(more, key, c)
    ensures NoneTwice(more) && SeenAre(known, more)
  {
    more, known := terms, seen;
    var candidates := IdentityCandidates(ValueOf(env, key));
    for n := 0 to |candidates|
      invariant AddedFor(env, key, terms, more)
      invariant FirstAreRepresented(env, key, candidates, n, more)
      invariant NoneTwice(more) && SeenAre(known, more)
    {
      ghost var before := more;
      more, known := AddTerm(env, key, more, known, candidates[n]);
      AddedInTurn(env, key, terms, before, more);
      RepresentedInTurn(env, key, candidates, n, before, more);
    }
    AllAreRepresented(env, key, candidates, more);
  }

  ghost predicate FirstAreRepresented(env: Environment, key: string, candidates: seq<string>, count: nat, terms: seq<IdentityTerm>)
    requires count <= |candidates|
  {
    forall m :: 0 <= m < count && IsIdentity(env, key, candidates[m]) ==> Represented(terms, key, candidates[m])
  }

  lemma RepresentedInTurn(env: Environment, key: string, candidates: seq<string>, n: nat, before: seq<IdentityTerm>, more: seq<IdentityTerm>)
    requires n < |candidates| && FirstAreRepresented(env, key, candidates, n, before) && before <= more
    requires IsIdentity(env, key, candidates[n]) ==> Represented(more, key, candidates[n])
    ensures FirstAreRepresented(env, key, candidates, n + 1, more)
  {
    RepresentedStays(before, more);
  }

  lemma AllAreRepresented(env: Environment, key: string, candidates: seq<string>, terms: seq<IdentityTerm>)
    requires Lists(candidates, Candidates(ValueOf(env, key))) && FirstAreRepresented(env, key, candidates, |candidates|, terms)
    ensures forall c :: IsIdentity(env, key, c) ==> Represented(terms, key, c)
  {
    forall c | IsIdentity(env, key, c) ensures Represented(terms, key, c) {
      IdentityIsCandidate(env, key, c);
      var m :| 0 <= m < |candidates| && candidates[m] == c;
    }
  }

  lemma AddedInTurn(env: Environment, key: string, terms: seq<IdentityTerm>, before: seq<IdentityTerm>, more: seq<IdentityTerm>)
    requires AddedFor(env, key, terms, before) && AddedFor(env, key, before, more)
    ensures AddedFor(env, key, terms, more)
  {
    assert forall i :: 0 <= i < |before| ==> more[i] == before[i];
  }

  lemma IdentityIsCandidate(env: Environment, key: string, c: string)
    requires IsIdentity(env, key, c)
    ensures c in Candidates(ValueOf(env, key))
  {
  }

  lemma SeenIsRepresented(terms: seq<IdentityTerm>, seen: set<(string, string)>, key: string, c: string)
    requires SeenAre(seen, terms) && (key, NormalizeDisclosureText(c)) in seen
    ensures Represented(terms, key, c)
  {
  }

  lemma OneMoreTerm(terms: seq<IdentityTerm>, seen: set<(string, string)>, term: IdentityTerm)
    requires NoneTwice(terms) && SeenAre(seen, terms) && (term.source, NormalizeDisclosureText(term.value)) !in seen
    ensures NoneTwice(terms + [term])
    ensures SeenAre(seen + {(term.source, NormalizeDisclosureText(term.value))}, terms + [term])
    ensures Represented(terms + [term], term.source, term.value)
    ensures forall key, c :: Represented(terms, key, c) ==> Represented(terms + [term], key, c)
  {
    var more := terms + [term];
    assert more[|terms|] == term;
    assert forall i :: 0 <= i < |terms| ==> more[i] == terms[i];
  }

  /** The terms hold every usable candidate of every key, up to normalization, and nothing else or twice. */
  method BuildInternalIdentityTerms(env: Environment) returns (terms: seq<IdentityTerm>)
    ensures StandFor(terms, env)
    ensures NoneTwice(terms)
  {
    terms := [];
    var seen: set<(string, string)> := {};
    for k := 0 to |IDENTITY_KEYS|
      invariant KeysAreDone(env, k, terms)
      invariant NoneTwice(terms) && SeenAre(seen, terms)
    {
      var key := IDENTITY_KEYS[k];
      if ValueOf(env, key) != "" {
        ghost var before := terms;
        terms, seen := AddTerms(env, key, terms, seen);
        KeyIsDone(env, k, before, terms);
      }
    }
  }

  ghost predicate KeysAreDone(env: Environment, count: nat, terms: seq<IdentityTerm>)
    requires count <= |IDENTITY_KEYS|
  {
    && (forall i :: 0 <= i < |terms| ==> terms[i].source in IDENTITY_KEYS && IsIdentity(env, terms[i].source, terms[i].value))
    && forall m, c :: 0 <= m < count && IsIdentity(env, IDENTITY_KEYS[m], c) ==> Represented(terms, IDENTITY_KEYS[m], c)
  }

  lemma KeyIsDone(env: Environment, k: nat, before: seq<IdentityTerm>, terms: seq<IdentityTerm>)
    requires k < |IDENTITY_KEYS| && KeysAreDone(env, k, before) && AddedFor(env, IDENTITY_KEYS[k], before, terms)
    requires forall c :: IsIdentity(env, IDENTITY_KEYS[k], c) ==> Represented(terms, IDENTITY_KEYS[k], c)
    ensures KeysAreDone(env, k + 1, terms)
  {
    RepresentedStays(before, terms);
    assert forall i :: 0 <= i < |before| ==> terms[i] == before[i];
  }

  lemma RepresentedStays(before: seq<IdentityTerm>, after: seq<IdentityTerm>)
    requires before <= after
    ensures forall key, c :: Represented(before, key, c) ==> Represented(after, key, c)
  {
    assert forall i :: 0 <= i < |before| ==> after[i] == before[i];
  }

  /** The terms stand for exactly the environment's identities. */
  ghost predicate StandFor(terms: seq<IdentityTerm>, env: Environment) {
    && (forall i :: 0 <= i < |terms| ==> terms[i].source in IDENTITY_KEYS && IsIdentity(env, terms[i].source, terms[i].value))
    && forall key, c :: key in IDENTITY_KEYS && IsIdentity(env, key, c) ==> Represented(terms, key, c)
  }

  lemma RepresentedIsDisclosed(terms: seq<IdentityTerm>, key: string, c: string, text: string)
    requires Represented(terms, key, c) && Clean(text, Values(terms))
    ensures !Discloses(text, c)
  {
    var i :| 0 <= i < |terms| && terms[i].source == key && NormalizeDisclosureText(terms[i].value) == NormalizeDisclosureText(c);
    NormalizationIsIdempotent(terms[i].value);
    NormalizationIsIdempotent(c);
    assert Values(terms)[i] in Values(terms);
  }

  /** Dropping duplicates loses nothing: a text is clean of the terms exactly when it discloses no identity at all. */
  lemma TermsCoverIdentities(env: Environment, terms: seq<IdentityTerm>, text: string)
    requires StandFor(terms, env)
    ensures Clean(text, Values(terms)) <==> forall key, c :: key in IDENTITY_KEYS && IsIdentity(env, key, c) ==> !Discloses(text, c)
  {
    if Clean(text, Values(terms)) {
      forall key, c | key in IDENTITY_KEYS && IsIdentity(env, key, c) ensures !Discloses(text, c) {
        RepresentedIsDisclosed(terms, key, c, text);
      }
    }
    if forall key, c :: key in IDENTITY_KEYS && IsIdentity(env, key, c) ==> !Discloses(text, c) {
      TermsAreIdentities(env, terms);
    }
  }

  ghost predicate IsOfSomeKey(env: Environment, n: string) {
    exists key :: key in IDENTITY_KEYS && IsIdentity(env, key, n)
  }

  lemma TermsAreIdentities(env: Environment, terms: seq<IdentityTerm>)
    requires StandFor(terms, env)
    ensures forall n :: n in Values(terms) ==> IsOfSomeKey(env, n)
  {
    forall n | n in Values(terms) ensures IsOfSomeKey(env, n) {
      var i := PositionOf(Values(terms), n);
      TermIsIdentity(env, terms, i);
    }
  }

  lemma PositionOf<T>(list: seq<T>, x: T) returns (i: nat)
    requires x in list
    ensures i < |list| && list[i] == x
  {
    i :| i < |list| && list[i] == x;
  }

  lemma TermIsIdentity(env: Environment, terms: seq<IdentityTerm>, i: nat)
    requires StandFor(terms, env) && i < |terms|
    ensures |Values(terms)| == |terms| && Values(terms)[i] == terms[i].value && IsOfSomeKey(env, terms[i].value)
  {
    assert terms[i].source in IDENTITY_KEYS && IsIdentity(env, terms[i].source, terms[i].value);
  }
}
