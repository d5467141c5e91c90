/**
 * The inbound archive protocol. The edge worker builds object keys and a notification from
 * its environment; the backend checks them, with separately written string code, against
 * its own deployment record.
 */
module Archive {
  import opened Wrappers
  import opened Text
  import opened Regex

  datatype ArchiveError =
    | Missing(what: string)
    | EmptySegment
    | WrongOrganization
    | WrongDomain
    | WrongEnding
    | WrongRecipientDomain
    | InvalidHostname

  // --- the backend's prefix ------------------------------------------------------------

  predicate IsAlnum(c: char) {
    'a' <= c <= 'z' || '0' <= c <= '9'
  }

  predicate IsLabel(s: string) {
    && 1 <= |s| <= 63
    && (forall c :: c in s ==> IsAlnum(c) || c == '-')
    && IsAlnum(s[0]) && IsAlnum(s[|s| - 1])
  }

  /** Two labels or more, separated by dots. */
  predicate IsHostname(s: string) {
    |Split(s, '.')| >= 2 && forall part :: part in Split(s, '.') ==> IsLabel(part)
  }

  function NormalizeRuntimeDomain(domain: string): Result<string, ArchiveError> {
    var normalized := Lower(Trim(domain));
    if IsHostname(normalized) then Ok(normalized) else Err(InvalidHostname)
  }

  function PrefixText(organization: string, domain: string): string {
    "orgs/" + organization + "/domains/" + domain + "/mail/inbound"
  }

  function CreateArchivePrefix(organization: string, domain: string): Result<string, ArchiveError> {
    match NormalizeRuntimeDomain(domain)
    case Ok(normalized) => Ok(PrefixText(organization, normalized))
    case Err(e) => Err(e)
  }

  // --- the worker ------------------------------------------------------------------------

  /** `value` is None when the environment value is not a string. */
  function RequireString(value: Option<string>, what: string): Result<string, ArchiveError> {
    if value.None? || Trim(value.value) == "" then Err(Missing(what)) else Ok(Trim(value.value))
  }

  function StripLeadingSlashes(s: string): string {
    if s != "" && s[0] == '/' then StripLeadingSlashes(s[1..]) else s
  }

  function StripTrailingSlashes(s: string): string {
    if s != "" && s[|s| - 1] == '/' then StripTrailingSlashes(s[..|s| - 1]) else s
  }

  predicate SegmentIs(segments: seq<string>, i: nat, expected: string) {
    i < |segments| && segments[i] == expected
  }

  function NormalizeArchivePrefix(value: Option<string>, organization: Option<string>, domain: Option<string>)
    : Result<string, ArchiveError>
  {
    match RequireString(value, "archive prefix")
    case Err(e) => Err(e)
    case Ok(text) =>
      var prefix := StripTrailingSlashes(StripLeadingSlashes(text));
      var segments := Split(prefix, '/');
      if prefix == "" then Err(Missing("archive prefix"))
      else if "" in segments then Err(EmptySegment)
      else if && organization.Some? && Trim(organization.value) != ""
              && !(SegmentIs(segments, 0, "orgs") && SegmentIs(segments, 1, Trim(organization.value))) then
        Err(WrongOrganization)
      else if && domain.Some? && Trim(domain.value) != ""
              && !(SegmentIs(segments, 2, "domains") && SegmentIs(segments, 3, Lower(Trim(domain.value)))) then
        Err(WrongDomain)
      else if SegmentIs(segments, 4, "mail") && SegmentIs(segments, 5, "inbound") && |segments| == 6 then Ok(prefix)
      else Err(WrongEnding)
  }

  /** `n` in decimal, padded with zeros to at least `width` digits. */
  function Padded(n: nat, width: nat): string
    decreases width, n
  {
    if width == 0 && n == 0 then ""
    else Padded(n / 10, if width == 0 then 0 else width - 1) + ['0' + (n % 10) as char]
  }

  datatype Date = Date(year: nat, month: nat, day: nat)

  predicate IsCalendarDate(d: Date) {
    1 <= d.month <= 12 && 1 <= d.day <= 31
  }

  function ArchiveDatePath(d: Date): string {
    Padded(d.year, 4) + "/" + Padded(d.month, 2) + "/" + Padded(d.day, 2)
  }

  datatype BundleKeys = BundleKeys(raw: string, edge: string, result: string)

  function BundlePrefix(prefix: string, d: Date, ingestId: string): string {
    prefix + "/" + ArchiveDatePath(d) + "/" + ingestId
  }

  function KeysUnder(prefix: string, d: Date, ingestId: string): BundleKeys {
    var bundle := BundlePrefix(prefix, d, ingestId);
    BundleKeys(bundle + "/raw.eml", bundle + "/edge.json", bundle + "/result.json")
  }

  function InboundBundleKeys(archivePrefix: string, d: Date, ingestId: string): Result<BundleKeys, ArchiveError> {
    match (NormalizeArchivePrefix(Some(archivePrefix), None, None), RequireString(Some(ingestId), "ingest id"))
    case (Ok(prefix), Ok(id)) =>
      Ok(KeysUnder(prefix, d, id))
    case (Err(e), _) => Err(e)
    case (_, Err(e)) => Err(e)
  }

  datatype WorkerEnvironment = WorkerEnvironment(
    organizationPublicId: Option<string>, organizationId: Option<string>, connectionId: Option<string>,
    domainId: Option<string>, domain: Option<string>, archivePrefix: Option<string>)

  datatype Notification = Notification(
    ingestId: string, organizationId: string, organizationPublicId: string, archivePrefix: string,
    workerConnectionId: string, domainDeploymentId: string, recipientDomain: string,
    rawKey: string, edgeKey: string, resultKey: string)

  /** The worker's own reading of its configured prefix, before it touches the message. */
  function ConfiguredPrefix(env: WorkerEnvironment): Result<string, ArchiveError> {
    match (RequireString(env.organizationPublicId, "org public id"), RequireString(env.domain, "domain"))
    case (Ok(organization), Ok(domain)) =>
      NormalizeArchivePrefix(env.archivePrefix, Some(organization), Some(Lower(domain)))
    case (Err(e), _) => Err(e)
    case (_, Err(e)) => Err(e)
  }

  /** From environment, recipient and arrival date to the notification that announces the archived message. */
  function AnnounceInbound(env: WorkerEnvironment, recipientDomain: string, d: Date, ingestId: string)
    : Result<Notification, ArchiveError>
  {
    match (ConfiguredPrefix(env), RequireString(env.organizationId, "organization id"),
           RequireString(env.connectionId, "connection id"), RequireString(env.domainId, "domain id"))
    case (Ok(prefix), Ok(organizationId), Ok(connectionId), Ok(domainId)) =>
      var domain := Lower(Trim(env.domain.value));
      if recipientDomain != domain then Err(WrongRecipientDomain)
      else (match InboundBundleKeys(prefix, d, ingestId)
            case Err(e) => Err(e)
            case Ok(keys) => Ok(Notification(Trim(ingestId), organizationId, Trim(env.organizationPublicId.value), prefix,
                                             connectionId, domainId, domain, keys.raw, keys.edge, keys.result)))
    case (Err(e), _, _, _) => Err(e)
    case (_, Err(e), _, _) => Err(e)
    case (_, _, Err(e), _) => Err(e)
    case (_, _, _, Err(e)) => Err(e)
  }

  // --- the backend's check -----------------------------------------------------------------

  datatype Deployment = Deployment(
    archivePrefix: string, domain: string, organizationId: string, organizationPublicId: string,
    domainPublicId: string, workerConnectionId: string)

  function DigitsText(count: char): string {
    "\\d{" + [count] + "}"
  }

  /** The pattern text after the escaped prefix: a date path, then `rest`. */
  function DateText(rest: string): string {
    DigitsText('4') + ("/" + (DigitsText('2') + ("/" + (DigitsText('2') + ("/" + rest)))))
  }

  function BundlePattern(archivePrefix: string, ingestId: string): string {
    Escape(StripTrailingSlashes(archivePrefix) + "/") + DateText(Escape(ingestId) + "/")
  }

  predicate EndsWith(s: string, suffix: string) {
    |suffix| <= |s| && s[|s| - |suffix|..] == suffix
  }

  predicate ArchiveKeysMatch(n: Notification, archivePrefix: string) {
    var pattern := BundlePattern(archivePrefix, n.ingestId);
    && Accepts(pattern, n.rawKey, false) && Accepts(pattern, n.edgeKey, false) && Accepts(pattern, n.resultKey, false)
    && EndsWith(n.rawKey, "/raw.eml") && EndsWith(n.edgeKey, "/edge.json") && EndsWith(n.resultKey, "/result.json")
  }

  /** The notification the backend forwards: its own record's values in place of the worker's. */
  function ValidateNotificationAuthority(connectionPublicId: string, deployment: Deployment, n: Notification)
    : Option<Notification>
  {
    if || n.workerConnectionId != connectionPublicId
       || n.organizationPublicId != deployment.organizationPublicId
       || n.archivePrefix != deployment.archivePrefix
       || n.domainDeploymentId != deployment.domainPublicId
       || Lower(Trim(n.recipientDomain)) != Lower(Trim(deployment.domain))
       || !ArchiveKeysMatch(n, deployment.archivePrefix)
    then None
    else Some(n.(organizationId := deployment.organizationId,
                 organizationPublicId := deployment.organizationPublicId,
                 archivePrefix := deployment.archivePrefix,
                 workerConnectionId := deployment.workerConnectionId,
                 domainDeploymentId := deployment.domainPublicId))
  }

  // --- lemmas: the prefix ---------------------------------------------------------------------

  lemma {:induction false} SplitCoversChars(s: string, separator: char, c: char)
    requires c in s && c != separator
    ensures exists p :: p in Split(s, separator) && c in p
  {
    if s[0] == c {
      assert Split(s, separator)[0] in Split(s, separator);
    } else {
      SplitCoversChars(s[1..], separator, c);
      var rest := Split(s[1..], separator);
      var p :| p in rest && c in p;
      if p == rest[0] {
        var q := if s[0] == separator then rest[0] else [s[0]] + rest[0];
        assert c in q && (s[0] == separator || Split(s, separator)[0] == q);
        assert s[0] == separator ==> Split(s, separator)[1] == rest[0];
        assert q in Split(s, separator);
      } else {
        assert p in rest[1..];
        assert p in Split(s, separator);
      }
    }
  }

  /** A hostname is trimmed lower-case text with no slash. */
  lemma HostnamesAreSegments(s: string)
    requires IsHostname(s)
    ensures s != "" && '/' !in s && IsTrimmed(s) && Lower(s) == s
  {
    forall c | c in s ensures IsAlnum(c) || c == '-' || c == '.' {
      if c != '.' {
        SplitCoversChars(s, '.', c);
      }
    }
    assert forall i :: 0 <= i < |s| ==> s[i] in s;
  }

  lemma PrefixIsClean(organization: string, domain: string)
    ensures var prefix := PrefixText(organization, domain);
            Trim(prefix) == prefix && StripTrailingSlashes(StripLeadingSlashes(prefix)) == prefix
  {
    var prefix := PrefixText(organization, domain);
    assert prefix[0] == 'o' && prefix[|prefix| - 1] == 'd';
    TrimFixedPoints(prefix);
  }

  lemma PrefixSegments(organization: string, domain: string)
    requires '/' !in organization && '/' !in domain
    ensures Split(PrefixText(organization, domain), '/') == ["orgs", organization, "domains", domain, "mail", "inbound"]
  {
    var parts := ["orgs", organization, "domains", domain, "mail", "inbound"];
    FivePartsJoined(organization, "domains", domain, "mail", "inbound");
    assert parts[1..] == [organization, "domains", domain, "mail", "inbound"];
    assert Join(parts, '/') == PrefixText(organization, domain);
    SplitJoin(parts, '/');
  }

  // --- what a domain must be ------------------------------------------------------------------

  predicate IsDnsChar(c: char) {
    'a' <= c <= 'z' || '0' <= c <= '9'
  }

  /** Up to sixty-three letters, digits and inner hyphens. */
  predicate IsDnsLabel(s: string) {
    && 0 < |s| < 64 && (forall i :: 0 <= i < |s| ==> IsDnsChar(s[i]) || (s[i] == '-' && 0 < i < |s| - 1))
  }

  lemma LabelIsDns(s: string)
    ensures IsLabel(s) <==> IsDnsLabel(s)
  {
    assert forall i :: 0 <= i < |s| ==> s[i] in s;
  }

  /** A prefix is made exactly for a domain of two or more labels, whatever its case and the blanks around it, and holds it in lower case. */
  lemma PrefixIsMadeExactly(organization: string, domain: string)
    ensures CreateArchivePrefix(organization, domain).Ok? <==>
              exists labels :: |labels| > 1 && (forall i :: 0 <= i < |labels| ==> IsDnsLabel(labels[i])) && Lower(Trim(domain)) == Join(labels, '.')
    ensures CreateArchivePrefix(organization, domain).Ok? ==>
              CreateArchivePrefix(organization, domain).value == "orgs/" + organization + "/domains/" + Lower(Trim(domain)) + "/mail/inbound"
  {
    var host := Lower(Trim(domain));
    var parts := Split(host, '.');
    if IsHostname(host) {
      JoinSplit(host, '.');
      forall i | 0 <= i < |parts| ensures IsDnsLabel(parts[i]) {
        assert parts[i] in parts;
        LabelIsDns(parts[i]);
      }
    }
    forall labels | |labels| > 1 && (forall i :: 0 <= i < |labels| ==> IsDnsLabel(labels[i])) && host == Join(labels, '.') ensures IsHostname(host) {
      forall p | p in labels ensures '.' !in p && IsLabel(p) {
        var i :| 0 <= i < |labels| && labels[i] == p;
        LabelIsDns(p);
        assert forall j :: 0 <= j < |p| ==> p[j] != '.';
      }
      SplitJoin(labels, '.');
    }
  }

  // --- what the normalisation accepts ---------------------------------------------------------

  predicate AreSlashes(s: string) {
    forall i :: 0 <= i < |s| ==> s[i] == '/'
  }

  lemma {:induction false} LeadingStripped(s: string) returns (slashes: string)
    ensures AreSlashes(slashes) && s == slashes + StripLeadingSlashes(s)
    ensures StripLeadingSlashes(s) == "" || StripLeadingSlashes(s)[0] != '/'
  {
    slashes := "";
    if s != "" && s[0] == '/' {
      slashes := LeadingStripped(s[1..]);
      slashes := [s[0]] + slashes;
    }
  }

  lemma {:induction false} TrailingStripped(s: string) returns (slashes: string)
    ensures AreSlashes(slashes) && s == StripTrailingSlashes(s) + slashes
  {
    slashes := "";
    if s != "" && s[|s| - 1] == '/' {
      slashes := TrailingStripped(s[..|s| - 1]);
      slashes := slashes + [s[|s| - 1]];
    }
  }

  lemma {:induction false} StripsLeading(slashes: string, p: string)
    requires AreSlashes(slashes) && p != "" && p[0] != '/'
    ensures StripLeadingSlashes(slashes + p) == p
  {
    if slashes == "" {
      assert slashes + p == p;
    } else {
      assert (slashes + p)[1..] == slashes[1..] + p;
      StripsLeading(slashes[1..], p);
    }
  }

  lemma {:induction false} StripsTrailing(p: string, slashes: string)
    requires AreSlashes(slashes) && p != "" && p[|p| - 1] != '/'
    ensures StripTrailingSlashes(p + slashes) == p
  {
    if slashes == "" {
      assert p + slashes == p;
    } else {
      var front := slashes[..|slashes| - 1];
      assert (p + slashes)[..|p + slashes| - 1] == p + front;
      StripsTrailing(p, front);
    }
  }

  /** A plain path segment. */
  predicate IsPart(s: string) {
    s != "" && '/' !in s
  }

  /** The first four segments of a prefix name the organization and the domain, where one is given. */
  predicate NamesBoth(a: string, b: string, c: string, d: string, organization: Option<string>, domain: Option<string>) {
    && IsPart(a) && IsPart(b) && IsPart(c) && IsPart(d)
    && (organization.Some? && Trim(organization.value) != "" ==> a == "orgs" && b == Trim(organization.value))
    && (domain.Some? && Trim(domain.value) != "" ==> c == "domains" && d == Lower(Trim(domain.value)))
  }

  /** Six plain segments, the last two fixed. */
  ghost predicate IsPrefixOf(p: string, organization: Option<string>, domain: Option<string>) {
    exists a, b, c, d :: NamesBoth(a, b, c, d, organization, domain) && p == Join([a, b, c, d, "mail", "inbound"], '/')
  }

  lemma SixSegments(segments: seq<string>)
    requires |segments| == 6 && segments[4] == "mail" && segments[5] == "inbound"
    ensures segments == [segments[0], segments[1], segments[2], segments[3], "mail", "inbound"]
  {
  }

  lemma SixParts(a: string, b: string, c: string, d: string)
    requires IsPart(a) && IsPart(b) && IsPart(c) && IsPart(d)
    ensures var p := Join([a, b, c, d, "mail", "inbound"], '/');
            && p != "" && p[0] != '/' && p[|p| - 1] != '/'
            && Split(p, '/') == [a, b, c, d, "mail", "inbound"] && "" !in Split(p, '/')
  {
    var parts := [a, b, c, d, "mail", "inbound"];
    assert parts[1..] == [b, c, d, "mail", "inbound"];
    FivePartsJoined(b, c, d, "mail", "inbound");
    var p := Join(parts, '/');
    assert p[0] == a[0] && a[0] in a;
    assert p[|p| - 1] == "inbound"[6];
    SplitJoin(parts, '/');
  }

  lemma StripsWrapped(before: string, p: string, after: string)
    requires AreSlashes(before) && AreSlashes(after) && p != "" && p[0] != '/' && p[|p| - 1] != '/'
    ensures StripTrailingSlashes(StripLeadingSlashes(before + p + after)) == p
  {
    assert before + p + after == before + (p + after) && (p + after)[0] == p[0];
    StripsLeading(before, p + after);
    StripsTrailing(p, after);
  }

  lemma PrefixIsNormalized(
    text: string, a: string, b: string, c: string, d: string, organization: Option<string>, domain: Option<string>, before: string, after: string)
    requires NamesBoth(a, b, c, d, organization, domain) && AreSlashes(before) && AreSlashes(after)
    requires Trim(text) == before + Join([a, b, c, d, "mail", "inbound"], '/') + after
    ensures NormalizeArchivePrefix(Some(text), organization, domain) == Ok(Join([a, b, c, d, "mail", "inbound"], '/'))
  {
    SixParts(a, b, c, d);
    StripsWrapped(before, Join([a, b, c, d, "mail", "inbound"], '/'), after);
  }

  /** What the worker accepts as its prefix: exactly such a path, with any slashes and blanks around it. */
  lemma NormalizedExactly(value: Option<string>, organization: Option<string>, domain: Option<string>, p: string)
    ensures NormalizeArchivePrefix(value, organization, domain) == Ok(p) <==>
              && value.Some? && IsPrefixOf(p, organization, domain)
              && exists before, after :: AreSlashes(before) && AreSlashes(after) && Trim(value.value) == before + p + after
  {
    if NormalizeArchivePrefix(value, organization, domain) == Ok(p) {
      var text := Trim(value.value);
      var before := LeadingStripped(text);
      var after := TrailingStripped(StripLeadingSlashes(text));
      assert text == before + p + after;
      var segments := Split(p, '/');
      SixSegments(segments);
      JoinSplit(p, '/');
      SplitParts(p, '/');
      assert NamesBoth(segments[0], segments[1], segments[2], segments[3], organization, domain);
    }
    if value.Some? && IsPrefixOf(p, organization, domain) {
      forall before, after | AreSlashes(before) && AreSlashes(after) && Trim(value.value) == before + p + after
        ensures NormalizeArchivePrefix(value, organization, domain) == Ok(p)
      {
        var a, b, c, d :| NamesBoth(a, b, c, d, organization, domain) && p == Join([a, b, c, d, "mail", "inbound"], '/');
        PrefixIsNormalized(value.value, a, b, c, d, organization, domain, before, after);
      }
    }
  }

  /** A usable path segment: what a Base62 public id always is. */
  predicate IsSegment(s: string) {
    s != "" && '/' !in s && IsTrimmed(s)
  }

  predicate Configured(env: WorkerEnvironment, organization: string, domain: string, prefix: string) {
    && env.organizationPublicId == Some(organization) && env.domain == Some(domain)
    && env.archivePrefix == Some(prefix)
  }

  /**
   * The backend's prefix survives the worker's normalisation, untouched, exactly when the
   * organization id is a usable path segment; any other id makes the worker refuse it.
   */
  lemma PrefixSurvivesExactlyForSegments(env: WorkerEnvironment, organization: string, domain: string, prefix: string)
    requires CreateArchivePrefix(organization, domain) == Ok(prefix)
    requires Configured(env, organization, domain, prefix)
    ensures IsSegment(organization) ==> ConfiguredPrefix(env) == Ok(prefix)
    ensures !IsSegment(organization) ==> ConfiguredPrefix(env).Err?
  {
    var host := Lower(Trim(domain));
    HostnamesAreSegments(host);
    PrefixIsClean(organization, host);
    TrimFixedPoints(organization);
    TrimFixedPoints(Trim(organization));
    TrimFixedPoints(Trim(domain));
    TrimFixedPoints(host);
    LowerIsIdempotent(Trim(domain));
    assert prefix == PrefixText(organization, host);
    if Trim(organization) != "" {
      assert ConfiguredPrefix(env) == NormalizeArchivePrefix(Some(prefix), Some(Trim(organization)), Some(host));
      PrefixNormalizes(organization, host);
    }
  }

  /** Normalizing a prefix of the backend's own form, for a non-blank organization and a hostname. */
  lemma PrefixNormalizes(organization: string, host: string)
    requires Trim(organization) != "" && IsHostname(host)
    ensures var prefix := PrefixText(organization, host);
            var r := NormalizeArchivePrefix(Some(prefix), Some(Trim(organization)), Some(host));
            && (IsSegment(organization) ==> r == Ok(prefix))
            && (!IsSegment(organization) ==> r.Err?)
  {
    var prefix := PrefixText(organization, host);
    HostnamesAreSegments(host);
    PrefixIsClean(organization, host);
    TrimFixedPoints(organization);
    TrimFixedPoints(Trim(organization));
    TrimFixedPoints(host);
    if '/' in organization {
      TrimKeepsInk(organization, '/');
      SplitParts(prefix, '/');
      assert !SegmentIs(Split(prefix, '/'), 1, Trim(organization));
    } else {
      PrefixSegments(organization, host);
    }
  }

  // --- lemmas: the keys --------------------------------------------------------------------------

  lemma {:induction false} PaddedDigits(n: nat, width: nat)
    ensures |Padded(n, width)| >= width && forall c :: c in Padded(n, width) ==> IsDigit(c)
    decreases width, n
  {
    if !(width == 0 && n == 0) {
      PaddedDigits(n / 10, if width == 0 then 0 else width - 1);
    }
  }

  lemma FourDigitYears(year: nat)
    ensures |Padded(year, 4)| == 4 <==> year <= 9999
  {
    var q := year / 10 / 10 / 10 / 10;
    PaddedDigits(q, 0);
    assert |Padded(year, 4)| == |Padded(year / 10, 3)| + 1;
    assert |Padded(year / 10, 3)| == |Padded(year / 10 / 10, 2)| + 1;
    assert |Padded(year / 10 / 10, 2)| == |Padded(year / 10 / 10 / 10, 1)| + 1;
    assert |Padded(year / 10 / 10 / 10, 1)| == |Padded(q, 0)| + 1;
    if q > 0 {
      assert |Padded(q, 0)| >= 1;
    }
  }

  lemma TwoDigits(n: nat)
    requires n < 100
    ensures |Padded(n, 2)| == 2
  {
    assert Padded(n / 10 / 10, 0) == "";
  }

  /** What the backend's pattern asks of a key. */
  predicate HasBundleShape(archivePrefix: string, ingestId: string, key: string) {
    var prefix := StripTrailingSlashes(archivePrefix) + "/";
    && prefix <= key
    && var rest := key[|prefix|..];
    && |rest| >= 11
    && IsDigit(rest[0]) && IsDigit(rest[1]) && IsDigit(rest[2]) && IsDigit(rest[3]) && rest[4] == '/'
    && IsDigit(rest[5]) && IsDigit(rest[6]) && rest[7] == '/'
    && IsDigit(rest[8]) && IsDigit(rest[9]) && rest[10] == '/'
    && ingestId + "/" <= rest[11..]
  }

  const SLASH := [One(Literal('/'))]

  function DatePieces(tail: seq<Piece>): seq<Piece> {
    [Times(Digit, 4)] + (SLASH + ([Times(Digit, 2)] + (SLASH + ([Times(Digit, 2)] + (SLASH + tail)))))
  }

  lemma DateTextParses(rest: string)
    requires rest == "" || !IsQuantifier(rest[0])
    requires Parse(rest).Some?
    ensures Parse(DateText(rest)) == Some(DatePieces(Parse(rest).value))
    ensures DateText(rest) != "" && !IsQuantifier(DateText(rest)[0])
  {
    var t5 := "/" + rest;
    var t4 := DigitsText('2') + t5;
    var t3 := "/" + t4;
    var t2 := DigitsText('2') + t3;
    var t1 := "/" + t2;
    SlashParses(rest);
    CountedDigitsParse('2', t5);
    SlashParses(t4);
    CountedDigitsParse('2', t3);
    SlashParses(t2);
    CountedDigitsParse('4', t1);
  }

  lemma SlashParses(rest: string)
    requires rest == "" || !IsQuantifier(rest[0])
    requires Parse(rest).Some?
    ensures Parse("/" + rest) == Some(SLASH + Parse(rest).value)
  {
    assert ("/" + rest)[1..] == rest;
  }

  lemma CountedDigitsParse(n: char, rest: string)
    requires IsDigit(n) && Parse(rest).Some?
    ensures Parse(DigitsText(n) + rest) == Some([Times(Digit, (n - '0') as nat)] + Parse(rest).value)
    ensures DigitsText(n) + rest != "" && !IsQuantifier((DigitsText(n) + rest)[0])
  {
    var text := DigitsText(n) + rest;
    var after := text[2..];
    assert ParseAtom(text) == Some((Digit, after));
    assert after[0] == '{' && after[1] == n && after[2] == '}' && after[3..] == rest;
  }

  lemma CountedDigitsConsume(n: nat, tail: seq<Piece>, s: string)
    ensures Matches([Times(Digit, n)] + tail, s, false) <==>
              |s| >= n && (forall i :: 0 <= i < n ==> IsDigit(s[i])) && Matches(tail, s[n..], false)
  {
    assert ([Times(Digit, n)] + tail)[1..] == tail;
    if n == 0 {
      assert s[0..] == s;
    } else if s != "" && IsDigit(s[0]) {
      CountedDigitsConsume(n - 1, tail, s[1..]);
      if |s| >= n {
        assert s[1..][n - 1..] == s[n..];
        assert (forall i :: 0 <= i < n ==> IsDigit(s[i])) <==> (forall i :: 0 <= i < n - 1 ==> IsDigit(s[1..][i])) by {
          if forall i :: 0 <= i < n - 1 ==> IsDigit(s[1..][i]) {
            forall i | 0 <= i < n ensures IsDigit(s[i]) {
              assert i > 0 ==> s[i] == s[1..][i - 1];
            }
          }
        }
      }
    }
  }

  lemma SlashConsumes(tail: seq<Piece>, s: string)
    ensures Matches(SLASH + tail, s, false) <==> s != "" && s[0] == '/' && Matches(tail, s[1..], false)
  {
    assert (SLASH + tail)[1..] == tail;
  }

  /** The pattern the backend compiles, escapes included, says exactly that. */
  lemma PatternMeansShape(archivePrefix: string, ingestId: string, key: string)
    ensures Accepts(BundlePattern(archivePrefix, ingestId), key, false) <==> HasBundleShape(archivePrefix, ingestId, key)
  {
    var prefix := StripTrailingSlashes(archivePrefix) + "/";
    SlashParses("");
    EscapedTextIsLiteral(ingestId, "/");
    assert "/" + "" == "/";
    var idText := Escape(ingestId) + "/";
    var idPieces := Literals(ingestId) + SLASH;
    assert SLASH + [] == SLASH;
    assert Parse(idText) == Some(idPieces);
    DateTextParses(idText);
    EscapedTextIsLiteral(prefix, DateText(idText));
    LiteralsConsume(prefix, DatePieces(idPieces), key, false);
    if prefix <= key {
      var rest := key[|prefix|..];
      DatePiecesConsume(idPieces, rest);
      if |rest| >= 11 {
        IdPiecesConsume(ingestId, rest[11..]);
      }
    }
  }

  lemma IdPiecesConsume(ingestId: string, s: string)
    ensures Matches(Literals(ingestId) + SLASH, s, false) <==> ingestId + "/" <= s
  {
    LiteralsConsume(ingestId, SLASH, s, false);
    if ingestId <= s {
      assert SLASH + [] == SLASH;
      SlashConsumes([], s[|ingestId|..]);
      assert ingestId + "/" <= s <==> s[|ingestId|..] != "" && s[|ingestId|..][0] == '/';
    }
  }

  /** The month, the day and the slashes around them. */
  lemma MonthAndDayConsume(tail: seq<Piece>, s: string)
    ensures Matches(SLASH + ([Times(Digit, 2)] + (SLASH + ([Times(Digit, 2)] + (SLASH + tail)))), s, false) <==>
              && |s| >= 7
              && s[0] == '/' && IsDigit(s[1]) && IsDigit(s[2]) && s[3] == '/'
              && IsDigit(s[4]) && IsDigit(s[5]) && s[6] == '/'
              && Matches(tail, s[7..], false)
  {
    var p5 := SLASH + tail;
    var p4 := [Times(Digit, 2)] + p5;
    var p3 := SLASH + p4;
    var p2 := [Times(Digit, 2)] + p3;
    SlashConsumes(p2, s);
    if |s| >= 1 { CountedDigitsConsume(2, p3, s[1..]); }
    if |s| >= 3 { assert s[1..][2..] == s[3..]; SlashConsumes(p4, s[3..]); }
    if |s| >= 4 { assert s[3..][1..] == s[4..]; CountedDigitsConsume(2, p5, s[4..]); }
    if |s| >= 6 { assert s[4..][2..] == s[6..]; SlashConsumes(tail, s[6..]); }
    if |s| >= 7 { assert s[6..][1..] == s[7..]; }
  }

  lemma DatePiecesConsume(tail: seq<Piece>, s: string)
    ensures Matches(DatePieces(tail), s, false) <==>
              && |s| >= 11
              && IsDigit(s[0]) && IsDigit(s[1]) && IsDigit(s[2]) && IsDigit(s[3]) && s[4] == '/'
              && IsDigit(s[5]) && IsDigit(s[6]) && s[7] == '/'
              && IsDigit(s[8]) && IsDigit(s[9]) && s[10] == '/'
              && Matches(tail, s[11..], false)
  {
    CountedDigitsConsume(4, SLASH + ([Times(Digit, 2)] + (SLASH + ([Times(Digit, 2)] + (SLASH + tail)))), s);
    if |s| >= 4 { MonthAndDayConsume(tail, s[4..]); }
    if |s| >= 11 { assert s[4..][7..] == s[11..]; }
  }

  /** A key under the bundle has the shape exactly when the year is written with four digits. */
  lemma BundleShapes(prefix: string, d: Date, ingestId: string, file: string)
    requires IsCalendarDate(d) && StripTrailingSlashes(prefix) == prefix
    ensures HasBundleShape(prefix, ingestId, BundlePrefix(prefix, d, ingestId) + "/" + file) <==> d.year <= 9999
  {
    var y, m, dd := Padded(d.year, 4), Padded(d.month, 2), Padded(d.day, 2);
    PaddedDigits(d.year, 4);
    PaddedDigits(d.month, 2);
    PaddedDigits(d.day, 2);
    FourDigitYears(d.year);
    TwoDigits(d.month);
    TwoDigits(d.day);
    var key := BundlePrefix(prefix, d, ingestId) + "/" + file;
    var rest := key[|prefix + "/"|..];
    assert key == (prefix + "/") + (y + "/" + m + "/" + dd + "/" + ingestId + "/" + file);
    assert rest == y + "/" + m + "/" + dd + "/" + ingestId + "/" + file;
    DatedTail(y, m, dd, ingestId + "/" + file);
    if d.year > 9999 {
      assert y[4] in y;
    }
  }

  lemma DatedTail(y: string, m: string, dd: string, tail: string)
    requires |y| >= 4 && |m| == 2 && |dd| == 2
    ensures var rest := y + "/" + m + "/" + dd + "/" + tail;
            if |y| == 4 then rest[..4] == y && rest[4] == '/' && rest[5..7] == m && rest[7] == '/' && rest[8..10] == dd && rest[10] == '/' && rest[11..] == tail
            else rest[4] == y[4]
  {
  }

  /** The two halves describe one deployment, and its text values carry no outer whitespace. */
  predicate Deployed(env: WorkerEnvironment, deployment: Deployment, connectionPublicId: string) {
    && CreateArchivePrefix(deployment.organizationPublicId, deployment.domain) == Ok(deployment.archivePrefix)
    && Configured(env, deployment.organizationPublicId, deployment.domain, deployment.archivePrefix)
    && deployment.workerConnectionId == connectionPublicId
    && env.connectionId == Some(connectionPublicId) && connectionPublicId != "" && IsTrimmed(connectionPublicId)
    && env.domainId == Some(deployment.domainPublicId) && deployment.domainPublicId != "" && IsTrimmed(deployment.domainPublicId)
    && env.organizationId == Some(deployment.organizationId) && deployment.organizationId != "" && IsTrimmed(deployment.organizationId)
    && IsSegment(deployment.organizationPublicId)
  }

  /**
   * Worker and backend agree: every message for the deployment's domain is announced, and the
   * announcement passes the backend's check, unchanged, exactly until the year 9999.
   */
  lemma WorkerAndBackendAgree(
    env: WorkerEnvironment, deployment: Deployment, connectionPublicId: string, d: Date, ingestId: string)
    requires Deployed(env, deployment, connectionPublicId) && IsCalendarDate(d)
    requires Trim(ingestId) != ""
    ensures var announced := AnnounceInbound(env, Lower(Trim(deployment.domain)), d, ingestId);
            && announced.Ok? && announced.value.ingestId == Trim(ingestId)
            && ValidateNotificationAuthority(connectionPublicId, deployment, announced.value)
                 == if d.year <= 9999 then Some(announced.value) else None
  {
    var prefix := deployment.archivePrefix;
    var host := Lower(Trim(deployment.domain));
    HostnamesAreSegments(host);
    PrefixSurvivesExactlyForSegments(env, deployment.organizationPublicId, deployment.domain, prefix);
    TrimFixedPoints(deployment.organizationPublicId);
    TrimFixedPoints(connectionPublicId);
    TrimFixedPoints(deployment.domainPublicId);
    TrimFixedPoints(deployment.organizationId);
    TrimFixedPoints(host);
    KeysOfCreatedPrefix(deployment.organizationPublicId, host, d, ingestId);
    KeysMatchUntil9999(prefix, d, Trim(ingestId));
  }

  /** The three keys lie, dated, under the prefix and the ingest id, one for each file. */
  ghost predicate KeysHaveShape(n: Notification, archivePrefix: string) {
    && HasBundleShape(archivePrefix, n.ingestId, n.rawKey) && (exists bundle :: n.rawKey == bundle + "/raw.eml")
    && HasBundleShape(archivePrefix, n.ingestId, n.edgeKey) && (exists bundle :: n.edgeKey == bundle + "/edge.json")
    && HasBundleShape(archivePrefix, n.ingestId, n.resultKey) && exists bundle :: n.resultKey == bundle + "/result.json"
  }

  /**
   * Whatever is announced: the backend accepts exactly what comes over its own connection, names
   * its own organization, prefix, domain record and domain, and has keys of the shape; and what it
   * forwards is that, with its own organization.
   */
  lemma AcceptedExactly(connectionPublicId: string, deployment: Deployment, n: Notification)
    ensures var r := ValidateNotificationAuthority(connectionPublicId, deployment, n);
            && (r.Some? <==>
                  && n.workerConnectionId == connectionPublicId && n.organizationPublicId == deployment.organizationPublicId
                  && n.archivePrefix == deployment.archivePrefix && n.domainDeploymentId == deployment.domainPublicId
                  && TrimLower(n.recipientDomain) == TrimLower(deployment.domain)
                  && KeysHaveShape(n, deployment.archivePrefix))
            && (r.Some? ==> r.value == n.(organizationId := deployment.organizationId, workerConnectionId := deployment.workerConnectionId))
  {
    PatternMeansShape(deployment.archivePrefix, n.ingestId, n.rawKey);
    PatternMeansShape(deployment.archivePrefix, n.ingestId, n.edgeKey);
    PatternMeansShape(deployment.archivePrefix, n.ingestId, n.resultKey);
    EndingIsSuffix(n.rawKey, "/raw.eml");
    EndingIsSuffix(n.edgeKey, "/edge.json");
    EndingIsSuffix(n.resultKey, "/result.json");
  }

  lemma EndingIsSuffix(key: string, suffix: string)
    ensures EndsWith(key, suffix) <==> exists bundle :: key == bundle + suffix
  {
    if EndsWith(key, suffix) {
      assert key == key[..|key| - |suffix|] + suffix;
    }
  }

  /**
   * Across deployments: what the worker of one announces, another's backend accepts only if they
   * share the connection, the organization and the domain record, and until the year 9999.
   */
  lemma OthersAreRefused(
    env: WorkerEnvironment, own: Deployment, ownConnection: string, other: Deployment, connectionPublicId: string, d: Date, ingestId: string)
    requires Deployed(env, own, ownConnection) && IsCalendarDate(d) && Trim(ingestId) != ""
    requires CreateArchivePrefix(other.organizationPublicId, other.domain) == Ok(other.archivePrefix)
    ensures var announced := AnnounceInbound(env, Lower(Trim(own.domain)), d, ingestId);
            && announced.Ok?
            && (ValidateNotificationAuthority(connectionPublicId, other, announced.value).Some? <==>
                  && ownConnection == connectionPublicId && own.organizationPublicId == other.organizationPublicId
                  && own.domainPublicId == other.domainPublicId && TrimLower(own.domain) == TrimLower(other.domain)
                  && d.year <= 9999)
  {
    WorkerAndBackendAgree(env, own, ownConnection, d, ingestId);
    var announced := AnnounceInbound(env, Lower(Trim(own.domain)), d, ingestId).value;
    AcceptedExactly(ownConnection, own, announced);
    AcceptedExactly(connectionPublicId, other, announced);
    TrimFixedPoints(ownConnection);
    TrimFixedPoints(own.domainPublicId);
    TrimFixedPoints(own.organizationPublicId);
    var host := Lower(Trim(own.domain));
    HostnamesAreSegments(host);
    TrimFixedPoints(host);
    KeysOfCreatedPrefix(own.organizationPublicId, host, d, ingestId);
    KeysMatchUntil9999(own.archivePrefix, d, Trim(ingestId));
  }

  /** Under a prefix of the backend's own making the worker lays its keys without changing it. */
  lemma KeysOfCreatedPrefix(organization: string, host: string, d: Date, ingestId: string)
    requires IsSegment(organization) && IsHostname(host) && Trim(ingestId) != ""
    ensures var prefix := PrefixText(organization, host);
            && StripTrailingSlashes(prefix) == prefix
            && InboundBundleKeys(prefix, d, ingestId) == Ok(KeysUnder(prefix, d, Trim(ingestId)))
  {
    HostnamesAreSegments(host);
    PrefixIsClean(organization, host);
    PrefixSegments(organization, host);
    var prefix := PrefixText(organization, host);
    assert prefix[|prefix| - 1] == 'd';
    assert NormalizeArchivePrefix(Some(prefix), None, None) == Ok(prefix);
  }

  lemma FilesUnder(bundle: string)
    ensures bundle + "/raw.eml" == bundle + "/" + "raw.eml"
    ensures bundle + "/edge.json" == bundle + "/" + "edge.json"
    ensures bundle + "/result.json" == bundle + "/" + "result.json"
  {
    assert "/raw.eml" == "/" + "raw.eml" && "/edge.json" == "/" + "edge.json" && "/result.json" == "/" + "result.json";
  }

  lemma KeysMatchUntil9999(prefix: string, d: Date, ingestId: string)
    requires IsCalendarDate(d) && StripTrailingSlashes(prefix) == prefix
    ensures forall n: Notification ::
              && n.ingestId == ingestId
              && BundleKeys(n.rawKey, n.edgeKey, n.resultKey) == KeysUnder(prefix, d, ingestId)
              ==> (ArchiveKeysMatch(n, prefix) <==> d.year <= 9999)
  {
    var bundle, keys := BundlePrefix(prefix, d, ingestId), KeysUnder(prefix, d, ingestId);
    FilesUnder(bundle);
    PatternMeansShape(prefix, ingestId, keys.raw);
    PatternMeansShape(prefix, ingestId, keys.edge);
    PatternMeansShape(prefix, ingestId, keys.result);
    BundleShapes(prefix, d, ingestId, "raw.eml");
    BundleShapes(prefix, d, ingestId, "edge.json");
    BundleShapes(prefix, d, ingestId, "result.json");
    assert EndsWith(keys.raw, "/raw.eml") && EndsWith(keys.edge, "/edge.json") && EndsWith(keys.result, "/result.json");
  }

  function KeySet(keys: BundleKeys): set<string> {
    {keys.raw, keys.edge, keys.result}
  }

  lemma FivePartsJoined(a: string, b: string, c: string, d: string, e: string)
    ensures Join([a, b, c, d, e], '/') == a + "/" + (b + "/" + (c + "/" + (d + "/" + e)))
  {
    assert Join([d, e], '/') == d + "/" + e;
    assert Join([c, d, e], '/') == c + "/" + (d + "/" + e);
    assert [a, b, c, d, e][1..] == [b, c, d, e];
  }

  /** The tenth segment of every key is the ingest id. */
  lemma KeySegments(prefix: string, d: Date, ingestId: string, file: string)
    requires |Split(prefix, '/')| == 6
    requires '/' !in ingestId && '/' !in file
    ensures var segments := Split(BundlePrefix(prefix, d, ingestId) + "/" + file, '/');
            |segments| == 11 && segments[9] == ingestId
  {
    var y, m, dd := Padded(d.year, 4), Padded(d.month, 2), Padded(d.day, 2);
    PaddedDigits(d.year, 4);
    PaddedDigits(d.month, 2);
    PaddedDigits(d.day, 2);
    var parts := [y, m, dd, ingestId, file];
    var rest := y + "/" + (m + "/" + (dd + "/" + (ingestId + "/" + file)));
    FivePartsJoined(y, m, dd, ingestId, file);
    SplitJoin(parts, '/');
    assert BundlePrefix(prefix, d, ingestId) + "/" + file == prefix + "/" + rest;
    SplitAppend(prefix, rest, '/');
  }

  /** Distinct ingest ids never share an object, whatever their prefixes and dates. */
  lemma DistinctIngestsDisjointKeys(
    prefix1: string, d1: Date, ingest1: string, prefix2: string, d2: Date, ingest2: string)
    requires InboundBundleKeys(prefix1, d1, ingest1).Ok? && InboundBundleKeys(prefix2, d2, ingest2).Ok?
    requires '/' !in ingest1 && '/' !in ingest2 && Trim(ingest1) != Trim(ingest2)
    ensures KeySet(InboundBundleKeys(prefix1, d1, ingest1).value) !! KeySet(InboundBundleKeys(prefix2, d2, ingest2).value)
  {
    KeysHoldIngest(prefix1, d1, ingest1);
    KeysHoldIngest(prefix2, d2, ingest2);
  }

  lemma KeysHoldIngest(prefix: string, d: Date, ingestId: string)
    requires InboundBundleKeys(prefix, d, ingestId).Ok? && '/' !in ingestId
    ensures forall key :: key in KeySet(InboundBundleKeys(prefix, d, ingestId).value) ==>
              |Split(key, '/')| == 11 && Split(key, '/')[9] == Trim(ingestId)
  {
    var clean, id := NormalizeArchivePrefix(Some(prefix), None, None).value, Trim(ingestId);
    TrimAddsNothing(ingestId, '/');
    KeySegments(clean, d, id, "raw.eml");
    KeySegments(clean, d, id, "edge.json");
    KeySegments(clean, d, id, "result.json");
    FilesUnder(BundlePrefix(clean, d, id));
  }
}
