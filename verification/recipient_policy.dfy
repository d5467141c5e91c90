/** Recipient allow-lists: exact addresses, domains, and globs compiled to regular expressions. */
module RecipientPolicy {
  import opened Wrappers
  import opened Text
  import opened Regex

  // --- globs -------------------------------------------------------------------------

  /** First pass: every syntax character but the two wildcards (and `/`) is escaped. */
  function EscapeGlobChar(c: char): string {
    if IsSyntax(c) && c != '*' && c != '?' && c != '/' then ['\\', c] else [c]
  }

  function ReplaceStar(c: char): string {
    if c == '*' then ".*" else [c]
  }

  function ReplaceQuestion(c: char): string {
    if c == '?' then "." else [c]
  }

  /** The text between `^` and `$`: three successive global replacements. */
  function CompileGlob(pattern: string): string {
    FlatMap(FlatMap(FlatMap(TrimLower(pattern), EscapeGlobChar), ReplaceStar), ReplaceQuestion)
  }

  function TranslateChar(c: char): string {
    if c == '*' then ".*" else if c == '?' then "." else EscapeGlobChar(c)
  }

  /** The three passes do not interfere: they are one translation, character by character. */
  lemma PassesAreOneTranslation(s: string)
    ensures FlatMap(FlatMap(FlatMap(s, EscapeGlobChar), ReplaceStar), ReplaceQuestion) == FlatMap(s, TranslateChar)
  {
    var afterStar: char -> string := c => FlatMap(EscapeGlobChar(c), ReplaceStar);
    FlatMapCompose(s, EscapeGlobChar, ReplaceStar, afterStar);
    forall c ensures TranslateChar(c) == FlatMap(afterStar(c), ReplaceQuestion) {
      OneCharTranslation(c);
    }
    FlatMapCompose(s, afterStar, ReplaceQuestion, TranslateChar);
  }

  lemma OneCharTranslation(c: char)
    ensures FlatMap(FlatMap(EscapeGlobChar(c), ReplaceStar), ReplaceQuestion) == TranslateChar(c)
  {
    assert FlatMap([], ReplaceStar) == [] == FlatMap([], ReplaceQuestion);
    if EscapeGlobChar(c) != [c] {
      assert ['\\', c][1..] == [c];
      assert FlatMap([c], ReplaceStar) == [c];
      assert FlatMap(['\\', c], ReplaceStar) == ['\\', c];
      assert FlatMap([c], ReplaceQuestion) == [c];
    } else if c == '*' {
      assert FlatMap([c], ReplaceStar) == ".*";
      assert ".*"[1..] == "*";
      assert FlatMap("*", ReplaceQuestion) == "*";
    } else {
      assert FlatMap([c], ReplaceStar) == [c];
    }
  }

  /** What a glob means: `*` is any run of characters, `?` any one, the rest itself. */
  predicate GlobMatches(glob: string, s: string)
    decreases |glob|
  {
    if glob == "" then s == ""
    else if glob[0] == '*' then exists k :: 0 <= k <= |s| && GlobMatches(glob[1..], s[k..])
    else s != "" && (glob[0] == '?' || glob[0] == s[0]) && GlobMatches(glob[1..], s[1..])
  }

  predicate OneLine(s: string) {
    forall c :: c in s ==> !IsLineTerminator(c)
  }

  function GlobPiece(c: char): Piece {
    if c == '*' then Star(AnyChar) else if c == '?' then One(AnyChar) else One(Literal(c))
  }

  function GlobPieces(glob: string): seq<Piece> {
    if glob == "" then [] else [GlobPiece(glob[0])] + GlobPieces(glob[1..])
  }

  /** The translated text always parses, to one piece a character. */
  lemma {:induction false} TranslationParses(glob: string)
    ensures Parse(FlatMap(glob, TranslateChar)) == Some(GlobPieces(glob))
  {
    if glob != "" {
      var c, tail := glob[0], FlatMap(glob[1..], TranslateChar);
      TranslationParses(glob[1..]);
      assert tail == "" || !IsQuantifier(tail[0]);
      var text := TranslateChar(c) + tail;
      if c == '*' {
        assert text[1..] == "*" + tail;
        assert (text[1..])[1..] == tail;
      } else {
        assert text[|TranslateChar(c)|..] == tail;
        assert ParseAtom(text) == Some((if c == '?' then AnyChar else Literal(c), tail));
      }
    }
  }

  /** The glob with wildcards that refuse line breaks: `*` is any run within a line, `?` any one character of it. */
  predicate GlobMatchesInLine(glob: string, s: string)
    decreases |glob|
  {
    if glob == "" then s == ""
    else if glob[0] == '*' then exists k :: 0 <= k <= |s| && OneLine(s[..k]) && GlobMatchesInLine(glob[1..], s[k..])
    else s != "" && (if glob[0] == '?' then !IsLineTerminator(s[0]) else glob[0] == s[0]) && GlobMatchesInLine(glob[1..], s[1..])
  }

  lemma {:induction false} GlobPiecesMatch(glob: string, s: string)
    ensures Matches(GlobPieces(glob), s, true) <==> GlobMatchesInLine(glob, s)
    decreases |glob| + |s|
  {
    if glob != "" {
      assert GlobPieces(glob)[1..] == GlobPieces(glob[1..]);
      if glob[0] == '*' {
        GlobPiecesMatch(glob[1..], s);
        if s != "" {
          GlobPiecesMatch(glob, s[1..]);
        }
        StarUnrolls(glob, s);
      } else if s != "" {
        GlobPiecesMatch(glob[1..], s[1..]);
      }
    }
  }

  lemma StarTakes(glob: string, s: string)
    requires glob != "" && glob[0] == '*' && GlobMatchesInLine(glob, s) && !GlobMatchesInLine(glob[1..], s)
    ensures s != "" && !IsLineTerminator(s[0]) && GlobMatchesInLine(glob, s[1..])
  {
    var k :| 0 <= k <= |s| && OneLine(s[..k]) && GlobMatchesInLine(glob[1..], s[k..]);
    assert s[0..] == s;
    assert s[..k][0] == s[0] && s[0] in s[..k];
    assert s[1..][..k - 1] == s[..k][1..] && s[1..][k - 1..] == s[k..];
    assert OneLine(s[..k][1..]);
  }

  lemma StarExtends(glob: string, s: string)
    requires glob != "" && glob[0] == '*' && s != "" && !IsLineTerminator(s[0]) && GlobMatchesInLine(glob, s[1..])
    ensures GlobMatchesInLine(glob, s)
  {
    var k :| 0 <= k <= |s[1..]| && OneLine(s[1..][..k]) && GlobMatchesInLine(glob[1..], s[1..][k..]);
    assert s[..k + 1] == [s[0]] + s[1..][..k] && s[k + 1..] == s[1..][k..];
  }

  /** A leading `*` takes nothing, or takes one character of the line and stays. */
  lemma StarUnrolls(glob: string, s: string)
    requires glob != "" && glob[0] == '*'
    ensures GlobMatchesInLine(glob, s) <==>
              || GlobMatchesInLine(glob[1..], s)
              || (s != "" && !IsLineTerminator(s[0]) && GlobMatchesInLine(glob, s[1..]))
  {
    if GlobMatchesInLine(glob, s) && !GlobMatchesInLine(glob[1..], s) {
      StarTakes(glob, s);
    }
    if GlobMatchesInLine(glob[1..], s) {
      assert s[0..] == s && s[..0] == "";
    }
    if s != "" && !IsLineTerminator(s[0]) && GlobMatchesInLine(glob, s[1..]) {
      StarExtends(glob, s);
    }
  }

  /** Within one line the two readings of a glob are the same. */
  lemma {:induction false} OneLineGlobs(glob: string, s: string)
    requires OneLine(s)
    ensures GlobMatchesInLine(glob, s) <==> GlobMatches(glob, s)
    decreases |glob|
  {
    if glob != "" {
      forall k | 0 <= k <= |s| ensures OneLine(s[..k]) && (GlobMatchesInLine(glob[1..], s[k..]) <==> GlobMatches(glob[1..], s[k..])) {
        assert OneLine(s[k..]);
        OneLineGlobs(glob[1..], s[k..]);
      }
      if s != "" {
        assert s[0] in s;
      }
    }
  }

  /** The compiled expression is well formed and accepts exactly the strings the glob matches with wildcards kept in a line. */
  lemma CompiledGlobIsExact(pattern: string, s: string)
    ensures Parse(CompileGlob(pattern)).Some?
    ensures Accepts(CompileGlob(pattern), s, true) <==> GlobMatchesInLine(TrimLower(pattern), s)
  {
    PassesAreOneTranslation(TrimLower(pattern));
    TranslationParses(TrimLower(pattern));
    GlobPiecesMatch(TrimLower(pattern), s);
  }

  /** So on one line it accepts exactly the glob's strings. */
  lemma CompiledGlobMeansGlob(pattern: string, s: string)
    requires OneLine(s)
    ensures Parse(CompileGlob(pattern)).Some?
    ensures Accepts(CompileGlob(pattern), s, true) <==> GlobMatches(TrimLower(pattern), s)
  {
    CompiledGlobIsExact(pattern, s);
    OneLineGlobs(TrimLower(pattern), s);
  }

  /** The restriction to one line is needed: `.` refuses a line break, a glob's `*` does not. */
  lemma LineBreaksEscapeTheGlob()
    ensures GlobMatches(TrimLower("*"), "\n") && !Accepts(CompileGlob("*"), "\n", true)
  {
    assert TrimLower("*") == "*";
    PassesAreOneTranslation("*");
    TranslationParses("*");
    assert GlobPieces("*") == [Star(AnyChar)] + GlobPieces("");
    assert GlobMatches("", "\n"[1..]);
    assert GlobMatches("*", "\n");
  }

  // --- allow-lists ---------------------------------------------------------------------

  datatype AllowList = AllowList(recipients: seq<string>, domains: seq<string>, patterns: seq<string>)

  datatype ParsedAddress = ParsedAddress(address: string, domain: string)

  const OPEN := AllowList([], [], [])

  /** The library parser, and the one fact relied on: a parsed address has no line break. */
  type AddressParser = string -> Option<ParsedAddress>

  ghost predicate OneLineAddresses(parse: AddressParser) {
    forall s :: parse(s).Some? ==> OneLine(parse(s).value.address)
  }

  function Normalized(values: seq<string>): (r: set<string>)
  {
    set i | 0 <= i < |values| :: TrimLower(values[i])
  }

  predicate RecipientAllowed(allow: AllowList, r: ParsedAddress) {
    || r.address in Normalized(allow.recipients)
    || r.domain in Normalized(allow.domains)
    || exists i :: 0 <= i < |allow.patterns| && Accepts(CompileGlob(allow.patterns[i]), r.address, true)
  }

  /** `recipientConstraintsSatisfied` for a capability that sends; `recipients` is None when the resource names none. */
  predicate RecipientsSatisfy(parse: AddressParser, allow: AllowList, recipients: Option<seq<string>>)
  {
    if Normalized(allow.recipients) == {} && Normalized(allow.domains) == {} && allow.patterns == [] then true
    else if recipients.None? || recipients.value == [] then false
    else if exists i :: 0 <= i < |recipients.value| && parse(recipients.value[i]).None? then false
    else forall i :: 0 <= i < |recipients.value| ==> RecipientAllowed(allow, parse(recipients.value[i]).value)
  }

  /** One entry of the list covers the address: by name, by domain, or by glob. */
  ghost predicate Covers(allow: AllowList, r: ParsedAddress) {
    || (exists entry :: entry in allow.recipients && TrimLower(entry) == r.address)
    || (exists entry :: entry in allow.domains && TrimLower(entry) == r.domain)
    || (exists entry :: entry in allow.patterns && GlobMatches(TrimLower(entry), r.address))
  }

  lemma AllowedIsCovered(allow: AllowList, r: ParsedAddress)
    requires OneLine(r.address)
    ensures RecipientAllowed(allow, r) <==> Covers(allow, r)
  {
    forall entry | entry in allow.patterns
      ensures Accepts(CompileGlob(entry), r.address, true) <==> GlobMatches(TrimLower(entry), r.address)
    {
      CompiledGlobMeansGlob(entry, r.address);
    }
    forall entry | entry in allow.recipients ensures TrimLower(entry) in Normalized(allow.recipients) {
      var i :| 0 <= i < |allow.recipients| && allow.recipients[i] == entry;
    }
    forall entry | entry in allow.domains ensures TrimLower(entry) in Normalized(allow.domains) {
      var i :| 0 <= i < |allow.domains| && allow.domains[i] == entry;
    }
  }

  /**
   * A list with no entry allows everything; any other list allows a message exactly when it
   * has a recipient and every recipient parses and is covered by an entry.
   */
  lemma SatisfiedExactlyWhenCovered(parse: AddressParser, allow: AllowList, recipients: Option<seq<string>>)
    requires OneLineAddresses(parse)
    ensures RecipientsSatisfy(parse, allow, recipients) <==>
              || allow == OPEN
              || (&& recipients.Some? && recipients.value != []
                  && forall r :: r in recipients.value ==> parse(r).Some? && Covers(allow, parse(r).value))
  {
    if allow.recipients != [] {
      assert TrimLower(allow.recipients[0]) in Normalized(allow.recipients);
    }
    if allow.domains != [] {
      assert TrimLower(allow.domains[0]) in Normalized(allow.domains);
    }
    if recipients.Some? {
      forall r | r in recipients.value && parse(r).Some?
        ensures RecipientAllowed(allow, parse(r).value) <==> Covers(allow, parse(r).value)
      {
        AllowedIsCovered(allow, parse(r).value);
      }
    }
  }
}
