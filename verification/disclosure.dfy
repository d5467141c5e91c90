/**
 * The outbound disclosure check of the command line: text is reduced to lower-case words,
 * and a phrase is found by searching its padded text inside the padded message text.
 */
module Disclosure {
  import opened Wrappers
  import opened Text
  import opened GoText

  predicate IsWordChar(c: char) {
    'a' <= c <= 'z' || '0' <= c <= '9'
  }

  predicate IsWord(w: string) {
    w != "" && forall c :: c in w ==> IsWordChar(c)
  }

  predicate AreWords(ws: seq<string>) {
    forall w :: w in ws ==> IsWord(w)
  }

  // --- normalisation -----------------------------------------------------------------------

  function DropQuote(c: char): string {
    if c == '\'' then "" else [c]
  }

  function SkipOther(s: string): (r: string)
    ensures |r| <= |s|
  {
    if s != "" && !IsWordChar(s[0]) then SkipOther(s[1..]) else s
  }

  /** ReplaceAllString with `[^a-z0-9]+`: each run of other characters becomes one space. */
  function CollapseRuns(s: string): string
    decreases |s|
  {
    if s == "" then ""
    else if IsWordChar(s[0]) then [s[0]] + CollapseRuns(s[1..])
    else " " + CollapseRuns(SkipOther(s[1..]))
  }

  /** strings.Fields on text whose only white space is the space. */
  function Fields(s: string): seq<string> {
    if s == "" then []
    else if s[0] == ' ' then Fields(s[1..])
    else if |s| == 1 || s[1] == ' ' then [[s[0]]] + Fields(s[1..])
    else
      var rest := Fields(s[1..]);
      if rest == [] then [] else [[s[0]] + rest[0]] + rest[1..]
  }

  function Words(value: string): seq<string> {
    Fields(CollapseRuns(FlatMap(ToLower(value), DropQuote)))
  }

  function NormalizeDisclosureText(value: string): string {
    Join(Words(value), ' ')
  }

  function NormalizedContains(text: string, term: string): bool {
    Contains(" " + text + " ", " " + term + " ")
  }

  // --- what the words are --------------------------------------------------------------------

  /** A lower-case letter or a digit. */
  const LETTER_OR_DIGIT: char -> bool := (c: char) => 'a' <= c <= 'z' || '0' <= c <= '9'

  lemma {:induction false} CollapsedRuns(s: string)
    ensures AreRunsOf(Fields(CollapseRuns(s)), s, LETTER_OR_DIGIT)
  {
    if s == "" {
      NoRuns(LETTER_OR_DIGIT);
    } else {
      CollapsedRuns(s[1..]);
      var rest, words := s[1..], Fields(CollapseRuns(s[1..]));
      assert s == [s[0]] + rest;
      if !IsWordChar(s[0]) {
        SkippedIsCollapsed(rest);
        OtherThenRuns(words, rest, s[0], LETTER_OR_DIGIT);
      } else {
        CollapsedStart(rest);
        assert CollapseRuns(s)[1..] == CollapseRuns(rest);
        if rest == "" || !IsWordChar(rest[0]) {
          NewRun(words, rest, s[0], LETTER_OR_DIGIT);
        } else {
          LongerRun(words, rest, s[0], LETTER_OR_DIGIT);
        }
      }
    }
  }

  /** Skipping other characters first changes no word. */
  lemma SkippedIsCollapsed(s: string)
    ensures Fields(" " + CollapseRuns(SkipOther(s))) == Fields(CollapseRuns(s))
  {
    var skipped := CollapseRuns(SkipOther(s));
    assert (" " + skipped)[1..] == skipped;
    if s != "" && !IsWordChar(s[0]) {
      assert CollapseRuns(s)[1..] == skipped;
    }
  }

  lemma CollapsedStart(s: string)
    ensures s == "" <==> CollapseRuns(s) == ""
    ensures s != "" ==> if IsWordChar(s[0]) then CollapseRuns(s)[0] == s[0] else CollapseRuns(s)[0] == ' '
  {
  }

  /** The words of a text are the longest runs of letters and digits of its lower-case form without apostrophes. */
  lemma WordsAreRuns(value: string)
    ensures AreRunsOf(Words(value), FlatMap(ToLower(value), DropQuote), LETTER_OR_DIGIT)
  {
    CollapsedRuns(FlatMap(ToLower(value), DropQuote));
  }

  // --- words and their text ------------------------------------------------------------------

  lemma {:induction false} CollapsedChars(s: string)
    ensures forall c :: c in CollapseRuns(s) ==> IsWordChar(c) || c == ' '
    decreases |s|
  {
    if s != "" {
      if IsWordChar(s[0]) {
        CollapsedChars(s[1..]);
      } else {
        CollapsedChars(SkipOther(s[1..]));
      }
    }
  }

  lemma {:induction false} FieldsAreWords(s: string)
    requires forall c :: c in s ==> IsWordChar(c) || c == ' '
    ensures AreWords(Fields(s))
  {
    if s != "" {
      FieldsAreWords(s[1..]);
      var rest := Fields(s[1..]);
      assert s[0] in s;
      if s[0] != ' ' && !(|s| == 1 || s[1] == ' ') && rest != [] {
        assert rest[0] in rest;
        assert forall w :: w in rest[1..] ==> w in rest;
      }
    }
  }

  lemma WordsAreWords(value: string)
    ensures AreWords(Words(value))
  {
    CollapsedChars(FlatMap(ToLower(value), DropQuote));
    FieldsAreWords(CollapseRuns(FlatMap(ToLower(value), DropQuote)));
  }

  /** Words joined by single spaces: no two spaces meet, none at the ends. */
  predicate IsSpaced(s: string) {
    && (forall c :: c in s ==> IsWordChar(c) || c == ' ')
    && (forall i :: 0 <= i < |s| && s[i] == ' ' ==> i + 1 < |s| && s[i + 1] != ' ')
  }

  lemma {:induction false} SpacedIsStable(s: string)
    requires IsSpaced(s)
    ensures CollapseRuns(FlatMap(ToLower(s), DropQuote)) == s
  {
    if s != "" {
      assert s[0] in s;
      assert ToLower(s)[0] == s[0] && ToLower(s)[1..] == ToLower(s[1..]);
      assert DropQuote(s[0]) == [s[0]];
      assert IsSpaced(s[1..]) by {
        assert forall i :: 0 <= i < |s[1..]| ==> s[1..][i] == s[i + 1];
      }
      SpacedIsStable(s[1..]);
      var rest := FlatMap(ToLower(s[1..]), DropQuote);
      assert FlatMap(ToLower(s), DropQuote) == [s[0]] + rest;
      if s[0] == ' ' {
        assert s[1] in s && rest != "" && rest[0] == s[1] by {
          assert ToLower(s[1..])[0] == s[1] && DropQuote(s[1]) == [s[1]];
        }
        assert SkipOther(rest) == rest;
      }
    }
  }

  lemma {:induction false} JoinedWordsAreSpaced(ws: seq<string>)
    requires AreWords(ws)
    ensures IsSpaced(Join(ws, ' '))
    ensures ws != [] ==> Join(ws, ' ') != "" && Join(ws, ' ')[0] != ' '
  {
    if |ws| > 1 {
      assert AreWords(ws[1..]);
      JoinedWordsAreSpaced(ws[1..]);
      assert IsWord(ws[0]) && ws[0][0] in ws[0];
      var tail := Join(ws[1..], ' ');
      var s := Join(ws, ' ');
      assert s == ws[0] + [' '] + tail;
      forall i | 0 <= i < |ws[0]| ensures s[i] != ' ' {
        assert ws[0][i] in ws[0];
      }
      forall i | 0 <= i < |s| && s[i] == ' ' ensures i + 1 < |s| && s[i + 1] != ' ' {
        if i > |ws[0]| {
          assert s[i] == tail[i - |ws[0]| - 1];
        }
      }
    } else if |ws| == 1 {
      assert IsWord(ws[0]);
      assert forall i :: 0 <= i < |ws[0]| ==> ws[0][i] in ws[0];
    }
  }

  lemma {:induction false} FieldsOfWord(w: string, rest: string)
    requires IsWord(w) && (rest == "" || rest[0] == ' ')
    ensures Fields(w + rest) == [w] + Fields(rest)
  {
    assert w[0] in w;
    assert (w + rest)[1..] == w[1..] + rest;
    if |w| == 1 {
      assert w[1..] + rest == rest;
      assert w == [w[0]];
    } else {
      assert w[1] in w;
      assert forall c :: c in w[1..] ==> c in w;
      FieldsOfWord(w[1..], rest);
      assert [w[0]] + w[1..] == w;
    }
  }

  lemma {:induction false} FieldsOfJoin(ws: seq<string>)
    requires AreWords(ws)
    ensures Fields(Join(ws, ' ')) == ws
  {
    if |ws| == 1 {
      assert ws[0] + "" == ws[0];
      FieldsOfWord(ws[0], "");
    } else if |ws| > 1 {
      var tail := Join(ws[1..], ' ');
      assert AreWords(ws[1..]);
      FieldsOfJoin(ws[1..]);
      FieldsOfWord(ws[0], " " + tail);
      assert Join(ws, ' ') == ws[0] + (" " + tail);
      assert (" " + tail)[1..] == tail;
      assert [ws[0]] + ws[1..] == ws;
    }
  }

  /** Normal text keeps its words, so normalising twice changes nothing. */
  lemma NormalizationIsIdempotent(value: string)
    ensures Words(NormalizeDisclosureText(value)) == Words(value)
    ensures NormalizeDisclosureText(NormalizeDisclosureText(value)) == NormalizeDisclosureText(value)
  {
    WordsAreWords(value);
    JoinedWordsAreSpaced(Words(value));
    SpacedIsStable(NormalizeDisclosureText(value));
    FieldsOfJoin(Words(value));
  }

  // --- containment -----------------------------------------------------------------------------

  predicate IsRun(text: seq<string>, term: seq<string>) {
    exists i :: 0 <= i <= |text| && term <= text[i..]
  }

  /** Every word preceded by a space, and one space at the end. */
  function Spaced(ws: seq<string>): string {
    if ws == [] then " " else " " + ws[0] + Spaced(ws[1..])
  }

  lemma {:induction false} PaddedJoinIsSpaced(ws: seq<string>)
    requires ws != []
    ensures " " + Join(ws, ' ') + " " == Spaced(ws)
  {
    if |ws| == 1 {
      assert Spaced(ws[1..]) == " ";
    } else {
      PaddedJoinIsSpaced(ws[1..]);
      assert Join(ws, ' ') == ws[0] + " " + Join(ws[1..], ' ');
      assert " " + Join(ws, ' ') + " " == " " + ws[0] + (" " + Join(ws[1..], ' ') + " ");
    }
  }

  lemma {:induction false} PrefixOfSpaced(ws: seq<string>, us: seq<string>)
    requires AreWords(ws) && AreWords(us)
    ensures Spaced(us) <= Spaced(ws) <==> us <= ws
  {
    if us != [] {
      assert IsWord(us[0]) && AreWords(us[1..]);
      var p, q := Spaced(us), Spaced(ws);
      assert p[1..] == us[0] + Spaced(us[1..]);
      if ws == [] {
        assert |p| > 1;
      } else {
        assert IsWord(ws[0]) && AreWords(ws[1..]);
        PrefixOfSpaced(ws[1..], us[1..]);
        assert us <= ws <==> us[0] == ws[0] && us[1..] <= ws[1..] by {
          assert us == [us[0]] + us[1..] && ws == [ws[0]] + ws[1..];
        }
        if us[0] == ws[0] {
          SamePrefix(" " + us[0], Spaced(us[1..]), Spaced(ws[1..]));
        } else if p <= q {
          FirstWordsAgree(us[0], Spaced(us[1..]), ws[0], Spaced(ws[1..]));
        }
      }
    } else {
      assert Spaced(ws)[0] == ' ';
    }
  }

  lemma SamePrefix(h: string, s: string, t: string)
    ensures h + s <= h + t <==> s <= t
  {
    if h + s <= h + t {
      assert s == (h + s)[|h|..] && t == (h + t)[|h|..];
      assert forall i :: 0 <= i < |s| ==> s[i] == (h + s)[|h| + i] && t[i] == (h + t)[|h| + i];
    }
  }

  function FirstSpace(s: string): nat {
    if s == "" || s[0] == ' ' then 0 else 1 + FirstSpace(s[1..])
  }

  lemma {:induction false} FirstSpaceEndsWord(w: string, rest: string)
    requires (forall c :: c in w ==> IsWordChar(c)) && rest != "" && rest[0] == ' '
    ensures FirstSpace(w + rest) == |w|
  {
    if w == "" {
      assert w + rest == rest;
    } else {
      assert w[0] in w;
      assert (w + rest)[1..] == w[1..] + rest;
      FirstSpaceEndsWord(w[1..], rest);
    }
  }

  lemma {:induction false} FirstSpaceOfPrefix(s: string, t: string)
    requires s <= t && FirstSpace(s) < |s|
    ensures FirstSpace(t) == FirstSpace(s)
  {
    if s[0] != ' ' {
      FirstSpaceOfPrefix(s[1..], t[1..]);
    }
  }

  lemma FirstWordsAgree(u: string, s: string, w: string, t: string)
    requires IsWord(u) && IsWord(w)
    requires s != "" && s[0] == ' ' && t != "" && t[0] == ' '
    requires " " + u + s <= " " + w + t
    ensures u == w
  {
    assert (" " + u + s)[1..] == u + s && (" " + w + t)[1..] == w + t;
    FirstSpaceEndsWord(u, s);
    FirstSpaceEndsWord(w, t);
    FirstSpaceOfPrefix(u + s, w + t);
    assert (u + s)[..|u|] == u && (w + t)[..|w|] == w;
  }

  /** A needle that starts with a space can only start at a word's own space. */
  lemma ContainsPastWord(w: string, tail: string, needle: string)
    requires IsWord(w) && needle != "" && needle[0] == ' '
    ensures Contains(" " + w + tail, needle) <==> needle <= " " + w + tail || Contains(tail, needle)
  {
    var s := " " + w + tail;
    var h := 1 + |w|;
    assert s[0..] == s;
    assert forall k :: 0 <= k <= |tail| ==> s[h + k..] == tail[k..];
    forall j | 1 <= j < h ensures s[j] != ' ' {
      assert w[j - 1] in w;
    }
    if Contains(s, needle) {
      var k :| 0 <= k <= |s| && needle <= s[k..];
      assert k < |s| ==> s[k..][0] == s[k];
      if k >= h {
        assert s[h + (k - h)..] == tail[k - h..];
      }
    }
    if Contains(tail, needle) {
      var k :| 0 <= k <= |tail| && needle <= tail[k..];
      assert needle <= s[h + k..];
    }
  }

  lemma {:induction false} SpacedContainsRun(ws: seq<string>, us: seq<string>)
    requires AreWords(ws) && AreWords(us) && us != []
    ensures Contains(Spaced(ws), Spaced(us)) <==> IsRun(ws, us)
  {
    if ws == [] {
      assert us[0] in us;
      assert |Spaced(us)| > 1;
    } else {
      assert ws[0] in ws && AreWords(ws[1..]);
      SpacedContainsRun(ws[1..], us);
      ContainsPastWord(ws[0], Spaced(ws[1..]), Spaced(us));
      PrefixOfSpaced(ws, us);
      RunUnrolls(ws, us);
    }
  }

  lemma RunUnrolls(ws: seq<string>, us: seq<string>)
    requires ws != [] && us != []
    ensures IsRun(ws, us) <==> us <= ws || IsRun(ws[1..], us)
  {
    assert ws[0..] == ws;
    if IsRun(ws, us) {
      var i :| 0 <= i <= |ws| && us <= ws[i..];
      if i > 0 {
        assert ws[i..] == ws[1..][i - 1..];
      }
    }
    if IsRun(ws[1..], us) {
      var i :| 0 <= i <= |ws[1..]| && us <= ws[1..][i..];
      assert ws[1..][i..] == ws[i + 1..];
    }
  }

  /** Padded substring search is word matching. */
  lemma PaddedSearchIsWordMatching(text: string, term: string)
    requires Words(term) != []
    ensures NormalizedContains(NormalizeDisclosureText(text), NormalizeDisclosureText(term)) <==>
              IsRun(Words(text), Words(term))
  {
    var ws, us := Words(text), Words(term);
    WordsAreWords(text);
    WordsAreWords(term);
    PaddedJoinIsSpaced(us);
    if ws == [] {
      assert |us[0]| > 0 by { assert us[0] in us; }
      assert |Spaced(us)| > 2;
      assert " " + Join(ws, ' ') + " " == "  ";
    } else {
      PaddedJoinIsSpaced(ws);
      SpacedContainsRun(ws, us);
    }
  }

  // --- the outbound check ----------------------------------------------------------------------

  datatype Field = Subject | Body

  datatype IdentityTerm = IdentityTerm(source: string, value: string)

  datatype Violation = ProhibitedPhrase(field: Field, phrase: string) | InternalIdentity(field: Field, term: IdentityTerm)

  /** The needle occurs in the text, as whole words in a row. */
  predicate Discloses(text: string, needle: string) {
    Words(needle) != [] && IsRun(Words(text), Words(needle))
  }

  predicate Clean(text: string, needles: seq<string>) {
    forall n :: n in needles ==> !Discloses(text, n)
  }

  function Values(terms: seq<IdentityTerm>): seq<string> {
    seq(|terms|, i requires 0 <= i < |terms| => terms[i].value)
  }

  /** What the loop body computes for one needle. */
  lemma NeedleFound(text: string, needle: string)
    ensures Discloses(text, needle) <==>
              && NormalizeDisclosureText(needle) != ""
              && NormalizedContains(NormalizeDisclosureText(text), NormalizeDisclosureText(needle))
  {
    WordsAreWords(needle);
    JoinedWordsAreSpaced(Words(needle));
    if Words(needle) != [] {
      PaddedSearchIsWordMatching(text, needle);
    }
  }

  /** The violation names a needle of its own list that its field really contains, and none before it does. */
  predicate IsFirstViolation(text: string, field: Field, phrases: seq<string>, terms: seq<IdentityTerm>, v: Violation) {
    && v.field == field
    && match v
       case ProhibitedPhrase(_, phrase) =>
         exists k :: 0 <= k < |phrases| && phrases[k] == phrase && Discloses(text, phrase) && Clean(text, phrases[..k])
       case InternalIdentity(_, term) =>
         && Clean(text, phrases)
         && exists k :: 0 <= k < |terms| && terms[k] == term && Discloses(text, term.value) && Clean(text, Values(terms[..k]))
  }

  method CheckField(text: string, field: Field, phrases: seq<string>, terms: seq<IdentityTerm>) returns (v: Option<Violation>)
    ensures v.None? <==> Clean(text, phrases) && Clean(text, Values(terms))
    ensures v.Some? ==> IsFirstViolation(text, field, phrases, terms, v.value)
  {
    if text == "" {
      return None;
    }
    var normalized := NormalizeDisclosureText(text);
    for i := 0 to |phrases|
      invariant Clean(text, phrases[..i])
    {
      NeedleFound(text, phrases[i]);
      var normalizedPhrase := NormalizeDisclosureText(phrases[i]);
      if normalizedPhrase != "" && NormalizedContains(normalized, normalizedPhrase) {
        assert phrases[i] in phrases;
        return Some(ProhibitedPhrase(field, phrases[i]));
      }
      assert phrases[..i + 1] == phrases[..i] + [phrases[i]];
    }
    assert phrases[..|phrases|] == phrases;
    for i := 0 to |terms|
      invariant Clean(text, Values(terms[..i]))
    {
      NeedleFound(text, terms[i].value);
      var normalizedTerm := NormalizeDisclosureText(terms[i].value);
      if normalizedTerm != "" && NormalizedContains(normalized, normalizedTerm) {
        assert Values(terms)[i] in Values(terms);
        return Some(InternalIdentity(field, terms[i]));
      }
      assert Values(terms[..i + 1]) == Values(terms[..i]) + [terms[i].value];
    }
    assert terms[..|terms|] == terms;
    return None;
  }

  /**
   * The message passes exactly when no phrase and no identity term occurs, as whole words,
   * in its subject or body; a refusal names the first occurrence, subject first.
   */
  method ValidateOutboundMessage(subject: Option<string>, text: string, phrases: seq<string>, terms: seq<IdentityTerm>)
    returns (v: Option<Violation>)
    ensures var s := if subject.Some? then subject.value else "";
            && (v.None? <==> && Clean(s, phrases) && Clean(s, Values(terms))
                             && Clean(text, phrases) && Clean(text, Values(terms)))
            && (v.Some? ==>
                  || IsFirstViolation(s, Subject, phrases, terms, v.value)
                  || (&& Clean(s, phrases) && Clean(s, Values(terms))
                      && IsFirstViolation(text, Body, phrases, terms, v.value)))
  {
    var s := if subject.Some? then subject.value else "";
    v := CheckField(s, Subject, phrases, terms);
    if v.None? {
      v := CheckField(text, Body, phrases, terms);
    }
  }
}
