/** The Go standard-library string functions the command line relies on. */
module GoText {
  import opened Text

  /** unicode.IsSpace. */
  predicate IsSpace(c: char) {
    || c == ' ' || '\t' <= c <= '\r' || c == '\U{85}' || c == '\U{A0}' || c == '\U{1680}'
    || '\U{2000}' <= c <= '\U{200A}' || c == '\U{2028}' || c == '\U{2029}' || c == '\U{202F}'
    || c == '\U{205F}' || c == '\U{3000}'
  }

  function TrimSpace(s: string): string {
    TrimWhere(s, IsSpace)
  }

  lemma TrimSpaceIsIdempotent(s: string)
    ensures TrimSpace(TrimSpace(s)) == TrimSpace(s)
  {
    TrimWhereFixedPoints(s, IsSpace);
    TrimWhereFixedPoints(TrimSpace(s), IsSpace);
  }

  /**
   * unicode.ToLower, on the characters whose lower case is an ASCII letter: besides A-Z
   * these are the dotted capital I (U+0130) and the Kelvin sign (U+212A).
   */
  function ToLowerChar(c: char): char {
    if 'A' <= c <= 'Z' then c - 'A' + 'a'
    else if c == '\U{130}' then 'i'
    else if c == '\U{212A}' then 'k'
    else c
  }

  function ToLower(s: string): (r: string)
    ensures |r| == |s|
  {
    seq(|s|, i requires 0 <= i < |s| => ToLowerChar(s[i]))
  }

  /** Lower-casing leaves no capital, of the two others included, and otherwise only moves capitals to their small letters. */
  lemma LowerHasNoCapitals(s: string)
    ensures forall i :: 0 <= i < |s| ==> !('A' <= ToLower(s)[i] <= 'Z') && ToLower(s)[i] as int !in {0x130, 0x212A}
    ensures forall i :: 0 <= i < |s| ==>
              if 'A' <= s[i] <= 'Z' then ToLower(s)[i] as int == s[i] as int + 32
              else ToLower(s)[i] == s[i] || (ToLower(s)[i] == 'i' && s[i] as int == 0x130) || (ToLower(s)[i] == 'k' && s[i] as int == 0x212A)
  {
  }

  predicate Contains(s: string, t: string) {
    exists k :: 0 <= k <= |s| && t <= s[k..]
  }

  // --- cutting a text into runs ------------------------------------------------------------------

  function Interleave(separators: seq<string>, words: seq<string>): string
    requires |separators| == |words| + 1
  {
    if words == [] then separators[0] else separators[0] + words[0] + Interleave(separators[1..], words[1..])
  }

  /** The words are the longest runs of good characters: the text is they and, between them, at least one other character. */
  predicate Cuts(separators: seq<string>, words: seq<string>, s: string, good: char -> bool) {
    && |separators| == |words| + 1 && Interleave(separators, words) == s
    && (forall i :: 0 <= i < |words| ==> words[i] != "" && forall j :: 0 <= j < |words[i]| ==> good(words[i][j]))
    && (forall i :: 0 <= i < |separators| ==> forall j :: 0 <= j < |separators[i]| ==> !good(separators[i][j]))
    && forall i :: 0 < i < |words| ==> separators[i] != ""
  }

  ghost predicate AreRunsOf(words: seq<string>, s: string, good: char -> bool) {
    exists separators :: Cuts(separators, words, s, good)
  }

  lemma NoRuns(good: char -> bool)
    ensures AreRunsOf([], "", good)
  {
    assert Cuts([""], [], "", good);
  }

  lemma OtherThenRuns(words: seq<string>, s: string, c: char, good: char -> bool)
    requires AreRunsOf(words, s, good) && !good(c)
    ensures AreRunsOf(words, [c] + s, good)
  {
    var separators :| Cuts(separators, words, s, good);
    var more := [[c] + separators[0]] + separators[1..];
    assert more[1..] == separators[1..];
    assert Interleave(more, words) == [c] + s;
    assert Cuts(more, words, [c] + s, good);
  }

  lemma FirstOfCut(separators: seq<string>, words: seq<string>, s: string, good: char -> bool)
    requires Cuts(separators, words, s, good) && s != ""
    ensures good(s[0]) <==> separators[0] == ""
    ensures separators[0] == "" ==> words != [] && s[0] == words[0][0]
  {
    if separators[0] == "" && words != [] {
      assert s[0] == words[0][0];
    }
  }

  lemma NewRun(words: seq<string>, s: string, c: char, good: char -> bool)
    requires AreRunsOf(words, s, good) && good(c) && (s == "" || !good(s[0]))
    ensures AreRunsOf([[c]] + words, [c] + s, good)
  {
    var separators :| Cuts(separators, words, s, good);
    if s != "" {
      FirstOfCut(separators, words, s, good);
    }
    var more, longer := [""] + separators, [[c]] + words;
    assert more[1..] == separators && longer[1..] == words;
    assert words != [] ==> s != "" && separators[0] != "";
    assert Interleave(more, longer) == [c] + s;
    assert Cuts(more, longer, [c] + s, good);
  }

  lemma LongerRun(words: seq<string>, s: string, c: char, good: char -> bool)
    requires AreRunsOf(words, s, good) && good(c) && s != "" && good(s[0])
    ensures words != [] && AreRunsOf([[c] + words[0]] + words[1..], [c] + s, good)
  {
    var separators :| Cuts(separators, words, s, good);
    FirstOfCut(separators, words, s, good);
    var longer := [[c] + words[0]] + words[1..];
    assert longer[1..] == words[1..];
    assert Interleave(separators, longer) == [c] + s;
    assert Cuts(separators, longer, [c] + s, good);
  }
}
