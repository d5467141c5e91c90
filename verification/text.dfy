/** Strings as the TypeScript services see them: trimming, lower-casing, splitting and joining. */
module Text {

  /** The characters String.prototype.trim removes. */
  predicate IsWhitespace(c: char) {
    || c == ' ' || '\t' <= c <= '\r' || c == '\U{A0}' || c == '\U{1680}' || '\U{2000}' <= c <= '\U{200A}'
    || c == '\U{2028}' || c == '\U{2029}' || c == '\U{202F}' || c == '\U{205F}' || c == '\U{3000}' || c == '\U{FEFF}'
  }

  function TrimStart(s: string, space: char -> bool): string {
    if s != "" && space(s[0]) then TrimStart(s[1..], space) else s
  }

  function TrimEnd(s: string, space: char -> bool): string {
    if s != "" && space(s[|s| - 1]) then TrimEnd(s[..|s| - 1], space) else s
  }

  function TrimWhere(s: string, space: char -> bool): string {
    TrimEnd(TrimStart(s, space), space)
  }

  function Trim(s: string): string {
    TrimWhere(s, IsWhitespace)
  }

  predicate HasBareEnds(s: string, space: char -> bool) {
    s == "" || (!space(s[0]) && !space(s[|s| - 1]))
  }

  predicate IsTrimmed(s: string) {
    HasBareEnds(s, IsWhitespace)
  }

  lemma {:induction false} TrimEndKeepsStart(s: string, space: char -> bool)
    requires s == "" || !space(s[0])
    ensures HasBareEnds(TrimEnd(s, space), space)
  {
    if s != "" && space(s[|s| - 1]) {
      TrimEndKeepsStart(s[..|s| - 1], space);
    }
  }

  lemma {:induction false} TrimStartStarts(s: string, space: char -> bool)
    ensures TrimStart(s, space) == "" || !space(TrimStart(s, space)[0])
  {
    if s != "" && space(s[0]) {
      TrimStartStarts(s[1..], space);
    }
  }

  /** The fixed points of trimming are exactly its results. */
  lemma TrimWhereFixedPoints(s: string, space: char -> bool)
    ensures HasBareEnds(TrimWhere(s, space), space)
    ensures TrimWhere(s, space) == s <==> HasBareEnds(s, space)
  {
    TrimStartStarts(s, space);
    TrimEndKeepsStart(TrimStart(s, space), space);
  }

  lemma TrimFixedPoints(s: string)
    ensures IsTrimmed(Trim(s))
    ensures Trim(s) == s <==> IsTrimmed(s)
  {
    TrimWhereFixedPoints(s, IsWhitespace);
  }

  lemma TrimAddsNothing(s: string, c: char)
    requires c !in s
    ensures c !in Trim(s)
  {
    StartAddsNothing(s, c);
    EndAddsNothing(TrimStart(s, IsWhitespace), c);
  }

  lemma {:induction false} StartAddsNothing(s: string, c: char)
    requires c !in s
    ensures c !in TrimStart(s, IsWhitespace)
  {
    if s != "" {
      StartAddsNothing(s[1..], c);
    }
  }

  lemma {:induction false} EndAddsNothing(s: string, c: char)
    requires c !in s
    ensures c !in TrimEnd(s, IsWhitespace)
  {
    if s != "" {
      EndAddsNothing(s[..|s| - 1], c);
    }
  }

  lemma {:induction false} TrimKeepsInk(s: string, c: char)
    requires c in s && !IsWhitespace(c)
    ensures c in Trim(s)
  {
    TrimStartKeepsInk(s, c);
    TrimEndKeepsInk(TrimStart(s, IsWhitespace), c);
  }

  lemma {:induction false} TrimStartKeepsInk(s: string, c: char)
    requires c in s && !IsWhitespace(c)
    ensures c in TrimStart(s, IsWhitespace)
  {
    if IsWhitespace(s[0]) {
      TrimStartKeepsInk(s[1..], c);
    }
  }

  lemma {:induction false} TrimEndKeepsInk(s: string, c: char)
    requires c in s && !IsWhitespace(c)
    ensures c in TrimEnd(s, IsWhitespace)
  {
    if IsWhitespace(s[|s| - 1]) {
      TrimEndKeepsInk(s[..|s| - 1], c);
    }
  }

  function LowerChar(c: char): char {
    if 'A' <= c <= 'Z' then c - 'A' + 'a' else c
  }

  function Lower(s: string): (r: string)
    ensures |r| == |s|
  {
    seq(|s|, i requires 0 <= i < |s| => LowerChar(s[i]))
  }

  lemma LowerIsIdempotent(s: string)
    ensures Lower(Lower(s)) == Lower(s)
  {
  }

  /** Lower-casing leaves no capital, and changes nothing else. */
  lemma LowerHasNoCapitals(s: string)
    ensures forall i :: 0 <= i < |s| ==> !('A' <= Lower(s)[i] <= 'Z')
    ensures forall i :: 0 <= i < |s| ==> if 'A' <= s[i] <= 'Z' then Lower(s)[i] as int == s[i] as int + 32 else Lower(s)[i] == s[i]
  {
  }

  function TrimLower(s: string): string {
    Lower(Trim(s))
  }

  lemma TrimLowerIsIdempotent(s: string)
    ensures TrimLower(TrimLower(s)) == TrimLower(s)
    ensures Lower(TrimLower(s)) == TrimLower(s)
    ensures TrimLower(Lower(TrimLower(s))) == TrimLower(s)
  {
    TrimFixedPoints(s);
    TrimFixedPoints(TrimLower(s));
    LowerIsIdempotent(Trim(s));
  }

  /** Concatenation of the images of the characters of `s`: what a global character replacement computes. */
  function FlatMap(s: string, f: char -> string): string {
    if s == "" then "" else f(s[0]) + FlatMap(s[1..], f)
  }

  lemma {:induction false} FlatMapAppend(s: string, t: string, f: char -> string)
    ensures FlatMap(s + t, f) == FlatMap(s, f) + FlatMap(t, f)
  {
    if s == "" {
      assert s + t == t;
    } else {
      assert (s + t)[1..] == s[1..] + t;
      FlatMapAppend(s[1..], t, f);
    }
  }

  lemma {:induction false} FlatMapCompose(s: string, f: char -> string, g: char -> string, h: char -> string)
    requires forall c :: h(c) == FlatMap(f(c), g)
    ensures FlatMap(FlatMap(s, f), g) == FlatMap(s, h)
  {
    if s != "" {
      FlatMapAppend(f(s[0]), FlatMap(s[1..], f), g);
      FlatMapCompose(s[1..], f, g, h);
    }
  }

  /** String.prototype.split on a one-character separator. */
  function Split(s: string, separator: char): (parts: seq<string>)
    ensures |parts| >= 1
  {
    if s == "" then [""]
    else
      var rest := Split(s[1..], separator);
      if s[0] == separator then [""] + rest else [[s[0]] + rest[0]] + rest[1..]
  }

  function Join(parts: seq<string>, separator: char): string
  {
    if parts == [] then ""
    else if |parts| == 1 then parts[0]
    else parts[0] + [separator] + Join(parts[1..], separator)
  }

  lemma {:induction false} SplitSegment(segment: string, separator: char)
    requires separator !in segment
    ensures Split(segment, separator) == [segment]
  {
    if segment != "" {
      SplitSegment(segment[1..], separator);
      assert [segment[0]] + segment[1..] == segment;
    }
  }

  /** Splitting distributes over a separator. */
  lemma {:induction false} SplitAppend(s: string, t: string, separator: char)
    ensures Split(s + [separator] + t, separator) == Split(s, separator) + Split(t, separator)
  {
    var whole := s + [separator] + t;
    if s == "" {
      assert whole[1..] == t;
    } else {
      assert whole[1..] == s[1..] + [separator] + t;
      SplitAppend(s[1..], t, separator);
    }
  }

  /** Splitting undoes joining when no part contains the separator. */
  lemma {:induction false} SplitJoin(parts: seq<string>, separator: char)
    requires parts != [] && forall p :: p in parts ==> separator !in p
    ensures Split(Join(parts, separator), separator) == parts
  {
    if |parts| == 1 {
      SplitSegment(parts[0], separator);
    } else {
      var tail := parts[1..];
      assert forall p :: p in tail ==> p in parts;
      SplitJoin(tail, separator);
      SplitSegment(parts[0], separator);
      SplitAppend(parts[0], Join(tail, separator), separator);
      assert Join(parts, separator) == parts[0] + [separator] + Join(tail, separator);
      assert [parts[0]] + tail == parts;
    }
  }

  /** Joining undoes splitting. */
  lemma {:induction false} JoinSplit(s: string, separator: char)
    ensures Join(Split(s, separator), separator) == s
  {
    if s != "" {
      JoinSplit(s[1..], separator);
      var rest := Split(s[1..], separator);
      if s[0] == separator {
        assert Split(s, separator)[1..] == rest;
      } else {
        assert Split(s, separator)[1..] == rest[1..];
      }
    }
  }

  /** The parts of a split never contain the separator. */
  lemma {:induction false} SplitParts(s: string, separator: char)
    ensures forall p :: p in Split(s, separator) ==> separator !in p
  {
    if s != "" {
      SplitParts(s[1..], separator);
      var rest := Split(s[1..], separator);
      assert rest[0] in rest;
      assert forall p :: p in rest[1..] ==> p in rest;
    }
  }
}
