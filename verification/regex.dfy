/**
 * The regular-expression texts the services build at run time: literals (plain or
 * escaped), `.`, `\d`, and the quantifiers `*` and `{n}`, with the Unicode flag set.
 * `Parse` refuses every other construct, so a text with an unescaped syntax
 * character has no meaning here.
 */
module Regex {
  import opened Wrappers
  import opened Text

  datatype Atom = Literal(c: char) | AnyChar | Digit

  datatype Piece = One(atom: Atom) | Star(atom: Atom) | Times(atom: Atom, count: nat)

  predicate IsSyntax(c: char) {
    || c == '\\' || c == '^' || c == '$' || c == '.' || c == '*' || c == '+' || c == '?' || c == '(' || c == ')'
    || c == '[' || c == ']' || c == '{' || c == '}' || c == '|' || c == '/' 
  }

  /** `.` without the `s` flag refuses these. */
  predicate IsLineTerminator(c: char) {
    c == '\n' || c == '\r' || c == '\U{2028}' || c == '\U{2029}'
  }

  predicate IsDigit(c: char) {
    '0' <= c <= '9'
  }

  predicate Admits(atom: Atom, c: char) {
    match atom
    case Literal(l) => c == l
    case AnyChar => !IsLineTerminator(c)
    case Digit => IsDigit(c)
  }

  /** The atom at the head of `text` and the text after it. `/` needs no escape in the RegExp constructor. */
  function ParseAtom(text: string): (r: Option<(Atom, string)>)
    requires text != ""
    ensures r.Some? ==> |r.value.1| < |text|
  {
    if text[0] == '\\' then
      if |text| < 2 then None
      else if text[1] == 'd' then Some((Digit, text[2..]))
      else if IsSyntax(text[1]) then Some((Literal(text[1]), text[2..]))
      else None
    else if text[0] == '.' then Some((AnyChar, text[1..]))
    else if IsSyntax(text[0]) && text[0] != '/' then None
    else Some((Literal(text[0]), text[1..]))
  }

  predicate IsQuantifier(c: char) {
    c == '*' || c == '+' || c == '?' || c == '{'
  }

  function Parse(text: string): Option<seq<Piece>>
    decreases |text|
  {
    if text == "" then Some([])
    else match ParseAtom(text)
      case None => None
      case Some((atom, rest)) =>
        if rest == "" || !IsQuantifier(rest[0]) then Prepend(One(atom), Parse(rest))
        else if rest[0] == '*' then Prepend(Star(atom), Parse(rest[1..]))
        else if |rest| >= 3 && rest[0] == '{' && IsDigit(rest[1]) && rest[2] == '}' then
          Prepend(Times(atom, (rest[1] - '0') as nat), Parse(rest[3..]))
        else None
  }

  function Prepend(p: Piece, tail: Option<seq<Piece>>): Option<seq<Piece>> {
    if tail.None? then None else Some([p] + tail.value)
  }

  /** Does the expression `^pieces` (followed by `$` when `toEnd`) match `s`? */
  predicate Matches(pieces: seq<Piece>, s: string, toEnd: bool)
    decreases |pieces| + |s|
  {
    if pieces == [] then toEnd ==> s == ""
    else
      var tail := pieces[1..];
      match pieces[0]
      case One(a) => s != "" && Admits(a, s[0]) && Matches(tail, s[1..], toEnd)
      case Star(a) => Matches(tail, s, toEnd) || (s != "" && Admits(a, s[0]) && Matches(pieces, s[1..], toEnd))
      case Times(a, n) =>
        if n == 0 then Matches(tail, s, toEnd)
        else s != "" && Admits(a, s[0]) && Matches([Times(a, n - 1)] + tail, s[1..], toEnd)
  }

  /** The compiled meaning of an anchored expression text. */
  predicate Accepts(text: string, s: string, toEnd: bool)
  {
    var pieces := Parse(text);
    pieces.Some? && Matches(pieces.value, s, toEnd)
  }

  /** ingest.ts escapes every syntax character except `/`. */
  function EscapeChar(c: char): string {
    if IsSyntax(c) && c != '/' then ['\\', c] else [c]
  }

  function Escape(s: string): string {
    FlatMap(s, EscapeChar)
  }

  function Literals(s: string): seq<Piece> {
    seq(|s|, i requires 0 <= i < |s| => One(Literal(s[i])))
  }

  lemma OneEscapeIsLiteral(c: char, tail: string)
    requires tail == "" || !IsQuantifier(tail[0])
    ensures Parse(EscapeChar(c) + tail) == Prepend(One(Literal(c)), Parse(tail))
  {
    var text := EscapeChar(c) + tail;
    assert text[|EscapeChar(c)|..] == tail;
    assert ParseAtom(text) == Some((Literal(c), tail));
  }

  /** An escaped text means itself, whatever follows it (short of a quantifier). */
  lemma {:induction false} EscapedTextIsLiteral(s: string, rest: string)
    requires rest == "" || !IsQuantifier(rest[0])
    requires Parse(rest).Some?
    ensures Parse(Escape(s) + rest) == Some(Literals(s) + Parse(rest).value)
  {
    if s == "" {
      assert Escape(s) + rest == rest;
      assert Literals(s) + Parse(rest).value == Parse(rest).value;
    } else {
      var tail := Escape(s[1..]) + rest;
      EscapedTextIsLiteral(s[1..], rest);
      assert Escape(s) + rest == EscapeChar(s[0]) + tail;
      EscapedStart(s[1..], rest);
      OneEscapeIsLiteral(s[0], tail);
      LiteralsInTurn(s, Parse(rest).value);
    }
  }

  lemma EscapedStart(s: string, rest: string)
    requires rest == "" || !IsQuantifier(rest[0])
    ensures Escape(s) + rest == "" || !IsQuantifier((Escape(s) + rest)[0])
  {
  }

  lemma LiteralsInTurn(s: string, tail: seq<Piece>)
    requires s != ""
    ensures [One(Literal(s[0]))] + (Literals(s[1..]) + tail) == Literals(s) + tail
  {
    assert [One(Literal(s[0]))] + Literals(s[1..]) == Literals(s);
  }

  /** Literal pieces consume exactly their own text. */
  lemma {:induction false} LiteralsConsume(s: string, tail: seq<Piece>, t: string, toEnd: bool)
    ensures Matches(Literals(s) + tail, t, toEnd) <==> s <= t && Matches(tail, t[|s|..], toEnd)
  {
    if s == "" {
      assert Literals(s) + tail == tail;
      assert t[0..] == t;
    } else {
      var pieces := Literals(s) + tail;
      assert pieces[1..] == Literals(s[1..]) + tail;
      assert pieces[0] == One(Literal(s[0]));
      if t != "" && t[0] == s[0] {
        LiteralsConsume(s[1..], tail, t[1..], toEnd);
        assert |s| <= |t| ==> t[1..][|s| - 1..] == t[|s|..];
        assert s <= t <==> s[1..] <= t[1..] by {
          assert [s[0]] + s[1..] == s && [t[0]] + t[1..] == t;
        }
      }
    }
  }
}
