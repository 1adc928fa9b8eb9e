/**
 * `escapeHtml` and the reading back of the preview markup: the decoder that
 * drops the `<span>` tags and turns the three entities back into characters.
 */
module Markup {
  import opened Text

  /** Replaces every occurrence of character `c` by `rep` (a global `replace`). */
  function ReplaceAll(s: string, c: char, rep: string): (r: string)
  {
    if s == [] then [] else (if s[0] == c then rep else [s[0]]) + ReplaceAll(s[1..], c, rep)
  }

  /** What `escapeHtml` turns a single character into. */
  function EscapeChar(c: char): string
  {
    if c == '&' then "&amp;" else if c == '<' then "&lt;" else if c == '>' then "&gt;" else [c]
  }

  /** Escapes character by character. */
  function EscapeEach(s: string): string
  {
    if s == [] then [] else EscapeChar(s[0]) + EscapeEach(s[1..])
  }

  /** `escapeHtml`: `&` first, then `<`, then `>`, each replaced everywhere. */
  function EscapeHtml(s: string): string
  {
    ReplaceAll(ReplaceAll(ReplaceAll(s, '&', "&amp;"), '<', "&lt;"), '>', "&gt;")
  }

  lemma {:induction false} ReplaceAllAppend(a: string, b: string, c: char, rep: string)
    ensures ReplaceAll(a + b, c, rep) == ReplaceAll(a, c, rep) + ReplaceAll(b, c, rep)
  {
    if a != [] {
      assert (a + b)[0] == a[0];
      assert (a + b)[1..] == a[1..] + b;
      ReplaceAllAppend(a[1..], b, c, rep);
      var h := if a[0] == c then rep else [a[0]];
      calc {
        ReplaceAll(a + b, c, rep);
        h + ReplaceAll(a[1..] + b, c, rep);
        h + (ReplaceAll(a[1..], c, rep) + ReplaceAll(b, c, rep));
        (h + ReplaceAll(a[1..], c, rep)) + ReplaceAll(b, c, rep);
      }
    } else {
      assert a + b == b;
    }
  }

  /** Replacing a character that does not occur changes nothing. */
  lemma {:induction false} ReplaceAllAbsent(s: string, c: char, rep: string)
    requires c !in s
    ensures ReplaceAll(s, c, rep) == s
  {
    if s != [] {
      assert c !in s[1..];
      ReplaceAllAbsent(s[1..], c, rep);
      assert s == [s[0]] + s[1..];
    }
  }

  /**
   * The three sequential passes equal one character-by-character escape:
   * since `&` goes first, no pass rewrites what an earlier pass produced.
   */
  lemma {:induction false} EscapeHtmlPerChar(s: string)
    ensures EscapeHtml(s) == EscapeEach(s)
  {
    if s != [] {
      EscapeHtmlPerChar(s[1..]);
      var c := s[0];
      var amp := ReplaceAll(s[1..], '&', "&amp;");
      var head1 := if c == '&' then "&amp;" else [c];
      assert ReplaceAll(s, '&', "&amp;") == head1 + amp;
      ReplaceAllAppend(head1, amp, '<', "&lt;");
      var lt := ReplaceAll(amp, '<', "&lt;");
      var head2 := ReplaceAll(head1, '<', "&lt;");
      ReplaceAllAppend(head2, lt, '>', "&gt;");
      EscapeCharInPasses(c);
    }
  }

  /** The three passes applied to one character give its escape. */
  lemma EscapeCharInPasses(c: char)
    ensures var head1 := if c == '&' then "&amp;" else [c];
      ReplaceAll(ReplaceAll(head1, '<', "&lt;"), '>', "&gt;") == EscapeChar(c)
  {
    if c == '&' {
      ReplaceAllAbsent("&amp;", '<', "&lt;");
      ReplaceAllAbsent("&amp;", '>', "&gt;");
    } else if c == '<' {
      ReplaceAllSingle(c, '<', "&lt;");
      ReplaceAllAbsent("&lt;", '>', "&gt;");
    } else {
      ReplaceAllSingle(c, '<', "&lt;");
      ReplaceAllSingle(c, '>', "&gt;");
    }
  }

  lemma ReplaceAllSingle(x: char, c: char, rep: string)
    ensures ReplaceAll([x], c, rep) == if x == c then rep else [x]
  {
    assert [x][1..] == [];
  }

  /** Escaped text contains no tag delimiters. */
  lemma {:induction false} EscapedHasNoTags(s: string)
    ensures '<' !in EscapeHtml(s) && '>' !in EscapeHtml(s)
  {
    EscapeHtmlPerChar(s);
    EscapeEachHasNoTags(s);
  }

  lemma {:induction false} EscapeEachHasNoTags(s: string)
    ensures '<' !in EscapeEach(s) && '>' !in EscapeEach(s)
  {
    if s != [] {
      EscapeEachHasNoTags(s[1..]);
    }
  }

  const SpanOpen: string := "<span>"
  const ChordOpen: string := "<span class=\"chord\">"
  const SpanClose: string := "</span>"

  /** Wraps escaped text in a plain span. */
  function Span(s: string): string
  {
    SpanOpen + EscapeHtml(s) + SpanClose
  }

  /** Wraps escaped text in a chord span. */
  function ChordSpan(s: string): string
  {
    ChordOpen + EscapeHtml(s) + SpanClose
  }

  predicate StartsWith(h: string, p: string)
  {
    |p| <= |h| && h[..|p|] == p
  }

  /**
   * Reads markup back as text: drops the three tags the preview emits and
   * decodes `&amp;`, `&lt;` and `&gt;`; every other character is kept.
   */
  function Unmark(h: string): string
    decreases |h|
  {
    if h == [] then []
    else if h[0] == '<' then
      if StartsWith(h, SpanOpen) then Unmark(h[|SpanOpen|..])
      else if StartsWith(h, ChordOpen) then Unmark(h[|ChordOpen|..])
      else if StartsWith(h, SpanClose) then Unmark(h[|SpanClose|..])
      else [h[0]] + Unmark(h[1..])
    else if h[0] == '&' then
      if StartsWith(h, "&amp;") then "&" + Unmark(h[5..])
      else if StartsWith(h, "&lt;") then "<" + Unmark(h[4..])
      else if StartsWith(h, "&gt;") then ">" + Unmark(h[4..])
      else [h[0]] + Unmark(h[1..])
    else [h[0]] + Unmark(h[1..])
  }

  /** Decoding an escaped character gives the character back. */
  lemma UnmarkEscapeChar(c: char, rest: string)
    ensures Unmark(EscapeChar(c) + rest) == [c] + Unmark(rest)
  {
    if c == '&' {
      UnmarkEntity("&amp;", rest);
    } else if c == '<' {
      UnmarkEntity("&lt;", rest);
    } else if c == '>' {
      UnmarkEntity("&gt;", rest);
    } else {
      UnmarkPlain(c, rest);
    }
  }

  /** Each of the three entities decodes to its character. */
  lemma UnmarkEntity(e: string, rest: string)
    requires e == "&amp;" || e == "&lt;" || e == "&gt;"
    ensures Unmark(e + rest) == [if e == "&amp;" then '&' else if e == "&lt;" then '<' else '>'] + Unmark(rest)
  {
    var h := e + rest;
    assert h[0] == '&';
    assert h[..|e|] == e && h[|e|..] == rest;
    if e == "&lt;" {
      assert !StartsWith(h, "&amp;") by { assert h[1] != 'a'; }
    } else if e == "&gt;" {
      assert !StartsWith(h, "&amp;") by { assert h[1] != 'a'; }
      assert !StartsWith(h, "&lt;") by { assert h[1] != 'l'; }
    }
  }

  /** A character that starts neither a tag nor an entity is copied. */
  lemma UnmarkPlain(c: char, rest: string)
    requires c != '<' && c != '&'
    ensures Unmark([c] + rest) == [c] + Unmark(rest)
  {
    assert ([c] + rest)[1..] == rest;
  }

  /** Decoding inverts escaping, whatever follows the escaped text. */
  lemma {:induction false} UnmarkEscape(s: string, rest: string)
    ensures Unmark(EscapeHtml(s) + rest) == s + Unmark(rest)
  {
    EscapeHtmlPerChar(s);
    UnmarkEscapeEach(s, rest);
  }

  lemma {:induction false} UnmarkEscapeEach(s: string, rest: string)
    ensures Unmark(EscapeEach(s) + rest) == s + Unmark(rest)
  {
    if s != [] {
      var c, t := s[0], s[1..];
      UnmarkEscapeHead(s, rest);
      UnmarkEscapeEach(t, rest);
      assert s == [c] + t;
    } else {
      assert EscapeEach(s) + rest == rest;
    }
  }

  /** Decoding the escaped text reads its first character back and goes on with the rest. */
  lemma UnmarkEscapeHead(s: string, rest: string)
    requires s != []
    ensures Unmark(EscapeEach(s) + rest) == [s[0]] + Unmark(EscapeEach(s[1..]) + rest)
  {
    var c, t := s[0], s[1..];
    var tail := EscapeEach(t) + rest;
    assert EscapeEach(s) + rest == EscapeChar(c) + tail;
    UnmarkEscapeChar(c, tail);
  }

  /** The three tags are dropped. */
  lemma UnmarkTags(rest: string)
    ensures Unmark(SpanOpen + rest) == Unmark(rest)
    ensures Unmark(ChordOpen + rest) == Unmark(rest)
    ensures Unmark(SpanClose + rest) == Unmark(rest)
  {
    var a, b, c := SpanOpen + rest, ChordOpen + rest, SpanClose + rest;
    assert a[..|SpanOpen|] == SpanOpen && a[|SpanOpen|..] == rest;
    assert b[..|SpanOpen|] != SpanOpen by { assert b[5] != SpanOpen[5]; }
    assert b[..|ChordOpen|] == ChordOpen && b[|ChordOpen|..] == rest;
    assert c[..|SpanOpen|] != SpanOpen by { assert c[1] != SpanOpen[1]; }
    assert |c| < |ChordOpen| || c[..|ChordOpen|] != ChordOpen by {
      if |ChordOpen| <= |c| { assert c[1] != ChordOpen[1]; }
    }
    assert c[..|SpanClose|] == SpanClose && c[|SpanClose|..] == rest;
  }

  /** A chord span reads back as its chord. */
  lemma UnmarkChordSpan(s: string, rest: string)
    ensures Unmark(ChordSpan(s) + rest) == s + Unmark(rest)
  {
    assert ChordSpan(s) + rest == ChordOpen + (EscapeHtml(s) + (SpanClose + rest));
    UnmarkTags(EscapeHtml(s) + (SpanClose + rest));
    UnmarkEscape(s, SpanClose + rest);
    UnmarkTags(rest);
  }

  /** A span of text reads back as that text. */
  lemma UnmarkSpan(s: string, rest: string)
    ensures Unmark(Span(s) + rest) == s + Unmark(rest)
  {
    assert Span(s) + rest == SpanOpen + (EscapeHtml(s) + (SpanClose + rest));
    UnmarkTags(EscapeHtml(s) + (SpanClose + rest));
    UnmarkEscape(s, SpanClose + rest);
    UnmarkTags(rest);
  }

  /**
   * The pieces the preview markup is made of: a plain span, bare escaped
   * text (the brackets around a chord), a chord span, and a line break.
   */
  datatype Piece = TextSpan(text: string) | Escaped(text: string) | ChordTag(text: string) | Break

  /** The markup of one piece. */
  function PieceHtml(p: Piece): string
  {
    match p
    case TextSpan(s) => Span(s)
    case Escaped(s) => EscapeHtml(s)
    case ChordTag(s) => ChordSpan(s)
    case Break => "\n"
  }

  /** The text one piece shows. */
  function PieceText(p: Piece): string
  {
    if p.Break? then "\n" else p.text
  }

  function HtmlOf(ps: seq<Piece>): string
  {
    if ps == [] then [] else PieceHtml(ps[0]) + HtmlOf(ps[1..])
  }

  function TextOf(ps: seq<Piece>): string
  {
    if ps == [] then [] else PieceText(ps[0]) + TextOf(ps[1..])
  }

  lemma OnePiece(p: Piece)
    ensures HtmlOf([p]) == PieceHtml(p) && TextOf([p]) == PieceText(p)
  {
    assert [p][1..] == [];
    assert PieceHtml(p) + [] == PieceHtml(p) && PieceText(p) + [] == PieceText(p);
  }

  lemma ThreePieces(a: Piece, b: Piece, c: Piece)
    ensures HtmlOf([a, b, c]) == PieceHtml(a) + PieceHtml(b) + PieceHtml(c)
    ensures TextOf([a, b, c]) == PieceText(a) + PieceText(b) + PieceText(c)
  {
    assert [a, b, c][1..] == [b, c] && [b, c][1..] == [c];
    OnePiece(c);
    Assoc(PieceHtml(a), PieceHtml(b), PieceHtml(c));
    Assoc(PieceText(a), PieceText(b), PieceText(c));
  }

  lemma {:induction false} HtmlOfAppend(a: seq<Piece>, b: seq<Piece>)
    ensures HtmlOf(a + b) == HtmlOf(a) + HtmlOf(b)
  {
    if a == [] {
      assert a + b == b;
    } else {
      assert (a + b)[1..] == a[1..] + b;
      HtmlOfAppend(a[1..], b);
      Assoc(PieceHtml(a[0]), HtmlOf(a[1..]), HtmlOf(b));
    }
  }

  lemma {:induction false} TextOfAppend(a: seq<Piece>, b: seq<Piece>)
    ensures TextOf(a + b) == TextOf(a) + TextOf(b)
  {
    if a == [] {
      assert a + b == b;
    } else {
      assert (a + b)[1..] == a[1..] + b;
      TextOfAppend(a[1..], b);
      Assoc(PieceText(a[0]), TextOf(a[1..]), TextOf(b));
    }
  }

  /** One piece reads back as its text, whatever markup follows it. */
  lemma UnmarkPiece(p: Piece, rest: string)
    ensures Unmark(PieceHtml(p) + rest) == PieceText(p) + Unmark(rest)
  {
    match p
    case TextSpan(s) => UnmarkSpan(s, rest);
    case Escaped(s) => UnmarkEscape(s, rest);
    case ChordTag(s) => UnmarkChordSpan(s, rest);
    case Break => UnmarkPlain('\n', rest);
  }

  lemma {:induction false} UnmarkPiecesBefore(ps: seq<Piece>, rest: string)
    ensures Unmark(HtmlOf(ps) + rest) == TextOf(ps) + Unmark(rest)
  {
    if ps == [] {
      assert HtmlOf(ps) + rest == rest;
    } else {
      var h, t := PieceHtml(ps[0]), HtmlOf(ps[1..]);
      Assoc(h, t, rest);
      UnmarkPiece(ps[0], t + rest);
      UnmarkPiecesBefore(ps[1..], rest);
      Assoc(PieceText(ps[0]), TextOf(ps[1..]), Unmark(rest));
    }
  }

  /**
   * Reading the markup of a sequence of pieces back (dropping the tags,
   * decoding the entities) gives exactly the text the pieces show.
   */
  lemma UnmarkPieces(ps: seq<Piece>)
    ensures Unmark(HtmlOf(ps)) == TextOf(ps)
  {
    UnmarkPiecesBefore(ps, []);
    assert HtmlOf(ps) + [] == HtmlOf(ps);
    assert TextOf(ps) + [] == TextOf(ps);
  }
}
