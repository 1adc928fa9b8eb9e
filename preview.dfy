/**
 * `buildTransposedPreview`: every line of the sheet is either passed through
 * or has its chord tokens transposed in place, and is rendered twice — as
 * plain text and as markup with each chord in its own span.
 */
module Preview {
  import opened Text
  import opened Chord
  import opened Markup
  import opened LineClassifier
  import opened ChordLocator

  /** The transposed token of every match, in order. */
  function Transposed(ms: seq<ChordMatch>, shift: int, preferFlats: bool): (ts: seq<string>)
    ensures |ts| == |ms|
  {
    if ms == [] then [] else [TransposeChord(ms[0].token, shift, preferFlats)] + Transposed(ms[1..], shift, preferFlats)
  }

  lemma {:induction false} TransposedAt(ms: seq<ChordMatch>, k: nat, shift: int, preferFlats: bool)
    requires k < |ms|
    ensures Transposed(ms, shift, preferFlats)[k] == TransposeChord(ms[k].token, shift, preferFlats)
  {
    if k > 0 {
      TransposedAt(ms[1..], k - 1, shift, preferFlats);
    }
  }

  /** A plain span for the text between lo and hi, or nothing when hi is not beyond lo. */
  function GapHtml(line: string, lo: nat, hi: nat): string
  {
    if hi > lo then Span(Slice(line, lo, hi)) else ""
  }

  /** The plain text one match contributes: the text since lo, then its brackets around the transposed token t. */
  function PlainPiece(line: string, m: ChordMatch, lo: nat, t: string): string
  {
    Slice(line, lo, m.index) + (m.openB + t + m.closeB)
  }

  /** The markup one match contributes: a span for the text since lo, then the escaped brackets around a chord span. */
  function HtmlPiece(line: string, m: ChordMatch, lo: nat, t: string): string
  {
    GapHtml(line, lo, m.index) + (EscapeHtml(m.openB) + ChordSpan(t) + EscapeHtml(m.closeB))
  }

  /** The pieces of a gap: one plain span, or none when hi is not beyond lo. */
  function GapPieces(line: string, lo: nat, hi: nat): seq<Piece>
  {
    if hi > lo then [TextSpan(Slice(line, lo, hi))] else []
  }

  /** The pieces of one match: its gap, its escaped brackets and the chord span between them. */
  function MatchPieces(line: string, m: ChordMatch, lo: nat, t: string): seq<Piece>
  {
    GapPieces(line, lo, m.index) + [Escaped(m.openB), ChordTag(t), Escaped(m.closeB)]
  }

  /** The pieces of the line up to the end of match k, with `ts[i]` standing in for the token of match i. */
  function PiecesUpTo(line: string, ms: seq<ChordMatch>, ts: seq<string>, k: nat): seq<Piece>
    requires |ts| == |ms| && k <= |ms|
  {
    if k == 0 then [] else PiecesUpTo(line, ms, ts, k - 1) + MatchPieces(line, ms[k - 1], End(ms, k - 1, 0), ts[k - 1])
  }

  /** The pieces of a spliced line: every match, then the text after the last one. */
  function SplicePieces(line: string, ms: seq<ChordMatch>, ts: seq<string>): seq<Piece>
    requires |ts| == |ms|
  {
    PiecesUpTo(line, ms, ts, |ms|) + GapPieces(line, End(ms, |ms|, 0), |line|)
  }

  /** The plain line up to the end of match k. */
  function PlainUpTo(line: string, ms: seq<ChordMatch>, ts: seq<string>, k: nat): string
    requires |ts| == |ms| && k <= |ms|
  {
    TextOf(PiecesUpTo(line, ms, ts, k))
  }

  /** The markup of the line up to the end of match k. */
  function HtmlUpTo(line: string, ms: seq<ChordMatch>, ts: seq<string>, k: nat): string
    requires |ts| == |ms| && k <= |ms|
  {
    HtmlOf(PiecesUpTo(line, ms, ts, k))
  }

  /** The plain line: every match replaced, then the text after the last one. */
  function PlainSplice(line: string, ms: seq<ChordMatch>, ts: seq<string>): string
    requires |ts| == |ms|
  {
    TextOf(SplicePieces(line, ms, ts))
  }

  /** The markup line: every match rendered, then a span for the text after the last one. */
  function HtmlSplice(line: string, ms: seq<ChordMatch>, ts: seq<string>): string
    requires |ts| == |ms|
  {
    HtmlOf(SplicePieces(line, ms, ts))
  }

  /** A line is transposed when it is a candidate and holds at least one match. */
  predicate Transposes(line: string) {
    IsCandidate(line) && ChordMatches(line) != []
  }

  /** The plain view of one line. */
  function PlainLine(line: string, shift: int, preferFlats: bool): string
  {
    if !Transposes(line) then line
    else
      var ms := ChordMatches(line);
      PlainSplice(line, ms, Transposed(ms, shift, preferFlats))
  }

  /** The markup view of one line. */
  function HtmlLine(line: string, shift: int, preferFlats: bool): string
  {
    if !Transposes(line) then Span(line)
    else
      var ms := ChordMatches(line);
      HtmlSplice(line, ms, Transposed(ms, shift, preferFlats))
  }

  function PlainLines(ls: seq<string>, shift: int, preferFlats: bool): (r: seq<string>)
    ensures |r| == |ls|
  {
    if ls == [] then [] else [PlainLine(ls[0], shift, preferFlats)] + PlainLines(ls[1..], shift, preferFlats)
  }

  function HtmlLines(ls: seq<string>, shift: int, preferFlats: bool): (r: seq<string>)
    ensures |r| == |ls|
  {
    if ls == [] then [] else [HtmlLine(ls[0], shift, preferFlats)] + HtmlLines(ls[1..], shift, preferFlats)
  }

  /** The plain result: the text split at `\n`, each line's plain view, joined again. */
  function PlainDocument(text: string, shift: int, preferFlats: bool): string
  {
    JoinLines(PlainLines(SplitLines(text), shift, preferFlats))
  }

  /** The markup result. */
  function HtmlDocument(text: string, shift: int, preferFlats: bool): string
  {
    JoinLines(HtmlLines(SplitLines(text), shift, preferFlats))
  }

  /** The body of the per-line callback: both views of one line. */
  method PreviewLine(line: string, shift: int, preferFlats: bool) returns (plain: string, html: string)
    ensures plain == PlainLine(line, shift, preferFlats)
    ensures html == HtmlLine(line, shift, preferFlats)
  {
    var likely := LikelyChordLine(line);
    var hasBracket := HasBracketSpan(line);
    if !likely && !hasBracket {
      return line, Span(line);
    }
    var matches := FindChordMatches(line);
    if |matches| == 0 {
      return line, Span(line);
    }
    plain, html := SpliceLine(line, matches, shift, preferFlats);
  }

  /** The loop over the matches of a line: copies the gaps and replaces each match by its transposed chord. */
  method SpliceLine(line: string, matches: seq<ChordMatch>, shift: int, preferFlats: bool) returns (plain: string, html: string)
    ensures plain == PlainSplice(line, matches, Transposed(matches, shift, preferFlats))
    ensures html == HtmlSplice(line, matches, Transposed(matches, shift, preferFlats))
  {
    var cursor: nat := 0;
    plain, html := "", "";
    ghost var ts := Transposed(matches, shift, preferFlats);
    for k := 0 to |matches|
      invariant cursor == End(matches, k, 0)
      invariant plain == PlainUpTo(line, matches, ts, k)
      invariant html == HtmlUpTo(line, matches, ts, k)
    {
      var m := matches[k];
      var p, h := SpliceMatch(line, m, cursor, shift, preferFlats);
      SpliceAdvance(line, matches, ts, k, shift, preferFlats);
      plain := plain + p;
      html := html + h;
      cursor := m.index + m.length;
    }
    SpliceEnd(line, matches, ts);
    var p, h := SpliceGap(line, cursor, |line|);
    plain := plain + p;
    html := html + h;
  }

  /** One match of the loop: the text since `cursor`, then the match with its token transposed. */
  method SpliceMatch(line: string, m: ChordMatch, cursor: nat, shift: int, preferFlats: bool) returns (plain: string, html: string)
    ensures plain == PlainPiece(line, m, cursor, TransposeChord(m.token, shift, preferFlats))
    ensures html == HtmlPiece(line, m, cursor, TransposeChord(m.token, shift, preferFlats))
  {
    plain, html := SpliceGap(line, cursor, m.index);
    var transposed := TransposeChord(m.token, shift, preferFlats);
    plain := plain + (m.openB + transposed + m.closeB);
    html := html + (EscapeHtml(m.openB) + ChordSpan(transposed) + EscapeHtml(m.closeB));
  }

  /** The text between lo and hi, copied as it is and wrapped in a plain span; nothing when hi is not beyond lo. */
  method SpliceGap(line: string, lo: nat, hi: nat) returns (plain: string, html: string)
    ensures plain == Slice(line, lo, hi)
    ensures html == GapHtml(line, lo, hi)
  {
    plain, html := "", "";
    if hi > lo {
      plain := Slice(line, lo, hi);
      html := Span(plain);
    }
  }

  /** `buildTransposedPreview`: both views of the whole sheet. */
  method BuildTransposedPreview(text: string, shift: int, preferFlats: bool) returns (plain: string, html: string)
    ensures plain == PlainDocument(text, shift, preferFlats)
    ensures html == HtmlDocument(text, shift, preferFlats)
  {
    var lines := SplitLines(text);
    var plains: seq<string> := [];
    var htmls: seq<string> := [];
    for i := 0 to |lines|
      invariant plains == PlainLines(lines, shift, preferFlats)[..i]
      invariant htmls == HtmlLines(lines, shift, preferFlats)[..i]
    {
      var p, h := PreviewLine(lines[i], shift, preferFlats);
      PlainLinesAt(lines, i, shift, preferFlats);
      HtmlLinesAt(lines, i, shift, preferFlats);
      TakeStep(PlainLines(lines, shift, preferFlats), i);
      TakeStep(HtmlLines(lines, shift, preferFlats), i);
      plains := plains + [p];
      htmls := htmls + [h];
    }
    TakeAll(PlainLines(lines, shift, preferFlats));
    TakeAll(HtmlLines(lines, shift, preferFlats));
    plain := JoinLines(plains);
    html := JoinLines(htmls);
  }

  lemma {:induction false} PlainLinesAt(ls: seq<string>, k: nat, shift: int, preferFlats: bool)
    requires k < |ls|
    ensures PlainLines(ls, shift, preferFlats)[k] == PlainLine(ls[k], shift, preferFlats)
  {
    if k > 0 {
      PlainLinesAt(ls[1..], k - 1, shift, preferFlats);
    }
  }

  lemma {:induction false} HtmlLinesAt(ls: seq<string>, k: nat, shift: int, preferFlats: bool)
    requires k < |ls|
    ensures HtmlLines(ls, shift, preferFlats)[k] == HtmlLine(ls[k], shift, preferFlats)
  {
    if k > 0 {
      HtmlLinesAt(ls[1..], k - 1, shift, preferFlats);
    }
  }

  /** The pieces of one line of the preview. */
  function LinePieces(line: string, shift: int, preferFlats: bool): seq<Piece>
  {
    if !Transposes(line) then [TextSpan(line)]
    else
      var ms := ChordMatches(line);
      SplicePieces(line, ms, Transposed(ms, shift, preferFlats))
  }

  /** The pieces of the whole preview: the lines' pieces with a line break between consecutive lines. */
  function DocPieces(ls: seq<string>, shift: int, preferFlats: bool): seq<Piece>
  {
    if |ls| == 0 then []
    else if |ls| == 1 then LinePieces(ls[0], shift, preferFlats)
    else LinePieces(ls[0], shift, preferFlats) + [Break] + DocPieces(ls[1..], shift, preferFlats)
  }

  /** A gap's pieces render as the gap's markup and show the gap. */
  lemma GapViews(line: string, lo: nat, hi: nat)
    ensures HtmlOf(GapPieces(line, lo, hi)) == GapHtml(line, lo, hi)
    ensures TextOf(GapPieces(line, lo, hi)) == Slice(line, lo, hi)
  {
    if hi > lo {
      OnePiece(TextSpan(Slice(line, lo, hi)));
    }
  }

  /** A match's pieces render as its markup and show its plain text. */
  lemma MatchViews(line: string, m: ChordMatch, lo: nat, t: string)
    ensures HtmlOf(MatchPieces(line, m, lo, t)) == HtmlPiece(line, m, lo, t)
    ensures TextOf(MatchPieces(line, m, lo, t)) == PlainPiece(line, m, lo, t)
  {
    var gap, rest := GapPieces(line, lo, m.index), [Escaped(m.openB), ChordTag(t), Escaped(m.closeB)];
    GapViews(line, lo, m.index);
    ThreePieces(Escaped(m.openB), ChordTag(t), Escaped(m.closeB));
    HtmlOfAppend(gap, rest);
    TextOfAppend(gap, rest);
  }

  /** Extending the line by match k appends that match's plain text and its markup. */
  lemma UpToStep(line: string, ms: seq<ChordMatch>, ts: seq<string>, k: nat)
    requires |ts| == |ms| && k < |ms|
    ensures PlainUpTo(line, ms, ts, k + 1) == PlainUpTo(line, ms, ts, k) + PlainPiece(line, ms[k], End(ms, k, 0), ts[k])
    ensures HtmlUpTo(line, ms, ts, k + 1) == HtmlUpTo(line, ms, ts, k) + HtmlPiece(line, ms[k], End(ms, k, 0), ts[k])
  {
    var m, lo, t := ms[k], End(ms, k, 0), ts[k];
    var before, piece := PiecesUpTo(line, ms, ts, k), MatchPieces(line, m, lo, t);
    assert PiecesUpTo(line, ms, ts, k + 1) == before + piece;
    MatchViews(line, m, lo, t);
    HtmlOfAppend(before, piece);
    TextOfAppend(before, piece);
  }

  /** A spliced line is its matches followed by the text after the last one. */
  /** One turn of the splice loop: match k's piece, with its token transposed, extends both views up to match k + 1. */
  lemma SpliceAdvance(line: string, ms: seq<ChordMatch>, ts: seq<string>, k: nat, shift: int, preferFlats: bool)
    requires ts == Transposed(ms, shift, preferFlats) && k < |ms|
    ensures End(ms, k + 1, 0) == ms[k].index + ms[k].length
    ensures PlainUpTo(line, ms, ts, k + 1) == PlainUpTo(line, ms, ts, k) + PlainPiece(line, ms[k], End(ms, k, 0), TransposeChord(ms[k].token, shift, preferFlats))
    ensures HtmlUpTo(line, ms, ts, k + 1) == HtmlUpTo(line, ms, ts, k) + HtmlPiece(line, ms[k], End(ms, k, 0), TransposeChord(ms[k].token, shift, preferFlats))
  {
    TransposedAt(ms, k, shift, preferFlats);
    UpToStep(line, ms, ts, k);
  }

  lemma SpliceEnd(line: string, ms: seq<ChordMatch>, ts: seq<string>)
    requires |ts| == |ms|
    ensures PlainSplice(line, ms, ts) == PlainUpTo(line, ms, ts, |ms|) + Slice(line, End(ms, |ms|, 0), |line|)
    ensures HtmlSplice(line, ms, ts) == HtmlUpTo(line, ms, ts, |ms|) + GapHtml(line, End(ms, |ms|, 0), |line|)
  {
    var n, e := |ms|, End(ms, |ms|, 0);
    var before, gap := PiecesUpTo(line, ms, ts, n), GapPieces(line, e, |line|);
    GapViews(line, e, |line|);
    HtmlOfAppend(before, gap);
    TextOfAppend(before, gap);
  }

  /** A line's pieces render as its markup view and show its plain view. */
  lemma LineViews(line: string, shift: int, preferFlats: bool)
    ensures HtmlOf(LinePieces(line, shift, preferFlats)) == HtmlLine(line, shift, preferFlats)
    ensures TextOf(LinePieces(line, shift, preferFlats)) == PlainLine(line, shift, preferFlats)
  {
    if !Transposes(line) {
      OnePiece(TextSpan(line));
    }
  }

  /** The document's pieces render as the joined markup lines and show the joined plain lines. */
  lemma {:induction false} DocViews(ls: seq<string>, shift: int, preferFlats: bool)
    ensures HtmlOf(DocPieces(ls, shift, preferFlats)) == JoinLines(HtmlLines(ls, shift, preferFlats))
    ensures TextOf(DocPieces(ls, shift, preferFlats)) == JoinLines(PlainLines(ls, shift, preferFlats))
  {
    if |ls| == 1 {
      LineViews(ls[0], shift, preferFlats);
    } else if |ls| > 1 {
      var first, rest := LinePieces(ls[0], shift, preferFlats), DocPieces(ls[1..], shift, preferFlats);
      LineViews(ls[0], shift, preferFlats);
      DocViews(ls[1..], shift, preferFlats);
      OnePiece(Break);
      HtmlOfAppend(first, [Break]);
      HtmlOfAppend(first + [Break], rest);
      TextOfAppend(first, [Break]);
      TextOfAppend(first + [Break], rest);
    }
  }

  /**
   * The markup preview shows the same text as the plain result: reading it
   * back (dropping the span tags, decoding the entities) gives the plain text.
   */
  lemma UnmarkDocument(text: string, shift: int, preferFlats: bool)
    ensures Unmark(HtmlDocument(text, shift, preferFlats)) == PlainDocument(text, shift, preferFlats)
  {
    DocViews(SplitLines(text), shift, preferFlats);
    UnmarkPieces(DocPieces(SplitLines(text), shift, preferFlats));
  }

  lemma {:induction false} PlainUpToNoNewline(line: string, ms: seq<ChordMatch>, ts: seq<string>, k: nat)
    requires |ts| == |ms| && k <= |ms|
    requires Laid(line, ms) && '\n' !in line
    requires forall j :: 0 <= j < |ts| ==> '\n' !in ts[j]
    ensures '\n' !in PlainUpTo(line, ms, ts, k)
  {
    if k > 0 {
      var j := k - 1;
      PlainUpToNoNewline(line, ms, ts, j);
      NoNewlineStep(line, ms, ts, j);
    }
  }

  /** One step of PlainUpToNoNewline: appending a match's plain text adds no line break. */
  lemma NoNewlineStep(line: string, ms: seq<ChordMatch>, ts: seq<string>, j: nat)
    requires |ts| == |ms| && j < |ms|
    requires Laid(line, ms) && '\n' !in line
    requires forall i :: 0 <= i < |ts| ==> '\n' !in ts[i]
    ensures '\n' !in PlainUpTo(line, ms, ts, j) ==> '\n' !in PlainUpTo(line, ms, ts, j + 1)
  {
    UpToStep(line, ms, ts, j);
    var m, lo, t := ms[j], End(ms, j, 0), ts[j];
    LaidAt(line, ms, j);
    PlainPieceNoNewline(line, m, lo, t);
  }

  /** A match's plain text has no line break when neither the line nor the new token has one. */
  lemma PlainPieceNoNewline(line: string, m: ChordMatch, lo: nat, t: string)
    requires Covers(line, m) && '\n' !in line && '\n' !in t
    ensures '\n' !in PlainPiece(line, m, lo, t)
  {
    SliceChars(line, lo, m.index);
    SliceChars(line, m.index, m.index + m.length);
  }

  /** Transposing never puts a line break into a line. */
  lemma PlainLineNoNewline(line: string, shift: int, preferFlats: bool)
    requires '\n' !in line
    ensures '\n' !in PlainLine(line, shift, preferFlats)
  {
    if Transposes(line) {
      var ms := ChordMatches(line);
      ChordMatchesLaid(line, 0);
      TransposedNoNewline(line, ms, shift, preferFlats);
      SpliceNoNewline(line, ms, Transposed(ms, shift, preferFlats));
    }
  }

  /** The new tokens of a line without line breaks have none either. */
  lemma TransposedNoNewline(line: string, ms: seq<ChordMatch>, shift: int, preferFlats: bool)
    requires Laid(line, ms) && '\n' !in line
    ensures forall j :: 0 <= j < |ms| ==> '\n' !in Transposed(ms, shift, preferFlats)[j]
  {
    forall j | 0 <= j < |ms|
      ensures '\n' !in Transposed(ms, shift, preferFlats)[j]
    {
      var m := ms[j];
      TransposedAt(ms, j, shift, preferFlats);
      LaidAt(line, ms, j);
      SliceChars(line, m.index, m.index + m.length);
      TransposeKeepsLineBreaks(m.token, shift, preferFlats);
    }
  }

  /** Splicing tokens without line breaks into a line without line breaks gives a line without line breaks. */
  lemma SpliceNoNewline(line: string, ms: seq<ChordMatch>, ts: seq<string>)
    requires |ts| == |ms|
    requires Laid(line, ms) && '\n' !in line
    requires forall j :: 0 <= j < |ts| ==> '\n' !in ts[j]
    ensures '\n' !in PlainSplice(line, ms, ts)
  {
    var n, e := |ms|, End(ms, |ms|, 0);
    PlainUpToNoNewline(line, ms, ts, n);
    SliceChars(line, e, |line|);
    SpliceEnd(line, ms, ts);
  }

  /**
   * The plain result has exactly the lines of the input, in order, each
   * replaced by its own plain view.
   */
  lemma PreviewKeepsLines(text: string, shift: int, preferFlats: bool)
    ensures SplitLines(PlainDocument(text, shift, preferFlats)) == PlainLines(SplitLines(text), shift, preferFlats)
  {
    var ls := SplitLines(text);
    var ps := PlainLines(ls, shift, preferFlats);
    forall k | 0 <= k < |ps|
      ensures '\n' !in ps[k]
    {
      PlainLinesAt(ls, k, shift, preferFlats);
      PlainLineNoNewline(ls[k], shift, preferFlats);
    }
    SplitJoinLines(ps);
  }

  lemma {:induction false} SpliceIdentity(line: string, ms: seq<ChordMatch>, ts: seq<string>, k: nat)
    requires |ts| == |ms| && k <= |ms|
    requires InOrder(line, ms, 0) && Laid(line, ms)
    requires forall j :: 0 <= j < |ms| ==> ts[j] == ms[j].token
    ensures End(ms, k, 0) <= |line| && PlainUpTo(line, ms, ts, k) == line[..End(ms, k, 0)]
  {
    if k > 0 {
      var j := k - 1;
      SpliceIdentity(line, ms, ts, j);
      InOrderAt(line, ms, 0, k);
      LaidAt(line, ms, j);
      SpliceIdentityStep(line, ms, ts, j);
    }
  }

  /** One step of SpliceIdentity: a match whose token stands for itself copies its own slice of the line. */
  lemma SpliceIdentityStep(line: string, ms: seq<ChordMatch>, ts: seq<string>, j: nat)
    requires |ts| == |ms| && j < |ms|
    requires End(ms, j, 0) <= ms[j].index && ms[j].index + ms[j].length <= |line|
    requires PlainUpTo(line, ms, ts, j) == line[..End(ms, j, 0)]
    requires line[ms[j].index..ms[j].index + ms[j].length] == ms[j].openB + ts[j] + ms[j].closeB
    ensures PlainUpTo(line, ms, ts, j + 1) == line[..End(ms, j + 1, 0)]
  {
    var m, lo := ms[j], End(ms, j, 0);
    UpToStep(line, ms, ts, j);
    Glue(line, lo, m.index, m.index + m.length, m.openB + ts[j] + m.closeB);
  }

  /** The prefix up to lo, the text from lo to a, and the text from a to b make up the prefix up to b. */
  lemma Glue(line: string, lo: nat, a: nat, b: nat, mid: string)
    requires lo <= a <= b <= |line| && line[a..b] == mid
    ensures line[..lo] + (Slice(line, lo, a) + mid) == line[..b]
  {
    assert line[..lo] + line[lo..a] == line[..a];
    assert line[..a] + line[a..b] == line[..b];
  }

  /**
   * A shift of zero gives the line back unchanged when it is passed through,
   * or when every chord located on it is spelled the way the chosen
   * accidental style spells it.
   */
  lemma ZeroShiftKeepsLine(line: string, preferFlats: bool)
    requires !Transposes(line) || forall m :: m in ChordMatches(line) ==> SpelledCanonically(m.token, preferFlats)
    ensures PlainLine(line, 0, preferFlats) == line
  {
    if Transposes(line) {
      var ms := ChordMatches(line);
      ChordMatchesInOrder(line, 0);
      ChordMatchesLaid(line, 0);
      ZeroShiftTokens(ms, preferFlats);
      var ts := Transposed(ms, 0, preferFlats);
      SpliceIdentity(line, ms, ts, |ms|);
      SpliceEnd(line, ms, ts);
      PrefixRest(line, End(ms, |ms|, 0));
    }
  }

  /** With a shift of zero, every canonically spelled token stands for itself. */
  lemma ZeroShiftTokens(ms: seq<ChordMatch>, preferFlats: bool)
    requires forall m :: m in ms ==> SpelledCanonically(m.token, preferFlats)
    ensures forall j :: 0 <= j < |ms| ==> Transposed(ms, 0, preferFlats)[j] == ms[j].token
  {
    forall j | 0 <= j < |ms|
      ensures Transposed(ms, 0, preferFlats)[j] == ms[j].token
    {
      TransposedAt(ms, j, 0, preferFlats);
      assert ms[j] in ms;
      ZeroShiftKeepsCanonical(ms[j].token, preferFlats);
    }
  }

  /** A prefix of the line followed by the rest of it is the line. */
  lemma PrefixRest(line: string, e: nat)
    requires e <= |line|
    ensures line[..e] + Slice(line, e, |line|) == line
  {
    assert line[..e] + line[e..] == line;
  }

  /** A line that is not a candidate, or holds no match, is passed through: its plain view is the line and its markup one span. */
  lemma PassedThrough(line: string, shift: int, preferFlats: bool)
    requires !Transposes(line)
    ensures PlainLine(line, shift, preferFlats) == line
    ensures HtmlLine(line, shift, preferFlats) == Span(line)
  {
  }
}
