/**
 * `findChordMatches`: the left-to-right scan of a line for chord tokens,
 * each optionally wrapped in one bracket on either side.
 *
 * The scan's expression has a lazy suffix followed only by optional parts, so
 * the suffix always matches empty: a match is an optional opening bracket
 * (kept only when a note letter follows it), a root `[A-G][#b]?`, an optional
 * `/` and bass note, and an optional closing bracket.
 */
module ChordLocator {
  import opened Wrappers
  import opened Pitch
  import opened Text
  import opened Chord

  /** One element of `findChordMatches`' result. */
  datatype ChordMatch = ChordMatch(index: nat, length: nat, openB: string, token: string, closeB: string)

  /** The match that starts at i with its note letter at s (s is i, or i + 1 after a bracket). */
  function MatchFrom(line: string, i: nat, s: nat): (m: ChordMatch)
    requires s < |line| && IsNoteLetter(line[s]) && (s == i || s == i + 1)
    ensures m.index == i && 1 <= m.length && i + m.length <= |line|
  {
    var r := NoteEnd(line, s);
    var e := if r + 1 < |line| && line[r] == '/' && IsNoteLetter(line[r + 1]) then NoteEnd(line, r + 1) else r;
    var c := if e < |line| && IsCloseBracket(line[e]) then e + 1 else e;
    ChordMatch(i, c - i, line[i..s], line[s..e], line[e..c])
  }

  /** Whether the expression matches at position i: a note letter, or an opening bracket and a note letter. */
  predicate MatchStarts(line: string, i: nat) {
    (i + 1 < |line| && IsOpenBracket(line[i]) && IsNoteLetter(line[i + 1])) || (i < |line| && IsNoteLetter(line[i]))
  }

  /** Where the note letter of the match at i stands. */
  function LetterPos(line: string, i: nat): (s: nat)
    requires MatchStarts(line, i)
    ensures s < |line| && IsNoteLetter(line[s]) && (s == i || s == i + 1)
  {
    if i + 1 < |line| && IsOpenBracket(line[i]) && IsNoteLetter(line[i + 1]) then i + 1 else i
  }

  /** The match of the expression anchored at position i. */
  function MatchAt(line: string, i: nat): (m: ChordMatch)
    requires MatchStarts(line, i)
    ensures m.index == i && 1 <= m.length && i + m.length <= |line|
  {
    MatchFrom(line, i, LetterPos(line, i))
  }

  /** Where `re.exec` from `lastIndex` pos finds its match: the first position at or after pos where one starts. */
  function NextStart(line: string, pos: nat): (r: Option<nat>)
    ensures r.Some? ==> pos <= r.value && MatchStarts(line, r.value)
    decreases |line| - pos
  {
    if pos >= |line| then None
    else if MatchStarts(line, pos) then Some(pos)
    else NextStart(line, pos + 1)
  }

  /** Nothing matches between pos and the position `NextStart` finds, nor anywhere after pos when it finds none. */
  lemma {:induction false} NextStartIsFirst(line: string, pos: nat)
    ensures var r := NextStart(line, pos);
      forall p: nat :: pos <= p && (r.None? || p < r.value) ==> !MatchStarts(line, p)
    decreases |line| - pos
  {
    if pos < |line| && !MatchStarts(line, pos) {
      NextStartIsFirst(line, pos + 1);
    }
  }

  lemma SliceSplit(line: string, a: nat, b: nat, c: nat)
    requires a <= b <= c <= |line|
    ensures line[a..c] == line[a..b] + line[b..c]
  {
  }

  lemma SliceThree(line: string, a: nat, b: nat, c: nat, d: nat)
    requires a <= b <= c <= d <= |line|
    ensures line[a..d] == line[a..b] + line[b..c] + line[c..d]
  {
    SliceSplit(line, a, b, d);
    SliceSplit(line, b, c, d);
  }

  /** The shape of every match: where it lies, what it is made of, and that its token parses with an empty suffix. */
  lemma MatchShape(line: string, i: nat)
    requires MatchStarts(line, i)
    ensures var m := MatchAt(line, i);
      && m.index == i && 1 <= m.length && i + m.length <= |line|
      && line[i..i + m.length] == m.openB + m.token + m.closeB
      && |m.openB| <= 1 && (m.openB != [] ==> IsOpenBracket(m.openB[0]))
      && |m.closeB| <= 1 && (m.closeB != [] ==> IsCloseBracket(m.closeB[0]))
      && ParseChordToken(m.token).Some?
      && ParseChordToken(m.token).value.suffix == []
  {
    MatchLayout(line, i);
    MatchBrackets(line, i);
    MatchTokenParses(line, i);
  }

  /** A match covers its opening bracket, its token and its closing bracket, in that order. */
  lemma MatchLayout(line: string, i: nat)
    requires MatchStarts(line, i)
    ensures var m := MatchAt(line, i);
      line[i..i + m.length] == m.openB + m.token + m.closeB
  {
    var s := LetterPos(line, i);
    var m := MatchAt(line, i);
    var e := s + |m.token|;
    var c := i + m.length;
    assert m.openB == line[i..s] && m.token == line[s..e] && m.closeB == line[e..c];
    SliceThree(line, i, s, e, c);
  }

  /** A match has at most one bracket on either side, of the right kind. */
  lemma MatchBrackets(line: string, i: nat)
    requires MatchStarts(line, i)
    ensures var m := MatchAt(line, i);
      && |m.openB| <= 1 && (m.openB != [] ==> IsOpenBracket(m.openB[0]))
      && |m.closeB| <= 1 && (m.closeB != [] ==> IsCloseBracket(m.closeB[0]))
  {
  }

  lemma MatchTokenParses(line: string, i: nat)
    requires MatchStarts(line, i)
    ensures ParseChordToken(MatchAt(line, i).token).Some?
    ensures ParseChordToken(MatchAt(line, i).token).value.suffix == []
  {
    var s := LetterPos(line, i);
    var r := NoteEnd(line, s);
    var hasBass := r + 1 < |line| && line[r] == '/' && IsNoteLetter(line[r + 1]);
    var e := if hasBass then NoteEnd(line, r + 1) else r;
    assert MatchAt(line, i).token == line[s..e];
    TokenParses(line, s, r, e, hasBass);
  }

  /** The token a match covers renders the chord made of its root and bass. */
  lemma TokenParses(line: string, s: nat, r: nat, e: nat, hasBass: bool)
    requires s < r <= e <= |line|
    requires IsNoteName(line[s..r])
    requires r == s + 2 || r == |line| || !IsAccidental(line[r])
    requires hasBass ==> r + 1 < e && line[r] == '/' && IsNoteName(line[r + 1..e])
    requires !hasBass ==> e == r
    ensures ParseChordToken(line[s..e]).Some? && ParseChordToken(line[s..e]).value.suffix == []
  {
    var bass := if hasBass then Some(line[r + 1..e]) else None;
    var p := ParsedChord(line[s..r], "", bass);
    assert WellFormedChord(p);
    if hasBass {
      SliceSplit(line, s, r, e);
      SliceSplit(line, r, r + 1, e);
      assert line[r..r + 1] == "/";
      assert line[s..e] == line[s..r] + "" + ("/" + line[r + 1..e]);
    } else {
      assert line[s..e] == line[s..r] + "" + "";
    }
    assert Render(p) == line[s..e];
    ParseRender(p);
  }

  /** The matches `findChordMatches` reports, scanning from `lastIndex` pos. */
  function ChordMatchesFrom(line: string, pos: nat): seq<ChordMatch>
    decreases |line| - pos
  {
    match NextStart(line, pos)
    case None => []
    case Some(p) =>
      var m := MatchAt(line, p);
      [m] + ChordMatchesFrom(line, p + m.length)
  }

  /** One step of the scan: the next match, then the scan resumed after it. */
  lemma ChordMatchesFromStep(line: string, pos: nat, m: ChordMatch, next: nat)
    requires NextStart(line, pos).Some?
    requires m == MatchAt(line, NextStart(line, pos).value) && next == m.index + m.length
    ensures ChordMatchesFrom(line, pos) == [m] + ChordMatchesFrom(line, next)
  {
  }

  function ChordMatches(line: string): seq<ChordMatch>
  {
    ChordMatchesFrom(line, 0)
  }

  /**
   * `findChordMatches`: calls `re.exec` until it finds nothing, keeping each
   * match whose token parses (MatchShape shows that every one does).
   */
  method FindChordMatches(line: string) returns (out: seq<ChordMatch>)
    ensures out == ChordMatches(line)
  {
    out := [];
    var lastIndex: nat := 0;
    var found := NextStart(line, lastIndex);
    while found.Some?
      invariant found == NextStart(line, lastIndex)
      invariant out + ChordMatchesFrom(line, lastIndex) == ChordMatches(line)
      decreases |line| - lastIndex
    {
      var m := MatchAt(line, found.value);
      var next := m.index + m.length;
      ScanStep(line, lastIndex, out, m, next);
      var parsed := ParseChordToken(m.token);
      if parsed.Some? {
        out := out + [m];
      }
      lastIndex := next;
      found := NextStart(line, lastIndex);
    }
  }

  /** One turn of the scan loop: the next match parses, and moving it to the output keeps the whole result. */
  lemma ScanStep(line: string, pos: nat, out: seq<ChordMatch>, m: ChordMatch, next: nat)
    requires NextStart(line, pos).Some?
    requires m == MatchAt(line, NextStart(line, pos).value) && next == m.index + m.length
    ensures ParseChordToken(m.token).Some?
    ensures (out + [m]) + ChordMatchesFrom(line, next) == out + ChordMatchesFrom(line, pos)
  {
    var i := NextStart(line, pos).value;
    MatchTokenParses(line, i);
    ScanAppend(line, pos, out, m, next);
  }

  lemma ScanAppend(line: string, pos: nat, out: seq<ChordMatch>, m: ChordMatch, next: nat)
    requires NextStart(line, pos).Some?
    requires m == MatchAt(line, NextStart(line, pos).value) && next == m.index + m.length
    ensures (out + [m]) + ChordMatchesFrom(line, next) == out + ChordMatchesFrom(line, pos)
  {
    var rest := ChordMatchesFrom(line, next);
    ChordMatchesFromStep(line, pos, m, next);
    Assoc(out, [m], rest);
  }

  /**
   * ms is exactly what a leftmost scan from pos reports: each match starts at
   * the first position that has one, the next search resumes after it, and no
   * match starts after the last one.
   */
  ghost predicate LeftmostScan(line: string, ms: seq<ChordMatch>, pos: nat)
    decreases |ms|
  {
    if ms == [] then forall p: nat :: pos <= p ==> !MatchStarts(line, p)
    else
      var m := ms[0];
      && pos <= m.index
      && (forall p: nat :: pos <= p < m.index ==> !MatchStarts(line, p))
      && MatchStarts(line, m.index) && MatchAt(line, m.index) == m
      && LeftmostScan(line, ms[1..], m.index + m.length)
  }

  /** What `findChordMatches` returns is the leftmost scan of the line. */
  lemma {:induction false} ChordMatchesFromScan(line: string, pos: nat)
    ensures LeftmostScan(line, ChordMatchesFrom(line, pos), pos)
    decreases |line| - pos
  {
    var r := NextStart(line, pos);
    NextStartIsFirst(line, pos);
    if r.Some? {
      var m := MatchAt(line, r.value);
      var next := m.index + m.length;
      var rest := ChordMatchesFrom(line, next);
      ChordMatchesFromScan(line, next);
      ChordMatchesFromStep(line, pos, m, next);
      var ms := ChordMatchesFrom(line, pos);
      assert ms[0] == m && ms[1..] == rest;
    } else {
      forall p: nat | pos <= p
        ensures !MatchStarts(line, p)
      {
      }
    }
  }

  /** There is only one leftmost scan. */
  lemma {:induction false} LeftmostScanUnique(line: string, ms: seq<ChordMatch>, ns: seq<ChordMatch>, pos: nat)
    requires LeftmostScan(line, ms, pos) && LeftmostScan(line, ns, pos)
    ensures ms == ns
    decreases |ms|
  {
    if ms != [] && ns != [] {
      var m, n := ms[0], ns[0];
      assert m.index == n.index;
      LeftmostScanUnique(line, ms[1..], ns[1..], m.index + m.length);
      assert ms == [m] + ms[1..] && ns == [n] + ns[1..];
    }
  }

  /** Where the text after the first k matches resumes: pos, or the end of match k - 1. */
  function End(ms: seq<ChordMatch>, k: nat, pos: nat): nat
    requires k <= |ms|
  {
    if k == 0 then pos else ms[k - 1].index + ms[k - 1].length
  }

  /**
   * The matches lie in order from pos on, each non-empty and inside the line,
   * each starting no earlier than the end of the one before.
   */
  predicate InOrder(line: string, ms: seq<ChordMatch>, pos: nat)
    decreases |ms|
  {
    if ms == [] then pos <= |line|
    else
      && pos <= ms[0].index && 1 <= ms[0].length && ms[0].index + ms[0].length <= |line|
      && InOrder(line, ms[1..], ms[0].index + ms[0].length)
  }

  /** The reported matches lie in order, each inside the line. */
  lemma ChordMatchesInOrder(line: string, pos: nat)
    requires pos <= |line|
    ensures InOrder(line, ChordMatchesFrom(line, pos), pos)
  {
    ChordMatchesFromScan(line, pos);
    ScanInOrder(line, ChordMatchesFrom(line, pos), pos);
  }

  /** A leftmost scan reports its matches in order. */
  lemma {:induction false} ScanInOrder(line: string, ms: seq<ChordMatch>, pos: nat)
    requires pos <= |line|
    ensures LeftmostScan(line, ms, pos) ==> InOrder(line, ms, pos)
    decreases |ms|
  {
    if ms != [] && LeftmostScan(line, ms, pos) {
      ScanInOrder(line, ms[1..], ms[0].index + ms[0].length);
    }
  }

  /** In an ordered list every match is non-empty, lies inside the line and starts at or after pos. */
  lemma {:induction false} InOrderBounds(line: string, ms: seq<ChordMatch>, pos: nat)
    ensures InOrder(line, ms, pos) ==>
      forall k :: 0 <= k < |ms| ==> pos <= ms[k].index && 1 <= ms[k].length && ms[k].index + ms[k].length <= |line|
    decreases |ms|
  {
    if ms != [] && InOrder(line, ms, pos) {
      var rest, e := ms[1..], ms[0].index + ms[0].length;
      InOrderBounds(line, rest, e);
      forall k | 1 <= k < |ms|
        ensures pos <= ms[k].index
      {
        assert ms[k] == rest[k - 1];
      }
    }
  }

  /** In an ordered list every match ends no later than any later match starts, so starts strictly increase. */
  lemma {:induction false} InOrderPairwise(line: string, ms: seq<ChordMatch>, pos: nat)
    ensures InOrder(line, ms, pos) ==>
      forall j, k :: 0 <= j < k < |ms| ==> ms[j].index + ms[j].length <= ms[k].index && ms[j].index < ms[k].index
    decreases |ms|
  {
    if ms != [] && InOrder(line, ms, pos) {
      var rest, e := ms[1..], ms[0].index + ms[0].length;
      InOrderPairwise(line, rest, e);
      InOrderBounds(line, rest, e);
      forall j, k | 0 <= j < k < |ms|
        ensures ms[j].index + ms[j].length <= ms[k].index
      {
        assert ms[k] == rest[k - 1];
        if j > 0 {
          assert ms[j] == rest[j - 1];
        }
      }
    }
  }

  /** Every token of a leftmost scan parses. */
  lemma {:induction false} ScanParses(line: string, ms: seq<ChordMatch>, pos: nat)
    ensures LeftmostScan(line, ms, pos) ==> forall k :: 0 <= k < |ms| ==> ParseChordToken(ms[k].token).Some?
    decreases |ms|
  {
    if ms != [] && LeftmostScan(line, ms, pos) {
      var rest, e := ms[1..], ms[0].index + ms[0].length;
      ScanParses(line, rest, e);
      MatchTokenParses(line, ms[0].index);
      forall k | 1 <= k < |ms|
        ensures ParseChordToken(ms[k].token).Some?
      {
        assert ms[k] == rest[k - 1];
      }
    }
  }

  /**
   * What `findChordMatches` returns: every match is non-empty, lies inside the
   * line and has a token that parses, and each match ends no later than the
   * next one starts.
   */
  lemma ChordMatchesShape(line: string)
    ensures var ms := ChordMatches(line);
      forall k :: 0 <= k < |ms| ==>
        1 <= ms[k].length && ms[k].index + ms[k].length <= |line| && ParseChordToken(ms[k].token).Some?
    ensures var ms := ChordMatches(line);
      forall j, k :: 0 <= j < k < |ms| ==> ms[j].index + ms[j].length <= ms[k].index && ms[j].index < ms[k].index
  {
    var ms := ChordMatches(line);
    ChordMatchesInOrder(line, 0);
    InOrderBounds(line, ms, 0);
    InOrderPairwise(line, ms, 0);
    ChordMatchesFromScan(line, 0);
    ScanParses(line, ms, 0);
  }

  /**
   * In an ordered list, match k - 1 starts no earlier than where the text
   * after the first k - 1 matches resumes, and ends inside the line.
   */
  lemma {:induction false} InOrderAt(line: string, ms: seq<ChordMatch>, pos: nat, k: nat)
    requires 0 < k <= |ms|
    ensures InOrder(line, ms, pos) ==> End(ms, k - 1, pos) <= ms[k - 1].index && ms[k - 1].index + ms[k - 1].length <= |line|
    decreases k
  {
    if k > 1 {
      InOrderAt(line, ms[1..], ms[0].index + ms[0].length, k - 1);
    }
  }

  /** The match covers, in the line, its brackets around its token. */
  predicate Covers(line: string, m: ChordMatch) {
    m.index + m.length <= |line| && line[m.index..m.index + m.length] == m.openB + m.token + m.closeB
  }

  /** Every element of ms covers its brackets and token. */
  predicate Laid(line: string, ms: seq<ChordMatch>)
    decreases |ms|
  {
    ms == [] || (Covers(line, ms[0]) && Laid(line, ms[1..]))
  }

  /** Every reported match covers exactly its brackets and token. */
  lemma ChordMatchesLaid(line: string, pos: nat)
    ensures Laid(line, ChordMatchesFrom(line, pos))
  {
    ChordMatchesFromScan(line, pos);
    ScanLaid(line, ChordMatchesFrom(line, pos), pos);
  }

  /** Every match of a leftmost scan covers its brackets and token. */
  lemma {:induction false} ScanLaid(line: string, ms: seq<ChordMatch>, pos: nat)
    ensures LeftmostScan(line, ms, pos) ==> Laid(line, ms)
    decreases |ms|
  {
    if ms != [] && LeftmostScan(line, ms, pos) {
      ScanLaid(line, ms[1..], ms[0].index + ms[0].length);
      MatchLayout(line, ms[0].index);
    }
  }

  /** Element k of a laid-out list covers its brackets and token. */
  lemma {:induction false} LaidAt(line: string, ms: seq<ChordMatch>, k: nat)
    requires k < |ms|
    ensures Laid(line, ms) ==> Covers(line, ms[k])
    decreases k
  {
    if k > 0 {
      LaidAt(line, ms[1..], k - 1);
    }
  }
}
