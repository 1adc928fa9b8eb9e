/**
 * `detectKeySuggestion`: the roots written on the candidate lines of a sheet
 * are tallied by pitch class, and the most frequent pitch class is suggested
 * as the key, spelled with the chosen table.
 */
module KeySuggestion {
  import opened Wrappers
  import opened Pitch
  import opened Text
  import opened Chord
  import opened LineClassifier

  /** What the lookahead of the root scan accepts after a root: `\s`, `/`, `]`, `)`, `}` or `,`. */
  predicate IsKeyFollow(c: char) {
    IsJsSpace(c) || c == '/' || c == ']' || c == ')' || c == '}' || c == ','
  }

  /** The lookahead `(?=[\s\/\]\)\},]|$)` at position e. */
  predicate Lookahead(line: string, e: nat) {
    e == |line| || (e < |line| && IsKeyFollow(line[e]))
  }

  /**
   * The root scan's expression `([A-G][#b]?)(?=…)` anchored at p: where the
   * root it captures ends. The accidental is tried first; without it the
   * lookahead is tried right after the letter.
   */
  function KeyMatchEnd(line: string, p: nat): (r: Option<nat>)
    ensures r.Some? ==> p < r.value <= |line| && IsNoteName(line[p..r.value])
  {
    if p >= |line| || !IsNoteLetter(line[p]) then None
    else if p + 1 < |line| && IsAccidental(line[p + 1]) && Lookahead(line, p + 2) then
      assert line[p..p + 2] == [line[p], line[p + 1]];
      Some(p + 2)
    else if Lookahead(line, p + 1) then
      assert line[p..p + 1] == [line[p]];
      Some(p + 1)
    else None
  }

  /**
   * The captured root is always the greedy note name: giving up the
   * accidental never matches, because the lookahead would then see `#` or `b`.
   */
  lemma KeyMatchIsGreedy(line: string, p: nat)
    requires KeyMatchEnd(line, p).Some?
    ensures KeyMatchEnd(line, p).value == NoteEnd(line, p)
    ensures Lookahead(line, NoteEnd(line, p))
  {
  }

  /** Where `re.exec` from `lastIndex` pos finds the next root. */
  function NextRoot(line: string, pos: nat): (r: Option<nat>)
    ensures r.Some? ==> pos <= r.value && KeyMatchEnd(line, r.value).Some?
    decreases |line| - pos
  {
    if pos >= |line| then None
    else if KeyMatchEnd(line, pos).Some? then Some(pos)
    else NextRoot(line, pos + 1)
  }

  /** No root is matched between pos and the one `NextRoot` finds, nor anywhere after pos when it finds none. */
  lemma {:induction false} NextRootIsFirst(line: string, pos: nat)
    ensures var r := NextRoot(line, pos);
      forall p: nat :: pos <= p && (r.None? || p < r.value) ==> KeyMatchEnd(line, p).None?
    decreases |line| - pos
  {
    if pos < |line| && KeyMatchEnd(line, pos).None? {
      NextRootIsFirst(line, pos + 1);
    }
  }

  /** The roots the scan of one line collects from `lastIndex` pos on, in order. */
  function RootsFrom(line: string, pos: nat): seq<string>
    decreases |line| - pos
  {
    match NextRoot(line, pos)
    case None => []
    case Some(p) =>
      var e := KeyMatchEnd(line, p).value;
      [line[p..e]] + RootsFrom(line, e)
  }

  /** Every collected root is a note name. */
  lemma {:induction false} RootsAreNotes(line: string, pos: nat)
    ensures forall j :: 0 <= j < |RootsFrom(line, pos)| ==> IsNoteName(RootsFrom(line, pos)[j])
    decreases |line| - pos
  {
    var r := NextRoot(line, pos);
    if r.Some? {
      var e := KeyMatchEnd(line, r.value).value;
      RootsAreNotes(line, e);
    }
  }

  /** A line yields no root exactly when the expression matches nowhere on it. */
  lemma NoRootsIff(line: string)
    ensures RootsFrom(line, 0) == [] <==> forall p: nat :: KeyMatchEnd(line, p).None?
  {
    NextRootIsFirst(line, 0);
  }

  /** One turn of the scan loop: the next root is a known note, and moving it to the output keeps the whole result. */
  lemma RootsStep(line: string, pos: nat, roots: seq<string>)
    requires NextRoot(line, pos).Some?
    ensures var p := NextRoot(line, pos).value;
      var e := KeyMatchEnd(line, p).value;
      && NoteValue(line[p..e]).Some?
      && roots + RootsFrom(line, pos) == roots + [line[p..e]] + RootsFrom(line, e)
  {
    var p := NextRoot(line, pos).value;
    var e := KeyMatchEnd(line, p).value;
    Assoc(roots, [line[p..e]], RootsFrom(line, e));
  }

  /** The inner `while (re.exec(line))` loop: the roots of one line whose note value is known. */
  method ScanRoots(line: string) returns (roots: seq<string>)
    ensures roots == RootsFrom(line, 0)
  {
    roots := [];
    var lastIndex: nat := 0;
    var found := NextRoot(line, lastIndex);
    while found.Some?
      invariant found == NextRoot(line, lastIndex)
      invariant roots + RootsFrom(line, lastIndex) == RootsFrom(line, 0)
      decreases |line| - lastIndex
    {
      var p := found.value;
      var e := KeyMatchEnd(line, p).value;
      var root := line[p..e];
      RootsStep(line, lastIndex, roots);
      if NoteValue(root).Some? {
        roots := roots + [root];
      }
      lastIndex := e;
      found := NextRoot(line, lastIndex);
    }
    assert roots + [] == roots;
  }

  /** The roots of one line: those of the scan on a candidate line, none on any other. */
  function LineRoots(line: string): seq<string>
  {
    if IsCandidate(line) then RootsFrom(line, 0) else []
  }

  /** The roots of all lines, in order. */
  function DocRoots(ls: seq<string>): seq<string>
  {
    if ls == [] then [] else DocRoots(ls[..|ls| - 1]) + LineRoots(ls[|ls| - 1])
  }

  /** The sheet has no root exactly when no candidate line has one. */
  lemma {:induction false} NoDocRootsIff(ls: seq<string>)
    ensures DocRoots(ls) == [] <==> NoLineRoots(ls)
  {
    if ls != [] {
      var init, last := ls[..|ls| - 1], ls[|ls| - 1];
      NoDocRootsIff(init);
      DocRootsStep(ls);
      AllLinesStep(ls);
    }
  }

  lemma DocRootsStep(ls: seq<string>)
    requires ls != []
    ensures DocRoots(ls) == [] <==> DocRoots(ls[..|ls| - 1]) == [] && LineRoots(ls[|ls| - 1]) == []
  {
    var a, b := DocRoots(ls[..|ls| - 1]), LineRoots(ls[|ls| - 1]);
    assert |a + b| == |a| + |b|;
  }

  /** No line of ls yields a root. */
  predicate NoLineRoots(ls: seq<string>) {
    forall i :: 0 <= i < |ls| ==> LineRoots(ls[i]) == []
  }

  lemma AllLinesStep(ls: seq<string>)
    requires ls != []
    ensures NoLineRoots(ls) <==> NoLineRoots(ls[..|ls| - 1]) && LineRoots(ls[|ls| - 1]) == []
  {
    var init := ls[..|ls| - 1];
    assert forall i :: 0 <= i < |init| ==> init[i] == ls[i];
  }

  /** Every root of the sheet is a note name. */
  lemma {:induction false} DocRootsAreNotes(ls: seq<string>)
    ensures forall j :: 0 <= j < |DocRoots(ls)| ==> IsNoteName(DocRoots(ls)[j])
  {
    if ls != [] {
      var init, last := ls[..|ls| - 1], ls[|ls| - 1];
      DocRootsAreNotes(init);
      RootsAreNotes(last, 0);
    }
  }

  /** How many of the roots have pitch class pc. */
  function Count(roots: seq<string>, pc: int): nat
  {
    if roots == [] then 0
    else Count(roots[..|roots| - 1], pc) + (if NoteValue(roots[|roots| - 1]) == Some(pc) then 1 else 0)
  }

  /** The `counts` object: one entry per pitch class that occurs, holding how often it does. */
  function Tally(roots: seq<string>): map<int, nat>
  {
    if roots == [] then map[]
    else
      var m := Tally(roots[..|roots| - 1]);
      match NoteValue(roots[|roots| - 1])
      case None => m
      case Some(v) => m[v := (if v in m then m[v] else 0) + 1]
  }

  /** The tally holds exactly the pitch classes that occur, each with its count, and only pitch classes 0 to 11. */
  lemma {:induction false} TallyCounts(roots: seq<string>)
    ensures forall pc :: pc in Tally(roots) <==> Count(roots, pc) > 0
    ensures forall pc :: pc in Tally(roots) ==> Tally(roots)[pc] == Count(roots, pc) && 0 <= pc < 12
  {
    if roots != [] {
      var init := roots[..|roots| - 1];
      TallyCounts(init);
    }
  }

  /** The counting loop: `counts[v] = (counts[v] || 0) + 1` for every root. */
  method TallyRoots(tokens: seq<string>) returns (counts: map<int, nat>)
    ensures counts == Tally(tokens)
  {
    counts := map[];
    for i := 0 to |tokens|
      invariant counts == Tally(tokens[..i])
    {
      assert tokens[..i + 1][..i] == tokens[..i];
      var v := NoteValue(tokens[i]);
      if v.Some? {
        var k := v.value;
        counts := counts[k := (if k in counts then counts[k] else 0) + 1];
      }
    }
    assert tokens[..|tokens|] == tokens;
  }

  /**
   * pc is the suggested pitch class: it occurs, no pitch class occurs more
   * often, and every lower pitch class occurs less often (ties go to the
   * lowest).
   */
  predicate IsMostFrequent(roots: seq<string>, pc: int) {
    && 0 <= pc < 12 && Count(roots, pc) > 0
    && (forall q :: 0 <= q < 12 ==> Count(roots, q) <= Count(roots, pc))
    && (forall q :: 0 <= q < pc ==> Count(roots, q) < Count(roots, pc))
  }

  /** At most one pitch class is the most frequent in this sense. */
  lemma MostFrequentUnique(roots: seq<string>, p: int, q: int)
    requires IsMostFrequent(roots, p) && IsMostFrequent(roots, q)
    ensures p == q
  {
  }

  /**
   * The `for (k in counts)` loop: integer keys are visited in ascending
   * order, and a key replaces the best one only with a strictly larger count.
   */
  method PickMostFrequent(counts: map<int, nat>) returns (best: Option<int>)
    requires forall k :: k in counts ==> 0 <= k < 12 && counts[k] > 0
    ensures best.None? <==> counts == map[]
    ensures best.Some? ==> best.value in counts
    ensures best.Some? ==> forall q :: q in counts ==> counts[q] <= counts[best.value]
    ensures best.Some? ==> forall q :: q in counts && q < best.value ==> counts[q] < counts[best.value]
  {
    best := None;
    var max := -1;
    for k := 0 to 12
      invariant best.None? ==> max == -1 && forall q :: q in counts ==> k <= q
      invariant best.Some? ==> best.value < k && best.value in counts && counts[best.value] == max
      invariant forall q :: q in counts && q < k ==> counts[q] <= max
      invariant best.Some? ==> forall q :: q in counts && q < best.value ==> counts[q] < max
    {
      if k in counts && counts[k] > max {
        max := counts[k];
        best := Some(k);
      }
    }
  }

  /** The roots of one line as the outer loop collects them: scanned only when the line is a candidate. */
  method LineRootsOf(line: string) returns (roots: seq<string>)
    ensures roots == LineRoots(line)
  {
    roots := [];
    var likely := LikelyChordLine(line);
    if likely || HasBracketSpan(line) {
      roots := ScanRoots(line);
    }
  }

  /** The outer loop over the lines of the sheet, collecting every root in order. */
  method CollectRoots(lines: seq<string>) returns (tokens: seq<string>)
    ensures tokens == DocRoots(lines)
  {
    tokens := [];
    for i := 0 to |lines|
      invariant tokens == DocRoots(lines[..i])
    {
      var line := lines[i];
      assert lines[..i + 1][..i] == lines[..i];
      var roots := LineRootsOf(line);
      tokens := tokens + roots;
    }
    assert lines[..|lines|] == lines;
  }

  /** The roots the key suggestion tallies for a sheet. */
  function SheetRoots(text: string): seq<string>
  {
    DocRoots(SplitLines(text))
  }

  /**
   * `detectKeySuggestion`: `None` when no candidate line holds a root;
   * otherwise the chosen table's spelling of the most frequent pitch class.
   */
  method DetectKeySuggestion(text: string, preferFlats: bool) returns (key: Option<string>)
    ensures key.None? <==> SheetRoots(text) == []
    ensures key.Some? ==> IsCanonical(key.value, preferFlats) && IsMostFrequent(SheetRoots(text), NoteValue(key.value).value)
  {
    var lines := SplitLines(text);
    var tokens := CollectRoots(lines);
    if |tokens| == 0 {
      return None;
    }
    TallyShape(lines, tokens);
    var counts := TallyRoots(tokens);
    var best := PickMostFrequent(counts);
    var pc := best.value;
    var name := NoteName(pc, preferFlats);
    MostFrequentFromTally(tokens, pc);
    NameOfPitchClass(pc, preferFlats);
    key := Some(name);
  }

  /** The tally of a sheet's roots, when there are any, is non-empty and holds positive counts of pitch classes. */
  lemma TallyShape(lines: seq<string>, tokens: seq<string>)
    requires tokens == DocRoots(lines) && tokens != []
    ensures Tally(tokens) != map[]
    ensures forall k :: k in Tally(tokens) ==> 0 <= k < 12 && Tally(tokens)[k] > 0
  {
    TallyCounts(tokens);
    DocRootsAreNotes(lines);
    var first := NoteValue(tokens[0]).value;
    CountPositive(tokens, 0);
    assert first in Tally(tokens);
  }

  /** The spelling chosen for a pitch class is canonical and names that class. */
  lemma NameOfPitchClass(pc: int, preferFlats: bool)
    requires 0 <= pc < 12
    ensures IsCanonical(NoteName(pc, preferFlats), preferFlats)
    ensures NoteValue(NoteName(pc, preferFlats)) == Some(pc)
  {
    NoteNameSpec(pc, preferFlats);
  }

  /** A root whose note value is known counts for its pitch class. */
  lemma {:induction false} CountPositive(roots: seq<string>, j: nat)
    requires j < |roots| && NoteValue(roots[j]).Some?
    ensures Count(roots, NoteValue(roots[j]).value) > 0
  {
    var init := roots[..|roots| - 1];
    if j < |roots| - 1 {
      assert init[j] == roots[j];
      CountPositive(init, j);
    }
  }

  /** The pick made on the tally is the most frequent pitch class of the roots. */
  lemma MostFrequentFromTally(roots: seq<string>, pc: int)
    requires pc in Tally(roots)
    requires forall q :: q in Tally(roots) ==> Tally(roots)[q] <= Tally(roots)[pc]
    requires forall q :: q in Tally(roots) && q < pc ==> Tally(roots)[q] < Tally(roots)[pc]
    ensures IsMostFrequent(roots, pc)
  {
    TallyCounts(roots);
  }

  /** The root expression matches nowhere on the line. */
  ghost predicate NoRootOn(line: string) {
    forall p: nat :: KeyMatchEnd(line, p).None?
  }

  /** One line yields no root exactly when it is not a candidate or the root expression matches nowhere on it. */
  lemma LineNoRootsIff(line: string)
    ensures LineRoots(line) == [] <==> (IsCandidate(line) ==> NoRootOn(line))
  {
    NoRootsIff(line);
  }

  /** No candidate line of ls holds a match of the root expression. */
  ghost predicate RootFree(ls: seq<string>) {
    forall i :: 0 <= i < |ls| && IsCandidate(ls[i]) ==> NoRootOn(ls[i])
  }

  lemma NoLineRootsIsRootFree(ls: seq<string>)
    ensures NoLineRoots(ls) <==> RootFree(ls)
  {
    forall i | 0 <= i < |ls|
      ensures LineRoots(ls[i]) == [] <==> (IsCandidate(ls[i]) ==> NoRootOn(ls[i]))
    {
      var line := ls[i];
      LineNoRootsIff(line);
    }
  }

  /**
   * The sheet yields no key suggestion exactly when the root expression
   * matches nowhere on any candidate line.
   */
  lemma NoKeyIff(text: string)
    ensures SheetRoots(text) == [] <==> RootFree(SplitLines(text))
  {
    var ls := SplitLines(text);
    NoDocRootsIff(ls);
    NoLineRootsIsRootFree(ls);
  }
}
