/**
 * Concrete lines on which transposing a sheet up and back again does not give
 * the sheet back, although each located chord alone would round-trip.
 */
module SheetRoundTrip {
  import opened Wrappers
  import opened Pitch
  import opened Text
  import opened Chord
  import opened LineClassifier
  import opened ChordLocator
  import opened Preview

  /** On the line `C#b5` only the root `C#` is located; `b5` is gap text. */
  lemma SharpRootMatches()
    ensures ChordMatches("C#b5") == [ChordMatch(0, 2, "", "C#", "")]
  {
    var line := "C#b5";
    assert MatchStarts(line, 0) && NextStart(line, 0) == Some(0);
    assert NoteEnd(line, 0) == 2 && line[0..0] == "" && line[0..2] == "C#" && line[2..2] == "";
    assert MatchAt(line, 0) == ChordMatch(0, 2, "", "C#", "");
    assert NextStart(line, 4) == None;
    assert NextStart(line, 3) == None;
    assert NextStart(line, 2) == None;
    assert ChordMatchesFrom(line, 2) == [];
  }

  /** On the line `Db5` only the root `Db` is located; `5` is gap text. */
  lemma FlatRootMatches()
    ensures ChordMatches("Db5") == [ChordMatch(0, 2, "", "Db", "")]
  {
    var line := "Db5";
    assert MatchStarts(line, 0) && NextStart(line, 0) == Some(0);
    assert NoteEnd(line, 0) == 2 && line[0..0] == "" && line[0..2] == "Db" && line[2..2] == "";
    assert MatchAt(line, 0) == ChordMatch(0, 2, "", "Db", "");
    assert NextStart(line, 3) == None;
    assert NextStart(line, 2) == None;
    assert ChordMatchesFrom(line, 2) == [];
  }

  /** `C#b5` parses as one chord, so it is a chord line, and a chord is located on it: it is transposed. */
  lemma SharpLineTransposes()
    ensures Transposes("C#b5")
  {
    var a := "C#b5";
    SharpRootMatches();
    assert NoteEnd(a, 0) == 2 && SuffixEnd(a, 2) == 4;
    assert IsWord(a);
    SingleChordLine(a);
  }

  /** `Db5` parses as one chord, so it is a chord line, and a chord is located on it: it is transposed. */
  lemma FlatLineTransposes()
    ensures Transposes("Db5")
  {
    var b := "Db5";
    FlatRootMatches();
    assert NoteEnd(b, 0) == 2 && SuffixEnd(b, 2) == 3;
    assert IsWord(b);
    SingleChordLine(b);
  }

  /** With sharps, `C#` up one semitone is `D`. */
  lemma SharpTokenUp()
    ensures TransposeChord("C#", 1, false) == "D"
  {
    var c := "C#";
    assert NoteEnd(c, 0) == 2 && SuffixEnd(c, 2) == 2 && c[..2] == c && c[2..] == "";
    assert ParseChordToken(c) == Some(ParsedChord("C#", "", None));
    assert NoteValue("C#") == Some(1) && NoteName(1 + 1, false) == "D";
  }

  /** With sharps, `Db` up eleven semitones is `C`. */
  lemma FlatTokenBack()
    ensures TransposeChord("Db", 11, false) == "C"
  {
    var d := "Db";
    assert NoteEnd(d, 0) == 2 && SuffixEnd(d, 2) == 2 && d[..2] == d && d[2..] == "";
    assert ParseChordToken(d) == Some(ParsedChord("Db", "", None));
    assert NoteValue("Db") == Some(1) && NoteName(1 + 11, false) == "C";
  }

  /** Splicing one match that opens the line, with no brackets, gives its new token and then the text after it. */
  lemma OneMatchSplice(line: string, m: ChordMatch, t: string)
    requires m.index == 0 && m.length <= |line| && m.openB == "" && m.closeB == ""
    ensures PlainSplice(line, [m], [t]) == t + line[m.length..]
  {
    var ms, ts := [m], [t];
    UpToStep(line, ms, ts, 0);
    SpliceEnd(line, ms, ts);
    assert End(ms, 0, 0) == 0 && End(ms, 1, 0) == m.length;
    assert PlainUpTo(line, ms, ts, 0) == "" by {
      assert PiecesUpTo(line, ms, ts, 0) == [];
    }
    assert PlainPiece(line, m, 0, t) == t by {
      assert Slice(line, 0, 0) == [];
    }
    assert Slice(line, m.length, |line|) == line[m.length..];
    calc {
      PlainSplice(line, ms, ts);
      PlainUpTo(line, ms, ts, 1) + Slice(line, m.length, |line|);
      (PlainUpTo(line, ms, ts, 0) + PlainPiece(line, m, 0, t)) + line[m.length..];
    }
  }

  /** The plain view of a line whose one located chord m opens it: the transposed token t, then the text after m. */
  lemma OneMatchLine(line: string, m: ChordMatch, t: string, shift: int, preferFlats: bool)
    requires m.index == 0 && m.length <= |line| && m.openB == "" && m.closeB == ""
    requires Transposes(line) && ChordMatches(line) == [m] && TransposeChord(m.token, shift, preferFlats) == t
    ensures PlainLine(line, shift, preferFlats) == t + line[m.length..]
  {
    assert [m][1..] == [];
    assert Transposed([m], shift, preferFlats) == [t];
    OneMatchSplice(line, m, t);
  }

  /** With sharps, the line `C#b5` moved up one semitone reads `Db5`. */
  lemma SharpLineUp()
    ensures PlainLine("C#b5", 1, false) == "Db5"
  {
    SharpRootMatches();
    SharpLineTransposes();
    SharpTokenUp();
    OneMatchLine("C#b5", ChordMatch(0, 2, "", "C#", ""), "D", 1, false);
  }

  /** With sharps, the line `Db5` moved up eleven semitones reads `C5`. */
  lemma FlatLineBack()
    ensures PlainLine("Db5", 11, false) == "C5"
  {
    FlatRootMatches();
    FlatLineTransposes();
    FlatTokenBack();
    OneMatchLine("Db5", ChordMatch(0, 2, "", "Db", ""), "C", 11, false);
  }

  /**
   * The sheet `C#b5` transposed up one semitone and then up eleven more comes
   * back as `C5`: the located chord `C#` meets every condition of the
   * single-chord round trip, but the gap text `b` that follows it fuses with
   * the new natural root `D` into `Db`.
   */
  lemma SheetRoundTripFails()
    ensures PlainDocument("C#b5", 1, false) == "Db5"
    ensures PlainDocument("Db5", 11, false) == "C5"
    ensures PlainDocument(PlainDocument("C#b5", 1, false), 11, false) != "C#b5"
  {
    SplitNoNewline("C#b5");
    SplitNoNewline("Db5");
    SharpLineUp();
    FlatLineBack();
    assert PlainLines(["C#b5"], 1, false) == ["Db5"];
    assert PlainLines(["Db5"], 11, false) == ["C5"];
  }
}
