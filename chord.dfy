/**
 * The chord token parser (`root suffix (/bass)?`) and the single-chord
 * transposer.
 */
module Chord {
  import opened Wrappers
  import opened Pitch
  import opened Text

  /** A parsed chord: the suffix is opaque text carried through untouched. */
  datatype ParsedChord = ParsedChord(root: string, suffix: string, bass: Option<string>)

  /** End of the greedy `[A-G][#b]?` that starts at `j`. */
  function NoteEnd(s: string, j: nat): (e: nat)
    requires j < |s| && IsNoteLetter(s[j])
    ensures j < e <= |s| && IsNoteName(s[j..e])
    ensures e == j + 2 || e == |s| || !IsAccidental(s[e])
  {
    if j + 1 < |s| && IsAccidental(s[j + 1]) then j + 2 else j + 1
  }

  predicate IsSlashOrSpace(c: char) { c == '/' || IsJsSpace(c) }

  /** End of the run `[^\/\s]*` that starts at `k`. */
  function SuffixEnd(t: string, k: nat): (e: nat)
    requires k <= |t|
    ensures k <= e <= |t|
    ensures forall i :: k <= i < e ==> !IsSlashOrSpace(t[i])
    ensures e < |t| ==> IsSlashOrSpace(t[e])
    decreases |t| - k
  {
    if k == |t| || IsSlashOrSpace(t[k]) then k else SuffixEnd(t, k + 1)
  }

  /**
   * `parseChordToken`: the anchored match of `^([A-G][#b]?)([^\/\s]*)?(?:\/([A-G][#b]?))?$`.
   * The root takes its accidental whenever one follows, because giving it
   * up never lets the rest of the pattern match where it did not before.
   */
  function ParseChordToken(t: string): Option<ParsedChord>
  {
    if |t| == 0 || !IsNoteLetter(t[0]) then None
    else
      var r := NoteEnd(t, 0);
      var s := SuffixEnd(t, r);
      if s == |t| then Some(ParsedChord(t[..r], t[r..], None))
      else if t[s] == '/' && s + 1 < |t| && IsNoteLetter(t[s + 1]) && NoteEnd(t, s + 1) == |t| then
        Some(ParsedChord(t[..r], t[r..s], Some(t[s + 1..])))
      else None
  }

  function BassPart(bass: Option<string>): string
  {
    match bass
    case None => ""
    case Some(b) => "/" + b
  }

  /** The text of a parsed chord: `root + suffix + ("/" + bass)?`. */
  function Render(p: ParsedChord): string
  {
    p.root + p.suffix + BassPart(p.bass)
  }

  /**
   * The chords the parser can produce: note-shaped root and bass, a suffix
   * without `/` or whitespace, and no accidental at the head of the suffix
   * when the root has none (the greedy root would have taken it).
   */
  predicate WellFormedChord(p: ParsedChord)
  {
    && IsNoteName(p.root)
    && (forall i :: 0 <= i < |p.suffix| ==> !IsSlashOrSpace(p.suffix[i]))
    && (|p.root| == 1 && |p.suffix| > 0 ==> !IsAccidental(p.suffix[0]))
    && (p.bass.Some? ==> IsNoteName(p.bass.value))
  }

  /** Whatever the parser returns is well formed and renders back to the token. */
  lemma ParseSound(t: string)
    requires ParseChordToken(t).Some?
    ensures WellFormedChord(ParseChordToken(t).value)
    ensures Render(ParseChordToken(t).value) == t
  {
    var p := ParseChordToken(t).value;
    var r := NoteEnd(t, 0);
    var s := SuffixEnd(t, r);
    if s == |t| {
      SplitAt(t, r);
    } else {
      SplitAround(t, r, s);
    }
  }

  /** Parsing inverts rendering on well-formed chords. */
  lemma ParseRender(p: ParsedChord)
    requires WellFormedChord(p)
    ensures ParseChordToken(Render(p)) == Some(p)
  {
    RenderLayout(p);
    match p.bass {
      case None => ParseRenderPlain(p);
      case Some(b) => ParseRenderBass(p, b);
    }
  }

  /** In the text of a well-formed chord the greedy root and the suffix run end where the root and the suffix do. */
  lemma RenderLayout(p: ParsedChord)
    requires WellFormedChord(p)
    ensures var t, r, n := Render(p), |p.root|, |p.root| + |p.suffix|;
      && n <= |t| && IsNoteLetter(t[0]) && NoteEnd(t, 0) == r && SuffixEnd(t, r) == n
      && t[..r] == p.root && t[r..n] == p.suffix && (p.bass.None? ==> n == |t|)
  {
    var t, r, n := Render(p), |p.root|, |p.root| + |p.suffix|;
    assert t[..r] == p.root;
    assert forall i :: r <= i < n ==> t[i] == p.suffix[i - r];
    if p.bass.Some? {
      assert t[n] == '/';
    }
  }

  lemma ParseRenderPlain(p: ParsedChord)
    requires WellFormedChord(p) && p.bass.None?
    requires var t, r, n := Render(p), |p.root|, |p.root| + |p.suffix|;
      && n == |t| && IsNoteLetter(t[0]) && NoteEnd(t, 0) == r && SuffixEnd(t, r) == n
      && t[..r] == p.root && t[r..n] == p.suffix
    ensures ParseChordToken(Render(p)) == Some(p)
  {
    var t, r := Render(p), |p.root|;
    assert t[r..] == t[r..|t|];
  }

  lemma ParseRenderBass(p: ParsedChord, b: string)
    requires WellFormedChord(p) && p.bass == Some(b)
    requires var t, r, n := Render(p), |p.root|, |p.root| + |p.suffix|;
      && n <= |t| && IsNoteLetter(t[0]) && NoteEnd(t, 0) == r && SuffixEnd(t, r) == n
      && t[..r] == p.root && t[r..n] == p.suffix
    ensures ParseChordToken(Render(p)) == Some(p)
  {
    var t, n := Render(p), |p.root| + |p.suffix|;
    assert t == p.root + p.suffix + "/" + b;
    assert t[n] == '/';
    assert t[n + 1..] == b;
    assert t[n + 1] == b[0];
    assert |b| == 2 ==> t[n + 2] == b[1];
  }

  /** A token that does not start with a letter A to G is not a chord. */
  lemma NotChordWithoutRootLetter(t: string)
    requires |t| == 0 || !IsNoteLetter(t[0])
    ensures ParseChordToken(t).None?
  {
  }

  /** Shifts one spelling, keeping it verbatim when it is not a known note (the bass fallback). */
  function ShiftNote(b: string, shift: int, preferFlats: bool): string
  {
    match NoteValue(b)
    case None => b
    case Some(v) => NoteName(v + shift, preferFlats)
  }

  /**
   * `transposeChord`: an unparsable token (or one whose root is unknown)
   * comes back unchanged; otherwise root and bass move by `shift`
   * semitones and are re-spelled, and the suffix is copied.
   */
  function TransposeChord(t: string, shift: int, preferFlats: bool): string
  {
    match ParseChordToken(t)
    case None => t
    case Some(p) =>
      match NoteValue(p.root)
      case None => t
      case Some(rv) =>
        var out := NoteName(rv + shift, preferFlats) + p.suffix;
        match p.bass
        case None => out
        case Some(b) => out + ("/" + ShiftNote(b, shift, preferFlats))
  }

  /** The transposed form of a parsed chord: root and bass re-spelled, suffix kept. */
  function ShiftChord(p: ParsedChord, shift: int, preferFlats: bool): ParsedChord
  {
    ParsedChord(
      ShiftNote(p.root, shift, preferFlats),
      p.suffix,
      match p.bass case None => None case Some(b) => Some(ShiftNote(b, shift, preferFlats)))
  }

  /** A shifted well-formed chord keeps its suffix and bass presence, and each note moves by `shift` pitch classes. */
  lemma ShiftChordSpec(p: ParsedChord, shift: int, preferFlats: bool)
    requires WellFormedChord(p)
    ensures var q := ShiftChord(p, shift, preferFlats);
      && q.suffix == p.suffix && q.bass.Some? == p.bass.Some?
      && (WellFormedChord(q) <==> |q.root| == 2 || |p.suffix| == 0 || !IsAccidental(p.suffix[0]))
      && IsCanonical(q.root, preferFlats)
      && NoteValue(q.root) == Some((NoteValue(p.root).value + shift) % 12)
      && (p.bass.Some? ==>
            IsCanonical(q.bass.value, preferFlats)
            && NoteValue(q.bass.value) == Some((NoteValue(p.bass.value).value + shift) % 12))
  {
    var q := ShiftChord(p, shift, preferFlats);
    ShiftNoteSpec(p.root, shift, preferFlats);
    if p.bass.Some? {
      ShiftNoteSpec(p.bass.value, shift, preferFlats);
      assert q.bass.value == ShiftNote(p.bass.value, shift, preferFlats);
    }
  }

  /** A known note moves to the canonical, note-shaped spelling of its shifted pitch class. */
  lemma ShiftNoteSpec(n: string, shift: int, preferFlats: bool)
    requires IsNoteName(n)
    ensures var m := ShiftNote(n, shift, preferFlats);
      IsNoteName(m) && IsCanonical(m, preferFlats) && NoteValue(m) == Some((NoteValue(n).value + shift) % 12)
  {
    var v := NoteValue(n).value;
    assert ShiftNote(n, shift, preferFlats) == NoteName(v + shift, preferFlats);
    NoteNameSpec(v + shift, preferFlats);
  }

  /** Unparsable tokens pass through; parsable ones become their shifted rendering (the unknown-note branches never fire). */
  lemma TransposeChordSpec(t: string, shift: int, preferFlats: bool)
    ensures ParseChordToken(t).None? ==> TransposeChord(t, shift, preferFlats) == t
    ensures ParseChordToken(t).Some? ==>
      var p := ParseChordToken(t).value;
      TransposeChord(t, shift, preferFlats) == Render(ShiftChord(p, shift, preferFlats))
  {
    match ParseChordToken(t) {
      case None =>
      case Some(p) =>
        ParsedRootIsNote(t);
        RenderShifted(p, NoteValue(p.root).value, shift, preferFlats);
    }
  }

  /** The rendering of a shifted chord, written the way `transposeChord` assembles its output. */
  lemma RenderShifted(p: ParsedChord, rv: int, shift: int, preferFlats: bool)
    requires NoteValue(p.root) == Some(rv)
    ensures Render(ShiftChord(p, shift, preferFlats)) ==
      match p.bass
      case None => NoteName(rv + shift, preferFlats) + p.suffix
      case Some(b) => NoteName(rv + shift, preferFlats) + p.suffix + ("/" + ShiftNote(b, shift, preferFlats))
  {
    if p.bass.None? {
      assert NoteName(rv + shift, preferFlats) + p.suffix + "" == NoteName(rv + shift, preferFlats) + p.suffix;
    }
  }

  /** The root the parser reports is note-shaped. */
  lemma ParsedRootIsNote(t: string)
    requires ParseChordToken(t).Some?
    ensures IsNoteName(ParseChordToken(t).value.root)
  {
    assert t[..NoteEnd(t, 0)] == t[0..NoteEnd(t, 0)];
  }

  lemma NoteNameHasNoNewline(s: string)
    requires IsNoteName(s)
    ensures '\n' !in s
  {
  }

  /** Transposing a token that holds no line break produces none. */
  lemma TransposeKeepsLineBreaks(t: string, shift: int, preferFlats: bool)
    requires '\n' !in t
    ensures '\n' !in TransposeChord(t, shift, preferFlats)
  {
    TransposeChordSpec(t, shift, preferFlats);
    if ParseChordToken(t).Some? {
      var p := ParseChordToken(t).value;
      ParseSound(t);
      var q := ShiftChord(p, shift, preferFlats);
      ShiftChordSpec(p, shift, preferFlats);
      assert t == p.root + p.suffix + BassPart(p.bass);
      assert '\n' !in p.suffix;
      ShiftNoteSpec(p.root, shift, preferFlats);
      NoteNameHasNoNewline(q.root);
      if p.bass.Some? {
        ShiftNoteSpec(p.bass.value, shift, preferFlats);
        NoteNameHasNoNewline(q.bass.value);
      }
      assert Render(q) == q.root + q.suffix + BassPart(q.bass);
    }
  }

  /** A token whose notes are spelled as the chosen table spells them. */
  predicate SpelledCanonically(t: string, preferFlats: bool) {
    && ParseChordToken(t).Some?
    && IsCanonical(ParseChordToken(t).value.root, preferFlats)
    && (ParseChordToken(t).value.bass.Some? ==> IsCanonical(ParseChordToken(t).value.bass.value, preferFlats))
  }

  /** Shift 0 leaves a canonically spelled chord as it is. */
  lemma ZeroShiftKeepsCanonical(t: string, preferFlats: bool)
    requires SpelledCanonically(t, preferFlats)
    ensures TransposeChord(t, 0, preferFlats) == t
  {
    var p := ParseChordToken(t).value;
    TransposeChordSpec(t, 0, preferFlats);
    CanonicalRenders(p.root, preferFlats);
    assert ShiftNote(p.root, 0, preferFlats) == p.root;
    if p.bass.Some? {
      CanonicalRenders(p.bass.value, preferFlats);
      assert ShiftNote(p.bass.value, 0, preferFlats) == p.bass.value;
    }
    assert ShiftChord(p, 0, preferFlats) == p;
    ParseSound(t);
  }

  /** Moving a canonically spelled note by `shift` and then by a `back` that cancels it gives the same spelling. */
  lemma ShiftNoteBack(n: string, shift: int, back: int, preferFlats: bool)
    requires IsCanonical(n, preferFlats)
    requires (shift + back) % 12 == 0
    ensures ShiftNote(ShiftNote(n, shift, preferFlats), back, preferFlats) == n
  {
    CanonicalRenders(n, preferFlats);
    var v := NoteValue(n).value;
    var a := v + shift;
    var m := NoteName(a, preferFlats);
    assert ShiftNote(n, shift, preferFlats) == m;
    NoteNameSpec(a, preferFlats);
    var w := a % 12 + back;
    assert ShiftNote(m, back, preferFlats) == NoteName(w, preferFlats);
    CancelResidue(v, shift, back);
    NoteNamePeriodic(w, v, preferFlats);
  }

  /** Adding shifts that cancel modulo 12 keeps the residue. */
  lemma CancelResidue(v: int, shift: int, back: int)
    requires (shift + back) % 12 == 0
    ensures ((v + shift) % 12 + back) % 12 == v % 12
  {
    var q, r := (v + shift) / 12, (shift + back) / 12;
    assert (v + shift) % 12 + back == v - 12 * (q - r);
    ResidueOfMultiple(v, q - r);
  }

  lemma ResidueOfMultiple(v: int, q: int)
    ensures (v - 12 * q) % 12 == v % 12
  {
  }

  /**
   * Shifting by `shift` and then by a `back` that cancels it modulo 12 (such
   * as `-shift`) restores a chord whose notes are spelled as the chosen table
   * spells them, provided its suffix does not begin with `#` or `b` (which the
   * re-parse would read as an accidental).
   */
  lemma TransposeChordRoundTrip(t: string, shift: int, back: int, preferFlats: bool)
    requires ParseChordToken(t).Some?
    requires var p := ParseChordToken(t).value;
      && IsCanonical(p.root, preferFlats)
      && (p.bass.Some? ==> IsCanonical(p.bass.value, preferFlats))
      && (|p.suffix| > 0 ==> !IsAccidental(p.suffix[0]))
    requires (shift + back) % 12 == 0
    ensures TransposeChord(TransposeChord(t, shift, preferFlats), back, preferFlats) == t
  {
    var p := ParseChordToken(t).value;
    var q := ShiftChord(p, shift, preferFlats);
    ShiftKeepsWellFormed(p, shift, preferFlats);
    calc {
      TransposeChord(TransposeChord(t, shift, preferFlats), back, preferFlats);
      { TransposeChordSpec(t, shift, preferFlats); }
      TransposeChord(Render(q), back, preferFlats);
      { TransposeRendered(q, back, preferFlats); }
      Render(ShiftChord(q, back, preferFlats));
      { ShiftChordBack(p, shift, back, preferFlats); }
      Render(p);
      { ParseSound(t); }
      t;
    }
  }

  /** Transposing the text of a well-formed chord gives the text of the shifted chord. */
  lemma TransposeRendered(p: ParsedChord, shift: int, preferFlats: bool)
    requires WellFormedChord(p)
    ensures TransposeChord(Render(p), shift, preferFlats) == Render(ShiftChord(p, shift, preferFlats))
  {
    var t := Render(p);
    ParseRender(p);
    TransposeChordSpec(t, shift, preferFlats);
  }

  /** Shifting keeps a chord well formed unless its suffix starts with an accidental. */
  lemma ShiftKeepsWellFormed(p: ParsedChord, shift: int, preferFlats: bool)
    requires WellFormedChord(p)
    requires |p.suffix| > 0 ==> !IsAccidental(p.suffix[0])
    ensures WellFormedChord(ShiftChord(p, shift, preferFlats))
  {
    ShiftChordSpec(p, shift, preferFlats);
  }

  /** Shifting a canonically spelled chord by `shift` and then by a `back` that cancels it gives the same chord. */
  lemma ShiftChordBack(p: ParsedChord, shift: int, back: int, preferFlats: bool)
    requires IsCanonical(p.root, preferFlats)
    requires p.bass.Some? ==> IsCanonical(p.bass.value, preferFlats)
    requires (shift + back) % 12 == 0
    ensures ShiftChord(ShiftChord(p, shift, preferFlats), back, preferFlats) == p
  {
    ShiftNoteBack(p.root, shift, back, preferFlats);
    if p.bass.Some? {
      ShiftNoteBack(p.bass.value, shift, back, preferFlats);
    }
  }

  /** Shift 0 is not the identity on text: sharps re-spell a flat root. */
  lemma ZeroShiftRespells()
    ensures TransposeChord("Db", 0, false) == "C#"
    ensures TransposeChord("B#", 0, false) == "C"
  {
    FlatRespelled();
    SharpRespelled();
  }

  lemma FlatRespelled()
    ensures TransposeChord("Db", 0, false) == "C#"
  {
    var db := "Db";
    assert NoteEnd(db, 0) == 2 && SuffixEnd(db, 2) == 2 && db[..2] == db && db[2..] == "";
    assert ParseChordToken(db) == Some(ParsedChord("Db", "", None));
    assert NoteValue("Db") == Some(1) && NoteName(1 + 0, false) == "C#";
  }

  lemma SharpRespelled()
    ensures TransposeChord("B#", 0, false) == "C"
  {
    var bs := "B#";
    assert NoteEnd(bs, 0) == 2 && SuffixEnd(bs, 2) == 2 && bs[..2] == bs && bs[2..] == "";
    assert ParseChordToken(bs) == Some(ParsedChord("B#", "", None));
    assert NoteValue("B#") == Some(0) && NoteName(0 + 0, false) == "C";
  }

  /** A suffix beginning with `b` after a sharp root breaks the round trip: `C#b5` comes back as `C5`. */
  lemma RoundTripNeedsPlainSuffix()
    ensures TransposeChord(TransposeChord("C#b5", 1, false), -1, false) == "C5"
  {
    SharpRootUp();
    FlatRootDown();
  }

  /** `C#b5` up one semitone with sharps: the root becomes `D` and the suffix `b5` follows it. */
  lemma SharpRootUp()
    ensures TransposeChord("C#b5", 1, false) == "Db5"
  {
    var t := "C#b5";
    assert NoteEnd(t, 0) == 2 && SuffixEnd(t, 2) == 4 && t[..2] == "C#" && t[2..] == "b5";
    assert ParseChordToken(t) == Some(ParsedChord("C#", "b5", None));
    assert NoteValue("C#") == Some(1) && NoteName(1 + 1, false) == "D";
  }

  /** `Db5` down one semitone: the parser now reads `Db` as the root, which becomes `C`. */
  lemma FlatRootDown()
    ensures TransposeChord("Db5", -1, false) == "C5"
  {
    var u := "Db5";
    assert NoteEnd(u, 0) == 2 && SuffixEnd(u, 2) == 3 && u[..2] == "Db" && u[2..] == "5";
    assert ParseChordToken(u) == Some(ParsedChord("Db", "5", None));
    assert NoteValue("Db") == Some(1) && NoteName(1 + -1, false) == "C";
  }

}
