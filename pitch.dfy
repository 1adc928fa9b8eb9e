/**
 * The pitch model: the spelling-to-pitch-class table, the two rendering
 * tables, and the normalisation of an arbitrary integer to a pitch class.
 */
module Pitch {
  import opened Wrappers

  /** Rendering table for the sharp preference: entry i spells pitch class i. */
  const NotesSharp: seq<string> := ["C", "C#", "D", "D#", "E", "F", "F#", "G", "G#", "A", "A#", "B"]
  /** Rendering table for the flat preference. */
  const NotesFlat: seq<string> := ["C", "Db", "D", "Eb", "E", "F", "Gb", "G", "Ab", "A", "Bb", "B"]

  /** The 21 spellings the engine understands, enharmonic synonyms included. */
  const NoteToValue: map<string, int> := map[
    "C" := 0, "B#" := 0,
    "C#" := 1, "Db" := 1,
    "D" := 2,
    "D#" := 3, "Eb" := 3,
    "E" := 4, "Fb" := 4,
    "F" := 5, "E#" := 5,
    "F#" := 6, "Gb" := 6,
    "G" := 7,
    "G#" := 8, "Ab" := 8,
    "A" := 9,
    "A#" := 10, "Bb" := 10,
    "B" := 11, "Cb" := 11
  ]

  predicate IsNoteLetter(c: char) { 'A' <= c <= 'G' }

  predicate IsAccidental(c: char) { c == '#' || c == 'b' }

  /** `s` matches `[A-G][#b]?` exactly. */
  predicate IsNoteName(s: string) {
    (|s| == 1 || |s| == 2) && IsNoteLetter(s[0]) && (|s| == 2 ==> IsAccidental(s[1]))
  }

  /** Pitch class of a natural note letter. */
  function LetterValue(c: char): (v: int)
    requires IsNoteLetter(c)
    ensures 0 <= v < 12
  {
    match c
    case 'C' => 0
    case 'D' => 2
    case 'E' => 4
    case 'F' => 5
    case 'G' => 7
    case 'A' => 9
    case _ => 11
  }

  /** Semitone offset of an accidental. */
  function AccidentalOffset(c: char): int
    requires IsAccidental(c)
  {
    if c == '#' then 1 else -1
  }

  /**
   * `noteValue`: the lookup of a spelling in the 21-entry table, written as
   * letter plus accidental; `None` plays JavaScript's `undefined`.
   * NoteValueIsTableLookup shows that it agrees with the table on every string.
   */
  function NoteValue(note: string): (r: Option<int>)
    ensures r.Some? <==> IsNoteName(note)
    ensures r.Some? ==> 0 <= r.value < 12
  {
    if !IsNoteName(note) then None
    else if |note| == 1 then Some(LetterValue(note[0]))
    else Some((LetterValue(note[0]) + AccidentalOffset(note[1])) % 12)
  }

  /** The rendering table for a spelling preference. */
  function Table(preferFlats: bool): (t: seq<string>)
    ensures |t| == 12
  {
    if preferFlats then NotesFlat else NotesSharp
  }

  /**
   * `s` is the spelling the chosen preference renders for its pitch class;
   * CanonicalIsTableEntry shows these are exactly the entries of the chosen table.
   */
  predicate IsCanonical(s: string, preferFlats: bool) {
    NoteValue(s).Some? && Spelling(NoteValue(s).value, preferFlats) == s
  }

  /** The table's keys are exactly the strings of the shape `[A-G][#b]?`. */
  lemma TableKeysAreNoteNames(s: string)
    ensures s in NoteToValue <==> IsNoteName(s)
  {
    if IsNoteName(s) {
      if |s| == 1 {
        assert s == [s[0]];
      } else {
        assert s == [s[0], s[1]];
      }
    }
  }

  /** `NoteValue` returns, for every string, exactly what the table lookup returns. */
  lemma NoteValueIsTableLookup(s: string)
    ensures NoteValue(s) == if s in NoteToValue then Some(NoteToValue[s]) else None
  {
    TableKeysAreNoteNames(s);
    if IsNoteName(s) {
      if |s| == 1 {
        assert s == [s[0]];
      } else {
        assert s == [s[0], s[1]];
      }
    }
  }

  /** JavaScript's `x % 12`: the remainder takes the sign of the dividend. */
  function JsRem12(a: int): int
  {
    if a >= 0 then a % 12 else -((-a) % 12)
  }

  /** The truncating remainder: smaller than 12 in size, signed like the dividend, congruent to it. */
  lemma JsRem12Spec(a: int)
    ensures -12 < JsRem12(a) < 12
    ensures a >= 0 ==> JsRem12(a) >= 0
    ensures a <= 0 ==> JsRem12(a) <= 0
    ensures (a - JsRem12(a)) % 12 == 0
  {
  }

  /** `((v % 12) + 12) % 12` with JavaScript's remainder: the mathematical residue of v. */
  function PitchClass(v: int): int
  {
    JsRem12(JsRem12(v) + 12)
  }

  /** The double remainder normalises every integer to its residue in 0..11. */
  lemma PitchClassIsResidue(v: int)
    ensures PitchClass(v) == v % 12
  {
    JsRem12Spec(v);
    JsRem12Spec(JsRem12(v) + 12);
  }

  /** Entry i of the chosen rendering table, written out case by case (SpellingEntry ties it to the tables). */
  function Spelling(i: int, preferFlats: bool): string
  {
    if i == 0 then "C"
    else if i == 1 then (if preferFlats then "Db" else "C#")
    else if i == 2 then "D"
    else if i == 3 then (if preferFlats then "Eb" else "D#")
    else if i == 4 then "E"
    else if i == 5 then "F"
    else if i == 6 then (if preferFlats then "Gb" else "F#")
    else if i == 7 then "G"
    else if i == 8 then (if preferFlats then "Ab" else "G#")
    else if i == 9 then "A"
    else if i == 10 then (if preferFlats then "Bb" else "A#")
    else "B"
  }

  /** `noteNameFromValue`: normalises v to a pitch class and renders it with the chosen table. */
  function NoteName(v: int, preferFlats: bool): string
  {
    Spelling(PitchClass(v), preferFlats)
  }

  /** Entry i of either table is a note-shaped spelling of pitch class i, and Spelling reads it. */
  lemma SpellingEntry(i: int, preferFlats: bool)
    requires 0 <= i < 12
    ensures Spelling(i, preferFlats) == Table(preferFlats)[i]
    ensures IsNoteName(Spelling(i, preferFlats))
    ensures NoteValue(Spelling(i, preferFlats)) == Some(i)
  {
  }

  /** The rendered name is the chosen table's entry at v's residue modulo 12. */
  lemma NoteNameIsTableLookup(v: int, preferFlats: bool)
    ensures NoteName(v, preferFlats) == Table(preferFlats)[v % 12]
  {
    PitchClassIsResidue(v);
    SpellingEntry(v % 12, preferFlats);
  }

  /** The rendered name is a canonical, note-shaped spelling whose pitch class is v's residue. */
  lemma NoteNameSpec(v: int, preferFlats: bool)
    ensures IsCanonical(NoteName(v, preferFlats), preferFlats)
    ensures IsNoteName(NoteName(v, preferFlats))
    ensures NoteValue(NoteName(v, preferFlats)) == Some(v % 12)
  {
    PitchClassIsResidue(v);
    SpellingEntry(v % 12, preferFlats);
  }

  /** The canonical spellings are exactly the entries of the chosen table. */
  lemma CanonicalIsTableEntry(s: string, preferFlats: bool)
    ensures IsCanonical(s, preferFlats) <==> s in Table(preferFlats)
  {
    if IsCanonical(s, preferFlats) {
      SpellingEntry(NoteValue(s).value, preferFlats);
    }
    if s in Table(preferFlats) {
      var i :| 0 <= i < 12 && Table(preferFlats)[i] == s;
      SpellingEntry(i, preferFlats);
    }
  }

  /** A canonical spelling is rendered back to itself from its own pitch class. */
  lemma CanonicalRenders(s: string, preferFlats: bool)
    requires IsCanonical(s, preferFlats)
    ensures NoteValue(s).Some?
    ensures NoteName(NoteValue(s).value, preferFlats) == s
  {
    PitchClassIsResidue(NoteValue(s).value);
  }

  /** Rendering depends only on the residue modulo 12. */
  lemma NoteNamePeriodic(v: int, w: int, preferFlats: bool)
    requires v % 12 == w % 12
    ensures NoteName(v, preferFlats) == NoteName(w, preferFlats)
  {
    PitchClassIsResidue(v);
    PitchClassIsResidue(w);
  }

  /**
   * The semitone interval from one key to another, `(toVal - fromVal + 12) % 12`;
   * `None` when either key is not a known spelling.
   */
  function KeyInterval(from: string, to: string): (r: Option<int>)
  {
    if NoteValue(from).None? || NoteValue(to).None? then None
    else Some(JsRem12(NoteValue(to).value - NoteValue(from).value + 12))
  }

  /** The interval is defined exactly for known keys, lies in 0..11 and carries the first key onto the second. */
  lemma KeyIntervalCorrect(from: string, to: string, preferFlats: bool)
    ensures KeyInterval(from, to).Some? <==> NoteValue(from).Some? && NoteValue(to).Some?
    ensures KeyInterval(from, to).Some? ==>
      var r := KeyInterval(from, to).value;
      0 <= r < 12 && NoteValue(NoteName(NoteValue(from).value + r, preferFlats)) == NoteValue(to)
  {
    if KeyInterval(from, to).Some? {
      var f, t := NoteValue(from).value, NoteValue(to).value;
      var r := JsRem12(t - f + 12);
      assert r == (t - f + 12) % 12;
      assert f + r == t || f + r == t + 12;
      assert (f + r) % 12 == t;
      NoteNameSpec(f + r, preferFlats);
      assert NoteValue(NoteName(f + r, preferFlats)) == Some(t);
    }
  }
}
