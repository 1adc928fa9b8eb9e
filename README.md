# Chord transposer engine in Dafny

This project models the transposition engine of a small browser tool for
chord sheets. A chord sheet is text in which chord symbols such as `Am7`,
`F#/C#` or `[G]` appear on lines of their own or in brackets between words.
The engine does five things:

- it reads note spellings (`C`, `C#`, `Db`, …, 21 of them) as pitch classes
  and writes pitch classes back with a sharp or a flat table;
- it parses a chord token into root, suffix and optional bass, and transposes
  it by a number of semitones;
- it decides which lines carry chords (mostly chord words, or a bracketed span);
- it finds the chord tokens on such a line and rebuilds the sheet with every
  chord transposed, once as plain text and once as HTML markup;
- it suggests the original key as the most frequent root on the sheet.

Modules follow the engine's layers:

| module | file | covers |
|---|---|---|
| `Wrappers` | `wrappers.dfy` | `Option` |
| `Pitch` | `pitch.dfy` | the spelling tables, `noteValue`, `noteNameFromValue`, the key interval |
| `Text` | `text.dfy` | JavaScript's `\s`, `slice`, `split('\n')`/`join('\n')`, splitting into words |
| `Chord` | `chord.dfy` | `parseChordToken`, `transposeChord` |
| `Markup` | `markup.dfy` | `escapeHtml`, and a decoder that reads the preview markup back as text |
| `LineClassifier` | `classifier.dfy` | `likelyChordLine` and the bracket test on a line |
| `ChordLocator` | `locator.dfy` | `findChordMatches` |
| `Preview` | `preview.dfy` | `buildTransposedPreview` |
| `SheetRoundTrip` | `roundtrip.dfy` | concrete lines on which transposing a sheet forth and back does not restore it |
| `KeySuggestion` | `keys.dfy` | `detectKeySuggestion` |

The pure functions of the source are Dafny functions. Each loop of the source
becomes a method with the same loop, proved equal to a specification function:
- the `lastIndex` loop of `findChordMatches`;
- the word counter of `likelyChordLine`;
- the `cursor`/`plain`/`html` accumulators of `buildTransposedPreview`;
- the root scan, the `counts` tally and the `for…in` pick of `detectKeySuggestion`.

The specification functions then carry the lemmas:
- parse/render round trips;
- pitch-class arithmetic of the transposer;
- the order and layout of the matches;
- preservation of the line structure;
- the markup reading back as the plain text;
- the most-frequent property of the suggested key.

Each regular expression of the source is modelled as a hand-written scanner that
follows that expression's actual matching, not its apparent intent:
- In `findChordMatches` the lazy suffix `*?` is followed only by optional parts, so it always matches empty. A token is therefore only `root` or `root/bass`, and suffixes such as `m7` are copied as gap text.
- The key scan's lookahead cannot be met by backtracking off an accidental, so a root is always the greedy `[A-G][#b]?`.
- The key scan has no boundary on the left, so an upper-case `A`–`G` inside a word counts as a root whenever a follow character comes after it.
- The `.` of the bracket test does not cross `\n`, `\r`, U+2028 or U+2029.

A tie goes to the lowest pitch class with the highest count: `for…in` visits integer keys in ascending order and the comparison is strict (`KeySuggestion.IsMostFrequent`).

## Model

| member | source | states |
|---|---|---|
| Pitch.LetterValue | script.js:3-16 | each natural letter A–G has a pitch class in 0..11 |
| Pitch.NoteValue | script.js:3-16 | `noteValue` is defined exactly on the strings `[A-G][#b]?` and yields a pitch class in 0..11 |
| Pitch.TableKeysAreNoteNames | script.js:3-16 | the 21 keys of `NOTE_TO_VALUE` are exactly the strings of shape `[A-G][#b]?` |
| Pitch.NoteValueIsTableLookup | script.js:3-16 | the structural reading of a spelling agrees with the 21-entry table, including its absence for other strings |
| Pitch.Table | script.js:1-2 | each render table has 12 entries |
| Pitch.JsRem12Spec | script.js:50 | JavaScript's truncating `%` by 12 lies strictly between -12 and 12, keeps the sign of its operand and differs from it by a multiple of 12 |
| Pitch.PitchClassIsResidue | script.js:50 | `((v%12)+12)%12` is the mathematical residue of v modulo 12 for every integer, negative ones included |
| Pitch.SpellingEntry | script.js:1-2 | entry i of either table is a note name whose value is i |
| Pitch.NoteName | script.js:49-52 | `noteNameFromValue`: the entry `((v%12)+12)%12` of the flat or the sharp table; what it yields is stated by Pitch.NoteNameSpec and Pitch.NoteNameIsTableLookup |
| Pitch.NoteNameIsTableLookup | script.js:49-52 | `noteNameFromValue(v)` is entry `v mod 12` of the selected table |
| Pitch.NoteNameSpec | script.js:49-52 | `noteNameFromValue` always yields a canonical note name of the selected table whose value is `v mod 12` |
| Pitch.CanonicalIsTableEntry | script.js:1-2 | a spelling is canonical for a table exactly when it is an entry of that table |
| Pitch.CanonicalRenders | script.js:48-52 | reading a canonical spelling and writing it back with the same table gives it back |
| Pitch.NoteNamePeriodic | script.js:49-52 | values congruent modulo 12 are written the same way |
| Pitch.KeyInterval | script.js:151 | `(toVal-fromVal+12)%12` with JavaScript's truncating `%`, or nothing when either key is unknown; its meaning is stated by Pitch.KeyIntervalCorrect |
| Pitch.KeyIntervalCorrect | script.js:149-151 | `(toVal-fromVal+12)%12` is defined exactly when both keys are known, lies in 0..11 and shifts the first key onto the second |
| Text.Slice | script.js:109 | `slice` with in-range bounds is the subsequence, and is empty when the bounds are crossed |
| Text.SplitLines | script.js:98 | `split('\n')` gives at least one piece, no piece holds a newline, and joining the pieces restores the text |
| Text.SplitJoinLines | script.js:124 | splitting a join of newline-free lines gives back exactly those lines |
| Text.WordLength | script.js:87 | a word runs up to the first whitespace character |
| Text.Words | script.js:87 | `trim().split(/\s+/).filter(Boolean)` yields only non-empty whitespace-free words |
| Text.BlankHasNoWords | script.js:87-88 | an empty or whitespace-only line has no words |
| Text.WordsOfJoined | script.js:87 | splitting words joined by single spaces gives back the same words |
| Text.WordsCollapse | script.js:87 | the words joined by single spaces are the line trimmed with each whitespace run collapsed to one space, so the words are the maximal whitespace-free runs in order |
| Text.CollapseFromWords | script.js:87 | collapsing from any scan state writes the remaining words joined by spaces, after a space when a word came before |
| Text.CollapseRun | script.js:87 | collapsing copies a whitespace-free run unchanged |
| Chord.NoteEnd | script.js:54 | the greedy root ends after the accidental when one follows, and always covers a note name |
| Chord.SuffixEnd | script.js:54 | the suffix run holds no `/` or whitespace and stops at the first one |
| Chord.ParseChordToken | script.js:53-57 | `parseChordToken`: the anchored match of root, suffix and optional `/bass`, or null; its soundness and completeness are stated by Chord.ParseSound and Chord.ParseRender |
| Chord.ParseSound | script.js:53-57 | a parsed chord has a note-name root, a suffix free of `/` and whitespace and a note-name bass, and `root + suffix + ("/" + bass)` is the token |
| Chord.ParseRender | script.js:53-57 | every well-formed chord written out parses back to itself |
| Chord.RenderLayout | script.js:53-57 | a written-out chord's root, suffix and bass sit where the parser looks for them |
| Chord.ParseRenderPlain | script.js:53-57 | a well-formed chord without bass parses back from its text |
| Chord.ParseRenderBass | script.js:53-57 | a well-formed chord with bass parses back from its text |
| Chord.NotChordWithoutRootLetter | script.js:54-55 | a token that is empty or does not start with A–G does not parse |
| Chord.ShiftNote | script.js:68 | the bass step of `transposeChord`: a known note is re-spelled `shift` semitones on, an unknown one is kept; stated by Chord.ShiftNoteSpec |
| Chord.TransposeChord | script.js:58-72 | `transposeChord`, branch for branch; its result is stated by Chord.TransposeChordSpec and Chord.TransposeChordRoundTrip |
| Chord.ShiftNoteSpec | script.js:62-68 | a known note moved by `shift` is a canonical spelling whose value is `(old + shift) mod 12` |
| Chord.ShiftChordSpec | script.js:58-72 | transposing keeps the suffix and the presence of the bass, and moves root and bass to canonical spellings `shift` semitones on |
| Chord.TransposeChordSpec | script.js:58-72 | an unparsable token comes back unchanged; otherwise the output is the new root, the verbatim suffix and `/` plus the new bass |
| Chord.RenderShifted | script.js:64-70 | the text of the transposed chord is `noteNameFromValue(rootVal + shift)`, then the suffix, then `/` and the moved bass if there was one |
| Chord.ParsedRootIsNote | script.js:53-63 | a parsed root is always a known note, so the "unknown root" branch never returns |
| Chord.NoteNameHasNoNewline | script.js:1-16 | no note name holds a newline |
| Chord.TransposeKeepsLineBreaks | script.js:58-72 | transposing a token without a newline gives text without one |
| Chord.ZeroShiftKeepsCanonical | script.js:58-72 | shift 0 leaves a chord already spelled with the selected table unchanged |
| Chord.ZeroShiftRespells | script.js:58-72 | shift 0 is not the identity: with sharps `Db` becomes `C#` and `B#` becomes `C` |
| Chord.FlatRespelled | script.js:58-72 | with sharps, `Db` at shift 0 is written `C#` |
| Chord.SharpRespelled | script.js:58-72 | `B#` at shift 0 is written `C` |
| Chord.ShiftNoteBack | script.js:62-68 | moving a canonical note by `shift` and then by `back`, where the two cancel modulo 12, restores it |
| Chord.ShiftChordBack | script.js:58-72 | moving a canonically spelled chord forth and back by cancelling shifts restores it |
| Chord.ShiftKeepsWellFormed | script.js:58-72 | a transposed chord whose suffix does not start with `#` or `b` is still well formed |
| Chord.TransposeRendered | script.js:58-72 | transposing the text of a well-formed chord equals writing out the moved chord |
| Chord.TransposeChordRoundTrip | script.js:58-72 | transposing by `shift` and back by a cancelling `back` restores a canonically spelled token whose suffix does not start with `#` or `b` |
| Chord.RoundTripNeedsPlainSuffix | script.js:53-72 | without that suffix condition the round trip fails: `C#b5` goes up to `Db5`, which is read back with root `Db`, and comes down as `C5` |
| Chord.SharpRootUp | script.js:53-72 | `C#b5` transposed up one semitone with sharps is `Db5` |
| Chord.FlatRootDown | script.js:53-72 | `Db5` transposed down one semitone with sharps is `C5` |
| Markup.ReplaceAllAppend | script.js:73 | a global single-character replace distributes over concatenation |
| Markup.ReplaceAllAbsent | script.js:73 | replacing a character that does not occur changes nothing |
| Markup.EscapeHtmlPerChar | script.js:73 | the three `replace` passes of `escapeHtml` equal escaping each character on its own |
| Markup.EscapeCharInPasses | script.js:73 | one character taken through the three passes in source order gives its escape |
| Markup.EscapedHasNoTags | script.js:73 | the output of `escapeHtml` holds no `<` or `>` |
| Markup.UnmarkEscape | script.js:73 | decoding the entities of escaped text gives back the text |
| Markup.UnmarkEscapeEach | script.js:73 | decoding per-character escapes gives back the text |
| Markup.UnmarkSpan | script.js:110 | a `<span>` holding escaped text reads back as that text |
| Markup.UnmarkChordSpan | script.js:115 | a `<span class="chord">` holding an escaped chord reads back as the chord |
| Markup.UnmarkPieces | script.js:102-122 | any sequence of preview pieces reads back as the concatenation of their texts |
| Markup.ReplaceAll | script.js:73 | one global single-character `replace`; stated by Markup.ReplaceAllAppend and Markup.ReplaceAllAbsent |
| Markup.EscapeHtml | script.js:73 | `escapeHtml`: the `&`, `<` and `>` passes in source order; stated by Markup.EscapeHtmlPerChar, Markup.EscapedHasNoTags and Markup.UnmarkEscape |
| LineClassifier.LeadingOpens | script.js:91 | the leading run `^[\(\[\{]+` is all opening brackets and is maximal |
| LineClassifier.TrailingCloses | script.js:91 | the trailing run `[\)\]\}]+$` is all closing brackets and is maximal |
| LineClassifier.StripWrapped | script.js:91 | stripping a word made of opening brackets, a core and closing brackets leaves the core |
| LineClassifier.StripBrackets | script.js:91 | the word with its leading opening and trailing closing bracket runs removed; stated by LineClassifier.StripWrapped |
| LineClassifier.CountChordWords | script.js:89-93 | the chord count never exceeds the word count |
| LineClassifier.IsChordLine | script.js:86-95 | `likelyChordLine` as a predicate; LineClassifier.LikelyChordLine computes it and LineClassifier.ChordLineExtremes and LineClassifier.BlankIsNotChordLine bound it |
| LineClassifier.SingleChordLine | script.js:86-95 | a line that is one chord word without brackets at its ends is a chord line |
| LineClassifier.LikelyChordLine | script.js:86-95 | the counting loop returns true exactly when the line has words and at least three fifths of them parse as chords once brackets are stripped |
| LineClassifier.BlankIsNotChordLine | script.js:88 | an empty or whitespace-only line is never a chord line |
| LineClassifier.ChordLineExtremes | script.js:86-95 | a line whose words are all chords is a chord line, and one with no chord word is not |
| LineClassifier.CloseBeforeBreakSpec | script.js:100 | the lazy `.*?` then `[\)\]\}]` succeeds exactly when a closing bracket follows before any line terminator |
| LineClassifier.BracketSpanFromSpec | script.js:100 | the search from i succeeds exactly when some opening bracket at or after i has a closing bracket after it on the same line |
| LineClassifier.HasBracketSpanSpec | script.js:100 | the bracket test holds exactly when an opening bracket is followed on the same line by a closing one |
| LineClassifier.CloseBeforeBreak | script.js:100 | the lazy `.*?` followed by a closing bracket, tried from one position; stated by LineClassifier.CloseBeforeBreakSpec |
| LineClassifier.BracketSpanFrom | script.js:100 | the unanchored search for an opening bracket from a position; stated by LineClassifier.BracketSpanFromSpec |
| LineClassifier.HasBracketSpan | script.js:100 | the bracket test of a line; stated by LineClassifier.HasBracketSpanSpec |
| ChordLocator.LetterPos | script.js:76 | a match's note letter is at its start, or just after its opening bracket |
| ChordLocator.MatchStarts | script.js:76 | the expression can match at i: an opening bracket then a note letter, or a note letter; its use is stated by ChordLocator.NextStartIsFirst |
| ChordLocator.MatchFrom | script.js:76 | the match whose note letter is at s: the root, the lazy suffix (empty), an optional `/bass`, and an optional closing bracket; it starts at i, is non-empty and stays in the line |
| ChordLocator.MatchAt | script.js:76 | a match starting at i has length at least one and stays within the line |
| ChordLocator.NextStart | script.js:78 | the next match starts at or after `lastIndex` |
| ChordLocator.NextStartIsFirst | script.js:78 | no match starts between `lastIndex` and the next match, nor anywhere after `lastIndex` when none is found |
| ChordLocator.MatchShape | script.js:76-81 | a match covers exactly `openB + token + closeB` in the line; each bracket is empty or one bracket character; the token parses with an empty suffix |
| ChordLocator.MatchLayout | script.js:76-79 | the matched text is `openB + token + closeB` |
| ChordLocator.MatchBrackets | script.js:76-79 | each captured bracket is absent or a single bracket of the right kind |
| ChordLocator.MatchTokenParses | script.js:76-81 | every token the expression captures parses, and always with an empty suffix, so the `if (parsed)` filter drops nothing |
| ChordLocator.TokenParses | script.js:53-57 | a root, optionally followed by `/` and a bass, parses with an empty suffix |
| ChordLocator.ChordMatchesFromStep | script.js:78-81 | the scan from `lastIndex` is the next match followed by the scan from that match's end |
| ChordLocator.ChordMatchesFrom | script.js:76-84 | the `exec` scan from `lastIndex`, keeping the matches whose token parses; stated by ChordLocator.ChordMatchesFromStep, ChordLocator.FindChordMatches and ChordLocator.ChordMatchesShape |
| ChordLocator.FindChordMatches | script.js:75-85 | the `exec` loop returns exactly the leftmost, non-overlapping scan of the line |
| ChordLocator.ScanStep | script.js:78-81 | one turn of the loop: the next match parses, so `if (parsed)` keeps it, and moving it to the output leaves the final result unchanged |
| ChordLocator.ScanAppend | script.js:78-81 | appending the next match to the output and resuming after it gives the same final result |
| ChordLocator.ChordMatchesFromScan | script.js:75-85 | the result is a leftmost scan: each match is the first one that starts after the previous match ends |
| ChordLocator.LeftmostScanUnique | script.js:75-85 | a line has only one leftmost scan |
| ChordLocator.ChordMatchesInOrder | script.js:75-85 | every match is non-empty and inside the line, and each starts at or after the end of the one before |
| ChordLocator.InOrderBounds | script.js:75-85 | in an ordered list each match starts after the scan position, is non-empty and ends within the line |
| ChordLocator.InOrderPairwise | script.js:75-85 | in an ordered list every earlier match ends at or before the start of every later one, and starts strictly before it |
| ChordLocator.ScanParses | script.js:80-81 | every match of a leftmost scan has a token that parses |
| ChordLocator.ChordMatchesShape | script.js:75-85 | every match returned has length at least one, lies inside the line and has a token that parses, and the matches are pairwise disjoint and strictly ascending |
| ChordLocator.InOrderAt | script.js:75-85 | the k-th match starts at or after the end of the matches before it and ends within the line |
| ChordLocator.ChordMatchesLaid | script.js:79-81 | every match covers its brackets and token in the line |
| ChordLocator.LaidAt | script.js:79-81 | the k-th match covers its brackets and token in the line |
| Preview.Transposed | script.js:113 | one transposed token per match |
| Preview.TransposedAt | script.js:113 | the k-th transposed token is `transposeChord` of the k-th match's token |
| Preview.PreviewLine | script.js:99-123 | one line of the preview: its plain and markup views |
| Preview.PlainLine | script.js:99-122 | the plain view of a line: the line itself when passed through, else the splice of the transposed matches; computed by Preview.PreviewLine |
| Preview.HtmlLine | script.js:99-122 | the markup view of a line: one span when passed through, else the spans of the gaps and chords; computed by Preview.PreviewLine |
| Preview.PlainDocument | script.js:96-125 | the plain views of the lines joined by newlines; computed by Preview.BuildTransposedPreview and kept line for line by Preview.PreviewKeepsLines |
| Preview.HtmlDocument | script.js:96-125 | the markup views of the lines joined by newlines; read back as the plain output by Preview.UnmarkDocument |
| Preview.PassedThrough | script.js:101-106 | a line that is not a candidate, or holds no match, comes out as itself and as one span, whatever the shift |
| Preview.SpliceLine | script.js:104-122 | the cursor loop builds exactly the splice of the transposed matches into the line |
| Preview.SpliceMatch | script.js:108-116 | one match: the gap before it, then bracket, transposed token and bracket |
| Preview.SpliceGap | script.js:108-110 | a gap is copied as `slice` and wrapped in a `<span>` only when it is non-empty |
| Preview.BuildTransposedPreview | script.js:96-125 | the document's plain and markup views are the line views joined by newlines |
| Preview.PlainLinesAt | script.js:99-124 | the k-th plain line is the plain view of the k-th source line |
| Preview.HtmlLinesAt | script.js:99-124 | the k-th markup line is the markup view of the k-th source line |
| Preview.UpToStep | script.js:107-117 | each turn of the match loop appends that match's piece to both views |
| Preview.SpliceEnd | script.js:118-121 | after the loop, the tail of the line from the cursor completes both views |
| Preview.SpliceAdvance | script.js:107-117 | one turn of the match loop: the cursor moves to the end of match k and both views grow by its piece with the token transposed |
| Preview.GapViews | script.js:108-110 | a gap's pieces render as its markup and read as its text |
| Preview.MatchViews | script.js:112-115 | a match's pieces render as its markup and read as its plain text |
| Preview.LineViews | script.js:99-122 | a line's pieces render as its markup view and read as its plain view |
| Preview.DocViews | script.js:124 | the document's pieces render as the joined markup and read as the joined plain text |
| Preview.UnmarkDocument | script.js:96-125 | removing the span tags from the markup and decoding `&amp;`, `&lt;`, `&gt;` gives exactly the plain output |
| Preview.PlainLineNoNewline | script.js:99-122 | a plain line of the preview holds no newline |
| Preview.PlainUpToNoNewline | script.js:107-117 | the plain text built by the loop so far holds no newline |
| Preview.NoNewlineStep | script.js:107-117 | one turn of the loop adds no newline |
| Preview.PlainPieceNoNewline | script.js:108-114 | a gap plus a transposed match adds no newline |
| Preview.TransposedNoNewline | script.js:113 | no transposed token holds a newline |
| Preview.SpliceNoNewline | script.js:104-122 | a spliced line holds no newline |
| Preview.PreviewKeepsLines | script.js:96-125 | splitting the plain output into lines gives, line for line, the plain view of each source line, so line count and order are kept |
| Preview.SpliceIdentity | script.js:107-117 | when every token is put back unchanged, the loop rebuilds the line up to the cursor |
| Preview.SpliceIdentityStep | script.js:107-117 | one turn of that loop keeps the rebuilt prefix equal to the line |
| Preview.ZeroShiftKeepsLine | script.js:99-122 | at shift 0 a line comes out unchanged when it is passed through, or when every chord located on it is spelled with the selected table |
| SheetRoundTrip.SharpRootMatches | script.js:75-85 | on the line `C#b5` the only match is the root `C#`; `b5` is gap text |
| SheetRoundTrip.FlatRootMatches | script.js:75-85 | on the line `Db5` the only match is the root `Db` |
| SheetRoundTrip.SharpLineTransposes | script.js:86-106 | the line `C#b5` is a chord line with a match, so it is transposed |
| SheetRoundTrip.FlatLineTransposes | script.js:86-106 | the line `Db5` is a chord line with a match, so it is transposed |
| SheetRoundTrip.SharpTokenUp | script.js:58-72 | with sharps, `C#` up one semitone is `D` |
| SheetRoundTrip.FlatTokenBack | script.js:58-72 | with sharps, `Db` up eleven semitones is `C` |
| SheetRoundTrip.OneMatchSplice | script.js:107-121 | a line whose one bracket-free match opens it becomes the new token followed by the rest of the line |
| SheetRoundTrip.OneMatchLine | script.js:99-122 | the plain view of such a transposed line is the transposed token followed by the rest of the line |
| SheetRoundTrip.SharpLineUp | script.js:99-122 | with sharps, the line `C#b5` up one semitone reads `Db5` |
| SheetRoundTrip.FlatLineBack | script.js:99-122 | with sharps, the line `Db5` up eleven semitones reads `C5` |
| SheetRoundTrip.SheetRoundTripFails | script.js:96-125 | the sheet `C#b5` up one semitone and up eleven more comes back as `C5`, not as itself |
| Preview.ZeroShiftTokens | script.js:113 | at shift 0, canonically spelled tokens are transposed to themselves |
| KeySuggestion.KeyMatchEnd | script.js:130 | a root match covers a note name inside the line |
| KeySuggestion.KeyMatchIsGreedy | script.js:130 | a root match always takes the accidental when one follows, and the lookahead holds right after it |
| KeySuggestion.NextRoot | script.js:131 | the next root match starts at or after `lastIndex` |
| KeySuggestion.NextRootIsFirst | script.js:131 | no root matches between `lastIndex` and the next root match, nor anywhere after `lastIndex` when none is found |
| KeySuggestion.RootsFrom | script.js:130-135 | the roots the `exec` loop collects from `lastIndex` on; stated by KeySuggestion.ScanRoots, KeySuggestion.RootsAreNotes and KeySuggestion.NoRootsIff |
| KeySuggestion.RootsAreNotes | script.js:130-133 | every collected root is a note name |
| KeySuggestion.NoRootsIff | script.js:130-135 | a line yields no root exactly when the root expression matches nowhere on it |
| KeySuggestion.RootsStep | script.js:131-134 | one turn of the root loop: the root has a known value, so the filter keeps it, and moving it to the output keeps the result |
| KeySuggestion.ScanRoots | script.js:130-135 | the `exec` loop collects exactly the roots of the leftmost scan of the line |
| KeySuggestion.NoDocRootsIff | script.js:127-137 | the sheet has no root exactly when no line yields one |
| KeySuggestion.DocRootsStep | script.js:128-137 | the roots of a sheet are empty exactly when those of all but its last line and of its last line are |
| KeySuggestion.AllLinesStep | script.js:128-137 | no line yields a root exactly when none but the last does and the last does not |
| KeySuggestion.DocRootsAreNotes | script.js:127-137 | every root of the sheet is a note name |
| KeySuggestion.TallyCounts | script.js:139-140 | `counts` has a key exactly for each pitch class that occurs, holds its number of occurrences, and has keys only in 0..11 |
| KeySuggestion.TallyRoots | script.js:139-140 | the `forEach` builds exactly that tally |
| KeySuggestion.Tally | script.js:139-140 | the `counts` object built root by root; stated by KeySuggestion.TallyCounts |
| KeySuggestion.IsMostFrequent | script.js:141-142 | the pitch class the strict-`>` ascending pick selects: the highest count, ties to the lowest; stated by KeySuggestion.MostFrequentUnique and KeySuggestion.PickMostFrequent |
| KeySuggestion.MostFrequentUnique | script.js:141-142 | at most one pitch class is the most frequent with ties going to the lowest |
| KeySuggestion.PickMostFrequent | script.js:141-143 | the ascending strict-`>` pick returns nothing only on an empty tally; otherwise a key with the highest count and a count strictly above every lower key |
| KeySuggestion.LineRootsOf | script.js:129-136 | a line is scanned only when it is a chord line or has a bracket span |
| KeySuggestion.CollectRoots | script.js:127-137 | the loop over lines collects the roots of every line in order |
| KeySuggestion.DetectKeySuggestion | script.js:126-145 | the result is null exactly when the sheet has no root; otherwise it is the selected table's spelling of the most frequent pitch class, ties going to the lowest |
| KeySuggestion.TallyShape | script.js:138-140 | a sheet with roots has a non-empty tally of positive counts of pitch classes, so `best === null` cannot happen |
| KeySuggestion.NameOfPitchClass | script.js:144 | the suggested name is canonical for the table and names the chosen pitch class |
| KeySuggestion.CountPositive | script.js:140 | a root counts for its own pitch class |
| KeySuggestion.MostFrequentFromTally | script.js:141-142 | a key picked as maximal on the tally is the most frequent pitch class of the roots |
| KeySuggestion.LineNoRootsIff | script.js:129-135 | a line yields no root exactly when it is not a candidate or the root expression matches nowhere on it |
| KeySuggestion.NoLineRootsIsRootFree | script.js:128-136 | no line yields a root exactly when no candidate line holds a root match |
| KeySuggestion.NoKeyIff | script.js:126-138 | there is no suggestion exactly when the root expression matches nowhere on any candidate line |

## Left out

- The DOM layer is not modelled: element lookups, dropdown population, event handlers, `innerHTML` and `dataset` writes, and the timed button-label resets (script.js:19-46, 147-229). It is user interface and I/O.
- The globals `useFlats` and `semitoneShift` (script.js:31-32) are parameters `preferFlats` and `shift` of the operations that read them.
- The key interval is lifted out of the two change handlers (script.js:151, 173) as `Pitch.KeyInterval`. Reading the dropdowns and writing the number input stay out.
- The floating-point test `chordCount/words.length >= 0.6` (script.js:94) becomes the integer test `5 * chordCount >= 3 * words`. A quotient that differs from 3/5 differs by at least 1/(5 * words), which is far more than the rounding error of a double at any realistic word count.
- Integers are unbounded. JavaScript numbers are doubles, and a shift beyond 2^53 would lose precision; the engine never sees such values.
- Strings are sequences of characters. UTF-16 surrogate pairs, and lookups of `NOTE_TO_VALUE` by inherited object keys such as `"constructor"`, are not modelled: only the 21 own keys count.
- The zero-width `lastIndex++` guards (script.js:82, 134) never fire, because every match has length at least one, so both scans just continue from the end of the last match.
- The unknown-note branches (script.js:63, 68, 133) are modelled as written. The lemmas show that tokens coming from the parsers always have known notes.
- Chord.TransposeChordRoundTrip: the round trip is proved only for tokens whose roots and bass are spelled with the selected table and whose suffix does not start with `#` or `b`. A suffix starting with `b` is read as an accidental once a natural root precedes it (Chord.RoundTripNeedsPlainSuffix). A differently spelled root is re-spelled (Chord.ZeroShiftRespells).
- Preview.ZeroShiftKeepsLine: shift 0 is proved to keep a line when the line is passed through or when every chord located on it is spelled with the selected table. These conditions are sufficient, not necessary. A candidate line with a chord spelled the other way is re-spelled (Chord.ZeroShiftRespells).
- The sheet-level round trip is not proved: transposing a sheet by `shift` and then by a cancelling `back` need not restore it. It fails when a located chord is followed by `#` or `b` in the gap text. `C#b5` is located as the root `C#` with the gap `b5`. It goes up to `Db5`, which is located as `Db` and comes back as `C5` (SheetRoundTrip.SheetRoundTripFails). Only the single-token round trip, Chord.TransposeChordRoundTrip, is proved.
