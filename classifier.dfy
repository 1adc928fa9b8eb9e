/**
 * Deciding which lines hold chords: the word-ratio test `likelyChordLine`
 * and the bracket test both the preview and the key detection apply.
 */
module LineClassifier {
  import opened Wrappers
  import opened Text
  import opened Chord

  /** Length of the run of opening brackets that starts `w`. */
  function LeadingOpens(w: string): (n: nat)
    ensures n <= |w|
    ensures forall i :: 0 <= i < n ==> IsOpenBracket(w[i])
    ensures n < |w| ==> !IsOpenBracket(w[n])
  {
    if w == [] || !IsOpenBracket(w[0]) then 0 else 1 + LeadingOpens(w[1..])
  }

  /** Length of the run of closing brackets that ends `w`. */
  function TrailingCloses(w: string): (n: nat)
    ensures n <= |w|
    ensures forall i :: |w| - n <= i < |w| ==> IsCloseBracket(w[i])
    ensures n < |w| ==> !IsCloseBracket(w[|w| - n - 1])
  {
    if w == [] || !IsCloseBracket(w[|w| - 1]) then 0 else 1 + TrailingCloses(w[..|w| - 1])
  }

  /** The word with its leading `([{` run and its trailing `)]}` run removed. */
  function StripBrackets(w: string): string
  {
    var a := w[LeadingOpens(w)..];
    a[..|a| - TrailingCloses(a)]
  }

  /** Stripping removes exactly the bracket runs a word was wrapped in. */
  lemma StripWrapped(o: string, t: string, c: string)
    requires forall i :: 0 <= i < |o| ==> IsOpenBracket(o[i])
    requires forall i :: 0 <= i < |c| ==> IsCloseBracket(c[i])
    requires t != [] ==> !IsOpenBracket(t[0]) && !IsCloseBracket(t[|t| - 1])
    ensures StripBrackets(o + t + c) == t
  {
    var w := o + t + c;
    LeadingOpensOf(o, t + c);
    assert w == o + (t + c);
    var a := w[LeadingOpens(w)..];
    assert a == t + c;
    TrailingClosesOf(t, c);
  }

  lemma {:induction false} LeadingOpensOf(o: string, rest: string)
    requires forall i :: 0 <= i < |o| ==> IsOpenBracket(o[i])
    requires rest == [] || !IsOpenBracket(rest[0])
    ensures LeadingOpens(o + rest) == |o|
  {
    if o != [] {
      assert (o + rest)[1..] == o[1..] + rest;
      LeadingOpensOf(o[1..], rest);
    } else {
      assert o + rest == rest;
    }
  }

  lemma {:induction false} TrailingClosesOf(t: string, c: string)
    requires forall i :: 0 <= i < |c| ==> IsCloseBracket(c[i])
    requires t == [] || !IsCloseBracket(t[|t| - 1])
    ensures TrailingCloses(t + c) == |c|
  {
    if c != [] {
      var w := t + c;
      assert w[..|w| - 1] == t + c[..|c| - 1];
      TrailingClosesOf(t, c[..|c| - 1]);
    } else {
      assert t + c == t;
    }
  }

  /** A word counts as a chord when its bracket-stripped form parses. */
  predicate IsChordWord(w: string) {
    ParseChordToken(StripBrackets(w)).Some?
  }

  /** How many of the words are chord words. */
  function CountChordWords(ws: seq<string>): (n: nat)
    ensures n <= |ws|
  {
    if ws == [] then 0
    else CountChordWords(ws[..|ws| - 1]) + (if IsChordWord(ws[|ws| - 1]) then 1 else 0)
  }

  /**
   * `likelyChordLine`, as a predicate: the line has words and at least 60%
   * of them are chords (`chordCount / words >= 0.6`, cleared of the division).
   */
  predicate IsChordLine(line: string) {
    var ws := Words(line);
    |ws| > 0 && 5 * CountChordWords(ws) >= 3 * |ws|
  }

  /** `likelyChordLine`: counts the chord words one by one. */
  method LikelyChordLine(line: string) returns (likely: bool)
    ensures likely == IsChordLine(line)
  {
    var words := Words(line);
    if |words| == 0 {
      return false;
    }
    var chordCount := 0;
    for i := 0 to |words|
      invariant chordCount == CountChordWords(words[..i])
    {
      var tok := StripBrackets(words[i]);
      if ParseChordToken(tok).Some? {
        chordCount := chordCount + 1;
      }
      assert words[..i + 1][..i] == words[..i];
    }
    assert words[..|words|] == words;
    likely := 5 * chordCount >= 3 * |words|;
  }

  /** A line that is one chord, with no bracket at either end, is a chord line. */
  lemma SingleChordLine(w: string)
    requires IsWord(w) && !IsOpenBracket(w[0]) && !IsCloseBracket(w[|w| - 1])
    requires ParseChordToken(w).Some?
    ensures IsChordLine(w)
  {
    assert JoinWords([w]) == w;
    WordsOfJoined([w]);
    assert StripBrackets(w) == w by {
      StripWrapped("", w, "");
      assert "" + w + "" == w;
    }
    assert [w][..0] == [];
    assert CountChordWords([w]) == 1;
  }

  /** A blank line is never a chord line. */
  lemma BlankIsNotChordLine(line: string)
    requires forall i :: 0 <= i < |line| ==> IsJsSpace(line[i])
    ensures !IsChordLine(line)
  {
    BlankHasNoWords(line);
  }

  /** When every word is a chord, all of them are counted. */
  lemma {:induction false} CountAllChordWords(ws: seq<string>)
    requires forall k :: 0 <= k < |ws| ==> IsChordWord(ws[k])
    ensures CountChordWords(ws) == |ws|
  {
    if ws != [] {
      CountAllChordWords(ws[..|ws| - 1]);
    }
  }

  /** When no word is a chord, none is counted. */
  lemma {:induction false} CountNoChordWords(ws: seq<string>)
    requires forall k :: 0 <= k < |ws| ==> !IsChordWord(ws[k])
    ensures CountChordWords(ws) == 0
  {
    if ws != [] {
      CountNoChordWords(ws[..|ws| - 1]);
    }
  }

  /** A line of chords only is a chord line; a line with words but no chord is not. */
  lemma ChordLineExtremes(line: string)
    ensures Words(line) != [] && (forall k :: 0 <= k < |Words(line)| ==> IsChordWord(Words(line)[k]))
      ==> IsChordLine(line)
    ensures (forall k :: 0 <= k < |Words(line)| ==> !IsChordWord(Words(line)[k])) ==> !IsChordLine(line)
  {
    var ws := Words(line);
    if forall k :: 0 <= k < |ws| ==> IsChordWord(ws[k]) {
      CountAllChordWords(ws);
    }
    if forall k :: 0 <= k < |ws| ==> !IsChordWord(ws[k]) {
      CountNoChordWords(ws);
    }
  }

  /** Nothing but line terminators is excluded by the regular expression's `.`. */
  predicate NoBreak(line: string, lo: nat, hi: nat)
    requires lo <= hi <= |line|
  {
    forall k :: lo <= k < hi ==> !IsLineTerminator(line[k])
  }

  /** An opening bracket at i closed at j, with no line terminator between. */
  predicate BracketSpan(line: string, i: nat, j: nat)
    requires i < j < |line|
  {
    IsOpenBracket(line[i]) && IsCloseBracket(line[j]) && NoBreak(line, i + 1, j)
  }

  /** Whether the line contains a bracket pair, as `/[\(\[\{].*?[\)\]\}]/` sees it. */
  ghost predicate HasBracketPair(line: string) {
    exists i: nat, j: nat :: i < j < |line| && BracketSpan(line, i, j)
  }

  /** From position k, a closing bracket comes before any line terminator. */
  function CloseBeforeBreak(line: string, k: nat): bool
    decreases |line| - k
  {
    if k >= |line| then false
    else if IsCloseBracket(line[k]) then true
    else if IsLineTerminator(line[k]) then false
    else CloseBeforeBreak(line, k + 1)
  }

  /** The regular expression's scan: an opening bracket at or after i that is closed in time. */
  function BracketSpanFrom(line: string, i: nat): bool
    decreases |line| - i
  {
    if i >= |line| then false
    else if IsOpenBracket(line[i]) && CloseBeforeBreak(line, i + 1) then true
    else BracketSpanFrom(line, i + 1)
  }

  /** The bracket test of the preview and the key detection. */
  function HasBracketSpan(line: string): bool
  {
    BracketSpanFrom(line, 0)
  }

  lemma {:induction false} CloseBeforeBreakSpec(line: string, k: nat)
    requires k <= |line|
    ensures CloseBeforeBreak(line, k) <==>
      exists j: nat :: k <= j < |line| && IsCloseBracket(line[j]) && NoBreak(line, k, j)
    decreases |line| - k
  {
    if k < |line| && !IsCloseBracket(line[k]) && !IsLineTerminator(line[k]) {
      CloseBeforeBreakSpec(line, k + 1);
      if CloseBeforeBreak(line, k + 1) {
        var j: nat :| k + 1 <= j < |line| && IsCloseBracket(line[j]) && NoBreak(line, k + 1, j);
        assert NoBreak(line, k, j);
      }
      if exists j: nat :: k <= j < |line| && IsCloseBracket(line[j]) && NoBreak(line, k, j) {
        var j: nat :| k <= j < |line| && IsCloseBracket(line[j]) && NoBreak(line, k, j);
        assert NoBreak(line, k + 1, j);
      }
    } else if k < |line| && IsCloseBracket(line[k]) {
      assert NoBreak(line, k, k);
    } else if k < |line| {
      forall j: nat | k <= j < |line| && IsCloseBracket(line[j])
        ensures !NoBreak(line, k, j)
      {
        assert j != k;
      }
    }
  }

  lemma {:induction false} BracketSpanFromSpec(line: string, i: nat)
    requires i <= |line|
    ensures BracketSpanFrom(line, i) <==>
      exists a: nat, j: nat :: i <= a < j < |line| && BracketSpan(line, a, j)
    decreases |line| - i
  {
    if i < |line| {
      CloseBeforeBreakSpec(line, i + 1);
      BracketSpanFromSpec(line, i + 1);
      if exists a: nat, j: nat :: i <= a < j < |line| && BracketSpan(line, a, j) {
        var a: nat, j: nat :| i <= a < j < |line| && BracketSpan(line, a, j);
        if a == i {
          assert IsCloseBracket(line[j]) && NoBreak(line, i + 1, j);
        } else {
          assert i + 1 <= a;
        }
      }
      if IsOpenBracket(line[i]) && CloseBeforeBreak(line, i + 1) {
        var j: nat :| i + 1 <= j < |line| && IsCloseBracket(line[j]) && NoBreak(line, i + 1, j);
        assert BracketSpan(line, i, j);
      }
    }
  }

  /** The scanner finds a bracket pair exactly when the line has one. */
  lemma HasBracketSpanSpec(line: string)
    ensures HasBracketSpan(line) <==> HasBracketPair(line)
  {
    BracketSpanFromSpec(line, 0);
  }

  /** A line the preview and the key detection look into for chords. */
  predicate IsCandidate(line: string) {
    IsChordLine(line) || HasBracketSpan(line)
  }
}
