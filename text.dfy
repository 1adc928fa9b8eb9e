/**
 * Character classes and the two string splittings the engine relies on:
 * `text.split('\n')` / `join('\n')`, and `line.trim().split(/\s+/).filter(Boolean)`.
 */
module Text {

  /** JavaScript's `\s`, which is also the set that `trim` removes. */
  predicate IsJsSpace(c: char) {
    c == ' ' || c == '\t' || c == '\n' || c == '\r' || c == '\U{000B}' || c == '\U{000C}'
    || c == '\U{00A0}' || c == '\U{1680}' || ('\U{2000}' <= c <= '\U{200A}')
    || c == '\U{2028}' || c == '\U{2029}' || c == '\U{202F}' || c == '\U{205F}'
    || c == '\U{3000}' || c == '\U{FEFF}'
  }

  /** The characters that JavaScript's `.` does not match. */
  predicate IsLineTerminator(c: char) {
    c == '\n' || c == '\r' || c == '\U{2028}' || c == '\U{2029}'
  }

  predicate IsOpenBracket(c: char) { c == '(' || c == '[' || c == '{' }

  predicate IsCloseBracket(c: char) { c == ')' || c == ']' || c == '}' }

  /**
   * `s.slice(lo, hi)` for non-negative bounds: both are clamped to the
   * length, and the result is empty unless the clamped lo is below the clamped hi.
   */
  function Slice(s: string, lo: nat, hi: nat): (r: string)
    ensures lo <= hi <= |s| ==> r == s[lo..hi]
    ensures hi <= lo ==> r == []
  {
    var a := if lo < |s| then lo else |s|;
    var b := if hi < |s| then hi else |s|;
    if a < b then s[a..b] else []
  }

  /** Every character of a slice is a character of the string. */
  lemma SliceChars(s: string, lo: nat, hi: nat)
    ensures forall x :: x in Slice(s, lo, hi) ==> x in s
  {
    forall x | x in Slice(s, lo, hi)
      ensures x in s
    {
      var a := if lo < |s| then lo else |s|;
      var j :| a <= j < |s| && s[j] == x;
    }
  }

  /** Concatenation regroups freely. */
  lemma Assoc<T>(a: seq<T>, b: seq<T>, c: seq<T>)
    ensures a + b + c == a + (b + c)
  {
  }

  /** A sequence is its prefix up to i followed by the rest. */
  lemma SplitAt<T>(s: seq<T>, i: nat)
    requires i <= |s|
    ensures s[..i] + s[i..] == s
  {
  }

  /** Extending the prefix of length i by element i gives the prefix of length i + 1. */
  lemma TakeStep<T>(s: seq<T>, i: nat)
    requires i < |s|
    ensures s[..i] + [s[i]] == s[..i + 1]
  {
  }

  /** The prefix of full length is the whole sequence. */
  lemma TakeAll<T>(s: seq<T>)
    ensures s[..|s|] == s
  {
  }

  /** A sequence cut at i and at j around the element at j. */
  lemma SplitAround<T>(s: seq<T>, i: nat, j: nat)
    requires i <= j < |s|
    ensures s[..i] + s[i..j] + [s[j]] + s[j + 1..] == s
  {
    assert s[..i] + s[i..j] == s[..j];
    assert [s[j]] + s[j + 1..] == s[j..];
    Assoc(s[..j], [s[j]], s[j + 1..]);
    SplitAt(s, j);
  }

  /** `lines.join('\n')`. */
  function JoinLines(ls: seq<string>): string
  {
    if |ls| == 0 then "" else if |ls| == 1 then ls[0] else ls[0] + "\n" + JoinLines(ls[1..])
  }

  /** `s.split('\n')`: never empty, no piece holds a newline, and joining the pieces gives `s` back. */
  function SplitLines(s: string): (ls: seq<string>)
    ensures |ls| >= 1
    ensures forall k :: 0 <= k < |ls| ==> '\n' !in ls[k]
    ensures JoinLines(ls) == s
  {
    if s == [] then [""]
    else
      var rest := SplitLines(s[1..]);
      if s[0] == '\n' then
        assert s == "\n" + s[1..];
        [""] + rest
      else
        assert s == [s[0]] + s[1..];
        [[s[0]] + rest[0]] + rest[1..]
  }

  /** Splitting a join of newline-free lines gives back exactly those lines. */
  lemma {:induction false} SplitJoinLines(ls: seq<string>)
    requires |ls| >= 1
    requires forall k :: 0 <= k < |ls| ==> '\n' !in ls[k]
    ensures SplitLines(JoinLines(ls)) == ls
  {
    if |ls| == 1 {
      SplitNoNewline(ls[0]);
    } else {
      SplitJoinLines(ls[1..]);
      SplitPrefix(ls[0], JoinLines(ls[1..]));
    }
  }

  lemma {:induction false} SplitNoNewline(s: string)
    requires '\n' !in s
    ensures SplitLines(s) == [s]
  {
    if s != [] {
      SplitNoNewline(s[1..]);
      assert s == [s[0]] + s[1..];
    }
  }

  lemma {:induction false} SplitPrefix(w: string, rest: string)
    requires '\n' !in w
    ensures SplitLines(w + "\n" + rest) == [w] + SplitLines(rest)
  {
    if w == [] {
      assert w + "\n" + rest == "\n" + rest;
      assert ("\n" + rest)[1..] == rest;
    } else {
      assert (w + "\n" + rest)[1..] == w[1..] + "\n" + rest;
      SplitPrefix(w[1..], rest);
      assert [w[0]] + w[1..] == w;
    }
  }

  /** A word of `split(/\s+/)`: non-empty and free of whitespace. */
  predicate IsWord(w: string) {
    |w| > 0 && forall i :: 0 <= i < |w| ==> !IsJsSpace(w[i])
  }

  /** Length of the whitespace-free run that starts `s`. */
  function WordLength(s: string): (n: nat)
    requires s != [] && !IsJsSpace(s[0])
    ensures 1 <= n <= |s|
    ensures forall i :: 0 <= i < n ==> !IsJsSpace(s[i])
    ensures n < |s| ==> IsJsSpace(s[n])
  {
    if |s| == 1 || IsJsSpace(s[1]) then 1 else 1 + WordLength(s[1..])
  }

  /** The non-empty, whitespace-free pieces of a line, in order. */
  function Words(s: string): (ws: seq<string>)
    ensures forall k :: 0 <= k < |ws| ==> IsWord(ws[k])
    decreases |s|
  {
    if s == [] then []
    else if IsJsSpace(s[0]) then Words(s[1..])
    else
      var n := WordLength(s);
      [s[..n]] + Words(s[n..])
  }

  /** A blank line (empty or whitespace only) has no words. */
  lemma {:induction false} BlankHasNoWords(s: string)
    requires forall i :: 0 <= i < |s| ==> IsJsSpace(s[i])
    ensures Words(s) == []
  {
    if s != [] {
      BlankHasNoWords(s[1..]);
    }
  }

  /** Words joined by single spaces. */
  function JoinWords(ws: seq<string>): string
  {
    if |ws| == 0 then "" else if |ws| == 1 then ws[0] else ws[0] + " " + JoinWords(ws[1..])
  }

  /** Splitting a space-joined list of words recovers the list. */
  lemma {:induction false} WordsOfJoined(ws: seq<string>)
    requires forall k :: 0 <= k < |ws| ==> IsWord(ws[k])
    ensures Words(JoinWords(ws)) == ws
  {
    if |ws| == 1 {
      var w := ws[0];
      assert WordLength(w) == |w|;
      assert w[..|w|] == w && w[|w|..] == [];
    } else if |ws| > 1 {
      var w, rest := ws[0], JoinWords(ws[1..]);
      var s := w + " " + rest;
      assert s[0] == w[0];
      assert forall i :: 0 <= i < |w| ==> s[i] == w[i];
      assert s[|w|] == ' ';
      assert WordLength(s) == |w|;
      assert s[..|w|] == w;
      assert s[|w|..] == " " + rest;
      assert (" " + rest)[1..] == rest;
      WordsOfJoined(ws[1..]);
    }
  }

  /**
   * The text with whitespace dropped at both ends and each inner run of
   * whitespace written as one space. `started`: a character has been kept;
   * `pending`: whitespace has been seen since the last kept character.
   */
  function CollapseFrom(s: string, started: bool, pending: bool): string
    decreases |s|
  {
    if s == [] then ""
    else if IsJsSpace(s[0]) then CollapseFrom(s[1..], started, started)
    else (if pending then " " else "") + [s[0]] + CollapseFrom(s[1..], true, false)
  }

  function Collapse(s: string): string {
    CollapseFrom(s, false, false)
  }

  /** The words after a kept character and whitespace: nothing, or a space and the joined words. */
  function Separated(ws: seq<string>): string {
    if ws == [] then "" else " " + JoinWords(ws)
  }

  lemma JoinCons(w: string, ws: seq<string>)
    ensures JoinWords([w] + ws) == w + Separated(ws)
  {
    assert ([w] + ws)[1..] == ws;
  }

  /** Collapsing copies a whitespace-free run of j characters as it is. */
  lemma {:induction false} CollapseRun(s: string, started: bool, pending: bool, j: nat)
    requires 0 < j <= |s| && forall i :: 0 <= i < j ==> !IsJsSpace(s[i])
    ensures CollapseFrom(s, started, pending) == (if pending then " " else "") + s[..j] + CollapseFrom(s[j..], true, false)
    decreases j
  {
    if j > 1 {
      CollapseRun(s[1..], true, false, j - 1);
      assert s[1..][..j - 1] == s[1..j] && s[1..][j - 1..] == s[j..];
      assert [s[0]] + s[1..j] == s[..j];
    } else {
      assert s[..1] == [s[0]];
    }
  }

  lemma {:induction false} CollapseFromWords(s: string, started: bool, pending: bool)
    requires pending ==> started
    requires started && !pending ==> s == [] || IsJsSpace(s[0])
    ensures CollapseFrom(s, started, pending) == if started then Separated(Words(s)) else JoinWords(Words(s))
    decreases |s|
  {
    if s == [] {
    } else if IsJsSpace(s[0]) {
      assert Words(s) == Words(s[1..]);
      CollapseFromWords(s[1..], started, started);
    } else {
      var n := WordLength(s);
      CollapseFromWords(s[n..], true, false);
      CollapseWordStep(s, started, pending, n);
    }
  }

  /** A word at the front of the text: it is written out, after a space when whitespace came before it. */
  lemma CollapseWordStep(s: string, started: bool, pending: bool, n: nat)
    requires pending ==> started
    requires s != [] && !IsJsSpace(s[0]) && n == WordLength(s)
    requires CollapseFrom(s[n..], true, false) == Separated(Words(s[n..]))
    ensures CollapseFrom(s, started, pending) == if pending then Separated(Words(s)) else JoinWords(Words(s))
  {
    var w, rest := s[..n], Words(s[n..]);
    assert Words(s) == [w] + rest;
    CollapseRun(s, started, pending, n);
    JoinCons(w, rest);
  }

  /** The words, joined by single spaces, are the text with its whitespace trimmed and each inner run collapsed to one space. */
  lemma WordsCollapse(s: string)
    ensures JoinWords(Words(s)) == Collapse(s)
  {
    CollapseFromWords(s, false, false);
  }
}
