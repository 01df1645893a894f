/**
 * The tokenizer shared by both shells: `strtok(line, " \t")` repeated until
 * it returns NULL or the token array is full.
 *
 * `Words` is the uncapped list of maximal runs of non-separator characters;
 * `Tokenize` is what the shells actually see, at most `MaxTokens - 1` of them
 * (one slot of the array is kept for the terminating NULL).
 */
module Tokenizer {
  import opened Text

  /** Size of the `tokens` array in both shells. */
  const MaxTokens := 1024

  /** The delimiter set passed to `strtok`. */
  predicate IsSeparator(c: char)
  {
    c == ' ' || c == '\t'
  }

  predicate IsBlank(s: string)
  {
    forall i :: 0 <= i < |s| ==> IsSeparator(s[i])
  }

  /** What `strtok` can hand back: a non-empty run free of separators. */
  predicate IsWord(w: string)
  {
    |w| > 0 && forall i :: 0 <= i < |w| ==> !IsSeparator(w[i])
  }

  /** `s` with every separator deleted: the reference the words must add up to. */
  function RemoveSeparators(s: string): string
  {
    if s == [] then []
    else if IsSeparator(s[0]) then RemoveSeparators(s[1..])
    else [s[0]] + RemoveSeparators(s[1..])
  }

  /** Drops the leading run of separators. */
  function SkipSeparators(s: string): (t: string)
    ensures |t| <= |s| && t == s[|s| - |t|..]
    ensures IsBlank(s[..|s| - |t|])
    ensures t == [] || !IsSeparator(t[0])
  {
    if s != [] && IsSeparator(s[0]) then SkipSeparators(s[1..]) else s
  }

  /** Length of the leading run of non-separators. */
  function WordLength(s: string): (n: nat)
    ensures n <= |s|
    ensures forall i :: 0 <= i < n ==> !IsSeparator(s[i])
    ensures n < |s| ==> IsSeparator(s[n])
  {
    if s == [] || IsSeparator(s[0]) then 0 else 1 + WordLength(s[1..])
  }

  /** All maximal runs of non-separators of `s`, in input order. */
  function Words(s: string): (ws: seq<string>)
    ensures forall i :: 0 <= i < |ws| ==> IsWord(ws[i])
    decreases |s|
  {
    var t := SkipSeparators(s);
    if t == [] then []
    else
      var n := WordLength(t);
      var rest := Words(t[n..]);
      FirstWord(t, rest);
      [t[..n]] + rest
  }

  /** The leading run of a line that starts with a non-separator is a word, put in front of the later ones. */
  lemma FirstWord(t: string, rest: seq<string>)
    requires t != [] && !IsSeparator(t[0])
    requires forall i :: 0 <= i < |rest| ==> IsWord(rest[i])
    ensures WordLength(t) > 0
    ensures var ws := [t[..WordLength(t)]] + rest; forall i :: 0 <= i < |ws| ==> IsWord(ws[i])
  {
    var w := t[..WordLength(t)];
    assert IsWord(w);
  }

  /**
   * `tokenize` (both shells): the first `MaxTokens - 1` words of the line;
   * any further words are silently dropped.
   */
  function Tokenize(line: string): (argv: seq<string>)
    ensures |argv| < MaxTokens
    ensures |argv| <= |Words(line)| && argv == Words(line)[..|argv|]
    ensures |Words(line)| < MaxTokens ==> argv == Words(line)
    ensures |Words(line)| >= MaxTokens ==> |argv| == MaxTokens - 1
    ensures forall i :: 0 <= i < |argv| ==> IsWord(argv[i])
  {
    var ws := Words(line);
    if |ws| < MaxTokens then ws else ws[..MaxTokens - 1]
  }

  lemma {:induction false} RemoveSeparatorsConcat(a: string, b: string)
    ensures RemoveSeparators(a + b) == RemoveSeparators(a) + RemoveSeparators(b)
    decreases |a|
  {
    if a == [] {
      assert a + b == b;
    } else {
      assert (a + b)[0] == a[0];
      assert (a + b)[1..] == a[1..] + b;
      RemoveSeparatorsConcat(a[1..], b);
    }
  }

  lemma {:induction false} RemoveSeparatorsOfBlank(s: string)
    ensures IsBlank(s) <==> RemoveSeparators(s) == []
    decreases |s|
  {
    if s != [] {
      RemoveSeparatorsOfBlank(s[1..]);
      if IsBlank(s[1..]) && IsSeparator(s[0]) {
        assert IsBlank(s);
      }
    }
  }

  lemma {:induction false} SkipKeepsNonSeparators(s: string)
    ensures RemoveSeparators(SkipSeparators(s)) == RemoveSeparators(s)
    decreases |s|
  {
    if s != [] && IsSeparator(s[0]) {
      SkipKeepsNonSeparators(s[1..]);
    }
  }

  lemma {:induction false} RemoveSeparatorsAfterRun(t: string, n: nat)
    requires n <= |t|
    requires forall i :: 0 <= i < n ==> !IsSeparator(t[i])
    ensures RemoveSeparators(t) == t[..n] + RemoveSeparators(t[n..])
    decreases n
  {
    if n > 0 {
      assert t[1..][..n - 1] == t[1..n];
      assert t[1..][n - 1..] == t[n..];
      RemoveSeparatorsAfterRun(t[1..], n - 1);
      assert t[..n] == [t[0]] + t[1..n];
    }
  }

  /** The words contain every non-separator character of the line, in order, and nothing else. */
  lemma {:induction false} WordsCoverLine(s: string)
    ensures Flatten(Words(s)) == RemoveSeparators(s)
    decreases |s|
  {
    var t := SkipSeparators(s);
    SkipKeepsNonSeparators(s);
    if t != [] {
      var n := WordLength(t);
      assert Words(s) == [t[..n]] + Words(t[n..]);
      FlattenCons(t[..n], Words(t[n..]));
      RemoveSeparatorsAfterRun(t, n);
      WordsCoverLine(t[n..]);
    }
  }

  /** A line yields no token exactly when it is empty or made of spaces and tabs only. */
  lemma BlankIffNoWords(s: string)
    ensures Words(s) == [] <==> IsBlank(s)
    ensures Tokenize(s) == [] <==> IsBlank(s)
  {
    WordsCoverLine(s);
    RemoveSeparatorsOfBlank(s);
  }

  lemma WordLengthOfRun(a: string, b: string)
    requires forall i :: 0 <= i < |a| ==> !IsSeparator(a[i])
    requires b == [] || IsSeparator(b[0])
    ensures WordLength(a + b) == |a|
  {
    assert forall i :: 0 <= i < |a| ==> (a + b)[i] == a[i];
    assert b != [] ==> (a + b)[|a|] == b[0];
  }

  /** A run of separators in front of a line changes nothing. */
  lemma {:induction false} WordsSkipBlank(b: string, s: string)
    requires IsBlank(b)
    ensures Words(b + s) == Words(s)
    decreases |b|
  {
    if b == [] {
      assert b + s == s;
    } else {
      assert (b + s)[0] == b[0];
      assert (b + s)[1..] == b[1..] + s;
      assert SkipSeparators(b + s) == SkipSeparators(b[1..] + s);
      WordsSkipBlank(b[1..], s);
    }
  }

  lemma WordsOfOne(w: string)
    requires IsWord(w)
    ensures Words(w) == [w]
  {
    assert SkipSeparators(w) == w;
    WordLengthOfRun(w, []);
    assert w + [] == w;
    assert w[..|w|] == w;
    assert Words(w[|w|..]) == [];
  }

  /** A word followed by a non-empty run of separators: the run only ends the word, however long it is. */
  lemma WordThenBlank(w: string, b: string, s: string)
    requires IsWord(w) && IsBlank(b) && b != []
    ensures Words(w + b + s) == [w] + Words(s)
  {
    var t := w + (b + s);
    assert w + b + s == t;
    assert t[0] == w[0];
    assert SkipSeparators(t) == t;
    assert (b + s)[0] == b[0];
    WordLengthOfRun(w, b + s);
    assert t[..|w|] == w;
    assert t[|w|..] == b + s;
    WordsSkipBlank(b, s);
  }

  /** Round trip: tokenizing words joined by single spaces gives the words back. */
  lemma {:induction false} WordsOfJoin(ws: seq<string>)
    requires forall i :: 0 <= i < |ws| ==> IsWord(ws[i])
    ensures Words(JoinSpaces(ws)) == ws
    decreases |ws|
  {
    if |ws| == 1 {
      WordsOfOne(ws[0]);
    } else if |ws| > 1 {
      var w, rest := ws[0], ws[1..];
      assert JoinSpaces(ws) == w + " " + JoinSpaces(rest);
      WordsOfJoin(rest);
      WordThenBlank(w, " ", JoinSpaces(rest));
      HeadTail(ws);
    }
  }
}
