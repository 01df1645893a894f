/** Small string utilities shared by the tokenizer, the input reader and `echo`. */
module Text {

  /** Concatenation of a sequence of strings, in order. */
  function Flatten(ws: seq<string>): string
  {
    if ws == [] then [] else ws[0] + Flatten(ws[1..])
  }

  /** The strings of `ws` separated by single spaces (no leading or trailing space). */
  function JoinSpaces(ws: seq<string>): string
  {
    if |ws| == 0 then []
    else if |ws| == 1 then ws[0]
    else ws[0] + " " + JoinSpaces(ws[1..])
  }

  /** A string of `n` copies of `c`. */
  function Repeat(c: char, n: nat): (s: string)
    ensures |s| == n
    ensures forall i :: 0 <= i < n ==> s[i] == c
  {
    if n == 0 then [] else [c] + Repeat(c, n - 1)
  }

  lemma FlattenCons(w: string, ws: seq<string>)
    ensures Flatten([w] + ws) == w + Flatten(ws)
  {
    assert ([w] + ws)[1..] == ws;
  }

  /** Appending a string to a non-empty list adds exactly one space and that string at the end. */
  lemma {:induction false} JoinSpacesSnoc(ws: seq<string>, w: string)
    requires |ws| > 0
    ensures JoinSpaces(ws + [w]) == JoinSpaces(ws) + " " + w
    decreases |ws|
  {
    if |ws| == 1 {
      assert ws + [w] == [ws[0], w];
      assert [ws[0], w][1..] == [w];
    } else {
      assert (ws + [w])[1..] == ws[1..] + [w];
      JoinSpacesSnoc(ws[1..], w);
    }
  }

  /** The join holds every character of the strings plus one space between each neighbouring pair. */
  lemma {:induction false} JoinSpacesLength(ws: seq<string>)
    ensures |ws| > 0 ==> |JoinSpaces(ws)| == |Flatten(ws)| + |ws| - 1
    ensures |ws| == 0 ==> JoinSpaces(ws) == []
    decreases |ws|
  {
    if |ws| > 1 {
      JoinSpacesLength(ws[1..]);
    }
  }

  /** A non-empty sequence is its head followed by its tail. */
  lemma HeadTail<T>(s: seq<T>)
    requires |s| > 0
    ensures [s[0]] + s[1..] == s
  {
  }
}
