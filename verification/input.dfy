/**
 * `read_input` (both shells): standard input is consumed one `fgets` chunk
 * at a time, and the chunk loses exactly one trailing newline.
 */
module LineInput {
  import opened Text

  /** A chunk `fgets` can return: non-empty, and a newline can only be its last character. */
  predicate IsChunk(c: string)
  {
    |c| > 0 && forall i :: 0 <= i < |c| - 1 ==> c[i] != '\n'
  }

  predicate EndsInNewline(c: string)
  {
    |c| > 0 && c[|c| - 1] == '\n'
  }

  /** Length of the first chunk of `s`: up to and including the first newline, or all of `s`. */
  function ChunkLength(s: string): (n: nat)
    requires |s| > 0
    ensures 0 < n <= |s|
    ensures forall i :: 0 <= i < n - 1 ==> s[i] != '\n'
    ensures n < |s| ==> s[n - 1] == '\n'
  {
    if s[0] == '\n' || |s| == 1 then 1 else 1 + ChunkLength(s[1..])
  }

  /**
   * The successive results of `fgets` on the whole input (ignoring the
   * buffer size): they add up to the input, each is a chunk, and every
   * chunk but the last ends in a newline.
   */
  function Chunks(input: string): (cs: seq<string>)
    ensures Flatten(cs) == input
    ensures forall i :: 0 <= i < |cs| ==> IsChunk(cs[i])
    ensures forall i :: 0 <= i < |cs| - 1 ==> EndsInNewline(cs[i])
    decreases |input|
  {
    if input == [] then []
    else
      var n := ChunkLength(input);
      var rest := Chunks(input[n..]);
      FirstChunk(input, n, rest);
      [input[..n]] + rest
  }

  /** The first chunk in front of the chunks of the remainder keeps all three properties of `Chunks`. */
  lemma FirstChunk(input: string, n: nat, rest: seq<string>)
    requires |input| > 0 && n == ChunkLength(input)
    requires Flatten(rest) == input[n..]
    requires forall i :: 0 <= i < |rest| ==> IsChunk(rest[i])
    requires forall i :: 0 <= i < |rest| - 1 ==> EndsInNewline(rest[i])
    ensures Flatten([input[..n]] + rest) == input
    ensures forall i :: 0 <= i < |[input[..n]] + rest| ==> IsChunk(([input[..n]] + rest)[i])
    ensures forall i :: 0 <= i < |[input[..n]] + rest| - 1 ==> EndsInNewline(([input[..n]] + rest)[i])
  {
    var first := input[..n];
    FlattenCons(first, rest);
    assert first + input[n..] == input;
    assert IsChunk(first);
    assert rest != [] ==> EndsInNewline(first) by {
      if rest != [] {
        assert n < |input|;
      }
    }
  }

  /** The line a chunk hands to the shell: the chunk without its final newline, if any. */
  function StripNewline(chunk: string): (line: string)
    ensures IsChunk(chunk) ==> '\n' !in line
    ensures EndsInNewline(chunk) ==> line + "\n" == chunk
    ensures !EndsInNewline(chunk) ==> line == chunk
  {
    if |chunk| > 0 && chunk[|chunk| - 1] == '\n' then chunk[..|chunk| - 1] else chunk
  }

  /** The text a user types: each line followed by a newline. */
  function Typed(lines: seq<string>): string
  {
    if lines == [] then [] else lines[0] + "\n" + Typed(lines[1..])
  }

  function StripAll(cs: seq<string>): (ls: seq<string>)
    ensures |ls| == |cs|
    ensures forall i :: 0 <= i < |cs| ==> ls[i] == StripNewline(cs[i])
  {
    if cs == [] then [] else [StripNewline(cs[0])] + StripAll(cs[1..])
  }

  lemma ChunkLengthOfLine(l: string, rest: string)
    requires '\n' !in l
    ensures ChunkLength(l + "\n" + rest) == |l| + 1
  {
    var s := l + "\n" + rest;
    var n := ChunkLength(s);
    assert s[|l|] == '\n';
    assert forall i :: 0 <= i < |l| ==> s[i] == l[i];
  }

  /** Each typed line followed by its newline. */
  function Terminated(lines: seq<string>): (cs: seq<string>)
    ensures |cs| == |lines|
    ensures forall i :: 0 <= i < |lines| ==> cs[i] == lines[i] + "\n"
  {
    if lines == [] then [] else [lines[0] + "\n"] + Terminated(lines[1..])
  }

  /** Typed lines free of newlines come back from `fgets` one per call, newline included. */
  lemma {:induction false} ChunksOfTyped(lines: seq<string>)
    requires forall i :: 0 <= i < |lines| ==> '\n' !in lines[i]
    ensures Chunks(Typed(lines)) == Terminated(lines)
    decreases |lines|
  {
    if lines != [] {
      var l := lines[0];
      var rest := Typed(lines[1..]);
      var s := l + "\n" + rest;
      assert Typed(lines) == s;
      ChunkLengthOfLine(l, rest);
      assert s[..|l| + 1] == l + "\n";
      assert s[|l| + 1..] == rest;
      ChunksOfTyped(lines[1..]);
    }
  }

  /** Round trip: reading back typed lines (free of newlines) yields exactly those lines. */
  lemma ReadTypedLines(lines: seq<string>)
    requires forall i :: 0 <= i < |lines| ==> '\n' !in lines[i]
    ensures StripAll(Chunks(Typed(lines))) == lines
  {
    ChunksOfTyped(lines);
    var cs := Terminated(lines);
    forall i | 0 <= i < |lines|
      ensures StripNewline(cs[i]) == lines[i]
    {
      assert cs[i] == lines[i] + "\n";
    }
  }

  /** A last line without a newline is one chunk, handed over unchanged. */
  lemma ChunksOfUnterminated(line: string)
    requires line != [] && '\n' !in line
    ensures Chunks(line) == [line]
    ensures StripNewline(line) == line
  {
    var n := ChunkLength(line);
    assert n == |line|;
    assert line[..n] == line;
    assert line[n..] == [];
  }

  /** A single typed line is one chunk, and reads back as the line itself. */
  lemma OneTypedLine(line: string)
    requires '\n' !in line
    ensures Chunks(Typed([line])) == [line + "\n"]
    ensures StripNewline(line + "\n") == line
  {
    ChunksOfTyped([line]);
    StripTyped(line);
  }

  /** A typed line comes back without its newline. */
  lemma StripTyped(line: string)
    ensures StripNewline(line + "\n") == line
  {
    assert (line + "\n")[..|line|] == line;
  }
}
