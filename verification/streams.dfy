/**
 * What a command writes: its standard output and its standard error, kept
 * as two separate streams (their interleaving on a shared terminal is not
 * modelled), and the status it hands back to the read loop.
 */
module Streams {

  datatype Output = Output(out: string, err: string) {

    /** This output followed by `next`. */
    function Then(next: Output): Output {
      Output(out + next.out, err + next.err)
    }
  }

  /** Output only ever grows: whatever follows, what was written stays at the front of both streams. */
  lemma ThenExtends(a: Output, b: Output, c: Output)
    ensures a.out <= a.Then(b).out && a.err <= a.Then(b).err
    ensures a.Then(b).Then(c) == a.Then(b.Then(c))
  {
    assert a.out + b.out + c.out == a.out + (b.out + c.out);
    assert a.err + b.err + c.err == a.err + (b.err + c.err);
  }

  const Silent := Output("", "")

  function Stdout(s: string): Output {
    Output(s, "")
  }

  function Stderr(s: string): Output {
    Output("", s)
  }

  /** Output between two writes of the same text to standard output. */
  lemma Framed(p: string, o: Output)
    ensures Stdout(p).Then(o).Then(Stdout(p)) == Output(p + o.out + p, o.err)
  {
    assert "" + o.err + "" == o.err;
  }

  /** Two writes to standard output read as one. */
  lemma StdoutThen(a: string, b: string)
    ensures Stdout(a).Then(Stdout(b)) == Stdout(a + b)
    ensures Stdout(a).Then(Silent) == Stdout(a)
  {
    assert "" + "" == "";
    assert a + "" == a;
  }

  /** A command's status together with what it printed. */
  datatype Reply = Reply(status: int, output: Output)
}
