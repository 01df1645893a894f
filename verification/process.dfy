/**
 * `execute_program` (both shells): fork, exec in the child, wait in the
 * parent, and translate the kernel's wait status into a shell status.
 *
 * The kernel is an oracle: what happened to the child arrives as a `Spawn`
 * value. The translation is given twice, once on the `Wait` datatype and
 * once on the raw 16-bit status word through the `<sys/wait.h>` macros, and
 * the two are proved to agree.
 */
module Process {
  import opened Wrappers
  import opened Streams

  /** How a waited-for child ended (or changed state). */
  datatype Wait =
    | Exited(code: int)
    | Signaled(signal: int, coreDumped: bool)
    | Stopped(signal: int)
    | Continued

  /** The values the kernel can report: an 8-bit exit code, a 7-bit signal number other than 0 and 127. */
  predicate WellFormed(w: Wait)
  {
    match w
    case Exited(c) => 0 <= c < 256
    case Signaled(n, _) => 1 <= n <= 126
    case Stopped(n) => 0 <= n < 256
    case Continued => true
  }

  /** The shell status of a wait outcome: the exit code, 128 + signal, or 1. */
  function Translate(w: Wait): int
  {
    match w
    case Exited(c) => c
    case Signaled(n, _) => 128 + n
    case _ => 1
  }

  /** The status word as Linux lays it out. */
  function Encode(w: Wait): (raw: int)
    requires WellFormed(w)
    ensures 0 <= raw < 0x1_0000
  {
    match w
    case Exited(c) => c * 256
    case Signaled(n, core) => n + (if core then 0x80 else 0)
    case Stopped(n) => n * 256 + 0x7f
    case Continued => 0xffff
  }

  /** Reading a status word back into a `Wait`, in the order the macros test it. */
  function Decode(raw: int): Wait
    requires 0 <= raw < 0x1_0000
  {
    var low := raw % 0x80;
    if low == 0 then Exited(raw / 256 % 256)
    else if low != 0x7f then Signaled(low, raw % 256 >= 0x80)
    else if raw % 256 == 0x7f then Stopped(raw / 256 % 256)
    else Continued
  }

  /** C's `(signed char)` conversion of a value in 0..255. */
  function SignedChar(x: int): int
    requires 0 <= x < 256
  {
    if x < 128 then x else x - 256
  }

  predicate WIfExited(raw: int) { raw % 0x80 == 0 }
  function WExitStatus(raw: int): int requires 0 <= raw { raw / 256 % 256 }
  predicate WIfSignaled(raw: int) requires 0 <= raw { SignedChar(raw % 0x80 + 1) / 2 > 0 }
  function WTermSig(raw: int): int requires 0 <= raw { raw % 0x80 }

  /** The parent's translation exactly as the source spells it with the macros. */
  function TranslateRaw(raw: int): int
    requires 0 <= raw < 0x1_0000
  {
    if WIfExited(raw) then WExitStatus(raw)
    else if WIfSignaled(raw) then 128 + WTermSig(raw)
    else 1
  }

  /** Round trip: decoding an encoded outcome gives it back. */
  lemma DecodeEncode(w: Wait)
    requires WellFormed(w)
    ensures Decode(Encode(w)) == w
  {
  }

  /** The macro cascade computes the same status as translating the decoded outcome. */
  lemma TranslateRawAgrees(raw: int)
    requires 0 <= raw < 0x1_0000
    ensures TranslateRaw(raw) == Translate(Decode(raw))
    ensures WellFormed(Decode(raw))
  {
    var low := raw % 0x80;
    if low != 0 {
      assert WIfSignaled(raw) <==> low != 0x7f;
    }
  }

  /** A translated status always fits an exit code; above 128 it may come from a signal, 128 and below never does. */
  lemma TranslateRange(w: Wait)
    requires WellFormed(w)
    ensures 0 <= Translate(w) < 256
    ensures w.Signaled? ==> 129 <= Translate(w) <= 254
    ensures Translate(w) <= 128 ==> w.Exited? || Translate(w) == 1
  {
  }

  /** What happens in the child after `fork`. */
  datatype Child =
    | Ran(output: Output, wait: Wait)  // `execvp` found the program; it printed `output` and ended as `wait`
    | ExecFailed                       // `execvp` returned

  /** The oracle's answer to one `fork` + `waitpid`; the strings are `strerror` texts. */
  datatype Spawn =
    | ForkFailed(reason: string)
    | Forked(child: Child, waitError: Option<string>)

  predicate WellFormedSpawn(s: Spawn)
  {
    s.Forked? && s.child.Ran? ==> WellFormed(s.child.wait)
  }

  /** The child side: a program that cannot be run reports it and exits with 127. */
  function ChildEnd(child: Child, name: string): (Output, Wait)
  {
    match child
    case Ran(o, w) => (o, w)
    case ExecFailed => (Stderr(name + ": command not found\n"), Exited(127))
  }

  /** `execute_program`: the status the shell records for running `name`. */
  function ExecuteProgram(spawn: Spawn, name: string): (r: Reply)
    ensures spawn.ForkFailed? ==> r.status == 1 && r.output == Stderr("fork: " + spawn.reason + "\n")
    ensures spawn.Forked? && spawn.waitError.Some? ==> r.status == 1
    ensures spawn == Forked(ExecFailed, None) ==>
              r.status == 127 && r.output == Stderr(name + ": command not found\n")
    ensures spawn.Forked? && spawn.child.Ran? && spawn.waitError.None? && WellFormed(spawn.child.wait) ==>
              r.status == TranslateRaw(Encode(spawn.child.wait)) && r.output == spawn.child.output
    ensures WellFormedSpawn(spawn) ==> 0 <= r.status < 256
  {
    match spawn
    case ForkFailed(reason) => Reply(1, Stderr("fork: " + reason + "\n"))
    case Forked(child, waitError) =>
      var (o, w) := ChildEnd(child, name);
      match waitError
      case Some(reason) => Reply(1, o.Then(Stderr("waitpid: " + reason + "\n")))
      case None =>
        assert WellFormed(w) ==> Translate(w) == TranslateRaw(Encode(w)) by {
          if WellFormed(w) {
            TranslateRawAgrees(Encode(w));
            DecodeEncode(w);
          }
        }
        Reply(Translate(w), o)
  }
}
