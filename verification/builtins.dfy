/**
 * The builtins both shells implement the same way: `exit`, `pwd` and `echo`
 * (picoshell.c and nanoshell.c carry identical copies). `cd` differs between
 * the two shells and lives in each shell's module.
 */
module Builtins {
  import opened Wrappers
  import opened Text
  import opened Tokenizer
  import opened Streams
  import opened Numbers
  import opened Oracle

  /** What `exit` prints before the process ends. */
  const Farewell := "Good Bye\n"

  /** `execute_exit`: the process status, `atoi(argv[1])` when an argument is given, else 0. */
  function ExitCode(argv: seq<string>): int
    requires |argv| >= 1
  {
    if |argv| > 1 then Atoi(argv[1]) else 0
  }

  /** `exit` with no argument ends with 0; `exit n` with n written in decimal ends with n; later arguments are ignored. */
  lemma ExitCodeReadsArgument(n: nat, extra: seq<string>)
    ensures ExitCode(["exit"]) == 0
    ensures ExitCode(["exit", Decimal(n)] + extra) == n
    ensures ExitCode(["exit", "-" + Decimal(n)] + extra) == 0 - n
  {
    AtoiOfDecimal(n);
  }

  /** `execute_pwd`: prints the working directory, or fails when `getcwd` cannot fit it. */
  function Pwd(cwd: string): (r: Reply)
    ensures r.status == 0 <==> |cwd| < MaxPath
    ensures r.status == 0 ==> r.output == Stdout(cwd + "\n")
    ensures r.status != 0 ==> r == Reply(1, Silent)
  {
    match GetCwd(cwd)
    case Some(dir) => Reply(0, Stdout(dir + "\n"))
    case None => Reply(1, Silent)
  }

  /** `execute_echo`: the arguments after the command name, separated by single spaces, then a newline. */
  function Echo(argv: seq<string>): (r: Reply)
    requires |argv| >= 1
    ensures r.status == 0 && r.output.err == ""
    ensures r.output.out == JoinSpaces(argv[1..]) + "\n"
    ensures |argv| == 1 ==> r.output.out == "\n"
  {
    Reply(0, Stdout(JoinSpaces(argv[1..]) + "\n"))
  }

  /**
   * The `for` loop of `execute_echo` as the C code writes it: each argument,
   * then a space unless it is the last, then the newline. It prints exactly
   * what `Echo` prints.
   */
  method EchoLoop(argv: seq<string>) returns (out: string)
    requires |argv| >= 1
    ensures out == Echo(argv).output.out
  {
    out := "";
    var i := 1;
    while i < |argv|
      invariant 1 <= i <= |argv|
      invariant i == 1 ==> out == ""
      invariant i > 1 ==> out == JoinSpaces(argv[1..i]) + (if i < |argv| then " " else "")
    {
      if i > 1 {
        JoinSpacesSnoc(argv[1..i], argv[i]);
        assert argv[1..i] + [argv[i]] == argv[1..i + 1];
      } else {
        assert argv[1..2] == [argv[1]];
      }
      out := out + argv[i];
      if i < |argv| - 1 {
        out := out + " ";
      }
      i := i + 1;
    }
    assert i == 1 ==> argv[1..] == [];
    assert argv[1..i] == argv[1..];
    out := out + "\n";
  }

  /**
   * Round trip with the tokenizer: what `echo` prints, newline removed,
   * tokenizes back to the arguments it was given.
   */
  lemma EchoRoundTrip(argv: seq<string>)
    requires |argv| >= 1
    requires forall i :: 1 <= i < |argv| ==> IsWord(argv[i])
    ensures var out := Echo(argv).output.out;
      |out| > 0 && out[|out| - 1] == '\n' && Words(out[..|out| - 1]) == argv[1..]
  {
    var args := argv[1..];
    assert forall i :: 0 <= i < |args| ==> IsWord(args[i]) by {
      forall i | 0 <= i < |args| ensures IsWord(args[i]) {
        assert args[i] == argv[i + 1];
      }
    }
    WordsOfJoin(args);
    var out := JoinSpaces(args) + "\n";
    assert out[..|out| - 1] == JoinSpaces(args);
  }
}
