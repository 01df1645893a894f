/**
 * Where the two shells disagree. Each shell keeps its own behaviour in its
 * own module; these lemmas state the differences side by side.
 */
module ShellDifferences {
  import opened Wrappers
  import opened Streams
  import opened Oracle
  import opened VariableStore
  import opened Substitution
  import opened Assignment
  import NanoShell
  import PicoShell

  /** The nano shell knows every pico builtin, plus `export` and `printenv`. */
  lemma BuiltinSets(cmd: string)
    ensures PicoShell.CommandTypeOf(cmd) != PicoShell.Unknown ==> NanoShell.BuiltinOf(cmd).Some?
    ensures (NanoShell.BuiltinOf(cmd).Some? && PicoShell.CommandTypeOf(cmd) == PicoShell.Unknown)
        <==> cmd == "export" || cmd == "printenv"
  {
  }

  /**
   * `cd`: with exactly one argument both shells behave the same; without
   * one the nano shell succeeds and the pico shell fails; with several the
   * nano shell fails while the pico shell uses the first and ignores the rest.
   */
  lemma CdDiffers(os: Os, cwd: string, argv: seq<string>)
    requires |argv| >= 1
    ensures |argv| == 2 ==> NanoShell.Cd(os, cwd, argv) == PicoShell.Cd(os, cwd, argv)
    ensures |argv| == 1 ==> NanoShell.Cd(os, cwd, argv).0.status == 0 && PicoShell.Cd(os, cwd, argv).0.status == 1
    ensures |argv| > 2 ==> NanoShell.Cd(os, cwd, argv).0.status == 1
    ensures |argv| > 2 ==> PicoShell.Cd(os, cwd, argv) == PicoShell.Cd(os, cwd, argv[..2])
  {
  }

  /** A line with no token: status 0 in the nano shell, status 1 in the pico shell. */
  lemma NoTokenDiffers(os: Os, sh: Shell, env: Env, cwd: string)
    ensures NanoShell.ExecuteCommand(os, sh, cwd, []) == NanoShell.Next(Reply(0, Silent), sh, cwd)
    ensures PicoShell.ExecuteCommand(os, env, cwd, []) == PicoShell.Next(Reply(1, Silent), cwd)
  {
  }

  lemma JoinedHasNoDollar(name: string, value: string)
    requires '$' !in name && '$' !in value
    ensures '$' !in name + "=" + value
  {
    var arg := name + "=" + value;
    forall i | 0 <= i < |arg|
      ensures arg[i] != '$'
    {
      if i < |name| {
        assert arg[i] == name[i];
      } else if i > |name| {
        assert arg[i] == value[i - |name| - 1];
      }
    }
  }

  /**
   * `name=value` sets a variable in the nano shell but is run as a program
   * named `name=value` by the pico shell.
   */
  lemma AssignmentOnlyInNano(os: Os, sh: Shell, env: Env, cwd: string, name: string, value: string)
    requires |name| > 0 && '=' !in name && '$' !in name && '$' !in value
    ensures NanoShell.ExecuteCommand(os, sh, cwd, [name + "=" + value])
         == NanoShell.Next(Reply(0, Silent), SetVariable(sh, name, value, false), cwd)
    ensures var arg := name + "=" + value;
      PicoShell.ExecuteCommand(os, env, cwd, [arg])
        == PicoShell.Next(Process.ExecuteProgram(os.spawn([arg], env, cwd), arg), cwd)
  {
    var arg := name + "=" + value;
    assert arg[|name|] == '=';
    JoinedHasNoDollar(name, value);
    NanoShell.AssignmentLine(os, sh, cwd, name, value);
  }
}
