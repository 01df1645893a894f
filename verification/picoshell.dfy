/**
 * The pico shell (06-picoshell/picoshell.c): read a line, tokenize it, run
 * one of four builtins or an external program, and remember the status.
 * It has no variables and no substitution.
 */
module PicoShell {
  import opened Wrappers
  import opened Tokenizer
  import opened LineInput
  import opened Streams
  import opened Process
  import opened Oracle
  import opened Builtins

  const Prompt := "picoshell$ "

  datatype CommandType = ExitCmd | CdCmd | PwdCmd | EchoCmd | Unknown

  /** The command name each builtin answers to. */
  function Name(t: CommandType): string
    requires t != Unknown
  {
    match t
    case ExitCmd => "exit"
    case CdCmd => "cd"
    case PwdCmd => "pwd"
    case EchoCmd => "echo"
  }

  /** `get_command_type`: the four builtin names, everything else is an external program. */
  function CommandTypeOf(cmd: string): (t: CommandType)
    ensures t != Unknown ==> Name(t) == cmd
  {
    if cmd == "exit" then ExitCmd
    else if cmd == "cd" then CdCmd
    else if cmd == "pwd" then PwdCmd
    else if cmd == "echo" then EchoCmd
    else Unknown
  }

  /** Exactly `exit`, `cd`, `pwd` and `echo` are builtins, each recognised by its own name. */
  lemma BuiltinNames(t: CommandType, cmd: string)
    ensures t != Unknown ==> CommandTypeOf(Name(t)) == t
    ensures CommandTypeOf(cmd) == Unknown <==> cmd !in {"exit", "cd", "pwd", "echo"}
  {
  }

  /**
   * `execute_cd` (pico): a missing argument is an error; otherwise only the
   * first argument counts, and the command fails exactly when `chdir` does.
   */
  function Cd(os: Os, cwd: string, argv: seq<string>): (r: (Reply, string))
    requires |argv| >= 1
    ensures r.0.status == 1 <==> |argv| < 2 || os.chdir(cwd, argv[1]).None?
    ensures r.0.status != 1 ==> r.0 == Reply(0, Silent)
    ensures |argv| < 2 ==> r == (Reply(1, Stdout("cd: missing argument\n")), cwd)
    ensures |argv| >= 2 && os.chdir(cwd, argv[1]).None? ==>
              r == (Reply(1, Stderr("cd: /invalid_directory: No such file or directory\n")), cwd)
    ensures r.0.status == 1 ==> r.1 == cwd
    ensures r.0.status == 0 ==> Some(r.1) == os.chdir(cwd, argv[1])
  {
    if |argv| < 2 then (Reply(1, Stdout("cd: missing argument\n")), cwd)
    else
      match os.chdir(cwd, argv[1])
      case None => (Reply(1, Stderr("cd: /invalid_directory: No such file or directory\n")), cwd)
      case Some(dir) => (Reply(0, Silent), dir)
  }

  /** The outcome of one command line. */
  datatype Step =
    | Next(reply: Reply, cwd: string)
    | Quit(code: int, output: Output)

  /**
   * `execute_command`: no token is status 1; builtins run in the shell,
   * everything else goes to `execute_program`.
   */
  function ExecuteCommand(os: Os, env: Env, cwd: string, argv: seq<string>): (s: Step)
    ensures |argv| == 0 ==> s == Next(Reply(1, Silent), cwd)
    ensures s.Quit? <==> |argv| > 0 && argv[0] == "exit"
    ensures s.Quit? ==> s == Quit(ExitCode(argv), Stdout(Farewell))
    ensures |argv| > 0 && CommandTypeOf(argv[0]) == CdCmd ==>
              s == Next(Cd(os, cwd, argv).0, Cd(os, cwd, argv).1)
    ensures |argv| > 0 && CommandTypeOf(argv[0]) == PwdCmd ==> s == Next(Pwd(cwd), cwd)
    ensures |argv| > 0 && CommandTypeOf(argv[0]) == EchoCmd ==> s == Next(Echo(argv), cwd)
    ensures |argv| > 0 && CommandTypeOf(argv[0]) == Unknown ==>
              s == Next(ExecuteProgram(os.spawn(argv, env, cwd), argv[0]), cwd)
  {
    if |argv| == 0 then Next(Reply(1, Silent), cwd)
    else
      match CommandTypeOf(argv[0])
      case ExitCmd => Quit(ExitCode(argv), Stdout(Farewell))
      case CdCmd => var (reply, cwd') := Cd(os, cwd, argv); Next(reply, cwd')
      case PwdCmd => Next(Pwd(cwd), cwd)
      case EchoCmd => Next(Echo(argv), cwd)
      case Unknown => Next(ExecuteProgram(os.spawn(argv, env, cwd), argv[0]), cwd)
  }

  /** With a well-formed operating system, every status a command line leaves behind fits an exit code. */
  lemma StepStatusFits(os: Os, env: Env, cwd: string, argv: seq<string>)
    requires WellFormedOs(os)
    ensures ExecuteCommand(os, env, cwd, argv).Next? ==> 0 <= ExecuteCommand(os, env, cwd, argv).reply.status < 256
  {
    if |argv| > 0 && CommandTypeOf(argv[0]) == Unknown {
      assert WellFormedSpawn(os.spawn(argv, env, cwd));
    }
  }

  /** What the loop carries from one line to the next; the environment is inherited and never changed. */
  datatype State = State(env: Env, cwd: string, status: int)

  datatype Ending =
    | EndOfInput(last: State)
    | ExitCalled(code: int, unread: nat)

  datatype Session = Session(output: Output, ending: Ending)

  function Prefixed(o: Output, s: Session): Session
  {
    Session(o.Then(s.output), s.ending)
  }

  /** `picoshell_main` over the remaining `fgets` chunks. */
  function Run(os: Os, st: State, chunks: seq<string>): (s: Session)
    ensures s.ending.ExitCalled? ==> s.ending.unread < |chunks|
    ensures (forall i :: 0 <= i < |chunks| ==> StripNewline(chunks[i]) == []) ==> s.ending == EndOfInput(st)
    ensures s.ending.EndOfInput? ==> s.ending.last.env == st.env
    decreases |chunks|
  {
    var prompt := Stdout(Prompt);
    if chunks == [] then Session(prompt, EndOfInput(st))
    else
      var line := StripNewline(chunks[0]);
      if line == [] then Prefixed(prompt, Run(os, st, chunks[1..]))
      else
        match ExecuteCommand(os, st.env, st.cwd, Tokenize(line))
        case Quit(code, o) => Session(prompt.Then(o), ExitCalled(code, |chunks| - 1))
        case Next(reply, cwd') =>
          Prefixed(prompt.Then(reply.output), Run(os, State(st.env, cwd', reply.status), chunks[1..]))
  }

  /** A whole session on the text of standard input, starting with status 0. */
  function Main(os: Os, env: Env, cwd: string, input: string): Session
  {
    Run(os, State(env, cwd, 0), Chunks(input))
  }

  /**
   * The status `picoshell_main` returns at end of input lies in 0..255 when
   * the operating system only reports well-formed outcomes.
   */
  lemma {:induction false} FinalStatusFits(os: Os, st: State, chunks: seq<string>)
    requires WellFormedOs(os) && 0 <= st.status < 256
    ensures Run(os, st, chunks).ending.EndOfInput? ==> 0 <= Run(os, st, chunks).ending.last.status < 256
    decreases |chunks|
  {
    if chunks != [] {
      var line := StripNewline(chunks[0]);
      if line == [] {
        FinalStatusFits(os, st, chunks[1..]);
      } else {
        StepStatusFits(os, st.env, st.cwd, Tokenize(line));
        match ExecuteCommand(os, st.env, st.cwd, Tokenize(line))
        case Quit(_, _) =>
        case Next(reply, cwd') => FinalStatusFits(os, State(st.env, cwd', reply.status), chunks[1..]);
      }
    }
  }

  /** Every session starts with the prompt, whatever the input holds. */
  lemma PromptFirst(os: Os, st: State, chunks: seq<string>)
    ensures Prompt <= Run(os, st, chunks).output.out
  {
    var prompt := Stdout(Prompt);
    if chunks == [] {
      ThenExtends(prompt, Silent, Silent);
    } else {
      var line := StripNewline(chunks[0]);
      if line == [] {
        ThenExtends(prompt, Run(os, st, chunks[1..]).output, Silent);
      } else {
        match ExecuteCommand(os, st.env, st.cwd, Tokenize(line))
        case Quit(code, o) => ThenExtends(prompt, o, Silent);
        case Next(reply, cwd') =>
          var rest := Run(os, State(st.env, cwd', reply.status), chunks[1..]).output;
          ThenExtends(prompt, reply.output, rest);
          ThenExtends(prompt, reply.output.Then(rest), Silent);
      }
    }
  }

  /** A strictly empty line is skipped: nothing runs and the status is kept. */
  lemma EmptyLineSkipped(os: Os, st: State, chunk: string, rest: seq<string>)
    requires StripNewline(chunk) == []
    ensures Run(os, st, [chunk] + rest) == Prefixed(Stdout(Prompt), Run(os, st, rest))
  {
    assert ([chunk] + rest)[1..] == rest;
  }

  /** A line of spaces and tabs reaches `execute_command` with no token, which sets the status to 1. */
  lemma BlankLineFails(os: Os, st: State, chunk: string, rest: seq<string>)
    requires StripNewline(chunk) != [] && IsBlank(StripNewline(chunk))
    ensures Run(os, st, [chunk] + rest) == Prefixed(Stdout(Prompt), Run(os, st.(status := 1), rest))
  {
    BlankIffNoWords(StripNewline(chunk));
    assert ([chunk] + rest)[1..] == rest;
    StdoutThen(Prompt, "");
  }

  /** A line holding a command runs it once, prints its output after the prompt, and hands its status to the next line. */
  lemma CommandLine(os: Os, st: State, chunk: string, rest: seq<string>)
    requires StripNewline(chunk) != []
    requires ExecuteCommand(os, st.env, st.cwd, Tokenize(StripNewline(chunk))).Next?
    ensures var step := ExecuteCommand(os, st.env, st.cwd, Tokenize(StripNewline(chunk)));
      Run(os, st, [chunk] + rest)
        == Prefixed(Stdout(Prompt).Then(step.reply.output), Run(os, State(st.env, step.cwd, step.reply.status), rest))
  {
    assert ([chunk] + rest)[0] == chunk;
    assert ([chunk] + rest)[1..] == rest;
  }

  /** The last line of the input, when it holds a command that does not end the process. */
  lemma LastLine(os: Os, st: State, chunk: string)
    requires StripNewline(chunk) != []
    requires ExecuteCommand(os, st.env, st.cwd, Tokenize(StripNewline(chunk))).Next?
    ensures var step := ExecuteCommand(os, st.env, st.cwd, Tokenize(StripNewline(chunk)));
      Run(os, st, [chunk])
        == Session(Stdout(Prompt).Then(step.reply.output).Then(Stdout(Prompt)), EndOfInput(State(st.env, step.cwd, step.reply.status)))
  {
    CommandLine(os, st, chunk, []);
    assert [chunk] + [] == [chunk];
  }

  /** A line whose command ends the process: its output follows the prompt and the remaining chunks stay unread. */
  lemma RunQuits(os: Os, st: State, chunk: string, rest: seq<string>)
    requires StripNewline(chunk) != []
    requires ExecuteCommand(os, st.env, st.cwd, Tokenize(StripNewline(chunk))).Quit?
    ensures var step := ExecuteCommand(os, st.env, st.cwd, Tokenize(StripNewline(chunk)));
      Run(os, st, [chunk] + rest) == Session(Stdout(Prompt).Then(step.output), ExitCalled(step.code, |rest|))
  {
    var chunks := [chunk] + rest;
    assert chunks != [] && chunks[0] == chunk;
    var step := ExecuteCommand(os, st.env, st.cwd, Tokenize(StripNewline(chunk)));
    assert Run(os, st, chunks) == Session(Stdout(Prompt).Then(step.output), ExitCalled(step.code, |chunks| - 1));
  }

  lemma ExitLine(os: Os, st: State, chunk: string, rest: seq<string>)
    requires var argv := Tokenize(StripNewline(chunk)); |argv| > 0 && argv[0] == "exit"
    ensures Run(os, st, [chunk] + rest)
         == Session(Stdout(Prompt + Farewell), ExitCalled(ExitCode(Tokenize(StripNewline(chunk))), |rest|))
  {
    assert StripNewline(chunk) != [];
    RunQuits(os, st, chunk, rest);
    StdoutThen(Prompt, Farewell);
  }

  /** `exit` ends the session at once: the rest of the input is never read, whatever it holds. */
  lemma ExitStopsReading(os: Os, st: State, chunk: string, rest: seq<string>, other: seq<string>)
    requires var argv := Tokenize(StripNewline(chunk)); |argv| > 0 && argv[0] == "exit"
    ensures Run(os, st, [chunk] + rest)
         == Session(Stdout(Prompt + Farewell), ExitCalled(ExitCode(Tokenize(StripNewline(chunk))), |rest|))
    ensures Run(os, st, [chunk] + rest).output == Run(os, st, [chunk] + other).output
  {
    ExitLine(os, st, chunk, rest);
    ExitLine(os, st, chunk, other);
  }

  /** At end of input the loop returns the status it holds, 0 if nothing ever ran. */
  lemma EndOfInputStatus(os: Os, st: State, env: Env, cwd: string)
    ensures Run(os, st, []) == Session(Stdout(Prompt), EndOfInput(st))
    ensures Main(os, env, cwd, "").ending.last.status == 0
  {
  }
}
