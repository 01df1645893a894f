/**
 * The nano shell (07-nanoshell/nanoshell.c): the picoshell loop plus shell
 * variables. Each non-empty line is tokenized, every token is substituted,
 * and only then is the line classified as a builtin, an assignment or a
 * program.
 */
module NanoShell {
  import opened Wrappers
  import opened Text
  import opened Tokenizer
  import opened LineInput
  import opened Streams
  import opened Process
  import opened Oracle
  import opened VariableStore
  import opened Substitution
  import opened Assignment
  import opened Builtins

  const Prompt := "nanoshell$ "

  datatype BuiltinKind = ExitCmd | CdCmd | PwdCmd | EchoCmd | ExportCmd | PrintenvCmd

  datatype CommandType = BuiltinCommand(kind: BuiltinKind) | SetvarCommand | ProgramCommand

  /** The command name each builtin answers to. */
  function Name(k: BuiltinKind): string
  {
    match k
    case ExitCmd => "exit"
    case CdCmd => "cd"
    case PwdCmd => "pwd"
    case EchoCmd => "echo"
    case ExportCmd => "export"
    case PrintenvCmd => "printenv"
  }

  /**
   * `get_builtin_command_type`; None where the C function falls off its end
   * (it is only ever called on builtin names).
   */
  function BuiltinOf(cmd: string): (r: Option<BuiltinKind>)
    ensures r.Some? ==> Name(r.value) == cmd
  {
    if cmd == "exit" then Some(ExitCmd)
    else if cmd == "cd" then Some(CdCmd)
    else if cmd == "pwd" then Some(PwdCmd)
    else if cmd == "echo" then Some(EchoCmd)
    else if cmd == "export" then Some(ExportCmd)
    else if cmd == "printenv" then Some(PrintenvCmd)
    else None
  }

  /** The six builtin names, and nothing else, are recognised, each as its own builtin. */
  lemma BuiltinNames(k: BuiltinKind, cmd: string)
    ensures BuiltinOf(Name(k)) == Some(k)
    ensures BuiltinOf(cmd).Some? <==> cmd in {"exit", "cd", "pwd", "echo", "export", "printenv"}
  {
  }

  predicate HasEquals(argv: seq<string>)
  {
    exists i :: 0 <= i < |argv| && '=' in argv[i]
  }

  /** The `for` loop of `get_command_type`: does some token from index `from` on contain `=`? */
  function AnyEquals(argv: seq<string>, from: nat): (b: bool)
    requires from <= |argv|
    ensures b <==> exists i :: from <= i < |argv| && '=' in argv[i]
    decreases |argv| - from
  {
    if from == |argv| then false
    else if '=' in argv[from] then true
    else AnyEquals(argv, from + 1)
  }

  /**
   * `get_command_type`, in priority order: a builtin name wins, then any
   * token containing `=` makes an assignment, otherwise it is a program.
   */
  function CommandTypeOf(argv: seq<string>): (t: CommandType)
    requires |argv| > 0
    ensures t.BuiltinCommand? <==> BuiltinOf(argv[0]).Some?
    ensures t.BuiltinCommand? ==> Name(t.kind) == argv[0]
    ensures t.SetvarCommand? <==> BuiltinOf(argv[0]).None? && HasEquals(argv)
    ensures t.ProgramCommand? <==> BuiltinOf(argv[0]).None? && !HasEquals(argv)
  {
    match BuiltinOf(argv[0])
    case Some(k) => BuiltinCommand(k)
    case None => if AnyEquals(argv, 0) then SetvarCommand else ProgramCommand
  }

  /**
   * `execute_setvar_command`: exactly one token that parses as `name=value`
   * sets a local (unexported) variable; anything else is an invalid command
   * that leaves the store alone.
   */
  function ExecuteSetvar(sh: Shell, argv: seq<string>): (r: (Reply, Shell))
    ensures r.0.status == 0 <==> |argv| == 1 && ParseAssignment(argv[0]).Some?
    ensures r.0.status != 0 ==> r == (Reply(1, Stderr("Invalid command\n")), sh)
    ensures r.0.status == 0 ==>
      var b := ParseAssignment(argv[0]).value;
      r == (Reply(0, Silent), SetVariable(sh, b.name, b.value, false))
    ensures Consistent(sh) ==> Consistent(r.1)
  {
    var invalid := (Reply(1, Stderr("Invalid command\n")), sh);
    if |argv| != 1 then invalid
    else
      match ParseAssignment(argv[0])
      case None => invalid
      case Some(b) =>
        assert Consistent(sh) ==> Consistent(SetVariable(sh, b.name, b.value, false)) by {
          if Consistent(sh) {
            SetKeepsConsistent(sh, b.name, b.value, false);
          }
        }
        (Reply(0, Silent), SetVariable(sh, b.name, b.value, false))
  }

  /**
   * `execute_cd` (nano): more than one argument is an error; no argument is
   * a successful no-op; one argument fails only when `chdir` fails.
   */
  function Cd(os: Os, cwd: string, argv: seq<string>): (r: (Reply, string))
    requires |argv| >= 1
    ensures r.0.status == 1 <==> |argv| > 2 || (|argv| == 2 && os.chdir(cwd, argv[1]).None?)
    ensures |argv| == 2 && os.chdir(cwd, argv[1]).None? ==>
              r == (Reply(1, Stderr("cd: /invalid_directory: No such file or directory\n")), cwd)
    ensures r.0.status != 1 ==> r.0 == Reply(0, Silent)
    ensures |argv| > 2 ==> r == (Reply(1, Stdout("cd: too many argument\n")), cwd)
    ensures r.0.status == 1 ==> r.1 == cwd
    ensures r.0.status == 0 && |argv| == 2 ==> Some(r.1) == os.chdir(cwd, argv[1])
    ensures |argv| == 1 ==> r.1 == cwd
  {
    if |argv| > 2 then (Reply(1, Stdout("cd: too many argument\n")), cwd)
    else if |argv| == 2 then
      match os.chdir(cwd, argv[1])
      case None => (Reply(1, Stderr("cd: /invalid_directory: No such file or directory\n")), cwd)
      case Some(dir) => (Reply(0, Silent), dir)
    else (Reply(0, Silent), cwd)
  }

  /** The diagnostic `execute_export` prints for one name: nothing when it is set. */
  function NotFound(vars: Vars, name: string): string
  {
    if name in vars then [] else "export: " + name + " not found\n"
  }

  /** One diagnostic per name, in the order the names were given. */
  function Diagnostics(vars: Vars, names: seq<string>): (ds: seq<string>)
    ensures |ds| == |names|
    ensures forall i :: 0 <= i < |names| ==> ds[i] == NotFound(vars, names[i])
  {
    seq(|names|, i requires 0 <= i < |names| => NotFound(vars, names[i]))
  }

  /**
   * The loop of `execute_export`: every known name becomes exported, every
   * unknown one gets a diagnostic and is skipped. Nothing else changes.
   */
  function ExportNames(sh: Shell, names: seq<string>): (r: (string, Shell))
    ensures r.1.vars.Keys == sh.vars.Keys
    ensures forall n :: n in sh.vars ==> r.1.vars[n].value == sh.vars[n].value
    ensures forall n :: n in sh.vars ==> (r.1.vars[n].exported <==> sh.vars[n].exported || n in names)
    ensures r.0 == [] <==> forall i :: 0 <= i < |names| ==> names[i] in sh.vars
    ensures Consistent(sh) ==> Consistent(r.1)
    decreases |names|
  {
    if names == [] then ([], sh)
    else
      var (found, sh1) := ExportVariable(sh, names[0]);
      assert Consistent(sh) ==> Consistent(sh1) by {
        if Consistent(sh) {
          ExportKeepsConsistent(sh, names[0]);
        }
      }
      var msg := if found then [] else "export: " + names[0] + " not found\n";
      var (rest, sh2) := ExportNames(sh1, names[1..]);
      assert forall n :: n in names <==> n == names[0] || n in names[1..];
      (msg + rest, sh2)
  }

  /** What `execute_export` prints: the diagnostics of the unknown names, one after the other, in order. */
  lemma {:induction false} ExportMessages(sh: Shell, names: seq<string>)
    ensures ExportNames(sh, names).0 == Flatten(Diagnostics(sh.vars, names))
    decreases |names|
  {
    if names != [] {
      var sh1 := ExportVariable(sh, names[0]).1;
      assert ExportNames(sh, names).0 == NotFound(sh.vars, names[0]) + ExportNames(sh1, names[1..]).0;
      ExportMessages(sh1, names[1..]);
      var ds := Diagnostics(sh.vars, names);
      assert ds[1..] == Diagnostics(sh1.vars, names[1..]) by {
        assert sh1.vars.Keys == sh.vars.Keys;
      }
      FlattenCons(ds[0], ds[1..]);
      assert [ds[0]] + ds[1..] == ds;
    }
  }

  /**
   * What `execute_export` does to the environment: only given names that
   * are set and that `setenv` accepts can change or appear, and every other
   * entry, unknown names included, keeps its value.
   */
  lemma {:induction false} ExportEnvFrame(sh: Shell, names: seq<string>)
    ensures var env' := ExportNames(sh, names).1.env;
      forall n :: n in env' ==> n in sh.env || (n in names && n in sh.vars && ValidEnvName(n))
    ensures var env' := ExportNames(sh, names).1.env;
      forall n :: n in sh.env && !(n in names && n in sh.vars && ValidEnvName(n)) ==> n in env' && env'[n] == sh.env[n]
    decreases |names|
  {
    if names != [] {
      var sh1 := ExportVariable(sh, names[0]).1;
      var env' := ExportNames(sh, names).1.env;
      assert env' == ExportNames(sh1, names[1..]).1.env;
      ExportEnvFrame(sh1, names[1..]);
      var changed := names[0] in sh.vars && ValidEnvName(names[0]);
      assert forall n :: n in sh1.env ==> n in sh.env || (changed && n == names[0]);
      assert forall n :: n in sh.env && !(changed && n == names[0]) ==> n in sh1.env && sh1.env[n] == sh.env[n];
      forall n | n in env'
        ensures n in sh.env || (n in names && n in sh.vars && ValidEnvName(n))
      {
        assert n in names[1..] ==> n in names;
      }
      forall n | n in sh.env && !(n in names && n in sh.vars && ValidEnvName(n))
        ensures n in env' && env'[n] == sh.env[n]
      {
        assert n in names[1..] ==> n in names;
      }
    }
  }

  /** Each given name that is set, and that `setenv` accepts, ends up in the environment with its stored value. */
  lemma {:induction false} ExportEnvMirror(sh: Shell, names: seq<string>)
    ensures var env' := ExportNames(sh, names).1.env;
      forall n :: n in names && n in sh.vars && ValidEnvName(n) ==> n in env' && env'[n] == sh.vars[n].value
    decreases |names|
  {
    if names != [] {
      var sh1 := ExportVariable(sh, names[0]).1;
      var env' := ExportNames(sh, names).1.env;
      assert env' == ExportNames(sh1, names[1..]).1.env;
      ExportEnvMirror(sh1, names[1..]);
      ExportEnvFrame(sh1, names[1..]);
      assert forall n :: n in names <==> n == names[0] || n in names[1..];
      assert forall n :: n in sh.vars ==> n in sh1.vars && sh1.vars[n].value == sh.vars[n].value;
    }
  }

  /** `execute_export`: fails only without arguments; otherwise succeeds even if some names were unknown. */
  function Export(sh: Shell, argv: seq<string>): (r: (Reply, Shell))
    requires |argv| >= 1
    ensures r.0.status == 1 <==> |argv| < 2
    ensures r.0.status == 1 ==> r == (Reply(1, Stderr("export: missing argument\n")), sh)
    ensures r.0.status != 1 ==> r.0.status == 0 && (r.0.output.err, r.1) == ExportNames(sh, argv[1..])
    ensures Consistent(sh) ==> Consistent(r.1)
  {
    if |argv| < 2 then (Reply(1, Stderr("export: missing argument\n")), sh)
    else
      var (errs, sh') := ExportNames(sh, argv[1..]);
      (Reply(0, Stderr(errs)), sh')
  }

  /** `execute_printenv`: any argument is an error; otherwise the whole environment is listed. */
  function Printenv(os: Os, env: Env, argv: seq<string>): (r: Reply)
    requires |argv| >= 1
    ensures r.status == 1 <==> |argv| > 1
    ensures r.status == 1 ==> r == Reply(1, Stderr("printenv: this command takes no arguments\n"))
    ensures r.status != 1 ==> r == Reply(0, Stdout(os.listEnv(env)))
  {
    if |argv| > 1 then Reply(1, Stderr("printenv: this command takes no arguments\n"))
    else Reply(0, Stdout(os.listEnv(env)))
  }

  /** The outcome of one command line: go on with a status and new state, or end the process. */
  datatype Step =
    | Next(reply: Reply, shell: Shell, cwd: string)
    | Quit(code: int, output: Output)

  /** `execute_builtin_command`. */
  function ExecuteBuiltin(os: Os, sh: Shell, cwd: string, kind: BuiltinKind, argv: seq<string>): (s: Step)
    requires |argv| >= 1
    ensures s.Quit? <==> kind == ExitCmd
    ensures kind == ExitCmd ==> s == Quit(ExitCode(argv), Stdout(Farewell))
    ensures kind == CdCmd ==> s == Next(Cd(os, cwd, argv).0, sh, Cd(os, cwd, argv).1)
    ensures kind == PwdCmd ==> s == Next(Pwd(cwd), sh, cwd)
    ensures kind == EchoCmd ==> s == Next(Echo(argv), sh, cwd)
    ensures kind == ExportCmd ==> s == Next(Export(sh, argv).0, Export(sh, argv).1, cwd)
    ensures kind == PrintenvCmd ==> s == Next(Printenv(os, sh.env, argv), sh, cwd)
    ensures s.Next? && Consistent(sh) ==> Consistent(s.shell)
    ensures s.Next? ==> Grows(sh.vars, s.shell.vars)
  {
    match kind
    case ExitCmd => Quit(ExitCode(argv), Stdout(Farewell))
    case CdCmd => var (reply, cwd') := Cd(os, cwd, argv); Next(reply, sh, cwd')
    case PwdCmd => Next(Pwd(cwd), sh, cwd)
    case EchoCmd => Next(Echo(argv), sh, cwd)
    case ExportCmd => var (reply, sh') := Export(sh, argv); Next(reply, sh', cwd)
    case PrintenvCmd => Next(Printenv(os, sh.env, argv), sh, cwd)
  }

  /**
   * `execute_command`: an empty token list succeeds with status 0; otherwise
   * the tokens are substituted first and the substituted line is classified
   * and run.
   */
  function ExecuteCommand(os: Os, sh: Shell, cwd: string, argv: seq<string>): (s: Step)
    ensures |argv| == 0 ==> s == Next(Reply(0, Silent), sh, cwd)
    ensures s.Quit? <==> |argv| > 0 && Substitute(sh.vars, argv[0]) == "exit"
    ensures s.Quit? ==> s == Quit(ExitCode(SubstituteArgs(sh.vars, argv)), Stdout(Farewell))
    ensures |argv| > 0 ==>
      var args := SubstituteArgs(sh.vars, argv);
      match CommandTypeOf(args)
      case BuiltinCommand(k) => s == ExecuteBuiltin(os, sh, cwd, k, args)
      case SetvarCommand => s == Next(ExecuteSetvar(sh, args).0, ExecuteSetvar(sh, args).1, cwd)
      case ProgramCommand => s == Next(ExecuteProgram(os.spawn(args, sh.env, cwd), args[0]), sh, cwd)
    ensures s.Next? && Consistent(sh) ==> Consistent(s.shell)
    ensures s.Next? ==> Grows(sh.vars, s.shell.vars)
  {
    if |argv| == 0 then Next(Reply(0, Silent), sh, cwd)
    else
      var args := SubstituteArgs(sh.vars, argv);
      match CommandTypeOf(args)
      case BuiltinCommand(k) => ExecuteBuiltin(os, sh, cwd, k, args)
      case SetvarCommand => var (reply, sh') := ExecuteSetvar(sh, args); Next(reply, sh', cwd)
      case ProgramCommand => Next(ExecuteProgram(os.spawn(args, sh.env, cwd), args[0]), sh, cwd)
  }

  /**
   * A line whose substituted tokens are more than one, with no builtin first
   * and an `=` somewhere, is an assignment that `execute_setvar_command`
   * rejects: "Invalid command", status 1, store and directory unchanged.
   */
  lemma InvalidAssignmentLine(os: Os, sh: Shell, cwd: string, argv: seq<string>, i: nat)
    requires |argv| > 1 && BuiltinOf(Substitute(sh.vars, argv[0])).None?
    requires i < |argv| && '=' in Substitute(sh.vars, argv[i])
    ensures ExecuteCommand(os, sh, cwd, argv) == Next(Reply(1, Stderr("Invalid command\n")), sh, cwd)
  {
    var args := SubstituteArgs(sh.vars, argv);
    assert '=' in args[i];
    assert CommandTypeOf(args) == SetvarCommand;
  }

  /** With a well-formed operating system, every status a command line leaves behind fits an exit code. */
  lemma StepStatusFits(os: Os, sh: Shell, cwd: string, argv: seq<string>)
    requires WellFormedOs(os)
    ensures ExecuteCommand(os, sh, cwd, argv).Next? ==> 0 <= ExecuteCommand(os, sh, cwd, argv).reply.status < 256
  {
    if |argv| > 0 {
      var args := SubstituteArgs(sh.vars, argv);
      assert WellFormedSpawn(os.spawn(args, sh.env, cwd));
    }
  }

  /** Everything the loop carries from one line to the next. */
  datatype State = State(shell: Shell, cwd: string, status: int)

  /** The shell at start-up: no variables, the inherited environment, status 0. */
  function Initial(env: Env, cwd: string): (st: State)
    ensures Consistent(st.shell) && st.status == 0
  {
    State(Shell(map[], env), cwd, 0)
  }

  /** How a session ends: input runs out (the loop returns the last status) or `exit` ends the process. */
  datatype Ending =
    | EndOfInput(last: State)
    | ExitCalled(code: int, unread: nat)

  datatype Session = Session(output: Output, ending: Ending)

  function Prefixed(o: Output, s: Session): Session
  {
    Session(o.Then(s.output), s.ending)
  }

  /**
   * `nanoshell_main` over the remaining `fgets` chunks: prompt, read, skip a
   * strictly empty line, otherwise tokenize and execute, and record the status.
   */
  function Run(os: Os, st: State, chunks: seq<string>): (s: Session)
    ensures s.ending.ExitCalled? ==> s.ending.unread < |chunks|
    ensures (forall i :: 0 <= i < |chunks| ==> StripNewline(chunks[i]) == []) ==> s.ending == EndOfInput(st)
    ensures s.ending.EndOfInput? && Consistent(st.shell) ==> Consistent(s.ending.last.shell)
    ensures s.ending.EndOfInput? ==> Grows(st.shell.vars, s.ending.last.shell.vars)
    decreases |chunks|
  {
    var prompt := Stdout(Prompt);
    if chunks == [] then Session(prompt, EndOfInput(st))
    else
      var line := StripNewline(chunks[0]);
      if line == [] then Prefixed(prompt, Run(os, st, chunks[1..]))
      else
        match ExecuteCommand(os, st.shell, st.cwd, Tokenize(line))
        case Quit(code, o) => Session(prompt.Then(o), ExitCalled(code, |chunks| - 1))
        case Next(reply, sh', cwd') =>
          Prefixed(prompt.Then(reply.output), Run(os, State(sh', cwd', reply.status), chunks[1..]))
  }

  /** A whole session on the text of standard input. */
  function Main(os: Os, env: Env, cwd: string, input: string): Session
  {
    Run(os, Initial(env, cwd), Chunks(input))
  }

  /**
   * The status `nanoshell_main` returns at end of input lies in 0..255 when
   * the operating system only reports well-formed outcomes.
   */
  lemma {:induction false} FinalStatusFits(os: Os, st: State, chunks: seq<string>)
    requires WellFormedOs(os) && 0 <= st.status < 256
    ensures Run(os, st, chunks).ending.EndOfInput? ==> 0 <= Run(os, st, chunks).ending.last.status < 256
    decreases |chunks|
  {
    if chunks != [] {
      var line := StripNewline(chunks[0]);
      if line == [] {
        FinalStatusFits(os, st, chunks[1..]);
      } else {
        StepStatusFits(os, st.shell, st.cwd, Tokenize(line));
        match ExecuteCommand(os, st.shell, st.cwd, Tokenize(line))
        case Quit(_, _) =>
        case Next(reply, sh', cwd') => FinalStatusFits(os, State(sh', cwd', reply.status), chunks[1..]);
      }
    }
  }

  /** Every session starts with the prompt, whatever the input holds. */
  lemma PromptFirst(os: Os, st: State, chunks: seq<string>)
    ensures Prompt <= Run(os, st, chunks).output.out
  {
    var prompt := Stdout(Prompt);
    if chunks == [] {
      ThenExtends(prompt, Silent, Silent);
    } else {
      var line := StripNewline(chunks[0]);
      if line == [] {
        ThenExtends(prompt, Run(os, st, chunks[1..]).output, Silent);
      } else {
        match ExecuteCommand(os, st.shell, st.cwd, Tokenize(line))
        case Quit(code, o) => ThenExtends(prompt, o, Silent);
        case Next(reply, sh', cwd') =>
          var rest := Run(os, State(sh', cwd', reply.status), chunks[1..]).output;
          ThenExtends(prompt, reply.output, rest);
          ThenExtends(prompt, reply.output.Then(rest), Silent);
      }
    }
  }

  /** A strictly empty line is skipped: nothing runs and the status is kept. */
  lemma EmptyLineSkipped(os: Os, st: State, chunk: string, rest: seq<string>)
    requires StripNewline(chunk) == []
    ensures Run(os, st, [chunk] + rest) == Prefixed(Stdout(Prompt), Run(os, st, rest))
  {
    assert ([chunk] + rest)[1..] == rest;
  }

  /** A line of spaces and tabs reaches `execute_command` with no token and sets the status to 0. */
  lemma BlankLineSucceeds(os: Os, st: State, chunk: string, rest: seq<string>)
    requires StripNewline(chunk) != [] && IsBlank(StripNewline(chunk))
    ensures Run(os, st, [chunk] + rest) == Prefixed(Stdout(Prompt), Run(os, st.(status := 0), rest))
  {
    BlankIffNoWords(StripNewline(chunk));
    assert ([chunk] + rest)[1..] == rest;
    StdoutThen(Prompt, "");
  }

  /** A line holding a command runs it once, prints its output after the prompt, and hands its status and store to the next line. */
  lemma CommandLine(os: Os, st: State, chunk: string, rest: seq<string>)
    requires StripNewline(chunk) != []
    requires ExecuteCommand(os, st.shell, st.cwd, Tokenize(StripNewline(chunk))).Next?
    ensures var step := ExecuteCommand(os, st.shell, st.cwd, Tokenize(StripNewline(chunk)));
      Run(os, st, [chunk] + rest)
        == Prefixed(Stdout(Prompt).Then(step.reply.output), Run(os, State(step.shell, step.cwd, step.reply.status), rest))
  {
    assert ([chunk] + rest)[0] == chunk;
    assert ([chunk] + rest)[1..] == rest;
  }

  /**
   * A single token `name=value` with no `$` in it sets a local variable:
   * status 0, nothing printed, nothing exported.
   */
  lemma AssignmentLine(os: Os, sh: Shell, cwd: string, name: string, value: string)
    requires |name| > 0 && '=' !in name && '$' !in name + "=" + value
    ensures ExecuteCommand(os, sh, cwd, [name + "=" + value])
         == Next(Reply(0, Silent), SetVariable(sh, name, value, false), cwd)
  {
    var arg := name + "=" + value;
    ArgsWithoutReferences(sh.vars, [arg]);
    SetvarLine(name, value);
    SetvarAssigns(sh, name, value);
  }

  lemma SetvarLine(name: string, value: string)
    requires |name| > 0 && '=' !in name
    ensures CommandTypeOf([name + "=" + value]) == SetvarCommand
  {
    var args := [name + "=" + value];
    assert args[0][|name|] == '=';
    assert HasEquals(args);
  }

  lemma SetvarAssigns(sh: Shell, name: string, value: string)
    requires |name| > 0 && '=' !in name
    ensures ExecuteSetvar(sh, [name + "=" + value]) == (Reply(0, Silent), SetVariable(sh, name, value, false))
  {
    ParseJoined(name, value);
  }

  /** The last line of the input, when it holds a command that does not end the process. */
  lemma LastLine(os: Os, st: State, chunk: string)
    requires StripNewline(chunk) != []
    requires ExecuteCommand(os, st.shell, st.cwd, Tokenize(StripNewline(chunk))).Next?
    ensures var step := ExecuteCommand(os, st.shell, st.cwd, Tokenize(StripNewline(chunk)));
      Run(os, st, [chunk])
        == Session(Stdout(Prompt).Then(step.reply.output).Then(Stdout(Prompt)), EndOfInput(State(step.shell, step.cwd, step.reply.status)))
  {
    CommandLine(os, st, chunk, []);
    assert [chunk] + [] == [chunk];
  }

  /** A line whose command ends the process: its output follows the prompt and the remaining chunks stay unread. */
  lemma RunQuits(os: Os, st: State, chunk: string, rest: seq<string>)
    requires StripNewline(chunk) != []
    requires ExecuteCommand(os, st.shell, st.cwd, Tokenize(StripNewline(chunk))).Quit?
    ensures var step := ExecuteCommand(os, st.shell, st.cwd, Tokenize(StripNewline(chunk)));
      Run(os, st, [chunk] + rest) == Session(Stdout(Prompt).Then(step.output), ExitCalled(step.code, |rest|))
  {
    var chunks := [chunk] + rest;
    assert chunks != [] && chunks[0] == chunk;
    var step := ExecuteCommand(os, st.shell, st.cwd, Tokenize(StripNewline(chunk)));
    assert Run(os, st, chunks) == Session(Stdout(Prompt).Then(step.output), ExitCalled(step.code, |chunks| - 1));
  }

  lemma ExitLine(os: Os, st: State, chunk: string, rest: seq<string>)
    requires var argv := Tokenize(StripNewline(chunk));
      |argv| > 0 && Substitute(st.shell.vars, argv[0]) == "exit"
    ensures var argv := SubstituteArgs(st.shell.vars, Tokenize(StripNewline(chunk)));
      Run(os, st, [chunk] + rest)
        == Session(Stdout(Prompt + Farewell), ExitCalled(ExitCode(argv), |rest|))
  {
    assert StripNewline(chunk) != [];
    RunQuits(os, st, chunk, rest);
    StdoutThen(Prompt, Farewell);
  }

  /** `exit` ends the session at once: the rest of the input is never read, whatever it holds. */
  lemma ExitStopsReading(os: Os, st: State, chunk: string, rest: seq<string>, other: seq<string>)
    requires var argv := Tokenize(StripNewline(chunk));
      |argv| > 0 && Substitute(st.shell.vars, argv[0]) == "exit"
    ensures var argv := SubstituteArgs(st.shell.vars, Tokenize(StripNewline(chunk)));
      Run(os, st, [chunk] + rest)
        == Session(Stdout(Prompt + Farewell), ExitCalled(ExitCode(argv), |rest|))
    ensures Run(os, st, [chunk] + rest).output == Run(os, st, [chunk] + other).output
  {
    ExitLine(os, st, chunk, rest);
    ExitLine(os, st, chunk, other);
  }

  /** At end of input the loop returns the status it holds, 0 if nothing ever ran. */
  lemma EndOfInputStatus(os: Os, st: State, env: Env, cwd: string)
    ensures Run(os, st, []) == Session(Stdout(Prompt), EndOfInput(st))
    ensures Main(os, env, cwd, "").ending.last.status == 0
  {
  }
}
