/**
 * Whole sessions, from the text on standard input to what the shell prints
 * and how it ends. Each lemma covers a family of inputs (any word, any run
 * of blanks, any directory, any value) rather than one string, and follows
 * one of the scenarios the repository's tests exercise. Those tests write
 * their input followed by a newline, so every input here is `Typed` lines.
 */
module Sessions {
  import opened Wrappers
  import opened Text
  import opened Tokenizer
  import opened LineInput
  import opened Streams
  import opened Process
  import opened Oracle
  import opened Builtins
  import opened Numbers
  import opened VariableStore
  import opened Substitution
  import PicoShell
  import NanoShell

  // ---------------------------------------------------------------------
  // Lines and their tokens

  /** A single word is a single token. */
  lemma OneWord(w: string)
    requires IsWord(w)
    ensures Tokenize(w) == [w]
  {
    WordsOfOne(w);
  }

  lemma TwoWordsListed(a: string, b: string)
    requires IsWord(a) && IsWord(b)
    ensures Words(a + " " + b) == [a, b]
  {
    WordsOfJoin([a, b]);
    assert JoinSpaces([a, b]) == a + " " + b by {
      assert [a, b][1..] == [b];
    }
  }

  /** Two words and one space between them make exactly two tokens. */
  lemma TwoWords(a: string, b: string)
    requires IsWord(a) && IsWord(b)
    ensures Tokenize(a + " " + b) == [a, b]
  {
    TwoWordsListed(a, b);
  }

  /** Blanks hold no newline. */
  lemma BlankHasNoNewline(b: string)
    requires IsBlank(b)
    ensures '\n' !in b
  {
  }

  lemma TwoBlankSeparated(w1: string, b2: string, w2: string)
    requires IsBlank(b2) && b2 != [] && IsWord(w1) && IsWord(w2)
    ensures Words(w1 + b2 + w2) == [w1, w2]
  {
    WordThenBlank(w1, b2, w2);
    WordsOfOne(w2);
  }

  /** Three words, each run of blanks between them ending the word before it. */
  lemma BlankSeparatedWords(w0: string, b1: string, w1: string, b2: string, w2: string)
    requires IsBlank(b1) && b1 != [] && IsBlank(b2) && b2 != []
    requires IsWord(w0) && IsWord(w1) && IsWord(w2)
    ensures Words(w0 + b1 + (w1 + b2 + w2)) == [w0] + [w1, w2]
  {
    TwoBlankSeparated(w1, b2, w2);
    WordThenBlank(w0, b1, w1 + b2 + w2);
  }

  lemma BlankSeparatedTokens(w0: string, b1: string, w1: string, b2: string, w2: string)
    requires IsBlank(b1) && b1 != [] && IsBlank(b2) && b2 != []
    requires IsWord(w0) && IsWord(w1) && IsWord(w2)
    ensures Tokenize(w0 + b1 + (w1 + b2 + w2)) == [w0, w1, w2]
  {
    BlankSeparatedWords(w0, b1, w1, b2, w2);
    assert [w0] + [w1, w2] == [w0, w1, w2];
  }

  /** `echo`, blanks, a word, blanks, a word: one line of three tokens. */
  lemma SpacedEchoLine(b1: string, w1: string, b2: string, w2: string)
    requires IsBlank(b1) && b1 != [] && IsBlank(b2) && b2 != []
    requires IsWord(w1) && IsWord(w2) && '\n' !in w1 && '\n' !in w2
    ensures Chunks(Typed(["echo" + b1 + (w1 + b2 + w2)])) == ["echo" + b1 + (w1 + b2 + w2) + "\n"]
    ensures StripNewline("echo" + b1 + (w1 + b2 + w2) + "\n") == "echo" + b1 + (w1 + b2 + w2)
    ensures Tokenize("echo" + b1 + (w1 + b2 + w2)) == ["echo", w1, w2]
  {
    assert IsWord("echo");
    BlankSeparatedTokens("echo", b1, w1, b2, w2);
    BlankHasNoNewline(b1);
    BlankHasNoNewline(b2);
    OneTypedLine("echo" + b1 + (w1 + b2 + w2));
  }

  /** `echo` with two arguments prints them separated by one space. */
  lemma EchoTwo(w1: string, w2: string)
    ensures Echo(["echo", w1, w2]) == Reply(0, Stdout(w1 + " " + w2 + "\n"))
  {
    assert ["echo", w1, w2][1..] == [w1, w2];
    assert [w1, w2][1..] == [w2];
    assert JoinSpaces([w1, w2]) == w1 + " " + w2;
  }

  /** `echo` with one argument prints it alone. */
  lemma EchoOne(w: string)
    ensures Echo(["echo", w]) == Reply(0, Stdout(w + "\n"))
  {
    assert ["echo", w][1..] == [w];
  }

  // ---------------------------------------------------------------------
  // Pico shell

  lemma EmptyLinesChunks()
    ensures Chunks(Typed(["", "", ""])) == ["\n"] + (["\n"] + ["\n"])
  {
    ChunksOfTyped(["", "", ""]);
    assert "" + "\n" == "\n";
  }

  /** Pressing Enter three times: four prompts, nothing run, status 0. */
  lemma PicoEmptyLines(os: Os, env: Env, cwd: string)
    ensures PicoShell.Main(os, env, cwd, Typed(["", "", ""]))
         == PicoShell.Session(Stdout(PicoShell.Prompt + PicoShell.Prompt + PicoShell.Prompt + PicoShell.Prompt),
                              PicoShell.EndOfInput(PicoShell.State(env, cwd, 0)))
  {
    var st := PicoShell.State(env, cwd, 0);
    var p := PicoShell.Prompt;
    EmptyLinesChunks();
    PicoShell.EmptyLineSkipped(os, st, "\n", ["\n"] + ["\n"]);
    PicoShell.EmptyLineSkipped(os, st, "\n", ["\n"]);
    PicoShell.EmptyLineSkipped(os, st, "\n", []);
    assert ["\n"] + [] == ["\n"];
    Prompts(p);
  }

  /** Four prompts written one after the other. */
  lemma Prompts(p: string)
    ensures Stdout(p).Then(Stdout(p).Then(Stdout(p).Then(Stdout(p)))) == Stdout(p + p + p + p)
  {
    StdoutThen(p, p);
    StdoutThen(p, p + p);
    StdoutThen(p, p + (p + p));
    assert p + (p + (p + p)) == p + p + p + p;
  }

  lemma PicoEchoCommand(os: Os, env: Env, cwd: string, w1: string, w2: string)
    ensures PicoShell.ExecuteCommand(os, env, cwd, ["echo", w1, w2])
         == PicoShell.Next(Reply(0, Stdout(w1 + " " + w2 + "\n")), cwd)
  {
    EchoTwo(w1, w2);
  }

  /**
   * `echo` with any runs of blanks between its words prints the words
   * separated by single spaces, then the next prompt; the status is 0.
   */
  lemma PicoEchoCollapsesBlanks(os: Os, env: Env, cwd: string, b1: string, w1: string, b2: string, w2: string)
    requires IsBlank(b1) && b1 != [] && IsBlank(b2) && b2 != []
    requires IsWord(w1) && IsWord(w2) && '\n' !in w1 && '\n' !in w2
    ensures PicoShell.Main(os, env, cwd, Typed(["echo" + b1 + (w1 + b2 + w2)]))
         == PicoShell.Session(Stdout(PicoShell.Prompt + (w1 + " " + w2 + "\n") + PicoShell.Prompt),
                              PicoShell.EndOfInput(PicoShell.State(env, cwd, 0)))
  {
    var line := "echo" + b1 + (w1 + b2 + w2) + "\n";
    SpacedEchoLine(b1, w1, b2, w2);
    PicoEchoCommand(os, env, cwd, w1, w2);
    PicoShell.LastLine(os, PicoShell.State(env, cwd, 0), line);
    Framed(PicoShell.Prompt, Stdout(w1 + " " + w2 + "\n"));
  }

  /** A line holding one word, typed: one chunk, one token. */
  lemma OneWordLine(w: string)
    requires IsWord(w) && '\n' !in w
    ensures Chunks(Typed([w])) == [w + "\n"]
    ensures Tokenize(StripNewline(w + "\n")) == [w]
  {
    OneTypedLine(w);
    OneWord(w);
  }

  /** `exit` as the only input: the farewell after one prompt, and the process ends with status 0. */
  lemma PicoExit(os: Os, env: Env, cwd: string)
    ensures PicoShell.Main(os, env, cwd, Typed(["exit"]))
         == PicoShell.Session(Stdout(PicoShell.Prompt + Farewell), PicoShell.ExitCalled(0, 0))
  {
    OneWordLine("exit");
    assert ["exit" + "\n"] == ["exit" + "\n"] + [];
    PicoShell.ExitLine(os, PicoShell.State(env, cwd, 0), "exit" + "\n", []);
  }

  lemma PicoNotFound(os: Os, env: Env, cwd: string, name: string)
    requires PicoShell.CommandTypeOf(name) == PicoShell.Unknown
    requires os.spawn([name], env, cwd) == Forked(ExecFailed, None)
    ensures PicoShell.ExecuteCommand(os, env, cwd, [name])
         == PicoShell.Next(Reply(127, Stderr(name + ": command not found\n")), cwd)
  {
  }

  /**
   * A word that names no builtin and no program: the shell reports it on
   * standard error, prompts again and ends with status 127.
   */
  lemma PicoUnknownCommand(os: Os, env: Env, cwd: string, name: string)
    requires IsWord(name) && '\n' !in name && PicoShell.CommandTypeOf(name) == PicoShell.Unknown
    requires os.spawn([name], env, cwd) == Forked(ExecFailed, None)
    ensures PicoShell.Main(os, env, cwd, Typed([name]))
         == PicoShell.Session(Output(PicoShell.Prompt + "" + PicoShell.Prompt, name + ": command not found\n"),
                              PicoShell.EndOfInput(PicoShell.State(env, cwd, 127)))
  {
    OneTypedLine(name);
    OneWord(name);
    PicoNotFound(os, env, cwd, name);
    PicoShell.LastLine(os, PicoShell.State(env, cwd, 0), name + "\n");
    Framed(PicoShell.Prompt, Stderr(name + ": command not found\n"));
  }

  lemma PwdLine()
    ensures StripNewline("pwd\n") == "pwd"
    ensures Tokenize("pwd") == ["pwd"]
  {
    OneWord("pwd");
  }

  lemma PicoPwdCommand(os: Os, env: Env, cwd: string)
    requires |cwd| < MaxPath
    ensures PicoShell.ExecuteCommand(os, env, cwd, ["pwd"]) == PicoShell.Next(Reply(0, Stdout(cwd + "\n")), cwd)
  {
  }

  /** `pwd` as the last line prints the working directory between two prompts and ends with status 0, whatever came before. */
  lemma PicoPwdLast(os: Os, st: PicoShell.State)
    requires |st.cwd| < MaxPath
    ensures PicoShell.Run(os, st, ["pwd\n"])
         == PicoShell.Session(Stdout(PicoShell.Prompt + (st.cwd + "\n") + PicoShell.Prompt),
                              PicoShell.EndOfInput(st.(status := 0)))
  {
    PwdLine();
    PicoPwdCommand(os, st.env, st.cwd);
    PicoShell.LastLine(os, st, "pwd\n");
    Framed(PicoShell.Prompt, Stdout(st.cwd + "\n"));
  }

  lemma CdLine(dir: string)
    requires IsWord(dir)
    ensures Tokenize("cd " + dir) == ["cd", dir]
  {
    assert IsWord("cd");
    TwoWords("cd", dir);
    assert "cd " + dir == "cd" + " " + dir;
  }

  lemma PicoCdCommand(os: Os, env: Env, cwd: string, dir: string, moved: string)
    requires os.chdir(cwd, dir) == Some(moved)
    ensures PicoShell.ExecuteCommand(os, env, cwd, ["cd", dir]) == PicoShell.Next(Reply(0, Silent), moved)
  {
  }

  /** A successful `cd dir` line prints nothing but the prompt and moves on in the new directory. */
  lemma PicoCdStep(os: Os, env: Env, cwd: string, dir: string, moved: string, rest: seq<string>)
    requires IsWord(dir) && os.chdir(cwd, dir) == Some(moved)
    ensures PicoShell.Run(os, PicoShell.State(env, cwd, 0), ["cd " + dir + "\n"] + rest)
         == PicoShell.Prefixed(Stdout(PicoShell.Prompt), PicoShell.Run(os, PicoShell.State(env, moved, 0), rest))
  {
    CdLine(dir);
    StripTyped("cd " + dir);
    PicoCdCommand(os, env, cwd, dir, moved);
    PicoShell.CommandLine(os, PicoShell.State(env, cwd, 0), "cd " + dir + "\n", rest);
    StdoutThen(PicoShell.Prompt, "");
  }

  lemma PicoCdFailsCommand(os: Os, env: Env, cwd: string, dir: string)
    requires os.chdir(cwd, dir) == None
    ensures PicoShell.ExecuteCommand(os, env, cwd, ["cd", dir])
         == PicoShell.Next(Reply(1, Stderr("cd: /invalid_directory: No such file or directory\n")), cwd)
  {
  }

  /**
   * `cd` into a directory `chdir` refuses: the fixed diagnostic on standard
   * error, the directory unchanged, and the session ends with status 1.
   */
  lemma PicoCdFails(os: Os, env: Env, cwd: string, dir: string)
    requires IsWord(dir) && '\n' !in dir && os.chdir(cwd, dir) == None
    ensures PicoShell.Main(os, env, cwd, Typed(["cd " + dir]))
         == PicoShell.Session(Output(PicoShell.Prompt + "" + PicoShell.Prompt, "cd: /invalid_directory: No such file or directory\n"),
                              PicoShell.EndOfInput(PicoShell.State(env, cwd, 1)))
  {
    assert '\n' !in "cd " + dir;
    OneTypedLine("cd " + dir);
    CdLine(dir);
    PicoCdFailsCommand(os, env, cwd, dir);
    PicoShell.LastLine(os, PicoShell.State(env, cwd, 0), "cd " + dir + "\n");
    Framed(PicoShell.Prompt, Stderr("cd: /invalid_directory: No such file or directory\n"));
  }

  lemma CdPwdChunks(dir: string)
    requires '\n' !in dir
    ensures Chunks(Typed(["cd " + dir, "pwd"])) == ["cd " + dir + "\n"] + ["pwd\n"]
  {
    var l1 := "cd " + dir;
    assert '\n' !in l1;
    ChunksOfTyped([l1, "pwd"]);
    assert "pwd" + "\n" == "pwd\n";
    assert Terminated([l1, "pwd"]) == [l1 + "\n"] + ["pwd\n"];
  }

  /** Output in front of a framed one, regrouped. */
  lemma Regroup(a: string, b: string, c: string, d: string)
    ensures Stdout(a).Then(Stdout(b + c + d)) == Stdout(a + b + c + d)
  {
    StdoutThen(a, b + c + d);
    assert a + (b + c + d) == a + b + c + d;
  }

  /** `cd dir` then `pwd`: the second line prints the directory `chdir` moved to. */
  lemma PicoCdThenPwd(os: Os, env: Env, cwd: string, dir: string, moved: string)
    requires IsWord(dir) && '\n' !in dir
    requires os.chdir(cwd, dir) == Some(moved) && |moved| < MaxPath
    ensures PicoShell.Main(os, env, cwd, Typed(["cd " + dir, "pwd"]))
         == PicoShell.Session(Stdout(PicoShell.Prompt + PicoShell.Prompt + (moved + "\n") + PicoShell.Prompt),
                              PicoShell.EndOfInput(PicoShell.State(env, moved, 0)))
  {
    CdPwdChunks(dir);
    PicoCdStep(os, env, cwd, dir, moved, ["pwd\n"]);
    PicoPwdLast(os, PicoShell.State(env, moved, 0));
    Regroup(PicoShell.Prompt, PicoShell.Prompt, moved + "\n", PicoShell.Prompt);
  }

  // ---------------------------------------------------------------------
  // Nano shell

  lemma IdentifierIsWord(name: string)
    requires IsIdentifier(name)
    ensures IsWord(name) && '=' !in name && '$' !in name && '\n' !in name
  {
    forall i | 0 <= i < |name|
      ensures name[i] != '=' && name[i] != '$' && name[i] != '\n' && !IsSeparator(name[i])
    {
      assert IsIdentChar(name[i]);
    }
  }

  /** `name=value` is one word free of `$` and newlines when the value is. */
  lemma AssignmentWord(name: string, value: string)
    requires IsIdentifier(name) && IsWord(value) && '$' !in value && '\n' !in value
    ensures IsWord(name + "=" + value) && '$' !in name + "=" + value && '\n' !in name + "=" + value
  {
    IdentifierIsWord(name);
    var arg := name + "=" + value;
    forall i | 0 <= i < |arg|
      ensures arg[i] != '$' && arg[i] != '\n' && !IsSeparator(arg[i])
    {
      if i < |name| {
        assert arg[i] == name[i];
      } else if i > |name| {
        assert arg[i] == value[i - |name| - 1];
      }
    }
  }

  lemma AssignmentLineTokens(name: string, value: string)
    requires IsIdentifier(name) && IsWord(value) && '$' !in value && '\n' !in value
    ensures StripNewline(name + "=" + value + "\n") == name + "=" + value
    ensures Tokenize(name + "=" + value) == [name + "=" + value]
  {
    AssignmentWord(name, value);
    StripTyped(name + "=" + value);
    OneWord(name + "=" + value);
  }

  /** A line `name=value` sets the local variable, prints only the prompt and leaves status 0. */
  lemma NanoAssignStep(os: Os, st: NanoShell.State, name: string, value: string, rest: seq<string>)
    requires IsIdentifier(name) && IsWord(value) && '$' !in value && '\n' !in value
    ensures NanoShell.Run(os, st, [name + "=" + value + "\n"] + rest)
         == NanoShell.Prefixed(Stdout(NanoShell.Prompt),
              NanoShell.Run(os, NanoShell.State(SetVariable(st.shell, name, value, false), st.cwd, 0), rest))
  {
    IdentifierIsWord(name);
    AssignmentWord(name, value);
    AssignmentLineTokens(name, value);
    NanoShell.AssignmentLine(os, st.shell, st.cwd, name, value);
    NanoShell.CommandLine(os, st, name + "=" + value + "\n", rest);
    StdoutThen(NanoShell.Prompt, "");
  }

  /** `name=value` alone: two prompts, nothing else printed, status 0, and the variable set but not exported. */
  lemma NanoAssignment(os: Os, env: Env, cwd: string, name: string, value: string)
    requires IsIdentifier(name) && IsWord(value) && '$' !in value && '\n' !in value
    ensures NanoShell.Main(os, env, cwd, Typed([name + "=" + value]))
         == NanoShell.Session(Stdout(NanoShell.Prompt + NanoShell.Prompt),
              NanoShell.EndOfInput(NanoShell.State(Shell(map[name := Variable(value, false)], env), cwd, 0)))
  {
    AssignmentWord(name, value);
    OneTypedLine(name + "=" + value);
    var st := NanoShell.Initial(env, cwd);
    NanoAssignStep(os, st, name, value, []);
    assert [name + "=" + value + "\n"] + [] == [name + "=" + value + "\n"];
    StdoutThen(NanoShell.Prompt, NanoShell.Prompt);
  }

  lemma EchoReferenceTokens(name: string)
    requires IsIdentifier(name)
    ensures Tokenize("echo $" + name) == ["echo", "$" + name]
  {
    IdentifierIsWord(name);
    assert IsWord("$" + name);
    assert IsWord("echo");
    TwoWords("echo", "$" + name);
    assert "echo $" + name == "echo" + " " + ("$" + name);
  }

  /**
   * A line whose substituted first token names a builtin runs that builtin
   * on the substituted tokens.
   */
  lemma NanoBuiltinOnArgs(os: Os, sh: Shell, cwd: string, k: NanoShell.BuiltinKind, argv: seq<string>, args: seq<string>)
    requires |argv| > 0 && SubstituteArgs(sh.vars, argv) == args && NanoShell.BuiltinOf(args[0]) == Some(k)
    ensures NanoShell.ExecuteCommand(os, sh, cwd, argv) == NanoShell.ExecuteBuiltin(os, sh, cwd, k, args)
  {
  }

  /** The builtin names are recognised and hold no `$`. */
  lemma BuiltinWords()
    ensures NanoShell.BuiltinOf("echo") == Some(NanoShell.EchoCmd) && '$' !in "echo"
    ensures NanoShell.BuiltinOf("export") == Some(NanoShell.ExportCmd) && '$' !in "export"
    ensures NanoShell.BuiltinOf("printenv") == Some(NanoShell.PrintenvCmd) && '$' !in "printenv"
  {
  }

  lemma EchoReferenceArgs(vars: Vars, name: string)
    requires IsIdentifier(name)
    ensures SubstituteArgs(vars, ["echo", "$" + name]) == ["echo", Lookup(vars, name)]
  {
    ExpandReference(vars, name);
    assert '$' !in "echo";
  }

  /** `echo $name` runs `echo` with the variable's value (empty when unset) as its one argument. */
  lemma NanoEchoReference(os: Os, sh: Shell, cwd: string, name: string)
    requires IsIdentifier(name)
    ensures NanoShell.ExecuteCommand(os, sh, cwd, ["echo", "$" + name])
         == NanoShell.Next(Reply(0, Stdout(Lookup(sh.vars, name) + "\n")), sh, cwd)
  {
    EchoReferenceArgs(sh.vars, name);
    BuiltinWords();
    NanoBuiltinOnArgs(os, sh, cwd, NanoShell.EchoCmd, ["echo", "$" + name], ["echo", Lookup(sh.vars, name)]);
    EchoOne(Lookup(sh.vars, name));
  }

  /** `echo $name` as the last line: the value and a newline between two prompts. */
  lemma NanoEchoLast(os: Os, st: NanoShell.State, chunk: string, name: string)
    requires IsIdentifier(name) && StripNewline(chunk) == "echo $" + name
    ensures NanoShell.Run(os, st, [chunk])
         == NanoShell.Session(Stdout(NanoShell.Prompt + (Lookup(st.shell.vars, name) + "\n") + NanoShell.Prompt),
                              NanoShell.EndOfInput(st.(status := 0)))
  {
    EchoReferenceTokens(name);
    NanoEchoReference(os, st.shell, st.cwd, name);
    NanoShell.LastLine(os, st, chunk);
    Framed(NanoShell.Prompt, Stdout(Lookup(st.shell.vars, name) + "\n"));
  }

  lemma AssignEchoChunks(name: string, value: string)
    requires IsIdentifier(name) && IsWord(value) && '$' !in value && '\n' !in value
    ensures Chunks(Typed([name + "=" + value, "echo $" + name]))
         == [name + "=" + value + "\n"] + ["echo $" + name + "\n"]
    ensures StripNewline("echo $" + name + "\n") == "echo $" + name
  {
    AssignmentWord(name, value);
    IdentifierIsWord(name);
    assert '\n' !in "echo $" + name;
    ChunksOfTyped([name + "=" + value, "echo $" + name]);
    StripTyped("echo $" + name);
  }

  /**
   * `name=value` then `echo $name`: the second line prints the value just
   * assigned; the variable stays local and the session ends with status 0.
   */
  lemma NanoAssignThenEcho(os: Os, env: Env, cwd: string, name: string, value: string)
    requires IsIdentifier(name) && IsWord(value) && '$' !in value && '\n' !in value
    ensures NanoShell.Main(os, env, cwd, Typed([name + "=" + value, "echo $" + name]))
         == NanoShell.Session(Stdout(NanoShell.Prompt + NanoShell.Prompt + (value + "\n") + NanoShell.Prompt),
              NanoShell.EndOfInput(NanoShell.State(SetVariable(Shell(map[], env), name, value, false), cwd, 0)))
  {
    AssignEchoChunks(name, value);
    var st := NanoShell.Initial(env, cwd);
    NanoAssignStep(os, st, name, value, ["echo $" + name + "\n"]);
    var st' := NanoShell.State(SetVariable(st.shell, name, value, false), cwd, 0);
    NanoEchoLast(os, st', "echo $" + name + "\n", name);
    AssignThenExpand(st.shell, name, value, false);
    ExpandReference(st'.shell.vars, name);
    Regroup(NanoShell.Prompt, NanoShell.Prompt, value + "\n", NanoShell.Prompt);
  }

  /** `echo $name` with `name` never assigned prints an empty line. */
  lemma NanoEchoUnset(os: Os, env: Env, cwd: string, name: string)
    requires IsIdentifier(name)
    ensures NanoShell.Main(os, env, cwd, Typed(["echo $" + name]))
         == NanoShell.Session(Stdout(NanoShell.Prompt + ("" + "\n") + NanoShell.Prompt),
                              NanoShell.EndOfInput(NanoShell.Initial(env, cwd)))
  {
    IdentifierIsWord(name);
    var line := "echo $" + name;
    assert '\n' !in line;
    OneTypedLine(line);
    NanoEchoLast(os, NanoShell.Initial(env, cwd), line + "\n", name);
    assert Lookup(map[], name) == "";
  }

  /** A decimal numeral is one word with no `$` and no newline. */
  lemma DecimalIsWord(n: nat)
    ensures IsWord(Decimal(n)) && '$' !in Decimal(n) && '\n' !in Decimal(n)
  {
    var d := Decimal(n);
    forall i | 0 <= i < |d|
      ensures d[i] != '$' && d[i] != '\n' && !IsSeparator(d[i])
    {
      assert IsDigit(d[i]);
    }
  }

  lemma ExitLineTokens(n: nat)
    ensures Tokenize("exit " + Decimal(n)) == ["exit", Decimal(n)]
  {
    DecimalIsWord(n);
    assert IsWord("exit");
    TwoWords("exit", Decimal(n));
    assert "exit " + Decimal(n) == "exit" + " " + Decimal(n);
  }

  lemma ExitLineOneChunk(n: nat)
    ensures Chunks(Typed(["exit " + Decimal(n)])) == ["exit " + Decimal(n) + "\n"]
    ensures StripNewline("exit " + Decimal(n) + "\n") == "exit " + Decimal(n)
  {
    DecimalIsWord(n);
    assert '\n' !in "exit " + Decimal(n);
    OneTypedLine("exit " + Decimal(n));
  }

  /** `exit n` typed as the last line: one chunk, two tokens, neither with a `$`. */
  lemma ExitLineChunks(n: nat)
    ensures Chunks(Typed(["exit " + Decimal(n)])) == ["exit " + Decimal(n) + "\n"]
    ensures Tokenize(StripNewline("exit " + Decimal(n) + "\n")) == ["exit", Decimal(n)]
  {
    ExitLineTokens(n);
    ExitLineOneChunk(n);
  }

  lemma ExitArgs(vars: Vars, n: nat)
    ensures SubstituteArgs(vars, ["exit", Decimal(n)]) == ["exit", Decimal(n)]
    ensures ExitCode(["exit", Decimal(n)]) == n
  {
    DecimalIsWord(n);
    assert '$' !in "exit";
    ArgsWithoutReferences(vars, ["exit", Decimal(n)]);
    ExitCodeReadsArgument(n, []);
    assert ["exit", Decimal(n)] + [] == ["exit", Decimal(n)];
  }

  /** `exit n`: the farewell, and the process ends with status n; nothing after it is read. */
  lemma NanoExitWithCode(os: Os, env: Env, cwd: string, n: nat)
    ensures NanoShell.Main(os, env, cwd, Typed(["exit " + Decimal(n)]))
         == NanoShell.Session(Stdout(NanoShell.Prompt + Farewell), NanoShell.ExitCalled(n, 0))
  {
    var line := "exit " + Decimal(n) + "\n";
    var st := NanoShell.Initial(env, cwd);
    ExitLineChunks(n);
    ExitArgs(st.shell.vars, n);
    NanoShell.ExitLine(os, st, line, []);
    assert [line] + [] == [line];
  }

  lemma ExportOne(sh: Shell, name: string)
    requires name in sh.vars
    ensures NanoShell.Export(sh, ["export", name]) == (Reply(0, Silent), ExportVariable(sh, name).1)
  {
    assert ["export", name][1..] == [name];
    assert [name][1..] == [];
    assert NanoShell.ExportNames(sh, [name]) == ([], ExportVariable(sh, name).1);
  }

  /** `export name` for a set variable: exported, copied into the environment, nothing printed, status 0. */
  lemma NanoExportCommand(os: Os, sh: Shell, cwd: string, name: string)
    requires IsIdentifier(name) && name in sh.vars
    ensures NanoShell.ExecuteCommand(os, sh, cwd, ["export", name])
         == NanoShell.Next(Reply(0, Silent), ExportVariable(sh, name).1, cwd)
  {
    IdentifierIsWord(name);
    BuiltinWords();
    ArgsWithoutReferences(sh.vars, ["export", name]);
    NanoBuiltinOnArgs(os, sh, cwd, NanoShell.ExportCmd, ["export", name], ["export", name]);
    ExportOne(sh, name);
  }

  lemma ExportLineTokens(name: string)
    requires IsIdentifier(name)
    ensures StripNewline("export " + name + "\n") == "export " + name
    ensures Tokenize("export " + name) == ["export", name]
  {
    IdentifierIsWord(name);
    StripTyped("export " + name);
    assert IsWord("export");
    TwoWords("export", name);
    assert "export " + name == "export" + " " + name;
  }

  lemma NanoExportStep(os: Os, st: NanoShell.State, name: string, rest: seq<string>)
    requires IsIdentifier(name) && name in st.shell.vars
    ensures NanoShell.Run(os, st, ["export " + name + "\n"] + rest)
         == NanoShell.Prefixed(Stdout(NanoShell.Prompt),
              NanoShell.Run(os, NanoShell.State(ExportVariable(st.shell, name).1, st.cwd, 0), rest))
  {
    ExportLineTokens(name);
    NanoExportCommand(os, st.shell, st.cwd, name);
    NanoShell.CommandLine(os, st, "export " + name + "\n", rest);
    StdoutThen(NanoShell.Prompt, "");
  }

  lemma NanoPrintenvCommand(os: Os, sh: Shell, cwd: string)
    ensures NanoShell.ExecuteCommand(os, sh, cwd, ["printenv"])
         == NanoShell.Next(Reply(0, Stdout(os.listEnv(sh.env))), sh, cwd)
  {
    BuiltinWords();
    ArgsWithoutReferences(sh.vars, ["printenv"]);
    NanoBuiltinOnArgs(os, sh, cwd, NanoShell.PrintenvCmd, ["printenv"], ["printenv"]);
  }

  lemma PrintenvLine()
    ensures StripNewline("printenv\n") == "printenv"
    ensures Tokenize("printenv") == ["printenv"]
  {
    OneWord("printenv");
  }

  /** `printenv` as the last line lists the environment the shell holds. */
  lemma NanoPrintenvLast(os: Os, st: NanoShell.State, chunk: string)
    requires Tokenize(StripNewline(chunk)) == ["printenv"]
    ensures NanoShell.Run(os, st, [chunk])
         == NanoShell.Session(Stdout(NanoShell.Prompt + os.listEnv(st.shell.env) + NanoShell.Prompt),
                              NanoShell.EndOfInput(st.(status := 0)))
  {
    assert StripNewline(chunk) != [];
    NanoPrintenvCommand(os, st.shell, st.cwd);
    NanoShell.LastLine(os, st, chunk);
    Framed(NanoShell.Prompt, Stdout(os.listEnv(st.shell.env)));
  }

  lemma ExportSessionChunks(name: string, value: string)
    requires IsIdentifier(name) && IsWord(value) && '$' !in value && '\n' !in value
    ensures Chunks(Typed([name + "=" + value, "export " + name, "printenv"]))
         == [name + "=" + value + "\n"] + (["export " + name + "\n"] + ["printenv\n"])
  {
    AssignmentWord(name, value);
    IdentifierIsWord(name);
    assert '\n' !in "export " + name;
    ChunksOfTyped([name + "=" + value, "export " + name, "printenv"]);
    assert "printenv" + "\n" == "printenv\n";
  }

  lemma Nest(p: string, x: string)
    ensures Stdout(p).Then(Stdout(p).Then(Stdout(p + x + p))) == Stdout(p + p + p + x + p)
  {
    StdoutThen(p, p + x + p);
    StdoutThen(p, p + (p + x + p));
    assert p + (p + (p + x + p)) == p + p + p + x + p;
  }

  /** After `name=value` and `export name`, the environment holds the value under that name. */
  lemma ExportedEnv(env: Env, name: string, value: string)
    requires IsIdentifier(name)
    ensures ExportVariable(SetVariable(Shell(map[], env), name, value, false), name).1.env == env[name := value]
  {
    IdentifierIsWord(name);
  }

  /**
   * `name=value`, `export name`, `printenv`: the exported variable reaches
   * the environment `printenv` lists, with the value that was assigned.
   */
  lemma NanoExportThenPrintenv(os: Os, env: Env, cwd: string, name: string, value: string)
    requires IsIdentifier(name) && IsWord(value) && '$' !in value && '\n' !in value
    ensures NanoShell.Main(os, env, cwd, Typed([name + "=" + value, "export " + name, "printenv"])).output
         == Stdout(NanoShell.Prompt + NanoShell.Prompt + NanoShell.Prompt + os.listEnv(env[name := value]) + NanoShell.Prompt)
  {
    ExportSessionChunks(name, value);
    var st := NanoShell.Initial(env, cwd);
    NanoAssignStep(os, st, name, value, ["export " + name + "\n"] + ["printenv\n"]);
    var sh1 := SetVariable(st.shell, name, value, false);
    NanoExportStep(os, NanoShell.State(sh1, cwd, 0), name, ["printenv\n"]);
    var sh2 := ExportVariable(sh1, name).1;
    ExportedEnv(env, name, value);
    PrintenvLine();
    NanoPrintenvLast(os, NanoShell.State(sh2, cwd, 0), "printenv\n");
    Nest(NanoShell.Prompt, os.listEnv(env[name := value]));
  }
}
