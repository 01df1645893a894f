# Pico shell and nano shell: a Dafny model

This project models the command-processing core of two small interactive
shells written in C:

- **picoshell** (`06-picoshell/picoshell.c`). It prints a prompt and reads a
  line with `fgets`, then drops the trailing newline. It splits the line on
  spaces and tabs. It runs one of four builtins (`exit`, `cd`, `pwd`, `echo`)
  or forks and execs an external program, and keeps the last status as the
  value the loop returns.
- **nanoshell** (`07-nanoshell/nanoshell.c`). It is the same loop plus shell
  variables:
  - a variable store with local and exported variables, mirrored into the
    process environment;
  - `$name` substitution in every token before the command is classified;
  - `name=value` assignments;
  - the builtins `export` and `printenv`.

Everything is pure functions over immutable data:

| module | file | what it holds |
|---|---|---|
| `Wrappers` | `wrappers.dfy` | the `Option` type |
| `Text` | `text.dfy` | string helpers |
| `Tokenizer` | `tokenizer.dfy` | `strtok` splitting and the 1023-token cap |
| `LineInput` | `input.dfy` | `fgets` chunks and newline stripping |
| `Numbers` | `numbers.dfy` | `atoi` |
| `Streams` | `streams.dfy` | standard output and standard error as two strings, and a command's `Reply` (status plus output) |
| `Process` | `process.dfy` | fork/exec/wait and the wait-status macros |
| `Oracle` | `oracle.dfy` | the operating system, as a record of functions |
| `VariableStore` | `store.dfy` | the nano shell's variable list |
| `Substitution` | `substitution.dfy` | `$name` expansion |
| `Assignment` | `assignment.dfy` | `parse_assignment` |
| `Builtins` | `builtins.dfy` | `exit`, `pwd` and `echo`, which both shells implement the same way |
| `PicoShell` | `picoshell.dfy` | the pico shell's command dispatch and read loop |
| `NanoShell` | `nanoshell.dfy` | the nano shell's command dispatch and read loop |
| `ShellDifferences` | `differences.dfy` | where the two shells behave differently |
| `Sessions` | `sessions.dfy` | whole sessions from input text to output and exit status, one per scenario of the repository's tests |

The operating system is a value `Os` with three fields:

- `chdir`: the directory `chdir` moves to, or failure;
- `spawn`: what `fork` + `execvp` + `waitpid` report for a program;
- `listEnv`: the text `printenv` writes for an environment.

The model never looks behind them. A session is a function from the text on
standard input to:

- the text written to each stream;
- how the session ends: end of input with the last status, or `exit` with a
  code.

Some of the C behaviour is easy to miss, and the model follows the code
exactly:

- A line of only spaces and tabs produces no token. The nano shell then sets
  the status to 0 (`nanoshell.c:389`). The pico shell sets it to 1
  (`picoshell.c:137`). Neither keeps the previous status.
- The nano shell treats a line as an assignment when ANY token contains `=`
  and the first token is not a builtin (`nanoshell.c:168-171`). The line then
  fails with "Invalid command" unless it has exactly one token
  (`nanoshell.c:307-310`).
- `cd` with no argument succeeds in the nano shell (`nanoshell.c:236`) and
  fails with "cd: missing argument" in the pico shell (`picoshell.c:69-72`).
  With several arguments, the nano shell fails and the pico shell uses the
  first argument and ignores the rest.

## Model

| member | source | states |
|---|---|---|
| Tokenizer.Tokenize | 06-picoshell/picoshell.c:44-55 | the tokens are the first words of the line, in order; every token is a non-empty run free of spaces and tabs; a line with fewer than 1024 words keeps them all, and a longer one keeps exactly its first 1023 |
| Tokenizer.Words | 06-picoshell/picoshell.c:46-51 | every word `strtok` returns is non-empty and free of separators |
| Tokenizer.WordsCoverLine | 06-picoshell/picoshell.c:46-51 | the words, concatenated, are exactly the line with every space and tab deleted, in order |
| Tokenizer.BlankIffNoWords | 06-picoshell/picoshell.c:44-55 | a line yields no token if and only if it is made only of spaces and tabs |
| Tokenizer.WordsOfJoin | 06-picoshell/picoshell.c:44-55 | round trip: words joined with single spaces tokenize back to the same words |
| Tokenizer.WordThenBlank | 06-picoshell/picoshell.c:46-51 | a run of separators of any length after a word only ends that word |
| Tokenizer.WordsSkipBlank | 06-picoshell/picoshell.c:46 | leading spaces and tabs produce no token |
| LineInput.Chunks | 06-picoshell/picoshell.c:32 | the successive `fgets` results add up to the whole input; each is non-empty and holds a newline only as its last character; every chunk but the last ends in a newline |
| LineInput.StripNewline | 06-picoshell/picoshell.c:36-39 | exactly one trailing newline is removed, and only when present; the resulting line holds no newline |
| LineInput.ReadTypedLines | 06-picoshell/picoshell.c:28-42 | round trip: typed lines (free of newlines) read back, one per call, as exactly those lines |
| LineInput.ChunksOfTyped | 06-picoshell/picoshell.c:32 | typed lines come back from `fgets` one per call, each with its newline |
| Numbers.Atoi | 06-picoshell/picoshell.c:61 | `atoi` of text that does not start (after white space) with a digit or a sign is 0 |
| Numbers.AtoiOfDecimal | 06-picoshell/picoshell.c:61 | round trip: `atoi` reads back the decimal rendering of any natural number, with or without a leading minus |
| Builtins.ExitCodeReadsArgument | 06-picoshell/picoshell.c:57-66 | `exit` alone ends with status 0; `exit n` ends with n; arguments after the first are ignored |
| Builtins.Pwd | 06-picoshell/picoshell.c:82-92 | succeeds exactly when the path and its NUL fit the 4096-entry buffer (characters standing for bytes), printing the path and a newline; otherwise status 1 and nothing printed |
| Builtins.Echo | 06-picoshell/picoshell.c:94-104 | status 0, nothing on standard error; prints the arguments after the command name separated by single spaces, then a newline; with no argument a lone newline |
| Builtins.EchoLoop | 06-picoshell/picoshell.c:94-104 | the `for` loop as written (each argument, a space unless it is the last, then a newline) prints exactly what `Echo` states |
| Text.JoinSpacesSnoc | 06-picoshell/picoshell.c:96-101 | one more argument adds exactly one space and that argument at the end of what `echo` prints |
| Text.JoinSpacesLength | 06-picoshell/picoshell.c:96-101 | the joined arguments hold every character of the arguments plus exactly one space between neighbours |
| Builtins.EchoRoundTrip | 06-picoshell/picoshell.c:94-104 | round trip with the tokenizer: what `echo` prints, without its newline, tokenizes back to its arguments |
| Oracle.GetCwd | 06-picoshell/picoshell.c:84-86 | `getcwd` into the 4096-entry buffer succeeds exactly when the path is shorter than 4096 characters, and then returns the path |
| Process.ExecuteProgram | 06-picoshell/picoshell.c:106-134 | fork failure and `waitpid` failure give status 1; a program `execvp` cannot start gives 127 and "name: command not found"; otherwise the wait status is translated through the macros and is always below 256 |
| Process.DecodeEncode | 06-picoshell/picoshell.c:126-133 | round trip: decoding the status word the kernel lays out for an outcome gives that outcome back |
| Process.TranslateRawAgrees | 06-picoshell/picoshell.c:126-133 | the `WIFEXITED`/`WIFSIGNALED` cascade on the raw status word computes the exit code, 128 + signal, or 1, the same as the decoded outcome |
| Process.TranslateRange | 06-picoshell/picoshell.c:126-133 | a translated status lies in 0..255; a signal gives 129..254; a status of 128 or less comes from a normal exit or is 1 |
| PicoShell.CommandTypeOf | 06-picoshell/picoshell.c:20-26 | a recognised builtin is the one whose name is the command |
| PicoShell.BuiltinNames | 06-picoshell/picoshell.c:20-26 | exactly `exit`, `cd`, `pwd` and `echo` are builtins, each recognised by its own name |
| PicoShell.Cd | 06-picoshell/picoshell.c:68-80 | fails with "cd: missing argument" without an argument; otherwise fails exactly when `chdir` on the first argument fails, then printing "cd: /invalid_directory: No such file or directory" on standard error; on failure the directory is unchanged, on success it is the one `chdir` moved to |
| PicoShell.ExecuteCommand | 06-picoshell/picoshell.c:136-160 | no token gives status 1; the process ends exactly when the first token is `exit`; `cd`, `pwd` and `echo` run the builtins `Cd`, `Pwd` and `Echo` on all tokens, with `cd`'s new directory carried on; any other name goes to `execute_program` with all tokens |
| PicoShell.StepStatusFits | 06-picoshell/picoshell.c:136-160 | when the operating system reports only well-formed outcomes, every command that does not end the process leaves a status in 0..255 |
| PicoShell.Run | 06-picoshell/picoshell.c:162-176 | `exit` leaves at least that line read; input of only empty lines ends with the starting state; the environment is never changed |
| PicoShell.FinalStatusFits | 06-picoshell/picoshell.c:162-176 | when the operating system reports only well-formed outcomes, the status returned at end of input lies in 0..255 |
| PicoShell.PromptFirst | 06-picoshell/picoshell.c:28-30 | every session's output starts with the prompt, whatever the input |
| PicoShell.EmptyLineSkipped | 06-picoshell/picoshell.c:170 | an empty line prints only the prompt and keeps the status |
| PicoShell.BlankLineFails | 06-picoshell/picoshell.c:137 | a line of spaces and tabs prints only the prompt and sets the status to 1 |
| PicoShell.CommandLine | 06-picoshell/picoshell.c:168-173 | a command line runs once, its output follows the prompt, and its status and directory carry over to the next line |
| PicoShell.LastLine | 06-picoshell/picoshell.c:168-175 | after the last command line comes one more prompt, and the loop returns that command's status |
| PicoShell.RunQuits | 06-picoshell/picoshell.c:64-65 | a line whose command ends the process stops the session there, with the remaining chunks unread |
| PicoShell.ExitLine | 06-picoshell/picoshell.c:57-66 | `exit` prints the prompt then "Good Bye" and ends with the code `exit` computes |
| PicoShell.ExitStopsReading | 06-picoshell/picoshell.c:65 | what follows an `exit` line never changes the output |
| PicoShell.EndOfInputStatus | 06-picoshell/picoshell.c:166-175 | at end of input the loop returns the status it holds, 0 when the input is empty |
| VariableStore.GetVariable | 07-nanoshell/nanoshell.c:52-61 | a value exactly when the name is set |
| VariableStore.SetVariable | 07-nanoshell/nanoshell.c:24-50 | the name reads back as the value; no other variable changes; the exported flag is set by the call or kept from before, never cleared; the environment is updated exactly when the variable ends up exported |
| VariableStore.ExportVariable | 07-nanoshell/nanoshell.c:63-74 | succeeds exactly when the name is set, and then marks it exported and copies its value into the environment; an unknown name changes nothing |
| VariableStore.SetKeepsConsistent | 07-nanoshell/nanoshell.c:24-50 | setting keeps every exported variable's value equal to the environment's |
| VariableStore.GetAfterSet | 07-nanoshell/nanoshell.c:24-61 | after a set, reading the name gives the new value and every other name gives what it gave before |
| VariableStore.ExportKeepsConsistent | 07-nanoshell/nanoshell.c:63-74 | exporting keeps the store consistent with the environment, and the exported value is then in the environment |
| VariableStore.ExportIdempotent | 07-nanoshell/nanoshell.c:63-74 | exporting twice is the same as exporting once |
| Substitution.IdentLength | 07-nanoshell/nanoshell.c:88-90 | the name after `$` is the longest run of letters, digits and `_` |
| Substitution.Substitute | 07-nanoshell/nanoshell.c:76-120 | a token without `$` is unchanged |
| Substitution.SubstituteArgs | 07-nanoshell/nanoshell.c:122-128 | every token is substituted on its own and the count is kept |
| Substitution.SubstituteConcat | 07-nanoshell/nanoshell.c:82-117 | substitution distributes over concatenation when the right part cannot extend a name the left part ends with |
| Substitution.ExpandReference | 07-nanoshell/nanoshell.c:93-104 | `$name` expands to the variable's value, and to nothing when it is unset |
| Substitution.ExpandInContext | 07-nanoshell/nanoshell.c:82-117 | a reference inside a token is replaced by the value verbatim, and the value is never expanded again |
| Substitution.LiteralDollar | 07-nanoshell/nanoshell.c:105-110 | a `$` with no name after it, including a trailing one, is copied literally |
| Substitution.AssignThenExpand | 07-nanoshell/nanoshell.c:98 | round trip with the store: after setting `name`, `$name` yields exactly the value set |
| Substitution.AsWrittenAgrees | 07-nanoshell/nanoshell.c:94-96 | when every name fits `varname`, the code as written computes the intended substitution |
| Substitution.NameOverflow | 07-nanoshell/nanoshell.c:94-96 | a name of 256 characters overflows `varname`, while the intended result exists |
| Assignment.IndexOf | 07-nanoshell/nanoshell.c:297 | `strchr` finds the first occurrence of the character, or none exactly when it is absent |
| Assignment.ParseAssignment | 07-nanoshell/nanoshell.c:296-304 | succeeds exactly when the argument contains `=` and does not start with it; splits at the first `=`, so name, `=` and value rebuild the argument |
| Assignment.ParseJoined | 07-nanoshell/nanoshell.c:296-304 | round trip: any non-empty name free of `=`, joined to any value, parses back to that name and value |
| NanoShell.BuiltinOf | 07-nanoshell/nanoshell.c:176-184 | a recognised builtin is the one whose name is the command |
| NanoShell.BuiltinNames | 07-nanoshell/nanoshell.c:157-166 | exactly the six builtin names are recognised, each as its own builtin |
| NanoShell.AnyEquals | 07-nanoshell/nanoshell.c:168-171 | the loop finds an `=` exactly when some token from that index on contains one |
| NanoShell.CommandTypeOf | 07-nanoshell/nanoshell.c:157-174 | a builtin name wins; otherwise any token containing `=` makes an assignment; otherwise it is a program |
| NanoShell.ExecuteSetvar | 07-nanoshell/nanoshell.c:306-327 | succeeds exactly for a single token that parses; then it sets an unexported variable; otherwise "Invalid command" and the store is untouched; store consistency is kept |
| NanoShell.Cd | 07-nanoshell/nanoshell.c:229-242 | more than one argument fails with "cd: too many argument"; one argument fails exactly when `chdir` fails, then printing "cd: /invalid_directory: No such file or directory" on standard error; no argument succeeds and stays put |
| NanoShell.ExportNames | 07-nanoshell/nanoshell.c:274-279 | exactly the named variables that are set become exported; values and names are unchanged; no message is printed exactly when every name is set |
| NanoShell.ExportMessages | 07-nanoshell/nanoshell.c:274-279 | the text printed is one "export: name not found" line per unknown name, in argument order, and nothing for a name that is set |
| NanoShell.ExportEnvFrame | 07-nanoshell/nanoshell.c:274-279 | only given names that are set and that `setenv` accepts can appear in or change the environment; every other entry keeps its value, including the entry of a given name that is unset or that `setenv` rejects |
| NanoShell.ExportEnvMirror | 07-nanoshell/nanoshell.c:274-279 | each given name that is set, and that `setenv` accepts, ends up in the environment holding its stored value |
| NanoShell.Export | 07-nanoshell/nanoshell.c:268-282 | fails only without an argument; otherwise status 0, even when some names are unknown |
| NanoShell.Printenv | 07-nanoshell/nanoshell.c:284-294 | fails exactly when given an argument, then printing only "printenv: this command takes no arguments" on standard error; otherwise status 0 and the environment listed on standard output |
| NanoShell.ExecuteBuiltin | 07-nanoshell/nanoshell.c:359-384 | only `exit` ends the process; `cd`, `pwd`, `echo`, `export` and `printenv` run `Cd`, `Pwd`, `Echo`, `Export` and `Printenv` on the tokens; no builtin removes a variable or clears an exported flag; store consistency is kept |
| NanoShell.ExecuteCommand | 07-nanoshell/nanoshell.c:386-411 | no token gives status 0; otherwise the tokens are substituted first and the substituted tokens decide: a builtin runs `ExecuteBuiltin`, an assignment runs `ExecuteSetvar`, anything else goes to `execute_program`; the process ends exactly when the first token substitutes to `exit`; the store only grows and stays consistent |
| NanoShell.InvalidAssignmentLine | 07-nanoshell/nanoshell.c:306-310 | a line of several tokens, not starting with a builtin, with `=` in any substituted token fails with "Invalid command" and status 1, the store and directory unchanged |
| NanoShell.StepStatusFits | 07-nanoshell/nanoshell.c:386-411 | when the operating system reports only well-formed outcomes, every command that does not end the process leaves a status in 0..255 |
| NanoShell.Initial | 07-nanoshell/nanoshell.c:413-418 | the shell starts with a consistent store and status 0 |
| NanoShell.Run | 07-nanoshell/nanoshell.c:413-431 | `exit` leaves at least that line read; input of only empty lines ends with the starting state; at end of input the store has only grown and is still consistent |
| NanoShell.FinalStatusFits | 07-nanoshell/nanoshell.c:413-431 | when the operating system reports only well-formed outcomes, the status returned at end of input lies in 0..255 |
| NanoShell.PromptFirst | 07-nanoshell/nanoshell.c:186-189 | every session's output starts with the prompt, whatever the input |
| NanoShell.EmptyLineSkipped | 07-nanoshell/nanoshell.c:419 | an empty line prints only the prompt and keeps the status |
| NanoShell.BlankLineSucceeds | 07-nanoshell/nanoshell.c:389 | a line of spaces and tabs prints only the prompt and sets the status to 0 |
| NanoShell.CommandLine | 07-nanoshell/nanoshell.c:418-428 | a command line runs once, its output follows the prompt, and its status, store and directory carry over to the next line |
| NanoShell.AssignmentLine | 07-nanoshell/nanoshell.c:398-404 | a single token `name=value` without `$` sets a local variable, prints nothing and gives status 0 |
| NanoShell.SetvarLine | 07-nanoshell/nanoshell.c:168-171 | a single token `name=value` is classified as an assignment |
| NanoShell.SetvarAssigns | 07-nanoshell/nanoshell.c:315-321 | the assignment stores the name and value the token splits into |
| NanoShell.LastLine | 07-nanoshell/nanoshell.c:418-430 | after the last command line comes one more prompt, and the loop returns that command's status |
| NanoShell.RunQuits | 07-nanoshell/nanoshell.c:225-226 | a line whose command ends the process stops the session there, with the remaining chunks unread |
| NanoShell.ExitLine | 07-nanoshell/nanoshell.c:217-227 | `exit` prints the prompt then "Good Bye" and ends with the code read from the substituted tokens |
| NanoShell.ExitStopsReading | 07-nanoshell/nanoshell.c:226 | what follows an `exit` line never changes the output |
| NanoShell.EndOfInputStatus | 07-nanoshell/nanoshell.c:417-430 | at end of input the loop returns the status it holds, 0 when the input is empty |
| ShellDifferences.BuiltinSets | 07-nanoshell/nanoshell.c:159-164 | the nano shell knows every pico builtin, and differs exactly by `export` and `printenv` |
| ShellDifferences.CdDiffers | 07-nanoshell/nanoshell.c:229-242 | with one argument both shells' `cd` agree; with none the nano shell succeeds and the pico shell fails; with several the nano shell fails and the pico shell ignores the extra arguments |
| ShellDifferences.NoTokenDiffers | 07-nanoshell/nanoshell.c:389 | an empty token list gives status 0 in the nano shell and status 1 in the pico shell |
| ShellDifferences.AssignmentOnlyInNano | 07-nanoshell/nanoshell.c:398-404 | `name=value` sets a variable in the nano shell but is run as a program by the pico shell |
| Sessions.PicoEmptyLines | 06-picoshell/tests.cpp:180-192 | pressing Enter three times prints four prompts and ends with status 0 |
| Sessions.PicoEchoCollapsesBlanks | 06-picoshell/tests.cpp:194-205 | `echo` with any runs of blanks between two words prints them separated by one space, between two prompts, status 0 |
| Sessions.PicoExit | 06-picoshell/tests.cpp:207-218 | `exit` prints one prompt and "Good Bye", and the process ends with status 0 |
| Sessions.PicoUnknownCommand | 06-picoshell/tests.cpp:220-231 | an unknown command prints "name: command not found" on standard error between two prompts and ends with status 127 |
| Sessions.PicoPwdLast | 06-picoshell/tests.cpp:306-320 | `pwd` prints the working directory between two prompts and ends with status 0, whatever status the session held before |
| Sessions.PicoCdThenPwd | 06-picoshell/tests.cpp:423-434 | `cd dir` then `pwd` prints the directory `chdir` moved to, after two prompts |
| Sessions.PicoCdFails | 06-picoshell/tests.cpp:436-447 | `cd` to a directory `chdir` refuses prints the diagnostic between two prompts, keeps the directory and ends with status 1 |
| Sessions.NanoAssignment | 08-microshell/tests.cpp:533-544 | `name=value` alone prints two prompts, ends with status 0, and leaves the variable set but not exported |
| Sessions.NanoAssignThenEcho | 08-microshell/tests.cpp:546-557 | `name=value` then `echo $name` prints the value after two prompts, status 0 |
| Sessions.NanoEchoUnset | 08-microshell/tests.cpp:572-583 | `echo $name` for an unset name prints an empty line |
| Sessions.NanoExportThenPrintenv | 08-microshell/tests.cpp:598-609 | after `name=value` and `export name`, `printenv` lists an environment holding `name` with that value |
| Sessions.NanoEchoReference | 07-nanoshell/nanoshell.c:386-411 | `echo $name` runs `echo` with the variable's value as its one argument |
| Sessions.NanoExitWithCode | 07-nanoshell/nanoshell.c:217-227 | `exit n` prints one prompt and "Good Bye", and `exit` is called with n |

## Left out

- Operating-system calls are parameters. `chdir`, `fork`/`execvp`/`waitpid`
  and the contents of `environ` come from the `Os` record. The record is
  fixed for a whole session, so a program that changes files between
  commands is not modelled.
- `fgets` buffer size: chunks are split only at newlines. `fgets` into the
  10240-byte buffer reads at most 10239 bytes per call, so a line of 10239
  or more characters before its newline arrives in pieces. That is not
  modelled.
- Numbers.Atoi: integers are unbounded, so `atoi` overflow is not modelled.
  The truncation of the exit code to 8 bits by the kernel is not modelled
  either.
- The order of `printenv`'s lines: `Os.listEnv` decides it.
- Standard output and standard error are two separate strings. Their
  interleaving on a shared terminal is not modelled.
- `getcwd` can fail only because the path does not fit the buffer. Other
  failures, such as a removed directory, are not modelled.
- Oracle.GetCwd: strings are sequences of characters, not of bytes. The fit
  test counts characters, while `getcwd` counts bytes. A path with multibyte
  characters that is shorter than 4096 characters but 4096 bytes or longer
  succeeds in the model and fails in C.
- Builtins.Pwd: it inherits the character-for-byte simplification of
  `Oracle.GetCwd`. A long multibyte path prints in the model where the C
  code returns status 1.
- LineInput.StripNewline: a NUL character in an input line is an ordinary
  character in the model. In C it ends the string for `strlen` and
  `strtok`, so the rest of the line is ignored.
- Children never read the session's input. An external program inherits
  the shell's standard input, and a program such as `cat` could consume
  lines the shell would otherwise read. The model always hands the next
  line to the shell.
- Exit statuses are bounded only for a well-formed operating system.
  `PicoShell.FinalStatusFits` and `NanoShell.FinalStatusFits` state the
  0..255 bound under `Oracle.WellFormedOs`. `Run` itself accepts any
  oracle, and a malformed one can report a status such as 1000.
- NanoShell.Cd: with no argument the code still calls `chdir(NULL)`, because
  the bitwise `&` evaluates both operands. Its result is then masked by
  `(argc == 2)`, which is 0, so it cannot change the status. The model does
  not include that call.
- Memory management is not modelled: `malloc`, `realloc`, `strdup`, `free`,
  `free_variables`, and the token strings that `substitute_args` leaks.
- The commented-out `main` functions and debugging `printf`s are not
  modelled.
- The standalone `pwd`, `echo` and `mv` programs are not part of this model.
  The microshell is not part of this model either; only its tests are cited,
  for the variable scenarios the nano shell shares.

## Findings

| source | as written | input that shows it | evidently intended | confidence | as-written member | corrected member |
|---|---|---|---|---|---|---|
| 07-nanoshell/nanoshell.c:94-96 | The name after `$` is copied into `char varname[256]` with no length check, and the NUL is written at `varname[var_len]`. | A token `$` followed by 256 letters, digits or `_`: the `strncpy` still fits, but the NUL store lands one past the end; from 257 characters the copy overflows as well. | Names of any length expand to the variable's value (empty when unset). | not executed | Substitution.NameOverflow | Substitution.Substitute |

`Substitution.SubstituteAsWritten` models the code as written. It yields
`None` where a name overflows `varname`, and `Substitution.NameOverflow`
exhibits such an input. `Substitution.Substitute` is the intended
behaviour, with no length limit, and the rest of the model uses it.
`Substitution.AsWrittenAgrees` proves that the two agree whenever every
name fits, so the corrected definition changes nothing for names of 255
characters or fewer.
