/**
 * The operating system as seen by the shells. Every system call the
 * shells make is answered by a field of `Os`; the model never looks
 * behind them.
 */
module Oracle {
  import opened Wrappers
  import opened Process

  /** The process environment (`environ`), keyed by variable name. */
  type Env = map<string, string>

  datatype Os = Os(
    /** `chdir(arg)` issued from directory `cwd`: the new working directory, or None when it fails. */
    chdir: (string, string) -> Option<string>,
    /** `fork` + `execvp(argv)` + `waitpid` from directory `cwd` with environment `env`. */
    spawn: (seq<string>, Env, string) -> Spawn,
    /** The lines `printenv` writes for `env`, in the order the C library keeps `environ`. */
    listEnv: Env -> string)

  /** An operating system whose children only ever end with values the kernel can report. */
  ghost predicate WellFormedOs(os: Os)
  {
    forall argv, env, cwd :: WellFormedSpawn(os.spawn(argv, env, cwd))
  }

  /** Size of the buffer handed to `getcwd` by `pwd`. */
  const MaxPath := 4096

  /** `getcwd(buf, MaxPath)`: fails (ERANGE) when the path and its NUL do not fit. */
  function GetCwd(cwd: string): (r: Option<string>)
    ensures r.Some? <==> |cwd| < MaxPath
    ensures r.Some? ==> r.value == cwd
  {
    if |cwd| + 1 <= MaxPath then Some(cwd) else None
  }
}
