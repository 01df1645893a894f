/**
 * The nano shell's variable list (`set_variable`, `get_variable`,
 * `export_variable`). The linked list with unique names becomes a map from
 * name to (value, exported); its order is never observable. Exported
 * variables are mirrored into the process environment.
 */
module VariableStore {
  import opened Wrappers
  import opened Oracle

  datatype Variable = Variable(value: string, exported: bool)

  type Vars = map<string, Variable>

  /** The shell's variables together with the process environment they mirror into. */
  datatype Shell = Shell(vars: Vars, env: Env)

  /** Names `setenv` accepts: non-empty and free of `=` (otherwise it fails with EINVAL). */
  predicate ValidEnvName(name: string)
  {
    |name| > 0 && '=' !in name
  }

  /** `setenv(name, value, 1)`. */
  function SetEnv(env: Env, name: string, value: string): Env
  {
    if ValidEnvName(name) then env[name := value] else env
  }

  /**
   * The store invariant: every name could be handed to `setenv`, and every
   * exported variable's value is the environment's value for that name.
   */
  predicate Consistent(sh: Shell)
  {
    forall n :: n in sh.vars ==>
      ValidEnvName(n) && (sh.vars[n].exported ==> n in sh.env && sh.env[n] == sh.vars[n].value)
  }

  /** No variable disappears, and no exported flag is ever cleared. */
  predicate Grows(before: Vars, after: Vars)
  {
    forall n :: n in before ==> n in after && (before[n].exported ==> after[n].exported)
  }

  /** `get_variable`: the value of `name`, or None (NULL) when it is not set. */
  function GetVariable(vars: Vars, name: string): (r: Option<string>)
    ensures r.Some? <==> name in vars
  {
    if name in vars then Some(vars[name].value) else None
  }

  /**
   * `set_variable`: overwrite or insert `name`. The exported flag only goes
   * from false to true; when the variable ends up exported its new value
   * is pushed into the environment, otherwise the environment is untouched.
   */
  function SetVariable(sh: Shell, name: string, value: string, exported: bool): (sh': Shell)
    ensures GetVariable(sh'.vars, name) == Some(value)
    ensures sh'.vars[name].exported == (exported || (name in sh.vars && sh.vars[name].exported))
    ensures sh'.vars.Keys == sh.vars.Keys + {name}
    ensures forall n :: n in sh.vars && n != name ==> sh'.vars[n] == sh.vars[n]
    ensures Grows(sh.vars, sh'.vars)
    ensures sh'.vars[name].exported ==> sh'.env == SetEnv(sh.env, name, value)
    ensures !sh'.vars[name].exported ==> sh'.env == sh.env
  {
    var flag := exported || (name in sh.vars && sh.vars[name].exported);
    Shell(sh.vars[name := Variable(value, flag)], if flag then SetEnv(sh.env, name, value) else sh.env)
  }

  /**
   * `export_variable`: true exactly when `name` is set; then the variable is
   * marked exported and its value copied into the environment. An unknown
   * name changes nothing.
   */
  function ExportVariable(sh: Shell, name: string): (r: (bool, Shell))
    ensures r.0 <==> name in sh.vars
    ensures !r.0 ==> r.1 == sh
    ensures r.0 ==> r.1.vars == sh.vars[name := Variable(sh.vars[name].value, true)]
    ensures r.0 ==> r.1.env == SetEnv(sh.env, name, sh.vars[name].value)
    ensures Grows(sh.vars, r.1.vars)
  {
    if name in sh.vars then
      var v := sh.vars[name];
      (true, Shell(sh.vars[name := Variable(v.value, true)], SetEnv(sh.env, name, v.value)))
    else (false, sh)
  }

  /** A set keeps the store consistent as long as the name is one `setenv` accepts. */
  lemma SetKeepsConsistent(sh: Shell, name: string, value: string, exported: bool)
    requires Consistent(sh) && ValidEnvName(name)
    ensures Consistent(SetVariable(sh, name, value, exported))
  {
    var sh' := SetVariable(sh, name, value, exported);
    forall n | n in sh'.vars
      ensures ValidEnvName(n) && (sh'.vars[n].exported ==> n in sh'.env && sh'.env[n] == sh'.vars[n].value)
    {
      if n != name && sh'.vars[n].exported {
        assert sh.vars[n] == sh'.vars[n];
      }
    }
  }

  /** Reading back: a set is visible to `get_variable`, and only for that name. */
  lemma GetAfterSet(sh: Shell, name: string, value: string, exported: bool, other: string)
    ensures GetVariable(SetVariable(sh, name, value, exported).vars, name) == Some(value)
    ensures other != name ==>
      GetVariable(SetVariable(sh, name, value, exported).vars, other) == GetVariable(sh.vars, other)
  {
  }

  /** Exporting keeps the store consistent, and the exported value is then in the environment. */
  lemma ExportKeepsConsistent(sh: Shell, name: string)
    requires Consistent(sh)
    ensures Consistent(ExportVariable(sh, name).1)
    ensures name in sh.vars ==> ExportVariable(sh, name).1.env[name] == sh.vars[name].value
  {
    var (found, sh') := ExportVariable(sh, name);
    if found {
      forall n | n in sh'.vars
        ensures ValidEnvName(n) && (sh'.vars[n].exported ==> n in sh'.env && sh'.env[n] == sh'.vars[n].value)
      {
        if n != name && sh'.vars[n].exported {
          assert sh.vars[n] == sh'.vars[n];
        }
      }
    }
  }

  /** Exporting twice is exporting once, and the second call still reports success. */
  lemma ExportIdempotent(sh: Shell, name: string)
    ensures ExportVariable(ExportVariable(sh, name).1, name) == ExportVariable(sh, name)
  {
    var (found, sh1) := ExportVariable(sh, name);
    if found {
      var v := sh.vars[name].value;
      assert sh1.vars[name] == Variable(v, true);
      assert sh1.vars[name := Variable(v, true)] == sh1.vars;
      assert SetEnv(sh1.env, name, v) == sh1.env;
    }
  }
}
