/**
 * `substitute_variable` / `substitute_args` (nano shell): one left-to-right
 * pass over a token. `$` followed by a maximal run of `[A-Za-z0-9_]` is
 * replaced by the variable's value (empty when unset); any other `$` and
 * every other character are copied. Inserted values are never re-scanned.
 */
module Substitution {
  import opened Wrappers
  import opened Text
  import opened VariableStore

  /** `isalnum` in the C locale, or `_`. */
  predicate IsIdentChar(c: char)
  {
    'a' <= c <= 'z' || 'A' <= c <= 'Z' || '0' <= c <= '9' || c == '_'
  }

  predicate IsIdentifier(s: string)
  {
    |s| > 0 && forall i :: 0 <= i < |s| ==> IsIdentChar(s[i])
  }

  /** Length of the leading run of identifier characters. */
  function IdentLength(s: string): (n: nat)
    ensures n <= |s|
    ensures forall i :: 0 <= i < n ==> IsIdentChar(s[i])
    ensures n < |s| ==> !IsIdentChar(s[n])
  {
    if s == [] || !IsIdentChar(s[0]) then 0 else 1 + IdentLength(s[1..])
  }

  /** The text a reference expands to: the value, or "" for an unset name. */
  function Lookup(vars: Vars, name: string): string
  {
    GetVariable(vars, name).GetOr("")
  }

  /**
   * How many characters the scan consumes at the start of `s`: one for an
   * ordinary character or a lone `$`, otherwise `$` and the whole name.
   */
  function Consumed(s: string): (k: nat)
    requires s != []
    ensures 1 <= k <= |s|
  {
    if s[0] != '$' then 1
    else
      var n := IdentLength(s[1..]);
      if n == 0 then 1 else n + 1
  }

  /** What the scan appends for those characters. */
  function Piece(vars: Vars, s: string): string
    requires s != []
  {
    if s[0] != '$' then [s[0]]
    else
      var n := IdentLength(s[1..]);
      if n == 0 then "$" else Lookup(vars, s[1..n + 1])
  }

  /** `substitute_variable` with an unbounded name buffer (see `SubstituteAsWritten`). */
  function Substitute(vars: Vars, s: string): (r: string)
    ensures '$' !in s ==> r == s
    decreases |s|
  {
    if s == [] then [] else Piece(vars, s) + Substitute(vars, s[Consumed(s)..])
  }

  /** `substitute_args`: every token substituted independently, in place. */
  function SubstituteArgs(vars: Vars, argv: seq<string>): (r: seq<string>)
    ensures |r| == |argv|
    ensures forall i :: 0 <= i < |argv| ==> r[i] == Substitute(vars, argv[i])
  {
    if argv == [] then [] else [Substitute(vars, argv[0])] + SubstituteArgs(vars, argv[1..])
  }

  /** Tokens without `$` pass through substitution unchanged. */
  lemma ArgsWithoutReferences(vars: Vars, argv: seq<string>)
    requires forall i :: 0 <= i < |argv| ==> '$' !in argv[i]
    ensures SubstituteArgs(vars, argv) == argv
  {
  }

  lemma IdentLengthOfRun(a: string, b: string)
    requires forall i :: 0 <= i < |a| ==> IsIdentChar(a[i])
    requires b == [] || !IsIdentChar(b[0])
    ensures IdentLength(a + b) == |a|
  {
    assert forall i :: 0 <= i < |a| ==> (a + b)[i] == a[i];
    assert b != [] ==> (a + b)[|a|] == b[0];
  }

  lemma IdentLengthConcat(a: string, b: string)
    requires b == [] || !IsIdentChar(b[0])
    ensures IdentLength(a + b) == IdentLength(a)
  {
    var n := IdentLength(a);
    assert a == a[..n] + a[n..];
    assert a + b == a[..n] + (a[n..] + b);
    IdentLengthOfRun(a[..n], a[n..] + b);
  }

  lemma ScanStepConcat(vars: Vars, a: string, b: string)
    requires a != []
    requires b == [] || !IsIdentChar(b[0])
    ensures Consumed(a + b) == Consumed(a)
    ensures Piece(vars, a + b) == Piece(vars, a)
    ensures (a + b)[Consumed(a)..] == a[Consumed(a)..] + b
  {
    var s := a + b;
    assert s[0] == a[0];
    assert s[1..] == a[1..] + b;
    IdentLengthConcat(a[1..], b);
    var n := IdentLength(a[1..]);
    assert s[1..n + 1] == a[1..n + 1];
    var k := Consumed(a);
    assert s[k..] == a[k..] + b;
  }

  /**
   * Substitution distributes over concatenation, provided the right part
   * cannot extend a name the left part ends with.
   */
  lemma {:induction false} SubstituteConcat(vars: Vars, a: string, b: string)
    requires b == [] || !IsIdentChar(b[0])
    ensures Substitute(vars, a + b) == Substitute(vars, a) + Substitute(vars, b)
    decreases |a|
  {
    if a == [] {
      assert a + b == b;
    } else {
      ScanStepConcat(vars, a, b);
      var k := Consumed(a);
      SubstituteConcat(vars, a[k..], b);
    }
  }

  /** `$name` on its own expands to the variable's value, or to "" when it is unset. */
  lemma ExpandReference(vars: Vars, name: string)
    requires IsIdentifier(name)
    ensures Substitute(vars, "$" + name) == Lookup(vars, name)
    ensures name !in vars ==> Substitute(vars, "$" + name) == ""
  {
    var s := "$" + name;
    assert s[1..] == name;
    IdentLengthOfRun(name, []);
    assert name + [] == name;
    assert s[1..|name| + 1] == name;
    assert s[|name| + 1..] == [];
  }

  lemma ExpandAtStart(vars: Vars, name: string, after: string)
    requires IsIdentifier(name)
    requires after == [] || !IsIdentChar(after[0])
    ensures Substitute(vars, "$" + name + after) == Lookup(vars, name) + Substitute(vars, after)
  {
    SubstituteConcat(vars, "$" + name, after);
    ExpandReference(vars, name);
  }

  /**
   * A reference in the middle of a token: the text before and after is
   * substituted on its own and the value is inserted verbatim, so a `$` inside
   * the value is never expanded again.
   */
  lemma ExpandInContext(vars: Vars, before: string, name: string, after: string)
    requires IsIdentifier(name)
    requires after == [] || !IsIdentChar(after[0])
    ensures Substitute(vars, before + ("$" + name + after))
         == Substitute(vars, before) + (Lookup(vars, name) + Substitute(vars, after))
  {
    ExpandAtStart(vars, name, after);
    assert ("$" + name + after)[0] == '$';
    SubstituteConcat(vars, before, "$" + name + after);
  }

  /** A `$` that no identifier character follows, including a trailing one, is copied literally. */
  lemma LiteralDollar(vars: Vars, rest: string)
    requires rest == [] || !IsIdentChar(rest[0])
    ensures Substitute(vars, "$" + rest) == "$" + Substitute(vars, rest)
    ensures Substitute(vars, "$") == "$"
  {
    assert ("$" + rest)[1..] == rest;
    assert "$"[1..] == [];
  }

  /** Round trip with the store: after `name=value`, `$name` yields exactly `value`. */
  lemma AssignThenExpand(sh: Shell, name: string, value: string, exported: bool)
    requires IsIdentifier(name)
    ensures Substitute(SetVariable(sh, name, value, exported).vars, "$" + name) == value
  {
    ExpandReference(SetVariable(sh, name, value, exported).vars, name);
  }

  // ---------------------------------------------------------------------
  // The source copies each name into `char varname[256]` and then writes
  // the terminating NUL at index `var_len`: a name of 256 or more characters
  // writes past the buffer. `SubstituteAsWritten` reports that case as None.

  /** Longest name `varname[256]` can hold together with its NUL. */
  const MaxNameLength := 255

  /** Every `$` of `s` is followed by at most `MaxNameLength` identifier characters. */
  predicate NamesFit(s: string)
  {
    forall i :: 0 <= i < |s| && s[i] == '$' ==> IdentLength(s[i + 1..]) <= MaxNameLength
  }

  /** `substitute_variable` as written: None when a name overflows `varname`. */
  function SubstituteAsWritten(vars: Vars, s: string): (r: Option<string>)
    decreases |s|
  {
    if s == [] then Some([])
    else if s[0] == '$' && IdentLength(s[1..]) > MaxNameLength then None
    else
      match SubstituteAsWritten(vars, s[Consumed(s)..])
      case Some(t) => Some(Piece(vars, s) + t)
      case None => None
  }

  lemma NamesFitSuffix(s: string, k: nat)
    requires k <= |s| && NamesFit(s)
    ensures NamesFit(s[k..])
  {
    forall i | 0 <= i < |s[k..]| && s[k..][i] == '$'
      ensures IdentLength(s[k..][i + 1..]) <= MaxNameLength
    {
      assert s[k..][i + 1..] == s[k + i + 1..];
      assert s[k + i] == '$';
    }
  }

  /** Whenever every name fits the buffer, the source computes the intended substitution. */
  lemma {:induction false} AsWrittenAgrees(vars: Vars, s: string)
    requires NamesFit(s)
    ensures SubstituteAsWritten(vars, s) == Some(Substitute(vars, s))
    decreases |s|
  {
    if s != [] {
      assert s[0] == '$' ==> IdentLength(s[0 + 1..]) <= MaxNameLength;
      NamesFitSuffix(s, Consumed(s));
      AsWrittenAgrees(vars, s[Consumed(s)..]);
    }
  }

  /** The counterexample: `$` followed by 256 letters overflows `varname`, while the intended result exists. */
  lemma NameOverflow(vars: Vars)
    ensures SubstituteAsWritten(vars, "$" + Repeat('a', 256)) == None
    ensures Substitute(vars, "$" + Repeat('a', 256)) == Lookup(vars, Repeat('a', 256))
  {
    var name := Repeat('a', 256);
    assert IsIdentifier(name);
    var s := "$" + name;
    assert s[1..] == name;
    IdentLengthOfRun(name, []);
    assert name + [] == name;
    ExpandReference(vars, name);
  }
}
