/**
 * `parse_assignment` (nano shell): `name=value` is split at the FIRST `=`;
 * it fails when there is no `=` or the name would be empty. The value may
 * be empty and may itself contain `=`.
 */
module Assignment {
  import opened Wrappers

  datatype Binding = Binding(name: string, value: string)

  /** `strchr`: the index of the first occurrence of `c`, if any. */
  function IndexOf(s: string, c: char): (r: Option<nat>)
    ensures r.None? <==> c !in s
    ensures r.Some? ==> r.value < |s| && s[r.value] == c && c !in s[..r.value]
  {
    if s == [] then None
    else if s[0] == c then Some(0)
    else
      match IndexOf(s[1..], c)
      case None => None
      case Some(i) =>
        assert s[..i + 1] == [s[0]] + s[1..][..i];
        Some(i + 1)
  }

  function ParseAssignment(arg: string): (r: Option<Binding>)
    ensures r.Some? <==> '=' in arg && arg[0] != '='
    ensures r.Some? ==> |r.value.name| > 0 && '=' !in r.value.name
    ensures r.Some? ==> r.value.name + "=" + r.value.value == arg
  {
    match IndexOf(arg, '=')
    case None => None
    case Some(i) =>
      if i == 0 then None
      else
        assert arg == arg[..i] + "=" + arg[i + 1..];
        Some(Binding(arg[..i], arg[i + 1..]))
  }

  /** Round trip the other way: any non-empty `=`-free name and any value are split back apart. */
  lemma ParseJoined(name: string, value: string)
    requires |name| > 0 && '=' !in name
    ensures ParseAssignment(name + "=" + value) == Some(Binding(name, value))
  {
    var arg := name + "=" + value;
    assert arg[|name|] == '=';
    assert arg[..|name|] == name;
    assert arg[|name| + 1..] == value;
  }
}
