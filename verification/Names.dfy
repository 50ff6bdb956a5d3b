/** Server names and the `server__tool` form. */
module Names {
  import opened Wrappers

  predicate NameChar(c: char) {
    'a' <= c <= 'z' || '0' <= c <= '9' || c == '-'
  }

  predicate ValidServerName(name: string) {
    name != "" && forall i :: 0 <= i < |name| ==> NameChar(name[i])
  }

  predicate SepAt(s: string, i: nat) {
    i + 2 <= |s| && s[i] == '_' && s[i + 1] == '_'
  }

  /** Position of the first `__` at or after `from`. */
  function FindSep(s: string, from: nat): (r: Option<nat>)
    ensures r.Some? ==> from <= r.value && SepAt(s, r.value) && forall i :: from <= i < r.value ==> !SepAt(s, i)
    ensures r.None? ==> forall i: nat :: from <= i ==> !SepAt(s, i)
    decreases |s| - from
  {
    if from >= |s| then None
    else if SepAt(s, from) then Some(from)
    else FindSep(s, from + 1)
  }

  function ParseServerTool(name: string): Option<(string, string)> {
    match FindSep(name, 0)
    case None => None
    case Some(i) =>
      var server, tool := name[..i], name[i + 2..];
      if server == "" || tool == "" then None else Some((server, tool))
  }

  function Join(server: string, tool: string): string {
    server + "__" + tool
  }

  /** Joining a valid server name and any non-empty tool name parses back to exactly that pair. */
  lemma JoinThenParse(server: string, tool: string)
    requires ValidServerName(server) && tool != ""
    ensures ParseServerTool(Join(server, tool)) == Some((server, tool))
  {
    var s := Join(server, tool);
    assert SepAt(s, |server|);
    forall i | 0 <= i < |server|
      ensures !SepAt(s, i)
    {
      assert s[i] == server[i] && NameChar(server[i]);
    }
    assert s[..|server|] == server && s[|server| + 2..] == tool;
  }

  /** A parse result re-joins to its input, and its server part could not have been split earlier. */
  lemma ParseThenJoin(name: string)
    requires ParseServerTool(name).Some?
    ensures var (server, tool) := ParseServerTool(name).value;
            && Join(server, tool) == name
            && server != "" && tool != ""
            && (forall i: nat :: !SepAt(server, i))
            && server[|server| - 1] != '_'
  {
    var i := FindSep(name, 0).value;
    var server, tool := name[..i], name[i + 2..];
    assert name == server + "__" + tool;
    forall k: nat
      ensures !SepAt(server, k)
    {
      if SepAt(server, k) { assert SepAt(name, k); }
    }
    if server[i - 1] == '_' {
      assert SepAt(name, i - 1);
    }
  }

  /** Parsing fails exactly when there is no `__` or a side of the first one is empty. */
  lemma ParseFails(name: string)
    ensures ParseServerTool(name).None? <==>
            || (forall i: nat :: !SepAt(name, i))
            || SepAt(name, 0)
            || (|name| >= 2 && SepAt(name, |name| - 2) && forall i: nat :: i < |name| - 2 ==> !SepAt(name, i))
  {
  }

  /** `name` is `server` and `tool` around its first `__`, neither of them empty. */
  ghost predicate SplitsInto(name: string, server: string, tool: string) {
    && name == server + "__" + tool
    && server != "" && tool != ""
    && server[|server| - 1] != '_'
    && forall i: nat :: !SepAt(server, i)
  }

  /** Parsing gives exactly the pair around the first `__`, for every name. */
  lemma ParseExactly(name: string, server: string, tool: string)
    ensures ParseServerTool(name) == Some((server, tool)) <==> SplitsInto(name, server, tool)
  {
    if SplitsInto(name, server, tool) {
      assert SepAt(name, |server|);
      forall i | 0 <= i < |server|
        ensures !SepAt(name, i)
      {
        assert !SepAt(server, i);
      }
      assert name[..|server|] == server && name[|server| + 2..] == tool;
    }
    if ParseServerTool(name) == Some((server, tool)) {
      ParseThenJoin(name);
    }
  }
}
