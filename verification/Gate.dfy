/**
 The checks a meta-tool request passes before anything upstream is touched: argument
 shape, known server, namespace access.
 */
module Gate {
  import opened Wrappers
  import opened Config
  import opened Display
  import Names
  import Text

  /** The configured servers and the session's access list. */
  datatype Env = Env(configured: set<string>, acl: Acl)

  /** What a request does once it has its upstream entry; `List` carries the servers still to come. */
  datatype Goal = List(rest: seq<string>) | Schema(tool: string) | Invoke(tool: string)

  datatype MetaRequest = MetaRequest(name: string, arguments: Option<map<string, Json>>)

  datatype ToolError =
    | InvalidRequest
    | UnknownServer(server: string)
    | NamespaceDenied(server: string, tool: Option<string>)
    | NotImplemented(name: string)
    | UpstreamFailed(server: string)

  datatype Verdict = Refused(error: ToolError) | EmptyList | Admitted(server: string, goal: Goal)

  function StringArgument(arguments: Option<map<string, Json>>, key: string): Option<string> {
    if arguments.Some? && key in arguments.value && arguments.value[key].Str? then Some(arguments.value[key].s) else None
  }

  function Admit(env: Env, request: MetaRequest): Verdict {
    if request.name == "list_tools" then AdmitList(env, request.arguments)
    else if request.name == "get_tool_schema" then AdmitSchema(env, request.arguments)
    else if request.name == "invoke_tool" then AdmitInvoke(env, request.arguments)
    else Refused(NotImplemented(request.name))
  }

  function AdmitList(env: Env, arguments: Option<map<string, Json>>): Verdict {
    match StringArgument(arguments, "server")
    case Some(server) =>
      if server !in env.configured then Refused(UnknownServer(server))
      else if !env.acl.AllowsServer(server) then Refused(NamespaceDenied(server, None))
      else Admitted(server, List([]))
    case None =>
      var servers := Text.SortedNames(env.acl.servers);
      if servers == [] then EmptyList
      else if servers[0] !in env.configured then Refused(UnknownServer(servers[0]))
      else Admitted(servers[0], List(servers[1..]))
  }

  function AdmitTool(env: Env, arguments: Option<map<string, Json>>): Result<(string, string), ToolError> {
    match StringArgument(arguments, "name")
    case None => Err(InvalidRequest)
    case Some(name) =>
      match Names.ParseServerTool(name)
      case None => Err(InvalidRequest)
      case Some((server, tool)) =>
        if server !in env.configured then Err(UnknownServer(server))
        else if !env.acl.AllowsTool(server, tool) then Err(NamespaceDenied(server, Some(tool)))
        else Ok((server, tool))
  }

  function AdmitSchema(env: Env, arguments: Option<map<string, Json>>): Verdict {
    match AdmitTool(env, arguments)
    case Err(e) => Refused(e)
    case Ok((server, tool)) => Admitted(server, Schema(tool))
  }

  function AdmitInvoke(env: Env, arguments: Option<map<string, Json>>): Verdict {
    match AdmitTool(env, arguments)
    case Err(e) => Refused(e)
    case Ok((server, tool)) =>
      if "arguments" !in arguments.value || !arguments.value["arguments"].Obj? then Refused(InvalidRequest)
      else Admitted(server, Invoke(tool))
  }

  predicate Permitted(env: Env, server: string, goal: Goal) {
    && env.acl.AllowsServer(server)
    && server in env.configured
    && match goal
       case List(rest) => forall s :: s in rest ==> env.acl.AllowsServer(s)
       case Schema(tool) => env.acl.AllowsTool(server, tool)
       case Invoke(tool) => env.acl.AllowsTool(server, tool)
  }

  /** Whatever is admitted stays inside the access list. */
  lemma AdmittedIsPermitted(env: Env, request: MetaRequest)
    requires Admit(env, request).Admitted?
    ensures Permitted(env, Admit(env, request).server, Admit(env, request).goal)
  {
  }

  /** An invoke request naming an allowed tool of a configured server is admitted for exactly that tool, and no other is. */
  lemma InvokeAdmittedExactly(env: Env, server: string, tool: string, arguments: map<string, Json>)
    requires Names.ValidServerName(server) && tool != ""
    requires "name" in arguments && arguments["name"] == Str(Names.Join(server, tool))
    requires "arguments" in arguments && arguments["arguments"].Obj?
    ensures Admit(env, MetaRequest("invoke_tool", Some(arguments))) ==
            if server !in env.configured then Refused(UnknownServer(server))
            else if !env.acl.AllowsTool(server, tool) then Refused(NamespaceDenied(server, Some(tool)))
            else Admitted(server, Invoke(tool))
  {
    Names.JoinThenParse(server, tool);
  }

  /** When every visible server is configured, listing without a filter is never refused. */
  lemma UnfilteredListNeverRefused(env: Env, arguments: Option<map<string, Json>>)
    requires env.acl.servers <= env.configured
    requires StringArgument(arguments, "server").None?
    ensures !Admit(env, MetaRequest("list_tools", arguments)).Refused?
    ensures Admit(env, MetaRequest("list_tools", arguments)).EmptyList? <==> env.acl.servers == {}
  {
  }

  /* ---------- what is asked for is what is admitted ---------- */

  /** The request's `name` argument is a string that splits into `server` and `tool`. */
  ghost predicate NamesTool(arguments: Option<map<string, Json>>, server: string, tool: string) {
    && arguments.Some? && "name" in arguments.value && arguments.value["name"].Str?
    && Names.SplitsInto(arguments.value["name"].s, server, tool)
  }

  ghost predicate NamesServer(arguments: Option<map<string, Json>>, server: string) {
    arguments.Some? && "server" in arguments.value && arguments.value["server"] == Str(server)
  }

  ghost predicate NamesNoServer(arguments: Option<map<string, Json>>) {
    arguments.None? || "server" !in arguments.value || !arguments.value["server"].Str?
  }

  /** `all` holds every visible server once, in increasing order. */
  ghost predicate ListsAll(env: Env, all: seq<string>) {
    Text.StrictlySorted(all) && forall s :: s in all <==> s in env.acl.servers
  }

  /** What a request asks for, read off its own fields. */
  ghost predicate Asks(env: Env, request: MetaRequest, server: string, goal: Goal) {
    match goal
    case Schema(tool) => request.name == "get_tool_schema" && NamesTool(request.arguments, server, tool)
    case Invoke(tool) =>
      && request.name == "invoke_tool" && NamesTool(request.arguments, server, tool)
      && "arguments" in request.arguments.value && request.arguments.value["arguments"].Obj?
    case List(rest) =>
      && request.name == "list_tools"
      && ((NamesServer(request.arguments, server) && rest == []) ||
          (NamesNoServer(request.arguments) && ListsAll(env, [server] + rest)))
  }

  lemma ToolAdmittedExactly(env: Env, arguments: Option<map<string, Json>>, server: string, tool: string)
    ensures AdmitTool(env, arguments) == Ok((server, tool)) <==>
            NamesTool(arguments, server, tool) && server in env.configured && env.acl.AllowsTool(server, tool)
  {
    if arguments.Some? && "name" in arguments.value && arguments.value["name"].Str? {
      Names.ParseExactly(arguments.value["name"].s, server, tool);
    }
  }

  lemma ListAdmittedExactly(env: Env, arguments: Option<map<string, Json>>, server: string, rest: seq<string>)
    ensures AdmitList(env, arguments) == Admitted(server, List(rest)) <==>
            Asks(env, MetaRequest("list_tools", arguments), server, List(rest)) && Permitted(env, server, List(rest))
  {
    if NamesNoServer(arguments) {
      AllAdmittedExactly(env, arguments, server, rest);
    }
  }

  lemma AllAdmittedExactly(env: Env, arguments: Option<map<string, Json>>, server: string, rest: seq<string>)
    requires NamesNoServer(arguments)
    ensures AdmitList(env, arguments) == Admitted(server, List(rest)) <==>
            ListsAll(env, [server] + rest) && server in env.configured && env.acl.AllowsServer(server)
    ensures ListsAll(env, [server] + rest) ==> forall s :: s in rest ==> env.acl.AllowsServer(s)
  {
    var all, sorted := [server] + rest, Text.SortedNames(env.acl.servers);
    assert server in all && forall s :: s in rest ==> s in all;
    if ListsAll(env, all) {
      Text.SortedUnique(all, sorted);
    }
    if AdmitList(env, arguments) == Admitted(server, List(rest)) {
      assert all == sorted;
    }
  }

  /** A request is admitted exactly as what it asks for, and exactly when that is permitted. */
  lemma AdmitsExactly(env: Env, request: MetaRequest, server: string, goal: Goal)
    ensures Admit(env, request) == Admitted(server, goal) <==> Asks(env, request, server, goal) && Permitted(env, server, goal)
  {
    match goal
    case List(rest) => ListAdmittedExactly(env, request.arguments, server, rest);
    case Schema(tool) => ToolAdmittedExactly(env, request.arguments, server, tool);
    case Invoke(tool) => ToolAdmittedExactly(env, request.arguments, server, tool);
  }

  /** A schema request for a tool of a server: unknown, denied, or admitted for exactly that schema. */
  lemma SchemaAdmittedExactly(env: Env, server: string, tool: string, arguments: map<string, Json>)
    requires Names.ValidServerName(server) && tool != ""
    requires "name" in arguments && arguments["name"] == Str(Names.Join(server, tool))
    ensures Admit(env, MetaRequest("get_tool_schema", Some(arguments))) ==
            if server !in env.configured then Refused(UnknownServer(server))
            else if !env.acl.AllowsTool(server, tool) then Refused(NamespaceDenied(server, Some(tool)))
            else Admitted(server, Schema(tool))
  {
    Names.JoinThenParse(server, tool);
  }

  /** A list request for one server: unknown, denied, or admitted for that server alone. */
  lemma ServerListAdmittedExactly(env: Env, server: string, arguments: map<string, Json>)
    requires "server" in arguments && arguments["server"] == Str(server)
    ensures Admit(env, MetaRequest("list_tools", Some(arguments))) ==
            if server !in env.configured then Refused(UnknownServer(server))
            else if server !in env.acl.servers then Refused(NamespaceDenied(server, None))
            else Admitted(server, List([]))
  {
  }

  /** A list request for no server in particular: nothing to list, an unconfigured least server, or all visible servers in order. */
  lemma FullListAdmittedExactly(env: Env, arguments: Option<map<string, Json>>)
    requires NamesNoServer(arguments)
    ensures match Admit(env, MetaRequest("list_tools", arguments))
            case EmptyList => env.acl.servers == {}
            case Admitted(server, goal) => goal.List? && ListsAll(env, [server] + goal.rest)
            case Refused(e) => e.UnknownServer? && e.server !in env.configured && Text.IsLeast(e.server, env.acl.servers)
  {
    var sorted := Text.SortedNames(env.acl.servers);
    assert forall s :: s in sorted <==> s in env.acl.servers;
    if sorted != [] {
      assert sorted == [sorted[0]] + sorted[1..];
      forall s | s in env.acl.servers && s != sorted[0]
        ensures Text.Less(sorted[0], s)
      {
        var i :| 0 <= i < |sorted| && sorted[i] == s;
      }
      assert sorted[0] in sorted;
    }
  }

  /** Requests that name no tool, calls without an arguments object, and unknown meta-tools are refused as such. */
  lemma MalformedRefused(env: Env, request: MetaRequest)
    ensures request.name != "list_tools" && request.name != "get_tool_schema" && request.name != "invoke_tool" ==>
              Admit(env, request) == Refused(NotImplemented(request.name))
    ensures (request.name == "get_tool_schema" || request.name == "invoke_tool")
            && (forall server, tool :: !NamesTool(request.arguments, server, tool)) ==>
              Admit(env, request) == Refused(InvalidRequest)
    ensures forall server, tool ::
              request.name == "invoke_tool" && NamesTool(request.arguments, server, tool)
              && server in env.configured && env.acl.AllowsTool(server, tool)
              && ("arguments" !in request.arguments.value || !request.arguments.value["arguments"].Obj?) ==>
                Admit(env, request) == Refused(InvalidRequest)
  {
    forall server, tool
      ensures AdmitTool(env, request.arguments) == Ok((server, tool)) <==>
              NamesTool(request.arguments, server, tool) && server in env.configured && env.acl.AllowsTool(server, tool)
    {
      ToolAdmittedExactly(env, request.arguments, server, tool);
    }
    if request.arguments.Some? && "name" in request.arguments.value && request.arguments.value["name"].Str? {
      var name := request.arguments.value["name"].s;
      match Names.ParseServerTool(name)
      case Some((server, tool)) => Names.ParseExactly(name, server, tool);
      case None =>
    }
  }

  /** A tool of a server that is not configured, or that the session may not use, is refused as such by both tool requests. */
  lemma DeniedExactly(env: Env, request: MetaRequest, server: string, tool: string)
    requires request.name == "get_tool_schema" || request.name == "invoke_tool"
    requires NamesTool(request.arguments, server, tool)
    ensures Admit(env, request) == Refused(UnknownServer(server)) <==> server !in env.configured
    ensures Admit(env, request) == Refused(NamespaceDenied(server, Some(tool))) <==>
            server in env.configured && !env.acl.AllowsTool(server, tool)
  {
    Names.ParseExactly(request.arguments.value["name"].s, server, tool);
  }
}
