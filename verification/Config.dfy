/**
 The parsed configuration and the two ways access lists compose: servers by union,
 tool filters by intersection. An absent filter means every tool; a present empty
 filter means none.
 */
module Config {
  import opened Wrappers

  datatype Server = Server(
    transport: Option<string>,
    command: Option<string>,
    endpoint: Option<string>,
    args: seq<string>,
    description: Option<string>,
    cwd: Option<string>,
    env: map<string, string>,
    headers: map<string, string>,
    logFile: Option<string>,
    timeoutSecs: nat)
  {
    function TransportKind(): string {
      if transport.Some? then transport.value else "stdio"
    }
  }

  /** `parents` is the `extends` list; `tools` holds the optional per-server tool filters. */
  datatype Namespace = Namespace(servers: seq<string>, parents: seq<string>, tools: map<string, seq<string>>)

  datatype Toml = Toml(servers: map<string, Server>, namespaces: map<string, Namespace>)

  type Filters = map<string, set<string>>

  /** The effective access list of a namespace. */
  datatype Acl = Acl(servers: set<string>, tools: Filters) {
    predicate AllowsServer(server: string) {
      server in servers
    }

    predicate AllowsTool(server: string, tool: string) {
      server in servers && (server in tools ==> tool in tools[server])
    }
  }

  const EMPTY_ACL := Acl({}, map[])

  datatype StartupError =
    | InvalidServerName(server: string)
    | UnsupportedTransport(server: string, transport: string)
    | EmptyCwd(server: string)
    | StdioServerMissingCommand(server: string)
    | HttpServerMissingEndpoint(server: string)
    | UnknownNamespace(ns: string)
    | UnknownNamespaceParent(ns: string, parent: string)
    | NamespaceExtendsCycle(ns: string)
    | NamespaceInheritanceTooDeep(ns: string, maxDepth: nat)
    | EffectiveServerUnknown(ns: string, server: string)
    | ToolFilterUnknownServer(ns: string, server: string)

  const DEFAULT_NAMESPACE := "default"

  function OwnFilters(tools: map<string, seq<string>>): Filters {
    map server | server in tools :: ToSet(tools[server])
  }

  function MergeFilters(a: Filters, b: Filters): Filters {
    map server | server in a.Keys + b.Keys ::
      if server in a && server in b then a[server] * b[server]
      else if server in a then a[server]
      else b[server]
  }

  function Merge(a: Acl, b: Acl): Acl {
    Acl(a.servers + b.servers, MergeFilters(a.tools, b.tools))
  }

  lemma MergeOneMore(target: Filters, incoming: Filters, todo: set<string>, server: string)
    requires server in todo && todo <= incoming.Keys
    ensures var merged := MergeFilters(target, incoming - todo);
            && (server in merged <==> server in target)
            && MergeFilters(target, incoming - (todo - {server}))
            == merged[server := if server in merged then merged[server] * incoming[server] else incoming[server]]
  {
  }

  /** The in-place merge of one set of filters into another, one server at a time, in any order. */
  method MergeToolFilters(target: Filters, incoming: Filters) returns (merged: Filters)
    ensures merged == MergeFilters(target, incoming)
  {
    merged := target;
    var todo := incoming.Keys;
    while todo != {}
      invariant todo <= incoming.Keys
      invariant merged == MergeFilters(target, incoming - todo)
      decreases todo
    {
      var server :| server in todo;
      if server in merged {
        merged := merged[server := merged[server] * incoming[server]];
      } else {
        merged := merged[server := incoming[server]];
      }
      MergeOneMore(target, incoming, todo, server);
      todo := todo - {server};
    }
    assert incoming - todo == incoming;
  }

  /** The in-place merge of a resolved parent into the accumulated access list. */
  method MergeResolvedNamespace(target: Acl, incoming: Acl) returns (merged: Acl)
    ensures merged == Merge(target, incoming)
  {
    var tools := MergeToolFilters(target.tools, incoming.tools);
    merged := Acl(target.servers + incoming.servers, tools);
  }
}
