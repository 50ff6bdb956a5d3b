/** Startup validation, and what a validated configuration guarantees everything after it. */
module Validation {
  import opened Wrappers
  import opened Config
  import opened Inheritance
  import opened Resolver
  import opened ResolverCorrect
  import opened ActiveNamespace
  import opened Names
  import Text

  predicate Supported(server: Server) {
    server.TransportKind() == "stdio" || server.TransportKind() == "streamable-http"
  }

  predicate Filled(field: Option<string>) {
    field.Some? && !Text.Blank(field.value)
  }

  predicate CwdOk(server: Server) {
    server.cwd.Some? ==> !Text.Blank(server.cwd.value)
  }

  predicate TransportOk(server: Server) {
    && (server.TransportKind() == "stdio" ==> Filled(server.command))
    && (server.TransportKind() == "streamable-http" ==> Filled(server.endpoint))
  }

  predicate NamespaceOk(c: Toml, name: string) {
    match Resolve(c, name)
    case Ok(acl) => acl.servers <= c.servers.Keys && acl.tools.Keys <= acl.servers
    case Err(_) => false
  }

  ghost predicate ServersOk(c: Toml, names: set<string>)
    requires names <= c.servers.Keys
  {
    forall n :: n in names ==> ValidServerName(n) && Supported(c.servers[n]) && CwdOk(c.servers[n]) && TransportOk(c.servers[n])
  }

  ghost predicate Valid(c: Toml, selected: string) {
    && ServersOk(c, c.servers.Keys)
    && SelectedName(selected) in c.namespaces
    && forall n :: n in c.namespaces ==> NamespaceOk(c, n)
  }

  /** What each startup error says about the configuration. */
  ghost predicate Blames(c: Toml, e: StartupError) {
    match e
    case InvalidServerName(s) => s in c.servers && !ValidServerName(s)
    case UnsupportedTransport(s, t) => s in c.servers && c.servers[s].TransportKind() == t && !Supported(c.servers[s])
    case EmptyCwd(s) => s in c.servers && !CwdOk(c.servers[s])
    case StdioServerMissingCommand(s) => s in c.servers && c.servers[s].TransportKind() == "stdio" && !Filled(c.servers[s].command)
    case HttpServerMissingEndpoint(s) =>
      s in c.servers && c.servers[s].TransportKind() == "streamable-http" && !Filled(c.servers[s].endpoint)
    case EffectiveServerUnknown(n, s) =>
      n in c.namespaces && Resolve(c, n).Ok? && s in Resolve(c, n).value.servers && s !in c.servers
    case ToolFilterUnknownServer(n, s) =>
      && n in c.namespaces && Resolve(c, n).Ok? && Resolve(c, n).value.servers <= c.servers.Keys
      && s in Resolve(c, n).value.tools && s !in Resolve(c, n).value.servers
    case UnknownNamespace(n) => n !in c.namespaces
    case _ => exists n :: n in c.namespaces && Resolve(c, n) == Err(e)
  }

  method CheckServerNames(c: Toml) returns (r: Result<(), StartupError>)
    ensures r.Ok? ==> forall n :: n in c.servers ==> ValidServerName(n)
    ensures r.Err? ==> r.error.InvalidServerName? && Blames(c, r.error)
  {
    var todo := c.servers.Keys;
    while todo != {}
      invariant todo <= c.servers.Keys
      invariant forall n :: n in c.servers.Keys - todo ==> ValidServerName(n)
      decreases todo
    {
      var n :| n in todo;
      if !ValidServerName(n) {
        return Err(InvalidServerName(n));
      }
      todo := todo - {n};
    }
    return Ok(());
  }

  method CheckTransports(c: Toml) returns (r: Result<(), StartupError>)
    ensures r.Ok? ==> forall n :: n in c.servers ==> Supported(c.servers[n])
    ensures r.Err? ==> r.error.UnsupportedTransport? && Blames(c, r.error)
  {
    var todo := c.servers.Keys;
    while todo != {}
      invariant todo <= c.servers.Keys
      invariant forall n :: n in c.servers.Keys - todo ==> Supported(c.servers[n])
      decreases todo
    {
      var n :| n in todo;
      var kind := c.servers[n].TransportKind();
      if kind != "stdio" && kind != "streamable-http" {
        return Err(UnsupportedTransport(n, kind));
      }
      todo := todo - {n};
    }
    return Ok(());
  }

  method CheckRequiredFields(c: Toml) returns (r: Result<(), StartupError>)
    requires forall n :: n in c.servers ==> Supported(c.servers[n])
    ensures r.Ok? ==> forall n :: n in c.servers ==> CwdOk(c.servers[n]) && TransportOk(c.servers[n])
    ensures r.Err? ==> (r.error.EmptyCwd? || r.error.StdioServerMissingCommand? || r.error.HttpServerMissingEndpoint?)
    ensures r.Err? ==> Blames(c, r.error)
  {
    var todo := c.servers.Keys;
    while todo != {}
      invariant todo <= c.servers.Keys
      invariant forall n :: n in c.servers.Keys - todo ==> CwdOk(c.servers[n]) && TransportOk(c.servers[n])
      decreases todo
    {
      var n :| n in todo;
      var server := c.servers[n];
      if server.cwd.Some? {
        Text.TrimEmpty(server.cwd.value);
        if Text.Trim(server.cwd.value) == "" {
          return Err(EmptyCwd(n));
        }
      }
      var field := if server.TransportKind() == "stdio" then server.command else server.endpoint;
      if field.Some? {
        Text.TrimEmpty(field.value);
      }
      if !(field.Some? && Text.Trim(field.value) != "") {
        return Err(if server.TransportKind() == "stdio" then StdioServerMissingCommand(n) else HttpServerMissingEndpoint(n));
      }
      todo := todo - {n};
    }
    return Ok(());
  }

  lemma ResolveErrorKinds(c: Toml, name: string)
    requires name in c.namespaces && Resolve(c, name).Err?
    ensures var e := Resolve(c, name).error;
            e.UnknownNamespaceParent? || e.NamespaceExtendsCycle? || e.NamespaceInheritanceTooDeep?
  {
    ErrorsAreExact(c, name);
  }

  method CheckNamespace(c: Toml, name: string) returns (r: Result<(), StartupError>)
    requires name in c.namespaces
    ensures r.Ok? <==> NamespaceOk(c, name)
    ensures r.Err? ==> Blames(c, r.error) && LastKind(r.error)
  {
    var resolved := ResolveNamespace(c, name);
    if resolved.Err? {
      ResolveErrorKinds(c, name);
      return Err(resolved.error);
    }
    var acl := resolved.value;
    var todo := acl.servers;
    while todo != {}
      invariant todo <= acl.servers && acl.servers - todo <= c.servers.Keys
      decreases todo
    {
      var s :| s in todo;
      if s !in c.servers {
        return Err(EffectiveServerUnknown(name, s));
      }
      todo := todo - {s};
    }
    todo := acl.tools.Keys;
    while todo != {}
      invariant todo <= acl.tools.Keys && acl.tools.Keys - todo <= acl.servers
      decreases todo
    {
      var s :| s in todo;
      if s !in acl.servers {
        return Err(ToolFilterUnknownServer(name, s));
      }
      todo := todo - {s};
    }
    return Ok(());
  }

  /** An error of a namespace, found after all servers and the selected namespace passed. */
  predicate LastKind(e: StartupError) {
    || e.UnknownNamespaceParent? || e.NamespaceExtendsCycle? || e.NamespaceInheritanceTooDeep?
    || e.EffectiveServerUnknown? || e.ToolFilterUnknownServer?
  }

  /** Faults are reported in the order of the checks: what comes earlier than the reported one is in order everywhere. */
  ghost predicate EarlierPassed(c: Toml, selected: string, e: StartupError) {
    && (!e.InvalidServerName? ==> forall n :: n in c.servers ==> ValidServerName(n))
    && (!e.InvalidServerName? && !e.UnsupportedTransport? ==> forall n :: n in c.servers ==> Supported(c.servers[n]))
    && (e.UnknownNamespace? || LastKind(e) ==> ServersOk(c, c.servers.Keys))
    && (LastKind(e) ==> SelectedName(selected) in c.namespaces)
  }

  /** Accepts exactly the valid configurations; an error always names a real fault, of the first kind there is. */
  method Validate(c: Toml, selected: string) returns (r: Result<(), StartupError>)
    ensures r.Ok? <==> Valid(c, selected)
    ensures r.Err? ==> Blames(c, r.error) && EarlierPassed(c, selected, r.error)
    ensures r.Err? && r.error.UnknownNamespace? ==> r.error.ns == SelectedName(selected)
  {
    r := CheckServerNames(c);
    if r.Err? { return; }
    r := CheckTransports(c);
    if r.Err? { return; }
    r := CheckRequiredFields(c);
    if r.Err? { return; }
    if SelectedName(selected) !in c.namespaces {
      return Err(UnknownNamespace(SelectedName(selected)));
    }
    var todo := c.namespaces.Keys;
    while todo != {}
      invariant todo <= c.namespaces.Keys
      invariant forall n :: n in c.namespaces.Keys - todo ==> NamespaceOk(c, n)
      decreases todo
    {
      var n :| n in todo;
      r := CheckNamespace(c, n);
      if r.Err? { return; }
      todo := todo - {n};
    }
    return Ok(());
  }

  /**
   After validation nothing later is partial: the session's namespace resolves, all its
   servers are configured with one of the two transports and a non-blank command or
   endpoint, and every filter is on an effective server.
   */
  lemma ValidatedIsTotal(c: Toml, selected: string)
    requires Valid(c, selected)
    ensures Activate(c, selected).Some?
    ensures var active := Activate(c, selected).value;
            && active.acl.tools.Keys <= active.acl.servers
            && forall s :: s in active.AllowedServers() ==>
                 && s in c.servers
                 && ValidServerName(s)
                 && Supported(c.servers[s])
                 && TransportOk(c.servers[s])
  {
  }

  /** Validation covers every namespace, so the resolved graph above each is closed and acyclic. */
  lemma ValidatedGraph(c: Toml, selected: string, name: string)
    requires Valid(c, selected) && name in c.namespaces
    ensures ReachableClosed(c, name) && ReachableAcyclic(c, name)
    ensures Activate(c, selected).value.acl == MeetOf(c, ReachSet(c, SelectedName(selected)))
  {
    assert NamespaceOk(c, name) && NamespaceOk(c, SelectedName(selected));
    OkIsClosedAndAcyclic(c, name);
    ResolveIsMeet(c, SelectedName(selected));
  }

  /* ---------- what a valid configuration is, field by field ---------- */

  /** A server is acceptable by its transport: omitted means stdio, which needs a command; HTTP needs an endpoint; there is no third. */
  ghost predicate WellConfigured(name: string, server: Server) {
    && name != "" && (forall i :: 0 <= i < |name| ==> 'a' <= name[i] <= 'z' || '0' <= name[i] <= '9' || name[i] == '-')
    && (server.cwd.Some? ==> !Text.Blank(server.cwd.value))
    && (server.transport == None || server.transport == Some("stdio") ==>
          server.command.Some? && !Text.Blank(server.command.value))
    && (server.transport == Some("streamable-http") ==> server.endpoint.Some? && !Text.Blank(server.endpoint.value))
    && (server.transport == None || server.transport == Some("stdio") || server.transport == Some("streamable-http"))
  }

  /** The namespace resolves, all its servers are configured, and all its filters are on its own servers. */
  ghost predicate ResolvesInside(c: Toml, n: string) {
    && Resolve(c, n).Ok?
    && (forall s :: s in Resolve(c, n).value.servers ==> s in c.servers)
    && (forall s :: s in Resolve(c, n).value.tools ==> s in Resolve(c, n).value.servers)
  }

  lemma ServerOkExactly(c: Toml, name: string)
    requires name in c.servers
    ensures ServersOk(c, {name}) <==> WellConfigured(name, c.servers[name])
  {
    assert ServersOk(c, {name}) <==>
           ValidServerName(name) && Supported(c.servers[name]) && CwdOk(c.servers[name]) && TransportOk(c.servers[name]);
    assert ValidServerName(name) <==>
           name != "" && forall i :: 0 <= i < |name| ==> 'a' <= name[i] <= 'z' || '0' <= name[i] <= '9' || name[i] == '-' by {
      assert forall i :: 0 <= i < |name| ==> (NameChar(name[i]) <==> 'a' <= name[i] <= 'z' || '0' <= name[i] <= '9' || name[i] == '-');
    }
  }

  /**
   A configuration is accepted exactly when every server is well configured, the selected namespace
   (`default` if none is) exists, and every namespace resolves to configured servers with filters
   only on its own servers.
   */
  lemma ValidExactly(c: Toml, selected: string)
    ensures Valid(c, selected) <==>
            && (forall n :: n in c.servers ==> WellConfigured(n, c.servers[n]))
            && (if selected == "" then "default" else selected) in c.namespaces
            && (forall n :: n in c.namespaces ==> ResolvesInside(c, n))
  {
    ServersOkExactly(c);
    forall n | n in c.namespaces
      ensures NamespaceOk(c, n) <==> ResolvesInside(c, n)
    {
      NamespaceOkExactly(c, n);
    }
  }

  lemma ServersOkExactly(c: Toml)
    ensures ServersOk(c, c.servers.Keys) <==> forall n :: n in c.servers ==> WellConfigured(n, c.servers[n])
  {
    forall n | n in c.servers
      ensures ServersOk(c, {n}) <==> WellConfigured(n, c.servers[n])
    {
      ServerOkExactly(c, n);
    }
    assert ServersOk(c, c.servers.Keys) <==> forall n :: n in c.servers ==> ServersOk(c, {n});
  }

  lemma NamespaceOkExactly(c: Toml, n: string)
    ensures NamespaceOk(c, n) <==> ResolvesInside(c, n)
  {
  }

  /** The session runs in the selected namespace, or in `default` when none is selected. */
  lemma SelectionIsExact(c: Toml, selected: string)
    ensures var name := if selected == "" then "default" else selected;
            && (Activate(c, selected).Some? <==> Resolve(c, name).Ok?)
            && (Activate(c, selected).Some? ==> Activate(c, selected).value == Active(name, Resolve(c, name).value))
  {
  }
}
