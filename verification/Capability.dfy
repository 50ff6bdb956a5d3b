/** The preflight check, the advisory capability cache it writes, and when a cache is believed. */
module Capability {
  import opened Wrappers
  import opened Config
  import opened ActiveNamespace
  import opened Text

  /* ---------- the fingerprint ---------- */

  /** The parts of a server's configuration the fingerprint carries; never environment or headers. */
  datatype FingerprintServer = FingerprintServer(
    name: string,
    transport: string,
    command: Option<string>,
    args: seq<string>,
    endpoint: Option<string>,
    cwd: Option<string>,
    timeoutSecs: nat,
    description: Option<string>)

  datatype Fingerprint = Fingerprint(
    ns: string,
    allowedServers: seq<string>,
    servers: seq<FingerprintServer>,
    tools: map<string, seq<string>>)

  function FromConfig(name: string, server: Server): FingerprintServer {
    FingerprintServer(name, server.TransportKind(), server.command, server.args, server.endpoint, server.cwd,
                      server.timeoutSecs, server.description)
  }

  function FingerprintServers(c: Toml, names: seq<string>): seq<FingerprintServer> {
    if names == [] then []
    else (if names[0] in c.servers then [FromConfig(names[0], c.servers[names[0]])] else []) + FingerprintServers(c, names[1..])
  }

  function FingerprintOf(c: Toml, active: Active): Fingerprint {
    Fingerprint(active.name, active.AllowedServers(), FingerprintServers(c, active.AllowedServers()),
                map server | server in active.acl.tools :: SortedNames(active.acl.tools[server]))
  }

  /** The two agree in every field the fingerprint records; environment, headers and log file may differ. */
  ghost predicate SameRecorded(a: Server, b: Server) {
    && (if a.transport.Some? then a.transport.value else "stdio") == (if b.transport.Some? then b.transport.value else "stdio")
    && a.command == b.command
    && a.args == b.args
    && a.endpoint == b.endpoint
    && a.cwd == b.cwd
    && a.timeoutSecs == b.timeoutSecs
    && a.description == b.description
  }

  /** The two configurations describe `name` alike, as far as the fingerprint looks. */
  ghost predicate SameServer(c: Toml, d: Toml, name: string) {
    && (name in c.servers <==> name in d.servers)
    && (name in c.servers && name in d.servers ==> SameRecorded(c.servers[name], d.servers[name]))
  }

  lemma RecordedAlike(name: string, a: Server, b: Server)
    ensures FromConfig(name, a) == FromConfig(name, b) <==> SameRecorded(a, b)
  {
  }

  lemma {:induction false} FingerprintServersFind(c: Toml, names: seq<string>, name: string, f: FingerprintServer)
    requires f.name == name
    ensures f in FingerprintServers(c, names) <==> name in names && name in c.servers && f == FromConfig(name, c.servers[name])
  {
    if names != [] {
      FingerprintServersFind(c, names[1..], name, f);
      assert name in names <==> name == names[0] || name in names[1..];
    }
  }

  lemma {:induction false} FingerprintServersAgree(c: Toml, d: Toml, names: seq<string>)
    requires forall name :: name in names ==> SameServer(c, d, name)
    ensures FingerprintServers(c, names) == FingerprintServers(d, names)
  {
    if names != [] {
      assert SameServer(c, d, names[0]);
      if names[0] in c.servers { RecordedAlike(names[0], c.servers[names[0]], d.servers[names[0]]); }
      FingerprintServersAgree(c, d, names[1..]);
    }
  }

  lemma SortedNamesInjective(a: set<string>, b: set<string>)
    requires SortedNames(a) == SortedNames(b)
    ensures a == b
  {
  }

  /**
   Fingerprints are equal exactly when the session is the same namespace with the same
   effective access list, present-empty filters included, over alike servers.
   */
  lemma FingerprintIsExact(c: Toml, a: Active, d: Toml, b: Active)
    ensures FingerprintOf(c, a) == FingerprintOf(d, b) <==> a == b && forall s :: s in a.acl.servers ==> SameServer(c, d, s)
  {
    if FingerprintOf(c, a) == FingerprintOf(d, b) {
      EqualFingerprints(c, a, d, b);
    }
    if a == b && forall s :: s in a.acl.servers ==> SameServer(c, d, s) {
      FingerprintServersAgree(c, d, a.AllowedServers());
    }
  }

  lemma EqualFingerprints(c: Toml, a: Active, d: Toml, b: Active)
    requires FingerprintOf(c, a) == FingerprintOf(d, b)
    ensures a == b && forall s :: s in a.acl.servers ==> SameServer(c, d, s)
  {
    var f, g := FingerprintOf(c, a), FingerprintOf(d, b);
    SortedNamesInjective(a.acl.servers, b.acl.servers);
    assert a.acl.tools.Keys == f.tools.Keys == g.tools.Keys == b.acl.tools.Keys;
    forall s | s in a.acl.tools
      ensures a.acl.tools[s] == b.acl.tools[s]
    {
      assert f.tools[s] == SortedNames(a.acl.tools[s]) && g.tools[s] == SortedNames(b.acl.tools[s]);
      SortedNamesInjective(a.acl.tools[s], b.acl.tools[s]);
    }
    assert a.acl.tools == b.acl.tools;
    var names := a.AllowedServers();
    forall s | s in a.acl.servers
      ensures SameServer(c, d, s)
    {
      if s in c.servers {
        FingerprintServersFind(c, names, s, FromConfig(s, c.servers[s]));
        FingerprintServersFind(d, names, s, FromConfig(s, c.servers[s]));
      }
      if s in d.servers {
        FingerprintServersFind(c, names, s, FromConfig(s, d.servers[s]));
        FingerprintServersFind(d, names, s, FromConfig(s, d.servers[s]));
        if s in c.servers { RecordedAlike(s, c.servers[s], d.servers[s]); }
      }
    }
  }

  /** A cache believed under one configuration answers every access question as its writer would. */
  lemma EqualFingerprintsSameAccess(c: Toml, a: Active, d: Toml, b: Active, server: string, tool: string)
    requires FingerprintOf(c, a) == FingerprintOf(d, b)
    ensures a.IsServerAllowed(server) == b.IsServerAllowed(server)
    ensures a.IsToolAllowed(server, tool) == b.IsToolAllowed(server, tool)
    ensures server in a.acl.tools <==> server in b.acl.tools
  {
    EqualFingerprints(c, a, d, b);
  }

  /* ---------- the cache ---------- */

  datatype CachedTool = CachedTool(name: string, description: string)

  datatype CachedServer = CachedServer(name: string, description: string, tools: seq<CachedTool>)

  datatype Cache = Cache(formatVersion: nat, ns: string, fingerprint: Fingerprint, generatedAt: string, servers: seq<CachedServer>)

  type Summaries = map<string, seq<(string, string)>>

  function PermittedTools(active: Active, server: string, tools: seq<CachedTool>): seq<(string, string)> {
    if tools == [] then []
    else
      var last := tools[|tools| - 1];
      PermittedTools(active, server, tools[..|tools| - 1])
      + if active.IsToolAllowed(server, last.name) then [(last.name, last.description)] else []
  }

  /** Collecting into a map: of two entries with one name the later wins. */
  function Collect(active: Active, servers: seq<CachedServer>): Summaries {
    if servers == [] then map[]
    else
      var last := servers[|servers| - 1];
      var front := Collect(active, servers[..|servers| - 1]);
      if active.IsServerAllowed(last.name) then front[last.name := PermittedTools(active, last.name, last.tools)] else front
  }

  /** `stored` is None when there is no readable, well-formed cache file. */
  function MatchingSummaries(c: Toml, active: Active, stored: Option<Cache>): Summaries {
    match stored
    case None => map[]
    case Some(cache) =>
      if cache.formatVersion != 1 || cache.ns != active.name || cache.fingerprint != FingerprintOf(c, active) then map[]
      else Collect(active, cache.servers)
  }

  ghost predicate InsideAcl(active: Active, summaries: Summaries) {
    forall s :: s in summaries ==> SummaryInsideAcl(active, s, summaries[s])
  }

  ghost predicate SummaryInsideAcl(active: Active, s: string, summary: seq<(string, string)>) {
    active.IsServerAllowed(s) && forall entry :: entry in summary ==> active.IsToolAllowed(s, entry.0)
  }

  lemma {:induction false} PermittedInsideAcl(active: Active, server: string, tools: seq<CachedTool>)
    requires active.IsServerAllowed(server)
    ensures SummaryInsideAcl(active, server, PermittedTools(active, server, tools))
  {
    if tools != [] {
      PermittedInsideAcl(active, server, tools[..|tools| - 1]);
    }
  }

  lemma {:induction false} CollectInsideAcl(active: Active, servers: seq<CachedServer>)
    ensures InsideAcl(active, Collect(active, servers))
  {
    if servers != [] {
      var last := servers[|servers| - 1];
      CollectInsideAcl(active, servers[..|servers| - 1]);
      if active.IsServerAllowed(last.name) {
        PermittedInsideAcl(active, last.name, last.tools);
      }
    }
  }

  /** Whatever a cache file contains, what is read from it stays inside the live access list. */
  lemma SummariesInsideAcl(c: Toml, active: Active, stored: Option<Cache>)
    ensures InsideAcl(active, MatchingSummaries(c, active, stored))
  {
    if stored.Some? { CollectInsideAcl(active, stored.value.servers); }
  }

  /* ---------- the preflight check ---------- */

  datatype CheckServer = CheckServer(name: string, ok: bool, tools: seq<string>)

  datatype CheckError =
    | ServerNotAllowed(server: string)
    | ToolMissing(server: string, tool: string)
    | InventoryFailed(server: string)

  datatype CheckResult = CheckResult(ok: bool, servers: seq<CheckServer>, errors: seq<CheckError>, cached: seq<CachedServer>)

  /** What each upstream answers when asked for its tools; a server missing here is one that failed. */
  type Inventories = map<string, seq<CachedTool>>

  function ToolNames(tools: seq<CachedTool>): set<string> {
    set tool | tool in tools :: tool.name
  }

  function ExplicitTools(active: Active, server: string): seq<string> {
    if server in active.acl.tools then SortedNames(active.acl.tools[server]) else []
  }

  function Absent(wanted: seq<string>, present: set<string>): seq<string> {
    if wanted == [] then []
    else (if wanted[0] in present then [] else [wanted[0]]) + Absent(wanted[1..], present)
  }

  function Missing(active: Active, inventories: Inventories, server: string): seq<string>
    requires server in inventories
  {
    Absent(ExplicitTools(active, server), ToolNames(inventories[server]))
  }

  function MissingErrors(server: string, missing: seq<string>): seq<CheckError> {
    seq(|missing|, i requires 0 <= i < |missing| => ToolMissing(server, missing[i]))
  }

  function ServerErrors(active: Active, inventories: Inventories, server: string): seq<CheckError> {
    if server in inventories then MissingErrors(server, Missing(active, inventories, server)) else [InventoryFailed(server)]
  }

  function AllErrors(active: Active, inventories: Inventories, servers: seq<string>): seq<CheckError> {
    if servers == [] then []
    else AllErrors(active, inventories, servers[..|servers| - 1]) + ServerErrors(active, inventories, servers[|servers| - 1])
  }

  function ConfigDescription(c: Toml, server: string): string {
    if server in c.servers && c.servers[server].description.Some? then c.servers[server].description.value else ""
  }

  /** One server passes: its inventory came back and holds every allow-listed tool. */
  ghost predicate Healthy(active: Active, inventories: Inventories, server: string) {
    && server in inventories
    && (server in active.acl.tools ==> active.acl.tools[server] <= ToolNames(inventories[server]))
  }

  /** What an error of the check says about its server. */
  ghost predicate Justified(active: Active, inventories: Inventories, e: CheckError) {
    match e
    case ServerNotAllowed(s) => !active.IsServerAllowed(s)
    case InventoryFailed(s) => s !in inventories
    case ToolMissing(s, t) =>
      s in inventories && s in active.acl.tools && t in active.acl.tools[s] && t !in ToolNames(inventories[s])
  }

  lemma {:induction false} AbsentIsMissing(wanted: seq<string>, present: set<string>)
    ensures forall x :: x in Absent(wanted, present) <==> x in wanted && x !in present
  {
    if wanted != [] {
      AbsentIsMissing(wanted[1..], present);
    }
  }

  lemma ServerErrorsExact(active: Active, inventories: Inventories, server: string, e: CheckError)
    ensures e in ServerErrors(active, inventories, server) <==>
            e.server == server && !e.ServerNotAllowed? && Justified(active, inventories, e)
    ensures ServerErrors(active, inventories, server) == [] <==> Healthy(active, inventories, server)
  {
    if server in inventories {
      var missing := Missing(active, inventories, server);
      AbsentIsMissing(ExplicitTools(active, server), ToolNames(inventories[server]));
      var errors := MissingErrors(server, missing);
      if e.ToolMissing? && e.server == server && e.tool in missing {
        var i :| 0 <= i < |missing| && missing[i] == e.tool;
        assert errors[i] == e;
      }
      assert missing != [] ==> missing[0] in missing;
    }
  }

  /** The check reports exactly the failed upstreams and the allow-listed tools their upstreams lack. */
  lemma {:induction false} CheckErrorsExact(active: Active, inventories: Inventories, servers: seq<string>, e: CheckError)
    ensures e in AllErrors(active, inventories, servers) <==>
            e.server in servers && !e.ServerNotAllowed? && Justified(active, inventories, e)
    ensures AllErrors(active, inventories, servers) == [] <==> forall s :: s in servers ==> Healthy(active, inventories, s)
    decreases |servers|
  {
    if servers != [] {
      var front, last := servers[..|servers| - 1], servers[|servers| - 1];
      CheckErrorsExact(active, inventories, front, e);
      ServerErrorsExact(active, inventories, last, e);
      assert servers == front + [last];
      assert forall s :: s in servers <==> s in front || s == last;
    }
  }

  function CacheEntry(c: Toml, inventories: Inventories, server: string): CachedServer
    requires server in inventories
  {
    CachedServer(server, ConfigDescription(c, server), inventories[server])
  }

  function Report(active: Active, inventories: Inventories, server: string): CheckServer {
    if server in inventories then
      CheckServer(server, Missing(active, inventories, server) == [], SortedNames(ToolNames(inventories[server])))
    else CheckServer(server, false, [])
  }

  /** The cache entries of the servers that answered, in order. */
  function CacheEntries(c: Toml, inventories: Inventories, servers: seq<string>): seq<CachedServer> {
    if servers == [] then []
    else CacheEntries(c, inventories, servers[..|servers| - 1]) + LastEntry(c, inventories, servers[|servers| - 1])
  }

  function LastEntry(c: Toml, inventories: Inventories, server: string): seq<CachedServer> {
    if server in inventories then [CacheEntry(c, inventories, server)] else []
  }

  /** Every server was inventoried, and its cache entry carries that inventory. */
  ghost predicate Checked(c: Toml, inventories: Inventories, servers: seq<string>, result: CheckResult) {
    && |result.cached| == |servers|
    && forall i :: 0 <= i < |servers| ==>
         servers[i] in inventories && result.cached[i] == CacheEntry(c, inventories, servers[i])
  }

  lemma {:induction false} AllCached(c: Toml, inventories: Inventories, servers: seq<string>)
    requires forall s :: s in servers ==> s in inventories
    ensures |CacheEntries(c, inventories, servers)| == |servers|
    ensures forall i :: 0 <= i < |servers| ==>
              servers[i] in inventories && CacheEntries(c, inventories, servers)[i] == CacheEntry(c, inventories, servers[i])
    decreases |servers|
  {
    if servers != [] {
      AllCached(c, inventories, servers[..|servers| - 1]);
    }
  }

  ghost predicate ReportedFor(active: Active, inventories: Inventories, servers: seq<string>, reports: seq<CheckServer>) {
    |reports| == |servers| && forall i :: 0 <= i < |servers| ==> reports[i] == Report(active, inventories, servers[i])
  }

  method CheckOne(c: Toml, active: Active, server: string, inventories: Inventories)
    returns (report: CheckServer, errors: seq<CheckError>, entry: seq<CachedServer>)
    ensures report == Report(active, inventories, server)
    ensures errors == ServerErrors(active, inventories, server)
    ensures entry == LastEntry(c, inventories, server)
  {
    if server !in inventories {
      return CheckServer(server, false, []), [InventoryFailed(server)], [];
    }
    var tools := inventories[server];
    var names := ToolNames(tools);
    var missing := Absent(ExplicitTools(active, server), names);
    report := CheckServer(server, missing == [], SortedNames(names));
    errors := MissingErrors(server, missing);
    entry := [CachedServer(server, ConfigDescription(c, server), tools)];
  }

  lemma CheckSnoc(
    c: Toml, active: Active, inventories: Inventories, servers: seq<string>, server: string, reports: seq<CheckServer>)
    requires ReportedFor(active, inventories, servers, reports)
    ensures ReportedFor(active, inventories, servers + [server], reports + [Report(active, inventories, server)])
    ensures AllErrors(active, inventories, servers + [server])
         == AllErrors(active, inventories, servers) + ServerErrors(active, inventories, server)
    ensures CacheEntries(c, inventories, servers + [server])
         == CacheEntries(c, inventories, servers) + LastEntry(c, inventories, server)
  {
    assert (servers + [server])[..|servers|] == servers;
  }

  /** `result` is the whole report of a check of `servers`. */
  ghost predicate CheckOf(c: Toml, active: Active, servers: seq<string>, inventories: Inventories, result: CheckResult) {
    && (result.ok <==> result.errors == [])
    && result.errors == AllErrors(active, inventories, servers)
    && ReportedFor(active, inventories, servers, result.servers)
    && result.cached == CacheEntries(c, inventories, servers)
  }

  /** Visits the servers in order, pushing a report, the errors and a cache entry for each. */
  method CheckAll(c: Toml, active: Active, servers: seq<string>, inventories: Inventories) returns (result: CheckResult)
    ensures CheckOf(c, active, servers, inventories, result)
  {
    var reports: seq<CheckServer>, errors: seq<CheckError>, cached: seq<CachedServer> := [], [], [];
    for n := 0 to |servers|
      invariant ReportedFor(active, inventories, servers[..n], reports)
      invariant errors == AllErrors(active, inventories, servers[..n])
      invariant cached == CacheEntries(c, inventories, servers[..n])
    {
      assert servers[..n + 1] == servers[..n] + [servers[n]];
      CheckSnoc(c, active, inventories, servers[..n], servers[n], reports);
      var report, more, entry := CheckOne(c, active, servers[n], inventories);
      reports, errors, cached := reports + [report], errors + more, cached + entry;
    }
    assert servers[..|servers|] == servers;
    result := CheckResult(errors == [], reports, errors, cached);
  }

  /** A successful check has inventoried and cached every server it covers. */
  lemma SuccessIsChecked(c: Toml, active: Active, inventories: Inventories, servers: seq<string>, result: CheckResult)
    requires CheckOf(c, active, servers, inventories, result) && result.ok
    ensures Checked(c, inventories, servers, result)
  {
    CheckErrorsExact(active, inventories, servers, InventoryFailed(""));
    AllCached(c, inventories, servers);
  }

  /** A check covers the server asked for, if it is visible, or all visible servers when none is. */
  method RunCheck(c: Toml, active: Active, filter: Option<string>, inventories: Inventories) returns (result: CheckResult)
    ensures filter.Some? && filter.value !in active.acl.servers ==>
              result == CheckResult(false, [], [ServerNotAllowed(filter.value)], [])
    ensures filter.Some? && filter.value in active.acl.servers ==> CheckOf(c, active, [filter.value], inventories, result)
    ensures filter.None? ==> CheckOf(c, active, active.AllowedServers(), inventories, result)
  {
    var servers := active.AllowedServers();
    if filter.Some? {
      if !active.IsServerAllowed(filter.value) {
        return CheckResult(false, [], [ServerNotAllowed(filter.value)], []);
      }
      servers := [filter.value];
    }
    result := CheckAll(c, active, servers, inventories);
  }

  /** Only a successful check of the whole namespace replaces the stored cache. */
  function WriteCache(
    c: Toml, active: Active, result: CheckResult, filter: Option<string>, noWrite: bool, now: string, stored: Option<Cache>)
    : Option<Cache>
  {
    if result.ok && filter.None? && !noWrite then
      Some(Cache(1, active.name, FingerprintOf(c, active), now, result.cached))
    else stored
  }

  /** A collected cache with distinct, visible servers keeps each server's permitted tools. */
  lemma {:induction false} CollectEach(active: Active, cached: seq<CachedServer>, k: nat)
    requires k < |cached|
    requires forall i :: 0 <= i < |cached| ==> active.IsServerAllowed(cached[i].name)
    requires forall i, j :: 0 <= i < j < |cached| ==> cached[i].name != cached[j].name
    ensures cached[k].name in Collect(active, cached)
    ensures Collect(active, cached)[cached[k].name] == PermittedTools(active, cached[k].name, cached[k].tools)
    decreases |cached|
  {
    var n := |cached| - 1;
    if k < n {
      CollectEach(active, cached[..n], k);
    }
  }

  lemma {:induction false} CollectKeys(active: Active, cached: seq<CachedServer>, s: string)
    requires s in Collect(active, cached)
    ensures exists i :: 0 <= i < |cached| && cached[i].name == s
    decreases |cached|
  {
    if cached != [] {
      var n := |cached| - 1;
      if cached[n].name != s {
        CollectKeys(active, cached[..n], s);
      }
    }
  }

  lemma CachedNames(c: Toml, active: Active, inventories: Inventories, servers: seq<string>, result: CheckResult)
    requires Checked(c, inventories, servers, result) && StrictlySorted(servers)
    requires forall s :: s in servers ==> active.IsServerAllowed(s)
    ensures forall i :: 0 <= i < |result.cached| ==> active.IsServerAllowed(result.cached[i].name)
    ensures forall i, j :: 0 <= i < j < |result.cached| ==> result.cached[i].name != result.cached[j].name
  {
    var cached := result.cached;
    forall i | 0 <= i < |cached|
      ensures active.IsServerAllowed(cached[i].name)
    {
      assert cached[i] == CacheEntry(c, inventories, servers[i]) && servers[i] in servers;
    }
    forall i, j | 0 <= i < j < |cached|
      ensures cached[i].name != cached[j].name
    {
      assert cached[i] == CacheEntry(c, inventories, servers[i]) && cached[j] == CacheEntry(c, inventories, servers[j]);
      LessTotal(servers[i], servers[j]);
    }
  }

  lemma CollectChecked(c: Toml, active: Active, inventories: Inventories, servers: seq<string>, result: CheckResult, s: string)
    requires Checked(c, inventories, servers, result) && StrictlySorted(servers)
    requires forall x :: x in servers ==> active.IsServerAllowed(x)
    ensures s in servers <==> s in Collect(active, result.cached)
    ensures s in servers ==> s in inventories
                             && Collect(active, result.cached)[s] == PermittedTools(active, s, inventories[s])
  {
    CachedNames(c, active, inventories, servers, result);
    if s in servers {
      var i :| 0 <= i < |servers| && servers[i] == s;
      assert result.cached[i] == CacheEntry(c, inventories, servers[i]);
      CollectEach(active, result.cached, i);
    }
    if s in Collect(active, result.cached) {
      CollectKeys(active, result.cached, s);
      var i :| 0 <= i < |result.cached| && result.cached[i].name == s;
      assert result.cached[i] == CacheEntry(c, inventories, servers[i]);
      assert servers[i] in servers;
    }
  }

  lemma WrittenIsRead(c: Toml, active: Active, result: CheckResult, now: string, stored: Option<Cache>)
    requires result.ok
    ensures MatchingSummaries(c, active, WriteCache(c, active, result, None, false, now, stored)) == Collect(active, result.cached)
  {
  }

  /**
   Reading back, under the same configuration, what a successful full check wrote gives
   for every visible server exactly the checked inventory filtered by the access list.
   */
  lemma WriteThenRead(c: Toml, active: Active, inventories: Inventories, result: CheckResult, now: string, stored: Option<Cache>, s: string)
    requires CheckOf(c, active, active.AllowedServers(), inventories, result) && result.ok
    ensures var summaries := MatchingSummaries(c, active, WriteCache(c, active, result, None, false, now, stored));
            && (s in summaries <==> active.IsServerAllowed(s))
            && (s in summaries ==>
                  && s in inventories
                  && summaries[s] == PermittedTools(active, s, inventories[s]))
  {
    WrittenIsRead(c, active, result, now, stored);
    SuccessIsChecked(c, active, inventories, active.AllowedServers(), result);
    CollectChecked(c, active, inventories, active.AllowedServers(), result, s);
  }

  /** A permitted tool of the inventory appears in the filtered list, and nothing else does. */
  lemma {:induction false} PermittedToolsFilter(active: Active, server: string, tools: seq<CachedTool>, name: string, description: string)
    ensures (name, description) in PermittedTools(active, server, tools) <==>
            CachedTool(name, description) in tools && active.IsToolAllowed(server, name)
  {
    if tools != [] {
      var front, last := tools[..|tools| - 1], tools[|tools| - 1];
      PermittedToolsFilter(active, server, front, name, description);
      assert tools == front + [last];
    }
  }

  /** After a change that alters the access list or a server's description, the old cache is ignored. */
  lemma ChangedConfigurationIgnoresCache(c: Toml, a: Active, d: Toml, b: Active, result: CheckResult, now: string)
    requires result.ok
    requires a != b || exists s :: s in a.acl.servers && !SameServer(c, d, s)
    ensures MatchingSummaries(d, b, WriteCache(c, a, result, None, false, now, None)) == map[]
  {
    FingerprintIsExact(c, a, d, b);
  }

  /* ---------- the report, the cache and the summaries, entry by entry ---------- */

  /** `summary` holds, in order and one for each, the name and description of the tools at `ks`, which are the permitted ones. */
  ghost predicate SummaryAt(
    active: Active, server: string, tools: seq<CachedTool>, ks: seq<nat>, summary: seq<(string, string)>)
  {
    && |ks| == |summary| && Increasing(ks)
    && (forall j :: 0 <= j < |ks| ==>
          && ks[j] < |tools|
          && active.IsToolAllowed(server, tools[ks[j]].name)
          && summary[j] == (tools[ks[j]].name, tools[ks[j]].description))
    && (forall k :: 0 <= k < |tools| && active.IsToolAllowed(server, tools[k].name) ==> k in ks)
  }

  /** One more cached tool adds one more entry at the end, or none. */
  lemma PermittedToolsSnoc(active: Active, server: string, front: seq<CachedTool>, tool: CachedTool)
    ensures PermittedTools(active, server, front + [tool])
         == var before := PermittedTools(active, server, front);
            if active.IsToolAllowed(server, tool.name) then before + [(tool.name, tool.description)] else before
  {
    assert (front + [tool])[..|front|] == front;
  }

  lemma SummaryAtMore(
    active: Active, server: string, front: seq<CachedTool>, tool: CachedTool, ks: seq<nat>, summary: seq<(string, string)>)
    requires SummaryAt(active, server, front, ks, summary) && active.IsToolAllowed(server, tool.name)
    ensures SummaryAt(active, server, front + [tool], ks + [|front|], summary + [(tool.name, tool.description)])
  {
    var tools, more := front + [tool], ks + [|front|];
    assert more[|ks|] == |front|;
    forall k | 0 <= k < |tools| && active.IsToolAllowed(server, tools[k].name)
      ensures k in more
    {
      if k < |front| { assert front[k] == tools[k] && k in ks; }
    }
  }

  lemma SummaryAtSame(
    active: Active, server: string, front: seq<CachedTool>, tool: CachedTool, ks: seq<nat>, summary: seq<(string, string)>)
    requires SummaryAt(active, server, front, ks, summary) && !active.IsToolAllowed(server, tool.name)
    ensures SummaryAt(active, server, front + [tool], ks, summary)
  {
    var tools := front + [tool];
    forall k | 0 <= k < |tools| && active.IsToolAllowed(server, tools[k].name)
      ensures k in ks
    {
      assert front[k] == tools[k];
    }
  }

  lemma SummaryAtSnoc(active: Active, server: string, front: seq<CachedTool>, tool: CachedTool, ks: seq<nat>) returns (more: seq<nat>)
    requires SummaryAt(active, server, front, ks, PermittedTools(active, server, front))
    ensures SummaryAt(active, server, front + [tool], more, PermittedTools(active, server, front + [tool]))
  {
    PermittedToolsSnoc(active, server, front, tool);
    if active.IsToolAllowed(server, tool.name) {
      SummaryAtMore(active, server, front, tool, ks, PermittedTools(active, server, front));
      more := ks + [|front|];
    } else {
      SummaryAtSame(active, server, front, tool, ks, PermittedTools(active, server, front));
      more := ks;
    }
  }

  lemma {:induction false} PermittedInOrder(active: Active, server: string, tools: seq<CachedTool>) returns (ks: seq<nat>)
    ensures SummaryAt(active, server, tools, ks, PermittedTools(active, server, tools))
    decreases |tools|
  {
    ks := [];
    if tools != [] {
      var front, tool := tools[..|tools| - 1], tools[|tools| - 1];
      ks := PermittedInOrder(active, server, front);
      ks := SummaryAtSnoc(active, server, front, tool, ks);
      assert tools == front + [tool];
    }
  }

  /** The k-th cached server is visible and the last of its name. */
  ghost predicate LastOfName(active: Active, servers: seq<CachedServer>, k: nat) {
    && k < |servers| && active.IsServerAllowed(servers[k].name)
    && forall j :: k < j < |servers| ==> servers[j].name != servers[k].name
  }

  lemma {:induction false} CollectsLast(active: Active, servers: seq<CachedServer>, k: nat)
    requires LastOfName(active, servers, k)
    ensures servers[k].name in Collect(active, servers)
    ensures Collect(active, servers)[servers[k].name] == PermittedTools(active, servers[k].name, servers[k].tools)
    decreases |servers|
  {
    var n := |servers| - 1;
    if k < n {
      CollectsLast(active, servers[..n], k);
      assert servers[n].name != servers[k].name;
    }
  }

  lemma {:induction false} CollectsOnly(active: Active, servers: seq<CachedServer>, s: string) returns (k: nat)
    requires s in Collect(active, servers)
    ensures LastOfName(active, servers, k) && servers[k].name == s
    decreases |servers|
  {
    k := |servers| - 1;
    if !(servers[k].name == s && active.IsServerAllowed(s)) {
      k := CollectsOnly(active, servers[..|servers| - 1], s);
    }
  }

  /** A believed cache gives each visible server the permitted tools of its last entry, and nothing to any other. */
  lemma CollectsExactly(active: Active, servers: seq<CachedServer>, s: string)
    ensures s in Collect(active, servers) <==> exists k: nat :: LastOfName(active, servers, k) && servers[k].name == s
    ensures forall k: nat :: LastOfName(active, servers, k) && servers[k].name == s ==>
              s in Collect(active, servers) && Collect(active, servers)[s] == PermittedTools(active, s, servers[k].tools)
  {
    forall k: nat | LastOfName(active, servers, k) && servers[k].name == s
      ensures s in Collect(active, servers) && Collect(active, servers)[s] == PermittedTools(active, s, servers[k].tools)
    {
      CollectsLast(active, servers, k);
    }
    if s in Collect(active, servers) {
      var k := CollectsOnly(active, servers, s);
    }
  }

  /** A cache is believed only in its own format, for its own namespace and under an equal fingerprint. */
  lemma BelievedExactly(c: Toml, active: Active, cache: Cache)
    ensures var believed := cache.formatVersion == 1 && cache.ns == active.name && cache.fingerprint == FingerprintOf(c, active);
            MatchingSummaries(c, active, Some(cache)) == if believed then Collect(active, cache.servers) else map[]
    ensures MatchingSummaries(c, active, None) == map[]
  {
  }

  /** A failed, filtered or no-write check leaves the stored cache as it was; any other replaces it by what it checked. */
  lemma WritesExactly(
    c: Toml, active: Active, result: CheckResult, filter: Option<string>, noWrite: bool, now: string, stored: Option<Cache>)
    ensures var after := WriteCache(c, active, result, filter, noWrite, now, stored);
            && (!result.ok || filter.Some? || noWrite ==> after == stored)
            && (result.ok && filter.None? && !noWrite ==>
                  && after.Some? && after.value.formatVersion == 1 && after.value.ns == active.name
                  && after.value.fingerprint == FingerprintOf(c, active)
                  && after.value.generatedAt == now && after.value.servers == result.cached)
  {
  }

  /** A server's report names it, says whether it is healthy, and lists the tools its upstream gave, each once and in order. */
  lemma ReportsExactly(active: Active, inventories: Inventories, server: string)
    ensures var report := Report(active, inventories, server);
            && report.name == server
            && (report.ok <==> Healthy(active, inventories, server))
            && StrictlySorted(report.tools)
            && (forall tool :: tool in report.tools <==>
                  server in inventories && exists i :: 0 <= i < |inventories[server]| && inventories[server][i].name == tool)
  {
    ServerErrorsExact(active, inventories, server, InventoryFailed(server));
    if server in inventories {
      var names := ToolNames(inventories[server]);
      assert forall tool :: tool in SortedNames(names) <==> tool in names;
      forall tool
        ensures tool in names <==> exists i :: 0 <= i < |inventories[server]| && inventories[server][i].name == tool
      {
        if tool in names { var t :| t in inventories[server] && t.name == tool; }
        if i :| 0 <= i < |inventories[server]| && inventories[server][i].name == tool {
          assert inventories[server][i] in inventories[server];
        }
      }
    }
  }

  /** What the cache keeps of one server: its name, its configured description or none, and its inventory as given. */
  lemma EntriesExactly(c: Toml, inventories: Inventories, server: string)
    requires server in inventories
    ensures var entry := CacheEntry(c, inventories, server);
            && entry.name == server && entry.tools == inventories[server]
            && (server in c.servers && c.servers[server].description.Some? ==> entry.description == c.servers[server].description.value)
            && (server !in c.servers || c.servers[server].description.None? ==> entry.description == "")
  {
  }

  /** `e` comes before `f` in a check's errors: by server, and for one server by missing tool. */
  ghost predicate ErrorBefore(e: CheckError, f: CheckError) {
    Less(e.server, f.server) || (e.server == f.server && e.ToolMissing? && f.ToolMissing? && Less(e.tool, f.tool))
  }

  lemma {:induction false} AbsentSorted(wanted: seq<string>, present: set<string>)
    requires StrictlySorted(wanted)
    ensures StrictlySorted(Absent(wanted, present))
  {
    if wanted != [] {
      var rest := wanted[1..];
      AbsentSorted(rest, present);
      AbsentIsMissing(rest, present);
      var absent := Absent(rest, present);
      forall i | 0 <= i < |absent|
        ensures Less(wanted[0], absent[i])
      {
        assert absent[i] in rest;
        var j :| 0 <= j < |rest| && rest[j] == absent[i];
        assert wanted[j + 1] == rest[j];
      }
    }
  }

  lemma ServerErrorsSorted(active: Active, inventories: Inventories, server: string)
    ensures var errors := ServerErrors(active, inventories, server);
            && (forall i :: 0 <= i < |errors| ==> errors[i].server == server)
            && forall i, j :: 0 <= i < j < |errors| ==> ErrorBefore(errors[i], errors[j])
  {
    if server in inventories {
      AbsentSorted(ExplicitTools(active, server), ToolNames(inventories[server]));
      var missing := Missing(active, inventories, server);
      forall i, j | 0 <= i < j < |missing|
        ensures ErrorBefore(ToolMissing(server, missing[i]), ToolMissing(server, missing[j]))
      {
        assert Less(missing[i], missing[j]);
      }
    }
  }

  /** The errors of a check come in the order of its servers, and each server's in the order of its tools, each once. */
  lemma {:induction false} ErrorsInOrder(active: Active, inventories: Inventories, servers: seq<string>)
    requires StrictlySorted(servers)
    ensures var errors := AllErrors(active, inventories, servers);
            forall i, j :: 0 <= i < j < |errors| ==> ErrorBefore(errors[i], errors[j])
    decreases |servers|
  {
    if servers != [] {
      var front, last := servers[..|servers| - 1], servers[|servers| - 1];
      ErrorsInOrder(active, inventories, front);
      ServerErrorsSorted(active, inventories, last);
      var before := AllErrors(active, inventories, front);
      forall i | 0 <= i < |before|
        ensures Less(before[i].server, last)
      {
        CheckErrorsExact(active, inventories, front, before[i]);
        var j :| 0 <= j < |front| && front[j] == before[i].server;
        assert servers[j] == front[j];
      }
    }
  }
}
