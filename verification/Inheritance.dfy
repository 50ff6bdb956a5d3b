/**
 The inheritance graph and what a namespace ought to resolve to, said without any
 traversal order: the meet, over every namespace reachable through `extends`, of
 their own access lists.
 */
module Inheritance {
  import opened Wrappers
  import opened Config

  /* ---------- the extends graph ---------- */

  ghost predicate Edge(c: Toml, child: string, parent: string) {
    child in c.namespaces && parent in c.namespaces[child].parents
  }

  /** A walk up the inheritance graph, child first. */
  ghost predicate Walk(c: Toml, w: seq<string>) {
    |w| > 0 && forall i :: 0 <= i < |w| - 1 ==> Edge(c, w[i], w[i + 1])
  }

  ghost predicate WalkBetween(c: Toml, w: seq<string>, from: string, to: string) {
    Walk(c, w) && w[0] == from && w[|w| - 1] == to
  }

  ghost predicate Reaches(c: Toml, from: string, to: string) {
    exists w :: WalkBetween(c, w, from, to)
  }

  /** `name` reaches itself through at least one `extends` link. */
  ghost predicate OnCycle(c: Toml, name: string) {
    exists p :: Edge(c, name, p) && Reaches(c, p, name)
  }

  lemma ReachesSelf(c: Toml, a: string)
    ensures Reaches(c, a, a)
  {
    assert WalkBetween(c, [a], a, a);
  }

  lemma ReachesEdge(c: Toml, a: string, b: string)
    requires Edge(c, a, b)
    ensures Reaches(c, a, b)
  {
    assert WalkBetween(c, [a, b], a, b);
  }

  lemma ReachesTransitive(c: Toml, x: string, y: string, z: string)
    requires Reaches(c, x, y) && Reaches(c, y, z)
    ensures Reaches(c, x, z)
  {
    var v :| WalkBetween(c, v, x, y);
    var w :| WalkBetween(c, w, y, z);
    var joined := v + w[1..];
    forall i | 0 <= i < |joined| - 1
      ensures Edge(c, joined[i], joined[i + 1])
    {
      if i >= |v| - 1 {
        assert joined[i] == w[i - (|v| - 1)] && joined[i + 1] == w[i + 1 - (|v| - 1)];
      }
    }
    assert WalkBetween(c, joined, x, z);
  }

  /** A walk that goes anywhere starts with an edge. */
  lemma FirstEdge(c: Toml, a: string, b: string) returns (p: string)
    requires Reaches(c, a, b) && a != b
    ensures Edge(c, a, p) && Reaches(c, p, b)
  {
    var w :| WalkBetween(c, w, a, b);
    p := w[1];
    assert Edge(c, w[0], w[1]);
    forall i | 0 <= i < |w[1..]| - 1
      ensures Edge(c, w[1..][i], w[1..][i + 1])
    {
      assert Edge(c, w[i + 1], w[i + 2]);
    }
    assert WalkBetween(c, w[1..], p, b);
  }

  lemma SubWalk(c: Toml, w: seq<string>, lo: nat, hi: nat)
    requires Walk(c, w) && lo < hi <= |w|
    ensures WalkBetween(c, w[lo..hi], w[lo], w[hi - 1])
    ensures Reaches(c, w[lo], w[hi - 1])
  {
    var v := w[lo..hi];
    forall i | 0 <= i < |v| - 1
      ensures Edge(c, v[i], v[i + 1])
    {
      assert Edge(c, w[lo + i], w[lo + i + 1]);
    }
    assert WalkBetween(c, v, w[lo], w[hi - 1]);
  }

  /* ---------- reachable namespaces ---------- */

  ghost function ReachSet(c: Toml, name: string): set<string> {
    set m | m in c.namespaces && Reaches(c, name, m)
  }

  ghost function ReachAll(c: Toml, names: seq<string>): set<string> {
    set m | m in c.namespaces && exists p :: p in names && Reaches(c, p, m)
  }

  ghost predicate ReachableClosed(c: Toml, name: string) {
    forall m :: Reaches(c, name, m) ==> m in c.namespaces
  }

  ghost predicate ReachableAcyclic(c: Toml, name: string) {
    forall m :: Reaches(c, name, m) ==> !OnCycle(c, m)
  }

  lemma ReachUnfold(c: Toml, name: string)
    requires name in c.namespaces
    ensures ReachSet(c, name) == {name} + ReachAll(c, c.namespaces[name].parents)
  {
    ReachesSelf(c, name);
    forall m | m in ReachSet(c, name) && m != name
      ensures m in ReachAll(c, c.namespaces[name].parents)
    {
      var p := FirstEdge(c, name, m);
    }
    forall m | m in ReachAll(c, c.namespaces[name].parents)
      ensures m in ReachSet(c, name)
    {
      var p :| p in c.namespaces[name].parents && Reaches(c, p, m);
      ReachesEdge(c, name, p);
      ReachesTransitive(c, name, p, m);
    }
  }

  lemma ReachSetMonotone(c: Toml, child: string, ancestor: string)
    requires Reaches(c, child, ancestor)
    ensures ReachSet(c, ancestor) <= ReachSet(c, child)
  {
    forall m | m in ReachSet(c, ancestor)
      ensures m in ReachSet(c, child)
    {
      ReachesTransitive(c, child, ancestor, m);
    }
  }

  /* ---------- the meet of a set of namespaces ---------- */

  ghost predicate HasFilter(c: Toml, m: string, server: string) {
    m in c.namespaces && server in c.namespaces[m].tools
  }

  ghost predicate Lists(c: Toml, m: string, server: string, tool: string) {
    HasFilter(c, m, server) && tool in c.namespaces[m].tools[server]
  }

  ghost function MeetServers(c: Toml, nodes: set<string>): set<string> {
    set m, s | m in nodes && m in c.namespaces && s in c.namespaces[m].servers :: s
  }

  ghost function FilteredServers(c: Toml, nodes: set<string>): set<string> {
    set m, s | m in nodes && m in c.namespaces && s in c.namespaces[m].tools :: s
  }

  /** The tools every namespace of `nodes` that filters `server` lists. */
  ghost function CommonTools(c: Toml, nodes: set<string>, server: string): set<string> {
    set m, t | m in nodes && HasFilter(c, m, server) && t in c.namespaces[m].tools[server] &&
               (forall k :: k in nodes && HasFilter(c, k, server) ==> Lists(c, k, server, t)) :: t
  }

  ghost function MeetOf(c: Toml, nodes: set<string>): Acl {
    Acl(MeetServers(c, nodes),
        map server | server in FilteredServers(c, nodes) :: CommonTools(c, nodes, server))
  }

  lemma MeetOfNone(c: Toml)
    ensures MeetOf(c, {}) == EMPTY_ACL
  {
  }

  lemma MeetOfOne(c: Toml, name: string)
    requires name in c.namespaces
    ensures MeetOf(c, {name}) == Acl(ToSet(c.namespaces[name].servers), OwnFilters(c.namespaces[name].tools))
  {
    var own := OwnFilters(c.namespaces[name].tools);
    assert FilteredServers(c, {name}) == own.Keys;
    forall server | server in own
      ensures CommonTools(c, {name}, server) == own[server]
    {
      assert HasFilter(c, name, server);
      forall t | t in own[server]
        ensures t in CommonTools(c, {name}, server)
      {
        assert Lists(c, name, server, t);
      }
    }
    assert MeetServers(c, {name}) == ToSet(c.namespaces[name].servers);
  }

  lemma CommonToolsUnion(c: Toml, a: set<string>, b: set<string>, server: string)
    requires server in FilteredServers(c, a) && server in FilteredServers(c, b)
    ensures CommonTools(c, a + b, server) == CommonTools(c, a, server) * CommonTools(c, b, server)
  {
  }

  lemma CommonToolsLeft(c: Toml, a: set<string>, b: set<string>, server: string)
    requires server !in FilteredServers(c, b)
    ensures CommonTools(c, a + b, server) == CommonTools(c, a, server)
  {
  }

  /**
   Merging is the meet of a union of namespaces, so repeated parents and diamonds
   change nothing.
   */
  lemma MeetOfUnion(c: Toml, a: set<string>, b: set<string>)
    ensures MeetOf(c, a + b) == Merge(MeetOf(c, a), MeetOf(c, b))
  {
    assert MeetServers(c, a + b) == MeetServers(c, a) + MeetServers(c, b);
    assert FilteredServers(c, a + b) == FilteredServers(c, a) + FilteredServers(c, b);
    forall server | server in FilteredServers(c, a) || server in FilteredServers(c, b)
      ensures CommonTools(c, a + b, server) == MeetOfTools(c, a, b, server)
    {
      CommonToolsMerge(c, a, b, server);
    }
    MeetToolsMerge(c, a, b);
  }

  /** What merging two meets leaves of one server's tools. */
  ghost function MeetOfTools(c: Toml, a: set<string>, b: set<string>, server: string): set<string> {
    if server in FilteredServers(c, a) && server in FilteredServers(c, b) then CommonTools(c, a, server) * CommonTools(c, b, server)
    else if server in FilteredServers(c, a) then CommonTools(c, a, server)
    else CommonTools(c, b, server)
  }

  lemma CommonToolsMerge(c: Toml, a: set<string>, b: set<string>, server: string)
    requires server in FilteredServers(c, a) || server in FilteredServers(c, b)
    ensures CommonTools(c, a + b, server) == MeetOfTools(c, a, b, server)
  {
    if server !in FilteredServers(c, b) {
      CommonToolsLeft(c, a, b, server);
    } else if server !in FilteredServers(c, a) {
      assert a + b == b + a;
      CommonToolsLeft(c, b, a, server);
    } else {
      CommonToolsUnion(c, a, b, server);
    }
  }

  lemma MeetToolsMerge(c: Toml, a: set<string>, b: set<string>)
    requires FilteredServers(c, a + b) == FilteredServers(c, a) + FilteredServers(c, b)
    requires forall server :: server in FilteredServers(c, a) || server in FilteredServers(c, b) ==>
               CommonTools(c, a + b, server) == MeetOfTools(c, a, b, server)
    ensures MeetOf(c, a + b).tools == MergeFilters(MeetOf(c, a).tools, MeetOf(c, b).tools)
  {
    var union, merged := MeetOf(c, a + b).tools, MergeFilters(MeetOf(c, a).tools, MeetOf(c, b).tools);
    assert union.Keys == merged.Keys;
    forall server | server in union
      ensures union[server] == merged[server]
    {
      MergedTools(c, a, b, server);
    }
  }

  lemma MergedTools(c: Toml, a: set<string>, b: set<string>, server: string)
    requires server in FilteredServers(c, a) || server in FilteredServers(c, b)
    ensures var merged := MergeFilters(MeetOf(c, a).tools, MeetOf(c, b).tools);
            server in merged && merged[server] == MeetOfTools(c, a, b, server)
  {
  }

  /** A tool is in the meet exactly when every member that filters its server lists it. */
  lemma MeetAllows(c: Toml, nodes: set<string>, server: string, tool: string)
    ensures MeetOf(c, nodes).AllowsTool(server, tool) <==>
            && server in MeetServers(c, nodes)
            && forall m :: m in nodes && HasFilter(c, m, server) ==> Lists(c, m, server, tool)
  {
  }
}
