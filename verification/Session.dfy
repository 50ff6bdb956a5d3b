/** From a validated configuration to everything its session may do upstream. */
module Session {
  import opened Config
  import opened Inheritance
  import opened ResolverCorrect
  import opened ActiveNamespace
  import opened Validation
  import opened Gate
  import opened Registry
  import opened RegistrySafety

  ghost function SessionEnv(c: Toml, selected: string): Env
    requires Valid(c, selected)
  {
    ValidatedIsTotal(c, selected);
    Env(c.servers.Keys, Activate(c, selected).value.acl)
  }

  /**
   Whatever requests arrive and however they interleave: a connection is only made to a
   configured server some namespace of the inheritance chain lists, and a call is only
   forwarded for a tool that every namespace of the chain filtering that server names.
   */
  lemma SessionRespectsConfiguration(c: Toml, selected: string, states: seq<Sys>, actions: seq<Action>, i: nat, e: Event)
    requires Valid(c, selected)
    requires IsRun(SessionEnv(c, selected), states, actions) && i < |states| && e in states[i].log
    ensures var chain := ReachSet(c, SelectedName(selected));
            && e.server in c.servers
            && (exists m :: m in chain && e.server in c.namespaces[m].servers)
            && (e.Forwarded? ==> forall m :: m in chain && HasFilter(c, m, e.server) ==> Lists(c, m, e.server, e.tool))
            && (e.Forwarded? ==> e.tool in e.seen.tools)
  {
    var env := SessionEnv(c, selected);
    var name := SelectedName(selected);
    RunsRespectAcl(env, states, actions, i);
    ValidatedIsTotal(c, selected);
    assert EventAllowed(env, e);
    assert NamespaceOk(c, name);
    ResolveIsMeet(c, name);
    if e.Forwarded? {
      MeetAllows(c, ReachSet(c, name), e.server, e.tool);
    }
    assert e.server in MeetServers(c, ReachSet(c, name));
  }

  /** A list request in a validated session is never cut short by an unconfigured server. */
  lemma ListVisitsEveryServer(c: Toml, selected: string, states: seq<Sys>, actions: seq<Action>, i: nat, t: TaskId)
    requires Valid(c, selected) && IsRun(SessionEnv(c, selected), states, actions) && i < |states|
    requires t in states[i].tasks && states[i].tasks[t].goal.List? && states[i].tasks[t].goal.rest != []
    requires HasTask(states[i], t) && CanRun(states[i], states[i].tasks[t]) && states[i].tasks[t].pc.ReadTools?
    ensures var rest := states[i].tasks[t].goal.rest;
            RunTask(SessionEnv(c, selected), states[i], t).tasks[t] == Task(rest[0], List(rest[1..]), FastRead)
  {
    var env := SessionEnv(c, selected);
    RunsRespectAcl(env, states, actions, i);
    ValidatedIsTotal(c, selected);
    var task := states[i].tasks[t];
    assert Permitted(env, task.server, task.goal);
    assert task.goal.rest[0] in task.goal.rest;
    assert NamespaceOk(c, SelectedName(selected));
  }
}
