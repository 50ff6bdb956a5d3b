/**
 The memoised three-colour depth-first resolver: `Visit` and `VisitParents` say on
 values what the class does in place on its `states` and `resolved` tables.
 */
module Resolver {
  import opened Wrappers
  import opened Config

  const MAX_DEPTH: nat := 64

  datatype VisitState = Visiting | Done

  /** One invocation of the resolver; `entered` when it went on to process the namespace itself. */
  datatype Call = Call(name: string, depth: nat, entered: bool)

  /** The shared tables, with the log of calls made so far. */
  datatype Memo = Memo(states: map<string, VisitState>, resolved: map<string, Acl>, calls: seq<Call>) {
    function Logged(call: Call): Memo {
      this.(calls := calls + [call])
    }
  }

  const EMPTY_MEMO := Memo(map[], map[], [])

  datatype Outcome = Outcome(result: Result<Acl, StartupError>, memo: Memo)

  function DepthLeft(depth: nat): nat {
    if depth > MAX_DEPTH then 0 else MAX_DEPTH + 1 - depth
  }

  function MissingError(name: string, child: Option<string>): StartupError {
    match child
    case Some(child) => UnknownNamespaceParent(child, name)
    case None => UnknownNamespace(name)
  }

  function Visit(c: Toml, name: string, child: Option<string>, depth: nat, memo: Memo): Outcome
    decreases DepthLeft(depth), 1, 0
  {
    var refused := memo.Logged(Call(name, depth, false));
    if depth > MAX_DEPTH then
      Outcome(Err(NamespaceInheritanceTooDeep(name, MAX_DEPTH)), refused)
    else if name in memo.states && memo.states[name].Visiting? then
      Outcome(Err(NamespaceExtendsCycle(name)), refused)
    else if name in memo.states then
      if name in memo.resolved then Outcome(Ok(memo.resolved[name]), refused)
      else Outcome(Err(NamespaceExtendsCycle(name)), refused)
    else if name !in c.namespaces then
      Outcome(Err(MissingError(name, child)), refused)
    else
      var parents := VisitParents(c, name, 0, depth, EMPTY_ACL, Begin(name, depth, memo));
      if parents.result.Err? then parents
      else Finish(c, name, parents.result.value, parents.memo)
  }

  function VisitParents(c: Toml, child: string, i: nat, depth: nat, acc: Acl, memo: Memo): Outcome
    requires child in c.namespaces && i <= |c.namespaces[child].parents|
    requires depth <= MAX_DEPTH
    decreases DepthLeft(depth), 0, |c.namespaces[child].parents| - i
  {
    var parents := c.namespaces[child].parents;
    if i == |parents| then
      Outcome(Ok(acc), memo)
    else
      var parent := Visit(c, parents[i], Some(child), depth + 1, memo);
      if parent.result.Err? then parent
      else VisitParents(c, child, i + 1, depth, Merge(acc, parent.result.value), parent.memo)
  }

  function Begin(name: string, depth: nat, memo: Memo): Memo {
    memo.Logged(Call(name, depth, true)).(states := memo.states[name := Visiting])
  }

  function Own(c: Toml, name: string): Acl
    requires name in c.namespaces
  {
    Acl(ToSet(c.namespaces[name].servers), OwnFilters(c.namespaces[name].tools))
  }

  function Finish(c: Toml, name: string, inherited: Acl, memo: Memo): Outcome
    requires name in c.namespaces
  {
    var effective := Merge(inherited, Own(c, name));
    Outcome(Ok(effective), memo.(states := memo.states[name := Done], resolved := memo.resolved[name := effective]))
  }

  function Resolve(c: Toml, name: string): Result<Acl, StartupError> {
    Visit(c, name, None, 0, EMPTY_MEMO).result
  }

  /** The resolver with its two mutable tables. */
  class ResolverState {
    const config: Toml
    var states: map<string, VisitState>
    var resolved: map<string, Acl>
    ghost var calls: seq<Call>

    ghost function Snapshot(): Memo
      reads this
    {
      Memo(states, resolved, calls)
    }

    constructor (config: Toml)
      ensures this.config == config && Snapshot() == EMPTY_MEMO
    {
      this.config := config;
      states, resolved, calls := map[], map[], [];
    }

    method Inner(name: string, child: Option<string>, depth: nat) returns (r: Result<Acl, StartupError>)
      modifies this
      ensures Outcome(r, Snapshot()) == Visit(config, name, child, depth, old(Snapshot()))
      decreases DepthLeft(depth)
    {
      if depth > MAX_DEPTH {
        calls := calls + [Call(name, depth, false)];
        return Err(NamespaceInheritanceTooDeep(name, MAX_DEPTH));
      }
      if name in states {
        calls := calls + [Call(name, depth, false)];
        if states[name] == Visiting {
          return Err(NamespaceExtendsCycle(name));
        }
        return if name in resolved then Ok(resolved[name]) else Err(NamespaceExtendsCycle(name));
      }
      if name !in config.namespaces {
        calls := calls + [Call(name, depth, false)];
        return Err(MissingError(name, child));
      }
      calls := calls + [Call(name, depth, true)];
      var ns := config.namespaces[name];
      states := states[name := Visiting];
      var effective := EMPTY_ACL;
      ghost var begun := Snapshot();
      for i := 0 to |ns.parents|
        invariant VisitParents(config, name, 0, depth, EMPTY_ACL, begun)
               == VisitParents(config, name, i, depth, effective, Snapshot())
      {
        var parent := Inner(ns.parents[i], Some(name), depth + 1);
        if parent.Err? {
          return parent;
        }
        effective := MergeResolvedNamespace(effective, parent.value);
      }
      var tools := MergeToolFilters(effective.tools, OwnFilters(ns.tools));
      effective := Acl(effective.servers + ToSet(ns.servers), tools);
      states := states[name := Done];
      resolved := resolved[name := effective];
      return Ok(effective);
    }
  }

  method ResolveNamespace(config: Toml, name: string) returns (r: Result<Acl, StartupError>)
    ensures r == Resolve(config, name)
  {
    var state := new ResolverState(config);
    r := state.Inner(name, None, 0);
  }
}
