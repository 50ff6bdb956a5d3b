/**
 The registry as the object it is. Its tables are fields, and each section of
 `get_or_connect`, `ensure_fresh` and the notification handler that runs without yielding
 is a method. The object carries the history of its own steps, and every section keeps
 that history a run of the step system, so whatever holds of runs holds of the object.
 */
module RegistryObject {
  import opened Wrappers
  import opened Gate
  import opened Registry
  import opened RegistrySafety
  import opened Freshness

  lemma ExtendRun(env: Env, states: seq<Sys>, actions: seq<Action>, a: Action)
    requires IsRun(env, states, actions) && Enabled(env, states[|actions|], a)
    ensures IsRun(env, states + [Next(env, states[|actions|], a)], actions + [a])
  {
    var s' := Next(env, states[|actions|], a);
    forall i | 0 <= i < |actions + [a]|
      ensures StepAt(env, states + [s'], actions + [a], i)
    {
      if i < |actions| { assert StepAt(env, states, actions, i); }
    }
  }

  predicate SameLive(c: Conn, d: Conn) {
    c.live && d.live && c.server == d.server
  }

  /** No server has two live connections. */
  ghost predicate OneLive(s: Sys) {
    forall c, d :: c in s.conns && d in s.conns && SameLive(s.conns[c], s.conns[d]) ==> c == d
  }

  /** What every step keeps: entries, one live connection per server, the access list, and freshness unless it is a losing step. */
  ghost predicate Kept(env: Env, before: Sys, a: Action, after: Sys) {
    && (forall server :: server in before.entries ==>
          server in after.entries && after.entries[server] == before.entries[server])
    && OneLive(after)
    && AclInv(env, after)
    && (AllFresh(before) ==> (AllFresh(after) <==> !Loses(before, a)))
  }

  lemma RunIsSound(env: Env, states: seq<Sys>, actions: seq<Action>)
    requires IsRun(env, states, actions)
    ensures var s := states[|actions|]; Inv(s) && VersionInv(s) && AclInv(env, s) && OneLive(s)
  {
    var s := states[|actions|];
    RunInv(env, states, actions, |actions|);
    RunVersions(env, states, actions, |actions|);
    RunsRespectAcl(env, states, actions, |actions|);
    forall c, d | c in s.conns && d in s.conns && SameLive(s.conns[c], s.conns[d])
      ensures c == d
    {
      SingleConnection(env, states, actions, |actions|, c, d);
    }
  }

  lemma StepIsKept(env: Env, states: seq<Sys>, actions: seq<Action>, a: Action)
    requires IsRun(env, states, actions) && Enabled(env, states[|actions|], a)
    ensures Kept(env, states[|actions|], a, Next(env, states[|actions|], a))
  {
    var s := states[|actions|];
    RunIsSound(env, states, actions);
    ExtendRun(env, states, actions, a);
    RunIsSound(env, states + [Next(env, s, a)], actions + [a]);
    StepGrowsEntries(env, s, a);
    if AllFresh(s) { StepFreshness(env, s, a); }
  }

  /** Connections other than `conn` are as they were. */
  ghost predicate OthersSame(before: map<ConnId, Conn>, after: map<ConnId, Conn>, conn: ConnId) {
    before.Keys == after.Keys && forall c :: c in before && c != conn ==> after[c] == before[c]
  }

  class RegistryState {
    const env: Env
    var entries: map<string, ConnId>
    var initGuards: map<string, Option<TaskId>>
    var conns: map<ConnId, Conn>
    var tasks: map<TaskId, Task>
    ghost var log: seq<Event>
    ghost var states: seq<Sys>
    ghost var actions: seq<Action>

    ghost function Snapshot(): Sys
      reads this
    {
      Sys(entries, initGuards, conns, tasks, log)
    }

    /** The history is a run and the fields are its last state. */
    ghost predicate Valid()
      reads this
    {
      IsRun(env, states, actions) && states[|actions|] == Snapshot()
    }

    /** The history has grown by step `a`, which kept what every step keeps. */
    ghost predicate Took(past: seq<Sys>, done: seq<Action>, a: Action)
      reads this
    {
      && Valid()
      && |past| == |done| + 1
      && states == past + [Snapshot()] && actions == done + [a]
      && Kept(env, past[|done|], a, Snapshot())
    }

    /** The entry of `server` is a live connection to it that holds an inventory. */
    ghost predicate Ready(server: string)
      reads this
    {
      server in entries && entries[server] in conns
      && var conn := conns[entries[server]];
         conn.live && conn.server == server && conn.cached.Some?
    }

    ghost predicate At(t: TaskId)
      reads this
    {
      HasTask(Snapshot(), t) && CanRun(Snapshot(), tasks[t])
    }

    constructor (env: Env)
      ensures this.env == env && Valid() && Snapshot() == INIT
    {
      this.env := env;
      entries, initGuards, conns, tasks, log := map[], map[], map[], map[], [];
      states, actions := [INIT], [];
    }

    /** What holds of a registry between any two sections. */
    lemma Sound()
      requires Valid()
      ensures Inv(Snapshot()) && VersionInv(Snapshot()) && AclInv(env, Snapshot()) && OneLive(Snapshot())
      ensures forall server :: server in entries ==> Ready(server)
    {
      RunIsSound(env, states, actions);
      forall server | server in entries
        ensures Ready(server)
      {
        assert EntryInv(Snapshot(), server);
      }
    }

    ghost method Record(a: Action)
      requires IsRun(env, states, actions) && Enabled(env, states[|actions|], a)
      requires Snapshot() == Next(env, states[|actions|], a)
      modifies this`states, this`actions
      ensures Took(old(states), old(actions), a)
    {
      ExtendRun(env, states, actions, a);
      StepIsKept(env, states, actions, a);
      states, actions := states + [Snapshot()], actions + [a];
    }

    method MoveTo(t: TaskId, pc: Pc)
      requires t in tasks
      modifies this`tasks
      ensures tasks == old(tasks)[t := old(tasks[t]).(pc := pc)]
    {
      tasks := tasks[t := tasks[t].(pc := pc)];
    }

    /** A refused request changes nothing; an admitted one becomes a task that is within its rights. */
    method StartRequest(t: TaskId, request: MetaRequest)
      requires Valid() && t !in tasks
      modifies this
      ensures Took(old(states), old(actions), Request(t, request))
      ensures entries == old(entries) && initGuards == old(initGuards) && conns == old(conns) && log == old(log)
      ensures if Admit(env, request).Admitted? then tasks.Keys == old(tasks.Keys) + {t} && tasks[t].pc == FastRead
              else tasks == old(tasks)
      ensures t in tasks ==> Permitted(env, tasks[t].server, tasks[t].goal) && Asks(env, request, tasks[t].server, tasks[t].goal)
      ensures forall u :: u in old(tasks) ==> u in tasks && tasks[u] == old(tasks)[u]
    {
      var verdict := Admit(env, request);
      if verdict.Admitted? {
        AdmitsExactly(env, request, verdict.server, verdict.goal);
        tasks := tasks[t := Task(verdict.server, verdict.goal, FastRead)];
      } else {
        RefusalChangesNothing(env, Snapshot(), t, request);
      }
      Record(Request(t, request));
    }

    /** Without any guard, an entry is returned only if it is ready for use. */
    method FastLookup(t: TaskId)
      requires Valid() && At(t) && tasks[t].pc.FastRead?
      modifies this
      ensures Took(old(states), old(actions), Run(t))
      ensures entries == old(entries) && initGuards == old(initGuards) && conns == old(conns)
      ensures t in tasks && var server := old(tasks[t]).server;
              if server in entries then
                Ready(server) && tasks[t].pc == Load(entries[server]) && log == old(log) + [Got(server, entries[server])]
              else tasks[t].pc == GuardTable && log == old(log)
    {
      Sound();
      var server := tasks[t].server;
      if server in entries {
        MoveTo(t, Load(entries[server]));
        log := log + [Got(server, entries[server])];
      } else {
        MoveTo(t, GuardTable);
      }
      Record(Run(t));
    }

    /** Afterwards the server has a guard, and no other guard has changed hands. */
    method FetchGuard(t: TaskId)
      requires Valid() && At(t) && tasks[t].pc.GuardTable?
      modifies this
      ensures Took(old(states), old(actions), Run(t))
      ensures entries == old(entries) && conns == old(conns)
      ensures t in tasks && tasks[t].pc == GuardWait && initGuards.Keys == old(initGuards.Keys) + {old(tasks[t]).server}
      ensures forall g :: g in initGuards ==> initGuards[g] == if g in old(initGuards) then old(initGuards)[g] else None
    {
      var server := tasks[t].server;
      if server !in initGuards {
        initGuards := initGuards[server := None];
      }
      MoveTo(t, GuardWait);
      Record(Run(t));
    }

    /** Mutual exclusion: no other task is inside the guarded section, and no connection to the server is being built. */
    method LockGuard(t: TaskId)
      requires Valid() && At(t) && tasks[t].pc.GuardWait?
      modifies this
      ensures Took(old(states), old(actions), Run(t))
      ensures entries == old(entries) && conns == old(conns)
      ensures t in tasks && tasks[t].pc == SecondRead && initGuards == old(initGuards)[old(tasks[t]).server := Some(t)]
      ensures var server := old(tasks[t]).server;
              && (forall u :: u in tasks && u != t && tasks[u].server == server ==> !tasks[u].pc.Holds())
              && (forall c :: c in conns && conns[c].live && conns[c].server == server ==>
                    server in entries && entries[server] == c)
    {
      Sound();
      GuardExcludes(t);
      initGuards := initGuards[tasks[t].server := Some(t)];
      MoveTo(t, SecondRead);
      Record(Run(t));
    }

    lemma GuardExcludes(t: TaskId)
      requires Inv(Snapshot()) && t in tasks && tasks[t].server in initGuards && initGuards[tasks[t].server].None?
      ensures var server := tasks[t].server;
              && (forall u :: u in tasks && tasks[u].server == server ==> !tasks[u].pc.Holds())
              && (forall c :: c in conns && conns[c].live && conns[c].server == server ==>
                    server in entries && entries[server] == c)
    {
      var s := Snapshot();
      forall u | u in tasks && tasks[u].server == tasks[t].server
        ensures !tasks[u].pc.Holds()
      {
        assert TaskInv(s, u);
      }
      forall c | c in conns && conns[c].live && conns[c].server == tasks[t].server
        ensures Installed(s, c)
      {
        assert Installed(s, c) || UnderGuard(s, c);
      }
    }

    /** A task goes on to connect only while its server has no live connection at all. */
    method GuardedLookup(t: TaskId)
      requires Valid() && At(t) && tasks[t].pc.SecondRead?
      modifies this
      ensures Took(old(states), old(actions), Run(t))
      ensures entries == old(entries) && conns == old(conns) && t in tasks
      ensures var server := old(tasks[t]).server;
              if server in entries then
                Ready(server) && tasks[t].pc == Load(entries[server]) && log == old(log) + [Got(server, entries[server])]
              else tasks[t].pc == (if server in env.configured then Resolving else Finished) && log == old(log)
      ensures var server := old(tasks[t]).server;
              && initGuards == old(initGuards)[server := if tasks[t].pc.Resolving? then Some(t) else None]
              && (tasks[t].pc.Resolving? ==> forall c :: c in conns && conns[c].server == server ==> !conns[c].live)
    {
      var server := tasks[t].server;
      if server in entries {
        Sound();
        MoveTo(t, Load(entries[server]));
        log := log + [Got(server, entries[server])];
        initGuards := initGuards[server := None];
      } else if server in env.configured {
        Sound();
        NothingBuilt(t);
        MoveTo(t, Resolving);
      } else {
        MoveTo(t, Finished);
        initGuards := initGuards[server := None];
      }
      Record(Run(t));
    }

    lemma NothingBuilt(t: TaskId)
      requires Inv(Snapshot()) && t in tasks && (tasks[t].pc.SecondRead? || tasks[t].pc.Resolving?)
      ensures var server := tasks[t].server;
              && server in initGuards && initGuards[server] == Some(t)
              && forall c :: c in conns && conns[c].live && conns[c].server == server ==> server in entries && entries[server] == c
    {
      var s := Snapshot();
      assert TaskInv(s, t);
      forall c | c in conns && conns[c].live && conns[c].server == tasks[t].server
        ensures Installed(s, c)
      {
        assert Installed(s, c) || UnderGuard(s, c);
      }
    }

    /** The new connection is its server's only live one, and starts clean and without an inventory. */
    method Open(t: TaskId, conn: ConnId, offered: set<string>)
      requires Valid() && Enabled(env, Snapshot(), Connect(t, conn, offered))
      modifies this
      ensures Took(old(states), old(actions), Connect(t, conn, offered))
      ensures entries == old(entries) && initGuards == old(initGuards)
      ensures t in tasks && tasks[t].pc == Connecting(conn, None) && log == old(log) + [Connected(old(tasks[t]).server, conn)]
      ensures conns.Keys == old(conns.Keys) + {conn} && forall c :: c in old(conns) ==> conns[c] == old(conns)[c]
      ensures !conns[conn].dirty && conns[conn].cached.None? && conns[conn].live && conns[conn].server == old(tasks[t]).server
      ensures forall c :: c in conns && conns[c].live && conns[c].server == conns[conn].server ==> c == conn
    {
      conns := conns[conn := Conn(tasks[t].server, true, Inventory(0, offered), 0, false, None)];
      log := log + [Connected(tasks[t].server, conn)];
      MoveTo(t, Connecting(conn, None));
      Record(Connect(t, conn, offered));
    }

    /** The first inventory is not behind any notification unless the flag says so. */
    method TakeFirstInventory(t: TaskId)
      requires Valid() && Enabled(env, Snapshot(), Receive(t)) && tasks[t].pc.Connecting?
      modifies this
      ensures Took(old(states), old(actions), Receive(t))
      ensures entries == old(entries) && initGuards == old(initGuards)
      ensures var conn := old(tasks[t]).pc.conn;
              && t in tasks && tasks[t].pc == Inserting(conn)
              && OthersSame(old(conns), conns, conn) && conn in conns
              && conns[conn] == old(conns)[conn].(cached := old(tasks[t]).pc.answer)
              && conns[conn].cached.Some?
              && (conns[conn].dirty || UpToDate(Snapshot(), conn))
    {
      Sound();
      assert VersionTask(Snapshot(), t);
      var pc := tasks[t].pc;
      conns := conns[pc.conn := conns[pc.conn].(cached := pc.answer)];
      MoveTo(t, Inserting(pc.conn));
      Record(Receive(t));
    }

    /** A refetched inventory, not yet installed, is at least as new as what was notified when the flag was cleared. */
    method TakeRefetched(t: TaskId)
      requires Valid() && Enabled(env, Snapshot(), Receive(t)) && tasks[t].pc.Refetching?
      modifies this
      ensures Took(old(states), old(actions), Receive(t))
      ensures entries == old(entries) && initGuards == old(initGuards) && conns == old(conns)
      ensures var pc := old(tasks[t]).pc;
              && t in tasks && tasks[t].pc == Installing(pc.conn, pc.base, pc.answer.value)
              && pc.base <= pc.answer.value.version
    {
      Sound();
      assert VersionTask(Snapshot(), t);
      var pc := tasks[t].pc;
      MoveTo(t, Installing(pc.conn, pc.base, pc.answer.value));
      Record(Receive(t));
    }

    /** The server had no entry and now has a ready one, as fresh as an entry can be; the guard is free again. */
    method InsertEntry(t: TaskId)
      requires Valid() && At(t) && tasks[t].pc.Inserting?
      modifies this
      ensures Took(old(states), old(actions), Run(t))
      ensures conns == old(conns)
      ensures var server, conn := old(tasks[t]).server, old(tasks[t]).pc.conn;
              && server !in old(entries) && entries == old(entries)[server := conn] && Ready(server)
              && initGuards == old(initGuards)[server := None]
              && t in tasks && tasks[t].pc == Load(conn) && log == old(log) + [Got(server, conn)]
              && (conns[conn].dirty || UpToDate(Snapshot(), conn))
    {
      Sound();
      assert TaskInv(Snapshot(), t) && VersionTask(Snapshot(), t);
      var server, conn := tasks[t].server, tasks[t].pc.conn;
      entries := entries[server := conn];
      MoveTo(t, Load(conn));
      log := log + [Got(server, conn)];
      initGuards := initGuards[server := None];
      Record(Run(t));
    }

    /** Only looks: a task goes for a swap exactly when its server's entry is marked. */
    method LoadDirty(t: TaskId)
      requires Valid() && At(t) && tasks[t].pc.Load?
      modifies this
      ensures Took(old(states), old(actions), Run(t))
      ensures entries == old(entries) && initGuards == old(initGuards) && conns == old(conns)
      ensures var server := old(tasks[t]).server;
              && Ready(server) && t in tasks
              && tasks[t].pc == if conns[entries[server]].dirty then Swap(entries[server]) else ReadTools(entries[server])
    {
      Sound();
      assert TaskInv(Snapshot(), t);
      var conn := tasks[t].pc.conn;
      MoveTo(t, if conns[conn].dirty then Swap(conn) else ReadTools(conn));
      Record(Run(t));
    }

    /** The flag ends clear; if it was set, this task and no other has taken on the refetch it stood for. */
    method SwapDirty(t: TaskId)
      requires Valid() && At(t) && tasks[t].pc.Swap?
      modifies this
      ensures Took(old(states), old(actions), Run(t))
      ensures entries == old(entries) && initGuards == old(initGuards)
      ensures var conn := old(tasks[t]).pc.conn;
              && conn in conns && !conns[conn].dirty && OthersSame(old(conns), conns, conn)
              && (old(conns)[conn].dirty ==> Pending(Snapshot(), t, conn))
              && (!old(conns)[conn].dirty ==> conns == old(conns) && t in tasks && tasks[t].pc == ReadTools(conn))
              && (forall u :: u != t ==> (Pending(Snapshot(), u, conn) <==> Pending(old(Snapshot()), u, conn)))
    {
      var conn := tasks[t].pc.conn;
      var wasDirty := conns[conn].dirty;
      var base := conns[conn].notified;
      conns := conns[conn := conns[conn].(dirty := false)];
      if wasDirty {
        MoveTo(t, Refetching(conn, base, None));
      } else {
        assert conns == old(conns);
        MoveTo(t, ReadTools(conn));
      }
      Record(Run(t));
    }

    /** Replaces one connection's inventory; one refetched since the last notification brings the entry up to date. */
    method InstallTools(t: TaskId)
      requires Valid() && At(t) && tasks[t].pc.Installing?
      modifies this
      ensures Took(old(states), old(actions), Run(t))
      ensures entries == old(entries) && initGuards == old(initGuards)
      ensures var pc := old(tasks[t]).pc;
              && pc.conn in conns && OthersSame(old(conns), conns, pc.conn)
              && conns[pc.conn] == old(conns)[pc.conn].(cached := Some(pc.newer))
              && t in tasks && tasks[t].pc == ReadTools(pc.conn)
              && (pc.base == conns[pc.conn].notified ==> UpToDate(Snapshot(), pc.conn))
    {
      Sound();
      assert VersionTask(Snapshot(), t);
      var pc := tasks[t].pc;
      conns := conns[pc.conn := conns[pc.conn].(cached := Some(pc.newer))];
      MoveTo(t, ReadTools(pc.conn));
      Record(Run(t));
    }

    /** After a failed refetch the entry is marked again, so a later request retries. */
    method RestoreDirty(t: TaskId)
      requires Valid() && At(t) && tasks[t].pc.Restoring?
      modifies this
      ensures Took(old(states), old(actions), Run(t))
      ensures entries == old(entries) && initGuards == old(initGuards)
      ensures var conn := old(tasks[t]).pc.conn;
              && conn in conns && OthersSame(old(conns), conns, conn)
              && conns[conn] == old(conns)[conn].(dirty := true) && Fresh(Snapshot(), conn)
              && t in tasks && tasks[t].pc == Finished
    {
      var conn := tasks[t].pc.conn;
      conns := conns[conn := conns[conn].(dirty := true)];
      MoveTo(t, Finished);
      Record(Run(t));
    }

    /** A failed or timed-out refetch is not forgotten: its task stays pending for the entry until it has marked it again. */
    method FailRefetch(t: TaskId)
      requires Valid() && Enabled(env, Snapshot(), Fail(t)) && tasks[t].pc.Refetching?
      modifies this
      ensures Took(old(states), old(actions), Fail(t))
      ensures entries == old(entries) && initGuards == old(initGuards) && conns == old(conns)
      ensures Pending(Snapshot(), t, old(tasks[t]).pc.conn)
    {
      MoveTo(t, Restoring(tasks[t].pc.conn));
      Record(Fail(t));
    }

    /** The upstream answers a list request with no less than it has announced. */
    method UpstreamAnswers(t: TaskId)
      requires Valid() && Enabled(env, Snapshot(), Answer(t))
      modifies this
      ensures Took(old(states), old(actions), Answer(t))
      ensures entries == old(entries) && initGuards == old(initGuards) && conns == old(conns)
      ensures t in tasks && (tasks[t].pc.Connecting? || tasks[t].pc.Refetching?)
      ensures var conn := old(tasks[t]).pc.conn;
              conn in conns && tasks[t].pc.answer == Some(conns[conn].current) && conns[conn].notified <= conns[conn].current.version
    {
      Sound();
      var pc := tasks[t].pc;
      MoveTo(t, pc.(answer := Some(conns[pc.conn].current)));
      Record(Answer(t));
    }

    /** An upstream that changes silently leaves every flag, cache and entry alone. */
    method UpstreamChanges(conn: ConnId, tools: set<string>)
      requires Valid() && Enabled(env, Snapshot(), Change(conn, tools))
      modifies this
      ensures Took(old(states), old(actions), Change(conn, tools))
      ensures entries == old(entries) && initGuards == old(initGuards) && tasks == old(tasks)
      ensures conn in conns && OthersSame(old(conns), conns, conn)
      ensures conns[conn] == old(conns)[conn].(current := Inventory(old(conns)[conn].current.version + 1, tools))
    {
      conns := conns[conn := conns[conn].(current := Inventory(conns[conn].current.version + 1, tools))];
      Record(Change(conn, tools));
    }

    /** The answer to a forwarded call ends its request without touching the registry. */
    method EndCall(t: TaskId)
      requires Valid() && Enabled(env, Snapshot(), Receive(t)) && tasks[t].pc.Calling?
      modifies this
      ensures Took(old(states), old(actions), Receive(t))
      ensures entries == old(entries) && initGuards == old(initGuards) && conns == old(conns) && log == old(log)
      ensures t in tasks && tasks[t].pc == Finished
    {
      MoveTo(t, Finished);
      Record(Receive(t));
    }

    /** A schema request reads its server's ready entry and ends; a list request goes on to its next server, which is visible. */
    method ReadInventory(t: TaskId)
      requires Valid() && At(t) && tasks[t].pc.ReadTools? && !tasks[t].goal.Invoke?
      modifies this
      ensures Took(old(states), old(actions), Run(t))
      ensures entries == old(entries) && initGuards == old(initGuards) && conns == old(conns)
      ensures var server := old(tasks[t]).server;
              && Ready(server)
              && log == old(log) + [Read(server, entries[server], conns[entries[server]].cached.value)]
      ensures var goal := old(tasks[t]).goal;
              && t in tasks
              && tasks[t] == (if goal.List? && goal.rest != [] && goal.rest[0] in env.configured
                              then Task(goal.rest[0], List(goal.rest[1..]), FastRead)
                              else old(tasks[t]).(pc := Finished))
              && env.acl.AllowsServer(tasks[t].server)
    {
      Sound();
      assert TaskInv(Snapshot(), t);
      assert Permitted(env, tasks[t].server, tasks[t].goal);
      var task := tasks[t];
      log := log + [Read(task.server, task.pc.conn, conns[task.pc.conn].cached.value)];
      if task.goal.List? && task.goal.rest != [] && task.goal.rest[0] in env.configured {
        assert task.goal.rest[0] in task.goal.rest;
        tasks := tasks[t := Task(task.goal.rest[0], List(task.goal.rest[1..]), FastRead)];
      } else {
        MoveTo(t, Finished);
      }
      Record(Run(t));
    }

    /** A call goes upstream exactly when its tool is in its server's cached inventory, and then the access list allows it. */
    method CheckInventory(t: TaskId)
      requires Valid() && At(t) && tasks[t].pc.ReadTools? && tasks[t].goal.Invoke?
      modifies this
      ensures Took(old(states), old(actions), Run(t))
      ensures entries == old(entries) && initGuards == old(initGuards) && conns == old(conns)
      ensures var server, tool := old(tasks[t]).server, old(tasks[t]).goal.tool;
              && Ready(server) && t in tasks
              && var conn, seen := entries[server], conns[entries[server]].cached.value;
                 if tool in seen.tools then
                   && tasks[t].pc == Calling(conn)
                   && log == old(log) + [Read(server, conn, seen)] + [Forwarded(server, conn, tool, seen)]
                   && env.acl.AllowsTool(server, tool)
                 else tasks[t].pc == Finished && log == old(log) + [Read(server, conn, seen)]
    {
      Sound();
      assert TaskInv(Snapshot(), t);
      assert Permitted(env, tasks[t].server, tasks[t].goal);
      var conn, tool := tasks[t].pc.conn, tasks[t].goal.tool;
      var seen := conns[conn].cached.value;
      log := log + [Read(tasks[t].server, conn, seen)];
      if tool in seen.tools {
        log := log + [Forwarded(tasks[t].server, conn, tool, seen)];
        MoveTo(t, Calling(conn));
      } else {
        MoveTo(t, Finished);
      }
      Record(Run(t));
    }

    /** A notification marks its own connection and touches nothing else. */
    method OnToolListChanged(conn: ConnId, upTo: nat)
      requires Valid() && Enabled(env, Snapshot(), Notify(conn, upTo))
      modifies this
      ensures Took(old(states), old(actions), Notify(conn, upTo))
      ensures entries == old(entries) && initGuards == old(initGuards) && tasks == old(tasks)
      ensures conn in conns && OthersSame(old(conns), conns, conn)
      ensures conns[conn] == old(conns)[conn].(notified := upTo, dirty := true) && Fresh(Snapshot(), conn)
    {
      conns := conns[conn := conns[conn].(notified := upTo, dirty := true)];
      Record(Notify(conn, upTo));
    }

    /** Ends a task: what it was building is closed and the guard it held is freed. */
    method Drop(t: TaskId)
      requires HasTask(Snapshot(), t)
      modifies this`conns, this`initGuards, this`tasks
      ensures Snapshot() == Abandon(old(Snapshot()), t)
      ensures conns.Keys == old(conns.Keys)
      ensures forall c :: c in conns && (old(tasks[t]).pc.Builds() ==> c != old(tasks[t]).pc.conn) ==> conns[c] == old(conns)[c]
    {
      var task := tasks[t];
      if task.pc.Connecting? || task.pc.Inserting? {
        conns := conns[task.pc.conn := conns[task.pc.conn].(live := false)];
      }
      if task.pc.SecondRead? || task.pc.Resolving? || task.pc.Connecting? || task.pc.Inserting? {
        initGuards := initGuards[task.server := None];
      }
      MoveTo(t, Finished);
    }

    /**
     A cancelled call, at whatever await, leaves no guard behind and nothing half-built alive,
     and every installed entry exactly as it was.
     */
    method DropFuture(t: TaskId)
      requires Valid() && Enabled(env, Snapshot(), Cancel(t))
      modifies this
      ensures Took(old(states), old(actions), Cancel(t))
      ensures entries == old(entries) && t in tasks && tasks[t].pc == Finished && LeavesNothing(t, old(conns))
    {
      Sound();
      EntriesNotBuilt(t);
      Drop(t);
      Record(Cancel(t));
      RunIsSound(env, states, actions);
      NothingLeft(t);
    }

    /** A failed or timed-out connect or call likewise. */
    method FailRequest(t: TaskId)
      requires Valid() && Enabled(env, Snapshot(), Fail(t)) && !tasks[t].pc.Refetching?
      modifies this
      ensures Took(old(states), old(actions), Fail(t))
      ensures entries == old(entries) && t in tasks && tasks[t].pc == Finished && LeavesNothing(t, old(conns))
    {
      Sound();
      EntriesNotBuilt(t);
      Drop(t);
      Record(Fail(t));
      RunIsSound(env, states, actions);
      NothingLeft(t);
    }

    /** What a task is building is no server's entry. */
    lemma EntriesNotBuilt(t: TaskId)
      requires Inv(Snapshot()) && t in tasks
      ensures forall server :: server in entries ==>
                entries[server] in conns && (tasks[t].pc.Builds() ==> entries[server] != tasks[t].pc.conn)
    {
      var s := Snapshot();
      assert TaskInv(s, t);
      forall server | server in entries
        ensures entries[server] in conns && (tasks[t].pc.Builds() ==> entries[server] != tasks[t].pc.conn)
      {
        assert EntryInv(s, server);
      }
    }

    ghost predicate LeavesNothing(t: TaskId, before: map<ConnId, Conn>)
      reads this
    {
      && (forall g :: g in initGuards ==> initGuards[g] != Some(t))
      && (forall c :: c in conns && conns[c].live ==> Installed(Snapshot(), c) || BuiltByOther(t, c))
      && (forall server :: server in entries ==>
            entries[server] in conns && entries[server] in before && conns[entries[server]] == before[entries[server]])
    }

    ghost predicate BuiltByOther(t: TaskId, c: ConnId)
      requires c in conns
      reads this
    {
      exists u :: u != t && u in tasks && tasks[u].pc.Builds() && tasks[u].pc.conn == c
    }

    lemma NothingLeft(t: TaskId)
      requires Inv(Snapshot()) && t in tasks && tasks[t].pc == Finished
      ensures forall g :: g in initGuards ==> initGuards[g] != Some(t)
      ensures forall c :: c in conns && conns[c].live ==> Installed(Snapshot(), c) || BuiltByOther(t, c)
    {
      var s := Snapshot();
      forall g | g in initGuards
        ensures initGuards[g] != Some(t)
      {
        assert GuardInv(s, g);
      }
      forall c | c in conns && conns[c].live && !Installed(s, c)
        ensures BuiltByOther(t, c)
      {
        assert UnderGuard(s, c);
        var u := initGuards[conns[c].server].value;
        assert u != t && u in tasks;
      }
    }
  }
}
