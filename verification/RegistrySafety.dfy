/** Safety over every run of the registry: one connection per server, one entry forever, and access control. */
module RegistrySafety {
  import opened Wrappers
  import opened Gate
  import opened Registry

  /* ---------- the structural invariant ---------- */

  ghost predicate TaskInv(s: Sys, t: TaskId)
    requires t in s.tasks
  {
    var k := s.tasks[t];
    && (k.pc.GuardWait? ==> k.server in s.guards)
    && (k.pc.Holds() ==> k.server in s.guards && s.guards[k.server] == Some(t))
    && (k.pc.Resolving? || k.pc.Builds() ==> k.server !in s.entries)
    && (k.pc.Builds() ==> k.pc.conn in s.conns && s.conns[k.pc.conn].live && s.conns[k.pc.conn].server == k.server)
    && (k.pc.Connecting? ==> s.conns[k.pc.conn].cached.None?)
    && (k.pc.Inserting? ==> s.conns[k.pc.conn].cached.Some?)
    && (k.pc.Uses() ==> k.server in s.entries && s.entries[k.server] == k.pc.conn)
  }

  /** A held guard belongs to a task that is inside `get_or_connect` for that server. */
  ghost predicate GuardInv(s: Sys, server: string)
    requires server in s.guards
  {
    s.guards[server].Some? ==>
      var t := s.guards[server].value;
      t in s.tasks && s.tasks[t].server == server && s.tasks[t].pc.Holds()
  }

  ghost predicate EntryInv(s: Sys, server: string)
    requires server in s.entries
  {
    var c := s.entries[server];
    c in s.conns && s.conns[c].live && s.conns[c].server == server && s.conns[c].cached.Some?
  }

  ghost predicate Installed(s: Sys, c: ConnId)
    requires c in s.conns
  {
    s.conns[c].server in s.entries && s.entries[s.conns[c].server] == c
  }

  /** `c` is being built by the holder of its server's guard. */
  ghost predicate UnderGuard(s: Sys, c: ConnId)
    requires c in s.conns
  {
    var server := s.conns[c].server;
    && server in s.guards && s.guards[server].Some?
    && var t := s.guards[server].value;
       t in s.tasks && s.tasks[t].pc.Builds() && s.tasks[t].pc.conn == c
  }

  ghost predicate Inv(s: Sys) {
    && (forall t :: t in s.tasks ==> TaskInv(s, t))
    && (forall server :: server in s.guards ==> GuardInv(s, server))
    && (forall server :: server in s.entries ==> EntryInv(s, server))
    && (forall c :: c in s.conns && s.conns[c].live ==> Installed(s, c) || UnderGuard(s, c))
  }

  lemma EnterKeepsInv(env: Env, s: Sys, t: TaskId, request: MetaRequest)
    requires Inv(s) && t !in s.tasks
    ensures Inv(Enter(env, s, t, request))
  {
  }

  /** What an upstream does by itself touches neither a connection's server nor its life nor its cache. */
  lemma UpstreamKeepsInv(s: Sys, c: ConnId, conn: Conn)
    requires Inv(s) && c in s.conns
    requires conn.server == s.conns[c].server && conn.live == s.conns[c].live && conn.cached == s.conns[c].cached
    ensures Inv(SetConn(s, c, conn))
  {
  }

  lemma ChangeKeepsInv(s: Sys, c: ConnId, tools: set<string>)
    requires Inv(s) && c in s.conns
    ensures Inv(ChangeConn(s, c, tools))
  {
    UpstreamKeepsInv(s, c, ChangeConn(s, c, tools).conns[c]);
  }

  lemma NotifyKeepsInv(s: Sys, c: ConnId, upTo: nat)
    requires Inv(s) && c in s.conns
    ensures Inv(NotifyConn(s, c, upTo))
  {
    UpstreamKeepsInv(s, c, NotifyConn(s, c, upTo).conns[c]);
  }

  lemma OpenKeepsInv(s: Sys, t: TaskId, c: ConnId, offered: set<string>)
    requires Inv(s) && t in s.tasks && s.tasks[t].pc.Resolving? && c !in s.conns
    ensures Inv(OpenConn(s, t, c, offered))
  {
  }

  /** Steps that only move the task on or touch its connection's cache fields. */
  lemma QuietStepKeepsInv(s: Sys, s': Sys, t: TaskId)
    requires Inv(s) && t in s.tasks && t in s'.tasks
    requires s'.entries == s.entries && s'.guards == s.guards && s'.conns.Keys == s.conns.Keys
    requires s'.tasks == s.tasks[t := s'.tasks[t]] && s'.tasks[t].server == s.tasks[t].server
    requires s'.tasks[t].pc.Holds() == s.tasks[t].pc.Holds()
    requires s.tasks[t].pc.Builds() ==> s'.tasks[t].pc.Builds() && s'.tasks[t].pc.conn == s.tasks[t].pc.conn
    requires forall c :: c in s.conns ==>
      && s'.conns[c].server == s.conns[c].server && s'.conns[c].live == s.conns[c].live
      && (s.conns[c].cached.Some? ==> s'.conns[c].cached.Some?)
      && (s.conns[c].cached.None? ==> s'.conns[c].cached.None? || (s.tasks[t].pc.Connecting? && s.tasks[t].pc.conn == c))
    requires TaskInv(s', t)
    ensures Inv(s')
  {
  }

  /** Steps that leave the guarded section without having built anything. */
  lemma LeavingKeepsInv(s: Sys, s': Sys, t: TaskId)
    requires Inv(s) && t in s.tasks && t in s'.tasks && s.tasks[t].pc.Holds() && !s.tasks[t].pc.Builds()
    requires s'.entries == s.entries && s'.conns == s.conns && s'.guards == s.guards[s.tasks[t].server := None]
    requires s'.tasks == s.tasks[t := s'.tasks[t]] && s'.tasks[t].server == s.tasks[t].server
    requires !s'.tasks[t].pc.Holds() && TaskInv(s', t)
    ensures Inv(s')
  {
    assert TaskInv(s, t);
    forall u | u in s'.tasks
      ensures TaskInv(s', u)
    {
      assert TaskInv(s, u);
    }
  }

  /** Only moving the task's counter, outside the guarded section. */
  lemma MoveKeepsInv(s: Sys, t: TaskId, pc: Pc)
    requires Inv(s) && t in s.tasks && s.tasks[t].pc.Holds() == pc.Holds()
    requires s.tasks[t].pc.Builds() ==> pc.Builds() && pc.conn == s.tasks[t].pc.conn
    requires TaskInv(SetPc(s, t, pc), t)
    ensures Inv(SetPc(s, t, pc))
  {
    QuietStepKeepsInv(s, SetPc(s, t, pc), t);
  }

  lemma LogKeepsInv(s: Sys, e: Event)
    requires Inv(s)
    ensures Inv(Logged(s, e))
  {
  }

  lemma AnswerKeepsInv(s: Sys, t: TaskId)
    requires Inv(s) && HasTask(s, t) && (s.tasks[t].pc.Connecting? || s.tasks[t].pc.Refetching?)
    ensures Inv(AnswerTask(s, t))
  {
    assert TaskInv(s, t);
    var pc := s.tasks[t].pc;
    MoveKeepsInv(s, t, pc.(answer := Some(s.conns[pc.conn].current)));
  }

  lemma FirstAnswerKeepsInv(s: Sys, t: TaskId)
    requires Inv(s) && HasTask(s, t) && s.tasks[t].pc.Connecting? && s.tasks[t].pc.answer.Some?
    ensures Inv(ReceiveTask(s, t))
  {
    assert TaskInv(s, t);
    QuietStepKeepsInv(s, ReceiveTask(s, t), t);
  }

  lemma ReceiveKeepsInv(s: Sys, t: TaskId)
    requires Inv(s) && HasTask(s, t)
    requires s.tasks[t].pc.Calling? || ((s.tasks[t].pc.Connecting? || s.tasks[t].pc.Refetching?) && s.tasks[t].pc.answer.Some?)
    ensures Inv(ReceiveTask(s, t))
  {
    assert TaskInv(s, t);
    match s.tasks[t].pc
    case Connecting(_, _) => FirstAnswerKeepsInv(s, t);
    case Refetching(c, base, answer) => MoveKeepsInv(s, t, Installing(c, base, answer.value));
    case _ => MoveKeepsInv(s, t, Finished);
  }

  /** Closing what a task was building and freeing its guard. */
  lemma ClosingKeepsInv(s: Sys, t: TaskId)
    requires Inv(s) && HasTask(s, t) && s.tasks[t].pc.Builds()
    ensures Inv(Abandon(s, t))
  {
    var s' := Abandon(s, t);
    assert TaskInv(s, t);
    forall u | u in s'.tasks
      ensures TaskInv(s', u)
    {
      assert TaskInv(s, u);
    }
  }

  lemma AbandonKeepsInv(s: Sys, t: TaskId)
    requires Inv(s) && HasTask(s, t)
    ensures Inv(Abandon(s, t))
  {
    if s.tasks[t].pc.Builds() {
      ClosingKeepsInv(s, t);
    } else if s.tasks[t].pc.Holds() {
      LeavingKeepsInv(s, Abandon(s, t), t);
    } else {
      MoveKeepsInv(s, t, Finished);
    }
  }

  lemma FailKeepsInv(s: Sys, t: TaskId)
    requires Inv(s) && HasTask(s, t)
    ensures Inv(FailTask(s, t))
  {
    if s.tasks[t].pc.Refetching? {
      assert TaskInv(s, t);
      MoveKeepsInv(s, t, Restoring(s.tasks[t].pc.conn));
    } else {
      AbandonKeepsInv(s, t);
    }
  }

  lemma LookUpKeepsInv(s: Sys, t: TaskId)
    requires Inv(s) && t in s.tasks && s.tasks[t].pc.FastRead?
    ensures Inv(LookUp(s, t))
  {
    var server := s.tasks[t].server;
    if server in s.entries {
      MoveKeepsInv(s, t, Load(s.entries[server]));
      LogKeepsInv(SetPc(s, t, Load(s.entries[server])), Got(server, s.entries[server]));
    } else {
      MoveKeepsInv(s, t, GuardTable);
    }
  }

  /** Creating a guard. */
  lemma GuardTableKeepsInv(s: Sys, t: TaskId)
    requires Inv(s) && t in s.tasks && s.tasks[t].pc.GuardTable?
    ensures Inv(FindGuard(s, t))
  {
  }

  /** Acquiring a guard. */
  lemma GuardWaitKeepsInv(s: Sys, t: TaskId)
    requires Inv(s) && t in s.tasks && s.tasks[t].pc.GuardWait? && CanRun(s, s.tasks[t])
    ensures Inv(TakeGuard(s, t))
  {
  }

  /** Looking again under the guard. */
  lemma SecondReadKeepsInv(env: Env, s: Sys, t: TaskId)
    requires Inv(s) && t in s.tasks && s.tasks[t].pc.SecondRead?
    ensures Inv(LookAgain(env, s, t))
  {
    var server := s.tasks[t].server;
    assert TaskInv(s, t);
    if server !in s.entries && server in env.configured {
      MoveKeepsInv(s, t, Resolving);
    } else {
      LeavingKeepsInv(s, LookAgain(env, s, t), t);
    }
  }

  /** Installing an entry under its guard, then releasing it. */
  lemma InsertKeepsInv(s: Sys, t: TaskId)
    requires Inv(s) && t in s.tasks && s.tasks[t].pc.Inserting?
    ensures Inv(Insert(s, t))
  {
  }

  lemma FlagsKeepInv(s: Sys, t: TaskId, conn: Conn, pc: Pc)
    requires Inv(s) && HasTask(s, t) && s.tasks[t].pc.Uses()
    requires pc.Finished? || (pc.Uses() && pc.conn == s.tasks[t].pc.conn)
    requires var was := s.conns[s.tasks[t].pc.conn];
             conn.server == was.server && conn.live == was.live && (was.cached.Some? ==> conn.cached.Some?)
    ensures Inv(SetPc(SetConn(s, s.tasks[t].pc.conn, conn), t, pc))
  {
    assert TaskInv(s, t) && EntryInv(s, s.tasks[t].server);
    QuietStepKeepsInv(s, SetPc(SetConn(s, s.tasks[t].pc.conn, conn), t, pc), t);
  }

  lemma UseMoveKeepsInv(s: Sys, t: TaskId, pc: Pc)
    requires Inv(s) && HasTask(s, t) && s.tasks[t].pc.Uses()
    requires pc.Finished? || (pc.Uses() && pc.conn == s.tasks[t].pc.conn)
    ensures Inv(SetPc(s, t, pc))
  {
    assert TaskInv(s, t);
    MoveKeepsInv(s, t, pc);
  }

  /** Reading and setting the flag, and installing an inventory. */
  lemma UseKeepsInv(env: Env, s: Sys, t: TaskId)
    requires Inv(s) && HasTask(s, t) && CanRun(s, s.tasks[t]) && s.tasks[t].pc.Uses() && !s.tasks[t].pc.ReadTools?
    ensures Inv(RunTask(env, s, t))
  {
    var c := s.tasks[t].pc.conn;
    match s.tasks[t].pc
    case Load(_) => UseMoveKeepsInv(s, t, if s.conns[c].dirty then Swap(c) else ReadTools(c));
    case Swap(_) =>
      if s.conns[c].dirty {
        FlagsKeepInv(s, t, s.conns[c].(dirty := false), Refetching(c, s.conns[c].notified, None));
      } else {
        UseMoveKeepsInv(s, t, ReadTools(c));
      }
    case Installing(_, _, newer) => FlagsKeepInv(s, t, s.conns[c].(cached := Some(newer)), ReadTools(c));
    case Restoring(_) => FlagsKeepInv(s, t, s.conns[c].(dirty := true), Finished);
  }

  /** A list request moves on to its next server. */
  lemma NextServerKeepsInv(s: Sys, t: TaskId, task: Task)
    requires Inv(s) && t in s.tasks && s.tasks[t].pc.ReadTools? && task.pc == FastRead
    ensures Inv(s.(tasks := s.tasks[t := task]))
  {
  }

  lemma ReadToolsKeepsInv(env: Env, s: Sys, t: TaskId, seen: Inventory)
    requires Inv(s) && HasTask(s, t) && s.tasks[t].pc.ReadTools?
    ensures Inv(UseInventory(env, s, t, seen))
  {
    var k := s.tasks[t];
    var read := Logged(s, Read(k.server, k.pc.conn, seen));
    LogKeepsInv(s, Read(k.server, k.pc.conn, seen));
    if k.goal.List? && k.goal.rest != [] && k.goal.rest[0] in env.configured {
      NextServerKeepsInv(read, t, Task(k.goal.rest[0], List(k.goal.rest[1..]), FastRead));
    } else if k.goal.Invoke? && k.goal.tool in seen.tools {
      UseMoveKeepsInv(read, t, Calling(k.pc.conn));
      LogKeepsInv(SetPc(read, t, Calling(k.pc.conn)), Forwarded(k.server, k.pc.conn, k.goal.tool, seen));
    } else {
      UseMoveKeepsInv(read, t, Finished);
    }
  }

  lemma RunKeepsInv(env: Env, s: Sys, t: TaskId)
    requires Inv(s) && HasTask(s, t) && CanRun(s, s.tasks[t])
    ensures Inv(RunTask(env, s, t))
  {
    match s.tasks[t].pc
    case FastRead => LookUpKeepsInv(s, t);
    case GuardTable => GuardTableKeepsInv(s, t);
    case GuardWait => GuardWaitKeepsInv(s, t);
    case SecondRead => SecondReadKeepsInv(env, s, t);
    case Inserting(_) => InsertKeepsInv(s, t);
    case ReadTools(c) => ReadToolsKeepsInv(env, s, t, s.conns[c].cached.value);
    case _ => UseKeepsInv(env, s, t);
  }

  lemma TaskStepKeepsInv(env: Env, s: Sys, a: Action)
    requires Inv(s) && Enabled(env, s, a) && (a.Connect? || a.Answer? || a.Receive? || a.Fail? || a.Cancel?)
    ensures Inv(Next(env, s, a))
  {
    match a
    case Connect(t, c, offered) => OpenKeepsInv(s, t, c, offered);
    case Answer(t) => AnswerKeepsInv(s, t);
    case Receive(t) => ReceiveKeepsInv(s, t);
    case Fail(t) => FailKeepsInv(s, t);
    case Cancel(t) => AbandonKeepsInv(s, t);
  }

  lemma StepKeepsInv(env: Env, s: Sys, a: Action)
    requires Inv(s) && Enabled(env, s, a)
    ensures Inv(Next(env, s, a))
  {
    match a
    case Request(t, request) => EnterKeepsInv(env, s, t, request);
    case Run(t) => RunKeepsInv(env, s, t);
    case Change(c, tools) => ChangeKeepsInv(s, c, tools);
    case Notify(c, upTo) => NotifyKeepsInv(s, c, upTo);
    case _ => TaskStepKeepsInv(env, s, a);
  }

  lemma {:induction false} RunInv(env: Env, states: seq<Sys>, actions: seq<Action>, i: nat)
    requires IsRun(env, states, actions) && i < |states|
    ensures Inv(states[i])
    decreases i
  {
    if i > 0 {
      RunInv(env, states, actions, i - 1);
      assert StepAt(env, states, actions, i - 1);
      StepKeepsInv(env, states[i - 1], actions[i - 1]);
    }
  }

  /* ---------- one connection, one entry ---------- */

  /** In every state of every run, two live connections to one server are the same connection. */
  lemma SingleConnection(env: Env, states: seq<Sys>, actions: seq<Action>, i: nat, c: ConnId, d: ConnId)
    requires IsRun(env, states, actions) && i < |states|
    requires c in states[i].conns && d in states[i].conns
    requires states[i].conns[c].live && states[i].conns[d].live
    requires states[i].conns[c].server == states[i].conns[d].server
    ensures c == d
  {
    RunInv(env, states, actions, i);
    var s := states[i];
    var server := s.conns[c].server;
    assert Installed(s, c) || UnderGuard(s, c);
    assert Installed(s, d) || UnderGuard(s, d);
    if UnderGuard(s, c) || UnderGuard(s, d) {
      assert TaskInv(s, s.guards[server].value);
    }
  }

  /** A step never removes or replaces an entry. */
  lemma StepGrowsEntries(env: Env, s: Sys, a: Action)
    requires Inv(s) && Enabled(env, s, a)
    ensures var s' := Next(env, s, a);
            forall server :: server in s.entries ==> server in s'.entries && s'.entries[server] == s.entries[server]
  {
    if a.Run? {
      if s.tasks[a.t].pc.Inserting? {
        assert TaskInv(s, a.t);
      } else {
        RunKeepsEntries(env, s, a.t);
      }
    }
  }

  lemma RunKeepsEntries(env: Env, s: Sys, t: TaskId)
    requires HasTask(s, t) && CanRun(s, s.tasks[t]) && !s.tasks[t].pc.Inserting?
    ensures RunTask(env, s, t).entries == s.entries
  {
  }

  lemma {:induction false} EntriesGrow(env: Env, states: seq<Sys>, actions: seq<Action>, i: nat, j: nat, server: string)
    requires IsRun(env, states, actions) && i <= j < |states| && server in states[i].entries
    ensures server in states[j].entries && states[j].entries[server] == states[i].entries[server]
    decreases j
  {
    if i < j {
      EntriesGrow(env, states, actions, i, j - 1, server);
      RunInv(env, states, actions, j - 1);
      assert StepAt(env, states, actions, j - 1);
      StepGrowsEntries(env, states[j - 1], actions[j - 1]);
    }
  }

  /** Every logged return of `get_or_connect` is the entry of its server. */
  ghost predicate LogInv(s: Sys) {
    forall e :: e in s.log && e.Got? ==> e.server in s.entries && s.entries[e.server] == e.conn
  }

  /** The events a step appended to the log, equal ones included. */
  ghost function Added(s: Sys, s': Sys): seq<Event> {
    if |s.log| <= |s'.log| then s'.log[|s.log|..] else []
  }

  lemma AddedIs(s: Sys, s': Sys, events: seq<Event>)
    requires s'.log == s.log + events
    ensures s.log <= s'.log && Added(s, s') == events
  {
  }

  lemma OldOrAdded(s: Sys, s': Sys, e: Event)
    requires s.log <= s'.log && e in s'.log
    ensures e in s.log || e in Added(s, s')
  {
    assert s'.log == s.log + Added(s, s');
  }

  /** What a running task may add to the log. */
  ghost predicate LoggedBy(s: Sys, t: TaskId, after: Sys, e: Event)
    requires t in s.tasks
  {
    var k := s.tasks[t];
    && e.server == k.server
    && match e
       case Connected(_, _) => false
       case Got(server, c) => server in after.entries && after.entries[server] == c
       case Read(_, c, seen) => k.pc.ReadTools? && c == k.pc.conn && c in s.conns && s.conns[c].cached == Some(seen)
       case Forwarded(_, c, tool, seen) =>
         && k.pc.ReadTools? && c == k.pc.conn && c in s.conns && s.conns[c].cached == Some(seen)
         && k.goal == Invoke(tool) && tool in seen.tools
  }

  /** The log only grows, and only by what task `t` may add. */
  ghost predicate AppendsBy(s: Sys, t: TaskId, after: Sys)
    requires t in s.tasks
  {
    s.log <= after.log && forall e :: e in Added(s, after) ==> LoggedBy(s, t, after, e)
  }

  /** A task that comes to its inventory logs that it read it, and then the call it forwards, if any. */
  lemma InventoryLogs(env: Env, s: Sys, t: TaskId, seen: Inventory)
    requires HasTask(s, t) && s.tasks[t].pc.ReadTools? && s.conns[s.tasks[t].pc.conn].cached == Some(seen)
    ensures var after := UseInventory(env, s, t, seen);
            && AppendsBy(s, t, after)
            && Added(s, after) != [] && Added(s, after)[0] == Read(s.tasks[t].server, s.tasks[t].pc.conn, seen)
  {
    var k, after := s.tasks[t], UseInventory(env, s, t, seen);
    var read := Read(k.server, k.pc.conn, seen);
    if k.goal.Invoke? && k.goal.tool in seen.tools {
      var forward := Forwarded(k.server, k.pc.conn, k.goal.tool, seen);
      assert s.log + [read] + [forward] == s.log + [read, forward];
      AddedIs(s, after, [read, forward]);
    } else {
      AddedIs(s, after, [read]);
    }
  }

  lemma InsertLogs(s: Sys, t: TaskId)
    requires t in s.tasks && s.tasks[t].pc.Inserting?
    ensures AppendsBy(s, t, Insert(s, t))
  {
    AddedIs(s, Insert(s, t), [Got(s.tasks[t].server, s.tasks[t].pc.conn)]);
  }

  lemma LookUpLogs(s: Sys, t: TaskId)
    requires t in s.tasks && s.tasks[t].pc.FastRead?
    ensures AppendsBy(s, t, LookUp(s, t))
  {
    var server := s.tasks[t].server;
    AddedIs(s, LookUp(s, t), if server in s.entries then [Got(server, s.entries[server])] else []);
  }

  lemma LookAgainLogs(env: Env, s: Sys, t: TaskId)
    requires t in s.tasks && s.tasks[t].pc.SecondRead?
    ensures AppendsBy(s, t, LookAgain(env, s, t))
  {
    var server := s.tasks[t].server;
    AddedIs(s, LookAgain(env, s, t), if server in s.entries then [Got(server, s.entries[server])] else []);
  }

  lemma QuietRun(env: Env, s: Sys, t: TaskId)
    requires HasTask(s, t) && CanRun(s, s.tasks[t])
    requires var pc := s.tasks[t].pc; !pc.ReadTools? && !pc.Inserting? && !pc.FastRead? && !pc.SecondRead?
    ensures RunTask(env, s, t).log == s.log
  {
  }

  lemma RunLogs(env: Env, s: Sys, t: TaskId)
    requires HasTask(s, t) && CanRun(s, s.tasks[t])
    ensures AppendsBy(s, t, RunTask(env, s, t))
  {
    match s.tasks[t].pc
    case ReadTools(c) => InventoryLogs(env, s, t, s.conns[c].cached.value);
    case Inserting(_) => InsertLogs(s, t);
    case FastRead => LookUpLogs(s, t);
    case SecondRead => LookAgainLogs(env, s, t);
    case _ => QuietRun(env, s, t);
  }

  lemma QuietStep(env: Env, s: Sys, a: Action)
    requires Enabled(env, s, a) && !a.Run? && !a.Connect?
    ensures Next(env, s, a).log == s.log
  {
  }

  /** Only a new connection and a running task add to the log. */
  ghost predicate LoggedAt(s: Sys, a: Action, after: Sys, e: Event) {
    || (a.Connect? && a.t in s.tasks && e == Connected(s.tasks[a.t].server, a.conn))
    || (a.Run? && a.t in s.tasks && LoggedBy(s, a.t, after, e))
  }

  lemma StepLogs(env: Env, s: Sys, a: Action)
    requires Enabled(env, s, a)
    ensures s.log <= Next(env, s, a).log
    ensures forall e :: e in Added(s, Next(env, s, a)) ==> LoggedAt(s, a, Next(env, s, a), e)
  {
    if a.Run? {
      RunLogs(env, s, a.t);
    } else if a.Connect? {
      AddedIs(s, Next(env, s, a), [Connected(s.tasks[a.t].server, a.conn)]);
    } else {
      QuietStep(env, s, a);
    }
  }

  lemma StepKeepsLogInv(env: Env, s: Sys, a: Action)
    requires Inv(s) && LogInv(s) && Enabled(env, s, a)
    ensures LogInv(Next(env, s, a))
  {
    StepGrowsEntries(env, s, a);
    StepLogs(env, s, a);
    var s' := Next(env, s, a);
    forall e | e in s'.log && e.Got?
      ensures e.server in s'.entries && s'.entries[e.server] == e.conn
    {
      OldOrAdded(s, s', e);
      assert e in s.log || LoggedAt(s, a, s', e);
    }
  }

  lemma {:induction false} RunLogInv(env: Env, states: seq<Sys>, actions: seq<Action>, i: nat)
    requires IsRun(env, states, actions) && i < |states|
    ensures LogInv(states[i])
    decreases i
  {
    if i > 0 {
      RunLogInv(env, states, actions, i - 1);
      RunInv(env, states, actions, i - 1);
      assert StepAt(env, states, actions, i - 1);
      StepKeepsLogInv(env, states[i - 1], actions[i - 1]);
    }
  }

  /** All successful `get_or_connect` calls for a server, over the whole run, return one entry. */
  lemma SameEntryForAll(env: Env, states: seq<Sys>, actions: seq<Action>, i: nat, e: Event, f: Event)
    requires IsRun(env, states, actions) && i < |states|
    requires e in states[i].log && f in states[i].log && e.Got? && f.Got? && e.server == f.server
    ensures e.conn == f.conn
  {
    RunLogInv(env, states, actions, i);
  }

  /* ---------- no deadlock ---------- */

  /** A step of task `t` other than failing or being cancelled. */
  ghost predicate Advances(a: Action, t: TaskId) {
    (a.Run? || a.Connect? || a.Answer? || a.Receive?) && a.t == t
  }

  ghost predicate CanAct(env: Env, s: Sys, t: TaskId) {
    exists a :: Advances(a, t) && Enabled(env, s, a)
  }

  /** `t` waits for its server's guard. */
  ghost predicate WaitsFor(s: Sys, t: TaskId, holder: TaskId) {
    && t in s.tasks && s.tasks[t].pc.GuardWait?
    && s.tasks[t].server in s.guards && s.guards[s.tasks[t].server] == Some(holder)
  }

  lemma {:induction false} FreshId(used: set<nat>) returns (id: nat)
    ensures id !in used && forall n :: n in used ==> n < id
  {
    if used == {} {
      id := 0;
    } else {
      var n :| n in used;
      var rest := FreshId(used - {n});
      id := if n < rest then rest else n + 1;
      assert forall m :: m in used ==> m == n || m in used - {n};
    }
  }

  lemma OwnStep(env: Env, s: Sys, t: TaskId)
    requires TasksKnown(s) && t in s.tasks && TaskInv(s, t) && !s.tasks[t].pc.Finished? && !s.tasks[t].pc.GuardWait?
    requires s.tasks[t].pc.ReadTools? ==> s.conns[s.tasks[t].pc.conn].cached.Some?
    ensures CanAct(env, s, t)
  {
    var pc := s.tasks[t].pc;
    assert HasTask(s, t);
    if pc.Resolving? {
      var conn := FreshId(s.conns.Keys);
      assert Advances(Connect(t, conn, {}), t) && Enabled(env, s, Connect(t, conn, {}));
    } else if (pc.Connecting? || pc.Refetching?) && pc.answer.None? {
      assert Advances(Answer(t), t) && Enabled(env, s, Answer(t));
    } else if pc.Connecting? || pc.Refetching? || pc.Calling? {
      assert Advances(Receive(t), t) && Enabled(env, s, Receive(t));
    } else {
      assert Advances(Run(t), t) && Enabled(env, s, Run(t));
    }
  }

  ghost predicate TasksKnown(s: Sys) {
    forall t :: t in s.tasks ==> HasTask(s, t)
  }

  /**
   Nothing adverse is ruled out: in every state of every run requests may arrive, connects, list requests and
   calls may fail, a call may be cancelled wherever it awaits, and upstreams may change and announce changes.
   */
  lemma AdverseStepsCanHappen(env: Env, states: seq<Sys>, actions: seq<Action>, i: nat, t: TaskId, c: ConnId)
    requires IsRun(env, states, actions) && i < |states|
    ensures t !in states[i].tasks ==> forall request :: Enabled(env, states[i], Request(t, request))
    ensures t in states[i].tasks ==>
              var pc := states[i].tasks[t].pc;
              && (pc.Resolving? || pc.Connecting? || pc.Refetching? || pc.Calling? ==> Enabled(env, states[i], Fail(t)))
              && (states[i].tasks[t].goal.Invoke? && !pc.Resolving? && !pc.Load? && !pc.Swap? && !pc.Restoring? && !pc.Finished? ==>
                    Enabled(env, states[i], Cancel(t)))
    ensures c in states[i].conns && states[i].conns[c].live ==>
              && (forall tools :: Enabled(env, states[i], Change(c, tools)))
              && (forall upTo: nat :: states[i].conns[c].notified <= upTo <= states[i].conns[c].current.version ==>
                    Enabled(env, states[i], Notify(c, upTo)))
  {
    RunInv(env, states, actions, i);
    InvKnowsTasks(states[i]);
  }

  lemma InvKnowsTasks(s: Sys)
    requires Inv(s)
    ensures TasksKnown(s)
  {
    forall t | t in s.tasks
      ensures HasTask(s, t)
    {
      assert TaskInv(s, t);
      if s.tasks[t].pc.Uses() { assert EntryInv(s, s.tasks[t].server); }
    }
  }

  lemma NotWaitingCanAct(env: Env, s: Sys, t: TaskId)
    requires Inv(s) && t in s.tasks && !s.tasks[t].pc.Finished? && !s.tasks[t].pc.GuardWait?
    ensures CanAct(env, s, t)
  {
    InvKnowsTasks(s);
    assert TaskInv(s, t);
    if s.tasks[t].pc.Uses() { assert EntryInv(s, s.tasks[t].server); }
    OwnStep(env, s, t);
  }

  /**
   No deadlock: in every state of every run an unfinished task can take a step of its own,
   or waits for a guard whose holder can.
   */
  lemma NoDeadlock(env: Env, states: seq<Sys>, actions: seq<Action>, i: nat, t: TaskId)
    requires IsRun(env, states, actions) && i < |states|
    requires t in states[i].tasks && !states[i].tasks[t].pc.Finished?
    ensures CanAct(env, states[i], t) || exists holder :: WaitsFor(states[i], t, holder) && CanAct(env, states[i], holder)
  {
    var s := states[i];
    RunInv(env, states, actions, i);
    if !s.tasks[t].pc.GuardWait? {
      NotWaitingCanAct(env, s, t);
    } else {
      var server := s.tasks[t].server;
      InvKnowsTasks(s);
      assert TaskInv(s, t) && GuardInv(s, server);
      if s.guards[server].None? {
        assert Advances(Run(t), t) && Enabled(env, s, Run(t));
      } else {
        var holder := s.guards[server].value;
        NotWaitingCanAct(env, s, holder);
        assert WaitsFor(s, t, holder);
      }
    }
  }

  /* ---------- access control ---------- */

  ghost predicate EventAllowed(env: Env, e: Event) {
    match e
    case Connected(server, _) => env.acl.AllowsServer(server)
    case Got(server, _) => env.acl.AllowsServer(server)
    case Read(server, _, _) => env.acl.AllowsServer(server)
    case Forwarded(server, _, tool, seen) => env.acl.AllowsTool(server, tool) && tool in seen.tools
  }

  ghost predicate AllPermitted(env: Env, s: Sys) {
    forall t :: t in s.tasks ==> Permitted(env, s.tasks[t].server, s.tasks[t].goal)
  }

  ghost predicate AclInv(env: Env, s: Sys) {
    && AllPermitted(env, s)
    && (forall e :: e in s.log ==> EventAllowed(env, e))
  }

  lemma EnterKeepsPermissions(env: Env, s: Sys, t: TaskId, request: MetaRequest)
    requires AllPermitted(env, s)
    ensures AllPermitted(env, Enter(env, s, t, request))
  {
    if Admit(env, request).Admitted? {
      AdmittedIsPermitted(env, request);
    }
  }

  /** Steps that neither admit a request nor run a task leave every server and goal alone. */
  lemma OtherKeepsGoals(env: Env, s: Sys, a: Action, t: TaskId)
    requires Enabled(env, s, a) && !a.Request? && !a.Run? && t in Next(env, s, a).tasks
    ensures t in s.tasks
    ensures Next(env, s, a).tasks[t].server == s.tasks[t].server && Next(env, s, a).tasks[t].goal == s.tasks[t].goal
  {
  }

  lemma StepKeepsPermissions(env: Env, s: Sys, a: Action)
    requires AllPermitted(env, s) && Enabled(env, s, a)
    ensures AllPermitted(env, Next(env, s, a))
  {
    match a
    case Request(t, request) => EnterKeepsPermissions(env, s, t, request);
    case Run(t) => RunKeepsPermission(env, s, t);
    case _ =>
      forall t | t in Next(env, s, a).tasks
        ensures Permitted(env, Next(env, s, a).tasks[t].server, Next(env, s, a).tasks[t].goal)
      {
        OtherKeepsGoals(env, s, a, t);
      }
  }

  lemma InventoryKeepsPermission(env: Env, s: Sys, t: TaskId, seen: Inventory)
    requires t in s.tasks && s.tasks[t].pc.ReadTools? && Permitted(env, s.tasks[t].server, s.tasks[t].goal)
    ensures var s' := UseInventory(env, s, t, seen);
            && t in s'.tasks && s'.tasks == s.tasks[t := s'.tasks[t]]
            && Permitted(env, s'.tasks[t].server, s'.tasks[t].goal)
  {
  }

  /** Away from the inventory a task keeps its server and goal. */
  lemma RunKeepsGoal(env: Env, s: Sys, t: TaskId)
    requires HasTask(s, t) && CanRun(s, s.tasks[t]) && !s.tasks[t].pc.ReadTools?
    ensures var s' := RunTask(env, s, t);
            t in s'.tasks && s'.tasks == s.tasks[t := s.tasks[t].(pc := s'.tasks[t].pc)]
  {
    if s.tasks[t].pc.Uses() { UseKeepsGoal(env, s, t); }
  }

  lemma UseKeepsGoal(env: Env, s: Sys, t: TaskId)
    requires HasTask(s, t) && CanRun(s, s.tasks[t]) && s.tasks[t].pc.Uses() && !s.tasks[t].pc.ReadTools?
    ensures var s' := RunTask(env, s, t);
            t in s'.tasks && s'.tasks == s.tasks[t := s.tasks[t].(pc := s'.tasks[t].pc)]
  {
  }

  lemma RunKeepsPermission(env: Env, s: Sys, t: TaskId)
    requires HasTask(s, t) && CanRun(s, s.tasks[t]) && Permitted(env, s.tasks[t].server, s.tasks[t].goal)
    ensures var s' := RunTask(env, s, t);
            && t in s'.tasks && s'.tasks == s.tasks[t := s'.tasks[t]]
            && Permitted(env, s'.tasks[t].server, s'.tasks[t].goal)
  {
    if s.tasks[t].pc.ReadTools? {
      InventoryKeepsPermission(env, s, t, s.conns[s.tasks[t].pc.conn].cached.value);
    } else {
      RunKeepsGoal(env, s, t);
    }
  }

  lemma StepKeepsEvents(env: Env, s: Sys, a: Action)
    requires AclInv(env, s) && Enabled(env, s, a)
    ensures forall e :: e in Next(env, s, a).log ==> EventAllowed(env, e)
  {
    StepLogs(env, s, a);
    forall e | e in Next(env, s, a).log
      ensures EventAllowed(env, e)
    {
      OldOrAdded(s, Next(env, s, a), e);
      if e !in s.log {
        assert LoggedAt(s, a, Next(env, s, a), e);
        assert Permitted(env, s.tasks[a.t].server, s.tasks[a.t].goal);
      }
    }
  }

  lemma StepKeepsAclInv(env: Env, s: Sys, a: Action)
    requires AclInv(env, s) && Enabled(env, s, a)
    ensures AclInv(env, Next(env, s, a))
  {
    StepKeepsPermissions(env, s, a);
    StepKeepsEvents(env, s, a);
  }

  /** Every connection is to a visible server, and every forwarded call is for an allowed tool the entry lists. */
  lemma {:induction false} RunsRespectAcl(env: Env, states: seq<Sys>, actions: seq<Action>, i: nat)
    requires IsRun(env, states, actions) && i < |states|
    ensures AclInv(env, states[i])
    decreases i
  {
    if i > 0 {
      RunsRespectAcl(env, states, actions, i - 1);
      assert StepAt(env, states, actions, i - 1);
      StepKeepsAclInv(env, states[i - 1], actions[i - 1]);
    }
  }

  /** What a request reads is the inventory cached, at that step, in its server's one entry. */
  lemma ReadsSeeCache(env: Env, states: seq<Sys>, actions: seq<Action>, i: nat, e: Event)
    requires IsRun(env, states, actions) && i < |actions|
    requires (e.Read? || e.Forwarded?) && e in Added(states[i], states[i + 1])
    ensures var s := states[i];
            && e.server in s.entries && s.entries[e.server] == e.conn
            && e.conn in s.conns && s.conns[e.conn].cached == Some(e.seen)
            && actions[i].Run? && actions[i].t in s.tasks && s.tasks[actions[i].t].pc == ReadTools(e.conn)
  {
    RunInv(env, states, actions, i);
    assert StepAt(env, states, actions, i);
    StepLogs(env, states[i], actions[i]);
    assert LoggedAt(states[i], actions[i], states[i + 1], e);
    assert TaskInv(states[i], actions[i].t);
  }

  /** A forwarded call was checked against that inventory, and its tool is in it and allowed. */
  lemma ForwardChecksCache(env: Env, states: seq<Sys>, actions: seq<Action>, i: nat, e: Event)
    requires IsRun(env, states, actions) && i < |actions|
    requires e.Forwarded? && e in Added(states[i], states[i + 1])
    ensures var s := states[i];
            && e.server in s.entries && s.entries[e.server] == e.conn
            && e.conn in s.conns && s.conns[e.conn].cached == Some(e.seen)
            && e.tool in e.seen.tools && env.acl.AllowsTool(e.server, e.tool)
  {
    ReadsSeeCache(env, states, actions, i, e);
    RunsRespectAcl(env, states, actions, i + 1);
    assert e in states[i + 1].log;
    assert EventAllowed(env, e);
  }

  /** No read goes unlogged, however often the same inventory has been read before. */
  lemma EveryReadIsLogged(env: Env, states: seq<Sys>, actions: seq<Action>, i: nat, t: TaskId)
    requires IsRun(env, states, actions) && i < |actions| && actions[i] == Run(t)
    requires t in states[i].tasks && states[i].tasks[t].pc.ReadTools?
    ensures var conn := states[i].tasks[t].pc.conn;
            && conn in states[i].conns && states[i].conns[conn].cached.Some?
            && Read(states[i].tasks[t].server, conn, states[i].conns[conn].cached.value) in Added(states[i], states[i + 1])
  {
    assert StepAt(env, states, actions, i);
    InventoryLogs(env, states[i], t, states[i].conns[states[i].tasks[t].pc.conn].cached.value);
  }

  /** Refused requests leave the registry as it was. */
  lemma RefusalChangesNothing(env: Env, s: Sys, t: TaskId, request: MetaRequest)
    requires t !in s.tasks && !Admit(env, request).Admitted?
    ensures Enabled(env, s, Request(t, request)) && Next(env, s, Request(t, request)) == s
  {
  }

  /** A request becomes a task exactly when what it asks for is permitted, and then a task for exactly that. */
  lemma RequestBecomesTask(env: Env, s: Sys, t: TaskId, request: MetaRequest, server: string, goal: Goal)
    requires t !in s.tasks
    ensures var s' := Next(env, s, Request(t, request));
            && (t in s'.tasks && s'.tasks[t] == Task(server, goal, FastRead) <==>
                Asks(env, request, server, goal) && Permitted(env, server, goal))
            && (t in s'.tasks ==> s'.tasks == s.tasks[t := s'.tasks[t]])
  {
    AdmitsExactly(env, request, server, goal);
  }
}
