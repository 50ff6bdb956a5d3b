/**
 The lazy registry as a step system. Any number of tasks run the meta-tool requests;
 every lock, atomic access and await of the source is one step, and notifications,
 failures, timeouts and cancellations may fall between any two of them.
 */
module Registry {
  import opened Wrappers
  import opened Gate

  type TaskId = nat
  type ConnId = nat

  /** One answer to a list request; `version` counts the upstream's inventory changes. */
  datatype Inventory = Inventory(version: nat, tools: set<string>)

  /**
   One upstream connection. `current` is what the upstream offers and `notified` the
   latest version a delivered notification announced; `dirty` and `cached` are the
   entry's own fields.
   */
  datatype Conn = Conn(server: string, live: bool, current: Inventory, notified: nat, dirty: bool, cached: Option<Inventory>)

  /** Where a task stands: named after the operation it performs next. */
  datatype Pc =
    | FastRead
    | GuardTable
    | GuardWait
    | SecondRead
    | Resolving
    | Connecting(conn: ConnId, answer: Option<Inventory>)
    | Inserting(conn: ConnId)
    | Load(conn: ConnId)
    | Swap(conn: ConnId)
    | Refetching(conn: ConnId, base: nat, answer: Option<Inventory>)
    | Installing(conn: ConnId, base: nat, newer: Inventory)
    | Restoring(conn: ConnId)
    | ReadTools(conn: ConnId)
    | Calling(conn: ConnId)
    | Finished
  {
    predicate Holds() { SecondRead? || Resolving? || Connecting? || Inserting? }
    predicate Builds() { Connecting? || Inserting? }
    predicate Uses() { Load? || Swap? || Refetching? || Installing? || Restoring? || ReadTools? || Calling? }
    predicate InFlight() { Refetching? || Installing? }

    /** The points where the source awaits, and so where dropping the future takes effect. */
    predicate Awaits() {
      || FastRead? || GuardTable? || GuardWait? || SecondRead? || Connecting? || Inserting?
      || Refetching? || Installing? || ReadTools? || Calling?
    }
  }

  datatype Task = Task(server: string, goal: Goal, pc: Pc)

  datatype Event =
    | Connected(server: string, conn: ConnId)
    | Got(server: string, conn: ConnId)
    | Read(server: string, conn: ConnId, seen: Inventory)
    | Forwarded(server: string, conn: ConnId, tool: string, seen: Inventory)

  datatype Sys = Sys(
    entries: map<string, ConnId>,
    guards: map<string, Option<TaskId>>,
    conns: map<ConnId, Conn>,
    tasks: map<TaskId, Task>,
    log: seq<Event>)

  const INIT := Sys(map[], map[], map[], map[], [])

  datatype Action =
    | Request(t: TaskId, request: MetaRequest)
    | Run(t: TaskId)
    | Connect(t: TaskId, conn: ConnId, offered: set<string>)
    | Answer(t: TaskId)
    | Receive(t: TaskId)
    | Fail(t: TaskId)
    | Cancel(t: TaskId)
    | Change(conn: ConnId, tools: set<string>)
    | Notify(conn: ConnId, upTo: nat)

  /* ---------- when an action can happen ---------- */

  predicate HasTask(s: Sys, t: TaskId) {
    t in s.tasks && (s.tasks[t].pc.Builds() || s.tasks[t].pc.Uses() ==> s.tasks[t].pc.conn in s.conns)
  }

  predicate Enabled(env: Env, s: Sys, a: Action) {
    match a
    case Request(t, request) => t !in s.tasks
    case Run(t) => HasTask(s, t) && CanRun(s, s.tasks[t])
    case Connect(t, conn, _) => HasTask(s, t) && s.tasks[t].pc.Resolving? && conn !in s.conns
    case Answer(t) =>
      HasTask(s, t) && (s.tasks[t].pc.Connecting? || s.tasks[t].pc.Refetching?) && s.tasks[t].pc.answer.None?
    case Receive(t) =>
      HasTask(s, t) &&
      (s.tasks[t].pc.Calling? || ((s.tasks[t].pc.Connecting? || s.tasks[t].pc.Refetching?) && s.tasks[t].pc.answer.Some?))
    case Fail(t) =>
      HasTask(s, t) &&
      (s.tasks[t].pc.Resolving? || s.tasks[t].pc.Connecting? || s.tasks[t].pc.Refetching? || s.tasks[t].pc.Calling?)
    case Cancel(t) => HasTask(s, t) && s.tasks[t].goal.Invoke? && s.tasks[t].pc.Awaits()
    case Change(conn, _) => conn in s.conns && s.conns[conn].live
    case Notify(conn, upTo) =>
      conn in s.conns && s.conns[conn].live && s.conns[conn].notified <= upTo <= s.conns[conn].current.version
  }

  /** Steps a task takes by itself; a held guard is the only thing it may have to wait for. */
  predicate CanRun(s: Sys, k: Task) {
    match k.pc
    case GuardWait => k.server in s.guards && s.guards[k.server].None?
    case Connecting(_, _) => false
    case Refetching(_, _, _) => false
    case Resolving => false
    case Calling(_) => false
    case Finished => false
    case ReadTools(conn) => conn in s.conns && s.conns[conn].cached.Some?
    case _ => true
  }

  /* ---------- what an action does ---------- */

  function SetPc(s: Sys, t: TaskId, pc: Pc): Sys
    requires t in s.tasks
  {
    s.(tasks := s.tasks[t := s.tasks[t].(pc := pc)])
  }

  function Release(s: Sys, server: string): Sys {
    s.(guards := s.guards[server := None])
  }

  function SetConn(s: Sys, c: ConnId, conn: Conn): Sys {
    s.(conns := s.conns[c := conn])
  }

  function Logged(s: Sys, e: Event): Sys {
    s.(log := s.log + [e])
  }

  /** `get_or_connect` returns the entry `c`. */
  function Return(s: Sys, t: TaskId, c: ConnId): Sys
    requires t in s.tasks
  {
    Logged(SetPc(s, t, Load(c)), Got(s.tasks[t].server, c))
  }

  /** The first look at the entries, without a guard. */
  function LookUp(s: Sys, t: TaskId): Sys
    requires t in s.tasks && s.tasks[t].pc.FastRead?
  {
    var server := s.tasks[t].server;
    if server in s.entries then Return(s, t, s.entries[server]) else SetPc(s, t, GuardTable)
  }

  function FindGuard(s: Sys, t: TaskId): Sys
    requires t in s.tasks && s.tasks[t].pc.GuardTable?
  {
    var server := s.tasks[t].server;
    SetPc(if server in s.guards then s else s.(guards := s.guards[server := None]), t, GuardWait)
  }

  function TakeGuard(s: Sys, t: TaskId): Sys
    requires t in s.tasks && s.tasks[t].pc.GuardWait?
  {
    SetPc(s.(guards := s.guards[s.tasks[t].server := Some(t)]), t, SecondRead)
  }

  /** The second look, under the guard. */
  function LookAgain(env: Env, s: Sys, t: TaskId): Sys
    requires t in s.tasks && s.tasks[t].pc.SecondRead?
  {
    var server := s.tasks[t].server;
    if server in s.entries then Release(Return(s, t, s.entries[server]), server)
    else if server in env.configured then SetPc(s, t, Resolving)
    else Release(SetPc(s, t, Finished), server)
  }

  function Insert(s: Sys, t: TaskId): Sys
    requires t in s.tasks && s.tasks[t].pc.Inserting?
  {
    var server, c := s.tasks[t].server, s.tasks[t].pc.conn;
    Release(Return(s.(entries := s.entries[server := c]), t, c), server)
  }

  function LoadFlag(s: Sys, t: TaskId): Sys
    requires HasTask(s, t) && s.tasks[t].pc.Load?
  {
    var c := s.tasks[t].pc.conn;
    SetPc(s, t, if s.conns[c].dirty then Swap(c) else ReadTools(c))
  }

  function SwapFlag(s: Sys, t: TaskId): Sys
    requires HasTask(s, t) && s.tasks[t].pc.Swap?
  {
    var c := s.tasks[t].pc.conn;
    if s.conns[c].dirty then
      SetPc(SetConn(s, c, s.conns[c].(dirty := false)), t, Refetching(c, s.conns[c].notified, None))
    else SetPc(s, t, ReadTools(c))
  }

  function Install(s: Sys, t: TaskId): Sys
    requires HasTask(s, t) && s.tasks[t].pc.Installing?
  {
    var pc := s.tasks[t].pc;
    SetPc(SetConn(s, pc.conn, s.conns[pc.conn].(cached := Some(pc.newer))), t, ReadTools(pc.conn))
  }

  function Restore(s: Sys, t: TaskId): Sys
    requires HasTask(s, t) && s.tasks[t].pc.Restoring?
  {
    var c := s.tasks[t].pc.conn;
    SetPc(SetConn(s, c, s.conns[c].(dirty := true)), t, Finished)
  }

  function RunTask(env: Env, s: Sys, t: TaskId): Sys
    requires HasTask(s, t) && CanRun(s, s.tasks[t])
  {
    match s.tasks[t].pc
    case FastRead => LookUp(s, t)
    case GuardTable => FindGuard(s, t)
    case GuardWait => TakeGuard(s, t)
    case SecondRead => LookAgain(env, s, t)
    case Inserting(_) => Insert(s, t)
    case Load(_) => LoadFlag(s, t)
    case Swap(_) => SwapFlag(s, t)
    case Installing(_, _, _) => Install(s, t)
    case Restoring(_) => Restore(s, t)
    case ReadTools(c) => UseInventory(env, s, t, s.conns[c].cached.value)
    case _ => s
  }

  /** What a request does with the inventory it asked for. */
  function UseInventory(env: Env, s: Sys, t: TaskId, seen: Inventory): Sys
    requires t in s.tasks && s.tasks[t].pc.ReadTools?
  {
    var k := s.tasks[t];
    var read := Logged(s, Read(k.server, k.pc.conn, seen));
    match k.goal
    case List(rest) =>
      if rest == [] || rest[0] !in env.configured then SetPc(read, t, Finished)
      else read.(tasks := s.tasks[t := Task(rest[0], List(rest[1..]), FastRead)])
    case Schema(_) => SetPc(read, t, Finished)
    case Invoke(tool) =>
      if tool in seen.tools then Logged(SetPc(read, t, Calling(k.pc.conn)), Forwarded(k.server, k.pc.conn, tool, seen))
      else SetPc(read, t, Finished)
  }

  /** Drop the task's future: close a half-built connection, then release a held guard. */
  function Abandon(s: Sys, t: TaskId): Sys
    requires HasTask(s, t)
  {
    var k := s.tasks[t];
    var s1 := if k.pc.Builds() then SetConn(s, k.pc.conn, s.conns[k.pc.conn].(live := false)) else s;
    var s2 := if k.pc.Holds() then Release(s1, k.server) else s1;
    SetPc(s2, t, Finished)
  }

  /** A failed refetch goes on to set the flag again; any other failure ends the request. */
  function FailTask(s: Sys, t: TaskId): Sys
    requires HasTask(s, t)
  {
    if s.tasks[t].pc.Refetching? then SetPc(s, t, Restoring(s.tasks[t].pc.conn)) else Abandon(s, t)
  }

  /** The upstream answers a list request with what it offers now. */
  function AnswerTask(s: Sys, t: TaskId): Sys
    requires HasTask(s, t) && (s.tasks[t].pc.Connecting? || s.tasks[t].pc.Refetching?)
  {
    var pc := s.tasks[t].pc;
    SetPc(s, t, pc.(answer := Some(s.conns[pc.conn].current)))
  }

  function ChangeConn(s: Sys, c: ConnId, tools: set<string>): Sys
    requires c in s.conns
  {
    SetConn(s, c, s.conns[c].(current := Inventory(s.conns[c].current.version + 1, tools)))
  }

  function NotifyConn(s: Sys, c: ConnId, upTo: nat): Sys
    requires c in s.conns
  {
    SetConn(s, c, s.conns[c].(notified := upTo, dirty := true))
  }

  function ReceiveTask(s: Sys, t: TaskId): Sys
    requires HasTask(s, t)
    requires s.tasks[t].pc.Calling? || ((s.tasks[t].pc.Connecting? || s.tasks[t].pc.Refetching?) && s.tasks[t].pc.answer.Some?)
  {
    match s.tasks[t].pc
    case Connecting(c, answer) => SetPc(SetConn(s, c, s.conns[c].(cached := answer)), t, Inserting(c))
    case Refetching(c, base, answer) => SetPc(s, t, Installing(c, base, answer.value))
    case _ => SetPc(s, t, Finished)
  }

  function Enter(env: Env, s: Sys, t: TaskId, request: MetaRequest): Sys {
    match Admit(env, request)
    case Admitted(server, goal) => s.(tasks := s.tasks[t := Task(server, goal, FastRead)])
    case _ => s
  }

  function OpenConn(s: Sys, t: TaskId, c: ConnId, offered: set<string>): Sys
    requires t in s.tasks && s.tasks[t].pc.Resolving?
  {
    var server := s.tasks[t].server;
    var conn := Conn(server, true, Inventory(0, offered), 0, false, None);
    Logged(SetPc(SetConn(s, c, conn), t, Connecting(c, None)), Connected(server, c))
  }

  function Next(env: Env, s: Sys, a: Action): Sys
    requires Enabled(env, s, a)
  {
    match a
    case Request(t, request) => Enter(env, s, t, request)
    case Run(t) => RunTask(env, s, t)
    case Connect(t, c, offered) => OpenConn(s, t, c, offered)
    case Answer(t) => AnswerTask(s, t)
    case Receive(t) => ReceiveTask(s, t)
    case Fail(t) => FailTask(s, t)
    case Cancel(t) => Abandon(s, t)
    case Change(c, tools) => ChangeConn(s, c, tools)
    case Notify(c, upTo) => NotifyConn(s, c, upTo)
  }

  /* ---------- runs ---------- */

  /** `states[i]` becomes `states[i + 1]` by `actions[i]`. */
  ghost predicate IsRun(env: Env, states: seq<Sys>, actions: seq<Action>) {
    && |states| == |actions| + 1
    && states[0] == INIT
    && forall i :: 0 <= i < |actions| ==> StepAt(env, states, actions, i)
  }

  ghost predicate StepAt(env: Env, states: seq<Sys>, actions: seq<Action>, i: nat)
    requires |states| == |actions| + 1 && i < |actions|
  {
    Enabled(env, states[i], actions[i]) && states[i + 1] == Next(env, states[i], actions[i])
  }
}
