/** Two runs that end stale, one for each hypothesis of the freshness theorem. */
module StaleRuns {
  import opened Wrappers
  import opened Config
  import opened Gate
  import opened Registry
  import opened Freshness
  import Display
  import Names

  /** `s` ends some run that never overlaps refetches (unless allowed) and never cancels one (unless allowed). */
  ghost predicate Reach(env: Env, s: Sys, overlaps: bool, cancels: bool) {
    exists states: seq<Sys>, actions: seq<Action> :: ReachBy(env, states, actions, s, overlaps, cancels)
  }

  ghost predicate ReachBy(env: Env, states: seq<Sys>, actions: seq<Action>, s: Sys, overlaps: bool, cancels: bool) {
    && IsRun(env, states, actions)
    && states[|actions|] == s
    && (overlaps || forall k :: 0 <= k < |states| ==> NoOverlap(states[k]))
    && (cancels || forall k :: 0 <= k < |actions| ==> !CancelsRefetch(states[k], actions[k]))
  }

  lemma ReachStart(env: Env)
    ensures Reach(env, INIT, false, false)
  {
    assert ReachBy(env, [INIT], [], INIT, false, false);
  }

  lemma ReachStep(env: Env, s: Sys, a: Action, s': Sys, overlaps: bool, cancels: bool)
    requires Reach(env, s, overlaps, cancels) && Enabled(env, s, a) && s' == Next(env, s, a)
    requires overlaps || NoOverlap(s')
    requires cancels || !CancelsRefetch(s, a)
    ensures Reach(env, s', overlaps, cancels)
  {
    var states: seq<Sys>, actions: seq<Action> :| ReachBy(env, states, actions, s, overlaps, cancels);
    var states', actions' := states + [s'], actions + [a];
    forall i | 0 <= i < |actions'|
      ensures StepAt(env, states', actions', i)
    {
      if i < |actions| { assert StepAt(env, states, actions, i); }
    }
    assert ReachBy(env, states', actions', s', overlaps, cancels);
  }

  /** With a single task refetches cannot overlap. */
  lemma ReachAlone(s: Sys, a: Action, s': Sys, overlaps: bool, cancels: bool)
    requires Reach(ENV, s, overlaps, cancels) && Enabled(ENV, s, a) && s' == Next(ENV, s, a)
    requires s'.tasks.Keys == {0} && !a.Cancel?
    ensures Reach(ENV, s', overlaps, cancels)
  {
    assert NoOverlap(s');
    ReachStep(ENV, s, a, s', overlaps, cancels);
  }

  lemma ReachRun(s: Sys, t: TaskId, s': Sys, overlaps: bool, cancels: bool)
    requires Reach(ENV, s, overlaps, cancels) && HasTask(s, t) && CanRun(s, s.tasks[t]) && s' == RunTask(ENV, s, t)
    requires overlaps || s'.tasks.Keys == {0}
    ensures Reach(ENV, s', overlaps, cancels)
  {
    assert s'.tasks.Keys == {0} ==> NoOverlap(s');
    ReachStep(ENV, s, Run(t), s', overlaps, cancels);
  }

  const ENV := Env({"a"}, Acl({"a"}, map[]))

  function InvokeRequest(): MetaRequest {
    MetaRequest("invoke_tool", Some(map["name" := Display.Str(Names.Join("a", "x")), "arguments" := Display.Obj(map[])]))
  }

  lemma InvokeAdmitted()
    ensures Admit(ENV, InvokeRequest()) == Admitted("a", Invoke("x"))
  {
    InvokeAdmittedExactly(ENV, "a", "x", InvokeRequest().arguments.value);
  }

  function CallAt(pc: Pc): Task {
    Task("a", Invoke("x"), pc)
  }

  /** The upstream offers the tool at first and withdraws it with its first change. */
  function Offered(version: nat): Inventory {
    Inventory(version, if version == 0 then {"x"} else {})
  }

  function Conn0(current: nat, notified: nat, dirty: bool, cached: Option<nat>): Conn {
    Conn("a", true, Offered(current), notified, dirty, if cached.Some? then Some(Offered(cached.value)) else None)
  }

  const LOG := [Connected("a", 0), Got("a", 0)]

  /** The registry with connection 0 installed for server `a`. */
  function Installed0(conn: Conn, tasks: map<TaskId, Task>, log: seq<Event>): Sys {
    Sys(map["a" := 0], map["a" := None], map[0 := conn], tasks, log)
  }

  function Building(guard: Option<TaskId>, pc: Pc): Sys {
    Sys(map[], map["a" := guard], map[], map[0 := CallAt(pc)], [])
  }

  function Opened(conn: Conn, pc: Pc): Sys {
    Sys(map[], map["a" := Some(0)], map[0 := conn], map[0 := CallAt(pc)], [Connected("a", 0)])
  }

  lemma GuardTaken(overlaps: bool, cancels: bool)
    ensures Reach(ENV, Building(Some(0), SecondRead), overlaps, cancels)
  {
    GuardFound(overlaps, cancels);
    ReachRun(Building(None, GuardWait), 0, Building(Some(0), SecondRead), overlaps, cancels);
  }

  lemma GuardFound(overlaps: bool, cancels: bool)
    ensures Reach(ENV, Building(None, GuardWait), overlaps, cancels)
  {
    FirstRead(overlaps, cancels);
    ReachRun(Sys(map[], map[], map[], map[0 := CallAt(GuardTable)], []), 0, Building(None, GuardWait), overlaps, cancels);
  }

  lemma FirstRead(overlaps: bool, cancels: bool)
    ensures Reach(ENV, Sys(map[], map[], map[], map[0 := CallAt(GuardTable)], []), overlaps, cancels)
  {
    ReachStart(ENV);
    assert Reach(ENV, INIT, overlaps, cancels) by {
      var states: seq<Sys>, actions: seq<Action> :| ReachBy(ENV, states, actions, INIT, false, false);
      assert ReachBy(ENV, states, actions, INIT, overlaps, cancels);
    }
    InvokeAdmitted();
    var s0 := Sys(map[], map[], map[], map[0 := CallAt(FastRead)], []);
    ReachAlone(INIT, Request(0, InvokeRequest()), s0, overlaps, cancels);
    var s1 := Sys(map[], map[], map[], map[0 := CallAt(GuardTable)], []);
    ReachRun(s0, 0, s1, overlaps, cancels);
  }

  lemma Resolving0(overlaps: bool, cancels: bool)
    ensures Reach(ENV, Building(Some(0), Resolving), overlaps, cancels)
  {
    GuardTaken(overlaps, cancels);
    ReachRun(Building(Some(0), SecondRead), 0, Building(Some(0), Resolving), overlaps, cancels);
  }

  lemma Connecting0(overlaps: bool, cancels: bool)
    ensures Reach(ENV, Opened(Conn0(0, 0, false, None), Connecting(0, None)), overlaps, cancels)
  {
    Resolving0(overlaps, cancels);
    var conn := Conn0(0, 0, false, None);
    ReachAlone(Building(Some(0), Resolving), Connect(0, 0, {"x"}), Opened(conn, Connecting(0, None)), overlaps, cancels);
  }

  lemma FirstInventory(overlaps: bool, cancels: bool)
    ensures Reach(ENV, Opened(Conn0(0, 0, false, Some(0)), Inserting(0)), overlaps, cancels)
  {
    Connecting0(overlaps, cancels);
    var conn, first := Conn0(0, 0, false, None), Some(Offered(0));
    ReachAlone(Opened(conn, Connecting(0, None)), Answer(0), Opened(conn, Connecting(0, first)), overlaps, cancels);
    ReachAlone(Opened(conn, Connecting(0, first)), Receive(0), Opened(Conn0(0, 0, false, Some(0)), Inserting(0)), overlaps, cancels);
  }

  lemma FirstConnect(overlaps: bool, cancels: bool)
    ensures Reach(ENV, Installed0(Conn0(0, 0, false, Some(0)), map[0 := CallAt(Load(0))], LOG), overlaps, cancels)
  {
    FirstInventory(overlaps, cancels);
    var read0 := Conn0(0, 0, false, Some(0));
    ReachRun(Opened(read0, Inserting(0)), 0, Installed0(read0, map[0 := CallAt(Load(0))], LOG), overlaps, cancels);
  }

  lemma FirstNotification(overlaps: bool, cancels: bool)
    ensures Reach(ENV, Installed0(Conn0(1, 1, true, Some(0)), map[0 := CallAt(Load(0))], LOG), overlaps, cancels)
  {
    FirstConnect(overlaps, cancels);
    var loading := map[0 := CallAt(Load(0))];
    var s0 := Installed0(Conn0(0, 0, false, Some(0)), loading, LOG);
    var s1 := Installed0(Conn0(1, 0, false, Some(0)), loading, LOG);
    ReachAlone(s0, Change(0, {}), s1, overlaps, cancels);
    var s2 := Installed0(Conn0(1, 1, true, Some(0)), loading, LOG);
    ReachAlone(s1, Notify(0, 1), s2, overlaps, cancels);
  }

  /** After one notification, task 0 has cleared the flag and awaits its refetch. */
  lemma RefetchStarted(overlaps: bool, cancels: bool)
    ensures Reach(ENV, Installed0(Conn0(1, 1, false, Some(0)), map[0 := CallAt(Refetching(0, 1, None))], LOG), overlaps, cancels)
  {
    FirstNotification(overlaps, cancels);
    var s2 := Installed0(Conn0(1, 1, true, Some(0)), map[0 := CallAt(Load(0))], LOG);
    var s3 := Installed0(Conn0(1, 1, true, Some(0)), map[0 := CallAt(Swap(0))], LOG);
    ReachRun(s2, 0, s3, overlaps, cancels);
    var s4 := Installed0(Conn0(1, 1, false, Some(0)), map[0 := CallAt(Refetching(0, 1, None))], LOG);
    ReachRun(s3, 0, s4, overlaps, cancels);
  }

  /** Without overlapping refetches: a call cancelled while it refetches leaves the cache behind until the next notification. */
  lemma CancelledRefetchGoesStale()
    ensures exists s :: Reach(ENV, s, false, true) && !AllFresh(s) && Stuck(s, 0)
  {
    RefetchStarted(false, true);
    var s0 := Installed0(Conn0(1, 1, false, Some(0)), map[0 := CallAt(Refetching(0, 1, None))], LOG);
    var s1 := Installed0(Conn0(1, 1, false, Some(0)), map[0 := CallAt(Finished)], LOG);
    ReachStep(ENV, s0, Cancel(0), s1, false, true);
    assert Stuck(s1, 0);
    assert !Fresh(s1, 0);
    assert s1.entries["a"] == 0;
  }

  const LOG2 := LOG + [Got("a", 0)]

  const ANSWERED := Task("a", Invoke("x"), Refetching(0, 1, Some(Offered(1))))

  /** Task 0 has its answer but has not resumed when the inventory changes again. */
  lemma SecondNotification()
    ensures Reach(ENV, Installed0(Conn0(2, 2, true, Some(0)), map[0 := ANSWERED], LOG), true, false)
  {
    RefetchStarted(true, false);
    var s0 := Installed0(Conn0(1, 1, false, Some(0)), map[0 := CallAt(Refetching(0, 1, None))], LOG);
    var s1 := Installed0(Conn0(1, 1, false, Some(0)), map[0 := ANSWERED], LOG);
    ReachStep(ENV, s0, Answer(0), s1, true, false);
    var s2 := Installed0(Conn0(2, 1, false, Some(0)), map[0 := ANSWERED], LOG);
    ReachStep(ENV, s1, Change(0, {}), s2, true, false);
    var s3 := Installed0(Conn0(2, 2, true, Some(0)), map[0 := ANSWERED], LOG);
    ReachStep(ENV, s2, Notify(0, 2), s3, true, false);
  }

  lemma SecondRequest()
    ensures Reach(ENV, Installed0(Conn0(2, 2, true, Some(0)), map[0 := ANSWERED, 1 := CallAt(FastRead)], LOG), true, false)
  {
    SecondNotification();
    InvokeAdmitted();
    var notified := Conn0(2, 2, true, Some(0));
    ReachStep(ENV, Installed0(notified, map[0 := ANSWERED], LOG), Request(1, InvokeRequest()),
              Installed0(notified, map[0 := ANSWERED, 1 := CallAt(FastRead)], LOG), true, false);
  }

  lemma SecondTask()
    ensures Reach(ENV, Installed0(Conn0(2, 2, true, Some(0)), map[0 := ANSWERED, 1 := CallAt(Load(0))], LOG2), true, false)
  {
    SecondRequest();
    var notified := Conn0(2, 2, true, Some(0));
    var s4 := Installed0(notified, map[0 := ANSWERED, 1 := CallAt(FastRead)], LOG);
    var s5 := Installed0(notified, map[0 := ANSWERED, 1 := CallAt(Load(0))], LOG2);
    ReachRun(s4, 1, s5, true, false);
  }

  /** While task 0 waits with an answer, a second notification starts a second refetch. */
  lemma SecondRefetch()
    ensures Reach(ENV, Installed0(Conn0(2, 2, false, Some(0)), map[0 := ANSWERED, 1 := CallAt(Refetching(0, 2, None))], LOG2), true, false)
  {
    SecondTask();
    var s5 := Installed0(Conn0(2, 2, true, Some(0)), map[0 := ANSWERED, 1 := CallAt(Load(0))], LOG2);
    var s6 := Installed0(Conn0(2, 2, true, Some(0)), map[0 := ANSWERED, 1 := CallAt(Swap(0))], LOG2);
    ReachRun(s5, 1, s6, true, false);
    var s7 := Installed0(Conn0(2, 2, false, Some(0)), map[0 := ANSWERED, 1 := CallAt(Refetching(0, 2, None))], LOG2);
    ReachRun(s6, 1, s7, true, false);
  }

  lemma NewerInstalled()
    ensures Reach(ENV, Installed0(Conn0(2, 2, false, Some(2)), map[0 := ANSWERED, 1 := CallAt(ReadTools(0))], LOG2), true, false)
  {
    SecondRefetch();
    var conn, new2 := Conn0(2, 2, false, Some(0)), Offered(2);
    var s0 := Installed0(conn, map[0 := ANSWERED, 1 := CallAt(Refetching(0, 2, None))], LOG2);
    var s1 := Installed0(conn, map[0 := ANSWERED, 1 := CallAt(Refetching(0, 2, Some(new2)))], LOG2);
    ReachStep(ENV, s0, Answer(1), s1, true, false);
    var s2 := Installed0(conn, map[0 := ANSWERED, 1 := CallAt(Installing(0, 2, new2))], LOG2);
    ReachStep(ENV, s1, Receive(1), s2, true, false);
    var s3 := Installed0(Conn0(2, 2, false, Some(2)), map[0 := ANSWERED, 1 := CallAt(ReadTools(0))], LOG2);
    ReachRun(s2, 1, s3, true, false);
  }

  /** Without cancellation: two overlapping refetches install in the wrong order. */
  lemma OverlappingRefetchesGoStale()
    ensures exists s :: Reach(ENV, s, true, false) && !AllFresh(s) && Stuck(s, 0)
  {
    NewerInstalled();
    var s3 := Installed0(Conn0(2, 2, false, Some(2)), map[0 := ANSWERED, 1 := CallAt(ReadTools(0))], LOG2);
    var s4 := Installed0(Conn0(2, 2, false, Some(2)),
                         map[0 := CallAt(Installing(0, 1, Offered(1))), 1 := CallAt(ReadTools(0))], LOG2);
    ReachStep(ENV, s3, Receive(0), s4, true, false);
    var s5 := Installed0(Conn0(2, 2, false, Some(1)), map[0 := CallAt(ReadTools(0)), 1 := CallAt(ReadTools(0))], LOG2);
    ReachRun(s4, 0, s5, true, false);
    assert Stuck(s5, 0);
    assert !Fresh(s5, 0);
    assert s5.entries["a"] == 0;
  }

  /* ---------- careful, and still behind ---------- */

  /** A step of two tasks of which only task 0 can be refetching. */
  lemma ReachPair(s: Sys, a: Action, s': Sys)
    requires Reach(ENV, s, false, false) && Enabled(ENV, s, a) && s' == Next(ENV, s, a)
    requires !a.Cancel? && s'.tasks.Keys == {0, 1} && !s'.tasks[1].pc.InFlight()
    ensures Reach(ENV, s', false, false)
  {
    assert NoOverlap(s');
    ReachStep(ENV, s, a, s', false, false);
  }

  const NOTIFIED := Conn0(1, 1, true, Some(0))
  const SWAPPED := Conn0(1, 1, false, Some(0))

  function Two(conn: Conn, first: Pc, second: Pc): Sys {
    Installed0(conn, map[0 := CallAt(first), 1 := CallAt(second)], LOG2)
  }

  lemma BothSeeFlag()
    ensures Reach(ENV, Two(NOTIFIED, Swap(0), Swap(0)), false, false)
  {
    BothLoad();
    ReachPair(Two(NOTIFIED, Load(0), Load(0)), Run(0), Two(NOTIFIED, Swap(0), Load(0)));
    ReachPair(Two(NOTIFIED, Swap(0), Load(0)), Run(1), Two(NOTIFIED, Swap(0), Swap(0)));
  }

  lemma BothLoad()
    ensures Reach(ENV, Two(NOTIFIED, Load(0), Load(0)), false, false)
  {
    SecondEnters();
    var s1 := Installed0(NOTIFIED, map[0 := CallAt(Load(0)), 1 := CallAt(FastRead)], LOG);
    ReachPair(s1, Run(1), Two(NOTIFIED, Load(0), Load(0)));
  }

  lemma SecondEnters()
    ensures Reach(ENV, Installed0(NOTIFIED, map[0 := CallAt(Load(0)), 1 := CallAt(FastRead)], LOG), false, false)
  {
    FirstNotification(false, false);
    InvokeAdmitted();
    var s0 := Installed0(NOTIFIED, map[0 := CallAt(Load(0))], LOG);
    ReachPair(s0, Request(1, InvokeRequest()), Installed0(NOTIFIED, map[0 := CallAt(Load(0)), 1 := CallAt(FastRead)], LOG));
  }

  lemma LoserReads()
    ensures Reach(ENV, Two(SWAPPED, Refetching(0, 1, None), ReadTools(0)), false, false)
  {
    BothSeeFlag();
    ReachPair(Two(NOTIFIED, Swap(0), Swap(0)), Run(0), Two(SWAPPED, Refetching(0, 1, None), Swap(0)));
    ReachPair(Two(SWAPPED, Refetching(0, 1, None), Swap(0)), Run(1), Two(SWAPPED, Refetching(0, 1, None), ReadTools(0)));
  }

  ghost predicate ForwardedBehind(s: Sys, e: Event) {
    e in s.log && e.Forwarded? && e.conn in s.conns && e.seen.version < s.conns[e.conn].notified
    && e.tool !in s.conns[e.conn].current.tools
  }

  /**
   Even without overlapping or cancelled refetches, the task that loses the swap does not wait
   for the winner: it forwards against the old inventory a tool its upstream no longer offers.
   */
  lemma LoserForwardsBehind()
    ensures exists s, e :: Reach(ENV, s, false, false) && ForwardedBehind(s, e)
  {
    LoserReads();
    var s0 := Two(SWAPPED, Refetching(0, 1, None), ReadTools(0));
    var e := Forwarded("a", 0, "x", Offered(0));
    var s1 := Installed0(SWAPPED, map[0 := CallAt(Refetching(0, 1, None)), 1 := CallAt(Calling(0))],
                         LOG2 + [Read("a", 0, Offered(0))] + [e]);
    ReachPair(s0, Run(1), s1);
    assert ForwardedBehind(s1, e);
  }
}
