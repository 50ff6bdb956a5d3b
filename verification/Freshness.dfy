/**
 When the cached inventory may lag behind the notifications. Freshness of an entry means
 its dirty flag is set, or a refetch begun after the last notification is pending, or the
 cache is at least as new as that notification.
 */
module Freshness {
  import opened Gate
  import opened Registry
  import opened RegistrySafety

  /** Task `t` has yet to bring `c` up to date: it refetches since the last notification, or will set the flag again. */
  ghost predicate Pending(s: Sys, t: TaskId, c: ConnId) {
    && t in s.tasks && c in s.conns
    && var pc := s.tasks[t].pc;
       || (pc.InFlight() && pc.conn == c && pc.base == s.conns[c].notified)
       || (pc.Restoring? && pc.conn == c)
  }

  ghost predicate UpToDate(s: Sys, c: ConnId)
    requires c in s.conns
  {
    s.conns[c].cached.Some? && s.conns[c].cached.value.version >= s.conns[c].notified
  }

  ghost predicate Fresh(s: Sys, c: ConnId)
    requires c in s.conns
  {
    s.conns[c].dirty || UpToDate(s, c) || exists t :: Pending(s, t, c)
  }

  ghost predicate AllFresh(s: Sys) {
    forall server :: server in s.entries ==> s.entries[server] in s.conns && Fresh(s, s.entries[server])
  }

  /* ---------- what versions can be where ---------- */

  ghost predicate VersionTask(s: Sys, t: TaskId)
    requires t in s.tasks
  {
    var pc := s.tasks[t].pc;
    && (pc.Connecting? || pc.Inserting? ==> pc.conn in s.conns && (s.conns[pc.conn].dirty || s.conns[pc.conn].notified == 0))
    && (pc.InFlight() ==> pc.conn in s.conns && pc.base <= s.conns[pc.conn].notified)
    && (pc.Refetching? && pc.answer.Some? ==> pc.base <= pc.answer.value.version)
    && (pc.Installing? ==> pc.base <= pc.newer.version)
  }

  ghost predicate VersionInv(s: Sys) {
    && (forall t :: t in s.tasks ==> VersionTask(s, t))
    && (forall c :: c in s.conns ==> s.conns[c].notified <= s.conns[c].current.version)
  }

  /** A step of task `t`: other tasks stay put, notifications do not move, only installed flags are cleared. */
  ghost predicate StepOf(s: Sys, s': Sys, t: TaskId) {
    && t in s.tasks && t in s'.tasks
    && s'.tasks == s.tasks[t := s'.tasks[t]]
    && s.conns.Keys <= s'.conns.Keys
    && (forall c :: c in s.conns ==>
          && s'.conns[c].notified == s.conns[c].notified
          && s'.conns[c].current == s.conns[c].current
          && (s.conns[c].dirty ==> s'.conns[c].dirty || Installed(s, c)))
    && (forall c :: c in s'.conns && c !in s.conns ==> s'.conns[c].notified == 0)
  }

  lemma TaskStepKeepsVersions(s: Sys, s': Sys, t: TaskId)
    requires Inv(s) && VersionInv(s) && StepOf(s, s', t) && VersionTask(s', t)
    ensures VersionInv(s')
  {
  }

  predicate FlagStep(pc: Pc) {
    pc.Swap? || pc.Installing? || pc.Restoring?
  }

  /** Away from the flag and the cache, a running task changes no connection and starts no wait on one. */
  lemma PlainRun(env: Env, s: Sys, t: TaskId)
    requires HasTask(s, t) && CanRun(s, s.tasks[t]) && !FlagStep(s.tasks[t].pc)
    ensures var s' := RunTask(env, s, t);
            && s'.conns == s.conns
            && t in s'.tasks && s'.tasks == s.tasks[t := s'.tasks[t]]
            && !s'.tasks[t].pc.InFlight() && !s'.tasks[t].pc.Builds()
            && (s'.entries == s.entries || s.tasks[t].pc.Inserting?)
  {
    if s.tasks[t].pc.ReadTools? {
      InventoryRun(env, s, t, s.conns[s.tasks[t].pc.conn].cached.value);
    }
  }

  lemma InventoryRun(env: Env, s: Sys, t: TaskId, seen: Inventory)
    requires t in s.tasks && s.tasks[t].pc.ReadTools?
    ensures var s' := UseInventory(env, s, t, seen);
            && s'.conns == s.conns && s'.entries == s.entries
            && t in s'.tasks && s'.tasks == s.tasks[t := s'.tasks[t]]
            && !s'.tasks[t].pc.InFlight() && !s'.tasks[t].pc.Builds()
  {
  }

  lemma FlagRunKeepsVersions(env: Env, s: Sys, t: TaskId)
    requires Inv(s) && VersionInv(s) && HasTask(s, t) && FlagStep(s.tasks[t].pc)
    ensures VersionInv(RunTask(env, s, t)) && StepOf(s, RunTask(env, s, t), t)
  {
    assert TaskInv(s, t) && VersionTask(s, t) && EntryInv(s, s.tasks[t].server);
    TaskStepKeepsVersions(s, RunTask(env, s, t), t);
  }

  lemma RunKeepsVersions(env: Env, s: Sys, t: TaskId)
    requires Inv(s) && VersionInv(s) && HasTask(s, t) && CanRun(s, s.tasks[t])
    ensures VersionInv(RunTask(env, s, t)) && StepOf(s, RunTask(env, s, t), t)
  {
    if FlagStep(s.tasks[t].pc) {
      FlagRunKeepsVersions(env, s, t);
    } else {
      PlainRun(env, s, t);
      PlainStepKeepsVersions(s, RunTask(env, s, t), t);
    }
  }

  lemma PlainStepKeepsVersions(s: Sys, s': Sys, t: TaskId)
    requires Inv(s) && VersionInv(s) && t in s.tasks && t in s'.tasks
    requires s'.conns == s.conns && s'.tasks == s.tasks[t := s'.tasks[t]]
    requires !s'.tasks[t].pc.InFlight() && !s'.tasks[t].pc.Builds()
    ensures VersionInv(s') && StepOf(s, s', t)
  {
  }

  lemma EnvironmentKeepsVersions(env: Env, s: Sys, a: Action)
    requires VersionInv(s) && (a.Request? || a.Change? || a.Notify?) && Enabled(env, s, a)
    ensures VersionInv(Next(env, s, a))
  {
  }

  lemma ConnectKeepsVersions(env: Env, s: Sys, a: Action)
    requires Inv(s) && VersionInv(s) && Enabled(env, s, a) && a.Connect?
    ensures VersionInv(Next(env, s, a)) && StepOf(s, Next(env, s, a), a.t)
  {
  }

  lemma AnswerKeepsVersions(s: Sys, t: TaskId)
    requires Inv(s) && VersionInv(s) && HasTask(s, t) && (s.tasks[t].pc.Connecting? || s.tasks[t].pc.Refetching?)
    ensures VersionInv(AnswerTask(s, t)) && StepOf(s, AnswerTask(s, t), t)
  {
    assert TaskInv(s, t) && VersionTask(s, t);
    TaskStepKeepsVersions(s, AnswerTask(s, t), t);
  }

  lemma ReceiveKeepsVersions(s: Sys, t: TaskId)
    requires Inv(s) && VersionInv(s) && HasTask(s, t)
    requires s.tasks[t].pc.Calling? || ((s.tasks[t].pc.Connecting? || s.tasks[t].pc.Refetching?) && s.tasks[t].pc.answer.Some?)
    ensures VersionInv(ReceiveTask(s, t)) && StepOf(s, ReceiveTask(s, t), t)
  {
    assert TaskInv(s, t) && VersionTask(s, t);
    TaskStepKeepsVersions(s, ReceiveTask(s, t), t);
  }

  lemma AbandonKeepsVersions(s: Sys, t: TaskId)
    requires Inv(s) && VersionInv(s) && HasTask(s, t)
    ensures VersionInv(Abandon(s, t)) && StepOf(s, Abandon(s, t), t) && t in Abandon(s, t).tasks
    ensures Abandon(s, t).tasks[t].pc == Finished
  {
    assert TaskInv(s, t);
    TaskStepKeepsVersions(s, Abandon(s, t), t);
  }

  lemma FailKeepsVersions(s: Sys, t: TaskId)
    requires Inv(s) && VersionInv(s) && HasTask(s, t)
    ensures VersionInv(FailTask(s, t)) && StepOf(s, FailTask(s, t), t)
    ensures !FailTask(s, t).tasks[t].pc.InFlight()
  {
    if s.tasks[t].pc.Refetching? {
      TaskStepKeepsVersions(s, FailTask(s, t), t);
    } else {
      AbandonKeepsVersions(s, t);
    }
  }

  lemma StepKeepsVersions(env: Env, s: Sys, a: Action)
    requires Inv(s) && VersionInv(s) && Enabled(env, s, a)
    ensures VersionInv(Next(env, s, a))
  {
    match a
    case Run(t) => RunKeepsVersions(env, s, t);
    case Request(_, _) => EnvironmentKeepsVersions(env, s, a);
    case Change(_, _) => EnvironmentKeepsVersions(env, s, a);
    case Notify(_, _) => EnvironmentKeepsVersions(env, s, a);
    case Connect(_, _, _) => ConnectKeepsVersions(env, s, a);
    case Answer(t) => AnswerKeepsVersions(s, t);
    case Receive(t) => ReceiveKeepsVersions(s, t);
    case Fail(t) => FailKeepsVersions(s, t);
    case Cancel(t) => AbandonKeepsVersions(s, t);
  }

  lemma {:induction false} RunVersions(env: Env, states: seq<Sys>, actions: seq<Action>, i: nat)
    requires IsRun(env, states, actions) && i < |states|
    ensures VersionInv(states[i])
    decreases i
  {
    if i > 0 {
      RunVersions(env, states, actions, i - 1);
      RunInv(env, states, actions, i - 1);
      assert StepAt(env, states, actions, i - 1);
      StepKeepsVersions(env, states[i - 1], actions[i - 1]);
    }
  }

  /* ---------- the two ways to lose freshness ---------- */

  /** Nothing but task `t` stands between `c` and staleness. */
  ghost predicate OnlyHope(s: Sys, t: TaskId, c: ConnId)
    requires c in s.conns
  {
    !s.conns[c].dirty && forall u :: u != t ==> !Pending(s, u, c)
  }

  /**
   The guard of a losing step: a call cancelled between the flag's swap and the install,
   or a refetch installing an inventory older than the last notification, while the flag
   is clear and no other task is pending (and, for the cancellation, the cache is behind).
   */
  ghost predicate Loses(s: Sys, a: Action) {
    || (&& a.Cancel? && a.t in s.tasks && s.tasks[a.t].pc.InFlight()
        && var c := s.tasks[a.t].pc.conn;
           c in s.conns && OnlyHope(s, a.t, c) && !UpToDate(s, c))
    || (&& a.Run? && a.t in s.tasks && s.tasks[a.t].pc.Installing?
        && var c := s.tasks[a.t].pc.conn;
           c in s.conns && OnlyHope(s, a.t, c) && s.tasks[a.t].pc.newer.version < s.conns[c].notified)
  }

  /** Carries freshness of `c` over a step that leaves its fields alone and no pending task behind. */
  lemma FreshCarries(s: Sys, s': Sys, c: ConnId)
    requires c in s.conns && c in s'.conns && Fresh(s, c)
    requires s'.conns[c].dirty == s.conns[c].dirty && s'.conns[c].notified == s.conns[c].notified
    requires s'.conns[c].cached == s.conns[c].cached
    requires forall t :: Pending(s, t, c) ==> Pending(s', t, c)
    ensures Fresh(s', c)
  {
  }

  lemma CancelFreshness(env: Env, s: Sys, a: Action)
    requires Inv(s) && VersionInv(s) && AllFresh(s) && a.Cancel? && Enabled(env, s, a)
    ensures AllFresh(Next(env, s, a)) <==> !Loses(s, a)
  {
    AbandonFreshness(s, a.t, a);
  }

  lemma AbandonFreshness(s: Sys, t: TaskId, a: Action)
    requires Inv(s) && AllFresh(s) && HasTask(s, t) && a == Cancel(t) && !s.tasks[t].pc.Restoring?
    ensures AllFresh(Abandon(s, t)) <==> !Loses(s, a)
  {
    var s' := Abandon(s, t);
    var pc := s.tasks[t].pc;
    assert TaskInv(s, t);
    assert forall u, c :: u != t ==> (Pending(s', u, c) <==> Pending(s, u, c));
    if Loses(s, a) {
      var c := pc.conn;
      assert s'.entries[s.tasks[t].server] == c;
      assert !Fresh(s', c);
    } else {
      forall server | server in s'.entries
        ensures s'.entries[server] in s'.conns && Fresh(s', s'.entries[server])
      {
        var c := s.entries[server];
        assert EntryInv(s, server) && Fresh(s, c);
        assert pc.Builds() ==> pc.conn != c;
        if u :| Pending(s, u, c) && u != t {
          assert Pending(s', u, c);
        }
      }
    }
  }

  lemma InstallFreshness(env: Env, s: Sys, t: TaskId)
    requires Inv(s) && VersionInv(s) && AllFresh(s) && HasTask(s, t) && s.tasks[t].pc.Installing?
    ensures AllFresh(RunTask(env, s, t)) <==> !Loses(s, Run(t))
  {
    var s' := RunTask(env, s, t);
    var pc := s.tasks[t].pc;
    var c := pc.conn;
    assert TaskInv(s, t) && VersionTask(s, t);
    assert forall u, d :: u != t ==> (Pending(s', u, d) <==> Pending(s, u, d));
    if Loses(s, Run(t)) {
      assert s'.entries[s.tasks[t].server] == c;
      assert !Fresh(s', c);
    } else {
      forall server | server in s'.entries
        ensures s'.entries[server] in s'.conns && Fresh(s', s'.entries[server])
      {
        var d := s.entries[server];
        assert Fresh(s, d);
        if d == c {
          if !s.conns[c].dirty && pc.newer.version < s.conns[c].notified {
            var u :| u != t && Pending(s, u, c);
            assert Pending(s', u, c);
          }
        } else {
          FreshCarries(s, s', d);
        }
      }
    }
  }

  /** Clearing the flag makes the task that clears it pending; setting it again is always fresh. */
  lemma FlagStepFreshness(env: Env, s: Sys, t: TaskId)
    requires Inv(s) && VersionInv(s) && AllFresh(s) && HasTask(s, t)
    requires s.tasks[t].pc.Swap? || s.tasks[t].pc.Restoring?
    ensures AllFresh(RunTask(env, s, t))
  {
    var s' := RunTask(env, s, t);
    var c := s.tasks[t].pc.conn;
    assert TaskInv(s, t);
    forall server | server in s'.entries
      ensures s'.entries[server] in s'.conns && Fresh(s', s'.entries[server])
    {
      var d := s.entries[server];
      assert Fresh(s, d);
      if d == c && s.conns[c].dirty && s.tasks[t].pc.Swap? {
        assert Pending(s', t, c);
      } else if d != c || s.tasks[t].pc.Swap? {
        FreshCarries(s, s', d);
      }
    }
  }

  /** A first inventory is fresh: every notification so far has left the flag set. */
  lemma InsertFreshness(env: Env, s: Sys, t: TaskId)
    requires Inv(s) && VersionInv(s) && AllFresh(s) && HasTask(s, t) && s.tasks[t].pc.Inserting?
    ensures AllFresh(RunTask(env, s, t))
  {
    var s' := RunTask(env, s, t);
    assert TaskInv(s, t) && VersionTask(s, t);
    forall server | server in s'.entries
      ensures s'.entries[server] in s'.conns && Fresh(s', s'.entries[server])
    {
      if server != s.tasks[t].server {
        assert Fresh(s, s.entries[server]);
        FreshCarries(s, s', s.entries[server]);
      }
    }
  }

  lemma PlainRunFreshness(env: Env, s: Sys, t: TaskId)
    requires Inv(s) && AllFresh(s) && HasTask(s, t) && CanRun(s, s.tasks[t])
    requires !FlagStep(s.tasks[t].pc) && !s.tasks[t].pc.Inserting?
    ensures AllFresh(RunTask(env, s, t))
  {
    var s' := RunTask(env, s, t);
    PlainRun(env, s, t);
    forall server | server in s'.entries
      ensures s'.entries[server] in s'.conns && Fresh(s', s'.entries[server])
    {
      FreshCarries(s, s', s.entries[server]);
    }
  }

  lemma RunFreshness(env: Env, s: Sys, a: Action)
    requires Inv(s) && VersionInv(s) && AllFresh(s) && a.Run? && Enabled(env, s, a)
    ensures AllFresh(Next(env, s, a)) <==> !Loses(s, a)
  {
    var pc := s.tasks[a.t].pc;
    if pc.Installing? {
      InstallFreshness(env, s, a.t);
    } else if pc.Swap? || pc.Restoring? {
      FlagStepFreshness(env, s, a.t);
    } else if pc.Inserting? {
      InsertFreshness(env, s, a.t);
    } else {
      PlainRunFreshness(env, s, a.t);
    }
  }

  lemma OtherFreshness(env: Env, s: Sys, a: Action)
    requires Inv(s) && VersionInv(s) && AllFresh(s) && Enabled(env, s, a) && !a.Run? && !a.Cancel?
    ensures AllFresh(Next(env, s, a))
  {
    match a
    case Connect(t, c, offered) => OpenFreshness(s, t, c, offered);
    case Answer(t) => AnswerFreshness(s, t);
    case Receive(t) => ReceiveFreshness(s, t);
    case Fail(t) => FailFreshness(s, t);
    case _ => EnvironmentFreshness(env, s, a);
  }

  lemma EnvironmentFreshness(env: Env, s: Sys, a: Action)
    requires AllFresh(s) && Enabled(env, s, a) && (a.Request? || a.Change? || a.Notify?)
    ensures AllFresh(Next(env, s, a))
  {
    var s' := Next(env, s, a);
    forall server | server in s'.entries
      ensures s'.entries[server] in s'.conns && Fresh(s', s'.entries[server])
    {
      if !(a.Notify? && a.conn == s.entries[server]) {
        FreshCarries(s, s', s.entries[server]);
      }
    }
  }

  /** Steps that touch no installed connection and leave whoever was pending so. */
  lemma ElsewhereKeepsFresh(s: Sys, s': Sys)
    requires Inv(s) && AllFresh(s) && s'.entries == s.entries && s.conns.Keys <= s'.conns.Keys
    requires forall server :: server in s.entries ==>
               s.entries[server] in s.conns && s'.conns[s.entries[server]] == s.conns[s.entries[server]]
    requires forall t, c :: Pending(s, t, c) ==> Pending(s', t, c)
    ensures AllFresh(s')
  {
    forall server | server in s'.entries
      ensures s'.entries[server] in s'.conns && Fresh(s', s'.entries[server])
    {
      FreshCarries(s, s', s.entries[server]);
    }
  }

  lemma OpenFreshness(s: Sys, t: TaskId, c: ConnId, offered: set<string>)
    requires Inv(s) && AllFresh(s) && t in s.tasks && s.tasks[t].pc.Resolving? && c !in s.conns
    ensures AllFresh(OpenConn(s, t, c, offered))
  {
    ElsewhereKeepsFresh(s, OpenConn(s, t, c, offered));
  }

  lemma AnswerFreshness(s: Sys, t: TaskId)
    requires Inv(s) && AllFresh(s) && HasTask(s, t) && (s.tasks[t].pc.Connecting? || s.tasks[t].pc.Refetching?)
    ensures AllFresh(AnswerTask(s, t))
  {
    ElsewhereKeepsFresh(s, AnswerTask(s, t));
  }

  lemma ReceiveFreshness(s: Sys, t: TaskId)
    requires Inv(s) && AllFresh(s) && HasTask(s, t)
    requires s.tasks[t].pc.Calling? || ((s.tasks[t].pc.Connecting? || s.tasks[t].pc.Refetching?) && s.tasks[t].pc.answer.Some?)
    ensures AllFresh(ReceiveTask(s, t))
  {
    assert TaskInv(s, t);
    forall server | server in s.entries
      ensures s.entries[server] in s.conns && (s.tasks[t].pc.Connecting? ==> s.entries[server] != s.tasks[t].pc.conn)
    {
      assert EntryInv(s, server);
    }
    ElsewhereKeepsFresh(s, ReceiveTask(s, t));
  }

  lemma FailFreshness(s: Sys, t: TaskId)
    requires Inv(s) && AllFresh(s) && HasTask(s, t) && !s.tasks[t].pc.Restoring? && !s.tasks[t].pc.Installing?
    ensures AllFresh(FailTask(s, t))
  {
    if s.tasks[t].pc.Refetching? {
      ElsewhereKeepsFresh(s, FailTask(s, t));
    } else {
      AbandonFreshness(s, t, Cancel(t));
    }
  }

  /** From a fresh state, a step is followed by a stale one exactly when it is a losing step. */
  lemma StepFreshness(env: Env, s: Sys, a: Action)
    requires Inv(s) && VersionInv(s) && AllFresh(s) && Enabled(env, s, a)
    ensures AllFresh(Next(env, s, a)) <==> !Loses(s, a)
  {
    match a
    case Run(_) => RunFreshness(env, s, a);
    case Cancel(_) => CancelFreshness(env, s, a);
    case _ => OtherFreshness(env, s, a);
  }

  lemma {:induction false} NoLosingStepSoFar(env: Env, states: seq<Sys>, actions: seq<Action>, i: nat)
    requires IsRun(env, states, actions) && i < |states|
    requires forall k :: 0 <= k < i ==> !Loses(states[k], actions[k])
    ensures AllFresh(states[i])
    decreases i
  {
    if i > 0 {
      NoLosingStepSoFar(env, states, actions, i - 1);
      RunInv(env, states, actions, i - 1);
      RunVersions(env, states, actions, i - 1);
      assert StepAt(env, states, actions, i - 1);
      StepFreshness(env, states[i - 1], actions[i - 1]);
    }
  }

  /** A run is fresh throughout exactly when it takes no losing step. */
  lemma FreshnessIsExact(env: Env, states: seq<Sys>, actions: seq<Action>)
    requires IsRun(env, states, actions)
    ensures (forall i :: 0 <= i < |states| ==> AllFresh(states[i]))
       <==> (forall k :: 0 <= k < |actions| ==> !Loses(states[k], actions[k]))
  {
    if forall k :: 0 <= k < |actions| ==> !Loses(states[k], actions[k]) {
      forall i | 0 <= i < |states|
        ensures AllFresh(states[i])
      {
        NoLosingStepSoFar(env, states, actions, i);
      }
    }
    if forall i :: 0 <= i < |states| ==> AllFresh(states[i]) {
      forall k | 0 <= k < |actions|
        ensures !Loses(states[k], actions[k])
      {
        RunInv(env, states, actions, k);
        RunVersions(env, states, actions, k);
        assert StepAt(env, states, actions, k);
        StepFreshness(env, states[k], actions[k]);
        assert AllFresh(states[k + 1]);
      }
    }
  }

  /* ---------- the conditional theorem ---------- */

  ghost predicate Refetches(s: Sys, t: TaskId) {
    t in s.tasks && s.tasks[t].pc.InFlight()
  }

  /** No two refetches of one connection are in flight at once. */
  ghost predicate NoOverlap(s: Sys) {
    forall t, u :: Refetches(s, t) && Refetches(s, u) && s.tasks[t].pc.conn == s.tasks[u].pc.conn ==> t == u
  }

  ghost predicate CancelsRefetch(s: Sys, a: Action) {
    a.Cancel? && Refetches(s, a.t)
  }

  ghost predicate Overtaken(s: Sys, t: TaskId)
    requires Refetches(s, t)
  {
    var pc := s.tasks[t].pc;
    pc.conn in s.conns && pc.base < s.conns[pc.conn].notified ==> s.conns[pc.conn].dirty
  }

  /** A refetch overtaken by a notification leaves the flag set behind it. */
  ghost predicate OvertakenIsDirty(s: Sys) {
    forall t :: Refetches(s, t) ==> Overtaken(s, t)
  }

  /** A task step that clears no flag, or clears it while starting the only refetch. */
  lemma TaskStepKeepsOvertaken(s: Sys, s': Sys, t: TaskId)
    requires Inv(s) && VersionInv(s) && OvertakenIsDirty(s) && NoOverlap(s') && StepOf(s, s', t)
    requires Refetches(s', t) ==> Overtaken(s', t)
    requires forall c :: c in s.conns && s.conns[c].dirty && !s'.conns[c].dirty ==>
               Refetches(s', t) && s'.tasks[t].pc.conn == c
    ensures OvertakenIsDirty(s')
  {
    forall u | Refetches(s', u) && u != t
      ensures Overtaken(s', u)
    {
      assert Refetches(s, u) && Overtaken(s, u) && VersionTask(s, u);
    }
  }

  lemma EnvironmentKeepsOvertaken(env: Env, s: Sys, a: Action)
    requires OvertakenIsDirty(s) && (a.Request? || a.Change? || a.Notify?) && Enabled(env, s, a)
    ensures OvertakenIsDirty(Next(env, s, a))
  {
    var s' := Next(env, s, a);
    forall t | Refetches(s', t)
      ensures Overtaken(s', t)
    {
      assert Refetches(s, t) && Overtaken(s, t);
    }
  }

  lemma RunKeepsOvertaken(env: Env, s: Sys, t: TaskId)
    requires Inv(s) && VersionInv(s) && OvertakenIsDirty(s) && HasTask(s, t) && CanRun(s, s.tasks[t])
    requires NoOverlap(RunTask(env, s, t))
    ensures OvertakenIsDirty(RunTask(env, s, t))
  {
    RunKeepsVersions(env, s, t);
    if FlagStep(s.tasks[t].pc) {
      FlagRunKeepsOvertaken(env, s, t);
    } else {
      PlainRun(env, s, t);
      TaskStepKeepsOvertaken(s, RunTask(env, s, t), t);
    }
  }

  lemma FlagRunKeepsOvertaken(env: Env, s: Sys, t: TaskId)
    requires Inv(s) && VersionInv(s) && OvertakenIsDirty(s) && HasTask(s, t) && FlagStep(s.tasks[t].pc)
    requires NoOverlap(RunTask(env, s, t)) && StepOf(s, RunTask(env, s, t), t)
    ensures OvertakenIsDirty(RunTask(env, s, t))
  {
    TaskStepKeepsOvertaken(s, RunTask(env, s, t), t);
  }

  lemma AnswerKeepsOvertaken(s: Sys, t: TaskId)
    requires Inv(s) && VersionInv(s) && OvertakenIsDirty(s) && HasTask(s, t) && (s.tasks[t].pc.Connecting? || s.tasks[t].pc.Refetching?)
    requires NoOverlap(AnswerTask(s, t))
    ensures OvertakenIsDirty(AnswerTask(s, t))
  {
    AnswerKeepsVersions(s, t);
    assert Refetches(s, t) ==> Overtaken(s, t);
    TaskStepKeepsOvertaken(s, AnswerTask(s, t), t);
  }

  lemma ReceiveKeepsOvertaken(s: Sys, t: TaskId)
    requires Inv(s) && VersionInv(s) && OvertakenIsDirty(s) && HasTask(s, t)
    requires s.tasks[t].pc.Calling? || ((s.tasks[t].pc.Connecting? || s.tasks[t].pc.Refetching?) && s.tasks[t].pc.answer.Some?)
    requires NoOverlap(ReceiveTask(s, t))
    ensures OvertakenIsDirty(ReceiveTask(s, t))
  {
    ReceiveKeepsVersions(s, t);
    assert Refetches(s, t) ==> Overtaken(s, t);
    ReceiveKeepsFlags(s, t);
    TaskStepKeepsOvertaken(s, ReceiveTask(s, t), t);
  }

  lemma ReceiveKeepsFlags(s: Sys, t: TaskId)
    requires HasTask(s, t)
    requires s.tasks[t].pc.Calling? || ((s.tasks[t].pc.Connecting? || s.tasks[t].pc.Refetching?) && s.tasks[t].pc.answer.Some?)
    ensures var s' := ReceiveTask(s, t);
            && t in s'.tasks && s'.conns.Keys == s.conns.Keys
            && (forall c :: c in s.conns ==> s'.conns[c].dirty == s.conns[c].dirty && s'.conns[c].notified == s.conns[c].notified)
            && (Refetches(s', t) ==> s.tasks[t].pc.Refetching? && s'.tasks[t].pc.conn == s.tasks[t].pc.conn
                                     && s'.tasks[t].pc.base == s.tasks[t].pc.base)
  {
  }

  lemma FailKeepsOvertaken(s: Sys, t: TaskId)
    requires Inv(s) && VersionInv(s) && OvertakenIsDirty(s) && HasTask(s, t) && NoOverlap(FailTask(s, t))
    ensures OvertakenIsDirty(FailTask(s, t))
  {
    FailKeepsVersions(s, t);
    TaskStepKeepsOvertaken(s, FailTask(s, t), t);
  }

  lemma AbandonKeepsOvertaken(s: Sys, t: TaskId)
    requires Inv(s) && VersionInv(s) && OvertakenIsDirty(s) && HasTask(s, t) && NoOverlap(Abandon(s, t))
    ensures OvertakenIsDirty(Abandon(s, t))
  {
    AbandonKeepsVersions(s, t);
    TaskStepKeepsOvertaken(s, Abandon(s, t), t);
  }

  lemma StepKeepsOvertaken(env: Env, s: Sys, a: Action)
    requires Inv(s) && VersionInv(s) && OvertakenIsDirty(s) && Enabled(env, s, a)
    requires NoOverlap(Next(env, s, a))
    ensures OvertakenIsDirty(Next(env, s, a))
  {
    match a
    case Run(t) => RunKeepsOvertaken(env, s, t);
    case Request(_, _) => EnvironmentKeepsOvertaken(env, s, a);
    case Change(_, _) => EnvironmentKeepsOvertaken(env, s, a);
    case Notify(_, _) => EnvironmentKeepsOvertaken(env, s, a);
    case Connect(t, _, _) =>
      ConnectKeepsVersions(env, s, a);
      TaskStepKeepsOvertaken(s, Next(env, s, a), t);
    case Answer(t) => AnswerKeepsOvertaken(s, t);
    case Receive(t) => ReceiveKeepsOvertaken(s, t);
    case Fail(t) => FailKeepsOvertaken(s, t);
    case Cancel(t) => AbandonKeepsOvertaken(s, t);
  }

  lemma {:induction false} CarefulStepsNeverLose(env: Env, states: seq<Sys>, actions: seq<Action>, i: nat)
    requires IsRun(env, states, actions) && i < |states|
    requires forall k :: 0 <= k <= i ==> NoOverlap(states[k])
    ensures OvertakenIsDirty(states[i])
    decreases i
  {
    if i > 0 {
      CarefulStepsNeverLose(env, states, actions, i - 1);
      RunInv(env, states, actions, i - 1);
      RunVersions(env, states, actions, i - 1);
      assert StepAt(env, states, actions, i - 1);
      StepKeepsOvertaken(env, states[i - 1], actions[i - 1]);
    }
  }

  /**
   As long as refetches of one server have never overlapped and no call has been cancelled
   while refetching, every entry is fresh.
   */
  lemma CarefulRunsAreFresh(env: Env, states: seq<Sys>, actions: seq<Action>, i: nat)
    requires IsRun(env, states, actions) && i < |states|
    requires forall k :: 0 <= k <= i ==> NoOverlap(states[k])
    requires forall k :: 0 <= k < i ==> !CancelsRefetch(states[k], actions[k])
    ensures AllFresh(states[i])
  {
    forall k | 0 <= k < i
      ensures !Loses(states[k], actions[k])
    {
      CarefulStepsNeverLose(env, states, actions, k);
      RunVersions(env, states, actions, k);
      if actions[k].Run? && Refetches(states[k], actions[k].t) {
        assert VersionTask(states[k], actions[k].t) && Overtaken(states[k], actions[k].t);
      }
    }
    NoLosingStepSoFar(env, states, actions, i);
  }

  /**
   What a request reads once `ensure_fresh` has returned: in a careful run the inventory is at
   least as new as the last notification, unless the flag is set again or another task is still
   bringing the entry up to date.
   */
  lemma ReadsAreCurrent(env: Env, states: seq<Sys>, actions: seq<Action>, i: nat, e: Event)
    requires IsRun(env, states, actions) && i < |actions|
    requires forall k :: 0 <= k <= i ==> NoOverlap(states[k])
    requires forall k :: 0 <= k < i ==> !CancelsRefetch(states[k], actions[k])
    requires e.Read? && e in Added(states[i], states[i + 1])
    ensures e.conn in states[i].conns
    ensures var conn := states[i].conns[e.conn];
            || e.seen.version >= conn.notified
            || conn.dirty
            || exists u :: actions[i] != Run(u) && Pending(states[i], u, e.conn)
  {
    CarefulRunsAreFresh(env, states, actions, i);
    ReadsSeeCache(env, states, actions, i, e);
    assert Fresh(states[i], e.conn);
  }

  /* ---------- how staleness ends ---------- */

  /** The entry `c` is unmarked and behind its last notification, and no task refetches it, installs for it or will mark it. */
  ghost predicate Stuck(s: Sys, c: ConnId) {
    && c in s.conns && Installed(s, c) && !s.conns[c].dirty && !UpToDate(s, c)
    && forall t :: t in s.tasks ==> !WorksOn(s.tasks[t].pc, c)
  }

  predicate WorksOn(pc: Pc, c: ConnId) {
    (pc.InFlight() || pc.Restoring?) && pc.conn == c
  }

  /** A step after which `c` has the same flag, cache and last notification, and no task newly works on it. */
  lemma StuckCarries(s: Sys, s': Sys, c: ConnId)
    requires Stuck(s, c) && c in s'.conns && Installed(s', c)
    requires s'.conns[c].dirty == s.conns[c].dirty && s'.conns[c].cached == s.conns[c].cached
    requires s'.conns[c].notified == s.conns[c].notified
    requires forall t :: t in s'.tasks && WorksOn(s'.tasks[t].pc, c) ==> t in s.tasks && WorksOn(s.tasks[t].pc, c)
    ensures Stuck(s', c)
  {
  }

  lemma FlagRunStaysStuck(env: Env, s: Sys, t: TaskId, c: ConnId)
    requires Inv(s) && HasTask(s, t) && FlagStep(s.tasks[t].pc) && Stuck(s, c)
    ensures Stuck(RunTask(env, s, t), c)
  {
    StuckCarries(s, RunTask(env, s, t), c);
  }

  lemma RunStaysStuck(env: Env, s: Sys, t: TaskId, c: ConnId)
    requires Inv(s) && HasTask(s, t) && CanRun(s, s.tasks[t]) && Stuck(s, c)
    ensures Stuck(RunTask(env, s, t), c)
  {
    if FlagStep(s.tasks[t].pc) {
      FlagRunStaysStuck(env, s, t, c);
    } else {
      PlainRun(env, s, t);
      StepGrowsEntries(env, s, Run(t));
      StuckCarries(s, RunTask(env, s, t), c);
    }
  }

  lemma OpenStaysStuck(s: Sys, t: TaskId, d: ConnId, offered: set<string>, c: ConnId)
    requires Inv(s) && t in s.tasks && s.tasks[t].pc.Resolving? && d !in s.conns && Stuck(s, c)
    ensures Stuck(OpenConn(s, t, d, offered), c)
  {
    StuckCarries(s, OpenConn(s, t, d, offered), c);
  }

  lemma AnswerStaysStuck(s: Sys, t: TaskId, c: ConnId)
    requires Inv(s) && HasTask(s, t) && (s.tasks[t].pc.Connecting? || s.tasks[t].pc.Refetching?) && Stuck(s, c)
    ensures Stuck(AnswerTask(s, t), c)
  {
    StuckCarries(s, AnswerTask(s, t), c);
  }

  lemma ReceiveStaysStuck(s: Sys, t: TaskId, c: ConnId)
    requires Inv(s) && HasTask(s, t) && Stuck(s, c)
    requires s.tasks[t].pc.Calling? || ((s.tasks[t].pc.Connecting? || s.tasks[t].pc.Refetching?) && s.tasks[t].pc.answer.Some?)
    ensures Stuck(ReceiveTask(s, t), c)
  {
    assert TaskInv(s, t);
    StuckCarries(s, ReceiveTask(s, t), c);
  }

  lemma AbandonStaysStuck(s: Sys, t: TaskId, c: ConnId)
    requires Inv(s) && HasTask(s, t) && Stuck(s, c)
    ensures Stuck(Abandon(s, t), c)
  {
    assert TaskInv(s, t);
    StuckCarries(s, Abandon(s, t), c);
  }

  lemma FailStaysStuck(s: Sys, t: TaskId, c: ConnId)
    requires Inv(s) && HasTask(s, t) && Stuck(s, c)
    ensures Stuck(FailTask(s, t), c)
  {
    if s.tasks[t].pc.Refetching? {
      StuckCarries(s, FailTask(s, t), c);
    } else {
      AbandonStaysStuck(s, t, c);
    }
  }

  lemma EnvironmentStaysStuck(env: Env, s: Sys, a: Action, c: ConnId)
    requires Stuck(s, c) && Enabled(env, s, a) && (a.Request? || a.Change? || (a.Notify? && a.conn != c))
    ensures Stuck(Next(env, s, a), c)
  {
    StuckCarries(s, Next(env, s, a), c);
  }

  lemma StepStaysStuck(env: Env, s: Sys, a: Action, c: ConnId)
    requires Inv(s) && Stuck(s, c) && Enabled(env, s, a) && !(a.Notify? && a.conn == c)
    ensures Stuck(Next(env, s, a), c)
  {
    match a
    case Run(t) => RunStaysStuck(env, s, t, c);
    case Connect(t, d, offered) => OpenStaysStuck(s, t, d, offered, c);
    case Answer(t) => AnswerStaysStuck(s, t, c);
    case Receive(t) => ReceiveStaysStuck(s, t, c);
    case Fail(t) => FailStaysStuck(s, t, c);
    case Cancel(t) => AbandonStaysStuck(s, t, c);
    case _ => EnvironmentStaysStuck(env, s, a, c);
  }

  /** Nothing a request does ends staleness: a stuck entry stays stuck until its connection is notified again. */
  lemma {:induction false} StuckUntilNotified(env: Env, states: seq<Sys>, actions: seq<Action>, i: nat, j: nat, c: ConnId)
    requires IsRun(env, states, actions) && i <= j < |states| && Stuck(states[i], c)
    requires forall k :: i <= k < j ==> !(actions[k].Notify? && actions[k].conn == c)
    ensures Stuck(states[j], c)
    decreases j
  {
    if i < j {
      StuckUntilNotified(env, states, actions, i, j - 1, c);
      RunInv(env, states, actions, j - 1);
      assert StepAt(env, states, actions, j - 1);
      StepStaysStuck(env, states[j - 1], actions[j - 1], c);
    }
  }

  /** Until then every request for it reads an inventory older than the last notification. */
  lemma StuckReadsAreBehind(env: Env, states: seq<Sys>, actions: seq<Action>, i: nat, j: nat, e: Event)
    requires IsRun(env, states, actions) && i <= j < |actions|
    requires (e.Read? || e.Forwarded?) && e in Added(states[j], states[j + 1]) && Stuck(states[i], e.conn)
    requires forall k :: i <= k < j ==> !(actions[k].Notify? && actions[k].conn == e.conn)
    ensures e.conn in states[j].conns && e.seen.version < states[j].conns[e.conn].notified
  {
    StuckUntilNotified(env, states, actions, i, j, e.conn);
    ReadsSeeCache(env, states, actions, j, e);
  }
}
