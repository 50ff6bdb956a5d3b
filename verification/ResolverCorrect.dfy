/**
 What the resolver computes: its answers are the meet of everything reachable, and
 each of its errors has the cause it names.
 */
module ResolverCorrect {
  import opened Wrappers
  import opened Config
  import opened Inheritance
  import opened Resolver

  /* ---------- the colour invariant ---------- */

  ghost predicate IsVisiting(memo: Memo, n: string) {
    n in memo.states && memo.states[n].Visiting?
  }

  ghost predicate IsDone(memo: Memo, n: string) {
    n in memo.states && memo.states[n].Done?
  }

  ghost function DoneSet(memo: Memo): set<string> {
    set n | n in memo.states && memo.states[n].Done?
  }

  /** A finished namespace holds its meet, has finished parents and lies on no cycle. */
  ghost predicate Settled(c: Toml, memo: Memo, n: string) {
    && n in c.namespaces
    && n in memo.resolved
    && memo.resolved[n] == MeetOf(c, ReachSet(c, n))
    && !OnCycle(c, n)
    && forall p :: p in c.namespaces[n].parents ==> IsDone(memo, p)
  }

  /** `stack` is the chain of calls still open, root first. */
  ghost predicate Inv(c: Toml, memo: Memo, stack: seq<string>) {
    && (forall n :: IsVisiting(memo, n) <==> n in stack)
    && (forall n :: IsDone(memo, n) ==> Settled(c, memo, n))
    && (forall n :: n in memo.resolved ==> IsDone(memo, n))
  }

  lemma {:induction false} DoneAlongWalk(c: Toml, memo: Memo, stack: seq<string>, w: seq<string>)
    requires Inv(c, memo, stack) && Walk(c, w) && IsDone(memo, w[0])
    ensures IsDone(memo, w[|w| - 1])
    decreases |w|
  {
    if |w| > 1 {
      assert Edge(c, w[0], w[1]);
      assert Settled(c, memo, w[0]);
      SubWalk(c, w, 1, |w|);
      DoneAlongWalk(c, memo, stack, w[1..]);
    }
  }

  /** Everything reachable from a finished namespace is finished. */
  lemma DoneIsClosed(c: Toml, memo: Memo, stack: seq<string>, n: string, m: string)
    requires Inv(c, memo, stack) && IsDone(memo, n) && Reaches(c, n, m)
    ensures IsDone(memo, m)
  {
    var w :| WalkBetween(c, w, n, m);
    DoneAlongWalk(c, memo, stack, w);
  }

  /* ---------- errors and their causes ---------- */

  ghost predicate Explains(c: Toml, root: string, e: StartupError) {
    match e
    case UnknownNamespace(n) => n == root && root !in c.namespaces
    case UnknownNamespaceParent(child, p) => Reaches(c, root, child) && Edge(c, child, p) && p !in c.namespaces
    case NamespaceExtendsCycle(n) => Reaches(c, root, n) && OnCycle(c, n)
    case NamespaceInheritanceTooDeep(n, d) =>
      d == MAX_DEPTH && exists w :: WalkBetween(c, w, root, n) && |w| == MAX_DEPTH + 2
    case _ => false
  }

  /** The call about to be made: `w` is the walk of open calls down to `name`. */
  ghost predicate CallSite(c: Toml, root: string, w: seq<string>, child: Option<string>, depth: nat) {
    && Walk(c, w)
    && w[0] == root
    && |w| == depth + 1 <= MAX_DEPTH + 2
    && child == (if depth == 0 then None else Some(w[|w| - 2]))
  }

  ghost predicate Sound(c: Toml, root: string, reached: set<string>, stack: seq<string>, before: Memo, o: Outcome) {
    match o.result
    case Ok(acl) =>
      && acl == MeetOf(c, reached)
      && Inv(c, o.memo, stack)
      && DoneSet(o.memo) == DoneSet(before) + reached
    case Err(e) => Explains(c, root, e)
  }

  lemma CycleFound(c: Toml, root: string, w: seq<string>, child: Option<string>, depth: nat, name: string)
    requires CallSite(c, root, w, child, depth) && name == w[|w| - 1] && name in w[..|w| - 1]
    ensures Reaches(c, root, name) && OnCycle(c, name)
  {
    var i :| 0 <= i < |w| - 1 && w[i] == name;
    SubWalk(c, w, 0, |w|);
    SubWalk(c, w, i + 1, |w|);
    assert Edge(c, w[i], w[i + 1]);
  }

  lemma {:induction false} VisitSound(c: Toml, root: string, w: seq<string>, name: string, child: Option<string>, depth: nat, memo: Memo)
    requires CallSite(c, root, w, child, depth) && name == w[|w| - 1]
    requires Inv(c, memo, w[..|w| - 1])
    ensures Sound(c, root, ReachSet(c, name), w[..|w| - 1], memo, Visit(c, name, child, depth, memo))
    ensures var o := Visit(c, name, child, depth, memo); o.result.Ok? ==> IsDone(o.memo, name)
    decreases DepthLeft(depth), 1, 0
  {
    var stack := w[..|w| - 1];
    if depth > MAX_DEPTH {
    } else if IsVisiting(memo, name) {
      CycleFound(c, root, w, child, depth, name);
    } else if name in memo.states {
      DoneSound(c, root, stack, name, child, depth, memo);
    } else if name !in c.namespaces {
      if depth > 0 {
        SubWalk(c, w, 0, |w| - 1);
        assert Edge(c, w[|w| - 2], w[|w| - 1]);
      }
    } else {
      var begun := Begin(name, depth, memo);
      assert w == stack + [name];
      BeginKeepsInv(c, memo, stack, name, depth);
      assert ReachAll(c, c.namespaces[name].parents[..0]) == {};
      MeetOfNone(c);
      VisitParentsSound(c, root, w, name, 0, depth, EMPTY_ACL, begun, DoneSet(memo));
      var inner := VisitParents(c, name, 0, depth, EMPTY_ACL, begun);
      if inner.result.Ok? {
        FinishSound(c, root, stack, w, name, memo, inner);
      }
    }
  }

  lemma DoneSound(c: Toml, root: string, stack: seq<string>, name: string, child: Option<string>, depth: nat, memo: Memo)
    requires depth <= MAX_DEPTH && Inv(c, memo, stack) && IsDone(memo, name)
    ensures Sound(c, root, ReachSet(c, name), stack, memo, Visit(c, name, child, depth, memo))
    ensures IsDone(Visit(c, name, child, depth, memo).memo, name)
  {
    assert Settled(c, memo, name);
    forall m | m in ReachSet(c, name)
      ensures m in DoneSet(memo)
    {
      DoneIsClosed(c, memo, stack, name, m);
    }
    var refused := memo.Logged(Call(name, depth, false));
    assert DoneSet(refused) == DoneSet(memo) + ReachSet(c, name);
    LoggingKeepsInv(c, memo, stack, Call(name, depth, false));
  }

  lemma LoggingKeepsInv(c: Toml, memo: Memo, stack: seq<string>, call: Call)
    requires Inv(c, memo, stack)
    ensures Inv(c, memo.Logged(call), stack)
  {
    var logged := memo.Logged(call);
    forall n | IsDone(logged, n)
      ensures Settled(c, logged, n)
    {
      assert IsDone(memo, n) && Settled(c, memo, n);
      assert forall p :: IsDone(logged, p) <==> IsDone(memo, p);
    }
    assert forall n :: IsVisiting(logged, n) <==> IsVisiting(memo, n);
  }

  lemma BeginKeepsInv(c: Toml, memo: Memo, stack: seq<string>, name: string, depth: nat)
    requires Inv(c, memo, stack) && name !in memo.states
    ensures Inv(c, Begin(name, depth, memo), stack + [name])
    ensures DoneSet(Begin(name, depth, memo)) == DoneSet(memo)
  {
    var begun := Begin(name, depth, memo);
    assert forall n :: IsDone(begun, n) <==> IsDone(memo, n);
    forall n | IsDone(begun, n)
      ensures Settled(c, begun, n)
    {
      assert Settled(c, memo, n);
    }
    forall n
      ensures IsVisiting(begun, n) <==> n in stack + [name]
    {
      assert n != name ==> (IsVisiting(begun, n) <==> IsVisiting(memo, n));
    }
  }

  lemma FinishSound(c: Toml, root: string, stack: seq<string>, w: seq<string>, name: string, before: Memo, inner: Outcome)
    requires name in c.namespaces && w == stack + [name] && name !in stack
    requires inner.result.Ok? && inner.result.value == MeetOf(c, ReachAll(c, c.namespaces[name].parents))
    requires Inv(c, inner.memo, w)
    requires forall p :: p in c.namespaces[name].parents ==> IsDone(inner.memo, p)
    requires DoneSet(inner.memo) == DoneSet(before) + ReachAll(c, c.namespaces[name].parents)
    ensures Sound(c, root, ReachSet(c, name), stack, before, Finish(c, name, inner.result.value, inner.memo))
  {
    var parents := c.namespaces[name].parents;
    ReachUnfold(c, name);
    MeetOfUnion(c, ReachAll(c, parents), {name});
    MeetOfOne(c, name);
    assert ReachSet(c, name) == ReachAll(c, parents) + {name};
    NoCycleThrough(c, inner.memo, w, name);
    FinishKeepsInv(c, stack, name, inner.result.value, inner.memo);
  }

  /** With all its parents finished, an open namespace lies on no cycle. */
  lemma NoCycleThrough(c: Toml, memo: Memo, w: seq<string>, name: string)
    requires Inv(c, memo, w) && name in w && name in c.namespaces
    requires forall p :: p in c.namespaces[name].parents ==> IsDone(memo, p)
    ensures !OnCycle(c, name)
  {
    assert IsVisiting(memo, name);
    if OnCycle(c, name) {
      var p :| Edge(c, name, p) && Reaches(c, p, name);
      DoneIsClosed(c, memo, w, p, name);
      assert false;
    }
  }

  lemma FinishKeepsInv(c: Toml, stack: seq<string>, name: string, inherited: Acl, memo: Memo)
    requires name in c.namespaces && name !in stack && Inv(c, memo, stack + [name])
    requires Merge(inherited, Own(c, name)) == MeetOf(c, ReachSet(c, name)) && !OnCycle(c, name)
    requires forall p :: p in c.namespaces[name].parents ==> IsDone(memo, p)
    ensures Inv(c, Finish(c, name, inherited, memo).memo, stack)
    ensures DoneSet(Finish(c, name, inherited, memo).memo) == DoneSet(memo) + {name}
  {
    var after := Finish(c, name, inherited, memo).memo;
    FinishColours(c, stack, name, memo, after);
    forall n | IsDone(after, n)
      ensures Settled(c, after, n)
    {
      if n != name {
        StaysSettled(c, memo, after, stack, name, n);
      }
    }
  }

  lemma FinishColours(c: Toml, stack: seq<string>, name: string, memo: Memo, after: Memo)
    requires Inv(c, memo, stack + [name]) && name !in stack && after.states == memo.states[name := Done]
    ensures forall n :: IsDone(after, n) <==> IsDone(memo, n) || n == name
    ensures forall n :: IsVisiting(after, n) <==> n in stack
  {
    forall n
      ensures IsVisiting(after, n) <==> n in stack
    {
      assert IsVisiting(memo, n) <==> n in stack + [name];
    }
  }

  lemma StaysSettled(c: Toml, memo: Memo, after: Memo, stack: seq<string>, name: string, n: string)
    requires Inv(c, memo, stack + [name]) && IsDone(memo, n) && n != name
    requires n in after.resolved && after.resolved[n] == memo.resolved[n]
    requires forall p :: IsDone(memo, p) ==> IsDone(after, p)
    ensures Settled(c, after, n)
  {
    assert Settled(c, memo, n);
  }

  ghost predicate FirstDone(c: Toml, child: string, i: nat, memo: Memo)
    requires child in c.namespaces && i <= |c.namespaces[child].parents|
  {
    forall j :: 0 <= j < i ==> IsDone(memo, c.namespaces[child].parents[j])
  }

  lemma DoneGrows(c: Toml, child: string, i: nat, before: Memo, after: Memo, added: set<string>)
    requires child in c.namespaces && i < |c.namespaces[child].parents|
    requires FirstDone(c, child, i, before) && IsDone(after, c.namespaces[child].parents[i])
    requires DoneSet(after) == DoneSet(before) + added
    ensures FirstDone(c, child, i + 1, after)
  {
    var parents := c.namespaces[child].parents;
    forall j | 0 <= j < i + 1
      ensures IsDone(after, parents[j])
    {
      if j < i {
        assert parents[j] in DoneSet(before);
        assert parents[j] in DoneSet(after);
      }
    }
  }

  lemma ExtendWalk(c: Toml, w: seq<string>, p: string)
    requires Walk(c, w) && Edge(c, w[|w| - 1], p)
    ensures Walk(c, w + [p])
  {
  }

  ghost predicate ParentsSound(c: Toml, root: string, child: string, w: seq<string>, settled: set<string>, o: Outcome)
    requires child in c.namespaces
  {
    var parents := c.namespaces[child].parents;
    match o.result
    case Ok(acl) =>
      && acl == MeetOf(c, ReachAll(c, parents))
      && Inv(c, o.memo, w)
      && DoneSet(o.memo) == settled + ReachAll(c, parents)
      && FirstDone(c, child, |parents|, o.memo)
    case Err(e) => Explains(c, root, e)
  }

  lemma ParentAdded(c: Toml, child: string, i: nat, acc: Acl, memo: Memo, visited: Outcome, settled: set<string>)
    requires child in c.namespaces && i < |c.namespaces[child].parents|
    requires acc == MeetOf(c, ReachAll(c, c.namespaces[child].parents[..i]))
    requires DoneSet(memo) == settled + ReachAll(c, c.namespaces[child].parents[..i])
    requires FirstDone(c, child, i, memo)
    requires visited.result == Ok(MeetOf(c, ReachSet(c, c.namespaces[child].parents[i])))
    requires DoneSet(visited.memo) == DoneSet(memo) + ReachSet(c, c.namespaces[child].parents[i])
    requires IsDone(visited.memo, c.namespaces[child].parents[i])
    ensures Merge(acc, visited.result.value) == MeetOf(c, ReachAll(c, c.namespaces[child].parents[..i + 1]))
    ensures DoneSet(visited.memo) == settled + ReachAll(c, c.namespaces[child].parents[..i + 1])
    ensures FirstDone(c, child, i + 1, visited.memo)
  {
    var parents := c.namespaces[child].parents;
    var p := parents[i];
    ReachAllSnoc(c, parents, i);
    MeetOfUnion(c, ReachAll(c, parents[..i]), ReachSet(c, p));
    DoneGrows(c, child, i, memo, visited.memo, ReachSet(c, p));
  }

  lemma {:induction false} VisitParentsSound(
    c: Toml, root: string, w: seq<string>, child: string, i: nat, depth: nat, acc: Acl, memo: Memo, settled: set<string>)
    requires child in c.namespaces && i <= |c.namespaces[child].parents| && depth <= MAX_DEPTH
    requires WalkBetween(c, w, root, child) && |w| == depth + 1
    requires Inv(c, memo, w) && FirstDone(c, child, i, memo)
    requires acc == MeetOf(c, ReachAll(c, c.namespaces[child].parents[..i]))
    requires DoneSet(memo) == settled + ReachAll(c, c.namespaces[child].parents[..i])
    ensures ParentsSound(c, root, child, w, settled, VisitParents(c, child, i, depth, acc, memo))
    decreases DepthLeft(depth), 0, |c.namespaces[child].parents| - i
  {
    var parents := c.namespaces[child].parents;
    if i == |parents| {
      assert parents[..i] == parents;
    } else {
      var p := parents[i];
      ExtendWalk(c, w, p);
      assert (w + [p])[..|w|] == w;
      VisitSound(c, root, w + [p], p, Some(child), depth + 1, memo);
      var visited := Visit(c, p, Some(child), depth + 1, memo);
      if visited.result.Ok? {
        ParentAdded(c, child, i, acc, memo, visited, settled);
        VisitParentsSound(c, root, w, child, i + 1, depth, Merge(acc, visited.result.value), visited.memo, settled);
      }
    }
  }

  lemma ReachAllSnoc(c: Toml, parents: seq<string>, i: nat)
    requires i < |parents|
    ensures ReachAll(c, parents[..i + 1]) == ReachAll(c, parents[..i]) + ReachSet(c, parents[i])
  {
  }

  /* ---------- the theorems about a whole resolve ---------- */

  lemma RootCall(c: Toml, name: string)
    ensures Sound(c, name, ReachSet(c, name), [], EMPTY_MEMO, Visit(c, name, None, 0, EMPTY_MEMO))
    ensures var o := Visit(c, name, None, 0, EMPTY_MEMO); o.result.Ok? ==> IsDone(o.memo, name)
  {
    assert WalkBetween(c, [name], name, name);
    assert [name][..0] == [];
    VisitSound(c, name, [name], name, None, 0, EMPTY_MEMO);
  }

  /** A successful resolve is the meet of everything reachable, whatever the graph's sharing. */
  lemma ResolveIsMeet(c: Toml, name: string)
    requires Resolve(c, name).Ok?
    ensures Resolve(c, name).value == MeetOf(c, ReachSet(c, name))
  {
    RootCall(c, name);
  }

  /** The same said per server and per tool. */
  lemma ResolveDenotes(c: Toml, name: string)
    requires Resolve(c, name).Ok?
    ensures forall s :: s in Resolve(c, name).value.servers <==>
                        exists m :: m in ReachSet(c, name) && s in c.namespaces[m].servers
    ensures forall s :: s in Resolve(c, name).value.tools <==>
                        exists m :: m in ReachSet(c, name) && HasFilter(c, m, s)
    ensures forall s, t :: s in Resolve(c, name).value.tools ==>
              (t in Resolve(c, name).value.tools[s] <==>
               forall m :: m in ReachSet(c, name) && HasFilter(c, m, s) ==> Lists(c, m, s, t))
  {
    ResolveIsMeet(c, name);
    var acl := MeetOf(c, ReachSet(c, name));
    forall s
      ensures s in acl.tools <==> exists m :: m in ReachSet(c, name) && HasFilter(c, m, s)
    {
      if m :| m in ReachSet(c, name) && HasFilter(c, m, s) {
        assert s in FilteredServers(c, ReachSet(c, name));
      }
    }
    forall s, t | s in acl.tools
      ensures t in acl.tools[s] <==> forall m :: m in ReachSet(c, name) && HasFilter(c, m, s) ==> Lists(c, m, s, t)
    {
      var m :| m in ReachSet(c, name) && HasFilter(c, m, s);
      assert Lists(c, m, s, t) ==> t in c.namespaces[m].tools[s];
    }
  }

  /** Every error names a real cause. */
  lemma ErrorsAreExact(c: Toml, name: string)
    requires Resolve(c, name).Err?
    ensures Explains(c, name, Resolve(c, name).error)
  {
    RootCall(c, name);
  }

  /** The traversal somewhere meets a finished namespace the memo does not hold. */
  ghost predicate FallsBack(c: Toml, name: string, depth: nat, memo: Memo)
    decreases DepthLeft(depth), 1, 0
  {
    if depth > MAX_DEPTH then false
    else if name in memo.states then memo.states[name].Done? && name !in memo.resolved
    else name in c.namespaces && ParentsFallBack(c, name, 0, depth, EMPTY_ACL, Begin(name, depth, memo))
  }

  ghost predicate ParentsFallBack(c: Toml, child: string, i: nat, depth: nat, acc: Acl, memo: Memo)
    requires child in c.namespaces && i <= |c.namespaces[child].parents| && depth <= MAX_DEPTH
    decreases DepthLeft(depth), 0, |c.namespaces[child].parents| - i
  {
    var parents := c.namespaces[child].parents;
    i < |parents| &&
    var parent := Visit(c, parents[i], Some(child), depth + 1, memo);
    || FallsBack(c, parents[i], depth + 1, memo)
    || (parent.result.Ok? && ParentsFallBack(c, child, i + 1, depth, Merge(acc, parent.result.value), parent.memo))
  }

  lemma {:induction false} VisitNeverFallsBack(
    c: Toml, root: string, w: seq<string>, name: string, child: Option<string>, depth: nat, memo: Memo)
    requires CallSite(c, root, w, child, depth) && name == w[|w| - 1]
    requires Inv(c, memo, w[..|w| - 1])
    ensures !FallsBack(c, name, depth, memo)
    decreases DepthLeft(depth), 1, 0
  {
    if depth > MAX_DEPTH {
    } else if name in memo.states {
      assert IsDone(memo, name) ==> Settled(c, memo, name);
    } else if name in c.namespaces {
      assert w == w[..|w| - 1] + [name];
      BeginKeepsInv(c, memo, w[..|w| - 1], name, depth);
      ParentsNeverFallBack(c, root, w, name, 0, depth, EMPTY_ACL, Begin(name, depth, memo));
    }
  }

  lemma {:induction false} ParentsNeverFallBack(
    c: Toml, root: string, w: seq<string>, child: string, i: nat, depth: nat, acc: Acl, memo: Memo)
    requires child in c.namespaces && i <= |c.namespaces[child].parents| && depth <= MAX_DEPTH
    requires WalkBetween(c, w, root, child) && |w| == depth + 1
    requires Inv(c, memo, w)
    ensures !ParentsFallBack(c, child, i, depth, acc, memo)
    decreases DepthLeft(depth), 0, |c.namespaces[child].parents| - i
  {
    var parents := c.namespaces[child].parents;
    if i < |parents| {
      var p := parents[i];
      ExtendWalk(c, w, p);
      assert (w + [p])[..|w|] == w;
      VisitSound(c, root, w + [p], p, Some(child), depth + 1, memo);
      VisitNeverFallsBack(c, root, w + [p], p, Some(child), depth + 1, memo);
      var visited := Visit(c, p, Some(child), depth + 1, memo);
      if visited.result.Ok? {
        ParentsNeverFallBack(c, root, w, child, i + 1, depth, Merge(acc, visited.result.value), visited.memo);
      }
    }
  }

  /** No resolve of any configuration ever reaches the fallback for a finished namespace without a result. */
  lemma FallbackNeverFires(c: Toml, name: string)
    ensures !FallsBack(c, name, 0, EMPTY_MEMO)
  {
    assert WalkBetween(c, [name], name, name);
    assert [name][..0] == [];
    VisitNeverFallsBack(c, name, [name], name, None, 0, EMPTY_MEMO);
  }

  /** Success rules out unknown and cyclic namespaces anywhere above. */
  lemma OkIsClosedAndAcyclic(c: Toml, name: string)
    requires Resolve(c, name).Ok?
    ensures ReachableClosed(c, name) && ReachableAcyclic(c, name)
  {
    RootCall(c, name);
    var o := Visit(c, name, None, 0, EMPTY_MEMO);
    forall m | Reaches(c, name, m)
      ensures m in c.namespaces && !OnCycle(c, m)
    {
      DoneIsClosed(c, o.memo, [], name, m);
      assert Settled(c, o.memo, m);
    }
  }

  /** An acyclic, closed graph none of whose walks from `name` has more than 64 links resolves. */
  lemma ShallowGraphsResolve(c: Toml, name: string)
    requires ReachableClosed(c, name) && ReachableAcyclic(c, name)
    requires forall w :: Walk(c, w) && w[0] == name ==> |w| <= 65
    ensures Resolve(c, name).Ok?
  {
    ReachesSelf(c, name);
    assert forall n, w :: WalkBetween(c, w, name, n) ==> |w| <= MAX_DEPTH + 1;
    if Resolve(c, name).Err? {
      ErrorsAreExact(c, name);
      match Resolve(c, name).error
      case NamespaceInheritanceTooDeep(n, _) =>
        assert false;
      case UnknownNamespaceParent(child, p) =>
        ReachesEdge(c, child, p);
        ReachesTransitive(c, name, child, p);
        assert false;
      case _ =>
        assert false;
    }
  }

  /* ---------- least privilege ---------- */

  /** Inheriting never widens: a tool allowed below is allowed in every ancestor that has its server. */
  lemma LeastPrivilege(c: Toml, child: string, ancestor: string, server: string, tool: string)
    requires Resolve(c, child).Ok? && Resolve(c, ancestor).Ok? && Reaches(c, child, ancestor)
    requires Resolve(c, child).value.AllowsTool(server, tool)
    requires Resolve(c, ancestor).value.AllowsServer(server)
    ensures Resolve(c, ancestor).value.AllowsTool(server, tool)
  {
    ResolveIsMeet(c, child);
    ResolveIsMeet(c, ancestor);
    ReachSetMonotone(c, child, ancestor);
    MeetAllows(c, ReachSet(c, child), server, tool);
    MeetAllows(c, ReachSet(c, ancestor), server, tool);
  }

  /** Two configurations whose namespaces differ only in the order and repetition of `extends`. */
  ghost predicate SameUpToParentOrder(c: Toml, d: Toml) {
    && c.namespaces.Keys == d.namespaces.Keys
    && forall n :: n in c.namespaces ==>
      && ToSet(c.namespaces[n].parents) == ToSet(d.namespaces[n].parents)
      && c.namespaces[n].servers == d.namespaces[n].servers
      && c.namespaces[n].tools == d.namespaces[n].tools
  }

  lemma ReachesUpToParentOrder(c: Toml, d: Toml, a: string, b: string)
    requires SameUpToParentOrder(c, d) && Reaches(c, a, b)
    ensures Reaches(d, a, b)
  {
    var w :| WalkBetween(c, w, a, b);
    forall i | 0 <= i < |w| - 1
      ensures Edge(d, w[i], w[i + 1])
    {
      assert Edge(c, w[i], w[i + 1]);
      assert w[i + 1] in ToSet(c.namespaces[w[i]].parents);
    }
    assert WalkBetween(d, w, a, b);
  }

  lemma MeetUpToParentOrder(c: Toml, d: Toml, nodes: set<string>)
    requires SameUpToParentOrder(c, d)
    ensures MeetOf(c, nodes) == MeetOf(d, nodes)
  {
    assert forall m, s :: HasFilter(c, m, s) <==> HasFilter(d, m, s);
    assert forall m, s, t :: Lists(c, m, s, t) <==> Lists(d, m, s, t);
    assert MeetServers(c, nodes) == MeetServers(d, nodes);
    assert FilteredServers(c, nodes) == FilteredServers(d, nodes);
    forall s | s in FilteredServers(c, nodes)
      ensures CommonTools(c, nodes, s) == CommonTools(d, nodes, s)
    {
    }
  }

  /** Permuting or repeating `extends` never changes a resolved access list. */
  lemma ParentOrderIrrelevant(c: Toml, d: Toml, name: string)
    requires SameUpToParentOrder(c, d)
    requires Resolve(c, name).Ok? && Resolve(d, name).Ok?
    ensures Resolve(c, name) == Resolve(d, name)
  {
    ResolveIsMeet(c, name);
    ResolveIsMeet(d, name);
    forall m
      ensures m in ReachSet(c, name) <==> m in ReachSet(d, name)
    {
      if m in ReachSet(c, name) {
        ReachesUpToParentOrder(c, d, name, m);
      }
      if m in ReachSet(d, name) {
        ReachesUpToParentOrder(d, c, name, m);
      }
    }
    assert ReachSet(c, name) == ReachSet(d, name);
    MeetUpToParentOrder(c, d, ReachSet(c, name));
  }
}
