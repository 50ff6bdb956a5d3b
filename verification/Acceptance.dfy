/**
 Exactly which configurations resolve. The depth check comes before the memo lookup,
 so acceptance follows the walks the traversal itself takes, not the longest walk.
 */
module Acceptance {
  import opened Wrappers
  import opened Config
  import opened Inheritance
  import opened Resolver
  import opened ResolverCorrect

  /* ---------- walks by parent index ---------- */

  /** `steps[k]` is the position, in the k-th namespace's `extends` list, of the next one. */
  ghost predicate Steps(c: Toml, n: string, steps: seq<nat>)
    decreases |steps|
  {
    steps != [] ==>
      && n in c.namespaces
      && steps[0] < |c.namespaces[n].parents|
      && Steps(c, c.namespaces[n].parents[steps[0]], steps[1..])
  }

  ghost function End(c: Toml, n: string, steps: seq<nat>): string
    requires Steps(c, n, steps)
    decreases |steps|
  {
    if steps == [] then n else End(c, c.namespaces[n].parents[steps[0]], steps[1..])
  }

  /**
   The walk on which the traversal first meets its end: no parent listed before the
   one taken, at any step, reaches that end.
   */
  ghost predicate FirstWalk(c: Toml, n: string, steps: seq<nat>)
    requires Steps(c, n, steps)
    decreases |steps|
  {
    steps != [] ==>
      var parents := c.namespaces[n].parents;
      && (forall j :: 0 <= j < steps[0] ==> !Reaches(c, parents[j], End(c, n, steps)))
      && FirstWalk(c, parents[steps[0]], steps[1..])
  }

  ghost predicate Extends(c: Toml, n: string) {
    n in c.namespaces && c.namespaces[n].parents != []
  }

  /** `steps` is a first walk of `k` links to a namespace outside `settled` that itself extends something. */
  ghost predicate Overruns(c: Toml, n: string, k: nat, settled: set<string>, steps: seq<nat>) {
    && |steps| == k
    && Steps(c, n, steps)
    && FirstWalk(c, n, steps)
    && End(c, n, steps) !in settled
    && Extends(c, End(c, n, steps))
  }

  ghost predicate Blocked(c: Toml, n: string, k: nat, settled: set<string>) {
    exists steps :: Overruns(c, n, k, settled, steps)
  }

  ghost predicate BlockedFrom(c: Toml, n: string, i: nat, k: nat, settled: set<string>) {
    exists steps :: Overruns(c, n, k, settled, steps) && k > 0 && steps[0] >= i
  }

  lemma {:induction false} EndReached(c: Toml, n: string, steps: seq<nat>)
    requires Steps(c, n, steps)
    ensures Reaches(c, n, End(c, n, steps))
    decreases |steps|
  {
    if steps == [] {
      ReachesSelf(c, n);
    } else {
      var p := c.namespaces[n].parents[steps[0]];
      EndReached(c, p, steps[1..]);
      ReachesEdge(c, n, p);
      ReachesTransitive(c, n, p, End(c, p, steps[1..]));
    }
  }

  /* ---------- the traversal takes exactly the first walks ---------- */

  ghost predicate GoodGraph(c: Toml, root: string) {
    ReachableClosed(c, root) && ReachableAcyclic(c, root)
  }

  lemma {:induction false} VisitAccepts(c: Toml, root: string, w: seq<string>, name: string, child: Option<string>, depth: nat, memo: Memo)
    requires GoodGraph(c, root) && depth <= MAX_DEPTH
    requires CallSite(c, root, w, child, depth) && name == w[|w| - 1]
    requires Inv(c, memo, w[..|w| - 1])
    ensures Visit(c, name, child, depth, memo).result.Ok? <==> !Blocked(c, name, MAX_DEPTH - depth, DoneSet(memo))
    decreases DepthLeft(depth), 1, 0
  {
    var stack := w[..|w| - 1];
    SubWalk(c, w, 0, |w|);
    if IsVisiting(memo, name) {
      CycleFound(c, root, w, child, depth, name);
      assert false;
    } else if name in memo.states {
      assert IsDone(memo, name) && Settled(c, memo, name);
      var k, done := MAX_DEPTH - depth, DoneSet(memo);
      if steps :| Overruns(c, name, k, done, steps) {
        EndReached(c, name, steps);
        DoneIsClosed(c, memo, stack, name, End(c, name, steps));
        assert false;
      }
    } else {
      assert name in c.namespaces;
      assert w == stack + [name];
      BeginKeepsInv(c, memo, stack, name, depth);
      var begun := Begin(name, depth, memo);
      MeetOfNone(c);
      var parents := c.namespaces[name].parents;
      assert ReachAll(c, parents[..0]) == {};
      if depth == MAX_DEPTH {
        AtTheLimit(c, name, depth, memo);
      } else {
        ParentsAccept(c, root, w, name, 0, depth, EMPTY_ACL, begun, DoneSet(memo));
        BlockedSplits(c, name, MAX_DEPTH - depth, DoneSet(memo));
      }
    }
  }

  /** At depth 64 a fresh namespace is accepted exactly when it extends nothing. */
  lemma AtTheLimit(c: Toml, name: string, depth: nat, memo: Memo)
    requires depth == MAX_DEPTH && name !in memo.states && name in c.namespaces
    ensures VisitParents(c, name, 0, depth, EMPTY_ACL, Begin(name, depth, memo)).result.Ok?
            <==> !Blocked(c, name, 0, DoneSet(memo))
  {
    var none: seq<nat> := [];
    assert Steps(c, name, none) && End(c, name, none) == name && FirstWalk(c, name, none);
    if Extends(c, name) {
      assert Overruns(c, name, 0, DoneSet(memo), none);
      var p := c.namespaces[name].parents[0];
      assert Visit(c, p, Some(name), depth + 1, Begin(name, depth, memo)).result.Err?;
    }
  }

  lemma BlockedSplits(c: Toml, name: string, k: nat, settled: set<string>)
    requires k > 0
    ensures Blocked(c, name, k, settled) <==> BlockedFrom(c, name, 0, k, settled)
  {
  }

  lemma {:induction false} ParentsAccept(
    c: Toml, root: string, w: seq<string>, child: string, i: nat, depth: nat, acc: Acl, memo: Memo, settled: set<string>)
    requires GoodGraph(c, root) && depth < MAX_DEPTH
    requires child in c.namespaces && i <= |c.namespaces[child].parents|
    requires WalkBetween(c, w, root, child) && |w| == depth + 1
    requires Inv(c, memo, w) && FirstDone(c, child, i, memo)
    requires acc == MeetOf(c, ReachAll(c, c.namespaces[child].parents[..i]))
    requires DoneSet(memo) == settled + ReachAll(c, c.namespaces[child].parents[..i])
    ensures VisitParents(c, child, i, depth, acc, memo).result.Ok? <==> !BlockedFrom(c, child, i, MAX_DEPTH - depth, settled)
    decreases DepthLeft(depth), 0, |c.namespaces[child].parents| - i
  {
    var parents := c.namespaces[child].parents;
    var k := MAX_DEPTH - depth;
    if i < |parents| {
      var p := parents[i];
      ExtendWalk(c, w, p);
      assert (w + [p])[..|w|] == w;
      VisitSound(c, root, w + [p], p, Some(child), depth + 1, memo);
      VisitAccepts(c, root, w + [p], p, Some(child), depth + 1, memo);
      var visited := Visit(c, p, Some(child), depth + 1, memo);
      BlockedThroughParent(c, root, child, i, k, settled, DoneSet(memo));
      if visited.result.Ok? {
        ParentAdded(c, child, i, acc, memo, visited, settled);
        ParentsAccept(c, root, w, child, i + 1, depth, Merge(acc, visited.result.value), visited.memo, settled);
      }
    }
  }

  lemma ReachedByNone(c: Toml, parents: seq<string>, i: nat, end: string)
    requires i <= |parents|
    requires forall j :: 0 <= j < i ==> !Reaches(c, parents[j], end)
    ensures end !in ReachAll(c, parents[..i])
  {
  }

  /** A blocking walk from the i-th parent on goes through the i-th parent or a later one. */
  lemma BlockedThroughParent(c: Toml, root: string, child: string, i: nat, k: nat, settled: set<string>, done: set<string>)
    requires GoodGraph(c, root) && Reaches(c, root, child)
    requires k > 0 && child in c.namespaces && i < |c.namespaces[child].parents|
    requires done == settled + ReachAll(c, c.namespaces[child].parents[..i])
    ensures BlockedFrom(c, child, i, k, settled) <==>
            Blocked(c, c.namespaces[child].parents[i], k - 1, done) || BlockedFrom(c, child, i + 1, k, settled)
  {
    var parents := c.namespaces[child].parents;
    var p := parents[i];
    var left := k - 1;
    if rest :| Overruns(c, p, left, done, rest) {
      var steps := [i] + rest;
      assert steps[1..] == rest;
      var end := End(c, p, rest);
      assert Steps(c, child, steps) && End(c, child, steps) == end;
      forall j | 0 <= j < i
        ensures !Reaches(c, parents[j], end)
      {
        assert parents[j] in parents[..i];
      }
      assert Overruns(c, child, k, settled, steps) && steps[0] >= i;
    }
    if steps :| Overruns(c, child, k, settled, steps) && steps[0] >= i {
      if steps[0] == i {
        var end := End(c, p, steps[1..]);
        assert end == End(c, child, steps);
        ReachedByNone(c, parents, i, end);
        assert Overruns(c, p, k - 1, done, steps[1..]);
      } else {
        assert steps[0] >= i + 1;
      }
    }
    if steps :| Overruns(c, child, k, settled, steps) && steps[0] >= i + 1 {
      assert steps[0] >= i;
    }
  }

  /**
   The resolver succeeds exactly on closed, acyclic graphs in which no first walk of 64
   links ends at a namespace that extends something.
   */
  lemma AcceptsExactly(c: Toml, name: string)
    ensures Resolve(c, name).Ok? <==>
            && ReachableClosed(c, name)
            && ReachableAcyclic(c, name)
            && !Blocked(c, name, 64, {})
  {
    if Resolve(c, name).Ok? {
      OkIsClosedAndAcyclic(c, name);
    }
    if GoodGraph(c, name) {
      assert [name][..0] == [];
      assert DoneSet(EMPTY_MEMO) == {};
      VisitAccepts(c, name, [name], name, None, 0, EMPTY_MEMO);
    }
  }

  /* ---------- acceptance depends on the order of `extends` ---------- */

  const TOP: nat := 65
  const SHORTCUT: nat := 33

  function Rung(i: nat): string {
    seq(i, _ => 'a')
  }

  function RungParents(i: nat, shortcutFirst: bool): seq<string> {
    if i == 0 then
      if shortcutFirst then [Rung(SHORTCUT), Rung(1)] else [Rung(1), Rung(SHORTCUT)]
    else if i < TOP then [Rung(i + 1)]
    else []
  }

  function RungNames(): set<string> {
    set i | 0 <= i <= TOP :: Rung(i)
  }

  /** A chain of 66 namespaces, plus one link from the first to the middle of the chain. */
  function Ladder(shortcutFirst: bool): Toml {
    Toml(map[], map n | n in RungNames() :: Namespace([], RungParents(|n|, shortcutFirst), map[]))
  }

  lemma LadderEdge(early: bool, a: string, b: string)
    requires Edge(Ladder(early), a, b)
    ensures |a| < |b| <= TOP && a == Rung(|a|) && b == Rung(|b|)
    ensures |a| > 0 ==> |b| == |a| + 1
  {
  }

  lemma {:induction false} LadderClimbs(early: bool, w: seq<string>)
    requires Walk(Ladder(early), w) && w[0] in RungNames()
    ensures w[|w| - 1] in RungNames() && |w[|w| - 1]| >= |w[0]| + |w| - 1
    decreases |w|
  {
    if |w| > 1 {
      var c := Ladder(early);
      assert Edge(c, w[0], w[1]);
      LadderEdge(early, w[0], w[1]);
      SubWalk(c, w, 1, |w|);
      LadderClimbs(early, w[1..]);
    }
  }

  lemma LadderIsGood(early: bool)
    ensures GoodGraph(Ladder(early), Rung(0))
  {
    var c := Ladder(early);
    assert Rung(0) in RungNames();
    forall m | Reaches(c, Rung(0), m)
      ensures m in c.namespaces && !OnCycle(c, m)
    {
      var w :| WalkBetween(c, w, Rung(0), m);
      LadderClimbs(early, w);
      if OnCycle(c, m) {
        var p :| Edge(c, m, p) && Reaches(c, p, m);
        LadderEdge(early, m, p);
        var v :| WalkBetween(c, v, p, m);
        LadderClimbs(early, v);
        assert false;
      }
    }
  }

  lemma {:induction false} LadderReaches(early: bool, i: nat, j: nat)
    requires 0 < i <= j <= TOP
    ensures Reaches(Ladder(early), Rung(i), Rung(j))
    decreases j - i
  {
    var c := Ladder(early);
    if i == j {
      ReachesSelf(c, Rung(i));
    } else {
      assert Rung(i) in RungNames() && |Rung(i)| == i;
      assert Edge(c, Rung(i), Rung(i + 1));
      ReachesEdge(c, Rung(i), Rung(i + 1));
      LadderReaches(early, i + 1, j);
      ReachesTransitive(c, Rung(i), Rung(i + 1), Rung(j));
    }
  }

  lemma {:induction false} LadderEnd(early: bool, n: string, steps: seq<nat>)
    requires n in RungNames() && Steps(Ladder(early), n, steps)
    ensures End(Ladder(early), n, steps) in RungNames()
    ensures |End(Ladder(early), n, steps)| >= |n| + |steps|
    decreases |steps|
  {
    var c := Ladder(early);
    if steps != [] {
      var p := c.namespaces[n].parents[steps[0]];
      assert Edge(c, n, p);
      LadderEdge(early, n, p);
      LadderEnd(early, p, steps[1..]);
    }
  }

  lemma {:induction false} LadderStraight(n: nat, k: nat)
    requires n + k <= TOP
    ensures var steps := seq(k, _ => 0);
            && Steps(Ladder(false), Rung(n), steps)
            && FirstWalk(Ladder(false), Rung(n), steps)
            && End(Ladder(false), Rung(n), steps) == Rung(n + k)
    decreases k
  {
    var c := Ladder(false);
    assert Rung(n) in RungNames() && |Rung(n)| == n;
    if k > 0 {
      LadderStraight(n + 1, k - 1);
      assert seq(k, _ => 0)[1..] == seq(k - 1, _ => 0);
    }
  }

  /**
   One pair of parents in one order is accepted although a walk of 65 links exists; the
   same pair in the other order is too deep.
   */
  lemma OrderDecidesAcceptance()
    ensures Resolve(Ladder(true), Rung(0)).Ok?
    ensures exists w :: Walk(Ladder(true), w) && w[0] == Rung(0) && |w| == MAX_DEPTH + 2
    ensures Resolve(Ladder(false), Rung(0)).Err? && Resolve(Ladder(false), Rung(0)).error.NamespaceInheritanceTooDeep?
    ensures SameUpToParentOrder(Ladder(true), Ladder(false))
  {
    ShortcutFirstAccepted();
    LongWalk();
    ShortcutLastRefused();
    forall n | n in RungNames()
      ensures ToSet(RungParents(|n|, true)) == ToSet(RungParents(|n|, false))
    {
    }
  }

  lemma ShortcutFirstAccepted()
    ensures Resolve(Ladder(true), Rung(0)).Ok?
  {
    var c := Ladder(true);
    LadderIsGood(true);
    AcceptsExactly(c, Rung(0));
    assert Rung(0) in RungNames() && |Rung(0)| == 0;
    assert c.namespaces[Rung(0)].parents == [Rung(SHORTCUT), Rung(1)];
    if steps :| Overruns(c, Rung(0), MAX_DEPTH, {}, steps) {
      var p := c.namespaces[Rung(0)].parents[steps[0]];
      var end := End(c, Rung(0), steps);
      assert Rung(1) in RungNames() && Rung(SHORTCUT) in RungNames();
      LadderEnd(true, p, steps[1..]);
      assert end != Rung(TOP);
      assert steps[0] == 1;
      LadderReaches(true, SHORTCUT, |end|);
      assert false;
    }
  }

  lemma LongWalk()
    ensures exists w :: Walk(Ladder(true), w) && w[0] == Rung(0) && |w| == MAX_DEPTH + 2
  {
    var c := Ladder(true);
    var w := seq(MAX_DEPTH + 2, i requires 0 <= i => Rung(i));
    forall i | 0 <= i < |w| - 1
      ensures Edge(c, w[i], w[i + 1])
    {
      assert Rung(i) in RungNames() && |Rung(i)| == i;
      assert Rung(i + 1) in RungParents(i, true) by {
        if i == 0 { assert RungParents(0, true)[1] == Rung(1); }
      }
    }
    assert Walk(c, w);
  }

  lemma ShortcutLastRefused()
    ensures Resolve(Ladder(false), Rung(0)).Err? && Resolve(Ladder(false), Rung(0)).error.NamespaceInheritanceTooDeep?
  {
    var c := Ladder(false);
    LadderIsGood(false);
    AcceptsExactly(c, Rung(0));
    LadderStraight(0, MAX_DEPTH);
    assert Rung(MAX_DEPTH) in RungNames() && |Rung(MAX_DEPTH)| == MAX_DEPTH;
    assert Overruns(c, Rung(0), MAX_DEPTH, {}, seq(MAX_DEPTH, _ => 0));
    ErrorsAreExact(c, Rung(0));
    ReachesSelf(c, Rung(0));
    match Resolve(c, Rung(0)).error
    case UnknownNamespaceParent(child, p) =>
      ReachesEdge(c, child, p);
      ReachesTransitive(c, Rung(0), child, p);
    case _ =>
  }
}
