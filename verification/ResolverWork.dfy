/** How much work one resolve does: depth, bodies executed and total calls. */
module ResolverWork {
  import opened Wrappers
  import opened Config
  import opened Inheritance
  import opened Resolver

  function EnteredSet(calls: seq<Call>): set<string> {
    set call | call in calls && call.entered :: call.name
  }

  predicate EnteredOnce(calls: seq<Call>) {
    forall i, j :: 0 <= i < j < |calls| && calls[i].entered && calls[j].entered ==> calls[i].name != calls[j].name
  }

  /** The `extends` links followed by the entered calls. */
  function Links(c: Toml, calls: seq<Call>): nat {
    if calls == [] then 0
    else Links(c, calls[..|calls| - 1]) + CallLinks(c, calls[|calls| - 1])
  }

  function CallLinks(c: Toml, call: Call): nat {
    if call.entered && call.name in c.namespaces then |c.namespaces[call.name].parents| else 0
  }

  ghost predicate WorkInv(memo: Memo) {
    EnteredOnce(memo.calls) && memo.states.Keys == EnteredSet(memo.calls)
  }

  /** What `allowance` further calls on behalf of `name`, starting at `depth`, may do to the log. */
  ghost predicate Worked(c: Toml, name: string, depth: nat, before: Memo, after: Memo, allowance: nat) {
    && WorkInv(after)
    && before.calls <= after.calls
    && |after.calls| + Links(c, before.calls) <= |before.calls| + allowance + Links(c, after.calls)
    && forall k :: |before.calls| <= k < |after.calls| ==>
         && depth <= after.calls[k].depth <= MAX_DEPTH + 1
         && Reaches(c, name, after.calls[k].name)
         && (after.calls[k].entered ==> after.calls[k].name in c.namespaces)
  }

  /** One more call in the log, which enters its namespace or does not. */
  ghost predicate LoggedOne(c: Toml, memo: Memo, after: Memo, call: Call) {
    && after.calls == memo.calls + [call]
    && after.states.Keys == memo.states.Keys + (if call.entered then {call.name} else {})
    && call.depth <= MAX_DEPTH + 1
    && (call.entered ==> call.name in c.namespaces && call.name !in memo.states)
  }

  lemma LogOne(c: Toml, memo: Memo, after: Memo, call: Call)
    requires WorkInv(memo) && LoggedOne(c, memo, after, call)
    ensures WorkInv(after) && Worked(c, call.name, call.depth, memo, after, 1)
    ensures |after.calls| == |memo.calls| + 1 && Links(c, after.calls) == Links(c, memo.calls) + CallLinks(c, call)
  {
    LogLinks(c, memo.calls, call);
    LogEntered(memo, call);
    assert WorkInv(after);
    LogWorked(c, memo, after, call);
  }

  lemma LogWorked(c: Toml, memo: Memo, after: Memo, call: Call)
    requires WorkInv(after) && after.calls == memo.calls + [call] && Links(c, after.calls) >= Links(c, memo.calls)
    requires call.depth <= MAX_DEPTH + 1 && (call.entered ==> call.name in c.namespaces)
    ensures Worked(c, call.name, call.depth, memo, after, 1)
  {
    ReachesSelf(c, call.name);
    forall k | |memo.calls| <= k < |after.calls|
      ensures after.calls[k] == call
    {
    }
  }

  lemma LogLinks(c: Toml, calls: seq<Call>, call: Call)
    ensures Links(c, calls + [call]) == Links(c, calls) + CallLinks(c, call)
  {
  }

  lemma LogEntered(memo: Memo, call: Call)
    requires WorkInv(memo) && (call.entered ==> call.name !in memo.states)
    ensures EnteredOnce(memo.calls + [call])
    ensures EnteredSet(memo.calls + [call]) == EnteredSet(memo.calls) + if call.entered then {call.name} else {}
  {
  }

  lemma WorkComposes(c: Toml, name: string, depth: nat, before: Memo, begun: Memo, after: Memo, links: nat)
    requires Worked(c, name, depth, before, begun, 1) && |begun.calls| == |before.calls| + 1
    requires Links(c, begun.calls) == Links(c, before.calls) + links
    requires Worked(c, name, depth, begun, after, links)
    ensures Worked(c, name, depth, before, after, 1)
  {
  }

  lemma NameEntered(name: string, depth: nat, some: seq<Call>, more: seq<Call>)
    requires Call(name, depth, true) in some && some <= more
    ensures name in EnteredSet(more)
  {
  }

  lemma FinishWork(c: Toml, name: string, depth: nat, before: Memo, inner: Outcome)
    requires inner.result.Ok? && name in c.namespaces
    requires Worked(c, name, depth, before, inner.memo, 1) && name in EnteredSet(inner.memo.calls)
    ensures Worked(c, name, depth, before, Finish(c, name, inner.result.value, inner.memo).memo, 1)
  {
  }

  lemma EnterWork(c: Toml, name: string, depth: nat, memo: Memo)
    requires WorkInv(memo) && depth <= MAX_DEPTH && name in c.namespaces && name !in memo.states
    ensures WorkInv(Begin(name, depth, memo))
  {
  }

  lemma BodyWork(c: Toml, name: string, depth: nat, memo: Memo, inner: Outcome)
    requires WorkInv(memo) && depth <= MAX_DEPTH && name in c.namespaces && name !in memo.states
    requires Worked(c, name, depth, Begin(name, depth, memo), inner.memo, |c.namespaces[name].parents|)
    ensures Worked(c, name, depth, memo, inner.memo, 1)
    ensures inner.result.Ok? ==> Worked(c, name, depth, memo, Finish(c, name, inner.result.value, inner.memo).memo, 1)
  {
    var begun := Begin(name, depth, memo);
    LogOne(c, memo, begun, Call(name, depth, true));
    WorkComposes(c, name, depth, memo, begun, inner.memo, |c.namespaces[name].parents|);
    if inner.result.Ok? {
      assert begun.calls[|memo.calls|] == Call(name, depth, true);
      NameEntered(name, depth, begun.calls, inner.memo.calls);
      FinishWork(c, name, depth, memo, inner);
    }
  }

  lemma RefusedWork(c: Toml, name: string, child: Option<string>, depth: nat, memo: Memo)
    requires WorkInv(memo) && depth <= MAX_DEPTH + 1
    requires depth > MAX_DEPTH || name in memo.states || name !in c.namespaces
    ensures Worked(c, name, depth, memo, Visit(c, name, child, depth, memo).memo, 1)
  {
    var call := Call(name, depth, false);
    LogOne(c, memo, memo.Logged(call), call);
    assert Visit(c, name, child, depth, memo).memo == memo.Logged(call);
  }

  lemma {:induction false} VisitWork(c: Toml, name: string, child: Option<string>, depth: nat, memo: Memo)
    requires WorkInv(memo) && depth <= MAX_DEPTH + 1
    ensures Worked(c, name, depth, memo, Visit(c, name, child, depth, memo).memo, 1)
    decreases DepthLeft(depth), 1, 0
  {
    if depth > MAX_DEPTH || name in memo.states || name !in c.namespaces {
      RefusedWork(c, name, child, depth, memo);
    } else {
      EnterWork(c, name, depth, memo);
      VisitParentsWork(c, name, 0, depth, EMPTY_ACL, Begin(name, depth, memo));
      BodyWork(c, name, depth, memo, VisitParents(c, name, 0, depth, EMPTY_ACL, Begin(name, depth, memo)));
    }
  }

  /** Each parent not yet visited is allowed one call of its own; each is a link of `child`. */
  lemma {:induction false} VisitParentsWork(c: Toml, child: string, i: nat, depth: nat, acc: Acl, memo: Memo)
    requires child in c.namespaces && i <= |c.namespaces[child].parents| && depth <= MAX_DEPTH
    requires WorkInv(memo)
    ensures Worked(c, child, depth, memo, VisitParents(c, child, i, depth, acc, memo).memo,
                   |c.namespaces[child].parents| - i)
    decreases DepthLeft(depth), 0, |c.namespaces[child].parents| - i
  {
    var parents := c.namespaces[child].parents;
    if i < |parents| {
      var p := parents[i];
      VisitWork(c, p, Some(child), depth + 1, memo);
      var visited := Visit(c, p, Some(child), depth + 1, memo);
      WorkForChild(c, child, p, depth, memo, visited.memo);
      if visited.result.Ok? {
        var merged := Merge(acc, visited.result.value);
        VisitParentsWork(c, child, i + 1, depth, merged, visited.memo);
        var rest := VisitParents(c, child, i + 1, depth, merged, visited.memo);
        assert VisitParents(c, child, i, depth, acc, memo) == rest;
        WorkAdds(c, child, depth, memo, visited.memo, rest.memo, |parents| - (i + 1));
      } else {
        assert VisitParents(c, child, i, depth, acc, memo) == visited;
      }
    }
  }

  /** Work done for a parent is work done for its child. */
  lemma WorkForChild(c: Toml, child: string, p: string, depth: nat, before: Memo, after: Memo)
    requires Edge(c, child, p) && Worked(c, p, depth + 1, before, after, 1)
    ensures Worked(c, child, depth, before, after, 1)
  {
    ReachesEdge(c, child, p);
    forall k | |before.calls| <= k < |after.calls|
      ensures Reaches(c, child, after.calls[k].name)
    {
      ReachesTransitive(c, child, p, after.calls[k].name);
    }
  }

  lemma WorkAdds(c: Toml, name: string, depth: nat, before: Memo, middle: Memo, after: Memo, more: nat)
    requires Worked(c, name, depth, before, middle, 1) && Worked(c, name, depth, middle, after, more)
    ensures Worked(c, name, depth, before, after, 1 + more)
  {
    forall k | |before.calls| <= k < |after.calls|
      ensures depth <= after.calls[k].depth <= MAX_DEPTH + 1
      ensures Reaches(c, name, after.calls[k].name)
      ensures after.calls[k].entered ==> after.calls[k].name in c.namespaces
    {
      if k < |middle.calls| {
        assert after.calls[k] == middle.calls[k];
      }
    }
  }

  /* ---------- from links followed to links that exist ---------- */

  ghost function ExtendsLinks(c: Toml, nodes: set<string>): set<(string, int)> {
    set n, i | n in nodes && n in c.namespaces && 0 <= i < |c.namespaces[n].parents| :: (n, i)
  }

  lemma {:induction false} NodeLinkCount(c: Toml, n: string, k: nat)
    requires n in c.namespaces && k <= |c.namespaces[n].parents|
    ensures |set i | 0 <= i < k :: (n, i)| == k
  {
    var links := set i | 0 <= i < k :: (n, i);
    if k > 0 {
      NodeLinkCount(c, n, k - 1);
      assert links == (set i | 0 <= i < k - 1 :: (n, i)) + {(n, k - 1)};
    }
  }

  lemma LinksOfOneMore(c: Toml, nodes: set<string>, n: string)
    requires n !in nodes
    ensures |ExtendsLinks(c, nodes + {n})|
         == |ExtendsLinks(c, nodes)| + if n in c.namespaces then |c.namespaces[n].parents| else 0
  {
    if n in c.namespaces {
      var k := |c.namespaces[n].parents|;
      var own := set i | 0 <= i < k :: (n, i);
      NodeLinkCount(c, n, k);
      assert ExtendsLinks(c, nodes + {n}) == ExtendsLinks(c, nodes) + own;
      assert ExtendsLinks(c, nodes) !! own;
    } else {
      assert ExtendsLinks(c, nodes + {n}) == ExtendsLinks(c, nodes);
    }
  }

  lemma EnteredSnoc(front: seq<Call>, last: Call)
    requires EnteredOnce(front + [last])
    ensures EnteredOnce(front)
    ensures EnteredSet(front + [last]) == EnteredSet(front) + if last.entered then {last.name} else {}
    ensures last.entered ==> last.name !in EnteredSet(front)
  {
    var calls := front + [last];
    forall i, j | 0 <= i < j < |front| && front[i].entered && front[j].entered
      ensures front[i].name != front[j].name
    {
      assert calls[i] == front[i] && calls[j] == front[j];
    }
    forall i | 0 <= i < |front| && front[i].entered && last.entered
      ensures front[i].name != last.name
    {
      assert calls[i] == front[i] && calls[|front|] == last;
    }
  }

  lemma {:induction false} LinksAreDistinct(c: Toml, calls: seq<Call>)
    requires EnteredOnce(calls)
    ensures Links(c, calls) == |ExtendsLinks(c, EnteredSet(calls))|
    decreases |calls|
  {
    if calls == [] {
      assert ExtendsLinks(c, EnteredSet(calls)) == {};
    } else {
      var front, last := calls[..|calls| - 1], calls[|calls| - 1];
      assert calls == front + [last];
      EnteredSnoc(front, last);
      LinksAreDistinct(c, front);
      LinksGrow(c, front, last);
    }
  }

  lemma LinksGrow(c: Toml, front: seq<Call>, last: Call)
    requires Links(c, front) == |ExtendsLinks(c, EnteredSet(front))|
    requires EnteredSet(front + [last]) == EnteredSet(front) + if last.entered then {last.name} else {}
    requires last.entered ==> last.name !in EnteredSet(front)
    ensures Links(c, front + [last]) == |ExtendsLinks(c, EnteredSet(front + [last]))|
  {
    LogLinks(c, front, last);
    if last.entered {
      LinksOfOneMore(c, EnteredSet(front), last.name);
    } else {
      assert EnteredSet(front + [last]) == EnteredSet(front);
    }
  }

  lemma SubsetCount<T>(a: set<T>, b: set<T>)
    requires a <= b
    ensures |a| <= |b|
  {
    assert b == a + (b - a);
  }

  /**
   Recursion stays within depth 65, no namespace body runs twice, every call is for a
   reachable name, and calls are bounded by the `extends` links of reachable namespaces.
   */
  lemma ResolveWork(c: Toml, name: string)
    ensures var calls := Visit(c, name, None, 0, EMPTY_MEMO).memo.calls;
            && (forall k :: 0 <= k < |calls| ==> calls[k].depth <= MAX_DEPTH + 1 && Reaches(c, name, calls[k].name))
            && EnteredOnce(calls)
            && |calls| <= 1 + |ExtendsLinks(c, ReachSet(c, name))|
  {
    assert WorkInv(EMPTY_MEMO);
    VisitWork(c, name, None, 0, EMPTY_MEMO);
    var after := Visit(c, name, None, 0, EMPTY_MEMO).memo;
    assert Worked(c, name, 0, EMPTY_MEMO, after, 1);
    LogIsBounded(c, name, after);
  }

  lemma LogIsBounded(c: Toml, name: string, after: Memo)
    requires Worked(c, name, 0, EMPTY_MEMO, after, 1)
    ensures |after.calls| <= 1 + |ExtendsLinks(c, ReachSet(c, name))|
  {
    var calls := after.calls;
    LinksAreDistinct(c, calls);
    forall n | n in EnteredSet(calls)
      ensures n in ReachSet(c, name)
    {
      var call :| call in calls && call.entered && call.name == n;
      var k :| 0 <= k < |calls| && calls[k] == call;
    }
    SubsetCount(ExtendsLinks(c, EnteredSet(calls)), ExtendsLinks(c, ReachSet(c, name)));
  }
}
