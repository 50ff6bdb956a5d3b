/** The rows a list request returns, and which of them can be called by what they display. */
module Listing {
  import opened Wrappers
  import opened Config
  import opened Display
  import opened Gate
  import opened Registry
  import opened RegistrySafety
  import Names
  import Text

  /** One tool as an upstream offers it. */
  datatype Offer = Offer(name: string, description: Option<string>)

  /** What asking for one server's inventory gives. */
  type Answer = Result<seq<Offer>, ToolError>

  datatype Row = Row(server: string, name: string, description: string)

  function RowFor(server: string, offer: Offer): Row {
    Row(server, SanitizeIdentifier(offer.name),
        SanitizeRow(if offer.description.Some? then offer.description.value else ""))
  }

  function ServerRows(acl: Acl, server: string, offers: seq<Offer>): seq<Row> {
    if offers == [] then []
    else
      var last := |offers| - 1;
      ServerRows(acl, server, offers[..last])
      + if acl.AllowsTool(server, offers[last].name) then [RowFor(server, offers[last])] else []
  }

  function OffersOf(answer: Answer): seq<Offer> {
    if answer.Ok? then answer.value else []
  }

  function AllRows(acl: Acl, servers: seq<string>, answers: seq<Answer>): seq<Row>
    requires |servers| == |answers|
  {
    if servers == [] then []
    else
      var last := |servers| - 1;
      AllRows(acl, servers[..last], answers[..last]) + ServerRows(acl, servers[last], OffersOf(answers[last]))
  }

  ghost predicate Passed(env: Env, servers: seq<string>, answers: seq<Answer>, n: nat)
    requires n <= |servers| == |answers|
  {
    forall i :: 0 <= i < n ==> servers[i] in env.configured && answers[i].Ok?
  }

  /** The server at `i` is the first that is not configured or has no inventory, and `e` says which. */
  ghost predicate StopsFirstAt(env: Env, servers: seq<string>, answers: seq<Answer>, i: nat, e: ToolError)
    requires i < |servers| == |answers|
  {
    && Passed(env, servers, answers, i)
    && (servers[i] !in env.configured ==> e == UnknownServer(servers[i]))
    && (servers[i] in env.configured ==> answers[i].Err? && e == answers[i].error)
  }

  lemma AllRowsSnoc(acl: Acl, servers: seq<string>, answers: seq<Answer>, n: nat)
    requires n < |servers| == |answers|
    ensures AllRows(acl, servers[..n + 1], answers[..n + 1])
         == AllRows(acl, servers[..n], answers[..n]) + ServerRows(acl, servers[n], OffersOf(answers[n]))
  {
    assert servers[..n + 1][..n] == servers[..n] && answers[..n + 1][..n] == answers[..n];
  }

  method PushRows(acl: Acl, server: string, offers: seq<Offer>, before: seq<Row>) returns (rows: seq<Row>)
    ensures rows == before + ServerRows(acl, server, offers)
  {
    rows := before;
    for i := 0 to |offers|
      invariant rows == before + ServerRows(acl, server, offers[..i])
    {
      assert offers[..i + 1][..i] == offers[..i];
      if acl.AllowsTool(server, offers[i].name) {
        rows := rows + [RowFor(server, offers[i])];
      }
    }
    assert offers[..|offers|] == offers;
  }

  /** Walks the servers in order, pushing a row for each permitted tool, until one cannot be inventoried. */
  method ListRows(env: Env, servers: seq<string>, answers: seq<Answer>) returns (r: Result<seq<Row>, ToolError>)
    requires |servers| == |answers|
    ensures r.Ok? <==> Passed(env, servers, answers, |servers|)
    ensures r.Err? ==> exists i :: 0 <= i < |servers| && StopsFirstAt(env, servers, answers, i, r.error)
    ensures r.Ok? ==> r.value == AllRows(env.acl, servers, answers)
  {
    var rows: seq<Row> := [];
    for n := 0 to |servers|
      invariant Passed(env, servers, answers, n)
      invariant rows == AllRows(env.acl, servers[..n], answers[..n])
    {
      if servers[n] !in env.configured {
        assert StopsFirstAt(env, servers, answers, n, UnknownServer(servers[n]));
        return Err(UnknownServer(servers[n]));
      }
      if answers[n].Err? {
        assert StopsFirstAt(env, servers, answers, n, answers[n].error);
        return Err(answers[n].error);
      }
      AllRowsSnoc(env.acl, servers, answers, n);
      rows := PushRows(env.acl, servers[n], answers[n].value, rows);
    }
    assert servers[..|servers|] == servers && answers[..|answers|] == answers;
    return Ok(rows);
  }

  ghost predicate RowOf(acl: Acl, server: string, offers: seq<Offer>, offer: Offer, row: Row) {
    offer in offers && acl.AllowsTool(server, offer.name) && row == RowFor(server, offer)
  }

  /** `row` shows one of the server's offered tools that the access list allows. */
  ghost predicate Shows(acl: Acl, server: string, offers: seq<Offer>, row: Row) {
    exists offer :: RowOf(acl, server, offers, offer, row)
  }

  lemma {:induction false} ServerRowsExactly(acl: Acl, server: string, offers: seq<Offer>, row: Row)
    ensures row in ServerRows(acl, server, offers) <==> Shows(acl, server, offers, row)
    decreases |offers|
  {
    if offers != [] {
      var front, last := offers[..|offers| - 1], offers[|offers| - 1];
      ServerRowsExactly(acl, server, front, row);
      assert offers == front + [last];
      assert forall offer :: RowOf(acl, server, offers, offer, row) <==>
                             RowOf(acl, server, front, offer, row) || RowOf(acl, server, [last], offer, row);
      assert RowOf(acl, server, [last], last, row) <==> acl.AllowsTool(server, last.name) && row == RowFor(server, last);
    }
  }

  ghost predicate ShownFrom(acl: Acl, servers: seq<string>, answers: seq<Answer>, i: nat, row: Row)
    requires i < |servers| == |answers|
  {
    Shows(acl, servers[i], OffersOf(answers[i]), row)
  }

  /** The rows are those of the offered tools the access list allows: none is missing and no other is shown. */
  lemma {:induction false} RowsExactly(acl: Acl, servers: seq<string>, answers: seq<Answer>, row: Row)
    requires |servers| == |answers|
    ensures row in AllRows(acl, servers, answers) <==>
            exists i :: 0 <= i < |servers| && ShownFrom(acl, servers, answers, i, row)
    decreases |servers|
  {
    if servers != [] {
      var last := |servers| - 1;
      RowsExactly(acl, servers[..last], answers[..last], row);
      ServerRowsExactly(acl, servers[last], OffersOf(answers[last]), row);
      assert forall i :: 0 <= i < last ==>
        (ShownFrom(acl, servers[..last], answers[..last], i, row) <==> ShownFrom(acl, servers, answers, i, row));
      assert ShownFrom(acl, servers, answers, last, row) <==> row in ServerRows(acl, servers[last], OffersOf(answers[last]));
    }
  }

  /** The row shows its server, the tool's sanitised name and its sanitised description, empty if there is none. */
  ghost predicate Displays(row: Row, server: string, offer: Offer) {
    && row.server == server && row.name == SanitizeIdentifier(offer.name)
    && (offer.description.Some? ==> row.description == SanitizeRow(offer.description.value))
    && (offer.description.None? ==> row.description == "")
  }

  /** Row `j` displays the tool offered at `ks[j]`, and `ks` runs through the places of the allowed tools in order. */
  ghost predicate RowsAt(acl: Acl, server: string, offers: seq<Offer>, ks: seq<nat>, rows: seq<Row>) {
    && |ks| == |rows| && Increasing(ks)
    && (forall j :: 0 <= j < |ks| ==>
          ks[j] < |offers| && acl.AllowsTool(server, offers[ks[j]].name) && Displays(rows[j], server, offers[ks[j]]))
    && (forall k :: 0 <= k < |offers| && acl.AllowsTool(server, offers[k].name) ==> k in ks)
  }

  lemma RowDisplays(server: string, offer: Offer)
    ensures Displays(RowFor(server, offer), server, offer)
  {
    NeutralizeFixed("");
    assert Text.Trimmed("");
  }

  /** One more offer adds one more row at the end, or none. */
  lemma ServerRowsSnoc(acl: Acl, server: string, front: seq<Offer>, offer: Offer)
    ensures ServerRows(acl, server, front + [offer])
         == var before := ServerRows(acl, server, front);
            if acl.AllowsTool(server, offer.name) then before + [RowFor(server, offer)] else before
  {
    assert (front + [offer])[..|front|] == front;
  }

  lemma RowsAtMore(acl: Acl, server: string, front: seq<Offer>, offer: Offer, ks: seq<nat>, rows: seq<Row>)
    requires RowsAt(acl, server, front, ks, rows) && acl.AllowsTool(server, offer.name)
    ensures RowsAt(acl, server, front + [offer], ks + [|front|], rows + [RowFor(server, offer)])
  {
    RowDisplays(server, offer);
    var offers, more := front + [offer], ks + [|front|];
    assert more[|ks|] == |front|;
    forall k | 0 <= k < |offers| && acl.AllowsTool(server, offers[k].name)
      ensures k in more
    {
      if k < |front| { assert front[k] == offers[k] && k in ks; }
    }
  }

  lemma RowsAtSame(acl: Acl, server: string, front: seq<Offer>, offer: Offer, ks: seq<nat>, rows: seq<Row>)
    requires RowsAt(acl, server, front, ks, rows) && !acl.AllowsTool(server, offer.name)
    ensures RowsAt(acl, server, front + [offer], ks, rows)
  {
    var offers := front + [offer];
    forall k | 0 <= k < |offers| && acl.AllowsTool(server, offers[k].name)
      ensures k in ks
    {
      assert front[k] == offers[k];
    }
  }

  lemma RowsAtSnoc(acl: Acl, server: string, front: seq<Offer>, offer: Offer, ks: seq<nat>) returns (more: seq<nat>)
    requires RowsAt(acl, server, front, ks, ServerRows(acl, server, front))
    ensures RowsAt(acl, server, front + [offer], more, ServerRows(acl, server, front + [offer]))
  {
    ServerRowsSnoc(acl, server, front, offer);
    if acl.AllowsTool(server, offer.name) {
      RowsAtMore(acl, server, front, offer, ks, ServerRows(acl, server, front));
      more := ks + [|front|];
    } else {
      RowsAtSame(acl, server, front, offer, ks, ServerRows(acl, server, front));
      more := ks;
    }
  }

  /** A server's rows are, in order and one for each, those of the offered tools the access list allows. */
  lemma {:induction false} ServerRowsInOrder(acl: Acl, server: string, offers: seq<Offer>) returns (ks: seq<nat>)
    ensures RowsAt(acl, server, offers, ks, ServerRows(acl, server, offers))
    decreases |offers|
  {
    ks := [];
    if offers != [] {
      var front, offer := offers[..|offers| - 1], offers[|offers| - 1];
      ks := ServerRowsInOrder(acl, server, front);
      ks := RowsAtSnoc(acl, server, front, offer, ks);
      assert offers == front + [offer];
    }
  }

  ghost predicate BlocksAt(acl: Acl, servers: seq<string>, answers: seq<Answer>, kss: seq<seq<nat>>, blocks: seq<seq<Row>>) {
    && |servers| == |answers| == |kss| == |blocks|
    && forall i :: 0 <= i < |servers| && answers[i].Ok? ==> RowsAt(acl, servers[i], answers[i].value, kss[i], blocks[i])
  }

  /** The rows of all servers are one block for each, in the order of the servers, each listing its tools in order. */
  lemma {:induction false} RowsInOrder(acl: Acl, servers: seq<string>, answers: seq<Answer>)
    returns (kss: seq<seq<nat>>, blocks: seq<seq<Row>>)
    requires |servers| == |answers|
    ensures BlocksAt(acl, servers, answers, kss, blocks)
    ensures AllRows(acl, servers, answers) == Flatten(blocks)
    decreases |servers|
  {
    kss, blocks := [], [];
    if servers != [] {
      var last := |servers| - 1;
      kss, blocks := RowsInOrder(acl, servers[..last], answers[..last]);
      var block := ServerRows(acl, servers[last], OffersOf(answers[last]));
      var ks := ServerRowsInOrder(acl, servers[last], OffersOf(answers[last]));
      FlattenSnoc(blocks, block);
      kss, blocks := kss + [ks], blocks + [block];
    }
  }

  function OfferedNames(offers: seq<Offer>): set<string> {
    set offer | offer in offers :: offer.name
  }

  /**
   In every run: a row made from what a request read shows a tool of the inventory cached, at
   that step, in its server's one entry, and one the access list allows.
   */
  lemma RowsShowCachedTools(
    env: Env, states: seq<Sys>, actions: seq<Action>, i: nat, e: Event, offers: seq<Offer>, row: Row)
    requires IsRun(env, states, actions) && i < |actions|
    requires e.Read? && e in Added(states[i], states[i + 1])
    requires OfferedNames(offers) == e.seen.tools && row in ServerRows(env.acl, e.server, offers)
    ensures var s := states[i];
            && e.server in s.entries && s.entries[e.server] in s.conns
            && s.conns[s.entries[e.server]].cached.Some?
            && exists tool :: tool in s.conns[s.entries[e.server]].cached.value.tools && env.acl.AllowsTool(e.server, tool)
                              && row.server == e.server && row.name == SanitizeIdentifier(tool)
  {
    ReadsSeeCache(env, states, actions, i, e);
    ServerRowsExactly(env.acl, e.server, offers, row);
    var offer :| RowOf(env.acl, e.server, offers, offer, row);
    assert offer.name in e.seen.tools;
  }

  /** A displayed name is the tool's own exactly when it is clean, trimmed and within the cap. */
  lemma IdentifierUnchanged(name: string)
    ensures SanitizeIdentifier(name) == name <==> Clean(name) && Text.Trimmed(name) && |name| <= IDENTIFIER_CAP
  {
    NeutralizeFixed(name);
    NeutralizeIsClean(name);
  }

  /**
   Sending back the server and name a row displays invokes the row's own tool exactly when
   sanitising left that name alone; otherwise the request is refused or names another tool.
   */
  lemma ListedToolIsCallable(env: Env, server: string, offer: Offer, arguments: map<string, Json>)
    requires Names.ValidServerName(server) && server in env.configured && env.acl.AllowsTool(server, offer.name)
    requires "name" in arguments && "arguments" in arguments && arguments["arguments"].Obj?
    requires arguments["name"] == Str(Names.Join(RowFor(server, offer).server, RowFor(server, offer).name))
    ensures Admit(env, MetaRequest("invoke_tool", Some(arguments))) == Admitted(server, Invoke(offer.name))
       <==> offer.name != "" && Clean(offer.name) && Text.Trimmed(offer.name) && |offer.name| <= IDENTIFIER_CAP
  {
    var shown := SanitizeIdentifier(offer.name);
    IdentifierUnchanged(offer.name);
    if shown == "" {
      EmptyToolRefused(env, server, arguments);
    } else {
      InvokeAdmittedExactly(env, server, shown, arguments);
    }
  }

  lemma EmptyToolRefused(env: Env, server: string, arguments: map<string, Json>)
    requires "name" in arguments && arguments["name"] == Str(Names.Join(server, ""))
    requires Names.ValidServerName(server)
    ensures Admit(env, MetaRequest("invoke_tool", Some(arguments))) == Refused(InvalidRequest)
  {
  }

  /** Calling back the row of a tool with a 201-character name invokes another tool, the one named by its first 200. */
  lemma LongNameCallsAnother()
    ensures var env := Env({"a"}, Acl({"a"}, map[]));
            var offer := Offer(seq(201, _ => 'a'), None);
            var row := RowFor("a", offer);
            var arguments := map["name" := Str(Names.Join(row.server, row.name)), "arguments" := Obj(map[])];
            Admit(env, MetaRequest("invoke_tool", Some(arguments))) == Admitted("a", Invoke(seq(200, _ => 'a')))
  {
    var name, shown := seq(201, _ => 'a'), seq(200, _ => 'a');
    NeutralizeFixed(name);
    assert name[..200] == shown;
    var arguments := map["name" := Str(Names.Join("a", shown)), "arguments" := Obj(map[])];
    InvokeAdmittedExactly(Env({"a"}, Acl({"a"}, map[])), "a", shown, arguments);
  }
}
