/** The budgeted table of contents: one line per visible server, tool hints while they fit. */
module Toc {
  import opened Wrappers
  import opened Config
  import opened ActiveNamespace
  import opened Capability
  import opened Display
  import opened Names
  import opened Text

  const BUDGET: nat := 3000
  const HEADER := "\n\nConfigured servers:\n"

  /* ---------- the parts ---------- */

  function Described(c: Toml, server: string): string {
    if server in c.servers && c.servers[server].description.Some? then SanitizeRow(c.servers[server].description.value) else ""
  }

  function Entry(c: Toml, server: string): string {
    var description := Described(c, server);
    if description != "" then "- " + server + ": " + description + "\n" else "- " + server + "\n"
  }

  function CommaJoin(names: seq<string>): string {
    if names == [] then ""
    else if |names| == 1 then names[0]
    else names[0] + ", " + CommaJoin(names[1..])
  }

  /** The hint showing the first `shown` names. */
  function Hint(names: seq<string>, shown: nat): string
    requires shown <= |names|
  {
    var omitted := |names| - shown;
    " (tools: " + CommaJoin(names[..shown]) + (if omitted > 0 then " +" + Decimal(omitted) + " more" else "") + ")"
  }

  /** Display names of the permitted tools in a summary. */
  function PermittedNames(active: Active, server: string, summary: seq<(string, string)>): seq<string> {
    if summary == [] then []
    else
      var last := |summary| - 1;
      PermittedNames(active, server, summary[..last])
      + if active.IsToolAllowed(server, summary[last].0) then [SanitizeIdentifier(summary[last].0)] else []
  }

  function NamesFor(active: Active, summaries: Summaries, server: string): seq<string> {
    if server in summaries then PermittedNames(active, server, summaries[server]) else []
  }

  /** The possible hints for `names`, showing one name, two names and so on. */
  function Options(names: seq<string>): seq<string> {
    seq(|names|, i requires 0 <= i < |names| => Hint(names, i + 1))
  }

  /** `hint` is the last of the options that fits in `left` bytes, or nothing if none does. */
  ghost predicate BestOf(options: seq<string>, left: nat, hint: string) {
    || (hint == "" && forall k :: 0 <= k < |options| ==> ByteLen(options[k]) > left)
    || exists k :: 0 <= k < |options| && IsPick(options, left, hint, k)
  }

  ghost predicate IsPick(options: seq<string>, left: nat, hint: string, k: nat)
    requires k < |options|
  {
    && hint == options[k] && ByteLen(options[k]) <= left
    && forall j :: k < j < |options| ==> ByteLen(options[j]) > left
  }

  /** Bytes of the first `n` parts. */
  function BytesBefore(parts: seq<string>, n: nat): nat
    requires n <= |parts|
  {
    if n == 0 then 0 else BytesBefore(parts, n - 1) + ByteLen(parts[n - 1])
  }

  function TotalBytes(parts: seq<string>): nat {
    BytesBefore(parts, |parts|)
  }

  function Entries(c: Toml, servers: seq<string>): seq<string> {
    seq(|servers|, i requires 0 <= i < |servers| => Entry(c, servers[i]))
  }

  function BaseLen(c: Toml, servers: seq<string>): nat {
    ByteLen(HEADER) + TotalBytes(Entries(c, servers))
  }

  function Budget(c: Toml, servers: seq<string>): nat {
    if BaseLen(c, servers) > BUDGET then 0 else BUDGET - BaseLen(c, servers)
  }

  function Line(c: Toml, server: string, hint: string): string {
    TrimEnd(Entry(c, server)) + hint + "\n"
  }

  function Lines(c: Toml, servers: seq<string>, hints: seq<string>): seq<string>
    requires |hints| == |servers|
  {
    seq(|servers|, i requires 0 <= i < |servers| => Line(c, servers[i], hints[i]))
  }

  /** The possible hints of each server. */
  function Offers(active: Active, summaries: Summaries, servers: seq<string>): seq<seq<string>> {
    seq(|servers|, i requires 0 <= i < |servers| => Options(NamesFor(active, summaries, servers[i])))
  }

  /** Every hint so far is the best one for what the earlier ones left of the budget. */
  ghost predicate HintsFit(offers: seq<seq<string>>, budget: nat, hints: seq<string>) {
    && |hints| <= |offers|
    && TotalBytes(hints) <= budget
    && forall i :: 0 <= i < |hints| ==> HintFits(offers, budget, hints, i)
  }

  ghost predicate HintFits(offers: seq<seq<string>>, budget: nat, hints: seq<string>, i: nat)
    requires i < |hints| <= |offers|
  {
    && BytesBefore(hints, i) <= budget
    && BestOf(offers[i], budget - BytesBefore(hints, i), hints[i])
  }

  /* ---------- the loop ---------- */

  method ChooseHint(options: seq<string>, left: nat) returns (hint: string)
    ensures BestOf(options, left, hint) && ByteLen(hint) <= left
  {
    var shown := |options|;
    while shown >= 1
      invariant 0 <= shown <= |options|
      invariant forall k :: shown <= k < |options| ==> ByteLen(options[k]) > left
    {
      hint := options[shown - 1];
      if ByteLen(hint) <= left {
        assert IsPick(options, left, hint, shown - 1);
        return;
      }
      shown := shown - 1;
    }
    hint := "";
  }

  /** Only the first `n` parts matter to their bytes. */
  lemma {:induction false} BytesBeforeAgree(a: seq<string>, b: seq<string>, n: nat)
    requires n <= |a| && n <= |b| && forall i :: 0 <= i < n ==> a[i] == b[i]
    ensures BytesBefore(a, n) == BytesBefore(b, n)
  {
    if n > 0 { BytesBeforeAgree(a, b, n - 1); }
  }

  lemma TotalSnoc(parts: seq<string>, part: string)
    ensures TotalBytes(parts + [part]) == TotalBytes(parts) + ByteLen(part)
    ensures Flatten(parts + [part]) == Flatten(parts) + part
  {
    BytesBeforeAgree(parts + [part], parts, |parts|);
    assert (parts + [part])[..|parts|] == parts;
  }

  lemma HintsSnoc(offers: seq<seq<string>>, budget: nat, hints: seq<string>, hint: string)
    requires HintsFit(offers, budget, hints) && |hints| < |offers|
    requires BestOf(offers[|hints|], budget - TotalBytes(hints), hint)
    requires ByteLen(hint) <= budget - TotalBytes(hints)
    ensures HintsFit(offers, budget, hints + [hint])
    ensures TotalBytes(hints + [hint]) == TotalBytes(hints) + ByteLen(hint)
  {
    TotalSnoc(hints, hint);
    LastHintFits(offers, budget, hints, hint);
    forall i | 0 <= i < |hints + [hint]|
      ensures HintFits(offers, budget, hints + [hint], i)
    {
      if i < |hints| {
        assert HintFits(offers, budget, hints, i);
        HintStillFits(offers, budget, hints, hint, i);
      }
    }
  }

  lemma HintStillFits(offers: seq<seq<string>>, budget: nat, hints: seq<string>, hint: string, i: nat)
    requires i < |hints| < |offers| && HintFits(offers, budget, hints, i)
    ensures HintFits(offers, budget, hints + [hint], i)
  {
    BytesBeforeAgree(hints + [hint], hints, i);
  }

  lemma LastHintFits(offers: seq<seq<string>>, budget: nat, hints: seq<string>, hint: string)
    requires |hints| < |offers| && TotalBytes(hints) <= budget
    requires BestOf(offers[|hints|], budget - TotalBytes(hints), hint)
    ensures HintFits(offers, budget, hints + [hint], |hints|)
  {
    BytesBeforeAgree(hints + [hint], hints, |hints|);
  }

  method ChooseHints(offers: seq<seq<string>>, budget: nat) returns (hints: seq<string>)
    ensures |hints| == |offers| && HintsFit(offers, budget, hints)
  {
    var remaining := budget;
    hints := [];
    for i := 0 to |offers|
      invariant |hints| == i && HintsFit(offers, budget, hints)
      invariant remaining == budget - TotalBytes(hints)
    {
      var hint := ChooseHint(offers[i], remaining);
      HintsSnoc(offers, budget, hints, hint);
      remaining := remaining - ByteLen(hint);
      hints := hints + [hint];
    }
  }

  method Render(header: string, lines: seq<string>) returns (text: string)
    ensures text == header + Flatten(lines)
  {
    text := header;
    for i := 0 to |lines|
      invariant text == header + Flatten(lines[..i])
    {
      assert lines[..i + 1] == lines[..i] + [lines[i]];
      TotalSnoc(lines[..i], lines[i]);
      text := text + lines[i];
    }
    assert lines[..|lines|] == lines;
  }

  /** None without visible servers; otherwise the header and one line per server, hints spent in order. */
  method ConfiguredToc(c: Toml, active: Active, stored: Option<Cache>) returns (toc: Option<string>, hints: seq<string>)
    ensures toc.None? <==> active.acl.servers == {}
    ensures toc.Some? ==>
              var servers := active.AllowedServers();
              && |hints| == |servers|
              && HintsFit(Offers(active, MatchingSummaries(c, active, stored), servers), Budget(c, servers), hints)
              && toc.value == "\n\nConfigured servers:\n" + Flatten(Lines(c, servers, hints))
              && ByteLen(toc.value) <= if BaseLen(c, servers) > 3000 then BaseLen(c, servers) else 3000
  {
    var servers := active.AllowedServers();
    if servers == [] {
      assert forall s :: s in active.acl.servers ==> s in servers;
      return None, [];
    }
    assert servers[0] in servers;
    var offers := Offers(active, MatchingSummaries(c, active, stored), servers);
    hints := ChooseHints(offers, Budget(c, servers));
    TocIsBounded(c, offers, servers, hints);
    var text := Render(HEADER, Lines(c, servers, hints));
    return Some(text), hints;
  }

  /* ---------- the bounds ---------- */

  lemma {:induction false} FlattenBytes(parts: seq<string>)
    ensures ByteLen(Flatten(parts)) == TotalBytes(parts)
  {
    if parts != [] {
      var front, last := parts[..|parts| - 1], parts[|parts| - 1];
      assert parts == front + [last];
      FlattenBytes(front);
      TotalSnoc(front, last);
      ByteLenConcat(Flatten(front), last);
    }
  }

  lemma {:induction false} PrefixBytes(s: string, k: nat)
    requires k <= |s|
    ensures ByteLen(s[..k]) <= ByteLen(s)
  {
    assert s == s[..k] + s[k..];
    ByteLenConcat(s[..k], s[k..]);
  }

  lemma EntryEndsLine(c: Toml, server: string)
    ensures var e := Entry(c, server); |e| > 0 && e[|e| - 1] == '\n'
  {
  }

  /** Re-ending a trimmed entry never makes it longer than it was. */
  lemma LineBytes(c: Toml, server: string, hint: string)
    ensures ByteLen(Line(c, server, hint)) <= ByteLen(Entry(c, server)) + ByteLen(hint)
  {
    var e := Entry(c, server);
    EntryEndsLine(c, server);
    var front := e[..|e| - 1];
    assert e == front + "\n" && TrimEnd(e) == TrimEnd(front);
    var k := TrimEndCuts(front);
    PrefixBytes(front, k);
    ByteLenConcat(front, "\n");
    ByteLenConcat(TrimEnd(e), hint);
    ByteLenConcat(TrimEnd(e) + hint, "\n");
  }

  lemma {:induction false} BytesCompare(lines: seq<string>, entries: seq<string>, hints: seq<string>, n: nat)
    requires n <= |lines| == |entries| == |hints|
    requires forall i :: 0 <= i < |lines| ==> ByteLen(lines[i]) <= ByteLen(entries[i]) + ByteLen(hints[i])
    ensures BytesBefore(lines, n) <= BytesBefore(entries, n) + BytesBefore(hints, n)
  {
    if n > 0 { BytesCompare(lines, entries, hints, n - 1); }
  }

  lemma LinesBytes(c: Toml, servers: seq<string>, hints: seq<string>)
    requires |hints| == |servers|
    ensures TotalBytes(Lines(c, servers, hints)) <= TotalBytes(Entries(c, servers)) + TotalBytes(hints)
  {
    var lines, entries := Lines(c, servers, hints), Entries(c, servers);
    forall i | 0 <= i < |servers|
      ensures ByteLen(lines[i]) <= ByteLen(entries[i]) + ByteLen(hints[i])
    {
      LineBytes(c, servers[i], hints[i]);
    }
    BytesCompare(lines, entries, hints, |servers|);
  }

  /** The text is never longer than the budget, unless the server lines alone already are. */
  lemma TocIsBounded(c: Toml, offers: seq<seq<string>>, servers: seq<string>, hints: seq<string>)
    requires |hints| == |servers| && HintsFit(offers, Budget(c, servers), hints)
    ensures ByteLen(HEADER + Flatten(Lines(c, servers, hints)))
         <= if BaseLen(c, servers) > 3000 then BaseLen(c, servers) else 3000
  {
    LinesBytes(c, servers, hints);
    FlattenBytes(Lines(c, servers, hints));
    ByteLenConcat(HEADER, Flatten(Lines(c, servers, hints)));
  }

  /* ---------- one line each ---------- */

  predicate OneLine(s: string) {
    '\n' !in s
  }

  /** `line` begins with the server's name and holds no line break but its last character. */
  ghost predicate IsLineOf(server: string, line: string) {
    "- " + server <= line && line[|line| - 1] == '\n' && OneLine(line[..|line| - 1])
  }

  lemma {:induction false} DecimalOneLine(n: nat)
    ensures OneLine(Decimal(n))
  {
    if n >= 10 { DecimalOneLine(n / 10); }
  }

  lemma {:induction false} JoinOneLine(names: seq<string>)
    requires forall i :: 0 <= i < |names| ==> OneLine(names[i])
    ensures OneLine(CommaJoin(names))
  {
    if |names| > 1 { JoinOneLine(names[1..]); }
  }

  lemma CleanIsOneLine(s: string)
    ensures Clean(s) ==> OneLine(s)
  {
  }

  lemma {:induction false} PermittedOneLine(active: Active, server: string, summary: seq<(string, string)>)
    ensures forall name :: name in PermittedNames(active, server, summary) ==> OneLine(name)
  {
    if summary != [] {
      var last := |summary| - 1;
      PermittedOneLine(active, server, summary[..last]);
      NeutralizeIsClean(summary[last].0);
      CleanIsOneLine(SanitizeIdentifier(summary[last].0));
    }
  }

  lemma OptionsOneLine(active: Active, summaries: Summaries, server: string, k: nat)
    requires k < |NamesFor(active, summaries, server)|
    ensures OneLine(Options(NamesFor(active, summaries, server))[k])
  {
    var names := NamesFor(active, summaries, server);
    PermittedOneLine(active, server, summaries[server]);
    JoinOneLine(names[..k + 1]);
    DecimalOneLine(|names| - (k + 1));
  }

  lemma HintOneLine(active: Active, summaries: Summaries, server: string, left: nat, hint: string)
    requires BestOf(Options(NamesFor(active, summaries, server)), left, hint)
    ensures OneLine(hint)
  {
    var options := Options(NamesFor(active, summaries, server));
    if hint != "" {
      var k :| 0 <= k < |options| && IsPick(options, left, hint, k);
      OptionsOneLine(active, summaries, server, k);
    }
  }

  /** Trimming the end of a line keeps any front part that ends in a visible character. */
  lemma TrimKeepsHead(front: string, head: string)
    requires head != "" && head <= front && !White(head[|head| - 1])
    ensures head <= TrimEnd(front + "\n") <= front
  {
    var e := front + "\n";
    assert e[..|e| - 1] == front;
    var k := TrimEndCuts(front);
    var last := |head| - 1;
    assert front[last] == head[last];
    forall j | k <= j < |front|
      ensures White(front[j])
    {
      assert front[k..][j - k] == front[j];
    }
    assert last < k;
  }

  lemma NameIsVisible(server: string)
    requires ValidServerName(server)
    ensures OneLine(server) && !White(server[|server| - 1])
  {
  }

  lemma EntryShape(c: Toml, server: string) returns (front: string)
    requires ValidServerName(server)
    ensures Entry(c, server) == front + "\n"
    ensures "- " + server <= front && OneLine(front)
  {
    var d := Described(c, server);
    front := if d != "" then "- " + server + ": " + d else "- " + server;
    NameIsVisible(server);
    if server in c.servers && c.servers[server].description.Some? {
      NeutralizeIsClean(c.servers[server].description.value);
    }
    CleanIsOneLine(d);
  }

  /** A server's line begins with its name and contains no line break but its last character. */
  lemma LineIsOneLine(c: Toml, server: string, hint: string)
    requires ValidServerName(server) && OneLine(hint)
    ensures IsLineOf(server, Line(c, server, hint))
  {
    var front := EntryShape(c, server);
    NameIsVisible(server);
    var head := "- " + server;
    TrimKeepsHead(front, head);
    var body := TrimEnd(front + "\n");
    var line := Line(c, server, hint);
    assert line == body + hint + "\n";
    assert line[..|line| - 1] == body + hint;
    assert OneLine(body) by {
      assert forall i :: 0 <= i < |body| ==> body[i] == front[i];
    }
  }

  lemma ChosenHintOneLine(active: Active, summaries: Summaries, servers: seq<string>, budget: nat, hints: seq<string>, i: nat)
    requires HintsFit(Offers(active, summaries, servers), budget, hints) && i < |hints|
    ensures OneLine(hints[i])
  {
    var offers := Offers(active, summaries, servers);
    assert HintFits(offers, budget, hints, i);
    assert offers[i] == Options(NamesFor(active, summaries, servers[i]));
    HintOneLine(active, summaries, servers[i], budget - BytesBefore(hints, i), hints[i]);
  }

  /** The table has exactly one line for every visible server, in increasing order of name. */
  lemma OneLinePerServer(c: Toml, active: Active, summaries: Summaries, hints: seq<string>)
    requires forall s :: active.IsServerAllowed(s) ==> ValidServerName(s)
    requires |hints| == |active.AllowedServers()|
    requires HintsFit(Offers(active, summaries, active.AllowedServers()), Budget(c, active.AllowedServers()), hints)
    ensures var servers := active.AllowedServers();
            && StrictlySorted(servers) && (forall s :: s in servers <==> active.IsServerAllowed(s))
            && forall i :: 0 <= i < |servers| ==> IsLineOf(servers[i], Lines(c, servers, hints)[i])
  {
    var servers := active.AllowedServers();
    forall i | 0 <= i < |servers|
      ensures IsLineOf(servers[i], Lines(c, servers, hints)[i])
    {
      assert servers[i] in servers;
      ChosenHintOneLine(active, summaries, servers, Budget(c, servers), hints, i);
      LineIsOneLine(c, servers[i], hints[i]);
    }
  }

  /** Showing more names can take less room, because the count of omitted names goes away. */
  lemma HintsAreNotMonotone()
    ensures exists names: seq<string> :: |names| == 2 && ByteLen(Hint(names, 2)) < ByteLen(Hint(names, 1))
  {
    var names := ["a", "b"];
    assert names[..1] == ["a"] && names[..2] == names && names[1..] == ["b"];
    assert Decimal(1) == "1";
    assert Hint(names, 1) == " (tools: a +1 more)";
    assert Hint(names, 2) == " (tools: a, b)";
    Ascii(Hint(names, 1));
    Ascii(Hint(names, 2));
  }

  lemma {:induction false} Ascii(s: string)
    requires forall i :: 0 <= i < |s| ==> s[i] < 128 as char
    ensures ByteLen(s) == |s|
  {
    if s != "" { Ascii(s[..|s| - 1]); }
  }

  /* ---------- what the lines and hints show ---------- */

  /** `names` are, in order and one for each, the display names of the entries of `summary` at `ks`, which are the permitted ones. */
  ghost predicate NamesAt(active: Active, server: string, summary: seq<(string, string)>, ks: seq<nat>, names: seq<string>) {
    && |ks| == |names| && Increasing(ks)
    && (forall j :: 0 <= j < |ks| ==>
          && ks[j] < |summary|
          && active.IsToolAllowed(server, summary[ks[j]].0)
          && names[j] == SanitizeIdentifier(summary[ks[j]].0))
    && (forall k :: 0 <= k < |summary| && active.IsToolAllowed(server, summary[k].0) ==> k in ks)
  }

  /** One more summary entry adds one more name at the end, or none. */
  lemma PermittedNamesSnoc(active: Active, server: string, front: seq<(string, string)>, entry: (string, string))
    ensures PermittedNames(active, server, front + [entry])
         == var before := PermittedNames(active, server, front);
            if active.IsToolAllowed(server, entry.0) then before + [SanitizeIdentifier(entry.0)] else before
  {
    assert (front + [entry])[..|front|] == front;
  }

  lemma NamesAtMore(active: Active, server: string, front: seq<(string, string)>, entry: (string, string), ks: seq<nat>, names: seq<string>)
    requires NamesAt(active, server, front, ks, names) && active.IsToolAllowed(server, entry.0)
    ensures NamesAt(active, server, front + [entry], ks + [|front|], names + [SanitizeIdentifier(entry.0)])
  {
    var summary, more := front + [entry], ks + [|front|];
    assert more[|ks|] == |front|;
    forall k | 0 <= k < |summary| && active.IsToolAllowed(server, summary[k].0)
      ensures k in more
    {
      if k < |front| { assert front[k] == summary[k] && k in ks; }
    }
  }

  lemma NamesAtSame(active: Active, server: string, front: seq<(string, string)>, entry: (string, string), ks: seq<nat>, names: seq<string>)
    requires NamesAt(active, server, front, ks, names) && !active.IsToolAllowed(server, entry.0)
    ensures NamesAt(active, server, front + [entry], ks, names)
  {
    var summary := front + [entry];
    forall k | 0 <= k < |summary| && active.IsToolAllowed(server, summary[k].0)
      ensures k in ks
    {
      assert front[k] == summary[k];
    }
  }

  lemma NamesAtSnoc(active: Active, server: string, front: seq<(string, string)>, entry: (string, string), ks: seq<nat>)
    returns (more: seq<nat>)
    requires NamesAt(active, server, front, ks, PermittedNames(active, server, front))
    ensures NamesAt(active, server, front + [entry], more, PermittedNames(active, server, front + [entry]))
  {
    PermittedNamesSnoc(active, server, front, entry);
    if active.IsToolAllowed(server, entry.0) {
      NamesAtMore(active, server, front, entry, ks, PermittedNames(active, server, front));
      more := ks + [|front|];
    } else {
      NamesAtSame(active, server, front, entry, ks, PermittedNames(active, server, front));
      more := ks;
    }
  }

  lemma {:induction false} NamesAreShown(active: Active, server: string, summary: seq<(string, string)>) returns (ks: seq<nat>)
    ensures NamesAt(active, server, summary, ks, PermittedNames(active, server, summary))
    decreases |summary|
  {
    ks := [];
    if summary != [] {
      var front, entry := summary[..|summary| - 1], summary[|summary| - 1];
      ks := NamesAreShown(active, server, front);
      ks := NamesAtSnoc(active, server, front, entry, ks);
      assert summary == front + [entry];
    }
  }

  /** Names with `", "` between each two. */
  ghost function Interleaved(names: seq<string>): seq<string> {
    seq(if names == [] then 0 else 2 * |names| - 1, i requires 0 <= i < 2 * |names| - 1 => if i % 2 == 0 then names[i / 2] else ", ")
  }

  lemma InterleavedCons(names: seq<string>)
    requires |names| > 1
    ensures Interleaved(names) == [names[0]] + ([", "] + Interleaved(names[1..]))
  {
  }

  lemma {:induction false} CommaJoinIsFlat(names: seq<string>)
    ensures CommaJoin(names) == Flatten(Interleaved(names))
    decreases |names|
  {
    if |names| == 1 {
      assert Interleaved(names) == [names[0]];
      FlattenOne(names[0]);
    } else if |names| > 1 {
      CommaJoinIsFlat(names[1..]);
      InterleavedCons(names);
      FlattenCons(names[0], [", "] + Interleaved(names[1..]));
      FlattenCons(", ", Interleaved(names[1..]));
      assert names[0] + ", " + CommaJoin(names[1..]) == names[0] + (", " + CommaJoin(names[1..]));
    }
  }

  /** `hint` shows the first `k` of the names, and how many are left out if any are. */
  ghost predicate ShowsNames(names: seq<string>, k: nat, hint: string)
    requires k <= |names|
  {
    var shown := " (tools: " + Flatten(Interleaved(names[..k]));
    if k == |names| then hint == shown + ")"
    else exists count :: Numeral(count, |names| - k) && hint == shown + (" +" + count + " more") + ")"
  }

  lemma HintShows(names: seq<string>, k: nat)
    requires k <= |names|
    ensures ShowsNames(names, k, Hint(names, k))
  {
    CommaJoinIsFlat(names[..k]);
    if k < |names| {
      DecimalIsNumeral(|names| - k);
      assert Numeral(Decimal(|names| - k), |names| - k);
    } else {
      assert Hint(names, k) == " (tools: " + CommaJoin(names[..k]) + "" + ")";
    }
  }

  /** A server is offered one hint for each prefix of its permitted names, and each hint shows that prefix. */
  lemma OffersShow(active: Active, summaries: Summaries, servers: seq<string>, i: nat) returns (names: seq<string>, ks: seq<nat>)
    requires i < |servers|
    ensures var summary := if servers[i] in summaries then summaries[servers[i]] else [];
            NamesAt(active, servers[i], summary, ks, names)
    ensures |Offers(active, summaries, servers)| == |servers| && |Offers(active, summaries, servers)[i]| == |names|
    ensures forall k :: 0 <= k < |names| ==> ShowsNames(names, k + 1, Offers(active, summaries, servers)[i][k])
  {
    var summary := if servers[i] in summaries then summaries[servers[i]] else [];
    names := NamesFor(active, summaries, servers[i]);
    ks := NamesAreShown(active, servers[i], summary);
    OptionsShow(names);
    assert Offers(active, summaries, servers)[i] == Options(names);
  }

  lemma OptionsShow(names: seq<string>)
    ensures |Options(names)| == |names| && forall k :: 0 <= k < |names| ==> ShowsNames(names, k + 1, Options(names)[k])
  {
    forall k | 0 <= k < |names|
      ensures ShowsNames(names, k + 1, Options(names)[k])
    {
      HintShows(names, k + 1);
    }
  }

  /** Hints may use what the header and the server lines leave of 3000 bytes. */
  lemma BudgetIsRest(c: Toml, servers: seq<string>)
    ensures Budget(c, servers) + BaseLen(c, servers) == if BaseLen(c, servers) > 3000 then BaseLen(c, servers) else 3000
    ensures BaseLen(c, servers) == ByteLen("\n\nConfigured servers:\n" + Flatten(Entries(c, servers)))
  {
    FlattenBytes(Entries(c, servers));
    ByteLenConcat(HEADER, Flatten(Entries(c, servers)));
  }

  /** The sanitised description of a configured server, if it has any. */
  ghost predicate HasDescription(c: Toml, server: string, clean: string) {
    && server in c.servers && c.servers[server].description.Some?
    && clean == SanitizeRow(c.servers[server].description.value) && clean != ""
  }

  lemma TrimVisible(front: string)
    requires front != "" && !White(front[|front| - 1])
    ensures TrimEnd(front + "\n") == front
  {
    assert (front + "\n")[..|front|] == front;
  }

  /**
   A server's line is its name, its sanitised description without white space at the end exactly when
   there is one, its hint and a line break.
   */
  lemma LineShows(c: Toml, server: string, hint: string)
    requires ValidServerName(server)
    ensures (forall clean :: !HasDescription(c, server, clean)) ==> Line(c, server, hint) == "- " + server + hint + "\n"
    ensures forall clean :: HasDescription(c, server, clean) ==>
              exists shown :: TrimmedTo(clean, shown) && Line(c, server, hint) == "- " + server + ": " + shown + hint + "\n"
  {
    var clean := Described(c, server);
    NameIsVisible(server);
    if clean == "" {
      var front := "- " + server;
      assert front[|front| - 1] == server[|server| - 1];
      TrimVisible(front);
    } else {
      assert HasDescription(c, server, clean);
      NeutralizeIsClean(c.servers[server].description.value);
      DescriptionShows(server, clean);
    }
  }

  /** `shown` is `clean` up to its last visible character. */
  ghost predicate TrimmedTo(clean: string, shown: string) {
    shown != "" && shown <= clean && Blank(clean[|shown|..]) && !White(shown[|shown| - 1])
  }

  lemma DescriptionShows(server: string, clean: string)
    requires clean != "" && !White(clean[0])
    ensures exists shown :: TrimmedTo(clean, shown) && TrimEnd("- " + server + ": " + clean + "\n") == "- " + server + ": " + shown
  {
    var head := "- " + server + ": ";
    var shown := TrimEnd(clean);
    var k := TrimEndCuts(clean);
    assert clean[0..] == clean && !Blank(clean);
    assert TrimmedTo(clean, shown);
    TrimBehind(head, clean);
    assert head + clean + "\n" == (head + clean) + "\n";
    assert (head + clean + "\n")[..|head + clean|] == head + clean;
  }

  /** Trimming behind something stops where trimming alone would, if anything visible is left. */
  lemma {:induction false} TrimBehind(head: string, text: string)
    requires TrimEnd(text) != ""
    ensures TrimEnd(head + text) == head + TrimEnd(text)
    decreases |text|
  {
    var n := |text| - 1;
    if White(text[n]) {
      assert (head + text)[..|head + text| - 1] == head + text[..n];
      TrimBehind(head, text[..n]);
    }
  }
}
