# fanin-mcp, verified

A Dafny model of the parts of fanin-mcp that decide things: which servers and tools a session may see,
when an upstream connection or its cached inventory may be used, what text leaves the process, and when
a stored capability cache may be believed. Everything is stated over all inputs, or over every run of the
step system, with no bound of the model's own.

| file | what it holds |
|---|---|
| `Config`, `Inheritance`, `Resolver`, `ResolverCorrect`, `Acceptance`, `ResolverWork` | namespace inheritance: the memoised three-colour traversal, its meaning, its errors, exactly what it accepts, its work |
| `Names`, `Validation`, `ActiveNamespace` | startup validation and the session's access list |
| `Gate`, `Registry`, `RegistrySafety`, `RegistryObject`, `Session` | the lazy registry as a step system, and as the object whose sections are those steps |
| `Freshness`, `StaleRuns` | when the cached inventory may lag behind notifications |
| `Secrets`, `Redaction`, `StderrLog` | template resolution, redaction, the stderr line splitter |
| `Text`, `Display`, `Listing`, `Toc` | text shown to the model: sanitisers, list rows, the budgeted table of contents |
| `Capability`, `Calendar` | preflight check, fingerprint and cache, timestamp |

Two sides are kept apart. What the program does step by step (`Resolver.ResolverState`, `Validation`,
`RegistryObject.RegistryState`, `Secrets.SecretTable`, `StderrLog.Splitter`, `Toc`, `Listing`,
`Capability.RunCheck`) is imperative and proved equal to a function or to a relation on its input; the
theorems are about that function or relation, and say what it gives by positions, by fields or by an
inverse rather than by its own text. The registry object goes one step further: it carries the
history of its own steps, every section keeps that history a run of the step system, and so the theorems
about runs are theorems about the object.

## How to read the main results

* **Inheritance.** A successful resolve is the *meet* of everything reachable through `extends`: servers
  by union, a filter present exactly when some ancestor has one, and then the intersection of all of them.
  Acceptance is exact: the resolve succeeds if and only if the reachable graph is closed and acyclic and
  no *first walk* of 64 links ends at a namespace that itself extends something. A first walk is one whose
  end is reached by no parent listed earlier at any of its steps.
* **Registry.** Tasks, upstream changes, notifications, failures, timeouts and cancellations interleave
  freely; a step is what happens between two lock, atomic or await boundaries. `Freshness.Loses` is the
  guard of the two steps that can leave a stale cache; a run is fresh throughout if and only if it takes
  no such step, both kinds of run that do are exhibited, and excluding overlapping refetches and cancelled
  refetches excludes them. Where they leave an entry stuck, only another notification frees it.
* **Redaction.** A secret is removed from every text, whatever other secrets are registered and in
  whatever order the set is walked, if and only if it cannot be laid to overlap the text `[REDACTED]`
  with all shared positions agreeing (`Redaction.Apart`).

## Where the code and its own documentation differ

The model follows the code.

* `src/config.rs:48-52` calls the depth constant the maximum number of `extends` links. The check comes
  before the memo lookup, so longer chains are accepted when an earlier parent already finished their far
  end (`Acceptance.OrderDecidesAcceptance`).
* `src/registry.rs:340` calls a double refetch benign. Two refetches can install in the wrong order,
  and a cancelled one does not restore the flag (`StaleRuns`).
* `src/server.rs:326-329` says `default` and `examples` are untouched. A string under one of the four
  annotation names is neutralised inside them too (`Display.DefaultIsTouched`; a value is untouched
  exactly under the condition of `Display.UntouchedExactly`).
* `src/server.rs:479-480` says capping a displayed tool name does not change dispatch identity. A row
  whose name was changed does not call back to its own tool (`Listing.LongNameCallsAnother`; the exact condition is
  in `Listing.ListedToolIsCallable`).

## Model

| member | source | states |
|---|---|---|
| Config.MergeToolFilters | src/config.rs:283-295 | merging filters one server at a time, in any order, intersects where both sides filter a server and keeps whichever filter exists otherwise; an empty filter stays present |
| Config.MergeResolvedNamespace | src/config.rs:278-281 | a parent merges into the accumulated list by union of servers and by the merge of filters |
| Inheritance.ReachUnfold | src/config.rs:258-262 | what a namespace reaches is itself and all that its parents reach |
| Inheritance.MeetOfUnion | src/config.rs:278-295 | merging two meets is the meet of the union of their namespaces, so diamonds and repeated parents change nothing |
| Inheritance.MeetOfOne | src/config.rs:264-271 | a namespace's own servers and filters are the meet of itself alone |
| Inheritance.MeetAllows | src/namespace.rs:61-68 | a tool is allowed by a meet exactly when its server is listed by some member and every member that filters that server lists the tool |
| Resolver.ResolverState.Inner | src/config.rs:211-276 | the in-place traversal over the two shared tables returns and leaves behind exactly what the traversal function says |
| Resolver.ResolveNamespace | src/config.rs:202-209 | a whole resolve from empty tables gives the specified result |
| ResolverCorrect.VisitSound | src/config.rs:211-276 | from any consistent tables a call yields the meet of what its namespace reaches, marks exactly those namespaces done and keeps the colour invariant, or fails with an error whose cause is real |
| ResolverCorrect.VisitParentsSound | src/config.rs:258-262 | the loop over parents accumulates the meet of all namespaces the parents reach, and marks exactly those done |
| ResolverCorrect.DoneIsClosed | src/config.rs:230-236 | everything reachable from a finished namespace is finished, so the memo answers for whole subgraphs |
| ResolverCorrect.ResolveIsMeet | src/config.rs:202-276 | a successful resolve is the meet over all reachable namespaces |
| ResolverCorrect.ResolveDenotes | src/config.rs:248-295 | servers are the union over reachable namespaces; a filter is present exactly when some reachable namespace has one, and then holds exactly the tools all of them list |
| ResolverCorrect.ErrorsAreExact | src/config.rs:219-250 | a cycle error names a namespace that really reaches itself, a missing-parent error a real dangling link, a depth error a walk of 65 links |
| ResolverCorrect.FallbackNeverFires | src/config.rs:232-236 | in no resolve of any configuration does the traversal meet a finished namespace the memo does not hold |
| ResolverCorrect.OkIsClosedAndAcyclic | src/config.rs:226-250 | success means no reachable namespace is unknown or on a cycle |
| ResolverCorrect.ShallowGraphsResolve | src/config.rs:219-224 | a closed acyclic graph whose walks have at most 64 links always resolves |
| ResolverCorrect.LeastPrivilege | src/config.rs:258-295 | a tool allowed in a namespace is allowed in every ancestor that has its server |
| ResolverCorrect.ParentOrderIrrelevant | src/config.rs:258-295 | reordering or repeating `extends` entries never changes a resolved access list |
| Acceptance.VisitAccepts | src/config.rs:219-276 | from any consistent tables, a call on a good graph succeeds exactly when no first walk of the remaining depth ends, outside what is already done, at a namespace that extends something |
| Acceptance.AcceptsExactly | src/config.rs:202-276 | a resolve succeeds if and only if the reachable graph is closed, acyclic and has no first walk of 64 links ending at a namespace that extends something |
| Acceptance.OrderDecidesAcceptance | src/config.rs:219-236 | two configurations that differ only in the order of one `extends` list: one is accepted although it has a walk of 65 links, the other is too deep |
| ResolverWork.VisitWork | src/config.rs:211-276 | on behalf of any call, recursion stays within depth 65, only unvisited namespaces are processed, and calls are bounded by one plus the links followed |
| ResolverWork.LinksAreDistinct | src/config.rs:258-262 | the links followed are distinct links of distinct namespaces |
| ResolverWork.ResolveWork | src/config.rs:211-276 | one resolve never goes past depth 65, runs each namespace body at most once, and makes at most one call more than there are `extends` links in reachable namespaces |
| Names.JoinThenParse | src/server.rs:431-437 | a valid server name and any non-empty tool name, underscores included, parse back to exactly that pair |
| Names.ParseThenJoin | src/server.rs:431-437 | any parse result re-joins to its input, and its server part neither contains `__` nor ends in `_` |
| Names.ParseFails | src/server.rs:431-437 | parsing fails exactly when there is no `__` or the first one leaves a side empty |
| Names.ParseExactly | src/server.rs:431-437 | parsing gives a pair if and only if both are non-empty and the name is the pair around its first `__` |
| Validation.CheckServerNames | src/config.rs:323-325 | succeeds only when every server name is valid, and otherwise blames one that is not |
| Validation.CheckTransports | src/config.rs:329-339 | succeeds only when every transport is one of the two, and otherwise blames one that is not |
| Validation.CheckRequiredFields | src/config.rs:342-368 | succeeds only when every working directory given is non-blank and every server has the non-blank command or endpoint its transport needs |
| Validation.CheckNamespace | src/config.rs:389-407 | accepts exactly the namespaces that resolve to configured servers with filters only on their own servers |
| Validation.Validate | src/config.rs:319-410 | accepts exactly the valid configurations; every error describes a fault the configuration has, and every kind of fault checked earlier is absent |
| Validation.ValidExactly | src/config.rs:319-417 | valid, field by field: names of lower-case letters, digits and hyphens, a non-blank command for stdio or an omitted transport, a non-blank endpoint for HTTP, no third transport, a selected namespace that exists, and every namespace resolving to configured servers with filters on its own servers only |
| Validation.ValidatedIsTotal | src/namespace.rs:25-44 | after validation the session's namespace resolves, so building it cannot panic; its servers are configured with a supported transport and its filters are on effective servers |
| Validation.SelectionIsExact | src/namespace.rs:25-44 | the session runs in the selected namespace, or in `default` when none is selected, under exactly its resolved access list |
| Validation.ValidatedGraph | src/config.rs:389-407 | after validation every namespace's ancestry is closed and acyclic, and the session's list is the meet of its chain |
| ActiveNamespace.Active.AllowedServers | src/namespace.rs:71-75 | visible servers strictly sorted, all of them and no others |
| Text.SortedUnique | src/namespace.rs:71-75 | a strictly sorted sequence is determined by its members, so the order does not depend on hash iteration |
| Text.DecimalIsNumeral | src/server.rs:115-124 | a printed count reads back as its number and has no leading zero |
| Text.CharBytesAreUtf8 | src/server.rs:101-126 | the bytes charged for a character are the length of an encoding that decodes to it, as in section 3 of RFC 3629 |
| Gate.InvokeAdmittedExactly | src/server.rs:335-405 | an invoke request naming a server and tool is admitted for exactly that pair if the server is configured and the tool allowed, and otherwise refused with the matching error |
| Gate.AdmitsExactly | src/server.rs:201-405 | a request is admitted for a server and goal if and only if its own fields ask for exactly that and it is permitted |
| Gate.SchemaAdmittedExactly | src/server.rs:268-318 | a schema request naming a server and tool is refused as unknown or denied, or admitted for exactly that schema |
| Gate.ServerListAdmittedExactly | src/server.rs:215-233 | a list request for one server is refused as unknown or denied, or admitted for that server and no other |
| Gate.FullListAdmittedExactly | src/server.rs:234-242 | a list request without a server visits all visible servers in sorted order, is empty when there are none, or stops at the least visible one if that is not configured |
| Gate.MalformedRefused | src/server.rs:268-405 | requests that name no tool, calls without an arguments object and unknown meta-tools are refused as such |
| Gate.DeniedExactly | src/server.rs:302-318 | both tool requests are refused as unknown exactly when the server is not configured and as denied exactly when it is and the tool is not allowed |
| Gate.UnfilteredListNeverRefused | src/server.rs:233-242 | when visible servers are configured, listing without a filter never meets an unknown server |
| RegistrySafety.StepKeepsInv | src/registry.rs:115-209 | every step keeps: guards have their holder inside the guarded section, entries are live and inventoried, and a live connection is installed or being built by its server's guard holder |
| RegistrySafety.SingleConnection | src/registry.rs:115-209 | in every state of every run two live connections to one server are the same connection |
| RegistrySafety.EntriesGrow | src/registry.rs:204-208 | over a run an entry is never removed or replaced |
| RegistrySafety.SameEntryForAll | src/registry.rs:115-209 | all successful `get_or_connect` calls for a server in a run return one entry |
| RegistrySafety.NoDeadlock | src/registry.rs:115-209 | in every state of every run an unfinished task can take a step of its own, or waits for a guard whose holder can |
| RegistrySafety.AdverseStepsCanHappen | src/registry.rs:115-377 | nothing adverse is ruled out: in every state of every run requests may arrive, connects, list requests and calls may fail, a call may be cancelled wherever it awaits, and upstreams may change and announce it |
| RegistrySafety.ReadsSeeCache | src/registry.rs:215-220 | every read or forward a step logs, repeated ones included, is of the inventory cached at that step in its server's one entry |
| RegistrySafety.EveryReadIsLogged | src/registry.rs:215-243 | a task that comes to its entry's inventory logs the read, however often that inventory was read before |
| RegistrySafety.RunsRespectAcl | src/server.rs:201-427 | in every run, connections are to visible servers only and forwarded calls are for allowed tools |
| RegistrySafety.RequestBecomesTask | src/server.rs:201-427 | a request step adds a task exactly for what the request asks for, when that is permitted, and touches no other task |
| RegistrySafety.ForwardChecksCache | src/registry.rs:236-252 | every forwarded call, repeated ones included, is for an allowed tool in the inventory cached, at that step, in its server's one entry |
| Freshness.StepFreshness | src/registry.rs:329-377 | from a fresh state, the next state is stale exactly when the step is a losing one |
| Freshness.FreshnessIsExact | src/registry.rs:329-377 | a run is fresh in every state if and only if it takes no losing step |
| Freshness.CarefulRunsAreFresh | src/registry.rs:329-377 | as long as no refetches of one server have overlapped and none has been cancelled, every entry is fresh, notifications during the first connect included |
| Freshness.ReadsAreCurrent | src/registry.rs:215-237 | under the same hypotheses, every read a request makes after `ensure_fresh` is at least as new as the last notification, unless the flag is set again or another task is still bringing the entry up to date |
| Freshness.StuckUntilNotified | src/registry.rs:329-377 | an unmarked entry that is behind, with no task refetching, installing or about to mark it, stays so in every continuation until its connection is notified again |
| Freshness.StuckReadsAreBehind | src/registry.rs:215-252 | until then every read and every forwarded call uses an inventory older than the last notification |
| Freshness.RunVersions | src/forward.rs:233-244 | notifications never run ahead of the upstream's inventory, an unfinished connection that was notified has its flag set, and an answer is at least as new as what was notified when its refetch began |
| StaleRuns.CancelledRefetchGoesStale | src/server.rs:414-427 | a run without overlapping refetches in which a cancelled call leaves a stale cache that only another notification can end |
| StaleRuns.OverlappingRefetchesGoStale | src/registry.rs:372-375 | a run without cancelled refetches in which an older inventory overwrites a newer one and stays until another notification |
| StaleRuns.LoserForwardsBehind | src/registry.rs:339-345 | a run with neither overlap nor cancellation in which the task that loses the swap forwards, against the old inventory, a tool its upstream no longer offers |
| RegistryObject.RegistryState.FastLookup | src/registry.rs:116-118 | keeps the object a run; without any guard an entry is returned only if it is a live connection to its server that holds an inventory |
| RegistryObject.RegistryState.FetchGuard | src/registry.rs:120-126 | keeps the object a run; afterwards the server has a guard and no existing guard has changed hands |
| RegistryObject.RegistryState.LockGuard | src/registry.rs:128 | keeps the object a run; mutual exclusion: no other task is inside the guarded section for the server, and none of its connections is half-built |
| RegistryObject.RegistryState.GuardedLookup | src/registry.rs:129-142 | keeps the object a run; a task goes on to connect, guard in hand, only while its server has no live connection at all; on every other way out the guard is free and a returned entry is ready |
| RegistryObject.RegistryState.Open | src/registry.rs:448-455 | keeps the object a run; the new connection is its server's only live one, starts unmarked and without inventory, and no other connection changes |
| RegistryObject.RegistryState.TakeFirstInventory | src/registry.rs:495-519 | keeps the object a run; a first inventory is not behind any notification unless the flag is set, notifications during the connect included |
| RegistryObject.RegistryState.TakeRefetched | src/registry.rs:351-352 | keeps the object a run; a refetched inventory is at least as new as what was notified when the flag was cleared |
| RegistryObject.RegistryState.InsertEntry | src/registry.rs:204-208 | keeps the object a run; the server had no entry and now has a ready one, marked or up to date, with its guard free |
| RegistryObject.RegistryState.LoadDirty | src/registry.rs:334-337 | keeps the object a run; the task works on its server's ready entry and goes for a swap exactly when that entry is marked |
| RegistryObject.RegistryState.SwapDirty | src/registry.rs:339-345 | keeps the object a run; the flag ends clear, and if it was set this task, and no other, has taken on a refetch of everything notified so far |
| RegistryObject.RegistryState.RestoreDirty | src/registry.rs:353-366 | keeps the object a run; after a failed or timed-out refetch the entry is marked, so it is fresh and a later request retries |
| RegistryObject.RegistryState.FailRefetch | src/registry.rs:353-366 | keeps the object a run; until the flag is set again the failing task stays pending for its entry, which is therefore still fresh |
| RegistryObject.RegistryState.InstallTools | src/registry.rs:371-375 | keeps the object a run; a refetch begun after the last notification brings its entry up to date, and no other connection changes |
| RegistryObject.RegistryState.CheckInventory | src/registry.rs:238-252 | keeps the object a run; a call is forwarded exactly when its tool is in the inventory cached in its server's ready entry, and then the access list allows it |
| RegistryObject.RegistryState.ReadInventory | src/registry.rs:215-220 | keeps the object a run; a schema or list request reads its server's ready entry, and a list request goes on only to a visible server |
| RegistryObject.RegistryState.OnToolListChanged | src/forward.rs:233-244 | keeps the object a run; a notification marks its own connection, which is fresh by that, and touches no other connection, entry, guard or task |
| RegistryObject.RegistryState.DropFuture | src/server.rs:414-427 | keeps the object a run; a call cancelled at any await leaves no guard held and nothing half-built alive, and every installed entry as it was |
| RegistryObject.RegistryState.FailRequest | src/registry.rs:190-203 | the same for a failed or timed-out connect or call |
| RegistryObject.RegistryState.StartRequest | src/server.rs:201-427 | keeps the object a run; a refused request changes nothing; an admitted one becomes exactly the server and goal the request asks for, which the access list allows, and no other task changes |
| RegistryObject.RegistryState.Sound | src/registry.rs:115-209 | between any two sections: structural and version invariants, access list over the whole log, one live connection per server, every entry ready |
| RegistryObject.StepIsKept | src/registry.rs:115-377 | what every section keeps: entries stay, one live connection per server, nothing outside the access list, and freshness unless the step is a losing one |
| Session.SessionRespectsConfiguration | src/server.rs:201-427 | from a validated configuration, whatever requests arrive: every connection is to a configured server some namespace of the chain lists, every forwarded call for a tool that all filters of the chain list and the cache holds |
| Session.ListVisitsEveryServer | src/server.rs:238-242 | in a validated session the unknown-server check inside the list loop never fires |
| Listing.ListRows | src/server.rs:238-261 | the loop over servers stops with the error of the first one that is unknown or whose inventory fails, and otherwise returns exactly the specified rows in order |
| Listing.RowsExactly | src/server.rs:247-260 | a row is shown if and only if some offered tool of some listed server is allowed and displays as that row |
| Listing.ServerRowsInOrder | src/server.rs:247-260 | a server's rows are, in order and one for each, those of the offered tools the access list allows, each with its server, sanitised name and sanitised description, empty if there is none |
| Listing.RowsInOrder | src/server.rs:238-261 | all rows are one block per server, in the order of the servers |
| Listing.RowsShowCachedTools | src/server.rs:243-260 | in every run a row made from any read, repeated ones included, shows an allowed tool of the inventory cached, when it was read, in its server's one entry |
| Listing.ListedToolIsCallable | src/server.rs:247-260 | sending a row's server and displayed name back invokes the row's own tool if and only if that name is non-empty, clean, trimmed and at most 200 characters |
| Listing.LongNameCallsAnother | src/server.rs:481-497 | calling back the row of a tool with a 201-character name invokes a different tool |
| Listing.IdentifierUnchanged | src/server.rs:481-497 | a displayed identifier equals the upstream's exactly when it is clean, trimmed and within the cap |
| Display.NeutralizeIsClean | src/server.rs:455-467 | neutralised text has no neutralised character and no white space at its ends |
| Display.NeutralizedExactly | src/server.rs:499-511 | the characters neutralised are the control characters, the zero-width characters, the two separators, the direction marks and the byte order mark |
| Display.NeutralizedText | src/server.rs:455-467 | neutralising keeps one stretch of the text, with a space for each neutralised character and every other character as it was; what is cut off on either side is only white space and neutralised characters, and the stretch starts and ends with neither |
| Display.CapsAreExact | src/server.rs:473-497 | a row description is the first 100 characters of the neutralised text, an identifier the first 200 |
| Display.NeutralizeFixed | src/server.rs:455-467 | text is unchanged by neutralising exactly when it is clean and trimmed; neutralising twice is neutralising once |
| Display.RowIdempotence | src/server.rs:473-477 | a second pass of the row sanitiser changes its output exactly when the cap left white space at the end |
| Display.RowNotIdempotent | src/server.rs:473-477 | there is text on which the row sanitiser is not idempotent |
| Display.SanitizeIsExact | src/server.rs:521-555 | every path of a schema keeps its keys, length and leaf, except strings held directly by an object under one of the four annotation names, which are neutralised wherever that object sits |
| Display.UntouchedExactly | src/server.rs:521-555 | a value comes back unchanged if and only if every string held directly by an object under an annotation name is clean and trimmed |
| Display.DefaultIsTouched | src/server.rs:326-331 | a concrete `default` value that comes back changed |
| Display.SanitizeIdempotent | src/server.rs:521-555 | sanitising a schema twice is sanitising it once |
| Display.AnnotationsAreClean | src/server.rs:550-555 | no annotation string of a sanitised schema holds a neutralised character |
| Toc.ChooseHint | src/server.rs:115-124 | the hint chosen is the one showing the most names among those that fit, or none if none fits |
| Toc.ChooseHints | src/server.rs:102-131 | each hint is the best for what the earlier ones left, and the budget never underflows |
| Toc.ConfiguredToc | src/server.rs:70-141 | nothing without visible servers; otherwise the header and one line per visible server in sorted order, with best-fitting hints out of those offered, never longer than the bound |
| Toc.OffersShow | src/server.rs:105-124 | the names offered for a server are, in order and one for each, the sanitised names of exactly those summary entries whose name the access list allows; hint k shows the first k of them separated by `", "`, then ` +m more` exactly when m > 0 are left out |
| Toc.LineShows | src/server.rs:83-97 | a server line shows the sanitised description, up to its last visible character, exactly when it is not empty, and then the hint and a line break |
| Toc.BudgetIsRest | src/server.rs:101-102 | hints may use what the header and the server lines leave of 3000 bytes |
| Toc.TocIsBounded | src/server.rs:101-140 | with any hints that fit, the text in UTF-8 bytes is at most 3000 or, if larger, the header and server lines alone |
| Toc.OneLinePerServer | src/server.rs:133-140 | each visible server has exactly one line, starting with its name and with no line break before its end |
| Toc.HintsAreNotMonotone | src/server.rs:115-124 | showing one more name can give a shorter hint |
| Secrets.TokensAreLossless | src/process.rs:86-108 | the tokens of a template spell it out again |
| Secrets.TokensAreWellFormed | src/process.rs:90-108 | variables have non-empty brace-free names; what is kept verbatim is `${}` or an unclosed rest |
| Secrets.TokensAreAReading | src/process.rs:86-108 | the tokens are a reading of the template: no literal starts a `${`, and an unclosed placeholder is the last token |
| Secrets.ReadingIsUnique | src/process.rs:86-108 | no other token list is a reading of the same template |
| Secrets.ErrorIsLeftmost | src/process.rs:109-122 | resolution succeeds exactly when every variable resolves from store or environment; otherwise the error names the leftmost that does not |
| Secrets.ExpansionIsPieces | src/process.rs:86-128 | a resolved token list is one piece per token: the character of a literal, the kept text as written, and for a variable the stored value if the store has one, else the environment's |
| Secrets.TemplateIsPieces | src/process.rs:77-130 | a template resolves to the pieces of its one reading, one after another |
| Secrets.PlainTextUnchanged | src/process.rs:83-85 | text without `${` resolves to itself and registers nothing, so the early return agrees with the scan |
| Secrets.SubstitutionsAreRegistered | src/process.rs:123-124 | every non-empty value a successful resolution substitutes is registered |
| Secrets.RegistersExactly | src/process.rs:109-124 | a value is registered if and only if it is non-empty and some variable, before any that does not resolve, stands for it |
| Secrets.ScanName | src/process.rs:90-99 | reads up to the first closing brace, or to the end if there is none |
| Secrets.SecretTable.Register | src/process.rs:51-59 | adds a non-empty secret and nothing else |
| Secrets.SecretTable.Redact | src/process.rs:62-73 | redacts in some listing of the whole set; no registered secret that is apart from the marker remains |
| Secrets.SecretTable.ResolvePlaceholder | src/process.rs:90-124 | one placeholder contributes the piece its token stands for and registers its value, or ends the scan with its error |
| Secrets.SecretTable.ResolveEnvValue | src/process.rs:77-130 | the one-pass scan gives exactly the token-by-token resolution and registers exactly the values substituted before any error |
| Redaction.NothingNew | src/process.rs:67-70 | replacing any secret never creates an occurrence of a string that is apart from the marker |
| Redaction.ReplaceIsExact | src/process.rs:67-70 | replacing cuts the text at the leftmost occurrences of the secret, one after another, and rejoins the pieces with `[REDACTED]` |
| Redaction.Removed | src/process.rs:67-70 | replacing a secret that is apart from the marker leaves no occurrence of it |
| Redaction.RedactionIsComplete | src/process.rs:62-73 | in any order, next to any other secrets, no secret apart from the marker remains |
| Redaction.RedactionIsExact | src/process.rs:62-73 | a secret is removed from every text in every order if and only if it is apart from the marker |
| Redaction.BracketFreeIsApart | src/process.rs:62-73 | a secret without brackets that is no part of `REDACTED` is apart from the marker |
| Redaction.BracketedSecretLeaks | src/process.rs:62-73 | a concrete secret that redaction leaves in its output |
| Redaction.RedactionIsIdempotent | src/process.rs:62-73 | redacting again, in any order, changes nothing when the secrets are apart from the marker |
| StderrLog.SplitIsExact | src/process.rs:457-480 | segments and tail are the input split at its line feeds |
| StderrLog.SplitIsUnique | src/process.rs:457-480 | no other split into line-feed-free pieces spells the input |
| StderrLog.LineIsBounded | src/process.rs:464-502 | a logged line is a prefix of its segment of at most 8192 bytes, marked exactly when the segment is longer, and otherwise whole but for one trailing CR |
| StderrLog.LoggedExactly | src/process.rs:457-502 | without a read error the log is one line per line-feed-ended segment in order and one for a non-empty tail; with one, a line per segment and then the error; a line is the first 8192 bytes of its segment less one final CR, cut exactly when there were more |
| StderrLog.ReadsUntilEnd | src/process.rs:450-487 | the bytes read are those of all chunks before the first empty read or failure, and nothing after it counts |
| StderrLog.StreamLoggedExactly | src/process.rs:444-502 | the same for a stream read in any chunks |
| StderrLog.Splitter.Accept | src/process.rs:463-472 | one byte keeps the buffer equal to the kept part of the tail, with the cut flag set only on a full buffer |
| StderrLog.Splitter.Emit | src/process.rs:489-502 | drops one trailing CR, logs the line with its cut flag and empties the buffer |
| StderrLog.Splitter.Drain | src/process.rs:444-487 | the loop over reads logs exactly the lines specified for the bytes read before the end, however they were chunked |
| Capability.FingerprintIsExact | src/check.rs:295-318 | fingerprints are equal if and only if namespace and access list are equal, absent and empty filters told apart, and visible servers are configured alike in the recorded fields |
| Capability.RecordedAlike | src/check.rs:543-568 | the recorded fields are the transport, stdio when omitted, command, arguments, endpoint, working directory, timeout and description, and no others |
| Capability.EqualFingerprintsSameAccess | src/check.rs:295-318 | configurations with equal fingerprints answer every access question alike |
| Capability.SummariesInsideAcl | src/check.rs:176-212 | whatever a cache file contains, what is read from it stays inside the live access list |
| Capability.RunCheck | src/check.rs:67-154 | a check of an invisible server fails at once; otherwise it covers the server asked for, or all visible ones when none is, and reports, errors and the cache entries of the servers that answered follow those servers in order |
| Capability.CheckErrorsExact | src/check.rs:90-154 | the errors are exactly the failed upstreams and the allow-listed tools their upstreams lack; there are none exactly when every server is healthy |
| Capability.ErrorsInOrder | src/check.rs:132-151 | the errors come in the order of the servers and, for one server, of the missing tools, each once |
| Capability.ReportsExactly | src/check.rs:90-152 | a server's report is good exactly when the server is healthy, and lists its upstream's tools, sorted and each once |
| Capability.SuccessIsChecked | src/check.rs:90-164 | a successful check has inventoried and cached every server it covers |
| Capability.EntriesExactly | src/check.rs:121-131 | a cache entry keeps the server's name, its configured description or none, and the inventory as it came |
| Capability.WritesExactly | src/check.rs:154-164 | a failed, filtered or no-write check leaves the stored cache as it was; any other replaces it by what it checked |
| Capability.WriteThenRead | src/check.rs:176-287 | reading back what a successful full check wrote gives, for every visible server, exactly the checked inventory filtered by the access list |
| Capability.PermittedToolsFilter | src/check.rs:197-211 | a tool is in a summary exactly when it was in the cached inventory and is allowed |
| Capability.PermittedInOrder | src/check.rs:197-211 | a summary is, in order and one for each, the names and descriptions of the permitted cached tools |
| Capability.CollectsExactly | src/check.rs:197-211 | a believed cache gives each visible server the summary of its last entry, and no other server any |
| Capability.BelievedExactly | src/check.rs:176-196 | a cache is believed only in format 1, for its own namespace and under an equal fingerprint |
| Capability.ChangedConfigurationIgnoresCache | src/check.rs:189-194 | after a change of access list or of a visible server's recorded fields the old cache is ignored |
| Calendar.CivilIsValid | src/check.rs:338-353 | every day number gives a date of the Gregorian calendar, and the standard inverse formula gives the number back |
| Calendar.CivilInverts | src/check.rs:338-353 | every valid date is the result for its own day number, so the conversion is a bijection |
| Calendar.CivilSuccessor | src/check.rs:338-353 | day n + 1 is the calendar successor of day n |
| Calendar.EpochIsDayZero | src/check.rs:338-353 | day 0 is 1970-01-01 and no later day falls before 1970 |
| Calendar.CivilOrder | src/check.rs:338-353 | dates are ordered as their day numbers |
| Calendar.MomentIsExact | src/check.rs:320-334 | date and time of day recover the whole second count, each in range |
| Calendar.FourDigitYears | src/check.rs:338-353 | a day falls in year 9999 or earlier exactly when it comes before day 2932897, which is 10000-01-01 |
| Calendar.StampOrder | src/check.rs:320-334 | up to year 9999 timestamps have 20 characters and sort as text exactly as they do in time |
| Calendar.StampText | src/check.rs:326-333 | a timestamp is year-month-day`T`hour:minute:second`Z`, each number in decimal and padded to its width |
| Calendar.StampReadsBack | src/check.rs:326-333 | up to year 9999 the marks stand at positions 4, 7, 10, 13, 16 and 19, and the six numbers between them read back as the date and time |
| Calendar.FiveDigitYearsSortFirst | src/check.rs:320-334 | the first second of year 10000 sorts before 1970 |
| Calendar.SortsAsTimeExactly | src/check.rs:320-334 | text order is time order for all instants below a bound if and only if the bound is at most the first second of year 10000 |

## Left out

- Process spawning, containment, process groups and teardown: operating-system behaviour; closing a connection is one step.
- HTTP transport, headers, the MCP handshake and rmcp: unseen libraries; a connection either answers, changes, notifies or fails.
- TOML and JSON text: values are taken as parsed, encoding and decoding as inverse, and JSON objects as maps without key order.
- Keyring, real environment, files and clock: the credential store and the environment are partial maps, the cache file an optional value, the time a number.
- The choice of a cache path and its validity check: a cache that cannot be located is one that is not stored.
- Registering resolved header values a second time and the check of a resolved working directory: one-branch extras around the template resolution that is modelled.
- Elicitation, sampling and roots handlers, log-message and progress forwarding: single-branch decisions.
- Command line, tracing, exit codes, tool descriptors and the text of error messages.
- Memory ordering of the atomics and real time: atomics are sequentially consistent, timeouts are failures that may happen at any await.
- Releasing a guard is part of the step that ends the guarded section, and dropping a half-built connection is part of the same step as the failure or cancellation.
- The result of an upstream call after it was forwarded: it ends the request without touching the registry.
- A list request that fetches its inventory in several pages: the answer is one snapshot of what the upstream offers at one moment.
- Registry entries are map values rather than shared heap objects, so aliasing of one entry between tasks is by its connection number.
- Hash iteration order is an arbitrary choice at every loop that has one.
- UTF-8 decoding of log lines and the log writer's queue: the splitter works on bytes and appends to a list.
