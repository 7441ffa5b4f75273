# Verification of the cq mesh, stores, crosstalk and installer

This project models the stateful parts of the repository in Dafny and proves properties of them over all inputs
and all runs. `dafny verify dfyconfig.toml` checks everything.

**Peer mesh** (`Mesh.dfy`, `MeshServer.dfy`). L2 servers keep a peer table, join an Enterprise through a seed's
`/aigrp/hello`, and learn more from announce floods and signature polls. The protocol is a step system in which a
fact, once sent, may be acted on late, repeatedly or never, and the seed's upsert and its later table read are two
steps. Authentication is an arbitrary relation between L2s. `L2Server` is the table with the handlers and loops
that update it. `Lookup.dfy` is the merge, rank, filter and cap step of the automatic lookup.

**Local store and drain** (`Units.dfy`, `Text.dfy`, `Scoring.dfy`, `Ranking.dfy`, `Store.dfy`, `DrainProtocol.dfy`,
`FreshIds.dfy`, `LocalTier.dfy`, `AcceptedOnce.dfy`, `FeedbackHistory.dfy`, `Client.dfy`). `LocalStore` has the three
tables as fields; a fault number says after which statement a transaction fails, and a failed transaction leaves all
three as they were. The full-text answer is an arbitrary set of ids. `DrainProtocol` interleaves any number of Propose,
Confirm, Flag and Drain calls, one store call or one remote call at a time. Over its runs, `LocalTier` says what stays
in the store, `AcceptedOnce` bounds how often the remote accepts a unit, and `FeedbackHistory` says which feedback a
stored unit carries. `Client` runs the same operations one after the other against a `LocalStore`.

**Crosstalk** (`Crosstalk.dfy`, `Delivery.dfy`, `MessageDb.dfy`, `Budget.dfy`, `Help.dfy`, `HelpCalls.dfy`,
`SyncQueue.dfy`). Messages reach a session through the shared database and through its inbox file. Help requests are
routed by shortlist, gate and a rolling-hour token budget; `HelpCalls` lets any number of calls interleave at the
gate. Operations that the L2 does not acknowledge wait in a retry queue.

**Installer** (`Installer.dfy`, `CopyTree.dfy`, `Json.dfy`, `JsonEntry.dfy`, `Markdown.dfy`) edits file trees, JSON
documents and Markdown files, and undoes the edits. **Activity log** (`Lexicographic.dfy`, `ActivityId.dfy`,
`Pagination.dfy`) has sortable ids and cursor pagination.

Each component that the repository updates in place is a class whose methods are proved against specification
functions; the lemmas are about those functions, or about runs made of them.

## Where a property holds only under a condition

- Mesh rows name L2s of the owner's own Enterprise exactly when no L2 is admitted, under the endpoint of a sibling,
  to an L2 of another Enterprise: the signature poll is the one path that compares no Enterprises
  (`Mesh.TruthfulnessExactly`). That such an alias does put a foreign row into a table supposes that the L2s of one
  Enterprise admit each other; without it no poll need ever follow the alias.
- Feedback that was read for a stored unit is written exactly when no drain deletes the unit first
  (`FeedbackHistory.FeedbackIsWritten`), and an update keeps all feedback written before it exactly when nobody else
  updated the unit after its own read (`FeedbackHistory.UpdateKeepsFeedback`): of two that both read first, the second
  wins (`FeedbackHistory.SecondWriterWins`). The copy a drain pushes carries all feedback of the stored unit exactly
  when nobody updated the unit since the listing (`FeedbackHistory.PushCarriesFeedback`).
- With at most `k` drains at a time the remote accepts a unit at most `k` times, and once more for each lost reply and
  each failed delete; no smaller bound holds (`AcceptedOnce.MostIsAccepted`). Without faults and overlapping drains a
  unit whose Propose succeeded and that is gone was accepted exactly once (`AcceptedOnce.ExactlyOnce`).
- Any history of charges, however the help calls behind it interleaved, keeps every window of one hour within the
  limit exactly when each charge fits the hour that ends with it (`Budget.BoundedExactly`). Serial calls with a
  clock that does not go backwards always do. Calls that all check before any charges exceed the limit exactly when
  the spend so far and all their deliveries together exceed it (`Budget.InterleavedCallsOverspend`; for charges at
  different moments within one hour, `Budget.BurstFitsExactly`). Over all runs with at most `k` calls dealing with one
  session at a time, the most an hour can hold is the limit and `k - 1` deliveries more (`HelpCalls.MostIsSpent`), so
  the limit is kept in every run exactly when no two calls deal with one session at a time
  (`HelpCalls.LimitIsKeptExactly`).
- Every help call reaches at most as many recipients as it was asked for exactly when that maximum is positive
  (`Help.MaximumIsKept`). A maximum of zero counts as the default of five, so it is kept only by a call that reaches
  nobody, and a negative one never is (`Help.RecipientsAtMostAsked`).
- A message that only an inbox file carries gets its delivery row exactly when its session ingests the file after
  the line was appended and before the session next starts (`Delivery.FileOnlyMessageArrives`). A line appended
  while the session is down, or in the moments between its last poll and a restart, is skipped for good
  (`Delivery.FileOnlyMessageSkipped`). A message sent through the database always has its rows, and a pending row is
  notified or dismissed once its session has polled often enough (`Delivery.PendingIsPolled`, and for a line of a file
  `Delivery.FileOnlyMessageIsPolled`).
- Removing a JSON entry restores the document exactly when the entry was absent, nothing on the path was null and no
  object on the path below the root was empty (`JsonEntry.RoundTrip`, which also covers removal without pruning).
- Uninstalling after an install that reports a change restores a tree exactly when it had no manifest and none of the
  desired files. An install that reports UNCHANGED looks at the files only and leaves the manifest as it is, so the
  uninstall then restores the tree exactly when there was no readable manifest, or one that owns none of the files
  and has a modified one among those it lists (`CopyTree.RoundTrip`, `CopyTree.OutdatedManifestStays`). When the
  manifest is itself among the files to copy it stays behind (`CopyTree.RoundTripOfManifest`,
  `CopyTree.CopiedManifestStays`).
- A dry run of the copy reports another action than the real run exactly when the run itself creates or deletes
  the manifest path as an ordinary file (`CopyTree.DryRunAgrees`).
- A dry run of an uninstall reports another action than the real run exactly when a listed file was modified and
  the real run skips none: the manifest lists two digests for one path and the first is current
  (`CopyTree.DryUninstallAgrees`, `CopyTree.TwoDigestsDiffer`). No manifest an install writes is like that.
- Removing a Markdown block restores a text exactly when it has content, begins with no newline and ends in just one;
  with a stray end marker in the text the block cannot be removed or replaced any more
  (`Markdown.RoundTrip`, `Markdown.RestoredExactly`, `Markdown.LastUpsertWins`).
- A pagination cursor survives encoding exactly when neither part is empty and its time contains no separator
  (`Pagination.CursorRoundTrip`). Activity ids sort by time below 2 to the power 50 milliseconds and wrap around
  there (`ActivityId.TimePrefixIsSortable`, `ActivityId.TimePrefixWraps`).

The comment at `plugins/cq/crosstalk-mcp/src/l2-sync.js:197-198` says that a malformed payload is bumped to the
maximum of attempts. The code adds one attempt, and the model follows the code
(`SyncQueue.MalformedRowIsRetried`).

## Assumptions

- The clock does not go backwards. `Help.Help` is one call that runs alone; calls that interleave at the await of the
  gate are the subject of `HelpCalls`.
- For a foreign mesh row to be reachable, the L2s of one Enterprise admit each other.
- Drain passes of the sync queue do not overlap; other handlers may enqueue rows while a pass waits.
- One server process runs per session name; emitting a notification and marking it delivered happen together, and
  inserting a message with its delivery rows is one step. A crosstalk database starts out seeded.
- Unit and message ids are unique, and SHA-256 digests of different contents differ. No manifest lists its own
  digest, on which `CopyTree.SecondInstall`, `CopyTree.SkippedKeepsManifest`, `CopyTree.CopiedManifestStays` and
  `CopyTree.RoundTripOfManifest` rest.
- The store's connection enforces foreign keys, and transactions are atomic.

## Model

| member | source | states |
|---|---|---|
| Units.NormalizedProperties | sdk/go/store.go:619-636 | a normalised domain list is duplicate-free, holds only non-blank normal forms, and holds exactly those of the inputs |
| Units.NormalizedFixed | sdk/go/store.go:619-636 | normalising a normalised list changes nothing, so a round trip through the store is stable |
| Units.NormalizeDomains | sdk/go/store.go:619-636 | the loop with its seen-set computes that list |
| Text.NormalIdempotent | sdk/go/store.go:624 | trimming and lower-casing twice is trimming and lower-casing once |
| Text.NormalExactly | sdk/go/store.go:619-636 | two tags without outer white space have one normal form exactly when they agree letter by letter up to case |
| Text.NormalTrims | sdk/go/store.go:619-636 | white space around a tag does not count, and a tag of white space alone is empty |
| Text.EqualFoldExactly | sdk/go/scoring.go:27-29 | strings are equal up to case exactly when they agree letter by letter up to case |
| Scoring.JaccardProperties | sdk/go/scoring.go:85-105 | the similarity lies between 0 and 1, is symmetric, is 0 exactly for disjoint sets and 1 exactly for equal non-empty ones |
| Scoring.RelevanceInUnitInterval | sdk/go/scoring.go:12-34 | the weighted score never leaves the unit interval, so the final clamp never acts |
| Scoring.ScoreInPoints | sdk/go/scoring.go:12-33 | domains count for 55 of 100 points by their similarity, and each of language, framework and pattern that matches for 15 |
| Scoring.DomainsDecide | sdk/go/scoring.go:12-33 | a unit of exactly the queried domains outscores every unit without any of them |
| Scoring.JaccardSimilarity | sdk/go/scoring.go:85-105 | the counting loops compute the size of the intersection over the size of the union |
| Scoring.AnyMatch | sdk/go/scoring.go:37-51 | true exactly when some query occurs among the items |
| Scoring.Relevance | sdk/go/scoring.go:12-33 | the four partial scores are weighted as the specification says |
| Scoring.FeedbackKeepsContent | sdk/go/scoring.go:54-82 | any sequence of confirmations and flags keeps insight, domains and context, keeps the confidence within 0 and 1 and records every flag in order |
| Scoring.ConfirmationRaises | sdk/go/scoring.go:54-64 | a confirmation raises the confidence by 0.1 up to 1, adds one to a 32-bit count and sets the time |
| Scoring.FlagLowers | sdk/go/scoring.go:67-82 | a flag lowers the confidence by 0.15 down to 0, is appended, and changes nothing else |
| Scoring.FeedbackCounts | sdk/go/scoring.go:54-82 | over any sequence every confirmation is counted and the time is that of the last one |
| Ranking.StableDescSorts | sdk/go/store.go:431-433 | sorting permutes the list and leaves it in descending order of score |
| Ranking.StableDescIsStable | plugins/cq/crosstalk-mcp/src/server.js:1315-1321 | items of equal score keep their order |
| Ranking.EqualScoresKeepOrder | plugins/cq/crosstalk-mcp/src/server.js:1315-1321 | of two entries with the same score the one that came first stays first |
| Ranking.CutKeepsTheBest | sdk/go/store.go:431-437 | nothing cut off a descending list scores more than what is kept |
| Ranking.SortDescending | sdk/go/store.go:431-433 | the in-place sort leaves the array equal to the sorted list |
| Store.LocalStore.Insert | sdk/go/store.go:216-257 | a unit with a new id and a non-empty normalised domain list is stored with its index rows; a closed store, an existing id, no domain or a failing statement leave all three tables as they were and say which |
| Store.LocalStore.InsertDomains | sdk/go/store.go:587-601 | the loop adds exactly one index row for each domain |
| Store.LocalStore.Update | sdk/go/store.go:260-317 | a stored unit is replaced together with its index rows; an unknown id or a failing statement changes nothing |
| Store.LocalStore.Delete | sdk/go/store.go:154-187 | the unit and all its index rows disappear, and nothing else does |
| Store.LocalStore.Get | sdk/go/store.go:190-212 | answers the stored unit or that there is none |
| Store.LocalStore.All | sdk/go/store.go:105-138 | lists every unit exactly once |
| Store.AgreeWith | sdk/go/store.go:31-42 | adding a unit with its rows keeps the three tables in agreement |
| Store.AgreeWithout | sdk/go/store.go:31-42 | removing a unit with its rows keeps the three tables in agreement |
| Store.AgreeReplaced | sdk/go/store.go:260-317 | replacing a unit and its rows keeps the three tables in agreement |
| Store.AgreeIsIndexed | sdk/go/store.go:31-42 | in tables that agree every unit is found under exactly its domains and its insight, and nothing else is |
| Store.LocalStore.CollectCandidates | sdk/go/store.go:340-413 | the index lookup plus the full-text ids yield exactly the units that a scan for a shared domain or a match finds |
| Store.FirstScoresAreTopRanked | sdk/go/store.go:415-444 | the cut of the sorted scores is duplicate-free, descending, of the right length, and no omitted candidate outscores a returned one |
| Store.BetterRanksFirst | sdk/go/store.go:423-437 | a candidate that is no less relevant and no less trusted than a listed one, and more in one of the two, is listed before it |
| Store.LocalStore.Query | sdk/go/store.go:320-445 | for every full-text answer the indexed query returns the top-ranked units of the scan, each once and each stored, all of them when they fit the limit; a failed full-text search only adds a warning |
| DrainProtocol.StepKeepsInv | sdk/go/client.go:77-325 | every store call and every remote call of any task keeps the protocol invariant |
| DrainProtocol.NothingLost | sdk/go/client.go:77-325 | in every interleaving with arbitrary failures, each unit whose Propose returned success or a fallback error is stored with its insight, domains and context, or the remote accepted exactly that; and the remote accepted nothing else |
| DrainProtocol.ProposeIsNeverLost | sdk/go/client.go:262-325 | in every run, from the moment the remote accepted a proposed unit or the store took it, what it says is in the store or was accepted by the remote |
| DrainProtocol.StoredIsNeverLost | sdk/go/client.go:121-167 | the same for every unit stored at the beginning |
| LocalTier.StoresLocalOnly | sdk/go/client.go:262-325 | in every run a store that held only units of the local tier holds no other, so a drain can push them all |
| LocalTier.OfflineKeepsAll | sdk/go/client.go:121-130 | in every run without a remote no unit leaves the store and nothing is sent |
| FreshIds.StepKeepsFresh | sdk/go/client.go:77-325 | every step keeps each id to one Propose, which no stored or listed unit has pending |
| AcceptedOnce.StepIsBalanced | sdk/go/client.go:121-325 | with at most `k` drains, the times a unit was accepted and the times it still can be grow together by at most one for a lost reply or failed delete |
| AcceptedOnce.AcceptedAtMost | sdk/go/client.go:121-325 | in every run with at most `k` drains at a time a unit is accepted at most `k` times and once more for each lost reply and failed delete |
| AcceptedOnce.ExactlyOnce | sdk/go/client.go:121-325 | without faults and overlapping drains a unit whose Propose succeeded and that is gone was accepted exactly once |
| AcceptedOnce.MostIsAccepted | sdk/go/client.go:121-167 | for every local unit some run reaches that bound, and none exceeds it |
| FeedbackHistory.StoredIsFeedbackApplied | sdk/go/client.go:77-112 | in every interleaving a stored unit is the one first stored with the feedback it holds applied in order |
| FeedbackHistory.StoredUntilDeleted | sdk/go/client.go:77-167 | a unit stored at one state of a run is stored at a later one exactly when nobody deleted it in between: once gone it never comes back |
| FeedbackHistory.NothingNewExactly | sdk/go/client.go:77-112 | between two states a stored unit gains feedback exactly when some task updated it |
| FeedbackHistory.UpdateKeepsFeedback | sdk/go/client.go:84-99 | an update leaves what its task read and its own feedback, and keeps all feedback held before exactly when nobody else updated the unit since that read |
| FeedbackHistory.FeedbackIsWritten | sdk/go/client.go:84-99 | feedback read for a stored unit is held after its update exactly when nobody deleted the unit in between |
| FeedbackHistory.SecondWriterWins | sdk/go/client.go:84-99 | two tasks that both read before either writes both succeed, and the unit keeps the feedback of the second only |
| FeedbackHistory.PushCarriesFeedback | sdk/go/client.go:133-163 | what a drain pushes or deletes is the unit as listed, which carries all feedback of the stored unit exactly when nobody updated it since |
| Client.Client.Propose | sdk/go/client.go:262-325 | a unit goes to the remote or, exactly when the remote is missing, unreachable, loses its reply or refuses the credentials, into the store; it is stored exactly when the store takes it, and the error says why not; a refused unit goes nowhere; what is stored is the unit with normalised domains and both observation times set |
| Client.Client.GiveFeedback | sdk/go/client.go:77-112 | succeeds exactly for a stored unit and a working store; the unit read and written back is the one with the feedback applied, and nothing else changes |
| Client.Client.DrainableCount | sdk/go/client.go:170-190 | counts the units of the local tier |
| Client.Client.PushOne | sdk/go/client.go:144-163 | a unit is forgotten locally exactly when the remote accepted it and the delete worked |
| Client.Client.Drain | sdk/go/client.go:121-167 | pushes every local unit it reaches in turn, whatever became of the others; gone are exactly those accepted whose delete worked; one push or one warning for each; with a remote and a store that work a drain empties the local tier |
| Client.GoneExactly | sdk/go/client.go:144-163 | a unit is gone after a drain exactly when its own push was accepted and its own delete worked |
| Client.GoneIsDrained | sdk/go/client.go:121-167 | what a drain removes are local units whose content the remote accepted, and the remote accepted nothing else |
| Client.ProposeIsSteps | sdk/go/client.go:262-325 | the steps of a Propose task in the protocol leave store and remote as the method does |
| Client.FeedbackIsSteps | sdk/go/client.go:77-112 | so do the read and the update of a Confirm or Flag task |
| Client.DrainIsSteps | sdk/go/client.go:121-167 | so do the pushes and deletes of a Drain task, after every listed unit |
| Mesh.PairwiseKnowledge | server/backend/src/cq_server/app.py:162-217 | of two L2s whose bootstrap against one seed succeeded, one knows the other, whatever was lost and however the hellos interleaved |
| Mesh.KnowledgeIsKept | server/backend/src/cq_server/store/_sqlite.py:2686-2796 | no step removes a row from a peer table |
| Mesh.HelloIsAdmitted | server/backend/src/cq_server/app.py:881-902 | in every run a hello reaches only an L2 that admits its sender, and is stored only within one Enterprise |
| Mesh.Convergence | server/backend/src/cq_server/app.py:228-307 | once the non-stub members have each run one poll cycle whose hellos arrived, all know each other, even if every announce was lost |
| Mesh.TruthfulnessExactly | server/backend/src/cq_server/app.py:276-307 | when the L2s of one Enterprise admit each other: every row of every reachable table describes an L2 of the owner's Enterprise as that L2 describes itself, exactly when no foreign alias exists |
| Mesh.ForeignRowReachable | server/backend/src/cq_server/app.py:282-307 | when the L2s of one Enterprise admit each other: with a foreign alias one hello and one poll put a foreign row into a table |
| Mesh.StepKeepsInv | server/backend/src/cq_server/app.py:881-1022 | hello, reply, absorption, announce and poll keep every row and every message in flight true |
| MeshServer.L2Server.UpsertPeer | server/backend/src/cq_server/store/_sqlite.py:2686-2796 | a row is inserted or updated; a stored key and, without a new signature, the stored signature stay |
| MeshServer.L2Server.ListPeers | server/backend/src/cq_server/store/_sqlite.py:2806-2842 | lists exactly the L2s of one Enterprise, each once |
| MeshServer.L2Server.Hello | server/backend/src/cq_server/app.py:881-990 | stores the caller under its Enterprise, group, endpoint and key, as the protocol's hello step does; answers with the table and, last, itself; floods to every listed peer with an endpoint except the caller; another Enterprise is refused without effect |
| MeshServer.L2Server.FloodEndpoints | server/backend/src/cq_server/app.py:917-960 | the endpoints the flood goes to, in table order |
| MeshServer.L2Server.PollTargets | server/backend/src/cq_server/app.py:265-281 | the peers of a poll cycle are the listed ones with an endpoint, except oneself: the poll targets of the convergence theorem |
| MeshServer.L2Server.RecordSignature | server/backend/src/cq_server/app.py:276-295 | stores the answer of a poll, with the polled endpoint when it has none, its signature and no key, as the protocol's poll step does |
| MeshServer.UpsertedRow | server/backend/src/cq_server/store/_sqlite.py:2686-2796 | field by field: a row takes what it is given, keeps a stored key when given none and a stored signature when the call carries none; no other row changes |
| MeshServer.PolledRow | server/backend/src/cq_server/app.py:276-295 | after a poll the row carries the signature answered, whatever was stored before |
| MeshServer.BodyIsReceived | server/backend/src/cq_server/app.py:902-915 | storing the body of a hello or announce is the step of the protocol |
| MeshServer.FloodIsAnnounced | server/backend/src/cq_server/app.py:921-960 | the protocol's announcements reach exactly those who answer at an endpoint the flood contacts |
| MeshServer.L2Server.Announce | server/backend/src/cq_server/app.py:993-1022 | stores the announced L2 under its Enterprise, group, endpoint and key, as the protocol's announce step does, unless it belongs to another Enterprise |
| MeshServer.L2Server.AbsorbPeers | server/backend/src/cq_server/app.py:195-212 | the bootstrap loop upserts every row of the reply but its own |
| MeshServer.AbsorbAllProperties | server/backend/src/cq_server/app.py:195-212 | absorbing a reply learns every listed L2, forgets no L2, no key and no signature, and leaves unlisted rows alone |
| MeshServer.AbsorbedRow | server/backend/src/cq_server/app.py:195-212 | an absorbed row carries the Enterprise, group, endpoint and key of the reply's last row for that L2; of a signature only the counts and the model travel |
| MeshServer.AbsorbStepIsAbsorbAll | server/backend/src/cq_server/app.py:195-212 | the protocol's absorption steps, taken together, are the bootstrap loop |
| Lookup.MergeCopies | server/backend/src/cq_server/app.py:721-728 | the `by_id` loop keeps the most similar copy of each unit at its first position |
| Lookup.BestCopiesProperties | server/backend/src/cq_server/app.py:721-728 | one copy for each unit, at least as similar as every copy found |
| Lookup.BestCopiesAreFirst | server/backend/src/cq_server/app.py:721-728 | each best copy is the first among the most similar ones of its unit, and the units keep the order in which they first occurred |
| Lookup.FilterUntilFull | server/backend/src/cq_server/app.py:730-747 | the loop filters until the list is full and counts exactly the failing candidates it examined |
| Lookup.Select | server/backend/src/cq_server/app.py:721-747 | merging, sorting and filtering examine the ranked best copies up to the one that fills the list; every result meets both thresholds and is not one's own, and a list that is not full leaves none of those out |
| Lookup.SelectionIsTopPassing | server/backend/src/cq_server/app.py:693-747 | the results are the first `max_results` passing best copies by similarity; the drop count is exact when the list is not full |
| Lookup.ResultsAreBestCopies | server/backend/src/cq_server/app.py:693-747 | each result passes every filter and no copy of its unit is more similar |
| Lookup.OmittedHitsAreWorse | server/backend/src/cq_server/app.py:693-747 | a passing best copy is left out only for a full list of hits at least as similar |
| Delivery.StepKeepsInv | plugins/cq/crosstalk-mcp/src/server.js:520-594 | sends, ingests, polls, declines, rejections and restarts keep the accounting of every delivery row |
| Delivery.SeedChangesNothing | plugins/cq/crosstalk-mcp/src/db.js:137-142 | the start-up seeding of a database that was seeded before adds no row |
| Delivery.SeededRow | plugins/cq/crosstalk-mcp/src/db.js:137-142 | seeding adds the addressee's row of every message without one, done exactly when its message row was, and changes no other row |
| Delivery.NotifiedAtMostOnce | plugins/cq/crosstalk-mcp/src/server.js:554-594 | over any run each (message, recipient) pair is notified at most once, and every delivery row is exactly one of pending, notified, dismissed and delivered before |
| Delivery.SentIsNeverLost | plugins/cq/crosstalk-mcp/src/db.js:189-217 | a message sent through the database has a row for each recipient at every later time, pending or accounted for |
| Delivery.PollDrains | plugins/cq/crosstalk-mcp/src/server.js:554-591 | a poll takes exactly the polled messages out of the pending set, so the set shrinks by twenty or is emptied |
| Delivery.IngestedFromOffset | plugins/cq/crosstalk-mcp/src/server.js:520-548 | ingesting gives every parsable line from the offset on a delivery row for its addressee, or for the session that reads when it names none, and stores a new message as its line says, pending |
| Delivery.IngestStores | plugins/cq/crosstalk-mcp/src/server.js:520-548 | the first line with a new id is stored with its id, thread, time, sender and content and no tag |
| Delivery.FileOnlyMessageArrives | plugins/cq/crosstalk-mcp/src/server.js:520-548 | in every run a message that only an inbox line carries has its delivery row exactly when the session ingested after the line and before it next started |
| Delivery.FileOnlyMessageSkipped | plugins/cq/crosstalk-mcp/src/server.js:289-294 | a line that a start has skipped has no delivery row at any later time |
| Delivery.PendingIsPolled | plugins/cq/crosstalk-mcp/src/server.js:551-594 | while nothing older arrives, a pending message with `r` others not stamped later is notified or dismissed within r/20 + 1 polls of its session |
| Delivery.FileOnlyMessageIsPolled | plugins/cq/crosstalk-mcp/src/server.js:520-594 | a line for its own session or for nobody, once ingested, is notified to or dismissed for that session within r/20 + 1 of its polls |
| Delivery.MarkAllStamps | plugins/cq/crosstalk-mcp/src/db.js:272-277 | marking stamps exactly the rows of the polled messages for that session, and keeps what gated them |
| MessageDb.MessageStore.InsertMessage | plugins/cq/crosstalk-mcp/src/db.js:189-217 | the recipient loop adds a message row and one delivery row for each recipient, and leaves existing rows as they are |
| MessageDb.MessageStore.MarkDelivered | plugins/cq/crosstalk-mcp/src/db.js:272-277 | marks one delivery row and the message row |
| MessageDb.MessageStore.PendingForSession | plugins/cq/crosstalk-mcp/src/db.js:225-251 | for each of the three tag filters, answers the oldest pending messages it lets through, oldest first, each once, at most `limit`, none older left out |
| MessageDb.MessageStore.Decline | plugins/cq/crosstalk-mcp/src/server.js:1577-1593 | marks exactly the session's pending rows of the thread |
| MessageDb.MessageStore.RejectRouting | plugins/cq/crosstalk-mcp/src/server.js:1758-1787 | marks exactly the session's pending routed rows of the thread |
| MessageDb.SessionServer.IngestInboxFile | plugins/cq/crosstalk-mcp/src/server.js:520-548 | inserts the messages of the lines behind the offset, each with a row for its addressee or for this session, and moves the offset to the end of the file |
| MessageDb.SessionServer.PollInbox | plugins/cq/crosstalk-mcp/src/server.js:554-594 | ingests, then notifies and marks at most twenty pending messages; with fewer than twenty no line for this session or for nobody is left pending |
| Budget.ChargeKeepsBound | plugins/cq/crosstalk-mcp/src/server.js:401-412 | a charge made no earlier than a check that found room keeps every window of one hour within the limit |
| Budget.ChargeFitsExactly | plugins/cq/crosstalk-mcp/src/server.js:401-412 | a charge keeps every window within the limit exactly when it fits the hour that ends with it |
| Budget.BoundedExactly | plugins/cq/crosstalk-mcp/src/server.js:378-412 | every history in order of time, interleaved or not, stays within the limit in every window of one hour exactly when each charge fits the hour that ends with it |
| Budget.SerialRunIsBounded | plugins/cq/crosstalk-mcp/src/server.js:378-412 | over any serial run with a non-decreasing clock no session is charged more than 25000 tokens in any window of one hour |
| Budget.BoundInNumbers | plugins/cq/crosstalk-mcp/src/server.js:378-381 | the bound is 25000 tokens in any 3600000 milliseconds |
| Budget.BurstFitsExactly | plugins/cq/crosstalk-mcp/src/server.js:1382-1402 | calls that all check before any charges, less than an hour apart, keep the limit exactly when every charge fits with the spend before the burst and the burst so far |
| Budget.InterleavedCallsOverspend | plugins/cq/crosstalk-mcp/src/server.js:1382-1402 | for every history and number of calls: calls that check and charge a session at one instant, each check before every charge, exceed the limit exactly when the spend so far and all their deliveries exceed it |
| Budget.SumOfSince | plugins/cq/crosstalk-mcp/src/server.js:389-395 | the sum over the entries kept is the spend over the whole history |
| Budget.PrunedTwice | plugins/cq/crosstalk-mcp/src/server.js:389-395 | pruning as a side effect of reading loses nothing that a later window can reach |
| Budget.TokenBudgets.GetBudgetSpend | plugins/cq/crosstalk-mcp/src/server.js:389-395 | although it prunes, it answers the spend of the last hour over all charges ever made |
| Budget.TokenBudgets.HasBudget | plugins/cq/crosstalk-mcp/src/server.js:401-403 | answers whether the tokens fit the last hour |
| Budget.TokenBudgets.ConsumeBudget | plugins/cq/crosstalk-mcp/src/server.js:408-412 | records one charge at the current time |
| Help.AttributedProperties | plugins/cq/crosstalk-mcp/src/server.js:1293-1302 | the attributed sessions are exactly the live, known experts, each once |
| Help.LearnedTableRanks | plugins/cq/crosstalk-mcp/src/server.js:1304-1313 | learned expertise holds each live session with a positive confidence once, with its highest confidence |
| Help.LearnedOnlyProperties | plugins/cq/crosstalk-mcp/src/server.js:1315-1321 | the learned sessions that are not attributed follow in descending order of confidence |
| Help.ShortlistProperties | plugins/cq/crosstalk-mcp/src/server.js:1298-1336 | L0 and L1 are distinct and live, and L1 is exactly the matching sessions outside L0 |
| Help.BuildShortlist | plugins/cq/crosstalk-mcp/src/server.js:1298-1333 | the loops compute that shortlist: at most as many as the maximum, known experts before learned ones and surer before less sure, nobody left out for a less entitled one or while there is room |
| Help.SliceIsPrefix | plugins/cq/crosstalk-mcp/src/server.js:1321-1336 | a cut keeps the first sessions, as many as the maximum, or for a negative maximum all but the last ones |
| Help.ShortlistTakesTheBest | plugins/cq/crosstalk-mcp/src/server.js:1298-1321 | a learned session is taken only behind all known experts and all surer learned ones, and nobody is left out while there is room |
| Help.CheckAndCharge | plugins/cq/crosstalk-mcp/src/server.js:1354-1370 | a session is charged only with room for one more delivery, and every window stays within the limit |
| Help.ApplyBudget | plugins/cq/crosstalk-mcp/src/server.js:1349-1371 | splicing the over-budget sessions out leaves exactly the others, in order, without their gates, and charges each of them once |
| Help.AskGate | plugins/cq/crosstalk-mcp/src/server.js:1373-1421 | a candidate joins exactly when it has room and the gate admits it; only then is it charged |
| Help.Help | plugins/cq/crosstalk-mcp/src/server.js:1283-1421 | the recipients, gates, dropped sessions and charges of a whole call, with at most 25000 tokens in any hour afterwards; recipients are distinct, registered, not the sender, and at most the effective maximum (an absent or zero maximum means five) exactly when that is not negative; of the shortlist exactly the first ones up to that maximum are asked |
| Help.RoutingProperties | plugins/cq/crosstalk-mcp/src/server.js:1335-1421 | recipients are distinct and live, a session dropped for budget never re-enters, each gate is the admitting layer, and the history grows by exactly one charge of 5000 tokens for each recipient, made during the call, or by none at high urgency |
| Help.CutIsExact | plugins/cq/crosstalk-mcp/src/server.js:1335-1371 | a shortlisted session is a recipient or over its budget exactly when it stands before the cut |
| Help.AdmittedInOrder | plugins/cq/crosstalk-mcp/src/server.js:1377-1421 | an admitted session outside the shortlist leaves out no earlier one that the gate would admit |
| Help.EverybodyIsAsked | plugins/cq/crosstalk-mcp/src/server.js:1335-1421 | with room for all live sessions nobody shortlisted or admitted by the gate is left out, except for budget |
| Help.AbsentMaximum | plugins/cq/crosstalk-mcp/src/server.js:1290 | without a maximum at most five sessions are reached, and the first five of the shortlist unless over budget |
| Help.ExpertIsAsked | plugins/cq/crosstalk-mcp/src/server.js:1290-1371 | a call that finds a known live expert reaches the first of them unless that one is over its budget |
| Help.RecipientsAtMostLimit | plugins/cq/crosstalk-mcp/src/server.js:1290-1380 | there are at most as many recipients as the effective maximum (an absent or zero maximum means five) exactly when that is not negative |
| Help.RecipientsAtMostAsked | plugins/cq/crosstalk-mcp/src/server.js:1290-1380 | for one call with a maximum asked for: it is kept exactly when it is positive, or zero and nobody is reached; for zero at most five are reached |
| Help.MaximumIsKept | plugins/cq/crosstalk-mcp/src/server.js:1290-1380 | all calls that ask for a maximum keep it exactly when it is positive |
| HelpCalls.RunKeepsInv | plugins/cq/crosstalk-mcp/src/server.js:1349-1407 | in every run of interleaved calls, at most `k` to a session at a time, what an hour holds and what is still to be charged together exceed the limit by at most `k - 1` deliveries |
| HelpCalls.InterleavedCalls | plugins/cq/crosstalk-mcp/src/server.js:1382-1402 | from every state of every run, however many more calls check a session while one delivery fits all find room, and all charge |
| HelpCalls.MostIsSpent | plugins/cq/crosstalk-mcp/src/server.js:1349-1407 | the most that runs with at most `k` calls to a session at a time charge it in an hour is the limit and `k - 1` deliveries, and some run reaches it |
| HelpCalls.LimitIsKeptExactly | plugins/cq/crosstalk-mcp/src/server.js:1349-1407 | every run keeps the limit in every hour exactly when at most one call deals with a session at a time |
| HelpCalls.RoomAfterAnHour | plugins/cq/crosstalk-mcp/src/server.js:389-403 | from every state of every run an hour without charges leaves room for every session |
| Help.OpeningMessageRows | plugins/cq/crosstalk-mcp/src/server.js:1464-1475 | the opening message gives every recipient and nobody else a pending row gated by its admitting layer |
| SyncQueue.ListingAttemptsTheFirst | plugins/cq/crosstalk-mcp/src/l2-sync.js:183-191 | a pass takes exactly the smaller of 50 and the number of rows that are not stuck, in drain order |
| SyncQueue.OlderIsListedFirst | plugins/cq/crosstalk-mcp/src/db.js:494-501 | of two rows with as many attempts the older is listed first, so a message goes out before its later replies |
| SyncQueue.FewerAttemptsFirst | plugins/cq/crosstalk-mcp/src/db.js:494-501 | a row with fewer attempts is listed before one with more |
| SyncQueue.PassTakes | plugins/cq/crosstalk-mcp/src/l2-sync.js:183-191 | a pass takes no row with ten attempts or more, and fifty of the others, or all if there are no more |
| SyncQueue.KnownKindsArePosted | plugins/cq/crosstalk-mcp/src/l2-sync.js:205-231 | each readable send, reply and close taken is posted exactly once, and nothing else is |
| SyncQueue.PassProgress | plugins/cq/crosstalk-mcp/src/l2-sync.js:178-241 | the attempts left to the rows that were there fall by at least one for each row taken, so strictly while any row is not stuck |
| SyncQueue.PassesEnd | plugins/cq/crosstalk-mcp/src/l2-sync.js:178-241 | without arrivals as many passes as there are attempts left leave nothing but stuck rows |
| SyncQueue.Queue.Enqueue | plugins/cq/crosstalk-mcp/src/db.js:481-488 | adds a row under a new id with one attempt, or none without an error |
| SyncQueue.Queue.ListPending | plugins/cq/crosstalk-mcp/src/db.js:494-501 | lists the first rows by attempts and age |
| SyncQueue.Queue.Sync | plugins/cq/crosstalk-mcp/src/l2-sync.js:112-164 | an operation is posted once and either acknowledged, or queued in a new row with one attempt; every other row stays |
| SyncQueue.Queue.Drain | plugins/cq/crosstalk-mcp/src/l2-sync.js:178-241 | each postable row taken is posted exactly once with its operation and gone exactly when that post was acknowledged, otherwise exactly one attempt older; stuck rows are untouched, the three counts are exact, and every operation submitted is accepted or queued, with other handlers posting and adding rows meanwhile |
| CopyTree.InstallPostcondition | scripts/install/src/cq_install/common.py:38-74 | after a real run every desired file equals its source, stale paths are gone and every other file but the manifest is unchanged |
| CopyTree.SecondInstall | scripts/install/src/cq_install/common.py:30-74 | a second install is UNCHANGED and writes nothing unless the manifest is among the files to copy |
| CopyTree.DryRunAgrees | scripts/install/src/cq_install/common.py:38-74 | a dry run writes nothing and reports the real action exactly under the condition given |
| CopyTree.InstallAction | scripts/install/src/cq_install/common.py:62-74 | CREATED exactly when no manifest is found, otherwise UNCHANGED exactly when every desired file is current and no stale one is left, otherwise UPDATED |
| CopyTree.ModifiedFilesStay | scripts/install/src/cq_install/common.py:112-145 | uninstalling removes a file exactly when its content has the digest the manifest lists |
| CopyTree.UninstallAction | scripts/install/src/cq_install/common.py:112-145 | UNCHANGED exactly without a readable manifest, SKIPPED exactly when a listed file is left behind, and REMOVED with the manifest gone |
| CopyTree.SkippedKeepsManifest | scripts/install/src/cq_install/common.py:136-141 | a partial uninstall keeps the manifest |
| CopyTree.RoundTrip | scripts/install/src/cq_install/common.py:30-145 | for every tree: install then uninstall restores every file exactly when, after an install that changed something, there had been no manifest and none of the desired files, and after an UNCHANGED one, the manifest there was is unreadable or missing, or owns nothing and lists a modified file |
| CopyTree.OutdatedManifestStays | scripts/install/src/cq_install/common.py:49-141 | a current file under a manifest with another digest: the install is UNCHANGED, the uninstall SKIPPED, and everything stays |
| CopyTree.RoundTripOfManifest | scripts/install/src/cq_install/common.py:30-145 | the same with the manifest among the files to copy: after a change, exactly when the manifest was already the one written and no other desired file was there |
| CopyTree.CopiedManifestStays | scripts/install/src/cq_install/common.py:66-141 | a manifest among the copied files makes the uninstall SKIPPED and stays |
| CopyTree.InstalledIsConsistent | scripts/install/src/cq_install/common.py:45-49 | the entries an install writes give each path one digest |
| CopyTree.Tree.CopyFiles | scripts/install/src/cq_install/common.py:30-74 | the loops leave the files and report the action of the specification |
| CopyTree.Tree.RemoveCopied | scripts/install/src/cq_install/common.py:112-145 | the loop removes the owned files; a dry run removes nothing and is SKIPPED exactly when a listed file was modified |
| CopyTree.DryUninstallAgrees | scripts/install/src/cq_install/common.py:112-145 | dry run and real run report the same action exactly when the real run skips a file too or none was modified |
| CopyTree.ConsistentUninstallAgrees | scripts/install/src/cq_install/common.py:112-145 | for manifests that give each path one digest the two always agree |
| CopyTree.TwoDigestsDiffer | scripts/install/src/cq_install/common.py:124-134 | a manifest with two digests for one path, the first current, is REMOVED but SKIPPED in a dry run |
| Json.MergeMatches | scripts/install/src/cq_install/common.py:409-413 | after a merge every managed field has its desired value, and one that is to be an atom is exactly that atom |
| Json.SameExactly | scripts/install/src/cq_install/common.py:410 | two values count as equal exactly when they read the same at every path, whatever the order of keys |
| Json.SameIsEquivalence | scripts/install/src/cq_install/common.py:410 | that equality is symmetric and transitive |
| Json.SameScalar | scripts/install/src/cq_install/common.py:410 | nothing but itself equals an atom or null |
| Json.MergeFrame | scripts/install/src/cq_install/common.py:409-413 | a merge leaves unmanaged fields alone |
| Json.MergeChanges | scripts/install/src/cq_install/common.py:409-417 | an entry reported UPDATED did change |
| Json.MergeFields | scripts/install/src/cq_install/common.py:409-413 | the loop computes the merge, leaves every managed atom in place and knows whether any field changed |
| JsonEntry.RoundTrip | scripts/install/src/cq_install/common.py:188-227 | removing an upserted entry restores the document, key order included, exactly when nothing on the path stands in the way |
| JsonEntry.UpsertTwice | scripts/install/src/cq_install/common.py:382-420 | a second upsert is UNCHANGED |
| JsonEntry.UpsertRejects | scripts/install/src/cq_install/common.py:501-514 | an upsert is rejected exactly when a value on the path is neither an object nor null |
| JsonEntry.UpsertFrame | scripts/install/src/cq_install/common.py:382-420 | everything off the path reads as before |
| JsonEntry.RemoveFrame | scripts/install/src/cq_install/common.py:188-227 | removing and pruning leave everything off the path as it was |
| JsonEntry.UpsertedEntry | scripts/install/src/cq_install/common.py:400-417 | the entry holds every desired field, atoms exactly, and its other fields are those it had |
| JsonEntry.UpsertAction | scripts/install/src/cq_install/common.py:400-420 | CREATED exactly for a missing or null entry, UNCHANGED exactly for one that has every desired value, otherwise UPDATED |
| JsonEntry.UpsertHolds | scripts/install/src/cq_install/common.py:382-420 | afterwards the entry has every desired value, and UNCHANGED is reported exactly when it had them before |
| JsonEntry.MissingFileRoundTrip | scripts/install/src/cq_install/common.py:485-491 | for a missing file the round trip leaves an empty object |
| JsonEntry.UpsertByWalking | scripts/install/src/cq_install/common.py:501-514 | the walk down the path and the merge at its end compute the upsert |
| JsonEntry.RemoveByWalking | scripts/install/src/cq_install/common.py:200-223 | the walk, the deletion and the walk back compute the removal |
| JsonEntry.PruneParents | scripts/install/src/cq_install/common.py:218-223 | the reversed loop that stops at the first parent that is not empty prunes exactly the emptied objects |
| JsonEntry.ConfigFile.UpsertEntry | scripts/install/src/cq_install/common.py:382-420 | the file is written only when something changed and not in a dry run, and then the entry in it has every desired value; UNCHANGED exactly when it had them; an unreadable or rejected document is left alone |
| JsonEntry.ConfigFile.RemoveEntry | scripts/install/src/cq_install/common.py:188-227 | the same for removal; a missing file or entry is UNCHANGED |
| Markdown.FindIs | scripts/install/src/cq_install/common.py:446-447 | a search answers the first occurrence of a marker, if any |
| Markdown.StripSplits | scripts/install/src/cq_install/common.py:257 | stripping leaves what stands between the outer newlines, which neither begins nor ends with one |
| Markdown.SplitIsUnique | scripts/install/src/cq_install/common.py:257 | a text has one such core only, empty exactly when the text holds nothing but newlines |
| Markdown.InsertedBlock | scripts/install/src/cq_install/common.py:449-452 | a new block follows the text, without its final newlines, after one blank line |
| Markdown.RemovedBlock | scripts/install/src/cq_install/common.py:256-266 | removing a block leaves the core of what stands around it and one newline, or no file when that is empty |
| Markdown.RoundTrip | scripts/install/src/cq_install/common.py:230-266 | for a text that is newlines, a core and newlines, removing an inserted block yields the core and one newline, and deletes the file exactly when the text holds nothing but newlines; behind a stray end marker the block is SKIPPED and stays |
| Markdown.RestoredExactly | scripts/install/src/cq_install/common.py:258-266 | the text itself comes back exactly when it has content, begins with no newline and ends in just one |
| Markdown.MissingFileRoundTrip | scripts/install/src/cq_install/common.py:438-442 | a file that did not exist is deleted again |
| Markdown.LastUpsertWins | scripts/install/src/cq_install/common.py:423-468 | upserting one block and then another leaves what the second alone leaves, exactly when no stray end marker is involved |
| Markdown.UpsertTwice | scripts/install/src/cq_install/common.py:458-462 | a second upsert of a block changes nothing and says so |
| Markdown.RemoveAfterReplace | scripts/install/src/cq_install/common.py:230-266 | what removal leaves does not depend on what the block was replaced by |
| Markdown.MarkdownFile.UpsertBlock | scripts/install/src/cq_install/common.py:423-468 | the file and action of an upsert; a dry run writes nothing |
| Markdown.MarkdownFile.RemoveBlock | scripts/install/src/cq_install/common.py:230-266 | the file and action of a removal; a dry run writes nothing |
| ActivityId.DecodeNotation | server/backend/src/cq_server/activity.py:83-88 | decoding the digits gives the time modulo what they can hold |
| ActivityId.TimePrefixIsSortable | server/backend/src/cq_server/activity.py:75-90 | below 2 to the power 50 the prefix is decodable and sorts exactly like the time |
| ActivityId.TimePrefixWraps | server/backend/src/cq_server/activity.py:83-88 | the prefix gives the time back exactly below 2 to the power 50 and repeats beyond |
| ActivityId.IdsSortByTime | server/backend/src/cq_server/activity.py:75-90 | ids made in different milliseconds sort in order, whatever their random parts |
| ActivityId.GenerateActivityId | server/backend/src/cq_server/activity.py:75-90 | the digit loop and the reversal compute the id |
| Pagination.CursorRoundTrip | server/backend/src/cq_server/activity_routes.py:77-98 | a cursor comes back from its encoding exactly under the condition given |
| Pagination.WalkPage | server/backend/src/cq_server/activity_routes.py:194-211 | each page of a walk starts behind the last row of the page before, and only the last page is not full |
| Pagination.WalkYieldsEveryRowOnce | server/backend/src/cq_server/activity_routes.py:124-216 | following the cursor to the end yields matching rows of the Enterprise asked for in strictly descending order, and every matching row that stays in the log, whatever is appended or purged meanwhile |
| Pagination.WalkYieldsTheFirstTable | server/backend/src/cq_server/activity_routes.py:124-216 | with nothing purged and only newer rows appended the walk yields exactly the matching rows of the first request |
| Pagination.WalkEnds | server/backend/src/cq_server/activity_routes.py:200-211 | under the same conditions, with `m` matching rows, the cursor is null after exactly m / limit + 1 requests and not before |
| Pagination.SelectPage | server/backend/src/cq_server/store/_sqlite.py:3622-3690 | the newest matching rows behind the cursor, newest first: of the Enterprise asked for, passing every filter given, strictly behind the cursor |
| Pagination.PageShows | server/backend/src/cq_server/store/_sqlite.py:3648-3680 | every row of a page is of the Enterprise asked for and passes every filter given, from `since` on and before `until`, newest first |
| Pagination.ShortPageShowsAll | server/backend/src/cq_server/store/_sqlite.py:3648-3680 | a page that is not full leaves out no row of the Enterprise that passes the filters and lies behind the cursor |

## Left out

- HTTP, request decoding, authentication, MCP and CLI wiring; a remote call is an outcome, admission an arbitrary relation.
- SQLite itself and full-text tokenisation; an ORDER BY that leaves ties open is any order that satisfies it.
- Text.NormalIdempotent: trimming and lower-casing are those of ASCII, where Go treats other letters and spaces too.
- Units.Normalized: trims and lower-cases ASCII only, where Go also maps other letters.
- Scoring.WeightedScore: confidences and scores are exact rationals, so floating-point rounding is not modelled.
- Client.Client.Drain: the context deadline is the number of units handled before it expires, and the remote's answer carries no unit back.
- Client.Client.GiveFeedback: confirm and flag of units that live on the remote are plain forwarding and are not modelled.
- The Go `mergeResults`, statistics, `Query` across store and remote, and the Python twins of the Go files.
- Mesh.Convergence: stub L2s without an endpoint are not polled by design and take no part.
- Peers entered by hand or through the directory, the reputation hooks of the poll loop, and key pinning.
- MessageDb.SessionServer.IngestInboxFile: the inbox file is a list of whole lines and the offset a line number, so a line read half-written is not modelled.
- Delivery.InsertMessage: the message row and its delivery rows appear in one step, and subject and type are not carried.
- Thread rows, thread files, claims and the stale-thread reaper.
- Help.Help: expert search, learned expertise, profiles and the gate are arbitrary inputs, a maximum is an integer, and the event log is not modelled.
- SyncQueue.Queue.Drain: error texts are one constant, and the time of the last attempt is not modelled.
- CopyTree.Tree.CopyFiles: directories, their creation and pruning, and manifests with missing keys are not modelled.
- JsonEntry.UpsertByWalking: the nested dictionaries are values that the walk takes apart and puts together again; sharing between them is not modelled, nor is Python's equality of `True` and `1`.
- Hook entries, symlinks, owned files and `write_if_missing` of the installer.
- The random part of an activity id is a parameter; payloads of activity rows are not modelled.
- Pagination.WalkYieldsEveryRowOnce: tenancy and role checks are folded into an arbitrary filter that stays the same during a walk.
