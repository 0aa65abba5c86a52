# agent-wrap: a verified model of its stateful cores

Agent-wrap runs coding agents in containers next to shared sidecars, indexes what they logged, and
shows it. This project models the parts of it that keep state and proves what they are relied on for.

**The sidecar protocol** (`LaunchProtocol`, `LaunchSafety`, `LaunchApprovals`, `LaunchRuns`, `LaunchPriority`,
`LaunchLife`, `LockFiles`, `KeyApproval`). Any number of launchers share one lock, start tickets, registrations and containers. The
protocol is a transition system in which any launcher may die, and any step fail or be misled by what Docker
reports; the theorems hold for every run. A launcher without a ticket or registration (`lock_and_hold` returned
nothing) simply has none.

**The path tree** (`Names`, `Totals`, `PathTree`, `PathTotals`, `PathTreeExpand`, `PathTreeWalk`,
`PathTreeShown` on values; `PathTreeNode`, `PathTreeBuild`, `PathTreeShrink` on mutable nodes; `Table`,
`FitTable`). Building, folding, counting, aggregating, expanding with exact rollback and drawing. Each method
on nodes is tied to the function on values, and a ghost shape records that no two places share an object. A
node's children are an insertion-ordered dictionary keyed by name, kept as the sequence of the nodes.

**Index, stream and page** (`Json`, `Stream`, `Viewer`, `SessionRebuild`, `SessionExact`, `SessionAtRest`,
`SessionPolls`, `SessionServed`, `StreamOrder`, `SessionOrder`, `Serving`). The server sends each value once, the page
files it and rebuilds the records; exactly when they undo each other is proved for every way of cutting a session
into requests, batches and rebuilds, while the index goes on growing. `Serving` joins this to ingest.

**Ingest** (`LogLines`, `IngestPass`, `IngestReader`, `IngestProtocol`, `IngestSafety`, `IngestRuns`,
`BlobSweep`). One pass over two append-only files as bytes, with a concurrent writer, torn tails, committed
chunks, crashes, sweeps, retention and replaced files. A content address is its content, that is, SHA-256 is
taken as injective. The writer is trusted to complete a record's strings before the record.

**The viewer's cache** (`Sorting`, `Lex`, `Listing`, `IndexTable`, `CacheLists`, `LogsCache`) and **usage**
(`Calendar`, `Pricing`, `TierMerging`, `UsageFold`), the latter over exact reals.

## Where the code does not do what it says

Each is a lemma with a concrete input, next to the exact condition under which the code is right.

- A launcher killed between starting a container and approving its key leaves a running container whose key
  no later launcher approves (`LaunchRuns.ApprovalLostByKill`); a release that cannot recover the key stops the
  container and leaves its id approved (`LaunchRuns.ApprovalLeftByRelease`); a `docker stop` that fails leaves an
  un-approved container nobody will stop (`LaunchRuns.ContainerLeftByFailedStop`). The list matches the running
  containers exactly otherwise (`LaunchRuns.ApprovalsMatchIff`), and what is left running without a crash is
  exactly what was released without being stopped (`LaunchRuns.LeftRunningIsAbandoned`).
- A sidecar whose inspection fails counts as stopped and is removed under the agents registered on it, whether or
  not its successor then starts (`LaunchRuns.CutOffByInspection`, `LaunchRuns.CutOffWithoutSuccessor`,
  `LaunchRuns.RegisteredStaysConnected`).
- `resolveRecord` looks strings up in a plain object, so once any string is interned a whole string such as
  "constructor" resolves to an inherited property, and an object key `__proto__` is dropped
  (`Viewer.InheritedNameIsLost`, `Viewer.ResolveRecordIsExact`, `SessionPolls.AnyCutsExact`).
- Only the last chunk of a pass brings the strings. A record polled before that shows the bare pointer and is not
  sent again, although page and server both take a missing string for one that never comes
  (`IngestRuns.ChunkAheadOfItsStrings`, `SessionServed.LateStringIsLost`, `SessionServed.RestingPollFitsIff`). A poll
  after a completed pass misses nothing (`Serving.PollAfterPassIsComplete`).
- A record logged late by another directory goes in between, where an open page does not ask: it shows another
  record twice and that one never (`SessionOrder.LateRecordIsNeverShown`, `SessionOrder.LongerSessionIff`).
- The branch of `tick` that rebuilds a page after a session lost records sits behind one that returns when no
  record came, which is what a shorter session answers (`SessionPolls.ShrunkenSessionStays`). It is taken when
  the list entry lags behind the index instead (`SessionPolls.OnTick`).
- A sweep between two passes deletes a string already read whose record is still to come; the strings
  watermark is past it, so it never comes back, against the promise that every pointer resolves
  (`IngestRuns.SweptAheadIsLost`, `IngestRuns.SweepsAreHarmlessIff`, `IngestRuns.SweptInTimeResolves`,
  `IngestRuns.SweepOutOfTimeLoses`).
- Retention checks that a session is read to its end and then deletes it, while the writer asks nobody: a record
  completed in between is deleted unread (`IngestRuns.DeletedUnread`,
  `IngestRuns.RetentionLosesNothingUnreadIff`), as is one in files exchanged since the survey
  (`IngestRuns.OutdatedSurveyPasses`, `IngestRuns.SurveyStillHolds`).
- A session indexed between the cache's revision read and row read, then deleted, stays listed while the
  revision reads as before (`IndexTable.DeletedInBetween`, `LogsCache.ClosedGate`). The projects mark
  also depends on the registry, but is recomputed only behind the index's gate
  (`LogsCache.MarkLeftBehind`, `LogsCache.RegistryBehindTheGate`).
- An hour's sum is priced as one request, and under tiers whose rates rise costs more than its requests did
  (`TierMerging.QwenPlusCanBeDearer`, `TierMerging.NeverDearerIff`). Within one tier it never does
  (`Pricing.MergedCostsNoMore`).

## Model

| member | source | states |
|---|---|---|
| LaunchRuns.RegisteredStaysConnected | agent_wrap/domain/launch/service.py:834-868 | after any run, crashes included, a container a live launcher is registered on (its sidecar not headless) runs with the very key and port that launcher was handed, if and only if no later launcher took it for stopped and removed it; and nobody is in a position to stop it |
| LaunchRuns.NeverCutOff | agent_wrap/domain/launch/service.py:834-868 | so in runs without such an inspection, every other failure included, a registered launcher is never cut off |
| LaunchRuns.CutOffByInspection | agent_wrap/domain/sidecars/litellm.py:122-163 | a concrete run: the sidecar of a running agent is inspected as not running, removed, and replaced under it |
| LaunchRuns.CutOffWithoutSuccessor | agent_wrap/domain/sidecars/base.py:248-258 | a concrete run: it is removed, and the start that was to follow fails, so nothing runs in its place |
| LaunchRuns.ApprovalsMatchIff | agent_wrap/domain/providers/key_approval.py:51-71 | with the lock free, after any run: the approved ids the program minted are exactly those of the running containers that ask for approval, if and only if no key was left approved when its container went and no running container was left without its approval |
| LaunchRuns.ApprovalsMatchRunning | agent_wrap/domain/sidecars/litellm.py:146-161 | they are, in runs in which no launcher dies, no approval step fails or finds the list unreadable, no key stays unrecovered, no stop fails and no running container is taken for stopped |
| LaunchRuns.ApprovedIffRunning | agent_wrap/domain/sidecars/litellm.py:207-224 | with the lock free, after any run, an id the program minted is approved, and then once, if and only if it is a running container's that was not left without its approval, or was left approved when its container went |
| LaunchRuns.ApprovalLostByKill | agent_wrap/domain/sidecars/litellm.py:146-161 | a concrete run: a launcher killed between start and approval leaves a container that the next launcher adopts unapproved |
| LaunchRuns.UserApprovalsSurvive | agent_wrap/domain/providers/key_approval.py:51-71 | the ids the user approved by hand stay on the list, in their order and number, through every run |
| LaunchRuns.ApprovalLeftByRelease | agent_wrap/domain/sidecars/litellm.py:213-218 | a concrete run: the key cannot be recovered, the container stops, its id stays approved |
| LaunchRuns.LeftoversBelongToTheDead | agent_wrap/domain/launch/service.py:715-728 | once every launcher has ended, a container still running was declared by a launcher that died, or released by its last launcher without being stopped |
| LaunchRuns.LeftRunningIsAbandoned | agent_wrap/domain/sidecars/litellm.py:207-224 | crash-free runs, whatever else fails: when all have ended, what runs is exactly what was released without being stopped |
| LaunchRuns.NothingLeftRunning | agent_wrap/domain/launch/service.py:198-249 | and nothing runs if moreover each release sees the running container and stops it |
| LaunchRuns.ContainerLeftByFailedStop | agent_wrap/domain/sidecars/litellm.py:219-224 | a concrete run without a crash: `docker stop` fails, and an un-approved container is left running |
| LaunchRuns.ContainerLeftByKill | agent_wrap/domain/launch/service.py:244-248 | a concrete run: a killed launcher does leave a container behind |
| LaunchRuns.LockIsExclusive | agent_wrap/lib/priority_lock.py:58-91 | at most one launcher is in either critical section, and the lock is its |
| LaunchRuns.NoDeadlock | agent_wrap/lib/priority_lock.py:80-91 | while a launcher has not ended, some launcher can take a step in which nothing goes wrong |
| LaunchPriority.TicketsAreTheQueue | agent_wrap/lib/priority_lock.py:58-77 | the start tickets in sight are those of exactly the launchers that took one and have neither been given the lock, timed out nor died since |
| LaunchPriority.StartersGoFirst | agent_wrap/lib/priority_lock.py:80-91 | unless somebody is in the middle of a release already, no sidecar is probed, un-approved or stopped while a launcher is queued to start, whoever takes the lock in between |
| LaunchPriority.EntersIffNobodyWaits | agent_wrap/lib/priority_lock.py:84-91 | a releasing launcher that has the lock and looks for starters keeps it if and only if nobody is queued; otherwise the lock is free again and it goes back to wanting it |
| LaunchPriority.RunningIsRegistered | agent_wrap/domain/launch/service.py:859-868 | an agent none of whose registrations was refused is, while it runs, registered on exactly the sidecars it declared |
| LaunchLife.ContainersComeAndGo | agent_wrap/domain/sidecars/telegram.py:103-121 | any step starts a container exactly when its launcher starts it, under an unused key and the port it was told; takes one away exactly by a stop that works, a wrong inspection or a failed health check of Telegram's; and exchanges none |
| LaunchLife.UpWasStarted | agent_wrap/domain/sidecars/litellm.py:146-152 | in any run, what is up listens where a launcher that started it told it to |
| LaunchLife.EndsByReleasing | agent_wrap/domain/launch/service.py:244-248 | refused, timed out, failed or finished, a launcher is done exactly when it has gone through its release, unless it is killed |
| LaunchLife.FailureIsFinal | agent_wrap/domain/launch/service.py:849-863 | a start that fails anywhere never comes to run its agent, whatever happens later |
| LaunchSafety.StepKeepsInv | agent_wrap/domain/launch/service.py:815-869 | every single step, of any kind, keeps lock ownership, registrations and hand-outs consistent |
| LaunchApprovals.StepKeepsKeys | agent_wrap/domain/sidecars/litellm.py:122-163 | every step keeps the approval list consistent with who is starting, running and stopping |
| KeyApproval.ApproveThenUnapprove | agent_wrap/domain/providers/key_approval.py:51-71 | un-approving an id approved before leaves the list as it was, order included |
| KeyApproval.ClaudeJson.ApproveMasterKey | agent_wrap/domain/providers/key_approval.py:51-61 | the id is appended unless listed; the document is written only when it changed |
| KeyApproval.ClaudeJson.UnapproveMasterKey | agent_wrap/domain/providers/key_approval.py:63-71 | the first occurrence goes, nothing else moves, and nothing is written when the id was not listed |
| LockFiles.LockDirectory.LockAndHold | agent_wrap/lib/flock.py:102-119 | fails exactly on a file whose owner lives; otherwise the caller is its live owner |
| LockFiles.LockDirectory.ClearLockHandle | agent_wrap/lib/flock.py:122-126 | file and liveness both go |
| LockFiles.LockDirectory.HolderDies | agent_wrap/lib/flock.py:15-17 | a process that dies leaves its file and loses its liveness |
| LockFiles.LockDirectory.AnyLiveLocks | agent_wrap/lib/flock.py:152-173 | reports whether anybody but the excluded id lives, and reaps exactly the stale files it looked at |
| LockFiles.LockDirectory.LiveLockIds | agent_wrap/lib/flock.py:129-149 | names the live owners and touches nothing |
| LockFiles.HasLiveRunnersOnDisk | agent_wrap/domain/sidecars/tracker.py:101-111 | the probe on disk answers what the protocol's registrations say |
| Text.FindGivesLeastPeriod | agent_wrap/lib/text.py:15-26 | the first non-zero occurrence of a text in its doubling is its least period under rotation |
| Text.LeastPeriodDivides | agent_wrap/lib/text.py:15-26 | every period is a multiple of the least one |
| Text.UnitRebuildsText | agent_wrap/domain/secrets/service.py:40-44 | the prefix offered instead, repeated as often as reported, is the text |
| Text.CopiesDivideCount | agent_wrap/lib/text.py:15-26 | whenever a text is m copies of something, m divides the reported count |
| Text.RepetitionCountIsExact | agent_wrap/lib/text.py:15-26 | a text is m copies of some unit if and only if m divides the reported count |
| PathTree.InsertAllLookup | agent_wrap/lib/path_tree.py:99-109 | the raw trie answers every path with the row given last for it, and no other path |
| PathTree.InsertAllEntries | agent_wrap/lib/path_tree.py:99-109 | built from distinct paths, the trie holds exactly the given rows, each once |
| PathTree.CompressKeeps | agent_wrap/lib/path_tree.py:117-130 | folding moves no row to another path, leaves no foldable heading and keeps siblings' first segments distinct |
| PathTree.SplitKeeps | agent_wrap/lib/path_tree.py:133-149 | splitting self-rows off moves no row to another path; afterwards a line is a leaf with a row or a heading without |
| PathTotals.CountIsExact | agent_wrap/lib/path_tree.py:152-157 | row counts equal the number of rows below each node |
| PathTotals.AggregateIsExact | agent_wrap/cli/stats/tree.py:92-119 | one pass over a counted tree leaves every node with the fold over the rows below it |
| PathTotals.AggregateTwiceIff | agent_wrap/lib/path_tree.py:294-310 | a second pass over any counted tree leaves it exact if and only if no row has a session or a non-zero known cost |
| PathTotals.DueIsSum | agent_wrap/cli/stats/tree.py:92-119 | what a node's totals ought to be is the sum over exactly the rows at and below it |
| PathTreeNode.CompressNode | agent_wrap/lib/path_tree.py:117-130 | the mutable tree after the loop is the folded tree, made of the same objects, none shared |
| PathTreeNode.SplitSelfRowsNode | agent_wrap/lib/path_tree.py:133-149 | likewise for self-rows; the only new objects are the self-rows |
| PathTreeNode.CountRowsNode | agent_wrap/lib/path_tree.py:152-157 | likewise for row counts, no object added or dropped |
| PathTreeNode.AggregateNode | agent_wrap/cli/stats/tree.py:92-119 | likewise for the totals, accumulated into whatever the nodes held |
| PathTreeBuild.InsertNode | agent_wrap/lib/path_tree.py:99-109 | walking down in place, creating what is missing, is insertion of the path |
| PathTreeBuild.BuildProjectTree | agent_wrap/cli/stats/tree.py:86-89 | a fresh tree of unshared objects holding the aggregated built tree |
| PathTreeExpand.WidestIsWidest | agent_wrap/lib/path_tree.py:242-257 | the search finds nothing exactly when nothing is folded, otherwise the parent of the first of the widest folded lines |
| PathTreeExpand.FirstWidestIsOpened | agent_wrap/lib/path_tree.py:201-231 | the group opened is that of the first of the widest folded lines, and it stays open if and only if the tree does not get wider, ties allowed |
| PathTreeExpand.RefusalChangesNothing | agent_wrap/lib/path_tree.py:201-231 | reporting False leaves the tree exactly equal, child order included, although a whole group was split and put back |
| PathTreeExpand.AcceptanceKeepsRows | agent_wrap/lib/path_tree.py:201-231 | reporting True keeps every row under its path and every total exact, does not widen the tree and removes at least one separator |
| PathTreeExpand.OpenedKeeps | agent_wrap/lib/path_tree.py:260-278 | splitting a sibling group keeps the parent's rows, line and totals |
| PathTreeShrink.SplitFirstSegment | agent_wrap/lib/path_tree.py:260-278 | in place: the stem takes the old child's position in the rebuilt dictionary |
| PathTreeShrink.UnsplitGroupNode | agent_wrap/lib/path_tree.py:281-291 | in place: undoing a group's splits in reverse restores the children it had |
| PathTreeShrink.ExpandWidestChain | agent_wrap/lib/path_tree.py:201-231 | in place: the objects hold exactly the expanded tree, and on False the very tree they held before |
| PathTreeWalk.OrderedInOrder | agent_wrap/lib/path_tree.py:176-185 | siblings are drawn self-row first, leaves by name, headings by row count and name, each once |
| PathTreeWalk.WalkDecodes | agent_wrap/lib/path_tree.py:160-198 | the drawn lines alone, read by glyph depth and name, give back exactly the rows with their paths |
| PathTreeWalk.GlyphsAreRight | agent_wrap/lib/path_tree.py:185-195 | of the list of lines alone: a line branches off a bar that goes on if and only if a sibling follows, shows under each group above a bar if and only if that group goes on, and ends in a slash if and only if the next line is below it |
| PathTreeShown.BuiltTreeHoldsRows | agent_wrap/cli/stats/tree.py:86-119 | the aggregated tree is well-formed, holds exactly the given rows and is exact at every node |
| PathTreeShown.ShownLinesAreTheRows | agent_wrap/lib/path_tree.py:86-231 | from rows through build, fold, split, count, aggregation, any number of expansions and the walk: the lines decode to exactly the rows, totals stay exact, the tree never widens |
| PathTreeShown.RootTotalIsSum | agent_wrap/cli/stats/tree.py:92-119 | in whatever order the rows were given, the root counts them all, adds up sessions, usage and known costs, is unknown if and only if some cost is, and has the latest clock |
| PathTreeShown.ExpansionsRunOut | agent_wrap/lib/path_tree.py:215-231 | after as many expansions as there are separators the next one is refused |
| PathTreeShown.MeasureIsWidestLine | agent_wrap/lib/path_tree.py:234-239 | the width computed from depth is that of the widest line the walk draws |
| Table.Squeeze | agent_wrap/domain/display/service.py:67-88 | width is exactly the greater of limit and floored width; other columns untouched; none below its header; no column that could still give is more than one wider than a cut one, ties cut in the listed order |
| Table.SqueezeIsDetermined | agent_wrap/domain/display/service.py:67-88 | those promises leave exactly one result |
| Table.OverflowIsWhatRemains | agent_wrap/domain/display/service.py:356-387 | a table too wide is drawn exactly the reported overflow wider than the terminal, so it fits if and only if that is 0 |
| Table.DrawnWidths | agent_wrap/domain/display/service.py:356-387 | the widths the k-th table of a group is drawn with cover its headers and fit the terminal if and only if the reported overflow is 0 |
| Table.SharedWidthIsLeast | agent_wrap/domain/display/service.py:389-412 | a shared column is as wide as the widest table of the group needs, and no wider |
| Table.ColumnWidthIsLeast | agent_wrap/domain/display/service.py:91-103 | a column is as wide as its widest cell, header included, and no wider |
| Table.ComputeSharedWidths | agent_wrap/domain/display/service.py:389-412 | the loop over tables and rows computes those widths |
| Table.RowsAreTableWide | agent_wrap/domain/display/service.py:62-64 | a drawn row, a space either side of every cell and borders between and around, is exactly as long as the table's width |
| FitTable.FitTable | agent_wrap/domain/display/service.py:414-444 | terminates with the body drawn from the tree as it then stands, after the fewest expansions that make it fit or after all there are |
| FitTable.DrawTree | agent_wrap/domain/display/service.py:436-443 | a body and its group's widths are drawn without touching the tree |
| Json.FindAllFinds | agent_wrap/constants.py:97-101 | scanning left to right finds every pointer standing anywhere in a text, because no pointer starts inside another |
| Json.LeafInText | agent_wrap/domain/logs/stream.py:179-195 | a pointer that is a whole string of a value stands verbatim in the value's JSON text |
| Stream.Sender.Batch | agent_wrap/domain/logs/stream.py:134-167 | the two sets carried from batch to batch produce exactly the specified lines |
| Stream.Lines | agent_wrap/domain/logs/stream.py:65-101 | the generator, which reads the index anew for each batch, yields exactly the specified response, whose records are those of the order from the one asked for on: all that are left, or as many as the limit allows |
| Stream.EachValueOnce | agent_wrap/domain/logs/stream.py:134-167 | a response sends no blob twice, none the client was taken to hold and none never stored, and every other blob its records refer to that was stored when it began, for any batch size and whatever is stored meanwhile |
| Stream.EachStringOnce | agent_wrap/domain/logs/stream.py:169-203 | nor any interned string twice, and every one stored when it began that its records, or the content sent for them, quote |
| Stream.AnswerSendsOnce | agent_wrap/domain/logs/stream.py:91-101 | an incremental answer sends no blob twice, none that only earlier records refer to and none that the record before the cut refers to, and every other that was stored when it began |
| Viewer.ResolveRecordAgrees | logs_page/app.js:108-128 | with some of the strings on file, a value resolves as all of them together would resolve it, if and only if it misses none of them and is clean: no string of it names an inherited property and no key is `__proto__`, unless nothing is on file at all |
| Viewer.ResolveRecordIsExact | logs_page/app.js:108-128 | in particular, pointers resolve as documented if and only if no string is on file yet or the value is clean |
| Viewer.InheritedNameIsLost | logs_page/app.js:112-115 | the string "constructor" is such a value |
| Viewer.Page.StoreContent | logs_page/app.js:74-77 | files a string under its pointer, a blob resolved against the strings so far |
| Viewer.Page.ReadStream | logs_page/app.js:28-65 | reads the lines in order, hydrating each record with the content filed before it |
| Viewer.Page.Tick | logs_page/app.js:447-509 | appends what the answer brought, or rebuilds exactly when records came with a header count below what the page has |
| SessionExact.BatchExact | agent_wrap/domain/logs/stream.py:134-167 | a batch comes out as meant, whatever the page held before, if and only if every value sent is clean, once a string is on file, and quotes no string that is stored only later |
| SessionExact.ResponseExact | agent_wrap/domain/logs/stream.py:65-101 | so does a whole response, batch by batch, while the index grows under it |
| SessionAtRest.FullLoadIsExact | logs_page/app.js:108-128 | a full load from an index at rest shows the whole session as meant if and only if, from the batch with the first interned string on, no value sent is unclean |
| SessionAtRest.FitsIff | agent_wrap/domain/logs/stream.py:134-203 | a response read from one state of the index fits if and only if it is so unspoilt, and quotes no string and refers to no blob that is stored only later |
| SessionPolls.OnTick | logs_page/app.js:447-509 | the server's generator read by the page's tick leaves the page the protocol says, and rebuilds exactly when the server has more than the page holds while the list entry counts less |
| SessionPolls.PolledStaysFaithful | logs_page/app.js:453-484 | one poll from where the page ends, a rebuild included, keeps a right page right if and only if what it sends fits |
| SessionPolls.AnyCutsExact | agent_wrap/domain/logs/stream.py:65-101 | for every sequence of requests, limits, batch sizes and rebuilds, while the session grows at its end and the index behind it grows from batch to batch, the page shows its records as meant if and only if what it was sent fits: everything since the last rebuild |
| SessionPolls.LastPollCatchesUp | logs_page/app.js:453-484 | a last unlimited poll shows the whole session as known if and only if what was sent up to then fits |
| SessionPolls.RebuildRepairsIff | logs_page/app.js:472-484 | a poll that loads everything again makes a page right if and only if the load fits, wrong as the page may have been |
| SessionServed.AnyCutsEqualOneLoad | agent_wrap/domain/logs/stream.py:65-101 | where the polls fit, the page equals one full load of as many records from the index at rest, exactly if that load is not spoilt |
| SessionServed.RestingPollFitsIff | agent_wrap/domain/logs/stream.py:186-203 | a poll whose answers are read from one state of the index fits if and only if what it sends is unspoilt, and quotes and refers to nothing stored only later |
| SessionServed.CompletePollsFit | agent_wrap/domain/logs/stream.py:134-203 | clean content comes out right for every sequence of polls that find stored what their records quote |
| SessionServed.LateStringIsLost | logs_page/app.js:104-107 | a concrete run: a clean record served between two chunks shows the bare pointer, also after its string is stored and polled for |
| SessionServed.LateStringRepaired | logs_page/app.js:472-484 | a concrete run: a rebuild repairs it |
| SessionServed.WrongUntilReloaded | logs_page/app.js:453-459 | a page that shows something wrong does so until some poll loads everything again |
| SessionServed.UncleanStaysWrong | logs_page/app.js:472-484 | and for good, if a string is on file and something unclean is behind the records shown |
| Serving.CompleteAfterPass | agent_wrap/domain/logs/ingest.py:320-343 | once a pass has completed with nothing swept, any later state of the index holds all that its records, and the values they refer to, quote |
| Serving.PollAfterPassIsComplete | agent_wrap/domain/logs/stream.py:186-203 | so a poll for what that pass indexed finds stored what it sends quotes, however long after it comes |
| Serving.TextsAreStored | agent_wrap/domain/logs/stream.py:179-205 | a pointer finds a text exactly when the content it names is stored, and then that content's |
| Serving.MeantIsTheRecord | agent_wrap/domain/logs/stream.py:207-250 | a page that is right shows a record with the values of its own messages, system prompt and tools, every stored string filled in |
| SessionPolls.ShrunkenSessionStays | logs_page/app.js:461-484 | a session that lost records is answered without records, so the page keeps them and the branch that would rebuild it is not taken, whatever the list entry counts |
| StreamOrder.ShownOrder | agent_wrap/domain/logs/stream.py:103-126 | the loop that carries the last instant forward, then a stable sort |
| StreamOrder.OrderIs | agent_wrap/domain/logs/stream.py:103-126 | every record once, by carried-forward instant, directory and ordinal |
| StreamOrder.GrowsAtItsEnd | agent_wrap/domain/logs/stream.py:103-126 | a longer session's order starts with the old order if and only if every new record follows every old one |
| StreamOrder.OneDirectoryGrowsAtItsEnd | agent_wrap/domain/logs/stream.py:103-126 | with one directory: if and only if no new record starts before an old one |
| StreamOrder.LateRecordGoesInBetween | agent_wrap/domain/logs/stream.py:103-126 | with two directories a late record can land in the middle |
| SessionOrder.LongerSessionIff | logs_page/app.js:453-459 | a page that shows a whole session and polls after more was logged is right again if and only if every new record belongs behind every old one and what is sent fits |
| SessionOrder.ShowsWhatComesBehind | logs_page/app.js:453-459 | whatever the order has become, if what is sent fits the page then shows what it had, and behind it what the order has from there on |
| SessionOrder.LateRecordIsNeverShown | logs_page/app.js:453-459 | a concrete case: one record is shown twice and the late one never |
| LogLines.ParsedAppend | agent_wrap/domain/logs/ingest.py:307-317 | behind a line boundary, parsing the parts and parsing the whole yield the same records |
| IngestPass.SummaryMeans | agent_wrap/domain/logs/ingest.py:397-434 | a session's summary, kept record by record and pass by pass, counts its records, is dated by the last one that has an end, names exactly their models, and carries the last alias and title that say anything |
| IngestPass.TakeLineOk | agent_wrap/domain/logs/ingest.py:346-362 | reading one more complete line keeps rows, summary, interned content and ordinals right |
| IngestPass.CommitOk | agent_wrap/infrastructure/logs/repositories/ingest.py:150-162 | committing a chunk keeps the index right at its new watermark, and the pass right over it |
| IngestReader.BlobAccumulator.InternOne | agent_wrap/domain/logs/ingest.py:259-265 | a value is pending once, whatever its size |
| IngestReader.ReadIngestChunks | agent_wrap/domain/logs/ingest.py:286-343 | an undisturbed pass: the index is right after every chunk, no blob is sent twice, all chunks but the last are cut exactly when full, and at the end rows and summary are what the records of both files call for |
| IngestReader.LagIsBlank | agent_wrap/domain/logs/ingest.py:333-335 | with nothing to commit, the watermark lags only over lines without records |
| IngestSafety.StepKeepsInv | agent_wrap/domain/logs/service.py:168-201 | every step of pass, writer, crash, sweep, retention and replacement keeps index, pass and files consistent, as long as no log file was exchanged for one that reads differently since the index last started over |
| IngestRuns.RowsAreAPrefix | agent_wrap/infrastructure/logs/repositories/ingest.py:150-162 | at every moment the rows are the first records of the file, numbered from 0, the summary says of exactly those what a summary should, and every value a row points at is stored |
| IngestRuns.CompletedPassIsExact | agent_wrap/domain/logs/ingest.py:286-343 | a completed pass, however interleaved, leaves exactly the records of the lines the file had when it ran out of them, and their summary |
| IngestRuns.WatermarkLagsOverBlanksOnly | agent_wrap/domain/logs/ingest.py:333-343 | what lies between watermark and position read to holds no record and no string |
| IngestRuns.PointersResolveUnlessSwept | agent_wrap/domain/logs/ingest.py:365-394 | after a completed pass every pointer a stored row quotes is stored, or its string was swept while the session had read it |
| IngestRuns.PointersResolve | agent_wrap/domain/logs/ingest.py:365-394 | with no such sweep all of them resolve |
| IngestRuns.StringsReadAreStored | agent_wrap/domain/logs/ingest.py:365-394 | every string written to the session's file is stored or swept after a completed pass, which is all that can be said of pointers inside strings |
| IngestRuns.ChunkAheadOfItsStrings | agent_wrap/domain/logs/ingest.py:320-331 | a concrete run: between two chunks the index holds a record whose string, written first, it does not hold yet |
| IngestRuns.SweepsAreHarmlessIff | agent_wrap/infrastructure/logs/repositories/ingest.py:214-264 | every sweep that may run spares this session's strings if and only if each one read and stored is already reachable from a stored request |
| IngestRuns.SweptInTimeResolves | agent_wrap/infrastructure/logs/repositories/ingest.py:214-264 | in every run whose sweeps are taken only then, each completed pass leaves every pointer it stored resolving |
| IngestRuns.SweepOutOfTimeLoses | agent_wrap/infrastructure/logs/repositories/ingest.py:214-264 | wherever a caught-up session has a string read, stored and unreachable, and the writer's next record quotes it, a sweep and the next pass leave a stored record with a pointer that resolves to nothing |
| IngestRuns.QuotedStringsAreAlive | agent_wrap/infrastructure/logs/repositories/ingest.py:306-324 | a string quoted by a stored record is reachable, so a sweep is in time once every string read is quoted |
| IngestRuns.SweptAheadIsLost | agent_wrap/infrastructure/logs/repositories/ingest.py:214-264 | a concrete run: a string read ahead of its record, swept, and never found again |
| IngestRuns.InternedOncePerPass | agent_wrap/domain/logs/ingest.py:222-276 | what a pass has seen is stored or pending, and nothing pending was sent before |
| IngestRuns.RetentionLosesNothingUnreadIff | agent_wrap/domain/logs/service.py:288-314 | when retention deletes a session's files every record in them is stored, if and only if no line behind the index's watermark is a record's; unless the survey was outdated those are the lines completed since the check |
| IngestRuns.RetiredIsExpired | agent_wrap/infrastructure/logs/repositories/ingest.py:172-192 | unless its survey was outdated, what retention is about to delete ended before the cutoff: the last dated record did, and every dated one where the file is in the order of their ends |
| IngestRuns.DeletedUnread | agent_wrap/domain/logs/service.py:288-314 | a concrete run: a record completed in between goes unread |
| IngestRuns.SurveyStillHolds | agent_wrap/domain/logs/service.py:250-262 | the surveyed watermark the check compares with is the index's own, unless a log file was exchanged since |
| IngestRuns.OutdatedSurveyPasses | agent_wrap/domain/logs/service.py:288-314 | a concrete run: emptied and rewritten files of the surveyed size pass the check unread |
| IngestRuns.NeverResetsInError | agent_wrap/domain/logs/ingest.py:118-133 | appending alone never makes a session start over |
| IngestRuns.RestartsIff | agent_wrap/domain/logs/ingest.py:118-133 | a session starts over when a pass begins if and only if one of its files is shorter than its watermark, and the index is right about the files from there on |
| IngestRuns.ReplacementHarmlessIff | agent_wrap/domain/logs/ingest.py:118-133 | every promise holds on past files exchanged for others whose lines, as far as they were read, say the same, and the index is wrong about any others |
| IngestRuns.AlikeByLines | agent_wrap/domain/logs/ingest.py:118-133 | that comes down to the lines: the same records read, and no new string among them that is neither stored nor swept |
| IngestRuns.RowsOfReplacedFileStay | agent_wrap/domain/logs/ingest.py:118-133 | a concrete run: a file of the same length in its place goes unnoticed, and rows stay for records no file holds |
| BlobSweep.Doomed | agent_wrap/infrastructure/logs/repositories/ingest.py:253-324 | the candidates left over are exactly the blobs unreachable from the stored requests |
| BlobSweep.ReachableIsLeast | agent_wrap/infrastructure/logs/repositories/ingest.py:306-324 | reachability is the least set closed under quoted pointers |
| Listing.MergeSessions | agent_wrap/domain/logs/listing.py:30-75 | the loop over rows in key order computes the list |
| Listing.AnyOrderMergesAlike | agent_wrap/domain/logs/listing.py:30-75 | every order of the rows gives the same list |
| Listing.SessionsSumUp | agent_wrap/domain/logs/listing.py:30-75 | one entry for exactly the sessions with records: counts summed, latest clock, models and providers united, first label in key order that says anything; newest first, ties in the order of their first rows |
| Listing.AnyOrderMarksAlike | agent_wrap/domain/logs/listing.py:83-100 | a fingerprint does not depend on row order |
| IndexTable.EqualRevisionsEqualRows | agent_wrap/infrastructure/logs/repositories/sessions.py:34-52 | since stamps never repeat, the same revision at a later time means the same rows |
| IndexTable.RowsStillThereIff | agent_wrap/domain/logs/cache.py:262-296 | rows read after the revision are the current ones, once the revision is as it was, if and only if none of them was deleted since |
| IndexTable.DeletedInBetween | agent_wrap/domain/logs/cache.py:271-275 | a concrete case: a session indexed between the two reads and deleted again stays listed |
| CacheLists.RowsAreCredited | agent_wrap/domain/logs/cache.py:191-218 | a project is credited with exactly the rows whose hash is the name one of its directories resolves to under the central tree, once for every such directory |
| CacheLists.DerivedServes | agent_wrap/domain/logs/cache.py:273-296 | what is derived says of those rows what it should: for every project its sessions summed up, its own mark and one for each session, newest stamp and count of just its rows, and the list of projects |
| CacheLists.ProjectsAreListed | agent_wrap/domain/logs/cache.py:366-386 | the projects with sessions and no others, with their number and latest clock, most recent first, ties in group order |
| CacheLists.MarksAreJoined | agent_wrap/domain/logs/cache.py:388-403 | the projects mark is the latest of the registry's revision and every group's, and counts everything |
| LogsCache.LogsCache.RefreshFromIndex | agent_wrap/domain/logs/cache.py:262-296 | a closed gate changes nothing, an open one derives every list from the rows read |
| LogsCache.LogsCache.Regroup | agent_wrap/domain/logs/cache.py:336-357 | a changed grouping re-opens the gate; directories are compared by name, so links that point elsewhere are not looked at again |
| LogsCache.LogsCache.Reconcile | agent_wrap/domain/logs/cache.py:220-247 | unless neither groups nor revision moved, lists and marks say what they should of the groups found, where their links point and the rows read |
| LogsCache.LogsCache.Rebuild | agent_wrap/domain/logs/cache.py:298-322 | always derives afresh, from where the links point now |
| LogsCache.ClosedGate | agent_wrap/domain/logs/cache.py:262-296 | while the gate is closed the table is the one whose revision was read, and the cached lists equal a derivation from the current rows in any order if and only if none of the rows behind them that a group owns was deleted since |
| LogsCache.RegistryBehindTheGate | agent_wrap/domain/logs/cache.py:388-403 | the cached projects mark is that of the registry as it is now if and only if the registry's count is the one that was joined and its revision is not past the mark's |
| LogsCache.MarkLeftBehind | agent_wrap/domain/logs/cache.py:220-247 | a concrete cache: the registry moves behind a closed gate, and the mark served stays behind |
| Calendar.IsoInOrder | agent_wrap/domain/stats/format_utils.py:44-60 | comparing ISO day keys as strings compares the days (RFC 3339, section 5.1) |
| Calendar.DateOf | agent_wrap/lib/daytime.py:22-31 | ordinals and calendar dates are inverse over all dates Python has |
| Calendar.DaysInTurn | agent_wrap/domain/stats/fold.py:29-36 | hour bucket 0 starts 1970-01-01, and 24 buckets on begins the next day of the calendar, for every day-start offset |
| Calendar.WeekdaysInTurn | agent_wrap/domain/stats/fold.py:86-86 | weekdays follow one another seven in a row, and 1970-01-01 was a Thursday |
| Calendar.BoundsAreTheDayRule | agent_wrap/domain/stats/format_utils.py:14-41 | bounding by hours and testing the day select the same cells, for every day-start offset, with and without a timestamp |
| UsageFold.FoldCells | agent_wrap/domain/stats/fold.py:58-110 | exactly the days some cell of the window falls into, each costing the sum, over the distinct weekdays and hours of its cells, of the price of their merged usage at that weekday and hour; unknown if and only if one of these prices is |
| UsageFold.OneCellCost | agent_wrap/domain/stats/fold.py:168-186 | a single cell costs its own price at its own weekday and hour |
| UsageFold.KeyIsTheClock | agent_wrap/domain/stats/fold.py:86-86 | the key a cell is priced by is the weekday of its UTC date and the hour into that day |
| UsageFold.FoldConserves | agent_wrap/domain/stats/fold.py:155-186 | messages, every token column and the unrecorded count are conserved over exactly the cells in the window, for any choice of projects, days and models |
| UsageFold.AnyOrderPricesAlike | agent_wrap/domain/stats/fold.py:58-110 | counts and costs come out the same for every order of the cells |
| UsageFold.QueryBoundsSuffice | agent_wrap/domain/stats/format_utils.py:14-41 | the query's hour bounds and the fold's day rule agree on every cell |
| Pricing.Tally.Add | agent_wrap/domain/pricing/models.py:61-78 | adding a request is merging its own bucket |
| Pricing.Tally.MergeFrom | agent_wrap/domain/pricing/models.py:80-89 | every column is added, also when a bucket is merged into itself |
| Pricing.MergedOf | agent_wrap/domain/pricing/models.py:91-102 | a new bucket with the fold of the others, which stay as they were |
| Pricing.MillionTokens | agent_wrap/domain/providers/pricing.py:88-94 | every column is charged at its own rate, which is for a million tokens |
| Pricing.MergedCostsNoMore | agent_wrap/domain/providers/pricing.py:59-95 | where all requests and their total fall into the same tier a merged bucket never costs more than its requests, and the same if and only if input is free or no two requests stand on different sides of their cache tokens |
| Pricing.MergedCostsTheSame | agent_wrap/domain/providers/pricing.py:82-85 | in particular where every request's input covers its cache tokens |
| Pricing.FlaggedIff | agent_wrap/domain/providers/pricing.py:82-85 | the convention warning is raised if and only if what is charged for the input's parts is more than the input |
| TierMerging.NeverDearerIff | agent_wrap/domain/providers/pricing.py:80-95 | a tier list charges no merged bucket of non-negative counts more than its requests, if and only if for any two inputs no rate but the input's is higher in the tier of their sum, and what one loses on its input the other saves at the least |
| TierMerging.FallingIsNeverDearer | agent_wrap/domain/providers/pricing.py:80-80 | in particular where no rate rises towards the end of the list |
| TierMerging.TwoTiersIff | agent_wrap/domain/providers/pricing.py:80-80 | and for two tiers that inputs reach only there |
| TierMerging.QwenPlusCanBeDearer | agent_wrap/domain/providers/litellm_dashscope/provider.py:52-69 | so the two tiers of qwen3.7-plus can charge an hour's sum more than its requests |
| TierMerging.RiseCanBeHarmless | agent_wrap/domain/providers/pricing.py:80-80 | a list of four tiers whose input rate rises once and which still never charges more |
| Pricing.WorstCaseBounds | agent_wrap/domain/providers/pricing.py:98-113 | no tier list of a table costs more than the worst case, and some tier of some list costs just that |

## Left out

- The launch pipeline, the two lock loops, the sidecars' start and release, and the ingest service are steps of transition systems, not methods: what is proved about them is their interleaving with other processes.
- A container dying by itself, and an agent container outliving its killed launcher. The legacy-network restart (agent_wrap/domain/sidecars/litellm.py:123-130) is the protocol's replacement of a running container.
- KeyApproval.ClaudeJson.ApproveMasterKey: the document is one that can be read; one that cannot is left alone, which the protocol has as a step of its own. Another program writing it at the same time is not modelled.
- A headless Telegram sidecar registers without starting anything (agent_wrap/domain/sidecars/telegram.py:90-95) and is exempt from the connection theorem.
- An exception inside a low-priority section ends the launcher there, and is treated as its death.
- A registration that raises halfway through the loop over sidecars is not modelled; one that returns nothing is.
- The window between opening a lock file and locking it; taking a ticket or a registration is one step.
- Docker, subprocesses, HTTP, the DOM, spinners and the terminal; containers are a map from name to key and port.
- The path `/` as a project, whose row would sit on the trie's root, and path segments that contain a separator.
- `flatten_tree`'s cell texts: a table body is any function of the tree.
- The width of the terminal is read once per fit, not once per loop.
- PathTreeWalk.WalkDecodes: the walk is modelled on values, since it only reads; the objects are read off as a value first (`FitTable.Read`).
- Terminal cells per name: any measure, the same for measuring and drawing.
- While a session is open the index loses no blob that it is served from, though it may lose strings; a batch is one read of the index.
- JSON parsing: stored blobs are the text of a value, lines are parsed by any fixed function, and integer-like object keys keep their place.
- The response side of a record and its costs are part of the record's own fields; of the meta header only its count is kept.
- Polling's fingerprint gate and rendering; a tick is given its answers.
- A sidecar that keeps its list of written strings in memory while retention deletes its session's files breaks the writer's promise and is not modelled; neither is an `rmtree` that removes some of the files and then fails, nor two retention runs at once.
- A file replaced or removed during a pass rather than between passes.
- SQLite: a chunk is one atomic step, a sweep one step under the ingest lock, other sessions add content between passes.
- `_root_to_pid`, the watcher and the usage tracker; `apply_paths` is a refresh without the registry step.
- LogsCache.RefreshFromIndex: times are integers of one clock whose ingest stamps never repeat.
- Model and provider lists of a session are the sets that are shown sorted.
- UsageFold.FoldCells: leaves out session counts, last timestamps, display model names and `merge_by_day`, which add only easy members.
- IngestSafety.StepKeepsInv: promises nothing about an index whose files were exchanged for others that read differently, until it is noticed; the exact condition is `IngestRuns.ReplacementHarmlessIff`.
- Floats: costs are exact reals; `best_prefix_key`, price scraping, secrets encryption, migrations and the scripts.
