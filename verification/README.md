# A verified model of octo-mail

octo-mail is a mail server whose state lives in PostgreSQL: messages, the outbound queue, the
leader lease, rule executions and report aggregates are rows that many nodes change in
transactions. This project models its hardest parts in Dafny and proves what they promise.

Each SQL statement or transaction is one step over maps, sets and sequences. Where several nodes,
goroutines or processes interleave, the model is a state machine and the results hold in every
reachable state or over every sequence of steps; where the code is one goroutine updating its own
fields, the model is a class whose methods are proved against a specification. Clocks, random
numbers, MACs, DNS answers, message parsing and fault behaviour are parameters, so every result
holds for all of them.

| files | part of octo-mail |
|---|---|
| `ThreadGraph`, `ThreadFold`, `ThreadWorker`, `ThreadRebuild` | the thread projection and its rebuilds |
| `QueueFacts`, `QueueRun`, `QueueSafety`, `QueueTheorems`, `QueueExclusion`, `QueueStore` | the outbound queue and its admin operations |
| `LeaderLease`, `LeaderNode`, `LeaderTicks` | leader election, fencing and the leader's ticks |
| `DmarcReports` | the fenced DMARC aggregate report sender |
| `EmailRows`, `EmailSort`, `EmailPlaces`, `EmailQuery` | JMAP Email/query |
| `WildMatch`, `WildPercent` | IMAP LIST wildcards |
| `Text`, `UidSets` | decimal numbers and lists; IMAP UID sets |
| `JunkTop`, `JunkCounts` | the junk filter's word selection, scores and counters |
| `RuleForward`, `RuleTrace`, `RuleChain`, `ReplyChain`, `MixedChain` | rule forwarding, and chains of automatic mail |
| `IpWarmup` | the warmup IP allocator |
| `SmtpSession` | the SMTP session |
| `Mbox` | mailbox export and import |
| `Sets`, `Options` | choosing elements of sets; values that may be missing |

Check everything with `dafny verify dfyconfig.toml`.

## Where the code and the promise part

Several expected properties are false of the code as it stands. For each there is a witness and the
condition under which the property holds.

- **Thread ids.** The comment in the source says a thread is named by its smallest message id. That
  is so exactly when the smallest message of the component shared no reference with anything
  folded before it (`ThreadIsLeastIdExactly`), always when ids grow in fold order
  (`ThreadIsLeastId`), and not otherwise (`ThreadIdNotLeastOutOfOrder`). Who shares a thread does
  not depend on the order at all.
- **One deliverer per queue message.** It holds exactly when the renewal round trip plus the timer
  drift fit between the delivery timeout and the lease (`ExclusiveExactly`); a lease of one second
  or less leaves no room (`ShortLeaseHasNoMargin`).
- **Fencing tokens.** Resigning deletes the lease row, and epochs start again at 1, so a token can
  pass in a later tenure of its node after another node has led (`TokenOutlivesTenure`). A fence
  commits within the tenure of its token exactly when nobody has resigned since that tenure began
  (`SameTenureExactly`).
- **Advisory locks.** Resigning is meant never to strand the leadership lock, but the errors of
  unlocking are ignored. From a lock in use a step strands it exactly if an unlock fails or the
  reply to taking the lock is lost (`StrandsExactly`); then only the node whose pool has the session
  can lead until it is closed (`StrandedKeepsOut`, `FailedUnlockStrands`).
- **Rebuilding threads.** A rebuild is three statements, each committed on its own. One that stops
  before the cursor is reset leaves mail without threads up to the cursor, where every later drain
  reports success and does nothing (`UnfinishedRebuildLosesThreads`). In every reachable state a
  successful drain completes the projection exactly when all messages up to the cursor are recorded
  (`DrainCompletesExactly`); after an unfinished rebuild that is exactly when there was no message up
  to the cursor (`UnfinishedRebuildExactly`). Once the reset has committed it is so as long as nobody
  commits who read the cursor before the reset (`RebuildThenDrain`); that the messages were selected
  only after it does not help (`StaleCursorLosesThreads`).
- **Email/query pages.** Ascending pages are slices of one list, whatever ties (`PageIsSlice`). The
  descending comparator is not strict. The library sort still does what insertion does, for any
  number of rows (`StableSortIsSort`), but ties come out in reverse, so two pages can show the same
  group (`TiesRepeatAGroup`). Pages are slices of one list if and only if no folded row that comes into
  a window moves a place within sight, where the places that move are counted from the input
  (`PagesExactly`). Descending, without siblings on both sides, that is if and only if no class of tied
  folded rows is larger than the live rows, the live rows not below it and one together
  (`DescendingPagesExactly`).
- **LIST wildcards.** The matcher accepts overlong names for some patterns and misses names of others:
  `*%` matches only names of one level (`ForgetsStar`). A pattern is exact on every name if and only
  if each of its `%` meets two conditions that can be read off the pattern (`ExactExactly`): if it
  comes before a separator without a wildcard right after, then only `%` and single separators stand
  between it and a `*` before it; and if any `*` comes before it, nothing but separators stands
  between it and the next wildcard.
- **UID numbers.** FETCH reads digits as decimal, SEARCH reads a leading zero as octal. They agree
  exactly when a number without leading zero fits in 32 bits, and one with a leading zero is below 8
  or reads as 4294967295 in octal (`NumbersAgreeExactly`).
- **Junk scores.** Rare-word softening keeps scores within the power limits for all counts if and
  only if the rare-word bound is at most 20 or all words it throws past the limits are ignored
  (`ScoreWithinPowerExactly`).
- **HOLDFOR.** The range check multiplies in 64 bits. A number of seconds is granted or refused as it
  should be exactly when its nanoseconds fit in 64 bits or wrap around to more than the limit
  (`HoldForExactly`); other numbers are granted in the past, for now, or for some other time
  (`HoldForWraps`).

## Model

| member | source | states |
|---|---|---|
| ThreadFold.PartitionIsConnectivity | projection/threads.go:190-260 | after folding any list of messages, two share a thread exactly when a chain of shared references connects them |
| ThreadFold.PartitionIgnoresOrder | projection/threads.go:8-11 | folding the same messages in any two orders groups them alike |
| ThreadFold.ThreadIsLeastRoot | projection/threads.go:190-260 | a thread is named by the smallest of its messages that started a thread of its own |
| ThreadFold.ThreadIsLeastIdExactly | projection/threads.go:190-260 | the thread id is the smallest id of the component if and only if that message was unconnected when folded |
| ThreadFold.ThreadIsLeastId | projection/threads.go:136-167 | with ids increasing in fold order the thread id is the smallest id of the component |
| ThreadFold.ThreadIdNotLeastOutOfOrder | projection/threads.go:221-248 | a two-message log whose thread id is not the smallest |
| ThreadFold.UnlinkedStaysAlone | projection/threads.go:136-167 | a message without references, or quarantined because its blob is gone, is alone in its thread whatever is folded around it |
| ThreadFold.RefoldIsNoOp | projection/threads.go:131-167 | folding a message again changes no thread |
| ThreadFold.AnyScheduleSameThreads | projection/threads.go:54-180 | any schedule of chunks that overlap what is folded, repeat it or extend it ends in the thread map of one left-to-right fold |
| ThreadGraph.LabelAlongPath | projection/threads.go:190-260 | a labelling that agrees along links agrees along every chain |
| ThreadGraph.RefLessIsAlone | projection/threads.go:136-167 | without references a message is connected to nothing else |
| ThreadWorker.ThreadWorker.SelectThreads | projection/threads.go:194-219 | the distinct threads found are exactly those of messages recorded with one of the references |
| ThreadWorker.ThreadWorker.Smallest | projection/threads.go:221-230 | the survivor is the least of the threads found |
| ThreadWorker.ThreadWorker.AssignThread | projection/threads.go:190-260 | the message and every thread it touches end in the smallest of them, other rows keep theirs, and its references are recorded |
| ThreadWorker.ThreadWorker.FoldMessage | projection/threads.go:136-167 | folding one message in place is one step of the fold |
| ThreadWorker.ThreadWorker.SelectBatch | projection/threads.go:54-100 | the batch is the next messages after the cursor, in order, up to the batch size |
| ThreadWorker.ThreadWorker.CommitBatch | projection/threads.go:131-180 | a batch is folded and the cursor advanced in one transaction, or nothing changes |
| ThreadWorker.ThreadWorker.CommitLate | projection/threads.go:131-180 | a batch committed late, after whatever happened since it was selected, is folded or changes nothing; if the cursor was not reset meanwhile, no progress is undone |
| ThreadWorker.ThreadWorker.RunOnceAccount | projection/threads.go:54-180 | a failed round changes nothing, a successful one folds the next messages |
| ThreadWorker.ThreadWorker.DrainAccount | projection/threads.go:455-465 | from any tables and cursor and whatever faults the rounds meet, exactly the messages from the cursor to some point are folded, and all of them on success |
| ThreadWorker.ThreadWorker.DrainedFrom | projection/threads.go:455-465 | where the fold had reached the cursor, a drain that reports success leaves every message threaded by connectivity |
| ThreadWorker.ThreadWorker.RebuildAccount | projection/threads.go:545-562 | what each of the three statements leaves behind if it is the last to succeed; if all do, success leaves every message threaded by connectivity |
| ThreadRebuild.StepKeeps | projection/threads.go:54-180 | every delivery, reading of the cursor, selection, commit, failure and rebuild statement keeps the folded messages threaded by connectivity among themselves |
| ThreadRebuild.RunKeeps | projection/threads.go:545-562 | hence so does every interleaving of workers and rebuilds |
| ThreadRebuild.FoldKeeps | projection/threads.go:190-260 | any batch folded over the leftovers of a rebuild is threaded as if they were not there |
| ThreadRebuild.DrainCompletesExactly | projection/threads.go:455-465 | in every reachable state a drain that reports success threads everything by connectivity if and only if every message up to the cursor is recorded |
| ThreadRebuild.UnfinishedRebuildExactly | projection/threads.go:545-562 | a rebuild stopped after one or two statements is repaired by a drain if and only if there was no message up to the cursor; after all three always |
| ThreadRebuild.CommitLeavesNoGapExactly | projection/threads.go:131-180 | committing a batch, after however old a cursor, leaves no message up to the cursor unrecorded if and only if those before the batch are recorded |
| ThreadRebuild.RebuildThenDrain | projection/threads.go:59-75 | once the cursor reset has committed, and until somebody commits who has not read the cursor since or another rebuild begins, a drain that reports success threads everything, whatever goes on beside it |
| ThreadRebuild.NoRebuildNoGap | projection/threads.go:54-180 | without rebuilds a drain that reports success always threads everything |
| ThreadRebuild.UnfinishedRebuildLosesThreads | projection/threads.go:545-562 | a run after which a message has no thread and a drain has nothing to do |
| ThreadRebuild.StaleCursorLosesThreads | projection/threads.go:59-75 | such a run with a whole rebuild, in which nothing was selected before the reset |
| ThreadWorker.ThreadWorker.CaughtUpIsCorrect | projection/threads.go:455-465 | a caught-up account is threaded by connectivity |
| QueueTheorems.LogAndProjectionAgree | mailflow/queue/queue.go:190-224 | in every reachable state a row exists exactly while its log has no terminal entry, there is at most one, and the linked delivery status is terminal exactly when the row is gone and matches the terminal kind |
| QueueTheorems.HooksFireOnce | mailflow/queue/queue.go:601-688 | failure and delay notices each go out at most once per message, a failure notice only for one that failed |
| QueueTheorems.AttemptsAreBounded | mailflow/queue/queue.go:304-334 | the stored attempt count is the number of started deliveries, each number is delivered at most once, and it exceeds the budget by at most the starts never settled |
| QueueTheorems.EndedStaysEnded | mailflow/queue/queue.go:532-576 | once ended, a message keeps its terminal entry and status for good, over any further steps |
| QueueTheorems.AttemptEntryCanFollowTheEnd | mailflow/queue/queue.go:446-475 | recording is not fenced: a reachable state of every deployment has an attempt entry after the terminal one |
| QueueSafety.StepSafe | mailflow/queue/queue.go:378-441 | every step of workers, crashes, lost replies, admin operations and the sweep keeps all of the above |
| QueueSafety.RunSafe | mailflow/queue/admin.go:113-151 | hence every reachable state has them |
| QueueSafety.RetireKeeps | mailflow/queue/queue.go:532-576 | retiring under the lease closes log, row and status together |
| QueueSafety.RescheduleKeeps | mailflow/queue/queue.go:601-688 | rescheduling keeps log, hooks and attempt counts consistent, and marks the delay notice once |
| QueueSafety.AdminKeeps | mailflow/queue/admin.go:159-219 | kick, schedule, hold, require-TLS and drop keep log and row consistent |
| QueueSafety.AdminFailKeeps | mailflow/queue/admin.go:228-300 | failing a message by hand closes it once and owes one notice |
| QueueSafety.SweepKeeps | mailflow/queue/admin.go:400-431 | the retention sweep touches no log entry of a live message |
| QueueExclusion.RunExclusive | mailflow/queue/queue.go:496-526 | with the margin, in every reachable state whoever delivers holds the lease to the end of the delivery, and nobody else delivers |
| QueueExclusion.ExclusiveExactly | mailflow/queue/queue.go:284-334 | no reachable state has two nodes delivering one message if and only if round trip plus skew fit into lease minus delivery timeout |
| QueueExclusion.DoubleSendReachable | mailflow/queue/queue.go:378-441 | without the margin a reachable state has two nodes delivering the same message |
| QueueExclusion.ShortLeaseHasNoMargin | mailflow/queue/queue.go:284-294 | a lease of at most a second is safe only without any round trip or skew |
| QueueFacts.DeliveryMargin | mailflow/queue/queue.go:284-294 | the delivery timeout never exceeds the lease, and by how much it stays below |
| QueueFacts.BackoffFor | mailflow/queue/queue.go:106-122 | the loop doubles the base at most nine times and stops at the cap |
| QueueFacts.BackoffGrows | mailflow/queue/queue.go:106-122 | delays never shrink with attempts and never exceed the cap |
| QueueStore.QueueStore.Enqueue | mailflow/queue/queue.go:190-224 | a new id gets a row, one log entry and its status, and nothing else changes |
| QueueStore.QueueStore.SelectDue | mailflow/queue/queue.go:496-526 | exactly the due, unheld and unleased rows are candidates |
| QueueStore.QueueStore.Claim | mailflow/queue/queue.go:496-526 | the claimed rows are due ones, earliest first up to the batch, leased to the node; no other row changes |
| QueueStore.QueueStore.Earliest | mailflow/queue/queue.go:496-526 | the chosen candidate is one that no other precedes |
| QueueStore.QueueStore.RenewLease | mailflow/queue/queue.go:304-334 | a renewal succeeds exactly while the lease is held, then extends it and counts the attempt |
| QueueStore.QueueStore.RecordAttempt | mailflow/queue/queue.go:446-475 | recording appends one entry whether or not the row still exists |
| QueueStore.QueueStore.RetireMessage | mailflow/queue/queue.go:532-576 | only the lease holder retires, and closes row, log and status together |
| QueueStore.QueueStore.RescheduleMessage | mailflow/queue/queue.go:601-688 | only the lease holder reschedules; says whether a delay notice is due, at most once |
| QueueStore.QueueStore.MutateLog | mailflow/queue/admin.go:113-151 | every affected row gets exactly one log entry |
| QueueStore.QueueStore.DropRows | mailflow/queue/admin.go:214-219 | dropped rows are gone, logged and closed; others stay |
| QueueStore.QueueStore.CleanupRetired | mailflow/queue/admin.go:400-431 | exactly the expired entries go |
| LeaderLease.FencedCommitIsExclusive | ops/ha/ha.go:295-339 | a fenced transaction commits while the lease names its node and captured epoch, and from check to commit nobody acquires or gives up the lease |
| LeaderLease.CommitWasChecked | ops/ha/ha.go:295-339 | every commit was preceded by its check |
| LeaderLease.LiveLeaderHoldsLease | ops/ha/ha.go:217-280 | at most one node has a live leadership session, and the lease names it at its epoch |
| LeaderLease.EpochsIncrease | ops/ha/ha.go:163-172 | between deletions of the lease row epochs strictly increase |
| LeaderLease.SameTenureExactly | ops/ha/ha.go:344-356 | a fence commits within the tenure of its token, with no acquisition since, if and only if no leader has resigned since that tenure began |
| LeaderLease.TenureStart | ops/ha/ha.go:125-188 | every tenure that a token can come from began with an acquisition |
| LeaderLease.TokenOutlivesTenure | ops/ha/ha.go:344-356 | after another node led and resigned, a fence with an old token passes its check and can commit |
| LeaderLease.StrandsExactly | ops/ha/ha.go:358-375 | from a lock in use, a step leaves it with a pooled session if and only if its unlock fails or the reply to taking it is lost |
| LeaderLease.NeverStranded | ops/ha/ha.go:351-356 | over every run without such a step the lock is free, or its node leads or campaigns |
| LeaderLease.StrandedKeepsOut | ops/ha/ha.go:358-375 | while a stranded lock is not closed and no primary changes, nobody leads but the node whose pool has it |
| LeaderLease.FailedUnlockStrands | ops/ha/ha.go:358-375 | a reachable state in which nobody leads and no node but one can take the lock |
| LeaderNode.LeaderNode.TryAcquire | ops/ha/ha.go:125-188 | lock then lease or neither; a failed attempt changes nothing but the lease row if the claim's reply was lost, and the lock if its reply was lost or its unlock failed |
| LeaderNode.LeaderNode.IsLeader | ops/ha/ha.go:217-249 | steps down on a closed connection or a definite answer that the lock is gone, and on nothing else |
| LeaderNode.LeaderNode.Heartbeat | ops/ha/ha.go:258-280 | steps down when the lease is not ours or the connection is closed; an error on a live connection keeps leadership |
| LeaderNode.LeaderNode.FenceExec | ops/ha/ha.go:295-339 | the work is applied exactly when it gets its transaction and the row lock, succeeds, and the lease names this node at its epoch; nothing else changes |
| LeaderNode.LeaderNode.Resign | ops/ha/ha.go:344-375 | the lease row goes only while it is ours, and stays if the delete fails; the lock goes exactly if the unlock succeeds on a session that took it once |
| LeaderNode.LeaderNode.Campaign | ops/ha/coordinator.go:69-114 | OnElected and OnLost exactly on changes of the cached view, no new campaign in the interval of a fence, and what each way of losing leadership leaves of lock and lease |
| LeaderTicks.OneTickInFlight | ops/ha/coordinator.go:127-149 | over every interleaving of campaigns, ticks, cancellation and shutdown at most one tick is in flight |
| LeaderTicks.TickBeganAsLeader | ops/ha/coordinator.go:134-149 | whatever tick runs found on its re-check that the cached view said leader and nothing was cancelled |
| LeaderTicks.NoTickBeginsAfterLoss | ops/ha/coordinator.go:127-149 | once the cached view is lost no tick begins until a campaign says leader again |
| LeaderTicks.NoTickAfterResign | ops/ha/coordinator.go:54-67 | when the coordinator resigns no tick is in flight, and none ever is again |
| LeaderNode.LeaderNode.Shutdown | ops/ha/coordinator.go:54-67 | leadership is given up, and OnLost called if it was held |
| DmarcReports.ClaimIsItsReport | ops/reportdb/generate.go:224-241 | whatever flips an aggregate row is a claim that flips exactly the rows of its report, at the stated counts, all of its domain and address, while the lease names the job's node and epoch |
| DmarcReports.ReportedForGood | ops/reportdb/generate.go:25-33 | a reported row stays reported, so none is flipped twice |
| DmarcReports.StepFlipsOnce | ops/reportdb/generate.go:224-241 | no row is in two claims, whatever step comes next |
| DmarcReports.SubmissionIsItsClaim | ops/reportdb/generate.go:195-256 | each submitted report is the report of its own committed claim, goes to the address that was authorized, and is submitted once |
| DmarcReports.TransientChangesNothing | ops/reportdb/generate.go:215-222 | a transient authorization result changes nothing, then or later |
| DmarcReports.GenerateReport | ops/reportdb/generate.go:68-137 | one record per row, and the window spans exactly from the first day to the end of the last |
| EmailQuery.Query | protocol/jmapd/mail.go:222-343 | the total is the number of groups on either side, none missed up to the cap; the page is the requested slice of the database's list if nothing is live, and of the sorted union if nothing moves |
| EmailQuery.MergePage | protocol/jmapd/mail.go:295-341 | window, dedup, library sort and cut give the page that the results below are about |
| EmailQuery.MovesExactly | protocol/jmapd/mail.go:295-330 | which places show another group when the window grows by a row, exactly, from counts of the rows before and after it |
| EmailQuery.PagesExactly | protocol/jmapd/mail.go:295-341 | in either order, with siblings on both sides, all pages are slices of some one list if and only if no folded row that comes into a window moves a place within sight of a page |
| EmailQuery.SettledPageIsSlice | protocol/jmapd/mail.go:295-341 | where nothing moves at all, every page is the slice of the whole sorted union |
| EmailQuery.PageIsSlice | protocol/jmapd/mail.go:295-341 | ascending with any ties, or without ties among folded rows, nothing moves |
| EmailQuery.FewTiesSettleSiblings | protocol/jmapd/mail.go:295-341 | descending with siblings on both sides, nothing moves as long as no class of tied folded rows is larger than the live rows, those above it without a sibling and one together |
| EmailQuery.DescendingPagesExactly | protocol/jmapd/mail.go:295-341 | for any number of rows, all descending pages are slices of some one list if and only if no class of tied folded rows is larger than the live rows, those not below it and one together |
| EmailQuery.TiedPagesRepeat | protocol/jmapd/mail.go:319-330 | where all rows tie, every one-row page behind the live rows shows the same group |
| EmailQuery.TiesRepeatAGroup | protocol/jmapd/mail.go:319-330 | five rows of one size whose second and third page show the same group |
| EmailQuery.ListingHoldsEachGroup | protocol/jmapd/mail.go:308-330 | the list is in key order and holds each group on either side exactly once |
| EmailQuery.LiveRows | protocol/jmapd/mail.go:245-256 | one row per matching group, and every matching group has one |
| EmailQuery.CountIn | protocol/jmapd/mail.go:264-279 | the overlap is the number of groups on both sides |
| EmailQuery.Dedup | protocol/jmapd/mail.go:308-318 | one row per group, none lost |
| EmailSort.StableSortIsSort | protocol/jmapd/mail.go:319-330 | the library sort, with its blocks and SymMerge, gives what insertion gives for any number of rows, in spite of a comparator that holds on ties |
| EmailSort.SymMerge | protocol/jmapd/mail.go:319-330 | on sorted blocks the cutting and rotating merge is the plain merge, in which rows of the second block go in front of those they are before |
| EmailSort.SortIsSorted | protocol/jmapd/mail.go:319-330 | the sort gives the same rows by key, ties in input order when ascending and in reverse when descending |
| EmailPlaces.SortWithOneMore | protocol/jmapd/mail.go:319-330 | one row more in the input is one row more in the sorted list, at the place counted from the rows before and after it |
| EmailRows.UniqueParts | protocol/jmapd/mail.go:305-318 | folded rows followed by live ones lose exactly the live rows of folded groups |
| EmailQuery.PagesTile | protocol/jmapd/mail.go:331-338 | consecutive pages list every group exactly once |
| WildMatch.WildMatch | protocol/imapd/list.go:267-307 | the loop ends on every pattern and name, with the verdict the results below are about |
| WildMatch.AcceptsOnlyLanguage | protocol/imapd/list.go:267-307 | nothing outside the language of section 6.3.8 of RFC 3501 is accepted if no `%/` is bare, or the name has one level |
| WildMatch.AcceptsWholeLanguage | protocol/imapd/list.go:267-307 | nothing of the language is missed if no `%` follows a `*`, or the name has one level |
| WildMatch.ExactWithoutPercent | protocol/imapd/list.go:267-307 | without `%`, last-star backtracking decides the language |
| WildPercent.ExactExactly | protocol/imapd/list.go:267-307 | for every pattern, the matcher decides the language on all names if and only if every `%` is tame: a bare separator behind it only if a `*` before it can shift what comes between, and behind a `*` nothing but separators before the next wildcard |
| WildPercent.ExactWithoutStar | protocol/imapd/list.go:279-299 | without `*`, it is exact on every name if and only if every `%/` has a wildcard right behind it |
| WildPercent.TameIsExact | protocol/imapd/list.go:267-307 | in a tame pattern every `%` behind a `*` can be read as `*`, by the matcher and by the language |
| WildPercent.WildIsInexact | protocol/imapd/list.go:267-307 | for any other pattern, a name on which matcher and language differ |
| WildPercent.AcceptsOverlong | protocol/imapd/list.go:295-300 | a bare `%/` takes in any number of levels too many |
| WildPercent.MissedIsRejected | protocol/imapd/list.go:279-299 | a `%` behind a `*` that does not run into a wildcard makes the matcher reject a name of the language |
| WildPercent.ForgetsStar | protocol/imapd/list.go:279-284 | `*%` stands for every name and matches exactly those of one level |
| UidSets.CompressUidList | protocol/imapd/commands.go:374-406 | an increasing list is printed as its runs; anything that is not a number makes it print the list as it is |
| UidSets.Collapse | protocol/imapd/commands.go:386-404 | the loop prints the runs of the list |
| UidSets.RunsHold | protocol/imapd/commands.go:386-404 | the runs hold exactly the listed numbers |
| UidSets.RunsApart | protocol/imapd/commands.go:386-404 | the runs are in order and maximal |
| UidSets.PrintedSetIsExact | protocol/imapd/commands.go:374-453 | reading a printed list back accepts exactly the listed UIDs, from maximal ranges |
| UidSets.ParseUidSet | protocol/imapd/commands.go:419-443 | one ordered range per part, as each part reads |
| UidSets.Accepts | protocol/imapd/commands.go:445-452 | the matcher accepts exactly the numbers within a range |
| UidSets.MatchSetStar | protocol/imapd/search.go:447-466 | true exactly when a part of the set matches |
| UidSets.NumbersAgreeExactly | protocol/imapd/search.go:468-475 | on every digit string, exactly when the two number readers agree: fitting in 32 bits without a leading zero; with one, below 8 or 4294967295 in octal |
| UidSets.SetsAgree | protocol/imapd/search.go:447-475 | on every well-formed sequence-set of section 9 of RFC 3501 both implementations mean the same messages |
| JunkTop.Select | junkfilter/junkfilter.go:151-222 | whatever order the words come in, the kept scores are those of the n most hammy and the n most spammy of all |
| JunkTop.RankedIgnoresOrder | junkfilter/junkfilter.go:157-198 | the ranking of all words does not depend on map iteration order |
| JunkTop.SkipStandsFor | junkfilter/junkfilter.go:183-199 | a word that the running bound skips is not among the n best |
| JunkTop.SortWords | junkfilter/junkfilter.go:203-216 | sorting with the tie-break gives the sorted scores and loses no word |
| JunkCounts.JunkFilter.Train | junkfilter/junkfilter.go:245-291 | counters stay exactly the numbers of trained messages, in total and per word; a message without words trains nothing |
| JunkCounts.JunkFilter.CountsWithinTotals | junkfilter/junkfilter.go:269-289 | no word count exceeds the account total |
| JunkCounts.ScoreWithinPowerExactly | junkfilter/junkfilter.go:162-179 | scores stay within the power limits for all counts if and only if the rare-word bound is at most 20, or the strongest word seen once is ignored |
| RuleForward.ForwardedAtMostOnce | mailflow/mailrules/processor.go:108-188 | over any interleaving of calls and crashes at most one submission per account, rule and Email may have gone out, and per trusted Message-ID |
| RuleForward.ResubmittedOnlyAfterRejection | mailflow/mailrules/processor.go:258-316 | over every run, a forward is submitted again only after the earlier submission was rejected for certain and its own call recorded that |
| RuleForward.StepSentIsFinal | mailflow/mailrules/processor.go:296-316 | once a forward may have gone out no step makes its execution reclaimable |
| RuleForward.Processor.Process | mailflow/mailrules/processor.go:108-182 | every rule is handled in turn, whatever fails at the reservations and finishing updates; nothing is submitted whose execution was not free or known to have failed, and what is not finished stays matched |
| RuleTrace.FormatRuleTrace | mailflow/rulemetadata/metadata.go:316-339 | exactly the valid traces are formatted |
| RuleTrace.ParseRuleTrace | mailflow/rulemetadata/metadata.go:341-381 | accepts exactly the texts that list a valid trace, and returns that trace |
| RuleTrace.TraceRoundTrip | mailflow/rulemetadata/metadata.go:333-381 | every valid trace is read back from its text, and nothing else is |
| RuleTrace.CountParts | mailflow/rulemetadata/metadata.go:345-350 | counting separators bounds the number of entries |
| RuleChain.CheckMetadata | mailflow/rulemetadata/metadata.go:226-249 | accepted exactly when the trace is valid, as long as the hop says, and ends with the signing rule |
| RuleChain.RulesDistinct | mailflow/mailrules/processor.go:572-582 | no rule forwards twice in a chain |
| RuleChain.HopIsLength | mailflow/mailrules/processor.go:626-659 | the last forward states the whole chain, and its hop is the chain's length |
| RuleChain.ChainIsBounded | mailflow/mailrules/processor.go:572-582 | a chain is no longer than there are rules |
| ReplyChain.VerifyInvertsNext | mailflow/autoreplychain/chain.go:93-193 | a reply verifies with its trace and count, for its recipient, exactly within its time window |
| ReplyChain.NextCounts | mailflow/autoreplychain/chain.go:162-193 | a reply counts one more than a genuine source, 1 otherwise, and never over the limit |
| ReplyChain.CountsUp | mailflow/autoreplychain/chain.go:146-211 | whatever the times and recipients, replies to replies count up by one within one trace |
| ReplyChain.ChainIsBounded | mailflow/autoreplychain/chain.go:146-222 | a chain of replies, begun by ordinary mail or a trusted forward, has at most maxCount members |
| MixedChain.OnlyAnswersAfter | mailflow/mailrules/processor.go:572-582 | after the first automatic reply in a chain of forwards and replies there are only replies |
| MixedChain.ChainIsBounded | mailflow/autoreplychain/chain.go:154-222 | a chain of forwards and replies is no longer than the number of rules and maxCount together |
| ReplyChain.CanonicalAgain | mailflow/autoreplychain/chain.go:268-282 | canonical recipients and Message-IDs are their own canonical forms |
| IpWarmup.NeverOverCap | mailflow/deliverability/iprouter.go:58-142 | in every reachable state an IP with a cap has sent no more than the cap allows, a negative one allowing nothing |
| IpWarmup.NegativeCapNeverLeased | mailflow/deliverability/iprouter.go:58-127 | an IP with a negative explicit cap is always at its cap and never leased |
| IpWarmup.LeasesWithinCap | mailflow/deliverability/iprouter.go:58-127 | between two resets no capped IP is leased more often than its cap |
| IpWarmup.MaintainedOncePerDay | mailflow/deliverability/iprouter.go:158-191 | maintenance takes effect at most once per UTC day, on days in order |
| IpWarmup.MaintenanceAdvances | mailflow/deliverability/iprouter.go:206-241 | maintenance moves exactly the IPs that used up their stage, by one stage, and never one whose explicit cap is below its stage's |
| IpWarmup.LeaseSourceIp | mailflow/deliverability/iprouter.go:58-127 | the first candidate with capacity left, or none exactly when all are at cap; the preferred one if the rows come in order |
| SmtpSession.Session.Serve | protocol/smtpd/server.go:277-411 | whatever commands come: recipients imply MAIL and are of one kind and at most RCPTMAX, BDAT bytes stay within the size, and everything enqueued was sent by the account then authenticated from an address it owned |
| SmtpSession.Session.StartTls | protocol/smtpd/server.go:439-461 | forgets transaction and authentication, or changes nothing |
| SmtpSession.Session.Auth | protocol/smtpd/server.go:490-528 | a failure changes nothing; a success forgets the transaction |
| SmtpSession.Session.Mail | protocol/smtpd/server.go:666-742 | accepted in submission only for an owned address after AUTH; a refusal leaves the session as it was or without a transaction |
| SmtpSession.Session.Rcpt | protocol/smtpd/server.go:835-912 | adds one recipient to the list of its kind, or nothing |
| SmtpSession.Session.Data | protocol/smtpd/server.go:914-951 | out of sequence it changes nothing, otherwise it ends the transaction with its outcome |
| SmtpSession.Session.Bdat | protocol/smtpd/server.go:956-988 | chunks add up until the last, which is handled like DATA; one too large, last or not, ends the transaction |
| SmtpSession.Session.Burl | protocol/smtpd/server.go:995-1021 | only for an authenticated sender with recipients, then handled like DATA |
| SmtpSession.Session.ProcessData | protocol/smtpd/server.go:1025-1104 | routed by the kind of recipients; the transaction always ends |
| SmtpSession.HandledOnce | protocol/smtpd/server.go:1032-1062 | a bounce or report address is handled exactly once however often it is given |
| SmtpSession.HoldForExactly | protocol/smtpd/server.go:711-725 | a 64-bit number of seconds is granted exactly from 0 to 90 days, and for that long, if and only if its nanoseconds fit in 64 bits or wrap around to more than the limit |
| SmtpSession.HoldForWraps | protocol/smtpd/server.go:719-725 | four numbers that wrap: granted in the past, refused, granted for now, granted for 100 seconds |
| Mbox.ImportInvertsExport | ops/mailboxops/mbox.go:39-136 | importing an export delivers every message that is not blank, in order |
| Mbox.RestoredLines | ops/mailboxops/mbox.go:88-105 | each with its original lines and exactly one empty line more |
| Mbox.EscapeRoundTrip | ops/mailboxops/mbox.go:65-80 | no escaped line can be taken for a separator, and unescaping restores the line |
| Mbox.ExportMbox | ops/mailboxops/mbox.go:39-62 | the text is, per message, the separator, the escaped lines and an empty line |
| Mbox.ImportMbox | ops/mailboxops/mbox.go:84-136 | up to the first error of the scanner or of a delivery, what reading line by line collects is delivered in order; success exactly if there is no error |
| Text.SplitJoin | mailflow/rulemetadata/metadata.go:333-339 | splitting a joined list gives the list back |
| Text.ParseIsValue | protocol/imapd/commands.go:428-434 | digits within the bound are read as their value |

## Left out

- The storage layer, directory, web interfaces, metrics, wiring and configuration reading: they would only add easy members.
- DKIM, SPF, DMARC evaluation, SASL exchanges, TLS, DNS and MIME parsing: outcomes are parameters; MACs and their encoding are functions with only the laws the code relies on.
- Interleaving inside a transaction: each transaction is one step, except the fenced DMARC claim, whose snapshot, check and commit are separate steps.
- Threads: garbage collection of messages, summary columns and full-text folding, and what a rebuild does to them; a message's references are fixed.
- Queue: jitter in backoff, the wording of errors, `require_tls` and result payload columns, and which hold rule matches an enqueued message.
- Queue: `HoldRuleAdd` sets hold without a log entry, so hold is not claimed to follow from the log.
- Leader lease: replication lag; a promotion keeps the committed lease row.
- DmarcReports.GenerateReport: the XML around the records; and which pending address is picked first (the code takes the greatest, the model any).
- DMARC counts added to a row after it was claimed are not claimed to be reported: recording them does not reopen the row.
- EmailQuery.Query: filter parsing and SQL matching; the folded list and the live verdicts are inputs.
- EmailQuery.PagesExactly: folded and live siblings of one group are taken to share the sort key, as copies of a message do; so they are in the results after it.
- EmailQuery.DescendingPagesExactly: siblings of one group on both sides are covered by the exact condition of `PagesExactly` and the bound of `FewTiesSettleSiblings`.
- EmailSort.StableSortIsSort: `sort.SliceStable` is Go's, not part of the repository, and is modelled from its algorithm; it works in place by swaps and rotations, here the blocks are values.
- UidSets.MatchSetStar: only the characters that SEARCH admits in a set; Sscan's handling of other characters is not modelled.
- `matchSet`, which resolves `*` to the value it is asked about.
- JunkTop.Select: the log-odds sum and the final probability; they are functions of the score sequences. Scores are reals, so rounding is not modelled.
- Concurrent `Train` transactions: each is one step.
- RuleForward.Processor.Process: matching of conditions and composing of messages; their outcomes are inputs. Other calls beside it are in the runs of `ForwardedAtMostOnce`.
- ReplyChain.VerifyInvertsNext: trace-id letters outside ASCII, and a header that cannot be parsed at all.
- ReplyChain.CanonicalAgain: lower-casing is that of ASCII and spaces are those of Latin-1.
- RuleChain.CheckMetadata: the address, Message-ID, recipient and expiry checks; whether they pass is an input of the chains.
- IpWarmup.NeverOverCap: changes of an explicit cap in the middle of a day.
- SmtpSession.Session.ProcessData: the texts of replies, including the delivery-error replies that are built after the reset; greylisting, reputation and junk verdicts are inputs.
- Mbox.ImportMbox: which line is too long for the scanner; the number of lines it reads is an input.
- `IsLeader` and `FenceExec` on the wrong server: a leadership session on a demoted primary is modelled as lost but not yet noticed.
