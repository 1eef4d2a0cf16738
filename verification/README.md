# JuliusCaesar: a Dafny model of its durable parts

This project models the parts of the repository that must survive crashes,
retries and concurrent workers, and proves what they promise.

- **The gateway's durable queue** (`lib/gateway/queue.py`, driven by
  `runtime.py` and `delivery.py`). `QueueTable` and `DeliveryLedger` say what
  each SQL statement does to the two tables; `QueueStore` is the object over
  them. `GatewayProtocol` is a step machine in which any number of workers,
  expiry passes and operators interleave, one statement or immediate
  transaction at a time, over an unbounded table, with crashes between any two
  steps and an adversarial transport. `DeliveryHolders`,
  `ReplySafety` (at-most-once replies), `UnclearSends` (a send of unknown outcome is
  final), `ReplySteps`, `QueueSafety` (row shape, fencing, bounded work),
  `QueueWaits` (delays are waited out), `BoundedClaims`, `HistoryCounts` and
  `QueueIndex` prove what every run keeps.
- **Around the queue**: `ReplyDelivery` (when a second send is allowed),
  `ParallelSlots` (slots of one conversation), `LeaseHeartbeat` (lease
  arithmetic over real moments), `Timestamps` (why integer seconds stand for the
  stored texts).
- **The fallback config format**: `PyText`, `ConfigYaml`, `ConfigDocument`
  (recursive printer, indentation-stack parser, and that one undoes the other),
  `ConfigRoundTrip` (exactly which lists, keys and documents come through,
  and what no text can bring through the reader),
  `ConfigReading` (what hand-written values and lines read as),
  `ChatLists` (edits of the chat id lists).
- **Persona macros**: `PersonaMacros`, `MacroNames`, `MacroRoundTrip`.
- **The company outbox**: `OutboxFiles`, `Outbox`, `OutboxLimits`, `OutboxRuns`.
- **Approvals**: `Approvals`, `ApprovalRuns`.
- **The shared auth file** (section 6 of RFC 6749): `CodexAuth`, `CodexRuns`.
- **Commitments**: `Commitments`, `CommitmentRuns`.
- **The accountability audit log**, whose writer and reader live in two
  packages: `AuditLog`, `AuditRoundTrip`, `AuditVerdicts`.

Code that changes state in the repository is a class or a method with a loop
here, proved against functions on values; what the repository promises is then
proved about those functions, one step at a time and over whole runs.

Where the code falls short of a promise, the model keeps the code, and a lemma
says exactly when it is met:

- `registry.deliver` swallows every exception and returns `None`, which the
  docstring of the reply path reads as "not delivered".
  `ReplyDelivery.SwallowedTimeoutIsUnfaithful` is the case it misses, and
  `ReplySafety.AtMostOnceIffFaithful` says what at-most-once needs.
- The queue's default does not forward the retry limit to the inline expiry
  pass; then claims are unbounded (`BoundedClaims.ClaimsBoundedIffCapped`).
- `fail` without a token can requeue a finished row and leave its finish time
  (`QueueSafety.UnguardedFailShape`, `QueueSafety.UnguardedFailBreaksShape`).
- Slots are not exclusive for events without a conversation id
  (`ParallelSlots.SlotsExclusiveIffConversation`).
- The lease heartbeat's interval is never below 30 seconds, so shorter leases
  lapse between renewals (`LeaseHeartbeat.OnScheduleIff30`).
- The docstring of the macro translator promises the round trip for all texts;
  a text that names a canonical macro itself does not come back
  (`MacroRoundTrip.RoundTripIffNoMacros`), and some text is lost whenever a
  source is part of a name that an earlier entry puts in
  (`MacroRoundTrip.PlainTextsComeBackIff`).
- A list item with a comma, an edge blank or the text ~ does not come
  back from the fallback config format (`ConfigRoundTrip.ListRoundTripIff`).
- A crash between the reply with a rotated refresh token and its write leaves
  the replaced token in the file (`CodexRuns.EveryPostFromTheStartIsSafe`,
  `CodexRuns.CrashBeforeWriteSpoilsTheFile`).
- `drain` with a negative batch deletes what it has not sent
  (`OutboxFiles.DrainConservesIff`).
- Writing a commitment drops the fraction of its due second, which can add a
  tick to catching up (`CommitmentRuns.CatchUpFromDueIff`).
- An odd run of backslashes before a pipe splits a cell of the audit log
  (`AuditRoundTrip.RowReadsBackIff`).

## Model

| member | source | states |
|---|---|---|
| `QueueTable.MintedTokensAreDistinct` | lib/gateway/queue.py:31-36 | Two minted claim tokens are equal exactly when worker id and random part are; every minted token is recognised as one, and a plain worker name is not |
| `QueueTable.BatchIds` | lib/gateway/queue.py:495-545 | The rows one claim takes, after its expiry pass: empty exactly when nothing is ready, else led by the first ready row and holding exactly the rows of its batch, in id order |
| `QueueStore.Store.Enqueue` | lib/gateway/queue.py:222-267 | Insert-or-ignore on (source, message id): when a row goes in, each of its columns, and a row with that key in either case |
| `QueueStore.Store.RequeueExpired` | lib/gateway/queue.py:270-348 | The two guarded updates together are one row-wise expiry pass: a lapsed claim is released and counts as a retry, requeued at once or failed when the limit is passed, column by column; the returned ids are exactly the requeued rows |
| `QueueStore.Store.RenewLease` | lib/gateway/queue.py:351-390 | Moves the lease of exactly the listed rows still running under the token, and returns how many those are |
| `QueueStore.Store.ClaimNext` | lib/gateway/queue.py:393-460 | Expiry pass, then at most the oldest row that is queued, due and of a listed source, under the given token; nothing exactly when there is none; every column of the claimed row, and every other row as the pass left it |
| `QueueStore.Store.ClaimBatchSameConversation` | lib/gateway/queue.py:463-560 | The same with the rest of the conversation, each of them queued, due and of a listed source; the returned events are the claimed rows in id order |
| `QueueStore.Store.BeginDelivery` | lib/gateway/queue.py:593-646 | Verdict and new ledger: a missing row is reserved, a sent one answers its id, one's own reservation proceeds, another claim's is ambiguous |
| `QueueStore.Store.FinishDelivery` | lib/gateway/queue.py:649-665 | Marks an existing reservation sent; creates no row |
| `QueueStore.Store.ClearDelivery` | lib/gateway/queue.py:668-693 | Removes the row exactly when this claim still holds it as sending |
| `QueueStore.Store.Complete` | lib/gateway/queue.py:709-762 | Succeeds exactly when the row exists and, with a token, is still running under it; every column of the finished row, the rest of the table untouched |
| `QueueStore.Store.Fail` | lib/gateway/queue.py:765-864 | The same guard; failure number k is requeued after the k-th delay, or the last one, while k is within the limit, else the row fails; every column of the new row |
| `QueueStore.Store.RetryNow` | lib/gateway/queue.py:867-888 | Requeues any existing row at once without touching its retry count |
| `QueueStore.Store.ResetRunningToQueued` | lib/gateway/queue.py:891-1006 | Compare-and-set on the running row's token; requeues without spending a retry, optionally dropping the resume session |
| `QueueStore.Store.MarkEventFailed` | lib/gateway/queue.py:1014-1040 | Fails exactly a running row |
| `QueueStore.Store.CompleteBatch` | lib/gateway/runtime.py:867-887 | The completion loop after a claim finishes exactly the rows of the batch still owned and leaves every other row alone |
| `QueueSafety.RowsAfterRowwise` | lib/gateway/queue.py:286-346 | The stale reads of the expiry pass and of fail never matter: every step acts on each row as if its read and its guarded write were one |
| `QueueSafety.QueueOkOnEveryRun` | lib/gateway/queue.py:270-460 | The table invariant holds in every interleaving of workers, expiry passes, resets and operators |
| `QueueSafety.TableShapeOnEveryRun` | lib/gateway/queue.py:102-135 | In every run: running goes with a lock and a lease, done or failed with a finish time |
| `QueueSafety.UnguardedFailShape` | lib/gateway/queue.py:805-864 | An unguarded fail keeps that shape except exactly when it requeues a row that had ended |
| `QueueSafety.UnguardedFailBreaksShape` | lib/gateway/queue.py:805-864 | The failing case: a done row with retries left is queued again with its finish time kept |
| `QueueSafety.FencedForever` | lib/gateway/queue.py:31-36 | Once a token is no longer a row's lock, it never is again, whatever happens after |
| `QueueSafety.FencedTokenIsPowerless` | lib/gateway/queue.py:351-390 | From then on every guarded complete, fail, reset and renewal with it leaves the row as it is, and the ownership count misses it |
| `QueueSafety.DoneOnlyByLatestClaim` | lib/gateway/queue.py:709-762 | A row becomes done only by a completion with the token of its latest claim, while running |
| `QueueSafety.FailOnlyByLatestClaim` | lib/gateway/queue.py:765-864 | A fail that changes a row was made with the token of that row's latest claim, while the row was running |
| `QueueSafety.EndedUntilRetried` | lib/gateway/queue.py:709-888 | A row that is done or failed stays exactly as it is until an operator retries it |
| `QueueSafety.OneFinishBetweenRetries` | lib/gateway/queue.py:709-888 | Over any stretch of a run without an operator retry a row ends at most once, and only if it had not ended |
| `QueueSafety.FinishesAreBounded` | lib/gateway/queue.py:709-864 | Counted over a whole run, a row ends at most once more than operators requeued it |
| `QueueSafety.ClaimsAreBounded` | lib/gateway/queue.py:393-460 | With the retry limit m forwarded, at most (m+1) claims per operator retry and one, plus one per silent reset; a live row's retry count stays within m |
| `HistoryCounts.CountersCount` | lib/gateway/queue.py:393-460 | The counters of these bounds are the claims that took the row, the operator retries, resets and finishes that happened in the run |
| `QueueSafety.WorkDecreases` | lib/gateway/queue.py:270-348 | A measure over the whole table drops on every step that changes it, other than arrivals, renewals, resets and operator retries |
| `BoundedClaims.ClaimsBoundedIffCapped` | lib/gateway/queue.py:393-425 | Unattended runs have a bound on claims per event exactly when the limit m is forwarded to the inline expiry pass, and then the least bound is m+1 |
| `BoundedClaims.PoisonRun` | lib/gateway/queue.py:290-346 | An event whose worker always dies is claimed n times, for every n without the limit, and up to m+1 times with it |
| `QueueIndex.UniqueMessagesOnEveryRun` | lib/gateway/queue.py:133-135 | In every run at most one row per (source, message id), and no row is ever lost |
| `QueueIndex.RepeatsChangeNothing` | lib/gateway/queue.py:222-267 | Enqueueing a stream with repeats equals enqueueing its first occurrences |
| `QueueIndex.StatusCountsPartition` | lib/gateway/queue.py:1057-1059 | The per-status counts sum to the rows ever inserted |
| `QueueIndex.ClaimIsExact` | lib/gateway/queue.py:463-560 | The claimed set is the oldest row that is queued, due and of a listed source and, when coalescing, exactly the other such rows of its conversation; other unexpired rows are untouched |
| `QueueWaits.QueuedRowWaits` | lib/gateway/queue.py:428-434 | In every run a queued row stays as it is, and is in no claim, until its moment comes or an operator retries it |
| `QueueWaits.FailureIsWaitedOut` | lib/gateway/queue.py:792-805 | In every run a failed try that is to be repeated is in no claim for 10 seconds after the first failure, 60 after the second and 300 after every later one, or the delays configured |
| `QueueWaits.ResetIsWaitedOut` | lib/gateway/queue.py:937-957 | The same for a row put back to queued with a delay, as when no slot is free |
| `QueueIndex.GateIffAllOwned` | lib/gateway/runtime.py:1767-1800 | The count test passes exactly when every row of the batch is still running under the claim's token |
| `ReplyDelivery.DeliverResponse` | lib/gateway/delivery.py:26-117 | Error by error and branch by branch: what the caller is told and how many messages leave; after an error that can come once connected a strict call sends nothing more, after one from before the connection the stateless sender is asked |
| `ReplyDelivery.UnclearIff` | lib/gateway/delivery.py:26-48 | A strict call has no verdict exactly after a timeout, an HTTP status, an unknown error, or a URL error for a timeout or an unknown reason |
| `ReplyDelivery.FaithfulIffHonest` | lib/gateway/delivery.py:26-117 | The strict path sends at most once and never reports a taken message as not delivered, exactly when the channels' None and pre-connect errors mean not accepted |
| `ReplyDelivery.NonStrictFallbackSendsTwice` | lib/gateway/delivery.py:80-117 | With honest channels the non-strict path can send twice where the strict one sends once |
| `ReplyDelivery.SwallowedTimeoutIsUnfaithful` | lib/gateway/delivery.py:103-117 | A stateless send that times out after acceptance and returns None breaks the assumption the ledger rests on |
| `ReplyDelivery.DeliverIdempotent` | lib/gateway/runtime.py:2089-2162 | The ledger-gated reply: messages sent, value returned and the ledger afterwards, for every verdict and outcome |
| `ReplySafety.LedgerOkOnEveryRun` | lib/gateway/queue.py:593-693 | The invariant tying ledger row, accepted count and the single sender holds in every run with faithful sends |
| `ReplySafety.AtMostOnceIffFaithful` | lib/gateway/runtime.py:2089-2162 | Over all runs of claims, expiry, crashes and operator retries, every ledger key has at most one accepted message exactly when every send the transport may make is faithful |
| `ReplySafety.SentRowIsPermanent` | lib/gateway/queue.py:593-693 | A confirmed ledger row is never cleared, rewritten or sent again |
| `UnclearSends.UnclearSendIsNeverRepeated` | lib/gateway/runtime.py:2089-2162 | Once a live send has ended in such an error, no continuation of the run sends under its ledger key again or touches its row, whatever crashes, retries and other sends do |
| `ReplySteps.GatePassesIff` | lib/gateway/runtime.py:1767-1800 | A worker goes on to its reply exactly while each row of its claim is running under its token |
| `ReplySteps.BeginStops` | lib/gateway/runtime.py:2110-2138 | A sent row or another claim's reservation stops the worker; otherwise the row is reserved for it |
| `ReplySteps.SendAndSettle` | lib/gateway/runtime.py:2139-2162 | The machine's send and settle leave the messages and the ledger row of the ledger-gated call |
| `ReplySteps.OutOfTurn` | lib/gateway/runtime.py:2089-2162 | No reservation before the gate, no send before the reservation, no settling before the answer |
| `ParallelSlots.SlotBook.LruFreeSlot` | lib/gateway/runtime.py:1295-1319 | The free slot updated longest ago, one without a session row first, ties to the lower one |
| `ParallelSlots.SlotBook.PickSlot` | lib/gateway/runtime.py:1225-1293 | Every branch of the choice, for an arbitrary classifier answer: related and free, related and busy, least recently used, or queue |
| `ParallelSlots.PickMeans` | lib/gateway/runtime.py:1225-1293 | Nobody is launched on a busy slot; an event waits only where its own slot is busy with nothing backgrounded, or all are; the classifier's free slot is taken, otherwise the one updated longest ago |
| `ParallelSlots.SlotBook.Reserve` | lib/gateway/runtime.py:1646-1647 | Adds the slot to the conversation's busy set |
| `ParallelSlots.SlotBook.Release` | lib/gateway/runtime.py:1711-1718 | Takes it out again and drops an empty set |
| `ParallelSlots.SlotBook.DispatchParallel` | lib/gateway/runtime.py:1616-1656 | Either the picked slot is reserved and the table is untouched, or the row goes back to queued one second later with its retry count unchanged |
| `ParallelSlots.LaneOkOnEveryRun` | lib/gateway/runtime.py:1616-1718 | With one dispatcher, interleaved launches and exits keep the book equal to the live workers' slots |
| `ParallelSlots.SlotsExclusiveIffConversation` | lib/gateway/runtime.py:1225-1293 | In every run the slots are exclusive and at most N, exactly for events with a conversation id |
| `LeaseHeartbeat.NeverExpiresIff` | lib/gateway/runtime.py:250-327 | A pattern of renewals and misses keeps the row exactly when no run of misses is as long as the intervals the lease outlasts |
| `LeaseHeartbeat.OnScheduleIff30` | lib/gateway/runtime.py:262-300 | On-schedule renewals always suffice exactly for leases over 30 seconds |
| `LeaseHeartbeat.IsolatedMissIff60` | lib/gateway/runtime.py:262-300 | Isolated misses are survived exactly for leases over 60 seconds |
| `LeaseHeartbeat.TwoMissesAlwaysExpire` | lib/gateway/runtime.py:262-300 | Two consecutive misses reach the expiry test for every lease |
| `LeaseHeartbeat.Heartbeat` | lib/gateway/runtime.py:279-327 | The thread's loop: leases as of the last waking that reached the database; it reports a lost lease exactly when such a waking renewed no row |
| `LeaseHeartbeat.StoredIsWhatTheLoopWrites` | lib/gateway/runtime.py:279-327 | The lease that the arithmetic follows is the one the loop last wrote |
| `LeaseHeartbeat.NeverExpiresIffNeverRequeued` | lib/gateway/queue.py:294-346 | The arithmetic condition holds exactly when the queue's expiry pass, run at any moment, leaves the row running |
| `Timestamps.TextOrderIsTimeOrder` | lib/gateway/queue.py:68-77 | Comparing two stored timestamp texts is comparing the instants; equal texts are equal instants |
| `Timestamps.OneText` | lib/gateway/queue.py:68-69 | The text of one leap-day second, mark by mark |
| `Timestamps.AddSecondsAddsUp` | lib/gateway/queue.py:72-77 | Adding seconds with carries over minutes, days, leap years and years adds to the instant, up to the year 9999 |
| `Timestamps.ExpiryTestOnTexts` | lib/gateway/queue.py:294-302 | The SQL test `locked_until <= now` on texts is the test on instants |
| `ConfigYaml.ScalarRoundTripIff` | lib/gateway/config_writer.py:189-209 | A printed scalar reads back as itself exactly when a quoted or bare text has no edge blanks, is not None or ~ and does not look like a float |
| `ConfigRoundTrip.ListRoundTripIff` | lib/gateway/config_writer.py:212-213 | A printed list reads back as itself exactly when no item has a comma or an edge blank or is ~, items that look like floats apart |
| `ConfigDocument.HandDump` | lib/gateway/config_writer.py:216-228 | The recursive printer that appends lines produces the lines of the document, joined |
| `ConfigDocument.ParseSimpleYaml` | lib/gateway/config.py:529-551 | The loop with its indentation stack computes the parse of the text |
| `ConfigReading.ReadsWordIff` | lib/gateway/config.py:504-511 | Exactly true, True, yes, YES, Yes read as true, their five opposites as false, and null, None, ~ as nothing, whatever blanks surround them |
| `ConfigReading.SwitchReads` | lib/gateway/config.py:529-551 | A line that sets a key to such a word parses to that one entry |
| `ConfigReading.LineReads` | lib/gateway/config.py:529-551 | A line with a key and a value parses to that entry, on its own |
| `ConfigReading.QuotedReads` | lib/gateway/config.py:517-520 | Between single or double quotes stands the text itself, whatever it is |
| `ConfigReading.IntegerReads` | lib/gateway/config.py:521-526 | Every spelling of an integer reads as it: blanks, a sign, zeros in front |
| `ConfigReading.DigitsJoin` | lib/gateway/config.py:521-526 | A digit more multiplies by ten, and an underscore between digits changes nothing |
| `ConfigReading.FloatLikeIff` | lib/gateway/config.py:521-526 | A text with a point is a float exactly when it is a sign, digits around the point and an exponent, so no address or version is one |
| `ConfigReading.ReadsListIff` | lib/gateway/config.py:512-516 | A value is a list exactly when brackets surround it |
| `ConfigReading.WordItemReads` | lib/gateway/config.py:512-516 | In a list such a word becomes True, False or None as Python prints it |
| `ConfigReading.IntegerItemReads` | lib/gateway/config.py:512-516 | In a list every spelling of an integer becomes its plain form |
| `ConfigReading.QuotedItemReads` | lib/gateway/config.py:512-516 | In a list a quoted item becomes its text without edge blanks |
| `ConfigReading.OnlyTellingLinesCount` | lib/gateway/config.py:532-538 | Blank lines, comments and lines without a colon can stand anywhere without changing what is read |
| `PyText.SplitCrLf` | lib/gateway/config.py:532 | A carriage return and a newline end a line as one newline does |
| `PyText.SplitIsExact` | lib/gateway/config.py:516 | Splitting at a character loses nothing: rejoined, the parts are the text |
| `ConfigReading.SetAgain` | lib/gateway/config.py:545-550 | A key set again keeps its place and takes the new value |
| `ConfigReading.QuotedIff` | lib/gateway/config_writer.py:189-209 | The printer quotes a text exactly when it is empty, starts like a YAML construct, holds a mark, is a reserved word or reads as an integer |
| `ConfigDocument.PrintedDictReadsBack` | lib/gateway/config.py:529-551 | From any stack, the printed lines of a nested mapping add exactly its entries to the open mapping, over any number of dedents |
| `ConfigDocument.DocumentReadsAs` | lib/gateway/config_writer.py:216-228 | Parsing any printable document gives, entry for entry and in order, at any depth, what each printed value reads as |
| `ConfigRoundTrip.DocumentRoundTripIff` | lib/gateway/config_writer.py:216-228 | A printed document parses back to itself exactly when its keys, texts and list items each come through and no mapping holds a key twice, at any depth, float-like list items apart |
| `ConfigRoundTrip.EveryParseIsPrintable` | lib/gateway/config.py:529-551 | Whatever the text, every key read is trimmed, on one line, without a colon and without a leading #, every text read is on one line, and no mapping holds a key twice |
| `ConfigRoundTrip.OnlyPrintableIsEverRead` | lib/gateway/config.py:529-551 | A document with any other key or text is the parse of no text at all |
| `ConfigRoundTrip.KeyComesThroughIff` | lib/gateway/config_writer.py:216-228 | A key comes through the printer and the reader exactly when it has that form, and no text at all reads back as any other key |
| `ConfigRoundTrip.EveryListItemIsPlain` | lib/gateway/config.py:512-516 | No text reads back as a list with a comma or an edge blank in an item |
| `ChatLists.ApplySetMutation` | lib/gateway/config_writer.py:305-314 | The old ids that stay, in order, then each new one once |
| `ChatLists.MutationIsIdempotent` | lib/gateway/config_writer.py:245-303 | After an edit exactly the wanted ids are listed, and the same edit again changes nothing |
| `ChatLists.UnchangedIff` | lib/gateway/config_writer.py:289-290 | An edit leaves the list alone exactly when nothing is new and nothing goes |
| `PersonaMacros.ApplySubstitutions` | lib/persona_macros.py:109-122 | The loop of replacements in the order given |
| `PersonaMacros.MatchesIff` | lib/persona_macros.py:141 | The pattern matches at the start of a text with this key exactly when the key is a dotted path and stands there between double braces |
| `MacroNames.PathIff` | lib/persona_macros.py:140-141 | A key is dotted exactly when every part between its points is a word of letters and underscores |
| `MacroNames.InterleaveAt` | lib/persona_macros.py:119-122 | An entry with an empty source puts its macro around every character |
| `PersonaMacros.CanonicalIff` | lib/persona_macros.py:43-57 | The eleven canonical names and no other |
| `PersonaMacros.SubMacros` | lib/persona_macros.py:143-152 | The left-to-right scan with its callback: the text written and the keys missed |
| `PersonaMacros.BindMacros` | lib/persona_macros.py:125-158 | Unknown keys, then unbound names, then the bound text |
| `MacroRoundTrip.ScanMissesNone` | lib/persona_macros.py:161-165 | The reported names are empty exactly when no canonical placeholder stands at any position, although the scan jumps over whole matches |
| `MacroRoundTrip.RenderReplaceDoc` | lib/persona_macros.py:119-122 | A later pass changes the literals only: no match touches or crosses a placeholder that an earlier pass put in |
| `MacroRoundTrip.RoundTrip` | lib/persona_macros.py:19-25 | Binding gives the substituted text back, for every order of the substitutions, if no source is part of a name that an earlier entry puts in |
| `MacroRoundTrip.RoundTripIffNoMacros` | lib/persona_macros.py:19-25 | With brace-free values exactly the texts that name no canonical macro of their own come back |
| `MacroRoundTrip.PlainTextsComeBackIff` | lib/persona_macros.py:70-106 | For a table of distinct sources sorted longest first: all texts without braces come back exactly when no source is part of a name that an earlier entry puts in; then so does every text naming no canonical macro |
| `Outbox.Store.Append` | lib/company/reporter.py:151-165 | Stamps the events and appends them to the day's file, made in name order when missing; returns the bytes written |
| `Outbox.Store.SendFile` | lib/company/reporter.py:274-284 | The chunk loop of one file: the chunks accepted, the events left and whether a call was refused |
| `Outbox.Store.Drain` | lib/company/reporter.py:226-292 | The replay over all files: files left, chunks accepted in order, and the accepted count or the error of a zero batch |
| `Outbox.Store.Trim` | lib/company/reporter.py:181-224 | Drops exactly the stale files and then the oldest over the cap; the reported lines and bytes are those of everything removed |
| `Outbox.Reporter.SendOrBuffer` | lib/company/reporter.py:739-753 | Each chunk is posted or parked, and a failure does not stop the loop |
| `Outbox.Reporter.HandleRejected` | lib/company/reporter.py:755-780 | Exactly the entries with a valid index go to the dead-letter file, in order |
| `OutboxFiles.DrainConservesIff` | lib/company/reporter.py:226-292 | Accepted events followed by those left, in file order, are those there before, exactly when the batch is not negative or nothing is buffered |
| `OutboxFiles.DrainGoesOn` | lib/company/reporter.py:259-292 | Chunks fit the batch, every earlier call succeeded, a stop has a refused call, and a full replay leaves only the skipped files |
| `OutboxFiles.NegativeBatchSendsNothing` | lib/company/reporter.py:276-292 | With a negative batch every selected file is deleted unsent |
| `OutboxFiles.KeptIsLongestWithinCap` | lib/company/reporter.py:205-222 | A suffix of the files fits the cap exactly when it is within the one kept |
| `OutboxFiles.AppendKeepsOrder` | lib/company/reporter.py:151-170 | Appending keeps the files in name order, one per day |
| `OutboxRuns.EveryRunAccounts` | lib/company/reporter.py:132-312 | Over any run of submissions, replays and evictions, each event is accepted exactly as often as it was submitted, less what is still on disk or was evicted |
| `OutboxLimits.TrimKeepsIff` | lib/company/reporter.py:181-224 | A file outlives a trim exactly when it is not past the age cap and, with the newer files of which that is true, within the size cap |
| `OutboxLimits.LeftAloneIff` | lib/company/reporter.py:243-255 | A full replay leaves exactly the files that cannot be read or are older than asked for |
| `OutboxLimits.ChunksAreFull` | lib/company/reporter.py:276-284 | Every chunk but the last of a file has the length of the batch |
| `OutboxLimits.ZeroBatchIff` | lib/company/reporter.py:276 | An empty batch is an error exactly when there is an event to send, and loses none |
| `OutboxLimits.SubmitSplits` | lib/company/reporter.py:739-753 | Slices of 500 events: those whose call is taken are accepted, the others stand stamped and in order at the end of the day's file |
| `OutboxLimits.AppendedFile` | lib/company/reporter.py:151-165 | Appending touches the day's file alone, which grows by what was written or is made |
| `OutboxLimits.DeadIff` | lib/company/reporter.py:755-780 | The dead-letter file gets exactly the events at the indices of well-formed entries |
| `Approvals.Service.Raise` | lib/approvals/service.py:35-133 | Which refusal a request meets, the newest row already raised for the source, or a new pending row, each column with its expiry |
| `Approvals.Service.Decide` | lib/approvals/service.py:157-247 | Case by case on the row itself: unknown, already decided, overdue with its write rolled back, another row's token, or decided once with every column and then applied |
| `Approvals.Service.Expire` | lib/approvals/service.py:250-282 | Closes exactly a pending row |
| `Approvals.Service.Get` | lib/approvals/service.py:285-311 | The row after the just-in-time expiry pass |
| `Approvals.Service.Query` | lib/approvals/service.py:324-336 | The newest rows that pass the filter, newest first, each once, none newer left out, as many as the limit allows |
| `Approvals.Service.ListPending` | lib/approvals/service.py:314-359 | Of that listing, when it is one of pending rows, exactly the overdue rows expire and the others are shown in order; any other listing is shown as it is |
| `Approvals.TimelyIff` | lib/approvals/service.py:338-357 | Shown are exactly the selected rows that are not overdue |
| `Approvals.Service.ApplyCallbackNow` | lib/approvals/service.py:453-461 | Runs the callback exactly for an approved row |
| `Approvals.Service.RunCallback` | lib/approvals/service.py:418-450 | A returned result stamps the row as applied, a raised error only records it |
| `ApprovalRuns.DecisionIsFinal` | lib/approvals/service.py:185-247 | Over any calls, a terminal row keeps its status, decision fields, note and token |
| `ApprovalRuns.OverdueNeverDecided` | lib/approvals/service.py:194-214 | A row past its expiry is never approved or rejected by any later calls, although the write of its expiry is rolled back |
| `ApprovalRuns.AppliedAtMostOnceAndOnlyIfApproved` | lib/approvals/service.py:242-244 | With callbacks that come late or are lost in a crash: decide applies a row at most once, only approved rows are applied, and rulings precede the expiry |
| `ApprovalRuns.DecidedIffRuled` | lib/approvals/service.py:157-247 | A row is approved, or rejected, exactly when some call ruled so while it was pending, before its expiry, and with no token or the row's own |
| `ApprovalRuns.WrongTokenChangesNothing` | lib/approvals/service.py:215-216 | A ruling with another token changes nothing |
| `ApprovalRuns.DecideIsTwoSteps` | lib/approvals/service.py:157-247 | A decision and its callback as two steps do what the one call does |
| `ApprovalRuns.OneRowOnEveryRun` | lib/approvals/service.py:66-70 | At most one row per producer and source reference in every run |
| `ApprovalRuns.RaisingIsIdempotent` | lib/approvals/service.py:53-70 | Once raised for a source, no later request for it adds a row, whatever was called in between |
| `CodexAuth.Judge` | lib/codex_auth/client.py:412-438 | What an answer means: tokens are taken exactly from a success that has them, the codes of an expired grant end it, and another try follows only a network error, 408, 429 or a status that is no success and no client error |
| `CodexAuth.PostRefresh` | lib/codex_auth/client.py:399-440 | At most four requests; the first answer that settles the matter decides, the fourth at the latest |
| `CodexAuth.Client.Refresh` | lib/codex_auth/client.py:379-397 | Posts exactly when forced or still needed after reading again; comes through exactly when the last answer is a success with a non-empty access token, and then the file holds that token and its expiry, and the new refresh token or else the old one |
| `CodexAuth.Client.GetBearer` | lib/codex_auth/client.py:346-351 | Posts exactly when the token is within the skew; returns the access token of the last answer, which is then the file's, or without a post the one that was there |
| `CodexRuns.EveryPostFromTheStartIsSafe` | lib/codex_auth/client.py:379-397 | However callers interleave, wait, crash and retry: each request carries the file's token under the exclusive lock alone, is needed or forced, and the token was replaced before exactly when the last replacement was lost |
| `CodexRuns.SingleFlight` | lib/codex_auth/client.py:346-397 | While written tokens outlive the skew, only forced callers post, whatever the other callers do |
| `CodexRuns.SingleFlightKeepsTheFile` | lib/codex_auth/client.py:346-397 | With nobody forcing a refresh, no caller posts at all before the clock re-enters the skew, and the file stays |
| `CodexRuns.CheckGoesOnIff` | lib/codex_auth/client.py:346-351 | A caller goes on to the exclusive lock exactly when forced or when the token it read is within the skew |
| `CodexRuns.RecheckPostsIff` | lib/codex_auth/client.py:379-388 | Under the lock it posts exactly when forced or when the file's token still is |
| `CodexRuns.RefreshAlone` | lib/codex_auth/client.py:389-440 | Uninterrupted, the requests of one caller in the machine and the file they leave are those of the client's refresh |
| `CodexRuns.CrashBeforeWriteSpoilsTheFile` | lib/codex_auth/client.py:387-396 | A crash between reply and write leaves the replaced token: every later request carries it until a caller that was given a new one writes it |
| `CodexRuns.InvOnEveryRun` | lib/codex_auth/client.py:205-235 | Writers alone, knowledge of the file, and goodness of its refresh token hold in every run |
| `Commitments.ArchivePath` | lib/commitments/engine.py:183-198 | The search ends with the first name not taken, counting up from the plain one |
| `Commitments.NamesDiffer` | lib/commitments/engine.py:193-197 | Different counters make different archive names |
| `Commitments.Engine.ArchiveSuccess` | lib/commitments/engine.py:146-159 | The fired commitment is archived under an unused name; without repetition the file goes, with it the file is due one day or seven later in whole seconds, with its counter at zero |
| `Commitments.Engine.HandleFailure` | lib/commitments/engine.py:162-180 | Counts the retry; the third or a final failure archives the commitment as failed, with its counter and message |
| `Commitments.Engine.TickFile` | lib/commitments/engine.py:122-142 | One file of the scan: its fate, what is left of it and what is archived |
| `Commitments.Engine.Tick` | lib/commitments/engine.py:110-143 | Files left, both archives, all lists of the summary and their sum; nothing archived is ever overwritten |
| `Commitments.FatesPartition` | lib/commitments/engine.py:119-142 | Each scanned file is counted in exactly one of the four lists |
| `Commitments.FateIff` | lib/commitments/engine.py:119-142 | Which of the four fates a file has: unreadable, due later, fired or failed |
| `Commitments.DryRunChangesNothing` | lib/commitments/engine.py:128-130 | A dry run leaves every file and archives none |
| `Commitments.OneFateEach` | lib/commitments/engine.py:119-142 | A file name is in at most one of them |
| `CommitmentRuns.StepIsTheEngines` | lib/commitments/engine.py:119-180 | The life of one commitment moves exactly as the engine's tick moves its file |
| `CommitmentRuns.AtMostThreeFailuresInARow` | lib/commitments/engine.py:162-180 | Never more than three failures in a row, whatever counter the commitment starts with; the third one archives, and the archived counter is the streak, plus the starting one if nothing succeeded |
| `CommitmentRuns.RetryableFailureArchivesIff` | lib/commitments/engine.py:169-178 | A retryable failure archives exactly when two were counted before |
| `CommitmentRuns.EveryRunIsOnSchedule` | lib/commitments/engine.py:153-159 | Without repetition at most one success; with it, after k successes the due moment is the first one in whole seconds plus k days or k weeks, whatever failed in between |
| `CommitmentRuns.CatchesUp` | lib/commitments/engine.py:157-159 | Ticking at a fixed moment fires exactly the computed number of times and leaves the commitment due in the future |
| `CommitmentRuns.CatchUpFromDueIff` | lib/commitments/schema.py:98-101 | Counted from the due moment itself that number is the same exactly when the dropped part of a second does not complete a period |
| `CommitmentRuns.HalfASecondAddsATick` | lib/commitments/schema.py:98-101 | The failing case: a daily commitment due at half a second needs one tick more |
| `AuditLog.AuditFile.Append` | lib/memory/accountabilities_audit.py:60-71 | The header goes in with the first entry; each call adds one row |
| `AuditLog.ParseAuditRow` | lib/health/accountabilities_check.py:237-261 | The character loop computes the cells, or none when the line is not a row |
| `AuditRoundTrip.RowReadsBackIff` | lib/memory/accountabilities_audit.py:46-57 | A row is read as the four cells written exactly when in each field every run of backslashes directly before a pipe has even length; otherwise as more than four |
| `AuditRoundTrip.PlainEntryReadsBack` | lib/memory/accountabilities_audit.py:46-57 | An entry without pipes and newlines is read as its own fields: time, change, chat and message in that order, token |
| `AuditRoundTrip.EscapedAt` | lib/memory/accountabilities_audit.py:46-47 | Each pipe gets a backslash, each newline becomes a space, every other character stays, wherever it stands |
| `AuditRoundTrip.BackslashBeforePipeSplits` | lib/memory/accountabilities_audit.py:46-57 | The failing case: a change of one backslash and a pipe is read as five cells |
| `AuditRoundTrip.NewlinesDoNotBreak` | lib/memory/accountabilities_audit.py:46-47 | A field whose only line separators are newlines keeps its row on one line |
| `AuditRoundTrip.LogReadsBack` | lib/health/accountabilities_check.py:295-339 | After n appends the health check reports n entries with the cells as written, or else exactly how many entries break the backslash rule |
| `AuditVerdicts.VerdictIs` | lib/health/accountabilities_check.py:295-341 | The verdict on any log: no table, a header of the wrong width, its first wrong title, no separator, and otherwise how many rows are misshapen or how many entries there are |
| `AuditVerdicts.SeparatorIff` | lib/health/accountabilities_check.py:264-265 | A separator row has cells, each of dashes and colons |
| `AuditVerdicts.RowIff` | lib/health/accountabilities_check.py:237-241 | A line is a row exactly when pipes open and close it |

## Left out

Of the queue and the runtime:

- Event ids are positions in the table: they come from AUTOINCREMENT and no statement deletes an event.
- Freshness of claim tokens is assumed in the step machine; `MintedTokensAreDistinct` reduces it to freshness of the random part, which is not modelled further.
- Each step reads the clock once. Moments are whole seconds except in `LeaseHeartbeat`; a clock that goes backwards is not modelled.
- Each claim begins delivery at most once per channel, as the runtime does; `GatewayProtocol` disables a second begin.
- The ledger key is the first event's id, so at-most-once is per key: a coalesced batch that is claimed again under another first event has another key.
- The unguarded `fail` calls of `lib/gateway/recovery_integration.py` are not steps of the machine; `UnguardedFailShape` shows what they can do to a row.
- Config reloads that change the retry limit, the lease or the number of slots during a run.
- Triage, the slot classifier (an arbitrary optional slot number here), session rows, transcript priming, prompt building, merging the texts of a batch, voice and image delivery, HTTP, Telegram, Slack, Discord and SQLite itself (a statement or immediate transaction is one step).
- The channels of a send are reduced to what they return or raise and whether the remote side took the message.

Of the config format:

- Floats are kept as their literal text, so a float-looking list item, which the code would print back in its own form, is outside `ListRoundTripIff` and `DocumentRoundTripIff`.
- Digits are ASCII, and lower case is ASCII lower case. Brackets inside a list item are kept as text.
- The nested dictionaries that the parser fills through aliases are written back to their parent when the stack pops.
- PyYAML paths, atomic file writes, env files and the validation tables of `config.py`.

Of the other parts:

- Loading the macro table from YAML and sorting it by length: the order it gives is the hypothesis `LongestFirst` of `PlainTextsComeBackIff`; the other theorems hold for every order.
- File-system errors other than an unreadable outbox file. A rewritten outbox file gets the current time as its mtime; the length of a JSON line is a parameter. JSON itself is not modelled: a line is blank, undecodable or a record.
- `Outbox.Store.Append`: the day of a chunk is given by the caller, who reads the clock.
- Rejections of replayed chunks: `HandleRejected` is proved for one answer and is not part of `Drain`.
- Approval ids are positions in the table; `mark_notified`, `wait`, notifications, payload schemas and the callback payload. Each approval call, or its transaction and its callback apart, is one step with one clock reading. SQLite may return rows requested at the same moment in any order: `Listing` leaves their order open, and `Query` picks the one inserted first.
- The auth file's other keys, JWT and JSON decoding, a missing or corrupt file, the auth mode check, lock time-outs (a caller that gives up is `Crash`) and writers that do not take the lock. `force_refresh` is the `force` flag.
- The dispatcher of a tick is a function of the slug that returns; an exception from it, cancelling by tag, and time zones are not modelled. The archive stamp is a parameter.
- The front matter and title checks of the audit log, which look at text that the writer's header fixes.
- Company snapshots and worker cursors, other health checks, CLIs, persona templates, the memory index and the TypeScript triage server.
