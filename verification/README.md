# Verified model of the bot's stateful core

This project models, in Dafny, the parts of the repository whose promises span several functions or whole runs, and
proves those promises for every input, every interleaving and every run:

- the multi-key resource lock (`KeyOrder`, `LockProtocol`, `LockGuarantees`, `LockManager`);
- the conversation history pipeline: token estimates, tool-call normalisation, trimming to a budget, compaction into
  summary and tail, and the tool loop (`Conversation`, `Normalisation`, `Trimming`, `Compaction`, `Summaries`,
  `SummaryText`, `HistoryStorage`, `AgentRun`, `RunHistories`, `KeptTurns`, `MidBatchRun`);
- the durable notification queue, its retrying producer, and the two as one system (`NeonTables`, `DedupeKey`,
  `NotificationQueue`, `QueueRows`, `DeliveryGuarantees`, `GivingUp`, `PendingDrain`, `DrainOutcomes`, `FreeGames`,
  `FanOut`, `FanOutGuarantees`, `PollRefinement`);
- the snapshot store (`Paths`, `SnapshotStore`, `SnapshotRoundTrip`, `SnapshotContents`);
- three protocols over time: the health watch (`HealthWatch`), the Messenger auto-reconnect (`Reconnect`) and the route
  mirror map (`MirrorMap`, `MirrorSteps`, `RouteDelivery`);
- the message splitters (`ByteSplitter`, `SplitCuts`, `DiscordSplitter`, `Decimals`), shell quoting and command lines
  (`ShellWords`, `CommandLines`) and secret redaction (`Redaction`, `RedactionPieces`, `RedactionGuarantees`,
  `RedactionSearch`).

`Text` and `Options` are shared helpers. Code that works by changing things is modelled by classes and methods with
loops, each proved equal to a function of the old state; the promises are lemmas about those functions. Lemmas named
`...Tells` say what an operation does in terms of its data alone, with the source's numbers and words written out, so that
nothing rests on a definition of the model. Concurrent
code is a step system whose steps are the mutex sections, channel operations, SQL statements and sends of the source.
`dafny verify dfyconfig.toml` checks everything.

Conventions. A string is its sequence of Unicode scalar values. Clocks, send results, database faults, model answers and
the enumeration order of Go maps are parameters. SHA-256 is an injective function that never yields the empty string.
A history is *paired* when it is a concatenation of blocks: a plain message, or a message with calls followed at once by
one reply per call; call IDs are non-blank, trimmed and globally distinct.

Where the code does less than its documentation says, the model follows the code, a lemma gives a concrete input, and a
second lemma says exactly when the promise holds:

- "existing local files always win" (`internal/persist/persist.go:106`): a nested local file is overwritten when nothing
  stands at the top level (`NestedFileLoses`, `LocalFileWinsIff`);
- an explicit `compact_context` may compact between the replies of one batch of tool calls
  (`internal/agent/agent.go:307`), which leaves replies without their calls (`MidBatchBreaks`, `RoundGoodIff`,
  `OneCompaction`);
- "excluded paths are never written" (`internal/persist/persist.go:106`): `Restore` does not consult the exclusion list
  (`ExcludedRowIsWritten`, `ExcludedUnchangedIff`, `ExcludedWrittenIff`); rows left by a `Sync` are never excluded
  (`SyncedRowsAreNotExcluded`);
- a warning "stays queued until a successful send deletes it" (`internal/bridge/pending.go:80`): muted rows, rows after
  three attempts and rows with a bad thread id are dropped, and a failed delivery record then loses the key
  (`BadThreadLoses`, `NoLossIff`, `NoLossIffThreadsGood`);
- "a later edit round still targets the same bubble" (`internal/bridge/service.go:1204`): not on two channels of one
  platform of which one is the other with something and a bar before it (`BarredAddressBreaks`, `RecordsRightIff`), and
  not always after overlapping deliveries (`OverlapBreaks`, `RunRightIff`);
- "keeps every final Messenger message below the platform limit" (`internal/messenger/messenger.go:952`): true of
  exactly the limits above 32 (`LettersOverflow`, `LimitKeptIff`), and a split that meets a rune longer than a part never
  ends (`EuroHangs`, `SplitHangsIff`);
- quoting and tokenizing undo each other only without empty strings (`EmptyStringIsLost`, `RoundTripIff`).

## Model

| member | source | states |
|---|---|---|
| KeyOrder.NormalizeResourceKeys | internal/tools/locks.go:96-112 | the result is strictly ascending and holds exactly the trimmed non-blank keys |
| KeyOrder.SortedUnique | internal/tools/locks.go:110-111 | a strictly ascending list is determined by its members, so normalisation has one answer |
| LockProtocol.StepKeeps | internal/tools/locks.go:38-94 | every Register, Take, Cancel, Release, Return and Drop step keeps the invariant: a caller's entry is the map's entry, refs counts the referrers, tokens plus owners is one |
| LockProtocol.RunKeeps | internal/tools/locks.go:27-94 | the invariant holds in every state of every run of any number of callers |
| LockGuarantees.MutualExclusion | internal/tools/locks.go:51-61 | at most one caller owns a key's token, although entries are deleted and re-created |
| LockGuarantees.HoldersDisjoint | internal/tools/locks.go:27-71 | two callers that hold their locks share no key |
| LockGuarantees.EntryIffReferred | internal/tools/locks.go:80-94 | the map has an entry for a key if and only if some caller still refers to it |
| LockGuarantees.AllDoneEmpty | internal/tools/locks.go:73-94 | once all callers are done the entry map is empty |
| LockGuarantees.ReturnNeverBlocks | internal/tools/locks.go:73-76 | giving a token back never meets a full one-slot channel |
| LockGuarantees.TokensBalance | internal/tools/locks.go:51-78 | over any run a caller has taken exactly what it gave back plus what it still owns, cancelled callers included |
| LockGuarantees.DeadlockFree | internal/tools/locks.go:51-61 | a reachable state can make progress if and only if some caller is unfinished |
| LockGuarantees.WorkDecreases | internal/tools/locks.go:51-94 | every progress step or cancellation leaves strictly less work |
| LockGuarantees.EpisodesAreFinite | internal/tools/locks.go:51-94 | a stretch without new arrivals is no longer than the work it starts with |
| LockGuarantees.CanFinish | internal/tools/locks.go:51-94 | from every state some schedule finishes everybody and empties the map |
| LockManager.ResourceLockManager.RegisterRefs | internal/tools/locks.go:38-49 | the mutex section is the Register step: entries reused or made fresh, one reference each |
| LockManager.ResourceLockManager.Take | internal/tools/locks.go:58 | receiving takes exactly the entry's token |
| LockManager.ResourceLockManager.GiveBack | internal/tools/locks.go:75 | sending returns exactly the entry's token |
| LockManager.ResourceLockManager.ReleaseRefs | internal/tools/locks.go:80-94 | the mutex section is the Drop step: one reference less each, entries at zero removed |
| LockManager.ResourceLockManager.ReleaseEntries | internal/tools/locks.go:73-78 | tokens of all entries back, then the Drop step |
| LockManager.ResourceLockManager.Acquire | internal/tools/locks.go:27-71 | while nobody else moves: succeeds if and only if every wanted key's token is there and the context is not done first; then references and tokens of exactly those keys are taken, else map and entries are as before |
| LockManager.DropUndoesRegister | internal/tools/locks.go:38-94 | dropping the references just registered leaves the map and every earlier entry as they were |
| LockManager.ReleaseClosure.Release | internal/tools/locks.go:63-70 | the first call gives tokens and references back; any later one leaves map, reference counts and tokens as they are, whoever owns them by then |
| Conversation.ApproximateMessageTokens | internal/agent/agent.go:712-727 | the loop computes the token estimate the budget lemmas speak about |
| Conversation.MessageTokensTell | internal/agent/agent.go:712-739 | a message costs 8 tokens, 8 more for each call, and a quarter of the trimmed length, rounded up, of each of its texts and its calls' texts |
| Conversation.ApproximateHistoryTokens | internal/agent/agent.go:850-856 | the loop computes the additive estimate of a history |
| Conversation.BoundarySplits | internal/agent/agent.go:787-848 | a history of blocks splits at the next boundary into two such histories, with only replies to earlier calls before it |
| Conversation.PairedCut | internal/agent/agent.go:840-848 | cutting a paired history at a boundary gives two paired histories without common call IDs |
| Conversation.PairedJoin | internal/agent/agent.go:272-310 | joining paired histories without common call IDs is paired |
| Normalisation.NormalizeToolCallHistory | internal/agent/agent.go:787-838 | the two loops compute the filter the lemmas below characterise |
| Normalisation.NormalizeSelects | internal/agent/agent.go:787-838 | which messages of any history are kept, in order and unchanged: replies to calls that were made, calls that are all answered, and everything else |
| Normalisation.NormalizePaired | internal/agent/agent.go:787-838 | a paired history is unchanged |
| Normalisation.NormalizeSuffix | internal/agent/agent.go:787-838 | any suffix of a paired history loses exactly the leading replies whose call was cut, and becomes paired |
| Normalisation.OrphansIff | internal/agent/agent.go:792-838 | the result has no orphan reply if and only if every kept reply answers a call whose message is fully answered |
| Normalisation.OrphanExample | internal/agent/agent.go:792-838 | two calls and one reply: the reply outlives its call |
| Normalisation.SurvivingCallsWereAnswered | internal/agent/agent.go:806-823 | every surviving non-blank call has a reply in the input |
| Normalisation.KeepOnlyTokens | internal/agent/agent.go:806-837 | normalising never enlarges a history |
| Trimming.TrimHistoryForContext | internal/agent/agent.go:662-710 | selection, reversal and normalisation together compute the trimmed history of the lemmas below |
| Trimming.CollectNewest | internal/agent/agent.go:673-692 | the loop stops exactly at the start of the longest fitting suffix, collected newest first |
| Trimming.ReverseInPlace | internal/agent/agent.go:700-702 | the swap loop reverses the selection |
| Trimming.FitStartIsLongest | internal/agent/agent.go:676-692 | a suffix is taken if and only if it starts no earlier than the chosen one |
| Trimming.TrimTells | internal/agent/agent.go:662-710 | everything without a budget; the last message if the system prompt and 12 tokens use it up; else the longest end of the history that fits the rest, normalised, or the last message if that leaves nothing |
| Trimming.TrimmedFits | internal/agent/agent.go:662-710 | on any history the result is within the remaining budget or a single message |
| Trimming.TrimmedPaired | internal/agent/agent.go:662-710 | on a paired history: the longest fitting suffix minus the leading replies whose call was cut, else the last message |
| Trimming.TrimmedPairedIff | internal/agent/agent.go:704-709 | the result is paired if and only if the last message is plain or some whole number of final blocks fits |
| Compaction.Prepare | internal/agent/compaction.go:18-29 | drops internal user messages and sanitises assistant texts, in order |
| Compaction.PreparedSelects | internal/agent/compaction.go:18-29 | exactly the messages that are no internal user messages, in order, with only the texts of the assistant's sanitised |
| Compaction.ResolveCompactionTailStart | internal/agent/compaction.go:73-85 | the two loops compute the tail start that TailStartIsBoundary characterises |
| Compaction.ChunkMessagesByMaxTokens | internal/agent/compaction.go:231-259 | chunks concatenate to the input, are non-empty, within the effective maximum or one message, and end only when full |
| Compaction.SplitMessagesByTokenShare | internal/agent/compaction.go:200-229 | parts concatenate to the input, are non-empty, at most as many as asked for, each ending only when its share is full |
| Summaries.TrimToTargetBound | internal/agent/compaction.go:185-198 | a trimmed summary is at most target tokens and not blank |
| Summaries.SummarizeHistoryChunk | internal/agent/compaction.go:127-156 | renders a prefix of the chunk's lines, stopping at 48 lines or at the first line that reaches the target |
| Summaries.MergePartialSummaries | internal/agent/compaction.go:158-183 | renders a prefix of the partial summaries' lines in order, stopping at the first line that reaches the target |
| Summaries.BuildChunks | internal/agent/compaction.go:92-105 | the chunks concatenate to exactly the head, are non-empty and within the chunk limit or one message |
| Summaries.SummarizeHistoryAdaptive | internal/agent/compaction.go:87-125 | yields the merge of partial summaries of such chunks, or the single partial summary |
| Summaries.SummaryBound | internal/agent/compaction.go:87-198 | every summary is at most max(48, target) tokens and not blank |
| SummaryText.RenderedTells | internal/agent/compaction.go:127-198 | the text is the heading and a dash, a line and a line break for every line, trimmed; over four characters a token it is cut three short and ends in three dots |
| SummaryText.LinesSelect | internal/agent/compaction.go:140-153 | the lines are those the messages give, in order, without the empty ones |
| SummaryText.PartialTells | internal/agent/compaction.go:127-156 | a chunk shows its first lines: 48, or all, or up to the one at which the text reaches the target, and none of the earlier ones did |
| SummaryText.MergeTells | internal/agent/compaction.go:158-183 | a merge shows the first of the partial summaries' lines: all, or up to the one at which the text reaches the target |
| SummaryText.ReadBack | internal/agent/compaction.go:158-171 | merging reads the lines of an uncut partial summary back as they were put in; of one without lines it keeps the heading |
| SummaryText.AllReadBack | internal/agent/compaction.go:158-183 | of several uncut partial summaries merging has exactly all their lines, in order, to choose from |
| SummaryText.SummaryTells | internal/agent/compaction.go:87-125 | the head is summarised in chunks of one message or at most five sixths of the target less 256 tokens, each with an even share of the target or 48 tokens |
| HistoryStorage.CompactHistoryForStorage | internal/agent/compaction.go:18-71 | meets the relation of CompactedTells |
| HistoryStorage.CompactedTells | internal/agent/compaction.go:18-71 | any history: prepared as it is unless compaction triggers; else the last preserved messages if the tail starts at neither, or a message that stands for the head, followed by the tail normalised: a system message with a non-blank summary of the head within max(48, target) tokens and the timestamp of the head's last message that has one |
| HistoryStorage.PreparedPaired | internal/agent/compaction.go:21-29 | filtering and sanitising keep a history paired |
| HistoryStorage.TailStartIsBoundary | internal/agent/compaction.go:73-85 | the tail starts at the last block boundary leaving the preserved messages, and at zero only if the first block reaches into them |
| HistoryStorage.CompactedShape | internal/agent/compaction.go:18-71 | a paired history that starts plain: compaction changes nothing, or a message that stands for the head is followed by exactly the messages from the tail start on, at least the preserved ones |
| HistoryStorage.CompactedPaired | internal/agent/compaction.go:18-71 | a paired history starting with a plain message is compacted to one |
| HistoryStorage.CompactedPairedIff | internal/agent/compaction.go:47-50 | when compaction triggers, the result is paired if and only if the first block ends before the preserved messages |
| AgentRun.CollectParallel | internal/agent/agent.go:337-363 | parallel-safe calls that finish in any order, each seeing those before it, give the results of running them in call order |
| AgentRun.ExecuteToolCalls | internal/agent/agent.go:320-370 | whichever branch is taken, the results are those of the calls carried out one after the other |
| AgentRun.RunRound | internal/agent/agent.go:240-310 | one round appends the assistant message, the skipped replies and the results, compacting after compact_context; without compact_context the messages behind the history are the answer with its sanitised text and all its calls, then the limit text to each skipped call, then to each executed call what its tool gave |
| AgentRun.AppendResults | internal/agent/agent.go:297-310 | each result appends its reply, followed by compaction if it was compact_context |
| AgentRun.Run | internal/agent/agent.go:186-312 | the loop asks the model at most MaxAgentLoops times and ends ready, failed or at the limit with the history of that moment; the given history and one user message with the prompt come first, a ready run ends in the last answer's sanitised text, and if no round compacts the history is that prompt and the turns told one after the other, field by field |
| KeptTurns.CompactedTurnTells | internal/agent/agent.go:272-310 | a round whose last call compacts: the history told the whole turn before, and the compacted one ends in the same messages, as many as are preserved |
| RunHistories.RoundGoodIff | internal/agent/agent.go:278-310 | a round with fresh calls leaves a paired, plain-headed history if and only if no compaction triggers before its last executed call, or that call is a compaction that triggers and cuts behind the first message |
| RunHistories.OneCompaction | internal/agent/agent.go:297-310 | with a single compact_context before the last executed call: if and only if the history up to its reply is not to be compacted |
| RunHistories.EveryRoundGoodIff | internal/agent/agent.go:213-311 | every round of a run starts from a paired, plain-headed history if and only if every round meets that condition |
| RunHistories.EveryRoundGood | internal/agent/agent.go:213-311 | round by round: while the rounds meet it, the next one starts from such a history |
| RunHistories.AdriftStays | internal/agent/agent.go:297-310 | once replies have lost their calls, the history is whole again exactly after a compaction that triggers and cuts behind the first message |
| RunHistories.RepliesMatchCalls | internal/agent/agent.go:283-305 | in a history of blocks replies and calls are the same IDs with multiplicity |
| RunHistories.ExactlyOneReply | internal/agent/agent.go:283-305 | in a paired history every call has exactly one reply, executed or skipped |
| MidBatchRun.MidBatchBreaks | internal/agent/agent.go:272-310 | from one user message, with trigger 2, target 1 and one preserved message: a batch of compact_context and another call ends the round unpaired |
| RunHistories.CompactingMidBatchBreaks | internal/agent/agent.go:307-309 | for any limits and any history before it: compacting a half-answered batch leaves replies whose calls are gone, and the other replies do not mend it |
| NeonTables.OperationsKeepOk | internal/neon/neon.go:140-207 | insert, mark, delete and bump keep the unique non-empty key |
| NeonTables.InsertRecords | internal/neon/neon.go:140-158 | after an insert the key is pending, and nothing else changed if it was already |
| NeonTables.DeleteForgetsOne | internal/neon/neon.go:200-203 | a delete forgets the row's key and no other |
| NeonTables.NeonDB.SavePending | internal/neon/neon.go:140-158 | on conflict the existing row's id is returned; failed statements leave the tables or return an error |
| NeonTables.NeonDB.IsDelivered | internal/neon/neon.go:160-169 | answers whether the key is on record; an empty key never is |
| NeonTables.NeonDB.MarkDelivered | internal/neon/neon.go:171-181 | records the key once; an empty key or a failure changes nothing |
| NeonTables.NeonDB.DeletePending | internal/neon/neon.go:200-203 | removes exactly the row |
| NeonTables.NeonDB.IncPendingAttempts | internal/neon/neon.go:205-208 | raises exactly the row's attempts |
| DedupeKey.ScopedKeyInjective | internal/bridge/notifications.go:133-146 | for keys without a bar and platforms without a colon other than "route", scoped keys agree if and only if key and destination do |
| DedupeKey.KeptApartIff | internal/bridge/notifications.go:133-146 | for any keys and destinations in use: scoped keys tell both key and destination if and only if the scopes differ and no key runs into another behind a bar |
| DedupeKey.ScopesMeetIff | internal/bridge/notifications.go:133-146 | the scopes of two destinations read the same if and only if both parts do, or one platform goes on behind a colon where the other's place begins |
| DedupeKey.ScopedKeyCollisions | internal/bridge/notifications.go:133-146 | without those conditions two keys, or two destinations, meet |
| NotificationQueue.StepKeeps | internal/bridge/pending.go:83-185 | every handler and drain step keeps the queue invariant; pending never holds two rows with one non-empty key |
| NotificationQueue.RunInv | internal/bridge/pending.go:60-185 | the invariant holds along every run of handlers and drains |
| DeliveryGuarantees.StepLossIff | internal/bridge/pending.go:96-184 | a step loses an accepted key if and only if it deletes a row whose key was never recorded |
| DeliveryGuarantees.NoLossUpTo | internal/bridge/pending.go:83-185 | up to the first such step every accepted key is pending or delivered |
| DeliveryGuarantees.NoLossIff | internal/bridge/pending.go:83-185 | all along a run every accepted key is pending or delivered if and only if the run has no unrecorded discard |
| DeliveryGuarantees.OnlyBadThreadsLost | internal/bridge/pending.go:114-175 | when the records of discards succeed (the one after a send may fail), a step loses a key if and only if it drops a row with a non-numeric Messenger thread id |
| DeliveryGuarantees.NoLossIffThreadsGood | internal/bridge/pending.go:83-185 | under that condition nothing is lost in any state of a run if and only if the run drops no such row of an unrecorded key |
| DeliveryGuarantees.BadThreadLoses | internal/bridge/pending.go:96-164 | a run in which a request for a non-numeric Messenger thread is answered with success and its row dropped unsent, every statement succeeding |
| DeliveryGuarantees.AtMostOnce | internal/bridge/pending.go:96-184 | a key that is never between its check and its record in two drains at once is sent at most once plus once per unrecorded send |
| DeliveryGuarantees.OverlapSendsTwice | internal/bridge/pending.go:100-175 | two overlapping drains send one key twice with every statement succeeding |
| GivingUp.AttemptsAreFailures | internal/bridge/pending.go:165-169 | in every state of every run a row's attempts are the failed sends of it that were counted, from none when it was inserted |
| GivingUp.NoFailuresYet | internal/bridge/pending.go:165-169 | a row inserted in a step of the run has no failures before it |
| GivingUp.DecisionTells | internal/bridge/pending.go:114-160 | over every run: a drain drops the row in hand as muted if it has no route and is muted, else gives it up if and only if at least three failed sends of it had been counted when the drain read it, else passes it over while its platform is down, else sends it if its thread is good |
| GivingUp.CheckTells | internal/bridge/pending.go:100-113 | over every run: before that, a row whose key is on record is removed as a duplicate, and one whose look-up fails is passed over |
| GivingUp.StepWrites | internal/bridge/pending.go:114-184 | what each later step writes to which row and key, and when the drain goes on to the next row |
| PendingDrain.DrainPending | internal/bridge/pending.go:83-185 | the loop transforms the tables row by row, for all outcomes of sends and statements; DrainTells says what becomes of each row |
| PendingDrain.DrainOne | internal/bridge/pending.go:96-184 | one row: duplicate removed, muted or exhausted row recorded and dropped, bad thread dropped, failed send counted, sent row recorded then removed |
| DrainOutcomes.DrainTells | internal/bridge/pending.go:83-185 | an uninterrupted drain does to every row what that row's own fate asks for, whatever happens to the others: which rows leave, which are counted up, which keys are recorded, and nothing else |
| PendingDrain.StepsAreTheLoopBody | internal/bridge/pending.go:96-184 | the drain steps of the step system, run through, change the tables exactly as the loop body |
| PendingDrain.AcceptKeyed | internal/bridge/notifications.go:195-248 | tables and answer of the deduped branch, for all outcomes of its statements |
| DrainOutcomes.AcceptTells | internal/bridge/notifications.go:195-248 | what a keyed request does to the tables and what it is answered, case by case |
| PendingDrain.AnswerMeans | internal/bridge/notifications.go:195-248 | success means the key is pending or delivered, unless the record of a muted one failed; no answer makes the tables forget a key |
| PendingDrain.RequestStepsAreTheCode | internal/bridge/notifications.go:195-248 | the handler steps of the step system, run through, give exactly the tables and the answer of the code |
| PendingDrain.AnsweredIsAccepted | internal/bridge/notifications.go:195-248 | a handler step ends its request exactly when it answers, and accepts its key exactly on a success |
| FreeGames.FreeGameService.PostToThreads | internal/notify/freegames.go:103-116 | posts thread by thread up to the first failure |
| FreeGames.FreeGameService.PollFreeGames | internal/notify/freegames.go:72-128 | which items are called for, thread by thread up to the first failure, and which are marked, told over the items and the calls of this poll |
| FreeGames.PollTells | internal/notify/freegames.go:78-126 | an item is called for if and only if it was unseen and, with titles known, its title was neither seen nor that of an earlier item marked in this poll; it is marked if and only if all its calls, or its title, and its insert succeed |
| FreeGames.TitlePostedOnce | internal/notify/freegames.go:78-126 | with titles known, once an item is accepted for every thread and marked no call of this poll is made for a later item with its title |
| FreeGames.MarkedOnlyWhenAccepted | internal/notify/freegames.go:78-126 | a newly marked item was accepted for every thread in this poll, or shares its title with one marked or so accepted |
| FreeGames.MarkedWithoutTitles | internal/notify/freegames.go:103-122 | without the title query only acceptance by every thread marks an item |
| FanOut.KeyIffFor | internal/bridge/notifications.go:133-188 | a row about an item and a thread carries its scoped key, and with keys free of bars no other row does |
| QueueRows.StepFrom | internal/bridge/pending.go:83-185 | rows come from the handler alone, and nothing changes them but the count of their attempts |
| FanOutGuarantees.MoveKeeps | internal/notify/freegames.go:78-128 | every move of poller, other clients, handlers and drains keeps the system invariant |
| FanOutGuarantees.RunKeeps | internal/bridge/notifications.go:186-248 | in every state of every run: each queued, held or sent row is scoped to where it goes, and an answer, a call counted as a success and a mark are worth the keys they stand for |
| FanOutGuarantees.FanOutAtMostOnce | internal/notify/freegames.go:103-125 | over any run of polls, failed and lost calls, retries, other clients and drains an item is sent to a thread at most once plus once per unrecorded send, as long as its key is not in flight twice |
| FanOutGuarantees.MarkedIsRecorded | internal/notify/freegames.go:103-122 | an item marked after its calls is pending or delivered for each of its threads, in every state reached without an unrecorded discard |
| FanOutGuarantees.MarkedIsWaiting | internal/notify/freegames.go:103-122 | with keys and targets that are kept apart, a marked item is delivered for each of its threads or its own notification for that thread waits |
| FanOutGuarantees.SentIsAsked | internal/bridge/notifications.go:186-248 | over every run a keyed row that is sent or waits is one from before the run or has the text, route, thread and platform of a request |
| FanOutGuarantees.PollerAsks | internal/notify/freegames.go:103-107 | over every run a call of the poller asks for its item's message, to its thread, under the item's guid |
| PollRefinement.PollIsTheLoop | internal/notify/freegames.go:78-128 | a poll that reaches its end has done, whatever went on in between, what the loop does with the outcomes its calls and inserts had |
| PollRefinement.FinishedPollTells | internal/notify/freegames.go:78-128 | so a poll of any run that reaches its end made the calls and marks PollTells speaks of |
| Paths.SplitJoined | internal/persist/persist.go:391-397 | splitting a joined path gives the path back |
| Paths.SafePathOfPath | internal/persist/persist.go:380-389 | safePath maps the relative path of a file to that file |
| Paths.SafePathIsPath | internal/persist/persist.go:380-389 | whatever is stored, an accepted path is a proper path below the directory |
| Paths.PiecesCancel | internal/persist/persist.go:384 | in a stored path a name and the ".." behind it cancel, "." and empty pieces do not count, and ".." goes no higher than the root |
| Paths.SafePathIff | internal/persist/persist.go:380-389 | safePath accepts exactly the relative paths that so read come to lie strictly below the directory, and gives the names below it |
| Paths.JoinedInjective | internal/persist/persist.go:391-397 | two files never share a relative path |
| SnapshotStore.IsExcluded | internal/persist/persist.go:364-376 | the loop decides exclusion, which ExcludedIffShutOut says by names |
| SnapshotStore.PrunedIsExcluded | internal/persist/persist.go:182-187 | not entering an excluded directory loses nothing that is not excluded itself |
| SnapshotContents.ExcludedIffShutOut | internal/persist/persist.go:364-376 | a path is excluded if and only if an entry, spaces and a final slash aside, spells it or a directory above it, name by name |
| SnapshotStore.Store.Walk | internal/persist/persist.go:177-203 | collects exactly the live files with their hashes |
| SnapshotStore.Store.UpsertFiles | internal/persist/persist.go:240-262 | writes exactly the live files whose stored hash differs, up to the first write that fails |
| SnapshotStore.Store.UpsertIdentityFiles | internal/persist/persist.go:264-282 | writes exactly the live identity files whose stored hash differs, up to the first write that fails |
| SnapshotStore.Store.DeleteStale | internal/persist/persist.go:284-304 | deletes exactly the session rows without a live file, all or none of them |
| SnapshotStore.Store.Sync | internal/persist/persist.go:176-309 | succeeds exactly when no statement it needs fails and then leaves the synced table and counts its writes and deletions; else leaves some of its writes and no deletion |
| SnapshotStore.Store.Restore | internal/persist/persist.go:109-172 | does nothing if a top-level file exists, else applies the rows in the listed order up to the first failure |
| SnapshotStore.FailedWriteMakesNoDirectory | internal/persist/persist.go:155-163 | after any rows, what stops a write stands behind directories that exist already, so the failing write makes none |
| SnapshotRoundTrip.SyncKeepsHashes | internal/persist/persist.go:240-282 | every row's hash stays the hash of its data |
| SnapshotRoundTrip.StoppedSyncLosesNothing | internal/persist/persist.go:240-304 | a Sync stopped by a statement loses no row, and each row is one it found or one it had to write |
| SnapshotRoundTrip.SyncHeals | internal/persist/persist.go:176-309 | a Sync that succeeds after a stopped one leaves exactly the live files with their contents |
| SnapshotRoundTrip.SessionRowsAreLiveFiles | internal/persist/persist.go:176-309 | after a Sync the session rows are exactly the live files with their contents, whatever the table held |
| SnapshotContents.RowsAreWantedFiles | internal/persist/persist.go:176-309 | after a Sync the session rows are exactly the files that no entry names and no entry's directory holds, the three legacy files left out, with their contents |
| SnapshotRoundTrip.IdentityRowsStay | internal/persist/persist.go:284-295 | a workspace row is never removed, and unchanged unless its file is live |
| SnapshotRoundTrip.SecondSyncIdleIff | internal/persist/persist.go:176-309 | a second Sync writes and deletes nothing if and only if no live session file under @workspace/ carries an identity file's name with other contents; the table is then a fixed point |
| SnapshotRoundTrip.RoundTrip | internal/persist/persist.go:109-309 | Sync then Restore into a directory without files succeeds and gives exactly the live files outside @workspace/, all live files if and only if there are none inside |
| SnapshotContents.WantedFilesComeBack | internal/persist/persist.go:109-309 | Sync then Restore into a directory without files brings back exactly those files outside @workspace/ |
| SnapshotRoundTrip.IdentityRowIff | internal/persist/persist.go:264-282 | a live identity file's row holds its contents unless a clashing session file took a row that already matched |
| SnapshotRoundTrip.IdentityRoundTrip | internal/persist/persist.go:136-148 | a live identity file reaches any workspace that lacks it |
| SnapshotContents.IdentitiesAreStored | internal/persist/persist.go:264-282 | after a Sync each of IDENTITY.md, USER.md and SOUL.md in the workspace has its row, with its contents unless a session file clashes |
| SnapshotContents.RestoreTells | internal/persist/persist.go:109-150 | any table: with a file or link at the top level nothing changes; else a Restore that gets to its end has brought the workspace exactly those of the three files that it lacked and the table had |
| SnapshotRoundTrip.RestoreWritesRows | internal/persist/persist.go:125-164 | an undisturbed Restore writes the listed session rows and nothing else |
| SnapshotRoundTrip.RestoreWritesIdentities | internal/persist/persist.go:136-148 | Restore writes the identity rows whose local file is absent and leaves the other names alone, in any row order |
| SnapshotRoundTrip.LocalFileWinsIff | internal/persist/persist.go:103-164 | of any table, also when Restore fails part-way: a local file keeps its contents if and only if something stands at the top level or the last row for it that was reached holds the same |
| SnapshotRoundTrip.NestedFileLoses | internal/persist/persist.go:149-164 | a nested local file overwritten by a row |
| SnapshotRoundTrip.ExcludedUnchangedIff | internal/persist/persist.go:103-164 | of any table, also when Restore fails part-way: every excluded path stays as it was if and only if something stands at the top level or each is named by no row reached, or last by one with the contents it has |
| SnapshotRoundTrip.ExcludedWrittenIff | internal/persist/persist.go:103-164 | into a directory without files, any table, any order, failures included: no excluded path is written if and only if a link at the top level stops Restore or no row it reaches has an excluded cleaned path |
| SnapshotRoundTrip.ExcludedRowIsWritten | internal/persist/persist.go:103-164 | with "a" excluded, Restore of the one row "a" writes it |
| SnapshotRoundTrip.SyncedRowsAreNotExcluded | internal/persist/persist.go:192-199 | no session row a Sync leaves names an excluded or legacy path |
| HealthWatch.HealthState.CheckHealth | internal/bridge/healthwatch.go:130-186 | one poll moves the fields and gives the message as the step function says |
| HealthWatch.WatchHealth | internal/bridge/healthwatch.go:85-102 | the loop sends exactly the notifications of the run |
| HealthWatch.EmittedIsCalled | internal/bridge/healthwatch.go:130-186 | the state machine refines a description over the poll history: "dead" exactly after an armed unbroken outage of deadAfter, "alive" exactly on an alive poll after a death, both after the cooldown |
| HealthWatch.SentAlternatesSpaced | internal/bridge/healthwatch.go:149-185 | notifications alternate starting with a death and lie at least minNotify apart |
| HealthWatch.SilentUntilArmed | internal/bridge/healthwatch.go:131-147 | nothing is sent before a first connection or a logged-out report |
| HealthWatch.OwedAliveIsSent | internal/bridge/healthwatch.go:149-164 | the first alive poll after the cooldown sends the owed alive notification, however the platform flapped |
| HealthWatch.OutageIsAnnounced | internal/bridge/healthwatch.go:168-184 | an outage of deadAfter is on record as a death once the earlier cooldown is over |
| Reconnect.Client.ArmReconnect | internal/messenger/messenger.go:229-240 | the critical section sets the flag exactly when it was clear and the socket down |
| Reconnect.Client.BeginAttempt | internal/messenger/messenger.go:246-252 | clears the flag and goes on exactly when the socket is down |
| Reconnect.Client.HandleEvent | internal/messenger/messenger.go:425-436 | the socket events move the flags as the steps of the system do; a permanent error goes on to schedule exactly when none is scheduled |
| Reconnect.StepKeepsInv | internal/messenger/messenger.go:193-273 | every event and task step keeps: the flag is set exactly while one task stands between setting and clearing it, reloadMu has one owner, an owed reconnect is attended |
| Reconnect.RunKeepsInv | internal/messenger/messenger.go:193-306 | the invariant holds along every run |
| Reconnect.OneTimer | internal/messenger/messenger.go:229-240 | at most one reconnect timer is ever pending |
| Reconnect.NeverGivesUp | internal/messenger/messenger.go:229-273 | from a permanent error, or a keepalive tick that finds the socket down, until the next connection a reconnect is scheduled, being armed or running |
| Reconnect.SomeTaskCanStep | internal/messenger/messenger.go:246-273 | while a reconnect is owed some task can step; nobody waits for reloadMu in vain |
| Reconnect.ReloadComes | internal/messenger/messenger.go:246-273 | the tasks take at most their total rank of steps before one of them starts a reload |
| Reconnect.FailedUploadIsUnattended | internal/messenger/messenger.go:193-219 | a failed cookie upload leaves the socket down and unattended until the next keepalive tick |
| MirrorMap.MirrorEdits.Record | internal/bridge/service.go:1128-1138 | stores the mirror and drops exactly the entries past the time to live |
| MirrorMap.Service.SendRoute | internal/bridge/service.go:1155-1196 | the calls to the platforms and the map change the state as the specification of a send says; the primary id is the last Messenger channel's |
| MirrorMap.PrimaryIsLastMessenger | internal/bridge/service.go:1160-1174 | a send fails if and only if one of its Messenger channels does; else its id is the last Messenger channel's, empty only if there is none |
| MirrorMap.Service.EditMirror | internal/bridge/service.go:1226-1265 | one mirrored channel: in place while recorded, inside the window and accepted, else afresh and re-pointed |
| MirrorMap.Service.EditRoute | internal/bridge/service.go:1209-1272 | channels are edited in order up to a failed Messenger edit; success needs a Messenger channel |
| MirrorMap.KeyInjective | internal/bridge/service.go:1184-1194 | for channels of which none is another with something and a bar before it, mirror keys never collide, whatever the primary ids |
| MirrorMap.CallsKeepOk | internal/bridge/service.go:1126-1272 | over such channels, after any sequence of sends and edits with any failures a recorded mirror names the message carrying the last text delivered on its leg, and no message mirrors two legs |
| MirrorMap.RecordsRightIff | internal/bridge/service.go:1126-1272 | every sequence of sends and edits over given WhatsApp and Discord channels leaves the records right if and only if on each platform no channel is another with something and a bar before it |
| MirrorMap.BarredAddressBreaks | internal/bridge/service.go:1184-1194 | two edits on two such channels, run from nothing, leave a record that does not name its leg's last text |
| MirrorMap.EditReachesMirror | internal/bridge/service.go:1226-1265 | over channels whose keys stay apart an edit of a leg changes nothing, or its mirror carries the new text, in the same message if and only if the in-place edit succeeded; other legs never see another text |
| RouteDelivery.SendTells | internal/bridge/service.go:1175-1196 | a send goes channel by channel: a new message with the text, recorded under the primary for a day, if the platform takes it, and nothing else |
| RouteDelivery.EditTells | internal/bridge/service.go:1209-1265 | an edit goes channel by channel up to a failed Messenger edit: the recorded copy gets the text if it can, else a new one takes its place |
| RouteDelivery.SendReaches | internal/bridge/service.go:1175-1196 | each platform gains exactly one copy of the text for each of its channels that takes it, in order |
| MirrorSteps.StepsAreTheSend | internal/bridge/service.go:1175-1196 | the statements of a send to a mirrored channel, run through, do what the send of a leg is specified to do |
| MirrorSteps.StepsAreTheEdit | internal/bridge/service.go:1226-1265 | the statements of an edit, run through, do what the edit of a leg is specified to do |
| MirrorSteps.StepRightIff | internal/bridge/service.go:1126-1265 | a step of overlapping sends and edits keeps right the record of every leg with nothing left to record if and only if it is not stale |
| MirrorSteps.RunRightIff | internal/bridge/service.go:1126-1265 | in every state of a run of overlapping sends and edits every leg with nothing left to record has its last text under its record if and only if no step is stale: makes a leg's last pending record for a message that no longer says its last text, or rewrites a message its record does not name |
| MirrorSteps.ApartKeepsRecords | internal/bridge/service.go:1126-1265 | a run in which no two deliveries of one leg are past their lookups together has no stale step, so its records stay right |
| MirrorSteps.OverlapBreaks | internal/bridge/service.go:1226-1265 | a run of two overlapping edits leaves a record that does not name the last text |
| ByteSplitter.FitCut | internal/messenger/messenger.go:969-979 | the cut is the longest prefix within the byte limit |
| ByteSplitter.BackCut | internal/messenger/messenger.go:984-989 | the cut moves to right after the last break of the window's back half, if there is one |
| ByteSplitter.PartsKeepText | internal/messenger/messenger.go:965-994 | the parts' non-space characters in order are those of the text |
| ByteSplitter.PartsFit | internal/messenger/messenger.go:965-994 | every part is within the limit or empty |
| ByteSplitter.EndsIffNoneTooLong | internal/messenger/messenger.go:965-994 | the loop ends if and only if no non-space rune is longer than a part |
| ByteSplitter.SplitMessageBytes | internal/messenger/messenger.go:965-994 | the loops compute exactly those parts, or detect that they would never end |
| SplitCuts.PartsAreCut | internal/messenger/messenger.go:965-994 | a text that fits is one part; else the first part is the text up to right after the last break in the back half of the longest prefix that fits, or that prefix, trimmed, and the rest is split the same way |
| SplitCuts.PartsUnique | internal/messenger/messenger.go:965-994 | the text and the limit determine the parts |
| ByteSplitter.SplitMessage | internal/messenger/messenger.go:948-963 | labels the parts, or returns a short text whole |
| SplitCuts.MessagesTell | internal/messenger/messenger.go:948-963 | a text within the limit goes out trimmed and whole; else its parts with 32 bytes less go out in order, part i of n under "[part i/n]" |
| ByteSplitter.SplitText | internal/whatsapp/text.go:13-28 | the same split with labels from itoa; a non-positive limit returns the text whole |
| SplitCuts.WhatsAppSplitsSame | internal/whatsapp/text.go:13-28 | for a positive limit both platforms split alike |
| ByteSplitter.LabelledFit | internal/whatsapp/text.go:18-27 | with a limit above 32 and fewer than 10^11 parts every labelled message fits |
| ByteSplitter.LimitKeptIff | internal/messenger/messenger.go:948-963 | every final message of every text fits if and only if the limit is above 32 |
| ByteSplitter.SplitEnds | internal/messenger/messenger.go:948-963 | with a limit of at least 36 every split ends |
| ByteSplitter.SplitHangsIff | internal/messenger/messenger.go:948-994 | a split never ends if and only if the text is over the limit and has a non-space rune longer than a body |
| ByteSplitter.FinalKeepText | internal/messenger/messenger.go:959-961 | without labels the final messages carry the text's non-space characters in order |
| Decimals.Itoa | internal/whatsapp/text.go:60-72 | the buffer filled from the back holds the decimal notation; a negative number gives the empty string |
| Decimals.DecimalDenotes | internal/whatsapp/text.go:60-72 | the notation denotes the number |
| Decimals.Int64Iff | internal/bridge/pending.go:152-160 | a thread id in decimal notation, with or without a sign, is accepted if and only if it fits 64 bits |
| Decimals.OnlyNumbersAreInt64 | internal/bridge/pending.go:152-160 | nothing but digits behind at most one sign is accepted |
| DiscordSplitter.FindSplitPoint | internal/discordbot/messages.go:60-81 | the first preferred token whose last occurrence ends in the back half decides, else the latest occurrence of any |
| DiscordSplitter.SplitPointTells | internal/discordbot/messages.go:60-81 | of paragraph, line, sentence, word and comma the first whose last place ends at 1000 or later decides, else the one that ends last |
| DiscordSplitter.SplitDiscordSized | internal/discordbot/messages.go:29-58 | terminates; parts are non-empty, trimmed, at most 2000 runes, keep the non-space characters in order, and are cut at the split points |
| DiscordSplitter.PartsTell | internal/discordbot/messages.go:29-58 | a text of at most 2000 runes is one part; a longer one gives up its first 2000 runes up to their split point, or all of them if they have none, and is split on |
| DiscordSplitter.PartsSendable | internal/discordbot/messages.go:45-57 | every part can be sent, and only a blank text has none |
| DiscordSplitter.PartsKeepText | internal/discordbot/messages.go:45-57 | nothing but white space is lost and nothing reordered |
| DiscordSplitter.PartsUnique | internal/discordbot/messages.go:45-81 | the text determines the parts |
| ShellWords.SplitCommandTokens | internal/tools/exec.go:172-207 | the scanner loop computes the tokens of the lemmas below |
| CommandLines.TokensAreMeanings | internal/tools/exec.go:172-207 | however its words are quoted, piece by piece bare, escaped, single- or double-quoted, a command line gives exactly what its non-empty words mean, in order |
| ShellWords.ScanQuoted | internal/sandbox/nspawn.go:446-451 | a quoted string adds exactly itself to the token at hand |
| ShellWords.RoundTripIff | internal/tools/exec.go:172-207 | tokenizing the quoted strings gives them back if and only if none is empty |
| ShellWords.EmptyStringIsLost | internal/tools/exec.go:179-185 | the quoted empty string is no token |
| ShellWords.ReadQuoted | internal/sandbox/nspawn.go:446-451 | under POSIX quoting a quoted string is read as itself wherever a word may go on, and what follows is read unquoted |
| ShellWords.ShellReadsLine | internal/sandbox/nspawn.go:446-451 | a POSIX shell reads every quoted list back, empty strings included |
| ShellWords.TokenizerDropsEmptyWords | internal/tools/exec.go:172-207 | on quoted lines the tokenizer gives the shell's words without the empty ones |
| Redaction.SortedPairs | internal/secrets/secrets.go:118-132 | lists every secret with a value once, longest first |
| Redaction.Redact | internal/secrets/secrets.go:112-139 | the loop computes the redaction by some such listing |
| RedactionPieces.RedactTells | internal/secrets/secrets.go:134-137 | secret by secret: the text is cut at the leftmost places of the value, none overlapping, and "[REDACTED:name]" is put between the pieces |
| RedactionPieces.NoSecretNoChange | internal/secrets/secrets.go:134-137 | a text that holds no secret is left alone |
| RedactionGuarantees.OutputShows | internal/secrets/secrets.go:134-137 | a bracket-free string in the output comes from the redacted marker of a secret in the text, or from the text and is no secret |
| RedactionGuarantees.CleanMarkersNeverLeak | internal/secrets/secrets.go:112-139 | with bracket-free values that occur in no marker no secret occurs in any output, not even across markers |
| RedactionSearch.NeverLeaksIff | internal/secrets/secrets.go:112-139 | any secrets, brackets or not: redaction leaks on no text at all if and only if it leaks on none up to a computed length over the characters of values and markers and one more |
| RedactionSearch.PassesSplit | internal/secrets/secrets.go:134-137 | the passes read their text once: what is written so far and what is held back decide the rest of the output |
| RedactionSearch.CutOut | internal/secrets/secrets.go:134-137 | a stretch of text between two equal places can be cut out and the output shows what it showed |
| RedactionGuarantees.BracketFreeLeaksIff | internal/secrets/secrets.go:112-139 | of bracket-free values the secret values themselves are texts enough to decide it |
| RedactionGuarantees.OneSecretIff | internal/secrets/secrets.go:134-137 | a single secret, whatever its value, leaks on some text if and only if the value occurs in its marker or meets one of the marker's ends so that a text can complete it |
| RedactionGuarantees.BracketFreeSelfLeaks | internal/secrets/secrets.go:134-137 | without brackets only an occurrence in the marker is left |
| RedactionGuarantees.WholeSecret | internal/secrets/secrets.go:118-137 | longest first, a text that is one whole secret becomes the marker of the first name with that value, redacted by the later secrets only |
| RedactionGuarantees.OrderMatters | internal/secrets/secrets.go:118-132 | shortest first would leave the rest of a longer secret |
| RedactionGuarantees.BracketsMayLeak | internal/secrets/secrets.go:134-137 | "a[" leaks although no marker holds it; "[[" meets the marker's border and never leaks |

## Left out

- AgentRun.Run: streaming, retries, vision, auditing, usage counters and response items of messages are not modelled; the model's answers are a given list of turns.
- HistoryStorage.CompactedShape: sanitizeAssistantContent and historySummaryLine are arbitrary functions, and an internal user message is taken to be plain.
- Summaries.SummarizeHistoryAdaptive: the chunk ratio is an arbitrary number of parts; the floating-point chunk limit is floor(5 * max / 6), at least 1.
- Trimming.TrimHistoryForContext: the second loop of the source (internal/agent/agent.go:694-698) never runs; an assertion that its guard is false stands in its place.
- LockProtocol.StepKeeps: one release closure is not called from two goroutines at once; its flag is not guarded.
- RunHistories.RoundGoodIff: the model makes up clean call IDs that are new in the history.
- DeliveryGuarantees.AtMostOnce: two drains must not be between check and record of the key at once; OverlapSendsTwice shows why.
- FanOut.KeyIffFor: two spellings of one numeric thread id count as two threads.
- FanOutGuarantees.PollerAsks: the wording of a game's message (heading, source, content and link) is a text the item comes with.
- FanOutGuarantees.FanOutAtMostOnce: items of a poll have a guid that is not blank, as the feed parsers see to; a call is one request.
- PendingDrain.DrainOne: the text of a message, pacing and logging; a send is one outcome, also for a route.
- DedupeKey.ScopedKeyInjective: lower-casing is an arbitrary function.
- FreeGames.FreeGameService.PollFreeGames: feeds, parsing and the game-title normalisation, which is an arbitrary function.
- SnapshotStore.Store.Sync: files do not change while it runs, reads of live files succeed, and the directory is a clean absolute path.
- SnapshotStore.Store.Restore: a link on the way counts as an obstacle; file modes and timestamps are not modelled.
- HealthWatch.HealthState.CheckHealth: one clock reading and one login answer per poll; the diagnosis text of a dead WhatsApp is not modelled.
- HealthWatch.WatchHealth: the drain on recovery (internal/bridge/healthwatch.go:96) compares 13 characters with 14 and never runs; it is not modelled.
- Reconnect.StepKeepsInv: delays are not modelled; a timer fires at any time after it was started.
- MirrorMap.CallsKeepOk: calls do not overlap (MirrorSteps says what overlapping calls do), and a text is one message on each platform.
- ByteSplitter.SplitMessageBytes: texts are valid UTF-8; a loop that would never end is a result instead.
- DiscordSplitter.SplitDiscordSized: chunk tokens and time metadata, which only choose what is split.
- ShellWords.ReadQuoted: operators, expansions and comments outside quotes are read as ordinary characters; the quoted text has none.
- Redaction.Redact: texts and values are valid UTF-8; placeholder substitution is not modelled.
- HTTP servers, platform clients, the language model, Postgres and git are outcomes of calls.
- Prompt assembly, configuration, skills, dashboard and feeds hold no state worth a proof.
- Background task status: a cancelled or finished task can be overwritten, so there is no monotone machine to prove.
- Sandboxes, command allow-lists and path guards of the tools.
