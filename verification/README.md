# Airship's history engine and its boundaries, modelled in Dafny

Airship keeps each conversation as an append-only, digest-linked journal. It turns the journal
into the history a provider sees, compacts old parts of it into a chain of summaries, and talks to
the outside through a few bounded machines: a bridge relay, an approval broker, workspace mounts
and adoptions, and a slash-command tokenizer. This project models those parts and proves what they
are for, over every input and every run.

How the files fit together:

- **Turns and provider history.** `TurnJournal` is the order in which turn records may stand in a
  journal. `TurnProtocol` is concurrent `runTurn` calls with other writers and a store that may
  refuse, fail, or commit and then report failure; `TurnEndings` says how a turn may be left,
  `TurnRecords` what its records say, and `TurnProgress` that it can be done. `ToolDispatch` is the
  tool loop. `TurnHistory` and `Materialize` turn the journal into messages, and `HistoryContents`
  reads those off the events; `Messages` and `ProviderHistory` say what well-paired means and that
  what is sent is so. `ImageBounds`, `ConversationShape`, `ForkContext` and `ForkSize` bound images
  and inherited context.
- **Compaction.** `Utf8Text` with `Utf8Encoding`, `SummaryChain`, `SummaryProjection`,
  `CompactionPlan`, `Compressor` and `SummaryRuns`: the walker, the renderer, the planner, the
  verifier, and runs of commitments. `SummaryText`, `CompactionText` and `CompactionPrice` say what
  stands in the texts and numbers, `SummaryAudit` what passing the verifier means; `TurnCompaction`
  ties the runs to concurrent turns.
- **Journal.** `JournalQueue` is the promise queue of one `EventJournal` against its store, and
  `QueueOutcomes` what its answers mean; `MemoryJournal` is that store; `SessionProjections` the
  derived record fields; `StableJson` and `JsonWalk` the canonical text and the values that may
  enter it; `JsonReader` reads that text back.
- **Boundaries.** `RelayTrace`, `Relay` and `RelayAnswers`; `Broker`, `BrokerSteps`,
  `ApprovalBroker`, `OutcomeLedger` and `ReviewRecords`; `WorkspaceTree`, `WorkspaceChanges`,
  `WorkspaceAdoption` and `WorkspacePort`; `SlashLexer` and `SlashRefusals`.
- `Arithmetic` and `Utf16` hold what several of them share; `WhiteSpace` says their white space is one.

Code that works on values is modelled by functions; loops and objects by methods and classes, each
proved against a function or a state whose properties are then proved as lemmas. Clocks, random
ids, SHA-256, the summarizer, providers, the network, the capability probe, review decisions and
tool results are parameters: nothing is assumed of them beyond what a row below states.
`dafny verify dfyconfig.toml` checks the whole project.

## Model

| member | source | states |
|---|---|---|
| TurnProtocol.TurnSafety | src/core/agent.ts:218-880 | Whatever the interleaving of turns and other writers, and whichever appends are lost or commit and report failure: at most one turn is open, no turn has two terminal records, a run that was admitted and ended without an aggregate error has exactly one, a refused run none |
| TurnProtocol.NextKeeps | src/core/agent.ts:218-880 | Every step of the protocol keeps the invariant tying what each run remembers to the journal |
| TurnProtocol.ProviderHistoryIsPaired | src/core/agent.ts:442-450 | Over every run, whenever the loop reads the journal the history it sends is well paired |
| TurnProtocol.ReconcileSettles | src/core/agent.ts:256-272 | A readable journal in the catch path settles the turn exactly when one terminal is there, and otherwise leads on to writing one |
| TurnEndings.LeftOpenExactly | src/core/agent.ts:283-879 | Over every run, a run that is over leaves its turn requested and without a terminal exactly when its admission committed but reported failure; or the journal could not be read when it failed and its closing append had not committed; or its terminal append was lost |
| TurnEndings.AggregateExactly | src/core/agent.ts:838-879 | A run that is over ended in an aggregate error exactly when the journal could not be read when it failed, or its terminal append reported failure and had not committed or could not be found again |
| TurnEndings.OrphanedAdmissionBlocksTheSession | src/core/agent.ts:218-221 | A turn left open by such an admission stays the unfinished turn for ever, and no run of the session is at work again |
| TurnEndings.AnAdmissionIsOrphaned | src/core/agent.ts:283-311 | A concrete run in which that admission happens |
| TurnEndings.AnAggregateLeavesItOpen | src/core/agent.ts:838-879 | A concrete run that ends in an aggregate error with its turn open |
| TurnEndings.CountedCommits | src/core/agent.ts:838-879 | The journal holds a terminal of a run's turn exactly when one of that run's own steps committed one |
| TurnRecords.RecordsAreCommitted | src/core/agent.ts:218-879 | Over every run, the journal holds a record of a turn, whatever it says, exactly when a step of that turn's run committed that record |
| TurnRecords.TerminalSays | src/core/agent.ts:838-879 | A turn is on record as cancelled with a reason exactly when its catch path wrote a cancellation with that reason, as failed with an error exactly when it wrote a failure with that error, and as completed exactly when its answer was committed |
| TurnRecords.RecordsStand | src/core/agent.ts:218-880 | What a step appended stands from where the journal then ended, complete and in order: an answer directly before its completion, a step directly before its calls; an append that was lost left nothing |
| TurnProgress.CanRun | src/core/agent.ts:190-836 | With no turn open, a run that has not begun can be admitted and complete its turn by its own appends |
| TurnProgress.CanFinish | src/core/agent.ts:442-836 | Wherever the loop of a run stands, with whatever calls unanswered, it can still answer them and complete its turn |
| TurnProgress.CanCall | src/core/agent.ts:589-792 | Between steps it can declare any calls under new ids, approve one, and complete its turn after them |
| TurnProgress.CanPrepare | src/core/agent.ts:364-441 | A turn just admitted can write its selection, its summary and its note in that order, and complete |
| TurnJournal.TerminalsOf | src/core/agent.ts:256-272 | A turn has no terminal record until it closes, and exactly one from then on |
| TurnJournal.NothingAfterTerminal | src/core/agent.ts:838-879 | After its terminal record a turn writes nothing |
| TurnJournal.FindUnfinishedProviderTurn | src/core/agent.ts:1094-1101 | The loop computes the scan that the next row relates to the journal |
| TurnJournal.UnfinishedIsOpenTurn | src/core/agent.ts:1094-1101 | On a journal the protocol may write, that scan finds exactly the open turn |
| ToolDispatch.DispatchTools | src/core/agent.ts:589-792 | Whatever reviews and executions do, every declared call gets exactly one outcome, its own, in appends the journal admits, before the loop goes on; what runs is the calls that pass their review, in call order, in groups of one or of reads alone |
| ToolDispatch.ReadEffectBatch | src/core/agent.ts:1186-1194 | The batch is the maximal run of reads at the cursor, or exactly one call |
| ToolDispatch.RecordOutcomes | src/core/agent.ts:727-792 | Outcomes are recorded in call order, one for each admitted call, and leave none of them pending |
| Messages.PairedMeaning | src/core/agent.ts:1276-1426 | The pairing scan means: each declared call is answered by exactly one tool message before the next step, and each tool message answers the nearest earlier step |
| TurnHistory.MaterializedHistoryIsPaired | src/core/agent.ts:1276-1426 | At every step boundary of every journal the protocol may write, with any mix of completed, failed, cancelled and compacted turns, the materialized history is so paired |
| TurnHistory.DroppedTurnContributesNothing | src/core/agent.ts:1302-1327 | Replacing all that a failed or unsalvaged turn wrote by anything that leaves it dropped changes no message |
| TurnHistory.StoppedRequestNeverAppears | src/core/agent.ts:1326-1337 | Whatever else a stopped turn had been asked for, the history sent is the same |
| TurnHistory.FailedIsDropped | src/core/agent.ts:1302-1310 | A failed turn is dropped, never salvaged |
| TurnHistory.CancelledLeavesNothingOpen | src/core/agent.ts:1450-1492 | A cancelled turn is never kept whole, and a salvaged one keeps no call that was pending |
| TurnHistory.CutsBetweenTurns | src/core/agent.ts:1288-1291 | What a summary covers always ends at a completed turn, so no turn is cut in two |
| Materialize.MaterializeMessages | src/core/agent.ts:1276-1426 | The pass that pushes messages, skips what cannot be read and patches earlier messages in place computes that history, images bounded |
| HistoryContents.HistorySays | src/core/agent.ts:1276-1426 | After its base, the tool messages are exactly the outcomes of the turns that count, with id and result; the steps theirs, of a stopped turn the text and the answered calls; the user's messages the requests, checkpoints and restated plans: each kind complete, in journal order, word for word |
| HistoryContents.HistoryInOrder | src/core/agent.ts:1276-1426 | What the visible events say stands in the order of the events, after the base, and the images are the last two of all |
| HistoryContents.FateMeans | src/core/agent.ts:1302-1310 | A turn is whole exactly when no record of it says failed or cancelled, and salvaged exactly when it was visibly cancelled after a step and with something said or done |
| HistoryContents.SalvageMeans | src/core/agent.ts:1450-1492 | A salvaged turn keeps its last reason and exactly the answered calls, and the count is of the declared calls that were not answered |
| HistoryContents.AskedVerbatim | src/core/agent.ts:1322-1388 | A request stands verbatim unless it is of the turn of the latest request of a turn that was not stopped; a slash prompt always does |
| HistoryContents.LatestIsNewest | src/core/agent.ts:1322-1325 | That latest request is the newest one of a turn with no failed or cancelled record |
| Materialize.CancelledTurnSalvage | src/core/agent.ts:1450-1492 | The scan finds exactly the cancelled turns with finished work, with what each of them keeps |
| Materialize.NonActionableTurns | src/core/agent.ts:1302-1310 | The scan finds exactly the turns that are dropped |
| Materialize.PatchSelection | src/core/agent.ts:1371-1388 | Patching one message in place keeps the messages equal to the history so far |
| ProviderHistory.SentIsPaired | src/core/agent.ts:1311-1320 | The same over every run of the protocol, for a history that begins with nothing, with the summary message, or with an inherited fork seed |
| ImageBounds.BoundInferenceHistoryImages | src/core/multimodal-contract.ts:52-73 | The backward walk over the array computes the bound of the next row |
| ImageBounds.BoundedHistory | src/core/multimodal-contract.ts:52-73 | Role, text, ids and order of every message are kept, and all kept images together are exactly the last two of the input; pairing is untouched |
| ConversationShape.ValidConversationShape | src/core/fork-context.ts:295-323 | The scan with its sets and phase decides the shape of the next row |
| ConversationShape.ShapeExactly | src/core/fork-context.ts:295-323 | A conversation has the shape exactly when it is paired, uses no call id twice, and its turns are in order and whole |
| ForkContext.WholeTurnGroups | src/core/fork-context.ts:227-239 | The groups concatenate to the input, and each is one turn: a user message begins it and stands nowhere else in it |
| ForkContext.BoundWholeTurns | src/core/fork-context.ts:179-225 | Refuses exactly the misshapen; else the longest whole-turn suffix within both limits, or the newest turn without images, or nothing if not even that fits; the result has the shape, and kept plus omitted messages and images are the originals |
| ForkContext.LongestIsLongest | src/core/fork-context.ts:192-205 | A whole-turn suffix fits exactly when it is no longer than the one picked |
| ForkSize.CanonicalBytesMeasured | src/core/fork-context.ts:383-385 | The bytes that are bounded are those of the canonical text of the messages, in UTF-8 |
| Utf8Text.TruncateUtf8 | src/core/context-summary-projection.ts:548-556 | The character loop computes the truncation of the next row |
| Utf8Text.TruncationBounded | src/core/context-summary-projection.ts:548-556 | A text that fits is itself; otherwise the cut is the latest that leaves room for the ellipsis, and with room for that alone the bound is never exceeded |
| Utf8Encoding.BytesAreEncoded | src/core/context-summary-projection.ts:548-556 | The size of a text is that of its bytes in UTF-8, section 3 of RFC 3629 |
| Utf8Encoding.EncodeReads | src/core/context-summary-projection.ts:548-556 | Those bytes are UTF-8: every character reads back from them, whatever follows, by a decoder that refuses longer forms |
| WhiteSpace.OneTable | src/core/context-summary-projection.ts:548-556 | Trimming and the tokenizer know exactly the white space and line ends of sections 12.2 and 12.3 of ECMA-262 |
| SummaryChain.ContextSummaryChain | src/core/context-summary-projection.ts:252-275 | The walk returns the chain when there is one and nothing exactly when there is none |
| SummaryChain.ChainUnique | src/core/context-summary-projection.ts:252-275 | There is at most one chain |
| SummaryChain.CompactionSegment | src/core/context-summary-projection.ts:304-330 | The search decides whether the newest tier names exactly the oldest run and takes every earlier tier in |
| SummaryProjection.ProjectionPartitions | src/core/context-summary-projection.ts:277-297 | Every projection's tier, omitted range and deltas tile events 1..coveredThrough with no gap or overlap, name every summary once and in order, and the message stays within its byte budget |
| SummaryProjection.LongestSuffixShown | src/core/context-summary-projection.ts:355-380 | All is shown if it fits, else the longest suffix of deltas that fits; texts are cut only if not even the newest delta fits |
| SummaryProjection.BoundedSummaryChainProjection | src/core/context-summary-projection.ts:355-380 | The search loop over how much to omit computes that projection |
| SummaryProjection.NewestOnlyFits | src/core/context-summary-projection.ts:382-403 | The last resort stays within the bound |
| SummaryProjection.MaterializeContextSummary | src/core/context-summary-projection.ts:278-297 | The journal's projection is that of its one chain, and nothing if it has none |
| SummaryText.ProjectionText | src/core/context-summary-projection.ts:355-422 | If leaving out some number of deltas fits, the message is, to the letter, opening, tier, notice, deltas under their headers and closing, with the fewest left out that fit |
| SummaryText.EveryDeltaStands | src/core/context-summary-projection.ts:405-422 | Then every delta that is not left out stands whole in the message under a header with its digest and range, in chain order |
| SummaryText.TierStands | src/core/context-summary-projection.ts:355-380 | In such a message the carried tier's body stands whole under its header, before every delta |
| SummaryText.LastResortText | src/core/context-summary-projection.ts:382-403 | If nothing fits, the message is the cut tier, the notice of all but the newest, and the newest delta cut to what room is left |
| SummaryText.ProjectionFields | src/core/context-summary-projection.ts:277-297 | The other fields are the end and digest of the newest summary, the length of the chain, the size of the message, and the tier's level and end, or 0 |
| SummaryText.DecReadsBack | src/core/context-summary-projection.ts:405-422 | The numbers in headers read back as themselves |
| CompactionPlan.PlanSummaryCompaction | src/core/context-summary-projection.ts:429-483 | Declines exactly when there is no chain, all fits, or no run may be absorbed; else the shortest run that leaves a quarter of the budget, else the shortest that fits, else the longest allowed |
| CompactionPlan.PlannerAndRendererAgree | src/core/context-summary-projection.ts:355-483 | If the planner declines because all fits, or picks a run that fits, the next projection shows every delta uncut |
| CompactionPlan.AmpleBudgetNeverOmits | src/core/context-summary-projection.ts:130-142 | With 2·maxBody + 482 within the body budget, and within the caps on tiers and absorbed summaries, the projection after any commitment omits nothing |
| Compressor.PlanContextCompression | src/core/context-compressor.ts:291-434 | What is committed is the summary of the next range with the tier the plan calls for; nothing is committed only when nothing is due; it fails only on a summarizer without fallback or a journal whose summaries are no chain; its text, its tier and its price are those of the rows of CompactionText and CompactionPrice |
| Compressor.CompactSummaryTier | src/core/context-compressor.ts:499-565 | The tier absorbs exactly the planned run, within its byte bound and not blank; there is none only if the summarizer fails without fallback |
| Compressor.ExtractiveBodyUsable | src/core/context-compressor.ts:596-604 | The extractive body is never blank and never over its bound |
| CompactionText.TierSays | src/core/context-compressor.ts:499-565 | A tier's body is the summarizer's trimmed text if it is usable; else, with no summarizer or with fallback, the extraction from the carried tier's body and then every fresh delta of the run; else there is none |
| CompactionText.SourceStands | src/core/context-compressor.ts:567-604 | When each text fits its share and all fit together, the extracted body holds each whole under its header, in order, but for white space at the very end |
| CompactionText.CutSourceStands | src/core/context-compressor.ts:567-604 | When they fit together once cut, each stands whole if it fits its share, and else as a prefix marked as cut |
| CompactionText.CutBodyIsPrefix | src/core/context-compressor.ts:596-604 | When they do not, the body is a prefix of all of it, marked as cut and not empty |
| CompactionText.DeltaSays | src/core/context-compressor.ts:330-372 | A delta's text is the summarizer's trimmed text if it is usable; else, with no summarizer or with fallback, the extract of the range, cut and trimmed; else there is none |
| CompactionText.TrimMeans | src/core/context-compressor.ts:596-604 | Trimming takes white space from both ends and nothing else |
| CompactionPrice.TokensCarryTheText | src/core/context-compressor.ts:291-434 | A text is priced at the fewest whole tokens that carry its bytes, and at least one |
| CompactionPrice.SavedAreSpared | src/core/context-compressor.ts:291-434 | A tier saves the most whole tokens that the bytes it spares are worth, and none if it spares none |
| SummaryRuns.PlannerWalkerVerifierAgree | src/core/context-compressor.ts:291-489 | After any number of commitments, each planned on an earlier part of the journal with no summary or completed turn since, the chain is all of them, its newest tier is never invalid, tier levels strictly increase, and the verifier accepts each one |
| SummaryRuns.SummarizeKeeps | src/core/context-compressor.ts:291-434 | One commitment keeps the summaries a sound and verified chain |
| SummaryRuns.PlanSurvives | src/core/agent.ts:283-401 | A commitment planned on an earlier part of the journal is what would be planned now, if no summary and no completed turn came since |
| TurnCompaction.ConcurrentCommitmentsAgree | src/core/agent.ts:364-401 | Over every run of concurrent turns that commit what was planned on the history each had read: the same agreement of chain, tiers and verifier |
| TurnCompaction.JournalIsSeenThenQuiet | src/core/agent.ts:190-401 | Until a turn commits its summary, the journal is the history it read and then events the planner does not look at |
| TurnCompaction.PlannedIsAdmitted | src/core/agent.ts:364-401 | What is planned on the history a turn read is what the protocol lets it write: it ends at a completed turn past the summary before it |
| SummaryRuns.AmpleRunsNeverOmit | src/core/context-compressor.ts:291-434 | Over every run under such a policy, every projection shows every delta uncut |
| SummaryRuns.CommitmentCanonicalIff | src/core/context-summary-projection.ts:144-204 | A planned commitment is one the readers accept exactly when its threshold and target round to different basis points |
| SummaryRuns.ResolvedOptionsCanRoundTogether | src/core/context-compressor.ts:408-429 | Options the compressor accepts that do not |
| SummaryRuns.CommitThatIsNotRead | src/core/context-compressor.ts:291-434 | With those options and three completed turns the compressor commits, and the readers do not see the commitment |
| SummaryRuns.PinnedPolicyRoundsApart | src/core/context-compressor.ts:408-429 | Options read back in whole basis points always do |
| SummaryRuns.VerifyContextSummary | src/core/context-compressor.ts:436-455 | The verifier accepts exactly the commitments whose links, digests, range and tier check |
| SummaryRuns.VerifySummaryCompaction | src/core/context-compressor.ts:462-489 | The tier's loop accepts exactly a tier over the oldest prior summaries, one level above them |
| SummaryAudit.PassedIsSound | src/core/context-compressor.ts:436-489 | Summaries that pass the verifier one by one are one sound chain with its tiers exactly when none goes back over events an earlier one covers and no two have one digest |
| SummaryAudit.PassedIsChain | src/core/context-compressor.ts:436-489 | Summaries that pass so are the chain that readers walk, all of them |
| SummaryAudit.OneDigestOneHistory | src/core/context-compressor.ts:436-489 | Two such journals whose newest summaries have one digest hold the same summaries, over ranges that end in the same events, or two commitments collide |
| SummaryAudit.AcceptedIsBound | src/core/context-compressor.ts:436-489 | One digest of an accepted summary, delta or tier body is one commitment or text, and a producer's response digest is that of the text, or there is a collision |
| JournalQueue.QueueSafety | src/core/journal.ts:383-498 | In every interleaving of appends, fenced appends, deletes, aborts, failures and outside writers at most one operation of the instance is at the store, those that take effect do so in call order, and one has exactly when its own outcome says so |
| JournalQueue.NoConflictWhenAlone | src/core/journal.ts:383-498 | With no outside writer a plain append never meets a conflict, and the session is its first head with the committed appends in call order |
| JournalQueue.FencedOnItsHead | src/core/journal.ts:278-298 | A fenced append or delete takes effect exactly on the head it was given, and otherwise changes nothing |
| JournalQueue.QueueNeverStuck | src/core/journal.ts:429-498 | While any operation is unsettled some step moves the oldest one on |
| JournalQueue.QueueDrains | src/core/journal.ts:429-498 | Without further calls, whatever writers outside do, the queue takes at most as many steps as its load; it is drained exactly when no load is left, and until then some step lowers it |
| JournalQueue.RemainingAppends | src/core/journal.ts:461-498 | With no delete committed, what remains is the first head and every committed append |
| QueueOutcomes.OutcomeExactly | src/core/journal.ts:383-498 | Over every run, an operation has an outcome exactly when the step it stands for was taken: a conflict only on a head that had moved, unknown or gone only with no session there, an abort only of an aborted call |
| MemoryJournal.SealEvents | src/core/journal.ts:500-563 | The sealing loop yields the drafts as a chain onto the head, each sealed by the hash |
| MemoryJournal.SameHeadSameHistory | src/core/journal.ts:500-563 | Two sealed histories from "genesis" with one head digest are identical, or exhibit two events that collide |
| MemoryJournal.MemoryJournalBackend.Append | src/core/memory-journal.ts:49-94 | Stored exactly when the session has the expected head and the batch extends it; a loser changes nothing; the history grows by the batch and nothing else changes |
| MemoryJournal.MemoryJournalBackend.DeleteSession | src/core/memory-journal.ts:33-41 | Deletes exactly on the expected head, or when there is nothing to delete |
| MemoryJournal.MemoryJournalBackend.ReadEvents | src/core/memory-journal.ts:43-47 | Exactly the events after a sequence number, whichever it is; they are a suffix of the history |
| MemoryJournal.HistoryGrows | src/core/memory-journal.ts:77-93 | A record updated from the batch alone is the projection of the whole longer history; replayed batches change only title, recency and head |
| MemoryJournal.BatchingDoesNotMatter | src/core/memory-journal.ts:77-93 | However a run of events is cut into batches the record ends up the same |
| SessionProjections.LastOfSplit | src/core/journal.ts:724-881 | However a history is cut in two, the later part speaks first |
| SessionProjections.GrantedOfSplit | src/core/journal.ts:850-864 | Pins granted batch by batch are those of the whole history |
| SessionProjections.ProjectedSessionTitle | src/core/journal.ts:732-744 | The backward scan finds the last title the events set, else the fallback |
| SessionProjections.ProjectedSessionModel | src/core/journal.ts:755-769 | The same for the model |
| SessionProjections.ProjectedSessionContextPolicy | src/core/journal.ts:811-831 | The same for the context policy, an explicit null included |
| SessionProjections.ProjectedSessionApprovalMode | src/core/journal.ts:866-881 | The same for the approval mode |
| SessionProjections.LastRecencyAdvancingEvent | src/core/journal.ts:724-730 | The last event that is not bookkeeping |
| SessionProjections.PolicyOfRecord | src/core/journal.ts:811-831 | The last event that names a policy or an explicit null decides: null is an override of its own, and events that say nothing usable change nothing |
| SessionProjections.ClearedPolicyStaysCleared | src/core/journal.ts:788-792 | A policy cleared by an explicit null does not fall back to that of the manifest |
| SessionProjections.ModelOfRecord | src/core/journal.ts:755-769 | The model is the last valid one named, whatever unusable ones were named since |
| StableJson.StableDecides | src/core/hash.ts:6-23 | Two JSON values have the same text exactly when they are the same up to key order and the sign of zero |
| StableJson.StableUnambiguous | src/core/hash.ts:6-23 | A text says where it ends and what value it is of, whatever follows |
| StableJson.SortedAscending | src/core/hash.ts:21-22 | Keys come out in strictly ascending code-unit order, section 3.2.3 of RFC 8785 |
| StableJson.AscendingUnique | src/core/hash.ts:21-22 | Only one ascending sequence has given members, so insertion order cannot show |
| StableJson.QuotedUnambiguous | src/core/hash.ts:7-22 | A quoted string ends where it ends, lone surrogates included |
| JsonReader.QuotedReads | src/core/hash.ts:6-23 | A quoted string, read by the grammar of section 7 of RFC 8259, is the string, whatever follows it |
| JsonReader.StableReadsBack | src/core/hash.ts:6-23 | The canonical text of a value is a JSON text of it: read by that grammar it gives the same value |
| JsonWalk.IsJsonValue | src/core/journal.ts:607-640 | The explicit-stack walk ends on every finite object graph and accepts exactly the values from which only JSON kinds and no cycle can be reached |
| JsonWalk.SharingIsAccepted | src/core/journal.ts:607-640 | Shared objects without a cycle are accepted however often they are shared |
| RelayTrace.TraceMeaning | extension/src/relay.ts:1-14 | What a reservation in any place has emitted is a prefix of head chunk* (end or error) or a lone hello or error, carries a prefix of the body, and an end counts the chunks of the whole body |
| Relay.ReservationGrammar | extension/src/relay.ts:126-407 | In every state the class keeps, that holds of each reservation ever admitted; it is answered exactly when its last message is a terminator |
| Relay.CapsHold | extension/src/relay.ts:153-159 | Live reservations of a kind never exceed the cap |
| Relay.BridgeRelay.Handle | extension/src/relay.ts:325-407 | Refusals, silent cancellation and admission as the source branches; nothing terminated emits again, and only a cancellation releases in silence |
| Relay.BridgeRelay.Terminate | extension/src/relay.ts:132-139 | At most one terminal message, and the slot and id are released with it |
| Relay.BridgeRelay.EmitChunks | extension/src/relay.ts:308-322 | The chunks carry exactly the piece, numbered on, or fail once they would be too many |
| Relay.BridgeRelay.PieceRead | extension/src/relay.ts:270-306 | A piece over the ceiling emits nothing and fails; else all of it is emitted; no reservation is released in silence |
| Relay.BridgeRelay.ResponseArrived | extension/src/relay.ts:228-268 | Redirects and statuses outside 200..599 are refused before a head; else one head |
| Relay.BridgeRelay.CapabilitiesKnown | extension/src/relay.ts:162-195 | A hello is answered, a refused fetch fails, any other goes on to fetch |
| Relay.BridgeRelay.ReaderCancelled | extension/src/relay.ts:299-306 | The exchange ends with the chunk count or with what went wrong, unless it is over |
| Relay.BridgeRelay.DeadlineFired | extension/src/relay.ts:378-386 | At any moment a live exchange ends with the deadline error, one that is over is untouched |
| Relay.BridgeRelay.Dispose | extension/src/relay.ts:411-421 | Every reservation is released in silence, and nothing is sent any more |
| RelayAnswers.HandledExactly | extension/src/relay.ts:325-407 | A malformed request is told so, a cancellation ends its reservation in silence, an id in use is refused first and then a kind at its cap, neither touching a reservation; any other has a reservation of its own |
| RelayAnswers.PassesExactly | extension/src/relay.ts:228-268 | A response passes exactly if it is not redirected and its status is 304, 200 to 299 or 400 to 599; each refusal says which it was |
| Broker.StepKeeps | src/approvals/broker.ts:184-383 | Every step keeps the queue equal to the unanswered requests, within the cap, the ledger true, and every answer given |
| Broker.AnswersStay | src/approvals/broker.ts:361-376 | Over every run a request resolves at most once |
| Broker.LiveCanSettle | src/approvals/broker.ts:296-332 | In every reachable state an unanswered request can be settled at once by a person, by the clock and by its turn |
| Broker.OnlyDecideAllows | src/approvals/broker.ts:329-376 | A request comes out allowed only by a person deciding "allow" on it while it is live |
| Broker.SettledAllAnswers | src/approvals/broker.ts:354-359 | settleAll answers every live request in its scope and no other: a refusal from a person, withdrawn from the page |
| Broker.SnapshotPartitions | src/approvals/broker.ts:184-191 | Pending and deferred partition the queue |
| BrokerSteps.AnsweredBy | src/approvals/broker.ts:329-376 | Which answer of whom a waiting request has after any step: by its id, or in a settlement of its session or of all |
| BrokerSteps.AskedAs | src/approvals/broker.ts:261-322 | A new request waits, unless its turn is gone, the queue is full or one of its id is waiting |
| BrokerSteps.PutDownExactly | src/approvals/broker.ts:214-322 | After any step an id is put down exactly if it waits, was deferred or asked while another conversation was on screen, and was not resumed |
| BrokerSteps.AnnouncedExactly | src/approvals/broker.ts:361-376 | A settlement is announced exactly for the requests that were waiting and are answered by the step |
| ApprovalBrokers.ApprovalBroker.Snapshot | src/approvals/broker.ts:184-191 | The loop sorts each queued request to the side its postponement says |
| ApprovalBrokers.ApprovalBroker.RequestApproval | src/approvals/broker.ts:261-322 | Live exactly when the turn is not aborted, the queue has room and the id is free; the whole new state |
| ApprovalBrokers.ApprovalBroker.Settle | src/approvals/broker.ts:361-376 | The whole new state of a settlement, and whether there was one |
| ApprovalBrokers.ApprovalBroker.SettleAll | src/approvals/broker.ts:354-359 | The loop over a copy of the entries reaches the state of Broker.SettledAllAnswers |
| ApprovalBrokers.ApprovalBroker.TakeOutcome | src/approvals/broker.ts:255-259 | The outcome on record under an id, once |
| OutcomeLedger.OnRecordExactly | src/approvals/broker.ts:378-383 | Over every run, a request's record is still on the ledger exactly when its id was neither filed anew nor taken since and nothing was filed while it was the oldest of 256 |
| OutcomeLedger.OnRecordFor256 | src/approvals/broker.ts:378-383 | A record just filed survives any run that files fewer than 256 outcomes and leaves its id alone |
| OutcomeLedger.OnRecordUntilThe256th | src/approvals/broker.ts:378-383 | If each of those is under an id not then on the ledger, it survives exactly until the 256th |
| OutcomeLedger.RepeatsDropNothing | src/approvals/broker.ts:378-383 | Filing one other id over and over drops nothing, however often |
| ReviewRecords.UnaskedEffects | src/approvals/modes.ts:62-152 | Exactly which effects run without a person being asked, in each mode, for proposals of the model and of the person |
| ReviewRecords.OwnRecordIsTruthful | src/approvals/modes.ts:97-117 | A review that finds its own record names a person exactly when a person decided |
| ReviewRecords.SourceExactly | src/approvals/modes.ts:68-243 | What each recorded source says of the mode, the effect, its target and who decided, for proposals of the model and of the person |
| ReviewRecords.FalseSourceExactly | src/approvals/modes.ts:97-117 | A review of a request no person decided names one exactly when the record is gone or is of another request a person decided |
| ReviewRecords.FalseSourceOverRuns | src/approvals/modes.ts:193-243 | The same over every run since the record was filed, in terms of the operations between |
| ReviewRecords.EvictedRecordNamesAPerson | src/approvals/broker.ts:261-268 | 257 requests of turns already aborted, asked in one burst: the first one's record is dropped, and its review files a person's refusal |
| ReviewRecords.RepeatedIdNamesAPerson | src/approvals/broker.ts:153-155 | A run in which the id stands for a later request, whose refusal is filed for the first |
| WorkspaceTree.MountsExactly | src/execution/node-webcontainer-adapter.ts:626-652 | A snapshot survives being mounted and read back exactly when no file's path runs through another file |
| WorkspaceTree.MountRefusedExactly | src/execution/node-webcontainer-adapter.ts:626-637 | A mount is refused exactly when a file's path runs through an earlier file |
| WorkspaceTree.SortedNeverLoses | src/workspace/memory.ts:29-35 | A list sorted by path loses no file: it mounts whole, or is refused exactly when two paths clash |
| WorkspaceTree.ClashesEitherWay | src/execution/node-webcontainer-adapter.ts:626-637 | Of "a" and "a/b", the shorter first is refused, and the longer first is lost |
| WorkspaceTree.InsertFinds | src/execution/node-webcontainer-adapter.ts:626-637 | The inserted file is found, what was under its path is gone, every other file is as it was |
| WorkspaceTree.CollidesWith | src/execution/node-webcontainer-adapter.ts:626-637 | An insertion fails only on a file on its way |
| WorkspaceTree.FlattenFinds | src/execution/node-webcontainer-adapter.ts:639-652 | Flattening lists exactly the files that can be found, under their paths |
| WorkspaceChanges.CollectWorkspaceChanges | src/execution/node-webcontainer-adapter.ts:425-469 | Exactly one change for every path where the export asks for one, or a refusal: of an attached path, of too many changes, of too many bytes |
| WorkspaceChanges.ReconcileReturned | src/execution/wasi-preview1-pack.ts:267-283 | The second implementation asks for the same changes, writes before deletions, and refuses exactly output with a name, a path, a size or a duplicate that is out of place |
| WorkspaceChanges.ExcludedBySegment | src/execution/node-webcontainer-adapter.ts:425-440 | A path is excluded exactly by a segment .airship, .git or node_modules, wherever it stands |
| WorkspaceChanges.AttachedIsUnder | src/execution/node-webcontainer-adapter.ts:425-445 | The attached folder is its mount and all that is under it, and nothing else |
| WorkspaceAdoption.AdoptionExact | src/execution/node-webcontainer-adapter.ts:471-496 | With nobody else writing, adopting the changes in any order makes the files that may be mounted exactly the exported ones and leaves the rest alone |
| WorkspaceAdoption.AdoptedFaithfully | src/execution/node-webcontainer-adapter.ts:471-496 | Whatever others do: a preflight conflict writes nothing, and what is written or removed is the changes in order, each over the very revision that was mounted |
| WorkspaceAdoption.AloneAllOrNothing | src/execution/node-webcontainer-adapter.ts:471-496 | Alone, it succeeds exactly when every change finds what it expects, and otherwise changes nothing |
| WorkspaceAdoption.PartStaysExactly | src/execution/node-webcontainer-adapter.ts:486-496 | It fails with part of the changes made exactly when the preflight passed and, after at least one change, the next call found another revision or the operation was taken back |
| WorkspaceAdoption.ARaceLeavesAPart | src/execution/node-webcontainer-adapter.ts:486-496 | A race in which that happens |
| WorkspacePort.Workspace.AdoptWorkspaceChanges | src/execution/node-webcontainer-adapter.ts:471-496 | The two loops reach the state those rows speak of |
| WorkspacePort.Workspace.WriteBack | src/execution/wasi-preview1-pack.ts:284-303 | The second implementation's write-back is the adoption of what changed and then what is gone, never interrupted; and nothing at all if it was not asked for or the exit code is not 0 |
| WorkspacePort.WriteBackExact | src/execution/wasi-preview1-pack.ts:260-303 | With nobody else writing, it makes the files that may be mounted exactly the returned ones and leaves the rest alone |
| WorkspacePort.Workspace.Write | src/workspace/memory.ts:37-58 | A write takes effect exactly on the expected revision, or on no file |
| WorkspacePort.Workspace.Remove | src/workspace/memory.ts:60-66 | A removal takes effect exactly on the expected revision, and is of no effect on a file that is gone |
| WorkspacePort.Workspace.SnapshotIsCurrent | src/execution/node-webcontainer-adapter.ts:402-423 | The listing equals the mounted revisions exactly when no file that may be mounted changed, came or went |
| SlashLexer.TokenizeSlashInput | src/commands/parser.ts:31-103 | The loop over token, quote and escape computes the tokenization of the next rows |
| SlashLexer.LexedExactly | src/commands/parser.ts:31-103 | An input is the command of given tokens exactly when it is a spelling of them, plain, escaped or quoted in any mix, within every limit |
| SlashLexer.SpellingsReadBack | src/commands/parser.ts:31-103 | Every spelling within the limits on input reads back as its tokens, or is refused if they exceed theirs |
| SlashLexer.QuotedRoundTrip | src/commands/parser.ts:31-103 | Quoting each of any tokens in either quote, escaping what needs it, joined by spaces, reads back as exactly those tokens |
| SlashRefusals.RefusedExactly | src/commands/parser.ts:31-103 | Each refusal says exactly what is wrong: too large, a control character, an end inside an escape or a quote, or else the first word that ends too long or as one too many |

## Findings

Where the code does not keep what it seems to promise: the input, and exactly when it does.

| finding | input | exactly when |
|---|---|---|
| A commitment made under accepted options can be one the journal's readers reject | threshold 0.82 and target 0.81999 (`SummaryRuns.ResolvedOptionsCanRoundTogether`), on three completed turns (`SummaryRuns.CommitThatIsNotRead`); a turn's own pinned policy never gets there (`SummaryRuns.PinnedPolicyRoundsApart`) | rejected if and only if the two ratios round to the same basis points (`SummaryRuns.CommitmentCanonicalIff`) |
| A turn can be left open, and then blocks its session | an admission that commits and reports failure (`TurnEndings.AnAdmissionIsOrphaned`), or a store that cannot be read when the turn has failed (`TurnEndings.AnAggregateLeavesItOpen`) | `TurnEndings.LeftOpenExactly` |
| A review can name a person for an outcome no person decided | 257 requests of aborted turns asked in one burst, before any of their reviews goes on (`ReviewRecords.EvictedRecordNamesAPerson`); or the same id asked and decided again before the review goes on, which takes a listener of the broker that does both at once (`ReviewRecords.RepeatedIdNamesAPerson`) | `ReviewRecords.FalseSourceExactly`, and over runs `ReviewRecords.FalseSourceOverRuns` with `OutcomeLedger.OnRecordExactly` |
| An adoption can fail with part of its changes made | another writer between two writes (`WorkspaceAdoption.ARaceLeavesAPart`) | `WorkspaceAdoption.PartStaysExactly`; never when nobody else writes (`WorkspaceAdoption.AloneAllOrNothing`) |
| A snapshot with a file whose path runs through another file is refused, or loses a file if its list is not sorted | "a" before "a/b" is refused, "a/b" before "a" loses it (`WorkspaceTree.ClashesEitherWay`) | refused if and only if a path runs through an earlier file (`WorkspaceTree.MountRefusedExactly`), whole if and only if none runs through another (`WorkspaceTree.MountsExactly`); sorted, as the workspace lists them, never lost (`WorkspaceTree.SortedNeverLoses`) |

## Left out

- TurnProtocol.TurnSafety: a store that commits an append only after it has reported failure is not modelled; the catch path reads once before it appends (src/core/agent.ts:838-879), so a terminal that lands between the two would be followed by a second one.
- TurnProtocol.TurnSafety: turn ids are the runs' own numbers, so a random id is taken to be unique; deletion and recreation of the session are not steps.
- TurnProgress.CanFinish: that the steps are there, not that a provider or a tool ever answers; the bound on steps and the stop after repeated failures (src/core/agent.ts:407-441) are throws that may come at any moment.
- TurnRecords.TerminalSays: whether a turn was cancelled, and the text of what it threw, are inputs of the step that writes its terminal.
- JournalQueue.QueueSafety: the store answers after its effect, never before, and a session's head stands for its history; ids and clocks are left out.
- JournalQueue.QueueDrains: that steps lower the load and one is always there, not that one is ever taken.
- TurnHistory.MaterializedHistoryIsPaired: prompt wording, the plan note's text and the bound on tool results (src/core/agent.ts:1045-1082) are opaque; which requests and selections can be read is any function, and the content of a selection embedded in a request by an older journal is not modelled.
- ProviderHistory.SentIsPaired: that a fork seed has the shape is what its reader checks (src/core/fork-context.ts:112-154); its digest and scope checks are not modelled.
- ImageBounds.BoundInferenceHistoryImages: validation of image data (src/core/multimodal-contract.ts:13-50, 75-84) is left out.
- ForkContext.BoundWholeTurns: messages are taken as canonical, their sizes as any function, and so is their form as JSON in ForkSize.CanonicalBytesMeasured; sealing the seed with its 4096 reserved bytes is left out.
- SummaryProjection.ProjectionPartitions: digests are 50 characters and sequence numbers at most 16 digits. The budget takes the ratio 54/125 exactly, where the code floors a product of floating numbers, which can be one byte less when the product is whole.
- SummaryRuns.PlannerWalkerVerifierAgree: SHA-256 is any function; the journal's commitments are taken not to collide with the next one, and ratios not to round together. Token estimates and their calibration are any numbers in their bounds.
- TurnCompaction.ConcurrentCommitmentsAgree: that a turn commits what was planned on the history it had read is its hypothesis, as the two modules keep their own records of one journal.
- Compressor.PlanContextCompression: the summarizer and the salience scoring are any functions; what a summarizer yields is checked for its bound only.
- SummaryChain.ContextSummaryChain: field-by-field parsing of summaries is left out, but for the checks the proofs need.
- MemoryJournal.SameHeadSameHistory: no injective hash is assumed, the collision is named instead.
- MemoryJournal.MemoryJournalBackend.Append: cloning is left out, as records are values; listing sessions is not modelled.
- SessionProjections.ProjectedSessionApprovalMode: conversion of other values to a string is left out.
- JsonReader.StableReadsBack: the reader takes no white space between tokens, which the text never has, and keeps a number as its decimal.
- StableJson.StableDecides: a number's text is taken as its shortest decimal; SHA-256 and base64url (src/core/hash.ts:25-60) are left out.
- Relay.ReservationGrammar: header filtering, base64 and message texts are left out; a destination's refusal, the capability verdict and the response are inputs. Order between two waits of one exchange is that of its phases.
- Relay.BridgeRelay.EmitChunks: the check between chunks that the exchange is still live is left out, as nothing else runs between them.
- Broker.StepKeeps: redaction, descriptions, listeners and timers' lengths are left out; a map keeps its entries in the order of their requests, so the queue is read in that order.
- Broker.LiveCanSettle: that a settling step is there at any moment, not that the person or the clock ever takes it.
- ReviewRecords.UnaskedEffects: whether an effect names the attached folder is an input.
- WorkspaceTree.InsertFinds: on values; that the tree is updated in place is not captured, nor that a failed mount has inserted part of it.
- WorkspaceChanges.CollectWorkspaceChanges: paths are the segments under the root and contents are as encoded; the changes are in no particular order, where the code sorts them.
- WorkspaceChanges.ReconcileReturned: where a returned name leads under the root is an input, as is the size of a content.
- ReviewRecords.FalseSourceOverRuns: how many steps come between a settlement and its review going on is not bounded, where the code goes on with the next microtask.
- WorkspaceAdoption.AdoptionExact: for a root outside Airship's own directory; other writers act only between calls of the workspace.
- SlashLexer.LexedExactly: on code units; the code walks code points, which splits no differently, as no special character is a surrogate.
- Storage adapters, the vault, terminals, the prime runtime, session audit, fork orchestration, command registry and all of the user interface are not part of this model.
