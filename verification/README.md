# Governor: a verified model

Governor lets agents edit the notes of an Obsidian vault under a guard, a queue and a journal. This project models the
parts of it that carry unbounded obligations and proves them in Dafny 4.11: `dafny verify dfyconfig.toml`.

| part | files |
|---|---|
| the in-memory index and its watcher | `IndexModel`, `IndexBuckets`, `IndexStore`, `IndexLookups`, `IndexRuns`, `WatcherModel`, `WatcherRuns` |
| the reconnecting bridge relay and its framing | `RelayModel`, `RelayLemmas`, `RelayRuns`, `RelayOrder`, `RelayFates`, `Bridge`, `Framing` |
| the accept guard and its frontmatter readers | `AcceptGuard`, `AcceptTransition`, `FlowModel`, `FlowCursor`, `FlowRoundTrip`, `BlockModel`, `BlockReader`, `BlockLines`, `BlockRoundTrip`, `FlowItems`, `FlowVerdict`, `BlockWindow`, `BlockSound`, `TopFields`, `Assignments` |
| idempotency keys and the mutation kernel | `IdempotencyModel`, `IdempotencyRuns`, `KernelModel`, `KernelRuns`, `KernelTheorems`, `KernelObject` |
| the frontmatter line editor | `Fence`, `FrontmatterEdit`, `FrontmatterFields`, `FrontmatterReadBack` |
| its edits seen by the guard | `FieldEdits`, `GuardedEdits`, `WrittenScalars`, `WrittenValues`, `BrokenValues`, `KeyOrder`, `GuardedTexts`, `ClosedNotes`, `FlowRoots`, `GuardedWrites`, `EditExamples`, `SetExamples` |
| the standing chain | `Standing` |
| conformance keys and ratchet | `FindingKeys`, `Ratchet` |
| the server's write kernel, the id mint | `FsWriteKernel`, `Uuidv7`, `MintedIds` |
| strings | `JsString`, `Splitting` |

What the source updates in place is a class here (`IndexState`, `RelayState`, `BridgeRelay`, `FlowCursor`, `BlockReader`,
`IdempotencyStore`, `MutationKernel`, `VaultWatcher`, `ConnTransport`, `Connection`, `StandingRef`, `FsWriteQueue`); each
method is proved equal to a function of the old state, and the theorems are about those functions and about runs of
them. Code that awaits is cut at every await into steps, and a run is any interleaving of the steps.

A `char` is one UTF-16 code unit. `lower`, `norm`, `localeBefore`, `jdOf`, `parse` and `parsePreamble` stand for
`toLowerCase`, `trim` and fold, `localeCompare`, the id derived from a path, note parsing and preamble parsing: every
result holds for any such function.

## What the code does not do

The following were found while proving, each with a lemma that gives the exact condition or a run that shows it.

- Unlinking the note that holds a duplicated jd-id deletes the id although another indexed note still carries it
  (index-store.ts:358): `UnlinkKeepsJdIffNoRunnerUp`, `UnlinkCanLoseAJdId`.
- A wikilink target that itself begins with `[[` (from `[[[[x]]`) is stripped of the brackets by the outlink resolver and
  not by the backlink resolver (index-store.ts:571, index-store.ts:314-331), so the two read it differently:
  `ResolversAgreeIff`.
- The watcher filters file names that begin with a dot and the vault walk does not (index-store.ts:106,
  vault-watcher.ts:81-86), so a `.md` file with such a name, `.a.md` for one, is indexed by a rebuild and never updated
  after it: `PathFollowsDiskIff`, `UnwatchedPathGoesStale`, `DotNoteGoesStale`.
- A field edit is judged on the object read before it with the key set or removed (vault.ts:644-645, 686-691), and the
  lines written are the line editor's. The text written reads as that object exactly under the condition of `CleanIff`,
  which is `DeleteReadsAsJudgedIff` and `SetReadsAsJudgedIff` on the lines. It fails, with the guard's consent, in these
  ways:
  - A text with a line break can write further fields, since double quotes are escaped and line breaks and backslashes
    are not (vault.ts:59-67): one call that sets `k` on an empty note introduces an accepted status
    (`SetCanIntroduceAcceptance`). Where nothing is left of the old field, a text with a line break is never read back:
    `SetValueReadsAsJudgedIff`.
  - A text with a line break before `---` ends the frontmatter there. The guard then reads the fields above alone, so
    that a declared property below is gone for it (`ClosedReads`, `ClosedKeepsKeysIff`, `SetCanDropAProperty`); in a
    block read line by line that is never what was judged (`ClosedNeverReads`).
  - Where a value goes on over lines the editor does not see, these stay, and the field above can take them up: two
    writes take a note from no frontmatter to an accepted status (`DeleteCanIntroduceAcceptance`). What is left can also
    become the whole block, if it is a flow collection (`DeleteCanLeaveARoot`), and under a field that is set it becomes
    part of the new value (`SetCanKeepATail`).
  - Where the frontmatter is one flow collection, a key set for the first time goes behind its closing bracket, and the
    guard can no longer read the note: `NewKeyIsRefused`.

  What the guard is for therefore holds over runs of whole-text writes and of field edits that meet the condition:
  `GuardedWrites.AcceptanceNeverIntroduced`, `GuardedWrites.ProtectedNeverMoves`.
- Not every value of one line is read back by the guard as itself either. `C:\notes` loses its backslash, the text `true`
  comes back as a boolean, and a number that shows as `1e+21` comes back as a text: `ReadsBackIff`,
  `SomeScalarsDoNotComeBack`.
- Writing a frontmatter key that begins with `---` below another line, or a key or value that holds a line break before
  `---`, makes an earlier closing fence and moves the rest of the block into the body: `SetKeepsBodyIff`. The tools take
  no such key (`PROP_RE`, packages/core/src/tool-registry.ts:59, 296), but any value.
- Deleting a frontmatter key can hand lines below it to the key above, and setting one can take them up into what it
  wrote, so that the editor then finds other lines: `DeleteLeavesOtherFieldsIff`, `DeleteCanHandOverAnItem`,
  `SetReadsBackIff`, `SetCanTakeUpAnItem`. The guard has read the block before, so such lines are comments, or ones it
  takes for part of the field's value: further text of a scalar, among it an item indented by white space other than
  spaces, further lines of an item, and items at column 0 under a key with no value. A scalar that holds a line
  terminator is not found again either.
- A claim id that is not hex digits and dashes does not read back from its commit: nothing does, or, where a line feed
  ends its leading hex digits and dashes, those alone (`ReadBackIs`). Where nothing does, an advance that expects no
  standing claim succeeds over the commit: `ClaimsChain`, `ExpectingNothingWinsTwiceIff`. The ids minted here are
  well-formed (`MintedIdComesBack`), and the claims admitted carry minted ids
  (packages/plugin/src/kernel/governance/admission/settlement.ts:88), so it takes an id from elsewhere.
- Requests in flight on a live connection when a replayed `initialize` is rejected or the client has ended, and an
  unanswered `initialize`, get no response when the relay ends: `UnansweredAtExit`.
- Flow text after a dash (`- [a]`, `- {}`) is never read as the collection it writes (`NeverTheCollection`), although
  nested flow collections are announced as parsed (accept-guard.ts:595-607): it is text, or a mapping of one key cut at a
  colon that a blank or the end follows (`FlowItemReads`, `DashedFlowReads`). The verdict on a status can therefore differ
  from the one on the same list written on the key's line: `SameItemTwoVerdicts`, `AcceptedItemIsText`.
- A baseline key that begins with three backticks and is not the first cuts its block short at the next rebaseline:
  `LaterWriteIff`.
- A minted UUIDv7 tells its time only for clocks below 2^48: `TimeComesBackIff`.

## Model

| member | source | states |
|---|---|---|
| IndexStore.IndexState.AddToForwardMaps | packages/core/src/fs-backend/index-store.ts:379-432 | adding a note makes all six forward structures hold exactly the old notes and it |
| IndexStore.IndexState.RemoveFromForwardMaps | packages/core/src/fs-backend/index-store.ts:335-377 | removing a note leaves all six forward structures holding exactly the other notes, with no empty basename or alias bucket |
| IndexStore.IndexState.RecomputeAllBacklinks | packages/core/src/fs-backend/index-store.ts:434-455 | backlinks afterwards are exactly the links the maps resolve, each source once |
| IndexStore.IndexState.ApplyAddOrChange | packages/core/src/fs-backend/index-store.ts:804-819 | the index holds exactly the notes with this one put in, and every id stays what a rebuild gives; an unreadable file or an index not ready changes nothing |
| IndexStore.IndexState.ApplyUnlink | packages/core/src/fs-backend/index-store.ts:821-831 | the index holds exactly the other notes; an id stays what a rebuild gives if and only if no runner-up was left |
| IndexStore.IndexState.BuildIndex | packages/core/src/fs-backend/index-store.ts:467-567 | a rebuild holds exactly the notes of the walk with every id canonical, or nothing when it fails |
| IndexStore.IndexState.Run | packages/core/src/fs-backend/index-store.ts:735-831 | any sequence of operations leaves the note set that folding them gives, with the invariant intact |
| IndexBuckets.UnlinkKeepsJdIffNoRunnerUp | packages/core/src/fs-backend/index-store.ts:358-360 | unlinking keeps an id entry what a rebuild gives if and only if no other note carries the id its holder had |
| IndexBuckets.UnlinkCanLoseAJdId | packages/core/src/fs-backend/index-store.ts:358-360 | two notes with one id: unlinking the holder loses the id a rebuild would keep |
| IndexBuckets.AddKeepsJd | packages/core/src/fs-backend/index-store.ts:393-409 | adding a note keeps every id what a rebuild gives |
| IndexBuckets.ChangeKeepsJd | packages/core/src/fs-backend/index-store.ts:810-813 | changing a note keeps every id what a rebuild gives, because its id depends on its path only |
| IndexLookups.IncrementalAgreesWithRebuild | packages/core/src/fs-backend/index-store.ts:778-794 | path, basename, alias, search, id, resolve and backlink answers of any index of the same notes equal a rebuild's, bucket order aside; ids, and answers through them, where the id entry is canonical |
| IndexRuns.RunThenRebuild | packages/core/src/fs-backend/index-store.ts:735-831 | after a build and any operations, every lookup answers as a fresh rebuild of the notes then in the vault; ids, and answers through them, where no unlink since the last rebuild left a runner-up |
| IndexRuns.UniqueIdsAreSettled | packages/core/src/fs-backend/index-store.ts:355-360 | while no two indexed notes share an id, no id is lost, so the agreement covers all ids |
| IndexLookups.BacklinksAreOutlinksReversed | packages/core/src/fs-backend/index-store.ts:314-331 | `p` lists `q` as a backlink if and only if an outlink of `q` resolves to `p`, or its basename is ambiguous while exactly one alias matches `p`; a bracketed target counts by its text as it stands |
| IndexLookups.ResolversAgreeIff | packages/core/src/fs-backend/index-store.ts:569-577 | outlinks and backlinks agree on a target in every index of notes named by their files, an alias behind an ambiguity aside, if and only if it does not begin with `[[` |
| IndexLookups.OutlinkEntriesReachBacklinks | packages/core/src/fs-backend/index-store.ts:621-636 | every outlink entry that resolves to a path, bracketed ones aside, has its note among that path's backlinks |
| WatcherModel.VaultWatcher.OnEvent | packages/core/src/fs-backend/vault-watcher.ts:122-126 | an event of a path the watcher lets through replaces what is to be applied to it; any other, or any after a stop, changes nothing |
| WatcherModel.VaultWatcher.TimerFired | packages/core/src/fs-backend/vault-watcher.ts:110-120 | the timer of a path does what the timer step of every run does: its latest event, and only that, goes to the queue |
| WatcherModel.VaultWatcher.StopWatching | packages/core/src/fs-backend/vault-watcher.ts:155-163 | the first stop does what the stop step of every run does, and a second changes nothing |
| WatcherRuns.WatchedIffWalkedAndNotDotted | packages/core/src/fs-backend/vault-watcher.ts:81-86 | the watcher lets through exactly the files a rebuild walks whose own name does not begin with a dot |
| WatcherRuns.QuietIndexMatchesDisk | packages/core/src/fs-backend/vault-watcher.ts:88-126 | with nothing undelivered, pending, queued or running and the index ready, the indexed note set is the parse of the disk, nothing missing and nothing over, rebuilds interleaved freely, in every run that puts no dot-named `.md` file on disk |
| WatcherRuns.QuietPathIsRight | packages/core/src/fs-backend/vault-watcher.ts:88-126 | in every run, dot-named files or not, each path that is not walked, or is walked and watched, is then indexed exactly as the disk reads |
| WatcherRuns.PathFollowsDiskIff | packages/core/src/fs-backend/index-store.ts:94-113 | a path is right in every quiet state of every run if and only if it is not one the walk picks up and the watcher filters |
| WatcherRuns.UnwatchedPathGoesStale | packages/core/src/fs-backend/index-store.ts:94-113 | a run in which a file that is walked and filtered is on disk and missing from a quiet, ready index |
| WatcherRuns.DotNoteGoesStale | packages/core/src/fs-backend/index-store.ts:94-113 | `.a.md` is such a file |
| WatcherRuns.IndexIsItsOperations | packages/core/src/fs-backend/index-store.ts:80-90 | the index reached is the one its queue of operations gives, in queue order |
| RelayLemmas.BatchSplits | packages/plugin/bridge/bridge.ts:422-452 | failing a batch puts every message of it in exactly one of errors and remainder |
| RelayLemmas.FailRequestIds | packages/plugin/bridge/bridge.ts:422-452 | failing a line answers exactly its tracked requests, an unanswered initialize aside, and keeps the others |
| Bridge.RelayState.OnClientMessage | packages/plugin/bridge/bridge.ts:338-365 | the handshake is captured and every request of the line is outstanding |
| Bridge.RelayState.OnServerMessage | packages/plugin/bridge/bridge.ts:367-398 | answered requests leave the outstanding map; a replayed handshake's answer is withheld, or told to be an error |
| Bridge.BridgeRelay.OnClientLine | packages/plugin/bridge/bridge.ts:589-617 | a client line is sent, queued, or failed with a bounded remainder queued, as the connection and the grace period say |
| Bridge.BridgeRelay.OnReconnected | packages/plugin/bridge/bridge.ts:656-741 | preamble, handshake and queue are written in this order, queued copies of the handshake left out |
| Bridge.BridgeRelay.Handle | packages/plugin/bridge/bridge.ts:496-775 | every event takes the relay to the state the step function gives |
| RelayRuns.EachIdAnsweredAtMostOnce | packages/plugin/bridge/bridge.ts:367-452 | in every run the client gets at most one response per request id, real or synthesized, and only for ids it sent |
| RelayRuns.NoRequestIsLost | packages/plugin/bridge/bridge.ts:656-752 | while the relay runs, every request is answered or outstanding, never both, and the outstanding ones are those owed by the connection, those queued, and an unanswered initialize |
| RelayRuns.UnansweredAtExit | packages/plugin/bridge/bridge.ts:656-761 | what stays unanswered when the relay ends, by a shutdown or behind a client that has ended, is exactly what the connection it ended with owed and an unanswered initialize |
| RelayOrder.LinesWrittenOnceInOrder | packages/plugin/bridge/bridge.ts:542-617 | client lines are written in client order, none twice, on connections that only move forward |
| RelayFates.WrittenIsWhatRemains | packages/plugin/bridge/bridge.ts:422-452 | what is written for a client line is the line, or its batch without requests answered with an error |
| RelayFates.NoMessageIsLost | packages/plugin/bridge/bridge.ts:542-741 | while the relay runs, every message but a request answered with an error is written or waits, save for lines replayed as the handshake and remainders that found the queue full |
| RelayFates.FailRequestFate | packages/plugin/bridge/bridge.ts:422-452 | failing what remains of a line keeps what then remains, or nothing when only requests were left |
| Framing.FoldIsOneCall | packages/plugin/src/ndjson.ts:15-27 | folding the splitter over chunks gives the lines and the rest of one call on all of them together |
| Framing.WrittenLinesComeBack | packages/plugin/src/ndjson.ts:15-27 | non-blank lines without line feeds, written one per line, come back unchanged with nothing carried |
| Framing.Connection.OnData | packages/plugin/src/socket-transport.ts:100-126 | after any chunk, options, delivered lines and carried text are those of all bytes so far read at once |
| Framing.ConnTransport.OnChunk | packages/plugin/src/socket-transport.ts:34-44 | a chunk delivers exactly the lines it completes, after those before |
| Framing.ReceiveChunks | packages/plugin/src/socket-transport.ts:100-126 | any way of cutting the bytes selects the preamble's options and delivers exactly the remaining lines, or all lines and the defaults when there is no preamble |
| AcceptGuard.FmEqualReflexive | packages/core/src/accept-guard.ts:205-215 | deep equality is reflexive on trees with distinct keys |
| AcceptGuard.FmEqualSymmetric | packages/core/src/accept-guard.ts:205-215 | deep equality is symmetric on trees with distinct keys |
| AcceptGuard.FmEqualTransitive | packages/core/src/accept-guard.ts:205-215 | deep equality is transitive |
| AcceptGuard.AcceptedValueRespectsEquality | packages/core/src/accept-guard.ts:62-71 | equal values assert acceptance alike |
| AcceptGuard.GreedyIsExact | packages/core/src/accept-guard.ts:523-528 | greedy matching leaves nothing unmatched if and only if both sides hold the same multiset of values |
| AcceptTransition.AcceptTransitionReason | packages/core/src/accept-guard.ts:487-531 | the loops give the verdict of the transition function, the first reason in source order |
| AcceptTransition.CleanExactly | packages/core/src/accept-guard.ts:487-531 | a write passes if and only if every assertion after it was carried by an equal one before and every declared property keeps its multiset of values |
| AcceptTransition.AssertionsCarried | packages/core/src/accept-guard.ts:487-531 | over any number of frontmatters, each let through after the one before, what the last asserts the first asserted with an equal value |
| AcceptTransition.PropertyCarried | packages/core/src/accept-guard.ts:487-531 | over any number of frontmatters, each let through after the one before, a declared property keeps the multiset of values it started with |
| AcceptTransition.ShortcutIsSound | packages/core/src/accept-guard.ts:465-468 | whenever the read of the old frontmatter is skipped, the verdict would have been to pass |
| FlowRoundTrip.EvenTrailingBackslashes | packages/core/src/accept-guard.ts:708-721 | escaped text ends in an even number of backslashes, so its closing quote is never taken for an escaped one |
| FlowRoundTrip.RoundTrip | packages/core/src/accept-guard.ts:741-877 | for every tree of strings, safe integers, booleans, nulls, lists and distinct-key objects, parsing undoes printing |
| FlowReader.FlowCursor.ReadQuoted | packages/core/src/accept-guard.ts:751-775 | the raw token up to its closing quote, or a refusal when it never closes |
| FlowReader.FlowCursor.Value | packages/core/src/accept-guard.ts:777-794 | the cursor reader agrees with the parsing function in value, position and refusal |
| FlowReader.FlowCursor.Sequence | packages/core/src/accept-guard.ts:796-824 | reading a list agrees with the parsing function, a trailing comma included |
| FlowReader.FlowCursor.Mapping | packages/core/src/accept-guard.ts:826-868 | reading an object agrees with the parsing function, a repeated key replaced in place |
| BlockReader.BlockReader.ParseMapping | packages/core/src/accept-guard.ts:931-948 | the lines come back as they were, read or refused; value, position and refusal are the parsing function's; the recursion ends |
| BlockReader.BlockReader.ParseSequence | packages/core/src/accept-guard.ts:950-998 | the same for sequences |
| BlockReader.BlockReader.MappingItem | packages/core/src/accept-guard.ts:977-991 | the line overwritten for a `- key: value` item is restored on return and on refusal alike, and the item reads as the mapping of the overwritten lines |
| BlockReader.BlockReader.ParseValueAfterKey | packages/core/src/accept-guard.ts:1010-1034 | the same for the value of a key |
| BlockReader.ReadFrontmatter | packages/core/src/accept-guard.ts:1101-1140 | the whole reader leaves its lines alone and gives the parsed root or a refusal |
| BlockRoundTrip.BlockRoundTripIff | packages/core/src/accept-guard.ts:911-1140 | for every mapping tree, reading its canonical block lines gives the tree back if and only if no list in it holds an empty collection |
| BlockRoundTrip.PrintedLinesRead | packages/core/src/accept-guard.ts:911-1140 | for every mapping tree, reading its canonical block lines gives the tree with each empty collection that is an item turned into its text |
| BlockRoundTrip.MapItem | packages/core/src/accept-guard.ts:977-991 | with its dash overwritten, an item's lines are exactly the block of its mapping, and reading goes on after them |
| FlowItems.FlowItemReads | packages/core/src/accept-guard.ts:950-998 | an item whose one-line text opens a flow collection is read as that text, unless its first colon is followed by a blank or the end, when it is read as a mapping of one key, or refused with its value |
| FlowItems.NeverTheCollection | packages/core/src/accept-guard.ts:950-998 | whatever such an item is read as, it is not the collection its text writes |
| FlowVerdict.DashedFlowReads | packages/core/src/accept-guard.ts:931-998 | a document of one key over any number of such items reads as the list of what each is read as, or is refused with any of them |
| FlowVerdict.DashedFlowPasses | packages/core/src/accept-guard.ts:595-607 | a status over such items, no colon ending a key in any, is read as texts and passes the guard whatever they say |
| FlowVerdict.SameItemTwoVerdicts | packages/core/src/accept-guard.ts:595-607 | one collection as a dashed item and on the key's line: read as text it passes, read as itself it is refused |
| FlowVerdict.AcceptedItemIsText | packages/core/src/accept-guard.ts:950-998 | `- ["accepted"]` under a status is such an item |
| TopFields.DocumentIsItsFields | packages/core/src/accept-guard.ts:911-1140 | a block read line by line is the fields of its key lines at column 0, each read from its own lines alone, assigned in order, and refused with any of them |
| BlockSound.FrontmatterIsTree | packages/core/src/accept-guard.ts:1101-1140 | whatever block the reader accepts, the object it gives names each key once, and so does every object in it |
| IdempotencyObjects.IdempotencyStore.Claim | packages/plugin/src/kernel/idempotency.ts:266-316 | one claim answers and changes the store as the claim function says |
| IdempotencyObjects.IdempotencyStore.Settle | packages/plugin/src/kernel/idempotency.ts:295-312 | release and store only while still owning the key; the promise keeps its first outcome |
| IdempotencyObjects.IdempotencyStore.Set | packages/plugin/src/kernel/idempotency.ts:319-327 | the eviction loop leaves the newest `max` entries in order of use |
| IdempotencyRuns.OneOwnerAtATime | packages/plugin/src/kernel/idempotency.ts:266-316 | in every interleaving a key has at most one unsettled owner |
| IdempotencyRuns.SharedOutcomeIsOfTheSameRequest | packages/plugin/src/kernel/idempotency.ts:266-291 | a wait names an unsettled owner, and a replay repeats a returned outcome, of exactly the same key, operation, arguments and if_rev |
| IdempotencyRuns.StaleSettleChangesNothing | packages/plugin/src/kernel/idempotency.ts:295-312 | any settlement but an owner's first leaves store, promises and log as they were |
| IdempotencyRuns.FirstSettlementStands | packages/plugin/src/kernel/idempotency.ts:295-312 | once settled, a promise keeps that outcome over every continuation of the run |
| IdempotencyRuns.SecondOwnerFollowsARelease | packages/plugin/src/kernel/idempotency.ts:266-327 | between two owners of one key the first threw, or its entry timed out or was evicted |
| IdempotencyRuns.ReleasesAreDue | packages/plugin/src/kernel/idempotency.ts:244-254 | a throw was the owner's, a timeout came after the full TTL since storing, and an eviction after `max` other keys were stored or hit since the key last was |
| KernelObject.MutationKernel.Start | packages/plugin/src/kernel/index.ts:393-451 | up to its first wait a call is queued, waits, or ends at once with its record, as the step function says |
| KernelObject.MutationKernel.Dequeue | packages/plugin/src/kernel/index.ts:476-538 | the queued closure's checks in source order: failed probe or immutable record, then the revision, then the handler |
| KernelObject.MutationKernel.Finalize | packages/plugin/src/kernel/index.ts:577-627 | one record is appended and then the key is settled, on return and on throw |
| KernelTheorems.OneRecordPerCall | packages/plugin/src/kernel/index.ts:393-628 | in every interleaving each finished call has journaled exactly one record, every other call none |
| KernelTheorems.DedupeNamesAnOwnersRecord | packages/plugin/src/kernel/index.ts:430-448 | a deduplicated record names the `ts` of an earlier record by an owner of the same key and request whose caller got the same reply |
| KernelTheorems.OneWriterPerRevision | packages/plugin/src/kernel/index.ts:520-526 | of all calls presenting one if_rev for one note, at most one ever writes the note |
| KernelTheorems.DedupedCallsNeverWrite | packages/plugin/src/kernel/index.ts:430-448 | a call that adopted another's outcome was never queued and wrote nothing |
| KernelTheorems.BegunInOrder | packages/plugin/src/kernel/index.ts:476-478 | calls begin in the order they were queued, at most one is running, and every queued call is still in the queue |
| KernelTheorems.NobodyIsStranded | packages/plugin/src/kernel/index.ts:430-478 | while any call is unfinished, waiting or not, some call already there can be carried on |
| KernelTheorems.CompletingLowers | packages/plugin/src/kernel/index.ts:393-628 | every step but an arrival or a change of a path brings some call nearer its end and none farther from it |
| KernelTheorems.EveryCallCanFinish | packages/plugin/src/kernel/index.ts:393-628 | from every reachable state all calls can be carried to their ends with no other arriving |
| Fence.LocatedBlockIsClean | packages/core/src/accept-guard.ts:135 | the block the recognizer returns holds no line break followed by dashes |
| Fence.ReassembledBody | packages/core/src/fs-backend/vault.ts:94-119 | rewriting the block leaves the body as read if and only if the new block closes nowhere inside, for byte-order mark, LF, CRLF, lone CR and trailing closers |
| Fence.NewFrontmatterBody | packages/core/src/fs-backend/vault.ts:648-652 | a new block in front of an unfenced note leaves a blank line and the whole text as body if and only if the block closes nowhere |
| FrontmatterEdit.NewFieldBodyIff | packages/core/src/fs-backend/vault.ts:648-652 | setting the first field of an unfenced note keeps its whole text behind a blank line if and only if the serialized field closes nowhere |
| FrontmatterEdit.FindRange | packages/core/src/fs-backend/vault.ts:121-149 | the loops find the first line of the key with its list items, or refuse its shape |
| FrontmatterEdit.SetKeepsBodyIff | packages/core/src/fs-backend/vault.ts:630-668 | setting a field keeps the body as read if and only if the serialized field holds no closer and no key beginning with `---` is put below another line |
| FrontmatterEdit.OneLineFieldKeepsBody | packages/core/src/fs-backend/vault.ts:63-77 | a one-line key not beginning with `---` and a value without line breaks never move the body |
| FrontmatterEdit.DeleteKeepsBody | packages/core/src/fs-backend/vault.ts:670-696 | deleting a field never changes the body as read |
| FrontmatterFields.SetLeavesOtherFields | packages/core/src/fs-backend/vault.ts:654-667 | setting a plain key to a one-line value leaves the lines of every other key exactly as they were |
| FrontmatterReadBack.SetReadsBackIff | packages/core/src/fs-backend/vault.ts:121-149 | after setting any key to any value, the lines found for the key are the lines written if and only if the key is plain, the value keeps one shape, and no stray line below continues it |
| FrontmatterReadBack.OneLineItemsHaveOneShape | packages/core/src/fs-backend/vault.ts:69-72 | a list of one-line items always keeps the shape that reading back asks for |
| FrontmatterFields.DeleteLeavesOtherFieldsIff | packages/core/src/fs-backend/vault.ts:670-696 | deleting a key leaves the lines of another exactly as they were unless that one ends where the deleted one begins and the line below would continue it |
| FrontmatterFields.DeletedFieldIsGoneIff | packages/core/src/fs-backend/vault.ts:670-696 | after a deletion the key is gone if and only if no line below the deleted ones names it again |
| GuardedEdits.DeleteReadsAsJudgedIff | packages/core/src/fs-backend/vault.ts:670-696 | in every frontmatter the guard reads: it reads of the lines left the object it was asked about if and only if no other field names the key, and what is left of the deleted field leaves the one above reading as it did, or is overridden by one below; where what is left begins with a bracket, if and only if it is that object as one flow collection |
| GuardedEdits.SetReadsAsJudgedIff | packages/core/src/fs-backend/vault.ts:630-668 | for every value, of one line or more: the guard reads of the lines written the object it was asked about if and only if these, with what is left below, are fields beginning with the key's, what each of them assigns last is in that object or is assigned again below, and the key, if assigned again below, had the value before; a block that is one flow collection has to parse as that object |
| FieldEdits.QuietReadsAbove | packages/core/src/fs-backend/vault.ts:670-696 | blank lines and comments left behind, the first comment at column 0, never change the field above |
| WrittenValues.ReadsBackIff | packages/core/src/fs-backend/vault.ts:59-77 | what is written for a text, number, boolean or list without line feeds is one field, read back as it if and only if each part is of one line, holds no raw control character and is kept: a quoted text if every backslash stands before a double quote, and in a list no colon two characters behind the first; a bare one if it is not empty, does not begin with `?` and is no null, boolean or number; a number if its shown text is digits, or digits around one point, for it |
| BrokenValues.SetValueReadsAsJudgedIff | packages/core/src/fs-backend/vault.ts:630-668 | where setting leaves nothing of the old field and no line below names the key, the guard reads what it was asked about if and only if the value comes back; one with a line feed in it never does |
| BrokenValues.FieldsAreLegible | packages/core/src/fs-backend/vault.ts:59-77 | of the fields the guard reads of any lines, a text holds no line feed or at least two fewer than there are lines, and the texts of a list hold none |
| KeyOrder.SameVerdict | packages/core/src/fs-backend/vault.ts:421-462 | the verdict on a frontmatter depends on which keys it holds with which values, not on their order |
| ClosedNotes.ClosedReads | packages/core/src/fs-backend/vault.ts:630-668 | after a value that closes the fence the guard reads exactly the lines above the field and those of its text up to the closer |
| ClosedNotes.ClosedNeverReads | packages/core/src/fs-backend/vault.ts:630-668 | of a note without frontmatter, or one read line by line, that is never the object judged, whatever the value |
| ClosedNotes.ClosedKeepsKeysIff | packages/core/src/fs-backend/vault.ts:630-668 | the keys it still sees there are exactly those named above the closer |
| FlowRoots.RootRefusesMore | packages/core/src/fs-backend/vault.ts:630-668 | behind the lines of a frontmatter that is one flow collection, a key line with anything below it is refused |
| FlowRoots.NewKeyIsRefused | packages/core/src/fs-backend/vault.ts:630-668 | setting a key the editor does not find in such a note leaves one the guard cannot read, for every value |
| GuardedWrites.SetFrontmatterField | packages/core/src/fs-backend/vault.ts:630-668 | one set as a whole: refused when the frontmatter cannot be read, the verdict is against it or the editor refuses the shape; else the text written |
| GuardedWrites.DeleteFrontmatterField | packages/core/src/fs-backend/vault.ts:670-696 | one deletion as a whole: nothing without such a field, refused as above, else the text written |
| GuardedWrites.CleanIff | packages/core/src/fs-backend/vault.ts:630-696 | of every text whose frontmatter can be read and every write let through, the text written reads as the object the guard was shown, its keys in any order, if and only if the write is clean: whole texts always, field edits under the conditions on their lines, a value that closes the fence only above a flow collection |
| GuardedWrites.CleanWriteReadsAsJudged | packages/core/src/fs-backend/vault.ts:421-462 | after a clean write the guard reads what it was shown, and the verdict on what it reads is to pass |
| GuardedWrites.CleanKeepsOrder | packages/core/src/fs-backend/vault.ts:630-696 | where one field is written, or the lines left are read line by line, it is that object to the order of its keys |
| GuardedWrites.ValueIsCleanIff | packages/core/src/fs-backend/vault.ts:630-668 | on a note without frontmatter, or where nothing is left behind, setting a value is clean if and only if the value comes back |
| GuardedWrites.WholeFieldDeletedIsClean | packages/core/src/fs-backend/vault.ts:670-696 | deleting the only field of its name is clean when blank lines and comments are all that is left of it |
| GuardedWrites.AcceptanceNeverIntroduced | packages/core/src/fs-backend/vault.ts:421-462 | over any number of clean writes, what the last text on disk asserts the first asserted with an equal value |
| GuardedWrites.ProtectedNeverMoves | packages/core/src/fs-backend/vault.ts:421-462 | over any number of clean writes, a declared property keeps the multiset of values the first text has |
| SetExamples.SetCanIntroduceAcceptance | packages/core/src/fs-backend/vault.ts:630-668 | one set of `k` on an empty note, let through, writes an accepted status beside it |
| SetExamples.SetCanDropAProperty | packages/core/src/fs-backend/vault.ts:630-668 | one set of `k`, let through, leaves the guard a frontmatter without the declared property below it |
| SetExamples.SomeScalarsDoNotComeBack | packages/core/src/fs-backend/vault.ts:59-67 | a path, the text `true`, a number shown with an exponent and, as an item, a text with a quote and a colon behind its backslash are not kept |
| EditExamples.DeleteCanIntroduceAcceptance | packages/core/src/fs-backend/vault.ts:670-696 | from no frontmatter, a whole text and a deletion, both let through, lead to an accepted status |
| EditExamples.DeleteCanLeaveARoot | packages/core/src/fs-backend/vault.ts:670-696 | for every mapping whose printed text ends no key at its first colon: below a deleted field it is read as the whole block |
| EditExamples.SetCanKeepATail | packages/core/src/fs-backend/vault.ts:630-668 | `b` set to `z` over a value of two lines reads as `z` and the second line, though the editor finds `z` |
| EditExamples.DeleteCanHandOverAnItem | packages/core/src/fs-backend/vault.ts:670-696 | in a block the guard reads, a line of the deleted value becomes part of the list above for the editor |
| EditExamples.SetCanTakeUpAnItem | packages/core/src/fs-backend/vault.ts:630-668 | in a block the guard reads, a list written over a value takes its second line up |
| Standing.ClaimIdComesBackIff | packages/plugin/src/governance/admission-wiring.ts:113-159 | the id written into a commit reads back if and only if it is non-empty hex digits and dashes |
| Standing.ReadBackIs | packages/plugin/src/governance/admission-wiring.ts:113-159 | what reads back of any id: its leading hex digits and dashes, if the id or a line feed ends them, and otherwise nothing |
| Standing.StandingIsOneChain | packages/plugin/src/governance/admission-wiring.ts:136-153 | in every interleaving the ref's history is one chain of parents that only grows at its head |
| Standing.HeadsNeverRepeat | packages/plugin/src/governance/admission-wiring.ts:146-152 | no value of the ref ever returns, so a compare-and-set cannot mistake a later value for the one it saw |
| Standing.AdvanceNeedsItsClaim | packages/plugin/src/governance/admission-wiring.ts:136-153 | a step moves the ref only as a success of a call whose expected claim stood at that instant |
| Standing.OneAdvancePerSuccess | packages/plugin/src/governance/admission-wiring.ts:152 | advances of the ref and successful calls correspond one to one |
| Standing.ClaimsChain | packages/plugin/src/governance/admission-wiring.ts:136-159 | each successful call expected what reads back of the claim the one before it admitted, which is that claim if and only if its id was well-formed |
| Standing.ExpectingNothingWinsTwiceIff | packages/plugin/src/governance/admission-wiring.ts:136-159 | of two calls in turn that both expect nothing, the second succeeds if and only if nothing reads back of the first one's id |
| Standing.AloneSucceeds | packages/plugin/src/governance/admission-wiring.ts:136-153 | left alone, a call that expects what stands succeeds |
| Standing.AdvancedRefNamesTheClaimIff | packages/plugin/src/governance/admission-wiring.ts:121-133 | after an advance the current standing is the admitted claim if and only if its id is well-formed |
| MintedIds.FormatIff | packages/plugin/src/kernel/governance/contracts/ids.ts:53-58 | the text of sixteen octets passes the format check if and only if they carry version 7 and the variant |
| MintedIds.MintedIdComesBack | packages/plugin/src/kernel/governance/contracts/ids.ts:48-51 | every minted id passes the format check and reads back from the commit that admits it |
| FindingKeys.SplitEncoded | packages/plugin/src/conformance/finding.ts:78-95 | the loop cuts at unescaped pipes only |
| FindingKeys.KeyRoundTrip | packages/plugin/src/conformance/finding.ts:59-128 | parsing a key gives its finding back, for any four strings |
| FindingKeys.KeysAreDistinct | packages/plugin/src/conformance/finding.ts:103-105 | different findings have different keys |
| Ratchet.ReadBaseline | packages/plugin/src/conformance/ratchet.ts:23-37 | the loop collects the non-blank trimmed lines from the first opening fence to its close |
| Ratchet.RenderIgnoresOrder | packages/plugin/src/conformance/ratchet.ts:39-45 | what is rendered depends on which findings there are, not on order or repetition |
| Ratchet.LaterWriteIff | packages/plugin/src/conformance/cli.ts:641-651 | a rebaseline of a baselined note replaces the block and nothing else if and only if no line of the old block but its first begins with a closing fence |
| Ratchet.ReplaceableIff | packages/plugin/src/conformance/ratchet.ts:39-45 | a run's rendered block is such a block if and only if no key of it but the first in order begins with a closing fence |
| Ratchet.RebaselineReadsLastRun | packages/plugin/src/conformance/cli.ts:641-651 | after any number of rebaselines of a fence-free note, each replaced block replaceable, it reads as exactly the last run's keys |
| Ratchet.Diff | packages/plugin/src/conformance/ratchet.ts:61-75 | new, cleared and carried are the two differences, sorted, and the size of the intersection; the run fails if and only if something is new |
| Ratchet.RebaselinedRunPasses | packages/plugin/src/conformance/ratchet.ts:61-75 | the run just rebaselined to has nothing new, nothing cleared, and passes |
| FsWriteKernel.RunsOneAtATimeInOrder | packages/server/src/fs-write-kernel.ts:198-222 | no operation begins before every one enqueued earlier has drained |
| FsWriteKernel.OneAttemptEachInOrder | packages/server/src/fs-write-kernel.ts:342-384 | each settled operation has exactly one journal attempt, in enqueue order, with the outcome its caller gets |
| FsWriteKernel.FileIsOfAttempts | packages/server/src/fs-write-kernel.ts:266-279 | the journal file is the attempts in their order with only refused writes missing |
| FsWriteKernel.DepthIsWhatIsLeft | packages/server/src/fs-write-kernel.ts:200-205 | depth is the number enqueued minus the number drained |
| FsWriteKernel.SomethingCanMove | packages/server/src/fs-write-kernel.ts:207-221 | however earlier operations ended, the first one not drained can always move |
| FsWriteKernel.FsWriteQueue.Run | packages/server/src/fs-write-kernel.ts:207-221 | an operation is counted, chained on the tail and becomes the tail |
| Uuidv7.LowByteIs | packages/plugin/src/kernel/uuidv7.ts:29-34 | masking the 32-bit truncation of a number of any size gives its remainder by 256 |
| Uuidv7.Fill | packages/plugin/src/kernel/uuidv7.ts:25-37 | the sixteen octets hold the time modulo 2^48, version 7, variant binary 10 and the random bits elsewhere |
| Uuidv7.TimeComesBackIff | packages/plugin/src/kernel/uuidv7.ts:25-40 | the id's text tells the clock it was minted with if and only if the clock is below 2^48 |
| Uuidv7.TextOrderIsTimeOrder | packages/plugin/src/kernel/uuidv7.ts:38-39 | ids of different times sort as text in time order, whatever their random bits |

## Left out

- IndexLookups.IncrementalAgreesWithRebuild: compares buckets as multisets and backlinks as sets, because the two paths order them differently (`abs.sort`, `localeCompare`).
- IndexLookups.BacklinksAreOutlinksReversed: takes targets as `parseOutlinks` gives them, trimmed and without `]`, `|` and `#`.
- WatcherRuns.QuietIndexMatchesDisk: assumes that every change of a path is reported at least once and that the last report says whether the file exists, that a read succeeds exactly when the file exists, and that a walk lists only files it may index, and of those the ones present save for those touched meanwhile.
- RelayRuns.NoRequestIsLost: assumes fresh client ids, `initialized` sent as a notification, and a server that answers on a connection only requests sent on it, each once, and `initialize` outside any batch.
- RelayFates.NoMessageIsLost: is about a running relay; what waits when it ends is dropped, its requests answered first.
- FlowItems.FlowItemReads: is about items no further line continues.
- RelayModel: JSON text is abstract (two lines have equal text when their frames are equal); pausing the source under backpressure, flush timing and the process exit are not modelled, and nothing happens after an exit.
- Framing.ReceiveChunks: takes the bytes peeked past as delivered before any later chunk; the event loop that orders them is not part of the model.
- FlowRoundTrip.RoundTrip: decimals are exact reals, so rounding to a double is not modelled, and the printer writes integers only.
- AcceptGuard.FmEqualReflexive: a value is a tree of strings, numbers, booleans, nulls, lists and objects; NaN, dates, prototypes, `__proto__` keys and the reordering of integer-like keys are not modelled.
- AcceptTransition: the list of declared properties is a parameter; its configuration and normalization are left out.
- IdempotencyRuns: the arguments fingerprint is an opaque string, so hash collisions are outside the model.
- KernelTheorems.OneWriterPerRevision: assumes that every change of a path, by a call or from outside, gives a revision the path never had.
- KernelModel: the write queue is first in, first out, without timeouts or late corrective records; uid, effects, lock notices, digests and durations of a record are left out.
- IndexRuns.RunThenRebuild: the ids it answers for (`Settled`) are enough and not all: one that an unlink has lost can be found again by a later add, and is left out until a rebuild.
- AcceptTransition.AssertionsCarried: is about the frontmatters shown to the guard; what reaches the disk is in `GuardedWrites`.
- GuardedEdits.SetReadsAsJudgedIff: is about plain keys, the only ones the tools take, and about the same keys with the same values in any order; `CleanKeepsOrder` says when the order is the same too. For a block that is one flow collection the condition is the parse itself, save for keys the editor does not find (`NewKeyIsRefused`).
- WrittenValues.ReadsBackIff: the number a text shows is a parameter (`number`), and a shown number is taken to be what `String` gives.
- GuardedWrites.CleanIff: takes keys and numbers as the tools do: plain keys, and numbers as `String` shows them.
- BrokenValues.SetValueReadsAsJudgedIff: with lines of the old field left below, the answer is the condition of `SetReadsAsJudgedIff`.
- GuardedWrites.SetFrontmatterField: the previous value that the tools report is left out, since the editor's reader of values coerces and does not unescape.
- GuardedWrites.AcceptanceNeverIntroduced: starts from a text that can be read, and takes no write of another program in between.
- FrontmatterFields.SetLeavesOtherFields: is about plain keys and one-line values; a value with a line break can write a line that reads as another key, to the guard as well (`SetCanIntroduceAcceptance`).
- FrontmatterReadBack.SetReadsBackIff: is about the lines the editor finds, not about what the guard reads of them; takes the text of a number to be what `String` gives.
- Standing: an object id stands for the commit it names (no hash collisions), and only these calls move the ref.
- Ratchet.RebaselineReadsLastRun: needs findings free of line feeds and outer white space, and of a run that is replaced later no key but the first in order may begin with a closing fence.
- FsWriteKernel.DepthIsWhatIsLeft: an operation still counts between its settlement and the tail after it, one microtask later.
- Uuidv7.Fill: the clock is a real number; NaN and infinities, and the source of randomness, are left out.
- Note parsing (`parseOutlinks`, `parseAllFrontmatter`, `deriveJdIdFromPath`): taken as any function of the text or path.
- HTTP, OAuth, child processes, git storage, locks, cohorts, admission service, code mode, and all of the Obsidian interface: foreign calls or display only.
