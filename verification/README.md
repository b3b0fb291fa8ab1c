# Verified models of the native SDK

Dafny models of the concurrent and the codec parts of a native crash and error reporting
SDK, with proofs of what they promise. `dafny verify dfyconfig.toml` checks everything.

## Components

* **Telemetry batcher** — a lock-free ring of buffers with any number of producers and
  flushers. `BatcherRing` is the transition system: one program counter per thread, one
  atomic operation per step, any number of buffers (two or more) and of slots (one or
  more). The proof gives each buffer an unbounded generation; `BatcherRingInv` and
  `BatcherRingFlush` hold the inductive invariant, `BatcherRingTheorems` what follows for
  callers, `BatcherRingRefusal` when an item is refused, `BatcherRingReach` how far a flush
  gets, and `BatcherRingShort` a run in which it falls short. `BatchTasks` models the worker,
  submitter, crash dump and wait protocol of batches in flight, with its invariant in
  `BatchTasksInv` and where batches go in `BatchTasksEffects`; `BatcherRef` models the
  reference counting and pinning by which a batcher is replaced and freed.
* **JSON** — `JsonString` is the escaper and the in-place unescaper, `JsonWriter` the
  specification of the streaming writer, `JsonNesting` which calls of it are well nested,
  `JsonStream` the writer with its 64-bit comma word. `Jsmn` is the tokenizer, with its two
  passes and its token array; `JsonTokens` the recursive consumer of its tokens, `JsonDoc`
  the texts of RFC 8259 and what they mean, `JsonScan` how the tokenizer goes through them,
  and `JsonText` puts the two directions together. `Decimal` prints and scans integers.
* **Envelopes** — `EnvelopeCodec` prints and parses the newline-framed form, `Envelope` is
  the object that is materialized in place, `EnvelopeDiscard` and `ClientReport` account for
  what is not sent.
* **Retry queue** — `RetryPoll` is the scheduling of the poll task against enqueues,
  shutdown and seal; `RetryPass` one pass over the cache directory; `RetryHistory` all
  attempts over any number of passes; `CacheName` the file names in which the queue keeps
  its state; `CachePrune` the pruning of the directory.
* **Scope observers** — `ScopeObservers` interleaves notifications with whatever their
  callbacks do; `ScopeArray` is the array behind it.
* **ELF notes** — `ElfNotes` scans notes with aligned 64-bit offsets.

`Wrappers` and `Sorting` are shared helpers.

Threads are sequentially consistent, one atomic operation or one critical-section
operation at a time, and memory allocation succeeds. Clocks, the network, files, the rate
limiter and the callbacks are parameters or free choices of the model.

## Where a property needed a condition

* A retry wakeup can be lost, in two ways, both before the session is past its startup.
  An enqueue writes its file and finds a poll scheduled already, and that poll has chosen
  the startup scan, which looks at older files only: `RetryPollInv.LostAtArm` says exactly
  when, and `RetryPollInv.StartupWindowLoses` is such a run. Or a file of an earlier session
  carries a stamp that is not old, because a triggered pass met a network failure and
  restamped it, or the clock was set back: `RetryPollInv.LostAtChoice` says exactly when, and
  `RetryPollInv.RestampLoses` is such a run. `RetryPollInv.LostExactlyWhen` says what becomes
  of either. With enqueues on the worker, as the HTTP transport makes them
  (`src/transports/sentry_http_transport.c:860`), the first way is ruled out, and without
  triggered passes during startup no file is restamped (`RetryPollInv.SerialNeverLoses`).
* A flush that returns true has batched every item accepted before it loaded the active
  buffer, if and only if it did not give up on that buffer's generation
  (`BatcherRingReach.FlushReaches`). It gives up when a call that loaded `active_idx` a lap
  ago is in the next buffer (`BatcherRingReach.RefusedByAStaleCall`), and
  `BatcherRingShort.FlushFallsShort` is a run in which that leaves an accepted item behind,
  although the comment at `src/sentry_batcher.c:567` promises to flush through that buffer.
* A batch whose task the pool refuses is serialized and disposed of exactly once if and
  only if no dump claimed the task while it was linked
  (`BatchTasksInv.RefusedExactlyOnce`); `BatchTasksInv.RefusedTwice` is a run in which one
  did, and the submitter went on with the batch that the dump had written.
* Cache pruning keeps the longest prefix within the limits if and only if its 64-bit
  running size does not wrap around to within the size limit
  (`CachePrune.PruneIsExact`); `CachePrune.SizeCanWrap` is an input where it does.
* An envelope is read back as written if and only if each item carries its exact length,
  or no length and no newline in its payload (`EnvelopeCodec.EnvelopeRoundTrip`). What any
  other integer does is `EnvelopeCodec.LengthDecides`.
* An enqueue is refused only for want of room, and never after its own rotation
  (`BatcherRingRefusal.RefusedForWantOfRoom`).
* The writer prints the 64th nested container as empty, while the parser accepts it with
  its contents; what the writer prints is always read back
  (`JsonText.WrittenIsRead`), and a value survives the writer unchanged if and
  only if no item is enclosed by 64 containers or more (`JsonWriter.PruneDepth`).

## Model

| member | source | states |
|---|---|---|
| `BatcherRingTheorems.RunInv` | src/sentry_batcher.c:545-683 | in every interleaving of any number of producers and flushers, every reachable state satisfies the ring, buffer, call, log and flush invariants |
| `BatcherRingTheorems.ExactlyOnePlace` | src/sentry_batcher.c:545-683 | in every state of every run, an item whose enqueue returned true is in exactly one slot, flusher's hand or batch, a rejected one is nowhere, and the overflow counter equals the number of rejected calls |
| `BatcherRingRefusal.RefusedForWantOfRoom` | src/sentry_batcher.c:623-683 | over every run, a refused call had been, in an earlier state since it came to the buffer, at rotating an active buffer all slots of whose generation were claimed, with the next buffer sealed, filled or entered; it has not rotated since, and the buffer it gave up on is the active one |
| `BatcherRingRefusal.LastSlotRotates` | src/sentry_batcher.c:658-668 | a call that drew the last slot of a buffer or none leaves it with its generation over, or has found no room to rotate to |
| `BatcherRingRefusal.RetriesForRoom` | src/sentry_batcher.c:669-677 | a call that drew no slot tries again only when the generation of its buffer is over |
| `BatcherRingTheorems.RingOrder` | src/sentry_batcher.c:193-215 | D <= A < D+B; generations in [D, A) are sealed, later ones empty and unsealed, and the active one is sealed only while someone is about to move on from it |
| `BatcherRingTheorems.DrainIsQuiet` | src/sentry_batcher.c:587-617 | from the observation adding == 0 until sealed is cleared, no producer is bound to the buffer and every slot below min(index, Q) holds the item that claimed it |
| `BatcherRingTheorems.StaleRotatorsHarmless` | src/sentry_batcher.c:193-215 | the compare-and-swap of a slow rotator can succeed only if its buffer is still the active generation, and its late seal hits a buffer that is active or sealed: no ABA |
| `BatcherRingTheorems.FifoPositions` | src/sentry_batcher.c:623-683 | if one successful enqueue returned before another began, its item precedes in the order of generations and slots |
| `BatcherRingTheorems.Fifo` | src/sentry_batcher.c:545-683 | the same for batches: across rotations, wrap-around and partial flushes, the earlier item is in an earlier batch, or earlier in the same one |
| `BatcherRingReach.FlushReaches` | src/sentry_batcher.c:567-617 | when a flush is about to return true, a call accepted before it loaded the active buffer is in a batch, if and only if it is not one of that buffer's generation on which the flush gave up |
| `BatcherRingReach.FlushDecides` | src/sentry_batcher.c:575-586 | by the number of slots claimed in the oldest generation, a flush takes the buffer that was active when it began unless it is empty, a later one exactly if it is full, and stops otherwise |
| `BatcherRingReach.FlushGivesWay` | src/sentry_batcher.c:545-566 | a flush that returns without draining left the work to another one in progress, and on the crash path ran out of time besides |
| `BatcherRingReach.RefusedByAStaleCall` | src/sentry_batcher.c:193-215 | a flush that rotates the active buffer can be refused by `adding` of the next one only, raised by a call that is not bound to it |
| `BatcherRingShort.FlushFallsShort` | src/sentry_batcher.c:545-683 | a run in which that happens: the flush returns true with an item accepted before it in no batch |
| `BatcherRingFlush.WaitObserves` | src/sentry_batcher.c:575-592 | seeing adding == 0 on the sealed buffer being drained means that it is no longer active and that nobody will write to it |
| `BatcherRingFlush.AllWritten` | src/sentry_batcher.c:592-611 | what the flusher copies out is what was claimed, slot by slot |
| `BatcherRingInv.CallStepInv` | src/sentry_batcher.c:623-683 | every step of an enqueue keeps the invariant |
| `BatcherRingFlush.FlushStepInv` | src/sentry_batcher.c:545-621 | every step of a flush keeps the invariant |
| `BatchTasksInv.EachBatchExactlyOnce` | src/sentry_batcher.c:351-501 | for tasks accepted by the pool or run inline: a batch is serialized at most once and disposed of at most once by worker or dump, and exactly once when its worker is through and no dump owes it anything; items and envelope are there when they are used, and neither is left when the task is released |
| `BatchTasksEffects.DisposedRightly` | src/sentry_batcher.c:322-404 | in every step of every run, what is added to the disposals of a task goes to disk if and only if a dump adds it or the process is crashing, and otherwise to the transport if uploads are allowed and nowhere if not; only the thread of the task or a dump adds one |
| `BatchTasksEffects.CrashStays` | src/sentry_batcher.c:813-813 | once set, the crash flag stays set |
| `BatchTasksEffects.DumpLeavesNothing` | src/sentry_batcher.c:460-501 | a dump whose scan found nothing leaves no task on the list that it could have claimed |
| `BatchTasksEffects.WaitEndsOnEmptyList` | src/sentry_batcher.c:305-319 | a wait that returns has seen the list empty, in a state of the run since it began |
| `BatchTasksInv.RefusedExactlyOnce` | src/sentry_batcher.c:503-543 | for tasks the pool refuses: exactly once if and only if no dump claimed the task, twice otherwise |
| `BatchTasksInv.RefusedTwice` | src/sentry_batcher.c:503-543 | a reachable state in which one batch went to disk by the dump and to the transport by the submitter |
| `BatchTasksInv.OffListIsOutOfReach` | src/sentry_batcher.c:460-501 | a task that is off the list is not claimed by any dump any more |
| `BatchTasksInv.DumpsAreNeverStuck` | src/sentry_batcher.c:460-501 | in every reachable state every dump can take its next step |
| `BatchTasksInv.FreedTasksUnreachable` | src/sentry_batcher.c:269-501 | a task is freed at most once, off the list, and neither worker nor dump can reach it afterwards |
| `BatchTasksInv.NeverSleepsOnEmptyList` | src/sentry_batcher.c:291-319 | a waiter sleeps only while the list has tasks or its wakeup is on the way |
| `BatchTasksInv.RunInv` | src/sentry_batcher.c:259-543 | every interleaving of workers, submitters, dumps and waiters keeps the ownership invariant |
| `BatcherRef.RefcountExact` | src/sentry_batcher.c:57-72 | the reference count is the slot's reference plus those of swappers and acquirers, and the batcher is freed once, when that is zero |
| `BatcherRef.NeverFreedWhileUsed` | src/sentry_batcher.c:122-161 | a pinned batcher, one with a counted reference and one about to be counted are not freed |
| `BatcherRef.FreedForever` | src/sentry_batcher.c:57-72 | a freed batcher stays freed and is never freed again |
| `BatcherRef.ActorsAreNeverStuck` | src/sentry_batcher.c:122-161 | in every reachable state every thread can take its next step: whatever it holds exists |
| `BatcherRef.SlotAnswers` | src/sentry_batcher.c:122-161 | acquire and pin return the batcher in the slot at that moment and nothing exactly if there is none; swap installs the new batcher and hands over the old one once nobody is pinned |
| `Utf8.EncodeDecodes` | src/sentry_string.c:233-261 | the table of section 3 of RFC 3629 is inverted by reading the bit pattern, and no shorter sequence stands for the code point |
| `Utf8.Write` | src/sentry_string.c:233-261 | the shifting loop writes that encoding, back to front and in place, and nothing past the last code point |
| `JsonString.DecodeEscape` | src/sentry_json.c:205-274 | decoding the escape of any byte string gives it back, control bytes and NULs included |
| `JsonString.EscapeIsClean` | src/sentry_json.c:205-274 | an escaped string has no control byte and no quote that is not escaped |
| `JsonString.EscapesWritten` | src/sentry_json.c:205-274 | which escape each byte is written as |
| `JsonString.EscapesDecode` | src/sentry_json.c:474-538 | every code point up to U+10FFFF that is no surrogate is read from its escape of section 7 of RFC 8259, with hex digits of either case and as a surrogate pair above U+FFFF, and the escape is all that is consumed |
| `JsonString.LoneSurrogatesRefused` | src/sentry_json.c:495-525 | the escape of a surrogate that is not part of a pair is refused |
| `JsonString.ShortEscapesDecode` | src/sentry_json.c:474-538 | the eight two-byte escapes stand for their bytes, any byte but the backslash for itself, and no other escape is accepted |
| `JsonString.DecodeUnit` | src/sentry_json.c:474-538 | one turn of the decoder reads one unit, writes what it stands for behind the read cursor and leaves unread text alone |
| `JsonString.DecodeInPlace` | src/sentry_json.c:450-538 | the in-place decoder computes the decoding of the text before the NUL, which the rows above pin for every escape, rejects what that rejects and leaves what follows the NUL alone; all its reads go through `Peek`, whose precondition rules out any position past the terminator |
| `JsonStream.Stream.WriteJsonStr` | src/sentry_json.c:205-274 | copying runs of plain bytes and escaping between them equals the byte-by-byte escape, for C strings and for explicit lengths |
| `JsonStream.WithBitIs` | src/sentry_json.c:137-154 | setting the comma bit of a level changes that bit of the word only |
| `JsonStream.Stream.CanWriteItem` | src/sentry_json.c:276-292 | makes room for one item as the stack of flags does, and refuses from depth 64 on |
| `JsonStream.Stream.Start` | src/sentry_json.c:412-439 | opening a container refines the stack of flags, if and only if the 32-bit depth does not wrap around |
| `JsonStream.Stream.End` | src/sentry_json.c:422-448 | closing a container refines the stack of flags, if and only if one is open |
| `JsonWriter.RunValue` | src/sentry_json.c:276-448 | from any state of the writer, the calls of a value write one item: the print of what is left of it above the depth limit |
| `JsonWriter.WritesPrunedTree` | src/sentry_json.c:276-448 | the calls of any value, of any depth, write exactly the canonical print of the tree without items that 64 or more containers enclose |
| `JsonNesting.WellNestedIffCalls` | src/sentry_json.c:400-448 | calls are well nested, by a stack of open levels, if and only if they are the calls of a value |
| `JsonNesting.WellNestedWritesPrunedTree` | src/sentry_json.c:276-448 | so any well-nested calls from one root write the canonical print of their pruned tree: balanced brackets, exact commas, no dangling key |
| `JsonWriter.PruneDepth` | src/sentry_json.c:276-292 | what is left nests at most 64 deep, and is the value itself if and only if no path is longer |
| `JsonStream.WriteValue` | src/sentry_value.c:1441-1509 | the recursive writer ends at the depth it began, and makes the calls of its value, of any depth below 2^32 |
| `JsonStream.ToJson` | src/sentry_value.c:1511-1524 | the bytes of a value nested less than 2^32 deep are the canonical print of its pruned tree |
| `JsonTokens.ParseTokens` | src/sentry_json.c:598-709 | on the tokens of any value followed by anything, the value is rebuilt from exactly its tokens if it nests within 64 levels, and rejected otherwise |
| `JsonTokens.TokensToValue` | src/sentry_json.c:598-709 | the recursion that advances an offset computes the parse of the tokens from there on |
| `JsonTokens.FromTokensRoundTrip` | src/sentry_json.c:711-747 | a whole token array gives its value back if and only if it nests at most 64 deep |
| `JsonTokens.WriterOutputIsReadable` | src/sentry_json.c:742-742 | of whatever the writer emits of a value, the consumer rebuilds exactly that from its tokens |
| `JsonTokens.ParseInt` | src/sentry_json.c:540-596 | every 64-bit integer, signed or unsigned, is read back from its print |
| `JsonTokens.OthersAreDoubles` | src/sentry_json.c:580-588 | a text with a point or an exponent reads as the double of that text |
| `JsonTokens.BigIntegersAreDoubles` | src/sentry_json.c:556-588 | and so does an integer that fits neither 64-bit range |
| `JsonTokens.SetKeyIs` | src/sentry_json.c:657-680 | a later member of one name replaces the value in place, a new name comes last, and the others stay |
| `Jsmn.FillTokens` | vendor/jsmn.h:268-453 | the second pass fills the array as the recursive scan says, through every error branch |
| `Jsmn.CountTokens` | vendor/jsmn.h:268-453 | the first pass counts the tokens, or fails |
| `Jsmn.ParseString` | vendor/jsmn.h:193-263 | finds the closing quote |
| `Jsmn.ParsePrimitive` | vendor/jsmn.h:135-188 | finds the end of a word |
| `Jsmn.CountIsExact` | vendor/jsmn.h:268-453 | the second pass fills exactly as many tokens as the first one counts |
| `Jsmn.NeverOutOfTokens` | src/sentry_json.c:717-731 | so an array of that size is as good as any larger one |
| `Jsmn.AcceptsExactly` | vendor/jsmn.h:268-453 | a text is accepted if and only if it has a token, its strings and words end, and its brackets match by kind: the backward search for an open token is the top of the stack |
| `JsonDoc.ParseDoc` | src/sentry_json.c:598-709 | the tokens of any well-formed text, followed by anything, give its meaning and are all that is used, if and only if it stays within 64 levels |
| `JsonScan.ScanValue` | vendor/jsmn.h:268-453 | wherever a well-formed text stands, the tokenizer leaves its tokens, all closed, one more child of the current parent, and its position behind the text |
| `JsonText.TokenizeText` | vendor/jsmn.h:268-453 | every text of the grammar, with white space wherever it may stand, is split into its tokens |
| `JsonText.ReadJson` | src/sentry_json.c:711-747 | counting, filling and building computes the reading, with null for every failure |
| `JsonText.ReadsEveryText` | src/sentry_json.c:711-747 | every text of the grammar of RFC 8259 is read as its meaning, if and only if it has at most 64 levels: white space, all escapes, repeated names |
| `JsonText.TextRoundTrip` | src/sentry_json.c:711-747 | the text of any value that nests at most 64 deep is read back as that value |
| `JsonText.WrittenIsRead` | src/sentry_json.c:276-747 | of a value of any depth, what the writer writes is read back as exactly what it kept |
| `EnvelopeCodec.EnvelopeRoundTrip` | src/sentry_envelope.c:1049-1156 | from bytes to bytes, through the tokenizer: deserializing a serialized envelope restores all headers and payloads in order if and only if of every item the first field named `length` is the integer size of its payload, or there is none (or a null) and the payload has no newline, or it is no integer and the payload is empty |
| `EnvelopeCodec.RoundTrip` | src/sentry_envelope.c:1049-1156 | the same for any tokenizer that splits the headers into their tokens |
| `EnvelopeCodec.LengthDecides` | src/sentry_envelope.c:1103-1124 | an integer length cuts off that many bytes, whatever the payload, and rejects the envelope if it is negative, does not fit or exceeds what is left |
| `EnvelopeCodec.FramedMeans` | src/sentry_envelope.c:1103-1124 | what the code asks of the header is that condition on its first field named `length` |
| `EnvelopeCodec.ItemsRoundTrip` | src/sentry_envelope.c:1079-1156 | the same for the items alone |
| `EnvelopeCodec.PrintOneLine` | src/sentry_envelope.c:807-836 | headers print on one line, at any nesting |
| `EnvelopeCodec.PruneNothing` | src/sentry_envelope.c:807-853 | headers within the writer's depth come back unpruned |
| `Envelope.Envelope.DeserializeInto` | src/sentry_envelope.c:1049-1156 | the cursor loop succeeds on exactly what the recursive parse accepts, with its result, through every error branch |
| `Envelope.Envelope.Materialize` | src/sentry_envelope.c:1526-1553 | parses a raw payload in place, or leaves it exactly as it was |
| `Envelope.Envelope.SerializeInto` | src/sentry_envelope.c:835-853 | appends the raw payload, or the print of headers and items |
| `Envelope.Envelope.AddItem` | src/sentry_envelope.c:43-78 | appends an empty item to a structured envelope, and refuses a raw one |
| `EnvelopeDiscard.SerializeRatelimited` | src/sentry_envelope.c:855-899 | serializes exactly the items that pass the limiter and counts the others once as rate limited, by category; nothing is sent if none passes |
| `EnvelopeDiscard.Discard` | src/sentry_envelope.c:1416-1440 | counts each item that is not internal and passed the limiter once, for the given reason |
| `EnvelopeDiscard.SendAndFail` | src/sentry_envelope.c:855-1440 | under a fixed verdict, sending and then failing adds each non-internal item exactly once to the total of its category, and internal items never |
| `EnvelopeDiscard.SharesAddUp` | src/sentry_envelope.c:855-1440 | the limited and the passed items of a category are all its non-internal items |
| `EnvelopeDiscard.CanAddClientReport` | src/sentry_envelope.c:172-191 | true if and only if some item that is not internal would be serialized |
| `EnvelopeDiscard.PassedAreSerialized` | src/sentry_envelope.c:874-890 | an item is serialized if and only if the limiter lets it pass |
| `EnvelopeDiscard.TypeDecides` | src/sentry_envelope.c:131-170 | the data category and the limit of each `type`, by its name |
| `EnvelopeDiscard.InternalPasses` | src/sentry_envelope.c:131-150 | internal items are serialized whatever the limiter says |
| `ClientReport.RunConserves` | src/sentry_client_report.c:9-66 | in any interleaving of discards, saves and restores, counter by counter, what was discarded is what is counted, held by a report or delivered |
| `ClientReport.AllRestored` | src/sentry_client_report.c:51-66 | with no report out, the counters hold everything that was not delivered |
| `ClientReport.Counters.Discard` | src/sentry_client_report.c:9-20 | adds to one counter, and ignores what is out of range or not positive |
| `ClientReport.Counters.Save` | src/sentry_client_report.c:35-49 | moves all counters into the report and tells whether any was positive |
| `ClientReport.Counters.Restore` | src/sentry_client_report.c:51-66 | adds the report back and clears it |
| `RetryPollInv.RunInv` | src/sentry_retry.c:256-367 | every interleaving of enqueues, polls, triggered passes, shutdown and seal keeps the scheduling invariant |
| `RetryPollInv.AtMostOnePoll` | src/sentry_retry.c:256-367 | at most one poll is in existence, none while the flag is idle, and one while it is scheduled |
| `RetryPollInv.NoLostWakeup` | src/sentry_retry.c:256-367 | until shutdown, each retry file has its enqueue in flight, a poll pending, or a running poll that will scan it or re-arm, but for those whose enqueue fell into the startup window and those of earlier sessions that do not carry an old stamp |
| `RetryPollInv.QuietIsArmed` | src/sentry_retry.c:345-367 | with nothing under way, any other file to retry means that a poll is queued |
| `RetryPollInv.SerialNeverLoses` | src/sentry_retry.c:345-367 | with enqueues on the worker none fall into the window, and without triggered passes during startup no file is restamped |
| `RetryPollInv.StartupWindowLoses` | src/sentry_retry.c:256-277 | a concrete run that ends at rest with a retry file and no poll |
| `RetryPollInv.LostAtArm` | src/sentry_retry.c:345-367 | an enqueue that tries to arm a poll leaves its file to nobody if and only if the poll task has chosen the startup scan and not yet reset the flag |
| `RetryPollInv.LostAtChoice` | src/sentry_retry.c:256-262 | a poll leaves a file whose enqueue is over to nobody if and only if it chooses the startup scan and the file is of an earlier session without an old stamp |
| `RetryPollInv.RestampLoses` | src/sentry_retry.c:331-343 | a concrete run without any enqueue: a triggered pass restamps a file before the first poll, and the session comes to rest with the file and no poll |
| `RetryPollInv.LostExactlyWhen` | src/sentry_retry.c:256-277 | what then becomes of it: a scan ends with files and no poll if and only if it kept nothing, nobody armed a poll meanwhile, and a file was left in one of the two ways |
| `RetryPollInv.ShutdownAbsorbs` | src/sentry_retry.c:308-319 | after shutdown the flag stays and no poll is armed again, over any continuation |
| `RetryPollInv.SealAbsorbs` | src/sentry_retry.c:321-329 | after seal the state stays and no enqueue writes a file, over any continuation |
| `RetryPollInv.EnqueueAnswers` | src/sentry_retry.c:345-367 | over every run, an accepted envelope has its file until the worker resolves it, and one is refused only in a sealed session or when its write fails |
| `RetryPass.BackoffDoubles` | src/sentry_retry.c:65-71 | 15 minutes, doubled per attempt, up to 8 hours |
| `RetryPass.Send` | src/sentry_retry.c:154-254 | sends older files first, then those with fewer attempts, then by the first byte in which the uuids differ; sends only files that are due and, with consent, every file that is due unless an older one met a network failure, leaves all others untouched, keeps in the cache what the policy says, and returns how many it considered less those it dealt with; with distinct uuids, that is the number of considered envelopes still in retry form |
| `RetryPass.Collect` | src/sentry_retry.c:176-217 | the directory loop counts the considered and selects the eligible files |
| `RetryPass.SendSorted` | src/sentry_retry.c:222-248 | the sending loop, with the queue, the cache and the count after it |
| `RetryPass.SettleIsQueued` | src/sentry_retry.c:94-120 | a result takes an envelope out of the queue that the names hold, or leaves it there with one more attempt, in each branch |
| `RetryPass.SettleIsCached` | src/sentry_retry.c:122-151 | an envelope that leaves the queue is kept in the cache always, if it could not be sent, or never, as configured |
| `RetryPass.PrecedesOrder` | src/sentry_retry.c:80-92 | the comparator is a total order, and its equals agree in time, count and uuid |
| `RetryPass.PrecedesMeans` | src/sentry_retry.c:80-92 | that order is by time, then by count, then by the first byte in which the uuids differ |
| `RetryPass.EligibleMeans` | src/sentry_retry.c:176-217 | a file is eligible if and only if it has a retry name and is due: before the given time in a startup pass, past its backoff otherwise |
| `RetryHistory.AtMostSixAttempts` | src/sentry_retry.c:94-254 | over any number of passes of any kind, an envelope is attempted at most six times |
| `RetryHistory.AttemptsAreSpaced` | src/sentry_retry.c:65-254 | each attempt counts one more than the previous one, and by backoff comes no sooner than its backoff after it |
| `CacheName.ParseBuild` | src/sentry_database.c:506-565 | for every 64-bit time, every count from -1 to the largest int and every 36-byte uuid, parsing the built name gives the triple back |
| `CacheName.NameFits` | src/sentry_database.c:551-565 | the name fits its buffer untruncated |
| `CacheName.NamesAreUnique` | src/sentry_database.c:551-565 | the two forms never coincide, and equal names mean equal envelopes |
| `CachePrune.Cleanup` | src/sentry_database.c:1081-1127 | of the entries in any order, each is kept or removed; unless the running size wraps around, exactly the longest newest-first prefix within the age, running size and count limits is kept, and the removed entries that are not aged count as overflow |
| `CachePrune.Prune` | src/sentry_database.c:1085-1127 | the loop with its 64-bit running size gives each entry its verdict |
| `CachePrune.PruneIsExact` | src/sentry_database.c:1085-1127 | those verdicts keep exactly that prefix if and only if the running size does not wrap around to within its limit at a young entry |
| `CachePrune.NoWrap` | src/sentry_database.c:1085-1127 | it does not without a size limit, nor when the young entries add up to less than 2^64 bytes |
| `CachePrune.SizeCanWrap` | src/sentry_database.c:1096-1106 | an input for which it does |
| `CachePrune.WithinIsPrefix` | src/sentry_database.c:1089-1118 | once past the limits, always past them |
| `ScopeObservers.NotificationIsExact` | src/sentry_scope.h:202-212 | under any reentrant adding, removing and notifying, a notification calls exactly those registered when it began and not removed before their turn, in order and once |
| `ScopeObservers.NotificationIsInOrder` | src/sentry_scope.h:202-212 | at any time, what it has called is a prefix of that |
| `ScopeObservers.LiveListIsExact` | src/sentry_scope.c:220-307 | the slots hold the registrations minus the removals in order, and nothing else after the outermost end |
| `ScopeObservers.FlushesAreCoalesced` | src/sentry_scope.c:175-200 | flush requests made while notifying lead to one flush at the next unlock outside, exactly if there was one |
| `ScopeArray.Scope.AddObserver` | src/sentry_scope.c:220-245 | appends to a fresh copy of the array, as the step `Add` of the interleavings does for a new observer |
| `ScopeArray.Scope.RemoveObserver` | src/sentry_scope.c:246-275 | tombstones the slot while notifying, closes the gap otherwise, and does nothing for a stranger, which is the step `Drop` |
| `ScopeArray.Scope.BeginNotify` | src/sentry_scope.c:277-282 | fixes the bound of a notification, which is the step `Begin` |
| `ScopeArray.Scope.Visit` | src/sentry_scope.h:202-212 | one turn of the notification loop goes on exactly if the innermost notification does, and calls whom the step `Next` records |
| `ScopeArray.Scope.EndNotify` | src/sentry_scope.c:284-307 | compacts the array in place when the outermost notification ends, which is the step `End` |
| `ScopeArray.Scope.Unlock` | src/sentry_scope.c:175-200 | defers a flush while notifying and consumes a deferred one otherwise, which is the step `Unlock`, and flushes when that counts a flush |
| `ElfNotes.FindNote` | src/sentry_elf.h:145-204 | the scan terminates, stays in bounds and computes the recursive scan, for every buffer up to SIZE_MAX - 7 bytes; alignments below 4 count as 4, others than 4 and 8 find nothing |
| `ElfNotes.FindsFirst` | src/sentry_elf.h:145-204 | on the encoding of any notes it finds the descriptor of the first one with the type and name, or nothing if there is none |
| `ElfNotes.AlignUpIsUp` | src/sentry_elf.h:176-199 | up to SIZE_MAX - 7 the 64-bit rounding does not wrap around and gives the next multiple |

## Left out

- Weak memory, liveness of the spin loops and the timeouts of the crash path: safety is proved, a timeout is a free choice to give up.
- Overflow of the batcher's `long` counters and of the discard counters: they are unbounded.
- Every path on which an allocation fails; and the wait for other tasks before a refused batch is sent, which the model leaves to chance.
- Doubles: a double is known by the text it prints as; `%.16g` is not an exact round trip.
- Jsmn.FillTokens: positions and counts are unbounded, where the tokenizer keeps them in `int`: texts of 2 GiB or more are outside the model. Its error codes are one error here, since the SDK does not tell them apart.
- JsonStream.ToJson: does not say what a value nested 2^32 levels or more prints as, where the writer's depth counter wraps around.
- JsonStream.WriteValue: the same.
- The parsed event that an envelope item caches, and the linked list behind the items, which are a sequence here.
- RetryPass.Send: renaming a file succeeds, and an envelope that is kept is cached under the uuid of its file.
- ScopeArray.Scope.AddObserver: says nothing of the interleavings when an observer is registered that is registered already, since the scope owns it.
- RetryPollInv.NoLostWakeup: retry files that `sentry__submit_envelope` writes without upload consent (`src/sentry_core.c:537`) are not covered; it triggers a pass once consent is given.
- Removal of the sibling files of an envelope (minidumps and attachments) with it.
- Directory iteration, file locks, HTTP transports, rate limit headers, options, value merging of scopes, tracing, stack walking and symbolization.
- ScopeObservers.NotificationIsExact: observers that do not define the callback in question are visited like the others, and their visit does nothing.
- The app-hang latch and monitor.
