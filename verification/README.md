# marc: a verified model of the capture pipeline

marc captures the traffic between a coding agent and its model. A proxy relays
each exchange and appends it to a file, a shipper rotates and uploads that file,
and a server daemon drains the uploads into an event table under a cursor. A
generator turns recent events into questions, and a guard in front of the agent
watches for crash loops. This project models that pipeline in Dafny and proves
what it promises, with the exact exceptions where a promise does not hold.

## What is modelled, and how

Protocols are step systems: a state, the steps any party may take, and theorems
over every run, with a crash or a failure allowed between any two steps.

- `CaptureFile`, `Shipping`: appenders and shipper over inodes with open handles,
  a mutex per process and a flock per file. `Parts` says what a file of whole and
  abandoned lines reads back as, `LossRuns` holds the runs that lose an event, and
  `Host` is the same as imperative code.
- `Ingest`, `IngestSafety`, `Stranding`, `Redelivery`: the daemon against an object
  store and a cursor table. `Daemon` is the imperative code, `Store` the reference
  store, `StoreSteps` ties that store and the cursor table to the daemon's steps,
  `UploadKey` is the key format with a Gregorian calendar.
- `Pipeline`: client and server side by side, from a finished append to its row.
- `EventBuilder`, `Trim`, `Passthrough`: from a captured line to a table row.
  `Verdicts` says what each verdict and each row says of its line, `Extraction` what
  the three extracted outputs are in terms of the event's JSON fields, and
  `EarlyStop` compares the extraction with one that reads every block.
- `SseFraming`, `SseAggregate`, `SseRebuild`: the event stream, its relay and the
  message rebuilt from it. `SsePayloads` says what that message is in terms of the
  JSON payloads, `SseAggregator` is the imperative aggregator.
- `GenerationCursor`, `QuestionQueue`: the generator's cursor and its queue over
  whole runs. `Questions` is the database class, `Generator` one cycle,
  `ModelOutput` the recovery of a JSON array from a reply.
- `Int64`, `Backoff`, `RetryLoop`, `RateGate`: 64-bit arithmetic and timing bounds.
- `Ledger`, `Guard`: the pruned run ledger and the decision taken from it.
- `EventChannel`: the proxy's bounded channel with many senders and one writer.

`Lines`, `LineReader`, `Text`, `Lex`, `Maps` and `Json` hold what several of these share. One
`char` stands for one byte. JSON decoding and encoding, UUID parsing, hashing and
the denoiser are parameters: any functions, with what is assumed of them said in
each theorem. `Host`, `Daemon`, `Generator` and the channel's `Proxy` carry
a ghost history that their `Valid` ties to a legal run of the step system, so each
theorem holds at every point inside them; in the other classes an argument says
which call fails.

`dafny verify dfyconfig.toml` checks everything.

## What the code does that its documentation does not say

- An append can be lost although every request succeeds: its handle was open
  across the rename and it finished after the read (`LossRuns.LateWriteHappens`).
  It can also be lost because `runOnce` renames over a `.shipping` whose upload
  failed (`LossRuns.ClobberHappens`). These are the only
  two ways in which the bytes of a finished append go missing.
- `AppendEvent` says that a partial write is impossible. A failed write or a dying
  process leaves one, and the next line continues it, so that a finished event is
  read as part of another record (`LossRuns.TornLineHappens`). That is exactly when
  an event whose bytes are held cannot be read back (`Shipping.RecoverableExactly`).
- The daemon's cursor is safe when uploads sort above the cursor and above the
  batch in hand; above the cursor alone is not enough (`Stranding.LowUploadCanStrand`).
  Uploads of one second sort by UUID (`UploadKey.SameSecondSortsByUuid`), so a
  recovery and a rotation upload can strand one of the two without any failure
  (`Stranding.OneSecondCanStrand`).
- Event data that begins with a newline loses it in framing
  (`SseFraming.LinesRoundTrip`), and a negative block index panics.
- An earlier message of the wrong type silences the untrimmed event but not the
  trimmed one (`Passthrough.TrimmingKeepsTheExtraction`).
- "Stop growing the buffer" costs more than what is clipped anyway: text is trimmed
  after the stop, so blanks up to the limit hide a tool use or a nested text behind
  them (`EarlyStop.BlanksHideToolUse`, `EarlyStop.BlanksHideNestedText`).
- A ledger write that fails part-way runs into the line of the next run
  (`Ledger.TornWriteSwallowsNext`).
- LIMIT events inside one second hold the generator there for as long as they are
  in the table (`GenerationCursor.StuckForever`), and a tie cut on a whole second
  loses an event (`GenerationCursor.PassedEventsWereQueried`).
- `GetNextReadyQuestion` does not read `actual_option`.
- The backoff of very large bases wraps to less than the cap (`Backoff.LargeBaseFails`),
  and the sum with the jitter wraps to no wait at all when cap * (1 + ratio) is above
  2^63 ns (`Guard.BackoffWaitsExactly`, `Guard.NineBillionSecondsDoNotWait`).
- A cap of n calls per minute admits n + 1 when n does not divide a minute
  (`RateGate.RateCap`).
- A handler that outlives the channel's close panics in `sendEvent`
  (`EventChannel.OutlivedCloseLoses`).

## Model

The last nine rows are small facts.

| member | source | states |
|---|---|---|
| `Lines.ScanUndoesUnlines` | internal/jsonl/iter.go:42-57 | Reading lines undoes writing them, one LF after each, exactly when no line ends in CR; otherwise each line loses one trailing CR |
| `Lines.ScanReadsRemainder` | internal/jsonl/iter.go:42-57 | A non-empty unterminated last line is read as if it were terminated |
| `LineReader.LineReader.Next` | internal/jsonl/iter.go:42-57 | The next line that is not blank, or the end of the file, and what is left after it |
| `LineReader.ReadAll` | internal/jsonl/iter.go:21-57 | Calling Next to the end hands out exactly the records of the file, in order |
| `CaptureFile.StepKeepsInv` | internal/jsonl/append.go:43-79 | Every step of every appender and of the shipper, crashes included, keeps the invariant: who holds which lock, which bytes are whole lines, which inode has which name, what each upload is a snapshot of |
| `CaptureFile.ReachableInv` | internal/ship/ship.go:92-134 | The invariant holds in every state reachable by any interleaving of appends, rotations, uploads, failures and crashes |
| `Shipping.OneWriterPerFile` | internal/jsonl/append.go:57-62 | At most one thread, in any process, is between taking and releasing the flock of one file |
| `Shipping.OneThreadPerProcess` | internal/jsonl/append.go:44-46 | At most one thread of a process is inside AppendEvent |
| `Shipping.LinesStayWhole` | internal/jsonl/append.go:64-76 | Writes in arbitrary chunks: every file is its complete lines and the abandoned pieces in order, plus a prefix of the lock holder's line; it is complete lines alone exactly when no write on it was abandoned part of the way |
| `Shipping.TornExactly` | internal/jsonl/append.go:64-79 | Over every run a file is torn exactly when some step gave up a write on it with part of the line written |
| `Parts.WholeExactly` | internal/jsonl/append.go:64-76 | A file of lines and pieces is exactly its logged lines, and reads back as exactly the logged events, when and only when it is not torn |
| `Parts.ReadsBack` | internal/jsonl/iter.go:42-57 | What any file reads back as, torn or not: each whole line gives one record, which begins with the pieces abandoned right before it, and pieces at the end give one more |
| `Parts.CopyReadsExactly` | internal/jsonl/iter.go:42-57 | In any copy of a file from its start that holds the text of a logged line, that line is read as its own event exactly when it starts a line |
| `Shipping.AppendReadsBackExactly` | internal/jsonl/append.go:43-79 | The same for every reachable file: a finished append reads back as its own event exactly when it did not continue what an abandoned write had left |
| `LossRuns.TornLineHappens` | internal/jsonl/append.go:64-76 | A reachable run in which a write of ax fails after one byte and the finished append of b reads back as ab: its bytes are kept and its event is not recoverable |
| `Shipping.QuietFileReadsBack` | internal/jsonl/iter.go:42-57 | Reading any quiescent file back, torn or not, gives exactly what the reader makes of its parts, and exactly the appended events in order when and only when it is not torn |
| `Shipping.LinesFollowLockOrder` | internal/jsonl/append.go:57-76 | Over every run without write errors the file's lines, with the pending one, are the events in the order their flock calls returned |
| `Shipping.CleanFileReadsBackInLockOrder` | internal/jsonl/append.go:43-79 | From the empty state, the quiescent file read back is the events in lock order, for any number of threads and processes |
| `Shipping.NoLoss` | internal/ship/ship.go:92-134 | Every finished append is in capture.jsonl, in .shipping or in a stored object, except when its file was renamed over before any put of it succeeded, or its handle was open across the rename and its write finished after every read |
| `Shipping.LostExactly` | internal/ship/upload.go:25-71 | A finished append is gone exactly when its file has no name left and every object of that file was read before the append finished |
| `Shipping.LossHappensExactlyAt` | internal/ship/ship.go:116-116 | The single steps that lose a safe append are exactly the rename over .shipping and the removal of it, when no object holds the line |
| `Shipping.NothingLostExactly` | internal/ship/ship.go:92-134 | Over whole runs: no finished append is lost exactly when no rename or removal met a line that no object held and no line was finished on a nameless file |
| `Shipping.FinishingTooLateLoses` | internal/jsonl/append.go:74-76 | Finishing a line loses it at once exactly when its file has lost its name; on any other file it is kept |
| `Shipping.LostForever` | internal/ship/recover.go:19-34 | No later step brings a lost append back |
| `LossRuns.ClobberHappens` | internal/ship/ship.go:93-116 | A reachable run in which a failed recovery is followed by a rename over the waiting file and an event is lost |
| `LossRuns.LateWriteHappens` | internal/jsonl/append.go:49-74 | A reachable run in which every request succeeds and an append opened before the rename is lost |
| `Shipping.GuardedRunLosesNothing` | internal/ship/recover.go:28-33 | From the empty state, if the rename waited for .shipping to be gone and the read for open writers to finish, no finished append would ever be lost |
| `Shipping.ObjectReadsBack` | internal/ship/upload.go:25-63 | The records of any stored object, from a torn file too, are those of the lines finished before the read, one each in order, plus at most one for a piece of the next line |
| `Shipping.RecoverableExactly` | internal/ship/ship.go:92-134 | Some file or object gives a finished append back as its own record exactly when it started a line and its text is still held |
| `Shipping.NoRecordLost` | internal/ship/ship.go:92-134 | Every finished append can be read back somewhere, or its file was renamed over, or it finished after every read, or it continued an abandoned line |
| `Host.Machine.AppendEvent` | internal/jsonl/append.go:43-79 | Mutex, open, flock, chunked write, unlock, with other threads between any two calls: success means the whole line is in the file's history, opened and finished during the call; each failure has its cause, a failed write leaves exactly the bytes written as a piece, and all locks are released |
| `Host.Machine.WriteLine` | internal/jsonl/append.go:64-78 | Unless the write fails the line has landed, in however many chunks; a write that fails leaves exactly the bytes written so far; the locks are released on every path |
| `Host.Machine.UploadAndRemove` | internal/ship/upload.go:25-71 | The exact calls made for every combination of failures; success exactly when the file is there and every call works, and then a new object of exactly that file and no .shipping left |
| `Host.Machine.PutAndRemove` | internal/ship/upload.go:40-70 | The file is removed only after a put that succeeded; an object that arrived stays even when its put reports an error |
| `Host.Machine.RecoverShipping` | internal/ship/recover.go:19-34 | Any stat result but "does not exist" tries the upload; the exact calls and outcome; a failure leaves .shipping where it was |
| `Host.Machine.RunOnce` | internal/ship/ship.go:92-134 | Recovery, then stat, rename and upload, in that order and whether or not recovery worked, with the exact calls for every combination of failures; the rotation happens exactly when the file is large enough at the stat |
| `Host.Machine.Rotate` | internal/ship/ship.go:115-133 | The upload follows only a rename that succeeded, and .shipping is gone exactly when every call worked |
| `UploadKey.KeysSortByTime` | internal/ship/key.go:20-31 | For one machine and years 0 to 9999 a strictly later second gives a greater key, whatever the UUIDs, exactly when the hours differ or the seconds are not before 1970; within one hour the printed seconds must be equally long |
| `UploadKey.KeysSortInPractice` | internal/ship/key.go:20-31 | Between 2001 and 2286 nothing else has to be assumed |
| `UploadKey.RangeInSeconds` | internal/ship/key.go:20-31 | The years 0 to 9999 are exactly the Unix times from -62167219200 up to 253402300800 |
| `UploadKey.HoursSort` | internal/ship/key.go:24-30 | Keys of different hours always sort by time |
| `UploadKey.SameHourCompares` | internal/ship/key.go:24-30 | Within one hour the printed seconds decide, then the UUID, in both directions |
| `UploadKey.SameSecondSortsByUuid` | internal/ship/key.go:21-30 | Two keys of one second sort as their random UUIDs do |
| `UploadKey.DigitChangeReverses` | internal/ship/key.go:24-30 | At 999999999 and the second after, the later key sorts first |
| `UploadKey.EpochIs1970` | internal/ship/key.go:24-30 | The calendar used for the key's date is the Gregorian one: its day count reaches 1 January 1970 where it should |
| `Store.ListingUnique` | internal/minioclient/fake.go:121-137 | What ListObjects returns is determined by prefix, lower bound and order |
| `Store.PrefixMeansMachine` | internal/process/process.go:276-287 | A machine's prefix lists exactly the keys that listMachines attributes to it |
| `Store.ArchiveKeepsApart` | internal/process/process.go:326-331 | Archiving never merges two raw objects and never lands on a raw key |
| `Store.KeySays` | internal/process/process.go:276-331 | An object raw/machine/rest is that machine's and is archived as processed/raw-archive/machine/rest |
| `Store.Fake.PutObject` | internal/minioclient/fake.go:52-76 | A failed or mismatched put stores nothing; otherwise exactly one key changes |
| `Store.Fake.MoveObject` | internal/minioclient/fake.go:98-119 | The destination gets the source's bytes and the source is gone, or nothing changes |
| `Store.Fake.ListObjects` | internal/minioclient/fake.go:121-137 | Exactly the keys with the prefix that sort after the bound, ascending |
| `StoreSteps.Backend.Put` | internal/minioclient/fake.go:52-76 | On the in-memory store a put is the daemon model's upload step, or nothing |
| `StoreSteps.Backend.List` | internal/process/process.go:334-366 | The cursor read from the table and the listing after it are a listing step of the daemon model |
| `StoreSteps.Backend.Get` | internal/minioclient/fake.go:78-96 | A raw object that is still stored comes back with the bytes that were uploaded |
| `StoreSteps.Backend.Move` | internal/minioclient/fake.go:98-119 | The in-memory move is the copy step followed by the removal step; a failed one is a copy step that did nothing |
| `StoreSteps.Backend.Advance` | internal/sqlitedb/db.go:208-218 | The upsert of the cursor row is the step that advances the cursor, done or not |
| `IngestSafety.StepKeepsInv` | internal/process/process.go:404-451 | Uploads, listings, downloads, verdicts, copies, removals, cursor moves, failures after taking effect and crashes all keep the daemon's invariant |
| `IngestSafety.ArchivedMeansAccounted` | internal/process/process.go:486-624 | In every reachable state each non-blank line of every archived object has one recorded verdict that fits it, and an inserted one's row is in the table; what a verdict says is Verdicts.ArchivedVerdictsSay |
| `Verdicts.ArchivedVerdictsSay` | internal/process/process.go:498-624 | In every reachable state the verdict says what the line is: malformed, internal, oversized exactly when the trimmed text of an event with two or more messages, or else the line, is over the limit (81920 bytes unless a positive one is set), and in every other case handed to the denoiser; the row of an inserted one is in the table and holds its event, column by column |
| `Verdicts.EveryRowSays` | internal/process/event_builder.go:74-185 | Conversely every row in the table holds, column by column, the event of some uploaded line that was handed on |
| `Verdicts.JudgingSays` | internal/process/process.go:498-621 | For each answer of the denoiser and each insert, stored or not, acknowledged or not: which verdict a line gets, whether a row is added and which, and when the batch ends |
| `IngestSafety.NothingVanishes` | internal/process/process.go:434-438 | Every uploaded object is raw or archived, unchanged, in every reachable state |
| `IngestSafety.CursorSafety` | internal/process/process.go:334-400 | Over every run whose uploads sort above the cursor and the batch in hand: a raw key at or below the cursor was reported corrupt, and every other one is in the next listing |
| `Stranding.LowUploadCanStrand` | internal/process/process.go:345-366 | From every state, wherever the daemon is, an upload that is not above both the cursor and the batch in hand can be passed over for good by steps that all succeed; sorting above the cursor alone is not enough |
| `Stranding.OneSecondCanStrand` | internal/ship/ship.go:92-134 | It happens from the empty state: a machine's recovery and rotation upload fall into one second, the daemon lists between them, and the second, above the cursor but below the batch by its UUID, is never listed |
| `Stranding.StrandedForever` | internal/minioclient/fake.go:121-137 | A passed-over object is never listed again |
| `Stranding.BatchPasses` | internal/process/process.go:366-399 | Fetching, judging, copying, removing and advancing, all successful, carry the cursor past a key that slipped in below the batch's last key |
| `Stranding.LaterSecondsAreAboveAll` | internal/ship/key.go:20-31 | Uploads keyed in strictly later seconds keep the order that cursor safety asks for |
| `Stranding.TimedUploadsAreSafe` | internal/process/process.go:334-400 | Key format and cursor together: when no machine uploads twice in one second, every raw object not reported corrupt is in its machine's next listing, over every run |
| `Pipeline.AppendReachesTheTable` | internal/ship/ship.go:92-134 | Client and server together, over every run: a finished append that began a line is in a file not yet shipped, in an object still raw, or judged, with its own event as a record of an archived object and its row or one of the five reasons to skip it; or it was clobbered or finished too late |
| `Pipeline.DrainedPipelineAccountsForAll` | internal/process/process.go:486-624 | Once every file is shipped and every object archived, each finished append that began a line was judged, apart from the two ways of losing it |
| `Pipeline.EitherSideMoves` | internal/ship/upload.go:40-63 | Neither side is held back by the other: every client step, every put that arrives, acknowledged or not, and every server step is a step of the two together |
| `Pipeline.StepKeepsSound` | internal/ship/upload.go:40-63 | Every step of either side keeps both on legal runs, and each stored object an upload with the same bytes |
| `Redelivery.RedeliveryIsIdempotent` | internal/process/process.go:603-621 | After any crashes, halts, retries and duplicate uploads, once every object is archived, the merged table's keys are those of one crash-free pass |
| `Redelivery.OnePassKeys` | internal/process/process.go:603-621 | The reference pass keeps exactly the keys of the lines that pass the filters and the denoiser, in any order and however often they occur |
| `Daemon.Processor.ListMachines` | internal/process/process.go:269-292 | The machines that have an object under raw/, ascending, each once |
| `Daemon.Processor.ProcessJsonl` | internal/process/process.go:486-624 | One verdict per line in order, or the batch is given up, which needs a failure |
| `Daemon.Processor.JudgeNext` | internal/process/process.go:498-620 | One line more has a verdict, or the daemon is idle after a failure |
| `Daemon.Processor.Download` | internal/process/process.go:455-482 | A short body is reported corrupt; any other failure halts |
| `Daemon.Processor.MoveToArchive` | internal/minioclient/client.go:103-117 | Copy, then remove; success means archived and no longer raw |
| `Daemon.Processor.ProcessObject` | internal/process/process.go:404-451 | Done means that the object is archived with a fitting verdict for every line and the row of each inserted one, and the cursor is on its key; corrupt means reported and nothing else changed; any other failure ends the batch |
| `Daemon.Processor.ProcessMachine` | internal/process/process.go:334-400 | When it finishes, every object that was waiting above the cursor is archived or reported corrupt; any other failure leaves the rest for the next tick |
| `Daemon.Processor.DrainBatch` | internal/process/process.go:366-399 | The loop over the listed keys: when it finishes every one is archived or reported, and no other machine's cursor has moved |
| `Daemon.Processor.Tick` | internal/process/process.go:247-265 | A tick without failures drains: every object waiting above its machine's cursor is archived or reported corrupt; any tick ends idle on a legal run, and does nothing when the listing fails |
| `Trim.TrimToLastMessage` | internal/process/process.go:630-671 | The text, count and error flag of TrimText, whose meaning the two lemmas below state |
| `Trim.OnlyMessagesChange` | internal/process/process.go:656-670 | Trimming keeps exactly the last message and changes no other field of the event or the request, for any codec that reads the rewritten tree back |
| `Trim.EveryEventCanBeTrimmed` | internal/process/process.go:656-670 | For every event with two or more messages there are a text and a codec that meet that condition |
| `Trim.TrimIdempotent` | internal/process/process.go:630-671 | Trimming twice is trimming once |
| `Passthrough.Clip` | internal/passthrough/client.go:185-198 | The loop computes Clipped, which cuts no rune |
| `Passthrough.ClippedIsLongestWholePrefix` | internal/passthrough/client.go:185-198 | A clipped text is the longest prefix within the limit that does not cut a rune |
| `Passthrough.BlocksToText` | internal/passthrough/client.go:136-175 | The loop with its early stop computes the block text and whether a tool was used |
| `EarlyStop.StoppingCostsNothingExactly` | internal/passthrough/client.go:136-175 | The three outputs of Denoise are those of the walk that reads every block at every depth exactly when both texts are kept and no decision is lost, both spelled out over the block list |
| `EarlyStop.TextCompleteExactly` | internal/passthrough/client.go:136-175 | The stopped walk gives the whole text, at every nesting depth, exactly when it has as many non-blank bytes as all the blocks together |
| `EarlyStop.OutputKeptExactly` | internal/passthrough/client.go:136-198 | The clipped text is unchanged exactly when the trimmed one still reaches the limit, or nothing but blanks was left out, or the limit falls inside a rune right behind it |
| `EarlyStop.DecisionLostExactly` | internal/passthrough/client.go:107-132 | Stopping never makes a decision; it loses one exactly when there is no tool stop reason, no tool use up to the stop and only short trimmed text, and a later block uses a tool or the whole text is long |
| `EarlyStop.BlanksHideToolUse` | internal/passthrough/client.go:136-175 | A reply of at least 8192 blanks and then a tool use has no decision, though a tool was used |
| `EarlyStop.BlanksHideNestedText` | internal/passthrough/client.go:136-175 | A nested result that opens with that many blanks loses its text, whatever follows |
| `EarlyStop.LossMayShowOrNot` | internal/passthrough/client.go:136-198 | Past the limit such a loss changes the output of one text and not of another, which repeats the lost line |
| `Passthrough.ExtractLastUserText` | internal/passthrough/client.go:79-103 | The text of the last message whose role is user |
| `Passthrough.TrimmingKeepsTheExtraction` | internal/passthrough/client.go:49-69 | When the last message is the user's, trimmed and untrimmed event give the same assistant text and decision, and the same user text exactly when the messages all decode or the last one has no text |
| `Passthrough.IllTypedMessageSilencesUntrimmed` | internal/passthrough/client.go:79-103 | An earlier message of the wrong type empties the untrimmed event's user text only |
| `Extraction.DecisionSays` | internal/passthrough/client.go:49-69 | For any event that is an object there is a decision exactly when the response is well typed and its stop_reason is tool_use, or a tool_use block has less than 8192 bytes of text before it, or the trimmed text has more than 160 bytes |
| `Extraction.ToolReadExactly` | internal/passthrough/client.go:136-175 | A tool use is reported exactly for such a block of a well-typed list |
| `Extraction.RefusedExactly` | internal/passthrough/client.go:49-56 | The output counts as unparseable exactly for an event that is no JSON object |
| `Extraction.UserTextSays` | internal/passthrough/client.go:79-103 | The user text is the longest beginning of at most 8192 bytes, cutting no rune, of the text of the last user message, or of the last message when none is a user's; there is none when a message is ill-typed |
| `Extraction.AssistantTextSays` | internal/passthrough/client.go:107-123 | The assistant text is the same beginning of the text of a well-typed response's content |
| `Extraction.ListSays` | internal/passthrough/client.go:136-175 | The text of a list is that of the blocks read before the stop, trimmed |
| `Extraction.PlainSays` | internal/passthrough/client.go:136-151 | A string content is its own text; what is neither that nor a well-typed list has none |
| `Extraction.NextText` | internal/passthrough/client.go:148-172 | Each block's text is put on a line of its own, and an empty one leaves no line |
| `Extraction.BlockSays` | internal/passthrough/client.go:152-168 | A text block gives its text and a tool_result the text of its content, at any depth; every other block gives none |
| `SseFraming.LinesRoundTrip` | internal/proxy/sse_aggregate.go:44-79 | Printed events scan back to the same events in order, with or without the last blank line, exactly when no data begins with a newline |
| `SseFraming.IgnoredLinesAreIgnored` | internal/proxy/sse_aggregate.go:60-76 | Comment lines anywhere change nothing |
| `SseFraming.LastBlankIsOptional` | internal/proxy/sse_aggregate.go:78-79 | An event left open at the end of input is dispatched as if closed |
| `SseFraming.FramingRoundTrip` | internal/proxy/sse_aggregate.go:31-79 | The same on bytes, comment lines mixed in, when no name or comment holds a newline and no line ends in CR; newlines in the data come through |
| `SseFraming.StreamSse` | internal/proxy/sse.go:60-118 | Every line is accumulated and relayed up to the first write that fails; the client has exactly the bytes written by then, all of the body when none fails; the stop flag is set exactly when a message_stop line was among those written whole |
| `SseFraming.RelayKeepsLines` | internal/proxy/sse.go:60-118 | Rescanning the accumulated body gives the upstream's lines exactly when no stripped line still ends in CR |
| `SseRebuild.RebuildsMessage` | internal/proxy/sse_aggregate.go:26-127 | For every well-formed stream the output holds each block in index order with its start value extended by all its fragments, its last signature, and for a tool call the parse of the joined partials, or the start value if they do not parse |
| `SseRebuild.SplittingAndOrderDoNotMatter` | internal/proxy/sse_aggregate.go:131-214 | Two streams with the same envelope events whose blocks have the same starts and the same joined text give the same message, however split and interleaved |
| `SseRebuild.InterleavingDoesNotMatter` | internal/proxy/sse_aggregate.go:131-214 | In particular any interleaving of the same per-block event sequences |
| `SseRebuild.NoiseIsIgnored` | internal/proxy/sse_aggregate.go:138-147 | Pings, malformed and unknown events change nothing, in any stream |
| `SseRebuild.PanicsOnNegativeIndex` | internal/proxy/sse_aggregate.go:158-176 | The aggregator panics exactly when some block event has a negative index |
| `SseRebuild.StreamToMessage` | internal/proxy/sse_aggregate.go:26-127 | From printed bytes to message: framing and aggregation together |
| `SseRebuild.RelayKeepsMessage` | internal/proxy/sse.go:60-118 | Aggregating the relayed body is aggregating the upstream's |
| `SsePayloads.MessageSays` | internal/proxy/sse_aggregate.go:134-210 | Over every stream that makes no panic, in terms of its JSON payloads: there is a message exactly when one was started, each field is that of the last message_start or, for the two stop fields, of a later message_delta, and each usage figure is the latest one given |
| `SsePayloads.ContentSays` | internal/proxy/sse_aggregate.go:143-188 | Block i of the output, in any stream: since its last start, its text is the start's text followed by the text of every text_delta at i, likewise thinking, the signature is the last one, the input is the parse of the joined partial_json of a tool call if that parses, and every other field is as it started |
| `SsePayloads.ContentHasEveryBlock` | internal/proxy/sse_aggregate.go:102-109 | The content has one element, in index order, for each block whose last start gave an object or that a delta came to since |
| `SsePayloads.PanicSays` | internal/proxy/sse_aggregate.go:143-162 | The aggregator panics exactly when a block event that is read has an index of -1 or below |
| `SsePayloads.WireIsRead` | internal/proxy/sse_aggregate.go:31-79 | Events written as an event line, a data line and a blank line are read as what they are |
| `SseAggregator.AggregateSse` | internal/proxy/sse_aggregate.go:26-127 | The scan loop, flush closure and finishing loops compute Aggregate of the same bytes, panics included |
| `SseAggregator.Aggregator.ProcessEvent` | internal/proxy/sse_aggregate.go:131-214 | One event changes the response, blocks and partials as OnEvent says |
| `SseAggregator.Aggregator.ScanLine` | internal/proxy/sse_aggregate.go:60-76 | One line changes the scan state as OnLine says, and what was dispatched is folded in |
| `SseAggregator.Aggregator.EnsureBlocks` | internal/proxy/sse_aggregate.go:216-220 | The slice is padded with empty slots to the length asked for and never shortened |
| `SseAggregator.Aggregator.FinishTools` | internal/proxy/sse_aggregate.go:85-100 | Whatever order the map is visited in, each tool call's input is replaced by its parsed partials |
| `GenerationCursor.CursorNeverDecreases` | internal/generate/generate.go:147-181 | The stored whole-second cursor never decreases over any run |
| `GenerationCursor.PassedEventsWereQueried` | internal/generate/generate.go:149-159 | An event the cursor has passed was never queried exactly when LIMIT cut it off a tie on the whole second a cycle stored, and no earlier cycle had it |
| `GenerationCursor.NoTiesNoneMissed` | internal/generate/generate.go:149-159 | An event that shares its timestamp with no other, or is not on a whole second, is never missed |
| `GenerationCursor.CutTieMisses` | internal/sqlitedb/db.go:445-461 | Two events on one whole second and a LIMIT of one: the second is missed for good |
| `GenerationCursor.RequeriedOnlyInLastSecond` | internal/generate/generate.go:437-445 | An event queried again after an update lies strictly inside the last second reached |
| `GenerationCursor.StandsStillExactly` | internal/sqlitedb/db.go:445-461 | A successful update leaves the cursor in place exactly when its second holds at least LIMIT events or nothing lies beyond it |
| `GenerationCursor.StuckForever` | internal/generate/generate.go:147-159 | With LIMIT events inside one second the generator never gets past it |
| `GenerationCursor.MovesOn` | internal/generate/generate.go:437-445 | Otherwise every successful update moves on |
| `QuestionQueue.ReadyQueueBound` | internal/generate/generate.go:193-215 | Over any interleaving the ready queue is at most cap - 1 + b, plus b for each cycle whose count failed and one for each update that put a question back to ready, both counted along the run |
| `QuestionQueue.HistoryCounts` | internal/generate/generate.go:193-215 | The history counters are those numbers of the run's own steps |
| `QuestionQueue.BoundIsReached` | internal/generate/generate.go:366-435 | The bound is attained |
| `QuestionQueue.Conservation` | internal/sqlitedb/db.go:237-265 | The five status counts always add up to the number of successful inserts |
| `Questions.DB.InsertQuestion` | internal/sqlitedb/db.go:237-265 | One ready row is added at the end with the next id, or nothing changes |
| `Questions.DB.UpdateQuestionStatus` | internal/sqlitedb/db.go:276-357 | The errors in the order of the code; an accepted update changes one row, its status and the columns named, and no other |
| `Questions.ColumnsSay` | internal/sqlitedb/db.go:281-356 | Each extra writes the column of its name, in the form that column takes, and what is not named stays |
| `Questions.ExtrasSay` | internal/sqlitedb/db.go:281-331 | An update is refused exactly for an extra of another name, or of a type that its column does not take |
| `Questions.DB.SetClause` | internal/sqlitedb/db.go:281-331 | Whatever order the extras are visited in, they are refused exactly when one has an unknown name or type |
| `Questions.DB.GetNextReadyQuestion` | internal/sqlitedb/db.go:361-382 | A question with minimal generated_at among the ready ones, or none when there is none; actual_option is not read |
| `Questions.DB.GetStats` | internal/sqlitedb/db.go:486-498 | The counts of ready and answered questions |
| `Questions.DB.UpsertCursor` | internal/sqlitedb/db.go:208-218 | One machine's cursor changes, or nothing |
| `Questions.DB.UpdateQuestionGenCursor` | internal/sqlitedb/db.go:445-462 | The time truncated to whole seconds, or nothing |
| `Questions.CountsSum` | internal/sqlitedb/schema.go:53-53 | Every question has exactly one of the five statuses |
| `Questions.CountUpdate` | internal/sqlitedb/db.go:333-356 | An update moves one row from one count to another and no more |
| `Generator.Generator.Run` | internal/generate/generate.go:94-451 | One cycle on every path: when it reports an error, when backpressure skips it, and exactly when and to what it moves the cursor; the rows it adds are those of the parsed candidates with durability of at least the minimum and obviousness of at most the maximum whose insert works, one each, in order, column by column; the database stays on a legal run of the cursor and of the queue |
| `Generator.SurvivorsPass` | internal/generate/generate.go:364-373 | The survivors are the candidates that pass both thresholds, in order and with multiplicity |
| `Generator.ReplySays` | internal/generate/generate.go:347-361 | A reply's candidates are those of the text without its fence, and if that does not parse those of what is recovered from it |
| `Generator.CandidatesAreRead` | internal/generate/generate.go:347-361 | Whatever blanks and fence are around them, the candidates a reply spells out are read |
| `Generator.CandidatesAmongProse` | internal/generate/generate.go:347-361 | So are those of an array between sentences |
| `Generator.Generator.Safe` | internal/generate/generate.go:193-215 | At any moment inside a cycle the ready count is within the bound |
| `Generator.Generator.Work` | internal/generate/generate.go:171-445 | The same once the query has returned rows |
| `Generator.Generator.Newest` | internal/generate/generate.go:171-181 | The newest timestamp, and the first row that has it |
| `Generator.Generator.InsertSurvivors` | internal/generate/generate.go:390-435 | Each survivor whose insert succeeds becomes one row, in order; a failed insert skips only itself |
| `Generator.Generator.AdvanceCursor` | internal/generate/generate.go:437-445 | The cursor takes the newest row's whole second, unless the update fails |
| `Generator.Shuffle` | internal/generate/generate.go:403-411 | Whichever way the coin falls, the recorded slot shows the path taken and the other slot the alternative |
| `ModelOutput.FenceRoundTrip` | internal/generate/generate.go:497-507 | A json-fenced reply gives back the text inside, a plainly fenced one exactly when that text does not follow the fence at once with the letters json, and an unfenced one is only trimmed |
| `ModelOutput.OpenFence` | internal/generate/generate.go:497-507 | A text behind a fence that was never closed comes back too, with the same exception |
| `ModelOutput.EmptyFence` | internal/generate/generate.go:497-507 | A fence around nothing, or one alone, leaves nothing |
| `ModelOutput.ExtractJsonArray` | internal/generate/generate.go:514-532 | The search loop computes Recovered |
| `ModelOutput.RecoveredIsFirst` | internal/generate/generate.go:509-532 | A reply that is not valid is cut to the first '[' whose span to the last ']' is valid, and otherwise returned trimmed |
| `ModelOutput.ArrayBetweenProse` | internal/generate/generate.go:509-532 | An array between sentences comes back as it was |
| `ModelOutput.ObjectBetweenProse` | internal/minimax/client.go:230-250 | An object between sentences comes back as it was, whether the reply is bare, fenced or json-fenced, whatever blanks are around |
| `Backoff.DelayInRange` | internal/clauderun/backoff.go:16-42 | For every attempt, base and cap, whatever the product wraps to, the delay before jitter is positive and within the cap |
| `Backoff.JitterExactly` | internal/clauderun/backoff.go:44-48 | The wait lies between the delay and its ratio above it, and stays positive, for every draw exactly when delay * (1 + ratio) is at most 2^63; otherwise some draw makes it negative |
| `Backoff.EveryJitterExactly` | internal/clauderun/backoff.go:16-50 | Over all attempts and draws that holds exactly when cap * (1 + ratio) is at most 2^63, whatever the base |
| `Backoff.LargeCapWraps` | internal/clauderun/backoff.go:44-48 | Base and cap of nine billion seconds, the default ratio and a draw of 0.9: the second attempt's wait is negative |
| `Backoff.EveryAttemptExactly` | internal/clauderun/backoff.go:30-42 | Every attempt's delay is min(base * 2^(attempt-1), cap) exactly when, for each shift that loses bits of base, the bits left over are zero or give at least the cap |
| `Backoff.ScaledExactly` | internal/clauderun/backoff.go:36-41 | The same for one shift |
| `Backoff.WrappedIsLarge` | internal/clauderun/backoff.go:36-37 | What is left of m * 2^p after wrapping is zero or at least 2^(p + e) |
| `Backoff.WholeSecondsAreExact` | internal/clauderun/backoff.go:16-42 | With the 120 s cap every whole-second base from 1 to 137 is exact at every attempt, the default 5 s among them |
| `Backoff.LargeBaseFails` | internal/clauderun/backoff.go:36-41 | A base of 47279 s is not: its 25th delay is 94.489280512 s |
| `Backoff.ExactDelaysGrow` | internal/clauderun/backoff.go:30-42 | Where the delays are exact they never shrink |
| `Int64.ShiftKeepsLowBits` | internal/clauderun/backoff.go:36-36 | A product with 2^e keeps exactly the low 64 - e bits |
| `RetryLoop.Do` | internal/minimax/client.go:120-141 | At most maxAttempts requests; a request follows only on a status of 500, 502, 503, 504 or 529 and an uncancelled wait; a bad status is reported after fewer only if it is none of these, and 200 gives the body; the total wait lies between the halves and the whole of the waits |
| `RetryLoop.BackoffDelay` | internal/minimax/client.go:191-199 | A wait between half of it and the whole |
| `RetryLoop.EveryWaitExactly` | internal/minimax/client.go:193-196 | For any base every wait is min(base * 2^(attempt-1), 16 s) exactly when the low bits of base are safe |
| `RetryLoop.DefaultWaits` | internal/minimax/client.go:111-113 | With the 1 s base that holds for any attempt count |
| `RetryLoop.TotalBounded` | internal/minimax/client.go:191-199 | No total exceeds the cap times the number of waits |
| `RateGate.Gate.ThrottleDenoise` | internal/process/process.go:226-241 | With the gate off, before the first start and once the interval is over a call starts at once; otherwise it starts when the rest of the interval and the timer's lateness are over, unless cancelled, which records nothing |
| `RateGate.RateCap` | internal/process/process.go:166-168 | No minute of any run holds more than n starts exactly when n divides a minute, more than n + 1 exactly when the interval is at least the remainder, which n * n <= 60e9 implies |
| `RateGate.WindowBound` | internal/process/process.go:226-241 | Over every run of calls any half-open minute holds at most a minute over the interval, rounded up, starts |
| `RateGate.WindowBoundIsReached` | internal/process/process.go:226-241 | Calls made back to back reach that number |
| `Ledger.Ledger.AppendRun` | internal/clauderun/ledger.go:39-64 | One line more, then the pruned text; a failed write leaves what it had written of the line, a failed close or prune keeps everything |
| `Ledger.Ledger.PruneLedger` | internal/clauderun/ledger.go:68-89 | Above 1000 lines the file becomes its last 500 lines |
| `Ledger.PrunedSays` | internal/clauderun/ledger.go:66-89 | At most 1000 lines stay as they are; of more, the last 500 stay |
| `Ledger.Ledger.RecentForCwd` | internal/clauderun/ledger.go:109-126 | The directory's records that parse, oldest first |
| `Ledger.Ledger.AbnormalStreak` | internal/clauderun/ledger.go:130-140 | The backward loop computes the streak of the directory's records |
| `Ledger.PruningKeepsTheStreak` | internal/clauderun/ledger.go:66-89 | After pruning a directory's streak is the minimum of what it was and its number of kept records |
| `Ledger.AppendIsRemembered` | internal/clauderun/ledger.go:39-64 | On any ledger, torn or not, one call adds the record of its line, which goes on from what a torn write had left, or the record of what it left itself; only a prune takes any away, from the front, down to at most 1000 lines |
| `Ledger.TornWriteSwallowsNext` | internal/clauderun/ledger.go:51-61 | After a write that failed part-way the next line is read as one with what was left; its run is remembered exactly when the two together parse as its record |
| `Ledger.StreakOverRuns` | internal/clauderun/ledger.go:39-140 | Over any run of appends and prunes, failed and torn writes included, what is read is the end of everything ever written, each line going on from what a torn write left, and the streak is that of all of it cut off at the number of records kept |
| `Ledger.UntornRunsReadBack` | internal/clauderun/ledger.go:39-126 | Where no write was torn, everything ever written reads back as exactly the records the calls were given |
| `Ledger.StreakReaches` | internal/clauderun/ledger.go:128-140 | The streak reaches n exactly when there are n records at the end, all abnormal |
| `Guard.TripsExactly` | internal/clauderun/guard.go:128-135 | The guard trips exactly when enabled and the last threshold kept records exist and are all abnormal |
| `Guard.TripsOverRuns` | internal/clauderun/guard.go:128-135 | Over any run of the ledger, torn writes included, it trips exactly when it would on everything ever written and enough records are kept |
| `Guard.TrippedGuard` | internal/clauderun/guard.go:146-176 | A tripped guard resumes only after a warning, a wait or a typed yes; fresh launches without resume flags; block launches nothing; only backoff sleeps, for a positive time within the jittered cap where delay * (1 + jitter) is at most 2^63 |
| `Guard.BackoffWaitsExactly` | internal/clauderun/guard.go:146-152 | Backoff waits at every streak that trips the guard, whatever is drawn, exactly when cap * (1 + jitter) is at most 2^63 or the jitter is NaN |
| `Guard.NineBillionSecondsDoNotWait` | internal/clauderun/guard.go:27-57 | Accepted settings under which a tripped guard in backoff mode sleeps a negative time, which is no wait |
| `Guard.GuardResume` | internal/clauderun/guard.go:128-177 | The decision for every mode as a function of settings, streak, arguments and terminal |
| `Guard.DecisionSays` | internal/clauderun/guard.go:128-177 | Below the threshold, disabled or in warn mode the launch goes on as asked; prompt asks at a terminal, fresh drops the resume flags, block refuses, backoff waits |
| `Guard.ResolveGuard` | internal/clauderun/guard.go:27-57 | Resolved settings are usable whatever is configured, NaN and infinities included: a threshold of at least one when enabled, a known mode, positive durations that fit an int64, and a jitter that is positive or NaN |
| `Guard.ResolvedSays` | internal/clauderun/guard.go:27-57 | The settings are those configured, with the default for each that is not: threshold 2, mode warn, base 5 s, cap 120 s, jitter 0.5; seconds are cut to whole nanoseconds |
| `Guard.StripResumeFlags` | internal/clauderun/guard.go:73-96 | The loop with its skip flag computes Stripped |
| `Guard.StripKeepsTheRest` | internal/clauderun/guard.go:73-96 | What stays is, in order, what is neither a resume flag nor the session id after one |
| `Guard.StripRemovesResume` | internal/clauderun/guard.go:71-96 | No resume flag is left, arguments without one are unchanged, and stripping is idempotent |
| `Guard.WantsResume` | internal/clauderun/guard.go:61-69 | True exactly when some argument is a resume flag |
| `Guard.ParseForceContinue` | internal/clauderun/guard.go:100-110 | The flag is reported exactly when present and is taken out |
| `EventChannel.Conservation` | internal/proxy/proxy.go:219-232 | At every moment of every interleaving, submitted equals written plus failed plus in hand plus queued plus dropped plus sent on a closed channel |
| `EventChannel.FileOrderIsEnqueueOrder` | internal/proxy/writer.go:26-47 | The writer takes events in the order they entered, so the file is that order without the failed appends |
| `EventChannel.ReturnedMeansDrained` | internal/proxy/writer.go:29-33 | Once the writer has returned nothing is queued or in hand |
| `EventChannel.CleanCloseLosesNothing` | internal/proxy/proxy.go:203-213 | After a close that waited for every handler no send comes |
| `EventChannel.PanicNeedsRunning` | internal/proxy/proxy.go:194-232 | Over every run an event is sent on the closed channel only if it was closed while a handler that had come had neither sent nor left |
| `EventChannel.WaitedForHandlers` | internal/proxy/proxy.go:194-213 | A shutdown that saw every handler out closes no channel under one |
| `EventChannel.OutlivedCloseLoses` | internal/proxy/proxy.go:194-213 | A handler that outlives the close loses its event |
| `EventChannel.DroppedExactly` | internal/proxy/proxy.go:222-232 | An event is dropped exactly when it finds the channel open and full, and enters exactly when it is open and has room |
| `EventChannel.WriterDrains` | internal/proxy/writer.go:26-47 | After the close the writer, left alone, drains and returns |
| `EventChannel.Proxy.SendEvent` | internal/proxy/proxy.go:222-232 | One non-blocking send and its fate |
| `EventChannel.Proxy.RunWriter` | internal/proxy/writer.go:26-47 | Receive and append until closed and empty, whatever the senders do; on return everything that entered was dealt with in order |
| `IngestSafety.ClassesExclude` | internal/process/process.go:506-601 | The classes decided before the denoiser exclude each other and everything after it |
| `IngestSafety.CursorNeverDecreases` | internal/process/process.go:441-443 | No step moves a machine's cursor back |
| `EventBuilder.KeyFixedByEvent` | internal/process/event_builder.go:82-88 | The merge key is the same for every denoiser answer, clock and model exactly when the event id parses or the fallback UUIDs agree |
| `EventBuilder.ProjectUnknownExactly` | internal/process/event_builder.go:33-64 | The project is unknown exactly when the request has no system text |
| `EventBuilder.ProjectReads64Bytes` | internal/process/event_builder.go:66-73 | Only the first 64 bytes of the system text matter |
| `RetryLoop.DefaultTotals` | internal/minimax/client.go:111-113 | Five attempts wait between 7.5 s and 15 s |
| `Text.BlankSays` | internal/generate/generate.go:498-498 | The bytes trimmed as blanks are 9 to 13 and 32 |
| `Guard.LowerSays` | internal/clauderun/guard.go:32-32 | Lower-casing changes exactly the letters A to Z |
| `RateGate.GateOff` | internal/process/process.go:166-168 | The gate is off exactly above 60000000000 calls per minute |

## Left out

- JSON text: decoding and encoding are total functions on a tree; white space, key order, duplicate keys, number precision and case-insensitive struct keys are not modelled, and a raw subtree is a function of its tree.
- Unicode: TrimSpace and lower-casing are modelled on ASCII; invalid UTF-8 is left to the codec functions.
- Host.Machine.AppendEvent: gives up after `patience` turns on the mutex and on the flock, where the source blocks until it has them, because a Dafny method has to end; the contract holds for every patience.
- EarlyStop.OutputKeptExactly: asks that no nested list lost text before a stopped text that reaches the limit; beyond that the output is unchanged exactly when the text repeats what was lost, which no condition on lengths decides (EarlyStop.LossMayShowOrNot).
- Scanner limits: 8 MB and 16 MB lines, and the 1 MB lines of the ledger, past which reading it fails and pruning is skipped.
- Concurrent calls of `appendRun`, which takes no lock: a prune can drop a line appended while it rewrites the file.
- More than one shipper, daemon or generator at a time.
- Object bodies that change under one key, and a put that stores bytes and then reports a checksum mismatch.
- Staging files and their cleanup; `cleanStagingFiles` only removes leftovers.
- The one-month window of the generation query, and events inserted or merged while the generator runs.
- `generated_at` is compared as text in the database and as a number here; the two orders agree for the years 0 to 9999.
- A failed first parse may leave partly decoded candidates in the slice that the second parse fills; the parse is a function here.
- Generation prompts, `GetRecentByStatus`, `truncate`, `eventIDToString` and the backends themselves.
- Block indices too large for an int, and out-of-memory when a slice of that length is made.
- The envelope that `parseDenoise` reads around the object.
- The random draw is a real number in [0, 1), and floats are reals, NaN and the infinities; rounding is not modelled. What the platform makes of a float that no int64 holds is any function; Guard.BackoffWaitsExactly leaves out an infinite jitter, whose wait is that function's.
- The denoise call starts a moment after the time the gate records.
- HTTP, TLS, headers, profiles, logging, health checks, timing diagnostics, the CLI, configuration files, installation, self-test, the Telegram sender and the service templates.
