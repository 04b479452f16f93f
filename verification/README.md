# Verified model of the Go backend's transfer, tagging and concurrency code

This project models the self-contained algorithms and protocols of the Go backend
and proves what they are for. Everything is plain Dafny 4.11; `dafny verify dfyconfig.toml`
checks the whole project.

How the files are laid out:

- **MP4 box surgery** (`go_backend/ac4_config.go`, `go_backend/ac4_metadata.go`).
  `Mp4Boxes` reads boxes and walks their children, `Mp4Edits` says what a reader finds after an
  edit, `Mp4Tables` treats chunk offset tables, `Mp4Splice` and `Mp4Moov` grow-and-splice steps,
  `Mp4Entry`, `Ac4Config`, `Ac4Ensure`, `Ac4Results` the ac-4 sample entry, `Ac4Entries` its bytes, `ItunesUdta` the
  metadata box, `Mp4Pointers` chunk pointers against the whole file, `Mp4Tree` whole trees of boxes. `Ac4Example`
  shows that what the results assume occurs. `Mp4InPlace` holds the code as it
  runs, on byte arrays changed in place, each method proved equal to its function.
- **Resumable downloads.** `Segments` (worker results, in-order assembly, checkpoints, crashes),
  `SegmentFetch` (one segment, the URL fingerprint), `ObjectOrigin` (staged file and origin). The reliable and the
  chunked download are three modules each: `ReliableTransfer` and `ChunkedTransfer` treat answers and runs of them as
  functions, `TransferOutcome` and `ChunkedOutcome` say when a call succeeds, `ReliableDownload` and `ChunkedDownload`
  hold the loops.
- **Budget and VM ownership.** `ResolutionBudget`, `RuntimePool`, and `RuntimeTrace` on what its runs do.
- **Codecs.** `Levenshtein`; `PatternedTransform`, `PatternedBlocks` (the output block by block) and `PatternedFile`
  (the buffered loop); `OggPackets`; `Unsynchronization`, `Id3Frames`, `Id3Print` (frames printed and walked); `ApeTag`.
- **Shared resources.** `DialRace`, `AddressRace`, `CoverCache`.
- `Options` and `Endian` are the shared vocabulary.

Protocols are state machines over all events: a run is any sequence of enabled events, and what a lemma says of a
run it says of every interleaving. The fields the code updates are fields of a class whose
methods are proved equal to the machine's steps. Disk faults, cancellation, clocks and timers are
events or parameters; where success is promised, the faults that would prevent it are named.

## What the proofs found

Where a promise does not hold on all inputs, the code is modelled as it is, a lemma names an input,
and the exact condition is proved.

- A segment whose copy into the staged file stops part-way is copied again behind the stray bytes as soon as a
  late result arrives. Runs in which nothing is copied while stray bytes stand in the file are right
  (`Segments.RunSound`, in terms of events `Segments.WithoutRetryCareful`); for every other length of the failed
  copy there are contents on which the next task publishes a wrong file (`Segments.PartialAppendMixes`). For given
  contents the checkpoint is right exactly when what was written since begins with the segments counted since
  (`Segments.CopiesAligned`; for one failed copy: when these segments, taken together, repeat with the length of the
  stray bytes, `Segments.RetriedCopiesAligned`), and then so is what the next task publishes (`Segments.NextTaskPublishes`).
- An origin may send less of a range than was asked for (section 15.3.7 of RFC 9110). The reliable download takes the end
  of an answer that states no size for the end of the object: a completed file is right exactly when the answer reaches
  it, which it does when it states the size (`ReliableTransfer.CompletedExactly`), and every shorter answer is published
  (`ReliableTransfer.ShortRangeCompletes`). The chunked download does the same with a part shorter than a chunk while the
  size is not known (`ChunkedTransfer.ShortChunkEnds`, `ChunkedTransfer.ShortChunkHonest`). `Download` asks of both
  that such answers end with the object; with a known size nothing is asked. The inferred size also goes into
  checkpoints (`ReliableTransfer.InferredSizeStored`).
- A 2xx answer other than 200 and 206 to a range request is appended whole
  (`ReliableTransfer.RightExactlyForTwoCodes`).
- A full answer that is cut off names its bytes to the next attempt exactly when it carries a validator
  (`ReliableTransfer.NamedExactly`); otherwise the file comes out right exactly when its bytes begin the old version
  (`ReliableTransfer.StaleValidatorCompletes`, `ReliableTransfer.StaleValidatorMixes`). Over
  whole runs with a named and a nameless version at the origin one of the two is published exactly when no beginning of the
  nameless one goes on as the named one into something else (`ReliableTransfer.OnlyWholeExactly`). `Download` asks that no
  answer without a validator follow once one is held; an origin that never sends any is covered.
- The probed version is what comes out of every honest run whose full answers carry a validator exactly when the probe
  had a validator and the size, or the object is one byte (`ChunkedTransfer.OnlyProbedExactly`); a full answer without one
  can always publish another body (`ChunkedTransfer.NamelessRun`); without a validator two versions mix (`ChunkedTransfer.UnnamedVersionsMix`). A full
  answer without a validator is published as it is (`ChunkedTransfer.NamelessAnswerTaken`).
- On its failure path the chunked download stores a checkpoint although the sync failed. Over every run that
  checkpoint is true exactly when the last sync worked, or it was not stored, or the chunk before had been synced
  (`ChunkedTransfer.ExhaustedExactly`); otherwise a crash leaves bytes from which the next call continues wrongly
  (`ChunkedTransfer.UnsyncedCheckpointLies`, with a run in `ChunkedTransfer.UnsyncedRun`).
- The reliable download keeps an old checkpoint when a full answer restarts the file. Over every run of one version the
  checkpoint is true exactly when it was not restarted over, or an attempt since synced enough (`ReliableTransfer.RunExactly`);
  if none did, a crash falsifies it (`ReliableTransfer.RestartLeavesCheckpoint`).
- The restart of a partial that cannot be resumed after an unreachable attempt (lines 432-449 of
  `go_backend/extension_runtime_transfer.go`) never applies: no such partial exists then.
- A dac4 box with size field 0 ("to the end") hides the children behind it; they stay readable exactly when
  the field is not 0 (`Ac4Ensure.ChildrenStayTiled`).
- A new udta box is put at the end of moov, which readers reach exactly when no spare bytes precede it
  (`ItunesUdta.InsertedIffFlush`).
- APE items survive printing and parsing exactly when no key holds a zero byte (`ApeTag.ItemsRoundTrip`), a written
  tag is read back exactly when its version is supported and it has at most 1000 items besides
  (`ApeTag.WriteThenRead`); writing drops the read-only mark.
- `readMP4Box` adds a 64-bit size to a position without a check; it accepts more than the model exactly where the
  sum passes 2^63 (`Mp4Boxes.AcceptedAlike`), which no real file reaches.
- The `bufferSize == 0` fallback of the patterned transform is never needed (`PatternedFile.PickBufferSize`).

## Model

| member | source | states |
|---|---|---|
| Mp4Boxes.FindChildIsFirst | go_backend/ac4_config.go:45-58 | on children lying side by side the search returns the first of the type, and None exactly when there is none |
| Mp4Boxes.AcceptedAlike | go_backend/ac4_config.go:26-42 | the model accepts the same boxes as the 64-bit arithmetic of the source, except where pos + size wraps around |
| Mp4Tables.TrakShifted | go_backend/ac4_config.go:165-209 | after the rewrite a reader of the trak finds every stco and co64 entry at or behind the insertion point moved by delta, the others and the sample entry as they were, at the same places; no byte outside the tables' entries is different |
| Mp4Moov.ChunkOffsetsShifted | go_backend/ac4_config.go:165-209 | the same for all traks: the moov stays well-formed, and only bytes in the entries of chunk tables differ |
| Mp4Splice.GrownAndSpliced | go_backend/ac4_config.go:154-161 | growing every box around a splice makes the result an edit of the innermost box: all sizes right, bytes in front and behind carried |
| Mp4Moov.EntryEditedReads | go_backend/ac4_config.go:260-271 | an edit inside one ac-4 entry leaves every other child and this trak's tables as read before, reaches the entry through the same boxes, grown, and keeps every byte outside the entry and the headers around it, in place or moved |
| Mp4Entry.RewrittenReads | go_backend/ac4_config.go:377-389 | one shift, grow and splice step: well-formed again, all pointers moved, one entry spliced, every byte outside it, the headers around it and the chunk tables kept |
| Mp4Moov.RestTwice | go_backend/ac4_config.go:321-391 | two such steps at one entry keep every other byte together |
| Mp4Tree.TreeKept | go_backend/ac4_config.go:154-161 | any tree of boxes read before is read again: those around the change grown, those behind it moved, the others in place, children nested in them as before |
| Mp4Pointers.FollowingKeepsChunks | go_backend/ac4_config.go:162-164 | a moved pointer finds in the rewritten file every chunk it found before, for media data in front of or behind moov |
| Ac4Config.Located | go_backend/ac4_config.go:119-152 | locateAC4Entry returns the chain of the first trak with an ac-4 entry, and None exactly when no trak has one |
| Ac4Config.ExtensionDropped | go_backend/ac4_config.go:237-271 | dropping the version-1 extension: version 0, sixteen bytes gone from this entry, pointers moved, every other byte of moov kept but for the sizes around the entry |
| Ac4Config.NormalizeBranch | go_backend/ac4_config.go:242-256 | the rewrite happens exactly for a version-1 entry long enough for the extension |
| Ac4Ensure.Dac4Found | go_backend/ac4_config.go:325-327 | the inserted box is found at the old child start |
| Ac4Ensure.ChildrenStayTiled | go_backend/ac4_config.go:373-389 | the entry's children stay side by side exactly when the dac4 box carries its size |
| Ac4Ensure.SourceIsDac4 | go_backend/ac4_config.go:77-89 | the copied signature match is a whole dac4 box, or one that says "to the end" |
| Ac4Ensure.SignatureIsFirst | go_backend/ac4_config.go:77-89 | the signature match is the first position that reads as a box of the type, and there is none exactly when nothing in the range is |
| Ac4Results.EnsureResult | go_backend/ac4_config.go:321-391 | on every well-formed moov: untouched exactly without an ac-4 entry, an error only for a too short entry or a source without dac4, otherwise a moov whose entry is version 0 and holds dac4, with all pointers moved along and every byte outside the entry, the headers around it and the chunk tables kept |
| Ac4Results.EnsureKeepsTree | go_backend/ac4_config.go:321-391 | any tree of boxes read in moov is read in the rewritten one, with children still nested in their parents |
| Ac4Results.EnsureKeepsChunks | go_backend/ac4_config.go:377-391 | every chunk outside moov is reached by its pointer in the rewritten file |
| Ac4Results.EnsureTwice | go_backend/ac4_config.go:321-391 | running the step on its result writes the same bytes, whatever the source offers then |
| Ac4Entries.EnsuredEntry | go_backend/ac4_config.go:321-391 | an entry of a fixed part (28, 44 or 64 bytes for version 0, 1 or 2) and child boxes side by side is never malformed; a dac4 among the children stays the only one, otherwise the source's goes between the fixed part and the children, and the bytes of the entry are exactly these |
| Ac4Entries.EnsuredTiled | go_backend/ac4_config.go:373-389 | the new dac4 stands 28 bytes into the entry (64 in version 2) and the children follow side by side, if it carries its size |
| Ac4Entries.MalformedExactly | go_backend/ac4_config.go:94-112 | the step calls an entry malformed exactly when its fixed part of 28, 44 or 64 bytes is not all there |
| Ac4Example.WellFormedExists | go_backend/ac4_config.go:119-152 | the assumptions are met: for every entry body and every 32-bit chunk pointer there is a well-formed moov whose first trak has that ac-4 entry and that chunk table |
| Ac4Example.TreeApart | go_backend/ac4_config.go:119-152 | in that moov the tree of all boxes, from trak to the entry and the chunk table, is such a tree |
| ItunesUdta.UdtaReplaced | go_backend/ac4_metadata.go:134-143 | the new udta stands in the place of the first old one, all other children as read before with pointers moved, and every byte outside the slot, moov's header and the chunk tables kept |
| ItunesUdta.UdtaInserted | go_backend/ac4_metadata.go:145-154 | without a udta the new one becomes the last child, the rest as above |
| ItunesUdta.ResitedKeepsTree | go_backend/ac4_metadata.go:134-154 | any tree of boxes beside the slot is read again, in place or moved as a whole |
| ItunesUdta.InsertedIffFlush | go_backend/ac4_metadata.go:145-154 | readers reach the inserted box exactly when the children fill moov |
| ItunesUdta.ResitedKeepsChunks | go_backend/ac4_metadata.go:134-154 | every chunk pointer outside moov stays on its bytes |
| ItunesUdta.WriteUdtaTwice | go_backend/ac4_metadata.go:127-154 | writing the same metadata again changes no byte |
| Mp4InPlace.ReadMP4Box | go_backend/ac4_config.go:21-43 | the header read from the array is the box of the buffer |
| Mp4InPlace.FindChildMP4 | go_backend/ac4_config.go:45-58 | the loop is the search function |
| Mp4InPlace.FindBoxBySignature | go_backend/ac4_config.go:77-89 | the scan is the signature function |
| Mp4InPlace.GrowBoxSize | go_backend/ac4_config.go:154-160 | the size is written over in place, no other byte changes |
| Mp4InPlace.ShiftTableInPlace | go_backend/ac4_config.go:182-206 | the loop over one table, count cut off at the end of the box, is the table function |
| Mp4InPlace.ShiftChunkOffsetsInPlace | go_backend/ac4_config.go:165-209 | the loop over the traks is the moov function |
| Mp4InPlace.LocateAC4Entry | go_backend/ac4_config.go:119-152 | the nested searches are the locating function |
| Mp4InPlace.NormalizeQuickTimeAudioEntry | go_backend/ac4_config.go:237-271 | the rewritten copy is the normalized buffer |
| Mp4InPlace.AudioSampleEntryHeaderLen | go_backend/ac4_config.go:94-112 | the header length by version, None when the entry is too short |
| Mp4InPlace.EnsureAC4ConfigBox | go_backend/ac4_config.go:318-391 | the in-place step has exactly the outcome the results are proved about |
| Mp4InPlace.WriteMP4ITunesMetadata | go_backend/ac4_metadata.go:127-154 | the in-place step gives exactly the buffer the results are proved about |
| Segments.StepSound | go_backend/extension_runtime_segments.go:450-719 | every step but a copy behind stray bytes keeps: the staged file begins with the segments before next, and ends there unless a failure is noted; every checkpoint a crash may leave describes surviving bytes |
| Segments.RunSound | go_backend/extension_runtime_segments.go:450-719 | over all runs of tasks, workers, checkpoints and crashes in which nothing is copied behind stray bytes: stored checkpoints are true and whatever is published is the whole list in order |
| Segments.WithoutRetryCareful | go_backend/extension_runtime_segments.go:632-660 | runs in which within one task no copy follows one that stopped part-way are such runs |
| Segments.TaskPublishesWhole | go_backend/extension_runtime_segments.go:611-719 | within one task, local append failures included, nothing but the whole list is published |
| Segments.RetriedCopiesAligned | go_backend/extension_runtime_segments.go:643-708 | after a part-way copy and any number of later copies the checkpoint is right exactly when the segments copied since have the period of the stray bytes |
| Segments.CopiesAligned | go_backend/extension_runtime_segments.go:643-708 | with any number of part-way copies anywhere the checkpoint is right exactly when what was written since begins with the segments counted since |
| Segments.NextTaskPublishes | go_backend/extension_runtime_segments.go:519-549 | what a failed task with all segments leaves is published by the next one; it is the list exactly when the checkpoint is right |
| Segments.OpenResumes | go_backend/extension_runtime_segments.go:450-549 | a stored checkpoint of the list is resumed where it stands: the next task goes on behind its segments, or publishes the list |
| Segments.SavedIsResumed | go_backend/extension_runtime_segments.go:450-549 | what was stored before a crash is not fetched again |
| Segments.PartialAppendMixes | go_backend/extension_runtime_segments.go:643-707 | however far the failed copy came, there are contents and a run that publish a wrong file |
| Segments.Assembler.Assemble | go_backend/extension_runtime_segments.go:611-719 | for every order of results: nothing but the whole list is published, and it is when all segments arrive and the disk works |
| Segments.Assembler.OnResult | go_backend/extension_runtime_segments.go:617-661 | one result and the inner loop are a run of the machine; afterwards the next segment is missing or a failure is noted |
| Segments.Assembler.Close | go_backend/extension_runtime_segments.go:700-737 | publish, keep a checkpoint or clean up as the machine says |
| SegmentFetch.Fetcher.Fetch | go_backend/extension_runtime_segments.go:165-369 | without cancellation it succeeds exactly if some answer within the attempts brings all it announced and every earlier one is missing, a retryable status or broken off; a fetched segment is what the answer sent, the whole body exactly when that reaches its end and always when the answer states a length; the shared byte counter grows by its length or not at all; a failure has one of the stated reasons |
| SegmentFetch.PreimageInjective | go_backend/extension_runtime_segments.go:100-113 | different lists of NUL-free URLs are hashed from different strings; the URLs admitted at lines 409-416 are NUL-free, because parsing them rejects control characters |
| ObjectOrigin.TruthSurvives | go_backend/extension_runtime_transfer.go:355-366 | a checkpoint is true exactly when a resume starts right whatever a crash leaves behind the synced bytes |
| ObjectOrigin.SavedExactly | go_backend/extension_runtime_transfer.go:345-366 | when a failed sync is honoured an attempt to store a checkpoint makes it true or leaves it as it was |
| ObjectOrigin.ForcedExactly | go_backend/extension_runtime_chunked.go:508-517 | when it is ignored the stored checkpoint is true exactly if the sync worked or there was nothing to sync |
| ReliableDownload.Transfer.Receive | go_backend/extension_runtime_transfer.go:468-584 | after any honest answer the file begins the origin's version, and is all of it when the answer completes it; the new state is the function of the old one |
| ReliableDownload.Transfer.Download | go_backend/extension_runtime_transfer.go:340-690 | if nothing goes wrong in the attempts made, the answers decide: published exactly if some answer within the allowed attempts completes the file and every earlier one is missing, a status 408, 425, 429 or 500 and more, or a body cut off, with that many requests; whatever goes wrong, a published file is the whole body of the version of one attempt, if nothing nameless follows a name and answers that state no size end with the object; the disk of a failed call is that of its run |
| ReliableDownload.ReliableFileDownload | go_backend/extension_runtime_transfer.go:209-692 | the whole call behind a crash: a true checkpoint is resumed or, if the file is complete, published without a request; one whole version is published; if nothing goes wrong the answers decide as above |
| TransferOutcome.PublishedExactly | go_backend/extension_runtime_transfer.go:368-664 | a call so decided publishes exactly if some answer k within the attempts completes the file and all before it let it go on, and has then made k requests |
| TransferOutcome.AttemptedWith | go_backend/extension_runtime_transfer.go:468-639 | the treatment of a 2xx answer told in status codes, sizes and bytes: which complete, which are cut off, and what is kept of those |
| ReliableDownload.Transfer.SaveCheckpoint | go_backend/extension_runtime_transfer.go:345-366 | the method is the function: a new checkpoint counts synced bytes |
| ReliableTransfer.CompletedExactly | go_backend/extension_runtime_transfer.go:131-148 | a completed file is right exactly when the last answer reaches the end of the object, and always when it states the size |
| ReliableTransfer.ShortRangeCompletes | go_backend/extension_runtime_transfer.go:142-144 | every partial answer without a total completes the file, however short it is |
| ReliableTransfer.RightExactlyForTwoCodes | go_backend/extension_runtime_transfer.go:500-532 | a completed resume is right exactly for a full 200 answer and for a 206 that reaches the end |
| ReliableTransfer.CheckpointExactly | go_backend/extension_runtime_transfer.go:511-639 | after one answer the checkpoint is true exactly if it was and the file was not restarted, or an attempt to store one synced enough |
| ReliableTransfer.RunExactly | go_backend/extension_runtime_transfer.go:368-664 | over every run of one version whose size is inferred rightly the checkpoint is true exactly as the answers and the outcomes of the attempts say |
| ReliableTransfer.InferredSizeStored | go_backend/extension_runtime_transfer.go:355-366 | a size inferred from a part of a range is stored, and the checkpoint is true exactly if the part reaches the end |
| ReliableTransfer.NamedExactly | go_backend/extension_runtime_transfer.go:534-536 | a cut-off full answer of another version leaves its own name exactly when it carries one |
| ReliableTransfer.StaleValidatorCompletes | go_backend/extension_runtime_transfer.go:534-536 | what the next range answer makes of a nameless one: right exactly when its bytes begin the old version |
| ReliableTransfer.StaleValidatorMixes | go_backend/extension_runtime_transfer.go:534-536 | three honest answers after which the file mixes two versions |
| ReliableTransfer.OnlyWholeExactly | go_backend/extension_runtime_transfer.go:368-690 | over all honest runs of a named and a nameless version one of the two is published exactly when no beginning of the nameless one, continued as the named one, is a third |
| ReliableTransfer.RestartLeavesCheckpoint | go_backend/extension_runtime_transfer.go:511-532 | a full answer restarts the file and no sync works: the checkpoint kept is not true, and the next call can continue from other bytes |
| ChunkedTransfer.AnswerRight | go_backend/extension_runtime_chunked.go:333-478 | an honest answer that is taken, part of a chunk included, leaves the beginning of the probed version: what it sent more, all of it after a full answer with a length, or rolled back |
| ChunkedTransfer.NextRight | go_backend/extension_runtime_chunked.go:235-555 | the loop around it: with a known size only a file of that size is complete; without, the file is the version when the answer that ends the loop ends with the object |
| ChunkedTransfer.ShortChunkEnds | go_backend/extension_runtime_chunked.go:538-540 | while the size is not known a part shorter than a chunk is published as the end: right exactly when it reaches the end |
| ChunkedTransfer.ShortChunkHonest | go_backend/extension_runtime_chunked.go:538-540 | for every shorter length there is such an honest answer |
| ChunkedTransfer.OnlyProbedExactly | go_backend/extension_runtime_chunked.go:159-160 | in all honest runs whose full answers carry a validator when the probe did, only the probed version is published exactly when the probe had a validator, and the size or a single byte |
| ChunkedTransfer.NamelessRun | go_backend/extension_runtime_chunked.go:353-394 | without that restriction there is a run that publishes another body, whatever the probe returned |
| ChunkedTransfer.UnnamedVersionsMix | go_backend/extension_runtime_chunked.go:263-265 | without a validator a run over two versions publishes the front of one and the rest of the other |
| ChunkedTransfer.UnnamedVersionsMixed | go_backend/extension_runtime_chunked.go:263-265 | the smallest such run |
| ChunkedTransfer.NamelessAnswerTaken | go_backend/extension_runtime_chunked.go:353-394 | a full answer without a validator is published, whatever version it is |
| ChunkedTransfer.RunKeepsTruth | go_backend/extension_runtime_chunked.go:364-384 | over every run of answers the stored checkpoint stays true, through rollback, restart and failing syncs |
| ChunkedTransfer.ExhaustedExactly | go_backend/extension_runtime_chunked.go:508-517 | when all attempts for a chunk failed the checkpoint left is true exactly if the last sync worked, it was not stored, or nothing was unsynced by the outcomes of the run |
| ChunkedTransfer.UnsyncedCheckpointLies | go_backend/extension_runtime_chunked.go:508-517 | otherwise a crash can leave bytes from which the next call continues wrongly |
| ChunkedTransfer.UnsyncedRun | go_backend/extension_runtime_chunked.go:508-517 | such a run, for every named object of more than one byte |
| ChunkedDownload.Chunked.Receive | go_backend/extension_runtime_chunked.go:333-478 | the method is the treatment of one answer the results are about, on the file and on the checkpoint |
| ChunkedDownload.Chunked.FetchChunk | go_backend/extension_runtime_chunked.go:235-506 | the attempts for a chunk are a run of the loop and end at a beginning of the version, at the stage the answers lead to if nothing goes wrong |
| ChunkedDownload.Chunked.Download | go_backend/extension_runtime_chunked.go:235-555 | success publishes all of the probed version; if nothing goes wrong in the attempts made, the answers decide whether the call succeeds and with how many requests; a failed call leaves a true checkpoint exactly as the outcomes of the run and of the last attempt say |
| ChunkedDownload.FileDownloadChunked | go_backend/extension_runtime_chunked.go:159-586 | the whole call behind a crash and a true checkpoint publishes the probed version; if nothing goes wrong the answers decide from the checkpoint on |
| ChunkedOutcome.PublishedExactly | go_backend/extension_runtime_chunked.go:235-555 | a call so decided publishes exactly if the requests lead to a finished file, that file, and counts them |
| ChunkedOutcome.ChunkGetsThrough | go_backend/extension_runtime_chunked.go:248-506 | a chunk gets through whenever one of the attempts for it brings it and the ones before are missing, a retryable status or cut off |
| ChunkedOutcome.SameAsAfter | go_backend/extension_runtime_chunked.go:333-478 | the treatment of one answer told in status codes, sizes and bytes |
| ResolutionBudget.StepKeeps | go_backend/extension_resolution_budget.go:40-139 | every event keeps the budget equal to the independent record of time that counts, with the current timer due at exactly its end |
| ResolutionBudget.AllowanceConserved | go_backend/extension_resolution_budget.go:55-130 | over every run the remaining time is the allowance less the time without a pause or with a charge; the deadline only comes when it is spent; no time is spent twice |
| ResolutionBudget.TimersExact | go_backend/extension_resolution_budget.go:40-53 | a stale callback never ends the budget; the current one is due exactly when the allowance is spent |
| ResolutionBudget.ReleasedOnce | go_backend/extension_resolution_budget.go:74-86 | a second release of a token does nothing, ever |
| ResolutionBudget.ResolutionBudget.Pause | go_backend/extension_resolution_budget.go:55-73 | the method is the step function |
| ResolutionBudget.ResolutionBudget.Charge | go_backend/extension_resolution_budget.go:89-99 | the method is the step function |
| ResolutionBudget.ResolutionBudget.ReleaseCharge | go_backend/extension_resolution_budget.go:100-116 | the method is the step function |
| ResolutionBudget.ResolutionBudget.OnTimer | go_backend/extension_resolution_budget.go:44-52 | the callback is the step function |
| ResolutionBudget.ResolutionBudget.Remaining | go_backend/extension_resolution_budget.go:119-130 | the query is the function the conservation law is about |
| RuntimePool.StepKeeps | go_backend/extension_manager_runtime.go:197-344 | every event keeps one owner per VM and loses none, a waiting caller or watcher for every running call, VMMu with its one job, and the gate's count |
| RuntimePool.Exclusive | go_backend/extension_timeout.go:86-146 | in every interleaving no VM is executed twice at once, calls start and pooled VMs lie idle only, the pool keeps at most one, the gate counts the stuck runtimes |
| RuntimePool.OneOwner | go_backend/extension_manager_runtime.go:224-315 | every VM that was made is in exactly one place: borrowed by one job, pooled, quarantined under one watcher, the free shared VM, or closed |
| RuntimeTrace.OnlyHealthyReused | go_backend/extension_manager_runtime.go:201-251 | over every run: what lies in the pool and what a download is handed out of it was let go by an enabled extension behind a last call that returned healthy, and has lain in the pool since |
| RuntimeTrace.ReleasedExactly | go_backend/extension_manager_runtime.go:243-251 | a released VM is pooled exactly when the extension is enabled, the job's last call returned healthy and the pool is empty; otherwise it is never in the pool again |
| RuntimeTrace.OnlyHealthyBuilt | go_backend/extension_manager_runtime.go:213-219 | a download is given a new runtime only if no call that set it up failed |
| RuntimeTrace.GateExactly | go_backend/extension_manager_runtime.go:202-219 | no runtime is built between giving up on a call and reaping it; with VMMu free one may be built exactly when all have been reaped |
| RuntimePool.LoadedExtension.AcquireIdle | go_backend/extension_manager_runtime.go:201-211 | the last pooled runtime, taken out of the pool |
| RuntimePool.LoadedExtension.PoolIfFits | go_backend/extension_manager_runtime.go:243-251 | pooled exactly when healthy, enabled and the pool is empty |
| RuntimePool.LoadedExtension.Quarantine | go_backend/extension_manager_runtime.go:280-319 | the gate counts one more, the shared VM is detached |
| Levenshtein.DistanceIsMinimal | go_backend/extension_runtime_matching.go:73-105 | some edit script has the distance as its cost and none costs less |
| Levenshtein.DistanceIsMetric | go_backend/extension_runtime_matching.go:73-105 | zero exactly for equal texts, symmetric, triangle inequality, at most the longer length |
| Levenshtein.LevenshteinDistance | go_backend/extension_runtime_matching.go:73-105 | the table's last entry is that distance |
| Levenshtein.SimilarityRange | go_backend/extension_runtime_matching.go:56-71 | the similarity times the longer length is that length less the distance; between 0 and 1, symmetric, 1 exactly for equal texts |
| Levenshtein.CalculateStringSimilarity | go_backend/extension_runtime_matching.go:56-71 | the computed value is that similarity, over the reals |
| PatternedFile.TransformFile | go_backend/extension_runtime_file_transform.go:145-206 | for every buffer size: in each chosen segment encrypted block k is the cipher of the plain block xor the encrypted one before it (decryption the mirror, counter mode block by block), every other segment is unchanged, both are counted; refused exactly for an unfit segment |
| PatternedBlocks.WholeByBlocks | go_backend/extension_runtime_file_transform.go:145-245 | the segment-by-segment definition has that output, block by block as sections 6.2 and 6.5 of SP 800-38A have it |
| PatternedBlocks.CounterOfNext | go_backend/extension_runtime_file_transform.go:236-239 | counting up block by block, with carry and wrap-around, reaches the block whose big-endian value is that of the initial one plus k, modulo 256 to the block size |
| PatternedFile.PickBufferSize | go_backend/extension_runtime_file_transform.go:76-85 | the largest multiple of the segment size within the request, at least one segment and at most the maximum |
| PatternedTransform.SegmentUndone | go_backend/extension_runtime_file_transform.go:230-245 | decrypting a segment undoes encrypting it and the other way round, CBC and CTR, any block permutation |
| PatternedTransform.TransformUndone | go_backend/extension_runtime_file_transform.go:145-206 | the opposite operation with the same layout gives the whole file back |
| PatternedTransform.RefusedExactly | go_backend/extension_runtime_file_transform.go:167-175 | the transform fails exactly for a selected partial last segment that is not whole blocks in CBC |
| DialRace.InterleavedOrder | go_backend/dns_doh.go:239-291 | every dialable address once, each family in order, the first family first, then in turns |
| DialRace.InterleaveDialIPs | go_backend/dns_doh.go:239-291 | the loops compute that order |
| AddressRace.StepKeeps | go_backend/dns_doh.go:168-209 | every event keeps the counts of started, finished and pending attempts exact |
| AddressRace.NoConnectionLost | go_backend/dns_doh.go:176-224 | an opened connection is returned, closed by the drain, or still on its way to it, and the drain waits for exactly what is missing |
| AddressRace.FailsOnlyAfterAll | go_backend/dns_doh.go:190-195 | a dial error is returned only after every address failed |
| AddressRace.NeverStuck | go_backend/dns_doh.go:196-207 | while the race is on an attempt is in flight and untried addresses have an armed timer |
| AddressRace.Racer.TakeResult | go_backend/dns_doh.go:179-201 | the result arm is the step function |
| AddressRace.Racer.TimerFired | go_backend/dns_doh.go:202-206 | the timer arm is the step function |
| OggPackets.CollectsFirstPackets | go_backend/audio_metadata_ogg.go:100-161 | with true continuation flags and packets under the cap the first maxPackets packets completed in the pages are found, however they were cut |
| OggPackets.CollectsFile | go_backend/audio_metadata_ogg.go:65-161 | from end to end: packets laced, cut into pages anywhere and written to a file; collected are the first maxPackets non-empty ones that end within the first maxPages pages |
| OggPackets.CollectOggPackets | go_backend/audio_metadata_ogg.go:100-161 | the loops are the collector, over-long packets and lost continuations included |
| OggPackets.ReadWritten | go_backend/audio_metadata_ogg.go:65-98 | a written page is read back wherever it stands |
| OggPackets.PagesBehind | go_backend/audio_metadata_ogg.go:65-108 | the pages read from a file of written pages are the first maxPages of them |
| Unsynchronization.StreamIsBatch | go_backend/id3_reader.go:183-199 | the streaming form gives what the batch form gives |
| Unsynchronization.UnsyncReader.Read | go_backend/id3_reader.go:183-199 | one Read delivers the next bytes, short only at the end |
| Unsynchronization.UnsyncReader.ReadSizes | go_backend/id3_reader.go:178-199 | any sequence of read sizes delivers removeUnsync of the source piece by piece |
| Unsynchronization.RemoveUndoes | go_backend/audio_metadata.go:459-472 | removing undoes the scheme for all data |
| Unsynchronization.NoFalseSync | go_backend/audio_metadata.go:459-472 | the scheme that is undone leaves nothing that looks like a frame sync |
| Unsynchronization.RemoveUnsync | go_backend/audio_metadata.go:459-472 | the loop is the batch function |
| Id3Frames.CoverDoesNotMatter | go_backend/id3_reader.go:69-176 | scans with and without cover apply the same text frames and end the same way, on any bytes |
| Id3Print.PrintedFramesSeen | go_backend/id3_reader.go:84-164 | any frames printed as version 2.2, 2.3 or 2.4 lay them out (size digits, flags, group and length prefixes, unsynchronized payloads, padding behind): the walk visits exactly the supported text frames and wanted pictures up to the size cap, in order, with their payloads, and does not fail |
| Id3Print.BadFrameFails | go_backend/id3_reader.go:92-128 | behind printed frames it fails at a size of zero, beyond the tag, with a high bit set in version 4, and at a header that is cut off |
| Id3Frames.WalkID3Frames | go_backend/id3_reader.go:84-176 | the loop is the walk these lemmas are about |
| ApeTag.ItemsRoundTrip | go_backend/ape_tags.go:138-177 | printing and parsing give the same items exactly when no key holds a zero byte |
| ApeTag.WriteThenRead | go_backend/ape_tags.go:41-136 | a written tag is read back, with stored version and without read-only mark, exactly when also the version is supported and there are at most 1000 items |
| ApeTag.WriteReplaces | go_backend/ape_tags.go:182-270 | writing A then B leaves what writing B alone leaves, on every file where writing A succeeds |
| ApeTag.ForeignReplaced | go_backend/ape_tags.go:182-270 | whoever wrote the tag, with a header or without, at the end or in front of an ID3v1 tag: writing takes it away with what is behind it |
| ApeTag.ForeignRead | go_backend/ape_tags.go:41-136 | and reading finds its items and the read-only mark |
| ApeTag.MergedLookup | go_backend/ape_tags.go:532-553 | under every key the merged items are the new ones if the key is overwritten, else the old ones, in order |
| ApeTag.ParseAPEItems | go_backend/ape_tags.go:138-177 | the loop is the parsing function |
| ApeTag.MarshalAPETag | go_backend/ape_tags.go:274-322 | the loop is the printing function |
| ApeTag.FindExistingAPETagSize | go_backend/ape_tags.go:219-270 | the size of the tag found at the end or in front of an ID3v1 tag |
| ApeTag.File.WriteAPETags | go_backend/ape_tags.go:182-215 | the file afterwards, or unchanged on an error |
| ApeTag.MergeAPEItems | go_backend/ape_tags.go:532-553 | the loops are the merge |
| CoverCache.Cache.Put | go_backend/cover.go:261-284 | the counter stays the sum of the cached lengths and under the limit; only entries that expire first go, none if everything fits, and the last to go would not have fitted with the rest |
| CoverCache.Cache.Lookup | go_backend/cover.go:223-232 | a fresh entry is returned, a stale one dropped, the counter exact |
| CoverCache.Cache.Oldest | go_backend/cover.go:275-280 | the entry that expires first |
| CoverCache.Cache.Clear | go_backend/cover.go:199-204 | an empty cache with counter zero |
| CoverCache.SingleFlight | go_backend/cover.go:219-259 | in every interleaving fetches of one key never overlap, all who share a call get one result, nobody waits for a call no thread will finish |
| CoverCache.AnsweredAsAsked | go_backend/cover.go:219-259 | whoever asked for a key returns what a fetch of that key gave, through one call or through the cache |
| CoverCache.CacheMethodsAllowed | go_backend/cover.go:223-284 | the cache's methods do to its contents no more than the concurrent model allows |

## Left out

- Malformed MP4 trees, moov buffers of 4 GiB and more, and overflowing stco entries: the code does not check them; well-formedness and room are preconditions.
- `normalizeQuickTimeBrandsInBuf`, `normalizeQuickTimeAudioToMP4`, loading and writing back sections, building the ilst atoms: the brand rewrite is a same-length edit of another box, the rest is not part of this model.
- Sub-boxes of an ac-4 entry are read only as far as the code reads them.
- Segments.RunSound: assumes that removing a checkpoint or staged file succeeds and survives a crash (the directory is not synced after it), and that a crash keeps fsynced bytes. Workers are assumed to deliver whole segments, which they do when the answer states a length (`SegmentFetch.Fetcher.Fetch`). One list of URLs has the same bodies, entry by entry, in every task; the fingerprint does not cover request headers.
- Mp4InPlace.ReadMP4Box: a sum beyond 2^63 is rejected instead of wrapping around (`Mp4Boxes.AcceptedAlike` says where that matters), because such files are malformed.
- Segments.Assembler.Assemble: the workers and the channel are the list of results in any order; progress reporting is left out.
- ReliableDownload.Transfer.Download: a caller's own Range header, and checkpoints surviving a full restart into a later call with an origin that returns to an old version, are left out.
- ChunkedDownload.Chunked.Download: assumes that removing a checkpoint succeeds and survives a crash and that truncating and seeking fail together; the probe itself is left out (its answer is a parameter); a run is finite, since with unknown length an origin can make the loop start over for ever.
- SegmentFetch.PreimageInjective: the hash itself is taken to be injective; parsing URLs is not part of this model.
- RuntimePool.Exclusive: the check of the quarantine gate before popping an idle runtime is advisory in the code and not required here; JavaScript, storage flushing and settings are left out.
- Levenshtein.CalculateStringSimilarity: over the reals, without floating-point rounding; trimming, case and suffix normalization are left out.
- PatternedFile.TransformFile: the cipher is an abstract permutation of blocks; paths, progress callbacks and file errors are left out.
- AddressRace.NoConnectionLost: dialing and timers are events; DNS and DoH lookups and their cache are left out.
- OggPackets.CollectOggPackets: page checksums and serial numbers are not read by the code and not modelled.
- Id3Frames.WalkID3Frames: works on the decoded bytes of a tag; the tag header, the extended header and the metadata fields are left out.
- ApeTag.WriteThenRead: key and value text is bytes; metadata conversion and reading through other file abstractions are left out.
- CoverCache.SingleFlight: image decoding and resizing are left out.
- Cancel registry, pending authorizations, provider lists, version comparison, ISRC index and storage cache: smaller invariants that would add only easy members.
