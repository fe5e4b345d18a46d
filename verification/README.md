# A verified model of Iniza's Bundle, Restore, Plan and Push cores

Iniza packs a directory into an encrypted Bundle, can pause and resume the pack, and restores the
Bundle through a journalled transaction. Around that core it lets an owner review a Plan before it
is packed and execute an approved list of pushes. This project models the parts of it that must
hold up when a process stops anywhere, and proves what they keep.

Verify everything with `dafny verify dfyconfig.toml`. There is one module per file, and a module is
named like its file.

## What is modelled

**Restore publication and rollback** (`RestoreJournal`, `RestoreRecovery`, `RestoreEngine`,
`RestorePlan`, `RestoreModes`, `StagingSink`). A Restore is a program of file operations over a
destination, a staging directory and an authenticated journal. A crash keeps any prefix of the
program. The class `RestoreTransaction` performs the same operations step by step with the source's
branches and is proved to leave a prefix of the specified program, the whole of it when it succeeds,
and to fail only when an operation is refused to it or the Bundle's content is refused while it is
staged. An operation that fails may have taken effect all the same. The theorems about programs
therefore hold of every run of the class. The journal relation is the inductive invariant: Publishing
k without an intent means exactly the first k entries are visible; with the intent k it means the
first k or k + 1; RollingBack k + 1 with the intent k means the first k + 1 or k.

**Pack checkpoint promotion** (`PackPromotion`, `PromotionRecovery`, `PromotionCrashes`,
`PromotionEngine`). The file system maps seven names to file identities and has a durable layer and a
list of unsynchronized operations; a crash keeps any of them. A checkpoint records how the selected
files were observed, and every process that authenticates a pair compares that with what it then
sees. The class `PackDirectory` does the moves and removals and is tied to the specified program in
the same way.

**The IZ2 Bundle** (`Cells`, `Records`, `PublicHeader`, `BundleReader`, `BundleContents`,
`BundleSoundness`, `CapturedItems`, `PackSource`, `BundleAppend`, `BundleWriter`, `BundlePack`,
`PackCheckpoints`, `Renumbering`, `BundleRekey`, `BundleResume`, `BundleViews`, `VerifiedCopy`). A
file is a sequence of cells. A cell is an octet, or one position of a sealed value, a hash, a derived
key or an encoded manifest. A sealed value carries its key, nonce, associated data and plaintext,
opens only on an exact match, and is 16 cells longer than its plaintext (the tag of
ChaCha20-Poly1305, section 2.8 of RFC 8439). `Facts` say, without mentioning the writer, what a pack
must record for an item given how the source behaves; the writer, the pausing and resuming packs and
the reader are all proved against them. The writer and the pack loop are classes with the source's
fields; the reader and both decoders are methods proved equal to specification functions.

**Plan approval** (`Ordering`, `PlanDocument`, `PlanComparison`, `PlanScan`). Scan, canonical
encoding, approval hash and comparison agree on what the same Plan is.

**Push execution** (`PushExecution`). The class `Git` is a repository whose remote and local
references other writers may change between any two operations, as a script says, and whose
operations may fail. Drafting, approval, execution and the append-only log follow the source.

## What the proofs found out about the code

- Resume needs both the journal and the staging directory (`src/restore.rs:772-782`). A Restore that
  stops before its first journal is in place, or after its emptied staging directory is removed, is
  refused. `FreshResumableWindow` gives the accepted crash points exactly.
- A resume that resolves an interrupted move writes its first journal without synchronizing staging
  and destination (`src/restore.rs:2286-2353`). If an earlier process had moved the entry, was stopped
  before it synchronized the move, and a power failure now undoes it, the journal is ahead of the
  entries and every later resume is refused (`LostMove`; `AcceptedIffAdmitted` says exactly which
  counts of visible entries a journal lets through).
- While the saved pair is not yet superseded, recovery of a promotion authenticates both pairs, each
  with the observations of its own checkpoint (`src/bundle.rs:2134-2154`, `src/bundle.rs:2697-2712`). A
  selected file that was edited before the resumed run captured it has two different observations
  there, so once the first move is made no state of the source lets recovery end
  (`EditedFileStopsRecovery`). `SomeSourceLetsRecoveryEnd` gives the exact condition, and
  `AnyCrashesConverge` the exact condition on what one recovery sees.
- Recovery of a promotion does not synchronize the directory before it continues. Two processes that
  are each stopped after a rename leave two renames outstanding, and a power failure that keeps the
  second alone ends every recovery, unless the first was the journal's publication
  (`TwoPendingBoundary`, `StoppedTwiceThenRefused`). `PendingBoundary` says for any number of
  outstanding operations which of them can survive together and from which survivors recovery still
  completes. If every stop is a power failure, at most one operation is ever outstanding
  (`EveryStopAPowerFailure`).
- Bytes that open as a public header with both Recovery Secrets need not be an encoded header
  (`src/bundle.rs:4321-4393`). The decoder takes the slots in either order, takes the last of two slots
  of one method, and lets the two slots wrap different data-encryption keys (`OpensUnencoded`,
  `LastSlotCounts`). `HeaderDecodes` and `OpenedByBoth` say exactly which bytes open, and `HeaderCodec`
  exactly when they are an encoding.
- The counters of a Bundle do not partition its items: a selected regular file left unverified is
  counted as included as well (`src/bundle.rs:1673`, `src/bundle.rs:1717-1720`). `CountersAgainstItems`
  gives the exact excess.
- A paused pack that has left a selected file unverified can never be resumed, because its checkpoint
  records that the file had no observation (`UnverifiedFileBlocksResume`).
- Capture compares a file with the length it was observed at, while Restore expects the Plan's
  estimate (`src/bundle.rs:1757`, `src/bundle.rs:3355`). `PackedBundleStages` says when a packed
  Bundle can be staged: exactly when the two agree for every captured file.
- The record header's decoder alone accepts a plaintext length whose sum with the tag overflows
  (`src/bundle.rs:4541`); only the record limit rules it out (`OverflowingLengthDecodes`,
  `LimitedHeaderLengths`).
- The writer does not check the length of the source name, which the reader limits to 1 to 4096
  bytes. A completed pack opens exactly when the length is in that range (`CapturedBundleOpens`).
- A Restore does not require the directories above an item to be planned
  (`ParentsNeedNotBePlanned`); the later comparison of the staging tree with the planned entries does
  (`ValidatedTreeIsWellPlanned`).
- A complete push execution proves each reference when it is pushed. All references hold their
  objects at the end exactly when no two actions propose different objects for one reference
  (`AllHoldAtOnce`). A drafted plan has an action for each reference only once if no one else writes to
  the remote while it is drafted (`Draft`).

## What the model assumes

- Renames are atomic and never overwrite.
- In a Restore a crash keeps a prefix of the operations that have been started. That is so when
  destination and staging are synchronized when each process starts, because a process synchronizes
  after every operation; `LostMove` shows what can happen otherwise.
- In a promotion a crash may keep any of the operations that are not synchronized. The theorems about
  whole runs hold of crashes that keep none without all the earlier ones, which are all crashes while
  at most one operation is outstanding; `PendingBoundary` treats every other crash.
- Encryption, keyed hashes and hashes are ideal: equal only for equal inputs, opened only as sealed.
  JSON and TOML texts are injective encodings of the datatypes they hold; their lengths are inputs.
- Plan paths are sequences of components in normal form, where the source compares paths by
  component but encodes them as strings. Restore paths likewise. Stable item identifiers, action
  identifiers and approval hashes are taken as injective, without their truncation to fixed lengths.
- Characters count as bytes in the limit on the source name.
- Randomness, clocks, what the file system shows, when operations start to fail (`power`), whether the
  one that fails takes effect (`late`) and what other writers do to a remote are inputs.
- The order in which identifiers' texts sort is an input; what is proved holds for every total order.

## Model

| member | source | states |
|---|---|---|
| RestoreRecovery.AnyCrashesThenOneResumeCompletes | src/restore.rs:731-930 | after a fresh Restore stopped at any operation and any number of resumes stopped at any operation, the state is a known one, resume validation accepts it exactly when journal and staging exist, and one undisturbed resume then completes the Restore |
| RestoreRecovery.FreshResumableWindow | src/restore.rs:1115-1433 | a resume is accepted exactly from the crash points after the first journal is in place and before the emptied staging directory is removed |
| RestoreRecovery.AcceptedUnlessBare | src/restore.rs:772-906 | of the states runs can leave, validation accepts exactly those that have both journal and staging |
| RestoreRecovery.AcceptedIffAdmitted | src/restore.rs:849-906 | with the first v entries visible, an authentic journal in a valid state is accepted if and only if it admits v |
| RestoreRecovery.AcceptedExactly | src/restore.rs:772-906 | an arbitrary disk is accepted if and only if its journal is authentic for this secret, Bundle, item count and byte count, and the visible entries are exactly the planned ones among some first names that the journal admits |
| RestoreRecovery.ForeignJournalRefused | src/restore.rs:824-845 | a journal sealed for another secret, Bundle hash, item count or byte count is not accepted |
| RestoreRecovery.AlteredJournalRefused | src/restore.rs:1011-1039 | a journal whose phase, count or intent is not what was sealed is not accepted |
| RestoreRecovery.LostMove | src/restore.rs:2286-2353 | once a resume has journalled a resolved intent, losing the earlier process's unsynchronized move leaves a state that is refused, and only then |
| RestoreRecovery.EachEntryInOnePlace | src/restore.rs:2354-2403 | once publication or rollback has begun every planned entry is in exactly one of staging and destination, unchanged, and nothing else is in either |
| RestoreRecovery.RollbackRuns | src/restore.rs:2270-2405 | an undisturbed rollback from any accepted state leaves nothing visible and, if publication had begun, every entry back in staging |
| RestoreRecovery.ResolutionIsExact | src/restore.rs:2286-2353 | the journal and the place of the intended entry determine exactly how many entries are visible |
| RestoreRecovery.InFlightAccepted | src/restore.rs:846-906 | every state of a journalled publication or rollback passes the required, allowed and forbidden checks of resume validation |
| RestoreRecovery.PublishOneRuns | src/restore.rs:2480-2543 | one publication step takes the first i visible entries to the first i + 1 through known states only |
| RestoreRecovery.RollbackOneRuns | src/restore.rs:2354-2403 | one rollback step takes the first i + 1 visible entries to the first i through known states only |
| RestoreRecovery.PublishFromRuns | src/restore.rs:2434-2545 | publication ends with all entries visible and staging empty, through known states only |
| RestoreRecovery.RollbackFromRuns | src/restore.rs:2354-2405 | rollback of k entries ends with none visible, through known states only |
| RestoreRecovery.WriteRuns | src/restore.rs:945-1010 | writing a journal is harmless at both of its steps and then stands for the new phase, count and intent |
| RestoreRecovery.FreshRuns | src/restore.rs:1115-1433 | an undisturbed fresh Restore leaves exactly the planned entries and no control directory |
| RestoreRecovery.ResumeRuns | src/restore.rs:1115-1433 | an undisturbed accepted resume leaves exactly the planned entries and no control directory, through known states only |
| RestoreRecovery.AttemptsStayKnown | src/restore.rs:731-930 | no number of interrupted resumes leaves the known states |
| RestoreEngine.RestoreTransaction.WriteAuthenticatedJournal | src/restore.rs:945-1009 | performs a prefix of the two operations of a journal write, the last of which may have taken effect although it is reported as failed; success puts exactly the authenticated journal in place |
| RestoreEngine.RestoreTransaction.PublishEntry | src/restore.rs:2480-2543 | performs a prefix of the specified step, tells whether the intent is durable, and from a ready state fails only when operations do |
| RestoreEngine.RestoreTransaction.PublishStagedEntries | src/restore.rs:2434-2545 | performs a prefix of the publication, reports a first intent as soon as one is durable, fails only when operations do, and pauses exactly where cancellation is noticed, with the entries before it visible |
| RestoreEngine.RestoreTransaction.RollbackEntries | src/restore.rs:2354-2403 | performs a prefix of the rollback, last entry first, and fails only when operations do |
| RestoreEngine.RestoreTransaction.ResolvePendingIntent | src/restore.rs:2286-2353 | returns the count that the intent and the entry's place stand for |
| RestoreEngine.RestoreTransaction.ReconcileInterruptedPublication | src/restore.rs:2270-2405 | refuses an entry found in both places or in neither without an operation; otherwise performs a prefix of the rollback |
| RestoreEngine.RestoreTransaction.ValidateResumeDestination | src/restore.rs:731-930 | accepts only an authentic journal of this Bundle and secret that admits the visible entries, all of them planned; removes at most an unfinished journal file, changes nothing that is not acceptable, and fails on an acceptable destination only when the operation does |
| RestoreEngine.RestoreTransaction.Stage | src/restore.rs:1186-1313 | performs a prefix of staging, all of it when it succeeds; fails only when an operation does or the content is refused |
| RestoreEngine.RestoreTransaction.RecoverInterrupted | src/restore.rs:731-930 | validation and rollback together leave nothing visible, or fail only when operations do |
| RestoreEngine.RestoreTransaction.RunBody | src/restore.rs:1115-1433 | performs a prefix of the transaction and tells whether publication may have begun; fails only when an operation does or the content is refused while it is staged; pauses exactly where cancellation is noticed and completes otherwise |
| RestoreEngine.RestoreTransaction.RunFresh | src/restore.rs:1115-1433 | a fresh transaction on an empty destination fails only when operations do or the content is refused |
| RestoreEngine.RestoreTransaction.RunResume | src/restore.rs:1115-1433 | a refused resume changes nothing; an accepted one performs a prefix of the specified program |
| RestoreEngine.RestoreTransaction.Restore | src/restore.rs:223-330 | a fresh Restore takes only an empty destination; its control directory is removed only after an error before any entry moved, and always then if cleanup works; a resume never removes it; it pauses exactly where cancellation is noticed, with exactly the entries before that visible and the journal saying so; success leaves exactly the planned entries, and with content and operations enough it succeeds; errors have a reason |
| RestoreEngine.RestoreTransaction.FreshRestore | src/restore.rs:265-330 | cleanup leaves an empty destination, and an error that keeps the control directory came after the first intent |
| RestoreEngine.EarlyKeepsDestination | src/restore.rs:2480-2497 | no operation before the first intent is durable touches the destination |
| RestorePlan.ValidateRestoreItems | src/restore.rs:517-609 | accepts exactly the manifests within all limits whose selected items have safe, distinct and non-colliding paths and safe targets, and plans exactly the selected items |
| RestorePlan.CheckItem | src/restore.rs:538-583 | one more item is accepted exactly when the selection stays safe with it |
| RestorePlan.ValidateSymlinkTarget | src/restore.rs:615-658 | accepts exactly the targets that resolve inside the destination and outside the control directory |
| RestorePlan.ResolvesWhenInside | src/restore.rs:615-658 | lexical resolution succeeds exactly when no part of the target climbs above the destination |
| RestorePlan.LinkTargets | src/restore.rs:615-658 | a link that leads up and then down through names is accepted if and only if it does not climb above the destination and does not end in the transaction control |
| RestorePlan.AbsoluteTargetRefused | src/restore.rs:615-658 | no target with a root in it is accepted |
| RestorePlan.SafePathStays | src/restore.rs:660-685 | a safe path leads exactly where its names say, and a Restore takes exactly the safe paths outside the transaction control |
| RestorePlan.NamesMakeSafePaths | src/restore.rs:660-685 | any names in a row are a safe path, accepted unless the first is the transaction control |
| RestorePlan.AcceptedMeans | src/restore.rs:517-609 | in numbers, what an accepted manifest has at most, and that no two selected items have one path or one collision key |
| RestorePlan.HooksLieBeneath | src/restore.rs:687-698 | a hook is exactly what lies beneath a directory hooks right in a directory .git |
| RestorePlan.NoFileIsExecutable | src/restore.rs:374-383 | no restored file keeps an execute bit; its other recorded permission bits stay |
| RestorePlan.TopLevelEntryNames | src/restore.rs:931-943 | the names are exactly the first components of the planned paths, in order and once each |
| RestorePlan.NamesMakeATransaction | src/restore.rs:931-943 | once the staging tree has passed validation, the top-level names are distinct, exactly the entries of the staging directory, and none is the control directory's |
| RestorePlan.ValidatedTreeIsWellPlanned | src/restore.rs:1434-1458 | when the staging tree holds exactly the planned entries, every directory above an item is planned |
| RestorePlan.ParentsNeedNotBePlanned | src/restore.rs:517-609 | acceptance of the manifest alone does not give that: a concrete manifest |
| RestoreModes.FinalizeFile | src/restore.rs:1810-1900 | a file that still is the validated one, with the authenticated content and at its validation mode, takes its final mode; no other item's mode changes; a replaced one is refused |
| RestoreModes.FinalModeIs | src/restore.rs:374-383 | a final mode is the recorded permission bits, for an executable file without its three execute bits |
| RestoreModes.ValidationModeIs | src/restore.rs:385-387 | until a Restore is finished only the owner can read what it has restored, and no file can be run |
| RestoreModes.FinalizeValidatedItems | src/restore.rs:1797-1901 | whenever it stops, every visible item is at its validation or its final mode and directories still at their validation modes; it succeeds only if every item is the validated one and fails only for a replaced item or a failed operation |
| RestoreModes.ApplyDirectoryModes | src/restore.rs:2028-2071 | deepest first, no directory is out of reach when its turn comes, whatever the modes are; a replaced directory keeps its validation mode; it fails only for one or for a failed operation |
| RestoreModes.DeepestReachable | src/restore.rs:2034-2038 | in that order every directory above the next one is still searchable |
| RestoreModes.NormalizeItem | src/restore.rs:1703-1750 | an item at its final mode goes back to its validation mode; an item at another mode is refused and left alone |
| RestoreModes.NormalizeDirectories | src/restore.rs:1662-1700 | shallowest first, every visible directory gets back to its validation mode |
| RestoreModes.NormalizeResumeModes | src/restore.rs:1662-1700 | from any state an interruption can leave, every visible item gets back to its validation mode; it fails only when operations do |
| RestoreModes.InterruptedThenNormalized | src/restore.rs:1662-1750 | after finalization stopped anywhere and any number of interrupted normalizations, one that is left its operations succeeds and restores all validation modes |
| StagingSink.StagedFileSink.Add | src/restore.rs:2130-2158 | a new staged file is empty and expected to reach its size |
| StagingSink.StagedFileSink.OpenForChunk | src/restore.rs:2160-2204 | the one open handle belongs to the item and stands at the end of what was written for it |
| StagingSink.StagedFileSink.WriteChunk | src/restore.rs:2228-2267 | accepts exactly the chunk whose turn it is and appends it to its item's file |
| StagingSink.StagedFileSink.Finish | src/restore.rs:2206-2225 | succeeds only if every file has its expected size and is synchronized; fails only for a file that is too short or a failed operation |
| StagingSink.Receive | src/restore.rs:2098-2268 | for any interleaving of items every file ends as its chunks in order, and exactly the acceptable streams are accepted |
| StagingSink.AcceptedStaysWithin | src/restore.rs:2228-2267 | no accepted stream makes a file longer than expected or writes to one that is not expected |
| StagingSink.CapturedPours | src/restore.rs:2228-2267 | the chunks of captured items, appended per item, are the captured contents |
| StagingSink.StagesExactlyWhenSizesAgree | src/restore.rs:2098-2268 | a Bundle's content is staged and finished exactly when every expected size is the captured one |
| StagingSink.PackedBundleStages | src/bundle.rs:3342-3360 | a packed Bundle can be staged exactly when each captured file is as long as the Plan estimated |
| PromotionRecovery.AnyCrashesConverge | src/bundle.rs:2633-3029 | after a pausing process and any number of recoveries, each stopped or crashed anywhere and each seeing the source as it then is, one undisturbed recovery leaves exactly the advanced pair at its final names if and only if it sees the selected files as the checkpoints it still needs recorded them; otherwise it does nothing |
| PromotionRecovery.SomeSourceLetsRecoveryEnd | src/bundle.rs:2134-2154 | some state of the source lets recovery go on if and only if the advanced checkpoint saw every selected file and, while the saved pair is needed, the saved one saw each the same |
| PromotionRecovery.EditedFileStopsRecovery | src/bundle.rs:2697-2712 | a file edited before the resumed run captured it, and a stop after the first move: a tracked state from which no source lets recovery go on |
| PromotionRecovery.EveryStopAPowerFailure | src/bundle.rs:2801-3029 | when every stop is a power failure, whatever it keeps is in order, so the convergence theorem applies |
| PromotionRecovery.TwoPendingBoundary | src/bundle.rs:2801-3029 | with two operations outstanding a power failure may keep the second alone; recovery then goes on if and only if the first was the journal's publication and the files are seen as recorded |
| PromotionRecovery.StoppedTwiceThenRefused | src/bundle.rs:2633-2767 | two processes stopped right after their renames and such a power failure: every later recovery is refused, whatever it sees |
| PromotionCrashes.PendingBoundary | src/bundle.rs:2633-3029 | with any number of outstanding operations, exactly the sets without an operation whose prerequisite is lost can survive; recovery then completes if and only if the surviving moves and removals are the first ones, the saved pair is not half removed without a journal, and the files are seen as recorded; from any other set it does nothing |
| PromotionCrashes.CrashLeaves | src/bundle.rs:2801-3029 | what each name holds after any possible set of survivors |
| PromotionRecovery.ClassifierReadsLayout | src/bundle.rs:2656-2695 | for every layout the classifier returns the number of completed steps and names that hold the saved and the advanced identities |
| PromotionRecovery.NoProgressLost | src/bundle.rs:2801-3029 | in every reachable state and after every crash in order the advanced pair authenticates under known names for whoever sees the files as it recorded them, and so does the saved pair until the advanced one is final |
| PromotionRecovery.ActsOnlyOnLayouts | src/bundle.rs:2656-2767 | on an arbitrary directory recovery does something only if it sees the files as recorded and the directory is a layout of an authenticated case, at most with its journal lost or a foreign file under the superseded checkpoint's name; what it takes for the advanced pair is always what one run wrote for the Plan |
| PromotionRecovery.PausesOverOwnPair | src/bundle.rs:1047-1081 | a pack that pauses promotes only a partial file and checkpoint that one run wrote for the Plan, with every selected file seen as it was |
| PromotionRecovery.LostJournalRecovers | src/bundle.rs:2721-2747 | if the journal is lost after the first move, recovery writes it again and completes the promotion, if and only if it sees the files as both checkpoints recorded them |
| PromotionRecovery.RecoveryRuns | src/bundle.rs:2633-2767 | from any tracked state recovery goes on if and only if it sees the files as recorded, and then ends promoted, durably so if it had anything to do |
| PromotionRecovery.DoTracks | src/bundle.rs:2801-3029 | each operation's precondition holds in its layout, and it leads to the next one |
| PromotionRecovery.CrashTracks | src/bundle.rs:2801-3029 | a crash that keeps no operation without the earlier ones leaves the layout of those it kept |
| PromotionRecovery.JournalRuns | src/bundle.rs:2385-2527 | writing the promotion journal keeps both pairs and leads to the first layout |
| PromotionRecovery.AttemptsStayOnTrack | src/bundle.rs:2633-3029 | no number of stopped or crashed recoveries leaves the tracked states, whatever each of them sees |
| PromotionEngine.PackDirectory.WritePromotionJournal | src/bundle.rs:2385-2527 | performs a prefix of the journal's creation and publication, and fails only when an operation does |
| PromotionEngine.PackDirectory.ContinuePromotion | src/bundle.rs:2801-3029 | performs a prefix of the steps not yet completed, in order, each synchronized, and fails only when an operation does |
| PromotionEngine.PackDirectory.ReconcileInterruptedPromotion | src/bundle.rs:2633-2767 | performs the specified recovery, or nothing when the directory is ambiguous, does not authenticate, or the files are seen otherwise than recorded |
| PromotionEngine.PackDirectory.PromoteUnjournalled | src/bundle.rs:927-957 | promotes a finished resumed pair that no journal covers if both pairs authenticate with what is seen of the files, never one with fewer items |
| PromotionEngine.PackDirectory.PromotePaused | src/bundle.rs:1047-1081 | a pack that has paused again promotes its own pair after authenticating it once more, or does nothing |
| PromotionEngine.PackDirectory.ResumePromotion | src/bundle.rs:917-957 | everything a resumed pack does about promotion, as the specified program |
| Cells.DecryptsExactly | src/bundle.rs:4605-4634 | decryption yields a plaintext exactly for that plaintext's encryption |
| Cells.OpensOnlyAsSealed | src/bundle.rs:4586-4634 | a sealed value opens exactly when key, nonce and associated data are those it was sealed with |
| Cells.BigEndianRoundTrip | src/bundle.rs:4820-4830 | a number within the width survives encoding and decoding |
| Cells.BigEndianUnique | src/bundle.rs:4820-4830 | bytes that decode are the encoding of what they decode to |
| Records.RecordHeaderCodec | src/bundle.rs:4515-4552 | the header decoder accepts exactly the encodings of headers with a consistent length |
| Records.LimitedHeaderLengths | src/bundle.rs:4533-4566 | a decoded header within its record limit has a ciphertext 16 bytes longer than its plaintext |
| Records.OverflowingLengthDecodes | src/bundle.rs:4533-4566 | without the limit an overflowing length decodes: a concrete header |
| Records.EncodeIndex | src/bundle.rs:3602-3628 | encodes exactly the indexes within the limits, to bytes that are an index of those entries |
| Records.DecodeIndex | src/bundle.rs:3630-3657 | decodes as the index parser does, piece by piece |
| Records.IndexCodec | src/bundle.rs:3602-3657 | bytes parse to entries exactly when they are the encoding of those entries within the limits |
| Records.EntryCodec | src/bundle.rs:3619-3655 | 32 bytes decode to an entry exactly when they encode it |
| Records.CompletionCodec | src/bundle.rs:4636-4676 | a completion record is accepted exactly when it encodes the values it is checked against |
| PublicHeader.HeaderOpensWithEitherMethod | src/bundle.rs:4288-4393 | either Recovery Method alone recovers the header's key material, and no other secret does |
| PublicHeader.HeaderCodec | src/bundle.rs:4288-4393 | both secrets open 296 bytes to one key material, the Vaultwarden slot first, if and only if the bytes are the encoding of a header of that material for these secrets |
| PublicHeader.HeaderDecodes | src/bundle.rs:4321-4393 | 296 bytes open with a secret exactly when they are the public fields and two well-formed slots, and the last slot of the secret's method wraps the key under the secret |
| PublicHeader.OpenedByBoth | src/bundle.rs:4321-4393 | 296 bytes open with both secrets exactly when they are the public fields and one slot for each, in either order and possibly with different keys |
| PublicHeader.OpensUnencoded | src/bundle.rs:4321-4393 | swapped slots, or slots with different keys, open with both secrets and are no header's encoding |
| PublicHeader.LastSlotCounts | src/bundle.rs:4340-4376 | of two slots of one method only the last opens, and the other method is unavailable |
| PublicHeader.UnwrapsExactly | src/bundle.rs:4321-4393 | a slot unwraps exactly under the secret it was wrapped with |
| PublicHeader.SlotIsBound | src/bundle.rs:4489-4513 | a slot unwraps only among the public fields of its own header |
| PublicHeader.SlotCodec | src/bundle.rs:4341-4369 | 106 bytes decode to a slot exactly when they are its canonical prefix and a wrapped key of 48 bytes |
| PublicHeader.SliceCursor.Take | src/bundle.rs:4801-4812 | yields the next bytes and moves past them exactly when there are enough |
| PublicHeader.SliceCursor.TakeSlot | src/bundle.rs:4347-4369 | reads one slot field by field as its decoding says |
| PublicHeader.ParseHeader | src/bundle.rs:4321-4393 | the cursor's walk over the header gives the header's decoding |
| BundleReader.WalkRecords | src/bundle.rs:3888-4033 | the loop over the records gives the specified walk |
| BundleReader.ValidateChunkOrder | src/bundle.rs:4217-4251 | accepts exactly the indexes whose items are known and whose chunks are numbered from zero in order |
| BundleReader.ValidateManifest | src/bundle.rs:4217-4251 | accepts exactly the manifests whose marker, version, source name, chunk order and sequences match the index |
| BundleReader.ValidateContentHashes | src/bundle.rs:4253-4279 | accepts exactly the contents whose hashes the manifest gives |
| BundleReader.CrossCheck | src/bundle.rs:4034-4049 | the final checks accept exactly what all of them accept, and name the first that fails |
| BundleReader.OpenBundle | src/bundle.rs:3840-4105 | the reader as a whole, loop and checks, gives what its specification says; what that accepts is AcceptedIsBundle and CompletedBundleOpens |
| BundleReader.AcceptedFilesArePrefixFree | src/bundle.rs:3904-4033 | no accepted file is a strict prefix of another accepted one, whatever the secrets and with or without verification |
| BundleSoundness.AcceptedIsBundle | src/bundle.rs:3888-4049 | whatever is accepted is a header, content records, a manifest, an index of exactly these records at their true positions, and a completion record that seals the hash of everything before it, in increasing sequences; with verification every record opens, every item has its hash and the sizes add up |
| BundleSoundness.SameCompletionSameFile | src/bundle.rs:4636-4676 | two accepted files with the same completion record are the same file |
| BundleSoundness.ChangedFileRefused | src/bundle.rs:4636-4676 | an accepted file with anything before its completion record changed, added or taken away is refused, with or without verification |
| BundleContents.SealedRecordIsFound | src/bundle.rs:3510-3541 | a sealed record is found where it was put, with its header, and opens to its plaintext |
| BundleContents.RecordIsBound | src/bundle.rs:4568-4634 | a sealed record opens only in its own Bundle, under its own kind, sequence, item and chunk |
| BundleContents.KeysApart | src/bundle.rs:4409-4456 | records of different kinds or different Bundles have different keys |
| BundleWriter.NoNonceTwice | src/bundle.rs:4579-4584 | a run that uses increasing sequences seals no two records under one nonce |
| BundlePack.CheckpointKeysApart | src/bundle.rs:4409-4456 | checkpoints of different Bundles have different keys, and no record has such a key |
| BundleContents.RecordIsAt | src/bundle.rs:3383-3389 | every chunk's record lies at the byte position its index entry says |
| BundleContents.EntryAt | src/bundle.rs:3977-3984 | entry k of the index is chunk k at its record's position |
| BundleContents.ChunksReadBack | src/bundle.rs:3973-4008 | walking written chunks learns exactly their index, contents and size |
| BundleContents.PausedFileIsIncomplete | src/bundle.rs:4031-4033 | a file of records without its trailer is refused as truncated or incomplete, whatever its name |
| BundleContents.CompleteFileReadsBack | src/bundle.rs:3904-4033 | walking a completed file learns its manifest, its index and its chunks' contents |
| CapturedItems.CapturedIndexInOrder | src/bundle.rs:4217-4251 | the chunks of every item are numbered from zero in the order they come |
| CapturedItems.CapturedSequences | src/bundle.rs:4217-4251 | the sequences the items list are exactly those of the index |
| CapturedItems.CapturedContents | src/bundle.rs:4253-4279 | the chunks' contents put together item by item are the captured contents |
| CapturedItems.CapturedBundleOpens | src/bundle.rs:3840-4105 | a completed file of captured items opens with either secret exactly when its source name has an acceptable length, to its own manifest and, verified, to the captured bytes |
| PackSource.FileOutcome | src/bundle.rs:3247-3427 | content is recorded exactly for included and changed files, and an included one was captured at the first attempt |
| PackSource.FactsAreRecorded | src/bundle.rs:1655-1742 | outcome, mode, target and content by disposition and kind: excluded exactly if the Plan excludes an item that is not special, unsupported exactly if special, planned so, or included of unknown kind, unverified exactly if in review, unavailable, or included with nothing that held |
| PackSource.FileFactsAre | src/bundle.rs:3247-3427 | a file is the first attempt that held, with its mode and bytes, changed exactly if an earlier attempt did not hold; unverified if none held |
| PackSource.LinkTargetIs | src/bundle.rs:3213-3222 | a link's target is the first on which two reads agree, and there is none otherwise |
| PackSource.StopsAtBrokenRead | src/bundle.rs:3247-3427 | a pack stops at an item exactly when it is a selected file and a read of it breaks |
| PackSource.CountersCount | src/bundle.rs:1669-1742 | each counter is the number of items with its outcome, selected files that were lost counted as included too |
| PackSource.CountersAgainstItems | src/bundle.rs:1669-1742 | the counters exceed the items by exactly the selected files left unverified |
| PackSource.ChunkingDoesNotMatter | src/bundle.rs:3247-3427 | how reads split the content does not change what is recorded |
| BundleAppend.RebasedIndex | src/bundle.rs:3383-3389 | stage entries moved by the base offset are the entries of the chunks where they now lie |
| BundleAppend.ItemAppends | src/bundle.rs:3356-3389 | appending an item's records and entries keeps file, record count and index exact |
| BundleAppend.PieceStaged | src/bundle.rs:3313-3342 | one more chunk keeps a stage file and its index exact |
| BundleAppend.NumberedCount | src/bundle.rs:3336-3342 | pieces are no more than the sequences used for them |
| BundleWriter.StreamWriter.WriteHashed | src/bundle.rs:3487-3508 | appends the bytes, or fails only when writing fails or the file would grow past 64 bits |
| BundleWriter.StreamWriter.WriteRecord | src/bundle.rs:3510-3541 | appends the sealed record and counts it; the sequence is used up even when writing fails |
| BundleWriter.StreamWriter.CopyStage | src/bundle.rs:3435-3454 | appends the whole stage file |
| BundleWriter.PackRun.SealBlock | src/bundle.rs:3313-3342 | seals one read under the next sequence, with the entry of its record |
| BundleWriter.PackRun.StreamToStage | src/bundle.rs:3300-3347 | the stage file holds the file's reads as pieces, a single empty one for an empty file |
| BundleWriter.PackRun.AppendStage | src/bundle.rs:3356-3389 | adds exactly the stage's records and their moved entries to the Bundle |
| BundleWriter.PackRun.TryCapture | src/bundle.rs:3269-3416 | keeps an attempt exactly when the file was the same before and after and as long as observed; nothing is added otherwise |
| BundleWriter.PackRun.CaptureRegularFile | src/bundle.rs:3247-3427 | captures the facts of the file with their pieces; fails only for a failed read or operation or a limit; sequences are used in increasing order, discarded attempts included |
| BundleWriter.PackRun.CaptureSymbolicLink | src/bundle.rs:3213-3222 | the target is the first on which two reads agree |
| BundleWriter.PackRun.CountOther | src/bundle.rs:1659-1766 | records and counts an item without content as its facts say |
| BundleWriter.PackRun.CaptureSelectedFile | src/bundle.rs:1689-1721 | records, counts and observes a selected file as its facts say |
| BundleWriter.PackRun.CaptureNext | src/bundle.rs:1656-1766 | the Bundle then holds exactly one more planned item, as its facts say |
| BundleWriter.PackRun.CaptureItems | src/bundle.rs:1655-1809 | captures the rest, or stops after exactly the first item of its own after which cancellation was requested; fails only for a failed read or operation or a limit |
| BundleWriter.NoneAskedMeans | src/bundle.rs:1655-1809 | going on means that cancellation was requested after none of the items captured so far |
| BundleWriter.PackRun.Adopt | src/bundle.rs:1642-1653 | what an earlier run captured is taken over as if this run had captured it |
| BundlePack.WriteManifestThenIndex | src/bundle.rs:1811-1857 | appends the manifest and index records under the next two sequences |
| BundlePack.WriteTrailer | src/bundle.rs:1811-1875 | completes the file; fails only for a limit or a failed operation |
| BundlePack.FillObservations | src/bundle.rs:3032-3163 | keeps the observations and adds what is seen of every selected file without one |
| BundlePack.WriteCheckpoint | src/bundle.rs:3032-3163 | the checkpoint describes the partial file, the captured items and the observations, sealed under the run's key; one that is too long is refused |
| BundlePack.FinishRun | src/bundle.rs:1580-1947 | a run ends completed if cancellation was requested after none of its items, or paused after the first for which it was, with more items than it began with, or failed for a stated reason |
| BundlePack.PackFresh | src/bundle.rs:1580-1947 | the same of a first run |
| Renumbering.RenumberedChunks | src/bundle.rs:2241-2256 | renumbering numbers the chunks densely and changes nothing else |
| Renumbering.RenumberedContents | src/bundle.rs:2241-2256 | the items' contents and their size stay |
| PackCheckpoints.AuthenticateCheckpoint | src/bundle.rs:1992-2163 | accepts exactly when both secrets open one header and the checkpoint is authentic for Plan, file and source |
| PackCheckpoints.SavedCheckpointIsAuthentic | src/bundle.rs:1992-2163 | a checkpoint that a run wrote is authentic exactly when its index is within the limit and every selected file was and still is seen as it was |
| PackCheckpoints.OnlyItsOwnCheckpoint | src/bundle.rs:1992-2163 | a checkpoint that a run wrote is authentic only for its own Plan, its own partial file byte for byte, its own header, no more items than planned, and files seen as they were |
| PackCheckpoints.OtherKeyRefused | src/bundle.rs:1992-2163 | nothing sealed under another key is authentic |
| PackCheckpoints.UnverifiedFileBlocksResume | src/bundle.rs:2134-2154 | a selected file left unverified rules out every later resume |
| BundleRekey.RekeyRecord | src/bundle.rs:2183-2250 | reads one saved record and seals its plaintext again under the run's keys and the next dense sequence |
| BundleRekey.RekeyPrefix | src/bundle.rs:2165-2280 | the new file then holds the saved items under fresh keys, densely numbered, with offsets and items rewritten; nothing a run has saved is refused |
| BundleResume.PackResumed | src/bundle.rs:957-1046 | a saved pack that cannot be resumed is refused before anything is written; otherwise the run ends completed, paused with strictly more items, or failed for a stated reason |
| BundleResume.PackAgain | src/bundle.rs:957-1110 | a resumed run leaves no fewer items kept than it found; its own paused pair replaces the saved one only if it authenticates, and otherwise both are kept |
| BundleResume.PromoteNewer | src/bundle.rs:917-957 | a newer pair takes the saved one's place if and only if both authenticate with what is then seen of the source |
| BundleResume.PackNext | src/bundle.rs:909-1110 | whatever a run ends in, no captured item is lost, and without a Bundle there is a stated reason: cancellation after the last item captured, one of its own; a failed operation or read; a limit; or a pair that cannot be resumed or promoted |
| BundleViews.CompletedBundleOpens | src/bundle.rs:3840-4105 | writing then opening gives back every planned item as its facts say and exactly the captured bytes, with either secret |
| BundleViews.CompletedBundleRecords | src/bundle.rs:1655-1742 | what a completed Bundle records of each item, stated of the source alone: its outcome by disposition and kind, the modes and targets seen, the bytes of the first attempt that held |
| BundleViews.PausesLeaveNoTrace | src/bundle.rs:2165-2280 | Bundles of one Plan that were packed according to the same facts, under any keys, pauses and read sizes, open to the same items and contents |
| BundleResume.PackUntilDone | src/bundle.rs:909-1110 | at most as many pauses as planned items; if no Bundle results the last run has a reason as above |
| BundleViews.PausedPackIsIncomplete | src/bundle.rs:4031-4033 | a paused pack is never accepted as a Bundle |
| VerifiedCopy.MatchesPrefix | src/bundle.rs:4145-4204 | a partial copy is accepted exactly when it is a non-empty prefix of the source |
| VerifiedCopy.ReplacedIsNoBundle | src/bundle.rs:1240-1251 | a partial copy that is replaced is no Bundle under any secret unless it is the whole source |
| PlanDocument.DecodeItems | src/plan_document.rs:98-128 | accepts exactly items with safe paths, their own stable identifiers and no duplicates |
| PlanDocument.DecodePlan | src/plan_document.rs:72-177 | decodes as specified, and says no exactly when the specification does |
| PlanDocument.LogicalSizeAdds | src/plan_engine.rs:428-432 | the logical size is the sum over the regular files, in whatever order |
| PlanDocument.EncodeThenDecode | src/plan_document.rs:72-235 | encoding then decoding gives the same Plan, with its approval if that was kept |
| PlanDocument.DirectoryPlansAreTheDecodedOnes | src/plan_document.rs:72-177 | the directory Plans are exactly the Plans that decoding can give |
| PlanDocument.HashDecides | src/plan_document.rs:59-70 | approval hashes are equal exactly when everything but the approval is |
| PlanDocument.ApprovalSurvives | src/lib.rs:266-287 | only a Plan's own hash approves it, and the approval survives the round trip |
| PlanComparison.Compare | src/plan_comparison.rs:108-190 | lists every difference of the specification once and nothing else |
| PlanComparison.ReportedExactly | src/plan_comparison.rs:108-275 | each kind of change is reported exactly when it is so: roots, destination, policy, mounts, recipes and exclusions added or removed, items added, removed or changed in a field |
| PlanComparison.CompareItem | src/plan_comparison.rs:192-231 | lists exactly the differences between two items of one identifier |
| PlanComparison.CompareStringSets | src/plan_comparison.rs:233-253 | lists exactly the added and removed strings |
| PlanComparison.ComparePathSets | src/plan_comparison.rs:255-275 | lists exactly the added and removed paths |
| PlanComparison.EmptyDifferenceMeansSameHash | src/plan_comparison.rs:108-231 | for decoded directory Plans no difference is reported exactly when the approval hashes are equal |
| PlanComparison.ItemsCarryOver | src/plan_comparison.rs:192-231 | an unreported item is unchanged, its kind and path included, through its stable identifier |
| PlanComparison.ApprovalFollowsDifference | src/lib.rs:281-287 | a revised Plan that carries an earlier approval is approved exactly when no difference is reported, and stale otherwise |
| PlanScan.DiscoverChildren | src/plan_engine.rs:600-655 | appends exactly the items beneath the directory, depth first, and tells whether it could be listed |
| PlanScan.DiscoveredAt | src/plan_engine.rs:600-655 | all discovered items lie beneath their directory at safe, pairwise distinct paths with their own identifiers |
| PlanScan.DiscoveredParent | src/plan_engine.rs:600-655 | a discovered item lies right in the directory of the walk or in a discovered directory |
| PlanScan.DiscoveredIsReached | src/plan_engine.rs:600-655 | every discovered item is that of an entry reached through listed directories on approved devices, and says what was seen there: included exactly if a directory or file on an approved device that could be listed or read and did not change |
| PlanScan.ReachedIsDiscovered | src/plan_engine.rs:600-655 | every entry reached that way has such an item |
| PlanScan.NothingBeyondMounts | src/plan_engine.rs:635-642 | without approval nothing beneath an entry on another device is discovered, and the entry itself is never included |
| PlanScan.AddAncestors | src/plan_engine.rs:527-559 | adds exactly directories above the candidate, with its requirement and explanation, so that all of them are items, and fails exactly when one of them is not a directory |
| PlanScan.AddCandidate | src/plan_engine.rs:480-525 | adds a candidate with everything beneath it at new paths, or fails exactly for its parents |
| PlanScan.CandidateParents | src/plan_engine.rs:480-559 | with a candidate's items, every item that could be looked at still lies in a directory that is an item |
| PlanScan.ObserveCandidate | src/plan_engine.rs:500-525 | a candidate's items are those beneath it, with its requirement and explanation, and its own, unavailable if it cannot be listed |
| PlanScan.CandidateItemShows | src/plan_engine.rs:480-525 | a candidate's own item is included exactly if it is a file or a directory that can be listed, and has the candidate's requirement |
| PlanScan.DiscoverSelected | src/plan_engine.rs:458-525 | every candidate is covered by an item, every item is at, above or beneath a candidate, all items have distinct safe paths, and failure has a reason among the candidates; of candidates with one path the first, if beneath no other, has all its items included with its requirement and explanation |
| PlanScan.SortKeepsFirst | src/plan_engine.rs:467-468 | sorting by path keeps the first candidate of each path first |
| PlanScan.ApplyRequestPolicy | src/plan_engine.rs:569-598 | leaves in place, item by item, what PolicyOutcome describes |
| PlanScan.PolicyOutcome | src/plan_engine.rs:569-598 | in an accepted scan an exclusion always wins, a review includes symbolic links only, and what still requires review was neither reviewed nor excluded; nothing but protection and explanation changes |
| PlanScan.ReviewTakesEffect | src/plan_engine.rs:569-598 | every reviewed inclusion of an accepted scan includes a symbolic link that required review |
| PlanScan.NothingBothReviewedAndExcluded | src/plan_engine.rs:321-331 | without a conflict no path is under both a reviewed inclusion and an exclusion |
| PlanScan.ConflictsExactly | src/plan_engine.rs:321-331 | a request is refused for a conflict exactly when some path is under both lists |
| PlanScan.RootItemShows | src/plan_engine.rs:345-385 | the root item is included exactly if the root was the same before and after and, scanned whole, could be listed |
| PlanScan.Scan | src/plan_engine.rs:293-455 | gives a directory Plan of exactly the gathered items under the request's policy: everything beneath the root for a whole scan, what the candidates call for otherwise; the directory above every item that could be looked at is an item; recipes, exclusions, destination, policy and mount approval are those requested; failure has a stated reason |
| PlanScan.ScannedPlanRoundTrips | src/plan_document.rs:72-235 | a scanned Plan has the root item first and pairwise distinct safe paths, and survives encoding and decoding with its approval state |
| PushExecution.Revalidate | src/push_plan.rs:849-919 | without disturbance an action passes exactly when its references are as planned, and is refused with the code of what differs; the remote was seen at the expected object |
| PushExecution.PerformAction | src/push_plan.rs:846-977 | pushes only if both references were seen as planned and the push goes forward; done only if pushed once, accepted, and then seen on the remote at its proposed object; without disturbance done exactly when the action is current |
| PushExecution.PerformActions | src/push_plan.rs:845-980 | the first succeeded actions are logged, pushed in order and proven in order, every push going forward; it stops at the first failure; undisturbed current actions all succeed |
| PushExecution.AllForwardMeans | src/push_plan.rs:905-919 | every push made moved its reference forward from the expected object |
| PushExecution.PushResultLog.Append | src/push_plan.rs:1047-1060 | appends one record and changes none |
| PushExecution.PushResultLog.Finish | src/push_plan.rs:1062-1102 | appends at most one failure and a summary, and reports the counts and the first proofs |
| PushExecution.Execute | src/push_plan.rs:782-983 | a report's counts add up to the planned actions, its proofs are the first succeeded actions, and the log is a header, their successes, the failed action with its code, and a summary with the same code, or the reason why nothing was tried; nothing is pushed without authorization; an undisturbed current plan completes |
| PushExecution.AllHoldAtOnce | src/push_plan.rs:952-982 | after a complete execution all references hold at once exactly when no two actions contradict each other |
| PushExecution.Draft | src/push_plan.rs:569-726 | only for a configured remote that is the upstream's of a checked-out branch that is not behind, and without reading the remote otherwise: one action for each selected reference and the upstream, all following the contract, for distinct references when no one else writes; without disturbance drafted exactly when everything selected can be published, and every action is current |
| PushExecution.FindUpstream | src/push_plan.rs:576-602 | finds the upstream exactly when the Project can publish to the remote |
| PushExecution.NeighboursAreRepeats | src/push_plan.rs:652-658 | comparing neighbours after sorting finds exactly the repeated references |
| PushExecution.Approve | src/push_plan.rs:728-780 | a receipt is given exactly for the reviewed, unexpired document with the side effects acknowledged and each new branch and tag approved once under an identifier of its own; the receipt authorizes the execution |
| PushExecution.SortedComparison | src/push_plan.rs:747-765 | sorting both lists, comparing neighbours and comparing the lists decides whether each required identifier was approved exactly once and nothing else was |
| PushExecution.AuthorizedExactly | src/push_plan.rs:786-808 | a receipt authorizes a document exactly when it is for it, acknowledged, strictly increasing, and approves each new branch and tag once |
| PushExecution.AuthorizedDocument | src/push_plan.rs:786-808 | whatever is authorized has actions, holds for at most fifteen minutes, and names each action by a hash of all that it does |
| PushExecution.NewReferencesAreApproved | src/push_plan.rs:799-808 | under any authorization every action that creates a branch or tag was approved by itself, under an identifier that no other one has |

## Left out

- Cryptography itself, key derivation costs and entropy: ideal forms stand for them.
- Extended attributes, access-control lists and other platform metadata of items: calls into the operating system.
- The root directory's own mode and metadata (`src/restore.rs:1786-1795`, `src/restore.rs:2073-2096`): a single call at the end.
- Capacity probing: a run that has no room fails like any other operation that fails.
- Events, reports, human and JSON text, and the command line.
- The refusal of names that end like a partial Bundle's when a Bundle is opened by path (`src/bundle.rs:4768-4785`): a check on the name alone; the model opens such files as if partial names were allowed.
- Canonical JSON and schema checks of the checkpoint, the promotion journal and the Push documents: the datatypes stand for documents that pass them.
- `BundleRekey.RekeyPrefix`: stated for checkpoints that a run wrote; a checkpoint sealed under the run's key with other contents cannot be made by anyone else.
- `BundleResume.PackUntilDone`: the promotion between two pauses happens at once; its single steps and crashes are those of `PromotionRecovery`.
- The check that the previous names are free before the first move (`src/bundle.rs:2829-2844`): the classification has just established it.
- `PushExecution.Execute`: creating the result log always succeeds in the model; in the source a log that cannot be created ends the execution before anything is pushed.
- `RestoreRecovery.AnyCrashesThenOneResumeCompletes`: states what the journal and the entries allow; the contents of staged files during materialization are arbitrary until the last one.
- `RestoreModes.NormalizeResumeModes`: its premise that directories above an item are planned is what `RestorePlan.ValidatedTreeIsWellPlanned` proves of a validated staging tree.
- `PlanComparison.Compare`: does not state the order in which differences are listed.
- `PlanScan.Scan`: coverage summaries and the reading of the source directory are not modelled; a listing names each child once and in order.
- `PushExecution.Draft`: the character rules for remote names and references, the check that the audit is current (`src/push_plan.rs:573-575`) and the parsing of git's output; references are strings.
- `RestoreModes.FinalizeValidatedItems`: the later comparison of all entries and symbolic-link targets (`src/restore.rs:1920-2026`), which changes nothing.
- The lexical treatment of symbolic links is modelled as it is: nothing is said about links that other entries redirect.
- The IZ1 and fixture formats, project audits and capsules, and the Bitwarden recovery: simpler predecessors or external tools.
