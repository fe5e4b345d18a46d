// A whole pack: it writes the header, captures the items, and either completes the Bundle
// or pauses it to a checkpoint that a later run can resume from.
module BundlePack {
  import opened Outcomes
  import opened Cells
  import opened Records
  import opened PublicHeader
  import opened BundleReader
  import opened BundleContents
  import opened CapturedItems
  import opened PackSource
  import opened BundleAppend
  import opened BundleWriter

  const MAX_PACK_CHECKPOINT := 128 * 1024 * 1024

  // The approved Plan as a pack sees it; its hash stands for all of it.
  datatype Plan = Plan(items: seq<PlanItem>, sourceName: string, hash: Bytes)

  datatype Checkpoint = Checkpoint(planHash: Bytes, partialHash: Bytes, partialLength: nat, nextSequence: nat,
                                   capturedItems: nat, capturedBytes: nat, items: seq<ManifestItem>,
                                   index: seq<IndexEntry>, counts: Counts, observations: map<nat, Option<Observation>>)

  // A checkpoint file: it opens only under the key and the header hash it was sealed with.
  datatype SealedCheckpoint = SealedCheckpoint(key: Bytes, headerHash: Bytes, checkpoint: Checkpoint)

  function CheckpointKey(s: Session): Bytes {
    Derive("checkpoint", [s.material.dataKey, s.material.salt, s.material.identifier])
  }

  // Checkpoints of different Bundles have different keys, and no record has such a key.
  lemma CheckpointKeysApart(s: Session, t: Session, kind: Byte)
    ensures CheckpointKey(s) == CheckpointKey(t) <==>
              s.material.(noncePrefix := []) == t.material.(noncePrefix := [])
    ensures RecordKey(s, kind) != CheckpointKey(t)
  {
    var p, q := [s.material.dataKey, s.material.salt, s.material.identifier],
                [t.material.dataKey, t.material.salt, t.material.identifier];
    DerivationIsInjective("checkpoint", p, "checkpoint", q);
    DerivationIsInjective(Purpose(kind), p, "checkpoint", q);
    if p == q {
      assert p[0] == q[0] && p[1] == q[1] && p[2] == q[2];
    }
  }

  // What the environment does during one run: how long its operations succeed, what observing
  // the items shows when the run resumes and when it pauses, how the source behaves in between,
  // after which items cancellation is requested, and how long the encoded manifest and
  // checkpoint are.
  datatype Run = Run(power: nat, now: seq<Option<Observation>>, sources: seq<ItemSource>, cancelled: set<nat>,
                     seen: seq<Option<Observation>>, manifestSize: nat, checkpointSize: nat)

  ghost predicate Fits(plan: Plan, run: Run) {
    && |plan.items| < U32 && |run.sources| == |run.seen| == |run.now| == |plan.items| && 0 < run.manifestSize
    && forall i | 0 <= i < |plan.items| :: Behaves(run.sources[i])
  }

  // The source is stable: whatever is captured of an item in this run is what its facts say.
  ghost predicate Shows(run: Run, plan: Plan, facts: seq<Facts>) {
    && |facts| == |plan.items| == |run.sources|
    && forall i | 0 <= i < |facts| :: FactsOf(plan.items[i], run.sources[i]).Some?
         ==> FactsOf(plan.items[i], run.sources[i]).value == facts[i]
  }

  datatype PackState = Failed | Paused(file: Bytes, checkpoint: SealedCheckpoint) | Complete(bundle: Bytes)

  // ---- What a pack promises ----

  function ManifestOf(plan: Plan, size: nat, c: Counts, items: seq<ManifestItem>): Manifest {
    Manifest("MNF2", 2, plan.sourceName, plan.hash, size, c.included, c.changed, c.unsupported, c.unverified, items)
  }

  ghost predicate CompletedWith(plan: Plan, facts: seq<Facts>, h: Header, file: Bytes, groups: Groups,
                                items: seq<ManifestItem>, size: nat, next: nat)
    requires |plan.items| == |facts| && FitsHeader(h)
  {
    && |items| == |plan.items| && CapturedAs(plan.items, facts, items, groups)
    && CanComplete(Chunks(groups), size, next)
    && file == CompleteFile(SessionFor(h), EncodeHeader(h), Chunks(groups),
                            ManifestOf(plan, ContentSize(groups), Tally(plan.items, facts), items), size, next)
  }

  // A completed Bundle: some pieces hold each item's content, and the file is made of them.
  ghost predicate CompletedAs(plan: Plan, facts: seq<Facts>, h: Header, file: Bytes) {
    && |plan.items| == |facts| && FitsHeader(h)
    && exists groups, items, size, next :: CompletedWith(plan, facts, h, file, groups, items, size, next)
  }

  ghost predicate SavedWith(plan: Plan, facts: seq<Facts>, h: Header, file: Bytes, c: Checkpoint, groups: Groups)
    requires |plan.items| == |facts| && FitsHeader(h)
  {
    && Written(SessionFor(h), EncodeHeader(h), groups, file, |Chunks(groups)|, c.index, c.nextSequence)
    && CapturedAs(plan.items, facts, c.items, groups) && c.capturedBytes == ContentSize(groups) < U64
    && c.counts == Tally(plan.items[..|c.items|], facts[..|c.items|])
    && c.planHash == plan.hash && c.partialHash == Hash(file) && c.partialLength == |file|
    && c.capturedItems == |c.items|
    && Watched(c.observations, plan.items, facts, |c.items|)
  }

  // Every selected file has an observation; none or some, for those captured, as they were.
  ghost predicate Watched(observations: map<nat, Option<Observation>>, plan: seq<PlanItem>, facts: seq<Facts>, n: nat)
    requires n <= |plan| <= |facts|
  {
    && (forall i: nat | i in observations :: i < |plan| && IsSelectedFile(plan[i]))
    && (forall i: nat | i < |plan| && IsSelectedFile(plan[i]) :: i in observations)
    && (forall i: nat | i < n && IsSelectedFile(plan[i]) :: observations[i].Some? <==> facts[i].content.Some?)
  }

  // A paused pack: the file holds the pieces of the first items, and the checkpoint says so.
  ghost predicate PausedAs(plan: Plan, facts: seq<Facts>, h: Header, file: Bytes, saved: SealedCheckpoint) {
    && |plan.items| == |facts| && FitsHeader(h)
    && saved.key == CheckpointKey(SessionFor(h)) && saved.headerHash == Hash(EncodeHeader(h))
    && exists groups :: SavedWith(plan, facts, h, file, saved.checkpoint, groups)
  }

  // ---- Completing ----

  // Writes a record that belongs to no item under the next sequence.
  method WriteOwnRecord(run: PackRun, kind: Byte, plaintext: Bytes) returns (ok: bool)
    requires run.Open()
    modifies run`sequence, run.writer, run.media
    ensures Increasing(run.media.used) && (!ok ==> |plaintext| + TAG >= U32 || run.media.Ended())
    ensures ok ==> run.Open() && run.sequence == old(run.sequence) + 1 && |plaintext| + TAG < U32
    ensures ok ==> run.media.power == old(run.media.power) - 2
    ensures ok ==> run.writer.recordCount == old(run.writer.recordCount) + 1
    ensures ok ==> run.writer.file == old(run.writer.file)
                      + SealRecord(run.session, kind, old(run.sequence), NO_ORDINAL, NO_ORDINAL, plaintext)
  {
    var length := run.writer.WriteRecord(kind, run.sequence, NO_ORDINAL, NO_ORDINAL, plaintext);
    ok := length.Some? && run.sequence + 1 < U64;
    if ok {
      run.sequence := run.sequence + 1;
    }
  }

  // The manifest is longer than its record may be, more records have been written than an index
  // can list, or writing fails.
  ghost predicate TrailerFails(media: Media, size: nat)
    reads media
  {
    size > MAX_MANIFEST || 8 + 32 * |media.used| > MAX_INDEX || media.Ended()
  }

  method WriteManifest(run: PackRun, m: Manifest, size: nat) returns (ok: bool)
    requires run.Open() && 0 < size
    modifies run`sequence, run.writer, run.media
    ensures Increasing(run.media.used) && (!ok ==> TrailerFails(run.media, size))
    ensures ok ==> run.Open() && run.sequence == old(run.sequence) + 1 && size <= MAX_MANIFEST
    ensures ok ==> run.media.power == old(run.media.power) - 2
    ensures ok ==> run.writer.recordCount == old(run.writer.recordCount) + 1
    ensures ok ==> run.writer.file == old(run.writer.file) + ManifestRecord(run.session, m, size, old(run.sequence))
  {
    ok := size <= MAX_MANIFEST;
    if ok {
      ok := WriteOwnRecord(run, MANIFEST, EncodeManifest(m, size));
    }
  }

  method WriteIndex(run: PackRun, size: nat) returns (ok: bool)
    requires run.Open() && FitEntries(run.index) && |run.index| <= run.sequence
    modifies run`sequence, run.writer, run.media
    ensures Increasing(run.media.used) && (!ok ==> TrailerFails(run.media, size))
    ensures ok ==> run.Open() && run.sequence == old(run.sequence) + 1 && IndexFits(run.index)
    ensures ok ==> run.media.power == old(run.media.power) - 2
    ensures ok ==> run.writer.recordCount == old(run.writer.recordCount) + 1
    ensures ok ==> run.writer.file == old(run.writer.file) + IndexRecord(run.session, run.index, old(run.sequence))
  {
    var index := EncodeIndex(run.index);
    ok := index.Ok?;
    if ok {
      IndexParts(index.value, run.index);
      ok := WriteOwnRecord(run, INDEX, index.value);
    }
  }

  method WriteManifestThenIndex(run: PackRun, m: Manifest, size: nat) returns (ok: bool)
    requires run.Open() && FitEntries(run.index) && |run.index| <= run.sequence && 0 < size
    modifies run`sequence, run.writer, run.media
    ensures Increasing(run.media.used) && (!ok ==> TrailerFails(run.media, size))
    ensures ok ==> run.Open() && run.sequence == old(run.sequence) + 2 && size <= MAX_MANIFEST && IndexFits(run.index)
    ensures ok ==> run.media.power == old(run.media.power) - 4
    ensures ok ==> run.writer.recordCount == old(run.writer.recordCount) + 2
    ensures ok ==> run.writer.file == (old(run.writer.file) + ManifestRecord(run.session, m, size, old(run.sequence)))
                                      + IndexRecord(run.session, run.index, old(run.sequence) + 1)
  {
    ok := WriteManifest(run, m, size);
    if ok {
      ok := WriteIndex(run, size);
    }
  }

  // Every entry of the index is for a record of its own.
  lemma IndexWithinRecords(run: PackRun)
    requires run.Holding()
    ensures run.writer.recordCount == |run.index| <= run.sequence && FitEntries(run.index)
  {
    var chunks := Chunks(run.groups);
    EntriesFit(chunks, HEADER_LENGTH);
    if chunks != [] {
      SequencesGrow(chunks, |chunks| - 1);
    }
  }

  lemma {:induction false} SequencesGrow(chunks: seq<Chunk>, k: nat)
    requires WellFormed(chunks) && k < |chunks|
    ensures chunks[k].sequence >= k
  {
    if k > 0 {
      SequencesGrow(chunks, k - 1);
    }
  }

  method WriteCompletion(run: PackRun, count: nat, manifestSequence: nat) returns (ok: bool)
    requires run.Open() && run.sequence == manifestSequence + 2 && count == run.writer.recordCount < U64
    modifies run.writer, run.media
    ensures Increasing(run.media.used) && (!ok ==> run.media.Ended())
    ensures ok ==> run.writer.file == old(run.writer.file)
                      + CompletionRecord(run.session, old(run.writer.file), count, manifestSequence)
    ensures ok ==> run.media.power == old(run.media.power) - 2
  {
    ghost var covered := run.writer.file;
    var completion := EncodeCompletion(Hash(run.writer.file), count, manifestSequence, manifestSequence + 1);
    assert CompletionRecord(run.session, covered, count, manifestSequence)
        == SealRecord(run.session, COMPLETION, run.sequence, NO_ORDINAL, NO_ORDINAL, completion);
    var length := run.writer.WriteRecord(COMPLETION, run.sequence, NO_ORDINAL, NO_ORDINAL, completion);
    ok := length.Some?;
  }

  // What the three records after the items' make of a file.
  ghost function WithTrailer(s: Session, file: Bytes, index: seq<IndexEntry>, count: nat, m: Manifest, size: nat,
                             next: nat): Bytes
    requires size <= MAX_MANIFEST && next + 2 < U64 && FitEntries(index) && IndexFits(index) && count + 2 < U64
  {
    var covered := (file + ManifestRecord(s, m, size, next)) + IndexRecord(s, index, next + 1);
    covered + CompletionRecord(s, covered, count + 2, next)
  }

  method WriteTrailer(run: PackRun, m: Manifest, size: nat) returns (ok: bool)
    requires run.Open() && FitEntries(run.index) && 0 < size
    requires |run.index| <= run.sequence && run.writer.recordCount <= run.sequence
    modifies run`sequence, run.writer, run.media
    ensures Increasing(run.media.used) && (!ok ==> TrailerFails(run.media, size))
    ensures ok ==> size <= MAX_MANIFEST && IndexFits(run.index) && old(run.sequence) + 2 < U64
    ensures ok ==> run.media.power == old(run.media.power) - 6
    ensures ok ==>
              run.writer.file == WithTrailer(run.session, old(run.writer.file), run.index, old(run.writer.recordCount),
                                                  m, size, old(run.sequence))
  {
    var manifestSequence := run.sequence;
    ok := WriteManifestThenIndex(run, m, size);
    if ok {
      ok := WriteCompletion(run, run.writer.recordCount, manifestSequence);
    }
  }

  // ---- Pausing ----

  // The kept observations, and for every selected file without one what is seen of it now.
  ghost predicate FilledIn(filled: map<nat, Option<Observation>>, plan: seq<PlanItem>, n: nat,
                           kept: map<nat, Option<Observation>>, seen: seq<Option<Observation>>)
    requires n <= |plan| == |seen|
  {
    && (forall i: nat :: i in filled <==> i in kept || (i < n && IsSelectedFile(plan[i])))
    && (forall i: nat | i in filled :: filled[i] == if i in kept then kept[i] else seen[i])
  }

  method FillObservations(plan: seq<PlanItem>, kept: map<nat, Option<Observation>>, seen: seq<Option<Observation>>)
    returns (filled: map<nat, Option<Observation>>)
    requires |plan| == |seen|
    ensures FilledIn(filled, plan, |plan|, kept, seen)
  {
    filled := kept;
    var i := 0;
    while i < |plan|
      invariant i <= |plan| && FilledIn(filled, plan, i, kept, seen)
    {
      if IsSelectedFile(plan[i]) && i !in filled {
        filled := filled[i := seen[i]];
      }
      i := i + 1;
    }
  }

  method WriteCheckpoint(run: PackRun, plan: Plan, seen: seq<Option<Observation>>, encodedSize: nat)
    returns (r: Option<SealedCheckpoint>)
    requires run.writer.Valid() && |seen| == |plan.items|
    modifies run.media`power
    ensures r.None? ==> run.media.power == 0 || encodedSize > MAX_PACK_CHECKPOINT
    ensures r.Some? ==> run.media.power == old(run.media.power) - 2 && encodedSize <= MAX_PACK_CHECKPOINT
    ensures r.Some? ==> r.value.key == CheckpointKey(run.session) && r.value.headerHash == run.session.headerHash
    ensures r.Some? ==> var c := r.value.checkpoint;
      && c == Checkpoint(plan.hash, Hash(run.writer.file), |run.writer.file|, run.sequence, |run.items|,
                         run.logicalSize,
                         run.items, run.index, run.counts, c.observations)
      && FilledIn(c.observations, plan.items, |plan.items|, run.observations, seen)
  {
    var synchronized := run.media.Allow();
    var observations := FillObservations(plan.items, run.observations, seen);
    var written := run.media.Allow();
    if !synchronized || encodedSize > MAX_PACK_CHECKPOINT || !written {
      return None;
    }
    r := Some(SealedCheckpoint(CheckpointKey(run.session), run.session.headerHash,
                Checkpoint(plan.hash, Hash(run.writer.file), run.writer.offset, run.sequence, |run.items|,
                           run.logicalSize,
                           run.items, run.index, run.counts, observations)));
  }

  // ---- One run ----

  // What a run has used up: the operations left to it, the bytes it has written or should have,
  // and the sequences it has encrypted records under.
  datatype Spent = Spent(left: nat, asked: nat, used: seq<nat>)

  ghost function SpentOn(media: Media): Spent
    reads media
  {
    Spent(media.power, media.asked, media.used)
  }

  // What can make a run fail: an operation, a read of the source, or a limit of the format.
  ghost predicate MayFail(spent: Spent, plan: Plan, input: Run) {
    || spent.left == 0 || spent.asked >= U64 || 8 + 32 * |spent.used| > MAX_INDEX
    || SomeUnreadable(plan.items, input.sources)
    || input.manifestSize > MAX_MANIFEST || input.checkpointSize > MAX_PACK_CHECKPOINT
  }

  // It fails only for such a reason, and pauses only where it is asked to.
  ghost predicate EndsFor(state: PackState, spent: Spent, plan: Plan, input: Run, before: nat) {
    && (state.Failed? ==> MayFail(spent, plan, input))
    && (state.Paused? ==> StopsWhereAsked(input.cancelled, before, |state.checkpoint.checkpoint.items|, true))
    && (state.Complete? ==> StopsWhereAsked(input.cancelled, before, |plan.items|, false))
    && (state.Paused? ==> input.checkpointSize <= MAX_PACK_CHECKPOINT)
    && (state.Complete? ==> input.manifestSize <= MAX_MANIFEST)
  }

  // What a run that had captured `before` items may end in.
  ghost predicate EndsWell(state: PackState, plan: Plan, facts: seq<Facts>, h: Header, before: nat) {
    match state
    case Failed => true
    case Complete(bundle) => CompletedAs(plan, facts, h, bundle)
    case Paused(file, saved) => PausedAs(plan, facts, h, file, saved) && |saved.checkpoint.items| > before
  }

  ghost predicate Belongs(run: PackRun, h: Header) {
    FitsHeader(h) && run.session == SessionFor(h) && run.header == EncodeHeader(h)
  }

  lemma SavedNow(run: PackRun, plan: Plan, facts: seq<Facts>, h: Header, c: Checkpoint, seen: seq<Option<Observation>>)
    requires |facts| == |plan.items| == |seen| && run.Tracks(plan.items, facts) && Belongs(run, h)
    requires c == Checkpoint(plan.hash, Hash(run.writer.file), |run.writer.file|, run.sequence, |run.items|,
                             run.logicalSize,
                             run.items, run.index, run.counts, c.observations)
    requires FilledIn(c.observations, plan.items, |plan.items|, run.observations, seen)
    ensures SavedWith(plan, facts, h, run.writer.file, c, run.groups)
  {
  }

  method PauseRun(run: PackRun, plan: Plan, input: Run, ghost facts: seq<Facts>, ghost h: Header, ghost before: nat)
    returns (state: PackState)
    requires StopsWhereAsked(input.cancelled, before, |run.items|, true)
    requires Fits(plan, input) && |facts| == |plan.items| && run.Tracks(plan.items, facts) && Belongs(run, h)
    modifies run.media`power
    ensures !state.Complete? && EndsWell(state, plan, facts, h, before)
    ensures EndsFor(state, SpentOn(run.media), plan, input, before)
  {
    var checkpoint := WriteCheckpoint(run, plan, input.seen, input.checkpointSize);
    if checkpoint.None? {
      return Failed;
    }
    SavedNow(run, plan, facts, h, checkpoint.value.checkpoint, input.seen);
    state := Paused(run.writer.file, checkpoint.value);
  }

  // The trailer, then the move to the Bundle's own name.
  method PublishBundle(run: PackRun, m: Manifest, size: nat, ghost plan: Plan, ghost input: Run) returns (ok: bool)
    requires run.Open() && FitEntries(run.index) && 0 < size == input.manifestSize
    requires |run.index| <= run.sequence && run.writer.recordCount <= run.sequence
    modifies run`sequence, run.writer, run.media
    ensures Increasing(run.media.used) && (!ok ==> MayFail(SpentOn(run.media), plan, input))
    ensures ok ==> size <= MAX_MANIFEST && IndexFits(run.index) && old(run.sequence) + 2 < U64
    ensures ok ==> run.media.power == old(run.media.power) - 7
    ensures ok ==>
              run.writer.file == WithTrailer(run.session, old(run.writer.file), run.index, old(run.writer.recordCount),
                                                  m, size, old(run.sequence))
  {
    ok := WriteTrailer(run, m, size);
    if ok {
      ok := run.media.Allow();
    }
  }

  method CompleteRun(run: PackRun, plan: Plan, input: Run, ghost facts: seq<Facts>, ghost h: Header, ghost before: nat)
    returns (state: PackState)
    requires Fits(plan, input) && |facts| == |plan.items| && run.Tracks(plan.items, facts) && Belongs(run, h)
    requires |run.items| == |plan.items| && StopsWhereAsked(input.cancelled, before, |run.items|, false)
    modifies run`sequence, run.writer, run.media
    ensures Increasing(run.media.used) && !state.Paused? && EndsWell(state, plan, facts, h, before)
    ensures EndsFor(state, SpentOn(run.media), plan, input, before)
  {
    var m := ManifestOf(plan, run.logicalSize, run.counts, run.items);
    ghost var next, file, count := run.sequence, run.writer.file, run.writer.recordCount;
    IndexWithinRecords(run);
    var ok := PublishBundle(run, m, input.manifestSize, plan, input);
    state := Failed;
    if ok {
      IsCompleted(plan, facts, h, run.items, run.groups, run.counts, run.logicalSize, file, count, run.index, next, m,
                  input.manifestSize, run.writer.file);
      state := Complete(run.writer.file);
    }
  }

  lemma {:induction false} IsCompleted(plan: Plan, facts: seq<Facts>, h: Header, items: seq<ManifestItem>,
                                       groups: Groups, counts: Counts, logicalSize: nat, file: Bytes, count: nat,
                                       index: seq<IndexEntry>, next: nat, m: Manifest, size: nat, bundle: Bytes)
    requires |plan.items| == |facts| == |items| && FitsHeader(h) && 0 < size <= MAX_MANIFEST
    requires Recorded(plan.items, facts, items, groups, counts, logicalSize)
    requires m == ManifestOf(plan, logicalSize, counts, items)
    requires Written(SessionFor(h), EncodeHeader(h), groups, file, count, index, next)
    requires next + 2 < U64 && count + 2 < U64
    requires FitEntries(index) && IndexFits(index)
    requires bundle == WithTrailer(SessionFor(h), file, index, count, m, size, next)
    ensures CompletedAs(plan, facts, h, bundle)
  {
    TrailerCompletes(SessionFor(h), EncodeHeader(h), groups, file, count, index, next, m, size);
    assert plan.items[..|items|] == plan.items && facts[..|items|] == facts;
    assert CompletedWith(plan, facts, h, bundle, groups, items, size, next);
  }

  lemma {:induction false} TrailerCompletes(s: Session, header: Bytes, groups: Groups, file: Bytes, count: nat,
                                            index: seq<IndexEntry>, next: nat, m: Manifest, size: nat)
    requires Written(s, header, groups, file, count, index, next) && ContentSize(groups) < U64
    requires 0 < size <= MAX_MANIFEST && next + 2 < U64 && count + 2 < U64 && FitEntries(index) && IndexFits(index)
    ensures CanComplete(Chunks(groups), size, next)
    ensures WithTrailer(s, file, index, count, m, size, next) == CompleteFile(s, header, Chunks(groups), m, size, next)
  {
    CapturedSize(groups);
  }

  method EndRun(run: PackRun, plan: Plan, input: Run, paused: bool, ghost facts: seq<Facts>, ghost h: Header,
                ghost before: nat)
    returns (state: PackState)
    requires Fits(plan, input) && |facts| == |plan.items| && run.Tracks(plan.items, facts) && Belongs(run, h)
    requires StopsWhereAsked(input.cancelled, before, |run.items|, paused) && (!paused ==> |run.items| == |plan.items|)
    modifies run`sequence, run.writer, run.media
    ensures Increasing(run.media.used) && EndsWell(state, plan, facts, h, before)
    ensures EndsFor(state, SpentOn(run.media), plan, input, before)
  {
    if paused {
      state := PauseRun(run, plan, input, facts, h, before);
    } else {
      state := CompleteRun(run, plan, input, facts, h, before);
    }
  }

  // From a run that has captured some items: capture the rest, then complete or pause.
  method FinishRun(run: PackRun, plan: Plan, input: Run, ghost facts: seq<Facts>, ghost h: Header, ghost before: nat)
    returns (state: PackState)
    requires Fits(plan, input) && Shows(input, plan, facts) && run.Tracks(plan.items, facts) && Belongs(run, h)
    requires before == |run.items|
    modifies run, run.writer, run.media
    ensures Increasing(run.media.used) && EndsWell(state, plan, facts, h, before)
    ensures EndsFor(state, SpentOn(run.media), plan, input, before)
  {
    var ok, paused := run.CaptureItems(plan.items, input.sources, input.cancelled, facts);
    state := Failed;
    if ok {
      state := EndRun(run, plan, input, paused, facts, h, before);
    }
  }

  // A first run: a new file with its header, then the items.
  method PackFresh(plan: Plan, input: Run, h: Header, ghost facts: seq<Facts>)
    returns (state: PackState, media: Media)
    requires Fits(plan, input) && Shows(input, plan, facts) && FitsHeader(h)
    ensures fresh(media) && media.granted == input.power && Increasing(media.used)
    ensures EndsWell(state, plan, facts, h, 0) && EndsFor(state, SpentOn(media), plan, input, 0)
  {
    var header := EncodeHeader(h);
    var session := SessionOf(header, Opened(h.dataKey, h.identifier, h.salt, h.noncePrefix));
    media := new Media(input.power);
    var writer := new StreamWriter(media, session);
    var ok := writer.WriteHashed(header);
    if !ok {
      return Failed, media;
    }
    var run := new PackRun(media, session, header, writer);
    StartsEmpty(session, header);
    assert writer.file == header;
    assert run.Holding();
    assert run.Tracks(plan.items, facts);
    state := FinishRun(run, plan, input, facts, h, 0);
  }

  lemma StartsEmpty(s: Session, header: Bytes)
    requires |header| == HEADER_LENGTH
    ensures Written(s, header, [], header, 0, [], 0)
  {
    assert RecordsBytes(s, []) == [];
  }
}
