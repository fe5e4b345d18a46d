// Sealing a saved prefix again: every saved record is read as its index entry says and written
// under the run's fresh keys with a dense sequence, and offsets and items are rewritten.
module BundleRekey {
  import opened Outcomes
  import opened Cells
  import opened Records
  import opened PublicHeader
  import opened BundleReader
  import opened BundleContents
  import opened CapturedItems
  import opened PackSource
  import opened BundleAppend
  import opened BundleWriter
  import opened BundlePack
  import opened Renumbering

  // ---- Reading a saved record ----

  datatype Saved = Saved(plaintext: Bytes, end: nat)

  // The record at `offset`, if it is the one its saved index entry says.
  function ReadSaved(s: Session, file: Bytes, e: IndexEntry, offset: nat, previous: Option<nat>,
                     next: nat): (r: Option<Saved>)
    requires offset <= |file|
    ensures r.Some? ==> offset < r.value.end <= |file|
  {
    var found := FindRecord(file, offset, previous);
    if e.offset != offset || found.Err? then None
    else
      var f := found.value;
      var h := f.header;
      if h.kind != CONTENT
         || e != IndexEntry(h.sequence, h.item, h.chunk, offset, h.plaintextLength, h.ciphertextLength)
         || h.sequence >= next then None
      else
        var plaintext := OpenRecord(s, h, f.raw, f.ciphertext);
        if plaintext.None? then None else Some(Saved(plaintext.value, f.end))
  }

  lemma SavedFits(s: Session, file: Bytes, e: IndexEntry, offset: nat, previous: Option<nat>, next: nat)
    requires offset <= |file| && ReadSaved(s, file, e, offset, previous, next).Some?
    ensures var r := ReadSaved(s, file, e, offset, previous, next).value;
      && FitsChunk(Chunk(e.sequence, e.item, e.chunk, r.plaintext)) && |r.plaintext| == e.plaintextLength
      && e.ciphertextLength == e.plaintextLength + TAG
  {
    var f := FindRecord(file, offset, previous).value;
    var plaintext := OpenRecord(s, f.header, f.raw, f.ciphertext).value;
    DecodedHeaderEncodes(f.raw);
    DecryptsExactly(RecordKey(s, f.header.kind), RecordNonce(s, f.header.sequence), RecordAad(s, f.raw), f.ciphertext,
                    plaintext);
  }

  lemma {:induction false} SavedChunkReads(s: Session, file: Bytes, start: nat, chunks: seq<Chunk>, k: nat, next: nat,
                                           previous: Option<nat>)
    requires WellFormed(chunks) && k < |chunks| && start <= |file| && RecordsBytes(s, chunks) <= file[start..]
    requires previous == (if k == 0 then None else Some(chunks[k - 1].sequence)) && chunks[|chunks| - 1].sequence < next
    ensures At(chunks, start, k) <= |file|
    ensures ReadSaved(s, file, EntriesOf(chunks, start)[k], At(chunks, start, k), previous, next)
         == Some(Saved(chunks[k].plaintext, At(chunks, start, k + 1)))
  {
    var c, at := chunks[k], At(chunks, start, k);
    RecordIsAt(s, file, start, chunks, k);
    EntryAt(chunks, start, k);
    AtGrows(chunks, start, k);
    assert c.sequence <= chunks[|chunks| - 1].sequence;
    SealedRecordIsFound(s, file, at, previous, CONTENT, c.sequence, c.item, c.chunk, c.plaintext);
    FoundIsSaved(s, file, EntryOf(c, at), at, previous, next, FindRecord(file, at, previous).value, c,
                 At(chunks, start, k + 1));
  }

  lemma FoundIsSaved(s: Session, file: Bytes, e: IndexEntry, at: nat, previous: Option<nat>, next: nat, f: Found,
                     c: Chunk, end: nat)
    requires at <= |file| && FindRecord(file, at, previous) == Ok(f) && c.sequence < U64 && c.sequence < next
    requires f.header == RecordHeader(CONTENT, c.sequence, c.item, c.chunk, |c.plaintext|, |c.plaintext| + TAG)
    requires OpenRecord(s, f.header, f.raw, f.ciphertext) == Some(c.plaintext) && e == EntryOf(c, at) && f.end == end
    ensures ReadSaved(s, file, e, at, previous, next) == Some(Saved(c.plaintext, end))
  {
  }

  // Reads one saved record and seals its plaintext again under the run's keys.
  method RekeyRecord(run: PackRun, earlier: Session, file: Bytes, e: IndexEntry, offset: nat, previous: Option<nat>,
                     next: nat)
    returns (r: Option<Saved>)
    requires run.Open() && offset <= |file| && run.sequence + 1 < U64
    modifies run`sequence, run.writer, run.media
    ensures Increasing(run.media.used)
    ensures r.Some? ==> r == ReadSaved(earlier, file, e, offset, previous, next) && run.Open()
    ensures r.Some? ==> var c := Chunk(old(run.sequence), e.item, e.chunk, r.value.plaintext);
      && FitsChunk(c) && run.writer.file == old(run.writer.file) + ChunkRecord(run.session, c)
      && run.sequence == old(run.sequence) + 1 && run.writer.recordCount == old(run.writer.recordCount) + 1
    ensures r.None? ==> || ReadSaved(earlier, file, e, offset, previous, next).None? || run.media.power == 0
                        || |old(run.writer.file)| + RECORD_HEADER_LENGTH + e.plaintextLength + TAG >= U64
  {
    r := ReadSaved(earlier, file, e, offset, previous, next);
    if r.Some? {
      SavedFits(earlier, file, e, offset, previous, next);
      var length := run.writer.WriteRecord(CONTENT, run.sequence, e.item, e.chunk, r.value.plaintext);
      if length.None? {
        return None;
      }
      run.sequence := run.sequence + 1;
    }
  }

  // ---- Renumbering the saved items ----

  // The saved items, with the first `k` chunks' sequences replaced by their positions.
  ghost predicate RenumberedUpTo(items: seq<ManifestItem>, saved: seq<ManifestItem>, groups: Groups, k: nat) {
    && |items| == |saved| == |groups|
    && forall i | 0 <= i < |items| ::
         && items[i] == saved[i].(chunkSequences := items[i].chunkSequences)
         && |items[i].chunkSequences| == |groups[i]|
         && forall j | 0 <= j < |groups[i]| ::
              items[i].chunkSequences[j] == if Pos(groups, i, j) < k then Pos(groups, i, j) else groups[i][j].sequence
  }

  function WithSequence(items: seq<ManifestItem>, i: nat, j: nat, sequence: nat): seq<ManifestItem>
    requires i < |items| && j < |items[i].chunkSequences|
  {
    items[i := items[i].(chunkSequences := items[i].chunkSequences[j := sequence])]
  }

  lemma {:induction false} ChunkRenumbered(items: seq<ManifestItem>, saved: seq<ManifestItem>, groups: Groups, k: nat)
    requires RenumberedUpTo(items, saved, groups, k) && k < |Chunks(groups)|
    ensures var c := Chunks(groups)[k];
      && c.item < |items| && c.chunk < |items[c.item].chunkSequences|
      && items[c.item].chunkSequences[c.chunk] == c.sequence
      && RenumberedUpTo(WithSequence(items, c.item, c.chunk, k), saved, groups, k + 1)
  {
    var c := Chunks(groups)[k];
    ChunkFrom(groups, k);
    ChunkAt(groups, c.item, c.chunk);
    var after := WithSequence(items, c.item, c.chunk, k);
    forall i, j | 0 <= i < |groups| && 0 <= j < |groups[i]|
      ensures after[i].chunkSequences[j]
           == if Pos(groups, i, j) < k + 1 then Pos(groups, i, j) else groups[i][j].sequence
    {
      if Pos(groups, i, j) == k {
        ChunkAt(groups, i, j);
      }
    }
  }

  lemma {:induction false} AllRenumbered(items: seq<ManifestItem>, saved: seq<ManifestItem>, plan: seq<PlanItem>,
                                         facts: seq<Facts>, groups: Groups, counts: Counts, size: nat)
    requires RenumberedUpTo(items, saved, groups, |Chunks(groups)|)
    requires Recorded(plan, facts, saved, groups, counts, size)
    ensures Recorded(plan, facts, items, Renumbered(groups), counts, size)
  {
    RenumberedContents(groups);
    var renumbered := Renumbered(groups);
    forall i | 0 <= i < |items|
      ensures HoldsContent(facts[i], renumbered[i]) && items[i] == ManifestItemFor(plan[i], facts[i], renumbered[i])
    {
      forall j | 0 <= j < |groups[i]| ensures Pos(groups, i, j) < |Chunks(groups)| {
        ChunkAt(groups, i, j);
      }
      assert items[i].chunkSequences == GroupSequences(renumbered[i]);
      assert saved[i] == ManifestItemFor(plan[i], facts[i], groups[i]);
    }
  }

  // ---- Rekeying the saved prefix ----

  // The new file holds the first `k` chunks, densely numbered, and the new index says so.
  ghost predicate RekeyedUpTo(run: PackRun, chunks: seq<Chunk>, k: nat, index: seq<IndexEntry>)
    requires k <= |chunks|
    reads run, run.writer, run.media
  {
    var dense := Dense(chunks);
    && run.Open() && run.sequence == k && WellFormed(dense) && |run.header| == HEADER_LENGTH
    && run.writer.file == run.header + RecordsBytes(run.session, dense[..k]) && run.writer.recordCount == k
    && index == EntriesOf(dense[..k], HEADER_LENGTH)
  }

  lemma {:induction false} DenseGrows(s: Session, header: Bytes, chunks: seq<Chunk>, k: nat, offset: nat)
    requires WellFormed(chunks) && |chunks| < U64 && k < |chunks| && |header| == HEADER_LENGTH
    requires WellFormed(Dense(chunks)[..k]) && offset == |header + RecordsBytes(s, Dense(chunks)[..k])|
    ensures var dense := Dense(chunks);
      && WellFormed(dense) && WellFormed(dense[..k]) && WellFormed(dense[..k + 1]) && FitsChunk(dense[k])
      && header + RecordsBytes(s, dense[..k + 1]) == (header + RecordsBytes(s, dense[..k])) + ChunkRecord(s, dense[k])
      && EntriesOf(dense[..k + 1], HEADER_LENGTH) == EntriesOf(dense[..k], HEADER_LENGTH) + [EntryOf(dense[k], offset)]
  {
    var dense := Dense(chunks);
    DenseFits(chunks);
    OneMoreRecord(s, dense, k);
    Associative(header, RecordsBytes(s, dense[..k]), ChunkRecord(s, dense[k]));
    OneMoreEntry(dense, HEADER_LENGTH, k, offset);
  }

  lemma {:induction false} OneMoreEntry(chunks: seq<Chunk>, start: nat, k: nat, offset: nat)
    requires k < |chunks| && offset == start + RecordsLength(chunks[..k])
    ensures EntriesOf(chunks[..k + 1], start) == EntriesOf(chunks[..k], start) + [EntryOf(chunks[k], offset)]
  {
    assert chunks[..k + 1][..k] == chunks[..k];
  }

  lemma DenseIsNoLonger(chunks: seq<Chunk>, k: nat)
    requires k < |chunks|
    ensures HEADER_LENGTH + RecordsLength(Dense(chunks)[..k]) + RecordLength(chunks[k])
         == At(chunks, HEADER_LENGTH, k + 1)
  {
    assert Dense(chunks)[..k] == Dense(chunks[..k]);
    DenseLengths(chunks[..k]);
    AtGrows(chunks, HEADER_LENGTH, k);
  }

  method RekeyChunk(run: PackRun, earlier: Session, file: Bytes, e: IndexEntry, offset: nat, previous: Option<nat>,
                    next: nat, index: seq<IndexEntry>, k: nat, ghost chunks: seq<Chunk>)
    returns (r: Option<Saved>, entry: IndexEntry)
    requires WellFormed(chunks) && k < |chunks| && |chunks| < U32 && RekeyedUpTo(run, chunks, k, index)
    requires offset == At(chunks, HEADER_LENGTH, k) <= |file| < U64 && At(chunks, HEADER_LENGTH, k + 1) <= |file|
    requires ReadSaved(earlier, file, e, offset, previous, next)
          == Some(Saved(chunks[k].plaintext, At(chunks, HEADER_LENGTH, k + 1)))
    requires e == EntryOf(chunks[k], offset)
    modifies run`sequence, run.writer, run.media
    ensures Increasing(run.media.used)
    ensures r.Some? ==> r.value == Saved(chunks[k].plaintext, At(chunks, HEADER_LENGTH, k + 1))
    ensures r.Some? ==> RekeyedUpTo(run, chunks, k + 1, index + [entry])
    ensures r.None? ==> run.media.power == 0
  {
    var newOffset := run.writer.offset;
    DenseGrows(run.session, run.header, chunks, k, newOffset);
    DenseIsNoLonger(chunks, k);
    entry := IndexEntry(run.sequence, e.item, e.chunk, newOffset, e.plaintextLength, e.ciphertextLength);
    r := RekeyRecord(run, earlier, file, e, offset, previous, next);
  }

  // The variables of the rekeying loop.
  datatype Progress = Progress(items: seq<ManifestItem>, index: seq<IndexEntry>, offset: nat, previous: Option<nat>,
                               contents: map<nat, Bytes>, bytes: nat)

  // What has been read of the saved chunks: their contents, their size, and where they end.
  ghost predicate ReadUpTo(chunks: seq<Chunk>, k: nat, offset: nat, previous: Option<nat>, contents: map<nat, Bytes>,
                           bytes: nat)
    requires k <= |chunks|
  {
    && offset == At(chunks, HEADER_LENGTH, k) && previous == (if k == 0 then None else Some(chunks[k - 1].sequence))
    && contents == ContentsOf(chunks[..k]) && bytes == TotalBytes(chunks[..k])
  }

  lemma {:induction false} OneMoreRead(chunks: seq<Chunk>, k: nat, offset: nat, previous: Option<nat>,
                                       contents: map<nat, Bytes>, bytes: nat)
    requires k < |chunks| && ReadUpTo(chunks, k, offset, previous, contents, bytes)
    ensures ReadUpTo(chunks, k + 1, At(chunks, HEADER_LENGTH, k + 1), Some(chunks[k].sequence),
                     Appended(contents, chunks[k].item, chunks[k].plaintext), bytes + |chunks[k].plaintext|)
    ensures bytes + |chunks[k].plaintext| <= TotalBytes(chunks)
  {
    assert chunks[..k + 1][..k] == chunks[..k];
    TotalOfFirst(chunks, k);
  }

  ghost predicate SavedFile(earlier: Session, header: Bytes, file: Bytes, c: Checkpoint, groups: Groups) {
    var chunks := Chunks(groups);
    && Written(earlier, header, groups, file, |chunks|, c.index, c.nextSequence) && |chunks| < U32
    && TotalBytes(chunks) < U64
  }

  lemma {:induction false} SavedChunkIsThere(earlier: Session, header: Bytes, file: Bytes, c: Checkpoint,
                                             groups: Groups, k: nat, previous: Option<nat>)
    requires SavedFile(earlier, header, file, c, groups) && k < |Chunks(groups)|
    requires previous == (if k == 0 then None else Some(Chunks(groups)[k - 1].sequence))
    ensures var chunks := Chunks(groups);
      && At(chunks, HEADER_LENGTH, k) <= |file| && At(chunks, HEADER_LENGTH, k + 1) <= |file|
      && c.index[k] == EntryOf(chunks[k], At(chunks, HEADER_LENGTH, k))
      && ReadSaved(earlier, file, c.index[k], At(chunks, HEADER_LENGTH, k), previous, c.nextSequence)
         == Some(Saved(chunks[k].plaintext, At(chunks, HEADER_LENGTH, k + 1)))
  {
    var chunks := Chunks(groups);
    assert file[HEADER_LENGTH..] == RecordsBytes(earlier, chunks);
    EntryAt(chunks, HEADER_LENGTH, k);
    SavedChunkReads(earlier, file, HEADER_LENGTH, chunks, k, c.nextSequence, previous);
  }

  ghost predicate RekeyingAt(run: PackRun, c: Checkpoint, groups: Groups, k: nat, p: Progress)
    requires k <= |Chunks(groups)|
    reads run, run.writer, run.media
  {
    && RekeyedUpTo(run, Chunks(groups), k, p.index) && RenumberedUpTo(p.items, c.items, groups, k)
    && ReadUpTo(Chunks(groups), k, p.offset, p.previous, p.contents, p.bytes)
  }

  method RekeyStep(run: PackRun, earlier: Session, file: Bytes, c: Checkpoint, k: nat, p: Progress,
                   ghost groups: Groups, ghost header: Bytes) returns (r: Option<Progress>)
    requires SavedFile(earlier, header, file, c, groups) && k < |Chunks(groups)| && RekeyingAt(run, c, groups, k, p)
    modifies run`sequence, run.writer, run.media
    ensures Increasing(run.media.used)
    ensures r.Some? ==> RekeyingAt(run, c, groups, k + 1, r.value)
    ensures r.None? ==> run.media.power == 0
  {
    var e, items := c.index[k], p.items;
    SavedChunkIsThere(earlier, header, file, c, groups, k, p.previous);
    ChunkRenumbered(items, c.items, groups, k);
    OneMoreRead(Chunks(groups), k, p.offset, p.previous, p.contents, p.bytes);
    r := None;
    if e.item < |items| && e.chunk < |items[e.item].chunkSequences|
       && items[e.item].chunkSequences[e.chunk] == e.sequence {
      var read, entry := RekeyChunk(run, earlier, file, e, p.offset, p.previous, c.nextSequence, p.index, k,
                                    Chunks(groups));
      if read.Some? {
        var plaintext := read.value.plaintext;
        r := Some(Progress(WithSequence(items, e.item, e.chunk, k), p.index + [entry], read.value.end, Some(e.sequence),
                           Appended(p.contents, e.item, plaintext), p.bytes + |plaintext|));
      }
    }
  }

  method RekeyRecords(run: PackRun, earlier: Session, file: Bytes, c: Checkpoint, ghost groups: Groups,
                      ghost header: Bytes)
    returns (r: Option<Progress>)
    requires SavedFile(earlier, header, file, c, groups)
    requires RekeyedUpTo(run, Chunks(groups), 0, []) && RenumberedUpTo(c.items, c.items, groups, 0)
    modifies run`sequence, run.writer, run.media
    ensures Increasing(run.media.used)
    ensures r.Some? ==> RekeyingAt(run, c, groups, |Chunks(groups)|, r.value)
    ensures r.None? ==> run.media.power == 0
  {
    var p := Progress(c.items, [], HEADER_LENGTH, None, map[], 0);
    assert Chunks(groups)[..0] == [];
    var k := 0;
    while k < |c.index|
      invariant k <= |c.index| == |Chunks(groups)| && RekeyingAt(run, c, groups, k, p)
    {
      var next := RekeyStep(run, earlier, file, c, k, p, groups, header);
      if next.None? {
        return None;
      }
      p, k := next.value, k + 1;
    }
    r := Some(p);
  }

  ghost predicate HashesHold(items: seq<ManifestItem>, contents: map<nat, Bytes>) {
    forall i | 0 <= i < |items| && items[i].contentHash.Some? ::
      i in contents && items[i].contentHash.value == Hash(contents[i])
  }

  method CheckContents(items: seq<ManifestItem>, contents: map<nat, Bytes>) returns (ok: bool)
    ensures ok <==> HashesHold(items, contents)
  {
    var i := 0;
    while i < |items|
      invariant i <= |items| && HashesHold(items[..i], contents)
    {
      if items[i].contentHash.Some? && (i !in contents || items[i].contentHash.value != Hash(contents[i])) {
        return false;
      }
      i := i + 1;
    }
    assert items[..|items|] == items;
    ok := true;
  }

  lemma {:induction false} SavedContentsHold(plan: seq<PlanItem>, facts: seq<Facts>, saved: seq<ManifestItem>,
                                             items: seq<ManifestItem>, groups: Groups)
    requires CapturedAs(plan, facts, saved, groups) && RenumberedUpTo(items, saved, groups, |Chunks(groups)|)
    ensures HashesHold(items, ContentsOf(Chunks(groups)))
  {
    CapturedContents(groups);
    forall i | 0 <= i < |items| && items[i].contentHash.Some?
      ensures i in ContentsOf(Chunks(groups)) && items[i].contentHash.value == Hash(ContentsOf(Chunks(groups))[i])
    {
      assert saved[i] == ManifestItemFor(plan[i], facts[i], groups[i]) && HoldsContent(facts[i], groups[i]);
      assert ContentIs(ContentsOf(Chunks(groups)), groups, i);
    }
  }

  lemma {:induction false} RekeyedHolds(run: PackRun, groups: Groups, index: seq<IndexEntry>)
    requires RekeyedUpTo(run, Chunks(groups), |Chunks(groups)|, index)
    ensures Written(run.session, run.header, Renumbered(groups), run.writer.file, run.writer.recordCount, index,
                    run.sequence)
  {
    RenumberedChunks(groups);
    assert Dense(Chunks(groups))[..|Chunks(groups)|] == Dense(Chunks(groups));
  }

  lemma {:induction false} WholeFileRead(plan: Plan, facts: seq<Facts>, h: Header, file: Bytes, c: Checkpoint,
                                         groups: Groups, p: Progress, n: nat)
    requires |plan.items| == |facts| && FitsHeader(h)
    requires SavedWith(plan, facts, h, file, c, groups) && n == |Chunks(groups)|
    requires ReadUpTo(Chunks(groups), n, p.offset, p.previous, p.contents, p.bytes)
    ensures p.offset == c.partialLength <= |file|
    ensures Hash(file[..p.offset]) == c.partialHash && p.bytes == c.capturedBytes
    ensures p.contents == ContentsOf(Chunks(groups))
  {
    CapturedSize(groups);
    AllRead(SessionFor(h), EncodeHeader(h), Chunks(groups), file, n, p);
    assert file[..|file|] == file;
  }

  lemma {:induction false} AllRead(s: Session, header: Bytes, chunks: seq<Chunk>, file: Bytes, n: nat, p: Progress)
    requires |header| == HEADER_LENGTH && WellFormed(chunks) && file == PartialFile(s, header, chunks) && n == |chunks|
    requires ReadUpTo(chunks, n, p.offset, p.previous, p.contents, p.bytes)
    ensures p.offset == |file| && p.contents == ContentsOf(chunks) && p.bytes == TotalBytes(chunks)
  {
    assert chunks[..n] == chunks;
  }

  // The checks after the last record.
  ghost predicate PrefixChecks(p: Progress, file: Bytes, c: Checkpoint)
    requires p.offset <= |file|
  {
    && p.offset == c.partialLength && Hash(file[..p.offset]) == c.partialHash && p.bytes == c.capturedBytes
    && HashesHold(p.items, p.contents)
  }

  method CheckPrefix(p: Progress, file: Bytes, c: Checkpoint) returns (ok: bool)
    requires p.offset <= |file|
    ensures ok <==> PrefixChecks(p, file, c)
  {
    ok := CheckContents(p.items, p.contents);
    ok := ok && p.offset == c.partialLength && Hash(file[..p.offset]) == c.partialHash && p.bytes == c.capturedBytes;
  }

  lemma {:induction false} SavedPasses(p: Progress, file: Bytes, c: Checkpoint, plan: Plan, facts: seq<Facts>,
                                       h: Header, groups: Groups)
    requires |plan.items| == |facts| && FitsHeader(h) && SavedWith(plan, facts, h, file, c, groups)
    requires ReadUpTo(Chunks(groups), |Chunks(groups)|, p.offset, p.previous, p.contents, p.bytes)
    requires RenumberedUpTo(p.items, c.items, groups, |Chunks(groups)|)
    ensures p.offset <= |file| && PrefixChecks(p, file, c)
  {
    WholeFileRead(plan, facts, h, file, c, groups, p, |Chunks(groups)|);
    SavedContentsHold(plan.items, facts, c.items, p.items, groups);
  }

  // Takes over what a checkpoint saved, with the rekeyed index and items.
  method TakeOver(run: PackRun, p: Progress, c: Checkpoint, ghost plan: Plan, ghost facts: seq<Facts>,
                  ghost groups: Groups)
    requires |plan.items| == |facts| < U32 && RekeyingAt(run, c, groups, |Chunks(groups)|, p)
    requires Recorded(plan.items, facts, c.items, groups, c.counts, c.capturedBytes)
    requires Watched(c.observations, plan.items, facts, |c.items|)
    modifies run
    ensures run.Tracks(plan.items, facts) && |run.items| == |c.items|
  {
    RekeyedHolds(run, groups, p.index);
    AllRenumbered(p.items, c.items, plan.items, facts, groups, c.counts, c.capturedBytes);
    run.Adopt(p.index, p.items, c.capturedBytes, c.counts, c.observations, Renumbered(groups), plan.items, facts);
  }

  lemma SavedParts(plan: Plan, facts: seq<Facts>, h: Header, file: Bytes, c: Checkpoint, groups: Groups)
    requires |plan.items| == |facts| && FitsHeader(h) && IndexFits(c.index)
    requires SavedWith(plan, facts, h, file, c, groups)
    ensures SavedFile(SessionFor(h), EncodeHeader(h), file, c, groups)
    ensures Recorded(plan.items, facts, c.items, groups, c.counts, c.capturedBytes)
    ensures RenumberedUpTo(c.items, c.items, groups, 0)
  {
    CapturedSize(groups);
  }

  // Seals a saved prefix again under the run's fresh keys. Nothing a run has saved is refused:
  // this fails only when the output does.
  method RekeyPrefix(run: PackRun, earlier: Session, file: Bytes, c: Checkpoint, ghost plan: Plan,
                     ghost facts: seq<Facts>, ghost h: Header, ghost groups: Groups) returns (ok: bool)
    requires |plan.items| == |facts| < U32 && FitsHeader(h) && earlier == SessionFor(h) && IndexFits(c.index)
    requires SavedWith(plan, facts, h, file, c, groups) && RekeyedUpTo(run, Chunks(groups), 0, [])
    modifies run, run.writer, run.media
    ensures Increasing(run.media.used)
    ensures ok ==> run.Tracks(plan.items, facts) && |run.items| == |c.items|
    ensures !ok ==> run.media.power == 0
  {
    SavedParts(plan, facts, h, file, c, groups);
    var p := RekeyRecords(run, earlier, file, c, groups, EncodeHeader(h));
    ok := p.Some?;
    if ok {
      SavedPasses(p.value, file, c, plan, facts, h, groups);
      ok := CheckPrefix(p.value, file, c);
      TakeOver(run, p.value, c, plan, facts, groups);
    }
  }

  lemma NothingRekeyed(run: PackRun, chunks: seq<Chunk>)
    requires WellFormed(chunks) && |chunks| < U64 && run.Open() && run.sequence == 0 && |run.header| == HEADER_LENGTH
    requires run.writer.file == run.header && run.writer.recordCount == 0
    ensures RekeyedUpTo(run, chunks, 0, [])
  {
    DenseFits(chunks);
    assert Dense(chunks)[..0] == [];
    assert RecordsBytes(run.session, []) == [];
  }
}
