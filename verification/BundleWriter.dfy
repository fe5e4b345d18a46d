// The IZ2 writer: it captures items into encrypted stage files, copies the good ones to the
// end of the partial Bundle, and finishes the Bundle or pauses it.
module BundleWriter {
  import opened Outcomes
  import opened Cells
  import opened Records
  import opened BundleReader
  import opened BundleContents
  import opened CapturedItems
  import opened PackSource
  import opened BundleAppend

  const COPY_BUFFER := 64 * 1024

  ghost predicate Increasing(log: seq<nat>) {
    forall j, k | 0 <= j < k < |log| :: log[j] < log[k]
  }

  // No sequence has been used twice, and none from `next` on has been used.
  ghost predicate UsedBelow(log: seq<nat>, next: nat) {
    Increasing(log) && forall k | 0 <= k < |log| :: log[k] < next
  }

  // So no run seals two records under one nonce.
  lemma NoNonceTwice(s: Session, log: seq<nat>, j: nat, k: nat)
    requires Increasing(log) && j < k < |log| && log[k] < U64
    ensures RecordNonce(s, log[j]) != RecordNonce(s, log[k])
  {
    NoncesApart(s, log[j], log[k]);
  }

  // Where the files of one pack are: how many more operations succeed there, how many bytes
  // have been written or should have been, and the sequences that records have been encrypted
  // under, stage files included.
  class Media {
    // How many operations it began with, and how many more succeed.
    const granted: nat
    var power: nat
    ghost var asked: nat
    ghost var used: seq<nat>

    constructor (power: nat)
      ensures granted == power && this.power == power && asked == 0 && used == []
    {
      this.granted, this.power := power, power;
      asked, used := 0, [];
    }

    // An operation has failed, or the pack is longer than its format has numbers for.
    ghost predicate Ended() reads this {
      power == 0 || asked >= U64 || |used| + 1 >= U32
    }

    method Allow() returns (ok: bool)
      modifies this`power
      ensures ok <==> old(power) > 0
      ensures power == if ok then old(power) - 1 else 0
    {
      ok := power > 0;
      if ok {
        power := power - 1;
      }
    }
  }

  class StreamWriter {
    const media: Media
    const session: Session
    var file: Bytes
    var offset: nat
    var recordCount: nat

    ghost predicate Valid() reads this, media {
      offset == |file| < U64 && |file| <= media.asked
    }

    constructor (media: Media, session: Session)
      ensures Valid() && this.media == media && this.session == session && file == [] && recordCount == 0
    {
      this.media := media;
      this.session := session;
      file := [];
      offset := 0;
      recordCount := 0;
    }

    method WriteHashed(bytes: Bytes) returns (ok: bool)
      requires Valid()
      modifies this`file, this`offset, media`power, media`asked
      ensures media.asked == old(media.asked) + |bytes|
      ensures ok ==> Valid() && file == old(file) + bytes && media.power == old(media.power) - 1
      ensures !ok ==> media.power == 0 || |old(file)| + |bytes| >= U64
    {
      media.asked := media.asked + |bytes|;
      ok := media.Allow();
      if ok {
        file := file + bytes;
        ok := offset + |bytes| < U64;
        if ok {
          offset := offset + |bytes|;
        }
      }
    }

    // Encrypts and writes one record; the sequence is used up even if writing then fails.
    method WriteRecord(kind: Byte, sequence: nat, item: nat, chunk: nat, plaintext: Bytes) returns (r: Option<nat>)
      requires Valid() && sequence < U64 && item < U32 && chunk < U32
      modifies this, media
      ensures media.used == old(media.used) || media.used == old(media.used) + [sequence]
      ensures r.Some? ==> media.used == old(media.used) + [sequence] && |plaintext| + TAG == r.value < U32
      ensures r.Some? ==> Valid() && recordCount == old(recordCount) + 1 && media.power == old(media.power) - 2
      ensures r.Some? ==> file == old(file) + SealRecord(session, kind, sequence, item, chunk, plaintext)
      ensures r.None? ==> || media.power == 0 || |plaintext| + TAG >= U32
                          || |old(file)| + RECORD_HEADER_LENGTH + |plaintext| + TAG >= U64
      ensures media.asked >= old(media.asked) && (r.None? ==> |plaintext| + TAG >= U32 || media.Ended())
    {
      if |plaintext| + TAG >= U32 {
        return None;
      }
      var raw := EncodeRecordHeader(RecordHeader(kind, sequence, item, chunk, |plaintext|, |plaintext| + TAG));
      var ciphertext := Encrypt(RecordKey(session, kind), RecordNonce(session, sequence), RecordAad(session, raw),
                                plaintext);
      media.used := media.used + [sequence];
      var ok := WriteHashed(raw);
      if !ok {
        return None;
      }
      Associative(old(file), raw, ciphertext);
      ok := WriteHashed(ciphertext);
      if !ok {
        return None;
      }
      recordCount := recordCount + 1;
      r := Some(|plaintext| + TAG);
    }

    // Copies a stage file to the end, a buffer at a time.
    method CopyStage(stage: Bytes) returns (ok: bool)
      requires Valid()
      modifies this`file, this`offset, media`power, media`asked
      ensures ok ==> Valid() && file == old(file) + stage
      ensures media.asked >= old(media.asked) && (!ok ==> media.Ended())
    {
      var position := 0;
      while position < |stage|
        invariant position <= |stage| && Valid()
        invariant file == old(file) + stage[..position] && media.asked >= old(media.asked)
      {
        var end := if position + COPY_BUFFER < |stage| then position + COPY_BUFFER else |stage|;
        assert stage[..end] == stage[..position] + stage[position..end];
        ok := WriteHashed(stage[position..end]);
        if !ok {
          return;
        }
        position := end;
      }
      assert stage[..|stage|] == stage;
      ok := true;
    }
  }

  // ---- What a pack keeps as it captures ----

  // The items, the counters and the size recorded for the first planned items.
  ghost predicate Recorded(plan: seq<PlanItem>, facts: seq<Facts>, items: seq<ManifestItem>, groups: Groups,
                           counts: Counts, size: nat)
  {
    && CapturedAs(plan, facts, items, groups) && counts == Tally(plan[..|items|], facts[..|items|])
    && size == ContentSize(groups) < U64
  }

  lemma OneMoreItem(plan: seq<PlanItem>, facts: seq<Facts>, items: seq<ManifestItem>, groups: Groups, counts: Counts,
                    size: nat, items': seq<ManifestItem>, groups': Groups, counts': Counts, size': nat)
    requires Recorded(plan, facts, items, groups, counts, size) && |items| < |plan|
    requires |items'| == |groups'| == |items| + 1 && items'[..|items|] == items && groups'[..|items|] == groups
    requires var n := |items|;
      && HoldsContent(facts[n], groups'[n]) && items'[n] == ManifestItemFor(plan[n], facts[n], groups'[n])
      && counts' == Tallied(counts, plan[n], facts[n]) && size' == size + |Content(groups'[n])| < U64
    ensures Recorded(plan, facts, items', groups', counts', size')
  {
    var n := |items|;
    assert plan[..n + 1][..n] == plan[..n] && facts[..n + 1][..n] == facts[..n];
    assert items == items'[..n] && groups == groups'[..n];
  }

  // Kept for every selected file among the first items, and perhaps for later ones: for the
  // first ones some observation if captured, else none.
  ghost predicate Kept(plan: seq<PlanItem>, facts: seq<Facts>, n: nat, kept: map<nat, Option<Observation>>)
    requires n <= |plan| <= |facts|
  {
    && (forall i: nat | i in kept :: i < |plan| && IsSelectedFile(plan[i]))
    && (forall i: nat | i < n && IsSelectedFile(plan[i]) :: i in kept && (kept[i].Some? <==> facts[i].content.Some?))
  }

  lemma OneMoreKept(plan: seq<PlanItem>, facts: seq<Facts>, n: nat, before: map<nat, Option<Observation>>,
                    after: map<nat, Option<Observation>>)
    requires n < |plan| <= |facts| && Kept(plan, facts, n, before)
    requires if IsSelectedFile(plan[n]) then n in after && after == before[n := after[n]]
                                             && (after[n].Some? <==> facts[n].content.Some?)
             else after == before
    ensures Kept(plan, facts, n + 1, after)
  {
  }

  // ---- Capturing ----

  // What capturing one regular file came to.
  datatype CapturedFile = CapturedFile(size: nat, sequences: seq<nat>, hash: Option<Bytes>, mode: Option<nat>,
                                       changed: bool, observation: Option<Observation>)

  // It is the file's facts, with the pieces that were written for it.
  ghost predicate IsCapture(c: CapturedFile, f: Facts, group: seq<Piece>) {
    && HoldsContent(f, group) && c.sequences == GroupSequences(group) && c.size == |Content(group)|
    && c.hash == (if f.content.None? then None else Some(Hash(f.content.value)))
    && c.mode == f.mode && c.changed == f.changed && (c.observation.Some? <==> f.content.Some?)
  }

  // A read of some item's content fails before the item is captured.
  ghost predicate SomeUnreadable(plan: seq<PlanItem>, sources: seq<ItemSource>) {
    exists i :: 0 <= i < |plan| <= |sources| && FactsOf(plan[i], sources[i]).None?
  }

  // Every source behaves, and what is captured of an item is what its facts say.
  ghost predicate AllShow(plan: seq<PlanItem>, sources: seq<ItemSource>, facts: seq<Facts>) {
    && |sources| == |plan| == |facts|
    && forall i | 0 <= i < |plan| :: Shown(plan[i], sources[i], facts[i])
  }

  ghost predicate Shown(item: PlanItem, src: ItemSource, f: Facts) {
    Behaves(src) && (FactsOf(item, src).Some? ==> FactsOf(item, src).value == f)
  }

  // Cancellation is requested when the first `n` items have been captured.
  predicate CancelledAfter(cancelled: set<nat>, n: nat) {
    n > 0 && n - 1 in cancelled
  }

  // No cancellation is requested after any of the items from `before` to `n`.
  ghost predicate NoneAsked(cancelled: set<nat>, before: nat, n: nat) {
    n > before ==> !CancelledAfter(cancelled, n) && NoneAsked(cancelled, before, n - 1)
  }

  // A run that began with `before` items and has `n` stops where cancellation is first requested
  // after an item of its own.
  ghost predicate StopsWhereAsked(cancelled: set<nat>, before: nat, n: nat, paused: bool) {
    if paused then before < n && CancelledAfter(cancelled, n) && NoneAsked(cancelled, before, n - 1)
    else NoneAsked(cancelled, before, n)
  }

  lemma {:induction false} OneMoreAsked(cancelled: set<nat>, before: nat, n: nat)
    requires before <= n && StopsWhereAsked(cancelled, before, n, false)
    ensures StopsWhereAsked(cancelled, before, n + 1, CancelledAfter(cancelled, n + 1))
  {
  }

  lemma {:induction false} NoneAskedMeans(cancelled: set<nat>, before: nat, n: nat)
    ensures NoneAsked(cancelled, before, n) <==> forall k | before < k <= n :: !CancelledAfter(cancelled, k)
  {
    if n > before {
      NoneAskedMeans(cancelled, before, n - 1);
    }
  }

  // The state of one pack while it writes its Bundle.
  class PackRun {
    const media: Media
    const session: Session
    const writer: StreamWriter
    const header: Bytes
    var sequence: nat
    var index: seq<IndexEntry>
    var items: seq<ManifestItem>
    var logicalSize: nat
    var counts: Counts
    var observations: map<nat, Option<Observation>>
    ghost var groups: Groups

    ghost predicate Ready() reads this`sequence, media {
      sequence < U64 && sequence <= |media.used| && UsedBelow(media.used, sequence)
    }

    constructor (media: Media, session: Session, header: Bytes, writer: StreamWriter)
      ensures this.media == media && this.session == session && this.header == header && this.writer == writer
      ensures sequence == 0 && index == [] && items == [] && logicalSize == 0 && counts == ZERO && groups == []
      ensures observations == map[]
    {
      this.media := media;
      this.session := session;
      this.header := header;
      this.writer := writer;
      sequence, index, items, logicalSize := 0, [], [], 0;
      counts, observations, groups := ZERO, map[], [];
    }

    // Writes one read of a file to its stage file under the next sequence.
    method SealBlock(stage: StreamWriter, item: nat, chunk: nat, block: Bytes) returns (r: Option<IndexEntry>)
      requires stage.Valid() && stage.media == media && stage.session == session && Ready()
      requires item < U32 && chunk < U32 && |block| <= MAX_CHUNK && chunk <= sequence
      modifies this`sequence, stage, media
      ensures Increasing(media.used) && sequence >= old(sequence)
      ensures media.asked >= old(media.asked) && (r.None? ==> media.Ended())
      ensures r.Some? ==> Ready() && stage.Valid() && chunk + 1 < U32 && sequence == old(sequence) + 1
      ensures r.Some? ==> r.value == EntryOf(Chunk(old(sequence), item, chunk, block), |old(stage.file)|)
      ensures r.Some? ==>
                stage.file == old(stage.file) + SealRecord(session, CONTENT, old(sequence), item, chunk, block)
      ensures r.Some? ==> stage.recordCount == old(stage.recordCount) + 1
    {
      var offset := stage.offset;
      var length := stage.WriteRecord(CONTENT, sequence, item, chunk, block);
      if length.None? || sequence + 1 >= U64 || chunk + 1 >= U32 {
        return None;
      }
      r := Some(IndexEntry(sequence, item, chunk, offset, |block|, length.value));
      sequence := sequence + 1;
    }

    // The same, for the next read of a file whose earlier reads are in the stage file.
    method StageBlock(stage: StreamWriter, item: nat, chunk: nat, block: Bytes, stageIndex: seq<IndexEntry>,
                      ghost group: seq<Piece>, ghost floor: nat) returns (r: Option<IndexEntry>)
      requires stage.Valid() && stage.media == media && stage.session == session && Ready() && floor <= sequence
      requires item < U32 && chunk < U32 && |block| <= MAX_CHUNK && chunk == |group|
      requires Staged(session, item, group, floor, sequence, stage.file, stage.recordCount, stageIndex)
      modifies this`sequence, stage, media
      ensures Increasing(media.used) && sequence >= old(sequence)
      ensures media.asked >= old(media.asked) && (r.None? ==> media.Ended())
      ensures r.Some? ==> Ready() && stage.Valid() && chunk + 1 < U32
      ensures r.Some? ==> Staged(session, item, group + [Piece(old(sequence), block)], floor, sequence,
                                 stage.file, stage.recordCount, stageIndex + [r.value])
    {
      NumberedCount(group, floor, sequence);
      ghost var c := Chunk(sequence, item, chunk, block);
      ghost var file, count := stage.file, stage.recordCount;
      r := SealBlock(stage, item, chunk, block);
      if r.Some? {
        PieceStaged(session, item, group, floor, c.sequence, file, count, stageIndex, block, c, |file|);
      }
    }

    // Writes the reads of a file, in order, to a new stage file.
    method StageBlocks(stage: StreamWriter, item: nat, blocks: seq<Bytes>)
      returns (ok: bool, stageIndex: seq<IndexEntry>, content: Bytes, ghost group: seq<Piece>)
      requires stage.Valid() && stage.media == media && stage.session == session && Ready() && item < U32
      requires stage.file == [] && stage.recordCount == 0
      requires forall k | 0 <= k < |blocks| :: |blocks[k]| <= MAX_CHUNK
      modifies this`sequence, stage, media
      ensures Increasing(media.used) && sequence >= old(sequence)
      ensures media.asked >= old(media.asked) && (!ok ==> media.Ended())
      ensures ok ==> Ready() && stage.Valid() && content == Concat(blocks) && |group| == |blocks|
      ensures ok ==> forall k | 0 <= k < |blocks| :: group[k].plaintext == blocks[k]
      ensures ok ==> Staged(session, item, group, old(sequence), sequence, stage.file, stage.recordCount, stageIndex)
    {
      stageIndex, content, group := [], [], [];
      ok := true;
      var chunk := 0;
      while chunk < |blocks| && ok
        invariant chunk <= |blocks| && sequence >= old(sequence) && Increasing(media.used)
        invariant media.asked >= old(media.asked) && (!ok ==> media.Ended())
        invariant ok ==> stage.Valid() && Ready() && |group| == chunk < U32
        invariant ok ==>
                  Staged(session, item, group, old(sequence), sequence, stage.file, stage.recordCount, stageIndex)
        invariant ok ==> TakenFrom(group, content, blocks, chunk)
      {
        ghost var piece := Piece(sequence, blocks[chunk]);
        OneMoreTaken(group, content, blocks, chunk, piece);
        var entry := StageBlock(stage, item, chunk, blocks[chunk], stageIndex, group, old(sequence));
        ok := entry.Some?;
        if ok {
          group, stageIndex := group + [piece], stageIndex + [entry.value];
        }
        content := content + blocks[chunk];
        chunk := chunk + 1;
      }
      assert blocks[..|blocks|] == blocks;
    }

    // The pieces of the first reads, and their bytes one after the other.
    static ghost predicate TakenFrom(group: seq<Piece>, content: Bytes, blocks: seq<Bytes>, n: nat)
      requires n <= |blocks|
    {
      |group| == n && content == Concat(blocks[..n]) && forall k | 0 <= k < n :: group[k].plaintext == blocks[k]
    }

    static lemma OneMoreTaken(group: seq<Piece>, content: Bytes, blocks: seq<Bytes>, n: nat, piece: Piece)
      requires n < |blocks| && TakenFrom(group, content, blocks, n) && piece.plaintext == blocks[n]
      ensures TakenFrom(group + [piece], content + blocks[n], blocks, n + 1)
    {
      assert blocks[..n + 1][..n] == blocks[..n];
    }

    // Reads a file to its end into a stage file; an empty file makes one empty chunk.
    method StreamToStage(item: nat, blocks: seq<Bytes>, broken: bool)
      returns (ok: bool, stage: StreamWriter, stageIndex: seq<IndexEntry>, content: Bytes, ghost group: seq<Piece>)
      requires Ready() && item < U32 && forall k | 0 <= k < |blocks| :: |blocks[k]| <= MAX_CHUNK
      modifies this`sequence, media
      ensures fresh(stage) && stage.media == media && stage.session == session
      ensures Increasing(media.used) && sequence >= old(sequence)
      ensures media.asked >= old(media.asked) && (!ok ==> broken || media.Ended())
      ensures ok ==> !broken && Ready() && stage.Valid() && content == Concat(blocks) && SplitAs(group, blocks)
      ensures ok ==> Staged(session, item, group, old(sequence), sequence, stage.file, stage.recordCount, stageIndex)
    {
      stage := new StreamWriter(media, session);
      ok, stageIndex, content, group := StageBlocks(stage, item, blocks);
      ok := ok && !broken;
      if ok && blocks == [] {
        ghost var piece := Piece(sequence, []);
        var entry := StageBlock(stage, item, 0, [], stageIndex, group, old(sequence));
        ok := entry.Some?;
        if ok {
          group, stageIndex := group + [piece], stageIndex + [entry.value];
        }
      }
    }

    // What has been added to the Bundle for an item: the records of its pieces and their entries.
    ghost predicate AddedSince(item: nat, group: seq<Piece>, floor: nat, file: Bytes, count: nat,
                               entries: seq<IndexEntry>)
      reads this`sequence, this`index, writer
    {
      var chunks := GroupChunks(item, group);
      && Numbered(group, floor, sequence) && WellFormed(chunks) && |group| < U32
      && writer.file == file + RecordsBytes(session, chunks) && writer.recordCount == count + |group|
      && index == entries + EntriesOf(chunks, |file|)
    }

    ghost predicate Open() reads this`sequence, writer, media {
      writer.media == media && writer.session == session && Ready() && writer.Valid()
    }

    // Copies a finished stage file to the end of the Bundle and moves its entries there.
    method AppendStage(stage: StreamWriter, stageIndex: seq<IndexEntry>, item: nat, ghost group: seq<Piece>,
                       ghost floor: nat) returns (ok: bool)
      requires Open() && stage != writer
      requires Staged(session, item, group, floor, sequence, stage.file, stage.recordCount, stageIndex)
      modifies this`index, writer, media`power, media`asked
      ensures media.asked >= old(media.asked) && (!ok ==> media.Ended())
      ensures ok ==> Open() && AddedSince(item, group, floor, old(writer.file), old(writer.recordCount), old(index))
    {
      var base := writer.offset;
      ok := media.Allow();
      if ok {
        ok := writer.CopyStage(stage.file);
      }
      if ok {
        writer.recordCount := writer.recordCount + stage.recordCount;
        RebasedIndex(GroupChunks(item, group), base);
        index := index + Rebased(stageIndex, base);
        ok := media.Allow();
      }
    }

    lemma NothingAdded(item: nat)
      requires writer.Valid()
      ensures AddedSince(item, [], sequence, writer.file, writer.recordCount, index)
    {
      assert RecordsBytes(session, []) == [];
    }

    // One attempt at a file: it is streamed to a stage file, which is kept only if the file was
    // the same before and after and as long as it was said to be.
    method TryCapture(item: nat, attempt: Attempt, changed: bool)
      returns (ok: bool, r: Option<CapturedFile>, ghost group: seq<Piece>)
      requires Open() && item < U32 && attempt.Streamed? && Readable(attempt)
      modifies this`sequence, this`index, writer, media
      ensures Increasing(media.used) && sequence >= old(sequence)
      ensures media.asked >= old(media.asked) && (!ok ==> attempt.broken || media.Ended())
      ensures ok ==> Open() && !attempt.broken && (r.Some? <==> Steady(attempt))
      ensures ok ==> AddedSince(item, group, old(sequence), old(writer.file), old(writer.recordCount), old(index))
      ensures ok && r.None? ==> group == []
      ensures ok && r.Some? ==> IsCapture(r.value, Facts(if changed then Changed else CaptureOutcome.Included,
                                  Some(Concat(attempt.blocks)), attempt.before.mode, None, changed), group)
    {
      r, group := None, [];
      ok := media.Allow();
      if !ok {
        return;
      }
      NothingAdded(item);
      var stage, stageIndex, content;
      ghost var pieces;
      ok, stage, stageIndex, content, pieces := StreamToStage(item, attempt.blocks, attempt.broken);
      if !ok || attempt.after != Some(attempt.before) || |content| != attempt.before.length {
        return;
      }
      ok := AppendStage(stage, stageIndex, item, pieces, old(sequence));
      if ok {
        SplitContent(pieces, attempt.blocks);
        StagedSequences(item, pieces);
        group := pieces;
        r := Some(CapturedFile(|content|, Sequences(stageIndex), Some(Hash(content)), attempt.before.mode, changed,
                               Some(attempt.before)));
      }
    }

    // Up to three attempts; one that cannot be observed or opened is passed over.
    method CaptureRegularFile(item: nat, attempts: seq<Attempt>)
      returns (ok: bool, r: CapturedFile, ghost group: seq<Piece>)
      requires Open() && item < U32 && forall k | 0 <= k < |attempts| :: Readable(attempts[k])
      modifies this`sequence, this`index, writer, media
      ensures Increasing(media.used) && sequence >= old(sequence)
      ensures media.asked >= old(media.asked) && (!ok ==> FileFacts(attempts, false).None? || media.Ended())
      ensures ok ==> Open() && FileFacts(attempts, false).Some? && IsCapture(r, FileFacts(attempts, false).value, group)
      ensures ok ==> AddedSince(item, group, old(sequence), old(writer.file), old(writer.recordCount), old(index))
    {
      NothingAdded(item);
      var changed := false;
      r, group := CapturedFile(0, [], None, None, false, None), [];
      var k := 0;
      while k < |attempts|
        invariant k <= |attempts| && Open() && sequence >= old(sequence)
        invariant group == [] && media.asked >= old(media.asked)
        invariant FileFacts(attempts, false) == FileFacts(attempts[k..], changed)
        invariant writer.file == old(writer.file)
        invariant writer.recordCount == old(writer.recordCount) && index == old(index)
      {
        assert attempts[k..][0] == attempts[k] && attempts[k..][1..] == attempts[k + 1..];
        if attempts[k].Streamed? {
          var captured;
          ghost var floor := sequence;
          ok, captured, group := TryCapture(item, attempts[k], changed);
          if !ok {
            return;
          }
          if captured.Some? {
            assert Numbered(group, old(sequence), sequence);
            return ok, captured.value, group;
          }
          changed := true;
          NothingStays(item, floor, old(writer.file), old(writer.recordCount), old(index));
        }
        k := k + 1;
      }
      ok := true;
      r := CapturedFile(0, [], None, None, changed, None);
      NothingAdded(item);
    }

    lemma NothingStays(item: nat, floor: nat, file: Bytes, count: nat, entries: seq<IndexEntry>)
      requires AddedSince(item, [], floor, file, count, entries)
      ensures writer.file == file && writer.recordCount == count && index == entries
    {
      assert RecordsBytes(session, []) == [];
    }

    method CaptureSymbolicLink(links: seq<LinkReads>) returns (target: Option<string>)
      ensures target == LinkTarget(links)
    {
      var k := 0;
      while k < |links|
        invariant k <= |links| && LinkTarget(links) == LinkTarget(links[k..])
      {
        assert links[k..][0] == links[k] && links[k..][1..] == links[k + 1..];
        if links[k].before.None? || links[k].after.None? {
          return None;
        }
        if links[k].before == links[k].after {
          return links[k].before;
        }
        k := k + 1;
      }
      target := None;
    }

    // A selected regular file: captured, counted and observed.
    method CaptureSelectedFile(item: PlanItem, ordinal: nat, src: ItemSource)
      returns (ok: bool, m: ManifestItem, size: nat, ghost group: seq<Piece>)
      requires Open() && ordinal < U32 && Behaves(src) && IsSelectedFile(item)
      modifies this`sequence, this`index, this`counts, this`observations, writer, media
      ensures Increasing(media.used) && sequence >= old(sequence)
      ensures media.asked >= old(media.asked) && (!ok ==> FactsOf(item, src).None? || media.Ended())
      ensures ok ==> AddedSince(ordinal, group, old(sequence), old(writer.file), old(writer.recordCount), old(index))
      ensures ok ==> Open() && CountedAs(item, ordinal, src, group, m, size, old(counts), old(observations))
    {
      m := BlankItem(item, src);
      size := 0;
      var captured;
      ok, captured, group := CaptureRegularFile(ordinal, src.attempts);
      if ok {
        FileItem(item, src, captured, group);
        CountFile(item, captured, FactsOf(item, src).value, group);
        observations := observations[ordinal := captured.observation];
        size := captured.size;
        if captured.observation.Some? {
          m := m.(chunkSequences := captured.sequences, contentHash := captured.hash, mode := captured.mode,
                  outcome := if captured.changed then Changed else CaptureOutcome.Included);
        }
      }
    }

    method CountFile(item: PlanItem, captured: CapturedFile, ghost f: Facts, ghost group: seq<Piece>)
      requires IsSelectedFile(item) && IsCapture(captured, f, group)
      requires f.outcome != CaptureOutcome.Excluded && f.outcome != CaptureOutcome.Unsupported
      modifies this`counts
      ensures counts == Tallied(old(counts), item, f)
    {
      counts := counts.(included := counts.included + 1);
      if captured.changed {
        counts := counts.(changed := counts.changed + 1);
      }
      if captured.observation.None? {
        counts := counts.(unverified := counts.unverified + 1);
      }
    }

    lemma FileItem(item: PlanItem, src: ItemSource, c: CapturedFile, group: seq<Piece>)
      requires IsSelectedFile(item) && FactsOf(item, src).Some? && IsCapture(c, FactsOf(item, src).value, group)
      ensures var f := FactsOf(item, src).value;
        && f.outcome == (if c.observation.None? then Unverified
                         else if c.changed then Changed else CaptureOutcome.Included)
        && ManifestItemFor(item, f, group)
           == if c.observation.None? then BlankItem(item, src)
              else BlankItem(item, src).(chunkSequences := c.sequences, contentHash := c.hash, mode := c.mode,
                                         outcome := if c.changed then Changed else CaptureOutcome.Included)
    {
      FileOutcome(src.attempts, false);
    }

    // Any other item: it has no content, only an outcome to find and count.
    method CountOther(item: PlanItem, ordinal: nat, src: ItemSource) returns (m: ManifestItem)
      requires !IsSelectedFile(item)
      modifies this`counts
      ensures CountedAs(item, ordinal, src, [], m, 0, old(counts), old(observations))
    {
      m := BlankItem(item, src);
      if item.kind == Special {
        counts := counts.(unsupported := counts.unsupported + 1);
        m := m.(outcome := CaptureOutcome.Unsupported);
      } else if item.disposition == Disposition.Included {
        counts := counts.(included := counts.included + 1);
        if item.kind == Directory {
          m := m.(outcome := CaptureOutcome.Included);
        } else if item.kind == SymbolicLink {
          var target := CaptureSymbolicLink(src.links);
          if target.Some? {
            m := m.(symlinkTarget := target, outcome := CaptureOutcome.Included);
          } else {
            counts := counts.(included := counts.included - 1, unverified := counts.unverified + 1);
          }
        } else {
          counts := counts.(included := counts.included - 1, unsupported := counts.unsupported + 1);
          m := m.(outcome := CaptureOutcome.Unsupported);
        }
      } else if item.disposition == Disposition.Unsupported {
        counts := counts.(unsupported := counts.unsupported + 1);
        m := m.(outcome := CaptureOutcome.Unsupported);
      } else if item.disposition == Disposition.Excluded {
        m := m.(outcome := CaptureOutcome.Excluded);
      } else {
        counts := counts.(unverified := counts.unverified + 1);
      }
    }

    function BlankItem(item: PlanItem, src: ItemSource): ManifestItem {
      ManifestItem(item.id, item.relativePath, item.kind, item.estimatedSize, Unverified, [], None,
                   if item.kind == Directory && item.disposition == Disposition.Included then src.directoryMode
                   else None,
                   None)
    }

    // The item is recorded and counted as its facts say; an observation is kept for a selected
    // file, some for a captured one and none for an unverified one.
    ghost predicate CountedAs(item: PlanItem, ordinal: nat, src: ItemSource, group: seq<Piece>, m: ManifestItem,
                              size: nat, before: Counts, observed: map<nat, Option<Observation>>)
      reads this`counts, this`observations
    {
      var f := FactsOf(item, src);
      && f.Some? && HoldsContent(f.value, group) && m == ManifestItemFor(item, f.value, group)
      && size == |Content(group)| && counts == Tallied(before, item, f.value)
      && (if IsSelectedFile(item)
          then ordinal in observations && observations == observed[ordinal := observations[ordinal]]
                                       && (observations[ordinal].Some? <==> f.value.content.Some?)
          else observations == observed)
    }

    method CaptureOne(item: PlanItem, ordinal: nat, src: ItemSource)
      returns (ok: bool, m: ManifestItem, size: nat, ghost group: seq<Piece>)
      requires Open() && ordinal < U32 && Behaves(src)
      modifies this`sequence, this`index, this`counts, this`observations, writer, media
      ensures Increasing(media.used) && sequence >= old(sequence)
      ensures media.asked >= old(media.asked) && (!ok ==> FactsOf(item, src).None? || media.Ended())
      ensures ok ==> AddedSince(ordinal, group, old(sequence), old(writer.file), old(writer.recordCount), old(index))
      ensures ok ==> Open() && CountedAs(item, ordinal, src, group, m, size, old(counts), old(observations))
    {
      if IsSelectedFile(item) {
        ok, m, size, group := CaptureSelectedFile(item, ordinal, src);
      } else {
        NothingAdded(ordinal);
        m := CountOther(item, ordinal, src);
        ok, size, group := true, 0, [];
      }
    }

    // ---- The pack's loop over the planned items ----

    // The Bundle so far holds exactly the first planned items, as their facts say.
    ghost predicate Tracks(plan: seq<PlanItem>, facts: seq<Facts>)
      reads this, writer, media
    {
      && Holding() && |plan| < U32
      && Recorded(plan, facts, items, groups, counts, logicalSize) && Kept(plan, facts, |items|, observations)
    }

    // The file and the index hold exactly the captured groups.
    ghost predicate Holding()
      reads this`sequence, this`index, this`groups, writer, media
    {
      Open() && Written(session, header, groups, writer.file, writer.recordCount, index, sequence)
    }

    // Starts from what an earlier run has captured, already in this run's file.
    method Adopt(index: seq<IndexEntry>, items: seq<ManifestItem>, size: nat, counts: Counts,
                 observations: map<nat, Option<Observation>>, ghost groups: Groups, ghost plan: seq<PlanItem>,
                 ghost facts: seq<Facts>)
      requires Open() && Written(session, header, groups, writer.file, writer.recordCount, index, sequence)
      requires |plan| < U32 && Recorded(plan, facts, items, groups, counts, size)
      requires Kept(plan, facts, |items|, observations)
      modifies this
      ensures Tracks(plan, facts) && this.items == items && sequence == old(sequence)
    {
      this.index, this.items, logicalSize := index, items, size;
      this.counts, this.observations, this.groups := counts, observations, groups;
    }

    method CaptureNext(plan: seq<PlanItem>, src: ItemSource, ghost facts: seq<Facts>) returns (ok: bool)
      requires Tracks(plan, facts) && |items| < |plan| && Behaves(src)
      requires FactsOf(plan[|items|], src).Some? ==> FactsOf(plan[|items|], src).value == facts[|items|]
      modifies this, writer, media
      ensures Increasing(media.used)
      ensures !ok ==> FactsOf(plan[old(|items|)], src).None? || media.Ended()
      ensures ok ==> Tracks(plan, facts) && |items| == old(|items|) + 1
    {
      var i := |items|;
      var m, size;
      ok, m, size := CaptureInto(plan[i], i, src);
      if ok {
        Keep(m, size);
        ok := logicalSize < U64;
      }
      if ok {
        OneMoreItem(plan, facts, old(items), old(groups), old(counts), old(logicalSize), items, groups, counts,
                    logicalSize);
        OneMoreKept(plan, facts, i, old(observations), observations);
      }
    }

    // The items' content is not longer than the file that holds it.
    lemma {:induction false} SizeWithin(before: Groups, after: Groups, size: nat)
      requires Written(session, header, after, writer.file, writer.recordCount, index, sequence)
      requires after != [] && before == after[..|after| - 1] && size == |Content(after[|after| - 1])|
      ensures ContentSize(before) + size < U64
    {
      CapturedSize(after);
      BytesWithinRecords(Chunks(after));
    }

    method Keep(m: ManifestItem, size: nat)
      modifies this`items, this`logicalSize
      ensures items == old(items) + [m] && logicalSize == old(logicalSize) + size
    {
      items := items + [m];
      logicalSize := logicalSize + size;
    }

    // Captures an item and adds its pieces to the groups.
    method CaptureInto(item: PlanItem, ordinal: nat, src: ItemSource) returns (ok: bool, m: ManifestItem, size: nat)
      requires Holding() && ordinal == |groups| && ordinal < U32 && Behaves(src)
      modifies this`sequence, this`index, this`counts, this`observations, this`groups, writer, media
      ensures Increasing(media.used) && (!ok ==> FactsOf(item, src).None? || media.Ended())
      ensures ok ==> Holding() && |groups| == ordinal + 1 && groups[..ordinal] == old(groups)
      ensures ok ==> CountedAs(item, ordinal, src, groups[ordinal], m, size, old(counts), old(observations))
      ensures ok ==> ContentSize(old(groups)) + size < U64
    {
      ghost var group;
      ghost var file, count, entries, floor := writer.file, writer.recordCount, index, sequence;
      ok, m, size, group := CaptureOne(item, ordinal, src);
      if ok {
        ItemAppends(session, header, groups, file, count, entries, floor, group, sequence, writer.file,
                    writer.recordCount, index);
        groups := groups + [group];
        SizeWithin(old(groups), groups, size);
      }
    }

    // Captures the items not yet captured; stops after one when cancellation is requested then.
    method CaptureItems(plan: seq<PlanItem>, sources: seq<ItemSource>, cancelled: set<nat>, ghost facts: seq<Facts>)
      returns (ok: bool, paused: bool)
      requires Tracks(plan, facts) && AllShow(plan, sources, facts)
      modifies this, writer, media
      ensures Increasing(media.used)
      ensures ok ==> Tracks(plan, facts)
      ensures ok ==> |items| >= old(|items|) && StopsWhereAsked(cancelled, old(|items|), |items|, paused)
      ensures ok && !paused ==> |items| == |plan|
      ensures !ok ==> media.Ended() || SomeUnreadable(plan, sources)
    {
      ghost var before := |items|;
      ok, paused := true, false;
      while |items| < |plan|
        invariant ok && Tracks(plan, facts) && Increasing(media.used)
        invariant before <= |items| && StopsWhereAsked(cancelled, before, |items|, false)
        decreases |plan| - |items|
      {
        ok, paused := CaptureStep(plan, sources, cancelled, facts, before);
        if !ok || paused {
          return;
        }
      }
      paused := false;
    }

    method CaptureStep(plan: seq<PlanItem>, sources: seq<ItemSource>, cancelled: set<nat>, ghost facts: seq<Facts>,
                       ghost before: nat)
      returns (ok: bool, paused: bool)
      requires Tracks(plan, facts) && |items| < |plan| && AllShow(plan, sources, facts)
      requires before <= |items| && StopsWhereAsked(cancelled, before, |items|, false)
      modifies this, writer, media
      ensures Increasing(media.used)
      ensures !ok ==> media.Ended() || SomeUnreadable(plan, sources)
      ensures ok ==> Tracks(plan, facts) && |items| == old(|items|) + 1
      ensures ok ==> StopsWhereAsked(cancelled, before, |items|, paused)
    {
      OneMoreAsked(cancelled, before, |items|);
      ok := CaptureAnother(plan, sources, facts);
      paused := ok && CancelledAfter(cancelled, |items|);
    }

    method CaptureAnother(plan: seq<PlanItem>, sources: seq<ItemSource>, ghost facts: seq<Facts>) returns (ok: bool)
      requires Tracks(plan, facts) && |items| < |plan| && AllShow(plan, sources, facts)
      modifies this, writer, media
      ensures Increasing(media.used)
      ensures !ok ==> media.Ended() || SomeUnreadable(plan, sources)
      ensures ok ==> Tracks(plan, facts) && |items| == old(|items|) + 1
    {
      ok := CaptureNext(plan, sources[|items|], facts);
    }
  }
}
