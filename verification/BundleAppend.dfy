// Appending to a Bundle: what adding one captured item's chunks does to the file's bytes and
// to its index, wherever the chunks were written first.
module BundleAppend {
  import opened Cells
  import opened Records
  import opened PublicHeader
  import opened BundleReader
  import opened BundleContents
  import opened CapturedItems
  import opened PackSource

  lemma {:induction false} RecordsAppend(s: Session, a: seq<Chunk>, b: seq<Chunk>)
    requires WellFormed(a + b)
    ensures WellFormed(a) && WellFormed(b)
    ensures RecordsBytes(s, a + b) == RecordsBytes(s, a) + RecordsBytes(s, b)
    decreases |b|
  {
    PartsFit(a, b);
    if b == [] {
      assert a + b == a;
    } else {
      var n := |b| - 1;
      assert a + b == (a + b[..n]) + [b[n]] && b == b[..n] + [b[n]];
      PartsFit(a + b[..n], [b[n]]);
      RecordsAppend(s, a, b[..n]);
      LastRecordAppends(s, a + b[..n], b[n]);
      LastRecordAppends(s, b[..n], b[n]);
      Associative(RecordsBytes(s, a), RecordsBytes(s, b[..n]), ChunkRecord(s, b[n]));
    }
  }

  lemma {:induction false} LastRecordAppends(s: Session, a: seq<Chunk>, c: Chunk)
    requires WellFormed(a + [c])
    ensures WellFormed(a) && FitsChunk(c)
    ensures RecordsBytes(s, a + [c]) == RecordsBytes(s, a) + ChunkRecord(s, c)
  {
    PartsFit(a, [c]);
    assert (a + [c])[..|a|] == a && c in a + [c];
  }

  lemma Associative(a: Bytes, b: Bytes, c: Bytes)
    ensures (a + b) + c == a + (b + c)
  {
  }

  lemma PartsFit(a: seq<Chunk>, b: seq<Chunk>)
    requires WellFormed(a + b)
    ensures WellFormed(a) && WellFormed(b)
  {
    assert a == (a + b)[..|a|];
    forall c | c in b ensures FitsChunk(c) {
      assert c in a + b;
    }
    forall j, k | 0 <= j < k < |b| ensures b[j].sequence < b[k].sequence {
      assert b[j] == (a + b)[|a| + j] && b[k] == (a + b)[|a| + k];
    }
  }

  lemma {:induction false} LengthAppends(a: seq<Chunk>, b: seq<Chunk>)
    ensures RecordsLength(a + b) == RecordsLength(a) + RecordsLength(b)
    decreases |b|
  {
    if b == [] {
      assert a + b == a;
    } else {
      assert (a + b)[..|a| + |b| - 1] == a + b[..|b| - 1];
      LengthAppends(a, b[..|b| - 1]);
    }
  }

  // The index of two runs of chunks is that of the first, then that of the second from its end.
  lemma {:induction false} EntriesAppend(a: seq<Chunk>, b: seq<Chunk>, start: nat, middle: nat)
    requires middle == start + RecordsLength(a)
    ensures EntriesOf(a + b, start) == EntriesOf(a, start) + EntriesOf(b, middle)
    decreases |b|
  {
    if b == [] {
      assert a + b == a;
    } else {
      var n := |b| - 1;
      assert (a + b)[..|a| + n] == a + b[..n];
      EntriesAppend(a, b[..n], start, middle);
      LengthAppends(a, b[..n]);
    }
  }

  // An index made at position zero, moved by a base offset.
  function Rebased(entries: seq<IndexEntry>, base: nat): (r: seq<IndexEntry>)
    ensures |r| == |entries|
  {
    seq(|entries|, k requires 0 <= k < |entries| => entries[k].(offset := entries[k].offset + base))
  }

  lemma {:induction false} RebasedIndex(chunks: seq<Chunk>, base: nat)
    ensures Rebased(EntriesOf(chunks, 0), base) == EntriesOf(chunks, base)
  {
    if chunks != [] {
      var n := |chunks| - 1;
      RebasedIndex(chunks[..n], base);
      assert EntriesOf(chunks, 0)[..n] == EntriesOf(chunks[..n], 0);
      assert Rebased(EntriesOf(chunks, 0), base)[..n] == Rebased(EntriesOf(chunks[..n], 0), base);
    }
  }

  lemma {:induction false} EntriesFit(chunks: seq<Chunk>, start: nat)
    requires WellFormed(chunks) && start + RecordsLength(chunks) < U64
    ensures FitEntries(EntriesOf(chunks, start))
  {
    if chunks != [] {
      var n := |chunks| - 1;
      FirstChunksFit(chunks, n);
      EntriesFit(chunks[..n], start);
      assert chunks[n] in chunks;
    }
  }

  // ---- One captured file's pieces ----

  lemma {:induction false} BytesWithinRecords(chunks: seq<Chunk>)
    ensures TotalBytes(chunks) <= RecordsLength(chunks)
  {
    if chunks != [] {
      BytesWithinRecords(chunks[..|chunks| - 1]);
    }
  }

  // The pieces a file is written as: one for each read, or a single empty one.
  ghost predicate SplitAs(group: seq<Piece>, blocks: seq<Bytes>) {
    if blocks == [] then |group| == 1 && group[0].plaintext == []
    else |group| == |blocks| && forall k | 0 <= k < |blocks| :: group[k].plaintext == blocks[k]
  }

  lemma {:induction false} SplitHolds(group: seq<Piece>, blocks: seq<Bytes>)
    requires |group| == |blocks| && forall k | 0 <= k < |blocks| :: group[k].plaintext == blocks[k]
    ensures Content(group) == Concat(blocks)
  {
    if blocks != [] {
      SplitHolds(group[..|group| - 1], blocks[..|blocks| - 1]);
    }
  }

  lemma {:induction false} SplitContent(group: seq<Piece>, blocks: seq<Bytes>)
    requires SplitAs(group, blocks)
    ensures Content(group) == Concat(blocks) && group != []
  {
    if blocks != [] {
      SplitHolds(group, blocks);
    }
  }

  lemma {:induction false} StagedSequences(item: nat, group: seq<Piece>)
    ensures Sequences(EntriesOf(GroupChunks(item, group), 0)) == GroupSequences(group)
  {
    if group != [] {
      var n := |group| - 1;
      StagedSequences(item, group[..n]);
      assert GroupChunks(item, group)[..n] == GroupChunks(item, group[..n]);
      SequencesSplit(EntriesOf(GroupChunks(item, group), 0));
    }
  }

  // Consecutive pieces numbered below `next` and no lower than `floor`.
  ghost predicate Numbered(group: seq<Piece>, floor: nat, next: nat) {
    && (forall k | 0 <= k < |group| :: floor <= group[k].sequence < next && |group[k].plaintext| <= MAX_CHUNK)
    && (forall j, k | 0 <= j < k < |group| :: group[j].sequence < group[k].sequence)
  }

  // ---- One more item ----

  // What the writer has put into the file and the index: exactly the captured groups.
  ghost predicate Written(s: Session, header: Bytes, groups: Groups, file: Bytes, count: nat, index: seq<IndexEntry>,
                          next: nat)
  {
    var chunks := Chunks(groups);
    && |header| == HEADER_LENGTH && WellFormed(chunks) && |file| < U64 && next < U64
    && file == PartialFile(s, header, chunks) && count == |chunks|
    && index == EntriesOf(chunks, HEADER_LENGTH)
    && (chunks != [] ==> chunks[|chunks| - 1].sequence < next)
  }

  lemma NewChunksFit(chunks: seq<Chunk>, item: nat, group: seq<Piece>, floor: nat, next: nat)
    requires WellFormed(chunks) && (chunks != [] ==> chunks[|chunks| - 1].sequence < floor)
    requires Numbered(group, floor, next) && next < U64 && item < U32 && |group| <= U32
    ensures WellFormed(chunks + GroupChunks(item, group)) && WellFormed(GroupChunks(item, group))
  {
    var more := GroupChunks(item, group);
    forall c | c in more ensures FitsChunk(c) {
      var k :| 0 <= k < |more| && more[k] == c;
    }
    var all := chunks + more;
    forall j, k | 0 <= j < k < |all| ensures all[j].sequence < all[k].sequence {
      if j < |chunks| <= k {
        assert all[j].sequence <= chunks[|chunks| - 1].sequence;
      }
    }
  }

  // Writing an item's records and index entries at the end keeps the file and index exact.
  lemma {:induction false} ItemAppends(s: Session, header: Bytes, groups: Groups, file: Bytes, count: nat,
                                       index: seq<IndexEntry>, floor: nat, group: seq<Piece>, next: nat, file': Bytes,
                                       count': nat, index': seq<IndexEntry>)
    requires Written(s, header, groups, file, count, index, floor) && floor <= next < U64
    requires Numbered(group, floor, next) && |groups| < U32 && |group| <= U32 && |file'| < U64
    requires WellFormed(GroupChunks(|groups|, group))
    requires file' == file + RecordsBytes(s, GroupChunks(|groups|, group))
    requires count' == count + |group| && index' == index + EntriesOf(GroupChunks(|groups|, group), |file|)
    ensures Written(s, header, groups + [group], file', count', index', next)
  {
    var chunks, more := Chunks(groups), GroupChunks(|groups|, group);
    assert (groups + [group])[..|groups|] == groups;
    NewChunksFit(chunks, |groups|, group, floor, next);
    FileAppends(s, header, chunks, more, file, file');
    EntriesAppend(chunks, more, HEADER_LENGTH, |file|);
  }

  lemma {:induction false} FileAppends(s: Session, header: Bytes, chunks: seq<Chunk>, more: seq<Chunk>, file: Bytes,
                                       file': Bytes)
    requires WellFormed(chunks) && WellFormed(more) && WellFormed(chunks + more)
    requires file == PartialFile(s, header, chunks) && file' == file + RecordsBytes(s, more)
    ensures file' == PartialFile(s, header, chunks + more)
  {
    RecordsAppend(s, chunks, more);
    Associative(header, RecordsBytes(s, chunks), RecordsBytes(s, more));
  }

  // ---- A stage file ----

  // What a stage file and the index beside it hold: the pieces captured so far.
  ghost predicate Staged(s: Session, item: nat, group: seq<Piece>, floor: nat, next: nat, file: Bytes, count: nat,
                         index: seq<IndexEntry>)
  {
    var chunks := GroupChunks(item, group);
    && Numbered(group, floor, next) && WellFormed(chunks) && |group| < U32
    && file == RecordsBytes(s, chunks) && count == |group| && index == EntriesOf(chunks, 0)
  }

  lemma PieceNumbered(group: seq<Piece>, floor: nat, next: nat, block: Bytes)
    requires Numbered(group, floor, next) && floor <= next && |block| <= MAX_CHUNK
    ensures Numbered(group + [Piece(next, block)], floor, next + 1)
  {
  }

  // There are no more pieces than numbers for them.
  lemma {:induction false} NumberedCount(group: seq<Piece>, floor: nat, next: nat)
    requires Numbered(group, floor, next) && floor <= next
    ensures |group| <= next - floor
  {
    var n := |group| - 1;
    if group != [] {
      assert Numbered(group[..n], floor, group[n].sequence);
      NumberedCount(group[..n], floor, group[n].sequence);
    }
  }

  lemma PieceChunks(item: nat, group: seq<Piece>, next: nat, block: Bytes)
    ensures GroupChunks(item, group + [Piece(next, block)])
         == GroupChunks(item, group) + [Chunk(next, item, |group|, block)]
  {
  }

  lemma {:induction false} ChunkAppends(s: Session, chunks: seq<Chunk>, c: Chunk, offset: nat)
    requires WellFormed(chunks + [c]) && offset == RecordsLength(chunks)
    ensures WellFormed(chunks) && FitsChunk(c)
    ensures RecordsBytes(s, chunks + [c]) == RecordsBytes(s, chunks) + ChunkRecord(s, c)
    ensures EntriesOf(chunks + [c], 0) == EntriesOf(chunks, 0) + [EntryOf(c, offset)]
  {
    LastRecordAppends(s, chunks, c);
    assert (chunks + [c])[..|chunks|] == chunks;
  }

  lemma PieceStaged(s: Session, item: nat, group: seq<Piece>, floor: nat, next: nat, file: Bytes, count: nat,
                    index: seq<IndexEntry>, block: Bytes, chunk: Chunk, offset: nat)
    requires Staged(s, item, group, floor, next, file, count, index) && floor <= next && next + 1 < U64 && item < U32
    requires |group| + 1 < U32 && |block| <= MAX_CHUNK && chunk == Chunk(next, item, |group|, block) && offset == |file|
    ensures FitsChunk(chunk)
    ensures Staged(s, item, group + [Piece(next, block)], floor, next + 1, file + ChunkRecord(s, chunk), count + 1,
                   index + [EntryOf(chunk, offset)])
  {
    var more := group + [Piece(next, block)];
    PieceNumbered(group, floor, next, block);
    PieceChunks(item, group, next, block);
    assert WellFormed(GroupChunks(item, more)) by {
      NewChunksFit([], item, more, floor, next + 1);
    }
    ChunkAppends(s, GroupChunks(item, group), chunk, offset);
  }
}
