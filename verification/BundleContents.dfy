// What the bytes of a Bundle stand for: the content chunks it holds, where each of them
// lies, and the completed file built from them. Reading such a file gives them back.
module BundleContents {
  import opened Outcomes
  import opened Cells
  import opened Records
  import opened PublicHeader
  import opened BundleReader

  // ---- Sealed records ----

  function SealRecord(s: Session, kind: Byte, sequence: nat, item: nat, chunk: nat, plaintext: Bytes): (r: Bytes)
    requires sequence < U64 && item < U32 && chunk < U32 && |plaintext| + TAG < U32
    ensures |r| == RECORD_HEADER_LENGTH + |plaintext| + TAG
  {
    var raw := EncodeRecordHeader(RecordHeader(kind, sequence, item, chunk, |plaintext|, |plaintext| + TAG));
    raw + Encrypt(RecordKey(s, kind), RecordNonce(s, sequence), RecordAad(s, raw), plaintext)
  }

  // A sealed record is found where it was put, with its header, and opens to its plaintext.
  lemma SealedRecordIsFound(s: Session, file: Bytes, offset: nat, previous: Option<nat>, kind: Byte, sequence: nat,
                            item: nat, chunk: nat, plaintext: Bytes)
    requires sequence < U64 && item < U32 && chunk < U32
    requires RecordLimit(kind).Some? && |plaintext| <= RecordLimit(kind).value
    requires previous.Some? ==> previous.value < sequence
    requires offset <= |file| && SealRecord(s, kind, sequence, item, chunk, plaintext) <= file[offset..]
    ensures var h := RecordHeader(kind, sequence, item, chunk, |plaintext|, |plaintext| + TAG);
      var found := FindRecord(file, offset, previous);
      && found.Ok? && found.value.header == h
      && found.value.end == offset + RECORD_HEADER_LENGTH + |plaintext| + TAG
      && OpenRecord(s, h, found.value.raw, found.value.ciphertext) == Some(plaintext)
  {
    var h := RecordHeader(kind, sequence, item, chunk, |plaintext|, |plaintext| + TAG);
    var raw := EncodeRecordHeader(h);
    var sealed := SealRecord(s, kind, sequence, item, chunk, plaintext);
    var end := offset + |sealed|;
    assert file[offset..end] == sealed;
    assert file[offset..offset + RECORD_HEADER_LENGTH] == sealed[..RECORD_HEADER_LENGTH] == raw;
    assert file[offset + RECORD_HEADER_LENGTH..end] == sealed[RECORD_HEADER_LENGTH..];
    RecordHeaderCodec(raw, h);
    OpensOnlyAsSealed(RecordKey(s, kind), RecordNonce(s, sequence), RecordAad(s, raw), plaintext,
                      RecordKey(s, kind), RecordNonce(s, sequence), RecordAad(s, raw));
  }

  predicate IsRecordKind(kind: Byte) {
    kind == CONTENT || kind == MANIFEST || kind == INDEX || kind == COMPLETION
  }

  // Every kind of record has a key of its own, and every sequence a nonce of its own.
  lemma KeysApart(s: Session, t: Session, a: Byte, b: Byte)
    requires IsRecordKind(a) && IsRecordKind(b)
    ensures RecordKey(s, a) == RecordKey(t, b) <==>
              a == b && s.material.(noncePrefix := []) == t.material.(noncePrefix := [])
  {
    var p, q := [s.material.dataKey, s.material.salt, s.material.identifier],
                [t.material.dataKey, t.material.salt, t.material.identifier];
    DerivationIsInjective(Purpose(a), p, Purpose(b), q);
    if p == q {
      assert p[0] == q[0] && p[1] == q[1] && p[2] == q[2];
    }
  }

  lemma NoncesApart(s: Session, m: nat, n: nat)
    requires m < U64 && n < U64
    ensures RecordNonce(s, m) == RecordNonce(s, n) <==> m == n
  {
    Widths();
    BigEndianRoundTrip(m, 8);
    BigEndianRoundTrip(n, 8);
    assert RecordNonce(s, m)[|s.material.noncePrefix|..] == BigEndian(m, 8);
    assert RecordNonce(s, n)[|s.material.noncePrefix|..] == BigEndian(n, 8);
  }

  lemma SameAad(s: Session, t: Session, h: RecordHeader, k: RecordHeader)
    requires FitsRecord(h) && Consistent(h) && FitsRecord(k) && Consistent(k)
    requires |s.headerHash| == |t.headerHash| && s.material.identifier == t.material.identifier
    requires RecordAad(s, EncodeRecordHeader(h)) == RecordAad(t, EncodeRecordHeader(k))
    ensures s.headerHash == t.headerHash && h == k
  {
    var a, b := RecordAad(s, EncodeRecordHeader(h)), RecordAad(t, EncodeRecordHeader(k));
    var at := |a| - RECORD_HEADER_LENGTH;
    assert a[..|s.headerHash|] == s.headerHash && b[..|t.headerHash|] == t.headerHash;
    assert a[at..] == EncodeRecordHeader(h) && b[at..] == EncodeRecordHeader(k);
    RecordHeaderCodec(EncodeRecordHeader(h), h);
    RecordHeaderCodec(EncodeRecordHeader(k), k);
  }

  lemma SameNoncePrefix(s: Session, t: Session, m: nat)
    requires m < U64 && RecordNonce(s, m) == RecordNonce(t, m)
    ensures s.material.noncePrefix == t.material.noncePrefix
  {
    Widths();
    var a, b := RecordNonce(s, m), RecordNonce(t, m);
    assert a[..|a| - 8] == s.material.noncePrefix && b[..|b| - 8] == t.material.noncePrefix;
  }

  // A record opens nowhere but under the header and the session it was sealed with: not in another
  // Bundle, not for another item or chunk, not at another place in the order.
  lemma RecordIsBound(s: Session, t: Session, h: RecordHeader, k: RecordHeader, plaintext: Bytes)
    requires FitsRecord(h) && Consistent(h) && FitsRecord(k) && Consistent(k)
    requires IsRecordKind(h.kind) && IsRecordKind(k.kind) && |s.headerHash| == |t.headerHash|
    ensures var raw := EncodeRecordHeader(h);
      var sealed := Encrypt(RecordKey(s, h.kind), RecordNonce(s, h.sequence), RecordAad(s, raw), plaintext);
      OpenRecord(t, k, EncodeRecordHeader(k), sealed) == if t == s && k == h then Some(plaintext) else None
  {
    var raw, other := EncodeRecordHeader(h), EncodeRecordHeader(k);
    OpensOnlyAsSealed(RecordKey(s, h.kind), RecordNonce(s, h.sequence), RecordAad(s, raw), plaintext,
                      RecordKey(t, k.kind), RecordNonce(t, k.sequence), RecordAad(t, other));
    KeysApart(s, t, h.kind, k.kind);
    if RecordKey(s, h.kind) == RecordKey(t, k.kind) && RecordAad(s, raw) == RecordAad(t, other) {
      assert s.material.identifier == s.material.(noncePrefix := []).identifier;
      assert t.material.identifier == t.material.(noncePrefix := []).identifier;
      SameAad(s, t, h, k);
      if RecordNonce(s, h.sequence) == RecordNonce(t, k.sequence) {
        SameNoncePrefix(s, t, h.sequence);
      }
    }
  }

  // ---- Content chunks ----

  datatype Chunk = Chunk(sequence: nat, item: nat, chunk: nat, plaintext: Bytes)

  ghost predicate FitsChunk(c: Chunk) {
    c.sequence < U64 && c.item < U32 && c.chunk < U32 && |c.plaintext| <= MAX_CHUNK
  }

  // The chunks a reader can meet: every field in range, sequences strictly increasing.
  ghost predicate WellFormed(chunks: seq<Chunk>) {
    && (forall c | c in chunks :: FitsChunk(c))
    && (forall j, k | 0 <= j < k < |chunks| :: chunks[j].sequence < chunks[k].sequence)
  }

  function ChunkRecord(s: Session, c: Chunk): Bytes
    requires FitsChunk(c)
  {
    SealRecord(s, CONTENT, c.sequence, c.item, c.chunk, c.plaintext)
  }

  function RecordLength(c: Chunk): nat {
    RECORD_HEADER_LENGTH + |c.plaintext| + TAG
  }

  function RecordsLength(chunks: seq<Chunk>): nat {
    if chunks == [] then 0 else RecordsLength(chunks[..|chunks| - 1]) + RecordLength(chunks[|chunks| - 1])
  }

  ghost function RecordsBytes(s: Session, chunks: seq<Chunk>): (r: Bytes)
    requires WellFormed(chunks)
    ensures |r| == RecordsLength(chunks)
  {
    if chunks == [] then []
    else RecordsBytes(s, chunks[..|chunks| - 1]) + ChunkRecord(s, chunks[|chunks| - 1])
  }

  function EntryOf(c: Chunk, offset: nat): IndexEntry {
    IndexEntry(c.sequence, c.item, c.chunk, offset, |c.plaintext|, |c.plaintext| + TAG)
  }

  // The index of the chunks when the first one's record lies at `start`.
  function EntriesOf(chunks: seq<Chunk>, start: nat): (r: seq<IndexEntry>)
    ensures |r| == |chunks|
  {
    if chunks == [] then []
    else
      var front := chunks[..|chunks| - 1];
      EntriesOf(front, start) + [EntryOf(chunks[|chunks| - 1], start + RecordsLength(front))]
  }

  function TotalBytes(chunks: seq<Chunk>): nat {
    if chunks == [] then 0 else TotalBytes(chunks[..|chunks| - 1]) + |chunks[|chunks| - 1].plaintext|
  }

  function ContentsOf(chunks: seq<Chunk>): map<nat, Bytes> {
    if chunks == [] then map[]
    else
      var last := chunks[|chunks| - 1];
      Appended(ContentsOf(chunks[..|chunks| - 1]), last.item, last.plaintext)
  }

  // ---- Where the records lie ----

  // The position of the record of chunk `k`, and of the end of the records when k == |chunks|.
  function At(chunks: seq<Chunk>, start: nat, k: nat): (r: nat)
    requires k <= |chunks|
    ensures r >= start
  {
    start + RecordsLength(chunks[..k])
  }

  lemma AtGrows(chunks: seq<Chunk>, start: nat, k: nat)
    requires k < |chunks|
    ensures At(chunks, start, k + 1) == At(chunks, start, k) + RecordLength(chunks[k])
  {
    assert chunks[..k + 1][..k] == chunks[..k];
  }

  lemma FirstChunksFit(chunks: seq<Chunk>, k: nat)
    requires WellFormed(chunks) && k <= |chunks|
    ensures WellFormed(chunks[..k])
  {
  }

  lemma {:induction false} OneMoreRecord(s: Session, chunks: seq<Chunk>, k: nat)
    requires WellFormed(chunks) && k < |chunks|
    ensures WellFormed(chunks[..k]) && WellFormed(chunks[..k + 1]) && FitsChunk(chunks[k])
    ensures RecordsBytes(s, chunks[..k + 1]) == RecordsBytes(s, chunks[..k]) + ChunkRecord(s, chunks[k])
  {
    FirstChunksFit(chunks, k);
    FirstChunksFit(chunks, k + 1);
    assert chunks[..k + 1][..k] == chunks[..k];
  }

  lemma {:induction false} FirstRecordsFirst(s: Session, chunks: seq<Chunk>, k: nat)
    requires WellFormed(chunks) && k <= |chunks|
    ensures WellFormed(chunks[..k]) && RecordsBytes(s, chunks[..k]) <= RecordsBytes(s, chunks)
    decreases |chunks| - k
  {
    if k < |chunks| {
      OneMoreRecord(s, chunks, k);
      FirstRecordsFirst(s, chunks, k + 1);
    } else {
      assert chunks[..k] == chunks;
    }
  }

  // Every chunk's record lies in the file where the index says it does.
  lemma {:induction false} RecordIsAt(s: Session, file: Bytes, start: nat, chunks: seq<Chunk>, k: nat)
    requires WellFormed(chunks) && k < |chunks| && start <= |file| && RecordsBytes(s, chunks) <= file[start..]
    ensures FitsChunk(chunks[k]) && At(chunks, start, k) <= |file|
    ensures ChunkRecord(s, chunks[k]) <= file[At(chunks, start, k)..]
  {
    OneMoreRecord(s, chunks, k);
    FirstRecordsFirst(s, chunks, k + 1);
    PieceInside(file, start, RecordsBytes(s, chunks), RecordsBytes(s, chunks[..k]), ChunkRecord(s, chunks[k]),
                At(chunks, start, k));
  }

  lemma PieceInside(file: Bytes, start: nat, whole: Bytes, before: Bytes, piece: Bytes, at: nat)
    requires start <= |file| && whole <= file[start..] && before + piece <= whole && at == start + |before|
    ensures at <= |file| && piece <= file[at..]
  {
    var rest := file[start..];
    assert rest[..|before| + |piece|] == before + piece;
    assert rest[|before|..|before| + |piece|] == piece;
    assert file[at..][..|piece|] == piece;
  }

  // Entry `k` of the index is chunk `k` at its record's position.
  lemma {:induction false} EntryAt(chunks: seq<Chunk>, start: nat, k: nat)
    requires k < |chunks|
    ensures EntriesOf(chunks, start)[k] == EntryOf(chunks[k], At(chunks, start, k))
    decreases |chunks|
  {
    var n := |chunks| - 1;
    if k < n {
      EntryAt(chunks[..n], start, k);
      assert chunks[..n][..k] == chunks[..k];
    }
  }

  // ---- Reading the chunks back ----

  function ReadingOf(chunks: seq<Chunk>, start: nat, verify: bool): Reading {
    NOTHING_READ.(previous := if chunks == [] then None else Some(chunks[|chunks| - 1].sequence),
                  count := |chunks|,
                  entries := EntriesOf(chunks, start),
                  contents := if verify then ContentsOf(chunks) else map[],
                  bytes := if verify then TotalBytes(chunks) else 0)
  }

  function AfterChunk(st: Reading, c: Chunk, offset: nat, verify: bool): Reading {
    st.(previous := Some(c.sequence), count := st.count + 1, entries := st.entries + [EntryOf(c, offset)],
        contents := if verify then Appended(st.contents, c.item, c.plaintext) else st.contents,
        bytes := if verify then st.bytes + |c.plaintext| else st.bytes)
  }

  lemma ReadingGrows(chunks: seq<Chunk>, start: nat, k: nat, verify: bool)
    requires k < |chunks|
    ensures AfterChunk(ReadingOf(chunks[..k], start, verify), chunks[k], At(chunks, start, k), verify)
         == ReadingOf(chunks[..k + 1], start, verify)
  {
    var more := chunks[..k + 1];
    assert more[..k] == chunks[..k] && more[k] == chunks[k];
  }

  lemma FoundContentIsRead(s: Session, file: Bytes, offset: nat, st: Reading, f: Found, c: Chunk, verify: bool)
    requires offset < |file| && FindRecord(file, offset, st.previous) == Ok(f) && c.sequence < U64
    requires f.header == RecordHeader(CONTENT, c.sequence, c.item, c.chunk, |c.plaintext|, |c.plaintext| + TAG)
    requires OpenRecord(s, f.header, f.raw, f.ciphertext) == Some(c.plaintext)
    requires st.manifest.None? && st.bytes + |c.plaintext| < U64
    ensures ReadOne(s, file, offset, st, verify) == More(AfterChunk(st, c, offset, verify), f.end)
  {
  }

  lemma {:induction false} TotalOfFirst(chunks: seq<Chunk>, k: nat)
    requires k < |chunks|
    ensures TotalBytes(chunks[..k]) + |chunks[k].plaintext| == TotalBytes(chunks[..k + 1]) <= TotalBytes(chunks)
    decreases |chunks| - k
  {
    assert chunks[..k + 1][..k] == chunks[..k];
    if k + 1 < |chunks| {
      TotalOfFirst(chunks, k + 1);
    } else {
      assert chunks[..k + 1] == chunks;
    }
  }

  lemma {:induction false} ChunkReadsBack(s: Session, file: Bytes, start: nat, chunks: seq<Chunk>, k: nat, verify: bool)
    requires WellFormed(chunks) && TotalBytes(chunks) < U64 && k < |chunks|
    requires start <= |file| && RecordsBytes(s, chunks) <= file[start..]
    ensures At(chunks, start, k) < At(chunks, start, k + 1) <= |file|
    ensures ReadOne(s, file, At(chunks, start, k), ReadingOf(chunks[..k], start, verify), verify)
         == More(ReadingOf(chunks[..k + 1], start, verify), At(chunks, start, k + 1))
  {
    var c, at, st := chunks[k], At(chunks, start, k), ReadingOf(chunks[..k], start, verify);
    RecordIsAt(s, file, start, chunks, k);
    AtGrows(chunks, start, k);
    SealedRecordIsFound(s, file, at, st.previous, CONTENT, c.sequence, c.item, c.chunk, c.plaintext);
    TotalOfFirst(chunks, k);
    FoundContentIsRead(s, file, at, st, FindRecord(file, at, st.previous).value, c, verify);
    ReadingGrows(chunks, start, k, verify);
  }

  ghost predicate StepsOver(step: (nat, Reading) -> Step, length: nat, start: nat, chunks: seq<Chunk>, k: nat,
                            verify: bool)
    requires k < |chunks|
  {
    && At(chunks, start, k) < At(chunks, start, k + 1) <= length
    && step(At(chunks, start, k), ReadingOf(chunks[..k], start, verify))
       == More(ReadingOf(chunks[..k + 1], start, verify), At(chunks, start, k + 1))
  }

  lemma {:induction false} WalkOverChunks(step: (nat, Reading) -> Step, length: nat, start: nat, chunks: seq<Chunk>,
                                          k: nat, verify: bool)
    requires forall j | 0 <= j < |chunks| :: StepsOver(step, length, start, chunks, j, verify)
    requires start <= length && k <= |chunks|
    ensures At(chunks, start, k) <= length
    ensures Walk(step, length, start, NOTHING_READ)
         == Walk(step, length, At(chunks, start, k), ReadingOf(chunks[..k], start, verify))
  {
    if k > 0 {
      WalkOverChunks(step, length, start, chunks, k - 1, verify);
      assert StepsOver(step, length, start, chunks, k - 1, verify);
    } else {
      assert At(chunks, start, k) == start && ReadingOf(chunks[..k], start, verify) == NOTHING_READ;
    }
  }

  // The chunks' records leave the reader after them, knowing exactly them.
  lemma {:induction false} ChunksReadBack(s: Session, file: Bytes, start: nat, chunks: seq<Chunk>, verify: bool)
    requires WellFormed(chunks) && TotalBytes(chunks) < U64
    requires start <= |file| && RecordsBytes(s, chunks) <= file[start..]
    ensures At(chunks, start, |chunks|) <= |file|
    ensures Walk(Stepper(s, file, verify), |file|, start, NOTHING_READ)
         == Walk(Stepper(s, file, verify), |file|, At(chunks, start, |chunks|), ReadingOf(chunks, start, verify))
  {
    var step := Stepper(s, file, verify);
    forall k | 0 <= k < |chunks|
      ensures StepsOver(step, |file|, start, chunks, k, verify)
    {
      ChunkReadsBack(s, file, start, chunks, k, verify);
    }
    WalkOverChunks(step, |file|, start, chunks, |chunks|, verify);
    assert chunks[..|chunks|] == chunks;
  }

  // ---- Paused and completed files ----

  ghost predicate IsSession(s: Session, header: Bytes) {
    |header| == HEADER_LENGTH && s.headerHash == Hash(header)
  }

  ghost function PartialFile(s: Session, header: Bytes, chunks: seq<Chunk>): (r: Bytes)
    requires WellFormed(chunks)
    ensures |r| == |header| + RecordsLength(chunks)
  {
    header + RecordsBytes(s, chunks)
  }

  // A paused file, whatever its name, is incomplete to the reader.
  lemma {:induction false} PausedFileIsIncomplete(s: Session, header: Bytes, chunks: seq<Chunk>, secret: RecoverySecret,
                                                  verify: bool)
    requires IsSession(s, header) && WellFormed(chunks) && TotalBytes(chunks) < U64
    requires DecodeHeader(header, secret) == Ok(s.material)
    ensures Open(PartialFile(s, header, chunks), secret, verify)
         == Err(if chunks == [] then Truncated else Incomplete)
  {
    var file := PartialFile(s, header, chunks);
    assert file[..HEADER_LENGTH] == header;
    assert file[HEADER_LENGTH..] == RecordsBytes(s, chunks);
    ChunksReadBack(s, file, HEADER_LENGTH, chunks, verify);
    assert chunks[..|chunks|] == chunks;
    assert Stepper(s, file, verify)(|file|, ReadingOf(chunks, HEADER_LENGTH, verify)) == Fail(Incomplete);
  }

  ghost predicate CanComplete(chunks: seq<Chunk>, size: nat, next: nat) {
    && WellFormed(chunks) && FitEntries(EntriesOf(chunks, HEADER_LENGTH)) && IndexFits(EntriesOf(chunks, HEADER_LENGTH))
    && TotalBytes(chunks) < U64
    && 0 < size <= MAX_MANIFEST && next + 2 < U64
    && (chunks != [] ==> chunks[|chunks| - 1].sequence < next)
  }

  ghost function ManifestRecord(s: Session, m: Manifest, size: nat, next: nat): Bytes
    requires size <= MAX_MANIFEST && next < U64
  {
    SealRecord(s, MANIFEST, next, NO_ORDINAL, NO_ORDINAL, EncodeManifest(m, size))
  }

  ghost function IndexRecord(s: Session, entries: seq<IndexEntry>, next: nat): Bytes
    requires FitEntries(entries) && IndexFits(entries) && next < U64
  {
    SealRecord(s, INDEX, next, NO_ORDINAL, NO_ORDINAL, IndexBytes(entries))
  }

  // The part of a completed file that its completion record's hash covers.
  ghost function CoveredFile(s: Session, header: Bytes, chunks: seq<Chunk>, m: Manifest, size: nat, next: nat): Bytes
    requires CanComplete(chunks, size, next)
  {
    PartialFile(s, header, chunks) + ManifestRecord(s, m, size, next)
    + IndexRecord(s, EntriesOf(chunks, HEADER_LENGTH), next + 1)
  }

  ghost function CompletionRecord(s: Session, covered: Bytes, count: nat, next: nat): Bytes
    requires next + 2 < U64 && count < U64
  {
    SealRecord(s, COMPLETION, next + 2, NO_ORDINAL, NO_ORDINAL, EncodeCompletion(Hash(covered), count, next, next + 1))
  }

  ghost function CompleteFile(s: Session, header: Bytes, chunks: seq<Chunk>, m: Manifest, size: nat, next: nat): Bytes
    requires CanComplete(chunks, size, next)
  {
    var covered := CoveredFile(s, header, chunks, m, size, next);
    covered + CompletionRecord(s, covered, |chunks| + 2, next)
  }

  function AfterManifest(st: Reading, m: Manifest, next: nat): Reading {
    st.(manifest := Some(m), manifestSequence := Some(next), previous := Some(next), count := st.count + 1)
  }

  function AfterIndex(st: Reading, entries: seq<IndexEntry>, next: nat): Reading {
    st.(index := Some(entries), indexSequence := Some(next), previous := Some(next), count := st.count + 1)
  }

  lemma ManifestStep(s: Session, file: Bytes, offset: nat, st: Reading, m: Manifest, size: nat, next: nat, end: nat,
                     after: Reading, verify: bool)
    requires end == offset + RECORD_HEADER_LENGTH + size + TAG && after == AfterManifest(st, m, next)
    requires 0 < size <= MAX_MANIFEST && next < U64 && offset <= |file|
    requires ManifestRecord(s, m, size, next) <= file[offset..]
    requires st.manifest.None? && st.index.None? && (st.previous.Some? ==> st.previous.value < next)
    ensures Stepper(s, file, verify)(offset, st) == More(after, end)
  {
    SealedRecordIsFound(s, file, offset, st.previous, MANIFEST, next, NO_ORDINAL, NO_ORDINAL, EncodeManifest(m, size));
    ManifestDecodes(m, size);
  }

  lemma FoundIndexIsRead(s: Session, file: Bytes, offset: nat, st: Reading, f: Found, entries: seq<IndexEntry>,
                         plaintext: Bytes, verify: bool)
    requires offset < |file| && FindRecord(file, offset, st.previous) == Ok(f) && f.header.kind == INDEX
    requires OpenRecord(s, f.header, f.raw, f.ciphertext) == Some(plaintext) && ParseIndex(plaintext) == Ok(entries)
    requires st.manifest.Some? && st.index.None?
    ensures ReadOne(s, file, offset, st, verify) == More(AfterIndex(st, entries, f.header.sequence), f.end)
  {
  }

  lemma IndexStep(s: Session, file: Bytes, offset: nat, st: Reading, entries: seq<IndexEntry>, next: nat, end: nat,
                  after: Reading, verify: bool)
    requires after == AfterIndex(st, entries, next)
    requires FitEntries(entries) && IndexFits(entries) && next < U64 && offset <= |file|
    requires st.manifest.Some? && st.index.None? && (st.previous.Some? ==> st.previous.value < next)
    requires IndexRecord(s, entries, next) <= file[offset..] && end == offset + |IndexRecord(s, entries, next)|
    ensures Stepper(s, file, verify)(offset, st) == More(after, end)
  {
    var plaintext := IndexBytes(entries);
    IndexCodec(plaintext, entries);
    SealedRecordIsFound(s, file, offset, st.previous, INDEX, next, NO_ORDINAL, NO_ORDINAL, plaintext);
    FoundIndexIsRead(s, file, offset, st, FindRecord(file, offset, st.previous).value, entries, plaintext, verify);
  }

  lemma CompletionStep(s: Session, file: Bytes, covered: Bytes, at: nat, st: Reading, count: nat, next: nat,
                       verify: bool)
    requires at == |covered| && st.count == count
    requires next + 2 < U64 && count < U64
    requires st.manifestSequence == Some(next) && st.indexSequence == Some(next + 1) && st.previous == Some(next + 1)
    requires file == covered + CompletionRecord(s, covered, count, next)
    ensures at <= |file| && Stepper(s, file, verify)(at, st) == Finished(st)
  {
    var completion := EncodeCompletion(Hash(covered), count, next, next + 1);
    assert file[at..] == CompletionRecord(s, covered, count, next);
    assert file[..at] == covered;
    SealedRecordIsFound(s, file, at, st.previous, COMPLETION, next + 2, NO_ORDINAL, NO_ORDINAL, completion);
    CompletionCodec(completion, Hash(covered), count, st.manifestSequence, st.indexSequence);
  }

  function FinalReading(chunks: seq<Chunk>, m: Manifest, next: nat, verify: bool): Reading {
    AfterIndex(AfterManifest(ReadingOf(chunks, HEADER_LENGTH, verify), m, next), EntriesOf(chunks, HEADER_LENGTH),
               next + 1)
  }

  lemma PieceLies(file: Bytes, before: Bytes, piece: Bytes, after: Bytes)
    requires file == before + piece + after
    ensures |before| + |piece| + |after| == |file| && piece <= file[|before|..]
  {
    assert file[|before|..] == piece + after;
  }

  lemma {:induction false} FileParts(s: Session, header: Bytes, chunks: seq<Chunk>, m: Manifest, size: nat, next: nat,
                                     a: nat, b: nat, c: nat)
    requires |header| == HEADER_LENGTH && CanComplete(chunks, size, next)
    requires a == HEADER_LENGTH + RecordsLength(chunks) && b == a + RECORD_HEADER_LENGTH + size + TAG
    requires c == b + |IndexRecord(s, EntriesOf(chunks, HEADER_LENGTH), next + 1)|
    ensures var file := CompleteFile(s, header, chunks, m, size, next);
      && a < b < c <= |file| && c == |CoveredFile(s, header, chunks, m, size, next)|
      && RecordsBytes(s, chunks) <= file[HEADER_LENGTH..] && ManifestRecord(s, m, size, next) <= file[a..]
      && IndexRecord(s, EntriesOf(chunks, HEADER_LENGTH), next + 1) <= file[b..]
  {
    var completion := CompletionRecord(s, CoveredFile(s, header, chunks, m, size, next), |chunks| + 2, next);
    var index := IndexRecord(s, EntriesOf(chunks, HEADER_LENGTH), next + 1);
    var manifest := ManifestRecord(s, m, size, next);
    FivePieces(header, RecordsBytes(s, chunks), manifest, index, completion);
  }

  lemma FivePieces(p: Bytes, q: Bytes, r: Bytes, t: Bytes, u: Bytes)
    ensures var file := ((p + q) + r + t) + u;
      && |file| == |p| + |q| + |r| + |t| + |u|
      && q <= file[|p|..] && r <= file[|p| + |q|..] && t <= file[|p| + |q| + |r|..]
  {
    var file := ((p + q) + r + t) + u;
    PieceLies(file, p + q + r, t, u);
    assert file == (p + q) + r + (t + u);
    PieceLies(file, p + q, r, t + u);
    assert file == p + q + (r + (t + u));
    PieceLies(file, p, q, r + (t + u));
  }

  lemma {:induction false} TwoSteps(step: (nat, Reading) -> Step, length: nat, a: nat, x: Reading, b: nat, y: Reading)
    requires a < b <= length && step(a, x) == More(y, b) && step(b, y) == Finished(y)
    ensures Walk(step, length, a, x) == Ok(y)
  {
    assert Walk(step, length, b, y) == Ok(y);
  }

  lemma {:induction false} IndexOnReadsBack(s: Session, file: Bytes, b: nat, c: nat, y: Reading, next: nat,
                                            covered: Bytes, count: nat, z: Reading, verify: bool)
    requires next + 2 < U64 && z.count == count < U64 && FitEntries(y.entries) && IndexFits(y.entries)
    requires y.manifest.Some? && y.index.None? && y.previous == Some(next) == y.manifestSequence
    requires c == b + |IndexRecord(s, y.entries, next + 1)| == |covered|
    requires file == covered + CompletionRecord(s, covered, count, next)
    requires IndexRecord(s, y.entries, next + 1) <= file[b..]
    requires z == AfterIndex(y, y.entries, next + 1)
    ensures Walk(Stepper(s, file, verify), |file|, b, y) == Ok(z)
  {
    IndexStep(s, file, b, y, y.entries, next + 1, c, z, verify);
    CompletionStep(s, file, covered, c, z, count, next, verify);
    TwoSteps(Stepper(s, file, verify), |file|, b, y, c, z);
  }

  lemma {:induction false} TailReadsBack(s: Session, header: Bytes, chunks: seq<Chunk>, m: Manifest, size: nat,
                                         next: nat, verify: bool, file: Bytes, a: nat, x: Reading)
    requires |header| == HEADER_LENGTH && CanComplete(chunks, size, next) && a == HEADER_LENGTH + RecordsLength(chunks)
    requires file == CompleteFile(s, header, chunks, m, size, next) && x == ReadingOf(chunks, HEADER_LENGTH, verify)
    ensures a <= |file| && RecordsBytes(s, chunks) <= file[HEADER_LENGTH..]
    ensures Walk(Stepper(s, file, verify), |file|, a, x) == Ok(FinalReading(chunks, m, next, verify))
  {
    var b := a + RECORD_HEADER_LENGTH + size + TAG;
    var c := b + |IndexRecord(s, EntriesOf(chunks, HEADER_LENGTH), next + 1)|;
    FileParts(s, header, chunks, m, size, next, a, b, c);
    var y := AfterManifest(x, m, next);
    var z := AfterIndex(y, x.entries, next + 1);
    ManifestStep(s, file, a, x, m, size, next, b, y, verify);
    IndexOnReadsBack(s, file, b, c, y, next, CoveredFile(s, header, chunks, m, size, next), |chunks| + 2, z, verify);
  }

  // Walking a completed file learns its manifest, its index and its chunks' contents.
  lemma CompleteFileReadsBack(s: Session, header: Bytes, chunks: seq<Chunk>, m: Manifest, size: nat, next: nat,
                              verify: bool)
    requires |header| == HEADER_LENGTH && CanComplete(chunks, size, next)
    ensures ReadRecords(s, CompleteFile(s, header, chunks, m, size, next), verify)
         == Ok(FinalReading(chunks, m, next, verify))
  {
    var file := CompleteFile(s, header, chunks, m, size, next);
    var a := At(chunks, HEADER_LENGTH, |chunks|);
    assert chunks[..|chunks|] == chunks;
    TailReadsBack(s, header, chunks, m, size, next, verify, file, a, ReadingOf(chunks, HEADER_LENGTH, verify));
    ChunksReadBack(s, file, HEADER_LENGTH, chunks, verify);
  }
}
