// The IZ2 reader: it walks the records of a file, re-derives everything it can and
// cross-checks the index, the manifest, the counts, the hashes and the sizes.
module BundleReader {
  import opened Outcomes
  import opened Cells
  import opened Records
  import opened PublicHeader

  const NO_ORDINAL := U32 - 1

  // What one file's records are sealed under.
  datatype Session = Session(headerHash: Bytes, material: Opened)

  function SessionOf(header: Bytes, o: Opened): Session {
    Session(Hash(header), o)
  }

  function Purpose(kind: Byte): string {
    if kind == CONTENT then "content" else if kind == MANIFEST then "manifest"
    else if kind == INDEX then "index" else "completion"
  }

  function RecordKey(s: Session, kind: Byte): Bytes {
    Derive(Purpose(kind), [s.material.dataKey, s.material.salt, s.material.identifier])
  }

  function RecordNonce(s: Session, sequence: nat): Bytes
    requires sequence < U64
  {
    Widths();
    s.material.noncePrefix + BigEndian(sequence, 8)
  }

  function RecordAad(s: Session, rawHeader: Bytes): Bytes {
    s.headerHash + Preamble() + s.material.identifier + rawHeader
  }

  function OpenRecord(s: Session, h: RecordHeader, rawHeader: Bytes, ciphertext: Bytes): Option<Bytes>
    requires h.sequence < U64
  {
    Decrypt(RecordKey(s, h.kind), RecordNonce(s, h.sequence), RecordAad(s, rawHeader), ciphertext)
  }

  // ---- One step of the walk ----

  // What the reader has learned from the records so far.
  datatype Reading = Reading(previous: Option<nat>, count: nat, entries: seq<IndexEntry>,
                             manifest: Option<Manifest>, manifestSequence: Option<nat>,
                             index: Option<seq<IndexEntry>>, indexSequence: Option<nat>,
                             contents: map<nat, Bytes>, bytes: nat)

  const NOTHING_READ := Reading(None, 0, [], None, None, None, None, map[], 0)

  datatype Step = Fail(error: FormatError) | More(reading: Reading, next: nat) | Finished(reading: Reading)

  function Appended(contents: map<nat, Bytes>, item: nat, plaintext: Bytes): map<nat, Bytes> {
    contents[item := (if item in contents then contents[item] else []) + plaintext]
  }

  // The record at `offset` as its header describes it, with its raw header and ciphertext.
  datatype Found = Found(header: RecordHeader, raw: Bytes, ciphertext: Bytes, end: nat)

  function FindRecord(file: Bytes, offset: nat, previous: Option<nat>): (r: Result<Found, FormatError>)
    requires offset <= |file|
    ensures r.Ok? ==> offset + RECORD_HEADER_LENGTH <= r.value.end <= |file| && FitsRecord(r.value.header)
    ensures r.Ok? ==> r.value.raw == file[offset..offset + RECORD_HEADER_LENGTH]
                      && r.value.ciphertext == file[offset + RECORD_HEADER_LENGTH..r.value.end]
  {
    if offset + RECORD_HEADER_LENGTH > |file| then Err(Truncated)
    else
      var raw := file[offset..offset + RECORD_HEADER_LENGTH];
      var decoded := DecodeRecordHeader(raw);
      if decoded.Err? then Err(decoded.error)
      else
        var h := decoded.value;
        RecordHeaderCodec(raw, h);
        var end := offset + RECORD_HEADER_LENGTH + h.ciphertextLength;
        if previous.Some? && h.sequence <= previous.value then Err(Unordered)
        else if ValidateRecordLimit(h).Some? then Err(ValidateRecordLimit(h).value)
        else if end > |file| then Err(Truncated)
        else Ok(Found(h, raw, file[offset + RECORD_HEADER_LENGTH..end], end))
  }

  function ReadContent(s: Session, f: Found, offset: nat, st: Reading, verify: bool): Result<Reading, FormatError>
    requires FitsRecord(f.header)
  {
    var h := f.header;
    var plaintext := OpenRecord(s, h, f.raw, f.ciphertext);
    if st.manifest.Some? then Err(MisplacedRecord)
    else if verify && plaintext.None? then Err(AuthenticationFailed)
    else if verify && st.bytes + |plaintext.value| >= U64 then Err(LimitExceeded)
    else
      var entry := IndexEntry(h.sequence, h.item, h.chunk, offset, h.plaintextLength, h.ciphertextLength);
      Ok(st.(entries := st.entries + [entry],
             contents := if verify then Appended(st.contents, h.item, plaintext.value) else st.contents,
             bytes := if verify then st.bytes + |plaintext.value| else st.bytes))
  }

  function ReadManifest(s: Session, f: Found, st: Reading): Result<Reading, FormatError>
    requires FitsRecord(f.header)
  {
    var plaintext := OpenRecord(s, f.header, f.raw, f.ciphertext);
    if st.manifest.Some? || st.index.Some? then Err(MisplacedRecord)
    else if plaintext.None? then Err(AuthenticationFailed)
    else if |plaintext.value| > MAX_MANIFEST || DecodeManifest(plaintext.value).None? then Err(InvalidManifest)
    else Ok(st.(manifest := DecodeManifest(plaintext.value), manifestSequence := Some(f.header.sequence)))
  }

  function ReadIndex(s: Session, f: Found, st: Reading): Result<Reading, FormatError>
    requires FitsRecord(f.header)
  {
    var plaintext := OpenRecord(s, f.header, f.raw, f.ciphertext);
    if st.manifest.None? || st.index.Some? then Err(MisplacedRecord)
    else if plaintext.None? then Err(AuthenticationFailed)
    else
      var index := ParseIndex(plaintext.value);
      if index.Err? then Err(index.error)
      else Ok(st.(index := Some(index.value), indexSequence := Some(f.header.sequence)))
  }

  function ReadCompletion(s: Session, file: Bytes, f: Found, offset: nat, st: Reading): Option<FormatError>
    requires FitsRecord(f.header) && offset <= |file|
  {
    var plaintext := OpenRecord(s, f.header, f.raw, f.ciphertext);
    if plaintext.None? then Some(AuthenticationFailed)
    else if !CheckCompletion(plaintext.value, Hash(file[..offset]), st.count, st.manifestSequence,
                             st.indexSequence) then
      Some(InvalidCompletion)
    else if f.end != |file| then Some(TrailingBytes)
    else None
  }

  function ReadOne(s: Session, file: Bytes, offset: nat, st: Reading, verify: bool): (step: Step)
    requires offset <= |file|
    ensures step.More? ==> offset < step.next <= |file|
  {
    if offset == |file| then Fail(Incomplete)
    else
      var found := FindRecord(file, offset, st.previous);
      if found.Err? then Fail(found.error)
      else
        var f := found.value;
        if f.header.kind == COMPLETION then
          var error := ReadCompletion(s, file, f, offset, st);
          if error.Some? then Fail(error.value) else Finished(st)
        else
          var read := if f.header.kind == CONTENT then ReadContent(s, f, offset, st, verify)
                      else if f.header.kind == MANIFEST then ReadManifest(s, f, st)
                      else ReadIndex(s, f, st);
          if read.Err? then Fail(read.error)
          else More(read.value.(previous := Some(f.header.sequence), count := st.count + 1), f.end)
  }

  // The walk over the records, for any way of taking one step.
  function Walk(step: (nat, Reading) -> Step, length: nat, offset: nat, st: Reading): Result<Reading, FormatError>
    requires offset <= length
    decreases length - offset
  {
    match step(offset, st)
    case Fail(error) => Err(error)
    case Finished(reading) => Ok(reading)
    case More(reading, next) => if offset < next <= length then Walk(step, length, next, reading) else Err(Truncated)
  }

  function Stepper(s: Session, file: Bytes, verify: bool): (nat, Reading) -> Step {
    (offset: nat, st: Reading) => if offset <= |file| then ReadOne(s, file, offset, st, verify) else Fail(Truncated)
  }

  function ReadRecords(s: Session, file: Bytes, verify: bool): Result<Reading, FormatError>
    requires HEADER_LENGTH <= |file|
  {
    Walk(Stepper(s, file, verify), |file|, HEADER_LENGTH, NOTHING_READ)
  }

  // ---- The final cross-checks ----

  function ItemSequences(items: seq<ManifestItem>): seq<nat> {
    if items == [] then []
    else ItemSequences(items[..|items| - 1]) + items[|items| - 1].chunkSequences
  }

  function Sequences(index: seq<IndexEntry>): (r: seq<nat>)
    ensures |r| == |index|
  {
    seq(|index|, i requires 0 <= i < |index| => index[i].sequence)
  }

  // How many of an index's entries belong to an item.
  function ChunkCount(index: seq<IndexEntry>, item: nat): (r: nat)
    ensures r <= |index|
  {
    if index == [] then 0
    else ChunkCount(index[..|index| - 1], item) + (if index[|index| - 1].item == item then 1 else 0)
  }

  // The entry at `k` belongs to a known item and is that item's next chunk.
  predicate NextChunk(index: seq<IndexEntry>, k: nat, items: nat)
    requires k < |index|
  {
    index[k].item < items && index[k].chunk == ChunkCount(index[..k], index[k].item)
  }

  ghost predicate ChunksInOrder(index: seq<IndexEntry>, items: nat) {
    forall k | 0 <= k < |index| :: NextChunk(index, k, items)
  }

  ghost predicate ManifestMatches(m: Manifest, index: seq<IndexEntry>) {
    && m.marker == "MNF2" && (m.schemaVersion == 1 || m.schemaVersion == 2)
    && 1 <= |m.sourceName| <= 4096
    && ItemSequences(m.items) == Sequences(index)
    && ChunksInOrder(index, |m.items|)
  }

  // What an item's hash promises about the bytes read for it.
  predicate ItemAuthentic(item: ManifestItem, ordinal: nat, contents: map<nat, Bytes>) {
    if item.chunkSequences == [] then item.contentHash == None
    else ordinal in contents && item.contentHash == Some(Hash(contents[ordinal]))
  }

  ghost predicate ContentsAuthentic(m: Manifest, contents: map<nat, Bytes>) {
    forall i | 0 <= i < |m.items| :: ItemAuthentic(m.items[i], i, contents)
  }

  datatype OpenedBundle = OpenedBundle(manifest: Manifest, contents: map<nat, Bytes>, bytes: nat, identifier: Bytes)

  ghost function FinalChecks(st: Reading, verify: bool): Option<FormatError> {
    if st.manifest.None? then Some(InvalidManifest)
    else if st.index.None? then Some(InvalidIndex)
    else if st.index.value != st.entries then Some(IndexMismatch)
    else if !ManifestMatches(st.manifest.value, st.entries) then Some(InvalidManifest)
    else if verify && !ContentsAuthentic(st.manifest.value, st.contents) then Some(ContentMismatch)
    else if verify && st.bytes != st.manifest.value.logicalSize then Some(SizeMismatch)
    else None
  }

  // The reader as a function of the file, the recovery secret and whether content is verified.
  ghost function Open(file: Bytes, secret: RecoverySecret, verify: bool): Result<OpenedBundle, FormatError> {
    if |file| < HEADER_LENGTH + RECORD_HEADER_LENGTH then Err(Truncated)
    else
      var header := file[..HEADER_LENGTH];
      var o := DecodeHeader(header, secret);
      if o.Err? then Err(o.error)
      else
        var read := ReadRecords(SessionOf(header, o.value), file, verify);
        if read.Err? then Err(read.error)
        else
          var error := FinalChecks(read.value, verify);
          if error.Some? then Err(error.value)
          else Ok(OpenedBundle(read.value.manifest.value, read.value.contents, read.value.bytes, o.value.identifier))
  }

  // ---- The reader's loops ----

  lemma {:induction false} CountSplits(index: seq<IndexEntry>, k: nat, item: nat)
    requires k < |index|
    ensures ChunkCount(index[..k + 1], item) == ChunkCount(index[..k], item) + (if index[k].item == item then 1 else 0)
  {
    assert index[..k + 1][..k] == index[..k];
  }

  method FlattenSequences(items: seq<ManifestItem>) returns (r: seq<nat>)
    ensures r == ItemSequences(items)
  {
    r := [];
    var i := 0;
    while i < |items|
      invariant i <= |items| && r == ItemSequences(items[..i])
    {
      assert items[..i + 1][..i] == items[..i];
      r := r + items[i].chunkSequences;
      i := i + 1;
    }
    assert items[..|items|] == items;
  }

  method ValidateChunkOrder(index: seq<IndexEntry>, items: nat) returns (ok: bool)
    requires |index| < U32
    ensures ok == ChunksInOrder(index, items)
  {
    var expected: map<nat, nat> := map[];
    var k := 0;
    while k < |index|
      invariant k <= |index| && forall j | 0 <= j < k :: NextChunk(index, j, items)
      invariant forall item: nat :: (if item in expected then expected[item] else 0) == ChunkCount(index[..k], item)
    {
      var entry := index[k];
      var next := if entry.item in expected then expected[entry.item] else 0;
      if entry.item >= items || entry.chunk != next {
        assert !NextChunk(index, k, items);
        return false;
      }
      expected := expected[entry.item := next + 1];
      forall item: nat
        ensures (if item in expected then expected[item] else 0) == ChunkCount(index[..k + 1], item)
      {
        CountSplits(index, k, item);
      }
      k := k + 1;
    }
    ok := true;
  }

  method ValidateManifest(m: Manifest, index: seq<IndexEntry>) returns (ok: bool)
    requires |index| < U32
    ensures ok == ManifestMatches(m, index)
  {
    if m.marker != "MNF2" || (m.schemaVersion != 1 && m.schemaVersion != 2)
       || m.sourceName == [] || |m.sourceName| > 4096 {
      return false;
    }
    var manifestSequences := FlattenSequences(m.items);
    if manifestSequences != Sequences(index) {
      return false;
    }
    ok := ValidateChunkOrder(index, |m.items|);
  }

  method ValidateContentHashes(m: Manifest, contents: map<nat, Bytes>) returns (ok: bool)
    ensures ok == ContentsAuthentic(m, contents)
  {
    var i := 0;
    while i < |m.items|
      invariant i <= |m.items| && forall j | 0 <= j < i :: ItemAuthentic(m.items[j], j, contents)
    {
      if !ItemAuthentic(m.items[i], i, contents) {
        return false;
      }
      i := i + 1;
    }
    ok := true;
  }

  // The loop over the records.
  method WalkRecords(s: Session, file: Bytes, verify: bool) returns (r: Result<Reading, FormatError>)
    requires HEADER_LENGTH <= |file|
    ensures r == ReadRecords(s, file, verify)
  {
    ghost var step := Stepper(s, file, verify);
    var offset := HEADER_LENGTH;
    var reading := NOTHING_READ;
    while true
      invariant offset <= |file|
      invariant Walk(step, |file|, offset, reading) == ReadRecords(s, file, verify)
      decreases |file| - offset
    {
      match ReadOne(s, file, offset, reading, verify)
      case Fail(error) => return Err(error);
      case Finished(last) => return Ok(last);
      case More(next, at) => reading, offset := next, at;
    }
  }

  ghost predicate IndexSmall(st: Reading) {
    st.index.Some? ==> |st.index.value| < U32
  }

  lemma StepKeepsIndexSmall(s: Session, file: Bytes, offset: nat, st: Reading, verify: bool)
    requires offset <= |file| && IndexSmall(st)
    ensures var step := ReadOne(s, file, offset, st, verify); !step.Fail? ==> IndexSmall(step.reading)
  {
    var step := ReadOne(s, file, offset, st, verify);
    if step.More? {
      var f := FindRecord(file, offset, st.previous).value;
      if f.header.kind == INDEX {
        var plaintext := OpenRecord(s, f.header, f.raw, f.ciphertext).value;
        IndexCodec(plaintext, ParseIndex(plaintext).value);
      }
    }
  }

  lemma {:induction false} IndexReadFits(s: Session, file: Bytes, offset: nat, st: Reading, verify: bool)
    requires offset <= |file| && IndexSmall(st) && Walk(Stepper(s, file, verify), |file|, offset, st).Ok?
    ensures IndexSmall(Walk(Stepper(s, file, verify), |file|, offset, st).value)
    decreases |file| - offset
  {
    StepKeepsIndexSmall(s, file, offset, st, verify);
    var step := Stepper(s, file, verify)(offset, st);
    if step.More? {
      IndexReadFits(s, file, step.next, step.reading, verify);
    }
  }

  method OpenBundle(file: Bytes, secret: RecoverySecret, verify: bool) returns (r: Result<OpenedBundle, FormatError>)
    ensures r == Open(file, secret, verify)
  {
    if |file| < HEADER_LENGTH + RECORD_HEADER_LENGTH {
      return Err(Truncated);
    }
    var header := file[..HEADER_LENGTH];
    var o := ParseHeader(header, secret);
    if o.Err? {
      return Err(o.error);
    }
    var read := WalkRecords(SessionOf(header, o.value), file, verify);
    if read.Err? {
      return Err(read.error);
    }
    IndexReadFits(SessionOf(header, o.value), file, HEADER_LENGTH, NOTHING_READ, verify);
    r := CrossCheck(read.value, verify, o.value.identifier);
  }

  method CrossCheck(st: Reading, verify: bool, identifier: Bytes) returns (r: Result<OpenedBundle, FormatError>)
    requires st.index.Some? ==> |st.index.value| < U32
    ensures r.Ok? <==> FinalChecks(st, verify).None?
    ensures r.Ok? ==> r.value == OpenedBundle(st.manifest.value, st.contents, st.bytes, identifier)
    ensures r.Err? ==> FinalChecks(st, verify) == Some(r.error)
  {
    if st.manifest.None? {
      return Err(InvalidManifest);
    }
    if st.index.None? {
      return Err(InvalidIndex);
    }
    if st.index.value != st.entries {
      return Err(IndexMismatch);
    }
    var matches := ValidateManifest(st.manifest.value, st.entries);
    if !matches {
      return Err(InvalidManifest);
    }
    if verify {
      var authentic := ValidateContentHashes(st.manifest.value, st.contents);
      if !authentic {
        return Err(ContentMismatch);
      }
      if st.bytes != st.manifest.value.logicalSize {
        return Err(SizeMismatch);
      }
    }
    r := Ok(OpenedBundle(st.manifest.value, st.contents, st.bytes, identifier));
  }

  // ---- No accepted file is a strict prefix of another ----

  // Two walks over files that agree so far have learned the same, content aside.
  predicate SameButContents(a: Reading, b: Reading) {
    a.(contents := map[], bytes := 0) == b.(contents := map[], bytes := 0)
  }

  lemma OneKeyOpens(s: Session, t: Session, h: RecordHeader, raw: Bytes, ciphertext: Bytes)
    requires FitsRecord(h) && s.headerHash == t.headerHash
    requires s.material.(dataKey := []) == t.material.(dataKey := [])
    requires OpenRecord(s, h, raw, ciphertext).Some? && OpenRecord(t, h, raw, ciphertext).Some?
    ensures s == t
  {
    var plaintext := OpenRecord(s, h, raw, ciphertext).value;
    DecryptsExactly(RecordKey(s, h.kind), RecordNonce(s, h.sequence), RecordAad(s, raw), ciphertext, plaintext);
    OpensOnlyAsSealed(RecordKey(s, h.kind), RecordNonce(s, h.sequence), RecordAad(s, raw), plaintext,
                      RecordKey(t, h.kind), RecordNonce(t, h.sequence), RecordAad(t, raw));
    var a, b := [s.material.dataKey, s.material.salt, s.material.identifier],
                [t.material.dataKey, t.material.salt, t.material.identifier];
    DerivationIsInjective(Purpose(h.kind), a, Purpose(h.kind), b);
    assert a[0] == s.material.dataKey && b[0] == t.material.dataKey;
  }

  lemma SameRecordFound(f: Bytes, g: Bytes, offset: nat, previous: Option<nat>)
    requires f < g && offset <= |f| && FindRecord(f, offset, previous).Ok?
    ensures FindRecord(g, offset, previous) == FindRecord(f, offset, previous)
  {
    var found := FindRecord(f, offset, previous).value;
    assert g[offset..offset + RECORD_HEADER_LENGTH] == found.raw;
    assert g[offset + RECORD_HEADER_LENGTH..found.end] == found.ciphertext;
  }

  // One more step on the longer file either fails or learns what the step on the shorter one did.
  lemma ExtensionFollows(s: Session, t: Session, f: Bytes, g: Bytes, offset: nat, a: Reading, b: Reading, verifyF: bool,
                         verifyG: bool)
    requires s.headerHash == t.headerHash && s.material.(dataKey := []) == t.material.(dataKey := [])
    requires f < g && offset <= |f| && SameButContents(a, b)
    requires !ReadOne(s, f, offset, a, verifyF).Fail?
    ensures var x, y := ReadOne(s, f, offset, a, verifyF), ReadOne(t, g, offset, b, verifyG);
      y.Fail? || (x.More? && y.More? && x.next == y.next && SameButContents(x.reading, y.reading))
  {
    SameRecordFound(f, g, offset, a.previous);
    var found := FindRecord(f, offset, a.previous).value;
    if found.header.kind != CONTENT && OpenRecord(t, found.header, found.raw, found.ciphertext).Some? {
      OneKeyOpens(s, t, found.header, found.raw, found.ciphertext);
    }
  }

  lemma {:induction false} ExtensionRejected(s: Session, t: Session, f: Bytes, g: Bytes, offset: nat, a: Reading,
                                             b: Reading, verifyF: bool, verifyG: bool)
    requires s.headerHash == t.headerHash && s.material.(dataKey := []) == t.material.(dataKey := [])
    requires f < g && offset <= |f| && SameButContents(a, b)
    requires Walk(Stepper(s, f, verifyF), |f|, offset, a).Ok?
    ensures Walk(Stepper(t, g, verifyG), |g|, offset, b).Err?
    decreases |f| - offset
  {
    ExtensionFollows(s, t, f, g, offset, a, b, verifyF, verifyG);
    var x, y := Stepper(s, f, verifyF)(offset, a), Stepper(t, g, verifyG)(offset, b);
    if y.More? {
      ExtensionRejected(s, t, f, g, x.next, x.reading, y.reading, verifyF, verifyG);
    }
  }

  // Whatever secrets and whether or not content is verified: a file the reader accepts is
  // neither a strict prefix nor a strict extension of another file it accepts.
  lemma AcceptedFilesArePrefixFree(f: Bytes, g: Bytes, secretF: RecoverySecret, secretG: RecoverySecret, verifyF: bool,
                                   verifyG: bool)
    requires f < g
    ensures !(Open(f, secretF, verifyF).Ok? && Open(g, secretG, verifyG).Ok?)
  {
    if Open(f, secretF, verifyF).Ok? && Open(g, secretG, verifyG).Ok? {
      var header := f[..HEADER_LENGTH];
      assert header == g[..HEADER_LENGTH];
      var s := SessionOf(header, DecodeHeader(header, secretF).value);
      var t := SessionOf(header, DecodeHeader(header, secretG).value);
      ExtensionRejected(s, t, f, g, HEADER_LENGTH, NOTHING_READ, NOTHING_READ, verifyF, verifyG);
    }
  }
}
