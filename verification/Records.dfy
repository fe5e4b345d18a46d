// The byte codecs of the IZ2 format: record headers, the chunk index, the completion record.
module Records {
  import opened Outcomes
  import opened Cells

  const RECORD_HEADER_LENGTH := 28
  const MAX_CHUNK := 1024 * 1024
  const MAX_MANIFEST := 16 * 1024 * 1024
  const MAX_INDEX := 64 * 1024 * 1024
  const MAX_COMPLETION := 64

  const CONTENT: Byte := 1
  const MANIFEST: Byte := 2
  const INDEX: Byte := 3
  const COMPLETION: Byte := 255

  datatype FormatError =
    | Truncated | UnknownFlags | InvalidLength | UnknownRecord | LimitExceeded | Unordered
    | AuthenticationFailed | Incomplete | TrailingBytes | InvalidCompletion | InvalidManifest | InvalidIndex
    | MisplacedRecord | IndexMismatch | ContentMismatch | SizeMismatch | UnsupportedHeader | NoSuchMethod

  function Ascii(text: string): (r: Bytes)
    ensures |r| == |text|
  {
    seq(|text|, i requires 0 <= i < |text| => Octet(text[i] as int % 256))
  }

  // ---- Record headers ----

  datatype RecordHeader = RecordHeader(kind: Byte, sequence: nat, item: nat, chunk: nat,
                                       plaintextLength: nat, ciphertextLength: nat)

  ghost predicate FitsRecord(h: RecordHeader) {
    && h.sequence < U64 && h.item < U32 && h.chunk < U32
    && h.plaintextLength < U32 && h.ciphertextLength < U32
  }

  function EncodeRecordHeader(h: RecordHeader): (r: Bytes)
    requires FitsRecord(h)
    ensures |r| == RECORD_HEADER_LENGTH
  {
    Widths();
    [Octet(h.kind)] + [Octet(0), Octet(0), Octet(0)] + BigEndian(h.sequence, 8) + BigEndian(h.item, 4)
    + BigEndian(h.chunk, 4) + BigEndian(h.plaintextLength, 4) + BigEndian(h.ciphertextLength, 4)
  }

  function DecodeRecordHeader(bytes: Bytes): Result<RecordHeader, FormatError>
    requires |bytes| == RECORD_HEADER_LENGTH
  {
    if bytes[1..4] != [Octet(0), Octet(0), Octet(0)] then Err(UnknownFlags)
    else
      var sequence := FromBigEndian(bytes[4..12]);
      var item, chunk := FromBigEndian(bytes[12..16]), FromBigEndian(bytes[16..20]);
      var plaintext, ciphertext := FromBigEndian(bytes[20..24]), FromBigEndian(bytes[24..28]);
      if !bytes[0].Octet? || sequence.None? || item.None? || chunk.None? || plaintext.None? || ciphertext.None? then
        Err(UnknownFlags)
      else if ciphertext.value != (if plaintext.value + TAG < U32 then plaintext.value + TAG else 0) then
        Err(InvalidLength)
      else Ok(RecordHeader(bytes[0].value, sequence.value, item.value, chunk.value, plaintext.value, ciphertext.value))
  }

  function RecordLimit(kind: Byte): Option<nat> {
    if kind == CONTENT then Some(MAX_CHUNK)
    else if kind == MANIFEST then Some(MAX_MANIFEST)
    else if kind == INDEX then Some(MAX_INDEX)
    else if kind == COMPLETION then Some(MAX_COMPLETION)
    else None
  }

  function ValidateRecordLimit(h: RecordHeader): Option<FormatError> {
    var limit := RecordLimit(h.kind);
    if limit.None? then Some(UnknownRecord)
    else if h.plaintextLength > limit.value then Some(LimitExceeded)
    else None
  }

  ghost predicate Consistent(h: RecordHeader) {
    h.ciphertextLength == (if h.plaintextLength + TAG < U32 then h.plaintextLength + TAG else 0)
  }

  lemma DecodedHeaderEncodes(bytes: Bytes)
    requires |bytes| == RECORD_HEADER_LENGTH && DecodeRecordHeader(bytes).Ok?
    ensures var h := DecodeRecordHeader(bytes).value; FitsRecord(h) && Consistent(h) && bytes == EncodeRecordHeader(h)
  {
    Widths();
    BigEndianUnique(bytes[4..12]);
    BigEndianUnique(bytes[12..16]);
    BigEndianUnique(bytes[16..20]);
    BigEndianUnique(bytes[20..24]);
    BigEndianUnique(bytes[24..28]);
    assert bytes == bytes[..1] + bytes[1..4] + bytes[4..12] + bytes[12..16] + bytes[16..20] + bytes[20..24]
                    + bytes[24..28];
  }

  // The header's decoder accepts exactly the encodings of headers with a consistent length.
  lemma RecordHeaderCodec(bytes: Bytes, h: RecordHeader)
    requires |bytes| == RECORD_HEADER_LENGTH
    ensures DecodeRecordHeader(bytes) == Ok(h) <==> FitsRecord(h) && Consistent(h) && bytes == EncodeRecordHeader(h)
  {
    if DecodeRecordHeader(bytes) == Ok(h) {
      DecodedHeaderEncodes(bytes);
    }
    if FitsRecord(h) && bytes == EncodeRecordHeader(h) {
      HeaderFields(h);
      BigEndianRoundTrip(h.sequence, 8);
      BigEndianRoundTrip(h.item, 4);
      BigEndianRoundTrip(h.chunk, 4);
      BigEndianRoundTrip(h.plaintextLength, 4);
      BigEndianRoundTrip(h.ciphertextLength, 4);
    }
  }

  lemma HeaderFields(h: RecordHeader)
    requires FitsRecord(h)
    ensures Pow256(4) == U32 && Pow256(8) == U64
    ensures var b := EncodeRecordHeader(h);
      && b[0] == Octet(h.kind) && b[1..4] == [Octet(0), Octet(0), Octet(0)]
      && b[4..12] == BigEndian(h.sequence, 8) && b[12..16] == BigEndian(h.item, 4)
      && b[16..20] == BigEndian(h.chunk, 4) && b[20..24] == BigEndian(h.plaintextLength, 4)
      && b[24..28] == BigEndian(h.ciphertextLength, 4)
  {
    Widths();
    var head := [Octet(h.kind)] + [Octet(0), Octet(0), Octet(0)] + BigEndian(h.sequence, 8) + BigEndian(h.item, 4)
                + BigEndian(h.chunk, 4) + BigEndian(h.plaintextLength, 4);
    assert |head| == 24 && EncodeRecordHeader(h) == head + BigEndian(h.ciphertextLength, 4);
  }

  // A decoded header within its record limit has a ciphertext 16 bytes longer than its plaintext.
  lemma LimitedHeaderLengths(bytes: Bytes)
    requires |bytes| == RECORD_HEADER_LENGTH && DecodeRecordHeader(bytes).Ok?
    requires ValidateRecordLimit(DecodeRecordHeader(bytes).value).None?
    ensures var h := DecodeRecordHeader(bytes).value;
      FitsRecord(h) && h.ciphertextLength == h.plaintextLength + TAG && bytes == EncodeRecordHeader(h)
  {
    RecordHeaderCodec(bytes, DecodeRecordHeader(bytes).value);
  }

  // Without the limit the decoder alone lets an overflowing length through.
  lemma OverflowingLengthDecodes(bytes: Bytes)
    requires bytes == EncodeRecordHeader(RecordHeader(CONTENT, 0, 0, 0, U32 - 1, 0))
    ensures DecodeRecordHeader(bytes) == Ok(RecordHeader(CONTENT, 0, 0, 0, U32 - 1, 0))
    ensures ValidateRecordLimit(DecodeRecordHeader(bytes).value) == Some(LimitExceeded)
  {
    RecordHeaderCodec(bytes, RecordHeader(CONTENT, 0, 0, 0, U32 - 1, 0));
  }

  // ---- The chunk index ----

  datatype IndexEntry = IndexEntry(sequence: nat, item: nat, chunk: nat, offset: nat,
                                   plaintextLength: nat, ciphertextLength: nat)

  ghost predicate FitsEntry(e: IndexEntry) {
    && e.sequence < U64 && e.item < U32 && e.chunk < U32 && e.offset < U64
    && e.plaintextLength < U32 && e.ciphertextLength < U32
  }

  function EncodeEntry(e: IndexEntry): (r: Bytes)
    requires FitsEntry(e)
    ensures |r| == 32
  {
    Widths();
    BigEndian(e.sequence, 8) + BigEndian(e.item, 4) + BigEndian(e.chunk, 4) + BigEndian(e.offset, 8)
    + BigEndian(e.plaintextLength, 4) + BigEndian(e.ciphertextLength, 4)
  }

  function DecodeEntry(bytes: Bytes): Option<IndexEntry>
    requires |bytes| == 32
  {
    var sequence, item, chunk := FromBigEndian(bytes[0..8]), FromBigEndian(bytes[8..12]), FromBigEndian(bytes[12..16]);
    var offset := FromBigEndian(bytes[16..24]);
    var plaintext, ciphertext := FromBigEndian(bytes[24..28]), FromBigEndian(bytes[28..32]);
    if sequence.None? || item.None? || chunk.None? || offset.None? || plaintext.None? || ciphertext.None? then None
    else Some(IndexEntry(sequence.value, item.value, chunk.value, offset.value, plaintext.value, ciphertext.value))
  }

  lemma DecodedEntryEncodes(bytes: Bytes)
    requires |bytes| == 32 && DecodeEntry(bytes).Some?
    ensures var e := DecodeEntry(bytes).value; FitsEntry(e) && bytes == EncodeEntry(e)
  {
    Widths();
    BigEndianUnique(bytes[0..8]);
    BigEndianUnique(bytes[8..12]);
    BigEndianUnique(bytes[12..16]);
    BigEndianUnique(bytes[16..24]);
    BigEndianUnique(bytes[24..28]);
    BigEndianUnique(bytes[28..32]);
    assert bytes == bytes[0..8] + bytes[8..12] + bytes[12..16] + bytes[16..24] + bytes[24..28] + bytes[28..32];
  }

  lemma EntryCodec(bytes: Bytes, e: IndexEntry)
    requires |bytes| == 32
    ensures DecodeEntry(bytes) == Some(e) <==> FitsEntry(e) && bytes == EncodeEntry(e)
  {
    if DecodeEntry(bytes) == Some(e) {
      DecodedEntryEncodes(bytes);
    }
    if FitsEntry(e) && bytes == EncodeEntry(e) {
      EntryFields(e);
      BigEndianRoundTrip(e.sequence, 8);
      BigEndianRoundTrip(e.item, 4);
      BigEndianRoundTrip(e.chunk, 4);
      BigEndianRoundTrip(e.offset, 8);
      BigEndianRoundTrip(e.plaintextLength, 4);
      BigEndianRoundTrip(e.ciphertextLength, 4);
    }
  }

  lemma EntryFields(e: IndexEntry)
    requires FitsEntry(e)
    ensures Pow256(4) == U32 && Pow256(8) == U64
    ensures var b := EncodeEntry(e);
      && b[0..8] == BigEndian(e.sequence, 8) && b[8..12] == BigEndian(e.item, 4)
      && b[12..16] == BigEndian(e.chunk, 4) && b[16..24] == BigEndian(e.offset, 8)
      && b[24..28] == BigEndian(e.plaintextLength, 4) && b[28..32] == BigEndian(e.ciphertextLength, 4)
  {
    Widths();
  }

  ghost predicate FitEntries(entries: seq<IndexEntry>) {
    forall e | e in entries :: FitsEntry(e)
  }

  function EncodeEntries(entries: seq<IndexEntry>): (r: Bytes)
    requires FitEntries(entries)
    ensures |r| == 32 * |entries|
  {
    if entries == [] then []
    else EncodeEntries(entries[..|entries| - 1]) + EncodeEntry(entries[|entries| - 1])
  }

  function IndexBytes(entries: seq<IndexEntry>): Bytes
    requires FitEntries(entries) && |entries| < U32
  {
    Widths();
    Ascii("IDX2") + BigEndian(|entries|, 4) + EncodeEntries(entries)
  }

  predicate IndexFits(entries: seq<IndexEntry>) {
    |entries| < U32 && 8 + 32 * |entries| <= MAX_INDEX
  }

  // What decoding an index means: the only entries whose encoding the bytes are.
  ghost predicate IsIndexOf(bytes: Bytes, entries: seq<IndexEntry>) {
    IndexFits(entries) && FitEntries(entries) && bytes == IndexBytes(entries)
  }

  method EncodeIndex(entries: seq<IndexEntry>) returns (r: Result<Bytes, FormatError>)
    requires FitEntries(entries)
    ensures r.Ok? <==> IndexFits(entries)
    ensures r.Ok? ==> IsIndexOf(r.value, entries)
  {
    if !(|entries| < U32) || 8 + 32 * |entries| > MAX_INDEX {
      return Err(LimitExceeded);
    }
    Widths();
    var output := Ascii("IDX2") + BigEndian(|entries|, 4);
    ghost var start := output;
    var i := 0;
    while i < |entries|
      invariant i <= |entries|
      invariant FitEntries(entries[..i]) && output == start + EncodeEntries(entries[..i])
    {
      assert entries[i] in entries;
      assert entries[..i + 1][..i] == entries[..i];
      output := output + EncodeEntry(entries[i]);
      i := i + 1;
    }
    assert entries[..|entries|] == entries;
    r := Ok(output);
  }

  function DecodeEntries(bytes: Bytes, count: nat): Option<seq<IndexEntry>>
    requires |bytes| == 32 * count
  {
    if count == 0 then Some([])
    else
      var front := DecodeEntries(bytes[..32 * (count - 1)], count - 1);
      var last := DecodeEntry(bytes[32 * (count - 1)..]);
      if front.None? || last.None? then None else Some(front.value + [last.value])
  }

  function ParseIndex(bytes: Bytes): Result<seq<IndexEntry>, FormatError> {
    if |bytes| < 8 || bytes[..4] != Ascii("IDX2") || FromBigEndian(bytes[4..8]).None? then Err(InvalidIndex)
    else
      var count := FromBigEndian(bytes[4..8]).value;
      if 8 + 32 * count > MAX_INDEX || |bytes| != 8 + 32 * count then Err(InvalidIndex)
      else
        var entries := DecodeEntries(bytes[8..], count);
        if entries.None? then Err(InvalidIndex) else Ok(entries.value)
  }

  lemma {:induction false} EntriesDecode(entries: seq<IndexEntry>)
    requires FitEntries(entries)
    ensures DecodeEntries(EncodeEntries(entries), |entries|) == Some(entries)
  {
    if entries != [] {
      var n := |entries| - 1;
      EntriesDecode(entries[..n]);
      var bytes := EncodeEntries(entries);
      assert bytes[..32 * n] == EncodeEntries(entries[..n]) && bytes[32 * n..] == EncodeEntry(entries[n]);
      EntryCodec(bytes[32 * n..], entries[n]);
      assert entries == entries[..n] + [entries[n]];
    }
  }

  lemma {:induction false} DecodedEntriesEncode(bytes: Bytes, count: nat)
    requires |bytes| == 32 * count && DecodeEntries(bytes, count).Some?
    ensures var entries := DecodeEntries(bytes, count).value;
      |entries| == count && FitEntries(entries) && bytes == EncodeEntries(entries)
  {
    if count > 0 {
      var front, last := bytes[..32 * (count - 1)], bytes[32 * (count - 1)..];
      DecodedEntriesEncode(front, count - 1);
      DecodedEntryEncodes(last);
      var entries := DecodeEntries(bytes, count).value;
      assert entries[..count - 1] == DecodeEntries(front, count - 1).value;
      assert bytes == front + last;
    }
  }

  lemma ParsedIndexEncodes(bytes: Bytes)
    requires ParseIndex(bytes).Ok?
    ensures IsIndexOf(bytes, ParseIndex(bytes).value)
  {
    Widths();
    BigEndianUnique(bytes[4..8]);
    DecodedEntriesEncode(bytes[8..], FromBigEndian(bytes[4..8]).value);
    assert bytes == bytes[..4] + bytes[4..8] + bytes[8..];
  }

  // The index parser accepts exactly the encodings of indexes within the limits.
  lemma IndexCodec(bytes: Bytes, entries: seq<IndexEntry>)
    ensures ParseIndex(bytes) == Ok(entries) <==> IsIndexOf(bytes, entries)
  {
    Widths();
    if ParseIndex(bytes) == Ok(entries) {
      ParsedIndexEncodes(bytes);
    }
    if IsIndexOf(bytes, entries) {
      IndexParts(bytes, entries);
      EntriesDecode(entries);
    }
  }

  lemma {:induction false} BadPieceSpoilsAll(bytes: Bytes, count: nat, i: nat)
    requires |bytes| == 32 * count && i < count
    requires DecodeEntry(bytes[32 * i..32 * (i + 1)]).None?
    ensures DecodeEntries(bytes, count).None?
  {
    if i < count - 1 {
      var front := bytes[..32 * (count - 1)];
      assert front[32 * i..32 * (i + 1)] == bytes[32 * i..32 * (i + 1)];
      BadPieceSpoilsAll(front, count - 1, i);
    } else {
      assert bytes[32 * i..] == bytes[32 * i..32 * (i + 1)];
    }
  }

  method DecodeIndex(bytes: Bytes) returns (r: Result<seq<IndexEntry>, FormatError>)
    ensures r == ParseIndex(bytes)
  {
    if |bytes| < 8 || bytes[..4] != Ascii("IDX2") || FromBigEndian(bytes[4..8]).None? {
      return Err(InvalidIndex);
    }
    var count := FromBigEndian(bytes[4..8]).value;
    if 8 + 32 * count > MAX_INDEX || |bytes| != 8 + 32 * count {
      return Err(InvalidIndex);
    }
    var body := bytes[8..];
    var entries: seq<IndexEntry> := [];
    var i := 0;
    while i < count
      invariant i <= count
      invariant DecodeEntries(body[..32 * i], i) == Some(entries)
    {
      var entry := DecodeEntry(body[32 * i..32 * (i + 1)]);
      if entry.None? {
        BadPieceSpoilsAll(body, count, i);
        return Err(InvalidIndex);
      }
      assert body[..32 * (i + 1)][..32 * i] == body[..32 * i];
      assert body[..32 * (i + 1)][32 * i..] == body[32 * i..32 * (i + 1)];
      entries := entries + [entry.value];
      i := i + 1;
    }
    assert body[..32 * count] == body;
    r := Ok(entries);
  }

  lemma {:induction false} IndexParts(bytes: Bytes, entries: seq<IndexEntry>)
    requires IsIndexOf(bytes, entries)
    ensures Pow256(4) == U32
    ensures |bytes| == 8 + 32 * |entries| && bytes[..4] == Ascii("IDX2")
      && bytes[4..8] == BigEndian(|entries|, 4) && bytes[8..] == EncodeEntries(entries)
    ensures FromBigEndian(bytes[4..8]) == Some(|entries|)
  {
    Widths();
    BigEndianRoundTrip(|entries|, 4);
  }

  // ---- The completion record ----

  function EncodeCompletion(prefixHash: Bytes, count: nat, manifestSequence: nat, indexSequence: nat): (r: Bytes)
    requires |prefixHash| == 32 && count < U64 && manifestSequence < U64 && indexSequence < U64
    ensures |r| == 61
  {
    Widths();
    Ascii("END2") + prefixHash + BigEndian(count, 8) + BigEndian(manifestSequence, 8)
    + BigEndian(indexSequence, 8) + [Octet(1)]
  }

  function CheckCompletion(bytes: Bytes, prefixHash: Bytes, count: nat, manifestSequence: Option<nat>,
                           indexSequence: Option<nat>): bool
  {
    && |bytes| == 61
    && bytes[..4] == Ascii("END2")
    && bytes[60] == Octet(1)
    && bytes[4..36] == prefixHash
    && FromBigEndian(bytes[36..44]) == Some(count)
    && manifestSequence.Some? && FromBigEndian(bytes[44..52]) == manifestSequence
    && indexSequence.Some? && FromBigEndian(bytes[52..60]) == indexSequence
  }

  // A completion record is accepted exactly when it encodes the values it is checked against.
  lemma CompletionCodec(bytes: Bytes, prefixHash: Bytes, count: nat, manifestSequence: Option<nat>,
                        indexSequence: Option<nat>)
    requires |prefixHash| == 32
    ensures CheckCompletion(bytes, prefixHash, count, manifestSequence, indexSequence)
       <==> && manifestSequence.Some? && indexSequence.Some?
            && count < U64 && manifestSequence.value < U64 && indexSequence.value < U64
            && bytes == EncodeCompletion(prefixHash, count, manifestSequence.value, indexSequence.value)
  {
    Widths();
    if CheckCompletion(bytes, prefixHash, count, manifestSequence, indexSequence) {
      BigEndianUnique(bytes[36..44]);
      BigEndianUnique(bytes[44..52]);
      BigEndianUnique(bytes[52..60]);
      assert bytes == bytes[..4] + bytes[4..36] + bytes[36..44] + bytes[44..52] + bytes[52..60] + [bytes[60]];
    }
    if manifestSequence.Some? && indexSequence.Some? && count < U64
       && manifestSequence.value < U64 && indexSequence.value < U64
       && bytes == EncodeCompletion(prefixHash, count, manifestSequence.value, indexSequence.value) {
      BigEndianRoundTrip(count, 8);
      BigEndianRoundTrip(manifestSequence.value, 8);
      BigEndianRoundTrip(indexSequence.value, 8);
      assert bytes[36..44] == BigEndian(count, 8);
      assert bytes[44..52] == BigEndian(manifestSequence.value, 8);
      assert bytes[52..60] == BigEndian(indexSequence.value, 8);
    }
  }
}
