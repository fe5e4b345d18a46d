// What an accepted file is: nothing but the records that its keys sealed, each where the index
// says, under a completion record that seals the hash of everything before it.
module BundleSoundness {
  import opened Outcomes
  import opened Cells
  import opened Records
  import opened PublicHeader
  import opened BundleReader
  import opened BundleContents

  // ---- Records one after the other ----

  ghost predicate IsRecord(f: Found) {
    && FitsRecord(f.header) && f.raw == EncodeRecordHeader(f.header)
    && |f.ciphertext| == f.header.ciphertextLength == f.header.plaintextLength + TAG
    && RecordLimit(f.header.kind).Some? && f.header.plaintextLength <= RecordLimit(f.header.kind).value
  }

  function BytesOf(f: Found): Bytes {
    f.raw + f.ciphertext
  }

  function AllBytes(recs: seq<Found>): Bytes {
    if recs == [] then [] else AllBytes(recs[..|recs| - 1]) + BytesOf(recs[|recs| - 1])
  }

  // The index entries of records that lie one after the other behind the public header.
  function EntriesAt(recs: seq<Found>): seq<IndexEntry> {
    if recs == [] then []
    else
      var before, h := recs[..|recs| - 1], recs[|recs| - 1].header;
      EntriesAt(before) + [IndexEntry(h.sequence, h.item, h.chunk, HEADER_LENGTH + |AllBytes(before)|,
                                      h.plaintextLength, h.ciphertextLength)]
  }

  ghost predicate InOrder(recs: seq<Found>) {
    && (forall k | 0 <= k < |recs| :: IsRecord(recs[k]))
    && (forall j, k | 0 <= j < k < |recs| :: recs[j].header.sequence < recs[k].header.sequence)
  }

  // The record's bytes are the plaintext sealed under the session, with the header's numbers.
  ghost predicate Seals(s: Session, f: Found, plaintext: Bytes) {
    var h := f.header;
    && IsRecord(f) && |plaintext| == h.plaintextLength
    && BytesOf(f) == SealRecord(s, h.kind, h.sequence, h.item, h.chunk, plaintext)
  }

  lemma FoundIsRecord(file: Bytes, offset: nat, previous: Option<nat>)
    requires offset <= |file| && FindRecord(file, offset, previous).Ok?
    ensures var f := FindRecord(file, offset, previous).value;
      && IsRecord(f) && file[..f.end] == file[..offset] + BytesOf(f)
      && (previous.Some? ==> previous.value < f.header.sequence)
  {
    var f := FindRecord(file, offset, previous).value;
    LimitedHeaderLengths(f.raw);
    ThreeSlices(file, offset, offset + RECORD_HEADER_LENGTH, f.end);
  }

  lemma ThreeSlices(file: Bytes, a: nat, b: nat, c: nat)
    requires a <= b <= c <= |file|
    ensures file[..c] == file[..a] + (file[a..b] + file[b..c])
  {
  }

  lemma OpenedIsSealed(s: Session, f: Found, plaintext: Bytes)
    requires IsRecord(f)
    ensures OpenRecord(s, f.header, f.raw, f.ciphertext) == Some(plaintext) <==> Seals(s, f, plaintext)
  {
    var h := f.header;
    DecryptsExactly(RecordKey(s, h.kind), RecordNonce(s, h.sequence), RecordAad(s, f.raw), f.ciphertext, plaintext);
    if Seals(s, f, plaintext) {
      assert f.ciphertext == BytesOf(f)[RECORD_HEADER_LENGTH..];
      assert f.ciphertext == Encrypt(RecordKey(s, h.kind), RecordNonce(s, h.sequence), RecordAad(s, f.raw), plaintext);
    }
  }

  // ---- What the walk has seen ----

  ghost predicate Tiled(file: Bytes, offset: nat, st: Reading, recs: seq<Found>)
    requires HEADER_LENGTH <= offset <= |file|
  {
    && file[..offset] == file[..HEADER_LENGTH] + AllBytes(recs) && InOrder(recs) && st.count == |recs|
    && (recs != [] ==> st.previous == Some(recs[|recs| - 1].header.sequence))
  }

  // Content first, then the manifest, then the index.
  ghost predicate Sorted(s: Session, st: Reading, recs: seq<Found>) {
    var n := |st.entries|;
    && |recs| == n + (if st.manifest.Some? then 1 else 0) + (if st.index.Some? then 1 else 0)
    && (forall k | 0 <= k < n :: recs[k].header.kind == CONTENT) && st.entries == EntriesAt(recs[..n])
    && (st.index.Some? ==> st.manifest.Some?)
    && (st.manifest.Some? ==> HoldsManifest(s, recs[n], st)) && (st.index.Some? ==> HoldsIndex(s, recs[n + 1], st))
  }

  ghost predicate HoldsManifest(s: Session, f: Found, st: Reading) {
    && st.manifest.Some? && f.header.kind == MANIFEST && st.manifestSequence == Some(f.header.sequence)
    && Seals(s, f, EncodeManifest(st.manifest.value, f.header.plaintextLength))
  }

  ghost predicate HoldsIndex(s: Session, f: Found, st: Reading) {
    && st.index.Some? && f.header.kind == INDEX && st.indexSequence == Some(f.header.sequence)
    && IndexFits(st.index.value) && FitEntries(st.index.value) && Seals(s, f, IndexBytes(st.index.value))
  }

  // The plaintexts of an item's records, one after the other.
  function Together(recs: seq<Found>, plain: seq<Bytes>, item: nat): Bytes
    requires |plain| <= |recs|
  {
    if plain == [] then []
    else
      var n := |plain| - 1;
      Together(recs, plain[..n], item) + (if recs[n].header.item == item then plain[n] else [])
  }

  function TotalLength(plain: seq<Bytes>): nat {
    if plain == [] then 0 else TotalLength(plain[..|plain| - 1]) + |plain[|plain| - 1]|
  }

  ghost predicate Mentions(recs: seq<Found>, n: nat, item: nat)
    requires n <= |recs|
  {
    exists k :: 0 <= k < n && recs[k].header.item == item
  }

  ghost predicate AllSeal(s: Session, recs: seq<Found>, plain: seq<Bytes>)
    requires |plain| <= |recs|
  {
    forall k | 0 <= k < |plain| :: Seals(s, recs[k], plain[k])
  }

  ghost predicate Verified(s: Session, st: Reading, recs: seq<Found>, plain: seq<Bytes>) {
    && |plain| == |st.entries| <= |recs| && st.bytes == TotalLength(plain)
    && AllSeal(s, recs, plain)
    && (forall item: nat :: item in st.contents <==> Mentions(recs, |plain|, item))
    && (forall item: nat | item in st.contents :: st.contents[item] == Together(recs, plain, item))
  }

  // ---- One step ----

  lemma OneMoreInOrder(recs: seq<Found>, f: Found)
    requires InOrder(recs) && IsRecord(f)
    requires recs != [] ==> recs[|recs| - 1].header.sequence < f.header.sequence
    ensures InOrder(recs + [f])
  {
    var more := recs + [f];
    forall j, k | 0 <= j < k < |more| ensures more[j].header.sequence < more[k].header.sequence {
      if k == |recs| {
        assert j == |recs| - 1 || recs[j].header.sequence < recs[|recs| - 1].header.sequence;
      }
    }
  }

  lemma {:induction false} OneMoreRecord(file: Bytes, offset: nat, st: Reading, recs: seq<Found>, f: Found,
                                         after: Reading)
    requires HEADER_LENGTH <= offset <= |file| && Tiled(file, offset, st, recs)
    requires FindRecord(file, offset, st.previous) == Ok(f)
    requires after.count == st.count + 1 && after.previous == Some(f.header.sequence)
    ensures HEADER_LENGTH <= f.end <= |file| && Tiled(file, f.end, after, recs + [f])
  {
    FoundIsRecord(file, offset, st.previous);
    OneMoreInOrder(recs, f);
    BytesGrow(file[..HEADER_LENGTH], file[..offset], recs, f);
  }

  lemma {:induction false} BytesGrow(head: Bytes, before: Bytes, recs: seq<Found>, f: Found)
    requires before == head + AllBytes(recs)
    ensures before + BytesOf(f) == head + AllBytes(recs + [f])
  {
    assert (recs + [f])[..|recs|] == recs && (recs + [f])[|recs|] == f;
    assert AllBytes(recs + [f]) == AllBytes(recs) + BytesOf(f);
  }

  lemma {:induction false} ContentSeen(s: Session, offset: nat, st: Reading, recs: seq<Found>, f: Found, verify: bool)
    requires |AllBytes(recs)| + HEADER_LENGTH == offset && Sorted(s, st, recs) && IsRecord(f)
    requires f.header.kind == CONTENT && ReadContent(s, f, offset, st, verify).Ok?
    ensures Sorted(s, ReadContent(s, f, offset, st, verify).value, recs + [f])
  {
    var n, more := |recs|, recs + [f];
    assert recs[..n] == recs && more[..n] == recs && more[..n + 1] == more && more[n] == f;
    forall k | 0 <= k < n + 1 ensures more[k].header.kind == CONTENT {
      assert k < n ==> more[k] == recs[k];
    }
  }

  lemma {:induction false} TogetherGrows(recs: seq<Found>, plain: seq<Bytes>, f: Found, p: Bytes, item: nat)
    requires |plain| == |recs|
    ensures Together(recs + [f], plain + [p], item)
         == Together(recs, plain, item) + (if f.header.item == item then p else [])
  {
    assert (plain + [p])[..|plain|] == plain;
    TogetherOfMore(recs, f, plain, item);
  }

  lemma {:induction false} TogetherOfMore(recs: seq<Found>, f: Found, plain: seq<Bytes>, item: nat)
    requires |plain| <= |recs|
    ensures Together(recs + [f], plain, item) == Together(recs, plain, item)
  {
    if plain != [] {
      TogetherOfMore(recs, f, plain[..|plain| - 1], item);
    }
  }

  lemma {:induction false} NothingTogether(recs: seq<Found>, plain: seq<Bytes>, item: nat)
    requires |plain| <= |recs| && !Mentions(recs, |plain|, item)
    ensures Together(recs, plain, item) == []
  {
    if plain != [] {
      NothingTogether(recs, plain[..|plain| - 1], item);
    }
  }

  lemma {:induction false} ContentVerified(s: Session, offset: nat, st: Reading, recs: seq<Found>, plain: seq<Bytes>,
                                           f: Found)
    returns (more: seq<Bytes>)
    requires |st.entries| == |recs| && Verified(s, st, recs, plain) && IsRecord(f) && f.header.kind == CONTENT
    requires ReadContent(s, f, offset, st, true).Ok?
    ensures Verified(s, ReadContent(s, f, offset, st, true).value, recs + [f], more)
  {
    var p := OpenRecord(s, f.header, f.raw, f.ciphertext).value;
    var after := ReadContent(s, f, offset, st, true).value;
    OpenedIsSealed(s, f, p);
    more := plain + [p];
    OneMoreSealed(s, recs, plain, f, p);
    assert more[..|plain|] == plain;
    forall item: nat
      ensures item in after.contents <==> Mentions(recs + [f], |more|, item)
      ensures item in after.contents ==> after.contents[item] == Together(recs + [f], more, item)
    {
      ContentsGrow(st.contents, recs, plain, f, p, item);
    }
  }

  lemma OneMoreSealed(s: Session, recs: seq<Found>, plain: seq<Bytes>, f: Found, p: Bytes)
    requires |plain| == |recs| && AllSeal(s, recs, plain) && Seals(s, f, p)
    ensures AllSeal(s, recs + [f], plain + [p])
  {
    var all, texts := recs + [f], plain + [p];
    forall k | 0 <= k < |texts| ensures Seals(s, all[k], texts[k]) {
      if k < |plain| {
        assert all[k] == recs[k] && texts[k] == plain[k];
      }
    }
  }

  lemma {:induction false} ContentsGrow(contents: map<nat, Bytes>, recs: seq<Found>, plain: seq<Bytes>, f: Found,
                                        p: Bytes, item: nat)
    requires |plain| == |recs| && (item in contents <==> Mentions(recs, |plain|, item))
    requires item in contents ==> contents[item] == Together(recs, plain, item)
    ensures var after := Appended(contents, f.header.item, p);
      && (item in after <==> Mentions(recs + [f], |plain| + 1, item))
      && (item in after ==> after[item] == Together(recs + [f], plain + [p], item))
  {
    TogetherGrows(recs, plain, f, p, item);
    MentionsMore(recs, f, item);
    if !Mentions(recs, |plain|, item) {
      NothingTogether(recs, plain, item);
    }
  }

  lemma MentionsMore(recs: seq<Found>, f: Found, item: nat)
    ensures Mentions(recs + [f], |recs| + 1, item) <==> Mentions(recs, |recs|, item) || f.header.item == item
  {
    assert (recs + [f])[|recs|] == f;
    if Mentions(recs, |recs|, item) {
      var k :| 0 <= k < |recs| && recs[k].header.item == item;
      assert (recs + [f])[k] == recs[k];
    }
  }

  lemma {:induction false} ManifestSeen(s: Session, st: Reading, recs: seq<Found>, f: Found)
    requires Sorted(s, st, recs) && IsRecord(f) && f.header.kind == MANIFEST && ReadManifest(s, f, st).Ok?
    ensures Sorted(s, ReadManifest(s, f, st).value, recs + [f])
  {
    var p := OpenRecord(s, f.header, f.raw, f.ciphertext).value;
    OpenedIsSealed(s, f, p);
    var n := |st.entries|;
    assert (recs + [f])[..n] == recs[..n] && (recs + [f])[n] == f;
    assert p == EncodeManifest(p[0].manifest, |p|);
  }

  lemma {:induction false} IndexSeen(s: Session, st: Reading, recs: seq<Found>, f: Found)
    requires Sorted(s, st, recs) && IsRecord(f) && f.header.kind == INDEX && ReadIndex(s, f, st).Ok?
    ensures Sorted(s, ReadIndex(s, f, st).value, recs + [f])
  {
    var p := OpenRecord(s, f.header, f.raw, f.ciphertext).value;
    OpenedIsSealed(s, f, p);
    IndexCodec(p, ParseIndex(p).value);
    var n := |st.entries|;
    assert (recs + [f])[..n] == recs[..n] && (recs + [f])[n] == recs[n] && (recs + [f])[n + 1] == f;
  }

  // ---- The whole walk ----

  ghost predicate Seen(s: Session, file: Bytes, verify: bool, offset: nat, st: Reading, recs: seq<Found>,
                       plain: seq<Bytes>)
    requires HEADER_LENGTH <= offset <= |file|
  {
    Tiled(file, offset, st, recs) && Sorted(s, st, recs) && (verify ==> Verified(s, st, recs, plain))
  }

  // What a step other than the last learns from its record.
  function Learned(s: Session, f: Found, offset: nat, st: Reading, verify: bool): Result<Reading, FormatError>
    requires FitsRecord(f.header)
  {
    if f.header.kind == CONTENT then ReadContent(s, f, offset, st, verify)
    else if f.header.kind == MANIFEST then ReadManifest(s, f, st)
    else ReadIndex(s, f, st)
  }

  lemma {:induction false} LearnedSeen(s: Session, file: Bytes, verify: bool, offset: nat, st: Reading,
                                       recs: seq<Found>, plain: seq<Bytes>, f: Found)
    returns (more: seq<Bytes>)
    requires HEADER_LENGTH <= offset <= |file| && Seen(s, file, verify, offset, st, recs, plain)
    requires IsRecord(f) && f.header.kind != COMPLETION && Learned(s, f, offset, st, verify).Ok?
    ensures var after := Learned(s, f, offset, st, verify).value;
      Sorted(s, after, recs + [f]) && (verify ==> Verified(s, after, recs + [f], more))
  {
    more := plain;
    var after := Learned(s, f, offset, st, verify).value;
    if f.header.kind == CONTENT {
      assert |file[..offset]| == offset;
      ContentSeen(s, offset, st, recs, f, verify);
      if verify {
        more := ContentVerified(s, offset, st, recs, plain, f);
      }
    } else {
      if f.header.kind == MANIFEST {
        ManifestSeen(s, st, recs, f);
      } else {
        IndexSeen(s, st, recs, f);
      }
      StillVerified(s, st, after, recs, f, plain, verify);
    }
  }

  lemma {:induction false} StepLearns(s: Session, file: Bytes, verify: bool, offset: nat, st: Reading,
                                      after: Reading, next: nat)
    returns (f: Found)
    requires HEADER_LENGTH <= offset <= |file| && ReadOne(s, file, offset, st, verify) == More(after, next)
    ensures FindRecord(file, offset, st.previous) == Ok(f) && IsRecord(f) && f.header.kind != COMPLETION
    ensures next == f.end && Learned(s, f, offset, st, verify).Ok?
    ensures after ==
              Learned(s, f, offset, st, verify).value.(previous := Some(f.header.sequence), count := st.count + 1)
  {
    f := FindRecord(file, offset, st.previous).value;
    FoundIsRecord(file, offset, st.previous);
  }

  lemma LearnedKeeps(s: Session, f: Found, offset: nat, st: Reading, verify: bool)
    requires FitsRecord(f.header) && Learned(s, f, offset, st, verify).Ok?
    ensures var learned := Learned(s, f, offset, st, verify).value;
      learned.previous == st.previous && learned.count == st.count
  {
  }

  lemma {:induction false} OneMoreSeen(s: Session, file: Bytes, verify: bool, offset: nat, st: Reading,
                                       recs: seq<Found>, plain: seq<Bytes>, after: Reading, next: nat)
    returns (f: Found, more: seq<Bytes>)
    requires HEADER_LENGTH <= offset <= |file| && Seen(s, file, verify, offset, st, recs, plain)
    requires ReadOne(s, file, offset, st, verify) == More(after, next)
    ensures HEADER_LENGTH <= next <= |file| && Seen(s, file, verify, next, after, recs + [f], more)
  {
    f := StepLearns(s, file, verify, offset, st, after, next);
    OneMoreRecord(file, offset, st, recs, f, after);
    more := LearnedSeen(s, file, verify, offset, st, recs, plain, f);
    LearnedKeeps(s, f, offset, st, verify);
    RenumberedSeen(s, Learned(s, f, offset, st, verify).value, after, recs + [f], more, verify);
  }

  lemma StillVerified(s: Session, st: Reading, after: Reading, recs: seq<Found>, f: Found, plain: seq<Bytes>,
                      verify: bool)
    requires verify ==> Verified(s, st, recs, plain)
    requires after.contents == st.contents && after.bytes == st.bytes && after.entries == st.entries
    ensures verify ==> Verified(s, after, recs + [f], plain)
  {
    if verify {
      forall item: nat
        ensures Mentions(recs + [f], |plain|, item) <==> Mentions(recs, |plain|, item)
        ensures Together(recs + [f], plain, item) == Together(recs, plain, item)
      {
        TogetherOfMore(recs, f, plain, item);
        assert forall k | 0 <= k < |plain| :: (recs + [f])[k] == recs[k];
      }
      assert forall k | 0 <= k < |plain| :: (recs + [f])[k] == recs[k];
    }
  }

  lemma RenumberedSeen(s: Session, a: Reading, b: Reading, recs: seq<Found>, plain: seq<Bytes>, verify: bool)
    requires b.(previous := a.previous, count := a.count) == a
    requires Sorted(s, a, recs) && (verify ==> Verified(s, a, recs, plain))
    ensures Sorted(s, b, recs) && (verify ==> Verified(s, b, recs, plain))
  {
  }

  // The last step: the completion record, which ends the file.
  ghost predicate Completed(s: Session, file: Bytes, st: Reading, f: Found)
  {
    && f.header.kind == COMPLETION && IsRecord(f) && |BytesOf(f)| <= |file| && st.count < U64
    && st.manifestSequence.Some? && st.indexSequence.Some?
    && st.manifestSequence.value < U64 && st.indexSequence.value < U64
    && var covered := file[..|file| - |BytesOf(f)|];
       && file == covered + BytesOf(f)
       && Seals(s, f, EncodeCompletion(Hash(covered), st.count, st.manifestSequence.value, st.indexSequence.value))
  }

  lemma {:induction false} FinishedIsCompleted(s: Session, file: Bytes, verify: bool, offset: nat, st: Reading,
                                               last: Reading)
    returns (f: Found)
    requires HEADER_LENGTH <= offset <= |file| && ReadOne(s, file, offset, st, verify) == Finished(last)
    ensures last == st && FindRecord(file, offset, st.previous) == Ok(f) && Completed(s, file, st, f)
    ensures offset == |file| - |BytesOf(f)|
  {
    f := FindRecord(file, offset, st.previous).value;
    FoundIsRecord(file, offset, st.previous);
    var p := OpenRecord(s, f.header, f.raw, f.ciphertext).value;
    OpenedIsSealed(s, f, p);
    CompletionCodec(p, Hash(file[..offset]), st.count, st.manifestSequence, st.indexSequence);
    assert file[..f.end] == file;
  }

  lemma {:induction false} WalkSees(s: Session, file: Bytes, verify: bool, offset: nat, st: Reading, recs: seq<Found>,
                                    plain: seq<Bytes>)
    returns (all: seq<Found>, texts: seq<Bytes>, f: Found)
    requires HEADER_LENGTH <= offset <= |file| && Seen(s, file, verify, offset, st, recs, plain)
    requires Walk(Stepper(s, file, verify), |file|, offset, st).Ok?
    ensures var last := Walk(Stepper(s, file, verify), |file|, offset, st).value;
      && Completed(s, file, last, f) && HEADER_LENGTH <= |file| - |BytesOf(f)|
      && Seen(s, file, verify, |file| - |BytesOf(f)|, last, all, texts) && InOrder(all + [f])
    decreases |file| - offset
  {
    var step := Stepper(s, file, verify)(offset, st);
    if step.More? {
      var g, more := OneMoreSeen(s, file, verify, offset, st, recs, plain, step.reading, step.next);
      all, texts, f := WalkSees(s, file, verify, step.next, step.reading, recs + [g], more);
    } else {
      all, texts := recs, plain;
      f := FinishedIsCompleted(s, file, verify, offset, st, step.reading);
      FoundIsRecord(file, offset, st.previous);
      OneMoreInOrder(recs, f);
    }
  }

  // ---- What acceptance means ----

  // The records of a Bundle, and with verification the plaintexts of its content records.
  datatype Parts = Parts(contents: seq<Found>, manifest: Found, index: Found, completion: Found, plain: seq<Bytes>)

  function Covered(file: Bytes, p: Parts): Bytes
    requires HEADER_LENGTH <= |file|
  {
    file[..HEADER_LENGTH] + AllBytes(p.contents) + BytesOf(p.manifest) + BytesOf(p.index)
  }

  // The file is its public header, content records, the manifest, the index of exactly these content
  // records at the positions where they lie, and the completion record, which seals the hash of
  // everything before it; all under increasing sequences.
  ghost predicate IsBundle(file: Bytes, s: Session, m: Manifest, p: Parts)
    requires HEADER_LENGTH <= |file|
  {
    IsSealed(file, s, m, p) && ManifestFits(m, p.contents)
  }

  ghost predicate IsSealed(file: Bytes, s: Session, m: Manifest, p: Parts)
    requires HEADER_LENGTH <= |file|
  {
    var entries, covered := EntriesAt(p.contents), Covered(file, p);
    var first, second := p.manifest.header.sequence, p.index.header.sequence;
    && InOrder(p.contents + [p.manifest, p.index, p.completion])
    && (forall k | 0 <= k < |p.contents| :: p.contents[k].header.kind == CONTENT)
    && p.manifest.header.kind == MANIFEST && p.index.header.kind == INDEX && p.completion.header.kind == COMPLETION
    && file == covered + BytesOf(p.completion)
    && Seals(s, p.manifest, EncodeManifest(m, p.manifest.header.plaintextLength))
    && IndexFits(entries) && FitEntries(entries) && Seals(s, p.index, IndexBytes(entries))
    && |p.contents| + 2 < U64 && first < U64 && second < U64
    && Seals(s, p.completion, EncodeCompletion(Hash(covered), |p.contents| + 2, first, second))
  }

  // The content records before the `k`-th that belong to the same item.
  function Earlier(recs: seq<Found>, k: nat, item: nat): set<nat>
    requires k <= |recs|
  {
    set j: nat | j < k && recs[j].header.item == item
  }

  // The manifest is of this format, lists the content records' sequences item by item, and knows every
  // record's item, whose records are numbered from zero.
  ghost predicate ManifestFits(m: Manifest, recs: seq<Found>) {
    && m.marker == "MNF2" && (m.schemaVersion == 1 || m.schemaVersion == 2) && 1 <= |m.sourceName| <= 4096
    && ItemSequences(m.items) == seq(|recs|, k requires 0 <= k < |recs| => recs[k].header.sequence)
    && forall k | 0 <= k < |recs| ::
         recs[k].header.item < |m.items| && recs[k].header.chunk == |Earlier(recs, k, recs[k].header.item)|
  }

  lemma {:induction false} EntriesLength(recs: seq<Found>)
    ensures |EntriesAt(recs)| == |recs|
  {
    if recs != [] {
      EntriesLength(recs[..|recs| - 1]);
    }
  }

  lemma {:induction false} EntriesOfFirst(recs: seq<Found>, k: nat)
    requires k < |recs|
    ensures |EntriesAt(recs)| == |recs| && EntriesAt(recs)[..k] == EntriesAt(recs[..k])
    ensures var e, h := EntriesAt(recs)[k], recs[k].header;
      e.sequence == h.sequence && e.item == h.item && e.chunk == h.chunk
    decreases |recs|
  {
    var n := |recs| - 1;
    EntriesLength(recs);
    EntriesLength(recs[..n]);
    if k < n {
      EntriesOfFirst(recs[..n], k);
      assert recs[..n][..k] == recs[..k];
      assert EntriesAt(recs)[..k] == EntriesAt(recs[..n])[..k];
    }
  }

  lemma OneMoreEarlier(recs: seq<Found>, k: nat, item: nat)
    requires 0 < k <= |recs|
    ensures |Earlier(recs, k, item)| ==
              |Earlier(recs, k - 1, item)| + (if recs[k - 1].header.item == item then 1 else 0)
  {
    var now := if recs[k - 1].header.item == item then {k - 1} else {};
    assert Earlier(recs, k, item) == Earlier(recs, k - 1, item) + now;
    assert k - 1 !in Earlier(recs, k - 1, item);
  }

  lemma {:induction false} CountsEarlier(recs: seq<Found>, k: nat, item: nat)
    requires k <= |recs|
    ensures ChunkCount(EntriesAt(recs[..k]), item) == |Earlier(recs, k, item)|
  {
    EntriesLength(recs[..k]);
    if k == 0 {
      assert Earlier(recs, 0, item) == {};
    } else {
      CountsEarlier(recs, k - 1, item);
      OneMoreEarlier(recs, k, item);
      assert recs[..k][..k - 1] == recs[..k - 1];
      EntriesOfFirst(recs[..k], k - 1);
    }
  }

  lemma {:induction false} MatchingFits(m: Manifest, recs: seq<Found>)
    requires ManifestMatches(m, EntriesAt(recs))
    ensures ManifestFits(m, recs)
  {
    var entries := EntriesAt(recs);
    EntriesLength(recs);
    forall k | 0 <= k < |recs|
      ensures recs[k].header.sequence == Sequences(entries)[k]
      ensures recs[k].header.item < |m.items| && recs[k].header.chunk == |Earlier(recs, k, recs[k].header.item)|
    {
      EntriesOfFirst(recs, k);
      CountsEarlier(recs, k, recs[k].header.item);
      assert NextChunk(entries, k, |m.items|);
    }
    assert Sequences(entries) == seq(|recs|, k requires 0 <= k < |recs| => recs[k].header.sequence);
  }

  // Every content record opens, every item's hash is that of its bytes, and the sizes add up.
  ghost predicate IsVerified(s: Session, m: Manifest, p: Parts, contents: map<nat, Bytes>) {
    && |p.plain| == |p.contents| && AllSeal(s, p.contents, p.plain) && TotalLength(p.plain) == m.logicalSize
    && (forall item: nat :: item in contents <==> Mentions(p.contents, |p.contents|, item))
    && (forall item: nat | item in contents :: contents[item] == Together(p.contents, p.plain, item))
    && (forall i | 0 <= i < |m.items| ::
          m.items[i].contentHash == if m.items[i].chunkSequences == [] then None
                                    else Some(Hash(Together(p.contents, p.plain, i))))
  }

  // The reader is sound: whatever it accepts is such a file.
  lemma {:induction false} AcceptedIsBundle(file: Bytes, secret: RecoverySecret, verify: bool) returns (p: Parts)
    requires Open(file, secret, verify).Ok?
    ensures HEADER_LENGTH <= |file| && DecodeHeader(file[..HEADER_LENGTH], secret).Ok?
    ensures var b, o := Open(file, secret, verify).value, DecodeHeader(file[..HEADER_LENGTH], secret).value;
      var s := SessionOf(file[..HEADER_LENGTH], o);
      && b.identifier == o.identifier && IsBundle(file, s, b.manifest, p)
      && (verify ==> IsVerified(s, b.manifest, p, b.contents))
  {
    var header := file[..HEADER_LENGTH];
    var s := SessionOf(header, DecodeHeader(header, secret).value);
    var st := ReadRecords(s, file, verify).value;
    var recs, plain, f := WalkSees(s, file, verify, HEADER_LENGTH, NOTHING_READ, [], []);
    p := PartsOf(s, file, st, recs, plain, f);
    MatchingFits(st.manifest.value, p.contents);
    if verify {
      VerifiedParts(s, st, recs, plain, p);
    }
  }

  lemma {:induction false} PartsOf(s: Session, file: Bytes, st: Reading, recs: seq<Found>, plain: seq<Bytes>, f: Found)
    returns (p: Parts)
    requires HEADER_LENGTH <= |file| - |BytesOf(f)| && Sorted(s, st, recs) && st.count == |recs|
    requires file[..|file| - |BytesOf(f)|] == file[..HEADER_LENGTH] + AllBytes(recs)
    requires Completed(s, file, st, f) && InOrder(recs + [f])
    requires st.manifest.Some? && st.index == Some(st.entries)
    ensures IsSealed(file, s, st.manifest.value, p)
    ensures p.contents == recs[..|st.entries|] && |st.entries| <= |recs| && p.plain == plain
  {
    var n := |st.entries|;
    p := Parts(recs[..n], recs[n], recs[n + 1], f, plain);
    TrailerRecords(recs, n, f);
    TrailerBytes(file[..HEADER_LENGTH], recs, n);
  }

  lemma TrailerRecords(recs: seq<Found>, n: nat, f: Found)
    requires |recs| == n + 2
    ensures recs + [f] == recs[..n] + [recs[n], recs[n + 1], f]
  {
  }

  lemma {:induction false} TrailerBytes(head: Bytes, recs: seq<Found>, n: nat)
    requires |recs| == n + 2
    ensures head + AllBytes(recs) == head + AllBytes(recs[..n]) + BytesOf(recs[n]) + BytesOf(recs[n + 1])
  {
    var one := recs[..n + 1];
    assert one[..n] == recs[..n] && one[n] == recs[n];
    assert AllBytes(recs) == AllBytes(one) + BytesOf(recs[n + 1]);
    assert AllBytes(one) == AllBytes(recs[..n]) + BytesOf(recs[n]);
  }

  lemma {:induction false} VerifiedParts(s: Session, st: Reading, recs: seq<Found>, plain: seq<Bytes>, p: Parts)
    requires Verified(s, st, recs, plain) && p.contents == recs[..|st.entries|] && p.plain == plain
    requires st.manifest.Some? && ContentsAuthentic(st.manifest.value, st.contents)
    requires st.bytes == st.manifest.value.logicalSize
    ensures IsVerified(s, st.manifest.value, p, st.contents)
  {
    var m, n := st.manifest.value, |st.entries|;
    forall item: nat
      ensures Together(recs, plain, item) == Together(p.contents, plain, item)
      ensures Mentions(recs, n, item) <==> Mentions(p.contents, n, item)
    {
      TogetherOfFirst(recs, plain, n, item);
      assert forall k | 0 <= k < n :: p.contents[k] == recs[k];
    }
    forall i | 0 <= i < |m.items|
      ensures m.items[i].contentHash == if m.items[i].chunkSequences == [] then None
                                        else Some(Hash(Together(p.contents, p.plain, i)))
    {
      assert ItemAuthentic(m.items[i], i, st.contents);
    }
  }

  lemma {:induction false} TogetherOfFirst(recs: seq<Found>, plain: seq<Bytes>, n: nat, item: nat)
    requires |plain| <= n <= |recs|
    ensures Together(recs, plain, item) == Together(recs[..n], plain, item)
  {
    if plain != [] {
      TogetherOfFirst(recs, plain[..|plain| - 1], n, item);
    }
  }

  // ---- Changed files ----

  const COMPLETION_LENGTH := RECORD_HEADER_LENGTH + 61 + TAG

  lemma {:induction false} SealedOnce(s: Session, t: Session, f: Found, g: Found, p: Bytes, q: Bytes)
    requires Seals(s, f, p) && Seals(t, g, q) && BytesOf(f) == BytesOf(g)
    ensures p == q
  {
    var a := Encrypt(RecordKey(s, f.header.kind), RecordNonce(s, f.header.sequence), RecordAad(s, f.raw), p);
    var b := Encrypt(RecordKey(t, g.header.kind), RecordNonce(t, g.header.sequence), RecordAad(t, g.raw), q);
    assert BytesOf(f)[RECORD_HEADER_LENGTH..] == a && BytesOf(g)[RECORD_HEADER_LENGTH..] == b;
    assert a[0].seal.plaintext == p && b[0].seal.plaintext == q;
  }

  lemma HashInCompletion(h: Bytes, k: Bytes, a: nat, b: nat, c: nat, x: nat, y: nat, z: nat)
    requires |h| == |k| == 32 && a < U64 && b < U64 && c < U64 && x < U64 && y < U64 && z < U64
    requires EncodeCompletion(h, a, b, c) == EncodeCompletion(k, x, y, z)
    ensures h == k
  {
    assert EncodeCompletion(h, a, b, c)[4..36] == h && EncodeCompletion(k, x, y, z)[4..36] == k;
  }

  // Two accepted files that end with the same completion record are the same file, whatever the
  // secrets and with or without verification: nothing before an accepted file's completion record
  // can be changed, added or taken away.
  lemma {:induction false} ChangedFileRefused(f: Bytes, g: Bytes, secretF: RecoverySecret, secretG: RecoverySecret,
                                              verifyF: bool, verifyG: bool)
    requires Open(f, secretF, verifyF).Ok? && f != g
    requires COMPLETION_LENGTH <= |f| && COMPLETION_LENGTH <= |g|
    requires f[|f| - COMPLETION_LENGTH..] == g[|g| - COMPLETION_LENGTH..]
    ensures Open(g, secretG, verifyG).Err?
  {
    if Open(g, secretG, verifyG).Ok? {
      SameCompletionSameFile(f, g, secretF, secretG, verifyF, verifyG);
    }
  }

  lemma {:induction false} SameCompletionSameFile(f: Bytes, g: Bytes, secretF: RecoverySecret, secretG: RecoverySecret,
                                                  verifyF: bool, verifyG: bool)
    requires Open(f, secretF, verifyF).Ok? && Open(g, secretG, verifyG).Ok?
    requires COMPLETION_LENGTH <= |f| && COMPLETION_LENGTH <= |g|
    requires f[|f| - COMPLETION_LENGTH..] == g[|g| - COMPLETION_LENGTH..]
    ensures f == g
  {
    var p := AcceptedIsBundle(f, secretF, verifyF);
    var q := AcceptedIsBundle(g, secretG, verifyG);
    var s := SessionOf(f[..HEADER_LENGTH], DecodeHeader(f[..HEADER_LENGTH], secretF).value);
    var t := SessionOf(g[..HEADER_LENGTH], DecodeHeader(g[..HEADER_LENGTH], secretG).value);
    SameEndSameFile(f, g, s, t, Open(f, secretF, verifyF).value.manifest, Open(g, secretG, verifyG).value.manifest,
                    p, q);
  }

  lemma {:induction false} SameEndSameFile(f: Bytes, g: Bytes, s: Session, t: Session, m: Manifest, n: Manifest,
                                           p: Parts, q: Parts)
    requires HEADER_LENGTH <= |f| && HEADER_LENGTH <= |g| && IsSealed(f, s, m, p) && IsSealed(g, t, n, q)
    requires COMPLETION_LENGTH <= |f| && COMPLETION_LENGTH <= |g|
    requires f[|f| - COMPLETION_LENGTH..] == g[|g| - COMPLETION_LENGTH..]
    ensures f == g
  {
    var a, b := Covered(f, p), Covered(g, q);
    assert |BytesOf(p.completion)| == COMPLETION_LENGTH == |BytesOf(q.completion)|;
    assert f[|f| - COMPLETION_LENGTH..] == BytesOf(p.completion);
    assert g[|g| - COMPLETION_LENGTH..] == BytesOf(q.completion);
    SealedOnce(s, t, p.completion, q.completion,
               EncodeCompletion(Hash(a), |p.contents| + 2, p.manifest.header.sequence, p.index.header.sequence),
               EncodeCompletion(Hash(b), |q.contents| + 2, q.manifest.header.sequence, q.index.header.sequence));
    HashInCompletion(Hash(a), Hash(b), |p.contents| + 2, p.manifest.header.sequence, p.index.header.sequence,
                     |q.contents| + 2, q.manifest.header.sequence, q.index.header.sequence);
    HashIsInjective(a, b);
  }
}
