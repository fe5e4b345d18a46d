// The captured items behind a Bundle's chunks: for each item the pieces of its content, in
// order. A completed file made of them opens to the same manifest and the same contents.
module CapturedItems {
  import opened Outcomes
  import opened Cells
  import opened Records
  import opened PublicHeader
  import opened BundleReader
  import opened BundleContents

  datatype Piece = Piece(sequence: nat, plaintext: Bytes)

  // One group of pieces for each captured item; items without content have an empty group.
  type Groups = seq<seq<Piece>>

  function GroupChunks(item: nat, group: seq<Piece>): seq<Chunk> {
    seq(|group|, k requires 0 <= k < |group| => Chunk(group[k].sequence, item, k, group[k].plaintext))
  }

  function Chunks(groups: Groups): seq<Chunk> {
    if groups == [] then []
    else Chunks(groups[..|groups| - 1]) + GroupChunks(|groups| - 1, groups[|groups| - 1])
  }

  function Content(group: seq<Piece>): Bytes {
    if group == [] then [] else Content(group[..|group| - 1]) + group[|group| - 1].plaintext
  }

  function GroupSequences(group: seq<Piece>): seq<nat> {
    seq(|group|, k requires 0 <= k < |group| => group[k].sequence)
  }

  function ContentSize(groups: Groups): nat {
    if groups == [] then 0 else ContentSize(groups[..|groups| - 1]) + |Content(groups[|groups| - 1])|
  }

  ghost predicate ItemHolds(item: ManifestItem, group: seq<Piece>) {
    && item.chunkSequences == GroupSequences(group)
    && item.contentHash == (if group == [] then None else Some(Hash(Content(group))))
  }

  ghost predicate ItemsHold(items: seq<ManifestItem>, groups: Groups) {
    |items| == |groups| && forall i | 0 <= i < |items| :: ItemHolds(items[i], groups[i])
  }

  // ---- Taking the last piece off ----

  function WithoutLastPiece(groups: Groups): (r: Groups)
    requires groups != [] && groups[|groups| - 1] != []
    ensures |r| == |groups|
  {
    var n := |groups| - 1;
    groups[..n] + [groups[n][..|groups[n]| - 1]]
  }

  function LastChunk(groups: Groups): Chunk
    requires groups != [] && groups[|groups| - 1] != []
  {
    var n := |groups| - 1;
    var k := |groups[n]| - 1;
    Chunk(groups[n][k].sequence, n, k, groups[n][k].plaintext)
  }

  lemma {:induction false} LastPiece(groups: Groups)
    requires groups != [] && groups[|groups| - 1] != []
    ensures Chunks(groups) == Chunks(WithoutLastPiece(groups)) + [LastChunk(groups)]
    ensures Chunks(groups) != [] && Chunks(groups)[..|Chunks(groups)| - 1] == Chunks(WithoutLastPiece(groups))
  {
    var n := |groups| - 1;
    var less := WithoutLastPiece(groups);
    assert less[..n] == groups[..n];
    assert GroupChunks(n, groups[n]) == GroupChunks(n, less[n]) + [LastChunk(groups)];
  }

  lemma {:induction false} EmptyLastGroup(groups: Groups)
    requires groups != [] && groups[|groups| - 1] == []
    ensures Chunks(groups) == Chunks(groups[..|groups| - 1])
  {
  }

  // ---- The index of captured items ----

  // The chunks of every item are numbered from zero in the order they come.
  lemma {:induction false} CapturedIndexInOrder(groups: Groups, start: nat)
    ensures var index := EntriesOf(Chunks(groups), start);
      && ChunksInOrder(index, |groups|)
      && forall i: nat :: ChunkCount(index, i) == if i < |groups| then |groups[i]| else 0
    decreases |groups|, if groups == [] then 0 else |groups[|groups| - 1]|
  {
    if groups != [] {
      var n := |groups| - 1;
      var index := EntriesOf(Chunks(groups), start);
      if groups[n] == [] {
        EmptyLastGroup(groups);
        CapturedIndexInOrder(groups[..n], start);
        forall k | 0 <= k < |index| ensures NextChunk(index, k, |groups|) {
          assert NextChunk(index, k, n);
        }
      } else {
        LastPiece(groups);
        var less := WithoutLastPiece(groups);
        var front := EntriesOf(Chunks(less), start);
        CapturedIndexInOrder(less, start);
        assert index[..|index| - 1] == front;
        forall k | 0 <= k < |index| ensures NextChunk(index, k, |groups|) {
          if k < |front| {
            assert NextChunk(front, k, |less|);
            assert index[..k] == front[..k];
          }
        }
      }
    }
  }

  lemma SequencesSplit(index: seq<IndexEntry>)
    requires index != []
    ensures Sequences(index) == Sequences(index[..|index| - 1]) + [index[|index| - 1].sequence]
  {
  }

  function AllSequences(groups: Groups): seq<nat> {
    if groups == [] then []
    else AllSequences(groups[..|groups| - 1]) + GroupSequences(groups[|groups| - 1])
  }

  lemma {:induction false} CapturedSequences(groups: Groups, start: nat)
    ensures Sequences(EntriesOf(Chunks(groups), start)) == AllSequences(groups)
    decreases |groups|, if groups == [] then 0 else |groups[|groups| - 1]|
  {
    if groups != [] {
      var n := |groups| - 1;
      if groups[n] == [] {
        EmptyLastGroup(groups);
        CapturedSequences(groups[..n], start);
      } else {
        LastPiece(groups);
        var less := WithoutLastPiece(groups);
        CapturedSequences(less, start);
        SequencesSplit(EntriesOf(Chunks(groups), start));
        assert less[..n] == groups[..n];
        assert GroupSequences(groups[n]) == GroupSequences(less[n]) + [LastChunk(groups).sequence];
      }
    }
  }

  lemma {:induction false} ItemsListSequences(items: seq<ManifestItem>, groups: Groups)
    requires ItemsHold(items, groups)
    ensures ItemSequences(items) == AllSequences(groups)
  {
    if items != [] {
      var n := |items| - 1;
      assert forall i | 0 <= i < n :: ItemHolds(items[..n][i], groups[..n][i]);
      ItemsListSequences(items[..n], groups[..n]);
      assert ItemHolds(items[n], groups[n]);
    }
  }

  // ---- The contents of captured items ----

  ghost predicate ContentIs(contents: map<nat, Bytes>, groups: Groups, i: nat) {
    && (i in contents <==> i < |groups| && groups[i] != [])
    && (i in contents ==> contents[i] == Content(groups[i]))
  }

  // For every item with content: that content, and nothing else.
  ghost predicate ContentsAre(contents: map<nat, Bytes>, groups: Groups) {
    forall i: nat :: ContentIs(contents, groups, i)
  }

  // The chunks' contents, put together item by item, are the captured contents.
  lemma {:induction false} CapturedContents(groups: Groups)
    ensures ContentsAre(ContentsOf(Chunks(groups)), groups)
    decreases |groups|, if groups == [] then 0 else |groups[|groups| - 1]|
  {
    if groups != [] {
      var n := |groups| - 1;
      if groups[n] == [] {
        EmptyLastGroup(groups);
        CapturedContents(groups[..n]);
        SameContents(ContentsOf(Chunks(groups)), groups);
      } else {
        LastPiece(groups);
        CapturedContents(WithoutLastPiece(groups));
        OneMorePiece(ContentsOf(Chunks(WithoutLastPiece(groups))), ContentsOf(Chunks(groups)), groups);
      }
    }
  }

  lemma SameContents(contents: map<nat, Bytes>, groups: Groups)
    requires groups != [] && groups[|groups| - 1] == [] && ContentsAre(contents, groups[..|groups| - 1])
    ensures ContentsAre(contents, groups)
  {
    forall i: nat ensures ContentIs(contents, groups, i) {
      assert ContentIs(contents, groups[..|groups| - 1], i);
    }
  }

  lemma OneMorePiece(before: map<nat, Bytes>, after: map<nat, Bytes>, groups: Groups)
    requires groups != [] && groups[|groups| - 1] != [] && ContentsAre(before, WithoutLastPiece(groups))
    requires after == Appended(before, |groups| - 1, LastChunk(groups).plaintext)
    ensures ContentsAre(after, groups)
  {
    forall i: nat ensures ContentIs(after, groups, i) {
      assert ContentIs(before, WithoutLastPiece(groups), i);
    }
  }

  lemma {:induction false} CapturedSize(groups: Groups)
    ensures TotalBytes(Chunks(groups)) == ContentSize(groups)
    decreases |groups|, if groups == [] then 0 else |groups[|groups| - 1]|
  {
    if groups != [] {
      var n := |groups| - 1;
      if groups[n] == [] {
        EmptyLastGroup(groups);
        CapturedSize(groups[..n]);
      } else {
        LastPiece(groups);
        var less := WithoutLastPiece(groups);
        CapturedSize(less);
        assert less[..n] == groups[..n];
      }
    }
  }

  // ---- Opening ----

  lemma {:induction false} CapturedManifestMatches(m: Manifest, groups: Groups)
    requires ItemsHold(m.items, groups) && m.marker == "MNF2" && m.schemaVersion == 2
    ensures var index := EntriesOf(Chunks(groups), HEADER_LENGTH);
      && (ManifestMatches(m, index) <==> 1 <= |m.sourceName| <= 4096)
      && ContentsAuthentic(m, ContentsOf(Chunks(groups)))
  {
    CapturedIndexInOrder(groups, HEADER_LENGTH);
    CapturedSequences(groups, HEADER_LENGTH);
    ItemsListSequences(m.items, groups);
    CapturedContents(groups);
    forall i | 0 <= i < |m.items| ensures ItemAuthentic(m.items[i], i, ContentsOf(Chunks(groups))) {
      assert ItemHolds(m.items[i], groups[i]) && ContentIs(ContentsOf(Chunks(groups)), groups, i);
    }
  }

  ghost function SessionFor(h: Header): Session
    requires FitsHeader(h)
  {
    SessionOf(EncodeHeader(h), Opened(h.dataKey, h.identifier, h.salt, h.noncePrefix))
  }

  lemma {:induction false} CapturedPassesChecks(groups: Groups, m: Manifest, next: nat, verify: bool)
    requires ItemsHold(m.items, groups) && m.marker == "MNF2"
    requires m.schemaVersion == 2 && m.logicalSize == ContentSize(groups)
    ensures FinalChecks(FinalReading(Chunks(groups), m, next, verify), verify)
         == if 1 <= |m.sourceName| <= 4096 then None else Some(InvalidManifest)
  {
    CapturedManifestMatches(m, groups);
    CapturedSize(groups);
  }

  lemma OpensAsRead(file: Bytes, header: Bytes, secret: RecoverySecret, o: Opened, reading: Reading, verify: bool)
    requires |file| >= HEADER_LENGTH + RECORD_HEADER_LENGTH && file[..HEADER_LENGTH] == header
    requires DecodeHeader(header, secret) == Ok(o) && ReadRecords(SessionOf(header, o), file, verify) == Ok(reading)
    ensures Open(file, secret, verify)
         == if FinalChecks(reading, verify).Some? then Err(FinalChecks(reading, verify).value)
            else Ok(OpenedBundle(reading.manifest.value, reading.contents, reading.bytes, o.identifier))
  {
  }

  // A completed file of captured items opens with either Recovery Method, with or without
  // verification, exactly when its source name has a length the reader accepts; it opens to
  // its own manifest and, verified, to the bytes captured for each item.
  lemma {:induction false} CapturedBundleOpens(h: Header, secret: RecoverySecret, groups: Groups, m: Manifest,
                                               size: nat, next: nat, verify: bool, file: Bytes)
    requires FitsHeader(h) && (secret == h.first.secret || secret == h.second.secret)
    requires ItemsHold(m.items, groups) && m.marker == "MNF2"
    requires m.schemaVersion == 2 && m.logicalSize == ContentSize(groups)
    requires CanComplete(Chunks(groups), size, next)
    requires file == CompleteFile(SessionFor(h), EncodeHeader(h), Chunks(groups), m, size, next)
    ensures var r := Open(file, secret, verify);
      && (r.Ok? <==> 1 <= |m.sourceName| <= 4096) && (r.Err? ==> r.error == InvalidManifest)
      && (r.Ok? ==> r.value.manifest == m && r.value.identifier == h.identifier)
      && (r.Ok? && verify ==> ContentsAre(r.value.contents, groups) && r.value.bytes == m.logicalSize)
  {
    var header, s := EncodeHeader(h), SessionFor(h);
    var reading := FinalReading(Chunks(groups), m, next, verify);
    assert |file| >= HEADER_LENGTH + RECORD_HEADER_LENGTH && file[..HEADER_LENGTH] == header by {
      HeaderComesFirst(s, header, Chunks(groups), m, size, next);
    }
    HeaderOpensWithEitherMethod(h, secret);
    CompleteFileReadsBack(s, header, Chunks(groups), m, size, next, verify);
    OpensAsRead(file, header, secret, s.material, reading, verify);
    CapturedPassesChecks(groups, m, next, verify);
    CapturedContents(groups);
    CapturedSize(groups);
  }

  lemma HeaderComesFirst(s: Session, header: Bytes, chunks: seq<Chunk>, m: Manifest, size: nat, next: nat)
    requires |header| == HEADER_LENGTH && CanComplete(chunks, size, next)
    ensures var file := CompleteFile(s, header, chunks, m, size, next);
      |file| >= HEADER_LENGTH + RECORD_HEADER_LENGTH && file[..HEADER_LENGTH] == header
  {
  }
}
