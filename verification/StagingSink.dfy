// The sink that authenticated content is staged through: one open file at a time, reopened
// where it was left, so that any interleaving of items ends as plain appending would.
module StagingSink {
  import opened Outcomes
  import opened Cells
  import opened BundleContents
  import opened CapturedItems
  import opened PackSource
  import Renumbering

  datatype StagedFile = StagedFile(expected: nat, written: nat, nextChunk: nat)

  // An open file: whose it is, and where the next write goes.
  datatype Handle = Handle(item: nat, position: nat)

  // ---- Plain appending ----

  // What the chunks of an item come to when simply appended, and how many there are.
  function Poured(chunks: seq<Chunk>, item: nat): Bytes {
    if chunks == [] then []
    else
      var last := chunks[|chunks| - 1];
      Poured(chunks[..|chunks| - 1], item) + (if last.item == item then last.plaintext else [])
  }

  function CountOf(chunks: seq<Chunk>, item: nat): (r: nat)
    ensures r <= |chunks|
  {
    if chunks == [] then 0
    else CountOf(chunks[..|chunks| - 1], item) + (if chunks[|chunks| - 1].item == item then 1 else 0)
  }

  // Chunk `k` belongs to a file that is expected, comes in its turn, and does not exceed it.
  predicate InTurn(chunks: seq<Chunk>, k: nat, expected: map<nat, nat>)
    requires k < |chunks|
  {
    var c := chunks[k];
    && c.item in expected && c.chunk == CountOf(chunks[..k], c.item) && c.chunk + 1 < U32
    && |Poured(chunks[..k], c.item)| + |c.plaintext| <= expected[c.item]
  }

  ghost predicate Acceptable(chunks: seq<Chunk>, expected: map<nat, nat>) {
    forall k | 0 <= k < |chunks| :: InTurn(chunks, k, expected)
  }

  // No accepted stream makes a file longer than expected, or writes to one that is not expected.
  lemma {:induction false} AcceptedStaysWithin(chunks: seq<Chunk>, expected: map<nat, nat>, item: nat)
    requires Acceptable(chunks, expected)
    ensures |Poured(chunks, item)| <= if item in expected then expected[item] else 0
    ensures CountOf(chunks, item) > 0 ==> item in expected && CountOf(chunks, item) < U32
  {
    if chunks != [] {
      var n := |chunks| - 1;
      assert InTurn(chunks, n, expected);
      forall k | 0 <= k < n ensures InTurn(chunks[..n], k, expected) {
        assert InTurn(chunks, k, expected) && chunks[..n][..k] == chunks[..k];
      }
      AcceptedStaysWithin(chunks[..n], expected, item);
    }
  }

  // A file after a write at a position within it or at its end.
  function Overwritten(file: Bytes, position: nat, content: Bytes): Bytes
    requires position <= |file|
  {
    file[..position] + content + (if position + |content| < |file| then file[position + |content|..] else [])
  }

  lemma WrittenAtEnd(file: Bytes, content: Bytes)
    ensures Overwritten(file, |file|, content) == file + content
  {
    assert file[..|file|] == file;
  }

  // ---- The sink ----

  class StagedFileSink {
    // The staged files as they are on disk.
    var disk: map<nat, Bytes>
    var files: map<nat, StagedFile>
    var active: Option<Handle>
    // How many more operations on files succeed.
    var power: nat
    ghost var received: seq<Chunk>
    ghost var synchronized: set<nat>

    ghost predicate Valid() reads this`disk, this`files, this`active, this`received {
      && disk.Keys == files.Keys
      && (forall f | f in files :: files[f].written == |disk[f]| <= files[f].expected < U64)
      && (active.Some? ==> active.value.item in files && active.value.position == files[active.value.item].written)
      && AreAppended(disk, files, received)
    }

    ghost function Expected(): map<nat, nat> reads this`files {
      map f | f in files :: files[f].expected
    }

    constructor (power: nat)
      ensures Valid() && files == map[] && received == [] && this.power == power
    {
      disk, files, active, received := map[], map[], None, [];
      this.power := power;
    }

    // A new staged file, empty, expected to reach a size.
    method Add(item: nat, expected: nat)
      requires Valid() && received == [] && item !in files && expected < U64
      modifies this`disk, this`files
      ensures Valid() && Expected() == old(Expected())[item := expected]
    {
      AddsEmpty(disk, files, item, expected);
      disk, files := disk[item := []], files[item := StagedFile(expected, 0, 0)];
    }

    static lemma AddsEmpty(disk: map<nat, Bytes>, files: map<nat, StagedFile>, item: nat, expected: nat)
      requires AreAppended(disk, files, []) && item !in files
      ensures AreAppended(disk[item := []], files[item := StagedFile(expected, 0, 0)], [])
    {
    }

    method OpenForChunk(item: nat) returns (ok: bool)
      requires Valid()
      modifies this`active, this`power
      ensures Valid()
      ensures ok ==> item in files && active == Some(Handle(item, files[item].written))
      ensures !ok ==> item !in files || power == 0
      ensures power <= old(power)
    {
      if active.Some? && active.value.item == item {
        return true;
      }
      active := None;
      ok := item in files && power > 0;
      if ok {
        power := power - 1;
        active := Some(Handle(item, files[item].written));
      }
    }

    // A write at the open file's position, which it moves.
    method WriteAll(content: Bytes) returns (ok: bool)
      requires active.Some? && active.value.item in disk && active.value.position <= |disk[active.value.item]|
      modifies this`disk, this`active, this`power
      ensures ok <==> old(power) > 0
      ensures !ok ==> power == 0 && disk == old(disk) && active == old(active)
      ensures ok ==> var h := old(active).value;
        && active == Some(Handle(h.item, h.position + |content|))
        && disk == old(disk)[h.item := Overwritten(old(disk)[h.item], h.position, content)]
    {
      ok := power > 0;
      if ok {
        power := power - 1;
        var h := active.value;
        disk := disk[h.item := Overwritten(disk[h.item], h.position, content)];
        active := Some(Handle(h.item, h.position + |content|));
      }
    }

    // The next chunk of a staged file, within the file's expected size.
    ghost predicate CanTake(c: Chunk) reads this`files {
      && c.item in files && c.chunk == files[c.item].nextChunk && c.chunk + 1 < U32
      && files[c.item].written + |c.plaintext| <= files[c.item].expected
    }

    lemma OneMoreChunk(c: Chunk)
      requires Valid()
      ensures InTurn(received + [c], |received|, Expected()) == CanTake(c)
    {
      assert (received + [c])[..|received|] == received;
    }

    static lemma {:induction false} PouredGrows(chunks: seq<Chunk>, c: Chunk, f: nat)
      ensures Poured(chunks + [c], f) == Poured(chunks, f) + (if c.item == f then c.plaintext else [])
      ensures CountOf(chunks + [c], f) == CountOf(chunks, f) + (if c.item == f then 1 else 0)
    {
      assert (chunks + [c])[..|chunks|] == chunks;
    }

    // Writes a file's next chunk at the open file's position.
    method WriteActive(c: Chunk) returns (ok: bool)
      requires Valid() && c.item in files && active == Some(Handle(c.item, files[c.item].written))
      requires c.chunk == files[c.item].nextChunk
      modifies this
      ensures Expected() == old(Expected())
      ensures ok ==> Valid() && received == old(received) + [c]
      ensures ok ==> old(CanTake(c))
      ensures !ok ==> power == 0 || !old(CanTake(c))
    {
      WrittenAtEnd(disk[c.item], c.plaintext);
      ok := WriteAll(c.plaintext);
      if ok {
        ok := CountChunk(c, old(disk));
      }
    }

    // Counts a chunk that has just been written.
    method CountChunk(c: Chunk, ghost before: map<nat, Bytes>) returns (ok: bool)
      requires before.Keys == files.Keys && c.item in files && AreAppended(before, files, received)
      requires forall f | f in files :: files[f].written == |before[f]| <= files[f].expected < U64
      requires disk == before[c.item := before[c.item] + c.plaintext]
      requires active == Some(Handle(c.item, files[c.item].written + |c.plaintext|))
      requires c.chunk == files[c.item].nextChunk
      modifies this`files, this`received
      ensures Expected() == old(Expected()) && ok == old(CanTake(c))
      ensures ok ==> Valid() && received == old(received) + [c]
    {
      var staged := files[c.item];
      var written := staged.written + |c.plaintext|;
      ok := written <= staged.expected && staged.nextChunk + 1 < U32;
      files := files[c.item := StagedFile(staged.expected, written, staged.nextChunk + 1)];
      AppendsOneMore(before, old(files), disk, files, received, c);
      received := received + [c];
    }

    // Every file holds its chunks appended in order, and nothing else.
    static ghost predicate AreAppended(disk: map<nat, Bytes>, files: map<nat, StagedFile>, chunks: seq<Chunk>) {
      forall f | f in files :: f in disk && disk[f] == Poured(chunks, f) && files[f].nextChunk == CountOf(chunks, f)
    }

    static lemma AppendsOneMore(disk: map<nat, Bytes>, files: map<nat, StagedFile>, disk': map<nat, Bytes>,
                                files': map<nat, StagedFile>, chunks: seq<Chunk>, c: Chunk)
      requires AreAppended(disk, files, chunks) && c.item in files && files'.Keys == files.Keys
      requires c.item in disk' && disk'[c.item] == disk[c.item] + c.plaintext
      requires files'[c.item].nextChunk == files[c.item].nextChunk + 1
      requires forall f | f in files && f != c.item :: f in disk' && disk'[f] == disk[f] && files'[f] == files[f]
      ensures AreAppended(disk', files', chunks + [c])
    {
      forall f | f in files'
        ensures f in disk' && disk'[f] == Poured(chunks + [c], f) && files'[f].nextChunk == CountOf(chunks + [c], f)
      {
        PouredGrows(chunks, c, f);
      }
    }

    // Accepts exactly the chunk whose turn it is, as long as files can be written.
    method WriteChunk(c: Chunk) returns (ok: bool)
      requires Valid()
      modifies this
      ensures Expected() == old(Expected())
      ensures ok ==> Valid() && received == old(received) + [c] && InTurn(received, |received| - 1, Expected())
      ensures !ok ==> power == 0 || !InTurn(old(received) + [c], |old(received)|, Expected())
    {
      OneMoreChunk(c);
      ok := OpenForChunk(c.item);
      if ok {
        ok := c.chunk == files[c.item].nextChunk;
        if ok {
          ok := WriteActive(c);
        }
      }
    }

    method FinishFile(f: nat) returns (ok: bool)
      requires f in files && f in disk && files[f].written == |disk[f]| <= files[f].expected
      modifies this`power, this`synchronized
      ensures ok ==> synchronized == old(synchronized) + {f} && |disk[f]| == files[f].expected
      ensures !ok ==> power == 0 || |disk[f]| < files[f].expected
    {
      ok := files[f].written == files[f].expected && power > 0;
      if ok {
        power, synchronized := power - 1, synchronized + {f};
      }
    }

    method FinishFiles() returns (ok: bool)
      requires forall f | f in files :: f in disk && files[f].written == |disk[f]| <= files[f].expected
      modifies this`power, this`synchronized
      ensures ok ==> synchronized == files.Keys && forall f | f in files :: |disk[f]| == files[f].expected
      ensures !ok ==> power == 0 || exists f :: f in files && |disk[f]| < files[f].expected
    {
      synchronized := {};
      var rest := files.Keys;
      ok := true;
      while rest != {}
        invariant ok && rest <= files.Keys && synchronized == files.Keys - rest
        invariant forall f | f in files && f !in rest :: |disk[f]| == files[f].expected
        decreases |rest|
      {
        var f :| f in rest;
        ok := FinishFile(f);
        if !ok {
          return;
        }
        rest := rest - {f};
      }
    }

    // Every file must have reached its size, and is then synchronized.
    method Finish() returns (ok: bool)
      requires Valid()
      modifies this`active, this`power, this`synchronized
      ensures Valid()
      ensures ok ==> synchronized == files.Keys && forall f | f in files :: |disk[f]| == files[f].expected
      ensures !ok ==> power == 0 || exists f :: f in files && |disk[f]| < files[f].expected
    {
      active := None;
      ok := FinishFiles();
    }
  }

  // ---- Staging a whole Bundle ----

  lemma {:induction false} PrefixesInTurn(chunks: seq<Chunk>, k: nat, expected: map<nat, nat>)
    requires k < |chunks|
    ensures InTurn(chunks[..k + 1], k, expected) == InTurn(chunks, k, expected)
  {
    assert chunks[..k + 1][..k] == chunks[..k];
  }

  // Receives chunks in any interleaving of items: as long as files can be written it accepts
  // exactly the acceptable streams, and then every file is its chunks appended in order.
  method Receive(sink: StagedFileSink, chunks: seq<Chunk>) returns (ok: bool)
    requires sink.Valid() && sink.received == []
    modifies sink
    ensures sink.Expected() == old(sink.Expected())
    ensures ok ==> sink.Valid() && sink.received == chunks && Acceptable(chunks, sink.Expected())
    ensures !ok ==> sink.power == 0 || !Acceptable(chunks, sink.Expected())
  {
    ok := true;
    var k := 0;
    while k < |chunks|
      invariant k <= |chunks| && sink.Valid() && sink.received == chunks[..k] && sink.Expected() == old(sink.Expected())
      invariant forall j | 0 <= j < k :: InTurn(chunks, j, sink.Expected())
    {
      PrefixesInTurn(chunks, k, sink.Expected());
      assert chunks[..k] + [chunks[k]] == chunks[..k + 1];
      ok := sink.WriteChunk(chunks[k]);
      if !ok {
        assert sink.power > 0 ==> !InTurn(chunks, k, sink.Expected());
        return;
      }
      k := k + 1;
    }
    assert chunks[..|chunks|] == chunks;
  }

  // ---- Staging a completed Bundle ----

  ghost predicate Numbered(chunks: seq<Chunk>) {
    forall k | 0 <= k < |chunks| :: chunks[k].chunk == CountOf(chunks[..k], chunks[k].item)
  }

  ghost predicate PoursInto(chunks: seq<Chunk>, groups: Groups, i: nat) {
    && Poured(chunks, i) == (if i < |groups| then Content(groups[i]) else [])
    && CountOf(chunks, i) == (if i < |groups| then |groups[i]| else 0)
  }

  lemma {:induction false} OneMoreNumbered(chunks: seq<Chunk>, c: Chunk)
    requires Numbered(chunks) && c.chunk == CountOf(chunks, c.item)
    ensures Numbered(chunks + [c])
  {
    forall k | 0 <= k < |chunks + [c]|
      ensures (chunks + [c])[k].chunk == CountOf((chunks + [c])[..k], (chunks + [c])[k].item)
    {
      assert k < |chunks| ==> (chunks + [c])[..k] == chunks[..k];
      assert k == |chunks| ==> (chunks + [c])[..k] == chunks;
    }
  }

  lemma PoursWithoutGroup(chunks: seq<Chunk>, groups: Groups, i: nat)
    requires groups != [] && groups[|groups| - 1] == [] && PoursInto(chunks, groups[..|groups| - 1], i)
    ensures PoursInto(chunks, groups, i)
  {
  }

  lemma PoursWithPiece(chunks: seq<Chunk>, groups: Groups, i: nat)
    requires groups != [] && groups[|groups| - 1] != [] && PoursInto(chunks, WithoutLastPiece(groups), i)
    ensures PoursInto(chunks + [LastChunk(groups)], groups, i)
  {
    assert (chunks + [LastChunk(groups)])[..|chunks|] == chunks;
  }

  // The chunks of captured items, appended, are the items' contents.
  lemma {:induction false} CapturedPours(groups: Groups, i: nat)
    ensures Numbered(Chunks(groups)) && PoursInto(Chunks(groups), groups, i)
    decreases |groups|, if groups == [] then 0 else |groups[|groups| - 1]|
  {
    if groups != [] {
      var n := |groups| - 1;
      if groups[n] == [] {
        EmptyLastGroup(groups);
        CapturedPours(groups[..n], i);
        PoursWithoutGroup(Chunks(groups), groups, i);
      } else {
        LastPiece(groups);
        var less := WithoutLastPiece(groups);
        CapturedPours(less, i);
        CapturedPours(less, n);
        OneMoreNumbered(Chunks(less), LastChunk(groups));
        PoursWithPiece(Chunks(less), groups, i);
      }
    }
  }

  lemma {:induction false} PouredPrefix(chunks: seq<Chunk>, k: nat, item: nat)
    requires k <= |chunks|
    ensures |Poured(chunks[..k], item)| <= |Poured(chunks, item)|
    decreases |chunks| - k
  {
    if k < |chunks| {
      assert chunks[..k + 1][..k] == chunks[..k];
      PouredPrefix(chunks, k + 1, item);
    } else {
      assert chunks[..k] == chunks;
    }
  }

  lemma {:induction false} PouredWithin(chunks: seq<Chunk>, k: nat, item: nat)
    requires k < |chunks| && chunks[k].item == item
    ensures |Poured(chunks[..k], item)| + |chunks[k].plaintext| <= |Poured(chunks, item)|
  {
    assert chunks[..k + 1][..k] == chunks[..k];
    PouredPrefix(chunks, k + 1, item);
  }

  // Every item with content is expected, and every expected size is the captured one.
  ghost predicate SizesAgree(groups: Groups, expected: map<nat, nat>) {
    && (forall i | 0 <= i < |groups| && groups[i] != [] :: i in expected)
    && (forall i | i in expected :: expected[i] == if i < |groups| then |Content(groups[i])| else 0)
  }

  ghost predicate Stages(chunks: seq<Chunk>, expected: map<nat, nat>) {
    Acceptable(chunks, expected) && forall f | f in expected :: |Poured(chunks, f)| == expected[f]
  }

  lemma {:induction false} InTurnWhenSizesAgree(groups: Groups, expected: map<nat, nat>, k: nat)
    requires SizesAgree(groups, expected) && k < |Chunks(groups)|
    requires forall i | 0 <= i < |groups| :: |groups[i]| < U32
    ensures InTurn(Chunks(groups), k, expected)
  {
    var chunks := Chunks(groups);
    var c := chunks[k];
    Renumbering.ChunkFrom(groups, k);
    assert c.item in expected && c.chunk + 1 < U32;
    assert c.chunk == CountOf(chunks[..k], c.item) && |Poured(chunks, c.item)| == expected[c.item] by {
      CapturedPours(groups, c.item);
    }
    PouredWithin(chunks, k, c.item);
  }

  lemma {:induction false} SizesAgreeWhenStaged(groups: Groups, expected: map<nat, nat>)
    requires Stages(Chunks(groups), expected)
    ensures SizesAgree(groups, expected)
  {
    var chunks := Chunks(groups);
    forall i | 0 <= i < |groups| && groups[i] != [] ensures i in expected {
      Renumbering.ChunkAt(groups, i, 0);
      assert InTurn(chunks, Renumbering.Pos(groups, i, 0), expected);
    }
    forall i | i in expected ensures expected[i] == if i < |groups| then |Content(groups[i])| else 0 {
      CapturedPours(groups, i);
    }
  }

  // The sink accepts a Bundle's content and finishes exactly when the sizes agree.
  lemma {:induction false} StagesExactlyWhenSizesAgree(groups: Groups, expected: map<nat, nat>)
    requires forall i | 0 <= i < |groups| :: |groups[i]| < U32
    ensures Stages(Chunks(groups), expected) <==> SizesAgree(groups, expected)
  {
    var chunks := Chunks(groups);
    if SizesAgree(groups, expected) {
      forall k | 0 <= k < |chunks| ensures InTurn(chunks, k, expected) {
        InTurnWhenSizesAgree(groups, expected, k);
      }
      forall f | f in expected ensures |Poured(chunks, f)| == expected[f] {
        CapturedPours(groups, f);
      }
    }
    if Stages(chunks, expected) {
      SizesAgreeWhenStaged(groups, expected);
    }
  }

  // What a Restore of a Bundle of the Plan expects: the planned size of each captured file.
  function PlannedSizes(plan: seq<PlanItem>, facts: seq<Facts>): map<nat, nat>
    requires |plan| == |facts|
  {
    map i: nat | i < |plan| && facts[i].content.Some? :: plan[i].estimatedSize
  }

  // A packed Bundle can be staged exactly when every captured file is as long as the Plan
  // estimated; capture itself compares only with the length it observed.
  lemma {:induction false} PackedBundleStages(plan: seq<PlanItem>, facts: seq<Facts>, items: seq<ManifestItem>,
                                              groups: Groups)
    requires CapturedAs(plan, facts, items, groups) && |items| == |plan|
    requires forall i | 0 <= i < |groups| :: |groups[i]| < U32
    ensures Stages(Chunks(groups), PlannedSizes(plan, facts))
       <==> forall i | 0 <= i < |plan| && facts[i].content.Some? :: plan[i].estimatedSize == |facts[i].content.value|
  {
    StagesExactlyWhenSizesAgree(groups, PlannedSizes(plan, facts));
    assert forall i | 0 <= i < |plan| :: HoldsContent(facts[i], groups[i]);
  }
}
