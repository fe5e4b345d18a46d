// Numbering captured pieces densely: the sequences change, the contents and the order do not.
module Renumbering {
  import opened Cells
  import opened BundleContents
  import opened CapturedItems

  // Where piece `j` of item `i` stands among all the chunks.
  function Pos(groups: Groups, i: nat, j: nat): nat
    requires i <= |groups|
  {
    |Chunks(groups[..i])| + j
  }

  lemma {:induction false} ChunkAt(groups: Groups, i: nat, j: nat)
    requires i < |groups| && j < |groups[i]|
    ensures Pos(groups, i, j) < |Chunks(groups)|
    ensures Chunks(groups)[Pos(groups, i, j)] == Chunk(groups[i][j].sequence, i, j, groups[i][j].plaintext)
    decreases |groups|
  {
    var n := |groups| - 1;
    if i < n {
      ChunkAt(groups[..n], i, j);
      assert groups[..n][..i] == groups[..i];
    }
  }

  lemma {:induction false} ChunkFrom(groups: Groups, k: nat)
    requires k < |Chunks(groups)|
    ensures var c := Chunks(groups)[k];
      c.item < |groups| && c.chunk < |groups[c.item]| && Pos(groups, c.item, c.chunk) == k
    decreases |groups|
  {
    var n := |groups| - 1;
    if k < |Chunks(groups[..n])| {
      ChunkFrom(groups[..n], k);
      assert groups[..n][..Chunks(groups)[k].item] == groups[..Chunks(groups)[k].item];
    }
  }

  ghost predicate SameShape(a: Groups, b: Groups) {
    |a| == |b| && forall i | 0 <= i < |a| :: |a[i]| == |b[i]|
  }

  lemma {:induction false} ShapeDecidesLength(a: Groups, b: Groups)
    requires SameShape(a, b)
    ensures |Chunks(a)| == |Chunks(b)|
  {
    if a != [] {
      ShapeDecidesLength(a[..|a| - 1], b[..|b| - 1]);
    }
  }

  function RenumberedGroup(groups: Groups, i: nat): seq<Piece>
    requires i < |groups|
  {
    seq(|groups[i]|, j requires 0 <= j < |groups[i]| => Piece(Pos(groups, i, j), groups[i][j].plaintext))
  }

  function Renumbered(groups: Groups): (r: Groups)
    ensures SameShape(r, groups)
  {
    seq(|groups|, i requires 0 <= i < |groups| => RenumberedGroup(groups, i))
  }

  function Dense(chunks: seq<Chunk>): (r: seq<Chunk>)
    ensures |r| == |chunks|
  {
    seq(|chunks|, k requires 0 <= k < |chunks| => chunks[k].(sequence := k))
  }

  lemma SamePositions(groups: Groups, i: nat, j: nat)
    requires i <= |groups|
    ensures Pos(Renumbered(groups), i, j) == Pos(groups, i, j)
  {
    ShapeDecidesLength(Renumbered(groups)[..i], groups[..i]);
  }

  // Renumbering the groups numbers their chunks 0, 1, 2, ... and changes nothing else.
  lemma {:induction false} RenumberedChunks(groups: Groups)
    ensures Chunks(Renumbered(groups)) == Dense(Chunks(groups))
  {
    var after, chunks := Renumbered(groups), Chunks(groups);
    ShapeDecidesLength(after, groups);
    forall k | 0 <= k < |chunks| ensures Chunks(after)[k] == Dense(chunks)[k] {
      ChunkFrom(groups, k);
      var i, j := chunks[k].item, chunks[k].chunk;
      ChunkAt(groups, i, j);
      SamePositions(groups, i, j);
      ChunkAt(after, i, j);
    }
  }

  lemma {:induction false} SamePlaintexts(a: seq<Piece>, b: seq<Piece>)
    requires |a| == |b| && forall j | 0 <= j < |a| :: a[j].plaintext == b[j].plaintext
    ensures Content(a) == Content(b)
  {
    if a != [] {
      SamePlaintexts(a[..|a| - 1], b[..|b| - 1]);
    }
  }

  lemma {:induction false} SameSizes(a: Groups, b: Groups)
    requires |a| == |b| && forall i | 0 <= i < |a| :: Content(a[i]) == Content(b[i])
    ensures ContentSize(a) == ContentSize(b)
  {
    if a != [] {
      SameSizes(a[..|a| - 1], b[..|b| - 1]);
    }
  }

  lemma {:induction false} RenumberedContents(groups: Groups)
    ensures forall i | 0 <= i < |groups| :: Content(Renumbered(groups)[i]) == Content(groups[i])
    ensures ContentSize(Renumbered(groups)) == ContentSize(groups)
  {
    forall i | 0 <= i < |groups| ensures Content(Renumbered(groups)[i]) == Content(groups[i]) {
      SamePlaintexts(Renumbered(groups)[i], groups[i]);
    }
    SameSizes(Renumbered(groups), groups);
  }

  lemma DenseFits(chunks: seq<Chunk>)
    requires WellFormed(chunks) && |chunks| < U64
    ensures WellFormed(Dense(chunks))
  {
    forall c | c in Dense(chunks) ensures FitsChunk(c) {
      var k :| 0 <= k < |chunks| && Dense(chunks)[k] == c;
      assert chunks[k] in chunks;
    }
  }

  lemma {:induction false} DenseLengths(chunks: seq<Chunk>)
    ensures RecordsLength(Dense(chunks)) == RecordsLength(chunks)
  {
    if chunks != [] {
      DenseLengths(chunks[..|chunks| - 1]);
      assert Dense(chunks)[..|chunks| - 1] == Dense(chunks[..|chunks| - 1]);
    }
  }
}
