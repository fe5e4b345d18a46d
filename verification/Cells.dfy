// Bytes as the model sees them: plain octets and the bytes of ideal cryptographic values.
// A ciphertext is 16 bytes longer than its plaintext and opens only with exactly the key,
// nonce and associated data it was made with; hashes and derived keys are injective.
module Cells {
  import opened Outcomes

  type Byte = n: nat | n < 256

  type Bytes = seq<Cell>

  datatype Cell =
    | Octet(value: Byte)
    | Sealed(seal: Seal, at: int)
    | Hashed(input: Bytes, at: int)
    | Derived(purpose: string, parts: seq<Bytes>, at: int)
    | Encoded(manifest: Manifest, size: nat, at: int)

  datatype Seal = Seal(key: Bytes, nonce: Bytes, aad: Bytes, plaintext: Bytes)

  datatype ItemKind = Directory | RegularFile | SymbolicLink | Special | Unknown

  datatype CaptureOutcome = Included | Excluded | Changed | Unsupported | Unverified

  datatype ManifestItem = ManifestItem(id: string, relativePath: string, kind: ItemKind, estimatedSize: nat,
                                       outcome: CaptureOutcome, chunkSequences: seq<nat>,
                                       contentHash: Option<Bytes>, mode: Option<nat>, symlinkTarget: Option<string>)

  datatype Manifest = Manifest(marker: string, schemaVersion: nat, sourceName: string, planHash: Bytes,
                               logicalSize: nat, includedItems: nat, changedItems: nat,
                               unsupportedItems: nat, unverifiedItems: nat, items: seq<ManifestItem>)

  // ---- Ideal cryptography ----

  const TAG := 16

  function Encrypt(key: Bytes, nonce: Bytes, aad: Bytes, plaintext: Bytes): Bytes {
    seq(|plaintext| + TAG, i => Sealed(Seal(key, nonce, aad, plaintext), i))
  }

  function Decrypt(key: Bytes, nonce: Bytes, aad: Bytes, ciphertext: Bytes): Option<Bytes> {
    if |ciphertext| >= TAG && ciphertext[0].Sealed?
       && ciphertext == Encrypt(key, nonce, aad, ciphertext[0].seal.plaintext)
    then Some(ciphertext[0].seal.plaintext)
    else None
  }

  lemma DecryptsExactly(key: Bytes, nonce: Bytes, aad: Bytes, ciphertext: Bytes, plaintext: Bytes)
    ensures Decrypt(key, nonce, aad, ciphertext) == Some(plaintext)
       <==> ciphertext == Encrypt(key, nonce, aad, plaintext)
  {
    assert Encrypt(key, nonce, aad, plaintext)[0] == Sealed(Seal(key, nonce, aad, plaintext), 0);
  }

  // A sealed value opens exactly when key, nonce and associated data are those it was sealed with.
  lemma OpensOnlyAsSealed(key: Bytes, nonce: Bytes, aad: Bytes, plaintext: Bytes, key': Bytes, nonce': Bytes,
                          aad': Bytes)
    ensures Decrypt(key', nonce', aad', Encrypt(key, nonce, aad, plaintext))
         == if key' == key && nonce' == nonce && aad' == aad then Some(plaintext) else None
  {
    assert Encrypt(key, nonce, aad, plaintext)[0] == Sealed(Seal(key, nonce, aad, plaintext), 0);
    assert Encrypt(key', nonce', aad', plaintext)[0] == Sealed(Seal(key', nonce', aad', plaintext), 0);
  }

  function Hash(input: Bytes): (r: Bytes)
    ensures |r| == 32
  {
    seq(32, i => Hashed(input, i))
  }

  lemma HashIsInjective(a: Bytes, b: Bytes)
    ensures Hash(a) == Hash(b) <==> a == b
  {
    assert Hash(a)[0] == Hashed(a, 0) && Hash(b)[0] == Hashed(b, 0);
  }

  function Derive(purpose: string, parts: seq<Bytes>): (r: Bytes)
    ensures |r| == 32
  {
    seq(32, i => Derived(purpose, parts, i))
  }

  lemma DerivationIsInjective(purpose: string, parts: seq<Bytes>, purpose': string, parts': seq<Bytes>)
    ensures Derive(purpose, parts) == Derive(purpose', parts') <==> purpose == purpose' && parts == parts'
  {
    assert Derive(purpose, parts)[0] == Derived(purpose, parts, 0);
    assert Derive(purpose', parts')[0] == Derived(purpose', parts', 0);
  }

  // The manifest's text; `size` is however long its encoding came out.
  function EncodeManifest(m: Manifest, size: nat): (r: Bytes)
    ensures |r| == size
  {
    seq(size, i => Encoded(m, size, i))
  }

  function DecodeManifest(bytes: Bytes): Option<Manifest> {
    if bytes != [] && bytes[0].Encoded? && bytes == EncodeManifest(bytes[0].manifest, |bytes|)
    then Some(bytes[0].manifest)
    else None
  }

  lemma ManifestDecodes(m: Manifest, size: nat)
    requires size > 0
    ensures DecodeManifest(EncodeManifest(m, size)) == Some(m)
  {
    assert EncodeManifest(m, size)[0] == Encoded(m, size, 0);
  }

  // ---- Big-endian integers ----

  function Pow256(width: nat): (r: nat)
    ensures r > 0
  {
    if width == 0 then 1 else 256 * Pow256(width - 1)
  }

  const U16 := 0x1_0000
  const U32 := 0x1_0000_0000
  const U64 := 0x1_0000_0000_0000_0000

  lemma Widths()
    ensures Pow256(1) == 256 && Pow256(2) == U16 && Pow256(4) == U32 && Pow256(8) == U64
  {
    assert Pow256(3) == 0x100_0000;
    assert Pow256(5) == 0x100_0000_0000;
    assert Pow256(6) == 0x1_0000_0000_0000;
    assert Pow256(7) == 0x100_0000_0000_0000;
  }

  function BigEndian(n: nat, width: nat): (r: Bytes)
    requires n < Pow256(width)
    ensures |r| == width
  {
    if width == 0 then [] else BigEndian(n / 256, width - 1) + [Octet(n % 256)]
  }

  function FromBigEndian(bytes: Bytes): Option<nat> {
    if bytes == [] then Some(0)
    else
      var high := FromBigEndian(bytes[..|bytes| - 1]);
      var low := bytes[|bytes| - 1];
      if high.None? || !low.Octet? then None else Some(256 * high.value + low.value)
  }

  lemma {:induction false} BigEndianRoundTrip(n: nat, width: nat)
    requires n < Pow256(width)
    ensures FromBigEndian(BigEndian(n, width)) == Some(n)
  {
    if width > 0 {
      BigEndianRoundTrip(n / 256, width - 1);
      var bytes := BigEndian(n, width);
      assert bytes[..width - 1] == BigEndian(n / 256, width - 1);
    }
  }

  lemma {:induction false} BigEndianUnique(bytes: Bytes)
    requires FromBigEndian(bytes).Some?
    ensures FromBigEndian(bytes).value < Pow256(|bytes|)
    ensures bytes == BigEndian(FromBigEndian(bytes).value, |bytes|)
  {
    if bytes != [] {
      var front := bytes[..|bytes| - 1];
      BigEndianUnique(front);
      assert bytes == front + [bytes[|bytes| - 1]];
    }
  }
}
