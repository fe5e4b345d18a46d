// The 296-byte public header: the Bundle identifier, the key-derivation salt, the nonce
// prefix, and the data-encryption key wrapped once for each Recovery Method.
module PublicHeader {
  import opened Outcomes
  import opened Cells
  import opened Records

  const HEADER_LENGTH := 296
  const SLOT_LENGTH := 106

  datatype RecoveryMethod = Vaultwarden | Offline

  datatype RecoverySecret = RecoverySecret(recovery: RecoveryMethod, bytes: Bytes)

  datatype Opened = Opened(dataKey: Bytes, identifier: Bytes, salt: Bytes, noncePrefix: Bytes)

  function SlotId(m: RecoveryMethod): Byte {
    match m
    case Vaultwarden => 1
    case Offline => 2
  }

  function WrappingKey(secret: Bytes, salt: Bytes): (r: Bytes)
    ensures |r| == 32
  {
    Derive("argon2id", [secret, salt])
  }

  // The version of the key-derivation function and its cost parameters.
  function SlotParameters(): (r: Bytes)
    ensures |r| == 14
  {
    Widths();
    [Octet(0x13), Octet(0)] + BigEndian(65536, 4) + BigEndian(3, 4) + BigEndian(4, 4)
  }

  function SlotPrefix(m: RecoveryMethod, salt: Bytes, nonce: Bytes): (r: Bytes)
    requires |salt| == 16 && |nonce| == 24
    ensures |r| == 58
  {
    [Octet(SlotId(m)), Octet(SlotId(m))] + SlotParameters() + salt + nonce + WrappedKeyLengthField()
  }

  function Preamble(): (r: Bytes)
    ensures |r| == 12
  {
    Widths();
    Ascii("INIZAIZ2") + BigEndian(2, 2) + BigEndian(1, 2)
  }

  function HeaderLengthField(): (r: Bytes)
    ensures |r| == 4
  {
    Widths();
    BigEndian(HEADER_LENGTH, 4)
  }

  function WrappedKeyLengthField(): (r: Bytes)
    ensures |r| == 2
  {
    Widths();
    BigEndian(48, 2)
  }

  function SlotAad(identifier: Bytes, salt: Bytes, noncePrefix: Bytes, prefix: Bytes): Bytes {
    Preamble() + identifier + salt + noncePrefix + prefix
  }

  datatype Slot = Slot(secret: RecoverySecret, salt: Bytes, nonce: Bytes)

  ghost predicate FitsSlot(s: Slot) {
    |s.salt| == 16 && |s.nonce| == 24
  }

  // The key material that one header is made of.
  datatype Header = Header(dataKey: Bytes, identifier: Bytes, salt: Bytes, noncePrefix: Bytes,
                           first: Slot, second: Slot)

  ghost predicate FitsHeader(h: Header) {
    && |h.dataKey| == 32 && |h.identifier| == 16 && |h.salt| == 32 && |h.noncePrefix| == 16
    && FitsSlot(h.first) && FitsSlot(h.second)
    && h.first.secret.recovery == Vaultwarden && h.second.secret.recovery == Offline
  }

  function EncodeSlot(h: Header, s: Slot): (r: Bytes)
    requires FitsHeader(h) && FitsSlot(s)
    ensures |r| == SLOT_LENGTH
  {
    var prefix := SlotPrefix(s.secret.recovery, s.salt, s.nonce);
    prefix + Encrypt(WrappingKey(s.secret.bytes, s.salt), s.nonce,
                     SlotAad(h.identifier, h.salt, h.noncePrefix, prefix), h.dataKey)
  }

  ghost predicate FitsMaterial(o: Opened) {
    |o.dataKey| == 32 && |o.identifier| == 16 && |o.salt| == 32 && |o.noncePrefix| == 16
  }

  function FixedPart(o: Opened): (r: Bytes)
    requires FitsMaterial(o)
    ensures |r| == 84
  {
    Preamble() + HeaderLengthField() + o.identifier + o.salt + o.noncePrefix
    + [Octet(2), Octet(0), Octet(0), Octet(0)]
  }

  function Material(h: Header): Opened {
    Opened(h.dataKey, h.identifier, h.salt, h.noncePrefix)
  }

  function EncodeHeader(h: Header): (r: Bytes)
    requires FitsHeader(h)
    ensures |r| == HEADER_LENGTH
  {
    FixedPart(Material(h)) + EncodeSlot(h, h.first) + EncodeSlot(h, h.second)
  }

  datatype ReadSlot = ReadSlot(recovery: RecoveryMethod, salt: Bytes, nonce: Bytes, prefix: Bytes, wrapped: Bytes)

  function DecodeSlot(bytes: Bytes): Option<ReadSlot>
    requires |bytes| == SLOT_LENGTH
  {
    if (bytes[0] == Octet(1) || bytes[0] == Octet(2)) && bytes[1] == bytes[0]
       && bytes[2..16] == SlotParameters() && bytes[56..58] == WrappedKeyLengthField()
    then Some(ReadSlot(if bytes[0] == Octet(1) then Vaultwarden else Offline,
                       bytes[16..32], bytes[32..56], bytes[..58], bytes[58..]))
    else None
  }

  function DecodeHeader(header: Bytes, secret: RecoverySecret): Result<Opened, FormatError>
    requires |header| == HEADER_LENGTH
  {
    var identifier, salt, noncePrefix := header[16..32], header[32..64], header[64..80];
    var first, second := DecodeSlot(header[84..190]), DecodeSlot(header[190..296]);
    if header[..12] != Preamble() || header[12..16] != HeaderLengthField()
       || header[80..84] != [Octet(2), Octet(0), Octet(0), Octet(0)] || first.None? || second.None? then
      Err(UnsupportedHeader)
    else if second.value.recovery == secret.recovery then
      Unwrap(identifier, salt, noncePrefix, second.value, secret)
    else if first.value.recovery == secret.recovery then
      Unwrap(identifier, salt, noncePrefix, first.value, secret)
    else Err(NoSuchMethod)
  }

  function Unwrap(identifier: Bytes, salt: Bytes, noncePrefix: Bytes, slot: ReadSlot, secret: RecoverySecret):
    Result<Opened, FormatError>
  {
    var key := Decrypt(WrappingKey(secret.bytes, slot.salt), slot.nonce,
                       SlotAad(identifier, salt, noncePrefix, slot.prefix), slot.wrapped);
    if key.None? || |key.value| != 32 then Err(AuthenticationFailed)
    else Ok(Opened(key.value, identifier, salt, noncePrefix))
  }

  lemma SameStart(b: Bytes, f: Bytes, i: nat, j: nat)
    requires f <= b && i <= j <= |f|
    ensures b[i..j] == f[i..j]
  {
  }

  // Where the pieces of a concatenation lie.
  lemma SixPieces(p: Bytes, q: Bytes, r: Bytes, s: Bytes, t: Bytes, u: Bytes)
    ensures var all := p + q + r + s + t + u;
      && all[0..|p|] == p && all[|p|..|p| + |q|] == q && all[|p| + |q|..|p| + |q| + |r|] == r
      && all[|p| + |q| + |r|..|p| + |q| + |r| + |s|] == s
      && all[|p| + |q| + |r| + |s|..|p| + |q| + |r| + |s| + |t|] == t
      && all[|p| + |q| + |r| + |s| + |t|..|p| + |q| + |r| + |s| + |t| + |u|] == u
  {
  }

  // ---- Which 296 bytes are a header ----

  ghost predicate IsSlot(s: ReadSlot) {
    |s.salt| == 16 && |s.nonce| == 24 && |s.wrapped| == 48 && s.prefix == SlotPrefix(s.recovery, s.salt, s.nonce)
  }

  // 106 bytes decode to a slot exactly when they are its prefix and its wrapped key.
  lemma SlotCodec(bytes: Bytes, s: ReadSlot)
    requires |bytes| == SLOT_LENGTH
    ensures DecodeSlot(bytes) == Some(s) <==> IsSlot(s) && bytes == s.prefix + s.wrapped
  {
    if IsSlot(s) && bytes == s.prefix + s.wrapped {
      PrefixFields(bytes, s);
    }
    if DecodeSlot(bytes) == Some(s) {
      PrefixFromFields(bytes, s.recovery);
      assert bytes == bytes[..58] + bytes[58..];
    }
  }

  lemma PrefixFields(bytes: Bytes, s: ReadSlot)
    requires |bytes| == SLOT_LENGTH && IsSlot(s) && bytes == s.prefix + s.wrapped
    ensures DecodeSlot(bytes) == Some(s)
  {
    var head := [Octet(SlotId(s.recovery)), Octet(SlotId(s.recovery))];
    assert s.prefix == head + SlotParameters() + s.salt + s.nonce + WrappedKeyLengthField() + [];
    SixPieces(head, SlotParameters(), s.salt, s.nonce, WrappedKeyLengthField(), []);
    assert bytes[..58] == s.prefix && bytes[58..] == s.wrapped;
    SameStart(bytes, s.prefix, 2, 16);
    SameStart(bytes, s.prefix, 16, 32);
    SameStart(bytes, s.prefix, 32, 56);
    SameStart(bytes, s.prefix, 56, 58);
  }

  lemma PrefixFromFields(bytes: Bytes, m: RecoveryMethod)
    requires |bytes| == SLOT_LENGTH && bytes[0] == Octet(SlotId(m)) == bytes[1]
    requires bytes[2..16] == SlotParameters() && bytes[56..58] == WrappedKeyLengthField()
    ensures bytes[..58] == SlotPrefix(m, bytes[16..32], bytes[32..56])
  {
    assert bytes[..58] == [bytes[0], bytes[1]] + bytes[2..16] + bytes[16..32] + bytes[32..56] + bytes[56..58];
  }

  // The header is the public fields and these two slots.
  ghost predicate MadeOf(header: Bytes, o: Opened, first: ReadSlot, second: ReadSlot)
    requires FitsMaterial(o)
  {
    && IsSlot(first) && IsSlot(second)
    && header == FixedPart(o) + (first.prefix + first.wrapped) + (second.prefix + second.wrapped)
  }

  // What the decoder looks at, field by field.
  predicate HasFields(header: Bytes, o: Opened)
    requires |header| == HEADER_LENGTH
  {
    && header[..12] == Preamble() && header[12..16] == HeaderLengthField() && header[16..32] == o.identifier
    && header[32..64] == o.salt && header[64..80] == o.noncePrefix
    && header[80..84] == [Octet(2), Octet(0), Octet(0), Octet(0)]
  }

  lemma FixedPartCodec(header: Bytes, o: Opened)
    requires |header| == HEADER_LENGTH && FitsMaterial(o)
    ensures HasFields(header, o) <==> header[..84] == FixedPart(o)
  {
    var f := FixedPart(o);
    SixPieces(Preamble(), HeaderLengthField(), o.identifier, o.salt, o.noncePrefix,
              [Octet(2), Octet(0), Octet(0), Octet(0)]);
    if header[..84] == f {
      SameStart(header, f, 0, 12);
      SameStart(header, f, 12, 16);
      SameStart(header, f, 16, 32);
      SameStart(header, f, 32, 64);
      SameStart(header, f, 64, 80);
      SameStart(header, f, 80, 84);
    }
    if HasFields(header, o) {
      assert header[..84] == header[..12] + header[12..16] + header[16..32] + header[32..64] + header[64..80]
                             + header[80..84];
    }
  }

  lemma MadeOfParts(header: Bytes, o: Opened, first: ReadSlot, second: ReadSlot)
    requires |header| == HEADER_LENGTH && FitsMaterial(o)
    ensures MadeOf(header, o, first, second)
       <==> && HasFields(header, o) && DecodeSlot(header[84..190]) == Some(first)
            && DecodeSlot(header[190..296]) == Some(second)
  {
    FixedPartCodec(header, o);
    SlotCodec(header[84..190], first);
    SlotCodec(header[190..296], second);
    assert header == header[..84] + header[84..190] + header[190..296];
    if IsSlot(first) && IsSlot(second) {
      ThreeParts(header, FixedPart(o), first.prefix + first.wrapped, second.prefix + second.wrapped);
    }
  }

  lemma ThreeParts(header: Bytes, a: Bytes, b: Bytes, c: Bytes)
    requires |header| == HEADER_LENGTH && |a| == 84 && |b| == |c| == SLOT_LENGTH
    ensures header == a + b + c <==> header[..84] == a && header[84..190] == b && header[190..296] == c
  {
    assert header == header[..84] + header[84..190] + header[190..296];
  }

  // The last slot that is for a Recovery Method.
  function Chosen(first: ReadSlot, second: ReadSlot, m: RecoveryMethod): Option<ReadSlot> {
    if second.recovery == m then Some(second) else if first.recovery == m then Some(first) else None
  }

  ghost predicate Wraps(slot: ReadSlot, secret: RecoverySecret, o: Opened) {
    slot.wrapped == Encrypt(WrappingKey(secret.bytes, slot.salt), slot.nonce,
                            SlotAad(o.identifier, o.salt, o.noncePrefix, slot.prefix), o.dataKey)
  }

  ghost predicate OpensWith(header: Bytes, secret: RecoverySecret, o: Opened, first: ReadSlot, second: ReadSlot)
    requires FitsMaterial(o)
  {
    && MadeOf(header, o, first, second)
    && Chosen(first, second, secret.recovery).Some? && Wraps(Chosen(first, second, secret.recovery).value, secret, o)
  }

  // 296 bytes open with a secret exactly when they are the public fields and two well-formed slots,
  // and the last slot of the secret's method wraps the data-encryption key under the secret.
  // Nothing else is asked of the other slot.
  lemma HeaderDecodes(header: Bytes, secret: RecoverySecret, o: Opened)
    requires |header| == HEADER_LENGTH
    ensures DecodeHeader(header, secret) == Ok(o)
       <==> FitsMaterial(o) && exists first, second :: OpensWith(header, secret, o, first, second)
  {
    if FitsMaterial(o) {
      if first, second :| OpensWith(header, secret, o, first, second) {
        MadeOfParts(header, o, first, second);
        UnwrapsWrapped(Chosen(first, second, secret.recovery).value, secret, o);
      }
    }
    if DecodeHeader(header, secret) == Ok(o) {
      var first, second := DecodeSlot(header[84..190]).value, DecodeSlot(header[190..296]).value;
      UnwrapsWrapped(Chosen(first, second, secret.recovery).value, secret, o);
      MadeOfParts(header, o, first, second);
      assert OpensWith(header, secret, o, first, second);
    }
  }

  lemma UnwrapsWrapped(slot: ReadSlot, secret: RecoverySecret, o: Opened)
    ensures Unwrap(o.identifier, o.salt, o.noncePrefix, slot, secret) == Ok(o)
       <==> |o.dataKey| == 32 && Wraps(slot, secret, o)
  {
    DecryptsExactly(WrappingKey(secret.bytes, slot.salt), slot.nonce,
                    SlotAad(o.identifier, o.salt, o.noncePrefix, slot.prefix), slot.wrapped, o.dataKey);
  }

  // ---- What is written opens ----

  // A slot as it is read back.
  function SlotOf(h: Header, s: Slot): ReadSlot
    requires FitsHeader(h) && FitsSlot(s)
  {
    var prefix := SlotPrefix(s.secret.recovery, s.salt, s.nonce);
    ReadSlot(s.secret.recovery, s.salt, s.nonce, prefix,
             Encrypt(WrappingKey(s.secret.bytes, s.salt), s.nonce, SlotAad(h.identifier, h.salt, h.noncePrefix, prefix),
                     h.dataKey))
  }

  lemma UnwrapsExactly(h: Header, s: Slot, secret: RecoverySecret)
    requires FitsHeader(h) && FitsSlot(s) && secret.recovery == s.secret.recovery
    ensures Unwrap(h.identifier, h.salt, h.noncePrefix, SlotOf(h, s), secret)
         == if secret.bytes == s.secret.bytes then Ok(Material(h)) else Err(AuthenticationFailed)
  {
    var aad := SlotAad(h.identifier, h.salt, h.noncePrefix, SlotOf(h, s).prefix);
    OpensOnlyAsSealed(WrappingKey(s.secret.bytes, s.salt), s.nonce, aad, h.dataKey,
                      WrappingKey(secret.bytes, s.salt), s.nonce, aad);
    DerivationIsInjective("argon2id", [s.secret.bytes, s.salt], "argon2id", [secret.bytes, s.salt]);
    assert [secret.bytes, s.salt][0] == secret.bytes && [s.secret.bytes, s.salt][0] == s.secret.bytes;
  }

  // A slot unwraps only among the public fields of its own header.
  lemma SlotIsBound(h: Header, s: Slot, o: Opened, secret: RecoverySecret)
    requires FitsHeader(h) && FitsSlot(s) && FitsMaterial(o)
    ensures Unwrap(o.identifier, o.salt, o.noncePrefix, SlotOf(h, s), secret).Ok? <==>
              secret.bytes == s.secret.bytes && o.(dataKey := h.dataKey) == Material(h)
  {
    var slot := SlotOf(h, s);
    var a, b := SlotAad(h.identifier, h.salt, h.noncePrefix, slot.prefix),
                SlotAad(o.identifier, o.salt, o.noncePrefix, slot.prefix);
    OpensOnlyAsSealed(WrappingKey(s.secret.bytes, s.salt), s.nonce, a, h.dataKey,
                      WrappingKey(secret.bytes, s.salt), s.nonce, b);
    DerivationIsInjective("argon2id", [s.secret.bytes, s.salt], "argon2id", [secret.bytes, s.salt]);
    assert [secret.bytes, s.salt][0] == secret.bytes && [s.secret.bytes, s.salt][0] == s.secret.bytes;
    SixPieces(Preamble(), h.identifier, h.salt, h.noncePrefix, slot.prefix, []);
    SixPieces(Preamble(), o.identifier, o.salt, o.noncePrefix, slot.prefix, []);
    assert a == Preamble() + h.identifier + h.salt + h.noncePrefix + slot.prefix + [];
    assert b == Preamble() + o.identifier + o.salt + o.noncePrefix + slot.prefix + [];
  }

  // Either Recovery Method alone recovers the header's key material, and only its own secret does.
  lemma HeaderOpensWithEitherMethod(h: Header, secret: RecoverySecret)
    requires FitsHeader(h)
    ensures var owner := if secret.recovery == Vaultwarden then h.first.secret else h.second.secret;
      DecodeHeader(EncodeHeader(h), secret)
      == if secret.bytes == owner.bytes then Ok(Material(h))
         else Err(AuthenticationFailed)
  {
    MadeOfParts(EncodeHeader(h), Material(h), SlotOf(h, h.first), SlotOf(h, h.second));
    UnwrapsExactly(h, if secret.recovery == Vaultwarden then h.first else h.second, secret);
  }

  // ---- Headers that open with both secrets ----

  // The two slots may come in either order and may wrap different data-encryption keys.
  function Arranged(h: Header, other: Bytes, swapped: bool): (r: Bytes)
    requires FitsHeader(h) && |other| == 32
    ensures |r| == HEADER_LENGTH
  {
    var first, second := EncodeSlot(h, h.first), EncodeSlot(h.(dataKey := other), h.second);
    if swapped then FixedPart(Material(h)) + second + first else FixedPart(Material(h)) + first + second
  }

  ghost predicate Owns(h: Header, a: RecoverySecret, b: RecoverySecret) {
    FitsHeader(h) && h.first.secret == a && h.second.secret == b
  }

  lemma ArrangedOpens(h: Header, other: Bytes, swapped: bool)
    requires FitsHeader(h) && |other| == 32
    ensures DecodeHeader(Arranged(h, other, swapped), h.first.secret) == Ok(Material(h))
    ensures DecodeHeader(Arranged(h, other, swapped), h.second.secret) == Ok(Material(h).(dataKey := other))
    ensures Arranged(h, other, swapped)[84] == Octet(if swapped then 2 else 1)
  {
    var header, k := Arranged(h, other, swapped), h.(dataKey := other);
    var first, second := SlotOf(h, h.first), SlotOf(k, h.second);
    if swapped {
      MadeOfParts(header, Material(h), second, first);
    } else {
      MadeOfParts(header, Material(h), first, second);
    }
    UnwrapsExactly(h, h.first, h.first.secret);
    UnwrapsExactly(k, h.second, h.second.secret);
    assert header[84] == header[84..190][0];
  }

  lemma SlotIsEncoded(h: Header, s: Slot, slot: ReadSlot)
    requires FitsHeader(h) && IsSlot(slot) && slot.recovery == s.secret.recovery
    requires slot.salt == s.salt && slot.nonce == s.nonce && Wraps(slot, s.secret, Material(h))
    ensures slot.prefix + slot.wrapped == EncodeSlot(h, s)
  {
  }

  // What opens with both secrets is exactly that.
  lemma OpenedByBoth(header: Bytes, a: RecoverySecret, b: RecoverySecret, o: Opened, p: Opened)
    requires |header| == HEADER_LENGTH && a.recovery == Vaultwarden && b.recovery == Offline
    ensures DecodeHeader(header, a) == Ok(o) && DecodeHeader(header, b) == Ok(p)
       <==> && FitsMaterial(o) && |p.dataKey| == 32 && p == o.(dataKey := p.dataKey)
            && exists h, swapped :: Owns(h, a, b) && Material(h) == o && header == Arranged(h, p.dataKey, swapped)
  {
    if FitsMaterial(o) && |p.dataKey| == 32 && p == o.(dataKey := p.dataKey) {
      if h, swapped :| Owns(h, a, b) && Material(h) == o && header == Arranged(h, p.dataKey, swapped) {
        ArrangedOpens(h, p.dataKey, swapped);
      }
    }
    if DecodeHeader(header, a) == Ok(o) && DecodeHeader(header, b) == Ok(p) {
      var h, swapped := ArrangementOf(header, a, b, o, p);
    }
  }

  lemma ArrangementOf(header: Bytes, a: RecoverySecret, b: RecoverySecret, o: Opened, p: Opened)
    returns (h: Header, swapped: bool)
    requires |header| == HEADER_LENGTH && a.recovery == Vaultwarden && b.recovery == Offline
    requires DecodeHeader(header, a) == Ok(o) && DecodeHeader(header, b) == Ok(p)
    ensures FitsMaterial(o) && |p.dataKey| == 32 && p == o.(dataKey := p.dataKey)
    ensures Owns(h, a, b) && Material(h) == o && header == Arranged(h, p.dataKey, swapped)
  {
    var first, second := DecodeSlot(header[84..190]).value, DecodeSlot(header[190..296]).value;
    swapped := first.recovery == Offline;
    var v, w := if swapped then second else first, if swapped then first else second;
    MadeOfParts(header, o, first, second);
    UnwrapsWrapped(v, a, o);
    UnwrapsWrapped(w, b, p);
    h := Header(o.dataKey, o.identifier, o.salt, o.noncePrefix, Slot(a, v.salt, v.nonce), Slot(b, w.salt, w.nonce));
    SlotIsEncoded(h, h.first, v);
    SlotIsEncoded(h.(dataKey := p.dataKey), h.second, w);
  }

  // Both secrets open 296 bytes to one key material, and the Vaultwarden slot comes first, if and
  // only if the bytes are the encoding of a header of that material for these secrets.
  lemma HeaderCodec(header: Bytes, a: RecoverySecret, b: RecoverySecret, o: Opened)
    requires |header| == HEADER_LENGTH && a.recovery == Vaultwarden && b.recovery == Offline
    ensures DecodeHeader(header, a) == DecodeHeader(header, b) == Ok(o) && header[84] == Octet(1)
       <==> exists h :: Owns(h, a, b) && Material(h) == o && header == EncodeHeader(h)
  {
    if h :| Owns(h, a, b) && Material(h) == o && header == EncodeHeader(h) {
      assert header == Arranged(h, h.dataKey, false);
      ArrangedOpens(h, h.dataKey, false);
    }
    if DecodeHeader(header, a) == DecodeHeader(header, b) == Ok(o) && header[84] == Octet(1) {
      var h, swapped := ArrangementOf(header, a, b, o, o);
      ArrangedOpens(h, o.dataKey, swapped);
      assert header == EncodeHeader(h);
    }
  }

  // So bytes that open with both secrets need not be an encoding: the slots may be swapped, or wrap
  // different keys. An encoding is neither.
  lemma OpensUnencoded(h: Header, other: Bytes, swapped: bool, h': Header)
    requires FitsHeader(h) && |other| == 32 && FitsHeader(h') && (swapped || other != h.dataKey)
    ensures DecodeHeader(Arranged(h, other, swapped), h.first.secret) == Ok(Material(h))
    ensures DecodeHeader(Arranged(h, other, swapped), h.second.secret) == Ok(Material(h).(dataKey := other))
    ensures Arranged(h, other, swapped) != EncodeHeader(h')
  {
    var header := Arranged(h, other, swapped);
    ArrangedOpens(h, other, swapped);
    ArrangedOpens(h', h'.dataKey, false);
    if header == EncodeHeader(h') {
      HeaderOpensWithEitherMethod(h', h.first.secret);
      HeaderOpensWithEitherMethod(h', h.second.secret);
    }
  }

  // Of two slots of one method only the last counts, and the other method is not available.
  lemma LastSlotCounts(h: Header, last: Slot, secret: RecoverySecret)
    requires FitsHeader(h) && FitsSlot(last) && last.secret.recovery == Vaultwarden
    ensures DecodeHeader(FixedPart(Material(h)) + EncodeSlot(h, h.first) + EncodeSlot(h, last), secret)
         == if secret.recovery == Offline then Err(NoSuchMethod)
            else if secret.bytes == last.secret.bytes then Ok(Material(h)) else Err(AuthenticationFailed)
  {
    MadeOfParts(FixedPart(Material(h)) + EncodeSlot(h, h.first) + EncodeSlot(h, last), Material(h),
                SlotOf(h, h.first), SlotOf(h, last));
    if secret.recovery == Vaultwarden {
      UnwrapsExactly(h, last, secret);
    }
  }

  // ---- The parser, step by step ----

  class SliceCursor {
    const bytes: Bytes
    var position: nat

    ghost predicate Valid() reads this {
      position <= |bytes|
    }

    constructor (bytes: Bytes)
      ensures Valid() && this.bytes == bytes && position == 0
    {
      this.bytes := bytes;
      position := 0;
    }

    method Take(length: nat) returns (r: Option<Bytes>)
      requires Valid()
      modifies this
      ensures Valid()
      ensures r.Some? <==> old(position) + length <= |bytes|
      ensures r.Some? ==> position == old(position) + length && r.value == bytes[old(position)..position]
      ensures r.None? ==> position == old(position)
    {
      if position + length > |bytes| {
        return None;
      }
      r := Some(bytes[position..position + length]);
      position := position + length;
    }

    // One Recovery Method slot, read field by field.
    method TakeSlot() returns (r: Option<ReadSlot>)
      requires Valid() && position + SLOT_LENGTH <= |bytes|
      modifies this
      ensures Valid()
      ensures r == DecodeSlot(bytes[old(position)..old(position) + SLOT_LENGTH])
      ensures r.Some? ==> position == old(position) + SLOT_LENGTH
    {
      var start := position;
      SlotPieces(bytes, start);
      var ids := Take(2);
      var parameters := Take(14);
      var known := ids.value == [Octet(1), Octet(1)] || ids.value == [Octet(2), Octet(2)];
      if !known || parameters.value != SlotParameters() {
        return None;
      }
      var salt := Take(16);
      var nonce := Take(24);
      var length := Take(2);
      var prefix := bytes[start..position];
      var wrapped := Take(48);
      if length.value != WrappedKeyLengthField() {
        return None;
      }
      r := Some(ReadSlot(if ids.value[0] == Octet(1) then Vaultwarden else Offline,
                         salt.value, nonce.value, prefix, wrapped.value));
    }
  }

  lemma SlotPieces(bytes: Bytes, start: nat)
    requires start + SLOT_LENGTH <= |bytes|
    ensures var slot := bytes[start..start + SLOT_LENGTH];
      && slot[..2] == bytes[start..start + 2] && slot[2..16] == bytes[start + 2..start + 16]
      && slot[16..32] == bytes[start + 16..start + 32] && slot[32..56] == bytes[start + 32..start + 56]
      && slot[56..58] == bytes[start + 56..start + 58] && slot[..58] == bytes[start..start + 58]
      && slot[58..] == bytes[start + 58..start + 106] && slot[..2] == [slot[0], slot[1]]
  {
  }

  method ParseHeader(header: Bytes, secret: RecoverySecret) returns (r: Result<Opened, FormatError>)
    requires |header| == HEADER_LENGTH
    ensures r == DecodeHeader(header, secret)
  {
    var cursor := new SliceCursor(header);
    var preamble := cursor.Take(12);
    var length := cursor.Take(4);
    if preamble.value != Preamble() || length.value != HeaderLengthField() {
      return Err(UnsupportedHeader);
    }
    var identifier := cursor.Take(16);
    var salt := cursor.Take(32);
    var noncePrefix := cursor.Take(16);
    var count := cursor.Take(4);
    if count.value != [Octet(2), Octet(0), Octet(0), Octet(0)] {
      return Err(UnsupportedHeader);
    }
    var selected: Option<ReadSlot> := None;
    var i := 0;
    while i < 2
      invariant i <= 2 && cursor.Valid() && cursor.bytes == header && cursor.position == 84 + SLOT_LENGTH * i
      invariant i > 0 ==> DecodeSlot(header[84..190]).Some?
      invariant i > 1 ==> DecodeSlot(header[190..296]).Some?
      invariant selected == LastMatch(header, secret.recovery, i)
    {
      var slot := cursor.TakeSlot();
      if slot.None? {
        return Err(UnsupportedHeader);
      }
      if slot.value.recovery == secret.recovery {
        selected := slot;
      }
      i := i + 1;
    }
    if selected.None? {
      return Err(NoSuchMethod);
    }
    r := Unwrap(identifier.value, salt.value, noncePrefix.value, selected.value, secret);
  }

  // The last of the first `n` slots that is for the wanted Recovery Method.
  ghost function LastMatch(header: Bytes, recovery: RecoveryMethod, n: int): Option<ReadSlot>
    requires |header| == HEADER_LENGTH && n <= 2
  {
    if n <= 0 then None
    else
      var slot := DecodeSlot(if n == 1 then header[84..190] else header[190..296]);
      if slot.Some? && slot.value.recovery == recovery then slot else LastMatch(header, recovery, n - 1)
  }
}
