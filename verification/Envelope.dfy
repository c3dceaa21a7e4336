/** The envelope around a stored config blob (crates/smartbox-config/src/serialization.rs). */
module Envelope {
  import opened Basics
  import opened Crc

  const MAGIC: Bytes := [0x53, 0x42, 0x43, 0x46]
  const HEADER_LEN := 20
  const FORMAT_VERSION: byte := 1

  datatype BlobKind = CanonicalKind | CompiledKind

  datatype CodecError =
    | BufferTooSmall
    | BadMagic
    | UnsupportedFormatVersion(version: byte)
    | UnexpectedKind(expected: BlobKind, found: BlobKind)
    | UnknownKind(raw: byte)
    | LengthMismatch
    | CrcMismatch(stored: U32, actual: U32)
    | PostcardSerialize
    | PostcardDeserialize

  datatype DecodedBlob<T> = DecodedBlob(kind: BlobKind, schemaVersion: U16, configVersion: U32, value: T)

  function KindByte(kind: BlobKind): byte {
    match kind
    case CanonicalKind => 1
    case CompiledKind => 2
  }

  function KindOf(raw: byte): Option<BlobKind> {
    if raw == 1 then Some(CanonicalKind) else if raw == 2 then Some(CompiledKind) else None
  }

  // -- big-endian fields --------------------------------------------------------------------

  function Be16(n: U16): (s: Bytes)
    ensures |s| == 2
  {
    [(n / 0x100) as byte, (n % 0x100) as byte]
  }

  function Be32(n: U32): (s: Bytes)
    ensures |s| == 4
  {
    Be16(n / 0x1_0000) + Be16(n % 0x1_0000)
  }

  function FromBe16(s: Bytes): U16
    requires |s| == 2
  {
    s[0] as nat * 0x100 + s[1] as nat
  }

  function FromBe32(s: Bytes): U32
    requires |s| == 4
  {
    FromBe16(s[..2]) * 0x1_0000 + FromBe16(s[2..])
  }

  lemma {:induction false} Be16RoundTrip(n: U16, s: Bytes)
    requires |s| == 2
    ensures FromBe16(Be16(n)) == n && Be16(FromBe16(s)) == s
  {
  }

  lemma {:induction false} Be32RoundTrip(n: U32, s: Bytes)
    requires |s| == 4
    ensures FromBe32(Be32(n)) == n && Be32(FromBe32(s)) == s
  {
    Be16RoundTrip(n / 0x1_0000, s[..2]);
    Be16RoundTrip(n % 0x1_0000, s[2..]);
    assert Be32(n)[..2] == Be16(n / 0x1_0000) && Be32(n)[2..] == Be16(n % 0x1_0000);
    assert s == s[..2] + s[2..];
  }

  /** The checksum as the number stored in the header. */
  function Checksum(payload: Bytes): U32 {
    WordRange(Crc32(payload));
    Value(Crc32(payload))
  }

  lemma {:induction false} WordRange(w: Word)
    ensures Value(w) < 0x1_0000_0000
  {
    TopWeight();
    ValueBound(w);
  }

  lemma {:induction false} SameChecksum(p: Bytes, q: Bytes)
    requires Checksum(p) == Checksum(q)
    ensures Crc32(p) == Crc32(q)
  {
    BitsOfValue(Crc32(p));
    BitsOfValue(Crc32(q));
  }

  // -- encoding -----------------------------------------------------------------------------

  datatype Fields = Fields(schema: U16, config: U32, length: U32, crc: U32)

  function Header(kind: BlobKind, f: Fields): (h: Bytes)
    ensures |h| == HEADER_LEN
  {
    MAGIC + [FORMAT_VERSION, KindByte(kind)] + Be16(f.schema) + Be32(f.config) + Be32(f.length) + Be32(f.crc)
  }

  function ReadFields(s: Bytes): Fields
    requires |s| >= HEADER_LEN
  {
    Fields(FromBe16(s[6..8]), FromBe32(s[8..12]), FromBe32(s[12..16]), FromBe32(s[16..20]))
  }

  function FieldsFor(schema: U16, config: U32, payload: Bytes): Fields {
    Fields(schema, config, |payload| % 0x1_0000_0000, Checksum(payload))
  }

  /** A sealed blob. The length field keeps only the low 32 bits of the payload's length. */
  function Seal(kind: BlobKind, schema: U16, config: U32, payload: Bytes): Bytes {
    Header(kind, FieldsFor(schema, config, payload)) + payload
  }

  /** Writes the sealed blob at the front of `out` and returns its length. */
  method EncodeEnveloped<T>(kind: BlobKind, schema: U16, config: U32, ser: T -> Bytes, value: T, out: array<byte>)
    returns (r: Result<nat, CodecError>)
    modifies out
    ensures out.Length < HEADER_LEN ==> r == Err(BufferTooSmall) && out[..] == old(out[..])
    ensures HEADER_LEN <= out.Length < HEADER_LEN + |ser(value)| ==> r == Err(PostcardSerialize)
    ensures HEADER_LEN + |ser(value)| <= out.Length ==>
      && r == Ok(HEADER_LEN + |ser(value)|)
      && out[..r.value] == Seal(kind, schema, config, ser(value))
      && out[r.value..] == old(out[r.value..])
  {
    if out.Length < HEADER_LEN {
      return Err(BufferTooSmall);
    }
    var payload := ser(value);
    var fits := WritePayload(payload, out);
    if !fits {
      return Err(PostcardSerialize);
    }
    var total := HEADER_LEN + |payload|;
    assert out[HEADER_LEN..total] == payload;
    var word := ComputeCrc32(out[HEADER_LEN..total]);
    WordRange(word);
    var header := Header(kind, Fields(schema, config, |payload| % 0x1_0000_0000, Value(word)));
    ghost var body := out[HEADER_LEN..];
    WriteHeader(header, out);
    assert out[HEADER_LEN..total] == body[..|payload|] == payload;
    assert out[..total] == out[..HEADER_LEN] + out[HEADER_LEN..total];
    assert out[total..] == body[|payload|..];
    r := Ok(total);
  }

  /** Serializes into the room behind the header; stops when the room is used up. */
  method WritePayload(payload: Bytes, out: array<byte>) returns (fits: bool)
    requires HEADER_LEN <= out.Length
    modifies out
    ensures fits <==> HEADER_LEN + |payload| <= out.Length
    ensures fits ==> out[HEADER_LEN..HEADER_LEN + |payload|] == payload
    ensures fits ==> out[HEADER_LEN + |payload|..] == old(out[HEADER_LEN + |payload|..])
  {
    for i := 0 to |payload|
      invariant HEADER_LEN + i <= out.Length
      invariant out[HEADER_LEN..HEADER_LEN + i] == payload[..i]
      invariant out[HEADER_LEN + i..] == old(out[HEADER_LEN + i..])
    {
      if HEADER_LEN + i == out.Length {
        return false;
      }
      out[HEADER_LEN + i] := payload[i];
    }
    fits := true;
  }

  method WriteHeader(header: Bytes, out: array<byte>)
    requires |header| == HEADER_LEN <= out.Length
    modifies out
    ensures out[..HEADER_LEN] == header && out[HEADER_LEN..] == old(out[HEADER_LEN..])
  {
    for i := 0 to HEADER_LEN
      invariant out[..i] == header[..i] && out[HEADER_LEN..] == old(out[HEADER_LEN..])
    {
      out[i] := header[i];
    }
  }

  // -- decoding -----------------------------------------------------------------------------

  function Decode<T>(de: Bytes -> Option<T>, expected: BlobKind, input: Bytes): Result<DecodedBlob<T>, CodecError> {
    if |input| < HEADER_LEN then Err(BufferTooSmall)
    else if input[..4] != MAGIC then Err(BadMagic)
    else if input[4] != FORMAT_VERSION then Err(UnsupportedFormatVersion(input[4]))
    else if KindOf(input[5]).None? then Err(UnknownKind(input[5]))
    else if KindOf(input[5]).value != expected then Err(UnexpectedKind(expected, KindOf(input[5]).value))
    else DecodeBody(de, expected, input)
  }

  function DecodeBody<T>(de: Bytes -> Option<T>, kind: BlobKind, input: Bytes): Result<DecodedBlob<T>, CodecError>
    requires |input| >= HEADER_LEN
  {
    var f := ReadFields(input);
    var payload := input[HEADER_LEN..];
    if |payload| != f.length then Err(LengthMismatch)
    else if Checksum(payload) != f.crc then Err(CrcMismatch(f.crc, Checksum(payload)))
    else if de(payload).None? then Err(PostcardDeserialize)
    else Ok(DecodedBlob(kind, f.schema, f.config, de(payload).value))
  }

  /** Every field of a sealed blob reads back. */
  lemma {:induction false} FieldsOfHeader(kind: BlobKind, f: Fields, payload: Bytes)
    ensures var s := Header(kind, f) + payload;
      && s[..4] == MAGIC && s[4] == FORMAT_VERSION && s[5] == KindByte(kind)
      && ReadFields(s) == f && s[HEADER_LEN..] == payload
  {
    var s := Header(kind, f) + payload;
    assert s[6..8] == Be16(f.schema) && s[8..12] == Be32(f.config);
    assert s[12..16] == Be32(f.length) && s[16..20] == Be32(f.crc);
    Be16RoundTrip(f.schema, Be16(f.schema));
    Be32RoundTrip(f.config, Be32(f.config));
    Be32RoundTrip(f.length, Be32(f.length));
    Be32RoundTrip(f.crc, Be32(f.crc));
  }

  /** A header is determined by its fields. */
  lemma {:induction false} HeaderOfFields(kind: BlobKind, s: Bytes)
    requires |s| >= HEADER_LEN && s[..4] == MAGIC && s[4] == FORMAT_VERSION && s[5] == KindByte(kind)
    ensures s == Header(kind, ReadFields(s)) + s[HEADER_LEN..]
  {
    Be16RoundTrip(0, s[6..8]);
    Be32RoundTrip(0, s[8..12]);
    Be32RoundTrip(0, s[12..16]);
    Be32RoundTrip(0, s[16..20]);
    Pieces(s);
  }

  lemma {:induction false} Pieces(s: Bytes)
    requires |s| >= HEADER_LEN
    ensures s == s[..4] + [s[4], s[5]] + s[6..8] + s[8..12] + s[12..16] + s[16..20] + s[HEADER_LEN..]
  {
  }

  /** Decoding undoes encoding. */
  lemma {:induction false} RoundTrip<T>(
      ser: T -> Bytes, de: Bytes -> Option<T>, kind: BlobKind, schema: U16, config: U32, value: T)
    requires de(ser(value)) == Some(value) && |ser(value)| < 0x1_0000_0000
    ensures Decode(de, kind, Seal(kind, schema, config, ser(value))) == Ok(DecodedBlob(kind, schema, config, value))
  {
    FieldsOfHeader(kind, FieldsFor(schema, config, ser(value)), ser(value));
  }

  lemma {:induction false} AcceptedFields<T>(de: Bytes -> Option<T>, expected: BlobKind, input: Bytes)
    requires Decode(de, expected, input).Ok?
    ensures var blob := Decode(de, expected, input).value;
      && |input| >= HEADER_LEN && input[..4] == MAGIC
      && input[4] == FORMAT_VERSION && input[5] == KindByte(expected)
      && ReadFields(input) == FieldsFor(blob.schemaVersion, blob.configVersion, input[HEADER_LEN..])
  {
  }

  /** Only sealed blobs decode: an accepted input is, byte for byte, the encoding of what it decodes to. */
  lemma {:induction false} DecodeAcceptsOnlySealed<T>(de: Bytes -> Option<T>, expected: BlobKind, input: Bytes)
    requires Decode(de, expected, input).Ok?
    ensures var blob := Decode(de, expected, input).value;
      && |input| >= HEADER_LEN
      && blob.kind == expected
      && de(input[HEADER_LEN..]) == Some(blob.value)
      && |input| - HEADER_LEN < 0x1_0000_0000
      && input == Seal(expected, blob.schemaVersion, blob.configVersion, input[HEADER_LEN..])
  {
    AcceptedFields(de, expected, input);
    HeaderOfFields(expected, input);
  }

  // -- damaged blobs --------------------------------------------------------------------------

  /** A payload changed within four consecutive bytes is always refused for its checksum. */
  lemma {:induction false} BurstIsRefused<T>(
      de: Bytes -> Option<T>, kind: BlobKind, schema: U16, config: U32,
      before: Bytes, a: Bytes, b: Bytes, after: Bytes)
    requires |a| == |b| <= 4 && a != b && |before + a + after| < 0x1_0000_0000
    ensures var sent, received := before + a + after, before + b + after;
      Decode(de, kind, Header(kind, FieldsFor(schema, config, sent)) + received)
        == Err(CrcMismatch(Checksum(sent), Checksum(received)))
  {
    var sent, received := before + a + after, before + b + after;
    BurstChangesCrc(before, a, b, after);
    if Checksum(sent) == Checksum(received) { SameChecksum(sent, received); }
    FieldsOfHeader(kind, FieldsFor(schema, config, sent), received);
  }

  /** What a decoder says of a sealed blob of which byte `i` alone was changed. */
  ghost predicate Refused<T>(i: nat, r: Result<DecodedBlob<T>, CodecError>) {
    match r
    case Ok(_) => false
    case Err(e) =>
      if i < 4 then e.BadMagic?
      else if i == 4 then e.UnsupportedFormatVersion?
      else if i == 5 then e.UnknownKind? || e.UnexpectedKind?
      else if 12 <= i < 16 then e.LengthMismatch?
      else i >= 16 && e.CrcMismatch?
  }

  lemma {:induction false} OneByteField(n: U32, i: nat, b: byte)
    requires i < 4 && Be32(n)[i] != b
    ensures FromBe32(Be32(n)[i := b]) != n
  {
    Be32RoundTrip(n, Be32(n)[i := b]);
  }

  lemma {:induction false} OneByteShort(n: U16, i: nat, b: byte)
    requires i < 2 && Be16(n)[i] != b
    ensures FromBe16(Be16(n)[i := b]) != n
  {
    Be16RoundTrip(n, Be16(n)[i := b]);
  }

  /** Damage to one byte is refused with the error of its field, except in the two version fields, which are not covered. */
  lemma {:induction false} OneByteDamage<T>(
      de: Bytes -> Option<T>, kind: BlobKind, schema: U16, config: U32, payload: Bytes, i: nat, b: byte)
    requires |payload| < 0x1_0000_0000 && de(payload).Some?
    requires i < |Seal(kind, schema, config, payload)| && Seal(kind, schema, config, payload)[i] != b
    ensures var r := Decode(de, kind, Seal(kind, schema, config, payload)[i := b]);
      if 6 <= i < 12
      then r.Ok? && r.value.value == de(payload).value
        && (r.value.schemaVersion != schema <==> i < 8) && (r.value.configVersion != config <==> i >= 8)
      else Refused(i, r)
  {
    var f := FieldsFor(schema, config, payload);
    if i < 6 {
      DamagedPrefix(de, kind, f, payload, i, b);
    } else if i < HEADER_LEN {
      DamagedHeader(de, kind, f, payload, i, b);
    } else {
      DamagedPayload(de, kind, schema, config, payload, i - HEADER_LEN, b);
    }
  }

  lemma {:induction false} DamagedPrefix<T>(
      de: Bytes -> Option<T>, kind: BlobKind, f: Fields, payload: Bytes, i: nat, b: byte)
    requires i < 6 && Header(kind, f)[i] != b
    ensures Refused(i, Decode(de, kind, (Header(kind, f) + payload)[i := b]))
  {
    var t := Header(kind, f) + payload;
    var s := t[i := b];
    FieldsOfHeader(kind, f, payload);
    SliceOfUpdate(t, i, b, 0, 4);
    assert i < 4 ==> s[..4][i] == b && MAGIC[i] != b;
  }

  lemma {:induction false} DamagedHeader<T>(
      de: Bytes -> Option<T>, kind: BlobKind, f: Fields, payload: Bytes, i: nat, b: byte)
    requires 6 <= i < HEADER_LEN && Header(kind, f)[i] != b
    requires |payload| == f.length && Checksum(payload) == f.crc && de(payload).Some?
    ensures var r := Decode(de, kind, (Header(kind, f) + payload)[i := b]);
      if i < 12
      then r.Ok? && r.value.value == de(payload).value
        && (r.value.schemaVersion != f.schema <==> i < 8) && (r.value.configVersion != f.config <==> i >= 8)
      else Refused(i, r)
  {
    DamagedField(kind, f, payload, i, b);
  }

  lemma {:induction false} DamagedPayload<T>(
      de: Bytes -> Option<T>, kind: BlobKind, schema: U16, config: U32, payload: Bytes, k: nat, b: byte)
    requires |payload| < 0x1_0000_0000 && k < |payload| && payload[k] != b
    ensures Refused(HEADER_LEN + k, Decode(de, kind, Seal(kind, schema, config, payload)[HEADER_LEN + k := b]))
  {
    var h, q := Header(kind, FieldsFor(schema, config, payload)), payload[k := b];
    assert (h + payload)[HEADER_LEN + k := b] == h + q;
    assert payload == payload[..k] + [payload[k]] + payload[k + 1..];
    assert q == payload[..k] + [b] + payload[k + 1..];
    BurstIsRefused(de, kind, schema, config, payload[..k], [payload[k]], [b], payload[k + 1..]);
  }

  lemma {:induction false} DamagedField(kind: BlobKind, f: Fields, payload: Bytes, i: nat, b: byte)
    requires 6 <= i < HEADER_LEN && Header(kind, f)[i] != b
    ensures var s := (Header(kind, f) + payload)[i := b];
      && s[..4] == MAGIC && s[4] == FORMAT_VERSION && s[5] == KindByte(kind) && s[HEADER_LEN..] == payload
      && (ReadFields(s).schema != f.schema <==> i < 8)
      && (ReadFields(s).config != f.config <==> 8 <= i < 12)
      && (ReadFields(s).length != f.length <==> 12 <= i < 16)
      && (ReadFields(s).crc != f.crc <==> 16 <= i)
  {
    var t := Header(kind, f) + payload;
    var s := t[i := b];
    FieldsOfHeader(kind, f, payload);
    SliceOfUpdate(t, i, b, 6, 8);
    SliceOfUpdate(t, i, b, 8, 12);
    SliceOfUpdate(t, i, b, 12, 16);
    SliceOfUpdate(t, i, b, 16, 20);
    assert t[6..8] == Be16(f.schema) && t[8..12] == Be32(f.config);
    assert t[12..16] == Be32(f.length) && t[16..20] == Be32(f.crc);
    if i < 8 {
      OneByteShort(f.schema, i - 6, b);
    } else if i < 12 {
      OneByteField(f.config, i - 8, b);
    } else if i < 16 {
      OneByteField(f.length, i - 12, b);
    } else {
      OneByteField(f.crc, i - 16, b);
    }
  }

  lemma {:induction false} SliceOfUpdate(t: Bytes, i: nat, b: byte, lo: nat, hi: nat)
    requires i < |t| && lo <= hi <= |t|
    ensures t[i := b][lo..hi] == if lo <= i < hi then t[lo..hi][i - lo := b] else t[lo..hi]
  {
  }
}
