/** Reading one MQTT packet from a byte stream (crates/GatoMQTT/src/codec/frame.rs). */
module Frame {
  import opened Basics

  const MAX_REMAINING := 268435455

  datatype ReadError = Eof | TransportError | InvalidHeader | PacketTooLarge(size: nat)

  datatype ReadResult = Packet(size: nat) | Error(error: ReadError)

  /**
   A connection that will deliver `stream` and then end, cleanly or not. `schedule` decides how many
   bytes each read hands over; every chunking of the stream is some schedule.
   */
  class Transport {
    const stream: Bytes
    const broken: bool
    const schedule: nat -> nat
    var pos: nat
    var calls: nat

    ghost predicate Valid()
      reads this
    {
      pos <= |stream|
    }

    constructor (stream: Bytes, broken: bool, schedule: nat -> nat)
      ensures Valid() && this.stream == stream && this.broken == broken && this.schedule == schedule && pos == 0
    {
      this.stream, this.broken, this.schedule := stream, broken, schedule;
      pos, calls := 0, 0;
    }

    /** At least one byte, unless the stream is exhausted. */
    method Read(want: nat) returns (failed: bool, got: Bytes)
      requires Valid() && want > 0
      modifies this
      ensures Valid() && pos == old(pos) + |got| && got == stream[old(pos)..pos]
      ensures failed <==> old(pos) == |stream| && broken
      ensures |got| <= want && (old(pos) < |stream| ==> |got| > 0)
    {
      if pos == |stream| { return broken, []; }
      var limit := if want <= |stream| - pos then want else |stream| - pos;
      var n := 1 + schedule(calls) % limit;
      calls := calls + 1;
      got := stream[pos..pos + n];
      pos := pos + n;
      failed := false;
    }
  }

  // -- what a stream starts with, independent of chunking --------------------------------

  /** Length of the fixed header that starts with `h` bytes already read. */
  datatype Header = Header(len: nat) | Short | Malformed

  function ScanHeader(s: Bytes, h: nat): (r: Header)
    requires 2 <= h <= 5
    ensures r.Header? ==> h <= r.len <= 5 && r.len <= |s|
    decreases 5 - h
  {
    if |s| < h then Short
    else if s[h - 1] < 128 then Header(h)
    else if h >= 5 then Malformed
    else ScanHeader(s, h + 1)
  }

  /** The value of a remaining-length field whose first byte has index `d`. */
  function LengthValue(bs: Bytes, d: nat): Option<nat> {
    if bs == [] then None
    else if bs[0] < 128 then Some(bs[0] as nat)
    else if d >= 3 then None
    else
      var rest := LengthValue(bs[1..], d + 1);
      if rest.None? then None else Some((bs[0] as nat) - 128 + 128 * rest.value)
  }

  function OutOfData(broken: bool): ReadResult {
    Error(if broken then TransportError else Eof)
  }

  function FirstPacket(s: Bytes, broken: bool, cap: nat): ReadResult {
    match ScanHeader(s, 2)
    case Short => OutOfData(broken)
    case Malformed => Error(InvalidHeader)
    case Header(h) =>
      var v := LengthValue(s[1..h], 0);
      if v.None? then Error(InvalidHeader)
      else if h + v.value > cap then Error(PacketTooLarge(h + v.value))
      else if |s| < h + v.value then OutOfData(broken)
      else Packet(h + v.value)
  }

  // -- the code -----------------------------------------------------------------------------

  method DecodeRemainingLength(bytes: Bytes) returns (r: Option<nat>)
    ensures r == LengthValue(bytes, 0)
  {
    var multiplier: nat, value: nat := 1, 0;
    var index := 0;
    while index < |bytes|
      invariant index <= |bytes| && index <= 3
      invariant LengthValue(bytes, 0) == Total(value, multiplier, LengthValue(bytes[index..], index))
    {
      TotalStep(bytes[index..], index, value, multiplier);
      assert bytes[index..][1..] == bytes[index + 1..];
      value := value + (bytes[index] as nat % 128) * multiplier;
      if bytes[index] < 128 { return Some(value); }
      if index == 3 { return None; }
      multiplier := multiplier * 128;
      index := index + 1;
    }
    return None;
  }

  /** The value read so far, and the rest at its weight. */
  ghost function Total(value: nat, multiplier: nat, rest: Option<nat>): Option<nat> {
    if rest.None? then None else Some(value + multiplier * rest.value)
  }

  lemma {:induction false} TotalStep(bytes: Bytes, d: nat, value: nat, multiplier: nat)
    requires bytes != [] && d <= 3
    ensures Total(value, multiplier, LengthValue(bytes, d)) ==
      var v := value + (bytes[0] as nat % 128) * multiplier;
      if bytes[0] < 128 then Some(v)
      else if d == 3 then None
      else Total(v, multiplier * 128, LengthValue(bytes[1..], d + 1))
  {
    if bytes[0] >= 128 && d < 3 {
      var next := LengthValue(bytes[1..], d + 1);
      if next.Some? { Shift(multiplier, bytes[0] as nat - 128, next.value); }
    }
  }

  lemma {:induction false} Shift(m: nat, b: nat, v: nat)
    ensures m * (b + 128 * v) == b * m + (m * 128) * v
  {
  }

  /** read_exact into buf[lo..hi]. */
  method ReadExact(t: Transport, buf: array<byte>, lo: nat, hi: nat) returns (error: Option<ReadError>)
    requires t.Valid() && lo <= hi <= buf.Length
    modifies t, buf
    ensures t.Valid()
    ensures error == if |t.stream| - old(t.pos) >= hi - lo then None else Some(if t.broken then TransportError else Eof)
    ensures error.None? ==> t.pos == old(t.pos) + (hi - lo) && buf[lo..hi] == t.stream[old(t.pos)..t.pos]
    ensures buf[..lo] == old(buf[..lo])
  {
    var offset := lo;
    while offset < hi
      invariant t.Valid() && lo <= offset <= hi
      invariant t.pos == old(t.pos) + (offset - lo)
      invariant buf[lo..offset] == t.stream[old(t.pos)..t.pos]
      invariant buf[..lo] == old(buf[..lo])
    {
      ghost var was := t.pos;
      var failed, got := t.Read(hi - offset);
      if failed { return Some(TransportError); }
      if |got| == 0 { return Some(Eof); }
      CopyInto(buf, offset, got);
      assert buf[lo..offset + |got|] == buf[lo..offset] + got;
      assert t.stream[old(t.pos)..t.pos] == t.stream[old(t.pos)..was] + got;
      offset := offset + |got|;
    }
    return None;
  }

  method CopyInto(buf: array<byte>, at: nat, src: Bytes)
    requires at + |src| <= buf.Length
    modifies buf
    ensures buf[..at] == old(buf[..at]) && buf[at..at + |src|] == src
  {
    for i := 0 to |src|
      invariant buf[..at] == old(buf[..at]) && buf[at..at + i] == src[..i]
    {
      buf[at + i] := src[i];
    }
  }

  /** The fixed header: two bytes, then one more while the length continues, five at most. */
  method ReadHeader(t: Transport, buf: array<byte>) returns (error: Option<ReadError>, header: nat)
    requires t.Valid() && buf.Length >= 5
    modifies t, buf
    ensures t.Valid()
    ensures error.None? ==>
              && ScanHeader(t.stream[old(t.pos)..], 2) == Header(header) && t.pos == old(t.pos) + header
              && buf[..header] == t.stream[old(t.pos)..t.pos]
    ensures error.Some? ==>
              match ScanHeader(t.stream[old(t.pos)..], 2)
              case Header(_) => false
              case Short => Error(error.value) == OutOfData(t.broken)
              case Malformed => error.value == InvalidHeader
  {
    ghost var from := t.pos;
    ghost var s := t.stream[from..];
    header := 2;
    error := ReadExact(t, buf, 0, 2);
    if error.Some? { return; }
    assert buf[..2] == buf[0..2];
    while buf[header - 1] >= 128
      invariant 2 <= header <= 5 && t.Valid() && t.pos == from + header
      invariant buf[..header] == t.stream[from..t.pos]
      invariant ScanHeader(s, 2) == ScanHeader(s, header)
      decreases 5 - header
    {
      assert s[header - 1] == buf[..header][header - 1];
      if header >= 5 { return Some(InvalidHeader), header; }
      error := ReadExact(t, buf, header, header + 1);
      if error.Some? { return; }
      assert buf[..header + 1] == buf[..header] + buf[header..header + 1];
      header := header + 1;
    }
    assert s[header - 1] == buf[..header][header - 1];
    return None, header;
  }

  /** read_packet up to the foreign packet decoder: the frame is then buf[..size]. */
  method ReadPacket(t: Transport, buf: array<byte>) returns (r: ReadResult)
    requires t.Valid() && buf.Length >= 5
    modifies t, buf
    ensures t.Valid()
    ensures r == FirstPacket(t.stream[old(t.pos)..], t.broken, buf.Length)
    ensures r.Packet? ==>
              && t.pos == old(t.pos) + r.size && r.size <= buf.Length
              && buf[..r.size] == t.stream[old(t.pos)..t.pos]
  {
    ghost var from := t.pos;
    var error, header := ReadHeader(t, buf);
    if error.Some? { return Error(error.value); }
    assert buf[1..header] == buf[..header][1..] == t.stream[from..][1..header];
    var remaining := DecodeRemainingLength(buf[1..header]);
    if remaining.None? { return Error(InvalidHeader); }
    var total := header + remaining.value;
    if total > buf.Length { return Error(PacketTooLarge(total)); }
    error := ReadExact(t, buf, header, total);
    if error.Some? { return Error(error.value); }
    assert buf[..total] == buf[..header] + buf[header..total];
    return Packet(total);
  }

  // -- the encoding it inverts ------------------------------------------------------------------

  /** Section 2.2.3 of MQTT 3.1.1: seven bits per byte, low bits first, the high bit says more follows. */
  function EncodeLength(n: nat): Bytes {
    if n < 128 then [n as byte] else [(n % 128 + 128) as byte] + EncodeLength(n / 128)
  }

  lemma {:induction false} EncodeLengthSize(n: nat)
    ensures n < 128 ==> |EncodeLength(n)| == 1
    ensures 128 <= n < 16384 ==> |EncodeLength(n)| == 2
    ensures 16384 <= n < 2097152 ==> |EncodeLength(n)| == 3
    ensures 2097152 <= n <= MAX_REMAINING ==> |EncodeLength(n)| == 4
  {
    if 128 <= n <= MAX_REMAINING { EncodeLengthSize(n / 128); }
  }

  /** One more than the largest length whose encoding starts at byte `d` of the field. */
  function Capacity(d: nat): nat
    decreases 3 - d
  {
    if d >= 3 then 128 else 128 * Capacity(d + 1)
  }

  lemma {:induction false} LengthRoundTrip(n: nat, d: nat)
    requires d <= 3 && n < Capacity(d)
    ensures LengthValue(EncodeLength(n), d) == Some(n)
    decreases n
  {
    if n >= 128 {
      assert n / 128 < Capacity(d + 1);
      LengthRoundTrip(n / 128, d + 1);
      assert EncodeLength(n)[1..] == EncodeLength(n / 128);
    }
  }

  lemma {:induction false} EncodeLengthContinues(n: nat, i: nat)
    requires i < |EncodeLength(n)|
    ensures EncodeLength(n)[i] < 128 <==> i == |EncodeLength(n)| - 1
    decreases n
  {
    if n >= 128 {
      if i > 0 { EncodeLengthContinues(n / 128, i - 1); }
    }
  }

  lemma {:induction false} ScanFinds(s: Bytes, h: nat, len: nat)
    requires 2 <= h <= len <= 5 && len <= |s| && s[len - 1] < 128
    requires forall i :: h - 1 <= i < len - 1 ==> s[i] >= 128
    ensures ScanHeader(s, h) == Header(len)
    decreases len - h
  {
    if h < len { ScanFinds(s, h + 1, len); }
  }

  /** A well-formed frame followed by anything is read back exactly, if it fits the buffer. */
  lemma {:induction false} FrameRoundTrip(kind: byte, body: Bytes, more: Bytes, broken: bool, cap: nat)
    requires |body| <= MAX_REMAINING
    ensures var frame := [kind] + EncodeLength(|body|) + body;
            FirstPacket(frame + more, broken, cap) ==
            if |frame| <= cap then Packet(|frame|) else Error(PacketTooLarge(|frame|))
  {
    var code := EncodeLength(|body|);
    var s := [kind] + code + body + more;
    var h := 1 + |code|;
    EncodeLengthSize(|body|);
    forall i | 0 <= i < |code| ensures s[1 + i] == code[i] && (code[i] < 128 <==> i == |code| - 1) {
      EncodeLengthContinues(|body|, i);
    }
    assert s[h - 1] == code[|code| - 1];
    forall i | 1 <= i < h - 1 ensures s[i] >= 128 { assert s[1 + (i - 1)] == code[i - 1]; }
    ScanFinds(s, 2, h);
    assert s[1..h] == code;
    assert Capacity(0) == MAX_REMAINING + 1;
    LengthRoundTrip(|body|, 0);
  }
}
