/** RTP packets (section 5.1 of RFC 3550), bit by bit. */
module Rtp {
  import opened Results
  import opened Bytes

  datatype RTPHeader = RTPHeader(
    version: byte,
    padding: bool,
    extension: bool,
    cc: byte,
    marker: bool,
    payloadType: byte,
    sequenceNum: uint16,
    timestamp: uint32,
    ssrc: uint32,
    csrc: seq<uint32>)

  datatype RTPPacket = RTPPacket(header: RTPHeader, payload: seq<byte>)

  datatype RTPError = HeaderTooShort | PacketTooShort

  function BoolToUint8(b: bool): byte {
    if b then 1 else 0
  }

  // ---------------------------------------------------------------------------
  // Marshalling
  // ---------------------------------------------------------------------------

  /** Version, padding, extension and CC; the shift drops the high bits of the version. */
  function FirstByte(h: RTPHeader): byte {
    var (v, p, x) := (h.version * 64 % 256, BoolToUint8(h.padding) * 32, BoolToUint8(h.extension) * 16);
    Powers();
    OrBound(v, p, 8);
    OrBound(Or(v, p), x, 8);
    OrBound(Or(Or(v, p), x), h.cc, 8);
    Or(Or(Or(v, p), x), h.cc)
  }

  function SecondByte(h: RTPHeader): byte {
    Powers();
    OrBound(BoolToUint8(h.marker) * 128, h.payloadType, 8);
    Or(BoolToUint8(h.marker) * 128, h.payloadType)
  }

  /** `n` four-byte slots: the listed sources first, then zeros. */
  function CsrcBytes(csrc: seq<uint32>, n: nat): (s: seq<byte>)
    ensures |s| == 4 * n
  {
    if n == 0 then []
    else if csrc == [] then [0, 0, 0, 0] + CsrcBytes([], n - 1)
    else Put32(csrc[0]) + CsrcBytes(csrc[1..], n - 1)
  }

  function FixedBytes(h: RTPHeader): (s: seq<byte>)
    ensures |s| == 12
  {
    [FirstByte(h), SecondByte(h)] + Put16(h.sequenceNum) + Put32(h.timestamp) + Put32(h.ssrc)
  }

  function HeaderBytes(h: RTPHeader): (s: seq<byte>)
    ensures |s| == 12 + 4 * h.cc
  {
    FixedBytes(h) + CsrcBytes(h.csrc, h.cc)
  }

  function PacketBytes(p: RTPPacket): seq<byte> {
    HeaderBytes(p.header) + p.payload
  }

  method MarshalHeader(h: RTPHeader) returns (data: array<byte>)
    ensures fresh(data) && data[..] == HeaderBytes(h)
  {
    hide FirstByte, SecondByte, Put16, Put32, CsrcBytes;
    data := new byte[12 + h.cc * 4](_ => 0);
    data[0] := FirstByte(h);
    data[1] := SecondByte(h);
    assert data[..2] == [FirstByte(h), SecondByte(h)];
    WriteAt(data, 2, Put16(h.sequenceNum));
    assert data[..4] == [FirstByte(h), SecondByte(h)] + Put16(h.sequenceNum);
    WriteAt(data, 4, Put32(h.timestamp));
    WriteAt(data, 8, Put32(h.ssrc));
    assert data[..12] == FixedBytes(h);
    WriteCsrc(data, h.csrc, h.cc);
    assert data[..] == data[..12] + data[12..];
  }

  /** Everything from `at` on is still zero. */
  predicate ZeroFrom(data: array<byte>, at: nat)
    reads data
  {
    forall j :: at <= j < data.Length ==> data[j] == 0
  }

  /** Writes one source behind the bytes that are already there. */
  method WriteSource(data: array<byte>, at: nat, x: uint32)
    requires 12 <= at && at + 4 <= data.Length && ZeroFrom(data, at)
    modifies data
    ensures data[..12] == old(data[..12])
    ensures data[12..at + 4] == old(data[12..at]) + Put32(x)
    ensures ZeroFrom(data, at + 4)
  {
    ghost var before := data[..];
    WriteAt(data, at, Put32(x));
    assert data[..] == before[..at] + Put32(x) + before[at + 4..];
    assert data[..12] == data[..][..12] == before[..12];
    assert data[12..at + 4] == data[..][12..at + 4] == before[12..at] + Put32(x);
  }

  lemma ZeroTail(data: array<byte>, at: nat)
    requires at <= data.Length && ZeroFrom(data, at)
    ensures data[at..] == seq(data.Length - at, _ => 0)
  {
  }

  lemma NoSources(csrc: seq<uint32>)
    ensures CsrcBytes(csrc, 0) == []
  {
  }

  /** The CSRC loop: sources beyond CC are skipped, and slots without a source keep their zeros. */
  method WriteCsrc(data: array<byte>, csrc: seq<uint32>, cc: nat)
    requires data.Length == 12 + cc * 4 && ZeroFrom(data, 12)
    modifies data
    ensures data[..12] == old(data[..12])
    ensures data[12..] == CsrcBytes(csrc, cc)
  {
    hide CsrcBytes, Put32, ZeroFrom;
    ghost var n := 0;
    NoSources(csrc[..0]);
    for i := 0 to |csrc|
      invariant n == if i <= cc then i else cc
      invariant data[..12] == old(data[..12])
      invariant data[12..12 + 4 * n] == CsrcBytes(csrc[..n], n)
      invariant ZeroFrom(data, 12 + 4 * n)
    {
      if i < cc {
        WriteSource(data, 12 + i * 4, csrc[i]);
        CsrcSnoc(csrc[..i], csrc[i]);
        assert csrc[..i + 1] == csrc[..i] + [csrc[i]];
        n := n + 1;
      }
    }
    CsrcSlots(csrc, cc);
    ZeroTail(data, 12 + 4 * n);
    assert data[12..] == data[12..12 + 4 * n] + data[12 + 4 * n..];
  }

  /** The written sources and the zeros after them. */
  lemma CsrcSlots(csrc: seq<uint32>, cc: nat)
    ensures var n := if |csrc| <= cc then |csrc| else cc;
            CsrcBytes(csrc, cc) == CsrcBytes(csrc[..n], n) + seq(4 * (cc - n), _ => 0)
  {
    if |csrc| <= cc {
      CsrcZeros(csrc, cc);
      assert csrc[..|csrc|] == csrc;
    } else {
      CsrcPrefix(csrc, cc);
      assert seq(4 * (cc - cc), _ => 0) == [];
    }
  }

  lemma {:induction false} CsrcSnoc(csrc: seq<uint32>, x: uint32)
    ensures CsrcBytes(csrc + [x], |csrc| + 1) == CsrcBytes(csrc, |csrc|) + Put32(x)
  {
    if csrc == [] {
      assert [x][1..] == [];
      assert CsrcBytes([x], 1) == Put32(x) + CsrcBytes([], 0);
    } else {
      assert (csrc + [x])[1..] == csrc[1..] + [x];
      CsrcSnoc(csrc[1..], x);
    }
  }

  lemma {:induction false} CsrcPrefix(csrc: seq<uint32>, n: nat)
    requires n <= |csrc|
    ensures CsrcBytes(csrc, n) == CsrcBytes(csrc[..n], n)
  {
    if n > 0 {
      CsrcPrefix(csrc[1..], n - 1);
      assert csrc[..n][1..] == csrc[1..][..n - 1];
    }
  }

  lemma {:induction false} CsrcZeros(csrc: seq<uint32>, n: nat)
    requires |csrc| <= n
    ensures CsrcBytes(csrc, n) == CsrcBytes(csrc, |csrc|) + seq(4 * (n - |csrc|), _ => 0)
  {
    if csrc != [] {
      CsrcZeros(csrc[1..], n - 1);
    } else if n > 0 {
      CsrcZeros([], n - 1);
    }
  }

  method MarshalPacket(p: RTPPacket) returns (result: array<byte>)
    ensures fresh(result) && result[..] == PacketBytes(p)
  {
    var headerData := MarshalHeader(p.header);
    result := new byte[headerData.Length + |p.payload|](_ => 0);
    WriteAt(result, 0, headerData[..]);
    WriteAt(result, headerData.Length, p.payload);
    assert result[..headerData.Length] == headerData[..];
  }

  // ---------------------------------------------------------------------------
  // Parsing
  // ---------------------------------------------------------------------------

  /** The i-th CSRC slot; a slot beyond the data stays zero. */
  function CsrcSlot(data: seq<byte>, i: nat): uint32 {
    if |data| >= 12 + i * 4 + 4 then Get32(data[12 + i * 4..16 + i * 4]) else 0
  }

  function ParsedHeader(data: seq<byte>): RTPHeader
    requires |data| >= 12
  {
    RTPHeader(
      data[0] / 64 % 4,
      data[0] / 32 % 2 == 1,
      data[0] / 16 % 2 == 1,
      data[0] % 16,
      data[1] / 128 % 2 == 1,
      data[1] % 128,
      Get16(data[2], data[3]),
      Get32(data[4..8]),
      Get32(data[8..12]),
      seq(data[0] % 16, i requires 0 <= i => CsrcSlot(data, i)))
  }

  function ParsedPacket(data: seq<byte>): Result<RTPPacket, RTPError> {
    if |data| < 12 then Err(HeaderTooShort)
    else
      var h := ParsedHeader(data);
      if |data| < 12 + h.cc * 4 then Err(PacketTooShort)
      else Ok(RTPPacket(h, data[12 + h.cc * 4..]))
  }

  method ParseHeader(data: seq<byte>) returns (r: Result<RTPHeader, RTPError>)
    ensures r == if |data| < 12 then Err(HeaderTooShort) else Ok(ParsedHeader(data))
  {
    if |data| < 12 {
      return Err(HeaderTooShort);
    }
    var cc := data[0] % 16;
    var csrc := seq(cc, _ => 0);
    for i := 0 to cc
      invariant |csrc| == cc
      invariant forall j :: 0 <= j < i ==> csrc[j] == CsrcSlot(data, j)
      invariant forall j :: i <= j < cc ==> csrc[j] == 0
    {
      if |data| >= 12 + i * 4 + 4 {
        csrc := csrc[i := Get32(data[12 + i * 4..16 + i * 4])];
      }
    }
    var h := RTPHeader(data[0] / 64 % 4, data[0] / 32 % 2 == 1, data[0] / 16 % 2 == 1, cc,
                       data[1] / 128 % 2 == 1, data[1] % 128, Get16(data[2], data[3]),
                       Get32(data[4..8]), Get32(data[8..12]), csrc);
    assert h.csrc == ParsedHeader(data).csrc;
    r := Ok(h);
  }

  method ParsePacket(data: seq<byte>) returns (r: Result<RTPPacket, RTPError>)
    ensures r == ParsedPacket(data)
  {
    var header := ParseHeader(data);
    match header {
      case Err(e) => r := Err(e);
      case Ok(h) =>
        var headerSize := 12 + h.cc * 4;
        if |data| < headerSize {
          return Err(PacketTooShort);
        }
        r := Ok(RTPPacket(h, data[headerSize..]));
    }
  }

  // ---------------------------------------------------------------------------
  // The two directions
  // ---------------------------------------------------------------------------

  /** Every field fits the bits it has on the wire, and CC counts the contributing sources. */
  predicate Encodable(h: RTPHeader) {
    h.version <= 3 && h.payloadType <= 127 && h.cc <= 15 && |h.csrc| == h.cc
  }

  lemma FourFields(v: nat, p: nat, x: nat, c: nat)
    requires p <= 1 && x <= 1 && c <= 15
    ensures Or(v * 64, p * 32) == v * 64 + p * 32
    ensures Or(v * 64 + p * 32, x * 16) == v * 64 + p * 32 + x * 16
    ensures Or(v * 64 + p * 32 + x * 16, c) == v * 64 + p * 32 + x * 16 + c
  {
    Powers();
    OrDisjoint(v, 6, p * 32);
    OrDisjoint(v * 2 + p, 5, x * 16);
    OrDisjoint(v * 4 + p * 2 + x, 4, c);
    assert (v * 2 + p) * 32 == v * 64 + p * 32;
    assert (v * 4 + p * 2 + x) * 16 == v * 64 + p * 32 + x * 16;
  }

  lemma FirstByteBits(h: RTPHeader)
    requires h.version <= 3 && h.cc <= 15
    ensures FirstByte(h) == h.version * 64 + BoolToUint8(h.padding) * 32 + BoolToUint8(h.extension) * 16 + h.cc
  {
    hide Or;
    FourFields(h.version, BoolToUint8(h.padding), BoolToUint8(h.extension), h.cc);
    assert h.version * 64 % 256 == h.version * 64;
  }

  lemma SecondByteBits(h: RTPHeader)
    requires h.payloadType <= 127
    ensures SecondByte(h) == BoolToUint8(h.marker) * 128 + h.payloadType
  {
    Powers();
    OrDisjoint(BoolToUint8(h.marker), 7, h.payloadType);
  }

  lemma {:induction false} CsrcAt(csrc: seq<uint32>, i: nat)
    requires i < |csrc|
    ensures CsrcBytes(csrc, |csrc|)[4 * i..4 * i + 4] == Put32(csrc[i])
  {
    hide Put32;
    var (head, tail) := (Put32(csrc[0]), CsrcBytes(csrc[1..], |csrc| - 1));
    assert CsrcBytes(csrc, |csrc|) == head + tail;
    if i == 0 {
      assert (head + tail)[..4] == head;
    } else {
      CsrcAt(csrc[1..], i - 1);
      SliceBehind(head, tail, 4 * (i - 1), 4);
    }
  }

  lemma SliceBehind(head: seq<byte>, tail: seq<byte>, i: nat, n: nat)
    requires i + n <= |tail|
    ensures (head + tail)[|head| + i..|head| + i + n] == tail[i..i + n]
  {
    var (a, b) := ((head + tail)[|head| + i..|head| + i + n], tail[i..i + n]);
    assert forall j :: 0 <= j < n ==> a[j] == (head + tail)[|head| + i + j] == tail[i + j] == b[j];
  }

  /** The twelve fixed bytes on the wire: two of packed bits, then three numbers with their first byte weighing most. */
  lemma FixedPart(h: RTPHeader, rest: seq<byte>)
    ensures var d := FixedBytes(h) + rest;
            && (h.version <= 3 && h.cc <= 15 ==>
                  d[0] == h.version * 64 + (if h.padding then 32 else 0) + (if h.extension then 16 else 0) + h.cc)
            && (h.payloadType <= 127 ==> d[1] == (if h.marker then 128 else 0) + h.payloadType)
            && d[2] as int * 0x100 + d[3] == h.sequenceNum
            && d[4] as int * 0x100_0000 + d[5] as int * 0x1_0000 + d[6] as int * 0x100 + d[7] == h.timestamp
            && d[8] as int * 0x100_0000 + d[9] as int * 0x1_0000 + d[10] as int * 0x100 + d[11] == h.ssrc
  {
    hide FirstByte, SecondByte, Put16, Put32;
    FixedFields(h, rest);
    BigEndian(h.sequenceNum, h.timestamp);
    BigEndian(h.sequenceNum, h.ssrc);
    if h.version <= 3 && h.cc <= 15 { FirstByteBits(h); }
    if h.payloadType <= 127 { SecondByteBits(h); }
    var d := FixedBytes(h) + rest;
    var (n, t, x) := (Put16(h.sequenceNum), Put32(h.timestamp), Put32(h.ssrc));
    assert d[2] == n[0] && d[3] == n[1];
    assert d[4] == t[0] && d[5] == t[1] && d[6] == t[2] && d[7] == t[3];
    assert d[8] == x[0] && d[9] == x[1] && d[10] == x[2] && d[11] == x[3];
  }

  lemma SlotOf(csrc: seq<uint32>, cc: nat, i: nat)
    requires i < cc
    ensures CsrcBytes(csrc, cc)[4 * i..4 * i + 4] == if i < |csrc| then Put32(csrc[i]) else [0, 0, 0, 0]
  {
    hide Put32;
    CsrcSlots(csrc, cc);
    var n := if |csrc| <= cc then |csrc| else cc;
    var (sources, zeros) := (CsrcBytes(csrc[..n], n), seq(4 * (cc - n), _ => 0));
    hide CsrcBytes;
    if i < n {
      CsrcAt(csrc[..n], i);
      assert (sources + zeros)[4 * i..4 * i + 4] == sources[4 * i..4 * i + 4];
    } else {
      assert 4 * (i - n) + 4 <= |zeros|;
      SliceBehind(sources, zeros, 4 * (i - n), 4);
      assert zeros[4 * (i - n)..4 * (i - n) + 4] == [0, 0, 0, 0];
    }
  }

  /** Slot `i` takes the four bytes behind the fixed part and the slots before it; without a source it holds 0. */
  lemma SourceAt(h: RTPHeader, payload: seq<byte>, i: nat)
    requires i < h.cc
    ensures var (d, at) := (HeaderBytes(h) + payload, 12 + 4 * i);
            var n := d[at] as int * 0x100_0000 + d[at + 1] as int * 0x1_0000 + d[at + 2] as int * 0x100 + d[at + 3];
            n == if i < |h.csrc| then h.csrc[i] else 0
  {
    hide FixedBytes, CsrcBytes, Put32;
    SlotOf(h.csrc, h.cc, i);
    if i < |h.csrc| { BigEndian(0, h.csrc[i]); }
    var sources := CsrcBytes(h.csrc, h.cc);
    var d := FixedBytes(h) + sources + payload;
    var (x, at) := (sources[4 * i..4 * i + 4], 12 + 4 * i);
    assert d[at] == x[0] && d[at + 1] == x[1] && d[at + 2] == x[2] && d[at + 3] == x[3];
  }

  /** The two packed bytes bit by bit, also when a field is too wide and runs into the next. */
  lemma PackedBits(h: RTPHeader, k: nat)
    ensures Bit(FirstByte(h), k) <==> || Bit(h.version * 64 % 256, k) || Bit(BoolToUint8(h.padding) * 32, k)
                                      || Bit(BoolToUint8(h.extension) * 16, k) || Bit(h.cc, k)
    ensures Bit(SecondByte(h), k) <==> Bit(BoolToUint8(h.marker) * 128, k) || Bit(h.payloadType, k)
  {
    hide Or, Bit;
    var (v, p, x) := (h.version * 64 % 256, BoolToUint8(h.padding) * 32, BoolToUint8(h.extension) * 16);
    OrBits(v, p, k);
    OrBits(Or(v, p), x, k);
    OrBits(Or(Or(v, p), x), h.cc, k);
    OrBits(BoolToUint8(h.marker) * 128, h.payloadType, k);
  }

  /** Data is refused exactly when it ends in the fixed part, or in the sources that its first byte announces. */
  lemma RefusedExactly(data: seq<byte>)
    ensures ParsedPacket(data) == Err(HeaderTooShort) <==> |data| < 12
    ensures ParsedPacket(data) == Err(PacketTooShort) <==> 12 <= |data| < 12 + 4 * (data[0] % 16)
    ensures ParsedPacket(data).Ok? <==> 12 <= |data| && 12 + 4 * (data[0] % 16) <= |data|
  {
  }

  lemma FixedFields(h: RTPHeader, rest: seq<byte>)
    ensures var d := FixedBytes(h) + rest;
            && d[0] == FirstByte(h) && d[1] == SecondByte(h)
            && Get16(d[2], d[3]) == h.sequenceNum
            && Get32(d[4..8]) == h.timestamp && Get32(d[8..12]) == h.ssrc
  {
    var d := FixedBytes(h) + rest;
    assert d[2] == Put16(h.sequenceNum)[0] && d[3] == Put16(h.sequenceNum)[1];
    assert d[4..8] == Put32(h.timestamp);
    assert d[8..12] == Put32(h.ssrc);
  }

  /** The shifts and masks of the parser find the four fields again. */
  lemma FieldsOfByte(v: nat, p: nat, x: nat, c: nat)
    requires v <= 3 && p <= 1 && x <= 1 && c <= 15
    ensures var b := v * 64 + p * 32 + x * 16 + c;
            b < 256 && b / 64 % 4 == v && b / 32 % 2 == p && b / 16 % 2 == x && b % 16 == c
  {
  }

  lemma ByteOfFields(b: byte)
    ensures b / 64 % 4 * 64 + b / 32 % 2 * 32 + b / 16 % 2 * 16 + b % 16 == b
    ensures b / 128 % 2 * 128 + b % 128 == b
  {
    assert b / 32 == b / 64 * 2 + b / 32 % 2;
    assert b / 16 == b / 32 * 2 + b / 16 % 2;
  }

  lemma BoolBit(n: nat)
    requires n <= 1
    ensures BoolToUint8(n == 1) == n
  {
  }

  lemma HeaderOfMarshal(h: RTPHeader, payload: seq<byte>)
    requires Encodable(h)
    ensures ParsedHeader(HeaderBytes(h) + payload).(csrc := h.csrc) == h
  {
    hide FirstByte;
    hide SecondByte;
    hide FixedBytes;
    hide CsrcBytes;
    hide Get16;
    hide Get32;
    var rest := CsrcBytes(h.csrc, h.cc) + payload;
    var d := FixedBytes(h) + rest;
    assert HeaderBytes(h) + payload == d;
    FixedFields(h, rest);
    FirstByteBits(h);
    SecondByteBits(h);
    FieldsOfByte(h.version, BoolToUint8(h.padding), BoolToUint8(h.extension), h.cc);
    assert d[1] / 128 % 2 == BoolToUint8(h.marker) && d[1] % 128 == h.payloadType;
  }

  lemma SourceSlot(h: RTPHeader, payload: seq<byte>, i: nat)
    requires i < h.cc && i < |h.csrc|
    ensures CsrcSlot(HeaderBytes(h) + payload, i) == h.csrc[i]
  {
    hide FixedBytes, CsrcBytes, Get32, Put32;
    var (fixed, sources) := (FixedBytes(h), CsrcBytes(h.csrc, h.cc));
    SlotOf(h.csrc, h.cc, i);
    SliceBehind(fixed, sources + payload, 4 * i, 4);
    assert (sources + payload)[4 * i..4 * i + 4] == sources[4 * i..4 * i + 4];
    assert HeaderBytes(h) + payload == fixed + (sources + payload);
    assert 12 + 4 * i + 4 == 16 + i * 4;
  }

  lemma SourcesOfMarshal(h: RTPHeader, payload: seq<byte>)
    requires Encodable(h)
    ensures forall i :: 0 <= i < h.cc ==> CsrcSlot(HeaderBytes(h) + payload, i) == h.csrc[i]
  {
    hide HeaderBytes, CsrcSlot;
    forall i | 0 <= i < h.cc ensures CsrcSlot(HeaderBytes(h) + payload, i) == h.csrc[i] {
      SourceSlot(h, payload, i);
    }
  }

  lemma ParseOfMarshal(p: RTPPacket)
    requires Encodable(p.header)
    ensures ParsedPacket(PacketBytes(p)) == Ok(p)
  {
    var d := HeaderBytes(p.header) + p.payload;
    HeaderOfMarshal(p.header, p.payload);
    SourcesOfMarshal(p.header, p.payload);
    var h := ParsedHeader(d);
    assert h.csrc == p.header.csrc;
    assert d[12 + h.cc * 4..] == p.payload;
  }

  /** A packet survives marshalling and parsing if and only if its header is encodable. */
  lemma PacketRoundTrip(p: RTPPacket)
    ensures ParsedPacket(PacketBytes(p)) == Ok(p) <==> Encodable(p.header)
  {
    if Encodable(p.header) {
      ParseOfMarshal(p);
    }
  }

  lemma SlotsBehind(d: seq<byte>, csrc: seq<uint32>)
    requires csrc != [] && |d| == 4 * |csrc|
    requires forall i :: 0 <= i < |csrc| ==> csrc[i] == Get32(d[4 * i..4 * i + 4])
    ensures forall i :: 0 <= i < |csrc[1..]| ==> csrc[1..][i] == Get32(d[4..][4 * i..4 * i + 4])
  {
    hide Get32;
    forall i | 0 <= i < |csrc[1..]| ensures csrc[1..][i] == Get32(d[4..][4 * i..4 * i + 4]) {
      assert csrc[1..][i] == csrc[i + 1];
      SliceOfSlice(d, 4, |d|, 4 * i, 4 * i + 4);
      assert d[4..|d|] == d[4..];
      assert d[4 * (i + 1)..4 * (i + 1) + 4] == d[4 + 4 * i..4 + (4 * i + 4)];
    }
  }

  lemma {:induction false} CsrcOfSlots(d: seq<byte>, csrc: seq<uint32>)
    requires |d| == 4 * |csrc|
    requires forall i :: 0 <= i < |csrc| ==> csrc[i] == Get32(d[4 * i..4 * i + 4])
    ensures CsrcBytes(csrc, |csrc|) == d
  {
    hide Get32, Put32;
    if csrc != [] {
      SlotsBehind(d, csrc);
      CsrcOfSlots(d[4..], csrc[1..]);
      assert csrc[0] == Get32(d[4 * 0..4 * 0 + 4]);
      Put32Get32(d[..4]);
      assert d[4 * 0..4 * 0 + 4] == d[..4];
      assert d == d[..4] + d[4..];
    }
  }

  lemma FirstTwoOfParsed(data: seq<byte>)
    requires |data| >= 12
    ensures FirstByte(ParsedHeader(data)) == data[0]
    ensures SecondByte(ParsedHeader(data)) == data[1]
  {
    var h := ParsedHeader(data);
    FirstByteBits(h);
    SecondByteBits(h);
    ByteOfFields(data[0]);
    ByteOfFields(data[1]);
    BoolBit(data[0] / 32 % 2);
    BoolBit(data[0] / 16 % 2);
    BoolBit(data[1] / 128 % 2);
  }

  lemma FixedOfParsed(data: seq<byte>)
    requires |data| >= 12
    ensures FixedBytes(ParsedHeader(data)) == data[..12]
  {
    FirstTwoOfParsed(data);
    Put16Get16(data[2], data[3]);
    Put32Get32(data[4..8]);
    Put32Get32(data[8..12]);
    assert data[..12] == [data[0], data[1]] + [data[2], data[3]] + data[4..8] + data[8..12];
  }

  lemma SliceOfSlice(s: seq<byte>, lo: nat, hi: nat, from: nat, to: nat)
    requires lo <= hi <= |s| && from <= to <= hi - lo
    ensures s[lo..hi][from..to] == s[lo + from..lo + to]
  {
    var (a, b) := (s[lo..hi][from..to], s[lo + from..lo + to]);
    assert forall k :: 0 <= k < to - from ==> a[k] == s[lo..hi][from + k] == s[lo + from + k] == b[k];
  }

  lemma SourcesOfParsed(data: seq<byte>)
    requires |data| >= 12 && |data| >= 12 + 4 * ParsedHeader(data).cc
    ensures var h := ParsedHeader(data); CsrcBytes(h.csrc, h.cc) == data[12..12 + 4 * h.cc]
  {
    var h := ParsedHeader(data);
    var d := data[12..12 + 4 * h.cc];
    forall i | 0 <= i < |h.csrc| ensures h.csrc[i] == Get32(d[4 * i..4 * i + 4]) {
      assert h.csrc[i] == CsrcSlot(data, i);
      SliceOfSlice(data, 12, 12 + 4 * h.cc, 4 * i, 4 * i + 4);
    }
    CsrcOfSlots(d, h.csrc);
  }

  lemma CutInThree(data: seq<byte>, i: nat, j: nat)
    requires i <= j <= |data|
    ensures data[..i] + data[i..j] + data[j..] == data
  {
  }

  /** Whatever the parser accepts is exactly the marshalled form of what it returns. */
  lemma BytesRoundTrip(data: seq<byte>)
    requires ParsedPacket(data).Ok?
    ensures Encodable(ParsedPacket(data).value.header)
    ensures PacketBytes(ParsedPacket(data).value) == data
  {
    FixedOfParsed(data);
    SourcesOfParsed(data);
    CutInThree(data, 12, 12 + 4 * ParsedHeader(data).cc);
  }
}
