/** Interleaved frames inside the RTSP connection (section 10.12 of RFC 2326). */
module Interleaved {
  import opened Results
  import opened Bytes

  const MAGIC: byte := 0x24

  /** Header and data; the four header fields are written as they are, whatever the data is. */
  datatype Frame = Frame(magic: byte, channel: byte, length: uint16, data: seq<byte>)

  datatype FrameError = HeaderCut | BadMagic(found: byte) | DataCut

  /** NewTCPInterleavedFrame; the length field is truncated to 16 bits. */
  function NewFrame(channel: byte, data: seq<byte>): Frame {
    Frame(MAGIC, channel, |data| % TWO_16, data)
  }

  function FrameBytes(f: Frame): seq<byte> {
    [f.magic, f.channel] + Put16(f.length) + f.data
  }

  method MarshalFrame(f: Frame) returns (data: array<byte>)
    ensures fresh(data) && data[..] == FrameBytes(f)
  {
    data := new byte[4 + |f.data|](_ => 0);
    data[0] := f.magic;
    data[1] := f.channel;
    assert data[..2] == [f.magic, f.channel];
    WriteAt(data, 2, Put16(f.length));
    assert data[..4] == [f.magic, f.channel] + Put16(f.length);
    WriteAt(data, 4, f.data);
  }

  // ---------------------------------------------------------------------------
  // Reading from a stream
  // ---------------------------------------------------------------------------

  /** One call of ReadTCPInterleavedFrame: what it returns, and what it leaves on the connection. */
  function ReadOne(input: seq<byte>): (r: (Result<Frame, FrameError>, seq<byte>))
    ensures r.0.Ok? ==> |r.1| + 4 <= |input|
  {
    if |input| < 4 then (Err(HeaderCut), [])
    else if input[0] != MAGIC then (Err(BadMagic(input[0])), input[4..])
    else
      var n := Get16(input[2], input[3]);
      if |input| - 4 < n then (Err(DataCut), [])
      else (Ok(Frame(input[0], input[1], n, input[4..4 + n])), input[4 + n..])
  }

  /** The connection as the bytes that arrived and were not read yet. */
  class ByteStream {
    var bytes: seq<byte>

    constructor (bytes: seq<byte>)
      ensures this.bytes == bytes
    {
      this.bytes := bytes;
    }

    /** io.ReadFull: a short read consumes what there is and fails. */
    method ReadFull(n: nat) returns (ok: bool, buffer: seq<byte>)
      modifies this
      ensures ok <==> n <= |old(bytes)|
      ensures ok ==> buffer == old(bytes)[..n] && bytes == old(bytes)[n..]
      ensures !ok ==> bytes == []
    {
      ok := n <= |bytes|;
      if ok {
        buffer, bytes := bytes[..n], bytes[n..];
      } else {
        buffer, bytes := bytes, [];
      }
    }

    method Write(data: seq<byte>)
      modifies this
      ensures bytes == old(bytes) + data
    {
      bytes := bytes + data;
    }
  }

  method ReadFrame(reader: ByteStream) returns (r: Result<Frame, FrameError>)
    modifies reader
    ensures (r, reader.bytes) == ReadOne(old(reader.bytes))
  {
    var ok, header := reader.ReadFull(4);
    if !ok {
      return Err(HeaderCut);
    }
    if header[0] != MAGIC {
      return Err(BadMagic(header[0]));
    }
    var length := Get16(header[2], header[3]);
    var data;
    ok, data := reader.ReadFull(length);
    if !ok {
      return Err(DataCut);
    }
    r := Ok(Frame(header[0], header[1], length, data));
    assert data == old(reader.bytes)[4..4 + length];
  }

  /** A frame whose header describes its data. */
  predicate Faithful(f: Frame) {
    f.magic == MAGIC && f.length == |f.data|
  }

  lemma FieldsOfBytes(f: Frame, rest: seq<byte>)
    ensures var s := FrameBytes(f) + rest;
            && |s| == 4 + |f.data| + |rest| && s[0] == f.magic && s[1] == f.channel
            && Get16(s[2], s[3]) == f.length && s[4..] == f.data + rest
  {
    var s := FrameBytes(f) + rest;
    assert s[2] == Put16(f.length)[0] && s[3] == Put16(f.length)[1];
  }

  /** The layout of a frame on the wire; the length has its high byte first. */
  lemma HeaderOfBytes(f: Frame, rest: seq<byte>)
    ensures var s := FrameBytes(f) + rest;
            && |s| == 4 + |f.data| + |rest| && s[0] == f.magic && s[1] == f.channel
            && s[2] as int * 0x100 + s[3] == f.length && s[4..] == f.data + rest
  {
    FieldsOfBytes(f, rest);
    hide FrameBytes;
  }

  /** What one read returns, by the bytes that are there. */
  lemma ReadExactly(input: seq<byte>)
    ensures var (r, left) := ReadOne(input);
            && (r == Err(HeaderCut) <==> |input| < 4)
            && ((exists m: byte :: r == Err(BadMagic(m))) <==> |input| >= 4 && input[0] != 0x24)
            && (r == Err(DataCut) <==>
                  4 <= |input| < 4 + input[2] as int * 0x100 + input[3] as int && input[0] == 0x24)
            && (r.Ok? ==> input == [0x24, r.value.channel, r.value.length / 0x100, r.value.length % 0x100]
                                   + r.value.data + left)
            && (r.Err? && r.error.BadMagic? ==> r.error.found == input[0] && left == input[4..])
            && (r in {Err(HeaderCut), Err(DataCut)} ==> left == [])
  {
    if |input| >= 4 && input[0] != MAGIC {
      assert ReadOne(input).0 == Err(BadMagic(input[0]));
    }
  }

  /** A frame is read back, and nothing behind it is touched, if and only if its header is faithful. */
  lemma FrameRoundTrip(f: Frame, rest: seq<byte>)
    ensures ReadOne(FrameBytes(f) + rest) == (Ok(f), rest) <==> Faithful(f)
  {
    var s := FrameBytes(f) + rest;
    FieldsOfBytes(f, rest);
    if Faithful(f) {
      assert s[4..4 + f.length] == s[4..][..f.length] == f.data;
      assert s[4 + f.length..] == s[4..][f.length..] == rest;
    }
  }

  /** For frames made by NewTCPInterleavedFrame the bound is the largest 16-bit length. */
  lemma NewFrameRoundTrip(channel: byte, data: seq<byte>, rest: seq<byte>)
    ensures ReadOne(FrameBytes(NewFrame(channel, data)) + rest) == (Ok(NewFrame(channel, data)), rest)
       <==> |data| <= 65535
  {
    hide ReadOne;
    hide FrameBytes;
    FrameRoundTrip(NewFrame(channel, data), rest);
  }

  function StreamBytes(fs: seq<Frame>): seq<byte> {
    if fs == [] then [] else FrameBytes(fs[0]) + StreamBytes(fs[1..])
  }

  /** Reading until the first error: the frames, the error, and what is left. */
  function ReadAll(input: seq<byte>): (seq<Frame>, FrameError, seq<byte>)
    decreases |input|
  {
    match ReadOne(input)
    case (Err(e), rest) => ([], e, rest)
    case (Ok(f), rest) =>
      var (others, e, left) := ReadAll(rest);
      ([f] + others, e, left)
  }

  /** At most `rounds` reads, ending at the first error: the frames, and what is left. */
  function ReadSome(input: seq<byte>, rounds: nat): (seq<Frame>, seq<byte>)
    decreases rounds
  {
    if rounds == 0 then ([], input)
    else
      match ReadOne(input)
      case (Err(e), rest) => ([], rest)
      case (Ok(f), rest) =>
        var (others, left) := ReadSome(rest, rounds - 1);
        ([f] + others, left)
  }

  /** The frames read are the first ones of the stream, as many as there are rounds; with enough of them, all. */
  lemma {:induction false} ReadSomeIsPrefix(input: seq<byte>, rounds: nat)
    ensures ReadSome(input, rounds).0 <= ReadAll(input).0
    ensures |ReadSome(input, rounds).0| == if rounds <= |ReadAll(input).0| then rounds else |ReadAll(input).0|
    ensures rounds > |ReadAll(input).0| ==> ReadSome(input, rounds) == (ReadAll(input).0, ReadAll(input).2)
    decreases rounds
  {
    hide ReadOne;
    if rounds > 0 && ReadOne(input).0.Ok? {
      ReadSomeIsPrefix(ReadOne(input).1, rounds - 1);
    }
  }

  /** The stream is self-delimiting: reading gives the list back, and then finds the stream empty. */
  lemma {:induction false} StreamRoundTrip(fs: seq<Frame>)
    requires forall f :: f in fs ==> Faithful(f)
    ensures ReadAll(StreamBytes(fs)) == (fs, HeaderCut, [])
  {
    if fs != [] {
      FrameRoundTrip(fs[0], StreamBytes(fs[1..]));
      StreamRoundTrip(fs[1..]);
      assert [fs[0]] + fs[1..] == fs;
    }
  }

  /** Different lists of frames never give the same bytes. */
  lemma StreamInjective(fs: seq<Frame>, gs: seq<Frame>)
    requires forall f :: f in fs + gs ==> Faithful(f)
    requires StreamBytes(fs) == StreamBytes(gs)
    ensures fs == gs
  {
    assert forall f :: f in fs || f in gs ==> f in fs + gs;
    StreamRoundTrip(fs);
    StreamRoundTrip(gs);
  }

  lemma {:induction false} StreamAppend(fs: seq<Frame>, gs: seq<Frame>)
    ensures StreamBytes(fs + gs) == StreamBytes(fs) + StreamBytes(gs)
  {
    if fs == [] {
      assert fs + gs == gs;
    } else {
      assert (fs + gs)[1..] == fs[1..] + gs;
      StreamAppend(fs[1..], gs);
    }
  }

  // ---------------------------------------------------------------------------
  // Parsing from a buffer
  // ---------------------------------------------------------------------------

  /** The buffer parser may also run into a slice whose end lies before its start. */
  datatype ParseOutcome = Accepted(frame: Frame) | Rejected(error: FrameError) | Panics

  /** The meaning of ParseTCPInterleavedFrame, with `4+length` computed in 16 bits. */
  function ParsedFrame(data: seq<byte>): ParseOutcome {
    if |data| < 4 then Rejected(HeaderCut)
    else if data[0] != MAGIC then Rejected(BadMagic(data[0]))
    else
      var length := Get16(data[2], data[3]);
      var end := (4 + length) % TWO_16;
      if |data| < end then Rejected(DataCut)
      else if end < 4 then Panics
      else Accepted(Frame(data[0], data[1], length, data[4..end]))
  }

  method ParseFrame(data: seq<byte>) returns (r: ParseOutcome)
    ensures r == ParsedFrame(data)
  {
    hide Get16;
    if |data| < 4 {
      return Rejected(HeaderCut);
    }
    if data[0] != MAGIC {
      return Rejected(BadMagic(data[0]));
    }
    var length: uint16 := Get16(data[2], data[3]);
    var end: uint16 := (4 + length) % TWO_16;
    if |data| < end {
      return Rejected(DataCut);
    }
    if end < 4 {
      return Panics;
    }
    r := Accepted(Frame(data[0], data[1], length, data[4..end]));
  }

  /** The two readers agree on a byte sequence: same frame, or the same complaint. */
  predicate Agrees(data: seq<byte>) {
    match ReadOne(data).0
    case Ok(f) => ParsedFrame(data) == Accepted(f)
    case Err(e) => ParsedFrame(data) == Rejected(e)
  }

  /** The buffer parser gets as far as the length field. */
  predicate HasHeader(data: seq<byte>) {
    |data| >= 4 && data[0] == MAGIC
  }

  /**
   The buffer parser refines the stream reader exactly up to length 65531; beyond it the 16-bit sum
   wraps and every such header makes it panic, whether the data is there or not.
   */
  lemma BufferRefinesStream(data: seq<byte>)
    ensures Agrees(data) <==> (HasHeader(data) ==> Get16(data[2], data[3]) <= 65531)
    ensures ParsedFrame(data).Panics? <==> HasHeader(data) && Get16(data[2], data[3]) > 65531
  {
    if HasHeader(data) {
      var n := Get16(data[2], data[3]);
      if n <= 65531 {
        assert (4 + n) % TWO_16 == 4 + n;
      } else {
        assert (4 + n) % TWO_16 == n - 65532;
      }
    }
  }

  /** Length 65532 is the first that panics; 65531 is still refused in good order when the data is not there. */
  lemma FirstPanic()
    ensures ParsedFrame([MAGIC, 0, 0xFF, 0xFC]).Panics? && ReadOne([MAGIC, 0, 0xFF, 0xFC]).0 == Err(DataCut)
    ensures ParsedFrame([MAGIC, 0, 0xFF, 0xFB]) == Rejected(DataCut)
  {
  }
}
