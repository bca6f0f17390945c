/** The media run: the server's send loop, the connection, and the client's receive loop. */
module MediaStream {
  import opened Results
  import opened Bytes
  import opened Strconv
  import opened Rtp
  import opened Interleaved

  const RTP_VERSION: byte := 2
  const PAYLOAD_TYPE_H264: byte := 96
  const CLOCK_STEP: int := 3600

  // ---------------------------------------------------------------------------
  // Counters
  // ---------------------------------------------------------------------------

  /** The value of the counters of a connection; each wraps at 2^64. */
  datatype Counters = Counters(framesSent: uint64, framesReceived: uint64, bytesSent: uint64, bytesReceived: uint64,
                               rtpFrames: uint64, rtcpFrames: uint64)

  function Sent(c: Counters, f: Frame): Counters {
    CountKind(c.(framesSent := (c.framesSent + 1) % TWO_64,
                 bytesSent := (c.bytesSent + |f.data| + 4) % TWO_64), f)
  }

  function Received(c: Counters, f: Frame): Counters {
    CountKind(c.(framesReceived := (c.framesReceived + 1) % TWO_64,
                 bytesReceived := (c.bytesReceived + |f.data| + 4) % TWO_64), f)
  }

  function CountKind(c: Counters, f: Frame): Counters {
    if f.channel % 2 == 0 then c.(rtpFrames := (c.rtpFrames + 1) % TWO_64)
    else c.(rtcpFrames := (c.rtcpFrames + 1) % TWO_64)
  }

  class TCPTransportStats {
    var framesSent: uint64
    var framesReceived: uint64
    var bytesSent: uint64
    var bytesReceived: uint64
    var rtpFrames: uint64
    var rtcpFrames: uint64

    function Value(): Counters
      reads this
    {
      Counters(framesSent, framesReceived, bytesSent, bytesReceived, rtpFrames, rtcpFrames)
    }

    constructor ()
      ensures Value() == Counters(0, 0, 0, 0, 0, 0)
    {
      framesSent, framesReceived, bytesSent, bytesReceived, rtpFrames, rtcpFrames := 0, 0, 0, 0, 0, 0;
    }

    method UpdateSent(frame: Frame)
      modifies this
      ensures Value() == Sent(old(Value()), frame)
    {
      framesSent := (framesSent + 1) % TWO_64;
      bytesSent := (bytesSent + (|frame.data| + 4)) % TWO_64;
      if frame.channel % 2 == 0 {
        rtpFrames := (rtpFrames + 1) % TWO_64;
      } else {
        rtcpFrames := (rtcpFrames + 1) % TWO_64;
      }
    }

    method UpdateReceived(frame: Frame)
      modifies this
      ensures Value() == Received(old(Value()), frame)
    {
      framesReceived := (framesReceived + 1) % TWO_64;
      bytesReceived := (bytesReceived + (|frame.data| + 4)) % TWO_64;
      if frame.channel % 2 == 0 {
        rtpFrames := (rtpFrames + 1) % TWO_64;
      } else {
        rtcpFrames := (rtcpFrames + 1) % TWO_64;
      }
    }
  }

  /** The value of RTPStats; the counters wrap at 2^32. */
  datatype RTPCounters = RTPCounters(packetsReceived: uint32, bytesReceived: uint32,
                                     lastSequence: uint16, lastTimestamp: uint32)

  function PacketReceived(c: RTPCounters, p: RTPPacket): RTPCounters {
    RTPCounters((c.packetsReceived + 1) % TWO_32, (c.bytesReceived + |p.payload| % TWO_32) % TWO_32,
                p.header.sequenceNum, p.header.timestamp)
  }

  class RTPStats {
    var packetsReceived: uint32
    var bytesReceived: uint32
    var lastSequence: uint16
    var lastTimestamp: uint32

    function Value(): RTPCounters
      reads this
    {
      RTPCounters(packetsReceived, bytesReceived, lastSequence, lastTimestamp)
    }

    constructor ()
      ensures Value() == RTPCounters(0, 0, 0, 0)
    {
      packetsReceived, bytesReceived, lastSequence, lastTimestamp := 0, 0, 0, 0;
    }

    method UpdateReceived(p: RTPPacket)
      modifies this
      ensures Value() == PacketReceived(old(Value()), p)
    {
      packetsReceived := (packetsReceived + 1) % TWO_32;
      bytesReceived := (bytesReceived + |p.payload| % TWO_32) % TWO_32;
      lastSequence := p.header.sequenceNum;
      lastTimestamp := p.header.timestamp;
    }
  }

  // ---------------------------------------------------------------------------
  // The send loop
  // ---------------------------------------------------------------------------

  function TextBytes(s: string): seq<byte> {
    seq(|s|, i requires 0 <= i < |s| => s[i] as int % 256)
  }

  /** The simulated payload of the frame with the given sequence number. */
  function FramePayload(sequenceNum: uint16): seq<byte> {
    TextBytes("Frame " + Itoa(sequenceNum))
  }

  function NewPacket(payloadType: byte, sequenceNum: uint16, timestamp: uint32, ssrc: uint32,
                     payload: seq<byte>): RTPPacket {
    RTPPacket(RTPHeader(RTP_VERSION, false, false, 0, false, payloadType, sequenceNum, timestamp, ssrc, []), payload)
  }

  /** The packet that is due at the k-th round (from 0) of a stream that starts at time `t0`. */
  function Due(k: nat, t0: uint32, ssrc: uint32): RTPPacket {
    var sequenceNum := (1 + k) % TWO_16;
    NewPacket(PAYLOAD_TYPE_H264, sequenceNum, (t0 + CLOCK_STEP * k) % TWO_32, ssrc, FramePayload(sequenceNum))
  }

  function DueFrame(channel: byte, k: nat, t0: uint32, ssrc: uint32): Frame {
    NewFrame(channel, PacketBytes(Due(k, t0, ssrc)))
  }

  /** The frames of a run with one round per source identifier drawn. */
  function DueFrames(channel: byte, t0: uint32, ssrcs: seq<uint32>): (fs: seq<Frame>)
    ensures |fs| == |ssrcs|
  {
    seq(|ssrcs|, k requires 0 <= k < |ssrcs| => DueFrame(channel, k, t0, ssrcs[k]))
  }

  function AllSent(c: Counters, fs: seq<Frame>): Counters {
    if fs == [] then c else Sent(AllSent(c, fs[..|fs| - 1]), fs[|fs| - 1])
  }

  function AllReceived(c: Counters, fs: seq<Frame>): Counters {
    if fs == [] then c else Received(AllReceived(c, fs[..|fs| - 1]), fs[|fs| - 1])
  }

  /** One round of the send loop: build the packet, frame it, write it and count it. */
  method SendOne(writer: ByteStream, stats: TCPTransportStats, rtpChannel: byte,
                 sequenceNum: uint16, timestamp: uint32, ssrc: uint32, ghost k: nat, ghost t0: uint32)
    returns (frame: Frame)
    requires sequenceNum == (1 + k) % TWO_16 && timestamp == (t0 + CLOCK_STEP * k) % TWO_32
    modifies writer, stats
    ensures frame == DueFrame(rtpChannel, k, t0, ssrc)
    ensures writer.bytes == old(writer.bytes) + FrameBytes(frame)
    ensures stats.Value() == Sent(old(stats.Value()), frame)
  {
    var payload := TextBytes("Frame " + Itoa(sequenceNum));
    var packet := NewPacket(PAYLOAD_TYPE_H264, sequenceNum, timestamp, ssrc, payload);
    var rtpData := MarshalPacket(packet);
    frame := NewFrame(rtpChannel, rtpData[..]);
    var data := MarshalFrame(frame);
    writer.Write(data[..]);
    stats.UpdateSent(frame);
  }

  /** The loop of SendTCPMediaStream; the session stays Playing for `|ssrcs|` rounds. */
  method SendLoop(writer: ByteStream, stats: TCPTransportStats, rtpChannel: byte, t0: uint32, ssrcs: seq<uint32>)
    modifies writer, stats
    ensures writer.bytes == old(writer.bytes) + StreamBytes(DueFrames(rtpChannel, t0, ssrcs))
    ensures stats.Value() == AllSent(old(stats.Value()), DueFrames(rtpChannel, t0, ssrcs))
  {
    hide DueFrame, Sent, FrameBytes, StreamBytes, AllSent;
    NothingSent(stats.Value());
    var sequenceNum: uint16, timestamp: uint32 := 1, t0;
    ghost var due := DueFrames(rtpChannel, t0, ssrcs);
    ghost var sent: seq<Frame> := [];
    for k := 0 to |ssrcs|
      invariant sequenceNum == (1 + k) % TWO_16
      invariant timestamp == (t0 + CLOCK_STEP * k) % TWO_32
      invariant sent == due[..k]
      invariant writer.bytes == old(writer.bytes) + StreamBytes(sent)
      invariant stats.Value() == AllSent(old(stats.Value()), sent)
    {
      var frame := SendOne(writer, stats, rtpChannel, sequenceNum, timestamp, ssrcs[k], k, t0);
      assert frame == due[k];
      SentSnoc(sent, frame);
      SentAfter(old(stats.Value()), sent, frame);
      NextSent(writer.bytes, old(writer.bytes), StreamBytes(sent), FrameBytes(frame));
      sent := sent + [frame];
      NextRound(k, t0);
      sequenceNum := (sequenceNum + 1) % TWO_16;
      timestamp := (timestamp + CLOCK_STEP) % TWO_32;
    }
    assert due[..|ssrcs|] == due;
  }

  lemma NothingSent(c: Counters)
    ensures StreamBytes([]) == [] && AllSent(c, []) == c == AllReceived(c, [])
  {
  }

  lemma NextSent(now: seq<byte>, before: seq<byte>, stream: seq<byte>, frame: seq<byte>)
    requires now == before + stream + frame
    ensures now == before + (stream + frame)
  {
  }

  /** The wrapped sums of the loop are the wrapped products of the definition. */
  lemma NextRound(k: nat, t0: uint32)
    ensures ((1 + k) % TWO_16 + 1) % TWO_16 == (1 + (k + 1)) % TWO_16
    ensures ((t0 + CLOCK_STEP * k) % TWO_32 + CLOCK_STEP) % TWO_32 == (t0 + CLOCK_STEP * (k + 1)) % TWO_32
  {
  }

  lemma SentAfter(c: Counters, fs: seq<Frame>, f: Frame)
    ensures AllSent(c, fs + [f]) == Sent(AllSent(c, fs), f)
    ensures AllReceived(c, fs + [f]) == Received(AllReceived(c, fs), f)
  {
    assert (fs + [f])[..|fs|] == fs;
  }

  lemma SentSnoc(fs: seq<Frame>, f: Frame)
    ensures StreamBytes(fs + [f]) == StreamBytes(fs) + FrameBytes(f)
  {
    StreamAppend(fs, [f]);
    assert [f][1..] == [];
    assert StreamBytes([f]) == FrameBytes(f) + [];
  }

  // ---------------------------------------------------------------------------
  // The receive loop
  // ---------------------------------------------------------------------------

  /** The packets the client has after one more frame: it takes what is on its RTP channel and parses. */
  function Take(rtpChannel: byte, taken: seq<RTPPacket>, f: Frame): seq<RTPPacket> {
    if f.channel == rtpChannel && f.channel % 2 == 0 && ParsedPacket(f.data).Ok?
    then taken + [ParsedPacket(f.data).value] else taken
  }

  /** The packets the client takes from a list of frames. */
  function Packets(rtpChannel: byte, fs: seq<Frame>): seq<RTPPacket> {
    if fs == [] then [] else Take(rtpChannel, Packets(rtpChannel, fs[..|fs| - 1]), fs[|fs| - 1])
  }

  function AllPackets(c: RTPCounters, ps: seq<RTPPacket>): RTPCounters {
    if ps == [] then c else PacketReceived(AllPackets(c, ps[..|ps| - 1]), ps[|ps| - 1])
  }

  /** ParseRTPFromInterleavedFrame; an odd channel is refused. */
  method ParseRTPFromFrame(frame: Frame) returns (ok: bool, packet: RTPPacket)
    ensures ok <==> frame.channel % 2 == 0 && ParsedPacket(frame.data).Ok?
    ensures ok ==> ParsedPacket(frame.data) == Ok(packet)
  {
    ok, packet := false, NewPacket(0, 0, 0, 0, []);
    if frame.channel % 2 == 0 {
      var r := ParsePacket(frame.data);
      if r.Ok? {
        ok, packet := true, r.value;
      }
    }
  }

  /** What the loop does with one frame. */
  method TakeFrame(frame: Frame, stats: TCPTransportStats, rtpStats: RTPStats, rtpChannel: byte,
                   taken: seq<RTPPacket>, ghost start: RTPCounters)
    returns (taken': seq<RTPPacket>)
    requires rtpStats.Value() == AllPackets(start, taken)
    modifies stats, rtpStats
    ensures stats.Value() == Received(old(stats.Value()), frame)
    ensures taken' == Take(rtpChannel, taken, frame) && rtpStats.Value() == AllPackets(start, taken')
  {
    hide ParsedPacket, Received, PacketReceived;
    taken' := taken;
    stats.UpdateReceived(frame);
    if frame.channel == rtpChannel {
      var ok, packet := ParseRTPFromFrame(frame);
      if !ok {
        return;
      }
      rtpStats.UpdateReceived(packet);
      taken' := taken + [packet];
      assert taken'[..|taken|] == taken;
    }
  }

  /**
   The loop of ReceiveTCPMediaStream: it ends after `rounds` frames, when the client stops playing, or
   when the connection fails. It also lists what it took.
   */
  method ReceiveLoop(reader: ByteStream, stats: TCPTransportStats, rtpStats: RTPStats, rtpChannel: byte, rounds: nat)
    returns (taken: seq<RTPPacket>)
    modifies reader, stats, rtpStats
    ensures taken == Packets(rtpChannel, ReadSome(old(reader.bytes), rounds).0)
    ensures stats.Value() == AllReceived(old(stats.Value()), ReadSome(old(reader.bytes), rounds).0)
    ensures rtpStats.Value() == AllPackets(old(rtpStats.Value()), taken)
    ensures reader.bytes == ReadSome(old(reader.bytes), rounds).1
  {
    hide ReadOne, ReadSome, Take, Packets, Received, AllReceived, AllPackets;
    NothingReceived(rtpChannel, stats.Value(), rtpStats.Value());
    taken := [];
    ghost var frames: seq<Frame> := [];
    BehindNothing(ReadSome(reader.bytes, rounds));
    for k := 0 to rounds
      invariant ReadSome(old(reader.bytes), rounds) == Behind(frames, ReadSome(reader.bytes, rounds - k))
      invariant taken == Packets(rtpChannel, frames)
      invariant stats.Value() == AllReceived(old(stats.Value()), frames)
      invariant rtpStats.Value() == AllPackets(old(rtpStats.Value()), taken)
    {
      ReadSomeStep(reader.bytes, rounds - k);
      var r := ReadFrame(reader);
      if r.Err? {
        assert frames + [] == frames;
        return;
      }
      var frame := r.value;
      BehindSnoc(frames, frame, ReadSome(reader.bytes, rounds - k - 1));
      PacketsSnoc(rtpChannel, frames, frame);
      ReceivedSnoc(stats.Value(), old(stats.Value()), frames, frame);
      taken := TakeFrame(frame, stats, rtpStats, rtpChannel, taken, old(rtpStats.Value()));
      frames := frames + [frame];
    }
    NoRounds(reader.bytes);
    assert frames + [] == frames;
  }

  lemma NothingReceived(rtpChannel: byte, c: Counters, d: RTPCounters)
    ensures Packets(rtpChannel, []) == [] && AllReceived(c, []) == c && AllPackets(d, []) == d
  {
  }

  lemma NoRounds(input: seq<byte>)
    ensures ReadSome(input, 0) == ([], input)
  {
  }

  lemma ReadSomeStep(input: seq<byte>, rounds: nat)
    requires rounds > 0
    ensures match ReadOne(input)
            case (Err(_), rest) => ReadSome(input, rounds) == ([], rest)
            case (Ok(f), rest) => ReadSome(input, rounds) == Behind([f], ReadSome(rest, rounds - 1))
  {
    hide ReadOne;
  }

  lemma PacketsSnoc(rtpChannel: byte, fs: seq<Frame>, f: Frame)
    ensures Packets(rtpChannel, fs + [f]) == Take(rtpChannel, Packets(rtpChannel, fs), f)
  {
    hide Take;
    assert (fs + [f])[..|fs|] == fs;
  }

  lemma ReceivedSnoc(now: Counters, c: Counters, fs: seq<Frame>, f: Frame)
    requires now == AllReceived(c, fs)
    ensures AllReceived(c, fs + [f]) == Received(now, f)
  {
    SentAfter(c, fs, f);
  }

  /** The outcome of reading when `fs` was read before. */
  function Behind(fs: seq<Frame>, r: (seq<Frame>, seq<byte>)): (seq<Frame>, seq<byte>) {
    (fs + r.0, r.1)
  }

  lemma BehindNothing(r: (seq<Frame>, seq<byte>))
    ensures Behind([], r) == r
  {
    assert [] + r.0 == r.0;
  }

  lemma BehindSnoc(fs: seq<Frame>, f: Frame, r: (seq<Frame>, seq<byte>))
    ensures Behind(fs, Behind([f], r)) == Behind(fs + [f], r)
  {
    assert fs + ([f] + r.0) == fs + [f] + r.0;
  }

  // ---------------------------------------------------------------------------
  // End to end
  // ---------------------------------------------------------------------------

  lemma DueFits(k: nat, t0: uint32, ssrc: uint32)
    ensures |Due(k, t0, ssrc).payload| <= 11
    ensures Encodable(Due(k, t0, ssrc).header) && Due(k, t0, ssrc).header.cc == 0
  {
    hide FramePayload;
    PayloadFits((1 + k) % TWO_16);
  }

  lemma DueFrameFits(channel: byte, k: nat, t0: uint32, ssrc: uint32)
    ensures Faithful(DueFrame(channel, k, t0, ssrc))
    ensures ParsedPacket(DueFrame(channel, k, t0, ssrc).data) == Ok(Due(k, t0, ssrc))
  {
    hide PacketBytes;
    hide ParsedPacket;
    hide Due;
    hide Encodable;
    var p := Due(k, t0, ssrc);
    DueFits(k, t0, ssrc);
    PacketSize(p);
    PacketRoundTrip(p);
  }

  lemma PayloadFits(n: uint16)
    ensures |FramePayload(n)| <= 11
  {
    ShortText(n);
  }

  lemma PacketSize(p: RTPPacket)
    ensures |PacketBytes(p)| == 12 + 4 * p.header.cc + |p.payload|
  {
  }

  /** A 16-bit number has at most five digits. */
  lemma ShortText(n: uint16)
    ensures |Itoa(n)| <= 5
  {
    assert |NatToString(n / 10000)| == 1;
    assert n >= 10000 ==> |NatToString(n / 1000)| == |NatToString(n / 10000)| + 1 by {
      assert n / 1000 / 10 == n / 10000;
    }
    assert |NatToString(n / 1000)| <= 2;
    assert |NatToString(n / 100)| <= 3 by { assert n / 100 / 10 == n / 1000; }
    assert |NatToString(n / 10)| <= 4 by { assert n / 10 / 10 == n / 100; }
  }

  /** What the client is to receive: every packet of the run, in order. */
  function DuePackets(t0: uint32, ssrcs: seq<uint32>): seq<RTPPacket> {
    seq(|ssrcs|, k requires 0 <= k < |ssrcs| => Due(k, t0, ssrcs[k]))
  }

  /** Frames on the RTP channel that all hold a packet: an even channel delivers them all, an odd one none. */
  lemma {:induction false} PacketsOfFrames(channel: byte, fs: seq<Frame>, ps: seq<RTPPacket>)
    requires |fs| == |ps|
    requires forall i :: 0 <= i < |fs| ==> fs[i].channel == channel && ParsedPacket(fs[i].data) == Ok(ps[i])
    ensures Packets(channel, fs) == if channel % 2 == 0 then ps else []
    decreases |fs|
  {
    hide ParsedPacket;
    if fs != [] {
      var n := |fs| - 1;
      PacketsOfFrames(channel, fs[..n], ps[..n]);
      assert ps == ps[..n] + [ps[n]];
    }
  }

  lemma PacketsOfDue(channel: byte, t0: uint32, ssrcs: seq<uint32>)
    ensures Packets(channel, DueFrames(channel, t0, ssrcs)) == if channel % 2 == 0 then DuePackets(t0, ssrcs) else []
  {
    var (fs, ps) := (DueFrames(channel, t0, ssrcs), DuePackets(t0, ssrcs));
    forall i | 0 <= i < |fs| ensures fs[i].channel == channel && ParsedPacket(fs[i].data) == Ok(ps[i]) {
      DueFrameFits(channel, i, t0, ssrcs[i]);
    }
    PacketsOfFrames(channel, fs, ps);
  }

  lemma AddWraps(a: int, b: int, c: int)
    ensures ((a + b) % TWO_64 + c) % TWO_64 == (a + (b + c)) % TWO_64
  {
  }

  lemma {:induction false} CountersOfRun(c: Counters, d: Counters, fs: seq<Frame>)
    ensures AllSent(c, fs).bytesSent == (c.bytesSent + |StreamBytes(fs)|) % TWO_64
    ensures AllReceived(d, fs).bytesReceived == (d.bytesReceived + |StreamBytes(fs)|) % TWO_64
    decreases |fs|
  {
    hide StreamBytes, AllSent, AllReceived;
    if fs == [] {
      NothingSent(c);
      NothingSent(d);
    } else {
      var n := |fs| - 1;
      var (before, f) := (fs[..n], fs[n]);
      CountersOfRun(c, d, before);
      assert fs == before + [f];
      SentSnoc(before, f);
      SentAfter(c, before, f);
      SentAfter(d, before, f);
      AddWraps(c.bytesSent, |StreamBytes(before)|, |f.data| + 4);
      AddWraps(d.bytesReceived, |StreamBytes(before)|, |f.data| + 4);
    }
  }

  /**
   The run as a whole. The client takes the k-th packet with payload type 96, sequence number (1+k) mod 2^16,
   timestamp (t0+3600k) mod 2^32 and the text of its number as payload, on every even channel; the stream is
   used up, and both byte counters hold its length modulo 2^64.
   */
  lemma EndToEnd(channel: byte, t0: uint32, ssrcs: seq<uint32>)
    ensures var fs := DueFrames(channel, t0, ssrcs);
            && ReadAll(StreamBytes(fs)) == (fs, HeaderCut, [])
            && (Packets(channel, fs) == DuePackets(t0, ssrcs) <==> channel % 2 == 0 || ssrcs == [])
            && AllSent(Counters(0, 0, 0, 0, 0, 0), fs).bytesSent == |StreamBytes(fs)| % TWO_64
            && AllReceived(Counters(0, 0, 0, 0, 0, 0), fs).bytesReceived == |StreamBytes(fs)| % TWO_64
    ensures |DuePackets(t0, ssrcs)| == |ssrcs|
    ensures forall k :: 0 <= k < |ssrcs| ==>
              var (p, text) := (DuePackets(t0, ssrcs)[k], "Frame " + Itoa((1 + k) % 0x1_0000));
              && p.header == RTPHeader(2, false, false, 0, false, 96, (1 + k) % 0x1_0000,
                                       (t0 + 3600 * k) % 0x1_0000_0000, ssrcs[k], [])
              && |p.payload| == |text| && forall i :: 0 <= i < |text| ==> p.payload[i] as int == text[i] as int
  {
    DueCount(t0, ssrcs);
    hide DueFrames, DuePackets, Packets, ReadAll, StreamBytes, AllSent, AllReceived, Itoa, TextBytes;
    var fs := DueFrames(channel, t0, ssrcs);
    DueIsRead(channel, t0, ssrcs);
    PacketsOfDue(channel, t0, ssrcs);
    CountersOfRun(Counters(0, 0, 0, 0, 0, 0), Counters(0, 0, 0, 0, 0, 0), fs);
    forall k: nat | k < |ssrcs|
      ensures var (p, text) := (DuePackets(t0, ssrcs)[k], "Frame " + Itoa((1 + k) % 0x1_0000));
              && p.header == RTPHeader(2, false, false, 0, false, 96, (1 + k) % 0x1_0000,
                                       (t0 + 3600 * k) % 0x1_0000_0000, ssrcs[k], [])
              && |p.payload| == |text| && forall i :: 0 <= i < |text| ==> p.payload[i] as int == text[i] as int
    {
      DueFields(t0, ssrcs, k);
    }
  }

  lemma DueIsRead(channel: byte, t0: uint32, ssrcs: seq<uint32>)
    ensures var fs := DueFrames(channel, t0, ssrcs); ReadAll(StreamBytes(fs)) == (fs, HeaderCut, [])
  {
    hide DueFrame, ReadAll, StreamBytes, ParsedPacket, Faithful;
    var fs := DueFrames(channel, t0, ssrcs);
    forall f | f in fs ensures Faithful(f) {
      var k :| 0 <= k < |fs| && fs[k] == f;
      DueFrameFits(channel, k, t0, ssrcs[k]);
    }
    StreamRoundTrip(fs);
  }

  lemma DueCount(t0: uint32, ssrcs: seq<uint32>)
    ensures |DuePackets(t0, ssrcs)| == |ssrcs|
  {
  }

  /** The first frames of a run are the frames of a shorter run. */
  lemma FirstDue(channel: byte, t0: uint32, ssrcs: seq<uint32>, n: nat)
    requires n <= |ssrcs|
    ensures DueFrames(channel, t0, ssrcs)[..n] == DueFrames(channel, t0, ssrcs[..n])
  {
    hide DueFrame;
  }

  /**
   Both loops, one after the other, over one connection. The client takes the packets of the rounds it
   plays, or of the whole run if it plays longer; on an odd channel it takes none.
   */
  method MediaRun(channel: byte, t0: uint32, ssrcs: seq<uint32>, rounds: nat)
    returns (taken: seq<RTPPacket>, sent: uint64, received: uint64)
    ensures var read := ssrcs[..if rounds < |ssrcs| then rounds else |ssrcs|];
            && taken == (if channel % 2 == 0 then DuePackets(t0, read) else [])
            && received == |StreamBytes(DueFrames(channel, t0, read))| % TWO_64
    ensures sent == |StreamBytes(DueFrames(channel, t0, ssrcs))| % TWO_64
  {
    hide DueFrames, DuePackets, Packets, ReadAll, ReadSome, StreamBytes, AllSent, AllReceived, AllPackets;
    var connection := new ByteStream([]);
    var serverStats := new TCPTransportStats();
    var clientStats := new TCPTransportStats();
    var rtpStats := new RTPStats();
    SendLoop(connection, serverStats, channel, t0, ssrcs);
    ghost var n := if rounds < |ssrcs| then rounds else |ssrcs|;
    ghost var fs := DueFrames(channel, t0, ssrcs);
    ghost var zero := Counters(0, 0, 0, 0, 0, 0);
    assert connection.bytes == StreamBytes(fs);
    DueIsRead(channel, t0, ssrcs);
    ReadSomeIsPrefix(connection.bytes, rounds);
    FirstDue(channel, t0, ssrcs, n);
    assert ReadSome(connection.bytes, rounds).0 == fs[..n];
    PacketsOfDue(channel, t0, ssrcs[..n]);
    CountersOfRun(zero, zero, fs);
    CountersOfRun(zero, zero, fs[..n]);
    assert serverStats.Value() == AllSent(zero, fs);
    taken := ReceiveLoop(connection, clientStats, rtpStats, channel, rounds);
    sent, received := serverStats.bytesSent, clientStats.bytesReceived;
  }

  /** A due packet, field by field; the payload holds the text of its sequence number, a byte a character. */
  lemma DueFields(t0: uint32, ssrcs: seq<uint32>, k: nat)
    requires k < |ssrcs|
    ensures var (p, text) := (DuePackets(t0, ssrcs)[k], "Frame " + Itoa((1 + k) % 0x1_0000));
            && p.header == RTPHeader(2, false, false, 0, false, 96, (1 + k) % 0x1_0000,
                                     (t0 + 3600 * k) % 0x1_0000_0000, ssrcs[k], [])
            && |p.payload| == |text| && forall i :: 0 <= i < |text| ==> p.payload[i] as int == text[i] as int
  {
    var n := (1 + k) % 0x1_0000;
    var number := Itoa(n);
    forall i | 0 <= i < |number| ensures number[i] as int < 256 {
      assert number[i] in number;
    }
    hide Itoa;
    var text := "Frame " + number;
    assert forall i :: 0 <= i < 6 ==> "Frame "[i] as int < 256;
    forall i | 0 <= i < |text| ensures text[i] as int < 256 {
      if i >= 6 { assert text[i] == number[i - 6]; }
    }
  }

  // ---------------------------------------------------------------------------
  // Statistics
  // ---------------------------------------------------------------------------

  /** How many of the frames are on even channels. */
  function Even(fs: seq<Frame>): nat {
    |set i | 0 <= i < |fs| && fs[i].channel % 2 == 0|
  }

  lemma EvenSnoc(fs: seq<Frame>, f: Frame)
    ensures Even(fs + [f]) == Even(fs) + if f.channel % 2 == 0 then 1 else 0
    ensures Even([]) == 0
  {
    var before := set i | 0 <= i < |fs| && fs[i].channel % 2 == 0;
    var after := set i | 0 <= i < |fs + [f]| && (fs + [f])[i].channel % 2 == 0;
    assert after == if f.channel % 2 == 0 then before + {|fs|} else before;
  }

  lemma OneCounted(c: Counters, f: Frame)
    ensures var (s, even) := (Sent(c, f), if f.channel % 2 == 0 then 1 else 0);
            && s.framesSent == (c.framesSent + 1) % TWO_64 && s.framesReceived == c.framesReceived
            && s.bytesReceived == c.bytesReceived
            && s.rtpFrames == (c.rtpFrames + even) % TWO_64 && s.rtcpFrames == (c.rtcpFrames + (1 - even)) % TWO_64
    ensures var (r, even) := (Received(c, f), if f.channel % 2 == 0 then 1 else 0);
            && r.framesReceived == (c.framesReceived + 1) % TWO_64 && r.framesSent == c.framesSent
            && r.bytesSent == c.bytesSent
            && r.rtpFrames == (c.rtpFrames + even) % TWO_64 && r.rtcpFrames == (c.rtcpFrames + (1 - even)) % TWO_64
  {
  }

  /** Frames and their kinds: each frame sent counts once, and once more by the parity of its channel. */
  lemma {:induction false} FramesSent(c: Counters, fs: seq<Frame>)
    ensures var (s, odd) := (AllSent(c, fs), |fs| - Even(fs));
            && s.framesSent == (c.framesSent + |fs|) % TWO_64 && s.framesReceived == c.framesReceived
            && s.bytesReceived == c.bytesReceived
            && s.rtpFrames == (c.rtpFrames + Even(fs)) % TWO_64 && s.rtcpFrames == (c.rtcpFrames + odd) % TWO_64
    decreases |fs|
  {
    hide AllSent, AllReceived, Even, Sent, Received, TWO_64;
    if fs == [] {
      NothingSent(c);
      EvenSnoc([], Frame(0, 0, 0, []));
      NothingWraps(c);
    } else {
      var n := |fs| - 1;
      var (before, f) := (fs[..n], fs[n]);
      FramesSent(c, before);
      assert fs == before + [f];
      SentAfter(c, before, f);
      OneCounted(AllSent(c, before), f);
      EvenSnoc(before, f);
      KindWraps(c, n, Even(before), if f.channel % 2 == 0 then 1 else 0);
      AddWraps(c.framesSent, n, 1);
    }
  }

  lemma NothingWraps(c: Counters)
    ensures (c.framesSent + 0) % TWO_64 == c.framesSent && (c.framesReceived + 0) % TWO_64 == c.framesReceived
    ensures (c.rtpFrames + 0) % TWO_64 == c.rtpFrames && (c.rtcpFrames + 0) % TWO_64 == c.rtcpFrames
  {
  }

  lemma KindWraps(c: Counters, n: int, even: int, d: int)
    ensures ((c.rtpFrames + even) % TWO_64 + d) % TWO_64 == (c.rtpFrames + (even + d)) % TWO_64
    ensures ((c.rtcpFrames + (n - even)) % TWO_64 + (1 - d)) % TWO_64
         == (c.rtcpFrames + ((n + 1) - (even + d))) % TWO_64
  {
    AddWraps(c.rtpFrames, even, d);
    AddWraps(c.rtcpFrames, n - even, 1 - d);
  }

  /** The same for frames received. */
  lemma {:induction false} FramesReceived(c: Counters, fs: seq<Frame>)
    ensures var (r, odd) := (AllReceived(c, fs), |fs| - Even(fs));
            && r.framesReceived == (c.framesReceived + |fs|) % TWO_64 && r.framesSent == c.framesSent
            && r.bytesSent == c.bytesSent
            && r.rtpFrames == (c.rtpFrames + Even(fs)) % TWO_64 && r.rtcpFrames == (c.rtcpFrames + odd) % TWO_64
    decreases |fs|
  {
    hide AllSent, AllReceived, Even, Sent, Received, TWO_64;
    if fs == [] {
      NothingSent(c);
      EvenSnoc([], Frame(0, 0, 0, []));
      NothingWraps(c);
    } else {
      var n := |fs| - 1;
      var (before, f) := (fs[..n], fs[n]);
      FramesReceived(c, before);
      assert fs == before + [f];
      SentAfter(c, before, f);
      OneCounted(AllReceived(c, before), f);
      EvenSnoc(before, f);
      KindWraps(c, n, Even(before), if f.channel % 2 == 0 then 1 else 0);
      AddWraps(c.framesReceived, n, 1);
    }
  }

  /** All payload bytes, together. */
  function Payloads(ps: seq<RTPPacket>): seq<byte> {
    if ps == [] then [] else Payloads(ps[..|ps| - 1]) + ps[|ps| - 1].payload
  }

  /** The receiver's counters after any packets, and the fields of the last one. */
  lemma {:induction false} PacketsCounted(c: RTPCounters, ps: seq<RTPPacket>)
    ensures AllPackets(c, ps).packetsReceived == (c.packetsReceived + |ps|) % TWO_32
    ensures AllPackets(c, ps).bytesReceived == (c.bytesReceived + |Payloads(ps)|) % TWO_32
    ensures ps != [] ==> var last := ps[|ps| - 1].header;
                         && AllPackets(c, ps).lastSequence == last.sequenceNum
                         && AllPackets(c, ps).lastTimestamp == last.timestamp
    decreases |ps|
  {
    if ps != [] {
      var n := |ps| - 1;
      PacketsCounted(c, ps[..n]);
      assert ps == ps[..n] + [ps[n]];
      Wraps32(c.packetsReceived, n, 1);
      Wraps32(c.bytesReceived, |Payloads(ps[..n])|, |ps[n].payload|);
    }
  }

  lemma Wraps32(a: int, b: int, n: int)
    ensures ((a + b) % TWO_32 + n % TWO_32) % TWO_32 == (a + (b + n)) % TWO_32
    ensures ((a + b) % TWO_32 + n) % TWO_32 == (a + (b + n)) % TWO_32
  {
  }

  /** A frame gives a packet exactly when it is on the client's channel, that is even, and its data is a packet. */
  lemma PacketOfFrame(channel: byte, f: Frame)
    ensures Packets(channel, [f]) != [] <==> f.channel == channel && channel % 2 == 0 && ParsedPacket(f.data).Ok?
    ensures Packets(channel, [f]) != [] ==> Packets(channel, [f]) == [ParsedPacket(f.data).value]
  {
    hide ParsedPacket;
    assert [f][..0] == [];
    assert Packets(channel, []) == [];
  }

  /** Frames are taken one by one, so that those of other channels, or without a packet, do not matter. */
  lemma {:induction false} PacketsConcat(channel: byte, fs: seq<Frame>, gs: seq<Frame>)
    ensures Packets(channel, fs + gs) == Packets(channel, fs) + Packets(channel, gs)
    decreases |gs|
  {
    hide ParsedPacket;
    if gs == [] {
      assert fs + gs == fs;
    } else {
      var n := |gs| - 1;
      PacketsConcat(channel, fs, gs[..n]);
      assert (fs + gs)[..|fs + gs| - 1] == fs + gs[..n];
    }
  }
}
