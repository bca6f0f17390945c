/** Interleaved channel numbers: a byte counter that wraps. */
module Channels {
  import opened Results
  import opened Bytes

  datatype TCPChannel = TCPChannel(rtpChannel: byte, rtcpChannel: byte, sessionID: string)

  /** The manager as a value. */
  datatype ChannelTable = ChannelTable(channels: map<string, TCPChannel>, next: byte)

  const NO_CHANNELS: ChannelTable := ChannelTable(map[], 0)

  function NextChannel(t: ChannelTable, sessionID: string): TCPChannel {
    TCPChannel(t.next, (t.next + 1) % 256, sessionID)
  }

  function Allocate(t: ChannelTable, sessionID: string): ChannelTable {
    ChannelTable(t.channels[sessionID := NextChannel(t, sessionID)], (t.next + 2) % 256)
  }

  function Release(t: ChannelTable, sessionID: string): ChannelTable {
    t.(channels := t.channels - {sessionID})
  }

  class TCPTransportManager {
    var channels: map<string, TCPChannel>
    var nextChannel: byte

    function Value(): ChannelTable
      reads this
    {
      ChannelTable(channels, nextChannel)
    }

    constructor ()
      ensures Value() == NO_CHANNELS
    {
      channels, nextChannel := map[], 0;
    }

    method AllocateChannel(sessionID: string) returns (channel: TCPChannel)
      modifies this
      ensures channel == NextChannel(old(Value()), sessionID)
      ensures Value() == Allocate(old(Value()), sessionID)
    {
      channel := TCPChannel(nextChannel, (nextChannel + 1) % 256, sessionID);
      channels := channels[sessionID := channel];
      nextChannel := (nextChannel + 2) % 256;
    }

    method ReleaseChannel(sessionID: string)
      modifies this
      ensures Value() == Release(old(Value()), sessionID)
    {
      channels := channels - {sessionID};
    }

    /** A missing session has no channel. */
    method GetChannel(sessionID: string) returns (channel: Option<TCPChannel>)
      ensures channel == if sessionID in channels then Some(channels[sessionID]) else None
    {
      channel := if sessionID in channels then Some(channels[sessionID]) else None;
    }
  }

  // ---------------------------------------------------------------------------
  // Runs
  // ---------------------------------------------------------------------------

  /** The two channels of the k-th allocation (from 0). */
  function RTPChannelOf(k: nat): byte {
    2 * (k % 128)
  }

  predicate Overlap(a: TCPChannel, b: TCPChannel) {
    || a.rtpChannel == b.rtpChannel || a.rtpChannel == b.rtcpChannel
    || a.rtcpChannel == b.rtpChannel || a.rtcpChannel == b.rtcpChannel
  }

  datatype ChannelOp = Open(sessionID: string) | Close(sessionID: string)

  /** The table together with its history: how many allocations there were, and which one each session holds. */
  datatype History = History(table: ChannelTable, count: nat, held: map<string, nat>)

  const START: History := History(NO_CHANNELS, 0, map[])

  function Step(h: History, op: ChannelOp): History {
    match op
    case Open(id) => History(Allocate(h.table, id), h.count + 1, h.held[id := h.count])
    case Close(id) => History(Release(h.table, id), h.count, h.held - {id})
  }

  function Run(h: History, ops: seq<ChannelOp>): History
    decreases |ops|
  {
    if ops == [] then h else Run(Step(h, ops[0]), ops[1..])
  }

  /** The counter, and every stored channel, follow from the allocation numbers alone. */
  ghost predicate Counted(h: History) {
    && h.table.next == RTPChannelOf(h.count)
    && h.table.channels.Keys == h.held.Keys
    && (forall id :: id in h.held ==> h.held[id] < h.count)
    && (forall id :: id in h.held ==>
          h.table.channels[id] == TCPChannel(RTPChannelOf(h.held[id]), RTPChannelOf(h.held[id]) + 1, id))
    && (forall a, b :: a in h.held && b in h.held && a != b ==> h.held[a] != h.held[b])
  }

  lemma StepCounted(h: History, op: ChannelOp)
    requires Counted(h)
    ensures Counted(Step(h, op))
  {
    hide RTPChannelOf;
    CounterStep(h.count);
    match op
    case Open(id) =>
      var h' := Step(h, op);
      assert h'.table.channels[id] == TCPChannel(h.table.next, h.table.next + 1, id);
    case Close(id) =>
  }

  lemma CounterStep(k: nat)
    ensures RTPChannelOf(k + 1) == (RTPChannelOf(k) + 2) % 256
    ensures RTPChannelOf(k) + 1 == (RTPChannelOf(k) + 1) % 256
  {
    NextRemainder(k);
    var r := k % 128;
    assert 0 <= r < 128;
  }

  lemma NextRemainder(k: nat)
    ensures (k + 1) % 128 == if k % 128 == 127 then 0 else k % 128 + 1
  {
    assert k == 128 * (k / 128) + k % 128;
  }

  /** Over every run of allocations and releases, the k-th allocation gets 2*(k mod 128) and the channel above it. */
  lemma {:induction false} RunCounted(h: History, ops: seq<ChannelOp>)
    requires Counted(h)
    ensures Counted(Run(h, ops))
    decreases |ops|
  {
    hide Counted, Step;
    if ops != [] {
      StepCounted(h, ops[0]);
      RunCounted(Step(h, ops[0]), ops[1..]);
    }
  }

  lemma StartCounted()
    ensures Counted(START)
  {
  }

  /** The channel handed out next is even, RTCP is one above it, and both depend only on the number of allocations. */
  lemma NextOfRun(ops: seq<ChannelOp>, id: string)
    ensures var h := Run(START, ops);
            && NextChannel(h.table, id) == TCPChannel(2 * (h.count % 128), 2 * (h.count % 128) + 1, id)
            && NextChannel(h.table, id).rtpChannel % 2 == 0
  {
    hide Run;
    StartCounted();
    RunCounted(START, ops);
  }

  /** Two numbers leave the same remainder exactly when their difference leaves none. */
  lemma SameRemainder(i: nat, j: nat)
    requires i < j
    ensures i % 128 == j % 128 <==> (j - i) % 128 == 0
  {
    var (p, q) := (i / 128, j / 128);
    assert i == 128 * p + i % 128 && j == 128 * q + j % 128;
    assert j - i == 128 * (q - p) + (j % 128 - i % 128);
  }

  /** Two allocations meet exactly when their numbers differ by a multiple of 128. */
  lemma OverlapExactly(i: nat, j: nat, a: string, b: string)
    requires i < j
    ensures Overlap(TCPChannel(RTPChannelOf(i), RTPChannelOf(i) + 1, a),
                    TCPChannel(RTPChannelOf(j), RTPChannelOf(j) + 1, b))
       <==> (j - i) % 128 == 0
  {
    SameRemainder(i, j);
  }

  ghost predicate LiveDisjoint(h: History) {
    forall a, b :: a in h.table.channels && b in h.table.channels && a != b
      ==> !Overlap(h.table.channels[a], h.table.channels[b])
  }

  /** Every session was released before the 128th allocation after its own. */
  ghost predicate Prompt(h: History) {
    forall id :: id in h.held ==> h.count - h.held[id] <= 128
  }

  /** No two live allocations are a multiple of 128 apart. */
  ghost predicate HeldApart(h: History) {
    forall a, b :: a in h.held && b in h.held && h.held[a] < h.held[b] ==> (h.held[b] - h.held[a]) % 128 != 0
  }

  lemma HeldOverlap(h: History, a: string, b: string)
    requires Counted(h) && a in h.held && b in h.held && h.held[a] < h.held[b]
    ensures a != b && a in h.table.channels && b in h.table.channels
    ensures Overlap(h.table.channels[a], h.table.channels[b]) <==> (h.held[b] - h.held[a]) % 128 == 0
    ensures Overlap(h.table.channels[b], h.table.channels[a]) <==> (h.held[b] - h.held[a]) % 128 == 0
  {
    OverlapExactly(h.held[a], h.held[b], a, b);
    OverlapSymmetric(h.table.channels[a], h.table.channels[b]);
    hide RTPChannelOf, Overlap;
  }

  lemma DifferentNumbers(h: History, a: string, b: string)
    requires Counted(h) && a in h.table.channels && b in h.table.channels && a != b
    ensures a in h.held && b in h.held && h.held[a] != h.held[b]
  {
  }

  lemma CountedDisjoint(h: History)
    requires Counted(h)
    ensures LiveDisjoint(h) <==> HeldApart(h)
  {
    hide Counted, Overlap;
    if HeldApart(h) {
      forall a, b | a in h.table.channels && b in h.table.channels && a != b
        ensures !Overlap(h.table.channels[a], h.table.channels[b])
      {
        DifferentNumbers(h, a, b);
        if h.held[a] < h.held[b] { HeldOverlap(h, a, b); } else { HeldOverlap(h, b, a); }
      }
    }
    if LiveDisjoint(h) {
      forall a, b | a in h.held && b in h.held && h.held[a] < h.held[b] ensures (h.held[b] - h.held[a]) % 128 != 0 {
        HeldOverlap(h, a, b);
      }
    }
  }

  /** In any run: live channels are disjoint exactly when no two live allocations are a multiple of 128 apart. */
  lemma DisjointExactly(ops: seq<ChannelOp>)
    ensures LiveDisjoint(Run(START, ops)) <==> HeldApart(Run(START, ops))
  {
    hide Run, Counted, LiveDisjoint, HeldApart;
    StartCounted();
    RunCounted(START, ops);
    CountedDisjoint(Run(START, ops));
  }

  lemma OverlapSymmetric(a: TCPChannel, b: TCPChannel)
    ensures Overlap(a, b) <==> Overlap(b, a)
  {
  }

  /** With prompt releases live channels never meet, however long the run is. */
  lemma PromptIsDisjoint(ops: seq<ChannelOp>)
    requires Prompt(Run(START, ops))
    ensures LiveDisjoint(Run(START, ops))
  {
    hide Run, Counted, LiveDisjoint;
    StartCounted();
    RunCounted(START, ops);
    DisjointExactly(ops);
    var h := Run(START, ops);
    HeldBelowCount(h);
    forall a, b | a in h.held && b in h.held && h.held[a] < h.held[b] ensures (h.held[b] - h.held[a]) % 128 != 0 {
      assert h.count - h.held[a] <= 128;
      assert 0 < h.held[b] - h.held[a] < 128;
    }
  }

  lemma HeldBelowCount(h: History)
    requires Counted(h)
    ensures forall id :: id in h.held ==> h.held[id] < h.count
  {
  }
}
