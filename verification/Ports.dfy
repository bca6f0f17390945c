/** The UDP port allocator. The probe of the operating system is an arbitrary oracle. */
module Ports {
  import opened Results

  datatype PortRange = PortRange(start: int, end: int)

  /** What AllocatePorts hands out. */
  datatype PortAllocation = PortAllocation(rtpPort: int, rtcpPort: int, allocatedAt: int, sessionID: string)

  /** The allocator as a value: its RTP range, the ports marked as used and the time of the last cleanup. */
  datatype Pool = Pool(range: PortRange, used: set<int>, lastCleanup: int)

  /** Answers whether the system lets a port be bound. */
  type Probe = int -> bool

  /** Five minutes, in nanoseconds. */
  const CLEANUP_INTERVAL: int := 300_000_000_000

  // ---------------------------------------------------------------------------
  // Allocation
  // ---------------------------------------------------------------------------

  predicate Available(range: PortRange, used: set<int>, free: Probe, port: int) {
    port !in used && range.start <= port <= range.end && free(port)
  }

  predicate PairAvailable(range: PortRange, used: set<int>, free: Probe, port: int) {
    Available(range, used, free, port) && Available(range, used, free, port + 1)
  }

  predicate CleanupDue(pool: Pool, now: int) {
    now - pool.lastCleanup >= CLEANUP_INTERVAL
  }

  /** cleanupExpiredPorts: every five minutes all marks are dropped. */
  function Cleaned(pool: Pool, now: int): Pool {
    if CleanupDue(pool, now) then pool.(used := {}, lastCleanup := now) else pool
  }

  /** The scan of AllocatePorts, two ports at a time from `port` on. */
  function Scan(range: PortRange, used: set<int>, free: Probe, port: int): Option<int>
    decreases range.end - port
  {
    if port > range.end then None
    else if PairAvailable(range, used, free, port) then Some(port)
    else Scan(range, used, free, port + 2)
  }

  /** One AllocatePorts: the pool afterwards, and the RTP port if there is one. */
  function Allocate(pool: Pool, now: int, free: Probe): (Pool, Option<int>) {
    var clean := Cleaned(pool, now);
    var found := Scan(clean.range, clean.used, free, clean.range.start);
    (if found.Some? then clean.(used := clean.used + {found.value, found.value + 1}) else clean, found)
  }

  /** AllocatePortsWithRetry, with a clock reading and a probe for each attempt. */
  function AllocateWithRetry(pool: Pool, clock: seq<int>, probes: seq<Probe>): (Pool, Option<int>)
    requires |clock| == |probes|
    decreases |clock|
  {
    if clock == [] then (pool, None)
    else
      var (after, found) := Allocate(pool, clock[0], probes[0]);
      if found.Some? then (after, found) else AllocateWithRetry(after, clock[1..], probes[1..])
  }

  /** The clock reading of the attempt that succeeds, or 0. */
  function SuccessTime(pool: Pool, clock: seq<int>, probes: seq<Probe>): int
    requires |clock| == |probes|
    decreases |clock|
  {
    if clock == [] then 0
    else
      var (after, found) := Allocate(pool, clock[0], probes[0]);
      if found.Some? then clock[0] else SuccessTime(after, clock[1..], probes[1..])
  }

  function Release(pool: Pool, rtpPort: int, rtcpPort: int): Pool {
    pool.(used := pool.used - {rtpPort, rtcpPort})
  }

  predicate PortOk(port: int) {
    1024 <= port <= 65535
  }

  /** ValidatePortRange. */
  predicate RangesOk(rtp: PortRange, rtcp: PortRange) {
    && PortOk(rtp.start) && rtp.start <= rtp.end <= 65535
    && PortOk(rtcp.start) && rtcp.start <= rtcp.end <= 65535
  }

  class PortManager {
    var rtpRange: PortRange
    var rtcpRange: PortRange
    var usedPorts: map<int, bool>
    var lastCleanup: int

    /** Marks are only ever set to true; a released port has no entry. */
    ghost predicate Valid()
      reads this
    {
      forall p :: p in usedPorts ==> usedPorts[p]
    }

    /** The value of the allocator. */
    ghost function Value(): Pool
      reads this
    {
      Pool(rtpRange, usedPorts.Keys, lastCleanup)
    }

    constructor (rtpStart: int, rtpEnd: int, rtcpStart: int, rtcpEnd: int, now: int)
      ensures Valid() && Value() == Pool(PortRange(rtpStart, rtpEnd), {}, now)
    {
      rtpRange, rtcpRange := PortRange(rtpStart, rtpEnd), PortRange(rtcpStart, rtcpEnd);
      usedPorts, lastCleanup := map[], now;
    }

    method IsPortAvailable(port: int, free: Probe) returns (ok: bool)
      requires Valid()
      ensures ok <==> Available(rtpRange, usedPorts.Keys, free, port)
    {
      if port in usedPorts && usedPorts[port] {
        return false;
      }
      if port < rtpRange.start || port > rtpRange.end {
        return false;
      }
      ok := free(port);
    }

    method CleanupExpiredPorts(now: int)
      requires Valid()
      modifies this`usedPorts, this`lastCleanup
      ensures Valid() && Value() == Cleaned(old(Value()), now)
    {
      if now - lastCleanup < CLEANUP_INTERVAL {
        return;
      }
      lastCleanup := now;
      usedPorts := map[];
    }

    method AllocatePorts(sessionID: string, now: int, free: Probe) returns (r: Option<PortAllocation>)
      requires Valid()
      modifies this`usedPorts, this`lastCleanup
      ensures Valid() && Value() == Allocate(old(Value()), now, free).0
      ensures r == match Allocate(old(Value()), now, free).1
                   case None => None
                   case Some(p) => Some(PortAllocation(p, p + 1, now, sessionID))
    {
      CleanupExpiredPorts(now);
      var rtpPort := rtpRange.start;
      while rtpPort <= rtpRange.end
        invariant Valid() && Value() == Cleaned(old(Value()), now)
        invariant Scan(rtpRange, usedPorts.Keys, free, rtpPort) == Scan(rtpRange, usedPorts.Keys, free, rtpRange.start)
        decreases rtpRange.end - rtpPort
      {
        var rtcpPort := rtpPort + 1;
        var rtpFree := IsPortAvailable(rtpPort, free);
        var rtcpFree := IsPortAvailable(rtcpPort, free);
        if rtpFree && rtcpFree {
          usedPorts := usedPorts[rtpPort := true][rtcpPort := true];
          return Some(PortAllocation(rtpPort, rtcpPort, now, sessionID));
        }
        rtpPort := rtpPort + 2;
      }
      r := None;
    }

    /** The attempts in a row; what happens between them is not modelled. */
    method AllocatePortsWithRetry(sessionID: string, maxRetries: nat, clock: seq<int>, probes: seq<Probe>)
      returns (r: Option<PortAllocation>)
      requires Valid() && |clock| == |probes| == maxRetries
      modifies this`usedPorts, this`lastCleanup
      ensures Valid() && Value() == AllocateWithRetry(old(Value()), clock, probes).0
      ensures r == match AllocateWithRetry(old(Value()), clock, probes).1
                   case None => None
                   case Some(p) => Some(PortAllocation(p, p + 1, SuccessTime(old(Value()), clock, probes), sessionID))
    {
      hide Allocate;
      for attempt := 0 to maxRetries
        invariant Valid()
        invariant AllocateWithRetry(Value(), clock[attempt..], probes[attempt..])
               == AllocateWithRetry(old(Value()), clock, probes)
        invariant SuccessTime(Value(), clock[attempt..], probes[attempt..]) == SuccessTime(old(Value()), clock, probes)
      {
        assert clock[attempt..][1..] == clock[attempt + 1..] && probes[attempt..][1..] == probes[attempt + 1..];
        r := AllocatePorts(sessionID, clock[attempt], probes[attempt]);
        if r.Some? {
          return;
        }
      }
      r := None;
    }

    method ReleasePorts(allocation: PortAllocation)
      requires Valid()
      modifies this`usedPorts
      ensures Valid() && Value() == Release(old(Value()), allocation.rtpPort, allocation.rtcpPort)
    {
      usedPorts := usedPorts - {allocation.rtpPort};
      usedPorts := usedPorts - {allocation.rtcpPort};
    }

    /** Ranges that do not validate are refused and change nothing; marks are kept either way. */
    method SetPortRange(rtp: PortRange, rtcp: PortRange) returns (ok: bool)
      modifies this`rtpRange, this`rtcpRange
      ensures ok <==> RangesOk(rtp, rtcp)
      ensures rtpRange == (if ok then rtp else old(rtpRange)) && rtcpRange == (if ok then rtcp else old(rtcpRange))
    {
      ok := true;
      if rtp.start < 1024 || rtp.start > 65535 {
        ok := false;
      } else if rtp.end < rtp.start || rtp.end > 65535 {
        ok := false;
      } else if rtcp.start < 1024 || rtcp.start > 65535 {
        ok := false;
      } else if rtcp.end < rtcp.start || rtcp.end > 65535 {
        ok := false;
      }
      if ok {
        rtpRange, rtcpRange := rtp, rtcp;
      }
    }
  }

  // ---------------------------------------------------------------------------
  // What the scan finds
  // ---------------------------------------------------------------------------

  predicate Aligned(start: int, port: int) {
    (port - start) % 2 == 0
  }

  /** A pair the scan can hand out: aligned with the start, and available. */
  predicate Candidate(range: PortRange, used: set<int>, free: Probe, port: int) {
    range.start <= port && Aligned(range.start, port) && PairAvailable(range, used, free, port)
  }

  lemma {:induction false} ScanFrom(range: PortRange, used: set<int>, free: Probe, port: int)
    requires range.start <= port && Aligned(range.start, port)
    ensures var r := Scan(range, used, free, port);
            && (r.Some? ==> port <= r.value && Candidate(range, used, free, r.value)
                            && forall q :: port <= q < r.value ==> !Candidate(range, used, free, q))
            && (r.None? ==> forall q :: port <= q ==> !Candidate(range, used, free, q))
    decreases range.end - port
  {
    if port <= range.end && !PairAvailable(range, used, free, port) {
      ScanFrom(range, used, free, port + 2);
      assert !Aligned(range.start, port + 1);
    }
  }

  /** Whatever the system says, allocation finds the least available aligned pair, and fails only without one. */
  lemma ScanIsLeast(range: PortRange, used: set<int>, free: Probe)
    ensures match Scan(range, used, free, range.start)
            case Some(p) => Candidate(range, used, free, p) && forall q :: q < p ==> !Candidate(range, used, free, q)
            case None => forall q :: !Candidate(range, used, free, q)
  {
    ScanFrom(range, used, free, range.start);
  }

  /** Without a cleanup a new pair avoids every port that is in use; the marks grow by just that pair. */
  lemma AllocateIsFresh(pool: Pool, now: int, free: Probe)
    requires !CleanupDue(pool, now)
    ensures match Allocate(pool, now, free)
            case (after, None) => after == pool
            case (after, Some(p)) =>
              p !in pool.used && p + 1 !in pool.used && after == pool.(used := pool.used + {p, p + 1})
  {
    ScanIsLeast(pool.range, pool.used, free);
  }

  /** A cleanup forgets who holds what: the first free pair of the range is handed out whoever has it. */
  lemma CleanupForgets(pool: Pool, now: int, free: Probe)
    requires CleanupDue(pool, now)
    ensures Allocate(pool, now, free).1 == Scan(pool.range, {}, free, pool.range.start)
    ensures pool.range.start < pool.range.end && free(pool.range.start) && free(pool.range.start + 1)
            ==> Allocate(pool, now, free).1 == Some(pool.range.start)
  {
  }

  /** A cleanup starts a new interval: for five minutes after it no other one is due, and until then nothing moves. */
  lemma NextCleanup(pool: Pool, now: int, free: Probe)
    ensures var after := Allocate(pool, now, free).0;
            && after.lastCleanup == (if now - pool.lastCleanup >= 300_000_000_000 then now else pool.lastCleanup)
            && after.range == pool.range
            && forall t :: CleanupDue(after, t) <==> t >= after.lastCleanup + 300_000_000_000
  {
    hide Scan;
  }

  /** What allocation owes the holders of marked ports: whatever the system says, a new pair is not marked. */
  ghost predicate HandsOutFresh(pool: Pool, now: int) {
    forall free: Probe ::
      match Allocate(pool, now, free).1
      case None => true
      case Some(p) => p !in pool.used && p + 1 !in pool.used
  }

  /** The pair at `port` holds a marked port. */
  predicate Marked(pool: Pool, port: int) {
    port in pool.used || port + 1 in pool.used
  }

  /** A new pair is sure to be unmarked exactly when no cleanup is due, or no pair of the range is marked. */
  lemma FreshExactly(pool: Pool, now: int)
    ensures HandsOutFresh(pool, now)
       <==> !CleanupDue(pool, now) || forall p :: p in Slots(pool.range.start, pool.range.end) ==> !Marked(pool, p)
  {
    forall free: Probe ensures Allocate(pool, now, free).1.Some? ==>
                Allocate(pool, now, free).1.value in Slots(pool.range.start, pool.range.end)
    {
      ScanIsLeast(pool.range, Cleaned(pool, now).used, free);
    }
    if !CleanupDue(pool, now) {
      forall free: Probe { AllocateIsFresh(pool, now, free); }
    } else if p :| p in Slots(pool.range.start, pool.range.end) && Marked(pool, p) {
      OnlyPair(pool, now, p);
      assert Allocate(pool, now, q => q == p || q == p + 1).1 == Some(p);
    }
  }

  /** After a cleanup, a system that leaves only the pair at `p` alone makes the scan hand out that pair. */
  lemma OnlyPair(pool: Pool, now: int, p: int)
    requires CleanupDue(pool, now) && p in Slots(pool.range.start, pool.range.end)
    ensures Allocate(pool, now, q => q == p || q == p + 1).1 == Some(p)
  {
    var free: Probe := q => q == p || q == p + 1;
    ScanIsLeast(pool.range, {}, free);
    assert Candidate(pool.range, {}, free, p);
  }

  /** Ports 5000 and 5001 are in use; five minutes after the last cleanup they are handed out again. */
  lemma HandedOutTwice(now: int)
    ensures var pool := Pool(PortRange(5000, 5999), {5000, 5001}, now);
            && Allocate(pool, now + 299_999_999_999, _ => true).1 == Some(5002)
            && Allocate(pool, now + 300_000_000_000, _ => true).1 == Some(5000)
            && !HandsOutFresh(pool, now + 300_000_000_000)
  {
    var pool := Pool(PortRange(5000, 5999), {5000, 5001}, now);
    assert !PairAvailable(pool.range, pool.used, _ => true, 5000);
    CleanupForgets(pool, now + 300_000_000_000, _ => true);
    assert Allocate(pool, now + 300_000_000_000, _ => true).1 == Some(5000);
  }

  /** Some attempt that is made finds a cleanup due while ports are marked. */
  predicate DropsMarks(pool: Pool, clock: seq<int>, probes: seq<Probe>)
    requires |clock| == |probes|
    decreases |clock|
  {
    clock != []
    && ((CleanupDue(pool, clock[0]) && pool.used != {})
        || (Allocate(pool, clock[0], probes[0]).1.None?
            && DropsMarks(Allocate(pool, clock[0], probes[0]).0, clock[1..], probes[1..])))
  }

  /** One attempt that drops no marks. */
  lemma AllocateKeeps(pool: Pool, now: int, free: Probe)
    requires pool.used == {} || !CleanupDue(pool, now)
    ensures var (after, found) := Allocate(pool, now, free);
            && after.range == pool.range
            && (!CleanupDue(pool, now) ==> after.lastCleanup == pool.lastCleanup)
            && match found
               case None => after.used == pool.used
               case Some(p) => p !in pool.used && p + 1 !in pool.used && after.used == pool.used + {p, p + 1}
  {
    ScanIsLeast(pool.range, pool.used, free);
    hide Scan;
  }

  /** As long as no marks are dropped, a new pair avoids every used port and is all that is added to them. */
  lemma {:induction false} RetryIsFresh(pool: Pool, clock: seq<int>, probes: seq<Probe>)
    requires |clock| == |probes| && !DropsMarks(pool, clock, probes)
    ensures var (after, found) := AllocateWithRetry(pool, clock, probes);
            && after.range == pool.range
            && ((forall now :: now in clock ==> !CleanupDue(pool, now)) ==> after.lastCleanup == pool.lastCleanup)
            && match found
               case None => after.used == pool.used
               case Some(p) => p !in pool.used && p + 1 !in pool.used && after.used == pool.used + {p, p + 1}
    decreases |clock|
  {
    hide Allocate;
    if clock != [] {
      var after := Allocate(pool, clock[0], probes[0]).0;
      assert clock[0] in clock;
      AllocateKeeps(pool, clock[0], probes[0]);
      if Allocate(pool, clock[0], probes[0]).1.None? {
        RetryIsFresh(after, clock[1..], probes[1..]);
      }
    }
  }

  lemma {:induction false} NothingToDrop(pool: Pool, clock: seq<int>, probes: seq<Probe>)
    requires |clock| == |probes|
    requires pool.used == {} || forall now :: now in clock ==> !CleanupDue(pool, now)
    ensures !DropsMarks(pool, clock, probes)
    decreases |clock|
  {
    hide Allocate;
    if clock != [] {
      assert clock[0] in clock;
      AllocateKeeps(pool, clock[0], probes[0]);
      if Allocate(pool, clock[0], probes[0]).1.None? {
        NothingToDrop(Allocate(pool, clock[0], probes[0]).0, clock[1..], probes[1..]);
      }
    }
  }

  /** When marks are dropped, all are: afterwards only the new pair is marked, if there is one. */
  lemma {:induction false} RetryAfterDrop(pool: Pool, clock: seq<int>, probes: seq<Probe>)
    requires |clock| == |probes| && DropsMarks(pool, clock, probes)
    ensures var (after, found) := AllocateWithRetry(pool, clock, probes);
            after.used == match found case None => {} case Some(p) => {p, p + 1}
    decreases |clock|
  {
    var after := Allocate(pool, clock[0], probes[0]).0;
    if CleanupDue(pool, clock[0]) && pool.used != {} {
      if Allocate(pool, clock[0], probes[0]).1.None? {
        NothingToDrop(after, clock[1..], probes[1..]);
        RetryIsFresh(after, clock[1..], probes[1..]);
      }
    } else {
      RetryAfterDrop(after, clock[1..], probes[1..]);
    }
  }

  // ---------------------------------------------------------------------------
  // Capacity
  // ---------------------------------------------------------------------------

  /** The aligned pairs of a range, by their RTP port. */
  ghost function Slots(start: int, end: int): set<int> {
    set p | start <= p < end && Aligned(start, p)
  }

  function Capacity(range: PortRange): int {
    (range.end - range.start + 1) / 2
  }

  /** The last two ports of a range hold exactly one slot. */
  lemma TopSlot(start: int, end: int) returns (top: int)
    requires start < end
    ensures top !in Slots(start, end - 2) && Slots(start, end) == Slots(start, end - 2) + {top}
  {
    top := if Aligned(start, end - 1) then end - 1 else end - 2;
    assert Aligned(start, top) && !Aligned(start, if top == end - 1 then end - 2 else end - 1);
  }

  lemma {:induction false} SlotCount(start: int, end: int)
    ensures start <= end + 1 ==> |Slots(start, end)| == (end - start + 1) / 2
    ensures start > end ==> Slots(start, end) == {}
    decreases end - start
  {
    if start < end {
      SlotCount(start, end - 2);
      var top := TopSlot(start, end);
      hide Slots;
      assert |Slots(start, end - 2) + {top}| == |Slots(start, end - 2)| + 1;
    } else {
      assert Slots(start, end) == {};
    }
  }

  /** The marks are exactly the ports of the live pairs, and all of those are slots of the range. */
  ghost predicate Backed(pool: Pool, live: set<int>) {
    && live <= Slots(pool.range.start, pool.range.end)
    && (forall p :: p in live ==> p in pool.used && p + 1 in pool.used)
    && (forall q :: q in pool.used ==> q in live || q - 1 in live)
  }

  /** Exact capacity: if the system leaves all ports alone, there is room iff fewer pairs are live than slots exist. */
  lemma RoomExactly(pool: Pool, live: set<int>, now: int, free: Probe)
    requires Backed(pool, live) && !CleanupDue(pool, now) && forall p :: free(p)
    ensures Allocate(pool, now, free).1.Some? <==> |live| < Capacity(pool.range)
  {
    var (start, end) := (pool.range.start, pool.range.end);
    var slots := Slots(start, end);
    SlotCount(start, end);
    ScanIsLeast(pool.range, pool.used, free);
    forall p | p in slots && p !in live ensures Candidate(pool.range, pool.used, free, p) {
      assert !Aligned(start, p - 1) && !Aligned(start, p + 1);
      assert p - 1 !in live && p + 1 !in live;
      assert p !in pool.used && p + 1 !in pool.used;
      assert free(p) && free(p + 1);
    }
    SubsetSize(live, slots);
    match Allocate(pool, now, free).1
    case Some(p) =>
      assert p in slots && p !in live;
      assert live != slots;
    case None =>
      assert slots <= live;
  }

  lemma SubsetSize(a: set<int>, b: set<int>)
    requires a <= b
    ensures |a| <= |b|
    ensures a != b <==> |a| < |b|
  {
    assert b == a + (b - a);
    assert |b| == |a| + |b - a|;
  }

  datatype PoolOp = Take | Give(port: int)

  /** A run that takes pairs and gives back live ones; giving anything else is not part of a run. */
  ghost function Run(pool: Pool, live: set<int>, now: int, free: Probe, ops: seq<PoolOp>): (Pool, set<int>)
    decreases |ops|
  {
    if ops == [] then (pool, live)
    else
      match ops[0]
      case Take =>
        (match Allocate(pool, now, free)
         case (after, Some(p)) => Run(after, live + {p}, now, free, ops[1..])
         case (after, None) => Run(after, live, now, free, ops[1..]))
      case Give(p) =>
        if p in live then Run(Release(pool, p, p + 1), live - {p}, now, free, ops[1..])
        else Run(pool, live, now, free, ops[1..])
  }

  lemma TakeBacked(pool: Pool, live: set<int>, now: int, free: Probe)
    requires Backed(pool, live) && !CleanupDue(pool, now)
    ensures match Allocate(pool, now, free)
            case (after, Some(p)) => Backed(after, live + {p}) && after.lastCleanup == pool.lastCleanup && p !in live
            case (after, None) => after == pool
  {
    ScanIsLeast(pool.range, pool.used, free);
  }

  lemma GiveBacked(pool: Pool, live: set<int>, p: int)
    requires Backed(pool, live) && p in live
    ensures Backed(Release(pool, p, p + 1), live - {p})
  {
    var start := pool.range.start;
    assert !Aligned(start, p + 1) && !Aligned(start, p - 1);
    assert forall q :: q in live ==> Aligned(start, q);
  }

  /** After any run from an empty allocator the marks are exactly the live pairs, so the capacity is still exact. */
  lemma {:induction false} CapacityOfRun(pool: Pool, live: set<int>, now: int, free: Probe, ops: seq<PoolOp>)
    requires Backed(pool, live) && !CleanupDue(pool, now) && forall p :: free(p)
    ensures var (after, alive) := Run(pool, live, now, free, ops);
            && Backed(after, alive)
            && (Allocate(after, now, free).1.Some? <==> |alive| < Capacity(pool.range))
    decreases |ops|
  {
    hide Allocate, Release, Backed;
    if ops == [] {
      RoomExactly(pool, live, now, free);
    } else {
      match ops[0]
      case Take =>
        AllocateKeepsRange(pool, now, free);
        TakeBacked(pool, live, now, free);
        var (after, found) := Allocate(pool, now, free);
        CapacityOfRun(after, if found.Some? then live + {found.value} else live, now, free, ops[1..]);
      case Give(p) =>
        ReleaseKeepsRange(pool, p);
        if p in live {
          GiveBacked(pool, live, p);
          CapacityOfRun(Release(pool, p, p + 1), live - {p}, now, free, ops[1..]);
        } else {
          CapacityOfRun(pool, live, now, free, ops[1..]);
        }
    }
  }

  lemma AllocateKeepsRange(pool: Pool, now: int, free: Probe)
    ensures Allocate(pool, now, free).0.range == pool.range
  {
  }

  lemma ReleaseKeepsRange(pool: Pool, p: int)
    ensures Release(pool, p, p + 1).range == pool.range && Release(pool, p, p + 1).lastCleanup == pool.lastCleanup
  {
  }

  // ---------------------------------------------------------------------------
  // Ranges and clocks
  // ---------------------------------------------------------------------------

  /** The ports of a range, both ends included. */
  predicate Holds(range: PortRange, port: int) {
    range.start <= port <= range.end
  }

  /** A range that holds a port, and none below 1024 or above 65535. */
  ghost predicate Sound(range: PortRange) {
    Holds(range, range.start) && forall p :: Holds(range, p) ==> 1024 <= p <= 65535
  }

  lemma RangesOkExactly(rtp: PortRange, rtcp: PortRange)
    ensures RangesOk(rtp, rtcp) <==> Sound(rtp) && Sound(rtcp)
  {
    if Sound(rtp) && Sound(rtcp) {
      assert Holds(rtp, rtp.end) && Holds(rtcp, rtcp.end);
    }
  }

  /** The allocation carries the time of the first attempt that finds a pair; all before it find none. */
  lemma {:induction false} FirstSuccess(pool: Pool, clock: seq<int>, probes: seq<Probe>) returns (i: nat)
    requires |clock| == |probes| && AllocateWithRetry(pool, clock, probes).1.Some?
    ensures i < |clock| && SuccessTime(pool, clock, probes) == clock[i]
    ensures AllocateWithRetry(pool, clock[..i], probes[..i]).1.None?
    ensures var before := AllocateWithRetry(pool, clock[..i], probes[..i]).0;
            AllocateWithRetry(pool, clock, probes) == Allocate(before, clock[i], probes[i])
    decreases |clock|
  {
    hide Allocate;
    var (after, found) := Allocate(pool, clock[0], probes[0]);
    i := 0;
    if found.None? {
      var k := FirstSuccess(after, clock[1..], probes[1..]);
      i := k + 1;
      assert clock[..i][1..] == clock[1..][..k] && probes[..i][1..] == probes[1..][..k];
      assert clock[..i][0] == clock[0] && probes[..i][0] == probes[0];
    }
  }
}
