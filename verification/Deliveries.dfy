/** Arbitrary requests: what the handlers keep whoever sends them, and what they keep only of well-behaved clients. */
module Deliveries {
  import opened Results
  import opened Strconv
  import opened TransportHeader
  import opened Negotiation
  import opened Protocol
  import RTSPMessage
  import Ports

  /** A request from anybody, on connection `c`. */
  datatype Delivery = Delivery(c: nat, m: RTSPMessage.Message, env: Environment)

  function Deliver(s: Server, conns: map<nat, Connection>, streams: set<string>, ds: seq<Delivery>): Server
    requires forall d :: d in ds ==> |d.env.clock| == |d.env.probes| == 3
    decreases |ds|
  {
    if ds == [] then s
    else
      var d := ds[0];
      assert d in ds;
      var conn := if d.c in conns then conns[d.c] else NEW_CONNECTION;
      var (s', conn', _) := HandleMessage(s, conn, streams, d.m, d.env);
      Deliver(s', conns[d.c := conn'], streams, ds[1..])
  }

  /** Stored sessions that are Ready or Playing. */
  ghost predicate OnlyHeld(s: Server) {
    forall id :: id in s.sessions ==> Held(s.sessions[id])
  }

  lemma MessageKeepsHeld(s: Server, conn: Connection, streams: set<string>, m: RTSPMessage.Message, env: Environment)
    requires OnlyHeld(s) && |env.clock| == |env.probes| == 3
    ensures OnlyHeld(HandleMessage(s, conn, streams, m, env).0)
  {
    hide Printed, Parsed, Itoa, Ports.AllocateWithRetry, PortsText, Granted, StreamName;
  }

  /** Whatever requests arrive, from whatever clients, no stored session is ever Init or Recording. */
  lemma {:induction false} AnyRequestsKeepHeld(s: Server, conns: map<nat, Connection>, streams: set<string>,
                                               ds: seq<Delivery>)
    requires OnlyHeld(s) && forall d :: d in ds ==> |d.env.clock| == |d.env.probes| == 3
    ensures OnlyHeld(Deliver(s, conns, streams, ds))
    decreases |ds|
  {
    hide HandleMessage, OnlyHeld;
    if ds != [] {
      var d := ds[0];
      assert d in ds;
      var conn := if d.c in conns then conns[d.c] else NEW_CONNECTION;
      var (s', conn', _) := HandleMessage(s, conn, streams, d.m, d.env);
      MessageKeepsHeld(s, conn, streams, d.m, d.env);
      AnyRequestsKeepHeld(s', conns[d.c := conn'], streams, ds[1..]);
    }
  }

  // ---------------------------------------------------------------------------
  // Ports
  // ---------------------------------------------------------------------------

  /** The server and its connections, with the history of IDs, of pairs handed out and of pairs released. */
  datatype Traffic = Traffic(
    server: Server,
    conns: map<nat, Connection>,
    ids: set<string>,
    granted: set<PortAllocation>,
    released: seq<PortAllocation>)

  function ConnOf(v: Traffic, c: nat): Connection {
    if c in v.conns then v.conns[c] else NEW_CONNECTION
  }

  /** The pair that a message makes the server release. */
  function FreedBy(conn: Connection, m: RTSPMessage.Message): Option<PortAllocation> {
    if m.method_ == "TEARDOWN" then ReleasedBy(conn, Header(m, "Session")) else None
  }

  /** The pair that is recorded anew. */
  function NewlyGranted(before: Connection, after: Connection): set<PortAllocation> {
    if after.allocation != before.allocation && after.allocation.Some? then {after.allocation.value} else {}
  }

  function DeliverOne(v: Traffic, streams: set<string>, d: Delivery): Traffic
    requires |d.env.clock| == |d.env.probes| == 3
  {
    var conn := ConnOf(v, d.c);
    var (s', conn', _) := HandleMessage(v.server, conn, streams, d.m, d.env);
    var freed := FreedBy(conn, d.m);
    Traffic(s', v.conns[d.c := conn'], v.ids + {d.env.id}, v.granted + NewlyGranted(conn, conn'),
            if freed.Some? then v.released + [freed.value] else v.released)
  }

  /** The assumptions: session IDs are new, and no cleanup drops marks. */
  ghost predicate Undisturbed(v: Traffic, d: Delivery) {
    && |d.env.clock| == |d.env.probes| == 3 && d.env.id !in v.ids
    && (d.m.method_ == "SETUP" ==> !Ports.DropsMarks(v.server.pool, d.env.clock, d.env.probes))
  }

  ghost predicate UndisturbedAll(v: Traffic, streams: set<string>, ds: seq<Delivery>)
    decreases |ds|
  {
    ds == [] || (Undisturbed(v, ds[0]) && UndisturbedAll(DeliverOne(v, streams, ds[0]), streams, ds[1..]))
  }

  /** What holds of the history whatever is sent. */
  ghost predicate Recorded(v: Traffic) {
    && (forall id :: id in v.server.sessions ==> id in v.ids)
    && (forall a :: a in v.granted ==> a.sessionID in v.ids && a.rtcpPort == a.rtpPort + 1)
    && (forall a, b :: a in v.granted && b in v.granted && a.sessionID == b.sessionID ==> a == b)
    && (forall c :: c in v.conns && v.conns[c].allocation.Some? ==> v.conns[c].allocation.value in v.granted)
    && (forall c :: c in v.conns ==> !v.conns[c].useTCP)
  }

  /** The marks are the disjoint live pairs, nothing was released twice, and stored sessions have their pairs. */
  ghost predicate PortsKept(v: Traffic) {
    && PortsAreLive(v.granted, v.released, v.server.pool.used)
    && forall a :: a in v.granted && a.sessionID in v.server.sessions ==> a !in v.released
  }

  /** A TEARDOWN that releases a live pair, and not that of another stored session. */
  ghost predicate OwnTeardown(v: Traffic, d: Delivery) {
    var freed := FreedBy(ConnOf(v, d.c), d.m);
    freed.Some? ==>
      && Live(v.granted, v.released, freed.value)
      && (freed.value.sessionID == Header(d.m, "Session") || freed.value.sessionID !in v.server.sessions)
  }

  /** One message, by its effect on sessions and ports. */
  lemma TeardownEffect(v: Traffic, streams: set<string>, d: Delivery)
    requires Recorded(v) && |d.env.clock| == |d.env.probes| == 3 && d.m.method_ == "TEARDOWN"
    ensures var (w, id) := (DeliverOne(v, streams, d), Header(d.m, "Session"));
            var freed := FreedBy(ConnOf(v, d.c), d.m);
            && w.server.sessions == (if id == "" then v.server.sessions else v.server.sessions - {id})
            && w.conns == v.conns[d.c := ConnOf(v, d.c)] && w.ids == v.ids + {d.env.id} && w.granted == v.granted
            && w.released == (if freed.Some? then v.released + [freed.value] else v.released)
            && w.server.pool.used ==
               (if freed.Some? then v.server.pool.used - {freed.value.rtpPort, freed.value.rtcpPort}
                else v.server.pool.used)
            && (freed.Some? ==> id != "" && freed.value in v.granted)
  {
    hide Header;
  }

  lemma OtherEffect(v: Traffic, streams: set<string>, d: Delivery)
    requires Recorded(v) && |d.env.clock| == |d.env.probes| == 3
    requires d.m.method_ != "TEARDOWN" && (d.m.method_ == "SETUP" ==> Header(d.m, "Transport") == "")
    ensures var w := DeliverOne(v, streams, d);
            && w.server.sessions.Keys == v.server.sessions.Keys && w.server.pool == v.server.pool
            && w.conns == v.conns[d.c := ConnOf(v, d.c)] && w.ids == v.ids + {d.env.id}
            && w.granted == v.granted && w.released == v.released
  {
    hide Header, StreamName;
  }

  lemma SetupEffect(v: Traffic, streams: set<string>, d: Delivery)
    requires Recorded(v) && |d.env.clock| == |d.env.probes| == 3 && d.env.id !in v.ids
    requires d.m.method_ == "SETUP" && Header(d.m, "Transport") != ""
    ensures var w := DeliverOne(v, streams, d);
            var (after, found) := Ports.AllocateWithRetry(v.server.pool, d.env.clock, d.env.probes);
            var conn := ConnOf(v, d.c).(sessionID := Some(d.env.id));
            && w.server.sessions.Keys == v.server.sessions.Keys + {d.env.id} && w.server.pool == after
            && w.ids == v.ids + {d.env.id} && w.released == v.released
            && match found
               case None => w.granted == v.granted && w.conns == v.conns[d.c := conn]
               case Some(p) =>
                 var a := Granted(v.server.pool, p, d.env);
                 w.granted == v.granted + {a} && w.conns == v.conns[d.c := conn.(allocation := Some(a))]
  {
    NotInterleaved(Header(d.m, "Transport"));
    hide Ports.AllocateWithRetry, Ports.SuccessTime, Printed, Parsed, PortsText, Header, StreamName, IsTCPTransport;
  }

  lemma RecordedKept(v: Traffic, streams: set<string>, d: Delivery)
    requires Recorded(v) && Undisturbed(v, d)
    ensures Recorded(DeliverOne(v, streams, d))
  {
    hide DeliverOne, Ports.AllocateWithRetry, Ports.DropsMarks, Header, Granted;
    var m := d.m;
    if m.method_ == "TEARDOWN" {
      TeardownEffect(v, streams, d);
    } else if m.method_ == "SETUP" && Header(m, "Transport") != "" {
      SetupEffect(v, streams, d);
      if p :| Ports.AllocateWithRetry(v.server.pool, d.env.clock, d.env.probes).1 == Some(p) {
        GrantedIs(v.server.pool, p, d.env);
      }
    } else {
      OtherEffect(v, streams, d);
    }
  }

  lemma TeardownExactly(v: Traffic, streams: set<string>, d: Delivery)
    requires Recorded(v) && PortsKept(v) && Undisturbed(v, d) && d.m.method_ == "TEARDOWN"
    ensures PortsKept(DeliverOne(v, streams, d)) <==> OwnTeardown(v, d)
  {
    hide DeliverOne, PortsAreLive, Ports.DropsMarks, Header, FreedBy, Recorded;
    TeardownEffect(v, streams, d);
    var freed := FreedBy(ConnOf(v, d.c), d.m);
    if freed.Some? {
      var a := freed.value;
      if Live(v.granted, v.released, a) {
        ReleaseLive(v.granted, v.released, v.server.pool.used, a);
      } else {
        ReleasedTwice(v.granted, v.released, v.server.pool.used - {a.rtpPort, a.rtcpPort}, a);
      }
    }
  }

  lemma ReleasedTwice(granted: set<PortAllocation>, released: seq<PortAllocation>, used: set<int>, a: PortAllocation)
    requires a in released
    ensures !PortsAreLive(granted, released + [a], used)
  {
    var i :| 0 <= i < |released| && released[i] == a;
    assert (released + [a])[i] == (released + [a])[|released|];
  }

  lemma SetupKeepsPorts(v: Traffic, streams: set<string>, d: Delivery)
    requires Recorded(v) && PortsKept(v) && Undisturbed(v, d)
    requires d.m.method_ == "SETUP" && Header(d.m, "Transport") != ""
    ensures PortsKept(DeliverOne(v, streams, d))
  {
    hide DeliverOne, Ports.AllocateWithRetry, Ports.DropsMarks, Header, Granted, Recorded;
    var pool := v.server.pool;
    SetupEffect(v, streams, d);
    Ports.RetryIsFresh(pool, d.env.clock, d.env.probes);
    OldGrants(v, d.env.id);
    match Ports.AllocateWithRetry(pool, d.env.clock, d.env.probes).1
    case None =>
    case Some(p) =>
      var a := Granted(pool, p, d.env);
      GrantedIs(pool, p, d.env);
      GrantIsLive(v.granted, v.released, pool.used, a);
      hide PortsAreLive;
  }

  lemma OldGrants(v: Traffic, id: string)
    requires Recorded(v) && PortsKept(v) && id !in v.ids
    ensures forall a :: a in v.granted || a in v.released ==> a.sessionID != id
  {
    assert forall a :: a in v.released ==> a in v.granted;
    hide PortsAreLive;
  }

  /** A message keeps the ports safe if and only if it is not a TEARDOWN that releases another's pair, or one twice. */
  lemma DeliveryExactly(v: Traffic, streams: set<string>, d: Delivery)
    requires Recorded(v) && PortsKept(v) && Undisturbed(v, d)
    ensures PortsKept(DeliverOne(v, streams, d)) <==> OwnTeardown(v, d)
  {
    hide DeliverOne, PortsAreLive, Header, Recorded, Ports.DropsMarks;
    if d.m.method_ == "TEARDOWN" {
      TeardownExactly(v, streams, d);
    } else if d.m.method_ == "SETUP" && Header(d.m, "Transport") != "" {
      SetupKeepsPorts(v, streams, d);
    } else {
      OtherEffect(v, streams, d);
    }
  }

  ghost predicate AlwaysKept(v: Traffic, streams: set<string>, ds: seq<Delivery>)
    requires UndisturbedAll(v, streams, ds)
    decreases |ds|
  {
    PortsKept(v) && (ds == [] || AlwaysKept(DeliverOne(v, streams, ds[0]), streams, ds[1..]))
  }

  ghost predicate AllOwn(v: Traffic, streams: set<string>, ds: seq<Delivery>)
    requires UndisturbedAll(v, streams, ds)
    decreases |ds|
  {
    ds == [] || (OwnTeardown(v, ds[0]) && AllOwn(DeliverOne(v, streams, ds[0]), streams, ds[1..]))
  }

  lemma {:induction false} KeptExactly(v: Traffic, streams: set<string>, ds: seq<Delivery>)
    requires Recorded(v) && PortsKept(v) && UndisturbedAll(v, streams, ds)
    ensures AlwaysKept(v, streams, ds) <==> AllOwn(v, streams, ds)
    decreases |ds|
  {
    hide Recorded, PortsKept, DeliverOne, OwnTeardown, Ports.DropsMarks;
    if ds != [] {
      var next := DeliverOne(v, streams, ds[0]);
      RecordedKept(v, streams, ds[0]);
      DeliveryExactly(v, streams, ds[0]);
      if PortsKept(next) {
        KeptExactly(next, streams, ds[1..]);
      }
    }
  }

  function StartTraffic(range: Ports.PortRange, now: int): Traffic {
    Traffic(Start(range, now).server, map[], {}, {}, [])
  }

  /**
   Port safety for arbitrary messages on arbitrary connections: it holds throughout if and only if every
   TEARDOWN that releases a pair releases a live one, of the session it names or of one that is gone.
   */
  lemma PortsOverDeliveries(range: Ports.PortRange, now: int, streams: set<string>, ds: seq<Delivery>)
    requires UndisturbedAll(StartTraffic(range, now), streams, ds)
    ensures AlwaysKept(StartTraffic(range, now), streams, ds) <==> AllOwn(StartTraffic(range, now), streams, ds)
  {
    hide UndisturbedAll, AlwaysKept, AllOwn;
    KeptExactly(StartTraffic(range, now), streams, ds);
  }

  /** What makes an attempt take the first pair: the system lets it, and no cleanup is due. */
  ghost predicate TakesFirst(pool: Ports.Pool, env: Environment) {
    && |env.clock| == |env.probes| == 3 && !Ports.CleanupDue(pool, env.clock[0])
    && env.probes[0](pool.range.start) && env.probes[0](pool.range.start + 1)
  }

  lemma FirstSetup(s: Server, header: string, env: Environment)
    requires s.pool.used == {} && s.pool.range.start < s.pool.range.end && TakesFirst(s.pool, env)
    ensures var (start, t) := (s.pool.range.start, Parsed(header));
            var (s', conn, _) := HandleSetup(s, NEW_CONNECTION, t, env);
            && s'.sessions == s.sessions[env.id := Ready] && !conn.useTCP
            && s'.pool == s.pool.(used := {start, start + 1})
            && conn.allocation.Some? && conn.allocation.value.rtpPort == start
            && conn.allocation.value.rtcpPort == start + 1
  {
    hide Ports.AllocateWithRetry, Ports.SuccessTime, Printed, Parsed, PortsText, IsTCPTransport;
    NotInterleaved(header);
    FirstAttempt(s.pool, env.clock, env.probes);
  }

  lemma TeardownOfFirst(s: Server, conn: Connection, id: string)
    requires !conn.useTCP && conn.allocation.Some? && id != ""
    requires s.pool.used == {conn.allocation.value.rtpPort, conn.allocation.value.rtcpPort}
    ensures HandleTeardown(s, conn, id).0 == s.(sessions := s.sessions - {id}, pool := s.pool.(used := {}))
  {
    var a := conn.allocation.value;
    assert s.pool.used - {a.rtpPort, a.rtcpPort} == {};
  }

  /**
   It does fail, without any cleanup. A connection that tears down twice releases the pair that another
   session has been given in between, whatever session its second request names; a third session is then
   given the same ports.
   */
  lemma SecondTeardown(s: Server, header: string, first: Environment, second: Environment, third: Environment,
                       named: string)
    requires s.pool.used == {} && s.pool.range.start < s.pool.range.end
    requires TakesFirst(s.pool, first) && TakesFirst(s.pool, second) && TakesFirst(s.pool, third)
    requires first.id != "" && second.id != third.id && named != "" && named != second.id
    ensures var t := Parsed(header);
            var (s1, a, _) := HandleSetup(s, NEW_CONNECTION, t, first);
            var s2 := HandleTeardown(s1, a, first.id).0;
            var (s3, b, _) := HandleSetup(s2, NEW_CONNECTION, t, second);
            var s4 := HandleTeardown(s3, a, named).0;
            var (s5, c, _) := HandleSetup(s4, NEW_CONNECTION, t, third);
            && second.id in s5.sessions && third.id in s5.sessions
            && b.allocation.Some? && c.allocation.Some?
            && b.allocation.value.rtpPort == c.allocation.value.rtpPort
  {
    hide HandleSetup, HandleTeardown, Parsed;
    var t := Parsed(header);
    FirstSetup(s, header, first);
    var (s1, a, _) := HandleSetup(s, NEW_CONNECTION, t, first);
    TeardownOfFirst(s1, a, first.id);
    var s2 := HandleTeardown(s1, a, first.id).0;
    assert s2.pool == s.pool;
    FirstSetup(s2, header, second);
    var (s3, b, _) := HandleSetup(s2, NEW_CONNECTION, t, second);
    TeardownOfFirst(s3, a, named);
    var s4 := HandleTeardown(s3, a, named).0;
    assert s4.pool == s.pool;
    FirstSetup(s4, header, third);
  }
}
