/**
 The session protocol as a state machine: the server's handlers, the client's methods, and runs of
 any number of clients. An exchange (request, handler, reply) is one step.
 */
module Protocol {
  import opened Results
  import opened Strconv
  import opened TransportHeader
  import opened Negotiation
  import GoStrings
  import RTSPMessage
  import Ports
  import Channels

  type PortAllocation = Ports.PortAllocation

  datatype SessionState = Init | Ready | Playing | Recording

  datatype Status = OK | BadRequest | NotFound | MethodNotAllowed | ServiceUnavailable

  // ---------------------------------------------------------------------------
  // The server
  // ---------------------------------------------------------------------------

  datatype Server = Server(sessions: map<string, SessionState>, pool: Ports.Pool, channels: Channels.ChannelTable)

  /** The server's side of one connection. */
  datatype Connection = Connection(
    sessionID: Option<string>,
    allocation: Option<PortAllocation>,
    channel: Option<Channels.TCPChannel>,
    useTCP: bool)

  const NEW_CONNECTION: Connection := Connection(None, None, None, false)

  /** The parts of a reply that the client looks at; an absent header reads as "". */
  datatype Reply = Reply(status: Status, sessionID: string, transport: string)

  /** What the system contributes to one SETUP: the new session ID, and clock and probe for each attempt. */
  datatype Environment = Environment(id: string, clock: seq<int>, probes: seq<Ports.Probe>)

  /** handleSetup, on a transport that was already parsed. */
  function HandleSetup(s: Server, conn: Connection, t: Transport, env: Environment): (Server, Connection, Reply)
    requires |env.clock| == |env.probes| == 3
  {
    var s1 := s.(sessions := s.sessions[env.id := Ready]);
    var conn1 := conn.(sessionID := Some(env.id));
    if IsTCPTransport(t) then
      var channel := Channels.NextChannel(s.channels, env.id);
      var text := Itoa(channel.rtpChannel) + "-" + Itoa(channel.rtcpChannel);
      (s1.(channels := Channels.Allocate(s.channels, env.id)),
       conn1.(useTCP := true, channel := Some(channel)),
       Reply(OK, env.id, Printed(t.(kind := Interleaved, interleaved := text))))
    else
      match Ports.AllocateWithRetry(s.pool, env.clock, env.probes)
      case (pool, None) => (s1.(pool := pool), conn1, Reply(ServiceUnavailable, "", ""))
      case (pool, Some(p)) =>
        (s1.(pool := pool),
         conn1.(allocation := Some(Granted(s.pool, p, env))),
         Reply(OK, env.id, Printed(t.(serverPorts := PortsText(p, p + 1)))))
  }

  /** The allocation object of a successful SETUP. */
  function Granted(pool: Ports.Pool, p: int, env: Environment): PortAllocation
    requires |env.clock| == |env.probes|
  {
    Ports.PortAllocation(p, p + 1, Ports.SuccessTime(pool, env.clock, env.probes), env.id)
  }

  /** handlePlay and handlePause: a known session is moved to `target`. */
  function HandleState(s: Server, id: string, target: SessionState): (Server, Reply) {
    if id == "" then (s, Reply(BadRequest, "", ""))
    else if id !in s.sessions then (s, Reply(NotFound, "", ""))
    else (s.(sessions := s.sessions[id := target]), Reply(OK, id, ""))
  }

  /** What handleTeardown gives back to the port allocator. */
  function ReleasedBy(conn: Connection, id: string): Option<PortAllocation> {
    if id == "" || (conn.useTCP && conn.channel.Some?) then None else conn.allocation
  }

  /** handleTeardown; the connection keeps its allocation. */
  function HandleTeardown(s: Server, conn: Connection, id: string): (Server, Reply) {
    if id == "" then (s, Reply(OK, id, ""))
    else
      var s1 := s.(sessions := s.sessions - {id});
      if conn.useTCP && conn.channel.Some? then (s1.(channels := Channels.Release(s.channels, id)), Reply(OK, id, ""))
      else if conn.allocation.Some? then
        var a := conn.allocation.value;
        (s1.(pool := Ports.Release(s.pool, a.rtpPort, a.rtcpPort)), Reply(OK, id, ""))
      else (s1, Reply(OK, id, ""))
  }

  /** GetHeader: a missing header reads as "". */
  function Header(m: RTSPMessage.Message, key: string): string {
    if key in m.headers then m.headers[key] else ""
  }

  /** extractStreamName: what follows the last slash. */
  function StreamName(url: string): string {
    var parts := GoStrings.Split(url, '/');
    parts[|parts| - 1]
  }

  /** handleDescribe; the description in the body is not part of the reply. */
  function DescribeReply(found: bool): Reply {
    Reply(if found then OK else NotFound, "", "")
  }

  /** handleMessage: the dispatch on the method of a request. */
  function HandleMessage(s: Server, conn: Connection, streams: set<string>, m: RTSPMessage.Message, env: Environment)
    : (Server, Connection, Reply)
    requires |env.clock| == |env.probes| == 3
  {
    match m.method_
    case "OPTIONS" => (s, conn, Reply(OK, "", ""))
    case "DESCRIBE" => (s, conn, DescribeReply(StreamName(m.url) in streams))
    case "SETUP" =>
      var header := Header(m, "Transport");
      if header == "" then (s, conn, Reply(BadRequest, "", "")) else HandleSetup(s, conn, Parsed(header), env)
    case "PLAY" =>
      var (s', reply) := HandleState(s, Header(m, "Session"), Playing);
      (s', conn, reply)
    case "PAUSE" =>
      var (s', reply) := HandleState(s, Header(m, "Session"), Ready);
      (s', conn, reply)
    case "TEARDOWN" =>
      var (s', reply) := HandleTeardown(s, conn, Header(m, "Session"));
      (s', conn, reply)
    case _ => (s, conn, Reply(MethodNotAllowed, "", ""))
  }

  // ---------------------------------------------------------------------------
  // The client
  // ---------------------------------------------------------------------------

  datatype ClientSession = ClientSession(id: string, state: SessionState)

  datatype Client = Client(
    connected: bool,
    hasSDP: bool,
    session: Option<ClientSession>,
    ports: PortPair,
    sequenceNum: int)

  const NEW_CLIENT: Client := Client(false, false, None, NoPair, 1)

  /** SequenceNum++ on a uint16. */
  function Counted(c: Client): Client {
    c.(sequenceNum := (c.sequenceNum + 1) % 0x1_0000)
  }

  /** What the client makes of a SETUP reply. */
  function AcceptSetup(c: Client, r: Reply): Client {
    if r.status != OK || r.transport == "" then c
    else
      var pair := ClientPair(r.transport);
      var c1 := if pair.Pair? then c.(ports := pair) else c;
      if r.sessionID == "" then c1 else Counted(c1.(session := Some(ClientSession(r.sessionID, Ready))))
  }

  function AcceptOptions(c: Client, r: Reply): Client {
    if r.status != OK then c else Counted(c)
  }

  /** Whatever the description says, the client has one now. */
  function AcceptDescribe(c: Client, r: Reply): Client {
    if r.status != OK then c else Counted(c.(hasSDP := true))
  }

  function AcceptState(c: Client, r: Reply, target: SessionState): Client
    requires c.session.Some?
  {
    if r.status != OK then c else Counted(c.(session := Some(c.session.value.(state := target))))
  }

  function AcceptTeardown(c: Client, r: Reply): Client {
    if r.status != OK then c else Counted(c.(session := None))
  }

  // ---------------------------------------------------------------------------
  // Exchanges
  // ---------------------------------------------------------------------------

  /** A client together with the server's side of its current connection. */
  datatype Peer = Peer(client: Client, conn: Connection)

  /** The transport of a request; `tcp` stands for the dispatch having recognised RTP/AVP/TCP. */
  function Requested(header: string, tcp: bool): Transport {
    if tcp then Parsed(header).(kind := Interleaved) else Parsed(header)
  }

  function Setup(s: Server, p: Peer, t: Transport, env: Environment): (Server, Peer)
    requires |env.clock| == |env.probes| == 3
  {
    if !p.client.hasSDP || !p.client.connected then (s, p)
    else
      var (s', conn, reply) := HandleSetup(s, p.conn, t, env);
      (s', Peer(AcceptSetup(p.client, reply), conn))
  }

  /** Play and Pause. */
  function ChangeState(s: Server, p: Peer, target: SessionState): (Server, Peer) {
    if p.client.session.None? || !p.client.connected then (s, p)
    else
      var (s', reply) := HandleState(s, p.client.session.value.id, target);
      (s', p.(client := AcceptState(p.client, reply, target)))
  }

  function Teardown(s: Server, p: Peer): (Server, Peer) {
    if p.client.session.None? || !p.client.connected then (s, p)
    else
      var (s', reply) := HandleTeardown(s, p.conn, p.client.session.value.id);
      (s', p.(client := AcceptTeardown(p.client, reply)))
  }

  /** What one Teardown of the client makes the server release. */
  function Freed(p: Peer): Option<PortAllocation> {
    if p.client.session.None? || !p.client.connected then None
    else ReleasedBy(p.conn, p.client.session.value.id)
  }

  // ---------------------------------------------------------------------------
  // Runs
  // ---------------------------------------------------------------------------

  datatype Event =
    | Connect(c: nat)
    | Options(c: nat)
    | Describe(c: nat, found: bool)
    | DoSetup(c: nat, header: string, tcp: bool, env: Environment)
    | Play(c: nat)
    | Pause(c: nat)
    | DoTeardown(c: nat)
    | Disconnect(c: nat)
    | SetPortRange(rtp: Ports.PortRange, rtcp: Ports.PortRange)

  /** Everything there is, with the history of IDs, of allocations handed out and of calls of ReleasePorts. */
  datatype World = World(
    server: Server,
    peers: map<nat, Peer>,
    ids: set<string>,
    granted: set<PortAllocation>,
    released: seq<PortAllocation>)

  function PeerOf(w: World, c: nat): Peer {
    if c in w.peers then w.peers[c] else Peer(NEW_CLIENT, NEW_CONNECTION)
  }

  /** The assumption on the environment: session IDs are new and not empty. */
  ghost predicate Drawn(w: World, e: Event) {
    e.DoSetup? ==> |e.env.clock| == |e.env.probes| == 3 && e.env.id != "" && e.env.id !in w.ids
  }

  /** A SETUP that reaches the port allocator, and whose allocation drops the marks of all pairs. */
  ghost predicate DropsMarks(w: World, e: Event)
    requires Drawn(w, e)
  {
    && e.DoSetup? && !e.tcp && PeerOf(w, e.c).client.hasSDP && PeerOf(w, e.c).client.connected
    && Ports.DropsMarks(w.server.pool, e.env.clock, e.env.probes)
  }

  /** The bookkeeping after a SETUP step. */
  function AfterSetup(w: World, c: nat, s: Server, p: Peer, id: string): World {
    var before := PeerOf(w, c).conn.allocation;
    World(s, w.peers[c := p], w.ids + {id},
          if p.conn.allocation != before && p.conn.allocation.Some? then w.granted + {p.conn.allocation.value}
          else w.granted,
          w.released)
  }

  function AfterTeardown(w: World, c: nat, s: Server, p: Peer, freed: Option<PortAllocation>): World {
    w.(server := s, peers := w.peers[c := p],
       released := if freed.Some? then w.released + [freed.value] else w.released)
  }

  ghost function Step(w: World, e: Event): World
    requires Drawn(w, e)
  {
    match e
    case Connect(c) =>
      w.(peers := w.peers[c := Peer(PeerOf(w, c).client.(connected := true), NEW_CONNECTION)])
    case Options(c) =>
      var p := PeerOf(w, c);
      if p.client.connected then w.(peers := w.peers[c := p.(client := AcceptOptions(p.client, Reply(OK, "", "")))])
      else w
    case Describe(c, found) =>
      var p := PeerOf(w, c);
      if p.client.connected
      then w.(peers := w.peers[c := p.(client := AcceptDescribe(p.client, DescribeReply(found)))])
      else w
    case DoSetup(c, header, tcp, env) =>
      var (s, p) := Setup(w.server, PeerOf(w, c), Requested(header, tcp), env);
      AfterSetup(w, c, s, p, env.id)
    case Play(c) =>
      var (s, p) := ChangeState(w.server, PeerOf(w, c), Playing);
      w.(server := s, peers := w.peers[c := p])
    case Pause(c) =>
      var (s, p) := ChangeState(w.server, PeerOf(w, c), Ready);
      w.(server := s, peers := w.peers[c := p])
    case DoTeardown(c) =>
      var (s, p) := Teardown(w.server, PeerOf(w, c));
      AfterTeardown(w, c, s, p, Freed(PeerOf(w, c)))
    case Disconnect(c) =>
      var (s, p) := Teardown(w.server, PeerOf(w, c));
      AfterTeardown(w, c, s, p.(client := p.client.(connected := false)), Freed(PeerOf(w, c)))
    case SetPortRange(rtp, rtcp) =>
      if Ports.RangesOk(rtp, rtcp) then w.(server := w.server.(pool := w.server.pool.(range := rtp))) else w
  }

  ghost predicate ValidRun(w: World, events: seq<Event>)
    decreases |events|
  {
    events == [] || (Drawn(w, events[0]) && ValidRun(Step(w, events[0]), events[1..]))
  }

  ghost function Run(w: World, events: seq<Event>): World
    requires ValidRun(w, events)
    decreases |events|
  {
    if events == [] then w else Run(Step(w, events[0]), events[1..])
  }

  /** No event of the run drops marks. */
  ghost predicate UndisturbedRun(w: World, events: seq<Event>)
    requires ValidRun(w, events)
    decreases |events|
  {
    events == [] || (!DropsMarks(w, events[0]) && UndisturbedRun(Step(w, events[0]), events[1..]))
  }

  /** A server just started, with a validated port range and no clients. */
  function Start(range: Ports.PortRange, now: int): World {
    World(Server(map[], Ports.Pool(range, {}, now), Channels.NO_CHANNELS), map[], {}, {}, [])
  }

  // ---------------------------------------------------------------------------
  // What holds in every state
  // ---------------------------------------------------------------------------

  predicate Held(state: SessionState) {
    state == Ready || state == Playing
  }

  /** No stored session is Init or Recording, and every stored ID was drawn. */
  ghost predicate SessionsOk(sessions: map<string, SessionState>, ids: set<string>) {
    forall id :: id in sessions ==> Held(sessions[id]) && id in ids && id != ""
  }

  /** A client that holds a session finds it on the server, in the same state. */
  predicate Agrees(sessions: map<string, SessionState>, c: Client) {
    c.session.Some? ==> c.session.value.id in sessions && sessions[c.session.value.id] == c.session.value.state
  }

  /** Distinct clients hold distinct sessions. */
  ghost predicate DistinctSessions(peers: map<nat, Peer>) {
    forall c, d :: c in peers && d in peers && c != d
      && peers[c].client.session.Some? && peers[d].client.session.Some?
      ==> peers[c].client.session.value.id != peers[d].client.session.value.id
  }

  predicate Live(granted: set<PortAllocation>, released: seq<PortAllocation>, a: PortAllocation) {
    a in granted && a !in released
  }

  predicate Holds(a: PortAllocation, port: int) {
    port == a.rtpPort || port == a.rtcpPort
  }

  /** The marks are the disjoint union of the live pairs, and nothing was released twice. */
  ghost predicate PortsAreLive(granted: set<PortAllocation>, released: seq<PortAllocation>, used: set<int>) {
    && (forall a, b, port ::
          Live(granted, released, a) && Live(granted, released, b) && Holds(a, port) && Holds(b, port) ==> a == b)
    && (forall port :: port in used ==> exists a :: Live(granted, released, a) && Holds(a, port))
    && (forall a, port :: Live(granted, released, a) && Holds(a, port) ==> port in used)
    && (forall a :: a in released ==> a in granted)
    && (forall i, j :: 0 <= i < j < |released| ==> released[i] != released[j])
  }

  /** Each session was given at most one pair, and a pair of a stored session was not released. */
  ghost predicate GrantsOk(sessions: map<string, SessionState>, granted: set<PortAllocation>,
                           released: seq<PortAllocation>, ids: set<string>) {
    && (forall a :: a in granted ==> a.rtcpPort == a.rtpPort + 1 && a.sessionID in ids)
    && (forall a, b :: a in granted && b in granted && a.sessionID == b.sessionID ==> a == b)
    && (forall a :: a in granted && a.sessionID in sessions ==> a !in released)
  }

  /** On a UDP connection, the pair that a teardown would release is live and belongs to the client's session. */
  predicate OwnsItsPair(granted: set<PortAllocation>, released: seq<PortAllocation>, p: Peer) {
    (p.client.session.Some? && !p.conn.useTCP && p.conn.allocation.Some?) ==>
      (Live(granted, released, p.conn.allocation.value)
       && p.conn.allocation.value.sessionID == p.client.session.value.id)
  }

  /** A client whose session was given the pair `a` has read exactly that pair from the reply. */
  predicate KnowsItsPorts(c: Client, a: PortAllocation) {
    (c.session.Some? && c.session.value.id == a.sessionID) ==> c.ports == Pair(a.rtpPort, a.rtcpPort)
  }

  ghost predicate PeerOk(sessions: map<string, SessionState>, granted: set<PortAllocation>,
                         released: seq<PortAllocation>, p: Peer) {
    && Agrees(sessions, p.client)
    && (p.conn.useTCP ==> p.conn.channel.Some?)
    && (p.conn.allocation.Some? ==> p.conn.allocation.value in granted)
    && OwnsItsPair(granted, released, p)
    && (forall a :: a in granted ==> KnowsItsPorts(p.client, a))
  }

  ghost predicate PeersOk(sessions: map<string, SessionState>, granted: set<PortAllocation>,
                          released: seq<PortAllocation>, peers: map<nat, Peer>) {
    forall c :: c in peers ==> PeerOk(sessions, granted, released, peers[c])
  }

  predicate RangeOk(range: Ports.PortRange) {
    range.start >= 0 && range.end <= 65535
  }

  /** The invariant of all runs. */
  ghost predicate Safe(w: World) {
    && SessionsOk(w.server.sessions, w.ids)
    && PortsAreLive(w.granted, w.released, w.server.pool.used)
    && GrantsOk(w.server.sessions, w.granted, w.released, w.ids)
    && PeersOk(w.server.sessions, w.granted, w.released, w.peers)
    && DistinctSessions(w.peers)
    && RangeOk(w.server.pool.range)
  }

  // ---------------------------------------------------------------------------
  // Every step keeps it
  // ---------------------------------------------------------------------------

  /** A peer that holds another session does not notice what happens to the session `id`. */
  lemma OthersStayOk(sessions: map<string, SessionState>, sessions': map<string, SessionState>,
                     granted: set<PortAllocation>, granted': set<PortAllocation>,
                     released: seq<PortAllocation>, released': seq<PortAllocation>, id: string, q: Peer)
    requires PeerOk(sessions, granted, released, q)
    requires q.client.session.Some? ==> q.client.session.value.id != id
    requires forall x :: x in sessions && x != id ==> x in sessions' && sessions'[x] == sessions[x]
    requires granted <= granted' && forall a :: a in granted' && a !in granted ==> a.sessionID == id
    requires forall a :: a in released' && a !in released ==> a.sessionID == id
    ensures PeerOk(sessions', granted', released', q)
  {
  }

  /** All peers but `c` hold other sessions than the one `c` holds. */
  lemma OthersDiffer(w: World, c: nat, d: nat)
    requires Safe(w) && d in w.peers && d != c
    requires PeerOf(w, c).client.session.Some? && w.peers[d].client.session.Some?
    ensures w.peers[d].client.session.value.id != PeerOf(w, c).client.session.value.id
  {
    hide SessionsOk, PortsAreLive, GrantsOk, PeersOk;
  }

  lemma NewPeerOk(sessions: map<string, SessionState>, granted: set<PortAllocation>, released: seq<PortAllocation>)
    ensures PeerOk(sessions, granted, released, Peer(NEW_CLIENT, NEW_CONNECTION))
  {
  }

  lemma PeerOfOk(w: World, c: nat)
    requires Safe(w)
    ensures PeerOk(w.server.sessions, w.granted, w.released, PeerOf(w, c))
  {
    hide SessionsOk, PortsAreLive, GrantsOk, PeerOk, DistinctSessions;
    NewPeerOk(w.server.sessions, w.granted, w.released);
  }

  lemma DistinctAfter(w: World, c: nat, p: Peer)
    requires Safe(w)
    requires forall d :: d in w.peers && d != c && p.client.session.Some? && w.peers[d].client.session.Some?
               ==> w.peers[d].client.session.value.id != p.client.session.value.id
    ensures DistinctSessions(w.peers[c := p])
  {
    hide SessionsOk, PortsAreLive, GrantsOk, PeersOk;
  }

  /** A peer whose session is the one it had, or none. */
  lemma DistinctKept(w: World, c: nat, p: Peer)
    requires Safe(w)
    requires p.client.session.Some? ==>
               (PeerOf(w, c).client.session.Some? && p.client.session.value.id == PeerOf(w, c).client.session.value.id)
    ensures DistinctSessions(w.peers[c := p])
  {
    hide Safe;
    forall d | d in w.peers && d != c && p.client.session.Some? && w.peers[d].client.session.Some?
      ensures w.peers[d].client.session.value.id != p.client.session.value.id
    {
      OthersDiffer(w, c, d);
    }
    DistinctAfter(w, c, p);
  }

  /** Replacing one peer by one that is in order, when the server and the history stay as they are. */
  lemma ReplacePeer(w: World, c: nat, p: Peer)
    requires Safe(w)
    requires p.client.session == PeerOf(w, c).client.session && p.client.ports == PeerOf(w, c).client.ports
    requires p.conn == PeerOf(w, c).conn || p.conn == NEW_CONNECTION
    ensures Safe(w.(peers := w.peers[c := p]))
  {
    hide SessionsOk, PortsAreLive, GrantsOk, DistinctSessions;
    PeerOfOk(w, c);
    assert PeerOk(w.server.sessions, w.granted, w.released, p);
    DistinctKept(w, c, p);
  }

  lemma StateStep(w: World, c: nat, target: SessionState)
    requires Safe(w) && Held(target)
    ensures var (s, p) := ChangeState(w.server, PeerOf(w, c), target);
            Safe(w.(server := s, peers := w.peers[c := p]))
  {
    var (s, p) := ChangeState(w.server, PeerOf(w, c), target);
    PeerOfOk(w, c);
    DistinctKept(w, c, p);
    if PeerOf(w, c).client.session.Some? {
      var id := PeerOf(w, c).client.session.value.id;
      OthersKept(w, c, id, s.sessions, w.granted, w.released);
      assert PeerOk(s.sessions, w.granted, w.released, p);
      SessionsAfterState(w, id, target);
    }
    hide PeerOk, DistinctSessions, PortsAreLive, GrantsOk, SessionsOk;
    assert PeersOk(s.sessions, w.granted, w.released, w.peers[c := p]);
  }

  lemma SessionsAfterState(w: World, id: string, target: SessionState)
    requires Safe(w) && Held(target) && id in w.server.sessions
    ensures var sessions := w.server.sessions[id := target];
            SessionsOk(sessions, w.ids) && GrantsOk(sessions, w.granted, w.released, w.ids)
  {
    hide PeersOk, DistinctSessions, PortsAreLive;
  }

  /** The peers other than `c`, when only the session of `c` and its pair are touched. */
  lemma OthersKept(w: World, c: nat, id: string, sessions': map<string, SessionState>,
                   granted': set<PortAllocation>, released': seq<PortAllocation>)
    requires Safe(w)
    requires id !in w.ids || (PeerOf(w, c).client.session.Some? && PeerOf(w, c).client.session.value.id == id)
    requires forall x :: x in w.server.sessions && x != id ==> x in sessions' && sessions'[x] == w.server.sessions[x]
    requires w.granted <= granted' && forall a :: a in granted' && a !in w.granted ==> a.sessionID == id
    requires forall a :: a in released' && a !in w.released ==> a.sessionID == id
    ensures forall d :: d in w.peers && d != c ==> PeerOk(sessions', granted', released', w.peers[d])
  {
    forall d | d in w.peers && d != c ensures PeerOk(sessions', granted', released', w.peers[d]) {
      var q := w.peers[d];
      PeerOfOk(w, d);
      if q.client.session.Some? {
        if PeerOf(w, c).client.session.Some? {
          OthersDiffer(w, c, d);
        }
        assert q.client.session.value.id in w.ids by { hide PortsAreLive, GrantsOk, DistinctSessions; }
      }
      hide Safe, PeerOk;
      OthersStayOk(w.server.sessions, sessions', w.granted, granted', w.released, released', id, q);
    }
  }

  // TEARDOWN.

  /** Releasing a live pair takes exactly its two ports out of the marks. */
  lemma ReleaseLive(granted: set<PortAllocation>, released: seq<PortAllocation>, used: set<int>, a: PortAllocation)
    requires PortsAreLive(granted, released, used) && Live(granted, released, a)
    ensures PortsAreLive(granted, released + [a], used - {a.rtpPort, a.rtcpPort})
  {
    var (released', used') := (released + [a], used - {a.rtpPort, a.rtcpPort});
    assert forall x :: Live(granted, released', x) <==> Live(granted, released, x) && x != a;
    assert Holds(a, a.rtpPort) && Holds(a, a.rtcpPort);
    forall port | port in used' ensures exists x :: Live(granted, released', x) && Holds(x, port) {
      var x :| Live(granted, released, x) && Holds(x, port);
      assert x != a;
      assert Live(granted, released', x);
    }
  }

  lemma SessionsAfterTeardown(w: World, id: string, released': seq<PortAllocation>)
    requires Safe(w)
    requires forall a :: a in released' && a !in w.released ==> a.sessionID == id
    ensures var sessions := w.server.sessions - {id};
            SessionsOk(sessions, w.ids) && GrantsOk(sessions, w.granted, released', w.ids)
  {
    hide PeersOk, DistinctSessions, PortsAreLive;
  }

  lemma TeardownStep(w: World, c: nat)
    requires Safe(w)
    ensures var (s, p) := Teardown(w.server, PeerOf(w, c));
            Safe(AfterTeardown(w, c, s, p, Freed(PeerOf(w, c))))
  {
    var p0 := PeerOf(w, c);
    var (s, p) := Teardown(w.server, p0);
    var freed := Freed(p0);
    var w' := AfterTeardown(w, c, s, p, freed);
    PeerOfOk(w, c);
    if p0.client.session.None? || !p0.client.connected {
      ReplacePeer(w, c, p0);
    } else {
      var id := p0.client.session.value.id;
      KnownIsNotEmpty(w, id);
      hide SessionsOk, GrantsOk, DistinctSessions, PortsAreLive;
      assert freed.Some? ==> Live(w.granted, w.released, freed.value) && freed.value.sessionID == id;
      if freed.Some? {
        ReleaseLive(w.granted, w.released, w.server.pool.used, freed.value);
      }
      assert p == p0.(client := Counted(p0.client.(session := None)));
      assert PeerOk(s.sessions, w.granted, w'.released, p);
      assert s.sessions == w.server.sessions - {id};
      hide PeerOk;
      SessionsAfterTeardown(w, id, w'.released);
      OthersKept(w, c, id, s.sessions, w.granted, w'.released);
      DistinctKept(w, c, p);
    }
  }

  lemma KnownIsNotEmpty(w: World, id: string)
    requires Safe(w) && id in w.server.sessions
    ensures id != ""
  {
  }

  // SETUP.

  lemma {:induction false} RetryInRange(pool: Ports.Pool, clock: seq<int>, probes: seq<Ports.Probe>)
    requires |clock| == |probes|
    ensures var (after, found) := Ports.AllocateWithRetry(pool, clock, probes);
            && after.range == pool.range
            && (found.Some? ==> pool.range.start <= found.value < pool.range.end)
    decreases |clock|
  {
    if clock != [] {
      var (after, found) := Ports.Allocate(pool, clock[0], probes[0]);
      Ports.AllocateKeepsRange(pool, clock[0], probes[0]);
      var clean := Ports.Cleaned(pool, clock[0]);
      Ports.ScanIsLeast(clean.range, clean.used, probes[0]);
      RetryInRange(after, clock[1..], probes[1..]);
    }
  }

  /** The reply of the server always carries a Transport header. */
  lemma PrintedIsNotEmpty(t: Transport)
    ensures Printed(t) != ""
  {
    hide Field, CastPart;
    assert Parts(t)[0] == KindText(t.kind) != "";
  }

  lemma GrantIsLive(granted: set<PortAllocation>, released: seq<PortAllocation>, used: set<int>, a: PortAllocation)
    requires PortsAreLive(granted, released, used)
    requires a !in granted && a.rtpPort !in used && a.rtcpPort !in used
    ensures PortsAreLive(granted + {a}, released, used + {a.rtpPort, a.rtcpPort})
  {
    var (granted', used') := (granted + {a}, used + {a.rtpPort, a.rtcpPort});
    assert a !in released;
    assert forall x :: Live(granted', released, x) <==> Live(granted, released, x) || x == a;
    forall port | port in used' ensures exists x :: Live(granted', released, x) && Holds(x, port) {
      if port in used {
        var x :| Live(granted, released, x) && Holds(x, port);
        assert Live(granted', released, x);
      } else {
        assert Live(granted', released, a) && Holds(a, port);
      }
    }
  }

  /** A fresh session ID, with or without a pair granted to it. */
  lemma SessionsAfterSetup(w: World, id: string, granted': set<PortAllocation>)
    requires Safe(w) && id != "" && id !in w.ids
    requires granted' == w.granted || exists a: PortAllocation ::
               granted' == w.granted + {a} && a.rtcpPort == a.rtpPort + 1 && a.sessionID == id
    ensures var (sessions, ids) := (w.server.sessions[id := Ready], w.ids + {id});
            SessionsOk(sessions, ids) && GrantsOk(sessions, granted', w.released, ids)
    ensures forall a :: a in w.released ==> a.sessionID in w.ids
  {
    hide PeersOk, DistinctSessions;
    assert forall a :: a in w.released ==> a in w.granted;
    hide PortsAreLive;
  }

  lemma FreshIsDistinct(w: World, c: nat, p: Peer, id: string)
    requires Safe(w) && id !in w.ids
    requires p.client.session.Some? ==> p.client.session.value.id == id
    ensures DistinctSessions(w.peers[c := p])
  {
    forall d | d in w.peers && d != c && p.client.session.Some? && w.peers[d].client.session.Some?
      ensures w.peers[d].client.session.value.id != p.client.session.value.id
    {
      PeerOfOk(w, d);
      hide PortsAreLive, GrantsOk, DistinctSessions, PeersOk;
    }
    hide Safe;
    DistinctAfter(w, c, p);
  }

  /** The client does not send anything: only an ID was drawn. */
  lemma DrawOnly(w: World, id: string)
    requires Safe(w)
    ensures Safe(w.(ids := w.ids + {id}))
  {
    hide PortsAreLive, PeersOk, DistinctSessions;
  }

  /** A client that gets a reply with a session and a transport takes both. */
  lemma AcceptsSession(c: Client, r: Reply)
    requires r.status == OK && r.transport != "" && r.sessionID != ""
    ensures AcceptSetup(c, r).session == Some(ClientSession(r.sessionID, Ready))
    ensures ClientPair(r.transport).Pair? ==> AcceptSetup(c, r).ports == ClientPair(r.transport)
  {
    hide ClientPair;
  }

  lemma SetupIdle(w: World, c: nat, id: string)
    requires Safe(w)
    ensures Safe(AfterSetup(w, c, w.server, PeerOf(w, c), id))
  {
    hide Safe;
    ReplacePeer(w, c, PeerOf(w, c));
    DrawOnly(w.(peers := w.peers[c := PeerOf(w, c)]), id);
  }

  /** Putting the parts of the invariant together after a SETUP that drew the session `id`. */
  lemma SetupSafe(w: World, c: nat, s: Server, p: Peer, id: string, granted': set<PortAllocation>)
    requires Safe(w) && id != "" && id !in w.ids
    requires s.sessions == w.server.sessions[id := Ready] && RangeOk(s.pool.range)
    requires p.client.session.Some? ==>
               p.client.session.value.id == id || p.client.session == PeerOf(w, c).client.session
    requires granted' == w.granted || exists a: PortAllocation ::
               granted' == w.granted + {a} && a.rtcpPort == a.rtpPort + 1 && a.sessionID == id
    requires PortsAreLive(granted', w.released, s.pool.used)
    requires PeerOk(s.sessions, granted', w.released, p)
    ensures Safe(World(s, w.peers[c := p], w.ids + {id}, granted', w.released))
  {
    SessionsAfterSetup(w, id, granted');
    if p.client.session == PeerOf(w, c).client.session {
      DistinctKept(w, c, p);
    } else {
      FreshIsDistinct(w, c, p, id);
    }
    OthersKept(w, c, id, s.sessions, granted', w.released);
    hide SessionsOk, GrantsOk, DistinctSessions, PortsAreLive, PeerOk;
    assert PeersOk(s.sessions, granted', w.released, w.peers[c := p]);
  }

  lemma TCPReply(s: Server, conn: Connection, t: Transport, env: Environment)
    requires |env.clock| == |env.probes| == 3 && IsTCPTransport(t)
    ensures var (s', conn', reply) := HandleSetup(s, conn, t, env);
            && s'.sessions == s.sessions[env.id := Ready] && s'.pool == s.pool
            && conn'.useTCP && conn'.channel.Some? && conn'.allocation == conn.allocation
            && reply.status == OK && reply.transport != "" && reply.sessionID == env.id
  {
    hide Printed, Itoa;
    var channel := Channels.NextChannel(s.channels, env.id);
    var text := Itoa(channel.rtpChannel) + "-" + Itoa(channel.rtcpChannel);
    PrintedIsNotEmpty(t.(kind := Interleaved, interleaved := text));
  }

  lemma TCPPeerOk(w: World, c: nat, p: Peer, id: string)
    requires Safe(w) && id !in w.ids
    requires p.client.session == Some(ClientSession(id, Ready))
    requires p.conn.useTCP && p.conn.channel.Some? && p.conn.allocation == PeerOf(w, c).conn.allocation
    ensures PeerOk(w.server.sessions[id := Ready], w.granted, w.released, p)
  {
    PeerOfOk(w, c);
    hide PortsAreLive, DistinctSessions, SessionsOk, PeersOk;
  }

  /** TCP: the session is stored, the channel is taken, and no port is touched. */
  lemma SetupTCP(w: World, c: nat, t: Transport, env: Environment)
    requires Safe(w) && |env.clock| == |env.probes| == 3 && env.id != "" && env.id !in w.ids
    requires IsTCPTransport(t) && PeerOf(w, c).client.hasSDP && PeerOf(w, c).client.connected
    ensures var (s, p) := Setup(w.server, PeerOf(w, c), t, env); Safe(AfterSetup(w, c, s, p, env.id))
  {
    hide HandleSetup, AcceptSetup, PortsAreLive, DistinctSessions, SessionsOk, GrantsOk, PeerOk, PeersOk;
    var p0 := PeerOf(w, c);
    var (s', conn, reply) := HandleSetup(w.server, p0.conn, t, env);
    var (s, p) := Setup(w.server, p0, t, env);
    TCPReply(w.server, p0.conn, t, env);
    AcceptsSession(p0.client, reply);
    TCPPeerOk(w, c, p, env.id);
    SetupSafe(w, c, s, p, env.id, w.granted);
  }

  /** UDP without a free pair: the session stays on the server, and the client goes on as before. */
  lemma SetupRefused(w: World, c: nat, t: Transport, env: Environment)
    requires Safe(w) && |env.clock| == |env.probes| == 3 && env.id != "" && env.id !in w.ids
    requires !Ports.DropsMarks(w.server.pool, env.clock, env.probes)
    requires !IsTCPTransport(t) && PeerOf(w, c).client.hasSDP && PeerOf(w, c).client.connected
    requires Ports.AllocateWithRetry(w.server.pool, env.clock, env.probes).1.None?
    ensures var (s, p) := Setup(w.server, PeerOf(w, c), t, env); Safe(AfterSetup(w, c, s, p, env.id))
  {
    hide Ports.AllocateWithRetry, Ports.DropsMarks, PortsAreLive, DistinctSessions;
    var p0 := PeerOf(w, c);
    var (s, p) := Setup(w.server, p0, t, env);
    Ports.RetryIsFresh(w.server.pool, env.clock, env.probes);
    PeerOfOk(w, c);
    assert p.client == p0.client;
    assert p0.client.session.Some? ==> p0.client.session.value.id in w.server.sessions;
    assert PeerOk(s.sessions, w.granted, w.released, p);
    hide GrantsOk, PeerOk, SessionsOk;
    SetupSafe(w, c, s, p, env.id, w.granted);
  }

  /** UDP with a pair: it is granted to the new session, and the client reads the same pair from the reply. */
  lemma SetupGranted(w: World, c: nat, header: string, env: Environment)
    requires Safe(w) && |env.clock| == |env.probes| == 3 && env.id != "" && env.id !in w.ids
    requires !Ports.DropsMarks(w.server.pool, env.clock, env.probes)
    requires !IsTCPTransport(Parsed(header)) && PeerOf(w, c).client.hasSDP && PeerOf(w, c).client.connected
    requires Ports.AllocateWithRetry(w.server.pool, env.clock, env.probes).1.Some?
    ensures var (s, p) := Setup(w.server, PeerOf(w, c), Parsed(header), env); Safe(AfterSetup(w, c, s, p, env.id))
  {
    hide Ports.AllocateWithRetry, Printed, Parsed, ClientPair, AcceptSetup, PortsAreLive, DistinctSessions, SessionsOk;
    hide Ports.DropsMarks;
    var p0 := PeerOf(w, c);
    var (s, p) := Setup(w.server, p0, Parsed(header), env);
    Ports.RetryIsFresh(w.server.pool, env.clock, env.probes);
    RetryInRange(w.server.pool, env.clock, env.probes);
    var port := Ports.AllocateWithRetry(w.server.pool, env.clock, env.probes).1.value;
    var a := Granted(w.server.pool, port, env);
    var reply := Reply(OK, env.id, ReplyHeader(header, port, port + 1));
    PeerOfOk(w, c);
    PrintedIsNotEmpty(Parsed(header).(serverPorts := PortsText(port, port + 1)));
    AcceptsSession(p0.client, reply);
    ClientSeesServerPair(header, port);
    assert p.client == AcceptSetup(p0.client, reply);
    assert a !in w.granted;
    GrantIsLive(w.granted, w.released, w.server.pool.used, a);
    NotReleased(w, a);
    assert PeerOk(s.sessions, w.granted + {a}, w.released, p);
    hide GrantsOk, PeerOk, PeersOk;
    SetupSafe(w, c, s, p, env.id, w.granted + {a});
  }

  lemma NotReleased(w: World, a: PortAllocation)
    requires Safe(w) && a !in w.granted
    ensures a !in w.released
  {
    hide GrantsOk, PeersOk, DistinctSessions;
  }

  lemma SetupStep(w: World, c: nat, header: string, tcp: bool, env: Environment)
    requires Safe(w) && Drawn(w, DoSetup(c, header, tcp, env)) && !DropsMarks(w, DoSetup(c, header, tcp, env))
    ensures Safe(Step(w, DoSetup(c, header, tcp, env)))
  {
    hide Safe, HandleSetup, Ports.AllocateWithRetry, Ports.DropsMarks, Parsed;
    var p0 := PeerOf(w, c);
    ParsedInRange(header);
    if !p0.client.hasSDP || !p0.client.connected {
      SetupIdle(w, c, env.id);
    } else if tcp {
      SetupTCP(w, c, Requested(header, true), env);
    } else if Ports.AllocateWithRetry(w.server.pool, env.clock, env.probes).1.None? {
      SetupRefused(w, c, Parsed(header), env);
    } else {
      SetupGranted(w, c, header, env);
    }
  }

  lemma DisconnectStep(w: World, c: nat)
    requires Safe(w)
    ensures Safe(Step(w, Disconnect(c)))
  {
    var (s, p) := Teardown(w.server, PeerOf(w, c));
    var torn := AfterTeardown(w, c, s, p, Freed(PeerOf(w, c)));
    TeardownStep(w, c);
    var gone := p.(client := p.client.(connected := false));
    hide Safe;
    ReplacePeer(torn, c, gone);
    assert torn.peers[c := gone] == w.peers[c := gone];
  }

  lemma RangeStep(w: World, rtp: Ports.PortRange, rtcp: Ports.PortRange)
    requires Safe(w)
    ensures Safe(Step(w, SetPortRange(rtp, rtcp)))
  {
    hide SessionsOk, PortsAreLive, GrantsOk, PeersOk, DistinctSessions;
  }

  /** Every step that drops no marks keeps the invariant. */
  lemma StepSafe(w: World, e: Event)
    requires Safe(w) && Drawn(w, e) && !DropsMarks(w, e)
    ensures Safe(Step(w, e))
  {
    hide Safe, Setup, Teardown, ChangeState;
    match e
    case Connect(c) => ReplacePeer(w, c, Peer(PeerOf(w, c).client.(connected := true), NEW_CONNECTION));
    case Options(c) =>
      var p := PeerOf(w, c);
      ReplacePeer(w, c, p.(client := AcceptOptions(p.client, Reply(OK, "", ""))));
    case Describe(c, found) =>
      var p := PeerOf(w, c);
      ReplacePeer(w, c, p.(client := AcceptDescribe(p.client, DescribeReply(found))));
    case DoSetup(c, header, tcp, env) => SetupStep(w, c, header, tcp, env);
    case Play(c) => StateStep(w, c, Playing);
    case Pause(c) => StateStep(w, c, Ready);
    case DoTeardown(c) => TeardownStep(w, c);
    case Disconnect(c) => DisconnectStep(w, c);
    case SetPortRange(rtp, rtcp) => RangeStep(w, rtp, rtcp);
  }

  lemma StartSafe(range: Ports.PortRange, now: int)
    requires RangeOk(range)
    ensures Safe(Start(range, now))
  {
  }

  /** Every state of every run that drops no marks is safe. */
  lemma {:induction false} RunSafe(w: World, events: seq<Event>)
    requires Safe(w) && ValidRun(w, events) && UndisturbedRun(w, events)
    ensures Safe(Run(w, events))
    decreases |events|
  {
    hide Safe, Step, Drawn, DropsMarks;
    if events != [] {
      StepSafe(w, events[0]);
      RunSafe(Step(w, events[0]), events[1..]);
    }
  }

  predicate HoldsSession(c: Client, id: string) {
    c.session.Some? && c.session.value.id == id
  }

  /** A pair that was granted to a session the server still stores. */
  predicate StoredPair(w: World, a: PortAllocation) {
    a in w.granted && a.sessionID in w.server.sessions
  }

  /**
   A session a client holds is stored by the server in the same state, that state is Ready or Playing,
   no two clients hold the same session, and no stored session is Init or Recording.
   */
  ghost predicate Agreement(w: World) {
    && (forall id :: id in w.server.sessions ==> w.server.sessions[id] in {Ready, Playing})
    && (forall c :: c in w.peers && w.peers[c].client.session.Some? ==>
          var held := w.peers[c].client.session.value;
          held.id in w.server.sessions && w.server.sessions[held.id] == held.state)
    && (forall c, d :: c in w.peers && d in w.peers && c != d && w.peers[c].client.session.Some? ==>
          !HoldsSession(w.peers[d].client, w.peers[c].client.session.value.id))
  }

  /**
   The marks are exactly the union of the pairs handed out and not released, those pairs are disjoint,
   no pair is released twice, the pairs of two stored sessions never share a port, and a client holds
   exactly the pair its session was given.
   */
  ghost predicate PortSafety(w: World) {
    && PortsAreLive(w.granted, w.released, w.server.pool.used)
    && (forall a, b, port :: StoredPair(w, a) && StoredPair(w, b) && Holds(a, port) && Holds(b, port) ==> a == b)
    && (forall c, a :: c in w.peers && a in w.granted && HoldsSession(w.peers[c].client, a.sessionID)
          ==> w.peers[c].client.ports == Pair(a.rtpPort, a.rtcpPort))
  }

  /** What agreement takes from one state to the next; ports do not matter for it. */
  ghost predicate Agreeing(w: World) {
    && SessionsOk(w.server.sessions, w.ids)
    && (forall c :: c in w.peers ==> Agrees(w.server.sessions, w.peers[c].client))
    && DistinctSessions(w.peers)
  }

  lemma PeerAgrees(w: World, c: nat)
    requires Agreeing(w)
    ensures Agrees(w.server.sessions, PeerOf(w, c).client)
    ensures PeerOf(w, c).client.session.Some? ==> PeerOf(w, c).client.session.value.id in w.ids
  {
  }

  /** Client `c` and the session `id` change, and that session is the client's or a new one. */
  lemma NextAgrees(w: World, w': World, c: nat, id: string)
    requires Agreeing(w) && c in w'.peers && w'.peers == w.peers[c := w'.peers[c]] && w.ids <= w'.ids
    requires id !in w.server.sessions || HoldsSession(PeerOf(w, c).client, id)
    requires forall x :: x != id ==> (x in w.server.sessions <==> x in w'.server.sessions)
    requires forall x :: x != id && x in w.server.sessions ==> w'.server.sessions[x] == w.server.sessions[x]
    requires id in w'.server.sessions ==> Held(w'.server.sessions[id]) && id in w'.ids && id != ""
    requires var session := w'.peers[c].client.session;
             session.Some? ==> session.value.id == id || session == PeerOf(w, c).client.session
    requires Agrees(w'.server.sessions, w'.peers[c].client)
    ensures Agreeing(w')
  {
    forall d | d in w.peers && d != c && w.peers[d].client.session.Some?
      ensures w.peers[d].client.session.value.id != id
      ensures PeerOf(w, c).client.session.Some? ==>
                w.peers[d].client.session.value.id != PeerOf(w, c).client.session.value.id
    {
      PeerAgrees(w, d);
    }
  }

  lemma SetupAgrees(w: World, c: nat, t: Transport, env: Environment)
    requires Agreeing(w) && |env.clock| == |env.probes| == 3 && env.id != "" && env.id !in w.ids
    ensures var (s, p) := Setup(w.server, PeerOf(w, c), t, env); Agreeing(AfterSetup(w, c, s, p, env.id))
  {
    hide Ports.AllocateWithRetry, Channels.Allocate, Channels.NextChannel, Printed, Itoa, ClientPair;
    hide Granted, PortsText, Agreeing;
    var (s, p) := Setup(w.server, PeerOf(w, c), t, env);
    PeerAgrees(w, c);
    IdsOfSessions(w);
    NextAgrees(w, AfterSetup(w, c, s, p, env.id), c, env.id);
  }

  lemma IdsOfSessions(w: World)
    requires Agreeing(w)
    ensures forall id :: id in w.server.sessions ==> id in w.ids && id != "" && Held(w.server.sessions[id])
  {
  }

  lemma StateAgrees(w: World, c: nat, target: SessionState)
    requires Agreeing(w) && Held(target)
    ensures var (s, p) := ChangeState(w.server, PeerOf(w, c), target);
            Agreeing(w.(server := s, peers := w.peers[c := p]))
  {
    hide Agreeing;
    var (s, p) := ChangeState(w.server, PeerOf(w, c), target);
    PeerAgrees(w, c);
    IdsOfSessions(w);
    var client := PeerOf(w, c).client;
    NextAgrees(w, w.(server := s, peers := w.peers[c := p]), c, IdOf(client));
  }

  lemma TeardownAgrees(w: World, c: nat, connected: bool)
    requires Agreeing(w)
    ensures var (s, p) := Teardown(w.server, PeerOf(w, c));
            var q := p.(client := p.client.(connected := connected));
            && Agreeing(AfterTeardown(w, c, s, p, Freed(PeerOf(w, c))))
            && Agreeing(AfterTeardown(w, c, s, q, Freed(PeerOf(w, c))))
  {
    hide Agreeing, Freed, Channels.Release, Ports.Release;
    var (s, p) := Teardown(w.server, PeerOf(w, c));
    PeerAgrees(w, c);
    IdsOfSessions(w);
    var id := IdOf(PeerOf(w, c).client);
    NextAgrees(w, AfterTeardown(w, c, s, p, Freed(PeerOf(w, c))), c, id);
    var q := p.(client := p.client.(connected := connected));
    NextAgrees(w, AfterTeardown(w, c, s, q, Freed(PeerOf(w, c))), c, id);
  }

  /** The ID a client holds; without one, the empty string, which no session has. */
  function IdOf(c: Client): string {
    if c.session.Some? then c.session.value.id else ""
  }

  lemma PeerKeepsAgreement(w: World, c: nat, p: Peer)
    requires Agreeing(w) && p.client.session == PeerOf(w, c).client.session
    ensures Agreeing(w.(peers := w.peers[c := p]))
  {
    hide Agreeing;
    PeerAgrees(w, c);
    IdsOfSessions(w);
    NextAgrees(w, w.(peers := w.peers[c := p]), c, IdOf(p.client));
  }

  lemma StepAgrees(w: World, e: Event)
    requires Agreeing(w) && Drawn(w, e)
    ensures Agreeing(Step(w, e))
  {
    hide Agreeing, Setup, Teardown, ChangeState, Parsed;
    match e
    case Connect(c) => PeerKeepsAgreement(w, c, Peer(PeerOf(w, c).client.(connected := true), NEW_CONNECTION));
    case Options(c) =>
      var p := PeerOf(w, c);
      PeerKeepsAgreement(w, c, p.(client := AcceptOptions(p.client, Reply(OK, "", ""))));
    case Describe(c, found) =>
      var p := PeerOf(w, c);
      PeerKeepsAgreement(w, c, p.(client := AcceptDescribe(p.client, DescribeReply(found))));
    case DoSetup(c, header, tcp, env) => SetupAgrees(w, c, Requested(header, tcp), env);
    case Play(c) => StateAgrees(w, c, Playing);
    case Pause(c) => StateAgrees(w, c, Ready);
    case DoTeardown(c) => TeardownAgrees(w, c, false);
    case Disconnect(c) => TeardownAgrees(w, c, false);
    case SetPortRange(rtp, rtcp) => RangeAgrees(w, e);
  }

  lemma RangeAgrees(w: World, e: Event)
    requires Agreeing(w) && e.SetPortRange?
    ensures Agreeing(Step(w, e))
  {
  }

  lemma {:induction false} RunAgrees(w: World, events: seq<Event>)
    requires Agreeing(w) && ValidRun(w, events)
    ensures Agreeing(Run(w, events))
    decreases |events|
  {
    hide Agreeing, Step, Drawn;
    if events != [] {
      StepAgrees(w, events[0]);
      RunAgrees(Step(w, events[0]), events[1..]);
    }
  }

  lemma StartAgrees(range: Ports.PortRange, now: int)
    ensures Agreeing(Start(range, now))
  {
  }

  lemma AgreeingIsAgreement(w: World)
    requires Agreeing(w)
    ensures Agreement(w)
  {
  }

  lemma SafePorts(w: World)
    requires Safe(w)
    ensures PortSafety(w)
  {
    hide SessionsOk, DistinctSessions;
    forall a | StoredPair(w, a) ensures Live(w.granted, w.released, a) {}
    forall c, a | c in w.peers && a in w.granted && HoldsSession(w.peers[c].client, a.sessionID)
      ensures w.peers[c].client.ports == Pair(a.rtpPort, a.rtcpPort)
    {
      assert PeerOk(w.server.sessions, w.granted, w.released, w.peers[c]);
      assert KnowsItsPorts(w.peers[c].client, a);
    }
  }

  /** Client/server agreement, over all interleavings of any number of clients, whatever the clock and the ports. */
  lemma AgreementOverRuns(range: Ports.PortRange, now: int, events: seq<Event>)
    requires ValidRun(Start(range, now), events)
    ensures Agreement(Run(Start(range, now), events))
  {
    hide Run, ValidRun, Agreeing, Agreement;
    StartAgrees(range, now);
    RunAgrees(Start(range, now), events);
    AgreeingIsAgreement(Run(Start(range, now), events));
  }

  /** Port safety, over all runs in which no cleanup drops marks. */
  lemma PortSafetyOverRuns(range: Ports.PortRange, now: int, events: seq<Event>)
    requires RangeOk(range) && ValidRun(Start(range, now), events) && UndisturbedRun(Start(range, now), events)
    ensures PortSafety(Run(Start(range, now), events))
  {
    hide Run, ValidRun, UndisturbedRun, Safe, PortSafety;
    StartSafe(range, now);
    RunSafe(Start(range, now), events);
    SafePorts(Run(Start(range, now), events));
  }

  lemma AnyLive(w: World) returns (a: PortAllocation)
    requires Safe(w) && w.server.pool.used != {}
    ensures Live(w.granted, w.released, a) && a.sessionID in w.ids
  {
    a := HolderOf(w.granted, w.released, w.server.pool.used);
    hide SessionsOk, PeersOk, DistinctSessions, PortsAreLive;
  }

  lemma HolderOf(granted: set<PortAllocation>, released: seq<PortAllocation>, used: set<int>)
    returns (a: PortAllocation)
    requires PortsAreLive(granted, released, used) && used != {}
    ensures Live(granted, released, a)
  {
    assert (forall port :: port !in used) ==> used == {};
    var port :| port in used;
    a :| Live(granted, released, a) && Holds(a, port);
  }

  /** What connections record, and what was released, was granted to sessions drawn before. */
  lemma RecordedIsOld(w: World, c: nat)
    requires Safe(w)
    ensures PeerOf(w, c).conn.allocation.Some? ==> PeerOf(w, c).conn.allocation.value.sessionID in w.ids
    ensures forall a :: a in w.released ==> a.sessionID in w.ids
  {
    PeerOfOk(w, c);
    assert forall a :: a in w.released ==> a in w.granted by { hide SessionsOk, PeersOk, DistinctSessions, GrantsOk; }
    hide SessionsOk, PeersOk, DistinctSessions, PortsAreLive;
  }

  /** What a UDP SETUP that reaches the allocator does to ports and history. */
  lemma AllocatingSetup(w: World, c: nat, t: Transport, env: Environment)
    requires |env.clock| == |env.probes| == 3 && !IsTCPTransport(t)
    requires PeerOf(w, c).client.hasSDP && PeerOf(w, c).client.connected
    requires PeerOf(w, c).conn.allocation.Some? ==> PeerOf(w, c).conn.allocation.value.sessionID != env.id
    ensures var (s, p) := Setup(w.server, PeerOf(w, c), t, env);
            var w' := AfterSetup(w, c, s, p, env.id);
            var (after, found) := Ports.AllocateWithRetry(w.server.pool, env.clock, env.probes);
            && w'.server.pool == after && w'.released == w.released
            && w'.granted == match found
                             case None => w.granted
                             case Some(p) => w.granted + {Granted(w.server.pool, p, env)}
  {
    hide Ports.AllocateWithRetry, Ports.SuccessTime, Printed, AcceptSetup, PortsText, PeerOf;
  }

  lemma AllocatingStep(w: World, e: Event)
    requires Safe(w) && Drawn(w, e) && DropsMarks(w, e)
    ensures var w' := Step(w, e);
            var (after, found) := Ports.AllocateWithRetry(w.server.pool, e.env.clock, e.env.probes);
            && w'.server.pool == after && w'.released == w.released
            && w'.granted == match found
                             case None => w.granted
                             case Some(p) => w.granted + {Granted(w.server.pool, p, e.env)}
  {
    hide Safe, Ports.AllocateWithRetry, Ports.DropsMarks, Parsed, Granted, Setup, AfterSetup, InRange;
    NotInterleaved(e.header);
    RecordedIsOld(w, e.c);
    AllocatingSetup(w, e.c, Requested(e.header, e.tcp), e.env);
  }

  lemma NotInterleaved(header: string)
    ensures !IsTCPTransport(Parsed(header))
  {
    ParsedInRange(header);
  }

  /** A SETUP that drops marks leaves a live pair unmarked, or hands its ports out again. */
  lemma DropBreaks(w: World, e: Event)
    requires Safe(w) && Drawn(w, e) && DropsMarks(w, e)
    ensures var w' := Step(w, e); !PortsAreLive(w'.granted, w'.released, w'.server.pool.used)
  {
    hide Safe, Step, Ports.AllocateWithRetry, Ports.DropsMarks, PortsAreLive, Granted;
    var (w', pool) := (Step(w, e), w.server.pool);
    MarksToDrop(pool, e.env.clock, e.env.probes);
    var a := AnyLive(w);
    AllocatingStep(w, e);
    RecordedIsOld(w, e.c);
    Ports.RetryAfterDrop(pool, e.env.clock, e.env.probes);
    match Ports.AllocateWithRetry(pool, e.env.clock, e.env.probes).1
    case None => AloneUnmarked(w'.granted, w'.released, a);
    case Some(p) =>
      var b := Granted(pool, p, e.env);
      GrantedIs(pool, p, e.env);
      PairHeldTwice(w'.granted, w'.released, a, b);
  }

  lemma GrantedIs(pool: Ports.Pool, p: int, env: Environment)
    requires |env.clock| == |env.probes|
    ensures var b := Granted(pool, p, env); b.rtpPort == p && b.rtcpPort == p + 1 && b.sessionID == env.id
  {
  }

  /** With no marks at all, a live pair is unmarked. */
  lemma AloneUnmarked(granted: set<PortAllocation>, released: seq<PortAllocation>, a: PortAllocation)
    requires Live(granted, released, a)
    ensures !PortsAreLive(granted, released, {})
  {
    assert Holds(a, a.rtpPort);
  }

  /** With the marks of one live pair alone, another live pair is unmarked or shares a port with it. */
  lemma PairHeldTwice(granted: set<PortAllocation>, released: seq<PortAllocation>, a: PortAllocation, b: PortAllocation)
    requires Live(granted, released, a) && Live(granted, released, b) && a != b
    ensures !PortsAreLive(granted, released, {b.rtpPort, b.rtcpPort})
  {
    assert Holds(a, a.rtpPort);
    assert a.rtpPort in {b.rtpPort, b.rtcpPort} ==> Holds(b, a.rtpPort);
  }

  lemma MarksToDrop(pool: Ports.Pool, clock: seq<int>, probes: seq<Ports.Probe>)
    requires |clock| == |probes| && Ports.DropsMarks(pool, clock, probes)
    ensures pool.used != {}
  {
    if pool.used == {} {
      Ports.NothingToDrop(pool, clock, probes);
    }
  }

  /** Port safety in every state of the run. */
  ghost predicate AlwaysPortSafe(w: World, events: seq<Event>)
    requires ValidRun(w, events)
    decreases |events|
  {
    PortSafety(w) && (events == [] || AlwaysPortSafe(Step(w, events[0]), events[1..]))
  }

  lemma {:induction false} SafeExactly(w: World, events: seq<Event>)
    requires Safe(w) && ValidRun(w, events)
    ensures AlwaysPortSafe(w, events) <==> UndisturbedRun(w, events)
    decreases |events|
  {
    hide Safe, Step, Drawn, DropsMarks, PortSafety;
    SafePorts(w);
    if events != [] {
      if DropsMarks(w, events[0]) {
        DropBreaks(w, events[0]);
        NotPortSafe(Step(w, events[0]));
      } else {
        StepSafe(w, events[0]);
        SafeExactly(Step(w, events[0]), events[1..]);
      }
    }
  }

  lemma NotPortSafe(w: World)
    requires !PortsAreLive(w.granted, w.released, w.server.pool.used)
    ensures !PortSafety(w)
  {
    hide PortsAreLive;
  }

  /** Ports are safe throughout a run if and only if no cleanup drops marks in it. */
  lemma PortSafetyExactly(range: Ports.PortRange, now: int, events: seq<Event>)
    requires RangeOk(range) && ValidRun(Start(range, now), events)
    ensures AlwaysPortSafe(Start(range, now), events) <==> UndisturbedRun(Start(range, now), events)
  {
    hide AlwaysPortSafe, UndisturbedRun, ValidRun, Safe;
    StartSafe(range, now);
    SafeExactly(Start(range, now), events);
  }

  // ---------------------------------------------------------------------------
  // Pairs that come back, and pairs that do not
  // ---------------------------------------------------------------------------

  /** A teardown gives the pair of its session back iff its connection is not on TCP and still records the pair. */
  lemma ReleasedExactly(w: World, c: nat, a: PortAllocation)
    requires Safe(w) && a in w.granted
    requires PeerOf(w, c).client.connected && HoldsSession(PeerOf(w, c).client, a.sessionID)
    ensures a.sessionID !in Step(w, DoTeardown(c)).server.sessions
    ensures a in Step(w, DoTeardown(c)).released
       <==> !PeerOf(w, c).conn.useTCP && PeerOf(w, c).conn.allocation == Some(a)
  {
    PeerOfOk(w, c);
    KnownIsNotEmpty(w, a.sessionID);
    hide PortsAreLive, PeersOk, DistinctSessions;
  }

  /** A pair that was not released when its session went. */
  ghost predicate Lost(w: World, a: PortAllocation) {
    Live(w.granted, w.released, a) && a.sessionID !in w.server.sessions
  }

  /** What a teardown frees belongs to a stored session. */
  lemma FreedIsStored(w: World, c: nat)
    requires Safe(w) && Freed(PeerOf(w, c)).Some?
    ensures Freed(PeerOf(w, c)).value.sessionID in w.server.sessions
  {
    PeerOfOk(w, c);
    hide Safe;
  }

  lemma TeardownKeepsLost(w: World, c: nat, a: PortAllocation)
    requires Safe(w) && Lost(w, a)
    ensures var (s, p) := Teardown(w.server, PeerOf(w, c)); Lost(AfterTeardown(w, c, s, p, Freed(PeerOf(w, c))), a)
  {
    if Freed(PeerOf(w, c)).Some? {
      FreedIsStored(w, c);
    }
    hide Safe, AcceptTeardown, PeerOf;
  }

  lemma StateKeepsLost(w: World, c: nat, target: SessionState, a: PortAllocation)
    requires Safe(w) && Lost(w, a)
    ensures var (s, p) := ChangeState(w.server, PeerOf(w, c), target);
            Lost(w.(server := s, peers := w.peers[c := p]), a)
  {
    hide Safe, AcceptState, PeerOf;
  }

  lemma SetupKeepsLost(w: World, c: nat, t: Transport, env: Environment, a: PortAllocation)
    requires Safe(w) && Lost(w, a) && |env.clock| == |env.probes| == 3 && env.id !in w.ids
    ensures var (s, p) := Setup(w.server, PeerOf(w, c), t, env); Lost(AfterSetup(w, c, s, p, env.id), a)
  {
    assert a.sessionID in w.ids by { hide SessionsOk, PortsAreLive, PeersOk, DistinctSessions; }
    hide Safe, AcceptSetup, PeerOf, Ports.AllocateWithRetry, Printed, Granted, PortsText;
  }

  lemma DisconnectKeepsLost(w: World, c: nat, a: PortAllocation)
    requires Safe(w) && Lost(w, a)
    ensures Lost(Step(w, Disconnect(c)), a)
  {
    hide Safe, Teardown, Freed, PeerOf;
    TeardownKeepsLost(w, c, a);
  }

  lemma OthersKeepLost(w: World, e: Event, a: PortAllocation)
    requires Drawn(w, e) && Lost(w, a) && (e.Connect? || e.Options? || e.Describe? || e.SetPortRange?)
    ensures Lost(Step(w, e), a)
  {
    hide AcceptOptions, AcceptDescribe, Ports.RangesOk, PeerOf;
  }

  lemma StepKeepsLost(w: World, e: Event, a: PortAllocation)
    requires Safe(w) && Drawn(w, e) && Lost(w, a)
    ensures Lost(Step(w, e), a)
  {
    hide Safe, Setup, Teardown, ChangeState, AfterSetup, AfterTeardown, Freed, Lost, PeerOf;
    match e
    case DoSetup(c, header, tcp, env) => SetupKeepsLost(w, c, Requested(header, tcp), env, a);
    case Play(c) => StateKeepsLost(w, c, Playing, a);
    case Pause(c) => StateKeepsLost(w, c, Ready, a);
    case DoTeardown(c) => TeardownKeepsLost(w, c, a);
    case Disconnect(c) => DisconnectKeepsLost(w, c, a);
    case _ => OthersKeepLost(w, e, a);
  }

  /** It never comes back: as long as no cleanup drops marks, both its ports stay marked. */
  lemma {:induction false} LostForever(w: World, events: seq<Event>, a: PortAllocation)
    requires Safe(w) && ValidRun(w, events) && UndisturbedRun(w, events) && Lost(w, a)
    ensures var w' := Run(w, events);
            Lost(w', a) && a.rtpPort in w'.server.pool.used && a.rtcpPort in w'.server.pool.used
    decreases |events|
  {
    hide Step, Drawn, DropsMarks;
    if events == [] {
      assert Holds(a, a.rtpPort) && Holds(a, a.rtcpPort);
    } else {
      hide Safe, Lost;
      StepSafe(w, events[0]);
      StepKeepsLost(w, events[0], a);
      LostForever(Step(w, events[0]), events[1..], a);
    }
  }

  // ---------------------------------------------------------------------------
  // What a cleanup does to it
  // ---------------------------------------------------------------------------

  /** With nothing marked, or a cleanup due, the first attempt takes the first pair if the system lets it. */
  lemma FirstAttempt(pool: Ports.Pool, clock: seq<int>, probes: seq<Ports.Probe>)
    requires |clock| == |probes| > 0 && pool.range.start < pool.range.end
    requires pool.used == {} || Ports.CleanupDue(pool, clock[0])
    requires probes[0](pool.range.start) && probes[0](pool.range.start + 1)
    ensures Ports.AllocateWithRetry(pool, clock, probes).1 == Some(pool.range.start)
    ensures Ports.AllocateWithRetry(pool, clock, probes).0.range == pool.range
    ensures Ports.AllocateWithRetry(pool, clock, probes).0.used == {pool.range.start, pool.range.start + 1}
    ensures !Ports.CleanupDue(pool, clock[0]) ==>
              Ports.AllocateWithRetry(pool, clock, probes).0.lastCleanup == pool.lastCleanup
  {
  }

  /** Without a cleanup in between it cannot happen: two stored sessions are given the same ports. */
  lemma CleanupSharesPorts(range: Ports.PortRange, now: int, header: string, first: Environment, second: Environment)
    requires range.start < range.end && first.id != second.id
    requires |first.clock| == |first.probes| == 3 && |second.clock| == |second.probes| == 3
    requires first.clock[0] - now < Ports.CLEANUP_INTERVAL <= second.clock[0] - now
    requires first.probes[0](range.start) && first.probes[0](range.start + 1)
    requires second.probes[0](range.start) && second.probes[0](range.start + 1)
    ensures var t := Parsed(header);
            var (s1, conn1, _) := HandleSetup(Start(range, now).server, NEW_CONNECTION, t, first);
            var (s2, conn2, _) := HandleSetup(s1, NEW_CONNECTION, t, second);
            && first.id in s2.sessions && second.id in s2.sessions
            && conn1.allocation.Some? && conn2.allocation.Some?
            && conn1.allocation.value.rtpPort == conn2.allocation.value.rtpPort == range.start
  {
    ParsedInRange(header);
    hide Parsed, Printed, PortsText, Ports.AllocateWithRetry, Ports.SuccessTime;
    var pool := Start(range, now).server.pool;
    FirstAttempt(pool, first.clock, first.probes);
    FirstAttempt(Ports.AllocateWithRetry(pool, first.clock, first.probes).0, second.clock, second.probes);
  }

  // ---------------------------------------------------------------------------
  // A session from start to end
  // ---------------------------------------------------------------------------

  lemma RunCons(w: World, e: Event, rest: seq<Event>)
    requires Drawn(w, e) && ValidRun(Step(w, e), rest)
    ensures ValidRun(w, [e] + rest) && Run(w, [e] + rest) == Run(Step(w, e), rest)
  {
    hide Step, Drawn;
    assert ([e] + rest)[1..] == rest;
  }

  /** The events of StartSession for client 0. */
  function SessionEvents(header: string, env: Environment): seq<Event> {
    [Connect(0)] + ([Options(0)] + ([Describe(0, true)] + ([DoSetup(0, header, false, env)] + ([Play(0)] + []))))
  }

  lemma SetupOfFirst(w: World, header: string, env: Environment)
    requires Safe(w) && Drawn(w, DoSetup(0, header, false, env))
    requires w.server.pool.used == {} && w.server.pool.range.start < w.server.pool.range.end
    requires env.probes[0](w.server.pool.range.start) && env.probes[0](w.server.pool.range.start + 1)
    requires PeerOf(w, 0).client.connected && PeerOf(w, 0).client.hasSDP
    ensures var w' := Step(w, DoSetup(0, header, false, env));
            var start := w.server.pool.range.start;
            && 0 in w'.peers && w'.peers[0].client.connected
            && w'.peers[0].client.session == Some(ClientSession(env.id, Ready))
            && w'.peers[0].client.ports == Pair(start, start + 1)
            && w'.peers[0].client.sequenceNum == Counted(PeerOf(w, 0).client).sequenceNum
            && w'.server.pool.used == {start, start + 1}
  {
    hide Ports.AllocateWithRetry, Printed, Parsed, ClientPair, AcceptSetup, Ports.SuccessTime;
    hide SessionsOk, PortsAreLive, GrantsOk, PeersOk, DistinctSessions;
    var start := w.server.pool.range.start;
    FirstAttempt(w.server.pool, env.clock, env.probes);
    ParsedInRange(header);
    var reply := Reply(OK, env.id, ReplyHeader(header, start, start + 1));
    PrintedIsNotEmpty(Parsed(header).(serverPorts := PortsText(start, start + 1)));
    AcceptsSession(PeerOf(w, 0).client, reply);
    AcceptKeepsConnection(PeerOf(w, 0).client, reply);
    ClientSeesServerPair(header, start);
  }

  lemma AcceptKeepsConnection(c: Client, r: Reply)
    ensures AcceptSetup(c, r).connected == c.connected
    ensures AcceptSetup(c, r).sequenceNum == c.sequenceNum || AcceptSetup(c, r).sequenceNum == Counted(c).sequenceNum
    ensures r.status == OK && r.transport != "" && r.sessionID != "" ==>
              AcceptSetup(c, r).sequenceNum == Counted(c).sequenceNum
  {
    hide ClientPair;
  }

  /** The run of four enabled events, one after the other. */
  lemma RunFour(w: World, a: Event, b: Event, c: Event, d: Event)
    requires Drawn(w, a) && Drawn(Step(w, a), b) && Drawn(Step(Step(w, a), b), c)
    requires Drawn(Step(Step(Step(w, a), b), c), d)
    ensures ValidRun(w, [a] + ([b] + ([c] + ([d] + []))))
    ensures Run(w, [a] + ([b] + ([c] + ([d] + [])))) == Step(Step(Step(Step(w, a), b), c), d)
  {
    hide Step, Drawn;
    var w3 := Step(Step(Step(w, a), b), c);
    assert ValidRun(Step(w3, d), []) && Run(Step(w3, d), []) == Step(w3, d);
    hide ValidRun, Run;
    RunCons(w3, d, []);
    RunCons(Step(Step(w, a), b), c, [d] + []);
    RunCons(Step(w, a), b, [c] + ([d] + []));
    RunCons(w, a, [b] + ([c] + ([d] + [])));
  }

  /** The state after SETUP and PLAY of a client that is ready for them. */
  lemma SetupAndPlay(w: World, header: string, env: Environment)
    requires Safe(w) && Drawn(w, DoSetup(0, header, false, env))
    requires w.server.pool.used == {} && w.server.pool.range.start < w.server.pool.range.end
    requires env.probes[0](w.server.pool.range.start) && env.probes[0](w.server.pool.range.start + 1)
    requires PeerOf(w, 0).client.connected && PeerOf(w, 0).client.hasSDP
    ensures Drawn(Step(w, DoSetup(0, header, false, env)), Play(0))
    ensures var w' := Step(Step(w, DoSetup(0, header, false, env)), Play(0));
            var start := w.server.pool.range.start;
            && 0 in w'.peers && w'.peers[0].client.session == Some(ClientSession(env.id, Playing))
            && env.id in w'.server.sessions && w'.server.sessions[env.id] == Playing
            && w'.peers[0].client.ports == Pair(start, start + 1)
            && w'.peers[0].client.sequenceNum == Counted(Counted(PeerOf(w, 0).client)).sequenceNum
            && w'.server.pool.used == {start, start + 1}
  {
    hide Step, Drawn, Safe;
    var w3 := Step(w, DoSetup(0, header, false, env));
    SetupOfFirst(w, header, env);
    SetupStep(w, 0, header, false, env);
    OthersDrawNothing(w3, Play(0));
    PlayOfFirst(w3, env.id);
  }

  /**
   The client's StartSession goes through on an idle server, for every Transport header: afterwards the
   session is Playing on both sides, the client holds the first pair of the range, and has counted four requests.
   */
  lemma StartSessionSucceeds(range: Ports.PortRange, now: int, header: string, env: Environment)
    requires RangeOk(range) && range.start < range.end
    requires Drawn(Start(range, now), DoSetup(0, header, false, env))
    requires env.probes[0](range.start) && env.probes[0](range.start + 1)
    ensures ValidRun(Start(range, now), SessionEvents(header, env))
    ensures var w := Run(Start(range, now), SessionEvents(header, env));
            && 0 in w.peers && w.peers[0].client.session == Some(ClientSession(env.id, Playing))
            && env.id in w.server.sessions && w.server.sessions[env.id] == Playing
            && w.peers[0].client.ports == Pair(range.start, range.start + 1) && w.peers[0].client.sequenceNum == 5
            && w.server.pool.used == {range.start, range.start + 1}
  {
    hide Step, Safe, Start, Run, ValidRun;
    var setup := DoSetup(0, header, false, env);
    BeforeSetup(range, now, setup);
    var w1 := Step(Start(range, now), Connect(0));
    SetupAndPlay(Step(Step(w1, Options(0)), Describe(0, true)), header, env);
    RunFour(w1, Options(0), Describe(0, true), setup, Play(0));
    RunCons(Start(range, now), Connect(0), [Options(0)] + ([Describe(0, true)] + ([setup] + ([Play(0)] + []))));
  }

  lemma OthersDrawNothing(w: World, e: Event)
    requires !e.DoSetup?
    ensures Drawn(w, e)
  {
  }

  /** After Connect, Options and Describe the client may set up, and nothing else has changed. */
  lemma BeforeSetup(range: Ports.PortRange, now: int, setup: Event)
    requires RangeOk(range) && setup.DoSetup? && Drawn(Start(range, now), setup)
    ensures Drawn(Start(range, now), Connect(0)) && Drawn(Step(Start(range, now), Connect(0)), Options(0))
    ensures Drawn(Step(Step(Start(range, now), Connect(0)), Options(0)), Describe(0, true))
    ensures var w := Step(Step(Step(Start(range, now), Connect(0)), Options(0)), Describe(0, true));
            && Safe(w) && Drawn(w, setup)
            && w.server.pool == Ports.Pool(range, {}, now)
            && PeerOf(w, 0).client.connected && PeerOf(w, 0).client.hasSDP && PeerOf(w, 0).client.sequenceNum == 3
  {
    StartSafe(range, now);
    hide Safe;
    var w1 := Step(Start(range, now), Connect(0));
    StepSafe(Start(range, now), Connect(0));
    StepSafe(w1, Options(0));
    StepSafe(Step(w1, Options(0)), Describe(0, true));
  }

  lemma PlayOfFirst(w: World, id: string)
    requires Safe(w) && 0 in w.peers && w.peers[0].client.connected
    requires w.peers[0].client.session == Some(ClientSession(id, Ready))
    ensures var w' := Step(w, Play(0));
            && 0 in w'.peers && w'.peers[0].client.session == Some(ClientSession(id, Playing))
            && id in w'.server.sessions && w'.server.sessions[id] == Playing
            && w'.peers[0].client.ports == w.peers[0].client.ports
            && w'.peers[0].client.sequenceNum == Counted(w.peers[0].client).sequenceNum
            && w'.server.pool == w.server.pool
  {
    PeerOfOk(w, 0);
    KnownIsNotEmpty(w, id);
    hide SessionsOk, PortsAreLive, GrantsOk, PeersOk, DistinctSessions;
  }
}
