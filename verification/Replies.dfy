/** What any request is answered, whoever sends it and in whatever state, and what a whole history of them leaves. */
module Replies {
  import opened Results
  import opened GoStrings
  import opened MapOrder
  import opened Strconv
  import opened RTSPMessage
  import opened Requests
  import opened Protocol
  import opened Deliveries
  import opened Exchanges
  import TransportHeader
  import MessageStream
  import Negotiation
  import Channels
  import Ports

  // ---------------------------------------------------------------------------
  // One request
  // ---------------------------------------------------------------------------

  /** The stream of a URL is what follows its last slash. */
  lemma StreamNameIsLast(prefix: string, name: string)
    requires '/' !in name
    ensures StreamName(prefix + "/" + name) == name && StreamName(name) == name
  {
    hide Split;
    SplitAppend(prefix, '/', name);
    SplitNone(name, '/');
    assert prefix + "/" + name == prefix + ['/'] + name;
  }

  /** DESCRIBE of a stream finds it if and only if the server has it, and changes nothing. */
  lemma DescribeReplies(s: Server, conn: Connection, streams: set<string>, m: Message, env: Environment,
                        prefix: string, name: string)
    requires |env.clock| == |env.probes| == 3 && m.method_ == "DESCRIBE"
    requires '/' !in name && (m.url == prefix + "/" + name || m.url == name)
    ensures HandleMessage(s, conn, streams, m, env)
         == (s, conn, Reply(if name in streams then OK else NotFound, "", ""))
  {
    hide StreamName;
    StreamNameIsLast(prefix, name);
  }

  /** The reply to PLAY and PAUSE, and what stays: a session is needed, and no other one changes. */
  lemma StateReplies(s: Server, conn: Connection, streams: set<string>, m: Message, env: Environment)
    requires |env.clock| == |env.probes| == 3 && m.method_ in {"PLAY", "PAUSE"}
    ensures var (s', conn', reply) := HandleMessage(s, conn, streams, m, env);
            var id := Header(m, "Session");
            && (reply.status == OK <==> id != "" && id in s.sessions)
            && (reply.status == NotFound <==> id != "" && id !in s.sessions)
            && (reply.status == BadRequest <==> id == "")
            && (reply.status != OK ==> s' == s && reply.sessionID == "" && reply.transport == "")
            && (reply.status == OK ==>
                  && reply.sessionID == id
                  && s' == s.(sessions := s'.sessions) && s'.sessions.Keys == s.sessions.Keys
                  && s'.sessions[id] == (if m.method_ == "PLAY" then Playing else Ready)
                  && forall other :: other in s.sessions && other != id ==> s'.sessions[other] == s.sessions[other])
            && conn' == conn
  {
    hide Header;
  }

  /** TEARDOWN is always granted; the session it names is gone afterwards, and every other one is as before. */
  lemma TeardownReplies(s: Server, conn: Connection, streams: set<string>, m: Message, env: Environment)
    requires |env.clock| == |env.probes| == 3 && m.method_ == "TEARDOWN"
    ensures var (s', conn', reply) := HandleMessage(s, conn, streams, m, env);
            var id := Header(m, "Session");
            && reply == Reply(OK, id, "") && conn' == conn
            && (id == "" ==> s' == s)
            && (id != "" ==> id !in s'.sessions)
            && (forall other :: other in s.sessions && other != id ==>
                  other in s'.sessions && s'.sessions[other] == s.sessions[other])
            && s'.sessions.Keys <= s.sessions.Keys
  {
    hide Header, Ports.Release, Channels.Release;
  }

  /**
   SETUP needs a Transport header and a pair of ports; the new session is stored even when there is no pair.
   No header that is parsed ever asks for channels.
   */
  lemma SetupReplies(s: Server, conn: Connection, streams: set<string>, m: Message, env: Environment)
    requires |env.clock| == |env.probes| == 3 && m.method_ == "SETUP"
    ensures var (s', conn', reply) := HandleMessage(s, conn, streams, m, env);
            var (pool, found) := Ports.AllocateWithRetry(s.pool, env.clock, env.probes);
            var header := Header(m, "Transport");
            && (reply.status == BadRequest <==> header == "")
            && (reply.status == OK <==> header != "" && found.Some?)
            && (reply.status == ServiceUnavailable <==> header != "" && found.None?)
            && (header == "" ==> s' == s && conn' == conn)
            && (header != "" ==>
                  s' == s.(sessions := s.sessions[env.id := Ready], pool := pool) && conn'.sessionID == Some(env.id))
            && reply.sessionID == (if reply.status == OK then env.id else "")
  {
    var header := Header(m, "Transport");
    NeverTCP(header);
    hide Header, TransportHeader.Parsed, TransportHeader.Printed, Negotiation.IsTCPTransport, Negotiation.PortsText;
    hide Ports.AllocateWithRetry, Ports.SuccessTime;
    SetupReply(s, conn, TransportHeader.Parsed(header), env);
  }

  /**
   SETUP of a transport over TCP, which no parsed header is: the next pair of channels is stored and named in the
   reply, and no port is touched.
   */
  lemma ChannelReplies(s: Server, conn: Connection, channels: string, env: Environment)
    requires |env.clock| == |env.probes| == 3
    ensures var initial := TransportHeader.INITIAL;
            var t := initial.(kind := TransportHeader.Interleaved, mode := "PLAY", interleaved := channels);
            var (s', conn', reply) := HandleSetup(s, conn, t, env);
            var (k, l) := (s.channels.next as int, (s.channels.next as int + 1) % 256);
            var channel := Channels.TCPChannel(k, l, env.id);
            && s' == Server(s.sessions[env.id := Ready], s.pool,
                            Channels.ChannelTable(s.channels.channels[env.id := channel], (k + 2) % 256))
            && conn' == Connection(Some(env.id), conn.allocation, Some(channel), true)
            && reply == Reply(OK, env.id, "RTP/AVP/TCP" + ";" + "unicast" + ";" + "mode=PLAY" + ";"
                                          + ("interleaved" + "=" + (Itoa(k) + "-" + Itoa(l))))
  {
    hide TransportHeader.Printed, Ports.AllocateWithRetry, Itoa;
    var next := Channels.NextChannel(s.channels, env.id);
    TransportHeader.TCPHeader(Itoa(next.rtpChannel) + "-" + Itoa(next.rtcpChannel));
  }

  /** What TEARDOWN gives back: the channel of the session it names on a TCP connection that has one, else the pair. */
  lemma TeardownReleases(s: Server, conn: Connection, streams: set<string>, m: Message, env: Environment)
    requires |env.clock| == |env.probes| == 3 && m.method_ == "TEARDOWN"
    ensures var s' := HandleMessage(s, conn, streams, m, env).0;
            var (id, tcp) := (Header(m, "Session"), conn.useTCP && conn.channel.Some?);
            && (forall other :: other in s.channels.channels ==>
                  (other !in s'.channels.channels <==> other == id && id != "" && tcp))
            && s'.channels.next == s.channels.next
            && (forall other :: other in s'.channels.channels ==>
                  other in s.channels.channels && s'.channels.channels[other] == s.channels.channels[other])
            && (forall p :: p in s.pool.used ==>
                  (p !in s'.pool.used <==> id != "" && !tcp && conn.allocation.Some?
                                           && p in {conn.allocation.value.rtpPort, conn.allocation.value.rtcpPort}))
            && s'.pool == s.pool.(used := s'.pool.used) && s'.pool.used <= s.pool.used
  {
    hide Header;
  }

  const METHODS: seq<string> := ["OPTIONS", "DESCRIBE", "SETUP", "PLAY", "PAUSE", "TEARDOWN"]

  lemma PublicNames()
    ensures Public() == METHODS[0] + ", " + METHODS[1] + ", " + METHODS[2] + ", " + METHODS[3] + ", " + METHODS[4]
                      + ", " + METHODS[5]
  {
  }

  lemma SetupStatus(s: Server, conn: Connection, t: TransportHeader.Transport, env: Environment)
    requires |env.clock| == |env.probes| == 3
    ensures HandleSetup(s, conn, t, env).2.status in {OK, ServiceUnavailable}
  {
    hide TransportHeader.Printed, Negotiation.PortsText, Granted, Ports.AllocateWithRetry, Channels.Allocate;
  }

  lemma StateStatus(s: Server, id: string, target: SessionState)
    ensures HandleState(s, id, target).1.status in {OK, BadRequest, NotFound}
  {
  }

  lemma TeardownStatus(s: Server, conn: Connection, id: string)
    ensures HandleTeardown(s, conn, id).1.status == OK
  {
    hide Ports.Release, Channels.Release;
  }

  /** Exactly the methods that the server names in its reply to OPTIONS are handled; any other changes nothing. */
  lemma PublicIsHandled(s: Server, conn: Connection, streams: set<string>, m: Message, env: Environment)
    requires |env.clock| == |env.probes| == 3
    ensures var (s', conn', reply) := HandleMessage(s, conn, streams, m, env);
            && (reply.status == MethodNotAllowed <==> m.method_ !in METHODS)
            && (reply.status == MethodNotAllowed ==> s' == s && conn' == conn)
            && (m.method_ == "OPTIONS" ==> (s', conn', reply) == (s, conn, Reply(OK, "", "")))
  {
    hide Header, StreamName, TransportHeader.Parsed, TransportHeader.Printed, Negotiation.PortsText, Granted;
    hide Ports.AllocateWithRetry, Channels.NextChannel, Channels.Allocate;
  }

  // ---------------------------------------------------------------------------
  // Exchanges of text
  // ---------------------------------------------------------------------------

  /** What the client sees of a PLAY or PAUSE by text, whatever request it sends. */
  lemma StateSeen(s: Server, conn: Connection, x: Surroundings, env: Environment, request: Message,
                  s': Server, conn': Connection, answer: Reply)
    requires |env.clock| == |env.probes| == 3 && '\n' !in env.id && SurroundingsOk(x)
    requires MessageStream.Framed(request) && request.method_ in {"PLAY", "PAUSE"}
    requires Exchanged(s, conn, x, env, request, s', conn', answer)
    ensures var id := TrimSpace(Header(request, "Session"));
            && (answer.status == OK <==> id != "" && id in s.sessions)
            && (answer.status == NotFound <==> id != "" && id !in s.sessions)
            && (answer.status == BadRequest <==> id == "")
            && (answer.status != OK ==> s' == s)
            && (answer.status == OK ==>
                  s' == s.(sessions := s.sessions[id := if request.method_ == "PLAY" then Playing else Ready]))
            && conn' == conn
  {
    hide Exchanged, HandleMessage, Header, TrimSpace, MessageStream.Framed, SurroundingsOk, MessageStream.Received;
    ExchangeIsHandler(s, conn, x, env, request, s', conn', answer);
    var arrived := MessageStream.Received(request);
    ArrivedMethod(request);
    StateReplies(s, conn, x.streams, arrived, env);
    ReceivedHeader(request, "Session");
    var id := Header(arrived, "Session");
    if answer.status == OK {
      var state := if request.method_ == "PLAY" then Playing else Ready;
      assert s'.sessions == s.sessions[id := state];
    }
  }

  lemma ArrivedMethod(request: Message)
    ensures MessageStream.Received(request).method_ == request.method_
    ensures MessageStream.Received(request).url == request.url
  {
  }

  /** What the client sees of a DESCRIBE by text. */
  lemma DescribeSeen(s: Server, conn: Connection, x: Surroundings, env: Environment, request: Message,
                     prefix: string, name: string, s': Server, conn': Connection, answer: Reply)
    requires |env.clock| == |env.probes| == 3 && '\n' !in env.id && SurroundingsOk(x)
    requires MessageStream.Framed(request) && request.method_ == "DESCRIBE"
    requires '/' !in name && request.url == prefix + "/" + name
    requires Exchanged(s, conn, x, env, request, s', conn', answer)
    ensures s' == s && conn' == conn && answer.status == (if name in x.streams then OK else NotFound)
  {
    hide Exchanged, HandleMessage, TrimSpace, MessageStream.Framed, SurroundingsOk, MessageStream.Received;
    ExchangeIsHandler(s, conn, x, env, request, s', conn', answer);
    ArrivedMethod(request);
    DescribeReplies(s, conn, x.streams, MessageStream.Received(request), env, prefix, name);
  }

  /** The first line of a response, for each status. */
  function LineFor(status: Status): string {
    match status
    case OK => "RTSP/1.0 200 OK\r\n"
    case BadRequest => "RTSP/1.0 400 Bad Request\r\n"
    case NotFound => "RTSP/1.0 404 Not Found\r\n"
    case MethodNotAllowed => "RTSP/1.0 405 Method Not Allowed\r\n"
    case ServiceUnavailable => "RTSP/1.0 503 Service Unavailable\r\n"
  }

  lemma StatusLine(m: Message, status: Status)
    requires m.kind == MessageType.Response && m.version == RTSP_VERSION
    requires m.statusCode == StatusCode(status) && m.statusText == StatusText(status)
    ensures FirstLine(m) + CRLF == LineFor(status)
  {
    Codes();
    hide Itoa;
    match status
    case OK => GrantedLine();
    case BadRequest => BadRequestLine();
    case NotFound => NotFoundLine();
    case MethodNotAllowed => NotAllowedLine();
    case ServiceUnavailable => UnavailableLine();
  }

  /** The text of a response: the line of its status, the headers in some order, a blank line and the body. */
  lemma ResponseText(method_: string, reply: Reply, x: Surroundings, text: string) returns (order: seq<string>)
    requires IsPrinting(ServerResponse(method_, reply, x), text)
    ensures IsOrder(order, ReplyHeaders(method_, reply, x).Keys)
    ensures text == LineFor(reply.status)
                    + (HeaderText(ReplyHeaders(method_, reply, x), order) + (CRLF + ReplyBody(method_, reply, x)))
  {
    var m := ServerResponse(method_, reply, x);
    StatusLine(m, reply.status);
    hide ReplyHeaders, ReplyBody, HeaderText, FirstLine, StatusCode, StatusText, LineFor;
    hide IsOrder;
    order :| IsOrder(order, m.headers.Keys) && text == Printed(m, order);
    Regrouped(FirstLine(m), HeaderText(m.headers, order), m.body);
  }

  lemma Regrouped(first: string, headers: string, body: string)
    ensures first + CRLF + headers + CRLF + body == (first + CRLF) + (headers + (CRLF + body))
  {
  }

  /** A refusal is its first line and a blank one. */
  lemma RefusalText(method_: string, reply: Reply, x: Surroundings, text: string)
    requires IsPrinting(ServerResponse(method_, reply, x), text) && reply.status != OK
    ensures text == LineFor(reply.status) + CRLF
  {
    var order := ResponseText(method_, reply, x, text);
    hide IsPrinting, LineFor;
    OrderLength(order, {});
    assert HeaderText(map[], []) + (CRLF + "") == CRLF;
  }

  lemma TwoOrders(order: seq<string>, a: string, b: string)
    requires IsOrder(order, {a, b}) && a != b
    ensures order == [a, b] || order == [b, a]
  {
    OrderLength(order, {a, b});
    assert order[0] in order && order[1] in order;
  }

  /** PLAY, PAUSE and TEARDOWN answer with the session, and PLAY with the URL of the stream as well. */
  lemma GrantedText(method_: string, reply: Reply, x: Surroundings, text: string)
    requires IsPrinting(ServerResponse(method_, reply, x), text) && reply.status == OK
    ensures var session := HeaderLine("Session", reply.sessionID) + CRLF;
            var info := HeaderLine("RTP-Info", "url=" + x.sessionURL + ";seq=0;rtptime=0") + CRLF;
            && (method_ in {"PAUSE", "TEARDOWN"} ==> text == LineFor(OK) + (session + CRLF))
            && (method_ == "PLAY" ==>
                  text == LineFor(OK) + (session + (info + CRLF)) || text == LineFor(OK) + (info + (session + CRLF)))
  {
    hide IsPrinting, LineFor, HeaderLine, ServerResponse, Public, SdpType, Itoa;
    if method_ in {"PAUSE", "TEARDOWN"} {
      var order := ResponseText(method_, reply, x, text);
      assert ReplyHeaders(method_, reply, x).Keys == {"Session"};
      SingleOrder(order, "Session");
      OneHeader(ReplyHeaders(method_, reply, x), "Session", reply.sessionID);
    } else if method_ == "PLAY" {
      TwoHeaderText(method_, reply, x, text, "Session", "RTP-Info");
    }
  }

  /** DESCRIBE answers with the type and the length of the description, and with the description itself. */
  lemma DescribedText(reply: Reply, x: Surroundings, text: string)
    requires IsPrinting(ServerResponse("DESCRIBE", reply, x), text) && reply.status == OK
    ensures var kind := HeaderLine("Content-Type", "application/sdp") + CRLF;
            var length := HeaderLine("Content-Length", Itoa(|x.sdp|)) + CRLF;
            || text == LineFor(OK) + (kind + (length + (CRLF + x.sdp)))
            || text == LineFor(OK) + (length + (kind + (CRLF + x.sdp)))
  {
    hide IsPrinting, LineFor, HeaderLine, ServerResponse, Public, Itoa;
    TwoHeaderText("DESCRIBE", reply, x, text, "Content-Type", "Content-Length");
  }

  lemma TwoHeaderText(method_: string, reply: Reply, x: Surroundings, text: string, a: string, b: string)
    requires IsPrinting(ServerResponse(method_, reply, x), text) && a != b
    requires ReplyHeaders(method_, reply, x).Keys == {a, b}
    ensures var (headers, end) := (ReplyHeaders(method_, reply, x), CRLF + ReplyBody(method_, reply, x));
            var (first, second) := (HeaderLine(a, headers[a]) + CRLF, HeaderLine(b, headers[b]) + CRLF);
            || text == LineFor(reply.status) + (first + (second + end))
            || text == LineFor(reply.status) + (second + (first + end))
  {
    hide IsPrinting, LineFor, HeaderLine, ServerResponse, ReplyHeaders, ReplyBody;
    var order := ResponseText(method_, reply, x, text);
    TwoOrders(order, a, b);
    TwoHeaders(ReplyHeaders(method_, reply, x), a, b, CRLF + ReplyBody(method_, reply, x));
    TwoHeaders(ReplyHeaders(method_, reply, x), b, a, CRLF + ReplyBody(method_, reply, x));
  }

  lemma TwoHeaders(headers: map<string, string>, a: string, b: string, end: string)
    requires a in headers && b in headers
    ensures HeaderText(headers, [a, b]) + end
         == HeaderLine(a, headers[a]) + CRLF + (HeaderLine(b, headers[b]) + CRLF + end)
  {
    hide HeaderLine;
    assert [a, b][1..] == [b] && [b][1..] == [];
    assert HeaderText(headers, []) == "";
    assert HeaderText(headers, [b]) == HeaderLine(b, headers[b]) + CRLF + "";
  }

  /** A request without headers of its own: the line, then the client's name and the number of the request. */
  lemma RequestText(method_: string, url: string, cseq: int, text: string)
    requires IsPrinting(ClientRequest(method_, url, cseq, map[]), text)
    ensures var line := method_ + " " + url + " " + "RTSP/1.0" + CRLF;
            var agent := HeaderLine("User-Agent", "Go-RTSP-Client/1.0") + CRLF;
            var number := HeaderLine("CSeq", Itoa(cseq)) + CRLF;
            text == line + (agent + (number + CRLF)) || text == line + (number + (agent + CRLF))
  {
    var m := ClientRequest(method_, url, cseq, map[]);
    FirstLineLayout(m);
    assert m.headers.Keys == {"User-Agent", "CSeq"};
    hide HeaderText, FirstLine, HeaderLine, Itoa, IsOrder;
    var order :| IsOrder(order, m.headers.Keys) && text == Printed(m, order);
    TwoOrders(order, "User-Agent", "CSeq");
    TwoHeaders(m.headers, "User-Agent", "CSeq", CRLF);
    TwoHeaders(m.headers, "CSeq", "User-Agent", CRLF);
    Regrouped(FirstLine(m), HeaderText(m.headers, order), "");
    assert CRLF + "" == CRLF;
  }

  lemma GrantedLine()
    ensures RTSP_VERSION + " " + "200" + " " + "OK" + CRLF == "RTSP/1.0 200 OK\r\n"
  {
  }

  lemma BadRequestLine()
    ensures RTSP_VERSION + " " + "400" + " " + "Bad Request" + CRLF == "RTSP/1.0 400 Bad Request\r\n"
  {
  }

  lemma NotFoundLine()
    ensures RTSP_VERSION + " " + "404" + " " + "Not Found" + CRLF == "RTSP/1.0 404 Not Found\r\n"
  {
  }

  lemma NotAllowedLine()
    ensures RTSP_VERSION + " " + "405" + " " + "Method Not Allowed" + CRLF == "RTSP/1.0 405 Method Not Allowed\r\n"
  {
  }

  lemma UnavailableLine()
    ensures RTSP_VERSION + " " + "503" + " " + "Service Unavailable" + CRLF == "RTSP/1.0 503 Service Unavailable\r\n"
  {
  }

  lemma Codes()
    ensures Itoa(200) == "200" && Itoa(400) == "400" && Itoa(404) == "404" && Itoa(405) == "405" && Itoa(503) == "503"
  {
  }

  // ---------------------------------------------------------------------------
  // Counting
  // ---------------------------------------------------------------------------

  /** PLAY and PAUSE requests in a row. */
  function ChangeAll(s: Server, p: Peer, targets: seq<SessionState>): (Server, Peer)
    decreases |targets|
  {
    if targets == [] then (s, p)
    else
      var (s', p') := ChangeState(s, p, targets[0]);
      ChangeAll(s', p', targets[1..])
  }

  /** With a session that the server has, every request counts once, and both sides end in the state asked for last. */
  lemma {:induction false} EveryChangeCounts(s: Server, p: Peer, targets: seq<SessionState>)
    requires p.client.connected && p.client.session.Some? && 0 <= p.client.sequenceNum < 0x1_0000
    requires var id := p.client.session.value.id; id != "" && id in s.sessions
    ensures var ((s', p'), id) := (ChangeAll(s, p, targets), p.client.session.value.id);
            && p'.client.sequenceNum == (p.client.sequenceNum + |targets|) % 0x1_0000
            && (targets != [] ==>
                  var last := targets[|targets| - 1];
                  && p'.client.session == Some(ClientSession(id, last))
                  && s'.sessions == s.sessions[id := last])
            && s'.pool == s.pool && s'.channels == s.channels && p'.conn == p.conn && p'.client.ports == p.client.ports
    decreases |targets|
  {
    if targets != [] {
      var (s', p') := ChangeState(s, p, targets[0]);
      EveryChangeCounts(s', p', targets[1..]);
    }
  }

  /** Without a session, or with one that the server does not have, nothing changes at all. */
  lemma RefusedChange(s: Server, p: Peer, target: SessionState)
    requires p.client.session.None? || !p.client.connected || p.client.session.value.id !in s.sessions
             || p.client.session.value.id == ""
    ensures ChangeState(s, p, target) == (s, p)
  {
  }

  /** A refused SETUP, or a reply without a Transport header, leaves the client as it is; ports stay until new ones. */
  lemma SetupAccepted(c: Client, r: Reply)
    ensures r.status != OK || r.transport == "" ==> AcceptSetup(c, r) == c
    ensures r.status == OK && r.transport != "" ==>
              var (c', pair) := (AcceptSetup(c, r), Negotiation.ClientPair(r.transport));
              && (c'.ports != c.ports ==> c'.ports == pair && pair.Pair?)
              && (pair.Pair? ==> c'.ports == pair)
              && c'.session == (if r.sessionID == "" then c.session else Some(ClientSession(r.sessionID, Ready)))
              && c'.connected == c.connected && c'.hasSDP == c.hasSDP
  {
    hide Negotiation.ClientPair;
  }

  // ---------------------------------------------------------------------------
  // Histories
  // ---------------------------------------------------------------------------

  /** What one request says about a session, from the request alone. */
  function Told(st: Option<SessionState>, d: Delivery, id: string): Option<SessionState> {
    if d.m.method_ == "SETUP" && Header(d.m, "Transport") != "" && d.env.id == id then Some(Ready)
    else if id == "" || Header(d.m, "Session") != id then st
    else if d.m.method_ == "TEARDOWN" then None
    else if d.m.method_ == "PLAY" && st.Some? then Some(Playing)
    else if d.m.method_ == "PAUSE" && st.Some? then Some(Ready)
    else st
  }

  function Standing(st: Option<SessionState>, ds: seq<Delivery>, id: string): Option<SessionState>
    decreases |ds|
  {
    if ds == [] then st else Standing(Told(st, ds[0], id), ds[1..], id)
  }

  function StateOf(s: Server, id: string): Option<SessionState> {
    if id in s.sessions then Some(s.sessions[id]) else None
  }

  lemma OneIsTold(s: Server, conn: Connection, streams: set<string>, d: Delivery, id: string)
    requires |d.env.clock| == |d.env.probes| == 3
    ensures StateOf(HandleMessage(s, conn, streams, d.m, d.env).0, id) == Told(StateOf(s, id), d, id)
  {
    hide HandleMessage, Header, Ports.AllocateWithRetry;
    match d.m.method_
    case "PLAY" => StateReplies(s, conn, streams, d.m, d.env);
    case "PAUSE" => StateReplies(s, conn, streams, d.m, d.env);
    case "TEARDOWN" => TeardownReplies(s, conn, streams, d.m, d.env);
    case "SETUP" => SetupReplies(s, conn, streams, d.m, d.env);
    case _ => OthersLeave(s, conn, streams, d.m, d.env);
  }

  lemma OthersLeave(s: Server, conn: Connection, streams: set<string>, m: Message, env: Environment)
    requires |env.clock| == |env.probes| == 3 && m.method_ !in {"PLAY", "PAUSE", "TEARDOWN", "SETUP"}
    ensures HandleMessage(s, conn, streams, m, env).0 == s
  {
    hide StreamName, Header, HandleSetup;
  }

  /**
   The sessions after any requests, in whatever order and from whatever connections, are what the requests
   themselves say: a SETUP with a Transport header starts one, a TEARDOWN that names it ends it, and PLAY and
   PAUSE move it while it lasts. Ports, channels, connections and refusals have no part in it.
   */
  lemma {:induction false} SessionsOfHistory(s: Server, conns: map<nat, Connection>, streams: set<string>,
                                             ds: seq<Delivery>, id: string)
    requires forall d :: d in ds ==> |d.env.clock| == |d.env.probes| == 3
    ensures StateOf(Deliver(s, conns, streams, ds), id) == Standing(StateOf(s, id), ds, id)
    decreases |ds|
  {
    hide HandleMessage, Told, StateOf;
    if ds != [] {
      var d := ds[0];
      assert d in ds;
      var conn := if d.c in conns then conns[d.c] else NEW_CONNECTION;
      var (s', conn', _) := HandleMessage(s, conn, streams, d.m, d.env);
      OneIsTold(s, conn, streams, d, id);
      SessionsOfHistory(s', conns[d.c := conn'], streams, ds[1..], id);
    }
  }

  /** A request that starts the session, and one that ends it. */
  predicate Starts(d: Delivery, id: string) {
    d.m.method_ == "SETUP" && Header(d.m, "Transport") != "" && d.env.id == id
  }

  predicate Ends(d: Delivery, id: string) {
    d.m.method_ == "TEARDOWN" && Header(d.m, "Session") == id
  }

  /** The SETUP at `i` starts the session, and nothing behind it ends it. */
  ghost predicate LastsFrom(ds: seq<Delivery>, i: int, id: string) {
    0 <= i < |ds| && Starts(ds[i], id) && forall k :: i < k < |ds| ==> !Ends(ds[k], id)
  }

  /** A SETUP in the history that no later TEARDOWN undoes. */
  ghost predicate Lasting(ds: seq<Delivery>, id: string) {
    exists i :: LastsFrom(ds, i, id)
  }

  lemma LastsShifted(d: Delivery, rest: seq<Delivery>, i: nat, id: string)
    ensures LastsFrom([d] + rest, i + 1, id) <==> LastsFrom(rest, i, id)
  {
    var ds := [d] + rest;
    hide Starts, Ends;
    if LastsFrom(ds, i + 1, id) {
      assert ds[i + 1] == rest[i];
      forall k | i < k < |rest| ensures !Ends(rest[k], id) { assert ds[k + 1] == rest[k]; }
    }
    if LastsFrom(rest, i, id) {
      forall k | i + 1 < k < |ds| ensures !Ends(ds[k], id) { assert ds[k] == rest[k - 1]; }
    }
  }

  lemma LastsAtOnce(d: Delivery, rest: seq<Delivery>, id: string)
    ensures LastsFrom([d] + rest, 0, id) <==> Starts(d, id) && forall e :: e in rest ==> !Ends(e, id)
  {
    var ds := [d] + rest;
    hide Starts, Ends;
    if LastsFrom(ds, 0, id) {
      forall k | 0 <= k < |rest| ensures !Ends(rest[k], id) { assert ds[k + 1] == rest[k]; }
    }
    if Starts(d, id) && forall e :: e in rest ==> !Ends(e, id) {
      forall k | 0 < k < |ds| ensures !Ends(ds[k], id) { assert ds[k] == rest[k - 1]; }
    }
  }

  lemma LastingHead(d: Delivery, rest: seq<Delivery>, id: string)
    ensures Lasting([d] + rest, id) <==> Lasting(rest, id) || (Starts(d, id) && forall e :: e in rest ==> !Ends(e, id))
  {
    LastsAtOnce(d, rest, id);
    var ds := [d] + rest;
    hide Starts, Ends;
    if i :| LastsFrom(ds, i, id) {
      if i > 0 {
        LastsShifted(d, rest, i - 1, id);
        assert LastsFrom(rest, i - 1, id) by { hide LastsFrom; }
      }
    }
    if i :| LastsFrom(rest, i, id) {
      LastsShifted(d, rest, i, id);
      assert LastsFrom(ds, i + 1, id) by { hide LastsFrom; }
    }
  }

  lemma ToldExactly(st: Option<SessionState>, d: Delivery, id: string)
    requires id != ""
    ensures Told(st, d, id).Some? <==> Starts(d, id) || (st.Some? && !Ends(d, id))
  {
    hide Header;
  }

  lemma {:induction false} StandingExactly(st: Option<SessionState>, ds: seq<Delivery>, id: string)
    requires id != ""
    ensures Standing(st, ds, id).Some? <==> Lasting(ds, id) || (st.Some? && forall d :: d in ds ==> !Ends(d, id))
    decreases |ds|
  {
    if ds != [] {
      hide Lasting, Starts, Ends, Told;
      var (d, rest) := (ds[0], ds[1..]);
      ToldExactly(st, d, id);
      StandingExactly(Told(st, d, id), rest, id);
      assert ds == [d] + rest;
      LastingHead(d, rest, id);
    }
  }

  /** So, on a server that starts empty, PLAY and PAUSE succeed exactly after a SETUP without a later TEARDOWN. */
  lemma PlaysExactly(s: Server, streams: set<string>, ds: seq<Delivery>, conn: Connection, m: Message,
                     env: Environment)
    requires s.sessions == map[] && m.method_ in {"PLAY", "PAUSE"} && |env.clock| == |env.probes| == 3
    requires forall d :: d in ds ==> |d.env.clock| == |d.env.probes| == 3
    ensures var id := Header(m, "Session");
            var reply := HandleMessage(Deliver(s, map[], streams, ds), conn, streams, m, env).2;
            && (reply.status == OK <==> id != "" && Lasting(ds, id))
            && (reply.status == NotFound <==> id != "" && !Lasting(ds, id))
            && (reply.status == BadRequest <==> id == "")
  {
    hide HandleMessage, Header, Lasting, Deliver, Standing;
    var id := Header(m, "Session");
    var later := Deliver(s, map[], streams, ds);
    StateReplies(later, conn, streams, m, env);
    SessionsOfHistory(s, map[], streams, ds, id);
    if id != "" { StandingExactly(None, ds, id); }
  }
}
