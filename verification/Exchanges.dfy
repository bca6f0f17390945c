/**
 Exchanges of text: the client prints a request, the server reads, handles and answers it, and the
 client reads the reply. An exchange does exactly what the step of the protocol says, in whole runs too.
 */
module Exchanges {
  import opened Results
  import opened MapOrder
  import opened GoStrings
  import opened Strconv
  import opened RTSPMessage
  import opened Requests
  import opened Protocol
  import MessageStream
  import TransportHeader
  import Negotiation
  import Channels
  import Ports
  import Sdp
  import SdpText

  // ---------------------------------------------------------------------------
  // Replies as messages
  // ---------------------------------------------------------------------------

  /** What surrounds one exchange: the streams, the client's URL, the session's URL, and the stream's description. */
  datatype Surroundings = Surroundings(streams: set<string>, url: string, sessionURL: string, sdp: string)

  /** URLs are single words, and the description is a Go string, whose length is an int. */
  predicate SurroundingsOk(x: Surroundings) {
    ' ' !in x.url && '\n' !in x.url && '\n' !in x.sessionURL && IsInt64(|x.sdp|)
  }

  function StatusCode(status: Status): int {
    match status
    case OK => 200
    case BadRequest => 400
    case NotFound => 404
    case MethodNotAllowed => 405
    case ServiceUnavailable => 503
  }

  function StatusText(status: Status): string {
    match status
    case OK => "OK"
    case BadRequest => "Bad Request"
    case NotFound => "Not Found"
    case MethodNotAllowed => "Method Not Allowed"
    case ServiceUnavailable => "Service Unavailable"
  }

  /** The client only asks whether the status is OK. */
  function StatusOf(code: int): Status {
    if code == 200 then OK
    else if code == 400 then BadRequest
    else if code == 404 then NotFound
    else if code == 405 then MethodNotAllowed
    else ServiceUnavailable
  }

  /** The methods the server names in its reply to OPTIONS. */
  function Public(): string {
    "OPTIONS, DESCRIBE, " + "SETUP, PLAY, " + "PAUSE, TEARDOWN"
  }

  /** The media type of descriptions. */
  function SdpType(): string {
    "application/sdp"
  }

  /** The headers the handlers set. */
  function ReplyHeaders(method_: string, reply: Reply, x: Surroundings): map<string, string> {
    if reply.status != OK then map[]
    else
      match method_
      case "OPTIONS" => map["Public" := Public(), "Server" := "Go-RTSP-Server/1.0"]
      case "DESCRIBE" => map["Content-Type" := SdpType(), "Content-Length" := Itoa(|x.sdp|)]
      case "SETUP" =>
        map["Transport" := reply.transport, "Session" := reply.sessionID, "Server" := "Go-RTSP-Server/1.0"]
      case "PLAY" => map["Session" := reply.sessionID, "RTP-Info" := "url=" + x.sessionURL + ";seq=0;rtptime=0"]
      case _ => map["Session" := reply.sessionID]
  }

  function ReplyBody(method_: string, reply: Reply, x: Surroundings): string {
    if reply.status == OK && method_ == "DESCRIBE" then x.sdp else ""
  }

  function ServerResponse(method_: string, reply: Reply, x: Surroundings): Message {
    Message(MessageType.Response, "", "", RTSP_VERSION, StatusCode(reply.status), StatusText(reply.status),
            ReplyHeaders(method_, reply, x), ReplyBody(method_, reply, x))
  }

  /** The parts of a response that the client looks at, besides the body. */
  function ReplyOf(m: Message): Reply {
    Reply(StatusOf(m.statusCode), Header(m, "Session"), Header(m, "Transport"))
  }

  /** A reply as it is seen through a header line. */
  function SeenReply(r: Reply): Reply {
    r.(sessionID := TrimSpace(r.sessionID), transport := TrimSpace(r.transport))
  }

  // ---------------------------------------------------------------------------
  // Responses survive the connection
  // ---------------------------------------------------------------------------

  lemma StatusIsPlain(status: Status)
    ensures '\n' !in StatusText(status)
    ensures IsInt64(StatusCode(status)) && StatusOf(StatusCode(status)) == status
  {
  }

  lemma StatusLineIsPlain(m: Message, status: Status)
    requires m.kind == MessageType.Response && m.method_ == "" && m.url == "" && m.version == RTSP_VERSION
    requires m.statusCode == StatusCode(status) && m.statusText == StatusText(status)
    ensures FirstLineWellFormed(m) && !MessageStream.FirstLineIsLength(m)
  {
    StatusIsPlain(status);
    hide StatusCode, StatusText, MessageStream.FirstLineIsLength;
    assert ' ' !in RTSP_VERSION && '\n' !in RTSP_VERSION;
    assert RTSP_VERSION[..5] == "RTSP/";
    NotALength(m);
  }

  lemma ServerHeaders()
    ensures PlainHeader("Public", Public()) && PlainHeader("Server", "Go-RTSP-Server/1.0")
  {
    assert '\n' !in "OPTIONS, DESCRIBE, " && '\n' !in "SETUP, PLAY, " && '\n' !in "PAUSE, TEARDOWN";
  }

  lemma ValueHeaders(value: string)
    requires '\n' !in value
    ensures PlainHeader("Session", value) && PlainHeader("Transport", value)
  {
    OwnHeader("Session");
    OwnHeader("Transport");
    hide Trimmed, MessageStream.IsContentLength;
  }

  lemma InfoHeader(url: string)
    requires '\n' !in url
    ensures PlainHeader("RTP-Info", "url=" + url + ";seq=0;rtptime=0")
  {
    assert '\n' !in "url=" && '\n' !in ";seq=0;rtptime=0";
  }

  lemma ReplyHeadersArePlain(method_: string, reply: Reply, x: Surroundings)
    requires '\n' !in reply.sessionID && '\n' !in reply.transport && '\n' !in x.sessionURL
    requires reply.status != OK || method_ != "DESCRIBE"
    ensures var headers := ReplyHeaders(method_, reply, x);
            forall k :: k in headers ==> PlainHeader(k, headers[k])
  {
    ServerHeaders();
    ValueHeaders(reply.sessionID);
    ValueHeaders(reply.transport);
    InfoHeader(x.sessionURL);
    hide PlainHeader, Public, Itoa, SdpType;
  }

  /** The announced length of a description is its length. */
  lemma LengthOfItoa(n: nat)
    requires IsInt64(n)
    ensures MessageStream.LengthOf(TrimSpace(Itoa(n))) == n && '\n' !in Itoa(n)
  {
    AtoiOfItoa(n);
    ItoaAvoids(n, '\n');
    FixedHeaders(n);
    TrimSpaceFixed(Itoa(n));
    hide Itoa, Atoi, TrimSpace;
  }

  lemma DescriptionHeaders()
    ensures HeaderValue("Content-Type") && ':' !in "Content-Type" && !MessageStream.IsContentLength("Content-Type")
    ensures '\n' !in SdpType()
  {
  }

  lemma DescriptionIsFramed(m: Message)
    requires FirstLineWellFormed(m) && !MessageStream.FirstLineIsLength(m) && IsInt64(|m.body|)
    requires m.headers == map["Content-Type" := SdpType(), "Content-Length" := Itoa(|m.body|)]
    ensures MessageStream.Framed(m)
  {
    hide FirstLineWellFormed, MessageStream.FirstLineIsLength, MessageStream.IsContentLength, Trimmed, TrimSpace;
    hide MessageStream.LengthOf, Itoa, SdpType;
    DescriptionHeaders();
    MessageStream.ContentLengthName();
    LengthOfItoa(|m.body|);
    var length := "Content-Length";
    assert length in m.headers && MessageStream.IsContentLength(length);
    assert MessageStream.HeadersLined(m.headers);
  }

  /** Every reply of the handlers survives the connection. */
  lemma ResponseIsFramed(method_: string, reply: Reply, x: Surroundings)
    requires '\n' !in reply.sessionID && '\n' !in reply.transport && SurroundingsOk(x)
    ensures MessageStream.Framed(ServerResponse(method_, reply, x))
  {
    var m := ServerResponse(method_, reply, x);
    hide PlainHeader, FirstLineWellFormed, MessageStream.FirstLineIsLength, MessageStream.Framed;
    hide StatusCode, StatusText, Itoa, SdpType, Public;
    StatusLineIsPlain(m, reply.status);
    if reply.status == OK && method_ == "DESCRIBE" {
      DescriptionIsFramed(m);
    } else {
      hide ReplyHeaders;
      ReplyHeadersArePlain(method_, reply, x);
      PlainHeadersAreFramed(m);
    }
  }

  // ---------------------------------------------------------------------------
  // Exchanges
  // ---------------------------------------------------------------------------

  /**
   The request is printed, read by the server and handled, and the response is printed and read by the
   client, who sees `answer`. Both texts may have their headers in any order.
   */
  ghost predicate Exchanged(s: Server, conn: Connection, x: Surroundings, env: Environment, request: Message,
                            s': Server, conn': Connection, answer: Reply)
    requires |env.clock| == |env.probes| == 3
  {
    exists sent: string, arrived: Message, reply: Reply, returned: string, response: Message ::
      && IsPrinting(request, sent)
      && MessageStream.ReadOne(sent) == (Ok(arrived), "")
      && HandleMessage(s, conn, x.streams, arrived, env) == (s', conn', reply)
      && IsPrinting(ServerResponse(arrived.method_, reply, x), returned)
      && MessageStream.ReadOne(returned) == (Ok(response), "")
      && answer == ReplyOf(response)
  }

  /** The Transport header of a reply is one line. */
  lemma TransportIsLine(header: string, rtp: int)
    requires '\n' !in header
    ensures '\n' !in Negotiation.ReplyHeader(header, rtp, rtp + 1)
  {
    hide TransportHeader.Printed, TransportHeader.Parsed, Negotiation.PortsText;
    var ports := Negotiation.PortsText(rtp, rtp + 1);
    TransportHeader.ParsedAvoids(header, '\n');
    PortsAvoidLF(rtp);
    TransportHeader.PrintedAvoidsLF(TransportHeader.Parsed(header).(serverPorts := ports));
  }

  lemma PortsAvoidLF(rtp: int)
    ensures '\n' !in Negotiation.PortsText(rtp, rtp + 1)
  {
    ItoaAvoids(rtp, '\n');
    ItoaAvoids(rtp + 1, '\n');
    hide Itoa;
  }

  lemma NeverTCP(header: string)
    ensures !Negotiation.IsTCPTransport(TransportHeader.Parsed(header))
  {
    TransportHeader.ParsedInRange(header);
  }

  /** The reply to a UDP SETUP. */
  lemma SetupReply(s: Server, conn: Connection, t: TransportHeader.Transport, env: Environment)
    requires |env.clock| == |env.probes| == 3 && !Negotiation.IsTCPTransport(t)
    ensures HandleSetup(s, conn, t, env).2 ==
            match Ports.AllocateWithRetry(s.pool, env.clock, env.probes).1
            case None => Reply(ServiceUnavailable, "", "")
            case Some(p) =>
              Reply(OK, env.id, TransportHeader.Printed(t.(serverPorts := Negotiation.PortsText(p, p + 1))))
  {
    hide TransportHeader.Printed, Ports.AllocateWithRetry, Negotiation.PortsText, Granted;
  }

  lemma SetupReplyLines(s: Server, conn: Connection, header: string, env: Environment)
    requires |env.clock| == |env.probes| == 3 && '\n' !in env.id && '\n' !in header
    ensures var r := HandleSetup(s, conn, TransportHeader.Parsed(header), env).2;
            '\n' !in r.sessionID && '\n' !in r.transport
  {
    hide TransportHeader.Parsed, TransportHeader.Printed, HandleSetup;
    hide Ports.AllocateWithRetry, Negotiation.PortsText, Negotiation.IsTCPTransport;
    NeverTCP(header);
    SetupReply(s, conn, TransportHeader.Parsed(header), env);
    match Ports.AllocateWithRetry(s.pool, env.clock, env.probes).1
    case None =>
    case Some(p) => TransportIsLine(header, p);
  }

  /** The headers of an arrived message are lines. */
  lemma ArrivedHeader(m: Message, key: string)
    requires MessageStream.Framed(m)
    ensures '\n' !in Header(MessageStream.Received(m), key)
  {
    hide Trimmed, FirstLineWellFormed, MessageStream.FirstLineIsLength, MessageStream.IsContentLength, TrimSpace;
    hide MessageStream.TrimCRLF, ReadBody;
    if key in m.headers {
      TransportHeader.TrimKeepsOut(m.headers[key], '\n');
    }
  }

  /** What the handlers put into their replies is one line each. */
  lemma ReplyLines(s: Server, conn: Connection, streams: set<string>, request: Message, env: Environment)
    requires |env.clock| == |env.probes| == 3 && '\n' !in env.id
    requires '\n' !in Header(request, "Session") && '\n' !in Header(request, "Transport")
    ensures var r := HandleMessage(s, conn, streams, request, env).2;
            '\n' !in r.sessionID && '\n' !in r.transport
  {
    hide TransportHeader.Parsed, HandleSetup, StreamName, Header;
    SetupReplyLines(s, conn, Header(request, "Transport"), env);
  }

  lemma ReceivedHeader(m: Message, key: string)
    ensures Header(MessageStream.Received(m), key) == TrimSpace(Header(m, key))
  {
    hide MessageStream.TrimCRLF, ReadBody;
    assert TrimSpace("") == "";
    hide TrimSpace;
  }

  /** What a response holds of the reply. */
  lemma ReplyIsHeld(s: Server, conn: Connection, request: Message, env: Environment, x: Surroundings)
    requires |env.clock| == |env.probes| == 3
    ensures var r := HandleMessage(s, conn, x.streams, request, env).2;
            ReplyOf(ServerResponse(request.method_, r, x)) == r
  {
    hide TransportHeader.Parsed, TransportHeader.Printed, Ports.AllocateWithRetry, Negotiation.PortsText;
    hide StreamName, Itoa, SdpType, Public, Granted, Channels.NextChannel, Channels.Allocate;
    StatusIsPlain(HandleMessage(s, conn, x.streams, request, env).2.status);
    hide StatusCode, StatusText, StatusOf;
  }

  /** The client sees the reply of every handler. */
  lemma ReplyIsSeen(s: Server, conn: Connection, request: Message, env: Environment, x: Surroundings)
    requires |env.clock| == |env.probes| == 3
    ensures var r := HandleMessage(s, conn, x.streams, request, env).2;
            ReplyOf(MessageStream.Received(ServerResponse(request.method_, r, x))) == SeenReply(r)
  {
    hide HandleMessage, ServerResponse, Header, StatusOf, TrimSpace, MessageStream.TrimCRLF, ReadBody;
    var r := HandleMessage(s, conn, x.streams, request, env).2;
    var m := ServerResponse(request.method_, r, x);
    ReplyIsHeld(s, conn, request, env, x);
    ReceivedHeader(m, "Session");
    ReceivedHeader(m, "Transport");
    assert MessageStream.Received(m).statusCode == m.statusCode;
    hide MessageStream.Received;
  }

  /** Reading a printed request or response on an otherwise empty connection. */
  lemma ReadAlone(m: Message, text: string)
    requires MessageStream.Framed(m) && IsPrinting(m, text)
    ensures MessageStream.ReadOne(text) == (Ok(MessageStream.Received(m)), "")
  {
    hide MessageStream.Framed, IsPrinting, MessageStream.ReadOne, MessageStream.Received;
    MessageStream.ReadFramed(m, text, "");
    assert text + "" == text;
  }

  lemma PrintingExists(m: Message) returns (text: string)
    ensures IsPrinting(m, text)
  {
    var order := OrderExists(m.headers.Keys);
    text := Printed(m, order);
  }

  /**
   The text layer: what can come out of an exchange of texts is exactly what the handler does with the
   request as it arrives, with the two headers of its reply as they are seen.
   */
  lemma ExchangeIsHandler(s: Server, conn: Connection, x: Surroundings, env: Environment, request: Message,
                          s': Server, conn': Connection, answer: Reply)
    requires |env.clock| == |env.probes| == 3 && '\n' !in env.id && SurroundingsOk(x)
    requires MessageStream.Framed(request)
    ensures var (s1, conn1, reply) := HandleMessage(s, conn, x.streams, MessageStream.Received(request), env);
            Exchanged(s, conn, x, env, request, s', conn', answer)
            <==> (s', conn', answer) == (s1, conn1, SeenReply(reply))
  {
    hide HandleMessage, MessageStream.Framed, MessageStream.Received, IsPrinting, MessageStream.ReadOne;
    hide ReplyOf, SeenReply, SurroundingsOk, ServerResponse;
    var arrived := MessageStream.Received(request);
    var reply := HandleMessage(s, conn, x.streams, arrived, env).2;
    var response := ServerResponse(arrived.method_, reply, x);
    ArrivedHeader(request, "Session");
    ArrivedHeader(request, "Transport");
    ReplyLines(s, conn, x.streams, arrived, env);
    ResponseIsFramed(arrived.method_, reply, x);
    ReplyIsSeen(s, conn, arrived, env, x);
    forall text | IsPrinting(request, text) ensures MessageStream.ReadOne(text) == (Ok(arrived), "") {
      ReadAlone(request, text);
    }
    forall text | IsPrinting(response, text)
      ensures MessageStream.ReadOne(text) == (Ok(MessageStream.Received(response)), "")
    {
      ReadAlone(response, text);
    }
    var sent := PrintingExists(request);
    var returned := PrintingExists(response);
  }

  lemma FirstLineOfDescription(d: Sdp.Session, text: string) returns (rest: string)
    requires SdpText.IsPrinting(d, text)
    ensures text == Sdp.Encode(Sdp.VersionItem(d.version)) + CRLF + rest
  {
    hide Sdp.Encode;
    var o :| SdpText.SessionOrderOf(d, o) && text == SdpText.TextOf(SdpText.Items(d, o));
    var items := SdpText.Items(d, o);
    assert items[0] == Sdp.VersionItem(d.version);
    rest := Unlines(SdpText.EncodeAll(items[1..]));
    hide SdpText.Items;
    MessageStream.UnlinesHead(Sdp.Encode(items[0]), SdpText.EncodeAll(items[1..]), "");
  }

  lemma VersionLine(v: int)
    requires IsInt64(v)
    ensures var line := Sdp.Encode(Sdp.VersionItem(v));
            '\n' !in line && SdpText.Parsed(line) == Ok(Sdp.EMPTY.(version := v))
  {
    var item := Sdp.VersionItem(v);
    var line := Sdp.Encode(item);
    Sdp.LineRoundTrip(item);
    ItoaAvoids(v, '\n');
    SplitOneLine(line);
    hide Sdp.Encode, Sdp.Decode, SplitCRLF, Itoa;
    assert SdpText.ParseLines(Sdp.EMPTY.(version := v), []) == Ok(Sdp.EMPTY.(version := v));
  }

  /** The description in a DESCRIBE reply is cut at its first line: the client is left with the version. */
  lemma DescribeKeepsVersion(d: Sdp.Session, x: Surroundings)
    requires SdpText.IsPrinting(d, x.sdp) && IsInt64(d.version)
    ensures var body := MessageStream.Received(ServerResponse("DESCRIBE", Reply(OK, "", ""), x)).body;
            SdpText.Parsed(body) == Ok(Sdp.EMPTY.(version := d.version))
  {
    hide SdpText.IsPrinting, SdpText.Parsed, Sdp.Encode, MessageStream.TrimCRLF, TrimSpace;
    var rest := FirstLineOfDescription(d, x.sdp);
    VersionLine(d.version);
    ReadLineCRLF(Sdp.Encode(Sdp.VersionItem(d.version)), rest);
    assert ReadBody(x.sdp) == Sdp.Encode(Sdp.VersionItem(d.version));
    hide ReadBody;
  }

  // ---------------------------------------------------------------------------
  // The client's exchanges
  // ---------------------------------------------------------------------------

  /** The transport the client asks for. */
  function ClientTransport(tcp: bool, dynamicPorts: bool): TransportHeader.Transport {
    if tcp then TransportHeader.INITIAL.(kind := TransportHeader.Interleaved, mode := "PLAY", interleaved := "0-1")
    else TransportHeader.INITIAL.(clientPorts := if dynamicPorts then "" else "5004-5005", mode := "PLAY")
  }

  /** The values in the client's Transport header. */
  lemma ClientValues()
    ensures TransportHeader.FieldValue("5004-5005") && SpaceAtBack("5004-5005") == 0 && '\n' !in "5004-5005"
    ensures TransportHeader.FieldValue("PLAY") && SpaceAtBack("PLAY") == 0 && '\n' !in "PLAY"
    ensures TransportHeader.LateFieldValue("0-1") && SpaceAtBack("0-1") == 0 && '\n' !in "0-1"
    ensures TransportHeader.LateFieldValue("") && SpaceAtBack("") == 0
  {
    hide Contains;
    TransportHeader.EmptyIsLateFieldValue();
    TransportHeader.NotIn("5004-5005", "RTP/AVP", 'R');
    TooShortToContain("PLAY", "RTP/AVP");
    TooShortToContain("0-1", "RTP/AVP");
    TooShortToContain("0-1", "unicast");
    TooShortToContain("0-1", "multicast");
  }

  lemma ClientTransportInRange(tcp: bool, dynamicPorts: bool)
    ensures var t := ClientTransport(tcp, dynamicPorts);
            && TransportHeader.InRange(t.(kind := TransportHeader.RTP)) && TransportHeader.Settled(t)
            && TransportHeader.FieldsAvoid(t, '\n')
  {
    ClientValues();
    assert TransportHeader.LateFieldValue("") ==> TransportHeader.FieldValue("");
    hide TransportHeader.FieldValue, TransportHeader.LateFieldValue, SpaceAtBack;
  }

  /** The client's Transport header is a header value, and the server reads it as RTP in every case. */
  lemma ClientHeader(tcp: bool, dynamicPorts: bool)
    ensures var t := ClientTransport(tcp, dynamicPorts); var header := TransportHeader.Printed(t);
            && HeaderValue(header) && header != ""
            && TransportHeader.Parsed(header) == t.(kind := TransportHeader.RTP)
            && TransportHeader.Settled(TransportHeader.Parsed(header))
  {
    var t := ClientTransport(tcp, dynamicPorts);
    hide TransportHeader.Printed, TransportHeader.Parsed, TransportHeader.InRange, Trimmed;
    hide TransportHeader.FieldsAvoid;
    ClientTransportInRange(tcp, dynamicPorts);
    TransportHeader.PrintedAvoidsLF(t);
    TransportHeader.PrintedIsTrimmed(t);
    PrintedIsNotEmpty(t);
    TransportHeader.RoundTrip(t.(kind := TransportHeader.RTP));
    if tcp {
      TransportHeader.InterleavedReadsAsRTP(t.(kind := TransportHeader.RTP));
      TransportHeader.NormalIsIdentity(t.(kind := TransportHeader.RTP));
    }
  }

  /** A client that asks for interleaved transport is given a UDP port pair, if there is one, and no channel. */
  lemma TCPRequestGetsPorts(s: Server, conn: Connection, dynamicPorts: bool, env: Environment)
    requires |env.clock| == |env.probes| == 3
    ensures var header := TransportHeader.Printed(ClientTransport(true, dynamicPorts));
            var (s', conn', reply) := HandleSetup(s, conn, TransportHeader.Parsed(header), env);
            && s'.channels == s.channels && conn'.channel == conn.channel && conn'.useTCP == conn.useTCP
            && (reply.status == OK ==>
                  && conn'.allocation.Some?
                  && reply.transport == Negotiation.ReplyHeader(header, conn'.allocation.value.rtpPort,
                                                                conn'.allocation.value.rtcpPort))
  {
    hide TransportHeader.Printed, TransportHeader.Parsed, Ports.AllocateWithRetry, Negotiation.PortsText;
    hide Ports.SuccessTime, ClientTransport;
    NeverTCP(TransportHeader.Printed(ClientTransport(true, dynamicPorts)));
  }

  // ---------------------------------------------------------------------------
  // Steps by text
  // ---------------------------------------------------------------------------

  /** An environment for requests that draw nothing. */
  const NOTHING_DRAWN: Environment := Environment("", [0, 0, 0], [_ => false, _ => false, _ => false])

  /** The client takes from the reply it sees what it would take from the reply itself. */
  lemma AcceptsSeen(c: Client, header: string, rtp: int, id: string)
    requires Trimmed(id)
    ensures var reply := Reply(OK, id, Negotiation.ReplyHeader(header, rtp, rtp + 1));
            AcceptSetup(c, SeenReply(reply)) == AcceptSetup(c, reply)
  {
    var t := TransportHeader.Parsed(header).(serverPorts := Negotiation.PortsText(rtp, rtp + 1));
    hide TransportHeader.Printed, TransportHeader.Parsed, Negotiation.PortsText, Negotiation.PairOf, TrimSpace;
    hide TransportHeader.InRange;
    ReplyInRange(header, rtp);
    TransportHeader.TrimmedReadsSame(t);
    PrintedIsNotEmpty(t);
    TrimSpaceFixed(id);
  }

  lemma ReplyInRange(header: string, rtp: int)
    ensures TransportHeader.InRange(TransportHeader.Parsed(header).(serverPorts := Negotiation.PortsText(rtp, rtp + 1)))
  {
    hide TransportHeader.Parsed, Negotiation.PortsText, TransportHeader.FieldValue, TransportHeader.LateFieldValue;
    hide TrimRight;
    TransportHeader.ParsedInRange(header);
    Negotiation.PortsTextIsPlain(rtp, rtp + 1);
  }

  /** So it does with every reply to a SETUP. */
  lemma SetupAcceptsSeen(s: Server, conn: Connection, c: Client, header: string, env: Environment)
    requires |env.clock| == |env.probes| == 3 && Trimmed(env.id)
    ensures var reply := HandleSetup(s, conn, TransportHeader.Parsed(header), env).2;
            AcceptSetup(c, SeenReply(reply)) == AcceptSetup(c, reply) && SeenReply(reply).status == reply.status
  {
    hide TransportHeader.Parsed, TransportHeader.Printed, HandleSetup, AcceptSetup, Trimmed, TrimSpace;
    hide Ports.AllocateWithRetry, Negotiation.PortsText, Negotiation.IsTCPTransport;
    NeverTCP(header);
    SetupReply(s, conn, TransportHeader.Parsed(header), env);
    match Ports.AllocateWithRetry(s.pool, env.clock, env.probes).1
    case None => RefusedIsIgnored(c);
    case Some(p) => AcceptsSeen(c, header, p, env.id);
  }

  lemma RefusedIsIgnored(c: Client)
    ensures var reply := Reply(ServiceUnavailable, "", "");
            AcceptSetup(c, SeenReply(reply)) == c == AcceptSetup(c, reply)
  {
    hide Negotiation.ClientPair;
  }

  /** An exchange by text of client `c` in a world. */
  ghost predicate ByText(w: World, c: nat, x: Surroundings, env: Environment, method_: string,
                         own: map<string, string>, s': Server, conn': Connection, answer: Reply)
    requires |env.clock| == |env.probes| == 3
  {
    Exchanged(w.server, PeerOf(w, c).conn, x, env,
              ClientRequest(method_, x.url, PeerOf(w, c).client.sequenceNum, own), s', conn', answer)
  }

  /** What an exchange by text of a client comes to. */
  lemma ByTextIsHandled(w: World, c: nat, x: Surroundings, env: Environment, method_: string, own: map<string, string>)
    requires |env.clock| == |env.probes| == 3 && '\n' !in env.id && SurroundingsOk(x)
    requires ClientMethod(method_) && OwnHeaders(own)
    ensures var p := PeerOf(w, c);
            var (s1, conn1, reply) :=
              HandleMessage(w.server, p.conn, x.streams, ClientRequest(method_, x.url, p.client.sequenceNum, own), env);
            && ByText(w, c, x, env, method_, own, s1, conn1, SeenReply(reply))
            && forall s', conn', answer :: ByText(w, c, x, env, method_, own, s', conn', answer) ==>
                 s' == s1 && conn' == conn1 && answer == SeenReply(reply)
  {
    hide HandleMessage, ClientRequest, Exchanged, SeenReply, ClientMethod, OwnHeaders, MessageStream.Framed;
    hide MessageStream.Received;
    var p := PeerOf(w, c);
    var request := ClientRequest(method_, x.url, p.client.sequenceNum, own);
    RequestIsFramed(method_, x.url, p.client.sequenceNum, own);
    var (s1, conn1, reply) := HandleMessage(w.server, p.conn, x.streams, request, env);
    ExchangeIsHandler(w.server, p.conn, x, env, request, s1, conn1, SeenReply(reply));
    forall s', conn', answer | ByText(w, c, x, env, method_, own, s', conn', answer)
      ensures s' == s1 && conn' == conn1 && answer == SeenReply(reply)
    {
      ExchangeIsHandler(w.server, p.conn, x, env, request, s', conn', answer);
    }
  }

  /**
   The step of an event with its exchange done by text. SETUP by text never is a TCP one, and what
   DESCRIBE finds is what the server answers.
   */
  ghost predicate TextStep(w: World, e: Event, x: Surroundings, w': World)
    requires Drawn(w, e)
  {
    match e
    case Options(c) =>
      if !PeerOf(w, c).client.connected then w' == w
      else exists s', conn', answer ::
        && ByText(w, c, x, NOTHING_DRAWN, "OPTIONS", map[], s', conn', answer)
        && w' == WithPeer(w, s', c, Peer(AcceptOptions(PeerOf(w, c).client, answer), conn'))
    case Describe(c, found) =>
      if !PeerOf(w, c).client.connected then w' == w
      else exists s', conn', answer ::
        && ByText(w, c, x, NOTHING_DRAWN, "DESCRIBE", map["Accept" := SdpType()], s', conn', answer)
        && found == (answer.status == OK)
        && w' == WithPeer(w, s', c, Peer(AcceptDescribe(PeerOf(w, c).client, answer), conn'))
    case DoSetup(c, header, tcp, env) =>
      if !PeerOf(w, c).client.hasSDP || !PeerOf(w, c).client.connected
      then w' == AfterSetup(w, c, w.server, PeerOf(w, c), env.id)
      else exists s', conn', answer ::
        && ByText(w, c, x, env, "SETUP", map["Transport" := header], s', conn', answer)
        && w' == AfterSetup(w, c, s', Peer(AcceptSetup(PeerOf(w, c).client, answer), conn'), env.id)
    case Play(c) => StateByText(w, c, x, "PLAY", Playing, w')
    case Pause(c) => StateByText(w, c, x, "PAUSE", Ready, w')
    case DoTeardown(c) => exists p :: TeardownByText(w, c, x, p, w')
    case Disconnect(c) =>
      exists p, torn ::
        && TeardownByText(w, c, x, p, torn)
        && w' == torn.(peers := w.peers[c := p.(client := p.client.(connected := false))])
    case _ => w' == Step(w, e)
  }

  function WithPeer(w: World, s: Server, c: nat, p: Peer): World {
    w.(server := s, peers := w.peers[c := p])
  }

  ghost predicate StateByText(w: World, c: nat, x: Surroundings, method_: string, target: SessionState, w': World) {
    var client := PeerOf(w, c).client;
    if client.session.None? || !client.connected then w' == WithPeer(w, w.server, c, PeerOf(w, c))
    else exists s', conn', answer ::
      && ByText(w, c, x, NOTHING_DRAWN, method_, map["Session" := client.session.value.id], s', conn', answer)
      && w' == WithPeer(w, s', c, Peer(AcceptState(client, answer, target), conn'))
  }

  /** `p` is the client after the exchange, with its connection. */
  ghost predicate TeardownByText(w: World, c: nat, x: Surroundings, p: Peer, w': World) {
    var client := PeerOf(w, c).client;
    if client.session.None? || !client.connected
    then p == PeerOf(w, c) && w' == AfterTeardown(w, c, w.server, p, None)
    else exists s', conn', answer ::
      && ByText(w, c, x, NOTHING_DRAWN, "TEARDOWN", map["Session" := client.session.value.id], s', conn', answer)
      && p == Peer(AcceptTeardown(client, answer), conn')
      && w' == AfterTeardown(w, c, s', p, Freed(PeerOf(w, c)))
  }

  /** Events whose exchange the client can do by text. */
  predicate TextEvent(e: Event, x: Surroundings) {
    match e
    case Describe(_, found) => found == (StreamName(x.url) in x.streams)
    case DoSetup(_, header, tcp, env) => !tcp && HeaderValue(header) && header != "" && HeaderValue(env.id)
    case _ => true
  }

  /** All session IDs drawn so far are header values. */
  ghost predicate PlainIDs(w: World) {
    forall id :: id in w.ids ==> HeaderValue(id)
  }

  lemma ApplicationSdp()
    ensures OwnHeaders(map["Accept" := SdpType()])
  {
  }

  /** A reply without the two headers is seen as it is. */
  lemma BareReplySeen(status: Status)
    ensures SeenReply(Reply(status, "", "")) == Reply(status, "", "")
  {
    hide SeenReply;
    EmptyIsTrimmed();
    SeenIsSame(Reply(status, "", ""));
  }

  lemma OptionsByText(w: World, c: nat, x: Surroundings)
    requires SurroundingsOk(x)
    ensures forall s', conn', answer :: ByText(w, c, x, NOTHING_DRAWN, "OPTIONS", map[], s', conn', answer) <==>
              s' == w.server && conn' == PeerOf(w, c).conn && answer == Reply(OK, "", "")
  {
    hide ByText, HandleMessage, ClientRequest, SeenReply, SurroundingsOk;
    var p := PeerOf(w, c);
    ByTextIsHandled(w, c, x, NOTHING_DRAWN, "OPTIONS", map[]);
    RequestIsHandled(w.server, p.conn, x.streams, NOTHING_DRAWN, x.url, p.client.sequenceNum, "");
    BareReplySeen(OK);
  }

  lemma OptionsStep(w: World, c: nat, x: Surroundings, w': World)
    requires SurroundingsOk(x)
    ensures TextStep(w, Options(c), x, w') <==> w' == Step(w, Options(c))
  {
    hide ByText, AcceptOptions, PeerOf, SurroundingsOk;
    OptionsByText(w, c, x);
    assert ByText(w, c, x, NOTHING_DRAWN, "OPTIONS", map[], w.server, PeerOf(w, c).conn, Reply(OK, "", ""));
  }

  lemma DescribeByText(w: World, c: nat, x: Surroundings, own: map<string, string>)
    requires SurroundingsOk(x) && own == map["Accept" := SdpType()]
    ensures forall s', conn', answer :: ByText(w, c, x, NOTHING_DRAWN, "DESCRIBE", own, s', conn', answer) <==>
              s' == w.server && conn' == PeerOf(w, c).conn && answer == DescribeReply(StreamName(x.url) in x.streams)
  {
    hide ByText, HandleMessage, ClientRequest, SeenReply, SurroundingsOk, StreamName, OwnHeaders;
    var p := PeerOf(w, c);
    ApplicationSdp();
    hide SdpType;
    ByTextIsHandled(w, c, x, NOTHING_DRAWN, "DESCRIBE", own);
    RequestIsHandled(w.server, p.conn, x.streams, NOTHING_DRAWN, x.url, p.client.sequenceNum, SdpType());
    BareReplySeen(DescribeReply(StreamName(x.url) in x.streams).status);
  }

  lemma DescribeStep(w: World, c: nat, found: bool, x: Surroundings, w': World)
    requires SurroundingsOk(x) && TextEvent(Describe(c, found), x)
    ensures TextStep(w, Describe(c, found), x, w') <==> w' == Step(w, Describe(c, found))
  {
    hide ByText, AcceptDescribe, PeerOf, SurroundingsOk, SdpType, StreamName;
    var own := map["Accept" := SdpType()];
    DescribeByText(w, c, x, own);
    assert ByText(w, c, x, NOTHING_DRAWN, "DESCRIBE", own, w.server, PeerOf(w, c).conn, DescribeReply(found));
  }

  lemma SetupTextStep(w: World, c: nat, header: string, env: Environment, x: Surroundings, w': World)
    requires SurroundingsOk(x) && Drawn(w, DoSetup(c, header, false, env))
    requires TextEvent(DoSetup(c, header, false, env), x)
    ensures TextStep(w, DoSetup(c, header, false, env), x, w') <==> w' == Step(w, DoSetup(c, header, false, env))
  {
    hide ByText, HandleMessage, HandleSetup, AcceptSetup, AfterSetup, TransportHeader.Parsed, Trimmed, SeenReply;
    var p := PeerOf(w, c);
    ByTextIsHandled(w, c, x, env, "SETUP", map["Transport" := header]);
    RequestIsHandled(w.server, p.conn, x.streams, env, x.url, p.client.sequenceNum, header);
    SetupAcceptsSeen(w.server, p.conn, p.client, header, env);
    hide ClientRequest, HeaderValue;
  }

  /** A session the client holds was drawn. */
  lemma HeldIsPlain(w: World, c: nat)
    requires Agreeing(w) && PlainIDs(w) && PeerOf(w, c).client.session.Some?
    ensures HeaderValue(PeerOf(w, c).client.session.value.id)
  {
    hide HeaderValue, Agreeing;
    PeerAgrees(w, c);
  }

  lemma SeenIsSame(r: Reply)
    requires Trimmed(r.sessionID) && r.transport == ""
    ensures SeenReply(r) == r
  {
    TrimSpaceFixed(r.sessionID);
    TrimSpaceFixed("");
  }

  lemma EmptyIsTrimmed()
    ensures Trimmed("")
  {
  }

  /** The replies to PLAY, PAUSE and TEARDOWN are seen as they are. */
  lemma StateReplySeen(s: Server, conn: Connection, id: string, target: SessionState)
    requires Trimmed(id)
    ensures SeenReply(HandleState(s, id, target).1) == HandleState(s, id, target).1
    ensures SeenReply(HandleTeardown(s, conn, id).1) == HandleTeardown(s, conn, id).1
  {
    hide Trimmed, SeenReply;
    EmptyIsTrimmed();
    SeenIsSame(HandleState(s, id, target).1);
    SeenIsSame(HandleTeardown(s, conn, id).1);
  }

  /** Play and Pause by text are those of the protocol. */
  lemma StateTextStep(w: World, c: nat, x: Surroundings, play: bool, w': World)
    requires SurroundingsOk(x) && Agreeing(w) && PlainIDs(w)
    ensures var target := if play then Playing else Ready;
            var (s, p) := ChangeState(w.server, PeerOf(w, c), target);
            StateByText(w, c, x, if play then "PLAY" else "PAUSE", target, w') <==> w' == WithPeer(w, s, c, p)
  {
    hide ByText, HandleMessage, HandleState, HandleTeardown, AcceptState, SeenReply, Agreeing, PlainIDs, HeaderValue;
    var p := PeerOf(w, c);
    if p.client.session.Some? && p.client.connected {
      var id := p.client.session.value.id;
      HeldIsPlain(w, c);
      SessionHeader(id);
      ByTextIsHandled(w, c, x, NOTHING_DRAWN, if play then "PLAY" else "PAUSE", map["Session" := id]);
      RequestIsHandled(w.server, p.conn, x.streams, NOTHING_DRAWN, x.url, p.client.sequenceNum, id);
      StateReplySeen(w.server, p.conn, id, if play then Playing else Ready);
      hide ClientRequest;
    }
  }

  lemma SessionHeader(id: string)
    requires HeaderValue(id)
    ensures OwnHeaders(map["Session" := id]) && Trimmed(id)
  {
    hide Trimmed;
  }

  /** So is Teardown. */
  lemma TeardownTextStep(w: World, c: nat, x: Surroundings, p: Peer, w': World)
    requires SurroundingsOk(x) && Agreeing(w) && PlainIDs(w)
    ensures var (s, p1) := Teardown(w.server, PeerOf(w, c));
            TeardownByText(w, c, x, p, w') <==> p == p1 && w' == AfterTeardown(w, c, s, p1, Freed(PeerOf(w, c)))
  {
    hide ByText, HandleMessage, HandleState, HandleTeardown, SeenReply, Agreeing, PlainIDs, HeaderValue, AfterTeardown;
    var q := PeerOf(w, c);
    if q.client.session.Some? && q.client.connected {
      var id := q.client.session.value.id;
      HeldIsPlain(w, c);
      SessionHeader(id);
      ByTextIsHandled(w, c, x, NOTHING_DRAWN, "TEARDOWN", map["Session" := id]);
      RequestIsHandled(w.server, q.conn, x.streams, NOTHING_DRAWN, x.url, q.client.sequenceNum, id);
      StateReplySeen(w.server, q.conn, id, Ready);
      hide ClientRequest, AcceptTeardown;
    }
  }

  lemma DisconnectTextStep(w: World, c: nat, x: Surroundings, w': World)
    requires SurroundingsOk(x) && Agreeing(w) && PlainIDs(w)
    ensures TextStep(w, Disconnect(c), x, w') <==> w' == Step(w, Disconnect(c))
    ensures TextStep(w, DoTeardown(c), x, w') <==> w' == Step(w, DoTeardown(c))
  {
    hide TeardownByText, Teardown, Agreeing, PlainIDs, Freed;
    var (s, p) := Teardown(w.server, PeerOf(w, c));
    var torn := AfterTeardown(w, c, s, p, Freed(PeerOf(w, c)));
    TeardownTextStep(w, c, x, p, torn);
    forall q, u | TeardownByText(w, c, x, q, u) ensures q == p && u == torn {
      TeardownTextStep(w, c, x, q, u);
    }
    assert w.peers[c := p][c := p.(client := p.client.(connected := false))]
        == w.peers[c := p.(client := p.client.(connected := false))];
  }

  /** The step by text is the step of the protocol: it can always be done, and has no other outcome. */
  lemma TextStepIsStep(w: World, e: Event, x: Surroundings, w': World)
    requires SurroundingsOk(x) && Agreeing(w) && PlainIDs(w) && Drawn(w, e) && TextEvent(e, x)
    ensures TextStep(w, e, x, w') <==> w' == Step(w, e)
  {
    hide Agreeing, PlainIDs, SurroundingsOk, HeaderValue;
    match e
    case Options(c) => OptionsStep(w, c, x, w');
    case Describe(c, found) => DescribeStep(w, c, found, x, w');
    case DoSetup(c, header, tcp, env) => SetupTextStep(w, c, header, env, x, w');
    case Play(c) =>
      StateTextStep(w, c, x, true, w');
      hide ChangeState, StateByText;
    case Pause(c) =>
      StateTextStep(w, c, x, false, w');
      hide ChangeState, StateByText;
    case DoTeardown(c) => DisconnectTextStep(w, c, x, w');
    case Disconnect(c) => DisconnectTextStep(w, c, x, w');
    case _ =>
  }

  // ---------------------------------------------------------------------------
  // Runs by text
  // ---------------------------------------------------------------------------

  /** A run in which every exchange is done by text, each in its own surroundings; `ws` are the worlds between. */
  ghost predicate TextRun(ws: seq<World>, events: seq<Event>, xs: seq<Surroundings>) {
    && |ws| == |events| + 1 && |xs| == |events|
    && forall i :: 0 <= i < |events| ==>
         && Drawn(ws[i], events[i]) && SurroundingsOk(xs[i]) && TextEvent(events[i], xs[i])
         && TextStep(ws[i], events[i], xs[i], ws[i + 1])
  }

  lemma StepKeepsPlain(w: World, e: Event, x: Surroundings)
    requires PlainIDs(w) && Drawn(w, e) && TextEvent(e, x)
    ensures PlainIDs(Step(w, e))
  {
    hide HeaderValue, Setup, Teardown, ChangeState, Freed;
  }

  lemma TextRunTail(ws: seq<World>, events: seq<Event>, xs: seq<Surroundings>)
    requires TextRun(ws, events, xs) && events != []
    ensures TextRun(ws[1..], events[1..], xs[1..])
  {
    hide TextStep, Drawn, SurroundingsOk, TextEvent;
    forall i | 0 <= i < |events| - 1
      ensures && Drawn(ws[1..][i], events[1..][i])
              && SurroundingsOk(xs[1..][i]) && TextEvent(events[1..][i], xs[1..][i])
              && TextStep(ws[1..][i], events[1..][i], xs[1..][i], ws[1..][i + 1])
    {
      assert Drawn(ws[i + 1], events[i + 1]);
    }
  }

  /** A run by text is a run of the protocol. */
  lemma {:induction false} TextRunIsRun(ws: seq<World>, events: seq<Event>, xs: seq<Surroundings>)
    requires TextRun(ws, events, xs) && Agreeing(ws[0]) && PlainIDs(ws[0])
    ensures ValidRun(ws[0], events) && Run(ws[0], events) == ws[|events|]
    decreases |events|
  {
    hide TextStep, Drawn, SurroundingsOk, TextEvent, Agreeing, PlainIDs, Step;
    if events != [] {
      assert Drawn(ws[0], events[0]);
      TextStepIsStep(ws[0], events[0], xs[0], ws[1]);
      StepAgrees(ws[0], events[0]);
      StepKeepsPlain(ws[0], events[0], xs[0]);
      TextRunTail(ws, events, xs);
      TextRunIsRun(ws[1..], events[1..], xs[1..]);
    }
  }

  /** And every run of the protocol whose events the clients can do by text is a run by text. */
  lemma {:induction false} RunIsTextRun(w: World, events: seq<Event>, xs: seq<Surroundings>) returns (ws: seq<World>)
    requires Agreeing(w) && PlainIDs(w) && ValidRun(w, events) && |xs| == |events|
    requires forall i :: 0 <= i < |events| ==> SurroundingsOk(xs[i]) && TextEvent(events[i], xs[i])
    ensures TextRun(ws, events, xs) && ws[0] == w && ws[|events|] == Run(w, events)
    decreases |events|
  {
    hide TextStep, Drawn, SurroundingsOk, TextEvent, Agreeing, PlainIDs, Step;
    if events == [] {
      ws := [w];
    } else {
      var w' := Step(w, events[0]);
      TextStepIsStep(w, events[0], xs[0], w');
      StepAgrees(w, events[0]);
      StepKeepsPlain(w, events[0], xs[0]);
      var rest := RunIsTextRun(w', events[1..], xs[1..]);
      ws := [w] + rest;
      forall i | 0 <= i < |events|
        ensures && Drawn(ws[i], events[i]) && SurroundingsOk(xs[i]) && TextEvent(events[i], xs[i])
                && TextStep(ws[i], events[i], xs[i], ws[i + 1])
      {
        if i > 0 {
          assert ws[i] == rest[i - 1] && events[i] == events[1..][i - 1] && xs[i] == xs[1..][i - 1];
        }
      }
    }
  }

  /**
   Everything that happens by text from the start of the server: client and server agree, and ports are
   safe as long as no cleanup drops marks.
   */
  lemma SafetyByText(range: Ports.PortRange, now: int, ws: seq<World>, events: seq<Event>, xs: seq<Surroundings>)
    requires TextRun(ws, events, xs) && ws[0] == Start(range, now)
    ensures Agreement(ws[|events|])
    ensures ValidRun(ws[0], events)
    ensures RangeOk(range) && UndisturbedRun(ws[0], events) ==> PortSafety(ws[|events|])
  {
    hide TextRun, Agreeing, Run, ValidRun, UndisturbedRun, Agreement, PortSafety, RangeOk, Start;
    StartAgrees(range, now);
    StartIsPlain(range, now);
    TextRunIsRun(ws, events, xs);
    AgreementOverRuns(range, now, events);
    if RangeOk(range) && UndisturbedRun(Start(range, now), events) {
      PortSafetyOverRuns(range, now, events);
    }
  }

  lemma StartIsPlain(range: Ports.PortRange, now: int)
    ensures PlainIDs(Start(range, now))
  {
  }
}
