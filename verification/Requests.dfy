/** The client's requests as text: from the client's message, over the connection, to the handler. */
module Requests {
  import opened Results
  import opened GoStrings
  import opened Strconv
  import opened RTSPMessage
  import MessageStream
  import TransportHeader
  import opened Protocol

  const RTSP_VERSION: string := "RTSP/1.0"

  /** The methods the client sends. */
  predicate ClientMethod(method_: string) {
    method_ in ["OPTIONS", "DESCRIBE", "SETUP", "PLAY", "PAUSE", "TEARDOWN"]
  }

  /** A request of the client: the headers all requests have, and its own. */
  function ClientRequest(method_: string, url: string, cseq: int, own: map<string, string>): Message {
    Message(MessageType.Request, method_, url, RTSP_VERSION, 0, "",
            map["User-Agent" := "Go-RTSP-Client/1.0", "CSeq" := Itoa(cseq)] + own, "")
  }

  /** A value that a header line carries unchanged. */
  predicate HeaderValue(value: string) {
    Trimmed(value) && '\n' !in value
  }

  /** The headers that only some requests have. */
  predicate OwnHeaders(own: map<string, string>) {
    forall k :: k in own ==> k in ["Session", "Transport", "Accept"] && HeaderValue(own[k])
  }

  /** A header that is one line and that no reader takes for Content-Length. */
  ghost predicate PlainHeader(key: string, value: string) {
    HeaderValue(key) && ':' !in key && !MessageStream.IsContentLength(key) && '\n' !in value
  }

  lemma PlainHeadersAreFramed(m: Message)
    requires FirstLineWellFormed(m) && !MessageStream.FirstLineIsLength(m) && m.body == ""
    requires forall k :: k in m.headers ==> PlainHeader(k, m.headers[k])
    ensures MessageStream.Framed(m)
  {
    hide FirstLineWellFormed, MessageStream.FirstLineIsLength, MessageStream.IsContentLength, Trimmed;
  }

  /** A first line that does not begin with a c cannot be taken for Content-Length. */
  lemma NotALength(m: Message)
    requires FirstLineWellFormed(m)
    requires var start := if m.kind == MessageType.Request then m.method_ else m.version;
             start != "" && MessageStream.LowerChar(start[0]) != 'c'
    ensures !MessageStream.FirstLineIsLength(m)
  {
    MessageStream.TrimmedFirstLine(m);
    hide Itoa, MessageStream.TrimCRLF, FirstLineWellFormed;
    var line := FirstLine(MessageStream.TrimmedFirst(m));
    assert line[0] == if m.kind == MessageType.Request then m.method_[0] else m.version[0];
    assert (MessageStream.CONTENT_LENGTH + ":")[0] == 'c';
  }

  lemma MethodsArePlain(method_: string)
    requires ClientMethod(method_)
    ensures ' ' !in method_ && '\n' !in method_ && !HasPrefix(method_, "RTSP/")
    ensures method_ != "" && MessageStream.LowerChar(method_[0]) != 'c'
  {
    assert |method_| >= 5 ==> method_[..5][0] == method_[0];
    assert "RTSP/"[0] == 'R';
  }

  lemma RequestLineIsPlain(m: Message)
    requires m.kind == MessageType.Request && m.version == RTSP_VERSION && m.statusCode == 0 && m.statusText == ""
    requires ClientMethod(m.method_) && ' ' !in m.url && '\n' !in m.url
    ensures FirstLineWellFormed(m) && !MessageStream.FirstLineIsLength(m)
  {
    hide ClientMethod, HasPrefix, MessageStream.FirstLineIsLength;
    MethodsArePlain(m.method_);
    assert ' ' !in RTSP_VERSION && '\n' !in RTSP_VERSION;
    assert forall c :: c in m.method_ + m.url + m.version ==> c in m.method_ || c in m.url || c in m.version;
    NotALength(m);
  }

  lemma FixedHeaders(cseq: int)
    ensures PlainHeader("User-Agent", "Go-RTSP-Client/1.0") && PlainHeader("CSeq", Itoa(cseq))
    ensures Trimmed("Go-RTSP-Client/1.0") && Trimmed(Itoa(cseq))
  {
    hide Itoa;
    var n := Itoa(cseq);
    assert n[0] in n && n[|n| - 1] in n;
  }

  lemma OwnHeader(key: string)
    requires key in ["Session", "Transport", "Accept"]
    ensures HeaderValue(key) && ':' !in key && !MessageStream.IsContentLength(key)
  {
  }

  lemma RequestHeadersArePlain(m: Message, cseq: int, own: map<string, string>)
    requires m.headers == map["User-Agent" := "Go-RTSP-Client/1.0", "CSeq" := Itoa(cseq)] + own
    requires OwnHeaders(own)
    ensures forall k :: k in m.headers ==> PlainHeader(k, m.headers[k]) && Trimmed(m.headers[k])
  {
    hide Itoa, Trimmed;
    FixedHeaders(cseq);
    forall k | k in own ensures PlainHeader(k, own[k]) {
      OwnHeader(k);
    }
    hide PlainHeader, MessageStream.IsContentLength;
  }

  /** Every request of the client survives the connection, whatever URL without blanks it names. */
  lemma RequestIsFramed(method_: string, url: string, cseq: int, own: map<string, string>)
    requires ClientMethod(method_) && ' ' !in url && '\n' !in url && OwnHeaders(own)
    ensures MessageStream.Framed(ClientRequest(method_, url, cseq, own))
    ensures MessageStream.Received(ClientRequest(method_, url, cseq, own)) == ClientRequest(method_, url, cseq, own)
  {
    hide ClientMethod, Itoa, Trimmed, FirstLineWellFormed, PlainHeader, MessageStream.FirstLineIsLength;
    hide MessageStream.Framed, MessageStream.Received, OwnHeaders;
    var m := ClientRequest(method_, url, cseq, own);
    RequestLineIsPlain(m);
    RequestHeadersArePlain(m, cseq, own);
    PlainHeadersAreFramed(m);
    MessageStream.ReceivedExactly(m);
    assert RTSP_VERSION[|RTSP_VERSION| - 1] == '0';
  }

  /** A request arrives as it was sent, and the next one is still on the connection. */
  lemma RequestArrives(method_: string, url: string, cseq: int, own: map<string, string>, text: string, rest: string)
    requires ClientMethod(method_) && ' ' !in url && '\n' !in url && OwnHeaders(own)
    requires IsPrinting(ClientRequest(method_, url, cseq, own), text)
    ensures MessageStream.ReadOne(text + rest) == (Ok(ClientRequest(method_, url, cseq, own)), rest)
  {
    hide IsPrinting, MessageStream.ReadOne, MessageStream.Framed, MessageStream.Received, ClientMethod, OwnHeaders;
    hide ClientRequest;
    RequestIsFramed(method_, url, cseq, own);
    MessageStream.ReadFramed(ClientRequest(method_, url, cseq, own), text, rest);
  }

  /** What the handler of an arrived request does is the step of the protocol for its method. */
  lemma RequestIsHandled(s: Server, conn: Connection, streams: set<string>, env: Environment,
                         url: string, cseq: int, value: string)
    requires |env.clock| == |env.probes| == 3
    ensures HandleMessage(s, conn, streams, ClientRequest("OPTIONS", url, cseq, map[]), env)
         == (s, conn, Reply(OK, "", ""))
    ensures HandleMessage(s, conn, streams, ClientRequest("DESCRIBE", url, cseq, map["Accept" := value]), env)
         == (s, conn, DescribeReply(StreamName(url) in streams))
    ensures HandleMessage(s, conn, streams, ClientRequest("PLAY", url, cseq, map["Session" := value]), env)
         == (HandleState(s, value, Playing).0, conn, HandleState(s, value, Playing).1)
    ensures HandleMessage(s, conn, streams, ClientRequest("PAUSE", url, cseq, map["Session" := value]), env)
         == (HandleState(s, value, Ready).0, conn, HandleState(s, value, Ready).1)
    ensures HandleMessage(s, conn, streams, ClientRequest("TEARDOWN", url, cseq, map["Session" := value]), env)
         == (HandleTeardown(s, conn, value).0, conn, HandleTeardown(s, conn, value).1)
    ensures value != "" ==>
              HandleMessage(s, conn, streams, ClientRequest("SETUP", url, cseq, map["Transport" := value]), env)
              == HandleSetup(s, conn, TransportHeader.Parsed(value), env)
  {
    hide HandleState, HandleTeardown, HandleSetup, TransportHeader.Parsed, Itoa, StreamName;
  }
}
