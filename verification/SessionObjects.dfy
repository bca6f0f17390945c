/** The objects behind the protocol: server, connections and clients, with their mutable fields. */
module SessionObjects {
  import opened Results
  import opened Strconv
  import opened TransportHeader
  import opened Negotiation
  import opened Protocol
  import opened Exchanges
  import GoStrings
  import Requests
  import RTSPMessage
  import MessageObjects
  import Ports
  import Channels

  class Session {
    const id: string
    var url: string
    var state: SessionState

    constructor (id: string)
      ensures this.id == id && url == "" && state == Init
    {
      this.id, url, state := id, "", Init;
    }

    method UpdateState(state: SessionState)
      modifies this`state
      ensures this.state == state
    {
      this.state := state;
    }
  }

  /** The server's record of one connection. */
  class ClientConnection {
    var session: Session?
    var portAllocation: Option<PortAllocation>
    var tcpChannel: Option<Channels.TCPChannel>
    var useTCPTransport: bool

    function Value(): Connection
      reads this
    {
      Connection(if session == null then None else Some(session.id), portAllocation, tcpChannel, useTCPTransport)
    }

    constructor ()
      ensures Value() == NEW_CONNECTION
    {
      session, portAllocation, tcpChannel, useTCPTransport := null, None, None, false;
    }
  }

  class RTSPServer {
    var sessions: map<string, Session>
    /** The streams by name, with the text of their descriptions. */
    var streams: map<string, string>
    const portManager: Ports.PortManager
    const tcpTransportMgr: Channels.TCPTransportManager

    /** Every session is stored under its own ID, so no session object is stored twice. */
    ghost predicate Valid()
      reads this, portManager
    {
      portManager.Valid() && forall id :: id in sessions ==> sessions[id].id == id
    }

    /** The value of the server. */
    ghost function Value(): Server
      reads this, portManager, tcpTransportMgr, sessions.Values
    {
      Server(map id | id in sessions :: sessions[id].state, portManager.Value(), tcpTransportMgr.Value())
    }

    /** The URL a session was set up with. */
    function SessionURL(id: string): string
      reads this, sessions.Values
    {
      if id in sessions then sessions[id].url else ""
    }

    function Description(name: string): string
      reads this
    {
      if name in streams then streams[name] else ""
    }

    /** What the replies to a request depend on besides the protocol. */
    function Around(url: string, sessionID: string): Surroundings
      reads this, sessions.Values
    {
      Surroundings(streams.Keys, url, SessionURL(sessionID), Description(StreamName(url)))
    }

    constructor (portManager: Ports.PortManager, tcpTransportMgr: Channels.TCPTransportManager)
      requires portManager.Valid()
      ensures Valid() && sessions == map[] && this.portManager == portManager && this.tcpTransportMgr == tcpTransportMgr
    {
      sessions, streams, this.portManager, this.tcpTransportMgr := map[], map[], portManager, tcpTransportMgr;
    }

    method StoreSession(session: Session)
      requires Valid() && session !in sessions.Values
      modifies this`sessions
      ensures Valid() && sessions == old(sessions)[session.id := session]
      ensures Value() == old(Value()).(sessions := old(Value()).sessions[session.id := session.state])
    {
      sessions := sessions[session.id := session];
    }

    /** The TCP branch: takes the next channel pair, and writes it into the transport. */
    method UseTCP(client: ClientConnection, transport: Transport, sessionID: string) returns (t: Transport)
      modifies tcpTransportMgr, client`useTCPTransport, client`tcpChannel
      ensures var channel := Channels.NextChannel(old(Value()).channels, sessionID);
              && Value() == old(Value()).(channels := Channels.Allocate(old(Value()).channels, sessionID))
              && client.Value() == old(client.Value()).(useTCP := true, channel := Some(channel))
              && t == transport.(kind := Interleaved,
                                 interleaved := Itoa(channel.rtpChannel) + "-" + Itoa(channel.rtcpChannel))
    {
      hide Itoa;
      client.useTCPTransport := true;
      var channel := tcpTransportMgr.AllocateChannel(sessionID);
      client.tcpChannel := Some(channel);
      t := transport.(kind := Interleaved);
      t := t.(interleaved := Itoa(channel.rtpChannel) + "-" + Itoa(channel.rtcpChannel));
    }

    /** The UDP branch: asks for a port pair, and writes it into the transport. */
    method UseUDP(client: ClientConnection, transport: Transport, env: Environment) returns (ok: bool, t: Transport)
      requires Valid() && |env.clock| == |env.probes| == 3
      modifies portManager, client`portAllocation
      ensures Valid()
      ensures var (pool, found) := Ports.AllocateWithRetry(old(Value()).pool, env.clock, env.probes);
              && Value() == old(Value()).(pool := pool)
              && ok == found.Some?
              && (!ok ==> client.Value() == old(client.Value()))
              && (ok ==> t == transport.(serverPorts := PortsText(found.value, found.value + 1)))
              && (ok ==> var allocation := Some(Granted(old(Value()).pool, found.value, env));
                         client.Value() == old(client.Value()).(allocation := allocation))
    {
      hide Itoa, Ports.AllocateWithRetry, Ports.SuccessTime;
      t := transport;
      var allocation := portManager.AllocatePortsWithRetry(env.id, 3, env.clock, env.probes);
      ok := allocation.Some?;
      if ok {
        client.portAllocation := allocation;
        t := t.(serverPorts := Itoa(allocation.value.rtpPort) + "-" + Itoa(allocation.value.rtcpPort));
      }
    }

    /** handleSetup after the header was parsed. */
    method HandleSetup(client: ClientConnection, url: string, transport: Transport, env: Environment)
      returns (reply: Reply)
      requires Valid() && |env.clock| == |env.probes| == 3
      modifies this`sessions, portManager, tcpTransportMgr, client
      ensures Valid()
      ensures forall id :: id in sessions && id != env.id ==> id in old(sessions) && sessions[id] == old(sessions[id])
      ensures env.id in sessions && fresh(sessions[env.id]) && sessions[env.id].url == url
      ensures (Value(), client.Value(), reply)
           == Protocol.HandleSetup(old(Value()), old(client.Value()), transport, env)
    {
      hide Printed, Itoa, Ports.AllocateWithRetry, Ports.SuccessTime, Channels.Allocate, Channels.NextChannel;
      hide PortsText, Granted, Value;
      var session := new Session(env.id);
      session.url := url;
      session.UpdateState(Ready);
      StoreSession(session);
      client.session := session;
      var t := transport;
      if IsTCPTransport(t) {
        t := UseTCP(client, t, env.id);
      } else {
        var ok;
        ok, t := UseUDP(client, t, env);
        if !ok {
          return Reply(ServiceUnavailable, "", "");
        }
      }
      var text := PrintTransport(t);
      reply := Reply(OK, env.id, text);
    }

    /** The way from the header text: an absent header is refused before anything happens. */
    method HandleSetupHeader(client: ClientConnection, url: string, header: string, env: Environment)
      returns (reply: Reply)
      requires Valid() && |env.clock| == |env.probes| == 3
      modifies this`sessions, portManager, tcpTransportMgr, client
      ensures Valid()
      ensures header == "" ==> Value() == old(Value()) && client.Value() == old(client.Value())
                                && reply == Reply(BadRequest, "", "")
      ensures forall id :: id in sessions && id != env.id ==> id in old(sessions) && sessions[id] == old(sessions[id])
      ensures env.id in sessions ==> (env.id in old(sessions) && sessions[env.id] == old(sessions[env.id]))
                                     || fresh(sessions[env.id])
      ensures header != "" ==>
                (Value(), client.Value(), reply)
                == Protocol.HandleSetup(old(Value()), old(client.Value()), Parsed(header), env)
    {
      hide Protocol.HandleSetup, Parsed;
      if header == "" {
        return Reply(BadRequest, "", "");
      }
      var transport := ParseTransport(header);
      reply := HandleSetup(client, url, transport, env);
    }

    /** handlePlay and handlePause differ in the state they set. */
    method HandleState(sessionID: string, target: SessionState) returns (reply: Reply)
      requires Valid()
      modifies sessions.Values
      ensures Valid() && (Value(), reply) == Protocol.HandleState(old(Value()), sessionID, target)
    {
      if sessionID == "" {
        return Reply(BadRequest, "", "");
      }
      if sessionID !in sessions {
        return Reply(NotFound, "", "");
      }
      var session := sessions[sessionID];
      assert forall id :: id in sessions && sessions[id] == session ==> id == sessionID;
      session.UpdateState(target);
      assert Value().sessions == old(Value()).sessions[sessionID := target];
      reply := Reply(OK, sessionID, "");
    }

    method HandleTeardown(client: ClientConnection, sessionID: string) returns (reply: Reply)
      requires Valid()
      modifies this`sessions, portManager, tcpTransportMgr
      ensures Valid() && sessions == old(sessions) - (if sessionID == "" then {} else {sessionID})
      ensures (Value(), reply) == Protocol.HandleTeardown(old(Value()), client.Value(), sessionID)
    {
      if sessionID != "" {
        sessions := sessions - {sessionID};
        assert Value().sessions == old(Value()).sessions - {sessionID};
        if client.useTCPTransport && client.tcpChannel.Some? {
          tcpTransportMgr.ReleaseChannel(sessionID);
        } else if client.portAllocation.Some? {
          portManager.ReleasePorts(client.portAllocation.value);
        }
        assert Value().sessions == old(Value()).sessions - {sessionID};
      }
      reply := Reply(OK, sessionID, "");
    }

    /** handleMessage: the dispatch on the request's method, up to the whole response. */
    method HandleMessage(client: ClientConnection, message: MessageObjects.MessageObject, env: Environment)
      returns (response: RTSPMessage.Message)
      requires Valid() && |env.clock| == |env.probes| == 3
      modifies this`sessions, portManager, tcpTransportMgr, client, sessions.Values
      ensures Valid() && streams == old(streams) && message.Value() == old(message.Value())
      ensures var m := message.Value();
              var (s, conn, reply) := Protocol.HandleMessage(old(Value()), old(client.Value()), streams.Keys, m, env);
              && Value() == s && client.Value() == conn
              && response == ServerResponse(m.method_, reply, old(Around(m.url, Header(m, "Session"))))
    {
      hide Protocol.HandleSetup, Protocol.HandleState, Protocol.HandleTeardown, Parsed, StreamName, Value;
      hide ServerResponse;
      var transport := message.GetHeader("Transport");
      var sessionID := message.GetHeader("Session");
      var x := Around(message.url, sessionID);
      var reply;
      match message.method_ {
        case "OPTIONS" => reply := Reply(OK, "", "");
        case "DESCRIBE" => reply := DescribeReply(StreamName(message.url) in streams);
        case "SETUP" => reply := HandleSetupHeader(client, message.url, transport, env);
        case "PLAY" => reply := HandleState(sessionID, Playing);
        case "PAUSE" => reply := HandleState(sessionID, Ready);
        case "TEARDOWN" => reply := HandleTeardown(client, sessionID);
        case _ => reply := Reply(MethodNotAllowed, "", "");
      }
      response := ServerResponse(message.method_, reply, x);
    }
  }

  class RTSPClient {
    const serverURL: string
    var connected: bool
    var hasSDP: bool
    var session: Session?
    var ports: PortPair
    var sequenceNum: int
    /** What the server answered last, and the interleaved channel, if it ever gave one. */
    var transport: Option<Transport>
    var tcpChannel: Option<Channels.TCPChannel>
    var useTCPTransport: bool
    var dynamicPorts: bool

    function Value(): Client
      reads this, session
    {
      Client(connected, hasSDP, if session == null then None else Some(ClientSession(session.id, session.state)),
             ports, sequenceNum)
    }

    /** The client's session object is not one of the server's. */
    ghost predicate Apart(server: RTSPServer)
      reads this, server
    {
      session == null || session !in server.sessions.Values
    }

    constructor (serverURL: string)
      ensures Value() == NEW_CLIENT && session == null && this.serverURL == serverURL
      ensures transport == None && tcpChannel == None && !useTCPTransport
    {
      connected, hasSDP, session, ports, sequenceNum := false, false, null, NoPair, 1;
      this.serverURL, transport, tcpChannel, useTCPTransport, dynamicPorts := serverURL, None, None, false, false;
    }

    /** The channels of an interleaved reply; the numbers are cut to bytes. */
    method TakeChannel(interleaved: string)
      modifies this`tcpChannel
      ensures tcpChannel == old(tcpChannel) || (tcpChannel.Some? && tcpChannel.value.sessionID == "")
    {
      if interleaved != "" {
        var ports := GoStrings.Split(interleaved, '-');
        if |ports| >= 2 {
          var (rtp, rtcp) := (Atoi(ports[0]).value, Atoi(ports[1]).value);
          tcpChannel := Some(Channels.TCPChannel(rtp % 256, rtcp % 256, ""));
        }
      }
    }

    /** What Setup does with the reply. No reply makes the client switch to TCP, whatever it says. */
    method AcceptSetup(reply: Reply)
      modifies this
      ensures Value() == Protocol.AcceptSetup(old(Value()), reply)
      ensures session == old(session) || fresh(session)
      ensures transport == if reply.status == OK && reply.transport != "" then Some(Parsed(reply.transport))
                           else old(transport)
      ensures useTCPTransport == old(useTCPTransport) && (old(tcpChannel) == None ==> tcpChannel == None)
    {
      hide Parsed, PairOf, InRange;
      if reply.status != OK || reply.transport == "" {
        return;
      }
      var serverTransport := ParseTransport(reply.transport);
      transport := Some(serverTransport);
      if IsTCPTransport(serverTransport) {
        useTCPTransport := true;
        TakeChannel(serverTransport.interleaved);
      } else {
        var pair := ReadPorts(serverTransport.serverPorts);
        if pair.Pair? {
          ports := pair;
        }
      }
      NeverTCP(reply.transport);
      if reply.sessionID == "" {
        return;
      }
      var accepted := new Session(reply.sessionID);
      accepted.UpdateState(Ready);
      session := accepted;
      if tcpChannel.Some? {
        tcpChannel := Some(tcpChannel.value.(sessionID := reply.sessionID));
      }
      sequenceNum := (sequenceNum + 1) % 0x1_0000;
    }

    /** The transport that Setup asks for, field by field. */
    method RequestedTransport() returns (t: Transport)
      ensures t == ClientTransport(useTCPTransport, dynamicPorts)
    {
      t := INITIAL.(clientPorts := "5004-5005", mode := "PLAY");
      if useTCPTransport {
        t := t.(kind := Interleaved, interleaved := "0-1", clientPorts := "");
      } else if dynamicPorts {
        t := t.(clientPorts := "");
      }
    }

    /** The header of Setup's request, as text; the server reads RTP in every case. */
    method RequestHeader() returns (header: string)
      ensures header == Printed(ClientTransport(useTCPTransport, dynamicPorts)) && header != ""
      ensures Parsed(header) == ClientTransport(useTCPTransport, dynamicPorts).(kind := RTP)
    {
      hide Printed, Parsed, ClientTransport, Settled, Requests.HeaderValue;
      var t := RequestedTransport();
      header := PrintTransport(t);
      ClientHeader(useTCPTransport, dynamicPorts);
    }

    /** The exchange for the text of a Transport header. */
    method SetupHeader(server: RTSPServer, conn: ClientConnection, header: string, env: Environment)
      requires server.Valid() && Apart(server) && |env.clock| == |env.probes| == 3 && header != ""
      modifies this, conn, server`sessions, server.portManager, server.tcpTransportMgr
      ensures server.Valid() && Apart(server)
      ensures (server.Value(), Peer(Value(), conn.Value()))
           == Protocol.Setup(old(server.Value()), old(Peer(Value(), conn.Value())), Parsed(header), env)
    {
      hide Protocol.HandleSetup, Protocol.AcceptSetup, Parsed;
      if !hasSDP || !connected {
        return;
      }
      var reply := server.HandleSetupHeader(conn, serverURL, header, env);
      AcceptSetup(reply);
      assert forall s :: s in server.sessions.Values ==> s != session;
    }

    /** SETUP: the request's header is built from the client's modes. */
    method Setup(server: RTSPServer, conn: ClientConnection, env: Environment)
      requires server.Valid() && Apart(server) && |env.clock| == |env.probes| == 3
      modifies this, conn, server`sessions, server.portManager, server.tcpTransportMgr
      ensures server.Valid() && Apart(server)
      ensures (server.Value(), Peer(Value(), conn.Value()))
           == Protocol.Setup(old(server.Value()), old(Peer(Value(), conn.Value())),
                             ClientTransport(old(useTCPTransport), old(dynamicPorts)).(kind := RTP), env)
    {
      hide Protocol.Setup, Parsed, Printed, ClientTransport, Value;
      var header := RequestHeader();
      SetupHeader(server, conn, header, env);
    }

    /** The exchange for a transport that the server is taken to have read, interleaved ones included. */
    method SetupWith(server: RTSPServer, conn: ClientConnection, transport: Transport, env: Environment)
      requires server.Valid() && Apart(server) && |env.clock| == |env.probes| == 3
      modifies this, conn, server`sessions, server.portManager, server.tcpTransportMgr
      ensures server.Valid() && Apart(server)
      ensures (server.Value(), Peer(Value(), conn.Value()))
           == Protocol.Setup(old(server.Value()), old(Peer(Value(), conn.Value())), transport, env)
    {
      hide Protocol.HandleSetup, Protocol.AcceptSetup;
      if !hasSDP || !connected {
        return;
      }
      var reply := server.HandleSetup(conn, serverURL, transport, env);
      label Answered:
      AcceptSetup(reply);
      assert forall s :: s in server.sessions.Values ==> s != session;
    }

    /** PLAY and PAUSE. */
    method ChangeState(server: RTSPServer, conn: ClientConnection, target: SessionState)
      requires server.Valid() && Apart(server)
      modifies this, session, server.sessions.Values
      ensures server.Valid() && Apart(server)
      ensures (server.Value(), Peer(Value(), conn.Value()))
           == Protocol.ChangeState(old(server.Value()), old(Peer(Value(), conn.Value())), target)
    {
      hide Protocol.HandleState;
      if session == null || !connected {
        return;
      }
      var reply := server.HandleState(session.id, target);
      if reply.status == OK {
        session.UpdateState(target);
        sequenceNum := (sequenceNum + 1) % 0x1_0000;
      }
    }

    method Teardown(server: RTSPServer, conn: ClientConnection)
      requires server.Valid() && Apart(server)
      modifies this, server`sessions, server.portManager, server.tcpTransportMgr
      ensures server.Valid() && Apart(server)
      ensures (server.Value(), Peer(Value(), conn.Value()))
           == Protocol.Teardown(old(server.Value()), old(Peer(Value(), conn.Value())))
    {
      hide Protocol.HandleTeardown;
      if session == null || !connected {
        return;
      }
      var reply := server.HandleTeardown(conn, session.id);
      if reply.status == OK {
        session := null;
        sequenceNum := (sequenceNum + 1) % 0x1_0000;
      }
    }
  }

  /** The two numbers of a server_port value. */
  method ReadPorts(serverPorts: string) returns (pair: PortPair)
    ensures pair == PairOf(serverPorts)
  {
    pair := NoPair;
    if serverPorts != "" {
      var ports := GoStrings.Split(serverPorts, '-');
      if |ports| >= 2 {
        pair := Pair(Atoi(ports[0]).value, Atoi(ports[1]).value);
      }
    }
  }
}
