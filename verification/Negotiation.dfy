/** How a SETUP exchange carries the allocated UDP port pair from the server to the client. */
module Negotiation {
  import opened GoStrings
  import opened Strconv
  import opened TransportHeader

  datatype PortPair = NoPair | Pair(rtp: int, rtcp: int)

  predicate IsTCPTransport(t: Transport) {
    t.kind == Interleaved || t.kind == TCP
  }

  /** The value the server writes into ServerPorts. */
  function PortsText(rtp: int, rtcp: int): string {
    Itoa(rtp) + "-" + Itoa(rtcp)
  }

  /** The Transport header of the server's reply on the UDP branch of handleSetup. */
  function ReplyHeader(request: string, rtp: int, rtcp: int): string {
    Printed(Parsed(request).(serverPorts := PortsText(rtp, rtcp)))
  }

  /** What the client makes of the server ports of a reply; conversion errors are ignored. */
  function PairOf(serverPorts: string): PortPair {
    if serverPorts == "" then NoPair
    else
      var ports := Split(serverPorts, '-');
      if |ports| >= 2 then Pair(Atoi(ports[0]).value, Atoi(ports[1]).value) else NoPair
  }

  /** What the client reads out of the Transport header of a reply. */
  function ClientPair(header: string): PortPair {
    var t := Parsed(header);
    if IsTCPTransport(t) then NoPair else PairOf(t.serverPorts)
  }

  lemma PortsTextIsPlain(rtp: int, rtcp: int)
    ensures FieldValue(PortsText(rtp, rtcp))
    ensures TrimRight(PortsText(rtp, rtcp)) == PortsText(rtp, rtcp) != ""
  {
    hide Itoa;
    hide TrimRight;
    hide Contains;
    var text := PortsText(rtp, rtcp);
    assert forall c :: c in text ==> c in Itoa(rtp) || c == '-' || c in Itoa(rtcp);
    assert 'R' !in text && '=' !in text && ';' !in text;
    NotIn(text, "RTP/AVP", 'R');
    var last := Itoa(rtcp)[|Itoa(rtcp)| - 1];
    assert text[|text| - 1] == last && last in Itoa(rtcp);
    SpaceAtBackLast(text);
  }

  /** After the whole way through print, parse and split, the client sees the text the server wrote. */
  lemma ReplyCarriesPorts(request: string, rtp: int, rtcp: int)
    ensures !IsTCPTransport(Parsed(request))
    ensures !IsTCPTransport(Parsed(ReplyHeader(request, rtp, rtcp)))
    ensures Parsed(ReplyHeader(request, rtp, rtcp)).serverPorts == PortsText(rtp, rtcp)
  {
    hide Parsed;
    hide Printed;
    hide PortsText;
    hide FieldValue;
    ParsedInRange(request);
    PortsTextIsPlain(rtp, rtcp);
    OverwriteServerPorts(Parsed(request), PortsText(rtp, rtcp));
  }

  lemma PairOfPortsText(rtp: int, rtcp: int)
    requires IsInt64(rtp) && IsInt64(rtcp) && (0 <= rtp ==> 0 <= rtcp)
    ensures PairOf(PortsText(rtp, rtcp)) == Pair(rtp, rtcp) <==> rtp >= 0
  {
    if rtp >= 0 {
      SplitCons(Itoa(rtp), '-', Itoa(rtcp));
      SplitNone(Itoa(rtcp), '-');
      AtoiOfItoa(rtp);
      AtoiOfItoa(rtcp);
    } else {
      var rest := NatToString(-rtp) + "-" + Itoa(rtcp);
      assert PortsText(rtp, rtcp) == "" + ['-'] + rest;
      SplitCons("", '-', rest);
    }
  }

  /**
   For every request header and every pair of ports the allocator can hand out, the client ends up
   with the server's pair exactly when the RTP port is not negative.
   */
  lemma ClientSeesServerPair(request: string, rtp: int)
    requires IsInt64(rtp) && IsInt64(rtp + 1)
    ensures ClientPair(ReplyHeader(request, rtp, rtp + 1)) == Pair(rtp, rtp + 1) <==> rtp >= 0
  {
    ReplyCarriesPorts(request, rtp, rtp + 1);
    PairOfPortsText(rtp, rtp + 1);
  }
}
