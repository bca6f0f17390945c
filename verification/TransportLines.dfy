/** What arbitrary Transport headers are parsed as, and not only printed ones, part by part. */
module TransportLines {
  import opened GoStrings
  import opened Strconv
  import opened TransportHeader
  import opened Negotiation

  /** The value of a part is what stands between its first equals sign and the second, if there is one. */
  lemma ValueMeans(name: string, value: string, tail: string)
    requires '=' !in name && '=' !in value && Tail(tail, '=')
    ensures ValueOf(name + "=" + value + tail) == value
    ensures ValueOf(name) == ""
  {
    hide Split, Join;
    var words := [name, value];
    SplitNone(name, '=');
    SplitWords(words, tail, '=');
    TwoWords(name, value, '=');
    assert Join(words, '=') == name + "=" + value;
    var parts := Split(Join(words, '=') + tail, '=');
    assert parts[1] == words[1];
  }

  lemma TwoWords(a: string, b: string, c: char)
    ensures Join([a, b], c) == a + [c] + b
  {
    assert [a, b][1..] == [b];
  }

  /** The keywords in the order in which they count. */
  const KEYWORDS: seq<string> := ["RTP/AVP", "client_port=", "server_port=", "ssrc=", "mode=", "unicast", "multicast",
                                  "ttl=", "destination=", "interleaved="]

  /** The first keyword that occurs anywhere in the part, or the number of keywords. */
  function FirstKeyword(part: string, from: nat): (k: nat)
    requires from <= |KEYWORDS|
    ensures from <= k <= |KEYWORDS|
    ensures k < |KEYWORDS| ==> Contains(part, KEYWORDS[k])
    ensures forall j :: from <= j < k ==> !Contains(part, KEYWORDS[j])
    decreases |KEYWORDS| - from
  {
    if from == |KEYWORDS| || Contains(part, KEYWORDS[from]) then from else FirstKeyword(part, from + 1)
  }

  /**
   One part sets one field, that of the first keyword in it; a TTL that is no number, and a part without any
   keyword, set nothing. Nothing ever makes the transport anything else than RTP.
   */
  lemma PartMeans(t: Transport, name: string, value: string, tail: string)
    requires '=' !in name && '=' !in value && Tail(tail, '=')
    ensures var part := name + "=" + value + tail;
            var (k, ttl) := (FirstKeyword(part, 0), Atoi(value));
            ApplyPart(t, part) == match k
              case 0 => t.(kind := RTP)
              case 1 => t.(clientPorts := value)
              case 2 => t.(serverPorts := value)
              case 3 => t.(ssrc := value)
              case 4 => t.(mode := value)
              case 5 => t.(unicast := true, multicast := false)
              case 6 => t.(unicast := false, multicast := true)
              case 7 => if ttl.err == NoError then t.(ttl := ttl.value) else t
              case 8 => t.(destination := value)
              case 9 => t.(interleaved := value)
              case _ => t
  {
    var part := name + "=" + value + tail;
    var k := FirstKeyword(part, 0);
    ValueMeans(name, value, tail);
    KeywordDispatch(t, part, k);
  }

  lemma KeywordDispatch(t: Transport, part: string, k: nat)
    requires k <= |KEYWORDS| && (k < |KEYWORDS| ==> Contains(part, KEYWORDS[k]))
    requires forall j :: 0 <= j < k ==> !Contains(part, KEYWORDS[j])
    ensures var (v, ttl) := (ValueOf(part), Atoi(ValueOf(part)));
            ApplyPart(t, part) == match k
              case 0 => t.(kind := RTP)
              case 1 => t.(clientPorts := v)
              case 2 => t.(serverPorts := v)
              case 3 => t.(ssrc := v)
              case 4 => t.(mode := v)
              case 5 => t.(unicast := true, multicast := false)
              case 6 => t.(unicast := false, multicast := true)
              case 7 => if ttl.err == NoError then t.(ttl := ttl.value) else t
              case 8 => t.(destination := v)
              case 9 => t.(interleaved := v)
              case _ => t
  {
    hide ValueOf, Contains, Atoi;
    assert KEYWORDS[0] == "RTP/AVP" && KEYWORDS[1] == "client_port=";
    if k > 0 { NoLonger(part); }
    assert k > 0 ==> !Contains(part, KEYWORDS[0]);
    assert k > 1 ==> !Contains(part, KEYWORDS[1]);
    assert k > 2 ==> !Contains(part, KEYWORDS[2]);
    assert k > 3 ==> !Contains(part, KEYWORDS[3]);
    assert k > 4 ==> !Contains(part, KEYWORDS[4]);
    assert k > 5 ==> !Contains(part, KEYWORDS[5]);
    assert k > 6 ==> !Contains(part, KEYWORDS[6]);
    assert k > 7 ==> !Contains(part, KEYWORDS[7]);
    assert k > 8 ==> !Contains(part, KEYWORDS[8]);
    assert k > 9 ==> !Contains(part, KEYWORDS[9]);
  }

  lemma NoLonger(part: string)
    requires !Contains(part, "RTP/AVP")
    ensures !Contains(part, "RTP/AVP/TCP") && !Contains(part, "RTP/AVPF")
  {
    if Contains(part, "RTP/AVPF") {
      assert OccursAt("RTP/AVPF", "RTP/AVP", 0);
      var i :| 0 <= i <= |part| - 8 && OccursAt(part, "RTP/AVPF", i);
      ContainsWithin(part, "RTP/AVPF", i, "RTP/AVP");
    }
    if Contains(part, "RTP/AVP/TCP") {
      LongerKeyword(part);
    }
  }

  /** A part without an equals sign can only name the profile or the cast. */
  lemma PlainPartMeans(t: Transport, part: string)
    requires '=' !in part
    ensures ApplyPart(t, part) ==
            if Contains(part, "RTP/AVP") then t.(kind := RTP)
            else if Contains(part, "unicast") then t.(unicast := true, multicast := false)
            else if Contains(part, "multicast") then t.(unicast := false, multicast := true)
            else t
  {
    hide ValueOf, Contains, Atoi;
    NotIn(part, "client_port=", '=');
    NotIn(part, "server_port=", '=');
    NotIn(part, "ssrc=", '=');
    NotIn(part, "mode=", '=');
    NotIn(part, "ttl=", '=');
    NotIn(part, "destination=", '=');
    NotIn(part, "interleaved=", '=');
    if !Contains(part, "RTP/AVP") { NoLonger(part); }
  }

  /** One more part in a header: it counts last, without the white space around it. */
  lemma OneMorePart(header: string, part: string)
    requires ';' !in part
    ensures Parsed(header + ";" + part) == ApplyPart(Parsed(header), TrimSpace(part))
    ensures Parsed(part) == ApplyPart(INITIAL, TrimSpace(part))
  {
    hide ApplyPart, Split, TrimSpace;
    SplitAppend(header, ';', part);
    assert header + ";" + part == header + [';'] + part;
    SplitNone(part, ';');
    ApplyPartsConcat(INITIAL, Split(header, ';'), [part]);
    ApplySingle(Parsed(header), part);
    ApplySingle(INITIAL, part);
  }

  lemma ApplySingle(t: Transport, part: string)
    ensures ApplyParts(t, [part]) == ApplyPart(t, TrimSpace(part))
  {
    hide ApplyPart, TrimSpace;
    var parts := [part];
    assert parts[1..] == [];
    assert ApplyParts(ApplyPart(t, TrimSpace(part)), []) == ApplyPart(t, TrimSpace(part));
  }

  /** What starts out without any part: RTP, unicast, and nothing else. */
  lemma NoParts()
    ensures Parsed("") == Transport(RTP, "", "", "", "", true, false, 0, "", "")
  {
    OneMorePart("", "");
    assert TrimSpace("") == "";
    forall k | k in {"RTP/AVP", "unicast", "multicast"} ensures !Contains("", k) {
      TooShortToContain("", k);
    }
    PlainPartMeans(INITIAL, "");
    hide Contains;
  }

  /** A printed header with all its fields: their order, and the keyword of each. */
  lemma FullHeader(t: Transport)
    requires t.clientPorts != "" && t.serverPorts != "" && t.ssrc != "" && t.mode != "" && t.ttl > 0
    requires t.destination != "" && t.interleaved != ""
    ensures Printed(t) ==
            Join([KindText(t.kind)] + (if t.unicast then ["unicast"] else if t.multicast then ["multicast"] else [])
                 + ["client_port=" + t.clientPorts, "server_port=" + t.serverPorts, "ssrc=" + t.ssrc, "mode=" + t.mode,
                    "ttl=" + Itoa(t.ttl), "destination=" + t.destination, "interleaved=" + t.interleaved], ';')
  {
    FullField("client_port", t.clientPorts);
    FullField("server_port", t.serverPorts);
    FullField("ssrc", t.ssrc);
    FullField("mode", t.mode);
    FullField("ttl", Itoa(t.ttl));
    FullField("destination", t.destination);
    FullField("interleaved", t.interleaved);
    hide Join, Itoa, KindText, Field;
    Keywords();
    var cast := if t.unicast then ["unicast"] else if t.multicast then ["multicast"] else [];
    assert Parts(t) == [KindText(t.kind)] + cast
                       + ["client_port=" + t.clientPorts, "server_port=" + t.serverPorts, "ssrc=" + t.ssrc,
                          "mode=" + t.mode, "ttl=" + Itoa(t.ttl), "destination=" + t.destination,
                          "interleaved=" + t.interleaved];
  }

  lemma FullField(keyword: string, value: string)
    requires value != ""
    ensures Field(keyword, value) == [keyword + "=" + value]
  {
  }

  lemma Keywords()
    ensures "client_port" + "=" == "client_port=" && "server_port" + "=" == "server_port=" && "ssrc" + "=" == "ssrc="
    ensures "mode" + "=" == "mode=" && "ttl" + "=" == "ttl=" && "destination" + "=" == "destination="
    ensures "interleaved" + "=" == "interleaved="
  {
  }

  /** The client takes the first two numbers of the server ports, whatever follows, and needs two. */
  lemma PairMeans(rtp: string, rtcp: string, tail: string)
    requires '-' !in rtp && '-' !in rtcp && Tail(tail, '-')
    ensures PairOf(rtp + "-" + rtcp + tail) == Pair(Atoi(rtp).value, Atoi(rtcp).value)
    ensures PairOf(rtp) == NoPair
  {
    hide Split, Join, Atoi;
    var words := [rtp, rtcp];
    SplitNone(rtp, '-');
    SplitWords(words, tail, '-');
    TwoWords(rtp, rtcp, '-');
    assert Join(words, '-') == rtp + "-" + rtcp;
    var parts := Split(Join(words, '-') + tail, '-');
    assert parts[0] == words[0] && parts[1] == words[1];
  }
}
