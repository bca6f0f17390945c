/** The Transport header (section 12.39 of RFC 2326): `ParseTransport` and `Transport.String`. */
module TransportHeader {
  import opened GoStrings
  import opened Strconv

  datatype TransportType = RTP | UDP | TCP | Interleaved

  datatype Transport = Transport(
    kind: TransportType,
    clientPorts: string,
    serverPorts: string,
    ssrc: string,
    mode: string,
    unicast: bool,
    multicast: bool,
    ttl: int,
    destination: string,
    interleaved: string)

  /** What ParseTransport starts from. */
  const INITIAL: Transport := Transport(RTP, "", "", "", "", true, false, 0, "", "")

  // ---------------------------------------------------------------------------
  // Parsing
  // ---------------------------------------------------------------------------

  /** `strings.Split(part, "=")[1]`, or nothing when there is no such piece. */
  function ValueOf(part: string): string {
    var pieces := Split(part, '=');
    if |pieces| >= 2 then pieces[1] else ""
  }

  /** A part that holds a keyword ending in an equals sign splits into at least two pieces. */
  lemma NoIndexPanic(part: string, keyword: string)
    requires '=' in keyword && Contains(part, keyword)
    ensures |Split(part, '=')| >= 2
  {
    ContainsChars(part, keyword);
    SplitSound(part, '=');
  }

  /** The unguarded index behind a keyword. */
  method TakeValue(part: string, keyword: string) returns (value: string)
    requires '=' in keyword && Contains(part, keyword)
    ensures value == ValueOf(part)
  {
    NoIndexPanic(part, keyword);
    value := Split(part, '=')[1];
  }

  /** The dispatch on one trimmed part, in the order of the source. */
  function ApplyPart(t: Transport, part: string): Transport {
    if Contains(part, "RTP/AVP") then t.(kind := RTP)
    else if Contains(part, "RTP/AVPF") then t.(kind := RTP)
    else if Contains(part, "RTP/AVP/TCP") then t.(kind := Interleaved)
    else if Contains(part, "client_port=") then t.(clientPorts := ValueOf(part))
    else if Contains(part, "server_port=") then t.(serverPorts := ValueOf(part))
    else if Contains(part, "ssrc=") then t.(ssrc := ValueOf(part))
    else if Contains(part, "mode=") then t.(mode := ValueOf(part))
    else if Contains(part, "unicast") then t.(unicast := true, multicast := false)
    else if Contains(part, "multicast") then t.(multicast := true, unicast := false)
    else if Contains(part, "ttl=") then
      var n := Atoi(ValueOf(part));
      if n.err == NoError then t.(ttl := n.value) else t
    else if Contains(part, "destination=") then t.(destination := ValueOf(part))
    else if Contains(part, "interleaved=") then t.(interleaved := ValueOf(part))
    else t
  }

  function ApplyParts(t: Transport, parts: seq<string>): Transport
    decreases |parts|
  {
    if parts == [] then t else ApplyParts(ApplyPart(t, TrimSpace(parts[0])), parts[1..])
  }

  /** The meaning of ParseTransport; it never reports an error. */
  function Parsed(header: string): Transport {
    ApplyParts(INITIAL, Split(header, ';'))
  }

  method ParseTransport(header: string) returns (t: Transport)
    ensures t == Parsed(header)
  {
    hide ValueOf, Contains, TrimSpace, Atoi;
    t := INITIAL;
    var parts := Split(header, ';');
    for i := 0 to |parts|
      invariant ApplyParts(t, parts[i..]) == Parsed(header)
    {
      var part := TrimSpace(parts[i]);
      if Contains(part, "RTP/AVP") {
        t := t.(kind := RTP);
      } else if Contains(part, "RTP/AVPF") {
        t := t.(kind := RTP);
      } else if Contains(part, "RTP/AVP/TCP") {
        t := t.(kind := Interleaved);
      } else if Contains(part, "client_port=") {
        var value := TakeValue(part, "client_port=");
        t := t.(clientPorts := value);
      } else if Contains(part, "server_port=") {
        var value := TakeValue(part, "server_port=");
        t := t.(serverPorts := value);
      } else if Contains(part, "ssrc=") {
        var value := TakeValue(part, "ssrc=");
        t := t.(ssrc := value);
      } else if Contains(part, "mode=") {
        var value := TakeValue(part, "mode=");
        t := t.(mode := value);
      } else if Contains(part, "unicast") {
        t := t.(unicast := true, multicast := false);
      } else if Contains(part, "multicast") {
        t := t.(multicast := true, unicast := false);
      } else if Contains(part, "ttl=") {
        var value := TakeValue(part, "ttl=");
        var n := Atoi(value);
        if n.err == NoError {
          t := t.(ttl := n.value);
        }
      } else if Contains(part, "destination=") {
        var value := TakeValue(part, "destination=");
        t := t.(destination := value);
      } else if Contains(part, "interleaved=") {
        var value := TakeValue(part, "interleaved=");
        t := t.(interleaved := value);
      }
    }
  }

  // ---------------------------------------------------------------------------
  // Printing
  // ---------------------------------------------------------------------------

  function KindText(kind: TransportType): string {
    match kind
    case RTP => "RTP/AVP"
    case UDP => "UDP"
    case TCP => "TCP"
    case Interleaved => "RTP/AVP/TCP"
  }

  function Field(keyword: string, value: string): seq<string> {
    if value == "" then [] else [keyword + "=" + value]
  }

  function CastPart(t: Transport): seq<string> {
    if t.unicast then ["unicast"] else if t.multicast then ["multicast"] else []
  }

  /** The parts that `Transport.String` writes, between semicolons. */
  function Parts(t: Transport): seq<string> {
    [KindText(t.kind)]
    + CastPart(t)
    + Field("client_port", t.clientPorts)
    + Field("server_port", t.serverPorts)
    + Field("ssrc", t.ssrc)
    + Field("mode", t.mode)
    + Field("ttl", if t.ttl > 0 then Itoa(t.ttl) else "")
    + Field("destination", t.destination)
    + Field("interleaved", t.interleaved)
  }

  function Printed(t: Transport): string {
    Join(Parts(t), ';')
  }

  method PrintTransport(t: Transport) returns (s: string)
    ensures s == Printed(t)
  {
    hide Join, Field, CastPart;
    s := PrintKindAndCast(t);
    ghost var parts := [KindText(t.kind)] + CastPart(t);
    s := AppendField(s, parts, "client_port", t.clientPorts);
    parts := parts + Field("client_port", t.clientPorts);
    s := AppendField(s, parts, "server_port", t.serverPorts);
    parts := parts + Field("server_port", t.serverPorts);
    s := AppendField(s, parts, "ssrc", t.ssrc);
    parts := parts + Field("ssrc", t.ssrc);
    s := AppendField(s, parts, "mode", t.mode);
    parts := parts + Field("mode", t.mode);
    var ttl := if t.ttl > 0 then Itoa(t.ttl) else "";
    s := AppendField(s, parts, "ttl", ttl);
    parts := parts + Field("ttl", ttl);
    s := AppendField(s, parts, "destination", t.destination);
    parts := parts + Field("destination", t.destination);
    s := AppendField(s, parts, "interleaved", t.interleaved);
  }

  method PrintKindAndCast(t: Transport) returns (s: string)
    ensures s == Join([KindText(t.kind)] + CastPart(t), ';')
  {
    match t.kind {
      case RTP => s := "RTP/AVP";
      case UDP => s := "UDP";
      case TCP => s := "TCP";
      case Interleaved => s := "RTP/AVP/TCP";
    }
    if t.unicast {
      s := s + ";unicast";
      JoinSnoc([KindText(t.kind)], "unicast", ';');
    } else if t.multicast {
      s := s + ";multicast";
      JoinSnoc([KindText(t.kind)], "multicast", ';');
    }
  }

  /** Writing one optional field to the builder, which so far holds the given parts. */
  method AppendField(s: string, ghost parts: seq<string>, keyword: string, value: string) returns (s': string)
    requires parts != [] && s == Join(parts, ';')
    ensures s' == Join(parts + Field(keyword, value), ';')
  {
    if value == "" {
      s' := s;
      assert parts + [] == parts;
    } else {
      var field := keyword + "=" + value;
      s' := s + ";" + field;
      JoinSnoc(parts, field, ';');
    }
  }

  lemma {:induction false} JoinSnoc(parts: seq<string>, part: string, c: char)
    requires parts != []
    ensures Join(parts + [part], c) == Join(parts, c) + [c] + part
  {
    if |parts| > 1 {
      JoinSnoc(parts[1..], part, c);
      assert (parts + [part])[1..] == parts[1..] + [part];
      var (a, b, d) := (parts[0] + [c], Join(parts[1..], c), [c] + part);
      assert a + (b + d) == (a + b) + d;
    } else {
      assert (parts + [part])[1..] == [part];
    }
  }

  // ---------------------------------------------------------------------------
  // The range of the parser
  // ---------------------------------------------------------------------------

  /** A field value as `ValueOf` extracts it: no separator, and no keyword that is tested first. */
  ghost predicate FieldValue(v: string) {
    ';' !in v && '=' !in v && !Contains(v, "RTP/AVP")
  }

  /** The two fields that are tested after the cast keywords. */
  ghost predicate LateFieldValue(v: string) {
    FieldValue(v) && !Contains(v, "unicast") && !Contains(v, "multicast")
  }

  /** What every parsed transport satisfies. */
  ghost predicate InRange(t: Transport) {
    && t.kind == RTP
    && t.unicast != t.multicast
    && IsInt64(t.ttl)
    && FieldValue(t.clientPorts) && FieldValue(t.serverPorts)
    && FieldValue(t.ssrc) && FieldValue(t.mode)
    && LateFieldValue(t.destination) && LateFieldValue(t.interleaved)
  }

  lemma ValueOfIsFieldValue(part: string)
    requires ';' !in part
    ensures ';' !in ValueOf(part) && '=' !in ValueOf(part)
    ensures Contains(ValueOf(part), "RTP/AVP") ==> Contains(part, "RTP/AVP")
    ensures Contains(ValueOf(part), "unicast") ==> Contains(part, "unicast")
    ensures Contains(ValueOf(part), "multicast") ==> Contains(part, "multicast")
  {
    EmptyIsLateFieldValue();
    if |Split(part, '=')| >= 2 {
      PartChars(part, '=', 1);
      ValueOfContains(part, "RTP/AVP");
      ValueOfContains(part, "unicast");
      ValueOfContains(part, "multicast");
    }
  }

  lemma ValueOfContains(part: string, keyword: string)
    requires |Split(part, '=')| >= 2
    ensures Contains(ValueOf(part), keyword) ==> Contains(part, keyword)
  {
    if Contains(ValueOf(part), keyword) {
      PartContains(part, '=', 1, keyword);
    }
  }

  lemma EmptyIsLateFieldValue()
    ensures LateFieldValue("")
  {
    TooShortToContain("", "RTP/AVP");
    TooShortToContain("", "unicast");
    TooShortToContain("", "multicast");
  }

  lemma LongerKeyword(part: string)
    requires Contains(part, "RTP/AVP/TCP")
    ensures Contains(part, "RTP/AVP")
  {
    var long := "RTP/AVP/TCP";
    assert OccursAt(long, "RTP/AVP", 0);
    var i :| 0 <= i <= |part| - |long| && OccursAt(part, long, i);
    ContainsWithin(part, long, i, "RTP/AVP");
  }

  lemma FieldOfPart(part: string)
    requires ';' !in part && !Contains(part, "RTP/AVP")
    ensures FieldValue(ValueOf(part)) && !Contains(part, "RTP/AVP/TCP")
    ensures !Contains(part, "unicast") && !Contains(part, "multicast") ==> LateFieldValue(ValueOf(part))
  {
    ValueOfIsFieldValue(part);
    hide ValueOf, Contains;
    if Contains(part, "RTP/AVP/TCP") {
      LongerKeyword(part);
    }
  }

  lemma ApplyPartInRange(t: Transport, part: string)
    requires InRange(t) && ';' !in part
    ensures InRange(ApplyPart(t, part))
  {
    hide Contains, ValueOf, FieldValue, LateFieldValue;
    if !Contains(part, "RTP/AVP") {
      FieldOfPart(part);
    }
  }

  lemma TrimKeepsOut(s: string, c: char)
    requires c !in s
    ensures c !in TrimSpace(s)
  {
    hide TrimSpace, Trimmed;
    var o := TrimSpaceSound(s);
    var t := TrimSpace(s);
    forall j | 0 <= j < |t| ensures t[j] != c {
      assert t[j] == s[o..o + |t|][j] == s[o + j];
    }
  }

  lemma {:induction false} ApplyPartsInRange(t: Transport, parts: seq<string>)
    requires InRange(t)
    requires forall p :: p in parts ==> ';' !in p
    ensures InRange(ApplyParts(t, parts))
    decreases |parts|
  {
    if parts != [] {
      TrimKeepsOut(parts[0], ';');
      ApplyPartInRange(t, TrimSpace(parts[0]));
      ApplyPartsInRange(ApplyPart(t, TrimSpace(parts[0])), parts[1..]);
    }
  }

  /** Whatever the header says, the result is in range; in particular it is never Interleaved. */
  lemma ParsedInRange(header: string)
    ensures InRange(Parsed(header))
  {
    EmptyIsLateFieldValue();
    SplitSound(header, ';');
    ApplyPartsInRange(INITIAL, Split(header, ';'));
  }

  // ---------------------------------------------------------------------------
  // Printing and parsing again
  // ---------------------------------------------------------------------------

  /** What is left of a parsed transport after it is printed and parsed again. */
  function Normal(t: Transport): Transport {
    t.(clientPorts := TrimRight(t.clientPorts),
       serverPorts := TrimRight(t.serverPorts),
       ssrc := TrimRight(t.ssrc),
       mode := TrimRight(t.mode),
       ttl := if t.ttl > 0 then t.ttl else 0,
       destination := TrimRight(t.destination),
       interleaved := TrimRight(t.interleaved))
  }

  predicate EndsInSpace(v: string) {
    SpaceAtBack(v) > 0
  }

  /** No field value ends in white space. */
  predicate FieldsSettled(t: Transport) {
    && !EndsInSpace(t.clientPorts) && !EndsInSpace(t.serverPorts)
    && !EndsInSpace(t.ssrc) && !EndsInSpace(t.mode)
    && !EndsInSpace(t.destination) && !EndsInSpace(t.interleaved)
  }

  /** No field value ends in white space, and the TTL is not negative. */
  predicate Settled(t: Transport) {
    FieldsSettled(t) && t.ttl >= 0
  }

  lemma {:induction false} ApplyPartsConcat(t: Transport, a: seq<string>, b: seq<string>)
    ensures ApplyParts(t, a + b) == ApplyParts(ApplyParts(t, a), b)
    decreases |a|
  {
    if a == [] {
      assert a + b == b;
    } else {
      assert (a + b)[1..] == a[1..] + b;
      ApplyPartsConcat(ApplyPart(t, TrimSpace(a[0])), a[1..], b);
    }
  }

  lemma ApplyOne(t: Transport, part: string)
    ensures ApplyParts(t, [part]) == ApplyPart(t, TrimSpace(part))
  {
    var t' := ApplyPart(t, TrimSpace(part));
    assert [part][1..] == [];
    assert ApplyParts(t', []) == t';
  }

  /** Trimming `name=v` trims the tail of `v`, and the value of the result is what is left of `v`. */
  lemma TrimField(name: string, v: string)
    requires name != "" && !IsAsciiSpace(name[0]) && name[0] as int < 0x80
    requires '=' !in name && '=' !in v
    ensures TrimSpace(name + "=" + v) == name + "=" + TrimRight(v)
  {
    var part := name + "=" + v;
    assert part[0] == name[0];
    SpaceAtFrontHead(part);
    TrimSpaceNoFront(part);
    TrimRightTail(name, '=', v);
  }

  lemma ValueOfField(name: string, w: string)
    requires '=' !in name && '=' !in w
    ensures ValueOf(name + "=" + w) == w
  {
    SplitCons(name, '=', w);
    SplitNone(w, '=');
  }

  lemma OwnKeyword(name: string, w: string)
    ensures Contains(name + "=" + w, name + "=")
  {
    assert OccursAt(name + "=" + w, name + "=", 0);
  }

  /** `other=` is not in `name=w` when `name` does not end in `other`; `j` is where they differ. */
  lemma OtherKeyword(name: string, other: string, w: string, j: int)
    requires '=' !in name && '=' !in w
    requires |other| <= |name| ==> 0 <= j < |other| && other[j] != name[|name| - |other| + j]
    ensures !Contains(name + "=" + w, other + "=")
  {
    var part := name + "=" + w;
    var keyword := other + "=";
    forall i | 0 <= i <= |part| - |keyword| ensures !OccursAt(part, keyword, i) {
      var cut := part[i..i + |keyword|];
      assert cut[|other|] == part[i + |other|];
      assert keyword[|other|] == '=';
      if i + |other| == |name| {
        assert cut[j] == name[i + j];
        assert keyword[j] == other[j];
      } else {
        assert part[i + |other|] != '=';
      }
    }
  }

  /** A keyword without an equals sign is not in `name=w` when it is in neither `name` nor `w`. */
  lemma PlainKeyword(name: string, w: string, keyword: string, c: char)
    requires c in keyword && c !in name
    requires '=' !in keyword && !Contains(w, keyword)
    ensures !Contains(name + "=" + w, keyword)
  {
    if Contains(name, keyword) {
      ContainsChars(name, keyword);
    }
    ContainsAcross(name, '=', w, keyword);
  }

  lemma NoProfile(name: string, w: string)
    requires 'R' !in name && !Contains(w, "RTP/AVP")
    ensures !Contains(name + "=" + w, "RTP/AVP")
    ensures !Contains(name + "=" + w, "RTP/AVPF")
    ensures !Contains(name + "=" + w, "RTP/AVP/TCP")
  {
    var part := name + "=" + w;
    PlainKeyword(name, w, "RTP/AVP", 'R');
    if Contains(part, "RTP/AVP/TCP") {
      LongerKeyword(part);
    }
    if Contains(part, "RTP/AVPF") {
      var i :| 0 <= i <= |part| - 8 && OccursAt(part, "RTP/AVPF", i);
      assert OccursAt("RTP/AVPF", "RTP/AVP", 0);
      ContainsWithin(part, "RTP/AVPF", i, "RTP/AVP");
    }
  }

  lemma NoCast(name: string, w: string)
    requires 'u' !in name && !Contains(w, "unicast") && !Contains(w, "multicast")
    ensures !Contains(name + "=" + w, "unicast")
    ensures !Contains(name + "=" + w, "multicast")
  {
    PlainKeyword(name, w, "unicast", 'u');
    PlainKeyword(name, w, "multicast", 'u');
  }

  lemma TrimmedValue(v: string)
    requires FieldValue(v)
    ensures FieldValue(TrimRight(v))
    ensures LateFieldValue(v) ==> LateFieldValue(TrimRight(v))
  {
    var w := TrimRight(v);
    forall k | Contains(w, k) ensures Contains(v, k) {
      ContainsWithin(v, w, 0, k);
    }
  }

  lemma DispatchClientPort(t: Transport, w: string)
    requires FieldValue(w)
    ensures ApplyPart(t, "client_port" + "=" + w) == t.(clientPorts := w)
  {
    ValueOfField("client_port", w);
    NoProfile("client_port", w);
    OwnKeyword("client_port", w);
    assert "client_port" + "=" == "client_port=";
  }

  lemma ApplyClientPort(t: Transport, v: string)
    requires FieldValue(v) && v != ""
    ensures ApplyParts(t, Field("client_port", v)) == t.(clientPorts := TrimRight(v))
  {
    TrimmedValue(v);
    TrimField("client_port", v);
    ApplyOne(t, "client_port" + "=" + v);
    DispatchClientPort(t, TrimRight(v));
  }

  lemma DispatchServerPort(t: Transport, w: string)
    requires FieldValue(w)
    ensures ApplyPart(t, "server_port" + "=" + w) == t.(serverPorts := w)
  {
    ValueOfField("server_port", w);
    NoProfile("server_port", w);
    OtherKeyword("server_port", "client_port", w, 0);
    OwnKeyword("server_port", w);
    assert "client_port" + "=" == "client_port=" && "server_port" + "=" == "server_port=";
  }

  lemma ApplyServerPort(t: Transport, v: string)
    requires FieldValue(v) && v != ""
    ensures ApplyParts(t, Field("server_port", v)) == t.(serverPorts := TrimRight(v))
  {
    TrimmedValue(v);
    TrimField("server_port", v);
    ApplyOne(t, "server_port" + "=" + v);
    DispatchServerPort(t, TrimRight(v));
  }

  /** The keywords before the casts, for a name that ends in none of them. */
  lemma NoEarlyField(name: string, w: string)
    requires '=' !in name && '=' !in w
    requires |name| >= 11 ==> name[|name| - 11] !in ['c', 's']
    requires |name| >= 4 ==> name[|name| - 4] !in ['s', 'm']
    ensures !Contains(name + "=" + w, "client_port=")
    ensures !Contains(name + "=" + w, "server_port=")
    ensures !Contains(name + "=" + w, "ssrc=")
    ensures !Contains(name + "=" + w, "mode=")
  {
    OtherKeyword(name, "client_port", w, 0);
    OtherKeyword(name, "server_port", w, 0);
    OtherKeyword(name, "ssrc", w, 0);
    OtherKeyword(name, "mode", w, 0);
    assert "client_port" + "=" == "client_port=" && "server_port" + "=" == "server_port=";
    assert "ssrc" + "=" == "ssrc=" && "mode" + "=" == "mode=";
  }

  lemma DispatchSsrc(t: Transport, w: string)
    requires FieldValue(w)
    ensures ApplyPart(t, "ssrc" + "=" + w) == t.(ssrc := w)
  {
    ValueOfField("ssrc", w);
    NoProfile("ssrc", w);
    OtherKeyword("ssrc", "client_port", w, 0);
    OtherKeyword("ssrc", "server_port", w, 0);
    OwnKeyword("ssrc", w);
    assert "client_port" + "=" == "client_port=" && "server_port" + "=" == "server_port=";
    assert "ssrc" + "=" == "ssrc=";
  }

  lemma ApplySsrc(t: Transport, v: string)
    requires FieldValue(v) && v != ""
    ensures ApplyParts(t, Field("ssrc", v)) == t.(ssrc := TrimRight(v))
  {
    TrimmedValue(v);
    TrimField("ssrc", v);
    ApplyOne(t, "ssrc" + "=" + v);
    DispatchSsrc(t, TrimRight(v));
  }

  lemma DispatchMode(t: Transport, w: string)
    requires FieldValue(w)
    ensures ApplyPart(t, "mode" + "=" + w) == t.(mode := w)
  {
    ValueOfField("mode", w);
    NoProfile("mode", w);
    OtherKeyword("mode", "client_port", w, 0);
    OtherKeyword("mode", "server_port", w, 0);
    OtherKeyword("mode", "ssrc", w, 0);
    OwnKeyword("mode", w);
    assert "client_port" + "=" == "client_port=" && "server_port" + "=" == "server_port=";
    assert "ssrc" + "=" == "ssrc=" && "mode" + "=" == "mode=";
  }

  lemma ApplyMode(t: Transport, v: string)
    requires FieldValue(v) && v != ""
    ensures ApplyParts(t, Field("mode", v)) == t.(mode := TrimRight(v))
  {
    TrimmedValue(v);
    TrimField("mode", v);
    ApplyOne(t, "mode" + "=" + v);
    DispatchMode(t, TrimRight(v));
  }

  lemma DispatchTtl(t: Transport, n: int)
    requires IsInt64(n)
    ensures ApplyPart(t, "ttl" + "=" + Itoa(n)) == t.(ttl := n)
  {
    var v := Itoa(n);
    DigitsArePlain(n);
    AtoiOfItoa(n);
    hide Itoa, Atoi;
    ValueOfField("ttl", v);
    NoProfile("ttl", v);
    NoEarlyField("ttl", v);
    NoCast("ttl", v);
    OwnKeyword("ttl", v);
    assert "ttl" + "=" == "ttl=";
    hide Contains, ValueOf;
  }

  lemma ApplyTtl(t: Transport, n: int)
    requires IsInt64(n)
    ensures ApplyParts(t, Field("ttl", Itoa(n))) == t.(ttl := n)
  {
    hide Itoa, ApplyPart, ApplyParts;
    DigitsArePlain(n);
    TrimField("ttl", Itoa(n));
    DispatchTtl(t, n);
    ApplyOne(t, "ttl" + "=" + Itoa(n));
  }

  lemma DigitsArePlain(n: int)
    ensures '=' !in Itoa(n) && LateFieldValue(Itoa(n)) && TrimRight(Itoa(n)) == Itoa(n)
  {
    hide Itoa, Contains, TrimRight;
    var v := Itoa(n);
    ItoaAvoids(n, '=');
    ItoaAvoids(n, ';');
    ItoaAvoids(n, 'R');
    ItoaAvoids(n, 'u');
    NotIn(v, "RTP/AVP", 'R');
    NotIn(v, "unicast", 'u');
    NotIn(v, "multicast", 'u');
    assert v[|v| - 1] in v;
    SpaceAtBackLast(v);
  }

  lemma DispatchDestination(t: Transport, w: string)
    requires LateFieldValue(w)
    ensures ApplyPart(t, "destination" + "=" + w) == t.(destination := w)
  {
    ValueOfField("destination", w);
    NoProfile("destination", w);
    NoEarlyField("destination", w);
    NoCast("destination", w);
    OtherKeyword("destination", "ttl", w, 0);
    OwnKeyword("destination", w);
    assert "ttl" + "=" == "ttl=" && "destination" + "=" == "destination=";
  }

  lemma ApplyDestination(t: Transport, v: string)
    requires LateFieldValue(v) && v != ""
    ensures ApplyParts(t, Field("destination", v)) == t.(destination := TrimRight(v))
  {
    TrimmedValue(v);
    TrimField("destination", v);
    ApplyOne(t, "destination" + "=" + v);
    DispatchDestination(t, TrimRight(v));
  }

  lemma DispatchInterleaved(t: Transport, w: string)
    requires LateFieldValue(w)
    ensures ApplyPart(t, "interleaved" + "=" + w) == t.(interleaved := w)
  {
    ValueOfField("interleaved", w);
    NoProfile("interleaved", w);
    NoEarlyField("interleaved", w);
    NoCast("interleaved", w);
    OtherKeyword("interleaved", "ttl", w, 0);
    OtherKeyword("interleaved", "destination", w, 0);
    OwnKeyword("interleaved", w);
    assert "ttl" + "=" == "ttl=" && "destination" + "=" == "destination=";
    assert "interleaved" + "=" == "interleaved=";
  }

  lemma ApplyInterleaved(t: Transport, v: string)
    requires LateFieldValue(v) && v != ""
    ensures ApplyParts(t, Field("interleaved", v)) == t.(interleaved := TrimRight(v))
  {
    TrimmedValue(v);
    TrimField("interleaved", v);
    ApplyOne(t, "interleaved" + "=" + v);
    DispatchInterleaved(t, TrimRight(v));
  }

  // The fields in the order they are printed, each applied to what the earlier ones left.

  lemma CastTexts()
    ensures TrimSpace("unicast") == "unicast" && TrimSpace("multicast") == "multicast"
    ensures Contains("unicast", "unicast") && Contains("multicast", "multicast")
    ensures !Contains("multicast", "unicast")
  {
    assert OccursAt("unicast", "unicast", 0) && OccursAt("multicast", "multicast", 0);
    MulticastIsNotUnicast();
    SpaceAtFrontHead("unicast");
    SpaceAtFrontHead("multicast");
    SpaceAtBackLast("unicast");
    SpaceAtBackLast("multicast");
  }

  lemma ApplyUnicast(t: Transport)
    ensures ApplyParts(t, ["unicast"]) == t.(unicast := true, multicast := false)
  {
    hide Contains, TrimSpace, ValueOf, Atoi, ApplyParts;
    CastTexts();
    assert "unicast"[|"unicast"| - 1] == 't';
    NotAField("unicast");
    ApplyOne(t, "unicast");
  }

  lemma ApplyMulticast(t: Transport)
    ensures ApplyParts(t, ["multicast"]) == t.(unicast := false, multicast := true)
  {
    hide Contains, TrimSpace, ValueOf, Atoi, ApplyParts;
    CastTexts();
    assert "multicast"[|"multicast"| - 1] == 't';
    NotAField("multicast");
    ApplyOne(t, "multicast");
  }

  lemma ApplyCast(t: Transport, u: Transport)
    requires u.unicast != u.multicast
    ensures ApplyParts(t, CastPart(u)) == t.(unicast := u.unicast, multicast := u.multicast)
  {
    hide ApplyParts;
    if u.unicast {
      ApplyUnicast(t);
    } else {
      ApplyMulticast(t);
    }
  }

  lemma MulticastIsNotUnicast()
    ensures !Contains("multicast", "unicast")
  {
    var (m, u) := ("multicast", "unicast");
    forall i | 0 <= i <= |m| - |u| ensures !OccursAt(m, u, i) {
      assert m[i..i + |u|][0] == m[i];
      assert m[0] == 'm' && m[1] == 'u' && m[2] == 'l' && u[0] == 'u' && u[1] == 'n';
      assert i == 1 ==> m[i..i + |u|][1] == m[2];
    }
  }

  /** The cast keywords are neither profiles nor fields, and need no trimming. */
  lemma NotAField(cast: string)
    requires 'R' !in cast && '=' !in cast && cast != ""
    requires !IsAsciiSpace(cast[0]) && cast[0] as int < 0x80
    requires cast[|cast| - 1] == 't'
    ensures !Contains(cast, "RTP/AVP") && !Contains(cast, "RTP/AVPF") && !Contains(cast, "RTP/AVP/TCP")
    ensures !Contains(cast, "client_port=") && !Contains(cast, "server_port=")
    ensures !Contains(cast, "ssrc=") && !Contains(cast, "mode=")
    ensures TrimSpace(cast) == cast
  {
    NotIn(cast, "RTP/AVP", 'R');
    NotIn(cast, "RTP/AVPF", 'R');
    NotIn(cast, "RTP/AVP/TCP", 'R');
    NotIn(cast, "client_port=", '=');
    NotIn(cast, "server_port=", '=');
    NotIn(cast, "ssrc=", '=');
    NotIn(cast, "mode=", '=');
    SpaceAtFrontHead(cast);
    assert SpaceAtBack(cast) == 0;
  }

  lemma NotIn(s: string, keyword: string, c: char)
    requires c in keyword && c !in s
    ensures !Contains(s, keyword)
  {
    if Contains(s, keyword) {
      ContainsChars(s, keyword);
    }
  }

  lemma ApplyKind(t: Transport)
    ensures ApplyParts(t, [KindText(RTP)]) == t.(kind := RTP)
  {
    assert OccursAt("RTP/AVP", "RTP/AVP", 0);
    SpaceAtFrontHead("RTP/AVP");
    assert SpaceAtBack("RTP/AVP") == 0;
    assert TrimSpace("RTP/AVP") == "RTP/AVP";
    ApplyOne(t, "RTP/AVP");
  }

  lemma ApplyNothing(t: Transport, keyword: string)
    ensures ApplyParts(t, Field(keyword, "")) == t
  {
  }

  /** The first half of the printed parts: profile, cast and ports. */
  function FirstParts(t: Transport): seq<string> {
    [KindText(t.kind)] + CastPart(t) + Field("client_port", t.clientPorts) + Field("server_port", t.serverPorts)
  }

  function MiddleParts(t: Transport): seq<string> {
    Field("ssrc", t.ssrc) + Field("mode", t.mode) + Field("ttl", if t.ttl > 0 then Itoa(t.ttl) else "")
  }

  function LastParts(t: Transport): seq<string> {
    Field("destination", t.destination) + Field("interleaved", t.interleaved)
  }

  lemma ReparseFirst(t: Transport)
    requires InRange(t)
    ensures ApplyParts(INITIAL, FirstParts(t))
         == INITIAL.(unicast := t.unicast, multicast := t.multicast,
                     clientPorts := TrimRight(t.clientPorts), serverPorts := TrimRight(t.serverPorts))
  {
    hide ApplyParts, Field, KindText, CastPart;
    var (a, b) := ([KindText(t.kind)], CastPart(t));
    var (c, d) := (Field("client_port", t.clientPorts), Field("server_port", t.serverPorts));
    ApplyPartsConcat(INITIAL, a + b + c, d);
    ApplyPartsConcat(INITIAL, a + b, c);
    ApplyPartsConcat(INITIAL, a, b);
    ApplyKind(INITIAL);
    ApplyCast(INITIAL, t);
    var t2 := ApplyParts(INITIAL, a + b);
    if t.clientPorts == "" { ApplyNothing(t2, "client_port"); } else { ApplyClientPort(t2, t.clientPorts); }
    var t3 := ApplyParts(INITIAL, a + b + c);
    if t.serverPorts == "" { ApplyNothing(t3, "server_port"); } else { ApplyServerPort(t3, t.serverPorts); }
  }

  lemma ReparseMiddle(s: Transport, t: Transport)
    requires InRange(t) && s.ssrc == "" && s.mode == "" && s.ttl == 0
    ensures ApplyParts(s, MiddleParts(t))
         == s.(ssrc := TrimRight(t.ssrc), mode := TrimRight(t.mode), ttl := if t.ttl > 0 then t.ttl else 0)
  {
    var (a, b) := (Field("ssrc", t.ssrc), Field("mode", t.mode));
    ApplyPartsConcat(s, a + b, Field("ttl", if t.ttl > 0 then Itoa(t.ttl) else ""));
    ApplyPartsConcat(s, a, b);
    if t.ssrc == "" { ApplyNothing(s, "ssrc"); } else { ApplySsrc(s, t.ssrc); }
    var s1 := ApplyParts(s, a);
    if t.mode == "" { ApplyNothing(s1, "mode"); } else { ApplyMode(s1, t.mode); }
    var s2 := ApplyParts(s, a + b);
    if t.ttl > 0 { ApplyTtl(s2, t.ttl); } else { ApplyNothing(s2, "ttl"); }
  }

  lemma ReparseLast(s: Transport, t: Transport)
    requires InRange(t) && s.destination == "" && s.interleaved == ""
    ensures ApplyParts(s, LastParts(t))
         == s.(destination := TrimRight(t.destination), interleaved := TrimRight(t.interleaved))
  {
    var a := Field("destination", t.destination);
    ApplyPartsConcat(s, a, Field("interleaved", t.interleaved));
    if t.destination == "" { ApplyNothing(s, "destination"); } else { ApplyDestination(s, t.destination); }
    var s1 := ApplyParts(s, a);
    if t.interleaved == "" { ApplyNothing(s1, "interleaved"); } else { ApplyInterleaved(s1, t.interleaved); }
  }

  lemma HeadHoldsNoSemicolon(t: Transport)
    ensures ';' !in KindText(t.kind) && forall p :: p in CastPart(t) ==> ';' !in p
  {
  }

  lemma PartsHoldNoSemicolon(t: Transport)
    requires InRange(t)
    ensures forall p :: p in Parts(t) ==> ';' !in p
  {
    hide Field, CastPart, KindText, Itoa, Contains;
    FieldAvoids("client_port", t.clientPorts, ';');
    FieldAvoids("server_port", t.serverPorts, ';');
    FieldAvoids("ssrc", t.ssrc, ';');
    FieldAvoids("mode", t.mode, ';');
    ItoaAvoids(t.ttl, ';');
    FieldAvoids("ttl", if t.ttl > 0 then Itoa(t.ttl) else "", ';');
    FieldAvoids("destination", t.destination, ';');
    FieldAvoids("interleaved", t.interleaved, ';');
    HeadHoldsNoSemicolon(t);
    hide FieldValue, LateFieldValue;
  }

  lemma PartsAreThree(t: Transport)
    ensures Parts(t) == FirstParts(t) + MiddleParts(t) + LastParts(t)
  {
    hide Field, CastPart, KindText;
    Regroup(FirstParts(t), Field("ssrc", t.ssrc), Field("mode", t.mode),
            Field("ttl", if t.ttl > 0 then Itoa(t.ttl) else ""),
            Field("destination", t.destination), Field("interleaved", t.interleaved));
  }

  lemma Regroup(first: seq<string>, a: seq<string>, b: seq<string>, c: seq<string>, d: seq<string>, e: seq<string>)
    ensures first + a + b + c + d + e == first + (a + b + c) + (d + e)
  {
  }

  /** Printing a parsed transport and parsing the text again trims the fields and drops a negative TTL. */
  lemma ReparseIsNormal(t: Transport)
    requires InRange(t)
    ensures Parsed(Printed(t)) == Normal(t)
  {
    PartsHoldNoSemicolon(t);
    SplitJoin(Parts(t), ';');
    PartsAreThree(t);
    hide ApplyParts, FirstParts, MiddleParts, LastParts, Parts, InRange;
    ApplyPartsConcat(INITIAL, FirstParts(t) + MiddleParts(t), LastParts(t));
    ApplyPartsConcat(INITIAL, FirstParts(t), MiddleParts(t));
    ReparseFirst(t);
    var s1 := ApplyParts(INITIAL, FirstParts(t));
    ReparseMiddle(s1, t);
    ReparseLast(ApplyParts(s1, MiddleParts(t)), t);
  }

  lemma FirstPart(t: Transport, first: string, rest: seq<string>)
    requires TrimSpace(first) == first && Contains(first, "RTP/AVP") && t.kind == RTP
    ensures ApplyParts(t, [first] + rest) == ApplyParts(t, rest)
  {
    hide Contains, TrimSpace;
    assert ([first] + rest)[1..] == rest;
  }

  lemma KindParts(t: Transport, kind: TransportType)
    ensures Parts(t.(kind := kind)) == [KindText(kind)] + Parts(t)[1..]
  {
    hide Field, KindText;
    assert CastPart(t.(kind := kind)) == CastPart(t);
    hide CastPart;
    var ttl := if t.ttl > 0 then Itoa(t.ttl) else "";
    var (a, b, c, d) := (CastPart(t), Field("client_port", t.clientPorts), Field("server_port", t.serverPorts),
                         Field("ssrc", t.ssrc));
    var (e, f, g, h) := (Field("mode", t.mode), Field("ttl", ttl), Field("destination", t.destination),
                         Field("interleaved", t.interleaved));
    Headed(KindText(t.kind), a, b, c, d, e, f, g, h);
    Headed(KindText(kind), a, b, c, d, e, f, g, h);
  }

  lemma Headed(head: string, a: seq<string>, b: seq<string>, c: seq<string>, d: seq<string>,
               e: seq<string>, f: seq<string>, g: seq<string>, h: seq<string>)
    ensures [head] + a + b + c + d + e + f + g + h == [head] + (a + b + c + d + e + f + g + h)
    ensures ([head] + a + b + c + d + e + f + g + h)[1..] == a + b + c + d + e + f + g + h
  {
  }

  /** What the two profiles have in common: they need no trimming, and contain the first keyword. */
  lemma ProfileTexts()
    ensures TrimSpace(KindText(RTP)) == KindText(RTP) && Contains(KindText(RTP), "RTP/AVP")
    ensures TrimSpace(KindText(Interleaved)) == KindText(Interleaved) && Contains(KindText(Interleaved), "RTP/AVP")
    ensures ';' !in KindText(RTP) && ';' !in KindText(Interleaved)
  {
    var (plain, tcp) := ("RTP/AVP", "RTP/AVP/TCP");
    assert OccursAt(plain, plain, 0) && OccursAt(tcp, plain, 0);
    SpaceAtFrontHead(plain);
    SpaceAtFrontHead(tcp);
    SpaceAtBackLast(plain);
    SpaceAtBackLast(tcp);
    TrimSpaceFixed(plain);
    TrimSpaceFixed(tcp);
  }

  lemma ReadParts(t: Transport)
    requires Parts(t) != [] && forall p :: p in Parts(t) ==> ';' !in p
    ensures Parsed(Printed(t)) == ApplyParts(INITIAL, Parts(t))
  {
    hide Parts, ApplyParts;
    SplitJoin(Parts(t), ';');
  }

  lemma AlreadyRTP(t: Transport)
    requires InRange(t)
    ensures t.(kind := RTP) == t && Parts(t) != []
  {
    hide FieldValue, LateFieldValue, KindText, CastPart, Field;
  }

  /** The request for interleaved transport is printed as such, but read as plain RTP. */
  lemma InterleavedReadsAsRTP(t: Transport)
    requires InRange(t)
    ensures Parsed(Printed(t.(kind := Interleaved))) == Normal(t)
  {
    hide Parts, ApplyParts, Normal, InRange, Contains, TrimSpace, KindText, Parsed, Printed;
    AlreadyRTP(t);
    PartsHoldNoSemicolon(t);
    ProfileTexts();
    KindParts(t, RTP);
    KindParts(t, Interleaved);
    ReadParts(t);
    ReadParts(t.(kind := Interleaved));
    FirstPart(INITIAL, KindText(RTP), Parts(t)[1..]);
    FirstPart(INITIAL, KindText(Interleaved), Parts(t)[1..]);
    ReparseIsNormal(t);
  }

  lemma NormalIsIdentity(t: Transport)
    requires InRange(t)
    ensures Normal(t) == t <==> Settled(t)
  {
  }

  /**
   The exact round trip, over all transport values: printing loses nothing if and only if the value
   is one the parser can produce, no field ends in white space and the TTL is not negative.
   */
  lemma RoundTrip(t: Transport)
    ensures Parsed(Printed(t)) == t <==> InRange(t) && Settled(t)
  {
    ParsedInRange(Printed(t));
    if InRange(t) {
      ReparseIsNormal(t);
      NormalIsIdentity(t);
    }
  }

  /** For headers: parse, print and parse is stable exactly when the parsed value is settled. */
  lemma NormalForm(header: string)
    ensures Parsed(Printed(Parsed(header))) == Parsed(header) <==> Settled(Parsed(header))
    ensures Parsed(Printed(Normal(Parsed(header)))) == Normal(Parsed(header))
  {
    ParsedInRange(header);
    RoundTrip(Parsed(header));
    NormalInRange(Parsed(header));
    RoundTrip(Normal(Parsed(header)));
  }

  lemma NormalInRange(t: Transport)
    requires InRange(t)
    ensures InRange(Normal(t)) && Settled(Normal(t))
  {
    TrimmedValue(t.clientPorts);
    TrimmedValue(t.serverPorts);
    TrimmedValue(t.ssrc);
    TrimmedValue(t.mode);
    TrimmedValue(t.destination);
    TrimmedValue(t.interleaved);
  }

  /** The keywords of the part "mode=A =b", in the order of the tests. */
  lemma ModeKeywords(part: string)
    requires part == "mode=A =b"
    ensures !Contains(part, "RTP/AVP") && !Contains(part, "RTP/AVPF") && !Contains(part, "RTP/AVP/TCP")
    ensures !Contains(part, "client_port=") && !Contains(part, "server_port=") && !Contains(part, "ssrc=")
    ensures Contains(part, "mode=")
  {
    assert OccursAt(part, "mode=", 0);
    hide Contains;
    assert 'R' !in part && 'l' !in part && 'v' !in part && 's' !in part;
    NotIn(part, "RTP/AVP", 'R');
    NotIn(part, "RTP/AVPF", 'R');
    NotIn(part, "RTP/AVP/TCP", 'R');
    NotIn(part, "client_port=", 'l');
    NotIn(part, "server_port=", 'v');
    NotIn(part, "ssrc=", 's');
  }

  lemma TwoEqualsSigns()
    ensures ApplyPart(INITIAL, "mode=A =b") == INITIAL.(mode := "A ")
  {
    hide Contains, ValueOf, Atoi;
    var part := "mode=A =b";
    ModeKeywords(part);
    ValueUpToSecond("mode", "A ", "b");
    assert part == "mode" + ['='] + ("A " + ['='] + "b");
  }

  lemma ValueUpToSecond(name: string, v: string, rest: string)
    requires '=' !in name && '=' !in v
    ensures ValueOf(name + ['='] + (v + ['='] + rest)) == v
  {
    SplitCons(name, '=', v + ['='] + rest);
    SplitCons(v, '=', rest);
  }

  /** A header whose value keeps a trailing space, because it ends at a second equals sign. */
  lemma SpaceBeforeSecondEquals()
    ensures Parsed("mode=A =b") == INITIAL.(mode := "A ")
    ensures Parsed(Printed(INITIAL.(mode := "A "))) != INITIAL.(mode := "A ")
  {
    var part := "mode=A =b";
    SplitNone(part, ';');
    SpaceAtFrontHead(part);
    assert SpaceAtBack(part) == 0;
    ApplyOne(INITIAL, part);
    TwoEqualsSigns();
    assert SpaceAtBack("A ") == 1;
    RoundTrip(INITIAL.(mode := "A "));
  }

  // ---------------------------------------------------------------------------
  // The printed text as a header value
  // ---------------------------------------------------------------------------

  predicate FieldsAvoid(t: Transport, c: char) {
    && c !in t.clientPorts && c !in t.serverPorts && c !in t.ssrc && c !in t.mode
    && c !in t.destination && c !in t.interleaved
  }

  lemma ApplyPartAvoids(t: Transport, part: string, c: char)
    requires FieldsAvoid(t, c) && c !in part
    ensures FieldsAvoid(ApplyPart(t, part), c)
  {
    hide Contains, ValueOf, Atoi;
    ValueAvoids(part, c);
  }

  lemma ValueAvoids(part: string, c: char)
    requires c !in part
    ensures c !in ValueOf(part)
  {
    if |Split(part, '=')| >= 2 {
      PartChars(part, '=', 1);
    }
  }

  lemma {:induction false} ApplyPartsAvoid(t: Transport, parts: seq<string>, c: char)
    requires FieldsAvoid(t, c) && forall p :: p in parts ==> c !in p
    ensures FieldsAvoid(ApplyParts(t, parts), c)
    decreases |parts|
  {
    hide FieldsAvoid, ApplyPart, TrimSpace;
    if parts != [] {
      TrimKeepsOut(parts[0], c);
      ApplyPartAvoids(t, TrimSpace(parts[0]), c);
      ApplyPartsAvoid(ApplyPart(t, TrimSpace(parts[0])), parts[1..], c);
    }
  }

  /** A character that is not in the header is in no field. */
  lemma ParsedAvoids(header: string, c: char)
    requires c !in header
    ensures FieldsAvoid(Parsed(header), c)
  {
    var parts := Split(header, ';');
    forall i | 0 <= i < |parts| ensures c !in parts[i] {
      PartChars(header, ';', i);
    }
    ApplyPartsAvoid(INITIAL, parts, c);
  }

  lemma {:induction false} JoinedPartsAvoid(parts: seq<string>, c: char, d: char)
    requires c != d && forall p :: p in parts ==> d !in p
    ensures d !in Join(parts, c)
  {
    if |parts| > 1 {
      JoinedPartsAvoid(parts[1..], c, d);
    }
  }

  lemma FieldAvoids(keyword: string, value: string, c: char)
    requires c != '=' && c !in keyword && c !in value
    ensures forall p :: p in Field(keyword, value) ==> c !in p
  {
  }

  /** A printed transport is one line. */
  lemma PrintedAvoidsLF(t: Transport)
    requires FieldsAvoid(t, '\n')
    ensures '\n' !in Printed(t)
  {
    FieldAvoids("client_port", t.clientPorts, '\n');
    FieldAvoids("server_port", t.serverPorts, '\n');
    FieldAvoids("ssrc", t.ssrc, '\n');
    FieldAvoids("mode", t.mode, '\n');
    ItoaAvoids(t.ttl, '\n');
    FieldAvoids("ttl", if t.ttl > 0 then Itoa(t.ttl) else "", '\n');
    FieldAvoids("destination", t.destination, '\n');
    FieldAvoids("interleaved", t.interleaved, '\n');
    HeadAvoidsLF(t);
    hide Field, CastPart, KindText;
    assert forall p :: p in Parts(t) ==> '\n' !in p;
    hide Parts;
    JoinedPartsAvoid(Parts(t), ';', '\n');
  }

  lemma HeadAvoidsLF(t: Transport)
    ensures '\n' !in KindText(t.kind) && forall p :: p in CastPart(t) ==> '\n' !in p
  {
  }

  /** A part that does not end in white space. */
  predicate SettledPart(part: string) {
    part != "" && SpaceAtBack(part) == 0
  }

  lemma SettledField(keyword: string, value: string)
    requires SpaceAtBack(value) == 0
    ensures forall p :: p in Field(keyword, value) ==> SettledPart(p)
  {
    SpaceAtBackTail(keyword, '=', value);
  }

  lemma KindIsSettled(kind: TransportType)
    ensures SettledPart(KindText(kind)) && SpaceAtFront(KindText(kind)) == 0
    ensures !IsAsciiSpace(KindText(kind)[0]) && KindText(kind)[0] as int < 0x80
  {
  }

  lemma PartsAreSettled(t: Transport)
    requires FieldsSettled(t)
    ensures Parts(t)[0] == KindText(t.kind) && forall p :: p in Parts(t) ==> SettledPart(p)
  {
    KindIsSettled(t.kind);
    SpaceAtBackLast("unicast");
    SpaceAtBackLast("multicast");
    hide KindText, Field, SpaceAtBack;
    SettledField("client_port", t.clientPorts);
    SettledField("server_port", t.serverPorts);
    SettledField("ssrc", t.ssrc);
    SettledField("mode", t.mode);
    SettledTtl(t.ttl);
    SettledField("destination", t.destination);
    SettledField("interleaved", t.interleaved);
    hide SettledPart;
  }

  lemma SettledTtl(n: int)
    ensures forall p :: p in Field("ttl", if n > 0 then Itoa(n) else "") ==> SettledPart(p)
  {
    DigitsArePlain(n);
    hide Itoa;
    SettledField("ttl", if n > 0 then Itoa(n) else "");
  }

  lemma {:induction false} JoinEnd(parts: seq<string>)
    requires parts != []
    ensures parts[0] <= Join(parts, ';')
    ensures SpaceAtBack(Join(parts, ';')) == SpaceAtBack(parts[|parts| - 1])
  {
    hide SpaceAtBack;
    if |parts| > 1 {
      JoinEnd(parts[1..]);
      SpaceAtBackTail(parts[0], ';', Join(parts[1..], ';'));
      assert parts[1..][|parts| - 2] == parts[|parts| - 1];
    }
  }

  /** A transport without white space at the ends of its fields is printed without any at its ends. */
  lemma PrintedIsTrimmed(t: Transport)
    requires FieldsSettled(t)
    ensures Trimmed(Printed(t))
  {
    hide KindText, SpaceAtBack, SpaceAtFront, FieldsSettled;
    PartsAreSettled(t);
    PrintedFront(t);
    JoinEnd(Parts(t));
    assert Parts(t)[|Parts(t)| - 1] in Parts(t);
  }

  lemma PrintedFront(t: Transport)
    ensures Printed(t) != "" && SpaceAtFront(Printed(t)) == 0
  {
    hide KindText, SpaceAtBack, SpaceAtFront;
    KindIsSettled(t.kind);
    assert Parts(t)[0] == KindText(t.kind) by { hide Field, CastPart; }
    hide Parts;
    JoinEnd(Parts(t));
    assert Printed(t)[0] == KindText(t.kind)[0];
    SpaceAtFrontHead(Printed(t));
  }

  // A header line carries a printed transport without the white space at its end. It is read the same.

  /** A part that begins with a keyword. */
  predicate KeywordPart(part: string) {
    part != "" && !IsAsciiSpace(part[0]) && part[0] as int < 0x80
  }

  lemma FieldBegins(keyword: string, value: string)
    requires KeywordPart(keyword)
    ensures forall p :: p in Field(keyword, value) ==> KeywordPart(p)
  {
  }

  lemma PartsBegin(t: Transport)
    ensures forall p :: p in Parts(t) ==> KeywordPart(p)
  {
    FieldBegins("client_port", t.clientPorts);
    FieldBegins("server_port", t.serverPorts);
    FieldBegins("ssrc", t.ssrc);
    FieldBegins("mode", t.mode);
    FieldBegins("ttl", if t.ttl > 0 then Itoa(t.ttl) else "");
    FieldBegins("destination", t.destination);
    FieldBegins("interleaved", t.interleaved);
    KindIsSettled(t.kind);
    assert forall p :: p in CastPart(t) ==> KeywordPart(p);
    hide KindText, CastPart, Field, Itoa;
  }

  lemma TrimmedTwice(part: string)
    requires KeywordPart(part)
    ensures TrimSpace(TrimRight(part)) == TrimSpace(part)
  {
    var t := TrimRight(part);
    SpaceAtFrontHead(part);
    if t != "" {
      SpaceAtFrontHead(t);
    }
    hide TrimRight, SpaceAtFront, SpaceAtBack;
    TrimSpaceNoFront(part);
    TrimSpaceNoFront(t);
  }

  lemma ApplyLastTrimmed(front: seq<string>, last: string)
    requires KeywordPart(last)
    ensures ApplyParts(INITIAL, front + [TrimRight(last)]) == ApplyParts(INITIAL, front + [last])
  {
    hide TrimRight, TrimSpace, ApplyPart, KeywordPart;
    TrimmedTwice(last);
    ApplyPartsConcat(INITIAL, front, [last]);
    ApplyPartsConcat(INITIAL, front, [TrimRight(last)]);
    ApplyOne(ApplyParts(INITIAL, front), last);
    ApplyOne(ApplyParts(INITIAL, front), TrimRight(last));
  }

  lemma SplitTrimmed(front: seq<string>, last: string)
    requires front != [] && ';' !in last && forall p :: p in front ==> ';' !in p
    ensures Split(TrimRight(Join(front + [last], ';')), ';') == front + [TrimRight(last)]
    ensures Split(Join(front + [last], ';'), ';') == front + [last]
  {
    var t := TrimRight(last);
    assert t <= last;
    hide TrimRight;
    assert ';' !in t;
    JoinSnoc(front, last, ';');
    JoinSnoc(front, t, ';');
    TrimRightTail(Join(front, ';'), ';', last);
    SplitJoin(front + [last], ';');
    SplitJoin(front + [t], ';');
  }

  /** Whatever its fields end in, and whatever its TTL: trimming the printed text does not change what is read. */
  lemma TrimmedReadsSame(t: Transport)
    requires InRange(t)
    ensures Parsed(TrimSpace(Printed(t))) == Parsed(Printed(t))
    ensures TrimSpace(Printed(t)) != ""
  {
    hide Parts, InRange, TrimRight, TrimSpace, ApplyParts, KeywordPart, SpaceAtFront, Join, Split;
    HasTwoParts(t);
    var parts := Parts(t);
    var (front, last) := (parts[..|parts| - 1], parts[|parts| - 1]);
    PartsHoldNoSemicolon(t);
    PartsBegin(t);
    PrintedFront(t);
    assert parts == front + [last] && last in parts;
    TrimSpaceNoFront(Printed(t));
    SplitTrimmed(front, last);
    ApplyLastTrimmed(front, last);
    TrimmedIsNotEmpty(front, last);
  }

  lemma HasTwoParts(t: Transport)
    requires InRange(t)
    ensures |Parts(t)| >= 2
  {
    hide Field, KindText, FieldValue, LateFieldValue;
  }

  lemma TrimmedIsNotEmpty(front: seq<string>, last: string)
    requires front != []
    ensures TrimRight(Join(front + [last], ';')) != ""
  {
    hide TrimRight;
    JoinSnoc(front, last, ';');
    TrimRightTail(Join(front, ';'), ';', last);
  }

  /** Overwriting the server ports of a parsed transport survives printing and parsing. */
  lemma OverwriteServerPorts(t: Transport, ports: string)
    requires InRange(t) && FieldValue(ports) && TrimRight(ports) == ports
    ensures Parsed(Printed(t.(serverPorts := ports))).kind == RTP
    ensures Parsed(Printed(t.(serverPorts := ports))).serverPorts == ports
  {
    ReparseIsNormal(t.(serverPorts := ports));
  }

  /** A negative TTL is accepted but never printed. */
  lemma NegativeTtl()
    ensures Parsed("ttl=-1").ttl == -1
    ensures Parsed(Printed(Parsed("ttl=-1"))) != Parsed("ttl=-1")
  {
    var part := "ttl=-1";
    assert part == "ttl" + "=" + Itoa(-1);
    SplitNone(part, ';');
    ApplyTtl(INITIAL, -1);
    NormalForm(part);
  }

  lemma ClientParts(kind: TransportType, ports: string, channels: string)
    ensures Parts(INITIAL.(kind := kind, clientPorts := ports, mode := "PLAY", interleaved := channels))
         == [KindText(kind), "unicast"] + Field("client_port", ports) + ["mode=PLAY"] + Field("interleaved", channels)
  {
    NoField("server_port");
    NoField("ssrc");
    NoField("ttl");
    NoField("destination");
    assert "mode" + "=" + "PLAY" == "mode=PLAY";
    assert Field("mode", "PLAY") == ["mode=PLAY"];
    hide Field;
  }

  /** The Transport header that the client's SETUP sends over UDP; with dynamic ports it names none. */
  lemma UDPHeader(ports: string)
    ensures Printed(INITIAL.(clientPorts := ports, mode := "PLAY"))
         == if ports == "" then "RTP/AVP" + ";" + "unicast" + ";" + "mode=PLAY"
            else "RTP/AVP" + ";" + "unicast" + ";" + ("client_port" + "=" + ports) + ";" + "mode=PLAY"
  {
    ClientParts(RTP, ports, "");
    NoField("interleaved");
    NoField("client_port");
    assert ports != "" ==> Field("client_port", ports) == ["client_port" + "=" + ports];
    hide Field, Join, Parts;
    FourPieces(KindText(RTP), "unicast", "client_port" + "=" + ports, "mode=PLAY");
    ThreePieces(KindText(RTP), "unicast", "mode=PLAY");
    JoinFour(KindText(RTP), "unicast", "client_port" + "=" + ports, "mode=PLAY");
    JoinThree(KindText(RTP), "unicast", "mode=PLAY");
  }

  /** The Transport header that the client's SETUP sends over TCP. */
  lemma TCPHeader(channels: string)
    requires channels != ""
    ensures Printed(INITIAL.(kind := Interleaved, mode := "PLAY", interleaved := channels))
         == "RTP/AVP/TCP" + ";" + "unicast" + ";" + "mode=PLAY" + ";" + ("interleaved" + "=" + channels)
  {
    ClientParts(Interleaved, "", channels);
    NoField("client_port");
    assert Field("interleaved", channels) == ["interleaved" + "=" + channels];
    hide Field, Join, Parts;
    FourPieces(KindText(Interleaved), "unicast", "mode=PLAY", "interleaved" + "=" + channels);
    JoinFour(KindText(Interleaved), "unicast", "mode=PLAY", "interleaved" + "=" + channels);
  }

  lemma FourPieces(a: string, b: string, c: string, d: string)
    ensures [a, b] + [c] + [d] + [] == [a, b, c, d] == [a, b] + [] + [c] + [d]
  {
  }

  lemma ThreePieces(a: string, b: string, c: string)
    ensures [a, b] + [] + [c] + [] == [a, b, c]
  {
  }

  lemma NoField(keyword: string)
    ensures Field(keyword, "") == []
  {
  }

  lemma JoinThree(a: string, b: string, c: string)
    ensures Join([a, b, c], ';') == a + ";" + b + ";" + c
  {
    assert [a, b, c][1..] == [b, c] && [b, c][1..] == [c];
    assert Join([b, c], ';') == b + [';'] + Join([c], ';');
    assert Join([a, b, c], ';') == a + [';'] + Join([b, c], ';');
    assert a + [';'] + (b + [';'] + c) == a + ";" + b + ";" + c;
  }

  lemma JoinFour(a: string, b: string, c: string, d: string)
    ensures Join([a, b, c, d], ';') == a + ";" + b + ";" + c + ";" + d
  {
    JoinThree(b, c, d);
    assert [a, b, c, d][1..] == [b, c, d];
    assert Join([a, b, c, d], ';') == a + [';'] + Join([b, c, d], ';');
    assert a + [';'] + (b + ";" + c + ";" + d) == a + ";" + b + ";" + c + ";" + d;
  }
}
