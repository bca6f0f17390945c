/** Session descriptions (RFC 4566): the entities, and the lines they are written as. */
module Sdp {
  import opened Results
  import opened GoStrings
  import opened Strconv

  datatype Origin = Origin(username: string, sessID: int, sessVersion: int,
                           netType: string, addrType: string, unicastAddress: string)

  datatype Connection = Connection(netType: string, addrType: string, connectionAddr: string)

  datatype Bandwidth = Bandwidth(bwType: string, value: int)

  datatype Timing = Timing(startTime: int, stopTime: int)

  datatype RTPMap = RTPMap(payloadType: int, encoding: string, clockRate: int, parameters: string)

  datatype Media = Media(
    mediaType: string,
    port: int,
    protocol: string,
    format: string,
    title: string,
    connection: Option<Connection>,
    bandwidth: seq<Bandwidth>,
    attributes: map<string, string>,
    rtpMap: map<int, RTPMap>)

  datatype Session = Session(
    version: int,
    origin: Option<Origin>,
    sessionName: string,
    sessionInfo: string,
    uri: string,
    email: string,
    phone: string,
    connection: Option<Connection>,
    bandwidth: seq<Bandwidth>,
    timing: Option<Timing>,
    attributes: map<string, string>,
    media: seq<Media>)

  const EMPTY: Session := Session(0, None, "", "", "", "", "", None, [], None, map[], [])

  function NewMedia(mediaType: string, port: int, protocol: string, format: string): Media {
    Media(mediaType, port, protocol, format, "", None, [], map[], map[])
  }

  /** What one line says. */
  datatype Item =
    | Ignored
    | VersionItem(version: int)
    | OriginItem(origin: Origin)
    | NameItem(text: string)
    | InfoItem(text: string)
    | UriItem(text: string)
    | EmailItem(text: string)
    | PhoneItem(text: string)
    | ConnectionItem(connection: Connection)
    | BandwidthItem(bandwidth: Bandwidth)
    | TimingItem(timing: Timing)
    | AttributeItem(key: string, value: string)
    | RTPMapItem(rtpMap: RTPMap)
    | BadRTPMapItem
    | MediaItem(mediaType: string, port: int, protocol: string, format: string)

  // ---------------------------------------------------------------------------
  // Reading a line
  // ---------------------------------------------------------------------------

  function DecodeVersion(value: string): Item {
    var v := Atoi(value);
    if v.err == NoError then VersionItem(v.value) else Ignored
  }

  function DecodeOrigin(value: string): Item {
    var parts := Split(value, ' ');
    if |parts| >= 6 then
      OriginItem(Origin(parts[0], Atoi(parts[1]).value, Atoi(parts[2]).value, parts[3], parts[4], parts[5]))
    else Ignored
  }

  function DecodeConnection(value: string): Item {
    var parts := Split(value, ' ');
    if |parts| >= 3 then ConnectionItem(Connection(parts[0], parts[1], parts[2])) else Ignored
  }

  function DecodeBandwidth(value: string): Item {
    var parts := Split(value, ':');
    if |parts| == 2 && Atoi(parts[1]).err == NoError
    then BandwidthItem(Bandwidth(parts[0], Atoi(parts[1]).value)) else Ignored
  }

  function DecodeTiming(value: string): Item {
    var parts := Split(value, ' ');
    if |parts| >= 2 then TimingItem(Timing(Atoi(parts[0]).value, Atoi(parts[1]).value)) else Ignored
  }

  /** The index `encodingParts[1]` is not guarded: without a slash the parser panics. */
  function DecodeRTPMap(parts: seq<string>): Item
    requires |parts| >= 1
  {
    if |parts| < 2 then Ignored
    else
      var rtpParts := Split(parts[1], ' ');
      if |rtpParts| < 2 then Ignored
      else
        var encodingParts := Split(rtpParts[1], '/');
        if |encodingParts| < 2 then BadRTPMapItem
        else
          RTPMapItem(RTPMap(Atoi(rtpParts[0]).value, encodingParts[0], Atoi(encodingParts[1]).value,
                            Parameters(encodingParts)))
  }

  function Parameters(encodingParts: seq<string>): string
    requires |encodingParts| >= 2
  {
    if |encodingParts| > 2 then "/" + Join(encodingParts[2..], '/') else ""
  }

  function DecodeAttribute(value: string): Item {
    var parts := Split(value, ':');
    if HasPrefix(parts[0], "rtpmap") then DecodeRTPMap(parts)
    else AttributeItem(parts[0], if |parts| > 1 then parts[1] else "")
  }

  function DecodeMedia(value: string): Item {
    var parts := Split(value, ' ');
    if |parts| >= 4 then MediaItem(parts[0], Atoi(parts[1]).value, parts[2], parts[3]) else Ignored
  }

  function DecodeValue(key: char, value: string): Item {
    match key
    case 'v' => DecodeVersion(value)
    case 'o' => DecodeOrigin(value)
    case 's' => NameItem(value)
    case 'i' => InfoItem(value)
    case 'u' => UriItem(value)
    case 'e' => EmailItem(value)
    case 'p' => PhoneItem(value)
    case 'c' => DecodeConnection(value)
    case 'b' => DecodeBandwidth(value)
    case 't' => DecodeTiming(value)
    case 'a' => DecodeAttribute(value)
    case 'm' => DecodeMedia(value)
    case _ => Ignored
  }

  function Decode(line: string): Item {
    if |line| < 2 || line[1] != '=' then Ignored else DecodeValue(line[0], line[2..])
  }

  // ---------------------------------------------------------------------------
  // Writing a line
  // ---------------------------------------------------------------------------

  function OriginText(o: Origin): string {
    o.username + " " + (Itoa(o.sessID) + " " + (Itoa(o.sessVersion) + " "
      + (o.netType + " " + (o.addrType + " " + o.unicastAddress))))
  }

  function ConnectionText(c: Connection): string {
    c.netType + " " + (c.addrType + " " + c.connectionAddr)
  }

  function BandwidthText(b: Bandwidth): string {
    b.bwType + ":" + Itoa(b.value)
  }

  function TimingText(t: Timing): string {
    Itoa(t.startTime) + " " + Itoa(t.stopTime)
  }

  function AttributeText(key: string, value: string): string {
    if value == "" then key else key + ":" + value
  }

  function RTPMapText(m: RTPMap): string {
    "rtpmap" + ":" + (Itoa(m.payloadType) + " " + (m.encoding + "/" + (Itoa(m.clockRate) + m.parameters)))
  }

  function MediaText(mediaType: string, port: int, protocol: string, format: string): string {
    mediaType + " " + (Itoa(port) + " " + (protocol + " " + format))
  }

  predicate Printable(item: Item) {
    !item.Ignored? && !item.BadRTPMapItem?
  }

  /** The letter of the line; the two items that are never printed have none. */
  function Key(item: Item): char {
    match item
    case VersionItem(_) => 'v'
    case OriginItem(_) => 'o'
    case NameItem(_) => 's'
    case InfoItem(_) => 'i'
    case UriItem(_) => 'u'
    case EmailItem(_) => 'e'
    case PhoneItem(_) => 'p'
    case ConnectionItem(_) => 'c'
    case BandwidthItem(_) => 'b'
    case TimingItem(_) => 't'
    case AttributeItem(_, _) => 'a'
    case RTPMapItem(_) => 'a'
    case MediaItem(_, _, _, _) => 'm'
    case _ => '?'
  }

  function Text(item: Item): string {
    match item
    case VersionItem(v) => Itoa(v)
    case OriginItem(o) => OriginText(o)
    case NameItem(t) => t
    case InfoItem(t) => t
    case UriItem(t) => t
    case EmailItem(t) => t
    case PhoneItem(t) => t
    case ConnectionItem(c) => ConnectionText(c)
    case BandwidthItem(b) => BandwidthText(b)
    case TimingItem(t) => TimingText(t)
    case AttributeItem(k, v) => AttributeText(k, v)
    case RTPMapItem(m) => RTPMapText(m)
    case MediaItem(t, n, p, f) => MediaText(t, n, p, f)
    case _ => ""
  }

  function Encode(item: Item): string {
    [Key(item)] + "=" + Text(item)
  }

  // ---------------------------------------------------------------------------
  // Well-formed items
  // ---------------------------------------------------------------------------

  predicate Token(s: string) {
    NoCRLF(s) && ' ' !in s
  }

  predicate OriginOk(o: Origin) {
    && Token(o.username) && IsInt64(o.sessID) && IsInt64(o.sessVersion)
    && Token(o.netType) && Token(o.addrType) && Token(o.unicastAddress)
  }

  predicate ConnectionOk(c: Connection) {
    Token(c.netType) && Token(c.addrType) && Token(c.connectionAddr)
  }

  predicate BandwidthOk(b: Bandwidth) {
    NoCRLF(b.bwType) && ':' !in b.bwType && IsInt64(b.value)
  }

  predicate TimingOk(t: Timing) {
    IsInt64(t.startTime) && IsInt64(t.stopTime)
  }

  predicate AttributeOk(key: string, value: string) {
    NoCRLF(key) && NoCRLF(value) && ':' !in key && ':' !in value && !HasPrefix(key, "rtpmap")
  }

  predicate RTPMapOk(m: RTPMap) {
    && IsInt64(m.payloadType) && IsInt64(m.clockRate)
    && Token(m.encoding) && ':' !in m.encoding && '/' !in m.encoding
    && Token(m.parameters) && ':' !in m.parameters
    && (m.parameters != "" ==> m.parameters[0] == '/')
  }

  predicate MediaLineOk(mediaType: string, port: int, protocol: string, format: string) {
    Token(mediaType) && IsInt64(port) && Token(protocol) && Token(format)
  }

  /** The items that a line without CR LF can say. */
  predicate ItemOk(item: Item) {
    match item
    case Ignored => true
    case BadRTPMapItem => true
    case VersionItem(v) => IsInt64(v)
    case OriginItem(o) => OriginOk(o)
    case NameItem(t) => NoCRLF(t)
    case InfoItem(t) => NoCRLF(t)
    case UriItem(t) => NoCRLF(t)
    case EmailItem(t) => NoCRLF(t)
    case PhoneItem(t) => NoCRLF(t)
    case ConnectionItem(c) => ConnectionOk(c)
    case BandwidthItem(b) => BandwidthOk(b)
    case TimingItem(t) => TimingOk(t)
    case AttributeItem(k, v) => AttributeOk(k, v)
    case RTPMapItem(m) => RTPMapOk(m)
    case MediaItem(t, n, p, f) => MediaLineOk(t, n, p, f)
  }

  lemma PartsAreTokens(value: string)
    requires NoCRLF(value)
    ensures forall k :: 0 <= k < |Split(value, ' ')| ==> Token(Split(value, ' ')[k])
  {
    PartsNoCRLF(value, ' ');
    SplitSound(value, ' ');
  }

  lemma DecodeRTPMapOk(parts: seq<string>)
    requires |parts| >= 1
    requires forall p :: p in parts ==> NoCRLF(p) && ':' !in p
    ensures ItemOk(DecodeRTPMap(parts))
  {
    if |parts| >= 2 {
      var rtpParts := Split(parts[1], ' ');
      PartsAreTokens(parts[1]);
      if |rtpParts| >= 2 {
        PartChars(parts[1], ' ', 1);
        EncodingOk(rtpParts[1]);
      }
    }
  }

  lemma EncodingOk(text: string)
    requires Token(text) && ':' !in text
    ensures var parts := Split(text, '/');
            && Token(parts[0]) && ':' !in parts[0] && '/' !in parts[0]
            && (|parts| >= 2 ==> Token(Parameters(parts)) && ':' !in Parameters(parts))
  {
    var parts := Split(text, '/');
    PartsNoCRLF(text, '/');
    PartChars(text, '/', 0);
    if |parts| > 2 {
      JoinTailAvoids(text, '/', ' ', 2);
      JoinTailAvoids(text, '/', ':', 2);
      JoinNoCRLF(parts[2..], '/');
      NoCRLFAcross("", '/', Join(parts[2..], '/'));
      assert Parameters(parts) == "" + ['/'] + Join(parts[2..], '/');
    }
  }

  lemma {:induction false} JoinNoCRLF(parts: seq<string>, c: char)
    requires forall p :: p in parts ==> NoCRLF(p)
    requires c != '\r' && c != '\n'
    ensures NoCRLF(Join(parts, c))
  {
    if |parts| > 1 {
      JoinNoCRLF(parts[1..], c);
      NoCRLFAcross(parts[0], c, Join(parts[1..], c));
    }
  }

  lemma DecodeAttributeOk(value: string)
    requires NoCRLF(value)
    ensures ItemOk(DecodeAttribute(value))
  {
    hide DecodeRTPMap;
    SplitSound(value, ':');
    PartsNoCRLF(value, ':');
    var parts := Split(value, ':');
    if HasPrefix(parts[0], "rtpmap") {
      DecodeRTPMapOk(parts);
    } else {
      assert NoCRLF("");
    }
  }

  lemma DecodeBandwidthOk(value: string)
    requires NoCRLF(value)
    ensures ItemOk(DecodeBandwidth(value))
  {
    SplitSound(value, ':');
    PartsNoCRLF(value, ':');
  }

  /** Every line without CR LF says something well-formed. */
  lemma DecodeOk(line: string)
    requires NoCRLF(line)
    ensures ItemOk(Decode(line))
  {
    hide DecodeAttribute;
    hide DecodeBandwidth;
    hide Split;
    if |line| >= 2 && line[1] == '=' {
      var value := line[2..];
      NoCRLFWithin(line, value, 2);
      PartsAreTokens(value);
      DecodeAttributeOk(value);
      DecodeBandwidthOk(value);
    }
  }

  // ---------------------------------------------------------------------------
  // Reading what was written
  // ---------------------------------------------------------------------------

  lemma ItoaIsToken(n: int)
    ensures Token(Itoa(n)) && ':' !in Itoa(n) && '/' !in Itoa(n)
  {
    hide Itoa;
    var s := Itoa(n);
    assert forall i :: 0 <= i < |s| ==> s[i] in s;
  }

  lemma Joined(a: string, c: char, b: string)
    requires NoCRLF(a) && c !in a && NoCRLF(b) && c != '\r' && c != '\n'
    ensures NoCRLF(a + [c] + b) && Split(a + [c] + b, c) == [a] + Split(b, c)
  {
    NoCRLFAcross(a, c, b);
    SplitCons(a, c, b);
  }

  lemma OriginRoundTrip(o: Origin)
    requires OriginOk(o)
    ensures NoCRLF(OriginText(o)) && DecodeOrigin(OriginText(o)) == OriginItem(o)
  {
    hide Split;
    hide NoCRLF;
    hide Itoa;
    hide Atoi;
    var e := o.unicastAddress;
    var d := o.addrType + " " + e;
    var c := o.netType + " " + d;
    var b := Itoa(o.sessVersion) + " " + c;
    var a := Itoa(o.sessID) + " " + b;
    ItoaIsToken(o.sessID);
    ItoaIsToken(o.sessVersion);
    AtoiOfItoa(o.sessID);
    AtoiOfItoa(o.sessVersion);
    SplitNone(e, ' ');
    Joined(o.addrType, ' ', e);
    Joined(o.netType, ' ', d);
    Joined(Itoa(o.sessVersion), ' ', c);
    Joined(Itoa(o.sessID), ' ', b);
    Joined(o.username, ' ', a);
    assert Split(OriginText(o), ' ')
        == [o.username, Itoa(o.sessID), Itoa(o.sessVersion), o.netType, o.addrType, e];
  }

  lemma ConnectionRoundTrip(c: Connection)
    requires ConnectionOk(c)
    ensures NoCRLF(ConnectionText(c)) && DecodeConnection(ConnectionText(c)) == ConnectionItem(c)
  {
    hide Split;
    hide NoCRLF;
    SplitNone(c.connectionAddr, ' ');
    Joined(c.addrType, ' ', c.connectionAddr);
    Joined(c.netType, ' ', c.addrType + " " + c.connectionAddr);
  }

  lemma BandwidthRoundTrip(b: Bandwidth)
    requires BandwidthOk(b)
    ensures NoCRLF(BandwidthText(b)) && DecodeBandwidth(BandwidthText(b)) == BandwidthItem(b)
  {
    hide Split;
    hide NoCRLF;
    hide Itoa;
    hide Atoi;
    ItoaIsToken(b.value);
    AtoiOfItoa(b.value);
    SplitNone(Itoa(b.value), ':');
    Joined(b.bwType, ':', Itoa(b.value));
  }

  lemma TimingRoundTrip(t: Timing)
    requires TimingOk(t)
    ensures NoCRLF(TimingText(t)) && DecodeTiming(TimingText(t)) == TimingItem(t)
  {
    hide Split;
    hide NoCRLF;
    hide Itoa;
    hide Atoi;
    ItoaIsToken(t.startTime);
    ItoaIsToken(t.stopTime);
    AtoiOfItoa(t.startTime);
    AtoiOfItoa(t.stopTime);
    SplitNone(Itoa(t.stopTime), ' ');
    Joined(Itoa(t.startTime), ' ', Itoa(t.stopTime));
  }

  lemma AttributeRoundTrip(key: string, value: string)
    requires AttributeOk(key, value)
    ensures NoCRLF(AttributeText(key, value))
    ensures DecodeAttribute(AttributeText(key, value)) == AttributeItem(key, value)
  {
    hide Split;
    hide NoCRLF;
    if value == "" {
      SplitNone(key, ':');
    } else {
      SplitNone(value, ':');
      Joined(key, ':', value);
    }
  }

  lemma RateAndParameters(m: RTPMap)
    requires RTPMapOk(m)
    ensures var text := Itoa(m.clockRate) + m.parameters;
            && Token(text) && ':' !in text
            && |Split(text, '/')| >= 1 && Split(text, '/')[0] == Itoa(m.clockRate)
            && Parameters([m.encoding] + Split(text, '/')) == m.parameters
  {
    var rate := Itoa(m.clockRate);
    ItoaIsToken(m.clockRate);
    if m.parameters == "" {
      SplitNone(rate, '/');
      assert rate + m.parameters == rate;
    } else {
      var tail := m.parameters[1..];
      assert m.parameters == ['/'] + tail && rate + m.parameters == rate + ['/'] + tail;
      NoCRLFWithin(m.parameters, tail, 1);
      Joined(rate, '/', tail);
      SplitSound(tail, '/');
      var parts := [m.encoding] + Split(rate + m.parameters, '/');
      assert parts[2..] == Split(tail, '/');
    }
  }

  lemma RTPMapRoundTrip(m: RTPMap)
    requires RTPMapOk(m)
    ensures NoCRLF(RTPMapText(m)) && DecodeAttribute(RTPMapText(m)) == RTPMapItem(m)
  {
    hide Split;
    hide NoCRLF;
    hide Itoa;
    hide Atoi;
    hide Parameters;
    var text := Itoa(m.clockRate) + m.parameters;
    var spec := m.encoding + "/" + text;
    var rest := Itoa(m.payloadType) + " " + spec;
    RateAndParameters(m);
    ItoaIsToken(m.payloadType);
    AtoiOfItoa(m.payloadType);
    AtoiOfItoa(m.clockRate);
    Joined(m.encoding, '/', text);
    SplitNone(spec, ' ');
    Joined(Itoa(m.payloadType), ' ', spec);
    SplitNone(rest, ':');
    RTPMapKeyword();
    Joined("rtpmap", ':', rest);
    assert Split(RTPMapText(m), ':') == ["rtpmap", rest];
    assert Split(rest, ' ') == [Itoa(m.payloadType), spec];
    assert Split(spec, '/') == [m.encoding] + Split(text, '/');
  }

  lemma RTPMapKeyword()
    ensures NoCRLF("rtpmap") && ':' !in "rtpmap" && HasPrefix("rtpmap", "rtpmap")
  {
  }

  lemma MediaRoundTrip(mediaType: string, port: int, protocol: string, format: string)
    requires MediaLineOk(mediaType, port, protocol, format)
    ensures NoCRLF(MediaText(mediaType, port, protocol, format))
    ensures DecodeMedia(MediaText(mediaType, port, protocol, format)) == MediaItem(mediaType, port, protocol, format)
  {
    hide Split;
    hide NoCRLF;
    hide Itoa;
    hide Atoi;
    ItoaIsToken(port);
    AtoiOfItoa(port);
    var b := protocol + " " + format;
    var a := Itoa(port) + " " + b;
    SplitNone(format, ' ');
    Joined(protocol, ' ', format);
    Joined(Itoa(port), ' ', b);
    Joined(mediaType, ' ', a);
    assert Split(MediaText(mediaType, port, protocol, format), ' ') == [mediaType, Itoa(port), protocol, format];
  }

  lemma VersionRoundTrip(v: int)
    requires IsInt64(v)
    ensures NoCRLF(Itoa(v)) && DecodeVersion(Itoa(v)) == VersionItem(v)
  {
    ItoaIsToken(v);
    AtoiOfItoa(v);
  }

  lemma TextRoundTrip(item: Item)
    requires Printable(item) && ItemOk(item)
    ensures NoCRLF(Text(item)) && DecodeValue(Key(item), Text(item)) == item
  {
    hide DecodeVersion, DecodeOrigin, DecodeConnection, DecodeBandwidth, DecodeTiming, DecodeAttribute, DecodeMedia;
    hide OriginText, ConnectionText, BandwidthText, TimingText, AttributeText, RTPMapText, MediaText, Itoa, NoCRLF;
    match item
    case VersionItem(v) => VersionRoundTrip(v);
    case OriginItem(o) => OriginRoundTrip(o);
    case ConnectionItem(c) => ConnectionRoundTrip(c);
    case BandwidthItem(b) => BandwidthRoundTrip(b);
    case TimingItem(t) => TimingRoundTrip(t);
    case AttributeItem(k, v) => AttributeRoundTrip(k, v);
    case RTPMapItem(m) => RTPMapRoundTrip(m);
    case MediaItem(t, n, p, f) => MediaRoundTrip(t, n, p, f);
    case _ =>
  }

  /** A well-formed item is read back from the line it is written as. */
  lemma LineRoundTrip(item: Item)
    requires Printable(item) && ItemOk(item)
    ensures NoCRLF(Encode(item)) && Decode(Encode(item)) == item
  {
    hide Text, DecodeValue, ItemOk;
    TextRoundTrip(item);
    NoCRLFAcross([Key(item)], '=', Text(item));
    assert Encode(item)[2..] == Text(item);
  }
}
