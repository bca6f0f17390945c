/** The mutable descriptions of the source: ParseSDP fills them line by line, String writes them out. */
module SdpObjects {
  import opened Results
  import opened MapOrder
  import opened GoStrings
  import opened Strconv
  import opened Sdp
  import opened SdpText

  class MediaDescription {
    var mediaType: string
    var port: int
    var protocol: string
    var format: string
    var title: string
    var connection: Option<Connection>
    var bandwidth: seq<Bandwidth>
    var attributes: map<string, string>
    var rtpMap: map<int, RTPMap>

    /** The media this object currently stands for. */
    function Value(): Media
      reads this
    {
      Media(mediaType, port, protocol, format, title, connection, bandwidth, attributes, rtpMap)
    }

    constructor (mediaType: string, port: int, protocol: string, format: string)
      ensures Value() == NewMedia(mediaType, port, protocol, format)
    {
      this.mediaType, this.port, this.protocol, this.format := mediaType, port, protocol, format;
      title, connection, bandwidth, attributes, rtpMap := "", None, [], map[], map[];
    }

    /** MediaDescription.String: the maps come in the order in which they are visited. */
    method ToString() returns (s: string)
      ensures IsMediaPrinting(Value(), s)
    {
      hide TextOf, TextItems, ConnectionItems, BandwidthItems, AttributeItems, RTPMapItems;
      s := LineOf(MediaItem(mediaType, port, protocol, format));
      var text := WriteOptional(InfoItem(title), title);
      s := s + text;
      text := WriteConnection(connection);
      s := s + text;
      text := WriteBandwidths(bandwidth);
      s := s + text;
      text := WriteAttributes(attributes);
      ghost var attributeOrder :| IsOrder(attributeOrder, attributes.Keys)
                                  && text == TextOf(AttributeItems(attributes, attributeOrder));
      s := s + text;
      text := WriteRTPMaps(rtpMap);
      ghost var mapOrder :| IsOrder(mapOrder, rtpMap.Keys) && text == TextOf(RTPMapItems(rtpMap, mapOrder));
      s := s + text;
      ghost var o := MediaOrder(attributeOrder, mapOrder);
      TextOfMedia(Value(), o);
      assert MediaOrderOf(Value(), o);
    }
  }

  /** The values of a list of media objects. */
  function MediaValues(ms: seq<MediaDescription>): (vs: seq<Media>)
    reads ms
    ensures |vs| == |ms|
  {
    seq(|ms|, i requires 0 <= i < |ms| reads ms => ms[i].Value())
  }

  class SessionDescription {
    var version: int
    var origin: Option<Origin>
    var sessionName: string
    var sessionInfo: string
    var uri: string
    var email: string
    var phone: string
    var connection: Option<Connection>
    var bandwidth: seq<Bandwidth>
    var timing: Option<Timing>
    var attributes: map<string, string>
    var media: seq<MediaDescription>

    /** No media object is listed twice. */
    ghost predicate Valid()
      reads this
    {
      forall i, j :: 0 <= i < j < |media| ==> media[i] != media[j]
    }

    /** The description this object currently stands for. */
    function Value(): Session
      reads this, media
    {
      Session(version, origin, sessionName, sessionInfo, uri, email, phone, connection, bandwidth, timing,
              attributes, MediaValues(media))
    }

    /** `current` is the parser's currentMedia: an alias of the last media, or null before the first. */
    ghost predicate IsCurrent(current: MediaDescription?)
      reads this
    {
      Valid() && if media == [] then current == null else current == media[|media| - 1]
    }

    constructor ()
      ensures Value() == EMPTY && Valid() && media == []
    {
      version, origin, sessionName, sessionInfo, uri, email, phone := 0, None, "", "", "", "", "";
      connection, bandwidth, timing, attributes, media := None, [], None, map[], [];
    }

    method StoreInfo(current: MediaDescription?, value: string)
      requires IsCurrent(current)
      modifies this, current
      ensures media == old(media) && IsCurrent(current)
      ensures Apply(old(Value()), InfoItem(value)) == Ok(Value())
    {
      if current == null {
        sessionInfo := value;
      } else {
        current.title := value;
        assert Value() == UpdateLast(old(Value()), current.Value());
      }
    }

    method StoreConnection(current: MediaDescription?, c: Connection)
      requires IsCurrent(current)
      modifies this, current
      ensures media == old(media) && IsCurrent(current)
      ensures Apply(old(Value()), ConnectionItem(c)) == Ok(Value())
    {
      if current == null {
        connection := Some(c);
      } else {
        current.connection := Some(c);
        assert Value() == UpdateLast(old(Value()), current.Value());
      }
    }

    method StoreBandwidth(current: MediaDescription?, b: Bandwidth)
      requires IsCurrent(current)
      modifies this, current
      ensures media == old(media) && IsCurrent(current)
      ensures Apply(old(Value()), BandwidthItem(b)) == Ok(Value())
    {
      if current == null {
        bandwidth := bandwidth + [b];
      } else {
        current.bandwidth := current.bandwidth + [b];
        assert Value() == UpdateLast(old(Value()), current.Value());
      }
    }

    method StoreAttribute(current: MediaDescription?, key: string, value: string)
      requires IsCurrent(current)
      modifies this, current
      ensures media == old(media) && IsCurrent(current)
      ensures Apply(old(Value()), AttributeItem(key, value)) == Ok(Value())
    {
      if current == null {
        attributes := attributes[key := value];
      } else {
        current.attributes := current.attributes[key := value];
        assert Value() == UpdateLast(old(Value()), current.Value());
      }
    }

    /** The a=rtpmap branch; `ok` is false when the index is out of range. */
    method StoreRTPMap(current: MediaDescription?, parts: seq<string>) returns (ok: bool)
      requires IsCurrent(current) && |parts| >= 1
      modifies this, current
      ensures media == old(media) && IsCurrent(current)
      ensures Apply(old(Value()), DecodeRTPMap(parts)) == if ok then Ok(Value()) else Err(IndexOutOfRange)
    {
      hide Split, Atoi, Parameters;
      ok := true;
      if current != null && |parts| >= 2 {
        var rtpParts := Split(parts[1], ' ');
        if |rtpParts| >= 2 {
          var payloadType := Atoi(rtpParts[0]).value;
          var encodingParts := Split(rtpParts[1], '/');
          if |encodingParts| < 2 {
            return false;
          }
          var clockRate := Atoi(encodingParts[1]).value;
          var entry := RTPMap(payloadType, encodingParts[0], clockRate, Parameters(encodingParts));
          current.rtpMap := current.rtpMap[payloadType := entry];
          assert Value() == UpdateLast(old(Value()), current.Value());
        }
      }
    }

    method AddMedia(mediaType: string, port: int, protocol: string, format: string) returns (m: MediaDescription)
      requires Valid()
      modifies this
      ensures fresh(m) && media == old(media) + [m] && IsCurrent(m)
      ensures Apply(old(Value()), MediaItem(mediaType, port, protocol, format)) == Ok(Value())
    {
      m := new MediaDescription(mediaType, port, protocol, format);
      media := media + [m];
      assert MediaValues(media) == MediaValues(old(media)) + [m.Value()];
      assert old(MediaValues(media)) == MediaValues(old(media));
    }

    method StoreVersion(value: string)
      modifies this
      ensures media == old(media) && Apply(old(Value()), DecodeVersion(value)) == Ok(Value())
    {
      hide Atoi;
      var v := Atoi(value);
      if v.err == NoError {
        version := v.value;
      }
    }

    method StoreOrigin(value: string)
      modifies this
      ensures media == old(media) && Apply(old(Value()), DecodeOrigin(value)) == Ok(Value())
    {
      hide Split, Atoi;
      var parts := Split(value, ' ');
      if |parts| >= 6 {
        var sessID := Atoi(parts[1]).value;
        var sessVersion := Atoi(parts[2]).value;
        origin := Some(Origin(parts[0], sessID, sessVersion, parts[3], parts[4], parts[5]));
      }
    }

    method StoreTiming(value: string)
      modifies this
      ensures media == old(media) && Apply(old(Value()), DecodeTiming(value)) == Ok(Value())
    {
      hide Split, Atoi;
      var parts := Split(value, ' ');
      if |parts| >= 2 {
        timing := Some(Timing(Atoi(parts[0]).value, Atoi(parts[1]).value));
      }
    }

    /** The lines that hold one text of the session. */
    method StoreSessionText(key: char, value: string)
      requires key in "suep"
      modifies this
      ensures media == old(media) && Apply(old(Value()), DecodeValue(key, value)) == Ok(Value())
    {
      hide DecodeVersion, DecodeOrigin, DecodeConnection, DecodeBandwidth, DecodeTiming, DecodeAttribute, DecodeMedia;
      hide Split, Atoi;
      match key {
        case 's' => sessionName := value;
        case 'u' => uri := value;
        case 'e' => email := value;
        case 'p' => phone := value;
        case _ =>
      }
    }

    method StoreAnyAttribute(current: MediaDescription?, value: string) returns (ok: bool)
      requires IsCurrent(current)
      modifies this, current
      ensures media == old(media) && IsCurrent(current)
      ensures Apply(old(Value()), DecodeAttribute(value)) == if ok then Ok(Value()) else Err(IndexOutOfRange)
    {
      hide Split, Apply, DecodeRTPMap;
      ok := true;
      var parts := Split(value, ':');
      if HasPrefix(parts[0], "rtpmap") {
        ok := StoreRTPMap(current, parts);
      } else {
        var val := "";
        if |parts| > 1 {
          val := parts[1];
        }
        StoreAttribute(current, parts[0], val);
      }
    }

    method StoreAnyBandwidth(current: MediaDescription?, value: string)
      requires IsCurrent(current)
      modifies this, current
      ensures media == old(media) && IsCurrent(current)
      ensures Apply(old(Value()), DecodeBandwidth(value)) == Ok(Value())
    {
      hide Split, Apply, Atoi;
      ApplyIgnored(Value());
      var parts := Split(value, ':');
      if |parts| == 2 {
        var bw := Atoi(parts[1]);
        if bw.err == NoError {
          StoreBandwidth(current, Bandwidth(parts[0], bw.value));
        }
      }
    }

    /** One line `key=value` of the parser's switch. */
    method ParseLine(key: char, value: string, currentMedia: MediaDescription?)
      returns (ok: bool, current: MediaDescription?)
      requires IsCurrent(currentMedia)
      modifies this, currentMedia
      ensures Apply(old(Value()), DecodeValue(key, value)) == if ok then Ok(Value()) else Err(IndexOutOfRange)
      ensures IsCurrent(current)
      ensures media == old(media) || (current != null && fresh(current) && media == old(media) + [current])
    {
      hide Split, Atoi, Apply, Value, DecodeVersion, DecodeOrigin, DecodeBandwidth, DecodeTiming, DecodeAttribute;
      ok, current := true, currentMedia;
      ApplyIgnored(Value());
      match key {
        case 'v' => StoreVersion(value);
        case 'o' => StoreOrigin(value);
        case 's' => StoreSessionText(key, value);
        case 'i' => StoreInfo(current, value);
        case 'u' => StoreSessionText(key, value);
        case 'e' => StoreSessionText(key, value);
        case 'p' => StoreSessionText(key, value);
        case 'c' =>
          var parts := Split(value, ' ');
          if |parts| >= 3 {
            StoreConnection(current, Connection(parts[0], parts[1], parts[2]));
          }
        case 'b' => StoreAnyBandwidth(current, value);
        case 't' => StoreTiming(value);
        case 'a' => ok := StoreAnyAttribute(current, value);
        case 'm' =>
          var parts := Split(value, ' ');
          if |parts| >= 4 {
            current := AddMedia(parts[0], Atoi(parts[1]).value, parts[2], parts[3]);
          }
        case _ =>
      }
    }

    /** The lines up to p=. */
    method WriteHead() returns (s: string)
      ensures s == TextOf(HeadItems(Value()))
    {
      hide TextOf, HeadItems, TextItems, OriginItems;
      s := LineOf(VersionItem(version));
      var text := WriteOrigin(origin);
      s := s + text + LineOf(NameItem(sessionName));
      text := WriteOptional(InfoItem(sessionInfo), sessionInfo);
      s := s + text;
      text := WriteOptional(UriItem(uri), uri);
      s := s + text;
      text := WriteOptional(EmailItem(email), email);
      s := s + text;
      text := WriteOptional(PhoneItem(phone), phone);
      s := s + text;
      TextOfHead(Value());
    }

    /** The m= sections, in the order of the list. */
    method WriteMedia() returns (s: string)
      ensures AreMediaPrintings(MediaValues(media), s)
    {
      hide TextOf, MediaItems;
      EmptyIsNoText();
      s := "";
      ghost var orders: seq<MediaOrder> := [];
      ghost var values := MediaValues(media);
      for i := 0 to |media|
        invariant |orders| == i && forall j :: 0 <= j < i ==> MediaOrderOf(values[j], orders[j])
        invariant s == TextOf(AllMediaItems(values[..i], orders))
      {
        var text := media[i].ToString();
        ghost var o :| MediaOrderOf(values[i], o) && text == TextOf(MediaItems(values[i], o));
        AllMediaSnoc(values[..i], orders, values[i], o);
        assert values[..i + 1] == values[..i] + [values[i]];
        TextOfAppend(AllMediaItems(values[..i], orders), MediaItems(values[i], o));
        s := s + text;
        orders := orders + [o];
      }
      assert values[..|media|] == values;
    }

    /** SessionDescription.String: the maps come in the order in which they are visited. */
    method ToString() returns (s: string)
      ensures IsPrinting(Value(), s)
    {
      hide TextOf, HeadItems, ConnectionItems, BandwidthItems, TimingItems, AttributeItems, AllMediaItems, MediaValues;
      s := WriteHead();
      var text := WriteConnection(connection);
      s := s + text;
      text := WriteBandwidths(bandwidth);
      s := s + text;
      text := WriteTiming(timing);
      s := s + text;
      text := WriteAttributes(attributes);
      ghost var order :| IsOrder(order, attributes.Keys) && text == TextOf(AttributeItems(attributes, order));
      s := s + text;
      TextOfSession(Value(), order);
      text := WriteMedia();
      ghost var orders :| |orders| == |media|
        && (forall i :: 0 <= i < |media| ==> MediaOrderOf(MediaValues(media)[i], orders[i]))
                          && text == TextOf(AllMediaItems(MediaValues(media), orders));
      s := s + text;
      ghost var all := SessionOrder(order, orders);
      TextOfAppend(SessionItems(Value(), order), AllMediaItems(MediaValues(media), orders));
      assert SessionOrderOf(Value(), all) && s == TextOf(Items(Value(), all));
    }
  }

  /** The texts of a list of media sections, each for some order of its maps. */
  ghost predicate AreMediaPrintings(ms: seq<Media>, text: string) {
    exists os: seq<MediaOrder> :: |os| == |ms| && (forall i :: 0 <= i < |ms| ==> MediaOrderOf(ms[i], os[i]))
      && text == TextOf(AllMediaItems(ms, os))
  }

  method ParseSDP(sdpStr: string) returns (r: Result<SessionDescription, SdpError>)
    ensures r.Err? ==> Parsed(sdpStr) == Err(r.error)
    ensures r.Ok? ==> fresh(r.value) && Parsed(sdpStr) == Ok(r.value.Value())
  {
    hide Apply, Decode, DecodeValue, SplitCRLF;
    var sdp := new SessionDescription();
    var lines := SplitCRLF(sdpStr);
    var currentMedia: MediaDescription? := null;
    for i := 0 to |lines|
      invariant sdp.IsCurrent(currentMedia)
      invariant fresh(sdp) && forall m :: m in sdp.media ==> fresh(m)
      invariant ParseLines(sdp.Value(), lines[i..]) == Parsed(sdpStr)
    {
      var line := lines[i];
      StepLines(sdp.Value(), lines[i..]);
      assert lines[i..][1..] == lines[i + 1..];
      DecodeCases(line);
      if |line| < 2 || line[1] != '=' {
        ApplyIgnored(sdp.Value());
        continue;
      }
      assert currentMedia != null ==> currentMedia in sdp.media;
      var ok;
      ok, currentMedia := sdp.ParseLine(line[0], line[2..], currentMedia);
      if !ok {
        return Err(IndexOutOfRange);
      }
    }
    r := Ok(sdp);
  }

  lemma StepLines(s: Session, lines: seq<string>)
    requires lines != []
    ensures ParseLines(s, lines)
         == match Apply(s, Decode(lines[0])) case Err(e) => Err(e) case Ok(s') => ParseLines(s', lines[1..])
  {
  }

  lemma DecodeCases(line: string)
    ensures |line| < 2 || line[1] != '=' ==> Decode(line) == Ignored
    ensures |line| >= 2 && line[1] == '=' ==> Decode(line) == DecodeValue(line[0], line[2..])
  {
  }

  lemma ApplyIgnored(s: Session)
    ensures Apply(s, Ignored) == Ok(s)
  {
  }

  // ---------------------------------------------------------------------------
  // Writing to the builder
  // ---------------------------------------------------------------------------

  lemma EmptyIsNoText()
    ensures TextOf([]) == ""
  {
  }

  lemma {:induction false} EncodeAllAppend(a: seq<Item>, b: seq<Item>)
    ensures EncodeAll(a + b) == EncodeAll(a) + EncodeAll(b)
  {
    hide Encode;
    if a == [] {
      assert a + b == b;
    } else {
      assert (a + b)[1..] == a[1..] + b;
      EncodeAllAppend(a[1..], b);
    }
  }

  lemma TextOfAppend(a: seq<Item>, b: seq<Item>)
    ensures TextOf(a + b) == TextOf(a) + TextOf(b)
  {
    hide EncodeAll;
    EncodeAllAppend(a, b);
    UnlinesAppend(EncodeAll(a), EncodeAll(b));
  }

  function LineOf(item: Item): (line: string)
    ensures line == TextOf([item])
  {
    assert EncodeAll([item]) == [Encode(item)] + EncodeAll([]);
    assert Unlines([Encode(item)]) == Encode(item) + CRLF + Unlines([]);
    Encode(item) + CRLF
  }

  method WriteOptional(item: Item, text: string) returns (s: string)
    ensures s == TextOf(TextItems(item, text))
  {
    hide TextOf;
    EmptyIsNoText();
    s := "";
    if text != "" {
      s := LineOf(item);
    }
  }

  method WriteOrigin(o: Option<Origin>) returns (s: string)
    ensures s == TextOf(OriginItems(o))
  {
    hide TextOf;
    EmptyIsNoText();
    s := "";
    if o.Some? {
      s := LineOf(OriginItem(o.value));
    }
  }

  method WriteTiming(t: Option<Timing>) returns (s: string)
    ensures s == TextOf(TimingItems(t))
  {
    hide TextOf;
    EmptyIsNoText();
    s := "";
    if t.Some? {
      s := LineOf(TimingItem(t.value));
    }
  }

  method WriteConnection(c: Option<Connection>) returns (s: string)
    ensures s == TextOf(ConnectionItems(c))
  {
    hide TextOf;
    EmptyIsNoText();
    s := "";
    if c.Some? {
      s := LineOf(ConnectionItem(c.value));
    }
  }

  method WriteBandwidths(bs: seq<Bandwidth>) returns (s: string)
    ensures s == TextOf(BandwidthItems(bs))
  {
    hide TextOf;
    EmptyIsNoText();
    s := "";
    for i := 0 to |bs|
      invariant s == TextOf(BandwidthItems(bs[..i]))
    {
      BandwidthSnoc(bs[..i], bs[i]);
      assert bs[..i + 1] == bs[..i] + [bs[i]];
      TextOfAppend(BandwidthItems(bs[..i]), [BandwidthItem(bs[i])]);
      s := s + LineOf(BandwidthItem(bs[i]));
    }
    assert bs[..|bs|] == bs;
  }

  lemma {:induction false} BandwidthSnoc(bs: seq<Bandwidth>, b: Bandwidth)
    ensures BandwidthItems(bs + [b]) == BandwidthItems(bs) + [BandwidthItem(b)]
  {
    if bs == [] {
      assert [b][1..] == [];
    } else {
      assert (bs + [b])[1..] == bs[1..] + [b];
      BandwidthSnoc(bs[1..], b);
    }
  }

  /** One a= line for each attribute, in the order in which the map is visited. */
  method WriteAttributes(attributes: map<string, string>) returns (s: string)
    ensures exists order :: IsOrder(order, attributes.Keys) && s == TextOf(AttributeItems(attributes, order))
  {
    hide TextOf;
    EmptyIsNoText();
    s := "";
    ghost var order := [];
    var left := attributes.Keys;
    while left != {}
      invariant left <= attributes.Keys && IsOrder(order, attributes.Keys - left)
      invariant s == TextOf(AttributeItems(attributes, order))
    {
      var key :| key in left;
      var item := AttributeItem(key, attributes[key]);
      TextOfAppend(AttributeItems(attributes, order), [item]);
      s := s + LineOf(item);
      AttributeSnoc(attributes, order, key);
      OrderSnoc(order, key, attributes.Keys - left);
      order, left := order + [key], left - {key};
      assert attributes.Keys - left == (attributes.Keys - (left + {key})) + {key};
    }
    assert IsOrder(order, attributes.Keys);
  }

  /** One a=rtpmap line for each entry, in the order in which the map is visited. */
  method WriteRTPMaps(maps: map<int, RTPMap>) returns (s: string)
    ensures exists order :: IsOrder(order, maps.Keys) && s == TextOf(RTPMapItems(maps, order))
  {
    hide TextOf;
    EmptyIsNoText();
    s := "";
    ghost var order := [];
    var left := maps.Keys;
    while left != {}
      invariant left <= maps.Keys && IsOrder(order, maps.Keys - left)
      invariant s == TextOf(RTPMapItems(maps, order))
    {
      NotEmpty(left);
      var key :| key in left;
      var item := RTPMapItem(maps[key]);
      TextOfAppend(RTPMapItems(maps, order), [item]);
      s := s + LineOf(item);
      RTPMapSnoc(maps, order, key);
      OrderSnoc(order, key, maps.Keys - left);
      order, left := order + [key], left - {key};
      assert maps.Keys - left == (maps.Keys - (left + {key})) + {key};
    }
    assert IsOrder(order, maps.Keys);
  }

  lemma TextOfMedia(m: Media, o: MediaOrder)
    requires MediaOrderOf(m, o)
    ensures TextOf(MediaItems(m, o))
         == TextOf([MediaItem(m.mediaType, m.port, m.protocol, m.format)])
            + TextOf(TextItems(InfoItem(m.title), m.title))
            + TextOf(ConnectionItems(m.connection)) + TextOf(BandwidthItems(m.bandwidth))
            + TextOf(AttributeItems(m.attributes, o.attributes)) + TextOf(RTPMapItems(m.rtpMap, o.rtpMaps))
  {
    hide TextOf, TextItems, ConnectionItems, BandwidthItems, AttributeItems, RTPMapItems;
    var (a, b) := ([MediaItem(m.mediaType, m.port, m.protocol, m.format)], TextItems(InfoItem(m.title), m.title));
    var (c, d) := (ConnectionItems(m.connection), BandwidthItems(m.bandwidth));
    var (e, f) := (AttributeItems(m.attributes, o.attributes), RTPMapItems(m.rtpMap, o.rtpMaps));
    assert MediaItems(m, o) == a + b + c + d + e + f;
    TextOfAppend(a + b + c + d + e, f);
    TextOfAppend(a + b + c + d, e);
    TextOfAppend(a + b + c, d);
    TextOfAppend(a + b, c);
    TextOfAppend(a, b);
  }

  lemma TextOfHead(s: Session)
    ensures TextOf(HeadItems(s))
         == TextOf([VersionItem(s.version)]) + TextOf(OriginItems(s.origin)) + TextOf([NameItem(s.sessionName)])
            + TextOf(TextItems(InfoItem(s.sessionInfo), s.sessionInfo)) + TextOf(TextItems(UriItem(s.uri), s.uri))
            + TextOf(TextItems(EmailItem(s.email), s.email)) + TextOf(TextItems(PhoneItem(s.phone), s.phone))
  {
    hide TextOf, TextItems, OriginItems;
    var (a, b, c) := ([VersionItem(s.version)], OriginItems(s.origin), [NameItem(s.sessionName)]);
    var (d, e) := (TextItems(InfoItem(s.sessionInfo), s.sessionInfo), TextItems(UriItem(s.uri), s.uri));
    var (f, g) := (TextItems(EmailItem(s.email), s.email), TextItems(PhoneItem(s.phone), s.phone));
    TextOfAppend(a + b + c + d + e + f, g);
    TextOfAppend(a + b + c + d + e, f);
    TextOfAppend(a + b + c + d, e);
    TextOfAppend(a + b + c, d);
    TextOfAppend(a + b, c);
    TextOfAppend(a, b);
  }

  lemma TextOfSession(s: Session, order: seq<string>)
    requires forall k :: k in order ==> k in s.attributes
    ensures TextOf(SessionItems(s, order))
         == TextOf(HeadItems(s)) + TextOf(ConnectionItems(s.connection)) + TextOf(BandwidthItems(s.bandwidth))
            + TextOf(TimingItems(s.timing)) + TextOf(AttributeItems(s.attributes, order))
  {
    hide TextOf, HeadItems, ConnectionItems, BandwidthItems, TimingItems, AttributeItems;
    var (a, b) := (HeadItems(s), ConnectionItems(s.connection));
    var (c, d) := (BandwidthItems(s.bandwidth), TimingItems(s.timing));
    TextOfAppend(a + b + c + d, AttributeItems(s.attributes, order));
    TextOfAppend(a + b + c, d);
    TextOfAppend(a + b, c);
    TextOfAppend(a, b);
  }

  lemma NotEmpty(s: set<int>)
    requires s != {}
    ensures exists k :: k in s
  {
    assert (forall k :: k !in s) ==> s == {};
  }

  lemma {:induction false} AttributeSnoc(attributes: map<string, string>, order: seq<string>, k: string)
    requires (forall x :: x in order ==> x in attributes) && k in attributes
    ensures AttributeItems(attributes, order + [k])
         == AttributeItems(attributes, order) + [AttributeItem(k, attributes[k])]
  {
    if order == [] {
      assert [k][1..] == [];
    } else {
      assert (order + [k])[1..] == order[1..] + [k];
      AttributeSnoc(attributes, order[1..], k);
    }
  }

  lemma {:induction false} RTPMapSnoc(maps: map<int, RTPMap>, order: seq<int>, k: int)
    requires (forall x :: x in order ==> x in maps) && k in maps
    ensures forall x :: x in order + [k] ==> x in maps
    ensures RTPMapItems(maps, order + [k]) == RTPMapItems(maps, order) + [RTPMapItem(maps[k])]
  {
    if order == [] {
      assert [k][1..] == [];
    } else {
      assert (order + [k])[1..] == order[1..] + [k];
      RTPMapSnoc(maps, order[1..], k);
    }
  }

  lemma {:induction false} AllMediaSnoc(ms: seq<Media>, os: seq<MediaOrder>, m: Media, o: MediaOrder)
    requires |ms| == |os| && forall i :: 0 <= i < |ms| ==> MediaOrderOf(ms[i], os[i])
    requires MediaOrderOf(m, o)
    ensures AllMediaItems(ms + [m], os + [o]) == AllMediaItems(ms, os) + MediaItems(m, o)
  {
    hide MediaItems;
    if ms == [] {
      assert [m][1..] == [] && [o][1..] == [];
    } else {
      assert (ms + [m])[1..] == ms[1..] + [m] && (os + [o])[1..] == os[1..] + [o];
      AllMediaSnoc(ms[1..], os[1..], m, o);
      assert MediaOrderOf(ms[0], os[0]);
    }
  }
}
