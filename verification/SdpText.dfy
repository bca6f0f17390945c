/** Parsing and printing whole session descriptions: what ParseSDP and String mean. */
module SdpText {
  import opened Results
  import opened MapOrder
  import opened GoStrings
  import opened Strconv
  import opened Sdp

  /** The only way ParseSDP can fail: a slice index out of range. */
  datatype SdpError = IndexOutOfRange

  type Outcome = Result<Session, SdpError>

  // ---------------------------------------------------------------------------
  // Parsing
  // ---------------------------------------------------------------------------

  /** The current media is the last one of the list; there is none before the first m= line. */
  function UpdateLast(s: Session, m: Media): Session
    requires s.media != []
  {
    s.(media := s.media[..|s.media| - 1] + [m])
  }

  function Last(s: Session): Media
    requires s.media != []
  {
    s.media[|s.media| - 1]
  }

  /** The effect of a line that the parser sends to the current media. */
  function ApplyToMedia(m: Media, item: Item): Media {
    match item
    case InfoItem(t) => m.(title := t)
    case ConnectionItem(c) => m.(connection := Some(c))
    case BandwidthItem(b) => m.(bandwidth := m.bandwidth + [b])
    case AttributeItem(k, v) => m.(attributes := m.attributes[k := v])
    case RTPMapItem(r) => m.(rtpMap := m.rtpMap[r.payloadType := r])
    case _ => m
  }

  /** Lines whose effect depends on whether there is a current media. */
  predicate Scoped(item: Item) {
    item.InfoItem? || item.ConnectionItem? || item.BandwidthItem? || item.AttributeItem? || item.RTPMapItem?
  }

  /** The effect of a scoped line before the first media; an rtpmap is dropped. */
  function ApplyToSession(s: Session, item: Item): Session {
    match item
    case InfoItem(t) => s.(sessionInfo := t)
    case ConnectionItem(c) => s.(connection := Some(c))
    case BandwidthItem(b) => s.(bandwidth := s.bandwidth + [b])
    case AttributeItem(k, v) => s.(attributes := s.attributes[k := v])
    case _ => s
  }

  function Apply(s: Session, item: Item): Outcome {
    if Scoped(item) then
      Ok(if s.media == [] then ApplyToSession(s, item) else UpdateLast(s, ApplyToMedia(Last(s), item)))
    else
      match item
      case VersionItem(v) => Ok(s.(version := v))
      case OriginItem(o) => Ok(s.(origin := Some(o)))
      case NameItem(t) => Ok(s.(sessionName := t))
      case UriItem(t) => Ok(s.(uri := t))
      case EmailItem(t) => Ok(s.(email := t))
      case PhoneItem(t) => Ok(s.(phone := t))
      case TimingItem(t) => Ok(s.(timing := Some(t)))
      case BadRTPMapItem => if s.media == [] then Ok(s) else Err(IndexOutOfRange)
      case MediaItem(t, n, p, f) => Ok(s.(media := s.media + [NewMedia(t, n, p, f)]))
      case _ => Ok(s)
  }

  function ParseLines(s: Session, lines: seq<string>): Outcome
    decreases |lines|
  {
    if lines == [] then Ok(s)
    else
      match Apply(s, Decode(lines[0]))
      case Err(e) => Err(e)
      case Ok(s') => ParseLines(s', lines[1..])
  }

  /** The meaning of ParseSDP. */
  function Parsed(text: string): Outcome {
    ParseLines(EMPTY, SplitCRLF(text))
  }

  // ---------------------------------------------------------------------------
  // Printing
  // ---------------------------------------------------------------------------

  /** The orders in which the maps of a description are visited. */
  datatype MediaOrder = MediaOrder(attributes: seq<string>, rtpMaps: seq<int>)

  datatype SessionOrder = SessionOrder(attributes: seq<string>, media: seq<MediaOrder>)

  ghost predicate MediaOrderOf(m: Media, o: MediaOrder) {
    IsOrder(o.attributes, m.attributes.Keys) && IsOrder(o.rtpMaps, m.rtpMap.Keys)
  }

  ghost predicate SessionOrderOf(s: Session, o: SessionOrder) {
    && IsOrder(o.attributes, s.attributes.Keys)
    && |o.media| == |s.media|
    && forall i :: 0 <= i < |s.media| ==> MediaOrderOf(s.media[i], o.media[i])
  }

  function TextItems(item: Item, text: string): seq<Item> {
    if text == "" then [] else [item]
  }

  function ConnectionItems(c: Option<Connection>): seq<Item> {
    match c
    case None => []
    case Some(c) => [ConnectionItem(c)]
  }

  function BandwidthItems(bs: seq<Bandwidth>): seq<Item> {
    if bs == [] then [] else [BandwidthItem(bs[0])] + BandwidthItems(bs[1..])
  }

  function AttributeItems(attributes: map<string, string>, order: seq<string>): seq<Item>
    requires forall k :: k in order ==> k in attributes
  {
    if order == [] then [] else [AttributeItem(order[0], attributes[order[0]])] + AttributeItems(attributes, order[1..])
  }

  function RTPMapItems(maps: map<int, RTPMap>, order: seq<int>): seq<Item>
    requires forall k :: k in order ==> k in maps
  {
    if order == [] then []
    else
      var k := order[0];
      assert k in order;
      [RTPMapItem(maps[k])] + RTPMapItems(maps, order[1..])
  }

  function OriginItems(o: Option<Origin>): seq<Item> {
    match o
    case None => []
    case Some(o) => [OriginItem(o)]
  }

  function TimingItems(t: Option<Timing>): seq<Item> {
    match t
    case None => []
    case Some(t) => [TimingItem(t)]
  }

  /** The lines before c=. */
  function HeadItems(s: Session): seq<Item> {
    [VersionItem(s.version)] + OriginItems(s.origin) + [NameItem(s.sessionName)]
    + TextItems(InfoItem(s.sessionInfo), s.sessionInfo)
    + TextItems(UriItem(s.uri), s.uri)
    + TextItems(EmailItem(s.email), s.email)
    + TextItems(PhoneItem(s.phone), s.phone)
  }

  function SessionItems(s: Session, order: seq<string>): seq<Item>
    requires forall k :: k in order ==> k in s.attributes
  {
    HeadItems(s) + ConnectionItems(s.connection) + BandwidthItems(s.bandwidth) + TimingItems(s.timing)
    + AttributeItems(s.attributes, order)
  }

  /** The lines of a media after its m= line. */
  function MediaBody(m: Media, o: MediaOrder): seq<Item>
    requires forall k :: k in o.attributes ==> k in m.attributes
    requires forall k :: k in o.rtpMaps ==> k in m.rtpMap
  {
    TextItems(InfoItem(m.title), m.title) + ConnectionItems(m.connection) + BandwidthItems(m.bandwidth)
    + AttributeItems(m.attributes, o.attributes) + RTPMapItems(m.rtpMap, o.rtpMaps)
  }

  function MediaItems(m: Media, o: MediaOrder): seq<Item>
    requires forall k :: k in o.attributes ==> k in m.attributes
    requires forall k :: k in o.rtpMaps ==> k in m.rtpMap
  {
    [MediaItem(m.mediaType, m.port, m.protocol, m.format)] + MediaBody(m, o)
  }

  ghost function AllMediaItems(ms: seq<Media>, os: seq<MediaOrder>): seq<Item>
    requires |ms| == |os| && forall i :: 0 <= i < |ms| ==> MediaOrderOf(ms[i], os[i])
  {
    if ms == [] then []
    else
      assert MediaOrderOf(ms[0], os[0]);
      MediaItems(ms[0], os[0]) + AllMediaItems(ms[1..], os[1..])
  }

  ghost function Items(s: Session, o: SessionOrder): seq<Item>
    requires SessionOrderOf(s, o)
  {
    SessionItems(s, o.attributes) + AllMediaItems(s.media, o.media)
  }

  function EncodeAll(items: seq<Item>): seq<string> {
    if items == [] then [] else [Encode(items[0])] + EncodeAll(items[1..])
  }

  /** The text of a list of lines. */
  function TextOf(items: seq<Item>): string {
    Unlines(EncodeAll(items))
  }

  /** `text` is one of the texts that MediaDescription.String may return. */
  ghost predicate IsMediaPrinting(m: Media, text: string) {
    exists o :: MediaOrderOf(m, o) && text == TextOf(MediaItems(m, o))
  }

  /** `text` is one of the texts that SessionDescription.String may return. */
  ghost predicate IsPrinting(s: Session, text: string) {
    exists o :: SessionOrderOf(s, o) && text == TextOf(Items(s, o))
  }

  // ---------------------------------------------------------------------------
  // The range of the parser
  // ---------------------------------------------------------------------------

  predicate AttributesOk(attributes: map<string, string>) {
    forall k :: k in attributes ==> AttributeOk(k, attributes[k])
  }

  predicate BandwidthsOk(bs: seq<Bandwidth>) {
    forall b :: b in bs ==> BandwidthOk(b)
  }

  predicate MediaOk(m: Media) {
    && MediaLineOk(m.mediaType, m.port, m.protocol, m.format)
    && NoCRLF(m.title)
    && (m.connection.Some? ==> ConnectionOk(m.connection.value))
    && BandwidthsOk(m.bandwidth)
    && AttributesOk(m.attributes)
    && (forall k :: k in m.rtpMap ==> m.rtpMap[k].payloadType == k && RTPMapOk(m.rtpMap[k]))
  }

  /** Exactly the descriptions that ParseSDP can return. */
  predicate WellFormed(s: Session) {
    && IsInt64(s.version)
    && (s.origin.Some? ==> OriginOk(s.origin.value))
    && NoCRLF(s.sessionName) && NoCRLF(s.sessionInfo) && NoCRLF(s.uri) && NoCRLF(s.email) && NoCRLF(s.phone)
    && (s.connection.Some? ==> ConnectionOk(s.connection.value))
    && BandwidthsOk(s.bandwidth)
    && (s.timing.Some? ==> TimingOk(s.timing.value))
    && AttributesOk(s.attributes)
    && (forall m :: m in s.media ==> MediaOk(m))
  }

  lemma ApplyToMediaOk(m: Media, item: Item)
    requires MediaOk(m) && ItemOk(item)
    ensures MediaOk(ApplyToMedia(m, item))
  {
    hide NoCRLF, AttributeOk, RTPMapOk, ConnectionOk, BandwidthOk, MediaLineOk;
  }

  lemma ApplyOk(s: Session, item: Item)
    requires WellFormed(s) && ItemOk(item) && Apply(s, item).Ok?
    ensures WellFormed(Apply(s, item).value)
  {
    hide NoCRLF, AttributeOk, RTPMapOk, ConnectionOk, BandwidthOk, OriginOk, TimingOk;
    if s.media != [] {
      assert Last(s) in s.media;
      ApplyToMediaOk(Last(s), item);
    }
    if item.MediaItem? {
      assert NoCRLF("") by { EmptyText(); }
    }
  }

  lemma EmptyText()
    ensures NoCRLF("")
  {
  }

  lemma {:induction false} ParseLinesOk(s: Session, lines: seq<string>)
    requires WellFormed(s) && ParseLines(s, lines).Ok?
    requires forall l :: l in lines ==> NoCRLF(l)
    ensures WellFormed(ParseLines(s, lines).value)
    decreases |lines|
  {
    hide WellFormed, Apply, Decode, ItemOk, NoCRLF;
    if lines != [] {
      DecodeOk(lines[0]);
      ApplyOk(s, Decode(lines[0]));
      ParseLinesOk(Apply(s, Decode(lines[0])).value, lines[1..]);
    }
  }

  /** Whatever the parser returns is well-formed. */
  lemma ParsedWellFormed(text: string)
    requires Parsed(text).Ok?
    ensures WellFormed(Parsed(text).value)
  {
    hide SplitCRLF;
    SplitCRLFSound(text);
    EmptyText();
    ParseLinesOk(EMPTY, SplitCRLF(text));
  }

  // ---------------------------------------------------------------------------
  // Parsing what was printed
  // ---------------------------------------------------------------------------

  /** The effect of a list of items, one after the other. */
  function ApplyAll(s: Session, items: seq<Item>): Outcome
    decreases |items|
  {
    if items == [] then Ok(s)
    else
      match Apply(s, items[0])
      case Err(e) => Err(e)
      case Ok(s') => ApplyAll(s', items[1..])
  }

  lemma {:induction false} ApplyAllConcat(s: Session, a: seq<Item>, b: seq<Item>)
    ensures ApplyAll(s, a + b) == match ApplyAll(s, a) case Err(e) => Err(e) case Ok(s') => ApplyAll(s', b)
    decreases |a|
  {
    hide Apply;
    if a == [] {
      assert a + b == b;
    } else {
      assert (a + b)[1..] == a[1..] + b;
      if Apply(s, a[0]).Ok? {
        ApplyAllConcat(Apply(s, a[0]).value, a[1..], b);
      }
    }
  }

  lemma Then(s: Session, a: seq<Item>, t: Session, b: seq<Item>)
    requires ApplyAll(s, a) == Ok(t)
    ensures ApplyAll(s, a + b) == ApplyAll(t, b)
  {
    hide ApplyAll;
    ApplyAllConcat(s, a, b);
  }

  predicate Lines(items: seq<Item>) {
    forall i :: i in items ==> Printable(i) && ItemOk(i)
  }

  lemma {:induction false} EncodeAllNoCRLF(items: seq<Item>)
    requires Lines(items)
    ensures forall l :: l in EncodeAll(items) ==> NoCRLF(l)
  {
    hide Encode, NoCRLF, ItemOk, Printable;
    if items != [] {
      LineRoundTrip(items[0]);
      EncodeAllNoCRLF(items[1..]);
    }
  }

  lemma {:induction false} ParseEncoded(s: Session, items: seq<Item>)
    requires Lines(items)
    ensures ParseLines(s, EncodeAll(items) + [""]) == ApplyAll(s, items)
    decreases |items|
  {
    hide Encode, NoCRLF, ItemOk, Printable;
    if items == [] {
      assert EncodeAll(items) + [""] == [""];
      assert [""][1..] == [];
      assert ParseLines(s, [""]) == ParseLines(s, []);
    } else {
      hide Apply, Decode;
      LineRoundTrip(items[0]);
      assert (EncodeAll(items) + [""])[1..] == EncodeAll(items[1..]) + [""];
      if Apply(s, items[0]).Ok? {
        ParseEncoded(Apply(s, items[0]).value, items[1..]);
      }
    }
  }

  /** Parsing a text of well-formed lines applies what they say. */
  lemma ParsedText(items: seq<Item>)
    requires Lines(items)
    ensures Parsed(TextOf(items)) == ApplyAll(EMPTY, items)
  {
    hide EncodeAll, ParseLines, ApplyAll, NoCRLF, SplitCRLF;
    EncodeAllNoCRLF(items);
    SplitUnlines(EncodeAll(items));
    ParseEncoded(EMPTY, items);
  }

  lemma ApplyNone(s: Session)
    ensures ApplyAll(s, []) == Ok(s)
  {
  }

  lemma ApplyOne(s: Session, item: Item)
    ensures ApplyAll(s, [item]) == Apply(s, item)
  {
    hide Apply;
    assert [item][1..] == [];
    if Apply(s, item).Ok? {
      ApplyNone(Apply(s, item).value);
    }
  }

  // The session level.

  lemma ApplyHead(s: Session)
    ensures ApplyAll(EMPTY, HeadItems(s))
         == Ok(EMPTY.(version := s.version, origin := s.origin, sessionName := s.sessionName,
                      sessionInfo := s.sessionInfo, uri := s.uri, email := s.email, phone := s.phone))
  {
    hide ApplyAll;
    var s0 := EMPTY.(version := s.version);
    var s1 := s0.(origin := s.origin);
    var s2 := s1.(sessionName := s.sessionName);
    var s3 := s2.(sessionInfo := s.sessionInfo);
    var s4 := s3.(uri := s.uri);
    var s5 := s4.(email := s.email);
    ApplyOne(EMPTY, VersionItem(s.version));
    var items := [VersionItem(s.version)];
    Then(EMPTY, items, s0, OriginItems(s.origin));
    ApplyOrigin(s0, s.origin);
    items := items + OriginItems(s.origin);
    Then(EMPTY, items, s1, [NameItem(s.sessionName)]);
    ApplyOne(s1, NameItem(s.sessionName));
    items := items + [NameItem(s.sessionName)];
    Then(EMPTY, items, s2, TextItems(InfoItem(s.sessionInfo), s.sessionInfo));
    ApplyText(s2, InfoItem(s.sessionInfo), s.sessionInfo, s3);
    items := items + TextItems(InfoItem(s.sessionInfo), s.sessionInfo);
    Then(EMPTY, items, s3, TextItems(UriItem(s.uri), s.uri));
    ApplyText(s3, UriItem(s.uri), s.uri, s4);
    items := items + TextItems(UriItem(s.uri), s.uri);
    Then(EMPTY, items, s4, TextItems(EmailItem(s.email), s.email));
    ApplyText(s4, EmailItem(s.email), s.email, s5);
    items := items + TextItems(EmailItem(s.email), s.email);
    Then(EMPTY, items, s5, TextItems(PhoneItem(s.phone), s.phone));
    ApplyText(s5, PhoneItem(s.phone), s.phone, s5.(phone := s.phone));
  }

  /** An optional text line: absent when the text is empty, and then nothing had to change. */
  lemma ApplyText(s: Session, item: Item, text: string, t: Session)
    requires Apply(s, item) == Ok(t)
    requires text == "" ==> s == t
    ensures ApplyAll(s, TextItems(item, text)) == Ok(t)
  {
    hide Apply, ApplyAll;
    ApplyOne(s, item);
    ApplyNone(s);
  }

  lemma ApplyOrigin(s: Session, o: Option<Origin>)
    requires s.origin == None
    ensures ApplyAll(s, OriginItems(o)) == Ok(s.(origin := o))
  {
    hide ApplyAll;
    ApplyNone(s);
    if o.Some? {
      ApplyOne(s, OriginItem(o.value));
    }
  }

  lemma ApplyTiming(s: Session, t: Option<Timing>)
    requires s.timing == None
    ensures ApplyAll(s, TimingItems(t)) == Ok(s.(timing := t))
  {
    hide ApplyAll;
    ApplyNone(s);
    if t.Some? {
      ApplyOne(s, TimingItem(t.value));
    }
  }

  lemma ApplyConnection(s: Session, c: Option<Connection>)
    requires s.media == [] && s.connection == None
    ensures ApplyAll(s, ConnectionItems(c)) == Ok(s.(connection := c))
  {
    hide ApplyAll;
    ApplyNone(s);
    if c.Some? {
      ApplyOne(s, ConnectionItem(c.value));
    }
  }

  lemma {:induction false} ApplyBandwidths(s: Session, bs: seq<Bandwidth>)
    requires s.media == []
    ensures ApplyAll(s, BandwidthItems(bs)) == Ok(s.(bandwidth := s.bandwidth + bs))
    decreases |bs|
  {
    if bs == [] {
      assert s.bandwidth + bs == s.bandwidth;
    } else {
      var s' := s.(bandwidth := s.bandwidth + [bs[0]]);
      assert Apply(s, BandwidthItem(bs[0])) == Ok(s');
      ApplyBandwidths(s', bs[1..]);
      assert s.bandwidth + [bs[0]] + bs[1..] == s.bandwidth + bs;
    }
  }

  lemma {:induction false} ApplyAttributes(s: Session, attributes: map<string, string>, order: seq<string>)
    requires s.media == []
    requires forall k :: k in order ==> k in attributes
    ensures ApplyAll(s, AttributeItems(attributes, order))
         == Ok(s.(attributes := Merge(s.attributes, attributes, order)))
    decreases |order|
  {
    if order != [] {
      var (k, v) := (order[0], attributes[order[0]]);
      var s' := s.(attributes := s.attributes[k := v]);
      assert Apply(s, AttributeItem(k, v)) == Ok(s');
      ApplyAttributes(s', attributes, order[1..]);
    }
  }

  lemma ApplySession(s: Session, order: seq<string>)
    requires IsOrder(order, s.attributes.Keys)
    ensures ApplyAll(EMPTY, SessionItems(s, order)) == Ok(s.(media := []))
  {
    hide ApplyAll, HeadItems, ConnectionItems, BandwidthItems, TimingItems, AttributeItems;
    var s0 := EMPTY.(version := s.version, origin := s.origin, sessionName := s.sessionName,
                     sessionInfo := s.sessionInfo, uri := s.uri, email := s.email, phone := s.phone);
    var s1 := s0.(connection := s.connection);
    var s2 := s1.(bandwidth := s.bandwidth);
    var s3 := s2.(timing := s.timing);
    var (a, b) := (HeadItems(s), ConnectionItems(s.connection));
    var (c, d) := (BandwidthItems(s.bandwidth), TimingItems(s.timing));
    ApplyHead(s);
    Then(EMPTY, a, s0, b);
    ApplyConnection(s0, s.connection);
    Then(EMPTY, a + b, s1, c);
    ApplyBandwidths(s1, s.bandwidth);
    assert [] + s.bandwidth == s.bandwidth;
    Then(EMPTY, a + b + c, s2, d);
    ApplyTiming(s2, s.timing);
    Then(EMPTY, a + b + c + d, s3, AttributeItems(s.attributes, order));
    ApplyAttributes(s3, s.attributes, order);
    MergeAll(s.attributes, order);
  }

  // The media level.

  function ApplyAllToMedia(m: Media, items: seq<Item>): Media
    decreases |items|
  {
    if items == [] then m else ApplyAllToMedia(ApplyToMedia(m, items[0]), items[1..])
  }

  lemma {:induction false} ApplyAllToMediaConcat(m: Media, a: seq<Item>, b: seq<Item>)
    ensures ApplyAllToMedia(m, a + b) == ApplyAllToMedia(ApplyAllToMedia(m, a), b)
    decreases |a|
  {
    hide ApplyToMedia;
    if a == [] {
      assert a + b == b;
    } else {
      assert (a + b)[1..] == a[1..] + b;
      ApplyAllToMediaConcat(ApplyToMedia(m, a[0]), a[1..], b);
    }
  }

  /** While there is a current media, scoped lines change only that one. */
  lemma {:induction false} ScopedLines(s: Session, items: seq<Item>)
    requires s.media != [] && forall i :: i in items ==> Scoped(i)
    ensures ApplyAll(s, items) == Ok(UpdateLast(s, ApplyAllToMedia(Last(s), items)))
    decreases |items|
  {
    hide ApplyToMedia, Scoped;
    if items == [] {
      assert UpdateLast(s, Last(s)).media == s.media;
    } else {
      var s' := UpdateLast(s, ApplyToMedia(Last(s), items[0]));
      ScopedApply(s, items[0]);
      ScopedLines(s', items[1..]);
    }
  }

  lemma ScopedApply(s: Session, item: Item)
    requires s.media != [] && Scoped(item)
    ensures Apply(s, item) == Ok(UpdateLast(s, ApplyToMedia(Last(s), item)))
  {
  }

  lemma {:induction false} MediaBandwidths(m: Media, bs: seq<Bandwidth>)
    ensures ApplyAllToMedia(m, BandwidthItems(bs)) == m.(bandwidth := m.bandwidth + bs)
    ensures forall i :: i in BandwidthItems(bs) ==> Scoped(i)
    decreases |bs|
  {
    if bs == [] {
      assert m.bandwidth + bs == m.bandwidth;
    } else {
      MediaBandwidths(m.(bandwidth := m.bandwidth + [bs[0]]), bs[1..]);
      assert m.bandwidth + [bs[0]] + bs[1..] == m.bandwidth + bs;
    }
  }

  lemma {:induction false} MediaAttributes(m: Media, attributes: map<string, string>, order: seq<string>)
    requires forall k :: k in order ==> k in attributes
    ensures ApplyAllToMedia(m, AttributeItems(attributes, order))
         == m.(attributes := Merge(m.attributes, attributes, order))
    ensures forall i :: i in AttributeItems(attributes, order) ==> Scoped(i)
    decreases |order|
  {
    if order != [] {
      var (k, v) := (order[0], attributes[order[0]]);
      MediaAttributes(m.(attributes := m.attributes[k := v]), attributes, order[1..]);
    }
  }

  lemma {:induction false} MediaRTPMaps(m: Media, maps: map<int, RTPMap>, order: seq<int>)
    requires forall k :: k in order ==> k in maps && maps[k].payloadType == k
    ensures ApplyAllToMedia(m, RTPMapItems(maps, order)) == m.(rtpMap := Merge(m.rtpMap, maps, order))
    ensures forall i :: i in RTPMapItems(maps, order) ==> Scoped(i)
    decreases |order|
  {
    if order != [] {
      var k := order[0];
      assert k in order;
      MediaRTPMaps(m.(rtpMap := m.rtpMap[k := maps[k]]), maps, order[1..]);
    }
  }

  lemma MediaTitle(m: Media, title: string)
    requires m.title == ""
    ensures ApplyAllToMedia(m, TextItems(InfoItem(title), title)) == m.(title := title)
  {
    assert [InfoItem(title)][1..] == [];
  }

  lemma MediaConnection(m: Media, c: Option<Connection>)
    requires m.connection == None
    ensures ApplyAllToMedia(m, ConnectionItems(c)) == m.(connection := c)
  {
    if c.Some? {
      assert [ConnectionItem(c.value)][1..] == [];
    }
  }

  lemma MediaBodyApplies(m: Media, o: MediaOrder)
    requires MediaOk(m) && MediaOrderOf(m, o)
    ensures ApplyAllToMedia(NewMedia(m.mediaType, m.port, m.protocol, m.format), MediaBody(m, o)) == m
    ensures forall i :: i in MediaBody(m, o) ==> Scoped(i)
  {
    hide ApplyAllToMedia, BandwidthItems, AttributeItems, RTPMapItems, RTPMapOk, AttributesOk, BandwidthsOk;
    var m0 := NewMedia(m.mediaType, m.port, m.protocol, m.format);
    var m1 := m0.(title := m.title);
    var m2 := m1.(connection := m.connection);
    var m3 := m2.(bandwidth := m.bandwidth);
    var m4 := m3.(attributes := m.attributes);
    var a := TextItems(InfoItem(m.title), m.title);
    var (b, c) := (ConnectionItems(m.connection), BandwidthItems(m.bandwidth));
    var (d, e) := (AttributeItems(m.attributes, o.attributes), RTPMapItems(m.rtpMap, o.rtpMaps));
    MediaTitle(m0, m.title);
    ApplyAllToMediaConcat(m0, a, b);
    MediaConnection(m1, m.connection);
    ApplyAllToMediaConcat(m0, a + b, c);
    MediaBandwidths(m2, m.bandwidth);
    assert [] + m.bandwidth == m.bandwidth;
    ApplyAllToMediaConcat(m0, a + b + c, d);
    MediaAttributes(m3, m.attributes, o.attributes);
    MergeAll(m.attributes, o.attributes);
    ApplyAllToMediaConcat(m0, a + b + c + d, e);
    MediaRTPMaps(m4, m.rtpMap, o.rtpMaps);
    MergeAll(m.rtpMap, o.rtpMaps);
  }

  lemma ApplyMedia(s: Session, m: Media, o: MediaOrder)
    requires MediaOk(m) && MediaOrderOf(m, o)
    ensures ApplyAll(s, MediaItems(m, o)) == Ok(s.(media := s.media + [m]))
  {
    hide ApplyAll, MediaBody, ApplyAllToMedia, MediaOk;
    var item := MediaItem(m.mediaType, m.port, m.protocol, m.format);
    var m0 := NewMedia(m.mediaType, m.port, m.protocol, m.format);
    var s0 := s.(media := s.media + [m0]);
    ApplyOne(s, item);
    Then(s, [item], s0, MediaBody(m, o));
    MediaBodyApplies(m, o);
    ScopedLines(s0, MediaBody(m, o));
    assert s0.media[..|s0.media| - 1] == s.media;
  }

  lemma {:induction false} ApplyAllMedia(s: Session, ms: seq<Media>, os: seq<MediaOrder>)
    requires |ms| == |os|
    requires forall i :: 0 <= i < |ms| ==> MediaOk(ms[i]) && MediaOrderOf(ms[i], os[i])
    ensures ApplyAll(s, AllMediaItems(ms, os)) == Ok(s.(media := s.media + ms))
    decreases |ms|
  {
    hide ApplyAll, MediaItems, MediaOk;
    if ms == [] {
      ApplyNone(s);
      assert s.media + ms == s.media;
    } else {
      assert MediaOrderOf(ms[0], os[0]);
      var s' := s.(media := s.media + [ms[0]]);
      ApplyMedia(s, ms[0], os[0]);
      Then(s, MediaItems(ms[0], os[0]), s', AllMediaItems(ms[1..], os[1..]));
      ApplyAllMedia(s', ms[1..], os[1..]);
      assert s.media + [ms[0]] + ms[1..] == s.media + ms;
    }
  }

  /** Applying the lines of a printing, in any order of its maps, rebuilds the description. */
  lemma ItemsRebuild(s: Session, o: SessionOrder)
    requires WellFormed(s) && SessionOrderOf(s, o)
    ensures ApplyAll(EMPTY, Items(s, o)) == Ok(s)
  {
    hide ApplyAll, SessionItems, AllMediaItems, MediaOk;
    ApplySession(s, o.attributes);
    Then(EMPTY, SessionItems(s, o.attributes), s.(media := []), AllMediaItems(s.media, o.media));
    ApplyAllMedia(s.(media := []), s.media, o.media);
    assert [] + s.media == s.media;
  }

  // The lines of a printing are well-formed.

  lemma {:induction false} BandwidthLines(bs: seq<Bandwidth>)
    requires BandwidthsOk(bs)
    ensures Lines(BandwidthItems(bs))
  {
    hide BandwidthOk;
    if bs != [] {
      BandwidthLines(bs[1..]);
    }
  }

  lemma {:induction false} AttributeLines(attributes: map<string, string>, order: seq<string>)
    requires AttributesOk(attributes) && forall k :: k in order ==> k in attributes
    ensures Lines(AttributeItems(attributes, order))
  {
    hide AttributeOk;
    if order != [] {
      AttributeLines(attributes, order[1..]);
    }
  }

  lemma {:induction false} RTPMapLines(maps: map<int, RTPMap>, order: seq<int>)
    requires forall k :: k in maps ==> RTPMapOk(maps[k])
    requires forall k :: k in order ==> k in maps
    ensures Lines(RTPMapItems(maps, order))
  {
    hide RTPMapOk;
    if order != [] {
      var k := order[0];
      assert k in order && RTPMapOk(maps[k]);
      RTPMapLines(maps, order[1..]);
    }
  }

  lemma SessionLines(s: Session, order: seq<string>)
    requires WellFormed(s) && forall k :: k in order ==> k in s.attributes
    ensures Lines(SessionItems(s, order))
  {
    hide BandwidthItems, AttributeItems, NoCRLF, OriginOk, ConnectionOk, TimingOk, AttributesOk, BandwidthsOk;
    BandwidthLines(s.bandwidth);
    AttributeLines(s.attributes, order);
  }

  lemma MediaLines(m: Media, o: MediaOrder)
    requires MediaOk(m) && MediaOrderOf(m, o)
    ensures Lines(MediaItems(m, o))
  {
    hide BandwidthItems, AttributeItems, RTPMapItems;
    hide NoCRLF, ConnectionOk, AttributesOk, BandwidthsOk, RTPMapOk, MediaLineOk;
    BandwidthLines(m.bandwidth);
    AttributeLines(m.attributes, o.attributes);
    RTPMapLines(m.rtpMap, o.rtpMaps);
  }

  lemma {:induction false} AllMediaLines(ms: seq<Media>, os: seq<MediaOrder>)
    requires |ms| == |os|
    requires forall i :: 0 <= i < |ms| ==> MediaOk(ms[i]) && MediaOrderOf(ms[i], os[i])
    ensures Lines(AllMediaItems(ms, os))
    decreases |ms|
  {
    hide MediaItems, MediaOk, ItemOk, Printable;
    if ms != [] {
      assert MediaOrderOf(ms[0], os[0]);
      MediaLines(ms[0], os[0]);
      AllMediaLines(ms[1..], os[1..]);
    }
  }

  lemma ItemsAreLines(s: Session, o: SessionOrder)
    requires WellFormed(s) && SessionOrderOf(s, o)
    ensures Lines(Items(s, o))
  {
    hide SessionItems, AllMediaItems, MediaOk, ItemOk, Printable;
    SessionLines(s, o.attributes);
    AllMediaLines(s.media, o.media);
  }

  // ---------------------------------------------------------------------------
  // Main results
  // ---------------------------------------------------------------------------

  /** Every well-formed description is recovered from each of its printings. */
  lemma RoundTrip(s: Session, text: string)
    requires WellFormed(s) && IsPrinting(s, text)
    ensures Parsed(text) == Ok(s)
  {
    hide Parsed, TextOf, Items, WellFormed, ApplyAll;
    var o :| SessionOrderOf(s, o) && text == TextOf(Items(s, o));
    ItemsAreLines(s, o);
    ParsedText(Items(s, o));
    ItemsRebuild(s, o);
  }

  /**
   Normal form: for every text that the parser accepts and every order of the maps, printing the
   result and parsing again gives the identical description.
   */
  lemma NormalForm(text: string, printed: string)
    requires Parsed(text).Ok? && IsPrinting(Parsed(text).value, printed)
    ensures Parsed(printed) == Parsed(text)
  {
    hide Parsed, IsPrinting, WellFormed;
    ParsedWellFormed(text);
    RoundTrip(Parsed(text).value, printed);
  }

  lemma MediaOrdersExist(ms: seq<Media>) returns (os: seq<MediaOrder>)
    ensures |os| == |ms| && forall i :: 0 <= i < |ms| ==> MediaOrderOf(ms[i], os[i])
  {
    os := [];
    for i := 0 to |ms|
      invariant |os| == i && forall j :: 0 <= j < i ==> MediaOrderOf(ms[j], os[j])
    {
      var attributes := OrderExists(ms[i].attributes.Keys);
      var maps := OrderExists(ms[i].rtpMap.Keys);
      os := os + [MediaOrder(attributes, maps)];
    }
  }

  lemma PrintingExists(s: Session) returns (text: string)
    ensures IsPrinting(s, text)
  {
    var attributes := OrderExists(s.attributes.Keys);
    var media := MediaOrdersExist(s.media);
    var o := SessionOrder(attributes, media);
    text := TextOf(Items(s, o));
  }

  /** The range of ParseSDP is exactly WellFormed. */
  lemma RangeIsWellFormed(s: Session)
    ensures WellFormed(s) <==> exists text :: Parsed(text) == Ok(s)
  {
    hide Parsed, WellFormed, IsPrinting;
    if WellFormed(s) {
      var text := PrintingExists(s);
      RoundTrip(s, text);
    }
    if text :| Parsed(text) == Ok(s) {
      ParsedWellFormed(text);
    }
  }

  /** For every description and each of its printings: it is recovered if and only if it is well-formed. */
  lemma ExactRoundTrip(s: Session, text: string)
    requires IsPrinting(s, text)
    ensures Parsed(text) == Ok(s) <==> WellFormed(s)
  {
    hide Parsed, WellFormed, IsPrinting;
    if Parsed(text) == Ok(s) {
      ParsedWellFormed(text);
    } else if WellFormed(s) {
      RoundTrip(s, text);
    }
  }

  /** A slash-less rtpmap line somewhere after an m= line. */
  ghost predicate BadAfterMedia(lines: seq<string>) {
    exists i, j :: 0 <= i < j < |lines| && Decode(lines[i]).MediaItem? && Decode(lines[j]).BadRTPMapItem?
  }

  ghost predicate HasBad(lines: seq<string>) {
    exists j :: 0 <= j < |lines| && Decode(lines[j]).BadRTPMapItem?
  }

  lemma ApplyKeepsMedia(s: Session, item: Item)
    requires Apply(s, item).Ok?
    ensures Apply(s, item).value.media != [] <==> s.media != [] || item.MediaItem?
  {
  }

  lemma ApplyFails(s: Session, item: Item)
    ensures Apply(s, item).Err? <==> s.media != [] && item.BadRTPMapItem?
  {
  }

  lemma {:induction false} ParseLinesFails(s: Session, lines: seq<string>)
    ensures ParseLines(s, lines).Err? <==> (if s.media == [] then BadAfterMedia(lines) else HasBad(lines))
    decreases |lines|
  {
    hide Apply, Decode;
    if lines != [] {
      var (item, rest) := (Decode(lines[0]), lines[1..]);
      ApplyFails(s, item);
      assert forall i :: 0 <= i < |rest| ==> rest[i] == lines[i + 1];
      assert forall i :: 0 < i < |lines| ==> lines[i] == rest[i - 1];
      if Apply(s, item).Ok? {
        ApplyKeepsMedia(s, item);
        ParseLinesFails(Apply(s, item).value, rest);
        BadAfterMediaCons(lines);
      }
    }
  }

  lemma BadAfterMediaCons(lines: seq<string>)
    requires lines != []
    ensures BadAfterMedia(lines) <==> BadAfterMedia(lines[1..]) || (Decode(lines[0]).MediaItem? && HasBad(lines[1..]))
    ensures HasBad(lines) <==> Decode(lines[0]).BadRTPMapItem? || HasBad(lines[1..])
  {
    hide Decode;
    var rest := lines[1..];
    if i, j :| 0 <= i < j < |lines| && Decode(lines[i]).MediaItem? && Decode(lines[j]).BadRTPMapItem? {
      assert lines[j] == rest[j - 1];
      if i > 0 {
        assert lines[i] == rest[i - 1];
      }
    }
    if i, j :| 0 <= i < j < |rest| && Decode(rest[i]).MediaItem? && Decode(rest[j]).BadRTPMapItem? {
      assert rest[i] == lines[i + 1] && rest[j] == lines[j + 1];
    }
    if j :| 0 <= j < |rest| && Decode(rest[j]).BadRTPMapItem? {
      assert rest[j] == lines[j + 1];
    }
    if j :| 0 < j < |lines| && Decode(lines[j]).BadRTPMapItem? {
      assert lines[j] == rest[j - 1];
    }
  }

  /** Exactly when ParseSDP runs into the unguarded index. */
  lemma ParseFailsExactly(text: string)
    ensures Parsed(text).Err? <==> BadAfterMedia(SplitCRLF(text))
  {
    hide SplitCRLF, ParseLines;
    ParseLinesFails(EMPTY, SplitCRLF(text));
  }

  lemma TwoPieces(a: string, b: string, text: string)
    requires ' ' !in a && text == a + [' '] + b
    ensures Split(text, ' ') == [a] + Split(b, ' ')
  {
    SplitCons(a, ' ', b);
  }

  lemma FourPieces()
    ensures |Split("a 1 b c", ' ')| >= 4
  {
    hide Split;
    TwoPieces("a", "1 b c", "a 1 b c");
    TwoPieces("1", "b c", "1 b c");
    TwoPieces("b", "c", "b c");
  }

  lemma MediaLine()
    ensures NoCRLF("m=a 1 b c") && Decode("m=a 1 b c").MediaItem?
  {
    FourPieces();
    hide Split, Atoi;
    assert "m=a 1 b c"[2..] == "a 1 b c";
    NoCRAtAll("m=a 1 b c");
  }

  lemma SlashlessKeyword()
    ensures Split("rtpmap:9 x", ':') == ["rtpmap", "9 x"]
  {
    SplitCons("rtpmap", ':', "9 x");
    SplitNone("9 x", ':');
    hide Split;
    assert "rtpmap" + [':'] + "9 x" == "rtpmap:9 x";
  }

  lemma SlashlessPieces()
    ensures Split("9 x", ' ') == ["9", "x"] && Split("x", '/') == ["x"]
  {
    SplitCons("9", ' ', "x");
    SplitNone("x", ' ');
    SplitNone("x", '/');
    hide Split;
    assert "9" + [' '] + "x" == "9 x";
  }

  lemma SlashlessLine()
    ensures NoCRLF("a=rtpmap:9 x") && Decode("a=rtpmap:9 x").BadRTPMapItem?
  {
    SlashlessKeyword();
    SlashlessPieces();
    hide Split, Atoi, Parameters;
    assert "a=rtpmap:9 x"[2..] == "rtpmap:9 x";
    NoCRAtAll("a=rtpmap:9 x");
  }

  /** A description that makes the parser panic; without its m= line it is accepted. */
  lemma SlashlessRTPMap()
    ensures Parsed(Unlines(["m=a 1 b c", "a=rtpmap:9 x"])).Err?
    ensures Parsed(Unlines(["a=rtpmap:9 x"])).Ok?
  {
    MediaLine();
    SlashlessLine();
    var (bad, good) := (["m=a 1 b c", "a=rtpmap:9 x"], ["a=rtpmap:9 x"]);
    assert Decode("").Ignored?;
    hide Decode, Parsed, Unlines, SplitCRLF;
    SplitUnlines(bad);
    SplitUnlines(good);
    ParseFailsExactly(Unlines(bad));
    ParseFailsExactly(Unlines(good));
    assert (bad + [""])[0] == "m=a 1 b c" && (bad + [""])[1] == "a=rtpmap:9 x";
    assert good + [""] == ["a=rtpmap:9 x", ""];
  }

  /** The media of CreateVideoSDP. */
  function VideoMedia(serverIP: string, port: int): Media {
    NewMedia("video", port, "RTP/AVP", "96").(
      connection := Some(Connection("IN", "IP4", serverIP)),
      rtpMap := map[96 := RTPMap(96, "H264", 90000, "")],
      attributes := map["control" := "track1"])
  }

  /** CreateVideoSDP, with its two clock readings as parameters. */
  function VideoSDP(serverIP: string, port: int, id: int, version: int): Session {
    EMPTY.(
      origin := Some(Origin("-", id, version, "IN", "IP4", serverIP)),
      sessionName := "RTSP Stream",
      connection := Some(Connection("IN", "IP4", serverIP)),
      timing := Some(Timing(0, 0)),
      media := [VideoMedia(serverIP, port)])
  }

  lemma NoCRAtAll(s: string)
    requires '\r' !in s
    ensures NoCRLF(s)
  {
  }

  lemma VideoTokens()
    ensures Token("-") && Token("IN") && Token("IP4") && Token("video") && Token("RTP/AVP") && Token("96")
  {
    NoCRAtAll("-");
    NoCRAtAll("IN");
    NoCRAtAll("IP4");
    NoCRAtAll("video");
    NoCRAtAll("RTP/AVP");
    NoCRAtAll("96");
  }

  lemma VideoTexts()
    ensures NoCRLF("RTSP Stream") && NoCRLF("") && AttributeOk("control", "track1")
  {
    NoCRAtAll("RTSP Stream");
    NoCRAtAll("control");
    NoCRAtAll("track1");
    assert "control"[..6][0] == 'c' && "rtpmap"[0] == 'r';
  }

  lemma VideoRTPMap()
    ensures RTPMapOk(RTPMap(96, "H264", 90000, ""))
  {
    NoCRAtAll("H264");
  }

  lemma VideoMediaOk(serverIP: string, port: int)
    ensures MediaOk(VideoMedia(serverIP, port)) <==> Token(serverIP) && IsInt64(port)
  {
    hide NoCRLF, Token, RTPMapOk, AttributeOk;
    VideoTokens();
    VideoTexts();
    VideoRTPMap();
  }

  lemma VideoSDPWellFormed(serverIP: string, port: int, id: int, version: int)
    ensures WellFormed(VideoSDP(serverIP, port, id, version))
       <==> Token(serverIP) && IsInt64(port) && IsInt64(id) && IsInt64(version)
  {
    hide NoCRLF, Token, MediaOk, VideoMedia;
    VideoTokens();
    VideoTexts();
    VideoMediaOk(serverIP, port);
    var s := VideoSDP(serverIP, port, id, version);
    assert forall x :: x in s.media <==> x == VideoMedia(serverIP, port);
  }

  /** The video description is recovered exactly when the address holds no space and no line break. */
  lemma VideoSDPRoundTrip(serverIP: string, port: int, id: int, version: int, text: string)
    requires IsPrinting(VideoSDP(serverIP, port, id, version), text)
    ensures Parsed(text) == Ok(VideoSDP(serverIP, port, id, version))
       <==> Token(serverIP) && IsInt64(port) && IsInt64(id) && IsInt64(version)
  {
    hide Parsed, WellFormed, IsPrinting, VideoSDP;
    ExactRoundTrip(VideoSDP(serverIP, port, id, version), text);
    VideoSDPWellFormed(serverIP, port, id, version);
  }

  /** The lines of CreateVideoSDP's description, word by word. */
  function VideoLines(serverIP: string, port: int, id: int, version: int): seq<string> {
    ["v=0",
     "o=" + Join(["-", Itoa(id), Itoa(version), "IN", "IP4", serverIP], ' '),
     "s=RTSP Stream",
     "c=" + Join(["IN", "IP4", serverIP], ' '),
     "t=0 0",
     "m=" + Join(["video", Itoa(port), "RTP/AVP", "96"], ' '),
     "c=" + Join(["IN", "IP4", serverIP], ' '),
     "a=control:track1",
     "a=" + Join(["rtpmap:96", "H264/90000"], ' ')]
  }

  lemma Digits()
    ensures Itoa(0) == "0" && Itoa(96) == "96" && Itoa(90000) == "90000"
  {
    assert NatToString(0) == "0" && NatToString(9) == "9";
    assert NatToString(96) == NatToString(9) + [DigitChar(6)];
    assert NatToString(90) == NatToString(9) + [DigitChar(0)];
    assert NatToString(900) == NatToString(90) + [DigitChar(0)];
    assert NatToString(9000) == NatToString(900) + [DigitChar(0)];
    assert NatToString(90000) == NatToString(9000) + [DigitChar(0)];
  }

  lemma SessionLineTexts()
    ensures Encode(VersionItem(0)) == "v=0"
    ensures Encode(NameItem("RTSP Stream")) == "s=RTSP Stream"
    ensures Encode(TimingItem(Timing(0, 0))) == "t=0 0"
  {
    Digits();
    hide Itoa;
  }

  lemma TwoWords(a: string, b: string)
    ensures Join([a, b], ' ') == a + " " + b
  {
    assert [a, b][1..] == [b];
  }

  lemma ThreeWords(a: string, b: string, c: string)
    ensures Join([a, b, c], ' ') == a + " " + (b + " " + c)
  {
    TwoWords(b, c);
    assert [a, b, c][1..] == [b, c];
  }

  lemma FourWords(a: string, b: string, c: string, d: string)
    ensures Join([a, b, c, d], ' ') == a + " " + (b + " " + (c + " " + d))
  {
    ThreeWords(b, c, d);
    assert [a, b, c, d][1..] == [b, c, d];
  }

  lemma SixWords(a: string, b: string, c: string, d: string, e: string, f: string)
    ensures Join([a, b, c, d, e, f], ' ') == a + " " + (b + " " + (c + " " + (d + " " + (e + " " + f))))
  {
    FourWords(c, d, e, f);
    assert [b, c, d, e, f][1..] == [c, d, e, f];
    assert [a, b, c, d, e, f][1..] == [b, c, d, e, f];
  }

  lemma OriginLineText(serverIP: string, id: int, version: int)
    ensures Encode(OriginItem(Origin("-", id, version, "IN", "IP4", serverIP)))
         == "o=" + Join(["-", Itoa(id), Itoa(version), "IN", "IP4", serverIP], ' ')
  {
    hide Itoa, Join;
    SixWords("-", Itoa(id), Itoa(version), "IN", "IP4", serverIP);
  }

  lemma ConnectionLineText(serverIP: string)
    ensures Encode(ConnectionItem(Connection("IN", "IP4", serverIP))) == "c=" + Join(["IN", "IP4", serverIP], ' ')
  {
    hide Join;
    ThreeWords("IN", "IP4", serverIP);
  }

  lemma MediaLineText(port: int)
    ensures Encode(MediaItem("video", port, "RTP/AVP", "96"))
         == "m=" + Join(["video", Itoa(port), "RTP/AVP", "96"], ' ')
  {
    hide Itoa, Join;
    FourWords("video", Itoa(port), "RTP/AVP", "96");
  }

  lemma ControlLineText()
    ensures Encode(AttributeItem("control", "track1")) == "a=control:track1"
  {
    assert "control" + ":" + "track1" == "control:track1";
  }

  lemma RTPMapPieces(name: string, number: string, encoding: string, rate: string)
    ensures name + ":" + (number + " " + (encoding + "/" + (rate + "")))
         == (name + ":" + number) + " " + (encoding + "/" + rate)
  {
  }

  lemma RTPMapLineText()
    ensures Encode(RTPMapItem(RTPMap(96, "H264", 90000, ""))) == "a=" + Join(["rtpmap:96", "H264/90000"], ' ')
  {
    Digits();
    hide Itoa, Join;
    RTPMapPieces("rtpmap", "96", "H264", "90000");
    assert "rtpmap" + ":" + "96" == "rtpmap:96";
    assert "H264" + "/" + "90000" == "H264/90000";
    TwoWords("rtpmap:96", "H264/90000");
  }

  lemma VideoItems(serverIP: string, port: int, id: int, version: int, o: SessionOrder)
    requires SessionOrderOf(VideoSDP(serverIP, port, id, version), o)
    ensures var c := ConnectionItem(Connection("IN", "IP4", serverIP));
            Items(VideoSDP(serverIP, port, id, version), o)
            == [VersionItem(0), OriginItem(Origin("-", id, version, "IN", "IP4", serverIP)), NameItem("RTSP Stream"), c,
                TimingItem(Timing(0, 0)), MediaItem("video", port, "RTP/AVP", "96"), c,
                AttributeItem("control", "track1"), RTPMapItem(RTPMap(96, "H264", 90000, ""))]
  {
    var s := VideoSDP(serverIP, port, id, version);
    var (m, mo) := (VideoMedia(serverIP, port), o.media[0]);
    assert MediaOrderOf(s.media[0], mo);
    assert m.attributes.Keys == {"control"} && m.rtpMap.Keys == {96};
    SingleOrder(mo.attributes, "control");
    SingleOrder(mo.rtpMaps, 96);
    EmptyOrder(o.attributes);
    assert AttributeItems(m.attributes, mo.attributes) == [AttributeItem("control", "track1")];
    assert RTPMapItems(m.rtpMap, mo.rtpMaps) == [RTPMapItem(RTPMap(96, "H264", 90000, ""))];
    assert AllMediaItems(s.media, o.media) == MediaItems(m, mo) + [];
  }

  lemma EncodeNine(items: seq<Item>)
    requires |items| == 9
    ensures EncodeAll(items)
         == [Encode(items[0]), Encode(items[1]), Encode(items[2]), Encode(items[3]), Encode(items[4]),
             Encode(items[5]), Encode(items[6]), Encode(items[7]), Encode(items[8])]
  {
    hide Encode;
    EncodeAllAt(items);
  }

  lemma {:induction false} EncodeAllAt(items: seq<Item>)
    ensures |EncodeAll(items)| == |items| && forall i :: 0 <= i < |items| ==> EncodeAll(items)[i] == Encode(items[i])
  {
    hide Encode;
    if items != [] {
      EncodeAllAt(items[1..]);
    }
  }

  /** The text of CreateVideoSDP's description is this one, in every order of its maps. */
  lemma VideoSDPText(serverIP: string, port: int, id: int, version: int, text: string)
    requires IsPrinting(VideoSDP(serverIP, port, id, version), text)
    ensures text == Unlines(VideoLines(serverIP, port, id, version))
  {
    hide Encode, Itoa, Join, VideoSDP, Unlines, Items, EncodeAll;
    var s := VideoSDP(serverIP, port, id, version);
    var o :| SessionOrderOf(s, o) && text == TextOf(Items(s, o));
    VideoItems(serverIP, port, id, version, o);
    EncodeNine(Items(VideoSDP(serverIP, port, id, version), o));
    SessionLineTexts();
    OriginLineText(serverIP, id, version);
    ConnectionLineText(serverIP);
    MediaLineText(port);
    ControlLineText();
    RTPMapLineText();
  }
}
