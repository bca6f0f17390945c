/**
 What the lines of a session description mean, for arbitrary lines and not only for printed ones: which
 words count, what is ignored, and what one more line does to the description read so far.
 */
module SdpLines {
  import opened Results
  import opened GoStrings
  import opened Strconv
  import opened Sdp
  import opened SdpText

  predicate Word(s: string) {
    ' ' !in s
  }

  // ---------------------------------------------------------------------------
  // Lines that are made of words
  // ---------------------------------------------------------------------------

  lemma ValueOfLine(key: char, value: string)
    ensures Decode([key] + "=" + value) == DecodeValue(key, value)
  {
    hide DecodeValue;
    var line := [key] + "=" + value;
    assert line[0] == key && line[1] == '=' && line[2..] == value;
  }

  /** An m= line: its first four words count, and further ones do not matter. */
  lemma MediaLineMeans(kind: string, port: string, protocol: string, format: string, tail: string)
    requires Word(kind) && Word(port) && Word(protocol) && Word(format) && Tail(tail, ' ')
    ensures Decode("m=" + (Join([kind, port, protocol, format], ' ') + tail))
         == MediaItem(kind, Atoi(port).value, protocol, format)
  {
    hide Split, Join, Atoi, Decode;
    var words := [kind, port, protocol, format];
    var value := Join(words, ' ') + tail;
    SplitWords(words, tail, ' ');
    ValueOfLine('m', value);
    assert ['m'] + "=" + value == "m=" + value;
    FourWordsOf(words, Split(value, ' '));
  }

  lemma FourWordsOf(words: seq<string>, parts: seq<string>)
    requires words <= parts && |words| == 4
    ensures parts[0] == words[0] && parts[1] == words[1] && parts[2] == words[2] && parts[3] == words[3]
  {
  }

  lemma OriginLineMeans(
      user: string, id: string, version: string, net: string, addr: string, host: string, tail: string)
    requires Word(user) && Word(id) && Word(version) && Word(net) && Word(addr) && Word(host) && Tail(tail, ' ')
    ensures Decode("o=" + (Join([user, id, version, net, addr, host], ' ') + tail))
         == OriginItem(Origin(user, Atoi(id).value, Atoi(version).value, net, addr, host))
  {
    hide Split, Join, Atoi, Decode;
    var words := [user, id, version, net, addr, host];
    var value := Join(words, ' ') + tail;
    SplitWords(words, tail, ' ');
    ValueOfLine('o', value);
    assert ['o'] + "=" + value == "o=" + value;
    var parts := Split(value, ' ');
    assert forall i :: 0 <= i < 6 ==> parts[i] == words[i];
  }

  lemma ConnectionLineMeans(net: string, addr: string, host: string, tail: string)
    requires Word(net) && Word(addr) && Word(host) && Tail(tail, ' ')
    ensures Decode("c=" + (Join([net, addr, host], ' ') + tail)) == ConnectionItem(Connection(net, addr, host))
  {
    hide Split, Join, Atoi, Decode;
    var words := [net, addr, host];
    var value := Join(words, ' ') + tail;
    SplitWords(words, tail, ' ');
    ValueOfLine('c', value);
    assert ['c'] + "=" + value == "c=" + value;
    var parts := Split(value, ' ');
    assert forall i :: 0 <= i < 3 ==> parts[i] == words[i];
  }

  lemma TimingLineMeans(start: string, stop: string, tail: string)
    requires Word(start) && Word(stop) && Tail(tail, ' ')
    ensures Decode("t=" + (Join([start, stop], ' ') + tail)) == TimingItem(Timing(Atoi(start).value, Atoi(stop).value))
  {
    hide Split, Join, Atoi, Decode;
    var words := [start, stop];
    var value := Join(words, ' ') + tail;
    SplitWords(words, tail, ' ');
    ValueOfLine('t', value);
    assert ['t'] + "=" + value == "t=" + value;
    var parts := Split(value, ' ');
    assert forall i :: 0 <= i < 2 ==> parts[i] == words[i];
  }

  /** With too few words these lines say nothing; with enough they always say something. */
  lemma EnoughWords(value: string)
    ensures Decode("m=" + value) == Ignored <==> Occurrences(value, ' ') < 3
    ensures Decode("o=" + value) == Ignored <==> Occurrences(value, ' ') < 5
    ensures Decode("c=" + value) == Ignored <==> Occurrences(value, ' ') < 2
    ensures Decode("t=" + value) == Ignored <==> Occurrences(value, ' ') < 1
  {
    hide Split, Atoi, Decode, Occurrences;
    PieceCount(value, ' ');
    WordLines(value);
  }

  /** Words behind those that count change nothing. */
  lemma ExtraWords(value: string, word: string)
    ensures Decode("m=" + value).MediaItem? ==> Decode("m=" + (value + " " + word)) == Decode("m=" + value)
    ensures Decode("o=" + value).OriginItem? ==> Decode("o=" + (value + " " + word)) == Decode("o=" + value)
    ensures Decode("c=" + value).ConnectionItem? ==> Decode("c=" + (value + " " + word)) == Decode("c=" + value)
    ensures Decode("t=" + value).TimingItem? ==> Decode("t=" + (value + " " + word)) == Decode("t=" + value)
  {
    hide Split, Atoi, Decode;
    var longer := value + " " + word;
    SplitAppend(value, ' ', word);
    WordLines(value);
    WordLines(longer);
  }

  lemma WordLines(value: string)
    ensures Decode("m=" + value) == DecodeMedia(value) && Decode("o=" + value) == DecodeOrigin(value)
    ensures Decode("c=" + value) == DecodeConnection(value) && Decode("t=" + value) == DecodeTiming(value)
  {
    hide Decode, DecodeMedia, DecodeOrigin, DecodeConnection, DecodeTiming;
    ValueOfLine('m', value);
    ValueOfLine('o', value);
    ValueOfLine('c', value);
    ValueOfLine('t', value);
    assert ['m'] + "=" + value == "m=" + value && ['o'] + "=" + value == "o=" + value;
    assert ['c'] + "=" + value == "c=" + value && ['t'] + "=" + value == "t=" + value;
  }

  // ---------------------------------------------------------------------------
  // The other lines
  // ---------------------------------------------------------------------------

  /** Lines whose whole value is the text, and the version. */
  lemma TextLinesMean(text: string)
    ensures Decode("s=" + text) == NameItem(text) && Decode("i=" + text) == InfoItem(text)
    ensures Decode("u=" + text) == UriItem(text) && Decode("e=" + text) == EmailItem(text)
    ensures Decode("p=" + text) == PhoneItem(text)
    ensures Decode("v=" + text) == if Atoi(text).err == NoError then VersionItem(Atoi(text).value) else Ignored
  {
    hide Decode, Atoi;
    ValueOfLine('s', text);
    ValueOfLine('i', text);
    ValueOfLine('u', text);
    ValueOfLine('e', text);
    ValueOfLine('p', text);
    ValueOfLine('v', text);
    assert ['s'] + "=" + text == "s=" + text && ['i'] + "=" + text == "i=" + text && ['u'] + "=" + text == "u=" + text;
    assert ['e'] + "=" + text == "e=" + text && ['p'] + "=" + text == "p=" + text && ['v'] + "=" + text == "v=" + text;
  }

  /** A line that is too short, has no equals sign in second place, or begins with another letter is ignored. */
  lemma OtherLines(line: string)
    requires |line| < 2 || line[1] != '=' || line[0] !in "vosiuepcbtam"
    ensures Decode(line) == Ignored
  {
    if |line| >= 2 && line[1] == '=' {
      var letters := "vosiuepcbtam";
      assert letters[0] == 'v' && letters[1] == 'o' && letters[2] == 's' && letters[3] == 'i';
      assert letters[4] == 'u' && letters[5] == 'e' && letters[6] == 'p' && letters[7] == 'c';
      assert letters[8] == 'b' && letters[9] == 't' && letters[10] == 'a' && letters[11] == 'm';
    }
  }

  /** A b= line counts when its value has one colon with a number behind it. */
  lemma BandwidthLineMeans(kind: string, amount: string)
    requires ':' !in kind
    ensures Decode("b=" + (kind + ":" + amount))
         == if ':' !in amount && Atoi(amount).err == NoError then BandwidthItem(Bandwidth(kind, Atoi(amount).value))
            else Ignored
    ensures Decode("b=" + kind) == Ignored
  {
    hide Split, Atoi, Decode, Occurrences;
    var value := kind + ":" + amount;
    ValueOfLine('b', value);
    ValueOfLine('b', kind);
    assert ['b'] + "=" + value == "b=" + value && ['b'] + "=" + kind == "b=" + kind;
    SplitCons(kind, ':', amount);
    SplitNone(kind, ':');
    OnePiece(amount, ':');
  }

  /** A text is its own only piece exactly when it holds no separator. */
  lemma OnePiece(s: string, c: char)
    ensures Split(s, c) == [s] <==> c !in s
    ensures |Split(s, c)| == 1 <==> c !in s
  {
    SplitSound(s, c);
    if c !in s {
      SplitNone(s, c);
    }
  }

  /** An attribute is the text up to the first colon, its value the text up to the next one. */
  lemma AttributeLineMeans(key: string, value: string, tail: string)
    requires ':' !in key && ':' !in value && !HasPrefix(key, "rtpmap") && Tail(tail, ':')
    ensures Decode("a=" + key) == AttributeItem(key, "")
    ensures Decode("a=" + (Join([key, value], ':') + tail)) == AttributeItem(key, value)
  {
    hide Split, Join, Decode, HasPrefix, Parameters;
    var text := Join([key, value], ':') + tail;
    ValueOfLine('a', key);
    ValueOfLine('a', text);
    assert ['a'] + "=" + key == "a=" + key && ['a'] + "=" + text == "a=" + text;
    SplitNone(key, ':');
    SplitWords([key, value], tail, ':');
    var parts := Split(text, ':');
    assert parts[0] == key && parts[1] == value;
  }

  lemma ParametersOf(encoding: string, rate: string, pieces: seq<string>)
    ensures Parameters([encoding] + ([rate] + pieces)) == if pieces == [] then "" else "/" + Join(pieces, '/')
  {
    hide Join;
    assert ([encoding] + ([rate] + pieces))[2..] == pieces;
  }

  /** The encoding name, the clock rate and the parameters, as they stand in an rtpmap line. */
  lemma EncodingPieces(encoding: string, rate: string, parameters: string)
    requires '/' !in encoding && '/' !in rate && Tail(parameters, '/')
    ensures var parts := Split(encoding + "/" + (rate + parameters), '/');
            && |parts| >= 2 && parts[0] == encoding && parts[1] == rate
            && Parameters(parts) == parameters
  {
    hide Split, Join, Parameters;
    SplitCons(encoding, '/', rate + parameters);
    if parameters == "" {
      assert rate + parameters == rate;
      SplitNone(rate, '/');
      ParametersOf(encoding, rate, []);
      assert [encoding] + ([rate] + []) == [encoding] + [rate];
    } else {
      var p := parameters[1..];
      assert rate + parameters == rate + ['/'] + p && parameters == "/" + p;
      SplitCons(rate, '/', p);
      SplitSound(p, '/');
      ParametersOf(encoding, rate, Split(p, '/'));
    }
  }

  /** An attribute line, by its pieces between colons. */
  lemma AttributePieces(key: string, value: string, tail: string)
    requires ':' !in key && ':' !in value && Tail(tail, ':') && HasPrefix(key, "rtpmap")
    ensures var parts := Split(Join([key, value], ':') + tail, ':');
            && |parts| >= 2 && parts[1] == value
            && Decode("a=" + (Join([key, value], ':') + tail)) == DecodeRTPMap(parts)
  {
    hide Split, Join, Decode, HasPrefix, DecodeRTPMap;
    var text := Join([key, value], ':') + tail;
    ValueOfLine('a', text);
    assert ['a'] + "=" + text == "a=" + text;
    SplitWords([key, value], tail, ':');
    var parts := Split(text, ':');
    assert parts[0] == key && parts[1] == value;
  }

  /** An rtpmap line: two words behind the colon, and the slashes in the second one. */
  lemma RTPMapLineMeans(key: string, number: string, encoding: string, rate: string, parameters: string,
                        more: string, tail: string)
    requires HasPrefix(key, "rtpmap") && ':' !in key && Tail(tail, ':')
    requires var value := number + " " + (encoding + "/" + (rate + parameters) + more);
             ':' !in value
    requires Word(number) && Word(encoding + "/" + (rate + parameters)) && Tail(more, ' ')
    requires '/' !in encoding && '/' !in rate && Tail(parameters, '/')
    ensures var value := number + " " + (encoding + "/" + (rate + parameters) + more);
            Decode("a=" + (Join([key, value], ':') + tail))
            == RTPMapItem(RTPMap(Atoi(number).value, encoding, Atoi(rate).value, parameters))
  {
    hide Split, Decode, HasPrefix, Parameters, Atoi;
    var second := encoding + "/" + (rate + parameters);
    var value := number + " " + (second + more);
    AttributePieces(key, value, tail);
    SplitCons(number, ' ', second + more);
    SecondWord(second, more);
    EncodingPieces(encoding, rate, parameters);
    hide Join;
  }

  lemma SecondWord(word: string, more: string)
    requires Word(word) && Tail(more, ' ')
    ensures Split(word + more, ' ')[0] == word
  {
    hide Split;
    SplitWords([word], more, ' ');
    assert Join([word], ' ') == word;
  }

  /** Without a slash in its second word an rtpmap line is the one the parser cannot take. */
  lemma SlashlessLineMeans(key: string, number: string, encoding: string, more: string, tail: string)
    requires HasPrefix(key, "rtpmap") && ':' !in key && Tail(tail, ':')
    requires ':' !in number + " " + (encoding + more) && Word(number) && Word(encoding) && Tail(more, ' ')
    requires '/' !in encoding
    ensures Decode("a=" + (Join([key, number + " " + (encoding + more)], ':') + tail)) == BadRTPMapItem
  {
    hide Split, Decode, HasPrefix, Parameters, Atoi;
    AttributePieces(key, number + " " + (encoding + more), tail);
    SplitCons(number, ' ', encoding + more);
    SecondWord(encoding, more);
    SplitNone(encoding, '/');
    hide Join;
  }

  /** Without a second word, or without a colon, it says nothing. */
  lemma ShortRTPMapLine(key: string, number: string, tail: string)
    requires HasPrefix(key, "rtpmap") && ':' !in key && ':' !in number && Word(number) && Tail(tail, ':')
    ensures Decode("a=" + key) == Ignored
    ensures Decode("a=" + (Join([key, number], ':') + tail)) == Ignored
  {
    hide Split, Decode, HasPrefix, Parameters, Atoi;
    ValueOfLine('a', key);
    assert ['a'] + "=" + key == "a=" + key;
    SplitNone(key, ':');
    AttributePieces(key, number, tail);
    SplitNone(number, ' ');
    hide Join;
  }

  // ---------------------------------------------------------------------------
  // One more line
  // ---------------------------------------------------------------------------

  lemma {:induction false} ParseLinesAppend(s: Session, lines: seq<string>, line: string)
    ensures ParseLines(s, lines + [line])
         == match ParseLines(s, lines)
            case Err(e) => Err(e)
            case Ok(t) => Apply(t, Decode(line))
    decreases |lines|
  {
    hide Apply, Decode;
    if lines == [] {
      assert [line][1..] == [];
      match Apply(s, Decode(line))
      case Err(e) =>
      case Ok(t) => assert ParseLines(t, []) == Ok(t);
    } else {
      assert (lines + [line])[1..] == lines[1..] + [line];
      match Apply(s, Decode(lines[0]))
      case Err(e) =>
      case Ok(t) => ParseLinesAppend(t, lines[1..], line);
    }
  }

  /** The text that ends in CR LF is parsed as its lines. */
  lemma ParsedIsLines(lines: seq<string>)
    requires forall l :: l in lines ==> NoCRLF(l)
    ensures Parsed(Unlines(lines)) == ParseLines(EMPTY, lines)
  {
    assert Decode("") == Ignored;
    hide SplitCRLF, Unlines, ParseLines, Decode, NoCRLF;
    SplitUnlines(lines);
    ParseLinesAppend(EMPTY, lines, "");
    IgnoredChangesNothing();
  }

  lemma IgnoredChangesNothing()
    ensures forall s: Session :: Apply(s, Ignored) == Ok(s)
  {
  }

  /** What a line adds to the description read so far. */
  lemma OneMoreLine(lines: seq<string>, line: string, s: Session)
    requires NoCRLF(line) && (forall l :: l in lines ==> NoCRLF(l)) && Parsed(Unlines(lines)) == Ok(s)
    ensures Parsed(Unlines(lines + [line])) == Apply(s, Decode(line))
  {
    hide Parsed, Unlines, ParseLines, Apply, Decode, NoCRLF;
    ParsedIsLines(lines);
    ParsedIsLines(lines + [line]);
    ParseLinesAppend(EMPTY, lines, line);
  }

  /** The last media of a description, changed. */
  function WithLast(s: Session, m: Media): Session
    requires s.media != []
  {
    s.(media := s.media[..|s.media| - 1] + [m])
  }

  /**
   What one more line does, by what it says. Of lines of one kind the last one counts, except that
   bandwidths are collected, and attributes and rtpmaps are kept by key. Before the first m= line an
   rtpmap is dropped; after it, i, c, b and a lines belong to the last media.
   */
  lemma LineEffect(lines: seq<string>, line: string, s: Session)
    requires NoCRLF(line) && (forall l :: l in lines ==> NoCRLF(l)) && Parsed(Unlines(lines)) == Ok(s)
    ensures var after := Parsed(Unlines(lines + [line]));
            var top := s.media == [];
            match Decode(line)
            case Ignored => after == Ok(s)
            case VersionItem(v) => after == Ok(s.(version := v))
            case OriginItem(o) => after == Ok(s.(origin := Some(o)))
            case NameItem(t) => after == Ok(s.(sessionName := t))
            case UriItem(t) => after == Ok(s.(uri := t))
            case EmailItem(t) => after == Ok(s.(email := t))
            case PhoneItem(t) => after == Ok(s.(phone := t))
            case TimingItem(t) => after == Ok(s.(timing := Some(t)))
            case MediaItem(k, n, p, f) => after == Ok(s.(media := s.media + [NewMedia(k, n, p, f)]))
            case BadRTPMapItem => if top then after == Ok(s) else after.Err?
            case InfoItem(t) =>
              after == Ok(if top then s.(sessionInfo := t) else WithLast(s, Last(s).(title := t)))
            case ConnectionItem(c) =>
              after == Ok(if top then s.(connection := Some(c)) else WithLast(s, Last(s).(connection := Some(c))))
            case BandwidthItem(b) =>
              after == Ok(if top then s.(bandwidth := s.bandwidth + [b])
                          else WithLast(s, Last(s).(bandwidth := Last(s).bandwidth + [b])))
            case AttributeItem(k, v) =>
              after == Ok(if top then s.(attributes := s.attributes[k := v])
                          else WithLast(s, Last(s).(attributes := Last(s).attributes[k := v])))
            case RTPMapItem(r) =>
              after == Ok(if top then s
                          else WithLast(s, Last(s).(rtpMap := Last(s).rtpMap[r.payloadType := r])))
  {
    hide Parsed, Unlines, Decode, NoCRLF;
    OneMoreLine(lines, line, s);
  }

  // ---------------------------------------------------------------------------
  // Printed lines
  // ---------------------------------------------------------------------------

  lemma PrintedTexts(text: string, n: int)
    ensures Encode(VersionItem(n)) == "v=" + Itoa(n) && Encode(NameItem(text)) == "s=" + text
    ensures Encode(InfoItem(text)) == "i=" + text && Encode(UriItem(text)) == "u=" + text
    ensures Encode(EmailItem(text)) == "e=" + text && Encode(PhoneItem(text)) == "p=" + text
    ensures Encode(BandwidthItem(Bandwidth(text, n))) == "b=" + (text + ":" + Itoa(n))
  {
    hide Itoa;
  }

  lemma PrintedOrigin(o: Origin)
    ensures Encode(OriginItem(o))
         == "o=" + Join([o.username, Itoa(o.sessID), Itoa(o.sessVersion), o.netType, o.addrType, o.unicastAddress], ' ')
  {
    hide Itoa, Join;
    SixWords(o.username, Itoa(o.sessID), Itoa(o.sessVersion), o.netType, o.addrType, o.unicastAddress);
  }

  lemma PrintedConnectionAndTiming(c: Connection, t: Timing)
    ensures Encode(ConnectionItem(c)) == "c=" + Join([c.netType, c.addrType, c.connectionAddr], ' ')
    ensures Encode(TimingItem(t)) == "t=" + Join([Itoa(t.startTime), Itoa(t.stopTime)], ' ')
  {
    hide Itoa, Join;
    ThreeWords(c.netType, c.addrType, c.connectionAddr);
    TwoWords(Itoa(t.startTime), Itoa(t.stopTime));
  }

  lemma PrintedMedia(mediaType: string, port: int, protocol: string, format: string)
    ensures Encode(MediaItem(mediaType, port, protocol, format))
         == "m=" + Join([mediaType, Itoa(port), protocol, format], ' ')
  {
    hide Itoa, Join;
    FourWords(mediaType, Itoa(port), protocol, format);
  }

  /** An attribute without a value is printed without a colon. */
  lemma PrintedAttributes(key: string, value: string, r: RTPMap)
    ensures Encode(AttributeItem(key, "")) == "a=" + key
    ensures value != "" ==> Encode(AttributeItem(key, value)) == "a=" + (key + ":" + value)
    ensures Encode(RTPMapItem(r))
         == "a=" + ("rtpmap:" + (Itoa(r.payloadType) + " " + (r.encoding + "/" + (Itoa(r.clockRate) + r.parameters))))
  {
    hide Itoa;
    assert "rtpmap" + ":" == "rtpmap:";
  }

  /** The place of a line in section 5 of RFC 4566; media lines start over. */
  function Place(item: Item): nat {
    match item
    case VersionItem(_) => 0
    case OriginItem(_) => 1
    case NameItem(_) => 2
    case InfoItem(_) => 3
    case UriItem(_) => 4
    case EmailItem(_) => 5
    case PhoneItem(_) => 6
    case ConnectionItem(_) => 7
    case BandwidthItem(_) => 8
    case TimingItem(_) => 9
    case AttributeItem(_, _) => 10
    case RTPMapItem(_) => 11
    case _ => 12
  }

  predicate Ordered(items: seq<Item>) {
    forall i, j :: 0 <= i < j < |items| ==> Place(items[i]) <= Place(items[j])
  }

  predicate Between(items: seq<Item>, low: nat, high: nat) {
    forall x :: x in items ==> low <= Place(x) <= high
  }

  lemma OrderedConcat(a: seq<Item>, b: seq<Item>, low: nat, middle: nat, high: nat)
    requires Ordered(a) && Between(a, low, middle) && Ordered(b) && Between(b, middle, high) && low <= middle <= high
    ensures Ordered(a + b) && Between(a + b, low, high)
  {
    hide Place;
    forall i, j | 0 <= i < j < |a + b| ensures Place((a + b)[i]) <= Place((a + b)[j]) {
      if i < |a| { assert (a + b)[i] in a; }
      if j >= |a| { assert (a + b)[j] in b; }
    }
  }

  lemma {:induction false} AttributesInOrder(attributes: map<string, string>, order: seq<string>)
    requires forall k :: k in order ==> k in attributes
    ensures Ordered(AttributeItems(attributes, order)) && Between(AttributeItems(attributes, order), 10, 10)
  {
    if order != [] {
      AttributesInOrder(attributes, order[1..]);
      var first := [AttributeItem(order[0], attributes[order[0]])];
      OrderedConcat(first, AttributeItems(attributes, order[1..]), 10, 10, 10);
    }
  }

  lemma {:induction false} RTPMapsInOrder(maps: map<int, RTPMap>, order: seq<int>)
    requires forall k :: k in order ==> k in maps
    ensures Ordered(RTPMapItems(maps, order)) && Between(RTPMapItems(maps, order), 11, 11)
  {
    if order != [] {
      var k := order[0];
      assert k in order;
      RTPMapsInOrder(maps, order[1..]);
      OrderedConcat([RTPMapItem(maps[k])], RTPMapItems(maps, order[1..]), 11, 11, 11);
    }
  }

  lemma {:induction false} BandwidthsInOrder(bs: seq<Bandwidth>)
    ensures Ordered(BandwidthItems(bs)) && Between(BandwidthItems(bs), 8, 8)
  {
    if bs != [] {
      BandwidthsInOrder(bs[1..]);
      OrderedConcat([BandwidthItem(bs[0])], BandwidthItems(bs[1..]), 8, 8, 8);
    }
  }

  /** The session section is printed in the order of the standard, and so is what follows each m= line. */
  lemma PrintedInOrder(s: Session, order: seq<string>, m: Media, o: MediaOrder)
    requires forall k :: k in order ==> k in s.attributes
    requires MediaOrderOf(m, o)
    ensures Ordered(SessionItems(s, order))
    ensures Ordered(MediaBody(m, o)) && MediaItems(m, o)[0] == MediaItem(m.mediaType, m.port, m.protocol, m.format)
  {
    HeadInOrder(s);
    BandwidthsInOrder(s.bandwidth);
    AttributesInOrder(s.attributes, order);
    BandwidthsInOrder(m.bandwidth);
    AttributesInOrder(m.attributes, o.attributes);
    RTPMapsInOrder(m.rtpMap, o.rtpMaps);
    SingleItems(s.connection, s.timing);
    SingleItems(m.connection, None);
    TitleInOrder(m.title);
    hide Ordered, Between, HeadItems, ConnectionItems, BandwidthItems, TimingItems, AttributeItems;
    hide RTPMapItems, TextItems;
    var a := HeadItems(s) + ConnectionItems(s.connection);
    OrderedConcat(HeadItems(s), ConnectionItems(s.connection), 0, 7, 7);
    OrderedConcat(a, BandwidthItems(s.bandwidth), 0, 8, 8);
    OrderedConcat(a + BandwidthItems(s.bandwidth), TimingItems(s.timing), 0, 9, 9);
    var t := a + BandwidthItems(s.bandwidth) + TimingItems(s.timing);
    OrderedConcat(t, AttributeItems(s.attributes, order), 0, 10, 10);
    var b := TextItems(InfoItem(m.title), m.title) + ConnectionItems(m.connection);
    OrderedConcat(TextItems(InfoItem(m.title), m.title), ConnectionItems(m.connection), 3, 7, 7);
    OrderedConcat(b, BandwidthItems(m.bandwidth), 3, 8, 8);
    OrderedConcat(b + BandwidthItems(m.bandwidth), AttributeItems(m.attributes, o.attributes), 3, 10, 10);
    OrderedConcat(b + BandwidthItems(m.bandwidth) + AttributeItems(m.attributes, o.attributes),
                  RTPMapItems(m.rtpMap, o.rtpMaps), 3, 11, 11);
  }

  lemma SingleItems(c: Option<Connection>, t: Option<Timing>)
    ensures Ordered(ConnectionItems(c)) && Between(ConnectionItems(c), 7, 7) && Between(ConnectionItems(c), 7, 8)
    ensures Ordered(TimingItems(t)) && Between(TimingItems(t), 9, 9)
  {
  }

  lemma TitleInOrder(title: string)
    ensures Ordered(TextItems(InfoItem(title), title)) && Between(TextItems(InfoItem(title), title), 3, 7)
  {
  }

  lemma TextInOrder(item: Item, text: string)
    requires Place(item) > 0
    ensures Ordered(TextItems(item, text)) && Between(TextItems(item, text), Place(item) - 1, Place(item))
  {
    hide Place;
  }

  lemma FirstInOrder(s: Session)
    ensures Ordered([VersionItem(s.version)]) && Between([VersionItem(s.version)], 0, 0)
    ensures Ordered(OriginItems(s.origin)) && Between(OriginItems(s.origin), 0, 1)
    ensures Ordered([NameItem(s.sessionName)]) && Between([NameItem(s.sessionName)], 1, 2)
  {
  }

  lemma HeadInOrder(s: Session)
    ensures Ordered(HeadItems(s)) && Between(HeadItems(s), 0, 7)
  {
    FirstInOrder(s);
    var (info, uri) := (TextItems(InfoItem(s.sessionInfo), s.sessionInfo), TextItems(UriItem(s.uri), s.uri));
    var (email, phone) := (TextItems(EmailItem(s.email), s.email), TextItems(PhoneItem(s.phone), s.phone));
    TextInOrder(InfoItem(s.sessionInfo), s.sessionInfo);
    TextInOrder(UriItem(s.uri), s.uri);
    TextInOrder(EmailItem(s.email), s.email);
    TextInOrder(PhoneItem(s.phone), s.phone);
    hide Ordered, Between, TextItems, OriginItems;
    var a := [VersionItem(s.version)] + OriginItems(s.origin);
    OrderedConcat([VersionItem(s.version)], OriginItems(s.origin), 0, 0, 1);
    OrderedConcat(a, [NameItem(s.sessionName)], 0, 1, 2);
    OrderedConcat(a + [NameItem(s.sessionName)], info, 0, 2, 3);
    var b := a + [NameItem(s.sessionName)] + info;
    OrderedConcat(b, uri, 0, 3, 4);
    OrderedConcat(b + uri, email, 0, 4, 5);
    OrderedConcat(b + uri + email, phone, 0, 5, 6);
    Wider(HeadItems(s), 6);
  }

  lemma Wider(items: seq<Item>, high: nat)
    requires Between(items, 0, high)
    ensures Between(items, 0, high + 1)
  {
    hide Place;
  }
}
