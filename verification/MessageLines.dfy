/**
 What arbitrary RTSP messages are parsed as, and not only printed ones: any spacing around header values,
 any words in the first line, lines that are no headers.
 */
module MessageLines {
  import opened Results
  import opened GoStrings
  import opened Strconv
  import opened RTSPMessage

  // ---------------------------------------------------------------------------
  // First lines
  // ---------------------------------------------------------------------------

  /** The first three words of a request count; what follows them does not matter. */
  lemma RequestLineMeans(method_: string, url: string, version: string, tail: string)
    requires ' ' !in method_ && ' ' !in url && ' ' !in version && Tail(tail, ' ') && !HasPrefix(method_, "RTSP/")
    ensures ParseFirstLine(Join([method_, url, version], ' ') + tail)
         == Ok(Message(Request, method_, url, version, 0, "", map[], ""))
  {
    hide Split, Join, HasPrefix, Atoi;
    var words := [method_, url, version];
    SplitWords(words, tail, ' ');
    var parts := Split(Join(words, ' ') + tail, ' ');
    assert parts[0] == words[0] && parts[1] == words[1] && parts[2] == words[2];
  }

  /** A response: its code must be a number, and its text is everything behind it. */
  lemma StatusLineMeans(version: string, code: string, text: string)
    requires ' ' !in version && ' ' !in code && HasPrefix(version, "RTSP/")
    ensures ParseFirstLine(version + " " + code + " " + text)
         == if Atoi(code).err != NoError then Err(InvalidStatusCode(code))
            else Ok(Message(Response, "", "", version, Atoi(code).value, text, map[], ""))
  {
    hide Split, Join, HasPrefix, Atoi;
    SplitThree(version, code, text);
    SplitSound(text, ' ');
    var parts := [version, code] + Split(text, ' ');
    assert parts[2..] == Split(text, ' ');
  }

  /** A first line of fewer than three words is refused, and no other error is possible for a request. */
  lemma ShortFirstLine(line: string)
    ensures ParseFirstLine(line) == Err(InvalidFirstLine(line)) <==> Occurrences(line, ' ') < 2
  {
    hide Split, Join, HasPrefix, Atoi, Occurrences;
    PieceCount(line, ' ');
  }

  // ---------------------------------------------------------------------------
  // Header lines
  // ---------------------------------------------------------------------------

  /** Whatever stands around the colon, the value is what follows it without white space at its ends. */
  lemma HeaderLineMeans(headers: map<string, string>, key: string, value: string)
    requires ':' !in key
    ensures StoreHeader(headers, key + ":" + value) == headers[TrimSpace(key) := TrimSpace(value)]
    ensures Trimmed(key) ==> StoreHeader(headers, key + ":" + value) == headers[key := TrimSpace(value)]
  {
    hide IndexOf, TrimSpace, Trimmed;
    var line := key + ":" + value;
    assert line == key + [':'] + value;
    IndexOfFirst(key, ':', value);
    assert line[..|key|] == key && line[|key| + 1..] == value;
    if Trimmed(key) {
      TrimSpaceFixed(key);
    }
  }

  /** No white space, one blank or several, tabs, on either side of the value or around the name: it is all the same. */
  lemma SpacingDoesNotMatter(headers: map<string, string>, a: string, key: string, b: string, c: string, value: string,
                             d: string)
    requires White(a) && White(b) && White(c) && White(d) && ':' !in key && Trimmed(key) && Trimmed(value)
    ensures StoreHeader(headers, a + key + b + ":" + (c + value + d)) == headers[key := value]
  {
    hide StoreHeader, TrimSpace, Trimmed;
    WhiteHasNoColon(a);
    WhiteHasNoColon(b);
    HeaderLineMeans(headers, a + key + b, c + value + d);
    TrimWhite(a, key, b);
    TrimWhite(c, value, d);
  }

  lemma WhiteHasNoColon(w: string)
    requires White(w)
    ensures ':' !in w
  {
  }

  /** A line without a colon is skipped. */
  lemma NoHeaderLine(headers: map<string, string>, line: string)
    requires ':' !in line
    ensures StoreHeader(headers, line) == headers
  {
  }

  /** The headers after some lines, one stored after the other. */
  function StoreAll(headers: map<string, string>, lines: seq<string>): map<string, string>
    decreases |lines|
  {
    if lines == [] then headers else StoreAll(StoreHeader(headers, lines[0]), lines[1..])
  }

  /** A line as it is written: its text, and a line feed with or without a carriage return before it. */
  datatype Ended = Ended(text: string, end: string)

  predicate LineOk(l: Ended) {
    '\n' !in l.text && (l.end == CRLF || (l.end == "\n" && (l.text == "" || l.text[|l.text| - 1] != '\r')))
  }

  predicate HeaderLines(ls: seq<Ended>) {
    forall l :: l in ls ==> LineOk(l) && l.text != ""
  }

  function TextOf(ls: seq<Ended>): string {
    if ls == [] then "" else ls[0].text + ls[0].end + TextOf(ls[1..])
  }

  function Texts(ls: seq<Ended>): seq<string> {
    if ls == [] then [] else [ls[0].text] + Texts(ls[1..])
  }

  lemma ReadEnded(l: Ended, rest: string)
    requires LineOk(l)
    ensures ReadLine(l.text + l.end + rest) == Line(l.text, rest)
  {
    if l.end == CRLF {
      ReadLineCRLF(l.text, rest);
    } else {
      var s := l.text + l.end + rest;
      assert s == l.text + ['\n'] + rest;
      IndexOfFirst(l.text, '\n', rest);
      assert s[..|l.text|] == l.text && s[|l.text| + 1..] == rest;
    }
  }

  lemma ReadOneHeader(l: Ended, rest: string, headers: map<string, string>)
    requires LineOk(l)
    ensures ReadHeaders(l.text + l.end + rest, headers)
         == if l.text == "" then (headers, rest) else ReadHeaders(rest, StoreHeader(headers, l.text))
  {
    hide StoreHeader, LineOk;
    ReadEnded(l, rest);
    hide ReadLine;
  }

  lemma TextHead(ls: seq<Ended>, more: string)
    requires ls != []
    ensures TextOf(ls) + more == ls[0].text + ls[0].end + (TextOf(ls[1..]) + more)
  {
  }

  lemma {:induction false} ReadHeaderLines(headers: map<string, string>, ls: seq<Ended>, blank: Ended, body: string)
    requires HeaderLines(ls) && LineOk(blank) && blank.text == ""
    ensures ReadHeaders(TextOf(ls) + (blank.end + body), headers) == (StoreAll(headers, Texts(ls)), body)
    decreases |ls|
  {
    hide StoreHeader, ReadHeaders, LineOk;
    if ls == [] {
      assert TextOf(ls) + (blank.end + body) == blank.text + blank.end + body;
      ReadOneHeader(blank, body, headers);
    } else {
      assert ls[0] in ls && forall l :: l in ls[1..] ==> l in ls;
      TextHead(ls, blank.end + body);
      hide TextOf;
      ReadOneHeader(ls[0], TextOf(ls[1..]) + (blank.end + body), headers);
      ReadHeaderLines(StoreHeader(headers, ls[0].text), ls[1..], blank, body);
      assert Texts(ls)[1..] == Texts(ls[1..]);
    }
  }

  /** The text of a whole message. */
  function Whole(first: Ended, ls: seq<Ended>, blank: Ended, body: string): string {
    first.text + first.end + (TextOf(ls) + (blank.end + body))
  }

  /** The message of an arbitrary first line, arbitrary header lines and a body, however the lines end. */
  lemma ParsedLines(first: Ended, ls: seq<Ended>, blank: Ended, body: string)
    requires LineOk(first) && HeaderLines(ls) && LineOk(blank) && blank.text == ""
    ensures Parsed(Whole(first, ls, blank, body))
         == match ParseFirstLine(first.text)
            case Err(e) => Err(e)
            case Ok(m) => Ok(m.(headers := StoreAll(map[], Texts(ls)), body := ReadBody(body)))
  {
    hide ParseFirstLine, ReadHeaders, ReadBody, StoreAll, HeaderLines, LineOk, TextOf, Texts;
    ReadEnded(first, TextOf(ls) + (blank.end + body));
    hide ReadLine;
    ReadHeaderLines(map[], ls, blank, body);
  }

  /** The body ends at its first line end, if it has one. */
  lemma BodyMeans(l: Ended, more: string)
    requires LineOk(l)
    ensures ReadBody(l.text + l.end + more) == l.text && ReadBody(l.text) == l.text
  {
    ReadEnded(l, more);
  }

  lemma {:induction false} StoreAllAppend(headers: map<string, string>, lines: seq<string>, line: string)
    ensures StoreAll(headers, lines + [line]) == StoreHeader(StoreAll(headers, lines), line)
    decreases |lines|
  {
    hide StoreHeader;
    if lines == [] {
      assert [line][1..] == [];
      assert StoreAll(StoreHeader(headers, line), []) == StoreHeader(headers, line);
    } else {
      assert (lines + [line])[1..] == lines[1..] + [line];
      StoreAllAppend(StoreHeader(headers, lines[0]), lines[1..], line);
    }
  }

  lemma {:induction false} TextsSnoc(ls: seq<Ended>, l: Ended)
    ensures Texts(ls + [l]) == Texts(ls) + [l.text]
  {
    if ls == [] {
      assert [l][1..] == [] && ls + [l] == [l];
      assert Texts([]) == [];
    } else {
      assert (ls + [l])[1..] == ls[1..] + [l];
      TextsSnoc(ls[1..], l);
    }
  }

  /** One more header line in a message: of lines with one key the last counts, and others stay. */
  lemma OneMoreHeader(first: Ended, ls: seq<Ended>, key: string, value: string, l: Ended, blank: Ended, body: string,
                      m: Message)
    requires LineOk(first) && HeaderLines(ls) && LineOk(blank) && blank.text == ""
    requires ':' !in key && Trimmed(key) && l.text == key + ":" + value && LineOk(l)
    requires Parsed(Whole(first, ls, blank, body)) == Ok(m)
    ensures Parsed(Whole(first, ls + [l], blank, body)) == Ok(m.(headers := m.headers[key := TrimSpace(value)]))
  {
    hide Parsed, ParseFirstLine, ReadBody, StoreAll, StoreHeader, TrimSpace, Trimmed, LineOk, Texts;
    assert l.text[|key|] == ':';
    ParsedLines(first, ls, blank, body);
    ParsedLines(first, ls + [l], blank, body);
    TextsSnoc(ls, l);
    StoreAllAppend(map[], Texts(ls), l.text);
    HeaderLineMeans(StoreAll(map[], Texts(ls)), key, value);
  }

  /** Nothing at all is an error of its own, and a text without a line end is a first line. */
  lemma WithoutLines(line: string)
    requires '\n' !in line && line != ""
    ensures Parsed("") == Err(NoFirstLine)
    ensures Parsed(line) == match ParseFirstLine(line)
                            case Err(e) => Err(e)
                            case Ok(m) => Ok(m.(headers := map[], body := ""))
  {
    hide ParseFirstLine;
  }
}
