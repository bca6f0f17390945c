/** RTSP messages (section 4 of RFC 2326): `Message.String` and `ParseMessage`. */
module RTSPMessage {
  import opened Results
  import opened MapOrder
  import opened GoStrings
  import opened Strconv

  datatype MessageType = Request | Response

  datatype Message = Message(
    kind: MessageType,
    method_: string,
    url: string,
    version: string,
    statusCode: int,
    statusText: string,
    headers: map<string, string>,
    body: string)

  datatype ParseError = NoFirstLine | InvalidFirstLine(line: string) | InvalidStatusCode(text: string)

  // ---------------------------------------------------------------------------
  // Reading lines
  // ---------------------------------------------------------------------------

  datatype LineRead = EOF | Line(text: string, rest: string)

  function DropCR(s: string): string {
    if s != "" && s[|s| - 1] == '\r' then s[..|s| - 1] else s
  }

  /** textproto's ReadLine: up to LF, without a CR before it; at the end, whatever is left. */
  function ReadLine(s: string): (r: LineRead)
    ensures r.Line? ==> |r.rest| < |s| && '\n' !in r.text
  {
    if s == "" then EOF
    else
      var i := IndexOf(s, '\n');
      if i == -1 then Line(s, "") else Line(DropCR(s[..i]), s[i + 1..])
  }

  lemma ReadLineCRLF(line: string, rest: string)
    requires '\n' !in line
    ensures ReadLine(line + CRLF + rest) == Line(line, rest)
  {
    var s := line + CRLF + rest;
    assert s == (line + ['\r']) + ['\n'] + rest;
    IndexOfFirst(line + ['\r'], '\n', rest);
    assert s[..|line| + 1] == line + ['\r'];
    assert (line + ['\r'])[..|line|] == line;
    assert s[|line| + 2..] == rest;
  }

  // ---------------------------------------------------------------------------
  // Parsing
  // ---------------------------------------------------------------------------

  function ParseFirstLine(line: string): Result<Message, ParseError> {
    var parts := Split(line, ' ');
    if |parts| < 3 then Err(InvalidFirstLine(line))
    else if HasPrefix(parts[0], "RTSP/") then
      var code := Atoi(parts[1]);
      if code.err != NoError then Err(InvalidStatusCode(parts[1]))
      else Ok(Message(Response, "", "", parts[0], code.value, Join(parts[2..], ' '), map[], ""))
    else Ok(Message(Request, parts[0], parts[1], parts[2], 0, "", map[], ""))
  }

  function StoreHeader(headers: map<string, string>, line: string): map<string, string> {
    var i := IndexOf(line, ':');
    if i == -1 then headers else headers[TrimSpace(line[..i]) := TrimSpace(line[i + 1..])]
  }

  /** The header loop: the headers, and the input after the blank line or at the end. */
  function ReadHeaders(s: string, headers: map<string, string>): (map<string, string>, string)
    decreases |s|
  {
    match ReadLine(s)
    case EOF => (headers, s)
    case Line(text, rest) =>
      if text == "" then (headers, rest) else ReadHeaders(rest, StoreHeader(headers, text))
  }

  function ReadBody(s: string): string {
    match ReadLine(s)
    case EOF => ""
    case Line(text, _) => text
  }

  /** The meaning of ParseMessage. */
  function Parsed(data: string): Result<Message, ParseError> {
    match ReadLine(data)
    case EOF => Err(NoFirstLine)
    case Line(first, rest) =>
      match ParseFirstLine(first)
      case Err(e) => Err(e)
      case Ok(m) =>
        var (headers, tail) := ReadHeaders(rest, map[]);
        Ok(m.(headers := headers, body := ReadBody(tail)))
  }

  // ---------------------------------------------------------------------------
  // Printing
  // ---------------------------------------------------------------------------

  function FirstLine(m: Message): string {
    if m.kind == Request then m.method_ + " " + m.url + " " + m.version
    else m.version + " " + Itoa(m.statusCode) + " " + m.statusText
  }

  function HeaderLine(key: string, value: string): string {
    key + ": " + value
  }

  function HeaderText(headers: map<string, string>, order: seq<string>): string
    requires forall k :: k in order ==> k in headers
  {
    if order == [] then ""
    else HeaderLine(order[0], headers[order[0]]) + CRLF + HeaderText(headers, order[1..])
  }

  /** The text of a message whose headers are visited in the given order. */
  function Printed(m: Message, order: seq<string>): string
    requires forall k :: k in order ==> k in m.headers
  {
    FirstLine(m) + CRLF + HeaderText(m.headers, order) + CRLF + m.body
  }

  /** `text` is one of the texts that `Message.String` may return. */
  ghost predicate IsPrinting(m: Message, text: string) {
    exists order :: IsOrder(order, m.headers.Keys) && text == Printed(m, order)
  }

  lemma {:induction false} HeaderTextSnoc(headers: map<string, string>, order: seq<string>, k: string)
    requires (forall x :: x in order ==> x in headers) && k in headers
    ensures HeaderText(headers, order + [k]) == HeaderText(headers, order) + HeaderLine(k, headers[k]) + CRLF
  {
    if order == [] {
      assert [k][1..] == [];
    } else {
      assert (order + [k])[1..] == order[1..] + [k];
      HeaderTextSnoc(headers, order[1..], k);
      var (a, b, c) := (HeaderLine(order[0], headers[order[0]]) + CRLF, HeaderText(headers, order[1..]),
                        HeaderLine(k, headers[k]) + CRLF);
      assert a + (b + c) == (a + b) + c;
    }
  }

  // ---------------------------------------------------------------------------
  // The range of the parser
  // ---------------------------------------------------------------------------

  ghost predicate HeadersWellFormed(headers: map<string, string>) {
    forall k :: k in headers ==>
      && Trimmed(k) && ':' !in k && '\n' !in k
      && Trimmed(headers[k]) && '\n' !in headers[k]
  }

  ghost predicate FirstLineWellFormed(m: Message) {
    match m.kind
    case Request =>
      && m.statusCode == 0 && m.statusText == ""
      && (forall c :: c in m.method_ + m.url + m.version ==> c != ' ' && c != '\n')
      && !HasPrefix(m.method_, "RTSP/")
    case Response =>
      && m.method_ == "" && m.url == ""
      && ' ' !in m.version && '\n' !in m.version && HasPrefix(m.version, "RTSP/")
      && IsInt64(m.statusCode)
      && '\n' !in m.statusText
  }

  /** Exactly the messages that ParseMessage can return. */
  ghost predicate WellFormed(m: Message) {
    FirstLineWellFormed(m) && HeadersWellFormed(m.headers) && '\n' !in m.body
  }

  lemma ParseFirstLineWellFormed(line: string)
    requires '\n' !in line && ParseFirstLine(line).Ok?
    ensures FirstLineWellFormed(ParseFirstLine(line).value)
  {
    var parts := Split(line, ' ');
    PartChars(line, ' ', 0);
    PartChars(line, ' ', 1);
    PartChars(line, ' ', 2);
    JoinTailAvoids(line, ' ', '\n', 2);
  }

  lemma StoreHeaderWellFormed(headers: map<string, string>, line: string)
    requires HeadersWellFormed(headers) && '\n' !in line
    ensures HeadersWellFormed(StoreHeader(headers, line))
  {
    var i := IndexOf(line, ':');
    if i != -1 {
      var (key, value) := (line[..i], line[i + 1..]);
      TrimSpaceChars(key);
      TrimSpaceChars(value);
      forall c | c in key ensures c in line {}
      forall c | c in value ensures c in line {}
    }
  }

  lemma TrimSpaceChars(s: string)
    ensures Trimmed(TrimSpace(s))
    ensures forall c :: c in TrimSpace(s) ==> c in s
  {
    hide TrimSpace, Trimmed;
    var o := TrimSpaceSound(s);
    var t := TrimSpace(s);
    forall c | c in t ensures c in s {
      var j :| 0 <= j < |t| && t[j] == c;
      assert s[o..o + |t|][j] == s[o + j];
    }
  }

  lemma {:induction false} ReadHeadersWellFormed(s: string, headers: map<string, string>)
    requires HeadersWellFormed(headers)
    ensures HeadersWellFormed(ReadHeaders(s, headers).0)
    decreases |s|
  {
    match ReadLine(s)
    case EOF =>
    case Line(text, rest) =>
      if text != "" {
        StoreHeaderWellFormed(headers, text);
        ReadHeadersWellFormed(rest, StoreHeader(headers, text));
      }
  }

  lemma ParsedWellFormed(data: string)
    requires Parsed(data).Ok?
    ensures WellFormed(Parsed(data).value)
  {
    var line := ReadLine(data);
    ParseFirstLineWellFormed(line.text);
    ReadHeadersWellFormed(line.rest, map[]);
  }

  // ---------------------------------------------------------------------------
  // Parsing what was printed
  // ---------------------------------------------------------------------------

  lemma FirstLineRoundTrip(m: Message)
    requires FirstLineWellFormed(m)
    ensures '\n' !in FirstLine(m)
    ensures ParseFirstLine(FirstLine(m)) == Ok(m.(headers := map[], body := ""))
  {
    if m.kind == Request {
      assert forall c :: c in m.method_ || c in m.url || c in m.version ==> c in m.method_ + m.url + m.version;
      SplitThree(m.method_, m.url, m.version);
      SplitNone(m.version, ' ');
    } else {
      AtoiOfItoa(m.statusCode);
      SplitThree(m.version, Itoa(m.statusCode), m.statusText);
      SplitSound(m.statusText, ' ');
      var parts := Split(FirstLine(m), ' ');
      assert parts[2..] == Split(m.statusText, ' ');
    }
  }

  lemma SplitThree(a: string, b: string, rest: string)
    requires ' ' !in a && ' ' !in b
    ensures Split(a + " " + b + " " + rest, ' ') == [a, b] + Split(rest, ' ')
  {
    assert a + " " + b + " " + rest == a + [' '] + (b + [' '] + rest);
    SplitCons(a, ' ', b + [' '] + rest);
    SplitCons(b, ' ', rest);
  }

  lemma HeaderLineParts(key: string, value: string)
    requires ':' !in key
    ensures IndexOf(HeaderLine(key, value), ':') == |key|
    ensures HeaderLine(key, value)[..|key|] == key
    ensures HeaderLine(key, value)[|key| + 1..] == " " + value
  {
    assert HeaderLine(key, value) == key + [':'] + (" " + value);
    IndexOfFirst(key, ':', " " + value);
  }

  lemma StoreHeaderLine(headers: map<string, string>, key: string, value: string)
    requires Trimmed(key) && ':' !in key && Trimmed(value)
    ensures StoreHeader(headers, HeaderLine(key, value)) == headers[key := value]
  {
    hide TrimSpace;
    hide IndexOf;
    hide HeaderLine;
    HeaderLineParts(key, value);
    TrimSpaceOfSpaced(value);
    TrimSpaceFixed(key);
  }

  lemma {:induction false} ReadHeadersRoundTrip(headers: map<string, string>, order: seq<string>, body: string,
                                                acc: map<string, string>)
    requires HeadersWellFormed(headers)
    requires forall k :: k in order ==> k in headers
    ensures ReadHeaders(HeaderText(headers, order) + CRLF + body, acc) == (Merge(acc, headers, order), body)
    decreases |order|
  {
    if order == [] {
      ReadLineCRLF("", body);
      assert HeaderText(headers, order) + CRLF + body == "" + CRLF + body;
    } else {
      var (k, v) := (order[0], headers[order[0]]);
      var rest := HeaderText(headers, order[1..]) + CRLF + body;
      assert HeaderText(headers, order) + CRLF + body == HeaderLine(k, v) + CRLF + rest;
      ReadLineCRLF(HeaderLine(k, v), rest);
      StoreHeaderLine(acc, k, v);
      ReadHeadersRoundTrip(headers, order[1..], body, acc[k := v]);
    }
  }

  lemma BodyRoundTrip(body: string)
    requires '\n' !in body
    ensures ReadBody(body) == body
  {
  }

  /** Parsing a printed text recovers first line and headers; the body is cut at its first line. */
  lemma ParsePrinted(m: Message, order: seq<string>)
    requires FirstLineWellFormed(m) && HeadersWellFormed(m.headers)
    requires IsOrder(order, m.headers.Keys)
    ensures Parsed(Printed(m, order)) == Ok(m.(body := ReadBody(m.body)))
  {
    var rest := HeaderText(m.headers, order) + CRLF + m.body;
    assert Printed(m, order) == FirstLine(m) + CRLF + rest;
    FirstLineRoundTrip(m);
    ReadLineCRLF(FirstLine(m), rest);
    ReadHeadersRoundTrip(m.headers, order, m.body, map[]);
    MergeAll(m.headers, order);
  }

  /** Every well-formed message is recovered from each of its printings. */
  lemma RoundTrip(m: Message, text: string)
    requires WellFormed(m) && IsPrinting(m, text)
    ensures Parsed(text) == Ok(m)
  {
    var order :| IsOrder(order, m.headers.Keys) && text == Printed(m, order);
    ParsePrinted(m, order);
    BodyRoundTrip(m.body);
  }

  /** For every message and each of its printings: it is recovered if and only if it is well-formed. */
  lemma ExactRoundTrip(m: Message, text: string)
    requires IsPrinting(m, text)
    ensures Parsed(text) == Ok(m) <==> WellFormed(m)
  {
    hide Parsed, WellFormed, IsPrinting;
    if WellFormed(m) {
      RoundTrip(m, text);
    }
    if Parsed(text) == Ok(m) {
      ParsedWellFormed(text);
    }
  }

  lemma ExampleCut(m: Message)
    requires m == Message(Response, "", "", "RTSP/1.0", 200, "OK", map[], "a\nb")
    ensures ReadBody(m.body) == "a" && FirstLineWellFormed(m)
  {
    assert m.version[..5] == "RTSP/";
    assert IndexOf(m.body, '\n') == 1 && m.body[..1] == "a";
  }

  /** A body of two lines does not come back. */
  lemma SecondLineIsLost(text: string)
    requires IsPrinting(Message(Response, "", "", "RTSP/1.0", 200, "OK", map[], "a\nb"), text)
    ensures Parsed(text) == Ok(Message(Response, "", "", "RTSP/1.0", 200, "OK", map[], "a"))
  {
    var m := Message(Response, "", "", "RTSP/1.0", 200, "OK", map[], "a\nb");
    hide Printed, Parsed;
    ExampleCut(m);
    hide ReadBody, FirstLineWellFormed;
    var order :| IsOrder(order, m.headers.Keys) && text == Printed(m, order);
    ParsePrinted(m, order);
  }

  /** Normal form: for every accepted text and every header order, parse, print and parse is stable. */
  lemma NormalForm(data: string, m: Message, text: string)
    ensures Parsed(data) == Ok(m) && IsPrinting(m, text) ==> Parsed(text) == Ok(m)
  {
    hide Parsed, IsPrinting, WellFormed;
    if Parsed(data) == Ok(m) && IsPrinting(m, text) {
      ParsedWellFormed(data);
      RoundTrip(m, text);
    }
  }

  /** The range of ParseMessage is exactly WellFormed. */
  lemma RangeIsWellFormed(m: Message)
    ensures WellFormed(m) <==> exists data :: Parsed(data) == Ok(m)
  {
    if WellFormed(m) {
      var order := OrderExists(m.headers.Keys);
      RoundTrip(m, Printed(m, order));
    }
    if data :| Parsed(data) == Ok(m) {
      ParsedWellFormed(data);
    }
  }

  /** The layout of a request and of a response with one header. */
  lemma OneHeaderText(m: Message, key: string, value: string, text: string)
    requires m.headers == map[key := value] && IsPrinting(m, text)
    ensures m.kind == Request ==>
              text == m.method_ + " " + m.url + " " + m.version + "\r\n" + key + ": " + value + "\r\n\r\n" + m.body
    ensures m.kind == Response ==>
              text == m.version + " " + Itoa(m.statusCode) + " " + m.statusText + "\r\n" + key + ": " + value
                      + "\r\n\r\n" + m.body
  {
    var order :| IsOrder(order, m.headers.Keys) && text == Printed(m, order);
    hide FirstLine, HeaderText;
    assert m.headers.Keys == {key};
    SingleOrder(order, key);
    OneHeader(m.headers, key, value);
    FirstLineLayout(m);
    Layout(FirstLine(m), key, value, m.body);
  }

  lemma OneHeader(headers: map<string, string>, key: string, value: string)
    requires headers == map[key := value]
    ensures HeaderText(headers, [key]) == HeaderLine(key, value) + CRLF
  {
    assert [key][1..] == [];
    assert HeaderText(headers, []) == "";
    hide HeaderLine;
  }

  lemma FirstLineLayout(m: Message)
    ensures m.kind == Request ==> FirstLine(m) == m.method_ + " " + m.url + " " + m.version
    ensures m.kind == Response ==> FirstLine(m) == m.version + " " + Itoa(m.statusCode) + " " + m.statusText
  {
    hide Itoa;
  }

  lemma Layout(first: string, key: string, value: string, body: string)
    ensures first + CRLF + (HeaderLine(key, value) + CRLF) + CRLF + body
         == first + "\r\n" + key + ": " + value + "\r\n\r\n" + body
  {
    var (a, b) := (first + CRLF, key + ": " + value);
    assert a + (b + CRLF) + CRLF == a + b + (CRLF + CRLF);
    assert a + b == a + key + ": " + value;
    assert CRLF + CRLF == "\r\n\r\n";
  }
}
