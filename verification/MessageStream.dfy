/** Framing of RTSP messages on a connection (section 4.4 of RFC 2326): the proxy's reader and writer. */
module MessageStream {
  import opened Results
  import opened MapOrder
  import opened GoStrings
  import opened Strconv
  import opened RTSPMessage
  import opened MessageObjects

  datatype ReadError = LineCut | BodyCut | BadMessage(error: ParseError)

  const CONTENT_LENGTH: string := "content-length"

  // ---------------------------------------------------------------------------
  // Reading
  // ---------------------------------------------------------------------------

  /** strings.TrimRight(s, "\r\n"). */
  function TrimCRLF(s: string): string {
    if s != "" && (s[|s| - 1] == '\r' || s[|s| - 1] == '\n') then TrimCRLF(s[..|s| - 1]) else s
  }

  function LowerChar(c: char): char {
    if 'A' <= c <= 'Z' then (c as int + 32) as char else c
  }

  /**
   `s` begins with `prefix` up to the case of ASCII letters; `prefix` is in lower case. This is Go's
   test for a prefix without i and k, the only ASCII letters that have non-ASCII capitals.
   */
  predicate HasPrefixFold(s: string, prefix: string) {
    |prefix| <= |s| && forall i :: 0 <= i < |prefix| ==> LowerChar(s[i]) == prefix[i]
  }

  /** getHeaderValue for Content-Length: the value on the first line with that name, or "". */
  function ContentLengthValue(lines: seq<string>): string {
    if lines == [] then ""
    else if HasPrefixFold(lines[0], CONTENT_LENGTH + ":") then TrimSpace(lines[0][|CONTENT_LENGTH| + 1..])
    else ContentLengthValue(lines[1..])
  }

  /** The number of body bytes that a Content-Length value asks for. */
  function LengthOf(value: string): nat {
    var n := Atoi(value);
    if value != "" && n.err == NoError && n.value > 0 then n.value else 0
  }

  datatype HeaderRead = NoBlankLine | HeaderLines(lines: seq<string>, rest: string)

  /** The lines before the first blank line, and the input after it. */
  function ReadHeaderLines(input: string): HeaderRead
    decreases |input|
  {
    var i := IndexOf(input, '\n');
    if i == -1 then NoBlankLine
    else
      var line := TrimCRLF(input[..i + 1]);
      if line == "" then HeaderLines([], input[i + 1..])
      else
        match ReadHeaderLines(input[i + 1..])
        case NoBlankLine => NoBlankLine
        case HeaderLines(lines, rest) => HeaderLines([line] + lines, rest)
  }

  function JoinCRLF(lines: seq<string>): string {
    if lines == [] then "" else if |lines| == 1 then lines[0] else lines[0] + CRLF + JoinCRLF(lines[1..])
  }

  /** One call of ReadMessage: what it returns, and what it leaves on the connection. */
  function ReadOne(input: string): (Result<Message, ReadError>, string) {
    match ReadHeaderLines(input)
    case NoBlankLine => (Err(LineCut), "")
    case HeaderLines(lines, rest) =>
      var n := LengthOf(ContentLengthValue(lines));
      if n > |rest| then (Err(BodyCut), "")
      else
        match Parsed(JoinCRLF(lines) + CRLF + CRLF + rest[..n])
        case Err(e) => (Err(BadMessage(e)), rest[n..])
        case Ok(m) => (Ok(m), rest[n..])
  }

  class RTSPReader {
    /** The bytes that the peer has sent and that were not consumed yet. */
    var input: string

    constructor (input: string)
      ensures this.input == input
    {
      this.input := input;
    }

    method ReadMessage() returns (r: Result<MessageObject, ReadError>)
      modifies this
      ensures input == ReadOne(old(input)).1
      ensures r.Err? ==> ReadOne(old(input)).0 == Err(r.error)
      ensures r.Ok? ==> fresh(r.value) && ReadOne(old(input)).0 == Ok(r.value.Value())
    {
      hide TrimCRLF, JoinCRLF, Parsed, ContentLengthValue, IndexOf;
      var lines := [];
      while true
        invariant ReadHeaderLines(old(input)) == Prepend(lines, ReadHeaderLines(input))
        decreases |input|
      {
        var i := IndexOf(input, '\n');
        if i == -1 {
          input := "";
          return Err(LineCut);
        }
        var line := TrimCRLF(input[..i + 1]);
        input := input[i + 1..];
        if line == "" {
          break;
        }
        PrependSnoc(lines, line, ReadHeaderLines(input));
        lines := lines + [line];
      }
      assert ReadHeaderLines(old(input)) == HeaderLines(lines, input);
      var length := GetContentLength(lines);
      var n := Atoi(length);
      var body := "";
      if length != "" && n.err == NoError && n.value > 0 {
        if n.value > |input| {
          input := "";
          return Err(BodyCut);
        }
        body, input := input[..n.value], input[n.value..];
      }
      var message := ParseMessage(JoinCRLF(lines) + CRLF + CRLF + body);
      match message {
        case Err(e) => r := Err(BadMessage(e));
        case Ok(m) => r := Ok(m);
      }
    }

    /** getHeaderValue("Content-Length"). */
    method GetContentLength(lines: seq<string>) returns (value: string)
      ensures value == ContentLengthValue(lines)
    {
      for i := 0 to |lines|
        invariant ContentLengthValue(lines) == ContentLengthValue(lines[i..])
      {
        if HasPrefixFold(lines[i], CONTENT_LENGTH + ":") {
          return TrimSpace(lines[i][|CONTENT_LENGTH| + 1..]);
        }
      }
      value := "";
    }
  }

  class RTSPWriter {
    /** The bytes written so far. */
    var output: string

    constructor ()
      ensures output == ""
    {
      output := "";
    }

    method WriteMessage(message: MessageObject)
      modifies this
      ensures exists text :: IsPrinting(message.Value(), text) && output == old(output) + text
    {
      var text := message.ToString();
      output := output + text;
    }
  }

  function Prepend(lines: seq<string>, r: HeaderRead): HeaderRead {
    match r
    case NoBlankLine => NoBlankLine
    case HeaderLines(more, rest) => HeaderLines(lines + more, rest)
  }

  lemma PrependSnoc(lines: seq<string>, line: string, r: HeaderRead)
    ensures Prepend(lines, Prepend([line], r)) == Prepend(lines + [line], r)
  {
    if r.HeaderLines? {
      assert lines + ([line] + r.lines) == lines + [line] + r.lines;
    }
  }

  // ---------------------------------------------------------------------------
  // Reading what was written
  // ---------------------------------------------------------------------------

  predicate IsContentLength(key: string) {
    |key| == |CONTENT_LENGTH| && HasPrefixFold(key, CONTENT_LENGTH)
  }

  /** The lines that a printed message has before its blank line. */
  function LinesOf(m: Message, order: seq<string>): seq<string>
    requires forall k :: k in order ==> k in m.headers
  {
    [FirstLine(m)] + HeaderLineSeq(m.headers, order)
  }

  function HeaderLineSeq(headers: map<string, string>, order: seq<string>): seq<string>
    requires forall k :: k in order ==> k in headers
  {
    if order == [] then []
    else [HeaderLine(order[0], headers[order[0]])] + HeaderLineSeq(headers, order[1..])
  }

  /** A message whose first line and headers are one line each, as those of every parsed message. */
  ghost predicate Lined(m: Message) {
    FirstLineWellFormed(m) && HeadersLined(m.headers)
  }

  ghost predicate HeadersLined(headers: map<string, string>) {
    forall k :: k in headers ==> Trimmed(k) && ':' !in k && '\n' !in k && '\n' !in headers[k]
  }

  /** The headers as they are read: the values without white space at their ends. */
  function TrimmedHeaders(headers: map<string, string>): map<string, string> {
    map k | k in headers :: TrimSpace(headers[k])
  }

  /** The first line as it is read: without the CRs it ends in. */
  function TrimmedFirst(m: Message): Message {
    if m.kind == Request then m.(version := TrimCRLF(m.version)) else m.(statusText := TrimCRLF(m.statusText))
  }

  /** A message as it is read, with the given body. */
  function Seen(m: Message, body: string): Message {
    TrimmedFirst(m).(headers := TrimmedHeaders(m.headers), body := body)
  }

  /** The reader looks for Content-Length in the first line, too. */
  predicate FirstLineIsLength(m: Message) {
    HasPrefixFold(TrimCRLF(FirstLine(m)), CONTENT_LENGTH + ":")
  }

  /** The length that such a first line announces. */
  function FirstLineLength(m: Message): nat
    requires FirstLineIsLength(m)
  {
    LengthOf(TrimSpace(TrimCRLF(FirstLine(m))[|CONTENT_LENGTH| + 1..]))
  }

  /** The body length that the headers announce, when they are visited in the given order. */
  function AnnouncedInHeaders(headers: map<string, string>, order: seq<string>): nat
    requires forall k :: k in order ==> k in headers
  {
    if order == [] then 0
    else if IsContentLength(order[0]) then LengthOf(TrimSpace(headers[order[0]]))
    else AnnouncedInHeaders(headers, order[1..])
  }

  /** The body length that a printed message announces. */
  function Announced(m: Message, order: seq<string>): nat
    requires forall k :: k in order ==> k in m.headers
  {
    if FirstLineIsLength(m) then FirstLineLength(m) else AnnouncedInHeaders(m.headers, order)
  }

  /**
   A message that survives the connection: every Content-Length (however it is capitalised) announces
   the length of the body, and without one the body is empty.
   */
  ghost predicate Framed(m: Message) {
    && Lined(m)
    && if FirstLineIsLength(m) then FirstLineLength(m) == |m.body|
       else
         && (forall k :: k in m.headers && IsContentLength(k) ==> LengthOf(TrimSpace(m.headers[k])) == |m.body|)
         && ((forall k :: k in m.headers ==> !IsContentLength(k)) ==> m.body == "")
  }

  // Lines, and the CRs they end in.

  predicate EndOfLine(c: char) {
    c == '\r' || c == '\n'
  }

  /** A line that is read as one line, and not as the blank one. */
  predicate WholeLine(line: string) {
    '\n' !in line && exists c :: c in line && !EndOfLine(c)
  }

  function AllTrimmed(lines: seq<string>): seq<string> {
    if lines == [] then [] else [TrimCRLF(lines[0])] + AllTrimmed(lines[1..])
  }

  lemma {:induction false} TrimCRLFTail(p: string, c: char, v: string)
    requires !EndOfLine(c)
    ensures TrimCRLF(p + [c] + v) == p + [c] + TrimCRLF(v)
    decreases |v|
  {
    var s := p + [c] + v;
    if v == "" {
      assert s == p + [c];
    } else {
      assert s[|s| - 1] == v[|v| - 1];
      assert s[..|s| - 1] == p + [c] + v[..|v| - 1];
      TrimCRLFTail(p, c, v[..|v| - 1]);
    }
  }

  lemma {:induction false} TrimCRLFNotEmpty(line: string)
    requires exists c :: c in line && !EndOfLine(c)
    ensures TrimCRLF(line) != ""
  {
    if EndOfLine(line[|line| - 1]) {
      var c :| c in line && !EndOfLine(c);
      assert c in line[..|line| - 1];
      TrimCRLFNotEmpty(line[..|line| - 1]);
    }
  }

  lemma TrimEndOfLine(line: string)
    ensures TrimCRLF(line + CRLF) == TrimCRLF(line)
  {
    var s := line + CRLF;
    assert s[..|s| - 1] == line + ['\r'];
    assert (line + ['\r'])[..|line|] == line;
  }

  lemma {:induction false} TrimCRLFAvoids(s: string)
    ensures TrimCRLF(s) <= s
  {
    if s != "" && EndOfLine(s[|s| - 1]) {
      TrimCRLFAvoids(s[..|s| - 1]);
    }
  }

  /** White space around a value does not include its CRs twice. */
  lemma TrimLeftSnoc(s: string, c: char)
    requires IsAsciiSpace(c)
    ensures TrimLeft(s + [c]) == if TrimLeft(s) == "" then "" else TrimLeft(s) + [c]
    decreases |s|
  {
    var n := SpaceAtFront(s);
    if s == "" {
      assert SpaceAtFront([c]) == 1 && [c][1..] == "";
      assert s + [c] == [c];
    } else {
      assert SpaceAtFront(s + [c]) == n;
      if n > 0 {
        assert (s + [c])[n..] == s[n..] + [c];
        TrimLeftSnoc(s[n..], c);
      }
    }
  }

  lemma TrimRightSnoc(s: string, c: char)
    requires IsAsciiSpace(c)
    ensures TrimRight(s + [c]) == TrimRight(s)
  {
    assert (s + [c])[..|s|] == s;
    assert SpaceAtBack(s + [c]) == 1;
  }

  lemma TrimSpaceSnoc(s: string, c: char)
    requires IsAsciiSpace(c)
    ensures TrimSpace(s + [c]) == TrimSpace(s)
  {
    assert TrimRight("") == "";
    hide TrimLeft, TrimRight;
    TrimLeftSnoc(s, c);
    TrimRightSnoc(TrimLeft(s), c);
  }

  lemma {:induction false} TrimSpaceOfTrimmed(v: string)
    requires '\n' !in v
    ensures TrimSpace(TrimCRLF(v)) == TrimSpace(v)
  {
    hide TrimSpace;
    if v != "" && v[|v| - 1] == '\r' {
      var w := v[..|v| - 1];
      assert v == w + ['\r'];
      TrimSpaceSnoc(w, '\r');
      TrimSpaceOfTrimmed(w);
    }
  }

  lemma SpaceBefore(v: string)
    ensures TrimSpace(" " + v) == TrimSpace(v)
  {
    assert (" " + v)[1..] == v;
    assert SpaceAtFront(" " + v) == 1;
  }

  lemma ReadBlankLine(rest: string)
    ensures ReadHeaderLines(CRLF + rest) == HeaderLines([], rest)
  {
    var s := CRLF + rest;
    assert s == ['\r'] + ['\n'] + rest;
    IndexOfFirst(['\r'], '\n', rest);
    assert s[..2] == CRLF && s[2..] == rest;
    assert CRLF[..1] == ['\r'] && ['\r'][..0] == "";
    assert TrimCRLF(CRLF) == TrimCRLF(['\r']) == "";
  }

  lemma ReadWholeLine(line: string, tail: string)
    requires WholeLine(line)
    ensures ReadHeaderLines(line + CRLF + tail) == Prepend([TrimCRLF(line)], ReadHeaderLines(tail))
  {
    var s := line + CRLF + tail;
    assert s == (line + ['\r']) + ['\n'] + tail;
    IndexOfFirst(line + ['\r'], '\n', tail);
    assert s[..|line| + 2] == line + CRLF && s[|line| + 2..] == tail;
    TrimEndOfLine(line);
    TrimCRLFNotEmpty(line);
    hide TrimCRLF;
  }

  lemma {:induction false} ReadUnlines(lines: seq<string>, rest: string)
    requires forall l :: l in lines ==> WholeLine(l)
    ensures ReadHeaderLines(Unlines(lines) + CRLF + rest) == HeaderLines(AllTrimmed(lines), rest)
  {
    hide ReadHeaderLines, WholeLine, TrimCRLF;
    if lines == [] {
      assert Unlines(lines) + CRLF + rest == CRLF + rest;
      ReadBlankLine(rest);
    } else {
      var tail := Unlines(lines[1..]) + CRLF + rest;
      assert lines[0] in lines;
      assert Unlines(lines) + CRLF + rest == lines[0] + CRLF + tail;
      ReadWholeLine(lines[0], tail);
      ReadUnlines(lines[1..], rest);
    }
  }

  lemma {:induction false} JoinIsUnlines(lines: seq<string>)
    requires lines != []
    ensures JoinCRLF(lines) + CRLF == Unlines(lines)
  {
    if |lines| > 1 {
      JoinIsUnlines(lines[1..]);
    }
  }

  lemma {:induction false} HeaderTextIsUnlines(headers: map<string, string>, order: seq<string>)
    requires forall k :: k in order ==> k in headers
    ensures HeaderText(headers, order) == Unlines(HeaderLineSeq(headers, order))
  {
    if order != [] {
      HeaderTextIsUnlines(headers, order[1..]);
    }
  }

  lemma PrintedIsUnlines(m: Message, order: seq<string>)
    requires forall k :: k in order ==> k in m.headers
    ensures Printed(m, order) == Unlines(LinesOf(m, order)) + CRLF + m.body
  {
    HeaderTextIsUnlines(m.headers, order);
  }

  // Header lines.

  lemma HeaderLineIsWhole(key: string, value: string)
    requires '\n' !in key && '\n' !in value
    ensures WholeLine(HeaderLine(key, value))
    ensures TrimCRLF(HeaderLine(key, value)) == HeaderLine(key, TrimCRLF(value))
  {
    var line := HeaderLine(key, value);
    assert line == (key + ":") + [' '] + value;
    assert line[|key|] == ':';
    TrimCRLFTail(key + ":", ' ', value);
    assert HeaderLine(key, TrimCRLF(value)) == (key + ":") + [' '] + TrimCRLF(value);
  }

  lemma {:induction false} HeaderLinesAreWhole(headers: map<string, string>, order: seq<string>)
    requires HeadersLined(headers)
    requires forall k :: k in order ==> k in headers
    ensures forall l :: l in HeaderLineSeq(headers, order) ==> WholeLine(l)
  {
    hide WholeLine, HeaderLine;
    if order != [] {
      HeaderLineIsWhole(order[0], headers[order[0]]);
      HeaderLinesAreWhole(headers, order[1..]);
    }
  }

  lemma FoldedKey(key: string, value: string)
    requires ':' !in key
    ensures HasPrefixFold(HeaderLine(key, value), CONTENT_LENGTH + ":") <==> IsContentLength(key)
  {
    var line := HeaderLine(key, value);
    var prefix := CONTENT_LENGTH + ":";
    assert line[|key|] == ':' && line[..|key|] == key;
    assert forall i :: 0 <= i < 14 ==> prefix[i] == CONTENT_LENGTH[i];
    assert ':' !in CONTENT_LENGTH && prefix[14] == ':';
    assert forall i :: 0 <= i < |key| ==> line[i] == key[i];
    assert |key| < 14 ==> LowerChar(line[|key|]) == ':';
    assert |key| > 14 ==> LowerChar(line[14]) != ':';
  }

  /** The value of a header line, however it was trimmed. */
  lemma HeaderLineValue(key: string, value: string)
    requires ':' !in key && '\n' !in value
    ensures var line := HeaderLine(key, TrimCRLF(value));
            line[..|key|] == key && TrimSpace(line[|key| + 1..]) == TrimSpace(value)
  {
    hide TrimSpace, TrimCRLF, HeaderLine, IndexOf;
    var v := TrimCRLF(value);
    HeaderLineParts(key, v);
    SpaceBefore(v);
    TrimSpaceOfTrimmed(value);
  }

  lemma {:induction false} ContentLengthOfHeaders(headers: map<string, string>, order: seq<string>)
    requires HeadersLined(headers)
    requires forall k :: k in order ==> k in headers
    ensures LengthOf(ContentLengthValue(AllTrimmed(HeaderLineSeq(headers, order))))
         == AnnouncedInHeaders(headers, order)
  {
    hide TrimSpace, TrimCRLF, LengthOf, HasPrefixFold, IsContentLength, HeaderLine;
    if order == [] {
      NoLength();
    } else {
      var (k, v) := (order[0], headers[order[0]]);
      HeaderLineIsWhole(k, v);
      FoldedKey(k, TrimCRLF(v));
      HeaderLineValue(k, v);
      LengthKey(k);
      ContentLengthOfHeaders(headers, order[1..]);
      TrimmedCons(HeaderLine(k, v), HeaderLineSeq(headers, order[1..]));
    }
  }

  lemma NoLength()
    ensures LengthOf("") == 0
  {
  }

  lemma LengthKey(key: string)
    ensures IsContentLength(key) ==> |key| == |CONTENT_LENGTH|
  {
  }

  lemma TrimmedCons(line: string, lines: seq<string>)
    ensures AllTrimmed([line] + lines) == [TrimCRLF(line)] + AllTrimmed(lines)
    ensures [TrimCRLF(line)] + AllTrimmed(lines) != [] && AllTrimmed([line] + lines)[1..] == AllTrimmed(lines)
  {
    hide TrimCRLF;
    assert ([line] + lines)[1..] == lines;
  }

  // The first line.

  /** A first line, split at its last space. */
  lemma FirstLineEnd(m: Message) returns (head: string, tail: string)
    ensures FirstLine(m) == head + [' '] + tail
    ensures tail == if m.kind == Request then m.version else m.statusText
    ensures FirstLine(TrimmedFirst(m)) == head + [' '] + TrimCRLF(tail)
  {
    hide Itoa, TrimCRLF;
    head, tail := if m.kind == Request then m.method_ + " " + m.url else m.version + " " + Itoa(m.statusCode),
                  if m.kind == Request then m.version else m.statusText;
  }

  lemma TrimmedIsWellFormed(m: Message)
    requires FirstLineWellFormed(m)
    ensures FirstLineWellFormed(TrimmedFirst(m))
  {
    var tail := if m.kind == Request then m.version else m.statusText;
    TrimCRLFAvoids(tail);
    assert forall c :: c in TrimCRLF(tail) ==> c in tail;
    hide TrimCRLF, HasPrefix;
    if m.kind == Request {
      assert forall c :: c in m.method_ + m.url + TrimCRLF(m.version) ==> c in m.method_ + m.url + m.version;
    }
  }

  lemma TrimmedFirstLine(m: Message)
    requires FirstLineWellFormed(m)
    ensures WholeLine(FirstLine(m)) && TrimCRLF(FirstLine(m)) == FirstLine(TrimmedFirst(m))
    ensures FirstLineWellFormed(TrimmedFirst(m))
  {
    hide FirstLineWellFormed, FirstLine, TrimmedFirst, TrimCRLF;
    FirstLineRoundTrip(m);
    TrimmedIsWellFormed(m);
    var head, tail := FirstLineEnd(m);
    assert FirstLine(m)[|head|] == ' ';
    TrimCRLFTail(head, ' ', tail);
  }

  lemma LinesAreWhole(m: Message, order: seq<string>)
    requires Lined(m)
    requires forall k :: k in order ==> k in m.headers
    ensures forall l :: l in LinesOf(m, order) ==> WholeLine(l)
  {
    hide WholeLine, FirstLine, FirstLineWellFormed, HeadersLined;
    TrimmedFirstLine(m);
    HeaderLinesAreWhole(m.headers, order);
  }

  lemma Associative(a: string, b: string, c: string)
    ensures a + b + c == a + (b + c)
  {
  }

  lemma ReadPrintedLines(m: Message, order: seq<string>, rest: string)
    requires Lined(m)
    requires forall k :: k in order ==> k in m.headers
    ensures ReadHeaderLines(Printed(m, order) + rest) == HeaderLines(AllTrimmed(LinesOf(m, order)), m.body + rest)
  {
    hide ReadHeaderLines, WholeLine, LinesOf, AllTrimmed, Lined;
    LinesAreWhole(m, order);
    PrintedIsUnlines(m, order);
    Associative(Unlines(LinesOf(m, order)) + CRLF, m.body, rest);
    ReadUnlines(LinesOf(m, order), m.body + rest);
  }

  lemma AnnouncedByLines(m: Message, order: seq<string>)
    requires Lined(m)
    requires forall k :: k in order ==> k in m.headers
    ensures LengthOf(ContentLengthValue(AllTrimmed(LinesOf(m, order)))) == Announced(m, order)
  {
    hide TrimSpace, TrimCRLF, LengthOf, HasPrefixFold, FirstLine, HeadersLined, FirstLineWellFormed;
    ContentLengthOfHeaders(m.headers, order);
    TrimmedCons(FirstLine(m), HeaderLineSeq(m.headers, order));
  }

  // Parsing the lines that were read.

  lemma {:induction false} ReadTrimmedHeaders(headers: map<string, string>, order: seq<string>, body: string,
                                              acc: map<string, string>)
    requires HeadersLined(headers)
    requires forall k :: k in order ==> k in headers
    ensures ReadHeaders(Unlines(AllTrimmed(HeaderLineSeq(headers, order))) + CRLF + body, acc)
         == (Merge(acc, TrimmedHeaders(headers), order), body)
    decreases |order|
  {
    hide TrimSpace, TrimCRLF, HeaderLine;
    if order == [] {
      ReadLineCRLF("", body);
      assert Unlines(AllTrimmed(HeaderLineSeq(headers, order))) + CRLF + body == "" + CRLF + body;
    } else {
      var (k, v) := (order[0], headers[order[0]]);
      var line := HeaderLine(k, TrimCRLF(v));
      HeaderLineIsWhole(k, v);
      TrimmedCons(HeaderLine(k, v), HeaderLineSeq(headers, order[1..]));
      var rest := Unlines(AllTrimmed(HeaderLineSeq(headers, order[1..]))) + CRLF + body;
      assert Unlines(AllTrimmed(HeaderLineSeq(headers, order))) + CRLF + body == line + CRLF + rest;
      TrimmedLine(k, v);
      ReadLineCRLF(line, rest);
      StoreTrimmedLine(acc, k, v);
      ReadTrimmedHeaders(headers, order[1..], body, acc[k := TrimSpace(v)]);
    }
  }

  lemma TrimmedLine(key: string, value: string)
    requires '\n' !in key && '\n' !in value
    ensures HeaderLine(key, TrimCRLF(value)) != "" && '\n' !in HeaderLine(key, TrimCRLF(value))
  {
    TrimCRLFAvoids(value);
    hide TrimCRLF;
  }

  lemma StoreTrimmedLine(headers: map<string, string>, key: string, value: string)
    requires Trimmed(key) && ':' !in key && '\n' !in value
    ensures StoreHeader(headers, HeaderLine(key, TrimCRLF(value))) == headers[key := TrimSpace(value)]
  {
    hide TrimSpace, TrimCRLF, IndexOf, HeaderLine;
    HeaderLineParts(key, TrimCRLF(value));
    HeaderLineValue(key, value);
    TrimSpaceFixed(key);
  }

  /** Parsing a first line, header lines and the rest, when each part is known. */
  lemma ParsedFrom(first: string, m: Message, rest: string, headers: map<string, string>, body: string)
    requires '\n' !in first && ParseFirstLine(first) == Ok(m)
    requires ReadHeaders(rest, map[]) == (headers, body)
    ensures Parsed(first + CRLF + rest) == Ok(m.(headers := headers, body := ReadBody(body)))
  {
    hide ReadHeaders, ReadLine, ParseFirstLine, ReadBody;
    ReadLineCRLF(first, rest);
  }

  lemma ReadAllHeaders(m: Message, order: seq<string>, body: string)
    requires HeadersLined(m.headers) && IsOrder(order, m.headers.Keys)
    ensures ReadHeaders(Unlines(AllTrimmed(HeaderLineSeq(m.headers, order))) + CRLF + body, map[])
         == (TrimmedHeaders(m.headers), body)
  {
    hide TrimSpace, HeadersLined, AllTrimmed, ReadHeaders;
    ReadTrimmedHeaders(m.headers, order, body, map[]);
    assert TrimmedHeaders(m.headers).Keys == m.headers.Keys;
    hide TrimmedHeaders;
    MergeAll(TrimmedHeaders(m.headers), order);
  }

  /** The message that is parsed from the lines as they were read. */
  lemma ParseTrimmed(m: Message, order: seq<string>, body: string)
    requires Lined(m) && IsOrder(order, m.headers.Keys)
    ensures Parsed(JoinCRLF(AllTrimmed(LinesOf(m, order))) + CRLF + CRLF + body) == Ok(Seen(m, ReadBody(body)))
  {
    hide HeaderLineSeq, FirstLine, TrimmedFirst, FirstLineWellFormed, HeadersLined, AllTrimmed, WholeLine, TrimCRLF;
    hide ParseFirstLine, ReadHeaders, Parsed, TrimmedHeaders, JoinCRLF, ReadBody;
    var headerLines := HeaderLineSeq(m.headers, order);
    var lines := AllTrimmed(LinesOf(m, order));
    TrimmedCons(FirstLine(m), headerLines);
    TrimmedFirstLine(m);
    var (first, rest) := (FirstLine(TrimmedFirst(m)), Unlines(AllTrimmed(headerLines)) + CRLF + body);
    JoinIsUnlines(lines);
    UnlinesHead(first, AllTrimmed(headerLines), body);
    FirstLineRoundTrip(TrimmedFirst(m));
    ReadAllHeaders(m, order, body);
    ParsedFrom(first, TrimmedFirst(m).(headers := map[], body := ""), rest, TrimmedHeaders(m.headers), body);
  }

  lemma UnlinesHead(line: string, lines: seq<string>, body: string)
    ensures Unlines([line] + lines) + CRLF + body == line + CRLF + (Unlines(lines) + CRLF + body)
  {
    assert ([line] + lines)[1..] == lines;
    hide Unlines;
    Associative(line + CRLF, Unlines(lines) + CRLF, body);
    Associative(line + CRLF, Unlines(lines), CRLF);
  }

  /**
   One message followed by anything: the reader takes the announced number of bytes as the body,
   whatever the body really is, and fails only when that many bytes are not there.
   */
  lemma ReadPrinted(m: Message, order: seq<string>, rest: string)
    requires Lined(m) && IsOrder(order, m.headers.Keys)
    ensures var (n, left) := (Announced(m, order), m.body + rest);
            ReadOne(Printed(m, order) + rest)
            == if n > |left| then (Err(BodyCut), "") else (Ok(Seen(m, ReadBody(left[..n]))), left[n..])
  {
    hide Lined, Announced, LinesOf, AllTrimmed, Printed, ReadHeaderLines, Parsed, LengthOf, ContentLengthValue, Seen;
    var (n, left) := (Announced(m, order), m.body + rest);
    ReadPrintedLines(m, order, rest);
    AnnouncedByLines(m, order);
    if n <= |left| {
      ParseTrimmed(m, order, left[..n]);
    }
  }

  /** A message is consumed exactly, with nothing left over or missing, iff its announced length is right. */
  lemma ConsumedExactly(m: Message, order: seq<string>, rest: string)
    requires Lined(m) && IsOrder(order, m.headers.Keys)
    ensures ReadOne(Printed(m, order) + rest).0.Ok? && ReadOne(Printed(m, order) + rest).1 == rest
       <==> Announced(m, order) == |m.body|
  {
    hide Lined, Announced, Printed, ReadOne, Seen;
    ReadPrinted(m, order, rest);
    var left := m.body + rest;
    assert left[|m.body|..] == rest;
  }

  lemma {:induction false} AnnouncedIsBody(m: Message, order: seq<string>)
    requires Framed(m) && !FirstLineIsLength(m)
    requires forall k :: k in order ==> k in m.headers
    ensures (exists k :: k in order && IsContentLength(k)) ==> AnnouncedInHeaders(m.headers, order) == |m.body|
    ensures (forall k :: k in order ==> !IsContentLength(k)) ==> AnnouncedInHeaders(m.headers, order) == 0
  {
    hide IsContentLength, LengthOf, TrimSpace, Lined, FirstLineIsLength;
    if order != [] {
      AnnouncedIsBody(m, order[1..]);
      assert forall k :: k in order <==> k == order[0] || k in order[1..];
    }
  }

  /** A framed message comes back with its body cut at the first line, and the reader stops behind it. */
  lemma ReadFramed(m: Message, text: string, rest: string)
    requires Framed(m) && IsPrinting(m, text)
    ensures ReadOne(text + rest) == (Ok(Received(m)), rest)
  {
    hide ReadOne, Printed, FirstLineIsLength, FirstLineLength, LengthOf, TrimSpace, IsContentLength, Lined, Seen;
    var order :| IsOrder(order, m.headers.Keys) && text == Printed(m, order);
    if !FirstLineIsLength(m) {
      AnnouncedIsBody(m, order);
    }
    ReadPrinted(m, order, rest);
    var left := m.body + rest;
    assert left[..|m.body|] == m.body && left[|m.body|..] == rest;
  }

  /** What the reader makes of a framed message. */
  function Received(m: Message): Message {
    Seen(m, ReadBody(m.body))
  }

  /** Lines and cut body change nothing iff no line ends in what the reader strips, and the body is one line. */
  lemma ReceivedExactly(m: Message)
    ensures Received(m) == m
       <==> && !EndsInCR(if m.kind == Request then m.version else m.statusText)
            && (forall k :: k in m.headers ==> Trimmed(m.headers[k]))
            && '\n' !in m.body
  {
    hide ReadBody, TrimCRLF, TrimSpace, Trimmed, EndsInCR, TrimmedHeaders;
    CutBody(m.body);
    TrimCRLFFixed(m.version);
    TrimCRLFFixed(m.statusText);
    TrimmedHeadersFixed(m.headers);
  }

  lemma TrimmedHeadersFixed(headers: map<string, string>)
    ensures TrimmedHeaders(headers) == headers <==> forall k :: k in headers ==> Trimmed(headers[k])
  {
    hide TrimSpace, Trimmed;
    forall k | k in headers ensures TrimSpace(headers[k]) == headers[k] <==> Trimmed(headers[k]) {
      var o := TrimSpaceSound(headers[k]);
    }
    var trimmed := TrimmedHeaders(headers);
    assert forall k :: k in headers ==> k in trimmed && trimmed[k] == TrimSpace(headers[k]);
  }

  /** Exactly the printed messages that come back unchanged and leave what follows them alone. */
  lemma ReadExactly(m: Message, order: seq<string>, rest: string)
    requires IsOrder(order, m.headers.Keys)
    ensures ReadOne(Printed(m, order) + rest) == (Ok(m), rest)
       <==> && WellFormed(m) && Announced(m, order) == |m.body|
            && !EndsInCR(if m.kind == Request then m.version else m.statusText)
  {
    hide ReadOne, Printed, Announced, Seen, ReadBody, EndsInCR, WellFormed, Lined;
    if ReadOne(Printed(m, order) + rest) == (Ok(m), rest) {
      ReadIsWellFormed(Printed(m, order) + rest, m);
    }
    if WellFormed(m) {
      WellFormedIsLined(m);
      ReadPrinted(m, order, rest);
      ConsumedExactly(m, order, rest);
      ReceivedExactly(m);
      var left := m.body + rest;
      assert left[..|m.body|] == m.body && left[|m.body|..] == rest;
    }
  }

  lemma WellFormedIsLined(m: Message)
    requires WellFormed(m)
    ensures Lined(m) && '\n' !in m.body && forall k :: k in m.headers ==> Trimmed(m.headers[k])
  {
    hide Trimmed, FirstLineWellFormed;
  }

  lemma ReadIsWellFormed(input: string, m: Message)
    requires ReadOne(input).0 == Ok(m)
    ensures WellFormed(m)
  {
    hide Parsed, WellFormed, ReadHeaderLines, JoinCRLF, ContentLengthValue, LengthOf;
    var r := ReadHeaderLines(input);
    var n := LengthOf(ContentLengthValue(r.lines));
    ParsedWellFormed(JoinCRLF(r.lines) + CRLF + CRLF + r.rest[..n]);
  }

  predicate EndsInCR(s: string) {
    s != "" && EndOfLine(s[|s| - 1])
  }

  lemma TrimCRLFFixed(s: string)
    ensures TrimCRLF(s) == s <==> !EndsInCR(s)
  {
    if EndsInCR(s) {
      TrimCRLFAvoids(s[..|s| - 1]);
    }
  }

  lemma CutBody(body: string)
    ensures ReadBody(body) == body <==> '\n' !in body
  {
  }

  /** A response with one header, for the two examples. */
  function Example(length: string, body: string): Message {
    Message(Response, "", "", "RTSP/1.0", 200, "OK", map["Content-Length" := length], body)
  }

  lemma ExampleRead(length: string, body: string, text: string, rest: string)
    requires Trimmed(length) && '\n' !in length && IsPrinting(Example(length, body), text)
    ensures var (n, left) := (LengthOf(length), body + rest);
            ReadOne(text + rest)
            == if n > |left| then (Err(BodyCut), "") else (Ok(Example(length, ReadBody(left[..n]))), left[n..])
  {
    var m := Example(length, body);
    var order :| IsOrder(order, m.headers.Keys) && text == Printed(m, order);
    hide Printed;
    assert m.headers.Keys == {"Content-Length"};
    SingleOrder(order, "Content-Length");
    ExampleIsLined(length, body);
    TrimSpaceFixed(length);
    hide ReadOne, LengthOf, TrimSpace, Trimmed, Lined, IsContentLength, FirstLineIsLength, Seen;
    assert Announced(m, order) == LengthOf(length);
    ReadPrinted(m, order, rest);
    var (n, left) := (LengthOf(length), body + rest);
    if n <= |left| {
      ExampleIsSeen(length, body, ReadBody(left[..n]));
    }
  }

  lemma ExampleIsLined(length: string, body: string)
    requires Trimmed(length) && '\n' !in length
    ensures var m := Example(length, body);
            Lined(m) && !FirstLineIsLength(m) && IsContentLength("Content-Length")
  {
    hide FirstLineWellFormed, FirstLineIsLength, Trimmed, IsContentLength;
    ExampleFirstLine(Example(length, body));
    ContentLengthName();
  }

  lemma ExampleIsSeen(length: string, body: string, cut: string)
    requires Trimmed(length)
    ensures Seen(Example(length, body), cut) == Example(length, cut)
  {
    hide TrimCRLF, TrimSpace, Trimmed, FirstLineWellFormed, FirstLineIsLength;
    ExampleFirstLine(Example(length, body));
    TrimmedHeadersFixed(Example(length, body).headers);
    hide TrimmedHeaders, TrimmedFirst;
  }

  lemma ContentLengthName()
    ensures IsContentLength("Content-Length") && Trimmed("Content-Length")
    ensures ':' !in "Content-Length" && '\n' !in "Content-Length"
  {
  }

  lemma ExampleFirstLine(m: Message)
    requires m.kind == Response && m.method_ == "" && m.url == ""
    requires m.version == "RTSP/1.0" && m.statusCode == 200 && m.statusText == "OK"
    ensures FirstLineWellFormed(m) && TrimmedFirst(m) == m && !FirstLineIsLength(m)
  {
    hide Itoa;
    assert m.version[..5] == "RTSP/";
    TrimCRLFFixed(m.statusText);
    TrimmedFirstLine(m);
    hide TrimCRLF;
    assert FirstLine(m)[0] == m.version[0] == 'R';
    assert (CONTENT_LENGTH + ":")[0] == 'c';
  }

  /** A body of two lines loses the second one, although its length is announced and it is consumed. */
  lemma BodyIsCut(text: string, rest: string)
    requires IsPrinting(Example("3", "a\nb"), text)
    ensures ReadOne(text + rest) == (Ok(Example("3", "a")), rest)
  {
    hide IsPrinting, ReadOne;
    assert LengthOf("3") == 3;
    assert ReadBody("a\nb") == "a";
    ExampleRead("3", "a\nb", text, rest);
    var left := "a\nb" + rest;
    assert left[..3] == "a\nb" && left[3..] == rest;
  }

  /** A Content-Length one short of the body leaves its last byte in front of the next message. */
  lemma LengthOneShort(text: string, rest: string)
    requires IsPrinting(Example("2", "abc"), text)
    ensures ReadOne(text + rest) == (Ok(Example("2", "ab")), "c" + rest)
  {
    hide IsPrinting, ReadOne;
    assert LengthOf("2") == 2;
    assert ReadBody("ab") == "ab";
    ExampleRead("2", "abc", text, rest);
    var left := "abc" + rest;
    assert left[..2] == "ab" && left[2..] == "c" + rest;
  }

  /** `count` calls of ReadMessage in a row. */
  function ReadMany(input: string, count: nat): (seq<Result<Message, ReadError>>, string)
    decreases count
  {
    if count == 0 then ([], input)
    else
      var (first, rest) := ReadOne(input);
      var (others, left) := ReadMany(rest, count - 1);
      ([first] + others, left)
  }

  function AllReceived(ms: seq<Message>): seq<Result<Message, ReadError>> {
    seq(|ms|, i requires 0 <= i < |ms| => Ok(Received(ms[i])))
  }

  function Concat(texts: seq<string>): string {
    if texts == [] then "" else texts[0] + Concat(texts[1..])
  }

  /** Whatever follows `text` on the connection, one call takes `text` and returns `r`. */
  ghost predicate Takes(text: string, r: Result<Message, ReadError>) {
    forall rest :: ReadOne(text + rest) == (r, rest)
  }

  lemma TakesOne(text: string, r: Result<Message, ReadError>, rest: string)
    requires Takes(text, r)
    ensures ReadOne(text + rest) == (r, rest)
  {
    hide ReadOne;
  }

  lemma {:induction false} ReadManyTakes(texts: seq<string>, rs: seq<Result<Message, ReadError>>, rest: string)
    requires |texts| == |rs|
    requires forall i :: 0 <= i < |texts| ==> Takes(texts[i], rs[i])
    ensures ReadMany(Concat(texts) + rest, |texts|) == (rs, rest)
  {
    hide ReadOne, Takes;
    if texts == [] {
      assert Concat(texts) + rest == rest;
    } else {
      hide ReadMany;
      var tail := Concat(texts[1..]) + rest;
      Associative(texts[0], Concat(texts[1..]), rest);
      TakesOne(texts[0], rs[0], tail);
      ReadManyTakes(texts[1..], rs[1..], rest);
      ReadManyStep(Concat(texts) + rest, rs[0], tail, |texts| - 1);
      assert [rs[0]] + rs[1..] == rs;
    }
  }

  lemma ReadManyStep(input: string, r: Result<Message, ReadError>, mid: string, count: nat)
    requires ReadOne(input) == (r, mid)
    ensures ReadMany(input, count + 1) == ([r] + ReadMany(mid, count).0, ReadMany(mid, count).1)
  {
    hide ReadOne;
  }

  lemma FramedTakes(m: Message, text: string)
    requires Framed(m) && IsPrinting(m, text)
    ensures Takes(text, Ok(Received(m)))
  {
    forall rest ensures ReadOne(text + rest) == (Ok(Received(m)), rest) {
      ReadFramed(m, text, rest);
    }
  }

  /** For any list of framed messages, each call consumes exactly one of them, in order. */
  lemma StreamFraming(ms: seq<Message>, texts: seq<string>, rest: string)
    requires |ms| == |texts|
    requires forall i :: 0 <= i < |ms| ==> Framed(ms[i]) && IsPrinting(ms[i], texts[i])
    ensures ReadMany(Concat(texts) + rest, |ms|) == (AllReceived(ms), rest)
  {
    forall i | 0 <= i < |ms| ensures Takes(texts[i], AllReceived(ms)[i]) {
      FramedTakes(ms[i], texts[i]);
    }
    ReadManyTakes(texts, AllReceived(ms), rest);
  }
}
