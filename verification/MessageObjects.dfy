/** The mutable message of the source, and its parser and printer as loops. */
module MessageObjects {
  import opened Results
  import opened MapOrder
  import opened GoStrings
  import opened Strconv
  import opened RTSPMessage

  class MessageObject {
    var kind: MessageType
    var method_: string
    var url: string
    var version: string
    var statusCode: int
    var statusText: string
    var headers: map<string, string>
    var body: string

    /** The message this object currently stands for. */
    function Value(): Message
      reads this
    {
      Message(kind, method_, url, version, statusCode, statusText, headers, body)
    }

    constructor ()
      ensures Value() == Message(Request, "", "", "", 0, "", map[], "")
    {
      kind, method_, url, version := Request, "", "", "";
      statusCode, statusText, headers, body := 0, "", map[], "";
    }

    method SetHeader(key: string, value: string)
      modifies this`headers
      ensures Value() == old(Value()).(headers := old(headers)[key := value])
    {
      headers := headers[key := value];
    }

    /** A missing header reads as the empty string. */
    method GetHeader(key: string) returns (value: string)
      ensures value == if key in headers then headers[key] else ""
    {
      value := if key in headers then headers[key] else "";
    }

    /** Message.String: the headers come in the order in which the map is visited. */
    method ToString() returns (s: string)
      ensures IsPrinting(Value(), s)
    {
      hide Itoa, HeaderLine;
      if kind == Request {
        s := method_ + " " + url + " " + version;
      } else {
        s := version + " " + Itoa(statusCode) + " " + statusText;
      }
      s := s + CRLF;
      var left := headers.Keys;
      ghost var order := [];
      while left != {}
        invariant left <= headers.Keys && IsOrder(order, headers.Keys - left)
        invariant s == FirstLine(Value()) + CRLF + HeaderText(headers, order)
      {
        var key :| key in left;
        s := s + (HeaderLine(key, headers[key]) + CRLF);
        HeaderTextSnoc(headers, order, key);
        OrderSnoc(order, key, headers.Keys - left);
        order, left := order + [key], left - {key};
        assert headers.Keys - left == (headers.Keys - (left + {key})) + {key};
      }
      s := s + CRLF;
      if body != "" {
        s := s + body;
      }
      assert IsOrder(order, headers.Keys) && s == Printed(Value(), order);
    }
  }

  method ParseMessage(data: string) returns (r: Result<MessageObject, ParseError>)
    ensures r.Err? ==> Parsed(data) == Err(r.error)
    ensures r.Ok? ==> fresh(r.value) && Parsed(data) == Ok(r.value.Value())
  {
    hide ReadLine, Split, Atoi, HasPrefix, Join, TrimSpace, IndexOf;
    var first := ReadLine(data);
    if first.EOF? {
      return Err(NoFirstLine);
    }
    var msg := new MessageObject();
    var parts := Split(first.text, ' ');
    if |parts| < 3 {
      return Err(InvalidFirstLine(first.text));
    }
    if HasPrefix(parts[0], "RTSP/") {
      msg.kind := Response;
      msg.version := parts[0];
      var code := Atoi(parts[1]);
      if code.err != NoError {
        return Err(InvalidStatusCode(parts[1]));
      }
      msg.statusCode := code.value;
      msg.statusText := Join(parts[2..], ' ');
    } else {
      msg.kind := Request;
      msg.method_ := parts[0];
      msg.url := parts[1];
      msg.version := parts[2];
    }
    assert ParseFirstLine(first.text) == Ok(msg.Value());

    var input := first.rest;
    while true
      invariant ReadHeaders(input, msg.headers) == ReadHeaders(first.rest, map[])
      invariant ParseFirstLine(first.text) == Ok(msg.Value().(headers := map[]))
      decreases |input|
    {
      var line := ReadLine(input);
      if line.EOF? {
        break;
      }
      input := line.rest;
      if line.text == "" {
        break;
      }
      var colon := IndexOf(line.text, ':');
      if colon == -1 {
        continue;
      }
      msg.SetHeader(TrimSpace(line.text[..colon]), TrimSpace(line.text[colon + 1..]));
    }
    var bodyLine := ReadLine(input);
    if bodyLine.Line? && bodyLine.text != "" {
      msg.body := bodyLine.text;
    }
    r := Ok(msg);
  }
}
