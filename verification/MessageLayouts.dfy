/**
 What the reader makes of arbitrary bytes on a connection, and not only of printed messages: lines that end in
 LF alone, a Content-Length in any capitals, lengths that are no numbers, and messages that break off.
 */
module MessageLayouts {
  import opened Results
  import opened GoStrings
  import opened Strconv
  import opened RTSPMessage
  import opened MessageStream

  // ---------------------------------------------------------------------------
  // Lines
  // ---------------------------------------------------------------------------

  /** A line as it arrives: its text, and the CRs before its LF, of which there may be any number. */
  datatype RawLine = RawLine(text: string, crs: string)

  predicate CRs(s: string) {
    forall c :: c in s ==> c == '\r'
  }

  predicate Raw(l: RawLine) {
    l.text != "" && '\n' !in l.text && l.text[|l.text| - 1] != '\r' && CRs(l.crs)
  }

  function RawText(ls: seq<RawLine>): string {
    if ls == [] then "" else ls[0].text + ls[0].crs + "\n" + RawText(ls[1..])
  }

  function Texts(ls: seq<RawLine>): (texts: seq<string>)
    ensures |texts| == |ls|
  {
    if ls == [] then [] else [ls[0].text] + Texts(ls[1..])
  }

  lemma TrimEnds(text: string, crs: string)
    requires (text == "" || !EndOfLine(text[|text| - 1])) && CRs(crs)
    ensures TrimCRLF(text + crs + "\n") == text
  {
    var s := text + crs + "\n";
    assert s[..|s| - 1] == text + crs;
    TrimCRs(text, crs);
  }

  lemma {:induction false} TrimCRs(text: string, crs: string)
    requires (text == "" || !EndOfLine(text[|text| - 1])) && CRs(crs)
    ensures TrimCRLF(text + crs) == text
    decreases |crs|
  {
    if crs == "" {
      assert text + crs == text;
    } else {
      var n := |crs| - 1;
      assert crs[n] in crs;
      assert forall c :: c in crs[..n] ==> c in crs;
      assert (text + crs)[..|text + crs| - 1] == text + crs[..n];
      TrimCRs(text, crs[..n]);
    }
  }

  lemma LineHead(head: string, rest: string)
    requires '\n' !in head
    ensures var s := head + "\n" + rest; var i := IndexOf(s, '\n');
            i == |head| && s[..i + 1] == head + "\n" && s[i + 1..] == rest
  {
    var s := head + "\n" + rest;
    assert s == head + ['\n'] + rest;
    IndexOfFirst(head, '\n', rest);
  }

  lemma OneLine(l: RawLine, rest: string)
    requires Raw(l)
    ensures ReadHeaderLines(l.text + l.crs + "\n" + rest) == Prepend([l.text], ReadHeaderLines(rest))
  {
    hide TrimCRLF, IndexOf;
    LineHead(l.text + l.crs, rest);
    TrimEnds(l.text, l.crs);
  }

  lemma BlankLine(crs: string, rest: string)
    requires CRs(crs)
    ensures ReadHeaderLines(crs + "\n" + rest) == HeaderLines([], rest)
  {
    hide TrimCRLF, IndexOf;
    LineHead(crs, rest);
    TrimEnds("", crs);
    assert "" + crs == crs;
  }

  /** However the lines end, the texts are read up to the first blank line, and nothing behind it is touched. */
  lemma {:induction false} RawIsRead(ls: seq<RawLine>, end: string)
    requires forall l :: l in ls ==> Raw(l)
    ensures ReadHeaderLines(RawText(ls) + end) == Prepend(Texts(ls), ReadHeaderLines(end))
  {
    hide ReadHeaderLines, Raw;
    if ls == [] {
      assert RawText(ls) + end == end;
      assert forall lines: seq<string> :: [] + lines == lines;
    } else {
      var (l, rest) := (ls[0], RawText(ls[1..]) + end);
      assert l in ls;
      assert RawText(ls) + end == l.text + l.crs + "\n" + rest;
      OneLine(l, rest);
      RawIsRead(ls[1..], end);
      PrependMore(l.text, Texts(ls[1..]), ReadHeaderLines(end));
    }
  }

  lemma PrependMore(line: string, lines: seq<string>, r: HeaderRead)
    ensures Prepend([line], Prepend(lines, r)) == Prepend([line] + lines, r)
  {
    if r.HeaderLines? {
      assert [line] + (lines + r.lines) == [line] + lines + r.lines;
    }
  }

  // ---------------------------------------------------------------------------
  // The announced length
  // ---------------------------------------------------------------------------

  const LOWER: string := "content-length"
  const UPPER: string := "CONTENT-LENGTH"

  /** The name, with each letter small or capital. */
  predicate Capitals(name: string) {
    |name| == |LOWER| && forall i :: 0 <= i < |LOWER| ==> name[i] == LOWER[i] || name[i] == UPPER[i]
  }

  lemma CharFold(c: char, i: nat)
    requires i < |LOWER|
    ensures LowerChar(c) == LOWER[i] <==> c == LOWER[i] || c == UPPER[i]
  {
  }

  /** A header line names the length exactly when its name is Content-Length in any capitals. */
  lemma NameMeans(name: string, value: string)
    requires ':' !in name
    ensures HasPrefixFold(name + ":" + value, CONTENT_LENGTH + ":") <==> Capitals(name)
  {
    var (line, prefix) := (name + ":" + value, CONTENT_LENGTH + ":");
    forall i, c | 0 <= i < |LOWER| ensures LowerChar(c) == prefix[i] <==> c == LOWER[i] || c == UPPER[i] {
      CharFold(c, i);
      assert prefix[i] == LOWER[i];
    }
    if Capitals(name) {
      assert forall i :: 0 <= i < |LOWER| ==> line[i] == name[i];
    }
    if HasPrefixFold(line, prefix) {
      FoldedName(name, value);
    }
  }

  lemma FoldedName(name: string, value: string)
    requires ':' !in name && HasPrefixFold(name + ":" + value, CONTENT_LENGTH + ":")
    ensures Capitals(name)
  {
    var (line, prefix) := (name + ":" + value, CONTENT_LENGTH + ":");
    assert ':' !in LOWER;
    forall i | 0 <= i < |LOWER| ensures line[i] != ':' {
      assert LowerChar(line[i]) == prefix[i] == LOWER[i];
      assert LOWER[i] in LOWER;
    }
    assert LowerChar(line[|LOWER|]) == prefix[|LOWER|] == ':';
    assert line[|name|] == ':' && name == line[..|name|];
    assert |name| == |LOWER|;
    forall i | 0 <= i < |LOWER| ensures name[i] == LOWER[i] || name[i] == UPPER[i] {
      CharFold(name[i], i);
      assert line[i] == name[i] && prefix[i] == LOWER[i];
    }
  }

  /** The first line with the name decides, and its value counts without the white space around it. */
  lemma {:induction false} FirstLengthCounts(before: seq<string>, name: string, value: string, after: seq<string>)
    requires forall l :: l in before ==> !HasPrefixFold(l, CONTENT_LENGTH + ":")
    requires ':' !in name && Capitals(name)
    ensures ContentLengthValue(before + [name + ":" + value] + after) == TrimSpace(value)
    ensures ContentLengthValue(before) == ""
  {
    hide HasPrefixFold, TrimSpace;
    var line := name + ":" + value;
    var lines := before + [line] + after;
    if before == [] {
      NameMeans(name, value);
      assert lines[0] == line && line[|CONTENT_LENGTH| + 1..] == value;
    } else {
      assert before[0] in before;
      assert lines[0] == before[0] && lines[1..] == before[1..] + [line] + after;
      FirstLengthCounts(before[1..], name, value, after);
    }
  }

  /** A length is a number without a minus sign that fits 64 bits; anything else asks for no body. */
  lemma LengthMeans(sign: string, digits: string, rest: string)
    requires sign in {"", "+", "-"} && (forall c :: c in digits ==> IsDigit(c)) && (rest != "" ==> !IsDigit(rest[0]))
    requires sign == "" && digits == "" && rest != "" ==> rest[0] != '+' && rest[0] != '-'
    ensures LengthOf(sign + digits + rest)
         == if sign != "-" && digits != "" && rest == "" && Value(digits, 0) <= MAX_INT64 then Value(digits, 0) else 0
  {
    hide Atoi;
    AtoiMeans(sign, digits, rest);
  }

  // ---------------------------------------------------------------------------
  // Whole messages
  // ---------------------------------------------------------------------------

  /** Headers without a blank line are read to the end of the connection and lost. */
  lemma HeadersCut(ls: seq<RawLine>, rest: string)
    requires (forall l :: l in ls ==> Raw(l)) && '\n' !in rest
    ensures ReadOne(RawText(ls) + rest) == (Err(LineCut), "")
  {
    hide ReadHeaderLines;
    RawIsRead(ls, rest);
    assert ReadHeaderLines(rest) == NoBlankLine by { NoLine(rest); }
  }

  lemma NoLine(s: string)
    requires '\n' !in s
    ensures ReadHeaderLines(s) == NoBlankLine
  {
  }

  /**
   One read, whatever the layout: the lines decide the length, a body that is not there is an error that uses up the
   connection, and otherwise exactly the announced bytes are parsed behind the lines and the rest stays.
   */
  lemma ReadAnyLayout(ls: seq<RawLine>, crs: string, rest: string)
    requires ls != [] && (forall l :: l in ls ==> Raw(l)) && CRs(crs)
    ensures var (texts, input) := (Texts(ls), RawText(ls) + (crs + "\n" + rest));
            var n := LengthOf(ContentLengthValue(texts));
            ReadOne(input) ==
            if n > |rest| then (Err(BodyCut), "")
            else (match Parsed(Unlines(texts) + CRLF + rest[..n])
                  case Err(e) => Err(BadMessage(e))
                  case Ok(m) => Ok(m),
                  rest[n..])
  {
    hide ReadHeaderLines, Parsed, ContentLengthValue, LengthOf;
    RawIsRead(ls, crs + "\n" + rest);
    BlankLine(crs, rest);
    JoinIsUnlines(Texts(ls));
    assert Texts(ls) + [] == Texts(ls);
  }

  /** So it does not matter how the lines end. */
  lemma EndsDoNotMatter(ls: seq<RawLine>, crs: string, ls': seq<RawLine>, crs': string, rest: string)
    requires ls != [] && (forall l :: l in ls ==> Raw(l)) && CRs(crs)
    requires ls' != [] && (forall l :: l in ls' ==> Raw(l)) && CRs(crs')
    requires Texts(ls) == Texts(ls')
    ensures ReadOne(RawText(ls) + (crs + "\n" + rest)) == ReadOne(RawText(ls') + (crs' + "\n" + rest))
  {
    hide ReadOne, RawText, Texts, Parsed, ContentLengthValue, LengthOf;
    ReadAnyLayout(ls, crs, rest);
    ReadAnyLayout(ls', crs', rest);
  }

  /** A blank line at once is a message without a first line. */
  lemma BlankAtOnce(crs: string, rest: string)
    requires CRs(crs)
    ensures ReadOne(crs + "\n" + rest) == (Err(BadMessage(InvalidFirstLine(""))), rest)
  {
    hide ReadHeaderLines, Parsed;
    BlankLine(crs, rest);
    assert JoinCRLF([]) + CRLF + CRLF + rest[..0] == CRLF + CRLF;
    assert rest[0..] == rest;
    assert LengthOf("") == 0;
    NothingThere();
  }

  lemma NothingThere()
    ensures Parsed(CRLF + CRLF) == Err(InvalidFirstLine(""))
  {
    ReadLineCRLF("", CRLF);
    assert "" + CRLF + CRLF == CRLF + CRLF;
    hide ReadLine;
    SplitNone("", ' ');
  }
}
