// Printing of HTTP messages as benchmarks/apache_like.go writes them, and that parsing undoes it.
module Messages {
  import opened Http
  import opened Options
  import opened Text

  function PrintHeader(h: Header): string {
    h.name + ": " + h.value + "\r\n"
  }

  function PrintHeaders(hs: seq<Header>): string {
    if hs == [] then "" else PrintHeader(hs[0]) + PrintHeaders(hs[1..])
  }

  lemma {:induction false} PrintOneMore(hs: seq<Header>, h: Header)
    ensures PrintHeaders(hs + [h]) == PrintHeaders(hs) + PrintHeader(h)
  {
    hide PrintHeader;
    if hs == [] {
      assert hs + [h] == [h];
    } else {
      PrintOneMore(hs[1..], h);
      assert (hs + [h])[1..] == hs[1..] + [h];
    }
  }

  lemma Joined(a: string, b: string, c: string, d: string, e: string)
    ensures a + b + c + d + e == a + (b + c + d + e)
  {
  }

  /** Writing one more header line after the header lines already written. */
  lemma WriteOneMore(before: string, hs: seq<Header>, h: Header)
    ensures before + PrintHeaders(hs) + h.name + ": " + h.value + "\r\n" == before + PrintHeaders(hs + [h])
  {
    PrintOneMore(hs, h);
    Joined(before + PrintHeaders(hs), h.name, ": ", h.value, "\r\n");
    assert before + PrintHeaders(hs) + PrintHeader(h) == before + (PrintHeaders(hs) + PrintHeader(h));
  }

  /** Start line, header lines, empty line, body. */
  function Message(start: string, hs: seq<Header>, body: string): string {
    start + "\r\n" + PrintHeaders(hs) + "\r\n" + body
  }

  /** What must not occur in a header for its line to be read back whole. */
  ghost predicate Printable(h: Header) {
    NoCrlf(h.name) && ':' !in h.name && NoCrlf(h.value)
  }

  /** A header as the parser records it. */
  function Recorded(h: Header): Header {
    Header(Canonical(h.name), TrimLeft(h.value))
  }

  function AllRecorded(hs: seq<Header>): (r: seq<Header>)
    ensures |r| == |hs| && forall k :: 0 <= k < |r| ==> r[k] == Recorded(hs[k])
  {
    hide Recorded;
    if hs == [] then [] else [Recorded(hs[0])] + AllRecorded(hs[1..])
  }

  lemma HeaderLineHasNoCrlf(h: Header)
    requires Printable(h)
    ensures NoCrlf(h.name + ": " + h.value)
  {
    NoCrlfWithout(": ");
    hide NoCrlf;
    NoCrlfConcat(h.name, ": ");
    NoCrlfConcat(h.name + ": ", h.value);
  }

  lemma HeaderLineSplits(h: Header)
    requires ':' !in h.name
    ensures var line := h.name + ": " + h.value;
            IndexByte(line, ':') == |h.name| && line[..|h.name|] == h.name && line[|h.name| + 1..] == " " + h.value
  {
    var line := h.name + ": " + h.value;
    assert line[..|h.name|] == h.name;
    IndexByteIs(line, ':', |h.name|);
  }

  lemma LeadingSpaceTrimmed(v: string)
    ensures TrimLeft(" " + v) == TrimLeft(v)
  {
    assert (" " + v)[1..] == v;
  }

  lemma LineOfHeader(h: Header)
    requires Printable(h)
    ensures var line := h.name + ": " + h.value;
            NoCrlf(line) && IndexByte(line, ':') == |h.name| && HeaderOf(line, |h.name|) == Recorded(h)
  {
    hide NoCrlf, IndexByte, Canonical, TrimLeft;
    HeaderLineHasNoCrlf(h);
    HeaderLineSplits(h);
    LeadingSpaceTrimmed(h.value);
  }

  /** A CRLF-free line followed by CRLF: the search from its start finds its end. */
  lemma FindsLineEnd(before: string, line: string, after: string)
    requires NoCrlf(line)
    ensures IndexCrlf(before + line + "\r\n" + after, |before|) == |before| + |line|
  {
    var buf := before + line + "\r\n" + after;
    assert buf[|before|..|before| + |line|] == line;
    LineEnds(buf, |before|, line);
  }

  lemma ScanOneHeader(before: string, h: Header, after: string)
    requires Printable(h)
    ensures var buf := before + PrintHeader(h) + after;
            var next := |before| + |PrintHeader(h)|;
            next <= |buf| &&
            Scan(buf, |before|) == Scan(buf, next).(headers := [Recorded(h)] + Scan(buf, next).headers)
  {
    hide Recorded, HeaderOf, Printable, NoCrlf, Scan, IndexByte;
    var line := h.name + ": " + h.value;
    var buf := before + PrintHeader(h) + after;
    LineOfHeader(h);
    assert buf == before + line + "\r\n" + after;
    FindsLineEnd(before, line, after);
    assert buf[|before|..|before| + |line|] == line;
    assert |PrintHeader(h)| == |line| + 2;
    ScanStep(buf, |before|, |before| + |line|, |h.name|);
  }

  lemma ScanEmptyLine(before: string, body: string)
    ensures var buf := before + "\r\n" + body; Scan(buf, |before|) == Scanned([], |before| + 2, true)
  {
  }

  /** Header lines, an empty line and a body are scanned back to the headers, leaving the body. */
  lemma {:induction false} ScanPrinted(before: string, hs: seq<Header>, body: string)
    requires forall k :: 0 <= k < |hs| ==> Printable(hs[k])
    ensures var head := before + PrintHeaders(hs) + "\r\n";
            Scan(head + body, |before|) == Scanned(AllRecorded(hs), |head|, true)
    decreases |hs|
  {
    hide Scan, Recorded, Printable;
    if hs == [] {
      assert before + PrintHeaders(hs) == before;
      ScanEmptyLine(before, body);
    } else {
      var line, rest := PrintHeader(hs[0]), PrintHeaders(hs[1..]);
      var buf := before + PrintHeaders(hs) + "\r\n" + body;
      assert buf == before + line + (rest + "\r\n" + body);
      ScanOneHeader(before, hs[0], rest + "\r\n" + body);
      assert before + line + rest == before + PrintHeaders(hs);
      ScanPrinted(before + line, hs[1..], body);
      assert buf == before + line + rest + "\r\n" + body;
    }
  }

  /** Framing: a printed message is parsed into its headers, and the offset returned leaves exactly the body. */
  lemma MessageIsFramed(start: string, hs: seq<Header>, body: string)
    requires NoCrlf(start) && forall k :: 0 <= k < |hs| ==> Printable(hs[k])
    ensures var buf := Message(start, hs, body);
            var r := ScanAll(buf);
            r.ok && r.headers == AllRecorded(hs) && r.end <= |buf| && buf[r.end..] == body
  {
    hide Scan, AllRecorded, Printable, NoCrlf, PrintHeaders;
    var buf := Message(start, hs, body);
    var rest := PrintHeaders(hs) + "\r\n" + body;
    assert buf == "" + start + "\r\n" + rest;
    FindsLineEnd("", start, rest);
    var head := start + "\r\n" + PrintHeaders(hs) + "\r\n";
    ScanPrinted(start + "\r\n", hs, body);
    assert buf == head + body;
  }

  function PrintRequestLine(r: RequestLine): string {
    r.method_ + " " + r.path + " " + r.proto
  }

  ghost predicate PrintableLine(r: RequestLine) {
    && NoCrlf(r.method_) && NoCrlf(r.path) && NoCrlf(r.proto)
    && ' ' !in r.method_ && ' ' !in r.path
  }

  lemma RequestLineHasNoCrlf(r: RequestLine)
    requires PrintableLine(r)
    ensures NoCrlf(PrintRequestLine(r))
  {
    hide NoCrlf;
    NoCrlfWithout(" ");
    NoCrlfConcat(r.method_, " ");
    NoCrlfConcat(r.method_ + " ", r.path);
    NoCrlfConcat(r.method_ + " " + r.path, " ");
    NoCrlfConcat(r.method_ + " " + r.path + " ", r.proto);
  }

  /** The first space ends the method, the next one the path. */
  lemma RequestLineSplits(r: RequestLine)
    requires ' ' !in r.method_ && ' ' !in r.path
    ensures var line := PrintRequestLine(r);
            && IndexByte(line, ' ') == |r.method_| && line[..|r.method_|] == r.method_
            && IndexByte(line[|r.method_| + 1..], ' ') == |r.path|
            && line[|r.method_| + 1..|r.method_| + 1 + |r.path|] == r.path
            && line[|r.method_| + 1 + |r.path| + 1..] == r.proto
  {
    var line := PrintRequestLine(r);
    assert line[..|r.method_|] == r.method_;
    IndexByteIs(line, ' ', |r.method_|);
    var tail := line[|r.method_| + 1..];
    assert tail == r.path + " " + r.proto;
    assert tail[..|r.path|] == r.path;
    IndexByteIs(tail, ' ', |r.path|);
  }

  lemma ParsedBySpaces(buf: string, line: string, sp1: nat, sp2: nat)
    requires IndexCrlf(buf, 0) == |line| && buf[..|line|] == line
    requires IndexByte(line, ' ') == sp1 && IndexByte(line[sp1 + 1..], ' ') == sp2
    ensures ParseRequestLine(buf)
         == Some(RequestLine(line[..sp1], line[sp1 + 1..sp1 + 1 + sp2], line[sp1 + 1 + sp2 + 1..]))
  {
  }

  lemma RequestLineParses(r: RequestLine, after: string)
    requires PrintableLine(r)
    ensures ParseRequestLine(PrintRequestLine(r) + "\r\n" + after) == Some(r)
  {
    hide NoCrlf, PrintRequestLine, ParseRequestLine;
    var line := PrintRequestLine(r);
    RequestLineHasNoCrlf(r);
    var buf := line + "\r\n" + after;
    assert buf == "" + line + "\r\n" + after;
    FindsLineEnd("", line, after);
    assert buf[..|line|] == line;
    RequestLineSplits(r);
    ParsedBySpaces(buf, line, |r.method_|, |r.path|);
  }

  /** Parsing undoes printing of a request. */
  lemma RequestRoundTrip(r: RequestLine, hs: seq<Header>, body: string)
    requires PrintableLine(r) && forall k :: 0 <= k < |hs| ==> Printable(hs[k])
    ensures var buf := Message(PrintRequestLine(r), hs, body);
            && ParseRequestLine(buf) == Some(r)
            && ScanAll(buf).ok && ScanAll(buf).headers == AllRecorded(hs)
            && ScanAll(buf).end <= |buf| && buf[ScanAll(buf).end..] == body
  {
    hide ScanAll, AllRecorded, Printable, NoCrlf;
    var line := PrintRequestLine(r);
    RequestLineHasNoCrlf(r);
    RequestLineParses(r, PrintHeaders(hs) + "\r\n" + body);
    assert Message(line, hs, body) == line + "\r\n" + (PrintHeaders(hs) + "\r\n" + body);
    MessageIsFramed(line, hs, body);
  }

  /** A canonical name and a value that starts with no blank are recorded as printed. */
  ghost predicate Plain(h: Header) {
    Canonical(h.name) == h.name && (h.value == "" || !Blank(h.value[0]))
  }

  lemma RecordedAsPrinted(h: Header)
    requires Plain(h)
    ensures Recorded(h) == h
  {
  }

  /** Headers with canonical names and values without leading blanks come back exactly. */
  lemma ExactRequestRoundTrip(r: RequestLine, hs: seq<Header>, body: string)
    requires PrintableLine(r) && forall k :: 0 <= k < |hs| ==> Printable(hs[k]) && Plain(hs[k])
    ensures var buf := Message(PrintRequestLine(r), hs, body);
            && ParseRequestLine(buf) == Some(r)
            && ScanAll(buf).ok && ScanAll(buf).headers == hs
            && ScanAll(buf).end <= |buf| && buf[ScanAll(buf).end..] == body
  {
    hide ScanAll, Printable, PrintableLine, Plain, Recorded, Message, ParseRequestLine;
    RequestRoundTrip(r, hs, body);
    forall k | 0 <= k < |hs|
      ensures Recorded(hs[k]) == hs[k]
    {
      RecordedAsPrinted(hs[k]);
    }
    assert AllRecorded(hs) == hs;
  }

  lemma NoCrlfBefore(buf: string, end: nat)
    requires IndexCrlf(buf, 0) == end
    ensures NoCrlf(buf[..end])
  {
    forall i
      ensures !CrlfAt(buf[..end], i)
    {
      assert !(0 <= i < end) || !CrlfAt(buf, i);
    }
  }

  /** Parts of a request line that was parsed contain no CRLF. */
  lemma ParsedPartsHaveNoCrlf(buf: string)
    ensures ParseRequestLine(buf).Some? ==> PrintableLine(ParseRequestLine(buf).value)
  {
    var end := IndexCrlf(buf, 0);
    if end >= 0 {
      var line := buf[..end];
      NoCrlfBefore(buf, end);
      hide NoCrlf, CrlfAt;
      var sp1 := IndexByte(line, ' ');
      if sp1 >= 0 {
        var tail := line[sp1 + 1..];
        var sp2 := IndexByte(tail, ' ');
        if sp2 >= 0 {
          NoCrlfPart(line, 0, sp1);
          NoCrlfPart(line, sp1 + 1, sp1 + 1 + sp2);
          NoCrlfPart(line, sp1 + 1 + sp2 + 1, |line|);
          assert line[sp1 + 1 + sp2 + 1..|line|] == line[sp1 + 1 + sp2 + 1..];
          assert line[sp1 + 1..sp1 + 1 + sp2] == tail[..sp2];
          assert forall k :: 0 <= k < sp1 ==> line[..sp1][k] != ' ';
          assert forall k :: 0 <= k < sp2 ==> tail[..sp2][k] != ' ';
        }
      }
    }
  }

  lemma LineReprints(line: string, i: nat, j: nat)
    requires i < j < |line| && line[i] == line[j] == ' '
    ensures PrintRequestLine(RequestLine(line[..i], line[i + 1..j], line[j + 1..])) == line
  {
  }

  lemma FirstLine(buf: string, end: nat)
    requires CrlfAt(buf, end)
    ensures buf[..end] + "\r\n" <= buf
  {
  }

  lemma ParsedLineReprints(buf: string)
    requires ParseRequestLine(buf).Some?
    ensures PrintRequestLine(ParseRequestLine(buf).value) + "\r\n" <= buf
  {
    hide PrintRequestLine;
    var end := IndexCrlf(buf, 0);
    var line := buf[..end];
    var sp1 := IndexByte(line, ' ');
    var sp2 := IndexByte(line[sp1 + 1..], ' ');
    LineReprints(line, sp1, sp1 + 1 + sp2);
    FirstLine(buf, end);
  }

  /** The parser accepts exactly the buffers that start with a printed request line, and finds the line printed. */
  lemma ParsesIffPrinted(buf: string, r: RequestLine)
    ensures ParseRequestLine(buf) == Some(r) <==> PrintableLine(r) && PrintRequestLine(r) + "\r\n" <= buf
  {
    hide PrintRequestLine, PrintableLine, ParseRequestLine;
    if ParseRequestLine(buf) == Some(r) {
      ParsedPartsHaveNoCrlf(buf);
      ParsedLineReprints(buf);
    }
    if PrintableLine(r) && PrintRequestLine(r) + "\r\n" <= buf {
      var after := buf[|PrintRequestLine(r)| + 2..];
      assert buf == PrintRequestLine(r) + "\r\n" + after;
      RequestLineParses(r, after);
    }
  }
}
