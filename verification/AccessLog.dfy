// benchmarks/apache_like.go: the access log line, and what a reader of the log finds in it.
module AccessLog {
  import opened Http
  import opened Messages
  import opened Routing
  import opened Text

  function TwoDigit(v: int): (s: string)
    ensures forall k :: 0 <= k < |s| ==> Digit(s[k])
  {
    (if v < 10 then "0" else "") + Itoa(if v < 0 then 0 else v)
  }

  lemma AtoiTwo(s: string)
    requires |s| == 2 && Digit(s[0]) && Digit(s[1])
    ensures Atoi(s) == 10 * (s[0] as int - 48) + s[1] as int - 48
  {
    assert s[..1] == [s[0]] && Atoi(s[..1]) == s[0] as int - 48;
  }

  /** Two digits are written exactly below 100, and they read as the number. */
  lemma TwoDigitIsTwoDigits(v: nat)
    ensures |TwoDigit(v)| == 2 <==> v < 100
    ensures v < 100 ==> Atoi(TwoDigit(v)) == v
  {
    if v < 100 {
      AtoiTwo(TwoDigit(v));
    } else {
      assert |Itoa(v / 10)| == |Itoa(v / 10 / 10)| + 1;
    }
  }

  // The line in the order in which it is written.

  function LogNumbers(route: Route, agent: string): string {
    Itoa(route.status) + (" " + (Itoa(|route.body|) + (" \"-\" \"" + (agent + "\"\n"))))
  }

  function LogRequest(r: RequestLine, rest: string): string {
    r.method_ + (" " + (r.path + (" " + (r.proto + ("\" " + rest)))))
  }

  function LogLine(i: nat, r: RequestLine, route: Route, agent: string): string {
    "10.0.0." + (Itoa(i % 256) + (" - - [05/May/2026:12:00:" + (TwoDigit(i % 60) + (" +0000] \""
    + LogRequest(r, LogNumbers(route, agent))))))
  }

  lemma JoinedLeft(a: string, b: string, c: string)
    ensures a + (b + c) == a + b + c
  {
  }

  // Reading it.

  /** The text before the first c, and the text after it. */
  function Upto(s: string, c: char): (r: (string, string))
    ensures c !in r.0
  {
    var k := IndexByte(s, c);
    if k < 0 then (s, "") else (s[..k], s[k + 1..])
  }

  datatype Entry = Entry(
    address: string,
    date: string,
    request: string,
    status: string,
    size: string,
    referer: string,
    agent: string,
    rest: string)

  /** The fields of a line in common log format, found by their separators. */
  function ReadEntry(log: string): Entry {
    var address := Upto(log, ' ');
    var date := Upto(Upto(address.1, '[').1, ' ');
    var request := Upto(Upto(date.1, '"').1, '"');
    var status := Upto(Upto(request.1, ' ').1, ' ');
    var size := Upto(status.1, ' ');
    var referer := Upto(Upto(size.1, '"').1, '"');
    var agent := Upto(Upto(referer.1, '"').1, '"');
    Entry(address.0, date.0, request.0, status.0, size.0, referer.0, agent.0, agent.1)
  }

  ghost predicate ReadsAs(s: string, n: nat) {
    (forall k :: 0 <= k < |s| ==> Digit(s[k])) && Atoi(s) == n
  }

  /** What a reader finds in the line of request number i. */
  ghost predicate Reads(log: string, i: nat, r: RequestLine, route: Route, agent: string) {
    var e := ReadEntry(log);
    && |e.address| > 7 && e.address[..7] == "10.0.0." && ReadsAs(e.address[7..], i % 256)
    && |e.date| == 20 && e.date[..18] == "05/May/2026:12:00:" && ReadsAs(e.date[18..], i % 60)
    && e.request == PrintRequestLine(r)
    && ReadsAs(e.status, route.status) && ReadsAs(e.size, |route.body|)
    && e.referer == "-" && e.agent == agent && e.rest == "\n"
  }

  lemma UptoFirst(x: string, c: char, y: string)
    requires c !in x
    ensures Upto(x + [c] + y, c) == (x, y)
  {
    var s := x + [c] + y;
    assert s[..|x|] == x && s[|x| + 1..] == y;
    IndexByteIs(s, c, |x|);
  }

  lemma ItoaIsPlain(n: nat)
    ensures ' ' !in Itoa(n) && ReadsAs(Itoa(n), n)
  {
    AtoiItoa(n);
    assert forall k :: 0 <= k < |Itoa(n)| ==> Digit(Itoa(n)[k]);
  }

  lemma SecondsArePlain(v: nat)
    requires v < 60
    ensures |TwoDigit(v)| == 2 && ' ' !in TwoDigit(v) && ReadsAs(TwoDigit(v), v)
  {
    TwoDigitIsTwoDigits(v);
    assert forall k :: 0 <= k < |TwoDigit(v)| ==> Digit(TwoDigit(v)[k]);
  }

  lemma ReadsAddress(octet: string, rest: string)
    requires ' ' !in octet
    ensures Upto("10.0.0." + (octet + (" - - [05/May/2026:12:00:" + rest)), ' ')
         == ("10.0.0." + octet, "- - [" + ("05/May/2026:12:00:" + rest))
  {
    var x, y := "10.0.0." + octet, "- - [" + ("05/May/2026:12:00:" + rest);
    assert "10.0.0." + (octet + (" - - [05/May/2026:12:00:" + rest)) == x + [' '] + y;
    UptoFirst(x, ' ', y);
  }

  lemma ReadsDate(seconds: string, rest: string)
    requires ' ' !in seconds
    ensures var date := "05/May/2026:12:00:" + (seconds + (" +0000] \"" + rest));
            && Upto("- - [" + date, '[').1 == date
            && Upto(date, ' ') == ("05/May/2026:12:00:" + seconds, "+0000] \"" + rest)
  {
    var date := "05/May/2026:12:00:" + (seconds + (" +0000] \"" + rest));
    var x, y := "05/May/2026:12:00:" + seconds, "+0000] \"" + rest;
    assert "- - [" + date == "- - " + ['['] + date;
    UptoFirst("- - ", '[', date);
    assert date == x + [' '] + y;
    UptoFirst(x, ' ', y);
  }

  lemma QuoteAndSpace(s: string, rest: string)
    ensures s + ("\" " + rest) == s + ['"'] + (" " + rest)
  {
  }

  lemma RequestQuoted(r: RequestLine, rest: string)
    ensures LogRequest(r, rest) == PrintRequestLine(r) + ['"'] + (" " + rest)
  {
    JoinedLeft(r.method_, " ", r.path + (" " + (r.proto + ("\" " + rest))));
    JoinedLeft(r.method_ + " ", r.path, " " + (r.proto + ("\" " + rest)));
    JoinedLeft(r.method_ + " " + r.path, " ", r.proto + ("\" " + rest));
    JoinedLeft(r.method_ + " " + r.path + " ", r.proto, "\" " + rest);
    QuoteAndSpace(PrintRequestLine(r), rest);
  }

  lemma ZoneSkipped(line: string)
    ensures Upto("+0000] \"" + line, '"').1 == line
  {
    assert "+0000] \"" + line == "+0000] " + ['"'] + line;
    UptoFirst("+0000] ", '"', line);
  }

  /** The request field is the text up to the first quote, so it is the request line if that has none. */
  lemma ReadsRequest(r: RequestLine, rest: string)
    requires '"' !in PrintRequestLine(r)
    ensures Upto(Upto("+0000] \"" + LogRequest(r, rest), '"').1, '"') == (PrintRequestLine(r), " " + rest)
  {
    hide Upto, LogRequest, PrintRequestLine;
    RequestQuoted(r, rest);
    ZoneSkipped(LogRequest(r, rest));
    UptoFirst(PrintRequestLine(r), '"', " " + rest);
  }

  lemma UptoSpace(x: string, y: string)
    requires ' ' !in x
    ensures Upto(x + (" " + y), ' ') == (x, y)
  {
    assert x + (" " + y) == x + [' '] + y;
    UptoFirst(x, ' ', y);
  }

  lemma LeadingSpace(y: string)
    ensures Upto(" " + y, ' ') == ("", y)
  {
    assert " " + y == "" + [' '] + y;
    UptoFirst("", ' ', y);
  }

  lemma ReadsNumbers(status: string, size: string, rest: string)
    requires ' ' !in status && ' ' !in size
    ensures var numbers := status + (" " + (size + (" " + rest)));
            && Upto(" " + numbers, ' ').1 == numbers
            && Upto(numbers, ' ') == (status, size + (" " + rest))
            && Upto(size + (" " + rest), ' ') == (size, rest)
  {
    hide Upto;
    LeadingSpace(status + (" " + (size + (" " + rest))));
    UptoSpace(status, size + (" " + rest));
    UptoSpace(size, rest);
  }

  lemma ReadsReferer(rest: string)
    ensures Upto(Upto("\"-\" \"" + rest, '"').1, '"') == ("-", " \"" + rest)
    ensures Upto(" \"" + rest, '"').1 == rest
  {
    assert "\"-\" \"" + rest == "" + ['"'] + ("-\" \"" + rest);
    UptoFirst("", '"', "-\" \"" + rest);
    assert "-\" \"" + rest == "-" + ['"'] + (" \"" + rest);
    UptoFirst("-", '"', " \"" + rest);
    assert " \"" + rest == " " + ['"'] + rest;
    UptoFirst(" ", '"', rest);
  }

  lemma ReadsAgent(agent: string)
    requires '"' !in agent
    ensures Upto(agent + "\"\n", '"') == (agent, "\n")
  {
    assert agent + "\"\n" == agent + ['"'] + "\n";
    UptoFirst(agent, '"', "\n");
  }

  lemma NumbersSeparated(route: Route, agent: string)
    ensures LogNumbers(route, agent)
         == Itoa(route.status) + (" " + (Itoa(|route.body|) + (" " + ("\"-\" \"" + (agent + "\"\n")))))
  {
    hide Itoa;
    assert " \"-\" \"" == " " + "\"-\" \"";
    JoinedLeft(" ", "\"-\" \"", agent + "\"\n");
  }

  /** Without quotes in what it quotes, the line is read back field by field. */
  lemma LogFields(i: nat, r: RequestLine, route: Route, agent: string)
    requires '"' !in PrintRequestLine(r) && '"' !in agent
    ensures ReadEntry(LogLine(i, r, route, agent))
         == Entry("10.0.0." + Itoa(i % 256), "05/May/2026:12:00:" + TwoDigit(i % 60), PrintRequestLine(r),
                  Itoa(route.status), Itoa(|route.body|), "-", agent, "\n")
  {
    hide Itoa, TwoDigit, PrintRequestLine, Upto, LogRequest, LogNumbers;
    var numbers := LogNumbers(route, agent);
    var seconds := TwoDigit(i % 60);
    ItoaIsPlain(i % 256);
    ItoaIsPlain(route.status);
    ItoaIsPlain(|route.body|);
    SecondsArePlain(i % 60);
    ReadsAddress(Itoa(i % 256), seconds + (" +0000] \"" + LogRequest(r, numbers)));
    ReadsDate(seconds, LogRequest(r, numbers));
    ReadsRequest(r, numbers);
    NumbersSeparated(route, agent);
    ReadsNumbers(Itoa(route.status), Itoa(|route.body|), "\"-\" \"" + (agent + "\"\n"));
    ReadsReferer(agent + "\"\n");
    ReadsAgent(agent);
  }

  lemma Prefixed(a: string, b: string)
    ensures (a + b)[..|a|] == a && (a + b)[|a|..] == b
  {
  }

  /** The log line is read back as what it logs exactly if neither the request line nor the agent contains a quote. */
  lemma LogReadsIff(i: nat, r: RequestLine, route: Route, agent: string)
    ensures Reads(LogLine(i, r, route, agent), i, r, route, agent)
            <==> '"' !in PrintRequestLine(r) && '"' !in agent
  {
    hide Itoa, TwoDigit, PrintRequestLine, LogLine, Upto;
    if '"' !in PrintRequestLine(r) && '"' !in agent {
      LogFields(i, r, route, agent);
      hide ReadEntry, ReadsAs;
      ItoaIsPlain(i % 256);
      ItoaIsPlain(route.status);
      ItoaIsPlain(|route.body|);
      SecondsArePlain(i % 60);
      Prefixed("10.0.0.", Itoa(i % 256));
      Prefixed("05/May/2026:12:00:", TwoDigit(i % 60));
      assert |"10.0.0."| == 7 && |"05/May/2026:12:00:"| == 18;
    }
  }
}
