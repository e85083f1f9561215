// benchmarks/apache_like.go: the request loop, its responses and log lines, and the checksum over them.
module ApacheLike {
  import opened AccessLog
  import opened Http
  import opened Messages
  import opened Options
  import opened Routing
  import opened Text

  const APACHE_MEDIUM := 1000

  function StatusText(code: nat): string {
    match code
    case 200 => "OK"
    case 301 => "Moved Permanently"
    case 302 => "Found"
    case 304 => "Not Modified"
    case 400 => "Bad Request"
    case 403 => "Forbidden"
    case 404 => "Not Found"
    case 500 => "Internal Server Error"
    case _ => "Unknown"
  }

  function StatusLine(proto: string, status: nat): string {
    proto + " " + Itoa(status) + " " + StatusText(status)
  }

  function ResponseHeaders(route: Route): seq<Header> {
    [Header("Server", "cpu-bench-apache/0.1"),
     Header("Date", "Tue, 05 May 2026 12:00:00 GMT"),
     Header("Content-Type", route.contentType),
     Header("Content-Length", Itoa(|route.body|)),
     Header("Connection", "keep-alive")]
  }

  function Response(proto: string, route: Route): string {
    Message(StatusLine(proto, route.status), ResponseHeaders(route), route.body)
  }

  lemma CanonicalShort()
    ensures Canonical("Server") == "Server" && Canonical("Date") == "Date"
  {
  }

  lemma CanonicalWords()
    ensures Canonical("Content") == "Content" && Canonical("Type") == "Type" && Canonical("Length") == "Length"
  {
  }

  lemma CanonicalContent()
    ensures Canonical("Content-Type") == "Content-Type" && Canonical("Content-Length") == "Content-Length"
  {
    CanonicalWords();
    hide Canonical;
    CanonicalByWords("Content", "Type");
    CanonicalByWords("Content", "Length");
    assert "Content" + "-" + "Type" == "Content-Type";
    assert "Content" + "-" + "Length" == "Content-Length";
  }

  lemma CanonicalConnection()
    ensures Canonical("Connection") == "Connection"
  {
  }

  lemma DigitsHaveNoCrlf(n: nat)
    ensures NoCrlf(Itoa(n)) && !Blank(Itoa(n)[0])
  {
  }

  lemma EarlyStatusTexts(status: nat)
    requires status < 400
    ensures '\r' !in StatusText(status)
  {
  }

  lemma LateStatusTexts(status: nat)
    requires status >= 400
    ensures '\r' !in StatusText(status)
  {
  }

  lemma StatusTextIsPlain(status: nat)
    ensures NoCrlf(StatusText(status))
  {
    if status < 400 { EarlyStatusTexts(status); } else { LateStatusTexts(status); }
  }

  lemma StatusLineHasNoCrlf(proto: string, status: nat)
    requires NoCrlf(proto)
    ensures NoCrlf(StatusLine(proto, status))
  {
    hide NoCrlf, Itoa, StatusText;
    var text := StatusText(status);
    StatusTextIsPlain(status);
    NoCrlfWithout(" ");
    DigitsHaveNoCrlf(status);
    NoCrlfConcat(proto, " ");
    NoCrlfConcat(proto + " ", Itoa(status));
    NoCrlfConcat(proto + " " + Itoa(status), " ");
    NoCrlfConcat(proto + " " + Itoa(status) + " ", text);
  }

  lemma PlainHeader(name: string, value: string)
    requires '\r' !in name && ':' !in name && NoCrlf(value)
    ensures Printable(Header(name, value))
  {
  }

  lemma StartsResponse(proto: string, route: Route)
    ensures StatusLine(proto, route.status) + "\r\n" <= Response(proto, route)
  {
    hide StatusLine, PrintHeaders;
  }

  /** The status line reads as protocol, code and text, exactly if there is no space in the protocol. */
  lemma StatusLineReadsIff(proto: string, route: Route)
    requires NoCrlf(proto)
    ensures (ParseRequestLine(Response(proto, route))
             == Some(RequestLine(proto, Itoa(route.status), StatusText(route.status))))
            <==> ' ' !in proto
    ensures Atoi(Itoa(route.status)) == route.status
  {
    var r := RequestLine(proto, Itoa(route.status), StatusText(route.status));
    DigitsHaveNoCrlf(route.status);
    assert ' ' !in Itoa(route.status) by { assert forall k :: 0 <= k < |r.path| ==> Digit(r.path[k]); }
    StatusTextIsPlain(route.status);
    AtoiItoa(route.status);
    hide Itoa, StatusText, NoCrlf, ParseRequestLine;
    assert StatusLine(proto, route.status) == PrintRequestLine(r);
    StartsResponse(proto, route);
    ParsesIffPrinted(Response(proto, route), r);
  }

  lemma CodesPrinted()
    ensures Itoa(200) == "200" && Itoa(301) == "301" && Itoa(302) == "302" && Itoa(304) == "304"
    ensures Itoa(400) == "400" && Itoa(403) == "403" && Itoa(404) == "404" && Itoa(500) == "500"
  {
    assert Itoa(20) == "20" && Itoa(30) == "30" && Itoa(40) == "40" && Itoa(50) == "50";
  }

  lemma DefaultStatuses()
    ensures forall i :: 0 <= i < |DEFAULT_ROUTES| ==>
              DEFAULT_ROUTES[i].status ==
              if i == 5 then 302 else if i == 14 || i == 15 then 403 else if i == 18 then 301
              else if i == 19 then 404 else 200
  {
  }

  lemma KnownStatusLines(proto: string)
    ensures StatusLine(proto, 200) == proto + " " + "200" + " " + "OK"
    ensures StatusLine(proto, 302) == proto + " " + "302" + " " + "Found"
    ensures StatusLine(proto, 301) == proto + " " + "301" + " " + "Moved Permanently"
    ensures StatusLine(proto, 403) == proto + " " + "403" + " " + "Forbidden"
    ensures StatusLine(proto, 404) == proto + " " + "404" + " " + "Not Found"
    ensures StatusLine(proto, 304) == proto + " " + "304" + " " + "Not Modified"
    ensures StatusLine(proto, 400) == proto + " " + "400" + " " + "Bad Request"
    ensures StatusLine(proto, 500) == proto + " " + "500" + " " + "Internal Server Error"
  {
    CodesPrinted();
    hide Itoa;
  }

  /** The status lines that the default routes lead to, and those of the other known codes. */
  lemma StatusLines(proto: string)
    ensures forall i :: 0 <= i < |DEFAULT_ROUTES| ==>
              StatusLine(proto, DEFAULT_ROUTES[i].status) ==
              if i == 5 then proto + " " + "302" + " " + "Found"
              else if i == 14 || i == 15 then proto + " " + "403" + " " + "Forbidden"
              else if i == 18 then proto + " " + "301" + " " + "Moved Permanently"
              else if i == 19 then proto + " " + "404" + " " + "Not Found"
              else proto + " " + "200" + " " + "OK"
    ensures StatusLine(proto, 304) == proto + " " + "304" + " " + "Not Modified"
    ensures StatusLine(proto, 400) == proto + " " + "400" + " " + "Bad Request"
    ensures StatusLine(proto, 500) == proto + " " + "500" + " " + "Internal Server Error"
  {
    CodesPrinted();
    hide Itoa;
    KnownStatusLines(proto);
    DefaultStatuses();
    hide StatusLine, StatusText;
  }

  lemma FixedResponseValues()
    ensures NoCrlf("cpu-bench-apache/0.1") && NoCrlf("keep-alive") && NoCrlf("Tue, 05 May 2026 12:00:00 GMT")
  {
  }

  lemma FixedResponseHeaders()
    ensures Printable(Header("Server", "cpu-bench-apache/0.1")) && Printable(Header("Connection", "keep-alive"))
    ensures Printable(Header("Date", "Tue, 05 May 2026 12:00:00 GMT"))
  {
    hide NoCrlf, Printable;
    FixedResponseValues();
    PlainHeader("Server", "cpu-bench-apache/0.1");
    PlainHeader("Connection", "keep-alive");
    PlainHeader("Date", "Tue, 05 May 2026 12:00:00 GMT");
  }

  lemma ResponseHeadersArePrintable(route: Route)
    requires NoCrlf(route.contentType)
    ensures forall k :: 0 <= k < 5 ==> Printable(ResponseHeaders(route)[k])
  {
    hide NoCrlf, Printable, Itoa;
    FixedResponseHeaders();
    DigitsHaveNoCrlf(|route.body|);
    PlainHeader("Content-Type", route.contentType);
    PlainHeader("Content-Length", Itoa(|route.body|));
  }

  lemma LookupStep(hs: seq<Header>, want: string)
    requires hs != []
    ensures Lookup(hs, want) == if hs[0].name == want then hs[0].value else Lookup(hs[1..], want)
  {
  }

  lemma ContentLengthFound(route: Route)
    ensures Lookup(ResponseHeaders(route), "Content-Length") == Itoa(|route.body|)
  {
    hide Itoa, Lookup;
    var hs := ResponseHeaders(route);
    assert |"Content-Length"| == 14 && |"Content-Type"| == 12 && |"Server"| == 6 && |"Date"| == 4;
    LookupStep(hs, "Content-Length");
    LookupStep(hs[1..], "Content-Length");
    LookupStep(hs[2..], "Content-Length");
    LookupStep(hs[3..], "Content-Length");
    assert hs[1..][1..] == hs[2..] && hs[2..][1..] == hs[3..];
  }

  lemma FixedHeadersRecorded()
    ensures Recorded(Header("Server", "cpu-bench-apache/0.1")) == Header("Server", "cpu-bench-apache/0.1")
    ensures Recorded(Header("Connection", "keep-alive")) == Header("Connection", "keep-alive")
  {
    hide Canonical;
    CanonicalShort();
    CanonicalConnection();
  }

  lemma DateRecorded()
    ensures Recorded(Header("Date", "Tue, 05 May 2026 12:00:00 GMT")) == Header("Date", "Tue, 05 May 2026 12:00:00 GMT")
  {
    hide Canonical;
    CanonicalShort();
  }

  lemma ContentHeadersRecorded(contentType: string, n: nat)
    ensures Recorded(Header("Content-Type", contentType)) == Header("Content-Type", TrimLeft(contentType))
    ensures Recorded(Header("Content-Length", Itoa(n))) == Header("Content-Length", Itoa(n))
  {
    hide Canonical, Itoa;
    CanonicalContent();
    DigitsHaveNoCrlf(n);
  }

  lemma ResponseHeadersRecorded(route: Route)
    ensures AllRecorded(ResponseHeaders(route)) == ResponseHeaders(route.(contentType := TrimLeft(route.contentType)))
  {
    hide Recorded, Itoa, TrimLeft;
    FixedHeadersRecorded();
    DateRecorded();
    ContentHeadersRecorded(route.contentType, |route.body|);
  }

  /**
   * The response is self-framing (RFC 9112, sections 4 and 6.2): parsed back, it yields the five headers in order and
   * leaves exactly the body, whose length is what Content-Length says.
   */
  lemma ResponseIsFramed(request: string, route: Route)
    requires ParseRequestLine(request).Some? && NoCrlf(route.contentType)
    ensures var resp := Response(ParseRequestLine(request).value.proto, route);
            var r := ScanAll(resp);
            && r.ok && r.end <= |resp| && resp[r.end..] == route.body
            && r.headers == ResponseHeaders(route.(contentType := TrimLeft(route.contentType)))
            && Lookup(r.headers, "Content-Length") == Itoa(|route.body|)
            && Atoi(Lookup(r.headers, "Content-Length")) == |route.body|
  {
    hide NoCrlf, Itoa, Message, ScanAll, StatusLine, Printable, Lookup;
    ParsedPartsHaveNoCrlf(request);
    var proto := ParseRequestLine(request).value.proto;
    StatusLineHasNoCrlf(proto, route.status);
    ResponseHeadersArePrintable(route);
    MessageIsFramed(StatusLine(proto, route.status), ResponseHeaders(route), route.body);
    ResponseHeadersRecorded(route);
    ContentLengthFound(route.(contentType := TrimLeft(route.contentType)));
    AtoiItoa(|route.body|);
  }

  // The requests.

  const METHODS := ["GET", "GET", "GET", "POST", "HEAD"]
  const PATHS := [
    "/", "/index.html", "/about", "/contact", "/login",
    "/api/v1/users/42", "/api/v1/orders/recent", "/api/v1/products?cat=3",
    "/api/v2/status", "/static/css/main.css", "/static/js/app.js",
    "/static/img/logo.png", "/admin/dashboard", "/.git/config",
    "/health", "/metrics", "/old/page", "/missing/page"
  ]
  const HOSTS := ["example.com", "api.example.com", "static.example.com"]
  const AGENTS := [
    "Mozilla/5.0 (Macintosh; Intel Mac" + " OS X 14_0) AppleWebKit/605.1.15",
    "curl/8.4.0",
    "Go-http-client/1.1",
    "Mozilla/5.0 (X11; Linux x86_64)" + " Gecko/20100101 Firefox/120.0"
  ]

  function CommonHeaders(host: string, agent: string, i: nat): (hs: seq<Header>)
    ensures |hs| == 7
  {
    [Header("host", host),
     Header("USER-AGENT", agent),
     Header("accept", "text/html,application/xhtml+xml"),
     Header("Accept-Encoding", "gzip, deflate, br"),
     Header("accept-language", "en-US,en;q=0.9"),
     Header("X-Request-Id", "req-" + Itoa(i)),
     Header("X-Forwarded-For", "203.0.113." + Itoa(i % 256))]
  }

  function RequestBody(method_: string, i: nat): string {
    if method_ == "POST" then "{\"i\":" + Itoa(i) + "}" else ""
  }

  function RequestHeaders(method_: string, host: string, agent: string, i: nat): seq<Header> {
    CommonHeaders(host, agent, i)
    + if method_ == "POST" then
        [Header("Content-Type", "application/json"), Header("Content-Length", Itoa(|RequestBody(method_, i)|))]
      else []
  }

  function RequestText(method_: string, path: string, host: string, agent: string, i: nat): string {
    Message(PrintRequestLine(RequestLine(method_, path, "HTTP/1.1")),
            RequestHeaders(method_, host, agent, i), RequestBody(method_, i))
  }

  lemma LiteralValues()
    ensures NoCrlf("text/html,application/xhtml+xml") && NoCrlf("gzip, deflate, br") && NoCrlf("en-US,en;q=0.9")
  {
  }

  lemma NumberedValue(prefix: string, n: nat)
    requires '\r' !in prefix
    ensures NoCrlf(prefix + Itoa(n))
  {
  }

  lemma GivenHeadersArePrintable(host: string, agent: string)
    requires NoCrlf(host) && NoCrlf(agent)
    ensures Printable(Header("host", host)) && Printable(Header("USER-AGENT", agent))
  {
  }

  lemma FixedHeadersArePrintable()
    ensures Printable(Header("accept", "text/html,application/xhtml+xml"))
    ensures Printable(Header("Accept-Encoding", "gzip, deflate, br"))
    ensures Printable(Header("accept-language", "en-US,en;q=0.9"))
  {
    hide NoCrlf, Printable;
    LiteralValues();
    PlainHeader("accept", "text/html,application/xhtml+xml");
    PlainHeader("Accept-Encoding", "gzip, deflate, br");
    PlainHeader("accept-language", "en-US,en;q=0.9");
  }

  lemma NumberedHeadersArePrintable(i: nat)
    ensures Printable(Header("X-Request-Id", "req-" + Itoa(i)))
    ensures Printable(Header("X-Forwarded-For", "203.0.113." + Itoa(i % 256)))
  {
    hide Itoa, NoCrlf, Printable;
    NumberedValue("req-", i);
    NumberedValue("203.0.113.", i % 256);
    PlainHeader("X-Request-Id", "req-" + Itoa(i));
    PlainHeader("X-Forwarded-For", "203.0.113." + Itoa(i % 256));
  }

  lemma CommonHeadersArePrintable(host: string, agent: string, i: nat)
    requires NoCrlf(host) && NoCrlf(agent)
    ensures forall k :: 0 <= k < 7 ==> Printable(CommonHeaders(host, agent, i)[k])
  {
    hide Itoa, NoCrlf, Printable;
    GivenHeadersArePrintable(host, agent);
    FixedHeadersArePrintable();
    NumberedHeadersArePrintable(i);
  }

  lemma RequestHeadersArePrintable(method_: string, host: string, agent: string, i: nat)
    requires NoCrlf(host) && NoCrlf(agent)
    ensures var hs := RequestHeaders(method_, host, agent, i);
            forall k :: 0 <= k < |hs| ==> Printable(hs[k])
  {
    hide Itoa, NoCrlf, Printable, CommonHeaders;
    CommonHeadersArePrintable(host, agent, i);
    assert |CommonHeaders(host, agent, i)| == 7;
    DigitsHaveNoCrlf(|RequestBody(method_, i)|);
    PlainHeader("Content-Length", Itoa(|RequestBody(method_, i)|));
    NoCrlfWithout("application/json");
    PlainHeader("Content-Type", "application/json");
  }

  lemma HostAndAgentNames()
    ensures Canonical("host") == "Host" && Canonical("USER-AGENT") == "User-Agent"
  {
  }

  lemma FirstTwoFound(hs: seq<Header>)
    requires |hs| >= 2 && hs[0].name == "Host" && hs[1].name == "User-Agent"
    ensures Lookup(hs, "Host") == hs[0].value && Lookup(hs, "User-Agent") == hs[1].value
  {
  }

  /** A built request is read back as it was meant: line, host, agent and body. */
  lemma BuiltRequestParses(method_: string, path: string, host: string, agent: string, i: nat)
    requires PrintableLine(RequestLine(method_, path, "HTTP/1.1")) && NoCrlf(host) && NoCrlf(agent)
    ensures var buf := RequestText(method_, path, host, agent, i);
            var r := ScanAll(buf);
            && ParseRequestLine(buf) == Some(RequestLine(method_, path, "HTTP/1.1"))
            && r.ok && r.end <= |buf| && buf[r.end..] == RequestBody(method_, i)
            && Lookup(r.headers, "Host") == TrimLeft(host)
            && Lookup(r.headers, "User-Agent") == TrimLeft(agent)
  {
    hide NoCrlf, Itoa, ScanAll, Message, Printable, PrintableLine, Canonical, TrimLeft, RequestBody, Lookup;
    var hs := RequestHeaders(method_, host, agent, i);
    RequestHeadersArePrintable(method_, host, agent, i);
    RequestRoundTrip(RequestLine(method_, path, "HTTP/1.1"), hs, RequestBody(method_, i));
    HostAndAgentNames();
    var recorded := AllRecorded(hs);
    assert hs[0] == Header("host", host) && hs[1] == Header("USER-AGENT", agent);
    FirstTwoFound(recorded);
  }

  function BuiltRequest(i: nat): string {
    RequestText(METHODS[i % 5], PATHS[i % 18], HOSTS[i % 3], AGENTS[i % 4], i)
  }

  function BuiltRequests(n: nat): (rs: seq<string>)
    ensures |rs| == n
  {
    seq(n, i requires 0 <= i < n => BuiltRequest(i))
  }

  lemma MethodsAndHostsArePlain()
    ensures forall k :: 0 <= k < 5 ==> '\r' !in METHODS[k] && ' ' !in METHODS[k]
    ensures forall k :: 0 <= k < 3 ==> '\r' !in HOSTS[k]
  {
  }

  lemma FirstBrowserIsPlain()
    ensures '\r' !in AGENTS[0]
  {
  }

  lemma SecondBrowserIsPlain()
    ensures '\r' !in AGENTS[3]
  {
  }

  lemma ToolsArePlain()
    ensures '\r' !in AGENTS[1] && '\r' !in AGENTS[2]
  {
  }

  lemma EarlyPathsArePlain()
    ensures forall k :: 0 <= k < 8 ==> '\r' !in PATHS[k] && ' ' !in PATHS[k]
  {
  }

  lemma LatePathsArePlain()
    ensures forall k :: 8 <= k < 18 ==> '\r' !in PATHS[k] && ' ' !in PATHS[k]
  {
  }

  lemma ProtoIsPlain()
    ensures NoCrlf("HTTP/1.1")
  {
  }

  lemma NothingToTrim(s: string)
    requires s != "" && !Blank(s[0])
    ensures TrimLeft(s) == s
  {
  }

  lemma HostsStartPlain(k: nat)
    requires k < 3
    ensures HOSTS[k] != "" && !Blank(HOSTS[k][0])
  {
  }

  lemma AgentsStartPlain(k: nat)
    requires k < 4
    ensures AGENTS[k] != "" && !Blank(AGENTS[k][0])
  {
  }

  /** buf is parsed back into what the i-th request was made of. */
  ghost predicate ReadsBack(buf: string, i: nat) {
    var r := ScanAll(buf);
    && ParseRequestLine(buf) == Some(RequestLine(METHODS[i % 5], PATHS[i % 18], "HTTP/1.1"))
    && r.ok && r.end <= |buf| && buf[r.end..] == RequestBody(METHODS[i % 5], i)
    && Lookup(r.headers, "Host") == HOSTS[i % 3]
    && Lookup(r.headers, "User-Agent") == AGENTS[i % 4]
  }

  /** Every request the benchmark builds is one the parser accepts, and reads back as what it was made of. */
  lemma BuiltRequestsParse(i: nat)
    ensures ParseRequestLine(BuiltRequest(i)).Some? && ScanAll(BuiltRequest(i)).ok
    ensures ReadsBack(BuiltRequest(i), i)
  {
    hide RequestText, NoCrlf, ParseRequestLine, ScanAll, TrimLeft, Lookup, RequestBody;
    MethodsAndHostsArePlain();
    FirstBrowserIsPlain();
    SecondBrowserIsPlain();
    ToolsArePlain();
    EarlyPathsArePlain();
    LatePathsArePlain();
    ProtoIsPlain();
    NoCrlfWithout(METHODS[i % 5]);
    NoCrlfWithout(PATHS[i % 18]);
    NoCrlfWithout(HOSTS[i % 3]);
    NoCrlfWithout(AGENTS[i % 4]);
    BuiltRequestParses(METHODS[i % 5], PATHS[i % 18], HOSTS[i % 3], AGENTS[i % 4], i);
    HostsStartPlain(i % 3);
    AgentsStartPlain(i % 4);
    NothingToTrim(HOSTS[i % 3]);
    NothingToTrim(AGENTS[i % 4]);
  }

  lemma PrintNothing()
    ensures PrintHeaders([]) == ""
  {
  }

  /** Appends one header line to the buffer, whose contents so far are before and the lines of hs. */
  method AppendHeader(buf: string, name: string, value: string, ghost before: string, ghost hs: seq<Header>)
    returns (r: string)
    requires buf == before + PrintHeaders(hs)
    ensures r == before + PrintHeaders(hs + [Header(name, value)])
  {
    WriteOneMore(before, hs, Header(name, value));
    r := buf + name;
    r := r + ": ";
    r := r + value;
    r := r + "\r\n";
  }

  method AppendCommonHeaders(buf: string, host: string, agent: string, i: nat) returns (b: string)
    ensures b == buf + PrintHeaders(CommonHeaders(host, agent, i))
  {
    hide Itoa, PrintHeaders;
    ghost var hs := CommonHeaders(host, agent, i);
    PrintNothing();
    assert hs[..1] == [] + [hs[0]] && hs[..2] == hs[..1] + [hs[1]] && hs[..3] == hs[..2] + [hs[2]];
    assert hs[..4] == hs[..3] + [hs[3]] && hs[..5] == hs[..4] + [hs[4]] && hs[..6] == hs[..5] + [hs[5]];
    assert hs == hs[..6] + [hs[6]];
    b := AppendHeader(buf, "host", host, buf, []);
    b := AppendHeader(b, "USER-AGENT", agent, buf, hs[..1]);
    b := AppendHeader(b, "accept", "text/html,application/xhtml+xml", buf, hs[..2]);
    b := AppendHeader(b, "Accept-Encoding", "gzip, deflate, br", buf, hs[..3]);
    b := AppendHeader(b, "accept-language", "en-US,en;q=0.9", buf, hs[..4]);
    b := AppendHeader(b, "X-Request-Id", "req-" + Itoa(i), buf, hs[..5]);
    b := AppendHeader(b, "X-Forwarded-For", "203.0.113." + Itoa(i % 256), buf, hs[..6]);
  }

  /** One request, written piece by piece. */
  method BuildRequest(method_: string, path: string, host: string, agent: string, i: nat) returns (b: string)
    ensures b == RequestText(method_, path, host, agent, i)
  {
    hide Itoa, PrintHeaders, CommonHeaders;
    b := method_;
    b := b + " ";
    b := b + path;
    b := b + " ";
    b := b + "HTTP/1.1";
    b := b + "\r\n";
    ghost var start := b;
    b := AppendCommonHeaders(b, host, agent, i);
    if method_ == "POST" {
      var body := "{\"i\":" + Itoa(i) + "}";
      ghost var hs := CommonHeaders(host, agent, i);
      ghost var more := hs + [Header("Content-Type", "application/json")];
      b := AppendHeader(b, "Content-Type", "application/json", start, hs);
      b := AppendHeader(b, "Content-Length", Itoa(|body|), start, more);
      assert more + [Header("Content-Length", Itoa(|body|))] == RequestHeaders(method_, host, agent, i);
      b := b + "\r\n";
      b := b + body;
    } else {
      assert CommonHeaders(host, agent, i) == RequestHeaders(method_, host, agent, i);
      b := b + "\r\n";
    }
  }

  /** The requests in order, each of which reads back as what it was made of. */
  method BuildRequests(n: nat) returns (out: seq<string>)
    ensures out == BuiltRequests(n)
    ensures forall i :: 0 <= i < n ==> ReadsBack(out[i], i)
  {
    hide RequestText, ReadsBack;
    out := [];
    for i := 0 to n
      invariant out == BuiltRequests(i)
      invariant forall k :: 0 <= k < i ==> ReadsBack(out[k], k)
    {
      var b := BuildRequest(METHODS[i % 5], PATHS[i % 18], HOSTS[i % 3], AGENTS[i % 4], i);
      BuiltRequestsParse(i);
      assert b == BuiltRequest(i);
      out := out + [b];
    }
  }

  // The request loop.

  // The FNV hash: its state, how bytes are folded in, and the sum.
  datatype Hash<!H> = Hash(init: H, write: (H, string) -> H, sum: H -> nat)

  /** The hash state after one request, or None if the request is malformed. */
  function HashRequest<H>(hash: Hash<H>, h: H, raw: string, i: nat, routes: seq<Route>): Option<H> {
    var line := ParseRequestLine(raw);
    var scanned := ScanAll(raw);
    if line.None? || !scanned.ok then None
    else
      var route := RouteFor(routes, line.value.path);
      var resp := Response(line.value.proto, route);
      var log := LogLine(i, line.value, route, Lookup(scanned.headers, "User-Agent"));
      Some(hash.write(hash.write(h, resp), log))
  }

  /** The hash state after the first k requests. */
  function Digest<H>(hash: Hash<H>, requests: seq<string>, routes: seq<Route>, k: nat): Option<H>
    requires k <= |requests|
  {
    if k == 0 then Some(hash.init)
    else
      var h := Digest(hash, requests, routes, k - 1);
      if h.None? then None else HashRequest(hash, h.value, requests[k - 1], k - 1, routes)
  }

  /** The checksum of a run: a function of the requests and the routes alone. */
  function Checksum<H>(hash: Hash<H>, requests: seq<string>, routes: seq<Route>): nat {
    var h := Digest(hash, requests, routes, |requests|);
    if h.None? then 0 else hash.sum(h.value)
  }

  lemma {:induction false} FailureStays<H>(hash: Hash<H>, requests: seq<string>, routes: seq<Route>, k: nat, m: nat)
    requires k <= m <= |requests| && Digest(hash, requests, routes, k).None?
    ensures Digest(hash, requests, routes, m).None?
  {
    hide HashRequest;
    if k < m { FailureStays(hash, requests, routes, k, m - 1); }
  }

  /** On the built requests the run never gives up. */
  lemma {:induction false} BuiltRequestsAreHashed<H>(hash: Hash<H>, n: nat, routes: seq<Route>, k: nat)
    requires k <= n
    ensures Digest(hash, BuiltRequests(n), routes, k).Some?
  {
    hide BuiltRequest, ParseRequestLine, ScanAll, RouteFor, Response, LogLine, Lookup;
    if k > 0 {
      BuiltRequestsAreHashed(hash, n, routes, k - 1);
      BuiltRequestsParse(k - 1);
    }
  }

  /** The outcome of a scan that has recorded hs before it comes to rest. */
  function After(hs: seq<Header>, rest: Scanned): Scanned {
    rest.(headers := hs + rest.headers)
  }

  lemma AfterNothing(rest: Scanned)
    ensures After([], rest) == rest
  {
  }

  lemma AfterStop(hs: seq<Header>, rest: Scanned)
    ensures rest.headers == [] ==> After(hs, rest) == rest.(headers := hs)
  {
  }

  lemma AfterStep(hs: seq<Header>, h: Header, rest: Scanned)
    ensures After(hs, rest.(headers := [h] + rest.headers)) == After(hs + [h], rest)
  {
  }

  lemma NoPairs()
    ensures Pairs([], []) == []
  {
  }

  class Server<H> {
    const hash: Hash<H>
    var n: nat
    var requests: seq<string>
    var routes: seq<Route>
    var respBuf: string
    var logBuf: string
    var hdrName: string
    var hdrVal: string
    var expected: nat
    var headerNames: seq<string>
    var headerValues: seq<string>

    ghost predicate Valid()
      reads this
    {
      expected == Checksum(hash, requests, routes)
    }

    constructor Setup(hash: Hash<H>, n: int)
      ensures Valid() && this.hash == hash
      ensures this.n == if n <= 0 then 1000 else n
      ensures requests == BuiltRequests(this.n) && routes == DEFAULT_ROUTES
    {
      var size := if n <= 0 then APACHE_MEDIUM else n;
      this.hash := hash;
      this.n := size;
      this.routes := DEFAULT_ROUTES;
      this.respBuf, this.logBuf, this.hdrName, this.hdrVal := "", "", "", "";
      this.headerNames, this.headerValues := [], [];
      new;
      requests := BuildRequests(size);
      expected := Run();
    }

    method CanonicalName(raw: string)
      modifies this`hdrName
      ensures hdrName == Canonical(raw)
    {
      hide Fold, Canonical;
      hdrName := "";
      var upper := true;
      for k := 0 to |raw|
        invariant hdrName == Canonical(raw)[..k]
        invariant upper == StartsWord(raw, k)
      {
        hdrName := hdrName + [Fold(raw[k], upper)];
        upper := raw[k] == '-';
      }
    }

    method TrimmedValue(raw: string)
      modifies this`hdrVal
      ensures hdrVal == TrimLeft(raw)
    {
      var v := raw;
      while |v| > 0 && Blank(v[0])
        invariant TrimLeft(v) == TrimLeft(raw)
      {
        v := v[1..];
      }
      hdrVal := v;
    }

    method Record(line: string, colon: nat)
      requires colon < |line| && |headerNames| == |headerValues|
      modifies this`headerNames, this`headerValues, this`hdrName, this`hdrVal
      ensures |headerNames| == |headerValues|
      ensures Pairs(headerNames, headerValues) == old(Pairs(headerNames, headerValues)) + [HeaderOf(line, colon)]
    {
      hide Canonical, TrimLeft;
      CanonicalName(line[..colon]);
      TrimmedValue(line[colon + 1..]);
      headerNames := headerNames + [hdrName];
      headerValues := headerValues + [hdrVal];
    }

    /** Leaves the recorded headers in the two lists, also when the scan fails half way. */
    method ParseHeaders(buf: string) returns (end: nat, ok: bool)
      modifies this`headerNames, this`headerValues, this`hdrName, this`hdrVal
      ensures |headerNames| == |headerValues| && Pairs(headerNames, headerValues) == ScanAll(buf).headers
      ensures end == ScanAll(buf).end && ok == ScanAll(buf).ok
    {
      hide Canonical, TrimLeft, Scan, Pairs, After, HeaderOf;
      headerNames, headerValues := [], [];
      var rlEnd := IndexCrlf(buf, 0);
      NoPairs();
      if rlEnd < 0 {
        return 0, false;
      }
      var pos := rlEnd + 2;
      AfterNothing(Scan(buf, pos));
      while pos < |buf|
        invariant pos <= |buf| && |headerNames| == |headerValues|
        invariant ScanAll(buf) == After(Pairs(headerNames, headerValues), Scan(buf, pos))
        decreases |buf| - pos
      {
        ghost var before := Pairs(headerNames, headerValues);
        AfterStop(before, Scan(buf, pos));
        ScanStops(buf, pos);
        if pos + 1 < |buf| && buf[pos] == '\r' && buf[pos + 1] == '\n' {
          return pos + 2, true;
        }
        var lineEnd := IndexCrlf(buf, pos);
        if lineEnd < 0 {
          return 0, false;
        }
        var line := buf[pos..lineEnd];
        var colon := IndexByte(line, ':');
        ScanStep(buf, pos, lineEnd, colon);
        if colon < 0 {
          return 0, false;
        }
        Record(line, colon);
        AfterStep(before, HeaderOf(line, colon), Scan(buf, lineEnd + 2));
        pos := lineEnd + 2;
      }
      AfterStop(Pairs(headerNames, headerValues), Scan(buf, pos));
      ScanStops(buf, pos);
      return pos, true;
    }

    method WriteHeader(name: string, value: string, ghost before: string, ghost hs: seq<Header>)
      requires respBuf == before + PrintHeaders(hs)
      modifies this`respBuf
      ensures respBuf == before + PrintHeaders(hs + [Header(name, value)])
    {
      respBuf := AppendHeader(respBuf, name, value, before, hs);
    }

    method WriteResponse(proto: string, route: Route)
      modifies this`respBuf
      ensures respBuf == Response(proto, route)
    {
      hide Itoa, StatusText, PrintHeaders;
      respBuf := proto;
      respBuf := respBuf + " ";
      respBuf := respBuf + Itoa(route.status);
      respBuf := respBuf + " ";
      respBuf := respBuf + StatusText(route.status);
      respBuf := respBuf + "\r\n";
      ghost var start := respBuf;
      ghost var hs := ResponseHeaders(route);
      PrintNothing();
      assert hs[..1] == [] + [hs[0]] && hs[..2] == hs[..1] + [hs[1]] && hs[..3] == hs[..2] + [hs[2]];
      assert hs[..4] == hs[..3] + [hs[3]] && hs == hs[..4] + [hs[4]];
      WriteHeader("Server", "cpu-bench-apache/0.1", start, []);
      WriteHeader("Date", "Tue, 05 May 2026 12:00:00 GMT", start, hs[..1]);
      WriteHeader("Content-Type", route.contentType, start, hs[..2]);
      WriteHeader("Content-Length", Itoa(|route.body|), start, hs[..3]);
      WriteHeader("Connection", "keep-alive", start, hs[..4]);
      respBuf := respBuf + "\r\n";
      respBuf := respBuf + route.body;
    }

    /** Appends a piece of line, of which rest is still to come. */
    method Log(piece: string, ghost rest: string, ghost line: string)
      requires logBuf + (piece + rest) == line
      modifies this`logBuf
      ensures logBuf + rest == line
    {
      JoinedLeft(logBuf, piece, rest);
      logBuf := logBuf + piece;
    }

    method WriteLogHead(i: nat, ghost request: string, ghost line: string)
      requires line == "10.0.0." + (Itoa(i % 256) + (" - - [05/May/2026:12:00:" + (TwoDigit(i % 60) + (" +0000] \""
                       + request))))
      modifies this`logBuf
      ensures logBuf + request == line
    {
      hide Itoa, TwoDigit;
      assert "" + line == line;
      logBuf := "";
      Log("10.0.0.",
          Itoa(i % 256) + (" - - [05/May/2026:12:00:" + (TwoDigit(i % 60) + (" +0000] \"" + request))), line);
      Log(Itoa(i % 256), " - - [05/May/2026:12:00:" + (TwoDigit(i % 60) + (" +0000] \"" + request)), line);
      Log(" - - [05/May/2026:12:00:", TwoDigit(i % 60) + (" +0000] \"" + request), line);
      Log(TwoDigit(i % 60), " +0000] \"" + request, line);
      Log(" +0000] \"", request, line);
    }

    method WriteLogRequest(r: RequestLine, ghost numbers: string, ghost line: string)
      requires logBuf + LogRequest(r, numbers) == line
      modifies this`logBuf
      ensures logBuf + numbers == line
    {
      Log(r.method_, " " + (r.path + (" " + (r.proto + ("\" " + numbers)))), line);
      Log(" ", r.path + (" " + (r.proto + ("\" " + numbers))), line);
      Log(r.path, " " + (r.proto + ("\" " + numbers)), line);
      Log(" ", r.proto + ("\" " + numbers), line);
      Log(r.proto, "\" " + numbers, line);
      Log("\" ", numbers, line);
    }

    method WriteLogNumbers(route: Route, agent: string, ghost line: string)
      requires logBuf + LogNumbers(route, agent) == line
      modifies this`logBuf
      ensures logBuf == line
    {
      hide Itoa;
      Log(Itoa(route.status), " " + (Itoa(|route.body|) + (" \"-\" \"" + (agent + "\"\n"))), line);
      Log(" ", Itoa(|route.body|) + (" \"-\" \"" + (agent + "\"\n")), line);
      Log(Itoa(|route.body|), " \"-\" \"" + (agent + "\"\n"), line);
      Log(" \"-\" \"", agent + "\"\n", line);
      Log(agent, "\"\n", line);
      logBuf := logBuf + "\"\n";
    }

    /** The log line, which reads back as what it logs exactly if no quote occurs in the request line or the agent. */
    method WriteLogLine(i: nat, r: RequestLine, route: Route, agent: string)
      modifies this`logBuf
      ensures logBuf == LogLine(i, r, route, agent)
      ensures Reads(logBuf, i, r, route, agent) <==> '"' !in PrintRequestLine(r) && '"' !in agent
    {
      hide Itoa, TwoDigit, Reads, PrintRequestLine, LogRequest, LogNumbers;
      ghost var line := LogLine(i, r, route, agent);
      ghost var numbers := LogNumbers(route, agent);
      WriteLogHead(i, LogRequest(r, numbers), line);
      WriteLogRequest(r, numbers, line);
      WriteLogNumbers(route, agent, line);
      LogReadsIff(i, r, route, agent);
    }

    /** One iteration of the request loop. */
    method Serve(h: H, raw: string, i: nat) returns (h': Option<H>)
      modifies this`respBuf, this`logBuf, this`hdrName, this`hdrVal, this`headerNames, this`headerValues
      ensures h' == HashRequest(hash, h, raw, i, routes)
    {
      hide ParseRequestLine, ScanAll, RouteFor, Response, LogLine, Lookup, Pairs;
      var line := ParseRequestLine(raw);
      if line.None? {
        return None;
      }
      var end, ok := ParseHeaders(raw);
      if !ok {
        return None;
      }
      var agent := LookupHeader(headerNames, headerValues, "User-Agent");
      var route := MatchRoute(routes, line.value.path);
      WriteResponse(line.value.proto, route);
      WriteLogLine(i, line.value, route, agent);
      return Some(hash.write(hash.write(h, respBuf), logBuf));
    }

    /** Whatever the scratch buffers and lists hold, the result is the checksum of the requests and routes. */
    method Run() returns (result: nat)
      modifies this`respBuf, this`logBuf, this`hdrName, this`hdrVal, this`headerNames, this`headerValues
      ensures result == Checksum(hash, requests, routes)
    {
      hide HashRequest;
      var h := hash.init;
      for i := 0 to |requests|
        invariant Digest(hash, requests, routes, i) == Some(h)
      {
        var next := Serve(h, requests[i], i);
        if next.None? {
          FailureStays(hash, requests, routes, i + 1, |requests|);
          return 0;
        }
        h := next.value;
      }
      return hash.sum(h);
    }

    /** Accepts every result of Run on a server set up alike. */
    method Verify(result: nat) returns (ok: bool)
      requires Valid()
      ensures ok <==> result == Checksum(hash, requests, routes)
    {
      return result == expected;
    }
  }

  /** A run's result passes the check of a second instance that was set up on its own. */
  method CrossCheck<H>(hash: Hash<H>, n: int) returns (ok: bool)
    ensures ok
  {
    hide Checksum;
    var first := new Server.Setup(hash, n);
    var second := new Server.Setup(hash, n);
    var result := first.Run();
    ok := second.Verify(result);
  }
}
