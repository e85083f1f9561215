// benchmarks/apache_like.go: parsing of requests, header names, and the framing of messages (RFC 9112, sections 2.1,
// 3, 4 and 5; RFC 9110, section 5.1).
module Http {
  import opened Options
  import opened Text

  datatype RequestLine = RequestLine(method_: string, path: string, proto: string)

  datatype Header = Header(name: string, value: string)

  // What a scan of the header lines yields: the headers recorded, the offset returned, and whether it succeeded.
  datatype Scanned = Scanned(headers: seq<Header>, end: nat, ok: bool)

  function ParseRequestLine(buf: string): Option<RequestLine> {
    var end := IndexCrlf(buf, 0);
    if end < 0 then None
    else
      var line := buf[..end];
      var sp1 := IndexByte(line, ' ');
      if sp1 < 0 then None
      else
        var sp2 := IndexByte(line[sp1 + 1..], ' ');
        if sp2 < 0 then None
        else Some(RequestLine(line[..sp1], line[sp1 + 1..sp1 + 1 + sp2], line[sp1 + 1 + sp2 + 1..]))
  }

  // Header names.

  function Fold(c: char, upper: bool): char {
    if upper && 'a' <= c <= 'z' then (c as int - 32) as char
    else if !upper && 'A' <= c <= 'Z' then (c as int + 32) as char
    else c
  }

  predicate StartsWord(name: string, i: nat)
    requires i <= |name|
  {
    i == 0 || name[i - 1] == '-'
  }

  /** Upper case at the start and after each hyphen, lower case elsewhere. */
  function Canonical(name: string): (r: string)
    ensures |r| == |name|
    ensures forall i :: 0 <= i < |name| ==> r[i] == Fold(name[i], StartsWord(name, i))
  {
    seq(|name|, i requires 0 <= i < |name| => Fold(name[i], StartsWord(name, i)))
  }

  function Lower(c: char): char {
    if 'A' <= c <= 'Z' then (c as int + 32) as char else c
  }

  ghost predicate SameName(a: string, b: string) {
    |a| == |b| && forall i :: 0 <= i < |a| ==> Lower(a[i]) == Lower(b[i])
  }

  lemma FoldProperties(c: char, d: char, upper: bool)
    ensures Fold(Fold(c, upper), upper) == Fold(c, upper)
    ensures Fold(c, upper) == '-' <==> c == '-'
    ensures Fold(c, upper) == Fold(d, upper) <==> Lower(c) == Lower(d)
  {
  }

  lemma WordStartsKept(name: string, i: nat)
    requires i <= |name|
    ensures StartsWord(Canonical(name), i) == StartsWord(name, i)
  {
  }

  ghost predicate FoldedAt(r: string, name: string, i: nat)
    requires i < |r| == |name|
  {
    && Lower(r[i]) == Lower(name[i])
    && (if i == 0 || name[i - 1] == '-' then !('a' <= r[i] <= 'z') else !('A' <= r[i] <= 'Z'))
  }

  lemma LetterIsFolded(c: char, d: char, upper: bool)
    ensures d == Fold(c, upper) <==>
              Lower(d) == Lower(c) && (if upper then !('a' <= d <= 'z') else !('A' <= d <= 'Z'))
  {
  }

  /**
   * The canonical name is the one with the same letters in which none is lower case at the start or after a hyphen, and
   * none upper case elsewhere.
   */
  lemma CanonicalIffFolded(name: string, r: string)
    ensures r == Canonical(name) <==> |r| == |name| && forall i: nat :: i < |r| ==> FoldedAt(r, name, i)
  {
    hide Fold, Lower, Canonical;
    if |r| == |name| {
      forall i: nat | i < |r|
        ensures FoldedAt(r, name, i) <==> r[i] == Canonical(name)[i]
      {
        LetterIsFolded(name[i], r[i], StartsWord(name, i));
      }
    }
  }

  lemma CanonicalIsIdempotent(name: string)
    ensures Canonical(Canonical(name)) == Canonical(name)
  {
  }

  /** A hyphen separates words that are folded on their own. */
  lemma CanonicalByWords(a: string, b: string)
    ensures Canonical(a + "-" + b) == Canonical(a) + "-" + Canonical(b)
  {
    hide Fold, Canonical;
    FoldProperties('-', '-', true);
    FoldProperties('-', '-', false);
    var name := a + "-" + b;
    forall i | 0 <= i < |name|
      ensures Canonical(name)[i] == (Canonical(a) + "-" + Canonical(b))[i]
    {
      if i > |a| { assert StartsWord(name, i) == StartsWord(b, i - |a| - 1); }
    }
  }

  lemma SameNameSameWords(a: string, b: string, i: nat)
    requires SameName(a, b) && i <= |a|
    ensures StartsWord(a, i) == StartsWord(b, i)
  {
  }

  /** Canonical names agree exactly when the raw names agree up to ASCII case. */
  lemma CanonicalIffSameName(a: string, b: string)
    ensures Canonical(a) == Canonical(b) <==> SameName(a, b)
  {
    hide Fold, StartsWord, Canonical, Lower;
    if SameName(a, b) {
      forall i | 0 <= i < |a|
        ensures Canonical(a)[i] == Canonical(b)[i]
      {
        SameNameSameWords(a, b, i);
        FoldProperties(a[i], b[i], StartsWord(a, i));
      }
    }
    if Canonical(a) == Canonical(b) {
      forall i | 0 <= i < |a|
        ensures Lower(a[i]) == Lower(b[i])
      {
        WordStartsKept(a, i);
        WordStartsKept(b, i);
        assert Canonical(a)[i] == Canonical(b)[i];
        FoldProperties(a[i], b[i], StartsWord(a, i));
      }
    }
  }

  // Header lines.

  function HeaderOf(line: string, colon: nat): Header
    requires colon < |line|
  {
    Header(Canonical(line[..colon]), TrimLeft(line[colon + 1..]))
  }

  /** What parseHeaders does from offset pos on. */
  function Scan(buf: string, pos: nat): Scanned
    requires pos <= |buf|
    decreases |buf| - pos
  {
    if pos == |buf| then Scanned([], pos, true)
    else if CrlfAt(buf, pos) then Scanned([], pos + 2, true)
    else
      var e := IndexCrlf(buf, pos);
      if e < 0 then Scanned([], 0, false)
      else
        var colon := IndexByte(buf[pos..e], ':');
        if colon < 0 then Scanned([], 0, false)
        else
          var rest := Scan(buf, e + 2);
          rest.(headers := [HeaderOf(buf[pos..e], colon)] + rest.headers)
  }

  /** The three ways a scan step ends the scan, and the one in which it goes on. */
  lemma ScanStops(buf: string, pos: nat)
    requires pos <= |buf|
    ensures pos == |buf| ==> Scan(buf, pos) == Scanned([], pos, true)
    ensures CrlfAt(buf, pos) ==> Scan(buf, pos) == Scanned([], pos + 2, true)
    ensures pos < |buf| && IndexCrlf(buf, pos) < 0 ==> Scan(buf, pos) == Scanned([], 0, false)
  {
  }

  lemma ScanStep(buf: string, pos: nat, e: nat, colon: int)
    requires pos < |buf| && !CrlfAt(buf, pos) && e == IndexCrlf(buf, pos) && colon == IndexByte(buf[pos..e], ':')
    ensures colon < 0 ==> Scan(buf, pos) == Scanned([], 0, false)
    ensures colon >= 0 ==>
              var rest := Scan(buf, e + 2);
              Scan(buf, pos) == rest.(headers := [HeaderOf(buf[pos..e], colon)] + rest.headers)
  {
    hide HeaderOf, IndexByte, IndexCrlf, CrlfAt;
  }

  function ScanAll(buf: string): Scanned {
    var e := IndexCrlf(buf, 0);
    if e < 0 then Scanned([], 0, false) else Scan(buf, e + 2)
  }

  // Where the scan stops, and when it succeeds, said without following it.

  ghost predicate BlankLineAt(buf: string, q: int) {
    CrlfAt(buf, q) && CrlfAt(buf, q + 2)
  }

  /** q is the offset of the first CRLF CRLF, or of the end of a buffer that has none. */
  ghost predicate HeadEnd(buf: string, q: nat) {
    && q <= |buf|
    && (q == |buf| || BlankLineAt(buf, q))
    && forall k :: 0 <= k < q ==> !BlankLineAt(buf, k)
  }

  /** buf[b..e] is a non-empty line between two consecutive CRLFs, after the first line and before offset q. */
  ghost predicate HeadLine(buf: string, b: nat, e: nat, q: nat) {
    && 2 <= b < e <= q && CrlfAt(buf, b - 2) && CrlfAt(buf, e)
    && forall k :: b <= k < e ==> !CrlfAt(buf, k)
  }

  ghost predicate LinesHaveColons(buf: string, from: nat, q: nat) {
    forall b: nat, e: nat :: from <= b && HeadLine(buf, b, e, q) ==> ':' in buf[b..e]
  }

  predicate EndsWithCrlf(buf: string) {
    CrlfAt(buf, |buf| - 2)
  }

  /** Before a non-empty line the head cannot end. */
  lemma HeadGoesOn(buf: string, pos: nat, q: nat)
    requires 2 <= pos < |buf| && CrlfAt(buf, pos - 2) && !CrlfAt(buf, pos)
    requires HeadEnd(buf, q) && pos - 2 <= q
    ensures var e := IndexCrlf(buf, pos); e < 0 ==> q == |buf| && !EndsWithCrlf(buf)
    ensures var e := IndexCrlf(buf, pos); e >= 0 ==> pos < e <= q && HeadLine(buf, pos, e, q)
  {
  }

  /** The lines from pos on are the one that starts there and the lines from the next on. */
  lemma LinesFrom(buf: string, pos: nat, e: nat, q: nat)
    requires HeadLine(buf, pos, e, q)
    ensures LinesHaveColons(buf, pos, q) <==> ':' in buf[pos..e] && LinesHaveColons(buf, e + 2, q)
  {
  }

  /** At an empty line, and at the end of the buffer, the head is over. */
  lemma HeadIsOver(buf: string, pos: nat, q: nat)
    requires 2 <= pos <= |buf| && CrlfAt(buf, pos - 2)
    requires HeadEnd(buf, q) && pos - 2 <= q
    requires pos == |buf| || CrlfAt(buf, pos)
    ensures LinesHaveColons(buf, pos, q)
    ensures if pos == |buf| then q == |buf| && EndsWithCrlf(buf) else q == pos - 2
  {
    if pos == |buf| {
      assert q < |buf| ==> q + 3 < |buf|;
    } else {
      assert BlankLineAt(buf, pos - 2);
    }
  }

  lemma NotPastEnd(buf: string, q: nat)
    requires HeadEnd(buf, q)
    ensures q <= |buf|
  {
  }

  lemma {:induction false} ScanFrom(buf: string, pos: nat, q: nat)
    requires 2 <= pos <= |buf| && CrlfAt(buf, pos - 2)
    requires HeadEnd(buf, q) && pos - 2 <= q
    ensures Scan(buf, pos).ok <==> (q < |buf| || EndsWithCrlf(buf)) && LinesHaveColons(buf, pos, q)
    ensures Scan(buf, pos).ok ==> Scan(buf, pos).end == if q < |buf| then q + 4 else |buf|
    decreases |buf| - pos
  {
    hide HeadEnd, LinesHaveColons, EndsWithCrlf, Scan, CrlfAt, HeaderOf;
    ScanStops(buf, pos);
    if pos == |buf| || CrlfAt(buf, pos) {
      HeadIsOver(buf, pos, q);
    } else {
      HeadGoesOn(buf, pos, q);
      var e := IndexCrlf(buf, pos);
      if e >= 0 {
        ScanStep(buf, pos, e, IndexByte(buf[pos..e], ':'));
        LinesFrom(buf, pos, e, q);
        ScanFrom(buf, e + 2, q);
      } else {
        NotPastEnd(buf, q);
      }
    }
  }

  lemma TheHeadEnd(buf: string) returns (q: nat)
    ensures HeadEnd(buf, q) && forall p: nat :: HeadEnd(buf, p) ==> p == q
  {
    q := 0;
    while q < |buf| && !BlankLineAt(buf, q)
      invariant q <= |buf|
      invariant forall k :: 0 <= k < q ==> !BlankLineAt(buf, k)
    {
      q := q + 1;
    }
  }

  /**
   * Every buffer has one head, up to q. The scan succeeds exactly if the buffer has a first line, every line of the
   * head has a colon, and the head ends: by an empty line, or with the buffer at the end of a line. Its offset is then
   * just past the first CRLF CRLF, or the length of a buffer without one.
   */
  lemma ScanEnds(buf: string) returns (q: nat)
    ensures HeadEnd(buf, q) && forall p: nat :: HeadEnd(buf, p) ==> p == q
    ensures ScanAll(buf).ok <==>
              !NoCrlf(buf) && (q < |buf| || EndsWithCrlf(buf)) && LinesHaveColons(buf, 2, q)
    ensures ScanAll(buf).ok ==> ScanAll(buf).end == if q < |buf| then q + 4 else |buf|
  {
    hide Scan;
    q := TheHeadEnd(buf);
    var e := IndexCrlf(buf, 0);
    if e >= 0 {
      assert !NoCrlf(buf);
      ScanFrom(buf, e + 2, q);
      assert LinesHaveColons(buf, 2, q) <==> LinesHaveColons(buf, e + 2, q) by {
        forall b: nat, f: nat | 2 <= b && HeadLine(buf, b, f, q)
          ensures b >= e + 2
        {
          assert CrlfAt(buf, b - 2);
        }
      }
    }
  }

  /** h is recorded from the line that starts at start. */
  predicate RecordedLine(buf: string, start: nat, h: Header) {
    && start <= |buf| && IndexCrlf(buf, start) >= 0
    && var line := buf[start..IndexCrlf(buf, start)];
    && IndexByte(line, ':') >= 0
    && h == HeaderOf(line, IndexByte(line, ':'))
  }

  predicate NextLine(buf: string, start: nat, next: nat) {
    start <= |buf| && next == IndexCrlf(buf, start) + 2
  }

  /**
   * headers are recorded, one each, from all the lines between pos and stop: starts are the offsets at which they
   * start.
   */
  ghost predicate FromLines(buf: string, pos: nat, starts: seq<nat>, headers: seq<Header>, stop: nat) {
    && |starts| == |headers|
    && (if starts == [] then stop == pos else starts[0] == pos && NextLine(buf, starts[|starts| - 1], stop))
    && (forall k :: 0 <= k < |starts| ==> RecordedLine(buf, starts[k], headers[k]))
    && (forall k :: 0 <= k < |starts| - 1 ==> NextLine(buf, starts[k], starts[k + 1]))
  }

  lemma OneMoreLine(buf: string, pos: nat, h: Header, next: nat, starts: seq<nat>, headers: seq<Header>, stop: nat)
    requires RecordedLine(buf, pos, h) && NextLine(buf, pos, next) && FromLines(buf, next, starts, headers, stop)
    ensures FromLines(buf, pos, [pos] + starts, [h] + headers, stop)
  {
    hide RecordedLine, NextLine;
    forall k | 0 <= k < |starts| + 1
      ensures RecordedLine(buf, ([pos] + starts)[k], ([h] + headers)[k])
      ensures k < |starts| ==> NextLine(buf, ([pos] + starts)[k], starts[k])
    {
      if k > 0 { assert RecordedLine(buf, starts[k - 1], headers[k - 1]); }
    }
  }

  /**
   * A scan comes to rest at stop: with success at an empty line or at the end of the buffer, with failure at a line
   * that does not end or has no colon.
   */
  ghost predicate Rests(buf: string, stop: nat, r: Scanned) {
    && stop <= |buf|
    && if r.ok then if stop == |buf| then r.end == stop else CrlfAt(buf, stop) && r.end == stop + 2
       else r.end == 0 && stop < |buf| && !CrlfAt(buf, stop)
            && (IndexCrlf(buf, stop) < 0 || ':' !in buf[stop..IndexCrlf(buf, stop)])
  }

  lemma ScanRests(buf: string, pos: nat)
    requires pos <= |buf| && Scan(buf, pos).headers == []
    ensures Rests(buf, pos, Scan(buf, pos))
  {
    hide Scan, CrlfAt, HeaderOf;
    ScanStops(buf, pos);
    if pos < |buf| && !CrlfAt(buf, pos) && IndexCrlf(buf, pos) >= 0 {
      var e: nat := IndexCrlf(buf, pos);
      ScanStep(buf, pos, e, IndexByte(buf[pos..e], ':'));
    }
  }

  lemma SameRest(buf: string, stop: nat, r: Scanned, s: Scanned)
    requires Rests(buf, stop, r) && s.ok == r.ok && s.end == r.end
    ensures Rests(buf, stop, s)
  {
  }

  lemma HeaderLineEnds(buf: string, pos: nat) returns (e: nat)
    requires pos <= |buf| && Scan(buf, pos).headers != []
    ensures pos < |buf| && !CrlfAt(buf, pos) && e == IndexCrlf(buf, pos)
  {
    hide Scan, CrlfAt;
    ScanStops(buf, pos);
    e := IndexCrlf(buf, pos);
  }

  lemma HeaderLineAt(buf: string, pos: nat, e: nat, colon: int)
    requires pos < |buf| && !CrlfAt(buf, pos) && e == IndexCrlf(buf, pos) && colon == IndexByte(buf[pos..e], ':')
    requires Scan(buf, pos).headers != []
    ensures 0 <= colon < e - pos && NextLine(buf, pos, e + 2)
    ensures RecordedLine(buf, pos, HeaderOf(buf[pos..e], colon))
    ensures var rest := Scan(buf, e + 2);
            Scan(buf, pos) == rest.(headers := [HeaderOf(buf[pos..e], colon)] + rest.headers)
  {
    hide Scan, CrlfAt, HeaderOf;
    ScanStep(buf, pos, e, colon);
  }

  /** The headers recorded are those of all the lines from pos to where the scan comes to rest, in order. */
  lemma {:induction false} HeadersOfLines(buf: string, pos: nat) returns (starts: seq<nat>, stop: nat)
    requires pos <= |buf|
    ensures FromLines(buf, pos, starts, Scan(buf, pos).headers, stop) && Rests(buf, stop, Scan(buf, pos))
    decreases |buf| - pos
  {
    hide Scan, RecordedLine, NextLine, HeaderOf, Rests;
    if Scan(buf, pos).headers == [] {
      starts, stop := [], pos;
      ScanRests(buf, pos);
    } else {
      var e := HeaderLineEnds(buf, pos);
      var colon := IndexByte(buf[pos..e], ':');
      HeaderLineAt(buf, pos, e, colon);
      starts, stop := HeadersOfLines(buf, e + 2);
      OneMoreLine(buf, pos, HeaderOf(buf[pos..e], colon), e + 2, starts, Scan(buf, e + 2).headers, stop);
      starts := [pos] + starts;
      SameRest(buf, stop, Scan(buf, e + 2), Scan(buf, pos));
    }
  }
}
