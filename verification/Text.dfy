// Byte strings as the HTTP workload handles them. A byte is modelled by the char with its code.
module Text {

  predicate CrlfAt(s: string, i: int) {
    0 <= i && i + 1 < |s| && s[i] == '\r' && s[i + 1] == '\n'
  }

  ghost predicate NoCrlf(s: string) {
    forall i :: !CrlfAt(s, i)
  }

  /** The first CRLF at or after from, or -1: bytes.Index on the rest of the buffer. */
  function IndexCrlf(s: string, from: nat): (i: int)
    requires from <= |s|
    ensures i == -1 || from <= i <= |s| - 2
    ensures i >= 0 ==> CrlfAt(s, i)
    ensures forall k :: from <= k && (i == -1 || k < i) ==> !CrlfAt(s, k)
    decreases |s| - from
  {
    if from == |s| then -1 else if CrlfAt(s, from) then from else IndexCrlf(s, from + 1)
  }

  /** bytes.IndexByte. */
  function IndexByte(s: string, c: char): (i: int)
    ensures -1 <= i < |s|
    ensures i >= 0 ==> s[i] == c
    ensures forall k :: 0 <= k < (if i < 0 then |s| else i) ==> s[k] != c
  {
    if s == "" then -1
    else
      var i := IndexByte(s[..|s| - 1], c);
      if i >= 0 then i else if s[|s| - 1] == c then |s| - 1 else -1
  }

  /** The first occurrence is determined by what comes before it. */
  lemma IndexByteIs(s: string, c: char, i: nat)
    requires i < |s| && s[i] == c && c !in s[..i]
    ensures IndexByte(s, c) == i
  {
  }

  predicate Blank(c: char) {
    c == ' ' || c == '\t'
  }

  function TrimLeft(s: string): (t: string)
    ensures |t| <= |s| && t == s[|s| - |t|..]
    ensures t == "" || (t[0] != ' ' && t[0] != '\t')
    ensures forall k :: 0 <= k < |s| - |t| ==> s[k] == ' ' || s[k] == '\t'
  {
    if s != "" && Blank(s[0]) then TrimLeft(s[1..]) else s
  }

  /** An end of line is found right after a line that contains none. */
  lemma LineEnds(buf: string, pos: nat, line: string)
    requires pos + |line| + 2 <= |buf|
    requires buf[pos..pos + |line|] == line && NoCrlf(line)
    requires CrlfAt(buf, pos + |line|)
    ensures IndexCrlf(buf, pos) == pos + |line|
  {
    forall k | pos <= k < pos + |line|
      ensures !CrlfAt(buf, k)
    {
      assert !CrlfAt(line, k - pos);
      assert forall m :: 0 <= m < |line| ==> line[m] == buf[pos + m];
    }
  }

  // Decimal numbers.

  predicate Digit(c: char) {
    '0' <= c <= '9'
  }

  /** strconv.Itoa of a non-negative number. */
  function Itoa(n: nat): (s: string)
    ensures s != "" && forall k :: 0 <= k < |s| ==> Digit(s[k])
    ensures n < 10 ==> |s| == 1
    ensures s[0] == '0' ==> n == 0
  {
    if n < 10 then [(n + 48) as char] else Itoa(n / 10) + [(n % 10 + 48) as char]
  }

  function Atoi(s: string): nat
    requires forall k :: 0 <= k < |s| ==> Digit(s[k])
  {
    if s == "" then 0
    else
      var last := s[|s| - 1];
      assert Digit(last);
      10 * Atoi(s[..|s| - 1]) + (last as int - 48)
  }

  lemma {:induction false} AtoiItoa(n: nat)
    ensures Atoi(Itoa(n)) == n
  {
    if n >= 10 {
      AtoiItoa(n / 10);
      assert Itoa(n)[..|Itoa(n)| - 1] == Itoa(n / 10);
    } else {
      assert Itoa(n)[..0] == "";
    }
  }

  lemma NoCrlfConcat(a: string, b: string)
    requires NoCrlf(a) && NoCrlf(b)
    requires a != "" && b != "" ==> a[|a| - 1] != '\r' || b[0] != '\n'
    ensures NoCrlf(a + b)
  {
    forall i
      ensures !CrlfAt(a + b, i)
    {
      assert !CrlfAt(a, i) && !CrlfAt(b, i - |a|);
    }
  }

  lemma NoCrlfWithout(s: string)
    requires '\r' !in s || '\n' !in s
    ensures NoCrlf(s)
  {
  }

  lemma NoCrlfPart(s: string, lo: nat, hi: nat)
    requires NoCrlf(s) && lo <= hi <= |s|
    ensures NoCrlf(s[lo..hi])
  {
    forall i
      ensures !CrlfAt(s[lo..hi], i)
    {
      assert !CrlfAt(s, lo + i);
    }
  }
}
