// benchmarks/php_like.go: Go iterates maps in an unspecified order, yet every run folds the same bytes into the
// checksum.
module PhpLike {
  import opened Options

  datatype Request = Request(
    userId: int,
    action: string,
    path: string,
    locale: string,
    token: string,
    payload: map<string, string>,
    tags: seq<string>,
    quantity: int)

  datatype Response = Response(
    userId: int,
    action: string,
    path: string,
    html: string,
    headers: map<string, string>,
    echo: map<string, string>)

  type Byte = x: int | 0 <= x < 256

  // Library functions, of which only determinism matters. encode sees maps as values: encoding/json sorts their keys.
  datatype Lib<!H> = Lib(
    decode: string -> Option<Request>,
    encode: Response -> Option<string>,
    mac: (string, string) -> seq<Byte>,
    escape: string -> string,
    decimal: int -> string,
    init: H,
    write: (H, string) -> H,
    writeBytes: (H, seq<Byte>) -> H,
    sum: H -> nat)

  // The order of sort.Strings.

  predicate Less(a: string, b: string) {
    if b == "" then false
    else if a == "" then true
    else a[0] < b[0] || (a[0] == b[0] && Less(a[1..], b[1..]))
  }

  lemma {:induction false} LessIsStrict(a: string, b: string)
    ensures !(Less(a, b) && Less(b, a)) && !Less(a, a)
  {
    if a != "" {
      LessIsStrict(a[1..], if b == "" then "" else b[1..]);
    }
  }

  lemma {:induction false} LessIsTotal(a: string, b: string)
    ensures Less(a, b) || a == b || Less(b, a)
  {
    if a != "" && b != "" {
      LessIsTotal(a[1..], b[1..]);
      assert a == [a[0]] + a[1..] && b == [b[0]] + b[1..];
    }
  }

  lemma {:induction false} LessIsTransitive(a: string, b: string, c: string)
    requires Less(a, b) && Less(b, c)
    ensures Less(a, c)
  {
    if a != "" && a[0] == b[0] == c[0] { LessIsTransitive(a[1..], b[1..], c[1..]); }
  }

  /** a comes before b: they agree up to k, where a ends or has the smaller byte. */
  ghost predicate BeforeAt(a: string, b: string, k: nat) {
    && k <= |a| && k < |b| && a[..k] == b[..k]
    && (k < |a| ==> a[k] < b[k])
  }

  lemma AgreesAtFirst(a: string, b: string, k: nat)
    requires BeforeAt(a, b, k)
    ensures k > 0 ==> a != "" && b != "" && a[0] == b[0]
  {
    if k > 0 { assert a[..k][0] == b[..k][0]; }
  }

  lemma FirstDiffers(a: string, b: string)
    requires a == "" || b == "" || a[0] != b[0]
    ensures Less(a, b) <==> exists k: nat :: BeforeAt(a, b, k)
  {
    if Less(a, b) { assert BeforeAt(a, b, 0); }
    if k: nat :| BeforeAt(a, b, k) { AgreesAtFirst(a, b, k); }
  }

  /** The order is lexicographic. */
  lemma {:induction false} LessIffBefore(a: string, b: string)
    ensures Less(a, b) <==> exists k: nat :: BeforeAt(a, b, k)
  {
    if b != "" && a != "" && a[0] == b[0] {
      LessIffBefore(a[1..], b[1..]);
      if k: nat :| BeforeAt(a, b, k) {
        assert k > 0;
        assert a[1..][..k - 1] == a[..k][1..] && b[1..][..k - 1] == b[..k][1..];
        assert BeforeAt(a[1..], b[1..], k - 1);
      }
      if k: nat :| BeforeAt(a[1..], b[1..], k) {
        assert a[..k + 1] == [a[0]] + a[1..][..k] && b[..k + 1] == [b[0]] + b[1..][..k];
        assert BeforeAt(a, b, k + 1);
      }
    } else {
      FirstDiffers(a, b);
    }
  }

  ghost predicate Ascending(keys: seq<string>) {
    forall i, j :: 0 <= i < j < |keys| ==> Less(keys[i], keys[j])
  }

  ghost predicate Listing(keys: seq<string>, all: set<string>) {
    Ascending(keys) && forall k :: k in keys <==> k in all
  }

  lemma FirstOfListing(s: seq<string>, t: seq<string>, all: set<string>)
    requires Listing(s, all) && Listing(t, all) && s != []
    ensures t != [] && s[0] == t[0]
  {
    assert s[0] in t;
    assert t[0] in s;
    LessIsStrict(s[0], t[0]);
  }

  lemma ListingTail(s: seq<string>, all: set<string>)
    requires Listing(s, all) && s != []
    ensures Listing(s[1..], all - {s[0]})
  {
    forall k
      ensures k in s[1..] <==> k in all - {s[0]}
    {
      if k in s[1..] {
        var i :| 1 <= i < |s| && s[i] == k;
        LessIsStrict(s[0], s[i]);
      }
      assert s == [s[0]] + s[1..];
    }
  }

  /** Two sorted listings of the same keys are equal, whatever order the keys were met in. */
  lemma {:induction false} ListingIsUnique(s: seq<string>, t: seq<string>, all: set<string>)
    requires Listing(s, all) && Listing(t, all)
    ensures s == t
    decreases |s|
  {
    assert t != [] ==> t[0] in t;
    if s != [] {
      FirstOfListing(s, t, all);
      ListingTail(s, all);
      ListingTail(t, all);
      ListingIsUnique(s[1..], t[1..], all - {s[0]});
      assert s == [s[0]] + s[1..] && t == [t[0]] + t[1..];
    }
  }

  /** key put in its place in an ascending list. */
  function Insert(keys: seq<string>, key: string): (r: seq<string>)
    ensures forall k :: k in r <==> k in keys || k == key
  {
    if keys == [] || Less(key, keys[0]) then [key] + keys
    else if key == keys[0] then keys
    else
      assert keys == [keys[0]] + keys[1..];
      [keys[0]] + Insert(keys[1..], key)
  }

  lemma {:induction false} InsertAscends(keys: seq<string>, key: string)
    requires Ascending(keys)
    ensures Ascending(Insert(keys, key))
  {
    if keys != [] {
      if Less(key, keys[0]) {
        forall j | 0 <= j < |keys|
          ensures Less(key, keys[j])
        {
          if j > 0 { LessIsTransitive(key, keys[0], keys[j]); }
        }
      } else if key != keys[0] {
        LessIsTotal(key, keys[0]);
        InsertAscends(keys[1..], key);
        var r := Insert(keys[1..], key);
        forall j | 0 <= j < |r|
          ensures Less(keys[0], r[j])
        {
          assert r[j] in r;
        }
      }
    }
  }

  /** sort.Strings on distinct keys, by its contract; insertion discharges it. */
  method SortStrings(keys: seq<string>) returns (sorted: seq<string>)
    ensures Ascending(sorted) && forall k :: k in sorted <==> k in keys
  {
    sorted := [];
    for i := 0 to |keys|
      invariant Ascending(sorted) && forall k :: k in sorted <==> k in keys[..i]
    {
      InsertAscends(sorted, keys[i]);
      sorted := Insert(sorted, keys[i]);
    }
  }

  // What one request contributes, as a function of its body.

  function TagKey<H>(lib: Lib<H>, i: nat): string {
    "tag_" + lib.decimal(i)
  }

  function WithTags<H>(lib: Lib<H>, m: map<string, string>, tags: seq<string>, k: nat): map<string, string>
    requires k <= |tags|
  {
    if k == 0 then m else WithTags(lib, m, tags, k - 1)[TagKey(lib, k - 1) := tags[k - 1]]
  }

  function WithFields<H>(lib: Lib<H>, r: Request): map<string, string> {
    r.payload["action" := r.action]["path" := r.path]["locale" := r.locale]
      ["user" := lib.decimal(r.userId)]["qty" := lib.decimal(r.quantity)]
  }

  function Scratch<H>(lib: Lib<H>, r: Request): map<string, string>
    requires |r.locale| >= 2
  {
    WithTags(lib, WithFields(lib, r), r.tags, |r.tags|)
      ["lang" := r.locale[..2]]["action_upper" := r.action + "_OK"]
  }

  /** A tag never overwrites the locale or the action, which are looked up after the tags are stored. */
  lemma {:induction false} TagsKeepFields<H>(lib: Lib<H>, m: map<string, string>, tags: seq<string>, k: nat,
                                             key: string)
    requires k <= |tags| && key in m && key != "" && key[0] != 't'
    ensures key in WithTags(lib, m, tags, k) && WithTags(lib, m, tags, k)[key] == m[key]
  {
    if k > 0 {
      TagsKeepFields(lib, m, tags, k - 1, key);
      assert TagKey(lib, k - 1)[0] == 't';
    }
  }

  lemma FieldsAreSet<H>(lib: Lib<H>, r: Request)
    ensures "locale" in WithFields(lib, r) && WithFields(lib, r)["locale"] == r.locale
    ensures "action" in WithFields(lib, r) && WithFields(lib, r)["action"] == r.action
  {
  }

  lemma NamesDiffer()
    ensures |"action"| == 6 && |"path"| == 4 && |"locale"| == 6 && |"user"| == 4 && |"qty"| == 3
    ensures |"lang"| == 4 && |"action_upper"| == 12 && |"tag_"| == 4
    ensures "action"[0] == 'a' && "path"[0] == 'p' && "locale"[0] == 'l' && "user"[0] == 'u' && "qty"[0] == 'q'
    ensures "lang"[0] == 'l' && "action_upper"[0] == 'a' && "tag_"[0] == 't'
  {
  }

  /** The fields of the request by key, and what of the payload they leave. */
  lemma FieldsByKey<H>(lib: Lib<H>, r: Request)
    ensures WithFields(lib, r).Keys == r.payload.Keys + {"action", "path", "locale", "user", "qty"}
    ensures var m := WithFields(lib, r);
            && m["action"] == r.action && m["path"] == r.path && m["locale"] == r.locale
            && m["user"] == lib.decimal(r.userId) && m["qty"] == lib.decimal(r.quantity)
    ensures forall key :: key in r.payload && key !in {"action", "path", "locale", "user", "qty"} ==>
              WithFields(lib, r)[key] == r.payload[key]
  {
    NamesDiffer();
  }

  lemma {:induction false} TagsKeepKeys<H>(lib: Lib<H>, m: map<string, string>, tags: seq<string>, k: nat)
    requires k <= |tags|
    ensures m.Keys <= WithTags(lib, m, tags, k).Keys
  {
    if k > 0 { TagsKeepKeys(lib, m, tags, k - 1); }
  }

  lemma {:induction false} TagsKeepOthers<H>(lib: Lib<H>, m: map<string, string>, tags: seq<string>, k: nat,
                                             key: string)
    requires k <= |tags| && key in m && !("tag_" <= key)
    ensures key in WithTags(lib, m, tags, k) && WithTags(lib, m, tags, k)[key] == m[key]
  {
    if k > 0 {
      TagsKeepOthers(lib, m, tags, k - 1, key);
      assert "tag_" <= TagKey(lib, k - 1);
    }
  }

  /** Every entry of the scratch map that is not a tag: the seven the code writes, and the rest of the payload. */
  lemma ScratchByKey<H>(lib: Lib<H>, r: Request)
    requires |r.locale| >= 2
    ensures Scratch(lib, r).Keys >= r.payload.Keys + {"action", "path", "locale", "user", "qty", "lang", "action_upper"}
    ensures var m := Scratch(lib, r);
            && m["action"] == r.action && m["path"] == r.path && m["locale"] == r.locale
            && m["user"] == lib.decimal(r.userId) && m["qty"] == lib.decimal(r.quantity)
            && m["lang"] == r.locale[..2] && m["action_upper"] == r.action + "_OK"
    ensures forall key | key in r.payload && !("tag_" <= key) ::
              key !in {"action", "path", "locale", "user", "qty", "lang", "action_upper"} ==>
                Scratch(lib, r)[key] == r.payload[key]
  {
    hide WithFields;
    NamesDiffer();
    FieldsByKey(lib, r);
    forall key | key in WithFields(lib, r) && !("tag_" <= key)
      ensures key in WithTags(lib, WithFields(lib, r), r.tags, |r.tags|)
      ensures WithTags(lib, WithFields(lib, r), r.tags, |r.tags|)[key] == WithFields(lib, r)[key]
    {
      TagsKeepOthers(lib, WithFields(lib, r), r.tags, |r.tags|, key);
    }
    TagsKeepKeys(lib, WithFields(lib, r), r.tags, |r.tags|);
  }

  /** Tag i is found under its number, unless a later tag has the same. */
  lemma {:induction false} TagsByKey<H>(lib: Lib<H>, m: map<string, string>, tags: seq<string>, k: nat, i: nat)
    requires i < k <= |tags| && forall j :: i < j < k ==> lib.decimal(j) != lib.decimal(i)
    ensures "tag_" + lib.decimal(i) in WithTags(lib, m, tags, k)
    ensures WithTags(lib, m, tags, k)["tag_" + lib.decimal(i)] == tags[i]
  {
    if i < k - 1 {
      TagsByKey(lib, m, tags, k - 1, i);
      assert ("tag_" + lib.decimal(k - 1))[4..] == lib.decimal(k - 1);
      assert ("tag_" + lib.decimal(i))[4..] == lib.decimal(i);
    }
  }

  lemma KeysDiffer()
    ensures "lang" != "action" && "lang" != "locale"
  {
  }

  function HexDigit(x: nat): char
    requires x < 16
  {
    "0123456789abcdef"[x]
  }

  /** The first k bytes in hexadecimal. */
  function Hex(sig: seq<Byte>, k: nat): (s: string)
    requires k <= |sig|
    ensures |s| == 2 * k
  {
    if k == 0 then "" else Hex(sig, k - 1) + [HexDigit(sig[k - 1] / 16), HexDigit(sig[k - 1] % 16)]
  }

  lemma HexDigitsDiffer(x: nat, y: nat)
    requires x < 16 && y < 16
    ensures HexDigit(x) == HexDigit(y) <==> x == y
  {
  }

  lemma ByteFromHex(x: Byte, y: Byte)
    ensures HexDigit(x / 16) == HexDigit(y / 16) && HexDigit(x % 16) == HexDigit(y % 16) <==> x == y
  {
    HexDigitsDiffer(x / 16, y / 16);
    HexDigitsDiffer(x % 16, y % 16);
  }

  /** The session signature shown determines the bytes it was made from. */
  lemma {:induction false} HexIsInjective(s: seq<Byte>, t: seq<Byte>, k: nat)
    requires k <= |s| && k <= |t|
    ensures Hex(s, k) == Hex(t, k) <==> s[..k] == t[..k]
  {
    hide HexDigit;
    if k > 0 {
      HexIsInjective(s, t, k - 1);
      var a, b := Hex(s, k), Hex(t, k);
      ByteFromHex(s[k - 1], t[k - 1]);
      assert s[..k] == s[..k - 1] + [s[k - 1]] && t[..k] == t[..k - 1] + [t[k - 1]];
      assert a[..2 * k - 2] == Hex(s, k - 1) && b[..2 * k - 2] == Hex(t, k - 1);
      assert a[2 * k - 2..] == [HexDigit(s[k - 1] / 16), HexDigit(s[k - 1] % 16)];
      assert b[2 * k - 2..] == [HexDigit(t[k - 1] / 16), HexDigit(t[k - 1] % 16)];
    }
  }

  lemma Joined(a: string, b: string, c: string, d: string)
    ensures a + (b + c + d) == a + b + c + d
  {
  }

  function HexValue(c: char): int {
    if '0' <= c <= '9' then c as int - 48 else c as int - 87
  }

  lemma DigitValue(x: nat)
    requires x < 16
    ensures HexValue(HexDigit(x)) == x && ('0' <= HexDigit(x) <= '9' || 'a' <= HexDigit(x) <= 'f')
  {
    var digits := "0123456789abcdef";
    assert forall i :: 0 <= i < 10 ==> digits[i] as int == 48 + i;
    assert forall i :: 10 <= i < 16 ==> digits[i] as int == 87 + i;
  }

  /** The hexadecimal text reads back as the bytes, two digits each, the high one first. */
  lemma {:induction false} HexReads(sig: seq<Byte>, k: nat, i: nat)
    requires i < k <= |sig|
    ensures sig[i] == 16 * HexValue(Hex(sig, k)[2 * i]) + HexValue(Hex(sig, k)[2 * i + 1])
    ensures forall j :: 0 <= j < 2 * k ==> '0' <= Hex(sig, k)[j] <= '9' || 'a' <= Hex(sig, k)[j] <= 'f'
  {
    hide HexValue, HexDigit;
    DigitValue(sig[k - 1] / 16);
    DigitValue(sig[k - 1] % 16);
    if k > 1 { HexReads(sig, k - 1, if i < k - 1 then i else 0); }
  }

  function HtmlHead<H>(lib: Lib<H>, r: Request): string {
    "<!doctype html><html lang=\"" + lib.escape(r.locale) + "\"><head><title>" + lib.escape(r.action)
    + "</title></head><body><h1>Hello, user " + lib.decimal(r.userId) + "</h1><p>Path: " + lib.escape(r.path)
    + "</p><ul>"
  }

  function HtmlTags<H>(lib: Lib<H>, tags: seq<string>, k: nat): string
    requires k <= |tags|
  {
    if k == 0 then "" else HtmlTags(lib, tags, k - 1) + ("<li>" + lib.escape(tags[k - 1]) + "</li>")
  }

  function HtmlRow<H>(lib: Lib<H>, m: map<string, string>, key: string): string
    requires key in m
  {
    "<tr><th>" + lib.escape(key) + "</th><td>" + lib.escape(m[key]) + "</td></tr>"
  }

  function HtmlRows<H>(lib: Lib<H>, m: map<string, string>, keys: seq<string>, k: nat): string
    requires k <= |keys| && forall key :: key in keys ==> key in m
  {
    if k == 0 then "" else HtmlRows(lib, m, keys, k - 1) + HtmlRow(lib, m, keys[k - 1])
  }

  lemma {:induction false} ListingExists(all: set<string>)
    ensures exists keys :: Listing(keys, all)
  {
    if all == {} {
      assert Listing([], all);
    } else {
      var k :| k in all;
      ListingExists(all - {k});
      var keys :| Listing(keys, all - {k});
      InsertAscends(keys, k);
      assert Listing(Insert(keys, k), all);
    }
  }

  /** The one ascending list of the keys in all. */
  ghost function Sorted(all: set<string>): (keys: seq<string>)
    ensures Listing(keys, all)
  {
    ListingExists(all);
    var keys :| Listing(keys, all);
    keys
  }

  ghost function Html<H>(lib: Lib<H>, r: Request): string
    requires |r.locale| >= 2
  {
    var m := Scratch(lib, r);
    var keys := Sorted(m.Keys);
    HtmlHead(lib, r) + HtmlTags(lib, r.tags, |r.tags|) + "</ul><table>" + HtmlRows(lib, m, keys, |keys|)
    + "</table></body></html>"
  }

  function Headers<H>(lib: Lib<H>, r: Request, sig: seq<Byte>): map<string, string>
    requires |sig| >= 8
  {
    map["Content-Type" := "text/html; charset=utf-8", "X-Session-Sig" := Hex(sig, 8),
        "X-Locale" := r.locale, "X-User" := lib.decimal(r.userId)]
  }

  /** Bodies the loop can digest: a decodable locale has the two bytes that are sliced off, a signature eight. */
  ghost predicate Digestible<H>(lib: Lib<H>, key: string, body: string) {
    match lib.decode(body)
    case None => true
    case Some(r) => |r.locale| >= 2 && |lib.mac(key, r.token + body)| >= 8
  }

  /** The hash state after one request, or None if it cannot be decoded or its response not encoded. */
  ghost function HashRequest<H>(lib: Lib<H>, key: string, h: H, body: string): Option<H>
    requires Digestible(lib, key, body)
  {
    match lib.decode(body)
    case None => None
    case Some(r) =>
      var sig := lib.mac(key, r.token + body);
      var html := Html(lib, r);
      match lib.encode(Response(r.userId, r.action, r.path, html, Headers(lib, r, sig), Scratch(lib, r)))
      case None => None
      case Some(json) => Some(lib.writeBytes(lib.write(lib.write(h, html), json), sig))
  }

  ghost function Digest<H>(lib: Lib<H>, key: string, bodies: seq<string>, k: nat): Option<H>
    requires k <= |bodies| && forall body :: body in bodies ==> Digestible(lib, key, body)
  {
    if k == 0 then Some(lib.init)
    else
      match Digest(lib, key, bodies, k - 1)
      case None => None
      case Some(h) => HashRequest(lib, key, h, bodies[k - 1])
  }

  /** The checksum of a run: a function of the requests and the key, with no map order in it. */
  ghost function Checksum<H>(lib: Lib<H>, key: string, bodies: seq<string>): nat
    requires forall body :: body in bodies ==> Digestible(lib, key, body)
  {
    match Digest(lib, key, bodies, |bodies|)
    case None => 0
    case Some(h) => lib.sum(h)
  }

  lemma {:induction false} FailureStays<H>(lib: Lib<H>, key: string, bodies: seq<string>, k: nat, m: nat)
    requires k <= m <= |bodies| && forall body :: body in bodies ==> Digestible(lib, key, body)
    requires Digest(lib, key, bodies, k).None?
    ensures Digest(lib, key, bodies, m).None?
  {
    hide HashRequest, Digestible;
    if k < m { FailureStays(lib, key, bodies, k, m - 1); }
  }

  class Page<H> {
    const lib: Lib<H>
    const hmacKey: string
    var requests: seq<string>
    var expected: nat
    var htmlBuf: string
    var jsonBuf: string
    var scratch: map<string, string>
    var respHdrs: map<string, string>
    var keyBuf: seq<string>

    ghost predicate Ready()
      reads this
    {
      forall body :: body in requests ==> Digestible(lib, hmacKey, body)
    }

    ghost predicate Valid()
      reads this
    {
      Ready() && expected == Checksum(lib, hmacKey, requests)
    }

    constructor Setup(lib: Lib<H>, requests: seq<string>, hmacKey: string)
      requires forall body :: body in requests ==> Digestible(lib, hmacKey, body)
      ensures Valid() && this.lib == lib && this.hmacKey == hmacKey && this.requests == requests
    {
      this.lib, this.hmacKey, this.requests := lib, hmacKey, requests;
      htmlBuf, jsonBuf, scratch, respHdrs, keyBuf := "", "", map[], map[], [];
      new;
      expected := Run();
    }

    method ClearScratch()
      modifies this`scratch
      ensures scratch == map[]
    {
      while scratch != map[]
        decreases |scratch.Keys|
      {
        var k :| k in scratch;
        scratch := scratch - {k};
      }
    }

    /** Copies the payload in whatever order the runtime visits its keys. */
    method CopyPayload(payload: map<string, string>)
      requires scratch == map[]
      modifies this`scratch
      ensures scratch == payload
    {
      var rest := payload.Keys;
      while rest != {}
        invariant rest <= payload.Keys
        invariant scratch == map k | k in payload && k !in rest :: payload[k]
        decreases rest
      {
        var k :| k in rest;
        scratch := scratch[k := payload[k]];
        rest := rest - {k};
      }
    }

    method SetFields(r: Request)
      requires scratch == r.payload
      modifies this`scratch
      ensures scratch == WithFields(lib, r)
    {
      scratch := scratch["action" := r.action];
      scratch := scratch["path" := r.path];
      scratch := scratch["locale" := r.locale];
      scratch := scratch["user" := lib.decimal(r.userId)];
      scratch := scratch["qty" := lib.decimal(r.quantity)];
    }

    method StoreTags(tags: seq<string>)
      modifies this`scratch
      ensures scratch == WithTags(lib, old(scratch), tags, |tags|)
    {
      ghost var before := scratch;
      for i := 0 to |tags|
        invariant scratch == WithTags(lib, before, tags, i)
      {
        scratch := scratch["tag_" + lib.decimal(i) := tags[i]];
      }
    }

    /** Looks the locale and the action up again, and derives one more entry from each. */
    method Derive(r: Request)
      requires |r.locale| >= 2
      requires "locale" in scratch && scratch["locale"] == r.locale
      requires "action" in scratch && scratch["action"] == r.action
      modifies this`scratch
      ensures scratch == old(scratch)["lang" := r.locale[..2]]["action_upper" := r.action + "_OK"]
    {
      if "locale" in scratch {
        scratch := scratch["lang" := scratch["locale"][..2]];
      }
      KeysDiffer();
      if "action" in scratch {
        scratch := scratch["action_upper" := scratch["action"] + "_OK"];
      }
    }

    method RebuildScratch(r: Request)
      requires |r.locale| >= 2
      modifies this`scratch
      ensures scratch == Scratch(lib, r)
    {
      hide WithFields, WithTags, TagKey;
      ClearScratch();
      CopyPayload(r.payload);
      SetFields(r);
      FieldsAreSet(lib, r);
      TagsKeepFields(lib, scratch, r.tags, |r.tags|, "locale");
      TagsKeepFields(lib, scratch, r.tags, |r.tags|, "action");
      StoreTags(r.tags);
      Derive(r);
    }

    /** Collects the keys in whatever order the runtime visits them, and sorts them. */
    method SortedKeys()
      modifies this`keyBuf
      ensures keyBuf == Sorted(scratch.Keys)
    {
      keyBuf := [];
      var rest := scratch.Keys;
      while rest != {}
        invariant rest <= scratch.Keys
        invariant forall k :: k in keyBuf <==> k in scratch.Keys - rest
        decreases rest
      {
        var k :| k in rest;
        keyBuf := keyBuf + [k];
        rest := rest - {k};
      }
      keyBuf := SortStrings(keyBuf);
      ListingIsUnique(keyBuf, Sorted(scratch.Keys), scratch.Keys);
    }

    method RenderHead(r: Request)
      modifies this`htmlBuf
      ensures htmlBuf == HtmlHead(lib, r)
    {
      htmlBuf := "<!doctype html><html lang=\"";
      htmlBuf := htmlBuf + lib.escape(r.locale);
      htmlBuf := htmlBuf + "\"><head><title>";
      htmlBuf := htmlBuf + lib.escape(r.action);
      htmlBuf := htmlBuf + "</title></head><body><h1>Hello, user ";
      htmlBuf := htmlBuf + lib.decimal(r.userId);
      htmlBuf := htmlBuf + "</h1><p>Path: ";
      htmlBuf := htmlBuf + lib.escape(r.path);
      htmlBuf := htmlBuf + "</p><ul>";
    }

    method RenderTags(tags: seq<string>)
      modifies this`htmlBuf
      ensures htmlBuf == old(htmlBuf) + HtmlTags(lib, tags, |tags|)
    {
      ghost var before := htmlBuf;
      for i := 0 to |tags|
        invariant htmlBuf == before + HtmlTags(lib, tags, i)
      {
        ghost var soFar := htmlBuf;
        htmlBuf := htmlBuf + "<li>";
        htmlBuf := htmlBuf + lib.escape(tags[i]);
        htmlBuf := htmlBuf + "</li>";
        Joined(soFar, "<li>", lib.escape(tags[i]), "</li>");
      }
    }

    method RenderRow(key: string)
      requires key in scratch
      modifies this`htmlBuf
      ensures htmlBuf == old(htmlBuf) + HtmlRow(lib, scratch, key)
    {
      ghost var before := htmlBuf;
      htmlBuf := htmlBuf + "<tr><th>";
      htmlBuf := htmlBuf + lib.escape(key);
      htmlBuf := htmlBuf + "</th><td>";
      htmlBuf := htmlBuf + lib.escape(scratch[key]);
      htmlBuf := htmlBuf + "</td></tr>";
      Joined(before, "<tr><th>", lib.escape(key), "</th><td>");
      Joined(before, "<tr><th>" + lib.escape(key) + "</th><td>", lib.escape(scratch[key]), "</td></tr>");
    }

    method RenderRows()
      requires forall key :: key in keyBuf ==> key in scratch
      modifies this`htmlBuf
      ensures htmlBuf == old(htmlBuf) + HtmlRows(lib, scratch, keyBuf, |keyBuf|)
    {
      hide HtmlRow;
      ghost var before, m, keys := htmlBuf, scratch, keyBuf;
      for i := 0 to |keyBuf|
        invariant scratch == m && keyBuf == keys
        invariant htmlBuf == before + HtmlRows(lib, m, keys, i)
      {
        RenderRow(keyBuf[i]);
      }
    }

    method Render(r: Request)
      requires |r.locale| >= 2 && scratch == Scratch(lib, r)
      modifies this`htmlBuf, this`keyBuf
      ensures htmlBuf == Html(lib, r)
    {
      hide Scratch, Sorted, HtmlHead, HtmlTags, HtmlRows;
      RenderHead(r);
      RenderTags(r.tags);
      htmlBuf := htmlBuf + "</ul><table>";
      SortedKeys();
      RenderRows();
      htmlBuf := htmlBuf + "</table></body></html>";
    }

    method SessionSignature(sig: seq<Byte>) returns (hex: string)
      requires |sig| >= 8
      ensures hex == Hex(sig, 8)
    {
      var hexChars := "0123456789abcdef";
      hex := "";
      for i := 0 to 8
        invariant hex == Hex(sig, i)
      {
        hex := hex + [hexChars[sig[i] / 16], hexChars[sig[i] % 16]];
      }
    }

    method FillHeaders(r: Request, sig: seq<Byte>)
      requires |sig| >= 8
      modifies this`respHdrs
      ensures respHdrs == Headers(lib, r, sig)
    {
      while respHdrs != map[]
        decreases |respHdrs.Keys|
      {
        var k :| k in respHdrs;
        respHdrs := respHdrs - {k};
      }
      var hex := SessionSignature(sig);
      respHdrs := respHdrs["Content-Type" := "text/html; charset=utf-8"];
      respHdrs := respHdrs["X-Session-Sig" := hex];
      respHdrs := respHdrs["X-Locale" := r.locale];
      respHdrs := respHdrs["X-User" := lib.decimal(r.userId)];
    }

    /** One iteration of the request loop. */
    method Serve(h: H, body: string) returns (h': Option<H>)
      requires Digestible(lib, hmacKey, body)
      modifies this`htmlBuf, this`jsonBuf, this`scratch, this`respHdrs, this`keyBuf
      ensures h' == HashRequest(lib, hmacKey, h, body)
    {
      hide Html, Scratch, Headers;
      var dec := lib.decode(body);
      if dec.None? {
        return None;
      }
      var r := dec.value;
      RebuildScratch(r);
      var sig := lib.mac(hmacKey, r.token + body);
      Render(r);
      FillHeaders(r, sig);
      var json := lib.encode(Response(r.userId, r.action, r.path, htmlBuf, respHdrs, scratch));
      if json.None? {
        return None;
      }
      jsonBuf := json.value;
      return Some(lib.writeBytes(lib.write(lib.write(h, htmlBuf), jsonBuf), sig));
    }

    /** Whatever the maps' iteration orders and the leftovers in the buffers, the result is the checksum. */
    method Run() returns (result: nat)
      requires Ready()
      modifies this`htmlBuf, this`jsonBuf, this`scratch, this`respHdrs, this`keyBuf
      ensures result == Checksum(lib, hmacKey, requests)
    {
      hide HashRequest, Digestible;
      var h := lib.init;
      for i := 0 to |requests|
        invariant Digest(lib, hmacKey, requests, i) == Some(h)
      {
        var next := Serve(h, requests[i]);
        if next.None? {
          FailureStays(lib, hmacKey, requests, i + 1, |requests|);
          return 0;
        }
        h := next.value;
      }
      return lib.sum(h);
    }

    method Verify(result: nat) returns (ok: bool)
      requires Valid()
      ensures ok <==> result == Checksum(lib, hmacKey, requests)
    {
      return result == expected;
    }
  }

  /** A run's result passes the check of a second instance that was set up on its own. */
  method CrossCheck<H>(lib: Lib<H>, requests: seq<string>, hmacKey: string) returns (ok: bool)
    requires forall body :: body in requests ==> Digestible(lib, hmacKey, body)
    ensures ok
  {
    hide Checksum, Digestible;
    var first := new Page.Setup(lib, requests, hmacKey);
    var second := new Page.Setup(lib, requests, hmacKey);
    var result := first.Run();
    ok := second.Verify(result);
  }
}
