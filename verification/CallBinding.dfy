/**
  The idempotency key that binds a caller's key to the exact call it makes.

  The digest is taken over a length-prefixed spelling of the call. What is
  proved is that the spelling is unambiguous: two calls that feed the hasher the
  same bytes are the same call. The hash itself is a parameter.
 */
module CallBinding {
  import opened Wrappers
  import Envelope

  /** A validated origin: scheme https, a host of letters, digits, `-` and `.`, and perhaps a port. */
  datatype Origin = Origin(host: string, port: Option<nat>)

  predicate HostChar(c: char) {
    'a' <= c <= 'z' || '0' <= c <= '9' || c == '-' || c == '.'
  }

  predicate ValidOrigin(o: Origin) {
    (forall i :: 0 <= i < |o.host| ==> HostChar(o.host[i])) && (o.port.Some? ==> 0 < o.port.value < 0x1_0000)
  }

  const SCHEME: string := "https://"

  function Display(o: Origin): string {
    SCHEME + (o.host + PortText(o.port))
  }

  function PortText(port: Option<nat>): string {
    if port.Some? then ":" + Envelope.NatText(port.value) else ""
  }

  predicate IsAscii(s: string) {
    forall i :: 0 <= i < |s| ==> s[i] as int < 128
  }

  function Ascii(s: string): (b: bytes)
    requires IsAscii(s)
    ensures |b| == |s| && forall i :: 0 <= i < |s| ==> b[i] as int == s[i] as int
  {
    if s == "" then [] else [s[0] as int as byte] + Ascii(s[1..])
  }

  datatype Call = Call(
    verb: bytes, origin: Origin, path: bytes, query: Option<bytes>, headers: seq<(bytes, bytes)>,
    body: Option<bytes>, suppressUserAgent: bool)

  const TWO_64: nat := 0x1_0000_0000_0000_0000

  predicate Fits(b: bytes) {
    |b| < TWO_64
  }

  /** Every field is shorter than 2^64 bytes. */
  predicate ValidCall(c: Call) {
    && Fits(c.verb) && ValidOrigin(c.origin) && |Display(c.origin)| < TWO_64 && Fits(c.path)
    && (c.query.Some? ==> Fits(c.query.value)) && (c.body.Some? ==> Fits(c.body.value))
    && |c.headers| < TWO_64 && (forall h :: h in c.headers ==> Fits(h.0) && Fits(h.1))
  }

  // ---------- the spelling ----------

  /** The `k` low bytes of `n`, most significant first. */
  function BigEndian(n: nat, k: nat): (b: bytes)
    ensures |b| == k
  {
    if k == 0 then [] else BigEndian(n / 256, k - 1) + [(n % 256) as byte]
  }

  function Field(b: bytes): bytes {
    BigEndian(|b|, 8) + b
  }

  function Optional(b: Option<bytes>): bytes {
    if b.None? then [0] else [1] + Field(b.value)
  }

  function Headers(hs: seq<(bytes, bytes)>): bytes {
    if hs == [] then [] else Field(hs[0].0) + (Field(hs[0].1) + Headers(hs[1..]))
  }

  lemma AsciiConcat(s: string, t: string)
    requires IsAscii(s) && IsAscii(t)
    ensures IsAscii(s + t)
  {
  }

  lemma DisplayIsAscii(o: Origin)
    requires ValidOrigin(o)
    ensures IsAscii(Display(o))
  {
    if o.port.Some? {
      DigitsAreAscii(o.port.value);
    }
    var scheme, host, port := SCHEME, o.host, PortText(o.port);
    assert forall i :: 0 <= i < |host| ==> HostChar(host[i]);
    assert IsAscii(scheme) && IsAscii(host) && IsAscii(port);
    AsciiConcat(host, port);
    AsciiConcat(scheme, host + port);
  }

  lemma {:induction false} DigitsAreAscii(n: nat)
    ensures IsAscii(Envelope.NatText(n))
  {
    if n >= 10 {
      DigitsAreAscii(n / 10);
    }
  }

  function OriginBytes(o: Origin): bytes
    requires ValidOrigin(o)
  {
    DisplayIsAscii(o);
    Ascii(Display(o))
  }

  function Preimage(c: Call): bytes
    requires ValidOrigin(c.origin)
  {
    Field(c.verb) + (Field(OriginBytes(c.origin)) + (Field(c.path) + (Optional(c.query)
      + (BigEndian(|c.headers|, 8) + (Headers(c.headers) + (Optional(c.body)
      + [if c.suppressUserAgent then 1 else 0]))))))
  }

  // ---------- it is unambiguous ----------

  lemma {:induction false} BigEndianInjective(m: nat, n: nat, k: nat)
    requires BigEndian(m, k) == BigEndian(n, k)
    requires m < Power256(k) && n < Power256(k)
    ensures m == n
  {
    if k > 0 {
      assert BigEndian(m, k)[..k - 1] == BigEndian(m / 256, k - 1);
      assert BigEndian(n, k)[..k - 1] == BigEndian(n / 256, k - 1);
      assert BigEndian(m, k)[k - 1] as int == m % 256 && BigEndian(n, k)[k - 1] as int == n % 256;
      BigEndianInjective(m / 256, n / 256, k - 1);
    }
  }

  function Power256(k: nat): nat {
    if k == 0 then 1 else 256 * Power256(k - 1)
  }

  lemma EightBytes()
    ensures Power256(8) == TWO_64
  {
    assert Power256(4) == 0x1_0000_0000;
    assert Power256(8) == 256 * (256 * (256 * (256 * Power256(4))));
  }

  lemma NumberSplit(m: nat, s: bytes, n: nat, t: bytes)
    requires m < TWO_64 && n < TWO_64 && BigEndian(m, 8) + s == BigEndian(n, 8) + t
    ensures m == n && s == t
  {
    SplitEqual(BigEndian(m, 8), s, BigEndian(n, 8), t);
    EightBytes();
    BigEndianInjective(m, n, 8);
  }

  lemma FieldSplit(a: bytes, s: bytes, b: bytes, t: bytes)
    requires Fits(a) && Fits(b) && Field(a) + s == Field(b) + t
    ensures a == b && s == t
  {
    assert Field(a) + s == BigEndian(|a|, 8) + (a + s);
    assert Field(b) + t == BigEndian(|b|, 8) + (b + t);
    NumberSplit(|a|, a + s, |b|, b + t);
    SplitEqual(a, s, b, t);
  }

  /** An optional field as a tag and what follows it. */
  lemma OptionalSpelled(a: Option<bytes>, s: bytes)
    ensures Optional(a) + s == if a.None? then [0] + s else [1] + (Field(a.value) + s)
  {
  }

  lemma OptionalSplit(a: Option<bytes>, s: bytes, b: Option<bytes>, t: bytes)
    requires (a.Some? ==> Fits(a.value)) && (b.Some? ==> Fits(b.value))
    requires Optional(a) + s == Optional(b) + t
    ensures a == b && s == t
  {
    OptionalSpelled(a, s);
    OptionalSpelled(b, t);
    var x := if a.None? then s else Field(a.value) + s;
    var y := if b.None? then t else Field(b.value) + t;
    SplitEqual([if a.None? then 0 else 1], x, [if b.None? then 0 else 1], y);
    if a.Some? && b.Some? {
      FieldSplit(a.value, s, b.value, t);
    }
  }

  lemma Assoc3(a: bytes, b: bytes, c: bytes, d: bytes)
    ensures a + (b + c) + d == a + (b + (c + d))
  {
  }

  lemma {:induction false} HeadersSplit(a: seq<(bytes, bytes)>, s: bytes, b: seq<(bytes, bytes)>, t: bytes)
    requires |a| == |b| && Headers(a) + s == Headers(b) + t
    requires forall h :: h in a ==> Fits(h.0) && Fits(h.1)
    requires forall h :: h in b ==> Fits(h.0) && Fits(h.1)
    ensures a == b && s == t
  {
    if a == [] {
      assert Headers(a) + s == s && Headers(b) + t == t;
    } else {
      var x, y := Field(a[0].1) + (Headers(a[1..]) + s), Field(b[0].1) + (Headers(b[1..]) + t);
      Assoc3(Field(a[0].0), Field(a[0].1), Headers(a[1..]), s);
      Assoc3(Field(b[0].0), Field(b[0].1), Headers(b[1..]), t);
      FieldSplit(a[0].0, x, b[0].0, y);
      FieldSplit(a[0].1, Headers(a[1..]) + s, b[0].1, Headers(b[1..]) + t);
      HeadersSplit(a[1..], s, b[1..], t);
      assert a == [a[0]] + a[1..] && b == [b[0]] + b[1..];
    }
  }

  lemma AsciiInjective(s: string, t: string)
    requires IsAscii(s) && IsAscii(t)
    requires Ascii(s) == Ascii(t)
    ensures s == t
  {
    forall i | 0 <= i < |s| ensures s[i] == t[i] {
      assert Ascii(s)[i] == Ascii(t)[i];
    }
  }

  /** Where the host of a displayed origin ends: at the first `:` after the scheme, or the end. */
  function HostEnd(s: string): (k: nat)
    ensures k <= |s| && (k < |s| ==> s[k] == ':') && forall i :: 0 <= i < k ==> s[i] != ':'
  {
    if s == "" || s[0] == ':' then 0 else 1 + HostEnd(s[1..])
  }

  lemma {:induction false} HostEndIs(host: string, tail: string)
    requires (forall i :: 0 <= i < |host| ==> host[i] != ':') && (tail != "" ==> tail[0] == ':')
    ensures HostEnd(host + tail) == |host|
  {
    if host == "" {
      assert host + tail == tail;
    } else {
      assert (host + tail)[1..] == host[1..] + tail;
      HostEndIs(host[1..], tail);
    }
  }

  lemma DisplayInjective(a: Origin, b: Origin)
    requires ValidOrigin(a) && ValidOrigin(b) && Display(a) == Display(b)
    ensures a == b
  {
    SplitEqual(SCHEME, a.host + PortText(a.port), SCHEME, b.host + PortText(b.port));
    assert forall i :: 0 <= i < |a.host| ==> HostChar(a.host[i]);
    assert forall i :: 0 <= i < |b.host| ==> HostChar(b.host[i]);
    HostEndIs(a.host, PortText(a.port));
    HostEndIs(b.host, PortText(b.port));
    SplitEqual(a.host, PortText(a.port), b.host, PortText(b.port));
    if a.port.Some? && b.port.Some? {
      assert PortText(a.port)[1..] == Envelope.NatText(a.port.value) && PortText(b.port)[1..] == Envelope.NatText(b.port.value);
      Envelope.NatInjective(a.port.value, b.port.value);
    }
  }

  /** Two calls that feed the hasher the same bytes agree on everything. */
  lemma PreimageInjective(a: Call, b: Call)
    requires ValidCall(a) && ValidCall(b) && Preimage(a) == Preimage(b)
    ensures a == b
  {
    var fa, fb: bytes := [if a.suppressUserAgent then 1 else 0], [if b.suppressUserAgent then 1 else 0];
    var ba, bb := Optional(a.body) + fa, Optional(b.body) + fb;
    var ha, hb := Headers(a.headers) + ba, Headers(b.headers) + bb;
    var na, nb := BigEndian(|a.headers|, 8) + ha, BigEndian(|b.headers|, 8) + hb;
    var qa, qb := Optional(a.query) + na, Optional(b.query) + nb;
    var pa, pb := Field(a.path) + qa, Field(b.path) + qb;
    FieldSplit(a.verb, Field(OriginBytes(a.origin)) + pa, b.verb, Field(OriginBytes(b.origin)) + pb);
    FieldSplit(OriginBytes(a.origin), pa, OriginBytes(b.origin), pb);
    FieldSplit(a.path, qa, b.path, qb);
    OptionalSplit(a.query, na, b.query, nb);
    NumberSplit(|a.headers|, ha, |b.headers|, hb);
    HeadersSplit(a.headers, ba, b.headers, bb);
    OptionalSplit(a.body, fa, b.body, fb);
    DisplayIsAscii(a.origin);
    DisplayIsAscii(b.origin);
    AsciiInjective(Display(a.origin), Display(b.origin));
    DisplayInjective(a.origin, b.origin);
    assert fa[0] == fb[0];
  }

  // ---------- the key ----------

  class Hasher {
    var fed: bytes

    constructor ()
      ensures fed == []
    {
      fed := [];
    }

    method Update(data: bytes)
      modifies this
      ensures fed == old(fed) + data
    {
      fed := fed + data;
    }

    method UpdateField(data: bytes)
      modifies this
      ensures fed == old(fed) + Field(data)
    {
      Update(BigEndian(|data|, 8));
      Update(data);
    }

    method UpdateOptional(data: Option<bytes>)
      modifies this
      ensures fed == old(fed) + Optional(data)
    {
      if data.None? {
        Update([0]);
      } else {
        Update([1]);
        UpdateField(data.value);
      }
    }

    method UpdateHeaders(headers: seq<(bytes, bytes)>)
      modifies this
      ensures fed == old(fed) + Headers(headers)
    {
      ghost var goal := fed + Headers(headers);
      for i := 0 to |headers|
        invariant goal == fed + Headers(headers[i..])
      {
        HeaderStep(goal, fed, headers, i);
        UpdateField(headers[i].0);
        UpdateField(headers[i].1);
      }
    }
  }

  lemma HeaderStep(goal: bytes, fed: bytes, headers: seq<(bytes, bytes)>, i: nat)
    requires i < |headers| && goal == fed + Headers(headers[i..])
    ensures goal == ((fed + Field(headers[i].0)) + Field(headers[i].1)) + Headers(headers[i + 1..])
  {
    assert headers[i..][0] == headers[i] && headers[i..][1..] == headers[i + 1..];
    Regroup(fed, Field(headers[i].0), Field(headers[i].1), Headers(headers[i + 1..]));
  }

  lemma Regroup(a: bytes, b: bytes, c: bytes, d: bytes)
    ensures a + (b + (c + d)) == ((a + b) + c) + d
  {
  }

  const CALL_BINDING_HEX_CHARS: nat := 32
  const MAX_CURL_USER_KEY_BYTES: nat := 124 - (CALL_BINDING_HEX_CHARS + 1)

  /** The caller's key, a dash, and the first half of the digest in hex. */
  function BoundKey(userKey: string, digest: bytes): string
    requires |digest| == 32
  {
    userKey + "-" + Envelope.HexText(digest)[..CALL_BINDING_HEX_CHARS]
  }

  method CallBoundIdempotencyKey(userKey: string, c: Call, sha256: bytes -> bytes) returns (key: string)
    requires ValidCall(c) && forall b :: |sha256(b)| == 32
    ensures key == BoundKey(userKey, sha256(Preimage(c)))
    ensures |userKey| <= MAX_CURL_USER_KEY_BYTES <==> |key| <= 124
  {
    var hasher := new Hasher();
    hasher.UpdateField(c.verb);
    hasher.UpdateField(OriginBytes(c.origin));
    hasher.UpdateField(c.path);
    hasher.UpdateOptional(c.query);
    hasher.Update(BigEndian(|c.headers|, 8));
    hasher.UpdateHeaders(c.headers);
    hasher.UpdateOptional(c.body);
    hasher.Update([if c.suppressUserAgent then 1 else 0]);
    Fed(Field(c.verb), Field(OriginBytes(c.origin)), Field(c.path), Optional(c.query), BigEndian(|c.headers|, 8),
        Headers(c.headers), Optional(c.body), [if c.suppressUserAgent then 1 else 0]);
    key := BoundKey(userKey, sha256(hasher.fed));
  }

  lemma Fed(a: bytes, b: bytes, c: bytes, d: bytes, e: bytes, f: bytes, g: bytes, h: bytes)
    ensures [] + a + b + c + d + e + f + g + h == a + (b + (c + (d + (e + (f + (g + h))))))
  {
    assert [] + a == a;
    assert a + b + c + d == a + (b + (c + d));
    assert (a + (b + (c + d))) + e + f + g + h == (a + (b + (c + d))) + (e + (f + (g + h)));
    assert (a + (b + (c + d))) + (e + (f + (g + h))) == a + (b + (c + (d + (e + (f + (g + h))))));
  }
}
