/**
  Path canonicalization over the bytes of a UTF-8 path, its two re-encoders, and
  prefix matching.
 */
module CanonicalPath {
  import opened Wrappers

  const PERCENT: byte := 0x25
  const DOT: byte := 0x2E
  const SLASH: byte := 0x2F
  const SEMICOLON: byte := 0x3B
  const BACKSLASH: byte := 0x5C

  datatype Rejection =
    | NotRooted
    | TruncatedEscape
    | InvalidEscape
    | EncodedSlash
    | EncodedBackslash
    | RawBackslash
    | NotUtf8
    | ControlCharacter
    | DotSegment
    | DuplicateSlash

  type Decoded = Result<bytes, Rejection>

  // ---------- decoding ----------

  function HexVal(b: byte): (v: Option<nat>)
    ensures v.Some? ==> v.value < 16
  {
    if 0x30 <= b <= 0x39 then Some((b - 0x30) as nat)
    else if 0x61 <= b <= 0x66 then Some((b - 0x61) as nat + 10)
    else if 0x41 <= b <= 0x46 then Some((b - 0x41) as nat + 10)
    else None
  }

  /** What the escape at the head of `raw` stands for. */
  function Escape(raw: bytes): Result<byte, Rejection>
    requires raw != [] && raw[0] == PERCENT
  {
    if |raw| < 3 then Err(TruncatedEscape)
    else
      var h, l := HexVal(raw[1]), HexVal(raw[2]);
      if h.None? || l.None? then Err(InvalidEscape)
      else
        var v := (h.value * 16 + l.value) as byte;
        if v == SLASH then Err(EncodedSlash)
        else if v == BACKSLASH then Err(EncodedBackslash)
        else Ok(v)
  }

  function Prepend(head: bytes, rest: Decoded): Decoded {
    if rest.Ok? then Ok(head + rest.value) else rest
  }

  /** Percent-decoding, exactly once. */
  function Decode(raw: bytes): Decoded {
    if raw == [] then
      Ok([])
    else if raw[0] == PERCENT then
      match Escape(raw)
      case Err(e) => Err(e)
      case Ok(v) => Prepend([v], Decode(raw[3..]))
    else if raw[0] == BACKSLASH then
      Err(RawBackslash)
    else
      Prepend([raw[0]], Decode(raw[1..]))
  }

  // ---------- the checks on the decoded path ----------

  predicate Continuation(b: byte) {
    0x80 <= b < 0xC0
  }

  /** The length of the well-formed UTF-8 sequence at the head of `s`, or 0. */
  function Utf8Head(s: bytes): (n: nat)
    ensures n <= |s|
  {
    if s == [] then 0
    else if s[0] < 0x80 then 1
    else if 0xC2 <= s[0] <= 0xDF && |s| >= 2 && Continuation(s[1]) then 2
    else if |s| >= 3 && Continuation(s[1]) && Continuation(s[2])
         && ((s[0] == 0xE0 && 0xA0 <= s[1]) || (0xE1 <= s[0] <= 0xEC) || (s[0] == 0xED && s[1] < 0xA0) || (0xEE <= s[0] <= 0xEF)) then 3
    else if |s| >= 4 && Continuation(s[1]) && Continuation(s[2]) && Continuation(s[3])
         && ((s[0] == 0xF0 && 0x90 <= s[1]) || (0xF1 <= s[0] <= 0xF3) || (s[0] == 0xF4 && s[1] < 0x90)) then 4
    else 0
  }

  predicate ValidUtf8(s: bytes)
    decreases |s|
  {
    s == [] || (Utf8Head(s) > 0 && ValidUtf8(s[Utf8Head(s)..]))
  }

  /** U+0000 to U+001F, U+007F, and U+0080 to U+009F. */
  predicate HasControl(s: bytes) {
    exists i :: 0 <= i < |s| &&
      (s[i] < 0x20 || s[i] == 0x7F || (s[i] == 0xC2 && i + 1 < |s| && 0x80 <= s[i + 1] < 0xA0))
  }

  /** Where `b` first occurs, or the length. */
  function Find(s: bytes, b: byte): (k: nat)
    ensures k <= |s| && (k < |s| ==> s[k] == b) && forall i :: 0 <= i < k ==> s[i] != b
  {
    if s == [] || s[0] == b then 0 else 1 + Find(s[1..], b)
  }

  lemma FindIs(s: bytes, b: byte, k: nat)
    requires k <= |s| && (k < |s| ==> s[k] == b) && forall i :: 0 <= i < k ==> s[i] != b
    ensures Find(s, b) == k
  {
  }

  function Split(s: bytes): (segs: seq<bytes>)
    ensures |segs| > 0
    decreases |s|
  {
    var k := Find(s, SLASH);
    if k == |s| then [s] else [s[..k]] + Split(s[k + 1..])
  }

  /** A segment up to its path parameters. */
  function Base(seg: bytes): bytes {
    seg[..Find(seg, SEMICOLON)]
  }

  predicate IsDots(seg: bytes) {
    seg == [DOT] || seg == [DOT, DOT]
  }

  predicate HasDotSegment(s: bytes) {
    exists seg :: seg in Split(s) && IsDots(Base(seg))
  }

  predicate HasDuplicateSlash(s: bytes) {
    exists i :: 0 <= i < |s| - 1 && s[i] == SLASH && s[i + 1] == SLASH
  }

  function Check(s: bytes): Decoded {
    if !ValidUtf8(s) then Err(NotUtf8)
    else if HasControl(s) then Err(ControlCharacter)
    else if HasDotSegment(s) then Err(DotSegment)
    else if HasDuplicateSlash(s) then Err(DuplicateSlash)
    else Ok(s)
  }

  function Canonicalize(raw: bytes): Decoded {
    if raw == [] || raw[0] != SLASH then Err(NotRooted)
    else
      match Decode(raw)
      case Err(e) => Err(e)
      case Ok(s) => Check(s)
  }

  /** The loop that decodes into a buffer. */
  method CanonicalizePath(raw: bytes) returns (r: Decoded)
    ensures r == Canonicalize(raw)
  {
    if |raw| == 0 || raw[0] != SLASH {
      return Err(NotRooted);
    }
    var decoded: bytes := [];
    var i := 0;
    assert raw[0..] == raw;
    assert Decode(raw).Ok? ==> [] + Decode(raw).value == Decode(raw).value;
    while i < |raw|
      invariant 0 <= i <= |raw|
      invariant Decode(raw) == Prepend(decoded, Decode(raw[i..]))
    {
      var b := raw[i];
      assert raw[i..][0] == b && raw[i..][1..] == raw[i + 1..];
      if b == PERCENT {
        if i + 3 > |raw| {
          return Err(TruncatedEscape);
        }
        var h, l := HexVal(raw[i + 1]), HexVal(raw[i + 2]);
        if h.None? || l.None? {
          return Err(InvalidEscape);
        }
        var v := (h.value * 16 + l.value) as byte;
        if v == SLASH {
          return Err(EncodedSlash);
        }
        if v == BACKSLASH {
          return Err(EncodedBackslash);
        }
        assert Escape(raw[i..]) == Ok(v) && raw[i..][3..] == raw[i + 3..];
        PrependTwice(decoded, [v], Decode(raw[i + 3..]));
        decoded := decoded + [v];
        i := i + 3;
      } else if b == BACKSLASH {
        return Err(RawBackslash);
      } else {
        PrependTwice(decoded, [b], Decode(raw[i + 1..]));
        decoded := decoded + [b];
        i := i + 1;
      }
    }
    assert raw[i..] == [] && decoded + [] == decoded;
    return Check(decoded);
  }

  lemma PrependTwice(a: bytes, b: bytes, r: Decoded)
    ensures Prepend(a, Prepend(b, r)) == Prepend(a + b, r)
  {
    if r.Ok? {
      assert a + (b + r.value) == (a + b) + r.value;
    }
  }

  // ---------- encoding ----------

  function HexUpper(n: nat): (b: byte)
    requires n < 16
    ensures HexVal(b) == Some(n)
  {
    if n < 10 then 0x30 + n as byte else 0x41 + (n - 10) as byte
  }

  function PercentXX(b: byte): (s: bytes)
    ensures |s| == 3 && s[0] == PERCENT
  {
    [PERCENT, HexUpper(b as nat / 16), HexUpper(b as nat % 16)]
  }

  predicate IsUnreserved(b: byte) {
    0x30 <= b <= 0x39 || 0x41 <= b <= 0x5A || 0x61 <= b <= 0x7A || b == 0x2D || b == DOT || b == 0x5F || b == 0x7E
  }

  function EncodeOne(keep: byte -> bool, b: byte): bytes {
    if keep(b) then [b] else PercentXX(b)
  }

  /** Every byte that is not kept becomes an escape. */
  function EncodeBut(keep: byte -> bool, s: bytes): bytes {
    if s == [] then [] else EncodeOne(keep, s[0]) + EncodeBut(keep, s[1..])
  }

  function UriKeeps(keepSlash: bool): byte -> bool {
    b => IsUnreserved(b) || (keepSlash && b == SLASH)
  }

  lemma EncodeStep(keep: byte -> bool, goal: bytes, out: bytes, input: bytes, i: nat)
    requires i < |input| && goal == out + EncodeBut(keep, input[i..])
    ensures goal == (out + EncodeOne(keep, input[i])) + EncodeBut(keep, input[i + 1..])
  {
    assert input[i..][0] == input[i] && input[i..][1..] == input[i + 1..];
    Assoc(out, EncodeOne(keep, input[i]), EncodeBut(keep, input[i + 1..]));
  }

  method UriEncode(input: bytes, keepSlash: bool) returns (out: bytes)
    ensures out == EncodeBut(UriKeeps(keepSlash), input)
  {
    out := [];
    for i := 0 to |input|
      invariant EncodeBut(UriKeeps(keepSlash), input) == out + EncodeBut(UriKeeps(keepSlash), input[i..])
    {
      var b := input[i];
      EncodeStep(UriKeeps(keepSlash), EncodeBut(UriKeeps(keepSlash), input), out, input, i);
      if IsUnreserved(b) || (keepSlash && b == SLASH) {
        out := out + [b];
      } else {
        out := out + PercentXX(b);
      }
    }
  }

  function WirePath(decodedPath: bytes): bytes {
    if decodedPath == [] then [SLASH] else EncodeBut(UriKeeps(true), decodedPath)
  }

  /** The bytes that setting a URL's path escapes: controls, non-ASCII, and space " # < > ? ` { }. It leaves `%`. */
  predicate InUrlPathSet(b: byte) {
    b < 0x20 || b >= 0x7F || b in {0x20, 0x22, 0x23, 0x3C, 0x3E, 0x3F, 0x60, 0x7B, 0x7D}
  }

  /** `canonical_path.replace('%', "%25")`. */
  function EscapePercent(s: bytes): bytes {
    EncodeBut(b => b != PERCENT, s)
  }

  function OutboundPath(decodedPath: bytes): bytes {
    EncodeBut(b => !InUrlPathSet(b), EscapePercent(decodedPath))
  }

  /** Keeping `/` and escaping `%` makes an encoding that decodes to what it encoded. */
  predicate Decodable(keep: byte -> bool) {
    !keep(PERCENT) && keep(SLASH)
  }

  lemma {:induction false} DecodeEncoded(keep: byte -> bool, s: bytes)
    requires Decodable(keep) && BACKSLASH !in s
    ensures Decode(EncodeBut(keep, s)) == Ok(s)
  {
    if s != [] {
      DecodeEncoded(keep, s[1..]);
      var e := EncodeBut(keep, s);
      if keep(s[0]) {
        assert e[1..] == EncodeBut(keep, s[1..]);
      } else {
        assert e[3..] == EncodeBut(keep, s[1..]);
        assert e[..3] == PercentXX(s[0]);
        assert Escape(e) == Ok(s[0]);
      }
      assert s == [s[0]] + s[1..];
    }
  }

  lemma {:induction false} EncodeAppend(keep: byte -> bool, s: bytes, t: bytes)
    ensures EncodeBut(keep, s + t) == EncodeBut(keep, s) + EncodeBut(keep, t)
  {
    if s == [] {
      assert s + t == t;
    } else {
      EncodeAppend(keep, s[1..], t);
      assert (s + t)[0] == s[0] && (s + t)[1..] == s[1..] + t;
      Assoc(EncodeOne(keep, s[0]), EncodeBut(keep, s[1..]), EncodeBut(keep, t));
    }
  }

  /** Escaping `%` first and the rest afterwards is one encoding: no escape is escaped again. */
  lemma {:induction false} OutboundIsOneEncoding(s: bytes)
    ensures OutboundPath(s) == EncodeBut(b => !InUrlPathSet(b) && b != PERCENT, s)
  {
    if s != [] {
      OutboundIsOneEncoding(s[1..]);
      var outer := (b: byte) => !InUrlPathSet(b);
      var head := if s[0] != PERCENT then [s[0]] else PercentXX(s[0]);
      EncodeAppend(outer, head, EscapePercent(s[1..]));
      if s[0] == PERCENT {
        assert head == [PERCENT, 0x32, 0x35];
        assert EncodeBut(outer, [0x35]) == [0x35];
        assert EncodeBut(outer, [0x32, 0x35]) == [0x32] + EncodeBut(outer, [0x35]);
        assert EncodeBut(outer, head) == [PERCENT] + EncodeBut(outer, [0x32, 0x35]);
      } else {
        assert EncodeBut(outer, head) == if outer(s[0]) then [s[0]] else PercentXX(s[0]);
      }
    }
  }

  lemma {:induction false} DecodedHasNoBackslash(raw: bytes)
    requires Decode(raw).Ok?
    ensures BACKSLASH !in Decode(raw).value
    ensures |Decode(raw).value| <= |raw| && (PERCENT in raw ==> |Decode(raw).value| < |raw|)
    ensures PERCENT !in raw ==> Decode(raw).value == raw
    decreases |raw|
  {
    if raw != [] {
      if raw[0] == PERCENT {
        DecodedHasNoBackslash(raw[3..]);
      } else {
        DecodedHasNoBackslash(raw[1..]);
        assert raw == [raw[0]] + raw[1..];
      }
    }
  }

  lemma {:induction false} DecodePlain(s: bytes)
    requires PERCENT !in s && BACKSLASH !in s
    ensures Decode(s) == Ok(s)
  {
    if s != [] {
      DecodePlain(s[1..]);
      assert s == [s[0]] + s[1..];
    }
  }

  /** The C1 controls are refused too: U+0080 to U+009F, two bytes each. */
  lemma C1ControlsRefused(b: byte)
    requires 0x80 <= b < 0xA0
    ensures Canonicalize([SLASH, 0xC2, b]) == Err(ControlCharacter)
  {
    var raw: bytes := [SLASH, 0xC2, b];
    DecodePlain(raw);
    assert raw[1..] == [0xC2, b] && [0xC2, b][2..] == [];
    assert ValidUtf8([0xC2, b]);
    assert raw[1] == 0xC2;
  }

  /** What a canonical path is: rooted, without a backslash, and past every check. */
  ghost predicate Canonical(p: bytes) {
    p != [] && p[0] == SLASH && BACKSLASH !in p && Check(p) == Ok(p)
  }

  lemma AcceptedIsCanonical(raw: bytes)
    requires Canonicalize(raw).Ok?
    ensures Canonical(Canonicalize(raw).value)
  {
    DecodedHasNoBackslash(raw);
  }

  /** Both forms sent upstream are read back as the path that was approved; the canonical path itself is,
      exactly when it has no `%`. */
  lemma ReencodingRoundTrips(raw: bytes)
    requires Canonicalize(raw).Ok?
    ensures var p := Canonicalize(raw).value;
            && Canonicalize(WirePath(p)) == Ok(p)
            && Canonicalize(OutboundPath(p)) == Ok(p)
            && (Canonicalize(p) == Ok(p) <==> PERCENT !in p)
  {
    var p := Canonicalize(raw).value;
    AcceptedIsCanonical(raw);
    DecodeEncoded(UriKeeps(true), p);
    var outbound := (b: byte) => !InUrlPathSet(b) && b != PERCENT;
    DecodeEncoded(outbound, p);
    OutboundIsOneEncoding(p);
    assert EncodeBut(outbound, p)[0] == SLASH;
    if PERCENT !in p {
      DecodePlain(p);
    } else if Decode(p).Ok? {
      DecodedHasNoBackslash(p);
    }
  }

  /** A path of one segment of printable ASCII other than `%`, `/`, `;` and `\`, possibly after a `%`. */
  lemma PlainSegmentPasses(p: bytes)
    requires |p| > 1 && p[0] == SLASH && IsUnreserved(p[|p| - 1]) && p[|p| - 1] != DOT
    requires forall i :: 0 < i < |p| ==> 0x20 < p[i] < 0x7F && p[i] != SLASH && p[i] != SEMICOLON
    ensures Check(p) == Ok(p)
  {
    AsciiIsUtf8(p);
    var seg := p[1..];
    assert Find(seg, SLASH) == |seg| by {
      assert SLASH !in seg;
    }
    assert Find(p, SLASH) == 0 && p[..0] == [] && seg[..|seg|] == seg;
    assert Split(seg) == [seg] && Split(p) == [[]] + [seg];
    assert Base(seg) == seg by {
      assert SEMICOLON !in seg;
    }
    assert Base([]) == [];
    assert seg[|seg| - 1] == p[|p| - 1];
  }

  lemma {:induction false} AsciiIsUtf8(s: bytes)
    requires forall i :: 0 <= i < |s| ==> s[i] < 0x80
    ensures ValidUtf8(s)
  {
    if s != [] {
      AsciiIsUtf8(s[1..]);
    }
  }

  /** A stored prefix that is canonicalized again can become another prefix: `/%2541` is stored as `/%41`
      and read back as `/A`. */
  lemma RecanonicalizingMoves()
    ensures Canonicalize([SLASH, PERCENT, 0x32, 0x35, 0x34, 0x31]) == Ok([SLASH, PERCENT, 0x34, 0x31])
    ensures Canonicalize([SLASH, PERCENT, 0x34, 0x31]) == Ok([SLASH, 0x41])
  {
    var once: bytes, twice: bytes := [SLASH, PERCENT, 0x32, 0x35, 0x34, 0x31], [SLASH, PERCENT, 0x34, 0x31];
    assert Escape(once[1..]) == Ok(PERCENT) && once[1..][3..] == [0x34, 0x31];
    DecodePlain([0x34, 0x31]);
    assert [PERCENT] + [0x34, 0x31] == [PERCENT, 0x34, 0x31];
    assert Decode(once[1..]) == Ok([PERCENT, 0x34, 0x31]);
    assert [SLASH] + [PERCENT, 0x34, 0x31] == twice;
    assert Escape(twice[1..]) == Ok(0x41) && twice[1..][3..] == [];
    assert [0x41 as byte] + [] == [0x41];
    assert Decode(twice[1..]) == Ok([0x41]);
    assert [SLASH] + [0x41 as byte] == [SLASH, 0x41];
    PlainSegmentPasses(twice);
    PlainSegmentPasses([SLASH, 0x41]);
  }
}
