/**
  What canonicalization accepts, said without the decoder: a path in which each
  byte stands for itself or is spelled as an escape, whose bytes are the UTF-8
  of characters that may occur in a path.
 */
module PathDecoding {
  import opened Wrappers
  import opened CanonicalPath
  import opened Chars

  const UPPER_DIGITS := "0123456789ABCDEF"
  const LOWER_DIGITS := "0123456789abcdef"

  // ---------- escapes ----------

  /** `b` writes the digit `n`, in either case. */
  predicate Writes(b: byte, n: nat)
    requires n < 16
  {
    b as int == UPPER_DIGITS[n] as int || b as int == LOWER_DIGITS[n] as int
  }

  ghost predicate IsDigit(b: byte) {
    exists n: nat :: n < 16 && Writes(b, n)
  }

  lemma DigitHasValue(b: byte, n: nat)
    requires n < 16 && Writes(b, n)
    ensures HexVal(b) == Some(n)
  {
  }

  lemma ValueHasDigit(b: byte)
    ensures HexVal(b).Some? ==> Writes(b, HexVal(b).value)
  {
  }

  lemma DigitsHaveValues(b: byte)
    ensures IsDigit(b) <==> HexVal(b).Some?
  {
    ValueHasDigit(b);
    if IsDigit(b) {
      var n: nat :| n < 16 && Writes(b, n);
      DigitHasValue(b, n);
    }
  }

  /** A percent sign and the two digits of `v`, each in either case. */
  predicate Spells(e: bytes, v: byte) {
    |e| == 3 && e[0] == PERCENT && Writes(e[1], v as nat / 16) && Writes(e[2], v as nat % 16)
  }

  lemma SpelledValue(e: bytes, v: byte, raw: bytes)
    requires Spells(e, v) && e <= raw
    ensures Escape(raw) == if v == SLASH then Err(EncodedSlash) else if v == BACKSLASH then Err(EncodedBackslash) else Ok(v)
  {
    DigitHasValue(e[1], v as nat / 16);
    DigitHasValue(e[2], v as nat % 16);
  }

  lemma ValueSpelled(raw: bytes)
    requires |raw| >= 3 && raw[0] == PERCENT && IsDigit(raw[1]) && IsDigit(raw[2])
    ensures exists v: byte :: Spells(raw[..3], v)
  {
    DigitsHaveValues(raw[1]);
    DigitsHaveValues(raw[2]);
    ValueHasDigit(raw[1]);
    ValueHasDigit(raw[2]);
    var v := (HexVal(raw[1]).value * 16 + HexVal(raw[2]).value) as byte;
    assert Spells(raw[..3], v);
  }

  /** An escape of three bytes is invalid exactly when one of the last two is no digit. */
  lemma InvalidEscapes(raw: bytes)
    requires raw != [] && raw[0] == PERCENT
    ensures Escape(raw) == Err(InvalidEscape) <==> |raw| >= 3 && !(IsDigit(raw[1]) && IsDigit(raw[2]))
  {
    if |raw| >= 3 {
      DigitsHaveValues(raw[1]);
      DigitsHaveValues(raw[2]);
    }
  }

  // ---------- encodings ----------

  /** `piece` is one way of writing `b` in a path. */
  predicate Stands(piece: bytes, b: byte) {
    || (piece == [b] && b != PERCENT && b != BACKSLASH)
    || (Spells(piece, b) && b != SLASH && b != BACKSLASH)
  }

  /** Each byte of `s` written in one way or another. */
  predicate Encodes(pieces: seq<bytes>, s: bytes) {
    |pieces| == |s| && forall i :: 0 <= i < |s| ==> Stands(pieces[i], s[i])
  }

  function Joined(pieces: seq<bytes>): bytes {
    if pieces == [] then [] else pieces[0] + Joined(pieces[1..])
  }

  lemma DecodePiece(piece: bytes, b: byte, rest: bytes)
    requires Stands(piece, b)
    ensures Decode(piece + rest) == Prepend([b], Decode(rest))
  {
    var raw := piece + rest;
    if piece == [b] {
      assert raw[1..] == rest;
    } else {
      SpelledValue(piece, b, raw);
      assert raw[3..] == rest;
    }
  }

  lemma {:induction false} DecodePieces(pieces: seq<bytes>, s: bytes, rest: bytes)
    requires Encodes(pieces, s)
    ensures Decode(Joined(pieces) + rest) == Prepend(s, Decode(rest))
  {
    if s == [] {
      assert Joined(pieces) + rest == rest;
      if Decode(rest).Ok? {
        assert [] + Decode(rest).value == Decode(rest).value;
      }
    } else {
      DecodePieces(pieces[1..], s[1..], rest);
      Assoc(pieces[0], Joined(pieces[1..]), rest);
      DecodePiece(pieces[0], s[0], Joined(pieces[1..]) + rest);
      PrependTwice([s[0]], s[1..], Decode(rest));
      assert [s[0]] + s[1..] == s;
    }
  }

  /** Where decoding stops: an escape cut short, one that is no escape, one for a separator, or a bare backslash. */
  ghost predicate Stops(rest: bytes, e: Rejection) {
    && rest != []
    && match e
       case RawBackslash => rest[0] == BACKSLASH
       case TruncatedEscape => rest[0] == PERCENT && |rest| < 3
       case InvalidEscape => rest[0] == PERCENT && |rest| >= 3 && !(IsDigit(rest[1]) && IsDigit(rest[2]))
       case EncodedSlash => |rest| >= 3 && Spells(rest[..3], SLASH)
       case EncodedBackslash => |rest| >= 3 && Spells(rest[..3], BACKSLASH)
       case _ => false
  }

  lemma StoppedDecode(rest: bytes, e: Rejection)
    requires Stops(rest, e)
    ensures Decode(rest) == Err(e)
  {
    match e
    case InvalidEscape => InvalidEscapes(rest);
    case EncodedSlash => SpelledValue(rest[..3], SLASH, rest);
    case EncodedBackslash => SpelledValue(rest[..3], BACKSLASH, rest);
    case _ =>
  }

  /** One way of writing `s`, and where it stops. */
  ghost predicate Reads(raw: bytes, pieces: seq<bytes>, s: bytes, rest: bytes) {
    Encodes(pieces, s) && raw == Joined(pieces) + rest
  }

  ghost predicate ReadsUpTo(raw: bytes, pieces: seq<bytes>, s: bytes, rest: bytes, e: Rejection) {
    Reads(raw, pieces, s, rest) && Stops(rest, e)
  }

  /** The piece at the head of a path, or where it stops. */
  lemma Head(raw: bytes) returns (n: nat, b: byte)
    requires raw != [] && forall e :: !Stops(raw, e)
    ensures 0 < n <= |raw| && Stands(raw[..n], b)
  {
    if raw[0] == PERCENT {
      assert !Stops(raw, TruncatedEscape) && !Stops(raw, InvalidEscape);
      assert !Stops(raw, EncodedSlash) && !Stops(raw, EncodedBackslash);
      ValueSpelled(raw);
      var v: byte :| Spells(raw[..3], v);
      n, b := 3, v;
    } else {
      assert !Stops(raw, RawBackslash);
      n, b := 1, raw[0];
    }
  }

  lemma {:induction false} Decompose(raw: bytes) returns (pieces: seq<bytes>, s: bytes, rest: bytes)
    ensures Reads(raw, pieces, s, rest) && (rest == [] || exists e :: Stops(rest, e))
    decreases |raw|
  {
    if raw == [] || exists e :: Stops(raw, e) {
      pieces, s, rest := [], [], raw;
    } else {
      var n, b := Head(raw);
      var tail, t, end := Decompose(raw[n..]);
      pieces, s, rest := [raw[..n]] + tail, [b] + t, end;
      assert pieces[1..] == tail;
      Assoc(raw[..n], Joined(tail), end);
      assert raw == raw[..n] + raw[n..];
    }
  }

  /** A path decodes to `s` exactly when it is `s` with each byte written in one way or another. */
  lemma DecodesExactly(raw: bytes, s: bytes)
    ensures Decode(raw) == Ok(s) <==> exists pieces :: Encodes(pieces, s) && raw == Joined(pieces)
  {
    if Decode(raw) == Ok(s) {
      var pieces, t, rest := Decompose(raw);
      DecodePieces(pieces, t, rest);
      if rest != [] {
        var e :| Stops(rest, e);
        StoppedDecode(rest, e);
      }
      assert Joined(pieces) + rest == Joined(pieces) && t + [] == t;
    }
    forall pieces | Encodes(pieces, s) && raw == Joined(pieces) ensures Decode(raw) == Ok(s) {
      DecodePieces(pieces, s, []);
      assert Joined(pieces) + [] == Joined(pieces) && s + [] == s;
    }
  }

  /** It is refused exactly when such a spelling stops, for what stops it. */
  lemma RefusedExactly(raw: bytes, e: Rejection)
    ensures Decode(raw) == Err(e) <==> exists pieces, s, rest :: ReadsUpTo(raw, pieces, s, rest, e)
  {
    if Decode(raw) == Err(e) {
      var pieces, s, rest := Decompose(raw);
      DecodePieces(pieces, s, rest);
      var f :| Stops(rest, f);
      StoppedDecode(rest, f);
      assert ReadsUpTo(raw, pieces, s, rest, e);
    }
    forall pieces, s, rest | ReadsUpTo(raw, pieces, s, rest, e) ensures Decode(raw) == Err(e) {
      DecodePieces(pieces, s, rest);
      StoppedDecode(rest, e);
    }
  }

  // ---------- characters ----------

  /** A Unicode scalar value. */
  type Scalar = c: nat | c < 0xD800 || 0xE000 <= c < 0x11_0000

  /** Its UTF-8, by the ranges of table 3-6 of the Unicode standard. */
  function Utf8(c: Scalar): (s: bytes)
    ensures 1 <= |s| <= 4
  {
    if c < 0x80 then [c as byte]
    else if c < 0x800 then [(0xC0 + c / 0x40) as byte, Trail(c)]
    else if c < 0x1_0000 then [(0xE0 + c / 0x1000) as byte, Trail(c / 0x40), Trail(c)]
    else [(0xF0 + c / 0x4_0000) as byte, Trail(c / 0x1000), Trail(c / 0x40), Trail(c)]
  }

  function Trail(n: nat): byte {
    (0x80 + n % 0x40) as byte
  }

  function Text(cs: seq<Scalar>): bytes {
    if cs == [] then [] else Utf8(cs[0]) + Text(cs[1..])
  }

  lemma HeadOfScalar(c: Scalar, rest: bytes)
    ensures Utf8Head(Utf8(c) + rest) == |Utf8(c)|
  {
  }

  /** A number in base 64. */
  lemma Place(q: nat, d: nat)
    requires d < 0x40
    ensures (q * 0x40 + d) / 0x40 == q && Trail(q * 0x40 + d) == (0x80 + d) as byte
  {
  }

  lemma TwoByteScalar(s: bytes) returns (c: Scalar)
    requires |s| == 2 && Utf8Head(s) == 2
    ensures s == Utf8(c)
  {
    var q, d := s[0] as nat - 0xC0, s[1] as nat - 0x80;
    Place(q, d);
    c := q * 0x40 + d;
  }

  lemma ThreeByteScalar(s: bytes) returns (c: Scalar)
    requires |s| == 3 && Utf8Head(s) == 3
    ensures s == Utf8(c)
  {
    var q, m, d := s[0] as nat - 0xE0, s[1] as nat - 0x80, s[2] as nat - 0x80;
    Place(q, m);
    Place(q * 0x40 + m, d);
    c := (q * 0x40 + m) * 0x40 + d;
    assert c / 0x1000 == q;
  }

  lemma FourByteScalar(s: bytes) returns (c: Scalar)
    requires |s| == 4 && Utf8Head(s) == 4
    ensures s == Utf8(c)
  {
    var q, l, m, d := s[0] as nat - 0xF0, s[1] as nat - 0x80, s[2] as nat - 0x80, s[3] as nat - 0x80;
    var h := q * 0x40 + l;
    Place(q, l);
    Place(h, m);
    Place(h * 0x40 + m, d);
    c := (h * 0x40 + m) * 0x40 + d;
    assert c / 0x1000 == h && c / 0x4_0000 == q;
  }

  /** The character at the head of a text. */
  lemma ScalarOfHead(s: bytes) returns (c: Scalar)
    requires Utf8Head(s) > 0
    ensures s[..Utf8Head(s)] == Utf8(c)
  {
    var n := Utf8Head(s);
    if n == 1 {
      c := s[0] as nat;
    } else if n == 2 {
      c := TwoByteScalar(s[..2]);
    } else if n == 3 {
      c := ThreeByteScalar(s[..3]);
    } else {
      c := FourByteScalar(s[..4]);
    }
  }

  lemma {:induction false} TextIsValid(cs: seq<Scalar>)
    ensures ValidUtf8(Text(cs))
  {
    if cs != [] {
      TextIsValid(cs[1..]);
      HeadOfScalar(cs[0], Text(cs[1..]));
      assert Text(cs)[|Utf8(cs[0])|..] == Text(cs[1..]);
    }
  }

  lemma {:induction false} ValidIsText(s: bytes) returns (cs: seq<Scalar>)
    requires ValidUtf8(s)
    ensures s == Text(cs)
    decreases |s|
  {
    if s == [] {
      cs := [];
    } else {
      var c := ScalarOfHead(s);
      var rest := ValidIsText(s[Utf8Head(s)..]);
      cs := [c] + rest;
      assert s == s[..Utf8Head(s)] + s[Utf8Head(s)..];
      assert cs[1..] == rest;
    }
  }

  /** Unicode's category Cc. */
  predicate IsControl(c: Scalar) {
    c < 0x20 || 0x7F <= c < 0xA0
  }

  predicate ControlAt(s: bytes, i: nat)
    requires i < |s|
  {
    s[i] < 0x20 || s[i] == 0x7F || (s[i] == 0xC2 && i + 1 < |s| && 0x80 <= s[i + 1] < 0xA0)
  }

  /** The lead byte alone shows a control. */
  lemma ControlInHead(c: Scalar, rest: bytes, i: nat)
    requires i < |Utf8(c)|
    ensures ControlAt(Utf8(c) + rest, i) <==> i == 0 && IsControl(c)
  {
  }

  lemma ControlInTail(head: bytes, rest: bytes, i: nat)
    requires i < |rest|
    ensures ControlAt(head + rest, |head| + i) <==> ControlAt(rest, i)
  {
    assert (head + rest)[|head| + i] == rest[i];
  }

  lemma ControlSomewhere(s: bytes)
    ensures HasControl(s) <==> exists i: nat :: i < |s| && ControlAt(s, i)
  {
    if HasControl(s) {
      var i :| 0 <= i < |s| && (s[i] < 0x20 || s[i] == 0x7F || (s[i] == 0xC2 && i + 1 < |s| && 0x80 <= s[i + 1] < 0xA0));
      assert ControlAt(s, i);
    }
  }

  lemma ControlAtHead(c: Scalar, rest: bytes)
    ensures HasControl(Utf8(c) + rest) <==> IsControl(c) || HasControl(rest)
  {
    var (s, n) := (Utf8(c) + rest, |Utf8(c)|);
    ControlSomewhere(s);
    ControlSomewhere(rest);
    ControlInHead(c, rest, 0);
    if HasControl(s) {
      var i: nat :| i < |s| && ControlAt(s, i);
      if i < n {
        ControlInHead(c, rest, i);
      } else {
        ControlInTail(Utf8(c), rest, i - n);
      }
    }
    if HasControl(rest) {
      var i: nat :| i < |rest| && ControlAt(rest, i);
      ControlInTail(Utf8(c), rest, i);
      assert ControlAt(s, n + i);
    }
  }

  lemma {:induction false} ControlsFound(cs: seq<Scalar>)
    ensures HasControl(Text(cs)) <==> exists i :: 0 <= i < |cs| && IsControl(cs[i])
  {
    if cs != [] {
      ControlsFound(cs[1..]);
      ControlAtHead(cs[0], Text(cs[1..]));
    }
  }

  // ---------- segments ----------

  /** The segments with slashes between them. */
  function Slashed(segs: seq<bytes>): bytes
    requires segs != []
  {
    if |segs| == 1 then segs[0] else segs[0] + ([SLASH] + Slashed(segs[1..]))
  }

  ghost predicate NoSlash(segs: seq<bytes>) {
    forall i :: 0 <= i < |segs| ==> SLASH !in segs[i]
  }

  lemma FirstSlash(seg: bytes, rest: bytes)
    requires SLASH !in seg && (rest == [] || rest[0] == SLASH)
    ensures Find(seg + rest, SLASH) == |seg|
  {
    var s := seg + rest;
    assert forall x :: 0 <= x < |seg| ==> s[x] == seg[x];
    FindIs(s, SLASH, |seg|);
  }

  lemma SplitOnce(seg: bytes, rest: bytes)
    requires SLASH !in seg
    ensures Split(seg + ([SLASH] + rest)) == [seg] + Split(rest)
  {
    var s := seg + ([SLASH] + rest);
    FirstSlash(seg, [SLASH] + rest);
    assert s[..|seg|] == seg && s[|seg| + 1..] == rest;
  }

  lemma {:induction false} SplitOfSlashed(segs: seq<bytes>)
    requires segs != [] && NoSlash(segs)
    ensures Split(Slashed(segs)) == segs
  {
    if |segs| == 1 {
      FirstSlash(segs[0], []);
      assert segs[0] + [] == segs[0];
    } else {
      SplitOfSlashed(segs[1..]);
      SplitOnce(segs[0], Slashed(segs[1..]));
      assert segs == [segs[0]] + segs[1..];
    }
  }

  /** Splitting finds the segments: between slashes, and none in them. */
  lemma {:induction false} SplitsAtSlashes(s: bytes)
    ensures Slashed(Split(s)) == s && NoSlash(Split(s))
    decreases |s|
  {
    var k := Find(s, SLASH);
    if k < |s| {
      SplitsAtSlashes(s[k + 1..]);
      assert Split(s)[1..] == Split(s[k + 1..]);
      assert s == s[..k] + ([SLASH] + s[k + 1..]);
    }
  }

  // ---------- dot segments ----------

  /** `s[i..j]` is one or two dots, from the start of a segment to its end or to its parameters. */
  predicate DotsFrom(s: bytes, i: nat, j: nat) {
    && i <= j <= |s| && (i == 0 || s[i - 1] == SLASH) && (j == |s| || s[j] == SLASH || s[j] == SEMICOLON)
    && (s[i..j] == [DOT] || s[i..j] == [DOT, DOT])
  }

  ghost predicate HasDots(s: bytes) {
    exists i: nat, j: nat :: DotsFrom(s, i, j)
  }

  lemma DotsAreDots(s: bytes, i: nat, j: nat)
    requires DotsFrom(s, i, j)
    ensures i < j <= i + 2 && forall x :: i <= x < j ==> s[x] == DOT
  {
    var dots := s[i..j];
    assert forall x :: i <= x < j ==> s[x] == dots[x - i];
  }

  lemma HeadHasDots(s: bytes, j: nat)
    requires DotsFrom(s, 0, j)
    ensures IsDots(Base(s[..Find(s, SLASH)]))
  {
    var seg := s[..Find(s, SLASH)];
    DotsAreDots(s, 0, j);
    assert j <= |seg|;
    FindIs(seg, SEMICOLON, j);
    assert seg[..j] == s[0..j];
  }

  /** The first segment. */
  lemma DotsAtHead(s: bytes)
    ensures IsDots(Base(s[..Find(s, SLASH)])) <==> exists j: nat :: DotsFrom(s, 0, j)
  {
    var seg := s[..Find(s, SLASH)];
    if IsDots(Base(seg)) {
      var j := Find(seg, SEMICOLON);
      assert seg[..j] == s[0..j];
      assert DotsFrom(s, 0, j);
    }
    forall j: nat | DotsFrom(s, 0, j) ensures IsDots(Base(seg)) {
      HeadHasDots(s, j);
    }
  }

  lemma DotsShift(s: bytes, k: nat, i: nat, j: nat)
    requires k < |s| && s[k] == SLASH
    ensures DotsFrom(s[k + 1..], i, j) <==> DotsFrom(s, i + k + 1, j + k + 1)
  {
    var t := s[k + 1..];
    if i <= j <= |t| {
      assert s[i + k + 1..j + k + 1] == t[i..j];
    }
  }

  /** The segments after the first. */
  lemma DotsInTail(s: bytes, k: nat)
    requires k == Find(s, SLASH) && k < |s|
    ensures (exists i: nat, j: nat :: i > 0 && DotsFrom(s, i, j)) <==> HasDots(s[k + 1..])
  {
    var t := s[k + 1..];
    forall i: nat, j: nat | i > 0 && DotsFrom(s, i, j) ensures HasDots(t) {
      DotsShift(s, k, i - k - 1, j - k - 1);
    }
    forall i: nat, j: nat | DotsFrom(t, i, j) ensures exists x: nat, y: nat :: x > 0 && DotsFrom(s, x, y) {
      DotsShift(s, k, i, j);
    }
  }

  lemma {:induction false} DotSegmentsFound(s: bytes)
    ensures HasDotSegment(s) <==> HasDots(s)
    decreases |s|
  {
    var k := Find(s, SLASH);
    DotsAtHead(s);
    if k < |s| {
      DotSegmentsFound(s[k + 1..]);
      DotsInTail(s, k);
      DotSegmentSplits(s, k);
    } else {
      assert s[..k] == s && Split(s) == [s];
      forall i: nat, j: nat | DotsFrom(s, i, j) ensures i == 0 {
      }
    }
  }

  ghost predicate SomeDots(segs: seq<bytes>) {
    exists seg :: seg in segs && IsDots(Base(seg))
  }

  lemma SomeDotsAfter(head: bytes, tail: seq<bytes>)
    ensures SomeDots([head] + tail) <==> IsDots(Base(head)) || SomeDots(tail)
  {
    var segs := [head] + tail;
    assert segs[0] == head;
    assert forall seg :: seg in tail ==> seg in segs;
    if SomeDots(segs) {
      var seg :| seg in segs && IsDots(Base(seg));
      assert seg == head || seg in tail;
    }
  }

  lemma DotSegmentSplits(s: bytes, k: nat)
    requires k == Find(s, SLASH) && k < |s|
    ensures HasDotSegment(s) <==> IsDots(Base(s[..k])) || HasDotSegment(s[k + 1..])
  {
    SomeDotsAfter(s[..k], Split(s[k + 1..]));
    assert HasDotSegment(s) == SomeDots(Split(s));
    assert HasDotSegment(s[k + 1..]) == SomeDots(Split(s[k + 1..]));
  }

  // ---------- the whole ----------

  /** What may be approved: rooted text without controls, dot segments, empty segments or backslashes. */
  ghost predicate Acceptable(p: bytes, cs: seq<Scalar>) {
    && p == Text(cs) && (forall i :: 0 <= i < |cs| ==> !IsControl(cs[i]))
    && !HasDots(p) && (forall i :: 0 <= i < |p| - 1 ==> !(p[i] == SLASH && p[i + 1] == SLASH))
  }

  ghost predicate IsAcceptable(p: bytes) {
    exists cs :: Acceptable(p, cs)
  }

  lemma ChecksExactly(p: bytes)
    ensures Check(p) == Ok(p) <==> IsAcceptable(p)
  {
    DotSegmentsFound(p);
    if Check(p) == Ok(p) {
      var cs := ValidIsText(p);
      ControlsFound(cs);
      assert Acceptable(p, cs);
    }
    forall cs | Acceptable(p, cs) ensures Check(p) == Ok(p) {
      TextIsValid(cs);
      ControlsFound(cs);
    }
  }

  ghost predicate IsText(p: bytes, cs: seq<Scalar>) {
    p == Text(cs)
  }

  ghost predicate HasControls(p: bytes) {
    exists cs, i :: IsText(p, cs) && 0 <= i < |cs| && IsControl(cs[i])
  }

  /** Which check refuses a path that does not pass them all. */
  lemma RefusalsExactly(p: bytes)
    ensures Check(p) == Err(NotUtf8) <==> forall cs :: !IsText(p, cs)
    ensures Check(p) == Err(ControlCharacter) <==> HasControls(p)
    ensures Check(p) == Err(DotSegment) <==> (exists cs :: IsText(p, cs)) && !HasControls(p) && HasDots(p)
  {
    DotSegmentsFound(p);
    if ValidUtf8(p) {
      var cs := ValidIsText(p);
      ControlsFound(cs);
      assert IsText(p, cs);
    }
    forall cs | IsText(p, cs)
      ensures ValidUtf8(p) && (HasControl(p) <==> exists i :: 0 <= i < |cs| && IsControl(cs[i]))
    {
      TextIsValid(cs);
      ControlsFound(cs);
    }
  }

  /** A path is accepted as `p` exactly when it is rooted, writes the bytes of `p` one way or another, and `p`
      may be approved. */
  lemma AcceptedExactly(raw: bytes, p: bytes)
    ensures Canonicalize(raw) == Ok(p) <==>
              raw != [] && raw[0] == SLASH && IsAcceptable(p) && exists pieces :: Encodes(pieces, p) && raw == Joined(pieces)
  {
    DecodesExactly(raw, p);
    ChecksExactly(p);
  }

  // ---------- the encoders ----------

  /** An escape is written with upper-case digits. */
  lemma EscapesAreUpperCase(b: byte)
    ensures var e := PercentXX(b);
            && |e| == 3 && e[0] as int == '%' as int
            && e[1] as int == UPPER_DIGITS[b as nat / 16] as int && e[2] as int == UPPER_DIGITS[b as nat % 16] as int
  {
  }

  /** The unreserved characters of section 2.3 of RFC 3986. */
  lemma UnreservedExactly(b: byte)
    ensures IsUnreserved(b) <==>
              var c := b as char;
              || (exists k :: 0 <= k < 26 && (c == UPPER_LETTERS[k] || c == LOWER_LETTERS[k]))
              || c in "0123456789" || c in "-._~"
  {
    forall k | 0 <= k < 26 ensures UPPER_LETTERS[k] as int == 0x41 + k && LOWER_LETTERS[k] as int == 0x61 + k {
      LetterAt(k);
    }
    if 0x41 <= b <= 0x5A {
      assert b as char == UPPER_LETTERS[b as int - 0x41];
    } else if 0x61 <= b <= 0x7A {
      assert b as char == LOWER_LETTERS[b as int - 0x61];
    } else if 0x30 <= b <= 0x39 {
      assert "0123456789"[b as int - 0x30] == b as char;
    }
  }

  /** The bytes that a URL's path does not hold: those outside ASCII, the controls, space and the nine below. */
  lemma UrlPathSetExactly(b: byte)
    ensures InUrlPathSet(b) <==> b < 32 || b > 126 || b as char in " \"#<>?`{}"
  {
  }
}
