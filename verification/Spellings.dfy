/**
  How numbers, ids, calls and header values are spelled, read back by readers
  that know nothing of the writers.
 */
module Spellings {
  import opened Wrappers
  import opened Chars
  import opened Sorting
  import opened SigV4
  import Envelope
  import CallBinding

  // ---------- numerals ----------

  /** The number a row of decimal digits stands for. */
  function Value(s: string): int {
    if s == "" then 0 else Value(s[..|s| - 1]) * 10 + (s[|s| - 1] as int - '0' as int)
  }

  /** The decimal numeral of `n`, without leading zeros. */
  predicate Numeral(s: string, n: nat) {
    s != "" && (forall i :: 0 <= i < |s| ==> '0' <= s[i] <= '9') && (|s| > 1 ==> s[0] != '0') && Value(s) == n
  }

  lemma {:induction false} NatTextIsNumeral(n: nat)
    ensures Numeral(Envelope.NatText(n), n)
  {
    if n >= 10 {
      NatTextIsNumeral(n / 10);
      var s := Envelope.NatText(n);
      assert s[..|s| - 1] == Envelope.NatText(n / 10);
      ShortNumeral(Envelope.NatText(n / 10), n / 10);
    } else {
      assert Envelope.NatText(n)[..0] == "";
    }
  }

  /** Only zero's numeral starts with a zero. */
  lemma ShortNumeral(s: string, n: nat)
    requires Numeral(s, n) && n > 0
    ensures s[0] != '0'
  {
    if |s| == 1 {
      assert s[..0] == "" && Value(s[..0]) == 0;
      assert Value(s) == s[0] as int - '0' as int;
    }
  }

  lemma IntTextIsNumeral(n: int)
    ensures n >= 0 ==> Numeral(Envelope.IntText(n), n)
    ensures n < 0 ==> Envelope.IntText(n)[0] == '-' && Numeral(Envelope.IntText(n)[1..], -n)
  {
    NatTextIsNumeral(if n < 0 then -n else n);
    if n < 0 {
      assert Envelope.IntText(n)[1..] == Envelope.NatText(-n);
    }
  }

  // ---------- ids and labels ----------

  /** Two lower-case digits for each byte. */
  lemma {:induction false} HexTextAt(b: bytes, i: nat)
    requires i < |b|
    ensures Envelope.HexText(b)[2 * i] == "0123456789abcdef"[b[i] as int / 16]
    ensures Envelope.HexText(b)[2 * i + 1] == "0123456789abcdef"[b[i] as int % 16]
  {
    if i > 0 {
      HexTextAt(b[1..], i - 1);
      assert Envelope.HexText(b)[2..] == Envelope.HexText(b[1..]);
      assert Envelope.HexText(b)[2 * i] == Envelope.HexText(b)[2..][2 * (i - 1)];
      assert Envelope.HexText(b)[2 * i + 1] == Envelope.HexText(b)[2..][2 * (i - 1) + 1];
    }
  }

  /** The groups of 8, 4, 4, 4 and 12 digits of section 4 of RFC 9562. */
  lemma UuidTextAt(id: Envelope.Uuid, k: nat)
    requires k < 32
    ensures var s, h := Envelope.UuidText(id), Envelope.HexText(id);
            && s[8] == s[13] == s[18] == s[23] == '-'
            && s[k + if k < 8 then 0 else if k < 12 then 1 else if k < 16 then 2 else if k < 20 then 3 else 4] == h[k]
  {
    var (s, h) := (Envelope.UuidText(id), Envelope.HexText(id));
    assert s == h[..8] + "-" + h[8..12] + "-" + h[12..16] + "-" + h[16..20] + "-" + h[20..];
  }

  lemma LabelsSpelled(id: Envelope.Uuid, version: int)
    ensures Envelope.Derive(Envelope.SecretVersion(id, version))
         == "keychute/v1/secret-version/" + (Envelope.UuidText(id) + ("/" + Envelope.IntText(version)))
    ensures Envelope.Derive(Envelope.GrantPassthrough(id)) == "keychute/v1/grant-passthrough/" + Envelope.UuidText(id)
    ensures Envelope.Derive(Envelope.RequestContext(id)) == "keychute/v1/request-context/" + Envelope.UuidText(id)
  {
  }

  // ---------- calls ----------

  /** The number that bytes stand for, most significant first. */
  function Number(b: bytes): nat {
    if b == [] then 0 else Number(b[..|b| - 1]) * 256 + b[|b| - 1] as nat
  }

  lemma {:induction false} BigEndianNumber(n: nat, k: nat)
    requires n < CallBinding.Power256(k)
    ensures Number(CallBinding.BigEndian(n, k)) == n
  {
    if k > 0 {
      BigEndianNumber(n / 256, k - 1);
      var b := CallBinding.BigEndian(n, k);
      assert b[..|b| - 1] == CallBinding.BigEndian(n / 256, k - 1);
    }
  }

  /** What a reader takes from the head of the bytes, and what is left. */
  type Taken<T> = Option<(T, bytes)>

  function TakeNumber(b: bytes): Taken<nat> {
    if |b| < 8 then None else Some((Number(b[..8]), b[8..]))
  }

  /** A field is preceded by its length. */
  function TakeField(b: bytes): Taken<bytes> {
    match TakeNumber(b)
    case None => None
    case Some((n, rest)) => if |rest| < n then None else Some((rest[..n], rest[n..]))
  }

  /** Absent is a zero, present a one and the field. */
  function TakeOptional(b: bytes): Taken<Option<bytes>> {
    if b == [] || b[0] > 1 then None
    else if b[0] == 0 then Some((None, b[1..]))
    else
      match TakeField(b[1..])
      case None => None
      case Some((field, rest)) => Some((Some(field), rest))
  }

  function TakeHeaders(b: bytes, n: nat): Taken<seq<(bytes, bytes)>> {
    if n == 0 then Some(([], b))
    else
      match TakeField(b)
      case None => None
      case Some((name, rest)) =>
        match TakeField(rest)
        case None => None
        case Some((value, rest2)) =>
          match TakeHeaders(rest2, n - 1)
          case None => None
          case Some((more, rest3)) => Some(([(name, value)] + more, rest3))
  }

  /** A call as it was spelled: its fields in order. */
  datatype Spelled = Spelled(
    verb: bytes, origin: bytes, path: bytes, query: Option<bytes>, headers: seq<(bytes, bytes)>, body: Option<bytes>,
    suppressUserAgent: bool)

  /** The whole of the bytes, read as a call. */
  function ReadCall(b: bytes): Option<Spelled> {
    match TakeField(b)
    case None => None
    case Some((verb, b1)) =>
      match TakeField(b1)
      case None => None
      case Some((origin, b2)) =>
        match TakeField(b2)
        case None => None
        case Some((path, b3)) =>
          match TakeOptional(b3)
          case None => None
          case Some((query, b4)) => ReadRest(verb, origin, path, query, b4)
  }

  function ReadRest(verb: bytes, origin: bytes, path: bytes, query: Option<bytes>, b: bytes): Option<Spelled> {
    match TakeNumber(b)
    case None => None
    case Some((n, b1)) =>
      match TakeHeaders(b1, n)
      case None => None
      case Some((headers, b2)) =>
        match TakeOptional(b2)
        case None => None
        case Some((body, b3)) =>
          match LastFlag(b3)
          case None => None
          case Some(flag) => Some(Spelled(verb, origin, path, query, headers, body, flag))
  }

  function LastFlag(b: bytes): Option<bool> {
    if b == [0] then Some(false) else if b == [1] then Some(true) else None
  }

  lemma NumberTaken(n: nat, rest: bytes)
    requires n < CallBinding.TWO_64
    ensures TakeNumber(CallBinding.BigEndian(n, 8) + rest) == Some((n, rest))
  {
    CallBinding.EightBytes();
    BigEndianNumber(n, 8);
    var b := CallBinding.BigEndian(n, 8) + rest;
    assert b[..8] == CallBinding.BigEndian(n, 8) && b[8..] == rest;
  }

  lemma FieldTaken(field: bytes, rest: bytes)
    requires CallBinding.Fits(field)
    ensures TakeField(CallBinding.Field(field) + rest) == Some((field, rest))
  {
    NumberTaken(|field|, field + rest);
    Assoc(CallBinding.BigEndian(|field|, 8), field, rest);
    assert (field + rest)[..|field|] == field && (field + rest)[|field|..] == rest;
  }

  lemma OptionalTaken(field: Option<bytes>, rest: bytes)
    requires field.Some? ==> CallBinding.Fits(field.value)
    ensures TakeOptional(CallBinding.Optional(field) + rest) == Some((field, rest))
  {
    CallBinding.OptionalSpelled(field, rest);
    if field.Some? {
      FieldTaken(field.value, rest);
      assert ([1 as byte] + (CallBinding.Field(field.value) + rest))[1..] == CallBinding.Field(field.value) + rest;
    } else {
      assert ([0 as byte] + rest)[1..] == rest;
    }
  }

  lemma {:induction false} HeadersTaken(hs: seq<(bytes, bytes)>, rest: bytes)
    requires forall h :: h in hs ==> CallBinding.Fits(h.0) && CallBinding.Fits(h.1)
    ensures TakeHeaders(CallBinding.Headers(hs) + rest, |hs|) == Some((hs, rest))
  {
    if hs == [] {
      assert CallBinding.Headers(hs) + rest == rest;
    } else {
      var more := CallBinding.Headers(hs[1..]) + rest;
      HeadersTaken(hs[1..], rest);
      CallBinding.Assoc3(CallBinding.Field(hs[0].0), CallBinding.Field(hs[0].1), CallBinding.Headers(hs[1..]), rest);
      FieldTaken(hs[0].0, CallBinding.Field(hs[0].1) + more);
      FieldTaken(hs[0].1, more);
      assert [(hs[0].0, hs[0].1)] + hs[1..] == hs;
    }
  }

  /** The spelling of a call from its headers on. */
  function Rest(c: CallBinding.Call): bytes {
    CallBinding.BigEndian(|c.headers|, 8) + (CallBinding.Headers(c.headers) + (CallBinding.Optional(c.body)
      + [if c.suppressUserAgent then 1 else 0]))
  }

  lemma RestReadsBack(c: CallBinding.Call, verb: bytes, origin: bytes, path: bytes, query: Option<bytes>)
    requires CallBinding.ValidCall(c)
    ensures ReadRest(verb, origin, path, query, Rest(c))
         == Some(Spelled(verb, origin, path, query, c.headers, c.body, c.suppressUserAgent))
  {
    var b3: bytes := [if c.suppressUserAgent then 1 else 0];
    var b2 := CallBinding.Optional(c.body) + b3;
    NumberTaken(|c.headers|, CallBinding.Headers(c.headers) + b2);
    HeadersTaken(c.headers, b2);
    OptionalTaken(c.body, b3);
    assert TakeNumber(Rest(c)) == Some((|c.headers|, CallBinding.Headers(c.headers) + b2));
    assert LastFlag(b3) == Some(c.suppressUserAgent);
  }

  /** What the hasher is fed reads back as the call. */
  lemma CallReadsBack(c: CallBinding.Call)
    requires CallBinding.ValidCall(c)
    ensures ReadCall(CallBinding.Preimage(c))
         == Some(Spelled(c.verb, CallBinding.OriginBytes(c.origin), c.path, c.query, c.headers, c.body, c.suppressUserAgent))
  {
    var origin := CallBinding.OriginBytes(c.origin);
    var q := CallBinding.Optional(c.query) + Rest(c);
    var p := CallBinding.Field(c.path) + q;
    assert CallBinding.Preimage(c) == CallBinding.Field(c.verb) + (CallBinding.Field(origin) + p);
    FieldTaken(c.verb, CallBinding.Field(origin) + p);
    FieldTaken(origin, p);
    FieldTaken(c.path, q);
    OptionalTaken(c.query, Rest(c));
    RestReadsBack(c, c.verb, origin, c.path, c.query);
  }

  /** The origin of a call is spelled as its text, character by character. */
  lemma OriginSpelled(o: CallBinding.Origin, k: nat)
    requires CallBinding.ValidOrigin(o)
    ensures var text := "https://" + o.host + (if o.port.Some? then ":" + Envelope.NatText(o.port.value) else "");
            && |CallBinding.OriginBytes(o)| == |text|
            && (k < |text| ==> CallBinding.OriginBytes(o)[k] as int == text[k] as int)
  {
    CallBinding.DisplayIsAscii(o);
  }

  /** The key sent is the caller's, a dash, and the first sixteen bytes of the digest. */
  lemma BoundKeySpelled(userKey: string, digest: bytes, i: nat)
    requires |digest| == 32 && i < 16
    ensures var (key, n) := (CallBinding.BoundKey(userKey, digest), |userKey|);
            && |key| == n + 33 && key[..n] == userKey && key[n] == '-'
            && key[n + 1 + 2 * i] == "0123456789abcdef"[digest[i] as int / 16]
            && key[n + 2 + 2 * i] == "0123456789abcdef"[digest[i] as int % 16]
  {
    HexTextAt(digest, i);
  }

  // ---------- the order of names ----------

  /** `a` and `b` agree before `k`, where `a` has the smaller character. */
  predicate DiffersAt(a: string, b: string, k: nat) {
    k < |a| && k < |b| && a[..k] == b[..k] && a[k] < b[k]
  }

  lemma DiffersShift(a: string, b: string, k: nat)
    requires a != "" && b != "" && a[0] == b[0]
    ensures DiffersAt(a, b, k + 1) <==> DiffersAt(a[1..], b[1..], k)
  {
    if k < |a| - 1 && k < |b| - 1 {
      assert a[..k + 1] == [a[0]] + a[1..][..k] && b[..k + 1] == [b[0]] + b[1..][..k];
      assert a[1..][..k] == a[..k + 1][1..] && b[1..][..k] == b[..k + 1][1..];
    }
  }

  lemma DiffersAtOnce(a: string, b: string, k: nat)
    requires a != "" && b != "" && a[0] != b[0]
    ensures DiffersAt(a, b, k) <==> k == 0 && a[0] < b[0]
  {
    if k == 0 {
      assert a[..0] == b[..0];
    } else if k < |a| && k < |b| {
      assert a[..k][0] == a[0] && b[..k][0] == b[0];
    }
  }

  lemma PrefixShift(a: string, b: string)
    requires a != "" && b != ""
    ensures a <= b <==> a[0] == b[0] && a[1..] <= b[1..]
  {
    assert a == [a[0]] + a[1..] && b == [b[0]] + b[1..];
  }

  /** One name is not after another exactly when it is a start of it, or has the smaller character where they
      first differ. */
  lemma {:induction false} LeqExactly(a: string, b: string)
    ensures Leq(a, b) <==> a <= b || exists k: nat :: DiffersAt(a, b, k)
  {
    if a != "" && b != "" {
      PrefixShift(a, b);
      if a[0] != b[0] {
        DiffersAtOnce(a, b, 0);
        if k: nat :| DiffersAt(a, b, k) {
          DiffersAtOnce(a, b, k);
        }
      } else {
        LeqExactly(a[1..], b[1..]);
        forall k: nat ensures DiffersAt(a, b, k + 1) <==> DiffersAt(a[1..], b[1..], k) {
          DiffersShift(a, b, k);
        }
        if k: nat :| DiffersAt(a, b, k) {
          assert k > 0 && DiffersAt(a[1..], b[1..], k - 1);
        }
        if k: nat :| DiffersAt(a[1..], b[1..], k) {
          assert DiffersAt(a, b, k + 1);
        }
      }
    }
  }

  // ---------- header values ----------

  /** `gaps[0] ws[0] gaps[1] ws[1] ...`, ending with a gap. */
  function Interleaved(gaps: seq<string>, ws: seq<string>): string
    requires |gaps| == |ws| + 1
  {
    if ws == [] then gaps[0] else gaps[0] + (ws[0] + Interleaved(gaps[1..], ws[1..]))
  }

  ghost predicate Gap(g: string) {
    forall i :: 0 <= i < |g| ==> IsSpace(g[i])
  }

  ghost predicate Solid(w: string) {
    w != "" && forall i :: 0 <= i < |w| ==> !IsSpace(w[i])
  }

  /** `v` is these words with white space between them, and perhaps around them. */
  ghost predicate Spaced(v: string, gaps: seq<string>, ws: seq<string>) {
    && |gaps| == |ws| + 1 && v == Interleaved(gaps, ws)
    && (forall i :: 0 <= i < |ws| ==> Solid(ws[i])) && (forall i :: 0 <= i < |gaps| ==> Gap(gaps[i]))
    && (forall i :: 0 < i < |ws| ==> gaps[i] != "")
  }

  lemma {:induction false} GapsAreSkipped(g: string, v: string)
    requires Gap(g)
    ensures WordsFrom("", g + v) == WordsFrom("", v)
  {
    if g == "" {
      assert g + v == v;
    } else {
      assert (g + v)[1..] == g[1..] + v;
      GapsAreSkipped(g[1..], v);
    }
  }

  lemma WordIsTaken(w: string, v: string)
    requires Solid(w) && (v == "" || IsSpace(v[0]))
    ensures WordsFrom("", w + v) == [w] + WordsFrom("", v)
  {
    WordsThrough("", w, v);
    assert "" + w == w;
  }

  /** The words of a value are what stands between its white space. */
  lemma {:induction false} WordsOfSpaced(v: string, gaps: seq<string>, ws: seq<string>)
    requires Spaced(v, gaps, ws)
    ensures Words(v) == ws
    decreases |ws|
  {
    if ws == [] {
      assert gaps[0] + "" == gaps[0];
      GapsAreSkipped(gaps[0], "");
    } else {
      var rest := Interleaved(gaps[1..], ws[1..]);
      GapsAreSkipped(gaps[0], ws[0] + rest);
      GapFollows(gaps, ws);
      WordIsTaken(ws[0], rest);
      WordsOfSpaced(rest, gaps[1..], ws[1..]);
      assert [ws[0]] + ws[1..] == ws;
    }
  }

  lemma GapFollows(gaps: seq<string>, ws: seq<string>)
    requires ws != [] && |gaps| == |ws| + 1 && Spaced(Interleaved(gaps, ws), gaps, ws)
    ensures Spaced(Interleaved(gaps[1..], ws[1..]), gaps[1..], ws[1..])
    ensures var rest := Interleaved(gaps[1..], ws[1..]); rest == "" || IsSpace(rest[0])
  {
    assert gaps[1..][0] == gaps[1];
    if |ws| > 1 {
      assert gaps[1] != "" && IsSpace(gaps[1][0]);
    }
  }

  /** `separator` between, nothing around. */
  function Between(separator: string, n: nat): (gaps: seq<string>) {
    seq(n + 1, i => if 0 < i < n then separator else "")
  }

  lemma Shift(a: string, b: string, c: string, d: string)
    ensures a + (b + (c + d)) == (a + (b + c)) + d
  {
  }

  lemma {:induction false} InterleavedSnoc(gaps: seq<string>, ws: seq<string>, gap: string, w: string)
    requires |gaps| == |ws| + 1
    ensures Interleaved(gaps + [gap], ws + [w]) == Interleaved(gaps, ws) + (w + gap)
  {
    if ws == [] {
      assert ws + [w] == [w] && (gaps + [gap])[1..] == [gap] && [w][1..] == [];
      assert Interleaved([gap], []) == gap;
    } else {
      InterleavedSnoc(gaps[1..], ws[1..], gap, w);
      assert (gaps + [gap])[1..] == gaps[1..] + [gap] && (ws + [w])[1..] == ws[1..] + [w];
      Shift(gaps[0], ws[0], Interleaved(gaps[1..], ws[1..]), w + gap);
    }
  }

  lemma {:induction false} LastGap(init: seq<string>, ws: seq<string>, gap: string)
    requires |init| == |ws|
    ensures Interleaved(init + [gap], ws) == Interleaved(init + [""], ws) + gap
  {
    if ws == [] {
      assert init + [gap] == [gap] && init + [""] == [""];
    } else {
      LastGap(init[1..], ws[1..], gap);
      assert (init + [gap])[1..] == init[1..] + [gap] && (init + [""])[1..] == init[1..] + [""];
      Shift(init[0], ws[0], Interleaved(init[1..] + [""], ws[1..]), gap);
    }
  }

  /** Joining puts the separator between the texts. */
  lemma {:induction false} JoinSpelled(separator: string, texts: seq<string>)
    ensures Join(separator, texts) == Interleaved(Between(separator, |texts|), texts)
  {
    var n := |texts|;
    if n == 0 {
    } else if n == 1 {
      assert Between(separator, 1) == ["", ""] && ["", ""][1..] == [""] && texts[1..] == [];
    } else {
      var (front, last) := (texts[..n - 1], texts[n - 1]);
      var init := Between(separator, n - 1)[..n - 1];
      JoinSpelled(separator, front);
      assert Between(separator, n - 1) == init + [""];
      LastGap(init, front, separator);
      InterleavedSnoc(init + [separator], front, "", last);
      assert init + [separator] + [""] == Between(separator, n);
      assert front + [last] == texts && last + "" == last;
    }
  }

  /** A collapsed value is the words of the value, one blank apart. */
  lemma CollapsedSpelled(v: string, gaps: seq<string>, ws: seq<string>)
    requires Spaced(v, gaps, ws)
    ensures CanonicalValue(v) == Interleaved(Between(" ", |ws|), ws)
  {
    WordsOfSpaced(v, gaps, ws);
    JoinSpelled(" ", ws);
  }

  lemma BlankBefore(c: char, v: string, gaps: seq<string>, ws: seq<string>)
    requires IsSpace(c) && Spaced(v, gaps, ws)
    ensures Spaced([c] + v, gaps[0 := [c] + gaps[0]], ws)
  {
    assert gaps[0 := [c] + gaps[0]][1..] == gaps[1..];
    if ws != [] {
      Assoc([c], gaps[0], ws[0] + Interleaved(gaps[1..], ws[1..]));
    }
  }

  lemma LetterBefore(c: char, v: string, gaps: seq<string>, ws: seq<string>)
    requires !IsSpace(c) && Spaced(v, gaps, ws) && ws != [] && gaps[0] == ""
    ensures Spaced([c] + v, gaps, ws[0 := [c] + ws[0]])
  {
    var rest := Interleaved(gaps[1..], ws[1..]);
    assert ws[0 := [c] + ws[0]][1..] == ws[1..];
    assert "" + (ws[0] + rest) == ws[0] + rest;
    Assoc([c], ws[0], rest);
    assert "" + (([c] + ws[0]) + rest) == ([c] + ws[0]) + rest;
  }

  lemma WordBefore(c: char, v: string, gaps: seq<string>, ws: seq<string>)
    requires !IsSpace(c) && Spaced(v, gaps, ws) && (ws == [] || gaps[0] != "")
    ensures Spaced([c] + v, [""] + gaps, [[c]] + ws)
  {
    assert ([""] + gaps)[1..] == gaps && ([[c]] + ws)[1..] == ws;
    assert "" + ([c] + v) == [c] + v;
  }

  /** Every value is such words and white space. */
  lemma {:induction false} EveryValueIsSpaced(v: string) returns (gaps: seq<string>, ws: seq<string>)
    ensures Spaced(v, gaps, ws)
  {
    if v == "" {
      gaps, ws := [""], [];
    } else {
      var (c, rest) := (v[0], v[1..]);
      var g, w := EveryValueIsSpaced(rest);
      assert v == [c] + rest;
      if IsSpace(c) {
        BlankBefore(c, rest, g, w);
        gaps, ws := g[0 := [c] + g[0]], w;
      } else if w != [] && g[0] == "" {
        LetterBefore(c, rest, g, w);
        gaps, ws := g, w[0 := [c] + w[0]];
      } else {
        WordBefore(c, rest, g, w);
        gaps, ws := [""] + g, [[c]] + w;
      }
    }
  }

  /** The headers given, lowered and collapsed. */
  function Given(extra: seq<Header>): seq<Header> {
    seq(|extra|, i requires 0 <= i < |extra| => (Lowered(extra[i].0), CanonicalValue(extra[i].1)))
  }

  /** What the signer adds under a name of its own. */
  function Own(name: string, host: string, contentSha256: string, amzDate: string): seq<string> {
    if name == "host" then [host]
    else if name == "x-amz-content-sha256" then [contentSha256]
    else if name == "x-amz-date" then [amzDate]
    else []
  }

  /** A signed line holds the values given under its name, in order, then the signer's own, with commas between. */
  lemma LinesSigned(extra: seq<Header>, host: string, contentSha256: string, amzDate: string, folded: seq<Header>, i: nat)
    requires Folds(folded, Prepared(extra, host, contentSha256, amzDate)) && i < |folded|
    ensures var name := folded[i].0;
            var values := ValuesOf(name, Given(extra)) + Own(name, host, contentSha256, amzDate);
            folded[i].1 == Interleaved(Between(",", |values|), values)
  {
    var (name, given) := (folded[i].0, Given(extra));
    var one := given + [("host", host)];
    var two := one + [("x-amz-content-sha256", contentSha256)];
    ValuesSnoc(name, given, ("host", host));
    ValuesSnoc(name, one, ("x-amz-content-sha256", contentSha256));
    ValuesSnoc(name, two, ("x-amz-date", amzDate));
    assert Prepared(extra, host, contentSha256, amzDate) == two + [("x-amz-date", amzDate)];
    var values := ValuesOf(name, given) + Own(name, host, contentSha256, amzDate);
    assert ValuesOf(name, Prepared(extra, host, contentSha256, amzDate)) == values;
    JoinSpelled(",", values);
  }
}
