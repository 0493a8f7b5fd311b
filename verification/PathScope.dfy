/**
  What a canonical path means to the servers behind the proxy, and what an
  approved prefix covers.
 */
module PathScope {
  import opened Wrappers
  import opened CanonicalPath

  // ---------- segments of a rooted path ----------

  /** A path that is empty or starts with `/`. */
  predicate Rooted(q: bytes) {
    q == [] || q[0] == SLASH
  }

  /** The length of the first segment of a nonempty rooted path. */
  function FirstLen(q: bytes): (k: nat)
    requires q != [] && q[0] == SLASH
    ensures 1 + k <= |q| && Rooted(q[1 + k..])
  {
    Find(q[1..], SLASH)
  }

  function Segments(q: bytes): (segs: seq<bytes>)
    requires Rooted(q)
    decreases |q|
  {
    if q == [] then [] else [q[1..1 + FirstLen(q)]] + Segments(q[1 + FirstLen(q)..])
  }

  /** What splitting at `/` gives after a leading `/`. */
  lemma {:induction false} SplitRest(q: bytes)
    requires q != [] && q[0] == SLASH
    ensures Split(q[1..]) == Segments(q)
    decreases |q|
  {
    var k := FirstLen(q);
    var s := q[1..];
    assert s[..k] == q[1..1 + k];
    if k < |s| {
      var rest := q[1 + k..];
      assert s[k + 1..] == rest[1..];
      SplitRest(rest);
    } else {
      assert q[1 + k..] == [] && s == s[..k];
    }
  }

  lemma SplitIsSegments(q: bytes)
    requires q != [] && q[0] == SLASH
    ensures Split(q) == [[]] + Segments(q)
  {
    SplitRest(q);
    assert q[..0] == [];
  }

  // ---------- dot-segment removal, section 5.2.4 of RFC 3986 ----------

  predicate StartsWith(s: bytes, prefix: bytes) {
    |prefix| <= |s| && s[..|prefix|] == prefix
  }

  /** The output without its last segment and the `/` before it. */
  function RemoveLast(output: bytes): bytes {
    if output == [] then []
    else if output[|output| - 1] == SLASH then output[..|output| - 1]
    else RemoveLast(output[..|output| - 1])
  }

  /** Step E: the first segment with its initial `/`, up to the next one. */
  function FirstSegment(input: bytes): (k: nat)
    requires input != []
    ensures 0 < k <= |input|
  {
    1 + Find(input[1..], SLASH)
  }

  function RemoveDotSegments(input: bytes, output: bytes): bytes
    decreases |input|
  {
    if input == [] then
      output
    else if StartsWith(input, [DOT, DOT, SLASH]) then
      RemoveDotSegments(input[3..], output)
    else if StartsWith(input, [DOT, SLASH]) then
      RemoveDotSegments(input[2..], output)
    else if StartsWith(input, [SLASH, DOT, SLASH]) then
      RemoveDotSegments([SLASH] + input[3..], output)
    else if input == [SLASH, DOT] then
      RemoveDotSegments([SLASH], output)
    else if StartsWith(input, [SLASH, DOT, DOT, SLASH]) then
      RemoveDotSegments([SLASH] + input[4..], RemoveLast(output))
    else if input == [SLASH, DOT, DOT] then
      RemoveDotSegments([SLASH], RemoveLast(output))
    else if IsDots(input) then
      output
    else
      RemoveDotSegments(input[FirstSegment(input)..], output + input[..FirstSegment(input)])
  }

  predicate NoDots(segs: seq<bytes>) {
    forall seg :: seg in segs ==> !IsDots(seg)
  }

  /** The removal steps are for first segments that are `.` or `..`. */
  lemma DotStepsNeedDots(q: bytes)
    requires q != [] && q[0] == SLASH
    ensures StartsWith(q, [SLASH, DOT, SLASH]) || q == [SLASH, DOT] ==> IsDots(q[1..1 + FirstLen(q)])
    ensures StartsWith(q, [SLASH, DOT, DOT, SLASH]) || q == [SLASH, DOT, DOT] ==> IsDots(q[1..1 + FirstLen(q)])
  {
    var s := q[1..];
    if StartsWith(q, [SLASH, DOT, SLASH]) || q == [SLASH, DOT] {
      assert q[1] == DOT && (|q| > 2 ==> q[..3][2] == SLASH);
      FindIs(s, SLASH, 1);
    }
    if StartsWith(q, [SLASH, DOT, DOT, SLASH]) || q == [SLASH, DOT, DOT] {
      assert q[1] == DOT && q[2] == DOT && (|q| > 3 ==> q[..4][3] == SLASH);
      FindIs(s, SLASH, 2);
    }
  }

  /** So a first segment that is neither is moved to the output. */
  lemma MoveFirst(q: bytes, output: bytes)
    requires q != [] && q[0] == SLASH && !IsDots(q[1..1 + FirstLen(q)])
    ensures RemoveDotSegments(q, output) == RemoveDotSegments(q[1 + FirstLen(q)..], output + q[..1 + FirstLen(q)])
  {
    DotStepsNeedDots(q);
  }

  /** A path none of whose segments is `.` or `..` passes through unchanged. */
  lemma {:induction false} NoDotsUnchanged(q: bytes, output: bytes)
    requires Rooted(q) && NoDots(Segments(q))
    ensures RemoveDotSegments(q, output) == output + q
    decreases |q|
  {
    if q == [] {
      assert output + q == output;
    } else {
      var k := 1 + FirstLen(q);
      var rest := q[k..];
      assert Segments(q) == [q[1..k]] + Segments(rest);
      assert q[1..k] in Segments(q);
      MoveFirst(q, output);
      NoDotsUnchanged(rest, output + q[..k]);
      Rejoin(output, q, k);
    }
  }

  lemma Rejoin(output: bytes, q: bytes, k: nat)
    requires k <= |q|
    ensures (output + q[..k]) + q[k..] == output + q
  {
  }

  /** Every segment cut at its first `;`, as servers that take path parameters off do before they normalize. */
  function CutParams(q: bytes): (r: bytes)
    requires Rooted(q)
    ensures Rooted(r)
    decreases |q|
  {
    if q == [] then [] else [SLASH] + Base(q[1..1 + FirstLen(q)]) + CutParams(q[1 + FirstLen(q)..])
  }

  /** A segment put before a rooted path is its first segment. */
  lemma ConsSegments(seg: bytes, rest: bytes)
    requires SLASH !in seg && Rooted(rest)
    ensures Segments([SLASH] + seg + rest) == [seg] + Segments(rest)
  {
    var q := [SLASH] + seg + rest;
    var k := |seg|;
    assert q[1..] == seg + rest;
    FindIs(q[1..], SLASH, k);
    assert q[1..1 + k] == seg && q[1 + k..] == rest;
  }

  lemma CutOnce(q: bytes)
    requires Rooted(q) && q != []
    ensures Segments(CutParams(q)) == [Base(q[1..1 + FirstLen(q)])] + Segments(CutParams(q[1 + FirstLen(q)..]))
  {
    ConsSegments(Base(q[1..1 + FirstLen(q)]), CutParams(q[1 + FirstLen(q)..]));
  }

  /** The segments of a cut path are the bases of the segments of the path. */
  lemma {:induction false} CutSegments(q: bytes)
    requires Rooted(q)
    ensures |Segments(CutParams(q))| == |Segments(q)|
    ensures forall i :: 0 <= i < |Segments(q)| ==> Segments(CutParams(q))[i] == Base(Segments(q)[i])
    decreases |q|
  {
    if q != [] {
      CutOnce(q);
      CutSegments(q[1 + FirstLen(q)..]);
      var all, rest := Segments(q), Segments(q[1 + FirstLen(q)..]);
      assert all == [q[1..1 + FirstLen(q)]] + rest;
    }
  }

  lemma DotsAreTheirBase(seg: bytes)
    ensures IsDots(seg) ==> IsDots(Base(seg))
  {
    if IsDots(seg) {
      FindIs(seg, SEMICOLON, |seg|);
    }
  }

  /** No server behind the proxy finds a dot segment to resolve, neither in the path as it stands nor after
      taking path parameters off. */
  lemma CanonicalPathsHaveNoDots(raw: bytes)
    requires Canonicalize(raw).Ok?
    ensures var p := Canonicalize(raw).value;
            Rooted(p) && RemoveDotSegments(p, []) == p && RemoveDotSegments(CutParams(p), []) == CutParams(p)
  {
    var p := Canonicalize(raw).value;
    AcceptedIsCanonical(raw);
    SplitIsSegments(p);
    forall seg | seg in Segments(p) ensures !IsDots(Base(seg)) && !IsDots(seg) {
      assert seg in Split(p);
      DotsAreTheirBase(seg);
    }
    NoDotsUnchanged(p, []);
    CutSegments(p);
    NoDotsUnchanged(CutParams(p), []);
    assert [] + p == p && [] + CutParams(p) == CutParams(p);
  }

  // ---------- prefixes ----------

  function TrimSlashes(s: bytes): (t: bytes)
    ensures t <= s && (t == [] || t[|t| - 1] != SLASH)
    ensures forall i :: |t| <= i < |s| ==> s[i] == SLASH
  {
    if s != [] && s[|s| - 1] == SLASH then TrimSlashes(s[..|s| - 1]) else s
  }

  predicate PrefixMatches(prefix: bytes, path: bytes) {
    prefix == [SLASH]
    || (var p := TrimSlashes(prefix);
        p != [] && (path == p || (|path| > |p| && path[|p|] == SLASH && StartsWith(path, p))))
  }

  /** The segments of a path, a trailing slash aside; `/` has none. */
  function Parts(p: bytes): seq<bytes>
    requires Rooted(p)
  {
    Segments(TrimSlashes(p))
  }

  /** `a` ends at a segment boundary of `b`. */
  predicate Covers(a: bytes, b: bytes) {
    StartsWith(b, a) && (|a| == |b| || b[|a|] == SLASH)
  }

  lemma {:induction false} CoversIsSegmentPrefix(a: bytes, b: bytes)
    requires Rooted(a) && Rooted(b)
    ensures Covers(a, b) <==> Segments(a) <= Segments(b)
    decreases |a|
  {
    if a != [] && b != [] {
      var j, k := FirstLen(a), FirstLen(b);
      CoversIsSegmentPrefix(a[1 + j..], b[1 + k..]);
      FirstSegmentsAgree(a, b);
      assert Segments(a)[0] == a[1..1 + j] && Segments(b)[0] == b[1..1 + k];
      assert Segments(a)[1..] == Segments(a[1 + j..]) && Segments(b)[1..] == Segments(b[1 + k..]);
      if Segments(a) <= Segments(b) {
        assert Segments(a)[0] == Segments(b)[0];
        assert Segments(a)[1..] <= Segments(b)[1..];
      }
      if a[1..1 + j] == b[1..1 + k] && Segments(a)[1..] <= Segments(b)[1..] {
        assert Segments(a) == [Segments(a)[0]] + Segments(a)[1..];
        assert Segments(b) == [Segments(b)[0]] + Segments(b)[1..];
      }
    }
  }

  lemma CoversPeeled(a: bytes, b: bytes)
    requires a != [] && b != [] && a[0] == SLASH && b[0] == SLASH && Covers(a, b)
    ensures a[1..1 + FirstLen(a)] == b[1..1 + FirstLen(b)] && Covers(a[1 + FirstLen(a)..], b[1 + FirstLen(b)..])
  {
    var j := FirstLen(a);
    assert forall i :: 0 <= i < |a| ==> a[i] == b[i] by {
      assert forall i :: 0 <= i < |a| ==> b[..|a|][i] == b[i];
    }
    FindIs(b[1..], SLASH, j);
    assert a[1..1 + j] == b[1..1 + j];
    assert b[1 + j..][..|a| - 1 - j] == a[1 + j..];
  }

  lemma CoversJoined(a: bytes, b: bytes, k: nat)
    requires a != [] && b != [] && a[0] == SLASH && b[0] == SLASH && k < |a| && k < |b|
    requires a[1..1 + k] == b[1..1 + k] && Covers(a[1 + k..], b[1 + k..])
    ensures Covers(a, b)
  {
    assert a == [SLASH] + a[1..1 + k] + a[1 + k..];
    assert b[..|a|] == [SLASH] + b[1..1 + k] + b[1 + k..][..|a| - 1 - k];
    assert |b| > |a| ==> b[|a|] == b[1 + k..][|a| - 1 - k];
  }

  /** Covering, peeled by one segment. */
  lemma FirstSegmentsAgree(a: bytes, b: bytes)
    requires a != [] && b != [] && a[0] == SLASH && b[0] == SLASH
    ensures Covers(a, b) <==>
              a[1..1 + FirstLen(a)] == b[1..1 + FirstLen(b)] && Covers(a[1 + FirstLen(a)..], b[1 + FirstLen(b)..])
  {
    if Covers(a, b) {
      CoversPeeled(a, b);
    } else if a[1..1 + FirstLen(a)] == b[1..1 + FirstLen(b)] && Covers(a[1 + FirstLen(a)..], b[1 + FirstLen(b)..]) {
      assert FirstLen(a) == |a[1..1 + FirstLen(a)]| == |b[1..1 + FirstLen(b)]| == FirstLen(b);
      CoversJoined(a, b, FirstLen(a));
    }
  }

  /** A canonical path ends in at most one slash. */
  lemma OneTrailingSlash(p: bytes)
    requires Canonical(p)
    ensures |p| <= |TrimSlashes(p)| + 1
  {
    var t := TrimSlashes(p);
    if |p| > |t| + 1 {
      assert p[|t|] == SLASH && p[|t| + 1] == SLASH;
      assert HasDuplicateSlash(p);
    }
  }

  /** A trailing slash on the path changes nothing. */
  lemma TrailingSlash(a: bytes, b: bytes, path: bytes)
    requires a != [] && a[|a| - 1] != SLASH && path == b + [SLASH]
    ensures Covers(a, path) <==> Covers(a, b)
  {
    if |a| <= |b| {
      assert path[..|a|] == b[..|a|];
    } else if |a| == |path| {
      assert path[..|a|] == path && path[|a| - 1] == SLASH;
    }
  }

  lemma MatchIsCover(prefix: bytes, path: bytes)
    requires TrimSlashes(prefix) != []
    ensures PrefixMatches(prefix, path) <==> Covers(TrimSlashes(prefix), path)
  {
    var a := TrimSlashes(prefix);
    assert path[..|path|] == path;
    assert prefix == [SLASH] ==> a == [];
  }

  /** On canonical paths, matching a prefix is matching its segments. */
  lemma PrefixIsSegmentPrefix(prefix: bytes, path: bytes)
    requires Canonical(prefix) && Canonical(path)
    ensures PrefixMatches(prefix, path) <==> Parts(prefix) <= Parts(path)
  {
    var a, b := TrimSlashes(prefix), TrimSlashes(path);
    OneTrailingSlash(prefix);
    OneTrailingSlash(path);
    CoversIsSegmentPrefix(a, b);
    if a == [] {
      assert prefix == [SLASH];
    } else {
      MatchIsCover(prefix, path);
      if path != b {
        assert path == b + [SLASH];
        TrailingSlash(a, b, path);
      }
    }
  }

  /** A prefix of a prefix covers what the prefix covers. */
  lemma PrefixTransitive(a: bytes, b: bytes, c: bytes)
    requires Canonical(a) && Canonical(b) && Canonical(c)
    requires PrefixMatches(a, b) && PrefixMatches(b, c)
    ensures PrefixMatches(a, c)
  {
    PrefixIsSegmentPrefix(a, b);
    PrefixIsSegmentPrefix(b, c);
    PrefixIsSegmentPrefix(a, c);
  }
}
