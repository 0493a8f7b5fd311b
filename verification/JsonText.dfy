/**
  What canonical text is, by the grammar of RFC 8259 without white space: the
  text of a value, whichever escapes it uses, and what the payload under the
  idempotency MAC says.
 */
module JsonText {
  import opened Wrappers
  import opened Sorting
  import opened CanonicalJson
  import Spellings

  // ---------- string literals ----------

  const SHORT_ESCAPES := "\"\\/bfnrt"
  const SHORT_MEANINGS: seq<int> := [0x22, 0x5C, 0x2F, 0x08, 0x0C, 0x0A, 0x0D, 0x09]

  predicate HexDigit(d: char, n: int)
    requires 0 <= n < 16
  {
    d == "0123456789abcdef"[n] || d == "0123456789ABCDEF"[n]
  }

  predicate ShortEscape(p: string, c: char) {
    |p| == 2 && p[0] == '\\' && exists k :: 0 <= k < 8 && p[1] == SHORT_ESCAPES[k] && c as int == SHORT_MEANINGS[k]
  }

  predicate LongEscape(p: string, c: char) {
    var n := c as int;
    && n < 0x1_0000 && |p| == 6 && p[0] == '\\' && p[1] == 'u'
    && HexDigit(p[2], n / 0x1000) && HexDigit(p[3], n / 0x100 % 16) && HexDigit(p[4], n / 16 % 16) && HexDigit(p[5], n % 16)
  }

  /** One way of writing `c` in a string, by section 7 of RFC 8259. */
  predicate Writes(p: string, c: char) {
    (p == [c] && c as int >= 0x20 && c != '\"' && c != '\\') || ShortEscape(p, c) || LongEscape(p, c)
  }

  lemma EscapeCharWrites(c: char)
    ensures Writes(EscapeChar(c), c)
  {
    var n := c as int;
    var k := if n == 0x22 then 0 else if n == 0x5C then 1 else if n == 8 then 3 else if n == 12 then 4
             else if n == 10 then 5 else if n == 13 then 6 else 7;
    if n in {0x22, 0x5C, 8, 12, 10, 13, 9} {
      assert EscapeChar(c) == ['\\', SHORT_ESCAPES[k]] && SHORT_MEANINGS[k] == n;
    } else if n < 32 {
      assert n / 0x1000 == 0 && n / 0x100 % 16 == 0 && n / 16 % 16 == n / 16;
    }
  }

  /** It is the shortest there is, and its digits are lower case. */
  lemma EscapesAreShortest(c: char, p: string)
    requires Writes(p, c)
    ensures |EscapeChar(c)| <= |p|
    ensures |EscapeChar(c)| == 6 ==>
              c as int < 32 && EscapeChar(c)[5] == "0123456789abcdef"[c as int % 16] && c as int / 16 < 2
  {
    if p != [c] && ShortEscape(p, c) {
      var k :| 0 <= k < 8 && p[1] == SHORT_ESCAPES[k] && c as int == SHORT_MEANINGS[k];
    }
  }

  function Joined(pieces: seq<string>): string {
    if pieces == [] then "" else pieces[0] + Joined(pieces[1..])
  }

  predicate Pieces(pieces: seq<string>, s: string) {
    |pieces| == |s| && forall i :: 0 <= i < |s| ==> Writes(pieces[i], s[i])
  }

  ghost predicate Literal(t: string, s: string) {
    exists pieces :: Pieces(pieces, s) && t == "\"" + (Joined(pieces) + "\"")
  }

  lemma {:induction false} TailPieces(s: string) returns (pieces: seq<string>)
    ensures Pieces(pieces, s) && TextTail(s, "") == Joined(pieces) + "\""
  {
    if s == "" {
      pieces := [];
    } else {
      var rest := TailPieces(s[1..]);
      EscapeCharWrites(s[0]);
      pieces := [EscapeChar(s[0])] + rest;
      assert pieces[1..] == rest;
      Assoc(EscapeChar(s[0]), Joined(rest), "\"");
    }
  }

  lemma TextIsLiteral(s: string)
    ensures Literal(Text(s, ""), s)
  {
    var pieces := TailPieces(s);
  }

  // ---------- values ----------

  /** The parts with commas between them. */
  function Commas(parts: seq<string>): string {
    if parts == [] then ""
    else if |parts| == 1 then parts[0]
    else parts[0] + ("," + Commas(parts[1..]))
  }

  /** `t` is the text of `v`, by the grammar of RFC 8259 without white space. */
  ghost predicate IsText(t: string, v: Json)
    decreases v, 2
  {
    match v
    case Null => t == "null"
    case Bool(b) => t == if b then "true" else "false"
    case Number(n) => t == n
    case Str(s) => Literal(t, s)
    case Arr(items) => exists parts :: IsArrayText(t, parts, items)
    case Obj(ms) => exists parts :: IsObjectText(t, parts, ms)
  }

  ghost predicate IsArrayText(t: string, parts: seq<string>, items: seq<Json>)
    decreases items, 3
  {
    |parts| == |items| && t == "[" + (Commas(parts) + "]") && forall i :: 0 <= i < |items| ==> IsText(parts[i], items[i])
  }

  ghost predicate IsObjectText(t: string, parts: seq<string>, ms: seq<(string, Json)>)
    decreases ms, 3
  {
    |parts| == |ms| && t == "{" + (Commas(parts) + "}") && forall i :: 0 <= i < |ms| ==> IsMemberText(parts[i], ms[i])
  }

  ghost predicate IsMemberText(t: string, m: (string, Json))
    decreases m, 2
  {
    exists key, value :: t == key + (":" + value) && Literal(key, m.0) && IsText(value, m.1)
  }

  // ---------- printing gives the text ----------

  function PartsOf(items: seq<Json>): (parts: seq<string>)
    ensures |parts| == |items| && forall i :: 0 <= i < |items| ==> parts[i] == Print(items[i], "")
  {
    seq(|items|, i requires 0 <= i < |items| => Print(items[i], ""))
  }

  function MemberPartsOf(ms: seq<(string, Json)>): (parts: seq<string>)
    ensures |parts| == |ms| && forall i :: 0 <= i < |ms| ==> parts[i] == PrintMember(ms[i], "")
  {
    seq(|ms|, i requires 0 <= i < |ms| => PrintMember(ms[i], ""))
  }

  lemma {:induction false} ItemsTailCommas(items: seq<Json>, i: nat)
    requires i < |items|
    ensures Print(items[i], ItemsTail(items, i + 1, "")) == Commas(PartsOf(items)[i..]) + "]"
    decreases |items| - i
  {
    var (parts, p) := (PartsOf(items), Print(items[i], ""));
    PrintAppend(items[i], ItemsTail(items, i + 1, ""));
    if i + 1 < |items| {
      ItemsTailCommas(items, i + 1);
      assert parts[i..][1..] == parts[i + 1..];
      Regroup(p, Commas(parts[i + 1..]), "]");
    }
  }

  lemma {:induction false} MembersTailCommas(ms: seq<(string, Json)>, i: nat)
    requires i < |ms|
    ensures PrintMember(ms[i], MembersTail(ms, i + 1, "")) == Commas(MemberPartsOf(ms)[i..]) + "}"
    decreases |ms| - i
  {
    var (parts, p) := (MemberPartsOf(ms), PrintMember(ms[i], ""));
    MemberAppend(ms[i], MembersTail(ms, i + 1, ""));
    if i + 1 < |ms| {
      MembersTailCommas(ms, i + 1);
      assert parts[i..][1..] == parts[i + 1..];
      Regroup(p, Commas(parts[i + 1..]), "}");
    }
  }

  lemma Regroup(p: string, q: string, end: string)
    ensures p + ("," + (q + end)) == (p + ("," + q)) + end
  {
  }

  lemma {:induction false} PrintIsText(v: Json)
    ensures IsText(Print(v, ""), v)
    decreases v, 2
  {
    match v
    case Str(s) => TextIsLiteral(s);
    case Arr(items) => ArrayIsText(items);
    case Obj(ms) => ObjectIsText(ms);
    case _ =>
  }

  lemma {:induction false} ArrayIsText(items: seq<Json>)
    ensures IsText(Print(Arr(items), ""), Arr(items))
    decreases items, 3
  {
    var parts := PartsOf(items);
    forall i | 0 <= i < |items| ensures IsText(parts[i], items[i]) {
      PrintIsText(items[i]);
    }
    if items != [] {
      ItemsTailCommas(items, 0);
      assert parts[0..] == parts;
    }
    assert IsArrayText(Print(Arr(items), ""), parts, items);
  }

  lemma {:induction false} ObjectIsText(ms: seq<(string, Json)>)
    ensures IsText(Print(Obj(ms), ""), Obj(ms))
    decreases ms, 3
  {
    var parts := MemberPartsOf(ms);
    forall i | 0 <= i < |ms| ensures IsMemberText(parts[i], ms[i]) {
      PrintIsText(ms[i].1);
      MemberIsText(ms[i]);
    }
    if ms != [] {
      MembersTailCommas(ms, 0);
      assert parts[0..] == parts;
    }
    assert IsObjectText(Print(Obj(ms), ""), parts, ms);
  }

  lemma MemberIsText(m: (string, Json))
    requires IsText(Print(m.1, ""), m.1)
    ensures IsMemberText(PrintMember(m, ""), m)
  {
    var value := ":" + Print(m.1, "");
    TextIsLiteral(m.0);
    TextAppend(m.0, value);
    Assoc("\"", TextTail(m.0, ""), value);
    assert PrintMember(m, "") == Text(m.0, "") + (":" + Print(m.1, ""));
  }

  // ---------- the keys rise ----------

  /** In every object the keys rise: each is before the next in the order of code points. */
  ghost predicate KeysRise(v: Json)
    decreases v
  {
    match v
    case Arr(items) => forall i :: 0 <= i < |items| ==> KeysRise(items[i])
    case Obj(ms) =>
      && (forall i, j :: 0 <= i < j < |ms| ==> Leq(ms[i].0, ms[j].0) && ms[i].0 != ms[j].0)
      && (forall i :: 0 <= i < |ms| ==> KeysRise(ms[i].1))
    case _ => true
  }

  /** A sorted member is one of the members, normalized. */
  lemma SortedFrom(ms: seq<(string, Json)>, i: nat) returns (k: nat)
    requires i < |Sort(NormMembers(ms))|
    ensures k < |ms| && Sort(NormMembers(ms))[i] == (ms[k].0, Norm(ms[k].1))
  {
    var (p, r) := (NormMembers(ms), Sort(NormMembers(ms)));
    SortSorts(p);
    assert r[i] in multiset(r);
    assert r[i] in p;
    k :| 0 <= k < |p| && p[k] == r[i];
  }

  lemma SortedTo(ms: seq<(string, Json)>, k: nat) returns (i: nat)
    requires k < |ms|
    ensures i < |Sort(NormMembers(ms))| && Sort(NormMembers(ms))[i] == (ms[k].0, Norm(ms[k].1))
  {
    var (p, r) := (NormMembers(ms), Sort(NormMembers(ms)));
    SortSorts(p);
    assert p[k] in multiset(p);
    assert p[k] in r;
    i :| 0 <= i < |r| && r[i] == p[k];
  }

  lemma {:induction false} NormRises(v: Json)
    requires Valid(v)
    ensures KeysRise(Norm(v))
    decreases v
  {
    match v
    case Arr(items) =>
      forall i | 0 <= i < |items| ensures KeysRise(Norm(items[i])) { NormRises(items[i]); }
    case Obj(ms) =>
      var r := Sort(NormMembers(ms));
      forall k | 0 <= k < |ms| ensures KeysRise(Norm(ms[k].1)) { NormRises(ms[k].1); }
      SortSorts(NormMembers(ms));
      DistinctReordered(NormMembers(ms), r);
      forall i | 0 <= i < |r| ensures KeysRise(r[i].1) {
        var k := SortedFrom(ms, i);
      }
    case _ =>
  }

  lemma {:induction false} NormIsEquiv(v: Json)
    requires Valid(v)
    ensures Equiv(Norm(v), v)
    decreases v
  {
    match v
    case Arr(items) =>
      forall i | 0 <= i < |items| ensures Equiv(Norm(items[i]), items[i]) { NormIsEquiv(items[i]); }
    case Obj(ms) =>
      forall k | 0 <= k < |ms| ensures Equiv(Norm(ms[k].1), ms[k].1) { NormIsEquiv(ms[k].1); }
      MembersEquiv(ms);
    case _ =>
  }

  lemma MembersEquiv(ms: seq<(string, Json)>)
    requires DistinctNames(ms) && forall k :: 0 <= k < |ms| ==> Equiv(Norm(ms[k].1), ms[k].1)
    ensures Equiv(Norm(Obj(ms)), Obj(ms))
  {
    var r := Sort(NormMembers(ms));
    forall i | 0 <= i < |r| ensures HasName(r[i].0, ms) {
      var k := SortedFrom(ms, i);
    }
    forall k | 0 <= k < |ms| ensures HasName(ms[k].0, r) {
      var i := SortedTo(ms, k);
    }
    forall i, j | 0 <= i < |r| && 0 <= j < |ms| && r[i].0 == ms[j].0 ensures Equiv(r[i].1, ms[j].1) {
      var k := SortedFrom(ms, i);
      assert k == j;
    }
  }

  /** Canonical text is the text of the value, its members put in the order of their keys, without white space. */
  lemma CanonIsText(v: Json)
    requires Valid(v)
    ensures IsText(Canon(v), Norm(v)) && KeysRise(Norm(v)) && Equiv(Norm(v), v)
  {
    PrintIsText(Norm(v));
    NormRises(v);
    NormIsEquiv(v);
  }

  // ---------- what the payload says ----------

  /** The value of the member of that name, if there is one. */
  function At(v: Json, name: string): Option<Json> {
    if v.Obj? then Lookup(v.members, name) else None
  }

  function Lookup(ms: seq<(string, Json)>, name: string): Option<Json> {
    if ms == [] then None else if ms[0].0 == name then Some(ms[0].1) else Lookup(ms[1..], name)
  }

  lemma {:induction false} LookupFinds(ms: seq<(string, Json)>, i: nat)
    requires DistinctNames(ms) && i < |ms|
    ensures Lookup(ms, ms[i].0) == Some(ms[i].1)
  {
    if i > 0 {
      LookupFinds(ms[1..], i - 1);
    }
  }

  lemma {:induction false} LookupMisses(ms: seq<(string, Json)>, name: string)
    requires !HasName(name, ms)
    ensures Lookup(ms, name).None?
  {
    if ms != [] {
      assert ms[0].0 != name;
      assert forall i :: 0 <= i < |ms| - 1 ==> ms[1..][i] == ms[i + 1];
      LookupMisses(ms[1..], name);
    }
  }

  /** Normalizing an object normalizes what is under each name. */
  lemma AtNormal(ms: seq<(string, Json)>, name: string)
    requires DistinctNames(ms)
    ensures At(Norm(Obj(ms)), name) == match Lookup(ms, name) case Some(v) => Some(Norm(v)) case None => None
  {
    var r := Sort(NormMembers(ms));
    SortSorts(NormMembers(ms));
    DistinctReordered(NormMembers(ms), r);
    if HasName(name, ms) {
      var k :| 0 <= k < |ms| && ms[k].0 == name;
      LookupFinds(ms, k);
      var i := SortedTo(ms, k);
      LookupFinds(r, i);
    } else {
      LookupMisses(ms, name);
      forall i | 0 <= i < |r| ensures r[i].0 != name {
        var k := SortedFrom(ms, i);
      }
      LookupMisses(r, name);
    }
  }

  ghost predicate IsCount(v: Option<Json>, n: nat) {
    v.Some? && v.value.Number? && Spellings.Numeral(v.value.text, n)
  }

  ghost predicate IsCountIf(v: Option<Json>, n: Option<nat>) {
    if n.Some? then IsCount(v, n.value) else v.None?
  }

  predicate IsStrings(v: Option<Json>, ss: seq<string>) {
    && v.Some? && v.value.Arr? && |v.value.items| == |ss|
    && forall i :: 0 <= i < |ss| ==> v.value.items[i] == Str(ss[i])
  }

  ghost predicate IsOrigins(v: Option<Json>, os: seq<Origin>) {
    && v.Some? && v.value.Arr? && |v.value.items| == |os|
    && forall i :: 0 <= i < |os| ==> SaysOrigin(v.value.items[i], os[i])
  }

  ghost predicate SaysOrigin(v: Json, o: Origin) {
    At(v, "host") == Some(Str(o.host)) && IsCountIf(At(v, "port"), o.port)
  }

  ghost predicate SaysConstraints(v: Json, c: Constraints) {
    && IsOrigins(At(v, "origins"), c.origins) && IsStrings(At(v, "methods"), c.methods)
    && IsStrings(At(v, "path_prefixes"), c.pathPrefixes)
    && IsCount(At(v, "ttl_seconds"), c.ttlSeconds) && IsCountIf(At(v, "max_uses"), c.maxUses)
  }

  predicate IsMechanism(v: Option<Json>, m: Mechanism) {
    match m
    case Brokered => v == Some(Str("brokered"))
    case Autofill => v == Some(Str("autofill"))
    case CliRead => v == Some(Str("cli-read"))
    case DirectRead => v == Some(Str("direct-read"))
  }

  /** Every stated field under its name, and neither the key nor the captured context. */
  ghost predicate Says(v: Json, r: AccessRequest) {
    && At(v, "secret_name") == Some(Str(r.secretName)) && IsMechanism(At(v, "mechanism"), r.mechanism)
    && At(v, "constraints").Some? && SaysConstraints(At(v, "constraints").value, r.constraints)
    && At(v, "context").Some? && At(At(v, "context").value, "reason") == Some(Str(r.context.reason))
    && At(v, "idempotency_key").None? && At(At(v, "context").value, "structured").None?
  }

  lemma OptionalAt(head: seq<(string, Json)>, name: string, n: Option<nat>)
    requires DistinctNames(head) && !HasName(name, head)
    ensures var ms := head + Optional(name, OptionalNat(n));
            DistinctNames(ms) && IsCountIf(At(Norm(Obj(ms)), name), n)
  {
    var ms := head + Optional(name, OptionalNat(n));
    AtNormal(ms, name);
    if n.Some? {
      LookupFinds(ms, |head|);
      Spellings.NatTextIsNumeral(n.value);
    } else {
      assert ms == head;
      LookupMisses(ms, name);
    }
  }

  /** The members before an optional one are found as without it. */
  lemma HeadAt(head: seq<(string, Json)>, tail: seq<(string, Json)>, i: nat)
    requires DistinctNames(head + tail) && i < |head|
    ensures At(Norm(Obj(head + tail)), head[i].0) == Some(Norm(head[i].1))
  {
    AtNormal(head + tail, head[i].0);
    LookupFinds(head + tail, i);
  }

  lemma OriginSaid(o: Origin)
    ensures SaysOrigin(Norm(OriginValue(o)), o)
  {
    var head := [("host", Str(o.host))];
    OptionalAt(head, "port", o.port);
    HeadAt(head, Optional("port", OptionalNat(o.port)), 0);
  }

  lemma ConstraintsSaid(c: Constraints)
    ensures SaysConstraints(Norm(ConstraintsValue(c)), c)
  {
    var head := [("origins", OriginsValue(c.origins)), ("methods", StringsValue(c.methods)),
                 ("path_prefixes", StringsValue(c.pathPrefixes)), ("ttl_seconds", NatValue(c.ttlSeconds))];
    var tail := Optional("max_uses", OptionalNat(c.maxUses));
    OptionalAt(head, "max_uses", c.maxUses);
    HeadAt(head, tail, 0);
    HeadAt(head, tail, 1);
    HeadAt(head, tail, 2);
    HeadAt(head, tail, 3);
    Spellings.NatTextIsNumeral(c.ttlSeconds);
    forall i | 0 <= i < |c.origins| ensures SaysOrigin(Norm(OriginValue(c.origins[i])), c.origins[i]) {
      OriginSaid(c.origins[i]);
    }
  }

  lemma ContextSaid(reason: string)
    ensures var v := Norm(Obj([("reason", Str(reason))]));
            At(v, "reason") == Some(Str(reason)) && At(v, "structured").None?
  {
    var context := [("reason", Str(reason))];
    assert context == context + [];
    HeadAt(context, [], 0);
    AtNormal(context, "structured");
    LookupMisses(context, "structured");
  }

  lemma MembersSaid(r: AccessRequest)
    ensures Says(Norm(Obj(MacMembers(r))), r)
  {
    var ms := MacMembers(r);
    assert ms == ms + [];
    HeadAt(ms, [], 0);
    HeadAt(ms, [], 1);
    HeadAt(ms, [], 2);
    HeadAt(ms, [], 3);
    ConstraintsSaid(r.constraints);
    ContextSaid(r.context.reason);
    AtNormal(ms, "idempotency_key");
    LookupMisses(ms, "idempotency_key");
  }

  /** The payload is the text of an object that says what the caller states, and nothing of the key or the
      captured context. */
  lemma PayloadSays(r: AccessRequest)
    ensures exists v :: IsText(Payload(r), v) && KeysRise(v) && Says(v, r)
  {
    PayloadIs(r);
    MacMembersAreValid(r);
    CanonIsText(Obj(MacMembers(r)));
    MembersSaid(r);
  }
}
