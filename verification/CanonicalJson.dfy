/**
  Canonical JSON text, and the request payload that is MACed for idempotency.

  A JSON object is a sequence of members in whatever order it was built; a
  number is the text it is printed as. The text is proved to be uniquely
  decodable, so two values print alike exactly when they are equal as finite
  maps and lists.
 */
module CanonicalJson {
  import opened Wrappers
  import opened Sorting
  import Envelope

  datatype Json =
    | Null
    | Bool(b: bool)
    | Number(text: string)
    | Str(s: string)
    | Arr(items: seq<Json>)
    | Obj(members: seq<(string, Json)>)

  // ---------- what a value is ----------

  predicate NumberChar(c: char) {
    '0' <= c <= '9' || c == '-' || c == '+' || c == '.' || c == 'e' || c == 'E'
  }

  predicate NumberText(t: string) {
    t != "" && ('0' <= t[0] <= '9' || t[0] == '-') && forall i :: 0 <= i < |t| ==> NumberChar(t[i])
  }

  /** Numbers print as numbers, and an object has each key once. */
  ghost predicate Valid(v: Json) {
    match v
    case Number(t) => NumberText(t)
    case Arr(items) => forall i :: 0 <= i < |items| ==> Valid(items[i])
    case Obj(ms) => DistinctNames(ms) && forall i :: 0 <= i < |ms| ==> Valid(ms[i].1)
    case _ => true
  }

  /** Equality of finite maps and lists: the order of an object's members does not matter. */
  ghost predicate Equiv(a: Json, b: Json)
    decreases a
  {
    match (a, b)
    case (Arr(xs), Arr(ys)) => |xs| == |ys| && forall i :: 0 <= i < |xs| ==> Equiv(xs[i], ys[i])
    case (Obj(xs), Obj(ys)) =>
      && (forall name :: HasName(name, xs) <==> HasName(name, ys))
      && (forall i, j :: 0 <= i < |xs| && 0 <= j < |ys| && xs[i].0 == ys[j].0 ==> Equiv(xs[i].1, ys[j].1))
    case _ => a == b
  }

  // ---------- text ----------

  /** Escapes of section 7 of RFC 8259, the short form where there is one. */
  function EscapeChar(c: char): string {
    if c == '\"' then "\\\""
    else if c == '\\' then "\\\\"
    else if c as int == 8 then "\\b"
    else if c as int == 12 then "\\f"
    else if c as int == 10 then "\\n"
    else if c as int == 13 then "\\r"
    else if c as int == 9 then "\\t"
    else if c as int < 32 then "\\u00" + [Envelope.HEX[c as int / 16], Envelope.HEX[c as int % 16]]
    else [c]
  }

  /** The rest of a string literal, closing quote included, and then `rest`. */
  function TextTail(s: string, rest: string): string {
    if s == "" then "\"" + rest else EscapeChar(s[0]) + TextTail(s[1..], rest)
  }

  function Text(s: string, rest: string): string {
    "\"" + TextTail(s, rest)
  }

  /** A value with its members in the order they have, and then `rest`. */
  function Print(v: Json, rest: string): string
    decreases v, 2
  {
    match v
    case Null => "null" + rest
    case Bool(b) => (if b then "true" else "false") + rest
    case Number(t) => t + rest
    case Str(s) => Text(s, rest)
    case Arr(items) => "[" + if items == [] then "]" + rest else Print(items[0], ItemsTail(items, 1, rest))
    case Obj(ms) => "{" + if ms == [] then "}" + rest else PrintMember(ms[0], MembersTail(ms, 1, rest))
  }

  function PrintMember(m: (string, Json), rest: string): string
    decreases m, 3
  {
    Text(m.0, ":" + Print(m.1, rest))
  }

  /** The items from `i` on, each with the comma before it, the closing bracket, and then `rest`. */
  function ItemsTail(items: seq<Json>, i: nat, rest: string): string
    requires i <= |items|
    decreases items, |items| - i
  {
    if i == |items| then "]" + rest else "," + Print(items[i], ItemsTail(items, i + 1, rest))
  }

  function MembersTail(ms: seq<(string, Json)>, i: nat, rest: string): string
    requires i <= |ms|
    decreases ms, |ms| - i
  {
    if i == |ms| then "}" + rest else "," + PrintMember(ms[i], MembersTail(ms, i + 1, rest))
  }

  /** Every object's members sorted by key. */
  function Norm(v: Json): Json
    decreases v, 1
  {
    match v
    case Arr(items) => Arr(NormItems(items))
    case Obj(ms) => Obj(Sort(NormMembers(ms)))
    case _ => v
  }

  function NormItems(items: seq<Json>): (r: seq<Json>)
    ensures |r| == |items| && forall i :: 0 <= i < |r| ==> r[i] == Norm(items[i])
    decreases items, 0
  {
    seq(|items|, i requires 0 <= i < |items| => Norm(items[i]))
  }

  function NormMember(m: (string, Json)): (string, Json)
    decreases m, 2
  {
    (m.0, Norm(m.1))
  }

  function NormMembers(ms: seq<(string, Json)>): (r: seq<(string, Json)>)
    ensures |r| == |ms| && forall i :: 0 <= i < |r| ==> r[i] == NormMember(ms[i])
    decreases ms, 0
  {
    seq(|ms|, i requires 0 <= i < |ms| => NormMember(ms[i]))
  }

  /** The canonical text. */
  function Canon(v: Json): string {
    Print(Norm(v), "")
  }

  // ---------- the text is uniquely decodable ----------

  lemma EscapeSplit(c: char, d: char, p: string, q: string)
    requires EscapeChar(c) + p == EscapeChar(d) + q
    ensures c == d && p == q
  {
    var (a, b) := (EscapeChar(c) + p, EscapeChar(d) + q);
    assert a[0] == EscapeChar(c)[0] && b[0] == EscapeChar(d)[0];
    if a[0] == '\\' {
      assert a[1] == EscapeChar(c)[1] && b[1] == EscapeChar(d)[1];
      if a[1] == 'u' {
        assert a[4] == EscapeChar(c)[4] && b[4] == EscapeChar(d)[4];
        assert a[5] == EscapeChar(c)[5] && b[5] == EscapeChar(d)[5];
        Envelope.HexDigitsDiffer(c as int / 16, d as int / 16);
        Envelope.HexDigitsDiffer(c as int % 16, d as int % 16);
      }
    }
    assert c == d;
    assert p == a[|EscapeChar(c)|..] && q == b[|EscapeChar(d)|..];
  }

  lemma {:induction false} TextSplit(s: string, t: string, x: string, y: string)
    requires TextTail(s, x) == TextTail(t, y)
    ensures s == t && x == y
  {
    TextHead(s, x);
    TextHead(t, y);
    if s == "" {
      SplitEqual("\"", x, "\"", y);
    } else {
      EscapeSplit(s[0], t[0], TextTail(s[1..], x), TextTail(t[1..], y));
      TextSplit(s[1..], t[1..], x, y);
      assert s == [s[0]] + s[1..] && t == [t[0]] + t[1..];
    }
  }

  lemma TextHead(s: string, x: string)
    ensures TextTail(s, x) != "" && (TextTail(s, x)[0] == '\"' <==> s == "")
  {
    if s != "" {
      assert TextTail(s, x)[0] == EscapeChar(s[0])[0];
    }
  }

  /** Where a value may end. */
  predicate Ends(x: string) {
    x == "" || x[0] == ',' || x[0] == ']' || x[0] == '}'
  }

  lemma {:induction false} NumberSplit(s: string, t: string, x: string, y: string)
    requires forall i :: 0 <= i < |s| ==> NumberChar(s[i])
    requires forall i :: 0 <= i < |t| ==> NumberChar(t[i])
    requires Ends(x) && Ends(y) && s + x == t + y
    ensures s == t && x == y
  {
    assert s != "" ==> (s + x)[0] == s[0];
    assert t != "" ==> (t + y)[0] == t[0];
    if s == "" {
      assert s + x == x;
      assert t == "";
      assert t + y == y;
    } else {
      assert t == "" ==> t + y == y;
      assert (s + x)[1..] == s[1..] + x && (t + y)[1..] == t[1..] + y;
      NumberSplit(s[1..], t[1..], x, y);
      assert s == [s[0]] + s[1..] && t == [t[0]] + t[1..];
    }
  }

  /** The first character tells what kind of value follows. */
  ghost predicate HeadFits(v: Json, c: char) {
    match v
    case Null => c == 'n'
    case Bool(b) => c == if b then 't' else 'f'
    case Number(_) => '0' <= c <= '9' || c == '-'
    case Str(_) => c == '\"'
    case Arr(_) => c == '['
    case Obj(_) => c == '{'
  }

  /** Only the numbers matter to decoding, not the keys being distinct. */
  ghost predicate Printable(v: Json) {
    match v
    case Number(t) => NumberText(t)
    case Arr(items) => forall i :: 0 <= i < |items| ==> Printable(items[i])
    case Obj(ms) => forall i :: 0 <= i < |ms| ==> Printable(ms[i].1)
    case _ => true
  }

  lemma PrintHead(v: Json, x: string)
    requires Printable(v)
    ensures Print(v, x) != "" && HeadFits(v, Print(v, x)[0])
  {
  }

  lemma {:induction false} PrintSplit(a: Json, b: Json, x: string, y: string)
    requires Printable(a) && Printable(b) && Ends(x) && Ends(y)
    requires Print(a, x) == Print(b, y)
    ensures a == b && x == y
    decreases a, 2
  {
    PrintHead(a, x);
    PrintHead(b, y);
    match a
    case Null => SplitEqual("null", x, "null", y);
    case Bool(v) => SplitEqual(if v then "true" else "false", x, if v then "true" else "false", y);
    case Number(t) => NumberSplit(t, b.text, x, y);
    case Str(s) =>
      SplitEqual("\"", TextTail(s, x), "\"", TextTail(b.s, y));
      TextSplit(s, b.s, x, y);
    case Arr(items) => ArraySplit(items, b.items, x, y);
    case Obj(ms) => ObjectSplit(ms, b.members, x, y);
  }

  lemma {:induction false} ArraySplit(xs: seq<Json>, ys: seq<Json>, x: string, y: string)
    requires Printable(Arr(xs)) && Printable(Arr(ys))
    requires Print(Arr(xs), x) == Print(Arr(ys), y)
    ensures xs == ys && x == y
    decreases xs, |xs| + 2
  {
    var p := if xs == [] then "]" + x else Print(xs[0], ItemsTail(xs, 1, x));
    var q := if ys == [] then "]" + y else Print(ys[0], ItemsTail(ys, 1, y));
    SplitEqual("[", p, "[", q);
    if xs != [] { PrintHead(xs[0], ItemsTail(xs, 1, x)); }
    if ys != [] { PrintHead(ys[0], ItemsTail(ys, 1, y)); }
    if xs == [] {
      SplitEqual("]", x, "]", y);
    } else {
      PrintSplit(xs[0], ys[0], ItemsTail(xs, 1, x), ItemsTail(ys, 1, y));
      ItemsSplit(xs, ys, 1, x, y);
      assert xs == [xs[0]] + xs[1..] && ys == [ys[0]] + ys[1..];
    }
  }

  lemma {:induction false} ItemsSplit(xs: seq<Json>, ys: seq<Json>, i: nat, x: string, y: string)
    requires Printable(Arr(xs)) && Printable(Arr(ys)) && i <= |xs| && i <= |ys|
    requires ItemsTail(xs, i, x) == ItemsTail(ys, i, y)
    ensures xs[i..] == ys[i..] && x == y
    decreases xs, |xs| - i
  {
    assert ItemsTail(xs, i, x)[0] == ItemsTail(ys, i, y)[0];
    if i == |xs| {
      SplitEqual("]", x, "]", y);
    } else {
      var (p, q) := (ItemsTail(xs, i + 1, x), ItemsTail(ys, i + 1, y));
      SplitEqual(",", Print(xs[i], p), ",", Print(ys[i], q));
      PrintSplit(xs[i], ys[i], p, q);
      ItemsSplit(xs, ys, i + 1, x, y);
      assert xs[i..] == [xs[i]] + xs[i + 1..] && ys[i..] == [ys[i]] + ys[i + 1..];
    }
  }

  lemma {:induction false} MemberSplit(m: (string, Json), n: (string, Json), x: string, y: string)
    requires Printable(m.1) && Printable(n.1) && Ends(x) && Ends(y)
    requires PrintMember(m, x) == PrintMember(n, y)
    ensures m == n && x == y
    decreases m, 3
  {
    var (p, q) := (":" + Print(m.1, x), ":" + Print(n.1, y));
    SplitEqual("\"", TextTail(m.0, p), "\"", TextTail(n.0, q));
    TextSplit(m.0, n.0, p, q);
    SplitEqual(":", Print(m.1, x), ":", Print(n.1, y));
    PrintSplit(m.1, n.1, x, y);
  }

  lemma {:induction false} ObjectSplit(xs: seq<(string, Json)>, ys: seq<(string, Json)>, x: string, y: string)
    requires Printable(Obj(xs)) && Printable(Obj(ys))
    requires Print(Obj(xs), x) == Print(Obj(ys), y)
    ensures xs == ys && x == y
    decreases xs, |xs| + 2
  {
    var p := if xs == [] then "}" + x else PrintMember(xs[0], MembersTail(xs, 1, x));
    var q := if ys == [] then "}" + y else PrintMember(ys[0], MembersTail(ys, 1, y));
    SplitEqual("{", p, "{", q);
    assert p[0] == q[0];
    if xs == [] {
      SplitEqual("}", x, "}", y);
    } else {
      MemberSplit(xs[0], ys[0], MembersTail(xs, 1, x), MembersTail(ys, 1, y));
      MembersSplit(xs, ys, 1, x, y);
      assert xs == [xs[0]] + xs[1..] && ys == [ys[0]] + ys[1..];
    }
  }

  lemma {:induction false} MembersSplit(xs: seq<(string, Json)>, ys: seq<(string, Json)>, i: nat, x: string, y: string)
    requires Printable(Obj(xs)) && Printable(Obj(ys)) && i <= |xs| && i <= |ys|
    requires MembersTail(xs, i, x) == MembersTail(ys, i, y)
    ensures xs[i..] == ys[i..] && x == y
    decreases xs, |xs| - i
  {
    assert MembersTail(xs, i, x)[0] == MembersTail(ys, i, y)[0];
    if i == |xs| {
      SplitEqual("}", x, "}", y);
    } else {
      var (p, q) := (MembersTail(xs, i + 1, x), MembersTail(ys, i + 1, y));
      SplitEqual(",", PrintMember(xs[i], p), ",", PrintMember(ys[i], q));
      MemberSplit(xs[i], ys[i], p, q);
      MembersSplit(xs, ys, i + 1, x, y);
      assert xs[i..] == [xs[i]] + xs[i + 1..] && ys[i..] == [ys[i]] + ys[i + 1..];
    }
  }

  // ---------- canonical text decides equality of values ----------

  lemma {:induction false} NormPrintable(v: Json)
    requires Valid(v)
    ensures Printable(Norm(v))
    decreases v
  {
    match v
    case Arr(items) =>
      forall i | 0 <= i < |items| ensures Printable(Norm(items[i])) { NormPrintable(items[i]); }
    case Obj(ms) =>
      SortSorts(NormMembers(ms));
      forall i | 0 <= i < |ms| ensures Printable(Norm(ms[i].1)) { NormPrintable(ms[i].1); }
      var r := Sort(NormMembers(ms));
      forall i | 0 <= i < |r| ensures Printable(r[i].1) {
        assert r[i] in multiset(r);
      }
    case _ =>
  }

  lemma {:induction false} NormDecides(a: Json, b: Json)
    requires Valid(a) && Valid(b)
    ensures Norm(a) == Norm(b) <==> Equiv(a, b)
    decreases a
  {
    match (a, b)
    case (Arr(xs), Arr(ys)) =>
      forall i | 0 <= i < |xs| && i < |ys| ensures Norm(xs[i]) == Norm(ys[i]) <==> Equiv(xs[i], ys[i]) {
        NormDecides(xs[i], ys[i]);
      }
      assert NormItems(xs) == NormItems(ys) <==> Equiv(a, b);
    case (Obj(xs), Obj(ys)) =>
      forall i, j | 0 <= i < |xs| && 0 <= j < |ys| ensures Norm(xs[i].1) == Norm(ys[j].1) <==> Equiv(xs[i].1, ys[j].1) {
        NormDecides(xs[i].1, ys[j].1);
      }
      MembersDecide(xs, ys);
    case _ =>
  }

  /** Sorted by key, members agree exactly when each key has the same value on both sides. */
  lemma MembersDecide(xs: seq<(string, Json)>, ys: seq<(string, Json)>)
    requires DistinctNames(xs) && DistinctNames(ys)
    requires forall i, j :: 0 <= i < |xs| && 0 <= j < |ys| ==> (Norm(xs[i].1) == Norm(ys[j].1) <==> Equiv(xs[i].1, ys[j].1))
    ensures Sort(NormMembers(xs)) == Sort(NormMembers(ys)) <==> Equiv(Obj(xs), Obj(ys))
  {
    var (p, q) := (NormMembers(xs), NormMembers(ys));
    SortSorts(p);
    SortSorts(q);
    DistinctReordered(p, Sort(p));
    DistinctReordered(q, Sort(q));
    if Sort(p) == Sort(q) {
      SameElements(p, q);
      SameMembers(xs, ys);
    }
    if Equiv(Obj(xs), Obj(ys)) {
      forall e | e in p ensures e in q { EquivMember(xs, ys, e); }
      forall e | e in q ensures e in p { EquivMemberBack(xs, ys, e); }
      SameElements(p, Sort(p));
      SameElements(q, Sort(q));
      SortedUnique(Sort(p), Sort(q));
    }
  }

  lemma SameElements<E>(x: seq<E>, y: seq<E>)
    requires multiset(x) == multiset(y)
    ensures forall e :: e in x <==> e in y
  {
    forall e ensures e in x <==> e in y {
      assert e in x <==> e in multiset(x);
      assert e in y <==> e in multiset(y);
    }
  }

  lemma SameMembers(xs: seq<(string, Json)>, ys: seq<(string, Json)>)
    requires DistinctNames(xs) && DistinctNames(ys)
    requires forall i, j :: 0 <= i < |xs| && 0 <= j < |ys| ==> (Norm(xs[i].1) == Norm(ys[j].1) <==> Equiv(xs[i].1, ys[j].1))
    requires forall e :: e in NormMembers(xs) <==> e in NormMembers(ys)
    ensures Equiv(Obj(xs), Obj(ys))
  {
    var (p, q) := (NormMembers(xs), NormMembers(ys));
    forall i | 0 <= i < |xs| ensures HasName(xs[i].0, ys) {
      assert p[i] in q;
    }
    forall j | 0 <= j < |ys| ensures HasName(ys[j].0, xs) {
      assert q[j] in p;
    }
    forall i, j | 0 <= i < |xs| && 0 <= j < |ys| && xs[i].0 == ys[j].0 ensures Equiv(xs[i].1, ys[j].1) {
      assert p[i] in q;
      var k :| 0 <= k < |q| && q[k] == p[i];
      assert ys[k].0 == ys[j].0;
      assert k == j;
    }
  }

  lemma EquivMember(xs: seq<(string, Json)>, ys: seq<(string, Json)>, e: (string, Json))
    requires forall i, j :: 0 <= i < |xs| && 0 <= j < |ys| ==> (Norm(xs[i].1) == Norm(ys[j].1) <==> Equiv(xs[i].1, ys[j].1))
    requires Equiv(Obj(xs), Obj(ys)) && e in NormMembers(xs)
    ensures e in NormMembers(ys)
  {
    var i :| 0 <= i < |xs| && NormMembers(xs)[i] == e;
    assert HasName(xs[i].0, xs);
    var j :| 0 <= j < |ys| && ys[j].0 == xs[i].0;
    assert NormMembers(ys)[j] == e;
  }

  lemma EquivMemberBack(xs: seq<(string, Json)>, ys: seq<(string, Json)>, e: (string, Json))
    requires forall i, j :: 0 <= i < |xs| && 0 <= j < |ys| ==> (Norm(xs[i].1) == Norm(ys[j].1) <==> Equiv(xs[i].1, ys[j].1))
    requires Equiv(Obj(xs), Obj(ys)) && e in NormMembers(ys)
    ensures e in NormMembers(xs)
  {
    var j :| 0 <= j < |ys| && NormMembers(ys)[j] == e;
    assert HasName(ys[j].0, ys);
    var i :| 0 <= i < |xs| && xs[i].0 == ys[j].0;
    assert NormMembers(xs)[i] == e;
  }

  /** Two values print alike exactly when they are equal as finite maps and lists. */
  lemma CanonDecides(a: Json, b: Json)
    requires Valid(a) && Valid(b)
    ensures Canon(a) == Canon(b) <==> Equiv(a, b)
  {
    NormPrintable(a);
    NormPrintable(b);
    NormDecides(a, b);
    if Canon(a) == Canon(b) {
      PrintSplit(Norm(a), Norm(b), "", "");
    }
  }

  // ---------- the serializer ----------

  /** The shared output string. */
  class Output {
    var text: string

    constructor ()
      ensures text == ""
    {
      text := "";
    }
  }

  lemma Shift(a: string, b: string, c: string, d: string)
    ensures a + (b + (c + d)) == (a + (b + c)) + d
  {
  }

  lemma {:induction false} TextAppend(s: string, rest: string)
    ensures TextTail(s, rest) == TextTail(s, "") + rest
  {
    if s != "" {
      TextAppend(s[1..], rest);
    }
  }

  lemma {:induction false} PrintAppend(v: Json, rest: string)
    ensures Print(v, rest) == Print(v, "") + rest
    decreases v, 2
  {
    match v
    case Str(s) => TextAppend(s, rest);
    case Arr(items) =>
      if items != [] {
        ItemsAppend(items, 1, rest);
        PrintAppend(items[0], ItemsTail(items, 1, rest));
        PrintAppend(items[0], ItemsTail(items, 1, ""));
        Shift("[", Print(items[0], ""), ItemsTail(items, 1, ""), rest);
      }
    case Obj(ms) =>
      if ms != [] {
        MembersAppend(ms, 1, rest);
        MemberAppend(ms[0], MembersTail(ms, 1, rest));
        MemberAppend(ms[0], MembersTail(ms, 1, ""));
        Shift("{", PrintMember(ms[0], ""), MembersTail(ms, 1, ""), rest);
      }
    case _ =>
  }

  lemma {:induction false} MemberAppend(m: (string, Json), rest: string)
    ensures PrintMember(m, rest) == PrintMember(m, "") + rest
    decreases m, 3
  {
    PrintAppend(m.1, rest);
    TextAppend(m.0, ":" + Print(m.1, rest));
    TextAppend(m.0, ":" + Print(m.1, ""));
  }

  lemma {:induction false} ItemsAppend(items: seq<Json>, i: nat, rest: string)
    requires i <= |items|
    ensures ItemsTail(items, i, rest) == ItemsTail(items, i, "") + rest
    decreases items, |items| - i
  {
    if i < |items| {
      ItemsAppend(items, i + 1, rest);
      PrintAppend(items[i], ItemsTail(items, i + 1, rest));
      PrintAppend(items[i], ItemsTail(items, i + 1, ""));
      Shift(",", Print(items[i], ""), ItemsTail(items, i + 1, ""), rest);
    }
  }

  lemma {:induction false} MembersAppend(ms: seq<(string, Json)>, i: nat, rest: string)
    requires i <= |ms|
    ensures MembersTail(ms, i, rest) == MembersTail(ms, i, "") + rest
    decreases ms, |ms| - i
  {
    if i < |ms| {
      MembersAppend(ms, i + 1, rest);
      MemberAppend(ms[i], MembersTail(ms, i + 1, rest));
      MemberAppend(ms[i], MembersTail(ms, i + 1, ""));
      Shift(",", PrintMember(ms[i], ""), MembersTail(ms, i + 1, ""), rest);
    }
  }

  /** Keys alone decide the order, so normalising the values commutes with sorting. */
  lemma {:induction false} InsertNorm(m: (string, Json), ms: seq<(string, Json)>)
    ensures Insert((m.0, Norm(m.1)), NormMembers(ms)) == NormMembers(Insert(m, ms))
  {
    if ms != [] && !Leq(m.0, ms[0].0) {
      InsertNorm(m, ms[1..]);
      assert NormMembers(ms)[1..] == NormMembers(ms[1..]);
    }
  }

  lemma {:induction false} SortNorm(ms: seq<(string, Json)>)
    ensures Sort(NormMembers(ms)) == NormMembers(Sort(ms))
  {
    if ms != [] {
      SortNorm(ms[1..]);
      assert NormMembers(ms)[1..] == NormMembers(ms[1..]);
      InsertNorm(ms[0], Sort(ms[1..]));
    }
  }

  /** What is still to be written of an array after `i` items. */
  ghost function ItemsLeft(items: seq<Json>, i: nat): string
    requires i <= |items|
  {
    if i == 0 && items != [] then Print(items[0], ItemsTail(items, 1, "")) else ItemsTail(items, i, "")
  }

  ghost function MembersLeft(ms: seq<(string, Json)>, i: nat): string
    requires i <= |ms|
  {
    if i == 0 && ms != [] then PrintMember(ms[0], MembersTail(ms, 1, "")) else MembersTail(ms, i, "")
  }

  function Separator(i: nat): string {
    if i > 0 then "," else ""
  }

  /** One item written: the text so far and what is left still make up the goal. */
  lemma ItemsStep(goal: string, text: string, items: seq<Json>, i: nat)
    requires i < |items| && goal == text + ItemsLeft(items, i)
    ensures goal == ((text + Separator(i)) + Print(items[i], "")) + ItemsLeft(items, i + 1)
  {
    PrintAppend(items[i], ItemsTail(items, i + 1, ""));
  }

  lemma MembersStep(goal: string, text: string, ms: seq<(string, Json)>, i: nat)
    requires i < |ms| && goal == text + MembersLeft(ms, i)
    ensures goal == ((text + Separator(i)) + PrintMember(ms[i], "")) + MembersLeft(ms, i + 1)
  {
    MemberAppend(ms[i], MembersTail(ms, i + 1, ""));
  }

  lemma ItemsEnds(before: string, items: seq<Json>)
    ensures before + Print(Arr(items), "") == (before + "[") + ItemsLeft(items, 0)
    ensures ItemsLeft(items, |items|) == "]"
  {
  }

  lemma MembersEnds(before: string, ms: seq<(string, Json)>)
    ensures before + Print(Obj(ms), "") == (before + "{") + MembersLeft(ms, 0)
    ensures MembersLeft(ms, |ms|) == "}"
  {
  }

  lemma SortedMember<T>(ms: seq<(string, T)>, i: nat)
    requires i < |Sort(ms)|
    ensures exists j :: 0 <= j < |ms| && ms[j] == Sort(ms)[i]
  {
    SortSorts(ms);
    assert Sort(ms)[i] in multiset(Sort(ms));
    assert Sort(ms)[i] in ms;
  }

  /** Appends the canonical text of a value, member by member, to one shared string. */
  method WriteCanonical(v: Json, out: Output)
    modifies out
    ensures out.text == old(out.text) + Canon(v)
    decreases v, 2
  {
    match v
    case Null => out.text := out.text + "null";
    case Bool(b) => out.text := out.text + if b then "true" else "false";
    case Number(t) => out.text := out.text + t;
    case Str(s) => out.text := out.text + Text(s, "");
    case Arr(items) => WriteItems(items, out);
    case Obj(ms) => WriteMembers(ms, out);
  }

  method WriteItems(items: seq<Json>, out: Output)
    modifies out
    ensures out.text == old(out.text) + Canon(Arr(items))
    decreases items, 0
  {
    ghost var ns, goal := NormItems(items), out.text + Canon(Arr(items));
    ItemsEnds(out.text, ns);
    out.text := out.text + "[";
    for i := 0 to |items|
      invariant goal == out.text + ItemsLeft(ns, i)
    {
      ItemsStep(goal, out.text, ns, i);
      out.text := out.text + Separator(i);
      WriteCanonical(items[i], out);
    }
    out.text := out.text + "]";
  }

  method WriteMembers(ms: seq<(string, Json)>, out: Output)
    modifies out
    ensures out.text == old(out.text) + Canon(Obj(ms))
    decreases ms, 0
  {
    var sorted := Sort(ms);
    ghost var ns, goal := NormMembers(sorted), out.text + Canon(Obj(ms));
    SortNorm(ms);
    MembersEnds(out.text, ns);
    out.text := out.text + "{";
    for i := 0 to |sorted|
      invariant goal == out.text + MembersLeft(ns, i)
    {
      MembersStep(goal, out.text, ns, i);
      SortedMember(ms, i);
      out.text := out.text + Separator(i);
      WriteMember(sorted[i], out);
    }
    out.text := out.text + "}";
  }

  lemma MemberSpelled(text: string, m: (string, Json))
    ensures text + PrintMember(NormMember(m), "") == ((text + Text(m.0, "")) + ":") + Canon(m.1)
  {
    TextAppend(m.0, ":" + Canon(m.1));
    Spell(text, TextTail(m.0, ""), Canon(m.1));
  }

  lemma Spell(text: string, tail: string, value: string)
    ensures text + ("\"" + (tail + (":" + value))) == ((text + ("\"" + tail)) + ":") + value
  {
    assert text + ("\"" + (tail + (":" + value))) == (text + ("\"" + tail)) + (":" + value);
  }

  method WriteMember(m: (string, Json), out: Output)
    modifies out
    ensures out.text == old(out.text) + PrintMember(NormMember(m), "")
    decreases m, 1
  {
    MemberSpelled(out.text, m);
    out.text := out.text + Text(m.0, "");
    out.text := out.text + ":";
    WriteCanonical(m.1, out);
  }

  // ---------- the request payload ----------

  datatype Mechanism = Brokered | Autofill | CliRead | DirectRead

  datatype Origin = Origin(host: string, port: Option<nat>)

  datatype Constraints = Constraints(
    origins: seq<Origin>, methods: seq<string>, pathPrefixes: seq<string>, ttlSeconds: nat, maxUses: Option<nat>)

  datatype RequestContext = RequestContext(reason: string, structured: Option<Json>)

  datatype AccessRequest = AccessRequest(
    idempotencyKey: string, secretName: string, mechanism: Mechanism, constraints: Constraints, context: RequestContext)

  function MechanismText(m: Mechanism): string {
    match m
    case Brokered => "brokered"
    case Autofill => "autofill"
    case CliRead => "cli-read"
    case DirectRead => "direct-read"
  }

  function NatValue(n: nat): Json {
    Number(Envelope.NatText(n))
  }

  /** `skip_serializing_if = "Option::is_none"`. */
  function Optional(name: string, v: Option<Json>): seq<(string, Json)> {
    if v.Some? then [(name, v.value)] else []
  }

  function OptionalNat(n: Option<nat>): Option<Json> {
    if n.Some? then Some(NatValue(n.value)) else None
  }

  function OriginValue(o: Origin): Json {
    Obj([("host", Str(o.host))] + Optional("port", OptionalNat(o.port)))
  }

  function OriginsValue(os: seq<Origin>): Json {
    Arr(seq(|os|, i requires 0 <= i < |os| => OriginValue(os[i])))
  }

  function StringsValue(ss: seq<string>): Json {
    Arr(seq(|ss|, i requires 0 <= i < |ss| => Str(ss[i])))
  }

  function ConstraintsValue(c: Constraints): Json {
    Obj([("origins", OriginsValue(c.origins)), ("methods", StringsValue(c.methods)),
         ("path_prefixes", StringsValue(c.pathPrefixes)), ("ttl_seconds", NatValue(c.ttlSeconds))]
        + Optional("max_uses", OptionalNat(c.maxUses)))
  }

  function ContextMembers(c: RequestContext): seq<(string, Json)> {
    [("reason", Str(c.reason))] + Optional("structured", c.structured)
  }

  /** `serde_json::to_value`. */
  function RequestMembers(r: AccessRequest): seq<(string, Json)> {
    [("idempotency_key", Str(r.idempotencyKey)), ("secret_name", Str(r.secretName)),
     ("mechanism", Str(MechanismText(r.mechanism))), ("constraints", ConstraintsValue(r.constraints)),
     ("context", Obj(ContextMembers(r.context)))]
  }

  function Remove(name: string, ms: seq<(string, Json)>): seq<(string, Json)> {
    if ms == [] then []
    else if ms[0].0 == name then Remove(name, ms[1..])
    else [ms[0]] + Remove(name, ms[1..])
  }

  /** `get_mut(name)`, and when it is an object, `remove` inside it. */
  function RemoveInside(outer: string, name: string, ms: seq<(string, Json)>): seq<(string, Json)> {
    if ms == [] then []
    else
      var m := if ms[0].0 == outer && ms[0].1.Obj? then (outer, Obj(Remove(name, ms[0].1.members))) else ms[0];
      [m] + RemoveInside(outer, name, ms[1..])
  }

  function Payload(r: AccessRequest): string {
    Canon(Obj(RemoveInside("context", "structured", Remove("idempotency_key", RequestMembers(r)))))
  }

  /** `canonical_request_payload`. */
  method CanonicalRequestPayload(r: AccessRequest) returns (payload: string)
    ensures payload == Payload(r)
  {
    var members := Remove("idempotency_key", RequestMembers(r));
    members := RemoveInside("context", "structured", members);
    var out := new Output();
    WriteCanonical(Obj(members), out);
    payload := out.text;
  }

  /** The request as it goes into the MAC, written out. */
  function MacMembers(r: AccessRequest): seq<(string, Json)> {
    [("secret_name", Str(r.secretName)), ("mechanism", Str(MechanismText(r.mechanism))),
     ("constraints", ConstraintsValue(r.constraints)), ("context", Obj([("reason", Str(r.context.reason))]))]
  }

  lemma {:induction false} RemoveMisses(name: string, ms: seq<(string, Json)>)
    requires !HasName(name, ms)
    ensures Remove(name, ms) == ms
  {
    if ms != [] {
      assert ms[0].0 != name;
      assert forall i :: 0 <= i < |ms| - 1 ==> ms[1..][i] == ms[i + 1];
      RemoveMisses(name, ms[1..]);
    }
  }

  lemma {:induction false} RemoveInsideMisses(outer: string, name: string, ms: seq<(string, Json)>, m: (string, Json))
    requires !HasName(outer, ms) && m.0 == outer && m.1.Obj?
    ensures RemoveInside(outer, name, ms + [m]) == ms + [(outer, Obj(Remove(name, m.1.members)))]
  {
    if ms == [] {
      assert ms + [m] == [m];
    } else {
      assert ms[0].0 != outer;
      assert (ms + [m])[1..] == ms[1..] + [m];
      assert forall i :: 0 <= i < |ms| - 1 ==> ms[1..][i] == ms[i + 1];
      RemoveInsideMisses(outer, name, ms[1..], m);
    }
  }

  lemma PayloadIs(r: AccessRequest)
    ensures Payload(r) == Canon(Obj(MacMembers(r)))
  {
    var context := ("context", Obj(ContextMembers(r.context)));
    var head := MacMembers(r)[..3];
    var all := RequestMembers(r);
    assert all[1..] == head + [context];
    RemoveMisses("idempotency_key", all[1..]);
    RemoveInsideMisses("context", "structured", head, context);
    var ms := ContextMembers(r.context);
    var reason := [("reason", Str(r.context.reason))];
    assert ms[1..] == Optional("structured", r.context.structured);
    if r.context.structured.Some? {
      assert Remove("structured", ms[1..]) == Remove("structured", ms[1..][1..]);
      RemoveMisses("structured", ms[1..][1..]);
    } else {
      RemoveMisses("structured", ms[1..]);
    }
    assert Remove("structured", ms) == reason;
    assert head + [("context", Obj(reason))] == MacMembers(r);
  }

  lemma {:induction false} NatTextIsNumber(n: nat)
    ensures NumberText(Envelope.NatText(n)) && forall i :: 0 <= i < |Envelope.NatText(n)| ==> '0' <= Envelope.NatText(n)[i] <= '9'
  {
    if n >= 10 {
      NatTextIsNumber(n / 10);
    }
  }

  lemma OriginIsValid(o: Origin)
    ensures Valid(OriginValue(o))
  {
    if o.port.Some? {
      NatTextIsNumber(o.port.value);
    }
  }

  lemma StringsAreValid(ss: seq<string>)
    ensures Valid(StringsValue(ss))
  {
    assert forall i :: 0 <= i < |ss| ==> StringsValue(ss).items[i] == Str(ss[i]);
  }

  lemma ConstraintsAreValid(c: Constraints)
    ensures Valid(ConstraintsValue(c))
  {
    forall i | 0 <= i < |c.origins| ensures Valid(OriginValue(c.origins[i])) {
      OriginIsValid(c.origins[i]);
    }
    NatTextIsNumber(c.ttlSeconds);
    if c.maxUses.Some? {
      NatTextIsNumber(c.maxUses.value);
    }
    StringsAreValid(c.methods);
    StringsAreValid(c.pathPrefixes);
  }

  lemma MacMembersAreValid(r: AccessRequest)
    ensures Valid(Obj(MacMembers(r)))
  {
    ConstraintsAreValid(r.constraints);
  }

  lemma OptionalsDiffer(xs: seq<(string, Json)>, ys: seq<(string, Json)>, name: string, m: Option<nat>, n: Option<nat>)
    requires !HasName(name, xs) && !HasName(name, ys)
    requires Equiv(Obj(xs + Optional(name, OptionalNat(m))), Obj(ys + Optional(name, OptionalNat(n))))
    ensures m == n
  {
    var (p, q) := (xs + Optional(name, OptionalNat(m)), ys + Optional(name, OptionalNat(n)));
    assert HasName(name, p) <==> HasName(name, q);
    if m.Some? {
      assert p[|xs|].0 == name;
    }
    if n.Some? {
      assert q[|ys|].0 == name;
    }
    if m.Some? && n.Some? {
      assert Equiv(p[|xs|].1, q[|ys|].1);
      Envelope.NatInjective(m.value, n.value);
    }
  }

  lemma OriginsDiffer(o: Origin, p: Origin)
    requires Equiv(OriginValue(o), OriginValue(p))
    ensures o == p
  {
    assert Equiv(OriginValue(o).members[0].1, OriginValue(p).members[0].1);
    OptionalsDiffer([("host", Str(o.host))], [("host", Str(p.host))], "port", o.port, p.port);
  }

  lemma StringListsDiffer(ss: seq<string>, ts: seq<string>)
    requires Equiv(StringsValue(ss), StringsValue(ts))
    ensures ss == ts
  {
    assert |ss| == |ts|;
    forall i | 0 <= i < |ss| ensures ss[i] == ts[i] {
      assert Equiv(StringsValue(ss).items[i], StringsValue(ts).items[i]);
    }
  }

  lemma OriginListsDiffer(os: seq<Origin>, ps: seq<Origin>)
    requires Equiv(OriginsValue(os), OriginsValue(ps))
    ensures os == ps
  {
    assert |os| == |ps|;
    forall i | 0 <= i < |os| ensures os[i] == ps[i] {
      assert Equiv(OriginsValue(os).items[i], OriginsValue(ps).items[i]);
      OriginsDiffer(os[i], ps[i]);
    }
  }

  lemma FieldAgrees(xs: seq<(string, Json)>, ys: seq<(string, Json)>, i: nat)
    requires Equiv(Obj(xs), Obj(ys)) && i < |xs| && i < |ys| && xs[i].0 == ys[i].0
    ensures Equiv(xs[i].1, ys[i].1)
  {
  }

  /** The constraints without `max_uses`. */
  function FixedConstraints(c: Constraints): seq<(string, Json)> {
    ConstraintsValue(c).members[..4]
  }

  lemma ConstraintsDiffer(c: Constraints, d: Constraints)
    requires Equiv(ConstraintsValue(c), ConstraintsValue(d))
    ensures c == d
  {
    var (p, q) := (ConstraintsValue(c).members, ConstraintsValue(d).members);
    assert c.origins == d.origins by {
      FieldAgrees(p, q, 0);
      OriginListsDiffer(c.origins, d.origins);
    }
    assert c.methods == d.methods by {
      FieldAgrees(p, q, 1);
      StringListsDiffer(c.methods, d.methods);
    }
    assert c.pathPrefixes == d.pathPrefixes by {
      FieldAgrees(p, q, 2);
      StringListsDiffer(c.pathPrefixes, d.pathPrefixes);
    }
    assert c.ttlSeconds == d.ttlSeconds by {
      FieldAgrees(p, q, 3);
      Envelope.NatInjective(c.ttlSeconds, d.ttlSeconds);
    }
    assert c.maxUses == d.maxUses by {
      assert p == FixedConstraints(c) + Optional("max_uses", OptionalNat(c.maxUses));
      assert q == FixedConstraints(d) + Optional("max_uses", OptionalNat(d.maxUses));
      OptionalsDiffer(FixedConstraints(c), FixedConstraints(d), "max_uses", c.maxUses, d.maxUses);
    }
  }

  predicate SameStatement(a: AccessRequest, b: AccessRequest) {
    && a.secretName == b.secretName && a.mechanism == b.mechanism && a.constraints == b.constraints
    && a.context.reason == b.context.reason
  }

  lemma MacMembersDiffer(a: AccessRequest, b: AccessRequest)
    requires Equiv(Obj(MacMembers(a)), Obj(MacMembers(b)))
    ensures SameStatement(a, b)
  {
    var (p, q) := (MacMembers(a), MacMembers(b));
    assert a.secretName == b.secretName by {
      FieldAgrees(p, q, 0);
    }
    assert a.mechanism == b.mechanism by {
      FieldAgrees(p, q, 1);
      MechanismsDiffer(a.mechanism, b.mechanism);
    }
    assert a.constraints == b.constraints by {
      FieldAgrees(p, q, 2);
      ConstraintsDiffer(a.constraints, b.constraints);
    }
    assert a.context.reason == b.context.reason by {
      FieldAgrees(p, q, 3);
      FieldAgrees(p[3].1.members, q[3].1.members, 0);
    }
  }

  /** The MAC sees everything a caller states, and neither the idempotency key nor the captured context:
      two payloads are equal exactly when the requests agree on every other field. */
  lemma PayloadDecides(a: AccessRequest, b: AccessRequest)
    ensures Payload(a) == Payload(b) <==>
            b == a.(idempotencyKey := b.idempotencyKey, context := a.context.(structured := b.context.structured))
  {
    PayloadIs(a);
    PayloadIs(b);
    if Payload(a) == Payload(b) {
      MacMembersAreValid(a);
      MacMembersAreValid(b);
      CanonDecides(Obj(MacMembers(a)), Obj(MacMembers(b)));
      MacMembersDiffer(a, b);
    }
  }

  lemma MechanismsDiffer(m: Mechanism, n: Mechanism)
    requires MechanismText(m) == MechanismText(n)
    ensures m == n
  {
    assert |MechanismText(m)| == |MechanismText(n)|;
    assert MechanismText(m)[0] == MechanismText(n)[0];
  }
}
