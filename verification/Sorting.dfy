/**
  Stable sorting of named values, names in byte order.

  Rust orders `String`s by their UTF-8 bytes, which is the order of their code
  points, and `sort`/`sort_by` are stable.
 */
module Sorting {
  predicate Leq(a: string, b: string) {
    a == "" || (b != "" && (a[0] < b[0] || (a[0] == b[0] && Leq(a[1..], b[1..]))))
  }

  lemma {:induction false} LeqTotal(a: string, b: string)
    ensures Leq(a, b) || Leq(b, a)
  {
    if a != "" && b != "" {
      LeqTotal(a[1..], b[1..]);
    }
  }

  lemma {:induction false} LeqAntisymmetric(a: string, b: string)
    requires Leq(a, b) && Leq(b, a)
    ensures a == b
  {
    if a != "" {
      LeqAntisymmetric(a[1..], b[1..]);
      assert a == [a[0]] + a[1..] && b == [b[0]] + b[1..];
    }
  }

  lemma {:induction false} LeqTransitive(a: string, b: string, c: string)
    requires Leq(a, b) && Leq(b, c)
    ensures Leq(a, c)
  {
    if a != "" {
      if a[0] == b[0] == c[0] {
        LeqTransitive(a[1..], b[1..], c[1..]);
      }
    }
  }

  ghost predicate Sorted<T>(s: seq<(string, T)>) {
    forall i, j :: 0 <= i < j < |s| ==> Leq(s[i].0, s[j].0)
  }

  /** Puts `e` before the first element whose name is not below its own. */
  function Insert<T>(e: (string, T), s: seq<(string, T)>): seq<(string, T)> {
    if s == [] || Leq(e.0, s[0].0) then [e] + s else [s[0]] + Insert(e, s[1..])
  }

  function Sort<T>(s: seq<(string, T)>): seq<(string, T)> {
    if s == [] then [] else Insert(s[0], Sort(s[1..]))
  }

  /** The values under one name, in order. */
  function ValuesOf<T>(name: string, s: seq<(string, T)>): seq<T> {
    if s == [] then []
    else if s[0].0 == name then [s[0].1] + ValuesOf(name, s[1..])
    else ValuesOf(name, s[1..])
  }

  ghost predicate HasName<T>(name: string, s: seq<(string, T)>) {
    exists i :: 0 <= i < |s| && s[i].0 == name
  }

  lemma {:induction false} InsertElements<T>(e: (string, T), s: seq<(string, T)>)
    ensures multiset(Insert(e, s)) == multiset{e} + multiset(s)
  {
    if s != [] && !Leq(e.0, s[0].0) {
      InsertElements(e, s[1..]);
      assert s == [s[0]] + s[1..];
    }
  }

  lemma {:induction false} InsertSorts<T>(e: (string, T), s: seq<(string, T)>)
    requires Sorted(s)
    ensures Sorted(Insert(e, s))
  {
    if s == [] {
    } else if Leq(e.0, s[0].0) {
      forall j | 0 <= j < |s| ensures Leq(e.0, s[j].0) {
        if j > 0 { LeqTransitive(e.0, s[0].0, s[j].0); }
      }
    } else {
      LeqTotal(e.0, s[0].0);
      InsertSorts(e, s[1..]);
      InsertElements(e, s[1..]);
      var r := Insert(e, s[1..]);
      forall j | 0 <= j < |r| ensures Leq(s[0].0, r[j].0) {
        assert r[j] in multiset(r);
        assert r[j] == e || r[j] in s[1..];
      }
    }
  }

  lemma {:induction false} SortSorts<T>(s: seq<(string, T)>)
    ensures Sorted(Sort(s)) && multiset(Sort(s)) == multiset(s)
  {
    if s != [] {
      SortSorts(s[1..]);
      InsertSorts(s[0], Sort(s[1..]));
      InsertElements(s[0], Sort(s[1..]));
      assert s == [s[0]] + s[1..];
    }
  }

  lemma {:induction false} InsertKeepsOrder<T>(e: (string, T), s: seq<(string, T)>, name: string)
    requires Sorted(s)
    ensures ValuesOf(name, Insert(e, s)) == ValuesOf(name, [e] + s)
  {
    if s != [] && !Leq(e.0, s[0].0) {
      InsertKeepsOrder(e, s[1..], name);
      var r := [s[0]] + Insert(e, s[1..]);
      assert r[1..] == Insert(e, s[1..]);
      assert ([e] + s)[1..] == s && ([e] + s[1..])[1..] == s[1..];
      LeqTotal(e.0, s[0].0);
    }
  }

  /** Stability: sorting keeps the values of each name in their order. */
  lemma {:induction false} SortIsStable<T>(s: seq<(string, T)>, name: string)
    ensures ValuesOf(name, Sort(s)) == ValuesOf(name, s)
  {
    if s != [] {
      SortIsStable(s[1..], name);
      SortSorts(s[1..]);
      InsertKeepsOrder(s[0], Sort(s[1..]), name);
      assert ([s[0]] + Sort(s[1..]))[1..] == Sort(s[1..]);
    }
  }

  ghost predicate DistinctNames<T>(s: seq<(string, T)>) {
    forall i, j :: 0 <= i < j < |s| ==> s[i].0 != s[j].0
  }

  /** Sorted sequences of distinct names are determined by what they hold. */
  lemma {:induction false} SortedUnique<T>(x: seq<(string, T)>, y: seq<(string, T)>)
    requires Sorted(x) && Sorted(y) && DistinctNames(x) && DistinctNames(y)
    requires forall e :: e in x <==> e in y
    ensures x == y
  {
    assert x != [] ==> x[0] in y;
    assert y != [] ==> y[0] in x;
    if x != [] {
      if x[0] != y[0] {
        LeqAntisymmetric(x[0].0, y[0].0);
      }
      forall e ensures e in x[1..] <==> e in y[1..] {
        assert e in x[1..] <==> (e in x && e != x[0]);
        assert e in y[1..] <==> (e in y && e != y[0]);
      }
      SortedUnique(x[1..], y[1..]);
      assert x == [x[0]] + x[1..] && y == [y[0]] + y[1..];
    }
  }

  /** A multiset of distinct names stays one under reordering. */
  lemma DistinctReordered<T>(x: seq<(string, T)>, y: seq<(string, T)>)
    requires DistinctNames(x) && multiset(x) == multiset(y)
    ensures DistinctNames(y)
  {
    forall i, j | 0 <= i < j < |y| ensures y[i].0 != y[j].0 {
      if y[i] == y[j] {
        Repeats(y, i, j);
        NoRepeats(x, y[i]);
      } else {
        assert y[i] in multiset(x) && y[j] in multiset(x);
      }
    }
  }

  lemma Repeats<E>(s: seq<E>, i: nat, j: nat)
    requires i < j < |s| && s[i] == s[j]
    ensures multiset(s)[s[i]] >= 2
  {
    assert s == s[..i] + [s[i]] + s[i + 1..j] + [s[j]] + s[j + 1..];
  }

  lemma {:induction false} NoRepeats<T>(s: seq<(string, T)>, e: (string, T))
    requires DistinctNames(s)
    ensures multiset(s)[e] <= 1
  {
    if s != [] {
      NoRepeats(s[1..], e);
      assert s == [s[0]] + s[1..];
      if e == s[0] {
        assert e !in s[1..];
      }
    }
  }
}
