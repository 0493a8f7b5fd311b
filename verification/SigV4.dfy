/**
  The headers that a SigV4 signature covers: names lowered, values collapsed,
  sorted by name and folded so that each name appears once.
 */
module SigV4 {
  import opened Chars
  import opened Sorting

  type Header = (string, string)

  /** The words of `word + v`, where `word` is a word begun. */
  function WordsFrom(word: string, v: string): seq<string>
    decreases v
  {
    if v == "" then (if word == "" then [] else [word])
    else if !IsSpace(v[0]) then WordsFrom(word + [v[0]], v[1..])
    else (if word == "" then [] else [word]) + WordsFrom("", v[1..])
  }

  /** `split_whitespace`. */
  function Words(v: string): seq<string> {
    WordsFrom("", v)
  }

  /** `join`: the texts with `separator` between them. */
  function Join(separator: string, texts: seq<string>): string {
    if texts == [] then ""
    else if |texts| == 1 then texts[0]
    else Join(separator, texts[..|texts| - 1]) + separator + texts[|texts| - 1]
  }

  function CanonicalValue(v: string): string {
    Join(" ", Words(v))
  }

  /** The list before sorting. */
  function Prepared(extra: seq<Header>, host: string, contentSha256: string, amzDate: string): seq<Header> {
    seq(|extra|, i requires 0 <= i < |extra| => (Lowered(extra[i].0), CanonicalValue(extra[i].1)))
    + [("host", host), ("x-amz-content-sha256", contentSha256), ("x-amz-date", amzDate)]
  }

  // ---------- what folding means ----------

  predicate Below(a: string, b: string) {
    Leq(a, b) && a != b
  }

  ghost predicate Increasing(folded: seq<Header>) {
    forall i, j :: 0 <= i < j < |folded| ==> Below(folded[i].0, folded[j].0)
  }

  /** One line for each name, in increasing order, holding the values of that name in the order they
      were given, joined by commas. */
  ghost predicate Folds(folded: seq<Header>, headers: seq<Header>) {
    && Increasing(folded)
    && (forall name :: HasName(name, folded) <==> HasName(name, headers))
    && (forall i :: 0 <= i < |folded| ==> folded[i].1 == Join(",", ValuesOf(folded[i].0, headers)))
  }

  /** That leaves no choice. */
  lemma {:induction false} FoldsUnique(a: seq<Header>, b: seq<Header>, headers: seq<Header>)
    requires Folds(a, headers) && Folds(b, headers)
    ensures a == b
  {
    forall e | e in a ensures e in b { Transfer(a, b, headers, e); }
    forall e | e in b ensures e in a { Transfer(b, a, headers, e); }
    SortedUnique(a, b);
  }

  lemma Transfer(a: seq<Header>, b: seq<Header>, headers: seq<Header>, e: Header)
    requires Folds(a, headers) && Folds(b, headers) && e in a
    ensures e in b
  {
    var i :| 0 <= i < |a| && a[i] == e;
    assert HasName(e.0, a);
    assert HasName(e.0, b);
    var j :| 0 <= j < |b| && b[j].0 == e.0;
    assert b[j] == e;
  }

  // ---------- the loop ----------

  lemma {:induction false} ValuesSnoc(name: string, headers: seq<Header>, h: Header)
    ensures ValuesOf(name, headers + [h]) ==
              if h.0 == name then ValuesOf(name, headers) + [h.1] else ValuesOf(name, headers)
  {
    if headers == [] {
      assert headers + [h] == [h];
    } else {
      assert (headers + [h])[1..] == headers[1..] + [h];
      ValuesSnoc(name, headers[1..], h);
    }
  }

  lemma {:induction false} ValuesNamed(name: string, headers: seq<Header>)
    ensures ValuesOf(name, headers) != [] <==> HasName(name, headers)
  {
    if headers != [] {
      ValuesNamed(name, headers[1..]);
      NamedHead(name, headers);
    }
  }

  lemma NamedHead(name: string, headers: seq<Header>)
    requires headers != []
    ensures HasName(name, headers) <==> headers[0].0 == name || HasName(name, headers[1..])
  {
    if HasName(name, headers[1..]) {
      var i :| 0 <= i < |headers| - 1 && headers[1..][i].0 == name;
      assert headers[i + 1].0 == name;
    }
    forall i | 0 < i < |headers| && headers[i].0 == name ensures HasName(name, headers[1..]) {
      assert headers[1..][i - 1].0 == name;
    }
  }

  lemma NamedSnoc(name: string, headers: seq<Header>, h: Header)
    ensures HasName(name, headers + [h]) <==> HasName(name, headers) || h.0 == name
  {
    if HasName(name, headers) {
      var i :| 0 <= i < |headers| && headers[i].0 == name;
      assert (headers + [h])[i].0 == name;
    }
    assert (headers + [h])[|headers|] == h;
  }

  lemma NamedUpdate(name: string, folded: seq<Header>, i: nat, v: string)
    requires i < |folded|
    ensures HasName(name, folded[i := (folded[i].0, v)]) <==> HasName(name, folded)
  {
    var updated := folded[i := (folded[i].0, v)];
    if HasName(name, folded) {
      var k :| 0 <= k < |folded| && folded[k].0 == name;
      assert updated[k].0 == name;
    }
  }

  /** A repeated name extends the last line. */
  lemma ExtendKeeps(folded: seq<Header>, headers: seq<Header>, h: Header)
    requires Folds(folded, headers) && folded != [] && folded[|folded| - 1].0 == h.0
    ensures var last := |folded| - 1;
            Folds(folded[last := (h.0, folded[last].1 + "," + h.1)], headers + [h])
  {
    var last := |folded| - 1;
    var line := folded[last].1 + "," + h.1;
    var r := folded[last := (h.0, line)];
    forall name ensures HasName(name, r) <==> HasName(name, headers + [h]) {
      NamedUpdate(name, folded, last, line);
      NamedSnoc(name, headers, h);
      assert folded[last].0 == h.0;
    }
    forall i | 0 <= i < |r| ensures r[i].1 == Join(",", ValuesOf(r[i].0, headers + [h])) {
      ValuesSnoc(r[i].0, headers, h);
      if i == last {
        assert HasName(h.0, folded);
        ValuesNamed(h.0, headers);
        var vs := ValuesOf(h.0, headers);
        assert (vs + [h.1])[..|vs|] == vs;
      } else {
        assert Below(folded[i].0, folded[last].0);
        assert r[i] == folded[i];
      }
    }
  }

  /** A new name opens a line. */
  lemma OpenKeeps(folded: seq<Header>, headers: seq<Header>, h: Header)
    requires Folds(folded, headers)
    requires forall i :: 0 <= i < |folded| ==> Below(folded[i].0, h.0)
    ensures Folds(folded + [h], headers + [h])
  {
    var r := folded + [h];
    forall name ensures HasName(name, r) <==> HasName(name, headers + [h]) {
      NamedSnoc(name, folded, h);
      NamedSnoc(name, headers, h);
    }
    forall i | 0 <= i < |r| ensures r[i].1 == Join(",", ValuesOf(r[i].0, headers + [h])) {
      ValuesSnoc(r[i].0, headers, h);
      if i == |folded| {
        assert !HasName(h.0, folded);
        ValuesNamed(h.0, headers);
      }
    }
  }

  /** Where the sorted list stands against the lines folded so far. */
  lemma LastLine(folded: seq<Header>, headers: seq<Header>, h: Header)
    requires Sorted(headers + [h]) && Folds(folded, headers)
    requires folded == [] || folded[|folded| - 1].0 != h.0
    ensures forall i :: 0 <= i < |folded| ==> Below(folded[i].0, h.0)
  {
    var all := headers + [h];
    forall i | 0 <= i < |folded| ensures Below(folded[i].0, h.0) {
      assert HasName(folded[i].0, folded);
      var k :| 0 <= k < |headers| && headers[k].0 == folded[i].0;
      assert all[k] == headers[k] && all[|headers|] == h;
      var last := folded[|folded| - 1].0;
      if i < |folded| - 1 && folded[i].0 == h.0 {
        assert HasName(last, folded);
        var m :| 0 <= m < |headers| && headers[m].0 == last;
        assert all[m] == headers[m] && Leq(last, h.0);
        LeqAntisymmetric(last, h.0);
        assert false;
      }
    }
  }

  /** The fold loop over the sorted list. */
  method Fold(headers: seq<Header>) returns (folded: seq<Header>)
    requires Sorted(headers)
    ensures Folds(folded, headers)
  {
    folded := [];
    for i := 0 to |headers|
      invariant Folds(folded, headers[..i])
    {
      var h := headers[i];
      assert headers[..i + 1] == headers[..i] + [h];
      if folded != [] && folded[|folded| - 1].0 == h.0 {
        ExtendKeeps(folded, headers[..i], h);
        folded := folded[|folded| - 1 := (h.0, folded[|folded| - 1].1 + "," + h.1)];
      } else {
        LastLine(folded, headers[..i], h);
        OpenKeeps(folded, headers[..i], h);
        folded := folded + [h];
      }
    }
    assert headers[..|headers|] == headers;
  }

  /** Lower, collapse, add the signer's own headers, sort, fold. */
  method CanonicalHeaders(extra: seq<Header>, host: string, contentSha256: string, amzDate: string)
    returns (folded: seq<Header>)
    ensures Folds(folded, Prepared(extra, host, contentSha256, amzDate))
  {
    var headers := Prepared(extra, host, contentSha256, amzDate);
    var sorted := Sort(headers);
    SortSorts(headers);
    folded := Fold(sorted);
    forall name ensures ValuesOf(name, sorted) == ValuesOf(name, headers) && (HasName(name, sorted) <==> HasName(name, headers)) {
      SortIsStable(headers, name);
      ValuesNamed(name, sorted);
      ValuesNamed(name, headers);
    }
  }

  /** The names covered: those given, lowered, and the signer's own three. */
  lemma SignedNames(extra: seq<Header>, host: string, contentSha256: string, amzDate: string, folded: seq<Header>, name: string)
    requires Folds(folded, Prepared(extra, host, contentSha256, amzDate))
    ensures HasName(name, folded) <==>
              || name == "host" || name == "x-amz-content-sha256" || name == "x-amz-date"
              || exists i :: 0 <= i < |extra| && Lowered(extra[i].0) == name
  {
    var headers := Prepared(extra, host, contentSha256, amzDate);
    var n := |extra|;
    assert headers[n].0 == "host" && headers[n + 1].0 == "x-amz-content-sha256" && headers[n + 2].0 == "x-amz-date";
    assert forall i :: 0 <= i < n ==> headers[i].0 == Lowered(extra[i].0);
    assert HasName(name, folded) <==> HasName(name, headers);
  }

  // ---------- collapsing ----------

  ghost predicate IsWord(w: string) {
    w != "" && forall i :: 0 <= i < |w| ==> !IsSpace(w[i])
  }

  lemma {:induction false} WordsAreWords(word: string, v: string)
    requires forall i :: 0 <= i < |word| ==> !IsSpace(word[i])
    ensures forall k :: 0 <= k < |WordsFrom(word, v)| ==> IsWord(WordsFrom(word, v)[k])
    decreases v
  {
    if v == "" {
    } else if IsSpace(v[0]) {
      WordsAreWords("", v[1..]);
    } else {
      WordsAreWords(word + [v[0]], v[1..]);
    }
  }

  /** Reading on through a word, then through one space. */
  lemma {:induction false} WordsThrough(word: string, w: string, v: string)
    requires forall i :: 0 <= i < |w| ==> !IsSpace(w[i])
    ensures WordsFrom(word, w + v) == WordsFrom(word + w, v)
    decreases w
  {
    if w == "" {
      assert w + v == v && word + w == word;
    } else {
      assert (w + v)[0] == w[0] && (w + v)[1..] == w[1..] + v;
      WordsThrough(word + [w[0]], w[1..], v);
      assert word + [w[0]] + w[1..] == word + w;
    }
  }

  /** Words are found again after joining, whatever follows. */
  lemma {:induction false} JoinedWords(ws: seq<string>, rest: string)
    requires ws != [] && forall k :: 0 <= k < |ws| ==> IsWord(ws[k])
    ensures Words(Join(" ", ws) + rest) == ws[..|ws| - 1] + WordsFrom(ws[|ws| - 1], rest)
  {
    var last := ws[|ws| - 1];
    if |ws| == 1 {
      WordsThrough("", last, rest);
      assert "" + last == last;
      assert ws[..0] == [];
    } else {
      var front := ws[..|ws| - 1];
      assert IsWord(ws[|front| - 1]) && front[|front| - 1] == ws[|front| - 1];
      var tail := " " + (last + rest);
      assert Join(" ", ws) + rest == Join(" ", front) + tail;
      JoinedWords(front, tail);
      assert tail[0] == ' ' && tail[1..] == last + rest;
      WordsThrough("", last, rest);
      assert "" + last == last;
      assert front == front[..|front| - 1] + [front[|front| - 1]];
    }
  }

  /** A collapsed value is the words of the original, one space apart: collapsing again changes nothing,
      and no word is lost or moved. */
  lemma CollapsingKeepsWords(v: string)
    ensures Words(CanonicalValue(v)) == Words(v) && CanonicalValue(CanonicalValue(v)) == CanonicalValue(v)
  {
    WordsAreWords("", v);
    var ws := Words(v);
    if ws != [] {
      JoinedWords(ws, "");
      assert Join(" ", ws) + "" == Join(" ", ws);
      assert IsWord(ws[|ws| - 1]);
      assert ws[..|ws| - 1] + [ws[|ws| - 1]] == ws;
    }
  }
}
