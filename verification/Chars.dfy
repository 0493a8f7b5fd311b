/** Rust's ASCII lowering and Unicode white space. */
module Chars {
  const UPPER_LETTERS := "ABCDEFGHIJKLMNOPQRSTUVWXYZ"
  const LOWER_LETTERS := "abcdefghijklmnopqrstuvwxyz"

  function Lower(c: char): char {
    if 'A' <= c <= 'Z' then (c as int + 32) as char else c
  }

  /** `to_ascii_lowercase`. */
  function Lowered(s: string): string {
    seq(|s|, i requires 0 <= i < |s| => Lower(s[i]))
  }

  lemma LetterAt(k: nat)
    requires k < 26
    ensures UPPER_LETTERS[k] as int == 'A' as int + k && LOWER_LETTERS[k] as int == 'a' as int + k
  {
  }

  /** Each capital becomes the small letter in its place, and nothing else changes. */
  lemma LowersLetters(k: nat, c: char)
    requires k < 26
    ensures Lower(UPPER_LETTERS[k]) == LOWER_LETTERS[k]
    ensures Lower(c) == c || exists i :: 0 <= i < 26 && UPPER_LETTERS[i] == c
  {
    LetterAt(k);
    if 'A' <= c <= 'Z' {
      LetterAt(c as int - 'A' as int);
    }
  }

  /** Unicode white space, the separator of `split_whitespace`. */
  predicate IsSpace(c: char) {
    var n := c as int;
    9 <= n <= 13 || n == 0x20 || n == 0x85 || n == 0xA0 || n == 0x1680 || 0x2000 <= n <= 0x200A
    || n == 0x2028 || n == 0x2029 || n == 0x202F || n == 0x205F || n == 0x3000
  }

  function TrimStart(s: string): string {
    if s != "" && IsSpace(s[0]) then TrimStart(s[1..]) else s
  }

  function TrimEnd(s: string): string {
    if s != "" && IsSpace(s[|s| - 1]) then TrimEnd(s[..|s| - 1]) else s
  }

  function Trim(s: string): string {
    TrimEnd(TrimStart(s))
  }

  const WHITE_SPACE :=
    "\U{0009}\U{000A}\U{000B}\U{000C}\U{000D}\U{0020}\U{0085}\U{00A0}\U{1680}" +
    "\U{2000}\U{2001}\U{2002}\U{2003}\U{2004}\U{2005}\U{2006}\U{2007}\U{2008}\U{2009}\U{200A}" +
    "\U{2028}\U{2029}\U{202F}\U{205F}\U{3000}"

  /** The characters with the property White_Space, and no others. */
  lemma SpacesExactly(c: char)
    ensures IsSpace(c) <==> c in WHITE_SPACE
  {
  }

  /** Trimming takes the white space around the first and the last character that is none. */
  lemma {:induction false} TrimsEnds(before: string, core: string, after: string)
    requires (forall i :: 0 <= i < |before| ==> IsSpace(before[i])) && (forall i :: 0 <= i < |after| ==> IsSpace(after[i]))
    requires core != "" && !IsSpace(core[0]) && !IsSpace(core[|core| - 1])
    ensures Trim(before + core + after) == core
  {
    TrimsStart(before, core + after);
    assert before + core + after == before + (core + after);
    TrimsEnd(core, after);
  }

  lemma {:induction false} TrimsStart(before: string, s: string)
    requires (forall i :: 0 <= i < |before| ==> IsSpace(before[i])) && s != "" && !IsSpace(s[0])
    ensures TrimStart(before + s) == s
  {
    if before == "" {
      assert before + s == s;
    } else {
      TrimsStart(before[1..], s);
      assert (before + s)[1..] == before[1..] + s;
    }
  }

  lemma {:induction false} TrimsEnd(s: string, after: string)
    requires (forall i :: 0 <= i < |after| ==> IsSpace(after[i])) && s != "" && !IsSpace(s[|s| - 1])
    ensures TrimEnd(s + after) == s
    decreases |after|
  {
    if after == "" {
      assert s + after == s;
    } else {
      var n := |after| - 1;
      TrimsEnd(s, after[..n]);
      assert (s + after)[..|s + after| - 1] == s + after[..n];
    }
  }
}
