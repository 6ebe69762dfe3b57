/**
 * String operations of Python's `str` that the modelled code relies on:
 * `in`, `replace`, `strip`, `lower`, `split(sep)[0]`, `join` and `str(int)`.
 */
module Text {

  /** `sub` occurs in `s` starting at index `k`. */
  predicate OccursAt(s: string, sub: string, k: nat) {
    k + |sub| <= |s| && s[k..k + |sub|] == sub
  }

  /** Python's `sub in s`. */
  predicate Contains(s: string, sub: string) {
    exists k: nat | k <= |s| :: OccursAt(s, sub, k)
  }

  /** Python's `s.startswith(p)`. */
  predicate IsPrefix(p: string, s: string) {
    |p| <= |s| && s[..|p|] == p
  }

  lemma ContainsMiddle(a: string, x: string, b: string)
    ensures Contains(a + x + b, x)
  {
    assert (a + x + b)[|a|..|a| + |x|] == x;
    assert OccursAt(a + x + b, x, |a|);
  }

  /** An occurrence inside `x` is an occurrence inside `a + x + c`, shifted by `|a|`. */
  lemma OccursInContext(a: string, x: string, c: string, sub: string, k: nat)
    requires OccursAt(x, sub, k)
    ensures OccursAt(a + x + c, sub, |a| + k)
  {
    assert (a + x + c)[|a| + k..|a| + k + |sub|] == x[k..k + |sub|];
  }

  /** Concatenation of string pieces, as an f-string assembles its parts. */
  function Concat(pieces: seq<string>): string {
    if |pieces| == 0 then "" else pieces[0] + Concat(pieces[1..])
  }

  lemma {:induction false} ConcatSplit(pieces: seq<string>, i: nat)
    requires i < |pieces|
    ensures Concat(pieces) == Concat(pieces[..i]) + pieces[i] + Concat(pieces[i + 1..])
  {
    if i > 0 {
      ConcatSplit(pieces[1..], i - 1);
      assert pieces[1..][..i - 1] == pieces[1..i];
      assert pieces[1..][i - 1] == pieces[i];
      assert pieces[1..][i..] == pieces[i + 1..];
      assert pieces[..i][1..] == pieces[1..i];
    } else {
      assert pieces[..0] == [];
    }
  }

  /** Every piece occurs in the concatenation, right after the pieces before it. */
  lemma ConcatOccurs(pieces: seq<string>, i: nat)
    requires i < |pieces|
    ensures OccursAt(Concat(pieces), pieces[i], |Concat(pieces[..i])|)
    ensures Contains(Concat(pieces), pieces[i])
  {
    ConcatSplit(pieces, i);
    ContainsMiddle(Concat(pieces[..i]), pieces[i], Concat(pieces[i + 1..]));
    OccursInContext(Concat(pieces[..i]), pieces[i], Concat(pieces[i + 1..]), pieces[i], 0);
  }

  /**
   * Python's `s.replace(pat, rep)`: scan left to right and replace every
   * non-overlapping occurrence of `pat`.
   */
  function ReplaceAll(s: string, pat: string, rep: string): string
    requires |pat| > 0
    decreases |s|
  {
    if |s| == 0 then []
    else if IsPrefix(pat, s) then rep + ReplaceAll(s[|pat|..], pat, rep)
    else [s[0]] + ReplaceAll(s[1..], pat, rep)
  }

  /** Replacing one character by one character rewrites the string position by position. */
  lemma {:induction false} ReplaceCharPointwise(s: string, pat: string, rep: string)
    requires |pat| == 1 && |rep| == 1
    ensures |ReplaceAll(s, pat, rep)| == |s|
    ensures forall i :: 0 <= i < |s| ==>
              ReplaceAll(s, pat, rep)[i] == (if s[i] == pat[0] then rep[0] else s[i])
    decreases |s|
  {
    if |s| > 0 {
      ReplaceCharPointwise(s[1..], pat, rep);
      var r := ReplaceAll(s, pat, rep);
      var head := if s[0] == pat[0] then rep else [s[0]];
      assert IsPrefix(pat, s) <==> s[0] == pat[0];
      assert r == head + ReplaceAll(s[1..], pat, rep);
      forall i | 0 <= i < |s|
        ensures r[i] == (if s[i] == pat[0] then rep[0] else s[i])
      {
        if i > 0 {
          assert r[i] == ReplaceAll(s[1..], pat, rep)[i - 1];
          assert s[i] == s[1..][i - 1];
        }
      }
    }
  }

  /** Replacing a one-character pattern by text that lacks that character removes it entirely. */
  lemma {:induction false} ReplaceCharRemoves(s: string, pat: string, rep: string)
    requires |pat| == 1 && pat[0] !in rep
    ensures pat[0] !in ReplaceAll(s, pat, rep)
    decreases |s|
  {
    if |s| > 0 {
      ReplaceCharRemoves(s[1..], pat, rep);
      assert IsPrefix(pat, s) <==> s[0] == pat[0];
    }
  }

  /** `replace` leaves a string alone when the pattern's first character is absent. */
  lemma {:induction false} ReplaceAbsent(s: string, pat: string, rep: string)
    requires |pat| > 0 && pat[0] !in s
    ensures ReplaceAll(s, pat, rep) == s
    decreases |s|
  {
    if |s| > 0 {
      ReplaceAbsent(s[1..], pat, rep);
      assert !IsPrefix(pat, s) by { assert s[0] != pat[0]; }
      assert s == [s[0]] + s[1..];
    }
  }

  /** A string shorter than the pattern is left alone. */
  lemma {:induction false} ReplaceShort(s: string, pat: string, rep: string)
    requires |s| < |pat|
    ensures ReplaceAll(s, pat, rep) == s
    decreases |s|
  {
    if |s| > 0 {
      ReplaceShort(s[1..], pat, rep);
      assert s == [s[0]] + s[1..];
    }
  }

  /** A prefix free of the pattern's first character is copied unchanged. */
  lemma {:induction false} ReplaceAfterAbsent(b: string, t: string, pat: string, rep: string)
    requires |pat| > 0 && pat[0] !in b
    ensures ReplaceAll(b + t, pat, rep) == b + ReplaceAll(t, pat, rep)
    decreases |b|
  {
    if |b| > 0 {
      ReplaceAfterAbsent(b[1..], t, pat, rep);
      var s := b + t;
      assert s[0] == b[0] && s[1..] == b[1..] + t;
      assert !IsPrefix(pat, s) by { assert s[0] != pat[0]; }
    } else {
      assert b + t == t;
    }
  }

  /** An occurrence at the front is replaced and the scan continues after it. */
  lemma ReplaceAtFront(t: string, pat: string, rep: string)
    requires |pat| > 0
    ensures ReplaceAll(pat + t, pat, rep) == rep + ReplaceAll(t, pat, rep)
  {
    assert IsPrefix(pat, pat + t);
    assert (pat + t)[|pat|..] == t;
  }

  /** The string starts with two backticks. */
  predicate TwoTicks(s: string) {
    |s| >= 2 && s[0] == '`' && s[1] == '`'
  }

  /** No three consecutive backticks anywhere in `s`. */
  predicate NoTripleTick(s: string) {
    forall k :: 0 <= k && k + 2 < |s| ==> !(s[k] == '`' && s[k + 1] == '`' && s[k + 2] == '`')
  }

  lemma NoTripleTickNotContains(s: string)
    requires NoTripleTick(s)
    ensures !Contains(s, "```")
  {
    forall k: nat | k <= |s|
      ensures !OccursAt(s, "```", k)
    {
      if k + 3 <= |s| {
        assert s[k..k + 3][0] == s[k] && s[k..k + 3][1] == s[k + 1] && s[k..k + 3][2] == s[k + 2];
      }
    }
  }

  lemma TripleTickPrefix(s: string)
    ensures IsPrefix("```", s) <==> |s| >= 3 && s[0] == '`' && s[1] == '`' && s[2] == '`'
  {
    if |s| >= 3 {
      assert s[..3] == [s[0], s[1], s[2]];
    }
  }

  /**
   * Removing every "```" in one left-to-right pass leaves no "```": each run of
   * backticks shrinks to its length modulo three and runs are never joined.
   */
  lemma {:induction false} RemoveTripleTicks(s: string)
    ensures NoTripleTick(ReplaceAll(s, "```", ""))
    ensures !TwoTicks(s) ==> !TwoTicks(ReplaceAll(s, "```", ""))
    decreases |s|
  {
    var r := ReplaceAll(s, "```", "");
    if |s| == 0 {
    } else if IsPrefix("```", s) {
      RemoveTripleTicks(s[3..]);
      assert r == ReplaceAll(s[3..], "```", "");
    } else {
      var u := s[1..];
      RemoveTripleTicks(u);
      var ru := ReplaceAll(u, "```", "");
      assert r == [s[0]] + ru;
      TripleTickPrefix(s);
      if s[0] == '`' {
        assert |u| >= 2 ==> u[0] == s[1] && u[1] == s[2];
        assert !TwoTicks(ru);
      }
      forall k | 0 <= k && k + 2 < |r|
        ensures !(r[k] == '`' && r[k + 1] == '`' && r[k + 2] == '`')
      {
        if k > 0 {
          assert r[k] == ru[k - 1] && r[k + 1] == ru[k] && r[k + 2] == ru[k + 1];
        }
      }
      if !TwoTicks(s) && |u| > 0 && s[0] == '`' {
        assert u[0] != '`';
        assert !IsPrefix("```", u);
        assert ru == [u[0]] + ReplaceAll(u[1..], "```", "");
      }
    }
  }

  /** Round trip of the space encoding: decoding "%20" restores a string that had no '%'. */
  lemma {:induction false} SpaceEncodingRoundTrip(s: string)
    requires '%' !in s
    ensures ReplaceAll(ReplaceAll(s, " ", "%20"), "%20", " ") == s
    decreases |s|
  {
    if |s| > 0 {
      SpaceEncodingRoundTrip(s[1..]);
      var e := ReplaceAll(s[1..], " ", "%20");
      if s[0] == ' ' {
        assert IsPrefix(" ", s);
        assert ReplaceAll(s, " ", "%20") == "%20" + e;
        assert IsPrefix("%20", "%20" + e);
        assert ("%20" + e)[3..] == e;
      } else {
        assert !IsPrefix(" ", s) && s[0] != '%';
        assert ReplaceAll(s, " ", "%20") == [s[0]] + e;
        assert ([s[0]] + e)[0] == s[0];
        assert !IsPrefix("%20", [s[0]] + e);
        assert ([s[0]] + e)[1..] == e;
      }
    }
  }

  /**
   * Python's `str.isspace()` for one character: the ASCII separators
   * HT, LF, VT, FF, CR, FS, GS, RS, US and space, plus the Unicode spaces.
   */
  predicate IsSpace(c: char) {
    c == ' ' || '\t' <= c <= '\r' || '\U{1C}' <= c <= '\U{1F}'
    || c == '\U{85}' || c == '\U{A0}' || c == '\U{1680}'
    || '\U{2000}' <= c <= '\U{200A}' || c == '\U{2028}' || c == '\U{2029}'
    || c == '\U{202F}' || c == '\U{205F}' || c == '\U{3000}'
  }

  /** Number of whitespace characters `strip()` removes at the front. */
  function LeadingSpaces(s: string): (n: nat)
    ensures n <= |s|
    ensures forall k :: 0 <= k < n ==> IsSpace(s[k])
    ensures n < |s| ==> !IsSpace(s[n])
  {
    if |s| > 0 && IsSpace(s[0]) then 1 + LeadingSpaces(s[1..]) else 0
  }

  /** Number of whitespace characters `strip()` removes at the back. */
  function TrailingSpaces(s: string): (n: nat)
    ensures n <= |s|
    ensures forall k :: |s| - n <= k < |s| ==> IsSpace(s[k])
    ensures n < |s| ==> !IsSpace(s[|s| - 1 - n])
  {
    if |s| > 0 && IsSpace(s[|s| - 1]) then 1 + TrailingSpaces(s[..|s| - 1]) else 0
  }

  /**
   * Python's `s.strip()`: the slice of `s` that starts at its first
   * non-whitespace character and ends at its last one.
   */
  function Strip(s: string): (r: string)
    ensures LeadingSpaces(s) + |r| <= |s|
    ensures r == s[LeadingSpaces(s)..LeadingSpaces(s) + |r|]
    ensures forall k :: 0 <= k < LeadingSpaces(s) ==> IsSpace(s[k])
    ensures forall k :: LeadingSpaces(s) + |r| <= k < |s| ==> IsSpace(s[k])
    ensures |r| > 0 ==> !IsSpace(r[0]) && !IsSpace(r[|r| - 1])
  {
    var i := LeadingSpaces(s);
    var t := s[i..];
    var n := TrailingSpaces(t);
    assert forall k :: i + |t| - n <= k < |s| ==> s[k] == t[k - i];
    assert t[..|t| - n] == s[i..i + |t| - n];
    t[..|t| - n]
  }

  /**
   * `Strip` is the only slice with whitespace-free ends whose surroundings
   * are all whitespace.
   */
  lemma StripUnique(s: string, i: nat, j: nat)
    requires i <= j <= |s|
    requires forall k :: 0 <= k < i ==> IsSpace(s[k])
    requires forall k :: j <= k < |s| ==> IsSpace(s[k])
    requires i < j ==> !IsSpace(s[i]) && !IsSpace(s[j - 1])
    ensures Strip(s) == s[i..j]
  {
    var r := Strip(s);
    var a := LeadingSpaces(s);
    var b := a + |r|;
    assert a < |s| ==> !IsSpace(s[a]);
    assert |r| > 0 ==> s[b - 1] == r[|r| - 1];
    assert i < j ==> a == i;
    assert i < j ==> b == j;
    assert i == j ==> a == |s|;
  }

  /** Stripping twice is stripping once. */
  lemma StripIdempotent(s: string)
    ensures Strip(Strip(s)) == Strip(s)
  {
    var r := Strip(s);
    StripUnique(r, 0, |r|);
  }

  /** Python's `lower()` restricted to ASCII letters. */
  function LowerChar(c: char): char {
    if 'A' <= c <= 'Z' then (c as int + 32) as char else c
  }

  function Lower(s: string): (r: string)
    ensures |r| == |s|
  {
    seq(|s|, i requires 0 <= i < |s| => LowerChar(s[i]))
  }

  /** Lower-casing commutes with slicing. */
  lemma LowerSlice(s: string, i: nat, j: nat)
    requires i <= j <= |s|
    ensures Lower(s)[i..j] == Lower(s[i..j])
  {
  }

  /** Python's `sep.join(xs)`. */
  function Join(xs: seq<string>, sep: string): string {
    if |xs| == 0 then ""
    else if |xs| == 1 then xs[0]
    else xs[0] + sep + Join(xs[1..], sep)
  }

  function DigitChar(d: nat): (c: char)
    requires d < 10
    ensures '0' <= c <= '9'
    ensures c == '0' <==> d == 0
  {
    "0123456789"[d]
  }

  function NatToString(n: nat): (r: string)
    ensures |r| > 0
    ensures forall i :: 0 <= i < |r| ==> '0' <= r[i] <= '9'
    // No leading zero.
    ensures r[0] == '0' <==> n == 0
    decreases n
  {
    if n < 10 then [DigitChar(n)] else NatToString(n / 10) + [DigitChar(n % 10)]
  }

  /** Python's `str(n)` / `f"{n}"` for an integer. */
  function IntToString(n: int): (r: string)
    ensures |r| > 0
  {
    if n < 0 then "-" + NatToString(-n) else NatToString(n)
  }

  /** The digit a character stands for, for `'0'` .. `'9'`. */
  function DigitValue(c: char): int {
    c as int - '0' as int
  }

  /** Reads a string of decimal digits, most significant first. */
  function ParseNat(s: string): int {
    if |s| == 0 then 0 else 10 * ParseNat(s[..|s| - 1]) + DigitValue(s[|s| - 1])
  }

  lemma DigitRoundTrip(d: nat)
    requires d < 10
    ensures DigitValue(DigitChar(d)) == d
  {
    if d == 0 { assert DigitChar(d) == '0'; }
    else if d == 1 { assert DigitChar(d) == '1'; }
    else if d == 2 { assert DigitChar(d) == '2'; }
    else if d == 3 { assert DigitChar(d) == '3'; }
    else if d == 4 { assert DigitChar(d) == '4'; }
    else if d == 5 { assert DigitChar(d) == '5'; }
    else if d == 6 { assert DigitChar(d) == '6'; }
    else if d == 7 { assert DigitChar(d) == '7'; }
    else if d == 8 { assert DigitChar(d) == '8'; }
    else { assert DigitChar(d) == '9'; }
  }

  /** Reading back the decimal text of `n` gives `n`. */
  lemma {:induction false} NatToStringRoundTrip(n: nat)
    ensures ParseNat(NatToString(n)) == n
    decreases n
  {
    var s := NatToString(n);
    DigitRoundTrip(n % 10);
    if n < 10 {
      assert s[..|s| - 1] == [];
    } else {
      NatToStringRoundTrip(n / 10);
      assert s[..|s| - 1] == NatToString(n / 10);
    }
  }

  /** Python's `int(x)`: truncation toward zero. */
  function Trunc(x: real): (r: int)
    ensures 0.0 <= x ==> r as real <= x < r as real + 1.0
    ensures x < 0.0 ==> r as real - 1.0 < x <= r as real
  {
    if x >= 0.0 then x.Floor else -((-x).Floor)
  }

  /** An occurrence past the first character is an occurrence in the tail. */
  lemma OccursShift(s: string, sub: string)
    requires |s| > 0
    ensures forall k: nat :: 0 < k ==> (OccursAt(s, sub, k) <==> OccursAt(s[1..], sub, k - 1))
  {
    forall k: nat | 0 < k
      ensures OccursAt(s, sub, k) <==> OccursAt(s[1..], sub, k - 1)
    {
      if k + |sub| <= |s| {
        var t := s[1..];
        assert forall j :: k <= j < k + |sub| ==> s[j] == t[j - 1];
        assert s[k..k + |sub|] == t[k - 1..k - 1 + |sub|];
      }
    }
  }

  /**
   * Python's `s.split(sep)[0]`: the part of `s` before the first occurrence
   * of `sep`, or all of `s` when `sep` does not occur.
   */
  function BeforeFirst(s: string, sep: string): (r: string)
    requires |sep| > 0
    ensures IsPrefix(r, s)
    ensures forall k: nat :: k < |r| ==> !OccursAt(s, sep, k)
    ensures |r| < |s| ==> OccursAt(s, sep, |r|)
    decreases |s|
  {
    if |s| == 0 || IsPrefix(sep, s) then ""
    else
      OccursShift(s, sep);
      [s[0]] + BeforeFirst(s[1..], sep)
  }
}
