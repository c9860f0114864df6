/**
 * The few Python `str` operations the application relies on, with Python's
 * semantics: `strip()` removes every character for which `isspace()` holds,
 * `replace(old, new)` is one non-overlapping left-to-right pass, `x in s` is
 * substring search, `lower()` and `str(n)` for integers.
 */
module PyText {

  /** Python's `str.isspace()`: the ASCII blanks, the separators \x1c-\x1f
      and every Unicode space separator or line/paragraph separator. */
  predicate IsSpace(c: char) {
    || c == ' '
    || ('\t' <= c <= '\r')
    || ('\U{1c}' <= c <= '\U{1f}')
    || c == '\U{85}' || c == '\U{a0}' || c == '\U{1680}'
    || ('\U{2000}' <= c <= '\U{200a}')
    || c == '\U{2028}' || c == '\U{2029}' || c == '\U{202f}'
    || c == '\U{205f}' || c == '\U{3000}'
  }

  predicate AllSpace(s: string) {
    forall k :: 0 <= k < |s| ==> IsSpace(s[k])
  }

  /** Neither end of `s` is whitespace. */
  predicate Trimmed(s: string) {
    |s| == 0 || (!IsSpace(s[0]) && !IsSpace(s[|s| - 1]))
  }

  /** `s.lstrip()`: the suffix left after the maximal whitespace prefix. */
  function LStrip(s: string): (r: string)
    ensures |r| <= |s| && r == s[|s| - |r|..]
    ensures AllSpace(s[..|s| - |r|])
    ensures |r| > 0 ==> !IsSpace(r[0])
  {
    if |s| > 0 && IsSpace(s[0]) then LStrip(s[1..]) else s
  }

  /** `s.rstrip()`: the prefix left after the maximal whitespace suffix. */
  function RStrip(s: string): (r: string)
    ensures |r| <= |s| && r == s[..|r|]
    ensures AllSpace(s[|r|..])
    ensures |r| > 0 ==> !IsSpace(r[|r| - 1])
  {
    if |s| > 0 && IsSpace(s[|s| - 1]) then RStrip(s[..|s| - 1]) else s
  }

  /** `s.strip()`: the result has no whitespace at either end. */
  function Strip(s: string): (r: string)
    ensures Trimmed(r) && |r| <= |s|
  {
    var l := LStrip(s);
    var r := RStrip(l);
    assert |r| > 0 ==> r[0] == l[0];
    r
  }

  /** `s` is its stripped text with only whitespace added on both sides. */
  lemma StripPadding(s: string)
    ensures exists i | 0 <= i <= |s| - |Strip(s)| ::
              Strip(s) == s[i..i + |Strip(s)|] && AllSpace(s[..i]) && AllSpace(s[i + |Strip(s)|..])
  {
    var l := LStrip(s);
    assert Strip(s) == RStrip(l);
    StripParts(s, l, RStrip(l));
    var i := |s| - |l|;
    assert Strip(s) == s[i..i + |Strip(s)|] && AllSpace(s[..i]) && AllSpace(s[i + |Strip(s)|..]);
  }

  lemma StripParts(s: string, l: string, r: string)
    requires |l| <= |s| && l == s[|s| - |l|..] && AllSpace(s[..|s| - |l|])
    requires |r| <= |l| && r == l[..|r|] && AllSpace(l[|r|..])
    ensures var i := |s| - |l|;
            r == s[i..i + |r|] && AllSpace(s[..i]) && AllSpace(s[i + |r|..])
  {
    var i := |s| - |l|;
    assert r == s[i..i + |r|];
    assert s[i + |r|..] == l[|r|..];
  }

  /** Stripping text that is already trimmed changes nothing. */
  lemma StripTrimmed(s: string)
    requires Trimmed(s)
    ensures Strip(s) == s
  {
  }

  /** `strip()` is idempotent. */
  lemma StripIdempotent(s: string)
    ensures Strip(Strip(s)) == Strip(s)
  {
    StripTrimmed(Strip(s));
  }

  predicate StartsWith(s: string, p: string) {
    |p| <= |s| && s[..|p|] == p
  }

  predicate EndsWith(s: string, p: string) {
    |p| <= |s| && s[|s| - |p|..] == p
  }

  /** `p in s`, computed by trying each start position in turn. */
  predicate Contains(s: string, p: string)
    decreases |s|
  {
    StartsWith(s, p) || (|s| > 0 && Contains(s[1..], p))
  }

  /** `p` occurs in `s` at position `i`. */
  predicate OccursAt(s: string, p: string, i: int) {
    0 <= i && i + |p| <= |s| && s[i..i + |p|] == p
  }

  /** The search agrees with the positional definition of a substring. */
  lemma {:induction false} ContainsIffOccurs(s: string, p: string)
    ensures Contains(s, p) <==> exists i :: OccursAt(s, p, i)
    decreases |s|
  {
    if StartsWith(s, p) {
      assert OccursAt(s, p, 0);
    } else if |s| > 0 {
      ContainsIffOccurs(s[1..], p);
      if Contains(s[1..], p) {
        var i :| OccursAt(s[1..], p, i);
        assert s[1..][i..i + |p|] == s[i + 1..i + 1 + |p|];
        assert OccursAt(s, p, i + 1);
      }
      if exists i :: OccursAt(s, p, i) {
        var i :| OccursAt(s, p, i);
        assert i != 0;
        assert s[1..][i - 1..i - 1 + |p|] == s[i..i + |p|];
        assert OccursAt(s[1..], p, i - 1);
      }
    } else {
      assert forall i :: !OccursAt(s, p, i);
    }
  }

  /** A substring of a text free of `p` is free of `p` as well. */
  lemma NotContainsSlice(s: string, p: string, i: int, j: int)
    requires 0 <= i <= j <= |s|
    requires !Contains(s, p)
    ensures !Contains(s[i..j], p)
  {
    ContainsIffOccurs(s, p);
    ContainsIffOccurs(s[i..j], p);
    forall k | OccursAt(s[i..j], p, k)
      ensures OccursAt(s, p, i + k)
    {
      assert k + |p| <= j - i;
      var t := s[i..j][k..k + |p|];
      assert forall m :: 0 <= m < |p| ==> t[m] == s[i + k + m];
      assert t == s[i + k..i + k + |p|];
    }
  }

  /** `s.replace(pat, rep)`: scans left to right and rewrites each occurrence
      of `pat` that starts after the end of the previous rewritten one. */
  function Replace(s: string, pat: string, rep: string): string
    requires |pat| > 0
    decreases |s|
  {
    if |s| < |pat| then s
    else if s[..|pat|] == pat then rep + Replace(s[|pat|..], pat, rep)
    else [s[0]] + Replace(s[1..], pat, rep)
  }

  /** Replacing a pattern that does not occur leaves the text unchanged. */
  lemma {:induction false} ReplaceAbsent(s: string, pat: string, rep: string)
    requires |pat| > 0 && !Contains(s, pat)
    ensures Replace(s, pat, rep) == s
    decreases |s|
  {
    if |s| >= |pat| {
      assert !StartsWith(s, pat);
      ReplaceAbsent(s[1..], pat, rep);
    }
  }

  /** A text shorter than `p` cannot contain it. */
  lemma ShortHasNoOccurrence(s: string, p: string)
    requires |s| < |p|
    ensures !Contains(s, p)
  {
  }

  /** A text without backticks contains no pattern that opens with one. */
  lemma NoTickNoMatch(s: string, p: string)
    requires '`' !in s && |p| > 0 && p[0] == '`'
    ensures !Contains(s, p)
  {
    ContainsIffOccurs(s, p);
    forall i | 0 <= i < |s|
      ensures !OccursAt(s, p, i)
    {
      assert s[i] in s;
      if i + |p| <= |s| {
        assert s[i..i + |p|][0] == s[i];
      }
    }
  }

  /** A Markdown code fence. */
  const Fence: string := "```"

  /** Removing fences keeps a first character that is not a backtick. */
  lemma RemoveFenceHead(t: string)
    requires |t| > 0 && t[0] != '`'
    ensures var r := Replace(t, Fence, "");
            |r| > 0 && r[0] == t[0]
  {
  }

  /** Removing fences cannot create a leading double backtick. */
  lemma RemoveFenceNoDoubleHead(t: string)
    requires !StartsWith(t, "``")
    ensures !StartsWith(Replace(t, Fence, ""), "``")
  {
    if |t| >= 3 {
      if t[0] == '`' {
        assert t[1] != '`';
        RemoveFenceHead(t[1..]);
      } else {
        RemoveFenceHead(t);
      }
    }
  }

  /** After `replace("```", "")` no fence is left, even where the removed
      occurrences brought backticks next to each other. */
  lemma {:induction false} RemoveFenceComplete(s: string)
    ensures !Contains(Replace(s, Fence, ""), Fence)
    decreases |s|
  {
    var r := Replace(s, Fence, "");
    if |s| < 3 {
      assert r == s;
      ShortHasNoOccurrence(r, Fence);
    } else if s[..3] == Fence {
      assert r == Replace(s[3..], Fence, "");
      RemoveFenceComplete(s[3..]);
    } else {
      var u := Replace(s[1..], Fence, "");
      assert r == [s[0]] + u;
      RemoveFenceComplete(s[1..]);
      assert r[1..] == u;
      if s[0] == '`' {
        assert !StartsWith(s[1..], "``");
        RemoveFenceNoDoubleHead(s[1..]);
        assert !StartsWith(r, Fence);
      }
    }
  }

  /** Stripping keeps a text free of `p`. */
  lemma NotContainsStrip(s: string, p: string)
    requires !Contains(s, p)
    ensures !Contains(Strip(s), p)
  {
    var l := LStrip(s);
    NotContainsSlice(s, p, |s| - |l|, |s|);
    assert s[|s| - |l|..|s|] == l;
    NotContainsSlice(l, p, 0, |RStrip(l)|);
    assert l[0..|RStrip(l)|] == Strip(s);
  }

  /** ASCII upper case to lower case; every other character is kept. */
  function LowerChar(c: char): char {
    if 'A' <= c <= 'Z' then (c as int + 32) as char else c
  }

  function UpperChar(c: char): char {
    if 'a' <= c <= 'z' then (c as int - 32) as char else c
  }

  /** `s.lower()` restricted to ASCII letters. */
  function Lower(s: string): (r: string)
    ensures |r| == |s|
  {
    seq(|s|, i requires 0 <= i < |s| => LowerChar(s[i]))
  }

  predicate IsLowerWord(w: string) {
    forall i :: 0 <= i < |w| ==> 'a' <= w[i] <= 'z'
  }

  /** `v` spells the lower-case word `w` with each letter in either case. */
  predicate SpellsIgnoringCase(v: string, w: string) {
    && |v| == |w|
    && forall i :: 0 <= i < |v| ==> v[i] == w[i] || v[i] == UpperChar(w[i])
  }

  /** Lower-casing yields a lower-case word exactly for its case variants. */
  lemma LowerMatchesWord(v: string, w: string)
    requires IsLowerWord(w)
    ensures Lower(v) == w <==> SpellsIgnoringCase(v, w)
  {
    if SpellsIgnoringCase(v, w) {
      assert forall i :: 0 <= i < |v| ==> Lower(v)[i] == w[i];
    }
    if Lower(v) == w {
      forall i | 0 <= i < |v|
        ensures v[i] == w[i] || v[i] == UpperChar(w[i])
      {
        assert LowerChar(v[i]) == w[i];
      }
    }
  }

  predicate IsDigit(c: char) {
    '0' <= c <= '9'
  }

  function DigitChar(d: nat): (c: char)
    requires d < 10
    ensures IsDigit(c)
  {
    ('0' as int + d) as char
  }

  /** `str(n)` for a non-negative integer: decimal digits, no leading zero. */
  function NatToString(n: nat): (r: string)
    ensures |r| > 0
    ensures forall i :: 0 <= i < |r| ==> IsDigit(r[i])
    ensures |r| > 1 ==> r[0] != '0'
  {
    if n < 10 then [DigitChar(n)] else NatToString(n / 10) + [DigitChar(n % 10)]
  }

  /** Reads a string of decimal digits back as a number. */
  function DigitsValue(s: string): nat
    requires forall i :: 0 <= i < |s| ==> IsDigit(s[i])
  {
    if |s| == 0 then 0
    else
      var c := s[|s| - 1];
      assert IsDigit(c);
      DigitsValue(s[..|s| - 1]) * 10 + (c as int - '0' as int)
  }

  /** The decimal rendering reads back as the number it renders. */
  lemma {:induction false} NatToStringRoundTrip(n: nat)
    ensures DigitsValue(NatToString(n)) == n
  {
    if n >= 10 {
      var s := NatToString(n);
      assert s[..|s| - 1] == NatToString(n / 10);
      NatToStringRoundTrip(n / 10);
    }
  }

  /** Distinct numbers render as distinct strings. */
  lemma NatToStringInjective(m: nat, n: nat)
    requires NatToString(m) == NatToString(n)
    ensures m == n
  {
    NatToStringRoundTrip(m);
    NatToStringRoundTrip(n);
  }

  /* ---------------------------------------------------------------------
     `list(dict.fromkeys(xs))`: each element once, in first-appearance order.
     --------------------------------------------------------------------- */

  /** Each element once, at the position of its first occurrence. */
  function Dedup(xs: seq<string>): seq<string>
    decreases |xs|
  {
    if |xs| == 0 then []
    else
      var d := Dedup(xs[..|xs| - 1]);
      if xs[|xs| - 1] in d then d else d + [xs[|xs| - 1]]
  }

  predicate Distinct(xs: seq<string>) {
    forall i, j :: 0 <= i < j < |xs| ==> xs[i] != xs[j]
  }

  /** A list with a head is distinct when its tail is and avoids the head. */
  lemma DistinctCons(x: string, xs: seq<string>)
    ensures Distinct([x] + xs) <==> x !in xs && Distinct(xs)
  {
    var s := [x] + xs;
    if x !in xs && Distinct(xs) {
      forall i, j | 0 <= i < j < |s|
        ensures s[i] != s[j]
      {
        if i > 0 {
          assert s[i] == xs[i - 1] && s[j] == xs[j - 1];
        } else {
          assert s[j] == xs[j - 1];
        }
      }
    }
    if Distinct(s) {
      forall i, j | 0 <= i < j < |xs|
        ensures xs[i] != xs[j]
      {
        assert xs[i] == s[i + 1] && xs[j] == s[j + 1];
      }
      forall j | 0 <= j < |xs|
        ensures xs[j] != x
      {
        assert s[0] == x && xs[j] == s[j + 1];
      }
    }
  }

  /** Position of the first occurrence of `x` in `xs`. */
  function FirstIndex(xs: seq<string>, x: string): (i: nat)
    requires x in xs
    ensures i < |xs| && xs[i] == x
    ensures forall k :: 0 <= k < i ==> xs[k] != x
  {
    if xs[0] == x then 0 else 1 + FirstIndex(xs[1..], x)
  }

  /** `Dedup` keeps every element once, and orders them by first occurrence. */
  lemma {:induction false} DedupSpec(xs: seq<string>)
    ensures Distinct(Dedup(xs))
    ensures forall x :: x in Dedup(xs) <==> x in xs
    ensures forall i, j :: 0 <= i < j < |Dedup(xs)| ==>
              FirstIndex(xs, Dedup(xs)[i]) < FirstIndex(xs, Dedup(xs)[j])
    decreases |xs|
  {
    if |xs| > 0 {
      var init := xs[..|xs| - 1];
      var last := xs[|xs| - 1];
      DedupSpec(init);
      var d := Dedup(init);
      assert xs == init + [last];
      forall x | x in init
        ensures FirstIndex(xs, x) == FirstIndex(init, x)
      {
        FirstIndexPrefix(init, [last], x);
      }
      if last !in init {
        forall x | x in init
          ensures FirstIndex(xs, x) < FirstIndex(xs, last)
        {
          assert xs[FirstIndex(xs, x)] == x;
          assert FirstIndex(xs, last) == |xs| - 1 by {
            assert forall k :: 0 <= k < |xs| - 1 ==> xs[k] == init[k];
          }
        }
      }
    }
  }

  /** The first occurrence inside a prefix is the first occurrence overall. */
  lemma {:induction false} FirstIndexPrefix(a: seq<string>, b: seq<string>, x: string)
    requires x in a
    ensures FirstIndex(a + b, x) == FirstIndex(a, x)
    decreases |a|
  {
    if a[0] != x {
      assert (a + b)[1..] == a[1..] + b;
      FirstIndexPrefix(a[1..], b, x);
    }
  }

  /** Appending an element adds it to the end unless it was already there. */
  lemma DedupSnoc(xs: seq<string>, x: string)
    ensures Dedup(xs + [x]) == if x in Dedup(xs) then Dedup(xs) else Dedup(xs) + [x]
  {
    assert (xs + [x])[..|xs|] == xs;
  }

  /* ---------------------------------------------------------------------
     `"".join(f(x) for x in xs)`.
     --------------------------------------------------------------------- */

  function ConcatMap<T>(xs: seq<T>, f: T -> string): string
    decreases |xs|
  {
    if |xs| == 0 then "" else f(xs[0]) + ConcatMap(xs[1..], f)
  }

  /** The pieces before `k`, piece `k`, then the pieces after it. */
  lemma {:induction false} ConcatMapSplit<T>(xs: seq<T>, f: T -> string, k: nat)
    requires k < |xs|
    ensures ConcatMap(xs, f) == ConcatMap(xs[..k], f) + f(xs[k]) + ConcatMap(xs[k + 1..], f)
    decreases k
  {
    if k == 0 {
      assert xs[..0] == [];
    } else {
      ConcatMapSplit(xs[1..], f, k - 1);
      assert xs[1..][..k - 1] == xs[1..k] == xs[..k][1..];
      assert xs[1..][k - 1] == xs[k];
      assert xs[1..][k..] == xs[k + 1..];
    }
  }

  /** Piece `k` of the joined text starts right after the pieces before it,
      whatever text surrounds the whole. */
  lemma ConcatMapAt<T>(head: string, xs: seq<T>, f: T -> string, k: nat, tail: string)
    requires k < |xs|
    ensures OccursAt(head + ConcatMap(xs, f) + tail, f(xs[k]), |head| + |ConcatMap(xs[..k], f)|)
  {
    ConcatMapSplit(xs, f, k);
    InMiddle(head, ConcatMap(xs[..k], f), f(xs[k]), ConcatMap(xs[k + 1..], f), tail);
  }

  /** A piece between others occurs right after what precedes it. */
  lemma InMiddle(h: string, a: string, b: string, c: string, t: string)
    ensures OccursAt(h + (a + b + c) + t, b, |h| + |a|)
  {
    var r := h + (a + b + c) + t;
    assert r == (h + a) + b + (c + t);
    assert r[|h + a|..|h + a| + |b|] == b;
  }
}
