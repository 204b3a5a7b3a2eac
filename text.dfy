/**
 * Character classes and string operations of the Rust standard library that the
 * downloader relies on: `char::is_whitespace`, `str::trim`, ASCII case folding,
 * `str::split`, `str::replace`, `trim_start_matches`, integer parsing and decimal
 * formatting.
 */
module Text {
  import opened Wrappers

  // ---------------------------------------------------------------------------
  // Character classes
  // ---------------------------------------------------------------------------

  predicate IsAsciiDigit(c: char) { '0' <= c <= '9' }

  predicate IsAsciiAlphabetic(c: char) { 'a' <= c <= 'z' || 'A' <= c <= 'Z' }

  /** `char::is_alphanumeric`, restricted to ASCII letters and digits. */
  predicate IsAlphanumeric(c: char) { IsAsciiDigit(c) || IsAsciiAlphabetic(c) }

  /** `char::is_whitespace`: the Unicode White_Space property. */
  predicate IsWhitespace(c: char)
  {
    var n := c as int;
    (0x09 <= n <= 0x0D) || n == 0x20 || n == 0x85 || n == 0xA0 || n == 0x1680
    || (0x2000 <= n <= 0x200A) || n == 0x2028 || n == 0x2029 || n == 0x202F
    || n == 0x205F || n == 0x3000
  }

  function ToLowerChar(c: char): (r: char)
    ensures 'A' <= c <= 'Z' ==> 'a' <= r <= 'z' && r as int == c as int + 32
    ensures !('A' <= c <= 'Z') ==> r == c
  {
    if 'A' <= c <= 'Z' then (c as int + 32) as char else c
  }

  /** `str::to_lowercase` on ASCII text. */
  function ToLower(s: string): (r: string)
    ensures |r| == |s|
    ensures forall i :: 0 <= i < |s| ==> r[i] == ToLowerChar(s[i])
  {
    seq(|s|, i requires 0 <= i < |s| => ToLowerChar(s[i]))
  }

  /** Text without upper-case letters is its own lower case. */
  lemma ToLowerKeeps(s: string)
    requires forall i :: 0 <= i < |s| ==> !('A' <= s[i] <= 'Z')
    ensures ToLower(s) == s
  {
  }

  lemma ToLowerIdempotent(s: string)
    ensures ToLower(ToLower(s)) == ToLower(s)
  {
  }

  // ---------------------------------------------------------------------------
  // Prefixes and trimming
  // ---------------------------------------------------------------------------

  /** The longest prefix of `s` whose characters all pass `test`. */
  function TakeWhile(s: string, test: char -> bool): (r: string)
    ensures |r| <= |s| && r == s[..|r|]
    ensures forall i :: 0 <= i < |r| ==> test(r[i])
    ensures |r| == |s| || !test(s[|r|])
  {
    if s == [] || !test(s[0]) then [] else [s[0]] + TakeWhile(s[1..], test)
  }

  /** A prefix whose characters pass `test` and that stops at a failing character is the longest one. */
  lemma {:induction false} TakeWhileUnique(s: string, test: char -> bool, n: nat)
    requires n <= |s|
    requires forall i :: 0 <= i < n ==> test(s[i])
    requires n == |s| || !test(s[n])
    ensures TakeWhile(s, test) == s[..n]
  {
    if n > 0 {
      TakeWhileUnique(s[1..], test, n - 1);
      assert s[..n] == [s[0]] + s[1..][..n - 1];
    }
  }

  /** `trim_start`: drops leading whitespace. */
  function TrimStart(s: string): (r: string)
    ensures |r| <= |s|
    ensures r == [] || !IsWhitespace(r[0])
  {
    if s != [] && IsWhitespace(s[0]) then TrimStart(s[1..]) else s
  }

  /** What `trim_start` drops is whitespace, and what it keeps is the rest of the text. */
  lemma {:induction false} TrimStartDrops(s: string)
    ensures var r := TrimStart(s);
      r == s[|s| - |r|..] && forall i :: 0 <= i < |s| - |r| ==> IsWhitespace(s[i])
  {
    if s != [] && IsWhitespace(s[0]) {
      TrimStartDrops(s[1..]);
    }
  }

  /** `trim_end`: drops trailing whitespace. */
  function TrimEnd(s: string): (r: string)
    ensures |r| <= |s|
    ensures r == [] || !IsWhitespace(r[|r| - 1])
  {
    if s != [] && IsWhitespace(s[|s| - 1]) then TrimEnd(s[..|s| - 1]) else s
  }

  /** What `trim_end` drops is whitespace, and what it keeps is the start of the text. */
  lemma {:induction false} TrimEndDrops(s: string)
    ensures var r := TrimEnd(s);
      r == s[..|r|] && forall i :: |r| <= i < |s| ==> IsWhitespace(s[i])
  {
    if s != [] && IsWhitespace(s[|s| - 1]) {
      TrimEndDrops(s[..|s| - 1]);
    }
  }

  /** `str::trim`. */
  function Trim(s: string): (r: string)
    ensures |r| <= |s|
    ensures r == [] || (!IsWhitespace(r[0]) && !IsWhitespace(r[|r| - 1]))
  {
    TrimEndDrops(TrimStart(s));
    TrimEnd(TrimStart(s))
  }

  /** Trimming text that neither starts nor ends with whitespace changes nothing. */
  lemma TrimIdentity(s: string)
    requires s == [] || (!IsWhitespace(s[0]) && !IsWhitespace(s[|s| - 1]))
    ensures Trim(s) == s
  {
  }

  /** A string of digits has no whitespace to trim. */
  lemma TrimDigits(d: string)
    requires forall i :: 0 <= i < |d| ==> IsAsciiDigit(d[i])
    ensures Trim(d) == d
  {
    if d != [] {
      assert IsAsciiDigit(d[0]) && IsAsciiDigit(d[|d| - 1]);
      TrimIdentity(d);
    }
  }

  lemma TrimIdempotent(s: string)
    ensures Trim(Trim(s)) == Trim(s)
  {
    TrimIdentity(Trim(s));
  }

  /** `trim_start_matches(c)`: drops every leading copy of `c`. */
  function TrimStartMatches(s: string, c: char): (r: string)
    ensures |r| <= |s|
    ensures r == [] || r[0] != c
  {
    if s != [] && s[0] == c then TrimStartMatches(s[1..], c) else s
  }

  /** What `trim_start_matches(c)` drops is copies of `c`, and what it keeps is the rest of the text. */
  lemma {:induction false} TrimStartMatchesDrops(s: string, c: char)
    ensures var r := TrimStartMatches(s, c);
      r == s[|s| - |r|..] && forall i :: 0 <= i < |s| - |r| ==> s[i] == c
  {
    if s != [] && s[0] == c {
      TrimStartMatchesDrops(s[1..], c);
    }
  }

  /** `str::starts_with` at an offset. */
  predicate StartsWithAt(s: string, p: nat, prefix: string)
  {
    p + |prefix| <= |s| && s[p..p + |prefix|] == prefix
  }

  /** The character at `p` is `c`: what `starts_with` tests for a one-character prefix. */
  predicate CharAt(s: string, p: nat, c: char)
  {
    p < |s| && s[p] == c
  }

  lemma StartsWithChar(s: string, p: nat, c: char)
    ensures StartsWithAt(s, p, [c]) <==> CharAt(s, p, c)
  {
    if CharAt(s, p, c) {
      assert s[p..p + 1] == [c];
    }
  }

  /** Number of occurrences of `c` in `s`. */
  function Count(s: string, c: char): nat
  {
    multiset(s)[c]
  }

  // ---------------------------------------------------------------------------
  // Splitting and replacing
  // ---------------------------------------------------------------------------

  /** `str::split(sep)`: every occurrence of `sep` ends a piece, so repeated separators give empty pieces. */
  function Split(s: string, sep: char): (r: seq<string>)
    ensures |r| >= 1
    ensures forall k :: 0 <= k < |r| ==> sep !in r[k]
  {
    if s == [] then [[]]
    else
      var rest := Split(s[1..], sep);
      if s[0] == sep then [[]] + rest
      else [[s[0]] + rest[0]] + rest[1..]
  }

  /** Joins pieces with `sep` between them. */
  function Join(pieces: seq<string>, sep: char): string
    requires |pieces| >= 1
  {
    if |pieces| == 1 then pieces[0] else pieces[0] + [sep] + Join(pieces[1..], sep)
  }

  /** Splitting loses nothing: joining the pieces gives back the text. */
  lemma {:induction false} JoinSplit(s: string, sep: char)
    ensures Join(Split(s, sep), sep) == s
  {
    if s != [] {
      var rest := Split(s[1..], sep);
      JoinSplit(s[1..], sep);
      if s[0] != sep {
        if |rest| > 1 {
          assert Split(s, sep)[1..] == rest[1..];
        }
      }
    }
  }

  /** A pattern occurs in `s` at position `i`. */
  predicate OccursAt(s: string, pat: string, i: nat)
  {
    i + |pat| <= |s| && s[i..i + |pat|] == pat
  }

  /** `str::replace`: replaces non-overlapping occurrences of `pat`, scanning left to right. */
  function Replace(s: string, pat: string, rep: string): string
    requires pat != []
    decreases |s|
  {
    if |s| < |pat| then s
    else if s[..|pat|] == pat then rep + Replace(s[|pat|..], pat, rep)
    else [s[0]] + Replace(s[1..], pat, rep)
  }

  /** Replacing a pattern that does not occur changes nothing. */
  lemma {:induction false} ReplaceAbsent(s: string, pat: string, rep: string)
    requires pat != []
    requires forall i :: 0 <= i <= |s| - |pat| ==> !OccursAt(s, pat, i)
    ensures Replace(s, pat, rep) == s
    decreases |s|
  {
    if |s| >= |pat| {
      assert !OccursAt(s, pat, 0);
      forall i | 0 <= i <= |s[1..]| - |pat|
        ensures !OccursAt(s[1..], pat, i)
      {
        assert !OccursAt(s, pat, i + 1);
        ShiftOccurs(s, pat, i);
      }
      ReplaceAbsent(s[1..], pat, rep);
    }
  }

  /** Replacing over a prefix at which no occurrence of `pat` starts keeps that prefix. */
  lemma {:induction false} ReplaceKeepsPrefix(prefix: string, rest: string, pat: string, rep: string)
    requires pat != []
    requires forall i :: 0 <= i < |prefix| ==> !OccursAt(prefix + rest, pat, i)
    ensures Replace(prefix + rest, pat, rep) == prefix + Replace(rest, pat, rep)
    decreases |prefix|
  {
    var s := prefix + rest;
    if prefix != [] {
      if |s| < |pat| {
        assert Replace(s, pat, rep) == s;
        assert Replace(rest, pat, rep) == rest;
      } else {
        assert !OccursAt(s, pat, 0);
        assert Replace(s, pat, rep) == [s[0]] + Replace(s[1..], pat, rep);
        assert s[1..] == prefix[1..] + rest;
        NoOccurrenceAfterFirst(prefix, rest, pat);
        ReplaceKeepsPrefix(prefix[1..], rest, pat, rep);
        assert [s[0]] + prefix[1..] == prefix;
        assert [s[0]] + (prefix[1..] + Replace(rest, pat, rep)) == prefix + Replace(rest, pat, rep);
      }
    } else {
      assert s == rest;
    }
  }

  lemma NoOccurrenceAfterFirst(prefix: string, rest: string, pat: string)
    requires prefix != []
    requires forall i :: 0 <= i < |prefix| ==> !OccursAt(prefix + rest, pat, i)
    ensures forall i :: 0 <= i < |prefix| - 1 ==> !OccursAt(prefix[1..] + rest, pat, i)
  {
    var s := prefix + rest;
    assert s[1..] == prefix[1..] + rest;
    forall i | 0 <= i < |prefix| - 1
      ensures !OccursAt(prefix[1..] + rest, pat, i)
    {
      assert !OccursAt(s, pat, i + 1);
      ShiftOccurs(s, pat, i);
    }
  }

  lemma ShiftOccurs(s: string, pat: string, i: nat)
    requires s != []
    ensures OccursAt(s[1..], pat, i) <==> OccursAt(s, pat, i + 1)
  {
    if i + |pat| <= |s[1..]| {
      assert s[1..][i..i + |pat|] == s[i + 1..i + 1 + |pat|];
    }
  }

  // ---------------------------------------------------------------------------
  // Decimal numbers
  // ---------------------------------------------------------------------------

  function DigitChar(d: nat): (c: char)
    requires d < 10
    ensures IsAsciiDigit(c) && c as int - '0' as int == d
  {
    ('0' as int + d) as char
  }

  function DigitValue(c: char): nat
    requires IsAsciiDigit(c)
  {
    c as int - '0' as int
  }

  predicate AllDigits(s: string)
  {
    forall i :: 0 <= i < |s| ==> IsAsciiDigit(s[i])
  }

  /** The value of a string of decimal digits, most significant first. */
  function DigitsValue(s: string): nat
    requires AllDigits(s)
  {
    if s == [] then 0 else DigitsValue(s[..|s| - 1]) * 10 + DigitValue(s[|s| - 1])
  }

  /** Decimal rendering of a natural number, as `format!("{}", n)` writes it. */
  function NatToString(n: nat): (r: string)
    ensures |r| >= 1 && AllDigits(r)
    ensures DigitsValue(r) == n
    ensures n < 10 <==> |r| == 1
  {
    if n < 10 then [DigitChar(n)]
    else
      var r := NatToString(n / 10) + [DigitChar(n % 10)];
      assert r[..|r| - 1] == NatToString(n / 10);
      r
  }

  /** Decimal rendering of an integer with a leading '-' for negatives. */
  function IntToString(n: int): (r: string)
    ensures |r| >= 1
    ensures n >= 0 ==> r == NatToString(n)
    ensures n < 0 ==> r == "-" + NatToString(-n)
  {
    if n < 0 then "-" + NatToString(-n) else NatToString(n)
  }

  const I64Min: int := -0x8000_0000_0000_0000
  const I64Max: int := 0x7FFF_FFFF_FFFF_FFFF
  const I32Min: int := -0x8000_0000
  const I32Max: int := 0x7FFF_FFFF

  /**
   * `str::parse` for a signed integer type whose range is `lo..=hi`: an optional sign,
   * then one or more ASCII digits; anything else, or a value out of range, fails.
   */
  function ParseInt(s: string, lo: int, hi: int): (r: Option<int>)
    ensures r.Some? ==> lo <= r.value <= hi
  {
    if s == [] then None
    else if s[0] == '+' || s[0] == '-' then
      var digits := s[1..];
      if digits == [] || !AllDigits(digits) then None
      else
        var v := if s[0] == '-' then -(DigitsValue(digits) as int) else DigitsValue(digits);
        if lo <= v <= hi then Some(v) else None
    else if !AllDigits(s) then None
    else if lo <= DigitsValue(s) <= hi then Some(DigitsValue(s) as int) else None
  }

  /** Rendering an in-range integer and parsing it back gives the same integer. */
  lemma ParseIntToString(n: int, lo: int, hi: int)
    requires lo <= n <= hi
    ensures ParseInt(IntToString(n), lo, hi) == Some(n)
  {
    var r := IntToString(n);
    if n < 0 {
      assert r[1..] == NatToString(-n);
    } else {
      assert r[0] != '+' && r[0] != '-' by { assert IsAsciiDigit(r[0]); }
    }
  }

  /** Text made of digits only parses to its digit value when that value is in range. */
  lemma ParseDigits(s: string, lo: int, hi: int)
    requires s != [] && AllDigits(s)
    ensures lo <= DigitsValue(s) <= hi <==> ParseInt(s, lo, hi) == Some(DigitsValue(s) as int)
    ensures ParseInt(s, lo, hi).None? <==> !(lo <= DigitsValue(s) <= hi)
  {
    assert IsAsciiDigit(s[0]);
  }

  /** `format!("{:0w}", n)`: left-pads the decimal rendering with zeros to width `w`. */
  function ZeroPad(n: nat, w: nat): (r: string)
    ensures |r| == if |NatToString(n)| >= w then |NatToString(n)| else w
    ensures AllDigits(r)
    ensures r[|r| - |NatToString(n)|..] == NatToString(n)
    ensures forall i :: 0 <= i < |r| - |NatToString(n)| ==> r[i] == '0'
  {
    var d := NatToString(n);
    if |d| >= w then d else seq(w - |d|, _ => '0') + d
  }

  /** Leading zeros do not change the value of a digit string. */
  lemma {:induction false} LeadingZeros(z: string, d: string)
    requires AllDigits(z) && AllDigits(d)
    requires forall i :: 0 <= i < |z| ==> z[i] == '0'
    ensures AllDigits(z + d) && DigitsValue(z + d) == DigitsValue(d)
    decreases |d|
  {
    if d == [] {
      ZerosValue(z);
      assert z + d == z;
    } else {
      var s := z + d;
      assert s[..|s| - 1] == z + d[..|d| - 1];
      LeadingZeros(z, d[..|d| - 1]);
    }
  }

  lemma {:induction false} ZerosValue(z: string)
    requires AllDigits(z)
    requires forall i :: 0 <= i < |z| ==> z[i] == '0'
    ensures DigitsValue(z) == 0
  {
    if z != [] {
      ZerosValue(z[..|z| - 1]);
    }
  }

  /** Zero padding keeps the number: the padded text still reads as `n`. */
  lemma ZeroPadValue(n: nat, w: nat)
    ensures DigitsValue(ZeroPad(n, w)) == n
  {
    var d := NatToString(n);
    var r := ZeroPad(n, w);
    if |d| < w {
      var z := r[..|r| - |d|];
      assert r == z + d;
      LeadingZeros(z, d);
    }
  }
}
