/**
 * The string operations the services use: ASCII case mapping and case-blind
 * comparison, prefixes and substrings, trimming, pattern replacement, the
 * UTF-8 length of a string and decimal formatting with `{:04}` zero padding.
 * A Rust `String` is a `seq<char>` of Unicode scalar values here.
 */
module Text {

  // ---------------------------------------------------------------------------
  // ASCII case

  predicate IsAsciiUpper(c: char)
  {
    'A' <= c <= 'Z'
  }

  predicate IsAsciiLower(c: char)
  {
    'a' <= c <= 'z'
  }

  /** `char::to_ascii_lowercase`: only `A`-`Z` change. */
  function AsciiLowerChar(c: char): (r: char)
    ensures IsAsciiUpper(c) ==> IsAsciiLower(r)
    ensures !IsAsciiUpper(c) ==> r == c
  {
    if IsAsciiUpper(c) then (c as int + 32) as char else c
  }

  /** `char::to_ascii_uppercase`: only `a`-`z` change. */
  function AsciiUpperChar(c: char): (r: char)
    ensures IsAsciiLower(c) ==> IsAsciiUpper(r)
    ensures !IsAsciiLower(c) ==> r == c
  {
    if IsAsciiLower(c) then (c as int - 32) as char else c
  }

  /** Every character mapped by `AsciiLowerChar`. */
  function AsciiLower(s: string): (r: string)
    ensures |r| == |s|
    ensures forall i :: 0 <= i < |s| ==> r[i] == AsciiLowerChar(s[i])
  {
    seq(|s|, i requires 0 <= i < |s| => AsciiLowerChar(s[i]))
  }

  /** Every character mapped by `AsciiUpperChar`. */
  function AsciiUpper(s: string): (r: string)
    ensures |r| == |s|
    ensures forall i :: 0 <= i < |s| ==> r[i] == AsciiUpperChar(s[i])
  {
    seq(|s|, i requires 0 <= i < |s| => AsciiUpperChar(s[i]))
  }

  /** `str::eq_ignore_ascii_case`: same length, and equal position by position after ASCII lowercasing. */
  predicate EqIgnoreAsciiCase(a: string, b: string)
  {
    |a| == |b| && forall i :: 0 <= i < |a| ==> AsciiLowerChar(a[i]) == AsciiLowerChar(b[i])
  }

  /** Comparing case-blind is comparing the lowercased strings. */
  lemma EqIgnoreAsciiCaseIff(a: string, b: string)
    ensures EqIgnoreAsciiCase(a, b) <==> AsciiLower(a) == AsciiLower(b)
  {
    if AsciiLower(a) == AsciiLower(b) {
      assert |a| == |b|;
      forall i | 0 <= i < |a|
        ensures AsciiLowerChar(a[i]) == AsciiLowerChar(b[i])
      {
        assert AsciiLower(a)[i] == AsciiLower(b)[i];
      }
    }
  }

  // ---------------------------------------------------------------------------
  // Prefixes, substrings, whitespace

  /** `str::starts_with`. */
  predicate StartsWith(s: string, prefix: string)
  {
    |prefix| <= |s| && s[..|prefix|] == prefix
  }

  /** `part` occurs in `s` starting at position `i`. */
  predicate OccursAt(s: string, part: string, i: int)
  {
    0 <= i && i + |part| <= |s| && s[i..i + |part|] == part
  }

  /** `str::contains`: `part` occurs at some position of `s`. */
  predicate Contains(s: string, part: string)
  {
    exists i :: 0 <= i <= |s| && OccursAt(s, part, i)
  }

  /** `c` is one of the characters of `chars`. */
  predicate IsOneOf(c: char, chars: string)
  {
    chars != [] && (chars[0] == c || IsOneOf(c, chars[1..]))
  }

  /** `IsOneOf` is membership. */
  lemma {:induction false} IsOneOfIff(c: char, chars: string)
    ensures IsOneOf(c, chars) <==> c in chars
  {
    if chars != [] {
      IsOneOfIff(c, chars[1..]);
      assert chars == [chars[0]] + chars[1..];
    }
  }

  /** The characters with the Unicode White_Space property. */
  const WhiteSpace: string :=
    "\t\n\U{B}\U{C}\r \U{85}\U{A0}\U{1680}\U{2000}\U{2001}\U{2002}\U{2003}\U{2004}\U{2005}"
    + "\U{2006}\U{2007}\U{2008}\U{2009}\U{200A}\U{2028}\U{2029}\U{202F}\U{205F}\U{3000}"

  /**
   * `char::is_whitespace`. The characters are written out again rather than
   * read from `WhiteSpace`; `IsSpaceIff` proves the two lists agree.
   */
  predicate IsSpace(c: char)
  {
    IsOneOf(c, "\t\n\U{B}\U{C}\r \U{85}\U{A0}\U{1680}\U{2000}\U{2001}\U{2002}\U{2003}\U{2004}\U{2005}"
               + "\U{2006}\U{2007}\U{2008}\U{2009}\U{200A}\U{2028}\U{2029}\U{202F}\U{205F}\U{3000}")
  }

  /** `IsSpace` is membership in `WhiteSpace`. */
  lemma IsSpaceIff(c: char)
    ensures IsSpace(c) <==> c in WhiteSpace
  {
    IsOneOfIff(c, WhiteSpace);
  }

  /** Whitespace is not only ASCII: the vertical tab, the next-line and no-break spaces and the ideographic space count. */
  lemma UnicodeWhiteSpace()
    ensures IsSpace('\U{B}') && IsSpace('\U{85}') && IsSpace('\U{A0}') && IsSpace('\U{3000}')
  {
    IsSpaceIff('\U{B}');
    IsSpaceIff('\U{85}');
    IsSpaceIff('\U{A0}');
    IsSpaceIff('\U{3000}');
  }

  function TrimStart(s: string): (r: string)
    ensures |r| <= |s| && r == s[|s| - |r|..]
    ensures r == [] || !IsSpace(r[0])
  {
    if s != [] && IsSpace(s[0]) then TrimStart(s[1..]) else s
  }

  function TrimEnd(s: string): (r: string)
    ensures |r| <= |s| && r == s[..|r|]
    ensures r == [] || !IsSpace(r[|r| - 1])
  {
    if s != [] && IsSpace(s[|s| - 1]) then TrimEnd(s[..|s| - 1]) else s
  }

  /** `str::trim`: leading and trailing whitespace removed. */
  function Trim(s: string): (r: string)
    ensures r == [] || (!IsSpace(r[0]) && !IsSpace(r[|r| - 1]))
  {
    TrimEnd(TrimStart(s))
  }

  /** Leading whitespace before a text that does not start with whitespace is what `TrimStart` removes. */
  lemma {:induction false} TrimStartPadding(before: string, rest: string)
    requires forall i :: 0 <= i < |before| ==> IsSpace(before[i])
    requires rest == [] || !IsSpace(rest[0])
    ensures TrimStart(before + rest) == rest
    decreases |before|
  {
    if before != [] {
      assert (before + rest)[1..] == before[1..] + rest;
      TrimStartPadding(before[1..], rest);
    } else {
      assert before + rest == rest;
    }
  }

  /** Trailing whitespace after a text that does not end with whitespace is what `TrimEnd` removes. */
  lemma {:induction false} TrimEndPadding(rest: string, after: string)
    requires forall i :: 0 <= i < |after| ==> IsSpace(after[i])
    requires rest == [] || !IsSpace(rest[|rest| - 1])
    ensures TrimEnd(rest + after) == rest
    decreases |after|
  {
    if after != [] {
      assert (rest + after)[..|rest + after| - 1] == rest + after[..|after| - 1];
      TrimEndPadding(rest, after[..|after| - 1]);
    } else {
      assert rest + after == rest;
    }
  }

  /** `Trim` takes off exactly the whitespace padding around a text that neither starts nor ends with whitespace. */
  lemma TrimStripsPadding(before: string, text: string, after: string)
    requires forall i :: 0 <= i < |before| ==> IsSpace(before[i])
    requires forall i :: 0 <= i < |after| ==> IsSpace(after[i])
    requires text != [] && !IsSpace(text[0]) && !IsSpace(text[|text| - 1])
    ensures Trim(before + text + after) == text
  {
    assert before + text + after == before + (text + after);
    TrimStartPadding(before, text + after);
    TrimEndPadding(text, after);
  }

  /**
   * `str::replace(pattern, with)`: every non-overlapping occurrence of `pattern`,
   * scanning from the left, is replaced. An empty pattern matches before every
   * character and at the end.
   */
  function Replace(s: string, pattern: string, with: string): string
    decreases |s|
  {
    if pattern == [] then
      if s == [] then with else with + [s[0]] + Replace(s[1..], pattern, with)
    else if StartsWith(s, pattern) then with + Replace(s[|pattern|..], pattern, with)
    else if s == [] then []
    else [s[0]] + Replace(s[1..], pattern, with)
  }

  /** A string without the pattern comes back from `Replace` unchanged. */
  lemma {:induction false} ReplaceAbsent(s: string, pattern: string, with: string)
    requires pattern != [] && !Contains(s, pattern)
    ensures Replace(s, pattern, with) == s
    decreases |s|
  {
    if s != [] {
      if StartsWith(s, pattern) {
        assert OccursAt(s, pattern, 0);
      }
      if Contains(s[1..], pattern) {
        var i :| 0 <= i <= |s[1..]| && OccursAt(s[1..], pattern, i);
        assert s[1..][i..i + |pattern|] == s[i + 1..i + 1 + |pattern|];
        assert OccursAt(s, pattern, i + 1);
      }
      ReplaceAbsent(s[1..], pattern, with);
    }
  }

  /** A template holding the pattern once, after a part that cannot start it, gets exactly that spot filled. */
  lemma {:induction false} ReplaceOnce(before: string, pattern: string, after: string, with: string)
    requires pattern != []
    requires forall k :: 0 <= k < |before| ==> before[k] != pattern[0]
    requires !Contains(after, pattern)
    ensures Replace(before + pattern + after, pattern, with) == before + with + after
    decreases |before|
  {
    var s := before + pattern + after;
    if before == [] {
      assert s == pattern + after;
      assert s[..|pattern|] == pattern;
      assert s[|pattern|..] == after;
      ReplaceAbsent(after, pattern, with);
    } else {
      assert s[0] == before[0];
      assert !StartsWith(s, pattern);
      assert s[1..] == before[1..] + pattern + after;
      ReplaceOnce(before[1..], pattern, after, with);
      assert before == [s[0]] + before[1..];
      assert [s[0]] + (before[1..] + with + after) == ([s[0]] + before[1..]) + with + after;
    }
  }

  // ---------------------------------------------------------------------------
  // UTF-8

  /** The number of bytes UTF-8 uses for one scalar value. */
  function Utf8Width(c: char): (n: nat)
    ensures 1 <= n <= 4
    ensures n == 1 <==> c as int < 0x80
  {
    if c as int < 0x80 then 1
    else if c as int < 0x800 then 2
    else if c as int < 0x1_0000 then 3
    else 4
  }

  /** `str::len`: the length in UTF-8 bytes. */
  function Utf8Len(s: string): (n: nat)
    ensures |s| <= n <= 4 * |s|
  {
    if s == [] then 0 else Utf8Len(s[..|s| - 1]) + Utf8Width(s[|s| - 1])
  }

  /** On ASCII text the byte length is the character count. */
  lemma {:induction false} Utf8LenAscii(s: string)
    requires forall i :: 0 <= i < |s| ==> s[i] as int < 0x80
    ensures Utf8Len(s) == |s|
  {
    if s != [] {
      Utf8LenAscii(s[..|s| - 1]);
    }
  }

  // ---------------------------------------------------------------------------
  // Decimal numbers

  /** The digit character of `d`. */
  function DigitChar(d: nat): (c: char)
    requires d < 10
    ensures '0' <= c <= '9' && c as int - '0' as int == d
  {
    ('0' as int + d) as char
  }

  /** `n.to_string()` for a non-negative integer. */
  function Decimal(n: nat): (r: string)
    ensures 1 <= |r|
    ensures forall i :: 0 <= i < |r| ==> '0' <= r[i] <= '9'
    ensures n < 10 <==> |r| == 1
  {
    if n < 10 then [DigitChar(n)] else Decimal(n / 10) + [DigitChar(n % 10)]
  }

  /** The value a string of decimal digits denotes. */
  function DigitsValue(s: string): nat
    requires forall i :: 0 <= i < |s| ==> '0' <= s[i] <= '9'
  {
    if s == [] then 0 else 10 * DigitsValue(s[..|s| - 1]) + (s[|s| - 1] as int - '0' as int)
  }

  /** `Decimal` writes the number it is given. */
  lemma {:induction false} DecimalValue(n: nat)
    ensures DigitsValue(Decimal(n)) == n
  {
    if n >= 10 {
      var r := Decimal(n);
      assert r[..|r| - 1] == Decimal(n / 10);
      DecimalValue(n / 10);
    }
  }

  /** Different numbers have different decimal strings. */
  lemma DecimalInjective(m: nat, n: nat)
    requires Decimal(m) == Decimal(n)
    ensures m == n
  {
    DecimalValue(m);
    DecimalValue(n);
  }

  /** `k` zero characters. */
  function Zeros(k: nat): (r: string)
    ensures |r| == k && forall i :: 0 <= i < k ==> r[i] == '0'
  {
    seq(k, _ => '0')
  }

  /** Leading zeros do not change the value of a digit string. */
  lemma {:induction false} LeadingZerosValue(k: nat, d: string)
    requires forall i :: 0 <= i < |d| ==> '0' <= d[i] <= '9'
    ensures DigitsValue(Zeros(k) + d) == DigitsValue(d)
    decreases k + |d|
  {
    if d == [] {
      if k > 0 {
        assert Zeros(k) + d == Zeros(k);
        assert Zeros(k)[..k - 1] == Zeros(k - 1) + [];
        LeadingZerosValue(k - 1, []);
      }
    } else {
      assert (Zeros(k) + d)[..k + |d| - 1] == Zeros(k) + d[..|d| - 1];
      LeadingZerosValue(k, d[..|d| - 1]);
    }
  }

  /** Numbers below 10000 have at most four digits. */
  lemma {:induction false} DecimalShort(n: nat)
    ensures n < 10 ==> |Decimal(n)| == 1
    ensures n < 100 ==> |Decimal(n)| <= 2
    ensures n < 1000 ==> |Decimal(n)| <= 3
    ensures n < 10_000 ==> |Decimal(n)| <= 4
  {
    if n >= 10 {
      DecimalShort(n / 10);
    }
  }

  /** `format!("{:04}", n)`: the decimal digits of `n`, zero-padded on the left to at least four. */
  function Pad4(n: nat): (r: string)
    ensures n < 10_000 ==> |r| == 4
    ensures |r| >= 4
    ensures forall i :: 0 <= i < |r| ==> '0' <= r[i] <= '9'
    ensures DigitsValue(r) == n
  {
    var d := Decimal(n);
    DecimalValue(n);
    DecimalShort(n);
    if |d| < 4 then
      LeadingZerosValue(4 - |d|, d);
      Zeros(4 - |d|) + d
    else d
  }

  /** `format!("{:02}", n)`: the decimal digits of `n`, zero-padded on the left to at least two. */
  function Pad2(n: nat): (r: string)
    ensures n < 100 ==> |r| == 2
    ensures |r| >= 2
    ensures forall i :: 0 <= i < |r| ==> '0' <= r[i] <= '9'
    ensures DigitsValue(r) == n
  {
    var d := Decimal(n);
    DecimalValue(n);
    DecimalShort(n);
    if |d| < 2 then
      LeadingZerosValue(2 - |d|, d);
      Zeros(2 - |d|) + d
    else d
  }

  /** Zero padding keeps numbers apart: different serials give different strings. */
  lemma Pad4Injective(m: nat, n: nat)
    requires Pad4(m) == Pad4(n)
    ensures m == n
  {
  }
  /** The renderings of `xs` one after another: what a loop appending `render(x)` for each `x` builds. */
  function Joined<T>(xs: seq<T>, render: T -> string): string
  {
    if xs == [] then "" else Joined(xs[..|xs| - 1], render) + render(xs[|xs| - 1])
  }

  /** Appending the rendering of one more element extends the joined prefix by that element. */
  lemma JoinedStep<T>(header: string, xs: seq<T>, render: T -> string, i: nat)
    requires i < |xs|
    ensures header + Joined(xs[..i], render) + render(xs[i]) == header + Joined(xs[..i + 1], render)
  {
    assert xs[..i + 1][..i] == xs[..i];
  }
  /** The loop `for x in xs { result.push_str(&render(x)) }` started from `header`. */
  method AppendEach<T>(header: string, xs: seq<T>, render: T -> string) returns (result: string)
    ensures result == header + Joined(xs, render)
  {
    result := header;
    var i := 0;
    while i < |xs|
      invariant 0 <= i <= |xs|
      invariant result == header + Joined(xs[..i], render)
    {
      JoinedStep(header, xs, render, i);
      result := result + render(xs[i]);
      i := i + 1;
    }
    assert xs[..i] == xs;
  }
}
