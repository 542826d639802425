/** The pieces of .NET string handling that the backend relies on:
    `char.IsWhiteSpace` / `string.IsNullOrWhiteSpace`, `string.Length`
    (UTF-16 code units), `Encoding.UTF8.GetBytes`,
    `StringComparison.OrdinalIgnoreCase`, `int.TryParse` and `int.ToString`. */
module Text {
  import opened Common

  /** `char.IsWhiteSpace`: the Unicode space separators, the line and
      paragraph separators, and the control characters U+0009-U+000D and U+0085. */
  predicate IsWhiteSpace(c: char) {
    var n := c as int;
    (0x09 <= n <= 0x0D) || n == 0x20 || n == 0x85 || n == 0xA0 || n == 0x1680
    || (0x2000 <= n <= 0x200A) || n == 0x2028 || n == 0x2029 || n == 0x202F
    || n == 0x205F || n == 0x3000
  }

  /** Every character is white space (true of the empty string). */
  predicate IsBlank(s: string) {
    forall i :: 0 <= i < |s| ==> IsWhiteSpace(s[i])
  }

  /** `string.IsNullOrWhiteSpace`. */
  predicate IsNullOrWhiteSpace(s: Option<string>) {
    s.None? || IsBlank(s.value)
  }

  /** `string.Trim()`: the text without leading and trailing white space. */
  function Trim(s: string): (t: string)
    ensures |t| <= |s|
    ensures t != [] ==> !IsWhiteSpace(t[0]) && !IsWhiteSpace(t[|t| - 1])
  {
    if s == [] then s
    else if IsWhiteSpace(s[0]) then Trim(s[1..])
    else if IsWhiteSpace(s[|s| - 1]) then Trim(s[..|s| - 1])
    else s
  }

  /** Trimming text padded with white space gives what trimming the text
      alone gives. */
  lemma {:induction false} TrimPadded(pre: string, s: string, post: string)
    requires forall i :: 0 <= i < |pre| ==> IsWhiteSpace(pre[i])
    requires forall i :: 0 <= i < |post| ==> IsWhiteSpace(post[i])
    ensures Trim(pre + s + post) == Trim(s)
    decreases |pre| + |s| + |post|
  {
    var w := pre + s + post;
    if pre != [] {
      assert w[0] == pre[0] && w[1..] == pre[1..] + s + post;
      TrimPadded(pre[1..], s, post);
    } else if s != [] && IsWhiteSpace(s[0]) {
      assert w[0] == s[0] && w[1..] == [] + s[1..] + post;
      TrimPadded([], s[1..], post);
    } else if s == [] && post != [] {
      assert w == post && w[1..] == [] + [] + post[1..];
      TrimPadded([], [], post[1..]);
    } else if post != [] {
      assert w[0] == s[0] && w[|w| - 1] == post[|post| - 1];
      assert w[..|w| - 1] == [] + s + post[..|post| - 1];
      TrimPadded([], s, post[..|post| - 1]);
    } else {
      assert w == s;
    }
  }

  /** `string.Length`: characters outside the Basic Multilingual Plane take
      two UTF-16 code units. */
  function Utf16Length(s: string): (n: nat)
    ensures |s| <= n <= 2 * |s|
    ensures n == |s| <==> forall i :: 0 <= i < |s| ==> s[i] as int < 0x10000
  {
    if s == [] then 0
    else
      var init := s[..|s| - 1];
      var rest := Utf16Length(init);
      assert forall i :: 0 <= i < |s| - 1 ==> s[i] == init[i];
      rest + (if s[|s| - 1] as int < 0x10000 then 1 else 2)
  }

  /** UTF-8 encoding of one Unicode scalar value. */
  function Utf8Char(c: char): (r: seq<byte>)
    ensures 1 <= |r| <= 4
    ensures c as int < 0x80 <==> r == [c as int]
  {
    var n := c as int;
    if n < 0x80 then [n]
    else if n < 0x800 then [0xC0 + n / 0x40, 0x80 + n % 0x40]
    else if n < 0x10000 then [0xE0 + n / 0x1000, 0x80 + (n / 0x40) % 0x40, 0x80 + n % 0x40]
    else [0xF0 + n / 0x40000, 0x80 + (n / 0x1000) % 0x40, 0x80 + (n / 0x40) % 0x40, 0x80 + n % 0x40]
  }

  /** `Encoding.UTF8.GetBytes`. */
  function Utf8(s: string): (r: seq<byte>)
    ensures |s| <= |r| <= 4 * |s|
  {
    if s == [] then [] else Utf8Char(s[0]) + Utf8(s[1..])
  }

  /** A string of ASCII characters encodes to its character codes, one byte each. */
  lemma {:induction false} Utf8Ascii(s: string)
    requires forall i :: 0 <= i < |s| ==> s[i] as int < 0x80
    ensures |Utf8(s)| == |s|
    ensures forall i :: 0 <= i < |s| ==> Utf8(s)[i] == s[i] as int
  {
    if s != [] {
      assert forall i :: 1 <= i < |s| ==> s[1..][i - 1] == s[i];
      Utf8Ascii(s[1..]);
    }
  }

  /** ASCII upper-casing; other characters are left as they are. */
  function AsciiUpper(c: char): (u: char)
    ensures 'a' <= c <= 'z' ==> u as int == c as int - 32
    ensures !('a' <= c <= 'z') ==> u == c
  {
    if 'a' <= c <= 'z' then (c as int - 32) as char else c
  }

  /** `string.Equals(a, b, StringComparison.OrdinalIgnoreCase)`, with case
      folding restricted to ASCII letters. */
  predicate EqualsIgnoreCase(a: string, b: string) {
    |a| == |b| && forall i :: 0 <= i < |a| ==> AsciiUpper(a[i]) == AsciiUpper(b[i])
  }

  /** Two strings equal without regard to case compare alike with every
      third string, so the comparison is an equivalence. */
  lemma EqualsIgnoreCaseSwap(a: string, b: string, c: string)
    requires EqualsIgnoreCase(a, b)
    ensures EqualsIgnoreCase(a, c) <==> EqualsIgnoreCase(b, c)
    ensures EqualsIgnoreCase(b, a) && EqualsIgnoreCase(c, c)
  {
  }

  // ---------------------------------------------------------------------
  // Decimal integers: int.ToString() and int.TryParse(s, out n)
  // ---------------------------------------------------------------------

  predicate IsDigit(c: char) { '0' <= c <= '9' }

  predicate AllDigits(s: string) {
    forall i :: 0 <= i < |s| ==> IsDigit(s[i])
  }

  function DigitChar(d: nat): (c: char)
    requires d < 10
    ensures IsDigit(c) && c as int - '0' as int == d
  {
    ('0' as int + d) as char
  }

  /** The value of a string of decimal digits, most significant first. */
  function DigitsValue(s: string): nat
    requires AllDigits(s)
  {
    if s == [] then 0
    else
      var init := s[..|s| - 1];
      assert forall i :: 0 <= i < |init| ==> init[i] == s[i];
      DigitsValue(init) * 10 + (s[|s| - 1] as int - '0' as int)
  }

  /** The decimal digits of `n` without leading zeros ("0" for zero). */
  function NatToDigits(n: nat): (s: string)
    ensures |s| >= 1 && AllDigits(s)
    ensures s[0] != '0' || n == 0
  {
    if n < 10 then [DigitChar(n)] else NatToDigits(n / 10) + [DigitChar(n % 10)]
  }

  /** `int.ToString()` under a culture whose negative sign is "-". */
  function Int32ToString(n: int): (s: string)
    ensures |s| >= 1
    ensures n < 0 <==> s[0] == '-'
    ensures forall i :: 0 <= i < |s| ==> IsDigit(s[i]) || (i == 0 && n < 0)
  {
    if n < 0 then "-" + NatToDigits(-n) else NatToDigits(n)
  }

  /** White space that `NumberStyles.Integer` lets surround a number. */
  predicate IsNumberWhite(c: char) {
    (0x09 <= c as int <= 0x0D) || c == ' '
  }

  function TrimNumberWhite(s: string): (t: string)
    ensures |t| <= |s|
    ensures t != [] ==> !IsNumberWhite(t[0]) && !IsNumberWhite(t[|t| - 1])
  {
    if s == [] then s
    else if IsNumberWhite(s[0]) then TrimNumberWhite(s[1..])
    else if IsNumberWhite(s[|s| - 1]) then TrimNumberWhite(s[..|s| - 1])
    else s
  }

  /** `int.TryParse(s, out n)`: optional surrounding white space, an optional
      sign, at least one decimal digit, and a value that fits in 32 bits. */
  function ParseInt32(s: string): (r: Option<int>)
    ensures r.Some? ==> Int32Min <= r.value <= Int32Max
  {
    var t := TrimNumberWhite(s);
    var signed := |t| > 0 && (t[0] == '-' || t[0] == '+');
    var digits := if signed then t[1..] else t;
    if digits == [] || !AllDigits(digits) then None
    else
      var magnitude: int := DigitsValue(digits);
      var v := if signed && t[0] == '-' then -magnitude else magnitude;
      if Int32Min <= v <= Int32Max then Some(v) else None
  }

  /** Trimming only removes number white space. */
  lemma {:induction false} TrimNumberWhiteKeeps(s: string)
    ensures forall c :: c in s ==> c in TrimNumberWhite(s) || IsNumberWhite(c)
    decreases |s|
  {
    if s != [] {
      if IsNumberWhite(s[0]) {
        TrimNumberWhiteKeeps(s[1..]);
        assert forall c :: c in s ==> c == s[0] || c in s[1..];
      } else if IsNumberWhite(s[|s| - 1]) {
        TrimNumberWhiteKeeps(s[..|s| - 1]);
        assert forall c :: c in s ==> c == s[|s| - 1] || c in s[..|s| - 1];
      }
    }
  }

  /** Text int.TryParse accepts holds only digits, signs and number white
      space: any other character makes it fail. */
  lemma ParseInt32Chars(s: string)
    ensures ParseInt32(s).Some? ==> forall c :: c in s ==> IsDigit(c) || IsNumberWhite(c) || c == '+' || c == '-'
  {
    var t := TrimNumberWhite(s);
    TrimNumberWhiteKeeps(s);
    if ParseInt32(s).Some? {
      assert t != [];
      assert forall c :: c in t ==> c == t[0] || c in t[1..];
    }
  }

  /** Stripping text padded with number white space gives what stripping
      the text alone gives. */
  lemma {:induction false} TrimNumberWhitePadded(pre: string, s: string, post: string)
    requires forall i :: 0 <= i < |pre| ==> IsNumberWhite(pre[i])
    requires forall i :: 0 <= i < |post| ==> IsNumberWhite(post[i])
    ensures TrimNumberWhite(pre + s + post) == TrimNumberWhite(s)
    decreases |pre| + |s| + |post|
  {
    var w := pre + s + post;
    if pre != [] {
      assert w[0] == pre[0] && w[1..] == pre[1..] + s + post;
      TrimNumberWhitePadded(pre[1..], s, post);
    } else if s != [] && IsNumberWhite(s[0]) {
      assert w[0] == s[0] && w[1..] == [] + s[1..] + post;
      TrimNumberWhitePadded([], s[1..], post);
    } else if s == [] && post != [] {
      assert w == post && w[1..] == [] + [] + post[1..];
      TrimNumberWhitePadded([], [], post[1..]);
    } else if post != [] {
      assert w[0] == s[0] && w[|w| - 1] == post[|post| - 1];
      assert w[..|w| - 1] == [] + s + post[..|post| - 1];
      TrimNumberWhitePadded([], s, post[..|post| - 1]);
    } else {
      assert w == s;
    }
  }

  /** White space around a number does not change what int.TryParse reads. */
  lemma ParseInt32Padded(pre: string, s: string, post: string)
    requires forall i :: 0 <= i < |pre| ==> IsNumberWhite(pre[i])
    requires forall i :: 0 <= i < |post| ==> IsNumberWhite(post[i])
    ensures ParseInt32(pre + s + post) == ParseInt32(s)
  {
    TrimNumberWhitePadded(pre, s, post);
  }

  /** Text that neither starts nor ends with number white space is its
      own trimmed form. */
  lemma TrimmedAlready(s: string)
    requires s != [] && !IsNumberWhite(s[0]) && !IsNumberWhite(s[|s| - 1])
    ensures TrimNumberWhite(s) == s
  {
  }

  lemma ParseUnsigned(d: string)
    requires d != [] && AllDigits(d)
    ensures ParseInt32(d) == (if DigitsValue(d) <= Int32Max then Some(DigitsValue(d)) else None)
  {
    assert IsDigit(d[0]) && IsDigit(d[|d| - 1]);
    TrimmedAlready(d);
  }

  lemma ParseSigned(d: string, sign: char)
    requires d != [] && AllDigits(d) && (sign == '+' || sign == '-')
    ensures var v: int := if sign == '-' then -(DigitsValue(d) as int) else DigitsValue(d);
            ParseInt32([sign] + d) == (if Int32Min <= v <= Int32Max then Some(v) else None)
  {
    var p := [sign] + d;
    assert IsDigit(d[|d| - 1]) && p[|p| - 1] == d[|d| - 1];
    TrimmedAlready(p);
    assert p[0] == sign && p[1..] == d;
  }

  /** Decimal digits denote their value, with an optional sign in front,
      when it fits in 32 bits; otherwise the parse fails. */
  lemma ParseInt32Digits(d: string)
    requires d != [] && AllDigits(d)
    ensures ParseInt32(d) == (if DigitsValue(d) <= Int32Max then Some(DigitsValue(d)) else None)
    ensures ParseInt32("+" + d) == ParseInt32(d)
    ensures ParseInt32("-" + d) == (if DigitsValue(d) <= -Int32Min then Some(-(DigitsValue(d) as int)) else None)
  {
    ParseUnsigned(d);
    ParseSigned(d, '+');
    ParseSigned(d, '-');
    assert "+" + d == ['+'] + d && "-" + d == ['-'] + d;
  }

  /** A leading zero does not change the value of decimal digits. */
  lemma {:induction false} DigitsValueLeadingZero(d: string)
    requires AllDigits(d)
    ensures AllDigits("0" + d) && DigitsValue("0" + d) == DigitsValue(d)
    decreases |d|
  {
    var w := "0" + d;
    assert forall i :: 0 < i < |w| ==> w[i] == d[i - 1];
    if d != [] {
      var init := d[..|d| - 1];
      assert AllDigits(init);
      assert w[..|w| - 1] == "0" + init;
      DigitsValueLeadingZero(init);
    }
  }

  /** ... so int.TryParse reads "007" as 7. */
  lemma ParseInt32LeadingZero(d: string)
    requires d != [] && AllDigits(d)
    ensures ParseInt32("0" + d) == ParseInt32(d)
  {
    DigitsValueLeadingZero(d);
    ParseInt32Digits(d);
    ParseInt32Digits("0" + d);
  }

  lemma {:induction false} DigitsRoundTrip(n: nat)
    ensures DigitsValue(NatToDigits(n)) == n
  {
    if n >= 10 {
      DigitsRoundTrip(n / 10);
      var s := NatToDigits(n);
      assert s[..|s| - 1] == NatToDigits(n / 10);
    }
  }

  /** What `int.ToString()` writes, `int.TryParse` reads back. */
  lemma Int32RoundTrip(n: int)
    requires Int32Min <= n <= Int32Max
    ensures ParseInt32(Int32ToString(n)) == Some(n)
  {
    var s := Int32ToString(n);
    assert !IsNumberWhite(s[0]) && !IsNumberWhite(s[|s| - 1]);
    assert TrimNumberWhite(s) == s;
    if n < 0 {
      var digits := NatToDigits(-n);
      assert s[1..] == digits;
      DigitsRoundTrip(-n);
      assert DigitsValue(digits) == -n;
    } else {
      assert s == NatToDigits(n);
      DigitsRoundTrip(n);
    }
  }
}
