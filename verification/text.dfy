/** The string primitives the components rely on, written out with the semantics of the
    JavaScript built-ins they stand for: `String.prototype.trim`, ASCII `toLowerCase`,
    `String.prototype.includes`, `Number.prototype.toString` on integers, and
    `parseInt(s, 10)`. */
module Text {
  import opened Common

  // ---------------------------------------------------------------------------------------
  // Whitespace and trim
  // ---------------------------------------------------------------------------------------

  /** The characters `trim` and `parseInt` skip: ECMAScript WhiteSpace (tab, vertical tab,
      form feed, space, no-break space, byte order mark and the space separators) and
      LineTerminator (line feed, carriage return, line and paragraph separators). */
  predicate IsWhitespace(c: char)
  {
    || c == '\t' || c == '\n' || c == '\U{B}' || c == '\U{C}' || c == '\r' || c == ' '
    || c == '\U{A0}' || c == '\U{1680}' || ('\U{2000}' <= c <= '\U{200A}')
    || c == '\U{2028}' || c == '\U{2029}' || c == '\U{202F}' || c == '\U{205F}'
    || c == '\U{3000}' || c == '\U{FEFF}'
  }

  /** Every character of `s` is whitespace (vacuously true of the empty string). */
  predicate IsBlank(s: string)
  {
    forall i :: 0 <= i < |s| ==> IsWhitespace(s[i])
  }

  /** Drops leading whitespace: the result is the suffix of `s` that starts at its first
      non-whitespace character. */
  function TrimStart(s: string): (r: string)
    ensures |r| <= |s| && r == s[|s| - |r|..]
    ensures IsBlank(s[..|s| - |r|])
    ensures r != [] ==> !IsWhitespace(r[0])
  {
    if s != [] && IsWhitespace(s[0]) then
      var r := TrimStart(s[1..]);
      assert s[1..][..|s[1..]| - |r|] == s[1..|s| - |r|];
      r
    else s
  }

  /** Drops trailing whitespace: the result is the prefix of `s` that ends at its last
      non-whitespace character. */
  function TrimEnd(s: string): (r: string)
    ensures |r| <= |s| && r == s[..|r|]
    ensures IsBlank(s[|r|..])
    ensures r != [] ==> !IsWhitespace(r[|r| - 1])
  {
    if s != [] && IsWhitespace(s[|s| - 1]) then
      var r := TrimEnd(s[..|s| - 1]);
      assert s[..|s| - 1][|r|..] == s[|r|..|s| - 1];
      assert s[|r|..] == s[|r|..|s| - 1] + [s[|s| - 1]];
      BlankConcat(s[|r|..|s| - 1], [s[|s| - 1]]);
      r
    else s
  }

  /** `s.trim()`: a contiguous slice of `s` that neither starts nor ends with whitespace,
      with only whitespace cut away on either side. It is empty exactly when `s` is blank. */
  function Trim(s: string): (r: string)
    ensures exists k :: OccursAt(s, r, k)
    ensures r != [] ==> !IsWhitespace(r[0]) && !IsWhitespace(r[|r| - 1])
    ensures r == [] <==> IsBlank(s)
  {
    var t := TrimStart(s);
    var r := TrimEnd(t);
    TrimFacts(s, t, r);
    assert OccursAt(s, r, |s| - |t|);
    r
  }

  lemma TrimFacts(s: string, t: string, r: string)
    requires |t| <= |s| && t == s[|s| - |t|..] && IsBlank(s[..|s| - |t|])
    requires t != [] ==> !IsWhitespace(t[0])
    requires |r| <= |t| && r == t[..|r|] && IsBlank(t[|r|..])
    ensures r == s[|s| - |t|..|s| - |t| + |r|]
    ensures r != [] ==> !IsWhitespace(r[0])
    ensures r == [] <==> IsBlank(s)
  {
    var k := |s| - |t|;
    if r == [] {
      assert t[|r|..] == t;
      assert s == s[..k] + t;
      BlankConcat(s[..k], t);
    } else {
      assert t != [] && t[0] == r[0];
      assert s[k] == t[0];
    }
  }

  lemma BlankConcat(a: string, b: string)
    requires IsBlank(a) && IsBlank(b)
    ensures IsBlank(a + b)
  {
    forall i | 0 <= i < |a + b|
      ensures IsWhitespace((a + b)[i])
    {
      if i < |a| { assert (a + b)[i] == a[i]; } else { assert (a + b)[i] == b[i - |a|]; }
    }
  }

  // ---------------------------------------------------------------------------------------
  // Case folding and substring search
  // ---------------------------------------------------------------------------------------

  /** `toLowerCase` on one character, for the ASCII letters; every other character is kept. */
  function LowerChar(c: char): char
  {
    if 'A' <= c <= 'Z' then (c as int + 32) as char else c
  }

  function Lower(s: string): (r: string)
    ensures |r| == |s|
    ensures forall i :: 0 <= i < |s| ==> r[i] == LowerChar(s[i])
  {
    seq(|s|, i requires 0 <= i < |s| => LowerChar(s[i]))
  }

  /** `a.toLowerCase() === b.toLowerCase()` under ASCII case folding. */
  predicate EqualsIgnoreCase(a: string, b: string)
  {
    Lower(a) == Lower(b)
  }

  /** `needle` occurs in `s` starting at index `i`. */
  predicate OccursAt(s: string, needle: string, i: int)
  {
    0 <= i <= |s| - |needle| && s[i..i + |needle|] == needle
  }

  /** `s.includes(needle)`, searched from the front. */
  function Contains(s: string, needle: string): (b: bool)
    ensures b <==> exists i :: OccursAt(s, needle, i)
  {
    if needle <= s then
      assert OccursAt(s, needle, 0);
      true
    else if s == [] then
      false
    else
      var b := Contains(s[1..], needle);
      if b then
        var i :| OccursAt(s[1..], needle, i);
        assert s[1..][i..i + |needle|] == s[i + 1..i + 1 + |needle|];
        assert OccursAt(s, needle, i + 1);
        true
      else
        assert forall i :: OccursAt(s, needle, i) ==> i > 0 && OccursAt(s[1..], needle, i - 1);
        false
  }

  /** A fixed message prefix cannot contribute to an occurrence of `needle` when it does not
      contain the needle's first character: searching `prefix + s` is searching `s`. */
  lemma {:induction false} ContainsAfterPrefix(prefix: string, s: string, needle: string)
    requires needle != [] && needle[0] !in prefix
    ensures Contains(prefix + s, needle) <==> Contains(s, needle)
  {
    if prefix != [] {
      assert !(needle <= prefix + s) by { assert (prefix + s)[0] == prefix[0]; }
      assert (prefix + s)[1..] == prefix[1..] + s;
      ContainsAfterPrefix(prefix[1..], s, needle);
    } else {
      assert prefix + s == s;
    }
  }

  /** A text without the needle's first character does not contain the needle. */
  lemma FirstCharAbsent(s: string, needle: string)
    requires needle != [] && needle[0] !in s
    ensures !Contains(s, needle)
  {
  }

  // ---------------------------------------------------------------------------------------
  // Decimal integers: `n.toString()` and `parseInt(s, 10)`
  // ---------------------------------------------------------------------------------------

  predicate IsDigit(c: char)
  {
    '0' <= c <= '9'
  }

  predicate AllDigits(s: string)
  {
    forall i :: 0 <= i < |s| ==> IsDigit(s[i])
  }

  function DigitChar(d: nat): (c: char)
    requires d < 10
    ensures IsDigit(c)
  {
    ('0' as int + d) as char
  }

  function DigitValue(c: char): nat
    requires IsDigit(c)
  {
    c as int - '0' as int
  }

  /** The value of a string of decimal digits, most significant first. */
  function DigitsValue(s: string): nat
    requires AllDigits(s)
  {
    if s == [] then 0 else DigitsValue(s[..|s| - 1]) * 10 + DigitValue(s[|s| - 1])
  }

  /** The shortest decimal spelling of `n`: no leading zeros, and it reads back as `n`. */
  function NatToDecimal(n: nat): (r: string)
    ensures r != [] && AllDigits(r)
    ensures DigitsValue(r) == n
    ensures r[0] == '0' ==> n == 0
  {
    if n < 10 then [DigitChar(n)]
    else
      var r := NatToDecimal(n / 10) + [DigitChar(n % 10)];
      assert r[..|r| - 1] == NatToDecimal(n / 10);
      r
  }

  /** `n.toString()` for an integer-valued number. */
  function IntToString(n: int): (r: string)
    ensures r != []
    ensures n < 0 <==> r[0] == '-'
  {
    if n < 0 then "-" + NatToDecimal(-n) else NatToDecimal(n)
  }

  /** The longest prefix of `s` made of decimal digits. */
  function LeadingDigits(s: string): (r: string)
    ensures AllDigits(r) && r <= s
    ensures |r| < |s| ==> !IsDigit(s[|r|])
  {
    if s != [] && IsDigit(s[0]) then [s[0]] + LeadingDigits(s[1..]) else []
  }

  /** `parseInt(s, 10)`: leading whitespace skipped, an optional sign, then the longest run of
      decimal digits; `None` is `NaN` (no digit where one is expected). */
  function ParseInt(s: string): (r: Option<int>)
    ensures r.None? <==> var t := TrimStart(s);
      var body := if t != [] && (t[0] == '-' || t[0] == '+') then t[1..] else t;
      body == [] || !IsDigit(body[0])
    ensures r.Some? ==> var t := TrimStart(s);
      var body := if t != [] && (t[0] == '-' || t[0] == '+') then t[1..] else t;
      var magnitude := DigitsValue(LeadingDigits(body)) as int;
      r.value == if t[0] == '-' then -magnitude else magnitude
  {
    var t := TrimStart(s);
    var negative := t != [] && t[0] == '-';
    var body := if t != [] && (t[0] == '-' || t[0] == '+') then t[1..] else t;
    var digits := LeadingDigits(body);
    if digits == [] then None
    else if negative then Some(-(DigitsValue(digits) as int))
    else Some(DigitsValue(digits))
  }

  lemma LeadingDigitsOfDigits(s: string)
    requires AllDigits(s)
    ensures LeadingDigits(s) == s
  {
  }

  /** `parseInt(n.toString(), 10) === n`: the decimal spelling of an integer reads back as it. */
  lemma ParseIntOfIntToString(n: int)
    ensures ParseInt(IntToString(n)) == Some(n)
  {
    var s := IntToString(n);
    var d := NatToDecimal(if n < 0 then -n else n);
    assert IsDigit(d[0]);
    assert !IsWhitespace(s[0]);
    assert TrimStart(s) == s;
    LeadingDigitsOfDigits(d);
    if n < 0 {
      assert s[1..] == d;
    } else {
      assert s == d;
    }
  }
}
