/**
  The pieces of Go's standard library the bot applies to message text and callback data:
  `strings.Split` and `strings.Join` with a one-character separator, `strings.TrimSpace`,
  and decimal `strconv.FormatInt` / `strconv.ParseInt(s, 10, 64)` (`strconv.Atoi` behaves
  the same on a 64-bit platform).
*/
module Text {
  import opened Common

  // ---------------------------------------------------------------------------
  // strings.Split / strings.Join
  // ---------------------------------------------------------------------------

  /** The parts glued back together with `sep` between consecutive parts. */
  function Join(parts: seq<string>, sep: char): string
    requires |parts| >= 1
  {
    if |parts| == 1 then parts[0] else parts[0] + [sep] + Join(parts[1..], sep)
  }

  /** The substrings of `s` between occurrences of `sep`; an empty `s` gives one empty part. */
  function Split(s: string, sep: char): (parts: seq<string>)
    ensures |parts| >= 1
    ensures forall i :: 0 <= i < |parts| ==> sep !in parts[i]
    ensures Join(parts, sep) == s
  {
    if s == [] then [[]]
    else
      var rest := Split(s[1..], sep);
      if s[0] == sep then
        assert ([[]] + rest)[1..] == rest;
        assert s == [sep] + s[1..];
        [[]] + rest
      else
        var parts := [[s[0]] + rest[0]] + rest[1..];
        assert parts[1..] == rest[1..];
        assert s == [s[0]] + s[1..];
        if |rest| == 1 then parts
        else
          assert Join(rest, sep) == rest[0] + [sep] + Join(rest[1..], sep);
          assert Join(parts, sep) == [s[0]] + rest[0] + [sep] + Join(rest[1..], sep);
          parts
  }

  /** Text without the separator is a single part. */
  lemma {:induction false} SplitWithoutSeparator(a: string, sep: char)
    requires sep !in a
    ensures Split(a, sep) == [a]
  {
    if a != [] {
      assert sep !in a[1..] by { assert forall c :: c in a[1..] ==> c in a; }
      SplitWithoutSeparator(a[1..], sep);
    }
  }

  /** Splitting at the first separator: the text before it is the first part. */
  lemma {:induction false} SplitAtFirst(a: string, b: string, sep: char)
    requires sep !in a
    ensures Split(a + [sep] + b, sep) == [a] + Split(b, sep)
  {
    var s := a + [sep] + b;
    if a == [] {
      assert s[1..] == b;
    } else {
      assert sep !in a[1..] by { assert forall c :: c in a[1..] ==> c in a; }
      assert s[1..] == a[1..] + [sep] + b;
      SplitAtFirst(a[1..], b, sep);
      assert [s[0]] + a[1..] == a;
    }
  }

  /** The first part is the text before the first separator. */
  lemma FirstPartIsPrefix(s: string, sep: char)
    ensures Split(s, sep)[0] <= s
    ensures |Split(s, sep)[0]| < |s| ==> s[|Split(s, sep)[0]|] == sep
  {
    var parts := Split(s, sep);
    if |parts| > 1 {
      assert s == parts[0] + [sep] + Join(parts[1..], sep);
      assert s[..|parts[0]|] == parts[0];
    }
  }

  // ---------------------------------------------------------------------------
  // strings.TrimSpace (unicode.IsSpace)
  // ---------------------------------------------------------------------------

  /** Go's unicode.IsSpace: tab through carriage return, space, NEL, NBSP and the Unicode space separators. */
  predicate IsSpace(c: char)
  {
    ('\t' <= c <= '\r') || c == ' ' || c == '\U{85}' || c == '\U{A0}' || c == '\U{1680}'
    || ('\U{2000}' <= c <= '\U{200A}') || c == '\U{2028}' || c == '\U{2029}'
    || c == '\U{202F}' || c == '\U{205F}' || c == '\U{3000}'
  }

  predicate AllSpace(s: string)
  {
    forall i :: 0 <= i < |s| ==> IsSpace(s[i])
  }

  /** The number of white-space characters that begin `s`. */
  function LeadingSpaces(s: string): (k: nat)
    ensures k <= |s|
    ensures AllSpace(s[..k])
    ensures k < |s| ==> !IsSpace(s[k])
  {
    if s != [] && IsSpace(s[0]) then
      var k := 1 + LeadingSpaces(s[1..]);
      assert s[..k] == [s[0]] + s[1..][..k - 1];
      k
    else 0
  }

  /** The number of white-space characters that end `s`. */
  function TrailingSpaces(s: string): (k: nat)
    ensures k <= |s|
    ensures AllSpace(s[|s| - k..])
    ensures k < |s| ==> !IsSpace(s[|s| - 1 - k])
  {
    if s != [] && IsSpace(s[|s| - 1]) then
      var init := s[..|s| - 1];
      var k := 1 + TrailingSpaces(init);
      assert s[|s| - k..] == init[|init| - (k - 1)..] + [s[|s| - 1]];
      k
    else 0
  }

  /** `s` without its leading and trailing white space. */
  function TrimSpace(s: string): (r: string)
    ensures r == [] || (!IsSpace(r[0]) && !IsSpace(r[|r| - 1]))
    ensures exists i, j :: 0 <= i <= j <= |s| && r == s[i..j] && AllSpace(s[..i]) && AllSpace(s[j..])
  {
    var lead := LeadingSpaces(s);
    var rest := s[lead..];
    var trail := TrailingSpaces(rest);
    var r := rest[..|rest| - trail];
    assert r == s[lead..|s| - trail];
    assert s[|s| - trail..] == rest[|rest| - trail..];
    assert r != [] ==> r[0] == s[lead];
    r
  }

  /** Surrounding white space is exactly what TrimSpace removes. */
  lemma TrimSpaceOfPadded(front: string, t: string, back: string)
    requires AllSpace(front) && AllSpace(back)
    requires t == [] || (!IsSpace(t[0]) && !IsSpace(t[|t| - 1]))
    ensures TrimSpace(front + t + back) == t
  {
    var s := front + t + back;
    var lead := LeadingSpaces(s);
    if t == [] {
      assert AllSpace(s);
      assert lead == |s|;
    } else {
      assert s[|front|] == t[0];
      assert forall i :: 0 <= i < |front| ==> s[i] == front[i];
      assert lead == |front|;
      var rest := s[lead..];
      assert rest == t + back;
      var trail := TrailingSpaces(rest);
      assert rest[|t| - 1] == t[|t| - 1];
      assert forall i :: |t| <= i < |rest| ==> rest[i] == back[i - |t|];
      assert trail == |back|;
      assert rest[..|rest| - trail] == t;
    }
  }

  // ---------------------------------------------------------------------------
  // Decimal integers: strconv.FormatInt(n, 10) and strconv.ParseInt(s, 10, 64)
  // ---------------------------------------------------------------------------

  const MinInt64: int := -0x8000_0000_0000_0000
  const MaxInt64: int := 0x7FFF_FFFF_FFFF_FFFF

  predicate IsInt64(n: int)
  {
    MinInt64 <= n <= MaxInt64
  }

  predicate IsDigit(c: char)
  {
    '0' <= c <= '9'
  }

  predicate AllDigits(s: string)
  {
    forall i :: 0 <= i < |s| ==> IsDigit(s[i])
  }

  function DigitValue(c: char): nat
    requires IsDigit(c)
  {
    (c as int) - ('0' as int)
  }

  function DigitChar(d: nat): (c: char)
    requires d < 10
    ensures IsDigit(c) && DigitValue(c) == d
  {
    (('0' as int) + d) as char
  }

  /** The decimal digits of `n`, most significant first, with no leading zero. */
  function NatDigits(n: nat): (s: string)
    ensures |s| >= 1 && AllDigits(s)
    ensures s[0] == '0' ==> n == 0
    decreases n
  {
    if n < 10 then [DigitChar(n)] else NatDigits(n / 10) + [DigitChar(n % 10)]
  }

  /** The value of a string of decimal digits (leading zeros allowed). */
  function DigitsValue(s: string): nat
    requires AllDigits(s)
  {
    if s == [] then 0 else 10 * DigitsValue(s[..|s| - 1]) + DigitValue(s[|s| - 1])
  }

  lemma {:induction false} DigitsValueOfNatDigits(n: nat)
    ensures DigitsValue(NatDigits(n)) == n
  {
    if n >= 10 {
      var s := NatDigits(n);
      assert s[..|s| - 1] == NatDigits(n / 10);
      DigitsValueOfNatDigits(n / 10);
    }
  }

  /** A digit string that does not start with 0 has a positive value. */
  lemma {:induction false} LeadingDigitPositive(s: string)
    requires |s| >= 1 && AllDigits(s) && s[0] != '0'
    ensures DigitsValue(s) >= 1
  {
    if |s| > 1 {
      LeadingDigitPositive(s[..|s| - 1]);
    }
  }

  /** A canonical digit string is what NatDigits prints for its value. */
  lemma {:induction false} NatDigitsOfDigitsValue(s: string)
    requires |s| >= 1 && AllDigits(s) && (s[0] != '0' || |s| == 1)
    ensures NatDigits(DigitsValue(s)) == s
  {
    if |s| > 1 {
      var init := s[..|s| - 1];
      LeadingDigitPositive(init);
      NatDigitsOfDigitsValue(init);
      assert s == init + [s[|s| - 1]];
    }
  }

  /** `%d` of an integer: a minus sign for negative numbers, then the digits. */
  function FormatInt(n: int): (s: string)
    ensures |s| >= 1
    ensures forall i :: 0 <= i < |s| ==> IsDigit(s[i]) || (i == 0 && s[i] == '-')
  {
    if n < 0 then ['-'] + NatDigits(-n) else NatDigits(n)
  }

  /** An optional sign, then one or more decimal digits, whose value fits in 64 bits. */
  function ParseInt(s: string): (r: Option<int>)
    ensures r.Some? ==> IsInt64(r.value)
    // Accepted syntax: a digit or a sign first, digits after it, and a digit somewhere.
    ensures r.Some? ==> |s| >= 1 && (IsDigit(s[0]) || s[0] == '+' || s[0] == '-') && AllDigits(s[1..])
                        && (IsDigit(s[0]) || |s| >= 2)
    // The value: the digits after an optional sign, negated after '-'.
    ensures r.Some? && IsDigit(s[0]) ==> r.value == DigitsValue(s)
    ensures r.Some? && s[0] == '+' ==> r.value == DigitsValue(s[1..])
    ensures r.Some? && s[0] == '-' ==> r.value == -(DigitsValue(s[1..]) as int)
    // Conversely, every such text whose value fits in 64 bits is accepted.
    ensures |s| >= 1 && AllDigits(s) && IsInt64(DigitsValue(s)) ==> r.Some?
    ensures (|s| >= 2 && (s[0] == '+' || s[0] == '-') && AllDigits(s[1..])
             && IsInt64(if s[0] == '-' then -(DigitsValue(s[1..]) as int) else DigitsValue(s[1..]))) ==> r.Some?
  {
    var signed := |s| > 0 && (s[0] == '+' || s[0] == '-');
    var body := if signed then s[1..] else s;
    if body == [] || !AllDigits(body) then None
    else
      var magnitude: int := DigitsValue(body);
      var v: int := if signed && s[0] == '-' then -magnitude else magnitude;
      if IsInt64(v) then
        assert AllDigits(s[1..]) by {
          if !signed { assert forall i :: 1 <= i < |s| ==> s[1..][i - 1] == s[i]; }
        }
        Some(v)
      else None
  }

  /** Atoi accepts a plus sign, leading zeros and a negative zero, and rejects a bare sign or a stray letter. */
  lemma ParseIntExamples()
    ensures ParseInt("+5") == Some(5) && ParseInt("007") == Some(7) && ParseInt("-0") == Some(0)
    ensures ParseInt("") == None && ParseInt("-") == None && ParseInt("x5") == None && ParseInt("5 ") == None
  {
    assert "+5"[1..] == "5" && "5"[..0] == "";
    assert DigitsValue("5") == 5;
    assert "-0"[1..] == "0" && "0"[..0] == "";
    assert DigitsValue("0") == 0;
    assert "007"[..2] == "00" && "00"[..1] == "0";
    assert DigitsValue("00") == 0;
    assert DigitsValue("007") == 7;
    assert !IsDigit("5 "[1]);
  }

  /** Every 64-bit integer survives printing and parsing back. */
  lemma ParseFormatRoundTrip(n: int)
    requires IsInt64(n)
    ensures ParseInt(FormatInt(n)) == Some(n)
  {
    var s := FormatInt(n);
    if n < 0 {
      assert s[1..] == NatDigits(-n);
      DigitsValueOfNatDigits(-n);
    } else {
      assert IsDigit(s[0]);
      DigitsValueOfNatDigits(n);
    }
  }

  /** A parsed text without '+' sign or superfluous zeros is the text FormatInt prints. */
  lemma FormatParseRoundTrip(s: string)
    requires ParseInt(s).Some?
    requires s[0] != '+'
    requires var body := if s[0] == '-' then s[1..] else s;
             |body| >= 1 && (body[0] != '0' || (|body| == 1 && s[0] != '-'))
    ensures FormatInt(ParseInt(s).value) == s
  {
    if s[0] == '-' {
      var body := s[1..];
      LeadingDigitPositive(body);
      NatDigitsOfDigitsValue(body);
      assert s == ['-'] + body;
    } else {
      NatDigitsOfDigitsValue(s);
    }
  }

  /** Printed integers never contain the callback field separator. */
  lemma FormatIntHasNoColon(n: int)
    ensures ':' !in FormatInt(n)
  {
    var s := FormatInt(n);
    forall i | 0 <= i < |s| ensures s[i] != ':' {
    }
  }
}
