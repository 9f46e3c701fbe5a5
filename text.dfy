/**
 * The few string operations the windows and the recognizer rely on: decimal rendering
 * of integers (Python's `str(int)` inside an f-string), Python's `int(text)` for base-10
 * text, and Python's `text.split(":")`.
 */
module Text {
  import opened Wrappers

  /** The code point of digit zero of the run of ten decimal digits (general category Nd
      of Unicode 15, beyond ASCII) that holds code point `k`; each run counts 0 to 9
      upwards from its zero, and the runs are tested in code point order. */
  function OtherDigitZero(k: int): (z: Option<int>)
    ensures z.Some? ==> z.value <= k < z.value + 10
  {
    if k < 0x660 then None else if k < 0x660 + 10 then Some(0x660)
    else if k < 0x6F0 then None else if k < 0x6F0 + 10 then Some(0x6F0)
    else if k < 0x7C0 then None else if k < 0x7C0 + 10 then Some(0x7C0)
    else if k < 0x966 then None else if k < 0x966 + 10 then Some(0x966)
    else if k < 0x9E6 then None else if k < 0x9E6 + 10 then Some(0x9E6)
    else if k < 0xA66 then None else if k < 0xA66 + 10 then Some(0xA66)
    else if k < 0xAE6 then None else if k < 0xAE6 + 10 then Some(0xAE6)
    else if k < 0xB66 then None else if k < 0xB66 + 10 then Some(0xB66)
    else if k < 0xBE6 then None else if k < 0xBE6 + 10 then Some(0xBE6)
    else if k < 0xC66 then None else if k < 0xC66 + 10 then Some(0xC66)
    else if k < 0xCE6 then None else if k < 0xCE6 + 10 then Some(0xCE6)
    else if k < 0xD66 then None else if k < 0xD66 + 10 then Some(0xD66)
    else if k < 0xDE6 then None else if k < 0xDE6 + 10 then Some(0xDE6)
    else if k < 0xE50 then None else if k < 0xE50 + 10 then Some(0xE50)
    else if k < 0xED0 then None else if k < 0xED0 + 10 then Some(0xED0)
    else if k < 0xF20 then None else if k < 0xF20 + 10 then Some(0xF20)
    else if k < 0x1040 then None else if k < 0x1040 + 10 then Some(0x1040)
    else if k < 0x1090 then None else if k < 0x1090 + 10 then Some(0x1090)
    else if k < 0x17E0 then None else if k < 0x17E0 + 10 then Some(0x17E0)
    else if k < 0x1810 then None else if k < 0x1810 + 10 then Some(0x1810)
    else if k < 0x1946 then None else if k < 0x1946 + 10 then Some(0x1946)
    else if k < 0x19D0 then None else if k < 0x19D0 + 10 then Some(0x19D0)
    else if k < 0x1A80 then None else if k < 0x1A80 + 10 then Some(0x1A80)
    else if k < 0x1A90 then None else if k < 0x1A90 + 10 then Some(0x1A90)
    else if k < 0x1B50 then None else if k < 0x1B50 + 10 then Some(0x1B50)
    else if k < 0x1BB0 then None else if k < 0x1BB0 + 10 then Some(0x1BB0)
    else if k < 0x1C40 then None else if k < 0x1C40 + 10 then Some(0x1C40)
    else if k < 0x1C50 then None else if k < 0x1C50 + 10 then Some(0x1C50)
    else if k < 0xA620 then None else if k < 0xA620 + 10 then Some(0xA620)
    else if k < 0xA8D0 then None else if k < 0xA8D0 + 10 then Some(0xA8D0)
    else if k < 0xA900 then None else if k < 0xA900 + 10 then Some(0xA900)
    else if k < 0xA9D0 then None else if k < 0xA9D0 + 10 then Some(0xA9D0)
    else if k < 0xA9F0 then None else if k < 0xA9F0 + 10 then Some(0xA9F0)
    else if k < 0xAA50 then None else if k < 0xAA50 + 10 then Some(0xAA50)
    else if k < 0xABF0 then None else if k < 0xABF0 + 10 then Some(0xABF0)
    else if k < 0xFF10 then None else if k < 0xFF10 + 10 then Some(0xFF10)
    else if k < 0x104A0 then None else if k < 0x104A0 + 10 then Some(0x104A0)
    else if k < 0x10D30 then None else if k < 0x10D30 + 10 then Some(0x10D30)
    else if k < 0x11066 then None else if k < 0x11066 + 10 then Some(0x11066)
    else if k < 0x110F0 then None else if k < 0x110F0 + 10 then Some(0x110F0)
    else if k < 0x11136 then None else if k < 0x11136 + 10 then Some(0x11136)
    else if k < 0x111D0 then None else if k < 0x111D0 + 10 then Some(0x111D0)
    else if k < 0x112F0 then None else if k < 0x112F0 + 10 then Some(0x112F0)
    else if k < 0x11450 then None else if k < 0x11450 + 10 then Some(0x11450)
    else if k < 0x114D0 then None else if k < 0x114D0 + 10 then Some(0x114D0)
    else if k < 0x11650 then None else if k < 0x11650 + 10 then Some(0x11650)
    else if k < 0x116C0 then None else if k < 0x116C0 + 10 then Some(0x116C0)
    else if k < 0x11730 then None else if k < 0x11730 + 10 then Some(0x11730)
    else if k < 0x118E0 then None else if k < 0x118E0 + 10 then Some(0x118E0)
    else if k < 0x11950 then None else if k < 0x11950 + 10 then Some(0x11950)
    else if k < 0x11C50 then None else if k < 0x11C50 + 10 then Some(0x11C50)
    else if k < 0x11D50 then None else if k < 0x11D50 + 10 then Some(0x11D50)
    else if k < 0x11DA0 then None else if k < 0x11DA0 + 10 then Some(0x11DA0)
    else if k < 0x11F50 then None else if k < 0x11F50 + 10 then Some(0x11F50)
    else if k < 0x16A60 then None else if k < 0x16A60 + 10 then Some(0x16A60)
    else if k < 0x16AC0 then None else if k < 0x16AC0 + 10 then Some(0x16AC0)
    else if k < 0x16B50 then None else if k < 0x16B50 + 10 then Some(0x16B50)
    else if k < 0x1D7CE then None else if k < 0x1D7CE + 10 then Some(0x1D7CE)
    else if k < 0x1D7D8 then None else if k < 0x1D7D8 + 10 then Some(0x1D7D8)
    else if k < 0x1D7E2 then None else if k < 0x1D7E2 + 10 then Some(0x1D7E2)
    else if k < 0x1D7EC then None else if k < 0x1D7EC + 10 then Some(0x1D7EC)
    else if k < 0x1D7F6 then None else if k < 0x1D7F6 + 10 then Some(0x1D7F6)
    else if k < 0x1E140 then None else if k < 0x1E140 + 10 then Some(0x1E140)
    else if k < 0x1E2F0 then None else if k < 0x1E2F0 + 10 then Some(0x1E2F0)
    else if k < 0x1E4F0 then None else if k < 0x1E4F0 + 10 then Some(0x1E4F0)
    else if k < 0x1E950 then None else if k < 0x1E950 + 10 then Some(0x1E950)
    else if k < 0x1FBF0 then None else if k < 0x1FBF0 + 10 then Some(0x1FBF0)
    else None
  }

  /** A decimal digit of another script than ASCII. */
  predicate IsOtherDigit(c: char)
  {
    OtherDigitZero(c as int).Some?
  }

  /** A Unicode decimal digit, which Python's `int(text)` accepts in any script. */
  predicate IsDigit(c: char)
  {
    '0' <= c <= '9' || IsOtherDigit(c)
  }

  /** The value of a decimal digit: its distance from its run's zero. */
  function DigitValue(c: char): (d: nat)
    requires IsDigit(c)
    ensures d < 10
  {
    if '0' <= c <= '9' then (c as int) - ('0' as int)
    else (c as int) - OtherDigitZero(c as int).value
  }

  /** The characters `int(text)` strips: among ASCII only \t \n \v \f \r and the space
      (\x1c-\x1f, though `str.isspace()` holds of them, are kept and make the text invalid);
      beyond ASCII every character `str.isspace()` holds of, namely U+0085, U+00A0, U+1680,
      U+2000-U+200A, U+2028, U+2029, U+202F, U+205F and U+3000. */
  predicate IsSpace(c: char)
  {
    var k := c as int;
    9 <= k <= 13 || k == 32 || k == 0x85 || k == 0xA0 || k == 0x1680 ||
    0x2000 <= k <= 0x200A || k == 0x2028 || k == 0x2029 || k == 0x202F || k == 0x205F || k == 0x3000
  }

  function DigitChar(d: nat): (c: char)
    requires d < 10
    ensures IsDigit(c) && DigitValue(c) == d
  {
    (d + '0' as int) as char
  }

  /** Decimal digits of a natural number, most significant first, with no leading zero. */
  function NatToString(n: nat): (s: string)
    ensures |s| > 0 && forall i | 0 <= i < |s| :: '0' <= s[i] <= '9'
    ensures s[0] == '0' ==> n == 0
  {
    if n < 10 then [DigitChar(n)] else NatToString(n / 10) + [DigitChar(n % 10)]
  }

  /** `str(n)` for a Python int. */
  function IntToString(n: int): string
  {
    if n < 0 then "-" + NatToString(-n) else NatToString(n)
  }

  /** Every character of `str(n)` is a digit, except a leading minus sign. */
  lemma IntToStringChars(n: int)
    ensures |IntToString(n)| > 0
    ensures forall i | 0 <= i < |IntToString(n)| ::
      '0' <= IntToString(n)[i] <= '9' || (i == 0 && IntToString(n)[i] == '-')
  {
  }

  /** Value of the digits of `s`, skipping any other character (the underscores Python
      allows between digits). */
  function DigitsValue(s: string): nat
  {
    if |s| == 0 then 0
    else if IsDigit(s[|s| - 1]) then DigitsValue(s[..|s| - 1]) * 10 + DigitValue(s[|s| - 1])
    else DigitsValue(s[..|s| - 1])
  }

  /** Digits, where a single underscore may stand between two digits. */
  predicate WellFormedDigits(b: string)
  {
    |b| > 0 &&
    forall i | 0 <= i < |b| :: IsDigit(b[i]) || (b[i] == '_' && 0 < i < |b| - 1 && IsDigit(b[i + 1]))
  }

  /** The number of digits in digit text: every character but the underscores. */
  function DigitCount(s: string): nat
  {
    if |s| == 0 then 0 else DigitCount(s[..|s| - 1]) + (if s[|s| - 1] == '_' then 0 else 1)
  }

  /** The most digits `int(text)` converts (`sys.int_info.default_max_str_digits`); longer
      decimal text raises `ValueError`. */
  const MaxStrDigits := 4300

  function StripLeft(s: string): string
  {
    if |s| > 0 && IsSpace(s[0]) then StripLeft(s[1..]) else s
  }

  function StripRight(s: string): string
  {
    if |s| > 0 && IsSpace(s[|s| - 1]) then StripRight(s[..|s| - 1]) else s
  }

  /** `int()` of text already stripped of surrounding whitespace: an optional sign, then
      decimal digits of any script with single underscores between them, at most
      `MaxStrDigits` digits. */
  function ParseStripped(t: string): (r: Option<int>)
    ensures r.Some? ==> exists i | 0 <= i < |t| :: IsDigit(t[i])
  {
    if |t| > 0 && (t[0] == '-' || t[0] == '+') then
      var body := t[1..];
      if WellFormedDigits(body) && DigitCount(body) <= MaxStrDigits then
        assert IsDigit(t[1]);
        var v: int := DigitsValue(body);
        Some(if t[0] == '-' then -v else v)
      else None
    else if WellFormedDigits(t) && DigitCount(t) <= MaxStrDigits then
      assert IsDigit(t[0]);
      Some(DigitsValue(t))
    else None
  }

  /** Python's `int(text)`: the surrounding whitespace stripped, then `ParseStripped`;
      anything `ParseStripped` refuses raises `ValueError` (None here). */
  function ParseInt(s: string): (r: Option<int>)
    ensures r.Some? ==> exists i | 0 <= i < |s| :: IsDigit(s[i])
  {
    var t := StripRight(StripLeft(s));
    StrippedIsInfix(s);
    ParseStripped(t)
  }

  lemma {:induction false} StripLeftInfix(s: string)
    ensures exists k | 0 <= k <= |s| :: StripLeft(s) == s[k..]
  {
    if |s| > 0 && IsSpace(s[0]) {
      StripLeftInfix(s[1..]);
      var k :| 0 <= k <= |s[1..]| && StripLeft(s[1..]) == s[1..][k..];
      assert StripLeft(s) == s[k + 1..];
    } else {
      assert StripLeft(s) == s[0..];
    }
  }

  lemma {:induction false} StripRightInfix(s: string)
    ensures exists k | 0 <= k <= |s| :: StripRight(s) == s[..k]
  {
    if |s| > 0 && IsSpace(s[|s| - 1]) {
      StripRightInfix(s[..|s| - 1]);
      var k :| 0 <= k <= |s| - 1 && StripRight(s[..|s| - 1]) == s[..|s| - 1][..k];
      assert StripRight(s) == s[..k];
    } else {
      assert StripRight(s) == s[..|s|];
    }
  }

  /** Stripping keeps a contiguous part of the text. */
  lemma StrippedIsInfix(s: string)
    ensures forall i | 0 <= i < |StripRight(StripLeft(s))| ::
      exists j | 0 <= j < |s| :: s[j] == StripRight(StripLeft(s))[i]
  {
    StripLeftInfix(s);
    var a :| 0 <= a <= |s| && StripLeft(s) == s[a..];
    StripRightInfix(StripLeft(s));
    var b :| 0 <= b <= |StripLeft(s)| && StripRight(StripLeft(s)) == StripLeft(s)[..b];
    var t := StripRight(StripLeft(s));
    assert t == s[a..a + b];
    forall i | 0 <= i < |t|
      ensures exists j | 0 <= j < |s| :: s[j] == t[i]
    {
      assert t[i] == s[a + i];
    }
  }

  lemma {:induction false} DigitsValueOfNatToString(n: nat)
    ensures DigitsValue(NatToString(n)) == n
  {
    var s := NatToString(n);
    if n < 10 {
      assert s[..0] == [];
    } else {
      DigitsValueOfNatToString(n / 10);
      assert s[..|s| - 1] == NatToString(n / 10);
    }
  }

  /** Text that neither starts nor ends with whitespace is left as it is by stripping. */
  lemma StripNoSpace(s: string)
    requires |s| > 0 && !IsSpace(s[0]) && !IsSpace(s[|s| - 1])
    ensures StripRight(StripLeft(s)) == s && ParseInt(s) == ParseStripped(s)
  {
  }

  /** Text of ASCII digits alone has as many digits as characters. */
  lemma {:induction false} DigitCountOfDigits(s: string)
    requires forall i | 0 <= i < |s| :: '0' <= s[i] <= '9'
    ensures DigitCount(s) == |s|
  {
    if |s| > 0 {
      DigitCountOfDigits(s[..|s| - 1]);
    }
  }

  /** The digits of `str(n)` for a natural `n` are well formed, as many as its characters,
      and read back as `n`. */
  lemma NatToStringReads(n: nat)
    ensures WellFormedDigits(NatToString(n)) && DigitsValue(NatToString(n)) == n
    ensures DigitCount(NatToString(n)) == |NatToString(n)|
  {
    DigitsValueOfNatToString(n);
    DigitCountOfDigits(NatToString(n));
  }

  /** `str(n)` has at most `MaxStrDigits` digits, so `int()` converts it back. */
  predicate WithinDigitLimit(n: int)
  {
    |NatToString(if n < 0 then -n else n)| <= MaxStrDigits
  }

  /** Unsigned digits within the limit are read as their value. */
  lemma ParseIntOfDigits(t: string)
    requires WellFormedDigits(t) && DigitCount(t) <= MaxStrDigits
    requires '0' <= t[0] <= '9'
    ensures ParseStripped(t) == Some(DigitsValue(t))
  {
  }

  /** A minus sign and digits within the limit are read as the negated value. */
  lemma ParseIntOfMinus(s: string)
    requires |s| > 1 && s[0] == '-'
    requires WellFormedDigits(s[1..]) && DigitCount(s[1..]) <= MaxStrDigits
    ensures ParseStripped(s) == Some(-(DigitsValue(s[1..]) as int))
  {
  }

  /** A minus sign before well-formed digits that end in an ASCII digit negates them. */
  lemma ParseIntOfNegated(d: string)
    requires WellFormedDigits(d) && DigitCount(d) <= MaxStrDigits && '0' <= d[|d| - 1] <= '9'
    ensures ParseInt("-" + d) == Some(-(DigitsValue(d) as int))
  {
    var s := "-" + d;
    assert s[0] == '-' && s[1..] == d && s[|s| - 1] == d[|d| - 1];
    StripNoSpace(s);
    ParseIntOfMinus(s);
  }

  /** `int(str(n)) == n` for a natural `n` within the digit limit. */
  lemma ParseIntOfNatToString(n: nat)
    requires |NatToString(n)| <= MaxStrDigits
    ensures ParseInt(NatToString(n)) == Some(n)
  {
    var s := NatToString(n);
    StripNoSpace(s);
    NatToStringReads(n);
    ParseIntOfDigits(s);
  }

  /** `int(str(-m)) == -m` for a natural `m` within the digit limit. */
  lemma ParseIntOfNegative(m: nat)
    requires |NatToString(m)| <= MaxStrDigits
    ensures ParseInt("-" + NatToString(m)) == Some(-(m as int))
  {
    NatToStringReads(m);
    ParseIntOfNegated(NatToString(m));
  }

  /** `int(str(n)) == n`: the decimal rendering of a number within the digit limit is read
      back as the same number. */
  lemma ParseIntOfIntToString(n: int)
    requires WithinDigitLimit(n)
    ensures ParseInt(IntToString(n)) == Some(n)
  {
    if n < 0 {
      var m: nat := -n;
      assert IntToString(n) == "-" + NatToString(m);
      ParseIntOfNegative(m);
    } else {
      assert IntToString(n) == NatToString(n);
      ParseIntOfNatToString(n);
    }
  }

  /** Decimal text of more than `MaxStrDigits` digits raises `ValueError`. */
  lemma LongDecimalRaises(n: nat)
    requires |NatToString(n)| > MaxStrDigits
    ensures ParseInt(NatToString(n)) == None
  {
    var s := NatToString(n);
    StripNoSpace(s);
    NatToStringReads(n);
  }

  /** `int("\x1c5")` raises: \x1c is not stripped. */
  lemma FileSeparatorKept()
    ensures ParseInt("\U{001C}5") == None
  {
    var s := "\U{001C}5";
    StripNoSpace(s);
    assert !WellFormedDigits(s);
  }

  /** `int("\xa05") == 5`: the no-break space is whitespace to Python. */
  lemma NoBreakSpaceStripped()
    ensures ParseInt("\U{00A0}5") == Some(5)
  {
    assert StripLeft("\U{00A0}5") == "5";
    assert "5"[..0] == [];
  }

  /** `int("\uff15") == 5`: a fullwidth digit counts as its ASCII value. */
  lemma FullwidthDigit()
    ensures ParseInt("\U{FF15}") == Some(5)
  {
    assert "\U{FF15}"[..0] == [];
  }

  /** Distinct numbers render differently. */
  lemma IntToStringInjective(a: int, b: int)
    requires IntToString(a) == IntToString(b)
    ensures a == b
  {
    var sa, sb := IntToString(a), IntToString(b);
    if a < 0 {
      assert sa[1..] == NatToString(-a);
    }
    if b < 0 {
      assert sb[1..] == NatToString(-b);
    }
    DigitsValueOfNatToString(if a < 0 then -a else a);
    DigitsValueOfNatToString(if b < 0 then -b else b);
  }

  function ColonCount(s: string): nat
  {
    if |s| == 0 then 0 else (if s[0] == ':' then 1 else 0) + ColonCount(s[1..])
  }

  /** Python's `s.split(":")`: the pieces between colons, one more piece than colons. */
  function SplitColon(s: string): (parts: seq<string>)
    ensures |parts| == ColonCount(s) + 1
  {
    if |s| == 0 then [""]
    else if s[0] == ':' then [""] + SplitColon(s[1..])
    else
      var rest := SplitColon(s[1..]);
      [[s[0]] + rest[0]] + rest[1..]
  }

  /** Text without a colon splits into itself alone. */
  lemma {:induction false} SplitNoColon(s: string)
    requires ':' !in s
    ensures SplitColon(s) == [s]
  {
    if |s| > 0 {
      assert s[0] in s;
      assert forall c | c in s[1..] :: c in s;
      SplitNoColon(s[1..]);
      assert [s[0]] + s[1..] == s;
    }
  }

  /** `(a + ":" + b).split(":") == [a, b]` when neither part holds a colon. */
  lemma {:induction false} SplitTwo(a: string, b: string)
    requires ':' !in a && ':' !in b
    ensures SplitColon(a + ":" + b) == [a, b]
  {
    var s := a + ":" + b;
    if |a| == 0 {
      assert s[0] == ':' && s[1..] == b;
      SplitNoColon(b);
    } else {
      assert a[0] in a;
      assert forall c | c in a[1..] :: c in a;
      SplitTwo(a[1..], b);
      assert s[1..] == a[1..] + ":" + b;
      assert [a[0]] + a[1..] == a;
    }
  }
}
