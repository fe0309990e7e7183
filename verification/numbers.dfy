/** Python's `int(str)` and `float(str)` conversions as the sensor path uses
    them: surrounding whitespace is ignored, an optional sign, ASCII digits
    with single underscores between them, and for floats an optional fraction,
    an optional exponent, or one of the words `inf`, `infinity`, `nan` in any
    letter case. */
module Numbers {
  import opened Wrappers
  import Text

  /** A Python float as the model carries it: a finite value, kept exactly,
      an infinity, or NaN. */
  datatype Float = Finite(value: real) | Infinite(negative: bool) | NaN

  predicate IsDigit(c: char) {
    '0' <= c <= '9'
  }

  function DigitValue(c: char): (d: nat)
    requires IsDigit(c)
    ensures d < 10
  {
    (c as int) - ('0' as int)
  }

  /** `digit (["_"] digit)*`: the run of digits both conversions accept. */
  predicate IsDigitPart(s: string) {
    && |s| > 0
    && IsDigit(s[0])
    && IsDigit(s[|s| - 1])
    && (forall i :: 0 <= i < |s| ==> IsDigit(s[i]) || s[i] == '_')
    && (forall i :: 0 < i < |s| ==> IsDigit(s[i - 1]) || IsDigit(s[i]))
  }

  /** The number a run of digits denotes; underscores only separate. */
  function DigitsValue(s: string): nat
    decreases |s|
  {
    if |s| == 0 then 0
    else if IsDigit(s[|s| - 1]) then 10 * DigitsValue(s[..|s| - 1]) + DigitValue(s[|s| - 1])
    else DigitsValue(s[..|s| - 1])
  }

  /** How many digits (not underscores) a run holds: the scale of a fraction. */
  function DigitCount(s: string): nat
    decreases |s|
  {
    if |s| == 0 then 0
    else (if IsDigit(s[|s| - 1]) then 1 else 0) + DigitCount(s[..|s| - 1])
  }

  /** `10^n`; never zero, so the fraction and exponent divisions below are
      defined. */
  function Pow10(n: nat): (p: nat)
    ensures p >= 1
  {
    if n == 0 then 1 else 10 * Pow10(n - 1)
  }

  /** `v * 10^e` for a possibly negative exponent. */
  function Scale(v: real, e: int): real {
    if e >= 0 then v * (Pow10(e) as real) else v / (Pow10(-e) as real)
  }

  /** An optional leading `+` or `-`, split off: (is it negative, the rest). */
  function SplitSign(t: string): (string, bool) {
    if |t| > 0 && (t[0] == '+' || t[0] == '-') then (t[1..], t[0] == '-') else (t, false)
  }

  function Signed(negative: bool, v: int): int {
    if negative then -v else v
  }

  /** The four information separators U+001C..U+001F: `str.isspace()` holds
      of them, so `strip()` removes them, but `int()` and `float()` do not skip
      them (they skip only ASCII TAB..CR and SPACE, after turning every
      non-ASCII whitespace character into a SPACE). */
  const InfoSeparators: set<char> := {'\U{1C}', '\U{1D}', '\U{1E}', '\U{1F}'}

  /** The whitespace `int()` and `float()` ignore around a number. */
  const NumberSpace: set<char> := Text.SpaceChars - InfoSeparators

  /** The text `int()` and `float()` actually read: `s` without the
      surrounding whitespace they ignore. */
  function NumberStrip(s: string): (r: string)
    ensures |r| == 0 || (r[0] !in NumberSpace && r[|r| - 1] !in NumberSpace)
    ensures |r| <= |s|
  {
    Text.StripChars(s, NumberSpace)
  }

  /** CPython's default limit on the digits of a decimal string `int()` will
      convert (`sys.int_info.default_max_str_digits`); longer ones raise
      ValueError. Underscores and the sign do not count, leading zeros do. */
  const MaxStrDigits: nat := 4300

  /** Python's `int(s)` in base 10; None where Python raises ValueError. */
  function ParseInt(s: string): (r: Option<int>)
    ensures var (body, negative) := SplitSign(NumberStrip(s));
      r.Some? <==> IsDigitPart(body) && DigitCount(body) <= MaxStrDigits
    ensures var (body, negative) := SplitSign(NumberStrip(s));
      r.Some? ==> r.value == Signed(negative, DigitsValue(body))
  {
    var (body, negative) := SplitSign(NumberStrip(s));
    if IsDigitPart(body) && DigitCount(body) <= MaxStrDigits then Some(Signed(negative, DigitsValue(body))) else None
  }

  /** Index of the first occurrence of a character of `cs` in `s`, or `|s|`. */
  function IndexOf(s: string, cs: set<char>): (i: nat)
    ensures i <= |s|
    ensures forall k :: 0 <= k < i ==> s[k] !in cs
    ensures i < |s| ==> s[i] in cs
    decreases |s|
  {
    if |s| == 0 then 0
    else if s[0] in cs then 0
    else 1 + IndexOf(s[1..], cs)
  }

  /** `number ::= [digitpart] "." digitpart | digitpart ["."]`, with its value. */
  function ParseMantissa(m: string): Option<real> {
    var d := IndexOf(m, {'.'});
    if d == |m| then
      if IsDigitPart(m) then Some(DigitsValue(m) as real) else None
    else
      var whole := m[..d];
      var frac := m[d + 1..];
      if (|whole| == 0 && |frac| == 0)
         || (|whole| > 0 && !IsDigitPart(whole))
         || (|frac| > 0 && !IsDigitPart(frac))
      then None
      else Some(DigitsValue(whole) as real + (DigitsValue(frac) as real) / (Pow10(DigitCount(frac)) as real))
  }

  /** `exponent ::= ("e" | "E") ["+" | "-"] digitpart`, the part after the letter. */
  function ParseExponent(x: string): Option<int> {
    var (body, negative) := SplitSign(x);
    if IsDigitPart(body) then Some(Signed(negative, DigitsValue(body))) else None
  }

  /** `floatnumber ::= number [exponent]`, unsigned. */
  function ParseDecimal(s: string): Option<real> {
    var e := IndexOf(s, {'e', 'E'});
    match ParseMantissa(s[..e])
    case None => None
    case Some(v) =>
      if e == |s| then Some(v)
      else
        match ParseExponent(s[e + 1..])
        case None => None
        case Some(x) => Some(Scale(v, x))
  }

  /** ASCII letters in lower case, every other character as it is. */
  function LowerAscii(s: string): (r: string)
    ensures |r| == |s|
    ensures forall i :: 0 <= i < |s| && !('A' <= s[i] <= 'Z') ==> r[i] == s[i]
    decreases |s|
  {
    if |s| == 0 then ""
    else [if 'A' <= s[0] <= 'Z' then (s[0] as int + 32) as char else s[0]] + LowerAscii(s[1..])
  }

  /** Python's `float(s)`; None where Python raises ValueError. */
  function ParseFloat(s: string): (r: Option<Float>)
    ensures r.Some? ==> |NumberStrip(s)| > 0
  {
    var signed := SplitSign(NumberStrip(s));
    FloatBody(signed.0, signed.1)
  }

  /** The unsigned part of a float literal: one of the words, in any letter
      case, or a decimal number. */
  function FloatBody(body: string, negative: bool): (r: Option<Float>)
    ensures r.Some? ==> |body| > 0
  {
    var word := LowerAscii(body);
    if word == "inf" || word == "infinity" then Some(Infinite(negative))
    else if word == "nan" then Some(NaN)
    else
      match ParseDecimal(body)
      case None => None
      case Some(v) => Some(Finite(if negative then -v else v))
  }

  /** Python's `str(n)` for a non-negative integer. */
  function NatText(n: nat): (t: string)
    ensures |t| > 0
    ensures forall i :: 0 <= i < |t| ==> IsDigit(t[i])
    decreases n
  {
    if n < 10 then [(('0' as int) + n) as char]
    else NatText(n / 10) + [(('0' as int) + n % 10) as char]
  }

  /** Python's `str(n)`. */
  function IntText(n: int): string {
    if n < 0 then "-" + NatText(-n) else NatText(n)
  }

  /** The digits `str` writes denote the number back. */
  lemma {:induction false} NatTextValue(n: nat)
    ensures IsDigitPart(NatText(n))
    ensures DigitsValue(NatText(n)) == n
    ensures DigitCount(NatText(n)) == |NatText(n)|
    decreases n
  {
    var t := NatText(n);
    if n >= 10 {
      NatTextValue(n / 10);
      assert t[..|t| - 1] == NatText(n / 10);
    }
  }

  /** The text `str` writes for an integer has no whitespace at its ends, so
      `strip()` leaves it alone, and splitting off its sign leaves the digits. */
  lemma IntTextShape(n: int)
    ensures Text.Strip(IntText(n)) == IntText(n)
    ensures NumberStrip(IntText(n)) == IntText(n)
    ensures SplitSign(IntText(n)) == (NatText(if n < 0 then -n else n), n < 0)
  {
    var t := IntText(n);
    var body := NatText(if n < 0 then -n else n);
    assert IsDigit(body[|body| - 1]);
    assert !Text.IsSpace(body[|body| - 1]);
    assert t[|t| - 1] == body[|body| - 1];
    if n < 0 {
      assert t[0] == '-' && !Text.IsSpace('-');
      assert t[1..] == body;
    } else {
      assert IsDigit(t[0]) && !Text.IsSpace(t[0]);
    }
    Text.StripTrimmed(t);
    Text.StripCharsKeeps(t, NumberSpace);
  }

  /** `int(str(n)) == n` for every integer whose digits are within the
      conversion limit; beyond it `int()` refuses the text. */
  lemma IntRoundTrip(n: int)
    ensures ParseInt(IntText(n))
         == if |NatText(if n < 0 then -n else n)| <= MaxStrDigits then Some(n) else None
  {
    NatTextValue(if n < 0 then -n else n);
    IntTextShape(n);
  }

  lemma IndexOfAbsent(s: string, cs: set<char>)
    requires forall k :: 0 <= k < |s| ==> s[k] !in cs
    ensures IndexOf(s, cs) == |s|
  {
  }

  /** A run of digits parses as an unsigned decimal with its own value. */
  lemma DecimalOfDigits(body: string)
    requires IsDigitPart(body)
    ensures ParseDecimal(body) == Some(DigitsValue(body) as real)
  {
    IndexOfAbsent(body, {'.'});
    assert ParseMantissa(body) == Some(DigitsValue(body) as real);
    IndexOfAbsent(body, {'e', 'E'});
    assert body[..|body|] == body;
  }

  /** A body that starts with a digit is not one of the words, so it is read
      as a decimal number. */
  lemma FloatBodyOfNumeral(body: string, negative: bool)
    requires |body| > 0 && IsDigit(body[0])
    ensures FloatBody(body, negative) == (
      match ParseDecimal(body)
      case None => None
      case Some(v) => Some(Finite(if negative then -v else v)))
  {
    var word := LowerAscii(body);
    assert word[0] == body[0];
    assert word != "inf" by {
      assert "inf"[0] == 'i';
    }
    assert word != "infinity" by {
      assert "infinity"[0] == 'i';
    }
    assert word != "nan" by {
      assert "nan"[0] == 'n';
    }
  }

  lemma FloatOfIntTextSplits(n: int)
    ensures ParseFloat(IntText(n)) == FloatBody(NatText(if n < 0 then -n else n), n < 0)
  {
    IntTextShape(n);
  }

  lemma FloatBodyOfNatText(m: nat, negative: bool)
    ensures FloatBody(NatText(m), negative) == Some(Finite(if negative then -(m as real) else m as real))
  {
    var body := NatText(m);
    NatTextValue(m);
    DecimalOfDigits(body);
    FloatBodyOfNumeral(body, negative);
  }

  /** `float(str(n)) == n` for every integer. */
  lemma FloatOfIntText(n: int)
    ensures ParseFloat(IntText(n)) == Some(Finite(n as real))
  {
    FloatOfIntTextSplits(n);
    FloatBodyOfNatText(if n < 0 then -n else n, n < 0);
  }

  /** Text `int()` accepts, `float()` accepts too, with the same value. */
  lemma IntTextIsFloat(s: string)
    ensures ParseInt(s).Some? ==> ParseFloat(s) == Some(Finite(ParseInt(s).value as real))
  {
    var signed := SplitSign(NumberStrip(s));
    if ParseInt(s).Some? {
      FloatBodyOfDigitPart(signed.0, signed.1);
    }
  }

  /** A signed digit run reads as the same number under `float()`. */
  lemma FloatBodyOfDigitPart(body: string, negative: bool)
    requires IsDigitPart(body)
    ensures FloatBody(body, negative) == Some(Finite(Signed(negative, DigitsValue(body)) as real))
  {
    DecimalOfDigits(body);
    FloatBodyOfNumeral(body, negative);
  }

  /** The digits of `s`, in order, without anything else (the underscores of
      a digit run). */
  function Digits(s: string): (d: string)
    ensures |d| == DigitCount(s)
    ensures forall i :: 0 <= i < |d| ==> IsDigit(d[i])
    decreases |s|
  {
    if |s| == 0 then ""
    else Digits(s[..|s| - 1]) + (if IsDigit(s[|s| - 1]) then [s[|s| - 1]] else [])
  }

  /** A string of digits without its leading zeros, keeping one digit. */
  function DropLeadingZeros(d: string): (r: string)
    ensures |d| > 0 ==> |r| > 0 && (|r| == 1 || r[0] != '0')
    ensures |r| <= |d| && r == d[|d| - |r|..]
    decreases |d|
  {
    if |d| > 1 && d[0] == '0' then DropLeadingZeros(d[1..]) else d
  }

  lemma {:induction false} DigitsKeepValue(s: string)
    ensures DigitsValue(Digits(s)) == DigitsValue(s)
    decreases |s|
  {
    if |s| > 0 {
      var d := Digits(s);
      var init := s[..|s| - 1];
      DigitsKeepValue(init);
      if IsDigit(s[|s| - 1]) {
        assert d[..|d| - 1] == Digits(init);
      } else {
        assert d == Digits(init);
      }
    }
  }

  /** A leading zero adds nothing to a digit string's value. */
  lemma {:induction false} LeadingZeroValue(d: string)
    ensures DigitsValue("0" + d) == DigitsValue(d)
    decreases |d|
  {
    var z := "0" + d;
    if |d| == 0 {
      assert z[..0] == "";
    } else {
      LeadingZeroValue(d[..|d| - 1]);
      assert z[..|z| - 1] == "0" + d[..|d| - 1];
      assert z[|z| - 1] == d[|d| - 1];
    }
  }

  lemma {:induction false} DropLeadingZerosValue(d: string)
    ensures DigitsValue(DropLeadingZeros(d)) == DigitsValue(d)
    decreases |d|
  {
    if |d| > 1 && d[0] == '0' {
      DropLeadingZerosValue(d[1..]);
      LeadingZeroValue(d[1..]);
      assert d == "0" + d[1..];
    }
  }

  /** A digit string that does not start with 0 denotes a positive number. */
  lemma {:induction false} NonZeroLeadPositive(d: string)
    requires |d| > 0 && d[0] != '0'
    requires forall i :: 0 <= i < |d| ==> IsDigit(d[i])
    ensures DigitsValue(d) > 0
    decreases |d|
  {
    if |d| > 1 {
      NonZeroLeadPositive(d[..|d| - 1]);
    }
  }

  /** `str` writes a number as its digit string with no leading zero. */
  lemma {:induction false} NatTextOfDigits(d: string)
    requires |d| > 0 && (|d| == 1 || d[0] != '0')
    requires forall i :: 0 <= i < |d| ==> IsDigit(d[i])
    ensures NatText(DigitsValue(d)) == d
    decreases |d|
  {
    var c := d[|d| - 1];
    if |d| > 1 {
      var init := d[..|d| - 1];
      NonZeroLeadPositive(init);
      NatTextOfDigits(init);
      var n := DigitsValue(d);
      assert n / 10 == DigitsValue(init) && n % 10 == DigitValue(c);
      assert d == init + [c];
    }
  }

  /** What `int()` accepted is the number `str` would write back: the digits
      read, underscores and leading zeros left out, are exactly the digits of
      the result, and a nonzero result carries the sign that was read. */
  lemma ParseIntCanonical(s: string)
    ensures var (body, negative) := SplitSign(NumberStrip(s));
      ParseInt(s).Some? ==>
        var n := ParseInt(s).value;
        && DropLeadingZeros(Digits(body)) == NatText(if n < 0 then -n else n)
        && (n < 0 ==> negative)
        && (n > 0 ==> !negative)
  {
    var signed := SplitSign(NumberStrip(s));
    if ParseInt(s).Some? {
      var v := DigitsValue(signed.0);
      assert ParseInt(s).value == Signed(signed.1, v);
      CanonicalDigits(signed.0);
    }
  }

  /** The digits of a digit run, leading zeros dropped, are what `str` writes
      for its value. */
  lemma CanonicalDigits(body: string)
    requires IsDigitPart(body)
    ensures DropLeadingZeros(Digits(body)) == NatText(DigitsValue(body))
  {
    var d := Digits(body);
    assert |d| > 0 by {
      DigitsOfDigitLast(body);
    }
    var r := DropLeadingZeros(d);
    assert DigitsValue(r) == DigitsValue(body) by {
      DigitsKeepValue(body);
      DropLeadingZerosValue(d);
    }
    assert forall i :: 0 <= i < |r| ==> IsDigit(r[i]) by {
      forall i | 0 <= i < |r| ensures IsDigit(r[i]) {
        assert r[i] == d[|d| - |r| + i];
      }
    }
    NatTextOfDigits(r);
  }

  lemma DigitsOfDigitLast(s: string)
    requires |s| > 0 && IsDigit(s[|s| - 1])
    ensures |Digits(s)| > 0
  {
  }

  /** A text starting with an information separator is refused by both
      conversions, although `strip()` would have removed that character. */
  lemma SeparatorLedRejected(s: string)
    requires |s| > 0 && s[0] in InfoSeparators
    ensures ParseInt(s) == None && ParseFloat(s) == None
    ensures |Text.Strip(s)| < |s|
  {
    var t := NumberStrip(s);
    assert t[0] == s[0] by {
      Text.StripKeepsMiddle(s);
    }
    assert SplitSign(t) == (t, false);
    var word := LowerAscii(t);
    assert word[0] == t[0];
    assert word != "inf" && word != "infinity" && word != "nan" by {
      assert "inf"[0] == 'i' && "infinity"[0] == 'i' && "nan"[0] == 'n';
    }
    var e := IndexOf(t, {'e', 'E'});
    var m := t[..e];
    assert |m| > 0 && m[0] == t[0];
    var d := IndexOf(m, {'.'});
    assert d > 0;
    assert ParseMantissa(m) == None by {
      if d < |m| {
        assert m[..d][0] == m[0];
      }
    }
  }
}
