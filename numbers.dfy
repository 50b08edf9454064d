/** Digits embedded in a line and the number they spell. */
module Numbers {

  /** The largest Java `int`, the bound of `Integer.valueOf`. */
  const MaxInt: int := 0x7fff_ffff

  type Digit = d: int | 0 <= d <= 9

  /** The ASCII digits; other Unicode digits are not modelled. */
  predicate IsDigit(c: char)
  {
    '0' <= c <= '9'
  }

  function DigitValue(c: char): Digit
    requires IsDigit(c)
  {
    c as int - '0' as int
  }

  function DigitChar(d: Digit): (c: char)
    ensures IsDigit(c) && DigitValue(c) == d
  {
    ('0' as int + d) as char
  }

  /** The values of the digit characters of `s`, left to right. */
  function DigitsOf(s: string): seq<Digit>
    decreases |s|
  {
    if |s| == 0 then []
    else DigitsOf(s[..|s| - 1]) + (if IsDigit(s[|s| - 1]) then [DigitValue(s[|s| - 1])] else [])
  }

  /** DigitsOf works character by character: the digits of a concatenation
      are the digits of the first part followed by those of the second. */
  lemma {:induction false} DigitsOfAppend(s: string, t: string)
    ensures DigitsOf(s + t) == DigitsOf(s) + DigitsOf(t)
    decreases |t|
  {
    if |t| == 0 {
      assert s + t == s;
    } else {
      var st := s + t;
      assert st[..|st| - 1] == s + t[..|t| - 1];
      assert st[|st| - 1] == t[|t| - 1];
      DigitsOfAppend(s, t[..|t| - 1]);
    }
  }

  /** A string without digit characters contributes no digits. */
  lemma {:induction false} NoDigits(s: string)
    requires forall i :: 0 <= i < |s| ==> !IsDigit(s[i])
    ensures DigitsOf(s) == []
    decreases |s|
  {
    if |s| > 0 {
      NoDigits(s[..|s| - 1]);
    }
  }

  /** The number spelled by decimal digits, most significant first. */
  function DecimalValue(ds: seq<Digit>): nat
  {
    if |ds| == 0 then 0 else DecimalValue(ds[..|ds| - 1]) * 10 + ds[|ds| - 1]
  }

  /** `Integer.toString` of a non-negative number. */
  function Decimal(n: nat): (s: string)
    ensures |s| >= 1
  {
    if n < 10 then [DigitChar(n)] else Decimal(n / 10) + [DigitChar(n % 10)]
  }

  /** Reading back the digits of a number's decimal text gives the number. */
  lemma {:induction false} DecimalRoundTrip(n: nat)
    ensures DecimalValue(DigitsOf(Decimal(n))) == n
  {
    var s := Decimal(n);
    if n < 10 {
      assert s[..0] == [];
    } else {
      DecimalRoundTrip(n / 10);
      assert s[..|s| - 1] == Decimal(n / 10);
      var ds := DigitsOf(Decimal(n / 10));
      assert DigitsOf(s) == ds + [n % 10];
      assert (ds + [n % 10])[..|ds|] == ds;
    }
  }
}
