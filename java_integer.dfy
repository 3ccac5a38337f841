/** A model of `Integer.parseInt(String)` in radix 10, the only number
    conversion the argument validator of Iperfer uses, together with the
    canonical decimal rendering that it inverts. */
module JavaInteger {

  datatype Option<+T> = None | Some(value: T)

  /** The bounds of Java's 32-bit `int`. */
  const MIN_INT: int := -0x8000_0000
  const MAX_INT: int := 0x7fff_ffff

  predicate InIntRange(n: int) {
    MIN_INT <= n <= MAX_INT
  }

  predicate IsDigit(c: char) {
    '0' <= c <= '9'
  }

  predicate AllDigits(s: string) {
    forall i :: 0 <= i < |s| ==> IsDigit(s[i])
  }

  function DigitValue(c: char): (d: nat)
    requires IsDigit(c)
    ensures d < 10
  {
    c as int - '0' as int
  }

  function DigitChar(d: nat): (c: char)
    requires d < 10
    ensures IsDigit(c) && DigitValue(c) == d
  {
    ('0' as int + d) as char
  }

  /** The number a run of decimal digits denotes, most significant digit
      first; leading zeros are allowed, and the empty run denotes 0. */
  function DigitsValue(s: string): nat
    requires AllDigits(s)
  {
    if s == [] then 0 else 10 * DigitsValue(s[..|s| - 1]) + DigitValue(s[|s| - 1])
  }

  /** `Integer.parseInt(s)`: an optional `+` or `-`, then one or more decimal
      digits, denoting a value inside the `int` range; anything else is the
      `NumberFormatException`, here `None`. */
  function ParseInt(s: string): (r: Option<int>)
    ensures r.Some? ==> InIntRange(r.value)
    ensures r.Some? ==> |s| > 0 && (IsDigit(s[0]) || ((s[0] == '-' || s[0] == '+') && |s| > 1))
    ensures r.Some? ==> forall i :: 1 <= i < |s| ==> IsDigit(s[i])
    ensures r.Some? && s[0] == '-' ==> r.value <= 0
    ensures r.Some? && s[0] != '-' ==> r.value >= 0
  {
    if |s| == 0 then None
    else if s[0] == '-' then Magnitude(s[1..], true)
    else if s[0] == '+' then Magnitude(s[1..], false)
    else Magnitude(s, false)
  }

  /** The digits after the sign: at least one, all decimal, and the signed
      value inside the `int` range. */
  function Magnitude(digits: string, negative: bool): Option<int> {
    if |digits| == 0 || !AllDigits(digits) then None
    else
      var n: int := if negative then -(DigitsValue(digits) as int) else DigitsValue(digits);
      if InIntRange(n) then Some(n) else None
  }

  /** Canonical decimal digits of a natural number (no leading zeros). */
  function ShowNat(n: nat): (s: string)
    ensures |s| > 0 && AllDigits(s)
  {
    if n < 10 then [DigitChar(n)] else ShowNat(n / 10) + [DigitChar(n % 10)]
  }

  /** Canonical decimal rendering of an integer, as `Integer.toString` gives it. */
  function ShowInt(n: int): (s: string)
    ensures |s| > 0
  {
    if n < 0 then "-" + ShowNat(-n) else ShowNat(n)
  }

  lemma {:induction false} DigitsValueOfShowNat(n: nat)
    ensures DigitsValue(ShowNat(n)) == n
  {
    var s := ShowNat(n);
    if n >= 10 {
      assert s[..|s| - 1] == ShowNat(n / 10);
      DigitsValueOfShowNat(n / 10);
    }
  }

  /** Parsing undoes rendering on every `int`. */
  lemma ParseShowInt(n: int)
    requires InIntRange(n)
    ensures ParseInt(ShowInt(n)) == Some(n)
  {
    var s := ShowInt(n);
    if n < 0 {
      assert s[1..] == ShowNat(-n);
      DigitsValueOfShowNat(-n);
    } else {
      assert IsDigit(s[0]);
      DigitsValueOfShowNat(n);
    }
  }

  /** Unsigned digits, leading zeros included, parse to the number they
      denote exactly when it fits in an `int`. */
  lemma UnsignedParse(digits: string)
    requires |digits| > 0 && AllDigits(digits)
    ensures DigitsValue(digits) <= MAX_INT ==> ParseInt(digits) == Some(DigitsValue(digits))
    ensures DigitsValue(digits) > MAX_INT ==> ParseInt(digits).None?
  {
    assert IsDigit(digits[0]);
  }

  /** A leading `+` changes nothing. */
  lemma PlusSignParse(digits: string)
    requires |digits| > 0 && AllDigits(digits)
    ensures ParseInt("+" + digits) == ParseInt(digits)
  {
    var plus := "+" + digits;
    assert plus[0] == '+' && plus[1..] == digits;
    assert ParseInt(plus) == Magnitude(digits, false);
    assert IsDigit(digits[0]);
  }

  /** A leading `-` negates, as long as the negated value is still an `int`. */
  lemma MinusSignParse(digits: string)
    requires |digits| > 0 && AllDigits(digits)
    ensures InIntRange(-(DigitsValue(digits) as int)) ==> ParseInt("-" + digits) == Some(-(DigitsValue(digits) as int))
    ensures !InIntRange(-(DigitsValue(digits) as int)) ==> ParseInt("-" + digits).None?
  {
    var minus := "-" + digits;
    assert minus[0] == '-' && minus[1..] == digits;
    assert ParseInt(minus) == Magnitude(digits, true);
  }
}
