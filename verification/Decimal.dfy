/** Decimal numerals, as strconv.Itoa writes them and strconv.Atoi reads them. */
module Decimal {
  import opened Bytes

  const ZERO: byte := 48

  function Digits(n: nat): (d: Text)
    ensures |d| > 0
  {
    if n < 10 then [ZERO + n as byte] else Digits(n / 10) + [ZERO + (n % 10) as byte]
  }

  function Power(k: nat): nat {
    if k == 0 then 1 else 10 * Power(k - 1)
  }

  /** A number below 10^k has at most k digits. */
  lemma {:induction false} DigitsFit(n: nat, k: nat)
    requires k > 0 && n < Power(k)
    ensures |Digits(n)| <= k
  {
    if n >= 10 {
      assert Power(1) == 10 * Power(0);
      DigitsFit(n / 10, k - 1);
    }
  }

  predicate Digit(b: byte) { 48 <= b <= 57 }

  function Value(digits: Text): nat
    requires forall i :: 0 <= i < |digits| ==> Digit(digits[i])
  {
    if digits == [] then 0
    else
      var last := digits[|digits| - 1];
      assert Digit(last);
      10 * Value(digits[..|digits| - 1]) + (last as nat - 48)
  }

  lemma {:induction false} ValueOfDigits(n: nat)
    ensures forall i :: 0 <= i < |Digits(n)| ==> Digit(Digits(n)[i])
    ensures Value(Digits(n)) == n
  {
    if n < 10 {
      assert Digits(n)[..0] == [];
    } else {
      ValueOfDigits(n / 10);
      assert Digits(n)[..|Digits(n)| - 1] == Digits(n / 10);
    }
  }

  const MINUS: byte := 45

  function Itoa(n: int): Text {
    if n < 0 then [MINUS] + Digits(-n) else Digits(n)
  }

  datatype Number = NotANumber | Number(value: Int)

  const MAX_INT := 0x7FFF_FFFF_FFFF_FFFF

  /** An int of 64 bits. */
  type Int = n: int | -MAX_INT - 1 <= n <= MAX_INT

  /** One more, which wraps around. */
  function Increment(n: Int): Int { if n == MAX_INT then -MAX_INT - 1 else n + 1 }

  /** Reads a numeral, with or without a sign, that an int of 64 bits holds. */
  function Atoi(text: Text): Number {
    var negative := text != [] && text[0] == MINUS;
    var digits := if text != [] && (text[0] == MINUS || text[0] == 43) then text[1..] else text;
    if digits == [] || exists i :: 0 <= i < |digits| && !Digit(digits[i]) then NotANumber
    else
      var value := (if negative then -1 else 1) * Value(digits);
      if -MAX_INT - 1 <= value <= MAX_INT then Number(value) else NotANumber
  }

  /** Reading undoes writing, for a number the reader's type holds. */
  lemma AtoiReadsItoa(n: int)
    ensures Atoi(Itoa(n)) == if -MAX_INT - 1 <= n <= MAX_INT then Number(n) else NotANumber
  {
    var digits := Digits(if n < 0 then -n else n);
    ValueOfDigits(if n < 0 then -n else n);
    assert Digit(digits[0]);
    assert n < 0 ==> Itoa(n)[1..] == digits;
  }

  /** The most significant digit comes first. */
  lemma DigitsAreInOrder()
    ensures Itoa(120) == [49, 50, 48] && Itoa(-7) == [45, 55] && Itoa(0) == [48]
  {
    assert Digits(1) == [49] && Digits(12) == [49, 50];
  }
}
