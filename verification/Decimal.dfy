/** Decimal numbers, as `strconv` prints and reads them. */
module Decimal {
  import opened Wrappers

  const INT_MIN := -0x8000_0000_0000_0000
  const INT_MAX := 0x7FFF_FFFF_FFFF_FFFF

  /** The values of a 64-bit `int`. */
  predicate IsInt(n: int) {
    INT_MIN <= n <= INT_MAX
  }

  predicate IsDigit(c: char) {
    '0' <= c <= '9'
  }

  predicate AllDigits(s: string) {
    forall i :: 0 <= i < |s| ==> IsDigit(s[i])
  }

  function DigitValue(c: char): nat
    requires IsDigit(c)
  {
    c as int - 0x30
  }

  function Value(s: string): nat
    requires AllDigits(s)
  {
    if s == "" then 0 else 10 * Value(s[..|s| - 1]) + DigitValue(s[|s| - 1])
  }

  /** `strconv.Atoi`: an optional sign and at least one digit, within the range of an `int`. */
  function Atoi(s: string): Option<int> {
    var signed := s != "" && (s[0] == '-' || s[0] == '+');
    var digits := if signed then s[1..] else s;
    if digits == "" || !AllDigits(digits) then None
    else
      var n: int := if signed && s[0] == '-' then -(Value(digits) as int) else Value(digits) as int;
      if IsInt(n) then Some(n) else None
  }

  function Digits(n: nat): (s: string)
    ensures s != "" && AllDigits(s)
  {
    var last := (0x30 + n % 10) as char;
    if n < 10 then [last] else Digits(n / 10) + [last]
  }

  /** `strconv.Itoa`. */
  function Itoa(n: int): string {
    if n < 0 then "-" + Digits(-n) else Digits(n)
  }

  lemma {:induction false} ValueOfDigits(n: nat)
    ensures Value(Digits(n)) == n
  {
    var s := Digits(n);
    if n < 10 {
      assert s[..|s| - 1] == "";
    } else {
      ValueOfDigits(n / 10);
      assert s[..|s| - 1] == Digits(n / 10);
    }
  }

  /** A printed number is read back exactly if it is in range. */
  lemma AtoiReadsItoa(n: int)
    ensures Atoi(Itoa(n)) == if IsInt(n) then Some(n) else None
  {
    var digits := Digits(if n < 0 then -n else n);
    ValueOfDigits(if n < 0 then -n else n);
    assert IsDigit(digits[0]);
    if n < 0 {
      assert Itoa(n)[1..] == digits;
    }
  }

  lemma ItoaIsPlain(n: int)
    ensures forall i :: 0 <= i < |Itoa(n)| ==> IsDigit(Itoa(n)[i]) || Itoa(n)[i] == '-'
  {
  }

  // ---- What is read --------------------------------------------------------------------------

  function Zeros(k: nat): string {
    seq(k, _ => '0')
  }

  /** Zeros in front do not change a value. */
  lemma {:induction false} ValueOfPadded(k: nat, n: nat)
    ensures AllDigits(Zeros(k) + Digits(n)) && Value(Zeros(k) + Digits(n)) == n
    decreases n
  {
    var s := Zeros(k) + Digits(n);
    if n >= 10 {
      ValueOfPadded(k, n / 10);
      assert s[..|s| - 1] == Zeros(k) + Digits(n / 10);
    } else {
      ValueOfZeros(k);
      assert s[..|s| - 1] == Zeros(k);
    }
  }

  lemma {:induction false} ValueOfZeros(k: nat)
    ensures Value(Zeros(k)) == 0
  {
    if k > 0 {
      ValueOfZeros(k - 1);
      assert Zeros(k)[..k - 1] == Zeros(k - 1);
    }
  }

  /** Digits are the value that they have, behind zeros. */
  lemma {:induction false} DigitsOfValue(s: string) returns (k: nat)
    requires s != "" && AllDigits(s)
    ensures s == Zeros(k) + Digits(Value(s))
  {
    var init, last := s[..|s| - 1], s[|s| - 1];
    var n := Value(init);
    assert Value(s) / 10 == n && Value(s) % 10 == DigitValue(last);
    assert (0x30 + DigitValue(last)) as char == last;
    if init == "" {
      k := 0;
      assert Zeros(0) == "" && s == [last];
    } else {
      k := DigitsOfValue(init);
      if n == 0 {
        assert Zeros(k) + "0" == Zeros(k + 1);
        k := k + 1;
      }
    }
  }

  /** The digits of the number, perhaps behind zeros. */
  ghost predicate Padded(s: string, n: nat) {
    exists k: nat :: s == Zeros(k) + Digits(n)
  }

  lemma PaddedIff(s: string, n: nat)
    ensures Padded(s, n) <==> s != "" && AllDigits(s) && Value(s) == n
  {
    if k: nat :| s == Zeros(k) + Digits(n) {
      ValueOfPadded(k, n);
    }
    if s != "" && AllDigits(s) && Value(s) == n {
      var k := DigitsOfValue(s);
    }
  }

  /** What is read is the number in range whose digits the text has, behind a minus if it is negative and
      behind a plus if there is one. Zero can have either sign. */
  lemma AtoiIff(s: string, n: int)
    ensures Atoi(s) == Some(n) <==>
            && -0x8000_0000_0000_0000 <= n <= 0x7FFF_FFFF_FFFF_FFFF
            && ((n >= 0 && (Padded(s, n) || (s != "" && s[0] == '+' && Padded(s[1..], n))))
                || (n <= 0 && s != "" && s[0] == '-' && Padded(s[1..], -n)))
  {
    if n >= 0 {
      PaddedIff(s, n);
    }
    if s != "" {
      PaddedIff(s[1..], if n < 0 then -n else n);
    }
    hide Padded, Value;
  }
}
