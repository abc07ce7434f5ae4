/**
 * Go's `strconv.Atoi` on a 64-bit platform, and decimal formatting as its inverse.
 * Atoi accepts an optional '+' or '-' sign followed by at least one ASCII digit,
 * leading zeros allowed, and fails when the value is outside the int64 range.
 */
module Strconv {
  import opened Wrappers

  const MinInt64: int := -0x8000_0000_0000_0000
  const MaxInt64: int := 0x7fff_ffff_ffff_ffff

  predicate InInt64(n: int) {
    MinInt64 <= n <= MaxInt64
  }

  /** The failure Atoi reports; its text (syntax or range error) is not modelled. */
  datatype NumError = NumError(num: string)

  predicate IsDigit(c: char) {
    '0' <= c <= '9'
  }

  predicate AllDigits(s: string) {
    forall i :: 0 <= i < |s| ==> IsDigit(s[i])
  }

  function DigitValue(c: char): nat
    requires IsDigit(c)
  {
    (c - '0') as nat
  }

  function DigitChar(d: nat): (c: char)
    requires d < 10
    ensures IsDigit(c) && DigitValue(c) == d
  {
    ('0' as int + d) as char
  }

  /** The value of a run of decimal digits, most significant first. */
  function DecimalValue(s: string): nat
    requires AllDigits(s)
    decreases |s|
  {
    if |s| == 0 then 0
    else DecimalValue(s[..|s| - 1]) * 10 + DigitValue(s[|s| - 1])
  }

  /** The digits after an optional leading sign. */
  function Unsigned(s: string): string {
    if |s| > 0 && (s[0] == '+' || s[0] == '-') then s[1..] else s
  }

  predicate Negative(s: string) {
    |s| > 0 && s[0] == '-'
  }

  /** An optional sign followed by one or more digits. */
  predicate WellFormed(s: string) {
    |Unsigned(s)| > 0 && AllDigits(Unsigned(s))
  }

  /** The signed value a well-formed string denotes. */
  function SignedValue(s: string): int
    requires WellFormed(s)
  {
    var v: int := DecimalValue(Unsigned(s));
    if Negative(s) then -v else v
  }

  /**
   * strconv.Atoi with a 64-bit `int`: the error carries the input, a result is always in
   * the int64 range, and a plain run of digits denotes its decimal value.
   */
  function Atoi(s: string): (r: Result<int, NumError>)
    ensures r.Failure? ==> r.error == NumError(s)
    ensures r.Success? <==> WellFormed(s) && InInt64(SignedValue(s))
    ensures r.Success? ==> r.value == SignedValue(s)
    ensures r.Success? ==> InInt64(r.value)
    ensures r.Success? ==> |s| > 0 && (IsDigit(s[0]) || s[0] == '+' || s[0] == '-')
    ensures r.Success? ==> '/' !in s
    ensures |s| > 0 && AllDigits(s) && DecimalValue(s) <= MaxInt64 ==> r == Success(DecimalValue(s))
  {
    if WellFormed(s) && InInt64(SignedValue(s)) then Success(SignedValue(s))
    else Failure(NumError(s))
  }

  /** Decimal digits of a natural number without leading zeros. */
  function Digits(n: nat): (s: string)
    ensures |s| > 0
    decreases n
  {
    if n < 10 then [DigitChar(n)] else Digits(n / 10) + [DigitChar(n % 10)]
  }

  /** strconv.Itoa: the decimal form of an integer, with '-' for negatives. */
  function Itoa(n: int): string {
    if n < 0 then "-" + Digits(-n) else Digits(n)
  }

  /** The digits of `n` are digits and denote `n`. */
  lemma {:induction false} DigitsValue(n: nat)
    ensures AllDigits(Digits(n))
    ensures DecimalValue(Digits(n)) == n
    decreases n
  {
    if n >= 10 {
      DigitsValue(n / 10);
      var s := Digits(n);
      assert s[..|s| - 1] == Digits(n / 10);
      assert s[|s| - 1] == DigitChar(n % 10);
    }
  }

  /** Atoi inverts Itoa on every int64 value. */
  lemma AtoiItoa(n: int)
    requires InInt64(n)
    ensures Atoi(Itoa(n)) == Success(n)
  {
    var s := Itoa(n);
    if n < 0 {
      DigitsValue(-n);
      assert Unsigned(s) == Digits(-n);
    } else {
      DigitsValue(n);
      assert Unsigned(s) == Digits(n);
    }
  }

  /** `k` zero digits. */
  function Zeros(k: nat): (z: string)
    ensures |z| == k && AllDigits(z)
  {
    seq(k, _ => '0')
  }

  /** The absolute value of an integer. */
  function Abs(n: int): nat {
    if n < 0 then -n else n
  }

  /** A run of digits is leading zeros followed by the canonical digits of its value. */
  lemma {:induction false} DigitsCanonical(u: string)
    requires |u| > 0 && AllDigits(u)
    ensures |Digits(DecimalValue(u))| <= |u|
    ensures u == Zeros(|u| - |Digits(DecimalValue(u))|) + Digits(DecimalValue(u))
    decreases |u|
  {
    var init := u[..|u| - 1];
    var c := u[|u| - 1];
    var v := DecimalValue(u);
    assert AllDigits(init) by {
      forall i | 0 <= i < |init| ensures IsDigit(init[i]) {
        assert init[i] == u[i];
      }
    }
    assert u == init + [c];
    if v < 10 {
      ValueZeroIsZeros(init);
      assert DigitChar(v) == c;
      assert Digits(v) == [c];
    } else {
      assert DecimalValue(init) == v / 10 && DigitValue(c) == v % 10;
      DigitsCanonical(init);
      assert Digits(v) == Digits(v / 10) + [c];
      var z := Zeros(|init| - |Digits(v / 10)|);
      assert Zeros(|u| - |Digits(v)|) == z;
      assert u == z + Digits(v / 10) + [c];
    }
  }

  /** A run of digits whose value is below ten is zeros and one last digit. */
  lemma {:induction false} ValueZeroIsZeros(init: string)
    requires AllDigits(init) && DecimalValue(init) == 0
    ensures init == Zeros(|init|)
    decreases |init|
  {
    if |init| > 0 {
      var front := init[..|init| - 1];
      assert AllDigits(front) by {
        forall i | 0 <= i < |front| ensures IsDigit(front[i]) {
          assert front[i] == init[i];
        }
      }
      ValueZeroIsZeros(front);
      assert init == front + [init[|init| - 1]];
    }
  }

  /**
   * The converse of AtoiItoa: a string Atoi accepts is an optional sign, leading zeros and
   * the canonical digits of the value's magnitude, and a negative value needs a '-'.
   */
  lemma AtoiCanonical(s: string)
    requires Atoi(s).Success?
    ensures var u, d := Unsigned(s), Digits(Abs(Atoi(s).value));
            |d| <= |u| && u == Zeros(|u| - |d|) + d
    ensures Atoi(s).value < 0 ==> Negative(s)
    ensures Atoi(s).value > 0 && s[0] != '+' ==> !Negative(s) && s == Unsigned(s)
  {
    DigitsCanonical(Unsigned(s));
  }

  /** A character that is neither a digit nor a leading sign makes Atoi fail. */
  lemma AtoiRejectsNonDigit(s: string, i: nat)
    requires i < |s| && !IsDigit(s[i])
    requires i > 0 || (s[0] != '+' && s[0] != '-')
    ensures Atoi(s).Failure?
  {
  }

  /** Atoi accepts explicit signs and leading zeros. */
  lemma AtoiExamples()
    ensures Atoi("1") == Success(1)
    ensures Atoi("-5") == Success(-5)
    ensures Atoi("+007") == Success(7)
    ensures Atoi("").Failure? && Atoi("-").Failure? && Atoi("1x").Failure?
  {
    assert Unsigned("-5") == "5";
    assert Unsigned("+007") == "007";
    assert "007"[..2] == "00" && "00"[..1] == "0";
    assert Unsigned("-") == "";
    assert !IsDigit("1x"[1]);
  }
}
