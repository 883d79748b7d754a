/**
 Decimal time stamps: how a number of seconds is written into a record and how
 it is read back, including what the reader accepts beyond what is written.
 */
module Decimal {
  import opened VerifyTypes

  const INT64_MAX: int := 0x7FFF_FFFF_FFFF_FFFF
  const INT64_MIN: int := -0x8000_0000_0000_0000

  function Digit(d: nat): char
    requires d < 10
  {
    ('0' as int + d) as char
  }

  predicate IsDigit(c: char) { '0' <= c <= '9' }

  predicate IsSpace(c: char) { c == ' ' || 9 <= c as int <= 13 }

  function Digits(n: nat): (s: string)
    ensures s != [] && forall i :: 0 <= i < |s| ==> IsDigit(s[i])
  {
    (if n < 10 then [] else Digits(n / 10)) + [Digit(n % 10)]
  }

  function ToString(n: int): string {
    if n < 0 then "-" + Digits(-n) else Digits(n)
  }

  function Value(s: string): nat
    requires forall i :: 0 <= i < |s| ==> IsDigit(s[i])
  {
    if s == [] then 0
    else
      assert IsDigit(s[|s| - 1]);
      10 * Value(s[..|s| - 1]) + (s[|s| - 1] as int - '0' as int)
  }

  /** The leading digits of a string. */
  function DigitRun(s: string): (run: string)
    ensures |run| <= |s| && run == s[..|run|]
    ensures forall i :: 0 <= i < |run| ==> IsDigit(run[i])
  {
    if s == [] || !IsDigit(s[0]) then [] else [s[0]] + DigitRun(s[1..])
  }

  function SkipSpaces(s: string): string {
    if s != [] && IsSpace(s[0]) then SkipSpaces(s[1..]) else s
  }

  predicate HasSign(s: string) {
    s != "" && (s[0] == '-' || s[0] == '+')
  }

  function Signed(negative: bool, run: string): Option<int>
    requires forall i :: 0 <= i < |run| ==> IsDigit(run[i])
  {
    var value: int := if negative then 0 - Value(run) else Value(run);
    if run == [] || value < INT64_MIN || value > INT64_MAX then None else Some(value)
  }

  /** `std::stoll`: blanks, a sign, and the leading digits; trailing text is
      ignored. `None` stands for the exceptions on no digits and on overflow. */
  function ToInt64(text: string): Option<int> {
    var s := SkipSpaces(text);
    Signed(s != "" && s[0] == '-', DigitRun(if HasSign(s) then s[1..] else s))
  }

  lemma {:induction false} DigitsValue(n: nat)
    ensures Value(Digits(n)) == n
  {
    var s := Digits(n);
    if n >= 10 {
      DigitsValue(n / 10);
      assert s[..|s| - 1] == Digits(n / 10);
    } else {
      assert s[..|s| - 1] == [];
    }
  }

  lemma {:induction false} DifferentTimesDiffer(m: nat, n: nat)
    requires ToString(m) == ToString(n)
    ensures m == n
  {
    DigitsValue(m);
    DigitsValue(n);
  }

  /** Neither blank nor sign. */
  predicate Plain(c: char) {
    c != ' ' && !(9 <= c as int <= 13) && c != '+' && c != '-'
  }

  predicate AllBlank(s: string) {
    forall i :: 0 <= i < |s| ==> s[i] == ' ' || 9 <= s[i] as int <= 13
  }

  lemma {:induction false} BlanksSkipped(blanks: string, rest: string)
    requires AllBlank(blanks) && (rest == "" || !(rest[0] == ' ' || 9 <= rest[0] as int <= 13))
    ensures SkipSpaces(blanks + rest) == rest
  {
    if blanks == "" {
      assert blanks + rest == rest;
    } else {
      assert (blanks + rest)[1..] == blanks[1..] + rest;
      BlanksSkipped(blanks[1..], rest);
    }
  }

  lemma {:induction false} DigitRunEnds(digits: string, rest: string)
    requires (forall i :: 0 <= i < |digits| ==> '0' <= digits[i] <= '9') && (rest == "" || !('0' <= rest[0] <= '9'))
    ensures DigitRun(digits + rest) == digits
  {
    if digits == "" {
      assert digits + rest == rest;
    } else {
      assert (digits + rest)[1..] == digits[1..] + rest;
      DigitRunEnds(digits[1..], rest);
    }
  }

  lemma {:induction false} DigitsAreDigits(n: nat)
    ensures Digits(n) != "" && forall i :: 0 <= i < |Digits(n)| ==> '0' <= Digits(n)[i] <= '9'
  {
    assert forall i :: 0 <= i < |Digits(n)| ==> IsDigit(Digits(n)[i]);
  }

  lemma {:induction false} SignTaken(sign: string, tail: string)
    requires sign == "" || sign == "+" || sign == "-"
    requires sign == "" ==> tail == "" || Plain(tail[0])
    ensures
      var s := sign + tail;
      && (s == "" || (s[0] != ' ' && !(9 <= s[0] as int <= 13)))
      && (s != "" && s[0] == '-' <==> sign == "-")
      && (if HasSign(s) then s[1..] else s) == tail
  {
    var s := sign + tail;
    if sign == "" {
      assert s == tail;
    } else {
      assert s[0] == sign[0] && s[1..] == tail;
    }
  }

  /** What follows blanks and sign decides. */
  lemma {:induction false} ReadsTail(blanks: string, sign: string, tail: string)
    requires AllBlank(blanks) && (sign == "" || sign == "+" || sign == "-")
    requires sign == "" ==> tail == "" || Plain(tail[0])
    ensures ToInt64(blanks + (sign + tail)) == Signed(sign == "-", DigitRun(tail))
  {
    SignTaken(sign, tail);
    BlanksSkipped(blanks, sign + tail);
  }

  /** The reader skips blanks, takes a sign and the digits, and ignores the rest; it
      fails beyond the range of int64. */
  lemma {:induction false} ReadsNumber(blanks: string, sign: string, n: int, rest: string)
    requires AllBlank(blanks) && (sign == "" || sign == "+" || sign == "-")
    requires n >= 0 && (rest == "" || !('0' <= rest[0] <= '9'))
    ensures
      var value := if sign == "-" then -n else n;
      ToInt64(blanks + (sign + (Digits(n) + rest))) ==
        if -0x8000_0000_0000_0000 <= value <= 0x7FFF_FFFF_FFFF_FFFF then Some(value) else None
  {
    DigitsFirst(n, rest);
    ReadsTail(blanks, sign, Digits(n) + rest);
    SignedDigits(sign == "-", n);
  }

  lemma {:induction false} DigitsFirst(n: nat, rest: string)
    requires rest == "" || !('0' <= rest[0] <= '9')
    ensures Digits(n) + rest != "" && Plain((Digits(n) + rest)[0]) && DigitRun(Digits(n) + rest) == Digits(n)
  {
    DigitsAreDigits(n);
    assert (Digits(n) + rest)[0] == Digits(n)[0];
    DigitRunEnds(Digits(n), rest);
  }

  lemma {:induction false} SignedDigits(negative: bool, n: int)
    requires n >= 0
    ensures
      var value := if negative then -n else n;
      Signed(negative, Digits(n)) ==
        if -0x8000_0000_0000_0000 <= value <= 0x7FFF_FFFF_FFFF_FFFF then Some(value) else None
  {
    DigitsAreDigits(n);
    DigitsValue(n);
  }

  /** Without a digit after blanks and sign it fails. */
  lemma {:induction false} ReadsNothing(blanks: string, sign: string, rest: string)
    requires AllBlank(blanks) && (sign == "" || sign == "+" || sign == "-")
    requires rest == "" || !('0' <= rest[0] <= '9')
    requires sign == "" ==> rest == "" || Plain(rest[0])
    ensures ToInt64(blanks + (sign + rest)) == None
  {
    ReadsTail(blanks, sign, rest);
    assert "" + rest == rest;
    DigitRunEnds("", rest);
  }

  /** Reading back what was written gives the same number. */
  lemma {:induction false} RoundTrip(n: int)
    requires INT64_MIN <= n <= INT64_MAX
    ensures ToInt64(ToString(n)) == Some(n) && ToString(n) != ""
  {
    var m, sign := if n < 0 then -n else n, if n < 0 then "-" else "";
    DigitsAreDigits(m);
    ReadsNumber("", sign, m, "");
    assert Digits(m) + "" == Digits(m);
    assert "" + (sign + Digits(m)) == sign + Digits(m);
    assert ToString(n) == sign + Digits(m);
  }

  /** A time is printed in digits only, without a leading zero. */
  lemma {:induction false} PrintsPlainly(n: nat)
    ensures ToString(n) != "" && forall i :: 0 <= i < |ToString(n)| ==> '0' <= ToString(n)[i] <= '9'
    ensures n > 0 ==> ToString(n)[0] != '0'
    ensures n == 0 ==> ToString(n) == "0"
  {
    DigitsAreDigits(n);
    if n >= 10 {
      PrintsPlainly(n / 10);
      assert ToString(n)[0] == ToString(n / 10)[0];
    }
  }
}
