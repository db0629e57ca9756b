/** The integer conversions of the C++ header <charconv> ([charconv.to.chars] and [charconv.from.chars] of ISO
  * C++20). */
module Numerals {
  /** The value of a digit, or 36 for a character that is a digit in no base. */
  function DigitValue(c: char): int {
    if '0' <= c <= '9' then c as int - '0' as int
    else if 'a' <= c <= 'z' then c as int - 'a' as int + 10
    else if 'A' <= c <= 'Z' then c as int - 'A' as int + 10
    else 36
  }

  /** The sixteen digits, in either case, in the order of their values; no other character is a hexadecimal digit. */
  lemma DigitValues(c: char)
    ensures '0' <= c <= '9' <==> DigitValue(c) < 10
    ensures '0' <= c <= '9' || 'a' <= c <= 'f' || 'A' <= c <= 'F' <==> DigitValue(c) < 16
    ensures forall i :: 0 <= i < 16 ==> DigitValue("0123456789abcdef"[i]) == i
    ensures forall i :: 0 <= i < 16 ==> DigitValue("0123456789ABCDEF"[i]) == i
  {
  }

  function Digit(d: int): (c: char)
    requires 0 <= d <= 9
    ensures DigitValue(c) == d && '0' <= c <= '9'
  {
    '0' + d as char
  }

  ghost predicate AllDigits(s: string, base: int) {
    forall i :: 0 <= i < |s| ==> DigitValue(s[i]) < base
  }

  /** The number that a string of digits denotes, the most significant digit first. */
  function Number(s: string, base: int): int {
    if s == [] then 0 else Number(s[..|s| - 1], base) * base + DigitValue(s[|s| - 1])
  }

  function Power(base: int, n: nat): int {
    if n == 0 then 1 else base * Power(base, n - 1)
  }

  lemma {:induction false} NumberPrepend(d: int, s: string)
    requires 0 <= d <= 9
    ensures Number([Digit(d)] + s, 10) == d * Power(10, |s|) + Number(s, 10)
  {
    if s == [] {
      assert [Digit(d)][..0] == [];
    } else {
      var t := s[..|s| - 1];
      assert ([Digit(d)] + s)[..|s|] == [Digit(d)] + t;
      NumberPrepend(d, t);
    }
  }

  function Digits(n: nat): string {
    if n < 10 then [Digit(n)] else Digits(n / 10) + [Digit(n % 10)]
  }

  /** std::to_chars in base 10. */
  function ToChars(n: int): string {
    if n < 0 then "-" + Digits(-n) else Digits(n)
  }

  datatype Scan = Scanned(value: int, consumed: nat) | NoNumber | OutOfRange

  /** The length of the longest prefix made of digits. */
  function DigitRun(s: string, base: int): (n: nat)
    ensures n <= |s| && AllDigits(s[..n], base)
    ensures n < |s| ==> DigitValue(s[n]) >= base
  {
    if s == [] || DigitValue(s[0]) >= base then 0 else
      assert forall k :: 0 <= k <= |s| - 1 ==> s[..k + 1] == [s[0]] + s[1..][..k];
      1 + DigitRun(s[1..], base)
  }

  /** std::from_chars for an integer type with values lo..hi; only a signed type (lo < 0) recognises a minus sign. */
  function FromChars(text: string, base: int, lo: int, hi: int): Scan {
    var minus := lo < 0 && text != [] && text[0] == '-';
    var body := if minus then text[1..] else text;
    var run := DigitRun(body, base);
    var magnitude := Number(body[..run], base);
    var value := if minus then -magnitude else magnitude;
    if run == 0 then NoNumber
    else if lo <= value <= hi then Scanned(value, if minus then run + 1 else run)
    else OutOfRange
  }

  /** The digits of a number denote it, and there is no redundant leading zero. */
  lemma {:induction false} DigitsDenote(n: nat)
    ensures Digits(n) != [] && AllDigits(Digits(n), 10)
    ensures Number(Digits(n), 10) == n
    ensures Digits(n)[0] == '0' ==> n == 0
    ensures Digits(n)[0] != '-' && Digits(n)[0] != '+'
  {
    if n < 10 {
      assert [Digit(n)][..0] == [];
    } else {
      DigitsDenote(n / 10);
      var front := Digits(n / 10);
      assert Digits(n)[..|front|] == front;
    }
  }

  lemma {:induction false} WholeRun(s: string, base: int)
    requires AllDigits(s, base)
    ensures DigitRun(s, base) == |s|
  {
    if s != [] {
      WholeRun(s[1..], base);
    }
  }

  /** A string of digits, behind a minus sign for a negative number, scans as the number that it denotes. */
  lemma ScansDigits(digits: string, n: int, base: int, lo: int, hi: int)
    requires digits != "" && digits[0] != '-' && AllDigits(digits, base) && lo <= n <= hi
    requires Number(digits, base) == if n < 0 then -n else n
    ensures var text := if n < 0 then "-" + digits else digits;
            FromChars(text, base, lo, hi) == Scanned(n, |text|)
  {
    hide AllDigits, Number, DigitRun;
    var text := if n < 0 then "-" + digits else digits;
    WholeRun(digits, base);
    assert n < 0 ==> text[1..] == digits;
    assert digits[..|digits|] == digits;
  }

  /** from_chars reads back what to_chars wrote, for every value of the type, and consumes all of it. */
  lemma ReadBack(n: int, lo: int, hi: int)
    requires lo <= n <= hi
    ensures FromChars(ToChars(n), 10, lo, hi) == Scanned(n, |ToChars(n)|)
  {
    hide FromChars, Digits, Number, AllDigits;
    var magnitude := if n < 0 then -n else n;
    DigitsDenote(magnitude);
    ScansDigits(Digits(magnitude), n, 10, lo, hi);
  }
}
