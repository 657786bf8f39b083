/** Bytes, C strings in byte blocks, and numbers printed in a base and read back. */
module Bytes {

  type Byte = b: int | 0 <= b < 256

  const NUL: Byte := 0
  const NEWLINE: Byte := 10
  const SPACE: Byte := 32
  const COLON: Byte := 58
  const SEMICOLON: Byte := 59
  const EQUALS: Byte := 61
  const UNDERSCORE: Byte := 95

  /** The C string a block of memory holds: the bytes before its first NUL. */
  function CStr(block: seq<Byte>): (s: seq<Byte>)
    ensures |s| <= |block| && s == block[..|s|]
    ensures NUL !in s
    ensures |s| < |block| ==> block[|s|] == NUL
  {
    if block == [] || block[0] == NUL then [] else [block[0]] + CStr(block[1..])
  }

  predicate Terminated(block: seq<Byte>) { NUL in block }

  /** A NUL right after a NUL-free prefix ends the string there. */
  lemma {:induction false} CStrStops(s: seq<Byte>, rest: seq<Byte>)
    requires NUL !in s
    ensures CStr(s + [NUL] + rest) == s
    ensures CStr(s) == s
    decreases |s|
  {
    if s == [] {
      assert s + [NUL] + rest == [NUL] + rest;
    } else {
      assert (s + [NUL] + rest)[1..] == s[1..] + [NUL] + rest;
      CStrStops(s[1..], rest);
    }
  }

  // ---------- Numbers in a base ----------

  predicate Base(b: nat) { 2 <= b <= 16 }

  function Digit(d: nat): Byte
    requires d < 16
  {
    if d < 10 then 48 + d else 87 + d
  }

  predicate IsDigit(b: nat, c: Byte) {
    (48 <= c < 58 && c - 48 < b) || (97 <= c < 103 && c - 87 < b)
  }

  function DigitValue(c: Byte): nat {
    if 48 <= c < 58 then c - 48 else if 97 <= c < 103 then c - 87 else 0
  }

  function Digits(b: nat, n: nat): (s: seq<Byte>)
    requires Base(b)
    ensures |s| > 0
    ensures forall i :: 0 <= i < |s| ==> IsDigit(b, s[i])
    decreases n
  {
    if n < b then [Digit(n)]
    else
      DivShrinks(b, n);
      Digits(b, n / b) + [Digit(n % b)]
  }

  lemma DivShrinks(b: nat, n: nat)
    requires 2 <= b <= n
    ensures n / b < n && n % b < b && n == n / b * b + n % b
  {}

  /** One more digit behind those of a number. */
  lemma OneMoreDigit(b: nat, n: nat, d: nat)
    requires Base(b) && n > 0 && d < b
    ensures Digits(b, n * b + d) == Digits(b, n) + [Digit(d)]
  {
    DivShrinks(b, n * b + d);
    Quotient(b, n, d);
  }

  lemma Quotient(b: nat, n: nat, d: nat)
    requires d < b
    ensures (n * b + d) / b == n && (n * b + d) % b == d
  {
    var m := n * b + d;
    var e := m / b - n;
    assert e * b == d - m % b by { assert m / b * b - n * b == e * b; }
    assert e > 0 ==> e * b >= b;
    assert e < 0 ==> e * b + b <= 0;
  }

  /** "1234567890" */
  lemma DecimalInBytes()
    ensures Digits(10, 1234567890) == [49, 50, 51, 52, 53, 54, 55, 56, 57, 48]
  {
    OneMoreDigit(10, 1, 2);
    OneMoreDigit(10, 12, 3);
    OneMoreDigit(10, 123, 4);
    OneMoreDigit(10, 1234, 5);
    OneMoreDigit(10, 12345, 6);
    OneMoreDigit(10, 123456, 7);
    OneMoreDigit(10, 1234567, 8);
    OneMoreDigit(10, 12345678, 9);
    OneMoreDigit(10, 123456789, 0);
  }

  /** "9abcdef0" */
  lemma HexadecimalInBytes()
    ensures Digits(16, 0x9abcdef0) == [57, 97, 98, 99, 100, 101, 102, 48]
  {
    OneMoreDigit(16, 0x9, 10);
    OneMoreDigit(16, 0x9a, 11);
    OneMoreDigit(16, 0x9ab, 12);
    OneMoreDigit(16, 0x9abc, 13);
    OneMoreDigit(16, 0x9abcd, 14);
    OneMoreDigit(16, 0x9abcde, 15);
    OneMoreDigit(16, 0x9abcdef, 0);
  }

  function Value(b: nat, s: seq<Byte>): nat
    decreases |s|
  {
    if s == [] then 0 else Value(b, s[..|s| - 1]) * b + DigitValue(s[|s| - 1])
  }

  lemma {:induction false} ValueOfDigits(b: nat, n: nat)
    requires Base(b)
    ensures Value(b, Digits(b, n)) == n
    decreases n
  {
    if n < b {
      assert Value(b, [Digit(n)]) == Value(b, []) * b + n;
    } else {
      DivShrinks(b, n);
      ValueOfDigits(b, n / b);
      var s := Digits(b, n / b) + [Digit(n % b)];
      assert s[..|s| - 1] == Digits(b, n / b);
    }
  }

  /** How many leading bytes are digits: what atoi and sscanf take. */
  function DigitRun(b: nat, s: seq<Byte>): (k: nat)
    ensures k <= |s|
  {
    if s == [] || !IsDigit(b, s[0]) then 0 else 1 + DigitRun(b, s[1..])
  }

  lemma {:induction false} DigitRunStops(b: nat, s: seq<Byte>, rest: seq<Byte>)
    requires forall i :: 0 <= i < |s| ==> IsDigit(b, s[i])
    requires rest == [] || !IsDigit(b, rest[0])
    ensures DigitRun(b, s + rest) == |s|
    decreases |s|
  {
    if s == [] {
      assert s + rest == rest;
    } else {
      assert (s + rest)[1..] == s[1..] + rest;
      DigitRunStops(b, s[1..], rest);
    }
  }

  /** The number at the front of a text. */
  function Scan(b: nat, s: seq<Byte>): nat { Value(b, s[..DigitRun(b, s)]) }

  /** It is that of the digits there. */
  lemma ScanOfText(b: nat, digits: seq<Byte>, rest: seq<Byte>)
    requires forall i :: 0 <= i < |digits| ==> IsDigit(b, digits[i])
    requires rest == [] || !IsDigit(b, rest[0])
    ensures DigitRun(b, digits + rest) == |digits| && Scan(b, digits + rest) == Value(b, digits)
  {
    DigitRunStops(b, digits, rest);
    assert (digits + rest)[..|digits|] == digits;
  }

  lemma ScanOfDigits(b: nat, n: nat, rest: seq<Byte>)
    requires Base(b)
    requires rest == [] || !IsDigit(b, rest[0])
    ensures DigitRun(b, Digits(b, n) + rest) == |Digits(b, n)|
    ensures Scan(b, Digits(b, n) + rest) == n
  {
    ScanOfText(b, Digits(b, n), rest);
    ValueOfDigits(b, n);
  }

  function Pow(b: nat, k: nat): (p: nat)
    ensures b > 0 ==> p > 0
  {
    if k == 0 then 1 else Pow(b, k - 1) * b
  }

  lemma {:induction false} DigitCount(b: nat, n: nat, k: nat)
    requires Base(b) && k > 0 && n < Pow(b, k)
    ensures |Digits(b, n)| <= k
    decreases n
  {
    assert Pow(b, 1) == Pow(b, 0) * b == b;
    if n >= b {
      assert k > 1;
      DivShrinks(b, n);
      QuotientBelow(b, n, Pow(b, k - 1));
      DigitCount(b, n / b, k - 1);
    }
  }

  lemma QuotientBelow(b: nat, n: nat, p: nat)
    requires b > 0 && n < p * b
    ensures n / b < p
  {
    assert n / b * b <= n;
    Cancel(n / b, p, b);
  }

  lemma Cancel(x: nat, y: nat, b: nat)
    requires x * b < y * b
    ensures x < y
  {}
}
