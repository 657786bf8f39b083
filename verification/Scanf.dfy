/** The numbers and pointers that sscanf takes off the front of a text. */
module Scanf {
  import opened Bytes

  const MINUS: Byte := 45
  const PLUS: Byte := 43
  const LETTER_X: Byte := 120

  /** "(nil)" */
  const NIL: seq<Byte> := [40, 110, 105, 108, 41]

  datatype Option<T> = None | Some(value: T)

  predicate IsSpace(b: Byte) { b == SPACE || 9 <= b <= 13 }

  function SkipSpace(s: seq<Byte>): (t: seq<Byte>)
    ensures t != [] ==> !IsSpace(t[0])
  {
    if s == [] || !IsSpace(s[0]) then s else SkipSpace(s[1..])
  }

  predicate Negative(t: seq<Byte>) { t != [] && t[0] == MINUS }

  function Unsigned(t: seq<Byte>): seq<Byte> {
    if t != [] && (t[0] == MINUS || t[0] == PLUS) then t[1..] else t
  }

  lemma {:induction false} SpaceSkipped(blanks: seq<Byte>, t: seq<Byte>)
    requires forall i :: 0 <= i < |blanks| ==> IsSpace(blanks[i])
    requires t != [] && !IsSpace(t[0])
    ensures SkipSpace(blanks + t) == t
    decreases |blanks|
  {
    if blanks == [] {
      assert blanks + t == t;
    } else {
      assert (blanks + t)[1..] == blanks[1..] + t;
      SpaceSkipped(blanks[1..], t);
    }
  }

  // ---------- "%d" ----------

  /** A decimal number, with its sign if it is negative. */
  function IntText(n: int): seq<Byte> { if n < 0 then [MINUS] + Digits(10, -n) else Digits(10, n) }

  /** A sign and the digits there are. */
  function Signed(t: seq<Byte>): Option<int> {
    var m: int := Scan(10, Unsigned(t));
    if DigitRun(10, Unsigned(t)) == 0 then None else Some(if Negative(t) then -m else m)
  }

  function ScanInt(s: seq<Byte>): Option<int> { Signed(SkipSpace(s)) }

  lemma SignedOfText(n: int)
    ensures Signed(IntText(n)) == Some(n) && !IsSpace(IntText(n)[0])
  {
    var m := if n < 0 then -n else n;
    ScanOfDigits(10, m, []);
    assert Digits(10, m) + [] == Digits(10, m);
    assert IsDigit(10, Digits(10, m)[0]);
    if n < 0 {
      assert IntText(n)[1..] == Digits(10, m);
    }
  }

  lemma SignedExactly(sign: seq<Byte>, digits: seq<Byte>, rest: seq<Byte>, m: int)
    requires sign == [] || sign == [MINUS] || sign == [PLUS]
    requires forall i :: 0 <= i < |digits| ==> IsDigit(10, digits[i])
    requires rest == [] || !IsDigit(10, rest[0])
    requires sign == [] && digits == [] && rest != [] ==> rest[0] != MINUS && rest[0] != PLUS
    requires m == Value(10, digits)
    ensures Signed(sign + (digits + rest)) == if |digits| == 0 then None else Some(if sign == [MINUS] then -m else m)
  {
    SignTaken(sign, digits + rest);
    ScanOfText(10, digits, rest);
    SignedFrom(sign + (digits + rest), |digits|, m);
  }

  lemma SignedFrom(t: seq<Byte>, run: nat, m: int)
    requires DigitRun(10, Unsigned(t)) == run && Scan(10, Unsigned(t)) == m
    ensures Signed(t) == if run == 0 then None else Some(if Negative(t) then -m else m)
  {}

  lemma SignTaken(sign: seq<Byte>, t: seq<Byte>)
    requires sign == [] || sign == [MINUS] || sign == [PLUS]
    requires sign == [] && t != [] ==> t[0] != MINUS && t[0] != PLUS
    ensures Unsigned(sign + t) == t && (Negative(sign + t) <==> sign == [MINUS])
  {
    assert (sign + t)[|sign|..] == t;
  }

  /** White space, a sign, digits, and then something else: the number is that of the digits, and there
      is none without digits. */
  lemma ScanIntExactly(blanks: seq<Byte>, sign: seq<Byte>, digits: seq<Byte>, rest: seq<Byte>, m: int)
    requires forall i :: 0 <= i < |blanks| ==> blanks[i] == 32 || 9 <= blanks[i] <= 13
    requires sign == [] || sign == [MINUS] || sign == [PLUS]
    requires forall i :: 0 <= i < |digits| ==> 48 <= digits[i] <= 57
    requires rest == [] || !(48 <= rest[0] <= 57)
    requires sign == [] && digits == [] && rest != [] ==> !IsSpace(rest[0]) && rest[0] != MINUS && rest[0] != PLUS
    requires m == Value(10, digits)
    ensures ScanInt(blanks + (sign + (digits + rest))) ==
              if digits == [] then None else Some(if sign == [MINUS] then -m else m)
  {
    var t := sign + (digits + rest);
    SignedExactly(sign, digits, rest, m);
    if t == [] {
      assert t == [];
      OnlySpace(blanks);
    } else {
      assert t[0] == if sign != [] then sign[0] else if digits != [] then digits[0] else rest[0];
      SpaceSkipped(blanks, t);
    }
  }

  lemma {:induction false} OnlySpace(blanks: seq<Byte>)
    requires forall i :: 0 <= i < |blanks| ==> IsSpace(blanks[i])
    ensures SkipSpace(blanks + []) == []
  {
    if blanks != [] {
      assert (blanks + [])[1..] == blanks[1..] + [];
      OnlySpace(blanks[1..]);
    }
  }

  lemma ScanIntOfText(blanks: seq<Byte>, n: int)
    requires forall i :: 0 <= i < |blanks| ==> IsSpace(blanks[i])
    ensures ScanInt(blanks + IntText(n)) == Some(n)
  {
    SignedOfText(n);
    SpaceSkipped(blanks, IntText(n));
  }

  // ---------- "%p" ----------

  const ADDRESSES: nat := 0x1_0000_0000_0000_0000

  /** Where an object can be. */
  type Address = n: nat | 0 < n < ADDRESSES witness 1

  /** What "%p" prints, as glibc does: the C standard leaves the text to the implementation and asks
      only that what was printed be scanned back. */
  function PointerText(n: Address): seq<Byte> { [48, LETTER_X] + Digits(16, n) }

  function Lower(s: seq<Byte>): (t: seq<Byte>)
    ensures |t| == |s| && forall i :: 0 <= i < |s| ==> t[i] == if 65 <= s[i] <= 90 then s[i] + 32 else s[i]
  {
    seq(|s|, i requires 0 <= i < |s| => if 65 <= s[i] <= 90 then s[i] + 32 else s[i])
  }

  function PastPrefix(t: seq<Byte>): seq<Byte> { if |t| >= 2 && t[0] == 48 && t[1] == LETTER_X then t[2..] else t }

  /** A number kept within 64 bits: one that is too large becomes the largest, one with a minus wraps. */
  function Within64(m: nat, negative: bool): nat {
    var k := if m < ADDRESSES then m else ADDRESSES - 1;
    if negative && k > 0 then ADDRESSES - k else k
  }

  /** A null pointer, or a number in hexadecimal. */
  function Hexadecimal(t: seq<Byte>): Option<nat> {
    var digits := PastPrefix(Unsigned(t));
    if NIL <= t then Some(0)
    else if DigitRun(16, digits) == 0 then None
    else Some(Within64(Scan(16, digits), Negative(t)))
  }

  /** What "%p" scans. */
  function ScanPointer(s: seq<Byte>): Option<nat> { Hexadecimal(Lower(SkipSpace(s))) }

  lemma PastPrefixOfText(digits: seq<Byte>)
    ensures var t := [48, LETTER_X] + digits;
            PastPrefix(Unsigned(t)) == digits && !Negative(t) && !(NIL <= t) && !IsSpace(t[0])
  {
    var t := [48, LETTER_X] + digits;
    assert t[2..] == digits && t[0] == 48 && NIL[0] == 40;
  }

  lemma HexadecimalOfText(n: Address)
    ensures Hexadecimal(PointerText(n)) == Some(n)
  {
    var digits := Digits(16, n);
    PastPrefixOfText(digits);
    ScanOfDigits(16, n, []);
    assert digits + [] == digits;
  }

  /** A pointer that was printed is scanned back as itself, behind any white space. */
  lemma PointerReads(blanks: seq<Byte>, n: Address)
    requires forall i :: 0 <= i < |blanks| ==> IsSpace(blanks[i])
    ensures ScanPointer(blanks + PointerText(n)) == Some(n)
  {
    PastPrefixOfText(Digits(16, n));
    SpaceSkipped(blanks, PointerText(n));
    LowerPointer(n);
    HexadecimalOfText(n);
  }

  /** What is left to scan behind the white space: a sign or none, "0x" or none, digits, and no digit. */
  predicate HexParts(sign: seq<Byte>, prefix: seq<Byte>, digits: seq<Byte>, rest: seq<Byte>) {
    && (sign == [] || sign == [MINUS] || sign == [PLUS]) && (prefix == [] || prefix == [48, 120])
    && (forall i :: 0 <= i < |digits| ==> 48 <= digits[i] <= 57 || 97 <= digits[i] <= 102)
    && (rest == [] || !(48 <= rest[0] <= 57 || 97 <= rest[0] <= 102))
    && (prefix == [] ==> !([48, 120] <= digits + rest))
    && (sign == [] && prefix == [] && digits == [] && rest != [] ==>
          rest[0] != MINUS && rest[0] != PLUS && !(NIL <= rest))
  }

  lemma PrefixTaken(prefix: seq<Byte>, t: seq<Byte>)
    requires prefix == [48, 120] || (prefix == [] && !([48, 120] <= t))
    ensures PastPrefix(prefix + t) == t
  {
    if prefix == [] && |t| >= 2 {
      assert t[..2] == [t[0], t[1]];
    }
  }

  lemma PartsBegin(sign: seq<Byte>, prefix: seq<Byte>, digits: seq<Byte>, rest: seq<Byte>)
    requires HexParts(sign, prefix, digits, rest)
    ensures !(NIL <= sign + (prefix + (digits + rest)))
    ensures sign == [] && prefix + (digits + rest) != [] ==> (prefix + (digits + rest))[0] !in {MINUS, PLUS}
  {
    var t := sign + (prefix + (digits + rest));
    if sign == [] && prefix == [] && digits == [] {
      assert digits + rest == rest && prefix + rest == rest && t == rest;
    } else {
      assert t[0] == if sign != [] then sign[0] else if prefix != [] then 48 else digits[0];
    }
  }

  lemma HexadecimalExactly(sign: seq<Byte>, prefix: seq<Byte>, digits: seq<Byte>, rest: seq<Byte>, m: nat)
    requires HexParts(sign, prefix, digits, rest) && m == Value(16, digits)
    ensures Hexadecimal(sign + (prefix + (digits + rest))) ==
              if digits == [] then None else Some(Within64(m, sign == [MINUS]))
  {
    PartsBegin(sign, prefix, digits, rest);
    SignTaken(sign, prefix + (digits + rest));
    PrefixTaken(prefix, digits + rest);
    ScanOfText(16, digits, rest);
  }

  /** White space and those parts: no number exactly when there is no digit, else that of the digits, or
      the largest of 64 bits where it is larger, and behind a minus what is left of 2^64. */
  lemma ScanPointerExactly(blanks: seq<Byte>, s: seq<Byte>, sign: seq<Byte>, prefix: seq<Byte>,
                           digits: seq<Byte>, rest: seq<Byte>, m: nat)
    requires forall i :: 0 <= i < |blanks| ==> blanks[i] == 32 || 9 <= blanks[i] <= 13
    requires s == [] || !IsSpace(s[0])
    requires Lower(s) == sign + (prefix + (digits + rest))
    requires HexParts(sign, prefix, digits, rest) && m == Value(16, digits)
    ensures ScanPointer(blanks + s) ==
              if digits == [] then None
              else
                var k := if m < 0x1_0000_0000_0000_0000 then m else 0xffff_ffff_ffff_ffff;
                Some(if sign == [MINUS] && k > 0 then 0x1_0000_0000_0000_0000 - k else k)
  {
    HexadecimalExactly(sign, prefix, digits, rest, m);
    PointerBehind(blanks, s);
  }

  lemma PointerBehind(blanks: seq<Byte>, s: seq<Byte>)
    requires (forall i :: 0 <= i < |blanks| ==> IsSpace(blanks[i])) && (s == [] || !IsSpace(s[0]))
    ensures ScanPointer(blanks + s) == Hexadecimal(Lower(s))
  {
    if s == [] {
      OnlySpace(blanks);
    } else {
      SpaceSkipped(blanks, s);
    }
  }

  lemma LowerPointer(n: Address)
    ensures Lower(PointerText(n)) == PointerText(n)
  {
    forall i | 0 <= i < |Digits(16, n)| ensures !(65 <= Digits(16, n)[i] <= 90) {
      assert IsDigit(16, Digits(16, n)[i]);
    }
  }

  lemma PointerIsShort(n: Address)
    ensures |PointerText(n)| <= 18
  {
    assert Pow(16, 4) == 0x1_0000 && Pow(16, 8) == 0x1_0000_0000 && Pow(16, 12) == 0x1_0000_0000_0000;
    assert Pow(16, 16) == ADDRESSES;
    DigitCount(16, n, 16);
  }
}
