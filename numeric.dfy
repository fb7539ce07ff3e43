/** Numeric conversion of UART.c: `itoa` (an unsigned 16-bit value to digits in
    any base) and `atoi` (leading decimal digits with 16-bit wrap-around). */
module Numeric {

  type u8 = x: int | 0 <= x < 0x100
  type u16 = x: int | 0 <= x < 0x1_0000

  /** sizeof(tmp), the scratch capacity of itoa. */
  const Scratch: nat := 17

  /** The base itoa really uses: anything below 2 means 10. */
  function Radix(base: u8): (b: nat)
    ensures 2 <= b < 0x100
    ensures base < 2 ==> b == 10
    ensures base >= 2 ==> b == base
  {
    if base < 2 then 10 else base
  }

  /** The character of digit r: '0'+r below ten, 'A'+r-10 from ten on, stored
      into a C char, so truncated to eight bits. */
  function DigitChar(r: nat): char
  {
    if r < 10 then ('0' as int + r) as char else (('A' as int + r - 10) % 0x100) as char
  }

  /** The digits of v in base b, most significant first; zero has the single digit 0. */
  function Digits(v: nat, b: nat): (ds: seq<nat>)
    requires b >= 2
    ensures |ds| >= 1
    decreases v
  {
    Quotient(v, b);
    (if v / b == 0 then [] else Digits(v / b, b)) + [v % b]
  }

  /** Euclidean division by a base of at least 2. */
  lemma DivMod(v: nat, b: nat)
    requires b >= 2
    ensures v == (v / b) * b + v % b && v % b < b
    ensures v / b == 0 <==> v < b
    ensures v != 0 ==> v / b < v
  {
    var q, r := v / b, v % b;
    assert v == q * b + r;
    if v != 0 && q != 0 {
      assert q * b >= q * 2;
    }
  }

  /** The facts about w / b and w % b that the digit loop of itoa needs. */
  lemma Quotient(w: nat, b: nat)
    requires b >= 2
    ensures 0 <= w / b && w % b < b
    ensures w != 0 ==> w / b < w
    ensures w == 0 ==> w / b == 0
  {
    DivMod(w, b);
  }

  lemma QuotientBelow(v: nat, b: nat, p: nat)
    requires b >= 2 && v < b * p
    ensures v / b < p
  {
    var q, r := v / b, v % b;
    assert v == q * b + r && 0 <= r;
    assert q * b < p * b;
    assert (p - q) * b > 0;
  }

  /** Evaluates a most-significant-first digit sequence in base b. */
  function Eval(ds: seq<nat>, b: nat): nat
  {
    if ds == [] then 0 else Eval(ds[..|ds| - 1], b) * b + ds[|ds| - 1]
  }

  /** The characters of a digit sequence. */
  function Spell(ds: seq<nat>): (s: string)
    ensures |s| == |ds|
  {
    if ds == [] then [] else Spell(ds[..|ds| - 1]) + [DigitChar(ds[|ds| - 1])]
  }

  lemma {:induction false} SpellAt(ds: seq<nat>, k: nat)
    requires k < |ds|
    ensures Spell(ds)[k] == DigitChar(ds[k])
    decreases |ds|
  {
    if k < |ds| - 1 {
      SpellAt(ds[..|ds| - 1], k);
    }
  }

  /** What itoa(v, str, base) leaves in str before the terminating NUL. */
  function ItoaString(v: u16, base: u8): string
  {
    Spell(Digits(v, Radix(base)))
  }

  /** The digits evaluate back to v. */
  lemma {:induction false} DigitsValue(v: nat, b: nat)
    requires b >= 2
    ensures Eval(Digits(v, b), b) == v
    decreases v
  {
    DivMod(v, b);
    var ds := Digits(v, b);
    var pre := if v / b == 0 then [] else Digits(v / b, b);
    assert ds == pre + [v % b];
    assert ds[..|ds| - 1] == pre;
    if v / b != 0 {
      DigitsValue(v / b, b);
    }
    assert Eval(ds, b) == Eval(pre, b) * b + v % b;
  }

  /** "0" exactly for zero, and no leading zero otherwise. */
  lemma {:induction false} DigitsLeading(v: nat, b: nat)
    requires b >= 2
    ensures v == 0 <==> Digits(v, b) == [0]
    ensures v != 0 ==> Digits(v, b)[0] != 0
    decreases v
  {
    if v / b != 0 {
      DigitsLeading(v / b, b);
      assert Digits(v, b)[0] == Digits(v / b, b)[0];
    } else if v != 0 {
      assert Digits(v, b) == [v % b];
    }
  }

  function Pow(b: nat, k: nat): nat
  {
    if k == 0 then 1 else b * Pow(b, k - 1)
  }

  /** A value below b^k has at most k digits. */
  lemma {:induction false} DigitsBound(v: nat, b: nat, k: nat)
    requires b >= 2 && k >= 1 && v < Pow(b, k)
    ensures |Digits(v, b)| <= k
    decreases k
  {
    DivMod(v, b);
    if v / b != 0 {
      assert k != 1 by {
        assert Pow(b, 1) == b;
      }
      QuotientBelow(v, b, Pow(b, k - 1));
      DigitsBound(v / b, b, k - 1);
    }
  }

  lemma {:induction false} PowAtLeast(b: nat, k: nat)
    requires b >= 2
    ensures Pow(b, k) >= Pow(2, k)
    decreases k
  {
    if k > 0 {
      PowAtLeast(b, k - 1);
    }
  }

  /** In any base of at least 2 a 16-bit value has at most 16 digits, so the
      17-character scratch array of itoa never truncates. */
  lemma ItoaFitsScratch(v: u16, base: u8)
    ensures |ItoaString(v, base)| <= 16
    ensures |ItoaString(v, base)| < Scratch
  {
    DigitsBoundU16(v, Radix(base));
  }

  lemma DigitsBoundU16(v: nat, b: nat)
    requires b >= 2 && v < 0x1_0000
    ensures |Digits(v, b)| <= 16
  {
    PowAtLeast(b, 16);
    assert Pow(2, 4) == 16;
    assert Pow(2, 8) == 256 by {
      assert Pow(2, 8) == 16 * Pow(2, 4);
    }
    assert Pow(2, 16) == 0x1_0000 by {
      assert Pow(2, 12) == 16 * Pow(2, 8);
      assert Pow(2, 16) == 16 * Pow(2, 12);
    }
    DigitsBound(v, b, 16);
  }

  /** A byte-sized value has at most three decimal digits (the 8-character
      buffers of the terminal helpers are large enough). */
  lemma ItoaByteDecimal(v: u8)
    ensures |ItoaString(v, 10)| <= 3
  {
    assert Pow(10, 3) == 1000;
    DigitsBound(v, 10, 3);
  }

  /** Every digit is below the base. */
  lemma {:induction false} DigitsBelow(v: nat, b: nat)
    requires b >= 2
    ensures forall k :: 0 <= k < |Digits(v, b)| ==> Digits(v, b)[k] < b
    decreases v
  {
    Quotient(v, b);
    if v / b != 0 {
      DigitsBelow(v / b, b);
    }
  }

  /** itoa's output is the digit characters of v's digits in the base it
      really uses, each digit below that base, and the digits evaluate back to v. */
  lemma ItoaDigits(v: u16, base: u8)
    ensures var s := ItoaString(v, base); var ds := Digits(v, Radix(base));
      1 <= |s| == |ds| &&
      (forall k :: 0 <= k < |s| ==> ds[k] < Radix(base) && s[k] == DigitChar(ds[k])) &&
      Eval(ds, Radix(base)) == v
  {
    var ds := Digits(v, Radix(base));
    DigitsValue(v, Radix(base));
    DigitsBelow(v, Radix(base));
    forall k | 0 <= k < |ds|
      ensures ItoaString(v, base)[k] == DigitChar(ds[k])
    {
      SpellAt(ds, k);
    }
  }

  /** Below digit 249 a digit character is '0' only for the digit zero:
      'A' + d - 10 first wraps past 255 at d == 201 and reaches '0' at d == 249. */
  lemma DigitCharZero(d: nat)
    requires d < 249
    ensures DigitChar(d) == '0' <==> d == 0
  {
    if d >= 10 {
      assert 'A' as int + d - 10 < 304;
    }
  }

  /** Up to base 249, "0" comes out exactly for zero and no other value has a leading '0'. */
  lemma ItoaZero(v: u16, base: u8)
    requires Radix(base) <= 249
    ensures ItoaString(v, base) == "0" <==> v == 0
    ensures v != 0 ==> ItoaString(v, base)[0] != '0'
  {
    var ds := Digits(v, Radix(base));
    ItoaDigits(v, base);
    DigitsLeading(v, Radix(base));
    DigitsBelow(v, Radix(base));
    DigitCharZero(ds[0]);
    if ItoaString(v, base) == "0" {
      assert ds == [ds[0]];
    }
  }

  /** From base 37 on the digit characters run past 'Z'; from base 202 on, stored
      in an 8-bit char, they wrap around; in base 250 the digit 249 is spelled "0". */
  lemma ItoaWideBase()
    ensures ItoaString(249, 250) == "0"
  {
    assert Digits(249, 250) == [249];
    assert DigitChar(249) == '0';
    assert Spell([249]) == [DigitChar(249)];
  }

  /** c is '0'..'9' or 'A'..'Z' and stands for a digit below b. */
  predicate DigitClass(c: char, b: nat)
  {
    ('0' <= c <= '9' && c as int - '0' as int < b) ||
    ('A' <= c <= 'Z' && c as int - 'A' as int + 10 < b)
  }

  lemma DigitCharClass(d: nat, b: nat)
    requires d < b <= 36
    ensures DigitClass(DigitChar(d), b)
  {
  }

  /** Up to base 36 the characters are '0'..'9' and 'A'..'Z', each of a digit below the base. */
  lemma ItoaAlphabet(v: u16, base: u8)
    requires Radix(base) <= 36
    ensures forall k :: 0 <= k < |ItoaString(v, base)| ==> DigitClass(ItoaString(v, base)[k], Radix(base))
  {
    ItoaDigits(v, base);
    forall k | 0 <= k < |ItoaString(v, base)|
      ensures DigitClass(ItoaString(v, base)[k], Radix(base))
    {
      DigitCharClass(Digits(v, Radix(base))[k], Radix(base));
    }
  }

  lemma ItoaExampleZero()
    ensures ItoaString(0, 10) == "0"
  {
    assert Digits(0, 10) == [0];
  }

  lemma ItoaExampleHex()
    ensures ItoaString(255, 16) == "FF"
  {
    assert Digits(255, 16) == [15, 15] by {
      assert Digits(15, 16) == [15];
    }
    assert Spell([15, 15]) == "FF" by {
      assert Spell([15]) == "F";
    }
  }

  lemma ItoaExampleBinary()
    ensures ItoaString(8, 2) == "1000"
  {
    assert Digits(8, 2) == [1, 0, 0, 0] by {
      assert Digits(1, 2) == [1];
      assert Digits(2, 2) == [1, 0];
      assert Digits(4, 2) == [1, 0, 0];
    }
    assert Spell([1]) == "1";
    assert Spell([1, 0]) == "10" by {
      assert [1, 0][..1] == [1];
    }
    assert Spell([1, 0, 0]) == "100" by {
      assert [1, 0, 0][..2] == [1, 0];
    }
    assert Spell([1, 0, 0, 0]) == "1000" by {
      assert [1, 0, 0, 0][..3] == [1, 0, 0];
    }
  }

  /** A base below 2 means base 10: ten is spelled "10", which no other base gives. */
  lemma ItoaExampleDefaultBase()
    ensures ItoaString(10, 0) == "10"
  {
    assert Digits(10, 10) == [1, 0] by {
      assert Digits(1, 10) == [1];
    }
    assert Spell([1, 0]) == "10" by {
      assert Spell([1]) == "1";
    }
  }

  /** The value left after `k` divisions by `b`: what itoa's `v` holds after `k` passes of its first loop. */
  function Shift(v: nat, b: nat, k: nat): nat
    requires b >= 2
  {
    if k == 0 then v else Shift(v, b, k - 1) / b
  }

  lemma {:induction false} ShiftSucc(v: nat, b: nat, k: nat)
    requires b >= 2 && k >= 1
    ensures Shift(v, b, k) == Shift(v / b, b, k - 1)
    decreases k
  {
    if k > 1 {
      ShiftSucc(v, b, k - 1);
    }
  }

  /** Digit `j` counted from the least significant end is the remainder after `j` divisions. */
  lemma {:induction false} DigitsAtShift(v: nat, b: nat, j: nat)
    requires b >= 2 && j < |Digits(v, b)|
    ensures Digits(v, b)[|Digits(v, b)| - 1 - j] == Shift(v, b, j) % b
    decreases v
  {
    Quotient(v, b);
    if j > 0 {
      DigitsAtShift(v / b, b, j - 1);
      ShiftSucc(v, b, j);
    }
  }

  /** The number of digits is the number of divisions it takes to reach zero (at least one). */
  lemma {:induction false} DigitsCount(v: nat, b: nat, j: nat)
    requires b >= 2 && 1 <= j <= |Digits(v, b)|
    ensures Shift(v, b, j) == 0 <==> j == |Digits(v, b)|
    decreases v
  {
    Quotient(v, b);
    ShiftSucc(v, b, j);
    if j > 1 {
      DigitsCount(v / b, b, j - 1);
    }
  }

  /** Character n-1-j of the spelled digits is the digit left after j divisions. */
  lemma SpellAtShift(v: nat, b: nat, j: nat)
    requires b >= 2 && j < |Digits(v, b)|
    ensures Spell(Digits(v, b))[|Digits(v, b)| - 1 - j] == DigitChar(Shift(v, b, j) % b)
  {
    DigitsAtShift(v, b, j);
    SpellAt(Digits(v, b), |Digits(v, b)| - 1 - j);
  }

  /** The first loop of itoa: the digits of v, least significant first, into a
      fresh 17-character scratch array; returns how many were written. */
  method DigitsLowFirst(v: u16, b: nat) returns (tmp: array<char>, i: nat)
    requires 2 <= b < 0x100
    ensures fresh(tmp) && tmp.Length == Scratch
    ensures i == |Digits(v, b)| && i < Scratch
    ensures forall k :: 0 <= k < i ==> tmp[k] == Spell(Digits(v, b))[i - 1 - k]
  {
    DigitsBoundU16(v, b);
    tmp := new char[Scratch];
    i := 0;
    ghost var n := |Digits(v, b)|;
    var w: nat := v;
    // a do-while: one digit, then go on while the value is non-zero and the scratch array has room
    while true
      invariant i < n < Scratch
      invariant w == Shift(v, b, i)
      invariant forall k :: 0 <= k < i ==> tmp[k] == Spell(Digits(v, b))[n - 1 - k]
      modifies tmp
      decreases n - i
    {
      Quotient(w, b);
      SpellAtShift(v, b, i);
      tmp[i] := DigitChar(w % b);
      w := w / b;
      i := i + 1;
      DigitsCount(v, b, i);
      if !(w != 0 && i < Scratch) {
        break;
      }
    }
  }

  /**
   * itoa: writes the digits of `v` in `base` (10 when below 2), most
   * significant first, then a NUL. A value below the base gives one digit.
   */
  method Itoa(v: u16, str: array<char>, base: u8)
    requires |ItoaString(v, base)| < str.Length
    modifies str
    ensures str[..|ItoaString(v, base)|] == ItoaString(v, base)
    ensures str[|ItoaString(v, base)|] == '\0'
    ensures forall k :: |ItoaString(v, base)| < k < str.Length ==> str[k] == old(str[k])
  {
    var b := Radix(base);
    var tmp: array<char>, i: nat := DigitsLowFirst(v, b);
    ghost var s := ItoaString(v, base);
    assert i == |s|;
    CopyReversed(tmp, i, str);
    assert str[..i] == s;
  }

  /** The second loop of itoa: the first n scratch characters, last first, then a NUL. */
  method CopyReversed(tmp: array<char>, n: nat, str: array<char>)
    requires n <= tmp.Length && n < str.Length && tmp != str
    modifies str
    ensures forall k :: 0 <= k < n ==> str[k] == tmp[n - 1 - k]
    ensures str[n] == '\0'
    ensures forall k :: n < k < str.Length ==> str[k] == old(str[k])
  {
    var i: nat := n;
    var j: nat := 0;
    while i > 0
      invariant i <= n && j == n - i
      invariant forall k :: 0 <= k < j ==> str[k] == tmp[n - 1 - k]
      invariant forall k :: j <= k < str.Length ==> str[k] == old(str[k])
    {
      i := i - 1;
      str[j] := tmp[i];
      j := j + 1;
    }
    str[j] := '\0';
  }

  predicate IsDigit(c: char)
  {
    '0' <= c <= '9'
  }

  /** The value of a decimal digit character. */
  function DigitValue(c: char): (d: nat)
    requires IsDigit(c)
    ensures d < 10 && DigitChar(d) == c
  {
    c as int - '0' as int
  }

  /** The longest prefix of s made of decimal digits. */
  function LeadingDigits(s: string): (p: string)
    ensures p <= s
    ensures forall k :: 0 <= k < |p| ==> IsDigit(p[k])
    ensures |p| < |s| ==> !IsDigit(s[|p|])
  {
    if s == [] || !IsDigit(s[0]) then [] else [s[0]] + LeadingDigits(s[1..])
  }

  /** The value of a string of decimal digits, as an unbounded number. */
  function Decimal(ds: string): nat
    requires forall k :: 0 <= k < |ds| ==> IsDigit(ds[k])
  {
    if ds == [] then 0 else Decimal(ds[..|ds| - 1]) * 10 + DigitValue(ds[|ds| - 1])
  }

  /** What atoi returns: the leading decimal digits, reduced modulo 2^16. */
  function AtoiValue(s: string): u16
  {
    Decimal(LeadingDigits(s)) % 0x1_0000
  }

  lemma ModStep(x: nat, d: nat)
    ensures ((x % 0x1_0000) * 10 + d) % 0x1_0000 == (x * 10 + d) % 0x1_0000
  {
    var q := x / 0x1_0000;
    var r := x % 0x1_0000;
    assert x * 10 + d == (r * 10 + d) + (q * 10) * 0x1_0000;
    MultipleMod(r * 10 + d, q * 10);
  }

  lemma {:induction false} MultipleMod(a: nat, k: nat)
    ensures (a + k * 0x1_0000) % 0x1_0000 == a % 0x1_0000
    decreases k
  {
    if k > 0 {
      MultipleMod(a, k - 1);
      assert a + k * 0x1_0000 == (a + (k - 1) * 0x1_0000) + 0x1_0000;
    }
  }

  /** atoi(s): accumulates v*10 + digit in a uint16 over the characters of s
      until the NUL, a '.', or the first other non-digit. The end of the
      sequence stands for the NUL. */
  method Atoi(s: string) returns (v: u16)
    ensures v == AtoiValue(s)
  {
    v := 0;
    var i := 0;
    while i < |s| && s[i] != '\0' && s[i] != '.'
      invariant i <= |s|
      invariant forall k :: 0 <= k < i ==> IsDigit(s[k])
      invariant v == Decimal(s[..i]) % 0x1_0000
    {
      if '0' <= s[i] <= '9' {
        assert s[..i + 1][..i] == s[..i];
        ModStep(Decimal(s[..i]), DigitValue(s[i]));
        v := (v * 10 + (s[i] as int - '0' as int)) % 0x1_0000;
      } else {
        break;
      }
      i := i + 1;
    }
    LeadingDigitsOfPrefix(s, i);
  }

  lemma {:induction false} LeadingDigitsOfPrefix(s: string, i: nat)
    requires i <= |s|
    requires forall k :: 0 <= k < i ==> IsDigit(s[k])
    requires i < |s| ==> !IsDigit(s[i])
    ensures LeadingDigits(s) == s[..i]
    decreases i
  {
    if i > 0 {
      LeadingDigitsOfPrefix(s[1..], i - 1);
      assert s[..i] == [s[0]] + s[1..][..i - 1];
    }
  }

  lemma AtoiExampleFraction()
    ensures AtoiValue("123.45") == 123
  {
    LeadingDigitsOfPrefix("123.45", 3);
    assert "123.45"[..3] == "123";
    assert Decimal("123") == 123 by {
      assert "123"[..2] == "12";
      assert "12"[..1] == "1";
      assert "1"[..0] == "";
    }
  }

  lemma AtoiExampleNoDigits()
    ensures AtoiValue("abc") == 0
    ensures AtoiValue("") == 0
  {
  }

  /** The uint16 accumulator wraps: 65537 reads as 1. */
  lemma AtoiExampleWrap()
    ensures AtoiValue("65537") == 1
  {
    LeadingDigitsOfPrefix("65537", 5);
    assert "65537"[..5] == "65537";
    assert Decimal("65537") == 65537 by {
      assert "65537"[..4] == "6553";
      assert "6553"[..3] == "655";
      assert "655"[..2] == "65";
      assert "65"[..1] == "6";
      assert "6"[..0] == "";
    }
  }

  /** The decimal characters of a digit sequence evaluate like the digits. */
  lemma {:induction false} DecimalOfSpell(ds: seq<nat>)
    requires forall k :: 0 <= k < |ds| ==> ds[k] < 10
    ensures forall k :: 0 <= k < |Spell(ds)| ==> IsDigit(Spell(ds)[k])
    ensures Decimal(Spell(ds)) == Eval(ds, 10)
    decreases |ds|
  {
    if ds != [] {
      var pre := ds[..|ds| - 1];
      DecimalOfSpell(pre);
      assert Spell(ds)[..|ds| - 1] == Spell(pre);
    }
  }

  /** Round trip: atoi reads back what itoa wrote in base 10, whether the
      digits end the string or are followed by any non-digit (the NUL, a '.',
      a ';' or an 'H' of an escape sequence). */
  lemma AtoiItoa(v: u16, rest: string)
    requires rest == [] || !IsDigit(rest[0])
    ensures AtoiValue(ItoaString(v, 10) + rest) == v
  {
    var t := ItoaString(v, 10);
    ItoaDecimal(v);
    assert (t + rest)[..|t|] == t;
    LeadingDigitsOfPrefix(t + rest, |t|);
  }

  /** itoa in base 10 writes decimal digits whose value is v. */
  lemma ItoaDecimal(v: u16)
    ensures forall k :: 0 <= k < |ItoaString(v, 10)| ==> IsDigit(ItoaString(v, 10)[k])
    ensures Decimal(ItoaString(v, 10)) == v
  {
    DigitsBelow(v, 10);
    DecimalOfSpell(Digits(v, 10));
    DigitsValue(v, 10);
  }
}
