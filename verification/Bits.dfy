/**
 Bitwise operators of unsigned words, written on natural numbers digit by digit, with the
 facts that tie masks and shifts to division and remainder.  A word of width n is a nat
 below Pow2(n).
 */
module Bits {

  function Pow2(n: nat): (r: nat)
    ensures r >= 1
  {
    if n == 0 then 1 else 2 * Pow2(n - 1)
  }

  function And(x: nat, y: nat): nat
    decreases x + y
  {
    if x == 0 || y == 0 then 0 else AndBit(x, y) + 2 * And(x / 2, y / 2)
  }

  function AndBit(x: nat, y: nat): nat { if x % 2 == 1 && y % 2 == 1 then 1 else 0 }

  function Or(x: nat, y: nat): nat
    decreases x + y
  {
    if x == 0 then y else if y == 0 then x
    else (if x % 2 == 1 || y % 2 == 1 then 1 else 0) + 2 * Or(x / 2, y / 2)
  }

  function Xor(x: nat, y: nat): nat
    decreases x + y
  {
    if x == 0 then y else if y == 0 then x
    else (if x % 2 != y % 2 then 1 else 0) + 2 * Xor(x / 2, y / 2)
  }

  /** The complement of x in a word of the given width. */
  function Not(x: nat, width: nat): nat
    requires x < Pow2(width)
  {
    Pow2(width) - 1 - x
  }

  function Shl(x: nat, s: nat): nat { if s == 0 then x else 2 * Shl(x, s - 1) }

  function Shr(x: nat, s: nat): nat { if s == 0 then x else Shr(x / 2, s - 1) }

  /** The k low bits of x. */
  function Low(x: nat, k: nat): nat { if k == 0 then 0 else x % 2 + 2 * Low(x / 2, k - 1) }

  /** The k-bit field of x that starts at bit s. */
  function Field(x: nat, s: nat, k: nat): nat { Low(Shr(x, s), k) }

  // ---------------------------------------------------------------- arithmetic

  lemma MulAtLeast(k: int, d: int)
    requires k >= 1 && d > 0
    ensures k * d >= d
  {
  }

  /** Quotient and remainder are unique. */
  lemma SameDigits(q: int, r: int, q': int, r': int, d: int)
    requires 0 <= r < d && 0 <= r' < d && q * d + r == q' * d + r'
    ensures q == q' && r == r'
  {
    assert (q - q') * d == q * d - q' * d;
    if q > q' {
      MulAtLeast(q - q', d);
    } else if q' > q {
      assert (q' - q) * d == -((q - q') * d);
      MulAtLeast(q' - q, d);
    }
  }

  lemma ModUnique(x: int, d: int, q: int, r: int)
    requires d > 0 && 0 <= r < d && x == q * d + r
    ensures x / d == q && x % d == r
  {
    var q', r' := x / d, x % d;
    assert q' * d + r' == x;
    SameDigits(q', r', q, r, d);
  }

  lemma {:induction false} ShlIsMul(x: nat, s: nat)
    ensures Shl(x, s) == x * Pow2(s)
  {
    if s > 0 {
      ShlIsMul(x, s - 1);
      MulDouble(x, Pow2(s - 1));
    }
  }

  lemma MulDouble(x: int, y: int)
    ensures x * (2 * y) == 2 * (x * y)
  {
  }

  /** x is its high part shifted back plus its low part. */
  lemma {:induction false} HighLow(x: nat, s: nat)
    ensures x == Shl(Shr(x, s), s) + Low(x, s)
    ensures Low(x, s) < Pow2(s)
  {
    if s > 0 { HighLow(x / 2, s - 1); }
  }

  lemma ShrIsDiv(x: nat, s: nat)
    ensures Shr(x, s) == x / Pow2(s) && Low(x, s) == x % Pow2(s)
  {
    HighLow(x, s);
    ShlIsMul(Shr(x, s), s);
    ModUnique(x, Pow2(s), Shr(x, s), Low(x, s));
  }

  /** Reading back what was put together: high part h over a low part below 2^s. */
  lemma {:induction false} Join(h: nat, l: nat, s: nat)
    requires l < Pow2(s)
    ensures Shr(Shl(h, s) + l, s) == h && Low(Shl(h, s) + l, s) == l
  {
    if s > 0 {
      Join(h, l / 2, s - 1);
      assert (Shl(h, s) + l) / 2 == Shl(h, s - 1) + l / 2;
    }
  }

  lemma {:induction false} ShrShr(x: nat, a: nat, b: nat)
    ensures Shr(Shr(x, a), b) == Shr(x, a + b)
  {
    if a > 0 { ShrShr(x / 2, a - 1, b); }
  }

  lemma {:induction false} LowSmall(x: nat, k: nat)
    requires x < Pow2(k)
    ensures Low(x, k) == x
  {
    if k > 0 { LowSmall(x / 2, k - 1); }
  }

  lemma Double4(n: nat)
    ensures Pow2(n + 4) == 16 * Pow2(n)
  {
    assert Pow2(n + 4) == 2 * Pow2(n + 3);
    assert Pow2(n + 3) == 2 * Pow2(n + 2);
  }

  lemma Powers()
    ensures Pow2(10) == 0x400 && Pow2(11) == 0x800 && Pow2(14) == 0x4000 && Pow2(22) == 0x40_0000
    ensures Pow2(28) == 0x1000_0000 && Pow2(32) == 0x1_0000_0000 && Pow2(42) == 0x400_0000_0000
    ensures Pow2(44) == 0x1000_0000_0000 && Pow2(64) == 0x1_0000_0000_0000_0000
  {
    assert Pow2(10) == 0x400;
    assert Pow2(12) == 0x1000;
    Double4(10); Double4(14); Double4(18); Double4(22); Double4(26); Double4(30); Double4(34); Double4(38);
    Double4(12); Double4(16); Double4(20); Double4(24); Double4(28); Double4(32); Double4(36); Double4(40);
    Double4(44); Double4(48); Double4(52); Double4(56); Double4(60);
  }

  // ---------------------------------------------------------------- masks

  /** One binary digit of And, without the zero cases. */
  lemma AndStep(x: nat, y: nat)
    ensures And(x, y) == AndBit(x, y) + 2 * And(x / 2, y / 2)
  {
  }

  /** x & (2^k - 1) keeps the k low bits. */
  lemma {:induction false} AndLow(x: nat, k: nat)
    ensures And(x, Pow2(k) - 1) == Low(x, k)
  {
    if k > 0 {
      var m := Pow2(k) - 1;
      assert m / 2 == Pow2(k - 1) - 1 && m % 2 == 1;
      AndStep(x, m);
      AndLow(x / 2, k - 1);
    }
  }

  /** x & (m << s) touches only the bits from s up. */
  lemma {:induction false} AndShifted(x: nat, m: nat, s: nat)
    ensures And(x, Shl(m, s)) == Shl(And(Shr(x, s), m), s)
  {
    if s > 0 {
      AndStep(x, Shl(m, s));
      AndShifted(x / 2, m, s - 1);
    }
  }

  lemma {:induction false} ShrShl(x: nat, s: nat)
    ensures Shr(Shl(x, s), s) == x
  {
    if s > 0 { ShrShl(x, s - 1); }
  }

  /** Masking with a shifted block of ones extracts a field in place. */
  lemma AndField(x: nat, s: nat, k: nat)
    ensures And(x, Shl(Pow2(k) - 1, s)) == Shl(Field(x, s, k), s)
    ensures Shr(And(x, Shl(Pow2(k) - 1, s)), s) == Field(x, s, k)
  {
    AndShifted(x, Pow2(k) - 1, s);
    AndLow(Shr(x, s), k);
    ShrShl(Field(x, s, k), s);
  }

  /** | of numbers with no common bit position is addition. */
  lemma {:induction false} OrDisjoint(a: nat, b: nat, s: nat)
    requires a < Pow2(s)
    ensures Or(a, Shl(b, s)) == a + Shl(b, s) == Or(Shl(b, s), a)
  {
    if s > 0 { OrDisjoint(a / 2, b, s - 1); }
  }

  lemma {:induction false} AndCommutes(x: nat, y: nat)
    ensures And(x, y) == And(y, x)
    decreases x + y
  {
    if x > 0 && y > 0 {
      AndCommutes(x / 2, y / 2);
    }
  }

  lemma {:induction false} AndDisjoint(a: nat, b: nat, s: nat)
    requires a < Pow2(s)
    ensures And(a, Shl(b, s)) == 0
  {
    if s > 0 {
      AndStep(a, Shl(b, s));
      AndDisjoint(a / 2, b, s - 1);
    }
  }

  /** | of words with no common bit is addition. */
  lemma {:induction false} OrIsAdd(x: nat, y: nat)
    requires And(x, y) == 0
    ensures Or(x, y) == x + y
    decreases x + y
  {
    if x > 0 && y > 0 {
      AndStep(x, y);
      OrIsAdd(x / 2, y / 2);
    }
  }

  lemma DigitSplit(x: nat, m: nat, c: nat)
    requires AndBit(m, c) == 0
    ensures (m + c) / 2 == m / 2 + c / 2 && AndBit(x, m + c) == AndBit(x, m) + AndBit(x, c)
  {
  }

  /** Masks with no common bit split x between them. */
  lemma {:induction false} AndSplit(x: nat, m: nat, c: nat)
    requires And(m, c) == 0
    ensures And(x, m + c) == And(x, m) + And(x, c)
    decreases x + m + c
  {
    if x > 0 && (m > 0 || c > 0) {
      AndStep(m, c);
      AndSplit(x / 2, m / 2, c / 2);
      AndStep(x, m); AndStep(x, c); AndStep(x, m + c);
      DigitSplit(x, m, c);
    }
  }

  lemma {:induction false} AndSelfNot(m: nat, w: nat)
    requires m < Pow2(w)
    ensures And(m, Not(m, w)) == 0
  {
    if w > 0 {
      AndStep(m, Not(m, w));
      AndSelfNot(m / 2, w - 1);
      assert Not(m, w) / 2 == Not(m / 2, w - 1);
      assert m % 2 == 0 || Not(m, w) % 2 == 0;
    }
  }

  /** x & ~m removes exactly what x & m extracts. */
  lemma AndNot(x: nat, m: nat, w: nat)
    requires x < Pow2(w) && m < Pow2(w)
    ensures And(x, Not(m, w)) == x - And(x, m)
  {
    AndSelfNot(m, w);
    AndSplit(x, m, Not(m, w));
    AndLow(x, w);
    LowSmall(x, w);
  }

  lemma XorStep(x: nat, y: nat)
    ensures Xor(x, y) % 2 == (if x % 2 != y % 2 then 1 else 0) && Xor(x, y) / 2 == Xor(x / 2, y / 2)
  {
    if x == 0 {
      assert Xor(x, y) == y && Xor(x / 2, y / 2) == y / 2;
    } else if y == 0 {
      assert Xor(x, y) == x && Xor(x / 2, y / 2) == x / 2;
    }
  }

  /** (x ^ y) & (2^k - 1) is zero exactly when the k low bits of x and y agree. */
  lemma {:induction false} XorLowZero(x: nat, y: nat, k: nat)
    ensures And(Xor(x, y), Pow2(k) - 1) == 0 <==> Low(x, k) == Low(y, k)
  {
    AndLow(Xor(x, y), k);
    if k > 0 {
      XorStep(x, y);
      XorLowZero(x / 2, y / 2, k - 1);
      AndLow(Xor(x / 2, y / 2), k - 1);
    }
  }
}
