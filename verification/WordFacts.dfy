// What the fixed-width arithmetic is, in terms of bits.

module WordFacts {
  import opened Options
  import opened Words
  import opened IR
  import opened Machine

  /** The width of a type. */
  function Bits(t: IntTy): nat {
    match t
    case I1 => 1
    case I8 => 8
    case I32 => 32
    case I64 => 64
  }

  /** Bit k of a number. */
  function Bit(n: nat, k: nat): nat {
    n / Pow2(k) % 2
  }

  lemma {:induction false} PowSum(a: nat, b: nat)
    ensures Pow2(a + b) == Pow2(a) * Pow2(b)
  {
    if a > 0 {
      PowSum(a - 1, b);
      assert Pow2(a) * Pow2(b) == 2 * (Pow2(a - 1) * Pow2(b));
    }
  }

  lemma Powers()
    ensures Pow2(0) == 1 && Pow2(1) == 2 && Pow2(8) == 256 && Pow2(16) == 65536
    ensures Pow2(32) == 4294967296 && Pow2(64) == 18446744073709551616
  {
    assert Pow2(2) == 4 && Pow2(4) == 16;
    PowSum(4, 4);
    PowSum(8, 8);
    PowSum(16, 16);
    PowSum(32, 32);
  }

  /** An integer type of b bits has 2 to the b values. */
  lemma ModulusIsPower(t: IntTy)
    ensures Modulus(t) == Pow2(Bits(t))
    ensures Bits(I1) == 1 && Bits(I8) == 8 && Bits(I32) == 32 && Bits(I64) == 64
    ensures Modulus(I32) == 4294967296 && Modulus(I64) == 18446744073709551616
  {
    Powers();
    hide Pow2;
  }

  /** The two readings of a number lie in their ranges, and differ from it by a multiple of 2 to the b. */
  lemma Readings(t: IntTy, n: int) returns (p: int, q: int)
    ensures 0 <= Norm(t, n) < Pow2(Bits(t)) && n == Norm(t, n) + p * Pow2(Bits(t))
    ensures 0 <= 2 * Signed(t, n) + Pow2(Bits(t)) < 2 * Pow2(Bits(t)) && n == Signed(t, n) + q * Pow2(Bits(t))
  {
    ModulusIsPower(t);
    p := NormSplit(t, n);
    q := if Norm(t, n) < Modulus(t) / 2 then p else p + 1;
    hide Bits, Pow2;
    assert (p + 1) * Modulus(t) == p * Modulus(t) + Modulus(t);
  }

  // ---------- bitwise operations ----------

  lemma HalfBit(n: nat, k: nat)
    ensures Bit(n, 0) == n % 2 && Bit(n, k + 1) == Bit(n / 2, k)
  {
    assert Pow2(0) == 1;
    DivTwice(n, Pow2(k));
  }

  lemma DivTwice(n: nat, m: nat)
    requires m > 0
    ensures n / (2 * m) == n / 2 / m
  {
    var q, r := n / 2 / m, n / 2 % m;
    assert n / 2 == q * m + r;
    var s := 2 * r + n % 2;
    assert n == q * (2 * m) + s && 0 <= s < 2 * m;
    QuotientUnique(2 * m, n / (2 * m), n % (2 * m), q, s);
  }

  lemma {:induction false} ZeroBits(k: nat)
    ensures Bit(0, k) == 0
  {
    assert Pow2(k) > 0;
  }

  /** Exclusive or and conjunction, bit by bit. */
  lemma {:induction false} BitwiseOps(a: nat, b: nat, k: nat)
    ensures Bit(XorBits(a, b), k) == (Bit(a, k) + Bit(b, k)) % 2
    ensures Bit(AndBits(a, b), k) == Bit(a, k) * Bit(b, k)
    decreases k
  {
    ZeroBits(k);
    if a > 0 && b > 0 {
      HalfOps(a, b);
      hide XorBits, AndBits, Bit;
      HalfBit(a, if k > 0 then k - 1 else 0);
      HalfBit(b, if k > 0 then k - 1 else 0);
      HalfBit(XorBits(a, b), if k > 0 then k - 1 else 0);
      HalfBit(AndBits(a, b), if k > 0 then k - 1 else 0);
      if k > 0 {
        BitwiseOps(a / 2, b / 2, k - 1);
      } else {
        LowBits(a % 2, b % 2);
      }
    } else {
      hide Bit;
      BitIsBit(a, k);
      BitIsBit(b, k);
    }
  }

  lemma BitIsBit(n: nat, k: nat)
    ensures Bit(n, k) == 0 || Bit(n, k) == 1
  {
    assert Pow2(k) > 0;
  }

  lemma LowBits(x: nat, y: nat)
    requires x < 2 && y < 2
    ensures (if x == 1 && y == 1 then 1 else 0) == x * y
  {
  }

  lemma {:induction false} HalfOps(a: nat, b: nat)
    requires a > 0 && b > 0
    ensures XorBits(a, b) % 2 == (a % 2 + b % 2) % 2 && XorBits(a, b) / 2 == XorBits(a / 2, b / 2)
    ensures AndBits(a, b) % 2 == (if a % 2 == 1 && b % 2 == 1 then 1 else 0)
    ensures AndBits(a, b) / 2 == AndBits(a / 2, b / 2)
  {
  }

  // ---------- the operations of the machine ----------

  /** Signed comparisons are those of numbers in the signed range, the unsigned one that of numbers in the unsigned. */
  lemma Orders(t: IntTy, a: int, b: int)
    requires t == I32 || t == I64
    ensures var h := Modulus(t) / 2;
      (-h <= a < h && -h <= b < h ==>
         (Holds(Slt, t, a, b) <==> a < b) && (Holds(Sgt, t, a, b) <==> a > b) && (Holds(Sge, t, a, b) <==> a >= b))
      && (0 <= a < Modulus(t) && 0 <= b < Modulus(t) ==>
            (Holds(Ult, t, a, b) <==> a < b) && (Holds(Eq, t, a, b) <==> a == b))
  {
    SignedIs(t, a);
    SignedIs(t, b);
    hide Signed;
  }

  lemma SignedIs(t: IntTy, a: int)
    ensures -(Modulus(t) / 2) <= a < Modulus(t) / 2 ==> Signed(t, a) == a
  {
    if -(Modulus(t) / 2) <= a < 0 {
      NormShift(t, a, 1);
    }
  }
}
