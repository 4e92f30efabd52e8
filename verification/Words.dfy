// Machine integers: the fixed-width values that the generated code computes with.

module Options {
  datatype Option<+T> = None | Some(value: T)
}

module Words {
  datatype IntTy = I1 | I8 | I32 | I64

  function Modulus(t: IntTy): int {
    match t
    case I1 => 2
    case I8 => 0x100
    case I32 => 0x1_0000_0000
    case I64 => 0x1_0000_0000_0000_0000
  }

  /** The machine word is 32 or 64 bits wide, by the size of a pointer on the host. */
  type WordTy = t: IntTy | t == I32 || t == I64 witness I64

  /** Left unspecified: everything proved about generated code holds for both widths. */
  const WORD: WordTy

  /** The unsigned representative of n. */
  function Norm(t: IntTy, n: int): int {
    n % Modulus(t)
  }

  /** The two's complement reading of n. */
  function Signed(t: IntTy, n: int): int {
    if Norm(t, n) < Modulus(t) / 2 then Norm(t, n) else Norm(t, n) - Modulus(t)
  }

  /** A C int: what a Fixnum must fit to become a constant. */
  predicate CInt(n: int) {
    -0x8000_0000 <= n < 0x8000_0000
  }

  function Pow2(k: nat): (p: nat)
    ensures p > 0
  {
    if k == 0 then 1 else 2 * Pow2(k - 1)
  }

  /** Bitwise operations on non-negative numbers, one binary digit at a time. */
  function XorBits(a: nat, b: nat): nat {
    if a == 0 then b
    else if b == 0 then a
    else (a % 2 + b % 2) % 2 + 2 * XorBits(a / 2, b / 2)
  }

  function AndBits(a: nat, b: nat): nat {
    if a == 0 || b == 0 then 0
    else (if a % 2 == 1 && b % 2 == 1 then 1 else 0) + 2 * AndBits(a / 2, b / 2)
  }

  lemma AtLeast(d: int, m: int)
    requires d >= 1 && m > 0
    ensures d * m >= m
  {
    assert d * m == (d - 1) * m + m;
  }

  lemma QuotientUnique(m: int, q: int, r: int, q': int, r': int)
    requires 0 <= r < m && 0 <= r' < m && q * m + r == q' * m + r'
    ensures q == q' && r == r'
  {
    assert (q' - q) * m == q' * m - q * m;
    assert (q - q') * m == q * m - q' * m;
    if q < q' {
      AtLeast(q' - q, m);
    } else if q > q' {
      AtLeast(q - q', m);
    }
  }

  lemma ModShift(a: int, k: int, m: int)
    requires m > 0
    ensures (a + k * m) % m == a % m
  {
    var x := a + k * m;
    assert (a / m + k) * m + a % m == x;
    QuotientUnique(m, x / m, x % m, a / m + k, a % m);
  }

  /** Multiples of the modulus do not matter. */
  lemma NormShift(t: IntTy, a: int, k: int)
    ensures Norm(t, a + k * Modulus(t)) == Norm(t, a)
  {
    ModShift(a, k, Modulus(t));
  }

  /** Every number is its residue and a multiple of the modulus. */
  lemma NormSplit(t: IntTy, a: int) returns (q: int)
    ensures a == Norm(t, a) + q * Modulus(t) && 0 <= Norm(t, a) < Modulus(t)
  {
    q := a / Modulus(t);
  }

  lemma NormNorm(t: IntTy, a: int)
    ensures Norm(t, Norm(t, a)) == Norm(t, a)
  {
  }

  lemma NormAffine(t: IntTy, c: int, a: int, b: int)
    ensures Norm(t, c * Norm(t, a) + b) == Norm(t, c * a + b)
  {
    var q := NormSplit(t, a);
    assert c * a + b == (c * Norm(t, a) + b) + (c * q) * Modulus(t);
    NormShift(t, c * Norm(t, a) + b, c * q);
  }
}
