// Tagged integers: what the arithmetic and comparison instructions compute on Ruby numbers.

module Fixnums {
  import opened Options
  import opened Words
  import opened WordFacts
  import opened IR
  import opened Machine
  import opened StackMachine
  import opened InsnCode

  /** How many values a fixnum can take: one bit of the word is the tag. */
  const RANGE: int := Modulus(WORD) / 2

  lemma RangeIsEven()
    ensures RANGE > 0 && RANGE % 2 == 0 && 2 * RANGE == Modulus(WORD)
  {
  }

  predicate IsFixnum(n: int) {
    -RANGE <= 2 * n < RANGE
  }

  /** One bit less than a word: 63 bits on a 64-bit word, 31 on a 32-bit one. */
  lemma FixnumRange(n: int)
    ensures WORD == I64 ==>
              RANGE == Pow2(63) && (IsFixnum(n) <==> -0x4000_0000_0000_0000 <= n < 0x4000_0000_0000_0000)
    ensures WORD == I32 ==> RANGE == Pow2(31) && (IsFixnum(n) <==> -0x4000_0000 <= n < 0x4000_0000)
    ensures WORD == I32 || WORD == I64
  {
    ModulusIsPower(WORD);
    assert Pow2(64) == 2 * Pow2(63) && Pow2(32) == 2 * Pow2(31);
    hide Pow2;
  }

  /** The number in two's complement, one bit narrower than a word. */
  function Wrap(n: int): int {
    var m := n % RANGE;
    if 2 * m < RANGE then m else m - RANGE
  }

  /** The number that a tagged word stands for. */
  function Number(v: Val): int
    requires IsWord(v)
  {
    (Signed(WORD, v.n) - 1) / 2
  }

  /** An array of tagged numbers. */
  function TagAll(xs: seq<int>): (a: seq<int>)
    ensures |a| == |xs|
  {
    seq(|xs|, j requires 0 <= j < |xs| => Tag(xs[j]).n)
  }

  lemma TagNorm(n: int)
    ensures Norm(WORD, Tag(n).n) == Tag(n).n && WordVal(Tag(n).n) == Tag(n)
  {
    NormNorm(WORD, 2 * n + 1);
  }

  /** Wrap reduces modulo 2^63 or 2^31. */
  lemma WrapCongruent(n: int) returns (q: int)
    ensures IsFixnum(Wrap(n)) && n == Wrap(n) + q * (if WORD == I64 then Pow2(63) else Pow2(31))
  {
    FixnumRange(n);
    WrapIsFixnum(n);
    RangeIsEven();
    q := if 2 * (n % RANGE) < RANGE then n / RANGE else n / RANGE + 1;
    hide IsFixnum, Pow2;
    assert (n / RANGE + 1) * RANGE == n / RANGE * RANGE + RANGE;
  }

  /** The word of a tagged number: twice the number and one, in two's complement of the width of the word. */
  lemma TagIs(n: int) returns (q: int)
    ensures Tag(n) == Int(WORD, 2 * n + 1 - q * Pow2(if WORD == I64 then 64 else 32))
    ensures 0 <= Tag(n).n < Pow2(if WORD == I64 then 64 else 32)
    ensures IsWord(Tag(n)) && (IsFixnum(n) ==> Number(Tag(n)) == n)
  {
    ModulusIsPower(WORD);
    FixnumRange(n);
    NumberOfTag(n);
    WrapIsFixnum(n);
    q := NormSplit(WORD, 2 * n + 1);
    hide Wrap, Number, IsFixnum, Pow2, Norm, Modulus;
  }

  lemma WrapIsFixnum(n: int)
    ensures IsFixnum(Wrap(n)) && (IsFixnum(n) ==> Wrap(n) == n)
  {
    RangeIsEven();
    if IsFixnum(n) {
      if n >= 0 {
        QuotientUnique(RANGE, n / RANGE, n % RANGE, 0, n);
      } else {
        QuotientUnique(RANGE, n / RANGE, n % RANGE, -1, n + RANGE);
      }
    }
  }

  /** Reduction keeps the residue: the word of n is the word of Wrap(n). */
  lemma TagWrap(n: int)
    ensures Tag(n) == Tag(Wrap(n))
  {
    RangeIsEven();
    var q := n / RANGE;
    var k := if 2 * (n % RANGE) < RANGE then q else q + 1;
    assert n == Wrap(n) + k * RANGE;
    assert 2 * n + 1 == (2 * Wrap(n) + 1) + k * Modulus(WORD);
    NormShift(WORD, 2 * Wrap(n) + 1, k);
  }

  /** fix2int, a logical shift, extracts the residue of the number. */
  lemma UntagTag(n: int)
    ensures IsWord(Tag(n)) && Untag(Tag(n)) == n % RANGE
  {
    RangeIsEven();
    var q := n / RANGE;
    assert 2 * n + 1 == (2 * (n % RANGE) + 1) + q * Modulus(WORD);
    NormShift(WORD, 2 * (n % RANGE) + 1, q);
    assert Norm(WORD, 2 * (n % RANGE) + 1) == 2 * (n % RANGE) + 1;
    NormNorm(WORD, 2 * n + 1);
  }

  /** A tagged word determines its number. */
  lemma NumberOfTag(n: int)
    ensures IsWord(Tag(n)) && Number(Tag(n)) == Wrap(n)
  {
    RangeIsEven();
    TagWrap(n);
    WrapIsFixnum(n);
    var w := Wrap(n);
    NormNorm(WORD, 2 * w + 1);
    SignedOdd(w);
  }

  lemma SignedOdd(w: int)
    requires IsFixnum(w)
    ensures Signed(WORD, 2 * w + 1) == 2 * w + 1
  {
    RangeIsEven();
    if w < 0 {
      NormShift(WORD, 2 * w + 1, 1);
    }
  }

  /** Congruent factors have congruent products. */
  lemma ProductResidue(a: int, b: int)
    ensures Tag((a % RANGE) * (b % RANGE)) == Tag(a * b)
  {
    RangeIsEven();
    var p, q := a / RANGE, b / RANGE;
    var x, y := a % RANGE, b % RANGE;
    var k := x * q + p * y + p * q * RANGE;
    assert a == x + p * RANGE && b == y + q * RANGE;
    Product(x, p, y, q, RANGE);
    assert 2 * (a * b) + 1 == (2 * (x * y) + 1) + k * Modulus(WORD) by {
      assert 2 * (k * RANGE) == k * (2 * RANGE);
    }
    NormShift(WORD, 2 * (x * y) + 1, k);
  }

  lemma Product(x: int, p: int, y: int, q: int, r: int)
    ensures (x + p * r) * (y + q * r) == x * y + (x * q + p * y + p * q * r) * r
  {
    assert (x + p * r) * (y + q * r) == x * y + x * (q * r) + (p * r) * y + (p * r) * (q * r);
    assert x * (q * r) == (x * q) * r;
    assert (p * r) * y == (p * y) * r;
    assert (p * r) * (q * r) == (p * q * r) * r;
  }

  lemma SumResidue(a: int, b: int)
    ensures Tag(a % RANGE + b % RANGE) == Tag(a + b)
    ensures Tag(a % RANGE - b % RANGE) == Tag(a - b)
  {
    RangeIsEven();
    var p, q := a / RANGE, b / RANGE;
    assert 2 * (a + b) + 1 == (2 * (a % RANGE + b % RANGE) + 1) + (p + q) * Modulus(WORD);
    NormShift(WORD, 2 * (a % RANGE + b % RANGE) + 1, p + q);
    assert 2 * (a - b) + 1 == (2 * (a % RANGE - b % RANGE) + 1) + (p - q) * Modulus(WORD);
    NormShift(WORD, 2 * (a % RANGE - b % RANGE) + 1, p - q);
  }

  // ---------- the instructions ----------

  /** Two tagged numbers on top of the stack. */
  predicate OnTop(s: Frame, a: int, b: int) {
    2 <= |s.stack| <= CELLS && Top(s, 2) == Tag(a) && Top(s, 1) == Tag(b)
  }

  /** The stack with the two replaced by v. */
  function Replaced(s: Frame, v: Val): Frame
    requires |s.stack| >= 2
  {
    s.(stack := s.stack[..|s.stack| - 2] + [v])
  }

  /**
   * Addition, subtraction and multiplication of any two tagged numbers, negative ones included, push the tag of
   * the result in two's complement; hence of the exact result whenever that is a fixnum.
   */
  lemma ArithmeticWraps(env: Env, s: Frame, a: int, b: int)
    requires OnTop(s, a, b)
    ensures Effect(env, OptPlus, s) == Some(Replaced(s, Tag(Wrap(a + b))))
    ensures Effect(env, OptMinus, s) == Some(Replaced(s, Tag(Wrap(a - b))))
    ensures Effect(env, OptMult, s) == Some(Replaced(s, Tag(Wrap(a * b))))
  {
    UntagTag(a);
    UntagTag(b);
    SumResidue(a, b);
    ProductResidue(a, b);
    TagWrap(a + b);
    TagWrap(a - b);
    TagWrap(a * b);
    hide Tag, Untag, Wrap;
  }

  lemma ExactIff(s: Frame, n: int)
    requires |s.stack| >= 2
    ensures |Replaced(s, Tag(Wrap(n))).stack| > 0 && IsWord(Top(Replaced(s, Tag(Wrap(n))), 1))
    ensures IsFixnum(n) <==> Number(Top(Replaced(s, Tag(Wrap(n))), 1)) == n
  {
    NumberOfTag(Wrap(n));
    WrapIsFixnum(n);
    WrapIsFixnum(Wrap(n));
    UntagTag(Wrap(n));
    hide Tag, Untag, Wrap, Number, IsFixnum;
  }

  /** The instruction pushes a word that stands for n. */
  predicate Gives(env: Env, insn: Insn, s: Frame, n: int) {
    match Effect(env, insn, s)
    case Some(t) => |t.stack| > 0 && IsWord(Top(t, 1)) && Number(Top(t, 1)) == n
    case None => false
  }

  lemma GivesIs(env: Env, insn: Insn, s: Frame, n: int)
    requires |s.stack| >= 2 && Effect(env, insn, s).Some?
    ensures var t := Effect(env, insn, s).value;
      Gives(env, insn, s, n) <==> |t.stack| > 0 && IsWord(Top(t, 1)) && Number(Top(t, 1)) == n
  {
    hide Effect, Number;
  }

  lemma GivesIff(env: Env, insn: Insn, s: Frame, n: int)
    requires |s.stack| >= 2 && Effect(env, insn, s) == Some(Replaced(s, Tag(Wrap(n))))
    ensures WORD == I64 ==> (Gives(env, insn, s, n) <==> -0x4000_0000_0000_0000 <= n < 0x4000_0000_0000_0000)
    ensures WORD == I32 ==> (Gives(env, insn, s, n) <==> -0x4000_0000 <= n < 0x4000_0000)
  {
    ExactIff(s, n);
    FixnumRange(n);
    GivesIs(env, insn, s, n);
    hide *;
  }

  /**
   * The result of an addition, a subtraction or a multiplication of any two tagged numbers reads back as the exact one
   * if and only if that lies in [-2^62, 2^62) on a 64-bit word, in [-2^30, 2^30) on a 32-bit one.
   */
  lemma ArithmeticExact(env: Env, s: Frame, a: int, b: int)
    requires OnTop(s, a, b)
    ensures WORD == I64 ==>
              (Gives(env, OptPlus, s, a + b) <==> -0x4000_0000_0000_0000 <= a + b < 0x4000_0000_0000_0000)
              && (Gives(env, OptMinus, s, a - b) <==> -0x4000_0000_0000_0000 <= a - b < 0x4000_0000_0000_0000)
              && (Gives(env, OptMult, s, a * b) <==> -0x4000_0000_0000_0000 <= a * b < 0x4000_0000_0000_0000)
    ensures WORD == I32 ==>
              (Gives(env, OptPlus, s, a + b) <==> -0x4000_0000 <= a + b < 0x4000_0000)
              && (Gives(env, OptMinus, s, a - b) <==> -0x4000_0000 <= a - b < 0x4000_0000)
              && (Gives(env, OptMult, s, a * b) <==> -0x4000_0000 <= a * b < 0x4000_0000)
  {
    assert |s.stack| >= 2;
    hide *;
    ArithmeticWraps(env, s, a, b);
    GivesIff(env, OptPlus, s, a + b);
    GivesIff(env, OptMinus, s, a - b);
    GivesIff(env, OptMult, s, a * b);
  }

  // ---------- comparisons ----------

  /** What a comparison instruction says of two numbers. */
  predicate Compares(insn: Insn, a: int, b: int)
    requires IsComparison(insn)
  {
    match insn
    case OptLt => a < b
    case OptGt => a > b
    case OptGe => a >= b
  }

  predicate IsComparison(insn: Insn) {
    insn.OptLt? || insn.OptGt? || insn.OptGe?
  }

  /** Comparisons go by the residues, because untagging forgets the sign. */
  lemma ComparesResidues(env: Env, insn: Insn, s: Frame, a: int, b: int)
    requires OnTop(s, a, b) && IsComparison(insn)
    ensures Effect(env, insn, s) == Some(Replaced(s, Bool(Compares(insn, a % RANGE, b % RANGE))))
  {
    UntagTag(a);
    UntagTag(b);
    hide Tag, Untag, Bool;
  }

  /** A negative number has a larger residue than any other. */
  lemma ResidueOrder(a: int, b: int)
    requires IsFixnum(a) && IsFixnum(b)
    ensures a % RANGE < b % RANGE <==> if (a < 0) == (b < 0) then a < b else b < a
    ensures a % RANGE == b % RANGE <==> a == b
  {
    RangeIsEven();
    ResidueOf(a);
    ResidueOf(b);
  }

  lemma ResidueOf(n: int)
    requires IsFixnum(n)
    ensures n % RANGE == if n < 0 then n + RANGE else n
  {
    RangeIsEven();
    var r := if n < 0 then n + RANGE else n;
    QuotientUnique(RANGE, n / RANGE, n % RANGE, if n < 0 then -1 else 0, r);
  }

  lemma BoolsDiffer(a: bool, b: bool)
    ensures Bool(a) == Bool(b) <==> a == b
    ensures IsWord(Bool(a)) && (IsZero(Bool(a)) <==> !a)
    ensures Bool(a) == Int(WORD, if a then 2 else 0)
  {
  }

  /**
   * The order of the integers for two numbers of the same sign, and exactly the opposite for two of different signs.
   */
  lemma ComparisonsBySign(env: Env, insn: Insn, s: Frame, a: int, b: int)
    requires OnTop(s, a, b) && IsComparison(insn) && IsFixnum(a) && IsFixnum(b)
    ensures Effect(env, insn, s).Some?
    ensures Effect(env, insn, s) == Some(Replaced(s, Bool(Compares(insn, a, b)))) <==> (a < 0) == (b < 0)
    ensures Effect(env, insn, s) == Some(Replaced(s, Bool(!Compares(insn, a, b)))) <==> (a < 0) != (b < 0)
  {
    ComparesResidues(env, insn, s, a, b);
    ResidueOrder(a, b);
    ResidueOrder(b, a);
    var given := Compares(insn, a % RANGE, b % RANGE);
    BoolsDiffer(given, Compares(insn, a, b));
    BoolsDiffer(given, !Compares(insn, a, b));
    assert given == Compares(insn, a, b) <==> (a < 0) == (b < 0);
    hide Effect, Bool, Compares, IsFixnum, OnTop;
    assert Top(Replaced(s, Bool(given)), 1) == Bool(given);
    assert Top(Replaced(s, Bool(Compares(insn, a, b))), 1) == Bool(Compares(insn, a, b));
    assert Top(Replaced(s, Bool(!Compares(insn, a, b))), 1) == Bool(!Compares(insn, a, b));
  }

  /** opt_ge always gives the other answer than opt_lt, and each gives the word 2 or the word 0. */
  lemma GeComplementsLt(env: Env, s: Frame, a: int, b: int)
    requires OnTop(s, a, b)
    ensures Effect(env, OptLt, s).Some? && Effect(env, OptGe, s).Some?
    ensures var lt, ge := Top(Effect(env, OptLt, s).value, 1), Top(Effect(env, OptGe, s).value, 1);
      (lt == Int(WORD, 2) && ge == Int(WORD, 0)) || (lt == Int(WORD, 0) && ge == Int(WORD, 2))
  {
    ComparesResidues(env, OptLt, s, a, b);
    ComparesResidues(env, OptGe, s, a, b);
    BoolsDiffer(a % RANGE < b % RANGE, a % RANGE >= b % RANGE);
    BoolsDiffer(a % RANGE >= b % RANGE, a % RANGE < b % RANGE);
    hide Effect, Bool;
  }

  lemma AndWithFlag(v: Val)
    requires IsWord(v)
    ensures EvalBin(And, Int(WORD, 1), v) == Some(Int(WORD, Norm(WORD, v.n) % 2))
  {
    RangeIsEven();
    assert Norm(WORD, 1) == 1;
    AndOne(Norm(WORD, v.n));
    hide Norm, AndBits;
  }

  lemma {:induction false} AndOne(m: nat)
    ensures AndBits(1, m) == m % 2
  {
    if m > 0 {
      assert AndBits(0, m / 2) == 0;
    }
  }

  /** The words of tags are the odd ones. */
  lemma TagIsOdd(n: int)
    ensures Tag(n) == Int(WORD, Tag(n).n) && Tag(n).n % 2 == 1
  {
    RangeIsEven();
    var q := NormSplit(WORD, 2 * n + 1);
    OddMinusEven(n, q);
    hide Norm;
  }

  lemma OddMinusEven(n: int, q: int)
    ensures (2 * n + 1 - q * Modulus(WORD)) % 2 == 1
  {
    RangeIsEven();
    assert 2 * n + 1 - q * Modulus(WORD) == 2 * (n - q * RANGE) + 1;
    hide Modulus;
  }

  lemma OddIsTag(m: int)
    requires 0 <= m < Modulus(WORD) && m % 2 == 1
    ensures Tag(m / 2) == Int(WORD, m)
  {
    assert 2 * (m / 2) + 1 == m;
  }

  lemma NormInRange(n: int)
    ensures 0 <= Norm(WORD, n) < Modulus(WORD)
  {
  }

  /** fixnum? yields 1 exactly for the words that are tags. */
  lemma FixnumTest(v: Val)
    requires IsWord(v)
    ensures EvalBin(And, Int(WORD, 1), v) == Some(Int(WORD, 1)) <==> exists n: int :: v.(n := Norm(WORD, v.n)) == Tag(n)
    ensures EvalBin(And, Int(WORD, 1), v) == Some(Int(WORD, Norm(WORD, v.n) % 2))
  {
    AndWithFlag(v);
    var m := Norm(WORD, v.n);
    NormInRange(v.n);
    hide Norm, Tag, EvalBin;
    if m % 2 == 1 {
      OddIsTag(m);
      assert v.(n := m) == Tag(m / 2);
    }
    if n: int :| v.(n := m) == Tag(n) {
      TagIsOdd(n);
    }
  }

  // ---------- guards ----------

  /** A comparison followed by a conditional branch. */
  predicate Guard(bc: Bytecode, pc: nat) {
    pc + 1 < |bc| && IsComparison(bc[pc]) && (bc[pc + 1].BranchIf? || bc[pc + 1].BranchUnless?)
  }

  /** Where the pair goes if the comparison says b. */
  function Guarded(bc: Bytecode, pc: nat, b: bool): nat
    requires Guard(bc, pc) && WellFormed(bc)
  {
    if b == bc[pc + 1].BranchIf? then Target(|bc|, bc[pc + 1].target) else pc + 2
  }

  /** branchif jumps exactly when the word is not zero, branchunless exactly when it is. */
  lemma BranchOnWord(env: Env, bc: Bytecode, pc: nat, s: Frame)
    requires WellFormed(bc) && pc < |bc| && (bc[pc].BranchIf? || bc[pc].BranchUnless?)
    requires |s.stack| > 0 && IsWord(Top(s, 1))
    ensures StepVm(env, bc, Running(pc, s))
         == Running(if IsZero(Top(s, 1)) == bc[pc].BranchUnless? then Target(|bc|, bc[pc].target) else pc + 1,
                    Drop(s, 1))
  {
    hide Effect;
  }

  lemma StepsByEffect(env: Env, bc: Bytecode, pc: nat, s: Frame)
    requires WellFormed(bc) && pc < |bc| && Effect(env, bc[pc], s).Some?
    ensures StepVm(env, bc, Running(pc, s)) == Running(pc + 1, Effect(env, bc[pc], s).value)
  {
    JumpsHaveNone(env, bc[pc], s);
    hide Effect;
  }

  lemma JumpsHaveNone(env: Env, insn: Insn, s: Frame)
    requires Effect(env, insn, s).Some?
    ensures !IsJump(insn)
  {
  }

  /**
   * A comparison and a branch take the jump exactly when the residues compare; for two numbers of the same sign,
   * exactly when the numbers do. Both operands are gone afterwards.
   */
  lemma {:induction false} GuardsDecide(env: Env, bc: Bytecode, pc: nat, s: Frame, a: int, b: int)
    requires WellFormed(bc) && Guard(bc, pc) && OnTop(s, a, b)
    ensures RunVm(env, bc, Running(pc, s), 2)
         == Running(Guarded(bc, pc, Compares(bc[pc], a % RANGE, b % RANGE)), Drop(s, 2))
    ensures IsFixnum(a) && IsFixnum(b) && (a < 0) == (b < 0) ==>
              RunVm(env, bc, Running(pc, s), 2) == Running(Guarded(bc, pc, Compares(bc[pc], a, b)), Drop(s, 2))
  {
    var given := Compares(bc[pc], a % RANGE, b % RANGE);
    if IsFixnum(a) && IsFixnum(b) {
      ResidueOrder(a, b);
      ResidueOrder(b, a);
    }
    ComparesResidues(env, bc[pc], s, a, b);
    BoolsDiffer(given, true);
    hide Effect, Bool, IsFixnum, WellFormed, IsZero;
    StepsByEffect(env, bc, pc, s);
    var s' := Replaced(s, Bool(given));
    assert Top(s', 1) == Bool(given) && Drop(s', 1) == Drop(s, 2);
    BranchOnWord(env, bc, pc + 1, s');
    TwoSteps(env, bc, Running(pc, s));
  }

  lemma {:induction false} TwoSteps(env: Env, bc: Bytecode, vm: Vm)
    requires WellFormed(bc)
    ensures RunVm(env, bc, vm, 2) == StepVm(env, bc, StepVm(env, bc, vm))
  {
    hide StepVm, WellFormed;
    assert RunVm(env, bc, vm, 2) == RunVm(env, bc, StepVm(env, bc, vm), 1);
    assert RunVm(env, bc, StepVm(env, bc, StepVm(env, bc, vm)), 0) == StepVm(env, bc, StepVm(env, bc, vm));
  }
}
