// A whole program: the bytecode that doubles every element of an array in place.

module ArrayLoop {
  import opened Options
  import opened Words
  import opened IR
  import opened Machine
  import opened StackMachine
  import opened Codegen
  import opened Simulation
  import opened Fixnums

  /** Immediate operands are tagged. */
  function Immediate(n: int): Insn {
    PutObject(2 * n + 1)
  }

  const DOUBLE_ALL: Bytecode := [
    Dup, SetLocal(0), OptLength,
    Immediate(1), OptMinus,
    Dup, GetLocal(0), Swap, OptAref, Immediate(2), OptMult, SetLocal(1),
    Dup, GetLocal(0), Swap, GetLocal(1), OptAset, Pop,
    Dup, Immediate(0), OptGt, BranchIf(3),
    GetLocal(0)
  ]

  /** rb_ary_store, on an index in range: the one effect of the interpreter that the program relies on. */
  ghost predicate StoresInRange(rt: Runtime) {
    forall a: int, i: int, v: Val, w: World ::
      a in w.arrays && 0 <= a < Modulus(WORD) && 0 <= i < |w.arrays[a]| && IsWord(v) ==>
        rt(AryStore, [Int(WORD, a), Int(WORD, i), v], w).1 == w.arrays[a := w.arrays[a][i := Norm(WORD, v.n)]]
  }

  function Doubled(xs: seq<int>): (ys: seq<int>)
    ensures |ys| == |xs|
  {
    seq(|xs|, j requires 0 <= j < |xs| => 2 * xs[j])
  }

  /** The numbers when those from index i on have been doubled. */
  function DoubledFrom(xs: seq<int>, i: int): (ys: seq<int>)
    ensures |ys| == |xs|
  {
    seq(|xs|, j requires 0 <= j < |xs| => if j < i then xs[j] else 2 * xs[j])
  }

  // ---------- runs ----------

  ghost predicate Reaches(env: Env, bc: Bytecode, vm: Vm, vm': Vm) {
    WellFormed(bc) && exists n: nat :: RunVm(env, bc, vm, n) == vm'
  }

  lemma {:induction false} RunsAdd(env: Env, bc: Bytecode, vm: Vm, a: nat, b: nat)
    requires WellFormed(bc)
    ensures RunVm(env, bc, vm, a + b) == RunVm(env, bc, RunVm(env, bc, vm, a), b)
    decreases a
  {
    hide StepVm, WellFormed;
    if a > 0 {
      RunsAdd(env, bc, StepVm(env, bc, vm), a - 1, b);
    }
  }

  lemma Onward(env: Env, bc: Bytecode, vm: Vm, vm1: Vm, vm2: Vm)
    requires Reaches(env, bc, vm, vm1) && Reaches(env, bc, vm1, vm2)
    ensures Reaches(env, bc, vm, vm2)
  {
    hide RunVm, WellFormed;
    var a: nat :| RunVm(env, bc, vm, a) == vm1;
    var b: nat :| RunVm(env, bc, vm1, b) == vm2;
    RunsAdd(env, bc, vm, a, b);
  }

  lemma OneStepReaches(env: Env, bc: Bytecode, vm: Vm)
    requires WellFormed(bc)
    ensures Reaches(env, bc, vm, StepVm(env, bc, vm))
  {
    hide StepVm, WellFormed;
    assert RunVm(env, bc, StepVm(env, bc, vm), 0) == StepVm(env, bc, vm);
    assert RunVm(env, bc, vm, 1) == StepVm(env, bc, vm);
  }

  /** From wherever vm is, one more instruction without a jump. */
  lemma Do(env: Env, bc: Bytecode, vm: Vm, pc: nat, s: Frame, s': Frame)
    requires Reaches(env, bc, vm, Running(pc, s)) && pc < |bc| && Effect(env, bc[pc], s) == Some(s')
    ensures Reaches(env, bc, vm, Running(pc + 1, s'))
  {
    hide Effect, WellFormed, RunVm, StepVm;
    StepsByEffect(env, bc, pc, s);
    OneStepReaches(env, bc, Running(pc, s));
    Onward(env, bc, vm, Running(pc, s), Running(pc + 1, s'));
  }

  // ---------- instructions on a stack with known values on top ----------

  lemma DoesPut(env: Env, t: seq<Val>, l: seq<Val>, w: World, n: int)
    requires |t| < CELLS
    ensures Effect(env, Immediate(n), Frame(t, l, w)) == Some(Frame(t + [Tag(n)], l, w))
  {
  }

  lemma DoesDup(env: Env, t: seq<Val>, l: seq<Val>, w: World, x: Val)
    requires |t| + 1 < CELLS
    ensures Effect(env, Dup, Frame(t + [x], l, w)) == Some(Frame(t + [x, x], l, w))
  {
    assert t + [x] + [x] == t + [x, x];
  }

  lemma DoesGet(env: Env, t: seq<Val>, l: seq<Val>, w: World, k: nat)
    requires |t| < CELLS && k < |l|
    ensures Effect(env, GetLocal(k), Frame(t, l, w)) == Some(Frame(t + [l[k]], l, w))
  {
  }

  lemma DoesSet(env: Env, t: seq<Val>, l: seq<Val>, w: World, k: nat, x: Val)
    requires k < |l|
    ensures Effect(env, SetLocal(k), Frame(t + [x], l, w)) == Some(Frame(t, l[k := x], w))
  {
    assert (t + [x])[..|t|] == t;
  }

  lemma DoesPop(env: Env, t: seq<Val>, l: seq<Val>, w: World, x: Val)
    ensures Effect(env, Insn.Pop, Frame(t + [x], l, w)) == Some(Frame(t, l, w))
  {
    assert (t + [x])[..|t|] == t;
  }

  lemma DoesSwap(env: Env, t: seq<Val>, l: seq<Val>, w: World, x: Val, y: Val)
    ensures Effect(env, Swap, Frame(t + [x, y], l, w)) == Some(Frame(t + [y, x], l, w))
  {
    assert (t + [x, y])[..|t|] == t;
  }

  lemma DoesArith(env: Env, t: seq<Val>, l: seq<Val>, w: World, a: int, b: int)
    requires |t| + 2 <= CELLS
    ensures Effect(env, OptMinus, Frame(t + [Tag(a), Tag(b)], l, w)) == Some(Frame(t + [Tag(a - b)], l, w))
    ensures Effect(env, OptMult, Frame(t + [Tag(a), Tag(b)], l, w)) == Some(Frame(t + [Tag(a * b)], l, w))
  {
    var s := Frame(t + [Tag(a), Tag(b)], l, w);
    ArithmeticWraps(env, s, a, b);
    TagWrap(a - b);
    TagWrap(a * b);
    hide Effect, Tag, Wrap;
    assert s.stack[..|s.stack| - 2] == t;
  }

  /** A number that a word can hold is its own residue. */
  lemma Small(n: int)
    requires 0 <= n < RANGE
    ensures n % RANGE == n && Untag(Tag(n)) == n && IsWord(Tag(n))
  {
    UntagTag(n);
    QuotientUnique(RANGE, n / RANGE, n % RANGE, 0, n);
  }

  /** The array stands at addr and holds the numbers xs. */
  predicate HoldsNumbers(w: World, addr: int, xs: seq<int>) {
    0 <= addr < Modulus(WORD) && addr in w.arrays && w.arrays[addr] == TagAll(xs) && |xs| < RANGE
  }

  lemma Addressed(addr: int)
    requires 0 <= addr < Modulus(WORD)
    ensures Norm(WORD, addr) == addr
  {
  }

  lemma DoesLength(env: Env, t: seq<Val>, l: seq<Val>, w: World, addr: int, xs: seq<int>)
    requires |t| < CELLS && HoldsNumbers(w, addr, xs)
    ensures Effect(env, OptLength, Frame(t + [Int(WORD, addr)], l, w)) == Some(Frame(t + [Tag(|xs|)], l, w))
  {
    Addressed(addr);
    assert (t + [Int(WORD, addr)])[..|t|] == t;
    hide Norm, Tag;
  }

  lemma DoesAref(env: Env, t: seq<Val>, l: seq<Val>, w: World, addr: int, xs: seq<int>, j: int)
    requires |t| + 2 <= CELLS && HoldsNumbers(w, addr, xs) && 0 <= j < |xs|
    ensures Effect(env, OptAref, Frame(t + [Int(WORD, addr), Tag(j)], l, w)) == Some(Frame(t + [Tag(xs[j])], l, w))
  {
    Addressed(addr);
    Small(j);
    TagNorm(xs[j]);
    hide Norm, Tag, Untag, WordVal;
    var s := Frame(t + [Int(WORD, addr), Tag(j)], l, w);
    assert Drop(s, 2).stack == t;
    assert Top(s, 1) == Tag(j) && Top(s, 2) == Int(WORD, addr);
  }

  /** Storing one number. */
  lemma DoesAset(env: Env, t: seq<Val>, l: seq<Val>, w: World, addr: int, xs: seq<int>, j: int, n: int)
    returns (w': World)
    requires |t| + 3 <= CELLS && HoldsNumbers(w, addr, xs) && 0 <= j < |xs| && StoresInRange(env.rt)
    ensures Effect(env, OptAset, Frame(t + [Int(WORD, addr), Tag(j), Tag(n)], l, w)) == Some(Frame(t + [Tag(n)], l, w'))
    ensures w'.arrays == w.arrays[addr := TagAll(xs[j := n])] && HoldsNumbers(w', addr, xs[j := n])
  {
    Small(j);
    TagNorm(n);
    var args := [Int(WORD, addr), Int(WORD, j), Tag(n)];
    w' := CallRuntime(env.rt, AryStore, args, w).1;
    assert TagAll(xs)[j := Tag(n).n] == TagAll(xs[j := n]);
    assert w'.arrays == w.arrays[addr := w.arrays[addr][j := Norm(WORD, Tag(n).n)]] by {
      assert IsWord(Tag(n));
      hide Tag, Norm;
    }
    AsetEffect(env, t, l, w, addr, j, n, w');
  }

  lemma AsetEffect(env: Env, t: seq<Val>, l: seq<Val>, w: World, addr: int, j: int, n: int, w': World)
    requires |t| + 3 <= CELLS && 0 <= j < RANGE
    requires w' == CallRuntime(env.rt, AryStore, [Int(WORD, addr), Int(WORD, j), Tag(n)], w).1
    ensures Effect(env, OptAset, Frame(t + [Int(WORD, addr), Tag(j), Tag(n)], l, w)) == Some(Frame(t + [Tag(n)], l, w'))
  {
    Small(j);
    hide Tag, Untag, CallRuntime;
    var s := Frame(t + [Int(WORD, addr), Tag(j), Tag(n)], l, w);
    assert Top(s, 1) == Tag(n) && Top(s, 2) == Tag(j) && Top(s, 3) == Int(WORD, addr);
    assert s.stack[..|s.stack| - 3] == t;
  }

  // ---------- the program, a few instructions at a time ----------

  predicate IsDoubleAll(bc: Bytecode) {
    |bc| == 23
    && bc[0] == Dup && bc[1] == SetLocal(0) && bc[2] == OptLength
    && bc[3] == Immediate(1) && bc[4] == OptMinus
    && bc[5] == Dup && bc[6] == GetLocal(0) && bc[7] == Swap && bc[8] == OptAref
    && bc[9] == Immediate(2) && bc[10] == OptMult && bc[11] == SetLocal(1)
    && bc[12] == Dup && bc[13] == GetLocal(0) && bc[14] == Swap && bc[15] == GetLocal(1)
    && bc[16] == OptAset && bc[17] == Insn.Pop
    && bc[18] == Dup && bc[19] == Immediate(0) && bc[20] == OptGt && bc[21] == BranchIf(3)
    && bc[22] == GetLocal(0)
  }

  lemma ProgramIsDoubleAll()
    ensures IsDoubleAll(DOUBLE_ALL)
  {
    hide Immediate;
  }

  lemma PlainInsns(bc: Bytecode, i: nat)
    requires IsDoubleAll(bc) && i < 23
    ensures WellFormedInsn(23, bc[i]) && !bc[i].NewHash?
  {
  }

  lemma ProgramWellFormed(bc: Bytecode)
    requires IsDoubleAll(bc)
    ensures WellFormed(bc) && PairedHashes(bc)
  {
    assert |bc| == 23;
    hide IsDoubleAll, WellFormedInsn;
    forall i | 0 <= i < 23 ensures WellFormedInsn(23, bc[i]) && !bc[i].NewHash? {
      PlainInsns(bc, i);
    }
  }

  lemma CodeAtStart(bc: Bytecode)
    requires IsDoubleAll(bc)
    ensures WellFormed(bc) && |bc| == 23 && bc[0] == Dup && bc[1] == SetLocal(0) && bc[2] == OptLength
    ensures bc[3] == Immediate(1) && bc[4] == OptMinus
  {
    ProgramWellFormed(bc);
    hide WellFormed, PairedHashes;
  }

  lemma CodeOfRead(bc: Bytecode, pc: nat)
    requires IsDoubleAll(bc) && (pc == 5 || pc == 12)
    ensures |bc| == 23 && bc[pc] == Dup && bc[pc + 1] == GetLocal(0) && bc[pc + 2] == Swap
  {
  }

  lemma CodeOfDouble(bc: Bytecode)
    requires IsDoubleAll(bc)
    ensures WellFormed(bc) && |bc| == 23 && bc[8] == OptAref
    ensures bc[9] == Immediate(2) && bc[10] == OptMult && bc[11] == SetLocal(1)
  {
    ProgramWellFormed(bc);
    hide WellFormed, PairedHashes;
  }

  lemma CodeOfStore(bc: Bytecode)
    requires IsDoubleAll(bc)
    ensures WellFormed(bc) && |bc| == 23 && bc[15] == GetLocal(1) && bc[16] == OptAset && bc[17] == Insn.Pop
  {
    ProgramWellFormed(bc);
    hide WellFormed, PairedHashes;
  }

  lemma CodeAtEnd(bc: Bytecode)
    requires IsDoubleAll(bc)
    ensures WellFormed(bc) && |bc| == 23
    ensures bc[18] == Dup && bc[19] == Immediate(0) && bc[20] == OptGt && bc[21] == BranchIf(3) && bc[22] == GetLocal(0)
  {
    ProgramWellFormed(bc);
    hide WellFormed, PairedHashes;
  }

  /** The array in local 0, the hundred locals all there. */
  predicate Locals(l: seq<Val>, addr: int) {
    |l| == CELLS && l[0] == Int(WORD, addr)
  }

  lemma CountEffects(env: Env, l: seq<Val>, w: World, i: int)
    ensures Effect(env, Immediate(1), Frame([Tag(i)], l, w)) == Some(Frame([Tag(i), Tag(1)], l, w))
    ensures Effect(env, OptMinus, Frame([Tag(i), Tag(1)], l, w)) == Some(Frame([Tag(i - 1)], l, w))
  {
    DoesPut(env, [Tag(i)], l, w, 1);
    assert [Tag(i)] + [Tag(1)] == [Tag(i), Tag(1)];
    DoesArith(env, [], l, w, i, 1);
    assert [] + [Tag(i), Tag(1)] == [Tag(i), Tag(1)] && [] + [Tag(i - 1)] == [Tag(i - 1)];
    hide Effect, Tag;
  }

  /** Counts down. */
  lemma Counts(env: Env, bc: Bytecode, l: seq<Val>, w: World, i: int)
    requires IsDoubleAll(bc)
    ensures Reaches(env, bc, Running(3, Frame([Tag(i)], l, w)), Running(5, Frame([Tag(i - 1)], l, w)))
  {
    CodeAtStart(bc);
    hide *;
    var v0 := Running(3, Frame([Tag(i)], l, w));
    Start(env, bc, v0);
    CountEffects(env, l, w, i);
    Do(env, bc, v0, 3, Frame([Tag(i)], l, w), Frame([Tag(i), Tag(1)], l, w));
    Do(env, bc, v0, 4, Frame([Tag(i), Tag(1)], l, w), Frame([Tag(i - 1)], l, w));
  }

  lemma ArrangeEffects(env: Env, l: seq<Val>, w: World, a: Val, j: Val)
    requires |l| == CELLS && l[0] == a
    ensures Effect(env, Dup, Frame([j], l, w)) == Some(Frame([j, j], l, w))
    ensures Effect(env, GetLocal(0), Frame([j, j], l, w)) == Some(Frame([j, j, a], l, w))
    ensures Effect(env, Swap, Frame([j, j, a], l, w)) == Some(Frame([j, a, j], l, w))
  {
    DoesDup(env, [], l, w, j);
    assert [] + [j] == [j] && [] + [j, j] == [j, j];
    DoesGet(env, [j, j], l, w, 0);
    assert [j, j] + [a] == [j, j, a];
    DoesSwap(env, [j], l, w, j, a);
    assert [j] + [j, a] == [j, j, a] && [j] + [a, j] == [j, a, j];
    hide Effect;
  }

  /** Copies the index and puts the array below the copy. */
  lemma Arranges(env: Env, bc: Bytecode, vm: Vm, pc: nat, l: seq<Val>, w: World, addr: int, j: Val)
    requires IsDoubleAll(bc) && Locals(l, addr) && (pc == 5 || pc == 12)
    requires Reaches(env, bc, vm, Running(pc, Frame([j], l, w)))
    ensures Reaches(env, bc, vm, Running(pc + 3, Frame([j, Int(WORD, addr), j], l, w)))
  {
    CodeOfRead(bc, pc);
    hide *;
    LocalIs(l, addr);
    ArrangeEffects(env, l, w, Int(WORD, addr), j);
    var a := Int(WORD, addr);
    Do(env, bc, vm, pc, Frame([j], l, w), Frame([j, j], l, w));
    Do(env, bc, vm, pc + 1, Frame([j, j], l, w), Frame([j, j, a], l, w));
    Do(env, bc, vm, pc + 2, Frame([j, j, a], l, w), Frame([j, a, j], l, w));
  }

  lemma ReadEffect(env: Env, l: seq<Val>, w: World, addr: int, xs: seq<int>, j: int)
    requires HoldsNumbers(w, addr, xs) && 0 <= j < |xs|
    ensures Effect(env, OptAref, Frame([Tag(j), Int(WORD, addr), Tag(j)], l, w))
         == Some(Frame([Tag(j), Tag(xs[j])], l, w))
  {
    var a, i := Int(WORD, addr), Tag(j);
    DoesAref(env, [i], l, w, addr, xs, j);
    assert [i] + [a, i] == [i, a, i] && [i] + [Tag(xs[j])] == [i, Tag(xs[j])];
    hide Effect, Tag;
  }

  lemma Fetches(env: Env, bc: Bytecode, vm: Vm, l: seq<Val>, w: World, addr: int, j: Val, e: Val)
    requires IsDoubleAll(bc) && Locals(l, addr) && Reaches(env, bc, vm, Running(5, Frame([j], l, w)))
    requires Effect(env, OptAref, Frame([j, Int(WORD, addr), j], l, w)) == Some(Frame([j, e], l, w))
    ensures Reaches(env, bc, vm, Running(9, Frame([j, e], l, w)))
  {
    CodeOfDouble(bc);
    hide *;
    Arranges(env, bc, vm, 5, l, w, addr, j);
    Do(env, bc, vm, 8, Frame([j, Int(WORD, addr), j], l, w), Frame([j, e], l, w));
  }

  /** Counts down and reads the element: leaves the new index and the element. */
  lemma Reads(env: Env, bc: Bytecode, l: seq<Val>, w: World, addr: int, xs: seq<int>, i: int)
    requires IsDoubleAll(bc) && Locals(l, addr) && HoldsNumbers(w, addr, xs) && 0 < i <= |xs|
    ensures Reaches(env, bc, Running(3, Frame([Tag(i)], l, w)),
                    Running(9, Frame([Tag(i - 1), Tag(xs[i - 1])], l, w)))
  {
    hide *;
    Counts(env, bc, l, w, i);
    ReadEffect(env, l, w, addr, xs, i - 1);
    Fetches(env, bc, Running(3, Frame([Tag(i)], l, w)), l, w, addr, Tag(i - 1), Tag(xs[i - 1]));
  }

  lemma LocalIs(l: seq<Val>, addr: int)
    requires Locals(l, addr)
    ensures |l| == CELLS == 100 && l[0] == Int(WORD, addr)
  {
  }

  lemma Start(env: Env, bc: Bytecode, vm: Vm)
    requires WellFormed(bc)
    ensures Reaches(env, bc, vm, vm)
  {
    assert RunVm(env, bc, vm, 0) == vm;
  }

  lemma DoubleEffects(env: Env, l: seq<Val>, w: World, j: Val, x: int)
    requires |l| == CELLS
    ensures Effect(env, Immediate(2), Frame([j, Tag(x)], l, w)) == Some(Frame([j, Tag(x), Tag(2)], l, w))
    ensures Effect(env, OptMult, Frame([j, Tag(x), Tag(2)], l, w)) == Some(Frame([j, Tag(2 * x)], l, w))
    ensures Effect(env, SetLocal(1), Frame([j, Tag(2 * x)], l, w)) == Some(Frame([j], l[1 := Tag(2 * x)], w))
  {
    DoesPut(env, [j, Tag(x)], l, w, 2);
    assert [j, Tag(x)] + [Tag(2)] == [j, Tag(x), Tag(2)] == [j] + [Tag(x), Tag(2)];
    DoesArith(env, [j], l, w, x, 2);
    assert [j] + [Tag(x * 2)] == [j, Tag(2 * x)] == [j] + [Tag(2 * x)];
    DoesSet(env, [j], l, w, 1, Tag(2 * x));
    hide Effect, Tag;
  }

  /** Doubles the element into local 1. */
  lemma Doubles(env: Env, bc: Bytecode, l: seq<Val>, w: World, addr: int, j: Val, x: int)
    requires IsDoubleAll(bc) && Locals(l, addr)
    ensures |l| == CELLS && CELLS == 100
    ensures Reaches(env, bc, Running(9, Frame([j, Tag(x)], l, w)), Running(12, Frame([j], l[1 := Tag(2 * x)], w)))
  {
    CodeOfDouble(bc);
    hide *;
    LocalIs(l, addr);
    var v0 := Running(9, Frame([j, Tag(x)], l, w));
    Start(env, bc, v0);
    DoubleEffects(env, l, w, j, x);
    Do(env, bc, v0, 9, Frame([j, Tag(x)], l, w), Frame([j, Tag(x), Tag(2)], l, w));
    Do(env, bc, v0, 10, Frame([j, Tag(x), Tag(2)], l, w), Frame([j, Tag(2 * x)], l, w));
    Do(env, bc, v0, 11, Frame([j, Tag(2 * x)], l, w), Frame([j], l[1 := Tag(2 * x)], w));
  }

  lemma StoreEffects(env: Env, l: seq<Val>, w: World, addr: int, xs: seq<int>, j: int, n: int) returns (w': World)
    requires |l| == CELLS && l[1] == Tag(n) && HoldsNumbers(w, addr, xs) && 0 <= j < |xs| && StoresInRange(env.rt)
    ensures var a, i := Int(WORD, addr), Tag(j);
      Effect(env, GetLocal(1), Frame([i, a, i], l, w)) == Some(Frame([i, a, i, Tag(n)], l, w))
      && Effect(env, OptAset, Frame([i, a, i, Tag(n)], l, w)) == Some(Frame([i, Tag(n)], l, w'))
      && Effect(env, Insn.Pop, Frame([i, Tag(n)], l, w')) == Some(Frame([i], l, w'))
    ensures w'.arrays == w.arrays[addr := TagAll(xs[j := n])] && HoldsNumbers(w', addr, xs[j := n])
  {
    hide Effect, Tag, HoldsNumbers, StoresInRange, TagAll;
    var a, i := Int(WORD, addr), Tag(j);
    DoesGet(env, [i, a, i], l, w, 1);
    assert [i, a, i] + [Tag(n)] == [i, a, i, Tag(n)] == [i] + [a, i, Tag(n)];
    w' := DoesAset(env, [i], l, w, addr, xs, j, n);
    assert [i] + [Tag(n)] == [i, Tag(n)];
    DoesPop(env, [i], l, w', Tag(n));
  }

  /** Stores local 1 back. */
  lemma Stores(env: Env, bc: Bytecode, l: seq<Val>, w: World, addr: int, xs: seq<int>, j: int, n: int)
    returns (w': World)
    requires IsDoubleAll(bc) && Locals(l, addr) && HoldsNumbers(w, addr, xs) && 0 <= j < |xs| && StoresInRange(env.rt)
    requires |l| == CELLS && l[1] == Tag(n)
    ensures Reaches(env, bc, Running(12, Frame([Tag(j)], l, w)), Running(18, Frame([Tag(j)], l, w')))
    ensures w'.arrays == w.arrays[addr := TagAll(xs[j := n])] && HoldsNumbers(w', addr, xs[j := n])
  {
    CodeOfStore(bc);
    hide *;
    var a, i, v0 := Int(WORD, addr), Tag(j), Running(12, Frame([Tag(j)], l, w));
    Start(env, bc, v0);
    Arranges(env, bc, v0, 12, l, w, addr, i);
    w' := StoreEffects(env, l, w, addr, xs, j, n);
    Do(env, bc, v0, 15, Frame([i, a, i], l, w), Frame([i, a, i, Tag(n)], l, w));
    Do(env, bc, v0, 16, Frame([i, a, i, Tag(n)], l, w), Frame([i, Tag(n)], l, w'));
    Do(env, bc, v0, 17, Frame([i, Tag(n)], l, w'), Frame([i], l, w'));
  }

  lemma GuardAt(bc: Bytecode)
    requires IsDoubleAll(bc)
    ensures WellFormed(bc) && |bc| == 23 && bc[20] == OptGt && Guard(bc, 20)
    ensures Guarded(bc, 20, true) == 3 && Guarded(bc, 20, false) == 22
  {
    CodeAtEnd(bc);
    hide WellFormed, IsDoubleAll;
  }

  lemma AskOnTop(s: Frame, j: int)
    requires s.stack == [Tag(j), Tag(j), Tag(0)]
    ensures OnTop(s, j, 0)
  {
    hide Tag;
  }

  lemma AskCompares(j: int)
    requires 0 <= j < RANGE
    ensures RANGE > 0 && Compares(OptGt, j % RANGE, 0 % RANGE) == (j > 0)
  {
    Small(j);
    Small0();
    hide Tag, Untag, IsWord;
  }

  lemma AskParts(bc: Bytecode, s: Frame, j: int)
    requires IsDoubleAll(bc) && 0 <= j < RANGE && s.stack == [Tag(j), Tag(j), Tag(0)]
    ensures WellFormed(bc) && |bc| == 23 && bc[20] == OptGt && OnTop(s, j, 0) && Guard(bc, 20)
    ensures Guarded(bc, 20, Compares(OptGt, j % RANGE, 0 % RANGE)) == if j > 0 then 3 else 22
  {
    hide *;
    GuardAt(bc);
    AskOnTop(s, j);
    AskCompares(j);
  }

  /** The guard: is the index above 0? */
  lemma Asks(env: Env, bc: Bytecode, l: seq<Val>, w: World, j: int)
    requires IsDoubleAll(bc) && 0 <= j < RANGE
    ensures Reaches(env, bc, Running(20, Frame([Tag(j), Tag(j), Tag(0)], l, w)),
                    Running(if j > 0 then 3 else 22, Frame([Tag(j)], l, w)))
  {
    hide *;
    var s := Frame([Tag(j), Tag(j), Tag(0)], l, w);
    AskParts(bc, s, j);
    GuardsDecide(env, bc, 20, s, j, 0);
    DropTwo(s, Tag(j));
    ReachesIn(env, bc, Running(20, s), 2);
  }

  lemma DropTwo(s: Frame, v: Val)
    requires |s.stack| == 3 && s.stack[0] == v
    ensures Drop(s, 2) == s.(stack := [v])
  {
  }

  lemma AskEffects(env: Env, l: seq<Val>, w: World, i: Val)
    ensures Effect(env, Dup, Frame([i], l, w)) == Some(Frame([i, i], l, w))
    ensures Effect(env, Immediate(0), Frame([i, i], l, w)) == Some(Frame([i, i, Tag(0)], l, w))
  {
    DoesDup(env, [], l, w, i);
    assert [] + [i] == [i] && [] + [i, i] == [i, i];
    DoesPut(env, [i, i], l, w, 0);
    assert [i, i] + [Tag(0)] == [i, i, Tag(0)];
    hide Effect, Tag;
  }

  /** Goes round again unless the index is 0. */
  lemma Loops(env: Env, bc: Bytecode, l: seq<Val>, w: World, j: int)
    requires IsDoubleAll(bc) && 0 <= j < RANGE
    ensures Reaches(env, bc, Running(18, Frame([Tag(j)], l, w)),
                    Running(if j > 0 then 3 else 22, Frame([Tag(j)], l, w)))
  {
    CodeAtEnd(bc);
    hide *;
    var i, z, v0 := Tag(j), Tag(0), Running(18, Frame([Tag(j)], l, w));
    Start(env, bc, v0);
    AskEffects(env, l, w, i);
    Do(env, bc, v0, 18, Frame([i], l, w), Frame([i, i], l, w));
    Do(env, bc, v0, 19, Frame([i, i], l, w), Frame([i, i, z], l, w));
    Asks(env, bc, l, w, j);
    Onward(env, bc, v0, Running(20, Frame([i, i, z], l, w)), Running(if j > 0 then 3 else 22, Frame([i], l, w)));
  }

  lemma Small0()
    ensures 0 % RANGE == 0 && CELLS == 100
  {
    RangeIsEven();
  }

  lemma {:induction false} ReachesIn(env: Env, bc: Bytecode, vm: Vm, n: nat)
    requires WellFormed(bc)
    ensures Reaches(env, bc, vm, RunVm(env, bc, vm, n))
  {
  }

  // ---------- the whole program ----------

  lemma DoubleNext(xs: seq<int>, i: int)
    requires 0 < i <= |xs|
    ensures DoubledFrom(xs, i)[i - 1] == xs[i - 1]
    ensures DoubledFrom(xs, i)[i - 1 := 2 * xs[i - 1]] == DoubledFrom(xs, i - 1)
  {
  }

  /** The first half of a turn: the next index on the stack, the double of the element in local 1. */
  lemma HalfTurn(env: Env, bc: Bytecode, l: seq<Val>, w: World, addr: int, ys: seq<int>, i: int)
    requires IsDoubleAll(bc) && Locals(l, addr) && 0 < i <= |ys| && HoldsNumbers(w, addr, ys)
    ensures |l| == CELLS && CELLS == 100
    ensures Reaches(env, bc, Running(3, Frame([Tag(i)], l, w)),
                    Running(12, Frame([Tag(i - 1)], l[1 := Tag(2 * ys[i - 1])], w)))
  {
    hide *;
    LocalIs(l, addr);
    var x, j := ys[i - 1], Tag(i - 1);
    Reads(env, bc, l, w, addr, ys, i);
    Doubles(env, bc, l, w, addr, j, x);
    Onward(env, bc, Running(3, Frame([Tag(i)], l, w)), Running(9, Frame([j, Tag(x)], l, w)),
           Running(12, Frame([j], l[1 := Tag(2 * x)], w)));
  }

  /** The other half: the double is stored, and the loop goes on or ends. */
  lemma OtherHalf(env: Env, bc: Bytecode, l: seq<Val>, w: World, addr: int, ys: seq<int>, j: int, n: int)
    returns (w': World)
    requires IsDoubleAll(bc) && Locals(l, addr) && 0 <= j < |ys| && HoldsNumbers(w, addr, ys) && StoresInRange(env.rt)
    requires |l| == CELLS && l[1] == Tag(n)
    ensures w'.arrays == w.arrays[addr := TagAll(ys[j := n])] && HoldsNumbers(w', addr, ys[j := n])
    ensures Reaches(env, bc, Running(12, Frame([Tag(j)], l, w)),
                                      Running(if j > 0 then 3 else 22, Frame([Tag(j)], l, w')))
  {
    assert j < RANGE;
    hide *;
    w' := Stores(env, bc, l, w, addr, ys, j, n);
    Loops(env, bc, l, w', j);
    Onward(env, bc, Running(12, Frame([Tag(j)], l, w)), Running(18, Frame([Tag(j)], l, w')),
           Running(if j > 0 then 3 else 22, Frame([Tag(j)], l, w')));
  }

  /** One turn of the loop. */
  lemma Turn(env: Env, bc: Bytecode, l: seq<Val>, w: World, addr: int, xs: seq<int>, i: int)
    returns (l': seq<Val>, w': World)
    requires IsDoubleAll(bc) && Locals(l, addr) && 0 < i <= |xs| && HoldsNumbers(w, addr, DoubledFrom(xs, i))
    requires StoresInRange(env.rt)
    ensures Locals(l', addr) && HoldsNumbers(w', addr, DoubledFrom(xs, i - 1))
    ensures w'.arrays == w.arrays[addr := TagAll(DoubledFrom(xs, i - 1))]
    ensures Reaches(env, bc, Running(3, Frame([Tag(i)], l, w)),
                                      Running(if i > 1 then 3 else 22, Frame([Tag(i - 1)], l', w')))
  {
    hide *;
    var ys, x := DoubledFrom(xs, i), xs[i - 1];
    DoubleNext(xs, i);
    HalfTurn(env, bc, l, w, addr, ys, i);
    l' := l[1 := Tag(2 * x)];
    LocalsSet(l, addr, Tag(2 * x));
    w' := OtherHalf(env, bc, l', w, addr, ys, i - 1, 2 * x);
    Onward(env, bc, Running(3, Frame([Tag(i)], l, w)), Running(12, Frame([Tag(i - 1)], l', w)),
           Running(if i > 1 then 3 else 22, Frame([Tag(i - 1)], l', w')));
  }

  lemma LocalsSet(l: seq<Val>, addr: int, v: Val)
    requires Locals(l, addr)
    ensures |l| == CELLS == 100 && Locals(l[1 := v], addr) && l[1 := v][1] == v
  {
  }

  /** All the turns. */
  lemma {:induction false} AllTurns(env: Env, bc: Bytecode, l: seq<Val>, w: World, addr: int, xs: seq<int>, i: int)
    returns (l': seq<Val>, w': World)
    requires IsDoubleAll(bc) && Locals(l, addr) && 0 < i <= |xs| && HoldsNumbers(w, addr, DoubledFrom(xs, i))
    requires StoresInRange(env.rt)
    ensures Locals(l', addr) && w'.arrays == w.arrays[addr := TagAll(DoubledFrom(xs, 0))]
    ensures Reaches(env, bc, Running(3, Frame([Tag(i)], l, w)), Running(22, Frame([Tag(0)], l', w')))
    decreases i
  {
    hide *;
    var w1;
    l', w1 := Turn(env, bc, l, w, addr, xs, i);
    w' := w1;
    if i > 1 {
      var l1 := l';
      l', w' := AllTurns(env, bc, l1, w1, addr, xs, i - 1);
      Onward(env, bc, Running(3, Frame([Tag(i)], l, w)), Running(3, Frame([Tag(i - 1)], l1, w1)),
             Running(22, Frame([Tag(0)], l', w')));
    }
  }

  /** The first three instructions. */
  lemma Begins(env: Env, bc: Bytecode, w: World, addr: int, xs: seq<int>) returns (l: seq<Val>)
    requires IsDoubleAll(bc) && env.arg == Int(WORD, addr) && HoldsNumbers(w, addr, xs)
    ensures Locals(l, addr)
    ensures Reaches(env, bc, StartVm(env, w), Running(3, Frame([Tag(|xs|)], l, w)))
  {
    var u := seq(CELLS, _ => Undef);
    assert StartVm(env, w) == Running(0, Frame([env.arg], u, w));
    hide *;
    l := KeepsArray(env, bc, u, w, addr);
    Measures(env, bc, StartVm(env, w), l, w, addr, xs);
  }

  lemma KeepEffects(env: Env, u: seq<Val>, w: World, a: Val)
    requires |u| == CELLS
    ensures Effect(env, Dup, Frame([a], u, w)) == Some(Frame([a, a], u, w))
    ensures Effect(env, SetLocal(0), Frame([a, a], u, w)) == Some(Frame([a], u[0 := a], w))
  {
    DoesDup(env, [], u, w, a);
    assert [] + [a] == [a] && [] + [a, a] == [a, a] == [a] + [a];
    DoesSet(env, [a], u, w, 0, a);
    hide Effect;
  }

  lemma KeepsArray(env: Env, bc: Bytecode, u: seq<Val>, w: World, addr: int) returns (l: seq<Val>)
    requires IsDoubleAll(bc) && |u| == CELLS
    ensures Locals(l, addr)
    ensures Reaches(env, bc, Running(0, Frame([Int(WORD, addr)], u, w)), Running(2, Frame([Int(WORD, addr)], l, w)))
  {
    CodeAtStart(bc);
    hide *;
    var a := Int(WORD, addr);
    var v0 := Running(0, Frame([a], u, w));
    UndefLocals(u, a, addr);
    l := u[0 := a];
    Start(env, bc, v0);
    KeepEffects(env, u, w, a);
    Do(env, bc, v0, 0, Frame([a], u, w), Frame([a, a], u, w));
    Do(env, bc, v0, 1, Frame([a, a], u, w), Frame([a], l, w));
  }

  lemma MeasureEffect(env: Env, l: seq<Val>, w: World, addr: int, xs: seq<int>)
    requires HoldsNumbers(w, addr, xs)
    ensures Effect(env, OptLength, Frame([Int(WORD, addr)], l, w)) == Some(Frame([Tag(|xs|)], l, w))
  {
    DoesLength(env, [], l, w, addr, xs);
    assert [] + [Int(WORD, addr)] == [Int(WORD, addr)] && [] + [Tag(|xs|)] == [Tag(|xs|)];
    hide Effect, Tag;
  }

  lemma Measures(env: Env, bc: Bytecode, vm: Vm, l: seq<Val>, w: World, addr: int, xs: seq<int>)
    requires IsDoubleAll(bc) && HoldsNumbers(w, addr, xs)
    requires Reaches(env, bc, vm, Running(2, Frame([Int(WORD, addr)], l, w)))
    ensures Reaches(env, bc, vm, Running(3, Frame([Tag(|xs|)], l, w)))
  {
    CodeAtStart(bc);
    hide *;
    MeasureEffect(env, l, w, addr, xs);
    Do(env, bc, vm, 2, Frame([Int(WORD, addr)], l, w), Frame([Tag(|xs|)], l, w));
  }

  lemma UndefLocals(u: seq<Val>, a: Val, addr: int)
    requires |u| == CELLS && a == Int(WORD, addr)
    ensures |u| == CELLS == 100 && Locals(u[0 := a], addr)
  {
  }

  lemma EndEffect(env: Env, l: seq<Val>, w: World, v: Val)
    requires |l| == CELLS
    ensures Effect(env, GetLocal(0), Frame([v], l, w)) == Some(Frame([v, l[0]], l, w))
  {
    DoesGet(env, [v], l, w, 0);
    assert [v] + [l[0]] == [v, l[0]];
    hide Effect;
  }

  /** The last instruction leaves the array on top, and the function returns it. */
  lemma Ends(env: Env, bc: Bytecode, l: seq<Val>, w: World, addr: int, v: Val)
    requires IsDoubleAll(bc) && Locals(l, addr)
    ensures Reaches(env, bc, Running(22, Frame([v], l, w)), Finished(Int(WORD, addr), Frame([v], l, w)))
  {
    CodeAtEnd(bc);
    hide *;
    LocalIs(l, addr);
    var a, v0 := Int(WORD, addr), Running(22, Frame([v], l, w));
    Start(env, bc, v0);
    EndEffect(env, l, w, v);
    Do(env, bc, v0, 22, Frame([v], l, w), Frame([v, a], l, w));
    LastStep(env, bc, v, a, l, w);
    OneStepReaches(env, bc, Running(23, Frame([v, a], l, w)));
    Onward(env, bc, v0, Running(23, Frame([v, a], l, w)), Finished(a, Frame([v], l, w)));
  }

  lemma LastStep(env: Env, bc: Bytecode, v: Val, a: Val, l: seq<Val>, w: World)
    requires WellFormed(bc) && |bc| == 23
    ensures StepVm(env, bc, Running(23, Frame([v, a], l, w))) == Finished(a, Frame([v], l, w))
  {
    assert [v, a][..1] == [v];
    hide Effect, WellFormed;
  }

  lemma FinishReturns(env: Env, bc: Bytecode, w: World, v: Val, s: Frame)
    requires Reaches(env, bc, StartVm(env, w), Finished(v, s))
    ensures ReturnsVm(env, bc, w, v, s.world)
  {
    hide RunVm, WellFormed, StartVm;
  }

  lemma DoubledFromEnds(xs: seq<int>)
    ensures DoubledFrom(xs, |xs|) == xs && DoubledFrom(xs, 0) == Doubled(xs)
  {
  }

  lemma VmDoubles(env: Env, bc: Bytecode, addr: int, xs: seq<int>, w: World) returns (w': World)
    requires IsDoubleAll(bc) && env.arg == Int(WORD, addr) && HoldsNumbers(w, addr, xs) && xs != []
    requires StoresInRange(env.rt)
    ensures WellFormed(bc) && ReturnsVm(env, bc, w, env.arg, w')
    ensures w'.arrays == w.arrays[addr := TagAll(Doubled(xs))]
  {
    ProgramWellFormed(bc);
    hide *;
    DoubledFromEnds(xs);
    var n := |xs|;
    var l := Begins(env, bc, w, addr, xs);
    var l';
    l', w' := AllTurns(env, bc, l, w, addr, xs, n);
    var v0, v1, v2 := StartVm(env, w), Running(3, Frame([Tag(n)], l, w)), Running(22, Frame([Tag(0)], l', w'));
    Onward(env, bc, v0, v1, v2);
    Ends(env, bc, l', w', addr, Tag(0));
    Onward(env, bc, v0, v2, Finished(Int(WORD, addr), Frame([Tag(0)], l', w')));
    FinishReturns(env, bc, w, env.arg, Frame([Tag(0)], l', w'));
  }

  /** Every element that can be doubled reads back as its double. */
  lemma DoubledNumbers(xs: seq<int>, j: nat)
    requires j < |xs| && IsFixnum(2 * xs[j])
    ensures IsWord(WordVal(TagAll(Doubled(xs))[j])) && Number(WordVal(TagAll(Doubled(xs))[j])) == 2 * xs[j]
  {
    TagNorm(2 * xs[j]);
    NumberOfTag(2 * xs[j]);
    WrapIsFixnum(2 * xs[j]);
  }

  /**
   * The compiled program, called with any non-empty array of numbers, returns that same array with every element
   * doubled in place, and no other array changed. An element whose double is a fixnum reads back as exactly that.
   */
  lemma CompiledDoubles(env: Env, base: nat, addr: int, xs: seq<int>, w: World) returns (w': World)
    requires env.arg == Int(WORD, addr) && HoldsNumbers(w, addr, xs) && xs != [] && StoresInRange(env.rt)
    ensures WellFormed(DOUBLE_ALL) && Returns(env, Compile(DOUBLE_ALL, base).blocks, w, env.arg, w')
    ensures w'.arrays == w.arrays[addr := TagAll(Doubled(xs))]
    ensures forall j :: 0 <= j < |xs| && IsFixnum(2 * xs[j]) ==>
              IsWord(WordVal(w'.arrays[addr][j])) && Number(WordVal(w'.arrays[addr][j])) == 2 * xs[j]
  {
    ProgramIsDoubleAll();
    ProgramWellFormed(DOUBLE_ALL);
    hide *;
    w' := VmDoubles(env, DOUBLE_ALL, addr, xs, w);
    SameReturns(env, DOUBLE_ALL, base, w, env.arg, w');
    forall j | 0 <= j < |xs| && IsFixnum(2 * xs[j])
      ensures IsWord(WordVal(w'.arrays[addr][j])) && Number(WordVal(w'.arrays[addr][j])) == 2 * xs[j]
    {
      DoubledNumbers(xs, j);
    }
  }

  // ---------- the empty array ----------

  lemma NothingToRead(env: Env, l: seq<Val>, w: World, addr: int)
    requires HoldsNumbers(w, addr, [])
    ensures Effect(env, OptAref, Frame([Tag(-1), Int(WORD, addr), Tag(-1)], l, w)) == None
  {
    Addressed(addr);
    assert w.arrays[addr] == [];
    UntagTag(-1);
    RangeIsEven();
    hide Tag, Untag, Norm;
  }

  lemma FailsByEffect(env: Env, bc: Bytecode, s: Frame)
    requires WellFormed(bc) && |bc| == 23 && bc[8] == OptAref && Effect(env, OptAref, s).None?
    ensures StepVm(env, bc, Running(8, s)) == Failed
  {
    hide Effect, WellFormed;
  }

  lemma ReadsNothing(env: Env, bc: Bytecode, vm: Vm, s: Frame)
    requires IsDoubleAll(bc) && Reaches(env, bc, vm, Running(8, s)) && Effect(env, OptAref, s).None?
    ensures Reaches(env, bc, vm, Failed)
  {
    CodeOfDouble(bc);
    hide *;
    FailsByEffect(env, bc, s);
    OneStepReaches(env, bc, Running(8, s));
    Onward(env, bc, vm, Running(8, s), Failed);
  }

  /** From any length, to the index one below it. */
  lemma MeasuresAndCounts(env: Env, bc: Bytecode, addr: int, xs: seq<int>, n: int, w: World) returns (l: seq<Val>)
    requires IsDoubleAll(bc) && env.arg == Int(WORD, addr) && HoldsNumbers(w, addr, xs) && n == |xs|
    ensures Locals(l, addr) && Reaches(env, bc, StartVm(env, w), Running(5, Frame([Tag(n - 1)], l, w)))
  {
    hide *;
    l := Begins(env, bc, w, addr, xs);
    Counts(env, bc, l, w, n);
    Onward(env, bc, StartVm(env, w), Running(3, Frame([Tag(n)], l, w)), Running(5, Frame([Tag(n - 1)], l, w)));
  }

  /** The loop reads before it tests: on an empty array it reads element -1. */
  lemma EmptyFails(env: Env, bc: Bytecode, addr: int, w: World)
    requires IsDoubleAll(bc) && env.arg == Int(WORD, addr) && HoldsNumbers(w, addr, [])
    ensures Reaches(env, bc, StartVm(env, w), Failed)
  {
    hide *;
    var l := MeasuresAndCounts(env, bc, addr, [], 0, w);
    Arranges(env, bc, StartVm(env, w), 5, l, w, addr, Tag(-1));
    NothingToRead(env, l, w, addr);
    ReadsNothing(env, bc, StartVm(env, w), Frame([Tag(-1), Int(WORD, addr), Tag(-1)], l, w));
  }

  lemma {:induction false} FinalStays(env: Env, bc: Bytecode, vm: Vm, n: nat)
    requires WellFormed(bc) && !vm.Running?
    ensures RunVm(env, bc, vm, n) == vm
    decreases n
  {
    if n > 0 {
      FinalStays(env, bc, vm, n - 1);
    }
  }

  /** A run has one outcome. */
  lemma NoReturnAfterFailure(env: Env, bc: Bytecode, w: World, v: Val, w': World)
    requires Reaches(env, bc, StartVm(env, w), Failed)
    ensures !ReturnsVm(env, bc, w, v, w')
  {
    hide RunVm, WellFormed, StartVm;
    var vm := StartVm(env, w);
    var n: nat :| RunVm(env, bc, vm, n) == Failed;
    if ReturnsVm(env, bc, w, v, w') {
      var k: nat :| RunVm(env, bc, vm, k).Finished?;
      RunsAdd(env, bc, vm, n, k);
      RunsAdd(env, bc, vm, k, n);
      FinalStays(env, bc, RunVm(env, bc, vm, n), k);
      FinalStays(env, bc, RunVm(env, bc, vm, k), n);
    }
  }

  /** The compiled program returns exactly when the array has an element. */
  lemma ReturnsIffNonEmpty(env: Env, base: nat, addr: int, xs: seq<int>, w: World)
    requires env.arg == Int(WORD, addr) && HoldsNumbers(w, addr, xs) && StoresInRange(env.rt)
    ensures WellFormed(DOUBLE_ALL)
    ensures (exists v, w' :: Returns(env, Compile(DOUBLE_ALL, base).blocks, w, v, w')) <==> xs != []
  {
    ProgramIsDoubleAll();
    ProgramWellFormed(DOUBLE_ALL);
    hide *;
    var f := Compile(DOUBLE_ALL, base).blocks;
    if xs != [] {
      var w' := CompiledDoubles(env, base, addr, xs, w);
      assert Returns(env, f, w, env.arg, w');
    } else {
      EmptyFails(env, DOUBLE_ALL, addr, w);
      forall v, w' ensures !Returns(env, f, w, v, w') {
        NoReturnAfterFailure(env, DOUBLE_ALL, w, v, w');
        SameReturns(env, DOUBLE_ALL, base, w, v, w');
      }
    }
  }
}
