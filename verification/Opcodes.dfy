// What the block of each instruction does to the memory of the compiled function, one instruction at a time.

module Opcodes {
  import opened Options
  import opened Words
  import opened WordFacts
  import opened IR
  import opened Machine
  import opened StackMachine
  import opened Emission
  import opened StackCode
  import opened InsnCode
  import opened Codegen
  import opened Simulation
  import opened Fixnums
  import opened ArrayLoop
  import Depths = StackDiscipline

  /** The machine state with values t on the operand stack, locals l and world w. */
  predicate Holds(base: nat, st: State, t: seq<Val>, l: seq<Val>, w: World) {
    base in st.regs && base + 1 in st.regs && base + 3 in st.regs
    && st.regs[base] == Cell(0, 0) && st.regs[base + 1] == Cell(1, 0) && st.regs[base + 3] == Cell(2, 0)
    && |st.mem| == 3 && |st.mem[0]| == 100 && |st.mem[2]| == 100 && |t| <= 100
    && st.mem[0][..|t|] == t && st.mem[1] == [Cell(0, |t|)] && st.mem[2] == l && st.world == w
  }

  /** Control is at the block of instruction j, in such a state. */
  predicate Next(c: Config, base: nat, j: nat, t: seq<Val>, l: seq<Val>, w: World) {
    c.At? && c.block == j + 1 && Holds(base, c.st, t, l, w)
  }

  /** The function compiled from bc is about to run the block of instruction i. */
  predicate Stands(bc: Bytecode, base: nat, i: nat, st: State, t: seq<Val>, l: seq<Val>, w: World) {
    WellFormed(bc) && i < |bc| && Holds(base, st, t, l, w)
  }

  /** One block further. */
  function Once(env: Env, bc: Bytecode, base: nat, i: nat, prev: nat, st: State): Config
    requires WellFormed(bc)
  {
    Run(env, Compile(bc, base).blocks, At(i + 1, prev, st), 1)
  }

  lemma HoldsIsRel(base: nat, st: State, t: seq<Val>, l: seq<Val>, w: World)
    requires Holds(base, st, t, l, w)
    ensures MemOk(MemOf(st)) && Rel(HandlesAt(base), st, MemOf(st)) && View(MemOf(st)) == Frame(t, l, w)
  {
  }

  lemma RelIsHolds(base: nat, st: State, m: Mem)
    requires Rel(HandlesAt(base), st, m) && MemOk(m)
    ensures Holds(base, st, View(m).stack, View(m).locals, View(m).world)
  {
    assert HandlesHeld(HandlesAt(base), st.regs);
    assert st.mem[1] == [st.mem[1][0]];
  }

  lemma MatchesIsNext(base: nat, c: Config, vm: Vm)
    requires Matches(HandlesAt(base), c, vm)
    ensures vm.Running? ==> Next(c, base, vm.pc, vm.s.stack, vm.s.locals, vm.s.world)
    ensures vm.Failed? ==> c == Wrong
    ensures vm.Finished? ==> c.Done? && c.v == vm.v && Holds(base, c.final, vm.s.stack, vm.s.locals, vm.s.world)
  {
    hide MemOf, MemOk, Holds, View;
    if vm.Running? {
      RelIsHolds(base, c.st, MemOf(c.st));
    } else if vm.Finished? {
      RelIsHolds(base, c.final, MemOf(c.final));
    }
  }

  lemma StandsIs(bc: Bytecode, base: nat, i: nat, st: State, t: seq<Val>, l: seq<Val>, w: World)
    requires Stands(bc, base, i, st, t, l, w)
    ensures WellFormed(bc) && i < |bc| && Holds(base, st, t, l, w)
  {
  }

  lemma {:induction false} OnceIs(env: Env, bc: Bytecode, base: nat, i: nat, prev: nat, st: State)
    requires WellFormed(bc)
    ensures Once(env, bc, base, i, prev, st) == Run(env, Compile(bc, base).blocks, At(BlockOf(i), prev, st), 1)
  {
    hide Run, Compile;
  }

  /** The block of an instruction does what the stack machine does. */
  lemma Goes(env: Env, bc: Bytecode, base: nat, i: nat, prev: nat, st: State, t: seq<Val>, l: seq<Val>, w: World)
    requires Stands(bc, base, i, st, t, l, w) && !bc[i].NewHash?
    ensures var c, vm := Once(env, bc, base, i, prev, st), StepVm(env, bc, Running(i, Frame(t, l, w)));
      (vm.Running? ==> Next(c, base, vm.pc, vm.s.stack, vm.s.locals, vm.s.world)) && (vm.Failed? ==> c == Wrong)
  {
    hide *;
    StandsIs(bc, base, i, st, t, l, w);
    OnceIs(env, bc, base, i, prev, st);
    HoldsIsRel(base, st, t, l, w);
    OneBlock(env, bc, base, i, prev, st, MemOf(st));
    MatchesIsNext(base, Once(env, bc, base, i, prev, st), StepVm(env, bc, Running(i, Frame(t, l, w))));
  }

  lemma GoesOn(env: Env, bc: Bytecode, base: nat, i: nat, prev: nat, st: State, t: seq<Val>, l: seq<Val>, w: World,
               t': seq<Val>, l': seq<Val>, w': World)
    requires Stands(bc, base, i, st, t, l, w) && !bc[i].NewHash?
    requires Effect(env, bc[i], Frame(t, l, w)) == Some(Frame(t', l', w'))
    ensures Next(Once(env, bc, base, i, prev, st), base, i + 1, t', l', w')
  {
    hide *;
    StandsIs(bc, base, i, st, t, l, w);
    StepsByEffect(env, bc, i, Frame(t, l, w));
    Goes(env, bc, base, i, prev, st, t, l, w);
  }

  lemma Sticks(env: Env, bc: Bytecode, base: nat, i: nat, prev: nat, st: State, t: seq<Val>, l: seq<Val>, w: World)
    requires Stands(bc, base, i, st, t, l, w) && IsStraight(bc[i]) && Effect(env, bc[i], Frame(t, l, w)).None?
    ensures Once(env, bc, base, i, prev, st) == Wrong
  {
    assert !bc[i].NewHash?;
    hide *;
    StandsIs(bc, base, i, st, t, l, w);
    StraightStep(env, bc, i, Frame(t, l, w));
    Goes(env, bc, base, i, prev, st, t, l, w);
  }

  // ---------- values on the stack ----------

  /** The value that an instruction puts on the stack whatever is there. */
  predicate Puts(env: Env, insn: Insn, l: seq<Val>, v: Val) {
    match insn
    case PutNil => v == Int(WORD, Norm(WORD, NIL))
    case PutSelf => v == env.self
    case PutObject(n) => v == Int(WORD, Norm(WORD, n))
    case GetLocal(k) => 0 <= k < |l| && v == l[k]
    case _ => false
  }

  lemma PutEffect(env: Env, insn: Insn, t: seq<Val>, l: seq<Val>, w: World, v: Val)
    requires Puts(env, insn, l, v)
    ensures Effect(env, insn, Frame(t, l, w)) == if |t| < 100 then Some(Frame(t + [v], l, w)) else None
    ensures IsStraight(insn)
  {
  }

  /** putnil, putself, putobject and getlocal push one value, and go wrong exactly on a full stack. */
  lemma PutRuns(env: Env, bc: Bytecode, base: nat, i: nat, prev: nat, st: State, t: seq<Val>, l: seq<Val>, w: World,
                v: Val)
    requires Stands(bc, base, i, st, t, l, w) && Puts(env, bc[i], l, v)
    ensures var c := Once(env, bc, base, i, prev, st);
      if |t| < 100 then Next(c, base, i + 1, t + [v], l, w) else c == Wrong
  {
    PutEffect(env, bc[i], t, l, w, v);
    hide *;
    if |t| < 100 {
      assert !bc[i].NewHash?;
      GoesOn(env, bc, base, i, prev, st, t, l, w, t + [v], l, w);
    } else {
      Sticks(env, bc, base, i, prev, st, t, l, w);
    }
  }

  /** pop drops the top, and dup pushes it again if there is room. */
  lemma TopRuns(env: Env, bc: Bytecode, base: nat, i: nat, prev: nat, st: State, t: seq<Val>, x: Val, l: seq<Val>,
                w: World)
    requires Stands(bc, base, i, st, t + [x], l, w)
    ensures var c := Once(env, bc, base, i, prev, st);
      (bc[i] == Insn.Pop ==> Next(c, base, i + 1, t, l, w))
      && (bc[i] == Dup ==> if |t| < 99 then Next(c, base, i + 1, t + [x, x], l, w) else c == Wrong)
      && (bc[i] == Nop ==> Next(c, base, i + 1, t + [x], l, w))
  {
    hide *;
    StandsIs(bc, base, i, st, t + [x], l, w);
    if bc[i] == Insn.Pop {
      DoesPop(env, t, l, w, x);
      GoesOn(env, bc, base, i, prev, st, t + [x], l, w, t, l, w);
    } else if bc[i] == Dup {
      DupEffect(env, t, l, w, x);
      if |t| < 99 {
        GoesOn(env, bc, base, i, prev, st, t + [x], l, w, t + [x, x], l, w);
      } else {
        Sticks(env, bc, base, i, prev, st, t + [x], l, w);
      }
    } else if bc[i] == Nop {
      NopEffect(env, Frame(t + [x], l, w));
      GoesOn(env, bc, base, i, prev, st, t + [x], l, w, t + [x], l, w);
    }
  }

  lemma NopEffect(env: Env, s: Frame)
    ensures Effect(env, Nop, s) == Some(s)
  {
  }

  lemma DupEffect(env: Env, t: seq<Val>, l: seq<Val>, w: World, x: Val)
    ensures Effect(env, Dup, Frame(t + [x], l, w)) == if |t| < 99 then Some(Frame(t + [x, x], l, w)) else None
    ensures IsStraight(Dup)
  {
    assert t + [x] + [x] == t + [x, x];
  }

  /** swap exchanges the two values on top. */
  lemma SwapRuns(env: Env, bc: Bytecode, base: nat, i: nat, prev: nat, st: State, t: seq<Val>, x: Val, y: Val,
                 l: seq<Val>, w: World)
    requires Stands(bc, base, i, st, t + [x, y], l, w) && bc[i] == Swap
    ensures Next(Once(env, bc, base, i, prev, st), base, i + 1, t + [y, x], l, w)
  {
    hide *;
    DoesSwap(env, t, l, w, x, y);
    GoesOn(env, bc, base, i, prev, st, t + [x, y], l, w, t + [y, x], l, w);
  }

  /** setlocal pops into one slot, and goes wrong on a slot outside the hundred, as getlocal does. */
  lemma SlotRuns(env: Env, bc: Bytecode, base: nat, i: nat, prev: nat, st: State, t: seq<Val>, x: Val, l: seq<Val>,
                 w: World)
    requires Stands(bc, base, i, st, t + [x], l, w) && (bc[i].SetLocal? || bc[i].GetLocal?)
    ensures var c, k := Once(env, bc, base, i, prev, st), bc[i].slot;
      if 0 <= k < |l| then bc[i].SetLocal? ==> Next(c, base, i + 1, t, l[k := x], w) else c == Wrong
  {
    hide *;
    StandsIs(bc, base, i, st, t + [x], l, w);
    var k := bc[i].slot;
    if 0 <= k < |l| {
      if bc[i].SetLocal? {
        DoesSet(env, t, l, w, k, x);
        assert bc[i] == SetLocal(k);
        GoesOn(env, bc, base, i, prev, st, t + [x], l, w, t, l[k := x], w);
      }
    } else {
      NoSlot(env, bc[i], Frame(t + [x], l, w));
      Sticks(env, bc, base, i, prev, st, t + [x], l, w);
    }
  }

  lemma NoSlot(env: Env, insn: Insn, s: Frame)
    requires (insn.SetLocal? || insn.GetLocal?) && !(0 <= insn.slot < |s.locals|)
    ensures Effect(env, insn, s).None? && IsStraight(insn)
  {
  }

  // ---------- too few values ----------

  lemma TooFew(env: Env, bc: Bytecode, i: nat, s: Frame)
    requires WellFormed(bc) && i < |bc| && |s.stack| < Depths.Need(bc[i])
    ensures StepVm(env, bc, Running(i, s)) == Failed
  {
    EffectNeeds(env, bc[i], s);
    hide Effect, WellFormed;
  }

  lemma EffectNeeds(env: Env, insn: Insn, s: Frame)
    requires |s.stack| < Depths.Need(insn)
    ensures Effect(env, insn, s).None?
  {
    hide Push, CallWith;
  }

  /** With fewer values than it needs, an instruction fails, and its block goes wrong. */
  lemma UnderflowRuns(env: Env, bc: Bytecode, base: nat, i: nat, prev: nat, st: State, t: seq<Val>, l: seq<Val>,
                      w: World)
    requires Stands(bc, base, i, st, t, l, w) && |t| < Depths.Need(bc[i])
    ensures StepVm(env, bc, Running(i, Frame(t, l, w))) == Failed
    ensures !bc[i].NewHash? ==> Once(env, bc, base, i, prev, st) == Wrong
  {
    hide *;
    StandsIs(bc, base, i, st, t, l, w);
    TooFew(env, bc, i, Frame(t, l, w));
    if !bc[i].NewHash? {
      Goes(env, bc, base, i, prev, st, t, l, w);
    }
  }

  // ---------- arithmetic ----------

  predicate Computes(insn: Insn, a: int, b: int, n: int) {
    match insn
    case OptPlus => n == a + b
    case OptMinus => n == a - b
    case OptMult => n == a * b
    case _ => false
  }

  lemma ArithEffect(env: Env, insn: Insn, t: seq<Val>, l: seq<Val>, w: World, a: int, b: int, n: int)
    requires |t| <= 98 && Computes(insn, a, b, n)
    ensures Effect(env, insn, Frame(t + [Tag(a), Tag(b)], l, w)) == Some(Frame(t + [Tag(n)], l, w))
  {
    var s := Frame(t + [Tag(a), Tag(b)], l, w);
    ArithmeticWraps(env, s, a, b);
    TagWrap(n);
    hide Effect, Tag, Wrap;
    assert s.stack[..|s.stack| - 2] == t;
  }

  /** The word of a tag: twice the number and one. */
  function Fix(n: int): Val {
    Int(WORD, Norm(WORD, 2 * n + 1))
  }

  lemma FixIsTag(n: int)
    ensures Fix(n) == Tag(n)
  {
  }

  /** Two tagged numbers make way for the tag of their sum, their difference or their product. */
  lemma ArithRuns(env: Env, bc: Bytecode, base: nat, i: nat, prev: nat, st: State, t: seq<Val>, a: int, b: int,
                  l: seq<Val>, w: World, n: int)
    requires Stands(bc, base, i, st, t + [Fix(a), Fix(b)], l, w) && Computes(bc[i], a, b, n)
    ensures Next(Once(env, bc, base, i, prev, st), base, i + 1, t + [Fix(n)], l, w)
  {
    assert |t| <= 98;
    assert !bc[i].NewHash?;
    FixIsTag(a);
    FixIsTag(b);
    FixIsTag(n);
    hide *;
    ArithEffect(env, bc[i], t, l, w, a, b, n);
    GoesOn(env, bc, base, i, prev, st, t + [Fix(a), Fix(b)], l, w, t + [Fix(n)], l, w);
  }

  /** What a comparison says of two fixnums: the order if the signs agree, the opposite if they differ. */
  predicate Says(insn: Insn, a: int, b: int, yes: bool) {
    match insn
    case OptLt => yes == if (a < 0) == (b < 0) then a < b else a >= b
    case OptGt => yes == if (a < 0) == (b < 0) then a > b else a <= b
    case OptGe => yes == if (a < 0) == (b < 0) then a >= b else a < b
    case _ => false
  }

  lemma OrderEffect(env: Env, insn: Insn, t: seq<Val>, l: seq<Val>, w: World, a: int, b: int, yes: bool)
    requires |t| <= 98 && IsFixnum(a) && IsFixnum(b) && Says(insn, a, b, yes)
    ensures Effect(env, insn, Frame(t + [Tag(a), Tag(b)], l, w))
         == Some(Frame(t + [Int(WORD, if yes then 2 else 0)], l, w))
  {
    var s := Frame(t + [Tag(a), Tag(b)], l, w);
    ComparisonsBySign(env, insn, s, a, b);
    BoolsDiffer(yes, yes);
    hide Effect, Tag, Bool, IsFixnum;
    assert s.stack[..|s.stack| - 2] == t;
  }

  /** A comparison of two fixnums leaves 2 for yes and 0 for no; it is inverted when the signs differ. */
  lemma OrderRuns(env: Env, bc: Bytecode, base: nat, i: nat, prev: nat, st: State, t: seq<Val>, a: int, b: int,
                  l: seq<Val>, w: World, yes: bool)
    requires Stands(bc, base, i, st, t + [Fix(a), Fix(b)], l, w) && IsFixnum(a) && IsFixnum(b)
    requires Says(bc[i], a, b, yes)
    ensures Next(Once(env, bc, base, i, prev, st), base, i + 1, t + [Int(WORD, if yes then 2 else 0)], l, w)
  {
    assert |t| <= 98;
    assert !bc[i].NewHash?;
    FixIsTag(a);
    FixIsTag(b);
    hide *;
    OrderEffect(env, bc[i], t, l, w, a, b, yes);
    GoesOn(env, bc, base, i, prev, st, t + [Fix(a), Fix(b)], l, w, t + [Int(WORD, if yes then 2 else 0)], l, w);
  }

  // ---------- arrays ----------

  lemma FixIndex(j: int)
    requires 0 <= j && 2 * j + 1 < Modulus(WORD)
    ensures Untag(Fix(j)) == j && Fix(j).n == 2 * j + 1
  {
  }

  lemma ReadEffect(env: Env, t: seq<Val>, l: seq<Val>, w: World, a: int, j: int)
    requires |t| <= 98 && 0 <= a < Modulus(WORD) && 0 <= j && 2 * j + 1 < Modulus(WORD)
    ensures Effect(env, OptAref, Frame(t + [Int(WORD, a), Fix(j)], l, w))
         == if a in w.arrays && j < |w.arrays[a]|
            then Some(Frame(t + [Int(WORD, Norm(WORD, w.arrays[a][j]))], l, w)) else None
  {
    Addressed(a);
    FixIndex(j);
    hide Norm, Untag;
    var s := Frame(t + [Int(WORD, a), Fix(j)], l, w);
    assert Drop(s, 2).stack == t;
    assert Top(s, 1) == Fix(j) && Top(s, 2) == Int(WORD, a);
  }

  /** opt_aref replaces an array and an index by the element, and goes wrong exactly outside the array. */
  lemma ReadRuns(env: Env, bc: Bytecode, base: nat, i: nat, prev: nat, st: State, t: seq<Val>, a: int, j: int,
                 l: seq<Val>, w: World)
    requires Stands(bc, base, i, st, t + [Int(WORD, a), Fix(j)], l, w) && bc[i] == OptAref
    requires 0 <= a < Modulus(WORD) && 0 <= j && 2 * j + 1 < Modulus(WORD)
    ensures var c := Once(env, bc, base, i, prev, st);
      if a in w.arrays && j < |w.arrays[a]|
      then Next(c, base, i + 1, t + [Int(WORD, Norm(WORD, w.arrays[a][j]))], l, w)
      else c == Wrong
  {
    assert |t| <= 98;
    assert IsStraight(OptAref);
    hide *;
    ReadEffect(env, t, l, w, a, j);
    if a in w.arrays && j < |w.arrays[a]| {
      GoesOn(env, bc, base, i, prev, st, t + [Int(WORD, a), Fix(j)], l, w,
             t + [Int(WORD, Norm(WORD, w.arrays[a][j]))], l, w);
    } else {
      Sticks(env, bc, base, i, prev, st, t + [Int(WORD, a), Fix(j)], l, w);
    }
  }

  lemma LengthEffect(env: Env, t: seq<Val>, l: seq<Val>, w: World, a: int)
    requires |t| <= 99 && 0 <= a < Modulus(WORD)
    ensures Effect(env, OptLength, Frame(t + [Int(WORD, a)], l, w))
         == if a in w.arrays then Some(Frame(t + [Fix(|w.arrays[a]|)], l, w)) else None
  {
    Addressed(a);
    assert (t + [Int(WORD, a)])[..|t|] == t;
    if a in w.arrays {
      FixIsTag(|w.arrays[a]|);
    }
    hide Norm, Tag;
  }

  /** opt_length replaces an array by its tagged length. */
  lemma LengthRuns(env: Env, bc: Bytecode, base: nat, i: nat, prev: nat, st: State, t: seq<Val>, a: int, l: seq<Val>,
                   w: World)
    requires Stands(bc, base, i, st, t + [Int(WORD, a)], l, w) && bc[i] == OptLength && 0 <= a < Modulus(WORD)
    ensures var c := Once(env, bc, base, i, prev, st);
      if a in w.arrays then Next(c, base, i + 1, t + [Fix(|w.arrays[a]|)], l, w) else c == Wrong
  {
    assert |t| <= 99;
    assert IsStraight(OptLength);
    hide *;
    LengthEffect(env, t, l, w, a);
    if a in w.arrays {
      GoesOn(env, bc, base, i, prev, st, t + [Int(WORD, a)], l, w, t + [Fix(|w.arrays[a]|)], l, w);
    } else {
      Sticks(env, bc, base, i, prev, st, t + [Int(WORD, a)], l, w);
    }
  }

  // ---------- calls into the interpreter ----------

  /** What a call returns. */
  function Answer(env: Env, callee: Callee, args: seq<Val>, w: World): Val {
    Int(WORD, Norm(WORD, env.rt(callee, args, w).0))
  }

  /** The world after a call: the arrays as the interpreter left them, and one more entry in the log. */
  function Called(env: Env, callee: Callee, args: seq<Val>, w: World): World {
    World(env.rt(callee, args, w).1, w.log + [Event(callee, args, Answer(env, callee, args, w))])
  }

  lemma AnswerIs(env: Env, callee: Callee, args: seq<Val>, w: World)
    ensures CallRuntime(env.rt, callee, args, w) == (Answer(env, callee, args, w), Called(env, callee, args, w))
  {
  }

  lemma WriteEffect(env: Env, t: seq<Val>, l: seq<Val>, w: World, a: Val, j: int, v: Val)
    requires |t| <= 97 && 0 <= j && 2 * j + 1 < Modulus(WORD)
    ensures Effect(env, OptAset, Frame(t + [a, Fix(j), v], l, w))
         == Some(Frame(t + [v], l, Called(env, AryStore, [a, Int(WORD, j), v], w)))
  {
    FixIndex(j);
    AnswerIs(env, AryStore, [a, Int(WORD, j), v], w);
    hide Norm, Untag, CallRuntime, Answer, Called;
    var s := Frame(t + [a, Fix(j), v], l, w);
    assert Top(s, 1) == v && Top(s, 2) == Fix(j) && Top(s, 3) == a;
    assert s.stack[..|s.stack| - 3] == t;
  }

  /** opt_aset hands the array, the untagged index and the value to rb_ary_store, and leaves the value. */
  lemma WriteRuns(env: Env, bc: Bytecode, base: nat, i: nat, prev: nat, st: State, t: seq<Val>, a: Val, j: int, v: Val,
                  l: seq<Val>, w: World)
    requires Stands(bc, base, i, st, t + [a, Fix(j), v], l, w) && bc[i] == OptAset
    requires 0 <= j && 2 * j + 1 < Modulus(WORD)
    ensures Next(Once(env, bc, base, i, prev, st), base, i + 1, t + [v], l,
                 Called(env, AryStore, [a, Int(WORD, j), v], w))
  {
    assert |t| <= 97;
    hide *;
    WriteEffect(env, t, l, w, a, j, v);
    GoesOn(env, bc, base, i, prev, st, t + [a, Fix(j), v], l, w, t + [v], l,
           Called(env, AryStore, [a, Int(WORD, j), v], w));
  }

  /** What getinstancevariable, newarray and send do: the value they push and the world they leave. */
  predicate Asks(env: Env, insn: Insn, w: World, v: Val, w': World) {
    match insn
    case GetIvar(sym) =>
      var name := [Int(WORD, Norm(WORD, sym))];
      var id, w1 := Answer(env, ToId, name, w), Called(env, ToId, name, w);
      v == Answer(env, IvarGet, [env.self, id], w1) && w' == Called(env, IvarGet, [env.self, id], w1)
    case NewArray =>
      v == Answer(env, AryNew, [], w) && w' == Called(env, AryNew, [], w)
    case Send =>
      var name := [Int(WORD, Norm(WORD, INSPECT))];
      var id, w1 := Answer(env, ToId, name, w), Called(env, ToId, name, w);
      var args := [Int(WORD, Norm(WORD, NIL)), id, Int(I32, 0), Cell(0, 0)];
      v == Answer(env, Funcall2, args, w1) && w' == Called(env, Funcall2, args, w1)
    case _ => false
  }

  lemma AskEffect(env: Env, insn: Insn, t: seq<Val>, l: seq<Val>, w: World, v: Val, w': World)
    requires Asks(env, insn, w, v, w')
    ensures Effect(env, insn, Frame(t, l, w)) == if |t| < 100 then Some(Frame(t + [v], l, w')) else None
    ensures IsStraight(insn)
  {
    hide CallRuntime, Answer, Called;
    if insn.GetIvar? {
      var name := [Int(WORD, Norm(WORD, insn.sym))];
      AnswerIs(env, ToId, name, w);
      AnswerIs(env, IvarGet, [env.self, Answer(env, ToId, name, w)], Called(env, ToId, name, w));
    } else if insn.NewArray? {
      AnswerIs(env, AryNew, [], w);
    } else {
      var name := [Int(WORD, Norm(WORD, INSPECT))];
      AnswerIs(env, ToId, name, w);
      var args := [Int(WORD, Norm(WORD, NIL)), Answer(env, ToId, name, w), Int(I32, 0), Cell(0, 0)];
      AnswerIs(env, Funcall2, args, Called(env, ToId, name, w));
    }
  }

  /** They push the answer of the interpreter, take nothing from the stack, and go wrong exactly on a full stack. */
  lemma AskRuns(env: Env, bc: Bytecode, base: nat, i: nat, prev: nat, st: State, t: seq<Val>, l: seq<Val>, w: World,
                v: Val, w': World)
    requires Stands(bc, base, i, st, t, l, w) && Asks(env, bc[i], w, v, w')
    ensures var c := Once(env, bc, base, i, prev, st);
      if |t| < 100 then Next(c, base, i + 1, t + [v], l, w') else c == Wrong
  {
    AskEffect(env, bc[i], t, l, w, v, w');
    assert !bc[i].NewHash?;
    hide *;
    if |t| < 100 {
      GoesOn(env, bc, base, i, prev, st, t, l, w, t + [v], l, w');
    } else {
      Sticks(env, bc, base, i, prev, st, t, l, w);
    }
  }

  lemma IvarEffect(env: Env, t: seq<Val>, x: Val, l: seq<Val>, w: World, sym: int)
    ensures var name := [Int(WORD, Norm(WORD, sym))];
      var id, w1 := Answer(env, ToId, name, w), Called(env, ToId, name, w);
      Effect(env, SetIvar(sym), Frame(t + [x], l, w))
        == Some(Frame(t + [x], l, Called(env, IvarSet, [env.self, id, x], w1)))
  {
    var name := [Int(WORD, Norm(WORD, sym))];
    AnswerIs(env, ToId, name, w);
    AnswerIs(env, IvarSet, [env.self, Answer(env, ToId, name, w), x], Called(env, ToId, name, w));
    hide CallRuntime, Answer, Called;
    assert Top(Frame(t + [x], l, w), 1) == x;
  }

  /** setinstancevariable stores the top under the name in self, and leaves it on the stack. */
  lemma IvarRuns(env: Env, bc: Bytecode, base: nat, i: nat, prev: nat, st: State, t: seq<Val>, x: Val, l: seq<Val>,
                 w: World)
    requires Stands(bc, base, i, st, t + [x], l, w) && bc[i].SetIvar?
    ensures var name := [Int(WORD, Norm(WORD, bc[i].sym))];
      var id, w1 := Answer(env, ToId, name, w), Called(env, ToId, name, w);
      Next(Once(env, bc, base, i, prev, st), base, i + 1, t + [x], l, Called(env, IvarSet, [env.self, id, x], w1))
  {
    IvarEffect(env, t, x, l, w, bc[i].sym);
    assert bc[i] == SetIvar(bc[i].sym);
    hide *;
    var name := [Int(WORD, Norm(WORD, bc[i].sym))];
    var id, w1 := Answer(env, ToId, name, w), Called(env, ToId, name, w);
    GoesOn(env, bc, base, i, prev, st, t + [x], l, w, t + [x], l, Called(env, IvarSet, [env.self, id, x], w1));
  }

  // ---------- control ----------

  lemma TargetIs(n: nat, a: int)
    requires ValidTarget(n, a)
    ensures Target(n, a) == if a >= 0 then a else n + 1 + a
    ensures -(n + 1) <= a <= n
  {
  }

  lemma TargetValid(bc: Bytecode, i: nat)
    requires WellFormed(bc) && i < |bc| && IsJump(bc[i])
    ensures ValidTarget(|bc|, bc[i].target)
  {
    assert WellFormedInsn(|bc|, bc[i]);
  }

  /**
   * An index a >= 0 is that of an instruction, or of the end; a negative one counts back from the end, which is -1.
   * jump goes there with everything as it was, in the stack machine and in the compiled function.
   */
  lemma JumpGoes(env: Env, bc: Bytecode, base: nat, i: nat, prev: nat, st: State, t: seq<Val>, l: seq<Val>, w: World)
    requires Stands(bc, base, i, st, t, l, w) && bc[i].Jump?
    ensures var a, s := bc[i].target, Frame(t, l, w);
      -(|bc| + 1) <= a <= |bc|
      && (a >= 0 ==> StepVm(env, bc, Running(i, s)) == Running(a, s)
                     && Next(Once(env, bc, base, i, prev, st), base, a, t, l, w))
      && (a < 0 ==> StepVm(env, bc, Running(i, s)) == Running(|bc| + 1 + a, s)
                    && Next(Once(env, bc, base, i, prev, st), base, |bc| + 1 + a, t, l, w))
  {
    assert IsJump(bc[i]) && !bc[i].NewHash?;
    hide *;
    StandsIs(bc, base, i, st, t, l, w);
    TargetValid(bc, i);
    TargetIs(|bc|, bc[i].target);
    JumpVm(env, bc, i, Frame(t, l, w));
    Goes(env, bc, base, i, prev, st, t, l, w);
  }

  /**
   * branchif and branchunless take the word on top away; branchif jumps exactly when it is not 0, branchunless exactly
   * when it is, to where jump goes; otherwise control goes on to the next instruction.
   */
  lemma BranchGoes(env: Env, bc: Bytecode, base: nat, i: nat, prev: nat, st: State, t: seq<Val>, v: int, l: seq<Val>,
                   w: World)
    requires Stands(bc, base, i, st, t + [Int(WORD, v)], l, w) && 0 <= v < Modulus(WORD)
    requires bc[i].BranchIf? || bc[i].BranchUnless?
    ensures var a, s := bc[i].target, Frame(t, l, w);
      var to := if bc[i].BranchIf? == (v == 0) then i + 1 else if a >= 0 then a else |bc| + 1 + a;
      -(|bc| + 1) <= a <= |bc|
      && StepVm(env, bc, Running(i, Frame(t + [Int(WORD, v)], l, w))) == Running(to, s)
      && Next(Once(env, bc, base, i, prev, st), base, to, t, l, w)
  {
    assert IsJump(bc[i]) && !bc[i].NewHash?;
    hide *;
    StandsIs(bc, base, i, st, t + [Int(WORD, v)], l, w);
    TargetValid(bc, i);
    TargetIs(|bc|, bc[i].target);
    var s := Frame(t + [Int(WORD, v)], l, w);
    TopWord(t, v, l, w);
    JumpVm(env, bc, i, s);
    Goes(env, bc, base, i, prev, st, t + [Int(WORD, v)], l, w);
  }

  lemma TopWord(t: seq<Val>, v: int, l: seq<Val>, w: World)
    requires 0 <= v < Modulus(WORD)
    ensures var s := Frame(t + [Int(WORD, v)], l, w);
      |s.stack| > 0 && Top(s, 1) == Int(WORD, v) && Drop(s, 1) == Frame(t, l, w) && IsWord(Top(s, 1))
      && (IsZero(Top(s, 1)) <==> v == 0)
  {
    Addressed(v);
    assert (t + [Int(WORD, v)])[..|t|] == t;
    hide Norm;
  }

  /** The operands that make compilation raise: a jump to no block, a slot or a count that is no 32-bit number. */
  predicate Raises(n: nat, insn: Insn) {
    match insn
    case Jump(a) => a + n + 1 < 0 || a > n
    case BranchIf(a) => a + n + 1 < 0 || a > n
    case BranchUnless(a) => a + n + 1 < 0 || a > n
    case SetLocal(k) => k < -2147483648 || k > 2147483647
    case GetLocal(k) => k < -2147483648 || k > 2147483647
    case NewHash(k) => k < -2147483648 || k > 2147483647
    case _ => false
  }

  lemma RaisesIff(n: nat, insn: Insn)
    ensures Raises(n, insn) <==> !WellFormedInsn(n, insn)
  {
  }

  /** Exactly the bytecodes without such an operand compile; hashes are paired when no count is odd and positive. */
  lemma WhichCompile(bc: Bytecode)
    ensures WellFormed(bc) <==> forall i :: 0 <= i < |bc| ==> !Raises(|bc|, bc[i])
    ensures PairedHashes(bc)
        <==> forall i :: 0 <= i < |bc| && bc[i].NewHash? && bc[i].count >= 1 ==> bc[i].count % 2 == 0
  {
    hide Raises, WellFormedInsn;
    forall i | 0 <= i < |bc|
      ensures Raises(|bc|, bc[i]) <==> !WellFormedInsn(|bc|, bc[i])
    {
      RaisesIff(|bc|, bc[i]);
    }
  }

  // ---------- entry and exit ----------

  /** After the entry block the second argument is alone on the stack, and control is at the first instruction. */
  lemma EntryGoes(env: Env, bc: Bytecode, base: nat, w: World) returns (l: seq<Val>)
    requires WellFormed(bc)
    ensures Next(Run(env, Compile(bc, base).blocks, Machine.Start(w), 1), base, 0, [env.arg], l, w)
  {
    l := seq(CELLS, _ => Undef);
    assert StartVm(env, w) == Running(0, Frame([env.arg], l, w));
    hide *;
    StartMatches(env, bc, base, w);
    MatchesIsNext(base, Run(env, Compile(bc, base).blocks, Machine.Start(w), 1), StartVm(env, w));
  }

  /** The exit block returns the top of the stack, and goes wrong exactly when there is none. */
  lemma ExitGoes(env: Env, bc: Bytecode, base: nat, prev: nat, st: State, t: seq<Val>, l: seq<Val>, w: World)
    requires WellFormed(bc) && Holds(base, st, t, l, w)
    ensures var c := Once(env, bc, base, |bc|, prev, st);
      if t == [] then c == Wrong
      else c.Done? && c.v == t[|t| - 1] && Holds(base, c.final, t[..|t| - 1], l, w)
  {
    hide *;
    OnceIs(env, bc, base, |bc|, prev, st);
    HoldsIsRel(base, st, t, l, w);
    ExitStep(env, bc, base, prev, st, MemOf(st));
    EndOfVm(env, bc, Frame(t, l, w));
    MatchesIsNext(base, Once(env, bc, base, |bc|, prev, st), StepVm(env, bc, Running(|bc|, Frame(t, l, w))));
  }

  lemma EndOfVm(env: Env, bc: Bytecode, s: Frame)
    requires WellFormed(bc)
    ensures StepVm(env, bc, Running(|bc|, s))
         == if s.stack == [] then Failed
            else Finished(s.stack[|s.stack| - 1], Frame(s.stack[..|s.stack| - 1], s.locals, s.world))
  {
    hide Effect, WellFormed;
  }
}
