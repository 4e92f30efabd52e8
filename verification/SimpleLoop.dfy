// A whole program that branches back to its first instruction: count up to ten.

module SimpleLoop {
  import opened Options
  import opened Words
  import opened IR
  import opened Machine
  import opened StackMachine
  import opened Codegen
  import opened Simulation
  import opened Fixnums
  import opened ArrayLoop
  import opened Opcodes
  import Depths = StackDiscipline

  const COUNT_TO_TEN: Bytecode := [PutObject(3), OptPlus, Dup, PutObject(21), OptLt, BranchIf(0)]

  predicate IsCount(bc: Bytecode) {
    |bc| == 6 && bc[0] == PutObject(3) && bc[1] == OptPlus && bc[2] == Dup && bc[3] == PutObject(21) && bc[4] == OptLt
    && bc[5] == BranchIf(0)
  }

  lemma ProgramIsCount()
    ensures IsCount(COUNT_TO_TEN)
  {
  }

  lemma CountWellFormed(bc: Bytecode)
    requires IsCount(bc)
    ensures WellFormed(bc) && PairedHashes(bc)
  {
    forall i | 0 <= i < 6 ensures WellFormedInsn(6, bc[i]) && !bc[i].NewHash? {
      assert i == 0 || i == 1 || i == 2 || i == 3 || i == 4 || i == 5;
    }
  }

  lemma CountCode(bc: Bytecode)
    requires IsCount(bc)
    ensures WellFormed(bc) && |bc| == 6 && bc[0] == Immediate(1) && bc[1] == OptPlus && bc[2] == Dup
    ensures bc[3] == Immediate(10) && bc[4] == OptLt && bc[5] == BranchIf(0)
  {
    CountWellFormed(bc);
    hide WellFormed;
  }

  lemma AddsOne(env: Env, l: seq<Val>, w: World, x: int)
    ensures Effect(env, Immediate(1), Frame([Tag(x)], l, w)) == Some(Frame([Tag(x), Tag(1)], l, w))
    ensures Effect(env, OptPlus, Frame([Tag(x), Tag(1)], l, w)) == Some(Frame([Tag(Wrap(x + 1))], l, w))
  {
    assert Computes(OptPlus, x, 1, x + 1);
    hide *;
    DoesPut(env, [Tag(x)], l, w, 1);
    assert [Tag(x)] + [Tag(1)] == [Tag(x), Tag(1)];
    ArithEffect(env, OptPlus, [], l, w, x, 1, x + 1);
    TagWrap(x + 1);
    assert [] + [Tag(x), Tag(1)] == [Tag(x), Tag(1)] && [] + [Tag(x + 1)] == [Tag(x + 1)];
  }

  lemma Compare(env: Env, l: seq<Val>, w: World, n: int)
    requires IsFixnum(n)
    ensures Effect(env, Dup, Frame([Tag(n)], l, w)) == Some(Frame([Tag(n), Tag(n)], l, w))
    ensures Effect(env, Immediate(10), Frame([Tag(n), Tag(n)], l, w)) == Some(Frame([Tag(n), Tag(n), Tag(10)], l, w))
    ensures Effect(env, OptLt, Frame([Tag(n), Tag(n), Tag(10)], l, w))
         == Some(Frame([Tag(n), Int(WORD, if 0 <= n < 10 then 2 else 0)], l, w))
  {
    var yes := if (n < 0) == (10 < 0) then n < 10 else n >= 10;
    assert Says(OptLt, n, 10, yes);
    assert CELLS == 100;
    hide *;
    DoesDup(env, [], l, w, Tag(n));
    assert [] + [Tag(n)] == [Tag(n)] && [] + [Tag(n), Tag(n)] == [Tag(n), Tag(n)];
    DoesPut(env, [Tag(n), Tag(n)], l, w, 10);
    assert [Tag(n), Tag(n)] + [Tag(10)] == [Tag(n), Tag(n), Tag(10)];
    TenIsFixnum();
    OrderEffect(env, OptLt, [Tag(n)], l, w, n, 10, yes);
    assert [Tag(n)] + [Tag(n), Tag(10)] == [Tag(n), Tag(n), Tag(10)];
    assert yes <==> 0 <= n < 10;
    var v := Int(WORD, if yes then 2 else 0);
    assert [Tag(n)] + [v] == [Tag(n), v];
  }

  lemma TenIsFixnum()
    ensures IsFixnum(10) && Wrap(10) == 10
  {
    FixnumRange(10);
    WrapIsFixnum(10);
  }

  /** Adds one and tests, up to the branch. */
  lemma Turns(env: Env, bc: Bytecode, l: seq<Val>, w: World, x: int)
    requires IsCount(bc)
    ensures var n := Wrap(x + 1);
      Reaches(env, bc, Running(0, Frame([Tag(x)], l, w)),
              Running(5, Frame([Tag(n), Int(WORD, if 0 <= n < 10 then 2 else 0)], l, w)))
  {
    hide *;
    CountCode(bc);
    var n, v0 := Wrap(x + 1), Running(0, Frame([Tag(x)], l, w));
    WrapIsFixnum(x + 1);
    ArrayLoop.Start(env, bc, v0);
    AddsOne(env, l, w, x);
    Compare(env, l, w, n);
    Do(env, bc, v0, 0, Frame([Tag(x)], l, w), Frame([Tag(x), Tag(1)], l, w));
    Do(env, bc, v0, 1, Frame([Tag(x), Tag(1)], l, w), Frame([Tag(n)], l, w));
    Do(env, bc, v0, 2, Frame([Tag(n)], l, w), Frame([Tag(n), Tag(n)], l, w));
    Do(env, bc, v0, 3, Frame([Tag(n), Tag(n)], l, w), Frame([Tag(n), Tag(n), Tag(10)], l, w));
    Do(env, bc, v0, 4, Frame([Tag(n), Tag(n), Tag(10)], l, w),
       Frame([Tag(n), Int(WORD, if 0 <= n < 10 then 2 else 0)], l, w));
  }

  lemma BranchStep(env: Env, bc: Bytecode, l: seq<Val>, w: World, n: int, v: int)
    requires IsCount(bc) && (v == 0 || v == 2) && WellFormed(bc)
    ensures StepVm(env, bc, Running(5, Frame([Tag(n), Int(WORD, v)], l, w)))
         == Running(if v == 0 then 6 else 0, Frame([Tag(n)], l, w))
  {
    assert IsJump(bc[5]) && |bc| == 6 && bc[5] == BranchIf(0);
    assert v < Modulus(WORD);
    hide *;
    TopWord([Tag(n)], v, l, w);
    assert [Tag(n)] + [Int(WORD, v)] == [Tag(n), Int(WORD, v)];
    TargetValid(bc, 5);
    TargetIs(6, 0);
    JumpVm(env, bc, 5, Frame([Tag(n), Int(WORD, v)], l, w));
  }

  /** One turn of the loop: back to its start with the next number, or out. */
  lemma TurnEnds(env: Env, bc: Bytecode, l: seq<Val>, w: World, x: int)
    requires IsCount(bc)
    ensures var n := Wrap(x + 1);
      Reaches(env, bc, Running(0, Frame([Tag(x)], l, w)), Running(if 0 <= n < 10 then 0 else 6, Frame([Tag(n)], l, w)))
  {
    hide *;
    CountCode(bc);
    var n := Wrap(x + 1);
    var v := if 0 <= n < 10 then 2 else 0;
    var v5 := Running(5, Frame([Tag(n), Int(WORD, v)], l, w));
    Turns(env, bc, l, w, x);
    BranchStep(env, bc, l, w, n, v);
    OneStepReaches(env, bc, v5);
    Onward(env, bc, Running(0, Frame([Tag(x)], l, w)), v5, StepVm(env, bc, v5));
  }

  /** From any number below ten up to ten. */
  lemma {:induction false} Climbs(env: Env, bc: Bytecode, l: seq<Val>, w: World, x: int)
    requires IsCount(bc) && 0 <= x < 10
    ensures Reaches(env, bc, Running(0, Frame([Tag(x)], l, w)), Running(6, Frame([Tag(10)], l, w)))
    decreases 10 - x
  {
    hide *;
    SmallWrap(x + 1);
    TurnEnds(env, bc, l, w, x);
    if x < 9 {
      Climbs(env, bc, l, w, x + 1);
      Onward(env, bc, Running(0, Frame([Tag(x)], l, w)), Running(0, Frame([Tag(x + 1)], l, w)),
             Running(6, Frame([Tag(10)], l, w)));
    }
  }

  lemma SmallWrap(n: int)
    requires 0 <= n <= 10
    ensures Wrap(n) == n
  {
    FixnumRange(n);
    WrapIsFixnum(n);
  }

  lemma Exits(env: Env, bc: Bytecode, l: seq<Val>, w: World, n: int)
    requires IsCount(bc) && WellFormed(bc)
    ensures StepVm(env, bc, Running(6, Frame([Tag(n)], l, w))) == Finished(Tag(n), Frame([], l, w))
  {
    EndOfVm(env, bc, Frame([Tag(n)], l, w));
    assert [Tag(n)][..0] == [];
    hide Effect, WellFormed, Tag;
  }

  /** What the program returns for x: ten, unless x + 1 is negative or more than ten. */
  lemma VmCounts(env: Env, bc: Bytecode, w: World, x: int, r: int)
    requires IsCount(bc) && env.arg == Tag(x) && r == (if 0 <= Wrap(x + 1) < 10 then 10 else Wrap(x + 1))
    ensures WellFormed(bc) && ReturnsVm(env, bc, w, Tag(r), w)
  {
    var l := seq(CELLS, _ => Undef);
    assert StartVm(env, w) == Running(0, Frame([env.arg], l, w));
    hide *;
    CountCode(bc);
    var n, v0, v6 := Wrap(x + 1), StartVm(env, w), Running(6, Frame([Tag(r)], l, w));
    TurnEnds(env, bc, l, w, x);
    if 0 <= n < 10 {
      Climbs(env, bc, l, w, n);
      Onward(env, bc, v0, Running(0, Frame([Tag(n)], l, w)), v6);
    }
    Exits(env, bc, l, w, r);
    OneStepReaches(env, bc, v6);
    Onward(env, bc, v0, v6, Finished(Tag(r), Frame([], l, w)));
    FinishReturns(env, bc, w, Tag(r), Frame([], l, w));
  }

  lemma OneAbove(x: int)
    requires IsFixnum(x)
    ensures Wrap(x + 1) == if IsFixnum(x + 1) then x + 1 else x + 1 - RANGE
    ensures IsFixnum(x + 1) || x >= 10
  {
    RangeIsEven();
    FixnumRange(x);
    FixnumRange(10);
    WrapIsFixnum(x + 1);
    if !IsFixnum(x + 1) {
      QuotientUnique(RANGE, (x + 1) / RANGE, (x + 1) % RANGE, 0, x + 1);
    }
  }

  /**
   * The compiled program, called with any number x: it counts up and returns ten if x + 1 is at least 0 and below ten;
   * otherwise the branch is not taken, and it returns x + 1. The greatest fixnum has the least one as its successor.
   */
  lemma CompiledCounts(env: Env, base: nat, x: int, w: World)
    requires IsFixnum(x) && env.arg == Fix(x)
    ensures WellFormed(COUNT_TO_TEN)
    ensures 0 <= x + 1 < 10 ==> Returns(env, Compile(COUNT_TO_TEN, base).blocks, w, Fix(10), w)
    ensures !(0 <= x + 1 < 10) && IsFixnum(x + 1) ==>
              Returns(env, Compile(COUNT_TO_TEN, base).blocks, w, Fix(x + 1), w)
    ensures !IsFixnum(x + 1) ==> Returns(env, Compile(COUNT_TO_TEN, base).blocks, w, Fix(x + 1 - RANGE), w)
  {
    ProgramIsCount();
    OneAbove(x);
    RangeIsEven();
    var n := Wrap(x + 1);
    var r := if 0 <= n < 10 then 10 else n;
    assert !IsFixnum(x + 1) ==> n < 0;
    FixIsTag(x);
    FixIsTag(r);
    hide *;
    VmCounts(env, COUNT_TO_TEN, w, x, r);
    ReturnsToo(env, COUNT_TO_TEN, base, w, Tag(r), w);
  }

  /** The stack never holds more than three values, nor too few. */
  lemma CountDepth()
    ensures Depths.Consistent(COUNT_TO_TEN, [1, 2, 1, 2, 3, 2, 1])
  {
    ProgramIsCount();
    CountWellFormed(COUNT_TO_TEN);
    TargetIs(6, 0);
    hide WellFormed, IsCount;
  }
}
