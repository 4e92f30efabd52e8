// Comparisons and branches in the compiled function.

module Guards {
  import opened Options
  import opened Words
  import opened IR
  import opened Machine
  import opened StackMachine
  import opened Emission
  import opened StackCode
  import opened InsnCode
  import opened Codegen
  import opened Simulation
  import opened Fixnums

  lemma MatchedFrame(h: Handles, c: Config, pc: nat, s: Frame)
    requires Matches(h, c, Running(pc, s))
    ensures c == At(BlockOf(pc), c.prev, c.st) && MemOk(MemOf(c.st)) && Rel(h, c.st, MemOf(c.st))
    ensures View(MemOf(c.st)) == s
  {
    hide MemOf;
  }

  /** Which way a comparison of residues goes, in terms of the numbers. */
  lemma SignsDecide(insn: Insn, a: int, b: int)
    requires IsComparison(insn) && IsFixnum(a) && IsFixnum(b)
    ensures Compares(insn, a % RANGE, b % RANGE)
         == if (a < 0) == (b < 0) then Compares(insn, a, b) else !Compares(insn, a, b)
  {
    ResidueOrder(a, b);
    ResidueOrder(b, a);
  }

  /**
   * A comparison and a conditional branch in the compiled function: exactly two blocks later both operands are gone,
   * nothing else has changed, and control is at the block where the comparison of the residues sends it. For two
   * fixnums that is where the numbers send it if their signs agree, and the other way if they differ.
   */
  lemma {:induction false} GuardRuns(env: Env, bc: Bytecode, base: nat, pc: nat, prev: nat, st: State, m: Mem, a: int,
                                     b: int)
    requires WellFormed(bc) && Guard(bc, pc) && Rel(HandlesAt(base), st, m) && MemOk(m) && OnTop(View(m), a, b)
    ensures var c := Run(env, Compile(bc, base).blocks, At(BlockOf(pc), prev, st), 2);
      c.At? && c.block == BlockOf(Guarded(bc, pc, Compares(bc[pc], a % RANGE, b % RANGE)))
      && Rel(HandlesAt(base), c.st, MemOf(c.st)) && MemOk(MemOf(c.st)) && View(MemOf(c.st)) == Drop(View(m), 2)
      && (IsFixnum(a) && IsFixnum(b) ==>
            c.block == BlockOf(Guarded(bc, pc, if (a < 0) == (b < 0) then Compares(bc[pc], a, b)
                                               else !Compares(bc[pc], a, b))))
  {
    hide *;
    var f, h, s := Compile(bc, base).blocks, HandlesAt(base), View(m);
    GuardParts(bc, pc);
    RangeIsEven();
    GuardsDecide(env, bc, pc, s, a, b);
    TwoSteps(env, bc, Running(pc, s));
    OneBlock(env, bc, base, pc, prev, st, m);
    var c0 := At(BlockOf(pc), prev, st);
    var c1, vm1 := Run(env, f, c0, 1), StepVm(env, bc, Running(pc, s));
    FirstGoesOn(env, bc, pc, s, a, b);
    MatchedFrame(h, c1, pc + 1, vm1.s);
    OneBlock(env, bc, base, pc + 1, c1.prev, c1.st, MemOf(c1.st));
    RunSplit(env, f, c0, 1, 1);
    MatchedFrame(h, Run(env, f, c1, 1), Guarded(bc, pc, Compares(bc[pc], a % RANGE, b % RANGE)), Drop(s, 2));
    if IsFixnum(a) && IsFixnum(b) {
      SignsDecide(bc[pc], a, b);
    }
  }

  lemma GuardParts(bc: Bytecode, pc: nat)
    requires Guard(bc, pc)
    ensures pc + 1 < |bc| && !bc[pc].NewHash? && !bc[pc + 1].NewHash? && IsComparison(bc[pc])
  {
  }

  lemma FirstGoesOn(env: Env, bc: Bytecode, pc: nat, s: Frame, a: int, b: int)
    requires WellFormed(bc) && Guard(bc, pc) && OnTop(s, a, b)
    ensures StepVm(env, bc, Running(pc, s)).Running? && StepVm(env, bc, Running(pc, s)).pc == pc + 1 && |s.stack| >= 2
  {
    ComparesResidues(env, bc[pc], s, a, b);
    StepsByEffect(env, bc, pc, s);
    hide StepVm, Effect, WellFormed;
  }
}
