// A static stack depth for every instruction rules out overflow and underflow in every run.

module StackDiscipline {
  import opened Options
  import opened Words
  import opened IR
  import opened Machine
  import opened StackMachine
  import opened Emission
  import opened ValueCode
  import opened StackCode
  import opened InsnCode
  import opened Codegen
  import opened HashCode
  import opened Simulation

  /** How many values an instruction needs on the stack. */
  function Need(insn: Insn): nat {
    match insn
    case Pop => 1
    case Dup => 1
    case Swap => 2
    case SetLocal(_) => 1
    case OptPlus => 2
    case OptMinus => 2
    case OptMult => 2
    case OptLt => 2
    case OptGt => 2
    case OptGe => 2
    case OptAref => 2
    case OptAset => 3
    case OptLength => 1
    case SetIvar(_) => 1
    case NewHash(count) => if count > 0 then count else 0
    case BranchIf(_) => 1
    case BranchUnless(_) => 1
    case _ => 0
  }

  /** By how much it changes the depth. */
  function Delta(insn: Insn): int {
    match insn
    case Nop => 0
    case Pop => -1
    case Swap => 0
    case SetLocal(_) => -1
    case OptPlus => -1
    case OptMinus => -1
    case OptMult => -1
    case OptLt => -1
    case OptGt => -1
    case OptGe => -1
    case OptAref => -1
    case OptAset => -2
    case OptLength => 0
    case SetIvar(_) => 0
    case Jump(_) => 0
    case BranchIf(_) => -1
    case BranchUnless(_) => -1
    case _ => 1
  }

  function Following(bc: Bytecode, pc: nat): set<nat>
    requires WellFormed(bc) && pc < |bc|
  {
    match bc[pc]
    case Jump(t) => {Target(|bc|, t)}
    case BranchIf(t) => {pc + 1, Target(|bc|, t)}
    case BranchUnless(t) => {pc + 1, Target(|bc|, t)}
    case _ => {pc + 1}
  }

  /** A depth for every instruction and for the exit, that all ways to it agree on. */
  predicate Consistent(bc: Bytecode, depth: seq<nat>) {
    WellFormed(bc) && |depth| == |bc| + 1 && depth[0] == 1 && depth[|bc|] >= 1
    && (forall pc :: 0 <= pc <= |bc| ==> depth[pc] <= CELLS)
    && forall pc :: 0 <= pc < |bc| ==>
         Need(bc[pc]) <= depth[pc] && 0 <= depth[pc] + Delta(bc[pc]) <= CELLS
         && forall t :: t in Following(bc, pc) ==> depth[t] == depth[pc] + Delta(bc[pc])
  }

  /** The reasons, other than stack depth, for which the code of an instruction goes wrong. */
  predicate CodeFaults(insn: Insn, s: Frame)
    requires Need(insn) <= |s.stack|
  {
    match insn
    case SetLocal(k) => !(0 <= k < |s.locals|)
    case GetLocal(k) => !(0 <= k < |s.locals|)
    case OptPlus => !IsWord(Top(s, 1)) || !IsWord(Top(s, 2))
    case OptMinus => !IsWord(Top(s, 1)) || !IsWord(Top(s, 2))
    case OptMult => !IsWord(Top(s, 1)) || !IsWord(Top(s, 2))
    case OptLt => !IsWord(Top(s, 1)) || !IsWord(Top(s, 2))
    case OptGt => !IsWord(Top(s, 1)) || !IsWord(Top(s, 2))
    case OptGe => !IsWord(Top(s, 1)) || !IsWord(Top(s, 2))
    case OptAref =>
      !IsWord(Top(s, 1)) || !IsWord(Top(s, 2)) || Norm(WORD, Top(s, 2).n) !in s.world.arrays
      || Untag(Top(s, 1)) >= |s.world.arrays[Norm(WORD, Top(s, 2).n)]|
    case OptAset => !IsWord(Top(s, 2))
    case OptLength => !IsWord(Top(s, 1)) || Norm(WORD, Top(s, 1).n) !in s.world.arrays
    case BranchIf(_) => !IsWord(Top(s, 1))
    case BranchUnless(_) => !IsWord(Top(s, 1))
    case _ => false
  }

  /** The reasons for which an instruction has no meaning: those, and a hash of an odd count, whose code runs on. */
  predicate Faults(insn: Insn, s: Frame)
    requires Need(insn) <= |s.stack|
  {
    CodeFaults(insn, s) || (insn.NewHash? && insn.count > 0 && insn.count % 2 == 1)
  }

  predicate IsArithmetic(insn: Insn) {
    insn.OptPlus? || insn.OptMinus? || insn.OptMult? || insn.OptLt? || insn.OptGt? || insn.OptGe?
  }

  predicate CallsRuntime(insn: Insn) {
    insn.OptAset? || insn.GetIvar? || insn.SetIvar? || insn.NewArray? || insn.NewHash? || insn.Send?
  }

  /** What EffectDepth says. */
  predicate DepthMoves(env: Env, insn: Insn, s: Frame)
    requires Need(insn) <= |s.stack|
  {
    var r := Effect(env, insn, s);
    (r.None? <==> Faults(insn, s))
    && (r.Some? ==> |r.value.stack| == |s.stack| + Delta(insn) && |r.value.locals| == |s.locals|)
  }

  predicate HasRoom(insn: Insn, s: Frame) {
    Need(insn) <= |s.stack| && |s.stack| <= CELLS && |s.stack| + Delta(insn) <= CELLS
  }

  lemma ArithmeticDepth(env: Env, insn: Insn, s: Frame)
    requires IsArithmetic(insn) && HasRoom(insn, s)
    ensures DepthMoves(env, insn, s)
  {
    hide Untag, Tag, Bool, IsWord;
  }

  lemma CallKeepsFrame(rt: Runtime, s: Frame, callee: Callee, args: seq<Val>)
    ensures CallWith(rt, s, callee, args).1.stack == s.stack && CallWith(rt, s, callee, args).1.locals == s.locals
  {
    hide CallRuntime;
  }

  lemma RuntimeDepth(env: Env, insn: Insn, s: Frame)
    requires CallsRuntime(insn) && HasRoom(insn, s)
    ensures DepthMoves(env, insn, s)
  {
    forall s': Frame, callee, args
      ensures CallWith(env.rt, s', callee, args).1.stack == s'.stack
      ensures CallWith(env.rt, s', callee, args).1.locals == s'.locals
    {
      CallKeepsFrame(env.rt, s', callee, args);
    }
    hide CallWith, CallRuntime, SetPairs, Untag, IsWord;
  }

  lemma OtherDepth(env: Env, insn: Insn, s: Frame)
    requires IsStraight(insn) && !IsArithmetic(insn) && !CallsRuntime(insn) && HasRoom(insn, s)
    ensures DepthMoves(env, insn, s)
  {
    hide Norm, Untag, Tag, IsWord;
  }

  /** With enough values and enough room, only a fault stops an instruction, and the depth changes as declared. */
  lemma EffectDepth(env: Env, insn: Insn, s: Frame)
    requires IsStraight(insn) || insn.NewHash?
    requires Need(insn) <= |s.stack| && |s.stack| <= CELLS && |s.stack| + Delta(insn) <= CELLS
    ensures Effect(env, insn, s).None? <==> Faults(insn, s)
    ensures Effect(env, insn, s).Some? ==>
              |Effect(env, insn, s).value.stack| == |s.stack| + Delta(insn)
              && |Effect(env, insn, s).value.locals| == |s.locals|
  {
    if IsArithmetic(insn) {
      ArithmeticDepth(env, insn, s);
    } else if CallsRuntime(insn) {
      RuntimeDepth(env, insn, s);
    } else {
      OtherDepth(env, insn, s);
    }
    hide Effect, Faults, Need, Delta;
  }

  lemma FollowedByNext(bc: Bytecode, depth: seq<nat>, pc: nat)
    requires Consistent(bc, depth) && pc < |bc| && (IsStraight(bc[pc]) || bc[pc].NewHash?)
    ensures WellFormed(bc) && |depth| == |bc| + 1 && depth[pc + 1] == depth[pc] + Delta(bc[pc])
    ensures Need(bc[pc]) <= depth[pc] && depth[pc] <= CELLS && depth[pc] + Delta(bc[pc]) <= CELLS
  {
    assert pc + 1 in Following(bc, pc);
    hide Delta, Need, WellFormed;
  }

  lemma FollowedByTarget(bc: Bytecode, depth: seq<nat>, pc: nat)
    requires Consistent(bc, depth) && pc < |bc| && IsJump(bc[pc])
    ensures WellFormed(bc) && |depth| == |bc| + 1 && ValidTarget(|bc|, bc[pc].target) && Need(bc[pc]) <= depth[pc]
    ensures depth[Target(|bc|, bc[pc].target)] == depth[pc] + Delta(bc[pc])
    ensures !bc[pc].Jump? ==> depth[pc + 1] == depth[pc] + Delta(bc[pc])
  {
    assert WellFormedInsn(|bc|, bc[pc]);
    assert Target(|bc|, bc[pc].target) in Following(bc, pc);
    assert !bc[pc].Jump? ==> pc + 1 in Following(bc, pc);
    hide Delta, Need, WellFormed;
  }

  lemma PlainDepth(env: Env, bc: Bytecode, depth: seq<nat>, pc: nat, s: Frame)
    requires Consistent(bc, depth) && pc < |bc| && |s.stack| == depth[pc] && (IsStraight(bc[pc]) || bc[pc].NewHash?)
    ensures WellFormed(bc) && Need(bc[pc]) <= |s.stack|
    ensures var vm := StepVm(env, bc, Running(pc, s));
      (vm.Failed? <==> Faults(bc[pc], s)) && !vm.Finished?
      && (vm.Running? ==> vm.pc == pc + 1 && |vm.s.stack| == depth[pc + 1])
  {
    hide *;
    FollowedByNext(bc, depth, pc);
    EffectDepth(env, bc[pc], s);
    if IsStraight(bc[pc]) {
      StraightStep(env, bc, pc, s);
    } else {
      HashStep(env, bc, pc, s);
    }
  }

  lemma JumpDepth(env: Env, bc: Bytecode, depth: seq<nat>, pc: nat, s: Frame)
    requires Consistent(bc, depth) && pc < |bc| && |s.stack| == depth[pc] && IsJump(bc[pc])
    ensures WellFormed(bc) && Need(bc[pc]) <= |s.stack|
    ensures var vm := StepVm(env, bc, Running(pc, s));
      (vm.Failed? <==> Faults(bc[pc], s)) && !vm.Finished?
      && (vm.Running? ==> vm.pc <= |bc| && |vm.s.stack| == depth[vm.pc])
  {
    FollowedByTarget(bc, depth, pc);
    hide Consistent, WellFormed, Effect, IsZero, IsWord;
  }

  lemma StepDepth(env: Env, bc: Bytecode, depth: seq<nat>, pc: nat, s: Frame)
    requires Consistent(bc, depth) && pc < |bc| && |s.stack| == depth[pc]
    ensures StepVm(env, bc, Running(pc, s)).Failed? <==> Faults(bc[pc], s)
    ensures var vm := StepVm(env, bc, Running(pc, s));
      vm.Running? ==> vm.pc <= |bc| && |vm.s.stack| == depth[vm.pc]
  {
    hide *;
    KindsOf(bc[pc]);
    if IsJump(bc[pc]) {
      JumpDepth(env, bc, depth, pc, s);
    } else {
      PlainDepth(env, bc, depth, pc, s);
    }
  }

  /** What a run of a consistent bytecode can come to. */
  predicate DepthHolds(bc: Bytecode, depth: seq<nat>, vm: Vm)
    requires Consistent(bc, depth)
  {
    match vm
    case Running(pc, s) => pc <= |bc| && |s.stack| == depth[pc]
    case _ => true
  }

  /** In every run, every instruction is met at its own depth. */
  lemma {:induction false} RunDepth(env: Env, bc: Bytecode, depth: seq<nat>, vm: Vm, k: nat)
    requires Consistent(bc, depth) && DepthHolds(bc, depth, vm)
    ensures DepthHolds(bc, depth, RunVm(env, bc, vm, k))
    decreases k
  {
    hide Consistent, Effect, StepVm, WellFormed;
    if k > 0 {
      OneDepth(env, bc, depth, vm);
      RunDepth(env, bc, depth, StepVm(env, bc, vm), k - 1);
    }
  }

  lemma OneDepth(env: Env, bc: Bytecode, depth: seq<nat>, vm: Vm)
    requires Consistent(bc, depth) && DepthHolds(bc, depth, vm)
    ensures WellFormed(bc) && DepthHolds(bc, depth, StepVm(env, bc, vm))
  {
    hide Effect, Faults;
    if vm.Running? && vm.pc < |bc| {
      StepDepth(env, bc, depth, vm.pc, vm.s);
    }
  }

  /** The stack pointer of a running function is d cells above the base of the 100 cells. */
  predicate AtDepth(st: State, d: nat) {
    |st.mem| == 3 && |st.mem[0]| == CELLS && |st.mem[1]| == 1 && st.mem[1][0] == Cell(0, d) && d <= CELLS
  }

  /** The machine has met a fault after j steps. */
  predicate FaultAfter(env: Env, bc: Bytecode, w: World, j: nat)
    requires WellFormed(bc)
  {
    var vm := RunVm(env, bc, StartVm(env, w), j);
    vm.Running? && vm.pc < |bc| && Need(bc[vm.pc]) <= |vm.s.stack| && Faults(bc[vm.pc], vm.s)
  }

  lemma {:induction false} RunVmSplit(env: Env, bc: Bytecode, vm: Vm, k: nat)
    requires WellFormed(bc)
    ensures RunVm(env, bc, vm, k + 1) == StepVm(env, bc, RunVm(env, bc, vm, k))
    decreases k
  {
    hide StepVm, WellFormed;
    if k > 0 {
      RunVmSplit(env, bc, StepVm(env, bc, vm), k - 1);
    } else {
      assert RunVm(env, bc, StepVm(env, bc, vm), 0) == StepVm(env, bc, vm);
    }
  }

  /** A run fails only on a fault, never for want of values or of room on the stack. */
  lemma {:induction false} OnlyFaults(env: Env, bc: Bytecode, depth: seq<nat>, w: World, k: nat) returns (j: nat)
    requires Consistent(bc, depth) && RunVm(env, bc, StartVm(env, w), k).Failed?
    ensures j < k && FaultAfter(env, bc, w, j)
    decreases k
  {
    hide Consistent, StepVm, Faults, StartVm, WellFormed, DepthHolds, RunVm, Effect;
    StartsRunning(env, bc, depth, w);
    var vm := RunVm(env, bc, StartVm(env, w), k - 1);
    RunVmSplit(env, bc, StartVm(env, w), k - 1);
    RunDepth(env, bc, depth, StartVm(env, w), k - 1);
    if vm.Failed? {
      j := OnlyFaults(env, bc, depth, w, k - 1);
    } else {
      j := k - 1;
      FailsByFault(env, bc, depth, vm);
    }
  }

  lemma {:induction false} StartsRunning(env: Env, bc: Bytecode, depth: seq<nat>, w: World)
    requires Consistent(bc, depth)
    ensures WellFormed(bc) && !RunVm(env, bc, StartVm(env, w), 0).Failed?
    ensures DepthHolds(bc, depth, StartVm(env, w))
  {
    hide Effect;
  }

  lemma FailsByFault(env: Env, bc: Bytecode, depth: seq<nat>, vm: Vm)
    requires Consistent(bc, depth) && DepthHolds(bc, depth, vm) && !vm.Failed? && StepVm(env, bc, vm).Failed?
    ensures vm.Running? && vm.pc < |bc| && Need(bc[vm.pc]) <= |vm.s.stack| && Faults(bc[vm.pc], vm.s)
  {
    hide Effect, Faults;
    assert vm.Running?;
    if vm.pc < |bc| {
      StepDepth(env, bc, depth, vm.pc, vm.s);
    }
  }

  // ---------- the compiled function, block by block ----------

  /** The instruction to whose code an extra block belongs, among the first k. */
  function OwnerAmong(bc: Bytecode, base: nat, k: nat, b: nat): (i: nat)
    requires WellFormed(bc) && k <= |bc|
    ensures i <= |bc|
  {
    if k == 0 then |bc|
    else
      PrefixWellFormed(bc, k - 1);
      if b >= |CompileTo(bc, base, k - 1).blocks| then k - 1 else OwnerAmong(bc, base, k - 1, b)
  }

  /** The instruction to whose code a block after the entry block belongs; |bc| for the exit block. */
  function Owner(bc: Bytecode, base: nat, b: nat): (i: nat)
    requires WellFormed(bc) && b >= 1
    ensures i <= |bc|
  {
    if b <= |bc| + 1 then b - 1 else OwnerAmong(bc, base, |bc|, b)
  }

  lemma {:induction false} OwnerFound(bc: Bytecode, base: nat, i: nat, k: nat, b: nat)
    requires WellFormed(bc) && i < k <= |bc| && bc[i].NewHash?
    requires var x := |CompileTo(bc, base, i).blocks|; x <= b < x + 3
    ensures OwnerAmong(bc, base, k, b) == i
    decreases k
  {
    hide CompileTo, WellFormed, WellFormedTo;
    if i < k - 1 {
      PrefixWellFormed(bc, k - 1);
      PrefixWellFormed(bc, i);
      BlocksUpTo(bc, base, i, k - 1);
      OwnerFound(bc, base, i, k - 1, b);
    }
  }

  lemma {:induction false} BlocksUpTo(bc: Bytecode, base: nat, i: nat, k: nat)
    requires WellFormed(bc) && i < k <= |bc| && bc[i].NewHash?
    ensures |CompileTo(bc, base, i).blocks| + 3 <= |CompileTo(bc, base, k).blocks|
  {
    hide *;
    ThreeMore(bc, base, i);
    BlocksKept(bc, base, i + 1, k);
  }

  lemma ThreeMore(bc: Bytecode, base: nat, i: nat)
    requires WellFormed(bc) && i < |bc| && bc[i].NewHash?
    ensures WellFormedTo(bc, i) && WellFormedTo(bc, i + 1)
    ensures |CompileTo(bc, base, i + 1).blocks| == |CompileTo(bc, base, i).blocks| + 3
  {
    var c := CompileTo(bc, base, i);
    HashParts(HandlesAt(base), c.next, |c.blocks|, |bc|, i, bc[i]);
    hide Number, MainOps, ExtraBlocks, HandlesAt, EntryOps, Sizes, WellFormedInsn;
  }

  /** The blocks of a newhash belong to it. */
  lemma {:induction false} OwnerOfHash(bc: Bytecode, base: nat, i: nat, b: nat)
    requires WellFormed(bc) && i < |bc| && bc[i].NewHash?
    requires var x := |CompileTo(bc, base, i).blocks|; x <= b < x + 3
    ensures b > |bc| + 1 && Owner(bc, base, b) == i
  {
    hide *;
    PrefixWellFormed(bc, i);
    OwnerFound(bc, base, i, |bc|, b);
    OwnerOfExtra(bc, base, b);
  }

  lemma {:induction false} OwnerOfExtra(bc: Bytecode, base: nat, b: nat)
    requires WellFormed(bc) && b > |bc| + 1
    ensures Owner(bc, base, b) == OwnerAmong(bc, base, |bc|, b)
  {
    hide OwnerAmong, WellFormed;
  }

  /** Where control can be, with the hash and the loop index that the code of a newhash then holds. */
  datatype Place =
    | Entry
    | Main(pc: nat)
    | Head(pc: nat, hash: Val)
    | Loop(pc: nat, hash: Val, idx: int)
    | Tail(pc: nat, hash: Val)

  /** Control is at the start of the block of a place, and the stack has the depth of the instruction. */
  predicate Stands(env: Env, bc: Bytecode, depth: seq<nat>, base: nat, w: World, c: Config, p: Place)
    requires Consistent(bc, depth)
  {
    if p.Entry? then c == Start(w)
    else
      c.At? && p.pc <= |bc| && Rel(HandlesAt(base), c.st, MemOf(c.st)) && MemOf(c.st).depth == depth[p.pc]
      && (p.Main? ==> c.block == BlockOf(p.pc))
      && (!p.Main? ==>
            p.pc < |bc| && bc[p.pc].NewHash?
            && var code := CompileTo(bc, base, p.pc);
               Holding(Reg(code.next), p.hash, c.st.regs)
               && (p.Head? ==> c.block == |code.blocks|)
               && (p.Tail? ==> c.block == |code.blocks| + 2)
               && (p.Loop? ==>
                     c.block == |code.blocks| + 1 && Index(p.idx) && p.idx <= bc[p.pc].count
                     && Enters(code.next, |code.blocks|, bc[p.pc].count, p.idx, c.prev, c.st.regs)))
  }

  /** The next block goes wrong. */
  predicate Breaks(bc: Bytecode, depth: seq<nat>, c: Config, p: Place)
    requires Consistent(bc, depth)
  {
    p.Main? && c.At? && p.pc < |bc| && MemOk(MemOf(c.st)) && Need(bc[p.pc]) <= MemOf(c.st).depth
    && CodeFaults(bc[p.pc], View(MemOf(c.st)))
  }

  /** One block on: it went wrong on a fault, or control is at another place or has left the function. */
  predicate Moved(env: Env, bc: Bytecode, depth: seq<nat>, base: nat, w: World, c: Config, p: Place, c': Config,
                  p': Place)
    requires Consistent(bc, depth)
  {
    if Breaks(bc, depth, c, p) then c'.Wrong? else c'.Done? || (!p'.Entry? && Stands(env, bc, depth, base, w, c', p'))
  }

  /** What the numbers say about one instruction. */
  lemma DepthFacts(bc: Bytecode, depth: seq<nat>, pc: nat)
    requires Consistent(bc, depth) && pc < |bc|
    ensures WellFormed(bc) && |depth| == |bc| + 1 && depth[0] == 1 && depth[|bc|] >= 1
    ensures Need(bc[pc]) <= depth[pc] <= CELLS
    ensures bc[pc].NewHash? ==> depth[pc] < CELLS && depth[pc + 1] == depth[pc] + 1 && CInt(bc[pc].count)
    ensures bc[pc].NewHash? ==> bc[pc].count <= depth[pc]
  {
    assert bc[pc].NewHash? ==> pc + 1 in Following(bc, pc);
    assert WellFormedInsn(|bc|, bc[pc]);
  }

  lemma MatchedStands(env: Env, bc: Bytecode, depth: seq<nat>, base: nat, w: World, c: Config, pc: nat, s: Frame)
    requires Consistent(bc, depth) && pc <= |bc| && Matches(HandlesAt(base), c, Running(pc, s))
    requires |s.stack| == depth[pc]
    ensures Stands(env, bc, depth, base, w, c, Main(pc))
  {
    assert MemOk(MemOf(c.st));
    hide MemOf, HandlesAt, Consistent;
  }

  lemma BreaksIs(bc: Bytecode, depth: seq<nat>, c: Config, pc: nat, m: Mem)
    requires Consistent(bc, depth) && pc < |bc| && c.At? && m == MemOf(c.st) && MemOk(m) && m.depth == depth[pc]
    ensures Need(bc[pc]) <= |View(m).stack|
    ensures Breaks(bc, depth, c, Main(pc)) <==> CodeFaults(bc[pc], View(m))
  {
    DepthFacts(bc, depth, pc);
    hide CodeFaults, MemOf;
  }

  lemma MainIs(env: Env, bc: Bytecode, depth: seq<nat>, base: nat, w: World, c: Config, pc: nat)
    requires Consistent(bc, depth) && Stands(env, bc, depth, base, w, c, Main(pc))
    ensures WellFormed(bc) && pc <= |bc| && c == At(BlockOf(pc), c.prev, c.st) && MemOk(MemOf(c.st))
    ensures Rel(HandlesAt(base), c.st, MemOf(c.st)) && |View(MemOf(c.st)).stack| == MemOf(c.st).depth == depth[pc]
  {
    hide HandlesAt, MemOf;
  }

  lemma FromMain(env: Env, bc: Bytecode, depth: seq<nat>, base: nat, w: World, c: Config, pc: nat) returns (p': Place)
    requires Consistent(bc, depth) && Stands(env, bc, depth, base, w, c, Main(pc)) && pc < |bc| && !bc[pc].NewHash?
    ensures WellFormed(bc)
    ensures Moved(env, bc, depth, base, w, c, Main(pc), Run(env, Compile(bc, base).blocks, c, 1), p')
  {
    hide *;
    DepthFacts(bc, depth, pc);
    MainIs(env, bc, depth, base, w, c, pc);
    var m := MemOf(c.st);
    OneBlock(env, bc, base, pc, c.prev, c.st, m);
    BreaksIs(bc, depth, c, pc, m);
    p' := AfterMain(env, bc, depth, base, w, c, pc, Run(env, Compile(bc, base).blocks, c, 1));
  }

  lemma AfterMain(env: Env, bc: Bytecode, depth: seq<nat>, base: nat, w: World, c: Config, pc: nat, c': Config)
    returns (p': Place)
    requires Consistent(bc, depth) && pc < |bc| && !bc[pc].NewHash? && c.At? && MemOk(MemOf(c.st))
    requires |View(MemOf(c.st)).stack| == depth[pc] && Need(bc[pc]) <= depth[pc]
    requires Breaks(bc, depth, c, Main(pc)) <==> CodeFaults(bc[pc], View(MemOf(c.st)))
    requires Matches(HandlesAt(base), c', StepVm(env, bc, Running(pc, View(MemOf(c.st)))))
    ensures Moved(env, bc, depth, base, w, c, Main(pc), c', p')
  {
    var s := View(MemOf(c.st));
    var vm := StepVm(env, bc, Running(pc, s));
    StepDepth(env, bc, depth, pc, s);
    p' := Entry;
    hide CodeFaults, View, MemOf, Effect, Breaks, HandlesAt, Consistent, StepVm, Stands;
    if vm.Running? {
      MatchedStands(env, bc, depth, base, w, c', vm.pc, vm.s);
      p' := Main(vm.pc);
    }
  }

  lemma {:induction false} FromExit(env: Env, bc: Bytecode, depth: seq<nat>, base: nat, w: World, c: Config)
    requires Consistent(bc, depth) && Stands(env, bc, depth, base, w, c, Main(|bc|))
    ensures WellFormed(bc) && Run(env, Compile(bc, base).blocks, c, 1).Done?
  {
    MainIs(env, bc, depth, base, w, c, |bc|);
    hide HandlesAt, MemOf, Compile, Run;
    ExitStep(env, bc, base, c.prev, c.st, MemOf(c.st));
  }

  /** What is known at a block of a newhash. */
  lemma {:induction false} InHash(env: Env, bc: Bytecode, depth: seq<nat>, base: nat, w: World, c: Config, p: Place)
    requires Consistent(bc, depth) && Stands(env, bc, depth, base, w, c, p)
    requires p.Head? || p.Loop? || p.Tail? || (p.Main? && p.pc < |bc| && bc[p.pc].NewHash?)
    ensures WellFormed(bc) && p.pc < |bc| && bc[p.pc].NewHash?
    ensures var m := MemOf(c.st);
      c.At? && Rel(HandlesAt(base), c.st, m) && m.depth == depth[p.pc] && MemOk(m) && m.depth < CELLS
    ensures CInt(bc[p.pc].count) && bc[p.pc].count <= depth[p.pc]
    ensures var code := CompileTo(bc, base, p.pc);
      HashBlocks(Compile(bc, base).blocks, HandlesAt(base), code.next, |code.blocks|, p.pc, bc[p.pc].count)
      && HandlesBelow(HandlesAt(base), code.next)
      && (p.Main? ==> c.block == BlockOf(p.pc))
      && (!p.Main? ==> Holding(Reg(code.next), p.hash, c.st.regs))
      && (p.Head? ==> c.block == |code.blocks|)
      && (p.Tail? ==> c.block == |code.blocks| + 2)
      && (p.Loop? ==>
            c.block == |code.blocks| + 1 && Index(p.idx) && p.idx <= bc[p.pc].count
            && Enters(code.next, |code.blocks|, bc[p.pc].count, p.idx, c.prev, c.st.regs))
  {
    DepthFacts(bc, depth, p.pc);
    PrefixWellFormed(bc, p.pc);
    CodeInPlace(bc, base, p.pc);
    hide HandlesAt, MemOf, CompileTo, Compile, HashBlocks, HandlesBelow, Consistent, Enters, Holding, Index, InPlace;
  }

  /** Control has moved on inside a newhash. */
  lemma {:induction false} HashStands(env: Env, bc: Bytecode, depth: seq<nat>, base: nat, w: World, c: Config, p: Place,
                                      m: Mem)
    requires Consistent(bc, depth) && c.At? && Rel(HandlesAt(base), c.st, m) && (p.Head? || p.Loop? || p.Tail?)
    requires p.pc < |bc| && bc[p.pc].NewHash? && m.depth == depth[p.pc] && WellFormedTo(bc, p.pc)
    requires var code := CompileTo(bc, base, p.pc);
      Holding(Reg(code.next), p.hash, c.st.regs)
      && (p.Head? ==> c.block == |code.blocks|)
      && (p.Tail? ==> c.block == |code.blocks| + 2)
      && (p.Loop? ==>
            c.block == |code.blocks| + 1 && Index(p.idx) && p.idx <= bc[p.pc].count
            && Enters(code.next, |code.blocks|, bc[p.pc].count, p.idx, c.prev, c.st.regs))
    ensures Stands(env, bc, depth, base, w, c, p)
  {
    MemOfRel(HandlesAt(base), c.st, m);
    hide HandlesAt, MemOf, CompileTo, Rel, Consistent, Enters, Holding, Index;
  }

  lemma NoFault(bc: Bytecode, depth: seq<nat>, c: Config, p: Place)
    requires Consistent(bc, depth) && (p.Main? && p.pc < |bc| ==> bc[p.pc].NewHash?)
    ensures !Breaks(bc, depth, c, p)
  {
    hide MemOf, View;
  }

  lemma NowStands(env: Env, bc: Bytecode, depth: seq<nat>, base: nat, w: World, c: Config, p: Place, c': Config,
                  p': Place)
    requires Consistent(bc, depth) && !Breaks(bc, depth, c, p)
    requires c'.Done? || (!p'.Entry? && Stands(env, bc, depth, base, w, c', p'))
    ensures Moved(env, bc, depth, base, w, c, p, c', p')
  {
    hide Breaks, Stands, Consistent;
  }

  lemma FromHash(env: Env, bc: Bytecode, depth: seq<nat>, base: nat, w: World, c: Config, pc: nat) returns (p': Place)
    requires Consistent(bc, depth) && Stands(env, bc, depth, base, w, c, Main(pc)) && pc < |bc| && bc[pc].NewHash?
    ensures WellFormed(bc) && !p'.Entry?
    ensures Stands(env, bc, depth, base, w, Run(env, Compile(bc, base).blocks, c, 1), p')
  {
    hide *;
    InHash(env, bc, depth, base, w, c, Main(pc));
    PrefixWellFormed(bc, pc);
    var f, code, h, m := Compile(bc, base).blocks, CompileTo(bc, base, pc), HandlesAt(base), MemOf(c.st);
    HashBlocksOpen(f, h, code.next, |code.blocks|, pc, bc[pc].count);
    var st' := CallThenBr(env, h, code.next, |code.blocks|, c.prev, c.st, m);
    RunJump(env, f, BlockOf(pc), Number(HashMain(|code.blocks|), code.next), c.prev, c.st, |code.blocks|, st');
    var (hash, w') := CallRuntime(env.rt, HashNew, [], m.world);
    p' := Head(pc, hash);
    HashStands(env, bc, depth, base, w, At(|code.blocks|, BlockOf(pc), st'), p', m.(world := w'));
  }

  lemma FromHead(env: Env, bc: Bytecode, depth: seq<nat>, base: nat, w: World, c: Config, p: Place) returns (p': Place)
    requires Consistent(bc, depth) && Stands(env, bc, depth, base, w, c, p) && p.Head?
    ensures WellFormed(bc) && !p'.Entry?
    ensures Stands(env, bc, depth, base, w, Run(env, Compile(bc, base).blocks, c, 1), p')
  {
    hide *;
    InHash(env, bc, depth, base, w, c, p);
    PrefixWellFormed(bc, p.pc);
    var f, code, h, m := Compile(bc, base).blocks, CompileTo(bc, base, p.pc), HandlesAt(base), MemOf(c.st);
    var r, x, count := code.next, |code.blocks|, bc[p.pc].count;
    HashBlocksOpen(f, h, r, x, p.pc, count);
    var st' := HeadRuns(env, h, r, x, count, c.prev, c.st, m);
    HoldingKept(r, p.hash, c.st, st', r + 2);
    RunJump(env, f, x, Number(HashHead(r, x, count), r + 2), c.prev, c.st, if count > 0 then x + 1 else x + 2, st');
    if count > 0 {
      EntersFromHead(r, x, count, st'.regs);
      p' := Loop(p.pc, p.hash, count);
      HashStands(env, bc, depth, base, w, At(x + 1, x, st'), p', m);
    } else {
      p' := Tail(p.pc, p.hash);
      HashStands(env, bc, depth, base, w, At(x + 2, x, st'), p', m);
    }
  }

  lemma CellsThere(m: Mem, idx: int)
    requires MemOk(m) && Index(idx) && idx <= m.depth < CELLS
    ensures CanRead(m, idx) && (idx > 2 ==> Index(idx - 2))
  {
  }

  lemma EntersAgain(r: nat, x: nat, count: int, idx: int, regs: map<nat, Val>)
    requires Holding(Reg(r + 5), Index32(idx), regs)
    ensures Enters(r, x, count, idx, x + 1, regs)
  {
    hide Index32;
  }

  lemma FromLoop(env: Env, bc: Bytecode, depth: seq<nat>, base: nat, w: World, c: Config, p: Place) returns (p': Place)
    requires Consistent(bc, depth) && Stands(env, bc, depth, base, w, c, p) && p.Loop?
    ensures WellFormed(bc) && !p'.Entry?
    ensures Stands(env, bc, depth, base, w, Run(env, Compile(bc, base).blocks, c, 1), p')
  {
    hide *;
    InHash(env, bc, depth, base, w, c, p);
    PrefixWellFormed(bc, p.pc);
    var f, code, h, m := Compile(bc, base).blocks, CompileTo(bc, base, p.pc), HandlesAt(base), MemOf(c.st);
    var r, x, count := code.next, |code.blocks|, bc[p.pc].count;
    HashBlocksOpen(f, h, r, x, p.pc, count);
    CellsThere(m, p.idx);
    var st' := TurnRuns(env, h, r, x, count, p.hash, p.idx, c.prev, c.st, m);
    var m' := m.(world := TurnCall(env, p.hash, m, p.idx, m.world).1);
    HoldingKept(r, p.hash, c.st, st', r + 4);
    var to := if p.idx > 2 then x + 1 else x + 2;
    RunJump(env, f, x + 1, Number(HashLoop(h, r, x, count), r + 4), c.prev, c.st, to, st');
    EntersAgain(r, x, count, p.idx - 2, st'.regs);
    p' := if p.idx > 2 then Loop(p.pc, p.hash, p.idx - 2) else Tail(p.pc, p.hash);
    HashStands(env, bc, depth, base, w, At(to, x + 1, st'), p', m');
  }

  lemma Room(m: Mem)
    requires MemOk(m) && m.depth < CELLS
    ensures m.depth < |m.cells|
  {
  }

  lemma {:induction false} FromTail(env: Env, bc: Bytecode, depth: seq<nat>, base: nat, w: World, c: Config, p: Place)
    requires Consistent(bc, depth) && Stands(env, bc, depth, base, w, c, p) && p.Tail?
    ensures WellFormed(bc) && Stands(env, bc, depth, base, w, Run(env, Compile(bc, base).blocks, c, 1), Main(p.pc + 1))
  {
    hide *;
    InHash(env, bc, depth, base, w, c, p);
    PrefixWellFormed(bc, p.pc);
    DepthFacts(bc, depth, p.pc);
    var f, code, h, m := Compile(bc, base).blocks, CompileTo(bc, base, p.pc), HandlesAt(base), MemOf(c.st);
    var r, x := code.next, |code.blocks|;
    HashBlocksOpen(f, h, r, x, p.pc, bc[p.pc].count);
    var st' := TailRuns(env, h, r, p.pc, p.hash, c.prev, c.st, m);
    RunJump(env, f, x + 2, Number(HashTail(h, r, p.pc), r + 19), c.prev, c.st, BlockOf(p.pc + 1), st');
    Room(m);
    var m' := m.(cells := m.cells[m.depth := p.hash], depth := m.depth + 1);
    MainStands(env, bc, depth, base, w, At(BlockOf(p.pc + 1), x + 2, st'), p.pc + 1, m');
  }

  lemma MainStands(env: Env, bc: Bytecode, depth: seq<nat>, base: nat, w: World, c: Config, pc: nat, m: Mem)
    requires Consistent(bc, depth) && c.At? && c.block == BlockOf(pc) && pc <= |bc|
    requires Rel(HandlesAt(base), c.st, m) && m.depth == depth[pc]
    ensures Stands(env, bc, depth, base, w, c, Main(pc))
  {
    MemOfRel(HandlesAt(base), c.st, m);
    hide HandlesAt, MemOf, Rel;
  }

  lemma {:induction false} FromEntry(env: Env, bc: Bytecode, depth: seq<nat>, base: nat, w: World)
    requires Consistent(bc, depth)
    ensures WellFormed(bc) && Stands(env, bc, depth, base, w, Run(env, Compile(bc, base).blocks, Start(w), 1), Main(0))
  {
    StartMatches(env, bc, base, w);
    hide Compile, Run, HandlesAt, MemOf;
    MatchedStands(env, bc, depth, base, w, Run(env, Compile(bc, base).blocks, Start(w), 1), 0, StartVm(env, w).s);
  }

  /** Every block leads from a place to a place, or to a return, or goes wrong on a fault. */
  lemma OnePlace(env: Env, bc: Bytecode, depth: seq<nat>, base: nat, w: World, c: Config, p: Place) returns (p': Place)
    requires Consistent(bc, depth) && Stands(env, bc, depth, base, w, c, p)
    ensures WellFormed(bc) && Moved(env, bc, depth, base, w, c, p, Run(env, Compile(bc, base).blocks, c, 1), p')
  {
    hide *;
    p' := p;
    if p.Main? && !(p.pc < |bc| && bc[p.pc].NewHash?) {
      p' := FromPlain(env, bc, depth, base, w, c, p.pc);
    } else {
      NoFault(bc, depth, c, p);
      match p {
        case Entry =>
          EntryIs(env, bc, depth, base, w, c);
          FromEntry(env, bc, depth, base, w);
          p' := Main(0);
        case Main(pc) => p' := FromHash(env, bc, depth, base, w, c, pc);
        case Head(_, _) => p' := FromHead(env, bc, depth, base, w, c, p);
        case Loop(_, _, _) => p' := FromLoop(env, bc, depth, base, w, c, p);
        case Tail(pc, _) =>
          FromTail(env, bc, depth, base, w, c, p);
          p' := Main(pc + 1);
      }
      NowStands(env, bc, depth, base, w, c, p, Run(env, Compile(bc, base).blocks, c, 1), p');
    }
  }

  lemma EntryIs(env: Env, bc: Bytecode, depth: seq<nat>, base: nat, w: World, c: Config)
    requires Consistent(bc, depth) && Stands(env, bc, depth, base, w, c, Entry)
    ensures c == Start(w)
  {
  }

  lemma FromPlain(env: Env, bc: Bytecode, depth: seq<nat>, base: nat, w: World, c: Config, pc: nat) returns (p': Place)
    requires Consistent(bc, depth) && Stands(env, bc, depth, base, w, c, Main(pc))
    requires pc < |bc| ==> !bc[pc].NewHash?
    ensures WellFormed(bc) && Moved(env, bc, depth, base, w, c, Main(pc), Run(env, Compile(bc, base).blocks, c, 1), p')
  {
    hide *;
    MainIs(env, bc, depth, base, w, c, pc);
    if pc < |bc| {
      p' := FromMain(env, bc, depth, base, w, c, pc);
    } else {
      FromExit(env, bc, depth, base, w, c);
      NoFault(bc, depth, c, Main(pc));
      p' := Entry;
      NowStands(env, bc, depth, base, w, c, Main(pc), Run(env, Compile(bc, base).blocks, c, 1), p');
    }
  }

  /**
   * After n blocks, control was about to run the code of an instruction on a state where it goes wrong: for one of its
   * operands, not for the depth of the stack, nor for the count of a hash.
   */
  predicate FaultAt(env: Env, bc: Bytecode, base: nat, w: World, n: nat)
    requires WellFormed(bc)
  {
    var c := Run(env, Compile(bc, base).blocks, Start(w), n);
    c.At? && 1 <= c.block <= |bc| && MemOk(MemOf(c.st)) && Rel(HandlesAt(base), c.st, MemOf(c.st))
    && Need(bc[c.block - 1]) <= MemOf(c.st).depth && CodeFaults(bc[c.block - 1], View(MemOf(c.st)))
  }

  /** After n blocks of a run: what was shown of it so far. */
  lemma {:induction false} RunStands(env: Env, bc: Bytecode, depth: seq<nat>, base: nat, w: World, n: nat)
    returns (p: Place, j: nat)
    requires Consistent(bc, depth)
    ensures WellFormed(bc)
    ensures var c := Run(env, Compile(bc, base).blocks, Start(w), n);
      (c.At? ==> (p.Entry? ==> n == 0) && Stands(env, bc, depth, base, w, c, p))
        && (c.Wrong? ==> j < n && FaultAt(env, bc, base, w, j))
    decreases n
  {
    hide *;
    ConsistentIs(bc, depth);
    var f := Compile(bc, base).blocks;
    if n == 0 {
      p, j := Entry, 0;
      StartStands(env, bc, depth, base, w);
    } else {
      p, j := RunStands(env, bc, depth, base, w, n - 1);
      var c := Run(env, f, Start(w), n - 1);
      RunSplit(env, f, Start(w), n - 1, 1);
      if c.At? {
        var p' := OnePlace(env, bc, depth, base, w, c, p);
        MovedIs(env, bc, depth, base, w, c, p, Run(env, f, c, 1), p');
        if Breaks(bc, depth, c, p) {
          BreakIsFault(env, bc, depth, base, w, p, n - 1);
          j := n - 1;
        }
        p := p';
      } else {
        RunFinal(env, f, c, 1);
      }
    }
  }

  lemma ConsistentIs(bc: Bytecode, depth: seq<nat>)
    requires Consistent(bc, depth)
    ensures WellFormed(bc) && |depth| == |bc| + 1
  {
  }

  lemma {:induction false} StartStands(env: Env, bc: Bytecode, depth: seq<nat>, base: nat, w: World)
    requires Consistent(bc, depth)
    ensures WellFormed(bc) && Run(env, Compile(bc, base).blocks, Start(w), 0) == Start(w)
    ensures Start(w).At? && Stands(env, bc, depth, base, w, Start(w), Entry)
  {
    hide Compile, Consistent, WellFormed;
    ConsistentIs(bc, depth);
  }

  lemma MovedIs(env: Env, bc: Bytecode, depth: seq<nat>, base: nat, w: World, c: Config, p: Place, c': Config,
                p': Place)
    requires Consistent(bc, depth) && Moved(env, bc, depth, base, w, c, p, c', p')
    ensures if Breaks(bc, depth, c, p) then c'.Wrong?
            else c'.Done? || (c'.At? && !p'.Entry? && Stands(env, bc, depth, base, w, c', p'))
  {
    hide Breaks, Consistent;
  }

  lemma {:induction false} BreakIsFault(env: Env, bc: Bytecode, depth: seq<nat>, base: nat, w: World, p: Place, n: nat)
    requires Consistent(bc, depth) && WellFormed(bc)
    requires var c := Run(env, Compile(bc, base).blocks, Start(w), n);
      Stands(env, bc, depth, base, w, c, p) && Breaks(bc, depth, c, p)
    ensures FaultAt(env, bc, base, w, n)
  {
    hide Run, Compile, HandlesAt, MemOf, Consistent, CodeFaults, View, WellFormed;
  }

  lemma {:induction false} StandsSomewhere(env: Env, bc: Bytecode, depth: seq<nat>, base: nat, w: World, c: Config,
                                           p: Place)
    requires Consistent(bc, depth) && Stands(env, bc, depth, base, w, c, p) && !p.Entry?
    ensures c.At? && p.pc < |depth| && AtDepth(c.st, depth[p.pc]) && WellFormed(bc)
    ensures if p.Main? then c.block == p.pc + 1 <= |bc| + 1
      else p.pc < |bc| && bc[p.pc].NewHash?
           && var x := |CompileTo(bc, base, p.pc).blocks|; x <= c.block < x + 3
  {
    hide HandlesAt, CompileTo, WellFormed;
    ConsistentIs(bc, depth);
  }

  lemma OwnerOfMain(bc: Bytecode, base: nat, b: nat)
    requires WellFormed(bc) && 1 <= b <= |bc| + 1
    ensures Owner(bc, base, b) == b - 1
  {
    hide OwnerAmong, WellFormed;
  }

  lemma StandsAtDepth(env: Env, bc: Bytecode, depth: seq<nat>, base: nat, w: World, c: Config, p: Place)
    requires Consistent(bc, depth) && Stands(env, bc, depth, base, w, c, p) && !p.Entry?
    ensures WellFormed(bc) && |depth| == |bc| + 1
    ensures c.At? && c.block >= 1 && AtDepth(c.st, depth[Owner(bc, base, c.block)])
  {
    hide *;
    ConsistentIs(bc, depth);
    StandsSomewhere(env, bc, depth, base, w, c, p);
    if p.Main? {
      OwnerOfMain(bc, base, c.block);
    } else {
      OwnerOfHash(bc, base, p.pc, c.block);
    }
  }

  /**
   * In the compiled function, at every block that control reaches, in every run: the stack pointer stands exactly at
   * the depth of the instruction to whose code the block belongs, within the 100 cells, odd hashes included; and if the
   * function goes wrong, then for a fault that it met before, not for want of values or of room.
   */
  lemma CompiledDepth(env: Env, bc: Bytecode, depth: seq<nat>, base: nat, w: World, n: nat) returns (j: nat)
    requires Consistent(bc, depth)
    ensures WellFormed(bc)
    ensures var c := Run(env, Compile(bc, base).blocks, Start(w), n);
      (c.At? && n > 0 ==> c.block >= 1 && AtDepth(c.st, depth[Owner(bc, base, c.block)]))
      && (c.Wrong? ==> j < n && FaultAt(env, bc, base, w, j))
  {
    hide *;
    var p: Place;
    p, j := RunStands(env, bc, depth, base, w, n);
    ConsistentIs(bc, depth);
    var c := Run(env, Compile(bc, base).blocks, Start(w), n);
    if c.At? && n > 0 {
      StandsAtDepth(env, bc, depth, base, w, c, p);
    }
  }

  /** A configuration that is about to fault in the code of an instruction. */
  lemma FaultOpen(env: Env, bc: Bytecode, base: nat, w: World, n: nat) returns (c: Config)
    requires WellFormed(bc) && FaultAt(env, bc, base, w, n)
    ensures c == Run(env, Compile(bc, base).blocks, Start(w), n)
    ensures c.At? && 1 <= c.block <= |bc| && MemOk(MemOf(c.st)) && Need(bc[c.block - 1]) <= MemOf(c.st).depth
    ensures CodeFaults(bc[c.block - 1], View(MemOf(c.st)))
  {
    hide Run, Compile, WellFormed, CodeFaults, MemOf, View, Rel, HandlesAt;
    c := Run(env, Compile(bc, base).blocks, Start(w), n);
  }

  lemma FaultBreaks(bc: Bytecode, depth: seq<nat>, c: Config, pc: nat)
    requires Consistent(bc, depth) && pc < |bc| && c.At? && MemOk(MemOf(c.st)) && Need(bc[pc]) <= MemOf(c.st).depth
    requires CodeFaults(bc[pc], View(MemOf(c.st)))
    ensures Breaks(bc, depth, c, Main(pc))
  {
    hide CodeFaults, MemOf, Consistent;
  }

  lemma {:induction false} FaultPlace(env: Env, bc: Bytecode, depth: seq<nat>, base: nat, w: World, n: nat, p: Place)
    requires Consistent(bc, depth) && WellFormed(bc) && FaultAt(env, bc, base, w, n)
    requires Stands(env, bc, depth, base, w, Run(env, Compile(bc, base).blocks, Start(w), n), p)
    ensures Breaks(bc, depth, Run(env, Compile(bc, base).blocks, Start(w), n), p)
  {
    hide *;
    var c := FaultOpen(env, bc, base, w, n);
    if p.Entry? {
      EntryIs(env, bc, depth, base, w, c);
      StartBlock(w);
    } else {
      StandsSomewhere(env, bc, depth, base, w, c, p);
      if p.Main? {
        FaultBreaks(bc, depth, c, p.pc);
        MainOnly(p);
      }
    }
  }

  lemma StartBlock(w: World)
    ensures Start(w).At? && Start(w).block == 0
  {
  }

  lemma MainOnly(p: Place)
    requires p.Main?
    ensures p == Main(p.pc)
  {
  }

  /** A run goes wrong exactly when it has met such a fault. */
  lemma {:induction false} WrongIffFault(env: Env, bc: Bytecode, depth: seq<nat>, base: nat, w: World, n: nat)
    requires Consistent(bc, depth)
    ensures WellFormed(bc)
    ensures Run(env, Compile(bc, base).blocks, Start(w), n).Wrong?
            <==> exists j: nat :: j < n && FaultAt(env, bc, base, w, j)
  {
    hide *;
    ConsistentIs(bc, depth);
    var f := Compile(bc, base).blocks;
    var j0 := CompiledDepth(env, bc, depth, base, w, n);
    if j: nat :| j < n && FaultAt(env, bc, base, w, j) {
      var c := FaultOpen(env, bc, base, w, j);
      var p, _ := RunStands(env, bc, depth, base, w, j);
      FaultPlace(env, bc, depth, base, w, j, p);
      var p' := OnePlace(env, bc, depth, base, w, c, p);
      MovedIs(env, bc, depth, base, w, c, p, Run(env, f, c, 1), p');
      RunSplit(env, f, Start(w), j, 1);
      RunSplit(env, f, Start(w), j + 1, n - (j + 1));
      RunFinal(env, f, Run(env, f, Start(w), j + 1), n - (j + 1));
    }
  }
}
