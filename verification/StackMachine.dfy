// The source language: a stack bytecode, with the meaning that its compiler gives it.

module StackMachine {
  import opened Options
  import opened Words
  import opened IR
  import opened Machine

  datatype Insn =
    | Nop
    | PutNil
    | PutSelf
    | PutObject(word: int)
    | Pop
    | Dup
    | Swap
    | SetLocal(slot: int)
    | GetLocal(slot: int)
    | OptPlus
    | OptMinus
    | OptMult
    | OptAref
    | OptAset
    | OptLength
    | OptLt
    | OptGt
    | OptGe
    | GetIvar(sym: int)
    | SetIvar(sym: int)
    | NewArray
    | NewHash(count: int)
    | Send
    | Jump(target: int)
    | BranchIf(target: int)
    | BranchUnless(target: int)

  type Bytecode = seq<Insn>

  const CELLS: nat := 100

  /** The words for nil and for the symbol :inspect; they depend on the interpreter. */
  const NIL: int
  const INSPECT: int

  /** Ruby indexing into the n + 1 blocks: a negative index counts from the end. */
  predicate ValidTarget(n: nat, target: int) {
    -(n + 1) <= target <= n
  }

  function Target(n: nat, target: int): nat
    requires ValidTarget(n, target)
  {
    if target < 0 then n + 1 + target else target
  }

  predicate WellFormedInsn(n: nat, insn: Insn) {
    match insn
    case Jump(t) => ValidTarget(n, t)
    case BranchIf(t) => ValidTarget(n, t)
    case BranchUnless(t) => ValidTarget(n, t)
    case SetLocal(s) => CInt(s)
    case GetLocal(s) => CInt(s)
    case NewHash(c) => CInt(c)
    case _ => true
  }

  /** What compile_bytecode needs in order not to raise. */
  predicate WellFormed(bc: Bytecode) {
    WellFormedTo(bc, |bc|)
  }

  predicate WellFormedTo(bc: Bytecode, k: nat)
    requires k <= |bc|
  {
    forall i :: 0 <= i < k ==> WellFormedInsn(|bc|, bc[i])
  }

  lemma PrefixWellFormed(bc: Bytecode, k: nat)
    requires WellFormed(bc) && k <= |bc|
    ensures WellFormedTo(bc, k)
  {
  }

  /** A hash literal lists its keys and values alternately. */
  predicate PairedHashes(bc: Bytecode) {
    forall i :: 0 <= i < |bc| && bc[i].NewHash? && bc[i].count > 0 ==> bc[i].count % 2 == 0
  }

  // ---------- tagged integers ----------

  predicate IsWord(v: Val) {
    v.Int? && v.ty == WORD
  }

  /** A fixnum's payload, as fix2int extracts it: without regard to sign. */
  function Untag(v: Val): int
    requires IsWord(v)
  {
    Norm(WORD, v.n) / 2
  }

  function Tag(n: int): Val {
    WordVal(2 * n + 1)
  }

  /** The word for true is 2, the word for false is 0. */
  function Bool(b: bool): Val {
    WordVal(if b then 2 else 0)
  }

  // ---------- one instruction ----------

  /** Everything an instruction can touch. */
  datatype Frame = Frame(stack: seq<Val>, locals: seq<Val>, world: World)

  function Push(s: Frame, v: Val): Option<Frame> {
    if |s.stack| < CELLS then Some(s.(stack := s.stack + [v])) else None
  }

  /** The n-th value from the top, counting from 1. */
  function Top(s: Frame, n: nat): Val
    requires 1 <= n <= |s.stack|
  {
    s.stack[|s.stack| - n]
  }

  function Drop(s: Frame, n: nat): Frame
    requires n <= |s.stack|
  {
    s.(stack := s.stack[..|s.stack| - n])
  }

  function CallWith(rt: Runtime, s: Frame, callee: Callee, args: seq<Val>): (Val, Frame) {
    var (v, w) := CallRuntime(rt, callee, args, s.world);
    (v, s.(world := w))
  }

  function Arith(s: Frame, f: (int, int) -> int): Option<Frame> {
    if |s.stack| < 2 || !IsWord(Top(s, 1)) || !IsWord(Top(s, 2)) then None
    else Push(Drop(s, 2), Tag(f(Untag(Top(s, 2)), Untag(Top(s, 1)))))
  }

  function Compare(s: Frame, p: (int, int) -> bool): Option<Frame> {
    if |s.stack| < 2 || !IsWord(Top(s, 1)) || !IsWord(Top(s, 2)) then None
    else Push(Drop(s, 2), Bool(p(Untag(Top(s, 2)), Untag(Top(s, 1)))))
  }

  /** rb_hash_aset for each key and the value that follows it. */
  function SetPairs(rt: Runtime, hash: Val, xs: seq<Val>, w: World): World {
    if |xs| < 2 then w
    else SetPairs(rt, hash, xs[2..], CallRuntime(rt, HashAset, [hash, xs[0], xs[1]], w).1)
  }

  /**
   * The effect of an instruction that does not branch; None when it has no meaning. A hash of an odd count has none:
   * what its code does is not a function of the stack.
   */
  function Effect(env: Env, insn: Insn, s: Frame): Option<Frame>
  {
    var self := env.self;
    var d := |s.stack|;
    match insn
    case Nop => Some(s)
    case PutNil => Push(s, WordVal(NIL))
    case PutSelf => Push(s, self)
    case PutObject(n) => Push(s, WordVal(n))
    case Pop => if d < 1 then None else Some(Drop(s, 1))
    case Dup => if d < 1 then None else Push(s, Top(s, 1))
    case Swap =>
      if d < 2 then None
      else Some(s.(stack := s.stack[..d - 2] + [Top(s, 1), Top(s, 2)]))
    case SetLocal(k) =>
      if d < 1 || !(0 <= k < |s.locals|) then None
      else Some(Drop(s, 1).(locals := s.locals[k := Top(s, 1)]))
    case GetLocal(k) =>
      if !(0 <= k < |s.locals|) then None else Push(s, s.locals[k])
    case OptPlus => Arith(s, (x, y) => x + y)
    case OptMinus => Arith(s, (x, y) => x - y)
    case OptMult => Arith(s, (x, y) => x * y)
    case OptLt => Compare(s, (x, y) => x < y)
    case OptGt => Compare(s, (x, y) => x > y)
    case OptGe => Compare(s, (x, y) => x >= y)
    case OptAref =>
      if d < 2 || !IsWord(Top(s, 1)) || !IsWord(Top(s, 2)) then None
      else
        var addr, idx := Norm(WORD, Top(s, 2).n), Untag(Top(s, 1));
        if addr in s.world.arrays && idx < |s.world.arrays[addr]|
        then Push(Drop(s, 2), WordVal(s.world.arrays[addr][idx]))
        else None
    case OptAset =>
      if d < 3 || !IsWord(Top(s, 2)) then None
      else
        var args := [Top(s, 3), Int(WORD, Untag(Top(s, 2))), Top(s, 1)];
        Push(Drop(CallWith(env.rt, s, AryStore, args).1, 3), Top(s, 1))
    case OptLength =>
      if d < 1 || !IsWord(Top(s, 1)) || Norm(WORD, Top(s, 1).n) !in s.world.arrays then None
      else Push(Drop(s, 1), Tag(|s.world.arrays[Norm(WORD, Top(s, 1).n)]|))
    case GetIvar(sym) =>
      var (id, s1) := CallWith(env.rt, s, ToId, [WordVal(sym)]);
      var (v, s2) := CallWith(env.rt, s1, IvarGet, [self, id]);
      Push(s2, v)
    case SetIvar(sym) =>
      if d < 1 then None
      else
        var (id, s1) := CallWith(env.rt, s, ToId, [WordVal(sym)]);
        Some(CallWith(env.rt, s1, IvarSet, [self, id, Top(s, 1)]).1)
    case NewArray =>
      var (a, s1) := CallWith(env.rt, s, AryNew, []);
      Push(s1, a)
    case NewHash(count) =>
      var (h, s1) := CallWith(env.rt, s, HashNew, []);
      if count <= 0 then Push(s1, h)
      else if d < count || count % 2 == 1 then None
      else Push(s1.(world := SetPairs(env.rt, h, s.stack[d - count..], s1.world)), h)
    case Send =>
      var (id, s1) := CallWith(env.rt, s, ToId, [WordVal(INSPECT)]);
      var (v, s2) := CallWith(env.rt, s1, Funcall2, [WordVal(NIL), id, Int(I32, 0), Cell(0, 0)]);
      Push(s2, v)
    case _ => None
  }

  // ---------- runs ----------

  datatype Vm =
    | Running(pc: nat, s: Frame)
    | Finished(v: Val, s: Frame)
    | Failed

  predicate IsJump(insn: Insn) {
    insn.Jump? || insn.BranchIf? || insn.BranchUnless?
  }

  /** Compiles to code in a single block that runs on to the next instruction. */
  predicate IsStraight(insn: Insn) {
    !IsJump(insn) && !insn.NewHash?
  }

  lemma KindsOf(insn: Insn)
    ensures IsJump(insn) || IsStraight(insn) || insn.NewHash?
    ensures IsJump(insn) <==> insn.Jump? || insn.BranchIf? || insn.BranchUnless?
  {
  }

  /** Only the word 0 is false. */
  predicate IsZero(v: Val)
    requires IsWord(v)
  {
    Norm(WORD, v.n) == 0
  }

  function StepVm(env: Env, bc: Bytecode, c: Vm): Vm
    requires WellFormed(bc)
  {
    match c
    case Running(pc, s) =>
      if pc > |bc| then Failed
      else if pc == |bc| then
        if |s.stack| == 0 then Failed else Finished(Top(s, 1), Drop(s, 1))
      else (
        match bc[pc]
        case Jump(t) => Running(Target(|bc|, t), s)
        case BranchIf(t) =>
          if |s.stack| == 0 || !IsWord(Top(s, 1)) then Failed
          else Running(if IsZero(Top(s, 1)) then pc + 1 else Target(|bc|, t), Drop(s, 1))
        case BranchUnless(t) =>
          if |s.stack| == 0 || !IsWord(Top(s, 1)) then Failed
          else Running(if IsZero(Top(s, 1)) then Target(|bc|, t) else pc + 1, Drop(s, 1))
        case insn =>
          var r := Effect(env, insn, s);
          if r.None? then Failed else Running(pc + 1, r.value)
      )
    case _ => c
  }

  /** Starts with the second argument on the stack and 100 uninitialised locals. */
  function StartVm(env: Env, w: World): Vm
  {
    Running(0, Frame([env.arg], seq(CELLS, _ => Undef), w))
  }

  function RunVm(env: Env, bc: Bytecode, c: Vm, steps: nat): Vm
    requires WellFormed(bc)
    decreases steps
  {
    if steps == 0 then c else RunVm(env, bc, StepVm(env, bc, c), steps - 1)
  }
}
