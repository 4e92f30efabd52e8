// What the builder emits. Each helper method of the builder is a "builder call"; the code
// of an instruction is a list of builder calls, each of which can use the results of
// earlier ones, exactly as the Ruby methods pass values from one helper to the next.

module Emission {
  import opened Words
  import opened IR
  import opened StackMachine

  /** The values that the class variables of Builder hold while a function is compiled. */
  datatype Handles = Handles(stack: Operand, sp: Operand, locals: Operand)

  /** An argument of a builder call: the result of an earlier one, a constant, the receiver or the stack array. */
  datatype Ref = Res(k: nat) | Num(ty: IntTy, n: int) | Self | StackBase

  datatype BCall =
    | PushVal(v: Ref)
    | PopVal
    | PeekVal(n: int)
    | TopN(idx: Ref)
    | GetSlot(slot: int)
    | SetSlot(slot: int, v: Ref)
    | Fix2Int(v: Ref)
    | Num2Fix(v: Ref)
    | BinOf(op: BinOp, x: Ref, y: Ref)
    | IcmpOf(pred: Pred, x: Ref, y: Ref)
    | ToLong(v: Ref)
    | ALen(ary: Ref)
    | ARef(ary: Ref, idx: Ref)
    | ASet(ary: Ref, idx: Ref, v: Ref)
    | Invoke(callee: Callee, args: seq<Ref>)

  predicate RefOk(a: Ref, n: nat) {
    (a.Res? ==> a.k < n) && (a.Num? ==> a.ty != I1)
  }

  predicate CallOk(c: BCall, n: nat) {
    match c
    case PushVal(v) => RefOk(v, n)
    case PopVal => true
    case PeekVal(_) => true
    case TopN(v) => RefOk(v, n)
    case GetSlot(_) => true
    case SetSlot(_, v) => RefOk(v, n)
    case Fix2Int(v) => RefOk(v, n)
    case Num2Fix(v) => RefOk(v, n)
    case BinOf(_, x, y) => RefOk(x, n) && RefOk(y, n)
    case IcmpOf(_, x, y) => RefOk(x, n) && RefOk(y, n)
    case ToLong(v) => RefOk(v, n)
    case ALen(a) => RefOk(a, n)
    case ARef(a, i) => RefOk(a, n) && RefOk(i, n)
    case ASet(a, i, v) => RefOk(a, n) && RefOk(i, n) && RefOk(v, n)
    case Invoke(_, args) => forall i :: 0 <= i < |args| ==> RefOk(args[i], n)
  }

  /** Every call uses only results of calls before it; n results exist at the start. */
  predicate CallsOk(cs: seq<BCall>, n: nat) {
    forall j :: 0 <= j < |cs| ==> CallOk(cs[j], n + j)
  }

  /** Stands for a result that does not exist; CallsOk rules it out, as no other operand is a one-bit constant. */
  const MISSING: Operand := Const(I1, 0)

  function OperandOf(h: Handles, a: Ref, outs: seq<Operand>): Operand
  {
    match a
    case Res(k) => if k < |outs| then outs[k] else MISSING
    case Num(ty, n) => Const(ty, n)
    case Self => Arg(0)
    case StackBase => h.stack
  }

  const FLAG: Operand := Const(WORD, 1)

  // The instructions of each helper; r is the identity of the first of them.

  function PushOps(h: Handles, r: nat, v: Operand): seq<Op> {
    [Load(h.sp), Store(v, Reg(r)), Gep(Reg(r), Const(WORD, 1)), Store(Reg(r + 2), h.sp)]
  }

  function PopOps(h: Handles, r: nat): seq<Op> {
    [Load(h.sp), Gep(Reg(r), Const(WORD, -1)), Store(Reg(r + 1), h.sp), Load(Reg(r + 1))]
  }

  function PeekOps(h: Handles, r: nat, n: int): seq<Op> {
    [Load(h.sp), Gep(Reg(r), Const(WORD, -n)), Load(Reg(r + 1))]
  }

  function TopNOps(h: Handles, r: nat, n: Operand): seq<Op> {
    [Load(h.sp), Bin(Sub, Const(I32, -1), n), Gep(Reg(r), Reg(r + 1)), Load(Reg(r + 2))]
  }

  function GetSlotOps(h: Handles, r: nat, slot: int): seq<Op> {
    [Gep(h.locals, Const(WORD, slot)), Load(Reg(r))]
  }

  function SetSlotOps(h: Handles, r: nat, slot: int, v: Operand): seq<Op> {
    [Gep(h.locals, Const(WORD, slot)), Store(v, Reg(r))]
  }

  // The xor of fix2int is emitted and its result left unused.
  function Fix2IntOps(v: Operand): seq<Op> {
    [Bin(Xor, FLAG, v), Bin(LShr, v, Const(WORD, 1))]
  }

  function Num2FixOps(r: nat, v: Operand): seq<Op> {
    [Bin(Shl, v, Const(WORD, 1)), Bin(Xor, FLAG, Reg(r))]
  }

  function ALenOps(r: nat, ary: Operand): seq<Op> {
    [IntToPtr(ary), StructGep(Reg(r), 1), Load(Reg(r + 1))]
  }

  function ARefOps(r: nat, ary: Operand, idx: Operand): seq<Op> {
    [IntToPtr(ary), StructGep(Reg(r), 3), Load(Reg(r + 1)), Gep(Reg(r + 2), idx), Load(Reg(r + 3))]
  }

  function ASetOps(r: nat, ary: Operand, idx: Operand, v: Operand): seq<Op> {
    [IntToPtr(ary), StructGep(Reg(r), 3), Load(Reg(r + 1)), Gep(Reg(r + 2), idx), Store(v, Reg(r + 3))]
  }

  function Operands(h: Handles, args: seq<Ref>, outs: seq<Operand>): (os: seq<Operand>)
    ensures |os| == |args|
  {
    seq(|args|, i requires 0 <= i < |args| => OperandOf(h, args[i], outs))
  }

  function Ops(h: Handles, r: nat, c: BCall, outs: seq<Operand>): (ops: seq<Op>)
    ensures ops != []
  {
    match c
    case PushVal(v) => PushOps(h, r, OperandOf(h, v, outs))
    case PopVal => PopOps(h, r)
    case PeekVal(n) => PeekOps(h, r, n)
    case TopN(n) => TopNOps(h, r, OperandOf(h, n, outs))
    case GetSlot(slot) => GetSlotOps(h, r, slot)
    case SetSlot(slot, v) => SetSlotOps(h, r, slot, OperandOf(h, v, outs))
    case Fix2Int(v) => Fix2IntOps(OperandOf(h, v, outs))
    case Num2Fix(v) => Num2FixOps(r, OperandOf(h, v, outs))
    case BinOf(op, x, y) => [Bin(op, OperandOf(h, x, outs), OperandOf(h, y, outs))]
    case IcmpOf(pred, x, y) => [Icmp(pred, OperandOf(h, x, outs), OperandOf(h, y, outs))]
    case ToLong(v) => [IntCast(OperandOf(h, v, outs), WORD, false)]
    case ALen(a) => ALenOps(r, OperandOf(h, a, outs))
    case ARef(a, i) => ARefOps(r, OperandOf(h, a, outs), OperandOf(h, i, outs))
    case ASet(a, i, v) => ASetOps(r, OperandOf(h, a, outs), OperandOf(h, i, outs), OperandOf(h, v, outs))
    case Invoke(callee, args) => [Op.Call(callee, Operands(h, args, outs))]
  }

  /** The instructions of a list of calls, from the k-th on. */
  function AllOps(h: Handles, r: nat, cs: seq<BCall>, k: nat, outs: seq<Operand>): seq<Op>
    requires k <= |cs|
    decreases |cs| - k
  {
    if k == |cs| then []
    else
      var ops := Ops(h, r, cs[k], outs);
      ops + AllOps(h, r + |ops|, cs, k + 1, outs + [Reg(r + |ops| - 1)])
  }

  /** The results of a list of calls, after the results that exist at the start. */
  function AllOuts(h: Handles, r: nat, cs: seq<BCall>, k: nat, outs: seq<Operand>): (outs': seq<Operand>)
    requires k <= |cs|
    ensures |outs'| == |outs| + |cs| - k
    decreases |cs| - k
  {
    if k == |cs| then outs
    else
      var ops := Ops(h, r, cs[k], outs);
      AllOuts(h, r + |ops|, cs, k + 1, outs + [Reg(r + |ops| - 1)])
  }

  /** Instructions are numbered in the order in which they are created. */
  function Number(ops: seq<Op>, r: nat): (code: Block)
    ensures |code| == |ops|
    ensures forall i :: 0 <= i < |ops| ==> code[i] == Instr(r + i, ops[i])
  {
    seq(|ops|, i requires 0 <= i < |ops| => Instr(r + i, ops[i]))
  }

  lemma NumberAppend(a: seq<Op>, b: seq<Op>, r: nat)
    ensures Number(a + b, r) == Number(a, r) + Number(b, r + |a|)
  {
  }

  // ---------- the calls that each instruction makes ----------

  function Word(n: int): Ref {
    Num(WORD, n)
  }

  function ArithCalls(op: BinOp, x: nat, y: nat): seq<BCall> {
    [PopVal, Fix2Int(Res(0)), PopVal, Fix2Int(Res(2)), BinOf(op, Res(x), Res(y)), Num2Fix(Res(4)), PushVal(Res(5))]
  }

  function CompareCalls(pred: Pred): seq<BCall> {
    [PopVal, PopVal, Fix2Int(Res(1)), Fix2Int(Res(0)), IcmpOf(pred, Res(2), Res(3)),
     ToLong(Res(4)), BinOf(Mul, Res(5), Word(2)), PushVal(Res(6))]
  }

  function Calls(insn: Insn): seq<BCall> {
    match insn
    case Nop => []
    case PutNil => [PushVal(Word(NIL))]
    case PutSelf => [PushVal(Self)]
    case PutObject(n) => [PushVal(Word(n))]
    case Pop => [PopVal]
    case Dup => [PeekVal(1), PushVal(Res(0))]
    case Swap => [PopVal, PopVal, PushVal(Res(0)), PushVal(Res(1))]
    case SetLocal(k) => [PopVal, SetSlot(k, Res(0))]
    case GetLocal(k) => [GetSlot(k), PushVal(Res(0))]
    case OptPlus => ArithCalls(Add, 1, 3)
    case OptMinus => ArithCalls(Sub, 3, 1)
    case OptMult => ArithCalls(Mul, 1, 3)
    case OptAref => [PopVal, Fix2Int(Res(0)), PopVal, ARef(Res(2), Res(1)), PushVal(Res(3))]
    case OptAset =>
      [PopVal, PopVal, Fix2Int(Res(1)), PopVal, Invoke(AryStore, [Res(3), Res(2), Res(0)]), PushVal(Res(0))]
    case OptLength => [PopVal, ALen(Res(0)), Num2Fix(Res(1)), PushVal(Res(2))]
    case OptLt => CompareCalls(Slt)
    case OptGt => CompareCalls(Sgt)
    case OptGe => CompareCalls(Sge)
    case GetIvar(sym) => [Invoke(ToId, [Word(sym)]), Invoke(IvarGet, [Self, Res(0)]), PushVal(Res(1))]
    case SetIvar(sym) => [PeekVal(1), Invoke(ToId, [Word(sym)]), Invoke(IvarSet, [Self, Res(1), Res(0)])]
    case NewArray => [Invoke(AryNew, []), PushVal(Res(0))]
    case Send =>
      [Invoke(ToId, [Word(INSPECT)]),
       Invoke(Funcall2, [Word(NIL), Res(0), Num(I32, 0), StackBase]),
       PushVal(Res(1))]
    case _ => []
  }

  /** The test of a conditional branch: pop a word and compare it with 0. */
  function TestCalls(): seq<BCall> {
    [PopVal, IcmpOf(Eq, Res(0), Word(0))]
  }

  function Num32(n: int): Ref {
    Num(I32, n)
  }

  /** One turn of the loop of newhash; result 0 is the hash, result 1 the loop index. */
  function LoopCalls(): seq<BCall> {
    [BinOf(Sub, Res(1), Num32(2)),
     BinOf(Sub, Res(1), Num32(1)),
     BinOf(Sub, Res(1), Num32(2)),
     TopN(Res(3)),
     TopN(Res(4)),
     Invoke(HashAset, [Res(0), Res(5), Res(6)]),
     IcmpOf(Sgt, Res(2), Num32(0))]
  }

  lemma ArithScoped(op: BinOp, x: nat, y: nat)
    requires x < 4 && y < 4
    ensures CallsOk(ArithCalls(op, x, y), 0)
  {
  }

  lemma CompareScoped(pred: Pred)
    ensures CallsOk(CompareCalls(pred), 0)
  {
  }

  /** No list uses a result before it exists. */
  lemma CallsScoped(insn: Insn)
    ensures CallsOk(Calls(insn), 0)
  {
    match insn
    case OptPlus => ArithScoped(Add, 1, 3);
    case OptMinus => ArithScoped(Sub, 3, 1);
    case OptMult => ArithScoped(Mul, 1, 3);
    case OptLt => CompareScoped(Slt);
    case OptGt => CompareScoped(Sgt);
    case OptGe => CompareScoped(Sge);
    case _ =>
      hide ArithCalls, CompareCalls;
  }

  lemma LoopCallsScoped()
    ensures CallsOk(TestCalls(), 0) && CallsOk(LoopCalls(), 2)
  {
  }
}
