// Every instruction of a compiled function fits the types of its operands.

module Typing {
  import opened Options
  import opened Words
  import opened IR
  import opened StackMachine
  import opened Emission
  import opened Codegen
  import opened WellFormedness

  // ---------- types of instructions ----------

  /** The type of each register. */
  type Types = map<nat, Ty>

  function TypeOf(o: Operand, tys: Types): Option<Ty> {
    match o
    case Const(ty, _) => Some(IntT(ty))
    case Arg(i) => if i < 2 then Some(VALUE) else None
    case Reg(id) => if id in tys then Some(tys[id]) else None
  }

  /** The declared parameters of the interpreter's functions; each of them returns a VALUE. */
  function Params(callee: Callee): seq<Ty> {
    match callee
    case AryNew => []
    case HashNew => []
    case HashAset => [VALUE, VALUE, VALUE]
    case AryStore => [VALUE, VALUE, VALUE]
    case ToId => [VALUE]
    case IvarGet => [VALUE, VALUE]
    case IvarSet => [VALUE, VALUE, VALUE]
    case Funcall2 => [VALUE, VALUE, IntT(I32), P_VALUE]
  }

  predicate IsInt(t: Option<Ty>) {
    t.Some? && t.value.IntT?
  }

  /** The type of the result of an instruction; None when an operand does not fit. */
  function OpType(op: Op, tys: Types): Option<Ty> {
    match op
    case Alloca(elem, _) => Some(PtrT(elem))
    case Load(p) =>
      var t := TypeOf(p, tys);
      if t.Some? && t.value.PtrT? then Some(t.value.to) else None
    case Store(v, p) =>
      var t := TypeOf(v, tys);
      if t.Some? && TypeOf(p, tys) == Some(PtrT(t.value)) then Some(VoidT) else None
    case Gep(p, index) =>
      var t := TypeOf(p, tys);
      if t.Some? && t.value.PtrT? && IsInt(TypeOf(index, tys)) then t else None
    case StructGep(p, field) =>
      if TypeOf(p, tys) != Some(ArrayT) then None
      else if field == 1 || field == 2 then Some(P_VALUE)
      else if field == 3 then Some(PtrT(P_VALUE))
      else None
    case IntToPtr(v) => if TypeOf(v, tys) == Some(VALUE) then Some(ArrayT) else None
    case Bin(_, x, y) => if IsInt(TypeOf(x, tys)) && TypeOf(x, tys) == TypeOf(y, tys) then TypeOf(x, tys) else None
    case Icmp(_, x, y) =>
      if IsInt(TypeOf(x, tys)) && TypeOf(x, tys) == TypeOf(y, tys) then Some(IntT(I1)) else None
    case IntCast(v, ty, _) => if IsInt(TypeOf(v, tys)) then Some(IntT(ty)) else None
    case Phi(incoming) =>
      var t := if incoming == [] then None else TypeOf(incoming[0].0, tys);
      if t.Some? && forall i :: 0 <= i < |incoming| ==> TypeOf(incoming[i].0, tys) == t then t else None
    case Call(callee, args) => if ArgsFit(Params(callee), args, tys) then Some(VALUE) else None
    case Br(_) => Some(VoidT)
    case CondBr(cond, _, _) => if TypeOf(cond, tys) == Some(IntT(I1)) then Some(VoidT) else None
    case Ret(v) => if TypeOf(v, tys) == Some(VALUE) then Some(VoidT) else None
  }

  predicate ArgsFit(params: seq<Ty>, args: seq<Operand>, tys: Types) {
    |args| == |params| && forall i :: 0 <= i < |args| ==> TypeOf(args[i], tys) == Some(params[i])
  }

  predicate TypedBy(f: Func, tys: Types) {
    forall b, k :: 0 <= b < |f| && 0 <= k < |f[b]| ==>
      f[b][k].id in tys && OpType(f[b][k].op, tys) == Some(tys[f[b][k].id])
  }

  /** The registers can be given types that every instruction fits. */
  ghost predicate IsTyped(f: Func) {
    exists tys: Types :: TypedBy(f, tys)
  }

  // ---------- types of helper calls ----------

  function RefType(a: Ref, outs: seq<Ty>): Option<Ty> {
    match a
    case Res(k) => if k < |outs| then Some(outs[k]) else None
    case Num(ty, _) => Some(IntT(ty))
    case Self => Some(VALUE)
    case StackBase => Some(P_VALUE)
  }

  predicate RefsFit(params: seq<Ty>, args: seq<Ref>, outs: seq<Ty>) {
    |args| == |params| && forall i :: 0 <= i < |args| ==> RefType(args[i], outs) == Some(params[i])
  }

  /** The types of the instructions of a helper call, given those of the results so far. */
  function CallTypes(c: BCall, outs: seq<Ty>): (tys: Option<seq<Ty>>)
    ensures tys.Some? ==> tys.value != []
  {
    match c
    case PushVal(v) =>
      if RefType(v, outs) == Some(VALUE) then Some([P_VALUE, VoidT, P_VALUE, VoidT]) else None
    case PopVal => Some([P_VALUE, P_VALUE, VoidT, VALUE])
    case PeekVal(_) => Some([P_VALUE, P_VALUE, VALUE])
    case TopN(n) =>
      if RefType(n, outs) == Some(IntT(I32)) then Some([P_VALUE, IntT(I32), P_VALUE, VALUE]) else None
    case GetSlot(_) => Some([P_VALUE, VALUE])
    case SetSlot(_, v) => if RefType(v, outs) == Some(VALUE) then Some([P_VALUE, VoidT]) else None
    case Fix2Int(v) => if RefType(v, outs) == Some(VALUE) then Some([VALUE, VALUE]) else None
    case Num2Fix(v) => if RefType(v, outs) == Some(VALUE) then Some([VALUE, VALUE]) else None
    case BinOf(_, x, y) =>
      if IsInt(RefType(x, outs)) && RefType(x, outs) == RefType(y, outs) then Some([RefType(x, outs).value]) else None
    case IcmpOf(_, x, y) =>
      if IsInt(RefType(x, outs)) && RefType(x, outs) == RefType(y, outs) then Some([IntT(I1)]) else None
    case ToLong(v) => if IsInt(RefType(v, outs)) then Some([VALUE]) else None
    case ALen(a) => if RefType(a, outs) == Some(VALUE) then Some([ArrayT, P_VALUE, VALUE]) else None
    case ARef(a, i) =>
      if RefType(a, outs) == Some(VALUE) && IsInt(RefType(i, outs))
      then Some([ArrayT, PtrT(P_VALUE), P_VALUE, P_VALUE, VALUE]) else None
    case ASet(a, i, v) =>
      if RefType(a, outs) == Some(VALUE) && IsInt(RefType(i, outs)) && RefType(v, outs) == Some(VALUE)
      then Some([ArrayT, PtrT(P_VALUE), P_VALUE, P_VALUE, VoidT]) else None
    case Invoke(callee, args) => if RefsFit(Params(callee), args, outs) then Some([VALUE]) else None
  }

  /** Those of a list of calls, from the k-th on. */
  function AllTypes(cs: seq<BCall>, k: nat, outs: seq<Ty>): Option<seq<Ty>>
    requires k <= |cs|
    decreases |cs| - k
  {
    if k == |cs| then Some([])
    else
      var tys := CallTypes(cs[k], outs);
      if tys.None? then None
      else
        var rest := AllTypes(cs, k + 1, outs + [tys.value[|tys.value| - 1]]);
        if rest.None? then None else Some(tys.value + rest.value)
  }

  /** The registers from r on have these types. */
  predicate Assigned(tys: Types, r: nat, want: seq<Ty>) {
    forall k :: 0 <= k < |want| ==> TypeOf(Reg(r + k), tys) == Some(want[k])
  }

  /** The instructions have these types. */
  predicate Fits(ops: seq<Op>, tys: Types, want: seq<Ty>) {
    |want| == |ops| && forall k :: 0 <= k < |ops| ==> OpType(ops[k], tys) == Some(want[k])
  }

  predicate HandlesTyped(h: Handles, tys: Types) {
    TypeOf(h.stack, tys) == Some(P_VALUE) && TypeOf(h.sp, tys) == Some(PtrT(P_VALUE))
    && TypeOf(h.locals, tys) == Some(P_VALUE)
  }

  predicate OutsTyped(outs: seq<Operand>, want: seq<Ty>, tys: Types) {
    |outs| == |want| && forall k :: 0 <= k < |outs| ==> TypeOf(outs[k], tys) == Some(want[k])
  }

  lemma RefFits(h: Handles, a: Ref, outs: seq<Operand>, want: seq<Ty>, tys: Types)
    requires HandlesTyped(h, tys) && OutsTyped(outs, want, tys) && RefType(a, want).Some?
    ensures TypeOf(OperandOf(h, a, outs), tys) == RefType(a, want)
  {
  }

  lemma StackOpsFit(h: Handles, r: nat, v: Operand, n: int, tys: Types)
    requires HandlesTyped(h, tys)
    ensures TypeOf(v, tys) == Some(VALUE) && Assigned(tys, r, [P_VALUE, VoidT, P_VALUE, VoidT]) ==>
              Fits(PushOps(h, r, v), tys, [P_VALUE, VoidT, P_VALUE, VoidT])
    ensures Assigned(tys, r, [P_VALUE, P_VALUE, VoidT, VALUE]) ==>
              Fits(PopOps(h, r), tys, [P_VALUE, P_VALUE, VoidT, VALUE])
    ensures Assigned(tys, r, [P_VALUE, P_VALUE, VALUE]) ==> Fits(PeekOps(h, r, n), tys, [P_VALUE, P_VALUE, VALUE])
  {
    if Assigned(tys, r, [P_VALUE, VoidT, P_VALUE, VoidT]) {
      AssignedAt(tys, r, [P_VALUE, VoidT, P_VALUE, VoidT]);
    }
    if Assigned(tys, r, [P_VALUE, P_VALUE, VoidT, VALUE]) {
      AssignedAt(tys, r, [P_VALUE, P_VALUE, VoidT, VALUE]);
    }
    if Assigned(tys, r, [P_VALUE, P_VALUE, VALUE]) {
      AssignedAt(tys, r, [P_VALUE, P_VALUE, VALUE]);
    }
    hide TypeOf, Assigned;
  }

  /** The first registers, one by one. */
  lemma AssignedAt(tys: Types, r: nat, want: seq<Ty>)
    requires Assigned(tys, r, want)
    ensures |want| > 0 ==> TypeOf(Reg(r), tys) == Some(want[0])
    ensures |want| > 1 ==> TypeOf(Reg(r + 1), tys) == Some(want[1])
    ensures |want| > 2 ==> TypeOf(Reg(r + 2), tys) == Some(want[2])
    ensures |want| > 3 ==> TypeOf(Reg(r + 3), tys) == Some(want[3])
  {
    hide TypeOf;
  }

  lemma ConstTypes(tys: Types)
    ensures forall ty, n :: TypeOf(Const(ty, n), tys) == Some(IntT(ty))
    ensures VALUE == IntT(WORD) && P_VALUE == PtrT(VALUE)
  {
  }

  lemma SlotOpsFit(h: Handles, r: nat, v: Operand, n: int, tys: Types)
    requires HandlesTyped(h, tys)
    ensures Assigned(tys, r, [P_VALUE, VALUE]) ==> Fits(GetSlotOps(h, r, n), tys, [P_VALUE, VALUE])
    ensures Assigned(tys, r, [P_VALUE, VoidT]) && TypeOf(v, tys) == Some(VALUE) ==>
              Fits(SetSlotOps(h, r, n, v), tys, [P_VALUE, VoidT])
  {
    if Assigned(tys, r, [P_VALUE, VALUE]) {
      AssignedAt(tys, r, [P_VALUE, VALUE]);
    }
    if Assigned(tys, r, [P_VALUE, VoidT]) {
      AssignedAt(tys, r, [P_VALUE, VoidT]);
    }
    ConstTypes(tys);
    hide TypeOf, Assigned;
  }

  lemma TopNFits(h: Handles, r: nat, n: Operand, tys: Types)
    requires HandlesTyped(h, tys) && TypeOf(n, tys) == Some(IntT(I32))
    requires Assigned(tys, r, [P_VALUE, IntT(I32), P_VALUE, VALUE])
    ensures Fits(TopNOps(h, r, n), tys, [P_VALUE, IntT(I32), P_VALUE, VALUE])
  {
    AssignedAt(tys, r, [P_VALUE, IntT(I32), P_VALUE, VALUE]);
    ConstTypes(tys);
    hide TypeOf, Assigned;
  }

  lemma FixOpsFit(r: nat, v: Operand, tys: Types)
    requires TypeOf(v, tys) == Some(VALUE) && Assigned(tys, r, [VALUE, VALUE])
    ensures Fits(Fix2IntOps(v), tys, [VALUE, VALUE]) && Fits(Num2FixOps(r, v), tys, [VALUE, VALUE])
  {
    AssignedAt(tys, r, [VALUE, VALUE]);
    ConstTypes(tys);
    hide TypeOf, Assigned;
  }

  lemma ALenFits(r: nat, a: Operand, tys: Types)
    requires TypeOf(a, tys) == Some(VALUE) && Assigned(tys, r, [ArrayT, P_VALUE, VALUE])
    ensures Fits(ALenOps(r, a), tys, [ArrayT, P_VALUE, VALUE])
  {
    AssignedAt(tys, r, [ArrayT, P_VALUE, VALUE]);
    ConstTypes(tys);
    hide TypeOf, Assigned;
  }

  lemma ElementOpsFit(r: nat, a: Operand, i: Operand, v: Operand, tys: Types)
    requires TypeOf(a, tys) == Some(VALUE) && IsInt(TypeOf(i, tys))
    ensures Assigned(tys, r, [ArrayT, PtrT(P_VALUE), P_VALUE, P_VALUE, VALUE]) ==>
              Fits(ARefOps(r, a, i), tys, [ArrayT, PtrT(P_VALUE), P_VALUE, P_VALUE, VALUE])
    ensures Assigned(tys, r, [ArrayT, PtrT(P_VALUE), P_VALUE, P_VALUE, VoidT]) && TypeOf(v, tys) == Some(VALUE) ==>
              Fits(ASetOps(r, a, i, v), tys, [ArrayT, PtrT(P_VALUE), P_VALUE, P_VALUE, VoidT])
  {
    if Assigned(tys, r, [ArrayT, PtrT(P_VALUE), P_VALUE, P_VALUE, VALUE]) {
      AssignedAt(tys, r, [ArrayT, PtrT(P_VALUE), P_VALUE, P_VALUE, VALUE]);
    }
    if Assigned(tys, r, [ArrayT, PtrT(P_VALUE), P_VALUE, P_VALUE, VoidT]) {
      AssignedAt(tys, r, [ArrayT, PtrT(P_VALUE), P_VALUE, P_VALUE, VoidT]);
    }
    ConstTypes(tys);
    hide TypeOf, Assigned;
  }

  lemma InvokeFits(h: Handles, callee: Callee, args: seq<Ref>, outs: seq<Operand>, want: seq<Ty>, tys: Types)
    requires HandlesTyped(h, tys) && OutsTyped(outs, want, tys) && RefsFit(Params(callee), args, want)
    ensures OpType(Op.Call(callee, Operands(h, args, outs)), tys) == Some(VALUE)
  {
    forall i | 0 <= i < |args|
      ensures TypeOf(OperandOf(h, args[i], outs), tys) == Some(Params(callee)[i])
    {
      RefFits(h, args[i], outs, want, tys);
    }
    hide TypeOf, OperandOf, RefType, Params;
  }

  lemma OneFits(op: Op, tys: Types, t: Ty)
    requires OpType(op, tys) == Some(t)
    ensures Fits([op], tys, [t])
  {
    hide OpType;
  }

  /** The instructions of a helper call have the types that the call says. */
  lemma CallFits(h: Handles, r: nat, c: BCall, outs: seq<Operand>, want: seq<Ty>, tys: Types)
    requires HandlesTyped(h, tys) && OutsTyped(outs, want, tys) && CallTypes(c, want).Some?
    requires Assigned(tys, r, CallTypes(c, want).value)
    ensures Fits(Ops(h, r, c, outs), tys, CallTypes(c, want).value)
  {
    hide TypeOf, HandlesTyped, OutsTyped, RefType, Assigned, Fits, PushOps, PopOps, PeekOps, TopNOps, GetSlotOps,
         SetSlotOps, Fix2IntOps, Num2FixOps, ALenOps, ARefOps, ASetOps, OperandOf, Operands, RefsFit;
    forall a | RefType(a, want).Some?
      ensures TypeOf(OperandOf(h, a, outs), tys) == RefType(a, want)
    {
      RefFits(h, a, outs, want, tys);
    }
    match c
    case PushVal(v) => StackOpsFit(h, r, OperandOf(h, v, outs), 0, tys);
    case PopVal => StackOpsFit(h, r, h.sp, 0, tys);
    case PeekVal(n) => StackOpsFit(h, r, h.sp, n, tys);
    case TopN(n) => TopNFits(h, r, OperandOf(h, n, outs), tys);
    case GetSlot(n) => SlotOpsFit(h, r, h.sp, n, tys);
    case SetSlot(n, v) => SlotOpsFit(h, r, OperandOf(h, v, outs), n, tys);
    case Fix2Int(v) => FixOpsFit(r, OperandOf(h, v, outs), tys);
    case Num2Fix(v) => FixOpsFit(r, OperandOf(h, v, outs), tys);
    case BinOf(op, x, y) => OneFits(Bin(op, OperandOf(h, x, outs), OperandOf(h, y, outs)), tys, RefType(x, want).value);
    case IcmpOf(pred, x, y) => OneFits(Icmp(pred, OperandOf(h, x, outs), OperandOf(h, y, outs)), tys, IntT(I1));
    case ToLong(v) =>
      ConstTypes(tys);
      OneFits(IntCast(OperandOf(h, v, outs), WORD, false), tys, VALUE);
    case ALen(a) => ALenFits(r, OperandOf(h, a, outs), tys);
    case ARef(a, i) => ElementOpsFit(r, OperandOf(h, a, outs), OperandOf(h, i, outs), h.sp, tys);
    case ASet(a, i, v) =>
      ElementOpsFit(r, OperandOf(h, a, outs), OperandOf(h, i, outs), OperandOf(h, v, outs), tys);
    case Invoke(callee, args) =>
      InvokeFits(h, callee, args, outs, want, tys);
      OneFits(Op.Call(callee, Operands(h, args, outs)), tys, VALUE);
  }

  lemma AssignedSplit(tys: Types, r: nat, a: seq<Ty>, b: seq<Ty>)
    requires Assigned(tys, r, a + b)
    ensures Assigned(tys, r, a) && Assigned(tys, r + |a|, b)
  {
    hide TypeOf;
    forall k | 0 <= k < |a| ensures TypeOf(Reg(r + k), tys) == Some(a[k]) {
      assert (a + b)[k] == a[k];
    }
    forall k | 0 <= k < |b| ensures TypeOf(Reg(r + |a| + k), tys) == Some(b[k]) {
      assert (a + b)[|a| + k] == b[k];
    }
  }

  lemma FitsJoin(a: seq<Op>, b: seq<Op>, tys: Types, wantA: seq<Ty>, wantB: seq<Ty>)
    requires Fits(a, tys, wantA) && Fits(b, tys, wantB)
    ensures Fits(a + b, tys, wantA + wantB)
  {
    hide OpType;
  }

  lemma OneMoreOut(outs: seq<Operand>, want: seq<Ty>, tys: Types, r: nat, ts: seq<Ty>)
    requires OutsTyped(outs, want, tys) && Assigned(tys, r, ts) && ts != []
    ensures OutsTyped(outs + [Reg(r + |ts| - 1)], want + [ts[|ts| - 1]], tys)
  {
    hide TypeOf;
  }

  lemma AllTypesIs(cs: seq<BCall>, k: nat, outs: seq<Ty>)
    requires k <= |cs|
    ensures k == |cs| ==> AllTypes(cs, k, outs) == Some([])
    ensures k < |cs| ==>
              var tys := CallTypes(cs[k], outs);
              if tys.None? then AllTypes(cs, k, outs) == None
              else
                tys.value != []
                && var rest := AllTypes(cs, k + 1, outs + [tys.value[|tys.value| - 1]]);
                   AllTypes(cs, k, outs) == if rest.None? then None else Some(tys.value + rest.value)
  {
    hide CallTypes;
  }

  lemma NothingFits(tys: Types)
    ensures Fits([], tys, [])
  {
  }

  /** So have those of a list of calls. */
  lemma {:induction false} AllFit(h: Handles, r: nat, cs: seq<BCall>, k: nat, outs: seq<Operand>, want: seq<Ty>,
                                  tys: Types)
    requires HandlesTyped(h, tys) && OutsTyped(outs, want, tys) && k <= |cs| && AllTypes(cs, k, want).Some?
    requires Assigned(tys, r, AllTypes(cs, k, want).value)
    ensures Fits(AllOps(h, r, cs, k, outs), tys, AllTypes(cs, k, want).value)
    decreases |cs| - k
  {
    hide *;
    AllTypesIs(cs, k, want);
    if k == |cs| {
      UnfoldNone(h, r, cs, outs);
      NothingFits(tys);
    } else {
      var ts := CallTypes(cs[k], want).value;
      var rest := AllTypes(cs, k + 1, want + [ts[|ts| - 1]]).value;
      AssignedSplit(tys, r, ts, rest);
      CallFits(h, r, cs[k], outs, want, tys);
      UnfoldOps(h, r, cs, k, outs);
      var ops := Ops(h, r, cs[k], outs);
      FitsSize(ops, tys, ts);
      OneMoreOut(outs, want, tys, r, ts);
      AllFit(h, r + |ops|, cs, k + 1, outs + [Reg(r + |ops| - 1)], want + [ts[|ts| - 1]], tys);
      FitsJoin(ops, AllOps(h, r + |ops|, cs, k + 1, outs + [Reg(r + |ops| - 1)]), tys, ts, rest);
    }
  }

  lemma FitsSize(ops: seq<Op>, tys: Types, want: seq<Ty>)
    requires Fits(ops, tys, want)
    ensures |want| == |ops|
  {
  }

  // ---------- the lists of the opcodes ----------

  /** The type of the result of a helper call. */
  function OutType(c: BCall, outs: seq<Ty>): Option<Ty> {
    var tys := CallTypes(c, outs);
    if tys.None? then None else Some(tys.value[|tys.value| - 1])
  }

  /** Results of these types, after those of the types outs. */
  predicate ListFits(cs: seq<BCall>, outs: seq<Ty>, list: seq<Ty>) {
    |list| == |cs| && forall k :: 0 <= k < |cs| ==> OutType(cs[k], outs + list[..k]) == Some(list[k])
  }

  lemma {:induction false} ListTyped(cs: seq<BCall>, k: nat, outs: seq<Ty>, list: seq<Ty>)
    requires ListFits(cs, outs, list) && k <= |cs|
    ensures AllTypes(cs, k, outs + list[..k]).Some?
    decreases |cs| - k
  {
    hide CallTypes;
    AllTypesIs(cs, k, outs + list[..k]);
    if k < |cs| {
      assert OutType(cs[k], outs + list[..k]) == Some(list[k]);
      assert outs + list[..k + 1] == outs + list[..k] + [list[k]];
      ListTyped(cs, k + 1, outs, list);
    }
  }

  function Values(n: nat): (list: seq<Ty>)
    ensures |list| == n && forall k :: 0 <= k < n ==> list[k] == VALUE
  {
    seq(n, _ => VALUE)
  }

  /** Call k gives a result of its type. */
  predicate FitsAt(cs: seq<BCall>, list: seq<Ty>, k: nat)
    requires k < |cs| == |list|
  {
    OutType(cs[k], list[..k]) == Some(list[k])
  }

  lemma EarlierTypes(list: seq<Ty>, k: nat)
    requires k <= |list|
    ensures forall j: nat :: j < k ==> RefType(Res(j), list[..k]) == Some(list[j])
    ensures forall ty, n :: RefType(Num(ty, n), list[..k]) == Some(IntT(ty))
    ensures RefType(Self, list[..k]) == Some(VALUE) && RefType(StackBase, list[..k]) == Some(P_VALUE)
  {
  }

  lemma {:induction false} IsTypable(cs: seq<BCall>, list: seq<Ty>)
    requires |list| == |cs| && forall k: nat :: k < |cs| ==> FitsAt(cs, list, k)
    ensures AllTypes(cs, 0, []).Some?
  {
    forall k | 0 <= k < |cs|
      ensures OutType(cs[k], [] + list[..k]) == Some(list[k])
    {
      assert FitsAt(cs, list, k) && [] + list[..k] == list[..k];
    }
    hide OutType;
    ListTyped(cs, 0, [], list);
    assert [] + list[..0] == [];
  }

  lemma ArithTyped(op: BinOp, x: nat, y: nat)
    requires x < 4 && y < 4
    ensures AllTypes(ArithCalls(op, x, y), 0, []).Some?
  {
    IsTypable(ArithCalls(op, x, y), Values(6) + [VoidT]);
  }

  lemma CompareFits(cs: seq<BCall>, pred: Pred, list: seq<Ty>)
    requires |cs| == |list| == 8 && cs[0] == PopVal && cs[1] == PopVal && cs[2] == Fix2Int(Res(1))
    requires cs[3] == Fix2Int(Res(0)) && cs[4] == IcmpOf(pred, Res(2), Res(3)) && cs[5] == ToLong(Res(4))
    requires cs[6] == BinOf(Mul, Res(5), Word(2)) && cs[7] == PushVal(Res(6))
    requires list[0] == list[1] == list[2] == list[3] == list[5] == list[6] == VALUE
    requires list[4] == IntT(I1) && list[7] == VoidT
    ensures forall k: nat :: k < 8 ==> FitsAt(cs, list, k)
  {
    forall k: nat | k < 8
      ensures FitsAt(cs, list, k)
    {
      EarlierTypes(list, k);
      hide RefType;
    }
  }

  lemma CompareTyped(pred: Pred)
    ensures AllTypes(CompareCalls(pred), 0, []).Some?
  {
    var cs, list := CompareCalls(pred), Values(4) + [IntT(I1)] + Values(2) + [VoidT];
    CompareFits(cs, pred, list);
    hide CompareCalls, AllTypes, FitsAt;
    IsTypable(cs, list);
  }

  lemma ArrayOpsTyped(insn: Insn)
    requires insn.OptAref? || insn.OptAset? || insn.OptLength?
    ensures AllTypes(Calls(insn), 0, []).Some?
  {
    var n := if insn.OptAref? then 4 else if insn.OptAset? then 5 else 3;
    IsTypable(Calls(insn), Values(n) + [VoidT]);
  }

  lemma InvokeGives(callee: Callee, args: seq<Ref>, outs: seq<Ty>)
    requires RefsFit(Params(callee), args, outs)
    ensures OutType(Invoke(callee, args), outs) == Some(VALUE)
  {
    hide RefsFit;
  }

  lemma RuntimeFits(insn: Insn, list: seq<Ty>)
    requires insn.GetIvar? || insn.NewArray? || insn.Send?
    requires list == Values(if insn.NewArray? then 1 else 2) + [VoidT]
    ensures |Calls(insn)| == |list| && forall k: nat :: k < |list| ==> FitsAt(Calls(insn), list, k)
  {
    var cs := Calls(insn);
    forall k: nat | k < |list|
      ensures FitsAt(cs, list, k)
    {
      EarlierTypes(list, k);
      hide RefType;
      if cs[k].Invoke? {
        InvokeGives(cs[k].callee, cs[k].args, list[..k]);
      }
    }
  }

  lemma SetIvarFits(sym: int)
    ensures |Calls(SetIvar(sym))| == 3 && forall k: nat :: k < 3 ==> FitsAt(Calls(SetIvar(sym)), Values(3), k)
  {
    var cs := Calls(SetIvar(sym));
    forall k: nat | k < 3
      ensures FitsAt(cs, Values(3), k)
    {
      EarlierTypes(Values(3), k);
      hide RefType;
      if cs[k].Invoke? {
        InvokeGives(cs[k].callee, cs[k].args, Values(3)[..k]);
      }
    }
  }

  lemma RuntimeTyped(insn: Insn)
    requires insn.GetIvar? || insn.SetIvar? || insn.NewArray? || insn.Send?
    ensures AllTypes(Calls(insn), 0, []).Some?
  {
    hide AllTypes, Calls, FitsAt;
    if insn.SetIvar? {
      SetIvarFits(insn.sym);
      IsTypable(Calls(insn), Values(3));
    } else {
      var list := Values(if insn.NewArray? then 1 else 2) + [VoidT];
      RuntimeFits(insn, list);
      IsTypable(Calls(insn), list);
    }
  }

  lemma StackInsnsTyped(insn: Insn)
    requires insn.Nop? || insn.PutNil? || insn.PutSelf? || insn.PutObject? || insn.Pop? || insn.Dup? || insn.Swap?
             || insn.SetLocal? || insn.GetLocal?
    ensures AllTypes(Calls(insn), 0, []).Some?
  {
    var list :=
      if insn.Nop? then []
      else if insn.Pop? then Values(1)
      else if insn.PutNil? || insn.PutSelf? || insn.PutObject? then [VoidT]
      else if insn.Swap? then Values(2) + [VoidT] + [VoidT]
      else Values(1) + [VoidT];
    IsTypable(Calls(insn), list);
  }

  /** The helper calls of every opcode get operands of the types that they need. */
  lemma InsnTyped(insn: Insn)
    requires IsStraight(insn)
    ensures AllTypes(Calls(insn), 0, []).Some?
  {
    match insn
    case OptPlus => ArithTyped(Add, 1, 3);
    case OptMinus => ArithTyped(Sub, 3, 1);
    case OptMult => ArithTyped(Mul, 1, 3);
    case OptLt => CompareTyped(Slt);
    case OptGt => CompareTyped(Sgt);
    case OptGe => CompareTyped(Sge);
    case OptAref => ArrayOpsTyped(insn);
    case OptAset => ArrayOpsTyped(insn);
    case OptLength => ArrayOpsTyped(insn);
    case GetIvar(_) => RuntimeTyped(insn);
    case SetIvar(_) => RuntimeTyped(insn);
    case NewArray => RuntimeTyped(insn);
    case Send => RuntimeTyped(insn);
    case _ => StackInsnsTyped(insn);
  }

  lemma TestTyped()
    ensures AllTypes(TestCalls(), 0, []) == Some([P_VALUE, P_VALUE, VoidT, VALUE, IntT(I1)])
  {
    TestTypesOf(TestCalls());
  }

  lemma {:induction false} TestTypesOf(cs: seq<BCall>)
    requires |cs| == 2 && cs[0] == PopVal && cs[1] == IcmpOf(Eq, Res(0), Word(0))
    ensures AllTypes(cs, 0, []) == Some([P_VALUE, P_VALUE, VoidT, VALUE, IntT(I1)])
  {
    var o1 := [] + [VALUE];
    assert CallTypes(cs[0], []) == Some([P_VALUE, P_VALUE, VoidT, VALUE]);
    assert CallTypes(cs[1], o1) == Some([IntT(I1)]);
    hide CallTypes, AllTypes;
    AllTypesIs(cs, 0, []);
    AllTypesIs(cs, 1, o1);
    AllTypesIs(cs, 2, o1 + [IntT(I1)]);
    assert [P_VALUE, P_VALUE, VoidT, VALUE] + ([IntT(I1)] + []) == [P_VALUE, P_VALUE, VoidT, VALUE, IntT(I1)];
  }

  /** The types of the loop body of newhash: thirteen instructions, the first an i32, the last an i1. */
  function LoopTypes(): seq<Ty> {
    [IntT(I32), IntT(I32), IntT(I32)]
    + ([P_VALUE, IntT(I32), P_VALUE, VALUE] + ([P_VALUE, IntT(I32), P_VALUE, VALUE] + [VALUE, IntT(I1)]))
  }

  lemma LoopTyped()
    ensures AllTypes(LoopCalls(), 0, [VALUE, IntT(I32)]) == Some(LoopTypes())
  {
    LoopTypesOf(LoopCalls());
  }

  /** One more call, whose result has type t. */
  lemma TypesThen(cs: seq<BCall>, k: nat, outs: seq<Ty>, tys: seq<Ty>, rest: seq<Ty>)
    requires k < |cs| && tys != [] && CallTypes(cs[k], outs) == Some(tys)
    requires AllTypes(cs, k + 1, outs + [tys[|tys| - 1]]) == Some(rest)
    ensures AllTypes(cs, k, outs) == Some(tys + rest)
  {
    hide CallTypes, AllTypes;
    AllTypesIs(cs, k, outs);
  }

  lemma LoopCallTypes(cs: seq<BCall>, outs: seq<Ty>)
    requires |cs| == 7 && cs[0] == BinOf(Sub, Res(1), Num32(2)) && cs[1] == BinOf(Sub, Res(1), Num32(1))
    requires cs[2] == BinOf(Sub, Res(1), Num32(2)) && cs[3] == TopN(Res(3)) && cs[4] == TopN(Res(4))
    requires cs[5] == Invoke(HashAset, [Res(0), Res(5), Res(6)]) && cs[6] == IcmpOf(Sgt, Res(2), Num32(0))
    requires |outs| >= 2 && outs[1] == IntT(I32)
    ensures CallTypes(cs[0], outs) == CallTypes(cs[1], outs) == CallTypes(cs[2], outs) == Some([IntT(I32)])
    ensures |outs| >= 5 && outs[3] == outs[4] == IntT(I32) ==>
              CallTypes(cs[3], outs) == CallTypes(cs[4], outs) == Some([P_VALUE, IntT(I32), P_VALUE, VALUE])
    ensures |outs| >= 7 && outs[0] == outs[5] == outs[6] == VALUE ==> CallTypes(cs[5], outs) == Some([VALUE])
    ensures |outs| >= 3 && outs[2] == IntT(I32) ==> CallTypes(cs[6], outs) == Some([IntT(I1)])
  {
    if |outs| >= 7 && outs[0] == outs[5] == outs[6] == VALUE {
      assert RefsFit(Params(HashAset), cs[5].args, outs);
    }
  }

  lemma {:induction false} LoopTypesOf(cs: seq<BCall>)
    requires |cs| == 7 && cs[0] == BinOf(Sub, Res(1), Num32(2)) && cs[1] == BinOf(Sub, Res(1), Num32(1))
    requires cs[2] == BinOf(Sub, Res(1), Num32(2)) && cs[3] == TopN(Res(3)) && cs[4] == TopN(Res(4))
    requires cs[5] == Invoke(HashAset, [Res(0), Res(5), Res(6)]) && cs[6] == IcmpOf(Sgt, Res(2), Num32(0))
    ensures AllTypes(cs, 0, [VALUE, IntT(I32)]) == Some(LoopTypes())
  {
    var i32, top := [IntT(I32)], [P_VALUE, IntT(I32), P_VALUE, VALUE];
    var o0 := [VALUE, IntT(I32)];
    var o1 := o0 + i32;
    var o2 := o1 + i32;
    var o3 := o2 + i32;
    var o4 := o3 + [VALUE];
    var o5 := o4 + [VALUE];
    var o6 := o5 + [VALUE];
    var o7 := o6 + [IntT(I1)];
    LoopCallTypes(cs, o0);
    LoopCallTypes(cs, o1);
    LoopCallTypes(cs, o2);
    LoopCallTypes(cs, o3);
    LoopCallTypes(cs, o4);
    LoopCallTypes(cs, o5);
    LoopCallTypes(cs, o6);
    hide CallTypes, AllTypes;
    AllTypesIs(cs, 7, o7);
    TypesThen(cs, 6, o6, [IntT(I1)], []);
    TypesThen(cs, 5, o5, [VALUE], [IntT(I1)] + []);
    TypesThen(cs, 4, o4, top, [VALUE] + ([IntT(I1)] + []));
    TypesThen(cs, 3, o3, top, top + ([VALUE] + ([IntT(I1)] + [])));
    var rest := top + (top + ([VALUE] + ([IntT(I1)] + [])));
    TypesThen(cs, 2, o2, i32, rest);
    TypesThen(cs, 1, o1, i32, i32 + rest);
    TypesThen(cs, 0, o0, i32, i32 + (i32 + rest));
    assert i32 + (i32 + (i32 + rest)) == LoopTypes();
  }

  // ---------- the blocks of a compiled function ----------

  function PushTypes(): seq<Ty> {
    [P_VALUE, VoidT, P_VALUE, VoidT]
  }

  function PopTypes(): seq<Ty> {
    [P_VALUE, P_VALUE, VoidT, VALUE]
  }

  function GlobalTypes(): seq<Ty> {
    [P_VALUE, PtrT(P_VALUE), VoidT, P_VALUE]
  }

  /** The types of what an instruction puts into its own block. */
  function MainTypes(insn: Insn): seq<Ty> {
    if insn.NewHash? then [VALUE] + [VoidT]
    else if insn.Jump? then [VoidT]
    else if insn.BranchIf? || insn.BranchUnless? then PopTypes() + [IntT(I1)] + [VoidT]
    else
      InsnTyped(insn);
      AllTypes(Calls(insn), 0, []).value + [VoidT]
  }

  /** The types of the instructions of a block. */
  function CodeTypes(bc: Bytecode, p: Place): seq<Ty>
    requires PlaceOk(bc, p)
  {
    match p
    case Entry => GlobalTypes() + (PushTypes() + [VoidT])
    case Main(i) => MainTypes(bc[i])
    case Extra(_, j) =>
      if j == 0 then [IntT(I1)] + [VoidT]
      else if j == 1 then [IntT(I32)] + (LoopTypes() + [VoidT])
      else PushTypes() + [VoidT]
    case Exit => PopTypes() + [VoidT]
  }

  /** Every block has the types that CodeTypes gives it. */
  ghost predicate AllAssigned(bc: Bytecode, base: nat, tys: Types)
    requires WellFormed(bc)
  {
    forall p :: PlaceOk(bc, p) ==> Assigned(tys, StartOf(bc, base, p), CodeTypes(bc, p))
  }

  lemma VoidFits(tys: Types, to: nat)
    ensures Fits([Br(to)], tys, [VoidT])
  {
  }

  lemma BranchFits(c: Operand, yes: nat, no: nat, tys: Types)
    requires TypeOf(c, tys) == Some(IntT(I1))
    ensures Fits([CondBr(c, yes, no)], tys, [VoidT])
  {
    hide TypeOf;
  }

  lemma RetFits(v: Operand, tys: Types)
    requires TypeOf(v, tys) == Some(VALUE)
    ensures Fits([Ret(v)], tys, [VoidT])
  {
    hide TypeOf;
  }

  lemma GlobalsFit(base: nat, tys: Types)
    requires Assigned(tys, base, GlobalTypes())
    ensures HandlesTyped(HandlesAt(base), tys) && Fits(GlobalOps(base), tys, GlobalTypes())
  {
    AssignedAt(tys, base, GlobalTypes());
    hide TypeOf, Assigned;
  }

  lemma PushFits(h: Handles, r: nat, v: Operand, to: nat, tys: Types)
    requires HandlesTyped(h, tys) && TypeOf(v, tys) == Some(VALUE) && Assigned(tys, r, PushTypes() + [VoidT])
    ensures Fits(PushOps(h, r, v) + [Br(to)], tys, PushTypes() + [VoidT])
  {
    AssignedSplit(tys, r, PushTypes(), [VoidT]);
    StackOpsFit(h, r, v, 0, tys);
    VoidFits(tys, to);
    hide Assigned, Fits, PushOps, TypeOf;
    FitsJoin(PushOps(h, r, v), [Br(to)], tys, PushTypes(), [VoidT]);
  }

  lemma ArgTyped(tys: Types)
    ensures TypeOf(Arg(1), tys) == Some(VALUE)
  {
  }

  lemma EntryFits(base: nat, tys: Types)
    requires Assigned(tys, base, GlobalTypes() + (PushTypes() + [VoidT]))
    ensures HandlesTyped(HandlesAt(base), tys)
    ensures Fits(EntryOps(base), tys, GlobalTypes() + (PushTypes() + [VoidT]))
  {
    AssignedSplit(tys, base, GlobalTypes(), PushTypes() + [VoidT]);
    GlobalsFit(base, tys);
    ArgTyped(tys);
    hide Assigned, Fits, PushOps, TypeOf, GlobalOps, HandlesTyped, HandlesAt, PushTypes;
    PushFits(HandlesAt(base), base + 4, Arg(1), 1, tys);
    FitsJoin(GlobalOps(base), PushOps(HandlesAt(base), base + 4, Arg(1)) + [Br(1)], tys, GlobalTypes(),
             PushTypes() + [VoidT]);
  }

  lemma ExitFits(h: Handles, r: nat, tys: Types)
    requires HandlesTyped(h, tys) && Assigned(tys, r, PopTypes() + [VoidT])
    ensures Fits(ExitOps(h, r), tys, PopTypes() + [VoidT])
  {
    AssignedSplit(tys, r, PopTypes(), [VoidT]);
    AssignedAt(tys, r, PopTypes());
    StackOpsFit(h, r, h.sp, 0, tys);
    RetFits(Reg(r + 3), tys);
    hide Assigned, Fits, PopOps, TypeOf;
    FitsJoin(PopOps(h, r), [Ret(Reg(r + 3))], tys, PopTypes(), [VoidT]);
  }

  lemma NoOutsTyped(tys: Types)
    ensures OutsTyped([], [], tys)
  {
  }

  lemma {:induction false} TestFits(h: Handles, r: nat, yes: nat, no: nat, tys: Types)
    requires HandlesTyped(h, tys) && Assigned(tys, r, PopTypes() + [IntT(I1)] + [VoidT])
    ensures Fits(AllOps(h, r, TestCalls(), 0, []) + [CondBr(Reg(r + 4), yes, no)], tys,
                 PopTypes() + [IntT(I1)] + [VoidT])
  {
    TestTyped();
    NoOutsTyped(tys);
    assert PopTypes() + [IntT(I1)] == [P_VALUE, P_VALUE, VoidT, VALUE, IntT(I1)];
    AssignedSplit(tys, r, PopTypes() + [IntT(I1)], [VoidT]);
    assert TypeOf(Reg(r + 4), tys) == Some((PopTypes() + [IntT(I1)])[4]);
    hide AllOps, TestCalls, AllTypes, Assigned, Fits, TypeOf, OutsTyped, HandlesTyped;
    AllFit(h, r, TestCalls(), 0, [], [], tys);
    BranchFits(Reg(r + 4), yes, no, tys);
    FitsJoin(AllOps(h, r, TestCalls(), 0, []), [CondBr(Reg(r + 4), yes, no)], tys, PopTypes() + [IntT(I1)], [VoidT]);
  }

  lemma {:induction false} CodeFits(h: Handles, r: nat, cs: seq<BCall>, to: nat, tys: Types)
    requires HandlesTyped(h, tys) && AllTypes(cs, 0, []).Some?
    requires Assigned(tys, r, AllTypes(cs, 0, []).value + [VoidT])
    ensures Fits(AllOps(h, r, cs, 0, []) + [Br(to)], tys, AllTypes(cs, 0, []).value + [VoidT])
  {
    hide *;
    NoOutsTyped(tys);
    AssignedSplit(tys, r, AllTypes(cs, 0, []).value, [VoidT]);
    AllFit(h, r, cs, 0, [], [], tys);
    VoidFits(tys, to);
    FitsJoin(AllOps(h, r, cs, 0, []), [Br(to)], tys, AllTypes(cs, 0, []).value, [VoidT]);
  }

  lemma HashMainFits(x: nat, tys: Types)
    ensures Fits(HashMain(x), tys, [VALUE] + [VoidT])
  {
    assert ArgsFit([], [], tys);
  }

  lemma MainTypesAre(insn: Insn)
    ensures insn.NewHash? ==> MainTypes(insn) == [VALUE] + [VoidT]
    ensures insn.Jump? ==> MainTypes(insn) == [VoidT]
    ensures insn.BranchIf? || insn.BranchUnless? ==> MainTypes(insn) == PopTypes() + [IntT(I1)] + [VoidT]
    ensures IsStraight(insn) ==>
              AllTypes(Calls(insn), 0, []).Some? && MainTypes(insn) == AllTypes(Calls(insn), 0, []).value + [VoidT]
  {
    if IsStraight(insn) {
      InsnTyped(insn);
    }
    hide AllTypes, Calls, PopTypes;
  }

  lemma MainFits(h: Handles, r: nat, x: nat, n: nat, i: nat, insn: Insn, tys: Types)
    requires WellFormedInsn(n, insn) && HandlesTyped(h, tys) && Assigned(tys, r, MainTypes(insn))
    ensures Fits(MainOps(h, r, x, n, i, insn), tys, MainTypes(insn))
  {
    hide *;
    KindsOf(insn);
    MainTypesAre(insn);
    if IsStraight(insn) {
      StraightOps(h, r, x, n, i, insn);
      CodeFits(h, r, Calls(insn), BlockOf(i + 1), tys);
    } else if IsJump(insn) {
      JumpOps(h, r, x, n, i, insn);
      var t, next := BlockOf(Target(n, insn.target)), BlockOf(i + 1);
      if insn.Jump? {
        VoidFits(tys, t);
      } else {
        TestFits(h, r, next, t, tys);
        TestFits(h, r, t, next, tys);
      }
    } else {
      NewHashOps(h, r, x, n, i, insn);
      HashMainFits(x, tys);
    }
  }

  lemma HeadFits(r: nat, x: nat, count: int, tys: Types)
    requires Assigned(tys, r + 2, [IntT(I1)] + [VoidT])
    ensures Fits(HashHead(r, x, count), tys, [IntT(I1)] + [VoidT])
  {
    AssignedAt(tys, r + 2, [IntT(I1)] + [VoidT]);
    ConstTypes(tys);
    var cmp := Icmp(Sgt, Const(I32, count), Const(I32, 0));
    OneFits(cmp, tys, IntT(I1));
    BranchFits(Reg(r + 2), x + 1, x + 2, tys);
    hide Assigned, Fits, TypeOf;
    FitsJoin([cmp], [CondBr(Reg(r + 2), x + 1, x + 2)], tys, [IntT(I1)], [VoidT]);
    assert HashHead(r, x, count) == [cmp] + [CondBr(Reg(r + 2), x + 1, x + 2)];
  }

  lemma HashPhiFitsTypes(r: nat, x: nat, count: int, tys: Types)
    requires TypeOf(Reg(r + 5), tys) == Some(IntT(I32))
    ensures Fits([HashPhi(r, x, count)], tys, [IntT(I32)])
  {
    ConstTypes(tys);
    hide TypeOf;
  }

  /** The registers of the loop block that are read in it again. */
  lemma LoopRegs(r: nat, tys: Types)
    requires Assigned(tys, r + 4, [IntT(I32)] + (LoopTypes() + [VoidT]))
    ensures Assigned(tys, r + 5, LoopTypes())
    ensures TypeOf(Reg(r + 4), tys) == TypeOf(Reg(r + 5), tys) == Some(IntT(I32))
    ensures TypeOf(Reg(r + 17), tys) == Some(IntT(I1))
  {
    AssignedSplit(tys, r + 4, [IntT(I32)], LoopTypes() + [VoidT]);
    AssignedSplit(tys, r + 5, LoopTypes(), [VoidT]);
    AssignedAt(tys, r + 4, [IntT(I32)]);
    AssignedAt(tys, r + 5, LoopTypes());
    assert |LoopTypes()| == 13 && LoopTypes()[12] == IntT(I1) && LoopTypes()[0] == IntT(I32);
    assert TypeOf(Reg(r + 5 + 12), tys) == Some(LoopTypes()[12]);
    hide TypeOf, LoopTypes;
  }

  lemma HashAndIndex(r: nat, tys: Types)
    requires TypeOf(Reg(r), tys) == Some(VALUE) && TypeOf(Reg(r + 4), tys) == Some(IntT(I32))
    ensures OutsTyped([Reg(r), Reg(r + 4)], [VALUE, IntT(I32)], tys)
  {
    hide TypeOf;
  }

  lemma LoopFits(h: Handles, r: nat, x: nat, count: int, tys: Types)
    requires HandlesTyped(h, tys) && TypeOf(Reg(r), tys) == Some(VALUE)
    requires Assigned(tys, r + 4, [IntT(I32)] + (LoopTypes() + [VoidT]))
    ensures Fits(HashLoop(h, r, x, count), tys, [IntT(I32)] + (LoopTypes() + [VoidT]))
  {
    hide *;
    LoopRegs(r, tys);
    LoopTyped();
    HashAndIndex(r, tys);
    HashPhiFitsTypes(r, x, count, tys);
    AllFit(h, r + 5, LoopCalls(), 0, [Reg(r), Reg(r + 4)], [VALUE, IntT(I32)], tys);
    BranchFits(Reg(r + 17), x + 1, x + 2, tys);
    var body := AllOps(h, r + 5, LoopCalls(), 0, [Reg(r), Reg(r + 4)]);
    FitsJoin(body, [CondBr(Reg(r + 17), x + 1, x + 2)], tys, LoopTypes(), [VoidT]);
    FitsJoin([HashPhi(r, x, count)], body + [CondBr(Reg(r + 17), x + 1, x + 2)], tys, [IntT(I32)],
             LoopTypes() + [VoidT]);
    LoopOps(h, r, x, count);
  }

  lemma {:induction false} LoopOps(h: Handles, r: nat, x: nat, count: int)
    ensures HashLoop(h, r, x, count)
         == [HashPhi(r, x, count)]
            + (AllOps(h, r + 5, LoopCalls(), 0, [Reg(r), Reg(r + 4)]) + [CondBr(Reg(r + 17), x + 1, x + 2)])
  {
    hide AllOps, LoopCalls, HashPhi;
  }

  lemma PlaceTypes(bc: Bytecode, base: nat, p: Place)
    requires WellFormed(bc) && PlaceOk(bc, p)
    ensures p.Entry? ==> CodeTypes(bc, p) == GlobalTypes() + (PushTypes() + [VoidT]) && StartOf(bc, base, p) == base
    ensures p.Main? ==> CodeTypes(bc, p) == MainTypes(bc[p.i]) && StartOf(bc, base, p) == Before(bc, base, p.i).next
    ensures p.Extra? ==>
              CodeTypes(bc, p)
                == (if p.j == 0 then [IntT(I1)] + [VoidT]
                    else if p.j == 1 then [IntT(I32)] + (LoopTypes() + [VoidT]) else PushTypes() + [VoidT])
    ensures p.Exit? ==>
              CodeTypes(bc, p) == PopTypes() + [VoidT] && StartOf(bc, base, p) == Before(bc, base, |bc|).next
  {
    hide MainTypes, CompileTo, LoopTypes, GlobalTypes, PushTypes, PopTypes, WellFormed;
  }

  lemma PlaceCode(bc: Bytecode, base: nat, p: Place)
    requires WellFormed(bc) && PlaceOk(bc, p)
    ensures p.Entry? ==> CodeOf(bc, base, p) == EntryOps(base)
    ensures p.Main? ==>
              p.i < |bc| && WellFormedInsn(|bc|, bc[p.i])
              && var c := Before(bc, base, p.i);
                 CodeOf(bc, base, p) == MainOps(HandlesAt(base), c.next, |c.blocks|, |bc|, p.i, bc[p.i])
    ensures p.Exit? ==> CodeOf(bc, base, p) == ExitOps(HandlesAt(base), Before(bc, base, |bc|).next)
  {
    hide EntryOps, MainOps, ExitOps, CompileTo, HandlesAt, HashHead, HashLoop, HashTail, WellFormedInsn;
  }

  lemma HandlesAssigned(bc: Bytecode, base: nat, tys: Types)
    requires WellFormed(bc) && AllAssigned(bc, base, tys)
    ensures HandlesTyped(HandlesAt(base), tys)
  {
    assert PlaceOk(bc, Entry);
    PlaceTypes(bc, base, Entry);
    hide CodeTypes, StartOf, Assigned, HandlesTyped, HandlesAt, WellFormed;
    EntryFits(base, tys);
  }

  lemma AssignedFor(bc: Bytecode, base: nat, tys: Types, p: Place)
    requires WellFormed(bc) && AllAssigned(bc, base, tys) && PlaceOk(bc, p)
    ensures Assigned(tys, StartOf(bc, base, p), CodeTypes(bc, p))
  {
    hide Assigned, CodeTypes, StartOf, WellFormed;
  }

  lemma HashAssigned(bc: Bytecode, base: nat, tys: Types, i: nat)
    requires WellFormed(bc) && AllAssigned(bc, base, tys) && PlaceOk(bc, Extra(i, 0))
    ensures TypeOf(Reg(Before(bc, base, i).next), tys) == Some(VALUE)
  {
    assert PlaceOk(bc, Main(i)) && bc[i].NewHash?;
    AssignedFor(bc, base, tys, Main(i));
    PlaceTypes(bc, base, Main(i));
    MainTypesAre(bc[i]);
    AssignedAt(tys, StartOf(bc, base, Main(i)), CodeTypes(bc, Main(i)));
    hide Assigned, CodeTypes, StartOf, WellFormed, MainTypes, TypeOf, AllAssigned, CompileTo;
  }

  lemma ExtraFits(bc: Bytecode, base: nat, p: Place, tys: Types)
    requires WellFormed(bc) && AllAssigned(bc, base, tys) && PlaceOk(bc, p) && p.Extra?
    ensures Fits(CodeOf(bc, base, p), tys, CodeTypes(bc, p))
  {
    hide *;
    HandlesAssigned(bc, base, tys);
    AssignedFor(bc, base, tys, p);
    PlaceTypes(bc, base, p);
    ExtraCode(bc, base, p.i, p.j);
    IsExtra(bc, p);
    HashAssigned(bc, base, tys, p.i);
    var h, c := HandlesAt(base), Before(bc, base, p.i);
    if p.j == 0 {
      HeadFits(c.next, |c.blocks|, bc[p.i].count, tys);
    } else if p.j == 1 {
      LoopFits(h, c.next, |c.blocks|, bc[p.i].count, tys);
    } else {
      PushFits(h, c.next + 19, Reg(c.next), BlockOf(p.i + 1), tys);
      TailOps(h, c.next, p.i);
    }
  }

  lemma IsExtra(bc: Bytecode, p: Place)
    requires PlaceOk(bc, p) && p.Extra?
    ensures p == Extra(p.i, p.j) && p.j < 3 && PlaceOk(bc, Extra(p.i, 0))
  {
  }

  lemma TailOps(h: Handles, r: nat, i: nat)
    ensures HashTail(h, r, i) == PushOps(h, r + 19, Reg(r)) + [Br(BlockOf(i + 1))]
  {
    hide PushOps;
  }

  lemma PlaceFitsTypes(bc: Bytecode, base: nat, p: Place, tys: Types)
    requires WellFormed(bc) && AllAssigned(bc, base, tys) && PlaceOk(bc, p)
    ensures Fits(CodeOf(bc, base, p), tys, CodeTypes(bc, p))
  {
    hide *;
    HandlesAssigned(bc, base, tys);
    AssignedFor(bc, base, tys, p);
    PlaceTypes(bc, base, p);
    PlaceCode(bc, base, p);
    if p.Entry? {
      EntryFits(base, tys);
    } else if p.Main? {
      var c := Before(bc, base, p.i);
      MainFits(HandlesAt(base), c.next, |c.blocks|, |bc|, p.i, bc[p.i], tys);
    } else if p.Extra? {
      ExtraFits(bc, base, p, tys);
    } else {
      ExitFits(HandlesAt(base), Before(bc, base, |bc|).next, tys);
    }
  }

  // ---------- a type for every register ----------

  lemma CallSize(h: Handles, r: nat, c: BCall, outs: seq<Operand>, want: seq<Ty>)
    requires CallTypes(c, want).Some?
    ensures |CallTypes(c, want).value| == |Ops(h, r, c, outs)|
  {
    hide OperandOf, RefType, Operands, RefsFit;
  }

  lemma {:induction false} AllSizes(h: Handles, r: nat, cs: seq<BCall>, k: nat, outs: seq<Operand>, want: seq<Ty>)
    requires k <= |cs| && AllTypes(cs, k, want).Some?
    ensures |AllTypes(cs, k, want).value| == |AllOps(h, r, cs, k, outs)|
    decreases |cs| - k
  {
    hide *;
    AllTypesIs(cs, k, want);
    if k == |cs| {
      UnfoldNone(h, r, cs, outs);
    } else {
      var ts, ops := CallTypes(cs[k], want).value, Ops(h, r, cs[k], outs);
      UnfoldOps(h, r, cs, k, outs);
      CallSize(h, r, cs[k], outs, want);
      AllSizes(h, r + |ops|, cs, k + 1, outs + [Reg(r + |ops| - 1)], want + [ts[|ts| - 1]]);
    }
  }

  lemma MainSize(h: Handles, r: nat, x: nat, n: nat, i: nat, insn: Insn)
    requires WellFormedInsn(n, insn)
    ensures |MainTypes(insn)| == |MainOps(h, r, x, n, i, insn)|
  {
    KindsOf(insn);
    MainTypesAre(insn);
    hide AllTypes, AllOps, Calls, TestCalls, MainOps, MainTypes, WellFormedInsn, IsStraight;
    if IsStraight(insn) {
      StraightOps(h, r, x, n, i, insn);
      AllSizes(h, r, Calls(insn), 0, [], []);
    } else if IsJump(insn) {
      JumpOps(h, r, x, n, i, insn);
      TestNumbers(h, r);
    } else {
      NewHashOps(h, r, x, n, i, insn);
    }
  }

  lemma TypesSize(bc: Bytecode, base: nat, p: Place)
    requires WellFormed(bc) && PlaceOk(bc, p)
    ensures |CodeTypes(bc, p)| == |CodeOf(bc, base, p)|
  {
    PlaceTypes(bc, base, p);
    PlaceCode(bc, base, p);
    hide CodeTypes, CodeOf, MainTypes, MainOps, CompileTo, StartOf, WellFormed;
    if p.Main? {
      var c := Before(bc, base, p.i);
      MainSize(HandlesAt(base), c.next, |c.blocks|, |bc|, p.i, bc[p.i]);
    } else {
      PlaceSize(bc, base, p);
      if p.Exit? {
        ExitSize(bc, base);
      }
    }
  }

  /** Register id is the result of instruction k of the block. */
  predicate ResultOf(bc: Bytecode, base: nat, p: Place, k: nat, id: nat)
    requires WellFormed(bc)
  {
    PlaceOk(bc, p) && k < |CodeTypes(bc, p)| && StartOf(bc, base, p) + k == id
  }

  lemma OneResult(bc: Bytecode, base: nat, p: Place, k: nat, q: Place, l: nat, id: nat)
    requires WellFormed(bc) && ResultOf(bc, base, p, k, id) && ResultOf(bc, base, q, l, id)
    ensures p == q && k == l
  {
    TypesSize(bc, base, p);
    TypesSize(bc, base, q);
    hide CodeTypes, CodeOf, CompileTo, StartOf, WellFormed, Rank;
    if p != q {
      if Rank(bc, p) < Rank(bc, q) || (Rank(bc, p) == Rank(bc, q) && StartOf(bc, base, p) <= StartOf(bc, base, q)) {
        IdsDisjoint(bc, base, p, q);
      } else {
        IdsDisjoint(bc, base, q, p);
      }
    }
  }

  ghost function TypeAt(bc: Bytecode, base: nat, id: nat): Ty
    requires WellFormed(bc)
  {
    if exists p: Place, k: nat :: ResultOf(bc, base, p, k, id) then
      var p: Place, k: nat :| ResultOf(bc, base, p, k, id);
      CodeTypes(bc, p)[k]
    else VoidT
  }

  ghost function Assignment(bc: Bytecode, base: nat): Types
    requires WellFormed(bc)
  {
    map id: nat | id < Compile(bc, base).next :: TypeAt(bc, base, id)
  }

  lemma TypeAtIs(bc: Bytecode, base: nat, p: Place, k: nat, id: nat)
    requires WellFormed(bc) && ResultOf(bc, base, p, k, id)
    ensures TypeAt(bc, base, id) == CodeTypes(bc, p)[k]
  {
    forall q: Place, l: nat | ResultOf(bc, base, q, l, id)
      ensures p == q && k == l
    {
      OneResult(bc, base, p, k, q, l, id);
    }
    hide CodeTypes, StartOf, WellFormed, PlaceOk;
  }

  lemma AssignmentAssigns(bc: Bytecode, base: nat)
    requires WellFormed(bc)
    ensures AllAssigned(bc, base, Assignment(bc, base))
  {
    hide CodeTypes, CodeOf, StartOf, CompileTo, Compile, WellFormed, PlaceOk, TypeAt;
    forall p | PlaceOk(bc, p)
      ensures Assigned(Assignment(bc, base), StartOf(bc, base, p), CodeTypes(bc, p))
    {
      TypesSize(bc, base, p);
      PlaceInRange(bc, base, p);
      forall k: nat | k < |CodeTypes(bc, p)|
        ensures TypeOf(Reg(StartOf(bc, base, p) + k), Assignment(bc, base)) == Some(CodeTypes(bc, p)[k])
      {
        TypeAtIs(bc, base, p, k, StartOf(bc, base, p) + k);
      }
    }
  }

  lemma BlockTyped(bc: Bytecode, base: nat, tys: Types, b: nat, k: nat)
    requires WellFormed(bc) && AllAssigned(bc, base, tys)
    requires b < |Compile(bc, base).blocks| && k < |Compile(bc, base).blocks[b]|
    ensures var i := Compile(bc, base).blocks[b][k]; i.id in tys && OpType(i.op, tys) == Some(tys[i.id])
  {
    hide Compile, CompileTo, CodeOf, StartOf, IndexOf, Number, OpType, CodeTypes, AllAssigned, WellFormed;
    var p := EveryBlock(bc, base, b);
    PlaceBlock(bc, base, p);
    PlaceFitsTypes(bc, base, p, tys);
    AssignedFor(bc, base, tys, p);
    assert TypeOf(Reg(StartOf(bc, base, p) + k), tys) == Some(CodeTypes(bc, p)[k]);
  }

  /**
   * Every register of a compiled function can be given a type such that every instruction of every block, of any number
   * of newhash included, fits: operands of the arithmetic have one width, pointers lead to what is stored and loaded
   * through them, arguments match the declared parameters, edges of a phi agree, a branch is on a bit, and the function
   * returns a VALUE.
   */
  lemma CompiledIsTyped(bc: Bytecode, base: nat)
    requires WellFormed(bc)
    ensures IsTyped(Compile(bc, base).blocks)
  {
    var f: Func, tys := Compile(bc, base).blocks, Assignment(bc, base);
    AssignmentAssigns(bc, base);
    hide Compile, OpType, AllAssigned, Assignment, WellFormed;
    forall b, k | 0 <= b < |f| && 0 <= k < |f[b]|
      ensures f[b][k].id in tys && OpType(f[b][k].op, tys) == Some(tys[f[b][k].id])
    {
      BlockTyped(bc, base, tys, b, k);
    }
    assert TypedBy(f, tys);
  }
}
