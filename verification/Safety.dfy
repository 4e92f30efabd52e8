// What the static conditions are good for: in no run does a compiled function read a missing register or mix up types.

module Safety {
  import opened Options
  import opened Words
  import opened IR
  import opened Machine
  import opened StackMachine
  import opened Codegen
  import opened WellFormedness
  import opened Typing

  // ---------- values of a type ----------

  /** The value has the type; heap gives the element types of the alloca'd objects. Undef is of every type. */
  predicate HasTy(v: Val, t: Ty, heap: seq<Ty>) {
    match v
    case Int(ty, _) => t == IntT(ty)
    case Cell(o, _) => o < |heap| && t == PtrT(heap[o])
    case ArrayHeader(_) => t == ArrayT
    case ArrayLen(_) => t == P_VALUE
    case ArrayData(_) => t == PtrT(P_VALUE)
    case Slot(_, _) => t == P_VALUE
    case Undef => true
  }

  predicate RegsTyped(regs: map<nat, Val>, tys: Types, heap: seq<Ty>) {
    forall id :: id in regs ==> id in tys && HasTy(regs[id], tys[id], heap)
  }

  predicate CellsTyped(cells: seq<Val>, t: Ty, heap: seq<Ty>) {
    forall k :: 0 <= k < |cells| ==> HasTy(cells[k], t, heap)
  }

  /** Every register and every cell holds a value of its type. */
  predicate Sound(st: State, tys: Types, heap: seq<Ty>) {
    RegsTyped(st.regs, tys, heap) && |heap| == |st.mem|
    && forall o :: 0 <= o < |heap| ==> CellsTyped(st.mem[o], heap[o], heap)
  }

  predicate WordArgs(env: Env) {
    IsWord(env.self) && IsWord(env.arg)
  }

  lemma MoreHeap(v: Val, t: Ty, heap: seq<Ty>, heap': seq<Ty>)
    requires HasTy(v, t, heap) && heap <= heap'
    ensures HasTy(v, t, heap')
  {
  }

  lemma EvalTyped(env: Env, o: Operand, regs: map<nat, Val>, tys: Types, heap: seq<Ty>)
    requires WordArgs(env) && RegsTyped(regs, tys, heap) && TypeOf(o, tys).Some? && Eval(env, o, regs).Some?
    ensures HasTy(Eval(env, o, regs).value, TypeOf(o, tys).value, heap)
  {
  }

  // ---------- why an instruction can be stuck ----------

  /** Nothing can be read, or written, at this address. */
  predicate OutOfReach(q: Val, st: State, write: bool) {
    match q
    case Cell(o, k) => !(o < |st.mem| && 0 <= k < |st.mem[o]|)
    case Slot(a, k) => !(a in st.world.arrays && 0 <= k < |st.world.arrays[a]|)
    case ArrayLen(a) => write || a !in st.world.arrays
    case ArrayData(a) => write || a !in st.world.arrays
    case _ => false
  }

  /** An operand was never initialised. */
  predicate Uninitialised(env: Env, op: Op, regs: map<nat, Val>) {
    exists k :: 0 <= k < |Reads(op)| && Eval(env, Reads(op)[k], regs) == Some(Undef)
  }

  /** An address out of reach, a division by zero, a step away from a field of an array, or its second field. */
  predicate OutOfBounds(env: Env, op: Op, st: State) {
    match op
    case Load(p) => Eval(env, p, st.regs).Some? && OutOfReach(Eval(env, p, st.regs).value, st, false)
    case Store(_, p) => Eval(env, p, st.regs).Some? && OutOfReach(Eval(env, p, st.regs).value, st, true)
    case Bin(b, _, y) =>
      b == UDiv && Eval(env, y, st.regs).Some? && Eval(env, y, st.regs).value.Int?
      && Norm(Eval(env, y, st.regs).value.ty, Eval(env, y, st.regs).value.n) == 0
    case Gep(p, _) =>
      Eval(env, p, st.regs).Some?
      && (Eval(env, p, st.regs).value.ArrayLen? || Eval(env, p, st.regs).value.ArrayData?)
    case StructGep(_, field) => field == 2
    case _ => false
  }

  /** All registers that the instruction reads are there. */
  predicate Readable(env: Env, op: Op, prev: nat, regs: map<nat, Val>) {
    (forall k :: 0 <= k < |Reads(op)| ==> Eval(env, Reads(op)[k], regs).Some?)
    && (op.Phi? ==> Incoming(op.incoming, prev).Some? && Eval(env, Incoming(op.incoming, prev).value, regs).Some?)
  }

  // ---------- one instruction ----------

  /** What a typed instruction does: gives a value of its type, or is stuck for one of those reasons. */
  predicate PureOk(env: Env, op: Op, st: State, t: Ty, heap: seq<Ty>) {
    var r := Pure(env, op, st.regs);
    if r.Some? then HasTy(r.value, t, heap) else Uninitialised(env, op, st.regs) || OutOfBounds(env, op, st)
  }

  /** The value of an operand has its type; if it is Undef, that is a reason. */
  lemma OperandIs(env: Env, op: Op, k: nat, prev: nat, regs: map<nat, Val>, tys: Types, heap: seq<Ty>)
    returns (v: Val)
    requires WordArgs(env) && RegsTyped(regs, tys, heap) && Readable(env, op, prev, regs) && k < |Reads(op)|
    ensures Eval(env, Reads(op)[k], regs) == Some(v)
    ensures TypeOf(Reads(op)[k], tys).Some? ==> HasTy(v, TypeOf(Reads(op)[k], tys).value, heap)
    ensures v == Undef ==> Uninitialised(env, op, regs)
  {
    v := Eval(env, Reads(op)[k], regs).value;
    hide HasTy, Eval, RegsTyped;
    if TypeOf(Reads(op)[k], tys).Some? {
      EvalTyped(env, Reads(op)[k], regs, tys, heap);
    }
  }

  lemma IntValue(v: Val, t: Ty, heap: seq<Ty>)
    requires HasTy(v, t, heap) && t.IntT?
    ensures v == Undef || (v.Int? && v.ty == t.width)
  {
  }

  lemma BinIs(op: BinOp, x: Val, y: Val)
    requires x.Int? && y.Int? && x.ty == y.ty
    ensures if op == UDiv && Norm(y.ty, y.n) == 0 then EvalBin(op, x, y).None?
            else EvalBin(op, x, y).Some? && EvalBin(op, x, y).value.Int? && EvalBin(op, x, y).value.ty == x.ty
  {
    hide Norm, XorBits, AndBits, Pow2;
  }

  lemma NoBin(op: BinOp, x: Val, y: Val)
    requires !x.Int? || !y.Int?
    ensures EvalBin(op, x, y) == None
  {
  }

  lemma BinSound(env: Env, op: Op, st: State, tys: Types, heap: seq<Ty>)
    requires WordArgs(env) && RegsTyped(st.regs, tys, heap) && Readable(env, op, 0, st.regs)
    requires op.Bin? && OpType(op, tys).Some?
    ensures PureOk(env, op, st, OpType(op, tys).value, heap)
  {
    hide Eval, RegsTyped, EvalBin, Uninitialised, Readable, Norm;
    assert Reads(op)[0] == op.x && Reads(op)[1] == op.y;
    var x := OperandIs(env, op, 0, 0, st.regs, tys, heap);
    var y := OperandIs(env, op, 1, 0, st.regs, tys, heap);
    var t := TypeOf(op.x, tys).value;
    IntValue(x, t, heap);
    IntValue(y, t, heap);
    if x.Int? && y.Int? {
      BinIs(op.op, x, y);
    } else {
      NoBin(op.op, x, y);
    }
  }

  lemma IcmpSound(env: Env, op: Op, st: State, tys: Types, heap: seq<Ty>)
    requires WordArgs(env) && RegsTyped(st.regs, tys, heap) && Readable(env, op, 0, st.regs)
    requires op.Icmp? && OpType(op, tys).Some?
    ensures PureOk(env, op, st, OpType(op, tys).value, heap)
  {
    hide Eval, RegsTyped, Uninitialised, Readable, Holds;
    assert Reads(op)[0] == op.x && Reads(op)[1] == op.y;
    var x := OperandIs(env, op, 0, 0, st.regs, tys, heap);
    var y := OperandIs(env, op, 1, 0, st.regs, tys, heap);
    var t := TypeOf(op.x, tys).value;
    IntValue(x, t, heap);
    IntValue(y, t, heap);
  }

  lemma CastSound(env: Env, op: Op, st: State, tys: Types, heap: seq<Ty>)
    requires WordArgs(env) && RegsTyped(st.regs, tys, heap) && Readable(env, op, 0, st.regs)
    requires (op.IntCast? || op.IntToPtr?) && OpType(op, tys).Some?
    ensures PureOk(env, op, st, OpType(op, tys).value, heap)
  {
    hide Eval, RegsTyped, Uninitialised, Readable, Norm, Signed;
    assert Reads(op)[0] == op.v;
    var v := OperandIs(env, op, 0, 0, st.regs, tys, heap);
    IntValue(v, TypeOf(op.v, tys).value, heap);
  }

  lemma GepSound(env: Env, op: Op, st: State, tys: Types, heap: seq<Ty>)
    requires WordArgs(env) && RegsTyped(st.regs, tys, heap) && Readable(env, op, 0, st.regs)
    requires op.Gep? && OpType(op, tys).Some?
    ensures PureOk(env, op, st, OpType(op, tys).value, heap)
  {
    hide Eval, RegsTyped, Uninitialised, Readable, Signed;
    assert Reads(op)[0] == op.p && Reads(op)[1] == op.index;
    var p := OperandIs(env, op, 0, 0, st.regs, tys, heap);
    var n := OperandIs(env, op, 1, 0, st.regs, tys, heap);
    IntValue(n, TypeOf(op.index, tys).value, heap);
  }

  lemma FieldSound(env: Env, op: Op, st: State, tys: Types, heap: seq<Ty>)
    requires WordArgs(env) && RegsTyped(st.regs, tys, heap) && Readable(env, op, 0, st.regs)
    requires op.StructGep? && OpType(op, tys).Some?
    ensures PureOk(env, op, st, OpType(op, tys).value, heap)
  {
    hide Eval, RegsTyped, Uninitialised, Readable;
    assert Reads(op)[0] == op.p;
    var p := OperandIs(env, op, 0, 0, st.regs, tys, heap);
  }

  lemma PureSound(env: Env, op: Op, st: State, tys: Types, heap: seq<Ty>)
    requires WordArgs(env) && RegsTyped(st.regs, tys, heap) && Readable(env, op, 0, st.regs)
    requires op.IsPure() && OpType(op, tys).Some?
    ensures PureOk(env, op, st, OpType(op, tys).value, heap)
  {
    hide RegsTyped, Readable, OpType, PureOk;
    match op
    case Bin(_, _, _) => BinSound(env, op, st, tys, heap);
    case Icmp(_, _, _) => IcmpSound(env, op, st, tys, heap);
    case IntCast(_, _, _) => CastSound(env, op, st, tys, heap);
    case IntToPtr(_) => CastSound(env, op, st, tys, heap);
    case Gep(_, _) => GepSound(env, op, st, tys, heap);
    case StructGep(_, _) => FieldSound(env, op, st, tys, heap);
    case _ =>
  }

  // ---------- instructions that touch memory ----------

  /** What Step does to a sound state. */
  predicate StepOk(env: Env, i: Instr, prev: nat, st: State, tys: Types, heap: seq<Ty>) {
    match Step(env, i, prev, st)
    case Fell(st') =>
      !i.op.IsTerminator() && st'.regs.Keys == st.regs.Keys + {i.id}
      && Sound(st', tys, if i.op.Alloca? then heap + [i.op.elem] else heap)
    case Jumped(to, st') => to in i.op.Targets() && st' == st
    case Returned(v, st') => HasTy(v, VALUE, heap) && st' == st
    case Stuck => Uninitialised(env, i.op, st.regs) || OutOfBounds(env, i.op, st)
  }

  /** The instruction has the type of its register. */
  predicate InstrTyped(i: Instr, tys: Types) {
    i.id in tys && OpType(i.op, tys) == Some(tys[i.id])
  }

  lemma RegSet(st: State, id: nat, v: Val, tys: Types, heap: seq<Ty>)
    requires Sound(st, tys, heap) && id in tys && HasTy(v, tys[id], heap)
    ensures Sound(st.(regs := st.regs[id := v]), tys, heap)
  {
    hide HasTy, CellsTyped;
  }

  lemma PureSteps(env: Env, i: Instr, prev: nat, st: State, tys: Types, heap: seq<Ty>)
    requires WordArgs(env) && Sound(st, tys, heap) && Readable(env, i.op, prev, st.regs) && InstrTyped(i, tys)
    requires i.op.IsPure()
    ensures StepOk(env, i, prev, st, tys, heap)
  {
    PureSound(env, i.op, st, tys, heap);
    hide OpType, RegsTyped, HasTy, Uninitialised, OutOfBounds, CellsTyped;
    var v := Pure(env, i.op, st.regs);
    if v.Some? {
      RegSet(st, i.id, v.value, tys, heap);
    }
    hide Pure, Sound;
  }

  lemma LoadIs(q: Val, t: Ty, st: State, tys: Types, heap: seq<Ty>)
    requires Sound(st, tys, heap) && HasTy(q, PtrT(t), heap)
    ensures var r := LoadFrom(q, st.mem, st.world);
      if r.Some? then HasTy(r.value, t, heap) else q == Undef || OutOfReach(q, st, false)
  {
    hide RegsTyped;
    if q.Cell? && q.obj < |st.mem| {
      assert CellsTyped(st.mem[q.obj], heap[q.obj], heap);
    }
  }

  lemma LoadSteps(env: Env, i: Instr, prev: nat, st: State, tys: Types, heap: seq<Ty>)
    requires WordArgs(env) && Sound(st, tys, heap) && Readable(env, i.op, prev, st.regs) && InstrTyped(i, tys)
    requires i.op.Load?
    ensures StepOk(env, i, prev, st, tys, heap)
  {
    assert Reads(i.op)[0] == i.op.p;
    var q := OperandIs(env, i.op, 0, prev, st.regs, tys, heap);
    LoadIs(q, tys[i.id], st, tys, heap);
    hide Eval, RegsTyped, HasTy, Uninitialised, OutOfReach, CellsTyped, Readable, LoadFrom;
    var v := LoadFrom(q, st.mem, st.world);
    if v.Some? {
      RegSet(st, i.id, v.value, tys, heap);
    }
    hide Sound;
  }

  lemma StoreIs(v: Val, q: Val, t: Ty, st: State, tys: Types, heap: seq<Ty>)
    requires Sound(st, tys, heap) && HasTy(q, PtrT(t), heap) && HasTy(v, t, heap)
    ensures var r := StoreTo(v, q, st.mem, st.world);
      if r.Some? then Sound(State(st.regs, r.value.0, r.value.1), tys, heap)
      else q == Undef || v == Undef || OutOfReach(q, st, true)
  {
    hide RegsTyped;
    var r := StoreTo(v, q, st.mem, st.world);
    if r.Some? && q.Cell? {
      assert CellsTyped(st.mem[q.obj], heap[q.obj], heap);
      assert CellsTyped(r.value.0[q.obj], heap[q.obj], heap);
    }
  }

  lemma StoreSteps(env: Env, i: Instr, prev: nat, st: State, tys: Types, heap: seq<Ty>)
    requires WordArgs(env) && Sound(st, tys, heap) && Readable(env, i.op, prev, st.regs) && InstrTyped(i, tys)
    requires i.op.Store?
    ensures StepOk(env, i, prev, st, tys, heap)
  {
    assert Reads(i.op)[0] == i.op.v && Reads(i.op)[1] == i.op.p;
    var v := OperandIs(env, i.op, 0, prev, st.regs, tys, heap);
    var q := OperandIs(env, i.op, 1, prev, st.regs, tys, heap);
    StoreIs(v, q, TypeOf(i.op.v, tys).value, st, tys, heap);
    var r := StoreTo(v, q, st.mem, st.world);
    assert HasTy(Undef, tys[i.id], heap);
    hide Eval, RegsTyped, HasTy, Uninitialised, OutOfReach, CellsTyped, Readable, StoreTo;
    if r.Some? {
      RegSet(State(st.regs, r.value.0, r.value.1), i.id, Undef, tys, heap);
    }
    hide Sound;
  }

  lemma AllocaSteps(env: Env, i: Instr, prev: nat, st: State, tys: Types, heap: seq<Ty>)
    requires Sound(st, tys, heap) && InstrTyped(i, tys) && i.op.Alloca?
    ensures StepOk(env, i, prev, st, tys, heap)
  {
    var heap' := heap + [i.op.elem];
    var st' := Step(env, i, prev, st).st;
    forall o | 0 <= o < |heap'| ensures CellsTyped(st'.mem[o], heap'[o], heap') {
      if o < |heap| {
        assert CellsTyped(st.mem[o], heap[o], heap);
      }
    }
  }

  lemma CallSteps(env: Env, i: Instr, prev: nat, st: State, tys: Types, heap: seq<Ty>)
    requires WordArgs(env) && Sound(st, tys, heap) && Readable(env, i.op, prev, st.regs) && InstrTyped(i, tys)
    requires i.op.Call?
    ensures StepOk(env, i, prev, st, tys, heap)
  {
    assert Reads(i.op) == i.op.args;
    var xs := EvalAll(env, i.op.args, st.regs).value;
    var (v, w) := CallRuntime(env.rt, i.op.callee, xs, st.world);
    assert HasTy(v, VALUE, heap);
    hide Eval, RegsTyped, HasTy, CellsTyped, Readable, CallRuntime;
    RegSet(st.(world := w), i.id, v, tys, heap);
  }

  lemma {:induction false} PhiEdge(op: Op, prev: nat, tys: Types)
    requires op.Phi? && OpType(op, tys).Some? && Incoming(op.incoming, prev).Some?
    ensures TypeOf(Incoming(op.incoming, prev).value, tys) == OpType(op, tys)
  {
    EdgeIn(op.incoming, prev);
  }

  lemma {:induction false} EdgeIn(incoming: seq<(Operand, nat)>, prev: nat)
    requires Incoming(incoming, prev).Some?
    ensures exists k :: 0 <= k < |incoming| && incoming[k] == (Incoming(incoming, prev).value, prev)
    decreases |incoming|
  {
    if incoming[0].1 != prev {
      EdgeIn(incoming[1..], prev);
      var k :| 0 <= k < |incoming| - 1 && incoming[1..][k] == (Incoming(incoming, prev).value, prev);
      assert incoming[k + 1] == incoming[1..][k];
    } else {
      assert incoming[0] == (Incoming(incoming, prev).value, prev);
    }
  }

  lemma PhiSteps(env: Env, i: Instr, prev: nat, st: State, tys: Types, heap: seq<Ty>)
    requires WordArgs(env) && Sound(st, tys, heap) && Readable(env, i.op, prev, st.regs) && InstrTyped(i, tys)
    requires i.op.Phi?
    ensures StepOk(env, i, prev, st, tys, heap)
  {
    var o := Incoming(i.op.incoming, prev).value;
    PhiEdge(i.op, prev, tys);
    EvalTyped(env, o, st.regs, tys, heap);
    hide Eval, RegsTyped, HasTy, CellsTyped, Incoming, OpType;
    RegSet(st, i.id, Eval(env, o, st.regs).value, tys, heap);
  }

  lemma ExitSteps(env: Env, i: Instr, prev: nat, st: State, tys: Types, heap: seq<Ty>)
    requires WordArgs(env) && Sound(st, tys, heap) && Readable(env, i.op, prev, st.regs) && InstrTyped(i, tys)
    requires i.op.IsTerminator()
    ensures StepOk(env, i, prev, st, tys, heap)
  {
    if !i.op.Br? {
      assert Reads(i.op)[0] == if i.op.Ret? then i.op.v else i.op.cond;
      var v := OperandIs(env, i.op, 0, prev, st.regs, tys, heap);
      hide Eval, RegsTyped, Uninitialised, CellsTyped, Readable, Sound, Norm;
    }
  }

  /** An instruction of a typed function keeps a sound state sound, or is stuck for one of the reasons. */
  lemma StepSound(env: Env, i: Instr, prev: nat, st: State, tys: Types, heap: seq<Ty>)
    requires WordArgs(env) && Sound(st, tys, heap) && Readable(env, i.op, prev, st.regs) && InstrTyped(i, tys)
    ensures StepOk(env, i, prev, st, tys, heap)
  {
    hide Sound, Readable, InstrTyped, StepOk, WordArgs;
    match i.op
    case Load(_) => LoadSteps(env, i, prev, st, tys, heap);
    case Store(_, _) => StoreSteps(env, i, prev, st, tys, heap);
    case Alloca(_, _) => AllocaSteps(env, i, prev, st, tys, heap);
    case Call(_, _) => CallSteps(env, i, prev, st, tys, heap);
    case Phi(_) => PhiSteps(env, i, prev, st, tys, heap);
    case Br(_) => ExitSteps(env, i, prev, st, tys, heap);
    case CondBr(_, _, _) => ExitSteps(env, i, prev, st, tys, heap);
    case Ret(_) => ExitSteps(env, i, prev, st, tys, heap);
    case _ => PureSteps(env, i, prev, st, tys, heap);
  }

  // ---------- registers on the way ----------

  /** What the first k instructions of a block define is there. */
  predicate Has(block: Block, k: nat, regs: map<nat, Val>) {
    k <= |block| && forall j :: 0 <= j < k && !block[j].op.IsTerminator() ==> block[j].id in regs
  }

  /** Control has come this way through the function, and has run k instructions of the last block. */
  predicate Held(f: Func, path: seq<nat>, k: nat, regs: map<nat, Val>) {
    |path| > 0 && (forall i :: 0 <= i < |path| ==> path[i] < |f|)
    && (forall i :: 0 <= i < |path| - 1 ==> Has(f[path[i]], |f[path[i]]|, regs))
    && Has(f[path[|path| - 1]], k, regs)
  }

  lemma AvailableHeld(f: Func, path: seq<nat>, b: nat, k: nat, id: nat, regs: map<nat, Val>)
    requires Available(f, id, b, k) && IsPath(f, path, b) && Held(f, path, k, regs)
    ensures id in regs
  {
    var d: nat, j: nat :|
      DefinedAt(f, d, j, id) && !f[d][j].op.IsTerminator() && (if d == b then j < k else Dominates(f, d, b));
    if d != b {
      assert d in path;
      var i :| 0 <= i < |path| && path[i] == d;
      assert Has(f[path[i]], |f[path[i]]|, regs);
    }
  }

  lemma ReadsTyped(op: Op, tys: Types, k: nat)
    requires OpType(op, tys).Some? && k < |Reads(op)|
    ensures TypeOf(Reads(op)[k], tys).Some?
  {
    hide TypeOf;
    if op.Call? {
      assert ArgsFit(Params(op.callee), op.args, tys);
    }
  }

  lemma OperandThere(env: Env, o: Operand, regs: map<nat, Val>, tys: Types)
    requires TypeOf(o, tys).Some? && (o.Reg? ==> o.id in regs)
    ensures Eval(env, o, regs).Some?
  {
  }

  /** Control flow, single assignment and types are as they should be; the entry block has no phi. */
  ghost predicate Static(f: Func, tys: Types) {
    IsCfg(f) && IsSsa(f) && TypedBy(f, tys) && forall k :: 0 <= k < |f[0]| ==> !f[0][k].op.Phi?
  }

  lemma StaticAt(f: Func, tys: Types, b: nat, k: nat)
    requires Static(f, tys) && b < |f| && k < |f[b]|
    ensures ReadsAvailable(f, b, k) && PhiFits(f, b, k) && InstrTyped(f[b][k], tys) && (b == 0 ==> !f[b][k].op.Phi?)
  {
    hide IsCfg, ReadsAvailable, PhiFits, OpType, DefinedOnce;
  }

  lemma StaticBlock(f: Func, tys: Types, b: nat)
    requires Static(f, tys) && b < |f|
    ensures Closed(f[b]) && forall t :: t in Successors(f[b]) ==> 0 < t < |f|
  {
    hide IsSsa, TypedBy, Closed, Successors;
  }

  lemma PathEnd(f: Func, path: seq<nat>, b: nat)
    requires IsPath(f, path, b) && |path| > 1
    ensures var p := path[|path| - 2];
      p < |f| && IsPath(f, path[..|path| - 1], p) && b in Successors(f[p]) && b < |f|
  {
    hide Successors;
    var n := |path| - 2;
    assert path[n + 1] in Successors(f[path[n]]);
  }

  lemma HeldBefore(f: Func, path: seq<nat>, k: nat, regs: map<nat, Val>)
    requires Held(f, path, k, regs) && |path| > 1
    ensures var p := path[|path| - 2]; p < |f| && Held(f, path[..|path| - 1], |f[p]|, regs)
  {
    hide Has;
    var p := path[|path| - 2];
    assert Has(f[p], |f[p]|, regs);
  }

  lemma PhiThere(env: Env, f: Func, tys: Types, path: seq<nat>, b: nat, k: nat, regs: map<nat, Val>)
    requires Static(f, tys) && IsPath(f, path, b) && |path| > 1 && b < |f| && k < |f[b]| && f[b][k].op.Phi?
    requires Held(f, path, k, regs)
    ensures var o := Incoming(f[b][k].op.incoming, path[|path| - 2]);
      o.Some? && Eval(env, o.value, regs).Some?
  {
    StaticAt(f, tys, b, k);
    PathEnd(f, path, b);
    HeldBefore(f, path, k, regs);
    var incoming, p := f[b][k].op.incoming, path[|path| - 2];
    hide Static, IsPath, Held, Available, Successors;
    assert ComesFrom(incoming, p);
    ComesIncoming(incoming, p);
    var o := Incoming(incoming, p).value;
    EdgeIn(incoming, p);
    PhiEdge(f[b][k].op, p, tys);
    if o.Reg? {
      assert (o, p) in incoming;
      AvailableHeld(f, path[..|path| - 1], p, |f[p]|, o.id, regs);
    }
    OperandThere(env, o, regs, tys);
  }

  lemma {:induction false} ComesIncoming(incoming: seq<(Operand, nat)>, p: nat)
    requires ComesFrom(incoming, p)
    ensures Incoming(incoming, p).Some?
    decreases |incoming|
  {
    var k :| 0 <= k < |incoming| && incoming[k].1 == p;
    if incoming[0].1 != p {
      assert incoming[1..][k - 1].1 == p;
      ComesIncoming(incoming[1..], p);
    }
  }

  /** Every register that an instruction reads has been defined by the time control is there. */
  lemma NothingUnread(env: Env, f: Func, tys: Types, path: seq<nat>, b: nat, k: nat, prev: nat, regs: map<nat, Val>)
    requires Static(f, tys) && IsPath(f, path, b) && b < |f| && k < |f[b]| && Held(f, path, k, regs)
    requires |path| > 1 ==> prev == path[|path| - 2]
    ensures Readable(env, f[b][k].op, prev, regs)
  {
    var op := f[b][k].op;
    StaticAt(f, tys, b, k);
    hide Static, Held, Available, OpType, Eval, TypeOf, PhiFits;
    forall j | 0 <= j < |Reads(op)| ensures Eval(env, Reads(op)[j], regs).Some? {
      var o := Reads(op)[j];
      ReadsTyped(op, tys, j);
      if o.Reg? {
        assert o in Reads(op);
        AvailableHeld(f, path, b, k, o.id, regs);
      }
      OperandThere(env, o, regs, tys);
    }
    if op.Phi? {
      assert |path| > 1;
      PhiThere(env, f, tys, path, b, k, regs);
    }
  }

  // ---------- blocks ----------

  /** One of the reasons for which a typed instruction can be stuck. */
  predicate Reason(env: Env, i: Instr, st: State) {
    Uninitialised(env, i.op, st.regs) || OutOfBounds(env, i.op, st)
  }

  /** The outcome of a block that was entered on the given path, from instruction k on. */
  ghost predicate BlockOk(env: Env, f: Func, tys: Types, path: seq<nat>, b: nat, k: nat, prev: nat, st: State,
                          heap: seq<Ty>, k': nat, st': State)
    requires b < |f| && k <= |f[b]|
  {
    match Exec(env, f[b], k, prev, st)
    case Jumped(to, st1) => IsPath(f, path + [to], to) && Held(f, path + [to], 0, st1.regs) && Sound(st1, tys, heap)
    case Returned(v, st1) => HasTy(v, VALUE, heap)
    case Stuck =>
      k <= k' < |f[b]| && Exec(env, f[b][..k'], k, prev, st) == Fell(st') && Reason(env, f[b][k'], st')
    case Fell(_) => false
  }

  lemma HeldNext(f: Func, path: seq<nat>, b: nat, k: nat, regs: map<nat, Val>, regs': map<nat, Val>)
    requires IsPath(f, path, b) && b < |f| && k < |f[b]| && Held(f, path, k, regs)
    requires regs'.Keys == regs.Keys + {f[b][k].id}
    ensures Held(f, path, k + 1, regs')
  {
    hide Successors;
    assert forall i :: 0 <= i < |path| - 1 ==> Has(f[path[i]], |f[path[i]]|, regs);
    assert forall id :: id in regs.Keys ==> id in regs'.Keys;
    assert f[b][k].id in regs'.Keys;
  }

  lemma PathOn(f: Func, path: seq<nat>, b: nat, to: nat, k: nat, regs: map<nat, Val>)
    requires IsPath(f, path, b) && b < |f| && k == |f[b]| - 1 && Held(f, path, k, regs) && Closed(f[b])
    requires to in Successors(f[b]) && to < |f|
    ensures IsPath(f, path + [to], to) && Held(f, path + [to], 0, regs)
  {
    hide Successors;
    assert Has(f[b], |f[b]|, regs);
    var p := path + [to];
    forall i | 0 <= i < |p| - 1 ensures p[i + 1] in Successors(f[p[i]]) && Has(f[p[i]], |f[p[i]]|, regs) {
      if i < |path| - 1 {
        assert path[i + 1] in Successors(f[path[i]]);
        assert Has(f[path[i]], |f[path[i]]|, regs);
      }
    }
  }

  lemma LastIsTerminator(block: Block, k: nat)
    requires Closed(block) && k < |block|
    ensures block[k].op.IsTerminator() <==> k == |block| - 1
    ensures Successors(block) == block[|block| - 1].op.Targets()
  {
  }

  lemma ExecIs(env: Env, code: Block, k: nat, prev: nat, st: State)
    requires k < |code|
    ensures Exec(env, code, k, prev, st)
         == var r := Step(env, code[k], prev, st); if r.Fell? then Exec(env, code, k + 1, prev, r.st) else r
  {
    hide Step;
  }

  lemma ExecPrefix(env: Env, code: Block, k: nat, k': nat, prev: nat, st: State, st1: State)
    requires k < k' <= |code| && Step(env, code[k], prev, st) == Fell(st1)
    ensures Exec(env, code[..k'], k, prev, st) == Exec(env, code[..k'], k + 1, prev, st1)
  {
    hide Step;
    assert code[..k'][k] == code[k];
    ExecIs(env, code[..k'], k, prev, st);
  }

  lemma StepOkIs(env: Env, i: Instr, prev: nat, st: State, tys: Types, heap: seq<Ty>)
    requires StepOk(env, i, prev, st, tys, heap)
    ensures var r := Step(env, i, prev, st);
      (r.Fell? ==> !i.op.IsTerminator() && r.st.regs.Keys == st.regs.Keys + {i.id}
                   && Sound(r.st, tys, if i.op.Alloca? then heap + [i.op.elem] else heap))
      && (r.Jumped? ==> r.to in i.op.Targets() && r.st == st && i.op.IsTerminator())
      && (r.Returned? ==> HasTy(r.v, VALUE, heap))
      && (r.Stuck? ==> Reason(env, i, st))
  {
    hide Step, Sound, HasTy, Uninitialised, OutOfBounds;
  }

  lemma {:induction false} BlockSound(env: Env, f: Func, tys: Types, path: seq<nat>, b: nat, k: nat, prev: nat,
                                      st: State, heap: seq<Ty>)
    returns (heap': seq<Ty>, k': nat, st': State)
    requires WordArgs(env) && Static(f, tys) && IsPath(f, path, b) && b < |f| && k < |f[b]|
    requires Held(f, path, k, st.regs) && Sound(st, tys, heap) && (|path| > 1 ==> prev == path[|path| - 2])
    ensures BlockOk(env, f, tys, path, b, k, prev, st, heap', k', st')
    decreases |f[b]| - k
  {
    hide *;
    StaticAt(f, tys, b, k);
    StaticBlock(f, tys, b);
    NothingUnread(env, f, tys, path, b, k, prev, st.regs);
    StepSound(env, f[b][k], prev, st, tys, heap);
    StepOkIs(env, f[b][k], prev, st, tys, heap);
    LastIsTerminator(f[b], k);
    ExecIs(env, f[b], k, prev, st);
    var r := Step(env, f[b][k], prev, st);
    heap', k', st' := heap, k, st;
    if r.Fell? {
      HeldNext(f, path, b, k, st.regs, r.st.regs);
      var heap1 := if f[b][k].op.Alloca? then heap + [f[b][k].op.elem] else heap;
      heap', k', st' := BlockSound(env, f, tys, path, b, k + 1, prev, r.st, heap1);
      OnwardOk(env, f, tys, path, b, k, prev, st, r.st, heap', k', st');
    } else {
      if r.Jumped? {
        PathOn(f, path, b, r.to, k, st.regs);
      }
      EndOk(env, f, tys, path, b, k, prev, st, heap);
    }
  }

  lemma OnwardOk(env: Env, f: Func, tys: Types, path: seq<nat>, b: nat, k: nat, prev: nat, st: State, st1: State,
                 heap: seq<Ty>, k': nat, st': State)
    requires b < |f| && k + 1 <= |f[b]| && Step(env, f[b][k], prev, st) == Fell(st1)
    requires BlockOk(env, f, tys, path, b, k + 1, prev, st1, heap, k', st')
    ensures BlockOk(env, f, tys, path, b, k, prev, st, heap, k', st')
  {
    hide Step, IsPath, Held, Sound, HasTy, Reason;
    ExecIs(env, f[b], k, prev, st);
    if Exec(env, f[b], k + 1, prev, st1).Stuck? {
      ExecPrefix(env, f[b], k, k', prev, st, st1);
    }
    hide Exec;
  }

  lemma EndOk(env: Env, f: Func, tys: Types, path: seq<nat>, b: nat, k: nat, prev: nat, st: State, heap: seq<Ty>)
    requires b < |f| && k < |f[b]| && !Step(env, f[b][k], prev, st).Fell?
    requires var r := Step(env, f[b][k], prev, st);
      (r.Jumped? ==> IsPath(f, path + [r.to], r.to) && Held(f, path + [r.to], 0, r.st.regs) && Sound(r.st, tys, heap))
      && (r.Returned? ==> HasTy(r.v, VALUE, heap)) && (r.Stuck? ==> Reason(env, f[b][k], st))
    ensures BlockOk(env, f, tys, path, b, k, prev, st, heap, k, st)
  {
    hide Step, IsPath, Held, Sound, HasTy, Reason;
    ExecIs(env, f[b], k, prev, st);
    ExecEnd(env, f[b][..k], prev, st);
    hide Exec;
  }

  // ---------- runs ----------

  /** Control has come along the path, and everything holds values of its type. */
  ghost predicate OnTheWay(f: Func, tys: Types, path: seq<nat>, heap: seq<Ty>, c: Config) {
    c.At? && c.block < |f| && IsPath(f, path, c.block) && Held(f, path, 0, c.st.regs) && Sound(c.st, tys, heap)
    && (|path| > 1 ==> c.prev == path[|path| - 2])
  }

  /** The m-th block of the run is stuck at instruction k, in state st, for one of the reasons. */
  predicate StuckAt(env: Env, f: Func, w: World, m: nat, k: nat, st: State) {
    var c := Run(env, f, Start(w), m);
    c.At? && c.block < |f| && k < |f[c.block]|
    && Exec(env, f[c.block][..k], 0, c.prev, c.st) == Fell(st) && Reason(env, f[c.block][k], st)
  }

  /** The outcome of a run of n blocks. */
  ghost predicate RunOk(env: Env, f: Func, tys: Types, w: World, n: nat, path: seq<nat>, heap: seq<Ty>, m: nat, k: nat,
                        st: State)
  {
    match Run(env, f, Start(w), n)
    case At(b, prev, st1) => OnTheWay(f, tys, path, heap, At(b, prev, st1))
    case Done(v, st1) => HasTy(v, VALUE, heap)
    case Wrong => m < n && StuckAt(env, f, w, m, k, st)
  }

  lemma StartOk(env: Env, f: Func, tys: Types, w: World)
    requires Static(f, tys)
    ensures OnTheWay(f, tys, [0], [], Start(w)) && 0 < |f|
  {
  }

  lemma RunNext(env: Env, f: Func, w: World, n: nat)
    ensures Run(env, f, Start(w), n + 1) == StepBlock(env, f, Run(env, f, Start(w), n))
  {
    RunSplit(env, f, Start(w), n, 1);
    OneRun(env, f, Run(env, f, Start(w), n));
  }

  lemma {:induction false} OneRun(env: Env, f: Func, c: Config)
    ensures Run(env, f, c, 1) == StepBlock(env, f, c)
  {
    assert Run(env, f, StepBlock(env, f, c), 0) == StepBlock(env, f, c);
  }

  lemma {:induction false} BlockStep(env: Env, f: Func, tys: Types, w: World, n: nat, path: seq<nat>, heap: seq<Ty>,
                                     k: nat, st: State, heap0: seq<Ty>)
    requires var c := Run(env, f, Start(w), n);
      OnTheWay(f, tys, path, heap0, c) && BlockOk(env, f, tys, path, c.block, 0, c.prev, c.st, heap, k, st)
    ensures var c := Run(env, f, Start(w), n);
      var r := Exec(env, f[c.block], 0, c.prev, c.st);
      RunOk(env, f, tys, w, n + 1, if r.Jumped? then path + [r.to] else path, heap, n, k, st)
  {
    RunNext(env, f, w, n);
    var c := Run(env, f, Start(w), n);
    hide Run, Exec, Held, Sound, HasTy, Reason, Successors;
    var r := Exec(env, f[c.block], 0, c.prev, c.st);
    if r.Jumped? {
      assert (path + [r.to])[|path| - 1] == path[|path| - 1] == c.block;
    }
  }

  lemma {:induction false} RunSound(env: Env, f: Func, tys: Types, w: World, n: nat)
    returns (path: seq<nat>, heap: seq<Ty>, m: nat, k: nat, st: State)
    requires WordArgs(env) && Static(f, tys)
    ensures RunOk(env, f, tys, w, n, path, heap, m, k, st)
    decreases n
  {
    hide *;
    StartOk(env, f, tys, w);
    path, heap, m, k, st := [0], [], 0, 0, State(map[], [], w);
    if n == 0 {
      NoBlocks(env, f, tys, w, m, k, st);
    } else {
      path, heap, m, k, st := RunSound(env, f, tys, w, n - 1);
      var c := Run(env, f, Start(w), n - 1);
      if c.At? {
        RunOkAt(env, f, tys, w, n - 1, path, heap, m, k, st);
        var heap0 := heap;
        heap, k, st := BlockSound(env, f, tys, path, c.block, 0, c.prev, c.st, heap0);
        BlockStep(env, f, tys, w, n - 1, path, heap, k, st, heap0);
        var r := Exec(env, f[c.block], 0, c.prev, c.st);
        path, m := if r.Jumped? then path + [r.to] else path, n - 1;
      } else {
        RunOkFinal(env, f, tys, w, n - 1, path, heap, m, k, st);
      }
    }
  }

  lemma NoBlocks(env: Env, f: Func, tys: Types, w: World, m: nat, k: nat, st: State)
    requires OnTheWay(f, tys, [0], [], Start(w))
    ensures RunOk(env, f, tys, w, 0, [0], [], m, k, st)
  {
    assert Run(env, f, Start(w), 0) == Start(w);
    hide OnTheWay;
  }

  lemma {:induction false} RunOkAt(env: Env, f: Func, tys: Types, w: World, n: nat, path: seq<nat>, heap: seq<Ty>,
                                   m: nat, k: nat, st: State)
    requires RunOk(env, f, tys, w, n, path, heap, m, k, st) && Run(env, f, Start(w), n).At? && Static(f, tys)
    ensures var c := Run(env, f, Start(w), n);
      OnTheWay(f, tys, path, heap, c) && c.block < |f| && 0 < |f[c.block]| && IsPath(f, path, c.block)
      && Held(f, path, 0, c.st.regs) && Sound(c.st, tys, heap) && (|path| > 1 ==> c.prev == path[|path| - 2])
  {
    StaticBlock(f, tys, Run(env, f, Start(w), n).block);
    hide Run, IsPath, Held, Sound, Static;
  }

  lemma RunOkFinal(env: Env, f: Func, tys: Types, w: World, n: nat, path: seq<nat>, heap: seq<Ty>, m: nat, k: nat,
                   st: State)
    requires RunOk(env, f, tys, w, n, path, heap, m, k, st) && !Run(env, f, Start(w), n).At?
    ensures RunOk(env, f, tys, w, n + 1, path, heap, m, k, st)
  {
    RunNext(env, f, w, n);
    hide Run, StuckAt, HasTy;
  }

  // ---------- compiled functions ----------

  lemma EntryHasNoPhi(bc: Bytecode, base: nat)
    requires WellFormed(bc)
    ensures var f: Func := Compile(bc, base).blocks;
      |f| > 0 && forall k :: 0 <= k < |f[0]| ==> !f[0][k].op.Phi?
  {
    EntryBlock(bc, base);
    hide Compile, WellFormed;
  }

  /**
   * Type safety of every compiled function, in every run on two words: registers and the cells of the three memory
   * objects hold values of their types, no instruction reads a register that is not there, and a function that goes
   * wrong does so at an operand that was never initialised or an address out of bounds.
   */
  lemma CompiledIsSafe(env: Env, bc: Bytecode, base: nat, w: World, n: nat)
    returns (tys: Types, path: seq<nat>, heap: seq<Ty>, m: nat, k: nat, st: State)
    requires WellFormed(bc) && WordArgs(env)
    ensures Static(Compile(bc, base).blocks, tys)
    ensures RunOk(env, Compile(bc, base).blocks, tys, w, n, path, heap, m, k, st)
  {
    var f: Func := Compile(bc, base).blocks;
    CompiledIsCfg(bc, base);
    CompiledIsSsa(bc, base);
    CompiledIsTyped(bc, base);
    EntryHasNoPhi(bc, base);
    hide Compile, IsCfg, IsSsa, TypedBy, WellFormed, RunOk, WordArgs;
    tys :| TypedBy(f, tys);
    path, heap, m, k, st := RunSound(env, f, tys, w, n);
  }
}
