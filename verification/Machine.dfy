// The intermediate representation that the bindings build, and a machine that runs it.

module IR {
  import opened Words

  /** The C functions of the interpreter that generated code calls. */
  datatype Callee =
    | AryNew
    | HashNew
    | HashAset
    | AryStore
    | ToId
    | IvarGet
    | IvarSet
    | Funcall2

  /** Integers, pointers, pointers to an RARRAY, and the type of instructions without a result. */
  datatype Ty = IntT(width: IntTy) | PtrT(to: Ty) | ArrayT | VoidT

  const VALUE: Ty := IntT(WORD)
  const P_VALUE: Ty := PtrT(VALUE)

  datatype Operand =
    | Const(ty: IntTy, n: int)
    | Arg(i: nat)
    | Reg(id: nat)

  datatype BinOp = Add | Sub | Mul | UDiv | Shl | LShr | Xor | And

  datatype Pred = Eq | Ult | Slt | Sgt | Sge

  datatype Op =
    | Alloca(elem: Ty, count: nat)
    | Load(p: Operand)
    | Store(v: Operand, p: Operand)
    | Gep(p: Operand, index: Operand)
    | StructGep(p: Operand, field: nat)
    | IntToPtr(v: Operand)
    | Bin(op: BinOp, x: Operand, y: Operand)
    | Icmp(pred: Pred, x: Operand, y: Operand)
    | IntCast(v: Operand, ty: IntTy, signed: bool)
    | Phi(incoming: seq<(Operand, nat)>)
    | Call(callee: Callee, args: seq<Operand>)
    | Br(to: nat)
    | CondBr(cond: Operand, yes: nat, no: nat)
    | Ret(v: Operand)
  {
    /** Touches registers only. */
    predicate IsPure() {
      Gep? || StructGep? || IntToPtr? || Bin? || Icmp? || IntCast?
    }

    predicate IsTerminator() {
      Br? || CondBr? || Ret?
    }

    function Targets(): set<nat> {
      match this
      case Br(to) => {to}
      case CondBr(_, yes, no) => {yes, no}
      case _ => {}
    }
  }

  /** An instruction and its identity; the identity is also the register it defines. */
  datatype Instr = Instr(id: nat, op: Op)

  type Block = seq<Instr>

  /** A function body: block 0 is the entry. */
  type Func = seq<Block>
}

module Machine {
  import opened Options
  import opened Words
  import opened IR

  datatype Val =
    | Int(ty: IntTy, n: int)
    | Cell(obj: nat, off: int)      // a cell of an alloca'd object
    | ArrayHeader(addr: int)        // an RARRAY*
    | ArrayLen(addr: int)           // the address of its length field
    | ArrayData(addr: int)          // the address of its data pointer
    | Slot(addr: int, off: int)     // the address of one of its elements
    | Undef                         // an uninitialised cell, or the result of a void instruction

  datatype Event = Event(callee: Callee, args: seq<Val>, ret: Val)

  /** What lies outside the generated code: the interpreter's arrays and the calls made to it so far. */
  datatype World = World(arrays: map<int, seq<int>>, log: seq<Event>)

  /** How the interpreter answers a call: any function of the arguments and of all that happened before. */
  type Runtime = (Callee, seq<Val>, World) -> (int, map<int, seq<int>>)

  /** The two arguments of a function, and the interpreter. */
  datatype Env = Env(self: Val, arg: Val, rt: Runtime)

  datatype State = State(regs: map<nat, Val>, mem: seq<seq<Val>>, world: World)

  function WordVal(n: int): Val {
    Int(WORD, Norm(WORD, n))
  }

  function CallRuntime(rt: Runtime, callee: Callee, args: seq<Val>, w: World): (Val, World) {
    var (n, arrays) := rt(callee, args, w);
    (WordVal(n), World(arrays, w.log + [Event(callee, args, WordVal(n))]))
  }

  // ---------- values ----------

  function EvalBin(op: BinOp, x: Val, y: Val): Option<Val> {
    if !x.Int? || !y.Int? || x.ty != y.ty then None
    else
      var a, b := Norm(x.ty, x.n), Norm(x.ty, y.n);
      match op
      case Add => Some(Int(x.ty, Norm(x.ty, a + b)))
      case Sub => Some(Int(x.ty, Norm(x.ty, a - b)))
      case Mul => Some(Int(x.ty, Norm(x.ty, a * b)))
      case UDiv => if b == 0 then None else Some(Int(x.ty, a / b))
      case Shl => Some(Int(x.ty, Norm(x.ty, a * Pow2(b))))
      case LShr => Some(Int(x.ty, a / Pow2(b)))
      case Xor => Some(Int(x.ty, XorBits(a, b)))
      case And => Some(Int(x.ty, AndBits(a, b)))
  }

  predicate Holds(pred: Pred, t: IntTy, a: int, b: int) {
    match pred
    case Eq => Norm(t, a) == Norm(t, b)
    case Ult => Norm(t, a) < Norm(t, b)
    case Slt => Signed(t, a) < Signed(t, b)
    case Sgt => Signed(t, a) > Signed(t, b)
    case Sge => Signed(t, a) >= Signed(t, b)
  }

  function Truth(b: bool): Val {
    Int(I1, if b then 1 else 0)
  }

  function EvalIcmp(pred: Pred, x: Val, y: Val): Option<Val> {
    if !x.Int? || !y.Int? || x.ty != y.ty then None
    else Some(Truth(Holds(pred, x.ty, x.n, y.n)))
  }

  function EvalCast(v: Val, ty: IntTy, signed: bool): Option<Val> {
    if !v.Int? then None
    else Some(Int(ty, Norm(ty, if signed then Signed(v.ty, v.n) else Norm(v.ty, v.n))))
  }

  function EvalIntToPtr(v: Val): Option<Val> {
    if v.Int? && v.ty == WORD then Some(ArrayHeader(Norm(WORD, v.n))) else None
  }

  function EvalStructGep(p: Val, field: nat): Option<Val> {
    if !p.ArrayHeader? then None
    else if field == 1 then Some(ArrayLen(p.addr))
    else if field == 3 then Some(ArrayData(p.addr))
    else None
  }

  function EvalGep(p: Val, index: Val): Option<Val> {
    if !index.Int? then None
    else
      match p
      case Cell(obj, off) => Some(Cell(obj, off + Signed(index.ty, index.n)))
      case Slot(addr, off) => Some(Slot(addr, off + Signed(index.ty, index.n)))
      case _ => None
  }

  function LoadFrom(p: Val, mem: seq<seq<Val>>, w: World): Option<Val> {
    match p
    case Cell(obj, off) =>
      if obj < |mem| && 0 <= off < |mem[obj]| then Some(mem[obj][off]) else None
    case ArrayLen(addr) =>
      if addr in w.arrays then Some(WordVal(|w.arrays[addr]|)) else None
    case ArrayData(addr) =>
      if addr in w.arrays then Some(Slot(addr, 0)) else None
    case Slot(addr, off) =>
      if addr in w.arrays && 0 <= off < |w.arrays[addr]| then Some(WordVal(w.arrays[addr][off])) else None
    case _ => None
  }

  function StoreTo(v: Val, p: Val, mem: seq<seq<Val>>, w: World): Option<(seq<seq<Val>>, World)> {
    match p
    case Cell(obj, off) =>
      if obj < |mem| && 0 <= off < |mem[obj]| then Some((mem[obj := mem[obj][off := v]], w)) else None
    case Slot(addr, off) =>
      if addr in w.arrays && 0 <= off < |w.arrays[addr]| && v.Int? && v.ty == WORD
      then Some((mem, w.(arrays := w.arrays[addr := w.arrays[addr][off := Norm(WORD, v.n)]])))
      else None
    case _ => None
  }

  // ---------- instructions ----------

  function Eval(env: Env, o: Operand, regs: map<nat, Val>): Option<Val> {
    match o
    case Const(ty, n) => Some(Int(ty, Norm(ty, n)))
    case Arg(i) => if i == 0 then Some(env.self) else if i == 1 then Some(env.arg) else None
    case Reg(id) => if id in regs then Some(regs[id]) else None
  }

  function EvalAll(env: Env, os: seq<Operand>, regs: map<nat, Val>): Option<seq<Val>> {
    if forall i :: 0 <= i < |os| ==> Eval(env, os[i], regs).Some?
    then Some(seq(|os|, i requires 0 <= i < |os| => Eval(env, os[i], regs).value))
    else None
  }

  function Incoming(incoming: seq<(Operand, nat)>, prev: nat): Option<Operand> {
    if incoming == [] then None
    else if incoming[0].1 == prev then Some(incoming[0].0)
    else Incoming(incoming[1..], prev)
  }

  /** The value of an instruction that touches registers only. */
  function Pure(env: Env, op: Op, regs: map<nat, Val>): Option<Val> {
    match op
    case Gep(p, index) =>
      var q, n := Eval(env, p, regs), Eval(env, index, regs);
      if q.Some? && n.Some? then EvalGep(q.value, n.value) else None
    case StructGep(p, field) =>
      var q := Eval(env, p, regs);
      if q.Some? then EvalStructGep(q.value, field) else None
    case IntToPtr(v) =>
      var x := Eval(env, v, regs);
      if x.Some? then EvalIntToPtr(x.value) else None
    case Bin(op, x, y) =>
      var a, b := Eval(env, x, regs), Eval(env, y, regs);
      if a.Some? && b.Some? then EvalBin(op, a.value, b.value) else None
    case Icmp(pred, x, y) =>
      var a, b := Eval(env, x, regs), Eval(env, y, regs);
      if a.Some? && b.Some? then EvalIcmp(pred, a.value, b.value) else None
    case IntCast(v, ty, signed) =>
      var x := Eval(env, v, regs);
      if x.Some? then EvalCast(x.value, ty, signed) else None
    case _ => None
  }

  datatype Result =
    | Fell(st: State)
    | Jumped(to: nat, st: State)
    | Returned(v: Val, st: State)
    | Stuck

  function Define(st: State, id: nat, v: Option<Val>): Result {
    if v.Some? then Fell(st.(regs := st.regs[id := v.value])) else Stuck
  }

  /** Runs one instruction; prev is the block that control came from. */
  function Step(env: Env, i: Instr, prev: nat, st: State): Result {
    var regs := st.regs;
    match i.op
    case Alloca(_, count) =>
      // a count of zero still yields one usable cell
      var cells := seq(if count == 0 then 1 else count, _ => Undef);
      Fell(State(regs[i.id := Cell(|st.mem|, 0)], st.mem + [cells], st.world))
    case Load(p) =>
      var q := Eval(env, p, regs);
      Define(st, i.id, if q.Some? then LoadFrom(q.value, st.mem, st.world) else None)
    case Store(v, p) =>
      var x, q := Eval(env, v, regs), Eval(env, p, regs);
      if x.None? || q.None? then Stuck
      else
        var r := StoreTo(x.value, q.value, st.mem, st.world);
        if r.None? then Stuck else Fell(State(regs[i.id := Undef], r.value.0, r.value.1))
    case Phi(incoming) =>
      var o := Incoming(incoming, prev);
      Define(st, i.id, if o.Some? then Eval(env, o.value, regs) else None)
    case Call(callee, args) =>
      var xs := EvalAll(env, args, regs);
      if xs.None? then Stuck
      else
        var (v, w) := CallRuntime(env.rt, callee, xs.value, st.world);
        Fell(State(regs[i.id := v], st.mem, w))
    case Br(to) => Jumped(to, st)
    case CondBr(cond, yes, no) =>
      var c := Eval(env, cond, regs);
      if c.None? || !c.value.Int? || c.value.ty != I1 then Stuck
      else Jumped(if Norm(I1, c.value.n) == 1 then yes else no, st)
    case Ret(v) =>
      var x := Eval(env, v, regs);
      if x.None? then Stuck else Returned(x.value, st)
    case op => Define(st, i.id, Pure(env, op, regs))
  }

  /** Runs the instructions of a block from position k on. */
  function Exec(env: Env, code: Block, k: nat, prev: nat, st: State): Result
    requires k <= |code|
    decreases |code| - k
  {
    if k == |code| then Fell(st)
    else
      var r := Step(env, code[k], prev, st);
      if r.Fell? then Exec(env, code, k + 1, prev, r.st) else r
  }

  // ---------- functions ----------

  datatype Config =
    | At(block: nat, prev: nat, st: State)
    | Done(v: Val, final: State)
    | Wrong

  /** Where control is after a block has run. */
  function AfterBlock(block: nat, r: Result): Config {
    match r
    case Jumped(to, st) => At(to, block, st)
    case Returned(v, st) => Done(v, st)
    case _ => Wrong
  }

  /** Runs one block. */
  function StepBlock(env: Env, f: Func, c: Config): Config {
    match c
    case At(block, prev, st) =>
      if block >= |f| then Wrong else AfterBlock(block, Exec(env, f[block], 0, prev, st))
    case _ => c
  }

  function Run(env: Env, f: Func, c: Config, steps: nat): Config
    decreases steps
  {
    if steps == 0 then c else Run(env, f, StepBlock(env, f, c), steps - 1)
  }

  function Start(w: World): Config {
    At(0, 0, State(map[], [], w))
  }

  lemma {:induction false} RunSplit(env: Env, f: Func, c: Config, a: nat, b: nat)
    ensures Run(env, f, c, a + b) == Run(env, f, Run(env, f, c, a), b)
    decreases a
  {
    if a > 0 {
      RunSplit(env, f, StepBlock(env, f, c), a - 1, b);
    }
  }

  lemma {:induction false} RunOne(env: Env, f: Func, block: nat, code: Block, prev: nat, st: State)
    requires block < |f| && f[block] == code
    ensures Run(env, f, At(block, prev, st), 1) == AfterBlock(block, Exec(env, code, 0, prev, st))
  {
    assert Run(env, f, StepBlock(env, f, At(block, prev, st)), 0) == StepBlock(env, f, At(block, prev, st));
  }

  lemma {:induction false} RunJump(env: Env, f: Func, block: nat, code: Block, prev: nat, st: State, to: nat,
                                   st': State)
    requires block < |f| && f[block] == code && Exec(env, code, 0, prev, st) == Jumped(to, st')
    ensures Run(env, f, At(block, prev, st), 1) == At(to, block, st')
  {
    RunOne(env, f, block, code, prev, st);
  }

  lemma {:induction false} RunStuck(env: Env, f: Func, block: nat, code: Block, prev: nat, st: State)
    requires block < |f| && f[block] == code && Exec(env, code, 0, prev, st) == Stuck
    ensures Run(env, f, At(block, prev, st), 1) == Wrong
  {
    RunOne(env, f, block, code, prev, st);
  }

  /** Done and Wrong are final. */
  lemma {:induction false} RunFinal(env: Env, f: Func, c: Config, n: nat)
    requires !c.At?
    ensures Run(env, f, c, n) == c
    decreases n
  {
    if n > 0 {
      RunFinal(env, f, c, n - 1);
    }
  }

  // One step of Exec for each kind of instruction that succeeds, and one for any that fails.

  lemma DoLoad(env: Env, code: Block, k: nat, prev: nat, st: State, q: Val, v: Val)
    requires k < |code| && code[k].op.Load?
    requires Eval(env, code[k].op.p, st.regs) == Some(q) && LoadFrom(q, st.mem, st.world) == Some(v)
    ensures Exec(env, code, k, prev, st) == Exec(env, code, k + 1, prev, st.(regs := st.regs[code[k].id := v]))
  {
  }

  lemma DoStore(env: Env, code: Block, k: nat, prev: nat, st: State, x: Val, q: Val, mem: seq<seq<Val>>, w: World)
    requires k < |code| && code[k].op.Store?
    requires Eval(env, code[k].op.v, st.regs) == Some(x) && Eval(env, code[k].op.p, st.regs) == Some(q)
    requires StoreTo(x, q, st.mem, st.world) == Some((mem, w))
    ensures Exec(env, code, k, prev, st) == Exec(env, code, k + 1, prev, State(st.regs[code[k].id := Undef], mem, w))
  {
  }

  lemma DoPure(env: Env, code: Block, k: nat, prev: nat, st: State, v: Val)
    requires k < |code| && Pure(env, code[k].op, st.regs) == Some(v)
    ensures Exec(env, code, k, prev, st) == Exec(env, code, k + 1, prev, st.(regs := st.regs[code[k].id := v]))
  {
  }

  lemma {:induction false} ExecEnd(env: Env, code: Block, prev: nat, st: State)
    ensures Exec(env, code, |code|, prev, st) == Fell(st)
  {
  }

  lemma {:induction false} DoStuck(env: Env, code: Block, k: nat, prev: nat, st: State)
    requires k < |code| && Step(env, code[k], prev, st).Stuck?
    ensures Exec(env, code, k, prev, st) == Stuck
  {
  }

  /** Running two pieces of code one after the other. */
  function Then(env: Env, r: Result, code: Block, prev: nat): Result {
    if r.Fell? then Exec(env, code, 0, prev, r.st) else r
  }

  lemma {:induction false} ExecShift(env: Env, a: Block, b: Block, k: nat, prev: nat, st: State)
    requires k <= |b|
    ensures Exec(env, a + b, |a| + k, prev, st) == Exec(env, b, k, prev, st)
    decreases |b| - k
  {
    if k < |b| {
      assert (a + b)[|a| + k] == b[k];
      var r := Step(env, b[k], prev, st);
      if r.Fell? {
        ExecShift(env, a, b, k + 1, prev, r.st);
      }
    }
  }

  lemma {:induction false} ExecAppendFrom(env: Env, a: Block, b: Block, k: nat, prev: nat, st: State)
    requires k <= |a|
    ensures Exec(env, a + b, k, prev, st) == Then(env, Exec(env, a, k, prev, st), b, prev)
    decreases |a| - k
  {
    if k == |a| {
      ExecShift(env, a, b, 0, prev, st);
    } else {
      assert (a + b)[k] == a[k];
      var r := Step(env, a[k], prev, st);
      if r.Fell? {
        ExecAppendFrom(env, a, b, k + 1, prev, r.st);
      }
    }
  }

  lemma {:induction false} ExecAppend(env: Env, a: Block, b: Block, prev: nat, st: State)
    ensures Exec(env, a + b, 0, prev, st) == Then(env, Exec(env, a, 0, prev, st), b, prev)
  {
    ExecAppendFrom(env, a, b, 0, prev, st);
  }
}
