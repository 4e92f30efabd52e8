// The straight-line code of the S-expression compiler: its instructions, their types, and a machine that runs it.

module TextIR {
  import opened Options
  import opened Words

  /** The classes with a method table. */
  datatype Class = NumClass | StringClass

  /** INT, char*, RSTRING*, a pointer to a value of some type, and the type of instructions without a result. */
  datatype Ty = INT | CHAR_PTR | STRING_PTR | POINTER(to: Ty) | VOID

  /** Instruction k of a body leaves its result in temporary k. */
  datatype Operand = ConstInt(n: int) | Param(i: nat) | Tmp(k: nat)

  datatype Function = Method(cls: Class, name: string) | StrFromCstr | Printf | Sprintf | Strlen

  datatype Op =
    | GlobalString(s: string)
    | Invoke(f: Function, args: seq<Operand>)
    | Alloca(ty: Ty)
    | MallocString
    | MallocChars(room: nat)
    | Field(p: Operand, k: nat)
    | Load(p: Operand)
    | Store(v: Operand, p: Operand)
    | Add(x: Operand, y: Operand)
    | Sub(x: Operand, y: Operand)

  /** A function body: instructions and the value returned after them. */
  datatype Body = Body(ops: seq<Op>, ret: Operand)

  // ---------- declarations ----------

  /** A declared type; a variadic function takes anything after its parameters. */
  datatype Signature = Signature(ret: Ty, params: seq<Ty>, variadic: bool)

  function ObjType(cls: Class): Ty {
    match cls
    case NumClass => INT
    case StringClass => STRING_PTR
  }

  /** The lists from which the method tables are made: the type of the result, then those of the arguments. */
  function MethodTypes(cls: Class, name: string): Option<seq<Ty>> {
    match cls
    case NumClass =>
      if name == "+" || name == "-" then Some([INT, INT]) else if name == "to_s" then Some([STRING_PTR]) else None
    case StringClass =>
      if name == "length" || name == "puts" then Some([INT])
      else if name == "+" then Some([STRING_PTR, STRING_PTR]) else None
  }

  function SignatureOf(f: Function): Option<Signature> {
    match f
    case Method(cls, name) =>
      var t := MethodTypes(cls, name);
      if t.None? || t.value == [] then None else Some(Signature(t.value[0], [ObjType(cls)] + t.value[1..], false))
    case StrFromCstr => Some(Signature(STRING_PTR, [CHAR_PTR], false))
    case Printf => Some(Signature(INT, [CHAR_PTR], true))
    case Sprintf => Some(Signature(CHAR_PTR, [CHAR_PTR, CHAR_PTR], true))
    case Strlen => Some(Signature(INT, [CHAR_PTR], false))
  }

  /** The bodies of the defined functions. String#+ is declared and never defined; the C functions lie outside. */
  function BodyOf(f: Function): Option<Body> {
    match f
    case Method(NumClass, name) =>
      if name == "+" then Some(Body([Add(Param(0), Param(1))], Tmp(0)))
      else if name == "-" then Some(Body([Sub(Param(0), Param(1))], Tmp(0)))
      else if name == "to_s" then
        Some(Body([MallocChars(33), GlobalString("%d"), Invoke(Sprintf, [Tmp(0), Tmp(1), Param(0)]),
                   MallocString, Field(Tmp(3), 1), Store(Tmp(0), Tmp(4))], Tmp(3)))
      else None
    case Method(StringClass, name) =>
      if name == "length" then Some(Body([Field(Param(0), 0), Load(Tmp(0))], Tmp(1)))
      else if name == "puts" then
        Some(Body([Field(Param(0), 1), Load(Tmp(0)), Invoke(Printf, [Tmp(1)])], ConstInt(0)))
      else None
    case StrFromCstr =>
      Some(Body([Invoke(Strlen, [Param(0)]), MallocString, Field(Tmp(1), 0), Store(Tmp(0), Tmp(2)),
                 Field(Tmp(1), 1), Store(Param(0), Tmp(4))], Tmp(1)))
    case _ => None
  }

  // ---------- types ----------

  /** The types of the temporaries so far and of the parameters. */
  function OperandTy(o: Operand, params: seq<Ty>, tys: seq<Ty>): Option<Ty> {
    match o
    case ConstInt(_) => Some(INT)
    case Param(i) => if i < |params| then Some(params[i]) else None
    case Tmp(k) => if k < |tys| then Some(tys[k]) else None
  }

  predicate ArgsMatch(sig: Signature, args: seq<Operand>, params: seq<Ty>, tys: seq<Ty>) {
    |sig.params| <= |args| && (sig.variadic || |args| == |sig.params|)
    && (forall i :: 0 <= i < |sig.params| ==> OperandTy(args[i], params, tys) == Some(sig.params[i]))
    && (forall i :: |sig.params| <= i < |args| ==> OperandTy(args[i], params, tys).Some?)
  }

  /** The type of an instruction; None if an operand does not fit. */
  function OpTy(op: Op, params: seq<Ty>, tys: seq<Ty>): Option<Ty> {
    match op
    case GlobalString(_) => Some(CHAR_PTR)
    case Invoke(f, args) =>
      var sig := SignatureOf(f);
      if sig.Some? && ArgsMatch(sig.value, args, params, tys) then Some(sig.value.ret) else None
    case Alloca(ty) => Some(POINTER(ty))
    case MallocString => Some(STRING_PTR)
    case MallocChars(_) => Some(CHAR_PTR)
    case Field(p, k) =>
      if OperandTy(p, params, tys) != Some(STRING_PTR) then None
      else if k == 0 then Some(POINTER(INT)) else if k == 1 then Some(POINTER(CHAR_PTR)) else None
    case Load(p) =>
      var t := OperandTy(p, params, tys);
      if t.Some? && t.value.POINTER? then Some(t.value.to) else None
    case Store(v, p) =>
      var t, u := OperandTy(p, params, tys), OperandTy(v, params, tys);
      if u.Some? && t == Some(POINTER(u.value)) then Some(VOID) else None
    case Add(x, y) =>
      if OperandTy(x, params, tys) == OperandTy(y, params, tys) == Some(INT) then Some(INT) else None
    case Sub(x, y) =>
      if OperandTy(x, params, tys) == OperandTy(y, params, tys) == Some(INT) then Some(INT) else None
  }

  /** The types of all temporaries of a list of instructions, given those of the ones before it. */
  function Types(ops: seq<Op>, params: seq<Ty>, tys: seq<Ty>): Option<seq<Ty>> {
    if ops == [] then Some(tys)
    else
      var t := OpTy(ops[0], params, tys);
      if t.None? then None else Types(ops[1..], params, tys + [t.value])
  }

  // ---------- running ----------

  datatype Val = Num(n: int) | Ref(obj: nat) | FieldRef(obj: nat, k: nat) | Nothing

  datatype Obj =
    | Chars(text: Option<string>, room: nat)           // characters before the terminating NUL
    | Record(len: Option<Val>, ptr: Option<Val>)       // an RSTRING
    | Slot(content: Option<Val>)                       // an alloca

  datatype State = State(tmps: seq<Val>, heap: seq<Obj>, out: seq<string>)

  function Int(n: int): Val {
    Num(Norm(I32, n))
  }

  function Digits(n: nat): string {
    var d := [('0' as int + n % 10) as char];
    if n < 10 then d else Digits(n / 10) + d
  }

  /** What %d writes for a 32-bit number. */
  function Decimal(n: int): string {
    var m := Signed(I32, n);
    if m < 0 then "-" + Digits(-m) else Digits(m)
  }

  /** What C sees of a string. */
  function CString(s: string): string {
    if s == [] || s[0] == '\0' then [] else [s[0]] + CString(s[1..])
  }

  /** What printf writes for a format and no arguments. None when the format asks for an argument. */
  function Format(s: string): Option<string> {
    if s == [] then Some([])
    else if s[0] != '%' then
      var rest := Format(s[1..]);
      if rest.None? then None else Some([s[0]] + rest.value)
    else if |s| > 1 && s[1] == '%' then
      var rest := Format(s[2..]);
      if rest.None? then None else Some(['%'] + rest.value)
    else None
  }

  function OperandVal(o: Operand, params: seq<Val>, tmps: seq<Val>): Option<Val> {
    match o
    case ConstInt(n) => Some(Int(n))
    case Param(i) => if i < |params| then Some(params[i]) else None
    case Tmp(k) => if k < |tmps| then Some(tmps[k]) else None
  }

  function OperandVals(os: seq<Operand>, params: seq<Val>, tmps: seq<Val>): Option<seq<Val>> {
    if forall i :: 0 <= i < |os| ==> OperandVal(os[i], params, tmps).Some?
    then Some(seq(|os|, i requires 0 <= i < |os| => OperandVal(os[i], params, tmps).value))
    else None
  }

  /** The characters that a pointer leads to. */
  function TextAt(v: Val, heap: seq<Obj>): Option<string> {
    if v.Ref? && v.obj < |heap| && heap[v.obj].Chars? then heap[v.obj].text else None
  }

  /** The C functions. printf is only called without arguments; sprintf, declared to return char*, only with "%d". */
  function CallC(f: Function, args: seq<Val>, heap: seq<Obj>, out: seq<string>): Option<(Val, seq<Obj>, seq<string>)> {
    match f
    case Printf =>
      var text := if |args| == 1 then TextAt(args[0], heap) else None;
      var written := if text.Some? then Format(text.value) else None;
      if written.Some? then Some((Int(|written.value|), heap, out + [written.value])) else None
    case Strlen =>
      if |args| == 1 && TextAt(args[0], heap).Some?
      then Some((Int(|TextAt(args[0], heap).value|), heap, out)) else None
    case Sprintf =>
      if |args| == 3 && args[0].Ref? && args[0].obj < |heap| && heap[args[0].obj].Chars?
         && TextAt(args[1], heap) == Some("%d") && args[2].Num?
         && |Decimal(args[2].n)| < heap[args[0].obj].room
      then
        var text := Decimal(args[2].n);
        Some((args[0], heap[args[0].obj := heap[args[0].obj].(text := Some(text))], out))
      else None
    case _ => None
  }

  function LoadFrom(p: Val, heap: seq<Obj>): Option<Val> {
    match p
    case Ref(o) => if o < |heap| && heap[o].Slot? then heap[o].content else None
    case FieldRef(o, k) =>
      if o < |heap| && heap[o].Record? then (if k == 0 then heap[o].len else if k == 1 then heap[o].ptr else None)
      else None
    case _ => None
  }

  function StoreTo(v: Val, p: Val, heap: seq<Obj>): Option<seq<Obj>> {
    match p
    case Ref(o) => if o < |heap| && heap[o].Slot? then Some(heap[o := Slot(Some(v))]) else None
    case FieldRef(o, k) =>
      if o < |heap| && heap[o].Record? then
        if k == 0 then Some(heap[o := heap[o].(len := Some(v))])
        else if k == 1 then Some(heap[o := heap[o].(ptr := Some(v))]) else None
      else None
    case _ => None
  }

  /** After an instruction: its result, the heap and the output. None when the instruction goes wrong. */
  function After(st: State, r: Option<(Val, seq<Obj>, seq<string>)>): Option<State> {
    if r.None? then None else Some(State(st.tmps + [r.value.0], r.value.1, r.value.2))
  }

  function Arith(x: Option<Val>, y: Option<Val>, sign: int): Option<Val> {
    if x.Some? && y.Some? && x.value.Num? && y.value.Num? then Some(Int(x.value.n + sign * y.value.n)) else None
  }

  /** Runs one instruction; depth bounds the calls of defined functions. */
  function Step(depth: nat, params: seq<Val>, op: Op, st: State): Option<State>
    decreases depth, 1
  {
    var heap := st.heap;
    match op
    case GlobalString(s) => After(st, Some((Ref(|heap|), heap + [Chars(Some(CString(s)), |s| + 1)], st.out)))
    case Alloca(_) => After(st, Some((Ref(|heap|), heap + [Slot(None)], st.out)))
    case MallocString => After(st, Some((Ref(|heap|), heap + [Record(None, None)], st.out)))
    case MallocChars(room) => After(st, Some((Ref(|heap|), heap + [Chars(None, room)], st.out)))
    case Field(p, k) =>
      var q := OperandVal(p, params, st.tmps);
      if q.Some? && q.value.Ref? then After(st, Some((FieldRef(q.value.obj, k), heap, st.out))) else None
    case Load(p) =>
      var q := OperandVal(p, params, st.tmps);
      var v := if q.Some? then LoadFrom(q.value, heap) else None;
      if v.Some? then After(st, Some((v.value, heap, st.out))) else None
    case Store(v, p) =>
      var x, q := OperandVal(v, params, st.tmps), OperandVal(p, params, st.tmps);
      var h := if x.Some? && q.Some? then StoreTo(x.value, q.value, heap) else None;
      if h.Some? then After(st, Some((Nothing, h.value, st.out))) else None
    case Add(x, y) =>
      var v := Arith(OperandVal(x, params, st.tmps), OperandVal(y, params, st.tmps), 1);
      if v.Some? then After(st, Some((v.value, heap, st.out))) else None
    case Sub(x, y) =>
      var v := Arith(OperandVal(x, params, st.tmps), OperandVal(y, params, st.tmps), -1);
      if v.Some? then After(st, Some((v.value, heap, st.out))) else None
    case Invoke(f, args) =>
      var xs := OperandVals(args, params, st.tmps);
      if xs.None? then None else After(st, Call(depth, f, xs.value, heap, st.out))
  }

  function Call(depth: nat, f: Function, args: seq<Val>, heap: seq<Obj>, out: seq<string>)
    : Option<(Val, seq<Obj>, seq<string>)>
    decreases depth, 0
  {
    var body := BodyOf(f);
    if body.None? then CallC(f, args, heap, out)
    else if depth == 0 then None
    else
      var end := Steps(depth - 1, args, body.value.ops, State([], heap, out));
      if end.None? then None
      else
        var v := OperandVal(body.value.ret, args, end.value.tmps);
        if v.Some? then Some((v.value, end.value.heap, end.value.out)) else None
  }

  /** Runs a list of instructions. */
  function Steps(depth: nat, params: seq<Val>, ops: seq<Op>, st: State): Option<State>
    decreases depth, 2, |ops|
  {
    if ops == [] then Some(st)
    else
      var st' := Step(depth, params, ops[0], st);
      if st'.None? then None else Steps(depth, params, ops[1..], st'.value)
  }

  lemma {:induction false} StepsAppend(depth: nat, params: seq<Val>, a: seq<Op>, b: seq<Op>, st: State)
    ensures Steps(depth, params, a + b, st)
         == var mid := Steps(depth, params, a, st); if mid.None? then None else Steps(depth, params, b, mid.value)
    decreases |a|
  {
    hide Step;
    if a == [] {
      assert a + b == b;
    } else {
      assert (a + b)[0] == a[0] && (a + b)[1..] == a[1..] + b;
      var st' := Step(depth, params, a[0], st);
      if st'.Some? {
        StepsAppend(depth, params, a[1..], b, st'.value);
      }
    }
  }

  lemma {:induction false} StepsOne(depth: nat, params: seq<Val>, op: Op, st: State)
    ensures Steps(depth, params, [op], st) == Step(depth, params, op, st)
  {
    hide Step;
    var st' := Step(depth, params, op, st);
    if st'.Some? {
      assert Steps(depth, params, [op][1..], st'.value) == st';
    }
  }

  lemma {:induction false} TypesAppend(a: seq<Op>, b: seq<Op>, params: seq<Ty>, tys: seq<Ty>)
    ensures Types(a + b, params, tys)
         == var mid := Types(a, params, tys); if mid.None? then None else Types(b, params, mid.value)
    decreases |a|
  {
    hide OpTy;
    if a == [] {
      assert a + b == b;
    } else {
      assert (a + b)[0] == a[0] && (a + b)[1..] == a[1..] + b;
      var t := OpTy(a[0], params, tys);
      if t.Some? {
        TypesAppend(a[1..], b, params, tys + [t.value]);
      }
    }
  }

  lemma {:induction false} TypesOne(op: Op, params: seq<Ty>, tys: seq<Ty>)
    ensures Types([op], params, tys) == var t := OpTy(op, params, tys); if t.None? then None else Some(tys + [t.value])
  {
    hide OpTy;
    var t := OpTy(op, params, tys);
    if t.Some? {
      assert Types([op][1..], params, tys + [t.value]) == Some(tys + [t.value]);
    }
  }

  lemma {:induction false} TypesGrow(ops: seq<Op>, params: seq<Ty>, tys: seq<Ty>)
    requires Types(ops, params, tys).Some?
    ensures |Types(ops, params, tys).value| == |tys| + |ops| && tys <= Types(ops, params, tys).value
    decreases |ops|
  {
    hide OpTy;
    if ops != [] {
      TypesGrow(ops[1..], params, tys + [OpTy(ops[0], params, tys).value]);
    }
  }

  /** From instruction k on, one at a time. */
  lemma {:induction false} TypesFrom(ops: seq<Op>, k: nat, params: seq<Ty>, tys: seq<Ty>, t: Ty)
    requires k < |ops| && OpTy(ops[k], params, tys) == Some(t)
    ensures Types(ops[k..], params, tys) == Types(ops[k + 1..], params, tys + [t])
  {
    hide OpTy;
    assert ops[k..][0] == ops[k] && ops[k..][1..] == ops[k + 1..];
  }

  lemma {:induction false} TypesEnd(ops: seq<Op>, params: seq<Ty>, tys: seq<Ty>)
    ensures Types(ops[|ops|..], params, tys) == Some(tys) && ops[0..] == ops
  {
  }

  lemma {:induction false} StepsFrom(depth: nat, params: seq<Val>, ops: seq<Op>, k: nat, st: State)
    requires k < |ops|
    ensures Steps(depth, params, ops[k..], st)
         == var st' := Step(depth, params, ops[k], st);
            if st'.None? then None else Steps(depth, params, ops[k + 1..], st'.value)
  {
    hide Step;
    assert ops[k..][0] == ops[k] && ops[k..][1..] == ops[k + 1..];
  }

  lemma {:induction false} StepsEnd(depth: nat, params: seq<Val>, ops: seq<Op>, st: State)
    ensures Steps(depth, params, ops[|ops|..], st) == Some(st) && ops[0..] == ops
  {
  }
}
