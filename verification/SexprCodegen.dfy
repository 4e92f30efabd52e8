// What the S-expression compiler emits, and the types of what it emits.

module SexprCodegen {
  import opened Options
  import opened TextIR
  import opened Sexprs

  /** A value in the code and the method table that goes with it. */
  datatype RObject = RObject(value: Operand, methods: Option<Class>)

  type Variables = map<Sexpr, RObject>

  /** The object of an expression, the variables afterwards, and the instructions. */
  datatype Emitted = Emitted(obj: Option<RObject>, vars: Variables, ops: seq<Op>)

  datatype EmittedAll = EmittedAll(objs: seq<RObject>, vars: Variables, ops: seq<Op>)

  function TableOf(k: Kind): Option<Class> {
    if k.Object? then Some(k.cls) else None
  }

  /** The code of an expression whose first instruction is number k. None when the compiler raises. */
  function Gen(e: Expr, vars: Variables, k: nat): Option<Emitted>
    decreases e, 0
  {
    match e
    case Lit(n) => Some(Emitted(Some(RObject(ConstInt(n), Some(NumClass))), vars, []))
    case Str(s) =>
      Some(Emitted(Some(RObject(Tmp(k + 1), Some(StringClass))), vars,
                   [GlobalString(s), Invoke(StrFromCstr, [Tmp(k)])]))
    case Get(x) =>
      if x !in vars then None
      else Some(Emitted(Some(RObject(Tmp(k), vars[x].methods)), vars, [Load(vars[x].value)]))
    case Assign(x, rhs) =>
      var r := Gen(rhs, vars, k);
      if r.None? || r.value.obj.None? then None else GenStore(x, r.value.obj.value, r.value, k)
    case Send(recv, selector, args) =>
      var r := Gen(recv, vars, k);
      if r.None? || r.value.obj.None? then None
      else
        var rest := GenArgs(args, r.value.vars, k + |r.value.ops|);
        if rest.None? then None else GenSend(r.value.obj.value, selector, rest.value, r.value.ops, k)
    case Group(parts) =>
      var r := GenParts(parts, vars, k);
      if r.None? then None else Some(Emitted(None, r.value.vars, r.value.ops))
    case Bad => None
  }

  /** Stores val under x, in a new cell if x has none yet. */
  function GenStore(x: Sexpr, val: RObject, r: Emitted, k: nat): Option<Emitted> {
    if x in r.vars then Some(Emitted(Some(val), r.vars, r.ops + [Store(val.value, r.vars[x].value)]))
    else if val.methods.None? then None
    else
      var cell := Tmp(k + |r.ops|);
      Some(Emitted(Some(val), r.vars[x := RObject(cell, val.methods)],
                   r.ops + [Alloca(ObjType(val.methods.value)), Store(val.value, cell)]))
  }

  function ValuesOf(objs: seq<RObject>): (vs: seq<Operand>)
    ensures |vs| == |objs|
  {
    seq(|objs|, i requires 0 <= i < |objs| => objs[i].value)
  }

  /** Calls the method that the receiver's table has under the selector. */
  function GenSend(recv: RObject, selector: Sexpr, rest: EmittedAll, ops: seq<Op>, k: nat): Option<Emitted> {
    if recv.methods.None? || !selector.Sym? || MethodTypes(recv.methods.value, selector.name).None? then None
    else
      var cls, name := recv.methods.value, selector.name;
      Some(Emitted(Some(RObject(Tmp(k + |ops| + |rest.ops|), TableOf(ResultKind(cls, name)))), rest.vars,
                   ops + rest.ops + [Invoke(Method(cls, name), [recv.value] + ValuesOf(rest.objs))]))
  }

  /** Arguments, from left to right. */
  function GenArgs(args: seq<Expr>, vars: Variables, k: nat): (r: Option<EmittedAll>)
    ensures r.Some? ==> |r.value.objs| == |args|
    decreases args, |args|
  {
    if args == [] then Some(EmittedAll([], vars, []))
    else
      var r := Gen(args[0], vars, k);
      if r.None? || r.value.obj.None? then None
      else
        var rest := GenArgs(args[1..], r.value.vars, k + |r.value.ops|);
        if rest.None? then None
        else Some(EmittedAll([r.value.obj.value] + rest.value.objs, rest.value.vars, r.value.ops + rest.value.ops))
  }

  /** The parts of a group, whose objects are dropped. */
  function GenParts(parts: seq<Expr>, vars: Variables, k: nat): Option<EmittedAll>
    decreases parts, |parts|
  {
    if parts == [] then Some(EmittedAll([], vars, []))
    else
      var r := Gen(parts[0], vars, k);
      if r.None? then None
      else
        var rest := GenParts(parts[1..], r.value.vars, k + |r.value.ops|);
        if rest.None? then None else Some(EmittedAll([], rest.value.vars, r.value.ops + rest.value.ops))
  }

  lemma {:induction false} PartsHaveNone(parts: seq<Expr>, vars: Variables, k: nat)
    requires GenParts(parts, vars, k).Some?
    ensures var r := GenParts(parts, vars, k).value; r == EmittedAll([], r.vars, r.ops)
  {
  }

  /** The variables and the instructions that are there when the compiler stops. */
  datatype Trace = Trace(vars: Variables, ops: seq<Op>)

  /**
   * What an expression leaves behind when it raises: all that came before the exception. A call has parsed its
   * arguments by the time it finds that there is nothing to call.
   */
  function Left(e: Expr, vars: Variables, k: nat): Trace
    decreases e, 0
  {
    match e
    case Assign(_, rhs) =>
      var r := Gen(rhs, vars, k);
      if r.None? then Left(rhs, vars, k) else Trace(r.value.vars, r.value.ops)
    case Send(recv, _, args) =>
      var r := Gen(recv, vars, k);
      if r.None? then Left(recv, vars, k)
      else
        var rest := AllLeft(args, r.value.vars, k + |r.value.ops|);
        Trace(rest.vars, r.value.ops + rest.ops)
    case Group(parts) => AllLeft(parts, vars, k)
    case _ => Trace(vars, [])
  }

  /** What a list of expressions leaves behind, up to the first that raises. */
  function AllLeft(parts: seq<Expr>, vars: Variables, k: nat): Trace
    decreases parts, |parts|
  {
    if parts == [] then Trace(vars, [])
    else
      var r := Gen(parts[0], vars, k);
      if r.None? then Left(parts[0], vars, k)
      else
        var rest := AllLeft(parts[1..], r.value.vars, k + |r.value.ops|);
        Trace(rest.vars, r.value.ops + rest.ops)
  }

  // ---------- exceptions ----------

  /** What parsing comes to: whether it raised, the object if it did not, and the state either way. */
  datatype Parse = Parse(raised: bool, obj: Option<RObject>, vars: Variables, ops: seq<Op>)

  /** A result, or the state that is left without one. */
  function OrLeft(g: Option<Emitted>, vars: Variables, ops: seq<Op>): Parse {
    if g.Some? then Parse(false, g.value.obj, g.value.vars, g.value.ops) else Parse(true, None, vars, ops)
  }

  function Parsing(e: Expr, vars: Variables, k: nat): Parse {
    var l := Left(e, vars, k);
    OrLeft(Gen(e, vars, k), l.vars, l.ops)
  }

  /** All expressions of a list in order, up to the first that raises. */
  function ParsingAll(parts: seq<Expr>, vars: Variables, k: nat): Parse {
    var l := AllLeft(parts, vars, k);
    Parse(GenParts(parts, vars, k).None?, None, l.vars, l.ops)
  }

  function Then(ops: seq<Op>, p: Parse): Parse {
    p.(ops := ops + p.ops)
  }

  lemma {:induction false} PartsLeft(parts: seq<Expr>, vars: Variables, k: nat)
    requires GenParts(parts, vars, k).Some?
    ensures AllLeft(parts, vars, k) == Trace(GenParts(parts, vars, k).value.vars, GenParts(parts, vars, k).value.ops)
    decreases |parts|
  {
    if parts != [] {
      PartsGen(parts, vars, k);
      var r := Gen(parts[0], vars, k).value;
      PartsLeft(parts[1..], r.vars, k + |r.ops|);
    }
    hide Gen, GenParts, Left;
  }

  lemma {:induction false} ArgsAreParts(args: seq<Expr>, vars: Variables, k: nat)
    requires GenArgs(args, vars, k).Some?
    ensures GenParts(args, vars, k).Some?
    ensures var a, p := GenArgs(args, vars, k).value, GenParts(args, vars, k).value; a.vars == p.vars && a.ops == p.ops
    decreases |args|
  {
    hide *;
    NoArgs(vars, map[], k, []);
    if args != [] {
      ArgsGen(args, vars, k);
      PartsGen(args, vars, k);
      var r := Gen(args[0], vars, k).value;
      ArgsAreParts(args[1..], r.vars, k + |r.ops|);
    }
  }

  lemma {:induction false} ParsingNone(vars: Variables, k: nat)
    ensures ParsingAll([], vars, k) == Parse(false, None, vars, [])
  {
  }

  lemma {:induction false} ParsingFirst(e: Expr, rest: seq<Expr>, vars: Variables, k: nat)
    ensures var p := Parsing(e, vars, k);
      ParsingAll([e] + rest, vars, k)
        == if p.raised then p else Then(p.ops, ParsingAll(rest, p.vars, k + |p.ops|))
  {
    assert ([e] + rest)[1..] == rest;
    PartsGen([e] + rest, vars, k);
    hide Gen, GenParts, Left;
  }

  lemma {:induction false} ParsingGroup(parts: seq<Expr>, vars: Variables, k: nat)
    ensures Parsing(Group(parts), vars, k) == ParsingAll(parts, vars, k)
  {
    if GenParts(parts, vars, k).Some? {
      PartsLeft(parts, vars, k);
    }
    hide GenParts, AllLeft;
  }

  lemma {:induction false} ParsingAssign(x: Sexpr, rhs: Expr, vars: Variables, k: nat)
    ensures var p := Parsing(rhs, vars, k);
      Parsing(Assign(x, rhs), vars, k)
        == if p.raised then p
           else if p.obj.None? then Parse(true, None, p.vars, p.ops)
           else OrLeft(GenStore(x, p.obj.value, Emitted(p.obj, p.vars, p.ops), k), p.vars, p.ops)
  {
    AssignGen(Assign(x, rhs), vars, k);
    hide GenStore;
  }

  /** A call after its receiver: the arguments are parsed before anything is looked up. */
  function ParsingRest(selector: Sexpr, args: seq<Expr>, p: Parse, k: nat): Parse {
    var rest, objs := ParsingAll(args, p.vars, k + |p.ops|), GenArgs(args, p.vars, k + |p.ops|);
    var g := if p.obj.None? || objs.None? then None else GenSend(p.obj.value, selector, objs.value, p.ops, k);
    OrLeft(g, rest.vars, p.ops + rest.ops)
  }

  lemma {:induction false} SendLeft(e: Expr, vars: Variables, k: nat)
    requires e.Send?
    ensures var r := Gen(e.recv, vars, k);
      if r.None? then Left(e, vars, k) == Left(e.recv, vars, k)
      else
        var rest := AllLeft(e.args, r.value.vars, k + |r.value.ops|);
        Left(e, vars, k) == Trace(rest.vars, r.value.ops + rest.ops)
  {
    hide Gen;
  }

  lemma {:induction false} ParsingIs(e: Expr, vars: Variables, k: nat)
    ensures var p, g, l := Parsing(e, vars, k), Gen(e, vars, k), Left(e, vars, k);
      p == if g.Some? then Parse(false, g.value.obj, g.value.vars, g.value.ops) else Parse(true, None, l.vars, l.ops)
  {
    hide Gen, Left;
  }

  lemma {:induction false} RestIs(selector: Sexpr, args: seq<Expr>, p: Parse, k: nat)
    ensures var rest, objs := AllLeft(args, p.vars, k + |p.ops|), GenArgs(args, p.vars, k + |p.ops|);
      var g := if p.obj.None? || objs.None? then None else GenSend(p.obj.value, selector, objs.value, p.ops, k);
      ParsingRest(selector, args, p, k)
        == if g.Some? then Parse(false, g.value.obj, g.value.vars, g.value.ops)
           else Parse(true, None, rest.vars, p.ops + rest.ops)
  {
    hide GenArgs, GenParts, AllLeft, GenSend;
  }

  lemma {:induction false} ParsingSend(recv: Expr, selector: Sexpr, args: seq<Expr>, vars: Variables, k: nat)
    ensures var p := Parsing(recv, vars, k);
      Parsing(Send(recv, selector, args), vars, k) == if p.raised then p else ParsingRest(selector, args, p, k)
  {
    hide *;
    var e := Send(recv, selector, args);
    SendGen(e, vars, k);
    SendLeft(e, vars, k);
    ParsingIs(e, vars, k);
    ParsingIs(recv, vars, k);
    RestIs(selector, args, Parsing(recv, vars, k), k);
  }

  // ---------- types ----------

  /** Every variable has one cell of its own, of the type of its class. */
  predicate VarsTyped(vars: Variables, g: Scope, tys: seq<Ty>) {
    vars.Keys == g.Keys
    && (forall x :: x in vars ==>
          vars[x].methods == Some(g[x]) && vars[x].value.Tmp?
          && OperandTy(vars[x].value, [], tys) == Some(POINTER(ObjType(g[x]))))
    && forall x, y :: x in vars && y in vars && x != y ==> vars[x].value != vars[y].value
  }

  predicate ObjTyped(obj: Option<RObject>, k: Kind, tys: seq<Ty>) {
    match k
    case NoKind => obj.None?
    case NilKind => obj.Some? && obj.value.methods == None && OperandTy(obj.value.value, [], tys) == Some(INT)
    case Object(cls) =>
      obj.Some? && obj.value.methods == Some(cls) && OperandTy(obj.value.value, [], tys) == Some(ObjType(cls))
  }

  /** Code that fits: it type-checks, and the variables afterwards are typed. */
  predicate Fits(ops: seq<Op>, vars: Variables, g: Scope, tys: seq<Ty>, tys': seq<Ty>) {
    Types(ops, [], tys) == Some(tys') && |tys'| == |tys| + |ops| && tys <= tys' && VarsTyped(vars, g, tys')
  }

  predicate ArgsTyped(objs: seq<RObject>, kinds: seq<Kind>, tys: seq<Ty>) {
    |objs| == |kinds|
    && forall i :: 0 <= i < |objs| ==> !kinds[i].NoKind? && ObjTyped(Some(objs[i]), kinds[i], tys)
  }

  lemma VarsGrow(vars: Variables, g: Scope, tys: seq<Ty>, tys': seq<Ty>)
    requires VarsTyped(vars, g, tys) && tys <= tys'
    ensures VarsTyped(vars, g, tys')
  {
  }

  lemma ObjGrows(obj: Option<RObject>, k: Kind, tys: seq<Ty>, tys': seq<Ty>)
    requires ObjTyped(obj, k, tys) && tys <= tys'
    ensures ObjTyped(obj, k, tys')
  {
  }

  lemma FitsThen(a: seq<Op>, b: seq<Op>, vars: Variables, vars': Variables, g: Scope, g': Scope,
                 tys: seq<Ty>, mid: seq<Ty>, tys': seq<Ty>)
    requires Fits(a, vars, g, tys, mid) && Fits(b, vars', g', mid, tys')
    ensures Fits(a + b, vars', g', tys, tys')
  {
    TypesAppend(a, b, [], tys);
    hide Types, VarsTyped;
  }

  lemma FitsNone(vars: Variables, g: Scope, tys: seq<Ty>)
    requires VarsTyped(vars, g, tys)
    ensures Fits([], vars, g, tys, tys)
  {
  }

  /** One more instruction, which leaves the variables alone. */
  lemma FitsOne(op: Op, vars: Variables, g: Scope, tys: seq<Ty>) returns (tys': seq<Ty>)
    requires VarsTyped(vars, g, tys) && OpTy(op, [], tys).Some?
    ensures tys' == tys + [OpTy(op, [], tys).value] && Fits([op], vars, g, tys, tys')
  {
    TypesOne(op, [], tys);
    tys' := tys + [OpTy(op, [], tys).value];
    VarsGrow(vars, g, tys, tys');
  }

  lemma StrTyped(s: string, vars: Variables, g: Scope, tys: seq<Ty>) returns (tys': seq<Ty>)
    requires VarsTyped(vars, g, tys)
    ensures Fits([GlobalString(s), Invoke(StrFromCstr, [Tmp(|tys|)])], vars, g, tys, tys')
    ensures OperandTy(Tmp(|tys| + 1), [], tys') == Some(STRING_PTR)
  {
    var a, b := GlobalString(s), Invoke(StrFromCstr, [Tmp(|tys|)]);
    var mid := FitsOne(a, vars, g, tys);
    assert mid[|tys|] == CHAR_PTR;
    assert OpTy(b, [], mid) == Some(STRING_PTR);
    tys' := FitsOne(b, vars, g, mid);
    FitsThen([a], [b], vars, vars, g, g, tys, mid, tys');
    assert [a] + [b] == [a, b];
  }

  lemma NewCellTyped(x: Sexpr, cls: Class, vars: Variables, g: Scope, tys: seq<Ty>)
    requires VarsTyped(vars, g, tys) && x !in vars
    ensures VarsTyped(vars[x := RObject(Tmp(|tys|), Some(cls))], g[x := cls], tys + [POINTER(ObjType(cls))])
  {
    VarsGrow(vars, g, tys, tys + [POINTER(ObjType(cls))]);
  }

  /** The type of a value is that of the class it passes for. */
  lemma TypeOfKind(obj: RObject, kind: Kind, tys: seq<Ty>)
    requires ObjTyped(Some(obj), kind, tys)
    ensures PassesFor(kind).Some? && OperandTy(obj.value, [], tys) == Some(ObjType(PassesFor(kind).value))
    ensures obj.methods.Some? <==> kind.Object?
  {
  }

  lemma NewStoreTyped(x: Sexpr, val: RObject, cls: Class, r: Emitted, g: Scope, tys: seq<Ty>, mid: seq<Ty>)
    returns (tys': seq<Ty>)
    requires Fits(r.ops, r.vars, g, tys, mid) && ObjTyped(Some(val), Object(cls), mid) && x !in g
    ensures var out := GenStore(x, val, r, |tys|);
      out.Some? && out.value.obj == Some(val) && Fits(out.value.ops, out.value.vars, g[x := cls], tys, tys')
    ensures mid <= tys'
  {
    assert x !in r.vars.Keys;
    var alloca, cell := Alloca(ObjType(cls)), Tmp(|mid|);
    var vars', g' := r.vars[x := RObject(cell, Some(cls))], g[x := cls];
    var m1 := FitsOne(alloca, r.vars, g, mid);
    NewCellTyped(x, cls, r.vars, g, mid);
    assert Fits([alloca], vars', g', mid, m1);
    ObjGrows(Some(val), Object(cls), mid, m1);
    var store := Store(val.value, cell);
    assert OpTy(store, [], m1) == Some(VOID);
    tys' := FitsOne(store, vars', g', m1);
    FitsThen([alloca], [store], vars', vars', g', g', mid, m1, tys');
    assert [alloca] + [store] == [alloca, store];
    FitsThen(r.ops, [alloca, store], r.vars, vars', g, g', tys, mid, tys');
  }

  /** A store under x fits, in an old cell or a new one. */
  lemma StoreTyped(x: Sexpr, val: RObject, kind: Kind, r: Emitted, g: Scope, tys: seq<Ty>, mid: seq<Ty>)
    returns (tys': seq<Ty>)
    requires Fits(r.ops, r.vars, g, tys, mid) && ObjTyped(Some(val), kind, mid) && CheckStore(x, kind, g).Some?
    ensures var out := GenStore(x, val, r, |tys|);
      out.Some? && out.value.obj == Some(val)
      && Fits(out.value.ops, out.value.vars, CheckStore(x, kind, g).value.1, tys, tys')
    ensures mid <= tys'
  {
    if x in g {
      assert x in r.vars.Keys;
      TypeOfKind(val, kind, mid);
      var op := Store(val.value, r.vars[x].value);
      assert OpTy(op, [], mid) == Some(VOID);
      tys' := FitsOne(op, r.vars, g, mid);
      FitsThen(r.ops, [op], r.vars, r.vars, g, g, tys, mid, tys');
    } else {
      tys' := NewStoreTyped(x, val, kind.cls, r, g, tys, mid);
    }
  }

  lemma VarTyped(x: Sexpr, vars: Variables, g: Scope, tys: seq<Ty>)
    requires VarsTyped(vars, g, tys)
    ensures x in vars <==> x in g
    ensures x in vars ==> OperandTy(vars[x].value, [], tys) == Some(POINTER(ObjType(g[x])))
  {
    assert x in vars.Keys <==> x in g.Keys;
    hide OperandTy, ObjType;
  }

  lemma StoreFits(v: Operand, p: Operand, tys: seq<Ty>, a: Class, b: Class)
    requires OperandTy(v, [], tys) == Some(ObjType(a)) && OperandTy(p, [], tys) == Some(POINTER(ObjType(b)))
    ensures OpTy(Store(v, p), [], tys).Some? <==> a == b
  {
    hide OperandTy;
  }

  lemma GenStoreIs(x: Sexpr, val: RObject, r: Emitted, k: nat)
    requires GenStore(x, val, r, k).Some?
    ensures if x in r.vars then GenStore(x, val, r, k).value.ops == r.ops + [Store(val.value, r.vars[x].value)]
      else val.methods.Some?
  {
  }

  lemma CheckStoreIs(x: Sexpr, kind: Kind, g: Scope)
    ensures CheckStore(x, kind, g).Some? <==> if x in g then PassesFor(kind) == Some(g[x]) else kind.Object?
  {
    hide PassesFor;
  }

  /** And only a store that the scope allows does. */
  lemma {:induction false} StoreChecks(x: Sexpr, val: RObject, kind: Kind, r: Emitted, g: Scope, tys: seq<Ty>,
                                       mid: seq<Ty>)
    requires Fits(r.ops, r.vars, g, tys, mid) && ObjTyped(Some(val), kind, mid)
    requires GenStore(x, val, r, |tys|).Some? && Types(GenStore(x, val, r, |tys|).value.ops, [], tys).Some?
    ensures CheckStore(x, kind, g).Some?
  {
    hide *;
    TypeOfKind(val, kind, mid);
    FitsLength(r.ops, r.vars, g, tys, mid);
    VarTyped(x, r.vars, g, mid);
    GenStoreIs(x, val, r, |tys|);
    CheckStoreIs(x, kind, g);
    if x in g {
      var op := Store(val.value, r.vars[x].value);
      TypesAppend(r.ops, [op], [], tys);
      TypesOne(op, [], mid);
      StoreFits(val.value, r.vars[x].value, mid, PassesFor(kind).value, g[x]);
    }
  }

  /** What MethodArgs says about a method is what its signature says. */
  lemma MethodFits(cls: Class, name: string)
    ensures MethodArgs(cls, name).Some? <==> MethodTypes(cls, name).Some?
    ensures MethodArgs(cls, name).Some? ==>
              var want, types, k := MethodArgs(cls, name).value, MethodTypes(cls, name).value, ResultKind(cls, name);
              |types| == |want| + 1 && !k.NoKind? && types[0] == ObjType(PassesFor(k).value)
              && forall i :: 0 <= i < |want| ==> types[i + 1] == ObjType(want[i])
  {
  }

  /** An emitted call matches the signature of the method exactly when the arguments pass for what it wants. */
  lemma CallTyped(cls: Class, name: string, recv: RObject, objs: seq<RObject>, kinds: seq<Kind>, want: seq<Class>,
                  tys: seq<Ty>)
    requires MethodArgs(cls, name) == Some(want) && ObjTyped(Some(recv), Object(cls), tys)
    requires ArgsTyped(objs, kinds, tys)
    ensures MethodTypes(cls, name).Some? && MethodTypes(cls, name).value != []
    ensures OpTy(Invoke(Method(cls, name), [recv.value] + ValuesOf(objs)), [], tys)
         == if PassForAll(kinds, want) then Some(MethodTypes(cls, name).value[0]) else None
  {
    MethodFits(cls, name);
    var sig := SignatureOf(Method(cls, name)).value;
    var args := [recv.value] + ValuesOf(objs);
    assert |sig.params| == |want| + 1 && |args| == |objs| + 1;
    forall i | 0 <= i < |objs|
      ensures PassesFor(kinds[i]).Some? && OperandTy(args[i + 1], [], tys) == Some(ObjType(PassesFor(kinds[i]).value))
    {
      TypeOfKind(objs[i], kinds[i], tys);
    }
    forall i | 0 <= i < |want| ensures sig.params[i + 1] == ObjType(want[i]) {
    }
    hide MethodTypes, MethodArgs, ResultKind, ObjTyped, PassesFor, OperandTy;
    ArgsAgree(sig, args, kinds, want, tys);
  }

  lemma ArgsAgree(sig: Signature, args: seq<Operand>, kinds: seq<Kind>, want: seq<Class>, tys: seq<Ty>)
    requires |sig.params| == |want| + 1 && |args| == |kinds| + 1 && !sig.variadic
    requires OperandTy(args[0], [], tys) == Some(sig.params[0])
    requires forall i :: 0 <= i < |want| ==> sig.params[i + 1] == ObjType(want[i])
    requires forall i :: 0 <= i < |kinds| ==>
               PassesFor(kinds[i]).Some? && OperandTy(args[i + 1], [], tys) == Some(ObjType(PassesFor(kinds[i]).value))
    ensures ArgsMatch(sig, args, [], tys) <==> PassForAll(kinds, want)
  {
    hide PassesFor, OperandTy;
    if PassForAll(kinds, want) {
      forall i | 0 <= i < |sig.params| ensures OperandTy(args[i], [], tys) == Some(sig.params[i]) {
        if i > 0 {
          assert PassesFor(kinds[i - 1]) == Some(want[i - 1]) && OperandTy(args[i - 1 + 1], [], tys).Some?;
        }
      }
    }
    if ArgsMatch(sig, args, [], tys) {
      forall i | 0 <= i < |kinds| ensures PassesFor(kinds[i]) == Some(want[i]) {
        assert OperandTy(args[i + 1], [], tys) == Some(sig.params[i + 1]);
      }
    }
  }

  lemma SendTyped(cls: Class, selector: Sexpr, recv: RObject, rest: EmittedAll, kinds: seq<Kind>, ops: seq<Op>,
                  g1: Scope, vars1: Variables, g2: Scope, tys: seq<Ty>, mid: seq<Ty>, last: seq<Ty>)
    returns (tys': seq<Ty>)
    requires CheckSend(cls, selector, kinds, g2).Some?
    requires Fits(ops, vars1, g1, tys, mid) && Fits(rest.ops, rest.vars, g2, mid, last)
    requires ObjTyped(Some(recv), Object(cls), last) && ArgsTyped(rest.objs, kinds, last)
    ensures var out := GenSend(recv, selector, rest, ops, |tys|);
      out.Some? && Fits(out.value.ops, out.value.vars, g2, tys, tys')
      && ObjTyped(out.value.obj, CheckSend(cls, selector, kinds, g2).value.0, tys')
  {
    MethodFits(cls, selector.name);
    CallTyped(cls, selector.name, recv, rest.objs, kinds, MethodArgs(cls, selector.name).value, last);
    hide MethodTypes, MethodArgs, ResultKind, Types, VarsTyped, OpTy, ArgsTyped, PassForAll;
    var call := Invoke(Method(cls, selector.name), [recv.value] + ValuesOf(rest.objs));
    tys' := FitsOne(call, rest.vars, g2, last);
    FitsThen(ops, rest.ops, vars1, rest.vars, g1, g2, tys, mid, last);
    FitsThen(ops + rest.ops, [call], rest.vars, rest.vars, g2, g2, tys, last, tys');
  }

  lemma {:induction false} SendChecks(cls: Class, selector: Sexpr, recv: RObject, rest: EmittedAll, kinds: seq<Kind>,
                                      ops: seq<Op>, g1: Scope, vars1: Variables, g2: Scope, tys: seq<Ty>, mid: seq<Ty>,
                                      last: seq<Ty>)
    requires Fits(ops, vars1, g1, tys, mid) && Fits(rest.ops, rest.vars, g2, mid, last)
    requires ObjTyped(Some(recv), Object(cls), last) && ArgsTyped(rest.objs, kinds, last)
    requires var out := GenSend(recv, selector, rest, ops, |tys|); out.Some? && Types(out.value.ops, [], tys).Some?
    ensures CheckSend(cls, selector, kinds, g2).Some?
  {
    MethodFits(cls, selector.name);
    CallTyped(cls, selector.name, recv, rest.objs, kinds, MethodArgs(cls, selector.name).value, last);
    FitsThen(ops, rest.ops, vars1, rest.vars, g1, g2, tys, mid, last);
    var call := Invoke(Method(cls, selector.name), [recv.value] + ValuesOf(rest.objs));
    hide MethodTypes, MethodArgs, ResultKind, VarsTyped, OpTy, ArgsTyped, PassForAll;
    TypesAppend(ops + rest.ops, [call], [], tys);
    TypesOne(call, [], last);
  }

  // ---------- all trees ----------

  lemma HasObject(obj: Option<RObject>, kind: Kind, tys: seq<Ty>)
    requires ObjTyped(obj, kind, tys)
    ensures obj.Some? <==> !kind.NoKind?
    ensures obj.Some? ==> (obj.value.methods.Some? <==> kind.Object?)
    ensures kind.Object? ==> obj.value.methods == Some(kind.cls)
  {
  }

  lemma {:induction false} FitsLength(ops: seq<Op>, vars: Variables, g: Scope, tys: seq<Ty>, tys': seq<Ty>)
    requires Fits(ops, vars, g, tys, tys')
    ensures |tys'| == |tys| + |ops| && tys <= tys' && VarsTyped(vars, g, tys') && Types(ops, [], tys) == Some(tys')
  {
  }

  // Each function on trees, unfolded once.

  lemma {:induction false} AssignCheck(e: Expr, g: Scope)
    requires e.Assign?
    ensures Check(e, g) == var r := Check(e.rhs, g); if r.None? then None else CheckStore(e.name, r.value.0, r.value.1)
  {
    hide CheckStore;
  }

  lemma {:induction false} AssignGen(e: Expr, vars: Variables, k: nat)
    requires e.Assign?
    ensures var r := Gen(e.rhs, vars, k);
      Gen(e, vars, k) == if r.None? || r.value.obj.None? then None else GenStore(e.name, r.value.obj.value, r.value, k)
  {
    hide GenStore;
  }

  lemma {:induction false} SendCheck(e: Expr, g: Scope)
    requires e.Send?
    ensures var r := Check(e.recv, g);
      if r.None? || !r.value.0.Object? then Check(e, g) == None
      else
        var rest := CheckArgs(e.args, r.value.1);
        Check(e, g)
          == if rest.None? then None else CheckSend(r.value.0.cls, e.selector, rest.value.0, rest.value.1)
  {
    hide CheckSend;
  }

  lemma {:induction false} SendGen(e: Expr, vars: Variables, k: nat)
    requires e.Send?
    ensures var r := Gen(e.recv, vars, k);
      if r.None? || r.value.obj.None? then Gen(e, vars, k) == None
      else
        var rest := GenArgs(e.args, r.value.vars, k + |r.value.ops|);
        Gen(e, vars, k)
          == if rest.None? then None else GenSend(r.value.obj.value, e.selector, rest.value, r.value.ops, k)
  {
    hide GenSend;
  }

  lemma {:induction false} ArgsCheck(args: seq<Expr>, g: Scope)
    requires args != []
    ensures var r := Check(args[0], g);
      if r.None? || r.value.0.NoKind? then CheckArgs(args, g) == None
      else
        var rest := CheckArgs(args[1..], r.value.1);
        CheckArgs(args, g) == if rest.None? then None else Some(([r.value.0] + rest.value.0, rest.value.1))
  {
  }

  lemma ArgsGen(args: seq<Expr>, vars: Variables, k: nat)
    requires args != []
    ensures var r := Gen(args[0], vars, k);
      if r.None? || r.value.obj.None? then GenArgs(args, vars, k) == None
      else
        var rest := GenArgs(args[1..], r.value.vars, k + |r.value.ops|);
        GenArgs(args, vars, k)
          == if rest.None? then None
             else Some(EmittedAll([r.value.obj.value] + rest.value.objs, rest.value.vars, r.value.ops + rest.value.ops))
  {
  }

  lemma {:induction false} PartsCheck(parts: seq<Expr>, g: Scope)
    requires parts != []
    ensures var r := Check(parts[0], g);
      CheckParts(parts, g) == if r.None? then None else CheckParts(parts[1..], r.value.1)
  {
  }

  lemma PartsGen(parts: seq<Expr>, vars: Variables, k: nat)
    requires parts != []
    ensures var r := Gen(parts[0], vars, k);
      if r.None? then GenParts(parts, vars, k) == None
      else
        var rest := GenParts(parts[1..], r.value.vars, k + |r.value.ops|);
        GenParts(parts, vars, k)
          == if rest.None? then None else Some(EmittedAll([], rest.value.vars, r.value.ops + rest.value.ops))
  {
  }

  lemma {:induction false} NoArgs(vars: Variables, g: Scope, k: nat, tys: seq<Ty>)
    ensures GenArgs([], vars, k) == GenParts([], vars, k) == Some(EmittedAll([], vars, []))
    ensures CheckArgs([], g) == Some(([], g)) && CheckParts([], g) == Some(g) && ArgsTyped([], [], tys)
  {
  }

  lemma OneMoreArg(obj: RObject, kind: Kind, objs: seq<RObject>, kinds: seq<Kind>, tys: seq<Ty>)
    requires ObjTyped(Some(obj), kind, tys) && ArgsTyped(objs, kinds, tys)
    ensures ArgsTyped([obj] + objs, [kind] + kinds, tys)
  {
    hide OperandTy;
  }

  /**
   * Type preservation. For a tree that checks, the compiler does not raise, every instruction it emits fits the
   * declared types of its operands, the object of an expression that yields one carries the table of the class
   * whose type its value has, and every variable keeps one cell of its own, of the type of its class.
   */
  lemma {:induction false} GenTyped(e: Expr, g: Scope, vars: Variables, tys: seq<Ty>) returns (tys': seq<Ty>)
    requires Check(e, g).Some? && VarsTyped(vars, g, tys)
    ensures Gen(e, vars, |tys|).Some?
    ensures var r := Gen(e, vars, |tys|).value;
      var (kind, g') := Check(e, g).value;
      Fits(r.ops, r.vars, g', tys, tys') && ObjTyped(r.obj, kind, tys')
    decreases e, 1
  {
    match e
    case Lit(n) =>
      tys' := tys;
      FitsNone(vars, g, tys);
    case Str(s) => tys' := StrTyped(s, vars, g, tys);
    case Get(x) =>
      assert x in vars.Keys;
      tys' := FitsOne(Load(vars[x].value), vars, g, tys);
    case Assign(_, _) => tys' := AssignTyped(e, g, vars, tys);
    case Send(_, _, _) => tys' := SendingTyped(e, g, vars, tys);
    case Group(parts) => tys' := GenPartsTyped(parts, g, vars, tys);
  }

  lemma {:induction false} AssignTyped(e: Expr, g: Scope, vars: Variables, tys: seq<Ty>) returns (tys': seq<Ty>)
    requires e.Assign? && Check(e, g).Some? && VarsTyped(vars, g, tys)
    ensures Gen(e, vars, |tys|).Some?
    ensures var r := Gen(e, vars, |tys|).value;
      var (kind, g') := Check(e, g).value;
      Fits(r.ops, r.vars, g', tys, tys') && ObjTyped(r.obj, kind, tys')
    decreases e, 0
  {
    hide *;
    AssignCheck(e, g);
    AssignGen(e, vars, |tys|);
    var mid := GenTyped(e.rhs, g, vars, tys);
    var r := Gen(e.rhs, vars, |tys|).value;
    var (kind, g1) := Check(e.rhs, g).value;
    StoreKind(e.name, kind, g1);
    HasObject(r.obj, kind, mid);
    tys' := StoreTyped(e.name, r.obj.value, kind, r, g1, tys, mid);
    ObjGrows(r.obj, kind, mid, tys');
  }

  lemma StoreKind(x: Sexpr, kind: Kind, g: Scope)
    requires CheckStore(x, kind, g).Some?
    ensures !kind.NoKind? && CheckStore(x, kind, g).value.0 == kind
  {
  }

  lemma {:induction false} SendingTyped(e: Expr, g: Scope, vars: Variables, tys: seq<Ty>) returns (tys': seq<Ty>)
    requires e.Send? && Check(e, g).Some? && VarsTyped(vars, g, tys)
    ensures Gen(e, vars, |tys|).Some?
    ensures var r := Gen(e, vars, |tys|).value;
      var (kind, g') := Check(e, g).value;
      Fits(r.ops, r.vars, g', tys, tys') && ObjTyped(r.obj, kind, tys')
    decreases e, 0
  {
    hide *;
    SendCheck(e, g);
    SendGen(e, vars, |tys|);
    var (kind, g1) := Check(e.recv, g).value;
    var mid := GenTyped(e.recv, g, vars, tys);
    var r := Gen(e.recv, vars, |tys|).value;
    FitsLength(r.ops, r.vars, g1, tys, mid);
    HasObject(r.obj, kind, mid);
    var last := GenArgsTyped(e.args, g1, r.vars, mid);
    var (kinds, g2) := CheckArgs(e.args, g1).value;
    var rest := GenArgs(e.args, r.vars, |mid|).value;
    FitsLength(rest.ops, rest.vars, g2, mid, last);
    ObjGrows(r.obj, kind, mid, last);
    SendScope(kind.cls, e.selector, kinds, g2);
    tys' := SendTyped(kind.cls, e.selector, r.obj.value, rest, kinds, r.ops, g1, r.vars, g2, tys, mid, last);
  }

  lemma SendScope(cls: Class, selector: Sexpr, kinds: seq<Kind>, g: Scope)
    requires CheckSend(cls, selector, kinds, g).Some?
    ensures CheckSend(cls, selector, kinds, g).value.1 == g
  {
  }

  lemma {:induction false} GenArgsTyped(args: seq<Expr>, g: Scope, vars: Variables, tys: seq<Ty>)
    returns (tys': seq<Ty>)
    requires CheckArgs(args, g).Some? && VarsTyped(vars, g, tys)
    ensures GenArgs(args, vars, |tys|).Some?
    ensures var r := GenArgs(args, vars, |tys|).value;
      Fits(r.ops, r.vars, CheckArgs(args, g).value.1, tys, tys') && ArgsTyped(r.objs, CheckArgs(args, g).value.0, tys')
    decreases args, |args|
  {
    hide *;
    if args == [] {
      tys' := tys;
      NoArgs(vars, g, |tys|, tys);
      FitsNone(vars, g, tys);
    } else {
      ArgsCheck(args, g);
      ArgsGen(args, vars, |tys|);
      var mid := GenTyped(args[0], g, vars, tys);
      var r := Gen(args[0], vars, |tys|).value;
      var (kind, g1) := Check(args[0], g).value;
      FitsLength(r.ops, r.vars, g1, tys, mid);
      HasObject(r.obj, kind, mid);
      tys' := GenArgsTyped(args[1..], g1, r.vars, mid);
      var rest := GenArgs(args[1..], r.vars, |mid|).value;
      var (kinds, g2) := CheckArgs(args[1..], g1).value;
      FitsLength(rest.ops, rest.vars, g2, mid, tys');
      FitsThen(r.ops, rest.ops, r.vars, rest.vars, g1, g2, tys, mid, tys');
      ObjGrows(r.obj, kind, mid, tys');
      OneMoreArg(r.obj.value, kind, rest.objs, kinds, tys');
    }
  }

  lemma {:induction false} GenPartsTyped(parts: seq<Expr>, g: Scope, vars: Variables, tys: seq<Ty>)
    returns (tys': seq<Ty>)
    requires CheckParts(parts, g).Some? && VarsTyped(vars, g, tys)
    ensures GenParts(parts, vars, |tys|).Some?
    ensures var r := GenParts(parts, vars, |tys|).value; Fits(r.ops, r.vars, CheckParts(parts, g).value, tys, tys')
    decreases parts, |parts|
  {
    hide *;
    if parts == [] {
      tys' := tys;
      NoArgs(vars, g, |tys|, tys);
      FitsNone(vars, g, tys);
    } else {
      PartsCheck(parts, g);
      PartsGen(parts, vars, |tys|);
      var mid := GenTyped(parts[0], g, vars, tys);
      var r := Gen(parts[0], vars, |tys|).value;
      var (kind, g1) := Check(parts[0], g).value;
      FitsLength(r.ops, r.vars, g1, tys, mid);
      tys' := GenPartsTyped(parts[1..], g1, r.vars, mid);
      var rest := GenParts(parts[1..], r.vars, |mid|).value;
      FitsThen(r.ops, rest.ops, r.vars, rest.vars, g1, CheckParts(parts, g).value, tys, mid, tys');
    }
  }

  // ---------- nothing else fits ----------

  lemma {:induction false} FitsFirst(a: seq<Op>, b: seq<Op>, tys: seq<Ty>)
    requires Types(a + b, [], tys).Some?
    ensures Types(a, [], tys).Some? && Types(b, [], Types(a, [], tys).value).Some?
  {
    hide Types;
    TypesAppend(a, b, [], tys);
  }

  lemma StoreStarts(x: Sexpr, val: RObject, r: Emitted, k: nat) returns (more: seq<Op>)
    requires GenStore(x, val, r, k).Some?
    ensures GenStore(x, val, r, k).value.ops == r.ops + more
  {
    more := GenStore(x, val, r, k).value.ops[|r.ops|..];
  }

  lemma SendStarts(recv: RObject, selector: Sexpr, rest: EmittedAll, ops: seq<Op>, k: nat) returns (more: seq<Op>)
    requires GenSend(recv, selector, rest, ops, k).Some?
    ensures GenSend(recv, selector, rest, ops, k).value.ops == ops + (rest.ops + more)
    ensures recv.methods.Some?
  {
    hide MethodTypes;
    more := [GenSend(recv, selector, rest, ops, k).value.ops[|ops| + |rest.ops|]];
  }

  /** A tree whose code fits checks. */
  lemma {:induction false} FitsChecks(e: Expr, g: Scope, vars: Variables, tys: seq<Ty>)
    requires VarsTyped(vars, g, tys) && Gen(e, vars, |tys|).Some? && Types(Gen(e, vars, |tys|).value.ops, [], tys).Some?
    ensures Check(e, g).Some?
    decreases e, 1
  {
    match e
    case Lit(_) =>
    case Str(_) =>
    case Get(x) => assert x in g.Keys;
    case Assign(_, _) => AssignFitsChecks(e, g, vars, tys);
    case Send(_, _, _) => SendFitsChecks(e, g, vars, tys);
    case Group(parts) => PartsFitCheck(parts, g, vars, tys);
  }

  lemma {:induction false} AssignFitsChecks(e: Expr, g: Scope, vars: Variables, tys: seq<Ty>)
    requires e.Assign?
    requires VarsTyped(vars, g, tys) && Gen(e, vars, |tys|).Some? && Types(Gen(e, vars, |tys|).value.ops, [], tys).Some?
    ensures Check(e, g).Some?
    decreases e, 0
  {
    hide *;
    AssignCheck(e, g);
    AssignGen(e, vars, |tys|);
    var r := Gen(e.rhs, vars, |tys|).value;
    var more := StoreStarts(e.name, r.obj.value, r, |tys|);
    FitsFirst(r.ops, more, tys);
    FitsChecks(e.rhs, g, vars, tys);
    var mid := GenTyped(e.rhs, g, vars, tys);
    var (kind, g1) := Check(e.rhs, g).value;
    StoreChecks(e.name, r.obj.value, kind, r, g1, tys, mid);
  }

  lemma {:induction false} SendFitsChecks(e: Expr, g: Scope, vars: Variables, tys: seq<Ty>)
    requires e.Send?
    requires VarsTyped(vars, g, tys) && Gen(e, vars, |tys|).Some? && Types(Gen(e, vars, |tys|).value.ops, [], tys).Some?
    ensures Check(e, g).Some?
    decreases e, 0
  {
    hide *;
    SendCheck(e, g);
    SendGen(e, vars, |tys|);
    var r := Gen(e.recv, vars, |tys|).value;
    var rest := GenArgs(e.args, r.vars, |tys| + |r.ops|).value;
    var more := SendStarts(r.obj.value, e.selector, rest, r.ops, |tys|);
    FitsFirst(r.ops, rest.ops + more, tys);
    FitsChecks(e.recv, g, vars, tys);
    var mid := GenTyped(e.recv, g, vars, tys);
    var (kind, g1) := Check(e.recv, g).value;
    FitsLength(r.ops, r.vars, g1, tys, mid);
    HasObject(r.obj, kind, mid);
    FitsFirst(rest.ops, more, mid);
    ArgsFitCheck(e.args, g1, r.vars, mid);
    var last := GenArgsTyped(e.args, g1, r.vars, mid);
    var (kinds, g2) := CheckArgs(e.args, g1).value;
    FitsLength(rest.ops, rest.vars, g2, mid, last);
    ObjGrows(r.obj, kind, mid, last);
    SendChecks(kind.cls, e.selector, r.obj.value, rest, kinds, r.ops, g1, r.vars, g2, tys, mid, last);
  }

  lemma {:induction false} ArgsFitCheck(args: seq<Expr>, g: Scope, vars: Variables, tys: seq<Ty>)
    requires VarsTyped(vars, g, tys) && GenArgs(args, vars, |tys|).Some?
    requires Types(GenArgs(args, vars, |tys|).value.ops, [], tys).Some?
    ensures CheckArgs(args, g).Some?
    decreases args, |args|
  {
    hide *;
    NoArgs(vars, g, |tys|, tys);
    if args != [] {
      ArgsCheck(args, g);
      ArgsGen(args, vars, |tys|);
      var r := Gen(args[0], vars, |tys|).value;
      var rest := GenArgs(args[1..], r.vars, |tys| + |r.ops|).value;
      FitsFirst(r.ops, rest.ops, tys);
      FitsChecks(args[0], g, vars, tys);
      var mid := GenTyped(args[0], g, vars, tys);
      var (kind, g1) := Check(args[0], g).value;
      FitsLength(r.ops, r.vars, g1, tys, mid);
      HasObject(r.obj, kind, mid);
      ArgsFitCheck(args[1..], g1, r.vars, mid);
    }
  }

  lemma {:induction false} PartsFitCheck(parts: seq<Expr>, g: Scope, vars: Variables, tys: seq<Ty>)
    requires VarsTyped(vars, g, tys) && GenParts(parts, vars, |tys|).Some?
    requires Types(GenParts(parts, vars, |tys|).value.ops, [], tys).Some?
    ensures CheckParts(parts, g).Some?
    decreases parts, |parts|
  {
    hide *;
    NoArgs(vars, g, |tys|, tys);
    if parts != [] {
      PartsCheck(parts, g);
      PartsGen(parts, vars, |tys|);
      var r := Gen(parts[0], vars, |tys|).value;
      var rest := GenParts(parts[1..], r.vars, |tys| + |r.ops|).value;
      FitsFirst(r.ops, rest.ops, tys);
      FitsChecks(parts[0], g, vars, tys);
      var mid := GenTyped(parts[0], g, vars, tys);
      var (kind, g1) := Check(parts[0], g).value;
      FitsLength(r.ops, r.vars, g1, tys, mid);
      PartsFitCheck(parts[1..], g1, r.vars, mid);
    }
  }

  /** The compiler does not raise and the code fits its types, if and only if the tree checks. */
  lemma {:induction false} FitsIffChecks(e: Expr, g: Scope, vars: Variables, tys: seq<Ty>)
    requires VarsTyped(vars, g, tys)
    ensures var r := Gen(e, vars, |tys|); (r.Some? && Types(r.value.ops, [], tys).Some?) <==> Check(e, g).Some?
  {
    hide *;
    var r := Gen(e, vars, |tys|);
    if r.Some? && Types(r.value.ops, [], tys).Some? {
      FitsChecks(e, g, vars, tys);
    }
    if Check(e, g).Some? {
      var tys' := GenTyped(e, g, vars, tys);
      FitsLength(r.value.ops, r.value.vars, Check(e, g).value.1, tys, tys');
    }
  }

  // ---------- the functions ----------

  /** The body of a function type-checks against its own signature. */
  predicate BodyFits(f: Function) {
    var body, sig := BodyOf(f), SignatureOf(f);
    body.Some? && sig.Some?
    && var tys := Types(body.value.ops, sig.value.params, []);
       tys.Some? && OperandTy(body.value.ret, sig.value.params, tys.value) == Some(sig.value.ret)
  }

  lemma ShortBodiesFit()
    ensures BodyFits(Method(NumClass, "+")) && BodyFits(Method(NumClass, "-"))
  {
    TypesOne(Add(Param(0), Param(1)), [INT, INT], []);
    TypesOne(Sub(Param(0), Param(1)), [INT, INT], []);
  }

  lemma LengthFits()
    ensures BodyFits(Method(StringClass, "length"))
  {
    var ops, params := BodyOf(Method(StringClass, "length")).value.ops, [STRING_PTR];
    assert SignatureOf(Method(StringClass, "length")).value.params == params;
    TypesFrom(ops, 0, params, [], POINTER(INT));
    TypesFrom(ops, 1, params, [POINTER(INT)], INT);
    TypesEnd(ops, params, [POINTER(INT), INT]);
    hide Types, OpTy;
    assert [] + [POINTER(INT)] == [POINTER(INT)] && [POINTER(INT)] + [INT] == [POINTER(INT), INT];
  }

  lemma PutsFits()
    ensures BodyFits(Method(StringClass, "puts"))
  {
    var ops, params := BodyOf(Method(StringClass, "puts")).value.ops, [STRING_PTR];
    assert SignatureOf(Method(StringClass, "puts")).value.params == params;
    var t1 := [] + [POINTER(CHAR_PTR)];
    var t2 := t1 + [CHAR_PTR];
    TypesFrom(ops, 0, params, [], POINTER(CHAR_PTR));
    TypesFrom(ops, 1, params, t1, CHAR_PTR);
    TypesFrom(ops, 2, params, t2, INT);
    TypesEnd(ops, params, t2 + [INT]);
    hide Types, OpTy;
  }

  lemma ToSFits()
    ensures BodyFits(Method(NumClass, "to_s"))
  {
    var ops, params := BodyOf(Method(NumClass, "to_s")).value.ops, [INT];
    assert SignatureOf(Method(NumClass, "to_s")).value.params == params;
    ToSTypes(ops, params);
  }

  lemma {:induction false} ToSTypes(ops: seq<Op>, params: seq<Ty>)
    requires params == [INT] && |ops| == 6 && ops[0] == MallocChars(33) && ops[1] == GlobalString("%d")
    requires ops[2] == Invoke(Sprintf, [Tmp(0), Tmp(1), Param(0)])
    requires ops[3] == MallocString && ops[4] == Field(Tmp(3), 1) && ops[5] == Store(Tmp(0), Tmp(4))
    ensures Types(ops, params, [])
         == Some([] + [CHAR_PTR] + [CHAR_PTR] + [CHAR_PTR] + [STRING_PTR] + [POINTER(CHAR_PTR)] + [VOID])
  {
    var t2 := [] + [CHAR_PTR] + [CHAR_PTR];
    var t3 := t2 + [CHAR_PTR];
    var t4 := t3 + [STRING_PTR];
    var t5 := t4 + [POINTER(CHAR_PTR)];
    TypesFrom(ops, 0, params, [], CHAR_PTR);
    TypesFrom(ops, 1, params, [] + [CHAR_PTR], CHAR_PTR);
    TypesFrom(ops, 2, params, t2, CHAR_PTR);
    TypesFrom(ops, 3, params, t3, STRING_PTR);
    TypesFrom(ops, 4, params, t4, POINTER(CHAR_PTR));
    TypesFrom(ops, 5, params, t5, VOID);
    TypesEnd(ops, params, t5 + [VOID]);
    hide Types, OpTy;
  }

  lemma {:induction false} StrFromCstrTypes(ops: seq<Op>, params: seq<Ty>)
    requires params == [CHAR_PTR] && |ops| == 6 && ops[0] == Invoke(Strlen, [Param(0)]) && ops[1] == MallocString
    requires ops[2] == Field(Tmp(1), 0) && ops[3] == Store(Tmp(0), Tmp(2))
    requires ops[4] == Field(Tmp(1), 1) && ops[5] == Store(Param(0), Tmp(4))
    ensures Types(ops, params, [])
         == Some([] + [INT] + [STRING_PTR] + [POINTER(INT)] + [VOID] + [POINTER(CHAR_PTR)] + [VOID])
  {
    var t2 := [] + [INT] + [STRING_PTR];
    var t3 := t2 + [POINTER(INT)];
    var t4 := t3 + [VOID];
    var t5 := t4 + [POINTER(CHAR_PTR)];
    TypesFrom(ops, 0, params, [], INT);
    TypesFrom(ops, 1, params, [] + [INT], STRING_PTR);
    TypesFrom(ops, 2, params, t2, POINTER(INT));
    TypesFrom(ops, 3, params, t3, VOID);
    TypesFrom(ops, 4, params, t4, POINTER(CHAR_PTR));
    TypesFrom(ops, 5, params, t5, VOID);
    TypesEnd(ops, params, t5 + [VOID]);
    hide Types, OpTy;
  }

  lemma StrFromCstrFits()
    ensures BodyFits(StrFromCstr)
  {
    hide Types, OpTy;
    StrFromCstrTypes(BodyOf(StrFromCstr).value.ops, [CHAR_PTR]);
  }

  /** Every function that has a body keeps its declared type. */
  lemma BodiesFit(f: Function)
    requires BodyOf(f).Some?
    ensures BodyFits(f)
  {
    ShortBodiesFit();
    LengthFits();
    PutsFits();
    ToSFits();
    StrFromCstrFits();
    hide BodyFits;
  }
}
