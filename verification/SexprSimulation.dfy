// The code of the S-expression compiler means what the tree means.

module SexprSimulation {
  import opened Options
  import opened Words
  import opened TextIR
  import opened Sexprs
  import opened SexprCodegen
  import opened SexprShapes
  import opened SexprMethods

  // ---------- the state of the code and the state of the language ----------

  /** The operand leads to a cell that holds the value. */
  predicate CellHolds(o: Operand, x: Value, st: State) {
    o.Tmp? && o.k < |st.tmps| && st.tmps[o.k].Ref? && st.tmps[o.k].obj < |st.heap| && st.heap[st.tmps[o.k].obj].Slot?
    && st.heap[st.tmps[o.k].obj].content.Some? && Holds(st.heap[st.tmps[o.k].obj].content.value, x, st.heap)
  }

  /** Every variable has its own cell, which holds the last value stored under its name. */
  predicate Good(vars: Variables, g: Scope, xs: map<Sexpr, Value>, st: State) {
    vars.Keys == g.Keys && vars.Keys == xs.Keys
    && (forall n :: n in vars ==> CellHolds(vars[n].value, xs[n], st) && KindOf(xs[n]) == Object(g[n]))
    && forall n, m :: n in vars && m in vars && n != m ==>
         OperandVal(vars[n].value, [], st.tmps) != OperandVal(vars[m].value, [], st.tmps)
  }

  predicate ObjHolds(obj: Option<RObject>, x: Value, st: State) {
    obj.Some? ==>
      var v := OperandVal(obj.value.value, [], st.tmps); v.Some? && Holds(v.value, x, st.heap)
  }

  /** Code ran from st to st', adding n results. */
  predicate Ran(n: nat, st: State, st': State) {
    |st'.tmps| == |st.tmps| + n && st.tmps <= st'.tmps && Stable(st.heap, st'.heap)
  }

  /** The code of an expression ended in the state that the expression leads to. */
  predicate Reached(r: Emitted, kind: Kind, g: Scope, x: Value, w: World, st: State, st': State) {
    Ran(|r.ops|, st, st') && Good(r.vars, g, w.vars, st') && st'.out == w.out && ObjHolds(r.obj, x, st')
      && KindOf(x) == kind
  }

  lemma RanTrans(n: nat, m: nat, st: State, st1: State, st2: State)
    requires Ran(n, st, st1) && Ran(m, st1, st2)
    ensures Ran(n + m, st, st2)
  {
    StableTrans(st.heap, st1.heap, st2.heap);
    hide Stable;
  }

  lemma RanNone(st: State)
    ensures Ran(0, st, st)
  {
  }

  lemma ObjStays(obj: Option<RObject>, x: Value, st: State, st': State, n: nat)
    requires ObjHolds(obj, x, st) && Ran(n, st, st')
    ensures ObjHolds(obj, x, st')
  {
    if obj.Some? {
      HoldsStable(OperandVal(obj.value.value, [], st.tmps).value, x, st.heap, st'.heap);
    }
    hide Holds, Stable;
  }

  /** Results that leave the old objects alone do not disturb the variables. */
  lemma GoodGrows(vars: Variables, g: Scope, xs: map<Sexpr, Value>, st: State, st': State)
    requires Good(vars, g, xs, st) && st.tmps <= st'.tmps && st.heap <= st'.heap
    ensures Good(vars, g, xs, st')
  {
    hide CellHolds, OperandVal, KindOf;
    forall n | n in vars
      ensures CellHolds(vars[n].value, xs[n], st')
      ensures OperandVal(vars[n].value, [], st'.tmps) == OperandVal(vars[n].value, [], st.tmps)
    {
      CellGrows(vars[n].value, xs[n], st, st');
    }
  }

  lemma CellGrows(o: Operand, x: Value, st: State, st': State)
    requires CellHolds(o, x, st) && st.tmps <= st'.tmps && st.heap <= st'.heap
    ensures CellHolds(o, x, st') && OperandVal(o, [], st'.tmps) == OperandVal(o, [], st.tmps)
  {
    PrefixStable(st.heap, st'.heap);
    HoldsStable(st.heap[st.tmps[o.k].obj].content.value, x, st.heap, st'.heap);
    hide Holds, Stable;
  }

  // ---------- stores ----------

  lemma SlotStable(h: seq<Obj>, o: nat, v: Val)
    requires o < |h| && h[o].Slot?
    ensures Stable(h, h[o := Slot(Some(v))])
  {
  }

  /** The state after v has been stored in cell o. */
  function Stored(st: State, o: nat, v: Val): State
    requires o < |st.heap|
  {
    State(st.tmps + [Nothing], st.heap[o := Slot(Some(v))], st.out)
  }

  lemma OtherCell(p: Operand, x: Value, st: State, o: nat, v: Val)
    requires CellHolds(p, x, st) && o < |st.heap| && st.heap[o].Slot? && OperandVal(p, [], st.tmps) != Some(Ref(o))
    ensures CellHolds(p, x, Stored(st, o, v)) && OperandVal(p, [], Stored(st, o, v).tmps) == OperandVal(p, [], st.tmps)
  {
    SlotStable(st.heap, o, v);
    HoldsStable(st.heap[st.tmps[p.k].obj].content.value, x, st.heap, Stored(st, o, v).heap);
    hide Holds, Stable;
  }

  lemma SameCell(p: Operand, y: Value, st: State, o: nat, v: Val)
    requires p.Tmp? && OperandVal(p, [], st.tmps) == Some(Ref(o)) && o < |st.heap| && st.heap[o].Slot?
    requires Holds(v, y, st.heap)
    ensures CellHolds(p, y, Stored(st, o, v)) && OperandVal(p, [], Stored(st, o, v).tmps) == Some(Ref(o))
  {
    SlotStable(st.heap, o, v);
    HoldsStable(v, y, st.heap, Stored(st, o, v).heap);
    hide Holds, Stable;
  }

  lemma {:induction false} StoreStep(val: Operand, p: Operand, st: State, o: nat, v: Val)
    requires OperandVal(val, [], st.tmps) == Some(v) && OperandVal(p, [], st.tmps) == Some(Ref(o))
    requires o < |st.heap| && st.heap[o].Slot?
    ensures Step(1, [], Store(val, p), st) == Some(Stored(st, o, v)) && Ran(1, st, Stored(st, o, v))
  {
    SlotStable(st.heap, o, v);
    hide Stable;
  }

  lemma CellIsSlot(p: Operand, x: Value, st: State) returns (o: nat)
    requires CellHolds(p, x, st)
    ensures p.Tmp? && OperandVal(p, [], st.tmps) == Some(Ref(o)) && o < |st.heap| && st.heap[o].Slot?
  {
    o := st.tmps[p.k].obj;
  }

  /** A store to the cell of one variable changes that variable only. */
  lemma StoreOld(vars: Variables, g: Scope, xs: map<Sexpr, Value>, x: Sexpr, val: Operand, y: Value, st: State)
    returns (st': State)
    requires Good(vars, g, xs, st) && x in vars && KindOf(y) == Object(g[x])
    requires ObjHolds(Some(RObject(val, None)), y, st)
    ensures Step(1, [], Store(val, vars[x].value), st) == Some(st') && Ran(1, st, st') && st'.out == st.out
    ensures Good(vars, g, xs[x := y], st')
  {
    hide CellHolds, Holds, OperandVal, Ran, Step;
    var v := OperandVal(val, [], st.tmps).value;
    var o := CellIsSlot(vars[x].value, xs[x], st);
    st' := Stored(st, o, v);
    StoreStep(val, vars[x].value, st, o, v);
    SameCell(vars[x].value, y, st, o, v);
    forall n | n in vars && n != x
      ensures CellHolds(vars[n].value, xs[n], st')
      ensures OperandVal(vars[n].value, [], st'.tmps) == OperandVal(vars[n].value, [], st.tmps)
    {
      OtherCell(vars[n].value, xs[n], st, o, v);
    }
  }

  lemma AllocaStep(ty: Ty, st: State) returns (st': State)
    ensures Step(1, [], Alloca(ty), st) == Some(st')
    ensures st' == State(st.tmps + [Ref(|st.heap|)], st.heap + [Slot(None)], st.out) && Ran(1, st, st')
  {
    st' := State(st.tmps + [Ref(|st.heap|)], st.heap + [Slot(None)], st.out);
    PrefixStable(st.heap, st'.heap);
  }

  lemma NewCell(vars: Variables, g: Scope, xs: map<Sexpr, Value>, st0: State, st: State, n: Sexpr)
    requires Good(vars, g, xs, st0) && n in vars
    requires st == State(st0.tmps + [Ref(|st0.heap|)], st0.heap + [Slot(None)], st0.out)
    ensures CellHolds(vars[n].value, xs[n], st) && OperandVal(vars[n].value, [], st.tmps) != Some(Ref(|st0.heap|))
    ensures Good(vars, g, xs, st)
  {
    GoodGrows(vars, g, xs, st0, st);
    assert CellHolds(vars[n].value, xs[n], st0);
    hide Holds, Stable, Good;
  }

  lemma GoodPlus(vars: Variables, g: Scope, xs: map<Sexpr, Value>, st: State, x: Sexpr, cls: Class, cell: Operand,
                 y: Value, o: nat)
    requires Good(vars, g, xs, st) && x !in vars && CellHolds(cell, y, st) && KindOf(y) == Object(cls)
    requires OperandVal(cell, [], st.tmps) == Some(Ref(o))
    requires forall n :: n in vars ==> OperandVal(vars[n].value, [], st.tmps) != Some(Ref(o))
    ensures Good(vars[x := RObject(cell, Some(cls))], g[x := cls], xs[x := y], st)
  {
    hide CellHolds, OperandVal;
  }

  lemma GoodAfterOther(vars: Variables, g: Scope, xs: map<Sexpr, Value>, st: State, o: nat, v: Val)
    requires Good(vars, g, xs, st) && o < |st.heap| && st.heap[o].Slot?
    requires forall n :: n in vars ==> OperandVal(vars[n].value, [], st.tmps) != Some(Ref(o))
    ensures Good(vars, g, xs, Stored(st, o, v))
    ensures forall n :: n in vars ==> OperandVal(vars[n].value, [], Stored(st, o, v).tmps) != Some(Ref(o))
  {
    hide CellHolds, OperandVal;
    var st' := Stored(st, o, v);
    forall n | n in vars
      ensures CellHolds(vars[n].value, xs[n], st')
      ensures OperandVal(vars[n].value, [], st'.tmps) == OperandVal(vars[n].value, [], st.tmps)
    {
      OtherCell(vars[n].value, xs[n], st, o, v);
    }
  }

  /** The first store under a name goes to a fresh cell. */
  lemma StoreNew(vars: Variables, g: Scope, xs: map<Sexpr, Value>, x: Sexpr, cls: Class, val: Operand, y: Value,
                 st0: State, st: State) returns (st': State)
    requires Good(vars, g, xs, st0) && x !in vars && KindOf(y) == Object(cls)
    requires st == State(st0.tmps + [Ref(|st0.heap|)], st0.heap + [Slot(None)], st0.out)
    requires ObjHolds(Some(RObject(val, None)), y, st)
    ensures Step(1, [], Store(val, Tmp(|st0.tmps|)), st) == Some(st') && Ran(1, st, st') && st'.out == st.out
    ensures Good(vars[x := RObject(Tmp(|st0.tmps|), Some(cls))], g[x := cls], xs[x := y], st')
  {
    var o, v, cell := |st0.heap|, OperandVal(val, [], st.tmps).value, Tmp(|st0.tmps|);
    assert OperandVal(cell, [], st.tmps) == Some(Ref(o));
    st' := Stored(st, o, v);
    GoodGrows(vars, g, xs, st0, st);
    hide CellHolds, Holds, OperandVal, Ran, Step, Good;
    StoreStep(val, cell, st, o, v);
    SameCell(cell, y, st, o, v);
    forall n | n in vars ensures OperandVal(vars[n].value, [], st.tmps) != Some(Ref(o)) {
      NewCell(vars, g, xs, st0, st, n);
    }
    GoodAfterOther(vars, g, xs, st, o, v);
    GoodPlus(vars, g, xs, st', x, cls, cell, y, o);
  }

  // ---------- one kind of expression at a time ----------

  lemma StrStart(s: string, k: nat, st: State) returns (st1: State)
    requires |st.tmps| == k
    ensures st1 == State(st.tmps + [Ref(|st.heap|)], st.heap + [Chars(Some(CString(s)), |s| + 1)], st.out)
    ensures Steps(1, [], [GlobalString(s), Invoke(StrFromCstr, [Tmp(k)])], st)
         == Step(1, [], Invoke(StrFromCstr, [Tmp(k)]), st1)
  {
    st1 := State(st.tmps + [Ref(|st.heap|)], st.heap + [Chars(Some(CString(s)), |s| + 1)], st.out);
    var a, b := GlobalString(s), Invoke(StrFromCstr, [Tmp(k)]);
    assert Step(1, [], a, st) == Some(st1);
    hide Step, CString;
    assert [a, b] == [a] + [b];
    StepsAppend(1, [], [a], [b], st);
    StepsOne(1, [], a, st);
    StepsOne(1, [], b, st1);
  }

  lemma {:induction false} InvokeStep(f: Function, args: seq<Operand>, vs: seq<Val>, st: State)
    requires OperandVals(args, [], st.tmps) == Some(vs)
    ensures Step(1, [], Invoke(f, args), st) == After(st, Call(1, f, vs, st.heap, st.out))
  {
    hide Call, OperandVals;
  }

  lemma StrRuns(s: string, k: nat, vars: Variables, g: Scope, xs: map<Sexpr, Value>, st: State) returns (st': State)
    requires |st.tmps| == k && Good(vars, g, xs, st)
    ensures Steps(1, [], [GlobalString(s), Invoke(StrFromCstr, [Tmp(k)])], st) == Some(st')
    ensures Ran(2, st, st') && Good(vars, g, xs, st') && st'.out == st.out
    ensures ObjHolds(Some(RObject(Tmp(k + 1), Some(StringClass))), StrV(CString(s), Some(Norm(I32, |CString(s)|))), st')
  {
    hide Steps, Step, Call, Good, Holds, Norm, CString, Stable;
    var st1 := StrStart(s, k, st);
    var n := |st.heap|;
    assert TextAt(Ref(n), st1.heap) == Some(CString(s));
    var heap' := StrFromCstrRuns(n, CString(s), st1.heap, st1.out);
    OperandsAre([Tmp(k)], [], st1.tmps, [Ref(n)]);
    InvokeStep(StrFromCstr, [Tmp(k)], [Ref(n)], st1);
    st' := State(st1.tmps + [Ref(n + 1)], heap', st.out);
    PrefixStable(st.heap, heap');
    GoodGrows(vars, g, xs, st, st');
    assert OperandVal(Tmp(k + 1), [], st'.tmps) == Some(Ref(n + 1));
  }

  lemma GetRuns(x: Sexpr, vars: Variables, g: Scope, xs: map<Sexpr, Value>, st: State) returns (st': State)
    requires Good(vars, g, xs, st) && x in vars
    ensures Steps(1, [], [Load(vars[x].value)], st) == Some(st')
    ensures Ran(1, st, st') && Good(vars, g, xs, st') && st'.out == st.out
    ensures ObjHolds(Some(RObject(Tmp(|st.tmps|), vars[x].methods)), xs[x], st')
  {
    assert CellHolds(vars[x].value, xs[x], st);
    var v := st.heap[st.tmps[vars[x].value.k].obj].content.value;
    st' := State(st.tmps + [v], st.heap, st.out);
    StepsOne(1, [], Load(vars[x].value), st);
    assert Step(1, [], Load(vars[x].value), st) == Some(st');
    hide Steps, Step, Holds;
    PrefixStable(st.heap, st'.heap);
    GoodGrows(vars, g, xs, st, st');
  }

  // ---------- the theorem ----------

  /** What running the code of an expression must come to. */
  predicate Agrees(run: Option<State>, r: Emitted, kind: Kind, g: Scope, want: Option<(Value, World)>, st: State) {
    if want.None? then run.None? else run.Some? && Reached(r, kind, g, want.value.0, want.value.1, st, run.value)
  }

  /** A state that matches variables and world. */
  predicate Matches(vars: Variables, g: Scope, tys: seq<Ty>, w: World, st: State) {
    VarsTyped(vars, g, tys) && |st.tmps| == |tys| && Good(vars, g, w.vars, st) && st.out == w.out
  }

  lemma {:induction false} LitRuns(n: int, g: Scope, vars: Variables, tys: seq<Ty>, w: World, st: State)
    requires Matches(vars, g, tys, w, st)
    ensures var r := Emitted(Some(RObject(ConstInt(n), Some(NumClass))), vars, []);
      Agrees(Steps(1, [], [], st), r, Object(NumClass), g, Some((NumV(Norm(I32, n)), w)), st)
  {
    RanNone(st);
    hide Good, Norm;
  }

  lemma AgreesSome(run: Option<State>, r: Emitted, kind: Kind, g: Scope, want: Option<(Value, World)>, st: State)
    requires Agrees(run, r, kind, g, want, st)
    ensures run.Some? <==> want.Some?
    ensures want.Some? ==>
              Ran(|r.ops|, st, run.value) && Good(r.vars, g, want.value.1.vars, run.value)
              && run.value.out == want.value.1.out && ObjHolds(r.obj, want.value.0, run.value)
              && KindOf(want.value.0) == kind
  {
    hide Ran, Good, ObjHolds;
  }

  lemma ObjAsObject(obj: RObject, y: Value, st: State)
    requires ObjHolds(Some(obj), y, st)
    ensures ObjHolds(Some(RObject(obj.value, None)), AsObject(y), st)
  {
    HoldsAsObject(OperandVal(obj.value, [], st.tmps).value, y, st.heap);
    hide Holds, OperandVal;
  }

  lemma KindAsObject(y: Value)
    requires PassesFor(KindOf(y)).Some?
    ensures KindOf(AsObject(y)) == Object(PassesFor(KindOf(y)).value)
    ensures KindOf(y).Object? ==> AsObject(y) == y
  {
  }

  lemma {:induction false} AssignRuns(x: Sexpr, r: Emitted, kind: Kind, g: Scope, y: Value, w: World, st: State,
                                      st1: State, k: nat)
    requires Reached(r, kind, g, y, w, st, st1) && |st1.tmps| == k + |r.ops| && CheckStore(x, kind, g).Some?
    requires r.obj.Some? && (kind.Object? ==> r.obj.value.methods == Some(kind.cls))
    requires Steps(1, [], r.ops, st) == Some(st1)
    ensures var out, g' := GenStore(x, r.obj.value, r, k), CheckStore(x, kind, g).value.1;
      out.Some? && Agrees(Steps(1, [], out.value.ops, st), out.value, kind, g',
                          Some((y, w.(vars := w.vars[x := AsObject(y)]))), st)
  {
    assert r.vars.Keys == g.Keys;
    KindAsObject(y);
    hide Steps, Step, CellHolds, Holds, Stable, KindOf, AsObject;
    if x in g {
      assert x in r.vars.Keys;
      OldRuns(x, r, kind, g, y, w, st, st1, k);
    } else {
      assert x !in r.vars.Keys;
      NewRuns(x, r, kind.cls, g, y, w, st, st1, k);
    }
  }

  lemma {:induction false} OldRuns(x: Sexpr, r: Emitted, kind: Kind, g: Scope, y: Value, w: World, st: State,
                                   st1: State, k: nat)
    requires Reached(r, kind, g, y, w, st, st1) && r.obj.Some? && x in r.vars && x in g
    requires KindOf(AsObject(y)) == Object(g[x]) && Steps(1, [], r.ops, st) == Some(st1)
    ensures var out := GenStore(x, r.obj.value, r, k);
      out.Some? && Agrees(Steps(1, [], out.value.ops, st), out.value, kind, g,
                          Some((y, w.(vars := w.vars[x := AsObject(y)]))), st)
  {
    hide Steps, Step, CellHolds, Holds, Stable, Good, OperandVal, KindOf, AsObject;
    var val := r.obj.value;
    ObjAsObject(val, y, st1);
    var st2 := StoreOld(r.vars, g, w.vars, x, val.value, AsObject(y), st1);
    var op := Store(val.value, r.vars[x].value);
    StepsAppend(1, [], r.ops, [op], st);
    StepsOne(1, [], op, st1);
    ObjStays(r.obj, y, st1, st2, 1);
    RanTrans(|r.ops|, 1, st, st1, st2);
  }

  lemma {:induction false} NewRuns(x: Sexpr, r: Emitted, cls: Class, g: Scope, y: Value, w: World, st: State,
                                   st1: State, k: nat)
    requires Reached(r, Object(cls), g, y, w, st, st1) && |st1.tmps| == k + |r.ops| && AsObject(y) == y
    requires r.obj.Some? && r.obj.value.methods == Some(cls) && x !in r.vars
    requires Steps(1, [], r.ops, st) == Some(st1)
    ensures var out := GenStore(x, r.obj.value, r, k);
      out.Some? && Agrees(Steps(1, [], out.value.ops, st), out.value, Object(cls), g[x := cls],
                          Some((y, w.(vars := w.vars[x := AsObject(y)]))), st)
  {
    hide Steps, Step, CellHolds, Holds, Stable, Good, OperandVal, KindOf, AsObject;
    var val, a := r.obj.value, Alloca(ObjType(cls));
    var b := Store(val.value, Tmp(|st1.tmps|));
    var st2 := AllocaStep(ObjType(cls), st1);
    ObjStays(r.obj, y, st1, st2, 1);
    assert ObjHolds(Some(RObject(val.value, None)), y, st2);
    var st3 := StoreNew(r.vars, g, w.vars, x, cls, val.value, y, st1, st2);
    assert [a, b] == [a] + [b];
    StepsAppend(1, [], r.ops, [a, b], st);
    StepsAppend(1, [], [a], [b], st1);
    StepsOne(1, [], a, st1);
    StepsOne(1, [], b, st2);
    ObjStays(r.obj, y, st2, st3, 1);
    RanTrans(1, 1, st1, st2, st3);
    RanTrans(|r.ops|, 2, st, st1, st3);
  }

  // ---------- lists ----------

  predicate ArgsHold(objs: seq<RObject>, xs: seq<Value>, st: State) {
    |objs| == |xs| && forall i :: 0 <= i < |objs| ==> ObjHolds(Some(objs[i]), xs[i], st)
  }

  predicate AreKinds(xs: seq<Value>, kinds: seq<Kind>) {
    |xs| == |kinds| && forall i :: 0 <= i < |xs| ==> KindOf(xs[i]) == kinds[i]
  }

  /** What running the code of a list of expressions must come to. */
  predicate AllAgree(run: Option<State>, r: EmittedAll, g: Scope, want: Option<(seq<Value>, World)>, st: State) {
    if want.None? then run.None?
    else run.Some? && Ran(|r.ops|, st, run.value) && Good(r.vars, g, want.value.1.vars, run.value)
         && run.value.out == want.value.1.out
  }

  lemma OneMoreHolds(obj: RObject, x: Value, objs: seq<RObject>, xs: seq<Value>, st: State)
    requires ObjHolds(Some(obj), x, st) && ArgsHold(objs, xs, st)
    ensures ArgsHold([obj] + objs, [x] + xs, st)
  {
    hide ObjHolds;
  }

  lemma OneMoreKind(x: Value, xs: seq<Value>, kinds: seq<Kind>)
    requires AreKinds(xs, kinds)
    ensures AreKinds([x] + xs, [KindOf(x)] + kinds)
  {
  }

  lemma KindsWanted(xs: seq<Value>, kinds: seq<Kind>, want: seq<Class>)
    requires AreKinds(xs, kinds) && PassForAll(kinds, want)
    ensures Wanted(xs, want)
  {
  }

  /** One expression and then the rest of a list. */
  lemma {:induction false} ThenRuns(a: seq<Op>, b: seq<Op>, vars': Variables, objs: seq<RObject>, g': Scope,
                                    rest: Option<(seq<Value>, World)>, x: Value, st: State, mid: State)
    requires Steps(1, [], a, st) == Some(mid) && Ran(|a|, st, mid)
    requires AllAgree(Steps(1, [], b, mid), EmittedAll(objs, vars', b), g', rest, mid)
    ensures AllAgree(Steps(1, [], a + b, st), EmittedAll(objs, vars', a + b), g',
                     if rest.None? then None else Some(([x] + rest.value.0, rest.value.1)), st)
  {
    hide Steps, Good, Ran;
    StepsAppend(1, [], a, b, st);
    var end := Steps(1, [], b, mid);
    if end.Some? {
      RanTrans(|a|, |b|, st, mid, end.value);
    }
  }

  // ---------- calls ----------

  lemma OperandsHold(recv: RObject, x: Value, objs: seq<RObject>, xs: seq<Value>, st: State)
    returns (v: Val, vs: seq<Val>)
    requires ObjHolds(Some(recv), x, st) && ArgsHold(objs, xs, st)
    ensures OperandVals([recv.value] + ValuesOf(objs), [], st.tmps) == Some([v] + vs)
    ensures Holds(v, x, st.heap) && AllHold(vs, xs, st.heap)
  {
    v := OperandVal(recv.value, [], st.tmps).value;
    forall i | 0 <= i < |objs|
      ensures var u := OperandVal(objs[i].value, [], st.tmps); u.Some? && Holds(u.value, xs[i], st.heap)
    {
      assert ObjHolds(Some(objs[i]), xs[i], st);
    }
    hide OperandVal, Holds;
    vs := seq(|objs|, i requires 0 <= i < |objs| => OperandVal(objs[i].value, [], st.tmps).value);
    OperandsAre([recv.value] + ValuesOf(objs), [], st.tmps, [v] + vs);
  }

  /** What running the instruction of a call must come to. */
  predicate CallAgrees(run: Option<State>, vars: Variables, g: Scope, kind: Kind, want: Option<(Value, seq<string>)>,
                       w: World, st: State) {
    if want.None? then run.None?
    else run.Some? && Ran(1, st, run.value) && Good(vars, g, w.vars, run.value) && run.value.out == want.value.1
         && ObjHolds(Some(RObject(Tmp(|st.tmps|), None)), want.value.0, run.value) && KindOf(want.value.0) == kind
  }

  /** The call instruction does what the method means. */
  lemma {:induction false} CallRuns(cls: Class, name: string, recv: RObject, x: Value, objs: seq<RObject>,
                                    xs: seq<Value>, vars: Variables, g: Scope, w: World, st: State)
    requires MethodArgs(cls, name).Some? && KindOf(x) == Object(cls) && Wanted(xs, MethodArgs(cls, name).value)
    requires ObjHolds(Some(recv), x, st) && ArgsHold(objs, xs, st) && Good(vars, g, w.vars, st) && st.out == w.out
    ensures CallAgrees(Step(1, [], Invoke(Method(cls, name), [recv.value] + ValuesOf(objs)), st), vars, g,
                       ResultKind(cls, name), Apply(x, name, xs, w.out), w, st)
  {
    hide Step, Call, Apply, Holds, Good, ResultKind, KindOf, MethodArgs, Wanted, ObjHolds, ArgsHold;
    var v, vs := OperandsHold(recv, x, objs, xs, st);
    InvokeStep(Method(cls, name), [recv.value] + ValuesOf(objs), [v] + vs, st);
    var heap' := MethodRuns(cls, name, v, vs, x, xs, st.heap, st.out);
    var call := Call(1, Method(cls, name), [v] + vs, st.heap, st.out);
    if call.Some? {
      var st' := State(st.tmps + [call.value.0], heap', call.value.2);
      PrefixStable(st.heap, heap');
      GoodGrows(vars, g, w.vars, st, st');
      ResultHolds(st.tmps, call.value.0, Apply(x, name, xs, w.out).value.0, st');
    }
  }

  lemma ResultHolds(tmps: seq<Val>, v: Val, x: Value, st: State)
    requires st.tmps == tmps + [v] && Holds(v, x, st.heap)
    ensures ObjHolds(Some(RObject(Tmp(|tmps|), None)), x, st)
  {
  }

  lemma {:induction false} CallFollows(call: Op, a: seq<Op>, b: seq<Op>, st: State, st1: State, st2: State)
    requires Steps(1, [], a, st) == Some(st1) && Steps(1, [], b, st1) == Some(st2)
    ensures Steps(1, [], a + b + [call], st) == Step(1, [], call, st2)
  {
    hide Steps, Step;
    StepsAppend(1, [], a, b, st);
    StepsAppend(1, [], a + b, [call], st);
    StepsOne(1, [], call, st2);
  }

  /** A call after the code of its receiver and its arguments, which ran from st to st2. */
  lemma SendRuns(run: Option<State>, out: Emitted, kind: Kind, g: Scope, n: nat,
                 want: Option<(Value, seq<string>)>, w: World, st: State, st2: State)
    requires |out.ops| == n + 1 && out.obj.Some? && out.obj.value.value == Tmp(|st2.tmps|) && Ran(n, st, st2)
    requires CallAgrees(run, out.vars, g, kind, want, w, st2)
    ensures Agrees(run, out, kind, g, if want.None? then None else Some((want.value.0, w.(out := want.value.1))), st)
  {
    if want.Some? {
      RanTrans(n, 1, st, st2, run.value);
    }
    hide Good, KindOf, Stable, OperandVal, Holds;
  }

  lemma SendIs(cls: Class, selector: Sexpr, recv: RObject, rest: EmittedAll, ops: seq<Op>, k: nat)
    requires recv.methods == Some(cls) && selector.Sym? && MethodTypes(cls, selector.name).Some?
    ensures GenSend(recv, selector, rest, ops, k)
         == Some(Emitted(Some(RObject(Tmp(k + |ops| + |rest.ops|), TableOf(ResultKind(cls, selector.name)))), rest.vars,
                         ops + rest.ops + [Invoke(Method(cls, selector.name), [recv.value] + ValuesOf(rest.objs))]))
  {
    hide MethodTypes, ResultKind, TableOf;
  }

  lemma RanCounts(n: nat, st: State, st': State)
    requires Ran(n, st, st')
    ensures |st'.tmps| == |st.tmps| + n
  {
  }

  // ---------- all expressions ----------

  lemma {:induction false} FailsFirst(a: seq<Op>, b: seq<Op>, st: State)
    requires Steps(1, [], a, st).None?
    ensures Steps(1, [], a + b, st).None?
  {
    hide Steps;
    StepsAppend(1, [], a, b, st);
  }

  lemma {:induction false} AssignEval(e: Expr, w: World)
    requires e.Assign?
    ensures var r := Eval(e.rhs, w);
      Eval(e, w) == if r.None? || r.value.0.NoV? then None
                    else Some((r.value.0, r.value.1.(vars := r.value.1.vars[e.name := AsObject(r.value.0)])))
  {
    hide AsObject;
  }

  lemma KindIsValue(v: Value)
    ensures KindOf(v).NoKind? <==> v.NoV?
  {
  }

  lemma MatchesParts(vars: Variables, g: Scope, tys: seq<Ty>, w: World, st: State)
    requires Matches(vars, g, tys, w, st)
    ensures VarsTyped(vars, g, tys) && |st.tmps| == |tys| && Good(vars, g, w.vars, st) && st.out == w.out
  {
  }

  lemma MatchesAfter(vars: Variables, g: Scope, tys: seq<Ty>, mid: seq<Ty>, ops: seq<Op>, w: World,
                     st: State, st': State)
    requires Fits(ops, vars, g, tys, mid) && |st.tmps| == |tys| && Ran(|ops|, st, st')
    requires Good(vars, g, w.vars, st') && st'.out == w.out
    ensures Matches(vars, g, mid, w, st')
  {
    hide Good, VarsTyped;
  }

  lemma {:induction false} AssigningRuns(e: Expr, g: Scope, vars: Variables, tys: seq<Ty>, w: World, st: State)
    requires e.Assign? && Check(e, g).Some? && Matches(vars, g, tys, w, st)
    ensures Gen(e, vars, |tys|).Some?
    ensures var r := Gen(e, vars, |tys|).value;
      Agrees(Steps(1, [], r.ops, st), r, Check(e, g).value.0, Check(e, g).value.1, Eval(e, w), st)
    decreases e, 0
  {
    hide *;
    MatchesParts(vars, g, tys, w, st);
    AssignCheck(e, g);
    AssignEval(e, w);
    AssignGen(e, vars, |tys|);
    var (kind, g1) := Check(e.rhs, g).value;
    StoreKind(e.name, kind, g1);
    var mid := GenTyped(e.rhs, g, vars, tys);
    GenRuns(e.rhs, g, vars, tys, w, st);
    var r, want := Gen(e.rhs, vars, |tys|).value, Eval(e.rhs, w);
    HasObject(r.obj, kind, mid);
    FitsLength(r.ops, r.vars, g1, tys, mid);
    var all := GenTyped(e, g, vars, tys);
    var run := Steps(1, [], r.ops, st);
    AgreesSome(run, r, kind, g1, want, st);
    if want.Some? {
      KindIsValue(want.value.0);
      RanCounts(|r.ops|, st, run.value);
      ReachedIs(r, kind, g1, want.value.0, want.value.1, st, run.value);
      AssignRuns(e.name, r, kind, g1, want.value.0, want.value.1, st, run.value, |tys|);
    } else {
      var more := StoreStarts(e.name, r.obj.value, r, |tys|);
      FailsFirst(r.ops, more, st);
      AgreesNone(Gen(e, vars, |tys|).value, Check(e, g).value.0, Check(e, g).value.1, st);
    }
  }

  lemma ReachedIs(r: Emitted, kind: Kind, g: Scope, x: Value, w: World, st: State, st': State)
    requires Ran(|r.ops|, st, st') && Good(r.vars, g, w.vars, st') && st'.out == w.out
    requires ObjHolds(r.obj, x, st') && KindOf(x) == kind
    ensures Reached(r, kind, g, x, w, st, st')
  {
  }

  lemma AgreesNone(r: Emitted, kind: Kind, g: Scope, st: State)
    ensures Agrees(None, r, kind, g, None, st)
  {
  }

  lemma {:induction false} SendEval(e: Expr, w: World)
    requires e.Send? && e.selector.Sym?
    ensures var r := Eval(e.recv, w);
      if r.None? then Eval(e, w) == None
      else
        var rest := EvalArgs(e.args, r.value.1);
        if rest.None? then Eval(e, w) == None
        else
          var v := Apply(r.value.0, e.selector.name, rest.value.0, rest.value.1.out);
          Eval(e, w) == if v.None? then None else Some((v.value.0, rest.value.1.(out := v.value.1)))
  {
    hide Apply;
  }

  lemma SendMeans(cls: Class, selector: Sexpr, kinds: seq<Kind>, g: Scope)
    requires CheckSend(cls, selector, kinds, g).Some?
    ensures selector.Sym? && MethodArgs(cls, selector.name).Some?
    ensures PassForAll(kinds, MethodArgs(cls, selector.name).value)
    ensures CheckSend(cls, selector, kinds, g) == Some((ResultKind(cls, selector.name), g))
  {
    hide MethodArgs, ResultKind, PassForAll;
  }

  lemma {:induction false} SendingRuns(e: Expr, g: Scope, vars: Variables, tys: seq<Ty>, w: World, st: State)
    requires e.Send? && Check(e, g).Some? && Matches(vars, g, tys, w, st)
    ensures Gen(e, vars, |tys|).Some?
    ensures var r := Gen(e, vars, |tys|).value;
      Agrees(Steps(1, [], r.ops, st), r, Check(e, g).value.0, Check(e, g).value.1, Eval(e, w), st)
    decreases e, 0
  {
    hide *;
    MatchesParts(vars, g, tys, w, st);
    SendCheck(e, g);
    var (kind, g1) := Check(e.recv, g).value;
    var (kinds, g2) := CheckArgs(e.args, g1).value;
    SendMeans(kind.cls, e.selector, kinds, g2);
    SendEval(e, w);
    var mid := GenTyped(e.recv, g, vars, tys);
    GenRuns(e.recv, g, vars, tys, w, st);
    var r, want := Gen(e.recv, vars, |tys|).value, Eval(e.recv, w);
    HasObject(r.obj, kind, mid);
    FitsLength(r.ops, r.vars, g1, tys, mid);
    var last := GenArgsTyped(e.args, g1, r.vars, mid);
    var rest := GenArgs(e.args, r.vars, |mid|).value;
    SendGen(e, vars, |tys|);
    var all := GenTyped(e, g, vars, tys);
    var more := SendStarts(r.obj.value, e.selector, rest, r.ops, |tys|);
    var run := Steps(1, [], r.ops, st);
    AgreesSome(run, r, kind, g1, want, st);
    if want.None? {
      FailsFirst(r.ops, rest.ops + more, st);
      AgreesNone(Gen(e, vars, |tys|).value, Check(e, g).value.0, Check(e, g).value.1, st);
    } else {
      MatchesAfter(r.vars, g1, tys, mid, r.ops, want.value.1, st, run.value);
      GenArgsRun(e.args, g1, r.vars, mid, want.value.1, run.value);
      SendTail(e, kind.cls, kinds, r, rest, g2, want.value.0, want.value.1, st, run.value, |tys|, more);
    }
  }

  /** The second half of a call: its arguments have run, or failed. */
  lemma {:induction false} SendTail(e: Expr, cls: Class, kinds: seq<Kind>, r: Emitted, rest: EmittedAll, g2: Scope,
                                    x: Value, w1: World, st: State, st1: State, k: nat, more: seq<Op>)
    requires e.Send? && e.selector.Sym? && MethodArgs(cls, e.selector.name).Some?
    requires PassForAll(kinds, MethodArgs(cls, e.selector.name).value)
    requires r.obj.Some? && r.obj.value.methods == Some(cls) && |st.tmps| == k && KindOf(x) == Object(cls)
    requires Steps(1, [], r.ops, st) == Some(st1) && Ran(|r.ops|, st, st1) && ObjHolds(r.obj, x, st1)
    requires AllAgree(Steps(1, [], rest.ops, st1), rest, g2, EvalArgs(e.args, w1), st1)
    requires EvalArgs(e.args, w1).Some? ==>
               AreKinds(EvalArgs(e.args, w1).value.0, kinds) && Steps(1, [], rest.ops, st1).Some?
               && ArgsHold(rest.objs, EvalArgs(e.args, w1).value.0, Steps(1, [], rest.ops, st1).value)
    requires var out := GenSend(r.obj.value, e.selector, rest, r.ops, k);
      out.Some? && out.value.ops == r.ops + (rest.ops + more)
    ensures var out, xs := GenSend(r.obj.value, e.selector, rest, r.ops, k).value, EvalArgs(e.args, w1);
      var v := if xs.None? then None else Apply(x, e.selector.name, xs.value.0, xs.value.1.out);
      Agrees(Steps(1, [], out.ops, st), out, ResultKind(cls, e.selector.name), g2,
             if v.None? then None else Some((v.value.0, xs.value.1.(out := v.value.1))), st)
  {
    var name, run := e.selector.name, Steps(1, [], rest.ops, st1);
    var out, xs := GenSend(r.obj.value, e.selector, rest, r.ops, k).value, EvalArgs(e.args, w1);
    hide Steps, Good, Ran, KindOf, ResultKind, MethodArgs, MethodTypes, Wanted, ArgsHold, ObjHolds, Apply, GenSend,
         EvalArgs, AreKinds, PassForAll, Step, CallAgrees;
    if xs.None? {
      FailsFirst(rest.ops, more, st1);
      StepsAppend(1, [], r.ops, rest.ops + more, st);
      AgreesNone(out, ResultKind(cls, name), g2, st);
    } else {
      KindsWanted(xs.value.0, kinds, MethodArgs(cls, name).value);
      MethodFits(cls, name);
      SendIs(cls, e.selector, r.obj.value, rest, r.ops, k);
      RanCounts(|r.ops|, st, st1);
      RanCounts(|rest.ops|, st1, run.value);
      ObjStays(r.obj, x, st1, run.value, |rest.ops|);
      CallRuns(cls, name, r.obj.value, x, rest.objs, xs.value.0, rest.vars, g2, xs.value.1, run.value);
      var call := Invoke(Method(cls, name), [r.obj.value.value] + ValuesOf(rest.objs));
      CallFollows(call, r.ops, rest.ops, st, st1, run.value);
      RanTrans(|r.ops|, |rest.ops|, st, st1, run.value);
      SendRuns(Step(1, [], call, run.value), out, ResultKind(cls, name), g2, |r.ops| + |rest.ops|,
               Apply(x, name, xs.value.0, xs.value.1.out), xs.value.1, st, run.value);
    }
  }

  /**
   * Semantic preservation. For a tree that checks, started in a state that matches, the emitted code leaves the value,
   * the variables and the output that direct evaluation gives, and goes wrong exactly when direct evaluation does.
   */
  lemma {:induction false} GenRuns(e: Expr, g: Scope, vars: Variables, tys: seq<Ty>, w: World, st: State)
    requires Check(e, g).Some? && Matches(vars, g, tys, w, st)
    ensures Gen(e, vars, |tys|).Some?
    ensures var r := Gen(e, vars, |tys|).value;
      Agrees(Steps(1, [], r.ops, st), r, Check(e, g).value.0, Check(e, g).value.1, Eval(e, w), st)
    decreases e, 1
  {
    hide Steps, Good, Norm, CString, Matches, KindOf, VarsTyped, Apply, MethodArgs, ResultKind, GenStore, GenSend, Ran,
         CheckStore, CheckSend;
    MatchesParts(vars, g, tys, w, st);
    match e
    case Lit(n) => LitRuns(n, g, vars, tys, w, st);
    case Str(s) => StrAgrees(s, g, vars, tys, w, st);
    case Get(x) => GetAgrees(x, g, vars, tys, w, st);
    case Assign(_, _) => AssigningRuns(e, g, vars, tys, w, st);
    case Send(_, _, _) => SendingRuns(e, g, vars, tys, w, st);
    case Group(parts) =>
      GenPartsRun(parts, g, vars, tys, w, st);
      GroupAgrees(e, g, vars, |tys|, w, st);
  }

  lemma {:induction false} StrAgrees(s: string, g: Scope, vars: Variables, tys: seq<Ty>, w: World, st: State)
    requires Matches(vars, g, tys, w, st)
    ensures var r := Gen(Str(s), vars, |tys|).value;
      Agrees(Steps(1, [], r.ops, st), r, Object(StringClass), g, Eval(Str(s), w), st)
  {
    var st' := StrRuns(s, |tys|, vars, g, w.vars, st);
    hide Steps, Good, Ran, Norm, CString, VarsTyped;
  }

  lemma GoodKind(vars: Variables, g: Scope, xs: map<Sexpr, Value>, st: State, x: Sexpr)
    requires Good(vars, g, xs, st) && x in g
    ensures x in vars && x in xs && KindOf(xs[x]) == Object(g[x])
  {
    assert x in vars.Keys;
    hide CellHolds, OperandVal;
  }

  lemma {:induction false} GetAgrees(x: Sexpr, g: Scope, vars: Variables, tys: seq<Ty>, w: World, st: State)
    requires Matches(vars, g, tys, w, st) && x in g
    ensures Gen(Get(x), vars, |tys|).Some?
    ensures var r := Gen(Get(x), vars, |tys|).value;
      Agrees(Steps(1, [], r.ops, st), r, Object(g[x]), g, Eval(Get(x), w), st)
  {
    MatchesParts(vars, g, tys, w, st);
    GoodKind(vars, g, w.vars, st, x);
    var r := Emitted(Some(RObject(Tmp(|tys|), vars[x].methods)), vars, [Load(vars[x].value)]);
    assert Gen(Get(x), vars, |tys|) == Some(r) && Eval(Get(x), w) == Some((w.vars[x], w));
    hide *;
    var st' := GetRuns(x, vars, g, w.vars, st);
    ReachedIs(r, Object(g[x]), g, w.vars[x], w, st, st');
    AgreesReached(r, Object(g[x]), g, w.vars[x], w, st, st');
  }

  lemma AgreesReached(r: Emitted, kind: Kind, g: Scope, x: Value, w: World, st: State, st': State)
    requires Reached(r, kind, g, x, w, st, st')
    ensures Agrees(Some(st'), r, kind, g, Some((x, w)), st)
  {
    hide Reached;
  }

  lemma {:induction false} GroupAgrees(e: Expr, g: Scope, vars: Variables, k: nat, w: World, st: State)
    requires e.Group? && GenParts(e.parts, vars, k).Some? && CheckParts(e.parts, g).Some?
    requires var r := GenParts(e.parts, vars, k).value;
      AllAgree(Steps(1, [], r.ops, st), r, CheckParts(e.parts, g).value, EvalArgs(e.parts, w), st)
    ensures Gen(e, vars, k).Some? && Check(e, g) == Some((NoKind, CheckParts(e.parts, g).value))
    ensures var r := Gen(e, vars, k).value;
      Agrees(Steps(1, [], r.ops, st), r, NoKind, CheckParts(e.parts, g).value, Eval(e, w), st)
  {
    hide Steps, Good, Ran;
  }

  lemma {:induction false} ArgsEval(args: seq<Expr>, w: World)
    requires args != []
    ensures var r := Eval(args[0], w);
      if r.None? then EvalArgs(args, w) == None
      else
        var rest := EvalArgs(args[1..], r.value.1);
        EvalArgs(args, w) == if rest.None? then None else Some(([r.value.0] + rest.value.0, rest.value.1))
  {
  }

  lemma {:induction false} GenArgsRun(args: seq<Expr>, g: Scope, vars: Variables, tys: seq<Ty>, w: World, st: State)
    requires CheckArgs(args, g).Some? && Matches(vars, g, tys, w, st)
    ensures GenArgs(args, vars, |tys|).Some?
    ensures var r, want := GenArgs(args, vars, |tys|).value, EvalArgs(args, w);
      AllAgree(Steps(1, [], r.ops, st), r, CheckArgs(args, g).value.1, want, st)
      && (want.Some? ==> AreKinds(want.value.0, CheckArgs(args, g).value.0) && Steps(1, [], r.ops, st).Some?
                         && ArgsHold(r.objs, want.value.0, Steps(1, [], r.ops, st).value))
    decreases args, |args|
  {
    hide *;
    if args == [] {
      NoArgsRun(g, vars, tys, w, st);
    } else {
      MatchesParts(vars, g, tys, w, st);
      ArgsCheck(args, g);
      ArgsEval(args, w);
      ArgsGen(args, vars, |tys|);
      var (kind, g1) := Check(args[0], g).value;
      var mid := GenTyped(args[0], g, vars, tys);
      GenRuns(args[0], g, vars, tys, w, st);
      var r, want := Gen(args[0], vars, |tys|).value, Eval(args[0], w);
      HasObject(r.obj, kind, mid);
      FitsLength(r.ops, r.vars, g1, tys, mid);
      var last := GenArgsTyped(args[1..], g1, r.vars, mid);
      var rest := GenArgs(args[1..], r.vars, |mid|).value;
      var (kinds, g2) := CheckArgs(args[1..], g1).value;
      var run := Steps(1, [], r.ops, st);
      AgreesSome(run, r, kind, g1, want, st);
      if want.None? {
        FailsFirst(r.ops, rest.ops, st);
        AllAgreeNone(GenArgs(args, vars, |tys|).value, g2, st);
      } else {
        MatchesAfter(r.vars, g1, tys, mid, r.ops, want.value.1, st, run.value);
        GenArgsRun(args[1..], g1, r.vars, mid, want.value.1, run.value);
        ArgsTail(r, rest, kind, kinds, g2, EvalArgs(args[1..], want.value.1), want.value.0, st, run.value);
      }
    }
  }

  lemma AllAgreeNone(r: EmittedAll, g: Scope, st: State)
    ensures AllAgree(None, r, g, None, st)
  {
  }

  lemma {:induction false} NoArgsRun(g: Scope, vars: Variables, tys: seq<Ty>, w: World, st: State)
    requires Matches(vars, g, tys, w, st)
    ensures GenArgs([], vars, |tys|) == Some(EmittedAll([], vars, [])) && EvalArgs([], w) == Some(([], w))
    ensures CheckArgs([], g) == Some(([], g)) && Steps(1, [], [], st) == Some(st)
    ensures AllAgree(Some(st), EmittedAll([], vars, []), g, Some(([], w)), st) && AreKinds([], [])
    ensures ArgsHold([], [], st)
  {
    RanNone(st);
    hide Good, Ran;
  }

  lemma {:induction false} ArgsTail(r: Emitted, rest: EmittedAll, kind: Kind, kinds: seq<Kind>, g2: Scope,
                                    more: Option<(seq<Value>, World)>, x: Value, st: State, st1: State)
    requires KindOf(x) == kind && r.obj.Some? && ObjHolds(r.obj, x, st1)
    requires Steps(1, [], r.ops, st) == Some(st1) && Ran(|r.ops|, st, st1)
    requires AllAgree(Steps(1, [], rest.ops, st1), rest, g2, more, st1)
    requires more.Some? ==> AreKinds(more.value.0, kinds) && Steps(1, [], rest.ops, st1).Some?
                            && ArgsHold(rest.objs, more.value.0, Steps(1, [], rest.ops, st1).value)
    ensures var all := EmittedAll([r.obj.value] + rest.objs, rest.vars, r.ops + rest.ops);
      var want := if more.None? then None else Some(([x] + more.value.0, more.value.1));
      AllAgree(Steps(1, [], all.ops, st), all, g2, want, st)
      && (want.Some? ==> AreKinds(want.value.0, [kind] + kinds) && Steps(1, [], all.ops, st).Some?
                         && ArgsHold(all.objs, want.value.0, Steps(1, [], all.ops, st).value))
  {
    hide Steps, Good, Ran, KindOf, AreKinds, ArgsHold, ObjHolds;
    assert AllAgree(Steps(1, [], rest.ops, st1), EmittedAll(rest.objs, rest.vars, rest.ops), g2, more, st1);
    ThenRuns(r.ops, rest.ops, rest.vars, rest.objs, g2, more, x, st, st1);
    StepsAppend(1, [], r.ops, rest.ops, st);
    if more.Some? {
      var st2 := Steps(1, [], rest.ops, st1).value;
      ObjStays(r.obj, x, st1, st2, |rest.ops|);
      OneMoreHolds(r.obj.value, x, rest.objs, more.value.0, st2);
      OneMoreKind(x, more.value.0, kinds);
    }
  }

  lemma {:induction false} GenPartsRun(parts: seq<Expr>, g: Scope, vars: Variables, tys: seq<Ty>, w: World, st: State)
    requires CheckParts(parts, g).Some? && Matches(vars, g, tys, w, st)
    ensures GenParts(parts, vars, |tys|).Some?
    ensures var r := GenParts(parts, vars, |tys|).value;
      AllAgree(Steps(1, [], r.ops, st), r, CheckParts(parts, g).value, EvalArgs(parts, w), st)
    decreases parts, |parts|
  {
    hide *;
    MatchesParts(vars, g, tys, w, st);
    if parts == [] {
      NoPartsRun(g, vars, tys, w, st);
    } else {
      PartsCheck(parts, g);
      PartsGen(parts, vars, |tys|);
      ArgsEval(parts, w);
      var (kind, g1) := Check(parts[0], g).value;
      var mid := GenTyped(parts[0], g, vars, tys);
      GenRuns(parts[0], g, vars, tys, w, st);
      var r, want := Gen(parts[0], vars, |tys|).value, Eval(parts[0], w);
      FitsLength(r.ops, r.vars, g1, tys, mid);
      var last := GenPartsTyped(parts[1..], g1, r.vars, mid);
      var rest, g2 := GenParts(parts[1..], r.vars, |mid|).value, CheckParts(parts[1..], g1).value;
      var run := Steps(1, [], r.ops, st);
      AgreesSome(run, r, kind, g1, want, st);
      if want.None? {
        FailsFirst(r.ops, rest.ops, st);
        AllAgreeNone(GenParts(parts, vars, |tys|).value, g2, st);
      } else {
        MatchesAfter(r.vars, g1, tys, mid, r.ops, want.value.1, st, run.value);
        GenPartsRun(parts[1..], g1, r.vars, mid, want.value.1, run.value);
        PartsHaveNone(parts[1..], r.vars, |mid|);
        ThenRuns(r.ops, rest.ops, rest.vars, [], g2, EvalArgs(parts[1..], want.value.1), want.value.0, st, run.value);
      }
    }
  }

  lemma {:induction false} NoPartsRun(g: Scope, vars: Variables, tys: seq<Ty>, w: World, st: State)
    requires Matches(vars, g, tys, w, st)
    ensures GenParts([], vars, |tys|) == Some(EmittedAll([], vars, [])) && EvalArgs([], w) == Some(([], w))
    ensures CheckParts([], g) == Some(g)
    ensures AllAgree(Steps(1, [], [], st), EmittedAll([], vars, []), g, Some(([], w)), st)
  {
    RanNone(st);
    hide Good, Ran;
  }

  // ---------- a whole program ----------

  lemma NothingYet()
    ensures Matches(map[], map[], [], World(map[], []), State([], [], []))
  {
  }

  /**
   * The code of a tree that checks with no variables defined, run from nothing: it fits the declared types; it gets to
   * its end if and only if the shapes of the tree go through; and then it has output what the tree outputs, and every
   * variable's last value is in its cell.
   */
  lemma MainMeans(e: Expr) returns (tys: seq<Ty>)
    requires Check(e, map[]).Some?
    ensures Gen(e, map[], 0).Some?
    ensures var r, want := Gen(e, map[], 0).value, Eval(e, World(map[], []));
      var run := Steps(1, [], r.ops, State([], [], []));
      Types(r.ops, [], []) == Some(tys) && (run.Some? <==> Shapely(e, map[]).Some?) && (run.Some? <==> want.Some?)
      && (run.Some? ==>
            run.value.out == want.value.1.out && r.vars.Keys == want.value.1.vars.Keys
            && forall n :: n in r.vars ==> CellHolds(r.vars[n].value, want.value.1.vars[n], run.value))
  {
    NothingYet();
    tys := GenTyped(e, map[], map[], []);
    GenRuns(e, map[], map[], [], World(map[], []), State([], [], []));
    ShapelyExact(e, map[], World(map[], []));
    var r := Gen(e, map[], 0).value;
    AgreesSome(Steps(1, [], r.ops, State([], [], [])), r, Check(e, map[]).value.0, Check(e, map[]).value.1,
               Eval(e, World(map[], [])), State([], [], []));
    hide Check, Gen, Steps, Eval, CellHolds, VarsTyped, Types, Agrees, Shapely;
  }
}
