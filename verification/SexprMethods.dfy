// The functions that generated code calls do what the methods of the language mean.

module SexprMethods {
  import opened Options
  import opened Words
  import opened TextIR
  import opened Texts
  import opened Sexprs
  import opened SexprShapes

  /** The value v in the code stands for the value x of the language. */
  predicate Holds(v: Val, x: Value, heap: seq<Obj>) {
    match x
    case NumV(n) => v == Num(n)
    case StrV(text, length) =>
      v.Ref? && v.obj < |heap| && heap[v.obj].Record? && heap[v.obj].ptr.Some?
      && TextAt(heap[v.obj].ptr.value, heap) == Some(text)
      && heap[v.obj].len == (if length.Some? then Some(Num(length.value)) else None)
    case NilV => v == Int(0)
    case NoV => true
  }

  /** Objects other than cells stay as they are, cells stay cells. */
  predicate Stable(h: seq<Obj>, h': seq<Obj>) {
    |h| <= |h'| && forall o :: 0 <= o < |h| ==> (h[o].Slot? && h'[o].Slot?) || h'[o] == h[o]
  }

  lemma StableTrans(h: seq<Obj>, h1: seq<Obj>, h2: seq<Obj>)
    requires Stable(h, h1) && Stable(h1, h2)
    ensures Stable(h, h2)
  {
  }

  lemma HoldsStable(v: Val, x: Value, h: seq<Obj>, h': seq<Obj>)
    requires Holds(v, x, h) && Stable(h, h')
    ensures Holds(v, x, h')
  {
  }

  lemma PrefixStable(h: seq<Obj>, h': seq<Obj>)
    requires h <= h'
    ensures Stable(h, h')
  {
  }

  // ---------- decimal numbers ----------

  function Pow10(k: nat): nat {
    if k == 0 then 1 else 10 * Pow10(k - 1)
  }

  lemma {:induction false} DigitsShort(n: nat, k: nat)
    requires k >= 1 && n < Pow10(k)
    ensures |Digits(n)| <= k
    decreases k
  {
    if n >= 10 {
      assert k > 1 by {
        assert Pow10(1) == 10 * Pow10(0);
      }
      DigitsShort(n / 10, k - 1);
    }
  }

  /** A 32-bit number fits the buffer of 33 characters with room to spare. */
  lemma DecimalFits(n: int)
    ensures |Decimal(n)| <= 11
  {
    var m := Signed(I32, n);
    assert Pow10(10) == 10000000000 by {
      assert Pow10(2) == 100 && Pow10(4) == 10000 && Pow10(6) == 1000000 && Pow10(8) == 100000000;
    }
    DigitsShort(if m < 0 then -m else m, 10);
  }

  // ---------- numbers ----------

  lemma {:induction false} ArithRuns(a: int, b: int, heap: seq<Obj>, out: seq<string>)
    ensures Call(1, Method(NumClass, "+"), [Num(a), Num(b)], heap, out) == Some((Int(a + b), heap, out))
    ensures Call(1, Method(NumClass, "-"), [Num(a), Num(b)], heap, out) == Some((Int(a - b), heap, out))
  {
    var params, st := [Num(a), Num(b)], State([], heap, out);
    StepsOne(0, params, Add(Param(0), Param(1)), st);
    StepsOne(0, params, Sub(Param(0), Param(1)), st);
    assert Step(0, params, Add(Param(0), Param(1)), st) == Some(State([] + [Int(a + b)], heap, out));
    assert a + -1 * b == a - b;
    assert Step(0, params, Sub(Param(0), Param(1)), st) == Some(State([] + [Int(a - b)], heap, out));
    hide Steps, Step, Norm;
  }

  // ---------- strings ----------

  lemma {:induction false} StepTo(params: seq<Val>, ops: seq<Op>, k: nat, st: State, st': State)
    requires k < |ops| && Step(0, params, ops[k], st) == Some(st')
    ensures Steps(0, params, ops[k..], st) == Steps(0, params, ops[k + 1..], st')
  {
    hide Step;
    StepsFrom(0, params, ops, k, st);
  }

  lemma OperandsAre(os: seq<Operand>, params: seq<Val>, tmps: seq<Val>, vs: seq<Val>)
    requires |os| == |vs| && forall i :: 0 <= i < |os| ==> OperandVal(os[i], params, tmps) == Some(vs[i])
    ensures OperandVals(os, params, tmps) == Some(vs)
  {
    hide OperandVal;
    assert OperandVals(os, params, tmps).value == vs;
  }

  lemma {:induction false} CallIs(f: Function, params: seq<Val>, heap: seq<Obj>, out: seq<string>, st: State, v: Val)
    requires BodyOf(f).Some? && Steps(0, params, BodyOf(f).value.ops, State([], heap, out)) == Some(st)
    requires OperandVal(BodyOf(f).value.ret, params, st.tmps) == Some(v)
    ensures Call(1, f, params, heap, out) == Some((v, st.heap, st.out))
  {
    hide Steps, OperandVal, BodyOf;
  }

  lemma UpdatedAbove(h: seq<Obj>, h': seq<Obj>, o: nat, r: Obj)
    requires h <= h' && |h| <= o < |h'|
    ensures h <= h'[o := r]
  {
  }

  lemma TmpIs(k: nat, params: seq<Val>, tmps: seq<Val>)
    requires k < |tmps|
    ensures OperandVal(Tmp(k), params, tmps) == Some(tmps[k])
  {
  }

  function WithField(r: Obj, f: nat, v: Val): Obj
    requires r.Record?
  {
    if f == 0 then r.(len := Some(v)) else r.(ptr := Some(v))
  }

  /** The address of a field of the record in temporary r, and a store to it. */
  lemma FieldSet(params: seq<Val>, ops: seq<Op>, k: nat, st: State, r: nat, f: nat, o: Operand, rec: nat, v: Val)
    returns (st': State)
    requires k + 1 < |ops| && f <= 1 && ops[k] == Field(Tmp(r), f) && ops[k + 1] == Store(o, Tmp(|st.tmps|))
    requires r < |st.tmps| && st.tmps[r] == Ref(rec) && rec < |st.heap| && st.heap[rec].Record?
    requires OperandVal(o, params, st.tmps + [FieldRef(rec, f)]) == Some(v)
    ensures st' == State(st.tmps + [FieldRef(rec, f)] + [Nothing], st.heap[rec := WithField(st.heap[rec], f, v)],
                         st.out)
    ensures Steps(0, params, ops[k..], st) == Steps(0, params, ops[k + 2..], st')
  {
    var s1 := State(st.tmps + [FieldRef(rec, f)], st.heap, st.out);
    st' := State(s1.tmps + [Nothing], st.heap[rec := WithField(st.heap[rec], f, v)], st.out);
    StepTo(params, ops, k, st, s1);
    StepTo(params, ops, k + 1, s1, st');
  }

  /** The buffer and the format, and the text written into the buffer. */
  lemma ToSWrites(params: seq<Val>, ops: seq<Op>, a: int, heap: seq<Obj>, out: seq<string>) returns (st': State)
    requires |ops| == 6 && ops[0] == MallocChars(33) && ops[1] == GlobalString("%d") && params == [Num(a)]
    requires ops[2] == Invoke(Sprintf, [Tmp(0), Tmp(1), Param(0)])
    ensures |st'.tmps| == 3 && st'.tmps[0] == Ref(|heap|) && st'.out == out
    ensures |st'.heap| == |heap| + 2 && heap <= st'.heap && st'.heap[|heap|] == Chars(Some(Decimal(a)), 33)
    ensures Steps(0, params, ops, State([], heap, out)) == Steps(0, params, ops[3..], st')
  {
    var n, text, fmt := |heap|, Decimal(a), Chars(Some("%d"), 3);
    DecimalFits(a);
    FormatIs();
    var s1 := State([] + [Ref(n)], heap + [Chars(None, 33)], out);
    var s2 := State(s1.tmps + [Ref(n + 1)], s1.heap + [fmt], out);
    st' := State(s2.tmps + [Ref(n)], heap + [Chars(Some(text), 33)] + [fmt], out);
    assert ops[0..] == ops;
    StepTo(params, ops, 0, State([], heap, out), s1);
    StepTo(params, ops, 1, s1, s2);
    assert s2.heap[n := Chars(Some(text), 33)] == st'.heap;
    var args := [Tmp(0), Tmp(1), Param(0)];
    OperandsAre(args, params, s2.tmps, [Ref(n), Ref(n + 1), Num(a)]);
    SprintfStep(params, ops[2], args, s2, n, a, st'.heap);
    StepTo(params, ops, 2, s2, st');
  }

  lemma {:induction false} SprintfStep(params: seq<Val>, op: Op, args: seq<Operand>, st: State, n: nat, a: int,
                                       heap': seq<Obj>)
    requires op == Invoke(Sprintf, args) && OperandVals(args, params, st.tmps) == Some([Ref(n), Ref(n + 1), Num(a)])
    requires n + 1 < |st.heap| && st.heap[n] == Chars(None, 33) && TextAt(Ref(n + 1), st.heap) == Some("%d")
    requires heap' == st.heap[n := Chars(Some(Decimal(a)), 33)] && |Decimal(a)| < 33
    ensures Step(0, params, op, st) == Some(State(st.tmps + [Ref(n)], heap', st.out))
  {
    hide Decimal, OperandVals;
  }

  lemma {:induction false} MallocStep(params: seq<Val>, ops: seq<Op>, k: nat, st: State)
    requires k < |ops| && ops[k] == MallocString
    ensures Steps(0, params, ops[k..], st)
         == Steps(0, params, ops[k + 1..], State(st.tmps + [Ref(|st.heap|)], st.heap + [Record(None, None)], st.out))
  {
    StepTo(params, ops, k, st, State(st.tmps + [Ref(|st.heap|)], st.heap + [Record(None, None)], st.out));
  }

  /** The record around the text of object n. */
  lemma ToSRecords(params: seq<Val>, ops: seq<Op>, st: State, n: nat, text: string) returns (st': State)
    requires |ops| == 6 && ops[3] == MallocString && ops[4] == Field(Tmp(3), 1) && ops[5] == Store(Tmp(0), Tmp(4))
    requires |st.tmps| == 3 && st.tmps[0] == Ref(n) && |st.heap| == n + 2 && st.heap[n] == Chars(Some(text), 33)
    ensures Steps(0, params, ops[3..], st) == Some(st') && |st'.tmps| == 6 && st'.tmps[3] == Ref(n + 2)
    ensures st.heap <= st'.heap && st'.out == st.out && Holds(Ref(n + 2), StrV(text, None), st'.heap)
  {
    var s4 := State(st.tmps + [Ref(n + 2)], st.heap + [Record(None, None)], st.out);
    hide Steps;
    MallocStep(params, ops, 3, st);
    st' := FieldSet(params, ops, 4, s4, 3, 1, Tmp(0), n + 2, Ref(n));
    UpdatedAbove(st.heap, s4.heap, n + 2, WithField(s4.heap[n + 2], 1, Ref(n)));
    StepsEnd(0, params, ops, st');
  }

  lemma ToSBody()
    ensures var body := BodyOf(Method(NumClass, "to_s"));
      body.Some? && body.value.ret == Tmp(3)
      && var ops := body.value.ops;
         |ops| == 6 && ops[0] == MallocChars(33) && ops[1] == GlobalString("%d")
         && ops[2] == Invoke(Sprintf, [Tmp(0), Tmp(1), Param(0)])
         && ops[3] == MallocString && ops[4] == Field(Tmp(3), 1) && ops[5] == Store(Tmp(0), Tmp(4))
  {
  }

  /** to_s makes a fresh record with the number in decimal; its length is left as it was. */
  lemma ToSRuns(a: int, heap: seq<Obj>, out: seq<string>) returns (heap': seq<Obj>)
    ensures heap <= heap' && Holds(Ref(|heap| + 2), StrV(Decimal(a), None), heap')
    ensures Call(1, Method(NumClass, "to_s"), [Num(a)], heap, out) == Some((Ref(|heap| + 2), heap', out))
    ensures ReadDecimal(Decimal(a)) == Signed(I32, a) && IsDecimal(Decimal(a))
  {
    hide *;
    DecimalReads(a);
    var n, params, f := |heap|, [Num(a)], Method(NumClass, "to_s");
    ToSBody();
    var ops := BodyOf(f).value.ops;
    var s3 := ToSWrites(params, ops, a, heap, out);
    var s6 := ToSRecords(params, ops, s3, n, Decimal(a));
    heap' := s6.heap;
    TmpIs(3, params, s6.tmps);
    CallIs(f, params, heap, out, s6, Ref(n + 2));
  }

  lemma FormatIs()
    ensures CString("%d") == "%d"
  {
    assert CString("%d"[1..][1..]) == [];
    assert "%d"[1..] == "d";
    assert CString("d") == "d";
  }

  lemma {:induction false} LengthRuns(v: Val, x: Value, heap: seq<Obj>, out: seq<string>)
    requires x.StrV? && Holds(v, x, heap)
    ensures Call(1, Method(StringClass, "length"), [v], heap, out)
         == if x.length.Some? then Some((Num(x.length.value), heap, out)) else None
  {
    var ops, params := BodyOf(Method(StringClass, "length")).value.ops, [v];
    var s1 := State([] + [FieldRef(v.obj, 0)], heap, out);
    assert ops[0..] == ops;
    StepTo(params, ops, 0, State([], heap, out), s1);
    StepsFrom(0, params, ops, 1, s1);
    if x.length.Some? {
      var s2 := State(s1.tmps + [Num(x.length.value)], heap, out);
      assert Step(0, params, ops[1], s1) == Some(s2);
      StepsEnd(0, params, ops, s2);
    }
  }

  /**
   * puts hands the text to printf as a format: what comes out is the text itself exactly when it has no percent sign.
   */
  lemma {:induction false} PutsRuns(v: Val, x: Value, heap: seq<Obj>, out: seq<string>)
    requires x.StrV? && Holds(v, x, heap)
    ensures Call(1, Method(StringClass, "puts"), [v], heap, out)
         == if Format(x.text).Some? then Some((Int(0), heap, out + [Format(x.text).value])) else None
    ensures Format(x.text) == Some(x.text) <==> '%' !in x.text
  {
    FormatSame(x.text);
    var ops, params := BodyOf(Method(StringClass, "puts")).value.ops, [v];
    var p := heap[v.obj].ptr.value;
    var s1 := State([] + [FieldRef(v.obj, 1)], heap, out);
    var s2 := State(s1.tmps + [p], heap, out);
    hide Format;
    assert ops[0..] == ops;
    StepTo(params, ops, 0, State([], heap, out), s1);
    StepTo(params, ops, 1, s1, s2);
    OperandsAre([Tmp(1)], params, s2.tmps, [p]);
    StepsFrom(0, params, ops, 2, s2);
    if Format(x.text).Some? {
      var text := Format(x.text).value;
      var s3 := State(s2.tmps + [Int(|text|)], heap, out + [text]);
      assert Step(0, params, ops[2], s2) == Some(s3);
      StepsEnd(0, params, ops, s3);
    }
  }

  /** The record with both fields. */
  lemma LiteralRecords(params: seq<Val>, ops: seq<Op>, st: State, o: nat, text: string, len: int) returns (st': State)
    requires |ops| == 6 && ops[1] == MallocString && ops[2] == Field(Tmp(1), 0) && ops[3] == Store(Tmp(0), Tmp(2))
    requires ops[4] == Field(Tmp(1), 1) && ops[5] == Store(Param(0), Tmp(4)) && params == [Ref(o)]
    requires |st.tmps| == 1 && st.tmps[0] == Num(len) && TextAt(Ref(o), st.heap) == Some(text)
    ensures Steps(0, params, ops[1..], st) == Some(st') && |st'.tmps| == 6 && st'.tmps[1] == Ref(|st.heap|)
    ensures st.heap <= st'.heap && st'.out == st.out && Holds(Ref(|st.heap|), StrV(text, Some(len)), st'.heap)
  {
    var n := |st.heap|;
    var s2 := State(st.tmps + [Ref(n)], st.heap + [Record(None, None)], st.out);
    hide Steps;
    MallocStep(params, ops, 1, st);
    var s4 := FieldSet(params, ops, 2, s2, 1, 0, Tmp(0), n, Num(len));
    UpdatedAbove(st.heap, s2.heap, n, WithField(s2.heap[n], 0, Num(len)));
    st' := FieldSet(params, ops, 4, s4, 1, 1, Param(0), n, Ref(o));
    UpdatedAbove(st.heap, s4.heap, n, WithField(s4.heap[n], 1, Ref(o)));
    StepsEnd(0, params, ops, st');
  }

  lemma LiteralBody()
    ensures var body := BodyOf(StrFromCstr);
      body.Some? && body.value.ret == Tmp(1)
      && var ops := body.value.ops;
         |ops| == 6 && ops[0] == Invoke(Strlen, [Param(0)]) && ops[1] == MallocString && ops[2] == Field(Tmp(1), 0)
         && ops[3] == Store(Tmp(0), Tmp(2)) && ops[4] == Field(Tmp(1), 1) && ops[5] == Store(Param(0), Tmp(4))
  {
  }

  lemma {:induction false} StrlenStep(params: seq<Val>, ops: seq<Op>, o: nat, text: string, heap: seq<Obj>,
                                      out: seq<string>)
    requires |ops| > 0 && ops[0] == Invoke(Strlen, [Param(0)]) && params == [Ref(o)]
    requires TextAt(Ref(o), heap) == Some(text)
    ensures Steps(0, params, ops, State([], heap, out))
         == Steps(0, params, ops[1..], State([] + [Int(|text|)], heap, out))
  {
    assert ops[0..] == ops;
    OperandsAre([Param(0)], params, [], [Ref(o)]);
    StepTo(params, ops, 0, State([], heap, out), State([] + [Int(|text|)], heap, out));
  }

  /** A literal becomes a record of its characters and its length as C sees them. */
  lemma StrFromCstrRuns(o: nat, text: string, heap: seq<Obj>, out: seq<string>) returns (heap': seq<Obj>)
    requires TextAt(Ref(o), heap) == Some(text)
    ensures heap <= heap' && Holds(Ref(|heap|), StrV(text, Some(Norm(I32, |text|))), heap')
    ensures Call(1, StrFromCstr, [Ref(o)], heap, out) == Some((Ref(|heap|), heap', out))
  {
    var params, len := [Ref(o)], Norm(I32, |text|);
    var ops := BodyOf(StrFromCstr).value.ops;
    LiteralBody();
    hide Step, Steps, BodyOf, Call, Holds, Norm;
    StrlenStep(params, ops, o, text, heap, out);
    var s1 := State([] + [Num(len)], heap, out);
    var s6 := LiteralRecords(params, ops, s1, o, text, len);
    heap' := s6.heap;
    CallIs(StrFromCstr, params, heap, out, s6, Ref(|heap|));
  }

  // ---------- every method ----------

  predicate AllHold(vs: seq<Val>, xs: seq<Value>, heap: seq<Obj>) {
    |vs| == |xs| && forall i :: 0 <= i < |vs| ==> Holds(vs[i], xs[i], heap)
  }

  /** The values pass for objects of the classes that the method wants. */
  predicate Wanted(xs: seq<Value>, want: seq<Class>) {
    |xs| == |want| && forall i :: 0 <= i < |xs| ==> PassesFor(KindOf(xs[i])) == Some(want[i])
  }

  /** String#+ is declared, and calling it leads nowhere. */
  lemma {:induction false} ConcatenationRuns(args: seq<Val>, heap: seq<Obj>, out: seq<string>)
    ensures Call(1, Method(StringClass, "+"), args, heap, out) == None
  {
    assert BodyOf(Method(StringClass, "+")).None?;
  }

  /** Nil is the word 0 in the code. */
  lemma HoldsAsObject(v: Val, x: Value, heap: seq<Obj>)
    requires Holds(v, x, heap)
    ensures Holds(v, AsObject(x), heap)
  {
  }

  lemma NumMethodRuns(name: string, v: Val, vs: seq<Val>, x: Value, xs: seq<Value>, heap: seq<Obj>, out: seq<string>)
    returns (heap': seq<Obj>)
    requires MethodArgs(NumClass, name).Some? && x.NumV? && Wanted(xs, MethodArgs(NumClass, name).value)
    requires Holds(v, x, heap) && AllHold(vs, xs, heap)
    ensures heap <= heap'
    ensures var call, want := Call(1, Method(NumClass, name), [v] + vs, heap, out), Apply(x, name, xs, out);
      want.Some? && call.Some? && call.value.1 == heap' && call.value.2 == want.value.1
      && Holds(call.value.0, want.value.0, heap') && KindOf(want.value.0) == ResultKind(NumClass, name)
  {
    heap' := heap;
    if name == "to_s" {
      assert [v] + vs == [v];
      heap' := ToSRuns(x.n, heap, out);
    } else {
      assert Holds(vs[0], xs[0], heap) && PassesFor(KindOf(xs[0])) == Some(NumClass);
      HoldsAsObject(vs[0], xs[0], heap);
      var b := AsObject(xs[0]).n;
      assert [v] + vs == [Num(x.n), Num(b)];
      ArithRuns(x.n, b, heap, out);
    }
  }

  /** Calling a method's function is applying the method: the same result and output, or the same failure. */
  lemma MethodRuns(cls: Class, name: string, v: Val, vs: seq<Val>, x: Value, xs: seq<Value>,
                   heap: seq<Obj>, out: seq<string>) returns (heap': seq<Obj>)
    requires MethodArgs(cls, name).Some? && KindOf(x) == Object(cls) && Wanted(xs, MethodArgs(cls, name).value)
    requires Holds(v, x, heap) && AllHold(vs, xs, heap)
    ensures heap <= heap'
    ensures var call, want := Call(1, Method(cls, name), [v] + vs, heap, out), Apply(x, name, xs, out);
      if want.None? then call.None?
      else call.Some? && call.value.1 == heap' && call.value.2 == want.value.1
           && Holds(call.value.0, want.value.0, heap') && KindOf(want.value.0) == ResultKind(cls, name)
  {
    heap' := heap;
    if cls == NumClass {
      heap' := NumMethodRuns(name, v, vs, x, xs, heap, out);
    } else if name == "+" {
      ConcatenationRuns([v] + vs, heap, out);
    } else {
      assert [v] + vs == [v];
      if name == "length" {
        LengthRuns(v, x, heap, out);
      } else {
        PutsRuns(v, x, heap, out);
      }
      hide Call, Format;
    }
  }
}
