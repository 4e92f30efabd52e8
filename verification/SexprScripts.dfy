// Whole scripts, from the list that is compiled to the text that main prints.

module SexprScripts {
  import opened Options
  import opened Words
  import opened TextIR
  import opened Texts
  import opened Sexprs
  import opened SexprSpelling
  import opened SexprCodegen
  import opened SexprShapes
  import opened SexprSession
  import opened SexprCompiler

  // ---------- what a tree does, one construct at a time ----------

  /** From these variables and this world the tree checks, with a kind, and has a value. */
  predicate Does(e: Expr, g: Scope, w: World, kind: Kind, g': Scope, v: Value, w': World) {
    Check(e, g) == Some((kind, g')) && Eval(e, w) == Some((v, w'))
  }

  predicate DoAll(es: seq<Expr>, g: Scope, w: World, g': Scope, w': World) {
    CheckParts(es, g) == Some(g') && EvalArgs(es, w).Some? && EvalArgs(es, w).value.1 == w'
  }

  lemma LitDoes(n: int, g: Scope, w: World)
    requires CInt(n)
    ensures Does(Lit(n), g, w, Object(NumClass), g, NumV(Norm(I32, n)), w)
  {
  }

  lemma StrDoes(s: string, g: Scope, w: World)
    requires '\0' !in s
    ensures Does(Str(s), g, w, Object(StringClass), g, StrV(s, Some(Norm(I32, |s|))), w)
  {
    CStringWhole(s);
    hide CString, Norm;
  }

  lemma GetDoes(x: Sexpr, g: Scope, w: World)
    requires x in g && x in w.vars
    ensures Does(Get(x), g, w, Object(g[x]), g, w.vars[x], w)
  {
  }

  lemma AssignDoes(x: Sexpr, rhs: Expr, g: Scope, w: World, cls: Class, g': Scope, v: Value, w': World)
    requires Does(rhs, g, w, Object(cls), g', v, w') && (x in g' ==> g'[x] == cls) && (v.NumV? || v.StrV?)
    ensures Does(Assign(x, rhs), g, w, Object(cls), g'[x := cls], v, w'.(vars := w'.vars[x := v]))
  {
    assert x in g' ==> g'[x := cls] == g';
  }

  lemma {:induction false} NoArgs(g: Scope, w: World)
    ensures CheckArgs([], g) == Some(([], g)) && EvalArgs([], w) == Some(([], w))
  {
  }

  /** A call without arguments. */
  lemma CallDoes(recv: Expr, name: string, g: Scope, w: World, cls: Class, g': Scope, v: Value, w': World, r: Value,
                 out: seq<string>)
    requires Does(recv, g, w, Object(cls), g', v, w') && MethodArgs(cls, name) == Some([])
    requires Apply(v, name, [], w'.out) == Some((r, out))
    ensures Does(Send(recv, Sym(name), []), g, w, ResultKind(cls, name), g', r, w'.(out := out))
  {
    NoArgs(g', w');
    hide Apply, MethodArgs, ResultKind;
  }

  lemma {:induction false} OneArg(arg: Expr, g: Scope, w: World, kind: Kind, g': Scope, v: Value, w': World)
    requires Does(arg, g, w, kind, g', v, w') && !kind.NoKind?
    ensures CheckArgs([arg], g) == Some(([kind], g')) && EvalArgs([arg], w) == Some(([v], w'))
  {
    NoArgs(g', w');
    assert [arg][1..] == [] && [kind] + [] == [kind] && [v] + [] == [v];
    hide Check, Eval;
  }

  /** A call with one argument: the receiver first, then the argument. */
  lemma Call1Does(recv: Expr, name: string, arg: Expr, g: Scope, w: World, g1: Scope, v: Value, w1: World, kind: Kind,
                  g2: Scope, v2: Value, w2: World, r: Value)
    requires Does(recv, g, w, Object(NumClass), g1, v, w1) && Does(arg, g1, w1, kind, g2, v2, w2)
    requires name == "+" || name == "-"
    requires kind == Object(NumClass) || kind == NilKind
    requires Apply(v, name, [v2], w2.out) == Some((r, w2.out))
    ensures Does(Send(recv, Sym(name), [arg]), g, w, Object(NumClass), g2, r, w2)
  {
    OneArg(arg, g1, w1, kind, g2, v2, w2);
    hide Apply;
  }

  lemma NoneDo(g: Scope, w: World)
    ensures DoAll([], g, w, g, w)
  {
  }

  lemma OneMoreDoes(e: Expr, es: seq<Expr>, g: Scope, w: World, kind: Kind, g1: Scope, v: Value, w1: World, g2: Scope,
                    w2: World)
    requires Does(e, g, w, kind, g1, v, w1) && DoAll(es, g1, w1, g2, w2)
    ensures DoAll([e] + es, g, w, g2, w2)
  {
    assert ([e] + es)[1..] == es && ([e] + es)[0] == e;
    hide Check, Eval;
  }

  lemma GroupDoes(es: seq<Expr>, g: Scope, w: World, g': Scope, w': World)
    requires DoAll(es, g, w, g', w')
    ensures Does(Group(es), g, w, NoKind, g', NoV, w')
  {
  }

  // ---------- a script whose tree does something ----------

  lemma {:induction false} MainPrints(main: seq<Block>, e: Expr, kind: Kind, g: Scope, v: Value, w: World)
    requires Does(e, map[], World(map[], []), kind, g, v, w) && (Check(e, map[]).Some? ==> MeansTree(main, e))
    ensures Check(e, map[]).Some? && RunMain(main).Some? && RunMain(main).value.out == w.out
  {
    hide Check, Eval, RunMain, Shapely;
  }

  // ---------- to_s and puts ----------

  /** e.to_s.puts */
  function PrintNumber(e: Expr): Expr {
    Send(Send(e, Sym("to_s"), []), Sym("puts"), [])
  }

  lemma PrintNumberDoes(e: Expr, g: Scope, w: World, g': Scope, n: int, w': World) returns (t: string)
    requires Does(e, g, w, Object(NumClass), g', NumV(n), w')
    ensures ReadDecimal(t) == Signed(I32, n) && IsDecimal(t)
    ensures Does(PrintNumber(e), g, w, NilKind, g', NilV, w'.(out := w'.out + [t]))
  {
    t := Decimal(n);
    DecimalReads(n);
    DecimalFormats(n);
    hide Check, Eval, Decimal, Format, Signed, ReadDecimal, IsDecimal, Norm;
    CallDoes(e, "to_s", g, w, NumClass, g', NumV(n), w', StrV(t, None), w'.out);
    CallDoes(Send(e, Sym("to_s"), []), "puts", g, w, StringClass, g', StrV(t, None), w', NilV, w'.out + [t]);
  }

  lemma PrintTextDoes(s: string, g: Scope, w: World)
    requires '\0' !in s && '%' !in s
    ensures Does(Send(Str(s), Sym("puts"), []), g, w, NilKind, g, NilV, w.(out := w.out + [s]))
  {
    StrDoes(s, g, w);
    FormatSame(s);
    hide Check, Eval, Format, Norm;
    CallDoes(Str(s), "puts", g, w, StringClass, g, StrV(s, Some(Norm(I32, |s|))), w, NilV, w.out + [s]);
  }

  lemma LengthDoes(s: string, g: Scope, w: World)
    requires '\0' !in s
    ensures Does(Send(Str(s), Sym("length"), []), g, w, Object(NumClass), g, NumV(Norm(I32, |s|)), w)
  {
    StrDoes(s, g, w);
    hide Check, Eval, Norm;
    CallDoes(Str(s), "length", g, w, StringClass, g, StrV(s, Some(Norm(I32, |s|))), w, NumV(Norm(I32, |s|)), w.out);
  }

  // ---------- the scripts as lists ----------

  function LitList(n: int): Sexpr {
    List([Sym("lit"), Number(n)])
  }

  function StrList(s: string): Sexpr {
    List([Sym("str"), Text(s)])
  }

  function CallList(recv: Sexpr, name: string): Sexpr {
    List([Sym("call"), recv, Sym(name)])
  }

  function Call1List(recv: Sexpr, name: string, arg: Sexpr): Sexpr {
    List([Sym("call"), recv, Sym(name), List([Sym("array"), arg])])
  }

  function GetList(x: string): Sexpr {
    List([Sym("lvar"), Sym(x)])
  }

  function SetList(x: string, rhs: Sexpr): Sexpr {
    List([Sym("lasgn"), Sym(x), rhs])
  }

  function PrintList(x: Sexpr): Sexpr {
    CallList(CallList(x, "to_s"), "puts")
  }

  lemma LeavesSay(n: int, s: string, x: string)
    ensures CInt(n) ==> Decode(LitList(n)) == Lit(n)
    ensures Decode(StrList(s)) == Str(s) && Decode(GetList(x)) == Get(Sym(x))
  {
    VariablesSay(Sym(x), Absent);
  }

  lemma {:induction false} CallListSays(recv: Sexpr, name: string, arg: Sexpr)
    ensures Decode(CallList(recv, name)) == Send(Decode(recv), Sym(name), [])
    ensures Decode(Call1List(recv, name, arg)) == Send(Decode(recv), Sym(name), [Decode(arg)])
  {
    CallIs(recv, Sym(name), [Sym("array"), arg]);
    assert DecodeFrom([Sym("array"), arg], 1, false) == [Decode(arg)] by {
      AllDecoded([Sym("array"), arg], 1);
    }
    hide Decode, DecodeFrom;
  }

  lemma {:induction false} SetListSays(x: string, rhs: Sexpr)
    ensures Decode(SetList(x, rhs)) == Assign(Sym(x), Decode(rhs))
  {
    VariablesSay(Sym(x), rhs);
    hide Decode;
  }

  lemma {:induction false} PrintListSays(x: Sexpr)
    ensures Decode(PrintList(x)) == PrintNumber(Decode(x))
  {
    CallListSays(x, "to_s", Absent);
    CallListSays(CallList(x, "to_s"), "puts", Absent);
    hide Decode, CallList;
  }

  lemma {:induction false} BlockSays(xs: seq<Sexpr>, es: seq<Expr>)
    requires |xs| == |es| && forall i :: 0 <= i < |xs| ==> xs[i].List? && Decode(xs[i]) == es[i]
    ensures Decode(List([Sym("block")] + xs)) == Group(es)
    decreases |xs|
  {
    hide Decode;
    if xs != [] {
      var n := |xs| - 1;
      BlockSays(xs[..n], es[..n]);
      GroupSays(Sym("block"), xs[..n], xs[n]);
      assert [Sym("block")] + xs == [Sym("block")] + xs[..n] + [xs[n]] && es == es[..n] + [es[n]];
    } else {
      GroupSays(Sym("block"), [], Absent);
      assert [Sym("block")] + xs == [Sym("block")];
    }
  }

  // ---------- the script at the end of the file ----------

  function SumLists(a: int, b: int, name: string): seq<Sexpr> {
    [SetList("x", LitList(a)), SetList("y", LitList(b)), SetList("x", Call1List(GetList("x"), name, GetList("y"))),
     PrintList(GetList("x"))]
  }

  function SumTrees(a: int, b: int, name: string): seq<Expr> {
    var x, y := Sym("x"), Sym("y");
    [Assign(x, Lit(a)), Assign(y, Lit(b)), Assign(x, Send(Get(x), Sym(name), [Get(y)])), PrintNumber(Get(x))]
  }

  /** x := a; y := b; x := x + y; x.to_s.puts, or the same with the difference. */
  function SumScript(a: int, b: int, name: string): Sexpr {
    List([Sym("block")] + SumLists(a, b, name))
  }

  lemma SumSays(a: int, b: int, name: string)
    requires CInt(a) && CInt(b)
    ensures Decode(SumScript(a, b, name)) == Group(SumTrees(a, b, name))
  {
    var sum := Call1List(GetList("x"), name, GetList("y"));
    LeavesSay(a, "", "x");
    LeavesSay(b, "", "y");
    CallListSays(GetList("x"), name, GetList("y"));
    SetListSays("x", LitList(a));
    SetListSays("y", LitList(b));
    SetListSays("x", sum);
    PrintListSays(GetList("x"));
    hide Decode;
    BlockSays(SumLists(a, b, name), SumTrees(a, b, name));
  }

  lemma ArithIs(name: string, a: int, b: int, out: seq<string>) returns (n: int)
    requires name == "+" || name == "-"
    ensures Apply(NumV(Norm(I32, a)), name, [NumV(Norm(I32, b))], out) == Some((NumV(n), out))
    ensures Signed(I32, n) == Signed(I32, if name == "+" then a + b else a - b)
  {
    n := if name == "+" then Norm(I32, Norm(I32, a) + Norm(I32, b)) else Norm(I32, Norm(I32, a) - Norm(I32, b));
    var p := NormSplit(I32, a);
    var q := NormSplit(I32, b);
    var x, y := Norm(I32, a), Norm(I32, b);
    assert a + b == (x + y) + (p + q) * Modulus(I32);
    assert a - b == (x - y) + (p - q) * Modulus(I32);
    NormShift(I32, x + y, p + q);
    NormShift(I32, x - y, p - q);
    NormNorm(I32, if name == "+" then x + y else x - y);
  }

  lemma StoreDoes(x: Sexpr, n: int, g: Scope, w: World)
    requires CInt(n) && (x in g ==> g[x] == NumClass)
    ensures Does(Assign(x, Lit(n)), g, w, Object(NumClass), g[x := NumClass], NumV(Norm(I32, n)),
                 w.(vars := w.vars[x := NumV(Norm(I32, n))]))
  {
    hide *;
    LitDoes(n, g, w);
    AssignDoes(x, Lit(n), g, w, NumClass, g, NumV(Norm(I32, n)), w);
  }

  /** x := x + y, or x := x - y */
  lemma CombineDoes(x: Sexpr, y: Sexpr, name: string, g: Scope, w: World, a: int, b: int) returns (n: int)
    requires name == "+" || name == "-"
    requires x in g && y in g && g[x] == NumClass && g[y] == NumClass && x in w.vars && y in w.vars
    requires w.vars[x] == NumV(Norm(I32, a)) && w.vars[y] == NumV(Norm(I32, b))
    ensures Signed(I32, n) == Signed(I32, if name == "+" then a + b else a - b)
    ensures Does(Assign(x, Send(Get(x), Sym(name), [Get(y)])), g, w, Object(NumClass), g, NumV(n),
                 w.(vars := w.vars[x := NumV(n)]))
  {
    hide *;
    n := ArithIs(name, a, b, w.out);
    GetDoes(x, g, w);
    GetDoes(y, g, w);
    Call1Does(Get(x), name, Get(y), g, w, g, w.vars[x], w, Object(NumClass), g, w.vars[y], w, NumV(n));
    AssignDoes(x, Send(Get(x), Sym(name), [Get(y)]), g, w, NumClass, g, NumV(n), w);
    assert g[x := NumClass] == g;
  }

  lemma FourDo(e1: Expr, e2: Expr, e3: Expr, e4: Expr, g0: Scope, w0: World, k1: Kind, g1: Scope, v1: Value,
               w1: World, k2: Kind, g2: Scope, v2: Value, w2: World, k3: Kind, g3: Scope, v3: Value, w3: World,
               k4: Kind, g4: Scope, v4: Value, w4: World)
    requires Does(e1, g0, w0, k1, g1, v1, w1) && Does(e2, g1, w1, k2, g2, v2, w2)
    requires Does(e3, g2, w2, k3, g3, v3, w3) && Does(e4, g3, w3, k4, g4, v4, w4)
    ensures DoAll([e1, e2, e3, e4], g0, w0, g4, w4)
  {
    hide *;
    assert [e4] + [] == [e4] && [e3] + [e4] == [e3, e4] && [e2] + [e3, e4] == [e2, e3, e4];
    assert [e1] + [e2, e3, e4] == [e1, e2, e3, e4];
    NoneDo(g4, w4);
    OneMoreDoes(e4, [], g3, w3, k4, g4, v4, w4, g4, w4);
    OneMoreDoes(e3, [e4], g2, w2, k3, g3, v3, w3, g4, w4);
    OneMoreDoes(e2, [e3, e4], g1, w1, k2, g2, v2, w2, g4, w4);
    OneMoreDoes(e1, [e2, e3, e4], g0, w0, k1, g1, v1, w1, g4, w4);
  }

  lemma SumTreesAre(a: int, b: int, name: string)
    ensures SumTrees(a, b, name) == [Assign(Sym("x"), Lit(a)), Assign(Sym("y"), Lit(b)),
                                     Assign(Sym("x"), Send(Get(Sym("x")), Sym(name), [Get(Sym("y"))])),
                                     PrintNumber(Get(Sym("x")))]
  {
  }

  lemma SumDoes(a: int, b: int, name: string) returns (t: string, g: Scope, w: World)
    requires CInt(a) && CInt(b) && (name == "+" || name == "-")
    ensures ReadDecimal(t) == Signed(I32, if name == "+" then a + b else a - b) && IsDecimal(t) && w.out == [t]
    ensures DoAll(SumTrees(a, b, name), map[], World(map[], []), g, w)
  {
    SumTreesAre(a, b, name);
    hide *;
    var x, y := Sym("x"), Sym("y");
    assert x != y;
    var w0, va, vb := World(map[], []), NumV(Norm(I32, a)), NumV(Norm(I32, b));
    var g1: Scope := map[][x := NumClass];
    var w1 := w0.(vars := w0.vars[x := va]);
    var w2 := w1.(vars := w1.vars[y := vb]);
    g := g1[y := NumClass];
    StoreDoes(x, a, map[], w0);
    StoreDoes(y, b, g1, w1);
    var n := CombineDoes(x, y, name, g, w2, a, b);
    var w3 := w2.(vars := w2.vars[x := NumV(n)]);
    GetDoes(x, g, w3);
    t := PrintNumberDoes(Get(x), g, w3, g, n, w3);
    w := w3.(out := w3.out + [t]);
    FourDo(Assign(x, Lit(a)), Assign(y, Lit(b)), Assign(x, Send(Get(x), Sym(name), [Get(y)])), PrintNumber(Get(x)),
           map[], w0, Object(NumClass), g1, va, w1, Object(NumClass), g, vb, w2, Object(NumClass), g, NumV(n), w3,
           NilKind, g, NilV, w);
  }

  /** The tree of the script, for any two numbers: it prints their sum, or their difference, in 32-bit arithmetic. */
  lemma SumPrints(main: seq<Block>, a: int, b: int, name: string) returns (t: string)
    requires CInt(a) && CInt(b) && (name == "+" || name == "-")
    requires Check(Decode(SumScript(a, b, name)), map[]).Some? ==> MeansTree(main, Decode(SumScript(a, b, name)))
    ensures Check(Decode(SumScript(a, b, name)), map[]).Some?
    ensures RunMain(main).Some? && RunMain(main).value.out == [t]
    ensures ReadDecimal(t) == Signed(I32, if name == "+" then a + b else a - b) && IsDecimal(t)
  {
    hide *;
    SumSays(a, b, name);
    var g, w;
    t, g, w := SumDoes(a, b, name);
    GroupDoes(SumTrees(a, b, name), map[], World(map[], []), g, w);
    MainPrints(main, Decode(SumScript(a, b, name)), NoKind, g, NoV, w);
  }

  // ---------- the smaller ones ----------

  lemma SignedOfNorm(n: int)
    ensures Signed(I32, Norm(I32, n)) == Signed(I32, n) && (CInt(n) ==> Signed(I32, n) == n)
  {
    NormNorm(I32, n);
  }

  lemma NumberPrints(main: seq<Block>, n: int) returns (t: string)
    requires CInt(n)
    requires Check(Decode(PrintList(LitList(n))), map[]).Some? ==> MeansTree(main, Decode(PrintList(LitList(n))))
    ensures Check(Decode(PrintList(LitList(n))), map[]).Some?
    ensures RunMain(main).Some? && RunMain(main).value.out == [t] && ReadDecimal(t) == n && IsDecimal(t)
  {
    hide *;
    SignedOfNorm(n);
    LeavesSay(n, "", "");
    PrintListSays(LitList(n));
    var w := World(map[], []);
    LitDoes(n, map[], w);
    t := PrintNumberDoes(Lit(n), map[], w, map[], Norm(I32, n), w);
    MainPrints(main, PrintNumber(Lit(n)), NilKind, map[], NilV, w.(out := w.out + [t]));
    assert [] + [t] == [t];
  }

  lemma TextPrints(main: seq<Block>, s: string)
    requires '\0' !in s && '%' !in s
    requires Check(Decode(CallList(StrList(s), "puts")), map[]).Some?
             ==> MeansTree(main, Decode(CallList(StrList(s), "puts")))
    ensures Check(Decode(CallList(StrList(s), "puts")), map[]).Some?
    ensures RunMain(main).Some? && RunMain(main).value.out == [s]
  {
    hide *;
    LeavesSay(0, s, "");
    CallListSays(StrList(s), "puts", Absent);
    var w := World(map[], []);
    PrintTextDoes(s, map[], w);
    MainPrints(main, Send(Str(s), Sym("puts"), []), NilKind, map[], NilV, w.(out := w.out + [s]));
    assert [] + [s] == [s];
  }

  function LengthList(s: string): Sexpr {
    PrintList(CallList(StrList(s), "length"))
  }

  lemma LengthPrints(main: seq<Block>, s: string) returns (t: string)
    requires '\0' !in s
    requires Check(Decode(LengthList(s)), map[]).Some? ==> MeansTree(main, Decode(LengthList(s)))
    ensures Check(Decode(LengthList(s)), map[]).Some?
    ensures RunMain(main).Some? && RunMain(main).value.out == [t] && ReadDecimal(t) == Signed(I32, |s|) && IsDecimal(t)
  {
    assert LengthList(s) == PrintList(CallList(StrList(s), "length"));
    hide *;
    SignedOfNorm(|s|);
    LeavesSay(0, s, "");
    CallListSays(StrList(s), "length", Absent);
    PrintListSays(CallList(StrList(s), "length"));
    var w, e := World(map[], []), Send(Str(s), Sym("length"), []);
    LengthDoes(s, map[], w);
    t := PrintNumberDoes(e, map[], w, map[], Norm(I32, |s|), w);
    MainPrints(main, PrintNumber(e), NilKind, map[], NilV, w.(out := w.out + [t]));
    assert [] + [t] == [t];
  }

  // ---------- order ----------

  /** (1 + s.puts) + t.puts: what puts yields passes for a number. */
  function OrderTree(s: string, t: string): Expr {
    Send(Send(Lit(1), Sym("+"), [Send(Str(s), Sym("puts"), [])]), Sym("+"), [Send(Str(t), Sym("puts"), [])])
  }

  lemma NilAdds(n: int, out: seq<string>)
    ensures Apply(NumV(Norm(I32, n)), "+", [NilV], out) == Some((NumV(Norm(I32, n)), out))
  {
    NormNorm(I32, n);
  }

  lemma OrderTreeIs(s: string, t: string)
    ensures OrderTree(s, t)
         == Send(Send(Lit(1), Sym("+"), [Send(Str(s), Sym("puts"), [])]), Sym("+"), [Send(Str(t), Sym("puts"), [])])
  {
  }

  /** The receiver of a call is evaluated before its arguments. */
  lemma ReceiverFirst(s: string, t: string, w: World)
    requires '\0' !in s && '%' !in s && '\0' !in t && '%' !in t
    ensures Does(OrderTree(s, t), map[], w, Object(NumClass), map[], NumV(1), w.(out := w.out + [s, t]))
  {
    assert Norm(I32, 1) == 1;
    NilAdds(1, w.out + [s]);
    NilAdds(1, w.out + [s] + [t]);
    OrderTreeIs(s, t);
    hide *;
    var w1 := w.(out := w.out + [s]);
    var w2 := w1.(out := w1.out + [t]);
    var p, q := Send(Str(s), Sym("puts"), []), Send(Str(t), Sym("puts"), []);
    LitDoes(1, map[], w);
    PrintTextDoes(s, map[], w);
    Call1Does(Lit(1), "+", p, map[], w, map[], NumV(1), w, NilKind, map[], NilV, w1, NumV(1));
    PrintTextDoes(t, map[], w1);
    Call1Does(Send(Lit(1), Sym("+"), [p]), "+", q, map[], w, map[], NumV(1), w1, NilKind, map[], NilV, w2, NumV(1));
    assert w.out + [s] + [t] == w.out + [s, t];
  }

  /** What puts yields has no table of methods: a call on it raises. */
  lemma {:induction false} NilHasNoMethods(s: string, selector: Sexpr, args: seq<Expr>, vars: Variables, k: nat)
    ensures Gen(Send(Send(Str(s), Sym("puts"), []), selector, args), vars, k).None?
    ensures Check(Send(Send(Str(s), Sym("puts"), []), selector, args), map[]).None?
  {
    var e := Send(Str(s), Sym("puts"), []);
    NoArgs(map[], World(map[], []));
    assert Check(Str(s), map[]) == Some((Object(StringClass), map[]));
    assert Gen(Str(s), vars, k) == Some(Emitted(Some(RObject(Tmp(k + 1), Some(StringClass))), vars,
                                                [GlobalString(s), Invoke(StrFromCstr, [Tmp(k)])]));
    assert GenArgs([], vars, k + 2) == Some(EmittedAll([], vars, []));
    var r := Gen(e, vars, k);
    assert r.Some? ==> r.value.obj.Some? && r.value.obj.value.methods.None?;
  }

  // ---------- compiled and run ----------

  /** The script of lib/rcompiler.rb, for any two numbers. */
  method CompileSum(a: int, b: int, name: string) returns (ok: bool, main: seq<Block>)
    requires CInt(a) && CInt(b) && (name == "+" || name == "-")
    ensures ok && MainFits(main, []) && RunMain(main).Some? && |RunMain(main).value.out| == 1
    ensures ReadDecimal(RunMain(main).value.out[0]) == Signed(I32, if name == "+" then a + b else a - b)
    ensures IsDecimal(RunMain(main).value.out[0])
  {
    hide *;
    ok, main := CompileScript(SumScript(a, b, name));
    var t := SumPrints(main, a, b, name);
  }

  /** A number, printed in decimal. */
  method CompileNumber(n: int) returns (ok: bool, main: seq<Block>)
    requires CInt(n)
    ensures ok && MainFits(main, []) && RunMain(main).Some? && |RunMain(main).value.out| == 1
    ensures ReadDecimal(RunMain(main).value.out[0]) == n && IsDecimal(RunMain(main).value.out[0])
  {
    hide *;
    ok, main := CompileScript(PrintList(LitList(n)));
    var t := NumberPrints(main, n);
  }

  /** A literal, printed as it stands. */
  method CompileText(s: string) returns (ok: bool, main: seq<Block>)
    requires '\0' !in s && '%' !in s
    ensures ok && MainFits(main, []) && RunMain(main).Some? && RunMain(main).value.out == [s]
  {
    hide *;
    ok, main := CompileScript(CallList(StrList(s), "puts"));
    TextPrints(main, s);
  }

  /** The length of a literal, printed in decimal. */
  method CompileLength(s: string) returns (ok: bool, main: seq<Block>)
    requires '\0' !in s
    ensures ok && MainFits(main, []) && RunMain(main).Some? && |RunMain(main).value.out| == 1
    ensures ReadDecimal(RunMain(main).value.out[0]) == Signed(I32, |s|) && IsDecimal(RunMain(main).value.out[0])
  {
    hide *;
    ok, main := CompileScript(LengthList(s));
    var t := LengthPrints(main, s);
  }

  /** Two texts, printed by the receiver of a call and by its argument, in that order. */
  method CompileOrder(s: string, t: string, tag: Sexpr) returns (ok: bool, main: seq<Block>)
    requires '\0' !in s && '%' !in s && '\0' !in t && '%' !in t
    ensures ok && MainFits(main, []) && RunMain(main).Some? && RunMain(main).value.out == [s, t]
  {
    hide *;
    OrderIsClean(s, t);
    DecodeSpell(OrderTree(s, t), tag, Absent, true);
    ok, main := CompileScript(Spell(OrderTree(s, t), tag, Absent, true));
    OrderPrints(main, s, t);
  }

  lemma OrderIsClean(s: string, t: string)
    ensures Clean(OrderTree(s, t)) && !IsKeyword(Absent)
  {
    assert AllClean([]);
    assert [Send(Str(s), Sym("puts"), [])][1..] == [] && [Send(Str(t), Sym("puts"), [])][1..] == [];
    assert Clean(Send(Str(s), Sym("puts"), [])) && Clean(Send(Str(t), Sym("puts"), []));
    assert AllClean([Send(Str(s), Sym("puts"), [])]) && AllClean([Send(Str(t), Sym("puts"), [])]);
  }

  lemma OrderPrints(main: seq<Block>, s: string, t: string)
    requires '\0' !in s && '%' !in s && '\0' !in t && '%' !in t
    requires Check(OrderTree(s, t), map[]).Some? ==> MeansTree(main, OrderTree(s, t))
    ensures Check(OrderTree(s, t), map[]).Some? && RunMain(main).Some? && RunMain(main).value.out == [s, t]
  {
    hide *;
    var w := World(map[], []);
    ReceiverFirst(s, t, w);
    MainPrints(main, OrderTree(s, t), Object(NumClass), map[], NumV(1), w.(out := w.out + [s, t]));
    assert [] + [s, t] == [s, t];
  }
}
