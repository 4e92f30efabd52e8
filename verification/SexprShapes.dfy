// Which trees have a value: a condition on the tree alone.

module SexprShapes {
  import opened Options
  import opened Words
  import opened TextIR
  import opened Texts
  import opened Sexprs

  // ---------- formats ----------

  lemma {:induction false} FormatShrinks(s: string)
    requires Format(s).Some?
    ensures |Format(s).value| <= |s| && ('%' in s ==> |Format(s).value| < |s|)
    decreases |s|
  {
    if s == [] {
    } else if s[0] != '%' {
      FormatShrinks(s[1..]);
      assert s == [s[0]] + s[1..];
    } else {
      FormatShrinks(s[2..]);
    }
  }

  lemma {:induction false} FormatPlain(s: string)
    requires '%' !in s
    ensures Format(s) == Some(s)
    decreases |s|
  {
    if s != [] {
      assert s[0] in s && s == [s[0]] + s[1..];
      FormatPlain(s[1..]);
    }
  }

  /** printf writes a text as it stands exactly when there is no percent sign in it. */
  lemma {:induction false} FormatSame(s: string)
    ensures Format(s) == Some(s) <==> '%' !in s
  {
    if '%' !in s {
      FormatPlain(s);
    } else if Format(s).Some? {
      FormatShrinks(s);
    }
  }

  lemma {:induction false} DigitsPlain(n: nat)
    ensures '%' !in Digits(n)
    decreases n
  {
    if n >= 10 {
      DigitsPlain(n / 10);
    }
  }

  lemma DecimalFormats(n: int)
    ensures Format(Decimal(n)) == Some(Decimal(n))
  {
    var m := Signed(I32, n);
    DigitsPlain(if m < 0 then -m else m);
    hide Digits, Signed;
    FormatPlain(Decimal(n));
  }

  // ---------- shapes and values ----------

  /** The shape says of the value what there is to say. */
  predicate Models(a: Shape, v: Value) {
    match a
    case NumA => v.NumV?
    case StrA(measured, formats) =>
      v.StrV? && (measured <==> v.length.Some?) && (formats <==> Format(v.text).Some?)
    case NilA => v.NilV?
    case NoA => v.NoV?
  }

  predicate ModelsAll(shapes: seq<Shape>, vs: seq<Value>) {
    |shapes| == |vs| && forall i :: 0 <= i < |vs| ==> Models(shapes[i], vs[i])
  }

  predicate ModelsVars(g: Shapes, vars: map<Sexpr, Value>) {
    g.Keys == vars.Keys && forall x :: x in g ==> Models(g[x], vars[x])
  }

  lemma ApplyExact(a: Shape, v: Value, name: string, shapes: seq<Shape>, vs: seq<Value>, out: seq<string>)
    requires Models(a, v) && ModelsAll(shapes, vs)
    ensures ApplyShape(a, name, shapes).Some? <==> Apply(v, name, vs, out).Some?
    ensures Apply(v, name, vs, out).Some? ==> Models(ApplyShape(a, name, shapes).value, Apply(v, name, vs, out).value.0)
  {
    if v.NumV? {
      DecimalFormats(v.n);
    }
    if |vs| == 1 {
      assert Models(shapes[0], vs[0]);
    }
    hide Decimal, Format, Norm;
  }

  /** A tree has a value exactly when its shapes go through. */
  lemma {:induction false} ShapelyExact(e: Expr, g: Shapes, w: World)
    requires ModelsVars(g, w.vars)
    ensures Shapely(e, g).Some? <==> Eval(e, w).Some?
    ensures Eval(e, w).Some? ==>
              Models(Shapely(e, g).value.0, Eval(e, w).value.0)
              && ModelsVars(Shapely(e, g).value.1, Eval(e, w).value.1.vars)
    decreases e, 0
  {
    hide Format, CString, Norm, Apply, ApplyShape;
    match e
    case Lit(_) =>
    case Str(_) =>
    case Get(x) => assert x in g.Keys <==> x in w.vars.Keys;
    case Assign(x, rhs) => ShapelyExact(rhs, g, w);
    case Send(recv, selector, args) =>
      ShapelyExact(recv, g, w);
      if Eval(recv, w).Some? {
        var (v, w1) := Eval(recv, w).value;
        var (a, g1) := Shapely(recv, g).value;
        ShapelyArgsExact(args, g1, w1);
        if EvalArgs(args, w1).Some? && selector.Sym? {
          ApplyExact(a, v, selector.name, ShapelyArgs(args, g1).value.0, EvalArgs(args, w1).value.0,
                     EvalArgs(args, w1).value.1.out);
        }
      }
    case Group(parts) => ShapelyArgsExact(parts, g, w);
    case Bad =>
  }

  lemma {:induction false} ShapelyArgsExact(args: seq<Expr>, g: Shapes, w: World)
    requires ModelsVars(g, w.vars)
    ensures ShapelyArgs(args, g).Some? <==> EvalArgs(args, w).Some?
    ensures EvalArgs(args, w).Some? ==>
              ModelsAll(ShapelyArgs(args, g).value.0, EvalArgs(args, w).value.0)
              && ModelsVars(ShapelyArgs(args, g).value.1, EvalArgs(args, w).value.1.vars)
    decreases args, |args|
  {
    if args != [] {
      ShapelyExact(args[0], g, w);
      if Eval(args[0], w).Some? {
        ShapelyArgsExact(args[1..], Shapely(args[0], g).value.1, Eval(args[0], w).value.1);
      }
    }
    hide Eval, Shapely, ModelsVars, Models;
  }

  // ---------- what can stop a tree that checks ----------

  function KindOfShape(a: Shape): Kind {
    match a
    case NumA => Object(NumClass)
    case StrA(_, _) => Object(StringClass)
    case NilA => NilKind
    case NoA => NoKind
  }

  predicate AreKindsOf(kinds: seq<Kind>, shapes: seq<Shape>) {
    |kinds| == |shapes| && forall i :: 0 <= i < |kinds| ==> kinds[i] == KindOfShape(shapes[i])
  }

  predicate ShapesFit(g: Shapes, sc: Scope) {
    g.Keys == sc.Keys && forall x :: x in g ==> KindOfShape(g[x]) == Object(sc[x])
  }

  /** String#+, a length that was not recorded, or a puts of a text that is no format without arguments. */
  predicate Stops(recv: Shape, name: string) {
    recv.StrA?
    && (name == "+" || (name == "length" && !recv.measured) || (name == "puts" && !recv.formats))
  }

  /** Of the calls that check, exactly those have no value. */
  lemma CheckedCall(cls: Class, name: string, a: Shape, shapes: seq<Shape>, kinds: seq<Kind>)
    requires KindOfShape(a) == Object(cls) && AreKindsOf(kinds, shapes)
    requires MethodArgs(cls, name).Some? && PassForAll(kinds, MethodArgs(cls, name).value)
    ensures ApplyShape(a, name, shapes).None? <==> Stops(a, name)
    ensures ApplyShape(a, name, shapes).Some? ==>
              KindOfShape(ApplyShape(a, name, shapes).value) == ResultKind(cls, name)
  {
    var want := MethodArgs(cls, name).value;
    if |want| == 1 {
      assert PassesFor(kinds[0]) == Some(want[0]) && kinds[0] == KindOfShape(shapes[0]);
    }
  }

  /** Does the tree, taken in order of evaluation, come to such a call? */
  predicate Meets(e: Expr, g: Shapes)
    decreases e, 0
  {
    match e
    case Assign(_, rhs) => Meets(rhs, g)
    case Send(recv, selector, args) =>
      Meets(recv, g)
      || (var r := Shapely(recv, g);
          r.Some?
          && (MeetsAny(args, r.value.1)
              || (selector.Sym? && ShapelyArgs(args, r.value.1).Some? && Stops(r.value.0, selector.name))))
    case Group(parts) => MeetsAny(parts, g)
    case _ => false
  }

  predicate MeetsAny(args: seq<Expr>, g: Shapes)
    decreases args, |args|
  {
    args != []
    && (Meets(args[0], g) || (var r := Shapely(args[0], g); r.Some? && MeetsAny(args[1..], r.value.1)))
  }

  lemma StoreFits(x: Sexpr, a: Shape, kind: Kind, g: Shapes, sc: Scope)
    requires ShapesFit(g, sc) && KindOfShape(a) == kind && CheckStore(x, kind, sc).Some?
    ensures !a.NoA? && CheckStore(x, kind, sc).value.0 == kind
    ensures ShapesFit(g[x := ShapeAsObject(a)], CheckStore(x, kind, sc).value.1)
  {
  }

  lemma SendCheckIs(cls: Class, selector: Sexpr, kinds: seq<Kind>, sc: Scope)
    requires CheckSend(cls, selector, kinds, sc).Some?
    ensures selector.Sym? && MethodArgs(cls, selector.name).Some?
    ensures PassForAll(kinds, MethodArgs(cls, selector.name).value)
    ensures CheckSend(cls, selector, kinds, sc) == Some((ResultKind(cls, selector.name), sc))
  {
    hide MethodArgs, ResultKind, PassForAll;
  }

  /** A tree that checks has a value unless it comes to one of those calls. */
  lemma {:induction false} CheckedTrees(e: Expr, sc: Scope, g: Shapes)
    requires Check(e, sc).Some? && ShapesFit(g, sc)
    ensures Shapely(e, g).None? <==> Meets(e, g)
    ensures Shapely(e, g).Some? ==>
              KindOfShape(Shapely(e, g).value.0) == Check(e, sc).value.0
              && ShapesFit(Shapely(e, g).value.1, Check(e, sc).value.1)
    decreases e, 0
  {
    hide Format, CString, ApplyShape, MethodArgs, ResultKind, PassForAll, CheckSend, CheckStore, Stops;
    match e
    case Lit(_) =>
    case Str(_) =>
    case Get(x) => assert x in g.Keys <==> x in sc.Keys;
    case Assign(x, rhs) =>
      CheckedTrees(rhs, sc, g);
      if Shapely(rhs, g).Some? {
        StoreFits(x, Shapely(rhs, g).value.0, Check(rhs, sc).value.0, Shapely(rhs, g).value.1, Check(rhs, sc).value.1);
      }
    case Send(recv, selector, args) =>
      CheckedTrees(recv, sc, g);
      var (kind, sc1) := Check(recv, sc).value;
      if Shapely(recv, g).Some? {
        var (a, g1) := Shapely(recv, g).value;
        CheckedArgs(args, sc1, g1);
        var (kinds, sc2) := CheckArgs(args, sc1).value;
        SendCheckIs(kind.cls, selector, kinds, sc2);
        if ShapelyArgs(args, g1).Some? {
          CheckedCall(kind.cls, selector.name, a, ShapelyArgs(args, g1).value.0, kinds);
        }
      }
    case Group(parts) => CheckedParts(parts, sc, g);
  }

  lemma {:induction false} CheckedArgs(args: seq<Expr>, sc: Scope, g: Shapes)
    requires CheckArgs(args, sc).Some? && ShapesFit(g, sc)
    ensures ShapelyArgs(args, g).None? <==> MeetsAny(args, g)
    ensures ShapelyArgs(args, g).Some? ==>
              AreKindsOf(CheckArgs(args, sc).value.0, ShapelyArgs(args, g).value.0)
              && ShapesFit(ShapelyArgs(args, g).value.1, CheckArgs(args, sc).value.1)
    decreases args, |args|
  {
    if args != [] {
      CheckedTrees(args[0], sc, g);
      if Shapely(args[0], g).Some? {
        CheckedArgs(args[1..], Check(args[0], sc).value.1, Shapely(args[0], g).value.1);
      }
    }
    hide Check, Shapely, Meets, ShapesFit, KindOfShape;
  }

  lemma {:induction false} CheckedParts(parts: seq<Expr>, sc: Scope, g: Shapes)
    requires CheckParts(parts, sc).Some? && ShapesFit(g, sc)
    ensures ShapelyArgs(parts, g).None? <==> MeetsAny(parts, g)
    ensures ShapelyArgs(parts, g).Some? ==> ShapesFit(ShapelyArgs(parts, g).value.1, CheckParts(parts, sc).value)
    decreases parts, |parts|
  {
    if parts != [] {
      CheckedTrees(parts[0], sc, g);
      if Shapely(parts[0], g).Some? {
        CheckedParts(parts[1..], Check(parts[0], sc).value.1, Shapely(parts[0], g).value.1);
      }
    }
    hide Check, Shapely, Meets, ShapesFit, KindOfShape;
  }

  /** In values: evaluation of a tree that checks stops exactly at one of those calls. */
  lemma {:induction false} CheckedStops(e: Expr, sc: Scope, g: Shapes, w: World)
    requires Check(e, sc).Some? && ShapesFit(g, sc) && ModelsVars(g, w.vars)
    ensures Eval(e, w).None? <==> Meets(e, g)
  {
    hide *;
    CheckedTrees(e, sc, g);
    ShapelyExact(e, g, w);
  }

  // ---------- trees that check and have no value ----------

  /** (n.to_s).length */
  function LengthOfNumber(n: int): Expr {
    Send(Send(Lit(n), Sym("to_s"), []), Sym("length"), [])
  }

  lemma {:induction false} LengthOfNumberFails(n: int, w: World)
    ensures Check(LengthOfNumber(n), map[]) == Some((Object(NumClass), map[])) && Eval(LengthOfNumber(n), w) == None
  {
    var toS := Send(Lit(n), Sym("to_s"), []);
    assert CheckArgs([], map[]) == Some(([], map[])) && EvalArgs([], w) == Some(([], w));
    assert Check(toS, map[]) == Some((Object(StringClass), map[]));
    assert Eval(toS, w) == Some((StrV(Decimal(Norm(I32, n)), None), w));
  }

  /** A literal is its characters up to the first NUL, and records how many they are. */
  lemma {:induction false} LiteralMeans(s: string, k: nat, w: World)
    requires k <= |s| && '\0' !in s[..k] && (k < |s| ==> s[k] == '\0')
    ensures Eval(Str(s), w) == Some((StrV(s[..k], Some(Norm(I32, k))), w))
  {
    CStringCut(s, k);
    hide CString, Norm;
  }

  /**
   * s.puts checks for every literal. It has a value exactly when what precedes the first NUL of s is a format without
   * arguments; it prints t exactly when that is t with every percent sign doubled, and, for an s without NUL, prints s
   * itself exactly when there is no percent sign in it.
   */
  lemma {:induction false} DirectiveFails(s: string, t: string, k: nat, w: World)
    requires k <= |s| && '\0' !in s[..k] && (k < |s| ==> s[k] == '\0')
    ensures var e := Send(Str(s), Sym("puts"), []);
      Check(e, map[]) == Some((NilKind, map[])) && (Eval(e, w).Some? <==> Format(s[..k]).Some?)
      && ((Eval(e, w).Some? && Eval(e, w).value.1.out == w.out + [t]) <==> s[..k] == Doubling(t))
      && ('\0' !in s ==> ((Eval(e, w).Some? && Eval(e, w).value.1.out == w.out + [s]) <==> '%' !in s))
  {
    hide *;
    LiteralPuts(s, k, w);
    FormatSame(s[..k]);
    FormatIff(s[..k], t);
    LastOut(w.out, s[..k], t);
    LastOut(w.out, s[..k], s);
    if '\0' !in s {
      assert s[..k] == s by {
        CStringCut(s, k);
        CStringWhole(s);
      }
    }
  }

  lemma {:induction false} LastOut(out: seq<string>, text: string, t: string)
    ensures Format(text).Some? ==> (out + [Format(text).value] == out + [t] <==> Format(text) == Some(t))
  {
    hide Format;
    if Format(text).Some? {
      assert (out + [Format(text).value])[|out|] == Format(text).value && (out + [t])[|out|] == t;
    }
  }

  lemma {:induction false} LiteralPuts(s: string, k: nat, w: World)
    requires k <= |s| && '\0' !in s[..k] && (k < |s| ==> s[k] == '\0')
    ensures var e, text := Send(Str(s), Sym("puts"), []), s[..k];
      Check(e, map[]) == Some((NilKind, map[]))
      && Eval(e, w) == if Format(text).Some? then Some((NilV, w.(out := w.out + [Format(text).value]))) else None
  {
    LiteralMeans(s, k, w);
    assert CheckArgs([], map[]) == Some(([], map[])) && EvalArgs([], w) == Some(([], w));
    hide Format, CString, Norm;
  }

  /** s + t */
  lemma {:induction false} ConcatenationFails(s: string, t: string, w: World)
    ensures var e := Send(Str(s), Sym("+"), [Str(t)]);
      Check(e, map[]) == Some((Object(StringClass), map[])) && Eval(e, w) == None
  {
    var e := Send(Str(s), Sym("+"), [Str(t)]);
    assert [Str(t)][1..] == [];
    assert CheckArgs([], map[]) == Some(([], map[]));
    assert CheckArgs([Str(t)], map[]) == Some(([Object(StringClass)] + [], map[]));
    hide Format, CString, Norm;
    assert Eval(Str(s), w).value.0.StrV?;
  }
}
