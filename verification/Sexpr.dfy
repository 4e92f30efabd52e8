// The input of the S-expression compiler, and the small language that it understands.

module Sexprs {
  import opened Options
  import opened Words
  import opened TextIR

  /** Nested lists of symbols, strings and numbers; Absent is what shift yields at the end of a list. */
  datatype Sexpr = Sym(name: string) | Text(s: string) | Number(n: int) | List(items: seq<Sexpr>) | Absent

  datatype Expr =
    | Lit(n: int)
    | Str(s: string)
    | Get(name: Sexpr)
    | Assign(name: Sexpr, rhs: Expr)
    | Send(recv: Expr, selector: Sexpr, args: seq<Expr>)
    | Group(parts: seq<Expr>)     // any other list: its parts, one after the other, for their effect
    | Bad                         // raises

  /** Element k of a list, as repeated shifts reach it. */
  function Item(items: seq<Sexpr>, k: nat): Sexpr {
    if k < |items| then items[k] else Absent
  }

  /** What an S-expression says. */
  function Decode(e: Sexpr): Expr
    decreases e, 1
  {
    match e
    case List(items) => DecodeList(items)
    case _ => Bad
  }

  function DecodeItem(items: seq<Sexpr>, k: nat): Expr
    decreases items, 0
  {
    if k < |items| then Decode(items[k]) else Bad
  }

  function DecodeList(items: seq<Sexpr>): Expr
    decreases items, 1
  {
    var head := Item(items, 0);
    if head == Sym("call") then
      // what stands in the place of a list of arguments and is none raises after the receiver
      if Item(items, 3).List? && 3 < |items| then
        Send(DecodeItem(items, 1), Item(items, 2), DecodeFrom(items[3].items, 1, false))
      else Send(DecodeItem(items, 1), Item(items, 2), if Item(items, 3) == Absent then [] else [Bad])
    else if head == Sym("str") then
      if Item(items, 1).Text? then Str(Item(items, 1).s) else Bad
    else if head == Sym("lit") then
      if Item(items, 1).Number? && CInt(Item(items, 1).n) then Lit(Item(items, 1).n) else Bad
    else if head == Sym("lasgn") then Assign(Item(items, 1), DecodeItem(items, 2))
    else if head == Sym("lvar") then Get(Item(items, 1))
    else Group(DecodeFrom(items, 1, true))
  }

  /** The items from position k on; when asked to, only the lists among them. */
  function DecodeFrom(items: seq<Sexpr>, k: nat, listsOnly: bool): seq<Expr>
    decreases items, 0, |items| - k
  {
    if k >= |items| then []
    else if listsOnly && !items[k].List? then DecodeFrom(items, k + 1, listsOnly)
    else [Decode(items[k])] + DecodeFrom(items, k + 1, listsOnly)
  }

  // ---------- kinds ----------

  /** What an expression yields: an object of a class, nil, or nothing to work with. */
  datatype Kind = Object(cls: Class) | NilKind | NoKind

  /** The kind of result that the table of a class declares for a method. */
  function ResultKind(cls: Class, name: string): Kind {
    match cls
    case NumClass => if name == "to_s" then Object(StringClass) else Object(NumClass)
    case StringClass =>
      if name == "length" then Object(NumClass) else if name == "puts" then NilKind else Object(StringClass)
  }

  /** The classes that a method takes. */
  function MethodArgs(cls: Class, name: string): Option<seq<Class>> {
    match cls
    case NumClass =>
      if name == "+" || name == "-" then Some([NumClass]) else if name == "to_s" then Some([]) else None
    case StringClass =>
      if name == "length" || name == "puts" then Some([]) else if name == "+" then Some([StringClass]) else None
  }

  /** The class whose objects a value can pass for: nil is the number 0. */
  function PassesFor(k: Kind): Option<Class> {
    match k
    case Object(cls) => Some(cls)
    case NilKind => Some(NumClass)
    case NoKind => None
  }

  predicate PassForAll(kinds: seq<Kind>, want: seq<Class>) {
    |kinds| == |want| && forall i :: 0 <= i < |kinds| ==> PassesFor(kinds[i]) == Some(want[i])
  }

  type Scope = map<Sexpr, Class>

  /** Variables are assigned before they are used, and keep one class. Gives the kind, and the variables afterwards. */
  function Check(e: Expr, g: Scope): Option<(Kind, Scope)>
    decreases e, 0
  {
    match e
    case Lit(_) => Some((Object(NumClass), g))
    case Str(_) => Some((Object(StringClass), g))
    case Get(x) => if x in g then Some((Object(g[x]), g)) else None
    case Assign(x, rhs) =>
      var r := Check(rhs, g);
      if r.None? then None else CheckStore(x, r.value.0, r.value.1)
    case Send(recv, selector, args) =>
      var r := Check(recv, g);
      if r.None? || !r.value.0.Object? then None
      else
        var rest := CheckArgs(args, r.value.1);
        if rest.None? then None else CheckSend(r.value.0.cls, selector, rest.value.0, rest.value.1)
    case Group(parts) =>
      var r := CheckParts(parts, g);
      if r.None? then None else Some((NoKind, r.value))
    case Bad => None
  }

  /** A variable takes what passes for its class; nil cannot make a new one. */
  function CheckStore(x: Sexpr, kind: Kind, g: Scope): Option<(Kind, Scope)> {
    if x in g then (if PassesFor(kind) == Some(g[x]) then Some((kind, g)) else None)
    else if kind.Object? then Some((kind, g[x := kind.cls]))
    else None
  }

  function CheckSend(cls: Class, selector: Sexpr, kinds: seq<Kind>, g: Scope): Option<(Kind, Scope)> {
    if !selector.Sym? then None
    else
      var want := MethodArgs(cls, selector.name);
      if want.None? || !PassForAll(kinds, want.value) then None else Some((ResultKind(cls, selector.name), g))
  }

  /** Every argument yields something; the kinds, in order. */
  function CheckArgs(args: seq<Expr>, g: Scope): Option<(seq<Kind>, Scope)>
    decreases args, |args|
  {
    if args == [] then Some(([], g))
    else
      var r := Check(args[0], g);
      if r.None? || r.value.0.NoKind? then None
      else
        var rest := CheckArgs(args[1..], r.value.1);
        if rest.None? then None else Some(([r.value.0] + rest.value.0, rest.value.1))
  }

  function CheckParts(parts: seq<Expr>, g: Scope): Option<Scope>
    decreases parts, |parts|
  {
    if parts == [] then Some(g)
    else
      var r := Check(parts[0], g);
      if r.None? then None else CheckParts(parts[1..], r.value.1)
  }

  // ---------- direct evaluation ----------

  /** Numbers are residues modulo 2^32; a string that to_s made has no recorded length. */
  datatype Value = NumV(n: int) | StrV(text: string, length: Option<int>) | NilV | NoV

  datatype World = World(vars: map<Sexpr, Value>, out: seq<string>)

  function KindOf(v: Value): Kind {
    match v
    case NumV(_) => Object(NumClass)
    case StrV(_, _) => Object(StringClass)
    case NilV => NilKind
    case NoV => NoKind
  }

  /** Where an object is needed, nil is the number 0. */
  function AsObject(v: Value): Value {
    if v.NilV? then NumV(0) else v
  }

  /**
   * A method on values. None for the length of a to_s result, which was never recorded, for a text that printf takes
   * for a format with arguments, and for String#+, which has no body.
   */
  function Apply(recv: Value, name: string, args: seq<Value>, out: seq<string>): Option<(Value, seq<string>)> {
    match recv
    case NumV(a) =>
      if name == "+" && |args| == 1 && AsObject(args[0]).NumV? then
        Some((NumV(Norm(I32, a + AsObject(args[0]).n)), out))
      else if name == "-" && |args| == 1 && AsObject(args[0]).NumV? then
        Some((NumV(Norm(I32, a - AsObject(args[0]).n)), out))
      else if name == "to_s" && args == [] then Some((StrV(Decimal(a), None), out))
      else None
    case StrV(text, length) =>
      if name == "length" && args == [] && length.Some? then Some((NumV(length.value), out))
      else if name == "puts" && args == [] && Format(text).Some? then Some((NilV, out + [Format(text).value]))
      else None
    case _ => None
  }

  function Eval(e: Expr, w: World): Option<(Value, World)>
    decreases e, 0
  {
    match e
    case Lit(n) => Some((NumV(Norm(I32, n)), w))
    case Str(s) => Some((StrV(CString(s), Some(Norm(I32, |CString(s)|))), w))
    case Get(x) => if x in w.vars then Some((w.vars[x], w)) else None
    case Assign(x, rhs) =>
      var r := Eval(rhs, w);
      if r.None? || r.value.0.NoV? then None
      else Some((r.value.0, r.value.1.(vars := r.value.1.vars[x := AsObject(r.value.0)])))
    case Send(recv, selector, args) =>
      var r := Eval(recv, w);
      if r.None? then None
      else
        var rest := EvalArgs(args, r.value.1);
        if rest.None? || !selector.Sym? then None
        else
          var v := Apply(r.value.0, selector.name, rest.value.0, rest.value.1.out);
          if v.None? then None else Some((v.value.0, rest.value.1.(out := v.value.1)))
    case Group(parts) =>
      var r := EvalArgs(parts, w);
      if r.None? then None else Some((NoV, r.value.1))
    case Bad => None
  }

  /** Evaluates a list from left to right. */
  function EvalArgs(args: seq<Expr>, w: World): Option<(seq<Value>, World)>
    decreases args, |args|
  {
    if args == [] then Some(([], w))
    else
      var r := Eval(args[0], w);
      if r.None? then None
      else
        var rest := EvalArgs(args[1..], r.value.1);
        if rest.None? then None else Some(([r.value.0] + rest.value.0, rest.value.1))
  }

  // ---------- which trees have a value ----------

  /**
   * What can be known of a value without evaluating: for a string, whether its length was recorded and whether printf
   * can take it for a format without arguments.
   */
  datatype Shape = NumA | StrA(measured: bool, formats: bool) | NilA | NoA

  type Shapes = map<Sexpr, Shape>

  function ShapeAsObject(a: Shape): Shape {
    if a.NilA? then NumA else a
  }

  function ApplyShape(recv: Shape, name: string, args: seq<Shape>): Option<Shape> {
    match recv
    case NumA =>
      if (name == "+" || name == "-") && |args| == 1 && ShapeAsObject(args[0]).NumA? then Some(NumA)
      else if name == "to_s" && args == [] then Some(StrA(false, true))
      else None
    case StrA(measured, formats) =>
      if name == "length" && args == [] && measured then Some(NumA)
      else if name == "puts" && args == [] && formats then Some(NilA)
      else None
    case _ => None
  }

  /** Goes through the tree once, without values. None when evaluation would not get through. */
  function Shapely(e: Expr, g: Shapes): Option<(Shape, Shapes)>
    decreases e, 0
  {
    match e
    case Lit(_) => Some((NumA, g))
    case Str(s) => Some((StrA(true, Format(CString(s)).Some?), g))
    case Get(x) => if x in g then Some((g[x], g)) else None
    case Assign(x, rhs) =>
      var r := Shapely(rhs, g);
      if r.None? || r.value.0.NoA? then None else Some((r.value.0, r.value.1[x := ShapeAsObject(r.value.0)]))
    case Send(recv, selector, args) =>
      var r := Shapely(recv, g);
      if r.None? then None
      else
        var rest := ShapelyArgs(args, r.value.1);
        if rest.None? || !selector.Sym? then None
        else
          var a := ApplyShape(r.value.0, selector.name, rest.value.0);
          if a.None? then None else Some((a.value, rest.value.1))
    case Group(parts) =>
      var r := ShapelyArgs(parts, g);
      if r.None? then None else Some((NoA, r.value.1))
    case Bad => None
  }

  function ShapelyArgs(args: seq<Expr>, g: Shapes): Option<(seq<Shape>, Shapes)>
    decreases args, |args|
  {
    if args == [] then Some(([], g))
    else
      var r := Shapely(args[0], g);
      if r.None? then None
      else
        var rest := ShapelyArgs(args[1..], r.value.1);
        if rest.None? then None else Some(([r.value.0] + rest.value.0, rest.value.1))
  }
}
