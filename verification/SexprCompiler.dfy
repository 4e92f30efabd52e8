// The S-expression compiler as it works: it shifts items off lists, emits as it goes, and keeps a table of variables.

module SexprCompiler {
  import opened Options
  import opened Words
  import opened TextIR
  import opened Sexprs
  import opened SexprCodegen
  import opened SexprMethods
  import opened SexprSession

  /** Where the instructions of a block go; base is the number of those in the blocks before it. */
  class CodeBuilder {
    const base: nat
    var ops: seq<Op>

    constructor (base: nat)
      ensures this.base == base && ops == []
    {
      this.base := base;
      ops := [];
    }

    method Emit(op: Op) returns (v: Operand)
      modifies this
      ensures ops == old(ops) + [op] && v == Tmp(base + |old(ops)|)
    {
      v := Tmp(base + |ops|);
      ops := ops + [op];
    }
  }

  /** The functions of a class by selector, the kinds of their results, and the type of its objects. */
  class MethodTable {
    var types: map<string, Kind>
    var funcs: map<string, Signature>
    const objType: Ty

    /** Declares a function for every entry of t: the type of the result, then those of the arguments. */
    constructor (objType: Ty, t: seq<(string, seq<Ty>)>)
      requires forall i :: 0 <= i < |t| ==> t[i].1 != []
      requires forall i, j :: 0 <= i < j < |t| ==> t[i].0 != t[j].0
      ensures this.objType == objType && types == map[]
      ensures forall i :: 0 <= i < |t| ==>
                t[i].0 in funcs && funcs[t[i].0] == Signature(t[i].1[0], [objType] + t[i].1[1..], false)
      ensures forall n :: n in funcs ==> exists i :: 0 <= i < |t| && t[i].0 == n
    {
      this.objType := objType;
      types, funcs := map[], map[];
      new;
      var k := 0;
      while k < |t|
        invariant 0 <= k <= |t| && types == map[]
        invariant forall i :: 0 <= i < k ==>
                    t[i].0 in funcs && funcs[t[i].0] == Signature(t[i].1[0], [objType] + t[i].1[1..], false)
        invariant forall n :: n in funcs ==> exists i :: 0 <= i < k && t[i].0 == n
      {
        var (name, v) := t[k];
        var retType, argTypes := v[0], v[1..];
        funcs := funcs[name := Signature(retType, [objType] + argTypes, false)];
        k := k + 1;
      }
    }

    method SetTypes(types: map<string, Kind>)
      modifies this`types
      ensures this.types == types
    {
      this.types := types;
    }

    /** The table says of a class what its declarations say. */
    ghost predicate Describes(cls: Class)
      reads this
    {
      objType == ObjType(cls)
      && (forall n :: n in funcs <==> SignatureOf(Method(cls, n)).Some?)
      && (forall n :: n in funcs ==> Some(funcs[n]) == SignatureOf(Method(cls, n)))
      && (forall n :: n in funcs ==> n in types && types[n] == ResultKind(cls, n))
    }
  }

  /** What parsing comes to: an exception, or an object, or something that is not one. */
  datatype Outcome = Raised | Parsed(obj: Option<RObject>)

  // ---------- the functions of the two tables ----------

  method NumPlus() returns (body: Body)
    ensures Some(body) == BodyOf(Method(NumClass, "+"))
  {
    var b := new CodeBuilder(0);
    var v := b.Emit(Add(Param(0), Param(1)));
    assert b.ops == [Add(Param(0), Param(1))];
    body := Body(b.ops, v);
  }

  method NumMinus() returns (body: Body)
    ensures Some(body) == BodyOf(Method(NumClass, "-"))
  {
    var b := new CodeBuilder(0);
    var v := b.Emit(Sub(Param(0), Param(1)));
    assert b.ops == [Sub(Param(0), Param(1))];
    body := Body(b.ops, v);
  }

  method NumToS() returns (body: Body)
    ensures Some(body) == BodyOf(Method(NumClass, "to_s"))
  {
    var b := new CodeBuilder(0);
    var strBuf := b.Emit(MallocChars(33));
    var formatStr := b.Emit(GlobalString("%d"));
    var _ := b.Emit(Invoke(Sprintf, [strBuf, formatStr, Param(0)]));
    var strObj := b.Emit(MallocString);
    var strPtr := b.Emit(Field(strObj, 1));
    var _ := b.Emit(Store(strBuf, strPtr));
    assert b.ops == [MallocChars(33), GlobalString("%d"), Invoke(Sprintf, [Tmp(0), Tmp(1), Param(0)]),
                     MallocString, Field(Tmp(3), 1), Store(Tmp(0), Tmp(4))];
    body := Body(b.ops, strObj);
  }

  method StrLength() returns (body: Body)
    ensures Some(body) == BodyOf(Method(StringClass, "length"))
  {
    var b := new CodeBuilder(0);
    var lenPtr := b.Emit(Field(Param(0), 0));
    var len := b.Emit(Load(lenPtr));
    assert b.ops == [Field(Param(0), 0), Load(Tmp(0))];
    body := Body(b.ops, len);
  }

  method StrPuts() returns (body: Body)
    ensures Some(body) == BodyOf(Method(StringClass, "puts"))
  {
    var b := new CodeBuilder(0);
    var strPtr := b.Emit(Field(Param(0), 1));
    var str := b.Emit(Load(strPtr));
    var _ := b.Emit(Invoke(Printf, [str]));
    assert b.ops == [Field(Param(0), 1), Load(Tmp(0)), Invoke(Printf, [Tmp(1)])];
    body := Body(b.ops, ConstInt(0));
  }

  method CStrToString() returns (body: Body)
    ensures Some(body) == BodyOf(StrFromCstr)
  {
    var b := new CodeBuilder(0);
    var len := b.Emit(Invoke(Strlen, [Param(0)]));
    var strObj := b.Emit(MallocString);
    var strLen := b.Emit(Field(strObj, 0));
    var _ := b.Emit(Store(len, strLen));
    var strPtr := b.Emit(Field(strObj, 1));
    var _ := b.Emit(Store(Param(0), strPtr));
    assert b.ops == [Invoke(Strlen, [Param(0)]), MallocString, Field(Tmp(1), 0), Store(Tmp(0), Tmp(2)),
                     Field(Tmp(1), 1), Store(Param(0), Tmp(4))];
    body := Body(b.ops, strObj);
  }

  lemma NumSignatures(n: string)
    ensures SignatureOf(Method(NumClass, n))
         == if n == "+" || n == "-" then Some(Signature(INT, [INT, INT], false))
            else if n == "to_s" then Some(Signature(STRING_PTR, [INT], false)) else None
    ensures [INT] + [INT, INT][1..] == [INT, INT] && [INT] + [STRING_PTR][1..] == [INT]
  {
    assert [INT, INT][1..] == [INT] && [STRING_PTR][1..] == [];
    assert [INT] + [INT] == [INT, INT] && [INT] + [] == [INT];
  }

  lemma StrSignatures(n: string)
    ensures SignatureOf(Method(StringClass, n))
         == if n == "length" || n == "puts" then Some(Signature(INT, [STRING_PTR], false))
            else if n == "+" then Some(Signature(STRING_PTR, [STRING_PTR, STRING_PTR], false)) else None
    ensures [STRING_PTR] + [INT][1..] == [STRING_PTR]
    ensures [STRING_PTR] + [STRING_PTR, STRING_PTR][1..] == [STRING_PTR, STRING_PTR]
  {
    assert [INT][1..] == [] && [STRING_PTR, STRING_PTR][1..] == [STRING_PTR];
    assert [STRING_PTR] + [STRING_PTR] == [STRING_PTR, STRING_PTR] && [STRING_PTR] + [] == [STRING_PTR];
  }

  lemma NumDescribed(table: MethodTable)
    requires table.objType == INT
    requires forall n :: n in table.funcs <==> n == "+" || n == "-" || n == "to_s"
    requires table.funcs["+"] == table.funcs["-"] == Signature(INT, [INT, INT], false)
    requires table.funcs["to_s"] == Signature(STRING_PTR, [INT], false)
    requires table.types == map["+" := Object(NumClass), "-" := Object(NumClass), "to_s" := Object(StringClass)]
    ensures table.Describes(NumClass)
  {
    hide SignatureOf;
    forall n: string {
      NumSignatures(n);
    }
  }

  method CreateNumMethods() returns (table: MethodTable)
    ensures fresh(table) && table.Describes(NumClass) && table.objType == INT
    ensures table.funcs.Keys == {"+", "-", "to_s"}
    ensures table.funcs["+"] == table.funcs["-"] == Signature(INT, [INT, INT], false)
    ensures table.funcs["to_s"] == Signature(STRING_PTR, [INT], false)
    ensures table.types == map["+" := Object(NumClass), "-" := Object(NumClass), "to_s" := Object(StringClass)]
  {
    hide SignatureOf, MethodTable.Describes;
    var t := [("+", [INT, INT]), ("-", [INT, INT]), ("to_s", [STRING_PTR])];
    assert t[0].0 == "+" && t[1].0 == "-" && t[2].0 == "to_s";
    table := new MethodTable(INT, t);
    table.SetTypes(map["+" := Object(NumClass), "-" := Object(NumClass), "to_s" := Object(StringClass)]);
    NumSignatures("");
    NumDescribed(table);
  }

  lemma StrDescribed(table: MethodTable)
    requires table.objType == STRING_PTR
    requires forall n :: n in table.funcs <==> n == "length" || n == "puts" || n == "+"
    requires table.funcs["length"] == table.funcs["puts"] == Signature(INT, [STRING_PTR], false)
    requires table.funcs["+"] == Signature(STRING_PTR, [STRING_PTR, STRING_PTR], false)
    requires table.types == map["length" := Object(NumClass), "puts" := NilKind, "+" := Object(StringClass)]
    ensures table.Describes(StringClass)
  {
    hide SignatureOf;
    forall n: string {
      StrSignatures(n);
    }
  }

  method CreateStrMethods() returns (table: MethodTable)
    ensures fresh(table) && table.Describes(StringClass) && table.objType == STRING_PTR
    ensures table.funcs.Keys == {"length", "puts", "+"}
    ensures table.funcs["length"] == table.funcs["puts"] == Signature(INT, [STRING_PTR], false)
    ensures table.funcs["+"] == Signature(STRING_PTR, [STRING_PTR, STRING_PTR], false)
    ensures table.types == map["length" := Object(NumClass), "puts" := NilKind, "+" := Object(StringClass)]
  {
    hide SignatureOf, MethodTable.Describes;
    var t := [("length", [INT]), ("puts", [INT]), ("+", [STRING_PTR, STRING_PTR])];
    assert t[0].0 == "length" && t[1].0 == "puts" && t[2].0 == "+";
    table := new MethodTable(STRING_PTR, t);
    table.SetTypes(map["length" := Object(NumClass), "puts" := NilKind, "+" := Object(StringClass)]);
    StrSignatures("");
    StrDescribed(table);
  }

  lemma Declarations()
    ensures SignatureOf(Printf) == Some(Signature(INT, [CHAR_PTR], true))
    ensures SignatureOf(Sprintf) == Some(Signature(CHAR_PTR, [CHAR_PTR, CHAR_PTR], true))
    ensures SignatureOf(Strlen) == Some(Signature(INT, [CHAR_PTR], false))
    ensures SignatureOf(StrFromCstr) == Some(Signature(STRING_PTR, [CHAR_PTR], false))
  {
  }

  lemma OnlyThese()
    ensures forall f :: BodyOf(f).Some? <==>
              f in {Method(NumClass, "+"), Method(NumClass, "-"), Method(NumClass, "to_s"),
                    Method(StringClass, "length"), Method(StringClass, "puts"), StrFromCstr}
  {
  }

  class Compiler {
    const numMethods: MethodTable
    const strMethods: MethodTable
    const declared: map<Function, Signature>
    const bodies: map<Function, Body>
    var variables: Variables
    var main: seq<Block>

    ghost predicate Valid()
      reads numMethods, strMethods
    {
      numMethods.Describes(NumClass) && strMethods.Describes(StringClass)
    }

    /** Builds the method tables, their functions, and String_str_from_cstr. */
    constructor ()
      ensures Valid() && variables == map[] && main == []
      ensures declared == map[Printf := Signature(INT, [CHAR_PTR], true),
                              Sprintf := Signature(CHAR_PTR, [CHAR_PTR, CHAR_PTR], true),
                              Strlen := Signature(INT, [CHAR_PTR], false),
                              StrFromCstr := Signature(STRING_PTR, [CHAR_PTR], false)]
      ensures forall f :: f in declared ==> SignatureOf(f) == Some(declared[f])
      ensures forall f :: f in bodies <==> BodyOf(f).Some?
      ensures forall f :: f in bodies ==> Some(bodies[f]) == BodyOf(f)
    {
      hide SignatureOf, MethodTable.Describes;
      declared := map[Printf := Signature(INT, [CHAR_PTR], true),
                      Sprintf := Signature(CHAR_PTR, [CHAR_PTR, CHAR_PTR], true),
                      Strlen := Signature(INT, [CHAR_PTR], false),
                      StrFromCstr := Signature(STRING_PTR, [CHAR_PTR], false)];
      var nums := CreateNumMethods();
      var strs := CreateStrMethods();
      numMethods, strMethods := nums, strs;
      var plus := NumPlus();
      var minus := NumMinus();
      var toS := NumToS();
      var length := StrLength();
      var puts := StrPuts();
      var fromCstr := CStrToString();
      bodies := map[Method(NumClass, "+") := plus, Method(NumClass, "-") := minus, Method(NumClass, "to_s") := toS,
                    Method(StringClass, "length") := length, Method(StringClass, "puts") := puts,
                    StrFromCstr := fromCstr];
      variables, main := map[], [];
      new;
      OnlyThese();
      Declarations();
    }

    /** The table that an object refers to. */
    method Funcs(cls: Class, selector: Sexpr) returns (found: bool, f: Function, kind: Kind)
      requires Valid()
      ensures found <==> selector.Sym? && MethodTypes(cls, selector.name).Some?
      ensures found ==> f == Method(cls, selector.name) && kind == ResultKind(cls, selector.name)
    {
      var table := if cls.NumClass? then numMethods else strMethods;
      f, kind := Strlen, NoKind;
      found := selector.Sym? && selector.name in table.funcs;
      if selector.Sym? {
        SignatureIff(cls, selector.name);
      }
      if found {
        f, kind := Method(cls, selector.name), table.types[selector.name];
      }
    }

    /**
     * Another block of main, which is declared at the first call and found at every later one. Neither it nor the table
     * of variables is cleared between calls, nor is anything undone after an exception: the block stays as it is then,
     * without a return.
     */
    method Compile(sexpr: Sexpr) returns (ok: bool)
      requires Valid()
      modifies this`variables, this`main
      ensures Valid() && ok == Gen(Decode(sexpr), old(variables), |AllOps(old(main))|).Some?
      ensures var p := Parsing(Decode(sexpr), old(variables), |AllOps(old(main))|);
        ok == !p.raised && variables == p.vars
        && main == old(main) + [Block(p.ops, if ok then Some(ConstInt(0)) else None)]
    {
      hide Gen, Left, Decode, Compiler.Valid;
      ghost var p := Parsing(Decode(sexpr), variables, |AllOps(main)|);
      var k := CountOps(main);
      var b := new CodeBuilder(k);
      var r := ParseSexpr(sexpr, b);
      ok := r.Parsed?;
      assert [] + p.ops == p.ops;
      main := main + [Block(b.ops, if ok then Some(ConstInt(0)) else None)];
    }

    /** The compiler and its builder have moved from the given instructions as p says. */
    ghost predicate Did(b: CodeBuilder, ops: seq<Op>, p: Parse, r: Outcome)
      reads this, b
    {
      (r.Raised? <==> p.raised) && (!p.raised ==> r == Parsed(p.obj)) && variables == p.vars && b.ops == ops + p.ops
    }

    method ParseSexpr(sexpr: Sexpr, b: CodeBuilder) returns (r: Outcome)
      requires Valid()
      modifies this`variables, b
      ensures Valid() && Did(b, old(b.ops), Parsing(Decode(sexpr), old(variables), b.base + |old(b.ops)|), r)
      decreases sexpr, 1
    {
      hide Parsing;
      if sexpr.List? {
        r := ParseList(sexpr.items, b);
      } else {
        r := Raised;
        BadGives(variables, b.base + |b.ops|);
      }
    }

    /** The item at position k, which another shift would take off the list. */
    method ParseItem(items: seq<Sexpr>, k: nat, b: CodeBuilder) returns (r: Outcome)
      requires Valid()
      modifies this`variables, b
      ensures Valid() && Did(b, old(b.ops), Parsing(DecodeItem(items, k), old(variables), b.base + |old(b.ops)|), r)
      decreases items, 0
    {
      hide Parsing;
      if k < |items| {
        r := ParseSexpr(items[k], b);
      } else {
        r := Raised;
        BadGives(variables, b.base + |b.ops|);
      }
    }

    method ParseList(items: seq<Sexpr>, b: CodeBuilder) returns (r: Outcome)
      requires Valid()
      modifies this`variables, b
      ensures Valid() && Did(b, old(b.ops), Parsing(DecodeList(items), old(variables), b.base + |old(b.ops)|), r)
      decreases items, 3
    {
      hide Parsing, Decode, DecodeItem, DecodeFrom, CInt, Compiler.Valid;
      BadGives(variables, b.base + |b.ops|);
      var kind := Item(items, 0);
      r := Raised;
      if kind == Sym("call") {
        r := ParseCall(items, b);
      } else if kind == Sym("str") {
        var str := Item(items, 1);
        if str.Text? {
          StrGives(str.s, variables, b.base + |b.ops|);
          var gstrPtr := b.Emit(GlobalString(str.s));
          var strVal := b.Emit(Invoke(StrFromCstr, [gstrPtr]));
          r := Parsed(Some(RObject(strVal, Some(StringClass))));
        }
      } else if kind == Sym("lit") {
        var lit := Item(items, 1);
        if lit.Number? && CInt(lit.n) {
          LitGives(lit.n, variables, b.base + |b.ops|);
          r := Parsed(Some(RObject(ConstInt(lit.n), Some(NumClass))));
        }
      } else if kind == Sym("lasgn") {
        r := ParseAssign(items, b);
      } else if kind == Sym("lvar") {
        var name := Item(items, 1);
        GetGives(name, variables, b.base + |b.ops|);
        if name in variables {
          var v := b.Emit(Load(variables[name].value));
          r := Parsed(Some(RObject(v, variables[name].methods)));
        }
      } else {
        r := ParseParts(items, b);
      }
    }

    /** The right-hand side first; only then is the variable looked up. */
    method ParseAssign(items: seq<Sexpr>, b: CodeBuilder) returns (r: Outcome)
      requires Valid()
      modifies this`variables, b
      ensures Valid()
      ensures Did(b, old(b.ops),
                  Parsing(Assign(Item(items, 1), DecodeItem(items, 2)), old(variables), b.base + |old(b.ops)|), r)
      decreases items, 2
    {
      hide Parsing, GenStore, DecodeItem, Compiler.Valid;
      var varName := Item(items, 1);
      ghost var ops0, k := b.ops, b.base + |b.ops|;
      ghost var p := Parsing(DecodeItem(items, 2), variables, k);
      ParsingAssign(varName, DecodeItem(items, 2), variables, k);
      r := ParseItem(items, 2, b);
      if r.Raised? || r.obj.None? {
        return Raised;
      }
      r := StoreVariable(varName, r.obj.value, b, Emitted(p.obj, p.vars, p.ops), ops0);
    }

    /** Stores val under varName, in a new cell if there is none. */
    method StoreVariable(varName: Sexpr, val: RObject, b: CodeBuilder, ghost g: Emitted, ghost ops0: seq<Op>)
      returns (r: Outcome)
      requires b.ops == ops0 + g.ops && variables == g.vars
      modifies this`variables, b
      ensures Did(b, ops0, OrLeft(GenStore(varName, val, g, b.base + |ops0|), g.vars, g.ops), r)
    {
      var v: RObject;
      if varName in variables {
        v := variables[varName];
      } else if val.methods.None? {
        return Raised;
      } else {
        var cell := b.Emit(Alloca(ObjType(val.methods.value)));
        v := RObject(cell, val.methods);
      }
      var _ := b.Emit(Store(val.value, v.value));
      variables := variables[varName := v];
      r := Parsed(Some(val));
      assert variables == GenStore(varName, val, g, b.base + |ops0|).value.vars;
      assert b.ops == ops0 + GenStore(varName, val, g, b.base + |ops0|).value.ops;
    }

    /** The list has been parsed, or raised on the way; the objects are there if every expression yielded one. */
    ghost predicate DidArgs(b: CodeBuilder, ops: seq<Op>, p: Parse, g: Option<EmittedAll>, raised: bool,
                            objs: Option<seq<RObject>>)
      reads this, b
    {
      raised == p.raised && variables == p.vars && b.ops == ops + p.ops
      && (objs.Some? <==> g.Some?) && (g.Some? ==> objs.value == g.value.objs)
    }

    /** The arguments after the first item, one after the other; only then are their values taken. */
    method ParseArgs(args: seq<Sexpr>, b: CodeBuilder) returns (raised: bool, objs: Option<seq<RObject>>)
      requires Valid()
      modifies this`variables, b
      ensures Valid()
      ensures var es, k := DecodeFrom(args, 1, false), b.base + |old(b.ops)|;
        DidArgs(b, old(b.ops), ParsingAll(es, old(variables), k), GenArgs(es, old(variables), k), raised, objs)
      decreases args, 0
    {
      hide Decode, Gen, GenArgs, Parsing, ParsingAll, DecodeFrom, Joined, Compiler.Valid;
      ghost var ops0, vars0, es, n := b.ops, variables, DecodeFrom(args, 1, false), b.base + |b.ops|;
      assert b.ops[|ops0|..] == [];
      var done: Option<seq<RObject>> := Some([]);
      var k := 1;
      NothingJoined(GenArgs(es, vars0, n));
      NothingBefore(ParsingAll(es, vars0, n));
      while k < |args|
        invariant 1 <= k && Valid() && |ops0| <= |b.ops| && b.ops[..|ops0|] == ops0
        invariant ParsingAll(es, vars0, n)
               == Then(b.ops[|ops0|..], ParsingAll(DecodeFrom(args, k, false), variables, b.base + |b.ops|))
        invariant done.Some? ==>
                    GenArgs(es, vars0, n)
                      == Joined(done.value, b.ops[|ops0|..],
                                GenArgs(DecodeFrom(args, k, false), variables, b.base + |b.ops|))
        invariant done.None? ==> GenArgs(es, vars0, n) == None
      {
        ghost var ops1, vars1, n1 := b.ops, variables, b.base + |b.ops|;
        ArgsStep(args, k, vars1, n1);
        DecodeArg(args, k);
        ParsingFirst(Decode(args[k]), DecodeFrom(args, k + 1, false), vars1, n1);
        var r := ParseSexpr(args[k], b);
        ghost var p := Parsing(Decode(args[k]), vars1, n1);
        assert b.ops[|ops0|..] == ops1[|ops0|..] + p.ops;
        ParsingIs(Decode(args[k]), vars1, n1);
        if done.Some? {
          JoinedNone(done.value, ops1[|ops0|..]);
        }
        if r.Raised? {
          assert b.ops == ops0 + b.ops[|ops0|..];
          return true, None;
        }
        BeforeTwice(ops1[|ops0|..], p.ops, ParsingAll(DecodeFrom(args, k + 1, false), variables, b.base + |b.ops|));
        if done.Some? && r.obj.Some? {
          JoinedTwice(done.value, ops1[|ops0|..], [r.obj.value], p.ops,
                      GenArgs(DecodeFrom(args, k + 1, false), variables, b.base + |b.ops|));
        }
        done := if done.Some? && r.obj.Some? then Some(done.value + [r.obj.value]) else None;
        k := k + 1;
      }
      raised, objs := false, done;
      AllRead(args, k, false, variables, b.base + |b.ops|);
      if done.Some? {
        JoinedAll(done.value, b.ops[|ops0|..], variables);
      }
      assert b.ops == ops0 + b.ops[|ops0|..];
    }

    /** The arguments of a call: none, or those of its fourth item; anything else there raises. */
    method ParseArguments(items: seq<Sexpr>, b: CodeBuilder) returns (raised: bool, objs: Option<seq<RObject>>)
      requires Valid()
      modifies this`variables, b
      ensures Valid()
      ensures var es, k := CallArgs(items), b.base + |old(b.ops)|;
        DidArgs(b, old(b.ops), ParsingAll(es, old(variables), k), GenArgs(es, old(variables), k), raised, objs)
      decreases items, 1, 0
    {
      hide Decode, DecodeFrom, Gen, GenArgs, ParsingAll, Compiler.Valid;
      if |items| > 3 && items[3].List? {
        raised, objs := ParseArgs(items[3].items, b);
      } else if Item(items, 3) == Absent {
        NoArgs(variables, map[], b.base + |b.ops|, []);
        ParsingNone(variables, b.base + |b.ops|);
        raised, objs := false, Some([]);
      } else {
        OneBad(variables, b.base + |b.ops|);
        raised, objs := true, None;
      }
    }

    /** The receiver, the arguments, and the call of what the receiver's table has under the selector. */
    method ParseCall(items: seq<Sexpr>, b: CodeBuilder) returns (r: Outcome)
      requires Valid() && Item(items, 0) == Sym("call")
      modifies this`variables, b
      ensures Valid() && Did(b, old(b.ops), Parsing(DecodeList(items), old(variables), b.base + |old(b.ops)|), r)
      decreases items, 2
    {
      hide *;
      ghost var ops0, k := b.ops, b.base + |b.ops|;
      ghost var p := Parsing(DecodeItem(items, 1), variables, k);
      CallDecodes(items);
      ParsingSend(DecodeItem(items, 1), Item(items, 2), CallArgs(items), variables, k);
      r := ParseItem(items, 1, b);
      DidGives(b, ops0, p, r);
      if r.Parsed? {
        r := ParseRest(items, r.obj, b, p, ops0);
      }
    }

    lemma DidGives(b: CodeBuilder, ops: seq<Op>, p: Parse, r: Outcome)
      requires Did(b, ops, p, r)
      ensures (r.Raised? <==> p.raised) && variables == p.vars && b.ops == ops + p.ops
      ensures r.Parsed? ==> r.obj == p.obj
    {
    }

    /** The rest of a call, after the receiver. */
    method ParseRest(items: seq<Sexpr>, recv: Option<RObject>, b: CodeBuilder, ghost p: Parse, ghost ops0: seq<Op>)
      returns (r: Outcome)
      requires Valid() && b.ops == ops0 + p.ops && variables == p.vars && recv == p.obj
      modifies this`variables, b
      ensures Valid() && Did(b, ops0, ParsingRest(Item(items, 2), CallArgs(items), p, b.base + |ops0|), r)
      decreases items, 1, 1
    {
      hide Gen, GenArgs, GenSend, CallArgs, ParsingAll, Compiler.Valid;
      ghost var k := b.base + |ops0| + |p.ops|;
      ghost var rest, all := ParsingAll(CallArgs(items), p.vars, k), GenArgs(CallArgs(items), p.vars, k);
      var raised, objs := ParseArguments(items, b);
      ArgsHaveState(CallArgs(items), p.vars, k);
      assert ops0 + p.ops + rest.ops == ops0 + (p.ops + rest.ops);
      if raised || recv.None? || objs.None? {
        return Raised;
      }
      r := EmitCall(recv.value, Item(items, 2), objs.value, b, all.value, p.ops, ops0);
    }

    method EmitCall(recv: RObject, selector: Sexpr, argVals: seq<RObject>, b: CodeBuilder, ghost rest: EmittedAll,
                    ghost ops: seq<Op>, ghost ops0: seq<Op>) returns (r: Outcome)
      requires Valid() && b.ops == ops0 + ops + rest.ops && argVals == rest.objs && variables == rest.vars
      modifies b
      ensures Valid()
      ensures Did(b, ops0, OrLeft(GenSend(recv, selector, rest, ops, b.base + |ops0|), rest.vars, ops + rest.ops), r)
    {
      hide MethodTypes, ResultKind, Compiler.Valid;
      assert b.ops == ops0 + (ops + rest.ops);
      if recv.methods.None? {
        return Raised;
      }
      var found, func, retType := Funcs(recv.methods.value, selector);
      if !found {
        return Raised;
      }
      var val := b.Emit(Invoke(func, [recv.value] + ValuesOf(argVals)));
      r := Parsed(Some(RObject(val, TableOf(retType))));
      assert b.ops == ops0 + (ops + rest.ops + [Invoke(func, [recv.value] + ValuesOf(argVals))]);
    }

    /** Since ops0, the compiler and its builder have moved so that only the rest of a list is missing from p. */
    ghost predicate Comes(b: CodeBuilder, ops0: seq<Op>, p: Parse, rest: seq<Expr>)
      reads this, b
    {
      |ops0| <= |b.ops| && b.ops[..|ops0|] == ops0
      && p == Then(b.ops[|ops0|..], ParsingAll(rest, variables, b.base + |b.ops|))
    }

    lemma ComesFirst(b: CodeBuilder, p: Parse, rest: seq<Expr>)
      requires p == ParsingAll(rest, variables, b.base + |b.ops|)
      ensures Comes(b, b.ops, p, rest)
    {
      hide ParsingAll;
      assert b.ops[|b.ops|..] == [];
      NothingBefore(p);
    }

    lemma ComesLast(b: CodeBuilder, ops0: seq<Op>, p: Parse)
      requires Comes(b, ops0, p, [])
      ensures Did(b, ops0, p, Parsed(None))
    {
      ParsingNone(variables, b.base + |b.ops|);
      hide ParsingAll;
      assert b.ops == ops0 + b.ops[|ops0|..];
    }

    /** After the parsing of one more expression, which did not raise. */
    lemma ComesOn(b: CodeBuilder, ops0: seq<Op>, ops1: seq<Op>, p: Parse, q: Parse, rest: seq<Expr>)
      requires |ops0| <= |ops1| && ops1[..|ops0|] == ops0 && b.ops == ops1 + q.ops && variables == q.vars
      requires p == Then(ops1[|ops0|..], Then(q.ops, ParsingAll(rest, q.vars, b.base + |ops1| + |q.ops|)))
      ensures Comes(b, ops0, p, rest)
    {
      hide ParsingAll;
      assert b.ops[|ops0|..] == ops1[|ops0|..] + q.ops;
      BeforeTwice(ops1[|ops0|..], q.ops, ParsingAll(rest, q.vars, b.base + |ops1| + |q.ops|));
    }

    /** After one that did. */
    lemma ComesToRaise(b: CodeBuilder, ops0: seq<Op>, ops1: seq<Op>, p: Parse, q: Parse)
      requires |ops0| <= |ops1| && ops1[..|ops0|] == ops0 && b.ops == ops1 + q.ops && variables == q.vars
      requires p == Then(ops1[|ops0|..], q) && q.raised
      ensures Did(b, ops0, p, Raised)
    {
      assert b.ops == ops0 + (ops1[|ops0|..] + q.ops);
    }

    /** One list among the items. */
    method ParsePart(item: Sexpr, b: CodeBuilder, ghost ops0: seq<Op>, ghost p: Parse, ghost rest: seq<Expr>)
      returns (r: Outcome)
      requires Valid() && Comes(b, ops0, p, [Decode(item)] + rest)
      modifies this`variables, b
      ensures Valid() && if r.Raised? then Did(b, ops0, p, r) else Comes(b, ops0, p, rest)
      decreases item, 2
    {
      hide Decode, Parsing, ParsingAll, Compiler.Valid, Compiler.Did;
      ghost var ops1, k := b.ops, b.base + |b.ops|;
      ghost var q := Parsing(Decode(item), variables, k);
      ParsingFirst(Decode(item), rest, variables, k);
      r := ParseSexpr(item, b);
      DidGives(b, ops1, q, r);
      if r.Raised? {
        ComesToRaise(b, ops0, ops1, p, q);
      } else {
        ComesOn(b, ops0, ops1, p, q, rest);
      }
    }

    /** The lists among the items after the first, one after the other. */
    method ParseParts(items: seq<Sexpr>, b: CodeBuilder) returns (r: Outcome)
      requires Valid()
      modifies this`variables, b
      ensures Valid()
      ensures Did(b, old(b.ops), Parsing(Group(DecodeFrom(items, 1, true)), old(variables), b.base + |old(b.ops)|), r)
      decreases items, 2
    {
      hide Decode, Parsing, ParsingAll, DecodeFrom, Compiler.Valid, Compiler.Did, Compiler.Comes;
      ghost var ops0, p := b.ops, ParsingAll(DecodeFrom(items, 1, true), variables, b.base + |b.ops|);
      ParsingGroup(DecodeFrom(items, 1, true), variables, b.base + |b.ops|);
      ComesFirst(b, p, DecodeFrom(items, 1, true));
      var k := 1;
      while k < |items|
        invariant 1 <= k && Valid() && Comes(b, ops0, p, DecodeFrom(items, k, true))
      {
        DecodeStep(items, k);
        if items[k].List? {
          r := ParsePart(items[k], b, ops0, p, DecodeFrom(items, k + 1, true));
          if r.Raised? {
            return;
          }
        }
        k := k + 1;
      }
      r := Parsed(None);
      NoneLeft(items, k, true);
      ComesLast(b, ops0, p);
    }
  }

  lemma {:induction false} NoneLeft(items: seq<Sexpr>, k: nat, listsOnly: bool)
    requires k >= |items|
    ensures DecodeFrom(items, k, listsOnly) == []
  {
  }

  /** The number of instructions that a function has. */
  method CountOps(main: seq<Block>) returns (k: nat)
    ensures k == |AllOps(main)|
  {
    k := 0;
    var i := |main|;
    while i > 0
      invariant 0 <= i <= |main| && k == |AllOps(main[i..])|
    {
      i := i - 1;
      assert main[i..][1..] == main[i + 1..];
      k := k + |main[i].ops|;
    }
    assert main[0..] == main;
  }

  /** The trees that a list of S-expressions spells. */
  function Trees(sexprs: seq<Sexpr>): (es: seq<Expr>)
    ensures |es| == |sexprs|
  {
    seq(|sexprs|, i requires 0 <= i < |sexprs| => Decode(sexprs[i]))
  }

  /** A new compiler, put to one tree: what main does, for a tree that checks. */
  method CompileScript(sexpr: Sexpr) returns (ok: bool, main: seq<Block>)
    ensures (ok && MainFits(main, [])) <==> Check(Decode(sexpr), map[]).Some?
    ensures Check(Decode(sexpr), map[]).Some? ==> MeansTree(main, Decode(sexpr))
  {
    ok, main := CompileAll([sexpr]);
    assert Trees([sexpr]) == [Decode(sexpr)];
    OneTree(Decode(sexpr));
  }

  lemma {:induction false} OneTree(e: Expr)
    ensures CheckParts([e], map[]).Some? <==> Check(e, map[]).Some?
  {
    var c := Check(e, map[]);
    hide Check;
    assert c.Some? ==> CheckParts([e][1..], c.value.1).Some?;
  }

  /**
   * A new compiler, put to one tree after the other, up to the first exception. Main fits exactly when the trees check,
   * each in the scope that those before it left; and when it runs it does what the first of them says.
   */
  method CompileAll(sexprs: seq<Sexpr>) returns (ok: bool, main: seq<Block>)
    ensures ok == Session(Trees(sexprs), map[], 0).Some?
    ensures ok ==> main == Session(Trees(sexprs), map[], 0).value.0
    ensures (ok && MainFits(main, [])) <==> CheckParts(Trees(sexprs), map[]).Some?
    ensures sexprs != [] && Check(Trees(sexprs)[0], map[]).Some? ==> MeansTree(main, Trees(sexprs)[0])
  {
    hide Gen, Check, MeansTree, Decode, MainFits, Compiler.Valid;
    var c := new Compiler();
    ghost var es := Trees(sexprs);
    ok := true;
    var i := 0;
    while ok && i < |sexprs|
      invariant 0 <= i <= |sexprs| && c.Valid() && |c.main| == i
      invariant ok ==> Session(es[..i], map[], 0) == Some((c.main, c.variables))
      invariant !ok ==> i > 0 && Session(es, map[], 0).None?
      invariant i > 0 && Gen(es[0], map[], 0).Some? ==> c.main[0] == BlockOf(Gen(es[0], map[], 0).value)
    {
      assert es[..i + 1] == es[..i] + [es[i]];
      SessionPlus(es[..i], es[i], map[], 0);
      if Session(es[..i + 1], map[], 0).None? {
        SessionPrefix(es, i + 1, map[], 0);
      }
      ok := c.Compile(sexprs[i]);
      i := i + 1;
    }
    main := c.main;
    assert ok ==> es[..i] == es;
    AllFitIffCheck(es);
    if sexprs != [] && Check(es[0], map[]).Some? {
      FirstTreeRuns(es[0], main);
    }
  }

  /** Nothing is left of the list. */
  lemma {:induction false} AllRead(items: seq<Sexpr>, k: nat, listsOnly: bool, vars: Variables, n: nat)
    requires k >= |items|
    ensures var rest := DecodeFrom(items, k, listsOnly);
      GenArgs(rest, vars, n) == Some(EmittedAll([], vars, []))
        && ParsingAll(rest, vars, n) == Parse(false, None, vars, [])
  {
    ParsingNone(vars, n);
    hide ParsingAll;
  }

  lemma NothingBefore(p: Parse)
    ensures Then([], p) == p
  {
    assert [] + p.ops == p.ops;
  }

  lemma BeforeTwice(a: seq<Op>, b: seq<Op>, p: Parse)
    ensures Then(a, Then(b, p)) == Then(a + b, p)
  {
    assert a + (b + p.ops) == a + b + p.ops;
  }

  /** Where all arguments are objects, nothing else has happened than when their objects are dropped. */
  lemma {:induction false} ArgsHaveState(args: seq<Expr>, vars: Variables, k: nat)
    ensures var p, g := ParsingAll(args, vars, k), GenArgs(args, vars, k);
      p.obj == None && (g.Some? ==> !p.raised && p.vars == g.value.vars && p.ops == g.value.ops)
  {
    if GenArgs(args, vars, k).Some? {
      ArgsAreParts(args, vars, k);
      PartsLeft(args, vars, k);
    }
    hide GenArgs, GenParts, AllLeft;
  }

  lemma {:induction false} OneBad(vars: Variables, k: nat)
    ensures GenArgs([Bad], vars, k) == None && ParsingAll([Bad], vars, k) == Parse(true, None, vars, [])
  {
  }

  lemma DecodeArg(args: seq<Sexpr>, k: nat)
    requires k < |args|
    ensures DecodeFrom(args, k, false) == [Decode(args[k])] + DecodeFrom(args, k + 1, false)
  {
    hide Decode;
  }

  lemma DecodeStep(items: seq<Sexpr>, k: nat)
    requires k < |items|
    ensures DecodeFrom(items, k, true)
         == if items[k].List? then [Decode(items[k])] + DecodeFrom(items, k + 1, true)
            else DecodeFrom(items, k + 1, true)
  {
    hide Decode;
  }

  lemma SignatureIff(cls: Class, name: string)
    ensures SignatureOf(Method(cls, name)).Some? <==> MethodTypes(cls, name).Some?
  {
  }

  lemma {:induction false} StrGives(s: string, vars: Variables, k: nat)
    ensures Parsing(Str(s), vars, k)
         == Parse(false, Some(RObject(Tmp(k + 1), Some(StringClass))), vars,
                  [GlobalString(s), Invoke(StrFromCstr, [Tmp(k)])])
  {
  }

  lemma {:induction false} LitGives(n: int, vars: Variables, k: nat)
    ensures Parsing(Lit(n), vars, k) == Parse(false, Some(RObject(ConstInt(n), Some(NumClass))), vars, [])
  {
  }

  lemma {:induction false} GetGives(x: Sexpr, vars: Variables, k: nat)
    ensures Parsing(Get(x), vars, k)
         == if x !in vars then Parse(true, None, vars, [])
            else Parse(false, Some(RObject(Tmp(k), vars[x].methods)), vars, [Load(vars[x].value)])
  {
  }

  lemma {:induction false} BadGives(vars: Variables, k: nat)
    ensures Parsing(Bad, vars, k) == Parse(true, None, vars, [])
  {
  }

  /** What was emitted before, and what a rest of the list adds to it. */
  function Joined(objs: seq<RObject>, ops: seq<Op>, rest: Option<EmittedAll>): Option<EmittedAll> {
    if rest.None? then None else Some(EmittedAll(objs + rest.value.objs, rest.value.vars, ops + rest.value.ops))
  }

  lemma NothingJoined(rest: Option<EmittedAll>)
    ensures Joined([], [], rest) == rest
  {
    if rest.Some? {
      assert [] + rest.value.objs == rest.value.objs && [] + rest.value.ops == rest.value.ops;
    }
  }

  lemma JoinedAll(objs: seq<RObject>, ops: seq<Op>, vars: Variables)
    ensures Joined(objs, ops, Some(EmittedAll([], vars, []))) == Some(EmittedAll(objs, vars, ops))
  {
    assert objs + [] == objs && ops + [] == ops;
  }

  lemma JoinedNone(objs: seq<RObject>, ops: seq<Op>)
    ensures Joined(objs, ops, None) == None
  {
  }

  lemma JoinedTwice(objs: seq<RObject>, ops: seq<Op>, objs1: seq<RObject>, ops1: seq<Op>, rest: Option<EmittedAll>)
    ensures Joined(objs, ops, Joined(objs1, ops1, rest)) == Joined(objs + objs1, ops + ops1, rest)
  {
    if rest.Some? {
      assert objs + (objs1 + rest.value.objs) == objs + objs1 + rest.value.objs;
      assert ops + (ops1 + rest.value.ops) == ops + ops1 + rest.value.ops;
    }
  }

  lemma ArgsStep(args: seq<Sexpr>, k: nat, vars: Variables, n: nat)
    requires k < |args|
    ensures var r := Gen(Decode(args[k]), vars, n);
      GenArgs(DecodeFrom(args, k, false), vars, n)
        == if r.None? || r.value.obj.None? then None
           else Joined([r.value.obj.value], r.value.ops,
                       GenArgs(DecodeFrom(args, k + 1, false), r.value.vars, n + |r.value.ops|))
  {
    var rest := DecodeFrom(args, k + 1, false);
    assert ([Decode(args[k])] + rest)[1..] == rest;
    hide Decode, Gen;
  }

  /** The arguments of a call; what is no list of arguments raises in their place. */
  function CallArgs(items: seq<Sexpr>): seq<Expr> {
    if |items| > 3 && items[3].List? then DecodeFrom(items[3].items, 1, false)
    else if Item(items, 3) == Absent then []
    else [Bad]
  }

  /** How a call is decoded. */
  lemma {:induction false} CallDecodes(items: seq<Sexpr>)
    requires Item(items, 0) == Sym("call")
    ensures DecodeList(items) == Send(DecodeItem(items, 1), Item(items, 2), CallArgs(items))
  {
    hide Decode, DecodeItem, DecodeFrom;
  }
}
