// Several trees, one after the other: each adds a block to the one function main.

module SexprSession {
  import opened Options
  import opened TextIR
  import opened Sexprs
  import opened SexprCodegen
  import opened SexprShapes
  import opened SexprMethods
  import opened SexprSimulation

  /** A block of main: its instructions, and what it returns. Without that when the compiler raised before its end. */
  datatype Block = Block(ops: seq<Op>, ret: Option<Operand>)

  /** The instructions of all blocks in order: number k of them leaves its result in temporary k. */
  function AllOps(main: seq<Block>): seq<Op> {
    if main == [] then [] else main[0].ops + AllOps(main[1..])
  }

  /** The block that a tree adds. */
  function BlockOf(r: Emitted): Block {
    Block(r.ops, Some(ConstInt(0)))
  }

  /**
   * The blocks of trees that are compiled one after the other, when k instructions are there already, and the variables
   * afterwards. None when one of them raises.
   */
  function Session(es: seq<Expr>, vars: Variables, k: nat): Option<(seq<Block>, Variables)> {
    if es == [] then Some(([], vars))
    else
      var r := Gen(es[0], vars, k);
      if r.None? then None
      else
        var rest := Session(es[1..], r.value.vars, k + |r.value.ops|);
        if rest.None? then None else Some(([BlockOf(r.value)] + rest.value.0, rest.value.1))
  }

  /**
   * The instructions of every block fit their types; a block can refer to all results of the blocks before it, which
   * are results of the same function, and returns what main is declared to return.
   */
  predicate MainFits(main: seq<Block>, tys: seq<Ty>) {
    main != [] ==>
      main[0].ret.Some?
      && var tys' := Types(main[0].ops, [], tys);
         tys'.Some? && OperandTy(main[0].ret.value, [], tys'.value) == Some(INT) && MainFits(main[1..], tys'.value)
  }

  /** Main from the start. It is entered at its first block and leaves there: no block leads to another. */
  function RunMain(main: seq<Block>): Option<State> {
    if main == [] || main[0].ret.None? then None else Steps(1, [], main[0].ops, State([], [], []))
  }

  /** A number of trees, and the variables after them. */
  lemma {:induction false} SessionFits(es: seq<Expr>, g: Scope, vars: Variables, tys: seq<Ty>)
    requires VarsTyped(vars, g, tys)
    ensures var s := Session(es, vars, |tys|);
      (s.Some? && MainFits(s.value.0, tys)) <==> CheckParts(es, g).Some?
  {
    hide *;
    if es == [] {
      NoTrees(vars, g, tys);
    } else {
      FirstTree(es, g, vars, tys);
      FitsIffChecks(es[0], g, vars, tys);
      if Check(es[0], g).Some? {
        var tys' := GenTyped(es[0], g, vars, tys);
        var r, g' := Gen(es[0], vars, |tys|).value, Check(es[0], g).value.1;
        FitsLength(r.ops, r.vars, g', tys, tys');
        SessionFits(es[1..], g', r.vars, tys');
      }
    }
  }

  lemma {:induction false} NoTrees(vars: Variables, g: Scope, tys: seq<Ty>)
    ensures Session([], vars, |tys|) == Some(([], vars)) && MainFits([], tys) && CheckParts([], g) == Some(g)
  {
  }

  lemma {:induction false} FirstTree(es: seq<Expr>, g: Scope, vars: Variables, tys: seq<Ty>)
    requires es != []
    ensures var r, c := Gen(es[0], vars, |tys|), Check(es[0], g);
      CheckParts(es, g) == (if c.None? then None else CheckParts(es[1..], c.value.1))
      && if r.None? then Session(es, vars, |tys|) == None
         else
           var tys', rest := Types(r.value.ops, [], tys), Session(es[1..], r.value.vars, |tys| + |r.value.ops|);
           var s := Session(es, vars, |tys|);
           s.Some? == rest.Some?
           && (s.Some? ==> s.value.1 == rest.value.1
                           && (MainFits(s.value.0, tys) <==> tys'.Some? && MainFits(rest.value.0, tys'.value)))
  {
    var r := Gen(es[0], vars, |tys|);
    hide Gen, Check, Types;
    if r.Some? {
      var rest := Session(es[1..], r.value.vars, |tys| + |r.value.ops|);
      if rest.Some? {
        assert ([BlockOf(r.value)] + rest.value.0)[1..] == rest.value.0;
      }
    }
  }

  /**
   * The blocks that fit, put one after the other, are instructions that fit, and the variables have their cells there.
   */
  lemma {:induction false} SessionLeaves(es: seq<Expr>, g: Scope, vars: Variables, tys: seq<Ty>) returns (tys': seq<Ty>)
    requires VarsTyped(vars, g, tys) && CheckParts(es, g).Some?
    ensures Session(es, vars, |tys|).Some?
    ensures var (main, vars') := Session(es, vars, |tys|).value;
      Types(AllOps(main), [], tys) == Some(tys') && |tys'| == |tys| + |AllOps(main)|
      && VarsTyped(vars', CheckParts(es, g).value, tys') && |main| == |es|
  {
    hide *;
    if es == [] {
      NoTrees(vars, g, tys);
      NoInstructions(tys);
      tys' := tys;
    } else {
      PartsCheck(es, g);
      var mid := GenTyped(es[0], g, vars, tys);
      var r, g1 := Gen(es[0], vars, |tys|).value, Check(es[0], g).value.1;
      FitsLength(r.ops, r.vars, g1, tys, mid);
      tys' := SessionLeaves(es[1..], g1, r.vars, mid);
      TreeFirst(es, vars, |tys|);
      TypesAppend(r.ops, AllOps(Session(es[1..], r.vars, |mid|).value.0), [], tys);
    }
  }

  lemma {:induction false} NoInstructions(tys: seq<Ty>)
    ensures AllOps([]) == [] && Types([], [], tys) == Some(tys)
  {
  }

  lemma TreeFirst(es: seq<Expr>, vars: Variables, k: nat)
    requires es != [] && Gen(es[0], vars, k).Some?
    requires var r := Gen(es[0], vars, k).value; Session(es[1..], r.vars, k + |r.ops|).Some?
    ensures var r := Gen(es[0], vars, k).value;
      var (rest, vars') := Session(es[1..], r.vars, k + |r.ops|).value;
      Session(es, vars, k) == Some(([BlockOf(r)] + rest, vars'))
      && AllOps([BlockOf(r)] + rest) == r.ops + AllOps(rest)
  {
    hide Gen;
    var r := Gen(es[0], vars, k).value;
    var rest := Session(es[1..], r.vars, k + |r.ops|).value.0;
    assert ([BlockOf(r)] + rest)[1..] == rest;
  }

  /** One more tree. */
  lemma {:induction false} SessionPlus(es: seq<Expr>, e: Expr, vars: Variables, k: nat)
    requires Session(es, vars, k).Some?
    ensures var (main, vars') := Session(es, vars, k).value;
      var r := Gen(e, vars', k + |AllOps(main)|);
      Session(es + [e], vars, k) == if r.None? then None else Some((main + [BlockOf(r.value)], r.value.vars))
  {
    hide Gen;
    if es == [] {
      assert es + [e] == [e] && [e][1..] == [];
      var r := Gen(e, vars, k);
      if r.Some? {
        assert Session([e][1..], r.value.vars, k + |r.value.ops|) == Some(([], r.value.vars));
        assert [] + [BlockOf(r.value)] == [BlockOf(r.value)] == [BlockOf(r.value)] + [];
      }
    } else {
      assert (es + [e])[1..] == es[1..] + [e] && (es + [e])[0] == es[0];
      var r0 := Gen(es[0], vars, k).value;
      SessionPlus(es[1..], e, r0.vars, k + |r0.ops|);
      TreeFirst(es, vars, k);
      var (rest, vars') := Session(es[1..], r0.vars, k + |r0.ops|).value;
      var r := Gen(e, vars', k + |r0.ops| + |AllOps(rest)|);
      if r.Some? {
        assert [BlockOf(r0)] + (rest + [BlockOf(r.value)]) == [BlockOf(r0)] + rest + [BlockOf(r.value)];
      }
    }
  }

  /** An exception at a tree is one for all sequences that start so. */
  lemma {:induction false} SessionPrefix(es: seq<Expr>, n: nat, vars: Variables, k: nat)
    requires n <= |es| && Session(es[..n], vars, k).None?
    ensures Session(es, vars, k).None?
  {
    hide Gen;
    assert n > 0 && es[..n][0] == es[0] && es[..n][1..] == es[1..][..n - 1];
    var r := Gen(es[0], vars, k);
    if r.Some? {
      SessionPrefix(es[1..], n - 1, r.value.vars, k + |r.value.ops|);
    }
  }

  lemma NoVariables()
    ensures VarsTyped(map[], map[], [])
  {
  }

  /**
   * All trees that a compiler is put to compile without an exception into a main that fits, if and only if they check.
   */
  lemma {:induction false} AllFitIffCheck(es: seq<Expr>)
    ensures var s := Session(es, map[], 0);
      (s.Some? && MainFits(s.value.0, [])) <==> CheckParts(es, map[]).Some?
  {
    NoVariables();
    SessionFits(es, map[], map[], []);
    hide *;
  }

  /**
   * The variables keep their cells from one tree to the next: after trees that check, a further tree compiles into a
   * block that fits, among the results of all blocks before it, if and only if it checks in the scope that they left.
   */
  lemma {:induction false} LaterFitsIffChecks(es: seq<Expr>, e: Expr)
    requires CheckParts(es, map[]).Some?
    ensures Session(es, map[], 0).Some?
    ensures var (main, vars) := Session(es, map[], 0).value;
      var r, tys := Gen(e, vars, |AllOps(main)|), Types(AllOps(main), [], []);
      tys.Some? && ((r.Some? && Types(r.value.ops, [], tys.value).Some?)
                    <==> Check(e, CheckParts(es, map[]).value).Some?)
  {
    hide *;
    NoVariables();
    var tys := SessionLeaves(es, map[], map[], []);
    FitsIffChecks(e, CheckParts(es, map[]).value, Session(es, map[], 0).value.1, tys);
  }

  /** Running main prints what the tree prints, and gets to its end exactly when the shapes of the tree go through. */
  predicate MeansTree(main: seq<Block>, e: Expr) {
    var run, want := RunMain(main), Eval(e, World(map[], []));
    (run.Some? <==> Shapely(e, map[]).Some?) && (run.Some? <==> want.Some?)
    && (run.Some? ==> run.value.out == want.value.1.out)
  }

  /** Whatever was compiled after it: main does what the first tree says. */
  lemma {:induction false} FirstTreeRuns(e: Expr, main: seq<Block>)
    requires Check(e, map[]).Some? && main != []
    requires Gen(e, map[], 0).Some? ==> main[0] == BlockOf(Gen(e, map[], 0).value)
    ensures MeansTree(main, e)
  {
    var tys := MainMeans(e);
    hide Check, Gen, Steps, Eval, Shapely, Types, CellHolds;
  }

  lemma {:induction false} SessionRuns(es: seq<Expr>)
    requires es != [] && Check(es[0], map[]).Some? && Session(es, map[], 0).Some?
    ensures MeansTree(Session(es, map[], 0).value.0, es[0])
  {
    FirstTreeRuns(es[0], Session(es, map[], 0).value.0);
    hide Gen, MeansTree;
  }
}
