// How trees are written as nested lists, and what other lists say.

module SexprSpelling {
  import opened Options
  import opened Words
  import opened TextIR
  import opened Sexprs

  /** The symbols that parse_sexpr knows as the head of a list. */
  predicate IsKeyword(head: Sexpr) {
    head == Sym("call") || head == Sym("str") || head == Sym("lit") || head == Sym("lasgn") || head == Sym("lvar")
  }

  /**
   * A tree as a list. The argument list of a call starts with a tag that is skipped; with bare, calls without arguments
   * have no such list. A group starts with any head that is no keyword.
   */
  function Spell(e: Expr, tag: Sexpr, head: Sexpr, bare: bool): Sexpr
    decreases e, 0
  {
    match e
    case Lit(n) => List([Sym("lit"), Number(n)])
    case Str(s) => List([Sym("str"), Text(s)])
    case Get(x) => List([Sym("lvar"), x])
    case Assign(x, rhs) => List([Sym("lasgn"), x, Spell(rhs, tag, head, bare)])
    case Send(recv, selector, args) =>
      List([Sym("call"), Spell(recv, tag, head, bare), selector]
           + if bare && args == [] then [] else [List([tag] + SpellAll(args, tag, head, bare))])
    case Group(parts) => List([head] + SpellAll(parts, tag, head, bare))
    case Bad => List([Sym("str")])
  }

  function SpellAll(es: seq<Expr>, tag: Sexpr, head: Sexpr, bare: bool): (xs: seq<Sexpr>)
    ensures |xs| == |es|
    decreases es, |es|
  {
    if es == [] then [] else [Spell(es[0], tag, head, bare)] + SpellAll(es[1..], tag, head, bare)
  }

  /** Its numbers are C ints. */
  predicate Clean(e: Expr)
    decreases e, 0
  {
    match e
    case Lit(n) => CInt(n)
    case Assign(_, rhs) => Clean(rhs)
    case Send(recv, _, args) => Clean(recv) && AllClean(args)
    case Group(parts) => AllClean(parts)
    case _ => true
  }

  predicate AllClean(es: seq<Expr>)
    decreases es, |es|
  {
    es != [] ==> Clean(es[0]) && AllClean(es[1..])
  }

  lemma {:induction false} ItemIs(items: seq<Sexpr>, k: nat)
    ensures DecodeItem(items, k) == if k < |items| then Decode(items[k]) else Bad
    ensures Decode(List(items)) == DecodeList(items)
  {
  }

  /** A tree is what its spelling says, whatever the tags and the heads are, exactly when its numbers are C ints. */
  lemma {:induction false} DecodeSpell(e: Expr, tag: Sexpr, head: Sexpr, bare: bool)
    requires !IsKeyword(head)
    ensures Decode(Spell(e, tag, head, bare)) == e <==> Clean(e)
    decreases e, 0
  {
    match e
    case Lit(_) =>
    case Str(_) =>
    case Get(_) =>
    case Bad =>
    case Assign(x, rhs) =>
      DecodeSpell(rhs, tag, head, bare);
      VariablesSay(x, Spell(rhs, tag, head, bare));
    case Send(recv, selector, args) =>
      DecodeSpell(recv, tag, head, bare);
      DecodeSpells(args, [tag], tag, head, bare, false);
      CallIs(Spell(recv, tag, head, bare), selector, [tag] + SpellAll(args, tag, head, bare));
      SpellSend(recv, selector, args, tag, head, bare);
    case Group(parts) =>
      DecodeSpells(parts, [head], tag, head, bare, true);
      OtherHead([head] + SpellAll(parts, tag, head, bare));
  }

  lemma {:induction false} SpellSend(recv: Expr, selector: Sexpr, args: seq<Expr>, tag: Sexpr, head: Sexpr, bare: bool)
    ensures var r := Spell(recv, tag, head, bare);
      Spell(Send(recv, selector, args), tag, head, bare)
        == if bare && args == [] then List([Sym("call"), r, selector])
           else List([Sym("call"), r, selector, List([tag] + SpellAll(args, tag, head, bare))])
  {
    var r, all := Spell(recv, tag, head, bare), List([tag] + SpellAll(args, tag, head, bare));
    assert [Sym("call"), r, selector] + [] == [Sym("call"), r, selector];
    assert [Sym("call"), r, selector] + [all] == [Sym("call"), r, selector, all];
  }

  lemma {:induction false} DecodeSpells(es: seq<Expr>, pre: seq<Sexpr>, tag: Sexpr, head: Sexpr, bare: bool,
                                        listsOnly: bool)
    requires !IsKeyword(head)
    ensures DecodeFrom(pre + SpellAll(es, tag, head, bare), |pre|, listsOnly) == es <==> AllClean(es)
    decreases es, |es|
  {
    var items := pre + SpellAll(es, tag, head, bare);
    if es != [] {
      DecodeSpell(es[0], tag, head, bare);
      DecodeSpells(es[1..], pre + [items[|pre|]], tag, head, bare, listsOnly);
      assert items == pre + [items[|pre|]] + SpellAll(es[1..], tag, head, bare);
      SpellsList(es[0], tag, head, bare);
      assert es == [es[0]] + es[1..];
      assert DecodeFrom(items, |pre|, listsOnly) == [Decode(items[|pre|])] + DecodeFrom(items, |pre| + 1, listsOnly);
    }
    hide Spell, Decode, Clean;
  }

  lemma {:induction false} SpellsList(e: Expr, tag: Sexpr, head: Sexpr, bare: bool)
    ensures Spell(e, tag, head, bare).List?
  {
  }

  /**
   * What raises at once: anything but a list, a str without a text, a lit without a number that is a C int. Every other
   * list says something, though its parts may raise.
   */
  lemma {:induction false} WhatIsBad(x: Sexpr)
    ensures Decode(x) == Bad <==>
              match x
              case List(items) =>
                |items| > 0
                && ((items[0] == Sym("str") && !(|items| > 1 && items[1].Text?))
                    || (items[0] == Sym("lit")
                        && !(|items| > 1 && items[1].Number? && -2147483648 <= items[1].n <= 2147483647)))
              case _ => true
  {
  }

  /** A call: its receiver and its arguments, each as it stands, the first item of the argument list skipped. */
  lemma CallSays(items: seq<Sexpr>, args: seq<Sexpr>)
    requires |items| >= 4 && items[0] == Sym("call") && items[3] == List(args)
    ensures var e := Decode(List(items));
      e.Send? && e.recv == Decode(items[1]) && e.selector == items[2]
      && |e.args| == (if args == [] then 0 else |args| - 1)
      && forall k :: 0 <= k < |e.args| ==> e.args[k] == Decode(args[k + 1])
  {
    AllDecoded(args, 1);
    ItemIs(items, 1);
    hide Decode;
  }

  lemma {:induction false} CallIs(recv: Sexpr, selector: Sexpr, args: seq<Sexpr>)
    ensures Decode(List([Sym("call"), recv, selector])) == Send(Decode(recv), selector, [])
    ensures Decode(List([Sym("call"), recv, selector, List(args)]))
         == Send(Decode(recv), selector, DecodeFrom(args, 1, false))
  {
    ItemIs([Sym("call"), recv, selector], 1);
    ItemIs([Sym("call"), recv, selector, List(args)], 1);
    hide Decode, DecodeFrom;
  }

  lemma {:induction false} AllDecoded(items: seq<Sexpr>, k: nat)
    ensures var es := DecodeFrom(items, k, false);
      |es| == (if k < |items| then |items| - k else 0)
      && forall j :: 0 <= j < |es| ==> es[j] == Decode(items[k + j])
    decreases |items| - k
  {
    if k < |items| {
      AllDecoded(items, k + 1);
      hide Decode;
    }
  }

  /** Without anything in the place of the argument list there are no arguments; anything else there raises. */
  lemma CallWithoutList(items: seq<Sexpr>)
    requires |items| > 0 && items[0] == Sym("call") && (|items| >= 4 ==> !items[3].List?)
    ensures var e := Decode(List(items));
      e.Send? && e.recv == (if |items| > 1 then Decode(items[1]) else Bad)
      && e.selector == (if |items| > 2 then items[2] else Absent)
      && e.args == (if |items| < 4 || items[3] == Absent then [] else [Bad])
  {
    ItemIs(items, 1);
    hide Decode;
  }

  /** An assignment and a variable, whatever their names are. */
  lemma {:induction false} VariablesSay(x: Sexpr, rhs: Sexpr)
    ensures Decode(List([Sym("lasgn"), x, rhs])) == Assign(x, Decode(rhs)) && Decode(List([Sym("lvar"), x])) == Get(x)
  {
    ItemIs([Sym("lasgn"), x, rhs], 2);
    ItemIs([Sym("lvar"), x], 1);
    hide Decode;
  }

  /** Any other list is a group of the lists in it, in order; what is no list is skipped. */
  lemma {:induction false} GroupSays(head: Sexpr, xs: seq<Sexpr>, x: Sexpr)
    requires !IsKeyword(head)
    ensures Decode(List([head])) == Group([]) && Decode(List([head] + xs)).Group?
    ensures Decode(List([head] + xs + [x]))
         == Group(Decode(List([head] + xs)).parts + if x.List? then [Decode(x)] else [])
    ensures Decode(List([])) == Group([])
  {
    OneMore([head] + xs, x, 1);
    hide Decode;
    assert Decode(List([head])) == Group(DecodeFrom([head], 1, true)) by { OtherHead([head]); }
    assert Decode(List([head] + xs)) == Group(DecodeFrom([head] + xs, 1, true)) by { OtherHead([head] + xs); }
    OtherHead([head] + xs + [x]);
    OtherHead([]);
  }

  lemma {:induction false} OtherHead(items: seq<Sexpr>)
    requires items == [] || !IsKeyword(items[0])
    ensures Decode(List(items)) == Group(DecodeFrom(items, 1, true))
  {
    hide DecodeFrom;
  }

  lemma {:induction false} OneMore(items: seq<Sexpr>, x: Sexpr, k: nat)
    requires k <= |items|
    ensures DecodeFrom(items + [x], k, true) == DecodeFrom(items, k, true) + if x.List? then [Decode(x)] else []
    decreases |items| - k
  {
    hide Decode;
    if k < |items| {
      OneMore(items, x, k + 1);
      assert (items + [x])[k] == items[k];
    }
  }
}
