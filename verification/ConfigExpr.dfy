// Configuration expressions: their evaluation as the resolver does it, and the substitution of
// private (lowercase) names.
module ConfigExpr {

  /** An expression as parsed; `Op` stands for every arithmetic, comparison and call node. */
  datatype Expr =
    | Const(value: int)
    | Name(id: string)
    | Not(arg: Expr)
    | And(args: seq<Expr>)
    | Or(args: seq<Expr>)
    | If(test: Expr, body: Expr, orelse: Expr)
    | Op(op: nat, args: seq<Expr>)

  /** The resolver's value of every name, and what the operators compute. */
  datatype Scope = Scope(value: string -> int, operate: (nat, seq<int>) -> int)

  function ValueOf(s: Scope, x: string): int {
    s.value(x)
  }

  function Operate(s: Scope, op: nat, vs: seq<int>): int {
    s.operate(op, vs)
  }

  function Eval(e: Expr, s: Scope): int
    decreases e
  {
    match e
    case Const(v) => v
    case Name(x) => ValueOf(s, x)
    case Not(a) => if Eval(a, s) == 0 then 1 else 0
    case And(es) => EvalAnd(es, s)
    case Or(es) => EvalOr(es, s)
    case If(t, a, b) => if Eval(t, s) != 0 then Eval(a, s) else Eval(b, s)
    case Op(op, es) => Operate(s, op, EvalAll(es, s))
  }

  /** The first operand that is false, or the last. */
  function EvalAnd(es: seq<Expr>, s: Scope): int
    decreases es
  {
    if es == [] then 1
    else var v := Eval(es[0], s); if |es| == 1 || v == 0 then v else EvalAnd(es[1..], s)
  }

  /** The first operand that is true, or the last. */
  function EvalOr(es: seq<Expr>, s: Scope): int
    decreases es
  {
    if es == [] then 0
    else var v := Eval(es[0], s); if |es| == 1 || v != 0 then v else EvalOr(es[1..], s)
  }

  function EvalAll(es: seq<Expr>, s: Scope): seq<int>
    decreases es
  {
    if es == [] then [] else [Eval(es[0], s)] + EvalAll(es[1..], s)
  }

  function Names(e: Expr): set<string>
    decreases e
  {
    match e
    case Const(_) => {}
    case Name(x) => {x}
    case Not(a) => Names(a)
    case And(es) => NamesAll(es)
    case Or(es) => NamesAll(es)
    case If(t, a, b) => Names(t) + Names(a) + Names(b)
    case Op(_, es) => NamesAll(es)
  }

  function NamesAll(es: seq<Expr>): set<string>
    decreases es
  {
    if es == [] then {} else Names(es[0]) + NamesAll(es[1..])
  }

  function Subst(e: Expr, c: map<string, Expr>): Expr
    decreases e
  {
    match e
    case Const(_) => e
    case Name(x) => if x in c then c[x] else e
    case Not(a) => Not(Subst(a, c))
    case And(es) => And(SubstAll(es, c))
    case Or(es) => Or(SubstAll(es, c))
    case If(t, a, b) => If(Subst(t, c), Subst(a, c), Subst(b, c))
    case Op(op, es) => Op(op, SubstAll(es, c))
  }

  function SubstAll(es: seq<Expr>, c: map<string, Expr>): (r: seq<Expr>)
    ensures |r| == |es|
    decreases es
  {
    if es == [] then [] else [Subst(es[0], c)] + SubstAll(es[1..], c)
  }

  /** Substitution looks only at the names that occur. */
  lemma {:induction false} SubstFrame(e: Expr, c: map<string, Expr>, d: map<string, Expr>)
    requires forall x | x in Names(e) :: (x in c <==> x in d) && (x in c ==> c[x] == d[x])
    ensures Subst(e, c) == Subst(e, d)
    decreases e
  {
    match e
    case Const(_) =>
    case Name(x) =>
    case Not(a) => SubstFrame(a, c, d);
    case And(es) => SubstFrameAll(es, c, d);
    case Or(es) => SubstFrameAll(es, c, d);
    case If(t, a, b) => SubstFrame(t, c, d); SubstFrame(a, c, d); SubstFrame(b, c, d);
    case Op(_, es) => SubstFrameAll(es, c, d);
  }

  lemma {:induction false} SubstFrameAll(es: seq<Expr>, c: map<string, Expr>, d: map<string, Expr>)
    requires forall x | x in NamesAll(es) :: (x in c <==> x in d) && (x in c ==> c[x] == d[x])
    ensures SubstAll(es, c) == SubstAll(es, d)
    decreases es
  {
    if es != [] {
      SubstFrame(es[0], c, d);
      SubstFrameAll(es[1..], c, d);
    }
  }

  /** `t` gives the substituted names what their expressions evaluate to in `s`. */
  ghost predicate Extends(t: Scope, s: Scope, c: map<string, Expr>, names: set<string>) {
    && t.operate == s.operate
    && forall x | x in names :: ValueOf(t, x) == if x in c then Eval(c[x], s) else ValueOf(s, x)
  }

  /** Evaluating after substitution is evaluating before it with the names' values put in. */
  lemma {:induction false} SubstEval(e: Expr, c: map<string, Expr>, s: Scope, t: Scope)
    requires Extends(t, s, c, Names(e))
    ensures Eval(Subst(e, c), s) == Eval(e, t)
    decreases e
  {
    match e
    case Const(_) =>
    case Name(x) =>
    case Not(a) => SubstEval(a, c, s, t);
    case And(es) => SubstEvalAll(es, c, s, t);
    case Or(es) => SubstEvalAll(es, c, s, t);
    case If(p, a, b) => SubstEval(p, c, s, t); SubstEval(a, c, s, t); SubstEval(b, c, s, t);
    case Op(_, es) => SubstEvalAll(es, c, s, t);
  }

  lemma {:induction false} SubstEvalAll(es: seq<Expr>, c: map<string, Expr>, s: Scope, t: Scope)
    requires Extends(t, s, c, NamesAll(es))
    ensures EvalAll(SubstAll(es, c), s) == EvalAll(es, t)
    ensures EvalAnd(SubstAll(es, c), s) == EvalAnd(es, t)
    ensures EvalOr(SubstAll(es, c), s) == EvalOr(es, t)
    decreases es
  {
    if es != [] {
      SubstEval(es[0], c, s, t);
      SubstEvalAll(es[1..], c, s, t);
      assert SubstAll(es, c)[1..] == SubstAll(es[1..], c);
    }
  }

  // ----- the value of an emitted macro -----

  /** As the parser builds them: connectives have operands. */
  predicate Parsed(e: Expr)
    decreases e
  {
    match e
    case Const(_) => true
    case Name(_) => true
    case Not(a) => Parsed(a)
    case And(es) => es != [] && AllParsed(es)
    case Or(es) => es != [] && AllParsed(es)
    case If(t, a, b) => Parsed(t) && Parsed(a) && Parsed(b)
    case Op(_, es) => AllParsed(es)
  }

  predicate AllParsed(es: seq<Expr>)
    decreases es
  {
    es != [] ==> Parsed(es[0]) && AllParsed(es[1..])
  }

  /** What the macro text of an expression comes to: connectives yield 0 or 1 there, where the
      resolver yields one of their operands. */
  function MacroEval(e: Expr, s: Scope): int
    decreases e
  {
    match e
    case Const(v) => v
    case Name(x) => ValueOf(s, x)
    case Not(a) => if MacroEval(a, s) == 0 then 1 else 0
    case And(es) => if 0 in MacroAll(es, s) then 0 else 1
    case Or(es) => if AllZero(MacroAll(es, s)) then 0 else 1
    case If(t, a, b) => if MacroEval(t, s) != 0 then MacroEval(a, s) else MacroEval(b, s)
    case Op(op, es) => Operate(s, op, MacroAll(es, s))
  }

  predicate AllZero(vs: seq<int>) { vs != [] ==> vs[0] == 0 && AllZero(vs[1..]) }

  function MacroAll(es: seq<Expr>, s: Scope): (vs: seq<int>)
    ensures |vs| == |es|
    decreases es
  {
    if es == [] then [] else [MacroEval(es[0], s)] + MacroAll(es[1..], s)
  }

  /** Every connective in the expression comes to 0 or 1. */
  predicate Boolean(e: Expr, s: Scope)
    decreases e
  {
    match e
    case Const(_) => true
    case Name(_) => true
    case Not(a) => Boolean(a, s)
    case And(es) => AllBoolean(es, s) && 0 <= Eval(e, s) <= 1
    case Or(es) => AllBoolean(es, s) && 0 <= Eval(e, s) <= 1
    case If(t, a, b) => Boolean(t, s) && Boolean(a, s) && Boolean(b, s)
    case Op(_, es) => AllBoolean(es, s)
  }

  predicate AllBoolean(es: seq<Expr>, s: Scope)
    decreases es
  {
    es != [] ==> Boolean(es[0], s) && AllBoolean(es[1..], s)
  }

  lemma {:induction false} AndValues(es: seq<Expr>, s: Scope)
    requires es != []
    ensures EvalAnd(es, s) == 0 <==> 0 in EvalAll(es, s)
    decreases |es|
  {
    if |es| > 1 {
      AndValues(es[1..], s);
    } else {
      assert es[1..] == [];
    }
  }

  lemma {:induction false} OrValues(es: seq<Expr>, s: Scope)
    requires es != []
    ensures EvalOr(es, s) == 0 <==> AllZero(EvalAll(es, s))
    decreases |es|
  {
    assert EvalAll(es, s)[1..] == EvalAll(es[1..], s);
    if |es| > 1 {
      OrValues(es[1..], s);
    } else {
      assert es[1..] == [];
    }
  }

  lemma {:induction false} MacroAllValues(es: seq<Expr>, s: Scope)
    requires AllBoolean(es, s) && AllParsed(es)
    ensures MacroAll(es, s) == EvalAll(es, s)
    decreases es
  {
    if es != [] {
      MacroValue(es[0], s);
      MacroAllValues(es[1..], s);
    }
  }

  /** A connective over such operands has the same value in the macro as for the resolver exactly
      when that value is 0 or 1. */
  lemma ConnectiveExact(e: Expr, s: Scope)
    requires (e.And? || e.Or?) && e.args != [] && AllBoolean(e.args, s) && AllParsed(e.args)
    ensures MacroEval(e, s) == Eval(e, s) <==> 0 <= Eval(e, s) <= 1
    decreases e, 0
  {
    MacroAllValues(e.args, s);
    AndValues(e.args, s);
    OrValues(e.args, s);
  }

  /** If all connectives come to 0 or 1, the macro's value is the resolver's. */
  lemma {:induction false} MacroValue(e: Expr, s: Scope)
    requires Boolean(e, s) && Parsed(e)
    ensures MacroEval(e, s) == Eval(e, s)
    decreases e, 1
  {
    match e
    case Const(_) =>
    case Name(_) =>
    case Not(a) => MacroValue(a, s);
    case And(es) => ConnectiveExact(e, s);
    case Or(es) => ConnectiveExact(e, s);
    case If(t, a, b) => MacroValue(t, s); MacroValue(a, s); MacroValue(b, s);
    case Op(_, es) => MacroAllValues(es, s);
  }
}
