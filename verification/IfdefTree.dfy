// The header generator's conditional output: a configuration expression becomes a tree of ifdef
// blocks around defines, and the preprocessor that reads it must end up with what the resolver
// computes.
module IfdefTree {
  import opened Basics
  import opened ConfigExpr
  import ConfigLocals

  /** What a define gives a macro: nothing, or an expression. */
  datatype Def = Flag | Value(e: Expr)

  datatype Line = Ifdef(id: string) | Ifndef(id: string) | Else | Endif | Define(key: string, def: Def)

  datatype Res = Ok(lines: seq<Line>) | Bad

  // ----- the preprocessor -----

  /** Macros defined, open conditionals (innermost last) and the defines executed so far. */
  datatype Pre = Pre(defs: map<string, Def>, stack: seq<bool>, log: seq<(string, Def)>)

  predicate Active(stack: seq<bool>) {
    false !in stack
  }

  function Write(p: Pre, key: string, def: Def): Pre {
    p.(defs := p.defs[key := def], log := p.log + [(key, def)])
  }

  function ExecLine(l: Line, p: Pre): Option<Pre> {
    match l
    case Ifdef(x) => Some(p.(stack := p.stack + [x in p.defs]))
    case Ifndef(x) => Some(p.(stack := p.stack + [x !in p.defs]))
    case Else =>
      if p.stack == [] then None
      else var n := |p.stack| - 1; Some(p.(stack := p.stack[..n] + [!p.stack[n]]))
    case Endif => if p.stack == [] then None else Some(p.(stack := p.stack[..|p.stack| - 1]))
    case Define(k, d) => Some(if Active(p.stack) then Write(p, k, d) else p)
  }

  function Exec(ls: seq<Line>, p: Pre): Option<Pre>
    decreases |ls|
  {
    if ls == [] then Some(p)
    else match ExecLine(ls[0], p) case None => None case Some(q) => Exec(ls[1..], q)
  }

  function WriteAll(p: Pre, ws: seq<(string, Def)>): Pre
    decreases |ws|
  {
    if ws == [] then p else WriteAll(Write(p, ws[0].0, ws[0].1), ws[1..])
  }

  ghost predicate LastWrite(ws: seq<(string, Def)>, k: string, i: nat) {
    i < |ws| && ws[i].0 == k && forall j | i < j < |ws| :: ws[j].0 != k
  }

  lemma {:induction false} WritesLogged(p: Pre, ws: seq<(string, Def)>)
    ensures WriteAll(p, ws).log == p.log + ws && WriteAll(p, ws).stack == p.stack
    decreases |ws|
  {
    if ws != [] {
      WritesLogged(Write(p, ws[0].0, ws[0].1), ws[1..]);
    }
  }

  /** A macro is what the last define for it says, and one without any stays as it was. */
  lemma {:induction false} WritesLast(p: Pre, ws: seq<(string, Def)>, k: string, i: int)
    requires -1 <= i < |ws| && (i >= 0 ==> LastWrite(ws, k, i)) && (i == -1 ==> forall j | 0 <= j < |ws| :: ws[j].0 != k)
    ensures var d, was := WriteAll(p, ws).defs, p.defs;
      if i >= 0 then k in d && d[k] == ws[i].1 else (k in d <==> k in was) && (k in was ==> d[k] == was[k])
    decreases |ws|
  {
    if ws != [] {
      WritesLast(Write(p, ws[0].0, ws[0].1), ws[1..], k, if i > 0 then i - 1 else -1);
    }
  }

  // ----- emission -----

  function Cond(l: Line, yes: Res, no: Res): Res {
    if yes.Bad? || no.Bad? then Bad else Ok([l] + yes.lines + [Else] + no.lines + [Endif])
  }

  function EmitTest(test: Expr, yes: Res, no: Res): Res
    decreases test
  {
    match test
    case Name(x) => Cond(Ifdef(x), yes, no)
    case Not(Name(x)) => Cond(Ifndef(x), yes, no)
    case And(es) => EmitAnd(es, yes, no)
    case Or(es) => EmitOr(es, yes, no)
    case _ => Bad
  }

  function EmitAnd(es: seq<Expr>, yes: Res, no: Res): Res
    decreases es
  {
    if es == [] then yes else EmitTest(es[0], EmitAnd(es[1..], yes, no), no)
  }

  function EmitOr(es: seq<Expr>, yes: Res, no: Res): Res
    decreases es
  {
    if es == [] then no else EmitTest(es[0], yes, EmitOr(es[1..], yes, no))
  }

  const OPERATORS: nat := 24

  /** Expressions the macro translator accepts: no conditional inside, known operators only. */
  predicate Translatable(e: Expr)
    decreases e
  {
    match e
    case Const(_) => true
    case Name(_) => true
    case Not(a) => Translatable(a)
    case And(es) => AllTranslatable(es)
    case Or(es) => AllTranslatable(es)
    case If(_, _, _) => false
    case Op(op, es) => op < OPERATORS && AllTranslatable(es)
  }

  predicate AllTranslatable(es: seq<Expr>)
    decreases es
  {
    es != [] ==> Translatable(es[0]) && AllTranslatable(es[1..])
  }

  /** The expression and all inside it. */
  ghost function Parts(e: Expr): set<Expr>
    decreases e
  {
    {e} + match e
          case Const(_) => {}
          case Name(_) => {}
          case Not(a) => Parts(a)
          case And(es) => PartsAll(es)
          case Or(es) => PartsAll(es)
          case If(t, a, b) => Parts(t) + Parts(a) + Parts(b)
          case Op(_, es) => PartsAll(es)
  }

  ghost function PartsAll(es: seq<Expr>): set<Expr>
    decreases es
  {
    if es == [] then {} else Parts(es[0]) + PartsAll(es[1..])
  }

  ghost predicate Plainly(e: Expr) { !e.If? && (e.Op? ==> e.op < OPERATORS) }

  ghost predicate AllPlain(es: set<Expr>) { forall x | x in es :: Plainly(x) }

  lemma PlainBoth(a: set<Expr>, b: set<Expr>)
    ensures AllPlain(a + b) <==> AllPlain(a) && AllPlain(b)
  {
  }

  lemma PlainHere(e: Expr, rest: set<Expr>)
    requires Parts(e) == {e} + rest
    ensures AllPlain(Parts(e)) <==> Plainly(e) && AllPlain(rest)
  {
    PlainBoth({e}, rest);
    assert e in {e};
  }

  /** So it is: nowhere in the expression a conditional or an unknown operator. */
  lemma {:induction false} TranslatableExact(e: Expr)
    ensures Translatable(e) <==> AllPlain(Parts(e))
    decreases e
  {
    match e {
      case Const(_) => PlainHere(e, {});
      case Name(_) => PlainHere(e, {});
      case Not(a) =>
        PlainHere(e, Parts(a));
        TranslatableExact(a);
      case And(es) =>
        PlainHere(e, PartsAll(es));
        AllTranslatableExact(es);
      case Or(es) =>
        PlainHere(e, PartsAll(es));
        AllTranslatableExact(es);
      case If(t, a, b) => PlainHere(e, Parts(t) + Parts(a) + Parts(b));
      case Op(_, es) =>
        PlainHere(e, PartsAll(es));
        AllTranslatableExact(es);
    }
  }

  lemma {:induction false} AllTranslatableExact(es: seq<Expr>)
    ensures AllTranslatable(es) <==> AllPlain(PartsAll(es))
    decreases es
  {
    if es != [] {
      PlainBoth(Parts(es[0]), PartsAll(es[1..]));
      TranslatableExact(es[0]);
      AllTranslatableExact(es[1..]);
    }
  }

  /** The names of the flags that spell an enumeration's values. */
  datatype Kind = Plain | Enum(flag: int -> string)

  function EmitValue(key: string, e: Expr, kind: Kind): Res {
    match kind
    case Enum(flag) => if e.Const? then Ok([Define(key, Value(e)), Define(flag(e.value), Flag)]) else Bad
    case Plain => if Translatable(e) then Ok([Define(key, Value(e))]) else Bad
  }

  function EmitTree(key: string, e: Expr, kind: Kind): Res
    decreases e
  {
    if e.If? then EmitTest(e.test, EmitTree(key, e.body, kind), EmitTree(key, e.orelse, kind))
    else EmitValue(key, e, kind)
  }

  // ----- what is accepted -----

  /** Flags, negated flags, and conjunctions and disjunctions of tests. */
  predicate FlagTest(e: Expr)
    decreases e
  {
    match e
    case Name(_) => true
    case Not(a) => a.Name?
    case And(es) => AllFlagTests(es)
    case Or(es) => AllFlagTests(es)
    case _ => false
  }

  predicate AllFlagTests(es: seq<Expr>)
    decreases es
  {
    es != [] ==> FlagTest(es[0]) && AllFlagTests(es[1..])
  }

  predicate Accepted(e: Expr, kind: Kind)
    decreases e
  {
    if e.If? then FlagTest(e.test) && Accepted(e.body, kind) && Accepted(e.orelse, kind)
    else if kind.Enum? then e.Const?
    else Translatable(e)
  }

  lemma {:induction false} TestAccepted(test: Expr, yes: Res, no: Res)
    requires Parsed(test)
    ensures EmitTest(test, yes, no).Ok? <==> FlagTest(test) && yes.Ok? && no.Ok?
    decreases test
  {
    match test
    case And(es) => AndAccepted(es, yes, no);
    case Or(es) => OrAccepted(es, yes, no);
    case _ =>
  }

  lemma {:induction false} AndAccepted(es: seq<Expr>, yes: Res, no: Res)
    requires AllParsed(es)
    ensures EmitAnd(es, yes, no).Ok? <==> AllFlagTests(es) && yes.Ok? && (es == [] || no.Ok?)
    decreases es
  {
    if es != [] {
      AndAccepted(es[1..], yes, no);
      TestAccepted(es[0], EmitAnd(es[1..], yes, no), no);
    }
  }

  lemma {:induction false} OrAccepted(es: seq<Expr>, yes: Res, no: Res)
    requires AllParsed(es)
    ensures EmitOr(es, yes, no).Ok? <==> AllFlagTests(es) && no.Ok? && (es == [] || yes.Ok?)
    decreases es
  {
    if es != [] {
      OrAccepted(es[1..], yes, no);
      TestAccepted(es[0], yes, EmitOr(es[1..], yes, no));
    }
  }

  /** Emission fails exactly outside the grammar. */
  lemma {:induction false} TreeAccepted(key: string, e: Expr, kind: Kind)
    requires Parsed(e)
    ensures EmitTree(key, e, kind).Ok? <==> Accepted(e, kind)
    decreases e
  {
    if e.If? {
      TreeAccepted(key, e.body, kind);
      TreeAccepted(key, e.orelse, kind);
      TestAccepted(e.test, EmitTree(key, e.body, kind), EmitTree(key, e.orelse, kind));
    }
  }

  // ----- what is emitted does -----

  lemma {:induction false} ExecConcat(a: seq<Line>, b: seq<Line>, p: Pre)
    ensures Exec(a + b, p) == match Exec(a, p) case None => None case Some(q) => Exec(b, q)
    decreases |a|
  {
    if a == [] {
      assert a + b == b;
    } else {
      assert (a + b)[1..] == a[1..] + b;
      match ExecLine(a[0], p) {
        case None =>
        case Some(q) => ExecConcat(a[1..], b, q);
      }
    }
  }

  lemma ExecOne(l: Line, p: Pre)
    ensures Exec([l], p) == ExecLine(l, p)
  {
    assert [l][1..] == [];
  }

  /** Inside a block that is not active the lines do nothing. */
  ghost predicate Skips(ls: seq<Line>) {
    forall p: Pre {:trigger Exec(ls, p)} | !Active(p.stack) :: Exec(ls, p) == Some(p)
  }

  /** Where the macros are `d`, the lines execute exactly the defines `ws`. */
  ghost predicate Does(ls: seq<Line>, d: map<string, Def>, ws: seq<(string, Def)>) {
    forall p: Pre {:trigger Exec(ls, p)} | Active(p.stack) && p.defs == d :: Exec(ls, p) == Some(WriteAll(p, ws))
  }

  lemma {:induction false} WriteStack(p: Pre, ws: seq<(string, Def)>, stack: seq<bool>)
    ensures WriteAll(p, ws).stack == p.stack
    ensures WriteAll(p.(stack := stack), ws) == WriteAll(p, ws).(stack := stack)
    decreases |ws|
  {
    if ws != [] {
      WriteStack(Write(p, ws[0].0, ws[0].1), ws[1..], stack);
    }
  }

  predicate Opens(l: Line, d: map<string, Def>)
    requires l.Ifdef? || l.Ifndef?
  {
    if l.Ifdef? then l.id in d else l.id !in d
  }

  /** A conditional block, line by line. */
  lemma ExecCond(l: Line, yes: seq<Line>, no: seq<Line>, p: Pre)
    requires l.Ifdef? || l.Ifndef?
    ensures Exec([l] + yes + [Else] + no + [Endif], p)
      == match Exec(yes, p.(stack := p.stack + [Opens(l, p.defs)])) {
           case None => None
           case Some(q) => match ExecLine(Else, q) {
             case None => None
             case Some(r) => match Exec(no, r) {
               case None => None
               case Some(t) => ExecLine(Endif, t)
             }
           }
         }
  {
    ExecConcat([l] + yes + [Else] + no, [Endif], p);
    ExecConcat([l] + yes + [Else], no, p);
    ExecConcat([l] + yes, [Else], p);
    ExecConcat([l], yes, p);
    ExecOne(l, p);
    match Exec(yes, p.(stack := p.stack + [Opens(l, p.defs)])) {
      case None =>
      case Some(q) =>
        ExecOne(Else, q);
        match ExecLine(Else, q) {
          case None =>
          case Some(r) =>
            match Exec(no, r) {
              case None =>
              case Some(t) => ExecOne(Endif, t);
            }
        }
    }
  }

  lemma CondSkips(l: Line, yes: seq<Line>, no: seq<Line>)
    requires (l.Ifdef? || l.Ifndef?) && Skips(yes) && Skips(no)
    ensures Skips([l] + yes + [Else] + no + [Endif])
  {
    var ls := [l] + yes + [Else] + no + [Endif];
    forall p: Pre | !Active(p.stack) ensures Exec(ls, p) == Some(p) {
      ExecCond(l, yes, no, p);
      var b := Opens(l, p.defs);
      assert (p.stack + [b])[..|p.stack|] == p.stack && (p.stack + [!b])[..|p.stack|] == p.stack;
      assert Exec(yes, p.(stack := p.stack + [b])) == Some(p.(stack := p.stack + [b]));
      assert Exec(no, p.(stack := p.stack + [!b])) == Some(p.(stack := p.stack + [!b]));
    }
  }

  /** A conditional block executes one of its branches and skips the other. */
  lemma CondDoes(l: Line, yes: seq<Line>, no: seq<Line>, d: map<string, Def>, ws: seq<(string, Def)>)
    requires (l.Ifdef? || l.Ifndef?) && Skips(yes) && Skips(no)
    requires if Opens(l, d) then Does(yes, d, ws) else Does(no, d, ws)
    ensures Does([l] + yes + [Else] + no + [Endif], d, ws)
  {
    var ls := [l] + yes + [Else] + no + [Endif];
    forall p: Pre | Active(p.stack) && p.defs == d ensures Exec(ls, p) == Some(WriteAll(p, ws)) {
      ExecCond(l, yes, no, p);
      var on, off := p.(stack := p.stack + [true]), p.(stack := p.stack + [false]);
      assert on.stack[..|p.stack|] == p.stack && off.stack[..|p.stack|] == p.stack;
      WriteStack(p, ws, on.stack);
      WriteStack(p, ws, off.stack);
      WriteStack(p, ws, p.stack);
      if Opens(l, d) {
        assert Exec(yes, on) == Some(WriteAll(on, ws));
        var r := WriteAll(p, ws).(stack := off.stack);
        assert Exec(no, r) == Some(r);
      } else {
        assert Exec(yes, off) == Some(off);
        assert Exec(no, on) == Some(WriteAll(on, ws));
      }
    }
  }

  /** What a test comes to when a flag is true just when it is defined. */
  predicate Holds(test: Expr, d: map<string, Def>)
    decreases test
  {
    match test
    case Name(x) => x in d
    case Not(Name(x)) => x !in d
    case And(es) => AllHold(es, d)
    case Or(es) => SomeHolds(es, d)
    case _ => false
  }

  predicate AllHold(es: seq<Expr>, d: map<string, Def>)
    decreases es
  {
    es != [] ==> Holds(es[0], d) && AllHold(es[1..], d)
  }

  predicate SomeHolds(es: seq<Expr>, d: map<string, Def>)
    decreases es
  {
    es != [] && (Holds(es[0], d) || SomeHolds(es[1..], d))
  }

  /** Either the lines are no lines, or they skip and do as they should. */
  ghost predicate Means(r: Res, d: map<string, Def>, ws: seq<(string, Def)>) {
    r.Ok? ==> Skips(r.lines) && Does(r.lines, d, ws)
  }

  lemma CondMeans(l: Line, yes: Res, no: Res, d: map<string, Def>, wy: seq<(string, Def)>, wn: seq<(string, Def)>)
    requires (l.Ifdef? || l.Ifndef?) && Means(yes, d, wy) && Means(no, d, wn)
    ensures Means(Cond(l, yes, no), d, if Opens(l, d) then wy else wn)
  {
    if yes.Ok? && no.Ok? {
      CondSkips(l, yes.lines, no.lines);
      CondDoes(l, yes.lines, no.lines, d, if Opens(l, d) then wy else wn);
    }
  }

  lemma {:induction false} TestMeans(test: Expr, yes: Res, no: Res, d: map<string, Def>, wy: seq<(string, Def)>, wn: seq<(string, Def)>)
    requires Means(yes, d, wy) && Means(no, d, wn)
    ensures Means(EmitTest(test, yes, no), d, if Holds(test, d) then wy else wn)
    decreases test
  {
    match test
    case Name(x) => CondMeans(Ifdef(x), yes, no, d, wy, wn);
    case Not(Name(x)) => CondMeans(Ifndef(x), yes, no, d, wy, wn);
    case And(es) => AndMeans(es, yes, no, d, wy, wn);
    case Or(es) => OrMeans(es, yes, no, d, wy, wn);
    case _ =>
  }

  lemma {:induction false} AndMeans(es: seq<Expr>, yes: Res, no: Res, d: map<string, Def>, wy: seq<(string, Def)>, wn: seq<(string, Def)>)
    requires Means(yes, d, wy) && Means(no, d, wn)
    ensures Means(EmitAnd(es, yes, no), d, if AllHold(es, d) then wy else wn)
    decreases es
  {
    if es != [] {
      AndMeans(es[1..], yes, no, d, wy, wn);
      TestMeans(es[0], EmitAnd(es[1..], yes, no), no, d, if AllHold(es[1..], d) then wy else wn, wn);
    }
  }

  lemma {:induction false} OrMeans(es: seq<Expr>, yes: Res, no: Res, d: map<string, Def>, wy: seq<(string, Def)>, wn: seq<(string, Def)>)
    requires Means(yes, d, wy) && Means(no, d, wn)
    ensures Means(EmitOr(es, yes, no), d, if SomeHolds(es, d) then wy else wn)
    decreases es
  {
    if es != [] {
      OrMeans(es[1..], yes, no, d, wy, wn);
      TestMeans(es[0], yes, EmitOr(es[1..], yes, no), d, wy, if SomeHolds(es[1..], d) then wy else wn);
    }
  }

  // ----- agreement with the resolver -----

  /** A flag is defined exactly when the resolver finds it true. */
  ghost predicate Faithful(d: map<string, Def>, s: Scope, names: set<string>) {
    forall x | x in names :: x in d <==> ValueOf(s, x) != 0
  }

  lemma {:induction false} HoldsIsEval(test: Expr, d: map<string, Def>, s: Scope)
    requires FlagTest(test) && Parsed(test) && Faithful(d, s, Names(test))
    ensures Holds(test, d) <==> Eval(test, s) != 0
    decreases test
  {
    match test
    case Name(_) =>
    case Not(Name(x)) => assert Names(Name(x)) == {x};
    case And(es) => AllHoldIsEval(es, d, s);
    case Or(es) => SomeHoldsIsEval(es, d, s);
  }

  lemma {:induction false} AllHoldIsEval(es: seq<Expr>, d: map<string, Def>, s: Scope)
    requires AllFlagTests(es) && AllParsed(es) && Faithful(d, s, NamesAll(es))
    ensures AllHold(es, d) <==> EvalAnd(es, s) != 0
    decreases es
  {
    if es != [] {
      HoldsIsEval(es[0], d, s);
      AllHoldIsEval(es[1..], d, s);
    }
  }

  lemma {:induction false} SomeHoldsIsEval(es: seq<Expr>, d: map<string, Def>, s: Scope)
    requires AllFlagTests(es) && AllParsed(es) && Faithful(d, s, NamesAll(es))
    ensures SomeHolds(es, d) <==> EvalOr(es, s) != 0
    decreases es
  {
    if es != [] {
      HoldsIsEval(es[0], d, s);
      SomeHoldsIsEval(es[1..], d, s);
    }
  }

  /** The branch the resolver picks out of nested conditionals. */
  function Pick(e: Expr, s: Scope): Expr
    decreases e
  {
    if e.If? then if Eval(e.test, s) != 0 then Pick(e.body, s) else Pick(e.orelse, s) else e
  }

  lemma {:induction false} PickEval(e: Expr, s: Scope)
    ensures Eval(Pick(e, s), s) == Eval(e, s)
    decreases e
  {
    if e.If? {
      PickEval(e.body, s);
      PickEval(e.orelse, s);
    }
  }

  function TestNames(e: Expr): set<string>
    decreases e
  {
    if e.If? then Names(e.test) + TestNames(e.body) + TestNames(e.orelse) else {}
  }

  /** The defines of one branch. */
  function Writes(key: string, e: Expr, kind: Kind): seq<(string, Def)> {
    if kind.Enum? && e.Const? then [(key, Value(e)), (kind.flag(e.value), Flag)] else [(key, Value(e))]
  }

  lemma ValueMeans(key: string, e: Expr, kind: Kind, d: map<string, Def>)
    ensures Means(EmitValue(key, e, kind), d, Writes(key, e, kind))
  {
    var r, ws := EmitValue(key, e, kind), Writes(key, e, kind);
    if r.Ok? {
      var a := r.lines[0];
      forall p: Pre ensures Exec(r.lines, p) == Some(if Active(p.stack) then WriteAll(p, ws) else p) {
        if kind.Plain? {
          ExecOne(a, p);
          WriteOne(p, ws[0]);
        } else {
          assert r.lines == [a] + [r.lines[1]];
          ExecConcat([a], [r.lines[1]], p);
          ExecOne(a, p);
          ExecOne(r.lines[1], ExecLine(a, p).value);
          WriteTwo(p, ws[0], ws[1]);
        }
      }
    }
  }

  lemma WriteOne(p: Pre, w: (string, Def))
    ensures WriteAll(p, [w]) == Write(p, w.0, w.1)
  {
    assert [w][1..] == [];
  }

  lemma WriteTwo(p: Pre, v: (string, Def), w: (string, Def))
    ensures WriteAll(p, [v, w]) == Write(Write(p, v.0, v.1), w.0, w.1)
  {
    assert [v, w][1..] == [w];
    WriteOne(Write(p, v.0, v.1), w);
  }

  /** The emitted tree executes the defines of exactly one branch, the one the resolver picks. */
  lemma {:induction false} TreeMeans(key: string, e: Expr, kind: Kind, d: map<string, Def>, s: Scope)
    requires Parsed(e) && Faithful(d, s, TestNames(e))
    ensures Means(EmitTree(key, e, kind), d, Writes(key, Pick(e, s), kind))
    decreases e
  {
    if e.If? {
      TreeMeans(key, e.body, kind, d, s);
      TreeMeans(key, e.orelse, kind, d, s);
      var yes, no := EmitTree(key, e.body, kind), EmitTree(key, e.orelse, kind);
      TestMeans(e.test, yes, no, d, Writes(key, Pick(e.body, s), kind), Writes(key, Pick(e.orelse, s), kind));
      TestAccepted(e.test, yes, no);
      if FlagTest(e.test) {
        HoldsIsEval(e.test, d, s);
      }
    } else {
      ValueMeans(key, e, kind, d);
    }
  }

  lemma {:induction false} PickParsed(e: Expr, s: Scope)
    requires Parsed(e)
    ensures Parsed(Pick(e, s))
    decreases e
  {
    if e.If? {
      PickParsed(e.body, s);
      PickParsed(e.orelse, s);
    }
  }

  /** From a configuration entry with private names to the preprocessor's result: one define of the
      key is executed, and its expression has the value the resolver gives the entry.  So has the
      macro, if the connectives in that expression come to 0 or 1. */
  lemma EmittedIsResolved(raw: map<string, Expr>, cache: map<string, Expr>, rank: map<string, nat>, s: Scope, t: Scope,
                          key: string, e: Expr, p: Pre)
    requires ConfigLocals.Resolved(raw, cache, rank) && cache.Keys == raw.Keys && ConfigLocals.Consistent(raw, s, t)
    requires var tree := Subst(e, cache); Parsed(tree) && Accepted(tree, Plain) && Faithful(p.defs, s, TestNames(tree))
    requires Active(p.stack)
    ensures EmitTree(key, Subst(e, cache), Plain).Ok?
    ensures var leaf := Pick(Subst(e, cache), s);
      && Exec(EmitTree(key, Subst(e, cache), Plain).lines, p) == Some(Write(p, key, Value(leaf)))
      && Eval(leaf, s) == Eval(e, t) && (Boolean(leaf, s) ==> MacroEval(leaf, s) == Eval(e, t))
  {
    var tree := Subst(e, cache);
    TreeAccepted(key, tree, Plain);
    TreeMeans(key, tree, Plain, p.defs, s);
    PickEval(tree, s);
    PickParsed(tree, s);
    if Boolean(Pick(tree, s), s) {
      MacroValue(Pick(tree, s), s);
    }
    ConfigLocals.InliningPreserves(raw, cache, rank, s, t, e);
    var ws := Writes(key, Pick(tree, s), Plain);
    WriteOne(p, ws[0]);
    assert Exec(EmitTree(key, tree, Plain).lines, p) == Some(WriteAll(p, ws));
  }

  // ----- a whole key -----

  function Guard(x: string, body: Res): Res {
    if body.Bad? then Bad else Ok([Ifndef(x)] + body.lines + [Endif])
  }

  lemma GuardMeans(x: string, body: Res, d: map<string, Def>, ws: seq<(string, Def)>)
    requires Means(body, d, ws)
    ensures Means(Guard(x, body), d, if x in d then [] else ws)
  {
    if body.Ok? {
      var ls, w := Guard(x, body).lines, if x in d then [] else ws;
      forall p: Pre ensures !Active(p.stack) ==> Exec(ls, p) == Some(p)
        ensures Active(p.stack) && p.defs == d ==> Exec(ls, p) == Some(WriteAll(p, w))
      {
        var b := x !in p.defs;
        var q := p.(stack := p.stack + [b]);
        assert q.stack[..|p.stack|] == p.stack;
        ExecConcat([Ifndef(x)] + body.lines, [Endif], p);
        ExecConcat([Ifndef(x)], body.lines, p);
        ExecOne(Ifndef(x), p);
        ExecOne(Endif, q);
        WriteStack(p, ws, q.stack);
        WriteStack(p, ws, p.stack);
        ExecOne(Endif, WriteAll(q, ws));
      }
    }
  }

  predicate PureFlagTest(e: Expr) {
    !e.Name? && FlagTest(e)
  }

  /** The lines for a key given by an expression; `disable` is the guard of an `_ENABLE` key. */
  function EmitKey(key: string, e: Expr, disable: Option<string>): Res {
    var flag := Ok([Define(key, Flag)]);
    var body :=
      if e.Name? && disable.Some? then Ok([Ifdef(e.id), Define(key, Flag), Endif])
      else if PureFlagTest(e) then EmitTest(e, flag, Ok([]))
      else EmitTree(key, e, Plain);
    var inner := Guard(key, body);
    if disable.Some? then Guard(disable.value, inner) else inner
  }

  /** Keys whose macro is a flag: defined or not, without a value. */
  predicate FlagKey(e: Expr, disable: Option<string>) { (e.Name? && disable.Some?) || PureFlagTest(e) }

  /** The names whose definedness the lines of a key look at. */
  function Tested(e: Expr, disable: Option<string>): set<string> {
    if FlagKey(e, disable) then Names(e) else TestNames(e)
  }

  /** What it defines, as the resolver sees the expression. */
  function KeyWrites(key: string, e: Expr, disable: Option<string>, s: Scope): seq<(string, Def)> {
    if FlagKey(e, disable) then if Eval(e, s) != 0 then [(key, Flag)] else []
    else [(key, Value(Pick(e, s)))]
  }

  lemma FlagMeans(key: string, d: map<string, Def>)
    ensures Means(Ok([Define(key, Flag)]), d, [(key, Flag)]) && Means(Ok([]), d, [])
  {
    forall p: Pre ensures Exec([Define(key, Flag)], p) == Some(if Active(p.stack) then WriteAll(p, [(key, Flag)]) else p) {
      ExecOne(Define(key, Flag), p);
      assert [(key, Flag)][1..] == [];
    }
  }

  lemma AliasMeans(key: string, x: string, d: map<string, Def>)
    ensures Means(Ok([Ifdef(x), Define(key, Flag), Endif]), d, if x in d then [(key, Flag)] else [])
  {
    var ls, ws := [Ifdef(x), Define(key, Flag), Endif], if x in d then [(key, Flag)] else [];
    assert [(key, Flag)][1..] == [];
    forall p: Pre ensures !Active(p.stack) ==> Exec(ls, p) == Some(p)
      ensures Active(p.stack) && p.defs == d ==> Exec(ls, p) == Some(WriteAll(p, ws))
    {
      var q := p.(stack := p.stack + [x in p.defs]);
      assert q.stack[..|p.stack|] == p.stack;
      assert ls == [Ifdef(x)] + [Define(key, Flag)] + [Endif];
      ExecConcat([Ifdef(x)] + [Define(key, Flag)], [Endif], p);
      ExecConcat([Ifdef(x)], [Define(key, Flag)], p);
      ExecOne(Ifdef(x), p);
      ExecOne(Define(key, Flag), q);
      ExecOne(Endif, ExecLine(Define(key, Flag), q).value);
    }
  }

  /** A key already defined, or disabled, is left alone; any other gets what the resolver computes. */
  lemma KeyMeans(key: string, e: Expr, disable: Option<string>, d: map<string, Def>, s: Scope)
    requires Parsed(e) && Faithful(d, s, Tested(e, disable))
    ensures Means(EmitKey(key, e, disable), d,
                  if key in d || (disable.Some? && disable.value in d) then [] else KeyWrites(key, e, disable, s))
  {
    var ws := KeyWrites(key, e, disable, s);
    var body: Res;
    if e.Name? && disable.Some? {
      AliasMeans(key, e.id, d);
      body := Ok([Ifdef(e.id), Define(key, Flag), Endif]);
    } else if PureFlagTest(e) {
      FlagMeans(key, d);
      TestMeans(e, Ok([Define(key, Flag)]), Ok([]), d, [(key, Flag)], []);
      HoldsIsEval(e, d, s);
      body := EmitTest(e, Ok([Define(key, Flag)]), Ok([]));
    } else {
      TreeMeans(key, e, Plain, d, s);
      body := EmitTree(key, e, Plain);
    }
    GuardMeans(key, body, d, ws);
    if disable.Some? {
      GuardMeans(disable.value, Guard(key, body), d, if key in d then [] else ws);
    }
  }

  /** An `_ENABLE` key comes out defined exactly when the resolver finds it true, except that a
      conditional or arithmetic expression defines it even when its value is zero. */
  lemma EnableExact(key: string, e: Expr, disable: string, s: Scope, p: Pre)
    requires Parsed(e) && EmitKey(key, e, Some(disable)).Ok? && Active(p.stack)
    requires Faithful(p.defs, s, Tested(e, Some(disable)))
    requires key !in p.defs && disable !in p.defs
    ensures Exec(EmitKey(key, e, Some(disable)).lines, p).Some?
    ensures (key in Exec(EmitKey(key, e, Some(disable)).lines, p).value.defs <==> Eval(e, s) != 0)
      <==> (FlagTest(e) || Eval(e, s) != 0)
  {
    KeyMeans(key, e, Some(disable), p.defs, s);
    var ws := KeyWrites(key, e, Some(disable), s);
    assert Exec(EmitKey(key, e, Some(disable)).lines, p) == Some(WriteAll(p, ws));
    if ws != [] {
      WriteOne(p, ws[0]);
    }
  }

  /** Such a key: the expression is the literal zero, and yet the macro is defined. */
  lemma EnableZero()
    ensures var r := EmitKey("X_ENABLE", Const(0), Some("X_DISABLE"));
      && r.Ok?
      && Exec(r.lines, Pre(map[], [], [])) == Some(Write(Pre(map[], [], []), "X_ENABLE", Value(Const(0))))
  {
    var s, p := Scope(_ => 0, (_, _) => 0), Pre(map[], [], []);
    KeyMeans("X_ENABLE", Const(0), Some("X_DISABLE"), p.defs, s);
    WriteOne(p, ("X_ENABLE", Value(Const(0))));
    assert Exec(EmitKey("X_ENABLE", Const(0), Some("X_DISABLE")).lines, p)
        == Some(WriteAll(p, KeyWrites("X_ENABLE", Const(0), Some("X_DISABLE"), s)));
  }
}
