// A whole generated header: the keys in layout order, each emitted under its guards. The flags that
// a key tests come from outside or from keys before it, so that the preprocessor, reading from top
// to bottom, sees each of them as the resolver does.
module ConfigHeader {
  import opened Basics
  import opened ConfigExpr
  import opened IfdefTree

  /** A key with its expression, private names already inlined; an `_ENABLE` key has a guard. */
  datatype Entry = Entry(key: string, e: Expr, disable: Option<string>)

  function HeaderLines(es: seq<Entry>): Res
    decreases |es|
  {
    if es == [] then Ok([])
    else
      var first, rest := EmitKey(es[0].key, es[0].e, es[0].disable), HeaderLines(es[1..]);
      if first.Bad? || rest.Bad? then Bad else Ok(first.lines + rest.lines)
  }

  /** `x` is not written for by any of these keys, nor is it a guard of theirs. */
  ghost predicate Apart(es: seq<Entry>, x: string) {
    forall i | 0 <= i < |es| :: es[i].key != x && es[i].disable != Some(x)
  }

  /** Keys are distinct, and each tests only names in `known`: flags from outside and flag keys
      before it. */
  ghost predicate Ordered(es: seq<Entry>, known: set<string>)
    decreases |es|
  {
    es != [] ==>
      var n := es[0];
      && Parsed(n.e) && Tested(n.e, n.disable) <= known && n.key !in known && n.disable != Some(n.key)
      && Apart(es[1..], n.key)
      && Ordered(es[1..], if FlagKey(n.e, n.disable) then known + {n.key} else known)
  }

  predicate Preset(n: Entry, d: map<string, Def>) { n.key in d }

  predicate Disabled(n: Entry, d: map<string, Def>) { n.disable.Some? && n.disable.value in d }

  /** The resolver's value of a key, by what is defined before the header: an override is true, a
      disabled key is false, any other is what its expression says. */
  ghost predicate Agrees(n: Entry, d: map<string, Def>, s: Scope) {
    if Preset(n, d) then ValueOf(s, n.key) != 0
    else if Disabled(n, d) then ValueOf(s, n.key) == 0
    else ValueOf(s, n.key) != 0 <==> Eval(n.e, s) != 0
  }

  /** What the header must have made of a key, `d` being defined before it and `after` after it. */
  ghost predicate Realised(n: Entry, d: map<string, Def>, after: map<string, Def>, s: Scope) {
    if Preset(n, d) then n.key in after && after[n.key] == d[n.key]
    else if Disabled(n, d) then n.key !in after
    else if FlagKey(n.e, n.disable) then n.key in after <==> ValueOf(s, n.key) != 0
    else n.key in after && after[n.key].Value? && Eval(after[n.key].e, s) == Eval(n.e, s)
  }

  ghost predicate SameAt(d: map<string, Def>, after: map<string, Def>, x: string) {
    (x in d <==> x in after) && (x in d ==> d[x] == after[x])
  }

  /** One key: only its own macro may change, and it comes out as it must. */
  lemma EntryMeans(n: Entry, known: set<string>, s: Scope, p: Pre)
    requires Active(p.stack) && Parsed(n.e) && Tested(n.e, n.disable) <= known && Faithful(p.defs, s, known)
    requires Agrees(n, p.defs, s) && EmitKey(n.key, n.e, n.disable).Ok?
    ensures Exec(EmitKey(n.key, n.e, n.disable).lines, p).Some?
    ensures var q := Exec(EmitKey(n.key, n.e, n.disable).lines, p).value;
      q.stack == p.stack && Realised(n, p.defs, q.defs, s) && forall x | x != n.key :: SameAt(p.defs, q.defs, x)
  {
    KeyMeans(n.key, n.e, n.disable, p.defs, s);
    var ws := if Preset(n, p.defs) || Disabled(n, p.defs) then [] else KeyWrites(n.key, n.e, n.disable, s);
    assert Exec(EmitKey(n.key, n.e, n.disable).lines, p) == Some(WriteAll(p, ws));
    if ws != [] {
      WriteOne(p, ws[0]);
    }
    PickEval(n.e, s);
  }

  lemma AgreesLater(es: seq<Entry>, d: map<string, Def>, after: map<string, Def>, x: string, s: Scope)
    requires Apart(es, x) && (forall y | y != x :: SameAt(d, after, y))
    requires forall i | 0 <= i < |es| :: Agrees(es[i], d, s)
    ensures forall i | 0 <= i < |es| :: Agrees(es[i], after, s)
    ensures forall i | 0 <= i < |es| :: Preset(es[i], d) == Preset(es[i], after) && Disabled(es[i], d) == Disabled(es[i], after)
  {
    forall i | 0 <= i < |es|
      ensures Preset(es[i], d) == Preset(es[i], after) && Disabled(es[i], d) == Disabled(es[i], after)
    {
      assert es[i].key != x && es[i].disable != Some(x);
      assert SameAt(d, after, es[i].key);
      if es[i].disable.Some? {
        assert SameAt(d, after, es[i].disable.value);
      }
    }
  }

  /** A whole header, read from top to bottom: every key comes out as the resolver has it, its flags
      are defined exactly when true, and no other macro changes. */
  lemma {:induction false} HeaderMeans(es: seq<Entry>, known: set<string>, s: Scope, p: Pre)
    requires Active(p.stack) && Ordered(es, known) && Faithful(p.defs, s, known) && HeaderLines(es).Ok?
    requires forall i | 0 <= i < |es| :: Agrees(es[i], p.defs, s)
    ensures Exec(HeaderLines(es).lines, p).Some?
    ensures var q := Exec(HeaderLines(es).lines, p).value;
      && q.stack == p.stack && Faithful(q.defs, s, known)
      && (forall i | 0 <= i < |es| && FlagKey(es[i].e, es[i].disable) :: es[i].key in q.defs <==> ValueOf(s, es[i].key) != 0)
      && (forall i | 0 <= i < |es| :: Realised(es[i], p.defs, q.defs, s))
      && forall x | Apart(es, x) :: SameAt(p.defs, q.defs, x)
    decreases |es|
  {
    if es != [] {
      var n, rest := es[0], es[1..];
      var first := EmitKey(n.key, n.e, n.disable).lines;
      EntryMeans(n, known, s, p);
      var p1 := Exec(first, p).value;
      var known1 := if FlagKey(n.e, n.disable) then known + {n.key} else known;
      AgreesLater(rest, p.defs, p1.defs, n.key, s);
      forall x | x in known1 ensures x in p1.defs <==> ValueOf(s, x) != 0 {
        if x != n.key {
          assert SameAt(p.defs, p1.defs, x);
        }
      }
      HeaderMeans(rest, known1, s, p1);
      ExecConcat(first, HeaderLines(rest).lines, p);
      HeaderStep(es, s, p, p1, Exec(HeaderLines(rest).lines, p1).value);
    }
  }

  /** The later keys leave the first one alone. */
  lemma HeaderStep(es: seq<Entry>, s: Scope, p: Pre, p1: Pre, q: Pre)
    requires es != [] && Apart(es[1..], es[0].key) && Realised(es[0], p.defs, p1.defs, s)
    requires forall x | x != es[0].key :: SameAt(p.defs, p1.defs, x)
    requires forall x | Apart(es[1..], x) :: SameAt(p1.defs, q.defs, x)
    requires forall i | 0 <= i < |es[1..]| :: Realised(es[1..][i], p1.defs, q.defs, s)
    ensures forall i | 0 <= i < |es| :: Realised(es[i], p.defs, q.defs, s)
    ensures forall x | Apart(es, x) :: SameAt(p.defs, q.defs, x)
  {
    var n, rest := es[0], es[1..];
    assert SameAt(p1.defs, q.defs, n.key);
    forall i | 0 <= i < |es| ensures Realised(es[i], p.defs, q.defs, s) {
      if i > 0 {
        assert es[i] == rest[i - 1];
        assert Realised(rest[i - 1], p1.defs, q.defs, s);
        assert rest[i - 1].key != n.key && rest[i - 1].disable != Some(n.key);
        assert SameAt(p.defs, p1.defs, es[i].key);
        if es[i].disable.Some? {
          assert SameAt(p.defs, p1.defs, es[i].disable.value);
        }
      }
    }
    forall x | Apart(es, x) ensures SameAt(p.defs, q.defs, x) {
      assert es[0].key != x;
      forall i | 0 <= i < |rest| ensures rest[i].key != x && rest[i].disable != Some(x) {
        assert rest[i] == es[i + 1];
      }
      assert Apart(rest, x);
      assert SameAt(p.defs, p1.defs, x) && SameAt(p1.defs, q.defs, x);
    }
  }
}
