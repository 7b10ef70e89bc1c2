// The private (lowercase) names of a configuration: each is replaced by its expression with the
// private names in it replaced in turn. The walk memoises what it has done and reports a cycle.
module ConfigLocals {
  import opened ConfigExpr

  datatype Result<T> = Ok(value: T) | Cycle(key: string)

  /** The private names that the expression of `key` mentions. */
  function Refs(raw: map<string, Expr>, key: string): set<string>
    requires key in raw
  {
    Names(raw[key]) * raw.Keys
  }

  /** A path of references. */
  ghost predicate Chain(raw: map<string, Expr>, path: seq<string>) {
    && (forall i | 0 <= i < |path| :: path[i] in raw)
    && forall i, j | 0 <= i < |path| && i + 1 == j < |path| :: path[j] in Refs(raw, path[i])
  }

  ghost predicate IsCycle(raw: map<string, Expr>, path: seq<string>) {
    |path| >= 2 && Chain(raw, path) && path[0] == path[|path| - 1]
  }

  ghost predicate Cyclic(raw: map<string, Expr>) {
    exists path :: IsCycle(raw, path)
  }

  /** The finished name `k`: its references are finished, earlier, and substituted. */
  ghost predicate Entry(raw: map<string, Expr>, cache: map<string, Expr>, rank: map<string, nat>, k: string) {
    && k in raw && k in cache && k in rank
    && Refs(raw, k) <= cache.Keys && cache[k] == Subst(raw[k], cache)
    && forall x | x in Refs(raw, k) && x in rank :: rank[x] < rank[k]
  }

  /** The cache holds the fully substituted expressions of the finished names, and `rank` the order
      in which they were finished: each after those it refers to. */
  ghost predicate Resolved(raw: map<string, Expr>, cache: map<string, Expr>, rank: map<string, nat>) {
    && cache.Keys <= raw.Keys && cache.Keys == rank.Keys
    && forall k {:trigger Entry(raw, cache, rank, k)} | k in cache :: Entry(raw, cache, rank, k)
  }

  // ----- what a finished cache means -----

  lemma {:induction false} Descends(raw: map<string, Expr>, cache: map<string, Expr>, rank: map<string, nat>, path: seq<string>, n: nat)
    requires Resolved(raw, cache, rank) && Chain(raw, path) && n < |path| && path[0] in cache
    ensures path[n] in rank && rank[path[n]] <= rank[path[0]] - n
    decreases n
  {
    if n > 0 {
      Descends(raw, cache, rank, path, n - 1);
      assert Entry(raw, cache, rank, path[n - 1]);
      assert path[n] in Refs(raw, path[n - 1]);
    }
  }

  /** Once every private name is resolved there is no cycle among them. */
  lemma ResolvedAcyclic(raw: map<string, Expr>, cache: map<string, Expr>, rank: map<string, nat>)
    requires Resolved(raw, cache, rank) && cache.Keys == raw.Keys
    ensures !Cyclic(raw)
  {
    forall path | IsCycle(raw, path) ensures false {
      assert path[0] in cache;
      Descends(raw, cache, rank, path, |path| - 1);
    }
  }

  /** `t` values every private name as its own expression, and every other name as `s` does: what
      the resolver computes. */
  ghost predicate Consistent(raw: map<string, Expr>, s: Scope, t: Scope) {
    && t.operate == s.operate
    && (forall x | x !in raw :: ValueOf(t, x) == ValueOf(s, x))
    && forall k | k in raw :: ValueOf(t, k) == Eval(raw[k], t)
  }

  /** The resolver's value of a private name is that of its substituted expression. */
  lemma {:induction false} LocalValue(raw: map<string, Expr>, cache: map<string, Expr>, rank: map<string, nat>, s: Scope, t: Scope, k: string)
    requires Resolved(raw, cache, rank) && cache.Keys == raw.Keys && Consistent(raw, s, t) && k in raw
    ensures ValueOf(t, k) == Eval(cache[k], s)
    decreases rank[k]
  {
    assert Entry(raw, cache, rank, k);
    forall x | x in Names(raw[k]) ensures ValueOf(t, x) == if x in cache then Eval(cache[x], s) else ValueOf(s, x) {
      if x in raw {
        assert x in Refs(raw, k);
        LocalValue(raw, cache, rank, s, t, x);
      }
    }
    SubstEval(raw[k], cache, s, t);
  }

  /** Inlining preserves meaning: evaluating the inlined expression, where no private name has a
      value, gives what the resolver computes for the original. */
  lemma InliningPreserves(raw: map<string, Expr>, cache: map<string, Expr>, rank: map<string, nat>, s: Scope, t: Scope, e: Expr)
    requires Resolved(raw, cache, rank) && cache.Keys == raw.Keys && Consistent(raw, s, t)
    ensures Eval(Subst(e, cache), s) == Eval(e, t)
  {
    forall x | x in Names(e) ensures ValueOf(t, x) == if x in cache then Eval(cache[x], s) else ValueOf(s, x) {
      if x in raw {
        LocalValue(raw, cache, rank, s, t, x);
      }
    }
    SubstEval(e, cache, s, t);
  }

  function WithLocals(cache: map<string, Expr>, s: Scope): Scope {
    Scope(x => if x in cache then Eval(cache[x], s) else ValueOf(s, x), s.operate)
  }

  /** Such a valuation exists whenever the names resolve. */
  lemma LocalsHaveValues(raw: map<string, Expr>, cache: map<string, Expr>, rank: map<string, nat>, s: Scope)
    requires Resolved(raw, cache, rank) && cache.Keys == raw.Keys
    ensures Consistent(raw, s, WithLocals(cache, s))
  {
    var t := WithLocals(cache, s);
    forall k | k in raw ensures ValueOf(t, k) == Eval(raw[k], t) {
      assert Entry(raw, cache, rank, k);
      SubstEval(raw[k], cache, s, t);
    }
  }

  /** No private name is left in an inlined expression. */
  lemma {:induction false} InlinedIsPublic(e: Expr, cache: map<string, Expr>, locals: set<string>)
    requires Names(e) * locals <= cache.Keys
    requires forall k | k in Names(e) && k in cache :: Names(cache[k]) !! locals
    ensures Names(Subst(e, cache)) !! locals
    decreases e
  {
    match e
    case Const(_) =>
    case Name(x) =>
    case Not(a) => InlinedIsPublic(a, cache, locals);
    case And(es) => InlinedArePublic(es, cache, locals);
    case Or(es) => InlinedArePublic(es, cache, locals);
    case If(t, a, b) =>
      InlinedIsPublic(t, cache, locals);
      InlinedIsPublic(a, cache, locals);
      InlinedIsPublic(b, cache, locals);
    case Op(_, es) => InlinedArePublic(es, cache, locals);
  }

  lemma {:induction false} InlinedArePublic(es: seq<Expr>, cache: map<string, Expr>, locals: set<string>)
    requires NamesAll(es) * locals <= cache.Keys
    requires forall k | k in NamesAll(es) && k in cache :: Names(cache[k]) !! locals
    ensures NamesAll(SubstAll(es, cache)) !! locals
    decreases es
  {
    if es != [] {
      InlinedIsPublic(es[0], cache, locals);
      InlinedArePublic(es[1..], cache, locals);
      assert SubstAll(es, cache)[1..] == SubstAll(es[1..], cache);
    }
  }

  lemma {:induction false} CacheIsPublic(raw: map<string, Expr>, cache: map<string, Expr>, rank: map<string, nat>, k: string)
    requires Resolved(raw, cache, rank) && k in cache
    ensures Names(cache[k]) !! raw.Keys
    decreases rank[k]
  {
    assert Entry(raw, cache, rank, k);
    forall x | x in Names(raw[k]) && x in cache ensures Names(cache[x]) !! raw.Keys {
      assert x in Refs(raw, k);
      CacheIsPublic(raw, cache, rank, x);
    }
    assert Names(raw[k]) * raw.Keys == Refs(raw, k);
    InlinedIsPublic(raw[k], cache, raw.Keys);
  }

  /** Inlining leaves no private name behind. */
  lemma NoPrivateNameLeft(raw: map<string, Expr>, cache: map<string, Expr>, rank: map<string, nat>, e: Expr)
    requires Resolved(raw, cache, rank) && cache.Keys == raw.Keys
    ensures Names(Subst(e, cache)) !! raw.Keys
  {
    forall k | k in Names(e) && k in cache ensures Names(cache[k]) !! raw.Keys {
      CacheIsPublic(raw, cache, rank, k);
    }
    InlinedIsPublic(e, cache, raw.Keys);
  }

  // ----- the walk -----

  lemma SubstGrown(e: Expr, raw: map<string, Expr>, c: map<string, Expr>, d: map<string, Expr>)
    requires c.Keys <= d.Keys <= raw.Keys && Names(e) * raw.Keys <= c.Keys
    requires forall k | k in c :: c[k] == d[k]
    ensures Subst(e, c) == Subst(e, d)
  {
    forall x | x in Names(e) ensures (x in c <==> x in d) && (x in c ==> c[x] == d[x]) {
      if x in d {
        assert x in Names(e) * raw.Keys;
      }
    }
    SubstFrame(e, c, d);
  }

  ghost predicate Below(rank: map<string, nat>, top: nat) {
    forall k | k in rank :: rank[k] < top
  }

  lemma ResolvedAdd(raw: map<string, Expr>, cache: map<string, Expr>, rank: map<string, nat>, key: string, top: nat)
    requires Resolved(raw, cache, rank) && Below(rank, top)
    requires key in raw && key !in cache && Refs(raw, key) <= cache.Keys
    ensures Resolved(raw, cache[key := Subst(raw[key], cache)], rank[key := top])
    ensures Below(rank[key := top], top + 1)
  {
    var d, rank' := cache[key := Subst(raw[key], cache)], rank[key := top];
    forall k | k in d ensures Entry(raw, d, rank', k) {
      if k != key {
        assert Entry(raw, cache, rank, k);
      }
      SubstGrown(raw[k], raw, cache, d);
    }
  }

  lemma ChainPush(raw: map<string, Expr>, stack: seq<string>, key: string)
    requires Chain(raw, stack) && key in raw && (stack != [] ==> key in Refs(raw, stack[|stack| - 1]))
    ensures Chain(raw, stack + [key])
  {}

  lemma CycleFound(raw: map<string, Expr>, stack: seq<string>, key: string)
    requires Chain(raw, stack) && key in stack && key in Refs(raw, stack[|stack| - 1])
    ensures Cyclic(raw)
  {
    var j :| 0 <= j < |stack| && stack[j] == key;
    ChainPush(raw, stack, key);
    var path := (stack + [key])[j..];
    assert IsCycle(raw, path);
  }

  class LocalBuilder {
    const raw: map<string, Expr>
    var cache: map<string, Expr>
    var visiting: set<string>
    ghost var rank: map<string, nat>
    ghost var top: nat

    ghost predicate Valid()
      reads this
    {
      Resolved(raw, cache, rank) && Below(rank, top) && visiting <= raw.Keys && visiting !! cache.Keys
    }

    /** The names being visited, in the order in which they lead to one another. */
    ghost predicate Stacked(stack: seq<string>)
      reads this
    {
      Chain(raw, stack) && forall x | x in visiting :: x in stack
    }

    ghost predicate Grown(before: map<string, Expr>)
      reads this
    {
      before.Keys <= cache.Keys && forall k | k in before :: cache[k] == before[k]
    }

    constructor (raw: map<string, Expr>)
      ensures Valid() && this.raw == raw && cache == map[] && visiting == {}
    {
      this.raw := raw;
      cache, visiting, rank, top := map[], {}, map[], 0;
    }

    method Resolve(key: string, ghost stack: seq<string>) returns (r: Result<Expr>)
      requires Valid() && Stacked(stack) && key in raw
      requires stack != [] ==> key in Refs(raw, stack[|stack| - 1])
      modifies this
      ensures r.Ok? ==> Valid() && visiting == old(visiting) && Grown(old(cache)) && key in cache && r.value == cache[key]
      ensures r.Cycle? ==> Cyclic(raw)
      decreases raw.Keys - visiting, 0
    {
      if key in cache {
        return Ok(cache[key]);
      }
      if key in visiting {
        CycleFound(raw, stack, key);
        return Cycle(key);
      }
      ghost var before := visiting;
      visiting := visiting + {key};
      ghost var deeper := stack + [key];
      ChainPush(raw, stack, key);
      var node := Visit(raw[key], key, deeper);
      if node.Cycle? {
        return Cycle(node.key);
      }
      ResolvedAdd(raw, cache, rank, key, top);
      cache, rank, top := cache[key := node.value], rank[key := top], top + 1;
      visiting := visiting - {key};
      assert visiting == before;
      return node;
    }

    /** Replaces the private names of an expression that occurs in that of `key`. */
    method Visit(e: Expr, ghost key: string, ghost stack: seq<string>) returns (r: Result<Expr>)
      requires Valid() && Stacked(stack) && stack != [] && stack[|stack| - 1] == key && Names(e) <= Names(raw[key])
      modifies this
      ensures r.Ok? ==> Valid() && visiting == old(visiting) && Grown(old(cache))
      ensures r.Ok? ==> Names(e) * raw.Keys <= cache.Keys && r.value == Subst(e, cache)
      ensures r.Cycle? ==> Cyclic(raw)
      decreases raw.Keys - visiting, 1, e
    {
      match e {
        case Const(_) => return Ok(e);
        case Name(x) =>
          if x in raw {
            r := Resolve(x, stack);
            return;
          }
          return Ok(e);
        case Not(a) =>
          r := Visit(a, key, stack);
          if r.Ok? {
            r := Ok(Not(r.value));
          }
        case And(es) =>
          var rs := VisitAll(es, key, stack);
          r := if rs.Ok? then Ok(And(rs.value)) else Cycle(rs.key);
        case Or(es) =>
          var rs := VisitAll(es, key, stack);
          r := if rs.Ok? then Ok(Or(rs.value)) else Cycle(rs.key);
        case Op(op, es) =>
          var rs := VisitAll(es, key, stack);
          r := if rs.Ok? then Ok(Op(op, rs.value)) else Cycle(rs.key);
        case If(t, a, b) =>
          var x := Visit(t, key, stack);
          if x.Cycle? {
            return x;
          }
          ghost var between := cache;
          var y, z := VisitTwo(a, b, e, key, stack);
          if y.Cycle? || z.Cycle? {
            return if y.Cycle? then y else z;
          }
          SubstGrown(t, raw, between, cache);
          return Ok(If(x.value, y.value, z.value));
      }
    }

    method VisitTwo(a: Expr, b: Expr, ghost e: Expr, ghost key: string, ghost stack: seq<string>)
      returns (y: Result<Expr>, z: Result<Expr>)
      requires Valid() && Stacked(stack) && stack != [] && stack[|stack| - 1] == key
      requires Names(a) <= Names(raw[key]) && Names(b) <= Names(raw[key]) && a < e && b < e
      modifies this
      ensures y.Ok? && z.Ok? ==> Valid() && visiting == old(visiting) && Grown(old(cache))
      ensures y.Ok? && z.Ok? ==> Names(a) * raw.Keys <= cache.Keys && y.value == Subst(a, cache)
      ensures y.Ok? && z.Ok? ==> Names(b) * raw.Keys <= cache.Keys && z.value == Subst(b, cache)
      ensures y.Cycle? || z.Cycle? ==> Cyclic(raw)
      decreases raw.Keys - visiting, 1, e, 0
    {
      y := Visit(a, key, stack);
      if y.Cycle? {
        return y, y;
      }
      ghost var between := cache;
      z := Visit(b, key, stack);
      if z.Ok? {
        SubstGrown(a, raw, between, cache);
      }
    }

    method VisitAll(es: seq<Expr>, ghost key: string, ghost stack: seq<string>) returns (r: Result<seq<Expr>>)
      requires Valid() && Stacked(stack) && stack != [] && stack[|stack| - 1] == key && NamesAll(es) <= Names(raw[key])
      modifies this
      ensures r.Ok? ==> Valid() && visiting == old(visiting) && Grown(old(cache))
      ensures r.Ok? ==> NamesAll(es) * raw.Keys <= cache.Keys && r.value == SubstAll(es, cache)
      ensures r.Cycle? ==> Cyclic(raw)
      decreases raw.Keys - visiting, 1, es
    {
      if es == [] {
        return Ok([]);
      }
      var first := Visit(es[0], key, stack);
      if first.Cycle? {
        return Cycle(first.key);
      }
      ghost var between := cache;
      var rest := VisitAll(es[1..], key, stack);
      if rest.Cycle? {
        return rest;
      }
      SubstGrown(es[0], raw, between, cache);
      return Ok([first.value] + rest.value);
    }

    /** Resolves every private name: succeeds exactly when there is no cycle among them. */
    method Build(keys: seq<string>) returns (r: Result<map<string, Expr>>)
      requires Valid() && visiting == {} && (forall x :: x in keys <==> x in raw)
      modifies this
      ensures r.Ok? ==> Resolved(raw, r.value, rank) && r.value.Keys == raw.Keys && !Cyclic(raw)
      ensures r.Cycle? ==> Cyclic(raw)
    {
      for i := 0 to |keys|
        invariant Valid() && visiting == {} && forall x | x in keys[..i] :: x in cache
      {
        assert keys[i] in raw;
        var node := Resolve(keys[i], []);
        if node.Cycle? {
          return Cycle(node.key);
        }
      }
      assert cache.Keys == raw.Keys;
      ResolvedAcyclic(raw, cache, rank);
      return Ok(cache);
    }
  }
}
