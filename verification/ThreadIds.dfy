/** Thread ids of a CTA: the dispatcher advances a 3-D index by carry propagation, the CSR read
    adds the lane.  Both agree with the mixed-radix digits of the linear thread number. */
module ThreadIds {
  import opened Basics

  datatype Dim3 = Dim3(x: nat, y: nat, z: nat)

  predicate DimOk(d: Dim3) { d.x > 0 && d.y > 0 }

  /** The digits of `n` in radices `d.x`, `d.y`; the last one is unbounded. */
  function Digits(n: nat, d: Dim3): Dim3
    requires DimOk(d)
  {
    Dim3(n % d.x, n / d.x % d.y, n / d.x / d.y)
  }

  /** Additive delta with carry, as `next_warp` does it. */
  function Advance(t: Dim3, step: Dim3, d: Dim3): Dim3 {
    var nx := t.x + step.x;
    var cx := nx >= d.x;
    var ny := t.y + step.y + (if cx then 1 else 0);
    var cy := ny >= d.y;
    Dim3(if cx then nx - d.x else nx,
         if cy then ny - d.y else ny,
         t.z + step.z + (if cy then 1 else 0))
  }

  /** The three thread-id CSRs of a lane. */
  function CsrId(t: Dim3, lane: nat, d: Dim3): Dim3
    requires DimOk(d)
  {
    var x := t.x + lane;
    var y := t.y + x / d.x;
    Dim3(x % d.x, y % d.y, t.z + y / d.y)
  }

  // ----- carries add -----

  /** Adding with a carry in, in one radix. */
  lemma CarryAdd(a: nat, b: nat, c: nat, d: nat)
    requires d > 0 && c <= 1
    ensures var s := a % d + b % d + c;
      if s >= d then (a + b + c) % d == s - d && (a + b + c) / d == a / d + b / d + 1
      else (a + b + c) % d == s && (a + b + c) / d == a / d + b / d
  {
    Euclid(a, d);
    Euclid(b, d);
    CarryAddParts(a / d, a % d, b / d, b % d, c, d);
  }

  lemma CarryAddParts(qa: nat, ra: nat, qb: nat, rb: nat, c: nat, d: nat)
    requires ra < d && rb < d && c <= 1
    ensures var n, s := (qa * d + ra) + (qb * d + rb) + c, ra + rb + c;
      if s >= d then n % d == s - d && n / d == qa + qb + 1 else n % d == s && n / d == qa + qb
  {
    var n, s := (qa * d + ra) + (qb * d + rb) + c, ra + rb + c;
    MulAdd(qa, qb, d);
    if s >= d {
      MulAdd(qa + qb, 1, d);
      Quotient(n, d, qa + qb + 1, s - d);
    } else {
      Quotient(n, d, qa + qb, s);
    }
  }

  /** Splitting off the low digit of the first summand. */
  lemma LowAdd(a: nat, b: nat, d: nat)
    requires d > 0
    ensures (a % d + b) % d == (a + b) % d && a / d + (a % d + b) / d == (a + b) / d
  {
    var s := a % d + b;
    Euclid(a, d);
    Euclid(s, d);
    MulAdd(a / d, s / d, d);
    Quotient(a + b, d, a / d + s / d, s % d);
  }

  /** The carry step is addition of digits. */
  lemma AdvanceAdds(n: nat, m: nat, d: Dim3)
    requires DimOk(d)
    ensures Advance(Digits(n, d), Digits(m, d), d) == Digits(n + m, d)
  {
    CarryAdd(n, m, 0, d.x);
    var c := if n % d.x + m % d.x >= d.x then 1 else 0;
    CarryAdd(n / d.x, m / d.x, c, d.y);
  }

  /** Reading the CSRs of a lane adds the lane number. */
  lemma CsrAdds(n: nat, lane: nat, d: Dim3)
    requires DimOk(d)
    ensures CsrId(Digits(n, d), lane, d) == Digits(n + lane, d)
  {
    LowAdd(n, lane, d.x);
    LowAdd(n / d.x, (n % d.x + lane) / d.x, d.y);
  }

  // ----- ranks and lanes enumerate the block -----

  /** The index the dispatcher holds when it hands out rank `r`. */
  function IndexAt(r: nat, step: Dim3, d: Dim3): Dim3 {
    if r == 0 then Dim3(0, 0, 0) else Advance(IndexAt(r - 1, step, d), step, d)
  }

  function ThreadId(r: nat, lane: nat, step: Dim3, d: Dim3): Dim3
    requires DimOk(d)
  {
    CsrId(IndexAt(r, step, d), lane, d)
  }

  function Warps(blockSize: nat, nt: nat): nat
    requires nt > 0
  {
    (blockSize + nt - 1) / nt
  }

  function Active(r: nat, blockSize: nat, nt: nat): nat {
    if r * nt >= blockSize then 0 else if blockSize - r * nt >= nt then nt else blockSize - r * nt
  }

  lemma {:induction false} IndexIsDigits(r: nat, nt: nat, d: Dim3)
    requires DimOk(d)
    ensures IndexAt(r, Digits(nt, d), d) == Digits(r * nt, d)
  {
    if r == 0 {
      Quotient(0, d.x, 0, 0);
      Quotient(0, d.y, 0, 0);
    } else {
      IndexIsDigits(r - 1, nt, d);
      AdvanceAdds((r - 1) * nt, nt, d);
      MulAdd(r - 1, 1, nt);
    }
  }

  /** The thread id read by a lane is the digits of its linear thread number. */
  lemma ThreadIdIsDigits(r: nat, lane: nat, nt: nat, d: Dim3)
    requires DimOk(d)
    ensures ThreadId(r, lane, Digits(nt, d), d) == Digits(r * nt + lane, d)
  {
    IndexIsDigits(r, nt, d);
    CsrAdds(r * nt, lane, d);
  }

  predicate InBlock(t: Dim3, d: Dim3) { t.x < d.x && t.y < d.y && t.z < d.z }

  function Volume(d: Dim3): nat { d.z * d.y * d.x }

  function Value(t: Dim3, d: Dim3): nat { (t.z * d.y + t.y) * d.x + t.x }

  lemma DigitsValue(n: nat, d: Dim3)
    requires DimOk(d)
    ensures Value(Digits(n, d), d) == n
  {
    Euclid(n, d.x);
    Euclid(n / d.x, d.y);
  }

  lemma ValueDigits(t: Dim3, d: Dim3)
    requires DimOk(d) && t.x < d.x && t.y < d.y
    ensures Digits(Value(t, d), d) == t
  {
    Quotient(Value(t, d), d.x, t.z * d.y + t.y, t.x);
    Quotient(t.z * d.y + t.y, d.y, t.z, t.y);
  }

  lemma BelowProduct(q: nat, r: nat, d: nat, n: nat)
    requires r < d
    ensures q * d + r < n * d <==> q < n
  {
    if q < n {
      MulNext(q, n, d);
    } else {
      MulMono(n, q, d);
    }
  }

  /** A thread number is below the block volume exactly when its digits are in the block. */
  lemma InBlockIff(n: nat, d: Dim3)
    requires DimOk(d)
    ensures InBlock(Digits(n, d), d) <==> n < Volume(d)
  {
    Euclid(n, d.x);
    Euclid(n / d.x, d.y);
    BelowProduct(n / d.x, n % d.x, d.x, d.z * d.y);
    BelowProduct(n / d.x / d.y, n / d.x % d.y, d.y, d.z);
  }

  /** Rank and lane of a thread number. */
  lemma RankLane(n: nat, bs: nat, nt: nat)
    requires nt > 0 && n < bs
    ensures n / nt < Warps(bs, nt) && n % nt < Active(n / nt, bs, nt) && (n / nt) * nt + n % nt == n
  {
    Euclid(n, nt);
    Euclid(bs + nt - 1, nt);
    BelowProduct(n / nt, n % nt, nt, Warps(bs, nt));
  }

  /** A rank is one of the block's warps exactly when it has a thread. */
  lemma WarpsExact(r: nat, bs: nat, nt: nat)
    requires nt > 0
    ensures r < Warps(bs, nt) <==> Active(r, bs, nt) > 0
  {
    var n := Warps(bs, nt);
    Euclid(bs + nt - 1, nt);
    if r < n {
      MulMono(r + 1, n, nt);
      MulAdd(r, 1, nt);
    } else {
      MulMono(n, r, nt);
    }
  }

  lemma ActiveBelow(r: nat, lane: nat, bs: nat, nt: nat)
    requires nt > 0 && lane < Active(r, bs, nt)
    ensures lane < nt && r * nt + lane < bs
  {
  }

  /** Every active lane of every rank reads an id inside the block, no two read the same, and
      every id of the block is read. */
  lemma ThreadIdsBijective(nt: nat, d: Dim3)
    requires nt > 0 && DimOk(d)
    ensures var bs, step := Volume(d), Digits(nt, d);
      && (forall r: nat, l: nat | l < Active(r, bs, nt) :: InBlock(ThreadId(r, l, step, d), d))
      && (forall r: nat, l: nat, r': nat, l': nat | l < Active(r, bs, nt) && l' < Active(r', bs, nt)
            && ThreadId(r, l, step, d) == ThreadId(r', l', step, d) :: r == r' && l == l')
      && (forall t: Dim3 | InBlock(t, d) :: exists r: nat, l: nat ::
            r < Warps(bs, nt) && l < Active(r, bs, nt) && ThreadId(r, l, step, d) == t)
  {
    var bs, step := Volume(d), Digits(nt, d);
    forall r: nat, l: nat | l < Active(r, bs, nt) ensures InBlock(ThreadId(r, l, step, d), d) {
      ActiveBelow(r, l, bs, nt);
      ThreadIdIsDigits(r, l, nt, d);
      InBlockIff(r * nt + l, d);
    }
    forall r: nat, l: nat, r': nat, l': nat | l < Active(r, bs, nt) && l' < Active(r', bs, nt)
      && ThreadId(r, l, step, d) == ThreadId(r', l', step, d) ensures r == r' && l == l'
    {
      ThreadIdInjective(r, l, r', l', nt, d);
    }
    forall t: Dim3 | InBlock(t, d)
      ensures exists r: nat, l: nat :: r < Warps(bs, nt) && l < Active(r, bs, nt) && ThreadId(r, l, step, d) == t
    {
      ThreadIdSurjective(t, nt, d);
    }
  }

  lemma DigitsInjective(n: nat, m: nat, d: Dim3)
    requires DimOk(d) && Digits(n, d) == Digits(m, d)
    ensures n == m
  {
    DigitsValue(n, d);
    DigitsValue(m, d);
  }

  lemma ThreadIdInjective(r: nat, l: nat, r': nat, l': nat, nt: nat, d: Dim3)
    requires nt > 0 && DimOk(d) && l < nt && l' < nt
    requires ThreadId(r, l, Digits(nt, d), d) == ThreadId(r', l', Digits(nt, d), d)
    ensures r == r' && l == l'
  {
    ThreadIdIsDigits(r, l, nt, d);
    ThreadIdIsDigits(r', l', nt, d);
    DigitsInjective(r * nt + l, r' * nt + l', d);
    SameQuotient(nt, r, l, r', l');
  }

  lemma ThreadIdSurjective(t: Dim3, nt: nat, d: Dim3)
    requires nt > 0 && DimOk(d) && InBlock(t, d)
    ensures exists r: nat, l: nat ::
      r < Warps(Volume(d), nt) && l < Active(r, Volume(d), nt) && ThreadId(r, l, Digits(nt, d), d) == t
  {
    var n := Value(t, d);
    ValueDigits(t, d);
    InBlockIff(n, d);
    RankLane(n, Volume(d), nt);
    ThreadIdIsDigits(n / nt, n % nt, nt, d);
  }
}
