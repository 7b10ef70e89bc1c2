/** The CTA dispatcher as a value: slots with remaining-warp counts, the CTA being handed out
    rank by rank, and the CTA waiting for admission. */
module CtaModel {
  import opened Basics
  import opened ThreadIds

  const U32: nat := 0x1_0000_0000

  /** Core parameters; `block` is the memory block size. */
  datatype Config = Config(threads: nat, warps: nat, lmemBase: nat, lmemCap: nat, block: nat)

  ghost predicate ConfigOk(c: Config) { c.threads > 0 && c.warps > 0 && c.block > 0 }

  /** What the kernel management unit hands over for one CTA. */
  datatype Cta = Cta(pc: nat, lmemSize: nat, blockSize: nat, blockDim: Dim3, warpStep: Dim3, clusterDim: Dim3, first: bool)

  datatype Warp = Warp(doInit: bool, slot: nat, rank: nat, size: nat, tid: Dim3, active: nat, lmemAddr: nat)

  datatype State = State(
    rem: seq<nat>,         // warps a slot's CTA still has to finish; free when zero
    slotOf: seq<nat>,      // slot of a warp, or the warp count when it has none
    tail: nat,
    has: bool, cur: nat, cta: Cta, size: nat, rank: nat, left: nat, tid: Dim3, lmemAddr: nat,
    pending: Option<Cta>,
    pc: nat, inited: seq<bool>)

  // ----- admission -----

  /** Slot pitch: the local-memory size rounded up to a block, in 32-bit arithmetic. */
  function Stride(c: Config, lmemSize: nat): nat
    requires c.block > 0
  {
    var blocks: nat := (lmemSize + c.block - 1) % U32 / c.block;
    MulMono(0, blocks, c.block);
    blocks * c.block
  }

  function Usable(c: Config, stride: nat): nat {
    if stride == 0 then c.warps
    else
      var fit := c.lmemCap / stride;
      var n := if fit > c.warps then c.warps else fit;
      if n == 0 then 1 else n
  }

  function ClusterSize(a: Cta): nat {
    var k := a.clusterDim.x * a.clusterDim.y * a.clusterDim.z;
    if k == 0 then 1 else k
  }

  function Slots(c: Config, a: Cta): nat
    requires c.block > 0
  {
    Usable(c, Stride(c, a.lmemSize))
  }

  /** Where the pending CTA wants to start: the tail, or slot 0 when a cluster would not fit. */
  function Base(tail: nat, max: nat, a: Cta): nat {
    if a.first && tail + ClusterSize(a) > max then 0 else tail
  }

  function Window(max: nat, a: Cta): nat {
    if !a.first then 1 else if ClusterSize(a) > max then max else ClusterSize(a)
  }

  predicate WindowFree(rem: seq<nat>, base: nat, k: nat)
    requires base + k <= |rem|
  {
    forall i | base <= i < base + k :: rem[i] == 0
  }

  /** Tail after the check that a smaller kernel did not leave it out of range. */
  function Tail(tail: nat, max: nat): nat { if tail >= max then 0 else tail }

  ghost predicate Shape(c: Config, s: State) {
    && ConfigOk(c) && |s.rem| == c.warps && |s.slotOf| == c.warps && |s.inited| == c.warps
    && (forall w | 0 <= w < c.warps :: s.slotOf[w] <= c.warps)
    && (s.has ==> s.cur < c.warps && s.rank < s.size)
  }

  lemma WindowFits(c: Config, tail: nat, a: Cta)
    requires ConfigOk(c)
    ensures var max := Slots(c, a);
      0 < max <= c.warps && Base(Tail(tail, max), max, a) + Window(max, a) <= max
  {
  }

  predicate Admits(c: Config, s: State, a: Cta)
    requires ConfigOk(c) && |s.rem| == c.warps
  {
    WindowFits(c, s.tail, a);
    var max := Slots(c, a);
    WindowFree(s.rem, Base(Tail(s.tail, max), max, a), Window(max, a))
  }

  function Accept(c: Config, s: State, a: Cta): State
    requires ConfigOk(c) && |s.rem| == c.warps
  {
    WindowFits(c, s.tail, a);
    var max := Slots(c, a);
    var base := Base(Tail(s.tail, max), max, a);
    var size := Warps(a.blockSize, c.threads);
    s.(rem := s.rem[base := size], tail := (base + 1) % max,
       has := true, cur := base, cta := a, size := size, rank := 0, left := a.blockSize, tid := Dim3(0, 0, 0),
       lmemAddr := c.lmemBase + base * Stride(c, a.lmemSize),
       pending := None, pc := a.pc, inited := if a.pc != s.pc then seq(c.warps, _ => false) else s.inited)
  }

  // ----- handing out warps -----

  function FreeWarp(active: seq<bool>, from: nat): nat
    requires from <= |active|
    decreases |active| - from
  {
    if from == |active| || !active[from] then from else FreeWarp(active, from + 1)
  }

  function Dispatch(c: Config, s: State, w: nat): (State, Warp)
    requires Shape(c, s) && s.has && w < c.warps
  {
    var n := if s.left >= c.threads then c.threads else s.left;
    (s.(slotOf := s.slotOf[w := s.cur], inited := s.inited[w := true], rank := s.rank + 1, left := s.left - n,
        tid := Advance(s.tid, s.cta.warpStep, s.cta.blockDim), has := s.rank + 1 < s.size),
     Warp(!s.inited[w], s.cur, s.rank, s.size, s.tid, n, s.lmemAddr))
  }

  /** The part of `step` that admits a CTA: `next` is what the management unit would deliver. */
  function Load(c: Config, s: State, next: Option<Cta>): State
    requires ConfigOk(c) && |s.rem| == c.warps
  {
    if s.has then s
    else
      var p := if s.pending.Some? then s.pending else next;
      if p.None? then s
      else
        var max := Slots(c, p.value);
        var t := s.(pending := p, tail := Tail(s.tail, max));
        if Admits(c, s, p.value) then Accept(c, s, p.value) else t
  }

  function Step(c: Config, s: State, active: seq<bool>, next: Option<Cta>): (State, Option<(nat, Warp)>)
    requires Shape(c, s) && |active| == c.warps && CtaOk(s.pending) && CtaOk(next)
  {
    LoadShape(c, s, next);
    var t := Load(c, s, next);
    var w := FreeWarp(active, 0);
    if !t.has || w >= c.warps then (t, None)
    else
      var (u, rec) := Dispatch(c, t, w);
      (u, Some((w, rec)))
  }

  /** The management unit starts only kernels with a non-empty block. */
  predicate CtaOk(a: Option<Cta>) { a.Some? ==> a.value.blockSize > 0 }

  lemma WarpsPositive(bs: nat, nt: nat)
    requires bs > 0 && nt > 0
    ensures Warps(bs, nt) > 0
  {
    Euclid(bs + nt - 1, nt);
  }

  lemma LoadShape(c: Config, s: State, next: Option<Cta>)
    requires Shape(c, s) && CtaOk(s.pending) && CtaOk(next)
    ensures Shape(c, Load(c, s, next)) && CtaOk(Load(c, s, next).pending)
  {
    var p := if s.pending.Some? then s.pending else next;
    if !s.has && p.Some? {
      WindowFits(c, s.tail, p.value);
      WarpsPositive(p.value.blockSize, c.threads);
    }
  }

  /** A warp exits. */
  function Done(c: Config, s: State, w: nat): State
    requires Shape(c, s) && w < c.warps && (s.slotOf[w] < c.warps ==> s.rem[s.slotOf[w]] > 0)
  {
    if s.slotOf[w] >= c.warps then s
    else s.(slotOf := s.slotOf[w := c.warps], rem := s.rem[s.slotOf[w] := s.rem[s.slotOf[w]] - 1])
  }
}
