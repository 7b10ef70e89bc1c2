/** Properties of every run of the CTA dispatcher: warps are conserved, each warp is handed what its
    rank is due, and clusters sit in consecutive slots. */
module CtaRuns {
  import opened Basics
  import opened ThreadIds
  import opened CtaModel

  // ----- conservation of warps -----

  /** Number of warps mapped to slot `k`. */
  function Mapped(slotOf: seq<nat>, k: nat): nat {
    if slotOf == [] then 0
    else Mapped(slotOf[..|slotOf| - 1], k) + (if slotOf[|slotOf| - 1] == k then 1 else 0)
  }

  function Unissued(s: State, k: nat): nat { if s.has && s.cur == k && s.rank < s.size then s.size - s.rank else 0 }

  ghost predicate Conserved(c: Config, s: State) {
    && Shape(c, s) && CtaOk(s.pending)
    && forall k | 0 <= k < c.warps :: s.rem[k] == Mapped(s.slotOf, k) + Unissued(s, k)
  }

  lemma {:induction false} MappedUpdate(slotOf: seq<nat>, w: nat, x: nat, k: nat)
    requires w < |slotOf|
    ensures Mapped(slotOf[w := x], k) + (if slotOf[w] == k then 1 else 0) == Mapped(slotOf, k) + (if x == k then 1 else 0)
    decreases |slotOf|
  {
    var n := |slotOf| - 1;
    if w == n {
      assert slotOf[w := x][..n] == slotOf[..n];
    } else {
      assert slotOf[w := x][..n] == slotOf[..n][w := x];
      MappedUpdate(slotOf[..n], w, x, k);
    }
  }

  /** Every warp that belongs to a CTA is active. */
  ghost predicate Covers(c: Config, s: State, active: seq<bool>) {
    |active| == c.warps && |s.slotOf| == c.warps && forall w | 0 <= w < c.warps && s.slotOf[w] < c.warps :: active[w]
  }

  lemma {:induction false} FreeWarpFree(active: seq<bool>, from: nat)
    requires from <= |active|
    ensures from <= FreeWarp(active, from) <= |active|
    ensures FreeWarp(active, from) < |active| ==> !active[FreeWarp(active, from)]
    ensures forall w | from <= w < FreeWarp(active, from) :: active[w]
    decreases |active| - from
  {
    if from < |active| && active[from] {
      FreeWarpFree(active, from + 1);
    }
  }

  lemma LoadConserves(c: Config, s: State, next: Option<Cta>)
    requires Conserved(c, s) && CtaOk(next)
    ensures Conserved(c, Load(c, s, next)) && Load(c, s, next).slotOf == s.slotOf
  {
    LoadShape(c, s, next);
    var p := if s.pending.Some? then s.pending else next;
    if !s.has && p.Some? && Admits(c, s, p.value) {
      WindowFits(c, s.tail, p.value);
    }
  }

  lemma DispatchConserves(c: Config, s: State, w: nat)
    requires Conserved(c, s) && s.has && w < c.warps && s.slotOf[w] == c.warps
    ensures Conserved(c, Dispatch(c, s, w).0)
  {
    var t := Dispatch(c, s, w).0;
    forall k | 0 <= k < c.warps ensures t.rem[k] == Mapped(t.slotOf, k) + Unissued(t, k) {
      MappedUpdate(s.slotOf, w, s.cur, k);
    }
  }

  lemma {:induction false} MappedSome(slotOf: seq<nat>, w: nat)
    requires w < |slotOf|
    ensures Mapped(slotOf, slotOf[w]) > 0
  {
    MappedUpdate(slotOf, w, slotOf[w] + 1, slotOf[w]);
  }

  /** The assertion in `warp_done` holds, and the exit keeps the balance. */
  lemma DoneConserves(c: Config, s: State, w: nat)
    requires Conserved(c, s) && w < c.warps
    ensures s.slotOf[w] < c.warps ==> s.rem[s.slotOf[w]] > 0
    ensures Conserved(c, Done(c, s, w))
  {
    if s.slotOf[w] < c.warps {
      MappedSome(s.slotOf, w);
      var t := Done(c, s, w);
      forall k | 0 <= k < c.warps ensures t.rem[k] == Mapped(t.slotOf, k) + Unissued(t, k) {
        MappedUpdate(s.slotOf, w, c.warps, k);
      }
    }
  }

  lemma StepConserves(c: Config, s: State, active: seq<bool>, next: Option<Cta>)
    requires Conserved(c, s) && CtaOk(next) && Covers(c, s, active)
    ensures Conserved(c, Step(c, s, active, next).0)
  {
    LoadConserves(c, s, next);
    LoadShape(c, s, next);
    FreeWarpFree(active, 0);
    var t, w := Load(c, s, next), FreeWarp(active, 0);
    if t.has && w < c.warps {
      DispatchConserves(c, t, w);
    }
  }

  // ----- runs -----

  datatype Action = Call(active: seq<bool>, next: Option<Cta>) | Exit(w: nat)

  ghost predicate ActionOk(c: Config, s: State, a: Action) {
    match a
    case Call(active, next) => CtaOk(next) && Covers(c, s, active)
    case Exit(w) => w < c.warps
  }

  ghost function Apply(c: Config, s: State, a: Action): State
    requires Conserved(c, s) && ActionOk(c, s, a)
  {
    match a
    case Call(active, next) => Step(c, s, active, next).0
    case Exit(w) => DoneConserves(c, s, w); Done(c, s, w)
  }

  lemma ApplyConserves(c: Config, s: State, a: Action)
    requires Conserved(c, s) && ActionOk(c, s, a)
    ensures Conserved(c, Apply(c, s, a))
  {
    match a
    case Call(active, next) => StepConserves(c, s, active, next);
    case Exit(w) => DoneConserves(c, s, w);
  }

  ghost predicate RunOk(c: Config, s: State, acts: seq<Action>)
    requires Conserved(c, s)
    decreases |acts|
  {
    acts != [] ==>
      ActionOk(c, s, acts[0]) && (ApplyConserves(c, s, acts[0]); RunOk(c, Apply(c, s, acts[0]), acts[1..]))
  }

  ghost function Run(c: Config, s: State, acts: seq<Action>): State
    requires Conserved(c, s) && RunOk(c, s, acts)
    decreases |acts|
  {
    if acts == [] then s else ApplyConserves(c, s, acts[0]); Run(c, Apply(c, s, acts[0]), acts[1..])
  }

  /** In every reachable state a slot's count is its mapped warps plus the ranks not yet handed
      out, so `warp_done` never finds an empty slot. */
  lemma {:induction false} WarpsConserved(c: Config, s: State, acts: seq<Action>)
    requires Conserved(c, s) && RunOk(c, s, acts)
    ensures Conserved(c, Run(c, s, acts))
    ensures forall w | 0 <= w < c.warps ::
      Run(c, s, acts).slotOf[w] < c.warps ==> Run(c, s, acts).rem[Run(c, s, acts).slotOf[w]] > 0
    decreases |acts|
  {
    if acts == [] {
      forall w | 0 <= w < c.warps ensures s.slotOf[w] < c.warps ==> s.rem[s.slotOf[w]] > 0 {
        DoneConserves(c, s, w);
      }
    } else {
      ApplyConserves(c, s, acts[0]);
      WarpsConserved(c, Apply(c, s, acts[0]), acts[1..]);
    }
  }

  // ----- what each warp is handed -----

  function LeftAt(r: nat, bs: nat, nt: nat): nat { if r * nt >= bs then 0 else bs - r * nt }

  /** The dispatcher's running index, remaining threads and address belong to the next rank. */
  ghost predicate Handing(c: Config, s: State) {
    c.threads > 0 && c.block > 0 && (s.has ==>
      && s.tid == IndexAt(s.rank, s.cta.warpStep, s.cta.blockDim)
      && s.left == LeftAt(s.rank, s.cta.blockSize, c.threads) && s.size == Warps(s.cta.blockSize, c.threads)
      && s.lmemAddr == c.lmemBase + s.cur * Stride(c, s.cta.lmemSize))
  }

  lemma LoadHands(c: Config, s: State, next: Option<Cta>)
    requires Shape(c, s) && Handing(c, s)
    ensures Handing(c, Load(c, s, next))
  {
  }

  lemma LeftNext(r: nat, bs: nat, nt: nat)
    ensures var l := LeftAt(r, bs, nt);
      LeftAt(r + 1, bs, nt) == (if l >= nt then l - nt else 0) && Active(r, bs, nt) == (if l >= nt then nt else l)
  {
    MulAdd(r, 1, nt);
  }

  /** A warp record carries the index, lane count and local-memory base of its rank and slot. */
  lemma DispatchHands(c: Config, s: State, w: nat)
    requires Shape(c, s) && s.has && Handing(c, s) && w < c.warps
    ensures var (t, rec) := Dispatch(c, s, w);
      && Handing(c, t)
      && rec.rank < rec.size == Warps(s.cta.blockSize, c.threads)
      && rec.tid == IndexAt(rec.rank, s.cta.warpStep, s.cta.blockDim)
      && rec.active == Active(rec.rank, s.cta.blockSize, c.threads)
      && rec.lmemAddr == c.lmemBase + rec.slot * Stride(c, s.cta.lmemSize) && rec.slot == s.cur
  {
    LeftNext(s.rank, s.cta.blockSize, c.threads);
  }

  // ----- local memory -----

  /** Every occupied slot is one that fits the kernel's stride. */
  ghost predicate Resident(c: Config, s: State, stride: nat) {
    && |s.rem| == c.warps
    && (forall k | 0 <= k < c.warps && s.rem[k] > 0 :: k < Usable(c, stride))
  }

  lemma LoadResident(c: Config, s: State, next: Option<Cta>, stride: nat)
    requires Shape(c, s) && Resident(c, s, stride)
    requires s.pending.Some? ==> Stride(c, s.pending.value.lmemSize) == stride
    requires next.Some? ==> Stride(c, next.value.lmemSize) == stride
    ensures Resident(c, Load(c, s, next), stride)
  {
    var p := if s.pending.Some? then s.pending else next;
    if p.Some? {
      WindowFits(c, s.tail, p.value);
    }
  }

  lemma SlotFits(c: Config, stride: nat, k: nat)
    requires k < Usable(c, stride) && 0 < stride <= c.lmemCap
    ensures k * stride + stride <= c.lmemCap
  {
    Euclid(c.lmemCap, stride);
    var fit := c.lmemCap / stride;
    if fit == 0 {
      assert false;
    }
    MulNext(k, k + 1, stride);
    MulMono(k + 1, fit, stride);
  }

  /** A region is large enough exactly when rounding up does not leave 32 bits. */
  lemma StrideCovers(c: Config, lmemSize: nat)
    requires c.block > 0 && lmemSize < U32 && 0 < lmemSize && c.block < U32
    ensures lmemSize <= Stride(c, lmemSize) <==> lmemSize + c.block - 1 < U32
  {
    var n := lmemSize + c.block - 1;
    Euclid(n % U32, c.block);
    if n < U32 {
      assert n % U32 == n;
    } else {
      assert n % U32 == n - U32;
    }
  }

  // ----- clusters -----

  /** A cluster of `size` CTAs of which `placed` have been accepted, the first at `base`. */
  datatype Cluster = Cluster(base: nat, size: nat, placed: nat)

  /** The slots ahead of a cluster under construction are free and in range. */
  ghost predicate Building(c: Config, s: State, g: Cluster, max: nat) {
    && |s.rem| == c.warps && max <= c.warps
    && (g.placed < g.size ==>
          && 0 < g.placed && s.tail == g.base + g.placed && g.base + g.size <= max
          && forall i | s.tail <= i < g.base + g.size :: s.rem[i] == 0)
  }

  /** The first CTA of a cluster that fits opens a window of consecutive free slots. */
  lemma FirstOpens(c: Config, s: State, a: Cta)
    requires Shape(c, s) && a.first && ClusterSize(a) <= Slots(c, a) && Admits(c, s, a)
    ensures var t := Accept(c, s, a); Building(c, t, Cluster(t.cur, ClusterSize(a), 1), Slots(c, a))
  {
    var max, k := Slots(c, a), ClusterSize(a);
    WindowFits(c, s.tail, a);
    var base := Base(Tail(s.tail, max), max, a);
    assert Window(max, a) == k && WindowFree(s.rem, base, k);
    if k > 1 {
      SmallMod(base + 1, max);
    }
  }

  /** A following member is admitted at once, into the next slot of its cluster. */
  lemma FollowerPlaced(c: Config, s: State, a: Cta, g: Cluster)
    requires Shape(c, s) && !a.first && Building(c, s, g, Slots(c, a)) && g.placed < g.size
    ensures Admits(c, s, a)
    ensures var t := Accept(c, s, a);
      t.cur == g.base + g.placed && Building(c, t, g.(placed := g.placed + 1), Slots(c, a))
  {
    var max := Slots(c, a);
    WindowFits(c, s.tail, a);
    assert Tail(s.tail, max) == s.tail && Base(s.tail, max, a) == s.tail;
    if g.placed + 1 < g.size {
      SmallMod(s.tail + 1, max);
    }
  }

  /** What may be delivered next: a follower with the cluster's local-memory size while the
      cluster is incomplete, otherwise the first CTA of a cluster that fits. */
  ghost predicate Deliverable(c: Config, g: Cluster, lmem: nat, a: Option<Cta>)
    requires c.block > 0
  {
    a.Some? ==>
      if g.placed < g.size then !a.value.first && a.value.lmemSize == lmem
      else a.value.first && ClusterSize(a.value) <= Slots(c, a.value)
  }

  ghost function Track(c: Config, s: State, next: Option<Cta>, g: Cluster): Cluster
    requires ConfigOk(c) && |s.rem| == c.warps
  {
    var t := Load(c, s, next);
    if s.has || !t.has then g
    else if t.cta.first then Cluster(t.cur, ClusterSize(t.cta), 1)
    else g.(placed := g.placed + 1)
  }

  ghost predicate Tracked(c: Config, s: State, g: Cluster, lmem: nat)
    requires c.block > 0
  {
    && Building(c, s, g, Usable(c, Stride(c, lmem))) && Deliverable(c, g, lmem, s.pending)
    && (s.has ==> s.pending.None?)
  }

  /** One call on behalf of a cluster: a member after the first never waits for a slot, and each
      member takes the slot after the one before it. */
  lemma ClusterStep(c: Config, s: State, next: Option<Cta>, g: Cluster, lmem: nat)
    requires Shape(c, s) && Tracked(c, s, g, lmem) && Deliverable(c, g, lmem, next)
    ensures var t, h := Load(c, s, next), Track(c, s, next, g);
      && (g.placed < g.size && !s.has && (s.pending.Some? || next.Some?) ==>
            t.has && t.cur == g.base + g.placed && h == g.(placed := g.placed + 1))
      && Tracked(c, t, h, if s.has || !t.has then lmem else t.cta.lmemSize)
  {
    var p := if s.pending.Some? then s.pending else next;
    if !s.has && p.Some? {
      if g.placed < g.size {
        FollowerPlaced(c, s, p.value, g);
      } else if Admits(c, s, p.value) {
        FirstOpens(c, s, p.value);
      }
    }
  }

  /** Handing out warps and warp exits do not disturb a cluster under construction. */
  lemma ClusterFrame(c: Config, s: State, g: Cluster, lmem: nat, w: nat)
    requires Shape(c, s) && Tracked(c, s, g, lmem) && w < c.warps
    ensures s.has ==> Tracked(c, Dispatch(c, s, w).0, g, lmem)
    ensures (s.slotOf[w] < c.warps ==> s.rem[s.slotOf[w]] > 0) ==> Tracked(c, Done(c, s, w), g, lmem)
  {
  }

  /** Accepted CTAs in order: whether each opened a cluster, and its slot. */
  datatype Placement = Placement(first: bool, slot: nat)

  datatype Watch = Watch(g: Cluster, lmem: nat, log: seq<Placement>)

  ghost function Observe(c: Config, s: State, a: Action, w: Watch): Watch
    requires ConfigOk(c) && |s.rem| == c.warps
  {
    if a.Exit? then w
    else
      var t := Load(c, s, a.next);
      if s.has || !t.has then w
      else Watch(Track(c, s, a.next, w.g), t.cta.lmemSize, w.log + [Placement(t.cta.first, t.cur)])
  }

  /** Members follow each other slot by slot. */
  ghost predicate Consecutive(log: seq<Placement>) {
    forall p | 0 <= p < |log| && !log[p].first :: p > 0 && log[p].slot == log[p - 1].slot + 1
  }

  ghost predicate WatchInv(c: Config, s: State, w: Watch)
    requires c.block > 0
  {
    && Tracked(c, s, w.g, w.lmem) && Consecutive(w.log)
    && (w.g.placed < w.g.size ==> w.log != [] && w.log[|w.log| - 1].slot + 1 == w.g.base + w.g.placed)
  }

  lemma ConsecutiveAdd(log: seq<Placement>, p: Placement)
    requires Consecutive(log) && (!p.first ==> log != [] && p.slot == log[|log| - 1].slot + 1)
    ensures Consecutive(log + [p])
  {
  }

  /** The admission part of a call. */
  lemma WatchLoad(c: Config, s: State, a: Action, w: Watch)
    requires Conserved(c, s) && WatchInv(c, s, w) && a.Call? && Deliverable(c, w.g, w.lmem, a.next) && CtaOk(a.next)
    ensures Shape(c, Load(c, s, a.next)) && WatchInv(c, Load(c, s, a.next), Observe(c, s, a, w))
  {
    ClusterStep(c, s, a.next, w.g, w.lmem);
    LoadShape(c, s, a.next);
    var t := Load(c, s, a.next);
    if !s.has && t.has {
      ConsecutiveAdd(w.log, Placement(t.cta.first, t.cur));
    }
  }

  lemma WatchFrame(c: Config, s: State, t: State, w: Watch)
    requires c.block > 0 && WatchInv(c, s, w) && Tracked(c, t, w.g, w.lmem)
    ensures WatchInv(c, t, w)
  {
  }

  lemma ObserveKeeps(c: Config, s: State, a: Action, w: Watch)
    requires Conserved(c, s) && ActionOk(c, s, a) && WatchInv(c, s, w)
    requires a.Call? ==> Deliverable(c, w.g, w.lmem, a.next)
    ensures WatchInv(c, Apply(c, s, a), Observe(c, s, a, w))
  {
    match a
    case Call(active, next) =>
      WatchLoad(c, s, a, w);
      var t, v := Load(c, s, next), Observe(c, s, a, w);
      var free := FreeWarp(active, 0);
      if t.has && free < c.warps {
        ClusterFrame(c, t, v.g, v.lmem, free);
        WatchFrame(c, t, Dispatch(c, t, free).0, v);
      }
    case Exit(x) =>
      DoneConserves(c, s, x);
      ClusterFrame(c, s, w.g, w.lmem, x);
      WatchFrame(c, s, Done(c, s, x), w);
  }

  ghost predicate Delivered(c: Config, s: State, acts: seq<Action>, w: Watch)
    requires Conserved(c, s) && RunOk(c, s, acts)
    decreases |acts|
  {
    acts != [] ==>
      && (acts[0].Call? ==> Deliverable(c, w.g, w.lmem, acts[0].next))
      && (ApplyConserves(c, s, acts[0]); Delivered(c, Apply(c, s, acts[0]), acts[1..], Observe(c, s, acts[0], w)))
  }

  ghost function Watched(c: Config, s: State, acts: seq<Action>, w: Watch): Watch
    requires Conserved(c, s) && RunOk(c, s, acts)
    decreases |acts|
  {
    if acts == [] then w
    else ApplyConserves(c, s, acts[0]); Watched(c, Apply(c, s, acts[0]), acts[1..], Observe(c, s, acts[0], w))
  }

  /** Over every run that delivers whole clusters one after the other, the members of a cluster
      occupy consecutive slots in member order. */
  lemma {:induction false} ClustersConsecutive(c: Config, s: State, acts: seq<Action>, w: Watch)
    requires Conserved(c, s) && RunOk(c, s, acts) && WatchInv(c, s, w) && Delivered(c, s, acts, w)
    ensures WatchInv(c, Run(c, s, acts), Watched(c, s, acts, w)) && Consecutive(Watched(c, s, acts, w).log)
    decreases |acts|
  {
    if acts != [] {
      ObserveKeeps(c, s, acts[0], w);
      ApplyConserves(c, s, acts[0]);
      ClustersConsecutive(c, Apply(c, s, acts[0]), acts[1..], Observe(c, s, acts[0], w));
    }
  }
}
