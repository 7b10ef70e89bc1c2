/** What the CTA dispatcher hands out over a run, block by block: the ranks of every accepted block
    go out once each and in order, the warps of a slot belong to one block, and live blocks own
    disjoint local memory. */
module CtaBlocks {
  import opened Basics
  import opened ThreadIds
  import opened CtaModel
  import opened CtaRuns

  /** Blocks are numbered as they are accepted.  The ledger keeps each block, the warp records
      handed out for it, the block last put into each slot, and what each warp holds: its block and
      its record. */
  datatype Ledger = Ledger(ctas: seq<Cta>, handed: seq<seq<Warp>>, slots: seq<nat>, held: seq<Option<(nat, Warp)>>)

  // ----- keeping the ledger -----

  /** After the admission part of a call, which took `s` to `t`. */
  function NoteLoad(s: State, t: State, l: Ledger): Ledger
    requires t.cur < |l.slots|
  {
    if s.has || !t.has then l
    else l.(ctas := l.ctas + [t.cta], handed := l.handed + [[]], slots := l.slots[t.cur := |l.ctas|])
  }

  /** After record `rec` went to warp `w`. */
  function NoteHand(l: Ledger, w: nat, rec: Warp): Ledger
    requires 0 < |l.ctas| == |l.handed| && w < |l.held|
  {
    var b := |l.ctas| - 1;
    l.(handed := l.handed[b := l.handed[b] + [rec]], held := l.held[w := Some((b, rec))])
  }

  function NoteExit(l: Ledger, w: nat): Ledger
    requires w < |l.held|
  {
    l.(held := l.held[w := None])
  }

  // ----- the records of a block -----

  /** `rec` is what rank `r` of block `a` is due. */
  ghost predicate RecordOf(c: Config, a: Cta, r: nat, rec: Warp)
    requires c.threads > 0
  {
    && rec.rank == r && rec.size == Warps(a.blockSize, c.threads)
    && rec.tid == IndexAt(r, a.warpStep, a.blockDim) && rec.active == Active(r, a.blockSize, c.threads)
  }

  ghost predicate Listed(c: Config, a: Cta, recs: seq<Warp>, n: nat)
    requires c.threads > 0
  {
    |recs| == n && forall r | 0 <= r < |recs| :: RecordOf(c, a, r, recs[r])
  }

  /** Ranks of block `b` handed out so far: all of them, unless it is the one in progress. */
  function Due(c: Config, s: State, l: Ledger, b: nat): nat
    requires c.threads > 0 && b < |l.ctas|
  {
    if s.has && b == |l.ctas| - 1 then s.rank else Warps(l.ctas[b].blockSize, c.threads)
  }

  ghost predicate RecordsInv(c: Config, s: State, l: Ledger) {
    && Handing(c, s) && |l.ctas| == |l.handed|
    && (s.has ==> l.ctas != [] && s.cta == l.ctas[|l.ctas| - 1])
    && forall b | 0 <= b < |l.ctas| :: Listed(c, l.ctas[b], l.handed[b], Due(c, s, l, b))
  }

  lemma LoadRecords(c: Config, s: State, next: Option<Cta>, l: Ledger)
    requires Shape(c, s) && RecordsInv(c, s, l) && |l.slots| == c.warps && CtaOk(s.pending) && CtaOk(next)
    ensures var t := Load(c, s, next); t.has ==> t.cur < c.warps && RecordsInv(c, t, NoteLoad(s, t, l))
    ensures !Load(c, s, next).has ==> RecordsInv(c, Load(c, s, next), l)
  {
    LoadShape(c, s, next);
    LoadHands(c, s, next);
    var t := Load(c, s, next);
    if t.has && !s.has {
      var l' := NoteLoad(s, t, l);
      forall b | 0 <= b < |l'.ctas| ensures Listed(c, l'.ctas[b], l'.handed[b], Due(c, t, l', b)) {
        if b < |l.ctas| {
          assert Listed(c, l.ctas[b], l.handed[b], Due(c, s, l, b));
        }
      }
    }
  }

  lemma HandRecords(c: Config, s: State, w: nat, l: Ledger)
    requires Shape(c, s) && RecordsInv(c, s, l) && s.has && w < c.warps && |l.held| == c.warps
    ensures var (t, rec) := Dispatch(c, s, w);
      RecordsInv(c, t, NoteHand(l, w, rec)) && RecordOf(c, s.cta, s.rank, rec)
  {
    DispatchHands(c, s, w);
    var (t, rec) := Dispatch(c, s, w);
    var l', last := NoteHand(l, w, rec), |l.ctas| - 1;
    forall b | 0 <= b < |l'.ctas| ensures Listed(c, l'.ctas[b], l'.handed[b], Due(c, t, l', b)) {
      assert Listed(c, l.ctas[b], l.handed[b], Due(c, s, l, b));
    }
  }

  lemma ExitRecords(c: Config, s: State, w: nat, l: Ledger)
    requires Conserved(c, s) && RecordsInv(c, s, l) && w < c.warps && |l.held| == c.warps
    requires s.slotOf[w] < c.warps ==> s.rem[s.slotOf[w]] > 0
    ensures RecordsInv(c, Done(c, s, w), NoteExit(l, w))
  {
    var t, l' := Done(c, s, w), NoteExit(l, w);
    forall b | 0 <= b < |l'.ctas| ensures Listed(c, l'.ctas[b], l'.handed[b], Due(c, t, l', b)) {
      assert Listed(c, l.ctas[b], l.handed[b], Due(c, s, l, b));
    }
  }

  // ----- who holds a slot -----

  /** Warp `w` is free and holds nothing, or holds a record of the block in its slot, with the
      address of that slot. */
  ghost predicate WarpHolds(c: Config, slot: nat, l: Ledger, held: Option<(nat, Warp)>)
    requires c.block > 0 && |l.slots| == c.warps
  {
    if slot >= c.warps then held.None?
    else
      && held.Some? && held.value.0 == l.slots[slot] < |l.ctas|
      && held.value.1.lmemAddr == c.lmemBase + slot * Stride(c, l.ctas[held.value.0].lmemSize)
  }

  ghost predicate HoldInv(c: Config, s: State, l: Ledger)
    requires Shape(c, s)
  {
    && |l.slots| == |l.held| == c.warps
    && (s.has ==> l.ctas != [] && l.slots[s.cur] == |l.ctas| - 1)
    && (forall w | 0 <= w < c.warps :: WarpHolds(c, s.slotOf[w], l, l.held[w]))
    && (forall k | 0 <= k < c.warps && s.rem[k] > 0 :: l.slots[k] < |l.ctas|)
    && forall j, k | 0 <= j < k < c.warps && s.rem[j] > 0 && s.rem[k] > 0 :: l.slots[j] != l.slots[k]
  }

  /** No warp is mapped to a slot that is free. */
  lemma FreeSlot(c: Config, s: State, k: nat, w: nat)
    requires Conserved(c, s) && k < c.warps && w < c.warps && s.rem[k] == 0
    ensures s.slotOf[w] != k
  {
    MappedSome(s.slotOf, w);
  }

  lemma AcceptHolds(c: Config, s: State, a: Cta, l: Ledger)
    requires Conserved(c, s) && HoldInv(c, s, l) && !s.has && Admits(c, s, a) && a.blockSize > 0
    ensures var t := Accept(c, s, a); Shape(c, t) && HoldInv(c, t, NoteLoad(s, t, l))
  {
    WindowFits(c, s.tail, a);
    WarpsPositive(a.blockSize, c.threads);
    var t := Accept(c, s, a);
    var l' := NoteLoad(s, t, l);
    assert s.rem[t.cur] == 0;
    forall w | 0 <= w < c.warps ensures WarpHolds(c, t.slotOf[w], l', l'.held[w]) {
      FreeSlot(c, s, t.cur, w);
      assert WarpHolds(c, s.slotOf[w], l, l.held[w]);
    }
  }

  lemma LoadHolds(c: Config, s: State, next: Option<Cta>, l: Ledger)
    requires Conserved(c, s) && HoldInv(c, s, l) && CtaOk(next)
    ensures var t := Load(c, s, next);
      Shape(c, t) && (if t.has then t.cur < |l.slots| && HoldInv(c, t, NoteLoad(s, t, l)) else HoldInv(c, t, l))
  {
    LoadShape(c, s, next);
    var p := if s.pending.Some? then s.pending else next;
    if !s.has && p.Some? && Admits(c, s, p.value) {
      AcceptHolds(c, s, p.value, l);
    }
  }

  lemma HandHolds(c: Config, s: State, w: nat, l: Ledger)
    requires Conserved(c, s) && HoldInv(c, s, l) && RecordsInv(c, s, l) && s.has && w < c.warps && s.slotOf[w] == c.warps
    ensures var (t, rec) := Dispatch(c, s, w); Shape(c, t) && HoldInv(c, t, NoteHand(l, w, rec))
  {
    DispatchConserves(c, s, w);
    var (t, rec) := Dispatch(c, s, w);
    var l' := NoteHand(l, w, rec);
    forall v | 0 <= v < c.warps ensures WarpHolds(c, t.slotOf[v], l', l'.held[v]) {
      assert WarpHolds(c, s.slotOf[v], l, l.held[v]);
    }
  }

  lemma ExitHolds(c: Config, s: State, w: nat, l: Ledger)
    requires Conserved(c, s) && HoldInv(c, s, l) && w < c.warps && (s.slotOf[w] < c.warps ==> s.rem[s.slotOf[w]] > 0)
    ensures Shape(c, Done(c, s, w)) && HoldInv(c, Done(c, s, w), NoteExit(l, w))
  {
    var t, l' := Done(c, s, w), NoteExit(l, w);
    forall v | 0 <= v < c.warps ensures WarpHolds(c, t.slotOf[v], l', l'.held[v]) {
      assert WarpHolds(c, s.slotOf[v], l, l.held[v]);
    }
  }

  // ----- runs -----

  ghost predicate BlockInv(c: Config, s: State, l: Ledger) {
    Conserved(c, s) && RecordsInv(c, s, l) && HoldInv(c, s, l)
  }

  /** The ledger after one action. */
  ghost function Note(c: Config, s: State, a: Action, l: Ledger): Ledger
    requires BlockInv(c, s, l) && ActionOk(c, s, a)
  {
    match a
    case Exit(w) => NoteExit(l, w)
    case Call(active, next) =>
      LoadHolds(c, s, next, l);
      LoadRecords(c, s, next, l);
      var t, w := Load(c, s, next), FreeWarp(active, 0);
      if !t.has then l
      else
        var l1 := NoteLoad(s, t, l);
        if w < c.warps then NoteHand(l1, w, Dispatch(c, t, w).1) else l1
  }

  lemma CallKeeps(c: Config, s: State, active: seq<bool>, next: Option<Cta>, l: Ledger)
    requires BlockInv(c, s, l) && ActionOk(c, s, Call(active, next))
    ensures BlockInv(c, Step(c, s, active, next).0, Note(c, s, Call(active, next), l))
  {
    StepConserves(c, s, active, next);
    LoadConserves(c, s, next);
    LoadHolds(c, s, next, l);
    LoadRecords(c, s, next, l);
    FreeWarpFree(active, 0);
    var t, w := Load(c, s, next), FreeWarp(active, 0);
    if t.has && w < c.warps {
      HandRecords(c, t, w, NoteLoad(s, t, l));
      HandHolds(c, t, w, NoteLoad(s, t, l));
    }
  }

  lemma NoteKeeps(c: Config, s: State, a: Action, l: Ledger)
    requires BlockInv(c, s, l) && ActionOk(c, s, a)
    ensures BlockInv(c, Apply(c, s, a), Note(c, s, a, l))
  {
    match a
    case Call(active, next) => CallKeeps(c, s, active, next, l);
    case Exit(w) =>
      DoneConserves(c, s, w);
      ExitRecords(c, s, w, l);
      ExitHolds(c, s, w, l);
  }

  ghost function Noted(c: Config, s: State, acts: seq<Action>, l: Ledger): Ledger
    requires BlockInv(c, s, l) && RunOk(c, s, acts)
    decreases |acts|
  {
    if acts == [] then l
    else
      NoteKeeps(c, s, acts[0], l);
      Noted(c, Apply(c, s, acts[0]), acts[1..], Note(c, s, acts[0], l))
  }

  /** Over every run the ledger stays true: each finished block has handed out all its ranks in
      order, the one in progress those below its next rank, and every warp holds a record of the
      block in its slot. */
  lemma {:induction false} BlocksOverRun(c: Config, s: State, acts: seq<Action>, l: Ledger)
    requires BlockInv(c, s, l) && RunOk(c, s, acts)
    ensures BlockInv(c, Run(c, s, acts), Noted(c, s, acts, l))
    decreases |acts|
  {
    if acts != [] {
      NoteKeeps(c, s, acts[0], l);
      ApplyConserves(c, s, acts[0]);
      BlocksOverRun(c, Apply(c, s, acts[0]), acts[1..], Note(c, s, acts[0], l));
    }
  }

  /** A dispatcher out of reset. */
  ghost predicate Empty(c: Config, s: State) {
    && Shape(c, s) && !s.has && s.pending.None?
    && forall k | 0 <= k < c.warps :: s.rem[k] == 0 && s.slotOf[k] == c.warps
  }

  function NoBlocks(c: Config): Ledger { Ledger([], [], seq(c.warps, _ => 0), seq(c.warps, _ => None)) }

  lemma {:induction false} NoneMapped(slotOf: seq<nat>, n: nat, k: nat)
    requires k < n && forall i | 0 <= i < |slotOf| :: slotOf[i] == n
    ensures Mapped(slotOf, k) == 0
    decreases |slotOf|
  {
    if slotOf != [] {
      NoneMapped(slotOf[..|slotOf| - 1], n, k);
    }
  }

  lemma EmptyInv(c: Config, s: State)
    requires Empty(c, s)
    ensures BlockInv(c, s, NoBlocks(c))
  {
    forall k | 0 <= k < c.warps ensures Mapped(s.slotOf, k) == 0 {
      NoneMapped(s.slotOf, c.warps, k);
    }
  }

  // ----- thread ids -----

  ghost predicate Finished(s: State, l: Ledger, b: nat) { b < |l.ctas| && !(s.has && b == |l.ctas| - 1) }

  /** The threads of a block: its records' active lanes, with the id each of them reads. */
  ghost predicate Runs(l: Ledger, b: nat, r: nat, lane: nat) {
    b < |l.handed| && r < |l.handed[b]| && lane < l.handed[b][r].active
  }

  ghost function IdOf(l: Ledger, b: nat, r: nat, lane: nat): Dim3
    requires Runs(l, b, r, lane) && b < |l.ctas| && DimOk(l.ctas[b].blockDim)
  {
    CsrId(l.handed[b][r].tid, lane, l.ctas[b].blockDim)
  }

  /** The ids read by the threads of block `b` are those of the block, each read by one thread, and
      every warp has a thread. */
  ghost predicate EachThreadOnce(l: Ledger, b: nat)
    requires b < |l.ctas| && DimOk(l.ctas[b].blockDim)
  {
    var d := l.ctas[b].blockDim;
    && b < |l.handed| && (forall r | 0 <= r < |l.handed[b]| :: l.handed[b][r].active > 0)
    && (forall r: nat, x: nat | Runs(l, b, r, x) :: InBlock(IdOf(l, b, r, x), d))
    && (forall r: nat, x: nat, q: nat, y: nat | Runs(l, b, r, x) && Runs(l, b, q, y) && IdOf(l, b, r, x) == IdOf(l, b, q, y) ::
          r == q && x == y)
    && forall t: Dim3 | InBlock(t, d) :: exists r: nat, x: nat :: Runs(l, b, r, x) && IdOf(l, b, r, x) == t
  }

  lemma RunsActive(c: Config, s: State, l: Ledger, b: nat, r: nat, x: nat)
    requires RecordsInv(c, s, l) && Finished(s, l, b) && DimOk(l.ctas[b].blockDim)
    ensures var a := l.ctas[b]; Runs(l, b, r, x) <==> r < Warps(a.blockSize, c.threads) && x < Active(r, a.blockSize, c.threads)
    ensures Runs(l, b, r, x) ==> IdOf(l, b, r, x) == ThreadId(r, x, l.ctas[b].warpStep, l.ctas[b].blockDim)
  {
    var a := l.ctas[b];
    assert Listed(c, a, l.handed[b], Due(c, s, l, b));
    if r < |l.handed[b]| {
      assert RecordOf(c, a, r, l.handed[b][r]);
    }
  }

  /** Every finished block, whatever else the run did, has handed each of its thread ids to exactly
      one active lane. */
  lemma FinishedBlockIds(c: Config, s: State, l: Ledger, b: nat)
    requires RecordsInv(c, s, l) && Finished(s, l, b)
    requires var a := l.ctas[b];
      DimOk(a.blockDim) && a.blockSize == Volume(a.blockDim) && a.warpStep == Digits(c.threads, a.blockDim)
    ensures EachThreadOnce(l, b)
  {
    var a := l.ctas[b];
    ThreadIdsBijective(c.threads, a.blockDim);
    assert Listed(c, a, l.handed[b], Due(c, s, l, b));
    forall r | 0 <= r < |l.handed[b]| ensures l.handed[b][r].active > 0 {
      assert RecordOf(c, a, r, l.handed[b][r]);
      WarpsExact(r, a.blockSize, c.threads);
    }
    forall r: nat, x: nat | Runs(l, b, r, x) ensures InBlock(IdOf(l, b, r, x), a.blockDim) {
      RunsActive(c, s, l, b, r, x);
    }
    forall r: nat, x: nat, q: nat, y: nat | Runs(l, b, r, x) && Runs(l, b, q, y) && IdOf(l, b, r, x) == IdOf(l, b, q, y)
      ensures r == q && x == y
    {
      RunsActive(c, s, l, b, r, x);
      RunsActive(c, s, l, b, q, y);
    }
    forall t: Dim3 | InBlock(t, a.blockDim)
      ensures exists r: nat, x: nat :: Runs(l, b, r, x) && IdOf(l, b, r, x) == t
    {
      var r: nat, x: nat :| r < Warps(a.blockSize, c.threads) && x < Active(r, a.blockSize, c.threads)
        && ThreadId(r, x, a.warpStep, a.blockDim) == t;
      RunsActive(c, s, l, b, r, x);
    }
  }

  // ----- local memory -----

  /** A block of the kernel whose slots are `stride` apart, asking for no more than rounds within
      32 bits. */
  ghost predicate OfKernel(c: Config, a: Cta, stride: nat)
    requires c.block > 0
  {
    Stride(c, a.lmemSize) == stride && a.lmemSize + c.block - 1 < U32
  }

  ghost predicate KernelInv(c: Config, s: State, l: Ledger, stride: nat)
    requires c.block > 0
  {
    && Resident(c, s, stride) && (s.pending.Some? ==> OfKernel(c, s.pending.value, stride))
    && forall b | 0 <= b < |l.ctas| :: OfKernel(c, l.ctas[b], stride)
  }

  ghost predicate Delivers(c: Config, acts: seq<Action>, stride: nat)
    requires c.block > 0
  {
    forall k | 0 <= k < |acts| :: acts[k].Call? && acts[k].next.Some? ==> OfKernel(c, acts[k].next.value, stride)
  }

  lemma LoadKernel(c: Config, s: State, next: Option<Cta>, l: Ledger, stride: nat)
    requires BlockInv(c, s, l) && CtaOk(next) && KernelInv(c, s, l, stride)
    requires next.Some? ==> OfKernel(c, next.value, stride)
    ensures var t := Load(c, s, next); t.cur < |l.slots| || !t.has
    ensures var t := Load(c, s, next); KernelInv(c, t, if t.has then NoteLoad(s, t, l) else l, stride)
  {
    LoadResident(c, s, next, stride);
    LoadShape(c, s, next);
  }

  lemma NoteKernel(c: Config, s: State, a: Action, l: Ledger, stride: nat)
    requires BlockInv(c, s, l) && ActionOk(c, s, a) && KernelInv(c, s, l, stride)
    requires a.Call? && a.next.Some? ==> OfKernel(c, a.next.value, stride)
    ensures KernelInv(c, Apply(c, s, a), Note(c, s, a, l), stride)
  {
    match a
    case Exit(w) => DoneConserves(c, s, w);
    case Call(active, next) =>
      LoadKernel(c, s, next, l, stride);
      LoadShape(c, s, next);
      LoadRecords(c, s, next, l);
      LoadHolds(c, s, next, l);
  }

  lemma {:induction false} KernelOverRun(c: Config, s: State, acts: seq<Action>, l: Ledger, stride: nat)
    requires BlockInv(c, s, l) && RunOk(c, s, acts) && KernelInv(c, s, l, stride) && Delivers(c, acts, stride)
    ensures KernelInv(c, Run(c, s, acts), Noted(c, s, acts, l), stride)
    decreases |acts|
  {
    if acts != [] {
      NoteKeeps(c, s, acts[0], l);
      NoteKernel(c, s, acts[0], l, stride);
      KernelOverRun(c, Apply(c, s, acts[0]), acts[1..], Note(c, s, acts[0], l), stride);
    }
  }

  ghost predicate Live(c: Config, s: State, l: Ledger, w: nat) {
    && w < c.warps == |s.slotOf| == |l.held| && s.slotOf[w] < c.warps
    && l.held[w].Some? && l.held[w].value.0 < |l.ctas|
  }

  /** The local memory a live warp was given: the address in its record, and the size its block
      asked for. */
  ghost function From(c: Config, s: State, l: Ledger, w: nat): nat
    requires Live(c, s, l, w)
  {
    l.held[w].value.1.lmemAddr
  }

  ghost function Until(c: Config, s: State, l: Ledger, w: nat): nat
    requires Live(c, s, l, w)
  {
    From(c, s, l, w) + l.ctas[l.held[w].value.0].lmemSize
  }

  ghost function BlockOf(c: Config, s: State, l: Ledger, w: nat): nat
    requires Live(c, s, l, w)
  {
    l.held[w].value.0
  }

  lemma Covered(c: Config, a: Cta, stride: nat)
    requires c.block > 0 && OfKernel(c, a, stride)
    ensures a.lmemSize <= stride
  {
    if a.lmemSize > 0 {
      StrideCovers(c, a.lmemSize);
    }
  }

  /** A live warp's memory is the first part of its slot's. */
  lemma WarpRegion(c: Config, s: State, l: Ledger, stride: nat, w: nat)
    requires BlockInv(c, s, l) && KernelInv(c, s, l, stride) && w < c.warps && s.slotOf[w] < c.warps
    ensures Live(c, s, l, w) && s.rem[s.slotOf[w]] > 0 && BlockOf(c, s, l, w) == l.slots[s.slotOf[w]]
    ensures From(c, s, l, w) == c.lmemBase + s.slotOf[w] * stride && Until(c, s, l, w) <= From(c, s, l, w) + stride
  {
    assert WarpHolds(c, s.slotOf[w], l, l.held[w]);
    DoneConserves(c, s, w);
    Covered(c, l.ctas[l.held[w].value.0], stride);
  }

  /** Inside the local memory, even if it is the only live block. */
  lemma WarpInRange(c: Config, s: State, l: Ledger, stride: nat, w: nat)
    requires BlockInv(c, s, l) && KernelInv(c, s, l, stride) && w < c.warps && s.slotOf[w] < c.warps && stride <= c.lmemCap
    ensures Live(c, s, l, w) && c.lmemBase <= From(c, s, l, w) && Until(c, s, l, w) <= c.lmemBase + c.lmemCap
  {
    WarpRegion(c, s, l, stride, w);
    if stride > 0 {
      SlotFits(c, stride, s.slotOf[w]);
    } else {
      assert s.slotOf[w] * stride == 0;
    }
  }

  /** Warps share a slot exactly when they are of one block; otherwise their memories are apart. */
  lemma WarpsApart(c: Config, s: State, l: Ledger, stride: nat, w: nat, v: nat)
    requires BlockInv(c, s, l) && KernelInv(c, s, l, stride)
    requires w < c.warps && v < c.warps && s.slotOf[w] < c.warps && s.slotOf[v] < c.warps
    ensures Live(c, s, l, w) && Live(c, s, l, v)
    ensures BlockOf(c, s, l, w) == BlockOf(c, s, l, v) <==> s.slotOf[w] == s.slotOf[v]
    ensures BlockOf(c, s, l, w) != BlockOf(c, s, l, v) ==>
      Until(c, s, l, w) <= From(c, s, l, v) || Until(c, s, l, v) <= From(c, s, l, w)
  {
    WarpRegion(c, s, l, stride, w);
    WarpRegion(c, s, l, stride, v);
    var j, k := s.slotOf[w], s.slotOf[v];
    if j < k {
      MulNext(j, k, stride);
    } else if k < j {
      MulNext(k, j, stride);
    }
  }

  /** Over every run of one kernel: live warps of one slot belong to one block and have its memory,
      the memories of two live blocks are disjoint, and each lies in the local memory when one
      block fits. */
  lemma LiveMemory(c: Config, s: State, acts: seq<Action>, l: Ledger, stride: nat, w: nat, v: nat)
    requires BlockInv(c, s, l) && RunOk(c, s, acts) && KernelInv(c, s, l, stride) && Delivers(c, acts, stride)
    requires w < c.warps && v < c.warps
    ensures var t, m := Run(c, s, acts), Noted(c, s, acts, l);
      && |t.slotOf| == c.warps
      && (t.slotOf[w] < c.warps ==>
            && Live(c, t, m, w)
            && (stride <= c.lmemCap ==> c.lmemBase <= From(c, t, m, w) && Until(c, t, m, w) <= c.lmemBase + c.lmemCap))
      && (t.slotOf[w] < c.warps && t.slotOf[v] < c.warps ==>
            && Live(c, t, m, w) && Live(c, t, m, v)
            && (BlockOf(c, t, m, w) == BlockOf(c, t, m, v) <==> t.slotOf[w] == t.slotOf[v])
            && (BlockOf(c, t, m, w) != BlockOf(c, t, m, v) ==>
                  Until(c, t, m, w) <= From(c, t, m, v) || Until(c, t, m, v) <= From(c, t, m, w)))
  {
    BlocksOverRun(c, s, acts, l);
    KernelOverRun(c, s, acts, l, stride);
    var t, m := Run(c, s, acts), Noted(c, s, acts, l);
    if t.slotOf[w] < c.warps {
      WarpRegion(c, t, m, stride, w);
      if stride <= c.lmemCap {
        WarpInRange(c, t, m, stride, w);
      }
      if t.slotOf[v] < c.warps {
        WarpsApart(c, t, m, stride, w, v);
      }
    }
  }

  /** Over every run: the thread ids of every finished block are read once each. */
  lemma BlockIdsOverRun(c: Config, s: State, acts: seq<Action>, l: Ledger, b: nat)
    requires BlockInv(c, s, l) && RunOk(c, s, acts) && Finished(Run(c, s, acts), Noted(c, s, acts, l), b)
    requires var a := Noted(c, s, acts, l).ctas[b];
      DimOk(a.blockDim) && a.blockSize == Volume(a.blockDim) && a.warpStep == Digits(c.threads, a.blockDim)
    ensures EachThreadOnce(Noted(c, s, acts, l), b)
  {
    BlocksOverRun(c, s, acts, l);
    FinishedBlockIds(c, Run(c, s, acts), Noted(c, s, acts, l), b);
  }
}
