/** The CTA dispatcher seen from outside: the blocks delivered to it, and the records it hands out.
    Blocks are taken in the order they came and go round the slots, a warp is initialised once per
    kernel, and a call holds back only for a warp that is still running. */
module CtaHistory {
  import opened Basics
  import opened ThreadIds
  import opened CtaModel
  import opened CtaRuns
  import opened CtaBlocks

  datatype Event = Took(cta: Cta, slot: nat) | Gave(w: nat, rec: Warp)

  /** Blocks delivered, blocks taken up, and everything in order. */
  datatype History = History(offered: seq<Cta>, taken: seq<Cta>, events: seq<Event>)

  /** The kernel of the last block taken up; zero out of reset. */
  function LastPc(h: seq<Event>): nat {
    if h == [] then 0 else if h[|h| - 1].Took? then h[|h| - 1].cta.pc else LastPc(h[..|h| - 1])
  }

  /** Warp `w` got a record after the kernel last changed. */
  function Served(h: seq<Event>, w: nat): bool {
    if h == [] then false
    else
      var before := h[..|h| - 1];
      match h[|h| - 1]
      case Took(a, _) => a.pc == LastPc(before) && Served(before, w)
      case Gave(v, _) => v == w || Served(before, w)
  }

  ghost predicate Changes(h: seq<Event>, i: nat)
    requires i < |h|
  {
    h[i].Took? && h[i].cta.pc != LastPc(h[..i])
  }

  ghost predicate SameKernelSince(h: seq<Event>, j: nat) { forall i | j < i < |h| :: !Changes(h, i) }

  ghost predicate GivenAt(h: seq<Event>, w: nat, j: nat) { j < |h| && h[j].Gave? && h[j].w == w && SameKernelSince(h, j) }

  lemma GivenBefore(h: seq<Event>, w: nat, j: nat)
    requires j < |h| - 1
    ensures GivenAt(h, w, j) <==> GivenAt(h[..|h| - 1], w, j) && !Changes(h, |h| - 1)
  {
    var g := h[..|h| - 1];
    assert forall i | 0 <= i < |g| :: h[..i] == g[..i];
    forall i | 0 <= i < |g| ensures Changes(g, i) == Changes(h, i) {
      assert h[..i] == g[..i];
    }
  }

  /** `Served` is what it says: some record went to the warp with no change of kernel since. */
  lemma {:induction false} ServedMeans(h: seq<Event>, w: nat)
    ensures Served(h, w) <==> exists j: nat :: GivenAt(h, w, j)
    decreases |h|
  {
    if h != [] {
      var n, g := |h| - 1, h[..|h| - 1];
      ServedMeans(g, w);
      if Served(h, w) {
        if h[n].Gave? && h[n].w == w {
          assert GivenAt(h, w, n);
        } else {
          var j: nat :| GivenAt(g, w, j);
          GivenBefore(h, w, j);
        }
      }
      if j: nat :| GivenAt(h, w, j) {
        if j < n {
          GivenBefore(h, w, j);
        }
      }
    }
  }

  /** Every record asks for initialisation exactly when its warp got none since the kernel changed. */
  ghost predicate InitRight(h: seq<Event>) {
    forall k | 0 <= k < |h| && h[k].Gave? :: h[k].rec.doInit == !Served(h[..k], h[k].w)
  }

  lemma InitAdd(h: seq<Event>, e: Event)
    requires InitRight(h) && (e.Gave? ==> e.rec.doInit == !Served(h, e.w))
    ensures InitRight(h + [e])
  {
    forall k | 0 <= k < |h| + 1 && (h + [e])[k].Gave?
      ensures (h + [e])[k].rec.doInit == !Served((h + [e])[..k], (h + [e])[k].w)
    {
      assert (h + [e])[..k] == h[..k];
      assert k == |h| ==> h[..k] == h;
    }
  }

  // ----- keeping the history -----

  /** A block is delivered when the dispatcher has none, in progress or waiting. */
  function Offer(s: State, next: Option<Cta>, h: History): History {
    if !s.has && s.pending.None? && next.Some? then h.(offered := h.offered + [next.value]) else h
  }

  function Take(s: State, t: State, h: History): History {
    if !s.has && t.has then h.(taken := h.taken + [t.cta], events := h.events + [Took(t.cta, t.cur)]) else h
  }

  function Give(out: Option<(nat, Warp)>, h: History): History {
    if out.None? then h else h.(events := h.events + [Gave(out.value.0, out.value.1)])
  }

  ghost function Recorded(c: Config, s: State, a: Action, h: History): History
    requires Conserved(c, s) && ActionOk(c, s, a)
  {
    match a
    case Exit(w) => h
    case Call(active, next) =>
      Give(Step(c, s, active, next).1, Take(s, Load(c, s, next), Offer(s, next, h)))
  }

  ghost predicate HistoryInv(c: Config, s: State, h: History) {
    && |s.inited| == c.warps
    && h.offered == h.taken + (if s.pending.Some? then [s.pending.value] else [])
    && (s.has ==> s.pending.None?)
    && s.pc == LastPc(h.events) && (forall w | 0 <= w < c.warps :: s.inited[w] == Served(h.events, w))
    && InitRight(h.events)
  }

  /** Block `a` is taken up. */
  lemma TakeHistory(c: Config, s: State, t: State, a: Cta, h: History)
    requires HistoryInv(c, s, h) && !s.has && t.has && s.pending == Some(a) && t.pending.None? && t.cta == a && t.pc == a.pc
    requires t.inited == if a.pc != s.pc then seq(c.warps, _ => false) else s.inited
    ensures HistoryInv(c, t, Take(s, t, h))
  {
    InitAdd(h.events, Took(t.cta, t.cur));
    assert (h.events + [Took(t.cta, t.cur)])[..|h.events|] == h.events;
  }

  /** What the admission part of a call comes to, once the block to admit is `s.pending`. */
  ghost predicate Admission(c: Config, s: State, t: State)
    requires ConfigOk(c)
  {
    if s.has || s.pending.None? then t == s
    else
      var a := s.pending.value;
      var max := Slots(c, a);
      if t.has then
        && t.pending.None? && t.cta == a && t.pc == a.pc && t.cur == Base(Tail(s.tail, max), max, a)
        && t.tail == (t.cur + 1) % max && t.inited == if a.pc != s.pc then seq(c.warps, _ => false) else s.inited
      else t == s.(tail := Tail(s.tail, max))
  }

  lemma LoadAdmits(c: Config, s: State, next: Option<Cta>) returns (r: State)
    requires Shape(c, s)
    ensures r == if s.has || s.pending.Some? then s else s.(pending := next)
    ensures Admission(c, r, Load(c, s, next))
  {
    r := if s.has || s.pending.Some? then s else s.(pending := next);
  }

  lemma LoadHistory(c: Config, s: State, next: Option<Cta>, t: State, h: History)
    requires Shape(c, s) && HistoryInv(c, s, h) && t == Load(c, s, next)
    ensures HistoryInv(c, t, Take(s, t, Offer(s, next, h)))
  {
    var r := LoadAdmits(c, s, next);
    var o := Offer(s, next, h);
    assert HistoryInv(c, r, o);
    if !r.has && t.has {
      TakeHistory(c, r, t, r.pending.value, o);
    }
  }

  lemma DispatchHistory(c: Config, s: State, w: nat, h: History)
    requires Shape(c, s) && s.has && w < c.warps && HistoryInv(c, s, h)
    ensures var (t, rec) := Dispatch(c, s, w); HistoryInv(c, t, Give(Some((w, rec)), h))
  {
    var (t, rec) := Dispatch(c, s, w);
    InitAdd(h.events, Gave(w, rec));
    assert (h.events + [Gave(w, rec)])[..|h.events|] == h.events;
  }

  lemma RecordedKeeps(c: Config, s: State, a: Action, h: History)
    requires Conserved(c, s) && ActionOk(c, s, a) && HistoryInv(c, s, h)
    ensures HistoryInv(c, Apply(c, s, a), Recorded(c, s, a, h))
  {
    match a
    case Exit(w) => DoneConserves(c, s, w);
    case Call(active, next) =>
      LoadShape(c, s, next);
      LoadHistory(c, s, next, Load(c, s, next), h);
      var t, w := Load(c, s, next), FreeWarp(active, 0);
      if t.has && w < c.warps {
        DispatchHistory(c, t, w, Take(s, t, Offer(s, next, h)));
      }
  }

  // ----- round the slots -----

  /** Blocks of a cluster: one, if a dimension is zero. */
  function Members(a: Cta): nat {
    var d := a.clusterDim;
    if d.x == 0 || d.y == 0 || d.z == 0 then 1 else d.x * d.y * d.z
  }

  lemma MembersIs(a: Cta)
    ensures Members(a) == ClusterSize(a)
  {
    var d := a.clusterDim;
    if d.x > 0 && d.y > 0 && d.z > 0 {
      MulMono(1, d.x, d.y);
      MulMono(1, d.x * d.y, d.z);
    }
  }

  /** The slots a block can use: as many as fit the local memory, but at least one and no more than
      there are warps. */
  lemma SlotsExact(c: Config, a: Cta)
    requires ConfigOk(c)
    ensures var n, stride := Slots(c, a), Stride(c, a.lmemSize);
      && 1 <= n <= c.warps && (n == 1 || n * stride <= c.lmemCap)
      && (n == c.warps || (n + 1) * stride > c.lmemCap)
  {
    var n, stride := Slots(c, a), Stride(c, a.lmemSize);
    if stride > 0 {
      Euclid(c.lmemCap, stride);
      var fit := c.lmemCap / stride;
      if n <= fit {
        MulMono(n, fit, stride);
      }
      if n < c.warps {
        MulMono(fit + 1, n + 1, stride);
      }
    }
  }

  /** The slot after the one last given, in the slots its block could use; the first to begin with. */
  function Following(c: Config, h: seq<Event>): nat
    requires c.block > 0
  {
    if h == [] then 0
    else
      match h[|h| - 1]
      case Took(a, slot) => if slot + 1 == Slots(c, a) then 0 else slot + 1
      case Gave(_, _) => Following(c, h[..|h| - 1])
  }

  /** Where a block goes when `t` follows: there, or to the first slot if `t` or the block's cluster
      is beyond the slots it can use. */
  function PlaceAt(c: Config, t: nat, a: Cta): nat
    requires c.block > 0
  {
    var n := Slots(c, a);
    if t >= n || (a.first && t + Members(a) > n) then 0 else t
  }

  ghost predicate RoundRobin(c: Config, h: seq<Event>)
    requires c.block > 0
  {
    forall k | 0 <= k < |h| && h[k].Took? :: h[k].slot == PlaceAt(c, Following(c, h[..k]), h[k].cta)
  }

  lemma RoundAdd(c: Config, h: seq<Event>, e: Event)
    requires c.block > 0 && RoundRobin(c, h) && (e.Took? ==> e.slot == PlaceAt(c, Following(c, h), e.cta))
    ensures RoundRobin(c, h + [e])
  {
    forall k | 0 <= k < |h| + 1 && (h + [e])[k].Took?
      ensures (h + [e])[k].slot == PlaceAt(c, Following(c, (h + [e])[..k]), (h + [e])[k].cta)
    {
      assert (h + [e])[..k] == h[..k];
      assert k == |h| ==> h[..k] == h;
    }
  }

  /** The tail is the following slot, perhaps already brought into the range of the waiting block. */
  ghost predicate RoundInv(c: Config, s: State, h: seq<Event>) {
    && c.block > 0 && RoundRobin(c, h)
    && var t := Following(c, h);
       s.tail == t || (!s.has && s.pending.Some? && s.tail == Tail(t, Slots(c, s.pending.value)))
  }

  lemma NextSlot(k: nat, n: nat)
    requires k < n
    ensures (k + 1) % n == if k + 1 == n then 0 else k + 1
  {
    if k + 1 < n {
      SmallMod(k + 1, n);
    }
  }

  lemma TakeRound(c: Config, s: State, t: State, a: Cta, h: seq<Event>)
    requires ConfigOk(c) && RoundInv(c, s, h) && !s.has && s.pending == Some(a) && t.has && t.cta == a
    requires var max := Slots(c, a); t.cur == Base(Tail(s.tail, max), max, a) && t.tail == (t.cur + 1) % max
    ensures RoundInv(c, t, h + [Took(t.cta, t.cur)])
  {
    WindowFits(c, s.tail, a);
    MembersIs(a);
    RoundAdd(c, h, Took(a, t.cur));
    NextSlot(t.cur, Slots(c, a));
    assert (h + [Took(a, t.cur)])[|h|] == Took(a, t.cur);
  }

  lemma LoadRound(c: Config, s: State, next: Option<Cta>, t: State, h: History)
    requires Shape(c, s) && RoundInv(c, s, h.events) && t == Load(c, s, next)
    ensures RoundInv(c, t, Take(s, t, Offer(s, next, h)).events)
  {
    var r := LoadAdmits(c, s, next);
    assert RoundInv(c, r, h.events);
    if !r.has && t.has {
      TakeRound(c, r, t, r.pending.value, h.events);
    }
  }

  lemma RecordedRounds(c: Config, s: State, a: Action, h: History)
    requires Conserved(c, s) && ActionOk(c, s, a) && RoundInv(c, s, h.events)
    ensures RoundInv(c, Apply(c, s, a), Recorded(c, s, a, h).events)
  {
    match a
    case Exit(w) => DoneConserves(c, s, w);
    case Call(active, next) =>
      LoadShape(c, s, next);
      var t, w := Load(c, s, next), FreeWarp(active, 0);
      LoadRound(c, s, next, t, h);
      if t.has && w < c.warps {
        GiveRound(c, t, w, Take(s, t, Offer(s, next, h)).events);
      }
  }

  lemma GiveRound(c: Config, s: State, w: nat, h: seq<Event>)
    requires Shape(c, s) && s.has && w < c.warps && RoundInv(c, s, h)
    ensures var (t, rec) := Dispatch(c, s, w); RoundInv(c, t, h + [Gave(w, rec)])
  {
    var e := Gave(w, Dispatch(c, s, w).1);
    RoundAdd(c, h, e);
    assert (h + [e])[..|h|] == h;
  }

  // ----- runs -----

  ghost function HistoryOf(c: Config, s: State, acts: seq<Action>, h: History): History
    requires Conserved(c, s) && RunOk(c, s, acts)
    decreases |acts|
  {
    if acts == [] then h
    else
      ApplyConserves(c, s, acts[0]);
      HistoryOf(c, Apply(c, s, acts[0]), acts[1..], Recorded(c, s, acts[0], h))
  }

  lemma {:induction false} HistoryKept(c: Config, s: State, acts: seq<Action>, h: History)
    requires Conserved(c, s) && RunOk(c, s, acts) && HistoryInv(c, s, h) && RoundInv(c, s, h.events)
    ensures HistoryInv(c, Run(c, s, acts), HistoryOf(c, s, acts, h))
    ensures RoundInv(c, Run(c, s, acts), HistoryOf(c, s, acts, h).events)
    decreases |acts|
  {
    if acts != [] {
      ApplyConserves(c, s, acts[0]);
      RecordedKeeps(c, s, acts[0], h);
      RecordedRounds(c, s, acts[0], h);
      HistoryKept(c, Apply(c, s, acts[0]), acts[1..], Recorded(c, s, acts[0], h));
    }
  }

  const NOTHING_YET := History([], [], [])

  /** Out of reset, over every run: the blocks taken up are those delivered, in order, but for the
      one that waits; they go round the slots; and a record asks its warp to initialise if and only
      if the warp got none since the last block of another kernel than the block before. */
  lemma RunFromReset(c: Config, s: State, acts: seq<Action>, k: nat)
    requires Empty(c, s) && s.pc == 0 && s.tail == 0 && (forall w | 0 <= w < c.warps :: !s.inited[w])
    requires Conserved(c, s) && RunOk(c, s, acts)
    ensures var h, t := HistoryOf(c, s, acts, NOTHING_YET), Run(c, s, acts);
      && h.offered == h.taken + (if t.pending.Some? then [t.pending.value] else []) && RoundRobin(c, h.events)
      && (k < |h.events| && h.events[k].Gave? ==>
            (h.events[k].rec.doInit <==> forall j: nat :: !GivenAt(h.events[..k], h.events[k].w, j)))
  {
    HistoryKept(c, s, acts, NOTHING_YET);
    var h := HistoryOf(c, s, acts, NOTHING_YET);
    if k < |h.events| && h.events[k].Gave? {
      ServedMeans(h.events[..k], h.events[k].w);
    }
  }

  // ----- progress -----

  /** A record goes out exactly when a block is in progress and a warp is idle, to the lowest. */
  lemma RecordGoesOut(c: Config, s: State, active: seq<bool>, next: Option<Cta>)
    requires Conserved(c, s) && ActionOk(c, s, Call(active, next))
    ensures var out := Step(c, s, active, next).1;
      && (out.Some? <==> Load(c, s, next).has && exists w :: 0 <= w < c.warps && !active[w])
      && (out.Some? ==> out.value.0 < c.warps && !active[out.value.0] && forall v | 0 <= v < out.value.0 :: active[v])
  {
    FreeWarpFree(active, 0);
  }

  lemma {:induction false} MappedWho(slotOf: seq<nat>, k: nat) returns (w: nat)
    requires Mapped(slotOf, k) > 0
    ensures w < |slotOf| && slotOf[w] == k
    decreases |slotOf|
  {
    w := |slotOf| - 1;
    if slotOf[w] != k {
      w := MappedWho(slotOf[..w], k);
    }
  }

  /** A block is kept waiting only while a warp of an earlier block runs. */
  lemma WaitsForWarp(c: Config, s: State, active: seq<bool>, next: Option<Cta>) returns (w: nat)
    requires Conserved(c, s) && ActionOk(c, s, Call(active, next))
    requires !s.has && (s.pending.Some? || next.Some?) && !Load(c, s, next).has
    ensures w < c.warps && s.slotOf[w] < c.warps && active[w]
  {
    var a := if s.pending.Some? then s.pending.value else next.value;
    WindowFits(c, s.tail, a);
    var max := Slots(c, a);
    var base := Base(Tail(s.tail, max), max, a);
    var k :| base <= k < base + Window(max, a) && s.rem[k] != 0;
    w := MappedWho(s.slotOf, k);
  }

  /** So a core with no warp running is never stuck: a call with a block hands out a record. */
  lemma IdleCoreGetsWork(c: Config, s: State, active: seq<bool>, next: Option<Cta>)
    requires Conserved(c, s) && ActionOk(c, s, Call(active, next)) && (forall w | 0 <= w < c.warps :: !active[w])
    ensures Step(c, s, active, next).1.Some? <==> s.has || s.pending.Some? || next.Some?
  {
    RecordGoesOut(c, s, active, next);
    assert !active[0];
    if !s.has && (s.pending.Some? || next.Some?) && !Load(c, s, next).has {
      var w := WaitsForWarp(c, s, active, next);
    }
  }
}
