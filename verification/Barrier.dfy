/** Barriers: per-core phase barriers with asynchronous events, and the cluster-wide rendezvous. */
module Barrier {

  const U32: nat := 0x1_0000_0000

  /** One barrier of a core: suspended warps, arrival tracker of the global level, arrival count,
      pending events and phase. */
  datatype Bar = Bar(wait: set<nat>, arrival: set<nat>, count: nat, events: nat, phase: nat)

  const RESET: Bar := Bar({}, {}, 0, 0, 0)

  // ----- the local barrier -----

  function Turn(b: Bar): Bar { b.(wait := {}, phase := (b.phase + 1) % U32) }

  /** An arrival at a barrier of `n` warps: the new state and the warps it resumes. */
  function Arrive(b: Bar, n: nat, wid: nat, sync: bool): (Bar, set<nat>)
    requires n > 0
  {
    var w := if sync then b.(wait := b.wait + {wid}) else b;
    var c := b.count + 1;
    if c == n && b.events == 0 then (Turn(w).(count := c % n), w.wait) else (w.(count := c % n), {})
  }

  /** A wait on phase `ph`; true when the warp suspends. */
  function Wait(b: Bar, ph: nat, wid: nat): (Bar, bool) {
    if b.phase == ph then (b.(wait := b.wait + {wid}), true) else (b, false)
  }

  function Attach(b: Bar, k: nat): Bar { b.(events := b.events + k) }

  function ReleaseEvent(b: Bar): (Bar, set<nat>)
    requires b.events > 0
  {
    var c := b.(events := b.events - 1);
    if c.events == 0 && b.count == 0 then (Turn(c), b.wait) else (c, {})
  }

  // ----- its protocol -----

  datatype Act = Arr(wid: nat, sync: bool) | WaitOn(ph: nat, wid: nat) | Att(k: nat) | Rel

  /** A barrier with what an observer knows: arrivals since the phase turned, turns, arrivals in
      all, the warps asleep on it, and the events attached and not yet released. */
  datatype Watch = Watch(bar: Bar, arrived: nat, turns: nat, total: nat, asleep: set<nat>, pending: nat)

  /** The rules of use: no more than `n` arrivals per phase, and the last event is not released
      before the phase's first arrival. */
  ghost predicate Legal(n: nat, s: Watch, a: Act) {
    match a
    case Arr(_, _) => s.arrived < n
    case Rel => s.pending > 0 && (s.pending == 1 ==> s.arrived > 0)
    case _ => true
  }

  ghost predicate BarInv(n: nat, s: Watch) {
    && n > 0 && s.arrived <= n && s.bar.count == (if s.arrived == n then 0 else s.arrived)
    && (s.arrived == n ==> s.pending > 0)
    && s.total == s.turns * n + s.arrived && s.bar.phase == s.turns % U32
    && s.asleep == s.bar.wait && s.pending == s.bar.events
  }

  function Resumed(s: Watch, n: nat, a: Act): set<nat>
    requires n > 0 && (a.Rel? ==> s.bar.events > 0)
  {
    match a
    case Arr(w, sync) => Arrive(s.bar, n, w, sync).1
    case Rel => ReleaseEvent(s.bar).1
    case _ => {}
  }

  function BarAfter(s: Watch, n: nat, a: Act): Bar
    requires n > 0 && (a.Rel? ==> s.bar.events > 0)
  {
    match a
    case Arr(w, sync) => Arrive(s.bar, n, w, sync).0
    case WaitOn(ph, w) => Wait(s.bar, ph, w).0
    case Att(k) => Attach(s.bar, k)
    case Rel => ReleaseEvent(s.bar).0
  }

  /** Warps that go to sleep with this action: a synchronising arrival, and a wait on the phase
      that the number of turns makes current. */
  function Falls(s: Watch, a: Act): set<nat> {
    match a
    case Arr(w, sync) => if sync then {w} else {}
    case WaitOn(ph, w) => if ph == s.turns % U32 then {w} else {}
    case _ => {}
  }

  /** Events attached and not yet released once the action has happened. */
  function Outstanding(s: Watch, a: Act): int {
    match a
    case Att(k) => s.pending + k
    case Rel => s.pending - 1
    case _ => s.pending
  }

  ghost function Next(s: Watch, n: nat, a: Act): Watch
    requires n > 0 && (a.Rel? ==> s.bar.events > 0 && s.pending > 0)
  {
    var b := BarAfter(s, n, a);
    var arrived := s.arrived + (if a.Arr? then 1 else 0);
    var total := s.total + (if a.Arr? then 1 else 0);
    var asleep := (s.asleep + Falls(s, a)) - Resumed(s, n, a);
    if b.phase != s.bar.phase then Watch(b, 0, s.turns + 1, total, asleep, Outstanding(s, a))
    else Watch(b, arrived, s.turns, total, asleep, Outstanding(s, a))
  }

  ghost predicate Turned(s: Watch, n: nat, a: Act)
    requires n > 0 && (a.Rel? ==> s.bar.events > 0)
  {
    BarAfter(s, n, a).phase != s.bar.phase
  }

  lemma PhaseMoves(p: nat)
    requires p < U32
    ensures (p + 1) % U32 != p
  {
  }

  lemma CountStep(c: nat, n: nat)
    requires c < n
    ensures (c + 1) % n == if c + 1 == n then 0 else c + 1
  {
    if c + 1 < n {
      assert (c + 1) / n == 0;
    }
  }

  lemma TurnsNext(turns: nat, n: nat)
    ensures (turns + 1) * n == turns * n + n && (turns % U32 + 1) % U32 == (turns + 1) % U32
  {
  }

  /** One legal action: the phase turns exactly when all `n` arrivals have happened and no event
      is pending; then exactly the sleepers wake, and otherwise nobody does. */
  lemma ActionExact(n: nat, s: Watch, a: Act)
    requires BarInv(n, s) && Legal(n, s, a)
    ensures var t := Next(s, n, a);
      && BarInv(n, t)
      && (Turned(s, n, a) <==>
            (a.Arr? || a.Rel?) && s.arrived + (if a.Arr? then 1 else 0) == n && Outstanding(s, a) == 0)
      && (a.WaitOn? ==> Wait(s.bar, a.ph, a.wid).1 == (a.wid in Falls(s, a)))
      && (if Turned(s, n, a) then Resumed(s, n, a) == s.asleep + Falls(s, a) && t.asleep == {}
          else Resumed(s, n, a) == {} && t.asleep == s.asleep + Falls(s, a))
  {
    PhaseMoves(s.bar.phase);
    TurnsNext(s.turns, n);
    if a.Arr? {
      CountStep(s.bar.count, n);
    }
  }

  ghost predicate LegalRun(n: nat, s: Watch, acts: seq<Act>)
    requires BarInv(n, s)
    decreases |acts|
  {
    acts != [] ==>
      && Legal(n, s, acts[0])
      && (ActionExact(n, s, acts[0]);
          LegalRun(n, Next(s, n, acts[0]), acts[1..]))
  }

  ghost function Run(n: nat, s: Watch, acts: seq<Act>): Watch
    requires BarInv(n, s) && LegalRun(n, s, acts)
    decreases |acts|
  {
    if acts == [] then s
    else
      ActionExact(n, s, acts[0]);
      Run(n, Next(s, n, acts[0]), acts[1..])
  }

  /** Over every legal run the phase has turned once per `n` arrivals, the warps asleep are exactly
      those the barrier will wake, and it counts exactly the events attached and not released. */
  lemma {:induction false} PhasesBalance(n: nat, s: Watch, acts: seq<Act>)
    requires BarInv(n, s) && LegalRun(n, s, acts)
    ensures BarInv(n, Run(n, s, acts))
    decreases |acts|
  {
    if acts != [] {
      ActionExact(n, s, acts[0]);
      PhasesBalance(n, Next(s, n, acts[0]), acts[1..]);
    }
  }

  // ----- where the rules are needed -----

  /** Releasing the last event turns the phase when nobody has arrived yet as well: the release
      rule is exactly what keeps a release from turning an incomplete phase. */
  lemma ReleaseExact(n: nat, s: Watch)
    requires BarInv(n, s) && s.pending == 1
    ensures (Turned(s, n, Rel) <==> s.arrived == n) <==> s.arrived > 0
  {
    PhaseMoves(s.bar.phase);
  }

  /** One arrival too many while an event is pending: the release that should turn the phase does
      not, unless the barrier is for a single warp. */
  lemma ExtraArrivalLosesTurn(n: nat, s: Watch, w: nat)
    requires BarInv(n, s) && s.arrived == n && s.pending == 1
    ensures var b := Arrive(s.bar, n, w, false).0; ReleaseEvent(b).0.phase == s.bar.phase <==> n > 1
  {
    PhaseMoves(s.bar.phase);
    CountStep(0, n);
  }

  /** The token a warp gets when it arrives is the low bit of the phase, but waiting compares the
      whole phase: waiting in the same phase suspends only while the phase is below two. */
  lemma ArriveTokenSuspends(b: Bar, w: nat)
    ensures Wait(b, b.phase % 2, w).1 <==> b.phase < 2
  {
  }

  // ----- the global barrier -----

  /** One global barrier: its per-core part and the cores that have notified the cluster. */
  datatype Cluster = Cluster(cores: seq<Bar>, mask: set<nat>)

  /** Wakes the sleepers of every core in `mask` from core `i` on. */
  function ResumeCores(cores: seq<Bar>, mask: set<nat>, i: nat): (r: seq<Bar>)
    requires i <= |cores|
    ensures |r| == |cores|
    decreases |cores| - i
  {
    if i == |cores| then cores
    else ResumeCores(if i in mask then cores[i := Turn(cores[i])] else cores, mask, i + 1)
  }

  /** A core whose warps have all arrived notifies the cluster, which resumes everyone when it is
      the last of `k` cores. */
  function Notify(c: Cluster, core: nat, k: nat): Cluster
    requires core < |c.cores|
  {
    var mask := c.mask + {core};
    if |mask| == k then Cluster(ResumeCores(c.cores, mask, 0), {}) else c.(mask := mask)
  }

  /** A core notifies once its `active` warps have arrived and no event is pending, and starts anew. */
  function Settle(c: Cluster, active: nat, core: nat, k: nat): Cluster
    requires core < |c.cores|
  {
    if |c.cores[core].arrival| == active && c.cores[core].events == 0 then
      var e := Notify(c, core, k);
      e.(cores := e.cores[core := e.cores[core].(arrival := {}, count := 0, events := 0)])
    else c
  }

  /** What an arrival enters in the core's barrier; only a synchronising one goes to sleep. */
  function Enter(b: Bar, k: nat, wid: nat, sync: bool): Bar {
    b.(count := k, arrival := b.arrival + {wid}, wait := if sync then b.wait + {wid} else b.wait)
  }

  function GlobalArrive(c: Cluster, active: nat, core: nat, k: nat, wid: nat, sync: bool): Cluster
    requires core < |c.cores|
  {
    Settle(c.(cores := c.cores[core := Enter(c.cores[core], k, wid, sync)]), active, core, k)
  }

  function GlobalAttach(c: Cluster, core: nat, n: nat): Cluster
    requires core < |c.cores|
  {
    c.(cores := c.cores[core := Attach(c.cores[core], n)])
  }

  /** An event is released: the arrivals it held up may now count. */
  function GlobalRelease(c: Cluster, active: nat, core: nat): Cluster
    requires core < |c.cores| && c.cores[core].events > 0
  {
    var b := c.cores[core];
    Settle(c.(cores := c.cores[core := b.(events := b.events - 1)]), active, core, b.count)
  }

  lemma {:induction false} ResumeAt(cores: seq<Bar>, mask: set<nat>, i: nat, j: nat)
    requires i <= |cores| && j < |cores|
    ensures ResumeCores(cores, mask, i)[j] == if i <= j && j in mask then Turn(cores[j]) else cores[j]
    decreases |cores| - i
  {
    if i < |cores| {
      ResumeAt(if i in mask then cores[i := Turn(cores[i])] else cores, mask, i + 1, j);
    }
  }

  /** What settling does to one core, for any arrivals: `released` when it is among the cores woken. */
  function Settled(b: Bar, last: bool, released: bool): Bar {
    var b' := if released then Turn(b) else b;
    if last then b'.(arrival := {}, count := 0, events := 0) else b'
  }

  /** Exactly the cores that have notified are woken, when the last of `k` notifies. */
  lemma SettleAt(c: Cluster, active: nat, k: nat, core: nat, i: nat)
    requires core < |c.cores| && i < |c.cores|
    ensures var d, last := Settle(c, active, core, k), |c.cores[core].arrival| == active && c.cores[core].events == 0;
      var release := last && |c.mask + {core}| == k;
      && |d.cores| == |c.cores|
      && d.cores[i] == Settled(c.cores[i], last && i == core, release && (i == core || i in c.mask))
      && d.mask == if release then {} else if last then c.mask + {core} else c.mask
  {
    ResumeAt(c.cores, c.mask + {core}, 0, i);
    ResumeAt(c.cores, c.mask + {core}, 0, core);
  }

  // ----- the rendezvous as its users see it -----

  /** What happened at one core: the warps that arrived in this phase, those asleep, the events
      attached and not yet released, whether the phase is complete, and the phases it went through. */
  datatype Seen = Seen(arrived: set<nat>, asleep: set<nat>, pending: nat, complete: bool, turns: nat)

  datatype GlobalAct =
    GArr(core: nat, wid: nat, sync: bool) | GWait(core: nat, ph: nat, wid: nat) | GAtt(core: nat, n: nat) | GRel(core: nat)

  /** Only a running warp acts: active on its core and not asleep.  It arrives once in a phase, and
      an event is released after it was attached. */
  ghost predicate GlobalOk(seen: seq<Seen>, active: seq<set<nat>>, a: GlobalAct) {
    && a.core < |seen| == |active|
    && (a.GArr? ==> a.wid in active[a.core] - seen[a.core].asleep - seen[a.core].arrived)
    && (a.GWait? ==> a.wid in active[a.core] - seen[a.core].asleep)
    && (a.GRel? ==> seen[a.core].pending > 0)
  }

  ghost function Happens(s: Seen, a: GlobalAct): Seen
    requires a.GRel? ==> s.pending > 0
  {
    match a
    case GArr(_, w, sync) => s.(arrived := s.arrived + {w}, asleep := if sync then s.asleep + {w} else s.asleep)
    case GWait(_, ph, w) => if ph == s.turns % U32 then s.(asleep := s.asleep + {w}) else s
    case GAtt(_, n) => s.(pending := s.pending + n)
    case GRel(_) => s.(pending := s.pending - 1)
  }

  /** A core's phase is complete once all its active warps have arrived and no event is pending. */
  ghost function Judged(s: Seen, active: set<nat>): Seen {
    s.(complete := s.complete || (s.arrived == active && s.pending == 0))
  }

  ghost function Released(s: Seen): Seen { Seen({}, {}, s.pending, false, s.turns + 1) }

  ghost function CompleteCores(seen: seq<Seen>): set<nat> { set i | 0 <= i < |seen| && seen[i].complete }

  ghost function SeenAfter(seen: seq<Seen>, active: seq<set<nat>>, a: GlobalAct): seq<Seen>
    requires GlobalOk(seen, active, a)
  {
    seen[a.core := Judged(Happens(seen[a.core], a), active[a.core])]
  }

  /** The rendezvous: when `k` cores are complete they enter the next phase together, all their
      sleepers awake; otherwise nobody wakes. */
  ghost function SeenNext(seen: seq<Seen>, active: seq<set<nat>>, k: nat, a: GlobalAct): seq<Seen>
    requires GlobalOk(seen, active, a)
  {
    var e := SeenAfter(seen, active, a);
    if |CompleteCores(e)| != k then e
    else seq(|e|, i requires 0 <= i < |e| => if e[i].complete then Released(e[i]) else e[i])
  }

  // ----- the barrier units refine it -----

  ghost predicate CoreRel(b: Bar, s: Seen, active: set<nat>, k: nat) {
    && active != {} && b.wait == s.asleep && b.events == s.pending && b.phase == s.turns % U32
    && b.arrival == (if s.complete then {} else s.arrived)
    && s.arrived <= active && (s.complete ==> s.arrived == active)
    && (!s.complete ==> (s.arrived != active || s.pending > 0) && (s.arrived != {} ==> b.count == k))
  }

  ghost predicate GlobalRel(c: Cluster, seen: seq<Seen>, active: seq<set<nat>>, k: nat) {
    && |c.cores| == |seen| == |active| && c.mask == CompleteCores(seen) && |c.mask| < k
    && forall i | 0 <= i < |seen| :: CoreRel(c.cores[i], seen[i], active[i], k)
  }

  ghost function GlobalNext(c: Cluster, active: nat, k: nat, a: GlobalAct): Cluster
    requires a.core < |c.cores| && (a.GRel? ==> c.cores[a.core].events > 0)
  {
    match a
    case GArr(core, wid, sync) => GlobalArrive(c, active, core, k, wid, sync)
    case GWait(core, ph, wid) => c.(cores := c.cores[core := Wait(c.cores[core], ph, wid).0])
    case GAtt(core, n) => GlobalAttach(c, core, n)
    case GRel(core) => GlobalRelease(c, active, core)
  }

  /** The core's barrier with the action entered, before it settles. */
  ghost function Entered(b: Bar, k: nat, a: GlobalAct): Bar
    requires a.GRel? ==> b.events > 0
  {
    match a
    case GArr(_, wid, sync) => Enter(b, k, wid, sync)
    case GWait(_, ph, wid) => Wait(b, ph, wid).0
    case GAtt(_, n) => Attach(b, n)
    case GRel(_) => b.(events := b.events - 1)
  }

  lemma SubsetCard(a: set<nat>, b: set<nat>)
    requires a <= b
    ensures |a| <= |b| && (|a| == |b| <==> a == b)
  {
    assert b == a + (b - a);
    assert |b| == |a| + |b - a|;
  }

  ghost predicate CoreOk(s: Seen, active: set<nat>, a: GlobalAct) {
    && (a.GArr? ==> a.wid in active - s.asleep - s.arrived)
    && (a.GWait? ==> a.wid in active - s.asleep)
    && (a.GRel? ==> s.pending > 0)
  }

  /** The core that acts settles exactly when the action completes its phase. */
  lemma SettlesWhenComplete(b: Bar, s: Seen, active: set<nat>, k: nat, a: GlobalAct)
    requires CoreRel(b, s, active, k) && CoreOk(s, active, a)
    ensures var e, t := Entered(b, k, a), Judged(Happens(s, a), active);
      && (!s.complete && t.complete <==> |e.arrival| == |active| && e.events == 0)
      && (!s.complete && t.complete ==> e.count == k)
      && (a.GAtt? || a.GWait? ==> t.complete == s.complete)
  {
    var e, t := Entered(b, k, a), Judged(Happens(s, a), active);
    if !s.complete {
      SubsetCard(t.arrived, active);
    }
  }

  /** A core whose barrier agrees with what happened so far, settled. */
  lemma SettledRel(e: Bar, t: Seen, active: set<nat>, k: nat, last: bool, release: bool)
    requires active != {} && e.wait == t.asleep && e.events == t.pending && e.phase == t.turns % U32
    requires t.arrived <= active && e.arrival == (if t.complete && !last then {} else t.arrived)
    requires if t.complete then t.arrived == active && (last ==> t.pending == 0)
             else !last && (t.arrived != active || t.pending > 0) && (t.arrived != {} ==> e.count == k)
    ensures CoreRel(Settled(e, last, release && t.complete), if release && t.complete then Released(t) else t, active, k)
  {
    TurnsNext(t.turns, 1);
  }

  /** The core that acts. */
  lemma ActorStep(b: Bar, s: Seen, active: set<nat>, k: nat, a: GlobalAct, release: bool)
    requires CoreRel(b, s, active, k) && CoreOk(s, active, a)
    ensures var e, t := Entered(b, k, a), Judged(Happens(s, a), active);
      var d := Settled(e, !s.complete && t.complete, release && t.complete);
      CoreRel(d, if release && t.complete then Released(t) else t, active, k)
  {
    var e, t := Entered(b, k, a), Judged(Happens(s, a), active);
    SettledRel(e, t, active, k, !s.complete && t.complete, release);
  }

  /** Any other core. */
  lemma OtherStep(b: Bar, s: Seen, active: set<nat>, k: nat, release: bool)
    requires CoreRel(b, s, active, k)
    ensures var d := Settled(b, false, release && s.complete);
      CoreRel(d, if release && s.complete then Released(s) else s, active, k)
  {
    SettledRel(b, s, active, k, false, release);
  }

  /** Settling in the observer's terms: the core was `complete`, and is `after` the action. */
  lemma SettleFull(c: Cluster, active: nat, k: nat, core: nat, complete: bool, after: bool, i: nat)
    requires core < |c.cores| && i < |c.cores| && |c.mask| < k && (core in c.mask <==> complete) && (complete ==> after)
    requires !complete && after <==> |c.cores[core].arrival| == active && c.cores[core].events == 0
    ensures var d, full := Settle(c, active, core, k), if after then c.mask + {core} else c.mask;
      && |d.cores| == |c.cores| && d.mask == (if |full| == k then {} else full)
      && d.cores[i] == Settled(c.cores[i], !complete && after && i == core, |full| == k && i in full)
  {
    SettleAt(c, active, k, core, i);
    assert complete ==> c.mask + {core} == c.mask;
  }

  lemma NextSettles(c: Cluster, active: nat, k: nat, a: GlobalAct)
    requires a.core < |c.cores| && (a.GRel? ==> c.cores[a.core].events > 0)
    ensures var b, e := c.cores[a.core], c.(cores := c.cores[a.core := Entered(c.cores[a.core], k, a)]);
      GlobalNext(c, active, k, a) ==
        if a.GArr? then Settle(e, active, a.core, k) else if a.GRel? then Settle(e, active, a.core, b.count) else e
  {
  }

  /** Where an action takes one core; `full` are the cores complete once it has happened. */
  lemma GlobalNextAt(c: Cluster, s: Seen, active: set<nat>, k: nat, a: GlobalAct, full: set<nat>, i: nat)
    requires a.core < |c.cores| && i < |c.cores| && |c.mask| < k && (a.core in c.mask <==> s.complete)
    requires CoreRel(c.cores[a.core], s, active, k) && CoreOk(s, active, a)
    requires full == if Judged(Happens(s, a), active).complete then c.mask + {a.core} else c.mask
    ensures var d, e, t := GlobalNext(c, |active|, k, a), Entered(c.cores[a.core], k, a), Judged(Happens(s, a), active);
      && |d.cores| == |c.cores| && d.mask == (if |full| == k then {} else full)
      && d.cores[i] == Settled(if i == a.core then e else c.cores[i], !s.complete && t.complete && i == a.core, |full| == k && i in full)
  {
    var b, e, t := c.cores[a.core], Entered(c.cores[a.core], k, a), Judged(Happens(s, a), active);
    var entered := c.(cores := c.cores[a.core := e]);
    SettlesWhenComplete(b, s, active, k, a);
    NextSettles(c, |active|, k, a);
    if a.GArr? || (a.GRel? && t.complete != s.complete) {
      SettleFull(entered, |active|, k, a.core, s.complete, t.complete, i);
    } else {
      assert s.complete ==> full == c.mask;
    }
  }

  lemma CompleteAfter(seen: seq<Seen>, i: nat, t: Seen)
    requires i < |seen| && (seen[i].complete ==> t.complete)
    ensures CompleteCores(seen[i := t]) == CompleteCores(seen) + if t.complete then {i} else {}
  {
  }

  lemma CoreNext(c: Cluster, s: Seen, s': Seen, active: set<nat>, active': set<nat>, k: nat, a: GlobalAct, full: set<nat>, i: nat)
    requires a.core < |c.cores| && i < |c.cores| && |c.mask| < k && (a.core in c.mask <==> s.complete)
    requires CoreRel(c.cores[a.core], s, active, k) && CoreOk(s, active, a)
    requires full == if Judged(Happens(s, a), active).complete then c.mask + {a.core} else c.mask
    requires if i == a.core then s' == s && active' == active
             else CoreRel(c.cores[i], s', active', k) && (i in c.mask <==> s'.complete)
    ensures var d, t := GlobalNext(c, |active|, k, a), if i == a.core then Judged(Happens(s, a), active) else s';
      && |d.cores| == |c.cores| && d.mask == (if |full| == k then {} else full)
      && CoreRel(d.cores[i], if |full| == k && t.complete then Released(t) else t, active', k)
  {
    GlobalNextAt(c, s, active, k, a, full, i);
    if i == a.core {
      ActorStep(c.cores[i], s, active, k, a, |full| == k);
    } else {
      OtherStep(c.cores[i], s', active', k, |full| == k);
    }
  }

  lemma SeenNextAt(seen: seq<Seen>, active: seq<set<nat>>, k: nat, a: GlobalAct, i: nat) returns (t: Seen, full: set<nat>)
    requires GlobalOk(seen, active, a) && i < |seen|
    ensures t == if i == a.core then Judged(Happens(seen[i], a), active[i]) else seen[i]
    ensures full == CompleteCores(SeenAfter(seen, active, a))
    ensures full == CompleteCores(seen) + if Judged(Happens(seen[a.core], a), active[a.core]).complete then {a.core} else {}
    ensures |SeenNext(seen, active, k, a)| == |seen|
    ensures SeenNext(seen, active, k, a)[i] == if |full| == k && t.complete then Released(t) else t
  {
    t := if i == a.core then Judged(Happens(seen[i], a), active[i]) else seen[i];
    CompleteAfter(seen, a.core, Judged(Happens(seen[a.core], a), active[a.core]));
    full := CompleteCores(SeenAfter(seen, active, a));
  }

  lemma GlobalCore(c: Cluster, seen: seq<Seen>, active: seq<set<nat>>, k: nat, a: GlobalAct, i: nat, full: set<nat>)
    requires |c.cores| == |seen| && c.mask == CompleteCores(seen) && |c.mask| < k && GlobalOk(seen, active, a) && i < |seen|
    requires CoreRel(c.cores[a.core], seen[a.core], active[a.core], k) && CoreRel(c.cores[i], seen[i], active[i], k)
    requires full == CompleteCores(SeenAfter(seen, active, a))
    ensures var d, t := GlobalNext(c, |active[a.core]|, k, a), SeenNext(seen, active, k, a);
      && |d.cores| == |c.cores| && |t| == |seen| && CoreRel(d.cores[i], t[i], active[i], k)
      && d.mask == (if |full| == k then {} else full)
  {
    var t, f := SeenNextAt(seen, active, k, a, i);
    CoreNext(c, seen[a.core], seen[i], active[a.core], active[i], k, a, full, i);
  }

  lemma NoneComplete(seen: seq<Seen>, active: seq<set<nat>>, k: nat, a: GlobalAct)
    requires GlobalOk(seen, active, a)
    ensures var full := CompleteCores(SeenAfter(seen, active, a));
      CompleteCores(SeenNext(seen, active, k, a)) == if |full| == k then {} else full
  {
  }

  lemma CompleteBound(seen: seq<Seen>, active: seq<set<nat>>, k: nat, a: GlobalAct)
    requires GlobalOk(seen, active, a) && |CompleteCores(seen)| < k
    ensures |CompleteCores(SeenAfter(seen, active, a))| <= k
  {
    CompleteAfter(seen, a.core, Judged(Happens(seen[a.core], a), active[a.core]));
  }

  /** Every action of the units is the rendezvous's: the arrival or release that completes the last
      of `k` cores wakes the sleepers of exactly those cores, and every other action wakes nobody. */
  lemma GlobalExact(c: Cluster, seen: seq<Seen>, active: seq<set<nat>>, k: nat, a: GlobalAct)
    requires GlobalRel(c, seen, active, k) && GlobalOk(seen, active, a)
    ensures GlobalStep(c, seen, active, k, a)
  {
    var b := c.cores[a.core];
    assert CoreRel(b, seen[a.core], active[a.core], k);
    var d, t := GlobalNext(c, |active[a.core]|, k, a), SeenNext(seen, active, k, a);
    var full := CompleteCores(SeenAfter(seen, active, a));
    forall i | 0 <= i < |seen| ensures CoreRel(d.cores[i], t[i], active[i], k) {
      GlobalCore(c, seen, active, k, a, i, full);
    }
    GlobalCore(c, seen, active, k, a, a.core, full);
    NoneComplete(seen, active, k, a);
    CompleteBound(seen, active, k, a);
  }

  /** The units take the action, and are then where the rendezvous is. */
  ghost predicate GlobalStep(c: Cluster, seen: seq<Seen>, active: seq<set<nat>>, k: nat, a: GlobalAct)
    requires GlobalOk(seen, active, a)
  {
    && a.core < |c.cores| && (a.GRel? ==> c.cores[a.core].events > 0)
    && GlobalRel(GlobalNext(c, |active[a.core]|, k, a), SeenNext(seen, active, k, a), active, k)
  }

  ghost predicate GlobalLegal(seen: seq<Seen>, active: seq<set<nat>>, k: nat, acts: seq<GlobalAct>)
    decreases |acts|
  {
    acts != [] ==> GlobalOk(seen, active, acts[0]) && GlobalLegal(SeenNext(seen, active, k, acts[0]), active, k, acts[1..])
  }

  ghost function SeenRun(seen: seq<Seen>, active: seq<set<nat>>, k: nat, acts: seq<GlobalAct>): seq<Seen>
    requires GlobalLegal(seen, active, k, acts)
    decreases |acts|
  {
    if acts == [] then seen else SeenRun(SeenNext(seen, active, k, acts[0]), active, k, acts[1..])
  }

  ghost function GlobalRun(c: Cluster, seen: seq<Seen>, active: seq<set<nat>>, k: nat, acts: seq<GlobalAct>): Cluster
    requires GlobalRel(c, seen, active, k) && GlobalLegal(seen, active, k, acts)
    decreases |acts|
  {
    if acts == [] then c
    else
      GlobalExact(c, seen, active, k, acts[0]);
      GlobalRun(GlobalNext(c, |active[acts[0].core]|, k, acts[0]), SeenNext(seen, active, k, acts[0]), active, k, acts[1..])
  }

  /** Over every run the units agree with the rendezvous: the sleepers, the pending events, the
      phases and the complete cores, of which there are fewer than `k`. */
  lemma {:induction false} GlobalRunRefines(c: Cluster, seen: seq<Seen>, active: seq<set<nat>>, k: nat, acts: seq<GlobalAct>)
    requires GlobalRel(c, seen, active, k) && GlobalLegal(seen, active, k, acts)
    ensures GlobalRel(GlobalRun(c, seen, active, k, acts), SeenRun(seen, active, k, acts), active, k)
    decreases |acts|
  {
    if acts != [] {
      var a := acts[0];
      GlobalExact(c, seen, active, k, a);
      GlobalRunRefines(GlobalNext(c, |active[a.core]|, k, a), SeenNext(seen, active, k, a), active, k, acts[1..]);
    }
  }

  /** Units out of reset, for at least one core and with warps active everywhere. */
  lemma GlobalStart(active: seq<set<nat>>, k: nat)
    requires k > 0 && forall i | 0 <= i < |active| :: active[i] != {}
    ensures GlobalRel(Cluster(seq(|active|, _ => RESET), {}), seq(|active|, _ => Seen({}, {}, 0, false, 0)), active, k)
  {
    var seen := seq(|active|, _ => Seen({}, {}, 0, false, 0));
    assert CompleteCores(seen) == {};
  }

  ghost predicate Together(seen: seq<Seen>, turns: nat) { forall i | 0 <= i < |seen| :: seen[i].turns == turns }

  ghost function Below(n: nat): (r: set<nat>)
    ensures |r| == n && forall i: nat :: i in r <==> i < n
  {
    if n == 0 then {} else Below(n - 1) + {n - 1}
  }

  lemma AllComplete(seen: seq<Seen>, i: nat)
    requires |CompleteCores(seen)| == |seen| && i < |seen|
    ensures seen[i].complete
  {
    SubsetCard(CompleteCores(seen), Below(|seen|));
    assert i in Below(|seen|);
  }

  lemma TogetherNext(seen: seq<Seen>, active: seq<set<nat>>, a: GlobalAct, turns: nat) returns (now: nat)
    requires GlobalOk(seen, active, a) && Together(seen, turns)
    ensures Together(SeenNext(seen, active, |seen|, a), now)
  {
    var e := SeenAfter(seen, active, a);
    now := turns;
    if |CompleteCores(e)| == |seen| {
      forall i | 0 <= i < |seen| ensures e[i].complete {
        AllComplete(e, i);
      }
      now := turns + 1;
    }
  }

  lemma {:induction false} StayTogether(seen: seq<Seen>, active: seq<set<nat>>, acts: seq<GlobalAct>, turns: nat) returns (now: nat)
    requires GlobalLegal(seen, active, |seen|, acts) && Together(seen, turns)
    ensures Together(SeenRun(seen, active, |seen|, acts), now)
    decreases |acts|
  {
    now := turns;
    if acts != [] {
      now := TogetherNext(seen, active, acts[0], turns);
      now := StayTogether(SeenNext(seen, active, |seen|, acts[0]), active, acts[1..], now);
    }
  }

  /** A barrier of all cores keeps them in step: no core is ever in a later phase than another. */
  lemma PhasesTogether(c: Cluster, seen: seq<Seen>, active: seq<set<nat>>, acts: seq<GlobalAct>, turns: nat, i: nat, j: nat)
    requires GlobalRel(c, seen, active, |seen|) && GlobalLegal(seen, active, |seen|, acts) && Together(seen, turns)
    ensures var d := GlobalRun(c, seen, active, |seen|, acts);
      i < |d.cores| && j < |d.cores| ==> d.cores[i].phase == d.cores[j].phase
  {
    GlobalRunRefines(c, seen, active, |seen|, acts);
    var now := StayTogether(seen, active, acts, turns);
    var d, t := GlobalRun(c, seen, active, |seen|, acts), SeenRun(seen, active, |seen|, acts);
    if i < |d.cores| && j < |d.cores| {
      assert CoreRel(d.cores[i], t[i], active[i], |seen|) && CoreRel(d.cores[j], t[j], active[j], |seen|);
    }
  }

  // ----- the objects -----

  class BarrierUnit {
    const warps: nat
    const bars: array<Bar>
    var resumed: seq<nat>  // calls into the scheduler, in order

    ghost predicate Valid()
      reads this, bars
    {
      forall i | 0 <= i < bars.Length :: forall w | w in bars[i].wait :: w < warps
    }

    constructor (warps: nat, barriers: nat)
      ensures Valid() && fresh(bars) && this.warps == warps && bars.Length == barriers && resumed == []
      ensures forall i | 0 <= i < barriers :: bars[i] == RESET
    {
      this.warps := warps;
      bars := new Bar[barriers](_ => RESET);
      resumed := [];
    }

    /** Resumes the warps of a mask in ascending order. */
    method ResumeAll(mask: set<nat>)
      modifies this`resumed
      ensures old(resumed) <= resumed
      ensures (set w | w in resumed[|old(resumed)|..]) == set w | w in mask && w < warps
      ensures forall i, j | |old(resumed)| <= i < j < |resumed| :: resumed[i] < resumed[j]
    {
      for i := 0 to warps
        invariant old(resumed) <= resumed
        invariant forall w :: w in resumed[|old(resumed)|..] <==> w in mask && w < i
        invariant forall x, y | |old(resumed)| <= x < y < |resumed| :: resumed[x] < resumed[y]
      {
        if i in mask {
          ghost var n, before := |old(resumed)|, resumed;
          resumed := resumed + [i];
          assert resumed[n..] == before[n..] + [i];
          forall x | n <= x < |before| ensures before[x] < i {
            assert before[x] == before[n..][x - n];
            assert before[x] in before[n..];
          }
        }
      }
    }

    method ArriveAt(id: nat, n: nat, wid: nat, sync: bool)
      requires Valid() && id < bars.Length && n > 0 && wid < warps
      modifies this`resumed, bars
      ensures Valid() && bars[..] == old(bars[..])[id := Arrive(old(bars[id]), n, wid, sync).0]
      ensures old(resumed) <= resumed
      ensures (set w | w in resumed[|old(resumed)|..]) == Arrive(old(bars[id]), n, wid, sync).1
    {
      var b := bars[id];
      if sync {
        b := b.(wait := b.wait + {wid});
      }
      var c := b.count + 1;
      if c == n && b.events == 0 {
        ResumeAll(b.wait);
        b := b.(wait := {}, phase := (b.phase + 1) % U32);
      }
      bars[id] := b.(count := c % n);
    }

    method WaitAt(id: nat, ph: nat, wid: nat) returns (suspend: bool)
      requires Valid() && id < bars.Length && wid < warps
      modifies bars
      ensures Valid() && bars[..] == old(bars[..])[id := Wait(old(bars[id]), ph, wid).0]
      ensures suspend == Wait(old(bars[id]), ph, wid).1
    {
      suspend := bars[id].phase == ph;
      if suspend {
        bars[id] := bars[id].(wait := bars[id].wait + {wid});
      }
    }

    method EventAttach(id: nat, k: nat)
      requires Valid() && id < bars.Length
      modifies bars
      ensures Valid() && bars[..] == old(bars[..])[id := Attach(old(bars[id]), k)]
    {
      bars[id] := bars[id].(events := bars[id].events + k);
    }

    method EventRelease(id: nat)
      requires Valid() && id < bars.Length && bars[id].events > 0
      modifies this`resumed, bars
      ensures Valid() && bars[..] == old(bars[..])[id := ReleaseEvent(old(bars[id])).0]
      ensures old(resumed) <= resumed
      ensures (set w | w in resumed[|old(resumed)|..]) == ReleaseEvent(old(bars[id])).1
    {
      var b := bars[id].(events := bars[id].events - 1);
      if b.events == 0 && b.count == 0 {
        ResumeAll(b.wait);
        b := b.(wait := {}, phase := (b.phase + 1) % U32);
      }
      bars[id] := b;
    }
  }

  /** The cluster's side of one global barrier. */
  class GlobalBarrier {
    const cores: array<Bar>
    var mask: set<nat>

    ghost function View(): Cluster
      reads this, cores
    {
      Cluster(cores[..], mask)
    }

    constructor (n: nat)
      ensures fresh(cores) && View() == Cluster(seq(n, _ => RESET), {})
    {
      cores := new Bar[n](_ => RESET);
      mask := {};
      new;
      assert cores[..] == seq(n, _ => RESET);
    }

    method NotifyArrival(core: nat, k: nat)
      requires core < cores.Length
      modifies this, cores
      ensures View() == Notify(old(View()), core, k)
    {
      mask := mask + {core};
      if |mask| == k {
        ghost var start := cores[..];
        for i := 0 to cores.Length
          invariant mask == old(mask) + {core} && ResumeCores(cores[..], mask, i) == ResumeCores(start, mask, 0)
        {
          if i in mask {
            cores[i] := Turn(cores[i]);
          }
        }
        mask := {};
      }
    }

    method SettleCore(active: nat, core: nat, k: nat)
      requires core < cores.Length
      modifies this, cores
      ensures View() == Settle(old(View()), active, core, k)
    {
      if |cores[core].arrival| == active && cores[core].events == 0 {
        NotifyArrival(core, k);
        cores[core] := cores[core].(arrival := {}, count := 0, events := 0);
      }
    }

    method ArriveGlobal(active: nat, core: nat, k: nat, wid: nat, sync: bool)
      requires core < cores.Length
      modifies this, cores
      ensures View() == GlobalArrive(old(View()), active, core, k, wid, sync)
    {
      var b := cores[core];
      b := b.(count := k, arrival := b.arrival + {wid});
      if sync {
        b := b.(wait := b.wait + {wid});
      }
      cores[core] := b;
      SettleCore(active, core, k);
    }

    method AttachGlobal(core: nat, n: nat)
      requires core < cores.Length
      modifies cores
      ensures View() == GlobalAttach(old(View()), core, n)
    {
      cores[core] := cores[core].(events := cores[core].events + n);
    }

    method ReleaseGlobal(active: nat, core: nat)
      requires core < cores.Length && cores[core].events > 0
      modifies this, cores
      ensures View() == GlobalRelease(old(View()), active, core)
    {
      cores[core] := cores[core].(events := cores[core].events - 1);
      SettleCore(active, core, cores[core].count);
    }
  }
}
