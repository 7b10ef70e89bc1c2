/** The event kernel: a timing wheel whose buckets hold events of several turns.  It behaves as
    a queue that fires every event at its due cycle, in scheduling order. */
module TimingWheel {
  import opened Basics

  const WHEEL_SIZE: nat := 4096

  /** `uid` numbers the calls of `schedule`. */
  datatype Event = Event(due: nat, uid: nat, id: nat)

  /** Delays from one cycle up. */
  type Delay = d: nat | d > 0 witness 1

  datatype Req = Req(delay: Delay, id: nat)

  datatype Fired = Fired(e: Event, at: nat)

  /** What firing an event schedules may depend on everything fired so far. */
  datatype Model = Model(react: seq<Fired> -> seq<Req>)

  // ----- the wheel -----

  datatype Wheel = Wheel(buckets: seq<seq<Event>>, cycles: nat, next: nat)

  predicate WheelOk(w: Wheel) { |w.buckets| == WHEEL_SIZE }

  function Slot(due: nat): nat { due % WHEEL_SIZE }

  function Schedule(w: Wheel, q: Req): Wheel
    requires WheelOk(w)
  {
    var e := Event(w.cycles + q.delay, w.next, q.id);
    w.(buckets := w.buckets[Slot(e.due) := w.buckets[Slot(e.due)] + [e]], next := w.next + 1)
  }

  function ScheduleAll(w: Wheel, qs: seq<Req>): (v: Wheel)
    requires WheelOk(w)
    ensures WheelOk(v) && v.cycles == w.cycles
    decreases |qs|
  {
    if qs == [] then w else ScheduleAll(Schedule(w, qs[0]), qs[1..])
  }

  // ----- filters -----

  datatype Test = By(c: nat) | After(c: nat) | InSlot(b: nat)

  predicate Passes(e: Event, t: Test) {
    match t
    case By(c) => e.due <= c
    case After(c) => e.due > c
    case InSlot(b) => Slot(e.due) == b
  }

  /** The events that pass, in order. */
  function Keep(s: seq<Event>, t: Test): seq<Event> {
    if s == [] then [] else (if Passes(s[0], t) then [s[0]] else []) + Keep(s[1..], t)
  }

  lemma {:induction false} KeepAppend(r: seq<Event>, s: seq<Event>, t: Test)
    ensures Keep(r + s, t) == Keep(r, t) + Keep(s, t)
    decreases |r|
  {
    if r == [] {
      assert r + s == s;
    } else {
      assert (r + s)[1..] == r[1..] + s;
      KeepAppend(r[1..], s, t);
      Assoc(if Passes(r[0], t) then [r[0]] else [], Keep(r[1..], t), Keep(s, t));
    }
  }

  lemma KeepOne(e: Event, t: Test)
    ensures Keep([e], t) == if Passes(e, t) then [e] else []
  {
    assert [e][1..] == [];
  }

  lemma {:induction false} KeepCommutes(s: seq<Event>, t: Test, u: Test)
    ensures Keep(Keep(s, t), u) == Keep(Keep(s, u), t)
    decreases |s|
  {
    if s != [] {
      KeepCommutes(s[1..], t, u);
      KeepOne(s[0], t);
      KeepOne(s[0], u);
      KeepAppend(if Passes(s[0], t) then [s[0]] else [], Keep(s[1..], t), u);
      KeepAppend(if Passes(s[0], u) then [s[0]] else [], Keep(s[1..], u), t);
    }
  }

  lemma {:induction false} KeepAll(s: seq<Event>, t: Test)
    requires forall k | 0 <= k < |s| :: Passes(s[k], t)
    ensures Keep(s, t) == s
    decreases |s|
  {
    if s != [] {
      KeepAll(s[1..], t);
    }
  }

  lemma {:induction false} KeepNone(s: seq<Event>, t: Test)
    requires forall k | 0 <= k < |s| :: !Passes(s[k], t)
    ensures Keep(s, t) == []
    decreases |s|
  {
    if s != [] {
      KeepNone(s[1..], t);
    }
  }

  lemma {:induction false} KeepPasses(s: seq<Event>, t: Test)
    ensures forall k | 0 <= k < |Keep(s, t)| :: Passes(Keep(s, t)[k], t) && Keep(s, t)[k] in s
    decreases |s|
  {
    if s != [] {
      KeepPasses(s[1..], t);
    }
  }

  lemma KeepErase(s: seq<Event>, k: nat, t: Test)
    requires k < |s|
    ensures !Passes(s[k], t) ==> Keep(Without(s, k), t) == Keep(s, t)
  {
    assert s == s[..k] + ([s[k]] + s[k + 1..]);
    KeepAppend(s[..k], [s[k]] + s[k + 1..], t);
    KeepAppend([s[k]], s[k + 1..], t);
    KeepAppend(s[..k], s[k + 1..], t);
    KeepOne(s[k], t);
  }

  // ----- a plain queue -----

  /** Pending events in scheduling order. */
  datatype Queue = Queue(pending: seq<Event>, cycles: nat, next: nat)

  function QSchedule(q: Queue, r: Req): Queue {
    q.(pending := q.pending + [Event(q.cycles + r.delay, q.next, r.id)], next := q.next + 1)
  }

  function QScheduleAll(q: Queue, rs: seq<Req>): (p: Queue)
    ensures p.cycles == q.cycles
    decreases |rs|
  {
    if rs == [] then q else QScheduleAll(QSchedule(q, rs[0]), rs[1..])
  }

  function Due(s: seq<Event>, c: nat): seq<Event> { Keep(s, By(c)) }

  function NotDue(s: seq<Event>, c: nat): seq<Event> { Keep(s, After(c)) }

  /** Fires `due` one after the other. */
  function FireAll(q: Queue, due: seq<Event>, log: seq<Fired>, m: Model): (Queue, seq<Fired>)
    decreases |due|
  {
    if due == [] then (q, log)
    else
      var log' := log + [Fired(due[0], q.cycles)];
      FireAll(QScheduleAll(q, m.react(log')), due[1..], log', m)
  }

  function QTick(q: Queue, log: seq<Fired>, m: Model): (Queue, seq<Fired>) {
    var c := q.cycles + 1;
    FireAll(q.(pending := NotDue(q.pending, c), cycles := c), Due(q.pending, c), log, m)
  }

  // ----- firing a bucket in place -----

  /** Walks the bucket of the current cycle from position `k`: an event that is due fires, which
      may append to any bucket, and is then erased; a later turn's event is skipped. */
  function Walk(w: Wheel, k: nat, log: seq<Fired>, m: Model): (Wheel, seq<Fired>)
    requires WheelOk(w) && k <= |w.buckets[Slot(w.cycles)]|
    decreases |Due(w.buckets[Slot(w.cycles)][k..], w.cycles)|, |w.buckets[Slot(w.cycles)]| - k
  {
    var b := Slot(w.cycles);
    var s := w.buckets[b];
    if k == |s| then (w, log)
    else if s[k].due > w.cycles then
      WalkSkips(s, k, w.cycles);
      Walk(w, k + 1, log, m)
    else
      var log' := log + [Fired(s[k], w.cycles)];
      var v := ScheduleAll(w, m.react(log'));
      ScheduleGrows(w, m.react(log'), b);
      WalkFires(s, v.buckets[b], k, w.cycles);
      Walk(v.(buckets := v.buckets[b := Without(v.buckets[b], k)]), k, log', m)
  }

  lemma WalkSkips(s: seq<Event>, k: nat, c: nat)
    requires k < |s| && s[k].due > c
    ensures Due(s[k..], c) == Due(s[k + 1..], c)
  {
    assert s[k..][1..] == s[k + 1..];
  }

  /** Scheduling only appends, and only events of later cycles. */
  lemma {:induction false} ScheduleGrows(w: Wheel, qs: seq<Req>, b: nat)
    requires WheelOk(w) && b < WHEEL_SIZE
    ensures var v := ScheduleAll(w, qs);
      && |w.buckets[b]| <= |v.buckets[b]| && v.buckets[b][..|w.buckets[b]|] == w.buckets[b]
      && forall j | |w.buckets[b]| <= j < |v.buckets[b]| :: v.buckets[b][j].due > w.cycles
    decreases |qs|
  {
    if qs != [] {
      var u := Schedule(w, qs[0]);
      ScheduleGrows(u, qs[1..], b);
      var v := ScheduleAll(u, qs[1..]);
      assert v.buckets[b][..|w.buckets[b]|] == v.buckets[b][..|u.buckets[b]|][..|w.buckets[b]|];
      forall j | |w.buckets[b]| <= j < |v.buckets[b]| ensures v.buckets[b][j].due > w.cycles {
        if j < |u.buckets[b]| {
          assert v.buckets[b][j] == v.buckets[b][..|u.buckets[b]|][j];
        }
      }
    }
  }

  lemma WalkFires(s: seq<Event>, v: seq<Event>, k: nat, c: nat)
    requires k < |s| <= |v| && v[..|s|] == s && s[k].due <= c
    requires forall j | |s| <= j < |v| :: v[j].due > c
    ensures Due(s[k..], c) == [s[k]] + Due(Without(v, k)[k..], c)
  {
    assert s[k..][1..] == s[k + 1..];
    var x, y := v[k + 1..|s|], v[|s|..];
    assert x == s[k + 1..];
    assert Without(v, k)[k..] == x + y;
    KeepAppend(x, y, By(c));
    KeepNone(y, By(c));
  }

  function Tick(w: Wheel, log: seq<Fired>, m: Model): (Wheel, seq<Fired>)
    requires WheelOk(w)
  {
    Walk(w.(cycles := w.cycles + 1), 0, log, m)
  }

  // ----- the wheel refines the queue -----

  ghost predicate AllAfter(s: seq<Event>, c: nat) { forall k | 0 <= k < |s| :: s[k].due > c }

  /** The future events of every bucket are the queue's events of that slot, in order. */
  ghost predicate Future(w: Wheel, q: Queue) {
    && WheelOk(w) && w.cycles == q.cycles && w.next == q.next && AllAfter(q.pending, q.cycles)
    && forall b | 0 <= b < WHEEL_SIZE :: Keep(w.buckets[b], After(w.cycles)) == Keep(q.pending, InSlot(b))
  }

  /** Between ticks the buckets hold nothing else. */
  ghost predicate Related(w: Wheel, q: Queue) {
    Future(w, q) && forall b | 0 <= b < WHEEL_SIZE :: AllAfter(w.buckets[b], w.cycles)
  }

  lemma ScheduleBucket(w: Wheel, q: Queue, e: Event, b: nat)
    requires Future(w, q) && e.due > w.cycles && b < WHEEL_SIZE
    ensures Keep(w.buckets[b] + (if Slot(e.due) == b then [e] else []), After(w.cycles)) == Keep(q.pending + [e], InSlot(b))
  {
    KeepAppend(w.buckets[b], [e], After(w.cycles));
    KeepAppend(q.pending, [e], InSlot(b));
    KeepOne(e, After(w.cycles));
    KeepOne(e, InSlot(b));
    assert w.buckets[b] + [] == w.buckets[b];
  }

  lemma BucketAfter(w: Wheel, r: Req, b: nat)
    requires WheelOk(w) && b < WHEEL_SIZE
    ensures var e := Event(w.cycles + r.delay, w.next, r.id);
      Schedule(w, r).buckets[b] == w.buckets[b] + (if Slot(e.due) == b then [e] else [])
  {
    assert w.buckets[b] + [] == w.buckets[b];
  }

  lemma ScheduleFuture(w: Wheel, q: Queue, r: Req)
    requires Future(w, q)
    ensures Future(Schedule(w, r), QSchedule(q, r))
  {
    var e, v := Event(w.cycles + r.delay, w.next, r.id), Schedule(w, r);
    forall b | 0 <= b < WHEEL_SIZE ensures Keep(v.buckets[b], After(w.cycles)) == Keep(q.pending + [e], InSlot(b)) {
      ScheduleBucket(w, q, e, b);
      BucketAfter(w, r, b);
    }
  }

  lemma {:induction false} ScheduleAllFuture(w: Wheel, q: Queue, rs: seq<Req>)
    requires Future(w, q)
    ensures Future(ScheduleAll(w, rs), QScheduleAll(q, rs))
    decreases |rs|
  {
    if rs != [] {
      ScheduleFuture(w, q, rs[0]);
      ScheduleAllFuture(Schedule(w, rs[0]), QSchedule(q, rs[0]), rs[1..]);
    }
  }

  /** A schedule call from outside keeps wheel and queue related. */
  lemma ScheduleRefines(w: Wheel, q: Queue, r: Req)
    requires Related(w, q)
    ensures Related(Schedule(w, r), QSchedule(q, r))
  {
    ScheduleFuture(w, q, r);
  }

  /** In the middle of the walk: before `k` nothing is due, after it `due` is. */
  ghost predicate Walking(w: Wheel, k: nat, q: Queue, due: seq<Event>) {
    && Future(w, q)
    && (forall b | 0 <= b < WHEEL_SIZE && b != Slot(w.cycles) :: AllAfter(w.buckets[b], w.cycles))
    && var s := w.buckets[Slot(w.cycles)];
    k <= |s| && AllAfter(s[..k], w.cycles) && Due(s[k..], w.cycles) == due
  }

  /** The state after firing the event at `k`. */
  function FireAt(w: Wheel, k: nat, rs: seq<Req>): Wheel
    requires WheelOk(w)
  {
    var v, b := ScheduleAll(w, rs), Slot(w.cycles);
    if k < |v.buckets[b]| then v.(buckets := v.buckets[b := Without(v.buckets[b], k)]) else v
  }

  lemma FireKeeps(w: Wheel, k: nat, q: Queue, due: seq<Event>, rs: seq<Req>)
    requires Walking(w, k, q, due) && k < |w.buckets[Slot(w.cycles)]| && w.buckets[Slot(w.cycles)][k].due <= w.cycles
    ensures due != [] && due[0] == w.buckets[Slot(w.cycles)][k]
    ensures Walking(FireAt(w, k, rs), k, QScheduleAll(q, rs), due[1..])
  {
    var b, c := Slot(w.cycles), w.cycles;
    var v, p := ScheduleAll(w, rs), QScheduleAll(q, rs);
    var s, t := w.buckets[b], v.buckets[b];
    ScheduleAllFuture(w, q, rs);
    ScheduleGrows(w, rs, b);
    WalkFires(s, t, k, c);
    KeepErase(t, k, After(c));
    assert t[k] == t[..|s|][k] == s[k];
    assert Without(t, k)[..k] == t[..|s|][..k] == s[..k];
    forall x | 0 <= x < WHEEL_SIZE && x != b ensures AllAfter(v.buckets[x], c) {
      ScheduleGrows(w, rs, x);
      forall j | 0 <= j < |v.buckets[x]| ensures v.buckets[x][j].due > c {
        if j < |w.buckets[x]| {
          assert v.buckets[x][j] == v.buckets[x][..|w.buckets[x]|][j];
        }
      }
    }
  }

  lemma SkipKeeps(w: Wheel, k: nat, q: Queue, due: seq<Event>)
    requires Walking(w, k, q, due) && k < |w.buckets[Slot(w.cycles)]| && w.buckets[Slot(w.cycles)][k].due > w.cycles
    ensures Walking(w, k + 1, q, due)
  {
    WalkSkips(w.buckets[Slot(w.cycles)], k, w.cycles);
  }

  lemma {:induction false} WalkRefines(w: Wheel, k: nat, log: seq<Fired>, m: Model, q: Queue, due: seq<Event>)
    requires Walking(w, k, q, due)
    ensures var (v, l) := Walk(w, k, log, m); var (p, l') := FireAll(q, due, log, m); l == l' && Related(v, p)
    decreases |due|, |w.buckets[Slot(w.cycles)]| - k
  {
    var s := w.buckets[Slot(w.cycles)];
    if k == |s| {
      assert s[..k] == s && s[k..] == [];
    } else if s[k].due > w.cycles {
      SkipKeeps(w, k, q, due);
      WalkRefines(w, k + 1, log, m, q, due);
    } else {
      var log' := log + [Fired(s[k], w.cycles)];
      FireKeeps(w, k, q, due, m.react(log'));
      ScheduleGrows(w, m.react(log'), Slot(w.cycles));
      WalkRefines(FireAt(w, k, m.react(log')), k, log', m, QScheduleAll(q, m.react(log')), due[1..]);
    }
  }

  lemma OtherSlot(due: nat, c: nat)
    requires due >= c
    ensures Slot(due) != Slot(c) ==> due > c
  {
  }

  /** What is not yet due in a bucket is what is not yet due in the queue. */
  lemma BucketStays(p: seq<Event>, c: nat, b: nat)
    ensures Keep(Keep(p, InSlot(b)), After(c)) == Keep(NotDue(p, c), InSlot(b))
  {
    KeepCommutes(p, InSlot(b), After(c));
  }

  /** What becomes due in a bucket at cycle `c` is what becomes due in the queue, if the bucket
      is the one of `c`. */
  lemma BucketDue(p: seq<Event>, c: nat, b: nat)
    requires forall k | 0 <= k < |p| :: p[k].due >= c
    ensures Due(Keep(p, InSlot(b)), c) == if b == Slot(c) then Due(p, c) else []
  {
    var d := Due(p, c);
    KeepCommutes(p, InSlot(b), By(c));
    KeepPasses(p, By(c));
    assert forall k | 0 <= k < |d| :: d[k].due == c;
    if b == Slot(c) {
      KeepAll(d, InSlot(b));
    } else {
      KeepNone(d, InSlot(b));
    }
  }

  /** Events of other turns stay. */
  lemma BucketOthers(p: seq<Event>, c: nat, b: nat)
    requires b != Slot(c) && forall k | 0 <= k < |p| :: p[k].due >= c
    ensures AllAfter(Keep(p, InSlot(b)), c)
  {
    var s := Keep(p, InSlot(b));
    KeepPasses(p, InSlot(b));
    forall k | 0 <= k < |s| ensures s[k].due > c {
      var i :| 0 <= i < |p| && p[i] == s[k];
      OtherSlot(p[i].due, c);
    }
  }

  /** A bucket at the start of cycle `c`. */
  lemma BucketStart(w: Wheel, q: Queue, b: nat)
    requires Related(w, q) && b < WHEEL_SIZE
    ensures var c := w.cycles + 1;
      && Keep(w.buckets[b], After(c)) == Keep(NotDue(q.pending, c), InSlot(b))
      && Due(w.buckets[b], c) == (if b == Slot(c) then Due(q.pending, c) else [])
      && (b != Slot(c) ==> AllAfter(w.buckets[b], c))
  {
    KeepAll(w.buckets[b], After(w.cycles));
    BucketStays(q.pending, w.cycles + 1, b);
    BucketDue(q.pending, w.cycles + 1, b);
    if b != Slot(w.cycles + 1) {
      BucketOthers(q.pending, w.cycles + 1, b);
    }
  }

  lemma TickFuture(w: Wheel, q: Queue)
    requires Related(w, q)
    ensures var c := w.cycles + 1; Future(w.(cycles := c), q.(pending := NotDue(q.pending, c), cycles := c))
  {
    var c := w.cycles + 1;
    KeepPasses(q.pending, After(c));
    forall b | 0 <= b < WHEEL_SIZE ensures Keep(w.buckets[b], After(c)) == Keep(NotDue(q.pending, c), InSlot(b)) {
      BucketStart(w, q, b);
    }
  }

  lemma TickStart(w: Wheel, q: Queue)
    requires Related(w, q)
    ensures var c := w.cycles + 1;
      Walking(w.(cycles := c), 0, q.(pending := NotDue(q.pending, c), cycles := c), Due(q.pending, c))
  {
    var c := w.cycles + 1;
    TickFuture(w, q);
    forall b | 0 <= b < WHEEL_SIZE && b != Slot(c) ensures AllAfter(w.buckets[b], c) {
      BucketStart(w, q, b);
    }
    BucketStart(w, q, Slot(c));
    assert w.buckets[Slot(c)][0..] == w.buckets[Slot(c)];
  }

  lemma TickUnfold(w: Wheel, q: Queue, log: seq<Fired>, m: Model, w1: Wheel, q1: Queue, due: seq<Event>)
    requires WheelOk(w) && w1 == w.(cycles := w.cycles + 1) && due == Due(q.pending, q.cycles + 1)
    requires q1 == q.(pending := NotDue(q.pending, q.cycles + 1), cycles := q.cycles + 1)
    ensures Tick(w, log, m) == Walk(w1, 0, log, m) && QTick(q, log, m) == FireAll(q1, due, log, m)
  {
  }

  /** One tick of the wheel fires the same events in the same order as one tick of the queue. */
  lemma TickRefines(w: Wheel, q: Queue, log: seq<Fired>, m: Model)
    requires Related(w, q)
    ensures Tick(w, log, m).1 == QTick(q, log, m).1 && Related(Tick(w, log, m).0, QTick(q, log, m).0)
  {
    var c := w.cycles + 1;
    var w1, q1, due := w.(cycles := c), q.(pending := NotDue(q.pending, c), cycles := c), Due(q.pending, c);
    TickStart(w, q);
    TickUnfold(w, q, log, m, w1, q1, due);
    WalkRefines(w1, 0, log, m, q1, due);
  }

  // ----- what the queue guarantees -----

  ghost predicate UidSorted(s: seq<Event>, next: nat) {
    && (forall k | 0 <= k < |s| :: s[k].uid < next)
    && (forall i, j | 0 <= i < j < |s| :: s[i].uid < s[j].uid)
  }

  /** Fired at the due cycle, by cycle and within a cycle by scheduling order. */
  ghost predicate Timely(log: seq<Fired>, c: nat) {
    && (forall k | 0 <= k < |log| :: log[k].at == log[k].e.due <= c)
    && (forall i, j | 0 <= i < j < |log| ::
          log[i].at < log[j].at || (log[i].at == log[j].at && log[i].e.uid < log[j].e.uid))
  }

  ghost predicate FiredUid(log: seq<Fired>, u: nat) { exists k :: 0 <= k < |log| && log[k].e.uid == u }

  ghost predicate HasUid(s: seq<Event>, u: nat) { exists k :: 0 <= k < |s| && s[k].uid == u }

  /** While the events `due` at this cycle remain to be fired. */
  ghost predicate FireInv(q: Queue, due: seq<Event>, log: seq<Fired>) {
    && AllAfter(q.pending, q.cycles) && UidSorted(q.pending, q.next)
    && UidSorted(due, q.next) && (forall k | 0 <= k < |due| :: due[k].due == q.cycles)
    && Timely(log, q.cycles)
    && (forall i, k | 0 <= i < |log| && 0 <= k < |due| && log[i].at == q.cycles :: log[i].e.uid < due[k].uid)
    && (forall u: nat | u < q.next :: FiredUid(log, u) || HasUid(due, u) || HasUid(q.pending, u))
  }

  /** Between ticks: an event has been fired exactly when its due cycle has been reached. */
  ghost predicate QueueInv(q: Queue, log: seq<Fired>) { FireInv(q, [], log) }

  lemma QScheduleKeeps(q: Queue, due: seq<Event>, log: seq<Fired>, r: Req)
    requires FireInv(q, due, log)
    ensures FireInv(QSchedule(q, r), due, log)
  {
    var p := QSchedule(q, r);
    forall u: nat | u < p.next ensures FiredUid(log, u) || HasUid(due, u) || HasUid(p.pending, u) {
      if u == q.next {
        assert p.pending[|q.pending|].uid == u;
      } else if HasUid(q.pending, u) {
        var k :| 0 <= k < |q.pending| && q.pending[k].uid == u;
        assert p.pending[k].uid == u;
      }
    }
  }

  lemma {:induction false} QScheduleAllKeeps(q: Queue, due: seq<Event>, log: seq<Fired>, rs: seq<Req>)
    requires FireInv(q, due, log)
    ensures FireInv(QScheduleAll(q, rs), due, log)
    decreases |rs|
  {
    if rs != [] {
      QScheduleKeeps(q, due, log, rs[0]);
      QScheduleAllKeeps(QSchedule(q, rs[0]), due, log, rs[1..]);
    }
  }

  lemma FireOneKeeps(q: Queue, due: seq<Event>, log: seq<Fired>)
    requires FireInv(q, due, log) && due != []
    ensures FireInv(q, due[1..], log + [Fired(due[0], q.cycles)])
  {
    var log' := log + [Fired(due[0], q.cycles)];
    forall u: nat | u < q.next ensures FiredUid(log', u) || HasUid(due[1..], u) || HasUid(q.pending, u) {
      if FiredUid(log, u) {
        var k :| 0 <= k < |log| && log[k].e.uid == u;
        assert log'[k].e.uid == u;
      } else if HasUid(due, u) {
        var k :| 0 <= k < |due| && due[k].uid == u;
        if k == 0 {
          assert log'[|log|].e.uid == u;
        } else {
          assert due[1..][k - 1].uid == u;
        }
      }
    }
  }

  lemma {:induction false} FireAllKeeps(q: Queue, due: seq<Event>, log: seq<Fired>, m: Model)
    requires FireInv(q, due, log)
    ensures var (p, l) := FireAll(q, due, log, m); QueueInv(p, l) && p.cycles == q.cycles && log <= l
    decreases |due|
  {
    if due != [] {
      var log' := log + [Fired(due[0], q.cycles)];
      FireOneKeeps(q, due, log);
      QScheduleAllKeeps(q, due[1..], log', m.react(log'));
      FireAllKeeps(QScheduleAll(q, m.react(log')), due[1..], log', m);
    }
  }

  lemma ConsSorted(e: Event, r: seq<Event>, next: nat)
    requires UidSorted(r, next) && e.uid < next && forall k | 0 <= k < |r| :: e.uid < r[k].uid
    ensures UidSorted([e] + r, next)
  {
  }

  lemma {:induction false} KeepSorted(s: seq<Event>, t: Test, next: nat)
    requires UidSorted(s, next)
    ensures UidSorted(Keep(s, t), next)
    decreases |s|
  {
    if s != [] {
      var r := Keep(s[1..], t);
      KeepSorted(s[1..], t, next);
      KeepPasses(s[1..], t);
      forall k | 0 <= k < |r| ensures s[0].uid < r[k].uid {
        var i :| 0 <= i < |s[1..]| && s[1..][i] == r[k];
        assert s[i + 1] == r[k];
      }
      ConsSorted(s[0], r, next);
    }
  }

  lemma {:induction false} KeepUid(s: seq<Event>, c: nat, u: nat)
    requires HasUid(s, u)
    ensures HasUid(Due(s, c), u) || HasUid(NotDue(s, c), u)
    decreases |s|
  {
    var k :| 0 <= k < |s| && s[k].uid == u;
    var d, n := Due(s, c), NotDue(s, c);
    if k == 0 {
      assert if s[0].due <= c then d[0] == s[0] else n[0] == s[0];
    } else {
      assert s[1..][k - 1].uid == u;
      KeepUid(s[1..], c, u);
      if HasUid(Due(s[1..], c), u) {
        var j :| 0 <= j < |Due(s[1..], c)| && Due(s[1..], c)[j].uid == u;
        assert d[if s[0].due <= c then j + 1 else j].uid == u;
      } else {
        var j :| 0 <= j < |NotDue(s[1..], c)| && NotDue(s[1..], c)[j].uid == u;
        assert n[if s[0].due > c then j + 1 else j].uid == u;
      }
    }
  }

  /** An event that has not fired is due now or still pending. */
  lemma SplitUids(q: Queue, log: seq<Fired>, c: nat)
    requires forall u: nat | u < q.next :: FiredUid(log, u) || HasUid(q.pending, u)
    ensures forall u: nat | u < q.next :: FiredUid(log, u) || HasUid(Due(q.pending, c), u) || HasUid(NotDue(q.pending, c), u)
  {
    forall u: nat | u < q.next ensures FiredUid(log, u) || HasUid(Due(q.pending, c), u) || HasUid(NotDue(q.pending, c), u) {
      if HasUid(q.pending, u) {
        KeepUid(q.pending, c, u);
      }
    }
  }

  /** At the start of a cycle what is due is set apart. */
  lemma QTickStart(q: Queue, log: seq<Fired>, c: nat)
    requires QueueInv(q, log) && c == q.cycles + 1
    ensures FireInv(q.(pending := NotDue(q.pending, c), cycles := c), Due(q.pending, c), log)
  {
    KeepPasses(q.pending, After(c));
    KeepPasses(q.pending, By(c));
    KeepSorted(q.pending, After(c), q.next);
    KeepSorted(q.pending, By(c), q.next);
    SplitUids(q, log, c);
  }

  lemma QTickKeeps(q: Queue, log: seq<Fired>, m: Model)
    requires QueueInv(q, log)
    ensures QueueInv(QTick(q, log, m).0, QTick(q, log, m).1) && QTick(q, log, m).0.cycles == q.cycles + 1
  {
    var c := q.cycles + 1;
    QTickStart(q, log, c);
    FireAllKeeps(q.(pending := NotDue(q.pending, c), cycles := c), Due(q.pending, c), log, m);
  }

  // ----- runs of the wheel -----

  datatype Action = Call(r: Req) | Clock

  function Apply(w: Wheel, log: seq<Fired>, m: Model, a: Action): (Wheel, seq<Fired>)
    requires WheelOk(w)
  {
    match a
    case Call(r) => (Schedule(w, r), log)
    case Clock => Tick(w, log, m)
  }

  /** `w` after a run is related to some queue in good order with the same log. */
  ghost predicate InOrder(w: Wheel, log: seq<Fired>) { exists q :: Related(w, q) && QueueInv(q, log) }

  lemma ApplyInOrder(w: Wheel, log: seq<Fired>, m: Model, a: Action)
    requires InOrder(w, log)
    ensures InOrder(Apply(w, log, m, a).0, Apply(w, log, m, a).1)
  {
    var q :| Related(w, q) && QueueInv(q, log);
    match a
    case Call(r) =>
      ScheduleRefines(w, q, r);
      QScheduleKeeps(q, [], log, r);
      assert Related(Schedule(w, r), QSchedule(q, r)) && QueueInv(QSchedule(q, r), log);
    case Clock =>
      TickRefines(w, q, log, m);
      QTickKeeps(q, log, m);
      assert Related(Tick(w, log, m).0, QTick(q, log, m).0) && QueueInv(QTick(q, log, m).0, Tick(w, log, m).1);
  }

  function Run(w: Wheel, log: seq<Fired>, m: Model, acts: seq<Action>): (Wheel, seq<Fired>)
    requires InOrder(w, log)
    decreases |acts|
  {
    if acts == [] then (w, log)
    else
      ApplyInOrder(w, log, m, acts[0]);
      var (v, l) := Apply(w, log, m, acts[0]);
      Run(v, l, m, acts[1..])
  }

  /** In every run, whatever the delays and whatever fired events schedule: events fire exactly at
      their due cycle, in scheduling order within a cycle; every event scheduled so far has either
      fired, or is still in the bucket of its due cycle, which is a later one. */
  lemma {:induction false} FiresOnTime(w: Wheel, log: seq<Fired>, m: Model, acts: seq<Action>)
    requires InOrder(w, log)
    ensures var (v, l) := Run(w, log, m, acts);
      && Timely(l, v.cycles)
      && WheelOk(v) && (forall b | 0 <= b < WHEEL_SIZE :: AllAfter(v.buckets[b], v.cycles))
      && (forall u: nat | u < v.next :: FiredUid(l, u) || exists b :: 0 <= b < WHEEL_SIZE && HasUid(v.buckets[b], u))
      && (forall b, k | 0 <= b < WHEEL_SIZE && 0 <= k < |v.buckets[b]| :: v.buckets[b][k].due % 4096 == b)
    decreases |acts|
  {
    if acts == [] {
      var q :| Related(w, q) && QueueInv(q, log);
      forall b, k | 0 <= b < WHEEL_SIZE && 0 <= k < |w.buckets[b]| ensures w.buckets[b][k].due % 4096 == b {
        KeepAll(w.buckets[b], After(w.cycles));
        KeepPasses(q.pending, InSlot(b));
      }
      forall u: nat | u < w.next && !FiredUid(log, u) ensures exists b :: 0 <= b < WHEEL_SIZE && HasUid(w.buckets[b], u) {
        assert HasUid(q.pending, u);
        PendingInBucket(w, q, u);
      }
    } else {
      ApplyInOrder(w, log, m, acts[0]);
      var (v, l) := Apply(w, log, m, acts[0]);
      FiresOnTime(v, l, m, acts[1..]);
    }
  }

  lemma {:induction false} KeepHas(s: seq<Event>, k: nat, t: Test)
    requires k < |s| && Passes(s[k], t)
    ensures s[k] in Keep(s, t)
    decreases |s|
  {
    if k > 0 {
      KeepHas(s[1..], k - 1, t);
    }
  }

  lemma PendingInBucket(w: Wheel, q: Queue, u: nat)
    requires Related(w, q) && HasUid(q.pending, u)
    ensures exists b :: 0 <= b < WHEEL_SIZE && HasUid(w.buckets[b], u)
  {
    var k :| 0 <= k < |q.pending| && q.pending[k].uid == u;
    var b := Slot(q.pending[k].due);
    KeepHas(q.pending, k, InSlot(b));
    KeepAll(w.buckets[b], After(w.cycles));
    var j :| 0 <= j < |w.buckets[b]| && w.buckets[b][j] == q.pending[k];
    assert HasUid(w.buckets[b], u);
  }

  lemma FreshWheel()
    ensures InOrder(Wheel(seq(WHEEL_SIZE, _ => []), 0, 0), [])
  {
    var w, q := Wheel(seq(WHEEL_SIZE, _ => []), 0, 0), Queue([], 0, 0);
    assert Related(w, q) && QueueInv(q, []);
  }

  // ----- the object -----

  class SimPlatform {
    const buckets: array<seq<Event>>
    var cycles: nat
    var next: nat
    var log: seq<Fired>
    const m: Model

    ghost predicate Valid() { buckets.Length == WHEEL_SIZE }

    ghost function View(): Wheel
      reads this, buckets
    {
      Wheel(buckets[..], cycles, next)
    }

    constructor (m: Model)
      ensures Valid() && fresh(buckets) && this.m == m && log == [] && InOrder(View(), [])
    {
      buckets := new seq<Event>[WHEEL_SIZE](_ => []);
      cycles, next, log := 0, 0, [];
      this.m := m;
      new;
      assert buckets[..] == seq(WHEEL_SIZE, _ => []);
      FreshWheel();
    }

    method ScheduleEvent(r: Req)
      requires Valid()
      modifies this`next, buckets
      ensures View() == Schedule(old(View()), r)
    {
      var e := Event(cycles + r.delay, next, r.id);
      var b := Slot(e.due);
      buckets[b] := buckets[b] + [e];
      next := next + 1;
    }

    /** Runs the callback of the event just logged. */
    method Callback()
      requires Valid()
      modifies this`next, buckets
      ensures View() == ScheduleAll(old(View()), m.react(log))
    {
      var rs := m.react(log);
      for i := 0 to |rs|
        invariant ScheduleAll(View(), rs[i..]) == ScheduleAll(old(View()), rs)
      {
        assert rs[i..][1..] == rs[i + 1..];
        ScheduleEvent(rs[i]);
      }
    }

    method Step()
      requires Valid()
      modifies this, buckets
      ensures (View(), log) == Tick(old(View()), old(log), m)
    {
      cycles := cycles + 1;
      ghost var w0, log0 := View(), log;
      var b := Slot(cycles);
      var k := 0;
      while k < |buckets[b]|
        invariant cycles == w0.cycles && k <= |buckets[b]|
        invariant Walk(View(), k, log, m) == Walk(w0, 0, log0, m)
        decreases |Due(buckets[b][k..], cycles)|, |buckets[b]| - k
      {
        var e := buckets[b][k];
        if e.due <= cycles {
          ghost var w, s := View(), buckets[b];
          log := log + [Fired(e, cycles)];
          Callback();
          ScheduleGrows(w, m.react(log), b);
          WalkFires(s, buckets[b], k, cycles);
          buckets[b] := Without(buckets[b], k);
        } else {
          WalkSkips(buckets[b], k, cycles);
          k := k + 1;
        }
      }
    }
  }
}
