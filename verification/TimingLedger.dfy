/** The event kernel seen by its callers: every request, made from outside or by an event that fires,
    is answered exactly once, after exactly its delay. */
module TimingLedger {
  import opened Basics
  import opened TimingWheel

  /** A request and the cycle it was made in. */
  datatype Issue = Issue(at: nat, r: Req)

  function Issued(at: nat, rs: seq<Req>): seq<Issue> { seq(|rs|, k requires 0 <= k < |rs| => Issue(at, rs[k])) }

  /** The requests made by the events that fired from `from` on. */
  function Reactions(m: Model, log: seq<Fired>, from: nat): seq<Issue> {
    if |log| <= from then []
    else Reactions(m, log[..|log| - 1], from) + Issued(log[|log| - 1].at, m.react(log))
  }

  lemma {:induction false} ReactionsFirst(m: Model, l: seq<Fired>, n: nat)
    requires n < |l|
    ensures Reactions(m, l, n) == Issued(l[n].at, m.react(l[..n + 1])) + Reactions(m, l, n + 1)
    decreases |l|
  {
    var k := l[..|l| - 1];
    if n < |k| {
      ReactionsFirst(m, k, n);
      assert k[..n + 1] == l[..n + 1];
      Assoc(Issued(l[n].at, m.react(l[..n + 1])), Reactions(m, k, n + 1), Issued(l[|l| - 1].at, m.react(l)));
    } else {
      assert l[..n + 1] == l;
    }
  }

  // ----- events answer requests -----

  /** Event `e` is the one due for request number `e.uid`. */
  ghost predicate Answers(e: Event, issues: seq<Issue>) {
    e.uid < |issues| && e.due == issues[e.uid].at + issues[e.uid].r.delay && e.id == issues[e.uid].r.id
  }

  ghost predicate AllAnswer(s: seq<Event>, issues: seq<Issue>) { forall k | 0 <= k < |s| :: Answers(s[k], issues) }

  ghost predicate LogAnswers(log: seq<Fired>, issues: seq<Issue>) { forall k | 0 <= k < |log| :: Answers(log[k].e, issues) }

  ghost predicate Accounted(q: Queue, due: seq<Event>, log: seq<Fired>, issues: seq<Issue>) {
    |issues| == q.next && AllAnswer(q.pending, issues) && AllAnswer(due, issues) && LogAnswers(log, issues)
  }

  lemma MoreIssues(s: seq<Event>, issues: seq<Issue>, more: seq<Issue>)
    requires AllAnswer(s, issues)
    ensures AllAnswer(s, issues + more)
  {
  }

  lemma ScheduleAccounted(q: Queue, due: seq<Event>, log: seq<Fired>, issues: seq<Issue>, r: Req)
    requires Accounted(q, due, log, issues)
    ensures Accounted(QSchedule(q, r), due, log, issues + [Issue(q.cycles, r)])
  {
    MoreIssues(q.pending, issues, [Issue(q.cycles, r)]);
    MoreIssues(due, issues, [Issue(q.cycles, r)]);
  }

  lemma {:induction false} ScheduleAllAccounted(q: Queue, due: seq<Event>, log: seq<Fired>, issues: seq<Issue>, rs: seq<Req>)
    requires Accounted(q, due, log, issues)
    ensures Accounted(QScheduleAll(q, rs), due, log, issues + Issued(q.cycles, rs))
    decreases |rs|
  {
    if rs == [] {
      assert issues + Issued(q.cycles, rs) == issues;
    } else {
      ScheduleAccounted(q, due, log, issues, rs[0]);
      ScheduleAllAccounted(QSchedule(q, rs[0]), due, log, issues + [Issue(q.cycles, rs[0])], rs[1..]);
      assert (issues + [Issue(q.cycles, rs[0])]) + Issued(q.cycles, rs[1..]) == issues + Issued(q.cycles, rs);
    }
  }

  lemma {:induction false} FireAllAccounted(q: Queue, due: seq<Event>, log: seq<Fired>, m: Model, issues: seq<Issue>)
    requires Accounted(q, due, log, issues)
    ensures var (p, l) := FireAll(q, due, log, m);
      log <= l && Accounted(p, [], l, issues + Reactions(m, l, |log|))
    decreases |due|
  {
    if due == [] {
      assert issues + Reactions(m, log, |log|) == issues;
    } else {
      var log' := log + [Fired(due[0], q.cycles)];
      var now := Issued(q.cycles, m.react(log'));
      ScheduleAllAccounted(q, due[1..], log', issues, m.react(log'));
      FireAllAccounted(QScheduleAll(q, m.react(log')), due[1..], log', m, issues + now);
      var l := FireAll(q, due, log, m).1;
      assert l[..|log| + 1] == log';
      ReactionsFirst(m, l, |log|);
      Assoc(issues, now, Reactions(m, l, |log| + 1));
    }
  }

  lemma KeepAnswers(s: seq<Event>, t: Test, issues: seq<Issue>)
    requires AllAnswer(s, issues)
    ensures AllAnswer(Keep(s, t), issues)
  {
    KeepPasses(s, t);
  }

  lemma TickAccounted(q: Queue, log: seq<Fired>, m: Model, issues: seq<Issue>)
    requires Accounted(q, [], log, issues)
    ensures var (p, l) := QTick(q, log, m); Accounted(p, [], l, issues + Reactions(m, l, |log|))
  {
    var c := q.cycles + 1;
    KeepAnswers(q.pending, By(c), issues);
    KeepAnswers(q.pending, After(c), issues);
    FireAllAccounted(q.(pending := NotDue(q.pending, c), cycles := c), Due(q.pending, c), log, m, issues);
  }

  // ----- runs of the wheel -----

  ghost predicate Booked(w: Wheel, log: seq<Fired>, issues: seq<Issue>) {
    exists q :: Related(w, q) && QueueInv(q, log) && Accounted(q, [], log, issues)
  }

  ghost function Note(w: Wheel, log: seq<Fired>, m: Model, a: Action, issues: seq<Issue>): seq<Issue>
    requires WheelOk(w)
  {
    match a
    case Call(r) => issues + [Issue(w.cycles, r)]
    case Clock => issues + Reactions(m, Apply(w, log, m, a).1, |log|)
  }

  lemma ApplyBooked(w: Wheel, log: seq<Fired>, m: Model, a: Action, issues: seq<Issue>)
    requires Booked(w, log, issues)
    ensures WheelOk(w) && Booked(Apply(w, log, m, a).0, Apply(w, log, m, a).1, Note(w, log, m, a, issues))
  {
    var q :| Related(w, q) && QueueInv(q, log) && Accounted(q, [], log, issues);
    match a
    case Call(r) =>
      ScheduleRefines(w, q, r);
      QScheduleKeeps(q, [], log, r);
      ScheduleAccounted(q, [], log, issues, r);
      assert Related(Schedule(w, r), QSchedule(q, r)) && QueueInv(QSchedule(q, r), log);
    case Clock =>
      TickRefines(w, q, log, m);
      QTickKeeps(q, log, m);
      TickAccounted(q, log, m, issues);
      assert Related(Tick(w, log, m).0, QTick(q, log, m).0) && QueueInv(QTick(q, log, m).0, Tick(w, log, m).1);
  }

  /** The requests of a whole run, in the order they were made. */
  ghost function Noted(w: Wheel, log: seq<Fired>, m: Model, acts: seq<Action>, issues: seq<Issue>): seq<Issue>
    requires Booked(w, log, issues)
    decreases |acts|
  {
    if acts == [] then issues
    else
      ApplyBooked(w, log, m, acts[0], issues);
      var (v, l) := Apply(w, log, m, acts[0]);
      Noted(v, l, m, acts[1..], Note(w, log, m, acts[0], issues))
  }

  ghost predicate FiredAt(log: seq<Fired>, k: nat, u: nat, i: Issue) {
    k < |log| && log[k].e.uid == u && log[k].at == i.at + i.r.delay && log[k].e.id == i.r.id
  }

  /** Request `u` has fired exactly if its cycle has come, then once, and in that cycle. */
  ghost predicate FiredRight(log: seq<Fired>, now: nat, u: nat, i: Issue) {
    && (i.at + i.r.delay <= now <==> exists k: nat :: FiredAt(log, k, u, i))
    && forall j, k | 0 <= j < |log| && 0 <= k < |log| && log[j].e.uid == log[k].e.uid == u :: j == k
  }

  lemma BookedRight(w: Wheel, log: seq<Fired>, issues: seq<Issue>, u: nat)
    requires Booked(w, log, issues) && u < |issues|
    ensures FiredRight(log, w.cycles, u, issues[u])
  {
    var q :| Related(w, q) && QueueInv(q, log) && Accounted(q, [], log, issues);
    var i := issues[u];
    if FiredUid(log, u) {
      var k :| 0 <= k < |log| && log[k].e.uid == u;
      assert Answers(log[k].e, issues);
      assert FiredAt(log, k, u, i);
    } else {
      var k :| 0 <= k < |q.pending| && q.pending[k].uid == u;
      assert Answers(q.pending[k], issues);
    }
  }

  /** In every run, whatever is asked for and whatever the fired events ask for in turn: each
      request has fired if and only if its delay is over, once, in the cycle it asked for. */
  lemma {:induction false} RequestsFire(w: Wheel, log: seq<Fired>, m: Model, acts: seq<Action>, issues: seq<Issue>, u: nat)
    requires Booked(w, log, issues)
    ensures InOrder(w, log)
    ensures var all, (v, l) := Noted(w, log, m, acts, issues), Run(w, log, m, acts);
      u < |all| ==> FiredRight(l, v.cycles, u, all[u])
    decreases |acts|
  {
    var q :| Related(w, q) && QueueInv(q, log) && Accounted(q, [], log, issues);
    assert InOrder(w, log);
    if acts == [] {
      if u < |issues| {
        BookedRight(w, log, issues, u);
      }
    } else {
      ApplyBooked(w, log, m, acts[0], issues);
      ApplyInOrder(w, log, m, acts[0]);
      var (v, l) := Apply(w, log, m, acts[0]);
      RequestsFire(v, l, m, acts[1..], Note(w, log, m, acts[0], issues), u);
    }
  }

  lemma FreshBooked()
    ensures Booked(Wheel(seq(WHEEL_SIZE, _ => []), 0, 0), [], [])
  {
    var w, q := Wheel(seq(WHEEL_SIZE, _ => []), 0, 0), Queue([], 0, 0);
    assert Related(w, q) && QueueInv(q, []) && Accounted(q, [], [], []);
  }
}
