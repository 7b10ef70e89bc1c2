/** The dispatcher starves nobody: with room in its outputs it keeps turning from batch to batch and
    sends every packet it owes within a bound, each to the output of its input. */
module DispatchProgress {
  import opened Basics
  import opened Dispatcher

  // ----- how much is owed -----

  function Sum(s: seq<nat>): nat { if s == [] then 0 else Sum(s[..|s| - 1]) + s[|s| - 1] }

  lemma {:induction false} SumSet(s: seq<nat>, i: nat, v: nat)
    requires i < |s|
    ensures Sum(s[i := v]) + s[i] == Sum(s) + v
    decreases |s|
  {
    var n := |s| - 1;
    if i < n {
      SumSet(s[..n], i, v);
      assert s[i := v][..n] == s[..n][i := v];
    } else {
      assert s[i := v][..n] == s[..n];
    }
  }

  lemma {:induction false} SumPart(s: seq<nat>, i: nat)
    requires i < |s|
    ensures s[i] <= Sum(s)
    decreases |s|
  {
    if i < |s| - 1 {
      SumPart(s[..|s| - 1], i);
    }
  }

  lemma {:induction false} SumSome(s: seq<nat>) returns (i: nat)
    requires Sum(s) > 0
    ensures i < |s| && s[i] > 0
    decreases |s|
  {
    if s[|s| - 1] > 0 {
      i := |s| - 1;
    } else {
      i := SumSome(s[..|s| - 1]);
    }
  }

  /** How many packets each input owes. */
  function Debts(c: Shape, d: Disp): (s: seq<nat>)
    requires c.lanes > 0
    ensures |s| == |d.inputs|
  {
    seq(|d.inputs|, (i: nat) requires i < |d.inputs| => |Owed(c, PortAt(c, d, i))|)
  }

  function AllOwing(c: Shape, d: Disp): nat
    requires c.lanes > 0
  {
    Sum(Debts(c, d))
  }

  lemma OwingSame(c: Shape, d: Disp, e: Disp)
    requires c.lanes > 0 && |d.inputs| == |e.inputs|
    requires forall i | 0 <= i < |d.inputs| :: |Owed(c, PortAt(c, e, i))| == |Owed(c, PortAt(c, d, i))|
    ensures AllOwing(c, e) == AllOwing(c, d)
  {
    assert Debts(c, e) == Debts(c, d);
  }

  /** One input owes `k` fewer. */
  lemma OwingLess(c: Shape, d: Disp, e: Disp, i: nat, k: nat)
    requires c.lanes > 0 && i < |d.inputs| == |e.inputs|
    requires |Owed(c, PortAt(c, d, i))| == k + |Owed(c, PortAt(c, e, i))|
    requires forall j | 0 <= j < |d.inputs| && j != i :: PortAt(c, e, j) == PortAt(c, d, j)
    ensures AllOwing(c, d) == k + AllOwing(c, e)
  {
    var v := |Owed(c, PortAt(c, e, i))|;
    assert Debts(c, e) == Debts(c, d)[i := v];
    SumSet(Debts(c, d), i, v);
  }

  lemma NothingQueued(c: Shape, pid: int)
    requires c.lanes > 0
    ensures Owed(c, Port([], pid)) == []
  {
  }

  lemma SomeOwing(c: Shape, d: Disp) returns (i: nat)
    requires c.lanes > 0 && AllOwing(c, d) > 0
    ensures i < |d.inputs| && d.inputs[i] != []
  {
    i := SumSome(Debts(c, d));
    NothingQueued(c, PidAt(c, d, i));
  }

  lemma NoneOwing(c: Shape, d: Disp, i: nat)
    requires c.lanes > 0 && i < |d.inputs| && AllOwing(c, d) == 0
    ensures Owed(c, PortAt(c, d, i)) == []
  {
    SumPart(Debts(c, d), i);
  }

  // ----- blocks that can send -----

  /** Block `b` of the current batch has a trace and is not through with this batch. */
  ghost predicate Ready(c: Shape, d: Disp, b: nat) {
    && b < |d.pids| && InputOf(c, d.batch, b) < |d.inputs| && d.inputs[InputOf(c, d.batch, b)] != []
    && (c.threads == c.lanes || d.pids[b] != -1)
  }

  ghost predicate AnyReady(c: Shape, d: Disp, from: nat) { exists b :: from <= b < c.blocks && Ready(c, d, b) }

  lemma IdleBlock(c: Shape, d: Disp, b: nat)
    requires DispInv(c, d) && b < c.blocks && !Ready(c, d, b)
    ensures BlockStep(c, d, b, false) == (d, true)
  {
    InputInRange(c, d.batch, b);
    var i := InputOf(c, d.batch, b);
    if d.inputs[i] != [] {
      var l := PortAt(c, d, i);
      assert l == Port(d.inputs[i], -1) && PortInv(c, l);
      assert PortStep(c, l) == ([], l, true);
      assert d.pids[b := -1] == d.pids && d.inputs[i := d.inputs[i]] == d.inputs && d.sent + Log(i, b, []) == d.sent;
      assert SetPort(c, d, b, l, []) == d;
    }
  }

  /** A visit to a ready block sends one packet. */
  lemma ReadyPort(c: Shape, l: Port)
    requires c.lanes > 0 && PortInv(c, l) && l.q != [] && (c.threads == c.lanes || l.pid != -1)
    ensures |PortStep(c, l).0| == 1
  {
  }

  /** What a block sends it no longer owes. */
  lemma BlockBalance(c: Shape, d: Disp, b: nat, full: bool)
    requires DispInv(c, d) && b < c.blocks
    ensures var (e, _) := BlockStep(c, d, b, full);
      |e.inputs| == |d.inputs| && |e.sent| + AllOwing(c, e) == |d.sent| + AllOwing(c, d)
  {
    InputInRange(c, d.batch, b);
    var i := InputOf(c, d.batch, b);
    if d.inputs[i] != [] && !full {
      var l := PortAt(c, d, i);
      assert PortInv(c, l);
      var r := PortStep(c, l);
      PortStepOwes(c, l);
      var e := SetPort(c, d, b, r.1, r.0);
      forall j | 0 <= j < |d.inputs| ensures PortAt(c, e, j) == if j == i then r.1 else PortAt(c, d, j) {
        PortAfter(c, d, b, r.1, r.0, j);
      }
      OwingLess(c, d, e, i, |r.0|);
    }
  }

  lemma BlockSends(c: Shape, d: Disp, b: nat, full: bool)
    requires DispInv(c, d) && b < c.blocks
    ensures var (e, _) := BlockStep(c, d, b, full);
      |e.sent| >= |d.sent| && (Ready(c, d, b) && !full ==> |e.sent| == |d.sent| + 1)
  {
    InputInRange(c, d.batch, b);
    var l := PortAt(c, d, InputOf(c, d.batch, b));
    assert PortInv(c, l);
    if Ready(c, d, b) {
      ReadyPort(c, l);
    }
  }

  ghost predicate Room(full: seq<bool>) { forall k | 0 <= k < |full| :: !full[k] }

  lemma VisitNext(c: Shape, d: Disp, b: nat, full: seq<bool>, e: Disp)
    requires DispInv(c, d) && b < c.blocks && |full| == c.blocks && e == BlockStep(c, d, b, full[b]).0
    ensures DispInv(c, e) && Visit(c, d, b, full).0 == Visit(c, e, b + 1, full).0
  {
    BlockStepKeeps(c, d, b, full[b]);
  }

  lemma {:induction false} VisitBalance(c: Shape, d: Disp, b: nat, full: seq<bool>, t: Disp)
    requires DispInv(c, d) && b <= c.blocks && |full| == c.blocks && t == Visit(c, d, b, full).0
    ensures |t.inputs| == |d.inputs| && |t.sent| + AllOwing(c, t) == |d.sent| + AllOwing(c, d)
    decreases c.blocks - b
  {
    if b < c.blocks {
      var e := BlockStep(c, d, b, full[b]).0;
      VisitNext(c, d, b, full, e);
      BlockBalance(c, d, b, full[b]);
      VisitBalance(c, e, b + 1, full, t);
    }
  }

  lemma {:induction false} VisitGrows(c: Shape, d: Disp, b: nat, full: seq<bool>, t: Disp)
    requires DispInv(c, d) && b <= c.blocks && |full| == c.blocks && t == Visit(c, d, b, full).0
    ensures |t.sent| >= |d.sent|
    decreases c.blocks - b
  {
    if b < c.blocks {
      var e := BlockStep(c, d, b, full[b]).0;
      VisitNext(c, d, b, full, e);
      BlockSends(c, d, b, full[b]);
      VisitGrows(c, e, b + 1, full, t);
    }
  }

  lemma {:induction false} VisitSends(c: Shape, d: Disp, b: nat, full: seq<bool>, t: Disp)
    requires DispInv(c, d) && b <= c.blocks && |full| == c.blocks && t == Visit(c, d, b, full).0
    requires Room(full) && AnyReady(c, d, b)
    ensures |t.sent| > |d.sent|
    decreases c.blocks - b
  {
    var e := BlockStep(c, d, b, full[b]).0;
    VisitNext(c, d, b, full, e);
    if Ready(c, d, b) {
      BlockSends(c, d, b, full[b]);
      VisitGrows(c, e, b + 1, full, t);
    } else {
      IdleBlock(c, d, b);
      VisitSends(c, d, b + 1, full, t);
    }
  }

  lemma {:induction false} VisitIdle(c: Shape, d: Disp, b: nat, full: seq<bool>)
    requires DispInv(c, d) && b <= c.blocks && |full| == c.blocks && Room(full) && !AnyReady(c, d, b)
    ensures Visit(c, d, b, full) == (d, c.blocks - b)
    decreases c.blocks - b
  {
    if b < c.blocks {
      IdleBlock(c, d, b);
      BlockStepKeeps(c, d, b, full[b]);
      VisitIdle(c, d, b + 1, full);
    }
  }

  // ----- batches -----

  /** Some input of batch `j` has a trace. */
  ghost predicate HasWork(c: Shape, d: Disp, j: nat) {
    j < c.batches && exists b :: 0 <= b < c.blocks && InputOf(c, j, b) < |d.inputs| && d.inputs[InputOf(c, j, b)] != []
  }

  lemma InputPlace(c: Shape, i: nat) returns (j: nat, b: nat)
    requires ShapeOk(c) && i < FirstLane(c.batches, c.blocks)
    ensures j < c.batches && b < c.blocks && i == InputOf(c, j, b)
  {
    j := GroupOf(i, c.blocks);
    GroupBounds(i, c.blocks, j);
    b := i - FirstLane(j, c.blocks);
    GroupBounds(i, c.blocks, c.batches);
  }

  ghost predicate AnyWork(d: Disp) { exists i :: 0 <= i < |d.inputs| && d.inputs[i] != [] }

  lemma SomeWork(c: Shape, d: Disp) returns (j: nat)
    requires DispInv(c, d) && AnyWork(d)
    ensures HasWork(c, d, j)
  {
    var i :| 0 <= i < |d.inputs| && d.inputs[i] != [];
    var b;
    j, b := InputPlace(c, i);
  }

  /** A batch that has just been turned to is visited from the first lane group of each input. */
  lemma FreshBatchReady(c: Shape, d: Disp)
    requires DispInv(c, d) && HasWork(c, d, d.batch) && forall k | 0 <= k < c.blocks :: d.pids[k] == 0
    ensures AnyReady(c, d, 0)
  {
    var b :| 0 <= b < c.blocks && InputOf(c, d.batch, b) < |d.inputs| && d.inputs[InputOf(c, d.batch, b)] != [];
    assert Ready(c, d, b);
  }

  /** A visit ends a block's part in the batch: the input is empty, or there is room and the visit
      finds nothing but the last packet of an instruction, or an instruction after it. */
  ghost predicate Through(c: Shape, l: Port, full: bool)
    requires c.lanes > 0
  {
    l.q == [] || (!full && (c.threads == c.lanes || l.pid < 0 || |Owed(c, l)| == 1 + |SplitAll(l.q[1..], c.lanes)|))
  }

  lemma PortThrough(c: Shape, l: Port)
    requires c.lanes > 0 && PortInv(c, l) && l.q != []
    ensures PortStep(c, l).2 == Through(c, l, false)
  {
    if c.threads != c.lanes && l.pid >= 0 {
      var p, t, g, l' := PortStepShape(c, l);
      OwedHead(c, l);
    }
  }

  lemma BlockThrough(c: Shape, d: Disp, b: nat, full: bool)
    requires DispInv(c, d) && b < c.blocks
    ensures InputOf(c, d.batch, b) < |d.inputs|
    ensures BlockStep(c, d, b, full).1 == Through(c, PortAt(c, d, InputOf(c, d.batch, b)), full)
  {
    InputInRange(c, d.batch, b);
    var l := PortAt(c, d, InputOf(c, d.batch, b));
    assert PortInv(c, l);
    if l.q != [] {
      PortThrough(c, l);
    }
  }

  ghost predicate ThroughAt(c: Shape, d: Disp, b: nat, full: seq<bool>) {
    c.lanes > 0 && b < |full| && InputOf(c, d.batch, b) < |d.inputs| && Through(c, PortAt(c, d, InputOf(c, d.batch, b)), full[b])
  }

  ghost predicate AllThrough(c: Shape, d: Disp, from: nat, full: seq<bool>) {
    forall b | from <= b < c.blocks :: ThroughAt(c, d, b, full)
  }

  /** A visit does not change the other blocks' ports. */
  lemma OtherPort(c: Shape, d: Disp, b: nat, full: bool, k: nat, e: Disp)
    requires DispInv(c, d) && b < k < c.blocks && e == BlockStep(c, d, b, full).0
    ensures e.batch == d.batch && |e.inputs| == |d.inputs| && InputOf(c, d.batch, k) < |d.inputs|
    ensures PortAt(c, e, InputOf(c, d.batch, k)) == PortAt(c, d, InputOf(c, d.batch, k))
  {
    InputInRange(c, d.batch, b);
    InputInRange(c, d.batch, k);
    var i := InputOf(c, d.batch, b);
    if d.inputs[i] != [] && !full {
      assert PortInv(c, PortAt(c, d, i));
      var r := PortStep(c, PortAt(c, d, i));
      PortAfter(c, d, b, r.1, r.0, InputOf(c, d.batch, k));
    }
  }

  lemma {:induction false} VisitThrough(c: Shape, d: Disp, b: nat, full: seq<bool>)
    requires DispInv(c, d) && b <= c.blocks && |full| == c.blocks
    ensures Visit(c, d, b, full).1 <= c.blocks - b
    ensures Visit(c, d, b, full).1 == c.blocks - b <==> AllThrough(c, d, b, full)
    decreases c.blocks - b
  {
    if b < c.blocks {
      var e := BlockStep(c, d, b, full[b]).0;
      BlockStepKeeps(c, d, b, full[b]);
      VisitThrough(c, e, b + 1, full);
      BlockThrough(c, d, b, full[b]);
      forall k | b < k < c.blocks ensures ThroughAt(c, e, k, full) == ThroughAt(c, d, k, full) {
        OtherPort(c, d, b, full[b], k, e);
      }
      assert AllThrough(c, d, b, full) <==> ThroughAt(c, d, b, full) && AllThrough(c, d, b + 1, full);
    }
  }

  lemma BatchCount(c: Shape, d: Disp, full: seq<bool>, e: Disp, n: nat, t: Disp)
    requires DispInv(c, d) && |full| == c.blocks && Visit(c, d, 0, full) == (e, n) && t == Tick(c, d, full)
    ensures n <= c.blocks && t.inputs == e.inputs && t.sent == e.sent
    ensures n == c.blocks ==>
      t.batch == (if d.batch + 1 == c.batches then 0 else d.batch + 1) && forall b | 0 <= b < |t.pids| :: t.pids[b] == 0
    ensures n < c.blocks ==> t == e && t.batch == d.batch
  {
    VisitKeeps(c, d, 0, full);
    NextBatch(d.batch, c.batches);
  }

  /** Exactly when every block is through, the next batch is turned to, from the first group of each
      input; otherwise the batch stays. */
  lemma BatchTurns(c: Shape, d: Disp, full: seq<bool>, e: Disp, t: Disp)
    requires DispInv(c, d) && |full| == c.blocks && e == Visit(c, d, 0, full).0 && t == Tick(c, d, full)
    ensures t.inputs == e.inputs && t.sent == e.sent
    ensures AllThrough(c, d, 0, full) ==>
      t.batch == (if d.batch + 1 == c.batches then 0 else d.batch + 1) && forall b | 0 <= b < |t.pids| :: t.pids[b] == 0
    ensures !AllThrough(c, d, 0, full) ==> t == e && t.batch == d.batch
  {
    VisitThrough(c, d, 0, full);
    BatchCount(c, d, full, e, Visit(c, d, 0, full).1, t);
  }

  lemma NextBatch(k: nat, n: nat)
    requires k < n
    ensures (k + 1) % n == if k + 1 == n then 0 else k + 1
  {
    if k + 1 < n {
      SmallMod(k + 1, n);
    }
  }

  /** Ticks until batch `j` is turned to next. */
  function Gap(k: nat, j: nat, n: nat): nat
    requires k < n && j < n
  {
    if j > k then j - k else n + j - k
  }

  /** Ticks at most until a packet goes out, given that batch `j` has work. */
  ghost function Patience(c: Shape, d: Disp, j: nat): nat
    requires d.batch < c.batches && j < c.batches
  {
    if AnyReady(c, d, 0) then 0 else Gap(d.batch, j, c.batches)
  }

  /** A tick with room either sends a packet, or turns to the next batch and comes closer to one
      with work. */
  lemma TickProgress(c: Shape, d: Disp, full: seq<bool>, j: nat)
    requires DispInv(c, d) && |full| == c.blocks && Room(full) && HasWork(c, d, j)
    ensures var t := Tick(c, d, full);
      && DispInv(c, t)
      && (if AnyReady(c, d, 0) then |t.sent| > |d.sent|
          else t.sent == d.sent && HasWork(c, t, j) && Patience(c, t, j) < Patience(c, d, j))
  {
    TickKeeps(c, d, full);
    var (e, n) := Visit(c, d, 0, full);
    BatchCount(c, d, full, e, n, Tick(c, d, full));
    if AnyReady(c, d, 0) {
      VisitSends(c, d, 0, full, Visit(c, d, 0, full).0);
    } else {
      VisitIdle(c, d, 0, full);
      var t := Tick(c, d, full);
      if t.batch == j {
        FreshBatchReady(c, t);
      }
    }
  }

  /** What a tick sends is no longer owed; turning to the next batch changes nothing of that. */
  lemma TickBalance(c: Shape, d: Disp, full: seq<bool>, t: Disp)
    requires DispInv(c, d) && |full| == c.blocks && t == Tick(c, d, full)
    ensures |t.inputs| == |d.inputs| && |t.sent| + AllOwing(c, t) == |d.sent| + AllOwing(c, d)
  {
    VisitKeeps(c, d, 0, full);
    var (e, n) := Visit(c, d, 0, full);
    VisitBalance(c, d, 0, full, e);
    if n == c.blocks {
      forall i | 0 <= i < |e.inputs| ensures Owed(c, PortAt(c, t, i)) == Owed(c, PortAt(c, e, i)) {
        assert PidAt(c, e, i) <= 0 && PidAt(c, t, i) <= 0;
      }
      OwingSame(c, e, t);
    }
  }

  // ----- everything is sent -----

  function Free(c: Shape): seq<bool> { seq(c.blocks, _ => false) }

  /** `n` ticks with room in every output. */
  function Ticks(c: Shape, d: Disp, n: nat): (t: Disp)
    requires DispInv(c, d)
    ensures DispInv(c, t)
    decreases n
  {
    if n == 0 then d
    else
      TickKeeps(c, d, Free(c));
      Ticks(c, Tick(c, d, Free(c)), n - 1)
  }

  lemma TicksNext(c: Shape, d: Disp, n: nat) returns (e: Disp)
    requires DispInv(c, d) && n > 0
    ensures e == Tick(c, d, Free(c)) && DispInv(c, e) && Ticks(c, d, n) == Ticks(c, e, n - 1)
  {
    TickKeeps(c, d, Free(c));
    e := Tick(c, d, Free(c));
  }

  lemma {:induction false} TicksAdd(c: Shape, d: Disp, m: nat, n: nat, e: Disp)
    requires DispInv(c, d) && e == Ticks(c, d, m)
    ensures Ticks(c, d, m + n) == Ticks(c, e, n)
    decreases m
  {
    if m > 0 {
      var f := TicksNext(c, d, m);
      var g := TicksNext(c, d, m + n);
      TicksAdd(c, f, m - 1, n, e);
    }
  }

  lemma {:induction false} TicksBalance(c: Shape, d: Disp, n: nat, t: Disp)
    requires DispInv(c, d) && t == Ticks(c, d, n)
    ensures |t.inputs| == |d.inputs| && |t.sent| + AllOwing(c, t) == |d.sent| + AllOwing(c, d)
    decreases n
  {
    if n > 0 {
      var e := Tick(c, d, Free(c));
      TickKeeps(c, d, Free(c));
      TickBalance(c, d, Free(c), e);
      TicksBalance(c, e, n - 1, t);
    }
  }

  lemma {:induction false} TicksGrow(c: Shape, d: Disp, n: nat, t: Disp)
    requires DispInv(c, d) && t == Ticks(c, d, n)
    ensures |t.sent| >= |d.sent|
    decreases n
  {
    if n > 0 {
      var e := Tick(c, d, Free(c));
      TickKeeps(c, d, Free(c));
      VisitGrows(c, d, 0, Free(c), Visit(c, d, 0, Free(c)).0);
      TicksGrow(c, e, n - 1, t);
    }
  }

  /** A packet goes out within the patience for a batch with work. */
  lemma {:induction false} SendsSoon(c: Shape, d: Disp, j: nat, n: nat, t: Disp)
    requires DispInv(c, d) && HasWork(c, d, j) && n > Patience(c, d, j) && t == Ticks(c, d, n)
    ensures |t.sent| > |d.sent|
    decreases n
  {
    TickProgress(c, d, Free(c), j);
    var e := Tick(c, d, Free(c));
    if AnyReady(c, d, 0) {
      TicksGrow(c, e, n - 1, t);
    } else {
      SendsSoon(c, e, j, n - 1, t);
    }
  }

  lemma PatienceBound(c: Shape, d: Disp, j: nat)
    requires d.batch < c.batches && j < c.batches
    ensures Patience(c, d, j) <= c.batches
  {
  }

  /** While there is work, every `batches + 1` ticks send at least one packet. */
  lemma SendsOne(c: Shape, d: Disp, t: Disp)
    requires DispInv(c, d) && AnyWork(d) && t == Ticks(c, d, c.batches + 1)
    ensures |t.sent| > |d.sent|
  {
    var j := SomeWork(c, d);
    PatienceBound(c, d, j);
    SendsSoon(c, d, j, c.batches + 1, t);
  }

  lemma NothingQueuedOwes(c: Shape, d: Disp)
    requires DispInv(c, d) && !AnyWork(d)
    ensures AllOwing(c, d) == 0
  {
    if AllOwing(c, d) > 0 {
      var i := SomeOwing(c, d);
    }
  }

  lemma Stretch(c: Shape, d: Disp, t: Disp)
    requires DispInv(c, d) && t == Ticks(c, d, c.batches + 1)
    ensures |t.sent| > |d.sent| || AllOwing(c, d) == 0
  {
    if AnyWork(d) {
      SendsOne(c, d, t);
    } else {
      NothingQueuedOwes(c, d);
    }
  }

  lemma OwingFalls(c: Shape, d: Disp, n: nat, t: Disp)
    requires DispInv(c, d) && t == Ticks(c, d, n)
    ensures |t.sent| >= |d.sent| && (AllOwing(c, d) == 0 ==> AllOwing(c, t) == 0)
  {
    TicksGrow(c, d, n, t);
    TicksBalance(c, d, n, t);
  }

  /** So after `k` such stretches `k` packets have gone out, or nothing is owed. */
  lemma {:induction false} SentWithin(c: Shape, d: Disp, k: nat, t: Disp)
    requires DispInv(c, d) && t == Ticks(c, d, FirstLane(k, c.batches + 1))
    ensures |t.sent| >= |d.sent| + k || AllOwing(c, t) == 0
    decreases k
  {
    if k > 0 {
      var n := FirstLane(k - 1, c.batches + 1);
      var e := Ticks(c, d, n);
      SentWithin(c, d, k - 1, e);
      TicksAdd(c, d, n, c.batches + 1, e);
      Stretch(c, e, t);
      OwingFalls(c, e, c.batches + 1, t);
    }
  }

  lemma NothingMore(c: Shape, d: Disp, m: nat, n: nat, t: Disp)
    requires DispInv(c, d) && m == FirstLane(AllOwing(c, d), c.batches + 1) && n >= m && t == Ticks(c, d, n)
    ensures |t.inputs| == |d.inputs| && AllOwing(c, t) == 0
  {
    var e := Ticks(c, d, m);
    SentWithin(c, d, AllOwing(c, d), e);
    TicksBalance(c, d, m, e);
    TicksAdd(c, d, m, n - m, e);
    TicksBalance(c, e, n - m, t);
    OwingFalls(c, e, n - m, t);
  }

  /** With room in the outputs, every packet owed has gone out after as many ticks as there are
      packets owed times the batches and one: what an input has sent is then all it was to send. */
  lemma EveryPacketSent(c: Shape, d: Disp, i: nat, n: nat, t: Disp)
    requires DispInv(c, d) && i < |d.inputs| && n >= AllOwing(c, d) * (c.batches + 1) && t == Ticks(c, d, n)
    ensures |t.inputs| == |d.inputs| && Owed(c, PortAt(c, t, i)) == [] && PktsOf(t.sent, i) == Account(c, d, i)
  {
    var k := AllOwing(c, d);
    FirstLaneIsProduct(k, c.batches + 1);
    NothingMore(c, d, FirstLane(k, c.batches + 1), n, t);
    TicksKeep(c, d, n, i, t);
    NoneOwing(c, t, i);
    assert PktsOf(t.sent, i) + [] == PktsOf(t.sent, i);
  }

  lemma TickAccount(c: Shape, d: Disp, i: nat, t: Disp)
    requires DispInv(c, d) && i < |d.inputs| && t == Tick(c, d, Free(c))
    ensures DispInv(c, t) && |t.inputs| == |d.inputs| && Account(c, t, i) == Account(c, d, i)
  {
    TickKeeps(c, d, Free(c));
  }

  lemma {:induction false} TicksKeep(c: Shape, d: Disp, n: nat, i: nat, t: Disp)
    requires DispInv(c, d) && i < |d.inputs| && t == Ticks(c, d, n)
    ensures |t.inputs| == |d.inputs| && Account(c, t, i) == Account(c, d, i)
    decreases n
  {
    if n > 0 {
      var e := Tick(c, d, Free(c));
      TickAccount(c, d, i, e);
      TicksKeep(c, e, n - 1, i, t);
    }
  }

  // ----- where packets go -----

  /** Every packet went to the output of its input: the input's place in its batch. */
  ghost predicate Routed(c: Shape, sent: seq<Sent>) {
    forall k | 0 <= k < |sent| ::
      sent[k].output < c.blocks && exists j :: 0 <= j < c.batches && sent[k].input == InputOf(c, j, sent[k].output)
  }

  lemma {:induction false} VisitRoutes(c: Shape, d: Disp, b: nat, full: seq<bool>)
    requires DispInv(c, d) && b <= c.blocks && |full| == c.blocks && Routed(c, d.sent)
    ensures Routed(c, Visit(c, d, b, full).0.sent)
    decreases c.blocks - b
  {
    if b < c.blocks {
      BlockStepKeeps(c, d, b, full[b]);
      InputInRange(c, d.batch, b);
      var e := BlockStep(c, d, b, full[b]).0;
      assert Routed(c, e.sent) by {
        forall k | |d.sent| <= k < |e.sent|
          ensures e.sent[k].output < c.blocks && e.sent[k].input == InputOf(c, d.batch, e.sent[k].output)
        {
        }
      }
      VisitRoutes(c, e, b + 1, full);
    }
  }

  /** Over every run. */
  lemma {:induction false} PacketsRouted(c: Shape, d: Disp, acts: seq<Action>)
    requires DispInv(c, d) && RunOk(c, acts) && Routed(c, d.sent)
    ensures Routed(c, Run(c, d, acts).sent)
    decreases |acts|
  {
    if acts != [] {
      ApplyKeepsInv(c, d, acts[0]);
      if acts[0].Clock? {
        VisitRoutes(c, d, 0, acts[0].full);
      }
      PacketsRouted(c, Apply(c, d, acts[0]), acts[1..]);
    }
  }
}
