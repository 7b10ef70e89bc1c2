/** The dispatcher splits a warp instruction into SIMD packets, one per lane group that has an
    active lane, and rotates over batches of issue lanes. */
module Dispatcher {
  import opened Basics

  type Mask = seq<bool>

  /** The part of an instruction trace the dispatcher reads or rewrites. */
  datatype Trace = Trace(uuid: nat, tmask: Mask, numPkts: nat, pid: int, sop: bool, eop: bool)

  // ----- lane groups -----

  /** `j / lanes`, by counting down, so that proofs stay linear. */
  function GroupOf(j: nat, lanes: nat): nat
    requires lanes > 0
  {
    if j < lanes then 0 else 1 + GroupOf(j - lanes, lanes)
  }

  /** `g * lanes`, the first lane of a group. */
  function FirstLane(g: nat, lanes: nat): nat {
    if g == 0 then 0 else FirstLane(g - 1, lanes) + lanes
  }

  lemma {:induction false} FirstLaneIsProduct(g: nat, lanes: nat)
    ensures FirstLane(g, lanes) == g * lanes
  {
    if g > 0 {
      FirstLaneIsProduct(g - 1, lanes);
    }
  }

  lemma {:induction false} GroupBounds(j: nat, lanes: nat, g: nat)
    requires lanes > 0
    ensures FirstLane(g, lanes) <= j <==> g <= GroupOf(j, lanes)
    ensures j < FirstLane(g, lanes) + lanes <==> GroupOf(j, lanes) <= g
    ensures g <= FirstLane(g, lanes) && GroupOf(j, lanes) <= j
    decreases g + j
  {
    if g > 0 && j >= lanes {
      GroupBounds(j - lanes, lanes, g - 1);
    } else if g > 0 {
      GroupBounds(j, lanes, g - 1);
    } else if j >= lanes {
      GroupBounds(j - lanes, lanes, 0);
    }
  }

  lemma GroupIsQuotient(j: nat, lanes: nat)
    requires lanes > 0
    ensures GroupOf(j, lanes) == j / lanes
  {
    var q := GroupOf(j, lanes);
    GroupBounds(j, lanes, q);
    FirstLaneIsProduct(q, lanes);
    QuotientUnique(j, lanes, q, j / lanes);
  }

  lemma QuotientUnique(j: nat, lanes: nat, q: nat, d: nat)
    requires lanes > 0 && q * lanes <= j < q * lanes + lanes && d * lanes <= j < d * lanes + lanes
    ensures q == d
  {
    if d < q {
      MulMono(d + 1, q, lanes);
    } else if q < d {
      MulMono(q + 1, d, lanes);
    }
  }

  lemma GroupMonotone(s: nat, t: nat, lanes: nat)
    requires lanes > 0 && s <= t
    ensures GroupOf(s, lanes) <= GroupOf(t, lanes)
  {
    GroupBounds(s, lanes, GroupOf(s, lanes));
    GroupBounds(t, lanes, GroupOf(s, lanes));
  }

  // ----- the split of one trace -----

  /** First active lane at or after `j`, or -1. */
  function NextLane(m: Mask, j: nat): (r: int)
    ensures r == -1 || (j <= r < |m| && m[r])
    decreases |m| - j
  {
    if j >= |m| then -1 else if m[j] then j else NextLane(m, j + 1)
  }

  lemma {:induction false} NextLaneFirst(m: Mask, j: nat)
    ensures forall k | j <= k < (if NextLane(m, j) == -1 then |m| else NextLane(m, j)) :: !m[k]
    decreases |m| - j
  {
    if j < |m| && !m[j] {
      NextLaneFirst(m, j + 1);
    }
  }

  /** Last active lane before `n`, or -1. */
  function LastLane(m: Mask, n: nat): (r: int)
    requires n <= |m|
    ensures r == -1 || (0 <= r < n && m[r])
  {
    if n == 0 then -1 else if m[n - 1] then n - 1 else LastLane(m, n - 1)
  }

  lemma {:induction false} LastLaneLast(m: Mask, n: nat)
    requires n <= |m|
    ensures forall k | LastLane(m, n) < k < n :: !m[k]
  {
    if n > 0 && !m[n - 1] {
      LastLaneLast(m, n - 1);
    }
  }

  predicate GroupActive(m: Mask, lo: nat, hi: nat)
    requires lo <= hi <= |m|
  {
    exists j :: lo <= j < hi && m[j]
  }

  /** Number of lane groups from lane `j` on that have an active lane. */
  function CountGroups(m: Mask, lanes: nat, j: nat): nat
    requires lanes > 0
    decreases |m| - j
  {
    if j + lanes > |m| then 0
    else (if GroupActive(m, j, j + lanes) then 1 else 0) + CountGroups(m, lanes, j + lanes)
  }

  function NumPkts(m: Mask, lanes: nat): nat
    requires lanes > 0
  {
    var n := CountGroups(m, lanes, 0);
    if n == 0 then 1 else n
  }

  function GroupMask(m: Mask, lanes: nat, g: nat): Mask
    requires lanes > 0
  {
    seq(|m|, (j: nat) requires j < |m| => m[j] && GroupOf(j, lanes) == g)
  }

  function Packet(tr: Trace, lanes: nat, g: nat, first: bool): Trace
    requires lanes > 0
  {
    var last := LastLane(tr.tmask, |tr.tmask|);
    tr.(tmask := GroupMask(tr.tmask, lanes, g), pid := g, sop := tr.sop && first,
        eop := tr.eop && last >= 0 && g == GroupOf(last, lanes))
  }

  /** The packets still to come when the groups below `pid` are done. */
  function SplitFrom(tr: Trace, lanes: nat, pid: nat): seq<Trace>
    requires lanes > 0
    decreases |tr.tmask| - pid
  {
    var s := NextLane(tr.tmask, FirstLane(pid, lanes));
    if s == -1 then []
    else
      GroupBounds(s, lanes, pid);
      [Packet(tr, lanes, GroupOf(s, lanes), pid == 0)] + SplitFrom(tr, lanes, GroupOf(s, lanes) + 1)
  }

  /** All packets of a trace: with a single lane group it is passed on unchanged. */
  function Split(tr: Trace, lanes: nat): seq<Trace>
    requires lanes > 0
  {
    if |tr.tmask| == lanes then [tr] else SplitFrom(tr.(numPkts := NumPkts(tr.tmask, lanes)), lanes, 0)
  }

  /** The lane count is a whole number of groups. */
  predicate Whole(n: nat, lanes: nat)
    requires lanes > 0
  {
    n == FirstLane(GroupOf(n, lanes), lanes)
  }

  // ----- what a split is -----

  /** Packets in increasing group order, each with the lanes of its group. */
  ghost predicate Ordered(ps: seq<Trace>, tr: Trace, lanes: nat, from: nat)
    requires lanes > 0
  {
    && (forall k | 0 <= k < |ps| ::
          && from <= ps[k].pid && ps[k].tmask == GroupMask(tr.tmask, lanes, ps[k].pid)
          && ps[k].numPkts == tr.numPkts && ps[k].uuid == tr.uuid)
    && (forall i, j | 0 <= i < j < |ps| :: ps[i].pid < ps[j].pid)
  }

  lemma OrderedCons(p: Trace, ps: seq<Trace>, tr: Trace, lanes: nat, from: nat, g: nat)
    requires lanes > 0 && from <= g && Ordered(ps, tr, lanes, g + 1) && Ordered([p], tr, lanes, g) && p.pid == g
    ensures Ordered([p] + ps, tr, lanes, from)
  {
  }

  lemma {:induction false} SplitOrdered(tr: Trace, lanes: nat, pid: nat)
    requires lanes > 0
    ensures Ordered(SplitFrom(tr, lanes, pid), tr, lanes, pid)
    decreases |tr.tmask| - pid
  {
    var s := NextLane(tr.tmask, FirstLane(pid, lanes));
    if s != -1 {
      var g := GroupOf(s, lanes);
      GroupBounds(s, lanes, pid);
      SplitOrdered(tr, lanes, g + 1);
      OrderedCons(Packet(tr, lanes, g, pid == 0), SplitFrom(tr, lanes, g + 1), tr, lanes, pid, g);
    }
  }

  /** Every active lane from group `pid` on is in some packet. */
  lemma {:induction false} SplitCovers(tr: Trace, lanes: nat, pid: nat, t: nat)
    requires lanes > 0 && t < |tr.tmask| && tr.tmask[t] && pid <= GroupOf(t, lanes)
    ensures exists k :: 0 <= k < |SplitFrom(tr, lanes, pid)| && SplitFrom(tr, lanes, pid)[k].pid == GroupOf(t, lanes)
    decreases |tr.tmask| - pid
  {
    GroupBounds(t, lanes, pid);
    var s := NextLane(tr.tmask, FirstLane(pid, lanes));
    NextLaneFirst(tr.tmask, FirstLane(pid, lanes));
    assert 0 <= s <= t;
    GroupBounds(s, lanes, pid);
    GroupMonotone(s, t, lanes);
    var g := GroupOf(s, lanes);
    var ps, rest := SplitFrom(tr, lanes, pid), SplitFrom(tr, lanes, g + 1);
    assert ps == [Packet(tr, lanes, g, pid == 0)] + rest;
    if GroupOf(t, lanes) == g {
      assert ps[0].pid == g;
    } else {
      SplitCovers(tr, lanes, g + 1, t);
      var k :| 0 <= k < |rest| && rest[k].pid == GroupOf(t, lanes);
      assert ps[k + 1] == rest[k];
    }
  }

  lemma {:induction false} CountNone(m: Mask, lanes: nat, j: nat)
    requires lanes > 0 && forall k | j <= k < |m| :: !m[k]
    ensures CountGroups(m, lanes, j) == 0
    decreases |m| - j
  {
    if j + lanes <= |m| {
      CountNone(m, lanes, j + lanes);
    }
  }

  /** Groups without an active lane contribute nothing to the count. */
  lemma {:induction false} CountSkips(m: Mask, lanes: nat, pid: nat, g: nat)
    requires lanes > 0 && pid <= g && FirstLane(g, lanes) <= |m|
    requires forall j | FirstLane(pid, lanes) <= j < FirstLane(g, lanes) :: !m[j]
    ensures CountGroups(m, lanes, FirstLane(pid, lanes)) == CountGroups(m, lanes, FirstLane(g, lanes))
    decreases g - pid
  {
    if pid < g {
      FirstLaneMonotone(pid + 1, g, lanes);
      CountSkips(m, lanes, pid + 1, g);
    }
  }

  lemma {:induction false} FirstLaneMonotone(a: nat, b: nat, lanes: nat)
    requires a <= b
    ensures FirstLane(a, lanes) <= FirstLane(b, lanes)
  {
    if a < b {
      FirstLaneMonotone(a, b - 1, lanes);
    }
  }

  lemma GroupFits(t: nat, n: nat, lanes: nat)
    requires lanes > 0 && Whole(n, lanes) && t < n
    ensures var f := FirstLane(GroupOf(t, lanes), lanes); f + lanes <= n && f <= t < f + lanes
  {
    GroupBounds(t, lanes, GroupOf(t, lanes));
    GroupBounds(t, lanes, GroupOf(n, lanes));
    FirstLaneMonotone(GroupOf(t, lanes) + 1, GroupOf(n, lanes), lanes);
  }

  /** The count from one packet to the next. */
  lemma CountStep(m: Mask, lanes: nat, pid: nat)
    requires lanes > 0 && Whole(|m|, lanes) && NextLane(m, FirstLane(pid, lanes)) != -1
    ensures var g := GroupOf(NextLane(m, FirstLane(pid, lanes)), lanes);
      pid <= g < |m| && CountGroups(m, lanes, FirstLane(pid, lanes)) == 1 + CountGroups(m, lanes, FirstLane(g + 1, lanes))
  {
    var s := NextLane(m, FirstLane(pid, lanes));
    var g := GroupOf(s, lanes);
    GroupBounds(s, lanes, pid);
    GroupFits(s, |m|, lanes);
    NextLaneFirst(m, FirstLane(pid, lanes));
    CountSkips(m, lanes, pid, g);
    var f := FirstLane(g, lanes);
    assert f + lanes == FirstLane(g + 1, lanes);
    assert GroupActive(m, f, f + lanes);
  }

  lemma SplitLength(tr: Trace, lanes: nat, pid: nat)
    requires lanes > 0 && NextLane(tr.tmask, FirstLane(pid, lanes)) != -1
    ensures var g := GroupOf(NextLane(tr.tmask, FirstLane(pid, lanes)), lanes);
      pid <= g && |SplitFrom(tr, lanes, pid)| == 1 + |SplitFrom(tr, lanes, g + 1)|
  {
    GroupBounds(NextLane(tr.tmask, FirstLane(pid, lanes)), lanes, pid);
  }

  /** The packet count announced by the dispatcher is the number of packets it sends. */
  lemma {:induction false} SplitCount(tr: Trace, lanes: nat, pid: nat)
    requires lanes > 0 && Whole(|tr.tmask|, lanes)
    ensures |SplitFrom(tr, lanes, pid)| == CountGroups(tr.tmask, lanes, FirstLane(pid, lanes))
    decreases |tr.tmask| - pid
  {
    var s := NextLane(tr.tmask, FirstLane(pid, lanes));
    if s == -1 {
      NextLaneFirst(tr.tmask, FirstLane(pid, lanes));
      CountNone(tr.tmask, lanes, FirstLane(pid, lanes));
    } else {
      CountStep(tr.tmask, lanes, pid);
      SplitLength(tr, lanes, pid);
      SplitCount(tr, lanes, GroupOf(s, lanes) + 1);
    }
  }

  /** The packets of a trace are disjoint, cover its thread mask, and each announces how many
      of them there are. */
  ghost predicate Partition(ps: seq<Trace>, m: Mask, uuid: nat) {
    && (forall k | 0 <= k < |ps| :: |ps[k].tmask| == |m| && ps[k].numPkts == |ps| && ps[k].uuid == uuid)
    && (forall i, j, t | 0 <= i < j < |ps| && 0 <= t < |m| :: !(ps[i].tmask[t] && ps[j].tmask[t]))
    && (forall t | 0 <= t < |m| :: m[t] <==> exists k :: 0 <= k < |ps| && ps[k].tmask[t])
  }

  lemma OrderedPartition(ps: seq<Trace>, tr: Trace, lanes: nat)
    requires lanes > 0 && Ordered(ps, tr, lanes, 0) && tr.numPkts == |ps|
    requires forall t | 0 <= t < |tr.tmask| && tr.tmask[t] :: exists k :: 0 <= k < |ps| && ps[k].pid == GroupOf(t, lanes)
    ensures Partition(ps, tr.tmask, tr.uuid)
  {
    forall t | 0 <= t < |tr.tmask| && tr.tmask[t] ensures exists k :: 0 <= k < |ps| && ps[k].tmask[t] {
      var k :| 0 <= k < |ps| && ps[k].pid == GroupOf(t, lanes);
      assert ps[k].tmask[t];
    }
  }

  lemma SplitCoversAll(tr: Trace, lanes: nat, ps: seq<Trace>)
    requires lanes > 0 && ps == SplitFrom(tr, lanes, 0)
    ensures forall t | 0 <= t < |tr.tmask| && tr.tmask[t] :: exists k :: 0 <= k < |ps| && ps[k].pid == GroupOf(t, lanes)
  {
    forall t | 0 <= t < |tr.tmask| && tr.tmask[t] ensures exists k :: 0 <= k < |ps| && ps[k].pid == GroupOf(t, lanes) {
      SplitCovers(tr, lanes, 0, t);
    }
  }

  lemma SplitFromPartitions(tr: Trace, lanes: nat, ps: seq<Trace>)
    requires lanes > 0 && Whole(|tr.tmask|, lanes) && true in tr.tmask && tr.numPkts == NumPkts(tr.tmask, lanes)
    requires ps == SplitFrom(tr, lanes, 0)
    ensures Partition(ps, tr.tmask, tr.uuid) && ps != []
  {
    SplitOrdered(tr, lanes, 0);
    SplitCount(tr, lanes, 0);
    SplitCoversAll(tr, lanes, ps);
    var t :| 0 <= t < |tr.tmask| && tr.tmask[t];
    assert ps != [];
    OrderedPartition(ps, tr, lanes);
  }

  /** The packets partition the thread mask and number what each of them announces. */
  lemma SplitPartitions(tr: Trace, lanes: nat)
    requires lanes > 0 && Whole(|tr.tmask|, lanes) && true in tr.tmask && tr.numPkts == 1
    ensures Partition(Split(tr, lanes), tr.tmask, tr.uuid) && Split(tr, lanes) != []
  {
    if |tr.tmask| == lanes {
      assert Split(tr, lanes)[0] == tr;
    } else {
      SplitFromPartitions(tr.(numPkts := NumPkts(tr.tmask, lanes)), lanes, Split(tr, lanes));
    }
  }

  ghost predicate Marked(ps: seq<Trace>, first: bool) {
    forall k | 0 <= k < |ps| :: ps[k].sop == (first && k == 0) && ps[k].eop == (k == |ps| - 1)
  }

  lemma FirstMark(tr: Trace, lanes: nat, pid: nat) returns (p: Trace, g: nat)
    requires lanes > 0 && tr.sop && tr.eop && NextLane(tr.tmask, FirstLane(pid, lanes)) != -1
    ensures pid <= g < |tr.tmask| && SplitFrom(tr, lanes, pid) == [p] + SplitFrom(tr, lanes, g + 1)
    ensures p.sop == (pid == 0) && p.eop == (SplitFrom(tr, lanes, g + 1) == [])
  {
    var s := NextLane(tr.tmask, FirstLane(pid, lanes));
    g := GroupOf(s, lanes);
    p := Packet(tr, lanes, g, pid == 0);
    GroupBounds(s, lanes, pid);
    LastGroup(tr, lanes, g);
  }

  lemma MarkedCons(p: Trace, ps: seq<Trace>, first: bool)
    requires Marked(ps, false) && p.sop == first && p.eop == (ps == [])
    ensures Marked([p] + ps, first)
  {
  }

  /** Exactly the first packet starts the instruction and exactly the last one ends it. */
  lemma {:induction false} SplitMarks(tr: Trace, lanes: nat, pid: nat)
    requires lanes > 0 && tr.sop && tr.eop
    ensures Marked(SplitFrom(tr, lanes, pid), pid == 0)
    decreases |tr.tmask| - pid
  {
    if NextLane(tr.tmask, FirstLane(pid, lanes)) != -1 {
      var p, g := FirstMark(tr, lanes, pid);
      SplitMarks(tr, lanes, g + 1);
      MarkedCons(p, SplitFrom(tr, lanes, g + 1), pid == 0);
    }
  }

  lemma LastGroup(tr: Trace, lanes: nat, g: nat)
    requires lanes > 0 && (exists s :: 0 <= s < |tr.tmask| && tr.tmask[s] && g <= GroupOf(s, lanes))
    ensures var last := LastLane(tr.tmask, |tr.tmask|);
      last >= 0 && (SplitFrom(tr, lanes, g + 1) == [] <==> g == GroupOf(last, lanes))
  {
    var m := tr.tmask;
    var last := LastLane(m, |m|);
    var s :| 0 <= s < |m| && m[s] && g <= GroupOf(s, lanes);
    LastLaneLast(m, |m|);
    GroupMonotone(s, last, lanes);
    if g == GroupOf(last, lanes) {
      GroupBounds(last, lanes, g + 1);
      NextLaneFirst(m, FirstLane(g + 1, lanes));
    } else {
      SplitCovers(tr, lanes, g + 1, last);
    }
  }

  // ----- one issue lane -----

  datatype Shape = Shape(threads: nat, lanes: nat, blocks: nat, batches: nat)

  ghost predicate ShapeOk(c: Shape) { c.lanes > 0 && Whole(c.threads, c.lanes) && c.blocks > 0 && c.batches > 0 }

  /** An input queue and the next lane group of its head: -1 once the block has finished a trace
      in this batch. */
  datatype Port = Port(q: seq<Trace>, pid: int)

  ghost predicate PortInv(c: Shape, l: Port)
    requires c.lanes > 0
  {
    && l.pid >= -1
    && (forall k | 0 <= k < |l.q| :: |l.q[k].tmask| == c.threads && true in l.q[k].tmask)
    && (l.pid > 0 ==> c.threads != c.lanes && l.q != [] && NextLane(l.q[0].tmask, FirstLane(l.pid, c.lanes)) != -1)
  }

  /** The head with its packet count filled in on the first visit. */
  function Head(l: Port, lanes: nat): Trace
    requires lanes > 0 && l.q != []
  {
    if l.pid == 0 then l.q[0].(numPkts := NumPkts(l.q[0].tmask, lanes)) else l.q[0]
  }

  /** One visit of a block with room in its output: the packets sent (at most one), the new
      state, and whether the block is through with this batch. */
  function PortStep(c: Shape, l: Port): (seq<Trace>, Port, bool)
    requires c.lanes > 0 && PortInv(c, l)
  {
    if l.q == [] then ([], l, true)
    else if c.threads == c.lanes then ([l.q[0]], l.(q := l.q[1..]), true)
    else if l.pid == -1 then ([], l, true)
    else
      var t := Head(l, c.lanes);
      SomeLane(t.tmask);
      var s, e := NextLane(t.tmask, FirstLane(l.pid, c.lanes)), LastLane(t.tmask, |t.tmask|);
      var g := GroupOf(s, c.lanes);
      var p := Packet(t, c.lanes, g, l.pid == 0);
      if g != GroupOf(e, c.lanes) then ([p], Port([t] + l.q[1..], g + 1), false)
      else ([p], Port(l.q[1..], -1), true)
  }

  lemma SomeLane(m: Mask)
    requires true in m
    ensures NextLane(m, 0) != -1 && LastLane(m, |m|) != -1
  {
    var t :| 0 <= t < |m| && m[t];
    NextLaneFirst(m, 0);
    LastLaneLast(m, |m|);
  }

  function SplitAll(trs: seq<Trace>, lanes: nat): seq<Trace>
    requires lanes > 0
  {
    if trs == [] then [] else Split(trs[0], lanes) + SplitAll(trs[1..], lanes)
  }

  /** What a lane still owes: the rest of a half-sent trace, then its other traces. */
  function Owed(c: Shape, l: Port): seq<Trace>
    requires c.lanes > 0
  {
    if l.pid > 0 && l.q != [] then SplitFrom(l.q[0], c.lanes, l.pid) + SplitAll(l.q[1..], c.lanes)
    else SplitAll(l.q, c.lanes)
  }

  lemma OwedHead(c: Shape, l: Port)
    requires c.lanes > 0 && PortInv(c, l) && l.q != [] && l.pid >= 0 && c.threads != c.lanes
    ensures Owed(c, l) == SplitFrom(Head(l, c.lanes), c.lanes, l.pid) + SplitAll(l.q[1..], c.lanes)
  {
  }

  /** Lane group of the next packet. */
  function NextGroup(t: Trace, lanes: nat, pid: nat): nat
    requires lanes > 0 && NextLane(t.tmask, FirstLane(pid, lanes)) != -1
  {
    GroupOf(NextLane(t.tmask, FirstLane(pid, lanes)), lanes)
  }

  lemma SplitUnfold(t: Trace, lanes: nat, pid: nat)
    requires lanes > 0 && NextLane(t.tmask, FirstLane(pid, lanes)) != -1
    ensures var g := NextGroup(t, lanes, pid);
      SplitFrom(t, lanes, pid) == [Packet(t, lanes, g, pid == 0)] + SplitFrom(t, lanes, g + 1)
  {
  }

  lemma SplitEnd(t: Trace, lanes: nat, pid: nat)
    requires lanes > 0 && NextLane(t.tmask, FirstLane(pid, lanes)) != -1
    ensures var g, e := NextGroup(t, lanes, pid), LastLane(t.tmask, |t.tmask|);
      && e != -1
      && (g == GroupOf(e, lanes) <==> SplitFrom(t, lanes, g + 1) == [])
      && (g != GroupOf(e, lanes) ==> NextLane(t.tmask, FirstLane(g + 1, lanes)) != -1)
  {
    var s := NextLane(t.tmask, FirstLane(pid, lanes));
    GroupBounds(s, lanes, pid);
    LastGroup(t, lanes, GroupOf(s, lanes));
  }

  lemma Regroup(sp: seq<Trace>, p: Trace, more: seq<Trace>, rest: seq<Trace>)
    requires sp == [p] + more
    ensures sp + rest == [p] + (more + rest)
  {
  }

  /** A visit moves packets from what is owed to what is sent, in order. */
  lemma PortStepOwes(c: Shape, l: Port)
    requires c.lanes > 0 && PortInv(c, l)
    ensures var (sent, l', done) := PortStep(c, l);
      Owed(c, l) == sent + Owed(c, l') && PortInv(c, l') && (done ==> l'.pid <= 0)
  {
    if l.q != [] && c.threads != c.lanes && l.pid >= 0 {
      SplitPortOwes(c, l);
    }
  }

  /** The packet that goes out, the head it is cut from, its lane group and what the port becomes. */
  lemma PortStepShape(c: Shape, l: Port) returns (p: Trace, t: Trace, g: nat, l': Port)
    requires c.lanes > 0 && PortInv(c, l) && l.q != [] && c.threads != c.lanes && l.pid >= 0
    ensures t == Head(l, c.lanes) && SplitFrom(t, c.lanes, l.pid) == [p] + SplitFrom(t, c.lanes, g + 1)
    ensures PortStep(c, l) == ([p], l', SplitFrom(t, c.lanes, g + 1) == [])
    ensures if SplitFrom(t, c.lanes, g + 1) == [] then l' == Port(l.q[1..], -1)
            else l' == Port([t] + l.q[1..], g + 1) && NextLane(t.tmask, FirstLane(g + 1, c.lanes)) != -1
  {
    t := Head(l, c.lanes);
    SomeLane(t.tmask);
    g := NextGroup(t, c.lanes, l.pid);
    p := Packet(t, c.lanes, g, l.pid == 0);
    l' := PortStep(c, l).1;
    SplitUnfold(t, c.lanes, l.pid);
    SplitEnd(t, c.lanes, l.pid);
  }

  lemma HeadMask(c: Shape, l: Port)
    requires c.lanes > 0 && PortInv(c, l) && l.q != []
    ensures Head(l, c.lanes).tmask == l.q[0].tmask && |l.q[0].tmask| == c.threads && true in l.q[0].tmask
  {
  }

  /** What a port owes after a visit. */
  lemma OwedAfter(c: Shape, l: Port, t: Trace, g: nat, l': Port)
    requires c.lanes > 0 && PortInv(c, l) && l.q != [] && c.threads != c.lanes
    requires t.tmask == l.q[0].tmask
    requires if SplitFrom(t, c.lanes, g + 1) == [] then l' == Port(l.q[1..], -1)
             else l' == Port([t] + l.q[1..], g + 1) && NextLane(t.tmask, FirstLane(g + 1, c.lanes)) != -1
    ensures PortInv(c, l') && Owed(c, l') == SplitFrom(t, c.lanes, g + 1) + SplitAll(l.q[1..], c.lanes)
  {
    HeadMask(c, l);
    if SplitFrom(t, c.lanes, g + 1) != [] {
      OwedPartial(c, t, l.q[1..], g + 1);
    }
  }

  lemma SplitPortOwes(c: Shape, l: Port)
    requires c.lanes > 0 && PortInv(c, l) && l.q != [] && c.threads != c.lanes && l.pid >= 0
    ensures var (sent, l', done) := PortStep(c, l); Owed(c, l) == sent + Owed(c, l') && PortInv(c, l') && (done ==> l'.pid <= 0)
  {
    var p, t, g, l' := PortStepShape(c, l);
    HeadMask(c, l);
    OwedHead(c, l);
    OwedAfter(c, l, t, g, l');
    Regroup(SplitFrom(t, c.lanes, l.pid), p, SplitFrom(t, c.lanes, g + 1), SplitAll(l.q[1..], c.lanes));
  }

  lemma OwedPartial(c: Shape, t: Trace, rest: seq<Trace>, pid: nat)
    requires c.lanes > 0 && pid > 0
    ensures Owed(c, Port([t] + rest, pid)) == SplitFrom(t, c.lanes, pid) + SplitAll(rest, c.lanes)
  {
    assert ([t] + rest)[1..] == rest;
  }

  // ----- the dispatcher: batches of blocks -----

  datatype Sent = Sent(input: nat, output: nat, pkt: Trace)

  /** `pids` belong to the inputs of the current batch.  `sent` logs what went to the outputs. */
  datatype Disp = Disp(batch: nat, pids: seq<int>, inputs: seq<seq<Trace>>, sent: seq<Sent>)

  function InputOf(c: Shape, batch: nat, b: nat): nat { FirstLane(batch, c.blocks) + b }

  function PidAt(c: Shape, d: Disp, i: nat): int {
    var b := i - FirstLane(d.batch, c.blocks);
    if 0 <= b < |d.pids| then d.pids[b] else 0
  }

  function PortAt(c: Shape, d: Disp, i: nat): Port
    requires i < |d.inputs|
  {
    Port(d.inputs[i], PidAt(c, d, i))
  }

  ghost predicate DispInv(c: Shape, d: Disp) {
    && ShapeOk(c) && d.batch < c.batches && |d.pids| == c.blocks && |d.inputs| == FirstLane(c.batches, c.blocks)
    && forall i | 0 <= i < |d.inputs| :: PortInv(c, PortAt(c, d, i))
  }

  lemma InputInRange(c: Shape, batch: nat, b: nat)
    requires batch < c.batches && b < c.blocks
    ensures InputOf(c, batch, b) < FirstLane(c.batches, c.blocks)
  {
    FirstLaneMonotone(batch + 1, c.batches, c.blocks);
  }

  function Log(i: nat, b: nat, out: seq<Trace>): seq<Sent> {
    seq(|out|, (k: nat) requires k < |out| => Sent(i, b, out[k]))
  }

  function BlockStep(c: Shape, d: Disp, b: nat, full: bool): (Disp, bool)
    requires DispInv(c, d) && b < c.blocks
  {
    InputInRange(c, d.batch, b);
    var i := InputOf(c, d.batch, b);
    if d.inputs[i] == [] then (d, true)
    else if full then (d, false)
    else
      var (out, l, done) := PortStep(c, PortAt(c, d, i));
      (SetPort(c, d, b, l, out), done)
  }

  function PktsOf(sent: seq<Sent>, i: nat): seq<Trace> {
    if sent == [] then []
    else
      var p := PktsOf(sent[..|sent| - 1], i);
      if sent[|sent| - 1].input == i then p + [sent[|sent| - 1].pkt] else p
  }

  /** All packets of input `i`, sent or still owed. */
  function Account(c: Shape, d: Disp, i: nat): seq<Trace>
    requires c.lanes > 0 && i < |d.inputs|
  {
    PktsOf(d.sent, i) + Owed(c, PortAt(c, d, i))
  }

  lemma LogPkts(sent: seq<Sent>, i: nat, b: nat, out: seq<Trace>, j: nat)
    requires |out| <= 1
    ensures PktsOf(sent + Log(i, b, out), j) == if i == j then PktsOf(sent, j) + out else PktsOf(sent, j)
  {
    if out == [] {
      assert sent + Log(i, b, out) == sent;
    } else {
      assert (sent + Log(i, b, out))[..|sent|] == sent;
    }
  }

  function SetPort(c: Shape, d: Disp, b: nat, l: Port, out: seq<Trace>): Disp
    requires b < |d.pids| && InputOf(c, d.batch, b) < |d.inputs|
  {
    var i := InputOf(c, d.batch, b);
    d.(pids := d.pids[b := l.pid], inputs := d.inputs[i := l.q], sent := d.sent + Log(i, b, out))
  }

  lemma PortAfter(c: Shape, d: Disp, b: nat, l: Port, out: seq<Trace>, j: nat)
    requires b < |d.pids| && InputOf(c, d.batch, b) < |d.inputs| && j < |d.inputs|
    ensures PortAt(c, SetPort(c, d, b, l, out), j) == if j == InputOf(c, d.batch, b) then l else PortAt(c, d, j)
  {
  }

  /** Replacing the port of block `b` by one that owes `out` less, and logging `out`. */
  lemma SetPortKeeps(c: Shape, d: Disp, b: nat, l: Port, out: seq<Trace>, j: nat)
    requires c.lanes > 0 && b < |d.pids| && InputOf(c, d.batch, b) < |d.inputs| && j < |d.inputs| && |out| <= 1
    requires Owed(c, PortAt(c, d, InputOf(c, d.batch, b))) == out + Owed(c, l)
    ensures Account(c, SetPort(c, d, b, l, out), j) == Account(c, d, j)
  {
    var i := InputOf(c, d.batch, b);
    LogPkts(d.sent, i, b, out, j);
    PortAfter(c, d, b, l, out, j);
    if j == i {
      Assoc(PktsOf(d.sent, i), out, Owed(c, l));
    }
  }

  lemma BlockStepKeeps(c: Shape, d: Disp, b: nat, full: bool)
    requires DispInv(c, d) && b < c.blocks
    ensures var (e, done) := BlockStep(c, d, b, full);
      && DispInv(c, e) && e.batch == d.batch && (done ==> e.pids[b] <= 0)
      && (forall k | 0 <= k < c.blocks && k != b :: e.pids[k] == d.pids[k])
      && (forall j | 0 <= j < |d.inputs| :: Account(c, e, j) == Account(c, d, j))
  {
    InputInRange(c, d.batch, b);
    var i := InputOf(c, d.batch, b);
    var l := PortAt(c, d, i);
    assert PortInv(c, l) && l.pid == d.pids[b];
    if d.inputs[i] != [] && !full {
      var r := PortStep(c, l);
      PortStepOwes(c, l);
      forall j | 0 <= j < |d.inputs|
        ensures PortInv(c, PortAt(c, SetPort(c, d, b, r.1, r.0), j)) && Account(c, SetPort(c, d, b, r.1, r.0), j) == Account(c, d, j)
      {
        SetPortKeeps(c, d, b, r.1, r.0, j);
        PortAfter(c, d, b, r.1, r.0, j);
      }
    }
  }

  /** Visits blocks `b` and up; the count of blocks that are through with the batch. */
  function Visit(c: Shape, d: Disp, b: nat, full: seq<bool>): (r: (Disp, nat))
    requires DispInv(c, d) && b <= c.blocks && |full| == c.blocks
    decreases c.blocks - b
  {
    if b == c.blocks then (d, 0)
    else
      BlockStepKeeps(c, d, b, full[b]);
      var (e, done) := BlockStep(c, d, b, full[b]);
      var (f, n) := Visit(c, e, b + 1, full);
      (f, n + if done then 1 else 0)
  }

  function Tick(c: Shape, d: Disp, full: seq<bool>): Disp
    requires DispInv(c, d) && |full| == c.blocks
  {
    var (e, n) := Visit(c, d, 0, full);
    if n == c.blocks then e.(batch := (e.batch + 1) % c.batches, pids := seq(c.blocks, _ => 0)) else e
  }

  ghost predicate SameAccounts(c: Shape, d: Disp, e: Disp)
    requires c.lanes > 0
  {
    |e.inputs| == |d.inputs| && forall j | 0 <= j < |d.inputs| :: Account(c, e, j) == Account(c, d, j)
  }

  lemma {:induction false} VisitKeeps(c: Shape, d: Disp, b: nat, full: seq<bool>)
    requires DispInv(c, d) && b <= c.blocks && |full| == c.blocks
    ensures var (e, n) := Visit(c, d, b, full);
      && DispInv(c, e) && e.batch == d.batch && SameAccounts(c, d, e) && n <= c.blocks - b
      && (forall k | 0 <= k < b :: e.pids[k] == d.pids[k])
      && (n == c.blocks - b ==> forall k | b <= k < c.blocks :: e.pids[k] <= 0)
    decreases c.blocks - b
  {
    if b < c.blocks {
      BlockStepKeeps(c, d, b, full[b]);
      VisitKeeps(c, BlockStep(c, d, b, full[b]).0, b + 1, full);
    }
  }

  /** Turning to the next batch loses nothing: no block is in the middle of a trace. */
  lemma NextBatchKeeps(c: Shape, d: Disp, batch: nat)
    requires DispInv(c, d) && batch < c.batches && forall k | 0 <= k < c.blocks :: d.pids[k] <= 0
    ensures var e := d.(batch := batch, pids := seq(c.blocks, _ => 0)); DispInv(c, e) && SameAccounts(c, d, e)
  {
    var e := d.(batch := batch, pids := seq(c.blocks, _ => 0));
    forall j | 0 <= j < |d.inputs| ensures PortInv(c, PortAt(c, e, j)) && Account(c, e, j) == Account(c, d, j) {
      assert PortInv(c, PortAt(c, d, j));
      assert PortAt(c, e, j) == PortAt(c, d, j).(pid := 0) && PidAt(c, d, j) <= 0;
    }
  }

  lemma TickKeeps(c: Shape, d: Disp, full: seq<bool>)
    requires DispInv(c, d) && |full| == c.blocks
    ensures DispInv(c, Tick(c, d, full)) && SameAccounts(c, d, Tick(c, d, full))
  {
    VisitKeeps(c, d, 0, full);
    var (e, n) := Visit(c, d, 0, full);
    if n == c.blocks {
      NextBatchKeeps(c, e, (e.batch + 1) % c.batches);
    }
  }

  // ----- runs -----

  datatype Action = Push(i: nat, tr: Trace) | Clock(full: seq<bool>)

  ghost predicate ActionOk(c: Shape, a: Action) {
    match a
    case Push(i, tr) => i < FirstLane(c.batches, c.blocks) && |tr.tmask| == c.threads && true in tr.tmask
    case Clock(full) => |full| == c.blocks
  }

  ghost predicate RunOk(c: Shape, acts: seq<Action>) { forall k | 0 <= k < |acts| :: ActionOk(c, acts[k]) }

  function Apply(c: Shape, d: Disp, a: Action): Disp
    requires DispInv(c, d) && ActionOk(c, a)
  {
    match a
    case Push(i, tr) => d.(inputs := d.inputs[i := d.inputs[i] + [tr]])
    case Clock(full) => Tick(c, d, full)
  }

  lemma {:induction false} SplitAllSnoc(trs: seq<Trace>, tr: Trace, lanes: nat)
    requires lanes > 0
    ensures SplitAll(trs + [tr], lanes) == SplitAll(trs, lanes) + Split(tr, lanes)
    decreases |trs|
  {
    if trs == [] {
      assert [tr][1..] == [] && trs + [tr] == [tr];
    } else {
      assert (trs + [tr])[1..] == trs[1..] + [tr];
      SplitAllSnoc(trs[1..], tr, lanes);
      Assoc(Split(trs[0], lanes), SplitAll(trs[1..], lanes), Split(tr, lanes));
    }
  }

  lemma PushOwes(c: Shape, l: Port, tr: Trace)
    requires c.lanes > 0 && PortInv(c, l)
    ensures Owed(c, l.(q := l.q + [tr])) == Owed(c, l) + Split(tr, c.lanes)
  {
    if l.pid > 0 {
      assert (l.q + [tr])[1..] == l.q[1..] + [tr];
      SplitAllSnoc(l.q[1..], tr, c.lanes);
      Assoc(SplitFrom(l.q[0], c.lanes, l.pid), SplitAll(l.q[1..], c.lanes), Split(tr, c.lanes));
    } else {
      SplitAllSnoc(l.q, tr, c.lanes);
    }
  }

  lemma PushPort(c: Shape, d: Disp, i: nat, tr: Trace, j: nat)
    requires DispInv(c, d) && ActionOk(c, Push(i, tr)) && j < |d.inputs|
    ensures var e := Apply(c, d, Push(i, tr));
      && |e.inputs| == |d.inputs| && PortInv(c, PortAt(c, e, j))
      && Account(c, e, j) == Account(c, d, j) + if i == j then Split(tr, c.lanes) else []
  {
    var e := Apply(c, d, Push(i, tr));
    assert PortInv(c, PortAt(c, d, j));
    if i == j {
      PushOwes(c, PortAt(c, d, j), tr);
      assert PortAt(c, e, j) == PortAt(c, d, j).(q := d.inputs[j] + [tr]);
      Assoc(PktsOf(d.sent, j), Owed(c, PortAt(c, d, j)), Split(tr, c.lanes));
    } else {
      assert PortAt(c, e, j) == PortAt(c, d, j);
    }
  }

  lemma PushKeeps(c: Shape, d: Disp, i: nat, tr: Trace)
    requires DispInv(c, d) && ActionOk(c, Push(i, tr))
    ensures var e := Apply(c, d, Push(i, tr));
      && DispInv(c, e)
      && forall j | 0 <= j < |d.inputs| ::
           Account(c, e, j) == Account(c, d, j) + if i == j then Split(tr, c.lanes) else []
  {
    var e := Apply(c, d, Push(i, tr));
    forall j | 0 <= j < |d.inputs|
      ensures PortInv(c, PortAt(c, e, j)) && Account(c, e, j) == Account(c, d, j) + if i == j then Split(tr, c.lanes) else []
    {
      PushPort(c, d, i, tr, j);
    }
  }

  function Pushed(acts: seq<Action>, i: nat): seq<Trace> {
    if acts == [] then []
    else if acts[0].Push? && acts[0].i == i then [acts[0].tr] + Pushed(acts[1..], i)
    else Pushed(acts[1..], i)
  }

  function Run(c: Shape, d: Disp, acts: seq<Action>): (e: Disp)
    requires DispInv(c, d) && RunOk(c, acts)
    ensures DispInv(c, e)
    decreases |acts|
  {
    if acts == [] then d
    else
      ApplyKeepsInv(c, d, acts[0]);
      Run(c, Apply(c, d, acts[0]), acts[1..])
  }

  lemma ApplyKeepsInv(c: Shape, d: Disp, a: Action)
    requires DispInv(c, d) && ActionOk(c, a)
    ensures DispInv(c, Apply(c, d, a)) && |Apply(c, d, a).inputs| == |d.inputs|
  {
    match a
    case Push(i, tr) => PushKeeps(c, d, i, tr);
    case Clock(full) => TickKeeps(c, d, full);
  }

  function Added(a: Action, i: nat, lanes: nat): seq<Trace>
    requires lanes > 0
  {
    if a.Push? && a.i == i then Split(a.tr, lanes) else []
  }

  lemma ApplyAccount(c: Shape, d: Disp, a: Action, i: nat)
    requires DispInv(c, d) && ActionOk(c, a) && i < |d.inputs|
    ensures |Apply(c, d, a).inputs| == |d.inputs| && Account(c, Apply(c, d, a), i) == Account(c, d, i) + Added(a, i, c.lanes)
  {
    match a
    case Push(k, tr) => PushKeeps(c, d, k, tr);
    case Clock(full) => TickKeeps(c, d, full);
  }

  lemma PushedSplit(acts: seq<Action>, i: nat, lanes: nat)
    requires lanes > 0 && acts != []
    ensures SplitAll(Pushed(acts, i), lanes) == Added(acts[0], i, lanes) + SplitAll(Pushed(acts[1..], i), lanes)
  {
    var ps := Pushed(acts[1..], i);
    if acts[0].Push? && acts[0].i == i {
      assert ([acts[0].tr] + ps)[1..] == ps;
    }
  }

  /** Whatever the output back-pressure, the packets sent for an input so far, followed by those
      still owed, are the packets of its traces, in order. */
  lemma {:induction false} PacketsConserved(c: Shape, d: Disp, acts: seq<Action>, i: nat)
    requires DispInv(c, d) && RunOk(c, acts) && i < |d.inputs|
    ensures |Run(c, d, acts).inputs| == |d.inputs|
    ensures Account(c, Run(c, d, acts), i) == Account(c, d, i) + SplitAll(Pushed(acts, i), c.lanes)
    decreases |acts|
  {
    if acts != [] {
      ApplyKeepsInv(c, d, acts[0]);
      ApplyAccount(c, d, acts[0], i);
      PacketsConserved(c, Apply(c, d, acts[0]), acts[1..], i);
      PushedSplit(acts, i, c.lanes);
      Assoc(Account(c, d, i), Added(acts[0], i, c.lanes), SplitAll(Pushed(acts[1..], i), c.lanes));
    }
  }

  // ----- the object -----

  /** Counts the lane groups that have an active lane; an empty mask counts as one. */
  method CountPackets(m: Mask, lanes: nat) returns (n: nat)
    requires lanes > 0 && Whole(|m|, lanes)
    ensures n == NumPkts(m, lanes)
  {
    n := 0;
    var j := 0;
    ghost var g := 0;
    while j < |m|
      invariant j == FirstLane(g, lanes) && g <= GroupOf(|m|, lanes)
      invariant n + CountGroups(m, lanes, j) == CountGroups(m, lanes, 0)
    {
      FirstLaneMonotone(g + 1, GroupOf(|m|, lanes), lanes);
      var k := 0;
      while k < lanes && !m[j + k]
        invariant 0 <= k <= lanes
        invariant forall x | j <= x < j + k :: !m[x]
      {
        k := k + 1;
      }
      assert GroupActive(m, j, j + lanes) <==> k < lanes by {
        if k < lanes {
          assert m[j + k];
        }
      }
      if k < lanes {
        n := n + 1;
      }
      j, g := j + lanes, g + 1;
    }
    if n == 0 {
      n := 1;
    }
  }

  /** First active lane from `from` on and last active lane, or -1. */
  method FindRange(m: Mask, from: nat) returns (start: int, end: int)
    ensures start == NextLane(m, from)
    ensures start != -1 ==> end == LastLane(m, |m|)
  {
    start, end := -1, -1;
    var j := from;
    while j < |m|
      invariant from <= j
      invariant start == -1 ==> NextLane(m, from) == NextLane(m, j) && forall k | from <= k < j && k < |m| :: !m[k]
      invariant start != -1 ==> start == NextLane(m, from) && j <= |m| && end == LastLane(m, j)
    {
      if m[j] {
        if start == -1 {
          start := j;
        }
        end := j;
      }
      j := j + 1;
    }
  }

  /** The lanes of one group. */
  method LaneMask(m: Mask, lanes: nat, g: nat) returns (r: Mask)
    requires lanes > 0 && FirstLane(g, lanes) + lanes <= |m|
    ensures r == GroupMask(m, lanes, g)
  {
    r := seq(|m|, _ => false);
    var lo := FirstLane(g, lanes);
    for j := lo to lo + lanes
      invariant |r| == |m| && forall x | 0 <= x < |m| :: r[x] == (lo <= x < j && m[x])
    {
      r := r[j := m[j]];
    }
    forall x | 0 <= x < |m| ensures r[x] == GroupMask(m, lanes, g)[x] {
      GroupBounds(x, lanes, g);
    }
  }

  class DispatchUnit {
    const c: Shape
    var batchIdx: nat
    const blockPids: array<int>
    var inputs: seq<seq<Trace>>
    var sent: seq<Sent>

    ghost function View(): Disp
      reads this, blockPids
    {
      Disp(batchIdx, blockPids[..], inputs, sent)
    }

    ghost predicate Valid()
      reads this, blockPids
    {
      DispInv(c, View())
    }

    constructor (c: Shape)
      requires ShapeOk(c)
      ensures Valid() && fresh(blockPids) && this.c == c
      ensures View() == Disp(0, seq(c.blocks, _ => 0), seq(FirstLane(c.batches, c.blocks), _ => []), [])
    {
      this.c := c;
      batchIdx := 0;
      blockPids := new int[c.blocks](_ => 0);
      inputs := seq(FirstLane(c.batches, c.blocks), _ => []);
      sent := [];
      new;
      assert blockPids[..] == seq(c.blocks, _ => 0);
    }

    /** Visits one block; true when it is through with the batch. */
    method VisitBlock(b: nat, full: bool) returns (done: bool)
      requires Valid() && b < c.blocks
      modifies this`inputs, this`sent, blockPids
      ensures Valid() && View() == BlockStep(c, old(View()), b, full).0 && done == BlockStep(c, old(View()), b, full).1
    {
      ghost var d := View();
      BlockStepKeeps(c, d, b, full);
      InputInRange(c, batchIdx, b);
      var i := InputOf(c, batchIdx, b);
      assert PortInv(c, PortAt(c, d, i)) && PortAt(c, d, i) == Port(inputs[i], blockPids[b]);
      if inputs[i] == [] {
        return true;
      }
      if full {
        return false;
      }
      if c.threads != c.lanes && blockPids[b] == -1 {
        assert d.sent + Log(i, b, []) == d.sent;
        return true;
      }
      var q, pid, pkt;
      q, pid, pkt, done := NextPacket(inputs[i], blockPids[b]);
      assert Log(i, b, [pkt]) == [Sent(i, b, pkt)];
      blockPids[b] := pid;
      inputs := inputs[i := q];
      sent := sent + [Sent(i, b, pkt)];
    }

    /** The packet to send from the head of a queue, and the queue afterwards. */
    method NextPacket(q: seq<Trace>, pid: int) returns (q': seq<Trace>, pid': int, pkt: Trace, done: bool)
      requires ShapeOk(c) && PortInv(c, Port(q, pid)) && q != [] && (c.threads == c.lanes || pid >= 0)
      ensures ([pkt], Port(q', pid'), done) == PortStep(c, Port(q, pid))
    {
      var tr := q[0];
      if c.threads == c.lanes {
        return q[1..], pid, tr, true;
      }
      if pid == 0 {
        var n := CountPackets(tr.tmask, c.lanes);
        tr := tr.(numPkts := n);
      }
      SomeLane(tr.tmask);
      var start, end := FindRange(tr.tmask, FirstLane(pid, c.lanes));
      GroupFits(start, |tr.tmask|, c.lanes);
      GroupIsQuotient(start, c.lanes);
      GroupIsQuotient(end, c.lanes);
      var s, e := start / c.lanes, end / c.lanes;
      var mask := LaneMask(tr.tmask, c.lanes, s);
      pkt := tr.(tmask := mask, pid := s, sop := tr.sop && pid == 0, eop := tr.eop && s == e);
      if s != e {
        q', pid', done := [tr] + q[1..], s + 1, false;
      } else {
        q', pid', done := q[1..], -1, true;
      }
    }

    method OnTick(full: seq<bool>)
      requires Valid() && |full| == c.blocks
      modifies this, blockPids
      ensures Valid() && View() == Tick(c, old(View()), full)
    {
      ghost var d := View();
      TickKeeps(c, d, full);
      var blockSent := VisitAll(full);
      if blockSent == c.blocks {
        NextBatch();
      }
    }

    method VisitAll(full: seq<bool>) returns (blockSent: nat)
      requires Valid() && |full| == c.blocks
      modifies this`inputs, this`sent, blockPids
      ensures Valid() && (View(), blockSent) == Visit(c, old(View()), 0, full)
    {
      ghost var d := View();
      blockSent := 0;
      for b := 0 to c.blocks
        invariant Valid()
        invariant var (e, n) := Visit(c, d, 0, full); var (f, k) := Visit(c, View(), b, full); e == f && n == blockSent + k
      {
        var done := VisitBlock(b, full[b]);
        if done {
          blockSent := blockSent + 1;
        }
      }
    }

    method NextBatch()
      requires c.batches > 0 && blockPids.Length == c.blocks
      modifies this`batchIdx, blockPids
      ensures View() == old(View()).(batch := (old(batchIdx) + 1) % c.batches, pids := seq(c.blocks, _ => 0))
    {
      batchIdx := (batchIdx + 1) % c.batches;
      for b := 0 to c.blocks
        invariant batchIdx == (old(batchIdx) + 1) % c.batches
        invariant forall k | 0 <= k < b :: blockPids[k] == 0
      {
        blockPids[b] := 0;
      }
      assert blockPids[..] == seq(c.blocks, _ => 0);
    }
  }
}
