/** What the host sees of the processor in memory: the completion slot holds the number of retired
    commands, and lines are read from a circular buffer. */
module CpPublish {
  import opened Basics
  import opened CpModel
  import opened CpRuns
  import opened CpEffects

  /** The eight bytes of the completion slot. */
  ghost function SlotOf(q: Queue): iset<nat> { iset a: nat | InSlot(q, a) }

  predicate InSlot(q: Queue, a: nat) { q.cmplAddr <= a < q.cmplAddr + 8 }

  /** The count the host reads there. */
  function Published(m: Memory, q: Queue): nat { Rd(ReadMem(m, q.cmplAddr, 8), 0, 8) }

  lemma WrittenCount(m: Memory, a: nat, v: nat)
    requires v < U64
    ensures Rd(ReadMem(WriteMem(m, a, Bytes(v, 8)), a, 8), 0, 8) == v
  {
    var b := ReadMem(WriteMem(m, a, Bytes(v, 8)), a, 8);
    forall i | 0 <= i < 8 ensures b[i] == Bytes(v, 8)[i] {
      assert b[i] == At(WriteMem(m, a, Bytes(v, 8)), a + i);
    }
    assert b[0..0 + 8] == b == Bytes(v, 8);
    Pow256Values();
    RdBytes(b, 0, v, 8);
  }

  /** A tick that retires a command leaves in the completion slot the number of commands retired,
      this one included, and changes no other byte; without a slot it changes none. */
  lemma RetirePublishes(c: Cfg, dev: Device, busy: bool, stream: seq<seq<byte>>)
    requires RingInv(c.s.cp, c.h, stream) && LaunchInv(c.s.cp, c.s.io.log, c.h)
    requires Enabled(c.s.cp) && c.s.cp.eng == Retire
    ensures var d := StepCfg(c, Clock(busy), dev);
      && d.h.retired == c.h.retired + [c.s.cp.cur] && d.s.cp.q.cmplAddr == c.s.cp.q.cmplAddr
      && (c.s.cp.q.cmplAddr != 0 ==> Published(d.s.mem, c.s.cp.q) == |d.h.retired| % U64)
      && forall a: nat | c.s.cp.q.cmplAddr == 0 || a !in SlotOf(c.s.cp.q) :: At(d.s.mem, a) == At(c.s.mem, a)
  {
    RetireFrame(c, busy, dev);
    CountNext(|c.h.retired|);
    var q, v := c.s.cp.q, (c.s.cp.q.seqnum + 1) % U64;
    WrittenCount(c.s.mem, q.cmplAddr, v);
    WrittenOnly(c.s.mem, q, Bytes(v, 8));
  }

  lemma WrittenOnly(m: Memory, q: Queue, b: seq<byte>)
    requires |b| == 8
    ensures forall a: nat | a !in SlotOf(q) :: At(WriteMem(m, q.cmplAddr, b), a) == At(m, a)
  {
  }

  // ----- over runs -----

  /** Any other tick changes memory only as its ring command does. */
  lemma TickMemory(c: Cfg, dev: Device, busy: bool)
    requires !(Enabled(c.s.cp) && c.s.cp.eng == Retire)
    ensures var d := StepCfg(c, Clock(busy), dev);
      && d.h.retired == c.h.retired && d.s.cp.q.cmplAddr == c.s.cp.q.cmplAddr
      && (d.s.mem == c.s.mem || (c.s.cp.eng == Bid && d.s.mem == BidMem(c.s.mem, c.s.cp.cur, dev)))
  {
    if Enabled(c.s.cp) {
      TickFrame(c, busy, dev);
      LaunchFrame(TickEngine(c.s, dev), busy);
    }
  }

  /** The ring's own commands do not write to the slot. */
  ghost predicate StreamMisses(dev: Device, R: iset<nat>, stream: seq<seq<byte>>) {
    forall i, k | 0 <= i < |stream| && 0 <= k < |LineCmds(stream[i])| :: WritesMiss(dev, R, LineCmds(stream[i])[k])
  }

  /** Nor does the host. */
  ghost predicate HostLeaves(c: Cfg, acts: seq<Action>, dev: Device)
    decreases |acts|
  {
    acts != [] ==>
      && (acts[0].Host? ==> Agree(SlotOf(c.s.cp.q), acts[0].mem, c.s.mem))
      && HostLeaves(StepCfg(c, acts[0], dev), acts[1..], dev)
  }

  ghost predicate PublishInv(c: Cfg) {
    c.s.cp.q.cmplAddr != 0 ==> Published(c.s.mem, c.s.cp.q) == |c.h.retired| % U64
  }

  lemma PublishedAgrees(m: Memory, n: Memory, q: Queue)
    requires Agree(SlotOf(q), m, n)
    ensures Published(m, q) == Published(n, q)
  {
    assert Range(SlotOf(q), q.cmplAddr, 8);
    ReadAgrees(SlotOf(q), m, n, q.cmplAddr, 8);
  }

  lemma CurMisses(cp: Cp, h: History, dev: Device, R: iset<nat>, stream: seq<seq<byte>>)
    requires RingInv(cp, h, stream) && StreamMisses(dev, R, stream) && cp.eng != Idle
    ensures WritesMiss(dev, R, cp.cur)
  {
    assert cp.cur == LineCmds(stream[cp.q.head / LINE])[cp.cl.slot];
  }

  lemma TickPublishes(c: Cfg, dev: Device, busy: bool, stream: seq<seq<byte>>)
    requires RingInv(c.s.cp, c.h, stream) && LaunchInv(c.s.cp, c.s.io.log, c.h) && PublishInv(c)
    requires StreamMisses(dev, SlotOf(c.s.cp.q), stream)
    ensures var d := StepCfg(c, Clock(busy), dev); PublishInv(d) && d.s.cp.q.cmplAddr == c.s.cp.q.cmplAddr
  {
    if Enabled(c.s.cp) && c.s.cp.eng == Retire {
      RetirePublishes(c, dev, busy, stream);
    } else {
      TickMemory(c, dev, busy);
      var d, R := StepCfg(c, Clock(busy), dev), SlotOf(c.s.cp.q);
      if c.s.cp.eng == Bid {
        CurMisses(c.s.cp, c.h, dev, R, stream);
        BidAgrees(dev, R, c.s.mem, c.s.mem, c.s.cp.cur);
      }
      PublishedAgrees(d.s.mem, c.s.mem, c.s.cp.q);
    }
  }

  lemma HostPublishes(c: Cfg, a: Action, dev: Device)
    requires a.Host? && PublishInv(c) && Agree(SlotOf(c.s.cp.q), a.mem, c.s.mem)
    ensures PublishInv(StepCfg(c, a, dev)) && StepCfg(c, a, dev).s.cp.q.cmplAddr == c.s.cp.q.cmplAddr
  {
    PublishedAgrees(a.mem, c.s.mem, c.s.cp.q);
  }

  /** Ledgers and slot together. */
  ghost predicate SlotInv(c: Cfg, stream: seq<seq<byte>>) {
    RingInv(c.s.cp, c.h, stream) && LaunchInv(c.s.cp, c.s.io.log, c.h) && PublishInv(c)
  }

  lemma StepPublishes(c: Cfg, a: Action, dev: Device, stream: seq<seq<byte>>)
    requires SlotInv(c, stream) && Intact(c.s, stream) && StreamMisses(dev, SlotOf(c.s.cp.q), stream)
    requires HostOk(c, a) && (a.Host? ==> a.tail <= LINE * |stream| && Agree(SlotOf(c.s.cp.q), a.mem, c.s.mem))
    ensures SlotInv(StepCfg(c, a, dev), stream) && SlotOf(StepCfg(c, a, dev).s.cp.q) == SlotOf(c.s.cp.q)
  {
    if a.Clock? {
      TickPublishes(c, dev, a.busy, stream);
      TickKeepsRing(c, dev, a.busy, stream);
      TickKeepsLaunch(c, dev, a.busy);
    } else {
      HostPublishes(c, a, dev);
      HostKeepsRing(c, a, dev, stream);
      HostKeepsLaunch(c, a, dev);
    }
  }

  /** In every run in which nothing else writes there, the completion slot reads as the number of
      retired commands. */
  lemma {:induction false} SlotCountsRetired(c: Cfg, acts: seq<Action>, dev: Device, stream: seq<seq<byte>>)
    requires SlotInv(c, stream) && RunIntact(c, acts, dev, stream)
    requires HostLeaves(c, acts, dev) && StreamMisses(dev, SlotOf(c.s.cp.q), stream)
    ensures SlotInv(Run(c, acts, dev), stream)
    decreases |acts|
  {
    if acts != [] {
      StepPublishes(c, acts[0], dev, stream);
      SlotCountsRetired(StepCfg(c, acts[0], dev), acts[1..], dev, stream);
    }
  }

  // ----- the ring buffer -----

  /** Line after line, the ring is read upwards and from its start again. */
  lemma RingIsCircular(q: Queue, head: nat)
    requires q.ringBase + Pow2(q.ringLog2) <= U64
    ensures RingAddr(q, 0) == q.ringBase
    ensures q.ringBase <= RingAddr(q, head) < q.ringBase + Pow2(q.ringLog2)
    ensures RingAddr(q, head + 1)
      == if RingAddr(q, head) + 1 == q.ringBase + Pow2(q.ringLog2) then q.ringBase else RingAddr(q, head) + 1
  {
    var n, size := head % Pow2(q.ringLog2), Pow2(q.ringLog2);
    NextMod(head, size);
    SmallSum(q.ringBase, n, size);
    SmallSum(q.ringBase, (head + 1) % size, size);
    SmallSum(q.ringBase, 0, size);
    assert 0 % size == 0;
  }

  lemma SmallSum(base: nat, n: nat, size: nat)
    requires base + size <= U64 && n < size
    ensures (base + n) % U64 == base + n
  {
  }

  lemma NextMod(a: nat, n: nat)
    requires n > 0
    ensures a % n < n && (a + 1) % n == if a % n + 1 == n then 0 else a % n + 1
  {
    var q, r := a / n, a % n;
    Euclid(a, n);
    if r + 1 == n {
      MulAdd(q, 1, n);
      Quotient(a + 1, n, q + 1, 0);
    } else {
      Quotient(a + 1, n, q, r + 1);
    }
  }
}
