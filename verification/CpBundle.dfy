/** Exactly which commands do in a draw bundle what they do in the ring: hook calls, memory and
    whether the processor gets past them. */
module CpBundle {
  import opened CpModel
  import opened CpRuns
  import opened CpEffects
  import opened CpCopy

  /** A processor that has just loaded `c` from the ring. */
  ghost predicate AtRing(s: Sys, c: Cmd) {
    s.cp.eng == Decode && s.cp.launch == LIdle && s.cp.cur == c && CurKnown(s.cp)
  }

  /** Its next engine step, or two if it has to bid for a resource. */
  function RingStep(s: Sys, dev: Device): Sys {
    var t := TickEngine(s, dev);
    if t.cp.eng == Bid then TickEngine(t, dev) else t
  }

  /** A processor that is walking a bundle and about to load `c` from it. */
  ghost predicate AtStep(s: Sys, c: Cmd) {
    var d := s.cp.draw;
    s.cp.eng == DrawStep && s.cp.launch == LIdle && d.step < d.num && DrawCmdAt(s.mem, d.phys, d.step) == c
  }

  /** Ring and bundle have made the same hook calls and left the same memory, and neither is held up:
      the command is over, or the kernel it launched is about to start. */
  ghost predicate SameStep(r: Sys, b: Sys, c: Cmd) {
    && r.io == b.io && r.cp.launch == b.cp.launch && (forall a: nat :: At(r.mem, a) == At(b.mem, a))
    && r.cp.eng == (if IsLaunch(c) then WaitDone else Retire)
    && b.cp.eng == (if IsLaunch(c) then DrawLaunchWait else DrawStep)
  }

  /** Wherever the two meet `c` with the same memory and hook calls, they do the same. */
  ghost predicate BundleAgrees(c: Cmd) {
    forall dev: Device, r: Sys, b: Sys | AtRing(r, c) && AtStep(b, c) && r.mem == b.mem && r.io == b.io ::
      SameStep(RingStep(r, dev), TickEngine(b, dev), c)
  }

  /** A copy that leaves every byte where it is, whatever the translation. */
  predicate StillCopy(c: Cmd) {
    c.arg2 == 0 || (c.arg0 == c.arg1 && (Physical(c) || c.opcode == OP_MEM_COPY))
  }

  /** A wait that no counter value holds up: at least zero. */
  predicate FreeWait(c: Cmd) { c.arg2 % 4 == 1 && c.arg1 == 0 }

  predicate Bundled(c: Cmd) {
    && c.opcode != OP_DRAW && c.opcode != OP_EVENT_SIG
    && (c.opcode == OP_EVENT_WAIT ==> FreeWait(c))
    && (IsCopy(c) ==> StillCopy(c))
  }

  // ----- commands that agree -----

  lemma {:induction false} CopySelf(m: Memory, a: nat, total: nat, done: nat, x: nat)
    requires done <= total
    ensures At(CopyChunks(m, a, a, total, done), x) == At(m, x)
    decreases total - done
  {
    if done < total {
      var n, at := Min(total - done, CHUNK), (a + done) % U64;
      var m1 := WriteMem(m, at, ReadMem(m, at, n));
      CopySelf(m1, a, total, done + n, x);
      assert At(m1, x) == At(m, x);
    }
  }

  lemma StillCopyKeeps(dev: Device, m: Memory, c: Cmd, x: nat)
    requires IsCopy(c) && StillCopy(c)
    ensures At(ExecCopy(dev, m, c), x) == At(m, x)
  {
    if c.arg2 > 0 {
      CopySelf(m, CopyDst(dev, c), c.arg2, 0, x);
    }
  }

  lemma BundledAgrees(c: Cmd, dev: Device, r: Sys, b: Sys)
    requires Bundled(c) && AtRing(r, c) && AtStep(b, c) && r.mem == b.mem && r.io == b.io
    ensures SameStep(RingStep(r, dev), TickEngine(b, dev), c)
  {
    if IsCopy(c) {
      forall a: nat ensures At(ExecCopy(dev, r.mem, c), a) == At(r.mem, a) {
        StillCopyKeeps(dev, r.mem, c, a);
      }
    }
  }

  // ----- commands that do not -----

  function Zero(): Memory { (_: nat) => 0 }

  /** A descriptor place that is clear of eight bytes at `x` and at `y`. */
  function Spot(x: nat, y: nat): nat {
    if Clear(100, x) && Clear(100, y) then 100 else if Clear(200, x) && Clear(200, y) then 200 else 300
  }

  predicate Clear(spot: nat, x: nat) { x + 8 <= spot || spot + STEP_BYTES <= x }

  lemma SpotClear(x: nat, y: nat)
    ensures Clear(Spot(x, y), x) && Clear(Spot(x, y), y) && 100 <= Spot(x, y) <= 300
  {
  }

  /** Memory `m` with a one-step bundle of `c` whose step is at `spot`. */
  function WithStep(m: Memory, spot: nat, c: Cmd): Memory { WriteMem(m, spot, Encode(c)) }

  function Processor(eng: Eng, c: Cmd, phys: nat): Cp {
    Cp(1, Queue(0, 0, 0, 1, 0, 0, 0), eng, LIdle, c, IsLaunch(c), c.opcode == OP_NOP || c.opcode == OP_FENCE,
       Draw(phys, 1, 0), Line([], 0, 0, false))
  }

  function RingAt(m: Memory, c: Cmd): Sys { Sys(Processor(Decode, c, 0), 0, m, Io([], 0)) }

  function StepAt(m: Memory, c: Cmd, phys: nat): Sys { Sys(Processor(DrawStep, c, phys), 0, m, Io([], 0)) }

  lemma ReadBack(m: Memory, a: nat, bytes: seq<byte>)
    ensures ReadMem(WriteMem(m, a, bytes), a, |bytes|) == bytes
  {
    var b := ReadMem(WriteMem(m, a, bytes), a, |bytes|);
    forall i | 0 <= i < |bytes| ensures b[i] == bytes[i] {
      assert b[i] == At(WriteMem(m, a, bytes), a + i);
    }
  }

  lemma DecodeWhole(b: seq<byte>, c: Cmd)
    requires WellFormed(c) && b == Encode(c)
    ensures DecodeAt(b, 0) == c
  {
    assert b[0..0 + STEP_BYTES] == Encode(c)[..STEP_BYTES];
    DecodeEncoded(b, 0, c, STEP_BYTES);
  }

  lemma FirstStep(m: Memory, phys: nat)
    requires phys + 4 < U64
    ensures DrawCmdAt(m, phys, 0) == DecodeAt(ReadMem(m, phys + 4, STEP_BYTES), 0)
  {
  }

  lemma StepLoads(m: Memory, spot: nat, c: Cmd)
    requires WellFormed(c) && 100 <= spot <= 300
    ensures DrawCmdAt(WithStep(m, spot, c), spot - 4, 0) == c
  {
    var w := WithStep(m, spot, c);
    ReadBack(m, spot, Encode(c));
    DecodeWhole(ReadMem(w, spot, STEP_BYTES), c);
    FirstStep(w, spot - 4);
  }

  /** The two meet `c` over any memory with the bundle in it. */
  lemma Meet(m: Memory, spot: nat, c: Cmd)
    requires WellFormed(c) && 100 <= spot <= 300
    ensures var w := WithStep(m, spot, c); AtRing(RingAt(w, c), c) && AtStep(StepAt(w, c, spot - 4), c)
  {
    StepLoads(m, spot, c);
  }

  /** One meeting in which they differ is enough. */
  lemma Differ(c: Cmd, dev: Device, m: Memory, spot: nat)
    requires WellFormed(c) && 100 <= spot <= 300
    requires var w := WithStep(m, spot, c);
      !SameStep(RingStep(RingAt(w, c), dev), TickEngine(StepAt(w, c, spot - 4), dev), c)
    ensures !BundleAgrees(c)
  {
    Meet(m, spot, c);
  }

  lemma DrawDiffers(c: Cmd)
    requires WellFormed(c) && c.opcode == OP_DRAW
    ensures !BundleAgrees(c)
  {
    Differ(c, Device(_ => 0, _ => 0), Zero(), 100);
  }

  /** The ring's step over a memory that the command writes. */
  lemma RingWrites(w: Memory, c: Cmd, dev: Device)
    requires c.opcode == OP_EVENT_SIG || IsCopy(c)
    ensures RingStep(RingAt(w, c), dev).mem == BidMem(w, c, dev)
  {
  }

  lemma StepKeepsMemory(w: Memory, c: Cmd, phys: nat, dev: Device)
    ensures TickEngine(StepAt(w, c, phys), dev).mem == w
  {
  }

  /** Memories that differ in one byte tell the two apart. */
  lemma ByteDiffers(c: Cmd, dev: Device, m: Memory, spot: nat, x: nat)
    requires WellFormed(c) && 100 <= spot <= 300 && (c.opcode == OP_EVENT_SIG || IsCopy(c))
    requires var w := WithStep(m, spot, c); At(BidMem(w, c, dev), x) != At(w, x)
    ensures !BundleAgrees(c)
  {
    var w := WithStep(m, spot, c);
    RingWrites(w, c, dev);
    StepKeepsMemory(w, c, spot - 4, dev);
    Differ(c, dev, m, spot);
  }

  lemma SignalDiffers(c: Cmd)
    requires WellFormed(c) && c.opcode == OP_EVENT_SIG
    ensures !BundleAgrees(c)
  {
    var spot, dev := Spot(c.arg0, c.arg0), Device(_ => 0, _ => 0);
    SpotClear(c.arg0, c.arg0);
    var m := WriteMem(Zero(), c.arg0, [(c.arg1 + 1) % 256]);
    var w := WithStep(m, spot, c);
    assert At(w, c.arg0) == At(m, c.arg0) == (c.arg1 + 1) % 256;
    assert At(BidMem(w, c, dev), c.arg0) == Bytes(c.arg1, 8)[0] == c.arg1 % 256;
    ByteDiffers(c, dev, m, spot, c.arg0);
  }

  /** A counter value that does not satisfy the wait. */
  function Unsatisfied(c: Cmd): nat {
    match c.arg2 % 4
    case 0 => if c.arg1 == 0 then 1 else 0
    case 3 => c.arg1
    case _ => 0
  }

  lemma CounterAt(m: Memory, a: nat, v: nat, spot: nat, c: Cmd)
    requires v < U64 && Clear(spot, a)
    ensures Rd(ReadMem(WithStep(WriteMem(m, a, Bytes(v, 8)), spot, c), a, 8), 0, 8) == v
  {
    var w := WithStep(WriteMem(m, a, Bytes(v, 8)), spot, c);
    var b := ReadMem(w, a, 8);
    forall i | 0 <= i < 8 ensures b[i] == Bytes(v, 8)[i] {
      assert b[i] == At(w, a + i);
    }
    assert b[0..0 + 8] == b == Bytes(v, 8);
    Pow256Values();
    RdBytes(b, 0, v, 8);
  }

  lemma WaitDiffers(c: Cmd)
    requires WellFormed(c) && c.opcode == OP_EVENT_WAIT && !FreeWait(c)
    ensures !BundleAgrees(c)
  {
    var spot, dev, v := Spot(c.arg0, c.arg0), Device(_ => 0, _ => 0), Unsatisfied(c);
    SpotClear(c.arg0, c.arg0);
    var m := WriteMem(Zero(), c.arg0, Bytes(v, 8));
    CounterAt(Zero(), c.arg0, v, spot, c);
    assert !WaitSatisfied(WithStep(m, spot, c), c);
    Differ(c, dev, m, spot);
  }

  /** Later chunks do not come back to the first byte of the destination. */
  lemma {:induction false} FirstByteStays(m: Memory, dst: nat, src: nat, total: nat, done: nat)
    requires dst < U64 && total < U64 && 0 < done <= total
    ensures At(CopyChunks(m, dst, src, total, done), dst) == At(m, dst)
    decreases total - done
  {
    if done < total {
      var n, at := Min(total - done, CHUNK), (dst + done) % U64;
      assert at == (if dst + done < U64 then dst + done else dst + done - U64);
      var m1 := WriteMem(m, at, ReadMem(m, (src + done) % U64, n));
      FirstByteStays(m1, dst, src, total, done + n);
      assert At(m1, dst) == At(m, dst);
    }
  }

  lemma FirstByteMoves(m: Memory, dst: nat, src: nat, total: nat)
    requires dst < U64 && src < U64 && 0 < total < U64
    ensures At(CopyChunks(m, dst, src, total, 0), dst) == At(m, src)
  {
    var n := Min(total, CHUNK);
    assert dst % U64 == dst && src % U64 == src;
    var m1 := WriteMem(m, dst, ReadMem(m, src, n));
    assert At(m1, dst) == ReadMem(m, src, n)[0] == At(m, src);
    FirstByteStays(m1, dst, src, total, n);
  }

  /** A translation under which the two ends of a copy are apart. */
  function Apart(c: Cmd): Device {
    var other := if c.opcode == OP_MEM_WRITE then c.arg1 else c.arg0;
    Device(_ => 0, (x: nat) => if c.opcode == OP_MEM_COPY then x else if other == 0 then 1 else 0)
  }

  lemma CopyDiffers(c: Cmd)
    requires WellFormed(c) && IsCopy(c) && !StillCopy(c)
    ensures !BundleAgrees(c)
  {
    var dev := Apart(c);
    var dst, src := CopyDst(dev, c), CopySrc(dev, c);
    assert dst != src && dst < U64 && src < U64;
    var spot := Spot(dst, src);
    SpotClear(dst, src);
    var m := WriteMem(Zero(), src, [1]);
    var w := WithStep(m, spot, c);
    assert At(w, src) == At(m, src) == 1 && At(w, dst) == At(m, dst) == 0;
    FirstByteMoves(w, dst, src, c.arg2);
    ByteDiffers(c, dev, m, spot, dst);
  }

  /** A command does in a bundle what it does in the ring, over all devices, memories and hook
      logs, exactly when it is no draw, no signal, no wait that can hold up and no copy that can
      move a byte. */
  lemma BundleStepExact(c: Cmd)
    requires WellFormed(c)
    ensures BundleAgrees(c) <==> Bundled(c)
  {
    if Bundled(c) {
      forall dev: Device, r: Sys, b: Sys | AtRing(r, c) && AtStep(b, c) && r.mem == b.mem && r.io == b.io
        ensures SameStep(RingStep(r, dev), TickEngine(b, dev), c)
      {
        BundledAgrees(c, dev, r, b);
      }
    } else if c.opcode == OP_DRAW {
      DrawDiffers(c);
    } else if c.opcode == OP_EVENT_SIG {
      SignalDiffers(c);
    } else if c.opcode == OP_EVENT_WAIT {
      WaitDiffers(c);
    } else {
      CopyDiffers(c);
    }
  }

  lemma OneStep(m: Memory)
    requires At(m, 96) == 1 && At(m, 97) == At(m, 98) == At(m, 99) == 0
    ensures DrawCount(m, 96) == 1
  {
    var b := ReadMem(m, 96, 4);
    assert b[0] == At(m, 96) && b[1] == At(m, 97) && b[2] == At(m, 98) && b[3] == At(m, 99);
    assert Rd(b, 1, 3) == 0 by { assert Rd(b, 2, 2) == 0 by { assert Rd(b, 3, 1) == 0; } }
  }

  lemma OneEffect(dev: Device, m: Memory, c: Cmd, io: Io)
    ensures StepsEffect(dev, m, [c], io) == StepEffect(dev, m, c, io)
  {
    assert [c][..0] == [];
  }

  /** What the bundle then leaves undone for a nested draw: a draw from the ring may start a kernel,
      a nested one starts none. */
  lemma NestedDrawSkipped(c: Cmd)
    requires c.opcode == OP_DRAW
    ensures exists dev: Device, m: Memory, io: Io :: Effect(dev, m, c, io) != ExecInline(dev, m, c, io)
  {
    var dev, io := Device(_ => 0, _ => 0), Io([], 0);
    var launch := Cmd(OP_LAUNCH, 0, 0, 0, 0, 0);
    var m := WithStep(WriteMem(Zero(), 96, [1, 0, 0, 0]), 100, launch);
    dev := dev.(xlat := _ => 96);
    StepLoads(WriteMem(Zero(), 96, [1, 0, 0, 0]), 100, launch);
    OneStep(m);
    assert Bundle(m, 96) == [launch];
    OneEffect(dev, m, launch, io);
    assert Effect(dev, m, c, io).log == [Start];
    assert Effect(dev, m, c, io) != ExecInline(dev, m, c, io);
  }

  // ----- waits and copies -----

  /** A counter in memory satisfies a wait by comparison with the wait's value: equal, at least,
      above, or different. */
  lemma WaitCompares(m: Memory, c: Cmd, v: nat)
    requires v < U64 && ReadMem(m, c.arg0, 8) == Bytes(v, 8)
    ensures c.arg2 % 4 == 0 ==> (WaitSatisfied(m, c) <==> v == c.arg1)
    ensures c.arg2 % 4 == 1 ==> (WaitSatisfied(m, c) <==> v >= c.arg1)
    ensures c.arg2 % 4 == 2 ==> (WaitSatisfied(m, c) <==> v > c.arg1)
    ensures c.arg2 % 4 == 3 ==> (WaitSatisfied(m, c) <==> v != c.arg1)
  {
    var b := ReadMem(m, c.arg0, 8);
    assert b[0..0 + 8] == b;
    Pow256Values();
    RdBytes(b, 0, v, 8);
  }

  /** Where a copy comes from and goes to: a write goes to a translated address, a read comes from
      one, a copy within the device does both, and a physical transfer neither.  The bytes between
      move as a whole where the engine is a memmove, and the first one always. */
  lemma CopySides(dev: Device, m: Memory, c: Cmd, to: nat, from: nat)
    requires c.opcode in {OP_MEM_WRITE, OP_MEM_READ, OP_MEM_COPY} && 0 < c.arg2 < U64 && to < U64 && from < U64
    requires to == if c.opcode == OP_MEM_READ || c.flags / 4 % 2 == 1 then c.arg0 else dev.xlat(c.arg0)
    requires from == if c.opcode == OP_MEM_WRITE || c.flags / 4 % 2 == 1 then c.arg1 else dev.xlat(c.arg1)
    ensures At(BidMem(m, c, dev), to) == At(m, from)
    ensures to + c.arg2 <= U64 && from + c.arg2 <= U64 && Safe(to, from, c.arg2) ==> Moved(m, BidMem(m, c, dev), to, from, c.arg2)
  {
    FirstByteMoves(m, to, from, c.arg2);
    if to + c.arg2 <= U64 && from + c.arg2 <= U64 && Safe(to, from, c.arg2) {
      SafeCopyMoves(m, m, to, from, c.arg2, 0);
    }
  }

  /** An event signal stores its value at its address, and changes no other byte. */
  lemma SignalStores(dev: Device, m: Memory, c: Cmd)
    requires c.opcode == OP_EVENT_SIG && c.arg1 < U64
    ensures Rd(ReadMem(BidMem(m, c, dev), c.arg0, 8), 0, 8) == c.arg1
    ensures forall a: nat | !(c.arg0 <= a < c.arg0 + 8) :: At(BidMem(m, c, dev), a) == At(m, a)
  {
    var b := ReadMem(BidMem(m, c, dev), c.arg0, 8);
    assert b[0..0 + 8] == b == Bytes(c.arg1, 8);
    Pow256Values();
    RdBytes(b, 0, c.arg1, 8);
  }

  /** No other command from the ring changes memory. */
  lemma OthersLeaveMemory(dev: Device, m: Memory, c: Cmd)
    requires c.opcode !in {OP_MEM_WRITE, OP_MEM_READ, OP_MEM_COPY, OP_EVENT_SIG}
    ensures BidMem(m, c, dev) == m
  {
  }
}
