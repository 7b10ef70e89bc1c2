/** The hook calls of a run are those of an in-order reference, so a draw bundle does what the
    same commands do when they are streamed through the ring. */
module CpEffects {
  import opened CpModel
  import opened CpRuns

  // ----- the reference: what a command list means to the device -----

  /** Register write `k` of the kernel descriptor at `x`: an address word and a value word. */
  function DescriptorWrite(m: Memory, x: nat, k: nat): Hook {
    var at := (x + 4 + 8 * k) % U64;
    DcrWrite(Rd(ReadMem(m, at, 4), 0, 4) % 0x1000, Rd(ReadMem(m, at + 4, 4), 0, 4))
  }

  /** The calls a command makes: one write, one read, a read per core to be flushed, a start, or the
      register writes of a kernel descriptor, at most 64, and then a start. */
  function Calls(dev: Device, m: Memory, c: Cmd): seq<Hook> {
    if c.opcode == OP_DCR_WRITE then [DcrWrite(c.arg0 % 0x1000, c.arg1 % U32)]
    else if c.opcode == OP_DCR_READ then [DcrRead(c.arg0 % 0x1000, c.arg1 % U32)]
    else if c.opcode == OP_CACHE_FLUSH then seq(c.arg0 % U32, (k: nat) => DcrRead(0, k))
    else if c.opcode == OP_LAUNCH then [Start]
    else if c.opcode == OP_LAUNCH_QMD then
      var x := dev.xlat(c.arg0);
      var n := Rd(ReadMem(m, x, 4), 0, 4);
      seq(if n < 64 then n else 64, (k: nat) => DescriptorWrite(m, x, k)) + [Start]
    else []
  }

  /** Only a read latches a response: the device's answer to the calls up to it. */
  function StepEffect(dev: Device, m: Memory, c: Cmd, io: Io): Io {
    var log := io.log + Calls(dev, m, c);
    Io(log, if c.opcode == OP_DCR_READ then dev.rsp(log) else io.rsp)
  }

  function StepsEffect(dev: Device, m: Memory, cs: seq<Cmd>, io: Io): Io {
    if cs == [] then io
    else StepEffect(dev, m, cs[|cs| - 1], StepsEffect(dev, m, cs[..|cs| - 1], io))
  }

  function Bundle(m: Memory, phys: nat): seq<Cmd> {
    seq(DrawCount(m, phys), (k: nat) => DrawCmdAt(m, phys, k))
  }

  function Effect(dev: Device, m: Memory, c: Cmd, io: Io): Io {
    if c.opcode == OP_DRAW then StepsEffect(dev, m, Bundle(m, dev.xlat(c.arg0)), io)
    else StepEffect(dev, m, c, io)
  }

  function Effects(dev: Device, m: Memory, cs: seq<Cmd>, io: Io): Io {
    if cs == [] then io
    else Effect(dev, m, cs[|cs| - 1], Effects(dev, m, cs[..|cs| - 1], io))
  }

  // ----- the processor makes those calls -----

  lemma {:induction false} FlushListed(from: nat, n: nat)
    requires from <= n
    ensures FlushReads(from, n) == seq(n - from, (k: nat) => DcrRead(0, from + k))
    decreases n - from
  {
    if from < n {
      FlushListed(from + 1, n);
    }
  }

  /** A descriptor pair is read as one record of eight bytes. */
  lemma PairRead(m: Memory, at: nat)
    ensures Rd(ReadMem(m, at, 8), 0, 4) == Rd(ReadMem(m, at, 4), 0, 4)
    ensures Rd(ReadMem(m, at, 8), 4, 4) == Rd(ReadMem(m, at + 4, 4), 0, 4)
  {
    var b, lo, hi := ReadMem(m, at, 8), ReadMem(m, at, 4), ReadMem(m, at + 4, 4);
    assert b[0..4] == lo && b[4..8] == hi;
    RdSlice(b, 0, 4);
    RdSlice(b, 4, 4);
  }

  lemma {:induction false} RdShift(a: seq<byte>, i: nat, b: seq<byte>, j: nat, n: nat)
    requires i + n <= |a| && j + n <= |b| && a[i..i + n] == b[j..j + n]
    ensures Rd(a, i, n) == Rd(b, j, n)
    decreases n
  {
    if n > 0 {
      assert a[i] == a[i..i + n][0] && b[j] == b[j..j + n][0];
      assert a[i + 1..i + n] == a[i..i + n][1..] && b[j + 1..j + n] == b[j..j + n][1..];
      RdShift(a, i + 1, b, j + 1, n - 1);
    }
  }

  lemma RdSlice(b: seq<byte>, o: nat, n: nat)
    requires o + n <= |b|
    ensures Rd(b, o, n) == Rd(b[o..o + n], 0, n)
  {
    assert b[o..o + n][0..n] == b[o..o + n];
    RdShift(b, o, b[o..o + n], 0, n);
  }

  lemma {:induction false} QmdListed(m: Memory, x: nat, from: nat, n: nat)
    requires from <= n
    ensures QmdWrites(m, (x + 4 + 8 * from) % U64, n - from) == seq(n - from, (k: nat) => DescriptorWrite(m, x, from + k))
    decreases n - from
  {
    if from < n {
      var at := (x + 4 + 8 * from) % U64;
      PairRead(m, at);
      assert (at + 8) % U64 == (x + 4 + 8 * (from + 1)) % U64;
      QmdListed(m, x, from + 1, n);
      var rest := seq(n - from - 1, (k: nat) => DescriptorWrite(m, x, from + 1 + k));
      assert QmdWrites(m, at, n - from) == [DescriptorWrite(m, x, from)] + rest;
      assert seq(n - from, (k: nat) => DescriptorWrite(m, x, from + k)) == [DescriptorWrite(m, x, from)] + rest;
    }
  }

  /** Executing a command inline makes its calls; a launch has its start left to the launch FSM. */
  lemma InlineCalls(dev: Device, m: Memory, c: Cmd, io: Io)
    ensures var x := ExecInline(dev, m, c, io);
      StepEffect(dev, m, c, io) == if IsLaunch(c) then x.(log := x.log + [Start]) else x
  {
    if c.opcode == OP_CACHE_FLUSH {
      FlushListed(0, c.arg0 % U32);
      assert FlushReads(0, c.arg0 % U32) == Calls(dev, m, c);
    } else if c.opcode == OP_LAUNCH_QMD {
      var x := dev.xlat(c.arg0);
      var n := QmdCount(m, x);
      QmdListed(m, x, 0, n);
      assert QmdWrites(m, (x + 4) % U64, n) == seq(n, (k: nat) => DescriptorWrite(m, x, k));
      assert io.log + Calls(dev, m, c) == io.log + QmdWrites(m, (x + 4) % U64, n) + [Start];
    } else {
      assert io.log + [] == io.log;
    }
  }

  /** From the ring the calls are the same. */
  lemma BidCalls(dev: Device, m: Memory, c: Cmd, io: Io)
    requires !IsLaunch(c) && c.opcode != OP_DRAW
    ensures BidIo(io, c, dev) == StepEffect(dev, m, c, io)
  {
    InlineCalls(dev, m, c, io);
  }

  /** A kernel descriptor as the driver lays it out: a count, then address and value words. */
  ghost predicate KernelDescriptor(m: Memory, x: nat, pairs: seq<(nat, nat)>) {
    && |pairs| < U32 && ReadMem(m, x, 4) == Bytes(|pairs|, 4)
    && forall k: nat | k < |pairs| ::
         && pairs[k].0 < U32 && pairs[k].1 < U32
         && ReadMem(m, (x + 4 + 8 * k) % U64, 8) == Bytes(pairs[k].0, 4) + Bytes(pairs[k].1, 4)
  }

  lemma PairListed(m: Memory, x: nat, k: nat, addr: nat, value: nat)
    requires addr < U32 && value < U32
    requires ReadMem(m, (x + 4 + 8 * k) % U64, 8) == Bytes(addr, 4) + Bytes(value, 4)
    ensures DescriptorWrite(m, x, k) == DcrWrite(addr % 0x1000, value)
  {
    var at := (x + 4 + 8 * k) % U64;
    var b := ReadMem(m, at, 8);
    Pow256Values();
    PairRead(m, at);
    assert b[0..0 + 4] == Bytes(addr, 4) && b[4..4 + 4] == Bytes(value, 4);
    RdBytes(b, 0, addr, 4);
    RdBytes(b, 4, value, 4);
  }

  /** Launching such a descriptor writes its first 64 registers in order and pulses start. */
  lemma LaunchWrites(dev: Device, m: Memory, c: Cmd, io: Io, pairs: seq<(nat, nat)>)
    requires c.opcode == OP_LAUNCH_QMD && KernelDescriptor(m, dev.xlat(c.arg0), pairs)
    ensures StepEffect(dev, m, c, io).rsp == io.rsp
    ensures var n := if |pairs| < 64 then |pairs| else 64;
      StepEffect(dev, m, c, io).log
      == io.log + seq(n, (k: nat) requires k < n => DcrWrite(pairs[k].0 % 0x1000, pairs[k].1)) + [Start]
  {
    var x, n := dev.xlat(c.arg0), if |pairs| < 64 then |pairs| else 64;
    Pow256Values();
    var b := ReadMem(m, x, 4);
    assert b[0..0 + 4] == b;
    RdBytes(b, 0, |pairs|, 4);
    forall k: nat | k < n ensures DescriptorWrite(m, x, k) == DcrWrite(pairs[k].0 % 0x1000, pairs[k].1) {
      PairListed(m, x, k, pairs[k].0, pairs[k].1);
    }
    var ws := seq(n, (k: nat) requires k < n => DcrWrite(pairs[k].0 % 0x1000, pairs[k].1));
    assert seq(n, (k: nat) => DescriptorWrite(m, x, k)) == ws;
    assert io.log + (ws + [Start]) == io.log + ws + [Start];
  }

  // ----- resident descriptors -----

  ghost predicate Range(R: iset<nat>, a: nat, n: nat) { forall i: nat | a <= i < a + n :: i in R }

  ghost predicate QmdIn(R: iset<nat>, a: nat, n: nat)
    decreases n
  {
    n > 0 ==> Range(R, a, 8) && QmdIn(R, (a + 8) % U64, n - 1)
  }

  ghost predicate StepResident(dev: Device, rom: Memory, R: iset<nat>, c: Cmd) {
    c.opcode == OP_LAUNCH_QMD ==>
      var x := dev.xlat(c.arg0);
      Range(R, x, 4) && QmdIn(R, (x + 4) % U64, QmdCount(rom, x))
  }

  ghost predicate BundleResident(dev: Device, rom: Memory, R: iset<nat>, phys: nat) {
    && Range(R, phys, 4)
    && forall k: nat | k < DrawCount(rom, phys) ::
         Range(R, (phys + 4 + k * STEP_BYTES) % U64, STEP_BYTES) && StepResident(dev, rom, R, DrawCmdAt(rom, phys, k))
  }

  ghost predicate Misses(R: iset<nat>, a: nat, n: nat) { forall i: nat | a <= i < a + n :: i !in R }

  /** No chunk of a copy from `done` on touches `R`. */
  ghost predicate CopyMisses(R: iset<nat>, dst: nat, total: nat, done: nat)
    requires done <= total
    decreases total - done
  {
    done < total ==>
      var n := Min(total - done, CHUNK);
      Misses(R, (dst + done) % U64, n) && CopyMisses(R, dst, total, done + n)
  }

  /** What `c` writes from the ring stays clear of `R`. */
  ghost predicate WritesMiss(dev: Device, R: iset<nat>, c: Cmd) {
    && (c.opcode == OP_EVENT_SIG ==> Misses(R, c.arg0, 8))
    && (IsCopy(c) ==> CopyMisses(R, CopyDst(dev, c), c.arg2, 0))
  }

  /** The descriptors `c` points at lie in `R`, and `c` does not write there. */
  ghost predicate Resident(dev: Device, rom: Memory, R: iset<nat>, c: Cmd) {
    && WritesMiss(dev, R, c)
    && StepResident(dev, rom, R, c)
    && (c.opcode == OP_DRAW ==> BundleResident(dev, rom, R, dev.xlat(c.arg0)))
  }

  ghost predicate Agree(R: iset<nat>, m: Memory, rom: Memory) { forall a: nat | a in R :: At(m, a) == At(rom, a) }

  lemma ReadAgrees(R: iset<nat>, m: Memory, rom: Memory, a: nat, n: nat)
    requires Agree(R, m, rom) && Range(R, a, n)
    ensures ReadMem(m, a, n) == ReadMem(rom, a, n)
  {
    var x, y := ReadMem(m, a, n), ReadMem(rom, a, n);
    forall i | 0 <= i < n ensures x[i] == y[i] {
      assert x[i] == At(m, a + i) && y[i] == At(rom, a + i);
    }
  }

  lemma {:induction false} QmdAgrees(R: iset<nat>, m: Memory, rom: Memory, a: nat, n: nat)
    requires Agree(R, m, rom) && QmdIn(R, a, n)
    ensures QmdWrites(m, a, n) == QmdWrites(rom, a, n)
    decreases n
  {
    if n > 0 {
      ReadAgrees(R, m, rom, a, 8);
      QmdAgrees(R, m, rom, (a + 8) % U64, n - 1);
    }
  }

  lemma ExecAgrees(dev: Device, R: iset<nat>, m: Memory, rom: Memory, c: Cmd, io: Io)
    requires Agree(R, m, rom) && StepResident(dev, rom, R, c)
    ensures ExecInline(dev, m, c, io) == ExecInline(dev, rom, c, io)
    ensures c.opcode == OP_LAUNCH_QMD ==> ApplyQmd(dev, m, c.arg0, io) == ApplyQmd(dev, rom, c.arg0, io)
  {
    if c.opcode == OP_LAUNCH_QMD {
      var x := dev.xlat(c.arg0);
      ReadAgrees(R, m, rom, x, 4);
      QmdAgrees(R, m, rom, (x + 4) % U64, QmdCount(rom, x));
    }
  }

  lemma WriteAgrees(R: iset<nat>, m: Memory, rom: Memory, a: nat, bytes: seq<byte>)
    requires Agree(R, m, rom) && Misses(R, a, |bytes|)
    ensures Agree(R, WriteMem(m, a, bytes), rom)
  {
    forall x: nat | x in R ensures At(WriteMem(m, a, bytes), x) == At(rom, x) {
      assert At(WriteMem(m, a, bytes), x) == At(m, x);
    }
  }

  lemma {:induction false} CopyAgrees(R: iset<nat>, m: Memory, rom: Memory, dst: nat, src: nat, total: nat, done: nat)
    requires done <= total && Agree(R, m, rom) && CopyMisses(R, dst, total, done)
    ensures Agree(R, CopyChunks(m, dst, src, total, done), rom)
    decreases total - done
  {
    if done < total {
      var n := Min(total - done, CHUNK);
      var bytes := ReadMem(m, (src + done) % U64, n);
      WriteAgrees(R, m, rom, (dst + done) % U64, bytes);
      CopyAgrees(R, WriteMem(m, (dst + done) % U64, bytes), rom, dst, src, total, done + n);
    }
  }

  /** A command executed from the ring leaves the descriptors as they are. */
  lemma BidAgrees(dev: Device, R: iset<nat>, m: Memory, rom: Memory, c: Cmd)
    requires Agree(R, m, rom) && WritesMiss(dev, R, c)
    ensures Agree(R, BidMem(m, c, dev), rom)
  {
    if c.opcode == OP_EVENT_SIG {
      WriteAgrees(R, m, rom, c.arg0, Bytes(c.arg1, 8));
    } else if IsCopy(c) {
      CopyAgrees(R, m, rom, CopyDst(dev, c), CopySrc(dev, c), c.arg2, 0);
    }
  }

  // ----- every run follows the reference -----

  /** How far the hook calls have got after `base`, the effect of the retired commands. */
  ghost predicate Progress(cp: Cp, io: Io, dev: Device, rom: Memory, base: Io) {
    match cp.eng
    case Idle => io == base
    case Decode => io == base
    case Bid => io == base && !cp.curIsNoRes
    case WaitDone => io == Effect(dev, rom, cp.cur, base)
    case Retire => io == Effect(dev, rom, cp.cur, base)
    case DrawStep => BundleAt(cp, dev, rom, cp.draw.step) && io == BundleEffect(dev, rom, cp.draw.phys, cp.draw.step, base)
    case DrawLaunchWait =>
      BundleAt(cp, dev, rom, cp.draw.step + 1) && io == BundleEffect(dev, rom, cp.draw.phys, cp.draw.step + 1, base)
  }

  ghost predicate BundleAt(cp: Cp, dev: Device, rom: Memory, k: nat) {
    && cp.cur.opcode == OP_DRAW && cp.draw.phys == dev.xlat(cp.cur.arg0)
    && cp.draw.num == DrawCount(rom, cp.draw.phys) && k <= cp.draw.num
  }

  /** Effect of the first `k` steps of a bundle. */
  ghost function BundleEffect(dev: Device, rom: Memory, phys: nat, k: nat, base: Io): Io
    requires k <= DrawCount(rom, phys)
  {
    StepsEffect(dev, rom, Bundle(rom, phys)[..k], base)
  }

  lemma BundleGrows(dev: Device, rom: Memory, phys: nat, k: nat, base: Io)
    requires k < DrawCount(rom, phys)
    ensures BundleEffect(dev, rom, phys, k + 1, base)
         == StepEffect(dev, rom, DrawCmdAt(rom, phys, k), BundleEffect(dev, rom, phys, k, base))
  {
    var steps := Bundle(rom, phys);
    assert steps[..k + 1][..k] == steps[..k];
  }

  ghost predicate CurOk(cp: Cp, dev: Device, rom: Memory, R: iset<nat>) {
    cp.eng != Idle ==>
      && cp.curIsLaunch == IsLaunch(cp.cur)
      && cp.curIsNoRes == (cp.cur.opcode == OP_NOP || cp.cur.opcode == OP_FENCE)
      && Resident(dev, rom, R, cp.cur)
  }

  lemma BidFollows(s: Sys, busy: bool, dev: Device, rom: Memory, R: iset<nat>, base: Io)
    requires s.cp.eng == Bid && Progress(s.cp, s.io, dev, rom, base) && s.cp.launch == LIdle
    requires CurOk(s.cp, dev, rom, R) && Agree(R, s.mem, rom)
    ensures var t := TickLaunch(BidTick(s, dev), busy); Progress(t.cp, t.io, dev, rom, base) && Agree(R, t.mem, rom)
  {
    var c := s.cp.cur;
    BidAgrees(dev, R, s.mem, rom, c);
    InlineCalls(dev, rom, c, base);
    ExecAgrees(dev, R, s.mem, rom, c, s.io);
    if c.opcode == OP_DRAW {
      ReadAgrees(R, s.mem, rom, dev.xlat(c.arg0), 4);
    }
  }

  /** A bundle step read from memory, run inline and pulsed if it launches, is one reference step. */
  lemma StepFollows(cp: Cp, m: Memory, dev: Device, rom: Memory, R: iset<nat>, base: Io)
    requires BundleAt(cp, dev, rom, cp.draw.step + 1) && CurOk(cp, dev, rom, R) && cp.eng == DrawStep && Agree(R, m, rom)
    ensures var d := cp.draw; var c := DrawCmdAt(m, d.phys, d.step);
      && c == DrawCmdAt(rom, d.phys, d.step)
      && ExecInline(dev, m, c, BundleEffect(dev, rom, d.phys, d.step, base))
         == ExecInline(dev, rom, c, BundleEffect(dev, rom, d.phys, d.step, base))
  {
    var d := cp.draw;
    var c := DrawCmdAt(rom, d.phys, d.step);
    assert StepResident(dev, rom, R, c);
    ReadAgrees(R, m, rom, (d.phys + 4 + d.step * STEP_BYTES) % U64, STEP_BYTES);
    ExecAgrees(dev, R, m, rom, c, BundleEffect(dev, rom, d.phys, d.step, base));
  }

  lemma DrawFollows(s: Sys, busy: bool, dev: Device, rom: Memory, R: iset<nat>, base: Io)
    requires s.cp.eng == DrawStep && Progress(s.cp, s.io, dev, rom, base) && s.cp.launch == LIdle
    requires CurOk(s.cp, dev, rom, R) && Agree(R, s.mem, rom)
    ensures var t := TickLaunch(DrawTick(s, dev), busy); Progress(t.cp, t.io, dev, rom, base) && Agree(R, t.mem, rom)
  {
    var d := s.cp.draw;
    if d.step < d.num {
      StepFollows(s.cp, s.mem, dev, rom, R, base);
      BundleGrows(dev, rom, d.phys, d.step, base);
      InlineCalls(dev, rom, DrawCmdAt(rom, d.phys, d.step), BundleEffect(dev, rom, d.phys, d.step, base));
    } else {
      assert Bundle(rom, d.phys)[..d.step] == Bundle(rom, d.phys);
    }
  }

  /** One tick that does not retire moves along the reference. */
  lemma EngineFollows(s: Sys, busy: bool, dev: Device, rom: Memory, R: iset<nat>, base: Io)
    requires s.cp.eng != Retire && Progress(s.cp, s.io, dev, rom, base) && CurOk(s.cp, dev, rom, R) && Agree(R, s.mem, rom)
    requires s.cp.launch != PulseStart && (s.cp.launch != LIdle ==> s.cp.eng in {WaitDone, DrawLaunchWait})
    ensures var t := TickLaunch(TickEngine(s, dev), busy); Progress(t.cp, t.io, dev, rom, base) && Agree(R, t.mem, rom)
  {
    if s.cp.eng == Bid {
      BidFollows(s, busy, dev, rom, R, base);
    } else if s.cp.eng == DrawStep {
      DrawFollows(s, busy, dev, rom, R, base);
    }
  }

  ghost predicate EffectInv(c: Cfg, dev: Device, rom: Memory, R: iset<nat>, io0: Io) {
    && Progress(c.s.cp, c.s.io, dev, rom, Effects(dev, rom, c.h.retired, io0))
    && Agree(R, c.s.mem, rom)
    && forall i | c.s.cp.q.cmplAddr <= i < c.s.cp.q.cmplAddr + 8 :: i !in R
  }

  lemma RetireFollows(c: Cfg, dev: Device, rom: Memory, R: iset<nat>, io0: Io)
    requires EffectInv(c, dev, rom, R, io0) && c.s.cp.eng == Retire
    ensures EffectInv(Cfg(RetireTick(c.s), c.h.(retired := c.h.retired + [c.s.cp.cur])), dev, rom, R, io0)
  {
    assert (c.h.retired + [c.s.cp.cur])[..|c.h.retired|] == c.h.retired;
  }

  /** A tick that does not retire leaves the retired commands and the completion address alone. */
  lemma TickFrame(c: Cfg, busy: bool, dev: Device)
    requires Enabled(c.s.cp) && c.s.cp.eng != Retire
    ensures var d, t := StepCfg(c, Clock(busy), dev), TickLaunch(TickEngine(c.s, dev), busy);
      && d.h.retired == c.h.retired && d.s == t.(cycle := d.s.cycle) && d.s.cp.q.cmplAddr == c.s.cp.q.cmplAddr
  {
    ObserveParts(c, dev, busy);
    LaunchFrame(TickEngine(c.s, dev), busy);
  }

  lemma RetireFrame(c: Cfg, busy: bool, dev: Device)
    requires Enabled(c.s.cp) && c.s.cp.eng == Retire && c.s.cp.launch == LIdle
    ensures var d := StepCfg(c, Clock(busy), dev);
      && d.h.retired == c.h.retired + [c.s.cp.cur] && d.s == RetireTick(c.s).(cycle := d.s.cycle)
  {
    ObserveParts(c, dev, busy);
  }

  lemma TickFollows(c: Cfg, busy: bool, dev: Device, rom: Memory, R: iset<nat>, io0: Io)
    requires EffectInv(c, dev, rom, R, io0) && CurOk(c.s.cp, dev, rom, R) && LaunchInv(c.s.cp, c.s.io.log, c.h)
    ensures EffectInv(StepCfg(c, Clock(busy), dev), dev, rom, R, io0)
  {
    if Enabled(c.s.cp) {
      if c.s.cp.eng == Retire {
        RetireFrame(c, busy, dev);
        RetireFollows(c, dev, rom, R, io0);
      } else {
        TickFrame(c, busy, dev);
        EngineFollows(c.s, busy, dev, rom, R, Effects(dev, rom, c.h.retired, io0));
      }
    }
  }

  /** All invariants of a run whose descriptors are resident. */
  ghost predicate RunInv(c: Cfg, dev: Device, rom: Memory, R: iset<nat>, io0: Io, stream: seq<seq<byte>>) {
    && RingInv(c.s.cp, c.h, stream) && LaunchInv(c.s.cp, c.s.io.log, c.h) && EffectInv(c, dev, rom, R, io0)
  }

  ghost predicate StreamResident(dev: Device, rom: Memory, R: iset<nat>, stream: seq<seq<byte>>) {
    forall i, k | 0 <= i < |stream| && 0 <= k < |LineCmds(stream[i])| :: Resident(dev, rom, R, LineCmds(stream[i])[k])
  }

  ghost predicate HostKeeps(acts: seq<Action>, rom: Memory, R: iset<nat>) {
    forall k | 0 <= k < |acts| :: acts[k].Host? ==> Agree(R, acts[k].mem, rom)
  }

  lemma CurResident(cp: Cp, h: History, dev: Device, rom: Memory, R: iset<nat>, stream: seq<seq<byte>>)
    requires RingInv(cp, h, stream) && StreamResident(dev, rom, R, stream)
    ensures CurOk(cp, dev, rom, R)
  {
    if cp.eng != Idle {
      assert cp.cl.buf == stream[cp.q.head / LINE];
      assert cp.cur == LineCmds(stream[cp.q.head / LINE])[cp.cl.slot];
    }
  }

  /** A host action moves the tail and changes memory outside the descriptors. */
  lemma HostFollows(c: Cfg, a: Action, dev: Device, rom: Memory, R: iset<nat>, io0: Io)
    requires EffectInv(c, dev, rom, R, io0) && a.Host? && Agree(R, a.mem, rom)
    ensures EffectInv(StepCfg(c, a, dev), dev, rom, R, io0)
  {
    var d := StepCfg(c, a, dev);
    assert Progress(d.s.cp, d.s.io, dev, rom, Effects(dev, rom, c.h.retired, io0));
  }

  lemma StepKeepsRun(c: Cfg, a: Action, dev: Device, rom: Memory, R: iset<nat>, io0: Io, stream: seq<seq<byte>>)
    requires RunInv(c, dev, rom, R, io0, stream) && StreamResident(dev, rom, R, stream)
    requires Intact(c.s, stream) && Intact(StepCfg(c, a, dev).s, stream) && HostOk(c, a)
    requires a.Host? ==> Agree(R, a.mem, rom)
    ensures RunInv(StepCfg(c, a, dev), dev, rom, R, io0, stream)
  {
    if a.Clock? {
      CurResident(c.s.cp, c.h, dev, rom, R, stream);
      TickKeepsRing(c, dev, a.busy, stream);
      TickKeepsLaunch(c, dev, a.busy);
      TickFollows(c, a.busy, dev, rom, R, io0);
    } else {
      HostFollows(c, a, dev, rom, R, io0);
      HostKeepsRing(c, a, dev, stream);
      HostKeepsLaunch(c, a, dev);
    }
  }

  /** In every run the hook calls and the latched response follow the in-order reference. */
  lemma {:induction false} RunFollowsReference(c: Cfg, acts: seq<Action>, dev: Device, rom: Memory, R: iset<nat>, io0: Io,
                                               stream: seq<seq<byte>>)
    requires RunInv(c, dev, rom, R, io0, stream) && RunIntact(c, acts, dev, stream)
    requires StreamResident(dev, rom, R, stream) && HostKeeps(acts, rom, R)
    ensures RunInv(Run(c, acts, dev), dev, rom, R, io0, stream)
    decreases |acts|
  {
    if acts != [] {
      StepKeepsRun(c, acts[0], dev, rom, R, io0, stream);
      RunFollowsReference(StepCfg(c, acts[0], dev), acts[1..], dev, rom, R, io0, stream);
    }
  }

  // ----- the wire format -----

  ghost predicate WellFormed(c: Cmd) { c.reserved < 0x1_0000 && c.arg0 < U64 && c.arg1 < U64 && c.arg2 < U64 }

  function Encode(c: Cmd): (b: seq<byte>)
    ensures |b| == STEP_BYTES
  {
    [c.opcode, c.flags] + Bytes(c.reserved, 2) + Bytes(c.arg0, 8) + Bytes(c.arg1, 8) + Bytes(c.arg2, 8)
  }

  function Pow256(n: nat): nat { if n == 0 then 1 else 256 * Pow256(n - 1) }

  lemma {:induction false} RdBytes(buf: seq<byte>, o: nat, v: nat, n: nat)
    requires o + n <= |buf| && buf[o..o + n] == Bytes(v, n) && v < Pow256(n)
    ensures Rd(buf, o, n) == v
    decreases n
  {
    if n > 0 {
      assert buf[o] == buf[o..o + n][0];
      assert buf[o + 1..o + n] == buf[o..o + n][1..];
      RdBytes(buf, o + 1, v / 256, n - 1);
    }
  }

  lemma Pow256Values()
    ensures Pow256(2) == 0x1_0000 && Pow256(4) == U32 && Pow256(8) == U64
  {
    assert Pow256(4) == U32;
    assert Pow256(6) == U32 * 0x1_0000;
  }

  /** Two commands that agree on the bytes their opcode uses. */
  ghost predicate SameMeaning(a: Cmd, b: Cmd) {
    && a.opcode == b.opcode && a.flags == b.flags
    && (SizeOf(a.opcode) >= 12 ==> a.arg0 == b.arg0)
    && (SizeOf(a.opcode) >= 20 ==> a.arg1 == b.arg1)
    && (SizeOf(a.opcode) >= 28 ==> a.arg2 == b.arg2)
  }

  /** A field of `e` read back from a buffer that holds the first `n` bytes of `e` at `off`. */
  lemma FieldRead(buf: seq<byte>, off: nat, e: seq<byte>, n: nat, i: nat, w: nat, v: nat)
    requires off + n <= |buf| && n <= |e| && buf[off..off + n] == e[..n]
    requires i + w <= n && e[i..i + w] == Bytes(v, w) && v < Pow256(w)
    ensures Rd(buf, off + i, w) == v
  {
    var p, f := buf[off..off + n], buf[off + i..off + i + w];
    assert p[i..i + w] == e[i..i + w];
    forall k | 0 <= k < w ensures f[k] == p[i..i + w][k] {
    }
    assert f == p[i..i + w];
    RdBytes(buf, off + i, v, w);
  }

  lemma Fields(c: Cmd)
    ensures var e := Encode(c);
      && e[0] == c.opcode && e[1] == c.flags && e[2..4] == Bytes(c.reserved, 2) && e[4..12] == Bytes(c.arg0, 8)
      && e[12..20] == Bytes(c.arg1, 8) && e[20..28] == Bytes(c.arg2, 8)
  {
  }

  /** An argument, read back from a buffer that holds it. */
  lemma ArgRead(buf: seq<byte>, off: nat, e: seq<byte>, n: nat, i: nat, v: nat)
    requires off + n <= |buf| && n <= |e| && buf[off..off + n] == e[..n]
    requires i + 8 <= n && e[i..i + 8] == Bytes(v, 8) && v < U64
    ensures Rd(buf, off + i, 8) == v
  {
    Pow256Values();
    FieldRead(buf, off, e, n, i, 8, v);
  }

  lemma HeaderRead(buf: seq<byte>, off: nat, e: seq<byte>, n: nat, c: Cmd)
    requires off + n <= |buf| && 4 <= n <= |e| && buf[off..off + n] == e[..n]
    requires e[0] == c.opcode && e[1] == c.flags && e[2..4] == Bytes(c.reserved, 2) && c.reserved < 0x1_0000
    ensures Rd8(buf, off) == c.opcode && Rd8(buf, off + 1) == c.flags && Rd(buf, off + 2, 2) == c.reserved
  {
    Pow256Values();
    assert buf[off] == buf[off..off + n][0] && buf[off + 1] == buf[off..off + n][1];
    FieldRead(buf, off, e, n, 2, 2, c.reserved);
  }

  lemma FieldsRead(buf: seq<byte>, off: nat, e: seq<byte>, n: nat, c: Cmd)
    requires WellFormed(c) && off + n <= |buf| && 4 <= n <= |e| == STEP_BYTES && buf[off..off + n] == e[..n]
    requires e[0] == c.opcode && e[1] == c.flags && e[2..4] == Bytes(c.reserved, 2) && e[4..12] == Bytes(c.arg0, 8)
    requires e[12..20] == Bytes(c.arg1, 8) && e[20..28] == Bytes(c.arg2, 8)
    ensures Rd8(buf, off) == c.opcode && Rd8(buf, off + 1) == c.flags && Rd(buf, off + 2, 2) == c.reserved
    ensures (n >= 12 ==> Rd(buf, off + 4, 8) == c.arg0) && (n >= 20 ==> Rd(buf, off + 12, 8) == c.arg1)
    ensures n >= 28 ==> Rd(buf, off + 20, 8) == c.arg2
  {
    HeaderRead(buf, off, e, n, c);
    if n >= 12 {
      ArgRead(buf, off, e, n, 4, c.arg0);
    }
    if n >= 20 {
      ArgRead(buf, off, e, n, 12, c.arg1);
    }
    if n >= 28 {
      ArgRead(buf, off, e, n, 20, c.arg2);
    }
  }

  /** Decoding at an offset recovers the arguments that were encoded there. */
  lemma DecodeEncoded(buf: seq<byte>, off: nat, c: Cmd, n: nat)
    requires WellFormed(c) && 4 <= n <= STEP_BYTES && off + n <= |buf| && buf[off..off + n] == Encode(c)[..n]
    ensures var d := DecodeAt(buf, off);
      && d.opcode == c.opcode && d.flags == c.flags
      && (n >= 12 ==> d.arg0 == c.arg0) && (n >= 20 ==> d.arg1 == c.arg1)
      && (n >= 28 ==> d == c)
  {
    Fields(c);
    FieldsRead(buf, off, Encode(c), n, c);
  }

  function Packed(cs: seq<Cmd>): seq<byte> {
    if cs == [] then [] else Encode(cs[0])[..SizeOf(cs[0].opcode)] + Packed(cs[1..])
  }

  ghost predicate LineOk(cs: seq<Cmd>) {
    |cs| <= MAX_CMDS && |Packed(cs)| <= LINE && Sendable(cs)
  }

  function PackLine(cs: seq<Cmd>): seq<byte>
    requires |Packed(cs)| <= LINE
  {
    Packed(cs) + seq(LINE - |Packed(cs)|, _ => 0)
  }

  ghost predicate SameMeanings(ps: seq<Cmd>, qs: seq<Cmd>) {
    |ps| == |qs| && forall k | 0 <= k < |ps| :: SameMeaning(ps[k], qs[k])
  }

  ghost predicate Sendable(cs: seq<Cmd>) {
    forall k | 0 <= k < |cs| :: WellFormed(cs[k]) && !(cs[k].opcode == 0 && cs[k].flags == 0)
  }

  ghost predicate Zeros(b: seq<byte>) { forall k | 0 <= k < |b| :: b[k] == 0 }

  lemma UnpackPadding(buf: seq<byte>, off: nat, slots: nat)
    requires |buf| == LINE && off <= LINE && Zeros(buf[off..])
    ensures Unpack(buf, off, slots) == []
  {
    if off + 4 <= LINE {
      assert buf[off] == buf[off..][0] && buf[off + 1] == buf[off..][1];
    }
  }

  /** From `off` on, `buf` holds these commands and then zero padding. */
  ghost predicate Carries(buf: seq<byte>, off: nat, cs: seq<Cmd>)
    decreases |cs|
  {
    if cs == [] then off <= |buf| && Zeros(buf[off..])
    else
      var n := SizeOf(cs[0].opcode);
      off + n <= |buf| && buf[off..off + n] == Encode(cs[0])[..n] && Carries(buf, off + n, cs[1..])
  }

  lemma SplitAt(buf: seq<byte>, off: nat, first: seq<byte>, rest: seq<byte>)
    requires off <= |buf| && buf[off..] == first + rest
    ensures off + |first| <= |buf| && buf[off..off + |first|] == first && buf[off + |first|..] == rest
  {
    assert buf[off..off + |first|] == buf[off..][..|first|];
    assert buf[off + |first|..] == buf[off..][|first|..];
  }

  lemma {:induction false} PackedCarries(buf: seq<byte>, off: nat, cs: seq<Cmd>, pad: seq<byte>)
    requires off <= |buf| && buf[off..] == Packed(cs) + pad && Zeros(pad)
    ensures Carries(buf, off, cs)
    decreases |cs|
  {
    if cs != [] {
      var n := SizeOf(cs[0].opcode);
      var first, rest := Encode(cs[0])[..n], Packed(cs[1..]) + pad;
      assert Packed(cs) + pad == first + rest;
      SplitAt(buf, off, first, rest);
      PackedCarries(buf, off + n, cs[1..], pad);
    }
  }

  lemma UnpackFirst(buf: seq<byte>, off: nat, slots: nat, c: Cmd)
    requires slots > 0 && |buf| == LINE && WellFormed(c) && !(c.opcode == 0 && c.flags == 0)
    requires off + SizeOf(c.opcode) <= LINE && buf[off..off + SizeOf(c.opcode)] == Encode(c)[..SizeOf(c.opcode)]
    ensures var us := Unpack(buf, off, slots);
      us != [] && SameMeaning(us[0], c) && us[1..] == Unpack(buf, off + SizeOf(c.opcode), slots - 1)
  {
    DecodeEncoded(buf, off, c, SizeOf(c.opcode));
  }

  /** `SameMeanings`, head first, as the unpacker walks. */
  ghost predicate Matches(ps: seq<Cmd>, qs: seq<Cmd>)
    decreases |ps|
  {
    if ps == [] || qs == [] then ps == [] && qs == []
    else SameMeaning(ps[0], qs[0]) && Matches(ps[1..], qs[1..])
  }

  lemma {:induction false} MatchesAll(ps: seq<Cmd>, qs: seq<Cmd>)
    requires Matches(ps, qs)
    ensures SameMeanings(ps, qs)
    decreases |ps|
  {
    if ps != [] {
      MatchesAll(ps[1..], qs[1..]);
      forall k | 0 < k < |ps| ensures SameMeaning(ps[k], qs[k]) {
        assert ps[k] == ps[1..][k - 1] && qs[k] == qs[1..][k - 1];
      }
    }
  }

  lemma MatchesCons(ps: seq<Cmd>, qs: seq<Cmd>)
    requires ps != [] && qs != [] && SameMeaning(ps[0], qs[0]) && Matches(ps[1..], qs[1..])
    ensures Matches(ps, qs)
  {
  }

  lemma SendableTail(cs: seq<Cmd>)
    requires Sendable(cs) && cs != []
    ensures WellFormed(cs[0]) && !(cs[0].opcode == 0 && cs[0].flags == 0) && Sendable(cs[1..])
  {
  }

  lemma {:induction false} UnpackCarried(buf: seq<byte>, off: nat, slots: nat, cs: seq<Cmd>)
    requires |cs| <= slots && |buf| == LINE && Carries(buf, off, cs) && Sendable(cs)
    ensures Matches(Unpack(buf, off, slots), cs)
    decreases |cs|
  {
    if cs == [] {
      UnpackPadding(buf, off, slots);
    } else {
      SendableTail(cs);
      UnpackFirst(buf, off, slots, cs[0]);
      UnpackCarried(buf, off + SizeOf(cs[0].opcode), slots - 1, cs[1..]);
      MatchesCons(Unpack(buf, off, slots), cs);
    }
  }

  /** A packed line unpacks to the commands it was packed from. */
  lemma PackLineRoundTrip(cs: seq<Cmd>)
    requires LineOk(cs)
    ensures SameMeanings(LineCmds(PackLine(cs)), cs)
  {
    var buf := PackLine(cs);
    assert buf[0..] == buf;
    PackedCarries(buf, 0, cs, seq(LINE - |Packed(cs)|, _ => 0));
    UnpackCarried(buf, 0, MAX_CMDS, cs);
    MatchesAll(LineCmds(buf), cs);
  }

  // ----- a draw bundle against the ring -----

  lemma MeaningIsEffect(dev: Device, m: Memory, a: Cmd, b: Cmd, io: Io)
    requires SameMeaning(a, b)
    ensures StepEffect(dev, m, a, io) == StepEffect(dev, m, b, io)
  {
  }

  lemma {:induction false} SameEffects(dev: Device, m: Memory, ps: seq<Cmd>, qs: seq<Cmd>, io: Io)
    requires SameMeanings(ps, qs) && forall k | 0 <= k < |ps| :: ps[k].opcode != OP_DRAW
    ensures Effects(dev, m, ps, io) == StepsEffect(dev, m, qs, io)
    decreases |ps|
  {
    if ps != [] {
      var n := |ps| - 1;
      SameEffects(dev, m, ps[..n], qs[..n], io);
      MeaningIsEffect(dev, m, ps[n], qs[n], StepsEffect(dev, m, qs[..n], io));
    }
  }

  function Concat(groups: seq<seq<Cmd>>): seq<Cmd> {
    if groups == [] then [] else Concat(groups[..|groups| - 1]) + groups[|groups| - 1]
  }

  lemma {:induction false} PackedStream(groups: seq<seq<Cmd>>, stream: seq<seq<byte>>)
    requires |groups| == |stream| && forall i | 0 <= i < |groups| :: LineOk(groups[i]) && stream[i] == PackLine(groups[i])
    ensures SameMeanings(Flat(stream), Concat(groups))
    decreases |groups|
  {
    if groups != [] {
      var n := |groups| - 1;
      PackedStream(groups[..n], stream[..n]);
      PackLineRoundTrip(groups[n]);
    }
  }

  /** Memory holds a draw descriptor with these steps. */
  ghost predicate DescriptorAt(m: Memory, phys: nat, steps: seq<Cmd>) {
    && |steps| <= MAX_STEPS && Rd(ReadMem(m, phys, 4), 0, 4) == |steps|
    && forall k: nat | k < |steps| ::
         WellFormed(steps[k]) && ReadMem(m, (phys + 4 + k * STEP_BYTES) % U64, STEP_BYTES) == Encode(steps[k])
  }

  lemma DescriptorBundle(m: Memory, phys: nat, steps: seq<Cmd>)
    requires DescriptorAt(m, phys, steps)
    ensures Bundle(m, phys) == steps
  {
    forall k: nat | k < |steps| ensures DrawCmdAt(m, phys, k) == steps[k] {
      DecodeEncoded(ReadMem(m, (phys + 4 + k * STEP_BYTES) % U64, STEP_BYTES), 0, steps[k], STEP_BYTES);
    }
  }

  ghost predicate Finished(c: Cfg, stream: seq<seq<byte>>) {
    c.s.cp.eng == Idle && !c.s.cp.cl.loaded && c.s.cp.q.head == LINE * |stream|
  }

  lemma FinishedEffect(c: Cfg, dev: Device, rom: Memory, R: iset<nat>, io0: Io, stream: seq<seq<byte>>)
    requires RunInv(c, dev, rom, R, io0, stream) && Finished(c, stream)
    ensures c.s.io == Effects(dev, rom, Flat(stream), io0)
  {
    assert stream[..c.s.cp.q.head / LINE] == stream;
    assert c.h.retired == Flat(stream);
  }

  /** The step list packed into ring lines. */
  ghost predicate RingHolds(ring: seq<seq<byte>>, groups: seq<seq<Cmd>>) {
    |groups| == |ring| && forall i | 0 <= i < |groups| :: LineOk(groups[i]) && ring[i] == PackLine(groups[i])
  }

  /** A run over `stream` that starts in an invariant state, sees intact lines and descriptors,
      and ends with every line consumed. */
  ghost predicate CompleteRun(c: Cfg, acts: seq<Action>, dev: Device, rom: Memory, R: iset<nat>, io0: Io,
                              stream: seq<seq<byte>>) {
    && RunInv(c, dev, rom, R, io0, stream) && StreamResident(dev, rom, R, stream)
    && RunIntact(c, acts, dev, stream) && HostKeeps(acts, rom, R)
    && Finished(Run(c, acts, dev), stream)
  }

  lemma CompleteRunEffect(c: Cfg, acts: seq<Action>, dev: Device, rom: Memory, R: iset<nat>, io0: Io, stream: seq<seq<byte>>)
    requires CompleteRun(c, acts, dev, rom, R, io0, stream)
    ensures Run(c, acts, dev).s.io == Effects(dev, rom, Flat(stream), io0)
  {
    RunFollowsReference(c, acts, dev, rom, R, io0, stream);
    FinishedEffect(Run(c, acts, dev), dev, rom, R, io0, stream);
  }

  lemma {:induction false} NoDraws(ps: seq<Cmd>, qs: seq<Cmd>)
    requires SameMeanings(ps, qs) && forall k | 0 <= k < |qs| :: qs[k].opcode != OP_DRAW
    ensures forall k | 0 <= k < |ps| :: ps[k].opcode != OP_DRAW
  {
  }

  lemma RingEffect(dev: Device, rom: Memory, io0: Io, groups: seq<seq<Cmd>>, ring: seq<seq<byte>>)
    requires RingHolds(ring, groups) && forall k | 0 <= k < |Concat(groups)| :: Concat(groups)[k].opcode != OP_DRAW
    ensures Effects(dev, rom, Flat(ring), io0) == StepsEffect(dev, rom, Concat(groups), io0)
  {
    PackedStream(groups, ring);
    NoDraws(Flat(ring), Concat(groups));
    SameEffects(dev, rom, Flat(ring), Concat(groups), io0);
  }

  lemma DrawEffect(dev: Device, rom: Memory, io0: Io, draw: Cmd, line: seq<byte>, steps: seq<Cmd>)
    requires draw.opcode == OP_DRAW && LineOk([draw]) && line == PackLine([draw])
    requires DescriptorAt(rom, dev.xlat(draw.arg0), steps)
    ensures Effects(dev, rom, Flat([line]), io0) == StepsEffect(dev, rom, steps, io0)
  {
    PackLineRoundTrip([draw]);
    var c := LineCmds(line)[0];
    assert SameMeaning(c, draw);
    DescriptorBundle(rom, dev.xlat(draw.arg0), steps);
    assert [line][..0] == [] && [c][..0] == [];
    assert Flat([line]) == [c];
  }

  /** Running a step list as one draw makes the same hook calls, and leaves the same last DCR
      response, as streaming the steps through the ring. */
  lemma DrawMatchesRing(dev: Device, rom: Memory, R: iset<nat>, io0: Io,
                        groups: seq<seq<Cmd>>, ring: seq<seq<byte>>, c1: Cfg, acts1: seq<Action>,
                        draw: Cmd, line: seq<byte>, c2: Cfg, acts2: seq<Action>)
    requires RingHolds(ring, groups) && forall k | 0 <= k < |Concat(groups)| :: Concat(groups)[k].opcode != OP_DRAW
    requires draw.opcode == OP_DRAW && LineOk([draw]) && line == PackLine([draw])
    requires DescriptorAt(rom, dev.xlat(draw.arg0), Concat(groups))
    requires CompleteRun(c1, acts1, dev, rom, R, io0, ring) && CompleteRun(c2, acts2, dev, rom, R, io0, [line])
    ensures Run(c1, acts1, dev).s.io == Run(c2, acts2, dev).s.io
  {
    CompleteRunEffect(c1, acts1, dev, rom, R, io0, ring);
    CompleteRunEffect(c2, acts2, dev, rom, R, io0, [line]);
    RingEffect(dev, rom, io0, groups, ring);
    DrawEffect(dev, rom, io0, draw, line, Concat(groups));
  }
}
