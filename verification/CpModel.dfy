/** The command processor as a value: its registers, the device memory it reads, and the hook
    calls it makes.  One clock tick is the function `Tick`; `CommandProcessor` holds the class that
    computes it step by step, and `CpRuns` the properties of whole runs. */
module CpModel {

  const U32: nat := 0x1_0000_0000
  const U64: nat := 0x1_0000_0000_0000_0000
  const LINE: nat := 64
  const MAX_CMDS: nat := 5
  const STEP_BYTES: nat := 28
  const MAX_STEPS: nat := 256
  const MAX_QMD: nat := 64
  const CHUNK: nat := 0x1_0000
  const FLUSH_DCR: nat := 0

  const OP_NOP: byte := 0
  const OP_MEM_WRITE: byte := 1
  const OP_MEM_READ: byte := 2
  const OP_MEM_COPY: byte := 3
  const OP_DCR_WRITE: byte := 4
  const OP_DCR_READ: byte := 5
  const OP_LAUNCH: byte := 6
  const OP_FENCE: byte := 7
  const OP_EVENT_SIG: byte := 8
  const OP_EVENT_WAIT: byte := 9
  const OP_CACHE_FLUSH: byte := 10
  const OP_LAUNCH_QMD: byte := 11
  const OP_DRAW: byte := 12

  type byte = x: int | 0 <= x < 256
  type Memory = nat -> byte

  datatype Cmd = Cmd(opcode: byte, flags: byte, reserved: nat, arg0: nat, arg1: nat, arg2: nat)

  datatype Eng = Idle | Decode | Bid | WaitDone | Retire | DrawStep | DrawLaunchWait
  datatype Launch = LIdle | PulseStart | WaitBusy | WaitDrain

  datatype Hook = DcrWrite(addr: nat, value: nat) | DcrRead(dcr: nat, tag: nat) | Start

  /** The device behind the hooks: the answer to a DCR read may depend on every earlier hook
      call, and address translation is an arbitrary fixed function. */
  datatype Device = Device(rsp: seq<Hook> -> nat, xlat: nat -> nat)

  /** What the device has seen of the processor, and the latched DCR response. */
  datatype Io = Io(log: seq<Hook>, rsp: nat)

  datatype Queue = Queue(ringBase: nat, cmplAddr: nat, ringLog2: nat, control: nat, tail: nat, head: nat, seqnum: nat)

  datatype Line = Line(buf: seq<byte>, count: nat, slot: nat, loaded: bool)

  datatype Draw = Draw(phys: nat, num: nat, step: nat)

  datatype Cp = Cp(ctrl: nat, q: Queue, eng: Eng, launch: Launch, cur: Cmd, curIsLaunch: bool, curIsNoRes: bool,
                   draw: Draw, cl: Line)

  datatype Sys = Sys(cp: Cp, cycle: nat, mem: Memory, io: Io)

  // ----- bytes -----

  function Min(a: nat, b: nat): nat { if a < b then a else b }

  function Pow2(n: nat): (p: nat)
    ensures p > 0
  {
    if n == 0 then 1 else 2 * Pow2(n - 1)
  }

  function Rd8(buf: seq<byte>, o: nat): byte { if o < |buf| then buf[o] else 0 }

  /** Little-endian value of `n` bytes; bytes past the end of the buffer read as zero. */
  function Rd(buf: seq<byte>, o: nat, n: nat): nat
    decreases n, buf
  {
    if n == 0 then 0 else Rd8(buf, o) + 256 * Rd(buf, o + 1, n - 1)
  }

  function At(m: Memory, a: nat): byte { m(a) }

  function ReadMem(m: Memory, a: nat, n: nat): seq<byte> { seq(n, (i: nat) => m(a + i)) }

  function WriteMem(m: Memory, a: nat, bytes: seq<byte>): Memory {
    (x: nat) => if a <= x < a + |bytes| then bytes[x - a] else m(x)
  }

  function Bytes(v: nat, n: nat): (b: seq<byte>)
    ensures |b| == n
  {
    if n == 0 then [] else [v % 256] + Bytes(v / 256, n - 1)
  }

  // ----- commands -----

  function DecodeAt(buf: seq<byte>, off: nat): Cmd {
    Cmd(Rd8(buf, off), Rd8(buf, off + 1), Rd(buf, off + 2, 2),
        Rd(buf, off + 4, 8), Rd(buf, off + 12, 8), Rd(buf, off + 20, 8))
  }

  function SizeOf(opcode: byte): (n: nat)
    ensures 4 <= n <= STEP_BYTES
  {
    if opcode in {OP_LAUNCH, OP_LAUNCH_QMD, OP_DRAW, OP_CACHE_FLUSH} then 12
    else if opcode == OP_FENCE then 8
    else if opcode in {OP_DCR_WRITE, OP_DCR_READ, OP_EVENT_SIG} then 20
    else if opcode in {OP_EVENT_WAIT, OP_MEM_WRITE, OP_MEM_READ, OP_MEM_COPY} then 28
    else 4
  }

  /** The commands of one ring line: at most `slots` of them from `off` on, up to the first
      zero header or the first command that would cross the end of the line. */
  function Unpack(buf: seq<byte>, off: nat, slots: nat): (cs: seq<Cmd>)
    ensures |cs| <= slots
    decreases slots, buf
  {
    if slots == 0 || off + 4 > LINE then []
    else if Rd8(buf, off) == 0 && Rd8(buf, off + 1) == 0 then []
    else
      var c := DecodeAt(buf, off);
      if off + SizeOf(c.opcode) > LINE then []
      else [c] + Unpack(buf, off + SizeOf(c.opcode), slots - 1)
  }

  function LineCmds(buf: seq<byte>): (cs: seq<Cmd>)
    ensures |cs| <= MAX_CMDS
  {
    Unpack(buf, 0, MAX_CMDS)
  }

  /** Byte offset reached after stepping over `k` commands from `off`. */
  function SkipCmds(buf: seq<byte>, off: nat, k: nat): nat
    decreases k, buf
  {
    if k == 0 then off else SkipCmds(buf, off + SizeOf(Rd8(buf, off)), k - 1)
  }

  // ----- hook effects -----

  predicate IsLaunch(c: Cmd) { c.opcode == OP_LAUNCH || c.opcode == OP_LAUNCH_QMD }

  function QmdCount(m: Memory, a: nat): nat { Min(Rd(ReadMem(m, a, 4), 0, 4), MAX_QMD) }

  function QmdWrites(m: Memory, a: nat, n: nat): seq<Hook>
    decreases n
  {
    if n == 0 then []
    else
      [DcrWrite(Rd(ReadMem(m, a, 8), 0, 4) % 0x1000, Rd(ReadMem(m, a, 8), 4, 4))]
      + QmdWrites(m, (a + 8) % U64, n - 1)
  }

  function ApplyQmd(dev: Device, m: Memory, a: nat, io: Io): Io {
    var x := dev.xlat(a);
    io.(log := io.log + QmdWrites(m, (x + 4) % U64, QmdCount(m, x)))
  }

  function FlushReads(from: nat, n: nat): seq<Hook>
    requires from <= n
    decreases n - from
  {
    if from == n then [] else [DcrRead(FLUSH_DCR, from)] + FlushReads(from + 1, n)
  }

  function ReadDcr(dev: Device, dcr: nat, tag: nat, io: Io): Io {
    var log := io.log + [DcrRead(dcr, tag)];
    Io(log, dev.rsp(log))
  }

  /** One bundle step; the start pulse of a launch comes from the launch FSM. */
  function ExecInline(dev: Device, m: Memory, c: Cmd, io: Io): Io {
    if c.opcode == OP_LAUNCH_QMD then ApplyQmd(dev, m, c.arg0, io)
    else if c.opcode == OP_DCR_WRITE then
      io.(log := io.log + [DcrWrite(c.arg0 % 0x1000, c.arg1 % U32)])
    else if c.opcode == OP_DCR_READ then ReadDcr(dev, c.arg0 % 0x1000, c.arg1 % U32, io)
    else if c.opcode == OP_CACHE_FLUSH then io.(log := io.log + FlushReads(0, c.arg0 % U32))
    else io
  }

  function DrawCount(m: Memory, phys: nat): nat { Min(Rd(ReadMem(m, phys, 4), 0, 4), MAX_STEPS) }

  function DrawCmdAt(m: Memory, phys: nat, k: nat): Cmd {
    DecodeAt(ReadMem(m, (phys + 4 + k * STEP_BYTES) % U64, STEP_BYTES), 0)
  }

  // ----- the copy engine -----

  function CopyChunks(m: Memory, dst: nat, src: nat, total: nat, done: nat): Memory
    requires done <= total
    decreases total - done
  {
    if done == total then m
    else
      var n := Min(total - done, CHUNK);
      CopyChunks(WriteMem(m, (dst + done) % U64, ReadMem(m, (src + done) % U64, n)), dst, src, total, done + n)
  }

  /** Copies to or from the device side translate that side, unless the command says physical. */
  predicate Physical(c: Cmd) { (c.flags / 4) % 2 == 1 }

  function CopyDst(dev: Device, c: Cmd): nat {
    if Physical(c) || c.opcode == OP_MEM_READ then c.arg0 else dev.xlat(c.arg0)
  }

  function CopySrc(dev: Device, c: Cmd): nat {
    if Physical(c) || c.opcode == OP_MEM_WRITE then c.arg1 else dev.xlat(c.arg1)
  }

  predicate IsCopy(c: Cmd) { c.opcode in {OP_MEM_WRITE, OP_MEM_READ, OP_MEM_COPY} }

  function ExecCopy(dev: Device, m: Memory, c: Cmd): Memory {
    CopyChunks(m, CopyDst(dev, c), CopySrc(dev, c), c.arg2, 0)
  }

  predicate WaitSatisfied(m: Memory, c: Cmd) {
    var cur := Rd(ReadMem(m, c.arg0, 8), 0, 8);
    match c.arg2 % 4
    case 0 => cur == c.arg1
    case 1 => cur >= c.arg1
    case 2 => cur > c.arg1
    case _ => cur != c.arg1
  }

  // ----- one tick -----

  predicate Enabled(cp: Cp) { cp.ctrl % 2 == 1 && cp.q.control % 2 == 1 }

  predicate Busy(cp: Cp) {
    Enabled(cp) && (cp.q.head < cp.q.tail || cp.cl.loaded || cp.eng != Idle || cp.launch != LIdle)
  }

  function RingAddr(q: Queue, head: nat): nat { (q.ringBase + head % Pow2(q.ringLog2)) % U64 }

  function Fetch(cp: Cp, m: Memory): Cp {
    if cp.cl.loaded || cp.q.head >= cp.q.tail then cp
    else
      var buf := ReadMem(m, RingAddr(cp.q, cp.q.head), LINE);
      cp.(cl := Line(buf, |LineCmds(buf)|, 0, true))
  }

  /** Decodes the command at the current slot, or drops an exhausted line. */
  function LoadNext(cp: Cp): Cp {
    if !cp.cl.loaded then cp
    else if cp.cl.slot >= cp.cl.count then
      cp.(q := cp.q.(head := (cp.q.head + LINE) % U64), cl := cp.cl.(loaded := false))
    else
      var c := DecodeAt(cp.cl.buf, SkipCmds(cp.cl.buf, 0, cp.cl.slot));
      cp.(cur := c, curIsLaunch := IsLaunch(c), curIsNoRes := c.opcode == OP_NOP || c.opcode == OP_FENCE,
          eng := Decode)
  }

  function BidIo(io: Io, c: Cmd, dev: Device): Io {
    if c.opcode == OP_DCR_WRITE then io.(log := io.log + [DcrWrite(c.arg0 % 0x1000, c.arg1 % U32)])
    else if c.opcode == OP_DCR_READ then ReadDcr(dev, c.arg0 % 0x1000, c.arg1 % U32, io)
    else if c.opcode == OP_CACHE_FLUSH then io.(log := io.log + FlushReads(0, c.arg0 % U32))
    else io
  }

  function BidMem(m: Memory, c: Cmd, dev: Device): Memory {
    if c.opcode == OP_EVENT_SIG then WriteMem(m, c.arg0, Bytes(c.arg1, 8))
    else if IsCopy(c) then ExecCopy(dev, m, c)
    else m
  }

  function BidTick(s: Sys, dev: Device): Sys {
    var c := s.cp.cur;
    if s.cp.curIsLaunch then
      s.(io := if c.opcode == OP_LAUNCH_QMD then ApplyQmd(dev, s.mem, c.arg0, s.io) else s.io,
         cp := s.cp.(launch := PulseStart, eng := WaitDone))
    else if c.opcode == OP_DRAW then
      var phys := dev.xlat(c.arg0);
      s.(cp := s.cp.(draw := Draw(phys, DrawCount(s.mem, phys), 0), eng := DrawStep))
    else if c.opcode == OP_EVENT_WAIT then
      if WaitSatisfied(s.mem, c) then s.(cp := s.cp.(eng := Retire)) else s
    else
      s.(cp := s.cp.(eng := Retire), mem := BidMem(s.mem, c, dev), io := BidIo(s.io, c, dev))
  }

  function DrawTick(s: Sys, dev: Device): Sys {
    var d := s.cp.draw;
    if d.step >= d.num then s.(cp := s.cp.(eng := Retire))
    else
      var c := DrawCmdAt(s.mem, d.phys, d.step);
      s.(io := ExecInline(dev, s.mem, c, s.io),
         cp := if IsLaunch(c) then s.cp.(launch := PulseStart, eng := DrawLaunchWait)
               else s.cp.(draw := d.(step := d.step + 1)))
  }

  function RetireTick(s: Sys): Sys {
    var seqnum := (s.cp.q.seqnum + 1) % U64;
    s.(mem := if s.cp.q.cmplAddr == 0 then s.mem else WriteMem(s.mem, s.cp.q.cmplAddr, Bytes(seqnum, 8)),
       cp := s.cp.(q := s.cp.q.(seqnum := seqnum), cl := s.cp.cl.(slot := s.cp.cl.slot + 1), eng := Idle))
  }

  function TickEngine(s: Sys, dev: Device): Sys {
    match s.cp.eng
    case Idle => s.(cp := LoadNext(Fetch(s.cp, s.mem)))
    case Decode => s.(cp := s.cp.(eng := if s.cp.curIsNoRes then Retire else Bid))
    case Bid => BidTick(s, dev)
    case WaitDone =>
      if s.cp.curIsLaunch && s.cp.launch != LIdle then s else s.(cp := s.cp.(eng := Retire))
    case DrawStep => DrawTick(s, dev)
    case DrawLaunchWait =>
      if s.cp.launch != LIdle then s
      else s.(cp := s.cp.(draw := s.cp.draw.(step := s.cp.draw.step + 1), eng := DrawStep))
    case Retire => RetireTick(s)
  }

  function TickLaunch(s: Sys, busy: bool): Sys {
    match s.cp.launch
    case LIdle => s
    case PulseStart => s.(io := s.io.(log := s.io.log + [Start]), cp := s.cp.(launch := WaitBusy))
    case WaitBusy => if busy then s.(cp := s.cp.(launch := WaitDrain)) else s
    case WaitDrain => if !busy then s.(cp := s.cp.(launch := LIdle)) else s
  }

  function Tick(s: Sys, dev: Device, busy: bool): Sys {
    var t := if Enabled(s.cp) then TickLaunch(TickEngine(s, dev), busy) else s;
    t.(cycle := (s.cycle + 1) % U64)
  }
}
