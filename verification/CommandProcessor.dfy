/** The command processor as the object it is: registers and FSMs updated in place, each method
    proved to compute its part of `CpModel.Tick`. */
module CommandProcessor {
  import opened CpModel

  lemma Shift(w: nat, b: nat, r: nat)
    ensures w * (b + 256 * r) == w * b + (256 * w) * r
  {
  }

  /** Little-endian assembly of `n` bytes, lowest first. */
  method ReadLittle(buf: seq<byte>, o: nat, n: nat) returns (v: nat)
    ensures v == Rd(buf, o, n)
  {
    v := 0;
    var w: nat := 1;
    for i := 0 to n
      invariant v + w * Rd(buf, o + i, n - i) == Rd(buf, o, n)
    {
      Shift(w, Rd8(buf, o + i), Rd(buf, o + i + 1, n - i - 1));
      v := v + w * Rd8(buf, o + i);
      w := 256 * w;
    }
  }

  method DecodeCmd(buf: seq<byte>, off: nat) returns (c: Cmd, size: nat)
    ensures c == DecodeAt(buf, off) && size == SizeOf(c.opcode)
  {
    var reserved := ReadLittle(buf, off + 2, 2);
    var arg0 := ReadLittle(buf, off + 4, 8);
    var arg1 := ReadLittle(buf, off + 12, 8);
    var arg2 := ReadLittle(buf, off + 20, 8);
    c := Cmd(Rd8(buf, off), Rd8(buf, off + 1), reserved, arg0, arg1, arg2);
    size := SizeOf(c.opcode);
  }

  /** Counts the commands of a line. */
  method UnpackLine(buf: seq<byte>) returns (count: nat)
    requires |buf| == LINE
    ensures count == |LineCmds(buf)|
  {
    count := 0;
    var offset: nat := 0;
    for slot := 0 to MAX_CMDS
      invariant count + |Unpack(buf, offset, MAX_CMDS - slot)| == |LineCmds(buf)|
    {
      if offset + 4 > LINE {
        break;
      }
      if buf[offset] == 0 && buf[offset + 1] == 0 {
        break;
      }
      var c, size := DecodeCmd(buf, offset);
      if offset + size > LINE {
        break;
      }
      count := count + 1;
      offset := offset + size;
    }
  }

  /** Offset of slot `k`, found by decoding the commands before it. */
  method FindSlot(buf: seq<byte>, k: nat) returns (off: nat)
    ensures off == SkipCmds(buf, 0, k)
  {
    off := 0;
    for s := 0 to k
      invariant SkipCmds(buf, off, k - s) == SkipCmds(buf, 0, k)
    {
      var c, size := DecodeCmd(buf, off);
      off := off + size;
    }
  }

  method CopyEngine(m: Memory, dst: nat, src: nat, total: nat) returns (r: Memory)
    ensures r == CopyChunks(m, dst, src, total, 0)
  {
    r := m;
    var done := 0;
    while done < total
      invariant done <= total
      invariant CopyChunks(r, dst, src, total, done) == CopyChunks(m, dst, src, total, 0)
    {
      var n := Min(total - done, CHUNK);
      r := WriteMem(r, (dst + done) % U64, ReadMem(r, (src + done) % U64, n));
      done := done + n;
    }
  }

  /** The FSMs neither read nor change the cycle counter. */
  lemma CycleFrame(s: Sys, n: nat, dev: Device, busy: bool)
    ensures CpModel.TickEngine(s.(cycle := n), dev) == CpModel.TickEngine(s, dev).(cycle := n)
    ensures CpModel.TickLaunch(s.(cycle := n), busy) == CpModel.TickLaunch(s, busy).(cycle := n)
  {
    StateFrame(s, n, dev);
  }

  lemma StateFrame(s: Sys, n: nat, dev: Device)
    ensures BidTick(s.(cycle := n), dev) == BidTick(s, dev).(cycle := n)
    ensures DrawTick(s.(cycle := n), dev) == DrawTick(s, dev).(cycle := n)
    ensures RetireTick(s.(cycle := n)) == RetireTick(s).(cycle := n)
  {
  }

  class CommandProcessor {
    var ctrl: nat
    var cycle: nat
    var q: Queue
    var eng: Eng
    var launch: Launch
    var cur: Cmd
    var curIsLaunch: bool
    var curIsNoRes: bool
    var draw: Draw
    const clBuf: array<byte>
    var clCount: nat
    var clSlot: nat
    var clLoaded: bool
    var lastDcrRsp: nat
    var mem: Memory
    var log: seq<Hook>
    const dev: Device

    ghost predicate Valid() { clBuf.Length == LINE }

    ghost function View(): Sys
      reads this, clBuf
    {
      Sys(Cp(ctrl, q, eng, launch, cur, curIsLaunch, curIsNoRes, draw, Line(clBuf[..], clCount, clSlot, clLoaded)),
          cycle, mem, Io(log, lastDcrRsp))
    }

    constructor (dev: Device, mem: Memory)
      ensures Valid() && fresh(clBuf) && this.dev == dev
      ensures View().mem == mem && View().io == Io([], 0) && View().cp.eng == Idle && View().cp.launch == LIdle
      ensures !View().cp.cl.loaded && !Enabled(View().cp)
      ensures var q := View().cp.q; q.head == 0 && q.tail == 0 && q.seqnum == 0
    {
      ctrl, cycle := 0, 0;
      q := Queue(0, 0, 16, 0, 0, 0, 0);
      eng, launch := Idle, LIdle;
      cur, curIsLaunch, curIsNoRes := Cmd(0, 0, 0, 0, 0, 0), false, false;
      draw := Draw(0, 0, 0);
      clBuf := new byte[LINE](_ => 0);
      clCount, clSlot, clLoaded := 0, 0, false;
      lastDcrRsp, log := 0, [];
      this.mem, this.dev := mem, dev;
    }

    method FetchIfNeeded()
      requires Valid()
      modifies this`clCount, this`clSlot, this`clLoaded, clBuf
      ensures View() == old(View()).(cp := Fetch(old(View().cp), mem))
    {
      if clLoaded || q.head >= q.tail {
        return;
      }
      var data := ReadMem(mem, RingAddr(q, q.head), LINE);
      forall i | 0 <= i < LINE {
        clBuf[i] := data[i];
      }
      assert clBuf[..] == data;
      clLoaded, clSlot := true, 0;
      clCount := UnpackLine(data);
    }

    method LoadNextCmd() returns (ok: bool)
      requires Valid() && eng == Idle
      modifies this`q, this`clLoaded, this`cur, this`curIsLaunch, this`curIsNoRes
      ensures View().(cp := View().cp.(eng := if ok then Decode else Idle)) == old(View()).(cp := LoadNext(old(View().cp)))
    {
      if !clLoaded {
        return false;
      }
      if clSlot >= clCount {
        q := q.(head := (q.head + LINE) % U64);
        clLoaded := false;
        return false;
      }
      var off := FindSlot(clBuf[..], clSlot);
      var size;
      cur, size := DecodeCmd(clBuf[..], off);
      curIsLaunch := IsLaunch(cur);
      curIsNoRes := cur.opcode == OP_NOP || cur.opcode == OP_FENCE;
      return true;
    }

    method ApplyDescriptor(qmd: nat)
      modifies this`log
      ensures Io(log, lastDcrRsp) == ApplyQmd(dev, mem, qmd, old(Io(log, lastDcrRsp)))
    {
      var x := dev.xlat(qmd);
      var count := Min(Rd(ReadMem(mem, x, 4), 0, 4), MAX_QMD);
      var addr: nat := (x + 4) % U64;
      for i := 0 to count
        invariant log + QmdWrites(mem, addr, count - i) == old(log) + QmdWrites(mem, (x + 4) % U64, count)
      {
        var pair := ReadMem(mem, addr, 8);
        log := log + [DcrWrite(Rd(pair, 0, 4) % 0x1000, Rd(pair, 4, 4))];
        addr := (addr + 8) % U64;
      }
    }

    method FlushCaches(n: nat)
      modifies this`log
      ensures log == old(log) + FlushReads(0, n)
    {
      for cid := 0 to n
        invariant log + FlushReads(cid, n) == old(log) + FlushReads(0, n)
      {
        log := log + [DcrRead(FLUSH_DCR, cid)];
      }
    }

    /** One bundle step; true when a kernel launch was kicked. */
    method ExecInlineCmd(c: Cmd) returns (kicked: bool)
      modifies this`log, this`lastDcrRsp, this`launch
      ensures kicked == IsLaunch(c) && launch == (if kicked then PulseStart else old(launch))
      ensures Io(log, lastDcrRsp) == ExecInline(dev, mem, c, old(Io(log, lastDcrRsp)))
    {
      kicked := false;
      if c.opcode == OP_LAUNCH || c.opcode == OP_LAUNCH_QMD {
        if c.opcode == OP_LAUNCH_QMD {
          ApplyDescriptor(c.arg0);
        }
        launch := PulseStart;
        kicked := true;
      } else if c.opcode == OP_DCR_WRITE {
        log := log + [DcrWrite(c.arg0 % 0x1000, c.arg1 % U32)];
      } else if c.opcode == OP_DCR_READ {
        log := log + [DcrRead(c.arg0 % 0x1000, c.arg1 % U32)];
        lastDcrRsp := dev.rsp(log);
      } else if c.opcode == OP_CACHE_FLUSH {
        FlushCaches(c.arg0 % U32);
      }
    }

    method DoBid()
      requires Valid() && eng == Bid
      modifies this`log, this`lastDcrRsp, this`launch, this`eng, this`draw, this`mem
      ensures View() == BidTick(old(View()), dev)
    {
      if curIsLaunch {
        if cur.opcode == OP_LAUNCH_QMD {
          ApplyDescriptor(cur.arg0);
        }
        launch, eng := PulseStart, WaitDone;
      } else if cur.opcode == OP_DRAW {
        var phys := dev.xlat(cur.arg0);
        draw := Draw(phys, Min(Rd(ReadMem(mem, phys, 4), 0, 4), MAX_STEPS), 0);
        eng := DrawStep;
      } else if cur.opcode == OP_EVENT_WAIT {
        if WaitSatisfied(mem, cur) {
          eng := Retire;
        }
      } else {
        BidInline();
        eng := Retire;
      }
    }

    /** The opcodes that complete within the bid tick. */
    method BidInline()
      modifies this`log, this`lastDcrRsp, this`mem
      ensures Io(log, lastDcrRsp) == BidIo(old(Io(log, lastDcrRsp)), cur, dev)
      ensures mem == BidMem(old(mem), cur, dev)
    {
      if cur.opcode == OP_DCR_WRITE {
        log := log + [DcrWrite(cur.arg0 % 0x1000, cur.arg1 % U32)];
      } else if cur.opcode == OP_DCR_READ {
        log := log + [DcrRead(cur.arg0 % 0x1000, cur.arg1 % U32)];
        lastDcrRsp := dev.rsp(log);
      } else if cur.opcode == OP_CACHE_FLUSH {
        FlushCaches(cur.arg0 % U32);
      } else if cur.opcode == OP_EVENT_SIG {
        mem := WriteMem(mem, cur.arg0, Bytes(cur.arg1, 8));
      } else if cur.opcode == OP_MEM_WRITE || cur.opcode == OP_MEM_READ || cur.opcode == OP_MEM_COPY {
        var physical := (cur.flags / 4) % 2 == 1;
        var dst, src := cur.arg0, cur.arg1;
        if cur.opcode == OP_MEM_WRITE {
          dst := if physical then dst else dev.xlat(dst);
        } else if cur.opcode == OP_MEM_READ {
          src := if physical then src else dev.xlat(src);
        } else {
          dst := if physical then dst else dev.xlat(dst);
          src := if physical then src else dev.xlat(src);
        }
        mem := CopyEngine(mem, dst, src, cur.arg2);
      }
    }

    method LoadDrawStep() returns (c: Cmd)
      ensures c == DrawCmdAt(mem, draw.phys, draw.step)
    {
      var step := ReadMem(mem, (draw.phys + 4 + draw.step * STEP_BYTES) % U64, STEP_BYTES);
      var size;
      c, size := DecodeCmd(step, 0);
    }

    method DoDrawStep()
      requires Valid() && eng == DrawStep
      modifies this`log, this`lastDcrRsp, this`launch, this`eng, this`draw
      ensures View() == DrawTick(old(View()), dev)
    {
      if draw.step >= draw.num {
        eng := Retire;
        return;
      }
      var c := LoadDrawStep();
      var kicked := ExecInlineCmd(c);
      if kicked {
        eng := DrawLaunchWait;
      } else {
        draw := draw.(step := draw.step + 1);
      }
    }

    method DoRetire()
      requires Valid() && eng == Retire
      modifies this`q, this`mem, this`clSlot, this`eng
      ensures View() == RetireTick(old(View()))
    {
      q := q.(seqnum := (q.seqnum + 1) % U64);
      if q.cmplAddr != 0 {
        mem := WriteMem(mem, q.cmplAddr, Bytes(q.seqnum, 8));
      }
      clSlot := clSlot + 1;
      eng := Idle;
    }

    method TickLaunch(busy: bool)
      modifies this`log, this`launch
      ensures View() == CpModel.TickLaunch(old(View()), busy)
    {
      match launch
      case LIdle =>
      case PulseStart =>
        log := log + [Start];
        launch := WaitBusy;
      case WaitBusy =>
        if busy {
          launch := WaitDrain;
        }
      case WaitDrain =>
        if !busy {
          launch := LIdle;
        }
    }

    method TickEngine()
      requires Valid()
      modifies this, clBuf
      ensures View() == CpModel.TickEngine(old(View()), dev)
    {
      match eng
      case Idle =>
        FetchIfNeeded();
        var ok := LoadNextCmd();
        if ok {
          eng := Decode;
        }
      case Decode =>
        eng := if curIsNoRes then Retire else Bid;
      case Bid =>
        DoBid();
      case WaitDone =>
        if !(curIsLaunch && launch != LIdle) {
          eng := Retire;
        }
      case DrawStep =>
        DoDrawStep();
      case DrawLaunchWait =>
        if launch == LIdle {
          draw := draw.(step := draw.step + 1);
          eng := DrawStep;
        }
      case Retire =>
        DoRetire();
    }

    method Tick(busy: bool)
      requires Valid()
      modifies this, clBuf
      ensures View() == CpModel.Tick(old(View()), dev, busy)
    {
      ghost var s := View();
      cycle := (cycle + 1) % U64;
      if ctrl % 2 == 1 && q.control % 2 == 1 {
        CycleFrame(s, cycle, dev, busy);
        TickEngine();
        CycleFrame(CpModel.TickEngine(s, dev), cycle, dev, busy);
        TickLaunch(busy);
      }
    }
  }
}
