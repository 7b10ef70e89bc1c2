/** Whole runs of the command processor: commands retire exactly once and in ring order, every
    kernel launch is pulsed once and drained before anything later happens, each tick makes
    progress or waits, and the hook calls are those of an in-order reference. */
module CpRuns {
  import opened CpModel

  /** What an observer at the tick boundary has seen: ring commands retired and executed, bundle
      steps walked, and of each kernel the busy bits sampled after its start: `samples` of the
      running one, `drained` of the finished ones. */
  datatype History = History(retired: seq<Cmd>, executed: seq<Cmd>, walked: seq<Cmd>,
                             drained: seq<seq<bool>>, samples: seq<bool>)

  datatype Cfg = Cfg(s: Sys, h: History)

  /** Between ticks the host may move the tail and the enable bits, and memory may change. */
  datatype Action = Clock(busy: bool) | Host(tail: nat, ctrl: nat, control: nat, mem: Memory)

  /** The ring command that an engine step executes. */
  function Executes(cp: Cp, after: Cp): seq<Cmd> {
    if (cp.eng == Bid && after.eng != Bid) || (cp.eng == Decode && after.eng == Retire) then [cp.cur] else []
  }

  /** The bundle step that an engine step executes. */
  function Walks(s: Sys): seq<Cmd> {
    var d := s.cp.draw;
    if s.cp.eng == DrawStep && d.step < d.num then [DrawCmdAt(s.mem, d.phys, d.step)] else []
  }

  function ObserveEngine(s: Sys, after: Cp, h: History): History {
    h.(retired := if s.cp.eng == Retire then h.retired + [s.cp.cur] else h.retired,
       executed := h.executed + Executes(s.cp, after), walked := h.walked + Walks(s))
  }

  function ObserveLaunch(cp: Cp, after: Cp, h: History, busy: bool): History {
    if cp.launch == LIdle then h
    else if after.launch == LIdle then h.(drained := h.drained + [h.samples + [busy]], samples := [])
    else h.(samples := h.samples + [busy])
  }

  function Observe(s: Sys, after: Cp, h: History, busy: bool): History {
    if Enabled(s.cp) then ObserveLaunch(s.cp, after, ObserveEngine(s, after, h), busy) else h
  }

  function StepCfg(c: Cfg, a: Action, dev: Device): Cfg {
    match a
    case Clock(busy) =>
      var t := Tick(c.s, dev, busy);
      Cfg(t, Observe(c.s, t.cp, c.h, busy))
    case Host(tail, ctrl, control, mem) =>
      c.(s := c.s.(mem := mem, cp := c.s.cp.(ctrl := ctrl, q := c.s.cp.q.(tail := tail, control := control))))
  }

  function Run(c: Cfg, acts: seq<Action>, dev: Device): Cfg
    decreases |acts|
  {
    if acts == [] then c else Run(StepCfg(c, acts[0], dev), acts[1..], dev)
  }

  // ----- the ring -----

  function Flat(lines: seq<seq<byte>>): seq<Cmd> {
    if lines == [] then [] else Flat(lines[..|lines| - 1]) + LineCmds(lines[|lines| - 1])
  }

  /** `stream` holds every line the host ever submits.  The tail is line-aligned and the lines
      between the next one to fetch and the tail are the submitted ones. */
  ghost predicate Intact(s: Sys, stream: seq<seq<byte>>) {
    var q := s.cp.q;
    && q.tail % LINE == 0 && q.tail <= LINE * |stream| && q.tail < U64
    && forall i: nat | q.head + (if s.cp.cl.loaded then LINE else 0) <= LINE * i < q.tail ::
         ReadMem(s.mem, RingAddr(q, LINE * i), LINE) == stream[i]
  }

  ghost predicate HostOk(c: Cfg, a: Action) { a.Host? ==> a.tail >= c.s.cp.q.tail }

  ghost predicate RunIntact(c: Cfg, acts: seq<Action>, dev: Device, stream: seq<seq<byte>>)
    decreases |acts|
  {
    && Intact(c.s, stream)
    && (acts != [] ==> HostOk(c, acts[0]) && RunIntact(StepCfg(c, acts[0], dev), acts[1..], dev, stream))
  }

  ghost predicate AtLine(cp: Cp, stream: seq<seq<byte>>) {
    var q, cl := cp.q, cp.cl;
    && q.head % LINE == 0 && q.head <= q.tail <= LINE * |stream|
    && (cl.loaded ==> q.head < q.tail && cl.buf == stream[q.head / LINE]
                      && cl.count == |LineCmds(cl.buf)| && cl.slot <= cl.count)
    && (cp.eng != Idle ==>
          && cl.loaded && cl.slot < cl.count && cp.cur == LineCmds(cl.buf)[cl.slot]
          && cp.curIsLaunch == IsLaunch(cp.cur)
          && cp.curIsNoRes == (cp.cur.opcode == OP_NOP || cp.cur.opcode == OP_FENCE))
  }

  function Consumed(cp: Cp, stream: seq<seq<byte>>): seq<Cmd>
    requires cp.q.head <= LINE * |stream|
    requires cp.cl.loaded ==> cp.cl.slot <= |LineCmds(cp.cl.buf)|
  {
    Flat(stream[..cp.q.head / LINE]) + (if cp.cl.loaded then LineCmds(cp.cl.buf)[..cp.cl.slot] else [])
  }

  predicate Dispatched(cp: Cp) { cp.eng in {WaitDone, Retire, DrawStep, DrawLaunchWait} }

  ghost predicate RingInv(cp: Cp, h: History, stream: seq<seq<byte>>) {
    && AtLine(cp, stream)
    && h.retired == Consumed(cp, stream)
    && h.executed == h.retired + (if Dispatched(cp) then [cp.cur] else [])
    && cp.q.seqnum == |h.retired| % U64
  }

  lemma {:induction false} UnpackAt(buf: seq<byte>, off: nat, slots: nat, k: nat)
    requires k < |Unpack(buf, off, slots)|
    ensures Unpack(buf, off, slots)[k] == DecodeAt(buf, SkipCmds(buf, off, k))
    decreases k
  {
    if k > 0 {
      UnpackAt(buf, off + SizeOf(Rd8(buf, off)), slots - 1, k - 1);
    }
  }

  lemma FlatStep(stream: seq<seq<byte>>, i: nat)
    requires i < |stream|
    ensures Flat(stream[..i + 1]) == Flat(stream[..i]) + LineCmds(stream[i])
  {
    assert stream[..i + 1][..i] == stream[..i];
  }

  lemma FetchKeeps(s: Sys, h: History, stream: seq<seq<byte>>)
    requires RingInv(s.cp, h, stream) && Intact(s, stream) && s.cp.eng == Idle
    ensures RingInv(Fetch(s.cp, s.mem), h, stream)
  {
    var q := s.cp.q;
    if !s.cp.cl.loaded && q.head < q.tail {
      assert LINE * (q.head / LINE) == q.head;
    }
  }

  lemma LoadCmdKeeps(cp: Cp, h: History, stream: seq<seq<byte>>)
    requires RingInv(cp, h, stream) && cp.eng == Idle && cp.cl.loaded && cp.cl.slot < cp.cl.count
    ensures RingInv(LoadNext(cp), h, stream)
  {
    UnpackAt(cp.cl.buf, 0, MAX_CMDS, cp.cl.slot);
  }

  lemma NextLine(head: nat, tail: nat)
    requires head < tail < U64 && head % LINE == 0 && tail % LINE == 0
    ensures (head + LINE) % U64 == head + LINE <= tail && (head + LINE) / LINE == head / LINE + 1
  {
  }

  lemma DropLineKeeps(cp: Cp, h: History, stream: seq<seq<byte>>)
    requires RingInv(cp, h, stream) && cp.eng == Idle && cp.cl.loaded && cp.cl.slot == cp.cl.count
    requires cp.q.tail % LINE == 0 && cp.q.tail < U64
    ensures RingInv(LoadNext(cp), h, stream)
  {
    NextLine(cp.q.head, cp.q.tail);
    FlatStep(stream, cp.q.head / LINE);
    assert LineCmds(cp.cl.buf)[..cp.cl.slot] == LineCmds(cp.cl.buf);
  }

  lemma IdleKeeps(s: Sys, h: History, stream: seq<seq<byte>>)
    requires RingInv(s.cp, h, stream) && Intact(s, stream) && s.cp.eng == Idle
    ensures RingInv(LoadNext(Fetch(s.cp, s.mem)), h, stream)
  {
    FetchKeeps(s, h, stream);
    var cp := Fetch(s.cp, s.mem);
    if cp.cl.loaded {
      if cp.cl.slot < cp.cl.count {
        LoadCmdKeeps(cp, h, stream);
      } else {
        DropLineKeeps(cp, h, stream);
      }
    }
  }

  lemma CountNext(n: nat)
    ensures (n % U64 + 1) % U64 == (n + 1) % U64
  {
  }

  lemma ConsumedNext(cp: Cp, stream: seq<seq<byte>>)
    requires AtLine(cp, stream) && cp.eng != Idle
    ensures Consumed(cp.(cl := cp.cl.(slot := cp.cl.slot + 1)), stream) == Consumed(cp, stream) + [cp.cur]
  {
    var cs := LineCmds(cp.cl.buf);
    assert cs[..cp.cl.slot + 1] == cs[..cp.cl.slot] + [cp.cur];
  }

  lemma RetireKeeps(s: Sys, h: History, stream: seq<seq<byte>>)
    requires RingInv(s.cp, h, stream) && s.cp.eng == Retire
    ensures RingInv(RetireTick(s).cp, h.(retired := h.retired + [s.cp.cur]), stream)
  {
    var t := RetireTick(s).cp;
    ConsumedNext(s.cp, stream);
    CountNext(|h.retired|);
    assert Consumed(t, stream) == Consumed(s.cp.(cl := s.cp.cl.(slot := s.cp.cl.slot + 1)), stream);
  }

  /** Engine states other than Idle and Retire leave the ring position alone. */
  lemma MiddleFrame(s: Sys, dev: Device)
    requires s.cp.eng != Idle && s.cp.eng != Retire
    ensures var cp, e := s.cp, TickEngine(s, dev).cp;
      && e == cp.(eng := e.eng, launch := e.launch, draw := e.draw)
      && e.eng != Idle
      && (Dispatched(e) <==> Dispatched(cp) || Executes(cp, e) != [])
      && (Dispatched(cp) ==> Executes(cp, e) == [])
  {
  }

  lemma EngineKeepsRing(s: Sys, h: History, dev: Device, stream: seq<seq<byte>>)
    requires RingInv(s.cp, h, stream) && Intact(s, stream)
    ensures var e := TickEngine(s, dev).cp; RingInv(e, ObserveEngine(s, e, h), stream)
  {
    var cp, e := s.cp, TickEngine(s, dev).cp;
    var g := ObserveEngine(s, e, h);
    if cp.eng == Idle {
      IdleKeeps(s, h, stream);
      assert g.executed == h.executed;
    } else if cp.eng == Retire {
      RetireKeeps(s, h, stream);
      assert g.executed == h.executed;
    } else {
      MiddleFrame(s, dev);
      assert Consumed(e, stream) == Consumed(cp, stream);
    }
  }

  lemma LaunchFrame(s: Sys, busy: bool)
    ensures var t := TickLaunch(s, busy); t.cp == s.cp.(launch := t.cp.launch) && t.mem == s.mem
  {
  }

  /** The ring invariant does not look at the launch FSM or at what is known about kernels. */
  lemma RingInvFrame(cp: Cp, h: History, cp': Cp, h': History, stream: seq<seq<byte>>)
    requires RingInv(cp, h, stream) && cp' == cp.(launch := cp'.launch)
    requires h'.retired == h.retired && h'.executed == h.executed
    ensures RingInv(cp', h', stream)
  {
    assert Consumed(cp', stream) == Consumed(cp, stream);
  }

  lemma TickKeepsRing(c: Cfg, dev: Device, busy: bool, stream: seq<seq<byte>>)
    requires RingInv(c.s.cp, c.h, stream) && Intact(c.s, stream)
    ensures var d := StepCfg(c, Clock(busy), dev); RingInv(d.s.cp, d.h, stream)
  {
    if Enabled(c.s.cp) {
      var e := TickEngine(c.s, dev);
      var t := TickLaunch(e, busy);
      EngineKeepsRing(c.s, c.h, dev, stream);
      LaunchFrame(e, busy);
      var h := ObserveEngine(c.s, e.cp, c.h);
      assert h == ObserveEngine(c.s, t.cp, c.h);
      RingInvFrame(e.cp, h, t.cp, ObserveLaunch(c.s.cp, t.cp, h, busy), stream);
    }
  }

  /** A host action that only moves the tail forward. */
  lemma HostKeepsRing(c: Cfg, a: Action, dev: Device, stream: seq<seq<byte>>)
    requires RingInv(c.s.cp, c.h, stream) && a.Host? && HostOk(c, a) && a.tail <= LINE * |stream|
    ensures var d := StepCfg(c, a, dev); RingInv(d.s.cp, d.h, stream)
  {
    var d := StepCfg(c, a, dev);
    assert Consumed(d.s.cp, stream) == Consumed(c.s.cp, stream);
  }

  /** A processor that has just been built, with nothing submitted or observed yet. */
  ghost predicate Fresh(c: Cfg) {
    var cp := c.s.cp;
    && cp.eng == Idle && cp.launch == LIdle && !cp.cl.loaded && cp.q.head == 0 && cp.q.seqnum == 0
    && c.s.io.log == [] && c.h == History([], [], [], [], [])
  }

  /** Commands retire exactly once and in ring order: in every state of every run the retired
      commands are those of the consumed lines and of the slots done in the current line, the
      executed ones are those plus at most the command in flight, and the published sequence
      number counts them. */
  lemma {:induction false} RetiresInRingOrder(c: Cfg, acts: seq<Action>, dev: Device, stream: seq<seq<byte>>)
    requires RingInv(c.s.cp, c.h, stream) && RunIntact(c, acts, dev, stream)
    ensures var d := Run(c, acts, dev); RingInv(d.s.cp, d.h, stream)
    decreases |acts|
  {
    if acts != [] {
      if acts[0].Clock? {
        TickKeepsRing(c, dev, acts[0].busy, stream);
      } else {
        HostKeepsRing(c, acts[0], dev, stream);
      }
      RetiresInRingOrder(StepCfg(c, acts[0], dev), acts[1..], dev, stream);
    }
  }

  // ----- kernel launches -----

  ghost predicate HighThenLow(samples: seq<bool>) {
    exists i, j :: 0 <= i < j < |samples| && samples[i] && !samples[j]
  }

  function Starts(log: seq<Hook>): nat {
    if log == [] then 0
    else Starts(log[..|log| - 1]) + (if log[|log| - 1] == Start then 1 else 0)
  }

  ghost predicate DrawInv(cp: Cp) {
    && (cp.eng in {DrawStep, DrawLaunchWait} ==> cp.draw.num <= MAX_STEPS)
    && (cp.eng == DrawLaunchWait ==> cp.draw.step < cp.draw.num)
  }

  /** The launches among some commands. */
  function Launches(cs: seq<Cmd>): nat {
    if cs == [] then 0
    else Launches(cs[..|cs| - 1]) + (if IsLaunch(cs[|cs| - 1]) then 1 else 0)
  }

  ghost predicate CurKnown(cp: Cp) {
    cp.eng != Idle ==>
      && cp.curIsLaunch == IsLaunch(cp.cur)
      && cp.curIsNoRes == (cp.cur.opcode == OP_NOP || cp.cur.opcode == OP_FENCE)
  }

  /** Every kernel but the running one was seen busy and later idle. */
  ghost predicate KernelInv(cp: Cp, starts: nat, h: History) {
    && cp.launch != PulseStart
    && (forall k | 0 <= k < |h.drained| :: HighThenLow(h.drained[k]))
    && (cp.launch == LIdle ==> h.samples == [])
    && (cp.launch == WaitBusy ==> forall k | 0 <= k < |h.samples| :: !h.samples[k])
    && (cp.launch == WaitDrain ==> true in h.samples)
    && starts == |h.drained| + (if cp.launch == LIdle then 0 else 1)
  }

  /** Starts, launches and kernels balance: every launch executed from the ring or walked in a
      bundle has pulsed start once, and all of them but the one in progress have drained. */
  ghost predicate LaunchInv(cp: Cp, log: seq<Hook>, h: History) {
    && CurKnown(cp)
    && Starts(log) == Launches(h.executed) + Launches(h.walked)
    && KernelInv(cp, Starts(log), h)
    && (cp.launch != LIdle ==> cp.eng == DrawLaunchWait || cp.eng == WaitDone)
    && (cp.eng == WaitDone ==> cp.curIsLaunch) && DrawInv(cp)
  }

  ghost predicate NoStarts(log: seq<Hook>) { forall k | 0 <= k < |log| :: log[k] != Start }

  lemma {:induction false} StartsAppend(a: seq<Hook>, b: seq<Hook>)
    ensures Starts(a + b) == Starts(a) + Starts(b)
    ensures NoStarts(b) ==> Starts(b) == 0
    decreases |b|
  {
    if b == [] {
      assert a + b == a;
    } else {
      var b' := b[..|b| - 1];
      StartsAppend(a, b');
      assert (a + b)[..|a + b| - 1] == a + b';
    }
  }

  lemma {:induction false} QmdNoStarts(m: Memory, a: nat, n: nat)
    ensures NoStarts(QmdWrites(m, a, n))
    decreases n
  {
    if n > 0 {
      QmdNoStarts(m, (a + 8) % U64, n - 1);
    }
  }

  lemma {:induction false} FlushNoStarts(from: nat, n: nat)
    requires from <= n
    ensures NoStarts(FlushReads(from, n))
    decreases n - from
  {
    if from < n {
      FlushNoStarts(from + 1, n);
    }
  }

  lemma QmdStarts(dev: Device, m: Memory, a: nat, io: Io)
    ensures Starts(ApplyQmd(dev, m, a, io).log) == Starts(io.log)
  {
    var x := dev.xlat(a);
    var hooks := QmdWrites(m, (x + 4) % U64, QmdCount(m, x));
    QmdNoStarts(m, (x + 4) % U64, QmdCount(m, x));
    StartsAppend(io.log, hooks);
  }

  /** Neither way of executing a command pulses start by itself. */
  lemma BidStarts(dev: Device, c: Cmd, io: Io)
    ensures Starts(BidIo(io, c, dev).log) == Starts(io.log)
  {
    if c.opcode == OP_CACHE_FLUSH {
      FlushNoStarts(0, c.arg0 % U32);
      StartsAppend(io.log, FlushReads(0, c.arg0 % U32));
    } else if c.opcode == OP_DCR_WRITE {
      StartsAppend(io.log, [DcrWrite(c.arg0 % 0x1000, c.arg1 % U32)]);
    } else if c.opcode == OP_DCR_READ {
      StartsAppend(io.log, [DcrRead(c.arg0 % 0x1000, c.arg1 % U32)]);
    }
  }

  lemma InlineStarts(dev: Device, m: Memory, c: Cmd, io: Io)
    ensures Starts(ExecInline(dev, m, c, io).log) == Starts(io.log)
  {
    if c.opcode == OP_LAUNCH_QMD {
      QmdStarts(dev, m, c.arg0, io);
    } else {
      assert ExecInline(dev, m, c, io) == BidIo(io, c, dev);
      BidStarts(dev, c, io);
    }
  }

  lemma LaunchesOne(c: Cmd)
    ensures Launches([c]) == (if IsLaunch(c) then 1 else 0)
  {
    assert [c][..0] == [];
  }

  lemma LaunchesAdd(cs: seq<Cmd>, more: seq<Cmd>)
    requires |more| <= 1
    ensures Launches(cs + more) == Launches(cs) + Launches(more)
  {
    if more == [] {
      assert cs + more == cs;
    } else {
      assert (cs + more)[..|cs|] == cs && more == [more[0]];
      LaunchesOne(more[0]);
    }
  }

  /** From `s` to `e` no start is pulsed, and a launch begins exactly when one is dispatched, which
      is only from an idle launch FSM. */
  ghost predicate LaunchStep(s: Sys, e: Sys) {
    && Starts(e.io.log) == Starts(s.io.log) && CurKnown(e.cp)
    && (e.cp.launch == s.cp.launch || (s.cp.launch == LIdle && e.cp.launch == PulseStart))
    && (if e.cp.launch == s.cp.launch then 0 else 1) == Launches(Executes(s.cp, e.cp)) + Launches(Walks(s))
    && (e.cp.launch != LIdle ==> e.cp.eng == DrawLaunchWait || e.cp.eng == WaitDone)
    && (e.cp.eng == WaitDone ==> e.cp.curIsLaunch) && DrawInv(e.cp)
  }

  lemma BidLaunch(s: Sys, dev: Device)
    requires s.cp.eng == Bid && s.cp.launch == LIdle && CurKnown(s.cp)
    ensures LaunchStep(s, BidTick(s, dev))
  {
    QmdStarts(dev, s.mem, s.cp.cur.arg0, s.io);
    BidStarts(dev, s.cp.cur, s.io);
    LaunchesOne(s.cp.cur);
  }

  lemma DrawLaunch(s: Sys, dev: Device)
    requires s.cp.eng == DrawStep && s.cp.launch == LIdle && DrawInv(s.cp) && CurKnown(s.cp)
    ensures LaunchStep(s, DrawTick(s, dev))
  {
    var c := DrawCmdAt(s.mem, s.cp.draw.phys, s.cp.draw.step);
    InlineStarts(dev, s.mem, c, s.io);
    LaunchesOne(c);
  }

  lemma EngineLaunch(s: Sys, dev: Device)
    requires s.cp.launch != LIdle ==> s.cp.eng == DrawLaunchWait || s.cp.eng == WaitDone
    requires (s.cp.eng == WaitDone ==> s.cp.curIsLaunch) && DrawInv(s.cp) && CurKnown(s.cp)
    ensures LaunchStep(s, TickEngine(s, dev))
  {
    LaunchesOne(s.cp.cur);
    if s.cp.eng == Bid {
      BidLaunch(s, dev);
    } else if s.cp.eng == DrawStep {
      DrawLaunch(s, dev);
    }
  }

  lemma DrainedAfter(samples: seq<bool>)
    requires true in samples
    ensures HighThenLow(samples + [false])
  {
    var i :| 0 <= i < |samples| && samples[i];
    assert (samples + [false])[i] && !(samples + [false])[|samples|];
  }

  lemma LaunchesObserved(s: Sys, after: Cp, h: History)
    ensures var g := ObserveEngine(s, after, h);
      Launches(g.executed) + Launches(g.walked)
      == Launches(h.executed) + Launches(h.walked) + Launches(Executes(s.cp, after)) + Launches(Walks(s))
  {
    LaunchesAdd(h.executed, Executes(s.cp, after));
    LaunchesAdd(h.walked, Walks(s));
  }

  /** The launch FSM pulses start exactly in its first state. */
  lemma PulseStarts(e: Sys, busy: bool)
    ensures Starts(TickLaunch(e, busy).io.log) == Starts(e.io.log) + (if e.cp.launch == PulseStart then 1 else 0)
  {
    StartsAppend(e.io.log, [Start]);
    assert Starts([Start]) == 1 by { assert [Start][..0] == []; }
  }

  /** What a tick makes of the history, in two steps. */
  lemma ObserveParts(c: Cfg, dev: Device, busy: bool)
    requires Enabled(c.s.cp)
    ensures var e := TickEngine(c.s, dev);
      && StepCfg(c, Clock(busy), dev).s == TickLaunch(e, busy).(cycle := (c.s.cycle + 1) % U64)
      && StepCfg(c, Clock(busy), dev).h
         == ObserveLaunch(c.s.cp, TickLaunch(e, busy).cp, ObserveEngine(c.s, e.cp, c.h), busy)
  {
    LaunchFrame(TickEngine(c.s, dev), busy);
  }

  lemma LaunchHistory(cp: Cp, after: Cp, h: History, busy: bool)
    ensures var g := ObserveLaunch(cp, after, h, busy); g.executed == h.executed && g.walked == h.walked
  {
  }

  /** One tick pulses start exactly as often as it dispatches a launch: at most once. */
  lemma TickStarts(c: Cfg, dev: Device, busy: bool)
    requires LaunchInv(c.s.cp, c.s.io.log, c.h)
    ensures var d := StepCfg(c, Clock(busy), dev);
      && Starts(d.s.io.log) == Launches(d.h.executed) + Launches(d.h.walked)
      && Starts(c.s.io.log) <= Starts(d.s.io.log) <= Starts(c.s.io.log) + 1
  {
    if Enabled(c.s.cp) {
      var e := TickEngine(c.s, dev);
      EngineLaunch(c.s, dev);
      PulseStarts(e, busy);
      ObserveParts(c, dev, busy);
      LaunchesObserved(c.s, e.cp, c.h);
      LaunchHistory(c.s.cp, TickLaunch(e, busy).cp, ObserveEngine(c.s, e.cp, c.h), busy);
    }
  }

  /** One step of the launch FSM, after the engine may have started it. */
  lemma KernelKeeps(cp: Cp, e: Sys, h: History, busy: bool)
    requires KernelInv(cp, Starts(e.io.log), h)
    requires e.cp.launch == cp.launch || (cp.launch == LIdle && e.cp.launch == PulseStart)
    ensures var t := TickLaunch(e, busy); KernelInv(t.cp, Starts(t.io.log), ObserveLaunch(cp, t.cp, h, busy))
  {
    PulseStarts(e, busy);
    if e.cp.launch == WaitDrain && !busy {
      DrainedAfter(h.samples);
    }
  }

  lemma TickKeepsLaunch(c: Cfg, dev: Device, busy: bool)
    requires LaunchInv(c.s.cp, c.s.io.log, c.h)
    ensures var d := StepCfg(c, Clock(busy), dev); LaunchInv(d.s.cp, d.s.io.log, d.h)
  {
    if Enabled(c.s.cp) {
      var e := TickEngine(c.s, dev);
      TickStarts(c, dev, busy);
      EngineLaunch(c.s, dev);
      ObserveParts(c, dev, busy);
      LaunchFrame(e, busy);
      KernelKeeps(c.s.cp, e, ObserveEngine(c.s, e.cp, c.h), busy);
    }
  }

  lemma HostKeepsLaunch(c: Cfg, a: Action, dev: Device)
    requires LaunchInv(c.s.cp, c.s.io.log, c.h) && a.Host?
    ensures var d := StepCfg(c, a, dev); LaunchInv(d.s.cp, d.s.io.log, d.h)
  {
  }

  /** Launch safety over every run: each launch executed from the ring or walked in a bundle pulses
      start once, only when all earlier kernels have drained; each drained kernel was seen busy and
      later idle, and the engine waits in between. */
  lemma {:induction false} LaunchesDrain(c: Cfg, acts: seq<Action>, dev: Device)
    requires LaunchInv(c.s.cp, c.s.io.log, c.h)
    ensures var d := Run(c, acts, dev); LaunchInv(d.s.cp, d.s.io.log, d.h)
    decreases |acts|
  {
    if acts != [] {
      if acts[0].Clock? {
        TickKeepsLaunch(c, dev, acts[0].busy);
      } else {
        HostKeepsLaunch(c, acts[0], dev);
      }
      LaunchesDrain(StepCfg(c, acts[0], dev), acts[1..], dev);
    }
  }

  /** A tick that pulses start, or that moves past a launch, finds every earlier kernel drained. */
  lemma OneKernelAtATime(c: Cfg, dev: Device, busy: bool)
    requires LaunchInv(c.s.cp, c.s.io.log, c.h)
    ensures var d := Tick(c.s, dev, busy);
      Starts(d.io.log) != Starts(c.s.io.log)
      || (c.s.cp.eng == WaitDone && d.cp.eng != WaitDone)
      || (c.s.cp.eng == DrawLaunchWait && d.cp.eng != DrawLaunchWait)
      ==> c.s.cp.launch == LIdle && Starts(c.s.io.log) == |c.h.drained| && Starts(d.io.log) <= Starts(c.s.io.log) + 1
  {
    if Enabled(c.s.cp) {
      EngineLaunch(c.s, dev);
      StartsAppend(TickEngine(c.s, dev).io.log, [Start]);
    }
  }

  lemma FreshInv(c: Cfg, stream: seq<seq<byte>>)
    requires Fresh(c) && c.s.cp.q.tail <= LINE * |stream|
    ensures RingInv(c.s.cp, c.h, stream) && LaunchInv(c.s.cp, c.s.io.log, c.h)
  {
  }

  // ----- progress -----

  /** A tick can only wait on the kernel or on an event counter. */
  predicate Waiting(s: Sys, busy: bool) {
    || (s.cp.launch == WaitBusy && !busy)
    || (s.cp.launch == WaitDrain && busy)
    || (s.cp.eng == Bid && !s.cp.curIsLaunch && s.cp.cur.opcode == OP_EVENT_WAIT && !WaitSatisfied(s.mem, s.cp.cur))
  }

  function LinesLeft(q: Queue): nat { if q.head < q.tail then (q.tail - q.head) / LINE else 0 }

  function CmdsLeft(cl: Line): nat {
    if !cl.loaded then MAX_CMDS + 1 else if cl.slot < cl.count then cl.count - cl.slot else 0
  }

  function StepsLeft(cp: Cp): nat {
    match cp.eng
    case Idle | Decode | Bid => MAX_STEPS + 1
    case DrawStep | DrawLaunchWait => if cp.draw.step < cp.draw.num then cp.draw.num - cp.draw.step else 0
    case WaitDone | Retire => 0
  }

  function Phase(cp: Cp): nat {
    match cp.eng
    case Idle => 6
    case Decode => 5
    case Bid | DrawStep => 4
    case WaitDone | DrawLaunchWait => if cp.launch == WaitBusy then 3 else if cp.launch == WaitDrain then 2 else 1
    case Retire => 0
  }

  /** Lines left, commands left in the line, draw steps left and FSM phase, most significant first. */
  function Rank(cp: Cp): nat {
    ((LinesLeft(cp.q) * (MAX_CMDS + 2) + CmdsLeft(cp.cl)) * (MAX_STEPS + 2) + StepsLeft(cp)) * 7 + Phase(cp)
  }

  ghost predicate ProgressInv(cp: Cp) {
    && cp.q.tail % LINE == 0 && cp.q.head % LINE == 0 && cp.q.tail < U64
    && (cp.cl.loaded ==> cp.q.head < cp.q.tail && cp.cl.count <= MAX_CMDS)
    && (cp.eng != Idle ==> cp.cl.loaded && cp.cl.slot < cp.cl.count)
    && cp.launch != PulseStart && (cp.launch != LIdle ==> cp.eng == DrawLaunchWait || cp.eng == WaitDone)
    && (cp.eng == WaitDone ==> cp.curIsLaunch) && DrawInv(cp)
  }

  /** The invariants of every run with an aligned tail give what progress needs. */
  lemma RunsProgress(cp: Cp, log: seq<Hook>, h: History, stream: seq<seq<byte>>)
    requires RingInv(cp, h, stream) && LaunchInv(cp, log, h) && cp.q.tail % LINE == 0 && cp.q.tail < U64
    ensures ProgressInv(cp)
  {
  }

  lemma RankOrder(a: Cp, b: Cp)
    requires CmdsLeft(a.cl) <= MAX_CMDS + 1 && StepsLeft(a) <= MAX_STEPS + 1
    requires || LinesLeft(a.q) < LinesLeft(b.q)
             || (LinesLeft(a.q) == LinesLeft(b.q) && CmdsLeft(a.cl) < CmdsLeft(b.cl))
             || (a.q == b.q && a.cl == b.cl && StepsLeft(a) < StepsLeft(b))
             || (a.q == b.q && a.cl == b.cl && StepsLeft(a) == StepsLeft(b) && Phase(a) < Phase(b))
    ensures Rank(a) < Rank(b)
  {
  }

  ghost predicate Lower(a: Cp, b: Cp) { ProgressInv(a) && Rank(a) < Rank(b) }

  lemma IdleLowers(s: Sys)
    requires ProgressInv(s.cp) && s.cp.eng == Idle && (s.cp.q.head < s.cp.q.tail || s.cp.cl.loaded)
    ensures Lower(LoadNext(Fetch(s.cp, s.mem)), s.cp)
  {
    NextLine(s.cp.q.head, s.cp.q.tail);
    RankOrder(LoadNext(Fetch(s.cp, s.mem)), s.cp);
  }

  lemma BidLowers(s: Sys, dev: Device, busy: bool)
    requires ProgressInv(s.cp) && s.cp.eng == Bid && !Waiting(s, busy)
    ensures Lower(TickLaunch(BidTick(s, dev), busy).cp, s.cp)
  {
    RankOrder(TickLaunch(BidTick(s, dev), busy).cp, s.cp);
  }

  lemma DrawLowers(s: Sys, dev: Device, busy: bool)
    requires ProgressInv(s.cp) && s.cp.eng == DrawStep
    ensures Lower(TickLaunch(DrawTick(s, dev), busy).cp, s.cp)
  {
    RankOrder(TickLaunch(DrawTick(s, dev), busy).cp, s.cp);
  }

  lemma OtherLowers(s: Sys, dev: Device, busy: bool)
    requires ProgressInv(s.cp) && s.cp.eng in {Decode, WaitDone, DrawLaunchWait, Retire} && !Waiting(s, busy)
    ensures Lower(TickLaunch(TickEngine(s, dev), busy).cp, s.cp)
  {
    RankOrder(TickLaunch(TickEngine(s, dev), busy).cp, s.cp);
  }

  /** A tick that is not waiting lowers the rank. */
  lemma TickLowersRank(s: Sys, dev: Device, busy: bool)
    requires ProgressInv(s.cp) && Busy(s.cp) && !Waiting(s, busy)
    ensures Lower(Tick(s, dev, busy).cp, s.cp)
  {
    if s.cp.eng == Idle {
      IdleLowers(s);
    } else if s.cp.eng == Bid {
      BidLowers(s, dev, busy);
    } else if s.cp.eng == DrawStep {
      DrawLowers(s, dev, busy);
    } else {
      OtherLowers(s, dev, busy);
    }
  }

  /** A waiting tick, and a tick of an enabled processor with nothing to do, changes only the
      cycle counter. */
  lemma IdleTick(s: Sys, dev: Device, busy: bool)
    requires !Busy(s.cp) || (ProgressInv(s.cp) && Waiting(s, busy))
    ensures Tick(s, dev, busy) == s.(cycle := (s.cycle + 1) % U64)
  {
  }

  lemma {:induction false} StaysIdle(c: Cfg, acts: seq<Action>, dev: Device)
    requires !Busy(c.s.cp) && forall k | 0 <= k < |acts| :: acts[k].Clock?
    ensures !Busy(Run(c, acts, dev).s.cp)
    decreases |acts|
  {
    if acts != [] {
      IdleTick(c.s, dev, acts[0].busy);
      StaysIdle(StepCfg(c, acts[0], dev), acts[1..], dev);
    }
  }

  ghost predicate NeverWaits(c: Cfg, acts: seq<Action>, dev: Device)
    decreases |acts|
  {
    acts != [] ==>
      && acts[0].Clock? && !Waiting(c.s, acts[0].busy)
      && NeverWaits(StepCfg(c, acts[0], dev), acts[1..], dev)
  }

  lemma {:induction false} NeverWaitsClocks(c: Cfg, acts: seq<Action>, dev: Device)
    requires NeverWaits(c, acts, dev)
    ensures forall k | 0 <= k < |acts| :: acts[k].Clock?
    decreases |acts|
  {
    if acts != [] {
      NeverWaitsClocks(StepCfg(c, acts[0], dev), acts[1..], dev);
      assert forall k | 0 < k < |acts| :: acts[k] == acts[1..][k - 1];
    }
  }

  /** With a quiet host and no waiting tick, the processor drains within `Rank` ticks. */
  lemma {:induction false} Drains(c: Cfg, acts: seq<Action>, dev: Device)
    requires ProgressInv(c.s.cp) && |acts| >= Rank(c.s.cp) && NeverWaits(c, acts, dev)
    ensures !Busy(Run(c, acts, dev).s.cp)
    decreases |acts|
  {
    if !Busy(c.s.cp) {
      NeverWaitsClocks(c, acts, dev);
      StaysIdle(c, acts, dev);
    } else if acts != [] {
      TickLowersRank(c.s, dev, acts[0].busy);
      Drains(StepCfg(c, acts[0], dev), acts[1..], dev);
    }
  }

  /** In particular, from any state that a run over intact lines reaches. */
  lemma DrainsFromRun(c: Cfg, before: seq<Action>, acts: seq<Action>, dev: Device, stream: seq<seq<byte>>)
    requires RingInv(c.s.cp, c.h, stream) && LaunchInv(c.s.cp, c.s.io.log, c.h) && RunIntact(c, before, dev, stream)
    requires var d := Run(c, before, dev); |acts| >= Rank(d.s.cp) && NeverWaits(d, acts, dev)
    ensures !Busy(Run(Run(c, before, dev), acts, dev).s.cp)
  {
    var d := Run(c, before, dev);
    RetiresInRingOrder(c, before, dev, stream);
    LaunchesDrain(c, before, dev);
    IntactAtEnd(c, before, dev, stream);
    RunsProgress(d.s.cp, d.s.io.log, d.h, stream);
    Drains(d, acts, dev);
  }

  lemma {:induction false} IntactAtEnd(c: Cfg, acts: seq<Action>, dev: Device, stream: seq<seq<byte>>)
    requires RunIntact(c, acts, dev, stream)
    ensures Intact(Run(c, acts, dev).s, stream)
    decreases |acts|
  {
    if acts != [] {
      IntactAtEnd(StepCfg(c, acts[0], dev), acts[1..], dev, stream);
    }
  }
}
