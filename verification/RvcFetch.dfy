// The fetch stage with compressed instructions: whole cache lines come back from the instruction
// cache, and a per-warp state machine cuts 16- and 32-bit instructions out of their aligned words,
// fetching a second word for a 32-bit instruction that starts in the upper half of the first.
// Memory is a sequence of aligned words, each by its two halves: nothing here looks at less than
// a half, and an address is a word's place in it.
module RvcFetch {
  import opened Basics

  datatype Word = Word(low: nat, high: nat)

  /** A 2-byte aligned program counter: an aligned word and the half of it. */
  datatype Pc = Pc(word: nat, upper: bool)

  /** The stash of one warp: the low half of an instruction whose high half is still to come. */
  datatype Slot = Slot(needsSecond: bool, lowHalf: nat, instPc: Pc)

  const EMPTY := Slot(false, 0, Pc(0, false))

  datatype Trace = Trace(wid: nat, pc: Pc)

  /** A request at the instruction cache, with the word address it was sent for. */
  datatype Req = Req(trace: Trace, addr: nat)

  datatype Outcome = Emit(code: nat) | Again

  datatype Fetch = Fetch(slots: seq<Slot>, refetch: seq<Trace>, latch: seq<Trace>, pending: seq<Req>)

  // ----- the instruction in memory, by the length rule of the ISA -----

  /** The offset of a word in its line of `block` words. */
  function Off(a: nat, block: nat): (o: nat)
    requires block > 0
    ensures o < block && o <= a
    decreases a
  {
    if a < block then a else Off(a - block, block)
  }

  /** Memory is whole lines of 16-bit halves. */
  ghost predicate Shape(mem: seq<Word>, block: nat) {
    && 0 < block <= |mem| && Off(|mem|, block) == 0
    && forall i | 0 <= i < |mem| :: mem[i].low < 65536 && mem[i].high < 65536
  }

  /** The word after `a`; addresses wrap at the end of memory. */
  function After(a: nat, space: nat): (n: nat)
    requires a < space
    ensures n < space
  {
    if a + 1 < space then a + 1 else 0
  }

  function HalfOf(w: Word, upper: bool): nat {
    if upper then w.high else w.low
  }

  function Half(mem: seq<Word>, pc: Pc): nat
    requires pc.word < |mem|
  {
    HalfOf(mem[pc.word], pc.upper)
  }

  function Join(low: nat, high: nat): nat {
    low + 65536 * high
  }

  function NextHalf(pc: Pc, space: nat): (n: Pc)
    requires pc.word < space
    ensures n.word < space
  {
    if pc.upper then Pc(After(pc.word, space), false) else Pc(pc.word, true)
  }

  /** A half whose two low bits are not both set is an instruction; any other begins one of 32 bits. */
  predicate Compressed(half: nat) {
    half % 4 != 3
  }

  /** The rule by bits: 16 bits unless the two low ones are 1. */
  lemma LengthRule(half: nat, rest: nat, b0: nat, b1: nat)
    requires b0 <= 1 && b1 <= 1 && half == 4 * rest + 2 * b1 + b0
    ensures Compressed(half) <==> !(b0 == 1 && b1 == 1)
  {
  }

  function Instr(mem: seq<Word>, pc: Pc): nat
    requires pc.word < |mem|
  {
    var low := Half(mem, pc);
    if Compressed(low) then low else Join(low, Half(mem, NextHalf(pc, |mem|)))
  }

  // ----- the state machine -----

  function FetchAddr(s: Slot, pc: Pc, space: nat): nat
    requires s.needsSecond ==> s.instPc.word < space
  {
    if s.needsSecond then After(s.instPc.word, space) else pc.word
  }

  function Classify(s: Slot, pc: Pc, word: Word): (Slot, Outcome) {
    if s.needsSecond then (EMPTY, Emit(Join(s.lowHalf, word.low)))
    else
      var half := HalfOf(word, pc.upper);
      if Compressed(half) then (s, Emit(half))
      else if !pc.upper then (s, Emit(Join(word.low, word.high)))
      else (Slot(true, word.high, pc), Again)
  }

  ghost predicate Readable(s: Slot, line: seq<Word>, space: nat) {
    |line| > 0 && (s.needsSecond ==> s.instPc.word < space)
  }

  function OnRsp(s: Slot, pc: Pc, line: seq<Word>, space: nat): (Slot, Outcome)
    requires Readable(s, line, space)
  {
    Classify(s, pc, line[Off(FetchAddr(s, pc, space), |line|)])
  }

  /** The line the cache returns for an address. */
  function Line(mem: seq<Word>, block: nat, addr: nat): (line: seq<Word>)
    requires 0 < block && addr - Off(addr, block) + block <= |mem|
    ensures |line| == block
  {
    mem[addr - Off(addr, block)..addr - Off(addr, block) + block]
  }

  ghost predicate Served(f: Fetch, mem: seq<Word>, block: nat, i: nat) {
    && 0 < block && i < |f.pending| && f.pending[i].trace.wid < |f.slots|
    && var r := f.pending[i];
       && r.addr - Off(r.addr, block) + block <= |mem|
       && Readable(f.slots[r.trace.wid], Line(mem, block, r.addr), |mem|)
  }

  function Rsp(f: Fetch, mem: seq<Word>, block: nat, i: nat): (Slot, Outcome)
    requires Served(f, mem, block, i)
  {
    var r := f.pending[i];
    OnRsp(f.slots[r.trace.wid], r.trace.pc, Line(mem, block, r.addr), |mem|)
  }

  /** Handling the response to request `i`; a trace that is emitted but finds the decode latch full
      (`accept` false) leaves its response in place, to be handled again. */
  function Respond(f: Fetch, mem: seq<Word>, block: nat, i: nat, accept: bool): Fetch
    requires Served(f, mem, block, i)
  {
    var r, o := f.pending[i], Rsp(f, mem, block, i);
    var g := f.(slots := f.slots[r.trace.wid := o.0],
                refetch := if o.1.Again? then f.refetch + [r.trace] else f.refetch);
    if o.1.Again? || accept then g.(pending := Without(f.pending, i)) else g
  }

  /** Sending the next request; second words go first. */
  function Send(f: Fetch, space: nat): Fetch
    requires f.refetch != [] ==> f.refetch[0].wid < |f.slots| && f.slots[f.refetch[0].wid].instPc.word < space
  {
    if f.refetch != [] then
      var t := f.refetch[0];
      f.(refetch := f.refetch[1..], pending := f.pending + [Req(t, After(f.slots[t.wid].instPc.word, space))])
    else if f.latch != [] then
      f.(latch := f.latch[1..], pending := f.pending + [Req(f.latch[0], f.latch[0].pc.word)])
    else f
  }

  // ----- reading words back out of lines -----

  lemma {:induction false} OffAdd(a: nat, d: nat, block: nat)
    requires block > 0 && Off(a, block) + d < block
    ensures Off(a + d, block) == Off(a, block) + d
    decreases a
  {
    if a >= block {
      OffAdd(a - block, d, block);
    }
  }

  lemma {:induction false} OffEnd(a: nat, block: nat)
    requires block > 0 && Off(a, block) + 1 == block
    ensures Off(a + 1, block) == 0
    decreases a
  {
    if a >= block {
      OffEnd(a - block, block);
    }
  }

  lemma {:induction false} LineFits(a: nat, space: nat, block: nat)
    requires block > 0 && a < space && Off(space, block) == 0
    ensures a - Off(a, block) + block <= space
    decreases a
  {
    if a >= block {
      LineFits(a - block, space - block, block);
    }
  }

  /** Whether the word at `a` and the next are in different lines. */
  predicate LineEnd(a: nat, block: nat)
    requires 0 < block
  {
    Off(a, block) + 1 == block
  }

  /** The word after `a` is in the same line, or begins one. */
  lemma AfterPlace(mem: seq<Word>, block: nat, a: nat)
    requires Shape(mem, block) && a < |mem|
    ensures var b := After(a, |mem|);
      && b - Off(b, block) + block <= |mem|
      && (if LineEnd(a, block) then Off(b, block) == 0 else b - Off(b, block) == a - Off(a, block))
  {
    LineFits(a, |mem|, block);
    LineFits(After(a, |mem|), |mem|, block);
    if LineEnd(a, block) {
      OffEnd(a, block);
    } else {
      OffAdd(a, 1, block);
    }
  }

  // ----- one response -----

  /** The first word: a complete instruction is emitted as it is in memory; otherwise its low half
      is stashed. */
  lemma FirstResponse(mem: seq<Word>, block: nat, pc: Pc)
    requires Shape(mem, block) && pc.word < |mem|
    ensures pc.word - Off(pc.word, block) + block <= |mem|
    ensures OnRsp(EMPTY, pc, Line(mem, block, pc.word), |mem|)
      == if pc.upper && !Compressed(Half(mem, pc)) then (Slot(true, Half(mem, pc), pc), Again)
         else (EMPTY, Emit(Instr(mem, pc)))
  {
    LineFits(pc.word, |mem|, block);
    assert Line(mem, block, pc.word)[Off(pc.word, block)] == mem[pc.word];
  }

  /** The second word completes the instruction. */
  lemma SecondResponse(mem: seq<Word>, block: nat, pc: Pc, low: nat)
    requires Shape(mem, block) && pc.word < |mem| && pc.upper
    ensures var b := After(pc.word, |mem|); b - Off(b, block) + block <= |mem|
    ensures OnRsp(Slot(true, low, pc), pc, Line(mem, block, After(pc.word, |mem|)), |mem|)
      == (EMPTY, Emit(Join(low, Half(mem, NextHalf(pc, |mem|)))))
  {
    var b := After(pc.word, |mem|);
    LineFits(b, |mem|, block);
    assert Line(mem, block, b)[Off(b, block)] == mem[b];
  }

  /** What stands in the second word's line at the place of the first word: the first word itself,
      or, at the end of a line, the last word of the next line. */
  function Echo(mem: seq<Word>, block: nat, a: nat): (w: Word)
    requires Shape(mem, block) && a < |mem|
  {
    AfterPlace(mem, block, a);
    if LineEnd(a, block) then mem[After(a, |mem|) + block - 1] else mem[a]
  }

  /** A completed instruction whose emission was refused is handled again with the stash gone: the
      machine takes the second word's line for the first word's. */
  lemma Replayed(mem: seq<Word>, block: nat, pc: Pc)
    requires Shape(mem, block) && pc.word < |mem| && pc.upper
    ensures var b := After(pc.word, |mem|); b - Off(b, block) + block <= |mem|
    ensures OnRsp(EMPTY, pc, Line(mem, block, After(pc.word, |mem|)), |mem|)
      == var half := Echo(mem, block, pc.word).high;
         if Compressed(half) then (EMPTY, Emit(half)) else (Slot(true, half, pc), Again)
  {
    var a, b := pc.word, After(pc.word, |mem|);
    AfterPlace(mem, block, a);
    assert Line(mem, block, b)[Off(a, block)] == Echo(mem, block, a);
  }

  /** What comes out when a line is handled again, and with it the second word it may ask for. */
  function HandledAgain(pc: Pc, line: seq<Word>, space: nat): Outcome
    requires |line| > 0 && pc.word < space
  {
    var o := OnRsp(EMPTY, pc, line, space);
    if o.1.Again? then OnRsp(o.0, pc, line, space).1 else o.1
  }

  lemma CodeExact(low: nat, half: nat, high: nat)
    requires !Compressed(low) && low < 65536 && half < 65536
    ensures (if Compressed(half) then half else Join(half, high)) == Join(low, high) <==> half == low
  {}

  /** The completion of the instruction at `pc` may be refused: the echo is its own low half. */
  predicate Harmless(mem: seq<Word>, block: nat, pc: Pc)
    requires Shape(mem, block) && pc.word < |mem| && pc.upper
  {
    Echo(mem, block, pc.word).high == Half(mem, pc)
  }

  /** Refusing the completion of a 32-bit instruction ends in the right code exactly when it is
      harmless. */
  lemma RefusalExact(mem: seq<Word>, block: nat, pc: Pc)
    requires Shape(mem, block) && pc.word < |mem| && pc.upper && !Compressed(Half(mem, pc))
    ensures var b := After(pc.word, |mem|); b - Off(b, block) + block <= |mem|
    ensures HandledAgain(pc, Line(mem, block, After(pc.word, |mem|)), |mem|) == Emit(Instr(mem, pc))
      <==> Harmless(mem, block, pc)
  {
    var half, high := Echo(mem, block, pc.word).high, Half(mem, NextHalf(pc, |mem|));
    Replayed(mem, block, pc);
    SecondResponse(mem, block, pc, half);
    CodeExact(Half(mem, pc), half, high);
  }

  /** So an instruction inside one line survives every refusal, and one across two lines only if
      the next line ends in the same half. */
  lemma HarmlessRefusal(mem: seq<Word>, block: nat, pc: Pc)
    requires Shape(mem, block) && pc.word < |mem| && pc.upper
    ensures var b := After(pc.word, |mem|); b - Off(b, block) + block <= |mem|
    ensures Harmless(mem, block, pc) <==>
      (LineEnd(pc.word, block) ==> Line(mem, block, After(pc.word, |mem|))[block - 1].high == mem[pc.word].high)
  {
    AfterPlace(mem, block, pc.word);
  }

  /** A refusal that does harm, with lines of two words: the high half of the next line's last word,
      0, comes out as the code. */
  lemma RefusedAcrossLines()
    ensures var mem, pc := [Word(1, 1), Word(0, 3), Word(5, 1), Word(1, 0)], Pc(1, true);
      && Shape(mem, 2) && !Compressed(Half(mem, pc)) && Instr(mem, pc) == 5 * 65536 + 3
      && HandledAgain(pc, Line(mem, 2, After(1, |mem|)), |mem|) == Emit(0)
  {
    var mem, pc := [Word(1, 1), Word(0, 3), Word(5, 1), Word(1, 0)], Pc(1, true);
    assert Off(4, 2) == Off(2, 2) == Off(0, 2) == 0 && Off(1, 2) == 1;
    assert Line(mem, 2, 2) == [Word(5, 1), Word(1, 0)];
  }

  // ----- runs -----

  /** Where a warp's outstanding fetch is; `Replaying` is a completion whose emission was refused. */
  datatype Stage =
    | Idle
    | Latched(pc: Pc)
    | Fetching(pc: Pc)
    | Queued(pc: Pc)
    | Completing(pc: Pc)
    | Replaying(pc: Pc)

  /** The machine and, per warp, the fetches asked for and the codes emitted. */
  datatype Sim = Sim(f: Fetch, stage: seq<Stage>, asked: seq<seq<Pc>>, got: seq<seq<(Pc, nat)>>)

  datatype Act = Schedule(wid: nat, pc: Pc) | Answer(i: nat, accept: bool) | Request(ok: bool)

  /** A 32-bit instruction in the upper half of a word. */
  predicate Split(mem: seq<Word>, pc: Pc) {
    pc.word < |mem| && pc.upper && !Compressed(Half(mem, pc))
  }

  /** A warp has one fetch at a time; a completion may be refused only where that is harmless. */
  ghost predicate Legal(s: Sim, mem: seq<Word>, block: nat, a: Act) {
    match a
    case Schedule(wid, pc) => wid < |s.stage| && s.stage[wid].Idle? && pc.word < |mem|
    case Request(_) => true
    case Answer(i, accept) =>
      && i < |s.f.pending|
      && var t := s.f.pending[i].trace;
         !accept && t.wid < |s.stage| && s.stage[t.wid].Completing? ==>
           Shape(mem, block) && t.pc.word < |mem| && t.pc.upper && Harmless(mem, block, t.pc)
  }

  ghost predicate LatchInv(latch: seq<Trace>, stage: seq<Stage>) {
    && (forall i | 0 <= i < |latch| :: latch[i].wid < |stage| && stage[latch[i].wid] == Latched(latch[i].pc))
    && forall i, j | 0 <= i < j < |latch| :: latch[i].wid != latch[j].wid
  }

  ghost predicate RefetchInv(refetch: seq<Trace>, stage: seq<Stage>) {
    && (forall i | 0 <= i < |refetch| :: refetch[i].wid < |stage| && stage[refetch[i].wid] == Queued(refetch[i].pc))
    && forall i, j | 0 <= i < j < |refetch| :: refetch[i].wid != refetch[j].wid
  }

  ghost predicate Sent(r: Req, stage: seq<Stage>, space: nat) {
    && r.trace.wid < |stage| && r.trace.pc.word < space
    && var pc := r.trace.pc;
       || (stage[r.trace.wid] == Fetching(pc) && r.addr == pc.word)
       || ((stage[r.trace.wid] == Completing(pc) || stage[r.trace.wid] == Replaying(pc)) && r.addr == After(pc.word, space))
  }

  ghost predicate PendingInv(pending: seq<Req>, stage: seq<Stage>, space: nat) {
    && (forall i | 0 <= i < |pending| :: Sent(pending[i], stage, space))
    && forall i, j | 0 <= i < j < |pending| :: pending[i].trace.wid != pending[j].trace.wid
  }

  /** The stash holds the right low half exactly while a second word is awaited. */
  ghost predicate SlotInv(mem: seq<Word>, block: nat, slot: Slot, stage: Stage)
    requires Shape(mem, block)
  {
    && (!stage.Idle? ==> stage.pc.word < |mem|)
    && (if stage.Queued? || stage.Completing? then Split(mem, stage.pc) && slot == Slot(true, Half(mem, stage.pc), stage.pc)
        else slot == EMPTY)
    && (stage.Replaying? ==> Split(mem, stage.pc) && Harmless(mem, block, stage.pc))
  }

  function Outstanding(stage: Stage): seq<Pc> {
    if stage.Idle? then [] else [stage.pc]
  }

  function Pcs(got: seq<(Pc, nat)>): seq<Pc> {
    if got == [] then [] else Pcs(got[..|got| - 1]) + [got[|got| - 1].0]
  }

  /** The codes are the instructions at their addresses. */
  ghost predicate Right(mem: seq<Word>, got: seq<(Pc, nat)>) {
    forall i | 0 <= i < |got| :: got[i].0.word < |mem| && got[i].1 == Instr(mem, got[i].0)
  }

  /** Every fetch asked for has come out once, in order and with the instruction at its address,
      but for the one outstanding. */
  ghost predicate WarpInv(mem: seq<Word>, stage: Stage, asked: seq<Pc>, got: seq<(Pc, nat)>)
  {
    asked == Pcs(got) + Outstanding(stage) && Right(mem, got)
  }

  function Busy(stage: seq<Stage>): nat {
    if stage == [] then 0 else Busy(stage[..|stage| - 1]) + (if stage[|stage| - 1].Idle? then 0 else 1)
  }

  ghost predicate QueueInv(latch: seq<Trace>, refetch: seq<Trace>, pending: seq<Req>, stage: seq<Stage>, space: nat) {
    && LatchInv(latch, stage) && RefetchInv(refetch, stage) && PendingInv(pending, stage, space)
    && Busy(stage) == |latch| + |refetch| + |pending|
  }

  ghost predicate SlotsInv(mem: seq<Word>, block: nat, slots: seq<Slot>, stage: seq<Stage>)
    requires Shape(mem, block)
  {
    |slots| == |stage| && forall w | 0 <= w < |stage| :: SlotInv(mem, block, slots[w], stage[w])
  }

  ghost predicate WarpsInv(mem: seq<Word>, stage: seq<Stage>, asked: seq<seq<Pc>>, got: seq<seq<(Pc, nat)>>) {
    |stage| == |asked| == |got| && forall w | 0 <= w < |stage| :: WarpInv(mem, stage[w], asked[w], got[w])
  }

  ghost predicate Inv(s: Sim, mem: seq<Word>, block: nat) {
    && Shape(mem, block) && SlotsInv(mem, block, s.f.slots, s.stage) && WarpsInv(mem, s.stage, s.asked, s.got)
    && QueueInv(s.f.latch, s.f.refetch, s.f.pending, s.stage, |mem|)
  }

  lemma {:induction false} BusySet(stage: seq<Stage>, w: nat, st: Stage)
    requires w < |stage|
    ensures Busy(stage[w := st]) == Busy(stage) - |Outstanding(stage[w])| + |Outstanding(st)|
    decreases |stage|
  {
    var n := |stage| - 1;
    if w < n {
      BusySet(stage[..n], w, st);
      assert stage[w := st][..n] == stage[..n][w := st];
    } else {
      assert stage[w := st][..n] == stage[..n];
    }
  }

  lemma {:induction false} NoneBusy(stage: seq<Stage>, w: nat)
    requires w < |stage| && Busy(stage) == 0
    ensures stage[w].Idle?
    decreases |stage|
  {
    if w < |stage| - 1 {
      NoneBusy(stage[..|stage| - 1], w);
    }
  }

  // A warp's stage changes: queues it is not in do not notice.

  lemma LatchSet(latch: seq<Trace>, stage: seq<Stage>, w: nat, st: Stage)
    requires LatchInv(latch, stage) && w < |stage| && !stage[w].Latched?
    ensures LatchInv(latch, stage[w := st])
  {}

  lemma RefetchSet(refetch: seq<Trace>, stage: seq<Stage>, w: nat, st: Stage)
    requires RefetchInv(refetch, stage) && w < |stage| && !stage[w].Queued?
    ensures RefetchInv(refetch, stage[w := st])
  {}

  predicate AtCache(stage: Stage) {
    stage.Fetching? || stage.Completing? || stage.Replaying?
  }

  lemma PendingSet(pending: seq<Req>, stage: seq<Stage>, space: nat, w: nat, st: Stage)
    requires PendingInv(pending, stage, space) && w < |stage| && !AtCache(stage[w])
    ensures PendingInv(pending, stage[w := st], space)
  {
    forall i | 0 <= i < |pending| ensures Sent(pending[i], stage[w := st], space) {
      assert Sent(pending[i], stage, space);
    }
  }

  lemma PendingAdd(pending: seq<Req>, stage: seq<Stage>, space: nat, r: Req, st: Stage)
    requires PendingInv(pending, stage, space) && r.trace.wid < |stage| && !AtCache(stage[r.trace.wid])
    requires Sent(r, stage[r.trace.wid := st], space)
    ensures PendingInv(pending + [r], stage[r.trace.wid := st], space)
  {
    PendingSet(pending, stage, space, r.trace.wid, st);
    forall i | 0 <= i < |pending| ensures pending[i].trace.wid != r.trace.wid {
      assert Sent(pending[i], stage, space);
    }
  }

  lemma PendingDrop(pending: seq<Req>, stage: seq<Stage>, space: nat, i: nat, st: Stage)
    requires PendingInv(pending, stage, space) && i < |pending|
    ensures pending[i].trace.wid < |stage|
    ensures PendingInv(Without(pending, i), stage[pending[i].trace.wid := st], space)
  {
    var w, rest := pending[i].trace.wid, Without(pending, i);
    assert Sent(pending[i], stage, space);
    forall j | 0 <= j < |rest| ensures Sent(rest[j], stage[w := st], space) {
      var k := if j < i then j else j + 1;
      assert rest[j] == pending[k] && Sent(pending[k], stage, space);
    }
    forall j, k | 0 <= j < k < |rest| ensures rest[j].trace.wid != rest[k].trace.wid {
      assert rest[j] == pending[if j < i then j else j + 1] && rest[k] == pending[if k < i then k else k + 1];
    }
  }

  lemma PendingReplay(pending: seq<Req>, stage: seq<Stage>, space: nat, i: nat)
    requires PendingInv(pending, stage, space) && i < |pending|
    ensures pending[i].trace.wid < |stage|
    ensures var w := pending[i].trace.wid;
      stage[w].Completing? ==> PendingInv(pending, stage[w := Replaying(stage[w].pc)], space)
  {
    assert Sent(pending[i], stage, space);
    var w := pending[i].trace.wid;
    if stage[w].Completing? {
      forall j | 0 <= j < |pending| ensures Sent(pending[j], stage[w := Replaying(stage[w].pc)], space) {
        assert Sent(pending[j], stage, space);
      }
    }
  }

  lemma SlotsSet(mem: seq<Word>, block: nat, slots: seq<Slot>, stage: seq<Stage>, w: nat, slot: Slot, st: Stage)
    requires Shape(mem, block) && SlotsInv(mem, block, slots, stage) && w < |stage| && SlotInv(mem, block, slot, st)
    ensures SlotsInv(mem, block, slots[w := slot], stage[w := st])
  {}

  lemma WarpsSet(mem: seq<Word>, stage: seq<Stage>, asked: seq<seq<Pc>>, got: seq<seq<(Pc, nat)>>,
                 w: nat, st: Stage, ask: seq<Pc>, get: seq<(Pc, nat)>)
    requires WarpsInv(mem, stage, asked, got) && w < |stage| && WarpInv(mem, st, ask, get)
    ensures WarpsInv(mem, stage[w := st], asked[w := ask], got[w := get])
  {}

  lemma QueueSchedule(latch: seq<Trace>, refetch: seq<Trace>, pending: seq<Req>, stage: seq<Stage>, space: nat, t: Trace)
    requires QueueInv(latch, refetch, pending, stage, space) && t.wid < |stage| && stage[t.wid].Idle?
    ensures QueueInv(latch + [t], refetch, pending, stage[t.wid := Latched(t.pc)], space)
  {
    var st := Latched(t.pc);
    LatchSet(latch, stage, t.wid, st);
    RefetchSet(refetch, stage, t.wid, st);
    PendingSet(pending, stage, space, t.wid, st);
    BusySet(stage, t.wid, st);
  }

  lemma RefetchPop(refetch: seq<Trace>, stage: seq<Stage>, st: Stage)
    requires RefetchInv(refetch, stage) && refetch != []
    ensures refetch[0].wid < |stage| && RefetchInv(refetch[1..], stage[refetch[0].wid := st])
  {}

  lemma LatchPop(latch: seq<Trace>, stage: seq<Stage>, st: Stage)
    requires LatchInv(latch, stage) && latch != []
    ensures latch[0].wid < |stage| && LatchInv(latch[1..], stage[latch[0].wid := st])
  {}

  lemma QueueSecond(latch: seq<Trace>, refetch: seq<Trace>, pending: seq<Req>, stage: seq<Stage>, space: nat)
    requires QueueInv(latch, refetch, pending, stage, space) && refetch != [] && refetch[0].pc.word < space
    ensures var t := refetch[0];
      && t.wid < |stage|
      && QueueInv(latch, refetch[1..], pending + [Req(t, After(t.pc.word, space))], stage[t.wid := Completing(t.pc)], space)
  {
    var t := refetch[0];
    var st := Completing(t.pc);
    LatchSet(latch, stage, t.wid, st);
    RefetchPop(refetch, stage, st);
    PendingAdd(pending, stage, space, Req(t, After(t.pc.word, space)), st);
    BusySet(stage, t.wid, st);
  }

  lemma QueueFirst(latch: seq<Trace>, refetch: seq<Trace>, pending: seq<Req>, stage: seq<Stage>, space: nat)
    requires QueueInv(latch, refetch, pending, stage, space) && latch != [] && latch[0].pc.word < space
    ensures var t := latch[0];
      && t.wid < |stage|
      && QueueInv(latch[1..], refetch, pending + [Req(t, t.pc.word)], stage[t.wid := Fetching(t.pc)], space)
  {
    var t := latch[0];
    var st := Fetching(t.pc);
    LatchPop(latch, stage, st);
    RefetchSet(refetch, stage, t.wid, st);
    PendingAdd(pending, stage, space, Req(t, t.pc.word), st);
    BusySet(stage, t.wid, st);
  }

  lemma RefetchPush(refetch: seq<Trace>, stage: seq<Stage>, t: Trace)
    requires RefetchInv(refetch, stage) && t.wid < |stage| && !stage[t.wid].Queued?
    ensures RefetchInv(refetch + [t], stage[t.wid := Queued(t.pc)])
  {
    RefetchSet(refetch, stage, t.wid, Queued(t.pc));
  }

  lemma QueueAnswer(latch: seq<Trace>, refetch: seq<Trace>, pending: seq<Req>, stage: seq<Stage>, space: nat,
                    i: nat, o: Outcome, accept: bool)
    requires QueueInv(latch, refetch, pending, stage, space) && i < |pending|
    ensures var t := pending[i].trace;
      && t.wid < |stage| && AtCache(stage[t.wid]) && stage[t.wid].pc == t.pc
      && QueueInv(latch, if o.Again? then refetch + [t] else refetch,
                  if o.Again? || accept then Without(pending, i) else pending,
                  stage[t.wid := NextStage(stage[t.wid], o, accept)], space)
  {
    var t := pending[i].trace;
    assert Sent(pending[i], stage, space);
    var st := NextStage(stage[t.wid], o, accept);
    LatchSet(latch, stage, t.wid, st);
    BusySet(stage, t.wid, st);
    if o.Again? {
      RefetchPush(refetch, stage, t);
      PendingDrop(pending, stage, space, i, st);
    } else {
      RefetchSet(refetch, stage, t.wid, st);
      if accept {
        PendingDrop(pending, stage, space, i, st);
      } else if stage[t.wid].Completing? {
        PendingReplay(pending, stage, space, i);
      } else {
        assert stage[t.wid := stage[t.wid]] == stage;
      }
    }
  }

  // ----- steps -----

  function Scheduled(s: Sim, wid: nat, pc: Pc): Sim
    requires wid < |s.stage| && wid < |s.asked|
  {
    Sim(s.f.(latch := s.f.latch + [Trace(wid, pc)]), s.stage[wid := Latched(pc)],
        s.asked[wid := s.asked[wid] + [pc]], s.got)
  }

  function NextStage(stage: Stage, o: Outcome, accept: bool): Stage {
    if stage.Idle? then stage
    else if o.Again? then Queued(stage.pc)
    else if accept then Idle
    else if stage.Completing? then Replaying(stage.pc)
    else stage
  }

  function Answered(s: Sim, mem: seq<Word>, block: nat, i: nat, accept: bool): Sim
    requires Served(s.f, mem, block, i) && |s.f.slots| == |s.stage| == |s.got|
  {
    var t, o := s.f.pending[i].trace, Rsp(s.f, mem, block, i).1;
    s.(f := Respond(s.f, mem, block, i, accept), stage := s.stage[t.wid := NextStage(s.stage[t.wid], o, accept)],
       got := if o.Emit? && accept then s.got[t.wid := s.got[t.wid] + [(t.pc, o.code)]] else s.got)
  }

  ghost predicate Sendable(s: Sim, space: nat) {
    && |s.f.slots| == |s.stage|
    && (s.f.refetch != [] ==> s.f.refetch[0].wid < |s.f.slots| && s.f.slots[s.f.refetch[0].wid].instPc.word < space)
    && (s.f.latch != [] ==> s.f.latch[0].wid < |s.stage|)
  }

  function Requested(s: Sim, space: nat): Sim
    requires Sendable(s, space)
  {
    var stage :=
      if s.f.refetch != [] then s.stage[s.f.refetch[0].wid := Completing(s.f.refetch[0].pc)]
      else if s.f.latch != [] then s.stage[s.f.latch[0].wid := Fetching(s.f.latch[0].pc)]
      else s.stage;
    s.(f := Send(s.f, space), stage := stage)
  }

  lemma ScheduleKeeps(s: Sim, mem: seq<Word>, block: nat, wid: nat, pc: Pc)
    requires Inv(s, mem, block) && wid < |s.stage| && s.stage[wid].Idle? && pc.word < |mem|
    ensures Inv(Scheduled(s, wid, pc), mem, block)
  {
    QueueSchedule(s.f.latch, s.f.refetch, s.f.pending, s.stage, |mem|, Trace(wid, pc));
    assert SlotInv(mem, block, s.f.slots[wid], s.stage[wid]);
    SlotsSet(mem, block, s.f.slots, s.stage, wid, EMPTY, Latched(pc));
    assert WarpInv(mem, s.stage[wid], s.asked[wid], s.got[wid]);
    WarpsSet(mem, s.stage, s.asked, s.got, wid, Latched(pc), s.asked[wid] + [pc], s.got[wid]);
    assert s.f.slots[wid := EMPTY] == s.f.slots && s.got[wid := s.got[wid]] == s.got;
  }

  /** A fetch that moves on keeps its warp's stash and histories. */
  lemma MovesOn(s: Sim, mem: seq<Word>, block: nat, w: nat, st: Stage)
    requires Inv(s, mem, block) && w < |s.stage| && !s.stage[w].Idle? && !st.Idle? && s.stage[w].pc == st.pc
    requires SlotInv(mem, block, s.f.slots[w], s.stage[w]) ==> SlotInv(mem, block, s.f.slots[w], st)
    ensures SlotsInv(mem, block, s.f.slots, s.stage[w := st]) && WarpsInv(mem, s.stage[w := st], s.asked, s.got)
  {
    SlotsSet(mem, block, s.f.slots, s.stage, w, s.f.slots[w], st);
    assert WarpInv(mem, s.stage[w], s.asked[w], s.got[w]);
    WarpsSet(mem, s.stage, s.asked, s.got, w, st, s.asked[w], s.got[w]);
    assert s.f.slots[w := s.f.slots[w]] == s.f.slots;
    assert s.got[w := s.got[w]] == s.got && s.asked[w := s.asked[w]] == s.asked;
  }

  lemma RequestKeeps(s: Sim, mem: seq<Word>, block: nat)
    requires Inv(s, mem, block)
    ensures Sendable(s, |mem|) && Inv(Requested(s, |mem|), mem, block)
  {
    var f := s.f;
    if f.refetch != [] {
      var t := f.refetch[0];
      assert SlotInv(mem, block, f.slots[t.wid], s.stage[t.wid]);
      QueueSecond(f.latch, f.refetch, f.pending, s.stage, |mem|);
      MovesOn(s, mem, block, t.wid, Completing(t.pc));
    } else if f.latch != [] {
      var t := f.latch[0];
      assert SlotInv(mem, block, f.slots[t.wid], s.stage[t.wid]);
      QueueFirst(f.latch, f.refetch, f.pending, s.stage, |mem|);
      MovesOn(s, mem, block, t.wid, Fetching(t.pc));
    }
  }

  /** A response to a request in flight does what its warp's stage calls for. */
  lemma ResponseRight(mem: seq<Word>, block: nat, slot: Slot, stage: Stage, addr: nat)
    requires Shape(mem, block) && SlotInv(mem, block, slot, stage)
    requires AtCache(stage) && addr == if stage.Fetching? then stage.pc.word else After(stage.pc.word, |mem|)
    ensures addr - Off(addr, block) + block <= |mem| && Readable(slot, Line(mem, block, addr), |mem|)
    ensures var o := OnRsp(slot, stage.pc, Line(mem, block, addr), |mem|);
      if o.1.Again? then SlotInv(mem, block, o.0, Queued(stage.pc))
      else o == (EMPTY, Emit(Instr(mem, stage.pc)))
  {
    match stage {
      case Fetching(pc) => FirstResponse(mem, block, pc);
      case Completing(pc) => SecondResponse(mem, block, pc, Half(mem, pc));
      case Replaying(pc) => Replayed(mem, block, pc);
    }
  }

  lemma PcsSnoc(got: seq<(Pc, nat)>, e: (Pc, nat))
    ensures Pcs(got + [e]) == Pcs(got) + [e.0]
  {
    assert (got + [e])[..|got|] == got;
  }

  lemma RightSnoc(mem: seq<Word>, got: seq<(Pc, nat)>, e: (Pc, nat))
    requires Right(mem, got) && e.0.word < |mem| && e.1 == Instr(mem, e.0)
    ensures Right(mem, got + [e])
  {
  }

  lemma WarpAnswered(mem: seq<Word>, stage: Stage, asked: seq<Pc>, got: seq<(Pc, nat)>, o: Outcome, accept: bool)
    requires WarpInv(mem, stage, asked, got) && !stage.Idle? && stage.pc.word < |mem|
    requires o.Again? || o.code == Instr(mem, stage.pc)
    ensures WarpInv(mem, NextStage(stage, o, accept), asked,
                    if o.Emit? && accept then got + [(stage.pc, o.code)] else got)
  {
    if o.Emit? && accept {
      PcsSnoc(got, (stage.pc, o.code));
      RightSnoc(mem, got, (stage.pc, o.code));
    }
  }

  lemma SlotAnswered(mem: seq<Word>, block: nat, slot: Slot, stage: Stage, addr: nat, accept: bool)
    requires Shape(mem, block) && SlotInv(mem, block, slot, stage)
    requires AtCache(stage) && addr == if stage.Fetching? then stage.pc.word else After(stage.pc.word, |mem|)
    requires !accept && stage.Completing? ==> Split(mem, stage.pc) && Harmless(mem, block, stage.pc)
    ensures addr - Off(addr, block) + block <= |mem| && Readable(slot, Line(mem, block, addr), |mem|)
    ensures var o := OnRsp(slot, stage.pc, Line(mem, block, addr), |mem|);
      SlotInv(mem, block, o.0, NextStage(stage, o.1, accept))
  {
    ResponseRight(mem, block, slot, stage, addr);
  }

  /** The request that is answered, with its warp's stash and history. */
  lemma AnswerStart(s: Sim, mem: seq<Word>, block: nat, i: nat, accept: bool)
    requires Inv(s, mem, block) && Legal(s, mem, block, Answer(i, accept))
    ensures var r := s.f.pending[i];
      var w := r.trace.wid;
      && w < |s.stage| == |s.f.slots| == |s.asked| == |s.got|
      && AtCache(s.stage[w]) && s.stage[w].pc == r.trace.pc && r.trace.pc.word < |mem|
      && r.addr == (if s.stage[w].Fetching? then r.trace.pc.word else After(r.trace.pc.word, |mem|))
      && SlotInv(mem, block, s.f.slots[w], s.stage[w]) && WarpInv(mem, s.stage[w], s.asked[w], s.got[w])
      && (!accept && s.stage[w].Completing? ==> Split(mem, r.trace.pc) && Harmless(mem, block, r.trace.pc))
      && Served(s.f, mem, block, i)
  {
    var r := s.f.pending[i];
    assert Sent(r, s.stage, |mem|);
    assert SlotInv(mem, block, s.f.slots[r.trace.wid], s.stage[r.trace.wid]);
    assert WarpInv(mem, s.stage[r.trace.wid], s.asked[r.trace.wid], s.got[r.trace.wid]);
    ResponseRight(mem, block, s.f.slots[r.trace.wid], s.stage[r.trace.wid], r.addr);
  }

  lemma AnswerQueues(s: Sim, mem: seq<Word>, block: nat, i: nat, accept: bool, t: Sim)
    requires Inv(s, mem, block) && Legal(s, mem, block, Answer(i, accept)) && Served(s.f, mem, block, i)
    requires |s.f.slots| == |s.stage| == |s.got| && t == Answered(s, mem, block, i, accept)
    ensures QueueInv(t.f.latch, t.f.refetch, t.f.pending, t.stage, |mem|)
  {
    AnswerStart(s, mem, block, i, accept);
    var r := s.f.pending[i];
    ResponseRight(mem, block, s.f.slots[r.trace.wid], s.stage[r.trace.wid], r.addr);
    QueueAnswer(s.f.latch, s.f.refetch, s.f.pending, s.stage, |mem|, i, Rsp(s.f, mem, block, i).1, accept);
  }

  lemma AnswerWarps(s: Sim, mem: seq<Word>, block: nat, i: nat, accept: bool, t: Sim)
    requires Inv(s, mem, block) && Legal(s, mem, block, Answer(i, accept)) && Served(s.f, mem, block, i)
    requires |s.f.slots| == |s.stage| == |s.got| && t == Answered(s, mem, block, i, accept)
    ensures SlotsInv(mem, block, t.f.slots, t.stage) && WarpsInv(mem, t.stage, t.asked, t.got)
  {
    AnswerStart(s, mem, block, i, accept);
    var r := s.f.pending[i];
    var w := r.trace.wid;
    var slot, stage, o := s.f.slots[w], s.stage[w], Rsp(s.f, mem, block, i);
    ResponseRight(mem, block, slot, stage, r.addr);
    SlotAnswered(mem, block, slot, stage, r.addr, accept);
    WarpAnswered(mem, stage, s.asked[w], s.got[w], o.1, accept);
    var st, got := NextStage(stage, o.1, accept), if o.1.Emit? && accept then s.got[w] + [(stage.pc, o.1.code)] else s.got[w];
    SlotsSet(mem, block, s.f.slots, s.stage, w, o.0, st);
    WarpsSet(mem, s.stage, s.asked, s.got, w, st, s.asked[w], got);
    assert s.asked[w := s.asked[w]] == s.asked && s.got[w := s.got[w]] == s.got;
  }

  lemma AnswerKeeps(s: Sim, mem: seq<Word>, block: nat, i: nat, accept: bool)
    requires Inv(s, mem, block) && Legal(s, mem, block, Answer(i, accept))
    ensures Served(s.f, mem, block, i) && Inv(Answered(s, mem, block, i, accept), mem, block)
  {
    AnswerStart(s, mem, block, i, accept);
    var t := Answered(s, mem, block, i, accept);
    AnswerQueues(s, mem, block, i, accept, t);
    AnswerWarps(s, mem, block, i, accept, t);
  }

  // ----- whole runs -----

  function Step(s: Sim, mem: seq<Word>, block: nat, a: Act): Sim
    requires Inv(s, mem, block) && Legal(s, mem, block, a)
  {
    match a
    case Schedule(wid, pc) => Scheduled(s, wid, pc)
    case Request(ok) => if ok then RequestKeeps(s, mem, block); Requested(s, |mem|) else s
    case Answer(i, accept) => AnswerKeeps(s, mem, block, i, accept); Answered(s, mem, block, i, accept)
  }

  lemma StepKeeps(s: Sim, mem: seq<Word>, block: nat, a: Act)
    requires Inv(s, mem, block) && Legal(s, mem, block, a)
    ensures Inv(Step(s, mem, block, a), mem, block)
  {
    match a
    case Schedule(wid, pc) => ScheduleKeeps(s, mem, block, wid, pc);
    case Request(ok) => RequestKeeps(s, mem, block);
    case Answer(i, accept) => AnswerKeeps(s, mem, block, i, accept);
  }

  ghost predicate LegalRun(s: Sim, mem: seq<Word>, block: nat, acts: seq<Act>)
    requires Inv(s, mem, block)
    decreases |acts|
  {
    acts != [] ==>
      && Legal(s, mem, block, acts[0])
      && (StepKeeps(s, mem, block, acts[0]); LegalRun(Step(s, mem, block, acts[0]), mem, block, acts[1..]))
  }

  ghost function Run(s: Sim, mem: seq<Word>, block: nat, acts: seq<Act>): Sim
    requires Inv(s, mem, block) && LegalRun(s, mem, block, acts)
    decreases |acts|
  {
    if acts == [] then s
    else StepKeeps(s, mem, block, acts[0]); Run(Step(s, mem, block, acts[0]), mem, block, acts[1..])
  }

  function Reset(warps: nat): Sim {
    Sim(Fetch(seq(warps, _ => EMPTY), [], [], []), seq(warps, _ => Idle), seq(warps, _ => []), seq(warps, _ => []))
  }

  lemma {:induction false} AllIdle(n: nat)
    ensures Busy(seq(n, _ => Idle)) == 0
  {
    if n > 0 {
      AllIdle(n - 1);
      assert seq(n, _ => Idle)[..n - 1] == seq(n - 1, _ => Idle);
    }
  }

  lemma ResetInv(warps: nat, mem: seq<Word>, block: nat)
    requires Shape(mem, block)
    ensures Inv(Reset(warps), mem, block)
  {
    AllIdle(warps);
  }

  lemma {:induction false} RunKeeps(s: Sim, mem: seq<Word>, block: nat, acts: seq<Act>)
    requires Inv(s, mem, block) && LegalRun(s, mem, block, acts)
    ensures Inv(Run(s, mem, block, acts), mem, block)
    decreases |acts|
  {
    if acts != [] {
      StepKeeps(s, mem, block, acts[0]);
      RunKeeps(Step(s, mem, block, acts[0]), mem, block, acts[1..]);
    }
  }

  lemma {:induction false} RunWarps(s: Sim, mem: seq<Word>, block: nat, acts: seq<Act>)
    requires Inv(s, mem, block) && LegalRun(s, mem, block, acts)
    ensures |Run(s, mem, block, acts).stage| == |s.stage|
    decreases |acts|
  {
    if acts != [] {
      StepKeeps(s, mem, block, acts[0]);
      RunWarps(Step(s, mem, block, acts[0]), mem, block, acts[1..]);
    }
  }

  /** Warp `w`, which asked for `asks`, has got the right codes for them, but for the one outstanding. */
  ghost predicate Delivered(s: Sim, mem: seq<Word>, w: nat, asks: seq<Pc>) {
    && w < |s.got| == |s.stage|
    && asks == Pcs(s.got[w]) + Outstanding(s.stage[w])
    && Right(mem, s.got[w])
    && (s.f.latch == [] && s.f.refetch == [] && s.f.pending == [] ==> asks == Pcs(s.got[w]))
  }

  function Ask(a: Act, w: nat): seq<Pc> { if a.Schedule? && a.wid == w then [a.pc] else [] }

  /** The program counters scheduled for a warp, in order. */
  function Asks(acts: seq<Act>, w: nat): seq<Pc> {
    if acts == [] then [] else Ask(acts[0], w) + Asks(acts[1..], w)
  }

  lemma StepAsks(s: Sim, mem: seq<Word>, block: nat, a: Act, w: nat, t: Sim)
    requires Inv(s, mem, block) && Legal(s, mem, block, a) && w < |s.stage| && t == Step(s, mem, block, a)
    ensures |t.stage| == |t.asked| == |s.stage| == |s.asked| && t.asked[w] == s.asked[w] + Ask(a, w)
  {
    match a
    case Schedule(_, _) =>
    case Request(_) => RequestKeeps(s, mem, block);
    case Answer(i, accept) => AnswerStart(s, mem, block, i, accept);
  }

  lemma {:induction false} RunAsks(s: Sim, mem: seq<Word>, block: nat, acts: seq<Act>, w: nat, t: Sim)
    requires Inv(s, mem, block) && LegalRun(s, mem, block, acts) && w < |s.stage| && t == Run(s, mem, block, acts)
    ensures |t.asked| == |s.stage| == |s.asked| && t.asked[w] == s.asked[w] + Asks(acts, w)
    decreases |acts|
  {
    if acts != [] {
      var e := Step(s, mem, block, acts[0]);
      StepKeeps(s, mem, block, acts[0]);
      StepAsks(s, mem, block, acts[0], w, e);
      RunAsks(e, mem, block, acts[1..], w, t);
      Assoc(s.asked[w], Ask(acts[0], w), Asks(acts[1..], w));
    }
  }

  lemma InvDelivers(s: Sim, mem: seq<Word>, block: nat, w: nat)
    requires Inv(s, mem, block) && w < |s.stage|
    ensures Delivered(s, mem, w, s.asked[w])
  {
    assert WarpInv(mem, s.stage[w], s.asked[w], s.got[w]);
    if s.f.latch == [] && s.f.refetch == [] && s.f.pending == [] {
      NoneBusy(s.stage, w);
    }
  }

  /** Whatever the memory, the program counters, the interleaving of warps, the order of cache
      responses and the harmless refusals: a warp's codes are the instructions at the addresses
      scheduled for it, once each and in order, and none is missing once the stage is empty. */
  lemma FetchesRight(warps: nat, mem: seq<Word>, block: nat, acts: seq<Act>, w: nat)
    requires Shape(mem, block) && w < warps
    requires (ResetInv(warps, mem, block); LegalRun(Reset(warps), mem, block, acts))
    ensures (ResetInv(warps, mem, block); Delivered(Run(Reset(warps), mem, block, acts), mem, w, Asks(acts, w)))
  {
    var s := Reset(warps);
    ResetInv(warps, mem, block);
    var t := Run(s, mem, block, acts);
    RunKeeps(s, mem, block, acts);
    RunAsks(s, mem, block, acts, w, t);
    InvDelivers(t, mem, block, w);
    assert s.asked[w] + Asks(acts, w) == Asks(acts, w);
  }

  // ----- the objects -----

  /** The per-core fetch state machine. */
  class Decompressor {
    const slots: array<Slot>
    const space: nat
    var refetch: seq<Trace>

    constructor (warps: nat, space: nat)
      ensures fresh(slots) && slots[..] == seq(warps, _ => EMPTY) && refetch == [] && this.space == space
    {
      slots := new Slot[warps](_ => EMPTY);
      this.space := space;
      refetch := [];
      new;
      assert slots[..] == seq(warps, _ => EMPTY);
    }

    method PickRequest(head: Option<Trace>) returns (pick: Option<Req>, fromRefetch: bool)
      requires refetch != [] ==> refetch[0].wid < slots.Length && slots[refetch[0].wid].instPc.word < space
      ensures fromRefetch == (refetch != [])
      ensures pick == if refetch != [] then Some(Req(refetch[0], After(slots[refetch[0].wid].instPc.word, space)))
                      else if head.Some? then Some(Req(head.value, head.value.pc.word)) else None
    {
      pick, fromRefetch := None, false;
      if refetch != [] {
        var t := refetch[0];
        pick, fromRefetch := Some(Req(t, After(slots[t.wid].instPc.word, space))), true;
      } else if head.Some? {
        pick := Some(Req(head.value, head.value.pc.word));
      }
    }

    method CommitRequest(fromRefetch: bool)
      modifies this`refetch
      ensures refetch == if fromRefetch && old(refetch) != [] then old(refetch)[1..] else old(refetch)
    {
      if fromRefetch && refetch != [] {
        refetch := refetch[1..];
      }
    }

    /** Cuts the instruction of `t` out of a line, or queues `t` for its second word. */
    method OnIcacheRsp(t: Trace, line: seq<Word>) returns (code: Option<nat>)
      requires t.wid < slots.Length && Readable(slots[t.wid], line, space)
      modifies this`refetch, slots
      ensures var o := OnRsp(old(slots[t.wid]), t.pc, line, space);
        && slots[..] == old(slots[..])[t.wid := o.0]
        && refetch == (if o.1.Again? then old(refetch) + [t] else old(refetch))
        && code == (if o.1.Emit? then Some(o.1.code) else None)
    {
      var s := slots[t.wid];
      var addr := if s.needsSecond then After(s.instPc.word, space) else t.pc.word;
      var word := line[Off(addr, |line|)];
      if s.needsSecond {
        slots[t.wid] := EMPTY;
        return Some(Join(s.lowHalf, word.low));
      }
      var half := if t.pc.upper then word.high else word.low;
      if Compressed(half) {
        return Some(half);
      }
      if !t.pc.upper {
        return Some(Join(word.low, word.high));
      }
      slots[t.wid] := Slot(true, word.high, t.pc);
      refetch := refetch + [t];
      return None;
    }
  }

  /** The fetch stage around it. */
  class FetchStage {
    const decompressor: Decompressor
    var latch: seq<Trace>
    var pending: seq<Req>
    var decoded: seq<(Trace, nat)>

    ghost function View(): Fetch
      reads this, decompressor, decompressor.slots
    {
      Fetch(decompressor.slots[..], decompressor.refetch, latch, pending)
    }

    constructor (warps: nat, space: nat)
      ensures fresh(decompressor) && fresh(decompressor.slots) && decompressor.space == space
      ensures View() == Reset(warps).f && decoded == []
    {
      decompressor := new Decompressor(warps, space);
      latch, pending, decoded := [], [], [];
    }

    method HandleResponse(i: nat, line: seq<Word>, accept: bool, ghost mem: seq<Word>, ghost block: nat)
      requires Served(View(), mem, block, i) && decompressor.space == |mem| && line == Line(mem, block, pending[i].addr)
      modifies this`pending, this`decoded, decompressor`refetch, decompressor.slots
      ensures View() == Respond(old(View()), mem, block, i, accept)
      ensures decoded == var o := Rsp(old(View()), mem, block, i).1;
        if o.Emit? && accept then old(decoded) + [(old(pending[i].trace), o.code)] else old(decoded)
    {
      var t := pending[i].trace;
      var code := decompressor.OnIcacheRsp(t, line);
      if code.None? || accept {
        pending := Without(pending, i);
        if code.Some? {
          decoded := decoded + [(t, code.value)];
        }
      }
    }

    method SendRequest(ok: bool)
      requires decompressor.refetch != [] ==>
        && decompressor.refetch[0].wid < decompressor.slots.Length
        && decompressor.slots[decompressor.refetch[0].wid].instPc.word < decompressor.space
      modifies this`pending, this`latch, decompressor`refetch
      ensures View() == if ok then Send(old(View()), decompressor.space) else old(View())
    {
      var pick, fromRefetch := decompressor.PickRequest(if latch == [] then None else Some(latch[0]));
      if pick.Some? && ok {
        pending := pending + [pick.value];
        decompressor.CommitRequest(fromRefetch);
        if !fromRefetch {
          latch := latch[1..];
        }
      }
    }
  }
}
