/** The fetch stage gets done: every request that is sent and every response that is accepted brings
    some warp's fetch closer to its code. */
module RvcProgress {
  import opened RvcFetch

  /** Steps a warp's fetch may still need. */
  function Weight(stage: Stage): nat {
    match stage
    case Idle => 0
    case Completing(_) => 1
    case Queued(_) => 2
    case Fetching(_) => 3
    case Replaying(_) => 3
    case Latched(_) => 4
  }

  function Work(stage: seq<Stage>): nat {
    if stage == [] then 0 else Work(stage[..|stage| - 1]) + Weight(stage[|stage| - 1])
  }

  lemma {:induction false} WorkSet(stage: seq<Stage>, w: nat, st: Stage)
    requires w < |stage|
    ensures Work(stage[w := st]) == Work(stage) - Weight(stage[w]) + Weight(st)
    decreases |stage|
  {
    var n := |stage| - 1;
    if w < n {
      WorkSet(stage[..n], w, st);
      assert stage[w := st][..n] == stage[..n][w := st];
    } else {
      assert stage[w := st][..n] == stage[..n];
    }
  }

  lemma {:induction false} WorkBusy(stage: seq<Stage>)
    ensures Busy(stage) <= Work(stage) <= 4 * |stage| && (Busy(stage) == 0 <==> Work(stage) == 0)
    decreases |stage|
  {
    if stage != [] {
      WorkBusy(stage[..|stage| - 1]);
    }
  }

  /** An action that moves something: a request that is sent, or a response that is accepted. */
  ghost predicate Productive(s: Sim, mem: seq<Word>, block: nat, a: Act) {
    && Legal(s, mem, block, a)
    && match a
       case Schedule(_, _) => false
       case Request(ok) => ok && (s.f.refetch != [] || s.f.latch != [])
       case Answer(_, accept) => accept
  }

  lemma RequestLowers(s: Sim, space: nat)
    requires Sendable(s, space) && LatchInv(s.f.latch, s.stage) && RefetchInv(s.f.refetch, s.stage)
    requires s.f.refetch != [] || s.f.latch != []
    ensures Work(Requested(s, space).stage) == Work(s.stage) - 1
  {
    if s.f.refetch != [] {
      var t := s.f.refetch[0];
      WorkSet(s.stage, t.wid, Completing(t.pc));
    } else {
      var t := s.f.latch[0];
      WorkSet(s.stage, t.wid, Fetching(t.pc));
    }
  }

  lemma AnswerLowers(s: Sim, mem: seq<Word>, block: nat, i: nat)
    requires Inv(s, mem, block) && Legal(s, mem, block, Answer(i, true))
    ensures Served(s.f, mem, block, i) && |s.f.slots| == |s.stage| == |s.got|
    ensures Work(Answered(s, mem, block, i, true).stage) < Work(s.stage)
  {
    AnswerStart(s, mem, block, i, true);
    var r := s.f.pending[i];
    var w := r.trace.wid;
    var slot, stage, o := s.f.slots[w], s.stage[w], Rsp(s.f, mem, block, i).1;
    SecondEmits(mem, block, slot, stage, r.addr);
    WorkSet(s.stage, w, NextStage(stage, o, true));
  }

  /** A second word is never asked for twice in a row. */
  lemma SecondEmits(mem: seq<Word>, block: nat, slot: Slot, stage: Stage, addr: nat)
    requires Shape(mem, block) && SlotInv(mem, block, slot, stage) && AtCache(stage)
    requires addr - Off(addr, block) + block <= |mem| && Readable(slot, Line(mem, block, addr), |mem|)
    ensures stage.Completing? ==> OnRsp(slot, stage.pc, Line(mem, block, addr), |mem|).1.Emit?
  {
  }

  lemma Lowers(s: Sim, mem: seq<Word>, block: nat, a: Act)
    requires Inv(s, mem, block) && Productive(s, mem, block, a)
    ensures Work(Step(s, mem, block, a).stage) < Work(s.stage)
  {
    match a
    case Request(_) =>
      RequestKeeps(s, mem, block);
      RequestLowers(s, |mem|);
    case Answer(i, _) => AnswerLowers(s, mem, block, i);
  }

  ghost predicate ProductiveRun(s: Sim, mem: seq<Word>, block: nat, acts: seq<Act>)
    requires Inv(s, mem, block)
    decreases |acts|
  {
    acts != [] ==>
      && Productive(s, mem, block, acts[0])
      && (StepKeeps(s, mem, block, acts[0]); ProductiveRun(Step(s, mem, block, acts[0]), mem, block, acts[1..]))
  }

  lemma {:induction false} RunLowers(s: Sim, mem: seq<Word>, block: nat, acts: seq<Act>)
    requires Inv(s, mem, block) && ProductiveRun(s, mem, block, acts)
    ensures LegalRun(s, mem, block, acts) && |acts| + Work(Run(s, mem, block, acts).stage) <= Work(s.stage)
    decreases |acts|
  {
    if acts != [] {
      StepKeeps(s, mem, block, acts[0]);
      Lowers(s, mem, block, acts[0]);
      RunLowers(Step(s, mem, block, acts[0]), mem, block, acts[1..]);
    }
  }

  /** While a fetch is outstanding something can be sent or answered. */
  lemma SomethingToDo(s: Sim, mem: seq<Word>, block: nat, w: nat)
    requires Inv(s, mem, block) && w < |s.stage| && !s.stage[w].Idle?
    ensures exists a :: Productive(s, mem, block, a)
  {
    if s.f.refetch == [] && s.f.latch == [] && s.f.pending == [] {
      NoneBusy(s.stage, w);
    } else {
      var a := if s.f.refetch != [] || s.f.latch != [] then Request(true) else Answer(0, true);
      assert Productive(s, mem, block, a);
    }
  }

  /** From every reachable state at most four such steps per warp are possible, whatever their
      order; when no more are, every fetch asked for has come out with its code. */
  lemma FetchesFinish(s: Sim, mem: seq<Word>, block: nat, acts: seq<Act>, w: nat)
    requires Inv(s, mem, block) && ProductiveRun(s, mem, block, acts) && w < |s.stage|
    ensures |acts| <= 4 * |s.stage| && LegalRun(s, mem, block, acts)
    ensures var t := Run(s, mem, block, acts);
      && w < |t.stage| == |t.asked| == |t.got|
      && ((forall a :: !Productive(t, mem, block, a)) ==> t.asked[w] == Pcs(t.got[w]) && Right(mem, t.got[w]))
  {
    RunLowers(s, mem, block, acts);
    WorkBusy(s.stage);
    RunKeeps(s, mem, block, acts);
    RunWarps(s, mem, block, acts);
    var t := Run(s, mem, block, acts);
    assert WarpInv(mem, t.stage[w], t.asked[w], t.got[w]);
    if !t.stage[w].Idle? {
      SomethingToDo(t, mem, block, w);
    }
  }
}
