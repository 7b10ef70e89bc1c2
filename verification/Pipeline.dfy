/** Issue, out-of-order packet commit and the scoreboard.  An instruction captures its operands
    at issue; its packets write back in any order; the destination stays busy until the last of
    them.  Every operand read is the one strictly in-order execution would read. */
module Pipeline {
  import opened Basics
  import D = Dispatcher

  type byte = x: int | 0 <= x < 256
  type Word = seq<byte>  // eight bytes, least significant first
  type Lanes = seq<Word>

  datatype RegKind = NoReg | Integer | Float
  datatype RegOpd = RegOpd(kind: RegKind, idx: nat)

  /** A register of one warp. */
  datatype Reg = Reg(wid: nat, kind: RegKind, idx: nat)

  const NUM_REGS: nat := 32
  const ID_SPAN: nat := 128  // 2 bits for the type and 5 for the index

  /** `exec` is what the functional unit computes for a lane from the captured operands. */
  datatype Instr = Instr(wid: nat, dst: RegOpd, srcs: seq<RegOpd>, tmask: D.Mask, bytesel: seq<bool>,
                         exec: (seq<Lanes>, nat) -> Word)

  datatype Config = Config(threads: nat, lanes: nat)

  // ----- registers -----

  predicate Wb(i: Instr) { i.dst.kind != NoReg && !(i.dst.kind == Integer && i.dst.idx == 0) }

  function DstReg(i: Instr): Reg { Reg(i.wid, i.dst.kind, i.dst.idx) }

  function RegId(r: Reg): nat {
    if r.kind == NoReg then r.wid * ID_SPAN
    else r.wid * ID_SPAN + (if r.kind == Integer then 0 else NUM_REGS) + r.idx
  }

  ghost predicate InstrOk(cfg: Config, i: Instr) {
    && |i.tmask| == cfg.threads && true in i.tmask && i.dst.idx < NUM_REGS
    && cfg.lanes > 0 && D.Whole(cfg.threads, cfg.lanes)
  }

  type Regs = map<Reg, Lanes>

  function Zeros(n: nat): Lanes { seq(n, _ => [0, 0, 0, 0, 0, 0, 0, 0]) }

  function Read(regs: Regs, r: Reg, threads: nat): Lanes {
    if r in regs && |regs[r]| == threads then regs[r] else Zeros(threads)
  }

  /** Partial-width writers replace only the selected bytes. */
  function Merge(cur: Word, incoming: Word, sel: seq<bool>): Word {
    seq(|cur|, (b: nat) requires b < |cur| => if b < |sel| && sel[b] && b < |incoming| then incoming[b] else cur[b])
  }

  function WriteLanes(cur: Lanes, data: Lanes, mask: D.Mask, sel: seq<bool>): Lanes
    requires |cur| == |data| == |mask|
  {
    seq(|cur|, (t: nat) requires t < |cur| => if mask[t] then Merge(cur[t], data[t], sel) else cur[t])
  }

  function Operand(regs: Regs, wid: nat, o: RegOpd, threads: nat): Lanes {
    if o.kind == NoReg then Zeros(threads) else Read(regs, Reg(wid, o.kind, o.idx), threads)
  }

  function Operands(regs: Regs, i: Instr, threads: nat): seq<Lanes> {
    seq(|i.srcs|, (k: nat) requires k < |i.srcs| => Operand(regs, i.wid, i.srcs[k], threads))
  }

  function Result(i: Instr, ops: seq<Lanes>, threads: nat): (r: Lanes)
    ensures |r| == threads
  {
    seq(threads, (t: nat) => i.exec(ops, t))
  }

  // ----- the in-order reference -----

  function InOrderStep(regs: Regs, i: Instr, threads: nat): Regs
    requires |i.tmask| == threads
  {
    if !Wb(i) then regs
    else
      var data := Result(i, Operands(regs, i, threads), threads);
      regs[DstReg(i) := WriteLanes(Read(regs, DstReg(i), threads), data, i.tmask, i.bytesel)]
  }

  function InOrder(prog: seq<Instr>, threads: nat): Regs
    requires forall k | 0 <= k < |prog| :: |prog[k].tmask| == threads
  {
    if prog == [] then map[]
    else InOrderStep(InOrder(prog[..|prog| - 1], threads), prog[|prog| - 1], threads)
  }

  // ----- the scoreboard -----

  datatype Board = Board(inUse: set<Reg>, owners: map<nat, nat>, counts: map<nat, nat>)

  predicate InUse(b: Board, i: Instr) {
    || (Wb(i) && DstReg(i) in b.inUse)
    || exists k :: 0 <= k < |i.srcs| && i.srcs[k].kind != NoReg && Reg(i.wid, i.srcs[k].kind, i.srcs[k].idx) in b.inUse
  }

  function Reserve(b: Board, r: Reg, uuid: nat): Board
    requires RegId(r) !in b.owners
  {
    b.(inUse := b.inUse + {r}, owners := b.owners[RegId(r) := uuid])
  }

  function Count(b: Board, r: Reg): nat { if RegId(r) in b.counts then b.counts[RegId(r)] else 0 }

  function CommitPacket(b: Board, r: Reg): Board { b.(counts := b.counts[RegId(r) := Count(b, r) + 1]) }

  function Release(b: Board, r: Reg): Board
    requires r in b.inUse && RegId(r) in b.owners
  {
    Board(b.inUse - {r}, b.owners - {RegId(r)}, b.counts - {RegId(r)})
  }

  // ----- the core -----

  /** An issued instruction, its captured operands, and its packets that have not committed. */
  datatype Flight = Flight(instr: Instr, ops: seq<Lanes>, todo: seq<D.Trace>)

  datatype Core = Core(regs: Regs, board: Board, flights: map<nat, Flight>, issued: seq<Instr>)

  function Issue(cfg: Config, c: Core, i: Instr): Core
    requires cfg.lanes > 0 && (Wb(i) ==> RegId(DstReg(i)) !in c.board.owners)
  {
    var uuid := |c.issued|;
    var todo := D.Split(D.Trace(uuid, i.tmask, 1, -1, true, true), cfg.lanes);
    Core(c.regs,
         if Wb(i) then Reserve(c.board, DstReg(i), uuid) else c.board,
         c.flights[uuid := Flight(i, Operands(c.regs, i, cfg.threads), todo)],
         c.issued + [i])
  }

  /** Packet `k` of `uuid` commits: write back, count, release on the last one. */
  function Commit(cfg: Config, c: Core, uuid: nat, k: nat): Core
    requires uuid in c.flights && k < |c.flights[uuid].todo|
    requires |c.flights[uuid].todo[k].tmask| == cfg.threads
    requires Wb(c.flights[uuid].instr) ==>
      var r := DstReg(c.flights[uuid].instr); r in c.board.inUse && RegId(r) in c.board.owners
  {
    var f := c.flights[uuid];
    var p, rest := f.todo[k], Without(f.todo, k);
    var flights := if rest == [] then c.flights - {uuid} else c.flights[uuid := f.(todo := rest)];
    if !Wb(f.instr) then c.(flights := flights)
    else
      var r := DstReg(f.instr);
      var data := Result(f.instr, f.ops, cfg.threads);
      var board := CommitPacket(c.board, r);
      c.(regs := c.regs[r := WriteLanes(Read(c.regs, r, cfg.threads), data, p.tmask, f.instr.bytesel)],
         board := if Count(board, r) >= p.numPkts then Release(board, r) else board,
         flights := flights)
  }

  // ----- the invariant -----

  ghost predicate ValidReg(r: Reg) { r.kind != NoReg && r.idx < NUM_REGS }

  lemma RegIdInjective(r: Reg, s: Reg)
    requires ValidReg(r) && ValidReg(s) && RegId(r) == RegId(s)
    ensures r == s
  {
  }

  ghost predicate Covered(todo: seq<D.Trace>, t: nat)
    requires forall k | 0 <= k < |todo| :: t < |todo[k].tmask|
  {
    exists k :: 0 <= k < |todo| && todo[k].tmask[t]
  }

  /** Uncommitted packets: at least one, disjoint, each announcing `n` packets in all. */
  ghost predicate TodoOk(todo: seq<D.Trace>, threads: nat, n: nat) {
    && todo != []
    && (forall k | 0 <= k < |todo| :: |todo[k].tmask| == threads && todo[k].numPkts == n)
    && (forall i, j, t | 0 <= i < j < |todo| && 0 <= t < threads :: !(todo[i].tmask[t] && todo[j].tmask[t]))
  }

  /** A destination on its way to the in-order value: writing an uncommitted lane gives that
      value, and the other lanes have it. */
  ghost predicate Finishing(todo: seq<D.Trace>, cur: Lanes, data: Lanes, sel: seq<bool>, target: Lanes)
    requires forall k | 0 <= k < |todo| :: |todo[k].tmask| == |cur|
  {
    && |data| == |target| == |cur|
    && forall t | 0 <= t < |cur| :: target[t] == if Covered(todo, t) then Merge(cur[t], data[t], sel) else cur[t]
  }

  ghost predicate FlightInv(cfg: Config, regs: Regs, b: Board, ref: Regs, uuid: nat, f: Flight) {
    && |f.instr.tmask| == cfg.threads && f.instr.dst.idx < NUM_REGS
    && (exists n :: TodoOk(f.todo, cfg.threads, n))
    && (Wb(f.instr) ==>
          var r := DstReg(f.instr);
          && TodoOk(f.todo, cfg.threads, Count(b, r) + |f.todo|)
          && r in b.inUse && RegId(r) in b.owners && b.owners[RegId(r)] == uuid
          && Finishing(f.todo, Read(regs, r, cfg.threads), Result(f.instr, f.ops, cfg.threads), f.instr.bytesel,
                       Read(ref, r, cfg.threads)))
  }

  ghost predicate BoardInv(b: Board, flights: map<nat, Flight>) {
    && (forall r | r in b.inUse ::
          && ValidReg(r) && RegId(r) in b.owners && b.owners[RegId(r)] in flights
          && Wb(flights[b.owners[RegId(r)]].instr) && DstReg(flights[b.owners[RegId(r)]].instr) == r)
    && (forall r | ValidReg(r) && r !in b.inUse :: RegId(r) !in b.owners && RegId(r) !in b.counts)
  }

  ghost predicate Quiet(cfg: Config, regs: Regs, b: Board, ref: Regs) {
    forall r | r !in b.inUse :: Read(regs, r, cfg.threads) == Read(ref, r, cfg.threads)
  }

  ghost predicate Issuable(cfg: Config, prog: seq<Instr>) { forall k | 0 <= k < |prog| :: InstrOk(cfg, prog[k]) }

  /** Every instruction in flight, of the `n` issued, is on its way to its in-order value. */
  ghost predicate FlightsInv(cfg: Config, regs: Regs, b: Board, ref: Regs, flights: map<nat, Flight>, n: nat) {
    forall u | u in flights :: u < n && FlightInv(cfg, regs, b, ref, u, flights[u])
  }

  ghost predicate Inv(cfg: Config, c: Core)
  {
    && Issuable(cfg, c.issued)
    && var ref := InOrder(c.issued, cfg.threads);
    && FlightsInv(cfg, c.regs, c.board, ref, c.flights, |c.issued|)
    && BoardInv(c.board, c.flights)
    && Quiet(cfg, c.regs, c.board, ref)
  }

  /** The operands captured at issue are those of in-order execution. */
  lemma IssueReadsInOrder(cfg: Config, c: Core, i: Instr)
    requires Inv(cfg, c) && !InUse(c.board, i)
    ensures Operands(c.regs, i, cfg.threads) == Operands(InOrder(c.issued, cfg.threads), i, cfg.threads)
    ensures Wb(i) ==> Read(c.regs, DstReg(i), cfg.threads) == Read(InOrder(c.issued, cfg.threads), DstReg(i), cfg.threads)
  {
    var ref := InOrder(c.issued, cfg.threads);
    forall k | 0 <= k < |i.srcs|
      ensures Operand(c.regs, i.wid, i.srcs[k], cfg.threads) == Operand(ref, i.wid, i.srcs[k], cfg.threads)
    {
      if i.srcs[k].kind != NoReg {
        assert Reg(i.wid, i.srcs[k].kind, i.srcs[k].idx) !in c.board.inUse;
      }
    }
  }

  /** Registers other than the destination are left alone by an in-order step. */
  lemma StepFrame(ref: Regs, i: Instr, threads: nat, r: Reg)
    requires |i.tmask| == threads && (Wb(i) ==> r != DstReg(i))
    ensures Read(InOrderStep(ref, i, threads), r, threads) == Read(ref, r, threads)
  {
  }

  lemma StepTarget(ref: Regs, i: Instr, threads: nat)
    requires |i.tmask| == threads && Wb(i)
    ensures Read(InOrderStep(ref, i, threads), DstReg(i), threads)
         == WriteLanes(Read(ref, DstReg(i), threads), Result(i, Operands(ref, i, threads), threads), i.tmask, i.bytesel)
  {
  }

  lemma InOrderSnoc(prog: seq<Instr>, i: Instr, threads: nat)
    requires (forall k | 0 <= k < |prog| :: |prog[k].tmask| == threads) && |i.tmask| == threads
    ensures InOrder(prog + [i], threads) == InOrderStep(InOrder(prog, threads), i, threads)
  {
    assert (prog + [i])[..|prog|] == prog;
  }

  /** A freshly issued instruction is on its way to its in-order value. */
  lemma IssueFinishing(todo: seq<D.Trace>, cur: Lanes, data: Lanes, mask: D.Mask, sel: seq<bool>, uuid: nat)
    requires |cur| == |data| == |mask| && D.Partition(todo, mask, uuid)
    ensures Finishing(todo, cur, data, sel, WriteLanes(cur, data, mask, sel))
  {
    forall t | 0 <= t < |cur| ensures Covered(todo, t) <==> mask[t] {
    }
  }

  lemma NewFlight(cfg: Config, c: Core, i: Instr)
    requires Inv(cfg, c) && InstrOk(cfg, i) && !InUse(c.board, i)
    requires Wb(i) ==> RegId(DstReg(i)) !in c.board.owners
    ensures var d := Issue(cfg, c, i);
      FlightInv(cfg, d.regs, d.board, InOrderStep(InOrder(c.issued, cfg.threads), i, cfg.threads), |c.issued|, d.flights[|c.issued|])
  {
    var ref := InOrder(c.issued, cfg.threads);
    var tr := D.Trace(|c.issued|, i.tmask, 1, -1, true, true);
    var todo := D.Split(tr, cfg.lanes);
    D.SplitPartitions(tr, cfg.lanes);
    assert TodoOk(todo, cfg.threads, |todo|);
    if Wb(i) {
      var r := DstReg(i);
      IssueReadsInOrder(cfg, c, i);
      StepTarget(ref, i, cfg.threads);
      IssueFinishing(todo, Read(c.regs, r, cfg.threads), Result(i, Operands(c.regs, i, cfg.threads), cfg.threads), i.tmask, i.bytesel, |c.issued|);
    }
  }

  /** Flights whose destination is not `r` do not see a change confined to `r`. */
  lemma FlightFrame(cfg: Config, regs: Regs, b: Board, ref: Regs, regs': Regs, b': Board, ref': Regs, r: Reg, u: nat, f: Flight)
    requires FlightInv(cfg, regs, b, ref, u, f)
    requires Wb(f.instr) ==>
      var q := DstReg(f.instr);
      && q != r && Read(regs', q, cfg.threads) == Read(regs, q, cfg.threads) && Read(ref', q, cfg.threads) == Read(ref, q, cfg.threads)
      && q in b'.inUse && RegId(q) in b'.owners && b'.owners[RegId(q)] == u && Count(b', q) == Count(b, q)
    ensures FlightInv(cfg, regs', b', ref', u, f)
  {
    if !Wb(f.instr) {
      var n :| TodoOk(f.todo, cfg.threads, n);
    }
  }

  /** The board asserts nothing new at issue: the scoreboard check makes the reservation legal. */
  lemma IssueLegal(cfg: Config, c: Core, i: Instr)
    requires Inv(cfg, c) && InstrOk(cfg, i) && !InUse(c.board, i)
    ensures Wb(i) ==> RegId(DstReg(i)) !in c.board.owners && RegId(DstReg(i)) !in c.board.counts
  {
    if Wb(i) {
      assert ValidReg(DstReg(i));
    }
  }

  lemma IssueBoard(cfg: Config, c: Core, i: Instr)
    requires Inv(cfg, c) && InstrOk(cfg, i) && !InUse(c.board, i)
    requires Wb(i) ==> RegId(DstReg(i)) !in c.board.owners
    ensures BoardInv(Issue(cfg, c, i).board, Issue(cfg, c, i).flights)
  {
    var d := Issue(cfg, c, i);
    forall r | r in d.board.inUse
      ensures ValidReg(r) && RegId(r) in d.board.owners && d.board.owners[RegId(r)] in d.flights
           && Wb(d.flights[d.board.owners[RegId(r)]].instr) && DstReg(d.flights[d.board.owners[RegId(r)]].instr) == r
    {
      if r in c.board.inUse {
        assert RegId(r) in c.board.owners && c.board.owners[RegId(r)] in c.flights;
      }
    }
    if Wb(i) {
      forall r | ValidReg(r) && r !in d.board.inUse ensures RegId(r) !in d.board.owners {
        if RegId(r) == RegId(DstReg(i)) {
          RegIdInjective(r, DstReg(i));
        }
      }
    }
  }

  lemma OtherFlightAtIssue(cfg: Config, c: Core, i: Instr, u: nat)
    requires Inv(cfg, c) && InstrOk(cfg, i) && !InUse(c.board, i) && u in c.flights
    requires Wb(i) ==> RegId(DstReg(i)) !in c.board.owners
    ensures FlightInv(cfg, c.regs, Issue(cfg, c, i).board, InOrderStep(InOrder(c.issued, cfg.threads), i, cfg.threads), u, c.flights[u])
  {
    var ref, f := InOrder(c.issued, cfg.threads), c.flights[u];
    assert FlightInv(cfg, c.regs, c.board, ref, u, f);
    if Wb(f.instr) {
      StepFrame(ref, i, cfg.threads, DstReg(f.instr));
    }
    FlightFrame(cfg, c.regs, c.board, ref, c.regs, Issue(cfg, c, i).board, InOrderStep(ref, i, cfg.threads), DstReg(i), u, f);
  }

  lemma IssueFlights(cfg: Config, c: Core, i: Instr)
    requires Inv(cfg, c) && InstrOk(cfg, i) && !InUse(c.board, i)
    requires Wb(i) ==> RegId(DstReg(i)) !in c.board.owners
    ensures var d, ref := Issue(cfg, c, i), InOrderStep(InOrder(c.issued, cfg.threads), i, cfg.threads);
      FlightsInv(cfg, d.regs, d.board, ref, d.flights, |c.issued| + 1)
  {
    var d, ref := Issue(cfg, c, i), InOrderStep(InOrder(c.issued, cfg.threads), i, cfg.threads);
    NewFlight(cfg, c, i);
    forall u | u in d.flights ensures u < |c.issued| + 1 && FlightInv(cfg, d.regs, d.board, ref, u, d.flights[u]) {
      if u != |c.issued| {
        OtherFlightAtIssue(cfg, c, i, u);
      }
    }
  }

  lemma IssueQuiet(cfg: Config, c: Core, i: Instr)
    requires Inv(cfg, c) && InstrOk(cfg, i)
    requires Wb(i) ==> RegId(DstReg(i)) !in c.board.owners
    ensures var d := Issue(cfg, c, i);
      Quiet(cfg, d.regs, d.board, InOrderStep(InOrder(c.issued, cfg.threads), i, cfg.threads))
  {
    var d, ref := Issue(cfg, c, i), InOrder(c.issued, cfg.threads);
    forall r | r !in d.board.inUse
      ensures Read(d.regs, r, cfg.threads) == Read(InOrderStep(ref, i, cfg.threads), r, cfg.threads)
    {
      StepFrame(ref, i, cfg.threads, r);
    }
  }

  lemma IssueKeeps(cfg: Config, c: Core, i: Instr)
    requires Inv(cfg, c) && InstrOk(cfg, i) && !InUse(c.board, i)
    ensures (Wb(i) ==> RegId(DstReg(i)) !in c.board.owners) && Inv(cfg, Issue(cfg, c, i))
  {
    IssueLegal(cfg, c, i);
    InOrderSnoc(c.issued, i, cfg.threads);
    IssueFlights(cfg, c, i);
    IssueBoard(cfg, c, i);
    IssueQuiet(cfg, c, i);
  }

  // ----- commit -----

  lemma RestCovered(todo: seq<D.Trace>, threads: nat, n: nat, k: nat, t: nat)
    requires TodoOk(todo, threads, n) && k < |todo| && t < threads
    ensures var rest := Without(todo, k);
      && (forall j | 0 <= j < |rest| :: |rest[j].tmask| == threads)
      && (Covered(rest, t) <==> Covered(todo, t) && !todo[k].tmask[t])
  {
    var rest := Without(todo, k);
    assert forall j | 0 <= j < |rest| :: rest[j] == todo[if j < k then j else j + 1];
    if Covered(todo, t) && !todo[k].tmask[t] {
      var j :| 0 <= j < |todo| && todo[j].tmask[t];
      assert rest[if j < k then j else j - 1] == todo[j];
    }
  }

  lemma CommitFinishing(todo: seq<D.Trace>, n: nat, k: nat, cur: Lanes, data: Lanes, sel: seq<bool>, target: Lanes)
    requires TodoOk(todo, |cur|, n) && k < |todo| && Finishing(todo, cur, data, sel, target)
    ensures var rest, cur' := Without(todo, k), WriteLanes(cur, data, todo[k].tmask, sel);
      && (forall j | 0 <= j < |rest| :: |rest[j].tmask| == |cur'|)
      && Finishing(rest, cur', data, sel, target)
      && (rest == [] ==> cur' == target)
  {
    var rest, cur' := Without(todo, k), WriteLanes(cur, data, todo[k].tmask, sel);
    forall t | 0 <= t < |cur|
      ensures (forall j | 0 <= j < |rest| :: |rest[j].tmask| == |cur|)
           && target[t] == if Covered(rest, t) then Merge(cur'[t], data[t], sel) else cur'[t]
    {
      RestCovered(todo, |cur|, n, k, t);
    }
  }

  lemma RestOk(todo: seq<D.Trace>, threads: nat, n: nat, k: nat)
    requires TodoOk(todo, threads, n) && k < |todo| && |todo| > 1
    ensures TodoOk(Without(todo, k), threads, n)
  {
    var rest := Without(todo, k);
    assert forall j | 0 <= j < |rest| :: rest[j] == todo[if j < k then j else j + 1];
  }

  /** The effect of a commit on the board: counted, and released exactly with the last packet. */
  lemma CommitBoard(cfg: Config, c: Core, u: nat, k: nat)
    requires Inv(cfg, c) && u in c.flights && k < |c.flights[u].todo| && Wb(c.flights[u].instr)
    ensures CommitLegal(cfg, c, u, k)
    ensures var f, d := c.flights[u], Commit(cfg, c, u, k);
      var r := DstReg(f.instr);
      d.board == if |f.todo| == 1 then Board(c.board.inUse - {r}, c.board.owners - {RegId(r)}, c.board.counts - {RegId(r)})
                 else c.board.(counts := c.board.counts[RegId(r) := Count(c.board, r) + 1])
  {
    var f := c.flights[u];
    var r := DstReg(f.instr);
    assert FlightInv(cfg, c.regs, c.board, InOrder(c.issued, cfg.threads), u, f);
    assert f.todo[k].numPkts == Count(c.board, r) + |f.todo|;
    assert c.board.counts[RegId(r) := Count(c.board, r) + 1] - {RegId(r)} == c.board.counts - {RegId(r)};
  }

  ghost predicate CommitLegal(cfg: Config, c: Core, u: nat, k: nat) {
    && u in c.flights && k < |c.flights[u].todo| && |c.flights[u].todo[k].tmask| == cfg.threads
    && (Wb(c.flights[u].instr) ==>
          var r := DstReg(c.flights[u].instr); r in c.board.inUse && RegId(r) in c.board.owners)
  }

  /** In every reachable state the asserts of `release` hold for any packet that may commit. */
  lemma CommitIsLegal(cfg: Config, c: Core, u: nat, k: nat)
    requires Inv(cfg, c) && u in c.flights && k < |c.flights[u].todo|
    ensures CommitLegal(cfg, c, u, k)
  {
    assert FlightInv(cfg, c.regs, c.board, InOrder(c.issued, cfg.threads), u, c.flights[u]);
  }

  /** The committing flight itself, when packets remain. */
  lemma SameFlight(cfg: Config, c: Core, u: nat, k: nat)
    requires Inv(cfg, c) && CommitLegal(cfg, c, u, k) && |c.flights[u].todo| > 1
    ensures var d := Commit(cfg, c, u, k);
      u in d.flights && FlightInv(cfg, d.regs, d.board, InOrder(c.issued, cfg.threads), u, d.flights[u])
  {
    var f, ref := c.flights[u], InOrder(c.issued, cfg.threads);
    assert FlightInv(cfg, c.regs, c.board, ref, u, f);
    var n :| TodoOk(f.todo, cfg.threads, n);
    RestOk(f.todo, cfg.threads, n, k);
    if Wb(f.instr) {
      var r := DstReg(f.instr);
      CommitBoard(cfg, c, u, k);
      CommitFinishing(f.todo, n, k, Read(c.regs, r, cfg.threads), Result(f.instr, f.ops, cfg.threads), f.instr.bytesel,
                      Read(ref, r, cfg.threads));
    }
  }

  lemma OtherFlight(cfg: Config, c: Core, u: nat, k: nat, v: nat)
    requires Inv(cfg, c) && CommitLegal(cfg, c, u, k) && v in c.flights && v != u
    ensures var d := Commit(cfg, c, u, k); FlightInv(cfg, d.regs, d.board, InOrder(c.issued, cfg.threads), v, c.flights[v])
  {
    var ref, f, g := InOrder(c.issued, cfg.threads), c.flights[u], c.flights[v];
    var d := Commit(cfg, c, u, k);
    assert FlightInv(cfg, c.regs, c.board, ref, u, f) && FlightInv(cfg, c.regs, c.board, ref, v, g);
    if Wb(f.instr) {
      var r, q := DstReg(f.instr), DstReg(g.instr);
      CommitBoard(cfg, c, u, k);
      if Wb(g.instr) {
        assert q != r;
        if RegId(q) == RegId(r) {
          RegIdInjective(q, r);
        }
      }
      FlightFrame(cfg, c.regs, c.board, ref, d.regs, d.board, ref, r, v, g);
    }
  }

  lemma CommitQuiet(cfg: Config, c: Core, u: nat, k: nat)
    requires Inv(cfg, c) && CommitLegal(cfg, c, u, k)
    ensures var d := Commit(cfg, c, u, k); Quiet(cfg, d.regs, d.board, InOrder(c.issued, cfg.threads))
  {
    var f, ref, d := c.flights[u], InOrder(c.issued, cfg.threads), Commit(cfg, c, u, k);
    assert FlightInv(cfg, c.regs, c.board, ref, u, f);
    if Wb(f.instr) {
      var r := DstReg(f.instr);
      CommitBoard(cfg, c, u, k);
      var n :| TodoOk(f.todo, cfg.threads, n);
      CommitFinishing(f.todo, n, k, Read(c.regs, r, cfg.threads), Result(f.instr, f.ops, cfg.threads), f.instr.bytesel,
                      Read(ref, r, cfg.threads));
      forall q | q !in d.board.inUse ensures Read(d.regs, q, cfg.threads) == Read(ref, q, cfg.threads) {
      }
    }
  }

  lemma CommitBoardInv(cfg: Config, c: Core, u: nat, k: nat)
    requires Inv(cfg, c) && CommitLegal(cfg, c, u, k)
    ensures var d := Commit(cfg, c, u, k); BoardInv(d.board, d.flights)
  {
    var f, d := c.flights[u], Commit(cfg, c, u, k);
    assert FlightInv(cfg, c.regs, c.board, InOrder(c.issued, cfg.threads), u, f);
    if Wb(f.instr) {
      var r := DstReg(f.instr);
      CommitBoard(cfg, c, u, k);
      forall q | ValidReg(q) && q != r ensures RegId(q) != RegId(r) {
        if RegId(q) == RegId(r) {
          RegIdInjective(q, r);
        }
      }
    }
    forall q | q in d.board.inUse
      ensures ValidReg(q) && RegId(q) in d.board.owners && d.board.owners[RegId(q)] in d.flights
           && Wb(d.flights[d.board.owners[RegId(q)]].instr) && DstReg(d.flights[d.board.owners[RegId(q)]].instr) == q
    {
      assert q in c.board.inUse;
    }
  }

  lemma CommitKeeps(cfg: Config, c: Core, u: nat, k: nat)
    requires Inv(cfg, c) && u in c.flights && k < |c.flights[u].todo|
    ensures CommitLegal(cfg, c, u, k) && Inv(cfg, Commit(cfg, c, u, k))
  {
    CommitIsLegal(cfg, c, u, k);
    var d, ref := Commit(cfg, c, u, k), InOrder(c.issued, cfg.threads);
    CommitQuiet(cfg, c, u, k);
    CommitBoardInv(cfg, c, u, k);
    forall v | v in d.flights ensures v < |d.issued| && FlightInv(cfg, d.regs, d.board, ref, v, d.flights[v]) {
      if v == u {
        SameFlight(cfg, c, u, k);
      } else {
        OtherFlight(cfg, c, u, k, v);
      }
    }
  }

  // ----- whole runs -----

  /** The front end offers any instruction; the units return any packet. */
  datatype Action = Offer(i: Instr) | Return(uuid: nat, k: nat)

  /** A stalled offer changes nothing. */
  ghost function Step(cfg: Config, c: Core, a: Action): Core
    requires Inv(cfg, c)
  {
    match a
    case Offer(i) =>
      if InstrOk(cfg, i) && !InUse(c.board, i) then IssueKeeps(cfg, c, i); Issue(cfg, c, i) else c
    case Return(u, k) =>
      if u in c.flights && k < |c.flights[u].todo| then CommitKeeps(cfg, c, u, k); Commit(cfg, c, u, k) else c
  }

  lemma StepKeeps(cfg: Config, c: Core, a: Action)
    requires Inv(cfg, c)
    ensures Inv(cfg, Step(cfg, c, a))
  {
    match a
    case Offer(i) =>
      if InstrOk(cfg, i) && !InUse(c.board, i) {
        IssueKeeps(cfg, c, i);
      }
    case Return(u, k) =>
      if u in c.flights && k < |c.flights[u].todo| {
        CommitKeeps(cfg, c, u, k);
      }
  }

  /** The state after a run, and the operands each issued instruction captured. */
  ghost function Run(cfg: Config, c: Core, acts: seq<Action>, taken: seq<seq<Lanes>>): (Core, seq<seq<Lanes>>)
    requires Inv(cfg, c)
    decreases |acts|
  {
    if acts == [] then (c, taken)
    else
      StepKeeps(cfg, c, acts[0]);
      var d := Step(cfg, c, acts[0]);
      var more := if |d.issued| > |c.issued| then [d.flights[|c.issued|].ops] else [];
      Run(cfg, d, acts[1..], taken + more)
  }

  ghost predicate ReadsInOrder(cfg: Config, issued: seq<Instr>, taken: seq<seq<Lanes>>)
    requires Issuable(cfg, issued)
  {
    && |taken| == |issued|
    && forall k | 0 <= k < |issued| ::
         taken[k] == Operands(InOrder(issued[..k], cfg.threads), issued[k], cfg.threads)
  }

  lemma ReadsAdd(cfg: Config, issued: seq<Instr>, taken: seq<seq<Lanes>>, i: Instr, ops: seq<Lanes>)
    requires Issuable(cfg, issued) && InstrOk(cfg, i) && ReadsInOrder(cfg, issued, taken)
    requires ops == Operands(InOrder(issued, cfg.threads), i, cfg.threads)
    ensures Issuable(cfg, issued + [i]) && ReadsInOrder(cfg, issued + [i], taken + [ops])
  {
    forall k | 0 <= k < |issued + [i]|
      ensures (issued + [i])[..k] == if k < |issued| then issued[..k] else issued
    {
    }
  }

  lemma StepReads(cfg: Config, c: Core, a: Action, taken: seq<seq<Lanes>>)
    requires Inv(cfg, c) && ReadsInOrder(cfg, c.issued, taken)
    ensures var d := Step(cfg, c, a);
      && Issuable(cfg, d.issued)
      && ReadsInOrder(cfg, d.issued, taken + if |d.issued| > |c.issued| then [d.flights[|c.issued|].ops] else [])
  {
    match a
    case Return(_, _) => assert taken + [] == taken;
    case Offer(i) =>
      if InstrOk(cfg, i) && !InUse(c.board, i) {
        IssueKeeps(cfg, c, i);
        IssueReadsInOrder(cfg, c, i);
        ReadsAdd(cfg, c.issued, taken, i, Operands(c.regs, i, cfg.threads));
      } else {
        assert taken + [] == taken;
      }
  }

  /** For every program and every order in which packets return: each captured operand is the one
      in-order execution reads, and once nothing is in flight the registers are the in-order ones. */
  lemma {:induction false} RunIsInOrder(cfg: Config, c: Core, acts: seq<Action>, taken: seq<seq<Lanes>>)
    requires Inv(cfg, c) && ReadsInOrder(cfg, c.issued, taken)
    ensures var (d, rs) := Run(cfg, c, acts, taken);
      && Inv(cfg, d) && ReadsInOrder(cfg, d.issued, rs)
      && (d.flights == map[] ==>
            forall r :: Read(d.regs, r, cfg.threads) == Read(InOrder(d.issued, cfg.threads), r, cfg.threads))
    decreases |acts|
  {
    if acts == [] {
      if c.flights == map[] {
        assert c.board.inUse == {};
      }
    } else {
      StepKeeps(cfg, c, acts[0]);
      StepReads(cfg, c, acts[0], taken);
      var d := Step(cfg, c, acts[0]);
      RunIsInOrder(cfg, d, acts[1..], taken + if |d.issued| > |c.issued| then [d.flights[|c.issued|].ops] else []);
    }
  }

  /** A core out of reset. */
  lemma ResetInv(cfg: Config)
    ensures Inv(cfg, Core(map[], Board({}, map[], map[]), map[], [])) && ReadsInOrder(cfg, [], [])
  {
  }

  // ----- warps are independent, x0 is zero -----

  function Mine(prog: seq<Instr>, wid: nat): (m: seq<Instr>)
  {
    if prog == [] then []
    else
      var m := Mine(prog[..|prog| - 1], wid);
      if prog[|prog| - 1].wid == wid then m + [prog[|prog| - 1]] else m
  }

  lemma {:induction false} MineMasks(prog: seq<Instr>, wid: nat, threads: nat)
    requires forall k | 0 <= k < |prog| :: |prog[k].tmask| == threads
    ensures forall k | 0 <= k < |Mine(prog, wid)| :: |Mine(prog, wid)[k].tmask| == threads
  {
    if prog != [] {
      MineMasks(prog[..|prog| - 1], wid, threads);
    }
  }

  /** What a warp's registers hold depends only on that warp's own instructions, in their order. */
  lemma {:induction false} WarpIndependent(prog: seq<Instr>, r: Reg, threads: nat)
    requires forall k | 0 <= k < |prog| :: |prog[k].tmask| == threads
    ensures forall k | 0 <= k < |Mine(prog, r.wid)| :: |Mine(prog, r.wid)[k].tmask| == threads
    ensures Read(InOrder(prog, threads), r, threads) == Read(InOrder(Mine(prog, r.wid), threads), r, threads)
    decreases |prog|
  {
    MineMasks(prog, r.wid, threads);
    if prog != [] {
      var p, i := prog[..|prog| - 1], prog[|prog| - 1];
      MineMasks(p, r.wid, threads);
      var m := Mine(p, r.wid);
      var a, b := InOrder(p, threads), InOrder(m, threads);
      WarpIndependent(p, r, threads);
      if i.wid == r.wid {
        InOrderSnoc(m, i, threads);
        forall q: Reg | q.wid == r.wid ensures Read(a, q, threads) == Read(b, q, threads) {
          WarpIndependent(p, q, threads);
        }
        assert Operands(a, i, threads) == Operands(b, i, threads);
      } else {
        StepFrame(a, i, threads, r);
      }
    }
  }

  lemma {:induction false} ZeroRegister(prog: seq<Instr>, wid: nat, threads: nat)
    requires forall k | 0 <= k < |prog| :: |prog[k].tmask| == threads
    ensures Read(InOrder(prog, threads), Reg(wid, Integer, 0), threads) == Zeros(threads)
  {
    if prog != [] {
      ZeroRegister(prog[..|prog| - 1], wid, threads);
      StepFrame(InOrder(prog[..|prog| - 1], threads), prog[|prog| - 1], threads, Reg(wid, Integer, 0));
    }
  }

  // ----- what an instruction writes, byte by byte -----

  /** `i` writes byte `b` of lane `t` of register `r`: the register is its destination, which is
      there and not x0, the lane is active and the byte selected. */
  ghost predicate Overwrites(i: Instr, r: Reg, t: nat, b: nat) {
    && i.dst.kind != NoReg && !(i.dst.kind == Integer && i.dst.idx == 0)
    && r.wid == i.wid && r.kind == i.dst.kind && r.idx == i.dst.idx
    && t < |i.tmask| && i.tmask[t] && b < |i.bytesel| && i.bytesel[b]
  }

  /** Operand `k` is the warp's register that the instruction names, or zero if it names none. */
  ghost predicate OperandsOf(regs: Regs, i: Instr, threads: nat, ops: seq<Lanes>) {
    && |ops| == |i.srcs|
    && forall k | 0 <= k < |ops| ::
         ops[k] == if i.srcs[k].kind == NoReg then seq(threads, _ => [0, 0, 0, 0, 0, 0, 0, 0])
                   else Read(regs, Reg(i.wid, i.srcs[k].kind, i.srcs[k].idx), threads)
  }

  lemma OperandsExact(regs: Regs, i: Instr, threads: nat, ops: seq<Lanes>)
    ensures ops == Operands(regs, i, threads) <==> OperandsOf(regs, i, threads, ops)
  {
    if OperandsOf(regs, i, threads, ops) {
      forall k | 0 <= k < |ops| ensures ops[k] == Operands(regs, i, threads)[k] {
      }
    }
  }

  /** Registers are words of eight bytes. */
  ghost predicate Wide(regs: Regs, threads: nat) {
    forall r | r in regs :: |regs[r]| == threads && forall t | 0 <= t < threads :: |regs[r][t]| == 8
  }

  lemma ReadWide(regs: Regs, threads: nat, r: Reg, t: nat)
    requires Wide(regs, threads) && t < threads
    ensures |Read(regs, r, threads)| == threads && |Read(regs, r, threads)[t]| == 8
  {
  }

  lemma StepWide(regs: Regs, i: Instr, threads: nat)
    requires Wide(regs, threads) && |i.tmask| == threads
    ensures Wide(InOrderStep(regs, i, threads), threads)
  {
    if Wb(i) {
      var r := DstReg(i);
      forall t | 0 <= t < threads ensures |InOrderStep(regs, i, threads)[r][t]| == 8 {
        ReadWide(regs, threads, r, t);
      }
    }
  }

  lemma {:induction false} InOrderWide(prog: seq<Instr>, threads: nat)
    requires forall k | 0 <= k < |prog| :: |prog[k].tmask| == threads
    ensures Wide(InOrder(prog, threads), threads)
    decreases |prog|
  {
    if prog != [] {
      InOrderWide(prog[..|prog| - 1], threads);
      StepWide(InOrder(prog[..|prog| - 1], threads), prog[|prog| - 1], threads);
    }
  }

  /** One instruction changes exactly the bytes it overwrites, to what its unit computes from its
      operands. */
  lemma StepBytes(regs: Regs, i: Instr, threads: nat, ops: seq<Lanes>, r: Reg, t: nat, b: nat)
    requires Wide(regs, threads) && |i.tmask| == threads && OperandsOf(regs, i, threads, ops)
    requires t < threads && b < 8 && |i.exec(ops, t)| == 8
    ensures |Read(regs, r, threads)| == |Read(InOrderStep(regs, i, threads), r, threads)| == threads
    ensures |Read(regs, r, threads)[t]| == |Read(InOrderStep(regs, i, threads), r, threads)[t]| == 8
    ensures Read(InOrderStep(regs, i, threads), r, threads)[t][b]
      == if Overwrites(i, r, t, b) then i.exec(ops, t)[b] else Read(regs, r, threads)[t][b]
  {
    OperandsExact(regs, i, threads, ops);
    ReadWide(regs, threads, r, t);
    StepWide(regs, i, threads);
    ReadWide(InOrderStep(regs, i, threads), threads, r, t);
    if Wb(i) && r == DstReg(i) {
      StepTarget(regs, i, threads);
    } else {
      StepFrame(regs, i, threads, r);
    }
  }

  /** The registers a program leaves, byte by byte: those its last instruction overwrites hold what
      its unit computes, all others what the program without it leaves. */
  lemma InOrderBytes(prog: seq<Instr>, threads: nat, ops: seq<Lanes>, r: Reg, t: nat, b: nat)
    requires prog != [] && forall k | 0 <= k < |prog| :: |prog[k].tmask| == threads
    requires var n := |prog| - 1; OperandsOf(InOrder(prog[..n], threads), prog[n], threads, ops)
    requires t < threads && b < 8 && |prog[|prog| - 1].exec(ops, t)| == 8
    ensures var n := |prog| - 1;
      var before, after := Read(InOrder(prog[..n], threads), r, threads), Read(InOrder(prog, threads), r, threads);
      && |before| == |after| == threads && |before[t]| == |after[t]| == 8
      && after[t][b] == if Overwrites(prog[n], r, t, b) then prog[n].exec(ops, t)[b] else before[t][b]
  {
    var n := |prog| - 1;
    InOrderWide(prog[..n], threads);
    StepBytes(InOrder(prog[..n], threads), prog[n], threads, ops, r, t, b);
  }

  /** Before any program all registers are zero. */
  lemma InOrderStart(threads: nat, r: Reg)
    ensures Read(InOrder([], threads), r, threads) == seq(threads, _ => [0, 0, 0, 0, 0, 0, 0, 0])
  {
  }

  /** So it is in the pipeline: once nothing is in flight, the bytes that the last issued
      instruction overwrites hold what its unit computes from the operands it captured, and all
      others what the instructions before it leave. */
  lemma PipelineBytes(cfg: Config, c: Core, acts: seq<Action>, taken: seq<seq<Lanes>>, r: Reg, t: nat, b: nat)
    requires Inv(cfg, c) && ReadsInOrder(cfg, c.issued, taken) && t < cfg.threads && b < 8
    requires var (d, rs) := Run(cfg, c, acts, taken);
      && d.flights == map[] && d.issued != [] && |rs| == |d.issued|
      && |d.issued[|d.issued| - 1].exec(rs[|rs| - 1], t)| == 8
    ensures var (d, rs) := Run(cfg, c, acts, taken);
      var n := |d.issued| - 1;
      && Issuable(cfg, d.issued[..n]) && Issuable(cfg, d.issued)
      && var before, now := Read(InOrder(d.issued[..n], cfg.threads), r, cfg.threads), Read(d.regs, r, cfg.threads);
         && OperandsOf(InOrder(d.issued[..n], cfg.threads), d.issued[n], cfg.threads, rs[n])
         && |before| == |now| == cfg.threads && |before[t]| == |now[t]| == 8
         && now[t][b] == if Overwrites(d.issued[n], r, t, b) then d.issued[n].exec(rs[n], t)[b] else before[t][b]
  {
    RunIsInOrder(cfg, c, acts, taken);
    var (d, rs) := Run(cfg, c, acts, taken);
    var n := |d.issued| - 1;
    OperandsExact(InOrder(d.issued[..n], cfg.threads), d.issued[n], cfg.threads, rs[n]);
    InOrderBytes(d.issued, cfg.threads, rs[n], r, t, b);
  }
}
