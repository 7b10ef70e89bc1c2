/** The scoreboard, the register file and the issue and commit stages as objects, proved against
    the functions of `Pipeline`. */
module CorePipeline {
  import opened Basics
  import opened Pipeline
  import D = Dispatcher

  class Scoreboard {
    var inUse: set<Reg>
    var owners: map<nat, nat>
    var counts: map<nat, nat>

    ghost function View(): Board
      reads this
    {
      Board(inUse, owners, counts)
    }

    constructor ()
      ensures View() == Board({}, map[], map[])
    {
      inUse, owners, counts := {}, map[], map[];
    }

    /** True when the destination or a source of `i` is reserved. */
    method CheckInUse(i: Instr) returns (busy: bool)
      ensures busy == InUse(View(), i)
    {
      if Wb(i) && DstReg(i) in inUse {
        return true;
      }
      for k := 0 to |i.srcs|
        invariant forall j | 0 <= j < k :: i.srcs[j].kind == NoReg || Reg(i.wid, i.srcs[j].kind, i.srcs[j].idx) !in inUse
      {
        if i.srcs[k].kind != NoReg && Reg(i.wid, i.srcs[k].kind, i.srcs[k].idx) in inUse {
          return true;
        }
      }
      return false;
    }

    method Reserve(r: Reg, uuid: nat)
      requires RegId(r) !in owners
      modifies this
      ensures View() == Pipeline.Reserve(old(View()), r, uuid)
    {
      inUse := inUse + {r};
      owners := owners[RegId(r) := uuid];
    }

    /** Counts one committed packet; true when it was the last of `numPkts`. */
    method CommitPacket(r: Reg, numPkts: nat) returns (last: bool)
      modifies this`counts
      ensures View() == Pipeline.CommitPacket(old(View()), r)
      ensures last == (Count(View(), r) >= numPkts)
    {
      if RegId(r) !in counts {
        counts := counts[RegId(r) := 0];
      }
      counts := counts[RegId(r) := counts[RegId(r)] + 1];
      last := counts[RegId(r)] >= numPkts;
    }

    method Release(r: Reg)
      requires r in inUse && RegId(r) in owners
      modifies this
      ensures View() == Pipeline.Release(old(View()), r)
    {
      owners := owners - {RegId(r)};
      counts := counts - {RegId(r)};
      inUse := inUse - {r};
    }
  }

  class RegFile {
    const threads: nat
    var regs: Regs

    constructor (threads: nat)
      ensures this.threads == threads && regs == map[]
    {
      this.threads, regs := threads, map[];
    }

    method FetchOperands(i: Instr) returns (ops: seq<Lanes>)
      ensures ops == Operands(regs, i, threads)
    {
      ops := [];
      for k := 0 to |i.srcs|
        invariant |ops| == k && forall j | 0 <= j < k :: ops[j] == Operand(regs, i.wid, i.srcs[j], threads)
      {
        ops := ops + [Operand(regs, i.wid, i.srcs[k], threads)];
      }
    }

    /** Lane by lane: active lanes merge the selected bytes, the others keep their value. */
    method Writeback(r: Reg, data: Lanes, mask: D.Mask, sel: seq<bool>)
      requires |data| == |mask| == threads
      modifies this`regs
      ensures regs == old(regs)[r := WriteLanes(Read(old(regs), r, threads), data, mask, sel)]
    {
      var cur := Read(regs, r, threads);
      var bank := cur;
      for t := 0 to threads
        invariant |bank| == threads
        invariant forall x | 0 <= x < threads :: bank[x] == if x < t && mask[x] then Merge(cur[x], data[x], sel) else cur[x]
      {
        if mask[t] {
          bank := bank[t := Merge(bank[t], data[t], sel)];
        }
      }
      assert bank == WriteLanes(cur, data, mask, sel);
      regs := regs[r := bank];
    }
  }

  class CoreUnit {
    const cfg: Config
    const board: Scoreboard
    const file: RegFile
    var flights: map<nat, Flight>
    ghost var issued: seq<Instr>
    var uuids: nat

    ghost function View(): Core
      reads this, board, file
    {
      Core(file.regs, board.View(), flights, issued)
    }

    /** The object is wired up and its state satisfies the pipeline invariant. */
    ghost predicate Valid()
      reads this, board, file
    {
      file.threads == cfg.threads && uuids == |issued| && Inv(cfg, View())
    }

    constructor (cfg: Config)
      ensures Valid() && fresh(board) && fresh(file) && this.cfg == cfg
      ensures View() == Core(map[], Board({}, map[], map[]), map[], [])
    {
      this.cfg := cfg;
      board := new Scoreboard();
      file := new RegFile(cfg.threads);
      flights, issued, uuids := map[], [], 0;
      new;
      ResetInv(cfg);
    }

    /** Issues `i` unless the scoreboard holds one of its registers. */
    method TryIssue(i: Instr) returns (ok: bool)
      requires Valid() && InstrOk(cfg, i)
      modifies this, board
      ensures Valid() && ok == !InUse(old(View().board), i) && View() == Step(cfg, old(View()), Offer(i))
    {
      ghost var c := View();
      var busy := board.CheckInUse(i);
      if busy {
        return false;
      }
      IssueKeeps(cfg, c, i);
      var ops := file.FetchOperands(i);
      if Wb(i) {
        board.Reserve(DstReg(i), uuids);
      }
      flights := flights[uuids := Flight(i, ops, D.Split(D.Trace(uuids, i.tmask, 1, -1, true, true), cfg.lanes))];
      issued, uuids := issued + [i], uuids + 1;
      return true;
    }

    /** Packet `k` of `uuid` reaches commit. */
    method CommitOne(uuid: nat, k: nat)
      requires Valid() && uuid in flights && k < |flights[uuid].todo|
      modifies this, board, file
      ensures Valid() && View() == Step(cfg, old(View()), Return(uuid, k))
    {
      ghost var c := View();
      CommitKeeps(cfg, c, uuid, k);
      var f := flights[uuid];
      var p := f.todo[k];
      if Wb(f.instr) {
        var r := DstReg(f.instr);
        file.Writeback(r, Result(f.instr, f.ops, cfg.threads), p.tmask, f.instr.bytesel);
        var last := board.CommitPacket(r, p.numPkts);
        if last {
          board.Release(r);
        }
      }
      var rest := Without(f.todo, k);
      flights := if rest == [] then flights - {uuid} else flights[uuid := f.(todo := rest)];
    }
  }
}
