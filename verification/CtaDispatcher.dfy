/** The CTA dispatcher as an object over its slot and warp tables, proved against `CtaModel`. */
module CtaDispatcher {
  import opened Basics
  import opened ThreadIds
  import opened CtaModel
  import R = CtaRuns

  class CtaDispatcher {
    const c: Config
    const rem: array<nat>
    const slotOf: array<nat>
    const inited: array<bool>
    var tail: nat
    var has: bool
    var cur: nat
    var cta: Cta
    var size: nat
    var rank: nat
    var left: nat
    var tid: Dim3
    var lmemAddr: nat
    var pending: Option<Cta>
    var pc: nat

    ghost function View(): State
      reads this, rem, slotOf, inited
    {
      State(rem[..], slotOf[..], tail, has, cur, cta, size, rank, left, tid, lmemAddr, pending, pc, inited[..])
    }

    ghost predicate Valid()
      reads this, rem, slotOf, inited
    {
      rem != slotOf && R.Conserved(c, View()) && R.Handing(c, View())
    }

    constructor (c: Config, none: Cta)
      requires ConfigOk(c)
      ensures Valid() && this.c == c && fresh(rem) && fresh(slotOf) && fresh(inited)
      ensures !has && pending.None? && tail == 0 && forall w | 0 <= w < c.warps :: slotOf[w] == c.warps
    {
      this.c := c;
      rem := new nat[c.warps](_ => 0);
      slotOf := new nat[c.warps](_ => c.warps);
      inited := new bool[c.warps](_ => false);
      tail, has, cur, cta, size, rank, left, tid, lmemAddr, pending, pc :=
        0, false, 0, none, 0, 0, 0, Dim3(0, 0, 0), 0, None, 0;
      new;
      forall k | 0 <= k < c.warps ensures R.Mapped(slotOf[..], k) == 0 {
        NoneMapped(slotOf[..], k);
      }
    }

    static lemma {:induction false} NoneMapped(slots: seq<nat>, k: nat)
      requires k !in slots
      ensures R.Mapped(slots, k) == 0
    {
      if slots != [] {
        NoneMapped(slots[..|slots| - 1], k);
      }
    }

    /** Floor of capacity over stride, at least one and at most the warp count. */
    method UsableSlots(stride: nat) returns (n: nat)
      ensures n == Usable(c, stride)
    {
      if stride == 0 {
        return c.warps;
      }
      n := c.lmemCap / stride;
      if n > c.warps {
        n := c.warps;
      }
      if n == 0 {
        n := 1;
      }
    }

    /** Tries to admit a CTA when none is being handed out. */
    method LoadCta(next: Option<Cta>)
      requires Valid() && CtaOk(next)
      modifies this, rem, inited
      ensures Valid() && View() == Load(c, old(View()), next)
    {
      ghost var s := View();
      R.LoadConserves(c, s, next);
      R.LoadHands(c, s, next);
      if has {
        return;
      }
      if pending.None? {
        if next.None? {
          return;
        }
        pending := next;
      }
      TryAdmit();
    }

    method TryAdmit()
      requires Shape(c, View()) && !has && pending.Some? && rem != slotOf
      modifies this, rem, inited
      ensures var s := old(View()); var a := s.pending.value;
        View() == if Admits(c, s, a) then Accept(c, s, a) else s.(tail := Tail(s.tail, Slots(c, a)))
    {
      var a := pending.value;
      WindowFits(c, tail, a);
      var stride := Stride(c, a.lmemSize);
      var max := UsableSlots(stride);
      if tail >= max {
        tail := 0;
      }
      var base, k := tail, 1;
      if a.first {
        k := ClusterSize(a);
        if base + k > max {
          base := 0;
        }
        if k > max {
          k := max;
        }
      }
      var free := CheckWindow(base, k);
      if free {
        AcceptPending(base, Warps(a.blockSize, c.threads), c.lmemBase + base * stride, (base + 1) % max);
      }
    }

    method CheckWindow(base: nat, k: nat) returns (free: bool)
      requires base + k <= rem.Length
      ensures free == WindowFree(rem[..], base, k)
    {
      for i := 0 to k
        invariant forall j | base <= j < base + i :: rem[j] == 0
      {
        if rem[base + i] != 0 {
          assert rem[..][base + i] != 0;
          return false;
        }
      }
      return true;
    }

    method AcceptPending(base: nat, warps: nat, addr: nat, newTail: nat)
      requires rem.Length == inited.Length == c.warps && base < c.warps && pending.Some? && rem != slotOf
      modifies this, rem, inited
      ensures rem[..] == old(rem[..])[base := warps] && tail == newTail && has && cur == base && size == warps && rank == 0
      ensures cta == old(pending.value) && left == cta.blockSize && tid == Dim3(0, 0, 0) && lmemAddr == addr
      ensures pending == None && pc == cta.pc
      ensures inited[..] == if cta.pc != old(pc) then seq(c.warps, _ => false) else old(inited[..])
    {
      var a := pending.value;
      NoteKernel(a.pc);
      cta, pending := a, None;
      size, rank, left, tid := warps, 0, a.blockSize, Dim3(0, 0, 0);
      cur, lmemAddr := base, addr;
      rem[base] := warps;
      tail, has := newTail, true;
    }

    /** A new kernel forgets which warps were initialised. */
    method NoteKernel(kernel: nat)
      requires inited.Length == c.warps
      modifies this`pc, inited
      ensures pc == kernel
      ensures inited[..] == if kernel != old(pc) then seq(c.warps, _ => false) else old(inited[..])
    {
      if kernel != pc {
        pc := kernel;
        ClearInited();
      }
    }

    method ClearInited()
      modifies inited
      ensures inited[..] == seq(inited.Length, _ => false)
    {
      for i := 0 to inited.Length
        invariant forall j | 0 <= j < i :: !inited[j]
      {
        inited[i] := false;
      }
    }

    /** The record of the next rank; advances the running index. */
    method NextWarp(doInit: bool) returns (rec: Warp)
      requires has
      modifies this`rank, this`left, this`tid, this`has
      ensures var n := if old(left) >= c.threads then c.threads else old(left);
        && rec == Warp(doInit, cur, old(rank), size, old(tid), n, lmemAddr)
        && left == old(left) - n && rank == old(rank) + 1 && has == (old(rank) + 1 < size)
        && tid == Advance(old(tid), cta.warpStep, cta.blockDim)
    {
      var n := if left >= c.threads then c.threads else left;
      rec := Warp(doInit, cur, rank, size, tid, n, lmemAddr);
      var nextX := tid.x + cta.warpStep.x;
      var wrapX := nextX >= cta.blockDim.x;
      var nextY := tid.y + cta.warpStep.y + (if wrapX then 1 else 0);
      var wrapY := nextY >= cta.blockDim.y;
      tid := Dim3(if wrapX then nextX - cta.blockDim.x else nextX,
                  if wrapY then nextY - cta.blockDim.y else nextY,
                  tid.z + cta.warpStep.z + (if wrapY then 1 else 0));
      left := left - n;
      rank := rank + 1;
      if rank >= size {
        has := false;
      }
    }

    /** Dispatches one warp rank into the lowest free warp, if there is one. */
    method DispatchStep(active: seq<bool>, next: Option<Cta>) returns (out: Option<(nat, Warp)>)
      requires Valid() && CtaOk(next) && R.Covers(c, View(), active)
      modifies this, rem, slotOf, inited
      ensures Valid() && (View(), out) == Step(c, old(View()), active, next)
    {
      R.LoadConserves(c, View(), next);
      LoadShape(c, View(), next);
      LoadCta(next);
      if !has {
        return None;
      }
      var w := FindFree(active);
      if w == c.warps {
        return None;
      }
      var rec := HandOut(w);
      return Some((w, rec));
    }

    /** Gives the next rank to warp `w`. */
    method HandOut(w: nat) returns (rec: Warp)
      requires Valid() && has && w < c.warps && slotOf[w] == c.warps
      modifies this`rank, this`left, this`tid, this`has, slotOf, inited
      ensures Valid() && (View(), rec) == Dispatch(c, old(View()), w)
    {
      R.DispatchConserves(c, View(), w);
      R.DispatchHands(c, View(), w);
      rec := NextWarp(!inited[w]);
      inited[w] := true;
      slotOf[w] := cur;
    }

    method FindFree(active: seq<bool>) returns (w: nat)
      ensures w == FreeWarp(active, 0) <= |active| && (w < |active| ==> !active[w])
    {
      w := 0;
      while w < |active| && active[w]
        invariant w <= |active| && FreeWarp(active, w) == FreeWarp(active, 0)
      {
        w := w + 1;
      }
    }

    method WarpDone(w: nat)
      requires Valid() && w < c.warps
      modifies rem, slotOf
      ensures Valid() && (old(slotOf[w]) < c.warps ==> old(rem[slotOf[w]]) > 0) && View() == Done(c, old(View()), w)
    {
      R.DoneConserves(c, View(), w);
      var slot := slotOf[w];
      if slot >= c.warps {
        return;
      }
      slotOf[w] := c.warps;
      assert rem[slot] > 0;
      rem[slot] := rem[slot] - 1;
    }
  }
}
