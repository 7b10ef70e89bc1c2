/** The records of the command ring: how long each is, that it holds all its command needs, and what
    a truncated one is taken for. */
module CpFormat {
  import opened CpModel
  import opened CpRuns
  import opened CpEffects

  /** Record lengths by opcode number: a four-byte header, and eight bytes for each argument; only
      the fence's argument has four.  An unknown opcode is a bare header. */
  lemma RecordSizes(op: byte)
    ensures op in {1, 2, 3, 9} ==> SizeOf(op) == 4 + 8 + 8 + 8
    ensures op in {4, 5, 8} ==> SizeOf(op) == 4 + 8 + 8
    ensures op in {6, 10, 11, 12} ==> SizeOf(op) == 4 + 8
    ensures op == 7 ==> SizeOf(op) == 4 + 4
    ensures op == 0 || op > 12 ==> SizeOf(op) == 4
  {
  }

  /** The command in hand, replaced. */
  function Holding(s: Sys, c: Cmd): Sys { s.(cp := s.cp.(cur := c)) }

  lemma SameCopy(dev: Device, m: Memory, a: Cmd, b: Cmd)
    requires SameMeaning(a, b)
    ensures BidMem(m, a, dev) == BidMem(m, b, dev) && (a.opcode == OP_EVENT_WAIT ==> WaitSatisfied(m, a) == WaitSatisfied(m, b))
  {
  }

  /** What a command does depends on nothing outside its record: two commands that agree on it are
      executed alike, hook calls, memory, waiting and all. */
  lemma RecordSuffices(s: Sys, b: Cmd, dev: Device)
    requires SameMeaning(s.cp.cur, b) && s.cp.eng in {Decode, Bid} && CurKnown(s.cp)
    ensures TickEngine(Holding(s, b), dev) == Holding(TickEngine(s, dev), b)
  {
    SameCopy(dev, s.mem, s.cp.cur, b);
  }

  lemma {:induction false} RdExtended(buf: seq<byte>, z: seq<byte>, o: nat, n: nat)
    requires Zeros(z)
    ensures Rd(buf + z, o, n) == Rd(buf, o, n)
    decreases n
  {
    if n > 0 {
      RdExtended(buf, z, o + 1, n - 1);
    }
  }

  /** A record cut off by the end of the buffer reads as if zeros followed. */
  lemma ZeroExtended(buf: seq<byte>, z: seq<byte>, off: nat)
    requires Zeros(z)
    ensures DecodeAt(buf + z, off) == DecodeAt(buf, off)
  {
    RdExtended(buf, z, off + 2, 2);
    RdExtended(buf, z, off + 4, 8);
    RdExtended(buf, z, off + 12, 8);
    RdExtended(buf, z, off + 20, 8);
  }

  /** A ring of eight `n` address bits is as large as the values of `n` bytes are many. */
  lemma {:induction false} RingSize(n: nat)
    ensures Pow2(8 * n) == Pow256(n)
  {
    if n > 0 {
      RingSize(n - 1);
      assert Pow2(8 * n) == 2 * Pow2(8 * n - 1) == 4 * Pow2(8 * n - 2) == 8 * Pow2(8 * n - 3) == 16 * Pow2(8 * n - 4);
      assert Pow2(8 * n - 4) == 2 * Pow2(8 * n - 5) == 4 * Pow2(8 * n - 6) == 8 * Pow2(8 * n - 7) == 16 * Pow2(8 * n - 8);
    }
  }

  /** Only the low bits of the two control registers count, and both must be set: otherwise a tick
      changes nothing but the cycle counter, and with them a waiting line is taken up. */
  lemma EnableBits(s: Sys, dev: Device, busy: bool, x: nat, e: nat, y: nat, f: nat)
    requires s.cp.ctrl == 2 * x + e && s.cp.q.control == 2 * y + f && e <= 1 && f <= 1
    ensures e == 0 || f == 0 ==> Tick(s, dev, busy) == s.(cycle := (s.cycle + 1) % U64)
    ensures e == 1 && f == 1 && s.cp.eng == Idle && s.cp.launch == LIdle && !s.cp.cl.loaded && s.cp.q.head < s.cp.q.tail < U64 ==>
      var t := Tick(s, dev, busy).cp; t.eng == Decode || (t.eng == Idle && t.q.head == (s.cp.q.head + LINE) % U64)
  {
  }
}
