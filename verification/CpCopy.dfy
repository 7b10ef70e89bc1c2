/** The copy engine moves a buffer in 64 KiB chunks, low addresses first.  It is a memmove
    exactly when the transfer fits one chunk or the destination does not overlap the source
    from above. */
module CpCopy {
  import opened CpModel

  /** `m` is `m0` after the first `done` bytes at `src` were moved to `dst`. */
  ghost predicate Moved(m0: Memory, m: Memory, dst: nat, src: nat, done: nat) {
    forall a: nat {:trigger At(m, a)} :: At(m, a) == if dst <= a < dst + done then At(m0, src + (a - dst)) else At(m0, a)
  }

  predicate Safe(dst: nat, src: nat, total: nat) { total <= CHUNK || dst <= src || src + total <= dst }

  lemma CopyStep(m: Memory, dst: nat, src: nat, total: nat, done: nat)
    requires done < total && dst + total <= U64 && src + total <= U64
    ensures var n := Min(total - done, CHUNK);
      CopyChunks(m, dst, src, total, done)
      == CopyChunks(WriteMem(m, dst + done, ReadMem(m, src + done, n)), dst, src, total, done + n)
  {
    assert (dst + done) % U64 == dst + done && (src + done) % U64 == src + done;
  }

  lemma {:induction false} SafeCopyMoves(m0: Memory, m: Memory, dst: nat, src: nat, total: nat, done: nat)
    requires done <= total && dst + total <= U64 && src + total <= U64
    requires Safe(dst, src, total) && (done == 0 || done == total || done >= CHUNK) && Moved(m0, m, dst, src, done)
    ensures Moved(m0, CopyChunks(m, dst, src, total, done), dst, src, total)
    decreases total - done
  {
    if done < total {
      var n := Min(total - done, CHUNK);
      CopyStep(m, dst, src, total, done);
      ChunkMoves(m0, m, dst, src, done, n);
      SafeCopyMoves(m0, WriteMem(m, dst + done, ReadMem(m, src + done, n)), dst, src, total, done + n);
    }
  }

  /** One more chunk, when what is already moved does not reach into it. */
  lemma ChunkMoves(m0: Memory, m: Memory, dst: nat, src: nat, done: nat, n: nat)
    requires Moved(m0, m, dst, src, done) && (done == 0 || dst <= src || src + done + n <= dst)
    ensures Moved(m0, WriteMem(m, dst + done, ReadMem(m, src + done, n)), dst, src, done + n)
  {
    var chunk := ReadMem(m, src + done, n);
    var m1, k := WriteMem(m, dst + done, chunk), done + n;
    forall a: nat ensures At(m1, a) == if dst <= a < dst + k then At(m0, src + (a - dst)) else At(m0, a) {
      if dst + done <= a < dst + done + n {
        var x := src + (a - dst);
        assert At(m1, a) == chunk[a - dst - done] == At(m, x);
        assert !(dst <= x < dst + done);
        assert At(m, x) == At(m0, x);
      } else {
        assert At(m1, a) == At(m, a);
      }
    }
    assert Moved(m0, m1, dst, src, k);
  }

  /** Up to `done`, every byte is zero except perhaps the one at `odd`, which is also zero once
      the destination has covered it. */
  ghost predicate Blank(m: Memory, odd: nat, dst: nat, done: nat) {
    forall a: nat :: At(m, a) != 0 ==> a == odd && !(dst <= a < dst + done)
  }

  /** The start of the last chunk. */
  function LastChunk(total: nat): nat
    requires total > 0
  {
    (total - 1) / CHUNK * CHUNK
  }

  lemma BlankChunk(m: Memory, dst: nat, src: nat, done: nat, n: nat, p: nat)
    requires Blank(m, src + p, dst, done) && done + n <= p
    ensures Blank(WriteMem(m, dst + done, ReadMem(m, src + done, n)), src + p, dst, done + n)
  {
    var chunk := ReadMem(m, src + done, n);
    var m1 := WriteMem(m, dst + done, chunk);
    forall a: nat | At(m1, a) != 0 ensures a == src + p && !(dst <= a < dst + done + n) {
      assert At(m1, a) == if dst + done <= a < dst + done + n then At(m, src + (a - dst)) else At(m, a);
    }
  }

  lemma LastChunkSplits(total: nat, done: nat)
    requires total > 0 && done % CHUNK == 0 && done <= LastChunk(total)
    ensures LastChunk(total) < total <= LastChunk(total) + CHUNK
    ensures done < LastChunk(total) ==> done + CHUNK <= LastChunk(total) && (done + CHUNK) % CHUNK == 0
  {
  }

  lemma ByteMoves(m: Memory, dst: nat, src: nat, done: nat, n: nat, p: nat)
    requires done <= p < done + n
    ensures At(WriteMem(m, dst + done, ReadMem(m, src + done, n)), dst + p) == At(m, src + p)
  {
    assert ReadMem(m, src + done, n)[p - done] == At(m, src + p);
  }

  lemma CopyLast(m: Memory, dst: nat, src: nat, total: nat, done: nat)
    requires done < total <= done + CHUNK && dst + total <= U64 && src + total <= U64
    ensures CopyChunks(m, dst, src, total, done) == WriteMem(m, dst + done, ReadMem(m, src + done, total - done))
  {
    CopyStep(m, dst, src, total, done);
  }

  lemma {:induction false} OverlapLoses(m: Memory, dst: nat, src: nat, total: nat, done: nat, p: nat)
    requires dst + total <= U64 && src + total <= U64
    requires done % CHUNK == 0 && total > 0 && done <= LastChunk(total) <= p < total && dst <= src + p < dst + LastChunk(total)
    requires Blank(m, src + p, dst, done)
    ensures At(CopyChunks(m, dst, src, total, done), dst + p) == 0
    decreases total - done
  {
    LastChunkSplits(total, done);
    if done < LastChunk(total) {
      CopyStep(m, dst, src, total, done);
      BlankChunk(m, dst, src, done, CHUNK, p);
      OverlapLoses(WriteMem(m, dst + done, ReadMem(m, src + done, CHUNK)), dst, src, total, done + CHUNK, p);
    } else {
      CopyLast(m, dst, src, total, done);
      ByteMoves(m, dst, src, done, total - done, p);
    }
  }

  /** The exact condition under which the chunked copy is a memmove for every memory. */
  lemma CopyIsMemmove(dst: nat, src: nat, total: nat)
    requires dst + total <= U64 && src + total <= U64
    ensures (forall m: Memory :: Moved(m, CopyChunks(m, dst, src, total, 0), dst, src, total)) <==> Safe(dst, src, total)
  {
    if Safe(dst, src, total) {
      forall m: Memory ensures Moved(m, CopyChunks(m, dst, src, total, 0), dst, src, total) {
        SafeCopyMoves(m, m, dst, src, total, 0);
      }
    } else {
      var p := if LastChunk(total) < dst - src then dst - src else LastChunk(total);
      var m: Memory := (a: nat) => if a == src + p then 1 else 0;
      assert forall a: nat :: At(m, a) == if a == src + p then 1 else 0;
      OverlapLoses(m, dst, src, total, 0, p);
      assert At(m, src + p) != At(CopyChunks(m, dst, src, total, 0), dst + p);
      assert !Moved(m, CopyChunks(m, dst, src, total, 0), dst, src, total);
    }
  }
}
