/** The simulated RAM: pages allocated on first write, grouped in chunk directories, with the
    last directory cached.  It behaves as a total byte map with a fixed fill pattern. */
module SparseRam {
  import A = Acl

  const CHUNK_SIZE: nat := 1024
  const U64: nat := 0x1_0000_0000_0000_0000

  type byte = x: int | 0 <= x < 256

  datatype Page = NoPage | Page(bytes: seq<byte>)

  /** Chunk directories by chunk index. */
  type Store = map<nat, seq<Page>>

  datatype Config = Config(capacity: nat, pageSize: nat)

  /** The bytes of 0xbaadf00d, lowest first. */
  function Pattern(off: nat): byte { [0x0d, 0xf0, 0xad, 0xba][off % 4] }

  function FreshPage(pageSize: nat): seq<byte> { seq(pageSize, (i: nat) => Pattern(i)) }

  // ----- where a byte lives -----

  datatype Place = Place(chunk: nat, slot: nat, off: nat)

  function Locate(c: Config, a: nat): Place
    requires c.pageSize > 0
  {
    var page := a / c.pageSize;
    Place(page / CHUNK_SIZE, page % CHUNK_SIZE, a % c.pageSize)
  }

  lemma LocateInjective(c: Config, a: nat, b: nat)
    requires c.pageSize > 0 && Locate(c, a) == Locate(c, b)
    ensures a == b
  {
    var p, q := a / c.pageSize, b / c.pageSize;
    assert p == q;
    assert a == p * c.pageSize + a % c.pageSize && b == q * c.pageSize + b % c.pageSize;
  }

  ghost predicate ChunkOk(c: Config, d: seq<Page>) {
    |d| == CHUNK_SIZE && forall i | 0 <= i < |d| && d[i].Page? :: |d[i].bytes| == c.pageSize
  }

  ghost predicate StoreOk(c: Config, s: Store) {
    c.pageSize > 0 && forall k | k in s :: ChunkOk(c, s[k])
  }

  function ByteAt(c: Config, s: Store, p: Place): byte {
    if p.chunk in s && p.slot < |s[p.chunk]| && s[p.chunk][p.slot].Page? && p.off < |s[p.chunk][p.slot].bytes|
    then s[p.chunk][p.slot].bytes[p.off] else Pattern(p.off)
  }

  /** The byte map a store stands for. */
  function At(c: Config, s: Store, a: nat): byte
    requires c.pageSize > 0
  {
    ByteAt(c, s, Locate(c, a))
  }

  // ----- one byte -----

  function EmptyChunk(): seq<Page> { seq(CHUNK_SIZE, _ => NoPage) }

  function Dir(s: Store, k: nat): seq<Page> { if k in s then s[k] else EmptyChunk() }

  function Bytes(c: Config, p: Page): seq<byte> { if p.Page? then p.bytes else FreshPage(c.pageSize) }

  function Put(c: Config, s: Store, p: Place, v: byte): Store
    requires StoreOk(c, s) && p.slot < CHUNK_SIZE && p.off < c.pageSize
  {
    var d := Dir(s, p.chunk);
    s[p.chunk := d[p.slot := Page(Bytes(c, d[p.slot])[p.off := v])]]
  }

  lemma ChunkAdded(c: Config, s: Store, k: nat)
    requires StoreOk(c, s)
    ensures StoreOk(c, s[k := EmptyChunk()])
  {
  }

  lemma PutAt(c: Config, s: Store, p: Place, v: byte, q: Place)
    requires StoreOk(c, s) && p.slot < CHUNK_SIZE && p.off < c.pageSize && q.slot < CHUNK_SIZE && q.off < c.pageSize
    ensures StoreOk(c, Put(c, s, p, v))
    ensures ByteAt(c, Put(c, s, p, v), q) == if p == q then v else ByteAt(c, s, q)
  {
  }

  /** `t` is `s` with byte `a` set to `v`. */
  ghost predicate Updated(c: Config, s: Store, t: Store, a: nat, v: byte)
    requires c.pageSize > 0
  {
    forall x: nat {:trigger At(c, t, x)} :: At(c, t, x) == if x == a then v else At(c, s, x)
  }

  lemma LocateRange(c: Config, a: nat)
    requires c.pageSize > 0
    ensures Locate(c, a).slot < CHUNK_SIZE && Locate(c, a).off < c.pageSize
  {
  }

  lemma PutUpdates(c: Config, s: Store, a: nat, v: byte)
    requires StoreOk(c, s)
    ensures var p := Locate(c, a);
      p.slot < CHUNK_SIZE && p.off < c.pageSize && StoreOk(c, Put(c, s, p, v)) && Updated(c, s, Put(c, s, p, v), a, v)
  {
    var p := Locate(c, a);
    LocateRange(c, a);
    var t := Put(c, s, p, v);
    PutAt(c, s, p, v, p);
    forall x: nat ensures At(c, t, x) == if x == a then v else At(c, s, x) {
      LocateRange(c, x);
      PutAt(c, s, p, v, Locate(c, x));
      if Locate(c, x) == p {
        LocateInjective(c, x, a);
      }
    }
  }

  // ----- ranges -----

  /** Bytes `[0, n)` of `data` at `addr`, everything else as in `s`. */
  ghost predicate Written(c: Config, s: Store, t: Store, addr: nat, data: seq<byte>, n: nat)
    requires c.pageSize > 0 && n <= |data|
  {
    forall x: nat {:trigger At(c, t, x)} :: At(c, t, x) == if addr <= x < addr + n then data[x - addr] else At(c, s, x)
  }

  lemma WrittenNext(c: Config, s: Store, t: Store, u: Store, addr: nat, data: seq<byte>, n: nat)
    requires c.pageSize > 0 && n < |data| && Written(c, s, t, addr, data, n) && Updated(c, t, u, addr + n, data[n])
    ensures Written(c, s, u, addr, data, n + 1)
  {
    forall x: nat ensures At(c, u, x) == if addr <= x < addr + n + 1 then data[x - addr] else At(c, s, x) {
      assert At(c, t, x) == if addr <= x < addr + n then data[x - addr] else At(c, s, x);
    }
  }

  /** Bytes `[from, to)` of the source range moved to the destination range, as memmove does. */
  ghost predicate Moved(c: Config, s: Store, t: Store, dst: nat, src: nat, from: nat, to: nat)
    requires c.pageSize > 0
  {
    forall x: nat {:trigger At(c, t, x)} ::
      At(c, t, x) == if dst + from <= x < dst + to then At(c, s, src + (x - dst)) else At(c, s, x)
  }

  lemma MovedUp(c: Config, s: Store, t: Store, u: Store, dst: nat, src: nat, n: nat)
    requires c.pageSize > 0 && Moved(c, s, t, dst, src, 0, n) && dst < src && Updated(c, t, u, dst + n, At(c, t, src + n))
    ensures Moved(c, s, u, dst, src, 0, n + 1)
  {
    assert At(c, t, src + n) == At(c, s, src + n);
    forall x: nat ensures At(c, u, x) == if dst <= x < dst + n + 1 then At(c, s, src + (x - dst)) else At(c, s, x) {
      assert At(c, t, x) == if dst <= x < dst + n then At(c, s, src + (x - dst)) else At(c, s, x);
    }
  }

  lemma MovedDown(c: Config, s: Store, t: Store, u: Store, dst: nat, src: nat, n: nat, size: nat)
    requires c.pageSize > 0 && 0 < n <= size && Moved(c, s, t, dst, src, n, size) && dst > src
    requires Updated(c, t, u, dst + n - 1, At(c, t, src + n - 1))
    ensures Moved(c, s, u, dst, src, n - 1, size)
  {
    assert At(c, t, src + n - 1) == At(c, s, src + n - 1);
    forall x: nat ensures At(c, u, x) == if dst + n - 1 <= x < dst + size then At(c, s, src + (x - dst)) else At(c, s, x) {
      assert At(c, t, x) == if dst + n <= x < dst + size then At(c, s, src + (x - dst)) else At(c, s, x);
    }
  }

  /** How an access ends: done, refused by the access list, or stopped at the end of the memory. */
  datatype Status = Done | BadAddress | OutOfRange

  predicate Exists(c: Config, a: nat) {
    c.capacity == 0 || a < c.capacity
  }

  /** How many of `size` bytes from `addr` on come before the end of the memory. */
  function Room(c: Config, addr: nat, size: nat): (n: nat)
    ensures n <= size && (n < size ==> !Exists(c, addr + n)) && forall a | addr <= a < addr + n :: Exists(c, a)
  {
    if c.capacity == 0 || addr + size <= c.capacity then size
    else if addr < c.capacity then c.capacity - addr
    else 0
  }

  function StatusOf(ok: bool, complete: bool): Status {
    if !ok then BadAddress else if complete then Done else OutOfRange
  }

  // ----- the object -----

  class Ram {
    const c: Config
    var chunks: map<nat, array<Page>>
    var last: array?<Page>
    var lastIndex: nat
    ghost var dirs: set<array<Page>>
    const acl: A.AclManager
    var checkAcl: bool

    /** Directories are not shared, and the cached one is the one in the table. */
    ghost predicate Wired()
      reads this
    {
      && (forall k | k in chunks :: chunks[k] in dirs)
      && (forall j, k | j in chunks && k in chunks && j != k :: chunks[j] != chunks[k])
      && (last != null ==> lastIndex in chunks && chunks[lastIndex] == last)
    }

    ghost function View(): Store
      requires Wired()
      reads this, dirs
    {
      map k | k in chunks :: chunks[k][..]
    }

    ghost predicate Sound()
      reads this, dirs
    {
      Wired() && StoreOk(c, View())
    }

    ghost predicate Valid()
      reads this, dirs, acl
    {
      Sound() && A.Canonical(acl.map_)
    }

    constructor (c: Config)
      requires c.pageSize > 0
      ensures Valid() && fresh(dirs) && fresh(acl) && this.c == c && !checkAcl
      ensures forall a: nat :: At(c, View(), a) == Pattern(a % c.pageSize)
    {
      this.c := c;
      chunks, last, lastIndex, dirs := map[], null, 0, {};
      acl := new A.AclManager();
      checkAcl := false;
    }

    /** The directory of a chunk: from the cache, the table, or new if asked for. */
    method FindChunk(index: nat, allocate: bool) returns (d: array?<Page>)
      requires Sound()
      modifies this`chunks, this`last, this`lastIndex, this`dirs
      ensures Sound() && fresh(dirs - old(dirs)) && dirs >= old(dirs)
      ensures !allocate ==> chunks == old(chunks) && dirs == old(dirs)
      ensures d == null ==> !allocate && index !in chunks
      ensures d != null ==> index in chunks && chunks[index] == d
      ensures View() == if allocate && index !in old(View()) then old(View())[index := EmptyChunk()] else old(View())
    {
      if last != null && lastIndex == index {
        return last;
      }
      if index in chunks {
        d := chunks[index];
      } else {
        if !allocate {
          return null;
        }
        d := AddChunk(index);
      }
      last, lastIndex := d, index;
    }

    method AddChunk(index: nat) returns (d: array<Page>)
      requires Sound() && index !in chunks
      modifies this`chunks, this`dirs
      ensures fresh(d) && chunks == old(chunks)[index := d] && dirs == old(dirs) + {d}
      ensures Sound() && View() == old(View())[index := EmptyChunk()]
    {
      ghost var s := View();
      ChunkAdded(c, s, index);
      d := new Page[CHUNK_SIZE](_ => NoPage);
      assert d[..] == EmptyChunk();
      chunks, dirs := chunks[index := d], dirs + {d};
      assert View() == s[index := EmptyChunk()];
    }

    /** Reading never allocates. */
    method GetByte(a: nat) returns (v: byte)
      requires Valid()
      modifies this`chunks, this`last, this`lastIndex, this`dirs
      ensures Valid() && chunks == old(chunks) && dirs == old(dirs) && View() == old(View()) && v == At(c, View(), a)
    {
      LocateRange(c, a);
      var p := Locate(c, a);
      var d := FindChunk(p.chunk, false);
      if d == null {
        return Pattern(p.off);
      }
      assert View()[p.chunk] == d[..];
      if d[p.slot].NoPage? {
        return Pattern(p.off);
      }
      return d[p.slot].bytes[p.off];
    }

    method SetByte(a: nat, v: byte)
      requires Valid()
      modifies this`chunks, this`last, this`lastIndex, this`dirs, dirs
      ensures Valid() && fresh(dirs - old(dirs)) && dirs >= old(dirs)
      ensures Updated(c, old(View()), View(), a, v)
    {
      PutUpdates(c, View(), a, v);
      PutByte(Locate(c, a), v);
    }

    method PutByte(p: Place, v: byte)
      requires Sound() && p.slot < CHUNK_SIZE && p.off < c.pageSize
      modifies this`chunks, this`last, this`lastIndex, this`dirs, dirs
      ensures Wired() && fresh(dirs - old(dirs)) && dirs >= old(dirs)
      ensures View() == Put(c, old(View()), p, v)
    {
      ghost var s := View();
      var d := FindChunk(p.chunk, true);
      assert View()[p.chunk] == d[..] == Dir(s, p.chunk);
      var page := d[p.slot];
      assert page == Dir(s, p.chunk)[p.slot];
      var bytes := if page.Page? then page.bytes else FreshPage(c.pageSize);
      StorePage(p.chunk, d, p.slot, Page(bytes[p.off := v]));
    }

    /** Writing a directory entry changes that chunk only. */
    method StorePage(index: nat, d: array<Page>, slot: nat, page: Page)
      requires Wired() && index in chunks && chunks[index] == d && slot < d.Length
      modifies d
      ensures Wired() && View() == old(View())[index := old(View())[index][slot := page]]
    {
      assert View()[index] == d[..];
      d[slot] := page;
    }

    /** Copies bytes out, when the access list allows it and all of them exist. */
    method Read(addr: nat, size: nat) returns (status: Status, data: seq<byte>)
      requires Valid() && addr + size <= U64 && (checkAcl ==> addr + size < U64)
      modifies this`chunks, this`last, this`lastIndex, this`dirs
      ensures Valid() && dirs == old(dirs) && View() == old(View()) && unchanged(acl)
      ensures status == StatusOf(checkAcl ==> A.Allowed(acl.map_, addr, addr + size, {0}), Room(c, addr, size) == size)
      ensures status.Done? ==> |data| == size && forall i | 0 <= i < size :: data[i] == At(c, View(), addr + i)
    {
      data := [];
      if checkAcl {
        var ok := acl.Check(addr, size, {0});
        if !ok {
          return BadAddress, data;
        }
      }
      for i := 0 to size
        invariant Valid() && dirs == old(dirs) && View() == old(View()) && unchanged(acl) && i <= Room(c, addr, size)
        invariant |data| == i && forall j | 0 <= j < i :: data[j] == At(c, View(), addr + j)
      {
        if !Exists(c, addr + i) {
          return OutOfRange, data;
        }
        var v := GetByte(addr + i);
        data := data + [v];
      }
      status := Done;
    }

    /** Copies bytes in: all of them, none if the access list forbids it, or those before the end. */
    method Write(addr: nat, data: seq<byte>) returns (status: Status)
      requires Valid() && addr + |data| <= U64 && (checkAcl ==> addr + |data| < U64)
      modifies this`chunks, this`last, this`lastIndex, this`dirs, dirs
      ensures Valid() && fresh(dirs - old(dirs)) && unchanged(acl)
      ensures status == StatusOf(checkAcl ==> A.Allowed(acl.map_, addr, addr + |data|, {1}), Room(c, addr, |data|) == |data|)
      ensures Written(c, old(View()), View(), addr, data, if status.BadAddress? then 0 else Room(c, addr, |data|))
    {
      if checkAcl {
        var ok := acl.Check(addr, |data|, {1});
        if !ok {
          return BadAddress;
        }
      }
      ghost var s := View();
      for i := 0 to |data|
        invariant Valid() && fresh(dirs - old(dirs)) && unchanged(acl) && i <= Room(c, addr, |data|)
        invariant Written(c, s, View(), addr, data, i)
      {
        if !Exists(c, addr + i) {
          return OutOfRange;
        }
        ghost var t := View();
        SetByte(addr + i, data[i]);
        WrittenNext(c, s, t, View(), addr, data, i);
      }
      status := Done;
    }

    /** Moves bytes within the memory, whatever the overlap. Past the end of the memory an upward
        move stops at the source's end, and a downward one does not begin. */
    method Copy(dst: nat, src: nat, size: nat) returns (status: Status)
      requires Valid() && dst + size <= U64 && src + size <= U64
      requires checkAcl ==> dst + size < U64 && src + size < U64
      modifies this`chunks, this`last, this`lastIndex, this`dirs, dirs
      ensures Valid() && fresh(dirs - old(dirs)) && unchanged(acl)
      ensures status == StatusOf(checkAcl ==> A.Allowed(acl.map_, src, src + size, {0}) && A.Allowed(acl.map_, dst, dst + size, {1}),
                                 dst == src || Room(c, if dst < src then src else dst, size) == size)
      ensures status.Done? ==> Moved(c, old(View()), View(), dst, src, 0, size)
      ensures status.OutOfRange? && dst < src ==> Moved(c, old(View()), View(), dst, src, 0, Room(c, src, size))
      ensures status.BadAddress? || (status.OutOfRange? && dst > src) ==> Moved(c, old(View()), View(), dst, src, 0, 0)
    {
      var ok := MayCopy(dst, src, size);
      if !ok {
        return BadAddress;
      }
      status := Done;
      if dst > src {
        status := CopyDown(dst, src, size);
      } else if dst < src {
        status := CopyUp(dst, src, size);
      }
    }

    method MayCopy(dst: nat, src: nat, size: nat) returns (ok: bool)
      requires A.Canonical(acl.map_) && (checkAcl ==> dst + size < U64 && src + size < U64)
      ensures ok == (checkAcl ==> A.Allowed(acl.map_, src, src + size, {0}) && A.Allowed(acl.map_, dst, dst + size, {1}))
    {
      ok := true;
      if checkAcl {
        ok := acl.Check(src, size, {0});
        if ok {
          ok := acl.Check(dst, size, {1});
        }
      }
    }

    method CopyByte(to: nat, from: nat)
      requires Valid()
      modifies this`chunks, this`last, this`lastIndex, this`dirs, dirs
      ensures Valid() && fresh(dirs - old(dirs)) && dirs >= old(dirs)
      ensures Updated(c, old(View()), View(), to, At(c, old(View()), from))
    {
      var v := GetByte(from);
      SetByte(to, v);
    }

    method CopyUp(dst: nat, src: nat, size: nat) returns (status: Status)
      requires Valid() && dst < src
      modifies this`chunks, this`last, this`lastIndex, this`dirs, dirs
      ensures Valid() && fresh(dirs - old(dirs)) && unchanged(acl)
      ensures status == StatusOf(true, Room(c, src, size) == size)
      ensures Moved(c, old(View()), View(), dst, src, 0, Room(c, src, size))
    {
      ghost var s := View();
      for i := 0 to size
        invariant Valid() && fresh(dirs - old(dirs)) && unchanged(acl) && i <= Room(c, src, size)
        invariant Moved(c, s, View(), dst, src, 0, i)
      {
        if !Exists(c, src + i) || !Exists(c, dst + i) {
          return OutOfRange;
        }
        ghost var t := View();
        CopyByte(dst + i, src + i);
        MovedUp(c, s, t, View(), dst, src, i);
      }
      status := Done;
    }

    method CopyDown(dst: nat, src: nat, size: nat) returns (status: Status)
      requires Valid() && dst > src
      modifies this`chunks, this`last, this`lastIndex, this`dirs, dirs
      ensures Valid() && fresh(dirs - old(dirs)) && unchanged(acl)
      ensures status == StatusOf(true, Room(c, dst, size) == size)
      ensures Moved(c, old(View()), View(), dst, src, if status.Done? then 0 else size, size)
    {
      ghost var s := View();
      var i: nat := size;
      while i > 0
        invariant Valid() && fresh(dirs - old(dirs)) && unchanged(acl) && i <= size
        invariant Moved(c, s, View(), dst, src, i, size) && (i < size ==> Room(c, dst, size) == size)
      {
        if !Exists(c, src + i - 1) || !Exists(c, dst + i - 1) {
          return OutOfRange;
        }
        ghost var t := View();
        CopyByte(dst + i - 1, src + i - 1);
        MovedDown(c, s, t, View(), dst, src, i, size);
        i := i - 1;
      }
      status := Done;
    }

    /** Drops every page: all bytes read as the fill pattern again. */
    method Clear()
      requires Valid()
      modifies this`chunks, this`last, this`dirs
      ensures Valid() && dirs == {} && forall a: nat :: At(c, View(), a) == Pattern(a % c.pageSize)
    {
      chunks, last, dirs := map[], null, {};
    }
  }
}
