/** The access-control list of a memory: an ordered map of intervals with permission flags that
    stands for a function from addresses to flags. */
module Acl {

  const U64: nat := 0x1_0000_0000_0000_0000

  /** Flag words as sets of bits: no bits means unmapped. */
  type Flags = set<nat>

  /** `[start, end)` with its flags. */
  datatype Entry = Entry(start: nat, end: nat, flags: Flags)

  type Map = seq<Entry>

  /** The permission function a map stands for. */
  function FlagsAt(m: Map, a: nat): Flags {
    if m == [] then {} else if m[0].start <= a < m[0].end then m[0].flags else FlagsAt(m[1..], a)
  }

  /** Ascending, disjoint, non-empty, with some flag, and no two touching intervals alike; all
      from `lo` on, where an interval with flags `before` ends at `lo`. */
  ghost predicate Canon(m: Map, lo: nat, before: Flags) {
    m != [] ==>
      && lo <= m[0].start < m[0].end && m[0].flags != {} && (m[0].start == lo ==> m[0].flags != before)
      && Canon(m[1..], m[0].end, m[0].flags)
  }

  ghost predicate Canonical(m: Map) { Canon(m, 0, {}) }

  // ----- cutting a range out -----

  function CutEntry(e: Entry, lo: nat, hi: nat): Map {
    (if e.start < lo then [e.(end := if e.end < lo then e.end else lo)] else [])
    + (if e.end > hi then [e.(start := if e.start > hi then e.start else hi)] else [])
  }

  function Cut(m: Map, lo: nat, hi: nat): Map {
    if m == [] then [] else CutEntry(m[0], lo, hi) + Cut(m[1..], lo, hi)
  }

  // ----- placing a range, merging with its neighbours -----

  function JoinNext(e: Entry, m: Map): Map {
    if m != [] && e.end == m[0].start && e.flags == m[0].flags then [e.(end := m[0].end)] + m[1..] else [e] + m
  }

  function Place(m: Map, e: Entry): Map {
    if m == [] || m[0].start >= e.end then JoinNext(e, m)
    else if m[0].end == e.start && m[0].flags == e.flags then JoinNext(m[0].(end := e.end), m[1..])
    else [m[0]] + Place(m[1..], e)
  }

  function Set(m: Map, addr: nat, size: nat, flags: Flags): Map {
    if size == 0 then m
    else
      var c := Cut(m, addr, addr + size);
      if flags == {} then c else Place(c, Entry(addr, addr + size, flags))
  }

  // ----- meaning -----

  ghost predicate Flagged(m: Map) { forall k | 0 <= k < |m| :: m[k].flags != {} }

  lemma {:induction false} FlagsAppend(x: Map, y: Map, a: nat)
    requires Flagged(x)
    ensures FlagsAt(x + y, a) == if FlagsAt(x, a) != {} then FlagsAt(x, a) else FlagsAt(y, a)
    decreases |x|
  {
    if x == [] {
      assert x + y == y;
    } else {
      assert (x + y)[1..] == x[1..] + y;
      FlagsAppend(x[1..], y, a);
    }
  }

  lemma {:induction false} CanonFlagged(m: Map, lo: nat, before: Flags)
    requires Canon(m, lo, before)
    ensures Flagged(m)
    decreases |m|
  {
    if m != [] {
      CanonFlagged(m[1..], m[0].end, m[0].flags);
    }
  }

  lemma CutEntryMeans(e: Entry, lo: nat, hi: nat, a: nat)
    requires lo < hi
    ensures FlagsAt(CutEntry(e, lo, hi), a) == if lo <= a < hi then {} else FlagsAt([e], a)
  {
    assert [e][1..] == [];
    var c := CutEntry(e, lo, hi);
    if |c| == 2 {
      assert c[1..] == [c[1]] && [c[1]][1..] == [];
      assert FlagsAt([c[1]], a) == if c[1].start <= a < c[1].end then c[1].flags else {};
    } else if |c| == 1 {
      assert c[1..] == [];
    }
  }

  lemma {:induction false} CutMeans(m: Map, lo: nat, hi: nat, a: nat)
    requires lo < hi && Flagged(m)
    ensures FlagsAt(Cut(m, lo, hi), a) == if lo <= a < hi then {} else FlagsAt(m, a)
    decreases |m|
  {
    if m != [] {
      CutEntryMeans(m[0], lo, hi, a);
      CutMeans(m[1..], lo, hi, a);
      FlagsAppend(CutEntry(m[0], lo, hi), Cut(m[1..], lo, hi), a);
      assert m == [m[0]] + m[1..];
      FlagsAppend([m[0]], m[1..], a);
    }
  }

  /** Nothing of `m` lies inside `[lo, hi)`. */
  ghost predicate Clear(m: Map, lo: nat, hi: nat) { forall k | 0 <= k < |m| :: m[k].end <= lo || m[k].start >= hi }

  lemma {:induction false} CutClears(m: Map, lo: nat, hi: nat)
    requires lo < hi
    ensures Clear(Cut(m, lo, hi), lo, hi)
    decreases |m|
  {
    if m != [] {
      CutClears(m[1..], lo, hi);
    }
  }

  lemma {:induction false} Below(m: Map, lo: nat, before: Flags, a: nat)
    requires Canon(m, lo, before) && a < lo
    ensures FlagsAt(m, a) == {}
    decreases |m|
  {
    if m != [] {
      Below(m[1..], m[0].end, m[0].flags, a);
    }
  }

  lemma JoinNextMeans(e: Entry, m: Map, before: Flags, a: nat)
    requires e.start < e.end && Canon(m, e.end, before)
    ensures FlagsAt(JoinNext(e, m), a) == if e.start <= a < e.end then e.flags else FlagsAt(m, a)
  {
    if m != [] && e.end == m[0].start && e.flags == m[0].flags {
      var j := [e.(end := m[0].end)] + m[1..];
      assert j[1..] == m[1..];
      if a < e.start {
        Below(m, e.end, before, a);
      }
    } else {
      assert ([e] + m)[1..] == m;
    }
  }

  lemma CanonWeaken(m: Map, hi: nat, f: Flags, lo: nat, g: Flags)
    requires Canon(m, hi, f) && lo <= hi && (lo == hi ==> f == g)
    ensures Canon(m, lo, g)
  {
  }

  lemma {:induction false} PlaceMeans(m: Map, lo: nat, before: Flags, e: Entry, a: nat)
    requires Canon(m, lo, before) && lo <= e.start < e.end && e.flags != {} && Clear(m, e.start, e.end)
    ensures FlagsAt(Place(m, e), a) == if e.start <= a < e.end then e.flags else FlagsAt(m, a)
    decreases |m|
  {
    if m == [] || m[0].start >= e.end {
      JoinNextMeans(e, m, {}, a);
    } else if m[0].end == e.start && m[0].flags == e.flags {
      assert Clear(m[1..], e.start, e.end);
      RestAfter(m, lo, before, e);
      JoinNextMeans(m[0].(end := e.end), m[1..], {}, a);
    } else {
      PlaceMeans(m[1..], m[0].end, m[0].flags, e, a);
      assert ([m[0]] + Place(m[1..], e))[1..] == Place(m[1..], e);
    }
  }

  /** What follows the interval that ends where `e` starts begins after `e`. */
  lemma RestAfter(m: Map, lo: nat, before: Flags, e: Entry)
    requires Canon(m, lo, before) && m != [] && m[0].end == e.start < e.end && Clear(m[1..], e.start, e.end)
    ensures Canon(m[1..], e.end, {})
  {
    if |m| > 1 {
      assert m[1..][0] == m[1];
    }
  }

  // ----- canonical form -----

  lemma CanonCons(e: Entry, m: Map, lo: nat, before: Flags)
    requires lo <= e.start < e.end && e.flags != {} && (e.start == lo ==> e.flags != before) && Canon(m, e.end, e.flags)
    ensures Canon([e] + m, lo, before)
  {
    assert ([e] + m)[1..] == m;
  }

  lemma CutHead(e: Entry, rest: Map, lo: nat, hi: nat, from: nat, before: Flags)
    requires lo < hi && from <= e.start < e.end && e.flags != {} && (e.start == from ==> e.flags != before)
    requires Canon(rest, e.end, e.flags)
    ensures Canon(CutEntry(e, lo, hi) + rest, from, before)
  {
    var c := CutEntry(e, lo, hi);
    if e.end > hi {
      var r := e.(start := if e.start > hi then e.start else hi);
      if e.start < lo {
        CanonCons(r, rest, lo, e.flags);
        CanonCons(e.(end := lo), [r] + rest, from, before);
        assert c + rest == [e.(end := lo)] + ([r] + rest);
      } else {
        CanonCons(r, rest, from, before);
        assert c + rest == [r] + rest;
      }
    } else if e.start < lo {
      var l := e.(end := if e.end < lo then e.end else lo);
      CanonWeaken(rest, e.end, e.flags, l.end, e.flags);
      CanonCons(l, rest, from, before);
      assert c + rest == [l] + rest;
    } else {
      CanonWeaken(rest, e.end, e.flags, from, before);
      assert c + rest == rest;
    }
  }

  lemma {:induction false} CutCanon(m: Map, lo: nat, hi: nat, from: nat, before: Flags)
    requires lo < hi && Canon(m, from, before)
    ensures Canon(Cut(m, lo, hi), from, before)
    decreases |m|
  {
    if m != [] {
      CutCanon(m[1..], lo, hi, m[0].end, m[0].flags);
      CutHead(m[0], Cut(m[1..], lo, hi), lo, hi, from, before);
    }
  }

  lemma JoinNextCanon(e: Entry, m: Map, lo: nat, before: Flags)
    requires lo <= e.start < e.end && e.flags != {} && (e.start == lo ==> e.flags != before) && Canon(m, e.end, {})
    ensures Canon(JoinNext(e, m), lo, before)
  {
    if m != [] && e.end == m[0].start && e.flags == m[0].flags {
      CanonCons(e.(end := m[0].end), m[1..], lo, before);
    } else {
      assert Canon(m, e.end, e.flags);
      CanonCons(e, m, lo, before);
    }
  }

  lemma {:induction false} PlaceCanon(m: Map, lo: nat, before: Flags, e: Entry)
    requires Canon(m, lo, before) && lo <= e.start < e.end && e.flags != {} && Clear(m, e.start, e.end)
    requires lo == e.start ==> before != e.flags
    ensures Canon(Place(m, e), lo, before)
    decreases |m|
  {
    if m == [] || m[0].start >= e.end {
      JoinNextCanon(e, m, lo, before);
    } else if m[0].end == e.start && m[0].flags == e.flags {
      RestAfter(m, lo, before, e);
      JoinNextCanon(m[0].(end := e.end), m[1..], lo, before);
    } else {
      PlaceCanon(m[1..], m[0].end, m[0].flags, e);
      CanonCons(m[0], Place(m[1..], e), lo, before);
    }
  }

  lemma SetMeansAt(m: Map, addr: nat, size: nat, flags: Flags, a: nat)
    requires Canonical(m)
    ensures FlagsAt(Set(m, addr, size, flags), a) == if addr <= a < addr + size then flags else FlagsAt(m, a)
  {
    if size > 0 {
      var hi := addr + size;
      CanonFlagged(m, 0, {});
      CutMeans(m, addr, hi, a);
      if flags != {} {
        CutCanon(m, addr, hi, 0, {});
        CutClears(m, addr, hi);
        PlaceMeans(Cut(m, addr, hi), 0, {}, Entry(addr, hi, flags), a);
      }
    }
  }

  lemma SetCanon(m: Map, addr: nat, size: nat, flags: Flags)
    requires Canonical(m)
    ensures Canonical(Set(m, addr, size, flags))
  {
    if size > 0 {
      var hi := addr + size;
      CutCanon(m, addr, hi, 0, {});
      CutClears(m, addr, hi);
      if flags != {} {
        PlaceCanon(Cut(m, addr, hi), 0, {}, Entry(addr, hi, flags));
      }
    }
  }

  /** `set` is pointwise: the range gets the new flags, every other address keeps its own; and it
      keeps the map canonical. */
  lemma SetCorrect(m: Map, addr: nat, size: nat, flags: Flags)
    requires Canonical(m)
    ensures Canonical(Set(m, addr, size, flags))
    ensures forall a: nat :: FlagsAt(Set(m, addr, size, flags), a) == if addr <= a < addr + size then flags else FlagsAt(m, a)
  {
    SetCanon(m, addr, size, flags);
    forall a: nat ensures FlagsAt(Set(m, addr, size, flags), a) == if addr <= a < addr + size then flags else FlagsAt(m, a) {
      SetMeansAt(m, addr, size, flags, a);
    }
  }

  // ----- one map per permission function -----

  lemma FirstAt(m: Map, lo: nat, before: Flags, a: nat)
    requires Canon(m, lo, before)
    ensures m != [] && a < m[0].start ==> FlagsAt(m, a) == {}
    ensures m != [] && m[0].start <= a < m[0].end ==> FlagsAt(m, a) == m[0].flags != {}
    ensures m != [] && a == m[0].end ==> FlagsAt(m, a) != m[0].flags
    ensures m == [] ==> FlagsAt(m, a) == {}
  {
    if m != [] {
      if a < m[0].start {
        Below(m[1..], m[0].end, m[0].flags, a);
      } else if a == m[0].end && |m| > 1 {
        assert m[1..][0] == m[1];
        if m[1].start > a {
          Below(m[1..], m[1].start, {}, a);
        }
      }
    }
  }

  /** Two canonical maps with the same permission function are the same map. */
  lemma {:induction false} CanonUnique(m: Map, n: Map, lo: nat, before: Flags)
    requires Canon(m, lo, before) && Canon(n, lo, before) && forall a: nat :: a >= lo ==> FlagsAt(m, a) == FlagsAt(n, a)
    ensures m == n
    decreases |m|
  {
    if m == [] || n == [] {
      if n != [] {
        FirstAt(n, lo, before, n[0].start);
      }
      if m != [] {
        FirstAt(m, lo, before, m[0].start);
      }
    } else {
      SameHead(m, n, lo, before);
      forall a: nat | a >= m[0].end ensures FlagsAt(m[1..], a) == FlagsAt(n[1..], a) {
        assert FlagsAt(m, a) == FlagsAt(n, a);
      }
      CanonUnique(m[1..], n[1..], m[0].end, m[0].flags);
    }
  }

  lemma SameHead(m: Map, n: Map, lo: nat, before: Flags)
    requires Canon(m, lo, before) && Canon(n, lo, before) && m != [] && n != []
    requires forall a: nat :: a >= lo ==> FlagsAt(m, a) == FlagsAt(n, a)
    ensures m[0] == n[0]
  {
    FirstAt(m, lo, before, m[0].start);
    FirstAt(n, lo, before, m[0].start);
    FirstAt(m, lo, before, n[0].start);
    FirstAt(n, lo, before, n[0].start);
    assert m[0].start == n[0].start;
    FirstAt(m, lo, before, m[0].end);
    FirstAt(n, lo, before, m[0].end);
    FirstAt(m, lo, before, n[0].end);
    FirstAt(n, lo, before, n[0].end);
  }

  // ----- histories -----

  datatype Update = Update(addr: nat, size: nat, flags: Flags)

  function Replay(h: seq<Update>): Map {
    if h == [] then []
    else
      var u := h[|h| - 1];
      Set(Replay(h[..|h| - 1]), u.addr, u.size, u.flags)
  }

  /** The last update that covers an address decides. */
  function LastWriter(h: seq<Update>, a: nat): Flags {
    if h == [] then {}
    else
      var u := h[|h| - 1];
      if u.addr <= a < u.addr + u.size then u.flags else LastWriter(h[..|h| - 1], a)
  }

  /** After any history the map is canonical and stands for the last-writer function. */
  lemma {:induction false} ReplayIsLastWriter(h: seq<Update>)
    ensures Canonical(Replay(h)) && forall a: nat :: FlagsAt(Replay(h), a) == LastWriter(h, a)
    decreases |h|
  {
    if h != [] {
      var u := h[|h| - 1];
      ReplayIsLastWriter(h[..|h| - 1]);
      SetCorrect(Replay(h[..|h| - 1]), u.addr, u.size, u.flags);
    }
  }

  /** Histories that give the same permissions give identical maps. */
  lemma SamePermissionsSameMap(h: seq<Update>, g: seq<Update>)
    requires forall a: nat :: LastWriter(h, a) == LastWriter(g, a)
    ensures Replay(h) == Replay(g)
  {
    ReplayIsLastWriter(h);
    ReplayIsLastWriter(g);
    CanonUnique(Replay(h), Replay(g), 0, {});
  }

  // ----- checking -----

  /** Every interval that overlaps `[addr, end)` carries the flags; with an empty range, every
      interval that strictly contains `addr`. */
  ghost predicate Allowed(m: Map, addr: nat, end: nat, flags: Flags) {
    forall k | 0 <= k < |m| && m[k].start < end && m[k].end > addr :: flags <= m[k].flags
  }

  lemma {:induction false} EntryAt(m: Map, lo: nat, before: Flags, k: nat, a: nat)
    requires Canon(m, lo, before) && k < |m| && m[k].start <= a < m[k].end
    ensures FlagsAt(m, a) == m[k].flags && m[k].start >= lo && m[k].flags != {}
    decreases |m|
  {
    if k > 0 {
      EntryAt(m[1..], m[0].end, m[0].flags, k - 1, a);
    }
  }

  lemma {:induction false} FlagsFrom(m: Map, a: nat)
    requires FlagsAt(m, a) != {}
    ensures exists k :: 0 <= k < |m| && m[k].start <= a < m[k].end && m[k].flags == FlagsAt(m, a)
    decreases |m|
  {
    if !(m[0].start <= a < m[0].end) {
      FlagsFrom(m[1..], a);
      var k :| 0 <= k < |m[1..]| && m[1..][k].start <= a < m[1..][k].end && m[1..][k].flags == FlagsAt(m, a);
      assert m[k + 1] == m[1..][k];
    }
  }

  lemma EntryNonEmpty(m: Map, lo: nat, before: Flags, k: nat)
    requires Canon(m, lo, before) && k < |m|
    ensures m[k].start < m[k].end
    decreases |m|
  {
    if k > 0 {
      EntryNonEmpty(m[1..], m[0].end, m[0].flags, k - 1);
    }
  }

  ghost predicate BytesCarry(m: Map, addr: nat, end: nat, flags: Flags) {
    forall a: nat | addr <= a < end && FlagsAt(m, a) != {} :: flags <= FlagsAt(m, a)
  }

  /** For a non-empty range: allowed exactly when every mapped byte carries all the flags. */
  lemma AllowedMeans(m: Map, addr: nat, size: nat, flags: Flags)
    requires Canonical(m) && size > 0
    ensures Allowed(m, addr, addr + size, flags) <==> BytesCarry(m, addr, addr + size, flags)
  {
    var end := addr + size;
    if Allowed(m, addr, end, flags) {
      forall a: nat | addr <= a < end && FlagsAt(m, a) != {} ensures flags <= FlagsAt(m, a) {
        FlagsFrom(m, a);
      }
    }
    if BytesCarry(m, addr, end, flags) {
      forall k | 0 <= k < |m| && m[k].start < end && m[k].end > addr ensures flags <= m[k].flags {
        EntryNonEmpty(m, 0, {}, k);
        var a := if m[k].start < addr then addr else m[k].start;
        EntryAt(m, 0, {}, k, a);
      }
    }
  }

  // ----- the object -----

  ghost predicate Sorted(m: Map) {
    && (forall k | 0 <= k < |m| :: m[k].start < m[k].end)
    && (forall i, j | 0 <= i < j < |m| :: m[i].end <= m[j].start)
  }

  lemma {:induction false} CanonSorted(m: Map, lo: nat, before: Flags)
    requires Canon(m, lo, before)
    ensures Sorted(m) && forall k | 0 <= k < |m| :: lo <= m[k].start
    decreases |m|
  {
    if m != [] {
      CanonSorted(m[1..], m[0].end, m[0].flags);
    }
  }

  lemma {:induction false} CutAppend(x: Map, y: Map, lo: nat, hi: nat)
    ensures Cut(x + y, lo, hi) == Cut(x, lo, hi) + Cut(y, lo, hi)
    decreases |x|
  {
    if x == [] {
      assert x + y == y;
    } else {
      assert (x + y)[1..] == x[1..] + y;
      CutAppend(x[1..], y, lo, hi);
    }
  }

  lemma CutSnoc(m: Map, k: nat, lo: nat, hi: nat)
    requires k < |m|
    ensures Cut(m[..k + 1], lo, hi) == Cut(m[..k], lo, hi) + CutEntry(m[k], lo, hi)
  {
    assert m[..k + 1] == m[..k] + [m[k]] && [m[k]][1..] == [];
    CutAppend(m[..k], [m[k]], lo, hi);
  }

  lemma {:induction false} CutOutside(m: Map, lo: nat, hi: nat)
    requires lo < hi && forall k | 0 <= k < |m| :: m[k].start < m[k].end && (m[k].end <= lo || m[k].start >= hi)
    ensures Cut(m, lo, hi) == m
    decreases |m|
  {
    if m != [] {
      CutOutside(m[1..], lo, hi);
      assert CutEntry(m[0], lo, hi) == [m[0]];
    }
  }

  /** Before `p` everything ends by `lo`; from `p` on everything starts at `hi` or later. */
  ghost predicate Gap(m: Map, lo: nat, hi: nat, p: nat) {
    && p <= |m| && (forall k | 0 <= k < p :: m[k].start < m[k].end <= lo)
    && (forall k | p <= k < |m| :: m[k].start >= hi)
    && (forall k | 0 <= k && k + 1 < p :: m[k].end < lo)
  }

  function PlaceIn(m: Map, e: Entry, p: nat): Map
    requires p <= |m|
  {
    if p > 0 && m[p - 1].end == e.start && m[p - 1].flags == e.flags
    then m[..p - 1] + JoinNext(m[p - 1].(end := e.end), m[p..])
    else m[..p] + JoinNext(e, m[p..])
  }

  lemma PlaceInTail(m: Map, e: Entry, p: nat)
    requires 0 < p <= |m| && (p == 1 ==> !(m[0].end == e.start && m[0].flags == e.flags))
    ensures PlaceIn(m, e, p) == [m[0]] + PlaceIn(m[1..], e, p - 1)
  {
    var t := m[1..];
    assert t[p - 1..] == m[p..];
    assert m[..p] == [m[0]] + t[..p - 1];
    if p > 1 {
      assert m[p - 1] == t[p - 2];
      assert m[..p - 1] == [m[0]] + t[..p - 2];
    }
  }

  lemma GapTail(m: Map, lo: nat, hi: nat, p: nat)
    requires Gap(m, lo, hi, p) && p > 0
    ensures Gap(m[1..], lo, hi, p - 1)
  {
  }

  /** Where an interval is placed, and what it merges with. */
  lemma {:induction false} PlaceAt(m: Map, e: Entry, p: nat)
    requires e.start < e.end && Gap(m, e.start, e.end, p)
    ensures Place(m, e) == PlaceIn(m, e, p)
    decreases p
  {
    if p == 0 {
      assert m[0..] == m && m[..0] == [];
    } else if p == 1 && m[0].end == e.start && m[0].flags == e.flags {
      assert m[..0] == [];
    } else {
      GapTail(m, e.start, e.end, p);
      PlaceAt(m[1..], e, p - 1);
      PlaceInTail(m, e, p);
      assert Place(m, e) == [m[0]] + Place(m[1..], e);
    }
  }

  /** `m` is cut up to entry `k`, which the walk has reached at position `it` of `now`. */
  ghost predicate CutUpTo(m: Map, now: Map, it: nat, k: nat, lo: nat, hi: nat) {
    it <= |now| && k <= |m| && now[..it] == Cut(m[..k], lo, hi) && now[it..] == m[k..]
  }

  /** Replacing the entry at `it` by its cut pieces. */
  lemma CutNext(m: Map, now: Map, it: nat, k: nat, lo: nat, hi: nat)
    requires CutUpTo(m, now, it, k, lo, hi) && it < |now|
    ensures k < |m| && now[it] == m[k]
    ensures var c := CutEntry(now[it], lo, hi);
      CutUpTo(m, now[..it] + c + now[it + 1..], it + |c|, k + 1, lo, hi)
  {
    assert now[it..][0] == now[it] && now[it + 1..] == now[it..][1..] == m[k..][1..] == m[k + 1..];
    CutSnoc(m, k, lo, hi);
    var c := CutEntry(now[it], lo, hi);
    var r := now[..it] + c + now[it + 1..];
    assert r[..it + |c|] == now[..it] + c && r[it + |c|..] == now[it + 1..];
  }

  /** From an interval that starts at or past `hi` on, cutting changes nothing. */
  lemma CutAt(m: Map, k: nat, lo: nat, hi: nat)
    requires k <= |m| && lo < hi && Sorted(m) && (k < |m| ==> m[k].start >= hi)
    ensures Cut(m, lo, hi) == Cut(m[..k], lo, hi) + m[k..]
  {
    assert m == m[..k] + m[k..];
    CutAppend(m[..k], m[k..], lo, hi);
    CutOutside(m[k..], lo, hi);
  }

  lemma CutFinish(m: Map, now: Map, it: nat, k: nat, lo: nat, hi: nat)
    requires CutUpTo(m, now, it, k, lo, hi) && lo < hi && Sorted(m) && (it < |now| ==> now[it].start >= hi)
    ensures now == Cut(m, lo, hi)
  {
    if k < |m| {
      assert now[it..][0] == m[k..][0] == m[k];
    }
    CutAt(m, k, lo, hi);
    assert now == now[..it] + now[it..];
  }

  /** The gap that a cut leaves. */
  lemma CutGap(m: Map, lo: nat, hi: nat) returns (cut: Map)
    requires Canonical(m) && lo < hi
    ensures cut == Cut(m, lo, hi) && Canonical(cut) && Clear(cut, lo, hi)
  {
    cut := Cut(m, lo, hi);
    CutCanon(m, lo, hi, 0, {});
    CutClears(m, lo, hi);
  }

  lemma SetUnfold(m: Map, addr: nat, size: nat, flags: Flags, cut: Map)
    requires size > 0 && cut == Cut(m, addr, addr + size)
    ensures Set(m, addr, size, flags) == if flags == {} then cut else Place(cut, Entry(addr, addr + size, flags))
  {
  }

  // ----- the scan of a check -----

  /** The intervals before `it` that overlap the range carry the flags. */
  ghost predicate CarriesBelow(m: Map, it: nat, addr: nat, end: nat, flags: Flags) {
    it <= |m| && forall k | 0 <= k < it && m[k].start < end && m[k].end > addr :: flags <= m[k].flags
  }

  /** How far the scan has come: not past `addr`, or to the end of the last interval. */
  ghost predicate Reached(m: Map, it: nat, addr: nat, at: nat) {
    && it <= |m| && addr <= at
    && (if at == addr then forall k | 0 <= k < it :: m[k].end <= addr else it > 0 && at == m[it - 1].end)
  }

  /** So the next interval ends past it exactly when it ends past `addr`. */
  lemma ReachedNext(m: Map, it: nat, addr: nat, at: nat)
    requires Sorted(m) && it < |m| && Reached(m, it, addr, at)
    ensures m[it].end > at <==> m[it].end > addr
  {
  }

  lemma CarriesAll(m: Map, it: nat, addr: nat, end: nat, flags: Flags)
    requires Sorted(m) && CarriesBelow(m, it, addr, end, flags) && (it < |m| ==> m[it].start >= end)
    ensures Allowed(m, addr, end, flags)
  {
    forall k | it <= k < |m| ensures m[k].start >= end {
      if k > it {
        assert m[it].start < m[it].end <= m[k].start;
      }
    }
  }

  class AclManager {
    var map_: Map

    constructor ()
      ensures map_ == [] && Canonical(map_)
    {
      map_ := [];
    }

    /** First interval that does not start below `addr`. */
    method LowerBound(addr: nat) returns (i: nat)
      requires Sorted(map_)
      ensures i <= |map_| && (forall k | 0 <= k < i :: map_[k].start < addr) && (forall k | i <= k < |map_| :: map_[k].start >= addr)
    {
      i := 0;
      while i < |map_| && map_[i].start < addr
        invariant i <= |map_| && forall k | 0 <= k < i :: map_[k].start < addr
      {
        i := i + 1;
      }
      forall k | i < k < |map_| ensures map_[k].start >= addr {
        assert map_[i].start < map_[i].end <= map_[k].start;
      }
    }

    /** The first interval that can reach `addr`. */
    method FirstReaching(addr: nat) returns (i: nat)
      requires Sorted(map_)
      ensures i <= |map_| && forall k | 0 <= k < i :: map_[k].end <= addr
    {
      i := LowerBound(addr);
      if i > 0 {
        i := i - 1;
        if map_[i].end < addr {
          i := i + 1;
        }
      }
      forall k | 0 <= k < i ensures map_[k].end <= addr {
        if k + 1 < |map_| && map_[k + 1].start < addr {
          assert map_[k].end <= map_[k + 1].start;
        }
      }
    }

    method SetRange(addr: nat, size: nat, flags: Flags)
      requires Canonical(map_) && addr + size < U64
      modifies this
      ensures map_ == Set(old(map_), addr, size, flags) && Canonical(map_)
    {
      if size == 0 {
        return;
      }
      ghost var m := map_;
      ghost var cut := CutGap(m, addr, addr + size);
      SetUnfold(m, addr, size, flags, cut);
      SetCanon(m, addr, size, flags);
      CutRange(addr, addr + size);
      assert map_ == cut;
      if flags != {} {
        Insert(Entry(addr, addr + size, flags));
        assert map_ == Place(cut, Entry(addr, addr + size, flags));
      }
    }

    /** What remains of an interval that starts below `end`. */
    static method Pieces(cur: Entry, addr: nat, end: nat) returns (pieces: Map)
      requires addr < end && cur.start < end && cur.start < cur.end
      ensures pieces == CutEntry(cur, addr, end)
    {
      pieces := [];
      if cur.end <= addr {
        return [cur];
      }
      if cur.start < addr {
        pieces := [cur.(end := addr)];
      }
      if cur.end > end {
        pieces := pieces + [cur.(start := end)];
      }
    }

    /** Trims, splits or erases every interval that overlaps the range. */
    method CutRange(addr: nat, end: nat)
      requires Canonical(map_) && addr < end
      modifies this
      ensures map_ == Cut(old(map_), addr, end)
    {
      ghost var m := map_;
      CanonSorted(m, 0, {});
      var it: nat := FirstReaching(addr);
      ghost var k: nat := it;
      CutOutside(m[..k], addr, end);
      while it < |map_| && map_[it].start < end
        invariant CutUpTo(m, map_, it, k, addr, end)
        decreases |m| - k
      {
        CutNext(m, map_, it, k, addr, end);
        assert m[k].start < m[k].end;
        var pieces := Pieces(map_[it], addr, end);
        map_ := map_[..it] + pieces + map_[it + 1..];
        it, k := it + |pieces|, k + 1;
      }
      CutFinish(m, map_, it, k, addr, end);
    }

    /** Inserts an interval into a gap and merges it with touching equals. */
    method Insert(e: Entry)
      requires Canonical(map_) && e.start < e.end && e.flags != {} && Clear(map_, e.start, e.end)
      modifies this
      ensures map_ == Place(old(map_), e)
    {
      ghost var m := map_;
      CanonSorted(m, 0, {});
      var p := LowerBound(e.start);
      forall k | 0 <= k && k + 1 < p ensures m[k].end < e.start {
        assert m[k].end <= m[p - 1].start;
      }
      PlaceAt(m, e, p);
      var left, it, right := map_[..p], e, map_[p..];
      if p > 0 && map_[p - 1].end == e.start && map_[p - 1].flags == e.flags {
        left, it := map_[..p - 1], map_[p - 1].(end := e.end);
      }
      if right != [] && it.end == right[0].start && it.flags == right[0].flags {
        it, right := it.(end := right[0].end), right[1..];
      }
      map_ := left + ([it] + right);
    }

    /** True when no interval met on the way lacks a flag. */
    method Check(addr: nat, size: nat, flags: Flags) returns (ok: bool)
      requires Canonical(map_) && addr + size < U64
      ensures ok == Allowed(map_, addr, addr + size, flags)
      ensures size > 0 ==> ok == BytesCarry(map_, addr, addr + size, flags)
    {
      CanonSorted(map_, 0, {});
      ok := Scan(addr, addr + size, flags);
      if size > 0 {
        AllowedMeans(map_, addr, size, flags);
      }
    }

    method Scan(addr: nat, end: nat, flags: Flags) returns (ok: bool)
      requires Sorted(map_)
      ensures ok == Allowed(map_, addr, end, flags)
    {
      var at := addr;
      var it := FirstReaching(addr);
      while it < |map_| && map_[it].start < end
        invariant it <= |map_| && CarriesBelow(map_, it, addr, end, flags) && Reached(map_, it, addr, at)
      {
        ReachedNext(map_, it, addr, at);
        if map_[it].end > at {
          if !(flags <= map_[it].flags) {
            return false;
          }
          at := map_[it].end;
        }
        it := it + 1;
      }
      CarriesAll(map_, it, addr, end, flags);
      return true;
    }
  }
}
