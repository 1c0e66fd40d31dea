/**
 The arithmetic of paged addresses (cpu/src/tlb.c): the image of a logical address under a
 page table, the physical segments a logical range splits into, and what they cover.
 Page and offset are defined by stepping over whole pages; `PageIsQuotient` ties them to the
 division and remainder that the code uses.
 */
module Paging {
  import opened Arith

  /** A physical range: t_direcciones_fisicas. */
  datatype Segment = Segment(addr: nat, size: nat)

  function PageOf(ps: nat, a: nat): nat
    requires 0 < ps
  {
    if a < ps then 0 else 1 + PageOf(ps, a - ps)
  }

  function OffsetOf(ps: nat, a: nat): (o: nat)
    requires 0 < ps
    ensures o < ps
  {
    if a < ps then a else OffsetOf(ps, a - ps)
  }

  lemma {:induction false} PageIsQuotient(ps: nat, a: nat)
    requires 0 < ps
    ensures PageOf(ps, a) == a / ps && OffsetOf(ps, a) == a % ps
    ensures a == PageOf(ps, a) * ps + OffsetOf(ps, a)
  {
    if a >= ps {
      PageIsQuotient(ps, a - ps);
    }
    DivModUnique(a, ps, PageOf(ps, a), OffsetOf(ps, a));
  }

  /** Moving on by `k` stays in the page, or enters the next one at its first byte. */
  lemma {:induction false} PageAdvance(ps: nat, a: nat, k: nat)
    requires 0 < ps && OffsetOf(ps, a) + k <= ps
    ensures OffsetOf(ps, a) + k < ps ==>
              PageOf(ps, a + k) == PageOf(ps, a) && OffsetOf(ps, a + k) == OffsetOf(ps, a) + k
    ensures OffsetOf(ps, a) + k == ps ==>
              PageOf(ps, a + k) == PageOf(ps, a) + 1 && OffsetOf(ps, a + k) == 0
  {
    if a >= ps {
      PageAdvance(ps, a - ps, k);
      assert a + k - ps == a - ps + k;
    }
  }

  lemma {:induction false} PageMonotone(ps: nat, a: nat, b: nat)
    requires 0 < ps && a <= b
    ensures PageOf(ps, a) <= PageOf(ps, b)
  {
    if b >= ps {
      PageMonotone(ps, if a < ps then 0 else a - ps, b - ps);
    }
  }

  lemma SamePage(ps: nat, a: nat, k: nat)
    requires 0 < ps
    ensures PageOf(ps, a) == PageOf(ps, a + k) <==> OffsetOf(ps, a) + k < ps
  {
    if OffsetOf(ps, a) + k < ps {
      PageAdvance(ps, a, k);
    } else {
      PageAdvance(ps, a, ps - OffsetOf(ps, a));
      PageMonotone(ps, a + (ps - OffsetOf(ps, a)), a + k);
    }
  }

  lemma PageOfMultiple(ps: nat, f: nat, o: nat)
    requires 0 < ps && o < ps
    ensures PageOf(ps, f * ps + o) == f && OffsetOf(ps, f * ps + o) == o
  {
    PageIsQuotient(ps, f * ps + o);
    DivModUnique(f * ps + o, ps, f, o);
  }

  /** The address of the last byte of a range; an empty range still names its page. */
  function LastByte(la: nat, n: nat): nat {
    if n == 0 then la else la + n - 1
  }

  /** Every page that [la, la+n) touches is in the table. */
  ghost predicate InRange(table: seq<nat>, ps: nat, la: nat, n: nat)
    requires 0 < ps
  {
    forall a | la <= a <= LastByte(la, n) :: PageOf(ps, a) < |table|
  }

  /** For the whole pages of a process, that is lying within its size. */
  lemma InRangeIsWithinSize(table: seq<nat>, ps: nat, la: nat, n: nat)
    requires 0 < ps
    ensures InRange(table, ps, la, n) <==> LastByte(la, n) < |table| * ps
  {
    var last := LastByte(la, n);
    PageIsQuotient(ps, last);
    if PageOf(ps, last) < |table| {
      MulMonotone(PageOf(ps, last) + 1, |table|, ps);
      forall a | la <= a <= last
        ensures PageOf(ps, a) < |table|
      {
        PageMonotone(ps, a, last);
      }
    } else {
      MulMonotone(|table|, PageOf(ps, last), ps);
    }
  }

  /** Physical address of logical address `a`. */
  function Phys(table: seq<nat>, ps: nat, a: nat): (r: nat)
    requires 0 < ps && PageOf(ps, a) < |table|
  {
    table[PageOf(ps, a)] * ps + OffsetOf(ps, a)
  }

  lemma PhysOffset(table: seq<nat>, ps: nat, a: nat)
    requires 0 < ps && PageOf(ps, a) < |table|
    ensures PageOf(ps, Phys(table, ps, a)) == table[PageOf(ps, a)]
    ensures OffsetOf(ps, Phys(table, ps, a)) == OffsetOf(ps, a)
  {
    PageOfMultiple(ps, table[PageOf(ps, a)], OffsetOf(ps, a));
  }

  /** Number of pages that [la, la+n) touches. */
  function PageCount(ps: nat, la: nat, n: nat): nat
    requires 0 < ps
  {
    PageMonotone(ps, la, LastByte(la, n));
    PageOf(ps, LastByte(la, n)) - PageOf(ps, la) + 1
  }

  /** How much of [la, la+n) lies in the page of `la`. */
  function Chunk(ps: nat, la: nat, n: nat): (c: nat)
    requires 0 < ps
    ensures c <= n && (n > 0 ==> c > 0)
  {
    Min(n, ps - OffsetOf(ps, la))
  }

  /** The segments of [la, la+n), page by page. */
  ghost function Segments(table: seq<nat>, ps: nat, la: nat, n: nat): (r: seq<Segment>)
    requires 0 < ps && InRange(table, ps, la, n)
    decreases n
  {
    var c := Chunk(ps, la, n);
    var head := Segment(Phys(table, ps, la), c);
    if c == n then [head] else [head] + Segments(table, ps, la + c, n - c)
  }

  /** `n` consecutive addresses. */
  function AddrRun(at: nat, n: nat): (r: seq<nat>)
    ensures |r| == n
    ensures forall k | 0 <= k < n :: r[k] == at + k
  {
    seq(n, k requires 0 <= k < n => at + k)
  }

  /** The byte addresses a segment list covers, in order. */
  function Expand(segs: seq<Segment>): seq<nat> {
    if segs == [] then [] else AddrRun(segs[0].addr, segs[0].size) + Expand(segs[1..])
  }

  /** The images of [la, la+n), in order. */
  ghost function Images(table: seq<nat>, ps: nat, la: nat, n: nat): (r: seq<nat>)
    requires 0 < ps && InRange(table, ps, la, n)
    ensures |r| == n
    ensures forall k | 0 <= k < n :: r[k] == Phys(table, ps, la + k)
    decreases n
  {
    if n == 0 then [] else Images(table, ps, la, n - 1) + [Phys(table, ps, la + n - 1)]
  }

  function TotalSize(segs: seq<Segment>): nat {
    if segs == [] then 0 else segs[0].size + TotalSize(segs[1..])
  }

  /** The segment does not leave the frame it starts in. */
  predicate InOneFrame(s: Segment, ps: nat)
    requires 0 < ps
  {
    OffsetOf(ps, s.addr) + s.size <= ps
  }

  lemma ExpandLength(segs: seq<Segment>)
    ensures |Expand(segs)| == TotalSize(segs)
  {
  }

  lemma {:induction false} ExpandConcat(a: seq<Segment>, b: seq<Segment>)
    ensures Expand(a + b) == Expand(a) + Expand(b)
  {
    if a == [] {
      assert a + b == b;
    } else {
      ExpandConcat(a[1..], b);
      assert (a + b)[1..] == a[1..] + b;
      ConcatAssoc(AddrRun(a[0].addr, a[0].size), Expand(a[1..]), Expand(b));
    }
  }

  lemma ExpandCons(head: Segment, rest: seq<Segment>)
    ensures Expand([head] + rest) == Expand([head]) + Expand(rest)
  {
    assert ([head] + rest)[1..] == rest;
  }

  /** The bytes of [la, la+n) in the page of `la` form one run of addresses. */
  lemma HeadCovers(table: seq<nat>, ps: nat, la: nat, n: nat)
    requires 0 < ps && InRange(table, ps, la, n)
    ensures var c := Chunk(ps, la, n);
            Expand([Segment(Phys(table, ps, la), c)]) == Images(table, ps, la, c)
  {
    var c := Chunk(ps, la, n);
    var run := Expand([Segment(Phys(table, ps, la), c)]);
    forall k | 0 <= k < c
      ensures run[k] == Images(table, ps, la, c)[k]
    {
      PageAdvance(ps, la, k);
    }
  }

  lemma ImagesSplit(table: seq<nat>, ps: nat, la: nat, c: nat, n: nat)
    requires 0 < ps && 0 < c < n && InRange(table, ps, la, n)
    ensures Images(table, ps, la, n) == Images(table, ps, la, c) + Images(table, ps, la + c, n - c)
  {
    var r := Images(table, ps, la + c, n - c);
    forall k | c <= k < n
      ensures Images(table, ps, la, n)[k] == r[k - c]
    {
      assert la + c + (k - c) == la + k;
    }
  }

  /** Past the page of `la`, the rest starts a page and touches one page less. */
  lemma NextPage(ps: nat, la: nat, n: nat)
    requires 0 < ps && Chunk(ps, la, n) < n
    ensures var c := Chunk(ps, la, n);
            && OffsetOf(ps, la + c) == 0
            && PageOf(ps, la + c) == PageOf(ps, la) + 1
            && PageCount(ps, la, n) == 1 + PageCount(ps, la + c, n - c)
  {
    PageAdvance(ps, la, Chunk(ps, la, n));
  }

  lemma PageCountOne(ps: nat, la: nat, n: nat)
    requires 0 < ps
    ensures Chunk(ps, la, n) == n <==> PageCount(ps, la, n) == 1
  {
    SamePage(ps, la, LastByte(la, n) - la);
  }

  /** obtenerCantidadPaginas's answer in the code's own division. */
  lemma PageCountFormula(ps: nat, la: nat, n: nat)
    requires 0 < ps && 0 < n
    ensures PageCount(ps, la, n) == (la + n - 1) / ps - la / ps + 1
  {
    PageIsQuotient(ps, la);
    PageIsQuotient(ps, la + n - 1);
  }

  /** Tiling: the segments cover exactly the images of the logical bytes, in order. */
  lemma {:induction false} SegmentsCover(table: seq<nat>, ps: nat, la: nat, n: nat)
    requires 0 < ps && InRange(table, ps, la, n)
    ensures Expand(Segments(table, ps, la, n)) == Images(table, ps, la, n)
    decreases n
  {
    var c := Chunk(ps, la, n);
    HeadCovers(table, ps, la, n);
    if c < n {
      SegmentsCover(table, ps, la + c, n - c);
      ImagesSplit(table, ps, la, c, n);
      ExpandCons(Segment(Phys(table, ps, la), c), Segments(table, ps, la + c, n - c));
    }
  }

  /** Each segment stays in one frame and is empty only if the range is; there is one per page. */
  lemma {:induction false} SegmentsFit(table: seq<nat>, ps: nat, la: nat, n: nat)
    requires 0 < ps && InRange(table, ps, la, n)
    ensures forall s <- Segments(table, ps, la, n) :: InOneFrame(s, ps) && (0 < n ==> 0 < s.size)
    ensures |Segments(table, ps, la, n)| == PageCount(ps, la, n)
    decreases n
  {
    var c := Chunk(ps, la, n);
    PhysOffset(table, ps, la);
    PageCountOne(ps, la, n);
    if c < n {
      SegmentsFit(table, ps, la + c, n - c);
      NextPage(ps, la, n);
    }
  }

  lemma ConcatAssoc<T>(a: seq<T>, b: seq<T>, c: seq<T>)
    ensures a + b + c == a + (b + c)
  {
  }

  /** The division at the head of traducir_direccion. */
  method SplitAddress(a: nat, ps: nat) returns (page: nat, offset: nat)
    requires 0 < ps
    ensures page == PageOf(ps, a) && offset == OffsetOf(ps, a)
  {
    PageIsQuotient(ps, a);
    page := a / ps;
    offset := a - page * ps;
  }

  /** The comparison `a / ps == b / ps`. */
  method InSamePage(a: nat, b: nat, ps: nat) returns (same: bool)
    requires 0 < ps
    ensures same <==> PageOf(ps, a) == PageOf(ps, b)
  {
    PageIsQuotient(ps, a);
    PageIsQuotient(ps, b);
    same := a / ps == b / ps;
  }

  /** The counting `for` of traducir_direccion: bytes of the range in the frame of `addr`. */
  method CountInFrame(addr: nat, ps: nat, n: nat) returns (c: nat)
    requires 0 < ps
    ensures c == Chunk(ps, addr, n)
  {
    c := 0;
    for i := 0 to n
      invariant c == Min(i, ps - OffsetOf(ps, addr))
    {
      SamePage(ps, addr, i);
      var same := InSamePage(addr, addr + i, ps);
      if same {
        c := c + 1;
      }
    }
  }

  /** The same count, by the `while` that the miss branch uses. */
  method RunInFrame(addr: nat, ps: nat, n: nat) returns (c: nat)
    requires 0 < ps
    ensures c == Chunk(ps, addr, n)
  {
    c := 0;
    var i := 0;
    var same := InSamePage(addr, addr + i, ps);
    while same && i < n
      invariant c == i <= n && (i == 0 || OffsetOf(ps, addr) + i <= ps)
      invariant same <==> PageOf(ps, addr) == PageOf(ps, addr + i)
      decreases n - i
    {
      SamePage(ps, addr, i);
      c := c + 1;
      i := i + 1;
      same := InSamePage(addr, addr + i, ps);
    }
    SamePage(ps, addr, i);
  }

  /**
   obtenerCantidadPaginas: the index restarts at every page boundary, so the loop ends because
   the remaining size drops, or stays while the index advances.
   */
  method CountPages(la: nat, ps: nat, n: nat) returns (pages: nat)
    requires 0 < ps
    ensures pages == PageCount(ps, la, n)
  {
    var index, rest, base := 0, n, la;
    pages := 1;
    while index < rest
      invariant 0 <= index <= rest && base + rest == la + n
      invariant 0 < rest || (n == 0 && pages == 1)
      invariant pages - 1 + PageCount(ps, base, rest) == PageCount(ps, la, n)
      invariant index == 0 || OffsetOf(ps, base) + index <= ps
      decreases rest, rest - index
    {
      SamePage(ps, base, index);
      var same := InSamePage(base, base + index, ps);
      if !same {
        NextPage(ps, base, rest);
        base := base + index;
        rest := rest - index;
        index := 0;
        pages := pages + 1;
      } else {
        index := index + 1;
      }
    }
    PageCountOne(ps, base, rest);
  }
}
