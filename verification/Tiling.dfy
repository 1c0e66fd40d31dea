/**
 How far the loop of traducir_direccion has come (cpu/src/tlb.c:183-259): the segments found so far and
 what is left.
 */
module Tiling {
  import opened Paging

  /** `segs` covers the first `total` bytes of the range, up to a page boundary or its end. */
  ghost predicate Tiled(table: seq<nat>, ps: nat, la: nat, n: nat, segs: seq<Segment>, total: nat)
    requires 0 < ps && InRange(table, ps, la, n)
  {
    && total <= n
    && if total == n then segs == Segments(table, ps, la, n) else
         && PageOf(ps, la + total) == PageOf(ps, la) + |segs|
         && segs + Segments(table, ps, la + total, n - total) == Segments(table, ps, la, n)
  }

  lemma TiledFirst(table: seq<nat>, ps: nat, la: nat, n: nat)
    requires 0 < ps && InRange(table, ps, la, n)
    ensures var addr := Phys(table, ps, la);
            Chunk(ps, addr, n) == Chunk(ps, la, n) &&
            Tiled(table, ps, la, n, [Segment(addr, Chunk(ps, la, n))], Chunk(ps, la, n))
  {
    PhysOffset(table, ps, la);
    if Chunk(ps, la, n) < n {
      NextPage(ps, la, n);
    }
  }

  lemma TiledNext(table: seq<nat>, ps: nat, la: nat, n: nat, segs: seq<Segment>, total: nat)
    requires 0 < ps && InRange(table, ps, la, n) && Tiled(table, ps, la, n, segs, total) && total < n
    ensures var addr := Phys(table, ps, la + total);
            var c := Chunk(ps, addr, n - total);
            Tiled(table, ps, la, n, segs + [Segment(addr, c)], total + c)
  {
    var a, m := la + total, n - total;
    PhysOffset(table, ps, a);
    var head := Segment(Phys(table, ps, a), Chunk(ps, a, m));
    if head.size < m {
      NextPage(ps, a, m);
      assert a + head.size == la + (total + head.size);
      ConcatAssoc(segs, [head], Segments(table, ps, a + head.size, m - head.size));
    }
  }

  /** A cover that has as many segments as the range has pages is complete. */
  lemma TiledCount(table: seq<nat>, ps: nat, la: nat, n: nat, segs: seq<Segment>, total: nat)
    requires 0 < ps && InRange(table, ps, la, n) && Tiled(table, ps, la, n, segs, total)
    ensures total < n ==> |segs| < PageCount(ps, la, n)
    ensures total == n ==> |segs| == PageCount(ps, la, n)
  {
    SegmentsFit(table, ps, la, n);
    if total < n {
      SegmentsFit(table, ps, la + total, n - total);
    }
  }
}
