/**
 Where the TLB falls short: shrinking a process does not touch it (memoria/src/manejo_memoria.c:122-150),
 and its stamps come from a clock that may stand still (cpu/src/tlb.c:50-105).
 */
module StaleEntries {
  import opened Arith
  import opened TlbPolicy
  import opened Frames
  import opened Instructions
  import Mmu

  lemma ShrunkTables(m: Memory, pid: nat, size: nat, tp: nat)
    requires 0 < tp && Owned(m) && pid in m.procs && size < m.procs[pid].size && Enabled(m, Resize(pid, size), tp)
    ensures var m' := Shrunk(m, pid, size, tp);
            && Owned(m') && m'.procs.Keys == m.procs.Keys && |m'.owner| == |m.owner|
            && (forall q <- m.procs :: q != pid ==> m'.procs[q] == m.procs[q])
            && m'.procs[pid].pages <= m.procs[pid].pages
            && |m'.procs[pid].pages| == |m.procs[pid].pages| - CeilDiv(m.procs[pid].size - size, tp)
  {
    var k := CeilDiv(m.procs[pid].size - size, tp);
    ShrunkKeeps(m, pid, size, tp);
    DropPagesEffect(m, pid, k);
    DropPagesTail(m, pid, k);
  }

  /** After a shrink the TLB is still right exactly when it holds none of the pages that the request releases. */
  lemma ShrunkAgreesIff(m: Memory, pid: nat, size: nat, tp: nat, es: seq<Mmu.Entry>)
    requires 0 < tp && Owned(m) && pid in m.procs && size < m.procs[pid].size && Enabled(m, Resize(pid, size), tp)
    requires Mmu.Agrees(es, Tables(m.procs))
    ensures var stays := |m.procs[pid].pages| - CeilDiv(m.procs[pid].size - size, tp);
            Mmu.Agrees(es, Tables(Shrunk(m, pid, size, tp).procs)) <==>
            forall e <- es :: e.pid == pid ==> e.page < stays
  {
    ShrunkTables(m, pid, size, tp);
  }

  /** The frame of an entry that is left over is free: the next process to grow may get it. */
  lemma StaleFrameIsFree(m: Memory, pid: nat, size: nat, tp: nat, e: Mmu.Entry)
    requires 0 < tp && Owned(m) && pid in m.procs && size < m.procs[pid].size && Enabled(m, Resize(pid, size), tp)
    requires Mmu.Agrees([e], Tables(m.procs)) && e.pid == pid
    ensures var m' := Shrunk(m, pid, size, tp);
            && pid in m'.procs && e.frame < |m'.owner|
            && (e.page >= |m'.procs[pid].pages| ==> m'.owner[e.frame] == FREE)
  {
    ShrunkTables(m, pid, size, tp);
    var m' := Shrunk(m, pid, size, tp);
    assert e in [e];
    if e.page >= |m'.procs[pid].pages| {
      forall q | q in m'.procs
        ensures e.frame !in m'.procs[q].pages
      {
        PageIsNowhere(m, m', pid, q, e.page);
      }
    }
  }

  /** A page that a table has lost is in no table. */
  lemma PageIsNowhere(m: Memory, m': Memory, pid: nat, q: nat, page: nat)
    requires Owned(m) && pid in m.procs && q in m.procs && q in m'.procs && page < |m.procs[pid].pages|
    requires m'.procs[q].pages <= m.procs[q].pages && (q == pid ==> |m'.procs[q].pages| <= page)
    ensures m.procs[pid].pages[page] !in m'.procs[q].pages
  {
    forall k | 0 <= k < |m'.procs[q].pages|
      ensures m'.procs[q].pages[k] != m.procs[pid].pages[page]
    {
      assert m'.procs[q].pages[k] == m.procs[q].pages[k];
    }
  }

  // A process that reaches a page of another one

  /** Two processes without pages, and two frames. */
  function NoPages(): Memory {
    Memory([FREE, FREE], map[1 := Process([], 0), 2 := Process([], 0)])
  }

  /** 1 has the first frame. */
  function OnePage(tp: nat): Memory {
    Memory([1, FREE], map[1 := Process([0], tp), 2 := Process([], 0)])
  }

  /** 2 has it. */
  function HandedOver(tp: nat): Memory {
    Memory([2, FREE], map[1 := Process([], 0), 2 := Process([0], tp)])
  }

  /** ... and 1 has the second one. */
  function BothPaged(tp: nat): Memory {
    Memory([2, 1], map[1 := Process([1], tp), 2 := Process([0], tp)])
  }

  lemma OneFrame(tp: nat)
    requires 0 < tp
    ensures CeilDiv(tp - 0, tp) == 1
  {
    CeilDivExact(1, tp);
  }

  /** One page more for a process without any: the first free frame. */
  lemma GrownByOne(m: Memory, pid: nat, tp: nat)
    requires 0 < tp && Owned(m) && pid in m.procs && m.procs[pid] == Process([], 0) && FirstFree(m.owner) < |m.owner|
    ensures var f := FirstFree(m.owner);
            Grown(m, pid, tp, tp) == (Memory(m.owner[f := pid], m.procs[pid := Process([f], tp)]), ResizeOk)
  {
    var f := FirstFree(m.owner);
    OneFrame(tp);
    SomeFree(m.owner);
    AddPageCount(m, pid);
    AddPagesAppends(m, pid, 1);
    assert AddPages(m, pid, 1) == AddPages(AddPage(m, pid), pid, 0) == AddPage(m, pid);
    assert AddPage(m, pid).procs[pid] == Process([f], 0);
    assert m.procs[pid := Process([f], 0)][pid := Process([f], tp)] == m.procs[pid := Process([f], tp)];
  }

  lemma ShrunkToNothing(m: Memory, pid: nat, f: nat, tp: nat)
    requires 0 < tp && Owned(m) && pid in m.procs && m.procs[pid] == Process([f], tp)
    ensures Enabled(m, Resize(pid, 0), tp) && f < |m.owner|
    ensures Shrunk(m, pid, 0, tp) == Memory(m.owner[f := FREE], m.procs[pid := Process([], 0)])
  {
    OneFrame(tp);
    assert m.procs[pid].pages[0] == f;
    assert DropPages(m, pid, 1) == DropPages(DropPage(m, pid), pid, 0);
    assert [f][..0] == [];
  }

  lemma FirstOfTwo(a: nat, b: nat)
    ensures FirstFree([a, b]) == if a == FREE then 0 else if b == FREE then 1 else 2
  {
    assert [a, b][1..] == [b] && [b][1..] == [];
  }

  lemma AllOwned(tp: nat)
    ensures Owned(NoPages()) && Owned(OnePage(tp))
  {
  }

  lemma HandedOverOwned(tp: nat)
    ensures Owned(HandedOver(tp))
  {
  }

  lemma FirstGrows(tp: nat)
    requires 0 < tp && Owned(NoPages()) && Owned(HandedOver(tp))
    ensures Grown(NoPages(), 1, tp, tp) == (OnePage(tp), ResizeOk)
    ensures Grown(HandedOver(tp), 1, tp, tp) == (BothPaged(tp), ResizeOk)
  {
    FirstOfTwo(FREE, FREE);
    GrownByOne(NoPages(), 1, tp);
    assert [FREE, FREE][0 := 1] == [1, FREE];
    assert NoPages().procs[1 := Process([0], tp)] == OnePage(tp).procs;
    FirstOfTwo(2, FREE);
    GrownByOne(HandedOver(tp), 1, tp);
    assert [2, FREE][1 := 1] == [2, 1];
    assert HandedOver(tp).procs[1 := Process([1], tp)] == BothPaged(tp).procs;
  }

  lemma SecondGrows(tp: nat)
    requires 0 < tp && Owned(NoPages())
    ensures Grown(NoPages(), 2, tp, tp) == (HandedOver(tp), ResizeOk)
  {
    FirstOfTwo(FREE, FREE);
    GrownByOne(NoPages(), 2, tp);
    assert [FREE, FREE][0 := 2] == [2, FREE];
    assert NoPages().procs[2 := Process([0], tp)] == HandedOver(tp).procs;
  }

  lemma FirstShrinks(tp: nat)
    requires 0 < tp && Owned(OnePage(tp))
    ensures Enabled(OnePage(tp), Resize(1, 0), tp) && Shrunk(OnePage(tp), 1, 0, tp) == NoPages()
  {
    ShrunkToNothing(OnePage(tp), 1, 0, tp);
  }

  /**
   1 grows to a page and looks it up, shrinks to nothing, 2 grows, and 1 grows again. The entry was
   right when it was made, is still there, and now sends byte 0 of process 1 to the frame of process 2.
   */
  lemma StaleEntryMisleads(tp: nat, stamp: nat)
    requires 0 < tp
    ensures Owned(NoPages()) && Grown(NoPages(), 1, tp, tp) == (OnePage(tp), ResizeOk)
    ensures Owned(OnePage(tp)) && Enabled(OnePage(tp), Resize(1, 0), tp) && Shrunk(OnePage(tp), 1, 0, tp) == NoPages()
    ensures Grown(NoPages(), 2, tp, tp) == (HandedOver(tp), ResizeOk)
    ensures Grown(HandedOver(tp), 1, tp, tp) == (BothPaged(tp), ResizeOk)
    ensures var e, end := Mmu.Entry(1, 0, 0, stamp), BothPaged(tp);
            && Mmu.Agrees([e], Tables(OnePage(tp).procs)) && !Mmu.Agrees([e], Tables(end.procs))
            && e.page < |end.procs[e.pid].pages| && end.owner[end.procs[e.pid].pages[e.page]] == 1
            && end.owner[e.frame] == 2
  {
    AllOwned(tp);
    HandedOverOwned(tp);
    FirstGrows(tp);
    FirstShrinks(tp);
    SecondGrows(tp);
    assert Mmu.Entry(1, 0, 0, stamp) in [Mmu.Entry(1, 0, 0, stamp)];
  }

  // The one-second clock

  /** `w` is the slot used longest ago. */
  ghost predicate IsLeastRecent(es: seq<Mmu.Entry>, h: seq<Key>, w: nat) {
    && w < |es|
    && forall i | 0 <= i < |es| && i != w :: LastUse(h, Mmu.KeyOf(es[w])) < LastUse(h, Mmu.KeyOf(es[i]))
  }

  /** The replaced slot is the least recently used one exactly when no slot before that one has its stamp. */
  lemma EvictsLeastRecentIff(es: seq<Mmu.Entry>, h: seq<Key>, now: int, w: nat, v: nat)
    requires Mmu.StampedInOrder(es, h, now) && IsLeastRecent(es, h, w) && Mmu.IsVictim(es, v)
    ensures v == w <==> forall i | 0 <= i < w :: es[i].stamp != es[w].stamp
  {
    assert es[w].stamp <= es[v].stamp;
    forall i | 0 <= i < w
      ensures es[w].stamp <= es[i].stamp
    {
      assert LastUse(h, Mmu.KeyOf(es[w])) < LastUse(h, Mmu.KeyOf(es[i]));
    }
  }

  lemma ThreeUses(a: Key, b: Key)
    requires a != b
    ensures LastUse([a, b, a], a) == 3 && LastUse([a, b, a], b) == 2
  {
    assert [a, b, a][..2] == [a, b];
    assert [a, b][|[a, b]| - 1] == b;
  }

  /** With a clock that stands at 0 all stamps are 0. */
  lemma AllStampedZero(es: seq<Mmu.Entry>, h: seq<Key>)
    requires Mmu.StampedInOrder(es, h, 0) && es != []
    ensures Mmu.IsVictim(es, 0)
  {
  }

  /**
   Three lookups within one second, of pages 0, 1 and 0: of the two slots, the one to be replaced next
   is that of page 0, the most recently used.
   */
  method EvictsMostRecent() returns (tlb: Mmu.Tlb)
    ensures tlb.Valid() && tlb.algorithm.LRU? && Mmu.NeverBack(tlb.clock)
    ensures tlb.used == tlb.entries.Length == 2 && tlb.history == [Key(1, 0), Key(1, 1), Key(1, 0)]
    ensures Mmu.IsVictim(tlb.Live(), 0) && IsLeastRecent(tlb.Live(), tlb.history, 1)
  {
    tlb := new Mmu.Tlb(2, Mmu.LRU, _ => 0);
    LookUpThree(tlb);
    ghost var a, b := Key(1, 0), Key(1, 1);
    AllStampedZero(tlb.Live(), tlb.history);
    ThreeUses(a, b);
    assert Mmu.KeyOf(tlb.Live()[0]) == Mmu.KeysOf(tlb.Live())[0] == a;
    assert Mmu.KeyOf(tlb.Live()[1]) == Mmu.KeysOf(tlb.Live())[1] == b;
  }

  method LookUpThree(tlb: Mmu.Tlb)
    requires tlb.Valid() && tlb.InPolicyOrder() && tlb.entries.Length == 2 && tlb.used == 0 && tlb.history == []
    modifies tlb`ticks, tlb`used, tlb`history, tlb.entries
    ensures tlb.Valid() && tlb.InPolicyOrder() && tlb.history == [Key(1, 0), Key(1, 1), Key(1, 0)]
    ensures Mmu.KeysOf(tlb.Live()) == [Key(1, 0), Key(1, 1)]
  {
    var table: Mmu.PageTables := map[1 := [0, 1]];
    assert Mmu.KeysOf(tlb.Live()) == [];
    var frame, hit := tlb.Obtain(1, 0, table);
    assert Mmu.KeysOf(tlb.Live()) == [Key(1, 0)];
    frame, hit := tlb.Obtain(1, 1, table);
    assert Mmu.KeysOf(tlb.Live()) == [Key(1, 0), Key(1, 1)];
    frame, hit := tlb.Obtain(1, 0, table);
  }
}
