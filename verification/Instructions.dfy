/**
 MOV_OUT, MOV_IN and COPY_STRING from the register to the byte of memory and back
 (cpu/src/instrucciones.c, memoria/src/comunicaciones.c): translation, request stream, decoding
 and access. Each is stated on the flat array of bytes of the process.
 */
module Instructions {
  import opened Arith
  import opened Paging
  import opened TlbPolicy
  import opened Frames
  import opened FlatMemory
  import opened Wire
  import Mmu
  import UserMemory

  /** The page tables that memoria answers PEDIDO_MARCO from. */
  function Tables(procs: map<nat, Process>): (t: Mmu.PageTables)
    ensures t.Keys == procs.Keys && forall p <- procs :: t[p] == procs[p].pages
  {
    map p | p in procs :: procs[p].pages
  }

  /**
   cpu and memoria: the TLB agrees with the page tables, it only knows pids that have been started,
   and TAM_MEMORIA is a positive int.
   */
  ghost predicate Coherent(tlb: Mmu.Tlb, mem: UserMemory.UserMemory)
    reads tlb, tlb.entries, mem, mem.owner
  {
    && tlb.Valid() && mem.Valid()
    && Mmu.Agrees(tlb.Live(), Tables(mem.procs))
    && (forall k <- tlb.history :: k.pid in mem.started)
    && mem.bytes.Length < 0x8000_0000
  }

  ghost function FlatOf(mem: UserMemory.UserMemory, pid: nat): seq<Byte>
    requires mem.Valid() && pid in mem.procs
    reads mem, mem.owner, mem.bytes
  {
    TablesFit(mem.View(), pid, mem.pageSize, mem.bytes.Length);
    Flat(mem.bytes[..], mem.procs[pid].pages, mem.pageSize)
  }

  /** All bytes after a write to [la, la + |data|) of one process. */
  ghost function Written(m: Memory, bytes: seq<Byte>, tp: nat, pid: nat, la: nat, data: seq<Byte>): (r: seq<Byte>)
    requires Owned(m) && 0 < tp && |m.owner| * tp <= |bytes| && pid in m.procs
    requires InRange(m.procs[pid].pages, tp, la, |data|)
    ensures |r| == |bytes|
  {
    TablesFit(m, pid, tp, |bytes|);
    ImagesFit(m.procs[pid].pages, tp, la, |data|, |bytes|);
    Scatter(bytes, Images(m.procs[pid].pages, tp, la, |data|), data)
  }

  lemma TablesFit(m: Memory, pid: nat, tp: nat, size: nat)
    requires Owned(m) && |m.owner| * tp <= size && pid in m.procs
    ensures Fits(m.procs[pid].pages, tp, size)
  {
    forall i | 0 <= i < |m.procs[pid].pages|
      ensures m.procs[pid].pages[i] * tp + tp <= size
    {
      var f := m.procs[pid].pages[i];
      MulDistributes(f, 1, tp);
      MulMonotone(f + 1, |m.owner|, tp);
    }
  }

  lemma FramesAreSmall(m: Memory, tp: nat, size: nat)
    requires Owned(m) && 0 < tp && |m.owner| * tp <= size < 0x8000_0000
    ensures Mmu.FramesFit(Tables(m.procs))
  {
    MulMonotone(1, tp, |m.owner|);
    forall pid, f | pid in m.procs && f in m.procs[pid].pages
      ensures f < Mmu.MISS
    {
      var i :| 0 <= i < |m.procs[pid].pages| && m.procs[pid].pages[i] == f;
    }
  }

  /** The segments of a range in the process lie in memory. */
  lemma {:induction false} SegmentsInMemory(table: seq<nat>, ps: nat, la: nat, n: nat, size: nat)
    requires 0 < ps && InRange(table, ps, la, n) && Fits(table, ps, size)
    ensures UserMemory.SegmentsIn(Segments(table, ps, la, n), size)
    decreases n
  {
    var c := Chunk(ps, la, n);
    if c < n {
      SegmentsInMemory(table, ps, la + c, n - c, size);
    }
  }

  /** What a translated request looks like to memoria. */
  lemma SegmentsSound(table: seq<nat>, ps: nat, la: nat, n: nat, size: nat)
    requires 0 < ps && InRange(table, ps, la, n) && Fits(table, ps, size) && size < 0x8000_0000
    ensures var segs := Segments(table, ps, la, n);
            && UserMemory.SegmentsIn(segs, size) && SegmentsFitWords(segs)
            && Expand(segs) == Images(table, ps, la, n) && TotalSize(segs) == n
  {
    SegmentsInMemory(table, ps, la, n, size);
    SegmentsCover(table, ps, la, n);
    ExpandLength(Segments(table, ps, la, n));
  }

  /** A write through the images of a range changes that range of one process's flat array. */
  lemma WriteChangesOne(m: Memory, tp: nat, before: seq<Byte>, pid: nat, la: nat, data: seq<Byte>, q: nat)
    requires Owned(m) && 0 < tp && |m.owner| * tp <= |before| && pid in m.procs && q in m.procs
    requires InRange(m.procs[pid].pages, tp, la, |data|)
    ensures Below(Images(m.procs[pid].pages, tp, la, |data|), |before|)
    ensures Fits(m.procs[pid].pages, tp, |before|) && Fits(m.procs[q].pages, tp, |before|)
    ensures la + |data| <= |Flat(before, m.procs[pid].pages, tp)|
    ensures Flat(Scatter(before, Images(m.procs[pid].pages, tp, la, |data|), data), m.procs[q].pages, tp) ==
            if q == pid then Splice(Flat(before, m.procs[pid].pages, tp), la, data)
            else Flat(before, m.procs[q].pages, tp)
  {
    TablesFit(m, pid, tp, |before|);
    TablesFit(m, q, tp, |before|);
    WriteIsSplice(before, m.procs[pid].pages, tp, la, data);
    if q != pid {
      WriteElsewhere(before, m.procs[pid].pages, tp, la, data, m.procs[q].pages);
    }
  }

  /** Only the first bytes of the range are written when the data is shorter. */
  lemma {:induction false} ScatterPrefix(bytes: seq<Byte>, addrs: seq<nat>, data: seq<Byte>)
    requires |data| <= |addrs| && Below(addrs, |bytes|)
    ensures Below(addrs[..|data|], |bytes|)
    ensures Scatter(bytes, addrs, data) == Scatter(bytes, addrs[..|data|], data)
    decreases |data|
  {
    if data != [] {
      ScatterPrefix(bytes[addrs[0] := data[0]], addrs[1..], data[1..]);
      assert addrs[..|data|][1..] == addrs[1..][..|data| - 1];
    }
  }

  lemma ImagesPrefix(table: seq<nat>, ps: nat, la: nat, m: nat, n: nat)
    requires 0 < ps && m <= n && InRange(table, ps, la, n)
    ensures InRange(table, ps, la, m) && Images(table, ps, la, n)[..m] == Images(table, ps, la, m)
  {
  }

  /** The loop in front of each access that adds up the sizes. */
  method SumSizes(segs: seq<Segment>) returns (total: nat)
    ensures total == TotalSize(segs)
  {
    total := 0;
    for i := 0 to |segs|
      invariant total + TotalSize(segs[i..]) == TotalSize(segs)
    {
      total := total + segs[i].size;
    }
  }

  /** PEDIDO_MOV_OUT, PEDIDO_COPY_STRING and PEDIDO_ESCRIBIR_DATO_STDIN end in this access. */
  method Store(mem: UserMemory.UserMemory, segs: seq<Segment>, value: seq<Byte>, ghost pid: nat, ghost la: nat,
          ghost n: nat)
    requires mem.Valid() && pid in mem.procs && mem.bytes.Length < 0x8000_0000
    requires InRange(mem.procs[pid].pages, mem.pageSize, la, n)
    requires segs == Segments(mem.procs[pid].pages, mem.pageSize, la, n)
    modifies mem.bytes
    ensures var data := Fitting(value, n);
            && InRange(mem.procs[pid].pages, mem.pageSize, la, |data|)
            && mem.bytes[..] == old(Written(mem.View(), mem.bytes[..], mem.pageSize, pid, la, data))
    ensures var data := Fitting(value, n);
            && la + |data| <= |old(FlatOf(mem, pid))|
            && forall q | q in mem.procs ::
                 FlatOf(mem, q) == if q == pid then Splice(old(FlatOf(mem, pid)), la, data) else old(FlatOf(mem, q))
  {
    ghost var before, table, m, data := mem.bytes[..], mem.procs[pid].pages, mem.View(), Fitting(value, n);
    TablesFit(m, pid, mem.pageSize, mem.bytes.Length);
    SegmentsSound(table, mem.pageSize, la, n, mem.bytes.Length);
    ExpandLength(segs);
    ImagesPrefix(table, mem.pageSize, la, |data|, n);
    mem.Write(segs, value, |value|);
    assert value[..Min(|value|, |Expand(segs)|)] == data;
    ScatterPrefix(before, Expand(segs), data);
    WrittenChanges(mem, m, before, pid, la, data);
  }

  /** What there is room for: an access of `n` bytes takes no more of the value. */
  function Fitting(value: seq<Byte>, n: nat): seq<Byte> {
    if n < |value| then value[..n] else value
  }

  lemma WrittenChanges(mem: UserMemory.UserMemory, m: Memory, before: seq<Byte>, pid: nat, la: nat, data: seq<Byte>)
    requires mem.Valid() && m == mem.View() && pid in m.procs && |before| == mem.bytes.Length
    requires InRange(m.procs[pid].pages, mem.pageSize, la, |data|)
    requires mem.bytes[..] == Written(m, before, mem.pageSize, pid, la, data)
    ensures forall q | q in mem.procs :: Fits(m.procs[q].pages, mem.pageSize, |before|)
    ensures var old' := Flat(before, m.procs[pid].pages, mem.pageSize);
            && la + |data| <= |old'|
            && forall q | q in mem.procs ::
                 FlatOf(mem, q) == if q == pid then Splice(old', la, data)
                                   else Flat(before, m.procs[q].pages, mem.pageSize)
  {
    WriteChangesOne(m, mem.pageSize, before, pid, la, data, pid);
    forall q | q in mem.procs
      ensures Fits(m.procs[q].pages, mem.pageSize, |before|)
      ensures FlatOf(mem, q) == if q == pid then Splice(Flat(before, m.procs[pid].pages, mem.pageSize), la, data)
                                else Flat(before, m.procs[q].pages, mem.pageSize)
    {
      WriteChangesOne(m, mem.pageSize, before, pid, la, data, q);
    }
  }

  /** The read side of the same. */
  method Load(mem: UserMemory.UserMemory, segs: seq<Segment>, n: nat, ghost pid: nat, ghost la: nat)
    returns (data: seq<Byte>)
    requires mem.Valid() && pid in mem.procs && mem.bytes.Length < 0x8000_0000
    requires InRange(mem.procs[pid].pages, mem.pageSize, la, n)
    requires segs == Segments(mem.procs[pid].pages, mem.pageSize, la, n)
    ensures la + n <= |FlatOf(mem, pid)| && data == FlatOf(mem, pid)[la..la + n]
  {
    RangeGathered(mem, segs, n, pid, la);
    data := mem.Read(segs, n);
    assert data == Gather(mem.bytes[..], Expand(segs));
  }

  lemma RangeGathered(mem: UserMemory.UserMemory, segs: seq<Segment>, n: nat, pid: nat, la: nat)
    requires mem.Valid() && pid in mem.procs && mem.bytes.Length < 0x8000_0000
    requires InRange(mem.procs[pid].pages, mem.pageSize, la, n)
    requires segs == Segments(mem.procs[pid].pages, mem.pageSize, la, n)
    ensures |Expand(segs)| == n && UserMemory.SegmentsIn(segs, mem.bytes.Length)
    ensures Below(Expand(segs), |mem.bytes[..]|) && la + n <= |FlatOf(mem, pid)|
    ensures Gather(mem.bytes[..], Expand(segs)) == FlatOf(mem, pid)[la..la + n]
  {
    var table := mem.procs[pid].pages;
    TablesFit(mem.View(), pid, mem.pageSize, mem.bytes.Length);
    SegmentsSound(table, mem.pageSize, la, n, mem.bytes.Length);
    ExpandLength(segs);
    ReadIsSlice(mem.bytes[..], table, mem.pageSize, la, n);
  }

  /** The history of lookups once a range has been translated. */
  function LookedUp(h: seq<Key>, tp: nat, pid: nat, la: nat, n: nat): seq<Key>
    requires 0 < tp
  {
    Mmu.After(h, pid, PageOf(tp, la), PageCount(tp, la, n))
  }

  /** Translation against the tables of memoria. */
  method Translate(tlb: Mmu.Tlb, mem: UserMemory.UserMemory, pid: nat, la: nat, n: nat) returns (segs: seq<Segment>)
    requires Coherent(tlb, mem) && pid in mem.procs && InRange(mem.procs[pid].pages, mem.pageSize, la, n)
    modifies tlb`ticks, tlb`used, tlb`history, tlb.entries
    ensures Coherent(tlb, mem) && tlb.history == LookedUp(old(tlb.history), mem.pageSize, pid, la, n)
    ensures segs == Segments(mem.procs[pid].pages, mem.pageSize, la, n) && SegmentsFitWords(segs)
    ensures TotalSize(segs) == n
  {
    FramesAreSmall(mem.View(), mem.pageSize, mem.bytes.Length);
    TablesFit(mem.View(), pid, mem.pageSize, mem.bytes.Length);
    SegmentsSound(mem.procs[pid].pages, mem.pageSize, la, n, mem.bytes.Length);
    Mmu.PageKeysPid(pid, PageOf(mem.pageSize, la), PageCount(mem.pageSize, la, n));
    segs := tlb.Translate(pid, la, mem.pageSize, n, Tables(mem.procs));
  }

  /** There are no more segments than bytes, but one for an empty range. */
  lemma SegmentCount(table: seq<nat>, ps: nat, la: nat, n: nat)
    requires 0 < ps && InRange(table, ps, la, n)
    ensures |Segments(table, ps, la, n)| <= if n == 0 then 1 else n
    decreases n
  {
    var c := Chunk(ps, la, n);
    if c < n {
      SegmentCount(table, ps, la + c, n - c);
    }
  }

  /** Growth only appends to one table. */
  lemma GrownTables(m: Memory, pid: nat, size: nat, tp: nat)
    requires 0 < tp && Owned(m) && pid in m.procs && m.procs[pid].size < size
    ensures var m' := Grown(m, pid, size, tp).0;
            && m'.procs.Keys == m.procs.Keys && m.procs[pid].pages <= m'.procs[pid].pages
            && (forall q <- m.procs :: q != pid ==> m'.procs[q] == m.procs[q])
            && (Grown(m, pid, size, tp).1 == OutOfMemory ==> m' == m)
  {
    var k := CeilDiv(size - m.procs[pid].size, tp);
    if k <= CountTag(m.owner, FREE) {
      AddedTables(m, pid, k);
      AddPagesAppends(m, pid, k);
    }
  }

  lemma AddedTables(m: Memory, pid: nat, k: nat)
    requires Owned(m) && pid in m.procs && k <= CountTag(m.owner, FREE)
    ensures OnlyTable(m, AddPages(m, pid, k), pid)
  {
    AddPagesEffect(m, pid, k);
  }

  /** Hence the cached translations stay right. */
  lemma GrownAgrees(es: seq<Mmu.Entry>, before: map<nat, Process>, after: map<nat, Process>)
    requires Mmu.Agrees(es, Tables(before)) && before.Keys == after.Keys
    requires forall q <- before :: before[q].pages <= after[q].pages
    ensures Mmu.Agrees(es, Tables(after))
  {
  }

  /** The stream of PEDIDO_MOV_OUT, written by cpu and read by memoria. */
  method PassMovOut(request: MovOutRequest) returns (r: MovOutRequest)
    requires MovOutFits(request)
    ensures r == request
  {
    var packet := SerializeMovOut(request);
    MovOutRoundTrip(request);
    r := DeserializeMovOut(packet[..]);
  }

  /** memoria's side of PEDIDO_MOV_OUT. */
  method ServeMovOut(mem: UserMemory.UserMemory, request: MovOutRequest, ghost pid: nat, ghost la: nat, ghost n: nat)
    requires mem.Valid() && pid in mem.procs && mem.bytes.Length < 0x8000_0000 && |request.value| == n
    requires InRange(mem.procs[pid].pages, mem.pageSize, la, n) && TotalSize(request.segs) == n
    requires request.segs == Segments(mem.procs[pid].pages, mem.pageSize, la, n)
    modifies mem.bytes
    ensures mem.bytes[..] == old(Written(mem.View(), mem.bytes[..], mem.pageSize, pid, la, request.value))
    ensures la + n <= |old(FlatOf(mem, pid))|
    ensures forall q | q in mem.procs ::
              FlatOf(mem, q) ==
              if q == pid then Splice(old(FlatOf(mem, pid)), la, request.value) else old(FlatOf(mem, q))
  {
    var total := SumSizes(request.segs);
    assert request.value[..total] == request.value && Fitting(request.value, n) == request.value;
    Store(mem, request.segs, request.value[..total], pid, la, n);
  }

  /** MOV_OUT writes the register at [la, la + width) of its process, and nothing else anywhere. */
  method MovOut(tlb: Mmu.Tlb, mem: UserMemory.UserMemory, pid: nat, la: nat, wide: bool, value: seq<Byte>)
    requires Coherent(tlb, mem) && pid in mem.procs && pid < WORD
    requires |value| == (if wide then 4 else 1) && InRange(mem.procs[pid].pages, mem.pageSize, la, |value|)
    modifies tlb`ticks, tlb`used, tlb`history, tlb.entries, mem.bytes
    ensures Coherent(tlb, mem) && tlb.history == LookedUp(old(tlb.history), mem.pageSize, pid, la, |value|)
    ensures mem.bytes[..] == old(Written(mem.View(), mem.bytes[..], mem.pageSize, pid, la, value))
    ensures la + |value| <= |old(FlatOf(mem, pid))|
    ensures forall q | q in mem.procs ::
              FlatOf(mem, q) == if q == pid then Splice(old(FlatOf(mem, pid)), la, value) else old(FlatOf(mem, q))
  {
    var segs := Translate(tlb, mem, pid, la, |value|);
    var request := PassMovOut(MovOutRequest(segs, wide, value, pid));
    ServeMovOut(mem, request, pid, la, |value|);
  }

  lemma ReplySound(table: seq<nat>, ps: nat, la: nat, n: nat, size: nat)
    requires 0 < ps && 0 < n < WORD && InRange(table, ps, la, n) && Fits(table, ps, size) && size < 0x8000_0000
    ensures var segs := Segments(table, ps, la, n);
            && UserMemory.SegmentsIn(segs, size) && TotalSize(segs) == n && |segs| < WORD
            && forall i | 0 <= i < |segs| :: 0 < segs[i].size <= n
  {
    SegmentsSound(table, ps, la, n, size);
    SegmentsFit(table, ps, la, n);
    SegmentCount(table, ps, la, n);
    ExpandLength(Segments(table, ps, la, n));
    UserMemory.SizesFit(Segments(table, ps, la, n));
  }

  /** The stream of memoria's answer: the bytes read for each segment, then all of them. */
  method Reply(mem: UserMemory.UserMemory, segs: seq<Segment>, n: nat, data: seq<Byte>) returns (reply: seq<Byte>)
    requires UserMemory.SegmentsIn(segs, mem.bytes.Length) && |data| == n < WORD && |segs| < WORD
    requires forall i | 0 <= i < |segs| :: 0 < segs[i].size <= n
    ensures var r := DecodeReply(reply, segs, n); r.Parsed? && r.value.1 == data
  {
    var parts := mem.ReadParts(segs, n);
    UserMemory.PartsLengths(mem.bytes[..], segs, n);
    ReplyRoundTrip(parts, segs, data);
    reply := EncodeReply(parts, segs, data);
  }

  /** memoria's answer to PEDIDO_MOV_IN. */
  method AnswerMovIn(mem: UserMemory.UserMemory, segs: seq<Segment>, ghost pid: nat, ghost la: nat, ghost n: nat)
    returns (reply: seq<Byte>)
    requires mem.Valid() && pid in mem.procs && mem.bytes.Length < 0x8000_0000
    requires 0 < n < WORD && InRange(mem.procs[pid].pages, mem.pageSize, la, n)
    requires segs == Segments(mem.procs[pid].pages, mem.pageSize, la, n)
    ensures la + n <= |FlatOf(mem, pid)|
    ensures var r := DecodeReply(reply, segs, n); r.Parsed? && r.value.1 == FlatOf(mem, pid)[la..la + n]
  {
    TablesFit(mem.View(), pid, mem.pageSize, mem.bytes.Length);
    ReplySound(mem.procs[pid].pages, mem.pageSize, la, n, mem.bytes.Length);
    var total := SumSizes(segs);
    var data := Load(mem, segs, total, pid, la);
    reply := Reply(mem, segs, total, data);
  }

  /** The stream of PEDIDO_MOV_IN. */
  method PassMovIn(request: MovInRequest) returns (r: MovInRequest)
    requires SegmentsFitWords(request.segs) && request.pid < WORD
    ensures r == request
  {
    var packet := SerializeMovIn(request);
    MovInRoundTrip(request);
    r := DeserializeMovIn(packet[..]);
  }

  /** MOV_IN brings the register's bytes from [la, la + width), and changes no memory. */
  method MovIn(tlb: Mmu.Tlb, mem: UserMemory.UserMemory, pid: nat, la: nat, wide: bool) returns (value: seq<Byte>)
    requires Coherent(tlb, mem) && pid in mem.procs && pid < WORD
    requires InRange(mem.procs[pid].pages, mem.pageSize, la, if wide then 4 else 1)
    modifies tlb`ticks, tlb`used, tlb`history, tlb.entries
    ensures Coherent(tlb, mem)
    ensures tlb.history == LookedUp(old(tlb.history), mem.pageSize, pid, la, if wide then 4 else 1)
    ensures var n := if wide then 4 else 1;
            la + n <= |FlatOf(mem, pid)| && value == FlatOf(mem, pid)[la..la + n]
  {
    var n := if wide then 4 else 1;
    var segs := Translate(tlb, mem, pid, la, n);
    var request := PassMovIn(MovInRequest(segs, pid));
    var reply := AnswerMovIn(mem, request.segs, pid, la, n);
    value := DecodeReply(reply, segs, n).value.1;
  }

  /** memoria's side of PEDIDO_COPY_STRING: read everything, then write. */
  method ServeCopy(mem: UserMemory.UserMemory, request: CopyRequest, ghost pid: nat, ghost dst: nat, ghost src: nat)
    requires mem.Valid() && pid in mem.procs && mem.bytes.Length < 0x8000_0000
    requires InRange(mem.procs[pid].pages, mem.pageSize, dst, request.size)
    requires InRange(mem.procs[pid].pages, mem.pageSize, src, request.size)
    requires request.dst == Segments(mem.procs[pid].pages, mem.pageSize, dst, request.size)
    requires request.src == Segments(mem.procs[pid].pages, mem.pageSize, src, request.size)
    modifies mem.bytes
    ensures var n := request.size; dst + n <= |old(FlatOf(mem, pid))| && src + n <= |old(FlatOf(mem, pid))|
    ensures var data := old(FlatOf(mem, pid))[src..src + request.size];
            mem.bytes[..] == old(Written(mem.View(), mem.bytes[..], mem.pageSize, pid, dst, data))
    ensures forall q | q in mem.procs ::
              FlatOf(mem, q) ==
              if q == pid then Splice(old(FlatOf(mem, pid)), dst, old(FlatOf(mem, pid))[src..src + request.size])
              else old(FlatOf(mem, q))
  {
    var data := Load(mem, request.src, request.size, pid, src);
    Store(mem, request.dst, data, pid, dst, request.size);
  }

  /** cpu's side of it: two translations and the request stream. */
  method RequestCopy(tlb: Mmu.Tlb, mem: UserMemory.UserMemory, pid: nat, dst: nat, src: nat, n: nat)
    returns (request: CopyRequest)
    requires Coherent(tlb, mem) && pid in mem.procs && pid < WORD && n < WORD
    requires InRange(mem.procs[pid].pages, mem.pageSize, dst, n)
    requires InRange(mem.procs[pid].pages, mem.pageSize, src, n)
    modifies tlb`ticks, tlb`used, tlb`history, tlb.entries
    ensures Coherent(tlb, mem)
    ensures tlb.history ==
            LookedUp(LookedUp(old(tlb.history), mem.pageSize, pid, src, n), mem.pageSize, pid, dst, n)
    ensures request.dst == Segments(mem.procs[pid].pages, mem.pageSize, dst, n)
    ensures request.src == Segments(mem.procs[pid].pages, mem.pageSize, src, n)
    ensures request.size == n && request.pid == pid
    ensures forall q | q in mem.procs :: FlatOf(mem, q) == old(FlatOf(mem, q))
    ensures mem.bytes[..] == old(mem.bytes[..])
  {
    var from := Translate(tlb, mem, pid, src, n);
    var to := Translate(tlb, mem, pid, dst, n);
    SegmentCount(mem.procs[pid].pages, mem.pageSize, src, n);
    SegmentCount(mem.procs[pid].pages, mem.pageSize, dst, n);
    CopyRoundTrip(CopyRequest(to, from, n, pid));
    request := DecodeCopy(EncodeCopy(CopyRequest(to, from, n, pid))).value;
  }

  /**
   COPY_STRING is memmove on the flat array: the destination range ends up with what the source
   range held before, however the two overlap or split over pages, and nothing else changes.
   */
  method CopyString(tlb: Mmu.Tlb, mem: UserMemory.UserMemory, pid: nat, dst: nat, src: nat, n: nat)
    requires Coherent(tlb, mem) && pid in mem.procs && pid < WORD && n < WORD
    requires InRange(mem.procs[pid].pages, mem.pageSize, dst, n)
    requires InRange(mem.procs[pid].pages, mem.pageSize, src, n)
    modifies tlb`ticks, tlb`used, tlb`history, tlb.entries, mem.bytes
    ensures Coherent(tlb, mem)
    ensures tlb.history ==
            LookedUp(LookedUp(old(tlb.history), mem.pageSize, pid, src, n), mem.pageSize, pid, dst, n)
    ensures dst + n <= |old(FlatOf(mem, pid))| && src + n <= |old(FlatOf(mem, pid))|
    ensures var data := old(FlatOf(mem, pid))[src..src + n];
            mem.bytes[..] == old(Written(mem.View(), mem.bytes[..], mem.pageSize, pid, dst, data))
    ensures forall q | q in mem.procs ::
              FlatOf(mem, q) ==
              if q == pid then Splice(old(FlatOf(mem, pid)), dst, old(FlatOf(mem, pid))[src..src + n])
              else old(FlatOf(mem, q))
  {
    var request := RequestCopy(tlb, mem, pid, dst, src, n);
    ServeCopy(mem, request, pid, dst, src);
  }

  /** IO_STDIN_READ: the input goes to the front of the range, and what the range does not hold is cut off. */
  method StoreInput(tlb: Mmu.Tlb, mem: UserMemory.UserMemory, pid: nat, la: nat, n: nat, input: seq<Byte>)
    requires Coherent(tlb, mem) && pid in mem.procs
    requires InRange(mem.procs[pid].pages, mem.pageSize, la, n)
    modifies tlb`ticks, tlb`used, tlb`history, tlb.entries, mem.bytes
    ensures Coherent(tlb, mem)
    ensures la + Min(n, |input|) <= |old(FlatOf(mem, pid))|
    ensures forall q | q in mem.procs ::
              FlatOf(mem, q) == if q == pid then Splice(old(FlatOf(mem, pid)), la, input[..Min(n, |input|)])
                                else old(FlatOf(mem, q))
  {
    var segs := Translate(tlb, mem, pid, la, n);
    Store(mem, segs, input, pid, la, n);
    assert Fitting(input, n) == input[..Min(n, |input|)];
  }

  /** Growth only adds to page tables, so the TLB needs no flush. */
  method Extend(tlb: Mmu.Tlb, mem: UserMemory.UserMemory, pid: nat, size: nat) returns (r: Outcome)
    requires Coherent(tlb, mem) && pid in mem.procs && mem.procs[pid].size < size
    modifies mem`procs, mem.owner
    ensures Coherent(tlb, mem)
    ensures (mem.View(), r) == old(Grown(mem.View(), pid, size, mem.pageSize))
  {
    ghost var m, m' := mem.View(), Grown(mem.View(), pid, size, mem.pageSize).0;
    GrownTables(m, pid, size, mem.pageSize);
    GrownAgrees(tlb.Live(), m.procs, m'.procs);
    r := mem.ResizeProcess(pid, size);
  }

  /** It keeps every process's bytes. */
  method GrowProcess(tlb: Mmu.Tlb, mem: UserMemory.UserMemory, pid: nat, size: nat) returns (r: Outcome)
    requires Coherent(tlb, mem) && pid in mem.procs && mem.procs[pid].size < size
    modifies mem`procs, mem.owner
    ensures Coherent(tlb, mem)
    ensures mem.procs.Keys == old(mem.procs.Keys)
    ensures forall q | q in mem.procs && q != pid :: FlatOf(mem, q) == old(FlatOf(mem, q))
    ensures old(FlatOf(mem, pid)) <= FlatOf(mem, pid)
    ensures r == OutOfMemory ==> FlatOf(mem, pid) == old(FlatOf(mem, pid))
  {
    ghost var m := mem.View();
    GrownTables(m, pid, size, mem.pageSize);
    r := Extend(tlb, mem, pid, size);
    TablesFit(mem.View(), pid, mem.pageSize, mem.bytes.Length);
    FlatGrows(mem.bytes[..], m.procs[pid].pages, mem.procs[pid].pages, mem.pageSize);
  }

  /** A new process: no entry of the TLB is about a pid that has never been started. */
  method StartProcess(tlb: Mmu.Tlb, mem: UserMemory.UserMemory, pid: nat)
    requires Coherent(tlb, mem) && pid !in mem.started && pid != FREE
    modifies mem`procs, mem`started
    ensures Coherent(tlb, mem) && mem.started == old(mem.started) + {pid}
    ensures mem.View() == old(Step(mem.View(), Start(pid), mem.pageSize))
  {
    forall e | e in tlb.Live()
      ensures e.pid != pid
    {
      var i :| 0 <= i < |tlb.Live()| && tlb.Live()[i] == e;
      assert Mmu.KeysOf(tlb.Live())[i] in tlb.history;
    }
    mem.StartProcess(pid);
  }

  /** The end of one: its entries stay in the TLB, and those of all others stay right. */
  method FinishProcess(tlb: Mmu.Tlb, mem: UserMemory.UserMemory, pid: nat)
    requires Coherent(tlb, mem)
    modifies mem`procs, mem.owner
    ensures Coherent(tlb, mem)
    ensures mem.View() == old(Step(mem.View(), Finish(pid), mem.pageSize))
    ensures forall q | q in mem.procs :: q in old(mem.procs) && FlatOf(mem, q) == old(FlatOf(mem, q))
  {
    if pid in mem.procs {
      DropAllEffect(mem.View(), pid);
    }
    mem.FinishProcess(pid);
  }
}
