/**
 The state of memoria and the loops that change it: the frame list and page tables
 (memoria/src/manejo_memoria.c) and the bytes (memoria/src/utils_memoria.c).
 */
module UserMemory {
  import opened Arith
  import opened Paging
  import opened Frames
  import opened FrameSizes
  import opened FlatMemory

  /** The addresses of a segment list lie in a memory of `n` bytes. */
  predicate SegmentsIn(segs: seq<Segment>, n: nat) {
    forall i | 0 <= i < |segs| :: segs[i].addr + segs[i].size <= n
  }

  lemma {:induction false} ExpandIn(segs: seq<Segment>, n: nat)
    requires SegmentsIn(segs, n)
    ensures Below(Expand(segs), n)
  {
    if segs != [] {
      ExpandIn(segs[1..], n);
    }
  }

  /** Scattering over a run of addresses is one copy, then the rest. */
  lemma {:induction false} ScatterRun(bytes: seq<Byte>, at: nat, run: seq<nat>, rest: seq<nat>, data: seq<Byte>)
    requires forall k | 0 <= k < |run| :: run[k] == at + k
    requires at + |run| <= |bytes| && |data| <= |run| + |rest|
    requires Below(rest, |bytes|)
    ensures var c := Min(|run|, |data|);
            Scatter(bytes, run + rest, data) == Scatter(Splice(bytes, at, data[..c]), rest, data[c..])
    decreases |run|
  {
    var c := Min(|run|, |data|);
    if c == 0 {
      assert run + rest == rest || data == [];
      assert Splice(bytes, at, data[..c]) == bytes;
    } else {
      var b := bytes[at := data[0]];
      assert (run + rest)[1..] == run[1..] + rest;
      ScatterRun(b, at + 1, run[1..], rest, data[1..]);
      assert Splice(b, at + 1, data[1..][..c - 1]) == Splice(bytes, at, data[..c]);
      assert data[1..][c - 1..] == data[c..];
    }
  }

  /** One turn of escribir_memoria: the head segment takes what fits, the tail the rest. */
  lemma WriteStep(bytes: seq<Byte>, segs: seq<Segment>, data: seq<Byte>)
    requires segs != [] && SegmentsIn(segs, |bytes|) && |data| <= |Expand(segs)|
    requires Below(Expand(segs), |bytes|)
    ensures var c := Min(segs[0].size, |data|);
            && segs[0].addr + c <= |bytes|
            && |data[c..]| <= |Expand(segs[1..])|
            && SegmentsIn(segs[1..], |bytes|)
            && Below(Expand(segs[1..]), |bytes|)
            && Scatter(bytes, Expand(segs), data) ==
               Scatter(Splice(bytes, segs[0].addr, data[..c]), Expand(segs[1..]), data[c..])
  {
    var seg := segs[0];
    var run := AddrRun(seg.addr, seg.size);
    ExpandIn(segs[1..], |bytes|);
    ScatterRun(bytes, seg.addr, run, Expand(segs[1..]), data);
  }

  /** What the segments still take of the value from `aux` on. */
  ghost function Due(copy: seq<Byte>, aux: nat, segs: seq<Segment>): seq<Byte>
    requires aux <= |copy|
  {
    copy[aux..aux + Min(|copy| - aux, |Expand(segs)|)]
  }

  /** With the rest written, memory is `target`. */
  ghost predicate StillToWrite(mem: seq<Byte>, todo: seq<Segment>, copy: seq<Byte>, aux: nat, target: seq<Byte>) {
    && aux <= |copy| && SegmentsIn(todo, |mem|) && Below(Expand(todo), |mem|)
    && Scatter(mem, Expand(todo), Due(copy, aux, todo)) == target
  }

  /** One turn of escribir_memoria. */
  lemma WriteTurn(mem: seq<Byte>, todo: seq<Segment>, copy: seq<Byte>, aux: nat, target: seq<Byte>)
    requires StillToWrite(mem, todo, copy, aux, target) && todo != []
    ensures var c := Min(todo[0].size, |copy| - aux);
            && todo[0].addr + c <= |mem|
            && StillToWrite(Splice(mem, todo[0].addr, copy[aux..aux + c]), todo[1..], copy, aux + c, target)
  {
    WriteStep(mem, todo, Due(copy, aux, todo));
    DueSplit(copy, aux, todo);
  }

  lemma DueSplit(copy: seq<Byte>, aux: nat, segs: seq<Segment>)
    requires aux <= |copy| && segs != []
    ensures var data, c := Due(copy, aux, segs), Min(segs[0].size, |copy| - aux);
            && c == Min(segs[0].size, |data|)
            && data[..c] == copy[aux..aux + c] && data[c..] == Due(copy, aux + c, segs[1..])
  {
    assert |Expand(segs)| == segs[0].size + |Expand(segs[1..])|;
  }

  lemma GatherConcat(bytes: seq<Byte>, a: seq<nat>, b: seq<nat>)
    requires Below(a, |bytes|)
    requires Below(b, |bytes|)
    ensures Gather(bytes, a + b) == Gather(bytes, a) + Gather(bytes, b)
  {
  }

  lemma GatherRun(bytes: seq<Byte>, at: nat, run: seq<nat>)
    requires at + |run| <= |bytes| && forall k | 0 <= k < |run| :: run[k] == at + k
    ensures Gather(bytes, run) == bytes[at..at + |run|]
  {
  }

  lemma SpliceZeros(read: seq<Byte>, m: nat, piece: seq<Byte>)
    requires |piece| <= m
    ensures Splice(read + Zeros(m), |read|, piece) == read + piece + Zeros(m - |piece|)
  {
  }

  /** A segment's bytes, in a zeroed buffer of `n` bytes. */
  function Part(bytes: seq<Byte>, seg: Segment, n: nat): seq<Byte>
    requires seg.addr + seg.size <= |bytes| && seg.size <= n
  {
    bytes[seg.addr..seg.addr + seg.size] + Zeros(n - seg.size)
  }

  /** leer_memoria's list of partial results. */
  function Parts(bytes: seq<Byte>, segs: seq<Segment>, n: nat): (r: seq<seq<Byte>>)
    requires SegmentsIn(segs, |bytes|) && forall i | 0 <= i < |segs| :: segs[i].size <= n
    ensures |r| == |segs|
  {
    if segs == [] then [] else Parts(bytes, segs[..|segs| - 1], n) + [Part(bytes, segs[|segs| - 1], n)]
  }

  lemma {:induction false} PartsLengths(bytes: seq<Byte>, segs: seq<Segment>, n: nat)
    requires SegmentsIn(segs, |bytes|) && forall i | 0 <= i < |segs| :: segs[i].size <= n
    ensures forall i | 0 <= i < |segs| :: |Parts(bytes, segs, n)[i]| == n
  {
    if segs != [] {
      PartsLengths(bytes, segs[..|segs| - 1], n);
    }
  }

  lemma {:induction false} SizesFit(segs: seq<Segment>)
    ensures forall i | 0 <= i < |segs| :: segs[i].size <= |Expand(segs)|
  {
    if segs != [] {
      SizesFit(segs[1..]);
    }
  }

  lemma PrefixSize(segs: seq<Segment>, i: nat)
    requires i < |segs|
    ensures |Expand(segs[..i])| + segs[i].size <= |Expand(segs)|
  {
    assert segs == segs[..i] + segs[i..];
    ExpandConcat(segs[..i], segs[i..]);
  }

  /** Reading one more segment reads its bytes after the others. */
  lemma GatherSnoc(mem: seq<Byte>, segs: seq<Segment>, seg: Segment)
    requires SegmentsIn(segs + [seg], |mem|)
    ensures Below(Expand(segs), |mem|) && Below(Expand(segs + [seg]), |mem|)
    ensures |Expand(segs + [seg])| == |Expand(segs)| + seg.size && seg.addr + seg.size <= |mem|
    ensures Gather(mem, Expand(segs + [seg])) ==
            Gather(mem, Expand(segs)) + mem[seg.addr..seg.addr + seg.size]
  {
    assert (segs + [seg])[|segs|] == seg;
    assert forall i | 0 <= i < |segs| :: (segs + [seg])[i] == segs[i];
    ExpandConcat(segs, [seg]);
    assert Expand([seg]) == AddrRun(seg.addr, seg.size);
    ExpandIn(segs, |mem|);
    GatherConcat(mem, Expand(segs), AddrRun(seg.addr, seg.size));
    GatherRun(mem, seg.addr, AddrRun(seg.addr, seg.size));
  }

  /** leer_memoria's buffer after the segments `done`. */
  ghost predicate ReadSoFar(mem: seq<Byte>, done: seq<Segment>, n: nat, aux: nat, result: seq<Byte>) {
    && SegmentsIn(done, |mem|) && Below(Expand(done), |mem|)
    && aux == |Expand(done)| <= n
    && result == Gather(mem, Expand(done)) + Zeros(n - aux)
  }

  lemma ReadTurn(mem: seq<Byte>, done: seq<Segment>, seg: Segment, n: nat, aux: nat, result: seq<Byte>)
    requires ReadSoFar(mem, done, n, aux, result)
    requires SegmentsIn(done + [seg], |mem|) && aux + seg.size <= n
    ensures seg.addr + seg.size <= |mem|
    ensures ReadSoFar(mem, done + [seg], n, aux + seg.size,
                      Splice(result, aux, mem[seg.addr..seg.addr + seg.size]))
  {
    GatherSnoc(mem, done, seg);
    SpliceZeros(Gather(mem, Expand(done)), n - aux, mem[seg.addr..seg.addr + seg.size]);
  }

  class UserMemory {
    const pageSize: nat
    var owner: array<nat>
    var procs: map<nat, Process>
    var bytes: array<Byte>
    ghost var started: set<nat>

    ghost function View(): Memory
      reads this, owner
    {
      Memory(owner[..], procs)
    }

    /** `started` are the pids that there are or have been. */
    ghost predicate Valid()
      reads this, owner
    {
      0 < pageSize && Owned(View()) && owner.Length * pageSize <= bytes.Length && procs.Keys <= started
    }

    /** iniciar_memoria_usuario and iniciar_marcos */
    constructor (size: nat, pageSize: nat)
      requires 0 < pageSize
      ensures Valid() && fresh(owner) && fresh(bytes)
      ensures this.pageSize == pageSize && bytes.Length == size && owner.Length == size / pageSize
      ensures procs == map[] && started == {} && (forall f | 0 <= f < owner.Length :: owner[f] == FREE)
      ensures forall i | 0 <= i < size :: bytes[i] == 0
    {
      this.pageSize := pageSize;
      owner := new nat[size / pageSize](_ => FREE);
      bytes := new Byte[size](_ => 0);
      procs, started := map[], {};
    }

    /** cantidad_paginas_disponibles_memoria */
    method CountFree() returns (count: nat)
      ensures count == CountTag(owner[..], FREE)
    {
      count := 0;
      for i := 0 to owner.Length
        invariant count == CountTag(owner[..i], FREE)
      {
        assert owner[..i + 1][..|owner[..i + 1]| - 1] == owner[..i];
        if owner[i] == FREE {
          count := count + 1;
        }
      }
      assert owner[..owner.Length] == owner[..];
    }

    /** obtener_nro_marco_disponible */
    method FindFree() returns (f: nat)
      requires 0 < CountTag(owner[..], FREE)
      ensures f == Frames.FirstFree(owner[..]) < owner.Length
    {
      SomeFree(owner[..]);
      f := 0;
      while f < owner.Length
        invariant f <= Frames.FirstFree(owner[..])
      {
        if owner[f] == FREE {
          return;
        }
        f := f + 1;
      }
    }

    /** liberar_marco */
    method Release(f: nat)
      requires f < owner.Length
      modifies owner
      ensures owner[..] == old(owner[..])[f := FREE]
    {
      owner[f] := FREE;
    }

    /** The page count both resize functions compute for a change of size. */
    method PagesFor(change: nat) returns (pages: nat)
      requires 0 < pageSize
      ensures pages == CeilDiv(change, pageSize)
    {
      RoundUp(change, pageSize);
      pages := change / pageSize;
      if change % pageSize != 0 {
        pages := pages + 1;
      }
    }

    method AppendPage(pid: nat)
      requires pid in procs && 0 < CountTag(View().owner, FREE)
      modifies this`procs, owner
      ensures Frames.FirstFree(old(View()).owner) < owner.Length && View() == AddPage(old(View()), pid)
    {
      var f := FindFree();
      owner[f] := pid;
      procs := procs[pid := procs[pid].(pages := procs[pid].pages + [f])];
    }

    /** The loop of aumentar_tamanio_proceso_memoria. */
    method AppendPages(pid: nat, pages: nat)
      requires pid in procs && pid != FREE && pages <= CountTag(View().owner, FREE)
      modifies this`procs, owner
      ensures View() == AddPages(old(View()), pid, pages)
    {
      var i := 0;
      while i < pages
        invariant 0 <= i <= pages && pid in procs
        invariant pages - i <= CountTag(View().owner, FREE)
        invariant AddPages(View(), pid, pages - i) == AddPages(old(View()), pid, pages)
      {
        AddPageCount(View(), pid);
        AppendPage(pid);
        i := i + 1;
      }
    }

    /** aumentar_tamanio_proceso_memoria */
    method Grow(pid: nat, size: nat) returns (r: Outcome)
      requires Valid() && pid in procs && procs[pid].size < size
      modifies this`procs, owner
      ensures Valid()
      ensures (View(), r) == old(Grown(View(), pid, size, pageSize))
    {
      ghost var m := View();
      GrownKeeps(m, pid, size, pageSize);
      var pages := PagesFor(size - procs[pid].size);
      var free := CountFree();
      if free < pages {
        return OutOfMemory;
      }
      AddPagesAppends(m, pid, pages);
      AppendPages(pid, pages);
      procs := procs[pid := procs[pid].(size := size)];
      assert View() == Grown(m, pid, size, pageSize).0;
      return ResizeOk;
    }

    method RemoveLastPage(pid: nat)
      requires TableIn(View(), pid) && procs[pid].pages != []
      modifies this`procs, owner
      ensures View() == DropPage(old(View()), pid)
    {
      var table := procs[pid].pages;
      procs := procs[pid := procs[pid].(pages := table[..|table| - 1])];
      Release(table[|table| - 1]);
    }

    /** The loop of disminuir_tamanio_proceso_memoria; it does not look whether there is a page left. */
    method RemovePages(pid: nat, pages: nat) returns (alive: bool)
      requires TableIn(View(), pid)
      modifies this`procs, owner
      ensures alive <==> pages <= |old(procs)[pid].pages|
      ensures alive ==> View() == DropPages(old(View()), pid, pages)
    {
      var i := 0;
      while i < pages
        invariant 0 <= i <= pages && TableIn(View(), pid)
        invariant pages - i <= |procs[pid].pages| <==> pages <= |old(procs)[pid].pages|
        invariant pages - i <= |procs[pid].pages| ==>
                    DropPages(View(), pid, pages - i) == DropPages(old(View()), pid, pages)
      {
        if procs[pid].pages == [] {
          return false;
        }
        RemoveLastPage(pid);
        i := i + 1;
      }
      return true;
    }

    /** disminuir_tamanio_proceso_memoria: it survives exactly if the table has the pages to release. */
    method Shrink(pid: nat, size: nat) returns (r: Outcome)
      requires Valid() && pid in procs && size < procs[pid].size
      modifies this`procs, owner
      ensures r == if old(Enabled(View(), Resize(pid, size), pageSize)) then ResizeOk else Crashed
      ensures r == ResizeOk ==> Valid() && View() == old(Shrunk(View(), pid, size, pageSize))
    {
      ghost var m := View();
      var pages := PagesFor(procs[pid].size - size);
      var alive := RemovePages(pid, pages);
      if !alive {
        return Crashed;
      }
      ShrunkKeeps(m, pid, size, pageSize);
      DropPagesTail(m, pid, pages);
      procs := procs[pid := procs[pid].(size := size)];
      assert View() == Shrunk(m, pid, size, pageSize);
      return ResizeOk;
    }

    /** resize_proceso_memoria */
    method ResizeProcess(pid: nat, size: nat) returns (r: Outcome)
      requires Valid() && pid in procs
      modifies this`procs, owner
      ensures r == Crashed <==> !old(Enabled(View(), Resize(pid, size), pageSize))
      ensures r != Crashed ==> Valid() && (View(), r) == old(Resized(View(), pid, size, pageSize))
      ensures Answers(old(procs)[pid], size, old(CountTag(owner[..], FREE)), pageSize, r)
      ensures r == ResizeOk ==> pid in procs && Resizes(old(procs)[pid], procs[pid], size, pageSize)
      ensures r == SameSize || r == OutOfMemory ==> View() == old(View())
    {
      if Enabled(View(), Resize(pid, size), pageSize) {
        ResizedAnswers(View(), pid, size, pageSize);
      }
      r := SameSize;
      if size > procs[pid].size {
        r := Grow(pid, size);
      } else if size < procs[pid].size {
        r := Shrink(pid, size);
      }
    }

    /** INICIALIZAR_PROCESO */
    method StartProcess(pid: nat)
      requires Valid() && Enabled(View(), Start(pid), pageSize)
      modifies this`procs, this`started
      ensures Valid() && started == old(started) + {pid}
      ensures View() == old(Step(View(), Start(pid), pageSize))
    {
      procs, started := procs[pid := Process([], 0)], started + {pid};
    }

    method RemoveFirstPage(pid: nat)
      requires TableIn(View(), pid) && procs[pid].pages != []
      modifies this`procs, owner
      ensures View() == DropFirst(old(View()), pid)
    {
      var table := procs[pid].pages;
      procs := procs[pid := procs[pid].(pages := table[1..])];
      Release(table[0]);
    }

    /** FINALIZAR_PROCESO; an unknown pid is only logged. */
    method FinishProcess(pid: nat)
      requires Valid()
      modifies this`procs, owner
      ensures Valid()
      ensures View() == old(Step(View(), Finish(pid), pageSize))
    {
      if pid !in procs {
        return;
      }
      FinishedKeeps(View(), pid);
      while procs[pid].pages != []
        invariant TableIn(View(), pid)
        invariant DropAll(View(), pid) == DropAll(old(View()), pid)
        decreases |procs[pid].pages|
      {
        RemoveFirstPage(pid);
      }
      procs := procs - {pid};
    }

    /** memcpy into memoriaUsuario. */
    method CopyIn(at: nat, data: seq<Byte>)
      requires at + |data| <= bytes.Length
      modifies bytes
      ensures bytes[..] == Splice(old(bytes[..]), at, data)
    {
      for k := 0 to |data|
        invariant bytes[..] == Splice(old(bytes[..]), at, data[..k])
      {
        bytes[at + k] := data[k];
      }
      assert data[..|data|] == data;
    }

    /** escribir_memoria: `n` bytes of the value, segment by segment; what the segments do not hold is cut off. */
    method Write(segs: seq<Segment>, value: seq<Byte>, n: nat)
      requires n <= |value| && SegmentsIn(segs, bytes.Length)
      modifies bytes
      ensures Below(Expand(segs), bytes.Length)
      ensures bytes[..] == Scatter(old(bytes[..]), Expand(segs), value[..Min(n, |Expand(segs)|)])
    {
      ExpandIn(segs, bytes.Length);
      var copy := value[..n];
      var aux, i := 0, 0;
      ghost var target := Scatter(bytes[..], Expand(segs), value[..Min(n, |Expand(segs)|)]);
      assert Due(copy, 0, segs) == value[..Min(n, |Expand(segs)|)];
      while i < |segs|
        invariant 0 <= i <= |segs| && 0 <= aux <= n && StillToWrite(bytes[..], segs[i..], copy, aux, target)
      {
        var c := if segs[i].size < n - aux then segs[i].size else n - aux;
        WriteTurn(bytes[..], segs[i..], copy, aux, target);
        CopyIn(segs[i].addr, copy[aux..aux + c]);
        assert segs[i..][1..] == segs[i + 1..];
        aux := aux + c;
        i := i + 1;
        if aux >= n {
          break;
        }
      }
    }

    /** leer_memoria, into a zeroed buffer of `n` bytes. */
    method Read(segs: seq<Segment>, n: nat) returns (result: seq<Byte>)
      requires |Expand(segs)| <= n && SegmentsIn(segs, bytes.Length)
      ensures Below(Expand(segs), bytes.Length)
      ensures result == Gather(bytes[..], Expand(segs)) + Zeros(n - |Expand(segs)|)
    {
      result := Zeros(n);
      var aux := 0;
      for i := 0 to |segs|
        invariant 0 <= aux && ReadSoFar(bytes[..], segs[..i], n, aux, result)
      {
        var seg := segs[i];
        assert segs[..i + 1] == segs[..i] + [seg];
        PrefixSize(segs, i);
        ReadTurn(bytes[..], segs[..i], seg, n, aux, result);
        result := Splice(result, aux, bytes[..][seg.addr..seg.addr + seg.size]);
        aux := aux + seg.size;
      }
      assert segs[..|segs|] == segs;
    }

    /** The list that the same loop of leer_memoria fills, one zero-padded buffer per segment. */
    method ReadParts(segs: seq<Segment>, n: nat) returns (parts: seq<seq<Byte>>)
      requires SegmentsIn(segs, bytes.Length) && forall i | 0 <= i < |segs| :: segs[i].size <= n
      ensures parts == Parts(bytes[..], segs, n)
    {
      parts := [];
      for i := 0 to |segs|
        invariant parts == Parts(bytes[..], segs[..i], n)
      {
        assert segs[..i + 1][..i] == segs[..i];
        parts := parts + [Part(bytes[..], segs[i], n)];
      }
      assert segs[..|segs|] == segs;
    }
  }
}
