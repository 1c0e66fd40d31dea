/**
 Frame allocation of memoria (memoria/src/manejo_memoria.c): the frame list, the page table and
 size of every process, and what start, resize and finish do to them.
 */
module Frames {
  import opened Arith
  import opened TlbPolicy

  /** The pid tag of a free frame: -1 as a uint32_t. */
  const FREE: nat := 0xFFFF_FFFF

  /** t_proceso_memoria */
  datatype Process = Process(pages: seq<nat>, size: nat)

  /** What memoria answers; `Crashed`: it takes a page from an empty table and does not answer at all. */
  datatype Outcome = ResizeOk | SameSize | OutOfMemory | Crashed

  /** The frame list, by frame number, and the processes, by pid. */
  datatype Memory = Memory(owner: seq<nat>, procs: map<nat, Process>)

  /** Frame f is tagged with p exactly when it is in p's table, and it is there once. */
  ghost predicate Owned(m: Memory) {
    && FREE !in m.procs
    && (forall p <- m.procs :: Distinct(m.procs[p].pages))
    && (forall p, k | p in m.procs && 0 <= k < |m.procs[p].pages| ::
          m.procs[p].pages[k] < |m.owner| && m.owner[m.procs[p].pages[k]] == p)
    && (forall f | 0 <= f < |m.owner| && m.owner[f] != FREE ::
          m.owner[f] in m.procs && f in m.procs[m.owner[f]].pages)
  }

  /** The number of frames tagged `p`. */
  function CountTag(owner: seq<nat>, p: nat): nat {
    if owner == [] then 0 else CountTag(owner[..|owner| - 1], p) + (if owner[|owner| - 1] == p then 1 else 0)
  }

  function FirstFree(owner: seq<nat>): (f: nat)
    ensures f <= |owner|
    ensures f < |owner| ==> owner[f] == FREE
    ensures forall g | 0 <= g < f :: owner[g] != FREE
  {
    if owner == [] || owner[0] == FREE then 0 else 1 + FirstFree(owner[1..])
  }

  /** The table of `pid` names existing frames. */
  ghost predicate TableIn(m: Memory, pid: nat) {
    pid in m.procs && forall i | 0 <= i < |m.procs[pid].pages| :: m.procs[pid].pages[i] < |m.owner|
  }

  /** One turn of the growth loop. */
  ghost function AddPage(m: Memory, pid: nat): Memory
    requires pid in m.procs && FirstFree(m.owner) < |m.owner|
  {
    var f := FirstFree(m.owner);
    Memory(m.owner[f := pid], m.procs[pid := m.procs[pid].(pages := m.procs[pid].pages + [f])])
  }

  /** One turn of the shrink loop. */
  ghost function DropPage(m: Memory, pid: nat): Memory
    requires TableIn(m, pid) && m.procs[pid].pages != []
  {
    var ps := m.procs[pid].pages;
    Memory(m.owner[ps[|ps| - 1] := FREE], m.procs[pid := m.procs[pid].(pages := ps[..|ps| - 1])])
  }

  /** One turn of the loop that empties the table of a finished process. */
  ghost function DropFirst(m: Memory, pid: nat): Memory
    requires TableIn(m, pid) && m.procs[pid].pages != []
  {
    var ps := m.procs[pid].pages;
    Memory(m.owner[ps[0] := FREE], m.procs[pid := m.procs[pid].(pages := ps[1..])])
  }

  lemma {:induction false} CountTagUpdate(owner: seq<nat>, f: nat, t: nat, p: nat)
    requires f < |owner|
    ensures CountTag(owner[f := t], p) ==
            CountTag(owner, p) - (if owner[f] == p then 1 else 0) + (if t == p then 1 else 0)
  {
    var u := owner[f := t];
    if f < |owner| - 1 {
      CountTagUpdate(owner[..|owner| - 1], f, t, p);
      assert u[..|u| - 1] == owner[..|owner| - 1][f := t];
    } else {
      assert u[..|u| - 1] == owner[..|owner| - 1];
    }
  }

  lemma {:induction false} CountTagZero(owner: seq<nat>, p: nat)
    ensures CountTag(owner, p) == 0 <==> p !in owner
  {
    if owner != [] {
      CountTagZero(owner[..|owner| - 1], p);
      assert owner == owner[..|owner| - 1] + [owner[|owner| - 1]];
    }
  }

  /** Free frames are counted exactly when one is found. */
  lemma SomeFree(owner: seq<nat>)
    ensures 0 < CountTag(owner, FREE) <==> FirstFree(owner) < |owner|
  {
    CountTagZero(owner, FREE);
  }

  /** `m'` differs from `m` in the table of `pid` only. */
  ghost predicate OnlyTable(m: Memory, m': Memory, pid: nat) {
    && |m'.owner| == |m.owner|
    && pid in m.procs && m'.procs.Keys == m.procs.Keys
    && m'.procs == m.procs[pid := m'.procs[pid]]
    && m'.procs[pid].size == m.procs[pid].size
  }

  lemma OnlyTableChain(m: Memory, n: Memory, r: Memory, pid: nat)
    requires OnlyTable(m, n, pid) && OnlyTable(n, r, pid)
    ensures OnlyTable(m, r, pid)
  {
  }

  lemma AddPageKeeps(m: Memory, pid: nat)
    requires Owned(m) && pid in m.procs && FirstFree(m.owner) < |m.owner|
    ensures Owned(AddPage(m, pid)) && OnlyTable(m, AddPage(m, pid), pid)
  {
  }

  lemma DropPageKeeps(m: Memory, pid: nat)
    requires Owned(m) && pid in m.procs && m.procs[pid].pages != []
    ensures Owned(DropPage(m, pid)) && OnlyTable(m, DropPage(m, pid), pid)
    ensures CountTag(DropPage(m, pid).owner, FREE) == CountTag(m.owner, FREE) + 1
  {
    var ps := m.procs[pid].pages;
    CountTagUpdate(m.owner, ps[|ps| - 1], FREE, FREE);
    assert ps == ps[..|ps| - 1] + [ps[|ps| - 1]];
  }

  lemma DropFirstKeeps(m: Memory, pid: nat)
    requires Owned(m) && pid in m.procs && m.procs[pid].pages != []
    ensures Owned(DropFirst(m, pid)) && OnlyTable(m, DropFirst(m, pid), pid)
    ensures CountTag(DropFirst(m, pid).owner, FREE) == CountTag(m.owner, FREE) + 1
  {
    var ps := m.procs[pid].pages;
    CountTagUpdate(m.owner, ps[0], FREE, FREE);
    assert ps == [ps[0]] + ps[1..];
  }

  lemma AddPageCount(m: Memory, pid: nat)
    requires pid in m.procs && pid != FREE && 0 < CountTag(m.owner, FREE)
    ensures FirstFree(m.owner) < |m.owner|
    ensures CountTag(AddPage(m, pid).owner, FREE) == CountTag(m.owner, FREE) - 1
  {
    SomeFree(m.owner);
    CountTagUpdate(m.owner, FirstFree(m.owner), pid, FREE);
  }

  /** The growth loop, `k` turns. */
  ghost function AddPages(m: Memory, pid: nat, k: nat): Memory
    requires pid in m.procs && pid != FREE && k <= CountTag(m.owner, FREE)
    decreases k
  {
    if k == 0 then m else AddPageCount(m, pid); AddPages(AddPage(m, pid), pid, k - 1)
  }

  /** The shrink loop, `k` turns. */
  ghost function DropPages(m: Memory, pid: nat, k: nat): Memory
    requires TableIn(m, pid) && k <= |m.procs[pid].pages|
    decreases k
  {
    if k == 0 then m else DropPages(DropPage(m, pid), pid, k - 1)
  }

  /** The loop of liberar_estructura_proceso_memoria. */
  ghost function DropAll(m: Memory, pid: nat): Memory
    requires TableIn(m, pid)
    decreases |m.procs[pid].pages|
  {
    if m.procs[pid].pages == [] then m else DropAll(DropFirst(m, pid), pid)
  }

  /** Growth adds `k` frames to one table and takes `k` free ones. */
  lemma {:induction false} AddPagesEffect(m: Memory, pid: nat, k: nat)
    requires Owned(m) && pid in m.procs && k <= CountTag(m.owner, FREE)
    ensures Owned(AddPages(m, pid, k)) && OnlyTable(m, AddPages(m, pid, k), pid)
    decreases k
  {
    if k > 0 {
      AddPageCount(m, pid);
      AddPageKeeps(m, pid);
      AddPagesEffect(AddPage(m, pid), pid, k - 1);
      OnlyTableChain(m, AddPage(m, pid), AddPages(m, pid, k), pid);
    }
  }

  /** The new frames come after the old ones, `k` of them, and every one of them was free. */
  lemma {:induction false} AddPagesAppends(m: Memory, pid: nat, k: nat)
    requires pid in m.procs && pid != FREE && k <= CountTag(m.owner, FREE)
    ensures var m' := AddPages(m, pid, k);
            && pid in m'.procs && m.procs[pid].pages <= m'.procs[pid].pages
            && CountTag(m'.owner, FREE) == CountTag(m.owner, FREE) - k
            && |m'.procs[pid].pages| == |m.procs[pid].pages| + k
            && (forall i | |m.procs[pid].pages| <= i < |m'.procs[pid].pages| ::
                  m'.procs[pid].pages[i] < |m.owner| && m.owner[m'.procs[pid].pages[i]] == FREE)
    decreases k
  {
    if k > 0 {
      AddPageCount(m, pid);
      AddPagesAppends(AddPage(m, pid), pid, k - 1);
    }
  }

  lemma NextPage(m: Memory, pid: nat, k: nat)
    requires pid in m.procs && pid != FREE && 0 < k <= CountTag(m.owner, FREE)
    ensures FirstFree(m.owner) < |m.owner| && CountTag(AddPage(m, pid).owner, FREE) == CountTag(m.owner, FREE) - 1
    ensures AddPages(m, pid, k) == AddPages(AddPage(m, pid), pid, k - 1)
    ensures var m', had := AddPages(m, pid, k), |m.procs[pid].pages|;
            && pid in m'.procs && |m'.procs[pid].pages| == had + k && m'.procs[pid].pages[had] == FirstFree(m.owner)
  {
    AddPageCount(m, pid);
    AddPagesAppends(AddPage(m, pid), pid, k - 1);
  }

  /** First fit: new page `i` is the free frame that has `i` free frames before it. */
  lemma {:induction false} AddPagesLowest(m: Memory, pid: nat, k: nat, i: nat)
    requires pid in m.procs && pid != FREE && i < k <= CountTag(m.owner, FREE)
    ensures var m', had := AddPages(m, pid, k), |m.procs[pid].pages|;
            && pid in m'.procs && had + i < |m'.procs[pid].pages|
            && var f := m'.procs[pid].pages[had + i];
               f < |m.owner| && m.owner[f] == FREE && CountTag(m.owner[..f], FREE) == i
    decreases k
  {
    NextPage(m, pid, k);
    if i == 0 {
      CountTagZero(m.owner[..FirstFree(m.owner)], FREE);
    } else {
      AddPagesLowest(AddPage(m, pid), pid, k - 1, i - 1);
      LaterFree(m.owner, pid, AddPages(m, pid, k).procs[pid].pages[|m.procs[pid].pages| + i]);
    }
  }

  /** Taking the first free frame leaves one free frame fewer before any other. */
  lemma LaterFree(owner: seq<nat>, pid: nat, f: nat)
    requires pid != FREE && FirstFree(owner) < |owner| && f < |owner| && owner[FirstFree(owner) := pid][f] == FREE
    ensures owner[f] == FREE && CountTag(owner[..f], FREE) == CountTag(owner[FirstFree(owner) := pid][..f], FREE) + 1
  {
    var first := FirstFree(owner);
    CountTagUpdate(owner[..f], first, pid, FREE);
    assert owner[first := pid][..f] == owner[..f][first := pid];
  }

  /** Shrinking takes `k` frames from one table and frees them. */
  lemma {:induction false} DropPagesEffect(m: Memory, pid: nat, k: nat)
    requires Owned(m) && pid in m.procs && k <= |m.procs[pid].pages|
    ensures var m' := DropPages(m, pid, k);
            && Owned(m') && OnlyTable(m, m', pid)
            && CountTag(m'.owner, FREE) == CountTag(m.owner, FREE) + k
    decreases k
  {
    if k > 0 {
      DropPageKeeps(m, pid);
      DropPagesEffect(DropPage(m, pid), pid, k - 1);
      OnlyTableChain(m, DropPage(m, pid), DropPages(m, pid, k), pid);
    }
  }

  /** The frames that stay are the first ones. */
  lemma {:induction false} DropPagesTail(m: Memory, pid: nat, k: nat)
    requires TableIn(m, pid) && k <= |m.procs[pid].pages|
    ensures pid in DropPages(m, pid, k).procs
    ensures DropPages(m, pid, k).procs[pid].pages == m.procs[pid].pages[..|m.procs[pid].pages| - k]
    decreases k
  {
    if k > 0 {
      DropPagesTail(DropPage(m, pid), pid, k - 1);
    }
  }

  lemma {:induction false} DropAllEffect(m: Memory, pid: nat)
    requires Owned(m) && pid in m.procs
    ensures var m' := DropAll(m, pid);
            && Owned(m') && OnlyTable(m, m', pid)
            && CountTag(m'.owner, FREE) == CountTag(m.owner, FREE) + |m.procs[pid].pages|
            && m'.procs[pid].pages == []
    decreases |m.procs[pid].pages|
  {
    if m.procs[pid].pages != [] {
      DropFirstKeeps(m, pid);
      DropAllEffect(DropFirst(m, pid), pid);
      OnlyTableChain(m, DropFirst(m, pid), DropAll(m, pid), pid);
    }
  }

  /** A process's tag is on as many frames as its table has. */
  lemma {:induction false} TagsArePages(m: Memory, pid: nat)
    requires Owned(m) && pid in m.procs
    ensures CountTag(m.owner, pid) == |m.procs[pid].pages|
    decreases |m.procs[pid].pages|
  {
    var ps := m.procs[pid].pages;
    if ps == [] {
      CountTagZero(m.owner, pid);
      assert pid !in m.owner;
    } else {
      DropPageKeeps(m, pid);
      TagsArePages(DropPage(m, pid), pid);
      CountTagUpdate(m.owner, ps[|ps| - 1], FREE, pid);
    }
  }

  ghost function Pick<T>(s: set<T>): (x: T)
    requires s != {}
    ensures x in s
  {
    var x :| x in s;
    x
  }

  /** The table lengths of the processes in `s`, added up. */
  ghost function TotalPages(procs: map<nat, Process>, s: set<nat>): nat
    requires s <= procs.Keys
  {
    if s == {} then 0 else |procs[Pick(s)].pages| + TotalPages(procs, s - {Pick(s)})
  }

  /** The number of frames whose tag is in `s`. */
  function CountIn(owner: seq<nat>, s: set<nat>): nat {
    if owner == [] then 0 else CountIn(owner[..|owner| - 1], s) + (if owner[|owner| - 1] in s then 1 else 0)
  }

  lemma {:induction false} CountInSplit(owner: seq<nat>, s: set<nat>, p: nat)
    requires p in s
    ensures CountIn(owner, s) == CountIn(owner, s - {p}) + CountTag(owner, p)
  {
    if owner != [] {
      CountInSplit(owner[..|owner| - 1], s, p);
    }
  }

  lemma {:induction false} CountInNothing(owner: seq<nat>)
    ensures CountIn(owner, {}) == 0
  {
    if owner != [] {
      CountInNothing(owner[..|owner| - 1]);
    }
  }

  lemma {:induction false} CountInIsTotal(m: Memory, s: set<nat>)
    requires Owned(m) && s <= m.procs.Keys
    ensures CountIn(m.owner, s) == TotalPages(m.procs, s)
  {
    if s == {} {
      CountInNothing(m.owner);
    } else {
      CountInSplit(m.owner, s, Pick(s));
      TagsArePages(m, Pick(s));
      CountInIsTotal(m, s - {Pick(s)});
    }
  }

  lemma {:induction false} CountInAll(owner: seq<nat>, s: set<nat>)
    requires FREE !in s && forall f | 0 <= f < |owner| :: owner[f] == FREE || owner[f] in s
    ensures CountIn(owner, s) + CountTag(owner, FREE) == |owner|
  {
    if owner != [] {
      CountInAll(owner[..|owner| - 1], s);
    }
  }

  /** Conservation: free frames and all table lengths add up to the number of frames. */
  lemma FramesConserved(m: Memory)
    requires Owned(m)
    ensures CountTag(m.owner, FREE) + TotalPages(m.procs, m.procs.Keys) == |m.owner|
  {
    CountInIsTotal(m, m.procs.Keys);
    CountInAll(m.owner, m.procs.Keys);
  }

  datatype Op = Start(pid: nat) | Resize(pid: nat, size: nat) | Finish(pid: nat)

  function WithSize(m: Memory, pid: nat, size: nat): Memory
    requires pid in m.procs
  {
    m.(procs := m.procs[pid := m.procs[pid].(size := size)])
  }

  /** What the code needs of a request: fresh pids, and no more pages released than there are. */
  predicate Enabled(m: Memory, op: Op, tp: nat)
    requires 0 < tp
  {
    match op
    case Start(pid) => pid !in m.procs && pid != FREE
    case Resize(pid, size) =>
      pid in m.procs && size < m.procs[pid].size ==>
        CeilDiv(m.procs[pid].size - size, tp) <= |m.procs[pid].pages|
    case Finish(pid) => true
  }

  /** aumentar_tamanio_proceso_memoria: the difference is rounded up to pages, not the size. */
  ghost function Grown(m: Memory, pid: nat, size: nat, tp: nat): (Memory, Outcome)
    requires 0 < tp && pid in m.procs && pid != FREE && m.procs[pid].size < size
  {
    var k := CeilDiv(size - m.procs[pid].size, tp);
    if CountTag(m.owner, FREE) < k then (m, OutOfMemory) else
      AddPagesAppends(m, pid, k);
      (WithSize(AddPages(m, pid, k), pid, size), ResizeOk)
  }

  /** disminuir_tamanio_proceso_memoria */
  ghost function Shrunk(m: Memory, pid: nat, size: nat, tp: nat): Memory
    requires 0 < tp && TableIn(m, pid) && size < m.procs[pid].size
    requires Enabled(m, Resize(pid, size), tp)
  {
    var k := CeilDiv(m.procs[pid].size - size, tp);
    DropPagesTail(m, pid, k);
    WithSize(DropPages(m, pid, k), pid, size)
  }

  ghost function Resized(m: Memory, pid: nat, size: nat, tp: nat): (Memory, Outcome)
    requires 0 < tp && TableIn(m, pid) && pid != FREE && Enabled(m, Resize(pid, size), tp)
  {
    if size > m.procs[pid].size then Grown(m, pid, size, tp)
    else if size < m.procs[pid].size then (Shrunk(m, pid, size, tp), ResizeOk)
    else (m, SameSize)
  }

  /** liberar_estructura_proceso_memoria */
  ghost function Finished(m: Memory, pid: nat): Memory
    requires TableIn(m, pid)
  {
    var d := DropAll(m, pid);
    d.(procs := d.procs - {pid})
  }

  /** One request to memoria; a request about an unknown process is only logged. */
  ghost function Step(m: Memory, op: Op, tp: nat): Memory
    requires 0 < tp && Owned(m) && Enabled(m, op, tp)
  {
    match op
    case Start(pid) => m.(procs := m.procs[pid := Process([], 0)])
    case Resize(pid, size) => if pid in m.procs then Resized(m, pid, size, tp).0 else m
    case Finish(pid) => if pid in m.procs then Finished(m, pid) else m
  }

  lemma GrownKeeps(m: Memory, pid: nat, size: nat, tp: nat)
    requires 0 < tp && Owned(m) && pid in m.procs && m.procs[pid].size < size
    ensures var m' := Grown(m, pid, size, tp).0; Owned(m') && |m'.owner| == |m.owner| && m'.procs.Keys == m.procs.Keys
  {
    var k := CeilDiv(size - m.procs[pid].size, tp);
    if k <= CountTag(m.owner, FREE) {
      AddPagesEffect(m, pid, k);
      WithSizeKeeps(AddPages(m, pid, k), pid, size);
    }
  }

  lemma ShrunkKeeps(m: Memory, pid: nat, size: nat, tp: nat)
    requires 0 < tp && Owned(m) && pid in m.procs && size < m.procs[pid].size
    requires Enabled(m, Resize(pid, size), tp)
    ensures var m' := Shrunk(m, pid, size, tp); Owned(m') && |m'.owner| == |m.owner| && m'.procs.Keys == m.procs.Keys
  {
    var k := CeilDiv(m.procs[pid].size - size, tp);
    DropPagesEffect(m, pid, k);
    WithSizeKeeps(DropPages(m, pid, k), pid, size);
  }

  lemma WithSizeKeeps(m: Memory, pid: nat, size: nat)
    requires Owned(m) && pid in m.procs
    ensures Owned(WithSize(m, pid, size))
  {
  }

  lemma FinishedKeeps(m: Memory, pid: nat)
    requires Owned(m) && pid in m.procs
    ensures var m' := Finished(m, pid);
            Owned(m') && |m'.owner| == |m.owner| && m'.procs.Keys == m.procs.Keys - {pid}
  {
    DropAllEffect(m, pid);
  }

  lemma StepKeepsOwned(m: Memory, op: Op, tp: nat)
    requires 0 < tp && Owned(m) && Enabled(m, op, tp)
    ensures Owned(Step(m, op, tp)) && |Step(m, op, tp).owner| == |m.owner|
  {
    match op
    case Start(pid) =>
    case Resize(pid, size) =>
      if pid in m.procs && size < m.procs[pid].size {
        ShrunkKeeps(m, pid, size, tp);
      } else if pid in m.procs && size > m.procs[pid].size {
        GrownKeeps(m, pid, size, tp);
      }
    case Finish(pid) =>
      if pid in m.procs {
        FinishedKeeps(m, pid);
      }
  }

  /** Every request of the run is enabled when it is served. */
  ghost predicate Runs(m: Memory, ops: seq<Op>, tp: nat)
    requires 0 < tp && Owned(m)
    decreases |ops|
  {
    ops == [] ||
    (Enabled(m, ops[0], tp) && (StepKeepsOwned(m, ops[0], tp); Runs(Step(m, ops[0], tp), ops[1..], tp)))
  }

  ghost function Run(m: Memory, ops: seq<Op>, tp: nat): Memory
    requires 0 < tp && Owned(m) && Runs(m, ops, tp)
    decreases |ops|
  {
    if ops == [] then m else
      StepKeepsOwned(m, ops[0], tp);
      Run(Step(m, ops[0], tp), ops[1..], tp)
  }

  /** Frame ownership and conservation in every reachable state. */
  lemma {:induction false} RunKeepsOwned(m: Memory, ops: seq<Op>, tp: nat)
    requires 0 < tp && Owned(m) && Runs(m, ops, tp)
    ensures var m' := Run(m, ops, tp);
            Owned(m') && CountTag(m'.owner, FREE) + TotalPages(m'.procs, m'.procs.Keys) == |m.owner|
    decreases |ops|
  {
    if ops == [] {
      FramesConserved(m);
    } else {
      StepKeepsOwned(m, ops[0], tp);
      RunKeepsOwned(Step(m, ops[0], tp), ops[1..], tp);
    }
  }
}
