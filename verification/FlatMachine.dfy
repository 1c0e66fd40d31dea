/**
 The machine that a program is written for: one flat array of bytes per process, no pages and no
 frames but a number of free ones. Every program on paged memory is a run of it.
 */
module FlatMachine {
  import opened Arith
  import opened Paging
  import opened Frames
  import opened FlatMemory
  import opened Wire
  import opened Instructions
  import opened PagedMachine

  /** The arrays, what each process asked for, and the free pages. */
  datatype Flats = Flats(arrays: map<nat, seq<Byte>>, sizes: map<nat, nat>, free: nat, started: set<nat>)

  /** [la, la+n) lies in the array; an empty range still has to start in it. */
  predicate Within(f: seq<Byte>, la: nat, n: nat) {
    LastByte(la, n) < |f|
  }

  /** The instruction stays within its process. */
  predicate FlatLegal(f: Flats, tp: nat, i: Instruction)
    requires 0 < tp
  {
    match i
    case MovOut(p, la, wide, value) =>
      p in f.arrays && p < WORD && |value| == Width(wide) && Within(f.arrays[p], la, Width(wide))
    case MovIn(p, la, wide) => p in f.arrays && p < WORD && Within(f.arrays[p], la, Width(wide))
    case CopyString(p, dst, src, n) =>
      p in f.arrays && p < WORD && n < WORD && Within(f.arrays[p], dst, n) && Within(f.arrays[p], src, n)
    case Enlarge(p, _) => p in f.arrays && p in f.sizes
    case Reduce(p, less) =>
      p in f.arrays && p in f.sizes && less <= f.sizes[p] && CeilDiv(less, tp) * tp <= |f.arrays[p]|
    case Launch(p) => p !in f.started && p != FREE
    case End(_) => true
  }

  function WithArray(f: Flats, p: nat, bytes: seq<Byte>): Flats {
    f.(arrays := f.arrays[p := bytes])
  }

  /** RESIZE answers by the free pages alone, and adds the pages of the difference, whatever they hold. */
  ghost predicate Enlarges(f: Flats, tp: nat, p: nat, more: nat, f': Flats, answer: Answer)
    requires 0 < tp && p in f.arrays && p in f.sizes
  {
    var need := CeilDiv(more, tp);
    if f.free < need then f' == f && answer == Resized(OutOfMemory) else
      && answer == Resized(ResizeOk) && p in f'.arrays
      && |f'.arrays[p]| == |f.arrays[p]| + need * tp && f.arrays[p] <= f'.arrays[p]
      && f' == f.(arrays := f.arrays[p := f'.arrays[p]], sizes := f.sizes[p := f.sizes[p] + more],
                  free := f.free - need)
  }

  /** A RESIZE downwards cuts the pages of the difference off the end. */
  ghost predicate Reduces(f: Flats, tp: nat, p: nat, less: nat, f': Flats, answer: Answer)
    requires 0 < tp && FlatLegal(f, tp, Reduce(p, less))
  {
    var gone := CeilDiv(less, tp);
    && answer == Resized(ResizeOk)
    && f' == f.(arrays := f.arrays[p := f.arrays[p][..|f.arrays[p]| - gone * tp]],
                sizes := f.sizes[p := f.sizes[p] - less], free := f.free + gone)
  }

  /** The end of a process gives back all its pages, and one that is not there changes nothing. */
  ghost predicate Ends(f: Flats, tp: nat, p: nat, f': Flats) {
    if p !in f.arrays then f' == f else
      && f.free <= f'.free && (f'.free - f.free) * tp == |f.arrays[p]|
      && f' == f.(arrays := f.arrays - {p}, sizes := f.sizes - {p}, free := f'.free)
  }

  /** What an instruction does on the flat machine. */
  ghost predicate FlatTurn(f: Flats, tp: nat, i: Instruction, f': Flats, answer: Answer)
    requires 0 < tp && FlatLegal(f, tp, i)
  {
    match i
    case MovOut(p, la, _, value) => f' == WithArray(f, p, Splice(f.arrays[p], la, value)) && answer == Done
    case MovIn(p, la, wide) => f' == f && answer == Value(f.arrays[p][la..la + Width(wide)])
    case CopyString(p, dst, src, n) =>
      f' == WithArray(f, p, Splice(f.arrays[p], dst, f.arrays[p][src..src + n])) && answer == Done
    case Enlarge(p, more) =>
      if more == 0 then f' == f && answer == Resized(SameSize) else Enlarges(f, tp, p, more, f', answer)
    case Reduce(p, less) =>
      if less == 0 then f' == f && answer == Resized(SameSize) else Reduces(f, tp, p, less, f', answer)
    case Launch(p) =>
      f' == f.(arrays := f.arrays[p := []], sizes := f.sizes[p := 0], started := f.started + {p}) && answer == Done
    case End(p) => Ends(f, tp, p, f') && answer == Done
  }

  // What paged memory stands for

  ghost function ArrayOf(bytes: seq<Byte>, pages: seq<nat>, tp: nat): seq<Byte> {
    if Fits(pages, tp, |bytes|) then Flat(bytes, pages, tp) else []
  }

  ghost function Arrays(procs: map<nat, Process>, bytes: seq<Byte>, tp: nat): (a: map<nat, seq<Byte>>)
    ensures a.Keys == procs.Keys && forall q <- a :: a[q] == ArrayOf(bytes, procs[q].pages, tp)
  {
    map q | q in procs :: ArrayOf(bytes, procs[q].pages, tp)
  }

  function Sizes(procs: map<nat, Process>): (z: map<nat, nat>)
    ensures z.Keys == procs.Keys && forall q <- z :: z[q] == procs[q].size
  {
    map q | q in procs :: procs[q].size
  }

  ghost function FlatsWith(m: Memory, bytes: seq<Byte>, tp: nat, started: set<nat>): Flats {
    Flats(Arrays(m.procs, bytes, tp), Sizes(m.procs), CountTag(m.owner, FREE), started)
  }

  ghost function FlatsOf(s: Machine, tp: nat): Flats {
    FlatsWith(s.mem, s.bytes, tp, s.started)
  }

  /** A live process's array is the one of its pages. */
  lemma ArrayIn(s: Machine, tp: nat, p: nat)
    requires Sane(s, tp) && p in s.mem.procs
    ensures Fits(s.mem.procs[p].pages, tp, |s.bytes|)
    ensures ArrayOf(s.bytes, s.mem.procs[p].pages, tp) == FlatIn(s, tp, p)
  {
    TablesFit(s.mem, p, tp, |s.bytes|);
  }

  /** A shrink gives up no page that has been translated; nothing else depends on what has been. */
  ghost predicate SparesLooked(s: Machine, tp: nat, i: Instruction)
    requires 0 < tp
  {
    i.Reduce? && i.pid in s.mem.procs ==>
      forall k <- s.looked :: k.pid == i.pid ==> k.page < |s.mem.procs[i.pid].pages| - CeilDiv(i.less, tp)
  }

  lemma ReleasableIff(s: Machine, tp: nat, p: nat, less: nat)
    requires Sane(s, tp) && p in s.mem.procs
    ensures |FlatsOf(s, tp).arrays[p]| == |s.mem.procs[p].pages| * tp
    ensures CeilDiv(less, tp) <= |s.mem.procs[p].pages| <==>
            CeilDiv(less, tp) * tp <= |FlatsOf(s, tp).arrays[p]|
  {
    ArrayIn(s, tp, p);
    var need, pages := CeilDiv(less, tp), |s.mem.procs[p].pages|;
    if need <= pages {
      MulMonotone(need, pages, tp);
    } else {
      MulMonotone(pages + 1, need, tp);
      MulDistributes(pages, 1, tp);
    }
  }

  /** Within the flat array is within the page table. */
  lemma LegalIff(s: Machine, tp: nat, i: Instruction)
    requires Sane(s, tp)
    ensures Legal(s, tp, i) <==> FlatLegal(FlatsOf(s, tp), tp, i) && SparesLooked(s, tp, i)
  {
    if i.pid in s.mem.procs {
      var pages := s.mem.procs[i.pid].pages;
      ArrayIn(s, tp, i.pid);
      match i
      case MovOut(_, la, wide, _) => InRangeIsWithinSize(pages, tp, la, Width(wide));
      case MovIn(_, la, wide) => InRangeIsWithinSize(pages, tp, la, Width(wide));
      case CopyString(_, dst, src, n) =>
        InRangeIsWithinSize(pages, tp, dst, n);
        InRangeIsWithinSize(pages, tp, src, n);
      case Reduce(p, less) => ReleasableIff(s, tp, p, less);
      case _ =>
    }
  }

  /** Only the process `p` differs. */
  lemma ArraysUpdate(a: map<nat, Process>, b: map<nat, Process>, bytes: seq<Byte>, tp: nat, p: nat)
    requires p in b && b == a[p := b[p]]
    ensures Arrays(b, bytes, tp) == Arrays(a, bytes, tp)[p := ArrayOf(bytes, b[p].pages, tp)]
    ensures Sizes(b) == Sizes(a)[p := b[p].size]
  {
  }

  lemma ArraysRemove(a: map<nat, Process>, bytes: seq<Byte>, tp: nat, p: nat)
    ensures Arrays(a - {p}, bytes, tp) == Arrays(a, bytes, tp) - {p} && Sizes(a - {p}) == Sizes(a) - {p}
  {
  }

  lemma WrittenIn(s: Machine, tp: nat, p: nat, la: nat, data: seq<Byte>, q: nat)
    requires Sane(s, tp) && p in s.mem.procs && InRange(s.mem.procs[p].pages, tp, la, |data|) && q in s.mem.procs
    ensures la + |data| <= |FlatIn(s, tp, p)|
    ensures ArrayOf(Written(s.mem, s.bytes, tp, p, la, data), s.mem.procs[q].pages, tp) ==
            if q == p then Splice(FlatIn(s, tp, p), la, data) else ArrayOf(s.bytes, s.mem.procs[q].pages, tp)
  {
    WriteChangesOne(s.mem, tp, s.bytes, p, la, data, q);
  }

  /** A write, as the flat machine sees it. */
  lemma WriteIsFlat(s: Machine, tp: nat, p: nat, la: nat, data: seq<Byte>)
    requires Sane(s, tp) && p in s.mem.procs && InRange(s.mem.procs[p].pages, tp, la, |data|)
    ensures la + |data| <= |FlatIn(s, tp, p)|
    ensures Arrays(s.mem.procs, Written(s.mem, s.bytes, tp, p, la, data), tp) ==
            Arrays(s.mem.procs, s.bytes, tp)[p := Splice(FlatIn(s, tp, p), la, data)]
  {
    WrittenIn(s, tp, p, la, data, p);
    forall q | q in s.mem.procs
      ensures ArrayOf(Written(s.mem, s.bytes, tp, p, la, data), s.mem.procs[q].pages, tp) ==
              if q == p then Splice(FlatIn(s, tp, p), la, data) else ArrayOf(s.bytes, s.mem.procs[q].pages, tp)
    {
      WrittenIn(s, tp, p, la, data, q);
    }
    OneArray(s.mem.procs, s.bytes, Written(s.mem, s.bytes, tp, p, la, data), tp, p, Splice(FlatIn(s, tp, p), la, data));
  }

  lemma OneArray(procs: map<nat, Process>, bytes: seq<Byte>, bytes': seq<Byte>, tp: nat, p: nat, array': seq<Byte>)
    requires p in procs
    requires forall q <- procs :: ArrayOf(bytes', procs[q].pages, tp) ==
                                  if q == p then array' else ArrayOf(bytes, procs[q].pages, tp)
    ensures Arrays(procs, bytes', tp) == Arrays(procs, bytes, tp)[p := array']
  {
  }

  /** `p` has `need` pages more, behind its old ones, and nobody else has. */
  ghost predicate Extends(m: Memory, m': Memory, p: nat, more: nat, need: nat) {
    && p in m.procs && p in m'.procs && m'.procs == m.procs[p := m'.procs[p]]
    && m.procs[p].pages <= m'.procs[p].pages && |m'.procs[p].pages| == |m.procs[p].pages| + need
    && m'.procs[p].size == m.procs[p].size + more
    && CountTag(m'.owner, FREE) == CountTag(m.owner, FREE) - need
  }

  lemma EnlargedTables(m: Memory, p: nat, more: nat, tp: nat)
    requires 0 < tp && Owned(m) && p in m.procs && 0 < more
    ensures var (m', r) := Grown(m, p, m.procs[p].size + more, tp);
            if CountTag(m.owner, FREE) < CeilDiv(more, tp) then m' == m && r == OutOfMemory
            else r == ResizeOk && Extends(m, m', p, more, CeilDiv(more, tp))
  {
    if CeilDiv(more, tp) <= CountTag(m.owner, FREE) {
      AddedTables(m, p, CeilDiv(more, tp));
      AddPagesAppends(m, p, CeilDiv(more, tp));
    }
  }

  /** More pages behind the old ones, more bytes behind the old ones. */
  lemma MorePagesMoreBytes(bytes: seq<Byte>, pages: seq<nat>, more: seq<nat>, tp: nat, need: nat)
    requires Fits(more, tp, |bytes|) && pages <= more && |more| == |pages| + need
    ensures ArrayOf(bytes, pages, tp) <= ArrayOf(bytes, more, tp)
    ensures |ArrayOf(bytes, more, tp)| == |ArrayOf(bytes, pages, tp)| + need * tp
  {
    FlatGrows(bytes, pages, more, tp);
    FlatLength(bytes, pages, tp);
    FlatLength(bytes, more, tp);
    MulDistributes(|pages|, need, tp);
  }

  lemma ExtendsIsFlat(m: Memory, m': Memory, bytes: seq<Byte>, tp: nat, started: set<nat>, p: nat, more: nat)
    requires 0 < tp && Extends(m, m', p, more, CeilDiv(more, tp)) && CeilDiv(more, tp) <= CountTag(m.owner, FREE)
    requires Fits(m'.procs[p].pages, tp, |bytes|)
    ensures Enlarges(FlatsWith(m, bytes, tp, started), tp, p, more, FlatsWith(m', bytes, tp, started),
                     Resized(ResizeOk))
  {
    MorePagesMoreBytes(bytes, m.procs[p].pages, m'.procs[p].pages, tp, CeilDiv(more, tp));
    ArraysUpdate(m.procs, m'.procs, bytes, tp, p);
  }

  lemma EnlargeIsFlat(m: Memory, m': Memory, r: Outcome, bytes: seq<Byte>, tp: nat, started: set<nat>, p: nat,
          more: nat)
    requires 0 < tp && Owned(m) && |m.owner| * tp <= |bytes| && p in m.procs && 0 < more
    requires (m', r) == Grown(m, p, m.procs[p].size + more, tp)
    ensures Enlarges(FlatsWith(m, bytes, tp, started), tp, p, more, FlatsWith(m', bytes, tp, started), Resized(r))
  {
    EnlargedTables(m, p, more, tp);
    if CeilDiv(more, tp) <= CountTag(m.owner, FREE) {
      GrownKeeps(m, p, m.procs[p].size + more, tp);
      TablesFit(m', p, tp, |bytes|);
      ExtendsIsFlat(m, m', bytes, tp, started, p, more);
    }
  }

  /** Fewer pages, the front of the array. */
  lemma FewerPagesFewerBytes(bytes: seq<Byte>, pages: seq<nat>, stay: nat, tp: nat)
    requires Fits(pages, tp, |bytes|) && stay <= |pages|
    ensures (|pages| - stay) * tp <= |ArrayOf(bytes, pages, tp)|
    ensures ArrayOf(bytes, pages[..stay], tp) ==
            ArrayOf(bytes, pages, tp)[..|ArrayOf(bytes, pages, tp)| - (|pages| - stay) * tp]
  {
    FlatGrows(bytes, pages[..stay], pages, tp);
    FlatLength(bytes, pages[..stay], tp);
    FlatLength(bytes, pages, tp);
    MulDistributes(stay, |pages| - stay, tp);
  }

  lemma ReducedTables(m: Memory, m': Memory, p: nat, less: nat, tp: nat)
    requires 0 < tp && Owned(m) && p in m.procs && 0 < less <= m.procs[p].size
    requires CeilDiv(less, tp) <= |m.procs[p].pages| && m' == Shrunk(m, p, m.procs[p].size - less, tp)
    ensures var gone := CeilDiv(less, tp);
            && p in m'.procs && m'.procs == m.procs[p := m'.procs[p]]
            && m'.procs[p].pages == m.procs[p].pages[..|m.procs[p].pages| - gone]
            && m'.procs[p].size == m.procs[p].size - less
            && CountTag(m'.owner, FREE) == CountTag(m.owner, FREE) + gone
  {
    DropPagesEffect(m, p, CeilDiv(less, tp));
    DropPagesTail(m, p, CeilDiv(less, tp));
  }

  lemma ReducesIsFlat(m: Memory, m': Memory, bytes: seq<Byte>, tp: nat, started: set<nat>, p: nat, less: nat)
    requires 0 < tp && p in m.procs && p in m'.procs && less <= m.procs[p].size
    requires CeilDiv(less, tp) <= |m.procs[p].pages| && Fits(m.procs[p].pages, tp, |bytes|)
    requires m'.procs == m.procs[p := m'.procs[p]] && m'.procs[p].size == m.procs[p].size - less
    requires m'.procs[p].pages == m.procs[p].pages[..|m.procs[p].pages| - CeilDiv(less, tp)]
    requires CountTag(m'.owner, FREE) == CountTag(m.owner, FREE) + CeilDiv(less, tp)
    ensures var f, f' := FlatsWith(m, bytes, tp, started), FlatsWith(m', bytes, tp, started);
            FlatLegal(f, tp, Reduce(p, less)) && Reduces(f, tp, p, less, f', Resized(ResizeOk))
  {
    FewerPagesFewerBytes(bytes, m.procs[p].pages, |m.procs[p].pages| - CeilDiv(less, tp), tp);
    ArraysUpdate(m.procs, m'.procs, bytes, tp, p);
  }

  lemma ReducedFlats(m: Memory, m': Memory, bytes: seq<Byte>, tp: nat, started: set<nat>, p: nat, less: nat)
    requires 0 < tp && Owned(m) && |m.owner| * tp <= |bytes| && p in m.procs && 0 < less <= m.procs[p].size
    requires CeilDiv(less, tp) <= |m.procs[p].pages| && m' == Shrunk(m, p, m.procs[p].size - less, tp)
    ensures var f, f' := FlatsWith(m, bytes, tp, started), FlatsWith(m', bytes, tp, started);
            FlatLegal(f, tp, Reduce(p, less)) && Reduces(f, tp, p, less, f', Resized(ResizeOk))
  {
    ReducedTables(m, m', p, less, tp);
    TablesFit(m, p, tp, |bytes|);
    ReducesIsFlat(m, m', bytes, tp, started, p, less);
  }

  lemma EndedTables(m: Memory, p: nat)
    requires Owned(m) && p in m.procs
    ensures var m' := Finished(m, p);
            && m'.procs == m.procs - {p}
            && CountTag(m'.owner, FREE) == CountTag(m.owner, FREE) + |m.procs[p].pages|
  {
    DropAllEffect(m, p);
  }

  lemma EndIsFlat(s: Machine, tp: nat, p: nat)
    requires Sane(s, tp) && p in s.mem.procs
    ensures Ends(FlatsOf(s, tp), tp, p, FlatsOf(Turn(s, tp, End(p)).0, tp))
  {
    EndedTables(s.mem, p);
    ArrayIn(s, tp, p);
    ArraysRemove(s.mem.procs, s.bytes, tp, p);
  }

  /** The instruction does on the flat arrays what the flat machine does. */
  ghost predicate IsFlatTurn(s: Machine, tp: nat, i: Instruction)
    requires Sane(s, tp) && Legal(s, tp, i)
  {
    var (t, answer) := Turn(s, tp, i);
    FlatLegal(FlatsOf(s, tp), tp, i) && FlatTurn(FlatsOf(s, tp), tp, i, FlatsOf(t, tp), answer)
  }

  lemma StoredFlats(s: Machine, tp: nat, p: nat, la: nat, data: seq<Byte>)
    requires Sane(s, tp) && p in s.mem.procs && InRange(s.mem.procs[p].pages, tp, la, |data|)
    ensures var f := FlatsOf(s, tp);
            && la + |data| <= |f.arrays[p]|
            && FlatsOf(s.(bytes := Written(s.mem, s.bytes, tp, p, la, data)), tp) ==
               WithArray(f, p, Splice(f.arrays[p], la, data))
  {
    ArrayIn(s, tp, p);
    WriteIsFlat(s, tp, p, la, data);
  }

  lemma SliceIsFlat(s: Machine, tp: nat, p: nat, la: nat, n: nat)
    requires Sane(s, tp) && p in s.mem.procs && InRange(s.mem.procs[p].pages, tp, la, n)
    ensures la + n <= |FlatsOf(s, tp).arrays[p]|
    ensures Slice(s, tp, p, la, n) == FlatsOf(s, tp).arrays[p][la..la + n]
  {
    ArrayIn(s, tp, p);
    RangeWithinFlat(s.bytes, s.mem.procs[p].pages, tp, la, n);
  }

  lemma StoreIsFlat(s: Machine, tp: nat, i: Instruction)
    requires Sane(s, tp) && Legal(s, tp, i) && i.MovOut?
    ensures IsFlatTurn(s, tp, i)
  {
    LegalIff(s, tp, i);
    StoredFlats(s, tp, i.pid, i.la, i.value);
  }

  lemma FetchIsFlat(s: Machine, tp: nat, i: Instruction)
    requires Sane(s, tp) && Legal(s, tp, i) && i.MovIn?
    ensures IsFlatTurn(s, tp, i)
  {
    LegalIff(s, tp, i);
    SliceIsFlat(s, tp, i.pid, i.la, Width(i.wide));
  }

  lemma CopyIsFlat(s: Machine, tp: nat, i: Instruction)
    requires Sane(s, tp) && Legal(s, tp, i) && i.CopyString?
    ensures IsFlatTurn(s, tp, i)
  {
    LegalIff(s, tp, i);
    SliceIsFlat(s, tp, i.pid, i.src, i.n);
    StoredFlats(s, tp, i.pid, i.dst, Slice(s, tp, i.pid, i.src, i.n));
  }

  lemma ProcessIsFlat(s: Machine, tp: nat, i: Instruction)
    requires Sane(s, tp) && Legal(s, tp, i) && (i.Launch? || i.End?)
    ensures IsFlatTurn(s, tp, i)
  {
    LegalIff(s, tp, i);
    if i.Launch? {
      ArraysUpdate(s.mem.procs, Turn(s, tp, i).0.mem.procs, s.bytes, tp, i.pid);
    } else if i.pid in s.mem.procs {
      EndIsFlat(s, tp, i.pid);
    }
  }

  lemma ResizeIsFlat(s: Machine, tp: nat, i: Instruction)
    requires Sane(s, tp) && Legal(s, tp, i) && i.Enlarge?
    ensures IsFlatTurn(s, tp, i)
  {
    LegalIff(s, tp, i);
    if i.more == 0 {
      return;
    }
    var (m, r) := Grown(s.mem, i.pid, s.mem.procs[i.pid].size + i.more, tp);
    EnlargeIsFlat(s.mem, m, r, s.bytes, tp, s.started, i.pid, i.more);
    EnlargeTurn(FlatsOf(s, tp), tp, i, FlatsWith(m, s.bytes, tp, s.started), Resized(r));
    TurnGrows(s, tp, i, m, r);
  }

  lemma ReduceIsFlat(s: Machine, tp: nat, i: Instruction)
    requires Sane(s, tp) && Legal(s, tp, i) && i.Reduce?
    ensures IsFlatTurn(s, tp, i)
  {
    if i.less == 0 {
      LegalIff(s, tp, i);
    } else {
      ReleaseIsFlat(s, tp, i);
    }
  }

  lemma ReleaseIsFlat(s: Machine, tp: nat, i: Instruction)
    requires Sane(s, tp) && Legal(s, tp, i) && i.Reduce? && 0 < i.less
    ensures IsFlatTurn(s, tp, i)
  {
    var m := Shrunk(s.mem, i.pid, s.mem.procs[i.pid].size - i.less, tp);
    ReducedFlats(s.mem, m, s.bytes, tp, s.started, i.pid, i.less);
    ReduceTurn(FlatsOf(s, tp), tp, i, FlatsWith(m, s.bytes, tp, s.started), Resized(ResizeOk));
    TurnShrinks(s, tp, i, m);
  }

  lemma ReduceTurn(f: Flats, tp: nat, i: Instruction, f': Flats, answer: Answer)
    requires 0 < tp && i.Reduce? && 0 < i.less && FlatLegal(f, tp, i)
    requires Reduces(f, tp, i.pid, i.less, f', answer)
    ensures FlatTurn(f, tp, i, f', answer)
  {
  }

  lemma TurnShrinks(s: Machine, tp: nat, i: Instruction, m: Memory)
    requires Sane(s, tp) && Legal(s, tp, i) && i.Reduce? && 0 < i.less
    requires m == Shrunk(s.mem, i.pid, s.mem.procs[i.pid].size - i.less, tp)
    ensures Turn(s, tp, i) == (s.(mem := m), Resized(ResizeOk))
    ensures FlatsOf(s.(mem := m), tp) == FlatsWith(m, s.bytes, tp, s.started)
  {
  }

  lemma EnlargeTurn(f: Flats, tp: nat, i: Instruction, f': Flats, answer: Answer)
    requires 0 < tp && i.Enlarge? && 0 < i.more && FlatLegal(f, tp, i) && Enlarges(f, tp, i.pid, i.more, f', answer)
    ensures FlatTurn(f, tp, i, f', answer)
  {
  }

  lemma TurnGrows(s: Machine, tp: nat, i: Instruction, m: Memory, r: Outcome)
    requires Sane(s, tp) && Legal(s, tp, i) && i.Enlarge? && 0 < i.more
    requires (m, r) == Grown(s.mem, i.pid, s.mem.procs[i.pid].size + i.more, tp)
    ensures Turn(s, tp, i) == (s.(mem := m), Resized(r))
    ensures FlatsOf(s.(mem := m), tp) == FlatsWith(m, s.bytes, tp, s.started)
  {
  }

  /** Every turn on paged memory is that turn of the flat machine. */
  lemma TurnIsFlat(s: Machine, tp: nat, i: Instruction)
    requires Sane(s, tp) && Legal(s, tp, i)
    ensures IsFlatTurn(s, tp, i)
  {
    match i
    case MovOut(_, _, _, _) => StoreIsFlat(s, tp, i);
    case MovIn(_, _, _) => FetchIsFlat(s, tp, i);
    case CopyString(_, _, _, _) => CopyIsFlat(s, tp, i);
    case Enlarge(_, _) => ResizeIsFlat(s, tp, i);
    case Reduce(_, _) => ReduceIsFlat(s, tp, i);
    case Launch(_) => ProcessIsFlat(s, tp, i);
    case End(_) => ProcessIsFlat(s, tp, i);
  }

  // Whole programs

  /** The flat machine can go through the program with these answers. */
  ghost predicate IsRun(f: Flats, tp: nat, program: seq<Instruction>, answers: seq<Answer>, end: Flats)
    requires 0 < tp
    decreases |program|
  {
    if program == [] then answers == [] && end == f else
      && answers != [] && FlatLegal(f, tp, program[0])
      && exists next :: FlatTurn(f, tp, program[0], next, answers[0]) &&
                        IsRun(next, tp, program[1..], answers[1..], end)
  }

  /** The answers of a program on paged memory, and what memory stands for afterwards, are a run of the flat machine. */
  lemma {:induction false} ProgramIsFlat(s: Machine, tp: nat, program: seq<Instruction>)
    requires Sane(s, tp) && LegalRun(s, tp, program)
    ensures var (answers, end) := Outcomes(s, tp, program);
            Sane(end, tp) && IsRun(FlatsOf(s, tp), tp, program, answers, FlatsOf(end, tp))
    decreases |program|
  {
    if program != [] {
      var (t, answer) := Turn(s, tp, program[0]);
      TurnKeeps(s, tp, program[0]);
      TurnIsFlat(s, tp, program[0]);
      ProgramIsFlat(t, tp, program[1..]);
      var (answers, end) := Outcomes(t, tp, program[1..]);
      RunCons(FlatsOf(s, tp), tp, program, FlatsOf(t, tp), answer, answers, FlatsOf(end, tp));
    }
  }

  lemma RunCons(f: Flats, tp: nat, program: seq<Instruction>, next: Flats, answer: Answer, answers: seq<Answer>,
          end: Flats)
    requires 0 < tp && program != [] && FlatLegal(f, tp, program[0]) && FlatTurn(f, tp, program[0], next, answer)
    requires IsRun(next, tp, program[1..], answers, end)
    ensures IsRun(f, tp, program, [answer] + answers, end)
  {
    assert ([answer] + answers)[1..] == answers;
  }

  // What does not depend on the bytes

  /** Two flat memories that differ in the bytes only. */
  ghost predicate Alike(f: Flats, g: Flats) {
    && f.sizes == g.sizes && f.free == g.free && f.started == g.started && f.arrays.Keys == g.arrays.Keys
    && forall p <- f.arrays :: |f.arrays[p]| == |g.arrays[p]|
  }

  predicate AlikeAnswers(a: Answer, b: Answer) {
    if a.Value? && b.Value? then |a.bytes| == |b.bytes| else a == b
  }

  lemma TurnAlike(f: Flats, g: Flats, tp: nat, i: Instruction, f': Flats, a: Answer, g': Flats, b: Answer)
    requires 0 < tp && Alike(f, g) && FlatLegal(f, tp, i) && FlatLegal(g, tp, i)
    requires FlatTurn(f, tp, i, f', a) && FlatTurn(g, tp, i, g', b)
    ensures Alike(f', g') && AlikeAnswers(a, b)
  {
    if i.End? && i.pid in f.arrays {
      MulCancels(f'.free - f.free, g'.free - g.free, tp);
    }
  }

  /**
   Whatever the pages that RESIZE hands out held before: of one program, two runs of the flat machine
   get the same answers to RESIZE and have the same sizes, lengths and free pages after it.
   */
  lemma {:induction false} RunsAlike(f: Flats, g: Flats, tp: nat, program: seq<Instruction>, a: seq<Answer>,
          b: seq<Answer>, endF: Flats, endG: Flats)
    requires 0 < tp && Alike(f, g) && IsRun(f, tp, program, a, endF) && IsRun(g, tp, program, b, endG)
    ensures Alike(endF, endG) && |a| == |b| == |program|
    ensures forall k | 0 <= k < |a| :: AlikeAnswers(a[k], b[k])
    decreases |program|
  {
    if program != [] {
      var f' :| FlatTurn(f, tp, program[0], f', a[0]) && IsRun(f', tp, program[1..], a[1..], endF);
      var g' :| FlatTurn(g, tp, program[0], g', b[0]) && IsRun(g', tp, program[1..], b[1..], endG);
      TurnAlike(f, g, tp, program[0], f', a[0], g', b[0]);
      RunsAlike(f', g', tp, program[1..], a[1..], b[1..], endF, endG);
      forall k | 0 < k < |a|
        ensures AlikeAnswers(a[k], b[k])
      {
        assert a[k] == a[1..][k - 1] && b[k] == b[1..][k - 1];
      }
    }
  }

  lemma MulCancels(x: nat, y: nat, tp: nat)
    requires 0 < tp && x * tp == y * tp
    ensures x == y
  {
  }
}
