/**
 Programs over paged memory (cpu/src/instrucciones.c and memoria together): what every instruction
 answers and leaves in memory is a function of the memory before it, with no TLB in it.
 */
module PagedMachine {
  import opened Arith
  import opened Paging
  import opened TlbPolicy
  import opened Frames
  import opened FlatMemory
  import opened Wire
  import opened Instructions
  import opened StaleEntries
  import Mmu
  import UserMemory

  /**
   memoria: frame list, tables and sizes, the bytes, and the pids that there are or have been. `looked`
   are pages that have been translated: a TLB may hold them, and holds no others.
   */
  datatype Machine = Machine(mem: Memory, bytes: seq<Byte>, started: set<nat>, looked: set<Key>)

  /**
   What touches memory, with the addresses and values that the registers hold. `more` is what RESIZE
   adds, `less` what it takes; a process is launched and ended by the kernel.
   */
  datatype Instruction =
    | MovOut(pid: nat, la: nat, wide: bool, value: seq<Byte>)
    | MovIn(pid: nat, la: nat, wide: bool)
    | CopyString(pid: nat, dst: nat, src: nat, n: nat)
    | Enlarge(pid: nat, more: nat)
    | Reduce(pid: nat, less: nat)
    | Launch(pid: nat)
    | End(pid: nat)

  datatype Answer = Done | Value(bytes: seq<Byte>) | Resized(outcome: Outcome)

  function Width(wide: bool): nat {
    if wide then 4 else 1
  }

  ghost predicate Sane(s: Machine, tp: nat) {
    0 < tp && Owned(s.mem) && |s.mem.owner| * tp <= |s.bytes| && s.mem.procs.Keys <= s.started
  }

  /** The pages that a range touches. */
  function Touched(tp: nat, pid: nat, la: nat, n: nat): set<Key>
    requires 0 < tp
  {
    set k | k in Mmu.PageKeys(pid, PageOf(tp, la), PageCount(tp, la, n))
  }

  /** Shrinking by so much has the pages to release, and none of them has been translated. */
  ghost predicate Releasable(s: Machine, tp: nat, p: nat, less: nat)
    requires 0 < tp && p in s.mem.procs
  {
    && less <= s.mem.procs[p].size && CeilDiv(less, tp) <= |s.mem.procs[p].pages|
    && forall k <- s.looked :: k.pid == p ==> k.page < |s.mem.procs[p].pages| - CeilDiv(less, tp)
  }

  /** A live process stays within its pages; a new one has a pid that was never used. */
  ghost predicate Legal(s: Machine, tp: nat, i: Instruction)
    requires 0 < tp
  {
    match i
    case MovOut(p, la, wide, value) =>
      p in s.mem.procs && p < WORD && |value| == Width(wide) && InRange(s.mem.procs[p].pages, tp, la, Width(wide))
    case MovIn(p, la, wide) => p in s.mem.procs && p < WORD && InRange(s.mem.procs[p].pages, tp, la, Width(wide))
    case CopyString(p, dst, src, n) =>
      && p in s.mem.procs && p < WORD && n < WORD
      && InRange(s.mem.procs[p].pages, tp, dst, n) && InRange(s.mem.procs[p].pages, tp, src, n)
    case Enlarge(p, _) => p in s.mem.procs
    case Reduce(p, less) => p in s.mem.procs && Releasable(s, tp, p, less)
    case Launch(p) => p !in s.started && p != FREE
    case End(_) => true
  }

  /** The array that the pages of a process stand for. */
  ghost function FlatIn(s: Machine, tp: nat, p: nat): (f: seq<Byte>)
    requires Sane(s, tp) && p in s.mem.procs
    ensures |f| == |s.mem.procs[p].pages| * tp
  {
    TablesFit(s.mem, p, tp, |s.bytes|);
    FlatLength(s.bytes, s.mem.procs[p].pages, tp);
    Flat(s.bytes, s.mem.procs[p].pages, tp)
  }

  ghost function Slice(s: Machine, tp: nat, p: nat, la: nat, n: nat): (r: seq<Byte>)
    requires Sane(s, tp) && p in s.mem.procs && InRange(s.mem.procs[p].pages, tp, la, n)
    ensures |r| == n
  {
    TablesFit(s.mem, p, tp, |s.bytes|);
    RangeWithinFlat(s.bytes, s.mem.procs[p].pages, tp, la, n);
    FlatIn(s, tp, p)[la..la + n]
  }

  function Looks(s: Machine, tp: nat, p: nat, la: nat, n: nat): Machine
    requires 0 < tp
  {
    s.(looked := s.looked + Touched(tp, p, la, n))
  }

  /** One instruction. */
  ghost function Turn(s: Machine, tp: nat, i: Instruction): (Machine, Answer)
    requires Sane(s, tp) && Legal(s, tp, i)
  {
    match i
    case MovOut(p, la, _, value) =>
      (Looks(s, tp, p, la, |value|).(bytes := Written(s.mem, s.bytes, tp, p, la, value)), Done)
    case MovIn(p, la, wide) => (Looks(s, tp, p, la, Width(wide)), Value(Slice(s, tp, p, la, Width(wide))))
    case CopyString(p, dst, src, n) =>
      var t := Looks(Looks(s, tp, p, src, n), tp, p, dst, n);
      (t.(bytes := Written(s.mem, s.bytes, tp, p, dst, Slice(s, tp, p, src, n))), Done)
    case Enlarge(p, more) =>
      if more == 0 then (s, Resized(SameSize)) else
      var (m, r) := Grown(s.mem, p, s.mem.procs[p].size + more, tp);
      (s.(mem := m), Resized(r))
    case Reduce(p, less) =>
      if less == 0 then (s, Resized(SameSize)) else
      (s.(mem := Shrunk(s.mem, p, s.mem.procs[p].size - less, tp)), Resized(ResizeOk))
    case Launch(p) => (s.(mem := Step(s.mem, Start(p), tp), started := s.started + {p}), Done)
    case End(p) => (s.(mem := Step(s.mem, Finish(p), tp)), Done)
  }

  lemma SaneWith(s: Machine, tp: nat, m: Memory)
    requires Sane(s, tp) && Owned(m) && |m.owner| == |s.mem.owner| && m.procs.Keys <= s.mem.procs.Keys
    ensures Sane(s.(mem := m), tp)
  {
  }

  lemma EnlargeKeeps(s: Machine, tp: nat, p: nat, size: nat)
    requires Sane(s, tp) && p in s.mem.procs && s.mem.procs[p].size < size
    ensures Sane(s.(mem := Grown(s.mem, p, size, tp).0), tp)
  {
    GrownKeeps(s.mem, p, size, tp);
    SaneWith(s, tp, Grown(s.mem, p, size, tp).0);
  }

  lemma ReduceKeeps(s: Machine, tp: nat, p: nat, size: nat)
    requires Sane(s, tp) && p in s.mem.procs && size < s.mem.procs[p].size && Enabled(s.mem, Resize(p, size), tp)
    ensures Sane(s.(mem := Shrunk(s.mem, p, size, tp)), tp)
  {
    ShrunkKeeps(s.mem, p, size, tp);
    SaneWith(s, tp, Shrunk(s.mem, p, size, tp));
  }

  lemma ProcessKeeps(s: Machine, tp: nat, i: Instruction)
    requires Sane(s, tp) && Legal(s, tp, i) && (i.Launch? || i.End?)
    ensures Sane(Turn(s, tp, i).0, tp)
  {
    if i.End? && i.pid in s.mem.procs {
      FinishedKeeps(s.mem, i.pid);
      SaneWith(s, tp, Finished(s.mem, i.pid));
    }
  }

  lemma AccessKeeps(s: Machine, tp: nat, bytes: seq<Byte>, looked: set<Key>)
    requires Sane(s, tp) && |bytes| == |s.bytes|
    ensures Sane(s.(bytes := bytes, looked := looked), tp)
  {
  }

  lemma TurnKeeps(s: Machine, tp: nat, i: Instruction)
    requires Sane(s, tp) && Legal(s, tp, i)
    ensures Sane(Turn(s, tp, i).0, tp)
  {
    var t := Turn(s, tp, i).0;
    match i
    case Enlarge(p, more) =>
      if 0 < more {
        EnlargeKeeps(s, tp, p, s.mem.procs[p].size + more);
      }
    case Reduce(p, less) =>
      if 0 < less {
        ReduceKeeps(s, tp, p, s.mem.procs[p].size - less);
      }
    case Launch(_) => ProcessKeeps(s, tp, i);
    case End(_) => ProcessKeeps(s, tp, i);
    case _ => AccessKeeps(s, tp, t.bytes, t.looked);
  }

  /** Every instruction of the program is legal where it is reached. */
  ghost predicate LegalRun(s: Machine, tp: nat, program: seq<Instruction>)
    requires Sane(s, tp)
    decreases |program|
  {
    program == [] ||
    (Legal(s, tp, program[0]) &&
     (TurnKeeps(s, tp, program[0]); LegalRun(Turn(s, tp, program[0]).0, tp, program[1..])))
  }

  /** What a program answers, and the memory after it. */
  ghost function Outcomes(s: Machine, tp: nat, program: seq<Instruction>): (seq<Answer>, Machine)
    requires Sane(s, tp) && LegalRun(s, tp, program)
    decreases |program|
  {
    if program == [] then ([], s) else
      TurnKeeps(s, tp, program[0]);
      var (next, answer) := Turn(s, tp, program[0]);
      var (answers, end) := Outcomes(next, tp, program[1..]);
      ([answer] + answers, end)
  }

  // cpu and memoria

  ghost function MachineOf(mem: UserMemory.UserMemory, looked: set<Key>): Machine
    reads mem, mem.owner, mem.bytes
  {
    Machine(mem.View(), mem.bytes[..], mem.started, looked)
  }

  /** The TLB has been asked for these pages only. */
  ghost predicate Knows(tlb: Mmu.Tlb, looked: set<Key>)
    reads tlb
  {
    forall k <- tlb.history :: k in looked
  }

  lemma KnowsMore(h: seq<Key>, looked: set<Key>, tp: nat, pid: nat, la: nat, n: nat)
    requires 0 < tp && forall k <- h :: k in looked
    ensures forall k <- LookedUp(h, tp, pid, la, n) :: k in looked + Touched(tp, pid, la, n)
  {
  }

  lemma SliceOf(mem: UserMemory.UserMemory, looked: set<Key>, p: nat, la: nat, n: nat)
    requires mem.Valid() && p in mem.procs && InRange(mem.procs[p].pages, mem.pageSize, la, n)
    ensures la + n <= |FlatOf(mem, p)|
    ensures Slice(MachineOf(mem, looked), mem.pageSize, p, la, n) == FlatOf(mem, p)[la..la + n]
  {
    TablesFit(mem.View(), p, mem.pageSize, mem.bytes.Length);
    RangeWithinFlat(mem.bytes[..], mem.procs[p].pages, mem.pageSize, la, n);
  }

  method Store(tlb: Mmu.Tlb, mem: UserMemory.UserMemory, p: nat, la: nat, wide: bool, value: seq<Byte>,
          ghost s: Machine)
    requires Coherent(tlb, mem) && s == MachineOf(mem, s.looked) && Knows(tlb, s.looked)
    requires Legal(s, mem.pageSize, MovOut(p, la, wide, value))
    modifies tlb`ticks, tlb`used, tlb`history, tlb.entries, mem.bytes
    ensures Coherent(tlb, mem)
    ensures var (t, answer) := Turn(s, mem.pageSize, MovOut(p, la, wide, value));
            MachineOf(mem, t.looked) == t && Knows(tlb, t.looked) && answer == Done
  {
    KnowsMore(tlb.history, s.looked, mem.pageSize, p, la, |value|);
    Instructions.MovOut(tlb, mem, p, la, wide, value);
  }

  method Fetch(tlb: Mmu.Tlb, mem: UserMemory.UserMemory, p: nat, la: nat, wide: bool, ghost s: Machine)
    returns (value: seq<Byte>)
    requires Coherent(tlb, mem) && s == MachineOf(mem, s.looked) && Knows(tlb, s.looked)
    requires Legal(s, mem.pageSize, MovIn(p, la, wide))
    modifies tlb`ticks, tlb`used, tlb`history, tlb.entries
    ensures Coherent(tlb, mem)
    ensures var (t, answer) := Turn(s, mem.pageSize, MovIn(p, la, wide));
            MachineOf(mem, t.looked) == t && Knows(tlb, t.looked) && answer == Value(value)
  {
    KnowsMore(tlb.history, s.looked, mem.pageSize, p, la, Width(wide));
    SliceOf(mem, s.looked, p, la, Width(wide));
    value := Instructions.MovIn(tlb, mem, p, la, wide);
  }

  method Copy(tlb: Mmu.Tlb, mem: UserMemory.UserMemory, p: nat, dst: nat, src: nat, n: nat, ghost s: Machine)
    requires Coherent(tlb, mem) && s == MachineOf(mem, s.looked) && Knows(tlb, s.looked)
    requires Legal(s, mem.pageSize, CopyString(p, dst, src, n))
    modifies tlb`ticks, tlb`used, tlb`history, tlb.entries, mem.bytes
    ensures Coherent(tlb, mem)
    ensures var (t, answer) := Turn(s, mem.pageSize, CopyString(p, dst, src, n));
            MachineOf(mem, t.looked) == t && Knows(tlb, t.looked) && answer == Done
  {
    ghost var h, tp := tlb.history, mem.pageSize;
    KnowsMore(h, s.looked, tp, p, src, n);
    KnowsMore(LookedUp(h, tp, p, src, n), s.looked + Touched(tp, p, src, n), tp, p, dst, n);
    SliceOf(mem, s.looked, p, src, n);
    Instructions.CopyString(tlb, mem, p, dst, src, n);
  }

  method Grow(tlb: Mmu.Tlb, mem: UserMemory.UserMemory, p: nat, more: nat, ghost s: Machine) returns (r: Outcome)
    requires Coherent(tlb, mem) && s == MachineOf(mem, s.looked)
    requires Legal(s, mem.pageSize, Enlarge(p, more))
    modifies mem`procs, mem.owner
    ensures Coherent(tlb, mem)
    ensures var (t, answer) := Turn(s, mem.pageSize, Enlarge(p, more));
            MachineOf(mem, t.looked) == t && t.looked == s.looked && answer == Resized(r)
  {
    r := SameSize;
    if 0 < more {
      r := Extend(tlb, mem, p, mem.procs[p].size + more);
    }
  }

  /** The entries of the TLB are about pages that have been looked up. */
  lemma EntriesStay(tlb: Mmu.Tlb, looked: set<Key>, p: nat, stays: nat)
    requires tlb.Valid() && Knows(tlb, looked) && forall k <- looked :: k.pid == p ==> k.page < stays
    ensures forall e <- tlb.Live() :: e.pid == p ==> e.page < stays
  {
    forall e | e in tlb.Live() && e.pid == p
      ensures e.page < stays
    {
      var i :| 0 <= i < |tlb.Live()| && tlb.Live()[i] == e;
      assert Mmu.KeysOf(tlb.Live())[i] in tlb.history;
    }
  }

  /** A shrink that the TLB need not know of. */
  method Shrink(tlb: Mmu.Tlb, mem: UserMemory.UserMemory, p: nat, less: nat, ghost s: Machine) returns (r: Outcome)
    requires Coherent(tlb, mem) && s == MachineOf(mem, s.looked) && Knows(tlb, s.looked)
    requires Legal(s, mem.pageSize, Reduce(p, less))
    modifies mem`procs, mem.owner
    ensures Coherent(tlb, mem)
    ensures var (t, answer) := Turn(s, mem.pageSize, Reduce(p, less));
            MachineOf(mem, t.looked) == t && t.looked == s.looked && answer == Resized(r)
  {
    if less == 0 {
      return SameSize;
    }
    ghost var size, stays := mem.procs[p].size - less, |mem.procs[p].pages| - CeilDiv(less, mem.pageSize);
    EntriesStay(tlb, s.looked, p, stays);
    ShrunkAgreesIff(s.mem, p, size, mem.pageSize, tlb.Live());
    r := mem.ResizeProcess(p, mem.procs[p].size - less);
  }

  /** One instruction, through the TLB and the streams. */
  method Execute(tlb: Mmu.Tlb, mem: UserMemory.UserMemory, i: Instruction, ghost s: Machine) returns (answer: Answer)
    requires Coherent(tlb, mem) && s == MachineOf(mem, s.looked) && Knows(tlb, s.looked)
    requires Legal(s, mem.pageSize, i)
    modifies tlb`ticks, tlb`used, tlb`history, tlb.entries, mem`procs, mem`started, mem.owner, mem.bytes
    ensures Coherent(tlb, mem)
    ensures var (t, a) := Turn(s, mem.pageSize, i); MachineOf(mem, t.looked) == t && Knows(tlb, t.looked) && answer == a
  {
    answer := Done;
    match i
    case MovOut(p, la, wide, value) => Store(tlb, mem, p, la, wide, value, s);
    case MovIn(p, la, wide) =>
      var value := Fetch(tlb, mem, p, la, wide, s);
      answer := Value(value);
    case CopyString(p, dst, src, n) => Copy(tlb, mem, p, dst, src, n, s);
    case Enlarge(p, more) =>
      var r := Grow(tlb, mem, p, more, s);
      answer := Resized(r);
    case Reduce(p, less) =>
      var r := Shrink(tlb, mem, p, less, s);
      answer := Resized(r);
    case Launch(p) => StartProcess(tlb, mem, p);
    case End(p) => FinishProcess(tlb, mem, p);
  }

  lemma OutcomesStep(s: Machine, tp: nat, program: seq<Instruction>, k: nat, answers: seq<Answer>,
          all: (seq<Answer>, Machine))
    requires Sane(s, tp) && k < |program| && LegalRun(s, tp, program[k..])
    requires all == (answers + Outcomes(s, tp, program[k..]).0, Outcomes(s, tp, program[k..]).1)
    ensures Legal(s, tp, program[k])
    ensures var (t, answer) := Turn(s, tp, program[k]);
            && Sane(t, tp) && LegalRun(t, tp, program[k + 1..])
            && all == (answers + [answer] + Outcomes(t, tp, program[k + 1..]).0, Outcomes(t, tp, program[k + 1..]).1)
  {
    TurnKeeps(s, tp, program[k]);
    assert program[k..][0] == program[k] && program[k..][1..] == program[k + 1..];
    var (t, answer) := Turn(s, tp, program[k]);
    var rest := Outcomes(t, tp, program[k + 1..]).0;
    assert answers + ([answer] + rest) == answers + [answer] + rest;
  }

  /** A whole program: TLB, policy and clock show neither in the answers nor in the memory. */
  method RunProgram(tlb: Mmu.Tlb, mem: UserMemory.UserMemory, program: seq<Instruction>, ghost s: Machine)
    returns (answers: seq<Answer>)
    requires Coherent(tlb, mem) && s == MachineOf(mem, s.looked) && Knows(tlb, s.looked)
    requires LegalRun(s, mem.pageSize, program)
    modifies tlb`ticks, tlb`used, tlb`history, tlb.entries, mem`procs, mem`started, mem.owner, mem.bytes
    ensures Coherent(tlb, mem)
    ensures var (all, end) := Outcomes(s, mem.pageSize, program);
            answers == all && MachineOf(mem, end.looked) == end && Knows(tlb, end.looked)
  {
    ghost var all, now := Outcomes(s, mem.pageSize, program), s;
    answers := [];
    assert program[0..] == program && [] + all.0 == all.0;
    for k := 0 to |program|
      invariant Coherent(tlb, mem) && now == MachineOf(mem, now.looked) && Knows(tlb, now.looked)
      invariant LegalRun(now, mem.pageSize, program[k..])
      invariant all == (answers + Outcomes(now, mem.pageSize, program[k..]).0,
                        Outcomes(now, mem.pageSize, program[k..]).1)
    {
      OutcomesStep(now, mem.pageSize, program, k, answers, all);
      var answer := Execute(tlb, mem, program[k], now);
      answers, now := answers + [answer], Turn(now, mem.pageSize, program[k]).0;
    }
    assert program[|program|..] == [] && answers + [] == answers;
  }

  /**
   Transparency: two machines with the same memory and any two TLBs, of any size and policy and with
   any clock, agree in every answer, RESIZE included, and end with the same memory.
   */
  method RunBoth(tlbA: Mmu.Tlb, memA: UserMemory.UserMemory, tlbB: Mmu.Tlb, memB: UserMemory.UserMemory,
          program: seq<Instruction>, ghost s: Machine) returns (a: seq<Answer>, b: seq<Answer>)
    requires Coherent(tlbA, memA) && Coherent(tlbB, memB) && Knows(tlbA, s.looked) && Knows(tlbB, s.looked)
    requires tlbA != tlbB && memA != memB && tlbA.entries != tlbB.entries
    requires memA.owner != memB.owner && memA.bytes != memB.bytes
    requires memA.pageSize == memB.pageSize && MachineOf(memA, s.looked) == s == MachineOf(memB, s.looked)
    requires LegalRun(s, memA.pageSize, program)
    modifies tlbA`ticks, tlbA`used, tlbA`history, tlbA.entries, memA`procs, memA`started, memA.owner, memA.bytes
    modifies tlbB`ticks, tlbB`used, tlbB`history, tlbB.entries, memB`procs, memB`started, memB.owner, memB.bytes
    ensures a == b && memA.View() == memB.View() && memA.bytes[..] == memB.bytes[..]
  {
    a := RunProgram(tlbA, memA, program, s);
    b := RunProgram(tlbB, memB, program, s);
  }

  // A range that is used later

  lemma OtherKeepsProcess(s: Machine, tp: nat, i: Instruction, p: nat)
    requires Sane(s, tp) && Legal(s, tp, i) && p in s.mem.procs && i.pid != p
    ensures var t := Turn(s, tp, i).0; p in t.mem.procs && t.mem.procs[p] == s.mem.procs[p]
  {
    match i
    case Enlarge(q, more) =>
      if 0 < more {
        GrownTables(s.mem, q, s.mem.procs[q].size + more, tp);
      }
    case Reduce(q, less) =>
      if 0 < less {
        ShrunkTables(s.mem, q, s.mem.procs[q].size - less, tp);
      }
    case End(q) =>
      if q in s.mem.procs {
        DropAllEffect(s.mem, q);
      }
    case _ =>
  }

  /**
   While a process waits, others run, start, grow, shrink and end; its pages stay, and so the segments
   that the kernel and the interface carry for it.
   */
  lemma {:induction false} WaitingKeepsSegments(s: Machine, tp: nat, program: seq<Instruction>, p: nat, la: nat, n: nat)
    requires Sane(s, tp) && LegalRun(s, tp, program) && p in s.mem.procs && forall i <- program :: i.pid != p
    requires InRange(s.mem.procs[p].pages, tp, la, n)
    ensures var end := Outcomes(s, tp, program).1;
            && p in end.mem.procs && end.mem.procs[p] == s.mem.procs[p] && Sane(end, tp)
            && InRange(end.mem.procs[p].pages, tp, la, n)
            && Segments(end.mem.procs[p].pages, tp, la, n) == Segments(s.mem.procs[p].pages, tp, la, n)
    decreases |program|
  {
    if program != [] {
      TurnKeeps(s, tp, program[0]);
      OtherKeepsProcess(s, tp, program[0], p);
      WaitingKeepsSegments(Turn(s, tp, program[0]).0, tp, program[1..], p, la, n);
    }
  }

  /** IO_STDIN_READ as it goes: cpu translates, others run, and the input is stored when it comes. */
  method StoreInputLater(tlb: Mmu.Tlb, mem: UserMemory.UserMemory, pid: nat, la: nat, n: nat,
          others: seq<Instruction>, input: seq<Byte>, ghost s: Machine) returns (answers: seq<Answer>)
    requires Coherent(tlb, mem) && s == MachineOf(mem, s.looked) && Knows(tlb, s.looked)
    requires pid in mem.procs && InRange(mem.procs[pid].pages, mem.pageSize, la, n)
    requires LegalRun(Looks(s, mem.pageSize, pid, la, n), mem.pageSize, others) && forall i <- others :: i.pid != pid
    modifies tlb`ticks, tlb`used, tlb`history, tlb.entries, mem`procs, mem`started, mem.owner, mem.bytes
    ensures Coherent(tlb, mem)
    ensures var (all, end) := Outcomes(Looks(s, mem.pageSize, pid, la, n), mem.pageSize, others);
            && answers == all && Sane(end, mem.pageSize) && mem.View() == end.mem && pid in end.mem.procs
            && InRange(end.mem.procs[pid].pages, mem.pageSize, la, |Fitting(input, n)|)
            && mem.bytes[..] == Written(end.mem, end.bytes, mem.pageSize, pid, la, Fitting(input, n))
  {
    ghost var t := Looks(s, mem.pageSize, pid, la, n);
    KnowsMore(tlb.history, s.looked, mem.pageSize, pid, la, n);
    var segs := Translate(tlb, mem, pid, la, n);
    answers := RunProgram(tlb, mem, others, t);
    WaitingKeepsSegments(t, mem.pageSize, others, pid, la, n);
    Instructions.Store(mem, segs, input, pid, la, n);
  }
}
