/**
 How many pages a process has for its size. memoria/src/manejo_memoria.c rounds the change of
 size up to pages, not the new size, so the table can end up too long after growing and too
 short after shrinking.
 */
module FrameSizes {
  import opened Arith
  import opened Frames

  /** The table holds the process's bytes. */
  predicate Covers(p: Process, tp: nat) {
    p.size <= |p.pages| * tp
  }

  /** The table has exactly the pages the size needs. */
  predicate Tight(p: Process, tp: nat)
    requires 0 < tp
  {
    |p.pages| == CeilDiv(p.size, tp)
  }

  lemma GrownSize(m: Memory, pid: nat, size: nat, tp: nat)
    requires 0 < tp && Owned(m) && pid in m.procs && m.procs[pid].size < size
    ensures var need := CeilDiv(size - m.procs[pid].size, tp);
            var (m', r) := Grown(m, pid, size, tp);
            && (r == OutOfMemory <==> CountTag(m.owner, FREE) < need)
            && (r == OutOfMemory ==> m' == m)
            && (r != OutOfMemory ==>
                  && r == ResizeOk && pid in m'.procs && m'.procs[pid].size == size
                  && |m'.procs[pid].pages| == |m.procs[pid].pages| + need
                  && m'.procs == m.procs[pid := m'.procs[pid]])
  {
    var need := CeilDiv(size - m.procs[pid].size, tp);
    if need <= CountTag(m.owner, FREE) {
      AddPagesEffect(m, pid, need);
      AddPagesAppends(m, pid, need);
    }
  }

  lemma ShrunkSize(m: Memory, pid: nat, size: nat, tp: nat)
    requires 0 < tp && Owned(m) && pid in m.procs && size < m.procs[pid].size
    requires Enabled(m, Resize(pid, size), tp)
    ensures var k := CeilDiv(m.procs[pid].size - size, tp);
            var m' := Shrunk(m, pid, size, tp);
            && pid in m'.procs && m'.procs[pid].size == size
            && m'.procs[pid].pages == m.procs[pid].pages[..|m.procs[pid].pages| - k]
            && m'.procs == m.procs[pid := m'.procs[pid]]
  {
    var k := CeilDiv(m.procs[pid].size - size, tp);
    DropPagesEffect(m, pid, k);
    DropPagesTail(m, pid, k);
  }

  /** What resize_proceso_memoria answers: `r` if process `p` is to have `size` bytes and `free` frames are free. */
  predicate Answers(p: Process, size: nat, free: nat, tp: nat, r: Outcome)
    requires 0 < tp
  {
    r == if size == p.size then SameSize
         else if p.size < size then
           if free < CeilDiv(size - p.size, tp) then OutOfMemory else ResizeOk
         else if |p.pages| < CeilDiv(p.size - size, tp) then Crashed else ResizeOk
  }

  /** Its new size, and how many pages it has then. */
  ghost predicate Resizes(p: Process, p': Process, size: nat, tp: nat)
    requires 0 < tp
  {
    && p'.size == size
    && if p.size <= size then |p'.pages| == |p.pages| + CeilDiv(size - p.size, tp) && p.pages <= p'.pages
       else |p'.pages| == |p.pages| - CeilDiv(p.size - size, tp) && p'.pages <= p.pages
  }

  /** The answer, and the table and size of that process and no other. */
  lemma ResizedAnswers(m: Memory, pid: nat, size: nat, tp: nat)
    requires 0 < tp && Owned(m) && pid in m.procs && Enabled(m, Resize(pid, size), tp)
    ensures var (m', r) := Resized(m, pid, size, tp);
            && Answers(m.procs[pid], size, CountTag(m.owner, FREE), tp, r)
            && (r != ResizeOk ==> m' == m)
            && (r == ResizeOk ==>
                  && pid in m'.procs && m'.procs == m.procs[pid := m'.procs[pid]]
                  && Resizes(m.procs[pid], m'.procs[pid], size, tp))
  {
    if size > m.procs[pid].size {
      GrownSize(m, pid, size, tp);
      var k := CeilDiv(size - m.procs[pid].size, tp);
      if k <= CountTag(m.owner, FREE) {
        AddPagesAppends(m, pid, k);
      }
    } else if size < m.procs[pid].size {
      ShrunkSize(m, pid, size, tp);
    }
  }

  /** Growing a table that holds its process leaves one that still does. */
  lemma GrownCovers(m: Memory, pid: nat, size: nat, tp: nat)
    requires 0 < tp && Owned(m) && pid in m.procs && m.procs[pid].size < size
    requires Covers(m.procs[pid], tp)
    ensures var m' := Grown(m, pid, size, tp).0; pid in m'.procs && Covers(m'.procs[pid], tp)
  {
    GrownSize(m, pid, size, tp);
    var d := size - m.procs[pid].size;
    CeilDivLeast(d, tp, CeilDiv(d, tp));
    MulDistributes(|m.procs[pid].pages|, CeilDiv(d, tp), tp);
  }

  /** A grown table is still exact if and only if the two round-ups do not make a spare page. */
  lemma GrownTightIff(m: Memory, pid: nat, size: nat, tp: nat)
    requires 0 < tp && Owned(m) && pid in m.procs && m.procs[pid].size < size
    requires Tight(m.procs[pid], tp) && Grown(m, pid, size, tp).1 == ResizeOk
    ensures var m' := Grown(m, pid, size, tp).0;
            pid in m'.procs &&
            (Tight(m'.procs[pid], tp) <==>
             Slack(m.procs[pid].size, tp) + Slack(size - m.procs[pid].size, tp) < tp)
  {
    GrownSize(m, pid, size, tp);
    CeilDivSum(m.procs[pid].size, size - m.procs[pid].size, tp);
  }

  /** Shrinking an exact table never underflows it, ... */
  lemma ShrinkEnabled(m: Memory, pid: nat, size: nat, tp: nat)
    requires 0 < tp && pid in m.procs && size < m.procs[pid].size && Tight(m.procs[pid], tp)
    ensures Enabled(m, Resize(pid, size), tp)
  {
    CeilDivSum(size, m.procs[pid].size - size, tp);
    var s := m.procs[pid].size;
    CeilDivLeast(s - size, tp, CeilDiv(s, tp));
    CeilDivLeast(s, tp, CeilDiv(s, tp));
  }

  /** ... but what is left holds the process exactly under this condition on the two sizes. */
  lemma ShrunkCoversIff(m: Memory, pid: nat, size: nat, tp: nat)
    requires 0 < tp && Owned(m) && pid in m.procs && size < m.procs[pid].size && Tight(m.procs[pid], tp)
    requires Enabled(m, Resize(pid, size), tp)
    ensures var p := Shrunk(m, pid, size, tp).procs;
            pid in p &&
            (Covers(p[pid], tp) <==> Slack(size, tp) + Slack(m.procs[pid].size - size, tp) < tp) &&
            (Tight(p[pid], tp) <==> Covers(p[pid], tp))
  {
    ShrunkSize(m, pid, size, tp);
    CeilDivSum(size, m.procs[pid].size - size, tp);
    CeilDivLeast(size, tp, |Shrunk(m, pid, size, tp).procs[pid].pages|);
  }

  /** With 32-byte pages, shrinking 40 bytes to 33 leaves one page for two pages' worth of bytes. */
  lemma ShrinkLosesBytes()
    ensures exists m: Memory, pid: nat ::
              Owned(m) && pid in m.procs && Tight(m.procs[pid], 32) && Enabled(m, Resize(pid, 33), 32) &&
              m.procs[pid].size == 40 && !Covers(Resized(m, pid, 33, 32).0.procs[pid], 32)
  {
    var m := Memory([1, 1], map[1 := Process([0, 1], 40)]);
    assert Owned(m);
    ShrinkEnabled(m, 1, 33, 32);
    ShrunkCoversIff(m, 1, 33, 32);
    assert Slack(33, 32) == 31 && Slack(7, 32) == 25;
  }

  /** Every process has a whole number of pages, all of them used. */
  ghost predicate WholePages(m: Memory, tp: nat) {
    forall p <- m.procs :: |m.procs[p].pages| * tp == m.procs[p].size
  }

  predicate WholeSize(op: Op, tp: nat)
    requires 0 < tp
  {
    op.Resize? ==> op.size % tp == 0
  }

  lemma WholeIsTight(p: Process, tp: nat)
    requires 0 < tp && |p.pages| * tp == p.size
    ensures Tight(p, tp) && Slack(p.size, tp) == 0
  {
    CeilDivExact(|p.pages|, tp);
  }

  lemma TightIsWhole(p: Process, tp: nat)
    requires 0 < tp && Tight(p, tp) && p.size % tp == 0
    ensures |p.pages| * tp == p.size
  {
    CeilDivExact(p.size / tp, tp);
  }

  lemma ExactQuotient(a: nat, tp: nat)
    requires 0 < tp && a % tp == 0
    ensures a == (a / tp) * tp
  {
  }

  lemma DifferenceWhole(a: nat, b: nat, tp: nat)
    requires 0 < tp && a <= b && a % tp == 0 && b % tp == 0
    ensures Slack(b - a, tp) == 0
  {
    DivMonotone(a, b, tp);
    ExactQuotient(a, tp);
    ExactQuotient(b, tp);
    var qa, qb := a / tp, b / tp;
    MulDistributes(qb, qa, tp);
    CeilDivExact(qb - qa, tp);
  }

  /** With page-multiple sizes no request underflows, and the tables stay exact. */
  lemma StepKeepsWhole(m: Memory, op: Op, tp: nat)
    requires 0 < tp && Owned(m) && WholePages(m, tp) && WholeSize(op, tp)
    requires op.Start? ==> Enabled(m, op, tp)
    ensures Enabled(m, op, tp) && WholePages(Step(m, op, tp), tp)
  {
    if op.Resize? && op.pid in m.procs {
      var p, size := m.procs[op.pid], op.size;
      WholeIsTight(p, tp);
      DivModUnique(p.size, tp, |p.pages|, 0);
      if size < p.size {
        ShrinkEnabled(m, op.pid, size, tp);
        DifferenceWhole(size, p.size, tp);
        ShrunkSize(m, op.pid, size, tp);
        ShrunkCoversIff(m, op.pid, size, tp);
        TightIsWhole(Shrunk(m, op.pid, size, tp).procs[op.pid], tp);
      } else if size > p.size {
        DifferenceWhole(p.size, size, tp);
        GrownSize(m, op.pid, size, tp);
        if Grown(m, op.pid, size, tp).1 == ResizeOk {
          GrownTightIff(m, op.pid, size, tp);
          TightIsWhole(Grown(m, op.pid, size, tp).0.procs[op.pid], tp);
        }
      }
    } else if op.Finish? && op.pid in m.procs {
      DropAllEffect(m, op.pid);
    }
  }

  /** The kernel numbers processes upwards: no pid is started twice. */
  ghost predicate FreshStarts(used: set<nat>, ops: seq<Op>)
    decreases |ops|
  {
    ops == [] ||
    match ops[0]
    case Start(pid) => pid !in used && pid != FREE && FreshStarts(used + {pid}, ops[1..])
    case _ => FreshStarts(used, ops[1..])
  }

  /** Every run with page-multiple sizes goes through, and each table length is its size. */
  lemma {:induction false} WholeRun(m: Memory, ops: seq<Op>, tp: nat, used: set<nat>)
    requires 0 < tp && Owned(m) && WholePages(m, tp) && m.procs.Keys <= used
    requires FreshStarts(used, ops) && forall op <- ops :: WholeSize(op, tp)
    ensures Runs(m, ops, tp) && WholePages(Run(m, ops, tp), tp)
    decreases |ops|
  {
    if ops != [] {
      StepKeepsWhole(m, ops[0], tp);
      StepKeepsOwned(m, ops[0], tp);
      StepPids(m, ops[0], tp);
      var used' := if ops[0].Start? then used + {ops[0].pid} else used;
      WholeRun(Step(m, ops[0], tp), ops[1..], tp, used');
    }
  }

  lemma StepPids(m: Memory, op: Op, tp: nat)
    requires 0 < tp && Owned(m) && Enabled(m, op, tp)
    ensures Step(m, op, tp).procs.Keys <= m.procs.Keys + (if op.Start? then {op.pid} else {})
  {
    if op.Resize? && op.pid in m.procs {
      if op.size < m.procs[op.pid].size {
        ShrunkSize(m, op.pid, op.size, tp);
      } else if op.size > m.procs[op.pid].size {
        GrownSize(m, op.pid, op.size, tp);
      }
    } else if op.Finish? && op.pid in m.procs {
      DropAllEffect(m, op.pid);
    }
  }

  /** Every table holds its process. */
  ghost predicate AllCovered(m: Memory, tp: nat) {
    forall p <- m.procs :: Covers(m.procs[p], tp)
  }

  /** The request does not shrink a process. */
  predicate Grows(m: Memory, op: Op) {
    op.Resize? && op.pid in m.procs ==> m.procs[op.pid].size <= op.size
  }

  lemma StepKeepsCovers(m: Memory, op: Op, tp: nat)
    requires 0 < tp && Owned(m) && Enabled(m, op, tp) && AllCovered(m, tp) && Grows(m, op)
    ensures AllCovered(Step(m, op, tp), tp)
  {
    if op.Resize? && op.pid in m.procs && m.procs[op.pid].size < op.size {
      GrownSize(m, op.pid, op.size, tp);
      GrownCovers(m, op.pid, op.size, tp);
    } else if op.Finish? && op.pid in m.procs {
      DropAllEffect(m, op.pid);
    }
  }

  /** No request of the run shrinks a process. */
  ghost predicate NeverShrinks(m: Memory, ops: seq<Op>, tp: nat)
    requires 0 < tp && Owned(m) && Runs(m, ops, tp)
    decreases |ops|
  {
    ops == [] ||
    (Grows(m, ops[0]) && (StepKeepsOwned(m, ops[0], tp); NeverShrinks(Step(m, ops[0], tp), ops[1..], tp)))
  }

  /** As long as nothing shrinks, every table holds its process, whatever the sizes. */
  lemma {:induction false} GrowingRunCovers(m: Memory, ops: seq<Op>, tp: nat)
    requires 0 < tp && Owned(m) && AllCovered(m, tp) && Runs(m, ops, tp) && NeverShrinks(m, ops, tp)
    ensures AllCovered(Run(m, ops, tp), tp)
    decreases |ops|
  {
    if ops != [] {
      StepKeepsOwned(m, ops[0], tp);
      StepKeepsCovers(m, ops[0], tp);
      GrowingRunCovers(Step(m, ops[0], tp), ops[1..], tp);
    }
  }

  // Runs that go wrong

  lemma RunsCons(m: Memory, op: Op, rest: seq<Op>, tp: nat)
    requires 0 < tp && Owned(m) && Enabled(m, op, tp)
    requires Owned(Step(m, op, tp)) && Runs(Step(m, op, tp), rest, tp)
    ensures Runs(m, [op] + rest, tp) && Run(m, [op] + rest, tp) == Run(Step(m, op, tp), rest, tp)
  {
    assert ([op] + rest)[1..] == rest;
  }

  lemma CeilDivSmall(n: nat, tp: nat)
    requires 0 < n <= tp
    ensures CeilDiv(n, tp) == 1
  {
    CeilDivUnique(n, tp, 1);
  }

  /** Up to a page more takes a page. */
  lemma OneMore(m: Memory, pid: nat, size: nat, tp: nat)
    requires 0 < tp && Owned(m) && pid in m.procs && 0 < CountTag(m.owner, FREE)
    requires m.procs[pid].size < size <= m.procs[pid].size + tp
    ensures var t := Step(m, Resize(pid, size), tp);
            && Owned(t) && pid in t.procs && t.procs[pid].size == size
            && |t.procs[pid].pages| == |m.procs[pid].pages| + 1
            && CountTag(t.owner, FREE) == CountTag(m.owner, FREE) - 1
  {
    CeilDivSmall(size - m.procs[pid].size, tp);
    StepKeepsOwned(m, Resize(pid, size), tp);
    GrownSize(m, pid, size, tp);
    AddPagesAppends(m, pid, 1);
  }

  /** Growing byte by byte takes a page for each: two pages for two bytes. */
  lemma GrowthWastesPages(m: Memory, pid: nat, tp: nat)
    requires 2 <= tp && Owned(m) && Enabled(m, Start(pid), tp) && 2 <= CountTag(m.owner, FREE)
    ensures var ops := [Start(pid)] + ([Resize(pid, 1)] + ([Resize(pid, 2)] + []));
            && Runs(m, ops, tp) && pid in Run(m, ops, tp).procs
            && var p := Run(m, ops, tp).procs[pid];
               p.size == 2 && |p.pages| == 2 && CeilDiv(2, tp) == 1 && !Tight(p, tp)
  {
    var a := Step(m, Start(pid), tp);
    StepKeepsOwned(m, Start(pid), tp);
    OneMore(a, pid, 1, tp);
    var b := Step(a, Resize(pid, 1), tp);
    OneMore(b, pid, 2, tp);
    CeilDivSmall(2, tp);
    RunsCons(b, Resize(pid, 2), [], tp);
    RunsCons(a, Resize(pid, 1), [Resize(pid, 2)] + [], tp);
    RunsCons(m, Start(pid), [Resize(pid, 1)] + ([Resize(pid, 2)] + []), tp);
  }

  /** Shrinking byte by byte gives up a page for each: the second byte asks for a page of an empty table. */
  lemma ShrinkRunsOut(m: Memory, pid: nat, tp: nat)
    requires 2 <= tp && Owned(m) && Enabled(m, Start(pid), tp) && 0 < CountTag(m.owner, FREE)
    ensures var ops := [Start(pid)] + ([Resize(pid, tp)] + ([Resize(pid, tp - 1)] + []));
            Runs(m, ops, tp) && !Enabled(Run(m, ops, tp), Resize(pid, tp - 2), tp)
  {
    var a := Step(m, Start(pid), tp);
    StepKeepsOwned(m, Start(pid), tp);
    OneMore(a, pid, tp, tp);
    var b := Step(a, Resize(pid, tp), tp);
    CeilDivSmall(1, tp);
    ShrunkSize(b, pid, tp - 1, tp);
    StepKeepsOwned(b, Resize(pid, tp - 1), tp);
    RunsCons(b, Resize(pid, tp - 1), [], tp);
    RunsCons(a, Resize(pid, tp), [Resize(pid, tp - 1)] + [], tp);
    RunsCons(m, Start(pid), [Resize(pid, tp)] + ([Resize(pid, tp - 1)] + []), tp);
  }
}
