/**
 How many blocks are free after an operation, and when TRUNCATE finds no room: the sizes of the files
 decide both, and where their blocks lie does not (entradasalida/src/instrucciones_io.c:194-431).
 */
module FreeBlocks {
  import opened Arith
  import opened Bits
  import opened FileSystem
  import opened FileOps
  import opened FileOrder
  import opened Compaction
  import opened Repacking
  import opened Truncation
  import opened FsRuns

  lemma {:induction false} TotalConcat(a: seq<File>, b: seq<File>, bs: nat)
    requires 0 < bs
    ensures TotalBlocks(a + b, bs) == TotalBlocks(a, bs) + TotalBlocks(b, bs)
  {
    if b == [] {
      assert a + b == a;
    } else {
      TotalConcat(a, b[..|b| - 1], bs);
      assert (a + b)[..|a + b| - 1] == a + b[..|b| - 1];
    }
  }

  /** The list around one file. */
  lemma TotalAround(a: seq<File>, f: File, b: seq<File>, bs: nat)
    requires 0 < bs
    ensures TotalBlocks(a + [f] + b, bs) == TotalBlocks(a, bs) + Blocks(f.size, bs) + TotalBlocks(b, bs)
    ensures TotalBlocks(a + b, bs) == TotalBlocks(a, bs) + TotalBlocks(b, bs)
  {
    TotalConcat(a + [f], b, bs);
    assert (a + [f])[..|a|] == a;
    TotalConcat(a, b, bs);
  }

  lemma TotalUpdate(files: seq<File>, i: nat, f: File, bs: nat)
    requires 0 < bs && i < |files|
    ensures TotalBlocks(files[i := f], bs) == TotalBlocks(files, bs) - Blocks(files[i].size, bs) + Blocks(f.size, bs)
    ensures TotalBlocks(files[..i] + files[i + 1..], bs) == TotalBlocks(files, bs) - Blocks(files[i].size, bs)
  {
    assert files == files[..i] + [files[i]] + files[i + 1..];
    assert files[i := f] == files[..i] + [f] + files[i + 1..];
    TotalAround(files[..i], files[i], files[i + 1..], bs);
    TotalAround(files[..i], f, files[i + 1..], bs);
  }

  lemma {:induction false} TotalSizes(a: seq<File>, b: seq<File>, bs: nat)
    requires 0 < bs && |a| == |b| && forall k | 0 <= k < |a| :: a[k].size == b[k].size
    ensures TotalBlocks(a, bs) == TotalBlocks(b, bs)
  {
    if a != [] {
      TotalSizes(a[..|a| - 1], b[..|b| - 1], bs);
    }
  }

  /** Free blocks and those of the files are the disk. */
  lemma SoundTotal(fs: Fs, bs: nat)
    requires 0 < bs && FsOk(fs, bs)
    ensures CountClear(fs.bits) + TotalBlocks(fs.files, bs) == |fs.bits|
  {
    BlocksConserved(fs.files, fs.bits, bs);
  }

  lemma CompactedTotal(fs: Fs, i: nat, size: nat, bs: nat)
    requires 0 < bs && FsOk(fs, bs) && i < |fs.files|
    ensures TotalBlocks(Compacted(fs, i, size, bs).files, bs) ==
            TotalBlocks(fs.files, bs) - Blocks(fs.files[i].size, bs) + Blocks(size, bs)
  {
    var order := Arranged(fs.files, fs.files[i].name);
    ArrangedDisk(fs, i, bs);
    BlocksConserved(order, fs.bits, bs);
    SoundTotal(fs, bs);
    RegrownTotal(fs, order, size, bs);
  }

  lemma RegrownTotal(fs: Fs, order: seq<File>, size: nat, bs: nat)
    requires 0 < bs && order != []
    ensures TotalBlocks(Regrown(fs, order, size, bs).files, bs) ==
            TotalBlocks(order, bs) - Blocks(order[|order| - 1].size, bs) + Blocks(size, bs)
  {
    var files, t := Regrown(fs, order, size, bs).files, |order| - 1;
    RegrownFiles(fs, order, size, bs);
    TotalSizes(files[..t], order[..t], bs);
  }

  lemma CarriedTotal(fs: Fs, i: nat, plan: Plan, size: nat, bs: nat)
    requires 0 < bs && FsOk(fs, bs) && i < |fs.files| && !plan.Fail?
    requires plan.Shrink? ==> CeilDiv(size, bs) <= Blocks(fs.files[i].size, bs)
    ensures TotalBlocks(Carried(fs, i, plan, size, bs).files, bs) ==
            TotalBlocks(fs.files, bs) - Blocks(fs.files[i].size, bs) + Blocks(size, bs)
  {
    if plan.Compact? {
      CompactedTotal(fs, i, size, bs);
    } else {
      var f := if plan.MoveTo? then File(fs.files[i].name, plan.p, size)
               else File(fs.files[i].name, fs.files[i].start, size);
      TotalUpdate(fs.files, i, f, bs);
    }
  }

  lemma PlanShrinks(fs: Fs, i: nat, size: nat, beyond: nat -> bool, bs: nat)
    requires 0 < bs && i < |fs.files|
    ensures PlanOf(fs, i, size, beyond, bs).Shrink? ==> CeilDiv(size, bs) <= Blocks(fs.files[i].size, bs)
  {
  }

  /** A TRUNCATE that finds room leaves the other blocks free, wherever it puts the file. */
  lemma TruncatedFree(fs: Fs, i: nat, size: nat, beyond: nat -> bool, bs: nat)
    requires 0 < bs && FsOk(fs, bs) && i < |fs.files| && TruncateSafe(fs, i, size, beyond, bs)
    requires !PlanOf(fs, i, size, beyond, bs).Fail?
    ensures CountClear(Truncated(fs, i, size, beyond, bs).bits) ==
            CountClear(fs.bits) + Blocks(fs.files[i].size, bs) - Blocks(size, bs)
  {
    PlanShrinks(fs, i, size, beyond, bs);
    CarriedTotal(fs, i, PlanOf(fs, i, size, beyond, bs), size, bs);
    TruncatedOkIff(fs, i, size, beyond, bs);
    SoundTotal(fs, bs);
    SoundTotal(Truncated(fs, i, size, beyond, bs), bs);
    TruncatedSize(fs, i, PlanOf(fs, i, size, beyond, bs), size, bs);
  }

  lemma TruncatedSize(fs: Fs, i: nat, plan: Plan, size: nat, bs: nat)
    requires 0 < bs && i < |fs.files| && (plan.Shrink? ==> CeilDiv(size, bs) <= Blocks(fs.files[i].size, bs))
    ensures |Carried(fs, i, plan, size, bs).bits| == |fs.bits|
  {
  }

  lemma NeedsItsBlocks(size: nat, bs: nat)
    requires 0 < bs
    ensures CeilDiv(size, bs) <= Blocks(size, bs)
  {
    CeilBelowBlocks(File("", 0, size), bs);
  }

  lemma RoomSuffices(fs: Fs, i: nat, size: nat, beyond: nat -> bool, bs: nat)
    requires 0 < bs && FsOk(fs, bs) && i < |fs.files| && TruncateSafe(fs, i, size, beyond, bs)
    requires !PlanOf(fs, i, size, beyond, bs).Fail?
    ensures CeilDiv(size, bs) <= CountClear(fs.bits) + Blocks(fs.files[i].size, bs)
  {
    TruncatedFree(fs, i, size, beyond, bs);
    NeedsItsBlocks(size, bs);
  }

  lemma FailsShort(fs: Fs, i: nat, size: nat, beyond: nat -> bool, bs: nat)
    requires 0 < bs && i < |fs.files| && PlanOf(fs, i, size, beyond, bs).Fail?
    ensures CountClear(fs.bits) + Blocks(fs.files[i].size, bs) < CeilDiv(size, bs)
  {
  }

  /**
   A safe TRUNCATE finds no room exactly when the free blocks and its own are fewer than the new size
   needs: however the free blocks are scattered, no room is lost.
   */
  lemma NoRoomIff(fs: Fs, i: nat, size: nat, beyond: nat -> bool, bs: nat)
    requires 0 < bs && FsOk(fs, bs) && i < |fs.files| && TruncateSafe(fs, i, size, beyond, bs)
    ensures PlanOf(fs, i, size, beyond, bs).Fail? <==>
            CountClear(fs.bits) + Blocks(fs.files[i].size, bs) < CeilDiv(size, bs)
  {
    if PlanOf(fs, i, size, beyond, bs).Fail? {
      FailsShort(fs, i, size, beyond, bs);
    } else {
      RoomSuffices(fs, i, size, beyond, bs);
    }
  }

  /** The free blocks after a safe operation. */
  ghost function FreeAfter(fs: Fs, op: Op, bs: nat): int
    requires 0 < bs && Possible(fs, op, bs)
  {
    var i, free := Find(fs.files, op.name), CountClear(fs.bits);
    match op
    case Create(_) => if i < |fs.files| then free else free - 1
    case Delete(_) => if i < |fs.files| then free + Blocks(fs.files[i].size, bs) else free
    case Truncate(_, size, _) =>
      if free + Blocks(fs.files[i].size, bs) < CeilDiv(size, bs) then free
      else free + Blocks(fs.files[i].size, bs) - Blocks(size, bs)
    case Write(_, _, _) => free
  }

  lemma CreatedTotal(fs: Fs, op: Op, bs: nat)
    requires 0 < bs && FsOk(fs, bs) && op.Create? && Safe(fs, op, bs)
    ensures TotalBlocks(Step(fs, op, bs).files, bs) ==
            TotalBlocks(fs.files, bs) + if Find(fs.files, op.name) < |fs.files| then 0 else 1
  {
    FoundIff(fs.files, fs.metadata, op.name);
    if op.name !in fs.metadata {
      var r := FirstRun(fs.bits, 1);
      if r == |fs.bits| {
        CreatedOkIff(fs, op.name, r, bs);
        BlankIsStray(fs, op.name);
      }
      TotalAround(fs.files, File(op.name, r, 0), [], bs);
      assert fs.files + [File(op.name, r, 0)] + [] == fs.files + [File(op.name, r, 0)];
    }
  }

  lemma TruncateFree(fs: Fs, op: Op, bs: nat)
    requires 0 < bs && FsOk(fs, bs) && op.Truncate? && Possible(fs, op, bs) && Safe(fs, op, bs)
    ensures CountClear(Step(fs, op, bs).bits) == FreeAfter(fs, op, bs)
  {
    var i := Find(fs.files, op.name);
    NoRoomIff(fs, i, op.size, op.beyond, bs);
    if !PlanOf(fs, i, op.size, op.beyond, bs).Fail? {
      TruncatedFree(fs, i, op.size, op.beyond, bs);
    }
  }

  lemma StepTotal(fs: Fs, op: Op, bs: nat)
    requires 0 < bs && FsOk(fs, bs) && Possible(fs, op, bs) && Safe(fs, op, bs)
    ensures CountClear(Step(fs, op, bs).bits) + TotalBlocks(Step(fs, op, bs).files, bs) ==
            CountClear(fs.bits) + TotalBlocks(fs.files, bs)
  {
    StepOkIff(fs, op, bs);
    StepSize(fs, op, bs);
    SoundTotal(fs, bs);
    SoundTotal(Step(fs, op, bs), bs);
  }

  lemma DeletedTotal(fs: Fs, op: Op, bs: nat)
    requires 0 < bs && op.Delete?
    ensures var i := Find(fs.files, op.name);
            TotalBlocks(Step(fs, op, bs).files, bs) ==
            TotalBlocks(fs.files, bs) - if i < |fs.files| then Blocks(fs.files[i].size, bs) else 0
  {
    var i := Find(fs.files, op.name);
    if i < |fs.files| {
      TotalUpdate(fs.files, i, fs.files[i], bs);
    }
  }

  lemma StepFree(fs: Fs, op: Op, bs: nat)
    requires 0 < bs && FsOk(fs, bs) && Possible(fs, op, bs) && Safe(fs, op, bs)
    ensures CountClear(Step(fs, op, bs).bits) == FreeAfter(fs, op, bs)
  {
    match op
    case Create(_) =>
      StepTotal(fs, op, bs);
      CreatedTotal(fs, op, bs);
    case Delete(_) =>
      StepTotal(fs, op, bs);
      DeletedTotal(fs, op, bs);
    case Truncate(_, _, _) => TruncateFree(fs, op, bs);
    case Write(_, _, _) =>
  }
}
