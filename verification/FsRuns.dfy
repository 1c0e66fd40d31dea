/** Runs of DialFS operations: exactly which ones keep the file system sound throughout. */
module FsRuns {
  import opened Bits
  import opened FlatMemory
  import opened FileSystem
  import opened FileOps
  import opened FileData
  import opened Repacking
  import opened Truncation

  /** An operation that changes the disk; `beyond` is the memory after the bitmap at that moment. */
  datatype Op =
    | Create(name: string)
    | Delete(name: string)
    | Truncate(name: string, size: nat, beyond: nat -> bool)
    | Write(name: string, ptr: nat, text: seq<Byte>)

  /** TRUNCATE and WRITE need a file, and WRITE has to end on the disk; the others answer that there is none. */
  predicate Possible(fs: Fs, op: Op, bs: nat)
    requires 0 < bs
  {
    match op
    case Truncate(name, _, _) => Find(fs.files, name) < |fs.files|
    case Write(name, ptr, text) =>
      var i := Find(fs.files, name);
      i < |fs.files| && fs.files[i].start * bs + ptr + |text| <= |fs.bits| * bs
    case _ => true
  }

  ghost function Step(fs: Fs, op: Op, bs: nat): Fs
    requires 0 < bs && Possible(fs, op, bs)
  {
    match op
    case Create(name) => Created(fs, name, FirstRun(fs.bits, 1))
    case Delete(name) => var i := Find(fs.files, name); if i < |fs.files| then Deleted(fs, i, bs) else fs
    case Truncate(name, size, beyond) => Truncated(fs, Find(fs.files, name), size, beyond, bs)
    case Write(_, _, _) => fs
  }

  ghost predicate Safe(fs: Fs, op: Op, bs: nat)
    requires 0 < bs && Possible(fs, op, bs)
  {
    match op
    case Create(name) => name in fs.metadata || exists b :: 0 <= b < |fs.bits| && !fs.bits[b]
    case Delete(_) => true
    case Truncate(name, size, beyond) => TruncateSafe(fs, Find(fs.files, name), size, beyond, bs)
    case Write(_, _, _) => true
  }

  lemma StepOkIff(fs: Fs, op: Op, bs: nat)
    requires 0 < bs && FsOk(fs, bs) && Possible(fs, op, bs)
    ensures FsOk(Step(fs, op, bs), bs) <==> Safe(fs, op, bs)
  {
    match op
    case Create(name) => CreatedOkIff(fs, name, FirstRun(fs.bits, 1), bs);
    case Delete(name) =>
      if Find(fs.files, name) < |fs.files| {
        DeletedOk(fs, Find(fs.files, name), bs);
      }
    case Truncate(name, size, beyond) => TruncatedOkIff(fs, Find(fs.files, name), size, beyond, bs);
    case Write(_, _, _) =>
  }

  /** Every operation of the run finds its file and is safe where it happens. */
  ghost predicate RunSafe(fs: Fs, ops: seq<Op>, bs: nat)
    requires 0 < bs
    decreases |ops|
  {
    ops == [] || (Possible(fs, ops[0], bs) && Safe(fs, ops[0], bs) && RunSafe(Step(fs, ops[0], bs), ops[1..], bs))
  }

  /** Every operation of the run finds its file, and every state along it is sound. */
  ghost predicate RunOk(fs: Fs, ops: seq<Op>, bs: nat)
    requires 0 < bs
    decreases |ops|
  {
    FsOk(fs, bs) && (ops == [] || (Possible(fs, ops[0], bs) && RunOk(Step(fs, ops[0], bs), ops[1..], bs)))
  }

  lemma {:induction false} RunOkIff(fs: Fs, ops: seq<Op>, bs: nat)
    requires 0 < bs && FsOk(fs, bs)
    ensures RunOk(fs, ops, bs) <==> RunSafe(fs, ops, bs)
    decreases |ops|
  {
    if ops != [] && Possible(fs, ops[0], bs) {
      var next := Step(fs, ops[0], bs);
      StepOkIff(fs, ops[0], bs);
      if FsOk(next, bs) {
        RunOkIff(next, ops[1..], bs);
      }
    }
  }

  /** The disk that manejar_archivos_fs formats. */
  function Formatted(count: nat): Fs {
    Fs(seq(count, _ => false), [], map[])
  }

  /** From a fresh disk, all states of a run are sound exactly when each operation is safe where it happens. */
  lemma RunsFromFormatted(count: nat, ops: seq<Op>, bs: nat)
    requires 0 < bs
    ensures RunOk(Formatted(count), ops, bs) <==> RunSafe(Formatted(count), ops, bs)
  {
    RunOkIff(Formatted(count), ops, bs);
  }

  // Contents over a run

  ghost function StepData(fs: Fs, op: Op, data: seq<Byte>, bs: nat): (r: seq<Byte>)
    requires 0 < bs && FsOk(fs, bs) && Possible(fs, op, bs) && |data| == |fs.bits| * bs
    ensures |r| == |data|
  {
    match op
    case Truncate(name, size, beyond) => TruncatedDisk(fs, Find(fs.files, name), size, beyond, data, bs)
    case Write(name, ptr, text) =>
      var i := Find(fs.files, name);
      Splice(data, fs.files[i].start * bs + ptr, text)
    case _ => data
  }

  /** File `j` has this name and these bytes. */
  ghost predicate HoldsAt(files: seq<File>, j: nat, data: seq<Byte>, name: string, content: seq<Byte>, bs: nat) {
    j < |files| && files[j].name == name && OnDisk(data, files[j], bs) && Content(data, files[j], bs) == content
  }

  /** There is such a file. */
  ghost predicate Holds(files: seq<File>, data: seq<Byte>, name: string, content: seq<Byte>, bs: nat) {
    exists k :: 0 <= k < |files| && HoldsAt(files, k, data, name, content, bs)
  }

  lemma PreservedHolds(f: File, files': seq<File>, data: seq<Byte>, data': seq<Byte>, content: seq<Byte>, bs: nat)
    requires Preserved(f, files', data, data', bs) && OnDisk(data, f, bs) && Content(data, f, bs) == content
    ensures Holds(files', data', f.name, content, bs)
  {
    var k :| 0 <= k < |files'| && files'[k].name == f.name && files'[k].size == f.size &&
             OnDisk(data, f, bs) && OnDisk(data', files'[k], bs) &&
                 Content(data', files'[k], bs) == Content(data, f, bs);
    assert HoldsAt(files', k, data', f.name, content, bs);
  }

  /** The size of the disk does not change. */
  lemma StepSize(fs: Fs, op: Op, bs: nat)
    requires 0 < bs && Possible(fs, op, bs)
    ensures |Step(fs, op, bs).bits| == |fs.bits|
  {
  }

  lemma CreatePreserves(fs: Fs, op: Op, j: nat, data: seq<Byte>, name: string, content: seq<Byte>, bs: nat)
    requires 0 < bs && op.Create? && HoldsAt(fs.files, j, data, name, content, bs)
    ensures HoldsAt(Step(fs, op, bs).files, j, data, name, content, bs)
  {
  }

  lemma DeletePreserves(fs: Fs, op: Op, j: nat, data: seq<Byte>, name: string, content: seq<Byte>, bs: nat)
    requires 0 < bs && op.Delete? && op.name != name && HoldsAt(fs.files, j, data, name, content, bs)
    ensures Holds(Step(fs, op, bs).files, data, name, content, bs)
  {
    var i := Find(fs.files, op.name);
    if i < |fs.files| {
      RemovedAt(fs.files, i, if j < i then j else j - 1);
      assert HoldsAt(Step(fs, op, bs).files, if j < i then j else j - 1, data, name, content, bs);
    }
  }

  lemma TruncatePreserves(fs: Fs, op: Op, j: nat, data: seq<Byte>, name: string, content: seq<Byte>, bs: nat)
    requires 0 < bs && FsOk(fs, bs) && op.Truncate? && Possible(fs, op, bs) && |data| == |fs.bits| * bs
    requires op.name != name && HoldsAt(fs.files, j, data, name, content, bs)
    ensures Holds(Step(fs, op, bs).files, StepData(fs, op, data, bs), name, content, bs)
  {
    TruncateKeepsOthers(fs, Find(fs.files, op.name), j, op.size, op.beyond, data, bs);
    PreservedHolds(fs.files[j], Step(fs, op, bs).files, data, StepData(fs, op, data, bs), content, bs);
  }

  /** The operation is on another file, and a WRITE, wherever it goes, misses the bytes of this one. */
  ghost predicate Spares(fs: Fs, op: Op, name: string, bs: nat)
    requires 0 < bs && Possible(fs, op, bs)
  {
    op.name != name &&
    (op.Write? ==>
       forall k | 0 <= k < |fs.files| && fs.files[k].name == name ::
         Misses(fs.files[k], fs.files[Find(fs.files, op.name)].start * bs + op.ptr, |op.text|, bs))
  }

  /** A WRITE within the blocks of its own file spares every other one. */
  lemma OwnWriteSpares(fs: Fs, op: Op, name: string, bs: nat)
    requires 0 < bs && FsOk(fs, bs) && op.Write? && Possible(fs, op, bs) && op.name != name
    requires op.ptr + |op.text| <= Blocks(fs.files[Find(fs.files, op.name)].size, bs) * bs
    ensures Spares(fs, op, name, bs)
  {
    var i := Find(fs.files, op.name);
    forall k | 0 <= k < |fs.files| && fs.files[k].name == name
      ensures Misses(fs.files[k], fs.files[i].start * bs + op.ptr, |op.text|, bs)
    {
      assert if k < i then Apart(fs.files[k], fs.files[i], bs) else Apart(fs.files[i], fs.files[k], bs);
      WithinMisses(fs.files[i], fs.files[k], op.ptr, |op.text|, bs);
    }
  }

  lemma SparesMisses(fs: Fs, op: Op, j: nat, bs: nat)
    requires 0 < bs && op.Write? && Possible(fs, op, bs) && j < |fs.files| && Spares(fs, op, fs.files[j].name, bs)
    ensures Misses(fs.files[j], fs.files[Find(fs.files, op.name)].start * bs + op.ptr, |op.text|, bs)
  {
  }

  lemma MissedHolds(files: seq<File>, j: nat, data: seq<Byte>, at: nat, text: seq<Byte>, name: string,
          content: seq<Byte>, bs: nat)
    requires HoldsAt(files, j, data, name, content, bs) && at + |text| <= |data| && Misses(files[j], at, |text|, bs)
    ensures HoldsAt(files, j, Splice(data, at, text), name, content, bs)
  {
    MissedKept(files[j], at, text, data, bs);
  }

  lemma WritePreserves(fs: Fs, op: Op, j: nat, data: seq<Byte>, name: string, content: seq<Byte>, bs: nat)
    requires 0 < bs && FsOk(fs, bs) && op.Write? && Possible(fs, op, bs) && |data| == |fs.bits| * bs
    requires HoldsAt(fs.files, j, data, name, content, bs) && Spares(fs, op, name, bs)
    ensures HoldsAt(fs.files, j, StepData(fs, op, data, bs), name, content, bs)
  {
    var at := fs.files[Find(fs.files, op.name)].start * bs + op.ptr;
    SparesMisses(fs, op, j, bs);
    MissedHolds(fs.files, j, data, at, op.text, name, content, bs);
    assert StepData(fs, op, data, bs) == Splice(data, at, op.text);
  }

  /** An operation that spares a file leaves it its bytes. */
  lemma StepPreserves(fs: Fs, op: Op, data: seq<Byte>, name: string, content: seq<Byte>, bs: nat)
    requires 0 < bs && FsOk(fs, bs) && Possible(fs, op, bs) && |data| == |fs.bits| * bs
    requires Holds(fs.files, data, name, content, bs) && Spares(fs, op, name, bs)
    ensures Holds(Step(fs, op, bs).files, StepData(fs, op, data, bs), name, content, bs)
  {
    var j :| 0 <= j < |fs.files| && HoldsAt(fs.files, j, data, name, content, bs);
    match op
    case Create(_) => CreatePreserves(fs, op, j, data, name, content, bs);
    case Delete(_) => DeletePreserves(fs, op, j, data, name, content, bs);
    case Truncate(_, _, _) => TruncatePreserves(fs, op, j, data, name, content, bs);
    case Write(_, _, _) => WritePreserves(fs, op, j, data, name, content, bs);
  }

  ghost function AfterData(fs: Fs, ops: seq<Op>, data: seq<Byte>, bs: nat): (Fs, seq<Byte>)
    requires 0 < bs && RunOk(fs, ops, bs) && |data| == |fs.bits| * bs
    decreases |ops|
  {
    if ops == [] then (fs, data) else
      StepSize(fs, ops[0], bs);
      AfterData(Step(fs, ops[0], bs), ops[1..], StepData(fs, ops[0], data, bs), bs)
  }

  /** Every operation of the run spares the file. */
  ghost predicate RunSpares(fs: Fs, ops: seq<Op>, name: string, bs: nat)
    requires 0 < bs && RunOk(fs, ops, bs)
    decreases |ops|
  {
    ops == [] || (Spares(fs, ops[0], name, bs) && RunSpares(Step(fs, ops[0], bs), ops[1..], name, bs))
  }

  /** Over any run of operations that spare it, compactions included, a file keeps every byte. */
  lemma {:induction false} RunPreserves(fs: Fs, ops: seq<Op>, data: seq<Byte>, name: string, content: seq<Byte>,
          bs: nat)
    requires 0 < bs && RunOk(fs, ops, bs) && |data| == |fs.bits| * bs
    requires Holds(fs.files, data, name, content, bs) && RunSpares(fs, ops, name, bs)
    ensures Holds(AfterData(fs, ops, data, bs).0.files, AfterData(fs, ops, data, bs).1, name, content, bs)
    decreases |ops|
  {
    if ops != [] {
      StepSize(fs, ops[0], bs);
      StepPreserves(fs, ops[0], data, name, content, bs);
      RunPreserves(Step(fs, ops[0], bs), ops[1..], StepData(fs, ops[0], data, bs), name, content, bs);
    }
  }
}
