/**
 TRUNCATE as a whole (entradasalida/src/instrucciones_io.c:194-431): which branch runs, when the
 result is a sound file system, and that no branch loses a byte of any file.
 */
module Truncation {
  import opened Arith
  import opened Bits
  import opened FlatMemory
  import opened FileSystem
  import opened FileOps
  import opened FileData
  import opened FileOrder
  import opened Compaction
  import opened Repacking

  /** The branch that runs. `MoveTo` may name the place where the file already is. */
  datatype Plan = Shrink | Keep | Stay | MoveTo(p: nat) | Compact | Fail

  /** `beyond` is what lies in memory after the bitmap; the first scan may look there. */
  ghost function PlanOf(fs: Fs, i: nat, size: nat, beyond: nat -> bool, bs: nat): Plan
    requires 0 < bs && i < |fs.files|
  {
    var need, occ := CeilDiv(size, bs), Blocks(fs.files[i].size, bs);
    var p := FirstRun(SearchBits(fs, i, bs), need);
    if need < occ then Shrink
    else if need == occ then Keep
    else if InPlaceAccepted(fs, beyond, i, size, bs) then Stay
    else if p < |fs.bits| then MoveTo(p)
    else if CountClear(fs.bits) + occ >= need then Compact
    else Fail
  }

  /** What a branch makes of the file system. */
  ghost function Carried(fs: Fs, i: nat, plan: Plan, size: nat, bs: nat): Fs
    requires 0 < bs && i < |fs.files| && (plan.Shrink? ==> CeilDiv(size, bs) <= Blocks(fs.files[i].size, bs))
  {
    match plan
    case Shrink => Shrunk(fs, i, size, bs)
    case Keep => Resized(fs, i, size)
    case Stay => InPlace(fs, i, size, bs)
    case MoveTo(p) => Relocated(fs, i, p, size, bs)
    case Compact => Compacted(fs, i, size, bs)
    case Fail => fs
  }

  ghost function Truncated(fs: Fs, i: nat, size: nat, beyond: nat -> bool, bs: nat): Fs
    requires 0 < bs && i < |fs.files|
  {
    Carried(fs, i, PlanOf(fs, i, size, beyond, bs), size, bs)
  }

  /** What the caller has to see to for the result to be sound. */
  ghost predicate TruncateSafe(fs: Fs, i: nat, size: nat, beyond: nat -> bool, bs: nat)
    requires 0 < bs && i < |fs.files|
  {
    match PlanOf(fs, i, size, beyond, bs)
    case Shrink => 0 < size
    case Stay => RoomAfter(fs, i, size, bs)
    case Compact => OthersNotEmpty(fs, i) && Behind(fs, i, bs) <= Marked(fs, bs)
    case _ => true
  }

  /** From a sound file system, TRUNCATE leads to a sound one exactly in the safe cases. */
  lemma TruncatedOkIff(fs: Fs, i: nat, size: nat, beyond: nat -> bool, bs: nat)
    requires 0 < bs && FsOk(fs, bs) && i < |fs.files|
    ensures FsOk(Truncated(fs, i, size, beyond, bs), bs) <==> TruncateSafe(fs, i, size, beyond, bs)
  {
    match PlanOf(fs, i, size, beyond, bs)
    case Shrink => ShrunkOkIff(fs, i, size, bs);
    case Keep => ResizedOk(fs, i, size, bs);
    case Stay => InPlaceOkIff(fs, beyond, i, size, bs);
    case MoveTo(p) => RelocatedOk(fs, i, p, size, bs);
    case Compact => CompactedOkIff(fs, i, size, bs);
    case Fail =>
  }

  /** The disk is one that the branch can work on; a sound file system's is. */
  ghost predicate DataReady(fs: Fs, i: nat, plan: Plan, size: nat, data: seq<Byte>, bs: nat)
    requires 0 < bs && i < |fs.files|
  {
    var f := fs.files[i];
    && |data| == |fs.bits| * bs
    && (plan.Shrink? ==> CeilDiv(size, bs) <= Blocks(f.size, bs) && (f.start + Blocks(f.size, bs)) * bs <= |data|)
    && (plan.MoveTo? ==>
          (f.start + Blocks(f.size, bs)) * bs <= |data| && plan.p * bs + Blocks(f.size, bs) * bs <= |data|)
    && (plan.Compact? ==> Compactable(data, Arranged(fs.files, f.name), |fs.bits|, bs))
  }

  lemma SoundIsReady(fs: Fs, i: nat, size: nat, beyond: nat -> bool, data: seq<Byte>, bs: nat)
    requires 0 < bs && FsOk(fs, bs) && i < |fs.files| && |data| == |fs.bits| * bs
    ensures DataReady(fs, i, PlanOf(fs, i, size, beyond, bs), size, data, bs)
  {
    match PlanOf(fs, i, size, beyond, bs)
    case Shrink => ShrinkKeeps(fs, i, size, data, bs);
    case MoveTo(p) => RelocationKeeps(fs, i, p, size, data, bs);
    case Compact => CompactionFits(fs, i, data, bs);
    case _ =>
  }

  ghost function TruncatedData(fs: Fs, i: nat, plan: Plan, size: nat, data: seq<Byte>, bs: nat): (r: seq<Byte>)
    requires 0 < bs && i < |fs.files| && DataReady(fs, i, plan, size, data, bs)
    ensures |r| == |data|
  {
    var f := fs.files[i];
    match plan
    case Shrink => ShrunkData(data, f, size, bs)
    case MoveTo(p) => if p == f.start then data else MovedData(data, f, p, bs)
    case Compact => CompactedData(data, Arranged(fs.files, f.name), |fs.bits|, bs)
    case _ => data
  }

  /** The blocks after a TRUNCATE on a sound file system. */
  ghost function TruncatedDisk(fs: Fs, i: nat, size: nat, beyond: nat -> bool, data: seq<Byte>, bs: nat): (r: seq<Byte>)
    requires 0 < bs && FsOk(fs, bs) && i < |fs.files| && |data| == |fs.bits| * bs
    ensures |r| == |data|
  {
    SoundIsReady(fs, i, size, beyond, data, bs);
    TruncatedData(fs, i, PlanOf(fs, i, size, beyond, bs), size, data, bs)
  }

  lemma KeptIsPreserved(fs: Fs, i: nat, j: nat, start: nat, size: nat, bits: seq<bool>, data: seq<Byte>,
          data': seq<Byte>, bs: nat)
    requires i < |fs.files| && j < |fs.files| && j != i && OthersKept(fs.files, i, data, data', bs)
    ensures Preserved(fs.files[j], Resettled(fs, i, start, size, bits).files, data, data', bs)
  {
    assert Resettled(fs, i, start, size, bits).files[j] == fs.files[j];
  }

  lemma UntouchedIsKept(fs: Fs, i: nat, data: seq<Byte>, bs: nat)
    requires 0 < bs && FsOk(fs, bs) && |data| == |fs.bits| * bs
    ensures OthersKept(fs.files, i, data, data, bs)
  {
    AllOnDisk(fs.files, data, |fs.bits|, bs);
  }

  /** No branch of TRUNCATE, safe or not, loses another file or one of its bytes. */
  lemma TruncateKeepsOthers(fs: Fs, i: nat, j: nat, size: nat, beyond: nat -> bool, data: seq<Byte>, bs: nat)
    requires 0 < bs && FsOk(fs, bs) && i < |fs.files| && j < |fs.files| && j != i && |data| == |fs.bits| * bs
    ensures Preserved(fs.files[j], Truncated(fs, i, size, beyond, bs).files, data,
                      TruncatedDisk(fs, i, size, beyond, data, bs), bs)
  {
    var plan, f := PlanOf(fs, i, size, beyond, bs), fs.files[i];
    var fs', data' := Truncated(fs, i, size, beyond, bs), TruncatedDisk(fs, i, size, beyond, data, bs);
    UntouchedIsKept(fs, i, data, bs);
    match plan
    case Shrink =>
      ShrinkKeeps(fs, i, size, data, bs);
      KeptIsPreserved(fs, i, j, f.start, size, fs'.bits, data, data', bs);
    case MoveTo(p) =>
      RelocationKeeps(fs, i, p, size, data, bs);
      KeptIsPreserved(fs, i, j, p, size, fs'.bits, data, data', bs);
    case Compact =>
      CompactionKeeps(fs, i, j, size, data, bs);
    case Fail =>
      assert fs'.files[j] == fs.files[j];
    case _ =>
      KeptIsPreserved(fs, i, j, f.start, size, fs'.bits, data, data', bs);
  }

  /** Where the truncated file starts afterwards. */
  ghost function NewStart(fs: Fs, i: nat, plan: Plan, bs: nat): nat
    requires 0 < bs && i < |fs.files|
  {
    match plan
    case MoveTo(p) => p
    case Compact => if Behind(fs, i, bs) < 0 then 0 else Behind(fs, i, bs)
    case _ => fs.files[i].start
  }

  /** It keeps the bytes that its old and new size have in common. */
  lemma TruncateKeepsOwn(fs: Fs, i: nat, size: nat, beyond: nat -> bool, data: seq<Byte>, bs: nat)
    requires 0 < bs && FsOk(fs, bs) && i < |fs.files| && |data| == |fs.bits| * bs
    ensures Common(data, fs.files[i], TruncatedDisk(fs, i, size, beyond, data, bs),
                   NewStart(fs, i, PlanOf(fs, i, size, beyond, bs), bs), size, bs)
  {
    var plan, f := PlanOf(fs, i, size, beyond, bs), fs.files[i];
    var data' := TruncatedDisk(fs, i, size, beyond, data, bs);
    AllOnDisk(fs.files, data, |fs.bits|, bs);
    match plan
    case Shrink =>
      ShrinkKeeps(fs, i, size, data, bs);
    case MoveTo(p) =>
      GrownIsLarger(f, size, bs);
      RelocationKeeps(fs, i, p, size, data, bs);
      WholeIsCommon(data, f, data', p, size, bs);
    case Compact =>
      GrownIsLarger(f, size, bs);
      CompactionKeepsOwn(fs, i, data, bs);
      WholeIsCommon(data, f, data', Behind(fs, i, bs), size, bs);
    case _ =>
      SameIsCommon(data, f, size, bs);
  }

  /** At `start` there are now the bytes of `f` that both sizes have. */
  ghost predicate Common(data: seq<Byte>, f: File, data': seq<Byte>, start: nat, size: nat, bs: nat) {
    var common := File(f.name, start, if size < f.size then size else f.size);
    && OnDisk(data, f, bs) && OnDisk(data', common, bs)
    && Content(data', common, bs) == Content(data, f, bs)[..common.size]
  }

  lemma WholeIsCommon(data: seq<Byte>, f: File, data': seq<Byte>, start: nat, size: nat, bs: nat)
    requires f.size <= size && OnDisk(data, f, bs) && OnDisk(data', File(f.name, start, f.size), bs)
    requires Content(data', File(f.name, start, f.size), bs) == Content(data, f, bs)
    ensures Common(data, f, data', start, size, bs)
  {
  }

  lemma SameIsCommon(data: seq<Byte>, f: File, size: nat, bs: nat)
    requires OnDisk(data, f, bs)
    ensures Common(data, f, data, f.start, size, bs)
  {
    SlicePrefix(data, f.start * bs, f.size, if size < f.size then size else f.size);
  }

  lemma GrownIsLarger(f: File, size: nat, bs: nat)
    requires 0 < bs && Blocks(f.size, bs) < CeilDiv(size, bs)
    ensures f.size < size
  {
    CeilBelowBlocks(f, bs);
    if size <= f.size {
      DivMonotone(size + bs - 1, f.size + bs - 1, bs);
    }
  }

  lemma CompactedEntry(fs: Fs, i: nat, size: nat, bs: nat)
    requires 0 < bs && FsOk(fs, bs) && i < |fs.files|
    ensures var files := Compacted(fs, i, size, bs).files;
            && files != [] && 0 <= Behind(fs, i, bs)
            && files[|files| - 1] == File(fs.files[i].name, Behind(fs, i, bs), size)
  {
    var order := Arranged(fs.files, fs.files[i].name);
    ArrangedDisk(fs, i, bs);
    BehindIsUsed(fs, i, bs);
    RegrownFiles(fs, order, size, bs);
  }

  lemma ResettledEntry(fs: Fs, i: nat, start: nat, size: nat, bits: seq<bool>)
    requires i < |fs.files|
    ensures File(fs.files[i].name, start, size) in Resettled(fs, i, start, size, bits).files
  {
    assert Resettled(fs, i, start, size, bits).files[i] == File(fs.files[i].name, start, size);
  }

  /** The list then has the file at that place with the new size, unless TRUNCATE failed. */
  lemma TruncatedEntry(fs: Fs, i: nat, size: nat, beyond: nat -> bool, bs: nat)
    requires 0 < bs && FsOk(fs, bs) && i < |fs.files|
    ensures var plan, fs' := PlanOf(fs, i, size, beyond, bs), Truncated(fs, i, size, beyond, bs);
            if plan.Fail? then fs' == fs else File(fs.files[i].name, NewStart(fs, i, plan, bs), size) in fs'.files
  {
    var plan, fs' := PlanOf(fs, i, size, beyond, bs), Truncated(fs, i, size, beyond, bs);
    match plan
    case Compact => CompactedEntry(fs, i, size, bs);
    case Fail =>
    case _ => ResettledEntry(fs, i, NewStart(fs, i, plan, bs), size, fs'.bits);
  }

  // Where compaction goes wrong

  /** Three one-byte files on blocks 0, 2 and 4 of a disk of eight 16-byte blocks. */
  function Scattered(): Fs {
    Fs([true, false, true, false, true, false, false, false],
       [File("a", 0, 1), File("b", 2, 1), File("c", 4, 1)],
       map["a" := Metadata(0, 1), "b" := Metadata(2, 1), "c" := Metadata(4, 1)])
  }

  lemma ScatteredExtents()
    ensures ExtentsOk(Scattered().files, 8, 16) && MetadataOk(Scattered().files, Scattered().metadata)
  {
    var fs := Scattered();
    assert "a"[0] != "b"[0] && "a"[0] != "c"[0] && "b"[0] != "c"[0];
    assert Blocks(1, 16) == 1;
    forall name | name in fs.metadata
      ensures exists k :: 0 <= k < |fs.files| && fs.files[k].name == name
    {
      assert fs.files[0].name == "a" && fs.files[1].name == "b" && fs.files[2].name == "c";
    }
  }

  lemma ScatteredBits()
    ensures BitsOk(Scattered().bits, Scattered().files, 16)
  {
    var fs := Scattered();
    assert Blocks(1, 16) == 1;
    forall b | 0 <= b < 8
      ensures fs.bits[b] <==> Taken(fs.files, b, 16)
    {
      assert Has(fs.files[0], b, 16) <==> b == 0;
      assert Has(fs.files[1], b, 16) <==> b == 2;
      assert Has(fs.files[2], b, 16) <==> b == 4;
    }
  }

  lemma ScatteredSums()
    ensures var fs := Scattered();
            TotalBytes(fs.files) == 3 && Used(fs.files, 16) == 3 && TotalBlocks(fs.files, 16) == 3
  {
    var a, b, c := File("a", 0, 1), File("b", 2, 1), File("c", 4, 1);
    assert [a, b, c][..2] == [a, b] && [a, b][..1] == [a] && [a][..0] == [];
    assert CeilDiv(1, 16) == 1 && Blocks(1, 16) == 1;
    assert TotalBytes([a]) == 1 && TotalBytes([a, b]) == 2;
    assert Used([a], 16) == 1 && Used([a, b], 16) == 2;
    assert TotalBlocks([a], 16) == 1 && TotalBlocks([a, b], 16) == 2;
  }

  lemma ScatteredRuns(bits: seq<bool>, p: nat)
    requires |bits| == 8 && bits[0] && bits[2] && bits[4]
    ensures !FreeRun(bits, p, 5)
  {
    if p + 5 <= 8 {
      assert bits[if p == 0 then 0 else if p <= 2 then 2 else 4];
    }
  }

  lemma ScatteredCompacts(beyond: nat -> bool)
    requires CountClear(Scattered().bits) == 5
    ensures PlanOf(Scattered(), 0, 80, beyond, 16) == Compact
  {
    var fs := Scattered();
    assert CeilDiv(80, 16) == 5 && Blocks(1, 16) == 1 && SearchOwn(fs.files[0], 16) == 0;
    assert BitAt(fs.bits, beyond, 2);
    var p := FirstRun(SearchBits(fs, 0, 16), 5);
    ScatteredRuns(SearchBits(fs, 0, 16), p);
  }

  /** Growing the first to five blocks compacts, and marks one block for the two that the others take. */
  lemma CompactionUnmarks(beyond: nat -> bool)
    ensures FsOk(Scattered(), 16) && PlanOf(Scattered(), 0, 80, beyond, 16) == Compact
    ensures !FsOk(Truncated(Scattered(), 0, 80, beyond, 16), 16)
  {
    var fs := Scattered();
    ScatteredExtents();
    ScatteredBits();
    ScatteredSums();
    BlocksConserved(fs.files, fs.bits, 16);
    ScatteredCompacts(beyond);
    assert Marked(fs, 16) == 1 && Behind(fs, 0, 16) == 2;
    TruncatedOkIff(fs, 0, 80, beyond, 16);
  }
}
