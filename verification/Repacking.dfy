/**
 The file system that TRUNCATE leaves after compacting (entradasalida/src/instrucciones_io.c:250-335
 and 392-408): exactly when it is sound, and that every file is still there with its bytes.
 */
module Repacking {
  import opened Arith
  import opened Bits
  import opened FlatMemory
  import opened FileSystem
  import opened FileOps
  import opened FileData
  import opened FileOrder
  import opened Compaction

  // Counting blocks

  ghost function TotalBlocks(files: seq<File>, bs: nat): nat
    requires 0 < bs
  {
    if files == [] then 0 else TotalBlocks(files[..|files| - 1], bs) + Blocks(files[|files| - 1].size, bs)
  }

  lemma {:induction false} UsedBelowTotal(files: seq<File>, bs: nat)
    requires 0 < bs
    ensures Used(files, bs) <= TotalBlocks(files, bs)
  {
    if files != [] {
      UsedBelowTotal(files[..|files| - 1], bs);
      CeilBelowBlocks(files[|files| - 1], bs);
    }
  }

  lemma {:induction false} ClearOneBit(bits: seq<bool>, i: nat)
    requires i < |bits| && bits[i]
    ensures CountClear(bits[i := false]) == CountClear(bits) + 1
  {
    var init := bits[..|bits| - 1];
    if i < |init| {
      ClearOneBit(init, i);
      assert bits[i := false][..|bits| - 1] == init[i := false];
    } else {
      assert bits[i := false][..|bits| - 1] == init;
    }
  }

  lemma {:induction false} ClearBits(bits: seq<bool>, lo: nat, n: nat)
    requires lo + n <= |bits| && forall b | lo <= b < lo + n :: bits[b]
    ensures CountClear(Filled(bits, lo, n, false)) == CountClear(bits) + n
  {
    if n == 0 {
      assert Filled(bits, lo, n, false) == bits;
    } else {
      ClearBits(bits, lo, n - 1);
      ClearOneBit(Filled(bits, lo, n - 1, false), lo + n - 1);
      assert Filled(bits, lo, n, false) == Filled(bits, lo, n - 1, false)[lo + n - 1 := false];
    }
  }

  lemma {:induction false} AllClear(bits: seq<bool>)
    requires forall b | 0 <= b < |bits| :: !bits[b]
    ensures CountClear(bits) == |bits|
  {
    if bits != [] {
      AllClear(bits[..|bits| - 1]);
    }
  }

  /** Without its last file, and with that file's bits cleared, a disk is still described right. */
  lemma WithoutLast(files: seq<File>, bits: seq<bool>, bs: nat)
    requires 0 < bs && files != [] && ExtentsOk(files, |bits|, bs) && BitsOk(bits, files, bs)
    ensures var f := files[|files| - 1];
            && (forall b | f.start <= b < f.start + Blocks(f.size, bs) :: b < |bits| && bits[b])
            && BitsOk(Filled(bits, f.start, Blocks(f.size, bs), false), files[..|files| - 1], bs)
  {
    var k, f, init := |files| - 1, files[|files| - 1], files[..|files| - 1];
    forall b | f.start <= b < f.start + Blocks(f.size, bs)
      ensures b < |bits| && bits[b]
    {
      assert Has(files[k], b, bs);
    }
    forall b | 0 <= b < |bits|
      ensures (bits[b] && !Has(f, b, bs)) <==> Taken(init, b, bs)
    {
      LastOrInit(files, b, |bits|, bs);
    }
  }

  lemma LastOrInit(files: seq<File>, b: nat, count: nat, bs: nat)
    requires 0 < bs && files != [] && ExtentsOk(files, count, bs)
    ensures Taken(files[..|files| - 1], b, bs) <==> Taken(files, b, bs) && !Has(files[|files| - 1], b, bs)
  {
    var k, init := |files| - 1, files[..|files| - 1];
    if Taken(init, b, bs) {
      var j :| 0 <= j < |init| && Has(init[j], b, bs);
      assert Has(files[j], b, bs) && Apart(files[j], files[k], bs);
    }
    if Taken(files, b, bs) && !Has(files[k], b, bs) {
      var j :| 0 <= j < |files| && Has(files[j], b, bs);
      assert Has(init[j], b, bs);
    }
  }

  /** Free blocks and the blocks of all files make up the disk. */
  lemma {:induction false} BlocksConserved(files: seq<File>, bits: seq<bool>, bs: nat)
    requires 0 < bs && ExtentsOk(files, |bits|, bs) && BitsOk(bits, files, bs)
    ensures CountClear(bits) + TotalBlocks(files, bs) == |bits|
    decreases |files|
  {
    if files == [] {
      forall b | 0 <= b < |bits|
        ensures !bits[b]
      {
        assert !Taken(files, b, bs);
      }
      AllClear(bits);
    } else {
      var f := files[|files| - 1];
      WithoutLast(files, bits, bs);
      ClearBits(bits, f.start, Blocks(f.size, bs));
      BlocksConserved(files[..|files| - 1], Filled(bits, f.start, Blocks(f.size, bs), false), bs);
    }
  }

  // The packed list

  /** The arranged list is the same disk, and ends with the truncated file. */
  lemma ArrangedDisk(fs: Fs, i: nat, bs: nat)
    requires 0 < bs && FsOk(fs, bs) && i < |fs.files|
    ensures var order := Arranged(fs.files, fs.files[i].name);
            && ExtentsOk(order, |fs.bits|, bs) && BitsOk(fs.bits, order, bs) && MetadataOk(order, fs.metadata)
            && SameFiles(order, fs.files, bs) && SortedByStart(order[..|order| - 1])
            && order[|order| - 1] == fs.files[i]
  {
    var order := Arranged(fs.files, fs.files[i].name);
    ArrangedSame(fs.files, fs.files[i].name, bs);
    ArrangedLast(fs.files, i, bs);
    ExtentsSame(fs.files, order, |fs.bits|, bs);
    BitsSame(fs.files, order, fs.bits, bs);
    NamesSame(fs.files, order, fs.metadata);
    var last := order[|order| - 1];
    InSame(order, fs.files, last);
    var k :| 0 <= k < |fs.files| && fs.files[k] == last;
    assert k == i;
  }

  /** The guard of the compaction: with the free blocks and its own, the file fits behind the others. */
  lemma GuardFits(fs: Fs, i: nat, need: nat, bs: nat)
    requires 0 < bs && FsOk(fs, bs) && i < |fs.files|
    requires CountClear(fs.bits) + Blocks(fs.files[i].size, bs) >= need
    ensures var order := Arranged(fs.files, fs.files[i].name);
            Used(order[..|order| - 1], bs) + need <= |fs.bits|
  {
    var order := Arranged(fs.files, fs.files[i].name);
    ArrangedDisk(fs, i, bs);
    BlocksConserved(order, fs.bits, bs);
    UsedBelowTotal(order[..|order| - 1], bs);
  }

  /** actualizar_bloque_inicial on the metadata file of `f`. */
  function RestartedOne(metadata: map<string, Metadata>, f: File): map<string, Metadata> {
    if f.name in metadata && metadata[f.name].Metadata? then metadata[f.name := Metadata(f.start,
        metadata[f.name].size)]
    else metadata
  }

  /** actualizar_lista_archivos_compactados: each metadata file gets its new first block. */
  function Restarted(metadata: map<string, Metadata>, files: seq<File>): map<string, Metadata> {
    if files == [] then metadata else RestartedOne(Restarted(metadata, files[..|files| - 1]), files[|files| - 1])
  }

  lemma {:induction false} RestartedEntry(metadata: map<string, Metadata>, order: seq<File>, files: seq<File>, n: nat)
    requires MetadataOk(order, metadata) && n <= |order| == |files|
    requires forall k | 0 <= k < |order| :: files[k].name == order[k].name && files[k].size == order[k].size
    ensures var m := Restarted(metadata, files[..n]);
            && m.Keys == metadata.Keys
            && forall k | 0 <= k < |files| ::
                 m[files[k].name] == if k < n then Metadata(files[k].start, files[k].size) else metadata[files[k].name]
  {
    if n > 0 {
      assert files[..n][..n - 1] == files[..n - 1];
      RestartedEntry(metadata, order, files, n - 1);
      forall k | 0 <= k < |files|
        ensures files[k].name == files[n - 1].name <==> k == n - 1
      {
        assert order[k].name == order[n - 1].name ==> k == n - 1;
      }
    }
  }

  lemma RestartedOk(metadata: map<string, Metadata>, order: seq<File>, files: seq<File>)
    requires MetadataOk(order, metadata) && |order| == |files|
    requires forall k | 0 <= k < |order| :: files[k].name == order[k].name && files[k].size == order[k].size
    ensures MetadataOk(files, Restarted(metadata, files))
  {
    assert files[..|files|] == files;
    RestartedEntry(metadata, order, files, |files|);
    var m := Restarted(metadata, files);
    forall name | name in m
      ensures exists k :: 0 <= k < |files| && files[k].name == name
    {
      assert name in metadata;
      var k :| 0 <= k < |order| && order[k].name == name;
      assert files[k].name == name;
    }
  }

  /** Blocks that the code marks after clearing the bitmap. */
  function Marked(fs: Fs, bs: nat): nat
    requires 0 < bs
  {
    CeilDiv(TotalBytes(fs.files), bs)
  }

  /** The file system after the compaction proper, with the files in this order. */
  ghost function Repacked(fs: Fs, order: seq<File>, bs: nat): Fs
    requires 0 < bs
  {
    Fs(Filled(Filled(fs.bits, 0, |fs.bits|, false), 0, Marked(fs, bs), true), Placed(order, bs),
       Restarted(fs.metadata, Placed(order, bs)))
  }

  /** ... and after the truncation that caused it, of the last file. */
  ghost function Regrown(fs: Fs, order: seq<File>, size: nat, bs: nat): Fs
    requires 0 < bs && order != []
  {
    InPlace(Repacked(fs, order, bs), |order| - 1, size, bs)
  }

  ghost function Compacted(fs: Fs, i: nat, size: nat, bs: nat): Fs
    requires 0 < bs && i < |fs.files|
  {
    Regrown(fs, Arranged(fs.files, fs.files[i].name), size, bs)
  }

  /** Where the truncated file goes: after the blocks of all others. */
  function Behind(fs: Fs, i: nat, bs: nat): int
    requires 0 < bs && i < |fs.files|
  {
    Used(fs.files, bs) - CeilDiv(fs.files[i].size, bs)
  }

  lemma BehindIsUsed(fs: Fs, i: nat, bs: nat)
    requires 0 < bs && FsOk(fs, bs) && i < |fs.files|
    ensures var order := Arranged(fs.files, fs.files[i].name);
            Behind(fs, i, bs) == Used(order[..|order| - 1], bs)
  {
    ArrangedDisk(fs, i, bs);
  }

  /** `files` is a packed list whose last element has changed to `last`. */
  ghost predicate PackedWith(files: seq<File>, order: seq<File>, last: File, bs: nat)
    requires 0 < bs
  {
    && |files| == |order| > 0
    && last.start == Used(order[..|order| - 1], bs)
    && (forall k | 0 <= k < |order| - 1 :: files[k] == PlacedFile(order, k, bs))
    && files[|order| - 1] == last
  }

  lemma RegrownFiles(fs: Fs, order: seq<File>, size: nat, bs: nat)
    requires 0 < bs && order != []
    ensures var t := |order| - 1;
            PackedWith(Regrown(fs, order, size, bs).files, order, File(order[t].name, Used(order[..t], bs), size), bs)
  {
  }

  lemma RegrownMetadata(fs: Fs, order: seq<File>, size: nat, bs: nat)
    requires 0 < bs && order != [] && MetadataOk(order, fs.metadata)
    ensures MetadataOk(Regrown(fs, order, size, bs).files, Regrown(fs, order, size, bs).metadata)
  {
    var mid, t := Repacked(fs, order, bs), |order| - 1;
    RestartedOk(fs.metadata, order, Placed(order, bs));
    ResettledMetadata(mid, t, mid.files[t].start, size, Regrown(fs, order, size, bs).bits);
  }

  // Soundness of the result

  /** Block `b` holds bytes of packed file `k`. */
  ghost predicate InPlaced(files: seq<File>, k: nat, b: nat, bs: nat)
    requires 0 < bs && k < |files|
  {
    PlacedFile(files, k, bs).start <= b < PlacedFile(files, k, bs).start + CeilDiv(files[k].size, bs)
  }

  /** Packed files that are not empty fill the front of the disk. */
  lemma {:induction false} PackedTile(files: seq<File>, b: nat, bs: nat)
    requires 0 < bs && b < Used(files, bs)
    ensures exists k :: 0 <= k < |files| && InPlaced(files, k, b, bs)
  {
    var k, init := |files| - 1, files[..|files| - 1];
    if b < Used(init, bs) {
      PackedTile(init, b, bs);
      var j :| 0 <= j < |init| && InPlaced(init, j, b, bs);
      assert init[..j] == files[..j];
      assert InPlaced(files, j, b, bs);
    } else {
      assert InPlaced(files, k, b, bs);
    }
  }

  lemma PackedApart(files: seq<File>, order: seq<File>, last: File, j: nat, k: nat, bs: nat)
    requires 0 < bs && PackedWith(files, order, last, bs) && j < k < |order| && 0 < order[j].size
    ensures files[j].start + Blocks(files[j].size, bs) <= files[k].start <= last.start
  {
    UsedAfter(order, j, k, bs);
    UsedMonotone(order, k, |order| - 1, bs);
  }

  /** If no other file is empty, the extents are sound and take exactly the front of the disk. */
  lemma PackedExtents(files: seq<File>, order: seq<File>, last: File, count: nat, bs: nat)
    requires 0 < bs && PackedWith(files, order, last, bs) && last.start + Blocks(last.size, bs) <= count
    requires forall k | 0 <= k < |order| - 1 :: 0 < order[k].size
    ensures ExtentsOk(files, count, bs)
  {
    forall j, k | 0 <= j < k < |files|
      ensures Apart(files[j], files[k], bs)
    {
      PackedApart(files, order, last, j, k, bs);
    }
    forall j | 0 <= j < |files|
      ensures files[j].start + Blocks(files[j].size, bs) <= count
    {
      if j < |files| - 1 {
        PackedApart(files, order, last, j, |files| - 1, bs);
      }
    }
  }

  lemma PackedTaken(files: seq<File>, order: seq<File>, last: File, b: nat, bs: nat)
    requires 0 < bs && PackedWith(files, order, last, bs)
    requires forall k | 0 <= k < |order| - 1 :: 0 < order[k].size
    ensures Taken(files, b, bs) <==> b < last.start + Blocks(last.size, bs)
  {
    var t := |order| - 1;
    if Taken(files, b, bs) {
      var j :| 0 <= j < |files| && Has(files[j], b, bs);
      if j < t {
        PackedApart(files, order, last, j, t, bs);
      }
    }
    if b < last.start {
      PackedTile(order[..t], b, bs);
      var j :| 0 <= j < t && InPlaced(order[..t], j, b, bs);
      assert order[..t][..j] == order[..j];
      assert Has(files[j], b, bs);
    } else {
      assert Has(files[t], b, bs) <==> b < last.start + Blocks(last.size, bs);
    }
  }

  /** An empty file gets the first block of the file after it. */
  lemma EmptyOverlaps(files: seq<File>, order: seq<File>, last: File, k: nat, count: nat, bs: nat)
    requires 0 < bs && PackedWith(files, order, last, bs) && k < |order| - 1 && order[k].size == 0
    ensures !ExtentsOk(files, count, bs)
  {
    UsedStep(order, k, bs);
    CeilDivLeast(0, bs, 0);
    assert files[k + 1].start == files[k].start;
    assert !Apart(files[k], files[k + 1], bs);
  }

  // The theorem

  /** Every file other than `i` has bytes. */
  ghost predicate OthersNotEmpty(fs: Fs, i: nat) {
    forall k | 0 <= k < |fs.files| && k != i :: 0 < fs.files[k].size
  }

  lemma OthersComeFirst(fs: Fs, i: nat, order: seq<File>, k: nat)
    requires i < |fs.files| && MetadataOk(order, fs.metadata) && OthersNotEmpty(fs, i)
    requires multiset(order) == multiset(fs.files) && k < |order| - 1 && order[|order| - 1] == fs.files[i]
    ensures 0 < order[k].size
  {
    InSame(order, fs.files, order[k]);
    var j :| 0 <= j < |fs.files| && fs.files[j] == order[k];
    assert order[k].name != order[|order| - 1].name;
  }

  lemma OthersAreFirst(fs: Fs, i: nat, order: seq<File>, j: nat)
    requires i < |fs.files| && MetadataOk(fs.files, fs.metadata) && j < |fs.files| && j != i
    requires multiset(order) == multiset(fs.files) && order != [] && order[|order| - 1] == fs.files[i]
    ensures exists k :: 0 <= k < |order| - 1 && order[k] == fs.files[j]
  {
    assert if j < i then fs.files[j].name != fs.files[i].name else fs.files[i].name != fs.files[j].name;
    InSame(order, fs.files, fs.files[j]);
    var k :| 0 <= k < |order| && order[k] == fs.files[j];
  }

  lemma OthersArranged(fs: Fs, i: nat, order: seq<File>)
    requires i < |fs.files| && MetadataOk(fs.files, fs.metadata) && MetadataOk(order, fs.metadata)
    requires multiset(order) == multiset(fs.files) && order != [] && order[|order| - 1] == fs.files[i]
    ensures OthersNotEmpty(fs, i) <==> forall k | 0 <= k < |order| - 1 :: 0 < order[k].size
  {
    if OthersNotEmpty(fs, i) {
      forall k | 0 <= k < |order| - 1
        ensures 0 < order[k].size
      {
        OthersComeFirst(fs, i, order, k);
      }
    } else {
      var j :| 0 <= j < |fs.files| && j != i && fs.files[j].size == 0;
      OthersAreFirst(fs, i, order, j);
    }
  }

  lemma {:induction false} TotalIsCovered(files: seq<File>, bs: nat)
    requires 0 < bs
    ensures TotalBytes(files) <= Used(files, bs) * bs
  {
    if files != [] {
      var f := files[|files| - 1];
      TotalIsCovered(files[..|files| - 1], bs);
      CeilDivLeast(f.size, bs, CeilDiv(f.size, bs));
      MulDistributes(Used(files[..|files| - 1], bs), CeilDiv(f.size, bs), bs);
    }
  }

  /** The code never marks more blocks than the packed files take. */
  lemma MarkedBelowUsed(fs: Fs, bs: nat)
    requires 0 < bs
    ensures Marked(fs, bs) <= Used(fs.files, bs)
  {
    TotalIsCovered(fs.files, bs);
    CeilDivLeast(TotalBytes(fs.files), bs, Used(fs.files, bs));
  }

  /** The bits of the result: the marked blocks and those of the truncated file. */
  lemma RegrownBits(fs: Fs, order: seq<File>, size: nat, b: nat, bs: nat)
    requires 0 < bs && order != [] && b < |fs.bits|
    ensures var r, u := Regrown(fs, order, size, bs), Used(order[..|order| - 1], bs);
            |r.bits| == |fs.bits| && (r.bits[b] <==> b < Marked(fs, bs) || u <= b < u + CeilDiv(size, bs))
  {
  }

  /**
   Compaction leaves a sound file system exactly when no other file is empty and the marked
   blocks reach the truncated file.
   */
  lemma CompactedOkIff(fs: Fs, i: nat, size: nat, bs: nat)
    requires 0 < bs && FsOk(fs, bs) && i < |fs.files| && Blocks(fs.files[i].size, bs) < CeilDiv(size, bs)
    requires CountClear(fs.bits) + Blocks(fs.files[i].size, bs) >= CeilDiv(size, bs)
    ensures FsOk(Compacted(fs, i, size, bs), bs) <==> OthersNotEmpty(fs, i) && Behind(fs, i, bs) <= Marked(fs, bs)
  {
    var order := Arranged(fs.files, fs.files[i].name);
    ArrangedDisk(fs, i, bs);
    GuardFits(fs, i, CeilDiv(size, bs), bs);
    BehindIsUsed(fs, i, bs);
    OthersArranged(fs, i, order);
    CeilDivLeast(size, bs, 0);
    CeilBelowBlocks(fs.files[i], bs);
    MarkedBelowUsed(fs, bs);
    RegrownMetadata(fs, order, size, bs);
    RegrownOkIff(fs, order, size, bs);
  }

  lemma RegrownOkIff(fs: Fs, order: seq<File>, size: nat, bs: nat)
    requires 0 < bs && order != [] && 0 < size
    requires Used(order[..|order| - 1], bs) + CeilDiv(size, bs) <= |fs.bits|
    requires Marked(fs, bs) <= Used(order[..|order| - 1], bs) + CeilDiv(size, bs)
    requires MetadataOk(Regrown(fs, order, size, bs).files, Regrown(fs, order, size, bs).metadata)
    ensures FsOk(Regrown(fs, order, size, bs), bs) <==>
            (forall k | 0 <= k < |order| - 1 :: 0 < order[k].size) && Used(order[..|order| - 1], bs) <= Marked(fs, bs)
  {
    var r, t := Regrown(fs, order, size, bs), |order| - 1;
    var last := File(order[t].name, Used(order[..t], bs), size);
    RegrownFiles(fs, order, size, bs);
    if forall k | 0 <= k < t :: 0 < order[k].size {
      PackedExtents(r.files, order, last, |fs.bits|, bs);
      forall b | 0 <= b < |fs.bits|
        ensures r.bits[b] <==> b < Marked(fs, bs) || last.start <= b < last.start + CeilDiv(size, bs)
        ensures Taken(r.files, b, bs) <==> b < last.start + CeilDiv(size, bs)
      {
        RegrownBits(fs, order, size, b, bs);
        PackedTaken(r.files, order, last, b, bs);
      }
      if Marked(fs, bs) < last.start {
        assert !r.bits[Marked(fs, bs)];
      }
    } else {
      var k :| 0 <= k < t && order[k].size == 0;
      EmptyOverlaps(r.files, order, last, k, |r.bits|, bs);
    }
  }

  /** All but file `i` fill their blocks. */
  ghost predicate OthersWhole(fs: Fs, i: nat, bs: nat)
    requires 0 < bs
  {
    forall k | 0 <= k < |fs.files| && k != i :: fs.files[k].size == CeilDiv(fs.files[k].size, bs) * bs
  }

  lemma {:induction false} WholeTotal(files: seq<File>, bs: nat)
    requires 0 < bs && forall k | 0 <= k < |files| :: files[k].size == CeilDiv(files[k].size, bs) * bs
    ensures TotalBytes(files) == Used(files, bs) * bs
  {
    if files != [] {
      WholeTotal(files[..|files| - 1], bs);
      MulDistributes(Used(files[..|files| - 1], bs), CeilDiv(files[|files| - 1].size, bs), bs);
    }
  }

  lemma OthersWholeArranged(fs: Fs, i: nat, order: seq<File>, k: nat, bs: nat)
    requires 0 < bs && i < |fs.files| && MetadataOk(order, fs.metadata) && OthersWhole(fs, i, bs)
    requires multiset(order) == multiset(fs.files) && k < |order| - 1 && order[|order| - 1] == fs.files[i]
    ensures order[k].size == CeilDiv(order[k].size, bs) * bs
  {
    InSame(order, fs.files, order[k]);
    var j :| 0 <= j < |fs.files| && fs.files[j] == order[k];
    assert order[k].name != order[|order| - 1].name;
  }

  lemma CoversMarked(u: nat, total: nat, bs: nat)
    requires 0 < bs && u * bs <= total
    ensures u <= CeilDiv(total, bs)
  {
    CeilDivLeast(total, bs, CeilDiv(total, bs));
    if CeilDiv(total, bs) < u {
      MulMonotone(CeilDiv(total, bs) + 1, u, bs);
      MulDistributes(CeilDiv(total, bs), 1, bs);
    }
  }

  lemma WholeReaches(fs: Fs, i: nat, bs: nat)
    requires 0 < bs && FsOk(fs, bs) && i < |fs.files| && OthersWhole(fs, i, bs)
    ensures Behind(fs, i, bs) <= Marked(fs, bs)
  {
    var order := Arranged(fs.files, fs.files[i].name);
    var t := |order| - 1;
    ArrangedDisk(fs, i, bs);
    forall k | 0 <= k < t
      ensures order[k].size == CeilDiv(order[k].size, bs) * bs
    {
      OthersWholeArranged(fs, i, order, k, bs);
    }
    WholeTotal(order[..t], bs);
    BehindIsUsed(fs, i, bs);
    CoversMarked(Used(order[..t], bs), TotalBytes(fs.files), bs);
  }

  /** In particular: when every other size is a positive multiple of the block size. */
  lemma CompactedWholeOk(fs: Fs, i: nat, size: nat, bs: nat)
    requires 0 < bs && FsOk(fs, bs) && i < |fs.files| && Blocks(fs.files[i].size, bs) < CeilDiv(size, bs)
    requires CountClear(fs.bits) + Blocks(fs.files[i].size, bs) >= CeilDiv(size, bs)
    requires OthersNotEmpty(fs, i) && OthersWhole(fs, i, bs)
    ensures FsOk(Compacted(fs, i, size, bs), bs)
  {
    WholeReaches(fs, i, bs);
    CompactedOkIff(fs, i, size, bs);
  }

  // The bytes

  /** The others can all be moved down, and the saved copy of the last file fits behind them. */
  ghost predicate Compactable(data: seq<Byte>, order: seq<File>, count: nat, bs: nat)
    requires 0 < bs
  {
    && |data| == count * bs && order != [] && Ahead(order[..|order| - 1], count, bs)
    && OnDisk(data, order[|order| - 1], bs)
    && Used(order[..|order| - 1], bs) * bs + order[|order| - 1].size <= |data|
  }

  /** The disk after compaction: the others packed, the saved copy of the truncated file behind them. */
  ghost function CompactedData(data: seq<Byte>, order: seq<File>, count: nat, bs: nat): (r: seq<Byte>)
    requires 0 < bs && Compactable(data, order, count, bs)
    ensures |r| == |data|
  {
    var t := |order| - 1;
    Splice(Packed(data, order[..t], count, bs), Used(order[..t], bs) * bs, Content(data, order[t], bs))
  }

  lemma CompactionFits(fs: Fs, i: nat, data: seq<Byte>, bs: nat)
    requires 0 < bs && FsOk(fs, bs) && i < |fs.files| && |data| == |fs.bits| * bs
    ensures Compactable(data, Arranged(fs.files, fs.files[i].name), |fs.bits|, bs)
  {
    var order := Arranged(fs.files, fs.files[i].name);
    var t := |order| - 1;
    ArrangedDisk(fs, i, bs);
    SortedAllAhead(order[..t], |fs.bits|, bs);
    ExtentBytes(order[t], |fs.bits|, bs);
    GuardFits(fs, i, Blocks(order[t].size, bs), bs);
    ExtentBytes(File("", Used(order[..t], bs), order[t].size), |fs.bits|, bs);
  }

  lemma EarlierBytes(files: seq<File>, j: nat, k: nat, bs: nat)
    requires 0 < bs && j < k <= |files|
    ensures Used(files[..j], bs) * bs + files[j].size <= Used(files[..k], bs) * bs
  {
    AfterBytes(files, j, k, bs);
    CeilDivLeast(files[j].size, bs, CeilDiv(files[j].size, bs));
  }

  lemma PackedPrefix(data: seq<Byte>, order: seq<File>, k: nat, count: nat, bs: nat)
    requires 0 < bs && |data| == count * bs && k < |order| - 1 && Ahead(order[..|order| - 1], count, bs)
    ensures OnDisk(data, order[k], bs) && OnDisk(data, PlacedFile(order, k, bs), bs)
    ensures Content(Packed(data, order[..|order| - 1], count, bs), PlacedFile(order, k, bs), bs) ==
            Content(data, order[k], bs)
  {
    var t := |order| - 1;
    assert order[..t][..k] == order[..k];
    PackedContent(data, order[..t], k, count, bs);
  }

  lemma CompactedEarlier(data: seq<Byte>, order: seq<File>, k: nat, count: nat, bs: nat)
    requires 0 < bs && Compactable(data, order, count, bs) && k < |order| - 1
    ensures OnDisk(data, order[k], bs) && OnDisk(data, PlacedFile(order, k, bs), bs)
    ensures Content(CompactedData(data, order, count, bs), PlacedFile(order, k, bs), bs) == Content(data, order[k], bs)
  {
    var t := |order| - 1;
    PackedPrefix(data, order, k, count, bs);
    EarlierBytes(order, k, t, bs);
    SpliceAway(Packed(data, order[..t], count, bs), Used(order[..t], bs) * bs, Content(data, order[t], bs),
               PlacedFile(order, k, bs), bs);
  }

  lemma SliceThere(s: seq<Byte>, at: nat, piece: seq<Byte>)
    requires at + |piece| <= |s|
    ensures Splice(s, at, piece)[at..at + |piece|] == piece
  {
  }

  /** Each file's bytes are at its new place. */
  lemma CompactedContent(data: seq<Byte>, order: seq<File>, k: nat, count: nat, bs: nat)
    requires 0 < bs && Compactable(data, order, count, bs) && k < |order|
    ensures OnDisk(data, order[k], bs) && OnDisk(data, PlacedFile(order, k, bs), bs)
    ensures Content(CompactedData(data, order, count, bs), PlacedFile(order, k, bs), bs) == Content(data, order[k], bs)
  {
    var t := |order| - 1;
    if k < t {
      CompactedEarlier(data, order, k, count, bs);
    } else {
      SliceThere(Packed(data, order[..t], count, bs), Used(order[..t], bs) * bs, Content(data, order[t], bs));
    }
  }

  /** `f` is somewhere in `files'`, with its name, its size and its bytes. */
  ghost predicate Preserved(f: File, files': seq<File>, data: seq<Byte>, data': seq<Byte>, bs: nat) {
    exists k :: 0 <= k < |files'| && files'[k].name == f.name && files'[k].size == f.size &&
                OnDisk(data, f, bs) && OnDisk(data', files'[k], bs) &&
                    Content(data', files'[k], bs) == Content(data, f, bs)
  }

  lemma RegrownHas(fs: Fs, order: seq<File>, k: nat, size: nat, data: seq<Byte>, bs: nat)
    requires 0 < bs && Compactable(data, order, |fs.bits|, bs) && k < |order| - 1
    ensures Preserved(order[k], Regrown(fs, order, size, bs).files, data, CompactedData(data, order, |fs.bits|, bs), bs)
  {
    CompactedContent(data, order, k, |fs.bits|, bs);
    RegrownFiles(fs, order, size, bs);
    assert Regrown(fs, order, size, bs).files[k] == PlacedFile(order, k, bs);
  }

  /** The disk after the compaction that truncating file `i` causes. */
  ghost function CompactedDisk(fs: Fs, i: nat, data: seq<Byte>, bs: nat): seq<Byte>
    requires 0 < bs && FsOk(fs, bs) && i < |fs.files| && |data| == |fs.bits| * bs
  {
    CompactionFits(fs, i, data, bs);
    CompactedData(data, Arranged(fs.files, fs.files[i].name), |fs.bits|, bs)
  }

  /** Compaction keeps every byte of every other file, whatever the bitmap becomes. */
  lemma CompactionKeeps(fs: Fs, i: nat, j: nat, size: nat, data: seq<Byte>, bs: nat)
    requires 0 < bs && FsOk(fs, bs) && i < |fs.files| && |data| == |fs.bits| * bs && j < |fs.files| && j != i
    ensures Preserved(fs.files[j], Compacted(fs, i, size, bs).files, data, CompactedDisk(fs, i, data, bs), bs)
  {
    var order := Arranged(fs.files, fs.files[i].name);
    CompactionFits(fs, i, data, bs);
    ArrangedDisk(fs, i, bs);
    OthersAreFirst(fs, i, order, j);
    var k :| 0 <= k < |order| - 1 && order[k] == fs.files[j];
    RegrownHas(fs, order, k, size, data, bs);
  }

  /** ... and those of the truncated one. */
  lemma CompactionKeepsOwn(fs: Fs, i: nat, data: seq<Byte>, bs: nat)
    requires 0 < bs && FsOk(fs, bs) && i < |fs.files| && |data| == |fs.bits| * bs
    ensures 0 <= Behind(fs, i, bs) && OnDisk(data, fs.files[i], bs)
    ensures var moved := File(fs.files[i].name, Behind(fs, i, bs), fs.files[i].size);
            && OnDisk(CompactedDisk(fs, i, data, bs), moved, bs)
            && Content(CompactedDisk(fs, i, data, bs), moved, bs) == Content(data, fs.files[i], bs)
  {
    var order := Arranged(fs.files, fs.files[i].name);
    CompactionFits(fs, i, data, bs);
    ArrangedDisk(fs, i, bs);
    BehindIsUsed(fs, i, bs);
    CompactedContent(data, order, |order| - 1, |fs.bits|, bs);
  }
}
