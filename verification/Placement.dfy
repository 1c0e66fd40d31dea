/**
 Where TRUNCATE leaves the file, told from the bitmap, the place and the block counts alone
 (entradasalida/src/instrucciones_io.c:194-408, entradasalida/src/dialfs.c:507-573): it stays, or goes to
 the leftmost room, or the disk is packed.
 */
module Placement {
  import opened Arith
  import opened Bits
  import opened FileSystem
  import opened FileOps
  import opened FileOrder
  import opened Compaction
  import opened Repacking
  import opened Truncation

  /** The blocks that the search takes for the file's own: a file of one block has none. */
  function OwnPassed(blocks: nat): nat {
    if blocks == 1 then 0 else blocks
  }

  /** The first scan: the blocks behind its own, starting one too late, and on past the end of the bitmap. */
  ghost predicate ScanPasses(bits: seq<bool>, beyond: nat -> bool, start: nat, own: nat, need: nat) {
    forall b | start + own < b <= start + need :: if b < |bits| then !bits[b] else !beyond(b)
  }

  /** `need` blocks from `p` on that are on the disk and clear, or among its own. */
  ghost predicate Room(bits: seq<bool>, start: nat, own: nat, need: nat, p: nat) {
    && p + need <= |bits|
    && forall b | p <= b < p + need :: !bits[b] || start <= b < start + own
  }

  ghost predicate LeftmostRoom(bits: seq<bool>, start: nat, own: nat, need: nat, p: nat) {
    Room(bits, start, own, need, p) && forall q | 0 <= q < p :: !Room(bits, start, own, need, q)
  }

  /** Its old blocks are given up and the new ones, as far as the disk goes, taken. */
  ghost predicate BitsAt(fs: Fs, fs': Fs, i: nat, p: nat, need: nat, bs: nat)
    requires 0 < bs && i < |fs.files|
  {
    && |fs'.bits| == |fs.bits|
    && forall b | 0 <= b < |fs.bits| :: fs'.bits[b] <==> p <= b < p + need || (fs.bits[b] && !Has(fs.files[i], b, bs))
  }

  /** Only the file's entries change, in list and metadata, and the bits of its blocks. */
  ghost predicate EntryAt(fs: Fs, fs': Fs, i: nat, p: nat, size: nat, bs: nat)
    requires 0 < bs && i < |fs.files|
  {
    var name := fs.files[i].name;
    && fs'.files == fs.files[i := File(name, p, size)] && fs'.metadata == fs.metadata[name := Metadata(p, size)]
    && BitsAt(fs, fs', i, p, CeilDiv(size, bs), bs)
  }

  // Packing

  /** The other files. */
  function Others(files: seq<File>, i: nat): seq<File>
    requires i < |files|
  {
    files[..i] + files[i + 1..]
  }

  /** Blocks that the bytes of the files that start below `x` take. */
  function BlocksBelow(files: seq<File>, x: nat, bs: nat): nat
    requires 0 < bs
  {
    if files == [] then 0 else
      BlocksBelow(files[..|files| - 1], x, bs) +
      if files[|files| - 1].start < x then CeilDiv(files[|files| - 1].size, bs) else 0
  }

  /** The bits that stand for all bytes there were, as if they lay without gaps, and those of the truncated file. */
  ghost predicate PackedBits(fs: Fs, fs': Fs, p: nat, need: nat, bs: nat) {
    && |fs'.bits| == |fs.bits|
    && forall b | 0 <= b < |fs.bits| :: fs'.bits[b] <==> b * bs < TotalBytes(fs.files) || p <= b < p + need
  }

  /** Every other file starts behind the bytes of those that started before it, and the truncated one behind all. */
  ghost predicate PackedEntries(fs: Fs, fs': Fs, i: nat, size: nat, bs: nat)
    requires 0 < bs && i < |fs.files|
  {
    var others := Others(fs.files, i);
    && (forall f <- others :: File(f.name, BlocksBelow(others, f.start, bs), f.size) in fs'.files)
    && File(fs.files[i].name, BlocksBelow(others, |fs.bits|, bs), size) in fs'.files
    && |fs'.files| == |fs.files|
    && PackedBits(fs, fs', BlocksBelow(others, |fs.bits|, bs), CeilDiv(size, bs), bs)
  }

  lemma {:induction false} BelowConcat(a: seq<File>, b: seq<File>, x: nat, bs: nat)
    requires 0 < bs
    ensures BlocksBelow(a + b, x, bs) == BlocksBelow(a, x, bs) + BlocksBelow(b, x, bs)
  {
    if b == [] {
      assert a + b == a;
    } else {
      BelowConcat(a, b[..|b| - 1], x, bs);
      assert (a + b)[..|a + b| - 1] == a + b[..|b| - 1];
    }
  }

  lemma BelowAround(a: seq<File>, f: File, b: seq<File>, x: nat, bs: nat)
    requires 0 < bs
    ensures BlocksBelow(a + [f] + b, x, bs) ==
            BlocksBelow(a + b, x, bs) + if f.start < x then CeilDiv(f.size, bs) else 0
  {
    BelowConcat(a + [f], b, x, bs);
    assert (a + [f])[..|a|] == a;
    BelowConcat(a, b, x, bs);
  }

  lemma BelowWithout(files: seq<File>, k: nat, x: nat, bs: nat)
    requires 0 < bs && k < |files|
    ensures BlocksBelow(files, x, bs) ==
            BlocksBelow(files[..k] + files[k + 1..], x, bs) +
            if files[k].start < x then CeilDiv(files[k].size, bs) else 0
  {
    assert files == files[..k] + [files[k]] + files[k + 1..];
    BelowAround(files[..k], files[k], files[k + 1..], x, bs);
  }

  /** The order of the list does not matter. */
  lemma {:induction false} BelowSame(a: seq<File>, b: seq<File>, x: nat, bs: nat)
    requires 0 < bs && multiset(a) == multiset(b)
    ensures BlocksBelow(a, x, bs) == BlocksBelow(b, x, bs)
    decreases |a|
  {
    if a == [] {
      assert |multiset(b)| == 0;
      assert b == [];
    } else {
      InSame(a, b, a[|a| - 1]);
      var k :| 0 <= k < |b| && b[k] == a[|a| - 1];
      WithoutSame(a, b, k);
      BelowSame(a[..|a| - 1], b[..k] + b[k + 1..], x, bs);
      BelowWithout(b, k, x, bs);
    }
  }

  lemma WithoutSame(a: seq<File>, b: seq<File>, k: nat)
    requires multiset(a) == multiset(b) && a != [] && k < |b| && b[k] == a[|a| - 1]
    ensures multiset(a[..|a| - 1]) == multiset(b[..k] + b[k + 1..])
  {
    var init, rest, f := a[..|a| - 1], b[..k] + b[k + 1..], b[k];
    assert a == init + [f];
    assert b == b[..k] + [f] + b[k + 1..];
    assert multiset(a) == multiset(init) + multiset{f};
    assert multiset(b) == multiset(rest) + multiset{f};
    assert multiset(init) == multiset(a) - multiset{f} == multiset(rest);
  }

  /** In a sorted list with different starts, those below element `k` are the ones before it. */
  lemma {:induction false} BelowIsUsed(files: seq<File>, k: nat, n: nat, bs: nat)
    requires 0 < bs && k < |files| && n <= |files|
    requires forall a, b | 0 <= a < b < |files| :: files[a].start < files[b].start
    ensures BlocksBelow(files[..n], files[k].start, bs) == Used(files[..if n < k then n else k], bs)
  {
    if n > 0 {
      BelowIsUsed(files, k, n - 1, bs);
      assert files[..n][..n - 1] == files[..n - 1];
      if n <= k {
        assert n - 1 < k;
      }
    }
  }

  lemma {:induction false} AllBelow(files: seq<File>, x: nat, bs: nat)
    requires 0 < bs && forall f <- files :: f.start < x
    ensures BlocksBelow(files, x, bs) == Used(files, bs)
  {
    if files != [] {
      assert files[|files| - 1] in files;
      AllBelow(files[..|files| - 1], x, bs);
    }
  }

  /** Extents that are apart have different starts. */
  lemma StartsDiffer(files: seq<File>, count: nat, bs: nat)
    requires 0 < bs && files != [] && ExtentsOk(files, count, bs) && SortedByStart(files[..|files| - 1])
    ensures forall a, b | 0 <= a < b < |files| - 1 :: files[a].start < files[b].start
    ensures forall k | 0 <= k < |files| :: files[k].start < count
  {
    forall a, b | 0 <= a < b < |files| - 1
      ensures files[a].start < files[b].start
    {
      assert Apart(files[a], files[b], bs);
      assert files[..|files| - 1][a].start <= files[..|files| - 1][b].start;
    }
  }

  /** The list that is packed has the others, in some order, before the truncated file. */
  lemma OthersAre(fs: Fs, i: nat, bs: nat)
    requires 0 < bs && FsOk(fs, bs) && i < |fs.files|
    ensures var order := Arranged(fs.files, fs.files[i].name);
            order != [] && multiset(order[..|order| - 1]) == multiset(Others(fs.files, i))
  {
    var order := Arranged(fs.files, fs.files[i].name);
    ArrangedDisk(fs, i, bs);
    WithoutSame(order, fs.files, i);
  }

  lemma CompactedEntries(fs: Fs, i: nat, size: nat, bs: nat)
    requires 0 < bs && FsOk(fs, bs) && i < |fs.files|
    ensures PackedEntries(fs, Compacted(fs, i, size, bs), i, size, bs)
  {
    var order := Arranged(fs.files, fs.files[i].name);
    OthersAre(fs, i, bs);
    ArrangedDisk(fs, i, bs);
    StartsDiffer(order, |fs.bits|, bs);
    RegrownEntries(fs, i, order, size, bs);
  }

  lemma RegrownEntries(fs: Fs, i: nat, order: seq<File>, size: nat, bs: nat)
    requires 0 < bs && i < |fs.files| == |order| && order[|order| - 1] == fs.files[i]
    requires multiset(order[..|order| - 1]) == multiset(Others(fs.files, i))
    requires forall a, b | 0 <= a < b < |order| - 1 :: order[a].start < order[b].start
    requires forall k | 0 <= k < |order| :: order[k].start < |fs.bits|
    ensures PackedEntries(fs, Regrown(fs, order, size, bs), i, size, bs)
  {
    var others, first := Others(fs.files, i), order[..|order| - 1];
    RegrownFiles(fs, order, size, bs);
    forall f | f in others
      ensures File(f.name, BlocksBelow(others, f.start, bs), f.size) in Regrown(fs, order, size, bs).files
    {
      InSame(others, first, f);
      var k :| 0 <= k < |first| && first[k] == f;
      EntryOf(fs, order, k, size, others, bs);
    }
    LastEntry(fs, order, size, others, bs);
    RepackedBits(fs, order, size, others, bs);
  }

  lemma RepackedBits(fs: Fs, order: seq<File>, size: nat, others: seq<File>, bs: nat)
    requires 0 < bs && order != [] && multiset(order[..|order| - 1]) == multiset(others)
    requires forall k | 0 <= k < |order| :: order[k].start < |fs.bits|
    ensures PackedBits(fs, Regrown(fs, order, size, bs), BlocksBelow(others, |fs.bits|, bs), CeilDiv(size, bs), bs)
  {
    var first, fs' := order[..|order| - 1], Regrown(fs, order, size, bs);
    BelowSame(first, others, |fs.bits|, bs);
    AllBelow(first, |fs.bits|, bs);
    forall b | 0 <= b < |fs.bits|
      ensures fs'.bits[b] <==>
              b * bs < TotalBytes(fs.files) || Used(first, bs) <= b < Used(first, bs) + CeilDiv(size, bs)
    {
      RegrownBits(fs, order, size, b, bs);
      CeilDivLeast(TotalBytes(fs.files), bs, b);
    }
  }

  lemma EntryOf(fs: Fs, order: seq<File>, k: nat, size: nat, others: seq<File>, bs: nat)
    requires 0 < bs && k < |order| - 1 && multiset(order[..|order| - 1]) == multiset(others)
    requires forall a, b | 0 <= a < b < |order| - 1 :: order[a].start < order[b].start
    ensures var f := order[k];
            File(f.name, BlocksBelow(others, f.start, bs), f.size) in Regrown(fs, order, size, bs).files
  {
    var first, f := order[..|order| - 1], order[k];
    RegrownFiles(fs, order, size, bs);
    BelowSame(first, others, f.start, bs);
    BelowIsUsed(first, k, |first|, bs);
    assert first[..|first|] == first && first[..k] == order[..k];
    assert Regrown(fs, order, size, bs).files[k] == PlacedFile(order, k, bs);
  }

  lemma LastEntry(fs: Fs, order: seq<File>, size: nat, others: seq<File>, bs: nat)
    requires 0 < bs && order != [] && multiset(order[..|order| - 1]) == multiset(others)
    requires forall k | 0 <= k < |order| :: order[k].start < |fs.bits|
    ensures var last := File(order[|order| - 1].name, BlocksBelow(others, |fs.bits|, bs), size);
            last in Regrown(fs, order, size, bs).files
  {
    var first := order[..|order| - 1];
    RegrownFiles(fs, order, size, bs);
    BelowSame(first, others, |fs.bits|, bs);
    AllBelow(first, |fs.bits|, bs);
    assert Regrown(fs, order, size, bs).files[|order| - 1] == File(order[|order| - 1].name, Used(first, bs), size);
  }

  // CREATE

  ghost predicate LeftmostClear(bits: seq<bool>, b: nat) {
    b < |bits| && !bits[b] && forall a | 0 <= a < b :: bits[a]
  }

  /** A new file is empty and takes the leftmost clear block; on a full disk only a blank metadata file is left. */
  lemma CreatedWhere(fs: Fs, name: string)
    ensures var fs' := Created(fs, name, FirstRun(fs.bits, 1));
            if name in fs.metadata then fs' == fs
            else if exists b :: 0 <= b < |fs.bits| && !fs.bits[b] then
              exists b: nat :: LeftmostClear(fs.bits, b) &&
                          fs' == Fs(fs.bits[b := true], fs.files + [File(name, b, 0)],
                                    fs.metadata[name := Metadata(b, 0)])
            else fs' == fs.(metadata := fs.metadata[name := Blank])
  {
    var r := FirstRun(fs.bits, 1);
    forall b | 0 <= b < |fs.bits|
      ensures FreeRun(fs.bits, b, 1) <==> !fs.bits[b]
    {
    }
    if r < |fs.bits| {
      assert LeftmostClear(fs.bits, r);
    }
  }

  // TRUNCATE

  lemma RoomIsRun(fs: Fs, i: nat, need: nat, p: nat, bs: nat)
    requires 0 < bs && i < |fs.files|
    ensures var f := fs.files[i];
            Room(fs.bits, f.start, OwnPassed(Blocks(f.size, bs)), need, p) <==> FreeRun(SearchBits(fs, i, bs), p, need)
  {
    var f, sb := fs.files[i], SearchBits(fs, i, bs);
    forall b | 0 <= b < |fs.bits|
      ensures !sb[b] <==> !fs.bits[b] || f.start <= b < f.start + OwnPassed(Blocks(f.size, bs))
    {
    }
  }

  /**
   The file stays if it needs no more blocks, or if the scan passes; else it goes to the leftmost room, if
   there is any; else, if the free blocks and its own are enough, all files are packed; else nothing changes.
   */
  lemma TruncatedWhere(fs: Fs, i: nat, size: nat, beyond: nat -> bool, bs: nat)
    requires 0 < bs && FsOk(fs, bs) && i < |fs.files|
    ensures var f, need, fs' := fs.files[i], CeilDiv(size, bs), Truncated(fs, i, size, beyond, bs);
            var occ := Blocks(f.size, bs);
            var own := OwnPassed(occ);
            if need <= occ || ScanPasses(fs.bits, beyond, f.start, own, need) then
              EntryAt(fs, fs', i, f.start, size, bs)
            else if exists p :: Room(fs.bits, f.start, own, need, p) then
              exists p :: LeftmostRoom(fs.bits, f.start, own, need, p) && EntryAt(fs, fs', i, p, size, bs)
            else if CountClear(fs.bits) + occ >= need then PackedEntries(fs, fs', i, size, bs)
            else fs' == fs
  {
    var f, need := fs.files[i], CeilDiv(size, bs);
    var occ := Blocks(f.size, bs);
    ScanIs(fs, beyond, i, size, bs);
    if need <= occ || ScanPasses(fs.bits, beyond, f.start, OwnPassed(occ), need) {
      StaysPlan(fs, i, size, beyond, bs);
    }
    if need > occ && !ScanPasses(fs.bits, beyond, f.start, OwnPassed(occ), need) {
      SearchedWhere(fs, i, size, beyond, bs);
    }
  }

  /** A sound file has its own bits set. */
  lemma OwnBits(fs: Fs, i: nat, bs: nat)
    requires 0 < bs && FsOk(fs, bs) && i < |fs.files|
    ensures var f := fs.files[i];
            forall b | f.start <= b < f.start + Blocks(f.size, bs) :: b < |fs.bits| && fs.bits[b]
  {
    var f := fs.files[i];
    forall b | f.start <= b < f.start + Blocks(f.size, bs)
      ensures b < |fs.bits| && fs.bits[b]
    {
      assert Has(f, b, bs);
    }
  }

  lemma StaysPlan(fs: Fs, i: nat, size: nat, beyond: nat -> bool, bs: nat)
    requires 0 < bs && FsOk(fs, bs) && i < |fs.files|
    requires CeilDiv(size, bs) <= Blocks(fs.files[i].size, bs) || InPlaceAccepted(fs, beyond, i, size, bs)
    ensures EntryAt(fs, Truncated(fs, i, size, beyond, bs), i, fs.files[i].start, size, bs)
  {
    OwnBits(fs, i, bs);
  }

  lemma ScanIs(fs: Fs, beyond: nat -> bool, i: nat, size: nat, bs: nat)
    requires 0 < bs && i < |fs.files|
    ensures var f := fs.files[i];
            InPlaceAccepted(fs, beyond, i, size, bs) <==>
            ScanPasses(fs.bits, beyond, f.start, OwnPassed(Blocks(f.size, bs)), CeilDiv(size, bs))
  {
    var f := fs.files[i];
    assert SearchOwn(f, bs) == OwnPassed(Blocks(f.size, bs));
    if InPlaceAccepted(fs, beyond, i, size, bs) {
      forall b | f.start + SearchOwn(f, bs) < b <= f.start + CeilDiv(size, bs)
        ensures if b < |fs.bits| then !fs.bits[b] else !beyond(b)
      {
        assert !BitAt(fs.bits, beyond, b);
      }
    }
  }

  /** Past the first scan. */
  lemma SearchedWhere(fs: Fs, i: nat, size: nat, beyond: nat -> bool, bs: nat)
    requires 0 < bs && FsOk(fs, bs) && i < |fs.files| && Blocks(fs.files[i].size, bs) < CeilDiv(size, bs)
    requires !InPlaceAccepted(fs, beyond, i, size, bs)
    ensures var f, need, fs' := fs.files[i], CeilDiv(size, bs), Truncated(fs, i, size, beyond, bs);
            var own := OwnPassed(Blocks(f.size, bs));
            if exists p :: Room(fs.bits, f.start, own, need, p) then
              exists p :: LeftmostRoom(fs.bits, f.start, own, need, p) && EntryAt(fs, fs', i, p, size, bs)
            else if CountClear(fs.bits) + Blocks(f.size, bs) >= need then PackedEntries(fs, fs', i, size, bs)
            else fs' == fs
  {
    var need := CeilDiv(size, bs);
    var r := FirstRun(SearchBits(fs, i, bs), need);
    SearchedPlan(fs, i, size, beyond, bs);
    if r < |fs.bits| {
      RoomFound(fs, i, need, bs);
      RelocatedEntry(fs, i, r, size, bs);
    } else {
      NoRoomAt(fs, i, need, bs);
      CompactedEntries(fs, i, size, bs);
    }
  }

  lemma SearchedPlan(fs: Fs, i: nat, size: nat, beyond: nat -> bool, bs: nat)
    requires 0 < bs && i < |fs.files| && Blocks(fs.files[i].size, bs) < CeilDiv(size, bs)
    requires !InPlaceAccepted(fs, beyond, i, size, bs)
    ensures var need, fs' := CeilDiv(size, bs), Truncated(fs, i, size, beyond, bs);
            var r := FirstRun(SearchBits(fs, i, bs), need);
            if r < |fs.bits| then fs' == Relocated(fs, i, r, size, bs)
            else if CountClear(fs.bits) + Blocks(fs.files[i].size, bs) >= need then fs' == Compacted(fs, i, size, bs)
            else fs' == fs
  {
    var need := CeilDiv(size, bs);
    var r := FirstRun(SearchBits(fs, i, bs), need);
    SearchedIs(fs, i, size, beyond, need, r, bs);
    CarriedIs(fs, i, PlanOf(fs, i, size, beyond, bs), size, bs);
  }

  lemma SearchedIs(fs: Fs, i: nat, size: nat, beyond: nat -> bool, need: nat, r: nat, bs: nat)
    requires 0 < bs && i < |fs.files| && need == CeilDiv(size, bs) && Blocks(fs.files[i].size, bs) < need
    requires !InPlaceAccepted(fs, beyond, i, size, bs) && r == FirstRun(SearchBits(fs, i, bs), need)
    ensures PlanOf(fs, i, size, beyond, bs) ==
            if r < |fs.bits| then MoveTo(r)
            else if CountClear(fs.bits) + Blocks(fs.files[i].size, bs) >= need then Compact else Fail
  {
  }

  lemma CarriedIs(fs: Fs, i: nat, plan: Plan, size: nat, bs: nat)
    requires 0 < bs && i < |fs.files| && (plan.MoveTo? || plan.Compact? || plan.Fail?)
    ensures plan.MoveTo? ==> Carried(fs, i, plan, size, bs) == Relocated(fs, i, plan.p, size, bs)
    ensures plan.Compact? ==> Carried(fs, i, plan, size, bs) == Compacted(fs, i, size, bs)
    ensures plan.Fail? ==> Carried(fs, i, plan, size, bs) == fs
  {
  }

  lemma RelocatedEntry(fs: Fs, i: nat, p: nat, size: nat, bs: nat)
    requires 0 < bs && FsOk(fs, bs) && i < |fs.files| && Blocks(fs.files[i].size, bs) < CeilDiv(size, bs)
    ensures EntryAt(fs, Relocated(fs, i, p, size, bs), i, p, size, bs)
  {
    OwnBits(fs, i, bs);
  }

  lemma RoomFound(fs: Fs, i: nat, need: nat, bs: nat)
    requires 0 < bs && i < |fs.files| && FirstRun(SearchBits(fs, i, bs), need) < |fs.bits|
    ensures var f, r := fs.files[i], FirstRun(SearchBits(fs, i, bs), need);
            LeftmostRoom(fs.bits, f.start, OwnPassed(Blocks(f.size, bs)), need, r)
  {
    var f, r := fs.files[i], FirstRun(SearchBits(fs, i, bs), need);
    var own := OwnPassed(Blocks(f.size, bs));
    RoomIsRun(fs, i, need, r, bs);
    forall q | 0 <= q < r
      ensures !Room(fs.bits, f.start, own, need, q)
    {
      RoomIsRun(fs, i, need, q, bs);
    }
  }

  lemma NoRoomAt(fs: Fs, i: nat, need: nat, bs: nat)
    requires 0 < bs && i < |fs.files| && 0 < need && FirstRun(SearchBits(fs, i, bs), need) == |fs.bits|
    ensures var f := fs.files[i]; !exists p :: Room(fs.bits, f.start, OwnPassed(Blocks(f.size, bs)), need, p)
  {
    forall p | 0 <= p
      ensures !Room(fs.bits, fs.files[i].start, OwnPassed(Blocks(fs.files[i].size, bs)), need, p)
    {
      RoomIsRun(fs, i, need, p, bs);
    }
  }

  // One block

  /** "a" on block 0 and "b" on block 1, of a disk of eight 16-byte blocks. */
  function Neighbours(): Fs {
    Fs([true, true, false, false, false, false, false, false], [File("a", 0, 1), File("b", 1, 1)],
       map["a" := Metadata(0, 1), "b" := Metadata(1, 1)])
  }

  lemma NeighboursOk()
    ensures FsOk(Neighbours(), 16)
  {
    var fs := Neighbours();
    assert "a"[0] != "b"[0] && Blocks(1, 16) == 1;
    forall b | 0 <= b < 8
      ensures fs.bits[b] <==> Taken(fs.files, b, 16)
    {
      assert Has(fs.files[0], b, 16) <==> b == 0;
      assert Has(fs.files[1], b, 16) <==> b == 1;
    }
    forall name | name in fs.metadata
      ensures exists k :: 0 <= k < |fs.files| && fs.files[k].name == name
    {
      assert fs.files[0].name == "a" && fs.files[1].name == "b";
    }
  }

  lemma NeighboursScan(beyond: nat -> bool)
    ensures CeilDiv(32, 16) == 2 && Blocks(1, 16) == 1 && OwnPassed(1) == 0
    ensures !ScanPasses(Neighbours().bits, beyond, 0, 0, 2)
  {
    assert Neighbours().bits[1];
  }

  /** A file of one block does not grow over its neighbour: "a" moves to block 2. */
  lemma OneBlockMoves(beyond: nat -> bool)
    ensures FsOk(Neighbours(), 16) && EntryAt(Neighbours(), Truncated(Neighbours(), 0, 32, beyond, 16), 0, 2, 32, 16)
  {
    NeighboursOk();
    NeighboursScan(beyond);
    RoomOfNeighbours();
    TruncatedWhere(Neighbours(), 0, 32, beyond, 16);
  }

  lemma RoomOfNeighbours()
    ensures forall p :: LeftmostRoom(Neighbours().bits, 0, 0, 2, p) <==> p == 2
    ensures Room(Neighbours().bits, 0, 0, 2, 2)
  {
    var bits := Neighbours().bits;
    assert Room(bits, 0, 0, 2, 2);
    assert bits[0] && bits[1];
    assert !Room(bits, 0, 0, 2, 0) && !Room(bits, 0, 0, 2, 1);
  }
}
