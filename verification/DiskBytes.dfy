/**
 Every byte of the disk after TRUNCATE (entradasalida/src/instrucciones_io.c:224-408), those in no file
 included: with the bitmap and the entries of Placement, the whole disk.
 */
module DiskBytes {
  import opened Arith
  import opened Bits
  import opened FlatMemory
  import opened FileSystem
  import opened FileOps
  import opened FileData
  import opened FileOrder
  import opened Memmoves
  import opened Compaction
  import opened Repacking
  import opened Truncation
  import opened Placement

  /** Bytes [lo, hi) read zero, and the others as before. */
  ghost predicate WipedBetween(data: seq<Byte>, data': seq<Byte>, lo: int, hi: int) {
    |data'| == |data| && forall x | 0 <= x < |data| :: data'[x] == if lo <= x < hi then 0 else data[x]
  }

  /** `n` bytes from `from` on are now also at `to`, and the others as before. */
  ghost predicate CopiedTo(data: seq<Byte>, data': seq<Byte>, from: int, to: int, n: int) {
    && |data'| == |data| && 0 <= from <= from + n <= |data|
    && forall x | 0 <= x < |data| :: data'[x] == if to <= x < to + n then data[x - to + from] else data[x]
  }

  ghost predicate Lands(data: seq<Byte>, data': seq<Byte>, from: int, to: int, n: int) {
    && 0 <= from <= from + n <= |data| && 0 <= to <= to + n <= |data'|
    && data'[to..to + n] == data[from..from + n]
  }

  /**
   The others land with all bytes of their blocks, where Placement says, and the truncated file with its
   own bytes only; what lies behind these is as before.
   */
  ghost predicate PackedDisk(fs: Fs, i: nat, data: seq<Byte>, data': seq<Byte>, bs: nat)
    requires 0 < bs && i < |fs.files|
  {
    var f, others := fs.files[i], Others(fs.files, i);
    var behind := BlocksBelow(others, |fs.bits|, bs) * bs;
    && |data'| == |data|
    && (forall g <- others ::
          Lands(data, data', g.start * bs, BlocksBelow(others, g.start, bs) * bs, CeilDiv(g.size, bs) * bs))
    && Lands(data, data', f.start * bs, behind, f.size)
    && data'[behind + f.size..] == data[behind + f.size..]
  }

  lemma ShrunkBytes(data: seq<Byte>, f: File, size: nat, bs: nat)
    requires 0 < bs && CeilDiv(size, bs) <= Blocks(f.size, bs)
    requires (f.start + Blocks(f.size, bs)) * bs <= |data|
    ensures WipedBetween(data, ShrunkData(data, f, size, bs), (f.start + CeilDiv(size, bs)) * bs,
                         (f.start + Blocks(f.size, bs)) * bs)
  {
    MulDistributes(f.start + CeilDiv(size, bs), Blocks(f.size, bs) - CeilDiv(size, bs), bs);
  }

  lemma MovedBytes(data: seq<Byte>, f: File, p: nat, bs: nat)
    requires 0 < bs
    requires (f.start + Blocks(f.size, bs)) * bs <= |data| && p * bs + Blocks(f.size, bs) * bs <= |data|
    ensures CopiedTo(data, MovedData(data, f, p, bs), f.start * bs, p * bs, Blocks(f.size, bs) * bs)
  {
    MulDistributes(f.start, Blocks(f.size, bs), bs);
  }

  // Packing

  lemma LandsBelow(data: seq<Byte>, packed: seq<Byte>, m: Move, at: nat, piece: seq<Byte>)
    requires Lands(data, packed, m.from, m.to, m.n) && m.to + m.n <= at && at + |piece| <= |packed|
    ensures Lands(data, Splice(packed, at, piece), m.from, m.to, m.n)
  {
    SliceAway(packed, at, piece, m.to, m.n);
  }

  lemma MoveEnds(files: seq<File>, k: nat, bs: nat)
    requires 0 < bs && k < |files|
    ensures MoveOf(files, k, bs).to + MoveOf(files, k, bs).n == Used(files[..k + 1], bs) * bs
  {
    UsedStep(files, k, bs);
    MulDistributes(Used(files[..k], bs), CeilDiv(files[k].size, bs), bs);
  }

  /** The end of the pass is where the truncated file is put. */
  lemma PassEnds(files: seq<File>, bs: nat)
    requires 0 < bs
    ensures End(Moves(files, bs)) == Used(files, bs) * bs
  {
    if files != [] {
      MoveEnds(files, |files| - 1, bs);
      assert files[..|files|] == files;
    }
  }

  lemma PackedLands(data: seq<Byte>, files: seq<File>, k: nat, count: nat, bs: nat)
    requires 0 < bs && |data| == count * bs && Ahead(files, count, bs) && k < |files|
    ensures var m := MoveOf(files, k, bs);
            Lands(data, Packed(data, files, count, bs), m.from, m.to, m.n) && m.to + m.n <= Used(files, bs) * bs
  {
    MovesAreOk(files, count, bs);
    SliceArrives(data, Moves(files, bs), k, MoveOf(files, k, bs).n);
    EndsInOrder(Moves(files, bs), |data|, k);
    PassEnds(files, bs);
  }

  lemma PackedBehind(data: seq<Byte>, files: seq<File>, count: nat, bs: nat)
    requires 0 < bs && |data| == count * bs && Ahead(files, count, bs)
    ensures forall x | Used(files, bs) * bs <= x < |data| :: Packed(data, files, count, bs)[x] == data[x]
  {
    MovesAreOk(files, count, bs);
    PassEnds(files, bs);
    forall x | Used(files, bs) * bs <= x < |data|
      ensures Packed(data, files, count, bs)[x] == data[x]
    {
      MovedBeyond(data, Moves(files, bs), x);
    }
  }

  /** With the saved copy behind the pass. */
  lemma CompactedLands(data: seq<Byte>, order: seq<File>, k: nat, count: nat, bs: nat)
    requires 0 < bs && Compactable(data, order, count, bs) && k < |order| - 1
    ensures var m := MoveOf(order, k, bs); Lands(data, CompactedData(data, order, count, bs), m.from, m.to, m.n)
  {
    var t := |order| - 1;
    PackedLands(data, order[..t], k, count, bs);
    assert order[..t][..k] == order[..k];
    LandsBelow(data, Packed(data, order[..t], count, bs), MoveOf(order, k, bs), Used(order[..t], bs) * bs,
               Content(data, order[t], bs));
  }

  lemma CompactedBehind(data: seq<Byte>, order: seq<File>, count: nat, bs: nat)
    requires 0 < bs && Compactable(data, order, count, bs)
    ensures var t, data' := |order| - 1, CompactedData(data, order, count, bs);
            var behind := Used(order[..t], bs) * bs;
            && Lands(data, data', order[t].start * bs, behind, order[t].size)
            && data'[behind + order[t].size..] == data[behind + order[t].size..]
  {
    var t := |order| - 1;
    PackedBehind(data, order[..t], count, bs);
    SliceThere(Packed(data, order[..t], count, bs), Used(order[..t], bs) * bs, Content(data, order[t], bs));
  }

  lemma CompactedDisk(fs: Fs, i: nat, data: seq<Byte>, bs: nat)
    requires 0 < bs && FsOk(fs, bs) && i < |fs.files| && |data| == |fs.bits| * bs
    ensures Compactable(data, Arranged(fs.files, fs.files[i].name), |fs.bits|, bs)
    ensures PackedDisk(fs, i, data, CompactedData(data, Arranged(fs.files, fs.files[i].name), |fs.bits|, bs), bs)
  {
    var order := Arranged(fs.files, fs.files[i].name);
    CompactionFits(fs, i, data, bs);
    OthersAre(fs, i, bs);
    ArrangedDisk(fs, i, bs);
    StartsDiffer(order, |fs.bits|, bs);
    OrderedDisk(fs, i, order, data, bs);
  }

  lemma OrderedDisk(fs: Fs, i: nat, order: seq<File>, data: seq<Byte>, bs: nat)
    requires 0 < bs && i < |fs.files| && Compactable(data, order, |fs.bits|, bs) && order[|order| - 1] == fs.files[i]
    requires multiset(order[..|order| - 1]) == multiset(Others(fs.files, i))
    requires forall a, b | 0 <= a < b < |order| - 1 :: order[a].start < order[b].start
    requires forall k | 0 <= k < |order| :: order[k].start < |fs.bits|
    ensures PackedDisk(fs, i, data, CompactedData(data, order, |fs.bits|, bs), bs)
  {
    var others := Others(fs.files, i);
    CompactedBehind(data, order, |fs.bits|, bs);
    LastPlace(order, others, |fs.bits|, bs);
    forall g | g in others
      ensures Lands(data, CompactedData(data, order, |fs.bits|, bs), g.start * bs,
                    BlocksBelow(others, g.start, bs) * bs, CeilDiv(g.size, bs) * bs)
    {
      InSame(others, order[..|order| - 1], g);
      var k :| 0 <= k < |order| - 1 && order[..|order| - 1][k] == g;
      CompactedLands(data, order, k, |fs.bits|, bs);
      MovePlace(order, others, k, bs);
    }
  }

  /** Where the pass puts a file, told without its order. */
  lemma MovePlace(order: seq<File>, others: seq<File>, k: nat, bs: nat)
    requires 0 < bs && k < |order| - 1 && multiset(order[..|order| - 1]) == multiset(others)
    requires forall a, b | 0 <= a < b < |order| - 1 :: order[a].start < order[b].start
    ensures MoveOf(order, k, bs) == Move(BlocksBelow(others, order[k].start, bs) * bs, order[k].start * bs,
                                         CeilDiv(order[k].size, bs) * bs)
  {
    var first := order[..|order| - 1];
    BelowSame(first, others, order[k].start, bs);
    BelowIsUsed(first, k, |first|, bs);
    assert first[..|first|] == first && first[..k] == order[..k];
  }

  lemma LastPlace(order: seq<File>, others: seq<File>, count: nat, bs: nat)
    requires 0 < bs && order != [] && multiset(order[..|order| - 1]) == multiset(others)
    requires forall k | 0 <= k < |order| :: order[k].start < count
    ensures BlocksBelow(others, count, bs) == Used(order[..|order| - 1], bs)
  {
    BelowSame(order[..|order| - 1], others, count, bs);
    AllBelow(order[..|order| - 1], count, bs);
  }

  // TRUNCATE

  /**
   A smaller file has its freed blocks wiped; one that stays leaves the disk as it is; one that moves takes
   all bytes of its blocks along, the rest of the last one included.
   */
  lemma TruncatedBytes(fs: Fs, i: nat, size: nat, beyond: nat -> bool, data: seq<Byte>, bs: nat)
    requires 0 < bs && FsOk(fs, bs) && i < |fs.files| && |data| == |fs.bits| * bs
    ensures var f, need, data' := fs.files[i], CeilDiv(size, bs), TruncatedDisk(fs, i, size, beyond, data, bs);
            var occ := Blocks(f.size, bs);
            var own := OwnPassed(occ);
            if need < occ then WipedBetween(data, data', (f.start + need) * bs, (f.start + occ) * bs)
            else if need == occ || ScanPasses(fs.bits, beyond, f.start, own, need) then data' == data
            else if exists p :: Room(fs.bits, f.start, own, need, p) then
              exists p: nat :: LeftmostRoom(fs.bits, f.start, own, need, p) &&
                          CopiedTo(data, data', f.start * bs, p * bs, occ * bs)
            else if CountClear(fs.bits) + occ >= need then PackedDisk(fs, i, data, data', bs)
            else data' == data
  {
    var f, need := fs.files[i], CeilDiv(size, bs);
    var occ := Blocks(f.size, bs);
    ScanIs(fs, beyond, i, size, bs);
    ExtentBytes(f, |fs.bits|, bs);
    if need < occ {
      ShrunkBytes(data, f, size, bs);
    } else if need > occ && !InPlaceAccepted(fs, beyond, i, size, bs) {
      SearchedBytes(fs, i, size, beyond, data, bs);
    }
  }

  /** Past the first scan. */
  lemma SearchedBytes(fs: Fs, i: nat, size: nat, beyond: nat -> bool, data: seq<Byte>, bs: nat)
    requires 0 < bs && FsOk(fs, bs) && i < |fs.files| && |data| == |fs.bits| * bs
    requires Blocks(fs.files[i].size, bs) < CeilDiv(size, bs) && !InPlaceAccepted(fs, beyond, i, size, bs)
    ensures var f, need, data' := fs.files[i], CeilDiv(size, bs), TruncatedDisk(fs, i, size, beyond, data, bs);
            var occ := Blocks(f.size, bs);
            if exists p :: Room(fs.bits, f.start, OwnPassed(occ), need, p) then
              exists p: nat :: LeftmostRoom(fs.bits, f.start, OwnPassed(occ), need, p) &&
                          CopiedTo(data, data', f.start * bs, p * bs, occ * bs)
            else if CountClear(fs.bits) + occ >= need then PackedDisk(fs, i, data, data', bs)
            else data' == data
  {
    var need := CeilDiv(size, bs);
    var r := FirstRun(SearchBits(fs, i, bs), need);
    SoundIsReady(fs, i, size, beyond, data, bs);
    SearchedIs(fs, i, size, beyond, need, r, bs);
    if r < |fs.bits| {
      RoomFound(fs, i, need, bs);
      RelocatedBytes(fs, i, r, size, data, bs);
    } else {
      NoRoomAt(fs, i, need, bs);
      CompactedDisk(fs, i, data, bs);
    }
  }

  lemma RelocatedBytes(fs: Fs, i: nat, p: nat, size: nat, data: seq<Byte>, bs: nat)
    requires 0 < bs && i < |fs.files| && DataReady(fs, i, MoveTo(p), size, data, bs)
    ensures var f := fs.files[i];
            CopiedTo(data, TruncatedData(fs, i, MoveTo(p), size, data, bs), f.start * bs, p * bs,
                     Blocks(f.size, bs) * bs)
  {
    var f := fs.files[i];
    MulDistributes(f.start, Blocks(f.size, bs), bs);
    if p != f.start {
      MovedBytes(data, f, p, bs);
    }
  }
}
