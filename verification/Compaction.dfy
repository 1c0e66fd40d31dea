/**
 DialFS compaction (entradasalida/src/instrucciones_io.c:250-335, entradasalida/src/dialfs.c:419-441):
 the files are packed to the front of the disk in one pass, the truncated one last, and the bitmap is
 rewritten. It keeps every byte of every file; the bitmap it leaves is right under a condition.
 */
module Compaction {
  import opened Arith
  import opened FlatMemory
  import opened FileSystem
  import opened FileData
  import opened FileOrder
  import opened Memmoves

  // Where the files go

  /** File `k` of the packed list starts after the blocks of the ones before it. */
  ghost function PlacedFile(files: seq<File>, k: nat, bs: nat): File
    requires 0 < bs && k < |files|
  {
    File(files[k].name, Used(files[..k], bs), files[k].size)
  }

  ghost function Placed(files: seq<File>, bs: nat): (r: seq<File>)
    requires 0 < bs
    ensures |r| == |files| && forall k | 0 <= k < |files| :: r[k] == PlacedFile(files, k, bs)
  {
    seq(|files|, k requires 0 <= k < |files| => PlacedFile(files, k, bs))
  }

  lemma UsedStep(files: seq<File>, k: nat, bs: nat)
    requires 0 < bs && k < |files|
    ensures Used(files[..k + 1], bs) == Used(files[..k], bs) + CeilDiv(files[k].size, bs)
  {
    assert files[..k + 1][..k] == files[..k];
  }

  lemma {:induction false} UsedMonotone(files: seq<File>, j: nat, k: nat, bs: nat)
    requires 0 < bs && j <= k <= |files|
    ensures Used(files[..j], bs) <= Used(files[..k], bs)
    decreases k - j
  {
    if j < k {
      UsedMonotone(files, j, k - 1, bs);
      UsedStep(files, k - 1, bs);
    }
  }

  /** A file of the packed list ends before any later one starts. */
  lemma UsedAfter(files: seq<File>, j: nat, k: nat, bs: nat)
    requires 0 < bs && j < k <= |files|
    ensures Used(files[..j], bs) + CeilDiv(files[j].size, bs) <= Used(files[..k], bs)
  {
    UsedStep(files, j, bs);
    UsedMonotone(files, j + 1, k, bs);
  }

  // Moving the bytes

  /** No file has to move up, and each lies on a disk of `count` blocks. */
  ghost predicate Ahead(files: seq<File>, count: nat, bs: nat)
    requires 0 < bs
  {
    forall k | 0 <= k < |files| :: AheadAt(files, k, count, bs)
  }

  ghost predicate AheadAt(files: seq<File>, k: nat, count: nat, bs: nat)
    requires 0 < bs && k < |files|
  {
    Used(files[..k], bs) <= files[k].start && files[k].start + CeilDiv(files[k].size, bs) <= count
  }

  lemma CeilBelowBlocks(f: File, bs: nat)
    requires 0 < bs
    ensures CeilDiv(f.size, bs) <= Blocks(f.size, bs)
  {
    CeilDivLeast(f.size, bs, 0);
  }

  lemma {:induction false} SortedAhead(files: seq<File>, k: nat, count: nat, bs: nat)
    requires 0 < bs && SortedByStart(files) && ExtentsOk(files, count, bs) && k < |files|
    ensures Used(files[..k], bs) <= files[k].start
  {
    if k > 0 {
      SortedAhead(files, k - 1, count, bs);
      UsedStep(files, k - 1, bs);
      CeilBelowBlocks(files[k - 1], bs);
      assert Apart(files[k - 1], files[k], bs);
    }
  }

  lemma SortedAllAhead(files: seq<File>, count: nat, bs: nat)
    requires 0 < bs && SortedByStart(files) && ExtentsOk(files, count, bs)
    ensures Ahead(files, count, bs)
  {
    forall k | 0 <= k < |files|
      ensures AheadAt(files, k, count, bs)
    {
      SortedAhead(files, k, count, bs);
      CeilBelowBlocks(files[k], bs);
    }
  }

  lemma AheadBytes(f: File, u: nat, count: nat, bs: nat)
    requires 0 < bs && u <= f.start && f.start + CeilDiv(f.size, bs) <= count
    ensures var n := CeilDiv(f.size, bs) * bs;
            f.size <= n && u * bs <= f.start * bs && f.start * bs + n <= count * bs
  {
    CeilDivLeast(f.size, bs, CeilDiv(f.size, bs));
    MulMonotone(u, f.start, bs);
    MulMonotone(f.start + CeilDiv(f.size, bs), count, bs);
    MulDistributes(f.start, CeilDiv(f.size, bs), bs);
  }

  lemma AfterBytes(files: seq<File>, j: nat, k: nat, bs: nat)
    requires 0 < bs && j < k <= |files|
    ensures Used(files[..j], bs) * bs + CeilDiv(files[j].size, bs) * bs <= Used(files[..k], bs) * bs
  {
    var u, c := Used(files[..j], bs), CeilDiv(files[j].size, bs);
    UsedAfter(files, j, k, bs);
    MulDistributes(u, c, bs);
    MulMonotone(u + c, Used(files[..k], bs), bs);
  }

  /** The move of file `k`: whole blocks, to where the ones before it end. */
  ghost function MoveOf(files: seq<File>, k: nat, bs: nat): Move
    requires 0 < bs && k < |files|
  {
    Move(Used(files[..k], bs) * bs, files[k].start * bs, CeilDiv(files[k].size, bs) * bs)
  }

  ghost function Moves(files: seq<File>, bs: nat): (r: seq<Move>)
    requires 0 < bs
    ensures |r| == |files| && forall k | 0 <= k < |files| :: r[k] == MoveOf(files, k, bs)
  {
    seq(|files|, k requires 0 <= k < |files| => MoveOf(files, k, bs))
  }

  lemma {:induction false} MovesAreOk(files: seq<File>, count: nat, bs: nat)
    requires 0 < bs && Ahead(files, count, bs)
    ensures MovesOk(Moves(files, bs), count * bs)
  {
    if files != [] {
      var k := |files| - 1;
      AheadPrefix(files, k, count, bs);
      MovesAreOk(files[..k], count, bs);
      MovesPrefix(files, k, bs);
      assert AheadAt(files, k, count, bs);
      AheadBytes(files[k], Used(files[..k], bs), count, bs);
      if k > 0 {
        AfterBytes(files, k - 1, k, bs);
      }
    }
  }

  lemma MovesPrefix(files: seq<File>, k: nat, bs: nat)
    requires 0 < bs && k <= |files|
    ensures Moves(files, bs)[..k] == Moves(files[..k], bs)
  {
    forall j | 0 <= j < k
      ensures MoveOf(files, j, bs) == MoveOf(files[..k], j, bs)
    {
      assert files[..k][..j] == files[..j];
    }
  }

  lemma AheadPrefix(files: seq<File>, k: nat, count: nat, bs: nat)
    requires 0 < bs && Ahead(files, count, bs) && k <= |files|
    ensures Ahead(files[..k], count, bs)
  {
    forall j | 0 <= j < k
      ensures AheadAt(files[..k], j, count, bs)
    {
      assert AheadAt(files, j, count, bs);
      assert files[..k][..j] == files[..j];
    }
  }

  lemma MoveBytes(files: seq<File>, j: nat, count: nat, bs: nat)
    requires 0 < bs && Ahead(files, count, bs) && j < |files|
    ensures var m := Moves(files, bs)[j];
            && m.to == PlacedFile(files, j, bs).start * bs && m.from == files[j].start * bs
            && files[j].size <= m.n && m.to <= m.from && m.from + m.n <= count * bs
  {
    assert AheadAt(files, j, count, bs);
    AheadBytes(files[j], Used(files[..j], bs), count, bs);
  }

  /** The disk after the pass over `files`. */
  ghost function Packed(data: seq<Byte>, files: seq<File>, count: nat, bs: nat): (r: seq<Byte>)
    requires 0 < bs && |data| == count * bs && Ahead(files, count, bs)
    ensures |r| == |data|
  {
    MovesAreOk(files, count, bs);
    Moved(data, Moves(files, bs))
  }

  /** After the pass, every file's bytes are at the place that the list computes for it. */
  lemma PackedContent(data: seq<Byte>, files: seq<File>, j: nat, count: nat, bs: nat)
    requires 0 < bs && |data| == count * bs && Ahead(files, count, bs) && j < |files|
    ensures OnDisk(data, files[j], bs) && OnDisk(data, PlacedFile(files, j, bs), bs)
    ensures Content(Packed(data, files, count, bs), PlacedFile(files, j, bs), bs) == Content(data, files[j], bs)
  {
    MovesAreOk(files, count, bs);
    MoveBytes(files, j, count, bs);
    SliceArrives(data, Moves(files, bs), j, files[j].size);
  }
}
