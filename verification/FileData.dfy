/**
 The bytes of the DialFS blocks (bloques.dat): what a file holds, and that an operation on one
 file leaves the bytes of the others alone.
 */
module FileData {
  import opened Arith
  import opened Bits
  import opened FlatMemory
  import opened FileSystem
  import opened FileOps

  ghost predicate OnDisk(data: seq<Byte>, f: File, bs: nat) {
    f.start * bs + f.size <= |data|
  }

  /** The file's bytes [0, size). */
  ghost function Content(data: seq<Byte>, f: File, bs: nat): (r: seq<Byte>)
    requires OnDisk(data, f, bs)
    ensures |r| == f.size
  {
    data[f.start * bs..f.start * bs + f.size]
  }

  /** A file's bytes fit its blocks, and its blocks fit the disk. */
  lemma ExtentBytes(f: File, count: nat, bs: nat)
    requires 0 < bs && f.start + Blocks(f.size, bs) <= count
    ensures f.start * bs + f.size <= (f.start + Blocks(f.size, bs)) * bs <= count * bs
  {
    CeilDivLeast(f.size, bs, Blocks(f.size, bs));
    MulDistributes(f.start, Blocks(f.size, bs), bs);
    MulMonotone(f.start + Blocks(f.size, bs), count, bs);
  }

  lemma AllOnDisk(files: seq<File>, data: seq<Byte>, count: nat, bs: nat)
    requires 0 < bs && ExtentsOk(files, count, bs) && |data| == count * bs
    ensures forall k | 0 <= k < |files| :: OnDisk(data, files[k], bs)
  {
    forall k | 0 <= k < |files|
      ensures OnDisk(data, files[k], bs)
    {
      ExtentBytes(files[k], count, bs);
    }
  }

  lemma SliceAway(data: seq<Byte>, at: nat, piece: seq<Byte>, from: nat, n: nat)
    requires at + |piece| <= |data| && from + n <= |data|
    requires n == 0 || piece == [] || at + |piece| <= from || from + n <= at
    ensures Splice(data, at, piece)[from..from + n] == data[from..from + n]
  {
  }

  lemma SliceMoved(data: seq<Byte>, from: nat, len: nat, to: nat, n: nat)
    requires from + len <= |data| && to + len <= |data| && n <= len
    ensures Splice(data, to, data[from..from + len])[to..to + n] == data[from..from + n]
  {
    var piece := data[from..from + len];
    var l, r := Splice(data, to, piece)[to..to + n], data[from..from + n];
    forall x | 0 <= x < n
      ensures l[x] == r[x]
    {
      assert l[x] == piece[x];
    }
  }

  /** Replacing bytes that lie outside the file's leaves its content. */
  lemma SpliceAway(data: seq<Byte>, at: nat, piece: seq<Byte>, f: File, bs: nat)
    requires OnDisk(data, f, bs) && at + |piece| <= |data|
    requires at + |piece| <= f.start * bs || f.start * bs + f.size <= at
    ensures Content(Splice(data, at, piece), f, bs) == Content(data, f, bs)
  {
    SliceAway(data, at, piece, f.start * bs, f.size);
  }

  /** Every other file has the bytes it had. */
  ghost predicate OthersKept(files: seq<File>, i: nat, data: seq<Byte>, data': seq<Byte>, bs: nat) {
    forall k | 0 <= k < |files| && k != i ::
      OnDisk(data, files[k], bs) && OnDisk(data', files[k], bs) &&
      Content(data', files[k], bs) == Content(data, files[k], bs)
  }

  /** The blocks from `b` on, `n` of them, belong to no file but `i`. */
  ghost predicate NoneElse(files: seq<File>, i: nat, b: nat, n: nat, bs: nat)
    requires 0 < bs
  {
    forall x | b <= x < b + n :: !TakenElse(files, i, x, bs)
  }

  lemma BlocksAway(files: seq<File>, i: nat, k: nat, b: nat, n: nat, bs: nat)
    requires 0 < bs && NoneElse(files, i, b, n, bs) && 0 < n && k < |files| && k != i
    ensures b + n <= files[k].start || files[k].start + Blocks(files[k].size, bs) <= b
  {
    var g := files[k];
    var x := if g.start < b then b else g.start;
    if g.start < b + n && b < g.start + Blocks(g.size, bs) {
      assert !TakenElse(files, i, x, bs);
      assert Has(g, x, bs);
    }
  }

  /** Writing within such blocks keeps every other file. */
  lemma SpliceKeeps(files: seq<File>, i: nat, data: seq<Byte>, at: nat, piece: seq<Byte>, b: nat, n: nat,
          count: nat, bs: nat)
    requires 0 < bs && ExtentsOk(files, count, bs) && |data| == count * bs
    requires 0 < n && NoneElse(files, i, b, n, bs)
    requires b * bs <= at && at + |piece| <= (b + n) * bs && at + |piece| <= |data|
    ensures OthersKept(files, i, data, Splice(data, at, piece), bs)
  {
    AllOnDisk(files, data, count, bs);
    forall k | 0 <= k < |files| && k != i
      ensures Content(Splice(data, at, piece), files[k], bs) == Content(data, files[k], bs)
    {
      var g := files[k];
      BlocksAway(files, i, k, b, n, bs);
      ExtentBytes(g, count, bs);
      if b + n <= g.start {
        MulMonotone(b + n, g.start, bs);
      } else {
        MulMonotone(g.start + Blocks(g.size, bs), b, bs);
      }
      SpliceAway(data, at, piece, g, bs);
    }
  }

  /** A file's own blocks belong to no other. */
  lemma OwnBlocks(fs: Fs, i: nat, bs: nat)
    requires 0 < bs && FsOk(fs, bs) && i < |fs.files|
    ensures NoneElse(fs.files, i, fs.files[i].start, Blocks(fs.files[i].size, bs), bs)
  {
    var f := fs.files[i];
    forall x | f.start <= x < f.start + Blocks(f.size, bs)
      ensures !TakenElse(fs.files, i, x, bs)
    {
      TakenByOther(fs, i, x, bs);
    }
  }

  // Shrinking

  ghost function ShrunkData(data: seq<Byte>, f: File, size: nat, bs: nat): seq<Byte>
    requires 0 < bs && CeilDiv(size, bs) <= Blocks(f.size, bs)
    requires (f.start + Blocks(f.size, bs)) * bs <= |data|
  {
    var need, occ := CeilDiv(size, bs), Blocks(f.size, bs);
    MulDistributes(f.start + need, occ - need, bs);
    Splice(data, (f.start + need) * bs, Zeros((occ - need) * bs))
  }

  lemma ShrunkSmaller(f: File, size: nat, bs: nat)
    requires 0 < bs && CeilDiv(size, bs) < Blocks(f.size, bs)
    ensures size <= CeilDiv(size, bs) * bs && size <= f.size
  {
    CeilDivLeast(size, bs, CeilDiv(size, bs));
    if f.size < size {
      CeilDivLeast(f.size, bs, CeilDiv(size, bs));
      CeilDivLeast(size, bs, 0);
    }
  }

  lemma ShrunkContent(data: seq<Byte>, f: File, size: nat, bs: nat)
    requires 0 < bs && CeilDiv(size, bs) < Blocks(f.size, bs)
    requires (f.start + Blocks(f.size, bs)) * bs <= |data|
    ensures OnDisk(data, f, bs) && size <= f.size &&
            OnDisk(ShrunkData(data, f, size, bs), File(f.name, f.start, size), bs)
    ensures Content(ShrunkData(data, f, size, bs), File(f.name, f.start, size), bs) == Content(data, f, bs)[..size]
  {
    var need, occ := CeilDiv(size, bs), Blocks(f.size, bs);
    ExtentBytes(f, f.start + occ, bs);
    ShrunkSmaller(f, size, bs);
    MulDistributes(f.start + need, occ - need, bs);
    MulDistributes(f.start, need, bs);
    SliceAway(data, (f.start + need) * bs, Zeros((occ - need) * bs), f.start * bs, size);
    SlicePrefix(data, f.start * bs, f.size, size);
  }

  lemma SlicePrefix(data: seq<Byte>, from: nat, n: nat, m: nat)
    requires from + n <= |data| && m <= n
    ensures data[from..from + n][..m] == data[from..from + m]
  {
  }

  /** A shrunk file keeps the bytes it still has, the others keep all of theirs. */
  lemma ShrinkKeeps(fs: Fs, i: nat, size: nat, data: seq<Byte>, bs: nat)
    requires 0 < bs && FsOk(fs, bs) && i < |fs.files| && CeilDiv(size, bs) < Blocks(fs.files[i].size, bs)
    requires |data| == |fs.bits| * bs
    ensures (fs.files[i].start + Blocks(fs.files[i].size, bs)) * bs <= |data|
    ensures var f, data' := fs.files[i], ShrunkData(data, fs.files[i], size, bs);
            && OthersKept(fs.files, i, data, data', bs)
            && OnDisk(data, f, bs) && size <= f.size && OnDisk(data', File(f.name, f.start, size), bs)
            && Content(data', File(f.name, f.start, size), bs) == Content(data, f, bs)[..size]
  {
    var f, need, occ := fs.files[i], CeilDiv(size, bs), Blocks(fs.files[i].size, bs);
    ExtentBytes(f, |fs.bits|, bs);
    ShrunkContent(data, f, size, bs);
    MulDistributes(f.start + need, occ - need, bs);
    MulMonotone(f.start, f.start + need, bs);
    OwnBlocks(fs, i, bs);
    SpliceKeeps(fs.files, i, data, (f.start + need) * bs, Zeros((occ - need) * bs), f.start, occ, |fs.bits|, bs);
  }

  /** The blocks that a shrink frees are wiped. */
  lemma ShrinkWipes(data: seq<Byte>, f: File, size: nat, bs: nat, x: nat)
    requires 0 < bs && CeilDiv(size, bs) <= Blocks(f.size, bs)
    requires (f.start + Blocks(f.size, bs)) * bs <= |data|
    requires (f.start + CeilDiv(size, bs)) * bs <= x < (f.start + Blocks(f.size, bs)) * bs
    ensures ShrunkData(data, f, size, bs)[x] == 0
  {
    MulDistributes(f.start + CeilDiv(size, bs), Blocks(f.size, bs) - CeilDiv(size, bs), bs);
  }

  // Moving a file to other blocks

  /** The bytes of all its blocks. */
  ghost function MovedPiece(data: seq<Byte>, f: File, bs: nat): (r: seq<Byte>)
    requires 0 < bs && (f.start + Blocks(f.size, bs)) * bs <= |data|
    ensures |r| == Blocks(f.size, bs) * bs
  {
    MulDistributes(f.start, Blocks(f.size, bs), bs);
    data[f.start * bs..f.start * bs + Blocks(f.size, bs) * bs]
  }

  ghost function MovedData(data: seq<Byte>, f: File, p: nat, bs: nat): seq<Byte>
    requires 0 < bs
    requires (f.start + Blocks(f.size, bs)) * bs <= |data| && p * bs + Blocks(f.size, bs) * bs <= |data|
  {
    Splice(data, p * bs, MovedPiece(data, f, bs))
  }

  lemma MovedContent(data: seq<Byte>, f: File, p: nat, bs: nat)
    requires 0 < bs
    requires (f.start + Blocks(f.size, bs)) * bs <= |data| && p * bs + Blocks(f.size, bs) * bs <= |data|
    ensures OnDisk(data, f, bs) && OnDisk(MovedData(data, f, p, bs), File(f.name, p, f.size), bs)
    ensures Content(MovedData(data, f, p, bs), File(f.name, p, f.size), bs) == Content(data, f, bs)
  {
    ExtentBytes(f, f.start + Blocks(f.size, bs), bs);
    MulDistributes(f.start, Blocks(f.size, bs), bs);
    SliceMoved(data, f.start * bs, Blocks(f.size, bs) * bs, p * bs, f.size);
  }

  /** The run that the search found belongs to no other file. */
  lemma RunNotElse(fs: Fs, i: nat, p: nat, need: nat, bs: nat)
    requires 0 < bs && FsOk(fs, bs) && i < |fs.files| && FreeRun(SearchBits(fs, i, bs), p, need)
    ensures p + need <= |fs.bits| && NoneElse(fs.files, i, p, need, bs)
  {
    RunFits(fs, i, p, need, bs);
    forall x | p <= x < p + need
      ensures !TakenElse(fs.files, i, x, bs)
    {
      TakenByOther(fs, i, x, bs);
    }
  }

  lemma RunBytes(p: nat, occ: nat, need: nat, count: nat, bs: nat)
    requires occ <= need && p + need <= count
    ensures p * bs + occ * bs <= (p + need) * bs <= count * bs
  {
    MulMonotone(p + need, count, bs);
    MulMonotone(p + occ, p + need, bs);
    MulDistributes(p, occ, bs);
  }

  /** The move stays on the disk. */
  lemma RelocationFits(fs: Fs, i: nat, p: nat, size: nat, data: seq<Byte>, bs: nat)
    requires 0 < bs && FsOk(fs, bs) && i < |fs.files| && |data| == |fs.bits| * bs
    requires Blocks(fs.files[i].size, bs) < CeilDiv(size, bs)
    requires FreeRun(SearchBits(fs, i, bs), p, CeilDiv(size, bs))
    ensures var f, need := fs.files[i], CeilDiv(size, bs);
            && (f.start + Blocks(f.size, bs)) * bs <= |data|
            && p * bs + Blocks(f.size, bs) * bs <= (p + need) * bs <= |data|
  {
    RunNotElse(fs, i, p, CeilDiv(size, bs), bs);
    ExtentBytes(fs.files[i], |fs.bits|, bs);
    RunBytes(p, Blocks(fs.files[i].size, bs), CeilDiv(size, bs), |fs.bits|, bs);
  }

  lemma RelocationKeepsOthers(fs: Fs, i: nat, p: nat, need: nat, data: seq<Byte>, bs: nat)
    requires 0 < bs && FsOk(fs, bs) && i < |fs.files| && |data| == |fs.bits| * bs && 0 < need
    requires FreeRun(SearchBits(fs, i, bs), p, need)
    requires var f := fs.files[i];
             && (f.start + Blocks(f.size, bs)) * bs <= |data|
             && p * bs + Blocks(f.size, bs) * bs <= (p + need) * bs <= |data|
    ensures OthersKept(fs.files, i, data, MovedData(data, fs.files[i], p, bs), bs)
  {
    RunNotElse(fs, i, p, need, bs);
    SpliceKeeps(fs.files, i, data, p * bs, MovedPiece(data, fs.files[i], bs), p, need, |fs.bits|, bs);
  }

  /** Relocation, overlapping or not, keeps the file's bytes and everyone else's. */
  lemma RelocationKeeps(fs: Fs, i: nat, p: nat, size: nat, data: seq<Byte>, bs: nat)
    requires 0 < bs && FsOk(fs, bs) && i < |fs.files| && |data| == |fs.bits| * bs
    requires Blocks(fs.files[i].size, bs) < CeilDiv(size, bs)
    requires FreeRun(SearchBits(fs, i, bs), p, CeilDiv(size, bs))
    ensures var f := fs.files[i];
            && (f.start + Blocks(f.size, bs)) * bs <= |data| && p * bs + Blocks(f.size, bs) * bs <= |data|
            && OthersKept(fs.files, i, data, MovedData(data, f, p, bs), bs)
            && OnDisk(data, f, bs) && OnDisk(MovedData(data, f, p, bs), File(f.name, p, f.size), bs)
            && Content(MovedData(data, f, p, bs), File(f.name, p, f.size), bs) == Content(data, f, bs)
  {
    RelocationFits(fs, i, p, size, data, bs);
    RelocationKeepsOthers(fs, i, p, CeilDiv(size, bs), data, bs);
    MovedContent(data, fs.files[i], p, bs);
  }

  // Writing and reading

  /** A write that stays within the file's blocks changes those bytes of the file and no other file. */
  lemma WriteKeeps(fs: Fs, i: nat, ptr: nat, text: seq<Byte>, data: seq<Byte>, bs: nat)
    requires 0 < bs && FsOk(fs, bs) && i < |fs.files| && |data| == |fs.bits| * bs
    requires ptr + |text| <= Blocks(fs.files[i].size, bs) * bs
    ensures fs.files[i].start * bs + ptr + |text| <= |data|
    ensures OthersKept(fs.files, i, data, Splice(data, fs.files[i].start * bs + ptr, text), bs)
  {
    var f := fs.files[i];
    ExtentBytes(f, |fs.bits|, bs);
    MulDistributes(f.start, Blocks(f.size, bs), bs);
    OwnBlocks(fs, i, bs);
    SpliceKeeps(fs.files, i, data, f.start * bs + ptr, text, f.start, Blocks(f.size, bs), |fs.bits|, bs);
  }

  /** ... and the file then holds the text at the pointer. */
  lemma WriteContent(f: File, ptr: nat, text: seq<Byte>, data: seq<Byte>, bs: nat)
    requires OnDisk(data, f, bs) && ptr + |text| <= f.size
    ensures Content(Splice(data, f.start * bs + ptr, text), f, bs) == Splice(Content(data, f, bs), ptr, text)
  {
  }

  /** A byte range that misses the file's bytes. */
  ghost predicate Misses(f: File, at: nat, n: nat, bs: nat) {
    n == 0 || f.size == 0 || at + n <= f.start * bs || f.start * bs + f.size <= at
  }

  /** A range within the blocks of one file misses the other ones. */
  lemma WithinMisses(f: File, g: File, ptr: nat, n: nat, bs: nat)
    requires 0 < bs && Apart(f, g, bs) && ptr + n <= Blocks(f.size, bs) * bs
    ensures Misses(g, f.start * bs + ptr, n, bs)
  {
    MulDistributes(f.start, Blocks(f.size, bs), bs);
    if f.start + Blocks(f.size, bs) <= g.start {
      MulMonotone(f.start + Blocks(f.size, bs), g.start, bs);
    } else {
      ExtentBytes(g, g.start + Blocks(g.size, bs), bs);
      MulMonotone(g.start + Blocks(g.size, bs), f.start, bs);
    }
  }

  lemma MissedKept(f: File, at: nat, text: seq<Byte>, data: seq<Byte>, bs: nat)
    requires OnDisk(data, f, bs) && at + |text| <= |data| && Misses(f, at, |text|, bs)
    ensures Content(Splice(data, at, text), f, bs) == Content(data, f, bs)
  {
    SliceAway(data, at, text, f.start * bs, f.size);
  }

  /** Nothing is checked against the file's size: whatever is written, another file is safe exactly when missed. */
  lemma WriteHarmlessIff(f: File, at: nat, n: nat, data: seq<Byte>, bs: nat)
    requires OnDisk(data, f, bs) && at + n <= |data|
    ensures Misses(f, at, n, bs) <==>
            forall text: seq<Byte> | |text| == n :: Content(Splice(data, at, text), f, bs) == Content(data, f, bs)
  {
    if Misses(f, at, n, bs) {
      forall text: seq<Byte> | |text| == n
        ensures Content(Splice(data, at, text), f, bs) == Content(data, f, bs)
      {
        MissedKept(f, at, text, data, bs);
      }
    } else {
      SliceHit(data, at, n, f.start * bs, f.size);
    }
  }

  lemma SliceHit(data: seq<Byte>, at: nat, n: nat, from: nat, m: nat)
    requires at + n <= |data| && from + m <= |data|
    requires 0 < n && 0 < m && from < at + n && at < from + m
    ensures exists text: seq<Byte> :: |text| == n && Splice(data, at, text)[from..from + m] != data[from..from + m]
  {
    var x := if at < from then from else at;
    var byte: Byte := if data[x] == 0 then 1 else 0;
    var text := seq(n, j => byte);
    assert Splice(data, at, text)[from..from + m][x - from] == byte;
    assert data[from..from + m][x - from] == data[x];
  }
}
