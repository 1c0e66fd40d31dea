/**
 Create, delete and truncate on the DialFS value, without compaction: what each branch does, and
 exactly when it keeps the file system sound.
 */
module FileOps {
  import opened Arith
  import opened Bits
  import opened FileSystem

  /** The first branch of TRUNCATE: free the blocks past the new size. */
  ghost function Shrunk(fs: Fs, i: nat, size: nat, bs: nat): Fs
    requires 0 < bs && i < |fs.files| && CeilDiv(size, bs) <= Blocks(fs.files[i].size, bs)
  {
    var f, need := fs.files[i], CeilDiv(size, bs);
    Resettled(fs, i, f.start, size, Filled(fs.bits, f.start + need, Blocks(f.size, bs) - need, false))
  }

  /** Shrinking to size 0 frees even the block that an empty file keeps; nothing else goes wrong. */
  lemma ShrunkOkIff(fs: Fs, i: nat, size: nat, bs: nat)
    requires 0 < bs && FsOk(fs, bs) && i < |fs.files| && CeilDiv(size, bs) < Blocks(fs.files[i].size, bs)
    ensures FsOk(Shrunk(fs, i, size, bs), bs) <==> 0 < size
  {
    var f, need := fs.files[i], CeilDiv(size, bs);
    var bits := Filled(fs.bits, f.start + need, Blocks(f.size, bs) - need, false);
    CeilDivLeast(size, bs, 0);
    if 0 < size {
      forall b | f.start <= b < f.start + Blocks(f.size, bs)
        ensures fs.bits[b]
      {
        assert Has(f, b, bs);
      }
      ResettledOk(fs, i, f.start, size, bits, bs);
    } else {
      assert need == 0 && !bits[f.start];
      if FsOk(Shrunk(fs, i, size, bs), bs) {
        ResettledOkFits(fs, i, f.start, size, bits, bs);
      }
    }
  }

  /** The last branch: as many blocks as before. */
  function Resized(fs: Fs, i: nat, size: nat): Fs
    requires i < |fs.files|
  {
    Resettled(fs, i, fs.files[i].start, size, fs.bits)
  }

  lemma ResizedOk(fs: Fs, i: nat, size: nat, bs: nat)
    requires 0 < bs && FsOk(fs, bs) && i < |fs.files| && CeilDiv(size, bs) == Blocks(fs.files[i].size, bs)
    ensures FsOk(Resized(fs, i, size), bs)
  {
    var f := fs.files[i];
    CeilDivLeast(size, bs, 0);
    forall b | f.start <= b < f.start + Blocks(f.size, bs)
      ensures fs.bits[b]
    {
      assert Has(f, b, bs);
    }
    ResettledOk(fs, i, f.start, size, fs.bits, bs);
  }

  /** The `bloques_ocupados` that TRUNCATE hands to the search: 0 instead of 1. */
  function SearchOwn(f: File, bs: nat): nat
    requires 0 < bs
  {
    if Blocks(f.size, bs) == 1 then 0 else Blocks(f.size, bs)
  }

  /** A bit as the search reads it; past the bitmap it is whatever the mapped page holds. */
  predicate BitAt(bits: seq<bool>, beyond: nat -> bool, b: nat) {
    if b < |bits| then bits[b] else beyond(b)
  }

  /** The first scan of encontrar_bloques_libres_contiguos_top accepts: it starts one block late. */
  ghost predicate InPlaceAccepted(fs: Fs, beyond: nat -> bool, i: nat, size: nat, bs: nat)
    requires 0 < bs && i < |fs.files|
  {
    var f := fs.files[i];
    forall b | f.start + SearchOwn(f, bs) < b <= f.start + CeilDiv(size, bs) :: !BitAt(fs.bits, beyond, b)
  }

  /** Growing without moving. */
  ghost function InPlace(fs: Fs, i: nat, size: nat, bs: nat): Fs
    requires 0 < bs && i < |fs.files|
  {
    Resettled(fs, i, fs.files[i].start, size, Filled(fs.bits, fs.files[i].start, CeilDiv(size, bs), true))
  }

  /** What the scan forgot to ask: the block right after the file, and the end of the disk. */
  predicate RoomAfter(fs: Fs, i: nat, size: nat, bs: nat)
    requires 0 < bs && i < |fs.files|
  {
    var f := fs.files[i];
    f.start + CeilDiv(size, bs) <= |fs.bits| &&
    (f.start + Blocks(f.size, bs) < |fs.bits| ==> !fs.bits[f.start + Blocks(f.size, bs)])
  }

  /** Growth in place is sound if and only if there was room. */
  lemma InPlaceOkIff(fs: Fs, beyond: nat -> bool, i: nat, size: nat, bs: nat)
    requires 0 < bs && FsOk(fs, bs) && i < |fs.files| && Blocks(fs.files[i].size, bs) < CeilDiv(size, bs)
    requires InPlaceAccepted(fs, beyond, i, size, bs)
    ensures FsOk(InPlace(fs, i, size, bs), bs) <==> RoomAfter(fs, i, size, bs)
  {
    var f, need := fs.files[i], CeilDiv(size, bs);
    var occ := Blocks(f.size, bs);
    var bits := Filled(fs.bits, f.start, need, true);
    CeilDivLeast(size, bs, 0);
    if RoomAfter(fs, i, size, bs) {
      forall b | f.start <= b < f.start + need
        ensures !fs.bits[b] || Has(f, b, bs)
      {
        assert !BitAt(fs.bits, beyond, b) || b <= f.start + occ;
      }
      ResettledOk(fs, i, f.start, size, bits, bs);
    } else if FsOk(InPlace(fs, i, size, bs), bs) {
      ResettledOkFits(fs, i, f.start, size, bits, bs);
    }
  }

  /** The bitmap the second scan looks at: the file's own blocks count as free. */
  ghost function SearchBits(fs: Fs, i: nat, bs: nat): seq<bool>
    requires 0 < bs && i < |fs.files|
  {
    Filled(fs.bits, fs.files[i].start, SearchOwn(fs.files[i], bs), false)
  }

  ghost function Relocated(fs: Fs, i: nat, p: nat, size: nat, bs: nat): Fs
    requires 0 < bs && i < |fs.files|
  {
    var f := fs.files[i];
    if p == f.start then InPlace(fs, i, size, bs) else
    Resettled(fs, i, p, size,
              Filled(Filled(fs.bits, f.start, Blocks(f.size, bs), false), p, CeilDiv(size, bs), true))
  }

  /** Wherever the second scan puts the file, the file system stays sound. */
  lemma RelocatedOk(fs: Fs, i: nat, p: nat, size: nat, bs: nat)
    requires 0 < bs && FsOk(fs, bs) && i < |fs.files| && Blocks(fs.files[i].size, bs) < CeilDiv(size, bs)
    requires p < |fs.bits| && IsFirstRun(SearchBits(fs, i, bs), CeilDiv(size, bs), p)
    ensures FsOk(Relocated(fs, i, p, size, bs), bs)
  {
    var f, need := fs.files[i], CeilDiv(size, bs);
    CeilDivLeast(size, bs, 0);
    RunFits(fs, i, p, need, bs);
    var bits := Relocated(fs, i, p, size, bs).bits;
    ResettledOk(fs, i, p, size, bits, bs);
  }

  /** A run the scan finds has only free blocks and blocks of the file. */
  lemma RunFits(fs: Fs, i: nat, p: nat, need: nat, bs: nat)
    requires 0 < bs && i < |fs.files| && FreeRun(SearchBits(fs, i, bs), p, need)
    ensures p + need <= |fs.bits|
    ensures forall b | p <= b < p + need :: !fs.bits[b] || Has(fs.files[i], b, bs)
  {
    forall b | p <= b < p + need
      ensures !fs.bits[b] || Has(fs.files[i], b, bs)
    {
      assert !SearchBits(fs, i, bs)[b];
    }
  }

  /** Two blocks of "a", one of "b" after them: growing "a" to three blocks takes the block of "b". */
  lemma InPlaceOverlaps()
    ensures exists fs: Fs ::
              FsOk(fs, 16) && |fs.files| == 2 && Blocks(fs.files[0].size, 16) < CeilDiv(48, 16) &&
              InPlaceAccepted(fs, _ => false, 0, 48, 16) && !FsOk(InPlace(fs, 0, 48, 16), 16)
  {
    var a, b := File("a", 0, 32), File("b", 2, 16);
    var bits := [true, true, true, false, false, false, false, false];
    var fs := Fs(bits, [a, b], map["a" := Metadata(0, 32), "b" := Metadata(2, 16)]);
    assert Blocks(32, 16) == 2 && Blocks(16, 16) == 1;
    assert a.name[0] != b.name[0];
    forall k | 0 <= k < 8
      ensures bits[k] <==> Taken(fs.files, k, 16)
    {
      assert Has(fs.files[0], k, 16) <==> k < 2;
      assert Has(fs.files[1], k, 16) <==> k == 2;
    }
    forall name | name in fs.metadata
      ensures exists k :: 0 <= k < |fs.files| && fs.files[k].name == name
    {
      assert fs.files[0].name == "a" && fs.files[1].name == "b";
    }
    assert FsOk(fs, 16);
    assert InPlaceAccepted(fs, _ => false, 0, 48, 16);
    InPlaceOkIff(fs, _ => false, 0, 48, 16);
  }

  /** CREATE. On a full disk it leaves a metadata file behind that belongs to no file. */
  ghost function Created(fs: Fs, name: string, r: nat): Fs
    requires IsFirstRun(fs.bits, 1, r)
  {
    if name in fs.metadata then fs
    else if r == |fs.bits| then fs.(metadata := fs.metadata[name := Blank])
    else Fs(fs.bits[r := true], fs.files + [File(name, r, 0)], fs.metadata[name := Metadata(r, 0)])
  }

  lemma TakenAppend(files: seq<File>, f: File, b: nat, bs: nat)
    requires 0 < bs
    ensures Taken(files + [f], b, bs) <==> Taken(files, b, bs) || Has(f, b, bs)
  {
    assert (files + [f])[|files|] == f;
    if Taken(files, b, bs) {
      var k :| 0 <= k < |files| && Has(files[k], b, bs);
      assert (files + [f])[k] == files[k];
    }
  }

  lemma NamesAppend(files: seq<File>, f: File, metadata: map<string, Metadata>)
    requires MetadataOk(files, metadata) && f.name !in metadata
    ensures MetadataOk(files + [f], metadata[f.name := Metadata(f.start, f.size)])
  {
    var files' := files + [f];
    var metadata' := metadata[f.name := Metadata(f.start, f.size)];
    forall x | x in metadata'
      ensures exists k :: 0 <= k < |files'| && files'[k].name == x
    {
      if x == f.name {
        assert files'[|files|].name == x;
      } else {
        var k :| 0 <= k < |files| && files[k].name == x;
        assert files'[k].name == x;
      }
    }
  }

  lemma ExtentsAppend(files: seq<File>, f: File, count: nat, bs: nat)
    requires 0 < bs && ExtentsOk(files, count, bs) && f.size == 0 && f.start < count && !Taken(files, f.start, bs)
    ensures ExtentsOk(files + [f], count, bs)
  {
    forall i | 0 <= i < |files|
      ensures Apart(files[i], f, bs)
    {
      assert !Has(files[i], f.start, bs);
    }
  }

  lemma AppendedOk(fs: Fs, name: string, r: nat, bs: nat)
    requires 0 < bs && FsOk(fs, bs) && name !in fs.metadata && r < |fs.bits| && !fs.bits[r]
    ensures FsOk(Fs(fs.bits[r := true], fs.files + [File(name, r, 0)], fs.metadata[name := Metadata(r, 0)]), bs)
  {
    var f := File(name, r, 0);
    ExtentsAppend(fs.files, f, |fs.bits|, bs);
    NamesAppend(fs.files, f, fs.metadata);
    forall b | 0 <= b < |fs.bits|
      ensures fs.bits[r := true][b] <==> Taken(fs.files + [f], b, bs)
    {
      TakenAppend(fs.files, f, b, bs);
    }
  }

  lemma BlankIsStray(fs: Fs, name: string)
    requires MetadataOk(fs.files, fs.metadata) && name !in fs.metadata
    ensures !MetadataOk(fs.files, fs.metadata[name := Blank])
  {
    assert name in fs.metadata[name := Blank];
    assert forall k | 0 <= k < |fs.files| :: fs.files[k].name != name;
  }

  /** CREATE keeps the file system sound exactly when the name is taken or a block is free. */
  lemma CreatedOkIff(fs: Fs, name: string, r: nat, bs: nat)
    requires 0 < bs && FsOk(fs, bs) && IsFirstRun(fs.bits, 1, r)
    ensures FsOk(Created(fs, name, r), bs) <==> name in fs.metadata || exists b :: 0 <= b < |fs.bits| && !fs.bits[b]
  {
    if name !in fs.metadata {
      if r < |fs.bits| {
        AppendedOk(fs, name, r, bs);
      } else {
        forall b | 0 <= b < |fs.bits|
          ensures fs.bits[b]
        {
          assert !FreeRun(fs.bits, b, 1);
        }
        BlankIsStray(fs, name);
      }
    }
  }

  /** DELETE of file `i`; the freed blocks come from its metadata. */
  ghost function Deleted(fs: Fs, i: nat, bs: nat): Fs
    requires 0 < bs && i < |fs.files|
  {
    var f := fs.files[i];
    Fs(Filled(fs.bits, f.start, Blocks(f.size, bs), false), fs.files[..i] + fs.files[i + 1..], fs.metadata - {f.name})
  }

  lemma TakenRemove(files: seq<File>, i: nat, b: nat, bs: nat)
    requires 0 < bs && i < |files|
    ensures Taken(files[..i] + files[i + 1..], b, bs) <==> TakenElse(files, i, b, bs)
  {
    var files' := files[..i] + files[i + 1..];
    if TakenElse(files, i, b, bs) {
      var k :| 0 <= k < |files| && k != i && Has(files[k], b, bs);
      assert files'[if k < i then k else k - 1] == files[k];
    }
    if Taken(files', b, bs) {
      var k :| 0 <= k < |files'| && Has(files'[k], b, bs);
      assert files'[k] == files[if k < i then k else k + 1];
    }
  }

  lemma RemovedAt(files: seq<File>, i: nat, k: nat)
    requires i < |files| && k < |files| - 1
    ensures (files[..i] + files[i + 1..])[k] == files[if k < i then k else k + 1]
  {
  }

  /** The names left are those of the files left. */
  lemma RemovedName(files: seq<File>, i: nat, name: string)
    requires i < |files| && name != files[i].name
    requires exists k :: 0 <= k < |files| && files[k].name == name
    ensures var rest := files[..i] + files[i + 1..]; exists k :: 0 <= k < |rest| && rest[k].name == name
  {
    var k :| 0 <= k < |files| && files[k].name == name;
    RemovedAt(files, i, if k < i then k else k - 1);
  }

  lemma NamesRemove(files: seq<File>, i: nat, metadata: map<string, Metadata>)
    requires MetadataOk(files, metadata) && i < |files|
    ensures MetadataOk(files[..i] + files[i + 1..], metadata - {files[i].name})
  {
    var files' := files[..i] + files[i + 1..];
    forall k | 0 <= k < |files'|
      ensures files'[k] == files[if k < i then k else k + 1]
    {
      RemovedAt(files, i, k);
    }
    forall x | x in metadata - {files[i].name}
      ensures exists k :: 0 <= k < |files'| && files'[k].name == x
    {
      RemovedName(files, i, x);
    }
  }

  lemma ExtentsRemove(files: seq<File>, i: nat, count: nat, bs: nat)
    requires 0 < bs && ExtentsOk(files, count, bs) && i < |files|
    ensures ExtentsOk(files[..i] + files[i + 1..], count, bs)
  {
    var files' := files[..i] + files[i + 1..];
    assert forall k | 0 <= k < |files'| :: files'[k] == files[if k < i then k else k + 1];
  }

  lemma DeletedOk(fs: Fs, i: nat, bs: nat)
    requires 0 < bs && FsOk(fs, bs) && i < |fs.files|
    ensures FsOk(Deleted(fs, i, bs), bs)
  {
    ExtentsRemove(fs.files, i, |fs.bits|, bs);
    NamesRemove(fs.files, i, fs.metadata);
    forall b | 0 <= b < |fs.bits|
      ensures Deleted(fs, i, bs).bits[b] <==> Taken(Deleted(fs, i, bs).files, b, bs)
    {
      TakenByOther(fs, i, b, bs);
      TakenRemove(fs.files, i, b, bs);
    }
  }
}
