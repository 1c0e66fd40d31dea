/**
 DialFS as a value (entradasalida/src/instrucciones_io.c, entradasalida/src/dialfs.c): the bitmap,
 the blocks, the file list in memory and the metadata files, and the invariant that ties them.
 */
module FileSystem {
  import opened Arith

  /** t_archivo */
  datatype File = File(name: string, start: nat, size: nat)

  /** A metadata file; it is blank between its creation and the first save. */
  datatype Metadata = Blank | Metadata(start: nat, size: nat)

  datatype Fs = Fs(bits: seq<bool>, files: seq<File>, metadata: map<string, Metadata>)

  /** obtener_bloques_ocupados: an empty file keeps one block. */
  function Blocks(size: nat, bs: nat): (n: nat)
    requires 0 < bs
    ensures 0 < n
  {
    if size == 0 then 1 else
      CeilDivLeast(size, bs, 0);
      CeilDiv(size, bs)
  }

  /** The block lies in the file's extent. */
  ghost predicate Has(f: File, b: nat, bs: nat)
    requires 0 < bs
  {
    f.start <= b < f.start + Blocks(f.size, bs)
  }

  ghost predicate Taken(files: seq<File>, b: nat, bs: nat)
    requires 0 < bs
  {
    exists i :: 0 <= i < |files| && Has(files[i], b, bs)
  }

  ghost predicate Apart(f: File, g: File, bs: nat)
    requires 0 < bs
  {
    f.start + Blocks(f.size, bs) <= g.start || g.start + Blocks(g.size, bs) <= f.start
  }

  /** Extents lie on the disk and do not overlap. */
  ghost predicate ExtentsOk(files: seq<File>, count: nat, bs: nat)
    requires 0 < bs
  {
    && (forall i | 0 <= i < |files| :: files[i].start + Blocks(files[i].size, bs) <= count)
    && (forall i, j | 0 <= i < j < |files| :: Apart(files[i], files[j], bs))
  }

  /** A bit is set exactly when its block belongs to a file. */
  ghost predicate BitsOk(bits: seq<bool>, files: seq<File>, bs: nat)
    requires 0 < bs
  {
    forall b | 0 <= b < |bits| :: bits[b] <==> Taken(files, b, bs)
  }

  /** The metadata files are those of the listed files and say the same. */
  ghost predicate MetadataOk(files: seq<File>, metadata: map<string, Metadata>) {
    && (forall i, j | 0 <= i < j < |files| :: files[i].name != files[j].name)
    && (forall i | 0 <= i < |files| ::
          files[i].name in metadata && metadata[files[i].name] == Metadata(files[i].start, files[i].size))
    && (forall name <- metadata :: exists i :: 0 <= i < |files| && files[i].name == name)
  }

  ghost predicate FsOk(fs: Fs, bs: nat)
    requires 0 < bs
  {
    && ExtentsOk(fs.files, |fs.bits|, bs)
    && BitsOk(fs.bits, fs.files, bs)
    && MetadataOk(fs.files, fs.metadata)
  }

  /** list_find by name: the first match, or the length. */
  function Find(files: seq<File>, name: string): (i: nat)
    ensures i <= |files|
    ensures i < |files| ==> files[i].name == name
    ensures forall j | 0 <= j < i :: files[j].name != name
  {
    if files == [] || files[0].name == name then 0 else 1 + Find(files[1..], name)
  }

  /** The metadata of a name is there exactly if the list has the name, and says the same. */
  lemma FoundIff(files: seq<File>, metadata: map<string, Metadata>, name: string)
    requires MetadataOk(files, metadata)
    ensures var i := Find(files, name);
            && (name in metadata <==> i < |files|)
            && (i < |files| ==> metadata[name] == Metadata(files[i].start, files[i].size))
  {
  }

  /** The list entry and the metadata of file `i` get a new extent. */
  function Resettled(fs: Fs, i: nat, start: nat, size: nat, bits: seq<bool>): Fs
    requires i < |fs.files|
  {
    var name := fs.files[i].name;
    Fs(bits, fs.files[i := File(name, start, size)], fs.metadata[name := Metadata(start, size)])
  }

  lemma ResettledMetadata(fs: Fs, i: nat, start: nat, size: nat, bits: seq<bool>)
    requires i < |fs.files| && MetadataOk(fs.files, fs.metadata)
    ensures var fs' := Resettled(fs, i, start, size, bits); MetadataOk(fs'.files, fs'.metadata)
  {
    var fs' := Resettled(fs, i, start, size, bits);
    forall name | name in fs'.metadata
      ensures exists k :: 0 <= k < |fs'.files| && fs'.files[k].name == name
    {
      assert name in fs.metadata;
      var k :| 0 <= k < |fs.files| && fs.files[k].name == name;
      assert fs'.files[k].name == name;
    }
  }

  /** The block lies in the extent of a file other than `i`. */
  ghost predicate TakenElse(files: seq<File>, i: nat, b: nat, bs: nat)
    requires 0 < bs
  {
    exists k :: 0 <= k < |files| && k != i && Has(files[k], b, bs)
  }

  lemma TakenSplit(files: seq<File>, i: nat, f: File, b: nat, bs: nat)
    requires 0 < bs && i < |files|
    ensures Taken(files[i := f], b, bs) <==> Has(f, b, bs) || TakenElse(files, i, b, bs)
    ensures TakenElse(files[i := f], i, b, bs) <==> TakenElse(files, i, b, bs)
  {
    var files' := files[i := f];
    assert files'[i] == f;
    forall k | 0 <= k < |files| && k != i
      ensures files'[k] == files[k]
    {
    }
  }

  /** A disk block is in another file exactly if it is taken but not in file `i`. */
  lemma TakenByOther(fs: Fs, i: nat, b: nat, bs: nat)
    requires 0 < bs && FsOk(fs, bs) && i < |fs.files| && b < |fs.bits|
    ensures TakenElse(fs.files, i, b, bs) <==> fs.bits[b] && !Has(fs.files[i], b, bs)
  {
    if Has(fs.files[i], b, bs) {
      forall k | 0 <= k < |fs.files| && k != i
        ensures !Has(fs.files[k], b, bs)
      {
        assert if k < i then Apart(fs.files[k], fs.files[i], bs) else Apart(fs.files[i], fs.files[k], bs);
      }
    }
  }

  /** The new extent takes only blocks that are free or the file's own, and the bits follow. */
  ghost predicate FitsNew(fs: Fs, i: nat, start: nat, size: nat, bs: nat)
    requires 0 < bs && i < |fs.files|
  {
    && start + Blocks(size, bs) <= |fs.bits|
    && forall b | start <= b < start + Blocks(size, bs) :: !fs.bits[b] || Has(fs.files[i], b, bs)
  }

  ghost predicate BitsMoved(fs: Fs, i: nat, start: nat, size: nat, bits: seq<bool>, bs: nat)
    requires 0 < bs && i < |fs.files|
  {
    && |bits| == |fs.bits|
    && forall b | 0 <= b < |bits| ::
         bits[b] == (start <= b < start + Blocks(size, bs) || (fs.bits[b] && !Has(fs.files[i], b, bs)))
  }

  lemma ResettledApart(fs: Fs, i: nat, start: nat, size: nat, bits: seq<bool>, bs: nat)
    requires 0 < bs && FsOk(fs, bs) && i < |fs.files| && FitsNew(fs, i, start, size, bs)
    ensures forall k | 0 <= k < |fs.files| && k != i ::
              Apart(fs.files[k], File(fs.files[i].name, start, size), bs)
  {
    forall k | 0 <= k < |fs.files| && k != i
      ensures Apart(fs.files[k], File(fs.files[i].name, start, size), bs)
    {
      var g := fs.files[k];
      var b := if g.start < start then start else g.start;
      if !Apart(g, File(fs.files[i].name, start, size), bs) {
        assert Has(g, b, bs);
        TakenByOther(fs, i, b, bs);
      }
    }
  }

  lemma ResettledExtents(fs: Fs, i: nat, start: nat, size: nat, bits: seq<bool>, bs: nat)
    requires 0 < bs && FsOk(fs, bs) && i < |fs.files| && FitsNew(fs, i, start, size, bs)
    ensures ExtentsOk(Resettled(fs, i, start, size, bits).files, |fs.bits|, bs)
  {
    var files' := Resettled(fs, i, start, size, bits).files;
    ResettledApart(fs, i, start, size, bits, bs);
    forall a, b | 0 <= a < b < |files'|
      ensures Apart(files'[a], files'[b], bs)
    {
      assert Apart(fs.files[a], fs.files[b], bs);
    }
  }

  /** Moving one file's extent onto such blocks keeps the file system sound. */
  lemma ResettledOk(fs: Fs, i: nat, start: nat, size: nat, bits: seq<bool>, bs: nat)
    requires 0 < bs && FsOk(fs, bs) && i < |fs.files|
    requires FitsNew(fs, i, start, size, bs) && BitsMoved(fs, i, start, size, bits, bs)
    ensures FsOk(Resettled(fs, i, start, size, bits), bs)
  {
    var f := File(fs.files[i].name, start, size);
    ResettledMetadata(fs, i, start, size, bits);
    ResettledExtents(fs, i, start, size, bits, bs);
    forall b | 0 <= b < |bits|
      ensures bits[b] <==> Taken(fs.files[i := f], b, bs)
    {
      TakenByOther(fs, i, b, bs);
      TakenSplit(fs.files, i, f, b, bs);
    }
  }

  /** Conversely, a sound result took only such blocks. */
  lemma ResettledOkFits(fs: Fs, i: nat, start: nat, size: nat, bits: seq<bool>, bs: nat)
    requires 0 < bs && FsOk(fs, bs) && i < |fs.files| && |bits| == |fs.bits|
    requires FsOk(Resettled(fs, i, start, size, bits), bs)
    ensures FitsNew(fs, i, start, size, bs) && BitsMoved(fs, i, start, size, bits, bs)
  {
    var fs' := Resettled(fs, i, start, size, bits);
    assert fs'.files[i] == File(fs.files[i].name, start, size);
    forall b | 0 <= b < |bits|
      ensures bits[b] == (start <= b < start + Blocks(size, bs) || (fs.bits[b] && !Has(fs.files[i], b, bs)))
      ensures start <= b < start + Blocks(size, bs) ==> !fs.bits[b] || Has(fs.files[i], b, bs)
    {
      TakenByOther(fs, i, b, bs);
      TakenByOther(fs', i, b, bs);
      TakenSplit(fs.files, i, fs'.files[i], b, bs);
    }
  }
}
