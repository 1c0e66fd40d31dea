/**
 The DialFS handlers (entradasalida/src/instrucciones_io.c, entradasalida/src/dialfs.c) as they
 change the mapped bitmap and blocks, the file list and the metadata files, each proved against the
 value it is meant to produce.
 */
module DialFs {
  import opened Arith
  import opened Bits
  import opened FlatMemory
  import opened FileSystem
  import opened FileOps
  import opened FileData
  import opened FileOrder
  import opened Memmoves
  import opened Compaction
  import opened Repacking
  import opened Truncation

  lemma SpliceNothing(s: seq<Byte>, at: nat)
    requires at <= |s|
    ensures Splice(s, at, Zeros(0)) == s
  {
  }

  lemma SpliceSlice(s: seq<Byte>, at: nat, piece: seq<Byte>, k: nat, m: nat)
    requires k + m <= |piece| && at + |piece| <= |s|
    ensures Splice(Splice(s, at, piece[..k]), at + k, piece[k..k + m]) == Splice(s, at, piece[..k + m])
  {
  }

  lemma RoundedUp(n: nat, u: nat)
    requires 0 < u
    ensures (if n % u != 0 then (n / u + 1) * u else n) == CeilDiv(n, u) * u
  {
    RoundUp(n, u);
  }

  class DialFs {
    const blockSize: nat
    const bitmap: array<bv8>
    const blocks: array<Byte>
    var files: seq<File>
    var metadata: map<string, Metadata>

    ghost function Value(): Fs
      reads this, bitmap
    {
      Fs(View(bitmap[..]), files, metadata)
    }

    /** Both files are as large as the configuration says. */
    ghost predicate Shape() {
      0 < blockSize && blocks.Length == 8 * bitmap.Length * blockSize && Separate()
    }

    ghost predicate Separate() {
      (bitmap as object) != (blocks as object)
    }

    ghost predicate Valid()
      reads this, bitmap
    {
      Shape() && FsOk(Value(), blockSize)
    }

    /** A freshly formatted disk: manejar_archivos_fs. */
    constructor (count: nat, size: nat)
      requires 0 < size
      ensures Valid() && fresh(bitmap) && fresh(blocks) && bitmap.Length == count && blockSize == size
      ensures files == [] && metadata == map[] && forall b | 0 <= b < 8 * count :: !Value().bits[b]
    {
      blockSize := size;
      bitmap := new bv8[count](_ => 0);
      blocks := new Byte[8 * count * size](_ => 0);
      files := [];
      metadata := map[];
    }

    // Entries

    /** actualizar_archivo_en_lista */
    method UpdateEntry(name: string, start: nat, size: nat)
      modifies this`files
      ensures var i := Find(old(files), name);
              files == if i < |old(files)| then old(files)[i := File(name, start, size)] else old(files)
    {
      var i := Find(files, name);
      if i < |files| {
        files := files[i := File(name, start, size)];
      }
    }

    // Create and delete

    /** procesar_dialfs_create */
    method Create(name: string)
      requires Valid()
      modifies this`files, this`metadata, bitmap
      ensures Value() == Created(old(Value()), name, FirstRun(old(Value()).bits, 1))
    {
      if name in metadata {
        return;
      }
      metadata := metadata[name := Blank];
      var b := FindOne(bitmap);
      FirstRunUnique(View(bitmap[..]), 1, b, FirstRun(View(bitmap[..]), 1));
      if b < 8 * bitmap.Length {
        SetBit(bitmap, b);
        metadata := metadata[name := Metadata(b, 0)];
        files := files + [File(name, b, 0)];
      }
    }

    /** procesar_dialfs_delete; the place of the file comes from its metadata. */
    method Delete(name: string)
      requires Valid()
      modifies this`files, this`metadata, bitmap
      ensures var i := Find(old(files), name);
              Value() == if i < |old(files)| then Deleted(old(Value()), i, blockSize) else old(Value())
      ensures Valid()
    {
      FoundIff(files, metadata, name);
      if name !in metadata {
        return;
      }
      ghost var fs := Value();
      var i := Find(files, name);
      DeletedOk(fs, i, blockSize);
      var m := metadata[name];
      files := files[..i] + files[i + 1..];
      FreeBlocks(m.start, m.size);
      metadata := metadata - {name};
      assert Value() == Deleted(fs, i, blockSize);
    }

    /** The loop that frees the blocks of a file; an empty one has one. */
    method FreeBlocks(start: nat, size: nat)
      requires 0 < blockSize
      modifies bitmap
      ensures View(bitmap[..]) == Filled(old(View(bitmap[..])), start, Blocks(size, blockSize), false)
    {
      var occupied := (size + blockSize - 1) / blockSize;
      if occupied == 0 {
        occupied := 1;
      }
      CeilDivLeast(size, blockSize, 0);
      ClearRange(bitmap, start, occupied);
    }

    // Bytes

    /** memmove within the blocks. */
    method MoveBytes(to: nat, from: nat, n: nat)
      requires to + n <= blocks.Length && from + n <= blocks.Length
      modifies blocks
      ensures blocks[..] == Splice(old(blocks[..]), to, old(blocks[..])[from..from + n])
    {
      forall k | 0 <= k < n {
        blocks[to + k] := blocks[from + k];
      }
    }

    /** memcpy or memset into the blocks. */
    method PutBytes(at: nat, data: seq<Byte>)
      requires at + |data| <= blocks.Length
      modifies blocks
      ensures blocks[..] == Splice(old(blocks[..]), at, data)
    {
      forall k | 0 <= k < |data| {
        blocks[at + k] := data[k];
      }
    }

    /** escribir_dato_archivo: the string, in pieces that end at block boundaries. */
    method WriteText(text: seq<Byte>, ptr: nat, start: nat)
      requires 0 < blockSize && start * blockSize + ptr + |CString(text)| <= blocks.Length
      modifies blocks
      ensures blocks[..] == Splice(old(blocks[..]), start * blockSize + ptr, CString(text))
    {
      var rest := CString(text);
      var at := start * blockSize + ptr;
      ghost var data, all, base, done: nat := blocks[..], rest, at, 0;
      while |rest| > 0
        invariant done <= |all| && rest == all[done..] && at == base + done
        invariant blocks[..] == Splice(data, base, all[..done])
      {
        var space := blockSize - at % blockSize;
        var n := if |rest| < space then |rest| else space;
        SpliceSlice(data, base, all, done, n);
        assert rest[..n] == all[done..done + n];
        PutBytes(at, rest[..n]);
        at, rest, done := at + n, rest[n..], done + n;
      }
      assert all[..|all|] == all;
    }

    /** procesar_dialfs_write: nothing looks at the size of the file. */
    method Write(name: string, ptr: nat, text: seq<Byte>)
      requires 0 < blockSize && Find(files, name) < |files|
      requires files[Find(files, name)].start * blockSize + ptr + |CString(text)| <= blocks.Length
      modifies blocks
      ensures blocks[..] == Splice(old(blocks[..]), files[Find(files, name)].start * blockSize + ptr, CString(text))
    {
      var i := Find(files, name);
      WriteText(text, ptr, files[i].start);
    }

    /** procesar_dialfs_read: the place of the file comes from its metadata. */
    method Read(name: string, ptr: nat, n: nat) returns (text: seq<Byte>)
      requires MetadataOk(files, metadata) && Find(files, name) < |files|
      requires files[Find(files, name)].start * blockSize + ptr + n <= blocks.Length
      ensures var at := files[Find(files, name)].start * blockSize + ptr; text == blocks[..][at..at + n]
    {
      FoundIff(files, metadata, name);
      var at := metadata[name].start * blockSize + ptr;
      text := blocks[at..at + n];
    }

    // Truncate

    /** The search for a place, encontrar_bloques_libres_contiguos_top; the number of blocks stands for -1. */
    method SearchTop(start: nat, need: nat, own: nat, beyond: nat -> bool) returns (r: nat)
      requires own < need
      ensures r == if forall b | start + own < b <= start + need :: !BitAt(View(bitmap[..]), beyond, b) then start
                   else FirstRun(Filled(View(bitmap[..]), start, own, false), need)
    {
      ghost var v := View(bitmap[..]);
      var count := 0;
      var i := start + own + 1;
      while i <= start + need
        invariant i == start + own + 1 + count && count < need - own
        invariant forall b | start + own < b < i :: !BitAt(v, beyond, b)
      {
        var b := if i < 8 * bitmap.Length then bitmap[i / 8] & Mask(i % 8) != 0 else beyond(i);
        assert b == BitAt(v, beyond, i);
        if b {
          break;
        }
        count := count + 1;
        if count == need - own {
          return start;
        }
        i := i + 1;
      }
      assert BitAt(v, beyond, i);
      var aux := new bv8[bitmap.Length](k requires 0 <= k < bitmap.Length reads bitmap => bitmap[k]);
      assert aux[..] == bitmap[..];
      ClearRange(aux, start, own);
      r := FindRun(aux, need);
      FirstRunUnique(View(aux[..]), need, r, FirstRun(View(aux[..]), need));
    }

    /** The loop of the shrinking branch: frees and wipes the blocks from `lo` up to `hi`. */
    method WipeBlocks(lo: nat, hi: nat)
      requires Separate() && lo <= hi && lo * blockSize <= hi * blockSize <= blocks.Length
      modifies bitmap, blocks
      ensures View(bitmap[..]) == Filled(old(View(bitmap[..])), lo, hi - lo, false)
      ensures blocks[..] == Splice(old(blocks[..]), lo * blockSize, Zeros(hi * blockSize - lo * blockSize))
    {
      ghost var data, bits, base: nat, at: nat := blocks[..], View(bitmap[..]), lo * blockSize, lo * blockSize;
      SpliceNothing(data, base);
      var i := lo;
      while i < hi
        invariant lo <= i <= hi && base <= at == i * blockSize <= hi * blockSize
        invariant View(bitmap[..]) == Filled(bits, lo, i - lo, false)
        invariant blocks[..] == Splice(data, base, Zeros(at - base))
      {
        BlockStep(i, hi, blockSize);
        ZerosGrow(data, base, at - base, blockSize);
        FilledGrow(bits, lo, i - lo);
        WipeBlock(i);
        at := at + blockSize;
        i := i + 1;
      }
    }

    method WipeBlock(i: nat)
      requires Separate() && i * blockSize + blockSize <= blocks.Length
      modifies bitmap, blocks
      ensures View(bitmap[..]) == Filled(old(View(bitmap[..])), i, 1, false)
      ensures blocks[..] == Splice(old(blocks[..]), i * blockSize, Zeros(blockSize))
    {
      ClearRange(bitmap, i, 1);
      PutBytes(i * blockSize, Zeros(blockSize));
    }

    /** config_set_value and config_save on the metadata of a file. */
    method SaveMetadata(name: string, start: nat, size: nat)
      modifies this`metadata
      ensures metadata == old(metadata)[name := Metadata(start, size)]
    {
      metadata := metadata[name := Metadata(start, size)];
    }

    /** The end of every branch: the metadata and the list entry get the new place and size. */
    method Resettle(name: string, start: nat, size: nat, ghost fs: Fs)
      requires var i := Find(fs.files, name); files == fs.files && metadata == fs.metadata && i < |files|
      modifies this`files, this`metadata
      ensures Value() == Resettled(fs, Find(fs.files, name), start, size, View(bitmap[..]))
    {
      SaveMetadata(name, start, size);
      UpdateEntry(name, start, size);
    }

    method ShrinkFile(name: string, size: nat, ghost fs: Fs, ghost data: seq<Byte>)
      requires Shape() && fs == Value() && data == blocks[..] && Find(fs.files, name) < |fs.files|
      requires var f := fs.files[Find(fs.files, name)];
               && CeilDiv(size, blockSize) < Blocks(f.size, blockSize)
               && (f.start + Blocks(f.size, blockSize)) * blockSize <= |data|
      modifies this`files, this`metadata, bitmap, blocks
      ensures Value() == Shrunk(fs, Find(fs.files, name), size, blockSize)
      ensures blocks[..] == ShrunkData(data, fs.files[Find(fs.files, name)], size, blockSize)
    {
      var f := files[Find(files, name)];
      ShrinkBlocks(f, size);
      Resettle(name, f.start, size, fs);
    }

    method ShrinkBlocks(f: File, size: nat)
      requires Shape() && CeilDiv(size, blockSize) <= Blocks(f.size, blockSize)
      requires (f.start + Blocks(f.size, blockSize)) * blockSize <= blocks.Length
      modifies bitmap, blocks
      ensures var need := CeilDiv(size, blockSize);
              View(bitmap[..]) == Filled(old(View(bitmap[..])), f.start + need, Blocks(f.size, blockSize) - need, false)
      ensures blocks[..] == ShrunkData(old(blocks[..]), f, size, blockSize)
    {
      var lo, hi := f.start + CeilDiv(size, blockSize), f.start + Blocks(f.size, blockSize);
      MulMonotone(lo, hi, blockSize);
      MulDistributes(hi, lo, blockSize);
      WipeBlocks(lo, hi);
    }

    method KeepBlocks(name: string, size: nat, ghost fs: Fs)
      requires fs == Value() && Find(fs.files, name) < |fs.files|
      modifies this`files, this`metadata
      ensures Value() == Resized(fs, Find(fs.files, name), size)
    {
      Resettle(name, files[Find(files, name)].start, size, fs);
    }

    /** The branch in which the file stays where it is; it also ends a compaction. */
    method GrowInPlace(name: string, size: nat, ghost fs: Fs)
      requires 0 < blockSize && fs == Value() && Find(fs.files, name) < |fs.files|
      modifies this`files, this`metadata, bitmap
      ensures Value() == InPlace(fs, Find(fs.files, name), size, blockSize)
    {
      var start := files[Find(files, name)].start;
      SetRange(bitmap, start, CeilDiv(size, blockSize));
      Resettle(name, start, size, fs);
    }

    /** The branch in which it moves. */
    method MoveFile(name: string, p: nat, size: nat, ghost fs: Fs, ghost data: seq<Byte>)
      requires Shape() && fs == Value() && data == blocks[..] && Find(fs.files, name) < |fs.files|
      requires var f := fs.files[Find(fs.files, name)];
               && p != f.start && (f.start + Blocks(f.size, blockSize)) * blockSize <= |data|
               && p * blockSize + Blocks(f.size, blockSize) * blockSize <= |data|
      modifies this`files, this`metadata, bitmap, blocks
      ensures Value() == Relocated(fs, Find(fs.files, name), p, size, blockSize)
      ensures blocks[..] == MovedData(data, fs.files[Find(fs.files, name)], p, blockSize)
    {
      MoveBlocks(files[Find(files, name)], p, CeilDiv(size, blockSize));
      Resettle(name, p, size, fs);
    }

    method MoveBlocks(f: File, p: nat, need: nat)
      requires Shape() && (f.start + Blocks(f.size, blockSize)) * blockSize <= blocks.Length
      requires p * blockSize + Blocks(f.size, blockSize) * blockSize <= blocks.Length
      modifies bitmap, blocks
      ensures View(bitmap[..]) ==
              Filled(Filled(old(View(bitmap[..])), f.start, Blocks(f.size, blockSize), false), p, need, true)
      ensures blocks[..] == MovedData(old(blocks[..]), f, p, blockSize)
    {
      var occ := Blocks(f.size, blockSize);
      ClearRange(bitmap, f.start, occ);
      SetRange(bitmap, p, need);
      MulDistributes(f.start, occ, blockSize);
      MoveBytes(p * blockSize, f.start * blockSize, occ * blockSize);
    }

    // Compaction

    /** The sizes of all files, added up. */
    method CountBytes() returns (total: nat)
      ensures total == TotalBytes(files)
    {
      total := 0;
      for k := 0 to |files|
        invariant total == TotalBytes(files[..k])
      {
        assert files[..k + 1][..k] == files[..k];
        total := total + files[k].size;
      }
      assert files[..|files|] == files;
    }

    /** ordenar_lista_archivos_por_bloque_inicial */
    method Arrange(name: string)
      modifies this`files
      ensures files == Arranged(old(files), name)
    {
      var sorted := Sorted(files);
      var i := Find(sorted, name);
      files := if i < |sorted| then PutLast(sorted, i) else sorted;
    }

    /** Moves the whole blocks of a file to `space`. */
    method PackFile(f: File, space: nat, ghost m: Move) returns (len: nat)
      requires 0 < blockSize && m == Move(space, f.start * blockSize, CeilDiv(f.size, blockSize) * blockSize)
      requires m.to + m.n <= blocks.Length && m.from + m.n <= blocks.Length
      modifies blocks
      ensures len == m.n && blocks[..] == MoveOne(old(blocks[..]), m)
    {
      len := RoundToBlocks(f.size);
      MoveBytes(space, f.start * blockSize, len);
    }

    /** The loop that moves files to the front, as a pass of memmoves; answers where they end. */
    method PackFiles(list: seq<File>, ghost moves: seq<Move>) returns (space: nat)
      requires 0 < blockSize && |moves| == |list| && MovesOk(moves, blocks.Length) && Chained(moves)
      requires forall k | 0 <= k < |list| ::
                 moves[k].from == list[k].start * blockSize &&
                 moves[k].n == CeilDiv(list[k].size, blockSize) * blockSize
      modifies blocks
      ensures space == End(moves) && blocks[..] == Moved(old(blocks[..]), moves)
    {
      ghost var data := blocks[..];
      space := 0;
      for k := 0 to |list|
        invariant space == End(moves[..k])
        invariant MovesOk(moves[..k], |data|) && blocks[..] == Moved(data, moves[..k])
      {
        MovedNext(data, moves, k);
        var len := PackFile(list[k], space, moves[k]);
        space := space + len;
      }
      assert moves[..|list|] == moves;
    }

    method PackOthers() returns (space: nat)
      requires Shape() && files != [] && Ahead(files[..|files| - 1], 8 * bitmap.Length, blockSize)
      modifies blocks
      ensures space == Used(files[..|files| - 1], blockSize) * blockSize
      ensures blocks[..] == Packed(old(blocks[..]), files[..|files| - 1], 8 * bitmap.Length, blockSize)
    {
      var others := files[..|files| - 1];
      MovesAreOk(others, 8 * bitmap.Length, blockSize);
      MovesChained(others, blockSize);
      space := PackFiles(others, Moves(others, blockSize));
    }

    /** The rounding that both loops of the compaction do. */
    method RoundToBlocks(n: nat) returns (r: nat)
      requires 0 < blockSize
      ensures r == CeilDiv(n, blockSize) * blockSize
    {
      r := n;
      if n % blockSize != 0 {
        r := (n / blockSize + 1) * blockSize;
      }
      RoundedUp(n, blockSize);
    }

    /** actualizar_lista_archivos_compactados: new first blocks, in the list and in the metadata. */
    method Restart()
      requires 0 < blockSize
      modifies this`files, this`metadata
      ensures files == Placed(old(files), blockSize)
      ensures metadata == Restarted(old(metadata), Placed(old(files), blockSize))
    {
      ghost var order, placed, before := files, Placed(files, blockSize), metadata;
      var space: nat := 0;
      for k := 0 to |files|
        invariant CeilDiv(space, blockSize) == Used(order[..k], blockSize)
        invariant files == Mixed(placed, order, k) && metadata == Restarted(before, placed[..k])
      {
        MixedStep(placed, order, k);
        space := RoundToBlocks(space);
        RestartStep(order, k, space, blockSize);
        var f := File(files[k].name, space / blockSize, files[k].size);
        files := files[k := f];
        metadata := RestartedOne(metadata, f);
        space := space + f.size;
      }
      assert placed[..|placed|] == placed;
    }

    /** The compaction proper. */
    method Compact(name: string, ghost fs: Fs, ghost order: seq<File>, ghost data: seq<Byte>)
      requires Shape() && fs == Value() && order == Arranged(fs.files, name) && data == blocks[..]
      requires Compactable(data, order, |fs.bits|, blockSize)
      modifies this`files, this`metadata, bitmap, blocks
      ensures Value() == Repacked(fs, order, blockSize)
      ensures blocks[..] == CompactedData(data, order, |fs.bits|, blockSize)
    {
      var total := CountBytes();
      Arrange(name);
      CompactBytes(order, data);
      Restart();
      MarkFront(CeilDiv(total, blockSize));
    }

    /** Clears the bitmap and sets its first `n` bits. */
    method MarkFront(n: nat)
      modifies bitmap
      ensures View(bitmap[..]) == Filled(Filled(old(View(bitmap[..])), 0, 8 * bitmap.Length, false), 0, n, true)
    {
      ClearRange(bitmap, 0, 8 * bitmap.Length);
      SetRange(bitmap, 0, n);
    }

    /** The compaction and the growth that it makes room for. */
    method CompactAndGrow(name: string, size: nat, ghost fs: Fs, ghost data: seq<Byte>)
      requires Valid() && fs == Value() && data == blocks[..] && Find(fs.files, name) < |fs.files|
      requires Compactable(data, Arranged(fs.files, name), |fs.bits|, blockSize)
      modifies this`files, this`metadata, bitmap, blocks
      ensures Value() == Compacted(fs, Find(fs.files, name), size, blockSize)
      ensures blocks[..] == CompactedData(data, Arranged(fs.files, name), |fs.bits|, blockSize)
    {
      ghost var order := Arranged(fs.files, name);
      ArrangedFind(fs, Find(fs.files, name), blockSize);
      Compact(name, fs, order, data);
      GrowInPlace(name, size, Repacked(fs, order, blockSize));
    }

    /** Saves the last file, packs the others, and puts the copy behind them. */
    method CompactBytes(ghost order: seq<File>, ghost data: seq<Byte>)
      requires Shape() && order == files && data == blocks[..] && Compactable(data, order, 8 * bitmap.Length, blockSize)
      modifies blocks
      ensures blocks[..] == CompactedData(data, order, 8 * bitmap.Length, blockSize)
    {
      var last := files[|files| - 1];
      var saved := blocks[last.start * blockSize..last.start * blockSize + last.size];
      assert saved == Content(data, order[|order| - 1], blockSize);
      var space := PackOthers();
      PutBytes(space, saved);
    }

    /** procesar_dialfs_truncate; no answer is sent when there is no room. */
    method Truncate(name: string, size: nat, beyond: nat -> bool) returns (answered: bool)
      requires Valid() && Find(files, name) < |files| && size + blockSize <= 0x1_0000_0000
      modifies this`files, this`metadata, bitmap, blocks
      ensures Shape() && Value() == Truncated(old(Value()), Find(old(files), name), size, beyond, blockSize)
      ensures blocks[..] == TruncatedDisk(old(Value()), Find(old(files), name), size, beyond, old(blocks[..]),
          blockSize)
      ensures answered == !PlanOf(old(Value()), Find(old(files), name), size, beyond, blockSize).Fail?
    {
      FoundIff(files, metadata, name);
      ghost var fs, data := Value(), blocks[..];
      SoundIsReady(fs, Find(files, name), size, beyond, data, blockSize);
      var need := (size + blockSize - 1) / blockSize;
      var occupied := Blocks(metadata[name].size, blockSize);
      answered := true;
      if need < occupied {
        ShrinkFile(name, size, fs, data);
      } else if need > occupied {
        answered := Grow(name, size, need, occupied, beyond, fs, data);
      } else {
        KeepBlocks(name, size, fs);
      }
    }

    /** The branch that needs more blocks. */
    method Grow(name: string, size: nat, need: nat, occupied: nat, beyond: nat -> bool, ghost fs: Fs,
            ghost data: seq<Byte>)
      returns (answered: bool)
      requires Valid() && fs == Value() && data == blocks[..] && Find(fs.files, name) < |fs.files|
      requires need == CeilDiv(size, blockSize)
      requires occupied == Blocks(files[Find(files, name)].size, blockSize) < need
      requires var i := Find(fs.files, name);
               DataReady(fs, i, PlanOf(fs, i, size, beyond, blockSize), size, data, blockSize)
      modifies this`files, this`metadata, bitmap, blocks
      ensures var i := Find(fs.files, name);
              var plan := PlanOf(fs, i, size, beyond, blockSize);
              && Value() == Truncated(fs, i, size, beyond, blockSize)
              && blocks[..] == TruncatedData(fs, i, plan, size, data, blockSize)
              && answered == !plan.Fail?
    {
      var i := Find(files, name);
      var p := SearchTop(files[i].start, need, if occupied != 1 then occupied else 0, beyond);
      ghost var plan := PlanOf(fs, i, size, beyond, blockSize);
      GrowPlan(fs, i, size, beyond, p, blockSize);
      answered := GrowAt(name, size, need, occupied, p, plan, fs, data);
    }

    /** ... once the search has answered. */
    method GrowAt(name: string, size: nat, need: nat, occupied: nat, p: nat, ghost plan: Plan, ghost fs: Fs,
            ghost data: seq<Byte>)
      returns (answered: bool)
      requires Valid() && fs == Value() && data == blocks[..] && Find(fs.files, name) < |fs.files|
      requires Answers(fs, Find(fs.files, name), need, occupied, p, plan) && !plan.Shrink?
      requires DataReady(fs, Find(fs.files, name), plan, size, data, blockSize)
      modifies this`files, this`metadata, bitmap, blocks
      ensures Value() == Carried(fs, Find(fs.files, name), plan, size, blockSize)
      ensures blocks[..] == TruncatedData(fs, Find(fs.files, name), plan, size, data, blockSize)
      ensures answered == !plan.Fail?
    {
      if p == 8 * bitmap.Length {
        var free := CountFree(bitmap);
        if free + occupied < need {
          return false;
        }
        CompactAndGrow(name, size, fs, data);
      } else if p != files[Find(files, name)].start {
        MoveFile(name, p, size, fs, data);
      } else {
        GrowInPlace(name, size, fs);
      }
      return true;
    }
  }

  /** `p` is how the search tells the plan. */
  ghost predicate Answers(fs: Fs, i: nat, need: nat, occupied: nat, p: nat, plan: Plan)
    requires i < |fs.files|
  {
    && p <= |fs.bits|
    && (p == |fs.bits| ==> plan == if CountClear(fs.bits) + occupied >= need then Compact else Fail)
    && (p < |fs.bits| && p != fs.files[i].start ==> plan == MoveTo(p))
    && (p < |fs.bits| && p == fs.files[i].start ==> plan == Stay || plan == MoveTo(p))
  }

  lemma GrowPlan(fs: Fs, i: nat, size: nat, beyond: nat -> bool, p: nat, bs: nat)
    requires 0 < bs && FsOk(fs, bs) && i < |fs.files| && Blocks(fs.files[i].size, bs) < CeilDiv(size, bs)
    requires p == if InPlaceAccepted(fs, beyond, i, size, bs) then fs.files[i].start
                  else FirstRun(SearchBits(fs, i, bs), CeilDiv(size, bs))
    ensures var plan := PlanOf(fs, i, size, beyond, bs);
            !plan.Shrink? && Answers(fs, i, CeilDiv(size, bs), Blocks(fs.files[i].size, bs), p, plan)
  {
    assert fs.files[i].start < |fs.bits|;
  }

  lemma LastFound(files: seq<File>, order: seq<File>)
    requires |files| == |order| > 0 && forall k | 0 <= k < |order| :: files[k].name == order[k].name
    requires forall j, k | 0 <= j < k < |order| :: order[j].name != order[k].name
    ensures Find(files, order[|order| - 1].name) == |order| - 1
  {
  }

  /** After the compaction the truncated file is the last of the list. */
  lemma ArrangedFind(fs: Fs, i: nat, bs: nat)
    requires 0 < bs && FsOk(fs, bs) && i < |fs.files|
    ensures var order := Arranged(fs.files, fs.files[i].name);
            Find(Repacked(fs, order, bs).files, fs.files[i].name) == |order| - 1
  {
    ArrangedDisk(fs, i, bs);
    var order := Arranged(fs.files, fs.files[i].name);
    LastFound(Placed(order, bs), order);
  }

  /** The list when its first `k` entries have been replaced. */
  ghost function Mixed(after: seq<File>, before: seq<File>, k: nat): (r: seq<File>)
    requires k <= |after| == |before|
    ensures |r| == |before|
  {
    after[..k] + before[k..]
  }

  lemma MixedStep(after: seq<File>, before: seq<File>, k: nat)
    requires k < |after| == |before|
    ensures Mixed(after, before, k)[k] == before[k] &&
            Mixed(after, before, k)[k := after[k]] == Mixed(after, before, k + 1)
    ensures after[..k + 1][..k] == after[..k] && after[..k + 1][k] == after[k]
  {
  }

  lemma UsedBytes(files: seq<File>, k: nat, bs: nat)
    requires 0 < bs && k < |files|
    ensures Used(files[..k + 1], bs) * bs == Used(files[..k], bs) * bs + CeilDiv(files[k].size, bs) * bs
  {
    UsedStep(files, k, bs);
    MulDistributes(Used(files[..k], bs), CeilDiv(files[k].size, bs), bs);
  }

  lemma RestartStep(order: seq<File>, k: nat, space: nat, bs: nat)
    requires 0 < bs && k < |order| && space == Used(order[..k], bs) * bs
    ensures space / bs == Used(order[..k], bs)
    ensures CeilDiv(space + order[k].size, bs) == Used(order[..k + 1], bs)
  {
    DivModUnique(space, bs, Used(order[..k], bs), 0);
    CeilDivExact(Used(order[..k], bs), bs);
    CeilDivSum(space, order[k].size, bs);
    UsedStep(order, k, bs);
  }

  lemma MovesEnd(files: seq<File>, k: nat, bs: nat)
    requires 0 < bs && k <= |files|
    ensures End(Moves(files, bs)[..k]) == Used(files[..k], bs) * bs
  {
    if k > 0 {
      UsedBytes(files, k - 1, bs);
      assert Moves(files, bs)[..k][k - 1] == MoveOf(files, k - 1, bs);
    }
  }

  /** The packing pass leaves no gaps. */
  lemma MovesChained(files: seq<File>, bs: nat)
    requires 0 < bs
    ensures Chained(Moves(files, bs)) && End(Moves(files, bs)) == Used(files, bs) * bs
  {
    forall k | 0 <= k < |files|
      ensures Moves(files, bs)[k].to == End(Moves(files, bs)[..k])
    {
      MovesEnd(files, k, bs);
    }
    MovesEnd(files, |files|, bs);
    assert files[..|files|] == files && Moves(files, bs)[..|files|] == Moves(files, bs);
  }

  lemma BlockStep(i: nat, hi: nat, bs: nat)
    requires i < hi
    ensures (i + 1) * bs == i * bs + bs <= hi * bs
  {
    MulDistributes(i, 1, bs);
    MulMonotone(i + 1, hi, bs);
  }

  lemma FilledGrow(bits: seq<bool>, lo: nat, n: nat)
    ensures Filled(Filled(bits, lo, n, false), lo + n, 1, false) == Filled(bits, lo, n + 1, false)
  {
  }

  lemma ZerosGrow(data: seq<Byte>, at: nat, n: nat, m: nat)
    requires at + n + m <= |data|
    ensures Splice(Splice(data, at, Zeros(n)), at + n, Zeros(m)) == Splice(data, at, Zeros(n + m))
  {
  }
}
