/**
 DialFS as its users see it: a map from names to arrays of bytes, and a number of free blocks. Every
 safe operation on the disk, compactions included, is the one on the map, and TRUNCATE fails where the
 numbers say so (entradasalida/src/instrucciones_io.c:70-491).
 */
module FileMap {
  import opened Arith
  import opened Bits
  import opened FlatMemory
  import opened FileSystem
  import opened FileData
  import opened FileOrder
  import opened Repacking
  import opened Truncation
  import opened FsRuns
  import opened FreeBlocks

  type Contents = map<string, seq<Byte>>

  datatype Volume = Volume(files: Contents, free: int)

  /** The text at the pointer, as far as the file goes; a WRITE does not make a file longer. */
  ghost predicate Overwritten(before: seq<Byte>, ptr: nat, text: seq<Byte>, after: seq<Byte>) {
    && |after| == |before|
    && forall k | 0 <= k < |before| :: after[k] == if ptr <= k < ptr + |text| then text[k - ptr] else before[k]
  }

  /** The bytes that both sizes have stay; what a longer file has behind them is not said. */
  ghost predicate Cut(before: seq<Byte>, size: nat, after: seq<Byte>) {
    |after| == size && forall k | 0 <= k < size && k < |before| :: after[k] == before[k]
  }

  /** An operation on the map; `full`: a TRUNCATE finds no room. */
  ghost predicate Does(c: Contents, op: Op, full: bool, c': Contents) {
    match op
    case Create(name) => c' == if name in c then c else c[name := []]
    case Delete(name) => c' == c - {name}
    case Truncate(name, size, _) =>
      if full then c' == c else
        name in c && name in c' && c' == c[name := c'[name]] && Cut(c[name], size, c'[name])
    case Write(name, ptr, text) =>
      name in c && name in c' && c' == c[name := c'[name]] && Overwritten(c[name], ptr, text, c'[name])
  }

  /** The free blocks and the file's own are fewer than its new size needs. */
  predicate NoRoom(v: Volume, op: Op, bs: nat)
    requires 0 < bs
  {
    op.Truncate? && op.name in v.files && v.free + Blocks(|v.files[op.name]|, bs) < CeilDiv(op.size, bs)
  }

  /** The blocks that are free afterwards. */
  function FreeLeft(v: Volume, op: Op, bs: nat): int
    requires 0 < bs
  {
    var own := if op.name in v.files then Blocks(|v.files[op.name]|, bs) else 0;
    match op
    case Create(name) => if name in v.files then v.free else v.free - 1
    case Delete(_) => v.free + own
    case Truncate(_, size, _) => if NoRoom(v, op, bs) then v.free else v.free + own - Blocks(size, bs)
    case Write(_, _, _) => v.free
  }

  /** A request to the volume: only a TRUNCATE without room is not answered, and changes nothing. */
  ghost predicate Serves(v: Volume, op: Op, bs: nat, v': Volume, answered: bool)
    requires 0 < bs
  {
    && answered == !NoRoom(v, op, bs)
    && Does(v.files, op, !answered, v'.files) && v'.free == FreeLeft(v, op, bs)
  }

  // The map that a disk stands for

  ghost function ContentOf(files: seq<File>, data: seq<Byte>, name: string, bs: nat): seq<Byte> {
    var i := Find(files, name);
    if i < |files| && OnDisk(data, files[i], bs) then Content(data, files[i], bs) else []
  }

  ghost function ContentsOf(fs: Fs, data: seq<Byte>, bs: nat): (c: Contents)
    ensures c.Keys == fs.metadata.Keys && forall name <- c :: c[name] == ContentOf(fs.files, data, name, bs)
  {
    map name | name in fs.metadata :: ContentOf(fs.files, data, name, bs)
  }

  ghost function VolumeOf(fs: Fs, data: seq<Byte>, bs: nat): Volume {
    Volume(ContentsOf(fs, data, bs), CountClear(fs.bits))
  }

  /** The file of that name holds what the map says. */
  lemma MapHolds(fs: Fs, data: seq<Byte>, name: string, bs: nat)
    requires 0 < bs && FsOk(fs, bs) && |data| == |fs.bits| * bs && name in fs.metadata
    ensures var i := Find(fs.files, name);
            i < |fs.files| && HoldsAt(fs.files, i, data, name, ContentOf(fs.files, data, name, bs), bs)
  {
    FoundIff(fs.files, fs.metadata, name);
    AllOnDisk(fs.files, data, |fs.bits|, bs);
  }

  /** With distinct names, the file that holds the bytes is the one that is found. */
  lemma HoldsIsContent(files: seq<File>, metadata: map<string, Metadata>, data: seq<Byte>, name: string,
          content: seq<Byte>, bs: nat)
    requires MetadataOk(files, metadata) && Holds(files, data, name, content, bs)
    ensures ContentOf(files, data, name, bs) == content
  {
    var k :| 0 <= k < |files| && HoldsAt(files, k, data, name, content, bs);
    assert Find(files, name) == k;
  }

  // Names

  lemma CarriedNames(fs: Fs, i: nat, plan: Plan, size: nat, bs: nat)
    requires 0 < bs && FsOk(fs, bs) && i < |fs.files|
    requires plan.Shrink? ==> CeilDiv(size, bs) <= Blocks(fs.files[i].size, bs)
    ensures Carried(fs, i, plan, size, bs).metadata.Keys == fs.metadata.Keys
  {
    assert fs.files[i].name in fs.metadata;
    if plan.Compact? {
      CompactedNames(fs, i, size, bs);
    }
  }

  lemma TruncatedNames(fs: Fs, i: nat, size: nat, beyond: nat -> bool, bs: nat)
    requires 0 < bs && FsOk(fs, bs) && i < |fs.files|
    ensures Truncated(fs, i, size, beyond, bs).metadata.Keys == fs.metadata.Keys
  {
    PlanShrinks(fs, i, size, beyond, bs);
    CarriedNames(fs, i, PlanOf(fs, i, size, beyond, bs), size, bs);
  }

  lemma CompactedNames(fs: Fs, i: nat, size: nat, bs: nat)
    requires 0 < bs && FsOk(fs, bs) && i < |fs.files|
    ensures Compacted(fs, i, size, bs).metadata.Keys == fs.metadata.Keys
  {
    var order := Arranged(fs.files, fs.files[i].name);
    ArrangedDisk(fs, i, bs);
    RestartedNames(fs.metadata, order, bs);
    assert order[|order| - 1].name in fs.metadata;
  }

  lemma RestartedNames(metadata: map<string, Metadata>, order: seq<File>, bs: nat)
    requires 0 < bs && MetadataOk(order, metadata)
    ensures Restarted(metadata, Compaction.Placed(order, bs)).Keys == metadata.Keys
  {
    var placed := Compaction.Placed(order, bs);
    assert placed[..|placed|] == placed;
    RestartedEntry(metadata, order, placed, |placed|);
  }

  lemma StepNames(fs: Fs, op: Op, bs: nat)
    requires 0 < bs && FsOk(fs, bs) && Possible(fs, op, bs) && Safe(fs, op, bs)
    ensures var names := Step(fs, op, bs).metadata.Keys;
            match op
            case Create(name) => names == fs.metadata.Keys + {name}
            case Delete(name) => names == fs.metadata.Keys - {name}
            case _ => names == fs.metadata.Keys && op.name in names
  {
    FoundIff(fs.files, fs.metadata, op.name);
    match op
    case Truncate(name, size, beyond) => TruncatedNames(fs, Find(fs.files, name), size, beyond, bs);
    case _ =>
  }

  // One file

  /** An operation that spares a file leaves it on the map as it was. */
  lemma OtherContent(fs: Fs, op: Op, data: seq<Byte>, name: string, bs: nat)
    requires 0 < bs && FsOk(fs, bs) && Possible(fs, op, bs) && Safe(fs, op, bs) && |data| == |fs.bits| * bs
    requires name in fs.metadata && Spares(fs, op, name, bs)
    ensures name in Step(fs, op, bs).metadata
    ensures ContentOf(Step(fs, op, bs).files, StepData(fs, op, data, bs), name, bs) ==
            ContentOf(fs.files, data, name, bs)
  {
    StepOkIff(fs, op, bs);
    StepNames(fs, op, bs);
    MapHolds(fs, data, name, bs);
    var content := ContentOf(fs.files, data, name, bs);
    StepPreserves(fs, op, data, name, content, bs);
    HoldsIsContent(Step(fs, op, bs).files, Step(fs, op, bs).metadata, StepData(fs, op, data, bs), name, content, bs);
  }

  lemma SplicedContent(f: File, ptr: nat, text: seq<Byte>, data: seq<Byte>, bs: nat)
    requires OnDisk(data, f, bs) && f.start * bs + ptr + |text| <= |data|
    ensures OnDisk(Splice(data, f.start * bs + ptr, text), f, bs)
    ensures Overwritten(Content(data, f, bs), ptr, text, Content(Splice(data, f.start * bs + ptr, text), f, bs))
  {
  }

  lemma OwnWrite(fs: Fs, op: Op, data: seq<Byte>, bs: nat)
    requires 0 < bs && FsOk(fs, bs) && op.Write? && Possible(fs, op, bs) && |data| == |fs.bits| * bs
    ensures op.name in fs.metadata
    ensures Overwritten(ContentOf(fs.files, data, op.name, bs), op.ptr, op.text,
                        ContentOf(fs.files, StepData(fs, op, data, bs), op.name, bs))
  {
    var i := Find(fs.files, op.name);
    FoundIff(fs.files, fs.metadata, op.name);
    MapHolds(fs, data, op.name, bs);
    SplicedContent(fs.files[i], op.ptr, op.text, data, bs);
  }

  /** The file that TRUNCATE was called on, when it finds room. */
  lemma OwnTruncate(fs: Fs, op: Op, data: seq<Byte>, bs: nat)
    requires 0 < bs && FsOk(fs, bs) && op.Truncate? && Possible(fs, op, bs) && Safe(fs, op, bs)
    requires |data| == |fs.bits| * bs && !Full(fs, op, bs)
    ensures op.name in fs.metadata
    ensures Cut(ContentOf(fs.files, data, op.name, bs), op.size,
                ContentOf(Step(fs, op, bs).files, StepData(fs, op, data, bs), op.name, bs))
  {
    var i, fs', data' := Find(fs.files, op.name), Step(fs, op, bs), StepData(fs, op, data, bs);
    var start := NewStart(fs, i, PlanOf(fs, i, op.size, op.beyond, bs), bs);
    FoundIff(fs.files, fs.metadata, op.name);
    StepOkIff(fs, op, bs);
    StepSize(fs, op, bs);
    TruncatedEntry(fs, i, op.size, op.beyond, bs);
    AllOnDisk(fs'.files, data', |fs'.bits|, bs);
    EntryHolds(fs'.files, data', File(op.name, start, op.size), bs);
    HoldsIsContent(fs'.files, fs'.metadata, data', op.name, Content(data', File(op.name, start, op.size), bs), bs);
    TruncateKeepsOwn(fs, i, op.size, op.beyond, data, bs);
    CommonIsCut(data, fs.files[i], data', start, op.size, bs);
  }

  lemma EntryHolds(files: seq<File>, data: seq<Byte>, f: File, bs: nat)
    requires f in files && forall k | 0 <= k < |files| :: OnDisk(data, files[k], bs)
    ensures OnDisk(data, f, bs) && Holds(files, data, f.name, Content(data, f, bs), bs)
  {
    var k :| 0 <= k < |files| && files[k] == f;
    assert HoldsAt(files, k, data, f.name, Content(data, f, bs), bs);
  }

  lemma CommonIsCut(data: seq<Byte>, f: File, data': seq<Byte>, start: nat, size: nat, bs: nat)
    requires Common(data, f, data', start, size, bs) && OnDisk(data', File(f.name, start, size), bs)
    ensures Cut(Content(data, f, bs), size, Content(data', File(f.name, start, size), bs))
  {
    var least := if size < f.size then size else f.size;
    var common, after := Content(data', File(f.name, start, least), bs), Content(data', File(f.name, start, size), bs);
    forall k | 0 <= k < least
      ensures after[k] == Content(data, f, bs)[k]
    {
      assert after[k] == data'[start * bs + k] == common[k];
    }
  }

  /** TRUNCATE finds no room, not even by compaction. */
  ghost predicate Full(fs: Fs, op: Op, bs: nat)
    requires 0 < bs && Possible(fs, op, bs)
  {
    op.Truncate? && PlanOf(fs, Find(fs.files, op.name), op.size, op.beyond, bs).Fail?
  }

  /** A WRITE misses the bytes of every file but its own. */
  ghost predicate SparesOthers(fs: Fs, op: Op, bs: nat)
    requires 0 < bs && Possible(fs, op, bs)
  {
    forall name <- fs.metadata :: name != op.name ==> Spares(fs, op, name, bs)
  }

  lemma CreateEmpty(fs: Fs, op: Op, data: seq<Byte>, bs: nat)
    requires 0 < bs && FsOk(fs, bs) && op.Create? && Safe(fs, op, bs) && |data| == |fs.bits| * bs
    requires op.name !in fs.metadata
    ensures ContentOf(Step(fs, op, bs).files, data, op.name, bs) == []
  {
    var fs' := Step(fs, op, bs);
    StepOkIff(fs, op, bs);
    StepNames(fs, op, bs);
    FoundIff(fs.files, fs.metadata, op.name);
    assert fs'.files[|fs.files|].name == op.name && fs'.files[|fs.files|].size == 0;
    MapHolds(fs', data, op.name, bs);
    assert Find(fs'.files, op.name) == |fs.files|;
  }

  /** What becomes of the named file. */
  ghost predicate OwnDoes(c: Contents, op: Op, full: bool, c': Contents) {
    match op
    case Create(name) => name in c' && c'[name] == if name in c then c[name] else []
    case Delete(name) => name !in c'
    case Truncate(name, size, _) =>
      name in c && name in c' && if full then c'[name] == c[name] else Cut(c[name], size, c'[name])
    case Write(name, ptr, text) => name in c && name in c' && Overwritten(c[name], ptr, text, c'[name])
  }

  lemma OwnRefines(fs: Fs, op: Op, data: seq<Byte>, bs: nat)
    requires 0 < bs && FsOk(fs, bs) && Possible(fs, op, bs) && Safe(fs, op, bs) && |data| == |fs.bits| * bs
    ensures OwnDoes(ContentsOf(fs, data, bs), op, Full(fs, op, bs),
                    ContentsOf(Step(fs, op, bs), StepData(fs, op, data, bs), bs))
  {
    StepNames(fs, op, bs);
    match op
    case Create(name) =>
      if name !in fs.metadata {
        CreateEmpty(fs, op, data, bs);
      }
    case Delete(_) =>
    case Truncate(_, _, _) =>
      if Full(fs, op, bs) {
        FullChangesNothing(fs, op, data, bs);
      } else {
        OwnTruncate(fs, op, data, bs);
      }
    case Write(_, _, _) => OwnWrite(fs, op, data, bs);
  }

  lemma FullChangesNothing(fs: Fs, op: Op, data: seq<Byte>, bs: nat)
    requires 0 < bs && FsOk(fs, bs) && Possible(fs, op, bs) && Full(fs, op, bs) && |data| == |fs.bits| * bs
    ensures Step(fs, op, bs) == fs && StepData(fs, op, data, bs) == data
  {
  }

  /** The named file as it should be, the others as they were, and no other names. */
  lemma DoesOf(c: Contents, op: Op, full: bool, c': Contents)
    requires OwnDoes(c, op, full, c') && c'.Keys - {op.name} == c.Keys - {op.name}
    requires forall name <- c :: name != op.name ==> name in c' && c'[name] == c[name]
    ensures Does(c, op, full, c')
  {
    forall name | name in c' && name != op.name
      ensures name in c
    {
      assert name in c'.Keys - {op.name};
    }
  }

  lemma OtherNames(fs: Fs, op: Op, bs: nat)
    requires 0 < bs && FsOk(fs, bs) && Possible(fs, op, bs) && Safe(fs, op, bs)
    ensures Step(fs, op, bs).metadata.Keys - {op.name} == fs.metadata.Keys - {op.name}
  {
    StepNames(fs, op, bs);
  }

  lemma OtherStays(fs: Fs, op: Op, data: seq<Byte>, bs: nat, name: string)
    requires 0 < bs && FsOk(fs, bs) && Possible(fs, op, bs) && Safe(fs, op, bs) && |data| == |fs.bits| * bs
    requires name in fs.metadata && Spares(fs, op, name, bs)
    ensures var c' := ContentsOf(Step(fs, op, bs), StepData(fs, op, data, bs), bs);
            name in c' && c'[name] == ContentsOf(fs, data, bs)[name]
  {
    OtherContent(fs, op, data, name, bs);
  }

  lemma OthersStay(fs: Fs, op: Op, data: seq<Byte>, bs: nat, c: Contents, c': Contents)
    requires 0 < bs && FsOk(fs, bs) && Possible(fs, op, bs) && Safe(fs, op, bs) && SparesOthers(fs, op, bs)
    requires |data| == |fs.bits| * bs
    requires c == ContentsOf(fs, data, bs) && c' == ContentsOf(Step(fs, op, bs), StepData(fs, op, data, bs), bs)
    ensures forall name <- c :: name != op.name ==> name in c' && c'[name] == c[name]
  {
    forall name | name in c && name != op.name
      ensures name in c' && c'[name] == c[name]
    {
      assert Spares(fs, op, name, bs);
      OtherStays(fs, op, data, bs, name);
    }
  }

  /** Every operation that is safe on the disk, and writes on no other file, is that operation on the map. */
  lemma StepRefines(fs: Fs, op: Op, data: seq<Byte>, bs: nat)
    requires 0 < bs && FsOk(fs, bs) && Possible(fs, op, bs) && Safe(fs, op, bs) && SparesOthers(fs, op, bs)
    requires |data| == |fs.bits| * bs
    ensures Does(ContentsOf(fs, data, bs), op, Full(fs, op, bs),
                 ContentsOf(Step(fs, op, bs), StepData(fs, op, data, bs), bs))
  {
    var c, c' := ContentsOf(fs, data, bs), ContentsOf(Step(fs, op, bs), StepData(fs, op, data, bs), bs);
    OthersStay(fs, op, data, bs, c, c');
    OtherNames(fs, op, bs);
    OwnRefines(fs, op, data, bs);
    DoesOf(c, op, Full(fs, op, bs), c');
  }

  /** The sizes on the map are those of the list, so room and free blocks are what the map says. */
  lemma RoomOnMap(fs: Fs, op: Op, data: seq<Byte>, bs: nat)
    requires 0 < bs && FsOk(fs, bs) && Possible(fs, op, bs) && Safe(fs, op, bs) && |data| == |fs.bits| * bs
    ensures var v := VolumeOf(fs, data, bs);
            (Full(fs, op, bs) <==> NoRoom(v, op, bs)) && FreeAfter(fs, op, bs) == FreeLeft(v, op, bs)
  {
    var i := Find(fs.files, op.name);
    FoundIff(fs.files, fs.metadata, op.name);
    if op.name in fs.metadata {
      MapHolds(fs, data, op.name, bs);
    }
    if op.Truncate? {
      NoRoomIff(fs, i, op.size, op.beyond, bs);
    }
  }

  /** ... and it is that request to the volume, answered or not. */
  lemma StepServes(fs: Fs, op: Op, data: seq<Byte>, bs: nat)
    requires 0 < bs && FsOk(fs, bs) && Possible(fs, op, bs) && Safe(fs, op, bs) && SparesOthers(fs, op, bs)
    requires |data| == |fs.bits| * bs
    ensures Serves(VolumeOf(fs, data, bs), op, bs, VolumeOf(Step(fs, op, bs), StepData(fs, op, data, bs), bs),
                   !Full(fs, op, bs))
  {
    StepRefines(fs, op, data, bs);
    StepFree(fs, op, bs);
    RoomOnMap(fs, op, data, bs);
  }

  // Runs

  /** Every operation of the run writes on no other file. */
  ghost predicate RunSparesOthers(fs: Fs, ops: seq<Op>, bs: nat)
    requires 0 < bs && RunSafe(fs, ops, bs)
    decreases |ops|
  {
    ops == [] || (SparesOthers(fs, ops[0], bs) && RunSparesOthers(Step(fs, ops[0], bs), ops[1..], bs))
  }

  /** Which requests of the run are answered. */
  ghost function Answers(fs: Fs, ops: seq<Op>, bs: nat): seq<bool>
    requires 0 < bs && RunOk(fs, ops, bs)
    decreases |ops|
  {
    if ops == [] then [] else [!Full(fs, ops[0], bs)] + Answers(Step(fs, ops[0], bs), ops[1..], bs)
  }

  /** The volume can go through the requests with these answers. */
  ghost predicate VolumeRun(v: Volume, ops: seq<Op>, bs: nat, answers: seq<bool>, end: Volume)
    requires 0 < bs
    decreases |ops|
  {
    if ops == [] then answers == [] && end == v else
      && answers != []
      && exists mid :: Serves(v, ops[0], bs, mid, answers[0]) && VolumeRun(mid, ops[1..], bs, answers[1..], end)
  }

  lemma VolumeRunCons(v: Volume, ops: seq<Op>, bs: nat, mid: Volume, answer: bool, answers: seq<bool>, end: Volume)
    requires 0 < bs && ops != [] && Serves(v, ops[0], bs, mid, answer) && VolumeRun(mid, ops[1..], bs, answers, end)
    ensures VolumeRun(v, ops, bs, [answer] + answers, end)
  {
    assert ([answer] + answers)[1..] == answers;
  }

  /** A run that is safe on the disk is a run of the volume, with the same answers. */
  lemma {:induction false} RunRefines(fs: Fs, ops: seq<Op>, data: seq<Byte>, bs: nat)
    requires 0 < bs && FsOk(fs, bs) && RunSafe(fs, ops, bs) && RunSparesOthers(fs, ops, bs)
    requires |data| == |fs.bits| * bs
    ensures RunOk(fs, ops, bs)
    ensures var (fs', data') := AfterData(fs, ops, data, bs);
            VolumeRun(VolumeOf(fs, data, bs), ops, bs, Answers(fs, ops, bs), VolumeOf(fs', data', bs))
    decreases |ops|
  {
    RunOkIff(fs, ops, bs);
    if ops != [] {
      var next, data' := Step(fs, ops[0], bs), StepData(fs, ops[0], data, bs);
      StepSize(fs, ops[0], bs);
      StepServes(fs, ops[0], data, bs);
      RunRefines(next, ops[1..], data', bs);
      var (end, last) := AfterData(next, ops[1..], data', bs);
      VolumeRunCons(VolumeOf(fs, data, bs), ops, bs, VolumeOf(next, data', bs), !Full(fs, ops[0], bs),
                    Answers(next, ops[1..], bs), VolumeOf(end, last, bs));
    }
  }

  /** Two volumes that differ in the bytes only. */
  ghost predicate Alike(v: Volume, w: Volume) {
    v.free == w.free && v.files.Keys == w.files.Keys && forall name <- v.files :: |v.files[name]| == |w.files[name]|
  }

  lemma ServesAlike(v: Volume, w: Volume, op: Op, bs: nat, v': Volume, a: bool, w': Volume, b: bool)
    requires 0 < bs && Alike(v, w) && Serves(v, op, bs, v', a) && Serves(w, op, bs, w', b)
    ensures a == b && Alike(v', w')
  {
  }

  /**
   Which requests are answered, and the names, sizes and free blocks after them, depend on nothing but
   the names, sizes and free blocks before: not on the places of the files, and not on their bytes.
   */
  lemma {:induction false} RunsAlike(v: Volume, w: Volume, ops: seq<Op>, bs: nat, a: seq<bool>, b: seq<bool>,
          endV: Volume, endW: Volume)
    requires 0 < bs && Alike(v, w) && VolumeRun(v, ops, bs, a, endV) && VolumeRun(w, ops, bs, b, endW)
    ensures a == b && Alike(endV, endW)
    decreases |ops|
  {
    if ops != [] {
      var v' :| Serves(v, ops[0], bs, v', a[0]) && VolumeRun(v', ops[1..], bs, a[1..], endV);
      var w' :| Serves(w, ops[0], bs, w', b[0]) && VolumeRun(w', ops[1..], bs, b[1..], endW);
      ServesAlike(v, w, ops[0], bs, v', a[0], w', b[0]);
      RunsAlike(v', w', ops[1..], bs, a[1..], b[1..], endV, endW);
      assert a == [a[0]] + a[1..] && b == [b[0]] + b[1..];
    }
  }

  // What is written is read

  /** The file has this text at the pointer: what a READ there brings. */
  ghost predicate Reads(c: Contents, name: string, ptr: nat, text: seq<Byte>) {
    name in c && ptr + |text| <= |c[name]| && c[name][ptr..ptr + |text|] == text
  }

  /** The operation is on another file, a WRITE beside the range, or a TRUNCATE that keeps it. */
  predicate KeepsRange(op: Op, name: string, ptr: nat, n: nat) {
    op.name == name ==>
      match op
      case Create(_) => true
      case Delete(_) => false
      case Truncate(_, size, _) => ptr + n <= size
      case Write(_, at, text) => at + |text| <= ptr || ptr + n <= at
  }

  lemma DoesKeeps(c: Contents, op: Op, full: bool, c': Contents, name: string, ptr: nat, text: seq<Byte>)
    requires Does(c, op, full, c') && Reads(c, name, ptr, text) && KeepsRange(op, name, ptr, |text|)
    ensures Reads(c', name, ptr, text)
  {
    if op.name == name && c' != c {
      assert c'[name][ptr..ptr + |text|] == c[name][ptr..ptr + |text|];
    }
  }

  lemma {:induction false} VolumeRunKeeps(v: Volume, ops: seq<Op>, bs: nat, answers: seq<bool>, end: Volume,
          name: string, ptr: nat, text: seq<Byte>)
    requires 0 < bs && VolumeRun(v, ops, bs, answers, end) && Reads(v.files, name, ptr, text)
    requires forall op <- ops :: KeepsRange(op, name, ptr, |text|)
    ensures Reads(end.files, name, ptr, text)
    decreases |ops|
  {
    if ops != [] {
      var mid :| Serves(v, ops[0], bs, mid, answers[0]) && VolumeRun(mid, ops[1..], bs, answers[1..], end);
      DoesKeeps(v.files, ops[0], !answers[0], mid.files, name, ptr, text);
      VolumeRunKeeps(mid, ops[1..], bs, answers[1..], end, name, ptr, text);
    }
  }

  lemma WriteReads(c: Contents, op: Op, full: bool, c': Contents)
    requires op.Write? && Does(c, op, full, c') && op.ptr + |op.text| <= |c[op.name]|
    ensures Reads(c', op.name, op.ptr, op.text)
  {
    assert c'[op.name][op.ptr..op.ptr + |op.text|] == op.text;
  }

  /**
   After a WRITE within the file, a READ at that pointer brings the text, whatever safe operations on
   other files, and on this one outside the range, run in between, compactions included.
   */
  lemma ReadAfterWrite(fs: Fs, op: Op, ops: seq<Op>, data: seq<Byte>, bs: nat)
    requires 0 < bs && FsOk(fs, bs) && op.Write? && |data| == |fs.bits| * bs
    requires RunSafe(fs, [op] + ops, bs) && RunSparesOthers(fs, [op] + ops, bs)
    requires op.ptr + |op.text| <= fs.files[Find(fs.files, op.name)].size
    requires forall later <- ops :: KeepsRange(later, op.name, op.ptr, |op.text|)
    ensures RunOk(fs, [op] + ops, bs)
    ensures var (fs', data') := AfterData(fs, [op] + ops, data, bs);
            Reads(ContentsOf(fs', data', bs), op.name, op.ptr, op.text)
  {
    assert ([op] + ops)[1..] == ops;
    RunOkIff(fs, [op] + ops, bs);
    FoundIff(fs.files, fs.metadata, op.name);
    MapHolds(fs, data, op.name, bs);
    StepRefines(fs, op, data, bs);
    var next, data' := Step(fs, op, bs), StepData(fs, op, data, bs);
    WriteReads(ContentsOf(fs, data, bs), op, Full(fs, op, bs), ContentsOf(next, data', bs));
    StepSize(fs, op, bs);
    RunRefines(next, ops, data', bs);
    var (end, last) := AfterData(next, ops, data', bs);
    VolumeRunKeeps(VolumeOf(next, data', bs), ops, bs, Answers(next, ops, bs), VolumeOf(end, last, bs), op.name,
                   op.ptr, op.text);
  }
}
