/** Whole runs of requests to DialFS (entradasalida/src/comunicaciones.c): handlers, value and map together. */
module DiskRuns {
  import opened FlatMemory
  import opened FileSystem
  import opened FileData
  import opened FsRuns
  import opened FileMap
  import DialFs

  /** The sum in TRUNCATE does not wrap, and the text is a C string. */
  predicate Servable(op: Op, bs: nat) {
    (op.Truncate? ==> op.size + bs <= 0x1_0000_0000) && (op.Write? ==> CString(op.text) == op.text)
  }

  /** A request, by its handler: the step, its answer, and a sound disk afterwards exactly if it was safe. */
  method Serve(d: DialFs.DialFs, op: Op, ghost fs: Fs, ghost data: seq<Byte>) returns (answered: bool)
    requires d.Valid() && fs == d.Value() && data == d.blocks[..]
    requires Possible(fs, op, d.blockSize) && Servable(op, d.blockSize)
    modifies d`files, d`metadata, d.bitmap, d.blocks
    ensures d.Value() == Step(fs, op, d.blockSize) && d.blocks[..] == StepData(fs, op, data, d.blockSize)
    ensures d.Valid() <==> Safe(fs, op, d.blockSize)
    ensures answered == !Full(fs, op, d.blockSize)
  {
    StepOkIff(fs, op, d.blockSize);
    answered := true;
    match op
    case Create(name) => d.Create(name);
    case Delete(name) => d.Delete(name);
    case Truncate(name, size, beyond) => answered := d.Truncate(name, size, beyond);
    case Write(name, ptr, text) => d.Write(name, ptr, text);
  }

  lemma AfterStep(fs: Fs, ops: seq<Op>, k: nat, data: seq<Byte>, bs: nat)
    requires 0 < bs && k < |ops| && RunOk(fs, ops[k..], bs) && |data| == |fs.bits| * bs
    ensures FsOk(fs, bs) && Possible(fs, ops[k], bs) && Safe(fs, ops[k], bs)
    ensures var next, data' := Step(fs, ops[k], bs), StepData(fs, ops[k], data, bs);
            && RunOk(next, ops[k + 1..], bs) && |data'| == |next.bits| * bs
            && AfterData(fs, ops[k..], data, bs) == AfterData(next, ops[k + 1..], data', bs)
  {
    assert ops[k..][0] == ops[k] && ops[k..][1..] == ops[k + 1..];
    RunOkIff(fs, ops[k..], bs);
    StepSize(fs, ops[k], bs);
  }

  lemma AnswersHead(fs: Fs, ops: seq<Op>, k: nat, bs: nat)
    requires 0 < bs && k < |ops| && RunOk(fs, ops[k..], bs)
    ensures Possible(fs, ops[k], bs) && RunOk(Step(fs, ops[k], bs), ops[k + 1..], bs)
    ensures Answers(fs, ops[k..], bs) == [!Full(fs, ops[k], bs)] + Answers(Step(fs, ops[k], bs), ops[k + 1..], bs)
  {
    assert ops[k..][0] == ops[k] && ops[k..][1..] == ops[k + 1..];
  }

  lemma HeadMoves(before: seq<bool>, head: bool, rest: seq<bool>)
    ensures before + ([head] + rest) == before + [head] + rest
  {
  }

  /** A run of requests, and which of them were answered. */
  method ServeAll(d: DialFs.DialFs, ops: seq<Op>) returns (answers: seq<bool>)
    requires d.Valid() && RunOk(d.Value(), ops, d.blockSize) && forall op <- ops :: Servable(op, d.blockSize)
    modifies d`files, d`metadata, d.bitmap, d.blocks
    ensures d.Valid()
    ensures (d.Value(), d.blocks[..]) == old(AfterData(d.Value(), ops, d.blocks[..], d.blockSize))
    ensures answers == old(Answers(d.Value(), ops, d.blockSize))
  {
    ghost var end := AfterData(d.Value(), ops, d.blocks[..], d.blockSize);
    ghost var all := Answers(d.Value(), ops, d.blockSize);
    answers := [];
    assert ops[0..] == ops && [] + all == all;
    for k := 0 to |ops|
      invariant d.Valid() && RunOk(d.Value(), ops[k..], d.blockSize)
      invariant end == AfterData(d.Value(), ops[k..], d.blocks[..], d.blockSize)
      invariant all == answers + Answers(d.Value(), ops[k..], d.blockSize)
    {
      ghost var fs, data := d.Value(), d.blocks[..];
      AfterStep(fs, ops, k, data, d.blockSize);
      AnswersHead(fs, ops, k, d.blockSize);
      HeadMoves(answers, !Full(fs, ops[k], d.blockSize),
                Answers(Step(fs, ops[k], d.blockSize), ops[k + 1..], d.blockSize));
      var answered := Serve(d, ops[k], fs, data);
      answers := answers + [answered];
    }
    assert ops[|ops|..] == [] && answers + [] == answers;
  }

  /** The handlers run as the volume does: what is answered, what every file holds, and how much is free. */
  method ServeVolume(d: DialFs.DialFs, ops: seq<Op>) returns (answers: seq<bool>)
    requires d.Valid() && RunSafe(d.Value(), ops, d.blockSize) && RunSparesOthers(d.Value(), ops, d.blockSize)
    requires forall op <- ops :: Servable(op, d.blockSize)
    modifies d`files, d`metadata, d.bitmap, d.blocks
    ensures d.Valid()
    ensures VolumeRun(old(VolumeOf(d.Value(), d.blocks[..], d.blockSize)), ops, d.blockSize, answers,
                      VolumeOf(d.Value(), d.blocks[..], d.blockSize))
  {
    RunRefines(d.Value(), ops, d.blocks[..], d.blockSize);
    answers := ServeAll(d, ops);
  }

  lemma SubSlice(data: seq<Byte>, at: nat, size: nat, ptr: nat, n: nat)
    requires at + size <= |data| && ptr + n <= size
    ensures data[at..at + size][ptr..ptr + n] == data[at + ptr..at + ptr + n]
  {
    var piece := data[at..at + size];
    var l, r := piece[ptr..ptr + n], data[at + ptr..at + ptr + n];
    forall k | 0 <= k < n
      ensures l[k] == r[k]
    {
      assert piece[ptr + k] == data[at + ptr + k];
    }
  }

  /** Part of a file's content, at its place on the disk. */
  lemma PartOnDisk(f: File, data: seq<Byte>, at: int, ptr: nat, n: nat, bs: nat)
    requires OnDisk(data, f, bs) && ptr + n <= f.size && at == f.start * bs
    ensures 0 <= at && at + ptr + n <= |data| && Content(data, f, bs)[ptr..ptr + n] == data[at + ptr..at + ptr + n]
  {
    SubSlice(data, f.start * bs, f.size, ptr, n);
  }

  /** The text lies at the pointer, counted from the first block of the file. */
  ghost predicate TextAt(files: seq<File>, data: seq<Byte>, name: string, ptr: nat, text: seq<Byte>, bs: nat) {
    var i := Find(files, name);
    i < |files| &&
    var at := files[i].start * bs + ptr;
    at + |text| <= |data| && data[at..at + |text|] == text
  }

  lemma ReadsOnDisk(fs: Fs, data: seq<Byte>, name: string, ptr: nat, text: seq<Byte>, bs: nat)
    requires 0 < bs && FsOk(fs, bs) && |data| == |fs.bits| * bs && Reads(ContentsOf(fs, data, bs), name, ptr, text)
    ensures TextAt(fs.files, data, name, ptr, text, bs)
  {
    MapHolds(fs, data, name, bs);
    ContentAt(fs.files, data, name, ptr, text, bs);
  }

  lemma ContentAt(files: seq<File>, data: seq<Byte>, name: string, ptr: nat, text: seq<Byte>, bs: nat)
    requires Find(files, name) < |files| && OnDisk(data, files[Find(files, name)], bs)
    requires var content := Content(data, files[Find(files, name)], bs);
             ptr + |text| <= |content| && content[ptr..ptr + |text|] == text
    ensures TextAt(files, data, name, ptr, text, bs)
  {
    var f := files[Find(files, name)];
    PartOnDisk(f, data, f.start * bs, ptr, |text|, bs);
  }

  lemma AfterSize(fs: Fs, ops: seq<Op>, data: seq<Byte>, bs: nat)
    requires 0 < bs && RunOk(fs, ops, bs) && |data| == |fs.bits| * bs
    ensures var (fs', data') := AfterData(fs, ops, data, bs); FsOk(fs', bs) && |data'| == |fs'.bits| * bs
    decreases |ops|
  {
    if ops != [] {
      StepSize(fs, ops[0], bs);
      AfterSize(Step(fs, ops[0], bs), ops[1..], StepData(fs, ops[0], data, bs), bs);
    }
  }

  /** The run begins with a WRITE within its file, and what follows is safe and keeps the text. */
  ghost predicate WritesFirst(fs: Fs, run: seq<Op>, bs: nat)
    requires 0 < bs
  {
    && run != [] && run[0].Write? && RunSafe(fs, run, bs) && RunSparesOthers(fs, run, bs)
    && run[0].ptr + |run[0].text| <= fs.files[Find(fs.files, run[0].name)].size
    && forall later <- run[1..] :: KeepsRange(later, run[0].name, run[0].ptr, |run[0].text|)
  }

  /** Where the text of the WRITE is after the run. */
  lemma TextStays(fs: Fs, run: seq<Op>, data: seq<Byte>, bs: nat)
    requires 0 < bs && FsOk(fs, bs) && |data| == |fs.bits| * bs && WritesFirst(fs, run, bs)
    ensures RunOk(fs, run, bs)
    ensures var (fs', data') := AfterData(fs, run, data, bs);
            FsOk(fs', bs) && TextAt(fs'.files, data', run[0].name, run[0].ptr, run[0].text, bs)
  {
    var op := run[0];
    assert [op] + run[1..] == run;
    ReadAfterWrite(fs, op, run[1..], data, bs);
    AfterSize(fs, run, data, bs);
    var (fs', data') := AfterData(fs, run, data, bs);
    ReadsOnDisk(fs', data', op.name, op.ptr, op.text, bs);
  }

  /** A READ where a text lies. */
  method ReadText(d: DialFs.DialFs, name: string, ptr: nat, ghost text: seq<Byte>, n: nat) returns (r: seq<Byte>)
    requires d.Valid() && TextAt(d.files, d.blocks[..], name, ptr, text, d.blockSize) && n == |text|
    ensures r == text
  {
    r := d.Read(name, ptr, n);
  }

  /**
   The text of a WRITE within its file is what a READ brings after any safe requests about other files,
   and about this one beside the text.
   */
  method WriteAndRead(d: DialFs.DialFs, run: seq<Op>) returns (text: seq<Byte>)
    requires d.Valid() && WritesFirst(d.Value(), run, d.blockSize)
    requires forall op <- run :: Servable(op, d.blockSize)
    modifies d`files, d`metadata, d.bitmap, d.blocks
    ensures d.Valid() && text == run[0].text
  {
    TextStays(d.Value(), run, d.blocks[..], d.blockSize);
    var answers := ServeAll(d, run);
    text := ReadText(d, run[0].name, run[0].ptr, run[0].text, |run[0].text|);
  }
}
