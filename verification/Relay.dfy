/**
 A file-system read or write on its way from cpu through the kernel to the interface
 (utils/src/utils/IO.c): the kernel decodes the request, adds its addresses to a list of its own, and
 encodes it anew with the fields in another order.
 */
module Relay {
  import opened Paging
  import opened FlatMemory
  import opened Wire

  /** State, quantum, time, registers and reasons of the PCB: carried, and not looked at here. */
  const PCB_REST: nat := 56

  /** What cpu sends with FS_WRITE_READ. */
  datatype FsRequest = FsRequest(pid: nat, pcbRest: seq<Byte>, interface: seq<Byte>, name: seq<Byte>,
                                 segs: seq<Segment>, size: nat, pointer: seq<Byte>, op: nat)

  /** What the interface gets. */
  datatype DeviceRequest = DeviceRequest(pid: nat, name: seq<Byte>, interface: seq<Byte>, size: nat,
                                         segs: seq<Segment>, pointer: seq<Byte>)

  // Strings

  /** A C string whose length, with the zero, fits a word. */
  predicate IsText(t: seq<Byte>) {
    0 !in t && |t| + 1 < WORD
  }

  function EncodeText(t: seq<Byte>): seq<Byte>
    requires IsText(t)
  {
    EncodeWord(|t| + 1) + (t + [0])
  }

  function TakeText(s: seq<Byte>): Parsed<seq<Byte>> {
    var n := TakeWord(s);
    if n.Short? || |n.rest| < n.value then Short else Parsed(CString(n.rest[..n.value]), n.rest[n.value..])
  }

  lemma {:induction false} CStringOf(t: seq<Byte>)
    requires 0 !in t
    ensures CString(t + [0]) == t
  {
    if t == [] {
      assert t + [0] == [0];
    } else {
      CStringOf(t[1..]);
      assert (t + [0])[1..] == t[1..] + [0];
    }
  }

  lemma TakeTextOf(t: seq<Byte>, rest: seq<Byte>)
    requires IsText(t)
    ensures TakeText(EncodeText(t) + rest) == Parsed(t, rest)
  {
    var raw := t + [0];
    TakeWordOf(|raw|, raw + rest);
    assert EncodeText(t) + rest == EncodeWord(|raw|) + (raw + rest);
    assert (raw + rest)[..|raw|] == raw && (raw + rest)[|raw|..] == rest;
    CStringOf(t);
  }

  // Lists with a length

  function EncodeList(segs: seq<Segment>): seq<Byte>
    requires SegmentsFitWords(segs) && |segs| < WORD
  {
    EncodeWord(|segs|) + EncodeSegments(segs)
  }

  function TakeList(s: seq<Byte>): Parsed<seq<Segment>> {
    var n := TakeWord(s);
    if n.Short? then Short else TakeSegments(n.rest, n.value)
  }

  lemma TakeListOf(segs: seq<Segment>, rest: seq<Byte>)
    requires SegmentsFitWords(segs) && |segs| < WORD
    ensures TakeList(EncodeList(segs) + rest) == Parsed(segs, rest)
  {
    ConcatAssoc(EncodeWord(|segs|), EncodeSegments(segs), rest);
    TakeWordOf(|segs|, EncodeSegments(segs) + rest);
    TakeSegmentsOf(segs, rest);
  }

  function TakeBytes(s: seq<Byte>, n: nat): Parsed<seq<Byte>> {
    if |s| < n then Short else Parsed(s[..n], s[n..])
  }

  lemma TakeBytesOf(t: seq<Byte>, rest: seq<Byte>)
    ensures TakeBytes(t + rest, |t|) == Parsed(t, rest)
  {
  }

  // cpu to kernel

  predicate FsFits(r: FsRequest) {
    && r.pid < WORD && |r.pcbRest| == PCB_REST && IsText(r.interface) && IsText(r.name)
    && SegmentsFitWords(r.segs) && |r.segs| < WORD && r.size < WORD && IsText(r.pointer) && r.op < WORD
  }

  /** serializar_interfaz_fs_write_read */
  function EncodeFs(r: FsRequest): seq<Byte>
    requires FsFits(r)
  {
    EncodeWord(r.pid) + (r.pcbRest + (EncodeText(r.interface) + (EncodeText(r.name) + (EncodeList(r.segs) +
    (EncodeWord(r.size) + (EncodeText(r.pointer) + EncodeWord(r.op)))))))
  }

  /** deserializar_pcb_fs_write_read, with the addresses of this packet only. */
  function DecodeFs(s: seq<Byte>): Parsed<FsRequest> {
    var pid := TakeWord(s);
    if pid.Short? then Short else
    var pcb := TakeBytes(pid.rest, PCB_REST);
    if pcb.Short? then Short else
    var interface := TakeText(pcb.rest);
    if interface.Short? then Short else
    var name := TakeText(interface.rest);
    if name.Short? then Short else
    var segs := TakeList(name.rest);
    if segs.Short? then Short else
    var size := TakeWord(segs.rest);
    if size.Short? then Short else
    var pointer := TakeText(size.rest);
    if pointer.Short? then Short else
    var op := TakeWord(pointer.rest);
    if op.Short? then Short else
    Parsed(FsRequest(pid.value, pcb.value, interface.value, name.value, segs.value, size.value,
                     pointer.value, op.value),
           op.rest)
  }

  lemma FsRoundTrip(r: FsRequest)
    requires FsFits(r)
    ensures DecodeFs(EncodeFs(r)) == Parsed(r, [])
  {
    var h := EncodeWord(r.op);
    var g := EncodeText(r.pointer) + h;
    var f := EncodeWord(r.size) + g;
    var e := EncodeList(r.segs) + f;
    var d := EncodeText(r.name) + e;
    var c := EncodeText(r.interface) + d;
    var b := r.pcbRest + c;
    TakeWordOf(r.pid, b);
    TakeBytesOf(r.pcbRest, c);
    TakeTextOf(r.interface, d);
    TakeTextOf(r.name, e);
    TakeListOf(r.segs, f);
    TakeWordOf(r.size, g);
    TakeTextOf(r.pointer, h);
    TakeWordOf(r.op, []);
    assert h + [] == h;
  }

  // kernel to interface

  predicate DeviceFits(r: DeviceRequest) {
    && r.pid < WORD && IsText(r.name) && IsText(r.interface) && r.size < WORD
    && SegmentsFitWords(r.segs) && |r.segs| < WORD && IsText(r.pointer)
  }

  /** serializar_interfaz_dialFS_write_read */
  function EncodeDevice(r: DeviceRequest): seq<Byte>
    requires DeviceFits(r)
  {
    EncodeWord(r.pid) + (EncodeText(r.name) + (EncodeText(r.interface) + (EncodeWord(r.size) +
    (EncodeList(r.segs) + EncodeText(r.pointer)))))
  }

  /** deserializar_interfaz_dialfs_write_read */
  function DecodeDevice(s: seq<Byte>): Parsed<DeviceRequest> {
    var pid := TakeWord(s);
    if pid.Short? then Short else
    var name := TakeText(pid.rest);
    if name.Short? then Short else
    var interface := TakeText(name.rest);
    if interface.Short? then Short else
    var size := TakeWord(interface.rest);
    if size.Short? then Short else
    var segs := TakeList(size.rest);
    if segs.Short? then Short else
    var pointer := TakeText(segs.rest);
    if pointer.Short? then Short else
    Parsed(DeviceRequest(pid.value, name.value, interface.value, size.value, segs.value, pointer.value), pointer.rest)
  }

  lemma DeviceRoundTrip(r: DeviceRequest)
    requires DeviceFits(r)
    ensures DecodeDevice(EncodeDevice(r)) == Parsed(r, [])
  {
    var f := EncodeText(r.pointer);
    var e := EncodeList(r.segs) + f;
    var d := EncodeWord(r.size) + e;
    var c := EncodeText(r.interface) + d;
    var b := EncodeText(r.name) + c;
    TakeWordOf(r.pid, b);
    TakeTextOf(r.name, c);
    TakeTextOf(r.interface, d);
    TakeWordOf(r.size, e);
    TakeListOf(r.segs, f);
    TakeTextOf(r.pointer, []);
    assert f + [] == f;
  }

  // The relay

  /** The kernel's part: `direcciones_fisicas` is one global list, and decoding appends to it. */
  class Mailbox {
    var addresses: seq<Segment>

    constructor ()
      ensures addresses == []
    {
      addresses := [];
    }

    /** recibir_pcb_fs_write_read */
    method Receive(packet: seq<Byte>) returns (r: Parsed<FsRequest>)
      modifies this
      ensures r == DecodeFs(packet)
      ensures addresses == old(addresses) + (if r.Parsed? then r.value.segs else [])
    {
      r := DecodeFs(packet);
      if r.Parsed? {
        addresses := addresses + r.value.segs;
      }
    }

    /** The DIALFS branch of ejecutar_intruccion_io: the whole list is sent, then cleaned. */
    method Forward(r: FsRequest) returns (packet: seq<Byte>)
      requires FsFits(r) && SegmentsFitWords(addresses) && |addresses| < WORD
      modifies this
      ensures packet == EncodeDevice(DeviceRequest(r.pid, r.name, r.interface, r.size, old(addresses), r.pointer))
      ensures addresses == []
    {
      packet := EncodeDevice(DeviceRequest(r.pid, r.name, r.interface, r.size, addresses, r.pointer));
      addresses := [];
    }

    /**
     One request, from the bytes that cpu sends to those that the interface gets. When the interface
     is not connected nothing is sent, and the list is not cleaned either.
     */
    method PassOn(packet: seq<Byte>, connected: bool, ghost r: FsRequest) returns (sent: seq<seq<Byte>>)
      requires FsFits(r) && packet == EncodeFs(r)
      requires SegmentsFitWords(addresses) && |addresses| + |r.segs| < WORD
      modifies this
      ensures |sent| == if connected then 1 else 0
      ensures var d := DeviceRequest(r.pid, r.name, r.interface, r.size, old(addresses) + r.segs, r.pointer);
              connected ==> addresses == [] && DecodeDevice(sent[0]) == Parsed(d, [])
      ensures !connected ==> addresses == old(addresses) + r.segs
    {
      FsRoundTrip(r);
      ghost var before := addresses;
      var decoded := Receive(packet);
      FitsConcat(before, r.segs);
      if connected {
        DeviceRoundTrip(DeviceRequest(r.pid, r.name, r.interface, r.size, before + r.segs, r.pointer));
        var out := Forward(decoded.value);
        sent := [out];
      } else {
        sent := [];
      }
    }
  }

  lemma FitsConcat(a: seq<Segment>, b: seq<Segment>)
    requires SegmentsFitWords(a) && SegmentsFitWords(b)
    ensures SegmentsFitWords(a + b)
  {
  }

  /** What the interface decodes from a request that found `left` in the kernel's list. */
  function Delivered(r: FsRequest, left: seq<Segment>): Parsed<DeviceRequest>
    requires FsFits(r) && SegmentsFitWords(left) && |left| + |r.segs| < WORD
  {
    FsRoundTrip(r);
    FitsConcat(left, r.segs);
    var k := DecodeFs(EncodeFs(r)).value;
    DecodeDevice(EncodeDevice(DeviceRequest(k.pid, k.name, k.interface, k.size, left + k.segs, k.pointer)))
  }

  lemma DeliveredIs(r: FsRequest, left: seq<Segment>)
    requires FsFits(r) && SegmentsFitWords(left) && |left| + |r.segs| < WORD
    ensures Delivered(r, left) ==
            Parsed(DeviceRequest(r.pid, r.name, r.interface, r.size, left + r.segs, r.pointer), [])
  {
    FsRoundTrip(r);
    FitsConcat(left, r.segs);
    DeviceRoundTrip(DeviceRequest(r.pid, r.name, r.interface, r.size, left + r.segs, r.pointer));
  }

  lemma NothingBefore(a: seq<Segment>, b: seq<Segment>)
    ensures a + b == b <==> a == []
  {
    assert |a + b| == |a| + |b|;
    if a == [] {
      assert a + b == b;
    }
  }

  /** Interface, file, size and pointer always arrive; the address list arrives exactly if the kernel's was empty. */
  lemma DeliveredIff(r: FsRequest, left: seq<Segment>)
    requires FsFits(r) && SegmentsFitWords(left) && |left| + |r.segs| < WORD
    ensures var d := Delivered(r, left);
            && d.Parsed? && d.rest == []
            && d.value.(segs := r.segs) == DeviceRequest(r.pid, r.name, r.interface, r.size, r.segs, r.pointer)
            && (d.value.segs == r.segs <==> left == [])
  {
    DeliveredIs(r, left);
    NothingBefore(left, r.segs);
  }

  // Runs

  /** A request, and whether its interface is connected when it comes. */
  datatype Job = Job(request: FsRequest, connected: bool)

  /** What the first `k` requests leave in the kernel's list, which is empty at first. */
  function Left(jobs: seq<Job>, k: nat): seq<Segment>
    requires k <= |jobs|
  {
    if k == 0 || jobs[k - 1].connected then [] else Left(jobs, k - 1) + jobs[k - 1].request.segs
  }

  /** Request `k` fits its packets, with what it finds in the list. */
  ghost predicate JobFits(jobs: seq<Job>, k: nat)
    requires k < |jobs|
  {
    FsFits(jobs[k].request) && |Left(jobs, k)| + |jobs[k].request.segs| < WORD
  }

  ghost predicate JobsFit(jobs: seq<Job>) {
    forall k | 0 <= k < |jobs| :: JobFits(jobs, k)
  }

  lemma {:induction false} LeftFits(jobs: seq<Job>, k: nat)
    requires JobsFit(jobs) && k <= |jobs|
    ensures SegmentsFitWords(Left(jobs, k))
  {
    if k > 0 && !jobs[k - 1].connected {
      LeftFits(jobs, k - 1);
      assert JobFits(jobs, k - 1);
      FitsConcat(Left(jobs, k - 1), jobs[k - 1].request.segs);
    }
  }

  /** Of the requests from `j` to `k`, none was sent. */
  predicate NoneSent(jobs: seq<Job>, j: nat, k: nat)
    requires k <= |jobs|
  {
    forall c | j <= c < k :: !jobs[c].connected
  }

  /** No request since the last one that was sent carried an address. */
  ghost predicate NothingSince(jobs: seq<Job>, k: nat)
    requires k <= |jobs|
  {
    forall j | 0 <= j < k && NoneSent(jobs, j, k) :: jobs[j].request.segs == []
  }

  lemma NoneSentStep(jobs: seq<Job>, j: nat, k: nat)
    requires j <= k < |jobs|
    ensures NoneSent(jobs, j, k + 1) <==> NoneSent(jobs, j, k) && !jobs[k].connected
  {
  }

  lemma NothingSinceStep(jobs: seq<Job>, k: nat)
    requires k < |jobs|
    ensures NothingSince(jobs, k + 1) <==>
            jobs[k].connected || (NothingSince(jobs, k) && jobs[k].request.segs == [])
  {
    forall j | 0 <= j <= k
      ensures NoneSent(jobs, j, k + 1) <==> NoneSent(jobs, j, k) && !jobs[k].connected
    {
      NoneSentStep(jobs, j, k);
    }
    if jobs[k].connected {
      assert NothingSince(jobs, k + 1);
    } else if NothingSince(jobs, k + 1) {
      assert NoneSent(jobs, k, k + 1);
      NothingBackwards(jobs, k);
    } else {
      NothingForwards(jobs, k);
    }
  }

  lemma NothingBackwards(jobs: seq<Job>, k: nat)
    requires k < |jobs| && !jobs[k].connected && NothingSince(jobs, k + 1)
    ensures NothingSince(jobs, k)
  {
    forall j | 0 <= j < k && NoneSent(jobs, j, k)
      ensures jobs[j].request.segs == []
    {
      NoneSentStep(jobs, j, k);
    }
  }

  lemma NothingForwards(jobs: seq<Job>, k: nat)
    requires k < |jobs| && !jobs[k].connected && !NothingSince(jobs, k + 1)
    ensures !NothingSince(jobs, k) || jobs[k].request.segs != []
  {
    var j :| 0 <= j < k + 1 && NoneSent(jobs, j, k + 1) && jobs[j].request.segs != [];
    NoneSentStep(jobs, j, k);
  }

  lemma {:induction false} LeftEmptyIff(jobs: seq<Job>, k: nat)
    requires k <= |jobs|
    ensures Left(jobs, k) == [] <==> NothingSince(jobs, k)
  {
    if k > 0 {
      LeftEmptyIff(jobs, k - 1);
      NothingSinceStep(jobs, k - 1);
      assert !jobs[k - 1].connected ==> |Left(jobs, k)| == |Left(jobs, k - 1)| + |jobs[k - 1].request.segs|;
    }
  }

  /** Request `k` reaches its interface with its own addresses, all of them and no others. */
  ghost predicate ArrivesWhole(jobs: seq<Job>, k: nat)
    requires k < |jobs| && JobFits(jobs, k) && SegmentsFitWords(Left(jobs, k))
  {
    var r := jobs[k].request;
    Delivered(r, Left(jobs, k)) == Parsed(DeviceRequest(r.pid, r.name, r.interface, r.size, r.segs, r.pointer), [])
  }

  lemma WholeIfNothing(r: FsRequest, left: seq<Segment>)
    requires FsFits(r) && SegmentsFitWords(left) && |left| + |r.segs| < WORD
    ensures Delivered(r, left) == Parsed(DeviceRequest(r.pid, r.name, r.interface, r.size, r.segs, r.pointer), []) <==>
            left == []
  {
    DeliveredIs(r, left);
    NothingBefore(left, r.segs);
  }

  /**
   Over any run of requests, one that is sent arrives whole exactly when every request since the one
   sent before it carried no addresses.
   */
  lemma ArrivesWholeIff(jobs: seq<Job>, k: nat)
    requires JobsFit(jobs) && k < |jobs|
    ensures JobFits(jobs, k) && SegmentsFitWords(Left(jobs, k))
    ensures ArrivesWhole(jobs, k) <==> NothingSince(jobs, k)
  {
    assert JobFits(jobs, k);
    LeftFits(jobs, k);
    WholeIfNothing(jobs[k].request, Left(jobs, k));
    LeftEmptyIff(jobs, k);
  }

  lemma StrayFits(jobs: seq<Job>)
    requires |jobs| == 2 && !jobs[0].connected && FsFits(jobs[0].request) && FsFits(jobs[1].request)
    requires |jobs[0].request.segs| + |jobs[1].request.segs| < WORD
    ensures Left(jobs, 0) == [] && Left(jobs, 1) == jobs[0].request.segs && JobsFit(jobs)
  {
    assert Left(jobs, 1) == Left(jobs, 0) + jobs[0].request.segs;
    forall k | 0 <= k < |jobs|
      ensures JobFits(jobs, k)
    {
      assert k == 0 || k == 1;
    }
  }

  /** A request to an interface that is gone gives its addresses to the next one that is sent. */
  lemma StrayAddresses(gone: FsRequest, next: FsRequest)
    requires FsFits(gone) && FsFits(next) && gone.segs != [] && |gone.segs| + |next.segs| < WORD
    ensures var jobs := [Job(gone, false), Job(next, true)];
            JobsFit(jobs) && JobFits(jobs, 1) && SegmentsFitWords(Left(jobs, 1)) && !ArrivesWhole(jobs, 1)
  {
    var jobs := [Job(gone, false), Job(next, true)];
    StrayFits(jobs);
    ArrivesWholeIff(jobs, 1);
    assert NoneSent(jobs, 0, 1) && jobs[0].request.segs != [];
  }

  /** What is sent for request `k`. */
  ghost predicate Passed(jobs: seq<Job>, k: nat, packets: seq<seq<Byte>>)
    requires k < |jobs| && JobFits(jobs, k) && SegmentsFitWords(Left(jobs, k))
  {
    |packets| == (if jobs[k].connected then 1 else 0) &&
    (jobs[k].connected ==> DecodeDevice(packets[0]) == Delivered(jobs[k].request, Left(jobs, k)))
  }

  /** Request `k`, from the bytes that cpu sends to those that its interface gets. */
  method PassJob(m: Mailbox, jobs: seq<Job>, k: nat) returns (packets: seq<seq<Byte>>)
    requires k < |jobs| && JobFits(jobs, k) && SegmentsFitWords(Left(jobs, k)) && m.addresses == Left(jobs, k)
    modifies m
    ensures Passed(jobs, k, packets) && m.addresses == Left(jobs, k + 1)
  {
    DeliveredIs(jobs[k].request, Left(jobs, k));
    packets := m.PassOn(EncodeFs(jobs[k].request), jobs[k].connected, jobs[k].request);
  }

  lemma AllFit(jobs: seq<Job>)
    requires JobsFit(jobs)
    ensures forall k | 0 <= k < |jobs| :: JobFits(jobs, k) && SegmentsFitWords(Left(jobs, k))
  {
    forall k | 0 <= k < |jobs|
      ensures JobFits(jobs, k) && SegmentsFitWords(Left(jobs, k))
    {
      LeftFits(jobs, k);
    }
  }

  /** The requests one after another. */
  method PassAll(m: Mailbox, jobs: seq<Job>) returns (sent: seq<seq<seq<Byte>>>)
    requires JobsFit(jobs) && m.addresses == []
    modifies m
    ensures |sent| == |jobs|
    ensures forall k | 0 <= k < |jobs| ::
              JobFits(jobs, k) && SegmentsFitWords(Left(jobs, k)) && Passed(jobs, k, sent[k])
  {
    AllFit(jobs);
    sent := [];
    for k := 0 to |jobs|
      invariant |sent| == k && m.addresses == Left(jobs, k)
      invariant forall i | 0 <= i < k :: Passed(jobs, i, sent[i])
    {
      var packets := PassJob(m, jobs, k);
      sent := sent + [packets];
    }
  }
}
