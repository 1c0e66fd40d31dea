/**
 Where each field lies in the byte streams, byte by byte, told without the encoders
 (cpu/src/instrucciones.c:753-964, utils/src/utils/IO.c:30-231).
 */
module Layout {
  import opened Paging
  import opened FlatMemory
  import opened Wire
  import opened Relay

  /** A little-endian word. */
  predicate HasWord(s: seq<Byte>, at: nat, x: nat) {
    at + 4 <= |s| &&
    s[at] as nat + 256 * s[at + 1] as nat + 65536 * s[at + 2] as nat + 16777216 * s[at + 3] as nat == x
  }

  predicate HasBytes(s: seq<Byte>, at: nat, t: seq<Byte>) {
    at + |t| <= |s| && forall k | 0 <= k < |t| :: s[at + k] == t[k]
  }

  /** Address and size of each range, one after the other. */
  predicate HasSegments(s: seq<Byte>, at: nat, segs: seq<Segment>) {
    forall k | 0 <= k < |segs| :: HasWord(s, at + 8 * k, segs[k].addr) && HasWord(s, at + 8 * k + 4, segs[k].size)
  }

  /** The length with the zero, the characters, and the zero. */
  predicate HasText(s: seq<Byte>, at: nat, t: seq<Byte>) {
    HasWord(s, at, |t| + 1) && HasBytes(s, at + 4, t + [0])
  }

  /** The number of ranges and the ranges. */
  predicate HasList(s: seq<Byte>, at: nat, segs: seq<Segment>) {
    HasWord(s, at, |segs|) && HasSegments(s, at + 4, segs)
  }

  // Fields behind a prefix

  lemma WordAt(p: seq<Byte>, x: nat, rest: seq<Byte>)
    requires x < WORD
    ensures HasWord(p + (EncodeWord(x) + rest), |p|, x)
  {
    var s, e := p + (EncodeWord(x) + rest), EncodeWord(x);
    WordRoundTrip(x);
    assert s[|p|] == e[0] && s[|p| + 1] == e[1] && s[|p| + 2] == e[2] && s[|p| + 3] == e[3];
  }

  lemma BytesAt(p: seq<Byte>, t: seq<Byte>, rest: seq<Byte>)
    ensures HasBytes(p + (t + rest), |p|, t)
  {
  }

  lemma WordStays(s: seq<Byte>, rest: seq<Byte>, at: nat, x: nat)
    requires HasWord(s, at, x)
    ensures HasWord(s + rest, at, x)
  {
  }

  lemma SegmentsStay(s: seq<Byte>, rest: seq<Byte>, at: nat, segs: seq<Segment>)
    requires HasSegments(s, at, segs)
    ensures HasSegments(s + rest, at, segs)
  {
    forall k | 0 <= k < |segs|
      ensures HasWord(s + rest, at + 8 * k, segs[k].addr) && HasWord(s + rest, at + 8 * k + 4, segs[k].size)
    {
      WordStays(s, rest, at + 8 * k, segs[k].addr);
      WordStays(s, rest, at + 8 * k + 4, segs[k].size);
    }
  }

  lemma {:induction false} EncodedSegments(p: seq<Byte>, segs: seq<Segment>)
    requires SegmentsFitWords(segs)
    ensures HasSegments(p + EncodeSegments(segs), |p|, segs)
  {
    if segs != [] {
      var init, last := segs[..|segs| - 1], segs[|segs| - 1];
      var before := p + EncodeSegments(init);
      EncodedSegments(p, init);
      SegmentsStay(before, EncodeSegment(last), |p|, init);
      LastSegment(before, last);
      ConcatAssoc(p, EncodeSegments(init), EncodeSegment(last));
      assert segs == init + [last];
    }
  }

  lemma LastSegment(p: seq<Byte>, seg: Segment)
    requires SegmentFits(seg)
    ensures HasWord(p + EncodeSegment(seg), |p|, seg.addr) && HasWord(p + EncodeSegment(seg), |p| + 4, seg.size)
  {
    WordAt(p, seg.addr, EncodeWord(seg.size));
    WordAt(p + EncodeWord(seg.addr), seg.size, []);
    ConcatAssoc(p, EncodeWord(seg.addr), EncodeWord(seg.size));
    assert EncodeWord(seg.size) + [] == EncodeWord(seg.size);
  }

  lemma SegmentsAt(p: seq<Byte>, segs: seq<Segment>, rest: seq<Byte>)
    requires SegmentsFitWords(segs)
    ensures HasSegments(p + (EncodeSegments(segs) + rest), |p|, segs)
  {
    EncodedSegments(p, segs);
    SegmentsStay(p + EncodeSegments(segs), rest, |p|, segs);
    ConcatAssoc(p, EncodeSegments(segs), rest);
  }

  lemma TextAt(p: seq<Byte>, t: seq<Byte>, rest: seq<Byte>)
    requires IsText(t)
    ensures HasText(p + (EncodeText(t) + rest), |p|, t) && |EncodeText(t)| == |t| + 5
  {
    var word, raw := EncodeWord(|t| + 1), t + [0];
    ConcatAssoc(word, raw, rest);
    WordAt(p, |t| + 1, raw + rest);
    BytesAt(p + word, raw, rest);
    ConcatAssoc(p, word, raw + rest);
  }

  lemma ListAt(p: seq<Byte>, segs: seq<Segment>, rest: seq<Byte>)
    requires SegmentsFitWords(segs) && |segs| < WORD
    ensures HasList(p + (EncodeList(segs) + rest), |p|, segs) && |EncodeList(segs)| == 4 + 8 * |segs|
  {
    var word, body := EncodeWord(|segs|), EncodeSegments(segs);
    ConcatAssoc(word, body, rest);
    WordAt(p, |segs|, body + rest);
    SegmentsAt(p + word, segs, rest);
    ConcatAssoc(p, word, body + rest);
  }

  // One field after another

  datatype Field = Word(x: nat) | Raw(t: seq<Byte>) | Text(t: seq<Byte>) | Ranges(segs: seq<Segment>) |
    Counted(segs: seq<Segment>)

  predicate HasField(s: seq<Byte>, at: nat, f: Field) {
    match f
    case Word(x) => HasWord(s, at, x)
    case Raw(t) => HasBytes(s, at, t)
    case Text(t) => HasText(s, at, t)
    case Ranges(segs) => HasSegments(s, at, segs)
    case Counted(segs) => HasList(s, at, segs)
  }

  function Width(f: Field): nat {
    match f
    case Word(_) => 4
    case Raw(t) => |t|
    case Text(t) => 4 + |t| + 1
    case Ranges(segs) => 8 * |segs|
    case Counted(segs) => 4 + 8 * |segs|
  }

  /** From `at` on the stream is these fields, in this order, and nothing else. */
  predicate Lies(s: seq<Byte>, at: nat, fields: seq<Field>)
    decreases |fields|
  {
    if fields == [] then at == |s| else HasField(s, at, fields[0]) && Lies(s, at + Width(fields[0]), fields[1..])
  }

  predicate FieldFits(f: Field) {
    match f
    case Word(x) => x < WORD
    case Raw(_) => true
    case Text(t) => IsText(t)
    case Ranges(segs) => SegmentsFitWords(segs)
    case Counted(segs) => SegmentsFitWords(segs) && |segs| < WORD
  }

  /** What the encoders make of a field. */
  function Encoded(f: Field): seq<Byte>
    requires FieldFits(f)
  {
    match f
    case Word(x) => EncodeWord(x)
    case Raw(t) => t
    case Text(t) => EncodeText(t)
    case Ranges(segs) => EncodeSegments(segs)
    case Counted(segs) => EncodeList(segs)
  }

  lemma FieldAt(p: seq<Byte>, f: Field, rest: seq<Byte>)
    requires FieldFits(f)
    ensures HasField(p + (Encoded(f) + rest), |p|, f) && |Encoded(f)| == Width(f)
  {
    match f
    case Word(x) => WordAt(p, x, rest);
    case Raw(t) => BytesAt(p, t, rest);
    case Text(t) => TextAt(p, t, rest);
    case Ranges(segs) => SegmentsAt(p, segs, rest);
    case Counted(segs) => ListAt(p, segs, rest);
  }

  /** Behind `p` there is one more field, and then the others. */
  lemma OneMore(p: seq<Byte>, f: Field, tail: seq<Byte>, fields: seq<Field>)
    requires FieldFits(f) && Lies((p + Encoded(f)) + tail, |p + Encoded(f)|, fields)
    ensures Lies(p + (Encoded(f) + tail), |p|, [f] + fields)
  {
    FieldAt(p, f, tail);
    ConcatAssoc(p, Encoded(f), tail);
    assert ([f] + fields)[1..] == fields;
  }

  lemma NoMore(p: seq<Byte>)
    ensures Lies(p + [], |p|, [])
  {
  }

  function EncodeAll(fields: seq<Field>): seq<Byte>
    requires forall f <- fields :: FieldFits(f)
  {
    if fields == [] then [] else Encoded(fields[0]) + EncodeAll(fields[1..])
  }

  lemma {:induction false} AllLie(p: seq<Byte>, fields: seq<Field>)
    requires forall f <- fields :: FieldFits(f)
    ensures Lies(p + EncodeAll(fields), |p|, fields)
    decreases |fields|
  {
    if fields == [] {
      NoMore(p);
    } else {
      AllLie(p + Encoded(fields[0]), fields[1..]);
      OneMore(p, fields[0], EncodeAll(fields[1..]), fields[1..]);
      assert [fields[0]] + fields[1..] == fields;
    }
  }

  lemma AllCons(f: Field, fields: seq<Field>)
    requires FieldFits(f) && forall g <- fields :: FieldFits(g)
    ensures forall g <- [f] + fields :: FieldFits(g)
    ensures EncodeAll([f] + fields) == Encoded(f) + EncodeAll(fields)
  {
    assert ([f] + fields)[1..] == fields;
  }

  lemma Whole(s: seq<Byte>, fields: seq<Field>)
    requires (forall f <- fields :: FieldFits(f)) && s == EncodeAll(fields)
    ensures Lies(s, 0, fields)
  {
    AllLie([], fields);
    assert [] + s == s;
  }

  // cpu and memoria

  /** PEDIDO_MOV_OUT: the ranges, the flag that is 1 for one byte, the value and the pid. */
  lemma MovOutLayout(r: MovOutRequest)
    requires MovOutFits(r)
    ensures Lies(EncodeMovOut(r), 0,
                 [Ranges(r.segs)] + ([Raw([if r.wide then 0 else 1])] + ([Raw(r.value)] + ([Word(r.pid)] + []))))
  {
    var flag: seq<Byte> := [if r.wide then 0 else 1];
    var f1: seq<Field> := [Word(r.pid)] + [];
    var f2 := [Raw(r.value)] + f1;
    var f3 := [Raw(flag)] + f2;
    AllCons(Word(r.pid), []);
    AllCons(Raw(r.value), f1);
    AllCons(Raw(flag), f2);
    AllCons(Ranges(r.segs), f3);
    assert EncodeWord(r.pid) + [] == EncodeWord(r.pid);
    ConcatAssoc(EncodeSegments(r.segs) + flag, r.value, EncodeWord(r.pid));
    ConcatAssoc(EncodeSegments(r.segs), flag, r.value + EncodeWord(r.pid));
    Whole(EncodeMovOut(r), [Ranges(r.segs)] + f3);
  }

  /** PEDIDO_MOV_IN: the ranges and the pid. */
  lemma MovInLayout(r: MovInRequest)
    requires SegmentsFitWords(r.segs) && r.pid < WORD
    ensures Lies(EncodeMovIn(r), 0, [Ranges(r.segs)] + ([Word(r.pid)] + []))
  {
    AllCons(Word(r.pid), []);
    AllCons(Ranges(r.segs), [Word(r.pid)] + []);
    assert EncodeWord(r.pid) + [] == EncodeWord(r.pid);
    Whole(EncodeMovIn(r), [Ranges(r.segs)] + ([Word(r.pid)] + []));
  }

  /** PEDIDO_COPY_STRING: the list to write to, the list to read from, the size and the pid. */
  lemma CopyLayout(r: CopyRequest)
    requires CopyFits(r)
    ensures Lies(EncodeCopy(r), 0, [Counted(r.dst)] + ([Counted(r.src)] + ([Word(r.size)] + ([Word(r.pid)] + []))))
  {
    var f1: seq<Field> := [Word(r.pid)] + [];
    var f2 := [Word(r.size)] + f1;
    var f3 := [Counted(r.src)] + f2;
    AllCons(Word(r.pid), []);
    AllCons(Word(r.size), f1);
    AllCons(Counted(r.src), f2);
    AllCons(Counted(r.dst), f3);
    assert EncodeWord(r.pid) + [] == EncodeWord(r.pid);
    CopyIs(r);
    Whole(EncodeCopy(r), [Counted(r.dst)] + f3);
  }

  lemma CopyIs(r: CopyRequest)
    requires CopyFits(r)
    ensures EncodeCopy(r) == EncodeList(r.dst) + (EncodeList(r.src) + (EncodeWord(r.size) + EncodeWord(r.pid)))
  {
    var tail := EncodeWord(r.size) + EncodeWord(r.pid);
    ConcatAssoc(EncodeWord(|r.src|), EncodeSegments(r.src), tail);
    ConcatAssoc(EncodeWord(|r.dst|), EncodeSegments(r.dst), EncodeList(r.src) + tail);
  }

  /** The pieces, cut to their ranges. */
  function PieceFields(parts: seq<seq<Byte>>, segs: seq<Segment>): (fields: seq<Field>)
    requires |parts| == |segs| && forall i | 0 <= i < |segs| :: segs[i].size <= |parts[i]|
    ensures |fields| == |parts| && forall i | 0 <= i < |parts| :: fields[i] == Raw(parts[i][..segs[i].size])
  {
    seq(|parts|, i requires 0 <= i < |parts| => Raw(parts[i][..segs[i].size]))
  }

  lemma {:induction false} PiecesEncoded(parts: seq<seq<Byte>>, segs: seq<Segment>, value: seq<Byte>)
    requires |parts| == |segs| && forall i | 0 <= i < |segs| :: segs[i].size <= |parts[i]|
    ensures forall f <- PieceFields(parts, segs) + [Raw(value)] :: FieldFits(f)
    ensures EncodeAll(PieceFields(parts, segs) + [Raw(value)]) == Pieces(parts, segs) + value
    decreases |parts|
  {
    var fields := PieceFields(parts, segs) + [Raw(value)];
    if parts == [] {
      assert fields == [Raw(value)] + [];
      AllCons(Raw(value), []);
      assert value + [] == value == [] + value;
    } else {
      var head, rest := parts[0][..segs[0].size], PieceFields(parts[1..], segs[1..]) + [Raw(value)];
      PiecesEncoded(parts[1..], segs[1..], value);
      assert fields == [Raw(head)] + rest;
      AllCons(Raw(head), rest);
      ConcatAssoc(head, Pieces(parts[1..], segs[1..]), value);
    }
  }

  /** The answer to MOV_IN: the number of pieces, the pieces in order, each as long as its range, and the value. */
  lemma ReplyLayout(parts: seq<seq<Byte>>, segs: seq<Segment>, value: seq<Byte>)
    requires |parts| == |segs| < WORD && forall i | 0 <= i < |segs| :: segs[i].size <= |parts[i]|
    ensures Lies(EncodeReply(parts, segs, value), 0, [Word(|parts|)] + (PieceFields(parts, segs) + [Raw(value)]))
  {
    PiecesEncoded(parts, segs, value);
    AllCons(Word(|parts|), PieceFields(parts, segs) + [Raw(value)]);
    Whole(EncodeReply(parts, segs, value), [Word(|parts|)] + (PieceFields(parts, segs) + [Raw(value)]));
  }

  // cpu, kernel and interface

  /** What cpu sends with an FS read or write. */
  lemma FsLayout(r: FsRequest)
    requires FsFits(r)
    ensures Lies(EncodeFs(r), 0,
                 [Word(r.pid)] + ([Raw(r.pcbRest)] + ([Text(r.interface)] + ([Text(r.name)] + ([Counted(r.segs)] +
                 ([Word(r.size)] + ([Text(r.pointer)] + ([Word(r.op)] + []))))))))
  {
    var f1: seq<Field> := [Word(r.op)] + [];
    var f2 := [Text(r.pointer)] + f1;
    var f3 := [Word(r.size)] + f2;
    var f4 := [Counted(r.segs)] + f3;
    var f5 := [Text(r.name)] + f4;
    var f6 := [Text(r.interface)] + f5;
    var f7 := [Raw(r.pcbRest)] + f6;
    AllCons(Word(r.op), []);
    AllCons(Text(r.pointer), f1);
    AllCons(Word(r.size), f2);
    AllCons(Counted(r.segs), f3);
    AllCons(Text(r.name), f4);
    AllCons(Text(r.interface), f5);
    AllCons(Raw(r.pcbRest), f6);
    AllCons(Word(r.pid), f7);
    assert EncodeWord(r.op) + [] == EncodeWord(r.op);
    Whole(EncodeFs(r), [Word(r.pid)] + f7);
  }

  /** What the kernel sends on: the fields in another order. */
  lemma DeviceLayout(r: DeviceRequest)
    requires DeviceFits(r)
    ensures Lies(EncodeDevice(r), 0,
                 [Word(r.pid)] + ([Text(r.name)] + ([Text(r.interface)] + ([Word(r.size)] + ([Counted(r.segs)] +
                 ([Text(r.pointer)] + []))))))
  {
    var f1: seq<Field> := [Text(r.pointer)] + [];
    var f2 := [Counted(r.segs)] + f1;
    var f3 := [Word(r.size)] + f2;
    var f4 := [Text(r.interface)] + f3;
    var f5 := [Text(r.name)] + f4;
    AllCons(Text(r.pointer), []);
    AllCons(Counted(r.segs), f1);
    AllCons(Word(r.size), f2);
    AllCons(Text(r.interface), f3);
    AllCons(Text(r.name), f4);
    AllCons(Word(r.pid), f5);
    assert EncodeText(r.pointer) + [] == EncodeText(r.pointer);
    Whole(EncodeDevice(r), [Word(r.pid)] + f5);
  }
}
