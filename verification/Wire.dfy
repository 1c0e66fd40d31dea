/**
 The byte streams between cpu and memoria (cpu/src/instrucciones.c, memoria/src/utils_memoria.c).
 Words are little-endian, as memcpy of a uint32_t leaves them on the target.
 */
module Wire {
  import opened Paging
  import opened FlatMemory

  const WORD: nat := 0x1_0000_0000

  function EncodeWord(x: nat): (s: seq<Byte>)
    requires x < WORD
    ensures |s| == 4
  {
    [(x % 256) as Byte, (x / 256 % 256) as Byte, (x / 65536 % 256) as Byte, (x / 16777216 % 256) as Byte]
  }

  function DecodeWord(s: seq<Byte>): (x: nat)
    requires |s| == 4
    ensures x < WORD
  {
    s[0] as nat + 256 * s[1] as nat + 65536 * s[2] as nat + 16777216 * s[3] as nat
  }

  lemma WordRoundTrip(x: nat)
    requires x < WORD
    ensures DecodeWord(EncodeWord(x)) == x
  {
  }

  predicate SegmentFits(s: Segment) {
    s.addr < WORD && s.size < WORD
  }

  predicate SegmentsFitWords(segs: seq<Segment>) {
    forall i | 0 <= i < |segs| :: SegmentFits(segs[i])
  }

  function EncodeSegment(s: Segment): (r: seq<Byte>)
    requires SegmentFits(s)
    ensures |r| == 8
  {
    EncodeWord(s.addr) + EncodeWord(s.size)
  }

  function DecodeSegment(s: seq<Byte>): Segment
    requires |s| == 8
  {
    Segment(DecodeWord(s[..4]), DecodeWord(s[4..]))
  }

  lemma SegmentRoundTrip(s: Segment)
    requires SegmentFits(s)
    ensures DecodeSegment(EncodeSegment(s)) == s
  {
    WordRoundTrip(s.addr);
    WordRoundTrip(s.size);
    assert EncodeSegment(s)[..4] == EncodeWord(s.addr) && EncodeSegment(s)[4..] == EncodeWord(s.size);
  }

  /** A list of physical ranges: two words each, with no length of its own. */
  function EncodeSegments(segs: seq<Segment>): (r: seq<Byte>)
    requires SegmentsFitWords(segs)
    ensures |r| == 8 * |segs|
  {
    if segs == [] then [] else EncodeSegments(segs[..|segs| - 1]) + EncodeSegment(segs[|segs| - 1])
  }

  /** The first `n` ranges of a stream. */
  function DecodeSegments(s: seq<Byte>, n: nat): (r: seq<Segment>)
    requires 8 * n <= |s|
    ensures |r| == n
  {
    if n == 0 then [] else DecodeSegments(s, n - 1) + [DecodeSegment(s[8 * n - 8..8 * n])]
  }

  lemma {:induction false} DecodePrefix(s: seq<Byte>, rest: seq<Byte>, n: nat)
    requires 8 * n <= |s|
    ensures DecodeSegments(s + rest, n) == DecodeSegments(s, n)
  {
    if n > 0 {
      DecodePrefix(s, rest, n - 1);
      assert (s + rest)[8 * n - 8..8 * n] == s[8 * n - 8..8 * n];
    }
  }

  lemma {:induction false} SegmentsRoundTrip(segs: seq<Segment>, rest: seq<Byte>)
    requires SegmentsFitWords(segs)
    ensures DecodeSegments(EncodeSegments(segs) + rest, |segs|) == segs
  {
    DecodePrefix(EncodeSegments(segs), rest, |segs|);
    if segs != [] {
      var init, last := segs[..|segs| - 1], segs[|segs| - 1];
      SegmentsRoundTrip(init, EncodeSegment(last));
      SegmentRoundTrip(last);
      assert EncodeSegments(segs)[8 * |init|..8 * |segs|] == EncodeSegment(last);
    }
  }

  /** PEDIDO_MOV_OUT: `wide` is false for a one-byte register. */
  datatype MovOutRequest = MovOutRequest(segs: seq<Segment>, wide: bool, value: seq<Byte>, pid: nat)

  predicate MovOutFits(r: MovOutRequest) {
    SegmentsFitWords(r.segs) && |r.value| == (if r.wide then 4 else 1) && r.pid < WORD
  }

  /** serializar_datos_mov_out */
  function EncodeMovOut(r: MovOutRequest): (s: seq<Byte>)
    requires MovOutFits(r)
    ensures |s| == 8 * |r.segs| + (if r.wide then 9 else 6)
  {
    EncodeSegments(r.segs) + [if r.wide then 0 else 1] + r.value + EncodeWord(r.pid)
  }

  /** The count that the decoder derives from the size of the stream alone. */
  function MovOutCount(size: nat): nat
    requires 5 <= size
  {
    (size - 5) / 8
  }

  /** The stream is long enough for what its flag announces. */
  predicate MovOutReadable(s: seq<Byte>) {
    && 5 <= |s|
    && 8 * MovOutCount(|s|) < |s|
    && 8 * MovOutCount(|s|) + (if s[8 * MovOutCount(|s|)] == 1 then 6 else 9) <= |s|
  }

  /** deserializar_datos_mov_out */
  function DecodeMovOut(s: seq<Byte>): MovOutRequest
    requires MovOutReadable(s)
  {
    var at := 8 * MovOutCount(|s|);
    var wide := s[at] != 1;
    var w := if wide then 4 else 1;
    MovOutRequest(DecodeSegments(s, MovOutCount(|s|)), wide, s[at + 1..at + 1 + w], DecodeWord(s[at + 1 + w..at + 5 +
        w]))
  }

  /** The count comes out right for both widths, so the whole request does. */
  lemma MovOutRoundTrip(r: MovOutRequest)
    requires MovOutFits(r)
    ensures MovOutReadable(EncodeMovOut(r)) && DecodeMovOut(EncodeMovOut(r)) == r
  {
    var s, at := EncodeMovOut(r), 8 * |r.segs|;
    var rest := [if r.wide then 0 else 1] + r.value + EncodeWord(r.pid);
    assert s == EncodeSegments(r.segs) + rest;
    assert MovOutCount(|s|) == |r.segs|;
    SegmentsRoundTrip(r.segs, rest);
    WordRoundTrip(r.pid);
    var w := |r.value|;
    assert s[at] == if r.wide then 0 else 1;
    assert s[at + 1..at + 1 + w] == r.value;
    assert s[at + 1 + w..at + 5 + w] == EncodeWord(r.pid);
  }

  datatype MovInRequest = MovInRequest(segs: seq<Segment>, pid: nat)

  /** serializar_datos_mov_in */
  function EncodeMovIn(r: MovInRequest): seq<Byte>
    requires SegmentsFitWords(r.segs) && r.pid < WORD
  {
    EncodeSegments(r.segs) + EncodeWord(r.pid)
  }

  /** deserializar_datos_mov_in */
  function DecodeMovIn(s: seq<Byte>): MovInRequest
    requires 4 <= |s|
  {
    var n := (|s| - 4) / 8;
    MovInRequest(DecodeSegments(s, n), DecodeWord(s[8 * n..8 * n + 4]))
  }

  lemma MovInRoundTrip(r: MovInRequest)
    requires SegmentsFitWords(r.segs) && r.pid < WORD
    ensures DecodeMovIn(EncodeMovIn(r)) == r
  {
    var s, w := EncodeMovIn(r), EncodeWord(r.pid);
    assert (|s| - 4) / 8 == |r.segs|;
    SegmentsRoundTrip(r.segs, w);
    WordRoundTrip(r.pid);
    assert s[8 * |r.segs|..8 * |r.segs| + 4] == w;
  }

  datatype CopyRequest = CopyRequest(dst: seq<Segment>, src: seq<Segment>, size: nat, pid: nat)

  predicate CopyFits(r: CopyRequest) {
    && SegmentsFitWords(r.dst) && SegmentsFitWords(r.src)
    && |r.dst| < WORD && |r.src| < WORD && r.size < WORD && r.pid < WORD
  }

  /** serializar_datos_copy_string: here each list carries its length. */
  function EncodeCopy(r: CopyRequest): (s: seq<Byte>)
    requires CopyFits(r)
  {
    EncodeWord(|r.dst|) + (EncodeSegments(r.dst) + (EncodeWord(|r.src|) + (EncodeSegments(r.src) +
    (EncodeWord(r.size) + EncodeWord(r.pid)))))
  }

  /** A word and what follows it, or nothing if the stream is too short. */
  datatype Parsed<T> = Short | Parsed(value: T, rest: seq<Byte>)

  function TakeWord(s: seq<Byte>): Parsed<nat> {
    if |s| < 4 then Short else Parsed(DecodeWord(s[..4]), s[4..])
  }

  function TakeSegments(s: seq<Byte>, n: nat): Parsed<seq<Segment>> {
    if |s| < 8 * n then Short else Parsed(DecodeSegments(s, n), s[8 * n..])
  }

  lemma TakeWordOf(x: nat, rest: seq<Byte>)
    requires x < WORD
    ensures TakeWord(EncodeWord(x) + rest) == Parsed(x, rest)
  {
    WordRoundTrip(x);
    assert (EncodeWord(x) + rest)[..4] == EncodeWord(x);
  }

  lemma TakeSegmentsOf(segs: seq<Segment>, rest: seq<Byte>)
    requires SegmentsFitWords(segs)
    ensures TakeSegments(EncodeSegments(segs) + rest, |segs|) == Parsed(segs, rest)
  {
    SegmentsRoundTrip(segs, rest);
  }

  /** deserializar_datos_copystring */
  function DecodeCopy(s: seq<Byte>): Parsed<CopyRequest> {
    var a := TakeWord(s);
    if a.Short? then Short else
    var dst := TakeSegments(a.rest, a.value);
    if dst.Short? then Short else
    var b := TakeWord(dst.rest);
    if b.Short? then Short else
    var src := TakeSegments(b.rest, b.value);
    if src.Short? then Short else
    var size := TakeWord(src.rest);
    if size.Short? then Short else
    var pid := TakeWord(size.rest);
    if pid.Short? then Short else
    Parsed(CopyRequest(dst.value, src.value, size.value, pid.value), pid.rest)
  }

  lemma CopyRoundTrip(r: CopyRequest)
    requires CopyFits(r)
    ensures DecodeCopy(EncodeCopy(r)) == Parsed(r, [])
  {
    var e := EncodeWord(r.pid);
    var d := EncodeWord(r.size) + e;
    var c := EncodeSegments(r.src) + d;
    var b := EncodeWord(|r.src|) + c;
    var a := EncodeSegments(r.dst) + b;
    TakeWordOf(|r.dst|, a);
    TakeSegmentsOf(r.dst, b);
    TakeWordOf(|r.src|, c);
    TakeSegmentsOf(r.src, d);
    TakeWordOf(r.size, e);
    TakeWordOf(r.pid, []);
    assert e + [] == e;
  }

  /** memcpy into a packet at an offset; what lies before the offset is the stream so far. */
  method Put(buf: array<Byte>, at: nat, data: seq<Byte>)
    requires at + |data| <= buf.Length
    modifies buf
    ensures buf[..at + |data|] == old(buf[..at]) + data
  {
    for k := 0 to |data|
      invariant buf[..at] == old(buf[..at]) && buf[at..at + k] == data[..k]
    {
      buf[at + k] := data[k];
    }
    assert buf[..at + |data|] == buf[..at] + buf[at..at + |data|];
  }

  /** The loop that all the serializers share. */
  method PutSegments(buf: array<Byte>, segs: seq<Segment>)
    requires SegmentsFitWords(segs) && 8 * |segs| <= buf.Length
    modifies buf
    ensures buf[..8 * |segs|] == EncodeSegments(segs)
  {
    var at := 0;
    for i := 0 to |segs|
      invariant at == 8 * i && buf[..at] == EncodeSegments(segs[..i])
    {
      assert segs[..i + 1][..i] == segs[..i];
      Put(buf, at, EncodeWord(segs[i].addr));
      Put(buf, at + 4, EncodeWord(segs[i].size));
      ConcatAssoc(EncodeSegments(segs[..i]), EncodeWord(segs[i].addr), EncodeWord(segs[i].size));
      at := at + 8;
    }
    assert segs[..|segs|] == segs;
  }

  /** The loop that all the decoders share. */
  method GetSegments(s: seq<Byte>, n: nat) returns (segs: seq<Segment>)
    requires 8 * n <= |s|
    ensures segs == DecodeSegments(s, n)
  {
    segs := [];
    var at := 0;
    for i := 0 to n
      invariant at == 8 * i && segs == DecodeSegments(s, i)
    {
      var addr, size := DecodeWord(s[at..at + 4]), DecodeWord(s[at + 4..at + 8]);
      assert s[at..at + 8][..4] == s[at..at + 4] && s[at..at + 8][4..] == s[at + 4..at + 8];
      segs := segs + [Segment(addr, size)];
      at := at + 8;
    }
  }

  method SerializeMovOut(r: MovOutRequest) returns (buf: array<Byte>)
    requires MovOutFits(r)
    ensures fresh(buf) && buf[..] == EncodeMovOut(r)
  {
    var size := |r.segs| * 8 + 5 + (if r.wide then 4 else 1);
    buf := new Byte[size](_ => 0);
    PutSegments(buf, r.segs);
    var at := 8 * |r.segs|;
    Put(buf, at, [if r.wide then 0 else 1]);
    Put(buf, at + 1, r.value);
    Put(buf, at + 1 + |r.value|, EncodeWord(r.pid));
    assert buf[..buf.Length] == buf[..];
  }

  method DeserializeMovOut(s: seq<Byte>) returns (r: MovOutRequest)
    requires MovOutReadable(s)
    ensures r == DecodeMovOut(s)
  {
    var n := (|s| - 4 - 1) / 8;
    var segs := GetSegments(s, n);
    var at := 8 * n;
    var narrow := s[at] == 1;
    at := at + 1;
    var w := if narrow then 1 else 4;
    r := MovOutRequest(segs, !narrow, s[at..at + w], DecodeWord(s[at + w..at + w + 4]));
  }

  method SerializeMovIn(r: MovInRequest) returns (buf: array<Byte>)
    requires SegmentsFitWords(r.segs) && r.pid < WORD
    ensures fresh(buf) && buf[..] == EncodeMovIn(r)
  {
    buf := new Byte[|r.segs| * 8 + 4](_ => 0);
    PutSegments(buf, r.segs);
    Put(buf, 8 * |r.segs|, EncodeWord(r.pid));
    assert buf[..buf.Length] == buf[..];
  }

  method DeserializeMovIn(s: seq<Byte>) returns (r: MovInRequest)
    requires 4 <= |s|
    ensures r == DecodeMovIn(s)
  {
    var n := (|s| - 4) / 8;
    var segs := GetSegments(s, n);
    r := MovInRequest(segs, DecodeWord(s[8 * n..8 * n + 4]));
  }

  /** The first bytes of each partial result, as many as its range has. */
  function Pieces(parts: seq<seq<Byte>>, segs: seq<Segment>): seq<Byte>
    requires |parts| == |segs| && forall i | 0 <= i < |segs| :: segs[i].size <= |parts[i]|
  {
    if segs == [] then [] else parts[0][..segs[0].size] + Pieces(parts[1..], segs[1..])
  }

  /** serializar_datos_leidos: the list length, the pieces, and the value of one or four bytes. */
  function EncodeReply(parts: seq<seq<Byte>>, segs: seq<Segment>, value: seq<Byte>): seq<Byte>
    requires |parts| == |segs| < WORD && forall i | 0 <= i < |segs| :: segs[i].size <= |parts[i]|
  {
    EncodeWord(|parts|) + (Pieces(parts, segs) + value)
  }

  /** The decoder's loop; an empty range makes it give up. */
  function TakePieces(s: seq<Byte>, segs: seq<Segment>): Parsed<seq<seq<Byte>>> {
    if segs == [] then Parsed([], s) else
    if segs[0].size == 0 || |s| < segs[0].size then Short else
    var rest := TakePieces(s[segs[0].size..], segs[1..]);
    if rest.Short? then Short else Parsed([s[..segs[0].size]] + rest.value, rest.rest)
  }

  /** deserializar_dato_movIN, for the ranges that were asked for. */
  function DecodeReply(s: seq<Byte>, segs: seq<Segment>, w: nat): Parsed<(seq<seq<Byte>>, seq<Byte>)> {
    var n := TakeWord(s);
    if n.Short? || n.value > |segs| then Short else
    var parts := TakePieces(n.rest, segs[..n.value]);
    if parts.Short? || |parts.rest| < w then Short else
    Parsed((parts.value, parts.rest[..w]), parts.rest[w..])
  }

  /** The pieces come back, cut to their ranges. */
  lemma {:induction false} PiecesRoundTrip(parts: seq<seq<Byte>>, segs: seq<Segment>, rest: seq<Byte>)
    requires |parts| == |segs| && forall i | 0 <= i < |segs| :: 0 < segs[i].size <= |parts[i]|
    ensures var t := TakePieces(Pieces(parts, segs) + rest, segs);
            t.Parsed? && t.rest == rest && |t.value| == |parts| &&
            forall i | 0 <= i < |parts| :: t.value[i] == parts[i][..segs[i].size]
  {
    if segs == [] {
      assert Pieces(parts, segs) + rest == rest;
    } else {
      PiecesRoundTrip(parts[1..], segs[1..], rest);
      var head, tail := parts[0][..segs[0].size], Pieces(parts[1..], segs[1..]);
      ConcatAssoc(head, tail, rest);
      assert (head + (tail + rest))[..segs[0].size] == head;
      assert (head + (tail + rest))[segs[0].size..] == tail + rest;
    }
  }

  lemma ReplyRoundTrip(parts: seq<seq<Byte>>, segs: seq<Segment>, value: seq<Byte>)
    requires |parts| == |segs| < WORD && forall i | 0 <= i < |segs| :: 0 < segs[i].size <= |parts[i]|
    ensures var r := DecodeReply(EncodeReply(parts, segs, value), segs, |value|);
            r.Parsed? && r.rest == [] && r.value.1 == value && |r.value.0| == |parts| &&
            forall i | 0 <= i < |parts| :: r.value.0[i] == parts[i][..segs[i].size]
  {
    TakeWordOf(|parts|, Pieces(parts, segs) + value);
    PiecesRoundTrip(parts, segs, value);
    assert segs[..|parts|] == segs;
  }
}
