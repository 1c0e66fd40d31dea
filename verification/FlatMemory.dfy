/**
 The flat view of paged memory: the bytes of a process as one array, and what writing and
 reading through a segment list (memoria/src/utils_memoria.c) does to it.
 */
module FlatMemory {
  import opened Arith
  import opened Paging
  import opened TlbPolicy

  newtype Byte = b: int | 0 <= b < 256

  /** The frames of a table lie in a memory of `n` bytes. */
  ghost predicate Fits(pages: seq<nat>, tp: nat, n: nat) {
    forall i | 0 <= i < |pages| :: pages[i] * tp + tp <= n
  }

  /** The frames of a table one after another. */
  ghost function Flat(bytes: seq<Byte>, pages: seq<nat>, tp: nat): (r: seq<Byte>)
    requires Fits(pages, tp, |bytes|)
  {
    if pages == [] then [] else
      var f := pages[|pages| - 1];
      Flat(bytes, pages[..|pages| - 1], tp) + bytes[f * tp..f * tp + tp]
  }

  lemma {:induction false} FlatLength(bytes: seq<Byte>, pages: seq<nat>, tp: nat)
    requires Fits(pages, tp, |bytes|)
    ensures |Flat(bytes, pages, tp)| == |pages| * tp
  {
    if pages != [] {
      FlatLength(bytes, pages[..|pages| - 1], tp);
      MulDistributes(|pages|, 1, tp);
    }
  }

  /** Byte `a` of the flat array is the byte of memory at the image of `a`. */
  lemma {:induction false} FlatAt(bytes: seq<Byte>, pages: seq<nat>, tp: nat, a: nat)
    requires 0 < tp && Fits(pages, tp, |bytes|) && PageOf(tp, a) < |pages|
    ensures a < |Flat(bytes, pages, tp)|
    ensures Phys(pages, tp, a) < |bytes| && Flat(bytes, pages, tp)[a] == bytes[Phys(pages, tp, a)]
  {
    var init, f := pages[..|pages| - 1], pages[|pages| - 1];
    FlatLength(bytes, init, tp);
    PageIsQuotient(tp, a);
    if PageOf(tp, a) < |init| {
      FlatAt(bytes, init, tp, a);
    } else {
      assert bytes[f * tp..f * tp + tp][OffsetOf(tp, a)] == bytes[f * tp + OffsetOf(tp, a)];
    }
  }

  lemma FlatPages(bytes: seq<Byte>, pages: seq<nat>, tp: nat, a: nat)
    requires 0 < tp && Fits(pages, tp, |bytes|)
    ensures a < |Flat(bytes, pages, tp)| <==> PageOf(tp, a) < |pages|
  {
    FlatLength(bytes, pages, tp);
    InRangeIsWithinSize(pages, tp, a, 1);
    assert LastByte(a, 1) == a;
  }

  /** Different addresses of a process have different images. */
  lemma PhysInjective(pages: seq<nat>, tp: nat, a: nat, b: nat)
    requires 0 < tp && Distinct(pages) && PageOf(tp, a) < |pages| && PageOf(tp, b) < |pages|
    requires Phys(pages, tp, a) == Phys(pages, tp, b)
    ensures a == b
  {
    PhysOffset(pages, tp, a);
    PhysOffset(pages, tp, b);
    PageIsQuotient(tp, a);
    PageIsQuotient(tp, b);
  }

  predicate Below(addrs: seq<nat>, n: nat) {
    forall k | 0 <= k < |addrs| :: addrs[k] < n
  }

  /** Writing data[k] at addrs[k], in order. */
  function Scatter(bytes: seq<Byte>, addrs: seq<nat>, data: seq<Byte>): (r: seq<Byte>)
    requires |data| <= |addrs| && Below(addrs, |bytes|)
    ensures |r| == |bytes|
    decreases |data|
  {
    if data == [] then bytes else Scatter(bytes[addrs[0] := data[0]], addrs[1..], data[1..])
  }

  function Gather(bytes: seq<Byte>, addrs: seq<nat>): (r: seq<Byte>)
    requires Below(addrs, |bytes|)
    ensures |r| == |addrs|
    ensures forall k | 0 <= k < |addrs| :: r[k] == bytes[addrs[k]]
  {
    seq(|addrs|, k requires 0 <= k < |addrs| => bytes[addrs[k]])
  }

  lemma {:induction false} ScatterElsewhere(bytes: seq<Byte>, addrs: seq<nat>, data: seq<Byte>, x: nat)
    requires |data| <= |addrs| && Below(addrs, |bytes|)
    requires x < |bytes| && forall k | 0 <= k < |data| :: addrs[k] != x
    ensures Scatter(bytes, addrs, data)[x] == bytes[x]
    decreases |data|
  {
    if data != [] {
      ScatterElsewhere(bytes[addrs[0] := data[0]], addrs[1..], data[1..], x);
    }
  }

  lemma {:induction false} ScatterThere(bytes: seq<Byte>, addrs: seq<nat>, data: seq<Byte>, k: nat)
    requires |data| <= |addrs| && Below(addrs, |bytes|)
    requires k < |data| && forall i | k < i < |data| :: addrs[i] != addrs[k]
    ensures Scatter(bytes, addrs, data)[addrs[k]] == data[k]
    decreases |data|
  {
    var b := bytes[addrs[0] := data[0]];
    if k == 0 {
      ScatterElsewhere(b, addrs[1..], data[1..], addrs[0]);
    } else {
      ScatterThere(b, addrs[1..], data[1..], k - 1);
    }
  }

  /** What a cell that is written at most once, by datum `i`, holds afterwards. */
  lemma ScatterOnce(bytes: seq<Byte>, addrs: seq<nat>, data: seq<Byte>, x: nat, i: int)
    requires |data| <= |addrs| && x < |bytes| && Below(addrs, |bytes|)
    requires forall k | 0 <= k < |data| :: addrs[k] == x <==> k == i
    ensures Scatter(bytes, addrs, data)[x] == if 0 <= i < |data| then data[i] else bytes[x]
  {
    if 0 <= i < |data| {
      ScatterThere(bytes, addrs, data, i);
    } else {
      ScatterElsewhere(bytes, addrs, data, x);
    }
  }

  /** The images of a process's addresses lie in memory. */
  lemma ImagesFit(pages: seq<nat>, tp: nat, la: nat, n: nat, size: nat)
    requires 0 < tp && Fits(pages, tp, size) && InRange(pages, tp, la, n)
    ensures Below(Images(pages, tp, la, n), size)
  {
    forall k | 0 <= k < n
      ensures Images(pages, tp, la, n)[k] < size
    {
      assert la <= la + k <= LastByte(la, n);
    }
  }

  /** Zeroed memory. */
  function Zeros(n: nat): (z: seq<Byte>)
    ensures |z| == n && forall i | 0 <= i < n :: z[i] == 0
  {
    seq(n, i => 0)
  }

  /** The C string in a buffer: up to the first zero. */
  function CString(text: seq<Byte>): (r: seq<Byte>)
    ensures |r| <= |text| && r == text[..|r|] && 0 !in r
    ensures |r| == |text| || text[|r|] == 0
  {
    if text == [] || text[0] == 0 then [] else [text[0]] + CString(text[1..])
  }

  /** Replacing part of an array. */
  function Splice(s: seq<Byte>, at: nat, data: seq<Byte>): (r: seq<Byte>)
    requires at + |data| <= |s|
    ensures |r| == |s|
    ensures forall i | 0 <= i < |s| :: r[i] == if at <= i < at + |data| then data[i - at] else s[i]
  {
    s[..at] + data + s[at + |data|..]
  }

  lemma RangeWithinFlat(bytes: seq<Byte>, pages: seq<nat>, tp: nat, la: nat, n: nat)
    requires 0 < tp && Fits(pages, tp, |bytes|) && InRange(pages, tp, la, n)
    ensures la + n <= |Flat(bytes, pages, tp)|
  {
    FlatPages(bytes, pages, tp, LastByte(la, n));
  }

  /** A translated read returns exactly the range of the flat array. */
  lemma ReadIsSlice(bytes: seq<Byte>, pages: seq<nat>, tp: nat, la: nat, n: nat)
    requires 0 < tp && Fits(pages, tp, |bytes|) && InRange(pages, tp, la, n)
    ensures Below(Images(pages, tp, la, n), |bytes|)
    ensures la + n <= |Flat(bytes, pages, tp)|
    ensures Gather(bytes, Images(pages, tp, la, n)) == Flat(bytes, pages, tp)[la..la + n]
  {
    ImagesFit(pages, tp, la, n, |bytes|);
    RangeWithinFlat(bytes, pages, tp, la, n);
    forall k | 0 <= k < n
      ensures Gather(bytes, Images(pages, tp, la, n))[k] == Flat(bytes, pages, tp)[la..la + n][k]
    {
      FlatAt(bytes, pages, tp, la + k);
    }
  }

  /** Only address `a` of the range has the image of `a`. */
  lemma ImagesDistinct(pages: seq<nat>, tp: nat, la: nat, n: nat, a: nat)
    requires 0 < tp && Distinct(pages) && InRange(pages, tp, la, n) && PageOf(tp, a) < |pages|
    ensures forall k | 0 <= k < n :: Images(pages, tp, la, n)[k] == Phys(pages, tp, a) <==> k == a - la
  {
    forall k | 0 <= k < n
      ensures Images(pages, tp, la, n)[k] == Phys(pages, tp, a) <==> k == a - la
    {
      if Images(pages, tp, la, n)[k] == Phys(pages, tp, a) {
        PhysInjective(pages, tp, la + k, a);
      }
    }
  }

  /** Where a byte of this process ends up under a write to a range of it. */
  lemma WriteAt(bytes: seq<Byte>, pages: seq<nat>, tp: nat, la: nat, data: seq<Byte>, a: nat)
    requires 0 < tp && Fits(pages, tp, |bytes|) && Distinct(pages) && InRange(pages, tp, la, |data|)
    requires PageOf(tp, a) < |pages|
    ensures Below(Images(pages, tp, la, |data|), |bytes|)
    ensures Phys(pages, tp, a) < |bytes|
    ensures Scatter(bytes, Images(pages, tp, la, |data|), data)[Phys(pages, tp, a)] ==
            if la <= a < la + |data| then data[a - la] else bytes[Phys(pages, tp, a)]
  {
    ImagesFit(pages, tp, la, |data|, |bytes|);
    FlatAt(bytes, pages, tp, a);
    ImagesDistinct(pages, tp, la, |data|, a);
    ScatterOnce(bytes, Images(pages, tp, la, |data|), data, Phys(pages, tp, a), a - la);
  }

  /** A translated write changes exactly [la, la+n) of the process's flat array. */
  lemma WriteIsSplice(bytes: seq<Byte>, pages: seq<nat>, tp: nat, la: nat, data: seq<Byte>)
    requires 0 < tp && Fits(pages, tp, |bytes|) && Distinct(pages) && InRange(pages, tp, la, |data|)
    ensures Below(Images(pages, tp, la, |data|), |bytes|)
    ensures la + |data| <= |Flat(bytes, pages, tp)|
    ensures Flat(Scatter(bytes, Images(pages, tp, la, |data|), data), pages, tp) ==
            Splice(Flat(bytes, pages, tp), la, data)
  {
    ImagesFit(pages, tp, la, |data|, |bytes|);
    RangeWithinFlat(bytes, pages, tp, la, |data|);
    var bytes' := Scatter(bytes, Images(pages, tp, la, |data|), data);
    FlatLength(bytes, pages, tp);
    FlatLength(bytes', pages, tp);
    forall a | 0 <= a < |Flat(bytes, pages, tp)|
      ensures Flat(bytes', pages, tp)[a] == Splice(Flat(bytes, pages, tp), la, data)[a]
    {
      FlatPages(bytes, pages, tp, a);
      FlatAt(bytes, pages, tp, a);
      FlatAt(bytes', pages, tp, a);
      WriteAt(bytes, pages, tp, la, data, a);
    }
  }

  lemma PhysApart(pages: seq<nat>, other: seq<nat>, tp: nat, a: nat, b: nat)
    requires 0 < tp && PageOf(tp, a) < |pages| && PageOf(tp, b) < |other|
    requires pages[PageOf(tp, a)] != other[PageOf(tp, b)]
    ensures Phys(pages, tp, a) != Phys(other, tp, b)
  {
    PhysOffset(pages, tp, a);
    PhysOffset(other, tp, b);
  }

  lemma WriteElsewhereAt(bytes: seq<Byte>, pages: seq<nat>, tp: nat, la: nat, data: seq<Byte>, other: seq<nat>, a: nat)
    requires 0 < tp && InRange(pages, tp, la, |data|) && PageOf(tp, a) < |other|
    requires Below(Images(pages, tp, la, |data|), |bytes|) && Phys(other, tp, a) < |bytes|
    requires forall i | 0 <= i < |pages| :: pages[i] != other[PageOf(tp, a)]
    ensures Scatter(bytes, Images(pages, tp, la, |data|), data)[Phys(other, tp, a)] == bytes[Phys(other, tp, a)]
  {
    var addrs, x := Images(pages, tp, la, |data|), Phys(other, tp, a);
    forall k | 0 <= k < |data|
      ensures addrs[k] != x
    {
      assert la <= la + k <= LastByte(la, |data|);
      PhysApart(pages, other, tp, la + k, a);
    }
    ScatterElsewhere(bytes, addrs, data, x);
    assert Scatter(bytes, addrs, data)[x] == bytes[x];
  }

  /** ... and nothing of a process that shares no frame with it. */
  lemma WriteElsewhere(bytes: seq<Byte>, pages: seq<nat>, tp: nat, la: nat, data: seq<Byte>, other: seq<nat>)
    requires 0 < tp && Fits(pages, tp, |bytes|) && InRange(pages, tp, la, |data|)
    requires Fits(other, tp, |bytes|)
    requires forall i, j | 0 <= i < |pages| && 0 <= j < |other| :: pages[i] != other[j]
    ensures Below(Images(pages, tp, la, |data|), |bytes|)
    ensures Flat(Scatter(bytes, Images(pages, tp, la, |data|), data), other, tp) == Flat(bytes, other, tp)
  {
    ImagesFit(pages, tp, la, |data|, |bytes|);
    var bytes' := Scatter(bytes, Images(pages, tp, la, |data|), data);
    FlatLength(bytes, other, tp);
    FlatLength(bytes', other, tp);
    forall a | 0 <= a < |Flat(bytes, other, tp)|
      ensures Flat(bytes', other, tp)[a] == Flat(bytes, other, tp)[a]
    {
      FlatPages(bytes, other, tp, a);
      FlatAt(bytes, other, tp, a);
      FlatAt(bytes', other, tp, a);
      WriteElsewhereAt(bytes, pages, tp, la, data, other, a);
    }
  }

  /** Growth keeps the bytes a process has; they stay at the front of its flat array. */
  lemma {:induction false} FlatGrows(bytes: seq<Byte>, pages: seq<nat>, more: seq<nat>, tp: nat)
    requires Fits(more, tp, |bytes|) && pages <= more
    ensures Fits(pages, tp, |bytes|) && Flat(bytes, pages, tp) <= Flat(bytes, more, tp)
    decreases |more|
  {
    if |pages| < |more| {
      FlatGrows(bytes, pages, more[..|more| - 1], tp);
    } else {
      assert pages == more;
    }
  }
}
