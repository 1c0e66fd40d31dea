/** The DialFS bitmap: one bit per block, eight to a byte, lowest bit first (entradasalida/src/dialfs.c). */
module Bits {

  /** `1 << k` */
  function Mask(k: nat): bv8
    requires k < 8
  {
    if k == 0 then 0x01 else if k == 1 then 0x02 else if k == 2 then 0x04 else if k == 3 then 0x08 else
    if k == 4 then 0x10 else if k == 5 then 0x20 else if k == 6 then 0x40 else 0x80
  }

  function Test(b: bv8, k: nat): bool
    requires k < 8
  {
    b & Mask(k) != 0
  }

  lemma SetOne(b: bv8, k: nat, j: nat)
    requires k < 8 && j < 8
    ensures Test(b | Mask(k), j) == (j == k || Test(b, j))
  {
  }

  lemma ClearOne(b: bv8, k: nat, j: nat)
    requires k < 8 && j < 8
    ensures Test(b & !Mask(k), j) == (j != k && Test(b, j))
  {
  }

  /** The bits of a bitmap, block by block. */
  ghost function View(bytes: seq<bv8>): (v: seq<bool>)
    ensures |v| == 8 * |bytes|
    ensures forall i | 0 <= i < |v| :: v[i] == Test(bytes[i / 8], i % 8)
  {
    seq(8 * |bytes|, i requires 0 <= i < 8 * |bytes| => Test(bytes[i / 8], i % 8))
  }

  method GetBit(bitmap: array<bv8>, i: nat) returns (b: bool)
    requires i < 8 * bitmap.Length
    ensures b == View(bitmap[..])[i]
  {
    b := bitmap[i / 8] & Mask(i % 8) != 0;
  }

  /** Changing one bit of one byte changes one bit of the map. */
  lemma ViewUpdate(bytes: seq<bv8>, i: nat, byte: bv8, v: bool)
    requires i < 8 * |bytes|
    requires forall j | 0 <= j < 8 :: Test(byte, j) == if j == i % 8 then v else Test(bytes[i / 8], j)
    ensures View(bytes[i / 8 := byte]) == View(bytes)[i := v]
  {
  }

  method SetBit(bitmap: array<bv8>, i: nat)
    requires i < 8 * bitmap.Length
    modifies bitmap
    ensures View(bitmap[..]) == old(View(bitmap[..]))[i := true]
  {
    var byte := bitmap[i / 8] | Mask(i % 8);
    forall j | 0 <= j < 8
      ensures Test(byte, j) == if j == i % 8 then true else Test(bitmap[i / 8], j)
    {
      SetOne(bitmap[i / 8], i % 8, j);
    }
    ViewUpdate(bitmap[..], i, byte, true);
    bitmap[i / 8] := byte;
  }

  method ClearBit(bitmap: array<bv8>, i: nat)
    requires i < 8 * bitmap.Length
    modifies bitmap
    ensures View(bitmap[..]) == old(View(bitmap[..]))[i := false]
  {
    var byte := bitmap[i / 8] & !Mask(i % 8);
    forall j | 0 <= j < 8
      ensures Test(byte, j) == if j == i % 8 then false else Test(bitmap[i / 8], j)
    {
      ClearOne(bitmap[i / 8], i % 8, j);
    }
    ViewUpdate(bitmap[..], i, byte, false);
    bitmap[i / 8] := byte;
  }

  /** `bits` with [lo, lo+n) set to `v`, as far as it reaches. */
  ghost function Filled(bits: seq<bool>, lo: nat, n: nat, v: bool): (r: seq<bool>)
    ensures |r| == |bits|
    ensures forall i | 0 <= i < |bits| :: r[i] == if lo <= i < lo + n then v else bits[i]
  {
    seq(|bits|, i requires 0 <= i < |bits| => if lo <= i < lo + n then v else bits[i])
  }

  /** The marking loops; an index past the bitmap does not land in it. */
  method SetRange(bitmap: array<bv8>, lo: nat, n: nat)
    modifies bitmap
    ensures View(bitmap[..]) == Filled(old(View(bitmap[..])), lo, n, true)
  {
    for i := 0 to n
      invariant View(bitmap[..]) == Filled(old(View(bitmap[..])), lo, i, true)
    {
      if lo + i < 8 * bitmap.Length {
        SetBit(bitmap, lo + i);
      }
    }
  }

  method ClearRange(bitmap: array<bv8>, lo: nat, n: nat)
    modifies bitmap
    ensures View(bitmap[..]) == Filled(old(View(bitmap[..])), lo, n, false)
  {
    for i := 0 to n
      invariant View(bitmap[..]) == Filled(old(View(bitmap[..])), lo, i, false)
    {
      if lo + i < 8 * bitmap.Length {
        ClearBit(bitmap, lo + i);
      }
    }
  }

  ghost function CountClear(bits: seq<bool>): nat {
    if bits == [] then 0 else CountClear(bits[..|bits| - 1]) + (if bits[|bits| - 1] then 0 else 1)
  }

  lemma CountClearStep(bits: seq<bool>, i: nat)
    requires i < |bits|
    ensures CountClear(bits[..i + 1]) == CountClear(bits[..i]) + (if bits[i] then 0 else 1)
  {
    assert bits[..i + 1][..i] == bits[..i];
  }

  /** contar_bloques_libres */
  method CountFree(bitmap: array<bv8>) returns (count: nat)
    ensures count == CountClear(View(bitmap[..]))
  {
    ghost var v := View(bitmap[..]);
    count := 0;
    for i := 0 to 8 * bitmap.Length
      invariant count == CountClear(v[..i])
    {
      CountClearStep(v, i);
      var b := GetBit(bitmap, i);
      if !b {
        count := count + 1;
      }
    }
    assert v[..|v|] == v;
  }

  /** `n` blocks from `s` on, all there and all free. */
  ghost predicate FreeRun(bits: seq<bool>, s: nat, n: nat) {
    s + n <= |bits| && forall b | s <= b < s + n :: !bits[b]
  }

  /** `r` is the leftmost such run, or the number of blocks when there is none. */
  ghost predicate IsFirstRun(bits: seq<bool>, n: nat, r: nat) {
    && (r < |bits| ==> FreeRun(bits, r, n))
    && r <= |bits|
    && forall s | 0 <= s < r :: !FreeRun(bits, s, n)
  }

  /** The leftmost run at or after `s`. */
  ghost function FirstFrom(bits: seq<bool>, n: nat, s: nat): (r: nat)
    requires s <= |bits|
    ensures s <= r <= |bits| && (r < |bits| ==> FreeRun(bits, r, n))
    ensures forall t | s <= t < r :: !FreeRun(bits, t, n)
    decreases |bits| - s
  {
    if s == |bits| || FreeRun(bits, s, n) then s else FirstFrom(bits, n, s + 1)
  }

  ghost function FirstRun(bits: seq<bool>, n: nat): (r: nat)
    ensures IsFirstRun(bits, n, r)
  {
    FirstFrom(bits, n, 0)
  }

  lemma FirstRunUnique(bits: seq<bool>, n: nat, r: nat, s: nat)
    requires IsFirstRun(bits, n, r) && IsFirstRun(bits, n, s)
    ensures r == s
  {
  }

  /** Free blocks in a row just before block `i`. */
  ghost function RunLength(bits: seq<bool>, i: nat): (c: nat)
    requires i <= |bits|
    ensures c <= i
  {
    if i == 0 || bits[i - 1] then 0 else 1 + RunLength(bits, i - 1)
  }

  /** The scan has seen no `n` free blocks in a row before block `i`. */
  ghost predicate Unmet(bits: seq<bool>, n: nat, i: nat)
    requires i <= |bits|
  {
    i == 0 || (Unmet(bits, n, i - 1) && RunLength(bits, i) < n)
  }

  lemma {:induction false} RunLengthIsFree(bits: seq<bool>, i: nat)
    requires i <= |bits|
    ensures FreeRun(bits, i - RunLength(bits, i), RunLength(bits, i))
  {
    if i > 0 && !bits[i - 1] {
      RunLengthIsFree(bits, i - 1);
    }
  }

  lemma {:induction false} FreeIsRunLength(bits: seq<bool>, s: nat, n: nat)
    requires FreeRun(bits, s, n)
    ensures RunLength(bits, s + n) >= n
  {
    if n > 0 {
      FreeIsRunLength(bits, s, n - 1);
    }
  }

  lemma {:induction false} UnmetMeans(bits: seq<bool>, n: nat, i: nat, s: nat)
    requires i <= |bits| && Unmet(bits, n, i) && 0 < n && s + n <= i
    ensures !FreeRun(bits, s, n)
  {
    if s + n < i {
      UnmetMeans(bits, n, i - 1, s);
    } else if FreeRun(bits, s, n) {
      FreeIsRunLength(bits, s, n);
    }
  }

  /** Stopping at the first full run, or at the end, answers right. */
  lemma ScanAnswers(bits: seq<bool>, n: nat, i: nat, r: nat)
    requires 0 < n && i <= |bits| && Unmet(bits, n, i)
    requires if i == |bits| then r == i else RunLength(bits, i + 1) == n && r == i + 1 - n
    ensures IsFirstRun(bits, n, r)
  {
    if i < |bits| {
      RunLengthIsFree(bits, i + 1);
    }
    forall s | 0 <= s < r
      ensures !FreeRun(bits, s, n)
    {
      if s + n <= i {
        UnmetMeans(bits, n, i, s);
      }
    }
  }

  /** The counting scan: a run is complete when `n` free blocks have been seen in a row. */
  method FindRun(bitmap: array<bv8>, n: nat) returns (r: nat)
    requires 0 < n
    ensures IsFirstRun(View(bitmap[..]), n, r)
  {
    ghost var v := View(bitmap[..]);
    var count := 0;
    var i := 0;
    while i < 8 * bitmap.Length
      invariant 0 <= i <= |v| && Unmet(v, n, i) && count == RunLength(v, i) < n
    {
      var b := GetBit(bitmap, i);
      if !b {
        count := count + 1;
        if count == n {
          ScanAnswers(v, n, i, i - n + 1);
          return i - n + 1;
        }
      } else {
        count := 0;
      }
      i := i + 1;
    }
    ScanAnswers(v, n, i, i);
    return 8 * bitmap.Length;
  }

  /** encontrar_bloque_libre */
  method FindOne(bitmap: array<bv8>) returns (r: nat)
    ensures IsFirstRun(View(bitmap[..]), 1, r)
  {
    ghost var v := View(bitmap[..]);
    r := 0;
    while r < 8 * bitmap.Length
      invariant r <= |v| && forall s | 0 <= s < r :: !FreeRun(v, s, 1)
    {
      var b := GetBit(bitmap, r);
      if !b {
        return;
      }
      assert !FreeRun(v, r, 1);
      r := r + 1;
    }
  }
}
