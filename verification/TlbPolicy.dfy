/**
 What the two TLB replacement policies of cpu/src/tlb.c mean: both are folded over the history
 of looked-up (pid, page) keys, independently of the array that implements them.
 */
module TlbPolicy {
  import opened Arith

  datatype Key = Key(pid: nat, page: nat)

  ghost predicate Distinct<T>(q: seq<T>) {
    forall i, j | 0 <= i < j < |q| :: q[i] != q[j]
  }

  function Suffix<T>(q: seq<T>, cap: nat): seq<T> {
    if |q| <= cap then q else q[|q| - cap..]
  }

  function Without(q: seq<Key>, k: Key): seq<Key> {
    if q == [] then [] else
      Without(q[..|q| - 1], k) + (if q[|q| - 1] == k then [] else [q[|q| - 1]])
  }

  /** One lookup under LRU; the queue runs from the least to the most recently used key. */
  function LruStep(q: seq<Key>, k: Key, cap: nat): seq<Key> {
    Suffix(Without(q, k) + [k], cap)
  }

  /** One lookup under FIFO; a hit changes nothing. */
  function FifoStep(q: seq<Key>, k: Key, cap: nat): seq<Key> {
    if k in q then q else Suffix(q + [k], cap)
  }

  function LruRun(h: seq<Key>, cap: nat): seq<Key> {
    if h == [] then [] else LruStep(LruRun(h[..|h| - 1], cap), h[|h| - 1], cap)
  }

  function FifoRun(h: seq<Key>, cap: nat): seq<Key> {
    if h == [] then [] else FifoStep(FifoRun(h[..|h| - 1], cap), h[|h| - 1], cap)
  }

  /** The lookups of `h` that missed, in order. */
  function LruMisses(h: seq<Key>, cap: nat): seq<Key> {
    if h == [] then [] else
      LruMisses(h[..|h| - 1], cap) +
      (if h[|h| - 1] in LruRun(h[..|h| - 1], cap) then [] else [h[|h| - 1]])
  }

  function FifoMisses(h: seq<Key>, cap: nat): seq<Key> {
    if h == [] then [] else
      FifoMisses(h[..|h| - 1], cap) +
      (if h[|h| - 1] in FifoRun(h[..|h| - 1], cap) then [] else [h[|h| - 1]])
  }

  /** All keys ever used, the most recently used last. */
  function Recency(h: seq<Key>): seq<Key> {
    if h == [] then [] else Without(Recency(h[..|h| - 1]), h[|h| - 1]) + [h[|h| - 1]]
  }

  /** The other keys used after the last use of `k`. */
  function UsedSince(h: seq<Key>, k: Key): set<Key> {
    if h == [] || h[|h| - 1] == k then {} else UsedSince(h[..|h| - 1], k) + {h[|h| - 1]}
  }

  /** One more than the position of the last use of `k`; 0 if it was never used. */
  function LastUse(h: seq<Key>, k: Key): (t: nat)
    ensures t <= |h|
    ensures k in h ==> 0 < t
  {
    if h == [] then 0 else if h[|h| - 1] == k then |h| else LastUse(h[..|h| - 1], k)
  }

  lemma {:induction false} WithoutConcat(a: seq<Key>, b: seq<Key>, k: Key)
    ensures Without(a + b, k) == Without(a, k) + Without(b, k)
  {
    if b == [] {
      assert a + b == a;
    } else {
      WithoutConcat(a, b[..|b| - 1], k);
      assert (a + b)[..|a + b| - 1] == a + b[..|b| - 1];
    }
  }

  lemma {:induction false} WithoutAbsent(q: seq<Key>, k: Key)
    requires k !in q
    ensures Without(q, k) == q
  {
    if q != [] {
      WithoutAbsent(q[..|q| - 1], k);
    }
  }

  lemma {:induction false} WithoutMembers(q: seq<Key>, k: Key)
    ensures forall x :: x in Without(q, k) <==> x in q && x != k
  {
    if q != [] {
      WithoutMembers(q[..|q| - 1], k);
      assert q == q[..|q| - 1] + [q[|q| - 1]];
    }
  }

  lemma {:induction false} WithoutMiddle(a: seq<Key>, k: Key, b: seq<Key>)
    requires k !in a && k !in b
    ensures Without(a + [k] + b, k) == a + b
  {
    var q := a + [k] + b;
    if b == [] {
      assert q[..|q| - 1] == a;
      WithoutAbsent(a, k);
    } else {
      assert q[..|q| - 1] == a + [k] + b[..|b| - 1];
      WithoutMiddle(a, k, b[..|b| - 1]);
    }
  }

  /** Removing the one occurrence of `q[i]`. */
  lemma WithoutAt(q: seq<Key>, i: nat)
    requires Distinct(q) && i < |q|
    ensures Without(q, q[i]) == q[..i] + q[i + 1..]
  {
    assert q == q[..i] + [q[i]] + q[i + 1..];
    WithoutMiddle(q[..i], q[i], q[i + 1..]);
  }

  lemma WithoutDistinct(q: seq<Key>, k: Key)
    requires Distinct(q)
    ensures Distinct(Without(q, k) + [k])
  {
    WithoutMembers(q, k);
    if k in q {
      var i :| 0 <= i < |q| && q[i] == k;
      WithoutAt(q, i);
    } else {
      WithoutAbsent(q, k);
    }
  }

  lemma {:induction false} RecencyMembers(h: seq<Key>)
    ensures Distinct(Recency(h))
    ensures forall x :: x in Recency(h) <==> x in h
  {
    if h != [] {
      var r := Recency(h[..|h| - 1]);
      RecencyMembers(h[..|h| - 1]);
      assert h == h[..|h| - 1] + [h[|h| - 1]];
      WithoutMembers(r, h[|h| - 1]);
      WithoutDistinct(r, h[|h| - 1]);
    }
  }

  lemma SuffixOfConcat<T>(a: seq<T>, b: seq<T>, cap: nat)
    requires cap <= |b|
    ensures Suffix(a + b, cap) == Suffix(b, cap)
  {
    assert (a + b)[|a + b| - cap..] == b[|b| - cap..];
  }

  /** The last keys decide the step, wherever the looked-up key was. */
  lemma LruStepOfTail(a: seq<Key>, q: seq<Key>, k: Key)
    requires Distinct(q) && (k in q ==> k !in a)
    ensures LruStep(q, k, |q|) == Suffix(Without(a + q, k) + [k], |q|)
  {
    WithoutConcat(a, q, k);
    var a', t := Without(a, k), Without(q, k) + [k];
    if k in q {
      var i :| 0 <= i < |q| && q[i] == k;
      WithoutAt(q, i);
    } else {
      WithoutAbsent(q, k);
    }
    assert |q| <= |t|;
    assert Without(a + q, k) + [k] == a' + t;
    SuffixOfConcat(a', t, |q|);
  }

  /** A truncated recency list steps like the full one. */
  lemma LruStepOfSuffix(r: seq<Key>, k: Key, cap: nat)
    requires Distinct(r)
    ensures LruStep(Suffix(r, cap), k, cap) == Suffix(Without(r, k) + [k], cap)
  {
    if |r| > cap {
      var a, q := r[..|r| - cap], r[|r| - cap..];
      assert r == a + q;
      LruStepOfTail(a, q, k);
    }
  }

  /** The LRU queue holds the `cap` most recently used keys, in order of use. */
  lemma {:induction false} LruHoldsMostRecent(h: seq<Key>, cap: nat)
    ensures LruRun(h, cap) == Suffix(Recency(h), cap)
  {
    if h != [] {
      LruHoldsMostRecent(h[..|h| - 1], cap);
      RecencyMembers(h[..|h| - 1]);
      LruStepOfSuffix(Recency(h[..|h| - 1]), h[|h| - 1], cap);
    }
  }

  lemma WithoutSplit(q: seq<Key>, j: nat, l: Key)
    requires j < |q| && q[j] != l
    ensures Without(q, l) == Without(q[..j], l) + [q[j]] + Without(q[j + 1..], l)
  {
    assert q == (q[..j] + [q[j]]) + q[j + 1..];
    WithoutConcat(q[..j] + [q[j]], q[j + 1..], l);
    WithoutConcat(q[..j], [q[j]], l);
    WithoutAbsent([q[j]], l);
  }

  lemma SplitAt<T>(a: seq<T>, k: T, b: seq<T>, i: nat)
    requires Distinct(a + [k] + b) && i < |a + [k] + b| && (a + [k] + b)[i] == k
    ensures (a + [k] + b)[i + 1..] == b
  {
    assert (a + [k] + b)[|a|] == k;
    assert i == |a|;
  }

  /** What follows `k` in the recency list is exactly what was used since. */
  lemma {:induction false} AfterIsUsedSince(h: seq<Key>, i: nat)
    requires i < |Recency(h)|
    ensures forall x :: x in Recency(h)[i + 1..] <==> x in UsedSince(h, Recency(h)[i])
  {
    var l, r := h[|h| - 1], Recency(h[..|h| - 1]);
    var k := Recency(h)[i];
    RecencyMembers(h);
    if k == l {
      SplitAt(Without(r, l), l, [], i);
    } else {
      WithoutMembers(r, l);
      assert k in Without(r, l);
      var j :| 0 <= j < |r| && r[j] == k;
      AfterIsUsedSince(h[..|h| - 1], j);
      WithoutSplit(r, j, l);
      WithoutMembers(r[j + 1..], l);
      var a, b := Without(r[..j], l), Without(r[j + 1..], l) + [l];
      assert Recency(h) == a + [k] + b;
      SplitAt(a, k, b, i);
    }
  }

  lemma {:induction false} DistinctCardinality<T>(q: seq<T>, s: set<T>)
    requires Distinct(q) && forall x :: x in q <==> x in s
    ensures |q| == |s|
  {
    if q == [] {
      assert s == {};
    } else {
      var l, q' := q[|q| - 1], q[..|q| - 1];
      assert q == q' + [l];
      DistinctCardinality(q', s - {l});
    }
  }

  /** A key is held exactly when fewer than `cap` other keys were used since its last use. */
  lemma LruMembership(h: seq<Key>, cap: nat, k: Key)
    ensures k in LruRun(h, cap) <==> k in h && |UsedSince(h, k)| < cap
  {
    LruHoldsMostRecent(h, cap);
    RecencyMembers(h);
    var r := Recency(h);
    if k in h {
      var i :| 0 <= i < |r| && r[i] == k;
      AfterIsUsedSince(h, i);
      DistinctCardinality(r[i + 1..], UsedSince(h, k));
      SuffixMembership(r, cap, i);
    }
  }

  lemma SuffixMembership<T>(q: seq<T>, cap: nat, i: nat)
    requires Distinct(q) && i < |q|
    ensures q[i] in Suffix(q, cap) <==> |q| - i <= cap
  {
    if |q| > cap {
      assert forall j | |q| - cap <= j < |q| :: q[j] == Suffix(q, cap)[j - (|q| - cap)];
      assert forall j | 0 <= j < cap :: Suffix(q, cap)[j] == q[j + |q| - cap];
    }
  }

  /** A larger LRU TLB holds everything a smaller one does. */
  lemma LruInclusion(h: seq<Key>, small: nat, large: nat)
    requires small <= large
    ensures forall k :: k in LruRun(h, small) ==> k in LruRun(h, large)
  {
    forall k | k in LruRun(h, small)
      ensures k in LruRun(h, large)
    {
      LruMembership(h, small, k);
      LruMembership(h, large, k);
    }
  }

  /** Hence it never misses more. */
  lemma {:induction false} LruMissesShrink(h: seq<Key>, small: nat, large: nat)
    requires small <= large
    ensures |LruMisses(h, large)| <= |LruMisses(h, small)|
  {
    if h != [] {
      LruMissesShrink(h[..|h| - 1], small, large);
      LruInclusion(h[..|h| - 1], small, large);
    }
  }

  lemma SuffixAppend<T>(q: seq<T>, x: T, cap: nat)
    ensures Suffix(Suffix(q, cap) + [x], cap) == Suffix(q + [x], cap)
  {
  }

  /** The FIFO queue is exactly the last `cap` missed keys, in the order they missed. */
  lemma {:induction false} FifoHoldsLastMisses(h: seq<Key>, cap: nat)
    ensures FifoRun(h, cap) == Suffix(FifoMisses(h, cap), cap)
  {
    if h != [] {
      var m, k := FifoMisses(h[..|h| - 1], cap), h[|h| - 1];
      FifoHoldsLastMisses(h[..|h| - 1], cap);
      assert m + [] == m;
      SuffixAppend(m, k, cap);
    }
  }

  /** `p` is where the key was, past the end if nowhere. */
  lemma WithoutShape(r: seq<Key>, l: Key) returns (p: nat)
    requires Distinct(r)
    ensures p <= |r| && Without(r, l) == r[..p] + r[Min(p + 1, |r|)..]
  {
    if l in r {
      p :| 0 <= p < |r| && r[p] == l;
      WithoutAt(r, p);
    } else {
      p := |r|;
      WithoutAbsent(r, l);
      assert r == r[..|r|] + r[|r|..];
    }
  }

  /** The recency list is sorted by last use. */
  lemma {:induction false} RecencySorted(h: seq<Key>, i: nat, j: nat)
    requires i < j < |Recency(h)|
    ensures LastUse(h, Recency(h)[i]) < LastUse(h, Recency(h)[j])
  {
    var r, l := Recency(h[..|h| - 1]), h[|h| - 1];
    RecencyMembers(h[..|h| - 1]);
    var p := WithoutShape(r, l);
    RecencyMembers(h);
    assert Recency(h)[|Recency(h)| - 1] == l;
    if j < |Recency(h)| - 1 {
      var i', j' := if i < p then i else i + 1, if j < p then j else j + 1;
      RecencySorted(h[..|h| - 1], i', j');
      assert Recency(h)[i] == r[i'] && Recency(h)[j] == r[j'];
    }
  }

  lemma LruRunSorted(h: seq<Key>, cap: nat, i: nat, j: nat)
    requires i < j < |LruRun(h, cap)|
    ensures LastUse(h, LruRun(h, cap)[i]) < LastUse(h, LruRun(h, cap)[j])
  {
    LruHoldsMostRecent(h, cap);
    var d := |Recency(h)| - |LruRun(h, cap)|;
    RecencySorted(h, i + d, j + d);
  }

  lemma LruRunDistinct(h: seq<Key>, cap: nat)
    ensures Distinct(LruRun(h, cap)) && |LruRun(h, cap)| <= cap
  {
    LruHoldsMostRecent(h, cap);
    RecencyMembers(h);
  }

  /** A hit keeps the keys held. */
  lemma LruStepHit(q: seq<Key>, i: nat, cap: nat)
    requires Distinct(q) && i < |q| <= cap
    ensures |LruStep(q, q[i], cap)| == |q|
    ensures forall x :: x in LruStep(q, q[i], cap) <==> x in q
  {
    WithoutMembers(q, q[i]);
    WithoutAt(q, i);
  }

  /** A miss adds the key; if the queue is full, its oldest key goes. */
  lemma LruStepMiss(q: seq<Key>, k: Key, cap: nat)
    requires k !in q && |q| <= cap
    ensures |q| < cap ==> LruStep(q, k, cap) == q + [k]
    ensures |q| == cap > 0 ==> LruStep(q, k, cap) == q[1..] + [k]
  {
    WithoutAbsent(q, k);
    SuffixOfAppend(q, k, cap);
  }

  lemma SuffixOfAppend<T>(q: seq<T>, k: T, cap: nat)
    requires |q| <= cap
    ensures |q| < cap ==> Suffix(q + [k], cap) == q + [k]
    ensures |q| == cap > 0 ==> Suffix(q + [k], cap) == q[1..] + [k]
  {
  }
}
