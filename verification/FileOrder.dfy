/**
 The order in which DialFS compaction takes the files (entradasalida/src/dialfs.c:388-417): sorted
 by first block, with the truncated one last; and that reordering the list changes nothing else.
 */
module FileOrder {
  import opened Arith
  import opened FileSystem

  /** `tamanio_total_archivos` */
  function TotalBytes(files: seq<File>): nat {
    if files == [] then 0 else TotalBytes(files[..|files| - 1]) + files[|files| - 1].size
  }

  /** Blocks that the packed files take; an empty file takes none. */
  function Used(files: seq<File>, bs: nat): nat
    requires 0 < bs
  {
    if files == [] then 0 else Used(files[..|files| - 1], bs) + CeilDiv(files[|files| - 1].size, bs)
  }

  lemma {:induction false} SumsConcat(a: seq<File>, b: seq<File>, bs: nat)
    requires 0 < bs
    ensures TotalBytes(a + b) == TotalBytes(a) + TotalBytes(b)
    ensures Used(a + b, bs) == Used(a, bs) + Used(b, bs)
  {
    if b == [] {
      assert a + b == a;
    } else {
      var init := b[..|b| - 1];
      SumsConcat(a, init, bs);
      assert (a + b)[..|a + b| - 1] == a + init;
    }
  }

  predicate SortedByStart(files: seq<File>) {
    forall i, j | 0 <= i < j < |files| :: files[i].start <= files[j].start
  }

  /** The same files, in another order. */
  ghost predicate SameFiles(a: seq<File>, b: seq<File>, bs: nat)
    requires 0 < bs
  {
    multiset(a) == multiset(b) && TotalBytes(a) == TotalBytes(b) && Used(a, bs) == Used(b, bs)
  }

  /** Moving one element within a list. */
  lemma Shifted(x: seq<File>, f: File, y: seq<File>, bs: nat)
    requires 0 < bs
    ensures SameFiles(x + [f] + y, x + y + [f], bs)
  {
    SumsConcat(x + [f], y, bs);
    SumsConcat(x, [f], bs);
    SumsConcat(x + y, [f], bs);
    SumsConcat(x, y, bs);
  }

  lemma SameAppend(a: seq<File>, b: seq<File>, f: File, bs: nat)
    requires 0 < bs && SameFiles(a, b, bs)
    ensures SameFiles(a + [f], b + [f], bs)
  {
    SumsConcat(a, [f], bs);
    SumsConcat(b, [f], bs);
  }

  function Insert(files: seq<File>, f: File): (r: seq<File>)
    requires SortedByStart(files)
    ensures SortedByStart(r) && |r| == |files| + 1
    ensures r[|r| - 1] == f || (files != [] && r[|r| - 1] == files[|files| - 1])
  {
    if files == [] || files[|files| - 1].start <= f.start then files + [f]
    else Insert(files[..|files| - 1], f) + [files[|files| - 1]]
  }

  lemma {:induction false} InsertSame(files: seq<File>, f: File, bs: nat)
    requires 0 < bs && SortedByStart(files)
    ensures SameFiles(Insert(files, f), files + [f], bs)
  {
    if !(files == [] || files[|files| - 1].start <= f.start) {
      var init, last := files[..|files| - 1], files[|files| - 1];
      InsertSame(init, f, bs);
      assert files == init + [last];
      Shifted(init, last, [f], bs);
      SameAppend(Insert(init, f), init + [f], last, bs);
    }
  }

  /** list_sort by first block. */
  function Sorted(files: seq<File>): (r: seq<File>)
    ensures SortedByStart(r) && |r| == |files|
  {
    if files == [] then [] else Insert(Sorted(files[..|files| - 1]), files[|files| - 1])
  }

  lemma {:induction false} SortedSame(files: seq<File>, bs: nat)
    requires 0 < bs
    ensures SameFiles(Sorted(files), files, bs)
  {
    if files != [] {
      var init, last := files[..|files| - 1], files[|files| - 1];
      SortedSame(init, bs);
      InsertSame(Sorted(init), last, bs);
      SameAppend(Sorted(init), init, last, bs);
      assert files == init + [last];
    }
  }

  /** list_remove and list_add: element `i` goes to the end. */
  function PutLast(s: seq<File>, i: nat): (r: seq<File>)
    requires i < |s|
    ensures |r| == |s| && r[|r| - 1] == s[i] && r[..|r| - 1] == s[..i] + s[i + 1..]
  {
    s[..i] + s[i + 1..] + [s[i]]
  }

  lemma PutLastSame(s: seq<File>, i: nat, bs: nat)
    requires 0 < bs && i < |s|
    ensures SameFiles(PutLast(s, i), s, bs)
  {
    assert s == s[..i] + [s[i]] + s[i + 1..];
    Shifted(s[..i], s[i], s[i + 1..], bs);
  }

  lemma RestSorted(s: seq<File>, i: nat)
    requires i < |s| && SortedByStart(s)
    ensures SortedByStart(s[..i] + s[i + 1..])
  {
  }

  /** ordenar_lista_archivos_por_bloque_inicial: sorted, with the named file taken out and put last. */
  function Arranged(files: seq<File>, name: string): (r: seq<File>)
    ensures |r| == |files|
  {
    var s := Sorted(files);
    var i := Find(s, name);
    if i == |s| then s else PutLast(s, i)
  }

  lemma ArrangedSame(files: seq<File>, name: string, bs: nat)
    requires 0 < bs
    ensures SameFiles(Arranged(files, name), files, bs)
  {
    var s := Sorted(files);
    SortedSame(files, bs);
    if Find(s, name) < |s| {
      PutLastSame(s, Find(s, name), bs);
    }
  }

  lemma InSame(a: seq<File>, b: seq<File>, f: File)
    requires multiset(a) == multiset(b)
    ensures f in a <==> f in b
  {
    assert f in multiset(a) <==> f in a;
    assert f in multiset(b) <==> f in b;
  }

  /** The named file ends up last, the others sorted before it. */
  lemma ArrangedLast(files: seq<File>, i: nat, bs: nat)
    requires 0 < bs && i < |files|
    ensures var r := Arranged(files, files[i].name);
            r[|r| - 1].name == files[i].name && SortedByStart(r[..|r| - 1])
  {
    var s := Sorted(files);
    SortedSame(files, bs);
    InSame(files, s, files[i]);
    var j := Find(s, files[i].name);
    assert j < |s| && s[j].name == files[i].name;
    RestSorted(s, j);
    assert Arranged(files, files[i].name) == PutLast(s, j);
  }

  // A permuted list describes the same disk

  lemma CountTwice(s: seq<File>, i: nat, j: nat)
    requires i < j < |s| && s[i] == s[j]
    ensures multiset(s)[s[i]] >= 2
  {
    assert s == s[..j] + s[j..];
    assert s[i] in s[..j] && s[j] in s[j..];
  }

  lemma {:induction false} TwiceAt(s: seq<File>, f: File)
    requires multiset(s)[f] >= 2
    ensures exists i, j :: 0 <= i < j < |s| && s[i] == f && s[j] == f
  {
    var init := s[..|s| - 1];
    assert s == init + [s[|s| - 1]];
    if s[|s| - 1] == f {
      assert f in multiset(init);
      var i :| 0 <= i < |init| && init[i] == f;
      assert s[i] == f && s[|s| - 1] == f;
    } else {
      TwiceAt(init, f);
      var i, j :| 0 <= i < j < |init| && init[i] == f && init[j] == f;
      assert s[i] == f && s[j] == f;
    }
  }

  /** A symmetric relation between all pairs of one list holds between all pairs of the other. */
  lemma PairsSame(a: seq<File>, b: seq<File>, i: nat, j: nat)
    requires multiset(a) == multiset(b) && i < j < |b|
    ensures exists p, q :: 0 <= p < |a| && 0 <= q < |a| && p != q && a[p] == b[i] && a[q] == b[j]
  {
    InSame(a, b, b[i]);
    InSame(a, b, b[j]);
    if b[i] == b[j] {
      CountTwice(b, i, j);
      TwiceAt(a, b[i]);
      var p, q :| 0 <= p < q < |a| && a[p] == b[i] && a[q] == b[i];
      assert a[p] == b[i] && a[q] == b[j];
    } else {
      var p :| 0 <= p < |a| && a[p] == b[i];
      var q :| 0 <= q < |a| && a[q] == b[j];
      assert a[p] == b[i] && a[q] == b[j];
    }
  }

  lemma ExtentsSame(a: seq<File>, b: seq<File>, count: nat, bs: nat)
    requires 0 < bs && multiset(a) == multiset(b) && ExtentsOk(a, count, bs)
    ensures ExtentsOk(b, count, bs)
  {
    forall i | 0 <= i < |b|
      ensures b[i].start + Blocks(b[i].size, bs) <= count
    {
      InSame(a, b, b[i]);
    }
    forall i, j | 0 <= i < j < |b|
      ensures Apart(b[i], b[j], bs)
    {
      PairsSame(a, b, i, j);
      var p, q :| 0 <= p < |a| && 0 <= q < |a| && p != q && a[p] == b[i] && a[q] == b[j];
      assert if p < q then Apart(a[p], a[q], bs) else Apart(a[q], a[p], bs);
    }
  }

  lemma TakenSame(a: seq<File>, b: seq<File>, x: nat, bs: nat)
    requires 0 < bs && multiset(a) == multiset(b) && Taken(a, x, bs)
    ensures Taken(b, x, bs)
  {
    var i :| 0 <= i < |a| && Has(a[i], x, bs);
    InSame(a, b, a[i]);
    var j :| 0 <= j < |b| && b[j] == a[i];
    assert Has(b[j], x, bs);
  }

  lemma BitsSame(a: seq<File>, b: seq<File>, bits: seq<bool>, bs: nat)
    requires 0 < bs && multiset(a) == multiset(b) && BitsOk(bits, a, bs)
    ensures BitsOk(bits, b, bs)
  {
    forall x | 0 <= x < |bits|
      ensures bits[x] <==> Taken(b, x, bs)
    {
      if Taken(a, x, bs) { TakenSame(a, b, x, bs); }
      if Taken(b, x, bs) { TakenSame(b, a, x, bs); }
    }
  }

  lemma NamesSame(a: seq<File>, b: seq<File>, metadata: map<string, Metadata>)
    requires multiset(a) == multiset(b) && MetadataOk(a, metadata)
    ensures MetadataOk(b, metadata)
  {
    forall i, j | 0 <= i < j < |b|
      ensures b[i].name != b[j].name
    {
      PairsSame(a, b, i, j);
      var p, q :| 0 <= p < |a| && 0 <= q < |a| && p != q && a[p] == b[i] && a[q] == b[j];
      assert if p < q then a[p].name != a[q].name else a[q].name != a[p].name;
    }
    forall i | 0 <= i < |b|
      ensures b[i].name in metadata && metadata[b[i].name] == Metadata(b[i].start, b[i].size)
    {
      InSame(a, b, b[i]);
    }
    forall name | name in metadata
      ensures exists i :: 0 <= i < |b| && b[i].name == name
    {
      var i :| 0 <= i < |a| && a[i].name == name;
      InSame(a, b, a[i]);
      var j :| 0 <= j < |b| && b[j] == a[i];
      assert b[j].name == name;
    }
  }
}
