/**
 The TLB of cpu/src/tlb.c and the address translation that goes through it.
 `clock(i)` is what the i-th call of time(NULL) returns; `ticks` counts those calls.
 */
module Mmu {
  import opened Paging
  import opened Tiling
  import opened TlbPolicy

  datatype Algorithm = LRU | FIFO

  /** entrada_tlb */
  datatype Entry = Entry(pid: nat, page: nat, frame: nat, stamp: nat)

  type PageTables = map<nat, seq<nat>>

  /** What buscar_en_tlb returns on a miss: -1 as a uint32_t. */
  const MISS: nat := 0xFFFF_FFFF

  function KeyOf(e: Entry): Key {
    Key(e.pid, e.page)
  }

  function KeysOf(es: seq<Entry>): (ks: seq<Key>)
    ensures |ks| == |es|
    ensures forall i | 0 <= i < |es| :: ks[i] == KeyOf(es[i])
  {
    seq(|es|, i requires 0 <= i < |es| => KeyOf(es[i]))
  }

  /** Every cached frame of a process that is still there is the one its page table gives. */
  ghost predicate Agrees(es: seq<Entry>, tables: PageTables) {
    forall e <- es :: e.pid in tables ==> e.page < |tables[e.pid]| && e.frame == tables[e.pid][e.page]
  }

  /** memoria hands out frames below TAM_MEMORIA / TAM_PAGINA, so never the miss marker. */
  ghost predicate FramesFit(tables: PageTables) {
    forall pid <- tables :: forall f <- tables[pid] :: f < MISS
  }

  /** The leftmost entry with the least stamp: what reemplazo_algoritmo_LRU evicts. */
  ghost predicate IsVictim(es: seq<Entry>, v: nat) {
    && v < |es|
    && (forall i | 0 <= i < |es| :: es[v].stamp <= es[i].stamp)
    && (forall i | 0 <= i < v :: es[v].stamp < es[i].stamp)
  }

  /** The key has taken the slot of the victim. */
  ghost predicate Replaces(es: seq<Entry>, es': seq<Entry>, k: Key) {
    exists v: nat :: IsVictim(es, v) && KeysOf(es') == KeysOf(es)[v := k]
  }

  /** The stamps order the slots by last use. */
  ghost predicate StampedByUse(es: seq<Entry>, h: seq<Key>, now: int) {
    && (forall i | 0 <= i < |es| :: es[i].stamp < now)
    && (forall i, j | 0 <= i < |es| && 0 <= j < |es| ::
          LastUse(h, KeyOf(es[i])) < LastUse(h, KeyOf(es[j])) ==> es[i].stamp < es[j].stamp)
  }

  /** What a clock that never goes back leaves in the slots: stamps do not contradict the order of use. */
  ghost predicate StampedInOrder(es: seq<Entry>, h: seq<Key>, now: int) {
    && (forall i | 0 <= i < |es| :: es[i].stamp <= now)
    && (forall i, j | 0 <= i < |es| && 0 <= j < |es| ::
          LastUse(h, KeyOf(es[i])) < LastUse(h, KeyOf(es[j])) ==> es[i].stamp <= es[j].stamp)
  }

  /** The entry of the key just used has the time of its use. */
  lemma InOrderAfterUse(es: seq<Entry>, h: seq<Key>, i: nat, now: nat, later: int)
    requires Distinct(KeysOf(es)) && i < |es| && es[i].stamp == now <= later
    requires StampedInOrder(es[..i] + es[i + 1..], h, now)
    ensures StampedInOrder(es, h + [KeyOf(es[i])], later)
  {
    var h', others := h + [KeyOf(es[i])], es[..i] + es[i + 1..];
    assert h'[..|h'| - 1] == h;
    forall a | 0 <= a < |es| && a != i
      ensures KeyOf(es[a]) != KeyOf(es[i]) && es[a] == others[if a < i then a else a - 1]
    {
      assert KeysOf(es)[a] != KeysOf(es)[i];
    }
  }

  lemma InOrderWithout(es: seq<Entry>, i: nat, h: seq<Key>, now: int)
    requires StampedInOrder(es, h, now) && i < |es|
    ensures StampedInOrder(es[..i] + es[i + 1..], h, now)
  {
    var sub := es[..i] + es[i + 1..];
    assert forall a | 0 <= a < |sub| :: sub[a] == es[if a < i then a else a + 1];
  }

  /** Giving slot `i` to a use at this time keeps the order, whatever the slot held. */
  lemma InOrderInstalled(es: seq<Entry>, h: seq<Key>, i: nat, e: Entry, later: int)
    requires StampedInOrder(es, h, e.stamp) && i < |es| && Distinct(KeysOf(es[i := e])) && e.stamp <= later
    ensures StampedInOrder(es[i := e], h + [KeyOf(e)], later)
  {
    var es' := es[i := e];
    InOrderWithout(es, i, h, e.stamp);
    assert es'[..i] + es'[i + 1..] == es[..i] + es[i + 1..];
    InOrderAfterUse(es', h, i, e.stamp, later);
  }

  lemma InOrderAppended(es: seq<Entry>, h: seq<Key>, e: Entry, later: int)
    requires StampedInOrder(es, h, e.stamp) && Distinct(KeysOf(es + [e])) && e.stamp <= later
    ensures StampedInOrder(es + [e], h + [KeyOf(e)], later)
  {
    var es' := es + [e];
    assert es'[..|es|] + es'[|es| + 1..] == es;
    InOrderAfterUse(es', h, |es|, e.stamp, later);
  }

  /** The slots hold exactly the keys of the queue. */
  ghost predicate Holds(es: seq<Entry>, q: seq<Key>) {
    && |es| == |q|
    && forall k :: k in q <==> k in KeysOf(es)
  }

  /** An LRU TLB after the lookups `h`. */
  ghost predicate LruState(es: seq<Entry>, h: seq<Key>, cap: nat, now: int) {
    StampedByUse(es, h, now) && Holds(es, LruRun(h, cap))
  }

  lemma LruLater(es: seq<Entry>, h: seq<Key>, cap: nat, now: int, later: int)
    requires now <= later && LruState(es, h, cap, now)
    ensures LruState(es, h, cap, later)
  {
  }

  /** A new stamp on the entry of the key just used keeps the order. */
  lemma StampedAfterUse(es: seq<Entry>, h: seq<Key>, i: nat, now: nat, later: nat)
    requires Distinct(KeysOf(es)) && i < |es| && es[i].stamp == now < later
    requires StampedByUse(es[..i] + es[i + 1..], h, now)
    ensures StampedByUse(es, h + [KeyOf(es[i])], later)
  {
    var h', others := h + [KeyOf(es[i])], es[..i] + es[i + 1..];
    assert h'[..|h'| - 1] == h;
    forall a | 0 <= a < |es| && a != i
      ensures KeyOf(es[a]) != KeyOf(es[i]) && es[a] == others[if a < i then a else a - 1]
    {
      assert KeysOf(es)[a] != KeysOf(es)[i];
    }
  }

  lemma StampedSub(es: seq<Entry>, i: nat, h: seq<Key>, now: int)
    requires StampedByUse(es, h, now) && i < |es|
    ensures StampedByUse(es[..i] + es[i + 1..], h, now)
  {
    var sub := es[..i] + es[i + 1..];
    assert forall a | 0 <= a < |sub| :: sub[a] == es[if a < i then a else a + 1];
  }

  /** A hit is one LRU step. */
  lemma HitIsLruStep(es: seq<Entry>, h: seq<Key>, cap: nat, i: nat, now: nat, later: nat)
    requires LruState(es, h, cap, now) && Distinct(KeysOf(es)) && i < |es| && now < later
    ensures LruState(es[i := es[i].(stamp := now)], h + [KeyOf(es[i])], cap, later)
  {
    var es', k := es[i := es[i].(stamp := now)], KeyOf(es[i]);
    assert KeysOf(es') == KeysOf(es);
    assert es'[..i] + es'[i + 1..] == es[..i] + es[i + 1..];
    StampedSub(es, i, h, now);
    StampedAfterUse(es', h, i, now, later);
    LruRunDistinct(h, cap);
    assert KeysOf(es)[i] == k;
    assert k in LruRun(h, cap);
    var p :| 0 <= p < |LruRun(h, cap)| && LruRun(h, cap)[p] == k;
    LruStepHit(LruRun(h, cap), p, cap);
    assert (h + [k])[..|h + [k]| - 1] == h;
  }

  /** Installing a missed key on a free slot is one LRU step. */
  lemma FreshIsLruStep(es: seq<Entry>, h: seq<Key>, cap: nat, e: Entry, later: nat)
    requires LruState(es, h, cap, e.stamp) && KeyOf(e) !in KeysOf(es) && Distinct(KeysOf(es))
    requires |es| < cap && e.stamp < later
    ensures LruState(es + [e], h + [KeyOf(e)], cap, later)
  {
    var es', k := es + [e], KeyOf(e);
    assert KeysOf(es') == KeysOf(es) + [k];
    assert es'[..|es|] + es'[|es| + 1..] == es;
    StampedAfterUse(es', h, |es|, e.stamp, later);
    LruRunDistinct(h, cap);
    LruStepMiss(LruRun(h, cap), k, cap);
    assert (h + [k])[..|h + [k]| - 1] == h;
  }

  /** The victim's key is the least recently used one. */
  lemma VictimIsOldest(es: seq<Entry>, h: seq<Key>, cap: nat, v: nat, now: int)
    requires LruState(es, h, cap, now) && IsVictim(es, v)
    ensures KeyOf(es[v]) == LruRun(h, cap)[0]
  {
    var q := LruRun(h, cap);
    assert q[0] in KeysOf(es);
    var j :| 0 <= j < |es| && KeysOf(es)[j] == q[0];
    assert KeysOf(es)[v] in q;
    var p :| 0 <= p < |q| && q[p] == KeyOf(es[v]);
    if p > 0 {
      LruRunSorted(h, cap, 0, p);
    }
  }

  /** Installing a missed key over the victim is one LRU step. */
  lemma ReplaceIsLruStep(es: seq<Entry>, h: seq<Key>, v: nat, e: Entry, later: nat)
    requires LruState(es, h, |es|, e.stamp) && KeyOf(e) !in KeysOf(es) && Distinct(KeysOf(es))
    requires IsVictim(es, v) && e.stamp < later
    ensures LruState(es[v := e], h + [KeyOf(e)], |es|, later)
  {
    var es', k, q := es[v := e], KeyOf(e), LruRun(h, |es|);
    VictimIsOldest(es, h, |es|, v, e.stamp);
    LruRunDistinct(h, |es|);
    LruStepMiss(q, k, |es|);
    assert (h + [k])[..|h + [k]| - 1] == h;
    assert KeysOf(es') == KeysOf(es)[v := k];
    DistinctUpdate(KeysOf(es), v, k);
    UpdateMembers(KeysOf(es), v, k, q);
    assert es'[..v] + es'[v + 1..] == es[..v] + es[v + 1..];
    StampedSub(es, v, h, e.stamp);
    StampedAfterUse(es', h, v, e.stamp, later);
  }

  lemma UpdateMembers(ks: seq<Key>, v: nat, k: Key, q: seq<Key>)
    requires Distinct(ks) && Distinct(q) && v < |ks| && 0 < |q| && ks[v] == q[0] && k !in ks
    requires forall x :: x in q <==> x in ks
    ensures forall x :: x in q[1..] + [k] <==> x in ks[v := k]
  {
    forall x
      ensures x in q[1..] + [k] <==> x in ks[v := k]
    {
      assert q == [q[0]] + q[1..];
      if x in ks && x != ks[v] {
        var i :| 0 <= i < |ks| && ks[i] == x;
        assert ks[v := k][i] == x;
      }
      assert ks[v := k][v] == k;
    }
  }

  lemma DistinctUpdate(ks: seq<Key>, i: nat, k: Key)
    requires Distinct(ks) && i < |ks| && k !in ks
    ensures Distinct(ks[i := k])
  {
  }

  lemma AppendKeeps(es: seq<Entry>, e: Entry, tables: PageTables)
    requires Distinct(KeysOf(es)) && KeyOf(e) !in KeysOf(es)
    requires Agrees(es + [e.(stamp := 0)], tables)
    ensures KeysOf(es + [e]) == KeysOf(es) + [KeyOf(e)] && Distinct(KeysOf(es + [e])) && Agrees(es + [e], tables)
  {
    assert (es + [e.(stamp := 0)])[|es|] == e.(stamp := 0);
    assert forall i | 0 <= i < |es| :: (es + [e.(stamp := 0)])[i] == es[i];
  }

  lemma AgreesAppend(es: seq<Entry>, e: Entry, tables: PageTables)
    requires Agrees(es, tables)
    requires e.pid in tables && e.page < |tables[e.pid]| && e.frame == tables[e.pid][e.page]
    ensures Agrees(es + [e], tables)
  {
  }

  lemma StampKeeps(es: seq<Entry>, i: nat, now: nat, tables: PageTables)
    requires Agrees(es, tables) && FramesFit(tables) && i < |es| && es[i].pid in tables
    ensures var es' := es[i := es[i].(stamp := now)]; KeysOf(es') == KeysOf(es) && Agrees(es', tables)
    ensures KeyOf(es[i]) in KeysOf(es)
    ensures var e := es[i]; e.page < |tables[e.pid]| && e.frame == tables[e.pid][e.page] < MISS
  {
    assert KeysOf(es)[i] == KeyOf(es[i]);
    assert es[i].frame in tables[es[i].pid];
  }

  /** Every slot moves down by one and the last one is reused. */
  lemma ShiftKeeps(es: seq<Entry>, e: Entry, tables: PageTables)
    requires Distinct(KeysOf(es)) && KeyOf(e) !in KeysOf(es) && es != []
    requires Agrees(es + [e.(stamp := 0)], tables)
    ensures var es' := es[1..] + [e];
            && KeysOf(es') == KeysOf(es)[1..] + [KeyOf(e)] && Distinct(KeysOf(es')) && Agrees(es', tables)
            && forall k <- KeysOf(es') :: k in KeysOf(es) || k == KeyOf(e)
  {
    AppendKeeps(es, e, tables);
    assert es[1..] + [e] == (es + [e])[1..];
    assert KeysOf((es + [e])[1..]) == KeysOf(es + [e])[1..];
  }

  lemma UpdateKeeps(es: seq<Entry>, i: nat, e: Entry, tables: PageTables)
    requires Distinct(KeysOf(es)) && KeyOf(e) !in KeysOf(es) && i < |es|
    requires Agrees(es + [e.(stamp := 0)], tables)
    ensures Distinct(KeysOf(es[i := e])) && Agrees(es[i := e], tables)
  {
    AppendKeeps(es, e, tables);
    assert KeysOf(es[i := e]) == KeysOf(es)[i := KeyOf(e)];
  }

  lemma FifoHit(h: seq<Key>, k: Key, cap: nat)
    ensures k in FifoRun(h, cap) ==> FifoRun(h + [k], cap) == FifoRun(h, cap)
  {
    assert (h + [k])[..|h + [k]| - 1] == h;
  }

  lemma FifoMiss(h: seq<Key>, k: Key, cap: nat)
    ensures k !in FifoRun(h, cap) ==> FifoRun(h + [k], cap) == Suffix(FifoRun(h, cap) + [k], cap)
  {
    assert (h + [k])[..|h + [k]| - 1] == h;
  }

  lemma NoCapacity(h: seq<Key>)
    ensures FifoRun(h, 0) == LruRun(h, 0) == []
  {
    LruHoldsMostRecent(h, 0);
    FifoHoldsLastMisses(h, 0);
  }

  ghost predicate NeverBack(clock: nat -> nat) {
    forall i: nat, j: nat | i < j :: clock(i) <= clock(j)
  }

  ghost predicate Increasing(clock: nat -> nat) {
    forall i: nat, j: nat | i < j :: clock(i) < clock(j)
  }

  /** The keys of `count` consecutive pages. */
  function PageKeys(pid: nat, page: nat, count: nat): seq<Key> {
    if count == 0 then [] else PageKeys(pid, page, count - 1) + [Key(pid, page + count - 1)]
  }

  lemma {:induction false} PageKeysPid(pid: nat, page: nat, count: nat)
    ensures forall k <- PageKeys(pid, page, count) :: k.pid == pid
  {
    if count > 0 {
      PageKeysPid(pid, page, count - 1);
    }
  }

  /** The history `h` once `count` pages from `page` on have been looked up. */
  function After(h: seq<Key>, pid: nat, page: nat, count: nat): seq<Key> {
    h + PageKeys(pid, page, count)
  }

  lemma AfterNext(h: seq<Key>, pid: nat, page: nat, count: nat)
    ensures After(h, pid, page, count) + [Key(pid, page + count)] == After(h, pid, page, count + 1)
  {
  }

  lemma AfterFirst(h: seq<Key>, pid: nat, page: nat)
    ensures After(h, pid, page, 0) == h && h + [Key(pid, page)] == After(h, pid, page, 1)
  {
    AfterNext(h, pid, page, 0);
  }

  class Tlb {
    const algorithm: Algorithm
    const clock: nat -> nat
    var entries: array<Entry>
    var used: nat
    var ticks: nat
    ghost var history: seq<Key>

    constructor (capacity: nat, algorithm: Algorithm, clock: nat -> nat)
      ensures Valid() && entries.Length == capacity && used == 0
      ensures this.algorithm == algorithm && this.clock == clock
      ensures InPolicyOrder() && history == []
      ensures fresh(entries)
    {
      this.algorithm, this.clock := algorithm, clock;
      entries := new Entry[capacity](_ => Entry(0, 0, 0, 0));
      used, ticks, history := 0, 0, [];
    }

    /** The live slots, in array order. */
    ghost function Live(): seq<Entry>
      requires used <= entries.Length
      reads this, entries
    {
      entries[..used]
    }

    /** Holds whatever the clock does. */
    ghost predicate Valid()
      reads this, entries
    {
      used <= entries.Length && Distinct(KeysOf(Live())) && forall k <- KeysOf(Live()) :: k in history
    }

    /** The slots are those of the policy after the lookups `h`. */
    ghost predicate Tracks(h: seq<Key>)
      requires used <= entries.Length
      reads this, entries
    {
      match algorithm
      case FIFO => KeysOf(Live()) == FifoRun(h, entries.Length)
      case LRU => LruState(Live(), h, entries.Length, clock(ticks))
    }

    /** FIFO whatever the clock does, LRU under one that increases, and what is left under one that may stand still. */
    ghost predicate Ordered(h: seq<Key>)
      requires used <= entries.Length
      reads this, entries
    {
      && (algorithm.FIFO? || Increasing(clock) ==> Tracks(h))
      && (NeverBack(clock) && algorithm.LRU? ==> StampedInOrder(Live(), h, clock(ticks)))
    }

    ghost predicate InPolicyOrder()
      requires used <= entries.Length
      reads this, entries
    {
      Ordered(history)
    }

    /** The scan of buscar_en_tlb. */
    method FindSlot(pid: nat, page: nat) returns (i: nat)
      requires used <= entries.Length
      ensures i <= used
      ensures i < used ==> KeyOf(entries[i]) == Key(pid, page)
      ensures i == used ==> Key(pid, page) !in KeysOf(Live())
    {
      i := 0;
      while i < used
        invariant i <= used && forall j | 0 <= j < i :: KeyOf(entries[j]) != Key(pid, page)
      {
        if entries[i].pid == pid && entries[i].page == page {
          return;
        }
        i := i + 1;
      }
    }

    /** buscar_en_tlb: the frame of a cached key, stamped as used now, or -1. */
    method Search(pid: nat, page: nat, ghost tables: PageTables, ghost h: seq<Key>) returns (frame: nat)
      requires Valid() && Agrees(Live(), tables) && FramesFit(tables) && pid in tables
      modifies this`ticks, entries
      ensures Valid() && Agrees(Live(), tables)
      ensures KeysOf(Live()) == old(KeysOf(Live()))
      ensures frame != MISS <==> Key(pid, page) in KeysOf(Live())
      ensures frame != MISS ==> page < |tables[pid]| && frame == tables[pid][page]
      ensures old(Ordered(h)) ==> Ordered(if frame == MISS then h else h + [Key(pid, page)])
    {
      ghost var es, tracked := Live(), (algorithm.FIFO? || Increasing(clock)) && Tracks(h);
      ghost var inOrder := NeverBack(clock) && algorithm.LRU? && StampedInOrder(es, h, clock(ticks));
      var now := clock(ticks);
      ticks := ticks + 1;
      var i := FindSlot(pid, page);
      if i == used {
        if tracked && algorithm.LRU? {
          LruLater(es, h, entries.Length, now, clock(ticks));
        }
        return MISS;
      }
      StampKeeps(es, i, now, tables);
      if tracked {
        FifoHit(h, Key(pid, page), entries.Length);
        if algorithm.LRU? {
          HitIsLruStep(es, h, entries.Length, i, now, clock(ticks));
        }
      }
      if inOrder {
        InOrderInstalled(es, h, i, es[i].(stamp := now), clock(ticks));
      }
      entries[i] := entries[i].(stamp := now);
      assert Live() == es[i := es[i].(stamp := now)];
      return entries[i].frame;
    }

    /** The first branch of actualizar_TLB: take a free slot. */
    method Append(pid: nat, page: nat, frame: nat, ghost tables: PageTables, ghost h: seq<Key>)
      requires Valid() && used < entries.Length && Key(pid, page) !in KeysOf(Live()) && Key(pid, page) in history
      requires Agrees(Live() + [Entry(pid, page, frame, 0)], tables)
      modifies this`ticks, this`used, entries
      ensures Valid() && Agrees(Live(), tables)
      ensures KeysOf(Live()) == old(KeysOf(Live())) + [Key(pid, page)]
      ensures old(Ordered(h)) ==> Ordered(h + [Key(pid, page)])
    {
      ghost var es, tracked := Live(), (algorithm.FIFO? || Increasing(clock)) && Tracks(h);
      ghost var inOrder := NeverBack(clock) && algorithm.LRU? && StampedInOrder(es, h, clock(ticks));
      var now := clock(ticks);
      ticks := ticks + 1;
      var e := Entry(pid, page, frame, if algorithm.LRU? then now else entries[used].stamp);
      AppendKeeps(es, e, tables);
      if tracked {
        FifoMiss(h, Key(pid, page), entries.Length);
        if algorithm.LRU? {
          FreshIsLruStep(es, h, entries.Length, e, clock(ticks));
        }
      }
      if inOrder {
        InOrderAppended(es, h, e, clock(ticks));
      }
      entries[used] := e;
      used := used + 1;
      assert Live() == es + [e];
    }

    /** reemplazo_algoritmo_FIFO: shift every slot down and reuse the last one. */
    method ReplaceFifo(pid: nat, page: nat, frame: nat, ghost tables: PageTables)
      requires Valid() && 0 < used && Key(pid, page) !in KeysOf(Live()) && Key(pid, page) in history
      requires Agrees(Live() + [Entry(pid, page, frame, 0)], tables)
      modifies entries
      ensures Valid() && Agrees(Live(), tables)
      ensures KeysOf(Live()) == old(KeysOf(Live()))[1..] + [Key(pid, page)]
    {
      ghost var es := Live();
      for i := 1 to used
        invariant forall j | 0 <= j < i - 1 :: entries[j] == es[j + 1]
        invariant forall j | i - 1 <= j < used :: entries[j] == es[j]
      {
        entries[i - 1] := entries[i];
      }
      entries[used - 1] := entries[used - 1].(pid := pid, page := page, frame := frame);
      ShiftKeeps(es, entries[used - 1], tables);
      assert Live() == es[1..] + [entries[used - 1]];
    }

    /** The scan of reemplazo_algoritmo_LRU. */
    method FindVictim() returns (victim: nat)
      requires 0 < used <= entries.Length
      ensures IsVictim(Live(), victim)
    {
      victim := 0;
      for i := 1 to used
        invariant 0 <= victim < i
        invariant forall j | 0 <= j < i :: entries[victim].stamp <= entries[j].stamp
        invariant forall j | 0 <= j < victim :: entries[victim].stamp < entries[j].stamp
      {
        if entries[i].stamp < entries[victim].stamp {
          victim := i;
        }
      }
    }

    /** reemplazo_algoritmo_LRU: overwrite the leftmost slot with the least stamp. */
    method ReplaceLru(pid: nat, page: nat, frame: nat, ghost tables: PageTables, ghost h: seq<Key>)
      requires Valid() && 0 < used == entries.Length && algorithm.LRU?
      requires Key(pid, page) !in KeysOf(Live()) && Key(pid, page) in history
      requires Agrees(Live() + [Entry(pid, page, frame, 0)], tables)
      modifies this`ticks, entries
      ensures Valid() && Agrees(Live(), tables)
      ensures Replaces(old(Live()), Live(), Key(pid, page))
      ensures old(Ordered(h)) ==> Ordered(h + [Key(pid, page)])
    {
      ghost var es, tracked := Live(), (algorithm.FIFO? || Increasing(clock)) && Tracks(h);
      ghost var inOrder := NeverBack(clock) && StampedInOrder(es, h, clock(ticks));
      var now := clock(ticks);
      ticks := ticks + 1;
      var victim := FindVictim();
      var e := Entry(pid, page, frame, now);
      UpdateKeeps(es, victim, e, tables);
      if tracked {
        ReplaceIsLruStep(es, h, victim, e, clock(ticks));
      }
      if inOrder {
        InOrderInstalled(es, h, victim, e, clock(ticks));
      }
      entries[victim] := e;
      assert Live() == es[victim := e];
      assert KeysOf(Live()) == KeysOf(es)[victim := KeyOf(e)];
    }

    /** actualizar_TLB, for a key that missed. */
    method Update(pid: nat, page: nat, frame: nat, ghost tables: PageTables, ghost h: seq<Key>)
      requires Valid() && 0 < entries.Length && Key(pid, page) !in KeysOf(Live()) && Key(pid, page) in history
      requires Agrees(Live() + [Entry(pid, page, frame, 0)], tables)
      modifies this`ticks, this`used, entries
      ensures Valid() && Agrees(Live(), tables)
      ensures old(used) < entries.Length ==> KeysOf(Live()) == old(KeysOf(Live())) + [Key(pid, page)]
      ensures old(used) == entries.Length && algorithm.LRU? ==> Replaces(old(Live()), Live(), Key(pid, page))
      ensures old(Ordered(h)) ==> Ordered(h + [Key(pid, page)])
    {
      if used < entries.Length {
        Append(pid, page, frame, tables, h);
        return;
      }
      TickUnused(h);
      if algorithm.FIFO? {
        FifoMiss(h, Key(pid, page), entries.Length);
        ReplaceFifo(pid, page, frame, tables);
      } else {
        ReplaceLru(pid, page, frame, tables, h);
      }
    }

    /** The clock is read first, and the replacement that follows does not use what it said. */
    method TickUnused(ghost h: seq<Key>)
      requires used <= entries.Length
      modifies this`ticks
      ensures old(Ordered(h)) ==> Ordered(h)
    {
      if algorithm.LRU? && Increasing(clock) && Tracks(h) {
        LruLater(Live(), h, entries.Length, clock(ticks), clock(ticks + 1));
      }
      ticks := ticks + 1;
    }

    /** One lookup of traducir_direccion: the TLB first, the page table of memoria on a miss. */
    method Obtain(pid: nat, page: nat, tables: PageTables) returns (frame: nat, hit: bool)
      requires Valid() && Agrees(Live(), tables) && FramesFit(tables)
      requires pid in tables && page < |tables[pid]|
      modifies this`ticks, this`used, this`history, entries
      ensures Valid() && Agrees(Live(), tables)
      ensures frame == tables[pid][page]
      ensures hit <==> Key(pid, page) in old(KeysOf(Live()))
      ensures hit ==> KeysOf(Live()) == old(KeysOf(Live()))
      ensures !hit && old(used) < entries.Length ==> KeysOf(Live()) == old(KeysOf(Live())) + [Key(pid, page)]
      ensures history == old(history) + [Key(pid, page)]
      ensures old(InPolicyOrder()) ==> InPolicyOrder()
    {
      ghost var h := history;
      history := history + [Key(pid, page)];
      frame := 0;
      if entries.Length > 0 {
        frame := Search(pid, page, tables, h);
      }
      hit := frame != MISS && entries.Length != 0;
      NoCapacity(history);
      if !hit {
        frame := tables[pid][page];
        if entries.Length > 0 {
          AgreesAppend(Live(), Entry(pid, page, frame, 0), tables);
          Update(pid, page, frame, tables, h);
        }
      }
    }

    /** The body of the inner loop of traducir_direccion: the segment after `total` bytes. */
    method NextSegment(pid: nat, la: nat, ps: nat, n: nat, total: nat, rest: nat, tables: PageTables)
      returns (seg: Segment)
      requires Valid() && Agrees(Live(), tables) && FramesFit(tables)
      requires 0 < ps && pid in tables && InRange(tables[pid], ps, la + total, rest) && total < n == total + rest
      modifies this`ticks, this`used, this`history, entries
      ensures Valid() && Agrees(Live(), tables)
      ensures var addr := Phys(tables[pid], ps, la + total); seg == Segment(addr, Chunk(ps, addr, rest))
      ensures history == old(history) + [Key(pid, PageOf(ps, la + total))]
      ensures old(InPolicyOrder()) ==> InPolicyOrder()
    {
      var page, offset := SplitAddress(la + total, ps);
      var frame, _ := Obtain(pid, page, tables);
      var addr := frame * ps + offset;
      var size := CountInFrame(addr, ps, rest);
      seg := Segment(addr, size);
    }

    /** The segment list after one more lookup. */
    method AddSegment(pid: nat, la: nat, ps: nat, n: nat, tables: PageTables, segs: seq<Segment>, total: nat, rest: nat,
            ghost h: seq<Key>)
      returns (segs': seq<Segment>, total': nat, rest': nat)
      requires Valid() && Agrees(Live(), tables) && FramesFit(tables)
      requires 0 < ps && pid in tables && InRange(tables[pid], ps, la, n) && total < n == total + rest
      requires Tiled(tables[pid], ps, la, n, segs, total) && history == After(h, pid, PageOf(ps, la), |segs|)
      modifies this`ticks, this`used, this`history, entries
      ensures Valid() && Agrees(Live(), tables)
      ensures total' + rest' == n && Tiled(tables[pid], ps, la, n, segs', total')
      ensures |segs'| == |segs| + 1 && history == After(h, pid, PageOf(ps, la), |segs'|)
      ensures old(InPolicyOrder()) ==> InPolicyOrder()
    {
      AfterNext(h, pid, PageOf(ps, la), |segs|);
      TiledNext(tables[pid], ps, la, n, segs, total);
      var seg := NextSegment(pid, la, ps, n, total, rest, tables);
      segs', total', rest' := segs + [seg], total + seg.size, rest - seg.size;
    }

    /** One pass of the outer loop: at the first byte outside the page of `la`, one more segment. */
    method Pass(pid: nat, la: nat, ps: nat, n: nat, tables: PageTables, segs: seq<Segment>, total: nat, rest: nat,
            ghost h: seq<Key>)
      returns (segs': seq<Segment>, total': nat, rest': nat)
      requires Valid() && Agrees(Live(), tables) && FramesFit(tables)
      requires 0 < ps && pid in tables && InRange(tables[pid], ps, la, n) && total + rest == n
      requires Tiled(tables[pid], ps, la, n, segs, total) && 1 < PageCount(ps, la, n)
      requires history == After(h, pid, PageOf(ps, la), |segs|)
      modifies this`ticks, this`used, this`history, entries
      ensures Valid() && Agrees(Live(), tables)
      ensures total' + rest' == n && Tiled(tables[pid], ps, la, n, segs', total')
      ensures |segs'| == |segs| + (if total < n then 1 else 0)
      ensures history == After(h, pid, PageOf(ps, la), |segs'|)
      ensures old(InPolicyOrder()) ==> InPolicyOrder()
    {
      ghost var table, ordered := tables[pid], InPolicyOrder();
      segs', total', rest' := segs, total, rest;
      var flag := 0;
      var i := 0;
      while i < n
        invariant 0 <= i <= n && 0 <= flag <= 1 && total' + rest' == n
        invariant Valid() && Agrees(Live(), tables)
        invariant Tiled(table, ps, la, n, segs', total')
        invariant history == After(h, pid, PageOf(ps, la), |segs'|)
        invariant flag == 0 ==> segs' == segs && total' == total
        invariant flag == 0 && total < n && 0 < i ==> PageOf(ps, la) == PageOf(ps, la + i - 1)
        invariant flag == 1 ==> total < n && |segs'| == |segs| + 1
        invariant ordered ==> InPolicyOrder()
      {
        var same := InSamePage(la, la + i, ps);
        if !same && flag == 0 && total' != n {
          segs', total', rest' := AddSegment(pid, la, ps, n, tables, segs', total', rest', h);
          flag := flag + 1;
        }
        i := i + 1;
      }
    }

    /** The part of traducir_direccion before its loop; a miss also raises the page counter. */
    method FirstSegment(pid: nat, la: nat, ps: nat, n: nat, tables: PageTables) returns (seg: Segment, extra: nat)
      requires Valid() && Agrees(Live(), tables) && FramesFit(tables)
      requires 0 < ps && pid in tables && InRange(tables[pid], ps, la, n)
      modifies this`ticks, this`used, this`history, entries
      ensures Valid() && Agrees(Live(), tables)
      ensures Tiled(tables[pid], ps, la, n, [seg], seg.size)
      ensures history == After(old(history), pid, PageOf(ps, la), 1)
      ensures old(InPolicyOrder()) ==> InPolicyOrder()
    {
      var page, offset := SplitAddress(la, ps);
      AfterFirst(history, pid, page);
      TiledFirst(tables[pid], ps, la, n);
      var frame, hit := Obtain(pid, page, tables);
      var addr := frame * ps + offset;
      var size;
      if hit {
        size := CountInFrame(addr, ps, n);
      } else {
        size := RunInFrame(addr, ps, n);
      }
      seg, extra := Segment(addr, size), if hit then 0 else 1;
    }

    /** The outer loop: one pass for each value of the page counter. */
    method Passes(pid: nat, la: nat, ps: nat, n: nat, tables: PageTables, first: Segment, pages: nat,
            ghost h: seq<Key>) returns (segs: seq<Segment>)
      requires Valid() && Agrees(Live(), tables) && FramesFit(tables)
      requires 0 < ps && pid in tables && InRange(tables[pid], ps, la, n) && 1 < PageCount(ps, la, n) <= pages
      requires first.size < n && Tiled(tables[pid], ps, la, n, [first], first.size)
      requires history == After(h, pid, PageOf(ps, la), 1)
      modifies this`ticks, this`used, this`history, entries
      ensures Valid() && Agrees(Live(), tables)
      ensures Tiled(tables[pid], ps, la, n, segs, n)
      ensures history == After(h, pid, PageOf(ps, la), |segs|)
      ensures old(InPolicyOrder()) ==> InPolicyOrder()
    {
      ghost var table, ordered := tables[pid], InPolicyOrder();
      segs := [first];
      var count: nat, total: nat, rest: nat := 0, first.size, n - first.size;
      while count <= pages
        invariant 0 <= total <= n == total + rest && Tiled(table, ps, la, n, segs, total)
        invariant 0 < |segs| && (total < n ==> |segs| == count + 1)
        invariant history == After(h, pid, PageOf(ps, la), |segs|)
        invariant Valid() && Agrees(Live(), tables)
        invariant ordered ==> InPolicyOrder()
      {
        segs, total, rest := Pass(pid, la, ps, n, tables, segs, total, rest, h);
        count := count + 1;
      }
      TiledCount(tables[pid], ps, la, n, segs, total);
    }

    /**
     traducir_direccion. The outer loop runs at least once per page, each pass adding one
     segment until the range is covered; the surplus passes add nothing.
     */
    method Translate(pid: nat, la: nat, ps: nat, n: nat, tables: PageTables) returns (segs: seq<Segment>)
      requires Valid() && Agrees(Live(), tables) && FramesFit(tables)
      requires 0 < ps && pid in tables && InRange(tables[pid], ps, la, n)
      modifies this`ticks, this`used, this`history, entries
      ensures Valid() && Agrees(Live(), tables)
      ensures segs == Segments(tables[pid], ps, la, n)
      ensures history == After(old(history), pid, PageOf(ps, la), PageCount(ps, la, n))
      ensures old(InPolicyOrder()) ==> InPolicyOrder()
    {
      ghost var h := history;
      var pages := CountPages(la, ps, n);
      var several := pages > 1;
      var first, extra := FirstSegment(pid, la, ps, n, tables);
      TiledCount(tables[pid], ps, la, n, [first], first.size);
      if !several {
        return [first];
      }
      segs := Passes(pid, la, ps, n, tables, first, pages + extra, h);
      TiledCount(tables[pid], ps, la, n, segs, n);
    }
  }
}
