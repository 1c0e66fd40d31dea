/** What holds of the scheduler at every step, and that each of its routines keeps it. */
module KernelInvariant {
  import opened Kernel

  /** The blocked processes that wait at `x`, in order. */
  ghost function At(blocked: seq<nat>, place: map<nat, Place>, x: Place): (r: seq<nat>)
    ensures forall p <- r :: p in blocked && p in place && place[p] == x
  {
    if blocked == [] then [] else
      (if blocked[0] in place && place[blocked[0]] == x then [blocked[0]] else []) + At(blocked[1..], place, x)
  }

  lemma AtCons(b: nat, rest: seq<nat>, place: map<nat, Place>, x: Place)
    ensures At([b] + rest, place, x) == (if b in place && place[b] == x then [b] else []) + At(rest, place, x)
  {
    assert ([b] + rest)[1..] == rest;
  }

  lemma {:induction false} AtAppend(blocked: seq<nat>, p: nat, place: map<nat, Place>, x: Place)
    ensures At(blocked + [p], place, x) == At(blocked, place, x) + At([p], place, x)
  {
    if blocked == [] {
      assert blocked + [p] == [p];
    } else {
      var b, rest := blocked[0], blocked[1..];
      AtAppend(rest, p, place, x);
      AtCons(b, rest + [p], place, x);
      assert [b] + (rest + [p]) == blocked + [p];
      Reassociate(if b in place && place[b] == x then [b] else [], At(rest, place, x), At([p], place, x));
    }
  }

  lemma Reassociate(a: seq<nat>, b: seq<nat>, c: seq<nat>)
    ensures a + (b + c) == a + b + c
  {
  }

  lemma RemoveFromCons(x: nat, rest: seq<nat>, p: nat)
    ensures RemoveFirst([x] + rest, p) == if x == p then rest else [x] + RemoveFirst(rest, p)
  {
    assert ([x] + rest)[1..] == rest;
  }

  lemma {:induction false} AtRemove(blocked: seq<nat>, p: nat, place: map<nat, Place>, x: Place)
    requires p in place
    ensures At(RemoveFirst(blocked, p), place, x) ==
            if place[p] == x then RemoveFirst(At(blocked, place, x), p) else At(blocked, place, x)
  {
    if blocked != [] {
      var b, rest := blocked[0], blocked[1..];
      assert blocked == [b] + rest;
      AtCons(b, rest, place, x);
      RemoveFromCons(b, rest, p);
      RemoveFromCons(b, At(rest, place, x), p);
      if b != p {
        AtRemove(rest, p, place, x);
        AtCons(b, RemoveFirst(rest, p), place, x);
      }
      AtRemoveStep(blocked, b, rest, p, place, x);
    }
  }

  lemma AtRemoveStep(blocked: seq<nat>, b: nat, rest: seq<nat>, p: nat, place: map<nat, Place>, x: Place)
    requires p in place && blocked == [b] + rest
    requires RemoveFirst(blocked, p) == if b == p then rest else [b] + RemoveFirst(rest, p)
    requires At(blocked, place, x) == (if b in place && place[b] == x then [b] else []) + At(rest, place, x)
    requires RemoveFirst([b] + At(rest, place, x), p) ==
             if b == p then At(rest, place, x) else [b] + RemoveFirst(At(rest, place, x), p)
    requires b != p ==> At([b] + RemoveFirst(rest, p), place, x) ==
                        (if b in place && place[b] == x then [b] else []) + At(RemoveFirst(rest, p), place, x)
    requires b != p ==> At(RemoveFirst(rest, p), place, x) ==
                        if place[p] == x then RemoveFirst(At(rest, place, x), p) else At(rest, place, x)
    ensures At(RemoveFirst(blocked, p), place, x) ==
            if place[p] == x then RemoveFirst(At(blocked, place, x), p) else At(blocked, place, x)
  {
    var head: seq<nat> := if b in place && place[b] == x then [b] else [];
    if head == [] {
      assert head + At(rest, place, x) == At(rest, place, x);
      assert head + At(RemoveFirst(rest, p), place, x) == At(RemoveFirst(rest, p), place, x);
    }
  }

  lemma {:induction false} AtElsewhere(blocked: seq<nat>, p: nat, place: map<nat, Place>, y: Place, x: Place)
    requires p !in blocked
    ensures At(blocked, place[p := y], x) == At(blocked, place, x)
  {
    if blocked != [] {
      AtElsewhere(blocked[1..], p, place, y, x);
    }
  }

  /** Instances of resource `r` that the processes below `next` hold. */
  ghost function Holdings(pcbs: map<nat, Pcb>, next: nat, r: nat): nat {
    if next == 0 then 0 else
      Holdings(pcbs, next - 1, r) + if next - 1 in pcbs then multiset(pcbs[next - 1].held)[r] else 0
  }

  lemma {:induction false} HoldingsUpdate(pcbs: map<nat, Pcb>, next: nat, p: nat, pcb: Pcb, r: nat)
    requires p in pcbs
    ensures Holdings(pcbs[p := pcb], next, r) ==
            Holdings(pcbs, next, r) +
            if p < next then multiset(pcb.held)[r] as int - multiset(pcbs[p].held)[r] as int else 0
  {
    if next > 0 {
      HoldingsUpdate(pcbs, next - 1, p, pcb, r);
    }
  }

  lemma {:induction false} HoldingsSame(a: map<nat, Pcb>, b: map<nat, Pcb>, next: nat, r: nat)
    requires a.Keys == b.Keys && forall q <- a :: a[q].held == b[q].held
    ensures Holdings(a, next, r) == Holdings(b, next, r)
  {
    if next > 0 {
      HoldingsSame(a, b, next - 1, r);
    }
  }

  function InQueues(q: Queues): multiset<nat> {
    multiset(q.newcomers) + multiset(q.ready) + multiset(q.readyPlus) + multiset(q.exec) + multiset(q.blocked) +
        multiset(q.exit)
  }

  /** Every process created is in exactly one queue, once, or in hand. */
  ghost predicate Placed(s: State, hand: multiset<nat>) {
    && InQueues(s.queues) + hand == multiset(s.pcbs.Keys) && 1 <= s.next
    && forall p :: p in s.pcbs <==> 1 <= p < s.next
  }

  ghost predicate AllIn(pcbs: map<nat, Pcb>, q: seq<nat>, state: ProcessState) {
    forall p <- q :: p in pcbs && pcbs[p].state == state
  }

  /** `estado` is the queue that the process is in. */
  ghost predicate StatesMatch(s: State) {
    && AllIn(s.pcbs, s.queues.newcomers, NUEVO)
    && AllIn(s.pcbs, s.queues.ready, LISTO) && AllIn(s.pcbs, s.queues.readyPlus, LISTO)
    && AllIn(s.pcbs, s.queues.exec, EJECUTANDO) && AllIn(s.pcbs, s.queues.blocked, BLOQUEADO)
    && AllIn(s.pcbs, s.queues.exit, FINALIZADO)
  }

  /** One process at most runs; the semaphores count the processes that wait for them, and what kills left over. */
  ghost predicate SemaphoresCover(s: State) {
    && |s.queues.exec| <= 1
    && s.sems.newcomers + (if s.sems.admitting then 1 else 0) == |s.queues.newcomers| + s.account.spareNew
    && s.sems.ready == |s.queues.ready| + |s.queues.readyPlus| + s.account.spareReady
  }

  /** The multiprogramming semaphore and the admitted processes make up the degree; `slots` are being moved. */
  ghost predicate DegreeKept(s: State, slots: int) {
    s.sems.multi + |s.queues.ready| + |s.queues.readyPlus| + |s.queues.exec| + |s.queues.blocked| + slots ==
    s.sems.grade + s.sems.pending
  }

  ghost predicate Exists(s: State, x: Place) {
    match x
    case AtResource(r) => r < |s.resources|
    case AtDevice(d) => d < |s.devices|
  }

  /** Each queue of a resource or interface is the part of the blocked queue that waits for it. */
  ghost predicate WaitsMatch(s: State) {
    && (forall r | 0 <= r < |s.resources| ::
        s.resources[r].waiting == At(s.queues.blocked, s.account.place, AtResource(r)))
    && (forall d | 0 <= d < |s.devices| :: s.devices[d].queue == At(s.queues.blocked, s.account.place, AtDevice(d)))
    && forall p <- s.queues.blocked :: p in s.account.place && Exists(s, s.account.place[p])
  }

  /** Each interface's queue is its answers on their way, the request being served, and its requests. */
  ghost predicate ChannelsMatch(s: State) {
    forall d | 0 <= d < |s.devices| ::
      var dev := s.devices[d]; dev.queue == dev.done + dev.serving + dev.requests && |dev.serving| <= 1
  }

  /** Instances left and held make up those configured and those signalled without a holding. */
  ghost predicate InstancesKept(s: State, initial: seq<nat>) {
    && |s.resources| == |s.account.orphans| == |initial|
    && (forall r | 0 <= r < |initial| ::
          0 <= s.resources[r].instances &&
          s.resources[r].instances + Holdings(s.pcbs, s.next, r) == initial[r] + s.account.orphans[r])
    && (forall p <- s.pcbs :: HoldsKnown(s, p))
    && forall p <- s.queues.newcomers :: p in s.pcbs && s.pcbs[p].held == []
  }

  /** What a process has lost of its quantum is what was charged since it last got a whole one. */
  ghost predicate QuantumKept(s: State, config: Config) {
    forall p <- s.pcbs ::
      && p in s.account.charged && 0 < s.pcbs[p].quantum <= config.quantum
      && config.quantum - s.pcbs[p].quantum == s.account.charged[p]
  }

  ghost predicate Inv(s: State, config: Config, initial: seq<nat>, hand: multiset<nat>, slots: int) {
    && Placed(s, hand) && StatesMatch(s) && SemaphoresCover(s) && DegreeKept(s, slots)
    && WaitsMatch(s) && ChannelsMatch(s) && InstancesKept(s, initial) && QuantumKept(s, config)
    && (s.queues.readyPlus != [] ==> config.vrr)
  }

  // The routines

  lemma InHand(s: State, hand: multiset<nat>, p: nat)
    requires Placed(s, hand) && p in hand
    ensures p in s.pcbs && hand[p] == 1 && p !in InQueues(s.queues)
  {
    assert multiset(s.pcbs.Keys)[p] == (InQueues(s.queues) + hand)[p];
  }

  // What an unchanged part of the state keeps

  lemma WaitsFrame(s: State, t: State)
    requires WaitsMatch(s) && t.queues.blocked == s.queues.blocked && t.account.place == s.account.place
    requires t.devices == s.devices && |t.resources| == |s.resources|
    requires forall r | 0 <= r < |s.resources| :: t.resources[r].waiting == s.resources[r].waiting
    ensures WaitsMatch(t)
  {
    assert forall x: Place :: Exists(s, x) ==> Exists(t, x);
  }

  lemma InstancesFrame(s: State, t: State, initial: seq<nat>)
    requires InstancesKept(s, initial) && t.account.orphans == s.account.orphans && t.next == s.next
    requires |t.resources| == |s.resources|
    requires forall r | 0 <= r < |s.resources| :: t.resources[r].instances == s.resources[r].instances
    requires t.pcbs.Keys == s.pcbs.Keys && forall q <- s.pcbs :: t.pcbs[q].held == s.pcbs[q].held
    requires forall q <- t.queues.newcomers :: q in s.queues.newcomers
    ensures InstancesKept(t, initial)
  {
    forall r | 0 <= r < |initial|
      ensures Holdings(t.pcbs, t.next, r) == Holdings(s.pcbs, s.next, r)
    {
      HoldingsSame(t.pcbs, s.pcbs, s.next, r);
    }
  }

  /** `p` is in no queue. */
  ghost predicate Out(q: Queues, p: nat) {
    p !in q.newcomers && p !in q.ready && p !in q.readyPlus && p !in q.exec && p !in q.blocked && p !in q.exit
  }

  lemma InHandIsOut(s: State, hand: multiset<nat>, p: nat)
    requires Placed(s, hand) && p in hand
    ensures p in s.pcbs && Out(s.queues, p)
  {
    InHand(s, hand, p);
  }

  // proceso_listo

  lemma ReadyPlaced(s: State, hand: multiset<nat>, slots: int, p: nat, plus: bool)
    requires Placed(s, hand) && StatesMatch(s) && SemaphoresCover(s) && DegreeKept(s, slots) && p in hand
    ensures p in s.pcbs
    ensures var t := MakeReady(s, p, plus);
            Placed(t, hand - multiset{p}) && StatesMatch(t) && SemaphoresCover(t) && DegreeKept(t, slots - 1)
  {
    InHandIsOut(s, hand, p);
  }

  lemma MakeReadyKeeps(s: State, config: Config, initial: seq<nat>, hand: multiset<nat>, slots: int, p: nat, plus: bool)
    requires Inv(s, config, initial, hand, slots) && p in hand && (plus ==> config.vrr)
    ensures p in s.pcbs
    ensures Inv(MakeReady(s, p, plus), config, initial, hand - multiset{p}, slots - 1)
  {
    ReadyPlaced(s, hand, slots, p, plus);
    var t := MakeReady(s, p, plus);
    WaitsFrame(s, t);
    InstancesFrame(s, t, initial);
  }

  // desbloquear_proceso

  lemma ChargeKeeps(s: State, config: Config, initial: seq<nat>, hand: multiset<nat>, slots: int, p: nat)
    requires Inv(s, config, initial, hand, slots) && p in hand
    requires p in s.pcbs ==> s.pcbs[p].used < s.pcbs[p].quantum
    ensures p in s.pcbs && p in s.account.charged
    ensures Inv(Charge(s, p), config, initial, hand, slots)
  {
    InHandIsOut(s, hand, p);
    var t := Charge(s, p);
    assert t.pcbs.Keys == s.pcbs.Keys;
    WaitsFrame(s, t);
    InstancesFrame(s, t, initial);
  }

  lemma ResumeKeeps(s: State, config: Config, initial: seq<nat>, hand: multiset<nat>, slots: int, p: nat)
    requires Inv(s, config, initial, hand, slots) && p in hand
    ensures p in s.pcbs && p in s.account.charged
    ensures Inv(Resume(s, config, p), config, initial, hand - multiset{p}, slots - 1)
  {
    InHandIsOut(s, hand, p);
    if config.vrr && s.pcbs[p].used < s.pcbs[p].quantum {
      ChargeKeeps(s, config, initial, hand, slots, p);
      MakeReadyKeeps(Charge(s, p), config, initial, hand, slots, p, true);
    } else {
      MakeReadyKeeps(s, config, initial, hand, slots, p, false);
    }
  }

  /** The head of a queue of waiting processes leaves both queues and is in hand. */
  ghost function Unlisted(s: State, p: nat): State {
    s.(queues := s.queues.(blocked := RemoveFirst(s.queues.blocked, p)))
  }

  lemma BlockedOnce(s: State, hand: multiset<nat>, p: nat)
    requires Placed(s, hand) && p in s.queues.blocked
    ensures multiset(s.queues.blocked)[p] == 1 && p in s.pcbs && p !in RemoveFirst(s.queues.blocked, p)
  {
    var rest := RemoveFirst(s.queues.blocked, p);
    assert p in multiset(s.queues.blocked);
    assert multiset(s.pcbs.Keys)[p] == (InQueues(s.queues) + hand)[p];
    assert p in rest <==> p in multiset(rest);
  }

  lemma UnlistedPlaced(s: State, hand: multiset<nat>, slots: int, p: nat)
    requires Placed(s, hand) && StatesMatch(s) && SemaphoresCover(s) && DegreeKept(s, slots) && p in s.queues.blocked
    ensures var t := Unlisted(s, p);
            Placed(t, hand + multiset{p}) && StatesMatch(t) && SemaphoresCover(t) && DegreeKept(t, slots + 1)
  {
    var rest := RemoveFirst(s.queues.blocked, p);
    assert p in multiset(s.queues.blocked);
    RemoveFirstIn(s.queues.blocked, p);
  }

  /** Taking the head of one place's queue off both queues keeps them matched. */
  lemma UnlistedAt(s: State, p: nat, x: Place, y: Place)
    requires WaitsMatch(s) && p in s.queues.blocked && At(s.queues.blocked, s.account.place, x) != []
    requires p == At(s.queues.blocked, s.account.place, x)[0]
    ensures At(RemoveFirst(s.queues.blocked, p), s.account.place, y) ==
            if y == x then At(s.queues.blocked, s.account.place, x)[1..] else At(s.queues.blocked, s.account.place, y)
  {
    var q := At(s.queues.blocked, s.account.place, x);
    AtRemove(s.queues.blocked, p, s.account.place, y);
    assert q == [p] + q[1..];
    RemoveFromCons(p, q[1..], p);
  }

  ghost function WaiterPopped(s: State, r: nat): State
    requires r < |s.resources| && s.resources[r].waiting != []
  {
    var res := s.resources[r];
    Unlisted(s.(resources := s.resources[r := res.(waiting := res.waiting[1..])]), res.waiting[0])
  }

  lemma WaiterWaits(s: State, config: Config, initial: seq<nat>, hand: multiset<nat>, slots: int, r: nat)
    requires Inv(s, config, initial, hand, slots) && r < |s.resources| && s.resources[r].waiting != []
    ensures var p := s.resources[r].waiting[0];
            p in s.queues.blocked && p in s.pcbs && p in s.account.charged
  {
    var p := s.resources[r].waiting[0];
    assert p in At(s.queues.blocked, s.account.place, AtResource(r));
    BlockedOnce(s, hand, p);
  }

  lemma WaiterPoppedWaits(s: State, r: nat)
    requires WaitsMatch(s) && r < |s.resources| && s.resources[r].waiting != []
    ensures WaitsMatch(WaiterPopped(s, r))
  {
    var p, t := s.resources[r].waiting[0], WaiterPopped(s, r);
    assert p in At(s.queues.blocked, s.account.place, AtResource(r));
    forall k | 0 <= k < |t.resources|
      ensures t.resources[k].waiting == At(t.queues.blocked, t.account.place, AtResource(k))
    {
      UnlistedAt(s, p, AtResource(r), AtResource(k));
    }
    forall d | 0 <= d < |t.devices|
      ensures t.devices[d].queue == At(t.queues.blocked, t.account.place, AtDevice(d))
    {
      UnlistedAt(s, p, AtResource(r), AtDevice(d));
    }
    RemoveFirstIn(s.queues.blocked, p);
    forall q | q in t.queues.blocked
      ensures q in t.account.place && Exists(t, t.account.place[q])
    {
      assert q in s.queues.blocked;
    }
  }

  lemma WaiterPoppedKeeps(s: State, config: Config, initial: seq<nat>, hand: multiset<nat>, slots: int, r: nat)
    requires Inv(s, config, initial, hand, slots) && r < |s.resources| && s.resources[r].waiting != []
    ensures Inv(WaiterPopped(s, r), config, initial, hand + multiset{s.resources[r].waiting[0]}, slots + 1)
  {
    WaiterWaits(s, config, initial, hand, slots, r);
    UnlistedPlaced(s, hand, slots, s.resources[r].waiting[0]);
    WaiterPoppedWaits(s, r);
    InstancesFrame(s, WaiterPopped(s, r), initial);
  }

  /** The second half of liberar_recurso. */
  lemma WakeKeeps(s: State, config: Config, initial: seq<nat>, hand: multiset<nat>, slots: int, r: nat)
    requires Inv(s, config, initial, hand, slots) && r < |s.resources|
    ensures Inv(Wake(s, config, r), config, initial, hand, slots)
  {
    var res := s.resources[r];
    if res.instances > 0 && res.waiting != [] {
      WaiterWaits(s, config, initial, hand, slots, r);
      WaiterPoppedKeeps(s, config, initial, hand, slots, r);
      ResumedKeeps(WaiterPopped(s, r), config, initial, hand, slots, res.waiting[0]);
    }
  }

  lemma ResumedKeeps(t: State, config: Config, initial: seq<nat>, hand: multiset<nat>, slots: int, p: nat)
    requires Inv(t, config, initial, hand + multiset{p}, slots + 1)
    ensures p in t.pcbs && p in t.account.charged && Inv(Resume(t, config, p), config, initial, hand, slots)
  {
    ResumeKeeps(t, config, initial, hand + multiset{p}, slots + 1, p);
    assert hand + multiset{p} - multiset{p} == hand;
  }

  // Resources

  lemma TakeKeeps(s: State, config: Config, initial: seq<nat>, hand: multiset<nat>, slots: int, p: nat, r: nat)
    requires Inv(s, config, initial, hand, slots) && p in hand && r < |s.resources| && s.resources[r].instances > 0
    ensures p in s.pcbs && Inv(Take(s, p, r), config, initial, hand, slots)
  {
    InHandIsOut(s, hand, p);
    var t := Take(s, p, r);
    assert t.pcbs.Keys == s.pcbs.Keys;
    WaitsFrame(s, t);
    TakeInstances(s, initial, p, r);
  }

  lemma TakeInstances(s: State, initial: seq<nat>, p: nat, r: nat)
    requires InstancesKept(s, initial) && p in s.pcbs && p < s.next && p !in s.queues.newcomers
    requires r < |s.resources| && s.resources[r].instances > 0
    ensures InstancesKept(Take(s, p, r), initial)
  {
    var t := Take(s, p, r);
    forall k | 0 <= k < |initial|
      ensures t.resources[k].instances + Holdings(t.pcbs, t.next, k) == initial[k] + t.account.orphans[k]
    {
      HoldingsUpdate(s.pcbs, s.next, p, t.pcbs[p], k);
    }
    forall q | q in t.pcbs
      ensures HoldsKnown(t, q)
    {
      assert HoldsKnown(s, q);
    }
  }

  lemma GiveBackHoldings(s: State, p: nat, r: nat, k: nat)
    requires p in s.pcbs && p < s.next && r < |s.resources| == |s.account.orphans|
    ensures Holdings(GiveBack(s, p, r).pcbs, s.next, k) + (if k == r && r in s.pcbs[p].held then 1 else 0) ==
            Holdings(s.pcbs, s.next, k)
  {
    var t := GiveBack(s, p, r);
    HoldingsUpdate(s.pcbs, s.next, p, t.pcbs[p], k);
    assert r in s.pcbs[p].held <==> multiset(s.pcbs[p].held)[r] > 0;
  }

  lemma GiveBackKnown(s: State, p: nat, r: nat)
    requires p in s.pcbs && r < |s.resources| == |s.account.orphans| && forall q <- s.pcbs :: HoldsKnown(s, q)
    ensures var t := GiveBack(s, p, r); forall q <- t.pcbs :: HoldsKnown(t, q)
  {
    var t := GiveBack(s, p, r);
    RemoveKeepsKnown(s.pcbs[p].held, r, |s.resources|);
    forall q | q in t.pcbs
      ensures HoldsKnown(t, q)
    {
      assert HoldsKnown(s, q);
    }
  }

  lemma GiveBackInstances(s: State, initial: seq<nat>, p: nat, r: nat)
    requires InstancesKept(s, initial) && p in s.pcbs && p < s.next && r < |s.resources|
    ensures InstancesKept(GiveBack(s, p, r), initial)
  {
    var t := GiveBack(s, p, r);
    forall k | 0 <= k < |initial|
      ensures 0 <= t.resources[k].instances
      ensures t.resources[k].instances + Holdings(t.pcbs, t.next, k) == initial[k] + t.account.orphans[k]
    {
      GiveBackHoldings(s, p, r, k);
    }
    GiveBackKnown(s, p, r);
  }

  lemma GiveBackKeeps(s: State, config: Config, initial: seq<nat>, hand: multiset<nat>, slots: int, p: nat, r: nat)
    requires Inv(s, config, initial, hand, slots) && p in s.pcbs && r < |s.resources|
    ensures Inv(GiveBack(s, p, r), config, initial, hand, slots)
  {
    var t := GiveBack(s, p, r);
    assert t.pcbs.Keys == s.pcbs.Keys;
    WaitsFrame(s, t);
    GiveBackInstances(s, initial, p, r);
  }

  lemma ReleaseKeeps(s: State, config: Config, initial: seq<nat>, hand: multiset<nat>, slots: int, p: nat, r: nat)
    requires Inv(s, config, initial, hand, slots) && p in s.pcbs && r < |s.resources|
    ensures Inv(Release(s, config, p, r), config, initial, hand, slots)
  {
    GiveBackKeeps(s, config, initial, hand, slots, p, r);
    WakeKeeps(GiveBack(s, p, r), config, initial, hand, slots, r);
  }

  lemma {:induction false} ReleaseFromKeeps(s: State, config: Config, initial: seq<nat>, hand: multiset<nat>,
          slots: int, p: nat, i: nat)
    requires Inv(s, config, initial, hand, slots) && p in s.pcbs
    ensures Inv(ReleaseFrom(s, config, p, i), config, initial, hand, slots)
    decreases |s.pcbs[p].held|
  {
    if i < |s.pcbs[p].held| {
      var r := s.pcbs[p].held[i];
      assert HoldsKnown(s, p) && r in s.pcbs[p].held;
      ReleaseKeeps(s, config, initial, hand, slots, p, r);
      ReleaseFromKeeps(Release(s, config, p, r), config, initial, hand, slots, p, i + 1);
    }
  }

  // bloquear_proceso

  lemma BlockPlaced(s: State, hand: multiset<nat>, slots: int, p: nat, x: Place)
    requires Placed(s, hand) && StatesMatch(s) && SemaphoresCover(s) && DegreeKept(s, slots) && p in hand
    ensures p in s.pcbs
    ensures var t := BlockAt(s, p, x);
            Placed(t, hand - multiset{p}) && StatesMatch(t) && SemaphoresCover(t) && DegreeKept(t, slots - 1)
  {
    InHandIsOut(s, hand, p);
    assert multiset(s.queues.blocked + [p]) == multiset(s.queues.blocked) + multiset{p};
    assert BlockAt(s, p, x).pcbs.Keys == s.pcbs.Keys;
  }

  /** The newly blocked process is the last of its place's queue, and of no other. */
  lemma BlockedLast(s: State, p: nat, x: Place, y: Place)
    requires p !in s.queues.blocked
    ensures At(s.queues.blocked + [p], s.account.place[p := x], y) ==
            At(s.queues.blocked, s.account.place, y) + (if y == x then [p] else [])
  {
    AtAppend(s.queues.blocked, p, s.account.place[p := x], y);
    AtElsewhere(s.queues.blocked, p, s.account.place, x, y);
  }

  lemma WaitWaits(s: State, p: nat, r: nat)
    requires WaitsMatch(s) && p in s.pcbs && p !in s.queues.blocked && r < |s.resources| &&
            s.resources[r].instances <= 0
    ensures WaitsMatch(WaitOn(s, p, r))
  {
    var t := WaitOn(s, p, r);
    forall k | 0 <= k < |t.resources|
      ensures t.resources[k].waiting == At(t.queues.blocked, t.account.place, AtResource(k))
    {
      BlockedLast(s, p, AtResource(r), AtResource(k));
    }
    forall d | 0 <= d < |t.devices|
      ensures t.devices[d].queue == At(t.queues.blocked, t.account.place, AtDevice(d))
    {
      BlockedLast(s, p, AtResource(r), AtDevice(d));
    }
  }

  /** Blocking touches neither holdings nor quanta. */
  lemma BlockFrame(s: State, config: Config, initial: seq<nat>, p: nat, x: Place)
    requires InstancesKept(s, initial) && QuantumKept(s, config) && p in s.pcbs
    ensures InstancesKept(BlockAt(s, p, x), initial) && QuantumKept(BlockAt(s, p, x), config)
  {
    InstancesFrame(s, BlockAt(s, p, x), initial);
  }

  /** WAIT with no instance left. */
  lemma WaitBlocks(s: State, config: Config, initial: seq<nat>, hand: multiset<nat>, slots: int, p: nat, r: nat)
    requires Inv(s, config, initial, hand, slots) && p in hand && r < |s.resources| && s.resources[r].instances <= 0
    ensures p in s.pcbs && Inv(WaitOn(s, p, r), config, initial, hand - multiset{p}, slots - 1)
  {
    InHandIsOut(s, hand, p);
    BlockPlaced(s, hand, slots, p, AtResource(r));
    BlockFrame(s, config, initial, p, AtResource(r));
    WaitWaits(s, p, r);
    InstancesFrame(BlockAt(s, p, AtResource(r)), WaitOn(s, p, r), initial);
  }

  lemma WaitOnKeeps(s: State, config: Config, initial: seq<nat>, hand: multiset<nat>, slots: int, p: nat, r: nat)
    requires Inv(s, config, initial, hand, slots) && p in hand && r < |s.resources|
    ensures p in s.pcbs && Inv(WaitOn(s, p, r), config, initial, hand - multiset{p}, slots - 1)
  {
    if s.resources[r].instances > 0 {
      TakeKeeps(s, config, initial, hand, slots, p, r);
      MakeReadyKeeps(Take(s, p, r), config, initial, hand, slots, p, false);
    } else {
      WaitBlocks(s, config, initial, hand, slots, p, r);
    }
  }

  lemma SendWaits(s: State, p: nat, d: nat)
    requires WaitsMatch(s) && p in s.pcbs && p !in s.queues.blocked && d < |s.devices|
    ensures WaitsMatch(SendTo(s, p, d))
  {
    var t := SendTo(s, p, d);
    forall k | 0 <= k < |t.resources|
      ensures t.resources[k].waiting == At(t.queues.blocked, t.account.place, AtResource(k))
    {
      BlockedLast(s, p, AtDevice(d), AtResource(k));
    }
    forall k | 0 <= k < |t.devices|
      ensures t.devices[k].queue == At(t.queues.blocked, t.account.place, AtDevice(k))
    {
      BlockedLast(s, p, AtDevice(d), AtDevice(k));
    }
  }

  lemma SendChannels(s: State, p: nat, d: nat)
    requires ChannelsMatch(s) && p in s.pcbs && d < |s.devices|
    ensures ChannelsMatch(SendTo(s, p, d))
  {
    var dev := s.devices[d];
    assert dev.queue + [p] == dev.done + dev.serving + (dev.requests + [p]);
  }

  /** bloquear_procesosIO and the request: the interface's queue and its channels grow together. */
  lemma SendToKeeps(s: State, config: Config, initial: seq<nat>, hand: multiset<nat>, slots: int, p: nat, d: nat)
    requires Inv(s, config, initial, hand, slots) && p in hand && d < |s.devices|
    ensures p in s.pcbs && Inv(SendTo(s, p, d), config, initial, hand - multiset{p}, slots - 1)
  {
    InHandIsOut(s, hand, p);
    BlockPlaced(s, hand, slots, p, AtDevice(d));
    BlockFrame(s, config, initial, p, AtDevice(d));
    SendWaits(s, p, d);
    InstancesFrame(BlockAt(s, p, AtDevice(d)), SendTo(s, p, d), initial);
    SendChannels(s, p, d);
  }

  // finalizar_proceso

  lemma ExitPlaced(s: State, hand: multiset<nat>, slots: int, p: nat)
    requires Placed(s, hand) && StatesMatch(s) && SemaphoresCover(s) && DegreeKept(s, slots) && p in hand
    ensures p in s.pcbs
    ensures var t := Exited(s, p);
            Placed(t, hand - multiset{p}) && StatesMatch(t) && SemaphoresCover(t) && DegreeKept(t, slots)
  {
    InHandIsOut(s, hand, p);
    assert multiset(s.queues.exit + [p]) == multiset(s.queues.exit) + multiset{p};
    assert Exited(s, p).pcbs.Keys == s.pcbs.Keys;
  }

  lemma ExitKeeps(s: State, config: Config, initial: seq<nat>, hand: multiset<nat>, slots: int, p: nat)
    requires Inv(s, config, initial, hand, slots) && p in hand
    ensures p in s.pcbs && Inv(Exited(s, p), config, initial, hand - multiset{p}, slots)
  {
    ExitPlaced(s, hand, slots, p);
    WaitsFrame(s, Exited(s, p));
    InstancesFrame(s, Exited(s, p), initial);
  }

  lemma PostKeeps(s: State, config: Config, initial: seq<nat>, hand: multiset<nat>, slots: int)
    requires Inv(s, config, initial, hand, slots)
    ensures Inv(Posted(s), config, initial, hand, slots - 1)
  {
    WaitsFrame(s, Posted(s));
    InstancesFrame(s, Posted(s), initial);
  }

  /** Finishing gives back the process's slot. */
  lemma FinishKeeps(s: State, config: Config, initial: seq<nat>, hand: multiset<nat>, slots: int, p: nat)
    requires Inv(s, config, initial, hand, slots) && p in hand
    ensures p in s.pcbs && HoldsKnown(s, p) && |s.resources| == |s.account.orphans|
    ensures Inv(Finish(s, config, p), config, initial, hand - multiset{p}, slots - 1)
  {
    InHandIsOut(s, hand, p);
    ExitKeeps(s, config, initial, hand, slots, p);
    ReleaseFromKeeps(Exited(s, p), config, initial, hand - multiset{p}, slots, p, 0);
    PostKeeps(ReleaseFrom(Exited(s, p), config, p, 0), config, initial, hand - multiset{p}, slots);
  }
}
