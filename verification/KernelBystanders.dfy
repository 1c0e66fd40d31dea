/**
 What a step does to the processes that it is not about: nothing, unless one of them is woken, and
 then it goes where its quantum says (kernel/src/planificador.c:477-492, 557-585, 679-696).
 */
module KernelBystanders {
  import opened Kernel
  import opened KernelInvariant
  import opened KernelRuns
  import opened KernelOrder

  /** VRR, and the process has not used up its quantum. */
  predicate LeftOver(config: Config, pcb: Pcb) {
    config.vrr && pcb.used < pcb.quantum
  }

  /** A process that has been woken: READY, and under VRR with what it has left of its quantum, if anything. */
  function AfterWait(config: Config, pcb: Pcb): Pcb {
    pcb.(state := LISTO, quantum := if LeftOver(config, pcb) then pcb.quantum - pcb.used else pcb.quantum)
  }

  /** The queues once `p` has been woken: the last of the priority queue if it has quantum left, else of READY. */
  function QueuesAfter(q: Queues, config: Config, p: nat, pcb: Pcb): Queues {
    var rest := q.(blocked := RemoveFirst(q.blocked, p));
    if LeftOver(config, pcb) then rest.(readyPlus := q.readyPlus + [p]) else rest.(ready := q.ready + [p])
  }

  /** Nobody is blocked twice. */
  ghost predicate Once(s: State) {
    forall q :: multiset(s.queues.blocked)[q] <= 1
  }

  lemma PlacedIsOnce(s: State, hand: multiset<nat>)
    requires Placed(s, hand)
    ensures Once(s)
  {
    forall q
      ensures multiset(s.queues.blocked)[q] <= 1
    {
      assert multiset(s.pcbs.Keys)[q] == (InQueues(s.queues) + hand)[q];
    }
  }

  /** desbloquear_proceso, in full. */
  lemma UnblockWakes(s: State, config: Config, p: nat)
    requires p in s.queues.blocked && p in s.pcbs && p in s.account.charged
    ensures var t := Unblock(s, config, p);
            && t.queues == QueuesAfter(s.queues, config, p, s.pcbs[p])
            && t.pcbs == s.pcbs[p := AfterWait(config, s.pcbs[p])]
            && t.resources == s.resources && t.devices == s.devices
            && t.sems == s.sems.(ready := s.sems.ready + 1)
  {
  }

  /** The second half of liberar_recurso, when somebody waits. */
  lemma WakeWakes(s: State, config: Config, r: nat, w: nat)
    requires r < |s.resources| && s.resources[r].instances > 0 && s.resources[r].waiting != []
    requires w == s.resources[r].waiting[0] && w in s.queues.blocked && w in s.pcbs && w in s.account.charged
    ensures var t := Wake(s, config, r);
            && t.queues == QueuesAfter(s.queues, config, w, s.pcbs[w])
            && t.pcbs == s.pcbs[w := AfterWait(config, s.pcbs[w])]
            && t.resources == s.resources[r := s.resources[r].(waiting := s.resources[r].waiting[1..])]
            && t.devices == s.devices && t.sems == s.sems.(ready := s.sems.ready + 1)
  {
    var res := s.resources[r];
    UnblockWakes(s.(resources := s.resources[r := res.(waiting := res.waiting[1..])]), config, w);
  }

  function WithoutOne(pcb: Pcb, r: nat): Pcb {
    pcb.(held := RemoveFirst(pcb.held, r))
  }

  lemma InstanceAdded(s: State, r: nat, orphan: nat)
    requires r < |s.resources| == |s.account.orphans|
    ensures var a := AddInstance(s, r, orphan);
            && a.queues == s.queues && a.account.charged == s.account.charged && a.pcbs == s.pcbs
            && a.resources == s.resources[r := Resource(s.resources[r].instances + 1, s.resources[r].waiting)]
  {
  }

  lemma HoldingDropped(s: State, p: nat, r: nat, w: nat)
    requires p in s.pcbs && w in s.pcbs
    ensures var d := DropHolding(s, p, r);
            && d.queues == s.queues && d.account == s.account && d.resources == s.resources
            && d.pcbs.Keys == s.pcbs.Keys && d.pcbs[w] == (if w == p then WithoutOne(s.pcbs[w], r) else s.pcbs[w])
  {
  }

  lemma GivenBack(s: State, p: nat, r: nat, w: nat)
    requires p in s.pcbs && r < |s.resources| == |s.account.orphans| && w in s.pcbs
    ensures var g := GiveBack(s, p, r);
            && g.queues == s.queues && g.account.charged == s.account.charged && g.pcbs.Keys == s.pcbs.Keys
            && g.pcbs[w] == (if w == p then WithoutOne(s.pcbs[w], r) else s.pcbs[w])
            && g.resources == s.resources[r := Resource(s.resources[r].instances + 1, s.resources[r].waiting)]
  {
    var orphan := if r in s.pcbs[p].held then 0 else 1;
    InstanceAdded(s, r, orphan);
    HoldingDropped(AddInstance(s, r, orphan), p, r, w);
  }

  /** liberar_recurso, when somebody waits. */
  lemma ReleaseWakes(s: State, config: Config, p: nat, r: nat, w: nat)
    requires p in s.pcbs && r < |s.resources| == |s.account.orphans| && 0 <= s.resources[r].instances
    requires s.resources[r].waiting != [] && w == s.resources[r].waiting[0]
    requires w in s.queues.blocked && w in s.pcbs && w in s.account.charged
    ensures var t := Release(s, config, p, r);
            && w in t.pcbs && t.pcbs[w] == AfterWait(config, if w == p then WithoutOne(s.pcbs[w], r) else s.pcbs[w])
            && t.queues == QueuesAfter(s.queues, config, w, s.pcbs[w])
            && t.resources == s.resources[r := Resource(s.resources[r].instances + 1, s.resources[r].waiting[1..])]
  {
    var g := GiveBack(s, p, r);
    GivenBack(s, p, r, w);
    WakeWakes(g, config, r, w);
  }

  /** ... and when nobody does. */
  lemma ReleaseWakesNobody(s: State, config: Config, p: nat, r: nat)
    requires p in s.pcbs && r < |s.resources| == |s.account.orphans| && s.resources[r].waiting == []
    ensures var t := Release(s, config, p, r);
            && t.queues == s.queues
            && t.resources == s.resources[r := Resource(s.resources[r].instances + 1, [])]
  {
    GivenBack(s, p, r, p);
    WakesNobody(GiveBack(s, p, r), config, r);
  }

  lemma WakesNobody(s: State, config: Config, r: nat)
    requires r < |s.resources| && s.resources[r].waiting == []
    ensures Wake(s, config, r) == s
  {
  }

  /** `q` is as it was, or it was blocked and has been woken. */
  ghost predicate Bystander(s: State, t: State, config: Config, q: nat)
    requires q in s.pcbs
  {
    && q in t.pcbs
    && if q in s.queues.blocked && q !in t.queues.blocked then
         && t.pcbs[q] == AfterWait(config, s.pcbs[q])
         && (if LeftOver(config, s.pcbs[q]) then q in t.queues.readyPlus else q in t.queues.ready)
       else
         t.pcbs[q] == s.pcbs[q] && (q in t.queues.blocked ==> q in s.queues.blocked)
  }

  /** Everyone but these is a bystander. */
  ghost predicate OthersStand(s: State, t: State, config: Config, about: set<nat>) {
    forall q <- s.pcbs :: q !in about ==> Bystander(s, t, config, q)
  }

  lemma Chain(s: State, t: State, u: State, config: Config, about: set<nat>)
    requires OthersStand(s, t, config, about) && OthersStand(t, u, config, about) && OnlyAppends(t, u)
    ensures OthersStand(s, u, config, about)
  {
    forall q | q in s.pcbs && q !in about
      ensures Bystander(s, u, config, q)
    {
      assert Bystander(s, t, config, q) && Bystander(t, u, config, q);
    }
  }

  lemma UnblockStands(s: State, config: Config, p: nat)
    requires Once(s)
    ensures OthersStand(s, Unblock(s, config, p), config, {}) && Once(Unblock(s, config, p))
  {
    if p in s.queues.blocked && p in s.pcbs && p in s.account.charged {
      UnblockWakes(s, config, p);
      RemoveOnce(s.queues.blocked, p);
    }
  }

  lemma RemoveOnce(q: seq<nat>, p: nat)
    requires p in q && forall x :: multiset(q)[x] <= 1
    ensures forall x :: x in RemoveFirst(q, p) <==> x in q && x != p
    ensures forall x :: multiset(RemoveFirst(q, p))[x] <= 1
  {
    forall x
      ensures x in RemoveFirst(q, p) <==> x in q && x != p
    {
      assert x in RemoveFirst(q, p) <==> multiset(RemoveFirst(q, p))[x] > 0;
      assert x in q <==> multiset(q)[x] > 0;
      assert p in multiset(q);
    }
  }

  /** A change to the PCB of `p` only, with the blocked queue as it was. */
  lemma OnePcbStands(s: State, t: State, config: Config, p: nat)
    requires p in s.pcbs && t.queues.blocked == s.queues.blocked && t.pcbs.Keys == s.pcbs.Keys
    requires forall q | q in s.pcbs && q != p :: t.pcbs[q] == s.pcbs[q]
    ensures OthersStand(s, t, config, {p}) && (Once(s) ==> Once(t))
  {
  }

  lemma WakeStands(s: State, config: Config, r: nat)
    requires r < |s.resources| && Once(s)
    ensures OthersStand(s, Wake(s, config, r), config, {}) && Once(Wake(s, config, r))
  {
    var res := s.resources[r];
    if res.instances > 0 && res.waiting != [] {
      var u := s.(resources := s.resources[r := res.(waiting := res.waiting[1..])]);
      UnblockStands(u, config, res.waiting[0]);
      StandFrom(s, u, Unblock(u, config, res.waiting[0]), config, {});
    }
  }

  /** Resources do not matter to a bystander. */
  lemma StandFrom(s: State, u: State, t: State, config: Config, about: set<nat>)
    requires u.pcbs == s.pcbs && u.queues == s.queues && OthersStand(u, t, config, about)
    ensures OthersStand(s, t, config, about)
  {
    forall q | q in s.pcbs && q !in about
      ensures Bystander(s, t, config, q)
    {
      assert Bystander(u, t, config, q);
    }
  }

  lemma Fewer(s: State, t: State, config: Config, about: set<nat>)
    requires OthersStand(s, t, config, {})
    ensures OthersStand(s, t, config, about)
  {
  }

  lemma ReleaseStands(s: State, config: Config, p: nat, r: nat)
    requires p in s.pcbs && r < |s.resources| == |s.account.orphans| && Once(s)
    ensures OthersStand(s, Release(s, config, p, r), config, {p}) && Once(Release(s, config, p, r))
  {
    var g := GiveBack(s, p, r);
    assert g.queues == s.queues && g.pcbs == s.pcbs[p := g.pcbs[p]];
    OnePcbStands(s, g, config, p);
    WakeStands(g, config, r);
    WakeAppends(g, config, r);
    Fewer(g, Wake(g, config, r), config, {p});
    Chain(s, g, Wake(g, config, r), config, {p});
  }

  lemma {:induction false} ReleaseFromStands(s: State, config: Config, p: nat, i: nat)
    requires p in s.pcbs && |s.resources| == |s.account.orphans| && HoldsKnown(s, p) && Once(s)
    ensures OthersStand(s, ReleaseFrom(s, config, p, i), config, {p})
    decreases |s.pcbs[p].held|
  {
    if i < |s.pcbs[p].held| {
      var r := s.pcbs[p].held[i];
      assert r in s.pcbs[p].held;
      RemoveKeepsKnown(s.pcbs[p].held, r, |s.resources|);
      var t := Release(s, config, p, r);
      ReleaseStands(s, config, p, r);
      ReleaseFromStands(t, config, p, i + 1);
      ReleaseFromAppends(t, config, p, i + 1);
      Chain(s, t, ReleaseFrom(t, config, p, i + 1), config, {p});
    } else {
      OnePcbStands(s, s, config, p);
    }
  }

  /** The process goes to EXIT, and its holdings are walked. */
  lemma EndStands(s: State, config: Config, p: nat)
    requires p in s.pcbs && |s.resources| == |s.account.orphans| && HoldsKnown(s, p) && Once(s)
    ensures OthersStand(s, ReleaseFrom(Exited(s, p), config, p, 0), config, {p})
  {
    var e := Exited(s, p);
    OnePcbStands(s, e, config, p);
    ReleaseFromStands(e, config, p, 0);
    ReleaseFromAppends(e, config, p, 0);
    Chain(s, e, ReleaseFrom(e, config, p, 0), config, {p});
  }

  lemma FinishStands(s: State, config: Config, p: nat)
    requires p in s.pcbs && |s.resources| == |s.account.orphans| && HoldsKnown(s, p) && Once(s)
    ensures OthersStand(s, Finish(s, config, p), config, {p})
  {
    EndStands(s, config, p);
    PostedStands(s, ReleaseFrom(Exited(s, p), config, p, 0), config, {p});
  }

  lemma PostedStands(s: State, t: State, config: Config, about: set<nat>)
    requires OthersStand(s, t, config, about)
    ensures OthersStand(s, Posted(t), config, about)
  {
    forall q | q in s.pcbs && q !in about
      ensures Bystander(s, Posted(t), config, q)
    {
      assert Bystander(s, t, config, q);
    }
  }

  /** Only `p` has joined the blocked queue. */
  lemma BlockStands(s: State, t: State, config: Config, p: nat)
    requires p in s.pcbs && t.queues.blocked == s.queues.blocked + [p] && t.pcbs.Keys == s.pcbs.Keys
    requires forall q | q in s.pcbs && q != p :: t.pcbs[q] == s.pcbs[q]
    ensures OthersStand(s, t, config, {p})
  {
  }

  lemma SettleStands(s: State, config: Config, p: nat, reason: Reason)
    requires p in s.pcbs && |s.resources| == |s.account.orphans| && HoldsKnown(s, p) && Once(s)
    requires (reason.Wait? || reason.Signal?) ==> reason.r < |s.resources|
    ensures OthersStand(s, Settle(s, config, p, reason), config, {p})
  {
    var t := Settle(s, config, p, reason);
    match reason
    case EndOfQuantum => OnePcbStands(s, t, config, p);
    case Wait(r) =>
      if s.resources[r].instances > 0 {
        OnePcbStands(s, t, config, p);
      } else {
        BlockStands(s, t, config, p);
      }
    case Signal(r) => SignalStands(s, config, p, r);
    case Io(d, matches) =>
      if d < |s.devices| && matches {
        BlockStands(s, t, config, p);
      } else {
        FinishStands(s, config, p);
      }
    case Unknown => OnePcbStands(s, t, config, p);
    case Exit => FinishStands(s, config, p);
    case Interrupted => FinishStands(s, config, p);
    case OutOfMemory => FinishStands(s, config, p);
  }

  lemma SignalStands(s: State, config: Config, p: nat, r: nat)
    requires p in s.pcbs && r < |s.resources| == |s.account.orphans| && Once(s)
    ensures OthersStand(s, MakeReady(Release(s, config, p, r), p, false), config, {p})
  {
    var t := Release(s, config, p, r);
    ReleaseStands(s, config, p, r);
    OnePcbStands(t, MakeReady(t, p, false), config, p);
    Chain(s, t, MakeReady(t, p, false), config, {p});
  }

  lemma EvictStands(s: State, config: Config, used: nat, reason: Reason)
    requires Formed(s) && Possible(s, Evict(used, reason)) && Once(s)
    ensures OthersStand(s, Evicted(s, config, used, reason), config, {s.queues.exec[0]})
  {
    var p := s.queues.exec[0];
    var l := Leave(s, config, used);
    assert HoldsKnown(s, p);
    OnePcbStands(s, l, config, p);
    assert HoldsKnown(l, p);
    SettleStands(l, config, p, reason);
    SettleAppends(l, config, p, reason);
    Chain(s, l, Settle(l, config, p, reason), config, {p});
  }

  /** The process that a step is about. */
  ghost function About(s: State, config: Config, a: Action): set<nat> {
    match a
    case Evict(_, _) => if s.queues.exec == [] then {} else {s.queues.exec[0]}
    case Admit => if s.queues.newcomers == [] then {} else {s.queues.newcomers[0]}
    case Dispatch =>
      if config.vrr && s.queues.readyPlus != [] then {s.queues.readyPlus[0]}
      else if s.queues.ready != [] then {s.queues.ready[0]} else {}
    case KillNew(p) => {p}
    case KillReady(p) => {p}
    case _ => {}
  }

  lemma SimpleStands(s: State, t: State, config: Config, about: set<nat>)
    requires t.queues.blocked == s.queues.blocked
    requires forall q <- s.pcbs :: q in t.pcbs && (q !in about ==> t.pcbs[q] == s.pcbs[q])
    ensures OthersStand(s, t, config, about)
  {
  }

  lemma CompleteStands(s: State, config: Config, d: nat)
    requires d < |s.devices| && s.devices[d].done != [] && s.devices[d].queue != [] && Once(s)
    ensures OthersStand(s, Completed(s, config, d), config, {})
  {
    var dev := s.devices[d];
    var u := s.(devices := s.devices[d := dev.(done := dev.done[1..], queue := dev.queue[1..])]);
    UnblockStands(u, config, dev.done[0]);
    StandFrom(s, u, Unblock(u, config, dev.done[0]), config, {});
  }

  lemma KillStands(s: State, config: Config, a: Action)
    requires Formed(s) && Possible(s, a) && (a.KillNew? || a.KillReady?) && Once(s)
    ensures OthersStand(s, Next(s, config, a), config, {a.p})
  {
    var p := a.p;
    assert HoldsKnown(s, p);
    if a.KillNew? {
      EndStands(WithoutNew(s, p), config, p);
      UnlistedStands(s, WithoutNew(s, p), Next(s, config, a), config, {p});
    } else {
      FinishStands(WithoutReady(s, p), config, p);
      UnlistedStands(s, WithoutReady(s, p), Next(s, config, a), config, {p});
    }
  }

  lemma UnlistedStands(s: State, u: State, t: State, config: Config, about: set<nat>)
    requires u.pcbs == s.pcbs && u.queues.blocked == s.queues.blocked && OthersStand(u, t, config, about)
    ensures OthersStand(s, t, config, about)
  {
    forall q | q in s.pcbs && q !in about
      ensures Bystander(s, t, config, q)
    {
      assert Bystander(u, t, config, q);
    }
  }

  /**
   A step changes the PCB of the process that it is about, and of a blocked process only by waking it:
   to the priority queue with the rest of its quantum if VRR finds any, else to READY as it is.
   */
  lemma StepStands(s: State, config: Config, initial: seq<nat>, a: Action)
    requires Sound(s, config, initial) && Possible(s, a) && !Crashes(s, a)
    ensures Formed(s) && OthersStand(s, Next(s, config, a), config, About(s, config, a))
  {
    SoundIsFormed(s, config, initial);
    PlacedIsOnce(s, multiset{});
    var t := Next(s, config, a);
    match a
    case Evict(used, reason) => EvictStands(s, config, used, reason);
    case Complete(d) => CompleteStands(s, config, d);
    case KillNew(_) => KillStands(s, config, a);
    case KillReady(_) => KillStands(s, config, a);
    case _ => PlainStands(s, config, a);
  }

  lemma PlainStands(s: State, config: Config, a: Action)
    requires Formed(s) && Possible(s, a) && !Crashes(s, a) && s.next !in s.pcbs
    requires !a.Evict? && !a.Complete? && !a.KillNew? && !a.KillReady?
    ensures OthersStand(s, Next(s, config, a), config, About(s, config, a))
  {
    SimpleStands(s, Next(s, config, a), config, About(s, config, a));
  }

  // A process that waits for an interface

  lemma {:induction false} ReleaseFromDevices(s: State, config: Config, p: nat, i: nat)
    requires p in s.pcbs && |s.resources| == |s.account.orphans| && HoldsKnown(s, p)
    ensures ReleaseFrom(s, config, p, i).devices == s.devices
    decreases |s.pcbs[p].held|
  {
    if i < |s.pcbs[p].held| {
      var r := s.pcbs[p].held[i];
      assert r in s.pcbs[p].held;
      RemoveKeepsKnown(s.pcbs[p].held, r, |s.resources|);
      ReleaseFromDevices(Release(s, config, p, r), config, p, i + 1);
    }
  }

  lemma SettleDevices(s: State, config: Config, p: nat, reason: Reason, d: nat)
    requires p in s.pcbs && |s.resources| == |s.account.orphans| && HoldsKnown(s, p)
    requires ((reason.Wait? || reason.Signal?) ==> reason.r < |s.resources|) && d < |s.devices|
    ensures var t := Settle(s, config, p, reason);
            |t.devices| == |s.devices| && s.devices[d].queue <= t.devices[d].queue
  {
    match reason
    case Signal(r) =>
      assert Release(s, config, p, r).devices == s.devices;
    case Io(e, matches) =>
      if !(e < |s.devices| && matches) {
        ReleaseFromDevices(Exited(s, p), config, p, 0);
      }
    case Exit => ReleaseFromDevices(Exited(s, p), config, p, 0);
    case Interrupted => ReleaseFromDevices(Exited(s, p), config, p, 0);
    case OutOfMemory => ReleaseFromDevices(Exited(s, p), config, p, 0);
    case _ =>
  }

  /** The queue of an interface loses its head to an answer, and only grows otherwise. */
  lemma StepDevices(s: State, config: Config, a: Action, d: nat)
    requires Formed(s) && Possible(s, a) && !Crashes(s, a) && d < |s.devices|
    ensures var t := Next(s, config, a);
            && |t.devices| == |s.devices|
            && if a == Complete(d) then s.devices[d].queue != [] && t.devices[d].queue == s.devices[d].queue[1..]
               else s.devices[d].queue <= t.devices[d].queue
  {
    match a
    case Evict(used, reason) =>
      var p := s.queues.exec[0];
      assert HoldsKnown(s, p);
      assert HoldsKnown(Leave(s, config, used), p);
      SettleDevices(Leave(s, config, used), config, p, reason, d);
    case KillNew(p) =>
      assert HoldsKnown(s, p);
      ReleaseFromDevices(Exited(WithoutNew(s, p), p), config, p, 0);
    case KillReady(p) =>
      assert HoldsKnown(s, p);
      ReleaseFromDevices(Exited(WithoutReady(s, p), p), config, p, 0);
    case _ =>
  }

  /** The answer of `q`. */
  predicate Answers(s: State, a: Action, d: nat, q: nat) {
    a == Complete(d) && d < |s.devices| && s.devices[d].done != [] && s.devices[d].done[0] == q
  }

  /** `q` waits for interface `d`, with this PCB. */
  ghost predicate WaitsWith(s: State, d: nat, q: nat, pcb: Pcb) {
    d < |s.devices| && q in s.devices[d].queue && q in s.pcbs && s.pcbs[q] == pcb
  }

  lemma WaitersAreBlocked(s: State, d: nat, q: nat)
    requires WaitsMatch(s) && d < |s.devices| && q in s.devices[d].queue
    ensures q in s.queues.blocked
  {
    assert s.devices[d].queue == At(s.queues.blocked, s.account.place, AtDevice(d));
  }

  /** A blocked process is nobody that a step is about. */
  lemma BlockedNotAbout(s: State, config: Config, initial: seq<nat>, a: Action, q: nat)
    requires Sound(s, config, initial) && Possible(s, a) && q in s.queues.blocked
    ensures q !in About(s, config, a)
  {
    BlockedOnce(s, multiset{}, q);
    assert s.pcbs[q].state == BLOQUEADO;
  }

  lemma QueueStays(s: State, config: Config, initial: seq<nat>, a: Action, d: nat, q: nat)
    requires Sound(s, config, initial) && Formed(s) && Possible(s, a) && !Crashes(s, a)
    requires d < |s.devices| && q in s.devices[d].queue && !Answers(s, a, d, q)
    ensures var t := Next(s, config, a); d < |t.devices| && q in t.devices[d].queue
  {
    StepDevices(s, config, a, d);
    if a == Complete(d) {
      PoppedKeeps(s.devices[d], q);
    }
  }

  lemma PoppedKeeps(dev: Device, q: nat)
    requires KernelRuns.Carries(dev) && dev.done != [] && q in dev.queue && q != dev.done[0]
    ensures dev.queue != [] && q in dev.queue[1..]
  {
    HeadIsAnswer(dev);
    assert dev.queue == [dev.queue[0]] + dev.queue[1..];
  }

  /** Until its answer, a process that waits for an interface stays as it is, whatever happens. */
  lemma StaysWaiting(s: State, config: Config, initial: seq<nat>, a: Action, d: nat, q: nat, pcb: Pcb)
    requires Sound(s, config, initial) && Possible(s, a) && !Crashes(s, a) && 0 < config.quantum
    requires WaitsWith(s, d, q, pcb) && !Answers(s, a, d, q)
    ensures Formed(s) && WaitsWith(Next(s, config, a), d, q, pcb)
  {
    SoundIsFormed(s, config, initial);
    QueueStays(s, config, initial, a, d, q);
    StepKeeps(s, config, initial, a);
    StepStands(s, config, initial, a);
    WaitersAreBlocked(s, d, q);
    BlockedNotAbout(s, config, initial, a, q);
    StandsBlocked(s, Next(s, config, a), config, initial, About(s, config, a), d, q);
  }

  lemma StandsBlocked(s: State, t: State, config: Config, initial: seq<nat>, about: set<nat>, d: nat, q: nat)
    requires q in s.pcbs && OthersStand(s, t, config, about) && q !in about
    requires WaitsMatch(t) && d < |t.devices| && q in t.devices[d].queue
    ensures q in t.pcbs && t.pcbs[q] == s.pcbs[q]
  {
    WaitersAreBlocked(t, d, q);
    assert Bystander(s, t, config, q);
  }

  /** No step of the run answers `q`. */
  ghost predicate NotAnswered(s: State, config: Config, steps: seq<Action>, d: nat, q: nat)
    requires IsRun(s, config, steps)
    decreases |steps|
  {
    steps == [] || Crashes(s, steps[0]) ||
    (!Answers(s, steps[0], d, q) && NotAnswered(Next(s, config, steps[0]), config, steps[1..], d, q))
  }

  lemma {:induction false} RunStaysWaiting(s: State, config: Config, initial: seq<nat>, steps: seq<Action>, d: nat,
          q: nat, pcb: Pcb)
    requires Sound(s, config, initial) && 0 < config.quantum && IsRun(s, config, steps)
    requires WaitsWith(s, d, q, pcb) && NotAnswered(s, config, steps, d, q)
    ensures Sound(After(s, config, steps), config, initial) && WaitsWith(After(s, config, steps), d, q, pcb)
    decreases |steps|
  {
    if steps != [] && !Crashes(s, steps[0]) {
      StaysWaiting(s, config, initial, steps[0], d, q, pcb);
      StepKeeps(s, config, initial, steps[0]);
      RunStaysWaiting(Next(s, config, steps[0]), config, initial, steps[1..], d, q, pcb);
    }
  }
}
