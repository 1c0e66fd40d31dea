/**
 The steps of the kernel's threads, of the console and of the interfaces, and what holds after any
 run of them (kernel/src/planificador.c, kernel/src/comunicaciones.c, kernel/src/consola.c).
 */
module KernelRuns {
  import opened Kernel
  import opened KernelInvariant

  datatype Action =
    | Create                              // crear_proceso
    | TakeNew                             // the long-term thread gets past semNew
    | Admit                               // ... and past semMultiprogramacion
    | Dispatch                            // the short-term thread gets past semReady
    | Evict(used: nat, reason: Reason)    // the CPU returns the process, after `used` milliseconds
    | Serve(d: nat)                       // an interface takes its next request
    | Answer(d: nat)                      // ... and answers it
    | Complete(d: nat)                    // the kernel handles the answer
    | KillNew(p: nat)                     // FINALIZAR_PROCESO on a process in NEW
    | KillReady(p: nat)                   // ... in READY
    | SetDegree(n: int)                   // MULTIPROGRAMACION
    | Lower                               // ... gets one of the places it waits for

  /** What each step waits for, or needs; the console does one thing at a time. */
  predicate Possible(s: State, a: Action) {
    match a
    case Create => s.sems.pending == 0
    case TakeNew => 0 < s.sems.newcomers && !s.sems.admitting
    case Admit => s.sems.admitting && 0 < s.sems.multi
    case Dispatch => 0 < s.sems.ready && s.queues.exec == []
    case Evict(_, reason) =>
      && s.queues.exec != [] && !reason.Unknown?
      && ((reason.Wait? || reason.Signal?) ==> reason.r < |s.resources|)
    case Serve(d) => d < |s.devices| && s.devices[d].serving == [] && s.devices[d].requests != []
    case Answer(d) => d < |s.devices| && s.devices[d].serving != []
    case Complete(d) => d < |s.devices| && s.devices[d].done != []
    case KillNew(p) => s.sems.pending == 0 && p in s.queues.newcomers
    case KillReady(p) => s.sems.pending == 0 && p in s.queues.ready
    case SetDegree(_) => s.sems.pending == 0
    case Lower => 0 < s.sems.pending && 0 < s.sems.multi
  }

  /** NEW is not looked at again after the second wait: the kernel ends where it takes the head of an empty list. */
  predicate Crashes(s: State, a: Action) {
    a.Admit? && s.queues.newcomers == []
  }

  /** Every process in a queue has a PCB. */
  ghost predicate Known(s: State) {
    && (forall p <- s.queues.newcomers :: p in s.pcbs)
    && (forall p <- s.queues.ready :: p in s.pcbs)
    && (forall p <- s.queues.readyPlus :: p in s.pcbs)
    && (forall p <- s.queues.exec :: p in s.pcbs)
  }

  /** What makes the routines defined. */
  ghost predicate Formed(s: State) {
    && Known(s)
    && |s.resources| == |s.account.orphans|
    && (forall p <- s.pcbs :: HoldsKnown(s, p))
    && (forall d <- s.devices :: d.done != [] ==> d.queue != [])
  }

  function Created(s: State, config: Config): State {
    var p, q, a := s.next, s.queues, s.account;
    WithPcb(s, p, Pcb(NUEVO, config.quantum, 0, [])).
      (next := p + 1, queues := q.(newcomers := q.newcomers + [p]),
       sems := s.sems.(newcomers := s.sems.newcomers + 1), account := a.(charged := a.charged[p := 0]))
  }

  /** squeue_pop(squeue_new) after sem_wait(&semMultiprogramacion). */
  ghost function Admitted(s: State): State
    requires Known(s) && Possible(s, Admit) && !Crashes(s, Admit)
  {
    var q := s.queues;
    MakeReady(s.(queues := q.(newcomers := q.newcomers[1..]),
                 sems := s.sems.(multi := s.sems.multi - 1, admitting := false)), q.newcomers[0], false)
  }

  function Less(n: nat): nat {
    if n == 0 then 0 else n - 1
  }

  /** A turn of the long-term thread past semNew; with NEW empty it starts over. */
  function Taken(s: State): State
    requires Possible(s, TakeNew)
  {
    var t := s.(sems := s.sems.(newcomers := s.sems.newcomers - 1));
    if s.queues.newcomers == [] then t.(account := t.account.(spareNew := Less(t.account.spareNew)))
    else t.(sems := t.sems.(admitting := true))
  }

  /** ejecutar_PCB */
  function Started(s: State, p: nat): State
    requires p in s.pcbs
  {
    InState(s, p, EJECUTANDO).(queues := s.queues.(exec := s.queues.exec + [p]))
  }

  /** planificar_PCB_cortoPlazo: under VRR the priority queue goes first. */
  ghost function Dispatched(s: State, config: Config): State
    requires Known(s) && Possible(s, Dispatch)
  {
    var q := s.queues;
    var t := s.(sems := s.sems.(ready := s.sems.ready - 1));
    if config.vrr && q.readyPlus != [] then Started(t.(queues := q.(readyPlus := q.readyPlus[1..])), q.readyPlus[0])
    else if q.ready != [] then Started(t.(queues := q.(ready := q.ready[1..])), q.ready[0])
    else t.(account := t.account.(spareReady := Less(t.account.spareReady)))
  }

  /** desalojo_cpu */
  ghost function Evicted(s: State, config: Config, used: nat, reason: Reason): State
    requires Formed(s) && Possible(s, Evict(used, reason))
  {
    var p := s.queues.exec[0];
    assert HoldsKnown(s, p);
    Settle(Leave(s, config, used), config, p, reason)
  }

  /** FINALIZACION_INTERFAZ: unblock the process of the answer, pop the interface's queue. */
  function Completed(s: State, config: Config, d: nat): State
    requires d < |s.devices| && s.devices[d].done != [] && s.devices[d].queue != []
  {
    var dev := s.devices[d];
    Unblock(s.(devices := s.devices[d := dev.(done := dev.done[1..], queue := dev.queue[1..])]), config, dev.done[0])
  }

  /** Its unit of semNew stays. */
  function WithoutNew(s: State, p: nat): State {
    s.(queues := s.queues.(newcomers := RemoveFirst(s.queues.newcomers, p)),
       account := s.account.(spareNew := s.account.spareNew + 1))
  }

  /** Its unit of semReady stays. */
  function WithoutReady(s: State, p: nat): State {
    s.(queues := s.queues.(ready := RemoveFirst(s.queues.ready, p)),
       account := s.account.(spareReady := s.account.spareReady + 1))
  }

  /** finalizar_proceso_consola on a process in NEW: it has no place to give back. */
  ghost function NewKilled(s: State, config: Config, p: nat): State
    requires Formed(s) && p in s.queues.newcomers
  {
    assert HoldsKnown(s, p);
    ReleaseFrom(Exited(WithoutNew(s, p), p), config, p, 0)
  }

  ghost function ReadyKilled(s: State, config: Config, p: nat): State
    requires Formed(s) && p in s.queues.ready
  {
    assert HoldsKnown(s, p);
    Finish(WithoutReady(s, p), config, p)
  }

  /** cambiar_multiprogramacion: posts at once, or waits still to be done. */
  function DegreeSet(s: State, n: int): State {
    var up := n - s.sems.grade;
    s.(sems := if up >= 0 then s.sems.(grade := n, multi := s.sems.multi + up)
               else s.sems.(grade := n, pending := s.sems.pending - up))
  }

  /** One wait of a decrease. */
  function Lowered(s: State): State
    requires Possible(s, Lower)
  {
    s.(sems := s.sems.(multi := s.sems.multi - 1, pending := s.sems.pending - 1))
  }

  function Serving(dev: Device): Device
    requires dev.requests != []
  {
    dev.(serving := [dev.requests[0]], requests := dev.requests[1..])
  }

  function Served(s: State, d: nat): State
    requires Possible(s, Serve(d))
  {
    s.(devices := s.devices[d := Serving(s.devices[d])])
  }

  function Answered(s: State, d: nat): State
    requires Possible(s, Answer(d))
  {
    var dev := s.devices[d];
    s.(devices := s.devices[d := dev.(done := dev.done + dev.serving, serving := [])])
  }

  ghost function Next(s: State, config: Config, a: Action): State
    requires Formed(s) && Possible(s, a) && !Crashes(s, a)
  {
    match a
    case Create => Created(s, config)
    case TakeNew => Taken(s)
    case Admit => Admitted(s)
    case Dispatch => Dispatched(s, config)
    case Evict(used, reason) => Evicted(s, config, used, reason)
    case Serve(d) => Served(s, d)
    case Answer(d) => Answered(s, d)
    case Complete(d) => Completed(s, config, d)
    case KillNew(p) => NewKilled(s, config, p)
    case KillReady(p) => ReadyKilled(s, config, p)
    case SetDegree(n) => DegreeSet(s, n)
    case Lower => Lowered(s)
  }

  /** The invariant between steps. */
  ghost predicate Sound(s: State, config: Config, initial: seq<nat>) {
    Inv(s, config, initial, multiset{}, 0)
  }

  lemma SoundIsFormed(s: State, config: Config, initial: seq<nat>)
    requires Sound(s, config, initial)
    ensures Formed(s)
  {
    forall d | d in s.devices && d.done != []
      ensures d.queue != []
    {
      assert d.queue == d.done + d.serving + d.requests;
    }
  }

  lemma CreateKeeps(s: State, config: Config, initial: seq<nat>)
    requires Sound(s, config, initial) && 0 < config.quantum
    ensures Sound(Created(s, config), config, initial)
  {
    var t, p := Created(s, config), s.next;
    assert p !in s.pcbs;
    CreatedPlaced(s, config);
    WaitsFrame(s, t);
    CreatedInstances(s, config, initial);
  }

  lemma CreatedPlaced(s: State, config: Config)
    requires Placed(s, multiset{}) && StatesMatch(s) && SemaphoresCover(s) && DegreeKept(s, 0)
    ensures var t := Created(s, config);
            Placed(t, multiset{}) && StatesMatch(t) && SemaphoresCover(t) && DegreeKept(t, 0)
  {
    var t := Created(s, config);
    assert s.next !in s.pcbs;
    assert t.pcbs.Keys == s.pcbs.Keys + {s.next};
    assert multiset(s.queues.newcomers + [s.next]) == multiset(s.queues.newcomers) + multiset{s.next};
    assert InQueues(t.queues) == InQueues(s.queues) + multiset{s.next};
    assert multiset(s.pcbs.Keys + {s.next}) == multiset(s.pcbs.Keys) + multiset{s.next};
  }

  lemma CreatedInstances(s: State, config: Config, initial: seq<nat>)
    requires InstancesKept(s, initial) && s.next !in s.pcbs
    ensures InstancesKept(Created(s, config), initial)
  {
    var t := Created(s, config);
    forall r | 0 <= r < |initial|
      ensures Holdings(t.pcbs, t.next, r) == Holdings(s.pcbs, s.next, r)
    {
      HoldingsBelow(s.pcbs, t.pcbs, s.next, r);
    }
    forall q | q in t.pcbs
      ensures HoldsKnown(t, q)
    {
      assert q in s.pcbs ==> HoldsKnown(s, q);
    }
  }

  lemma {:induction false} HoldingsBelow(a: map<nat, Pcb>, b: map<nat, Pcb>, next: nat, r: nat)
    requires forall q | 0 <= q < next :: (q in a <==> q in b) && (q in a ==> a[q] == b[q])
    ensures Holdings(a, next, r) == Holdings(b, next, r)
  {
    if next > 0 {
      HoldingsBelow(a, b, next - 1, r);
    }
  }

  /** Steps that only touch the semaphores. */
  lemma SemaphoreStepKeeps(s: State, config: Config, initial: seq<nat>, a: Action)
    requires Sound(s, config, initial) && Possible(s, a) && (a.TakeNew? || a.SetDegree? || a.Lower?)
    ensures Formed(s) && Sound(Next(s, config, a), config, initial)
  {
    SoundIsFormed(s, config, initial);
    var t := Next(s, config, a);
    WaitsFrame(s, t);
    InstancesFrame(s, t, initial);
  }

  /** The state of an admission between taking the place and proceso_listo. */
  ghost function Admitting(s: State): State
    requires s.queues.newcomers != [] && 0 < s.sems.multi
  {
    s.(queues := s.queues.(newcomers := s.queues.newcomers[1..]),
       sems := s.sems.(multi := s.sems.multi - 1, admitting := false))
  }

  lemma PopHead(q: seq<nat>)
    requires q != []
    ensures multiset(q) == multiset{q[0]} + multiset(q[1..])
    ensures forall p <- q[1..] :: p in q
  {
    assert q == [q[0]] + q[1..];
  }

  /** NEW is empty at an admission only where a kill in NEW has left a unit of semNew. */
  lemma CrashLeavesUnit(s: State)
    requires SemaphoresCover(s) && Possible(s, Admit) && Crashes(s, Admit)
    ensures 0 < s.account.spareNew
  {
  }

  /** An admission keeps the invariant, or the kernel ends in it. */
  lemma AdmitKeeps(s: State, config: Config, initial: seq<nat>)
    requires Sound(s, config, initial) && Possible(s, Admit)
    ensures Formed(s)
    ensures if Crashes(s, Admit) then 0 < s.account.spareNew else Sound(Admitted(s), config, initial)
  {
    SoundIsFormed(s, config, initial);
    if Crashes(s, Admit) {
      CrashLeavesUnit(s);
    } else {
      AdmissionKeeps(s, config, initial);
    }
  }

  lemma AdmittingPlaced(s: State)
    requires Placed(s, multiset{}) && StatesMatch(s) && SemaphoresCover(s) && DegreeKept(s, 0)
    requires Possible(s, Admit) && !Crashes(s, Admit)
    ensures var t := Admitting(s);
            && Placed(t, multiset{s.queues.newcomers[0]}) && StatesMatch(t) && SemaphoresCover(t) && DegreeKept(t, 1)
  {
    var p, t := s.queues.newcomers[0], Admitting(s);
    PopHead(s.queues.newcomers);
    assert InQueues(s.queues) == InQueues(t.queues) + multiset{p};
  }

  lemma AdmittingKeeps(s: State, config: Config, initial: seq<nat>)
    requires Sound(s, config, initial) && Possible(s, Admit) && !Crashes(s, Admit)
    ensures Inv(Admitting(s), config, initial, multiset{s.queues.newcomers[0]}, 1)
  {
    AdmittingPlaced(s);
    PopHead(s.queues.newcomers);
    WaitsFrame(s, Admitting(s));
    InstancesFrame(s, Admitting(s), initial);
  }

  lemma AdmissionKeeps(s: State, config: Config, initial: seq<nat>)
    requires Sound(s, config, initial) && Formed(s) && Possible(s, Admit) && !Crashes(s, Admit)
    ensures Sound(Admitted(s), config, initial)
  {
    var p := s.queues.newcomers[0];
    AdmittingKeeps(s, config, initial);
    MakeReadyKeeps(Admitting(s), config, initial, multiset{p}, 1, p, false);
    assert multiset{p} - multiset{p} == multiset{};
  }

  lemma StartPlaced(s: State, p: nat)
    requires Placed(s, multiset{p}) && StatesMatch(s) && SemaphoresCover(s) && DegreeKept(s, 1) && s.queues.exec == []
    ensures p in s.pcbs
    ensures var t := Started(s, p); Placed(t, multiset{}) && StatesMatch(t) && SemaphoresCover(t) && DegreeKept(t, 0)
  {
    InHandIsOut(s, multiset{p}, p);
    var t := Started(s, p);
    assert t.pcbs.Keys == s.pcbs.Keys;
    assert t.queues.exec == [p];
    assert InQueues(t.queues) == InQueues(s.queues) + multiset{p};
  }

  lemma StartKeeps(s: State, config: Config, initial: seq<nat>, p: nat)
    requires Inv(s, config, initial, multiset{p}, 1) && s.queues.exec == []
    ensures p in s.pcbs && Sound(Started(s, p), config, initial)
  {
    StartPlaced(s, p);
    WaitsFrame(s, Started(s, p));
    InstancesFrame(s, Started(s, p), initial);
  }

  /** The short-term thread past semReady, with one process taken from READY or from its priority queue. */
  ghost function Picked(s: State, ready: seq<nat>, readyPlus: seq<nat>): State
    requires 0 < s.sems.ready
  {
    s.(sems := s.sems.(ready := s.sems.ready - 1), queues := s.queues.(ready := ready, readyPlus := readyPlus))
  }

  lemma PickedPlaced(s: State, ready: seq<nat>, readyPlus: seq<nat>, p: nat)
    requires Placed(s, multiset{}) && StatesMatch(s) && SemaphoresCover(s) && DegreeKept(s, 0) && 0 < s.sems.ready
    requires
      || ([p] + ready == s.queues.ready && readyPlus == s.queues.readyPlus)
      || (ready == s.queues.ready && [p] + readyPlus == s.queues.readyPlus)
    ensures var t := Picked(s, ready, readyPlus);
            Placed(t, multiset{p}) && StatesMatch(t) && SemaphoresCover(t) && DegreeKept(t, 1)
  {
    var t := Picked(s, ready, readyPlus);
    assert multiset(s.queues.ready) + multiset(s.queues.readyPlus) ==
        multiset(ready) + multiset(readyPlus) + multiset{p};
    assert InQueues(s.queues) == InQueues(t.queues) + multiset{p};
  }

  lemma PickedKeeps(s: State, config: Config, initial: seq<nat>, ready: seq<nat>, readyPlus: seq<nat>, p: nat)
    requires Sound(s, config, initial) && 0 < s.sems.ready
    requires
      || ([p] + ready == s.queues.ready && readyPlus == s.queues.readyPlus)
      || (ready == s.queues.ready && [p] + readyPlus == s.queues.readyPlus)
    ensures Inv(Picked(s, ready, readyPlus), config, initial, multiset{p}, 1)
  {
    PickedPlaced(s, ready, readyPlus, p);
    WaitsFrame(s, Picked(s, ready, readyPlus));
    InstancesFrame(s, Picked(s, ready, readyPlus), initial);
  }

  lemma DispatchKeeps(s: State, config: Config, initial: seq<nat>)
    requires Sound(s, config, initial) && Possible(s, Dispatch)
    ensures Formed(s) && Sound(Dispatched(s, config), config, initial)
  {
    SoundIsFormed(s, config, initial);
    var q := s.queues;
    if config.vrr && q.readyPlus != [] {
      PickedKeeps(s, config, initial, q.ready, q.readyPlus[1..], q.readyPlus[0]);
      StartKeeps(Picked(s, q.ready, q.readyPlus[1..]), config, initial, q.readyPlus[0]);
    } else if q.ready != [] {
      PickedKeeps(s, config, initial, q.ready[1..], q.readyPlus, q.ready[0]);
      StartKeeps(Picked(s, q.ready[1..], q.readyPlus), config, initial, q.ready[0]);
    } else {
      WaitsFrame(s, Dispatched(s, config));
      InstancesFrame(s, Dispatched(s, config), initial);
    }
  }

  lemma LeavePlaced(s: State, config: Config, used: nat)
    requires Placed(s, multiset{}) && StatesMatch(s) && SemaphoresCover(s) && DegreeKept(s, 0) && s.queues.exec != []
    ensures s.queues.exec[0] in s.pcbs
    ensures var t := Leave(s, config, used);
            Placed(t, multiset{s.queues.exec[0]}) && StatesMatch(t) && SemaphoresCover(t) && DegreeKept(t, 1)
  {
    var t, p := Leave(s, config, used), s.queues.exec[0];
    PopHead(s.queues.exec);
    assert t.pcbs.Keys == s.pcbs.Keys;
    assert InQueues(s.queues) == InQueues(t.queues) + multiset{p};
  }

  lemma LeaveKeeps(s: State, config: Config, initial: seq<nat>, used: nat)
    requires Sound(s, config, initial) && s.queues.exec != []
    ensures s.queues.exec[0] in s.pcbs
    ensures Inv(Leave(s, config, used), config, initial, multiset{s.queues.exec[0]}, 1)
  {
    LeavePlaced(s, config, used);
    var t := Leave(s, config, used);
    WaitsFrame(s, t);
    InstancesFrame(s, t, initial);
  }

  /** A whole quantum again. */
  ghost function Renewed(s: State, config: Config, p: nat): State
    requires p in s.pcbs
  {
    WithPcb(s, p, s.pcbs[p].(quantum := config.quantum)).(account := s.account.(charged := s.account.charged[p := 0]))
  }

  lemma RenewKeeps(s: State, config: Config, initial: seq<nat>, p: nat)
    requires Inv(s, config, initial, multiset{p}, 1) && 0 < config.quantum
    ensures p in s.pcbs && Inv(Renewed(s, config, p), config, initial, multiset{p}, 1)
  {
    InHandIsOut(s, multiset{p}, p);
    var t := Renewed(s, config, p);
    assert t.pcbs.Keys == s.pcbs.Keys;
    WaitsFrame(s, t);
    InstancesFrame(s, t, initial);
  }

  lemma SettleKeeps(s: State, config: Config, initial: seq<nat>, p: nat, reason: Reason)
    requires Inv(s, config, initial, multiset{p}, 1) && 0 < config.quantum && !reason.Unknown?
    requires (reason.Wait? || reason.Signal?) ==> reason.r < |s.resources|
    ensures p in s.pcbs && |s.resources| == |s.account.orphans| && HoldsKnown(s, p)
    ensures Inv(Settle(s, config, p, reason), config, initial, multiset{}, 0)
  {
    var hand := multiset{p};
    InHandIsOut(s, hand, p);
    assert hand - multiset{p} == multiset{};
    match reason
    case EndOfQuantum =>
      RenewKeeps(s, config, initial, p);
      MakeReadyKeeps(Renewed(s, config, p), config, initial, hand, 1, p, false);
    case Wait(r) => WaitOnKeeps(s, config, initial, hand, 1, p, r);
    case Signal(r) =>
      ReleaseKeeps(s, config, initial, hand, 1, p, r);
      MakeReadyKeeps(Release(s, config, p, r), config, initial, hand, 1, p, false);
    case Io(d, matches) =>
      if d < |s.devices| && matches {
        SendToKeeps(s, config, initial, hand, 1, p, d);
      } else {
        FinishKeeps(s, config, initial, hand, 1, p);
      }
    case _ => FinishKeeps(s, config, initial, hand, 1, p);
  }

  lemma EvictKeeps(s: State, config: Config, initial: seq<nat>, used: nat, reason: Reason)
    requires Sound(s, config, initial) && Possible(s, Evict(used, reason)) && 0 < config.quantum
    ensures Formed(s) && Sound(Evicted(s, config, used, reason), config, initial)
  {
    SoundIsFormed(s, config, initial);
    LeaveKeeps(s, config, initial, used);
    SettleKeeps(Leave(s, config, used), config, initial, s.queues.exec[0], reason);
  }

  // The interfaces

  /** The interface's queue is what is in its channels. */
  ghost predicate Carries(dev: Device) {
    dev.queue == dev.done + dev.serving + dev.requests && |dev.serving| <= 1
  }

  ghost function WithDevice(s: State, d: nat, dev: Device): State
    requires d < |s.devices|
  {
    s.(devices := s.devices[d := dev])
  }

  lemma ChannelWaits(s: State, d: nat, dev: Device)
    requires WaitsMatch(s) && ChannelsMatch(s) && d < |s.devices| && dev.queue == s.devices[d].queue && Carries(dev)
    ensures WaitsMatch(WithDevice(s, d, dev)) && ChannelsMatch(WithDevice(s, d, dev))
  {
    assert forall x: Place :: Exists(s, x) ==> Exists(WithDevice(s, d, dev), x);
  }

  lemma ChannelPlaced(s: State, d: nat, dev: Device)
    requires Placed(s, multiset{}) && StatesMatch(s) && SemaphoresCover(s) && DegreeKept(s, 0) && d < |s.devices|
    ensures var t := WithDevice(s, d, dev);
            Placed(t, multiset{}) && StatesMatch(t) && SemaphoresCover(t) && DegreeKept(t, 0)
  {
  }

  lemma ChannelStepKeeps(s: State, config: Config, initial: seq<nat>, d: nat, dev: Device)
    requires Sound(s, config, initial) && d < |s.devices| && dev.queue == s.devices[d].queue && Carries(dev)
    ensures Sound(WithDevice(s, d, dev), config, initial)
  {
    InstancesFrame(s, WithDevice(s, d, dev), initial);
    ChannelWaits(s, d, dev);
    ChannelPlaced(s, d, dev);
  }

  lemma ServeCarries(dev: Device)
    requires Carries(dev) && dev.serving == [] && dev.requests != []
    ensures Carries(Serving(dev))
  {
    assert dev.requests == [dev.requests[0]] + dev.requests[1..];
  }

  lemma ServeKeeps(s: State, config: Config, initial: seq<nat>, d: nat)
    requires Sound(s, config, initial) && Possible(s, Serve(d))
    ensures Sound(Served(s, d), config, initial)
  {
    ServeCarries(s.devices[d]);
    ChannelStepKeeps(s, config, initial, d, Serving(s.devices[d]));
  }

  lemma AnswerKeeps(s: State, config: Config, initial: seq<nat>, d: nat)
    requires Sound(s, config, initial) && Possible(s, Answer(d))
    ensures Sound(Answered(s, d), config, initial)
  {
    var dev := s.devices[d];
    ChannelStepKeeps(s, config, initial, d, dev.(done := dev.done + dev.serving, serving := []));
  }

  lemma HeadIsAnswer(dev: Device)
    requires Carries(dev) && dev.done != []
    ensures dev.queue != [] && dev.queue[0] == dev.done[0]
    ensures dev.queue[1..] == dev.done[1..] + dev.serving + dev.requests
  {
  }

  /** The head of the interface's queue is the process that the answer names, and it is blocked. */
  lemma AnswerNamesHead(s: State, config: Config, initial: seq<nat>, d: nat)
    requires Sound(s, config, initial) && d < |s.devices| && s.devices[d].done != []
    ensures var dev := s.devices[d];
            && dev.queue != [] && dev.queue[0] == dev.done[0] &&
                dev.queue[1..] == dev.done[1..] + dev.serving + dev.requests
            && dev.done[0] in s.queues.blocked && dev.done[0] in s.pcbs && dev.done[0] in s.account.charged
            && s.account.place[dev.done[0]] == AtDevice(d)
  {
    HeadIsAnswer(s.devices[d]);
    HeadIsBlocked(s, d);
    BlockedOnce(s, multiset{}, s.devices[d].done[0]);
  }

  lemma HeadIsBlocked(s: State, d: nat)
    requires WaitsMatch(s) && d < |s.devices| && s.devices[d].queue != []
    ensures var p := s.devices[d].queue[0];
            p in s.queues.blocked && p in s.account.place && s.account.place[p] == AtDevice(d)
  {
    assert s.devices[d].queue[0] in At(s.queues.blocked, s.account.place, AtDevice(d));
  }

  /** The answer taken in, its process off both queues. */
  ghost function AnswerPopped(s: State, d: nat): State
    requires d < |s.devices| && s.devices[d].done != [] && s.devices[d].queue != []
  {
    var dev := s.devices[d];
    Unlisted(s.(devices := s.devices[d := dev.(done := dev.done[1..], queue := dev.queue[1..])]), dev.done[0])
  }

  lemma AnswerPoppedWaits(s: State, d: nat)
    requires WaitsMatch(s) && d < |s.devices| && s.devices[d].done != [] && s.devices[d].queue != []
    requires s.devices[d].queue[0] == s.devices[d].done[0]
    ensures WaitsMatch(AnswerPopped(s, d))
  {
    var p, t := s.devices[d].done[0], AnswerPopped(s, d);
    assert p in At(s.queues.blocked, s.account.place, AtDevice(d));
    forall k | 0 <= k < |t.resources|
      ensures t.resources[k].waiting == At(t.queues.blocked, t.account.place, AtResource(k))
    {
      UnlistedAt(s, p, AtDevice(d), AtResource(k));
    }
    forall k | 0 <= k < |t.devices|
      ensures t.devices[k].queue == At(t.queues.blocked, t.account.place, AtDevice(k))
    {
      UnlistedAt(s, p, AtDevice(d), AtDevice(k));
    }
    RemoveFirstIn(s.queues.blocked, p);
    forall q | q in t.queues.blocked
      ensures q in t.account.place && Exists(t, t.account.place[q])
    {
      assert q in s.queues.blocked;
    }
  }

  lemma AnswerPoppedKeeps(s: State, config: Config, initial: seq<nat>, d: nat)
    requires Sound(s, config, initial) && Possible(s, Complete(d))
    ensures s.devices[d].queue != []
    ensures Inv(AnswerPopped(s, d), config, initial, multiset{s.devices[d].done[0]}, 1)
  {
    AnswerNamesHead(s, config, initial, d);
    UnlistedPlaced(s, multiset{}, 0, s.devices[d].done[0]);
    AnswerPoppedWaits(s, d);
    InstancesFrame(s, AnswerPopped(s, d), initial);
    assert multiset{} + multiset{s.devices[d].done[0]} == multiset{s.devices[d].done[0]};
  }

  lemma CompleteKeeps(s: State, config: Config, initial: seq<nat>, d: nat)
    requires Sound(s, config, initial) && Possible(s, Complete(d))
    ensures Formed(s) && Sound(Completed(s, config, d), config, initial)
  {
    SoundIsFormed(s, config, initial);
    AnswerNamesHead(s, config, initial, d);
    AnswerPoppedKeeps(s, config, initial, d);
    var p := s.devices[d].done[0];
    assert multiset{} + multiset{p} == multiset{p};
    ResumedKeeps(AnswerPopped(s, d), config, initial, multiset{}, 0, p);
  }

  // The console

  lemma RemovedFrom(q: seq<nat>, p: nat)
    requires p in q
    ensures multiset(q) == multiset(RemoveFirst(q, p)) + multiset{p}
    ensures forall x <- RemoveFirst(q, p) :: x in q
  {
    assert p in multiset(q);
    RemoveFirstIn(q, p);
  }

  lemma WithoutNewKeeps(s: State, config: Config, initial: seq<nat>, p: nat)
    requires Sound(s, config, initial) && p in s.queues.newcomers
    ensures Inv(WithoutNew(s, p), config, initial, multiset{p}, 0)
  {
    var t := WithoutNew(s, p);
    RemovedFrom(s.queues.newcomers, p);
    assert InQueues(s.queues) == InQueues(t.queues) + multiset{p};
    WaitsFrame(s, t);
    InstancesFrame(s, t, initial);
  }

  lemma WithoutReadyKeeps(s: State, config: Config, initial: seq<nat>, p: nat)
    requires Sound(s, config, initial) && p in s.queues.ready
    ensures Inv(WithoutReady(s, p), config, initial, multiset{p}, 1)
  {
    var t := WithoutReady(s, p);
    RemovedFrom(s.queues.ready, p);
    assert InQueues(s.queues) == InQueues(t.queues) + multiset{p};
    WaitsFrame(s, t);
    InstancesFrame(s, t, initial);
  }

  /** Killing a process in NEW frees no place, and it held nothing. */
  lemma KillNewKeeps(s: State, config: Config, initial: seq<nat>, p: nat)
    requires Sound(s, config, initial) && p in s.queues.newcomers
    ensures Formed(s) && Sound(NewKilled(s, config, p), config, initial)
  {
    SoundIsFormed(s, config, initial);
    var t := WithoutNew(s, p);
    WithoutNewKeeps(s, config, initial, p);
    ExitKeeps(t, config, initial, multiset{p}, 0, p);
    assert multiset{p} - multiset{p} == multiset{};
    ReleaseFromKeeps(Exited(t, p), config, initial, multiset{}, 0, p, 0);
  }

  /** Killing one in READY does. */
  lemma KillReadyKeeps(s: State, config: Config, initial: seq<nat>, p: nat)
    requires Sound(s, config, initial) && p in s.queues.ready
    ensures Formed(s) && Sound(ReadyKilled(s, config, p), config, initial)
  {
    SoundIsFormed(s, config, initial);
    WithoutReadyKeeps(s, config, initial, p);
    FinishKeeps(WithoutReady(s, p), config, initial, multiset{p}, 1, p);
    assert multiset{p} - multiset{p} == multiset{};
  }

  // Runs

  lemma StepKeeps(s: State, config: Config, initial: seq<nat>, a: Action)
    requires Sound(s, config, initial) && Possible(s, a) && 0 < config.quantum
    ensures Formed(s) && (Crashes(s, a) || Sound(Next(s, config, a), config, initial))
  {
    SoundIsFormed(s, config, initial);
    match a
    case Create => CreateKeeps(s, config, initial);
    case Admit => AdmitKeeps(s, config, initial);
    case Dispatch => DispatchKeeps(s, config, initial);
    case Evict(used, reason) => EvictKeeps(s, config, initial, used, reason);
    case Serve(d) => ServeKeeps(s, config, initial, d);
    case Answer(d) => AnswerKeeps(s, config, initial, d);
    case Complete(d) => CompleteKeeps(s, config, initial, d);
    case KillNew(p) => KillNewKeeps(s, config, initial, p);
    case KillReady(p) => KillReadyKeeps(s, config, initial, p);
    case _ => SemaphoreStepKeeps(s, config, initial, a);
  }

  /** iniciar_colas_y_semaforos, with `devices` interfaces connected. */
  function Start(degree: nat, initial: seq<nat>, devices: nat): State {
    State(Queues([], [], [], [], [], []), Semaphores(0, 0, degree, degree, 0, false), map[], 1,
          seq(|initial|, r requires 0 <= r < |initial| => Resource(initial[r], [])),
          seq(devices, _ => Device([], [], [], [])),
          Account(map[], map[], seq(|initial|, _ => 0), 0, 0))
  }

  lemma {:induction false} NothingHeld(next: nat, r: nat)
    ensures Holdings(map[], next, r) == 0
  {
    if next > 0 {
      NothingHeld(next - 1, r);
    }
  }

  lemma StartIsSound(degree: nat, config: Config, initial: seq<nat>, devices: nat)
    ensures Sound(Start(degree, initial, devices), config, initial)
  {
    var s := Start(degree, initial, devices);
    forall r | 0 <= r < |initial|
      ensures Holdings(s.pcbs, s.next, r) == 0
    {
      NothingHeld(s.next, r);
    }
  }

  /** The steps can be taken one after another; one that ends the kernel is the last. */
  ghost predicate IsRun(s: State, config: Config, steps: seq<Action>)
    decreases |steps|
  {
    steps == [] ||
    (Formed(s) && Possible(s, steps[0]) &&
     if Crashes(s, steps[0]) then |steps| == 1 else IsRun(Next(s, config, steps[0]), config, steps[1..]))
  }

  /** The last state that the kernel is in. */
  ghost function After(s: State, config: Config, steps: seq<Action>): State
    requires IsRun(s, config, steps)
    decreases |steps|
  {
    if steps == [] || Crashes(s, steps[0]) then s else After(Next(s, config, steps[0]), config, steps[1..])
  }

  lemma {:induction false} RunKeeps(s: State, config: Config, initial: seq<nat>, steps: seq<Action>)
    requires Sound(s, config, initial) && 0 < config.quantum && IsRun(s, config, steps)
    ensures Sound(After(s, config, steps), config, initial)
    decreases |steps|
  {
    if steps != [] && !Crashes(s, steps[0]) {
      StepKeeps(s, config, initial, steps[0]);
      RunKeeps(Next(s, config, steps[0]), config, initial, steps[1..]);
    }
  }

  /**
   In every reachable state: each process is in exactly one queue, the one its `estado` names; the
   degree of multiprogramming, the instances of every resource and every quantum are accounted for;
   and each waiting queue is what the blocked queue and the channels say.
   */
  lemma ReachableIsSound(degree: nat, config: Config, initial: seq<nat>, devices: nat, steps: seq<Action>)
    requires 0 < config.quantum && IsRun(Start(degree, initial, devices), config, steps)
    ensures Sound(After(Start(degree, initial, devices), config, steps), config, initial)
  {
    StartIsSound(degree, config, initial, devices);
    RunKeeps(Start(degree, initial, devices), config, initial, steps);
  }
}
