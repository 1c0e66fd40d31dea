/**
 The kernel's routines on the global queues, semaphores and lists (kernel/src/planificador.c,
 kernel/src/comunicaciones.c, kernel/src/consola.c). The routines that a step starts with take one
 sound state to the next one of `KernelRuns`; the others are their parts.
 */
module Scheduler {
  import opened Kernel
  import opened KernelInvariant
  import opened KernelRuns
  import opened KernelOutcomes
  import opened KernelEffects

  class Scheduler {
    const config: Config
    var queues: Queues
    var sems: Semaphores
    var pcbs: map<nat, Pcb>
    var next: nat
    var resources: seq<Resource>
    var devices: seq<Device>
    ghost const initial: seq<nat>
    ghost var account: Account

    ghost function View(): State
      reads this
    {
      State(queues, sems, pcbs, next, resources, devices, account)
    }

    /** Between two steps. */
    ghost predicate Valid()
      reads this
    {
      Sound(View(), config, initial) && Formed(View()) && 0 < config.quantum
    }

    /** iniciar_colas_y_semaforos */
    constructor (config: Config, degree: nat, initial: seq<nat>, interfaces: nat)
      requires 0 < config.quantum
      ensures Valid() && this.config == config && this.initial == initial
      ensures View() == Start(degree, initial, interfaces)
    {
      this.config, this.initial := config, initial;
      queues := Queues([], [], [], [], [], []);
      sems := Semaphores(0, 0, degree, degree, 0, false);
      pcbs, next := map[], 1;
      resources := seq(|initial|, r requires 0 <= r < |initial| => Resource(initial[r], []));
      devices := seq(interfaces, _ => Device([], [], [], []));
      account := Account(map[], map[], seq(|initial|, _ => 0), 0, 0);
      new;
      StartIsSound(degree, config, initial, interfaces);
      SoundIsFormed(View(), config, initial);
    }

    /** proceso_listo */
    method MakeReady(p: nat, plus: bool)
      requires p in pcbs
      modifies this
      ensures View() == Kernel.MakeReady(old(View()), p, plus)
    {
      pcbs := pcbs[p := pcbs[p].(state := LISTO)];
      if plus {
        queues := queues.(readyPlus := queues.readyPlus + [p]);
      } else {
        queues := queues.(ready := queues.ready + [p]);
      }
      sems := sems.(ready := sems.ready + 1);
    }

    /** bloquear_proceso */
    method Block(p: nat, ghost place: Place)
      requires p in pcbs
      modifies this
      ensures View() == BlockAt(old(View()), p, place)
    {
      pcbs := pcbs[p := pcbs[p].(state := BLOQUEADO)];
      queues := queues.(blocked := queues.blocked + [p]);
      account := account.(place := account.place[p := place]);
    }

    /** `pcb->quantum -= pcb->tiempo_q` */
    method ChargeQuantum(p: nat)
      requires p in pcbs && p in account.charged && pcbs[p].used <= pcbs[p].quantum
      modifies this`pcbs, this`account
      ensures View() == Charge(old(View()), p)
    {
      account := account.(charged := account.charged[p := account.charged[p] + pcbs[p].used]);
      pcbs := pcbs[p := pcbs[p].(quantum := pcbs[p].quantum - pcbs[p].used)];
    }

    /** Where an unblocked process goes. */
    method ResumeProcess(p: nat)
      requires p in pcbs && p in account.charged
      modifies this
      ensures View() == Resume(old(View()), config, p)
    {
      if config.vrr {
        if pcbs[p].used < pcbs[p].quantum {
          ChargeQuantum(p);
          MakeReady(p, true);
        } else {
          MakeReady(p, false);
        }
      } else {
        MakeReady(p, false);
      }
    }

    /** desbloquear_proceso */
    method Unblock(p: nat)
      requires p in queues.blocked ==> p in pcbs && p in account.charged
      modifies this
      ensures View() == Kernel.Unblock(old(View()), config, p)
    {
      if p in queues.blocked {
        queues := queues.(blocked := RemoveFirst(queues.blocked, p));
        ResumeProcess(p);
      }
    }

    /** asignar_recurso */
    method TakeResource(p: nat, r: nat)
      requires p in pcbs && r < |resources|
      modifies this
      ensures View() == Take(old(View()), p, r)
    {
      resources := resources[r := resources[r].(instances := resources[r].instances - 1)];
      pcbs := pcbs[p := pcbs[p].(held := pcbs[p].held + [r])];
    }

    /** The first half of liberar_recurso. */
    method ReturnResource(p: nat, r: nat)
      requires p in pcbs && r < |resources| == |account.orphans|
      modifies this
      ensures View() == GiveBack(old(View()), p, r)
    {
      AddInstance(r, if r in pcbs[p].held then 0 else 1);
      DropHolding(p, r);
    }

    method AddInstance(r: nat, ghost orphan: nat)
      requires r < |resources| == |account.orphans|
      modifies this`resources, this`account
      ensures View() == Kernel.AddInstance(old(View()), r, orphan)
    {
      resources := resources[r := resources[r].(instances := resources[r].instances + 1)];
      account := account.(orphans := account.orphans[r := account.orphans[r] + orphan]);
    }

    method DropHolding(p: nat, r: nat)
      requires p in pcbs
      modifies this`pcbs
      ensures View() == Kernel.DropHolding(old(View()), p, r)
    {
      pcbs := pcbs[p := pcbs[p].(held := RemoveFirst(pcbs[p].held, r))];
    }

    /** Whoever waits for a resource or an interface is a process with a PCB. */
    ghost predicate WaitersKnown()
      reads this
    {
      forall p <- queues.blocked :: p in pcbs && p in account.charged
    }

    /** liberar_recurso */
    method ReleaseResource(p: nat, r: nat)
      requires p in pcbs && r < |resources| == |account.orphans| && WaitersKnown()
      modifies this
      ensures View() == Release(old(View()), config, p, r)
    {
      ReturnResource(p, r);
      var res := resources[r];
      if res.instances > 0 && res.waiting != [] {
        resources := resources[r := res.(waiting := res.waiting[1..])];
        Unblock(res.waiting[0]);
      }
    }

    /** liberar_recursos, removing from the list that it walks. */
    method ReleaseAll(p: nat)
      requires p in pcbs && |resources| == |account.orphans| && HoldsKnown(View(), p) && WaitersKnown()
      modifies this
      ensures View() == ReleaseFrom(old(View()), config, p, 0)
      ensures old(NoneNegative(View())) ==> GivesEvens(old(View()), View(), p)
    {
      ghost var s := View();
      if NoneNegative(s) {
        ReleaseAllGives(s, config, p);
      }
      var i := 0;
      while i < |pcbs[p].held|
        invariant p in pcbs && |resources| == |account.orphans| && HoldsKnown(View(), p) && WaitersKnown()
        invariant ReleaseFrom(View(), config, p, i) == ReleaseFrom(s, config, p, 0)
        decreases |pcbs[p].held|
      {
        var r := pcbs[p].held[i];
        assert r in pcbs[p].held;
        RemoveKeepsKnown(pcbs[p].held, r, |resources|);
        ReleaseKnown(View(), config, p, r);
        ReleaseResource(p, r);
        i := i + 1;
      }
    }

    method ToExit(p: nat)
      requires p in pcbs
      modifies this`pcbs, this`queues
      ensures View() == Exited(old(View()), p)
    {
      pcbs := pcbs[p := pcbs[p].(state := FINALIZADO)];
      queues := queues.(exit := queues.exit + [p]);
    }

    /** finalizar_proceso */
    method FinishProcess(p: nat)
      requires p in pcbs && |resources| == |account.orphans| && HoldsKnown(View(), p) && WaitersKnown()
      modifies this
      ensures View() == Finish(old(View()), config, p)
    {
      ToExit(p);
      ReleaseAll(p);
      sems := sems.(multi := sems.multi + 1);
    }

    /** manejar_recurso: WAIT */
    method HandleWait(p: nat, r: nat)
      requires p in pcbs && r < |resources|
      modifies this
      ensures View() == WaitOn(old(View()), p, r)
    {
      if resources[r].instances > 0 {
        TakeResource(p, r);
        MakeReady(p, false);
      } else {
        Block(p, AtResource(r));
        resources := resources[r := resources[r].(waiting := resources[r].waiting + [p])];
      }
    }

    /** manejar_recurso: SIGNAL */
    method HandleSignal(p: nat, r: nat)
      requires p in pcbs && r < |resources| == |account.orphans| && WaitersKnown()
      modifies this
      ensures View() == Kernel.MakeReady(Release(old(View()), config, p, r), p, false)
    {
      ReleaseResource(p, r);
      MakeReady(p, false);
    }

    /** bloquear_procesosIO and the request to the interface. */
    method RequestIo(p: nat, d: nat)
      requires p in pcbs && d < |devices|
      modifies this
      ensures View() == SendTo(old(View()), p, d)
    {
      Block(p, AtDevice(d));
      var dev := devices[d];
      devices := devices[d := dev.(queue := dev.queue + [p], requests := dev.requests + [p])];
    }

    /** desalojo_cpu */
    method Evict(used: nat, reason: Reason)
      requires Valid() && Possible(View(), Action.Evict(used, reason))
      modifies this
      ensures Valid() && View() == Next(old(View()), config, Action.Evict(used, reason))
      ensures var p := old(queues.exec[0]);
              && p in old(pcbs) && p in pcbs && pcbs[p].state == OutcomeOf(old(View()), reason)
              && pcbs[p].used == (if config.vrr then used else old(pcbs[p].used))
    {
      StepIsSound(View(), config, initial, Action.Evict(used, reason));
      EvictOutcome(View(), config, initial, used, reason);
      SoundKnowsWaiters(View(), config, initial);
      RunReason(used, reason);
    }

    /** Its pop of EXEC. */
    method RunReason(used: nat, reason: Reason)
      requires Formed(View()) && WaitersKnown() && Possible(View(), Action.Evict(used, reason))
      modifies this
      ensures View() == Evicted(old(View()), config, used, reason)
    {
      var p := queues.exec[0];
      assert HoldsKnown(View(), p);
      if config.vrr {
        pcbs := pcbs[p := pcbs[p].(used := used)];
      }
      queues := queues.(exec := queues.exec[1..]);
      assert View() == Leave(old(View()), config, used);
      SettleReason(p, reason);
    }

    /** The switch of desalojo_cpu. */
    method SettleReason(p: nat, reason: Reason)
      requires p in pcbs && |resources| == |account.orphans| && HoldsKnown(View(), p) && WaitersKnown()
      requires (reason.Wait? || reason.Signal?) ==> reason.r < |resources|
      modifies this
      ensures View() == Settle(old(View()), config, p, reason)
    {
      match reason
      case EndOfQuantum =>
        pcbs := pcbs[p := pcbs[p].(quantum := config.quantum)];
        account := account.(charged := account.charged[p := 0]);
        MakeReady(p, false);
      case Wait(r) => HandleWait(p, r);
      case Signal(r) => HandleSignal(p, r);
      case Io(d, matches) =>
        if d < |devices| && matches {
          RequestIo(p, d);
        } else {
          FinishProcess(p);
        }
      case Exit => FinishProcess(p);
      case Interrupted => FinishProcess(p);
      case OutOfMemory => FinishProcess(p);
      case Unknown =>
    }

    /** crear_proceso */
    method CreateProcess() returns (p: nat)
      requires Valid() && Possible(View(), Create)
      modifies this
      ensures Valid() && View() == Next(old(View()), config, Create)
      ensures p !in old(pcbs) && queues.newcomers == old(queues.newcomers) + [p]
    {
      StepIsSound(View(), config, initial, Create);
      p := AddProcess();
    }

    method AddProcess() returns (p: nat)
      modifies this
      ensures View() == Created(old(View()), config) && p == old(next)
    {
      p := next;
      next := next + 1;
      pcbs := pcbs[p := Pcb(NUEVO, config.quantum, 0, [])];
      account := account.(charged := account.charged[p := 0]);
      queues := queues.(newcomers := queues.newcomers + [p]);
      sems := sems.(newcomers := sems.newcomers + 1);
    }

    /** The first half of a turn of chequear_grado_de_multiprogramacion. */
    method TakeNext()
      requires Valid() && Possible(View(), TakeNew)
      modifies this`sems, this`account
      ensures Valid() && View() == Next(old(View()), config, TakeNew)
      ensures sems.admitting <==> queues.newcomers != []
    {
      StepIsSound(View(), config, initial, TakeNew);
      TakeUnit();
    }

    method TakeUnit()
      requires Possible(View(), TakeNew)
      modifies this`sems, this`account
      ensures View() == Taken(old(View()))
    {
      sems := sems.(newcomers := sems.newcomers - 1);
      if queues.newcomers == [] {
        account := account.(spareNew := Less(account.spareNew));
      } else {
        sems := sems.(admitting := true);
      }
    }

    /** The second half of a turn of chequear_grado_de_multiprogramacion; the kernel ends if NEW has been emptied. */
    method AdmitNext() returns (alive: bool)
      requires Valid() && Possible(View(), Admit)
      modifies this
      ensures alive <==> old(queues.newcomers) != []
      ensures !alive ==> View() == old(View()) && Crashes(View(), Admit) && 0 < account.spareNew
      ensures alive ==> Valid() && !old(Crashes(View(), Admit)) && View() == Next(old(View()), config, Admit)
      ensures alive ==> queues.ready != [] &&
                        old(queues.newcomers) == [queues.ready[|queues.ready| - 1]] + queues.newcomers
    {
      alive := queues.newcomers != [];
      if alive {
        AdmitCandidate();
      } else {
        CrashLeavesUnit(View());
      }
    }

    method AdmitCandidate()
      requires Valid() && Possible(View(), Admit) && !Crashes(View(), Admit)
      modifies this
      ensures Valid() && View() == Next(old(View()), config, Admit)
      ensures queues.ready != [] && old(queues.newcomers) == [queues.ready[|queues.ready| - 1]] + queues.newcomers
    {
      StepIsSound(View(), config, initial, Admit);
      AdmitHead();
    }

    method AdmitHead()
      requires Known(View()) && Possible(View(), Admit) && !Crashes(View(), Admit)
      modifies this
      ensures View() == Admitted(old(View()))
    {
      sems := sems.(multi := sems.multi - 1, admitting := false);
      var p := queues.newcomers[0];
      queues := queues.(newcomers := queues.newcomers[1..]);
      MakeReady(p, false);
    }

    /** A turn of planificar_PCB_cortoPlazo up to the wait for the CPU. */
    method DispatchNext()
      requires Valid() && Possible(View(), Dispatch)
      modifies this
      ensures Valid() && View() == Next(old(View()), config, Dispatch)
      ensures queues.exec == if config.vrr && old(queues.readyPlus) != [] then [old(queues.readyPlus)[0]]
                             else if old(queues.ready) != [] then [old(queues.ready)[0]] else []
    {
      StepIsSound(View(), config, initial, Dispatch);
      RunNext();
    }

    method RunNext()
      requires Known(View()) && Possible(View(), Dispatch)
      modifies this
      ensures View() == Dispatched(old(View()), config)
    {
      sems := sems.(ready := sems.ready - 1);
      if config.vrr && queues.readyPlus != [] {
        var p := queues.readyPlus[0];
        queues := queues.(readyPlus := queues.readyPlus[1..]);
        Execute(p);
      } else if queues.ready != [] {
        var p := queues.ready[0];
        queues := queues.(ready := queues.ready[1..]);
        Execute(p);
      } else {
        account := account.(spareReady := Less(account.spareReady));
      }
    }

    /** ejecutar_PCB up to the wait for the CPU. */
    method Execute(p: nat)
      requires p in pcbs
      modifies this
      ensures View() == Started(old(View()), p)
    {
      pcbs := pcbs[p := pcbs[p].(state := EJECUTANDO)];
      queues := queues.(exec := queues.exec + [p]);
    }

    /** The four FINALIZACION_INTERFAZ cases, when the console has killed no blocked process. */
    method HandleAnswer(d: nat)
      requires Valid() && Possible(View(), Complete(d))
      modifies this
      ensures Valid() && View() == Next(old(View()), config, Complete(d))
      ensures var p := old(devices[d].done[0]);
              p == old(devices[d].queue[0]) && p in old(queues.blocked) && p !in queues.blocked
    {
      StepIsSound(View(), config, initial, Complete(d));
      AnswerNamesHead(View(), config, initial, d);
      AnswerOutcome(View(), config, initial, d);
      SoundKnowsWaiters(View(), config, initial);
      TakeAnswer(d);
    }

    method TakeAnswer(d: nat)
      requires d < |devices| && devices[d].done != [] && devices[d].queue != [] && WaitersKnown()
      modifies this
      ensures View() == Completed(old(View()), config, d)
    {
      var dev := devices[d];
      devices := devices[d := dev.(done := dev.done[1..], queue := dev.queue[1..])];
      Unblock(dev.done[0]);
    }

    /** finalizar_proceso_consola: one that runs is interrupted instead, one in the priority queue is not found. */
    method KillFromConsole(p: nat)
      requires Valid() && sems.pending == 0 && p !in queues.blocked
      modifies this
      ensures Valid()
      ensures View() == if p in old(queues.newcomers) then Next(old(View()), config, KillNew(p))
                        else if p in old(queues.ready) then Next(old(View()), config, KillReady(p)) else old(View())
      ensures p in old(queues.newcomers) || p in old(queues.ready) ==> p in pcbs && pcbs[p].state == FINALIZADO
    {
      if p in queues.exec {
        RunsNowhereElse(View(), p);
        return;
      }
      SoundKnowsWaiters(View(), config, initial);
      if p in queues.newcomers {
        StepIsSound(View(), config, initial, KillNew(p));
        NewKilledEnds(View(), config, p);
        KillInNew(p);
      } else if p in queues.ready {
        StepIsSound(View(), config, initial, KillReady(p));
        ReadyKilledEnds(View(), config, p);
        KillInReady(p);
      }
    }

    method KillInNew(p: nat)
      requires Formed(View()) && WaitersKnown() && p in queues.newcomers
      modifies this
      ensures View() == NewKilled(old(View()), config, p)
    {
      assert HoldsKnown(View(), p);
      ghost var s := View();
      queues := queues.(newcomers := RemoveFirst(queues.newcomers, p));
      account := account.(spareNew := account.spareNew + 1);
      assert View() == WithoutNew(s, p);
      ToExit(p);
      ReleaseAll(p);
    }

    method KillInReady(p: nat)
      requires Formed(View()) && WaitersKnown() && p in queues.ready
      modifies this
      ensures View() == ReadyKilled(old(View()), config, p)
    {
      ghost var s := View();
      assert HoldsKnown(s, p);
      queues := queues.(ready := RemoveFirst(queues.ready, p));
      account := account.(spareReady := account.spareReady + 1);
      assert View() == WithoutReady(s, p);
      FinishProcess(p);
    }

    /** cambiar_multiprogramacion: the posts; the waits of a decrease are steps of their own. */
    method ChangeDegree(n: int)
      requires Valid() && Possible(View(), SetDegree(n))
      modifies this`sems
      ensures Valid() && View() == Next(old(View()), config, SetDegree(n))
      ensures sems.grade == n
      ensures sems.multi == old(sems.multi) + (if n > old(sems.grade) then n - old(sems.grade) else 0)
      ensures sems.pending == old(sems.pending) + (if n < old(sems.grade) then old(sems.grade) - n else 0)
    {
      StepIsSound(View(), config, initial, SetDegree(n));
      PostPlaces(n);
    }

    method PostPlaces(n: int)
      modifies this`sems
      ensures View() == DegreeSet(old(View()), n)
      ensures sems.grade == n
      ensures sems.multi == old(sems.multi) + (if n > old(sems.grade) then n - old(sems.grade) else 0)
      ensures sems.pending == old(sems.pending) + (if n < old(sems.grade) then old(sems.grade) - n else 0)
    {
      var before := sems.grade;
      sems := sems.(grade := n);
      var i := before;
      while i < n
        invariant before <= i && (i <= n || i == before)
        invariant sems == old(sems).(grade := n, multi := old(sems).multi + (i - before))
      {
        sems := sems.(multi := sems.multi + 1);
        i := i + 1;
      }
      if n < before {
        sems := sems.(pending := sems.pending + (before - n));
      }
    }

    /** One of its waits. */
    method LowerDegree()
      requires Valid() && Possible(View(), Lower)
      modifies this`sems
      ensures Valid() && View() == Next(old(View()), config, Lower)
      ensures sems == old(sems).(multi := old(sems.multi) - 1, pending := old(sems.pending) - 1)
    {
      StepIsSound(View(), config, initial, Lower);
      TakePlace();
    }

    method TakePlace()
      requires Possible(View(), Lower)
      modifies this`sems
      ensures View() == Lowered(old(View()))
    {
      sems := sems.(multi := sems.multi - 1, pending := sems.pending - 1);
    }
  }

  lemma StepIsSound(s: State, config: Config, initial: seq<nat>, a: Action)
    requires Sound(s, config, initial) && Possible(s, a) && !Crashes(s, a) && 0 < config.quantum
    ensures Formed(s) && Sound(Next(s, config, a), config, initial) && Formed(Next(s, config, a))
  {
    StepKeeps(s, config, initial, a);
    SoundIsFormed(Next(s, config, a), config, initial);
  }

  lemma SoundKnowsWaiters(s: State, config: Config, initial: seq<nat>)
    requires Sound(s, config, initial)
    ensures forall q <- s.queues.blocked :: q in s.pcbs && q in s.account.charged
  {
  }

  /** The running process is in no other queue. */
  lemma RunsNowhereElse(s: State, p: nat)
    requires Placed(s, multiset{}) && p in s.queues.exec
    ensures p !in s.queues.newcomers && p !in s.queues.ready
  {
    assert p in multiset(s.queues.exec);
    assert multiset(s.pcbs.Keys)[p] == (InQueues(s.queues) + multiset{})[p];
  }

  lemma NewKilledEnds(s: State, config: Config, p: nat)
    requires Formed(s) && p in s.queues.newcomers && p !in s.queues.blocked
    ensures var t := NewKilled(s, config, p); p in t.pcbs && t.pcbs[p].state == FINALIZADO
  {
    assert HoldsKnown(s, p);
    ReleaseFromPcb(Exited(WithoutNew(s, p), p), config, p, 0);
  }

  lemma ReadyKilledEnds(s: State, config: Config, p: nat)
    requires Formed(s) && p in s.queues.ready && p !in s.queues.blocked
    ensures var t := ReadyKilled(s, config, p); p in t.pcbs && t.pcbs[p].state == FINALIZADO
  {
    assert HoldsKnown(s, p);
    ReleaseFromPcb(Exited(WithoutReady(s, p), p), config, p, 0);
  }

  lemma ReleaseKnown(s: State, config: Config, p: nat, r: nat)
    requires p in s.pcbs && r < |s.resources| == |s.account.orphans|
    requires forall q <- s.queues.blocked :: q in s.pcbs && q in s.account.charged
    ensures var t := Release(s, config, p, r);
            forall q <- t.queues.blocked :: q in t.pcbs && q in t.account.charged
  {
    var g := GiveBack(s, p, r);
    assert g.queues == s.queues && g.pcbs.Keys == s.pcbs.Keys && g.account.charged == s.account.charged;
    WakeKnown(g, config, r);
  }

  lemma WakeKnown(s: State, config: Config, r: nat)
    requires r < |s.resources| && forall q <- s.queues.blocked :: q in s.pcbs && q in s.account.charged
    ensures var t := Wake(s, config, r);
            forall q <- t.queues.blocked :: q in t.pcbs && q in t.account.charged
  {
    if s.resources[r].waiting != [] {
      RemoveFirstIn(s.queues.blocked, s.resources[r].waiting[0]);
    }
  }
}
