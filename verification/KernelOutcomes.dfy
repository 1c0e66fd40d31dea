/** What becomes of the process that a routine is about (kernel/src/planificador.c:274-328, 557-585, 629-696). */
module KernelOutcomes {
  import opened Kernel
  import opened KernelInvariant
  import opened KernelRuns
  import opened KernelOrder
  import opened KernelEffects
  import opened KernelBystanders

  /** What `estado` is to be after an eviction. */
  function OutcomeOf(s: State, reason: Reason): ProcessState
    requires (reason.Wait? || reason.Signal?) ==> reason.r < |s.resources|
  {
    match reason
    case EndOfQuantum => LISTO
    case Signal(_) => LISTO
    case Wait(r) => if s.resources[r].instances > 0 then LISTO else BLOQUEADO
    case Io(d, matches) => if d < |s.devices| && matches then BLOQUEADO else FINALIZADO
    case Unknown => EJECUTANDO
    case _ => FINALIZADO
  }

  /**
   The rest of an eviction of `p`, which has left with PCB `pcb` the queues `q`: PCB, queues, resources
   and interfaces afterwards. The end of a process is said by what it gives back and what it keeps.
   */
  ghost predicate Outcome(s: State, t: State, config: Config, p: nat, pcb: Pcb, q: Queues, reason: Reason)
    requires (reason.Wait? || reason.Signal?) ==> reason.r < |s.resources|
    requires reason.Signal? && s.resources[reason.r].waiting != [] ==> s.resources[reason.r].waiting[0] in s.pcbs
    requires p in s.pcbs
  {
    var toReady, toBlocked := q.(ready := q.ready + [p]), q.(blocked := q.blocked + [p]);
    p in t.pcbs &&
    match reason
    case EndOfQuantum =>
      && t.pcbs[p] == pcb.(state := LISTO, quantum := config.quantum)
      && t.queues == toReady && t.resources == s.resources && t.devices == s.devices
    case Wait(r) =>
      var res := s.resources[r];
      t.devices == s.devices &&
      if res.instances > 0 then
        && t.pcbs[p] == pcb.(state := LISTO, held := pcb.held + [r])
        && t.queues == toReady && t.resources == s.resources[r := res.(instances := res.instances - 1)]
      else
        && t.pcbs[p] == pcb.(state := BLOQUEADO)
        && t.queues == toBlocked && t.resources == s.resources[r := res.(waiting := res.waiting + [p])]
    case Signal(r) =>
      var res := s.resources[r];
      && t.pcbs[p] == pcb.(state := LISTO, held := RemoveFirst(pcb.held, r)) && t.devices == s.devices
      && var waiting := if res.waiting == [] then [] else res.waiting[1..];
      && t.resources == s.resources[r := Resource(res.instances + 1, waiting)]
      && var woken := if res.waiting == [] then q else QueuesAfter(q, config, res.waiting[0], s.pcbs[res.waiting[0]]);
         t.queues == woken.(ready := woken.ready + [p])
    case Io(d, matches) =>
      if d < |s.devices| && matches then
        var dev := s.devices[d];
        && t.pcbs[p] == pcb.(state := BLOQUEADO) && t.queues == toBlocked && t.resources == s.resources
        && t.devices == s.devices[d := dev.(queue := dev.queue + [p], requests := dev.requests + [p])]
      else Ends(s, t, p, pcb, q)
    case Unknown => true
    case _ => Ends(s, t, p, pcb, q)
  }

  /** The process is the last of EXIT, with the holdings it keeps, and leaves its place. */
  ghost predicate Ends(s: State, t: State, p: nat, pcb: Pcb, q: Queues)
    requires p in s.pcbs
  {
    && GivesEvens(s, t, p) && t.pcbs[p] == pcb.(state := FINALIZADO, held := t.pcbs[p].held)
    && t.queues.exit == q.exit + [p] && t.queues.exec == q.exec && t.queues.newcomers == q.newcomers
    && q.ready <= t.queues.ready && q.readyPlus <= t.queues.readyPlus
    && t.sems.multi == s.sems.multi + 1
  }

  /** A process that is not blocked keeps what it has but its holdings. */
  lemma {:induction false} ReleaseFromPcb(s: State, config: Config, p: nat, i: nat)
    requires p in s.pcbs && |s.resources| == |s.account.orphans| && HoldsKnown(s, p) && p !in s.queues.blocked
    ensures var t := ReleaseFrom(s, config, p, i); p in t.pcbs && t.pcbs[p] == s.pcbs[p].(held := t.pcbs[p].held)
    decreases |s.pcbs[p].held|
  {
    if i < |s.pcbs[p].held| {
      var r := s.pcbs[p].held[i];
      assert r in s.pcbs[p].held;
      RemoveKeepsKnown(s.pcbs[p].held, r, |s.resources|);
      ReleasePcb(s, config, p, r);
      ReleaseFromPcb(Release(s, config, p, r), config, p, i + 1);
    }
  }

  lemma ReleasePcb(s: State, config: Config, p: nat, r: nat)
    requires p in s.pcbs && r < |s.resources| == |s.account.orphans| && p !in s.queues.blocked
    ensures var t := Release(s, config, p, r);
            p !in t.queues.blocked && t.pcbs[p] == s.pcbs[p].(held := t.pcbs[p].held)
  {
    var g := GiveBack(s, p, r);
    assert g.queues == s.queues && g.pcbs[p] == WithoutOne(s.pcbs[p], r);
    WakePcb(g, config, p, r);
  }

  lemma WakePcb(s: State, config: Config, p: nat, r: nat)
    requires p in s.pcbs && r < |s.resources| && p !in s.queues.blocked
    ensures var t := Wake(s, config, r); p !in t.queues.blocked && t.pcbs[p] == s.pcbs[p]
  {
    if s.resources[r].waiting != [] {
      RemoveFirstIn(s.queues.blocked, s.resources[r].waiting[0]);
    }
  }

  /** finalizar_proceso */
  lemma FinishOutcome(s: State, config: Config, p: nat)
    requires p in s.pcbs && |s.resources| == |s.account.orphans| && HoldsKnown(s, p) && p !in s.queues.blocked
    requires NoneNegative(s)
    ensures Ends(s, Finish(s, config, p), p, s.pcbs[p], s.queues)
  {
    var e := Exited(s, p);
    FinishGives(s, config, p);
    ReleaseFromPcb(e, config, p, 0);
    ReleaseFromQuiet(e, config, p, 0);
    ReleaseFromAppends(e, config, p, 0);
  }

  lemma SignalOutcome(s: State, config: Config, p: nat, r: nat)
    requires p in s.pcbs && r < |s.resources| == |s.account.orphans| && p !in s.queues.blocked && NoneNegative(s)
    requires s.resources[r].waiting != [] ==>
               var w := s.resources[r].waiting[0]; w in s.queues.blocked && w in s.pcbs && w in s.account.charged
    ensures Outcome(s, MakeReady(Release(s, config, p, r), p, false), config, p, s.pcbs[p], s.queues, Signal(r))
  {
    var t := Release(s, config, p, r);
    ReleasePcb(s, config, p, r);
    if s.resources[r].waiting == [] {
      ReleaseWakesNobody(s, config, p, r);
    } else {
      ReleaseWakes(s, config, p, r, s.resources[r].waiting[0]);
    }
  }

  lemma SettleOutcome(s: State, config: Config, p: nat, reason: Reason)
    requires p in s.pcbs && |s.resources| == |s.account.orphans| && HoldsKnown(s, p) && p !in s.queues.blocked
    requires NoneNegative(s) && !reason.Unknown?
    requires (reason.Wait? || reason.Signal?) ==> reason.r < |s.resources|
    requires reason.Signal? && s.resources[reason.r].waiting != [] ==>
               var w := s.resources[reason.r].waiting[0]; w in s.queues.blocked && w in s.pcbs && w in s.account.charged
    ensures Outcome(s, Settle(s, config, p, reason), config, p, s.pcbs[p], s.queues, reason)
  {
    match reason
    case Signal(r) => SignalOutcome(s, config, p, r);
    case Io(d, matches) =>
      if !(d < |s.devices| && matches) {
        FinishOutcome(s, config, p);
      }
    case Exit => FinishOutcome(s, config, p);
    case Interrupted => FinishOutcome(s, config, p);
    case OutOfMemory => FinishOutcome(s, config, p);
    case _ =>
  }

  /** What the process takes off the CPU: under VRR, the time it used. */
  function Noted(config: Config, pcb: Pcb, used: nat): Pcb {
    if config.vrr then pcb.(used := used) else pcb
  }

  /** ... and the queues without it. */
  function OffCpu(q: Queues): Queues
    requires q.exec != []
  {
    q.(exec := q.exec[1..])
  }

  lemma LeaveOutcome(s: State, config: Config, used: nat)
    requires s.queues.exec != [] && s.queues.exec[0] in s.pcbs
    ensures var p, l := s.queues.exec[0], Leave(s, config, used);
            && l.pcbs == s.pcbs[p := Noted(config, s.pcbs[p], used)] && l.queues == OffCpu(s.queues)
            && l.resources == s.resources && l.devices == s.devices && l.sems == s.sems && l.account == s.account
  {
  }

  /** The outcome reads only these parts of the state before. */
  lemma OutcomeFrom(l: State, s: State, t: State, config: Config, p: nat, pcb: Pcb, q: Queues, reason: Reason)
    requires p in s.pcbs && p in l.pcbs && (reason.Wait? || reason.Signal? ==> reason.r < |s.resources|)
    requires l.resources == s.resources && l.devices == s.devices && l.sems == s.sems
    requires l.pcbs.Keys == s.pcbs.Keys && l.pcbs[p].held == s.pcbs[p].held
    requires forall w | w in s.pcbs && w != p :: l.pcbs[w] == s.pcbs[w]
    requires reason.Signal? && s.resources[reason.r].waiting != [] ==>
               s.resources[reason.r].waiting[0] in s.pcbs && s.resources[reason.r].waiting[0] != p
    requires Outcome(l, t, config, p, pcb, q, reason)
    ensures Outcome(s, t, config, p, pcb, q, reason)
  {
    if t.pcbs[p] == pcb.(state := FINALIZADO, held := t.pcbs[p].held) && GivesEvens(l, t, p) {
      assert GivesEvens(s, t, p);
    }
  }

  /**
   Every reason sends the evicted process where it should. Under VRR the time it used is noted. The end
   of a quantum renews it and sends it to the end of READY; a WAIT blocks exactly when no instance is
   left and else takes one; a SIGNAL adds one instance, wakes the first waiter, and the process comes
   after it; a request goes to the interface; and the rest end it.
   */
  lemma EvictOutcome(s: State, config: Config, initial: seq<nat>, used: nat, reason: Reason)
    requires Sound(s, config, initial) && Possible(s, Evict(used, reason))
    ensures Formed(s) && s.queues.exec[0] in s.pcbs
    ensures reason.Signal? && s.resources[reason.r].waiting != [] ==> s.resources[reason.r].waiting[0] in s.pcbs
    ensures var p, t := s.queues.exec[0], Evicted(s, config, used, reason);
            && p in t.pcbs && t.pcbs[p].state == OutcomeOf(s, reason)
            && t.pcbs[p].used == (if config.vrr then used else s.pcbs[p].used)
            && Outcome(s, t, config, p, Noted(config, s.pcbs[p], used), OffCpu(s.queues), reason)
  {
    SoundIsFormed(s, config, initial);
    var p, l := s.queues.exec[0], Leave(s, config, used);
    LeaveKeeps(s, config, initial, used);
    LeaveOutcome(s, config, used);
    InHandIsOut(l, multiset{p}, p);
    assert HoldsKnown(l, p);
    if reason.Signal? && s.resources[reason.r].waiting != [] {
      WaiterWaits(l, config, initial, multiset{p}, 1, reason.r);
    }
    OffOutcome(s, l, config, p, Noted(config, s.pcbs[p], used), reason);
  }

  lemma OffOutcome(s: State, l: State, config: Config, p: nat, pcb: Pcb, reason: Reason)
    requires p in s.pcbs && |s.resources| == |l.account.orphans| && l.pcbs == s.pcbs[p := pcb]
    requires l.resources == s.resources && l.devices == s.devices && l.sems == s.sems && pcb.held == s.pcbs[p].held
    requires HoldsKnown(l, p) && p !in l.queues.blocked && NoneNegative(s) && !reason.Unknown?
    requires (reason.Wait? || reason.Signal?) ==> reason.r < |s.resources|
    requires reason.Signal? && s.resources[reason.r].waiting != [] ==>
               var w := s.resources[reason.r].waiting[0];
               w in l.queues.blocked && w in s.pcbs && w in l.account.charged && w != p
    ensures var t := Settle(l, config, p, reason);
            && Outcome(s, t, config, p, pcb, l.queues, reason)
            && t.pcbs[p].state == OutcomeOf(s, reason) && t.pcbs[p].used == pcb.used
  {
    var t := Settle(l, config, p, reason);
    SettleOutcome(l, config, p, reason);
    OutcomeFrom(l, s, t, config, p, pcb, l.queues, reason);
    OutcomeState(s, t, config, p, pcb, l.queues, reason);
  }

  lemma OutcomeState(s: State, t: State, config: Config, p: nat, pcb: Pcb, q: Queues, reason: Reason)
    requires p in s.pcbs && (reason.Wait? || reason.Signal? ==> reason.r < |s.resources|) && !reason.Unknown?
    requires reason.Signal? && s.resources[reason.r].waiting != [] ==> s.resources[reason.r].waiting[0] in s.pcbs
    requires Outcome(s, t, config, p, pcb, q, reason)
    ensures t.pcbs[p].state == OutcomeOf(s, reason) && t.pcbs[p].used == pcb.used
  {
  }

  /**
   The process that an answer names leaves the blocked queue for the end of a ready queue, the
   priority queue exactly when VRR finds quantum left over, and keeps just that much.
   */
  lemma AnswerOutcome(s: State, config: Config, initial: seq<nat>, d: nat)
    requires Sound(s, config, initial) && d < |s.devices| && s.devices[d].done != []
    ensures s.devices[d].queue != [] && s.devices[d].done[0] in s.pcbs
    ensures var dev, p, t := s.devices[d], s.devices[d].done[0], Completed(s, config, d);
            && p == dev.queue[0] && p in t.pcbs && p !in t.queues.blocked
            && t.pcbs[p] == AfterWait(config, s.pcbs[p])
            && t.queues == QueuesAfter(s.queues, config, p, s.pcbs[p])
            && t.devices == s.devices[d := dev.(done := dev.done[1..], queue := dev.queue[1..])]
            && t.resources == s.resources
  {
    AnswerNamesHead(s, config, initial, d);
    BlockedOnce(s, multiset{}, s.devices[d].done[0]);
    var dev := s.devices[d];
    var popped := s.(devices := s.devices[d := dev.(done := dev.done[1..], queue := dev.queue[1..])]);
    UnblockWakes(popped, config, dev.done[0]);
  }

  // The other steps

  /** What a step of a thread or an interface does when no process leaves the CPU or is woken or killed. */
  ghost predicate PlainOutcome(s: State, t: State, config: Config, a: Action)
    requires Known(s) && Possible(s, a) && !Crashes(s, a)
  {
    var q := s.queues;
    match a
    case Create =>
      && t.pcbs == s.pcbs[s.next := Pcb(NUEVO, config.quantum, 0, [])] && t.next == s.next + 1
      && t.queues == q.(newcomers := q.newcomers + [s.next])
      && t.sems == s.sems.(newcomers := s.sems.newcomers + 1) && t.resources == s.resources && t.devices == s.devices
    case TakeNew =>
      && t.sems == s.sems.(newcomers := s.sems.newcomers - 1, admitting := q.newcomers != [])
      && t == s.(sems := t.sems, account := t.account)
    case Admit =>
      var p := q.newcomers[0];
      && t.pcbs == s.pcbs[p := s.pcbs[p].(state := LISTO)]
      && t.queues == q.(newcomers := q.newcomers[1..], ready := q.ready + [p])
      && t.sems == s.sems.(multi := s.sems.multi - 1, ready := s.sems.ready + 1, admitting := false)
      && t == s.(pcbs := t.pcbs, queues := t.queues, sems := t.sems)
    case Dispatch =>
      && t.sems == s.sems.(ready := s.sems.ready - 1) && t.resources == s.resources && t.devices == s.devices
      && if config.vrr && q.readyPlus != [] then
           && t.pcbs == s.pcbs[q.readyPlus[0] := s.pcbs[q.readyPlus[0]].(state := EJECUTANDO)]
           && t.queues == q.(readyPlus := q.readyPlus[1..], exec := [q.readyPlus[0]])
         else if q.ready != [] then
           && t.pcbs == s.pcbs[q.ready[0] := s.pcbs[q.ready[0]].(state := EJECUTANDO)]
           && t.queues == q.(ready := q.ready[1..], exec := [q.ready[0]])
         else t.pcbs == s.pcbs && t.queues == q
    case Serve(d) =>
      var dev := s.devices[d];
      t == s.(devices := s.devices[d := dev.(serving := [dev.requests[0]], requests := dev.requests[1..])])
    case Answer(d) =>
      var dev := s.devices[d];
      t == s.(devices := s.devices[d := dev.(serving := [], done := dev.done + dev.serving)])
    case _ => true
  }

  lemma PlainSteps(s: State, config: Config, a: Action)
    requires Formed(s) && Possible(s, a) && !Crashes(s, a)
    ensures PlainOutcome(s, Next(s, config, a), config, a)
  {
  }

  /** What the console kills ends: in NEW without a place of its own, in READY with one to give back. */
  lemma KillOutcome(s: State, config: Config, initial: seq<nat>, a: Action)
    requires Sound(s, config, initial) && Possible(s, a) && (a.KillNew? || a.KillReady?)
    ensures Formed(s) && a.p in s.pcbs
    ensures var t, p := Next(s, config, a), a.p;
            && GivesEvens(s, t, p) && t.pcbs[p] == s.pcbs[p].(state := FINALIZADO, held := t.pcbs[p].held)
            && t.queues.exit == s.queues.exit + [p]
            && t.sems.multi == s.sems.multi + (if a.KillReady? then 1 else 0)
  {
    SoundIsFormed(s, config, initial);
    assert HoldsKnown(s, a.p);
    KilledNotBlocked(s, a.p);
    if a.KillNew? {
      KilledEnds(s, WithoutNew(s, a.p), config, a.p);
    } else {
      KilledEnds(s, WithoutReady(s, a.p), config, a.p);
    }
  }

  lemma KilledNotBlocked(s: State, p: nat)
    requires StatesMatch(s) && (p in s.queues.newcomers || p in s.queues.ready)
    ensures p in s.pcbs && p !in s.queues.blocked
  {
  }

  lemma KilledEnds(s: State, u: State, config: Config, p: nat)
    requires p in s.pcbs && u.pcbs == s.pcbs && u.resources == s.resources && u.devices == s.devices
    requires u.queues.blocked == s.queues.blocked && u.queues.exit == s.queues.exit && u.sems == s.sems
    requires |u.resources| == |u.account.orphans| && HoldsKnown(u, p) && p !in u.queues.blocked && NoneNegative(u)
    ensures var t := ReleaseFrom(Exited(u, p), config, p, 0);
            && GivesEvens(s, t, p) && t.pcbs[p] == s.pcbs[p].(state := FINALIZADO, held := t.pcbs[p].held)
            && t.queues.exit == s.queues.exit + [p] && t.sems.multi == s.sems.multi
  {
    var e := Exited(u, p);
    ReleaseAllGives(e, config, p);
    ReleaseFromPcb(e, config, p, 0);
    ReleaseFromQuiet(e, config, p, 0);
    var t := ReleaseFrom(e, config, p, 0);
    GivesAround(s, e, t, t, p);
  }

  // The quantum over a run

  /** A process that asked an interface for something waits with the time it used noted. */
  lemma IoWaits(s: State, config: Config, initial: seq<nat>, used: nat, d: nat)
    requires Sound(s, config, initial) && s.queues.exec != [] && d < |s.devices|
    ensures Formed(s) && s.queues.exec[0] in s.pcbs
    ensures var p := s.queues.exec[0];
            WaitsWith(Evicted(s, config, used, Io(d, true)), d, p,
                      Noted(config, s.pcbs[p], used).(state := BLOQUEADO))
  {
    EvictOutcome(s, config, initial, used, Io(d, true));
  }

  /**
   VRR: a process that leaves the CPU for an interface after `used` of its quantum has, after its answer,
   the rest of its quantum and the end of the priority queue, whatever all others do in between; with
   nothing left, or without VRR, it has the quantum that it had and the end of READY.
   */
  lemma QuantumLeft(s: State, config: Config, initial: seq<nat>, used: nat, d: nat, between: seq<Action>)
    requires Sound(s, config, initial) && 0 < config.quantum && s.queues.exec != [] && d < |s.devices|
    ensures Formed(s) && s.queues.exec[0] in s.pcbs
    ensures var p, s1 := s.queues.exec[0], Evicted(s, config, used, Io(d, true));
            IsRun(s1, config, between) && NotAnswered(s1, config, between, d, p) &&
            Answers(After(s1, config, between), Complete(d), d, p) ==>
              var s2 := After(s1, config, between);
              && s2.devices[d].queue != []
              && var t, q := Completed(s2, config, d), s.pcbs[p].quantum;
                 && p in t.pcbs
                 && if config.vrr && used < q then
                      t.pcbs[p].quantum == q - used && t.queues.readyPlus == s2.queues.readyPlus + [p]
                    else
                      t.pcbs[p].quantum == q && t.queues.ready == s2.queues.ready + [p]
  {
    IoWaits(s, config, initial, used, d);
    EvictKeeps(s, config, initial, used, Io(d, true));
    var p, s1 := s.queues.exec[0], Evicted(s, config, used, Io(d, true));
    if IsRun(s1, config, between) && NotAnswered(s1, config, between, d, p) &&
       Answers(After(s1, config, between), Complete(d), d, p)
    {
      var pcb := Noted(config, s.pcbs[p], used).(state := BLOQUEADO);
      RunStaysWaiting(s1, config, initial, between, d, p, pcb);
      AnswerOutcome(After(s1, config, between), config, initial, d);
    }
  }
}
