/**
 The degree of multiprogramming over a run (kernel/src/consola.c:320-340), and the units of semNew and
 semReady that kills leave over.
 */
module KernelDegree {
  import opened Kernel
  import opened KernelInvariant
  import opened KernelRuns
  import opened KernelEffects

  /** MULTIPROGRAMACION sets the degree: an increase posts the difference, a decrease has it waited for. */
  lemma SetDegreeOutcome(s: State, config: Config, n: int)
    requires Formed(s) && Possible(s, SetDegree(n))
    ensures var t := Next(s, config, SetDegree(n));
            && t.sems.grade == n
            && t.sems.multi == s.sems.multi + (if n > s.sems.grade then n - s.sems.grade else 0)
            && t.sems.pending == s.sems.pending + (if n < s.sems.grade then s.sems.grade - n else 0)
            && t == s.(sems := s.sems.(grade := n, multi := t.sems.multi, pending := t.sems.pending))
  {
  }

  /** One of its waits takes one place. */
  lemma LowerOutcome(s: State, config: Config)
    requires Formed(s) && Possible(s, Lower)
    ensures var t := Next(s, config, Lower);
            && t.sems.multi == s.sems.multi - 1 && t.sems.pending == s.sems.pending - 1
            && t == s.(sems := s.sems.(multi := t.sems.multi, pending := t.sems.pending))
  {
  }

  lemma SettleDegree(s: State, config: Config, p: nat, reason: Reason)
    requires p in s.pcbs && |s.resources| == |s.account.orphans| && HoldsKnown(s, p)
    requires (reason.Wait? || reason.Signal?) ==> reason.r < |s.resources|
    ensures var t := Settle(s, config, p, reason); t.sems.grade == s.sems.grade && t.sems.pending == s.sems.pending
  {
    match reason
    case Signal(r) => ReleaseSems(s, config, p, r);
    case Io(d, matches) =>
      if !(d < |s.devices| && matches) {
        ReleaseFromQuiet(Exited(s, p), config, p, 0);
      }
    case Exit => ReleaseFromQuiet(Exited(s, p), config, p, 0);
    case Interrupted => ReleaseFromQuiet(Exited(s, p), config, p, 0);
    case OutOfMemory => ReleaseFromQuiet(Exited(s, p), config, p, 0);
    case _ =>
  }

  /** One more SIGNAL without a holding, if the resource is not held. */
  function OrphansAfter(orphans: seq<nat>, held: seq<nat>, r: nat): seq<nat>
    requires r < |orphans|
  {
    orphans[r := orphans[r] + if r in held then 0 else 1]
  }

  lemma ReleaseSems(s: State, config: Config, p: nat, r: nat)
    requires p in s.pcbs && r < |s.resources| == |s.account.orphans|
    ensures Release(s, config, p, r).sems == s.sems.(ready := Release(s, config, p, r).sems.ready)
    ensures Release(s, config, p, r).account.spareNew == s.account.spareNew
    ensures Release(s, config, p, r).account.spareReady == s.account.spareReady
    ensures Release(s, config, p, r).account.orphans == OrphansAfter(s.account.orphans, s.pcbs[p].held, r)
  {
    WakeQuiet(GiveBack(s, p, r), config, r);
  }

  lemma EvictDegree(s: State, config: Config, used: nat, reason: Reason)
    requires Formed(s) && Possible(s, Evict(used, reason))
    ensures var t := Evicted(s, config, used, reason);
            t.sems.grade == s.sems.grade && t.sems.pending == s.sems.pending
  {
    var p := s.queues.exec[0];
    assert HoldsKnown(s, p);
    assert HoldsKnown(Leave(s, config, used), p);
    SettleDegree(Leave(s, config, used), config, p, reason);
  }

  lemma KillDegree(s: State, config: Config, a: Action)
    requires Formed(s) && Possible(s, a) && (a.KillNew? || a.KillReady?)
    ensures var t := Next(s, config, a); t.sems.grade == s.sems.grade && t.sems.pending == s.sems.pending
  {
    assert HoldsKnown(s, a.p);
    if a.KillNew? {
      ReleaseFromQuiet(Exited(WithoutNew(s, a.p), a.p), config, a.p, 0);
    } else {
      ReleaseFromQuiet(Exited(WithoutReady(s, a.p), a.p), config, a.p, 0);
    }
  }

  /** Only the console changes the degree. */
  lemma StepDegree(s: State, config: Config, a: Action)
    requires Formed(s) && Possible(s, a) && !Crashes(s, a)
    ensures Next(s, config, a).sems.grade == if a.SetDegree? then a.n else s.sems.grade
  {
    match a
    case Evict(used, reason) => EvictDegree(s, config, used, reason);
    case KillNew(_) => KillDegree(s, config, a);
    case KillReady(_) => KillDegree(s, config, a);
    case _ =>
  }

  /** The last degree that was asked for. */
  function LastDegree(degree: int, steps: seq<Action>): int
    decreases |steps|
  {
    if steps == [] then degree
    else LastDegree(if steps[0].SetDegree? then steps[0].n else degree, steps[1..])
  }

  lemma {:induction false} RunDegree(s: State, config: Config, steps: seq<Action>)
    requires IsRun(s, config, steps)
    ensures After(s, config, steps).sems.grade == LastDegree(s.sems.grade, steps)
    decreases |steps|
  {
    if steps != [] {
      if Crashes(s, steps[0]) {
        assert steps[1..] == [];
      } else {
        StepDegree(s, config, steps[0]);
        RunDegree(Next(s, config, steps[0]), config, steps[1..]);
      }
    }
  }

  /** Processes that have been admitted and have not ended. */
  function Admitted(s: State): nat {
    |s.queues.ready| + |s.queues.readyPlus| + |s.queues.exec| + |s.queues.blocked|
  }

  /**
   After any run, unless a decrease still waits for places, no more processes are admitted at once than
   the degree that was asked for last, and what is missing to it is on the semaphore.
   */
  lemma AdmittedWithinDegree(degree: nat, config: Config, initial: seq<nat>, devices: nat, steps: seq<Action>)
    requires 0 < config.quantum && IsRun(Start(degree, initial, devices), config, steps)
    ensures var t := After(Start(degree, initial, devices), config, steps);
            && t.sems.multi + Admitted(t) == LastDegree(degree, steps) + t.sems.pending
            && (t.sems.pending == 0 ==> Admitted(t) <= LastDegree(degree, steps))
  {
    ReachableIsSound(degree, config, initial, devices, steps);
    RunDegree(Start(degree, initial, devices), config, steps);
  }

  /** Two more places after MULTIPROGRAMACION 5 at degree 2. */
  lemma FromTwoToFive(s: State, config: Config)
    requires Formed(s) && Possible(s, SetDegree(5)) && s.sems.grade == 2
    ensures Next(s, config, SetDegree(5)).sems.grade == 5
    ensures Next(s, config, SetDegree(5)).sems.multi == s.sems.multi + 3
  {
    SetDegreeOutcome(s, config, 5);
  }

  // Units left over

  /** The turn of a thread that finds its queue empty. */
  predicate IdleNew(s: State, a: Action) {
    a.TakeNew? && s.queues.newcomers == []
  }

  predicate IdleReady(s: State, config: Config, a: Action) {
    a.Dispatch? && s.queues.ready == [] && !(config.vrr && s.queues.readyPlus != [])
  }

  /** A SIGNAL of a resource that the process does not hold. */
  predicate Unheld(s: State, a: Action, k: nat) {
    && a.Evict? && a.reason.Signal? && a.reason.r == k && s.queues.exec != []
    && s.queues.exec[0] in s.pcbs && k !in s.pcbs[s.queues.exec[0]].held
  }

  /** What the proofs keep account of moves as its names say. */
  ghost predicate Accounted(s: State, t: State, config: Config, a: Action) {
    && t.account.spareNew == s.account.spareNew + (if a.KillNew? then 1 else 0) - (if IdleNew(s, a) then 1 else 0)
    && t.account.spareReady ==
       s.account.spareReady + (if a.KillReady? then 1 else 0) - (if IdleReady(s, config, a) then 1 else 0)
    && |t.account.orphans| == |s.account.orphans|
    && forall k | 0 <= k < |s.account.orphans| ::
         t.account.orphans[k] == s.account.orphans[k] + if Unheld(s, a, k) then 1 else 0
  }

  /** The accounts of kills and SIGNALs stay. */
  ghost predicate SameAccount(s: State, t: State) {
    && t.account.spareNew == s.account.spareNew && t.account.spareReady == s.account.spareReady
    && t.account.orphans == s.account.orphans
  }

  lemma FinishAccount(s: State, config: Config, p: nat)
    requires p in s.pcbs && |s.resources| == |s.account.orphans| && HoldsKnown(s, p)
    ensures SameAccount(s, Finish(s, config, p))
  {
    ReleaseFromQuiet(Exited(s, p), config, p, 0);
  }

  lemma SettleAccount(s: State, config: Config, p: nat, reason: Reason)
    requires p in s.pcbs && |s.resources| == |s.account.orphans| && HoldsKnown(s, p)
    requires !reason.Signal? && (reason.Wait? ==> reason.r < |s.resources|)
    ensures SameAccount(s, Settle(s, config, p, reason))
  {
    match reason
    case Io(d, matches) =>
      if !(d < |s.devices| && matches) {
        FinishAccount(s, config, p);
      }
    case Exit => FinishAccount(s, config, p);
    case Interrupted => FinishAccount(s, config, p);
    case OutOfMemory => FinishAccount(s, config, p);
    case _ =>
  }

  lemma SignalAccount(s: State, config: Config, p: nat, r: nat)
    requires p in s.pcbs && r < |s.resources| == |s.account.orphans|
    ensures var t := MakeReady(Release(s, config, p, r), p, false);
            && t.account.spareNew == s.account.spareNew && t.account.spareReady == s.account.spareReady
            && t.account.orphans == OrphansAfter(s.account.orphans, s.pcbs[p].held, r)
  {
    ReleaseSems(s, config, p, r);
    ReadyAccount(Release(s, config, p, r), p);
  }

  lemma ReadyAccount(s: State, p: nat)
    requires p in s.pcbs
    ensures SameAccount(s, MakeReady(s, p, false))
  {
  }

  lemma OtherAccounted(s: State, t: State, config: Config, used: nat, reason: Reason)
    requires SameAccount(s, t) && !reason.Signal?
    ensures Accounted(s, t, config, Evict(used, reason))
  {
  }

  lemma SignalAccounted(s: State, t: State, config: Config, used: nat, r: nat)
    requires s.queues.exec != [] && s.queues.exec[0] in s.pcbs && r < |s.account.orphans|
    requires t.account.spareNew == s.account.spareNew && t.account.spareReady == s.account.spareReady
    requires t.account.orphans == OrphansAfter(s.account.orphans, s.pcbs[s.queues.exec[0]].held, r)
    ensures Accounted(s, t, config, Evict(used, Signal(r)))
  {
  }

  lemma EvictAccount(s: State, config: Config, used: nat, reason: Reason)
    requires Formed(s) && Possible(s, Evict(used, reason))
    ensures Accounted(s, Evicted(s, config, used, reason), config, Evict(used, reason))
  {
    var p := s.queues.exec[0];
    var l := Leave(s, config, used);
    assert HoldsKnown(s, p);
    assert l.account == s.account && l.pcbs[p].held == s.pcbs[p].held;
    assert HoldsKnown(l, p);
    OffAccount(s, l, config, p, used, reason);
  }

  lemma OffAccount(s: State, l: State, config: Config, p: nat, used: nat, reason: Reason)
    requires s.queues.exec != [] && p == s.queues.exec[0] && p in s.pcbs && p in l.pcbs && HoldsKnown(l, p)
    requires l.account == s.account && l.pcbs[p].held == s.pcbs[p].held && |l.resources| == |l.account.orphans|
    requires (reason.Wait? || reason.Signal?) ==> reason.r < |l.resources|
    ensures Accounted(s, Settle(l, config, p, reason), config, Evict(used, reason))
  {
    if reason.Signal? {
      OffSignal(s, l, config, p, used, reason.r);
    } else {
      SettleAccount(l, config, p, reason);
      OtherAccounted(s, Settle(l, config, p, reason), config, used, reason);
    }
  }

  lemma OffSignal(s: State, l: State, config: Config, p: nat, used: nat, r: nat)
    requires s.queues.exec != [] && p == s.queues.exec[0] && p in s.pcbs && p in l.pcbs
    requires l.account == s.account && l.pcbs[p].held == s.pcbs[p].held && r < |l.resources| == |l.account.orphans|
    ensures Accounted(s, MakeReady(Release(l, config, p, r), p, false), config, Evict(used, Signal(r)))
  {
    var t := MakeReady(Release(l, config, p, r), p, false);
    SignalAccount(l, config, p, r);
    SignalAccounted(s, t, config, used, r);
  }

  lemma KillAccount(s: State, config: Config, a: Action)
    requires Formed(s) && Possible(s, a) && (a.KillNew? || a.KillReady?)
    ensures Accounted(s, Next(s, config, a), config, a)
  {
    assert HoldsKnown(s, a.p);
    if a.KillNew? {
      ReleaseFromQuiet(Exited(WithoutNew(s, a.p), a.p), config, a.p, 0);
    } else {
      ReleaseFromQuiet(Exited(WithoutReady(s, a.p), a.p), config, a.p, 0);
    }
  }

  lemma TurnAccount(s: State, config: Config, a: Action)
    requires SemaphoresCover(s) && Formed(s) && Possible(s, a) && (a.TakeNew? || a.Dispatch?)
    requires s.queues.readyPlus != [] ==> config.vrr
    ensures Accounted(s, Next(s, config, a), config, a)
  {
  }

  lemma CompleteAccount(s: State, config: Config, d: nat)
    requires Formed(s) && Possible(s, Complete(d))
    ensures Accounted(s, Next(s, config, Complete(d)), config, Complete(d))
  {
  }

  /**
   A kill in NEW or READY leaves one unit of its semaphore over, an idle turn takes one, and a SIGNAL
   without a holding makes one instance more than there were: nothing else does.
   */
  lemma StepAccount(s: State, config: Config, initial: seq<nat>, a: Action)
    requires Sound(s, config, initial) && Possible(s, a) && !Crashes(s, a)
    ensures Formed(s) && Accounted(s, Next(s, config, a), config, a)
  {
    SoundIsFormed(s, config, initial);
    match a
    case Evict(used, reason) => EvictAccount(s, config, used, reason);
    case KillNew(_) => KillAccount(s, config, a);
    case KillReady(_) => KillAccount(s, config, a);
    case TakeNew => TurnAccount(s, config, a);
    case Dispatch => TurnAccount(s, config, a);
    case Complete(d) => CompleteAccount(s, config, d);
    case _ => PlainAccount(s, config, a);
  }

  lemma PlainAccount(s: State, config: Config, a: Action)
    requires Formed(s) && Possible(s, a) && !Crashes(s, a)
    requires !a.Evict? && !a.KillNew? && !a.KillReady? && !a.TakeNew? && !a.Dispatch? && !a.Complete?
    ensures Accounted(s, Next(s, config, a), config, a)
  {
  }
}
