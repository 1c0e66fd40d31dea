/** The order in which processes leave their queues (kernel/src/planificador.c:154-184, utils/src/utils/squeue.c). */
module KernelOrder {
  import opened Kernel
  import opened KernelRuns

  /** READY and its priority queue only grow at the end; NEW and EXEC stay. */
  ghost predicate OnlyAppends(s: State, t: State) {
    && s.queues.ready <= t.queues.ready && s.queues.readyPlus <= t.queues.readyPlus
    && s.queues.newcomers == t.queues.newcomers && s.queues.exec == t.queues.exec
    && t.pcbs.Keys == s.pcbs.Keys
  }

  lemma AppendsChain(s: State, t: State, u: State)
    requires OnlyAppends(s, t) && OnlyAppends(t, u)
    ensures OnlyAppends(s, u)
  {
  }

  lemma ReleaseAppends(s: State, config: Config, p: nat, r: nat)
    requires p in s.pcbs && r < |s.resources| == |s.account.orphans|
    ensures OnlyAppends(s, Release(s, config, p, r))
  {
    var g := GiveBack(s, p, r);
    assert g.pcbs.Keys == s.pcbs.Keys && OnlyAppends(s, g);
    WakeAppends(g, config, r);
  }

  lemma WakeAppends(s: State, config: Config, r: nat)
    requires r < |s.resources|
    ensures OnlyAppends(s, Wake(s, config, r))
  {
  }

  lemma {:induction false} ReleaseFromAppends(s: State, config: Config, p: nat, i: nat)
    requires p in s.pcbs && |s.resources| == |s.account.orphans| && HoldsKnown(s, p)
    ensures OnlyAppends(s, ReleaseFrom(s, config, p, i))
    decreases |s.pcbs[p].held|
  {
    if i < |s.pcbs[p].held| {
      var r := s.pcbs[p].held[i];
      assert r in s.pcbs[p].held;
      var t := Release(s, config, p, r);
      RemoveKeepsKnown(s.pcbs[p].held, r, |s.resources|);
      ReleaseAppends(s, config, p, r);
      ReleaseFromAppends(t, config, p, i + 1);
      AppendsChain(s, t, ReleaseFrom(s, config, p, i));
    }
  }

  lemma FinishAppends(s: State, config: Config, p: nat)
    requires p in s.pcbs && |s.resources| == |s.account.orphans| && HoldsKnown(s, p)
    ensures OnlyAppends(s, Finish(s, config, p))
  {
    ReleaseFromAppends(Exited(s, p), config, p, 0);
  }

  lemma SettleAppends(s: State, config: Config, p: nat, reason: Reason)
    requires p in s.pcbs && |s.resources| == |s.account.orphans| && HoldsKnown(s, p)
    requires (reason.Wait? || reason.Signal?) ==> reason.r < |s.resources|
    ensures OnlyAppends(s, Settle(s, config, p, reason))
  {
    match reason
    case Signal(r) =>
      ReleaseAppends(s, config, p, r);
    case Io(d, matches) =>
      if !(d < |s.devices| && matches) {
        FinishAppends(s, config, p);
      }
    case Exit => FinishAppends(s, config, p);
    case Interrupted => FinishAppends(s, config, p);
    case OutOfMemory => FinishAppends(s, config, p);
    case _ =>
  }

  /** What a step may take from a queue: its head, and only where it dispatches or admits. */
  ghost predicate TakesHead(before: seq<nat>, after: seq<nat>, takes: bool) {
    if takes then before != [] && before[1..] <= after else before <= after
  }

  /** This step takes a process from READY, or from the priority queue. */
  ghost predicate FromPlus(s: State, config: Config, a: Action) {
    a.Dispatch? && config.vrr && s.queues.readyPlus != []
  }

  ghost predicate FromReady(s: State, config: Config, a: Action) {
    a.Dispatch? && !FromPlus(s, config, a) && s.queues.ready != []
  }

  /**
   No step lets a process overtake another in NEW, READY or the priority queue, unless the console
   kills: a queue loses its head only, and under VRR READY loses nothing while the priority queue
   has a process.
   */
  lemma StepIsFifo(s: State, config: Config, a: Action)
    requires Formed(s) && Possible(s, a) && !Crashes(s, a) && !a.KillNew? && !a.KillReady?
    ensures var t := Next(s, config, a);
            && TakesHead(s.queues.ready, t.queues.ready, FromReady(s, config, a))
            && TakesHead(s.queues.readyPlus, t.queues.readyPlus, FromPlus(s, config, a))
            && TakesHead(s.queues.newcomers, t.queues.newcomers, a.Admit?)
            && (FromReady(s, config, a) ==> t.queues.exec == [s.queues.ready[0]])
            && (FromPlus(s, config, a) ==> t.queues.exec == [s.queues.readyPlus[0]])
  {
    match a
    case Evict(used, reason) =>
      assert HoldsKnown(s, s.queues.exec[0]);
      SettleAppends(Leave(s, config, used), config, s.queues.exec[0], reason);
    case _ =>
  }

  /** A process killed in READY leaves the order of the others as it was, in READY and in NEW. */
  lemma KillReadyKeepsOrder(s: State, config: Config, p: nat)
    requires Formed(s) && p in s.queues.ready
    ensures var q := ReadyKilled(s, config, p).queues;
            RemoveFirst(s.queues.ready, p) <= q.ready && s.queues.readyPlus <= q.readyPlus &&
            q.newcomers == s.queues.newcomers && q.exec == s.queues.exec
  {
    assert HoldsKnown(s, p);
    FinishAppends(WithoutReady(s, p), config, p);
  }

  /** ... and so does one killed in NEW. */
  lemma KillNewKeepsOrder(s: State, config: Config, p: nat)
    requires Formed(s) && p in s.queues.newcomers
    ensures var q := NewKilled(s, config, p).queues;
            q.newcomers == RemoveFirst(s.queues.newcomers, p) && q.exec == s.queues.exec &&
            s.queues.ready <= q.ready && s.queues.readyPlus <= q.readyPlus
  {
    assert HoldsKnown(s, p);
    ReleaseFromAppends(Exited(WithoutNew(s, p), p), config, p, 0);
  }

  /** The console kills: a queue loses the killed process only, and grows at the end only. */
  lemma KillKeepsOrder(s: State, config: Config, a: Action)
    requires Formed(s) && Possible(s, a) && (a.KillNew? || a.KillReady?)
    ensures var q, q' := s.queues, Next(s, config, a).queues;
            && q'.newcomers == (if a.KillNew? then RemoveFirst(q.newcomers, a.p) else q.newcomers)
            && (if a.KillReady? then RemoveFirst(q.ready, a.p) else q.ready) <= q'.ready
            && q.readyPlus <= q'.readyPlus && q'.exec == q.exec
  {
    if a.KillNew? {
      KillNewKeepsOrder(s, config, a.p);
    } else {
      KillReadyKeepsOrder(s, config, a.p);
    }
  }
}
