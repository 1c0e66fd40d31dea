/**
 The two waits of the long-term thread (kernel/src/planificador.c:61-113). NEW is looked at between
 them and not after the second one, so the process that was there may be gone when it is popped.
 */
module KernelAdmission {
  import opened Kernel
  import opened KernelRuns

  /** Past the first wait, there is a process to admit. */
  predicate HasCandidate(s: State) {
    s.sems.admitting ==> s.queues.newcomers != []
  }

  /** The console kills the only process in NEW while the long-term thread is between its waits. */
  predicate KillsCandidate(s: State, a: Action) {
    a.KillNew? && s.sems.admitting && |s.queues.newcomers| == 1
  }

  /** A release touches neither NEW nor the long-term thread. */
  lemma {:induction false} ReleaseFromAdmission(s: State, config: Config, p: nat, i: nat)
    requires p in s.pcbs && |s.resources| == |s.account.orphans| && HoldsKnown(s, p)
    ensures var t := ReleaseFrom(s, config, p, i);
            t.queues.newcomers == s.queues.newcomers && t.sems.admitting == s.sems.admitting
    decreases |s.pcbs[p].held|
  {
    if i < |s.pcbs[p].held| {
      var r := s.pcbs[p].held[i];
      assert r in s.pcbs[p].held;
      RemoveKeepsKnown(s.pcbs[p].held, r, |s.resources|);
      ReleaseAdmission(s, config, p, r);
      ReleaseFromAdmission(Release(s, config, p, r), config, p, i + 1);
    }
  }

  lemma ReleaseAdmission(s: State, config: Config, p: nat, r: nat)
    requires p in s.pcbs && r < |s.resources| == |s.account.orphans|
    ensures var t := Release(s, config, p, r);
            t.queues.newcomers == s.queues.newcomers && t.sems.admitting == s.sems.admitting
  {
    var g := GiveBack(s, p, r);
    assert g.queues == s.queues && g.sems == s.sems;
  }

  lemma SettleAdmission(s: State, config: Config, p: nat, reason: Reason)
    requires p in s.pcbs && |s.resources| == |s.account.orphans| && HoldsKnown(s, p)
    requires (reason.Wait? || reason.Signal?) ==> reason.r < |s.resources|
    ensures var t := Settle(s, config, p, reason);
            t.queues.newcomers == s.queues.newcomers && t.sems.admitting == s.sems.admitting
  {
    match reason
    case Signal(r) => ReleaseAdmission(s, config, p, r);
    case EndOfQuantum =>
    case Wait(_) =>
    case Unknown =>
    case _ => ReleaseFromAdmission(Exited(s, p), config, p, 0);
  }

  lemma EvictAdmission(s: State, config: Config, used: nat, reason: Reason)
    requires Formed(s) && Possible(s, Evict(used, reason))
    ensures var t := Evicted(s, config, used, reason);
            t.queues.newcomers == s.queues.newcomers && t.sems.admitting == s.sems.admitting
  {
    var p := s.queues.exec[0];
    assert HoldsKnown(s, p);
    SettleAdmission(Leave(s, config, used), config, p, reason);
  }

  lemma KillNewAdmission(s: State, config: Config, p: nat)
    requires Formed(s) && p in s.queues.newcomers
    ensures var t := NewKilled(s, config, p);
            t.queues.newcomers == RemoveFirst(s.queues.newcomers, p) && t.sems.admitting == s.sems.admitting
  {
    assert HoldsKnown(s, p);
    ReleaseFromAdmission(Exited(WithoutNew(s, p), p), config, p, 0);
  }

  lemma KillReadyAdmission(s: State, config: Config, p: nat)
    requires Formed(s) && p in s.queues.ready
    ensures var t := ReadyKilled(s, config, p);
            t.queues.newcomers == s.queues.newcomers && t.sems.admitting == s.sems.admitting
  {
    assert HoldsKnown(s, p);
    ReleaseFromAdmission(Exited(WithoutReady(s, p), p), config, p, 0);
  }

  /**
   A step keeps a process for the long-term thread to admit if and only if it is not a kill of the
   only process in NEW between the two waits.
   */
  lemma CandidateKeptIff(s: State, config: Config, initial: seq<nat>, a: Action)
    requires Sound(s, config, initial) && Possible(s, a) && HasCandidate(s)
    ensures Formed(s) && !Crashes(s, a)
    ensures HasCandidate(Next(s, config, a)) <==> !KillsCandidate(s, a)
  {
    SoundIsFormed(s, config, initial);
    StepCandidate(s, config, a);
  }

  lemma StepCandidate(s: State, config: Config, a: Action)
    requires Formed(s) && Possible(s, a) && HasCandidate(s)
    ensures HasCandidate(Next(s, config, a)) <==> !KillsCandidate(s, a)
  {
    match a
    case Evict(used, reason) => EvictAdmission(s, config, used, reason);
    case KillNew(p) => KillNewAdmission(s, config, p);
    case KillReady(p) => KillReadyAdmission(s, config, p);
    case _ =>
  }

  // Runs

  /** Every state of the run has a process for the long-term thread to admit. */
  ghost predicate AlwaysCandidate(s: State, config: Config, steps: seq<Action>)
    requires IsRun(s, config, steps)
    decreases |steps|
  {
    HasCandidate(s) &&
    (steps == [] || Crashes(s, steps[0]) || AlwaysCandidate(Next(s, config, steps[0]), config, steps[1..]))
  }

  /** No step of the run kills the candidate. */
  ghost predicate SparesCandidate(s: State, config: Config, steps: seq<Action>)
    requires IsRun(s, config, steps)
    decreases |steps|
  {
    steps == [] || Crashes(s, steps[0]) ||
    (!KillsCandidate(s, steps[0]) && SparesCandidate(Next(s, config, steps[0]), config, steps[1..]))
  }

  /** No step of the run ends the kernel. */
  ghost predicate Survives(s: State, config: Config, steps: seq<Action>)
    requires IsRun(s, config, steps)
    decreases |steps|
  {
    steps == [] || (!Crashes(s, steps[0]) && Survives(Next(s, config, steps[0]), config, steps[1..]))
  }

  lemma {:induction false} CandidatesIff(s: State, config: Config, initial: seq<nat>, steps: seq<Action>)
    requires Sound(s, config, initial) && 0 < config.quantum && HasCandidate(s) && IsRun(s, config, steps)
    ensures AlwaysCandidate(s, config, steps) <==> SparesCandidate(s, config, steps)
    ensures AlwaysCandidate(s, config, steps) ==> Survives(s, config, steps)
    decreases |steps|
  {
    if steps != [] {
      var t := Next(s, config, steps[0]);
      CandidateKeptIff(s, config, initial, steps[0]);
      StepKeeps(s, config, initial, steps[0]);
      if HasCandidate(t) {
        CandidatesIff(t, config, initial, steps[1..]);
      }
    }
  }

  /**
   From the start, the long-term thread always has a process to admit exactly when no step of the run
   kills its candidate; then no admission pops an empty NEW.
   */
  lemma AdmissionsFindIff(degree: nat, config: Config, initial: seq<nat>, devices: nat, steps: seq<Action>)
    requires 0 < config.quantum && IsRun(Start(degree, initial, devices), config, steps)
    ensures var s := Start(degree, initial, devices);
            && (AlwaysCandidate(s, config, steps) <==> SparesCandidate(s, config, steps))
            && (AlwaysCandidate(s, config, steps) ==> Survives(s, config, steps))
  {
    StartIsSound(degree, config, initial, devices);
    CandidatesIff(Start(degree, initial, devices), config, initial, steps);
  }

  // A run that ends in an empty NEW

  lemma RunCons(s: State, config: Config, a: Action, rest: seq<Action>)
    requires Formed(s) && Possible(s, a) && !Crashes(s, a) && IsRun(Next(s, config, a), config, rest)
    ensures IsRun(s, config, [a] + rest) && After(s, config, [a] + rest) == After(Next(s, config, a), config, rest)
    ensures Survives(s, config, [a] + rest) <==> Survives(Next(s, config, a), config, rest)
  {
    assert ([a] + rest)[1..] == rest;
  }

  /** One process in NEW, and the long-term thread past semNew. */
  function Half(degree: nat, config: Config): State {
    State(Queues([1], [], [], [], [], []), Semaphores(0, 0, degree, degree, 0, true),
          map[1 := Pcb(NUEVO, config.quantum, 0, [])], 2, [], [], Account(map[], map[1 := 0], [], 0, 0))
  }

  /** ... and that process killed. */
  function Emptied(degree: nat, config: Config): State {
    State(Queues([], [], [], [], [], [1]), Semaphores(0, 0, degree, degree, 0, true),
          map[1 := Pcb(FINALIZADO, config.quantum, 0, [])], 2, [], [], Account(map[], map[1 := 0], [], 1, 0))
  }

  lemma HalfIsReached(degree: nat, config: Config)
    ensures var s1 := Created(Start(degree, [], 0), config);
            Formed(s1) && Possible(s1, TakeNew) && Next(s1, config, TakeNew) == Half(degree, config)
  {
    var s0 := Start(degree, [], 0);
    assert s0.resources == [] && s0.devices == [] && s0.account.orphans == [];
    assert Created(s0, config).pcbs == map[1 := Pcb(NUEVO, config.quantum, 0, [])];
  }

  lemma EmptiedIsReached(degree: nat, config: Config)
    ensures var s := Half(degree, config);
            Formed(s) && Possible(s, KillNew(1)) && Next(s, config, KillNew(1)) == Emptied(degree, config)
  {
    var s := Half(degree, config);
    assert RemoveFirst([1], 1) == [];
    assert Exited(WithoutNew(s, 1), 1) == Emptied(degree, config);
  }

  /** The admission that pops it. */
  lemma EmptiedEnds(degree: nat, config: Config)
    requires 0 < degree
    ensures var s := Emptied(degree, config);
            IsRun(s, config, [Admit]) && !Survives(s, config, [Admit])
  {
    assert Formed(Emptied(degree, config)) && Crashes(Emptied(degree, config), [Admit][0]);
  }

  /** The console empties NEW between the two waits, and the long-term thread pops an empty list. */
  lemma EmptyAdmission(degree: nat, config: Config)
    requires 0 < degree
    ensures var s, steps := Start(degree, [], 0), [Create] + ([TakeNew] + ([KillNew(1)] + [Admit]));
            IsRun(s, config, steps) && !Survives(s, config, steps)
  {
    var s0 := Start(degree, [], 0);
    EmptiedEnds(degree, config);
    EmptiedIsReached(degree, config);
    RunCons(Half(degree, config), config, KillNew(1), [Admit]);
    HalfIsReached(degree, config);
    RunCons(Created(s0, config), config, TakeNew, [KillNew(1)] + [Admit]);
    assert Formed(s0);
    RunCons(s0, config, Create, [TakeNew] + ([KillNew(1)] + [Admit]));
  }
}
