/** What the scheduler does not do, or does only in part, for all states it can be in. */
module KernelLimits {
  import opened Kernel
  import opened KernelInvariant
  import opened KernelRuns
  import opened KernelAdmission
  import opened KernelBystanders

  /** liberar_recursos walks the list that it shortens: half of the instances, rounded down, stay held. */
  lemma {:induction false} ReleaseFromLeaves(s: State, config: Config, p: nat, i: nat)
    requires p in s.pcbs && |s.resources| == |s.account.orphans| && HoldsKnown(s, p) && i <= |s.pcbs[p].held|
    ensures var t := ReleaseFrom(s, config, p, i);
            p in t.pcbs && |t.pcbs[p].held| == i + (|s.pcbs[p].held| - i) / 2
    decreases |s.pcbs[p].held|
  {
    var held := s.pcbs[p].held;
    if i < |held| {
      var r := held[i];
      assert r in held;
      var t := Release(s, config, p, r);
      assert |t.pcbs[p].held| == |held| - 1;
      RemoveKeepsKnown(held, r, |s.resources|);
      if i + 1 <= |held| - 1 {
        ReleaseFromLeaves(t, config, p, i + 1);
      }
    }
  }

  /** Hence a finished process has given everything back exactly if it held at most one instance. */
  lemma FinishReleasesAllIff(s: State, config: Config, p: nat)
    requires p in s.pcbs && |s.resources| == |s.account.orphans| && HoldsKnown(s, p)
    ensures var t := Finish(s, config, p);
            p in t.pcbs && |t.pcbs[p].held| == |s.pcbs[p].held| / 2
    ensures Finish(s, config, p).pcbs[p].held == [] <==> |s.pcbs[p].held| <= 1
  {
    ReleaseFromLeaves(Exited(s, p), config, p, 0);
  }

  /**
   Waking a process that waits for a resource does not give it an instance: it goes where its quantum
   says, the count is up by one all the same, and if others wait too, they go on waiting for a resource
   that is free.
   */
  lemma WokenHoldsNothing(s: State, config: Config, initial: seq<nat>, hand: multiset<nat>, slots: int, p: nat, r: nat)
    requires Inv(s, config, initial, hand, slots) && p in s.pcbs && r < |s.resources| && s.resources[r].waiting != []
    ensures var w, t := s.resources[r].waiting[0], Release(s, config, p, r);
            && w in s.pcbs && w in t.pcbs
            && t.pcbs[w] == AfterWait(config, if w == p then WithoutOne(s.pcbs[w], r) else s.pcbs[w])
            && t.queues == QueuesAfter(s.queues, config, w, s.pcbs[w])
            && t.resources == s.resources[r := Resource(s.resources[r].instances + 1, s.resources[r].waiting[1..])]
            && (|s.resources[r].waiting| > 1 ==> t.resources[r].waiting != [] && t.resources[r].instances > 0)
  {
    WaiterWaits(s, config, initial, hand, slots, r);
    assert 0 <= s.resources[r].instances;
    ReleaseWakes(s, config, p, r, s.resources[r].waiting[0]);
  }

  /** A process that the CPU returns for an unknown reason is in no queue any more. */
  lemma UnknownIsLost(s: State, config: Config, initial: seq<nat>, used: nat)
    requires Sound(s, config, initial) && s.queues.exec != []
    ensures var p := s.queues.exec[0];
            p in s.pcbs && Out(Settle(Leave(s, config, used), config, p, Unknown).queues, p)
            && !Placed(Settle(Leave(s, config, used), config, p, Unknown), multiset{})
  {
    var p := s.queues.exec[0];
    LeaveKeeps(s, config, initial, used);
    InHandIsOut(Leave(s, config, used), multiset{p}, p);
    var t := Leave(s, config, used);
    assert multiset(t.pcbs.Keys)[p] == 1 && InQueues(t.queues)[p] == 0;
  }

  // A run that ends with an instance lost

  /** The first process alone, with `held` of the one resource, of which `left` instances are left. */
  function Alone(config: Config, q: Queues, state: ProcessState, held: seq<nat>, left: int, sems: (nat, nat)): State {
    State(q, Semaphores(0, sems.0, sems.1, 1, 0, false), map[1 := Pcb(state, config.quantum, 0, held)], 2,
          [Resource(left, [])], [], Account(map[], map[1 := 0], [0], 0, 0))
  }

  function InReady(config: Config, held: seq<nat>, left: int): State {
    Alone(config, Queues([], [1], [], [], [], []), LISTO, held, left, (1, 0))
  }

  function InExec(config: Config, held: seq<nat>, left: int): State {
    Alone(config, Queues([], [], [], [1], [], []), EJECUTANDO, held, left, (0, 0))
  }

  /** The run ends with the process in EXIT, holding one of the two instances. */
  ghost predicate Loses(s: State, config: Config, steps: seq<Action>) {
    && IsRun(s, config, steps)
    && var t := After(s, config, steps);
       t.queues.exit == [1] && t.resources == [Resource(1, [])] && 1 in t.pcbs && t.pcbs[1].held == [0]
  }

  ghost predicate CanLose(s: State, config: Config) {
    exists steps :: Loses(s, config, steps)
  }

  lemma LosesFrom(s: State, config: Config, a: Action, t: State)
    requires Formed(s) && Possible(s, a) && !Crashes(s, a) && Next(s, config, a) == t && CanLose(t, config)
    ensures CanLose(s, config)
  {
    var rest :| Loses(t, config, rest);
    RunCons(s, config, a, rest);
    assert Loses(s, config, [a] + rest);
  }

  lemma DispatchLeads(config: Config, held: seq<nat>, left: int)
    requires (forall r <- held :: r == 0) && CanLose(InExec(config, held, left), config)
    ensures CanLose(InReady(config, held, left), config)
  {
    var s := InReady(config, held, left);
    assert HoldsKnown(s, 1);
    LosesFrom(s, config, Dispatch, InExec(config, held, left));
  }

  lemma WaitLeads(config: Config, held: seq<nat>, left: int)
    requires 0 < left && (forall r <- held :: r == 0) && CanLose(InReady(config, held + [0], left - 1), config)
    ensures CanLose(InExec(config, held, left), config)
  {
    var s := InExec(config, held, left);
    assert HoldsKnown(s, 1);
    assert Leave(s, config, 0).pcbs == s.pcbs;
    LosesFrom(s, config, Evict(0, Wait(0)), InReady(config, held + [0], left - 1));
  }

  function InExit(config: Config, held: seq<nat>, left: int): State {
    Alone(config, Queues([], [], [], [], [], [1]), FINALIZADO, held, left, (0, 0))
  }

  lemma ReleaseOne(config: Config)
    ensures var e := InExit(config, [0, 0], 0);
            HoldsKnown(e, 1) && ReleaseFrom(e, config, 1, 0) == InExit(config, [0], 1)
  {
    var e := InExit(config, [0, 0], 0);
    assert RemoveFirst([0, 0], 0) == [0];
    assert Release(e, config, 1, 0) == InExit(config, [0], 1);
  }

  lemma FinishGivesOne(config: Config)
    ensures var l := Alone(config, Queues([], [], [], [], [], []), EJECUTANDO, [0, 0], 0, (0, 0));
            HoldsKnown(l, 1) && Settle(l, config, 1, Exit) == Posted(InExit(config, [0], 1))
  {
    var l := Alone(config, Queues([], [], [], [], [], []), EJECUTANDO, [0, 0], 0, (0, 0));
    assert Exited(l, 1) == InExit(config, [0, 0], 0);
    ReleaseOne(config);
  }

  lemma ExitGivesOne(config: Config)
    ensures var s := InExec(config, [0, 0], 0);
            Formed(s) && Next(s, config, Evict(0, Exit)) == Posted(InExit(config, [0], 1))
  {
    var s := InExec(config, [0, 0], 0);
    var l := Leave(s, config, 0);
    assert HoldsKnown(s, 1);
    assert l == Alone(config, Queues([], [], [], [], [], []), EJECUTANDO, [0, 0], 0, (0, 0));
    FinishGivesOne(config);
    assert Next(s, config, Evict(0, Exit)) == Settle(l, config, 1, Exit);
  }

  /** The process ends with two instances and gives back one. */
  lemma ExitLoses(config: Config)
    ensures CanLose(InExec(config, [0, 0], 0), config)
  {
    var t := Posted(InExit(config, [0], 1));
    assert Loses(t, config, []);
    ExitGivesOne(config);
    LosesFrom(InExec(config, [0, 0], 0), config, Evict(0, Exit), t);
  }

  /** Before its admission; `past`: the long-term thread is past semNew. */
  function InNew(config: Config, past: bool): State {
    Alone(config, Queues([1], [], [], [], [], []), NUEVO, [], 2, (0, 1)).
      (sems := Semaphores(if past then 0 else 1, 0, 1, 1, 0, past))
  }

  lemma AdmitLeads(config: Config)
    requires CanLose(InReady(config, [], 2), config)
    ensures CanLose(InNew(config, true), config)
  {
    var s := InNew(config, true);
    assert HoldsKnown(s, 1);
    assert Admitted(s) == InReady(config, [], 2);
    LosesFrom(s, config, Admit, InReady(config, [], 2));
  }

  lemma StartLeads(config: Config)
    requires CanLose(InNew(config, true), config)
    ensures CanLose(Start(1, [2], 0), config)
  {
    var s, s0 := InNew(config, false), Start(1, [2], 0);
    assert HoldsKnown(s, 1);
    LosesFrom(s, config, TakeNew, InNew(config, true));
    assert s0.resources == [Resource(2, [])] && s0.devices == [] && s0.account.orphans == [0];
    assert Created(s0, config) == s;
    LosesFrom(s0, config, Create, s);
  }

  /** A turn on the CPU that ends with a WAIT. */
  lemma TurnLeads(config: Config, held: seq<nat>, more: seq<nat>, left: int)
    requires 0 < left && (forall r <- held :: r == 0) && more == held + [0]
    requires CanLose(InReady(config, more, left - 1), config)
    ensures CanLose(InReady(config, held, left), config)
  {
    WaitLeads(config, held, left);
    DispatchLeads(config, held, left);
  }

  /** Two WAITs on a resource of two instances, and the process ends: one instance is lost to all others. */
  lemma InstanceIsLost(config: Config)
    ensures exists steps :: Loses(Start(1, [2], 0), config, steps)
  {
    ExitLoses(config);
    DispatchLeads(config, [0, 0], 0);
    TurnLeads(config, [0], [0, 0], 1);
    TurnLeads(config, [], [0], 2);
    AdmitLeads(config);
    StartLeads(config);
  }
}
