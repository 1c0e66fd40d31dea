/**
 The scheduler of the kernel as a value (kernel/src/planificador.c): the process queues, the
 counting semaphores, the resources and the interfaces, and what each routine does to them.
 Processes are their pids; a resource or an interface is its position in its list.
 */
module Kernel {

  /** t_estado_proceso */
  datatype ProcessState = NUEVO | LISTO | EJECUTANDO | BLOQUEADO | FINALIZADO

  /** t_pcb: `used` is `tiempo_q`, `held` is `recursos_asignados`. */
  datatype Pcb = Pcb(state: ProcessState, quantum: nat, used: nat, held: seq<nat>)

  /** t_recurso */
  datatype Resource = Resource(instances: int, waiting: seq<nat>)

  /** t_interfaz_recibida and its two channels: requests sent, the one being served, answers on their way. */
  datatype Device = Device(queue: seq<nat>, requests: seq<nat>, serving: seq<nat>, done: seq<nat>)

  /** What a blocked process waits for. */
  datatype Place = AtResource(r: nat) | AtDevice(d: nat)

  /** ALGORITMO_PLANIFICACION is VRR, and QUANTUM. */
  datatype Config = Config(vrr: bool, quantum: nat)

  datatype Queues = Queues(newcomers: seq<nat>, ready: seq<nat>, readyPlus: seq<nat>, exec: seq<nat>,
                           blocked: seq<nat>, exit: seq<nat>)

  /** `pending` console decrements wait for their semaphore; `admitting`: the long-term thread has taken from semNew. */
  datatype Semaphores = Semaphores(newcomers: nat, ready: nat, multi: nat, grade: int, pending: nat, admitting: bool)

  /**
   What the proofs keep account of: where each blocked process waits, the time charged to its quantum,
   the SIGNALs without a holding, and the units of semNew and semReady that console kills have left over.
   */
  datatype Account = Account(place: map<nat, Place>, charged: map<nat, nat>, orphans: seq<nat>,
                             spareNew: nat, spareReady: nat)

  datatype State = State(queues: Queues, sems: Semaphores, pcbs: map<nat, Pcb>, next: nat,
                         resources: seq<Resource>, devices: seq<Device>, account: Account)

  /** list_remove_by_condition: the first match goes. */
  function RemoveFirst(q: seq<nat>, p: nat): (r: seq<nat>)
    ensures multiset(r) == multiset(q) - multiset{p}
    ensures p in q ==> |r| == |q| - 1
    ensures p !in q ==> r == q
  {
    if q == [] then [] else if q[0] == p then
      assert q == [q[0]] + q[1..];
      q[1..]
    else
      assert q == [q[0]] + q[1..];
      [q[0]] + RemoveFirst(q[1..], p)
  }

  lemma RemoveFirstIn(q: seq<nat>, p: nat)
    ensures forall x <- RemoveFirst(q, p) :: x in q
  {
    forall x | x in RemoveFirst(q, p)
      ensures x in q
    {
      assert x in multiset(RemoveFirst(q, p));
      assert x in multiset(q);
    }
  }

  function WithPcb(s: State, p: nat, pcb: Pcb): State {
    s.(pcbs := s.pcbs[p := pcb])
  }

  function InState(s: State, p: nat, state: ProcessState): State
    requires p in s.pcbs
  {
    WithPcb(s, p, s.pcbs[p].(state := state))
  }

  /** The same resources and interfaces, and everyone holds what they held. */
  ghost predicate SameHoldings(s: State, t: State) {
    && t.resources == s.resources && t.devices == s.devices && t.account.orphans == s.account.orphans
    && t.pcbs.Keys == s.pcbs.Keys && forall q <- s.pcbs :: t.pcbs[q].held == s.pcbs[q].held
  }

  /** proceso_listo */
  function MakeReady(s: State, p: nat, plus: bool): (t: State)
    requires p in s.pcbs
    ensures SameHoldings(s, t)
  {
    var t := InState(s, p, LISTO);
    var q :=
      if plus then t.queues.(readyPlus := t.queues.readyPlus + [p])
      else t.queues.(ready := t.queues.ready + [p]);
    t.(queues := q, sems := t.sems.(ready := t.sems.ready + 1))
  }

  /** bloquear_proceso */
  function BlockAt(s: State, p: nat, place: Place): State
    requires p in s.pcbs
  {
    var t := InState(s, p, BLOQUEADO);
    t.(queues := t.queues.(blocked := t.queues.blocked + [p]),
       account := t.account.(place := t.account.place[p := place]))
  }

  /** The quantum that is left is charged with the time used. */
  function Charge(s: State, p: nat): (t: State)
    requires p in s.pcbs && s.pcbs[p].used <= s.pcbs[p].quantum && p in s.account.charged
    ensures SameHoldings(s, t)
  {
    var pcb := s.pcbs[p];
    WithPcb(s, p, pcb.(quantum := pcb.quantum - pcb.used)).
      (account := s.account.(charged := s.account.charged[p := s.account.charged[p] + pcb.used]))
  }

  /** What desbloquear_proceso does with a process that it found: VRR prefers one with quantum left. */
  function Resume(s: State, config: Config, p: nat): (t: State)
    requires p in s.pcbs && p in s.account.charged
    ensures SameHoldings(s, t)
  {
    if config.vrr && s.pcbs[p].used < s.pcbs[p].quantum then MakeReady(Charge(s, p), p, true)
    else MakeReady(s, p, false)
  }

  /** desbloquear_proceso; a pid that is not blocked is ignored. */
  function Unblock(s: State, config: Config, p: nat): (t: State)
    ensures SameHoldings(s, t)
  {
    if p !in s.queues.blocked || p !in s.pcbs || p !in s.account.charged then s else
      Resume(s.(queues := s.queues.(blocked := RemoveFirst(s.queues.blocked, p))), config, p)
  }

  /** asignar_recurso */
  function Take(s: State, p: nat, r: nat): State
    requires p in s.pcbs && r < |s.resources|
  {
    var pcb, res := s.pcbs[p], s.resources[r];
    WithPcb(s, p, pcb.(held := pcb.held + [r])).(resources := s.resources[r := res.(instances := res.instances - 1)])
  }

  /** No routine takes resources or interfaces away, and only `p` may hold something else than before. */
  ghost predicate SameShape(s: State, t: State, p: nat) {
    && |t.resources| == |s.resources| && |t.account.orphans| == |s.account.orphans| && t.devices == s.devices
    && t.pcbs.Keys == s.pcbs.Keys
    && forall q <- s.pcbs :: q != p ==> t.pcbs[q].held == s.pcbs[q].held
  }

  /** One instance more; `orphan` is 1 if nobody gives it back. */
  function AddInstance(s: State, r: nat, orphan: nat): State
    requires r < |s.resources| == |s.account.orphans|
  {
    var res, o := s.resources[r], s.account.orphans;
    s.(resources := s.resources[r := res.(instances := res.instances + 1)],
       account := s.account.(orphans := o[r := o[r] + orphan]))
  }

  function DropHolding(s: State, p: nat, r: nat): State
    requires p in s.pcbs
  {
    WithPcb(s, p, s.pcbs[p].(held := RemoveFirst(s.pcbs[p].held, r)))
  }

  /** The first half of liberar_recurso: the count goes up whether or not the process held one. */
  function GiveBack(s: State, p: nat, r: nat): (t: State)
    requires p in s.pcbs && r < |s.resources| == |s.account.orphans|
    ensures SameShape(s, t, p) && t.pcbs[p].held == RemoveFirst(s.pcbs[p].held, r)
  {
    DropHolding(AddInstance(s, r, if r in s.pcbs[p].held then 0 else 1), p, r)
  }

  /** The second half: the first process waiting is woken, without an instance. */
  function Wake(s: State, config: Config, r: nat): (t: State)
    requires r < |s.resources|
    ensures |t.resources| == |s.resources| && t.account.orphans == s.account.orphans && t.devices == s.devices
    ensures t.pcbs.Keys == s.pcbs.Keys && forall q <- s.pcbs :: t.pcbs[q].held == s.pcbs[q].held
  {
    var res := s.resources[r];
    if res.instances > 0 && res.waiting != [] then
      Unblock(s.(resources := s.resources[r := res.(waiting := res.waiting[1..])]), config, res.waiting[0])
    else s
  }

  /** liberar_recurso */
  function Release(s: State, config: Config, p: nat, r: nat): (t: State)
    requires p in s.pcbs && r < |s.resources| == |s.account.orphans|
    ensures SameShape(s, t, p) && t.pcbs[p].held == RemoveFirst(s.pcbs[p].held, r)
  {
    Wake(GiveBack(s, p, r), config, r)
  }

  /** The list names existing resources. */
  predicate HoldsKnown(s: State, p: nat)
    requires p in s.pcbs
  {
    forall r <- s.pcbs[p].held :: r < |s.resources|
  }

  lemma RemoveKeepsKnown(held: seq<nat>, r: nat, n: nat)
    requires forall x <- held :: x < n
    ensures forall x <- RemoveFirst(held, r) :: x < n
  {
    RemoveFirstIn(held, r);
  }

  /** liberar_recursos from index `i`: it removes from the list that it walks. */
  function ReleaseFrom(s: State, config: Config, p: nat, i: nat): State
    requires p in s.pcbs && |s.resources| == |s.account.orphans| && HoldsKnown(s, p)
    decreases |s.pcbs[p].held|
  {
    if i < |s.pcbs[p].held| then
      var r := s.pcbs[p].held[i];
      assert r in s.pcbs[p].held;
      RemoveKeepsKnown(s.pcbs[p].held, r, |s.resources|);
      ReleaseFrom(Release(s, config, p, r), config, p, i + 1)
    else s
  }

  /** The process goes to EXIT. */
  function Exited(s: State, p: nat): (t: State)
    requires p in s.pcbs
    ensures SameHoldings(s, t)
  {
    var t := InState(s, p, FINALIZADO);
    t.(queues := t.queues.(exit := t.queues.exit + [p]))
  }

  /** A place for another process: sem_post(&semMultiprogramacion). */
  function Posted(s: State): State {
    s.(sems := s.sems.(multi := s.sems.multi + 1))
  }

  /** finalizar_proceso: to EXIT, release, and a place for another process. */
  function Finish(s: State, config: Config, p: nat): State
    requires p in s.pcbs && |s.resources| == |s.account.orphans| && HoldsKnown(s, p)
  {
    Posted(ReleaseFrom(Exited(s, p), config, p, 0))
  }

  // What the CPU gives the process back for

  /** t_motivo_desalojo with what it needs; `matches`: the interface can do the instruction. */
  datatype Reason = EndOfQuantum | Wait(r: nat) | Signal(r: nat) | Io(d: nat, matches: bool) | Exit | Interrupted |
    OutOfMemory | Unknown

  /** WAIT on a resource. */
  function WaitOn(s: State, p: nat, r: nat): State
    requires p in s.pcbs && r < |s.resources|
  {
    var res := s.resources[r];
    if res.instances > 0 then MakeReady(Take(s, p, r), p, false)
    else BlockAt(s, p, AtResource(r)).(resources := s.resources[r := res.(waiting := res.waiting + [p])])
  }

  /** bloquear_procesosIO and the request. */
  function SendTo(s: State, p: nat, d: nat): State
    requires p in s.pcbs && d < |s.devices|
  {
    var dev := s.devices[d];
    BlockAt(s, p, AtDevice(d)).(devices := s.devices[d := dev.(queue := dev.queue + [p], requests := dev.requests +
        [p])])
  }

  /** The process leaves the CPU; under VRR the time it used is noted. */
  function Leave(s: State, config: Config, used: nat): State
    requires s.queues.exec != [] && s.queues.exec[0] in s.pcbs
  {
    var p := s.queues.exec[0];
    WithPcb(s, p, s.pcbs[p].(used := if config.vrr then used else s.pcbs[p].used)).
      (queues := s.queues.(exec := s.queues.exec[1..]))
  }

  /** The rest of desalojo_cpu. */
  function Settle(s: State, config: Config, p: nat, reason: Reason): State
    requires p in s.pcbs && |s.resources| == |s.account.orphans| && HoldsKnown(s, p)
    requires (reason.Wait? || reason.Signal?) ==> reason.r < |s.resources|
  {
    match reason
    case EndOfQuantum =>
      MakeReady(WithPcb(s, p, s.pcbs[p].(quantum := config.quantum)).
                  (account := s.account.(charged := s.account.charged[p := 0])), p, false)
    case Wait(r) => WaitOn(s, p, r)
    case Signal(r) => MakeReady(Release(s, config, p, r), p, false)
    case Io(d, matches) => if d < |s.devices| && matches then SendTo(s, p, d) else Finish(s, config, p)
    case Unknown => s
    case _ => Finish(s, config, p)
  }
}
