/**
 What the routines do to everything but the process that they are about: which holdings a release
 takes, which waiters it wakes and how, and that all others stay as they are
 (kernel/src/planificador.c:477-492, 557-585, 679-707).
 */
module KernelEffects {
  import opened Kernel

  // Every second holding

  /** The elements at positions 0, 2, 4, ... */
  function Evens(q: seq<nat>): (r: seq<nat>)
    ensures |r| == (|q| + 1) / 2 && forall k | 0 <= k < |r| :: r[k] == q[2 * k]
  {
    seq((|q| + 1) / 2, k requires 0 <= k < (|q| + 1) / 2 => q[2 * k])
  }

  /** The elements at positions 1, 3, 5, ... */
  function Odds(q: seq<nat>): (r: seq<nat>)
    ensures |r| == |q| / 2 && forall k | 0 <= k < |r| :: r[k] == q[2 * k + 1]
  {
    seq(|q| / 2, k requires 0 <= k < |q| / 2 => q[2 * k + 1])
  }

  /** What follows the first two. */
  function Tail(q: seq<nat>): seq<nat> {
    if |q| < 2 then [] else q[2..]
  }

  lemma EvensStep(q: seq<nat>)
    requires q != []
    ensures Evens(q) == [q[0]] + Evens(Tail(q))
    ensures Odds(q) == (if |q| < 2 then [] else [q[1]]) + Odds(Tail(q))
  {
  }

  lemma {:induction false} EvensAndOdds(q: seq<nat>)
    ensures multiset(Evens(q)) + multiset(Odds(q)) == multiset(q)
    decreases |q|
  {
    if q != [] {
      EvensStep(q);
      EvensAndOdds(Tail(q));
      assert q == [q[0]] + (if |q| < 2 then [] else [q[1]]) + Tail(q);
    }
  }

  /** Removing the value at `i`, wherever it occurs first, moves what is behind `i` down by one. */
  lemma {:induction false} RemoveFirstTail(q: seq<nat>, i: nat)
    requires i < |q|
    ensures |RemoveFirst(q, q[i])| == |q| - 1 && RemoveFirst(q, q[i])[i..] == q[i + 1..]
  {
    if q[0] != q[i] {
      RemoveFirstTail(q[1..], i - 1);
      assert q[1..][i - 1] == q[i];
    }
  }

  lemma NextTail(q: seq<nat>, i: nat)
    requires i < |q|
    ensures i + 1 <= |RemoveFirst(q, q[i])| ==> RemoveFirst(q, q[i])[i + 1..] == Tail(q[i..])
    ensures i + 1 > |RemoveFirst(q, q[i])| ==> Tail(q[i..]) == []
    ensures q[i..] == [q[i]] + q[i + 1..]
  {
    RemoveFirstTail(q, i);
    if i + 1 < |q| {
      assert RemoveFirst(q, q[i])[i..][1..] == RemoveFirst(q, q[i])[i + 1..];
      assert q[i + 1..][1..] == q[i..][2..];
    }
  }

  /** From index `i` on; past the end there is nothing. */
  function From(q: seq<nat>, i: nat): seq<nat> {
    if i <= |q| then q[i..] else []
  }

  // Resources

  /** A resource that has got `n` instances back: as many waiters have left its queue, as far as there are. */
  function Regained(res: Resource, n: nat): Resource {
    Resource(res.instances + n, if n <= |res.waiting| then res.waiting[n..] else [])
  }

  ghost predicate NoneNegative(s: State) {
    forall k | 0 <= k < |s.resources| :: 0 <= s.resources[k].instances
  }

  lemma WakeResources(s: State, config: Config, r: nat)
    requires r < |s.resources|
    ensures var res := s.resources[r];
            Wake(s, config, r).resources ==
            if res.instances > 0 && res.waiting != [] then s.resources[r := res.(waiting := res.waiting[1..])]
            else s.resources
  {
  }

  lemma ReleaseRegains(s: State, config: Config, p: nat, r: nat)
    requires p in s.pcbs && r < |s.resources| == |s.account.orphans| && NoneNegative(s)
    ensures Release(s, config, p, r).resources == s.resources[r := Regained(s.resources[r], 1)]
    ensures NoneNegative(Release(s, config, p, r))
  {
    var g := GiveBack(s, p, r);
    assert g.resources == s.resources[r := s.resources[r].(instances := s.resources[r].instances + 1)];
    WakeResources(g, config, r);
  }

  lemma RegainedAgain(res: Resource, m: nat, n: nat)
    ensures Regained(Regained(res, m), n) == Regained(res, m + n)
    ensures Regained(res, 0) == res
  {
  }

  /** Each resource has got back its share of `given`. */
  ghost predicate AllRegained(s: State, t: State, given: seq<nat>) {
    && |t.resources| == |s.resources|
    && forall k | 0 <= k < |s.resources| :: t.resources[k] == Regained(s.resources[k], multiset(given)[k])
  }

  lemma AllRegainedMore(s: State, t: State, u: State, r: nat, rest: seq<nat>)
    requires r < |s.resources| && t.resources == s.resources[r := Regained(s.resources[r], 1)]
    requires AllRegained(t, u, rest)
    ensures AllRegained(s, u, [r] + rest)
  {
    forall k | 0 <= k < |s.resources|
      ensures u.resources[k] == Regained(s.resources[k], multiset([r] + rest)[k])
    {
      CountCons(r, rest, k);
      RegainedAgain(s.resources[k], if k == r then 1 else 0, multiset(rest)[k]);
      assert t.resources[k] == Regained(s.resources[k], if k == r then 1 else 0);
    }
  }

  lemma CountCons(r: nat, rest: seq<nat>, k: nat)
    ensures multiset([r] + rest)[k] == (if k == r then 1 else 0) + multiset(rest)[k]
  {
    assert multiset([r] + rest) == multiset{r} + multiset(rest);
  }

  /** What liberar_recursos gives back from the index on. */
  function Given(held: seq<nat>, i: nat): seq<nat> {
    Evens(From(held, i))
  }

  /** It is the holding at the index and what is given back from the next index of the shorter list. */
  lemma GivenStep(held: seq<nat>, i: nat)
    requires i < |held|
    ensures Given(held, i) == [held[i]] + Given(RemoveFirst(held, held[i]), i + 1)
  {
    NextTail(held, i);
    EvensStep(held[i..]);
  }

  lemma {:induction false} ReleaseFromRegains(s: State, config: Config, p: nat, i: nat)
    requires p in s.pcbs && |s.resources| == |s.account.orphans| && HoldsKnown(s, p) && NoneNegative(s)
    ensures var t := ReleaseFrom(s, config, p, i);
            AllRegained(s, t, Given(s.pcbs[p].held, i)) && t.devices == s.devices
    decreases |s.pcbs[p].held|
  {
    var held := s.pcbs[p].held;
    if i < |held| {
      var r := held[i];
      assert r in held;
      RemoveKeepsKnown(held, r, |s.resources|);
      var t := Release(s, config, p, r);
      ReleaseRegains(s, config, p, r);
      ReleaseFromRegains(t, config, p, i + 1);
      GivenStep(held, i);
      AllRegainedMore(s, t, ReleaseFrom(t, config, p, i + 1), r, Given(t.pcbs[p].held, i + 1));
    } else {
      NothingRegained(s);
    }
  }

  lemma {:induction false} ReleaseFromKeepsRest(s: State, config: Config, p: nat, i: nat)
    requires p in s.pcbs && |s.resources| == |s.account.orphans| && HoldsKnown(s, p)
    ensures var t := ReleaseFrom(s, config, p, i);
            p in t.pcbs && multiset(t.pcbs[p].held) + multiset(Given(s.pcbs[p].held, i)) == multiset(s.pcbs[p].held)
    decreases |s.pcbs[p].held|
  {
    var held := s.pcbs[p].held;
    if i < |held| {
      var r := held[i];
      assert r in held;
      RemoveKeepsKnown(held, r, |s.resources|);
      var u := ReleaseFrom(Release(s, config, p, r), config, p, i + 1);
      ReleaseFromKeepsRest(Release(s, config, p, r), config, p, i + 1);
      GivenStep(held, i);
      RestStep(held, r, multiset(u.pcbs[p].held), Given(RemoveFirst(held, r), i + 1));
    }
  }

  lemma RestStep(held: seq<nat>, r: nat, rest: multiset<nat>, given: seq<nat>)
    requires r in held && rest + multiset(given) == multiset(RemoveFirst(held, r))
    ensures rest + multiset([r] + given) == multiset(held)
  {
    assert r in multiset(held);
    assert multiset(held) == multiset(RemoveFirst(held, r)) + multiset{r};
    assert multiset([r] + given) == multiset{r} + multiset(given);
  }

  lemma NothingRegained(s: State)
    ensures AllRegained(s, s, [])
  {
    forall k | 0 <= k < |s.resources|
      ensures s.resources[k] == Regained(s.resources[k], 0)
    {
      RegainedAgain(s.resources[k], 0, 0);
    }
  }

  lemma Rest(held: seq<nat>, rest: multiset<nat>)
    requires rest + multiset(Evens(held)) == multiset(held)
    ensures rest == multiset(Odds(held))
  {
    EvensAndOdds(held);
    assert multiset(held) - multiset(Evens(held)) == multiset(Odds(held));
    assert multiset(held) - multiset(Evens(held)) == rest;
  }

  /** What is left is every second holding, from the second one on, and what is given back the others. */
  ghost predicate GivesEvens(s: State, t: State, p: nat)
    requires p in s.pcbs
  {
    var held := s.pcbs[p].held;
    && p in t.pcbs && multiset(t.pcbs[p].held) == multiset(Odds(held))
    && AllRegained(s, t, Evens(held)) && t.devices == s.devices
  }

  lemma ReleaseAllGives(s: State, config: Config, p: nat)
    requires p in s.pcbs && |s.resources| == |s.account.orphans| && HoldsKnown(s, p) && NoneNegative(s)
    ensures GivesEvens(s, ReleaseFrom(s, config, p, 0), p)
  {
    var held := s.pcbs[p].held;
    assert From(held, 0) == held;
    ReleaseFromRegains(s, config, p, 0);
    ReleaseFromKeepsRest(s, config, p, 0);
    Rest(held, multiset(ReleaseFrom(s, config, p, 0).pcbs[p].held));
  }

  lemma GivesAround(s: State, e: State, r: State, t: State, p: nat)
    requires p in s.pcbs && p in e.pcbs && e.pcbs[p].held == s.pcbs[p].held
    requires e.resources == s.resources && e.devices == s.devices
    requires GivesEvens(e, r, p) && t.pcbs == r.pcbs && t.resources == r.resources && t.devices == r.devices
    ensures GivesEvens(s, t, p)
  {
  }

  /**
   The end of a process gives back its first, third, fifth, ... holding, with a waiter woken for each as
   far as there are, and keeps the second, fourth, ...: those are lost.
   */
  lemma FinishGives(s: State, config: Config, p: nat)
    requires p in s.pcbs && |s.resources| == |s.account.orphans| && HoldsKnown(s, p) && NoneNegative(s)
    ensures GivesEvens(s, Finish(s, config, p), p)
  {
    var e := Exited(s, p);
    ReleaseAllGives(e, config, p);
    GivesAround(s, e, ReleaseFrom(e, config, p, 0), Finish(s, config, p), p);
  }

  // What a release leaves alone

  /** NEW, EXEC and EXIT, all semaphores but that of READY, and the accounts of SIGNALs and kills. */
  ghost predicate Quiet(s: State, t: State) {
    && t.queues.newcomers == s.queues.newcomers && t.queues.exec == s.queues.exec && t.queues.exit == s.queues.exit
    && t.sems == s.sems.(ready := t.sems.ready) && t.next == s.next
    && t.account.orphans == s.account.orphans
    && t.account.spareNew == s.account.spareNew && t.account.spareReady == s.account.spareReady
  }

  lemma QuietChain(s: State, t: State, u: State)
    requires Quiet(s, t) && Quiet(t, u)
    ensures Quiet(s, u)
  {
  }

  lemma WakeQuiet(s: State, config: Config, r: nat)
    requires r < |s.resources|
    ensures Quiet(s, Wake(s, config, r))
  {
  }

  lemma ReleaseQuiet(s: State, config: Config, p: nat, r: nat)
    requires p in s.pcbs && r < |s.resources| == |s.account.orphans| && r in s.pcbs[p].held
    ensures Quiet(s, Release(s, config, p, r))
  {
    var g := GiveBack(s, p, r);
    assert g.account.orphans == s.account.orphans;
    assert Quiet(s, g);
    WakeQuiet(g, config, r);
    QuietChain(s, g, Wake(g, config, r));
  }

  lemma {:induction false} ReleaseFromQuiet(s: State, config: Config, p: nat, i: nat)
    requires p in s.pcbs && |s.resources| == |s.account.orphans| && HoldsKnown(s, p)
    ensures Quiet(s, ReleaseFrom(s, config, p, i))
    decreases |s.pcbs[p].held|
  {
    if i < |s.pcbs[p].held| {
      var r := s.pcbs[p].held[i];
      assert r in s.pcbs[p].held;
      RemoveKeepsKnown(s.pcbs[p].held, r, |s.resources|);
      ReleaseQuiet(s, config, p, r);
      ReleaseFromQuiet(Release(s, config, p, r), config, p, i + 1);
      QuietChain(s, Release(s, config, p, r), ReleaseFrom(s, config, p, i));
    }
  }

  // A, B and C

  /** After WAIT on three resources, the first and the third come back, and the second does not. */
  lemma FirstAndThird(s: State, config: Config, p: nat)
    requires p in s.pcbs && |s.resources| == |s.account.orphans| == 3 && NoneNegative(s)
    requires s.pcbs[p].held == [0, 1, 2]
    ensures HoldsKnown(s, p)
    ensures var t := Finish(s, config, p);
            && p in t.pcbs && t.pcbs[p].held == [1] && |t.resources| == 3
            && t.resources[0].instances == s.resources[0].instances + 1
            && t.resources[1].instances == s.resources[1].instances
            && t.resources[2].instances == s.resources[2].instances + 1
  {
    assert HoldsKnown(s, p);
    FinishGives(s, config, p);
    ThreeGiven(s, Finish(s, config, p), p);
  }

  lemma ThreeGiven(s: State, t: State, p: nat)
    requires p in s.pcbs && GivesEvens(s, t, p) && s.pcbs[p].held == [0, 1, 2] && |s.resources| == 3
    ensures p in t.pcbs && t.pcbs[p].held == [1] && |t.resources| == 3
    ensures t.resources[0].instances == s.resources[0].instances + 1
    ensures t.resources[1].instances == s.resources[1].instances
    ensures t.resources[2].instances == s.resources[2].instances + 1
  {
    assert Evens([0, 1, 2]) == [0, 2] && Odds([0, 1, 2]) == [1];
    OneLeft(t.pcbs[p].held, 1);
    assert multiset([0, 2])[0] == 1 && multiset([0, 2])[1] == 0 && multiset([0, 2])[2] == 1;
  }

  lemma OneLeft(q: seq<nat>, x: nat)
    requires multiset(q) == multiset([x])
    ensures q == [x]
  {
    assert |q| == |multiset(q)| == 1;
    assert q[0] in multiset(q);
  }
}
