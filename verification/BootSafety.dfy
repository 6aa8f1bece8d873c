/** Exactly which services can start before what they have to wait for is so. */
module BootSafety {
  import opened Pods
  import opened Wait
  import opened Boot
  import opened BootProgress

  /* ----- The condition on the project ----- */

  /** The service `n` waits for `m` to have started. */
  predicate AwaitsStart(proj: Project, n: string, m: string) {
    exists i | 0 <= i < |proj.services| ::
      proj.services[i].name == n && Counts(proj.services[i], Dependency(m, Started))
  }

  ghost predicate IsChain(proj: Project, chain: seq<string>) {
    chain != [] && forall k | 0 <= k < |chain| - 1 :: AwaitsStart(proj, chain[k], chain[k + 1])
  }

  /** Whenever `n` has started, `m` has: through dependencies on being started. */
  ghost predicate StartsAfter(proj: Project, n: string, m: string) {
    exists chain :: IsChain(proj, chain) && chain[0] == n && chain[|chain| - 1] == m
  }

  /** What `root` starts after depends on services only, and not in circles. */
  ghost predicate Ranked(proj: Project, rank: map<string, nat>, root: string) {
    forall i, d | 0 <= i < |proj.services| && StartsAfter(proj, root, proj.services[i].name)
      && Counts(proj.services[i], d) :: RanksBelow(proj, rank, proj.services[i].name, d)
  }

  predicate RanksBelow(proj: Project, rank: map<string, nat>, n: string, d: Dependency) {
    proj.IsService(d.service) && (d.condition.Started? ==> RankOf(rank, d.service) < RankOf(rank, n))
  }

  ghost predicate CanStart(proj: Project, root: string) {
    exists rank :: Ranked(proj, rank, root)
  }

  ghost predicate DependsOnServices(proj: Project, svc: Service) {
    forall d | Counts(svc, d) :: proj.IsService(d.service)
  }

  lemma RankedServices(proj: Project, rank: map<string, nat>, root: string, svc: Service)
    requires Ranked(proj, rank, root) && svc in proj.services && StartsAfter(proj, root, svc.name)
    ensures DependsOnServices(proj, svc)
  {
    var i :| 0 <= i < |proj.services| && proj.services[i] == svc;
    forall d | Counts(svc, d) ensures proj.IsService(d.service) {
      assert RanksBelow(proj, rank, proj.services[i].name, d);
    }
  }

  /** A service shares a native volume with one that it does not start after, or
      has a dependency on another's health. */
  ghost predicate CanStartEarly(proj: Project, svc: Service) {
    || (exists m :: Shares(proj.services, proj.named, svc, m) && !StartsAfter(proj, svc.name, m))
    || NeedsHealth(svc)
  }

  ghost predicate NeedsHealth(svc: Service) {
    exists m :: Counts(svc, Dependency(m, Healthy))
  }

  /** It runs, and something that it had to wait for is not so. */
  ghost predicate StartedEarly(proj: Project, s: State, svc: Service) {
    Runs(s, svc.name) && !AllMet(proj, s, svc)
  }

  lemma StartsAfterItself(proj: Project, n: string)
    ensures StartsAfter(proj, n, n)
  {
    assert IsChain(proj, [n]);
  }

  /* ----- Safe: chains of dependencies on being started ----- */

  lemma {:induction false} ChainRuns(proj: Project, s: State, chain: seq<string>)
    requires proj.Valid() && Reachable(proj, s) && IsChain(proj, chain) && Runs(s, chain[0])
    ensures Runs(s, chain[|chain| - 1])
  {
    if |chain| > 1 {
      assert AwaitsStart(proj, chain[0], chain[1]);
      var i :| 0 <= i < |proj.services| && proj.services[i].name == chain[0]
        && Counts(proj.services[i], Dependency(chain[1], Started));
      DependenciesWereMet(proj, s, proj.services[i], Dependency(chain[1], Started));
      var rest := chain[1..];
      forall k | 0 <= k < |rest| - 1 ensures AwaitsStart(proj, rest[k], rest[k + 1]) {
        assert AwaitsStart(proj, chain[k + 1], chain[k + 2]);
      }
      ChainRuns(proj, s, rest);
    }
  }

  lemma RunningHasSeeded(proj: Project, s: State, m: string)
    requires proj.Valid() && Reachable(proj, s) && Runs(s, m)
    ensures m in proj.plans && Seeded(proj.plans[m], s.pods[m].at.done)
  {
    ReachableOk(proj, s);
    assert PodOk(proj, s, m);
  }

  /** Without such a share and such a dependency, a service never starts early. */
  lemma NeverStartsEarly(proj: Project, s: State, svc: Service)
    requires proj.Valid() && Reachable(proj, s) && svc in proj.services && !CanStartEarly(proj, svc)
    ensures !StartedEarly(proj, s, svc)
  {
    if Runs(s, svc.name) {
      forall m | Shares(proj.services, proj.named, svc, m)
        ensures m in s.pods && m in proj.plans && Seeded(proj.plans[m], s.pods[m].at.done)
      {
        assert StartsAfter(proj, svc.name, m);
        var chain :| IsChain(proj, chain) && chain[0] == svc.name && chain[|chain| - 1] == m;
        ChainRuns(proj, s, chain);
        RunningHasSeeded(proj, s, m);
      }
      forall d | svc.dependsOn != map[] && DependsOn(svc.dependsOn, svc.links, d) ensures Met(s, d) {
        DependenciesWereMet(proj, s, svc, d);
        assert d.condition.Healthy? ==> Counts(svc, Dependency(d.service, Healthy));
      }
      if BindSources(svc.volumes, proj.named) != [] {
        SyncHadFinished(proj, s, svc);
      }
    }
  }

  /* ----- One pod's way to its start ----- */

  /** Only the pod `n` has moved. */
  predicate OnlyMoves(s: State, s': State, n: string) {
    n in s.pods && n in s'.pods && s' == s.(pods := s.pods[n := s'.pods[n]])
  }

  lemma MovesOn(s: State, t: State, u: State, n: string)
    requires OnlyMoves(s, t, n) && OnlyMoves(t, u, n)
    ensures OnlyMoves(s, u, n)
  {
    assert s.pods[n := u.pods[n]] == t.pods[n := u.pods[n]];
  }

  lemma ObserveOne(proj: Project, s: State, n: string, check: Check) returns (s': State)
    requires Reachable(proj, s) && n in s.pods && n in proj.plans
    requires AtWaiter(proj.plans[n], s.pods[n].at.done)
    requires Demands(SpecOf(proj.plans[n][s.pods[n].at.done]), check) && Seen(proj, s, check)
    ensures Reachable(proj, s') && OnlyMoves(s, s', n)
    ensures s'.pods[n].at == s.pods[n].at && s'.pods[n].checked == s.pods[n].checked + {check}
  {
    s' := StepReaches(proj, s, Act(n, Observe(check)));
  }

  /** Checks that the node controller finds satisfied are all made. */
  lemma {:induction false} ObserveAll(proj: Project, s: State, n: string, wanted: set<Check>) returns (s': State)
    requires Reachable(proj, s) && n in s.pods && n in proj.plans
    requires AtWaiter(proj.plans[n], s.pods[n].at.done)
    requires forall check | check in wanted ::
      Demands(SpecOf(proj.plans[n][s.pods[n].at.done]), check) && Seen(proj, s, check)
    ensures Reachable(proj, s') && OnlyMoves(s, s', n)
    ensures s'.pods[n].at == s.pods[n].at && s'.pods[n].checked == s.pods[n].checked + wanted
    decreases wanted
  {
    if wanted == {} {
      s' := s;
      assert s.pods == s.pods[n := s.pods[n]];
    } else {
      var check :| check in wanted;
      var t := ObserveAll(proj, s, n, wanted - {check});
      s' := ObserveOne(proj, t, n, check);
      MovesOn(s, t, s', n);
      assert s.pods[n].checked + wanted == s.pods[n].checked + (wanted - {check}) + {check};
    }
  }

  /** All that container `k` waits for is found ready, or was before. */
  ghost predicate Clear(proj: Project, s: State, n: string, k: nat)
    requires n in s.pods && n in proj.plans && k < |proj.plans[n]|
  {
    forall check | Demands(SpecOf(proj.plans[n][k]), check) ::
      Seen(proj, s, check) || (k == s.pods[n].at.done && check in s.pods[n].checked)
  }

  ghost function Visible(proj: Project, s: State, c: Container): (wanted: set<Check>)
    ensures forall check :: check in wanted <==> Demands(SpecOf(c), check) && Seen(proj, s, check)
  {
    assert forall check :: check in Demanded(SpecOf(c)) <==> Demands(SpecOf(c), check) by {
      forall check ensures check in Demanded(SpecOf(c)) <==> Demands(SpecOf(c), check) {
        DemandedExactly(SpecOf(c), check);
      }
    }
    set check | check in Demanded(SpecOf(c)) && Seen(proj, s, check)
  }

  lemma PassWaiter(proj: Project, s: State, n: string) returns (s': State)
    requires Reachable(proj, s) && n in s.pods && n in proj.plans && AtWaiter(proj.plans[n], s.pods[n].at.done)
    requires Clear(proj, s, n, s.pods[n].at.done)
    ensures Reachable(proj, s') && OnlyMoves(s, s', n)
    ensures s'.pods[n].at == s.pods[n].at.(done := s.pods[n].at.done + 1) && s'.pods[n].checked == {}
  {
    var t := ObserveAll(proj, s, n, Visible(proj, s, proj.plans[n][s.pods[n].at.done]));
    s' := StepReaches(proj, t, Act(n, Finish));
    MovesOn(s, t, s', n);
  }

  lemma PassContainer(proj: Project, s: State, n: string) returns (s': State)
    requires Reachable(proj, s) && n in s.pods && n in proj.plans && s.pods[n].at.done < |proj.plans[n]|
    requires Clear(proj, s, n, s.pods[n].at.done)
    ensures Reachable(proj, s') && OnlyMoves(s, s', n)
    ensures s'.pods[n].at == s.pods[n].at.(done := s.pods[n].at.done + 1)
    ensures s.pods[n].checked == {} ==> s'.pods[n].checked == {}
  {
    if AtWaiter(proj.plans[n], s.pods[n].at.done) {
      s' := PassWaiter(proj, s, n);
    } else {
      s' := StepReaches(proj, s, Act(n, RunInit));
    }
  }

  lemma StaysClear(proj: Project, s: State, s': State, n: string, k: nat)
    requires n in s.pods && n in proj.plans && k < |proj.plans[n]| && Clear(proj, s, n, k)
    requires OnlyMoves(s, s', n) && s.pods[n].at.done < k
    ensures Clear(proj, s', n, k)
  {
    forall check | Demands(SpecOf(proj.plans[n][k]), check) ensures Seen(proj, s', check) {
      assert Seen(proj, s, check);
    }
  }

  /** A pod passes the containers for which everything is found ready. */
  lemma {:induction false} PassContainers(proj: Project, s: State, n: string, k: nat) returns (s': State)
    requires Reachable(proj, s) && n in s.pods && n in proj.plans && s.pods[n].at.done <= k <= |proj.plans[n]|
    requires forall i | s.pods[n].at.done <= i < k :: Clear(proj, s, n, i)
    ensures Reachable(proj, s') && OnlyMoves(s, s', n) && s'.pods[n].at == s.pods[n].at.(done := k)
    ensures s.pods[n].checked == {} ==> s'.pods[n].checked == {}
    decreases k - s.pods[n].at.done
  {
    if s.pods[n].at.done == k {
      s' := s;
      assert s.pods == s.pods[n := s.pods[n]];
    } else {
      var t := PassContainer(proj, s, n);
      forall i | t.pods[n].at.done <= i < k ensures Clear(proj, t, n, i) {
        StaysClear(proj, s, t, n, i);
      }
      s' := PassContainers(proj, t, n, k);
      MovesOn(s, t, s', n);
    }
  }

  /* ----- Waiting with everything found ready that can be, in an empty status ----- */

  /** The pod has found ready all that it waits for but starts and the sync. */
  ghost predicate Poised(proj: Project, s: State, n: string)
    requires n in s.pods && n in proj.plans
  {
    s.pods[n].at.done <= |proj.plans[n]| && forall k, check ::
      s.pods[n].at.done <= k < |proj.plans[n]| && Demands(SpecOf(proj.plans[n][k]), check) ==>
        check.IsStarted? || check.IsSynced? || (k == s.pods[n].at.done && check in s.pods[n].checked)
  }

  predicate Unlisted(s: State, n: string) {
    && n in s.pods && !s.pods[n].at.listed && !s.pods[n].at.started && !s.pods[n].at.healthy && !s.pods[n].at.ended
    && n in s.views && !s.views[n].listed
  }

  const FIRST := Progress(0, false, false, false, false)
  const NEW := Pod(FIRST, {}, {})

  /** Nothing but the first empty status of any pod has been seen. */
  ghost predicate Empty(proj: Project, s: State) {
    Reachable(proj, s) && s.hasSynced &&
    forall i | 0 <= i < |proj.services| :: Unlisted(s, proj.services[i].name)
  }

  lemma GateAt(svc: Service, named: map<string, string>, sharers: seq<string>, deps: seq<Dependency>, k: nat)
    requires k < |Gates(svc, named, sharers, deps)|
    ensures
      var c := Gates(svc, named, sharers, deps)[k];
      var first := |SeedGates(NativeSources(svc.volumes, named), sharers)|;
      && (k < first ==> c.CopyVcp? || c.InitializeVolumes? || c.AwaitInitialized?)
      && (k == first ==> c.AwaitDependsOn? || c.AwaitSync?)
      && (k > first ==> c.AwaitSync?)
  {
    var seeding := SeedGates(NativeSources(svc.volumes, named), sharers);
    var depending, syncing := DependencyGates(svc, deps), SyncGates(BindSources(svc.volumes, named));
    var c := Gates(svc, named, sharers, deps)[k];
    if k < |seeding| {
      assert c == seeding[k];
    } else if k < |seeding| + |depending| {
      assert c == depending[k - |seeding|];
    } else {
      assert c == syncing[k - |seeding| - |depending|];
    }
  }

  /** From here on the containers wait for dependencies and for the sync. */
  ghost predicate WaitsFrom(plan: seq<Container>, first: nat) {
    && first <= |plan| && (first < |plan| ==> AtWaiter(plan, first))
    && forall k, check | 0 <= k < |plan| && Demands(SpecOf(plan[k]), check) :: InGate(k - first, check)
  }

  predicate InGate(offset: int, check: Check) {
    && (offset < 0 ==> check.IsInitialized?)
    && (offset == 0 ==> !check.IsInitialized?)
    && (offset > 0 ==> check.IsSynced?)
  }

  lemma GateOrder(proj: Project, svc: Service, plan: seq<Container>) returns (first: nat)
    requires Planned(proj.services, proj.named, svc, plan)
    ensures WaitsFrom(plan, first)
  {
    var sharers, deps :| plan == Gates(svc, proj.named, sharers, deps);
    var seeding := SeedGates(NativeSources(svc.volumes, proj.named), sharers);
    first := |seeding|;
    assert first <= |Gates(svc, proj.named, sharers, deps)|;
    if first < |plan| {
      GateAt(svc, proj.named, sharers, deps, first);
    }
    forall k, check | 0 <= k < |plan| && Demands(SpecOf(plan[k]), check) ensures InGate(k - first, check) {
      GateAt(svc, proj.named, sharers, deps, k);
    }
  }

  /** What a service waits for is a service. */
  lemma AwaitedIsService(proj: Project, svc: Service, k: nat, check: Check)
    requires proj.Valid() && DependsOnServices(proj, svc) && svc in proj.services
    requires k < |proj.plans[svc.name]| && Demands(SpecOf(proj.plans[svc.name][k]), check) && !check.IsSynced?
    ensures exists i :: 0 <= i < |proj.services| && proj.services[i].name == check.service
    ensures check.service in proj.plans && SeedsFirst(proj.plans[check.service])
    ensures check.IsStarted? ==> Counts(svc, Dependency(check.service, Started))
  {
    DemandsKnown(proj, svc, proj.plans[svc.name], k, check);
    assert proj.IsService(check.service);
    ServiceHasPlan(proj, check.service);
  }

  /** In an empty status, everything but starts is found as it should be. */
  lemma EmptySatisfies(proj: Project, s: State, svc: Service, k: nat, check: Check)
    requires proj.Valid() && DependsOnServices(proj, svc) && svc in proj.services && Empty(proj, s)
    requires k < |proj.plans[svc.name]| && Demands(SpecOf(proj.plans[svc.name][k]), check) && !check.IsStarted?
    ensures Seen(proj, s, check)
  {
    if !check.IsSynced? {
      AwaitedIsService(proj, svc, k, check);
      assert Unlisted(s, check.service);
      ConditionsExactly(proj.plans[check.service], s.views[check.service]);
    }
  }

  /* ----- First: every service comes as far as it can without a start ----- */

  lemma {:induction false} CreateAll(proj: Project, s: State, k: nat) returns (s': State)
    requires proj.Valid() && Reachable(proj, s) && k <= |proj.services|
    requires forall i | 0 <= i < |proj.services| :: if i < k then IsNew(s, proj.services[i].name)
                                                    else proj.services[i].name !in s.pods
    ensures Reachable(proj, s') && s'.hasSynced == s.hasSynced
    ensures forall i | 0 <= i < |proj.services| :: IsNew(s', proj.services[i].name)
    decreases |proj.services| - k
  {
    if k == |proj.services| {
      s' := s;
    } else {
      var t := CreateOne(proj, s, proj.services[k].name);
      s' := CreateAll(proj, t, k + 1);
    }
  }

  lemma CreateOne(proj: Project, s: State, n: string) returns (s': State)
    requires Reachable(proj, s) && n in proj.plans && n !in s.pods
    ensures Reachable(proj, s') && s' == State(s.pods[n := NEW], s.views[n := FIRST], s.hasSynced)
  {
    s' := StepReaches(proj, s, Create(n));
    s' := StepReaches(proj, s', Deliver(n));
  }

  predicate IsNew(s: State, n: string) {
    n in s.pods && s.pods[n] == NEW && n in s.views && s.views[n] == FIRST
  }

  lemma EmptyStart(proj: Project) returns (s: State)
    requires proj.Valid()
    ensures Empty(proj, s) && forall i | 0 <= i < |proj.services| :: IsNew(s, proj.services[i].name)
  {
    assert IsRun(proj, [START], []);
    s := StepReaches(proj, START, FinishSync);
    s := CreateAll(proj, s, 0);
  }

  lemma PassSeeds(proj: Project, s: State, svc: Service, first: nat) returns (s': State)
    requires proj.Valid() && DependsOnServices(proj, svc) && svc in proj.services && Empty(proj, s)
    requires IsNew(s, svc.name) && WaitsFrom(proj.plans[svc.name], first)
    ensures Reachable(proj, s') && OnlyMoves(s, s', svc.name)
    ensures s'.pods[svc.name].at == FIRST.(done := first) && s'.pods[svc.name].checked == {}
  {
    var plan := proj.plans[svc.name];
    forall i | 0 <= i < first ensures Clear(proj, s, svc.name, i) {
      forall check | Demands(SpecOf(plan[i]), check) ensures Seen(proj, s, check) {
        assert InGate(i - first, check);
        EmptySatisfies(proj, s, svc, i, check);
      }
    }
    s' := PassContainers(proj, s, svc.name, first);
  }

  lemma StaysEmpty(proj: Project, s: State, s': State, n: string)
    requires Empty(proj, s) && Reachable(proj, s') && OnlyMoves(s, s', n) && Unlisted(s', n)
    ensures Empty(proj, s')
  {
    forall i | 0 <= i < |proj.services| ensures Unlisted(s', proj.services[i].name) {
      assert Unlisted(s, proj.services[i].name);
    }
  }

  lemma ObserveRest(proj: Project, s: State, svc: Service) returns (s': State)
    requires proj.Valid() && DependsOnServices(proj, svc) && svc in proj.services && Empty(proj, s)
    requires svc.name in s.pods
    requires WaitsFrom(proj.plans[svc.name], s.pods[svc.name].at.done)
    ensures Reachable(proj, s') && OnlyMoves(s, s', svc.name) && s'.pods[svc.name].at == s.pods[svc.name].at
    ensures Poised(proj, s', svc.name)
  {
    var n, first := svc.name, s.pods[svc.name].at.done;
    var plan := proj.plans[n];
    if first == |plan| {
      s' := s;
      assert s.pods == s.pods[n := s.pods[n]];
    } else {
      s' := ObserveAll(proj, s, n, Visible(proj, s, plan[first]));
      forall check | Demands(SpecOf(plan[first]), check) ensures check.IsStarted? || check in s'.pods[n].checked {
        if !check.IsStarted? {
          EmptySatisfies(proj, s, svc, first, check);
        }
      }
      forall k, check | first <= k < |plan| && Demands(SpecOf(plan[k]), check)
        ensures check.IsStarted? || check.IsSynced? || (k == first && check in s'.pods[n].checked)
      {
        assert InGate(k - first, check);
      }
    }
  }

  lemma Poise(proj: Project, s: State, svc: Service) returns (s': State)
    requires proj.Valid() && DependsOnServices(proj, svc) && svc in proj.services && Empty(proj, s)
    requires IsNew(s, svc.name)
    ensures Empty(proj, s') && OnlyMoves(s, s', svc.name) && Poised(proj, s', svc.name)
  {
    var first := GateOrder(proj, svc, proj.plans[svc.name]);
    var t := PassSeeds(proj, s, svc, first);
    StaysEmpty(proj, s, t, svc.name);
    s' := ObserveRest(proj, t, svc);
    StaysEmpty(proj, t, s', svc.name);
    MovesOn(s, t, s', svc.name);
  }

  /* ----- Then those that a service starts after start, and it does ----- */

  /** On the way to starting `root`: what it starts after has started or is
      poised, and everything else has done nothing. */
  ghost predicate InPlace(proj: Project, s: State, root: string, n: string) {
    && n in s.pods && n in proj.plans && !s.pods[n].at.healthy && !s.pods[n].at.ended
    && if !StartsAfter(proj, root, n) then s.pods[n] == NEW
       else if s.pods[n].at.started then n in s.views && s.views[n] == s.pods[n].at
       else Poised(proj, s, n)
  }

  ghost predicate AllInPlace(proj: Project, s: State, root: string) {
    Reachable(proj, s) && s.hasSynced &&
    forall i | 0 <= i < |proj.services| :: InPlace(proj, s, root, proj.services[i].name)
  }

  lemma {:induction false} PoiseAll(proj: Project, rank: map<string, nat>, s: State, root: string, k: nat)
    returns (s': State)
    requires proj.Valid() && Ranked(proj, rank, root) && Empty(proj, s) && k <= |proj.services|
    requires forall i | 0 <= i < |proj.services| ::
      if i < k then InPlace(proj, s, root, proj.services[i].name) else IsNew(s, proj.services[i].name)
    ensures AllInPlace(proj, s', root)
    decreases |proj.services| - k
  {
    if k == |proj.services| {
      s' := s;
    } else {
      var t := PoiseOne(proj, rank, s, root, k);
      s' := PoiseAll(proj, rank, t, root, k + 1);
    }
  }

  lemma PoiseOne(proj: Project, rank: map<string, nat>, s: State, root: string, k: nat) returns (s': State)
    requires proj.Valid() && Ranked(proj, rank, root) && Empty(proj, s) && k < |proj.services|
    requires forall i | 0 <= i < |proj.services| ::
      if i < k then InPlace(proj, s, root, proj.services[i].name) else IsNew(s, proj.services[i].name)
    ensures Empty(proj, s')
    ensures forall i | 0 <= i < |proj.services| ::
      if i <= k then InPlace(proj, s', root, proj.services[i].name) else IsNew(s', proj.services[i].name)
  {
    var n := proj.services[k].name;
    s' := s;
    if StartsAfter(proj, root, n) {
      RankedServices(proj, rank, root, proj.services[k]);
      s' := Poise(proj, s, proj.services[k]);
      assert Unlisted(s', n);
    }
    forall i | 0 <= i < |proj.services| && i != k
      ensures if i < k then InPlace(proj, s', root, proj.services[i].name) else IsNew(s', proj.services[i].name)
    {
      StaysInPlace(proj, s, s', root, n, proj.services[i].name);
    }
  }

  lemma StaysInPlace(proj: Project, s: State, s': State, root: string, moved: string, n: string)
    requires moved != n && (s' == s || OnlyMoves(s, s', moved))
    ensures InPlace(proj, s, root, n) ==> InPlace(proj, s', root, n)
    ensures IsNew(s, n) ==> IsNew(s', n)
  {
  }

  lemma IsInPlace(proj: Project, s: State, root: string, n: string)
    requires AllInPlace(proj, s, root) && proj.IsService(n)
    ensures InPlace(proj, s, root, n)
  {
    var i :| 0 <= i < |proj.services| && proj.services[i].name == n;
  }

  lemma StartIsSeen(proj: Project, s: State, root: string, m: string)
    requires AllInPlace(proj, s, root) && proj.IsService(m) && Runs(s, m)
    ensures Seen(proj, s, IsStarted(m))
  {
    IsInPlace(proj, s, root, m);
  }

  lemma PoisedFor(proj: Project, s: State, n: string, k: nat, check: Check)
    requires n in s.pods && n in proj.plans && Poised(proj, s, n) && s.hasSynced
    requires s.pods[n].at.done <= k < |proj.plans[n]| && Demands(SpecOf(proj.plans[n][k]), check)
    ensures check.IsStarted? || Seen(proj, s, check) || (k == s.pods[n].at.done && check in s.pods[n].checked)
  {
  }

  /** Everything a poised service still waits for is found ready. */
  lemma NowClear(proj: Project, s: State, root: string, svc: Service, k: nat)
    requires proj.Valid() && DependsOnServices(proj, svc) && svc in proj.services && AllInPlace(proj, s, root)
    requires svc.name in s.pods && Poised(proj, s, svc.name)
    requires s.pods[svc.name].at.done <= k < |proj.plans[svc.name]|
    requires forall m | Counts(svc, Dependency(m, Started)) :: Runs(s, m)
    ensures Clear(proj, s, svc.name, k)
  {
    forall check | Demands(SpecOf(proj.plans[svc.name][k]), check)
      ensures Seen(proj, s, check) || (k == s.pods[svc.name].at.done && check in s.pods[svc.name].checked)
    {
      PoisedFor(proj, s, svc.name, k, check);
      if check.IsStarted? {
        AwaitedIsService(proj, svc, k, check);
        StartIsSeen(proj, s, root, check.service);
      }
    }
  }

  /** Passing what is left, the status is filled in, the pod starts and is seen. */
  lemma StartPod(proj: Project, s: State, n: string) returns (s': State)
    requires Reachable(proj, s) && n in s.pods && n in proj.plans && s.pods[n].at.done <= |proj.plans[n]|
    requires !s.pods[n].at.started && !s.pods[n].at.healthy && !s.pods[n].at.ended
    requires forall k | s.pods[n].at.done <= k < |proj.plans[n]| :: Clear(proj, s, n, k)
    ensures Reachable(proj, s') && n in s'.pods && s'.pods[n].at.started && !s'.pods[n].at.healthy
    ensures !s'.pods[n].at.ended
    ensures s' == State(s.pods[n := s'.pods[n]], s.views[n := s'.pods[n].at], s.hasSynced)
  {
    var t := PassContainers(proj, s, n, |proj.plans[n]|);
    s' := t;
    if !s'.pods[n].at.listed {
      s' := StepReaches(proj, s', Act(n, List));
    }
    s' := StepReaches(proj, s', Act(n, Start));
    MovesOn(s, t, s', n);
    s' := StepReaches(proj, s', Deliver(n));
  }

  lemma OthersStayInPlace(proj: Project, s: State, root: string, n: string, pod: Pod, other: string)
    requires n in s.pods && n != other && InPlace(proj, s, root, other)
    ensures InPlace(proj, State(s.pods[n := pod], s.views[n := pod.at], s.hasSynced), root, other)
  {
  }

  lemma StartOne(proj: Project, s: State, root: string, svc: Service) returns (s': State)
    requires proj.Valid() && DependsOnServices(proj, svc) && svc in proj.services && AllInPlace(proj, s, root)
    requires StartsAfter(proj, root, svc.name) && !Runs(s, svc.name)
    requires forall m | Counts(svc, Dependency(m, Started)) :: Runs(s, m)
    ensures AllInPlace(proj, s', root) && Runs(s', svc.name) && forall m | Runs(s, m) :: Runs(s', m)
  {
    var n := svc.name;
    IsInPlace(proj, s, root, n);
    forall k | s.pods[n].at.done <= k < |proj.plans[n]| ensures Clear(proj, s, n, k) {
      NowClear(proj, s, root, svc, k);
    }
    s' := StartPod(proj, s, n);
    forall j | 0 <= j < |proj.services| ensures InPlace(proj, s', root, proj.services[j].name) {
      IsInPlace(proj, s, root, proj.services[j].name);
      if proj.services[j].name != n {
        OthersStayInPlace(proj, s, root, n, s'.pods[n], proj.services[j].name);
      }
    }
  }

  lemma OneLinkMore(proj: Project, root: string, n: string, m: string)
    requires StartsAfter(proj, root, n) && AwaitsStart(proj, n, m)
    ensures StartsAfter(proj, root, m)
  {
    var chain :| IsChain(proj, chain) && chain[0] == root && chain[|chain| - 1] == n;
    assert IsChain(proj, chain + [m]);
  }

  /** In the order of the ranks. */
  lemma {:induction false} StartUp(proj: Project, rank: map<string, nat>, s: State, root: string, svc: Service)
    returns (s': State)
    requires proj.Valid() && Ranked(proj, rank, root) && svc in proj.services && AllInPlace(proj, s, root)
    requires StartsAfter(proj, root, svc.name)
    ensures AllInPlace(proj, s', root) && Runs(s', svc.name) && forall m | Runs(s, m) :: Runs(s', m)
    decreases RankOf(rank, svc.name), |proj.services| + 1
  {
    RankedServices(proj, rank, root, svc);
    s' := StartAwaited(proj, rank, s, root, svc, 0);
    forall m | Counts(svc, Dependency(m, Started)) ensures Runs(s', m) {
      assert proj.IsService(m);
    }
    if !Runs(s', svc.name) {
      s' := StartOne(proj, s', root, svc);
    }
  }

  lemma {:induction false} StartAwaited(proj: Project, rank: map<string, nat>, s: State, root: string, svc: Service,
                                        k: nat)
    returns (s': State)
    requires proj.Valid() && Ranked(proj, rank, root) && svc in proj.services && AllInPlace(proj, s, root)
    requires StartsAfter(proj, root, svc.name) && k <= |proj.services|
    ensures AllInPlace(proj, s', root) && forall m | Runs(s, m) :: Runs(s', m)
    ensures forall j | k <= j < |proj.services| && Counts(svc, Dependency(proj.services[j].name, Started)) ::
      Runs(s', proj.services[j].name)
    decreases RankOf(rank, svc.name), |proj.services| - k
  {
    s' := s;
    if k < |proj.services| {
      var m := proj.services[k].name;
      if Counts(svc, Dependency(m, Started)) {
        var i :| 0 <= i < |proj.services| && proj.services[i] == svc;
        assert Counts(proj.services[i], Dependency(m, Started));
        assert RanksBelow(proj, rank, proj.services[i].name, Dependency(m, Started));
        assert AwaitsStart(proj, svc.name, m);
        OneLinkMore(proj, root, svc.name, m);
        s' := StartUp(proj, rank, s, root, proj.services[k]);
      }
      s' := StartAwaited(proj, rank, s', root, svc, k + 1);
    }
  }

  /** A service can start when only those that it starts after have, and nothing
      else has run at all. */
  lemma StartsAlone(proj: Project, rank: map<string, nat>, svc: Service) returns (s: State)
    requires proj.Valid() && Ranked(proj, rank, svc.name) && svc in proj.services
    ensures AllInPlace(proj, s, svc.name) && Runs(s, svc.name)
  {
    s := EmptyStart(proj);
    s := PoiseAll(proj, rank, s, svc.name, 0);
    StartsAfterItself(proj, svc.name);
    s := StartUp(proj, rank, s, svc.name, svc);
  }

  /* ----- What has started could start ----- */

  /** When a service has started in a run. */
  ghost predicate StartsAt(states: seq<State>, n: string, k: nat) {
    k < |states| && Runs(states[k], n) && forall i | 0 <= i < k :: !Runs(states[i], n)
  }

  ghost function StartTime(states: seq<State>, n: string, k: nat): (time: nat)
    requires k < |states| && Runs(states[k], n)
    ensures StartsAt(states, n, time) && time <= k
    decreases k
  {
    if i :| 0 <= i < k && Runs(states[i], n) then StartTime(states, n, i) else k
  }

  lemma PodIsOk(proj: Project, s: State, n: string)
    requires proj.Valid() && Reachable(proj, s) && n in s.pods
    ensures PodOk(proj, s, n)
  {
    ReachableOk(proj, s);
  }

  lemma AllPassed(proj: Project, s: State, n: string, k: nat, check: Check)
    requires n in s.pods && PodOk(proj, s, n) && s.pods[n].at.done == |proj.plans[n]|
    requires k < |proj.plans[n]| && Demands(SpecOf(proj.plans[n][k]), check)
    ensures Justified(proj, s, s.pods[n], check)
  {
    assert Passed(proj, s, s.pods[n], proj.plans[n][k]);
  }

  lemma DependencyDemands(proj: Project, svc: Service, d: Dependency) returns (k: nat)
    requires proj.Valid() && svc in proj.services && Counts(svc, d)
    ensures svc.name in proj.plans && k < |proj.plans[svc.name]|
    ensures Demands(SpecOf(proj.plans[svc.name][k]),
                    if d.condition.Started? then IsStarted(d.service) else IsHealthy(d.service))
  {
    var deps;
    k, deps := PlannedAwaitsDependencies(proj.services, proj.named, svc, proj.plans[svc.name]);
    assert d in deps;
  }

  /** What a pod had to wait for was so when it could only start. */
  lemma WaitIsOver(proj: Project, s: State, svc: Service, d: Dependency)
    requires proj.Valid() && Reachable(proj, s) && svc in proj.services && Counts(svc, d)
    requires svc.name in s.pods && svc.name in proj.plans && s.pods[svc.name].at.done == |proj.plans[svc.name]|
    ensures d.condition.Started? ==> Runs(s, d.service)
    ensures d.condition.Healthy? ==> Justified(proj, s, s.pods[svc.name], IsHealthy(d.service))
  {
    var k := DependencyDemands(proj, svc, d);
    PodIsOk(proj, s, svc.name);
    if d.condition.Started? {
      AllPassed(proj, s, svc.name, k, IsStarted(d.service));
      NeverTakenBlindly(proj, s, svc.name, IsStarted(d.service));
    } else {
      AllPassed(proj, s, svc.name, k, IsHealthy(d.service));
    }
  }

  /** Only pods of services are ever seen. */
  lemma {:induction false} BlindIsPlanned(proj: Project, states: seq<State>, acts: seq<Action>, k: nat, n: string,
                                          check: Check)
    requires IsRun(proj, states, acts) && k <= |acts|
    requires n in states[k].pods && check in states[k].pods[n].blind && !check.IsSynced?
    ensures check.service in proj.plans
  {
    if k > 0 && n in states[k - 1].pods && check in states[k - 1].pods[n].blind {
      BlindIsPlanned(proj, states, acts, k - 1, n, check);
    } else if k > 0 {
      var a := acts[k - 1];
      assert Enabled(proj, states[k - 1], a) && states[k] == Exec(proj, states[k - 1], a);
    }
  }

  lemma Prefix(proj: Project, states: seq<State>, acts: seq<Action>, k: nat)
    requires IsRun(proj, states, acts) && k <= |acts|
    ensures Reachable(proj, states[k])
  {
    var fewer, before := acts[..k], states[..k + 1];
    forall i {:trigger fewer[i]} | 0 <= i < |fewer|
      ensures Enabled(proj, before[i], fewer[i]) && before[i + 1] == Exec(proj, before[i], fewer[i])
    {
      assert fewer[i] == acts[i];
    }
    assert IsRun(proj, before, fewer);
  }

  lemma StartsByItself(proj: Project, s: State, a: Action, n: string)
    requires Enabled(proj, s, a) && !Runs(s, n) && Runs(Exec(proj, s, a), n)
    ensures n in s.pods && n in proj.plans && s.pods[n].at.done == |proj.plans[n]|
  {
    assert a == Act(n, Start);
  }

  /** Just before a service starts, what it depends on is a service, and has
      started if that is what it depends on. */
  lemma BeforeItStarts(proj: Project, states: seq<State>, acts: seq<Action>, svc: Service, d: Dependency, k: nat)
    requires proj.Valid() && IsRun(proj, states, acts) && svc in proj.services && Counts(svc, d)
    requires k <= |acts| && StartsAt(states, svc.name, k)
    ensures k > 0 && d.service in proj.plans && (d.condition.Started? ==> Runs(states[k - 1], d.service))
  {
    var a, s := acts[k - 1], states[k - 1];
    assert Enabled(proj, s, a) && states[k] == Exec(proj, s, a);
    StartsByItself(proj, s, a, svc.name);
    Prefix(proj, states, acts, k - 1);
    WaitIsOver(proj, s, svc, d);
    if d.condition.Started? {
      PodIsOk(proj, s, d.service);
    } else {
      JustifiedIsPlanned(proj, states, acts, k - 1, svc.name, d.service);
    }
  }

  lemma JustifiedIsPlanned(proj: Project, states: seq<State>, acts: seq<Action>, k: nat, n: string, m: string)
    requires IsRun(proj, states, acts) && k <= |acts| && n in states[k].pods
    requires Justified(proj, states[k], states[k].pods[n], IsHealthy(m))
    ensures m in proj.plans
  {
    if IsHealthy(m) in states[k].pods[n].blind {
      BlindIsPlanned(proj, states, acts, k, n, IsHealthy(m));
    }
  }

  /** The times at which services have started are ranks. */
  lemma StartedCanStart(proj: Project, s: State, svc: Service)
    requires proj.Valid() && Reachable(proj, s) && svc in proj.services && Runs(s, svc.name)
    ensures CanStart(proj, svc.name)
  {
    var states, acts :| IsRun(proj, states, acts) && s == states[|acts|];
    var last := |acts|;
    var rank := map n | n in s.pods && Runs(states[last], n) :: StartTime(states, n, last);
    forall i, d | 0 <= i < |proj.services| && StartsAfter(proj, svc.name, proj.services[i].name)
      && Counts(proj.services[i], d)
      ensures RanksBelow(proj, rank, proj.services[i].name, d)
    {
      var n := proj.services[i].name;
      var chain :| IsChain(proj, chain) && chain[0] == svc.name && chain[|chain| - 1] == n;
      ChainRuns(proj, s, chain);
      var k := StartTime(states, n, last);
      BeforeItStarts(proj, states, acts, proj.services[i], d, k);
      if d.condition.Started? {
        StaysStarted(proj, states, acts, d.service, k - 1, last);
        assert StartsAt(states, d.service, rank[d.service]);
      }
    }
    assert Ranked(proj, rank, svc.name);
  }

  lemma {:induction false} StaysStarted(proj: Project, states: seq<State>, acts: seq<Action>, n: string, k: nat,
                                        last: nat)
    requires IsRun(proj, states, acts) && k <= last <= |acts| && Runs(states[k], n)
    ensures Runs(states[last], n)
  {
    if k < last {
      StaysStarted(proj, states, acts, n, k, last - 1);
      var a := acts[last - 1];
      StepGoesForward(proj, states[last - 1], a);
    }
  }

  /** A service can start, in some run, if and only if what it starts after depends
      on services only and not in circles. */
  lemma StartsExactly(proj: Project, svc: Service)
    requires proj.Valid() && svc in proj.services
    ensures (exists s :: Reachable(proj, s) && Runs(s, svc.name)) <==> CanStart(proj, svc.name)
  {
    if s :| Reachable(proj, s) && Runs(s, svc.name) {
      StartedCanStart(proj, s, svc);
    }
    if rank :| Ranked(proj, rank, svc.name) {
      var s := StartsAlone(proj, rank, svc);
    }
  }

  /** In a project without circles, that is every service. */
  lemma AcyclicCanStart(proj: Project, rank: map<string, nat>, n: string)
    requires Acyclic(proj, rank)
    ensures CanStart(proj, n)
  {
    forall i, d | 0 <= i < |proj.services| && StartsAfter(proj, n, proj.services[i].name) && Counts(proj.services[i], d)
      ensures RanksBelow(proj, rank, proj.services[i].name, d)
    {
    }
    assert Ranked(proj, rank, n);
  }

  /* ----- Exactly when ----- */

  lemma CanLeaveUnseeded(proj: Project, s: State, svc: Service, m: string)
    requires proj.Valid() && AllInPlace(proj, s, svc.name)
    requires Shares(proj.services, proj.named, svc, m) && !StartsAfter(proj, svc.name, m)
    ensures m in s.pods && m in proj.plans && !Seeded(proj.plans[m], s.pods[m].at.done)
  {
    var i :| 0 <= i < |proj.services| && proj.services[i].name == m;
    IsInPlace(proj, s, svc.name, m);
    SharersSeedFirst(proj.services, proj.named, svc, proj.services[i], proj.plans[m]);
  }

  lemma CanLeaveUnhealthy(proj: Project, s: State, svc: Service, m: string)
    requires proj.Valid() && DependsOnServices(proj, svc) && svc in proj.services && AllInPlace(proj, s, svc.name)
    requires Counts(svc, Dependency(m, Healthy))
    ensures m in s.pods && !s.pods[m].at.healthy && !AllMet(proj, s, svc)
  {
    assert proj.IsService(m);
    IsInPlace(proj, s, svc.name, m);
    assert !Met(s, Dependency(m, Healthy));
  }

  /** Such a service can start early, if it can start. */
  lemma StartsEarly(proj: Project, rank: map<string, nat>, svc: Service) returns (s: State)
    requires proj.Valid() && Ranked(proj, rank, svc.name) && svc in proj.services && CanStartEarly(proj, svc)
    ensures Reachable(proj, s) && StartedEarly(proj, s, svc)
  {
    s := StartsAlone(proj, rank, svc);
    if m :| Shares(proj.services, proj.named, svc, m) && !StartsAfter(proj, svc.name, m) {
      CanLeaveUnseeded(proj, s, svc, m);
    } else {
      var m :| Counts(svc, Dependency(m, Healthy));
      StartsAfterItself(proj, svc.name);
      RankedServices(proj, rank, svc.name, svc);
      CanLeaveUnhealthy(proj, s, svc, m);
    }
  }

  /** Which services can start early, in some run. */
  lemma StartsEarlyExactly(proj: Project, svc: Service)
    requires proj.Valid() && svc in proj.services
    ensures (exists s :: Reachable(proj, s) && StartedEarly(proj, s, svc)) <==>
      CanStart(proj, svc.name) && CanStartEarly(proj, svc)
  {
    if CanStart(proj, svc.name) && CanStartEarly(proj, svc) {
      var rank :| Ranked(proj, rank, svc.name);
      var s := StartsEarly(proj, rank, svc);
    } else {
      forall s | Reachable(proj, s) ensures !StartedEarly(proj, s, svc) {
        if StartedEarly(proj, s, svc) {
          StartedCanStart(proj, s, svc);
          NeverStartsEarly(proj, s, svc);
        }
      }
    }
  }

  /* ----- The same for a project ----- */

  lemma {:induction false} ChainGoesDown(proj: Project, rank: map<string, nat>, root: string, chain: seq<string>)
    requires Ranked(proj, rank, root) && IsChain(proj, chain) && |chain| > 1 && StartsAfter(proj, root, chain[0])
    ensures RankOf(rank, chain[|chain| - 1]) < RankOf(rank, chain[0])
  {
    assert AwaitsStart(proj, chain[0], chain[1]);
    var i :| 0 <= i < |proj.services| && proj.services[i].name == chain[0]
      && Counts(proj.services[i], Dependency(chain[1], Started));
    assert RanksBelow(proj, rank, proj.services[i].name, Dependency(chain[1], Started));
    OneLinkMore(proj, root, chain[0], chain[1]);
    if |chain| > 2 {
      var rest := chain[1..];
      forall k | 0 <= k < |rest| - 1 ensures AwaitsStart(proj, rest[k], rest[k + 1]) {
        assert AwaitsStart(proj, chain[k + 1], chain[k + 2]);
      }
      ChainGoesDown(proj, rank, root, rest);
    }
  }

  lemma StartsAfterGoesDown(proj: Project, rank: map<string, nat>, n: string, m: string)
    requires Ranked(proj, rank, n) && StartsAfter(proj, n, m) && n != m
    ensures RankOf(rank, m) < RankOf(rank, n)
  {
    var chain :| IsChain(proj, chain) && chain[0] == n && chain[|chain| - 1] == m;
    StartsAfterItself(proj, n);
    ChainGoesDown(proj, rank, n, chain);
  }

  lemma StartsAfterThat(proj: Project, n: string, m: string, l: string)
    requires StartsAfter(proj, n, m) && StartsAfter(proj, m, l)
    ensures StartsAfter(proj, n, l)
  {
    var first :| IsChain(proj, first) && first[0] == n && first[|first| - 1] == m;
    var second :| IsChain(proj, second) && second[0] == m && second[|second| - 1] == l;
    var chain := first + second[1..];
    forall k | 0 <= k < |chain| - 1 ensures AwaitsStart(proj, chain[k], chain[k + 1]) {
      if k < |first| - 1 {
        assert AwaitsStart(proj, first[k], first[k + 1]);
      } else {
        assert AwaitsStart(proj, second[k - |first| + 1], second[k - |first| + 2]);
      }
    }
    assert chain[|chain| - 1] == l;
  }

  lemma RankedBelow(proj: Project, rank: map<string, nat>, n: string, m: string)
    requires Ranked(proj, rank, n) && StartsAfter(proj, n, m)
    ensures Ranked(proj, rank, m)
  {
    forall i, d | 0 <= i < |proj.services| && StartsAfter(proj, m, proj.services[i].name) && Counts(proj.services[i], d)
      ensures RanksBelow(proj, rank, proj.services[i].name, d)
    {
      StartsAfterThat(proj, n, m, proj.services[i].name);
    }
  }

  lemma SharesBack(proj: Project, svc: Service, m: string) returns (other: Service)
    requires svc in proj.services && Shares(proj.services, proj.named, svc, m)
    ensures other in proj.services && other.name == m && Shares(proj.services, proj.named, other, svc.name)
  {
    var i, source :| 0 <= i < |proj.services| && proj.services[i].name == m
      && MountsNative(proj.services[i], source) && MountsNative(svc, source) && source !in proj.named;
    other := proj.services[i];
    var j :| 0 <= j < |proj.services| && proj.services[j] == svc;
    assert proj.services[j].name == svc.name && MountsNative(proj.services[j], source);
  }

  ghost predicate SharesSome(proj: Project, svc: Service) {
    exists m :: Shares(proj.services, proj.named, svc, m)
  }

  /** Of two services that share a volume, one does not start after the other. */
  lemma SharingIsEnough(proj: Project, svc: Service) returns (early: Service)
    requires CanStart(proj, svc.name) && svc in proj.services && SharesSome(proj, svc)
    ensures early in proj.services && CanStart(proj, early.name) && CanStartEarly(proj, early)
  {
    var m :| Shares(proj.services, proj.named, svc, m);
    early := svc;
    if StartsAfter(proj, svc.name, m) {
      var rank :| Ranked(proj, rank, svc.name);
      StartsAfterGoesDown(proj, rank, svc.name, m);
      RankedBelow(proj, rank, svc.name, m);
      early := SharesBack(proj, svc, m);
      if StartsAfter(proj, m, svc.name) {
        StartsAfterGoesDown(proj, rank, m, svc.name);
      }
    }
  }

  /** One that starts too early if it starts, or makes another one do so. */
  ghost predicate Endangers(proj: Project, svc: Service) {
    CanStart(proj, svc.name) && (SharesSome(proj, svc) || NeedsHealth(svc))
  }

  /** Some run of a project starts some service early, if and only if one that can
      start shares a native volume or depends on another's health. */
  lemma UnsafeExactly(proj: Project)
    requires proj.Valid()
    ensures (exists s, svc :: Reachable(proj, s) && svc in proj.services && StartedEarly(proj, s, svc)) <==>
      (exists svc :: svc in proj.services && Endangers(proj, svc))
  {
    if svc :| svc in proj.services && Endangers(proj, svc) {
      var early := svc;
      if SharesSome(proj, svc) {
        early := SharingIsEnough(proj, svc);
      }
      StartsEarlyExactly(proj, early);
    } else {
      forall s, svc | Reachable(proj, s) && svc in proj.services ensures !StartedEarly(proj, s, svc) {
        assert !Endangers(proj, svc);
        StartsEarlyExactly(proj, svc);
      }
    }
  }

  /* ----- Two services that share a volume ----- */

  const SHARING := [Mounted(Native, "v")]
  const A := Service("a", SHARING, map[], [])
  const B := Service("b", SHARING, map[], [])

  function SharingPlan(other: string): seq<Container> {
    [CopyVcp, InitializeVolumes(["v"]), AwaitInitialized([other])]
  }

  const PAIR := Project([A, B], map[], map["a" := SharingPlan("b"), "b" := SharingPlan("a")])

  lemma PairIsPlanned(svc: Service, other: Service)
    requires (svc == A && other == B) || (svc == B && other == A)
    ensures Planned(PAIR.services, PAIR.named, svc, SharingPlan(other.name))
    ensures Shares(PAIR.services, PAIR.named, svc, other.name)
  {
    NativeSourcesExactly(SHARING, map[], "v");
    assert SHARING[..|SHARING| - 1] == [];
    assert NativeSources(SHARING, map[]) == ["v"] && BindSources(SHARING, map[]) == [];
    var i := if svc == A then 1 else 0;
    assert PAIR.services[i].name == other.name && MountsNative(PAIR.services[i], "v");
    forall name ensures name in [other.name] <==> Shares(PAIR.services, PAIR.named, svc, name) {
    }
    assert SharingPlan(other.name) == Gates(svc, map[], [other.name], []);
  }

  lemma PairIsValid()
    ensures PAIR.Valid()
  {
    PairIsPlanned(A, B);
    PairIsPlanned(B, A);
    assert PAIR.services[0].name == "a" && PAIR.services[1].name == "b";
  }

  /** In some run, a starts with a volume that b has still to seed. */
  lemma EmptyStatusIsUnsafe() returns (s: State)
    ensures PAIR.Valid() && Shares(PAIR.services, PAIR.named, A, "b")
    ensures Reachable(PAIR, s) && Runs(s, "a")
    ensures "b" in s.pods && !Seeded(PAIR.plans["b"], s.pods["b"].at.done)
  {
    PairIsValid();
    PairIsPlanned(A, B);
    assert PAIR.services[0] == A;
    s := StartsAlone(PAIR, map[], A);
    if StartsAfter(PAIR, "a", "b") {
      StartsAfterGoesDown(PAIR, map[], "a", "b");
    }
    CanLeaveUnseeded(PAIR, s, A, "b");
  }
}
