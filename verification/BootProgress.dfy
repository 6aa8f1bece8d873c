/** Booting never deadlocks. */
module BootProgress {
  import opened Wrappers
  import opened Pods
  import opened Wait
  import opened Boot

  /* ----- How much is left to do ----- */

  /** The checks a wait spec demands, as a set. */
  function Demanded(spec: WaitSpec): set<Check> {
    (set d | d in spec.dependsOn && d.condition.Started? :: IsStarted(d.service)) +
    (set d | d in spec.dependsOn && d.condition.Healthy? :: IsHealthy(d.service)) +
    (set name | name in spec.finishedVolumeInit :: IsInitialized(name)) +
    (if spec.bindVolumes != [] then {IsSynced} else {})
  }

  lemma DemandedExactly(spec: WaitSpec, check: Check)
    ensures check in Demanded(spec) <==> Demands(spec, check)
  {
    match check {
      case IsStarted(name) =>
        if Demands(spec, check) {
          var d := Dependency(name, Started);
          assert d in spec.dependsOn && d.condition.Started? && check == IsStarted(d.service);
        }
      case IsHealthy(name) =>
        if Demands(spec, check) {
          var d := Dependency(name, Healthy);
          assert d in spec.dependsOn && d.condition.Healthy? && check == IsHealthy(d.service);
        }
      case IsInitialized(name) =>
      case IsSynced =>
    }
  }

  lemma {:induction false} SmallerSet<T>(a: set<T>, b: set<T>)
    requires a <= b
    ensures |a| <= |b|
  {
    if a != {} {
      var x :| x in a;
      SmallerSet(a - {x}, b - {x});
    }
  }

  /** How many checks each container makes before it finishes. */
  function Costs(plan: seq<Container>): (costs: seq<nat>)
    ensures |costs| == |plan|
  {
    if plan == [] then [] else Costs(plan[..|plan| - 1]) + [|Demanded(SpecOf(plan[|plan| - 1]))|]
  }

  lemma {:induction false} CostAt(plan: seq<Container>, i: nat)
    requires i < |plan|
    ensures Costs(plan)[i] == |Demanded(SpecOf(plan[i]))|
  {
    if i < |plan| - 1 {
      CostAt(plan[..|plan| - 1], i);
    }
  }

  function Work(costs: seq<nat>, done: nat): nat
    requires done <= |costs|
    decreases |costs| - done
  {
    if done == |costs| then 0 else 1 + costs[done] + Work(costs, done + 1)
  }

  function Flag(b: bool): nat {
    if b then 1 else 0
  }

  predicate Stale(s: State, n: string) {
    n in s.pods && !(n in s.views && s.views[n] == s.pods[n].at)
  }

  /** No more has been found ready than there is to find ready. */
  predicate Bounded(costs: seq<nat>, done: nat, checked: nat) {
    done <= |costs| && (checked == 0 || (done < |costs| && checked <= costs[done]))
  }

  predicate Fits(plan: seq<Container>, pod: Pod) {
    Bounded(Costs(plan), pod.at.done, |pod.checked|)
  }

  lemma OkFits(proj: Project, s: State, n: string)
    requires n in s.pods && PodOk(proj, s, n)
    ensures Fits(proj.plans[n], s.pods[n])
  {
    var plan, pod := proj.plans[n], s.pods[n];
    if check :| check in pod.checked {
      var demanded := Demanded(SpecOf(plan[pod.at.done]));
      forall c | c in pod.checked ensures c in demanded {
        DemandedExactly(SpecOf(plan[pod.at.done]), c);
      }
      SmallerSet(pod.checked, demanded);
      CostAt(plan, pod.at.done);
    }
  }

  /** The steps a pod still has to take itself. */
  function Left(costs: seq<nat>, at: Progress, checked: nat): (left: int)
    requires Bounded(costs, at.done, checked)
    ensures left >= 0
  {
    Work(costs, at.done) - checked + Flag(!at.listed) + Flag(!at.started) + Flag(!at.healthy)
  }

  /** What is left to do for one service: two for each step of its pod, to leave
      room for one delivery after it. */
  ghost function Weight(proj: Project, s: State, n: string): int
    requires n in proj.plans && (n in s.pods ==> Fits(proj.plans[n], s.pods[n]))
  {
    var costs := Costs(proj.plans[n]);
    if n in s.pods then 2 * Left(costs, s.pods[n].at, |s.pods[n].checked|) + Flag(Stale(s, n))
        else 2 * (Work(costs, 0) + 4)
  }

  ghost predicate AllFit(proj: Project, s: State) {
    forall i | 0 <= i < |proj.services| :: FitsAt(proj, s, proj.services[i].name)
  }

  ghost predicate FitsAt(proj: Project, s: State, n: string) {
    n in proj.plans && (n in s.pods ==> Fits(proj.plans[n], s.pods[n]))
  }

  lemma InvFits(proj: Project, s: State)
    requires proj.Valid() && Inv(proj, s)
    ensures AllFit(proj, s)
  {
    forall i | 0 <= i < |proj.services| ensures FitsAt(proj, s, proj.services[i].name) {
      if proj.services[i].name in s.pods {
        OkFits(proj, s, proj.services[i].name);
      }
    }
  }

  function Sum(weights: seq<int>): int {
    if weights == [] then 0 else Sum(weights[..|weights| - 1]) + weights[|weights| - 1]
  }

  lemma {:induction false} SumIsNat(weights: seq<int>)
    requires forall i | 0 <= i < |weights| :: weights[i] >= 0
    ensures Sum(weights) >= 0
  {
    if weights != [] {
      SumIsNat(weights[..|weights| - 1]);
    }
  }

  lemma {:induction false} SmallerSum(weights: seq<int>, weights': seq<int>, j: nat)
    requires |weights| == |weights'|
    requires forall i | 0 <= i < |weights| :: weights'[i] <= weights[i] - Flag(i == j)
    ensures Sum(weights') <= Sum(weights) - Flag(j < |weights|)
  {
    if weights != [] {
      SmallerSum(weights[..|weights| - 1], weights'[..|weights| - 1], j);
    }
  }

  ghost function Weights(proj: Project, s: State): seq<int>
    requires AllFit(proj, s)
  {
    seq(|proj.services|, i requires 0 <= i < |proj.services| =>
      assert FitsAt(proj, s, proj.services[i].name);
      Weight(proj, s, proj.services[i].name))
  }

  ghost function Outstanding(proj: Project, s: State): int
    requires AllFit(proj, s)
  {
    Sum(Weights(proj, s))
  }

  lemma OutstandingIsNat(proj: Project, s: State)
    requires AllFit(proj, s)
    ensures Outstanding(proj, s) >= 0
  {
    forall i | 0 <= i < |proj.services| ensures Weights(proj, s)[i] >= 0 {
      var n := proj.services[i].name;
      assert FitsAt(proj, s, n);
    }
    SumIsNat(Weights(proj, s));
  }

  /* ----- Progress ----- */

  /** A step that gets something done: any but starting a CheckReady call again,
      and repeating what was done before. */
  ghost predicate Progresses(proj: Project, s: State, a: Action) {
    Enabled(proj, s, a) &&
    match a
    case Create(_) => true
    case Act(n, Observe(check)) => check !in s.pods[n].checked
    case Act(_, step) => !step.Retry? && !step.End?
    case Deliver(n) => Stale(s, n)
    case FinishSync => false
  }

  lemma AllChecked(plan: seq<Container>, pod: Pod)
    requires AtWaiter(plan, pod.at.done)
    requires forall check :: Demands(SpecOf(plan[pod.at.done]), check) ==> check in pod.checked
    ensures Costs(plan)[pod.at.done] <= |pod.checked|
  {
    var spec := SpecOf(plan[pod.at.done]);
    forall check | check in Demanded(spec) ensures check in pod.checked {
      DemandedExactly(spec, check);
    }
    SmallerSet(Demanded(spec), pod.checked);
    CostAt(plan, pod.at.done);
  }

  /** Moving past a container, with nothing found ready for the next one yet. */
  lemma PassDoesWork(costs: seq<nat>, at: Progress, checked: nat)
    requires Bounded(costs, at.done, checked) && at.done < |costs| && checked >= costs[at.done]
    ensures Left(costs, at.(done := at.done + 1), 0) < Left(costs, at, checked)
  {
  }

  lemma ObserveDoesWork(costs: seq<nat>, at: Progress, checked: nat)
    requires Bounded(costs, at.done, checked) && Bounded(costs, at.done, checked + 1)
    ensures Left(costs, at, checked + 1) < Left(costs, at, checked)
  {
  }

  predicate LessLeft(plan: seq<Container>, pod: Pod, pod': Pod)
    requires Fits(plan, pod) && Fits(plan, pod')
  {
    Left(Costs(plan), pod'.at, |pod'.checked|) < Left(Costs(plan), pod.at, |pod.checked|)
  }

  lemma RunInitDoesWork(plan: seq<Container>, pod: Pod, pod': Pod)
    requires Fits(plan, pod) && Fits(plan, pod') && pod.at.done < |plan|
    requires pod' == pod.(at := pod.at.(done := pod.at.done + 1))
    ensures LessLeft(plan, pod, pod')
  {
  }

  /** Listing its containers, starting and becoming healthy are done once. */
  lemma FlagDoesWork(plan: seq<Container>, pod: Pod, pod': Pod)
    requires Fits(plan, pod) && Fits(plan, pod') && pod'.checked == pod.checked
    requires
      || (!pod.at.listed && pod'.at == pod.at.(listed := true))
      || (!pod.at.started && pod'.at == pod.at.(started := true))
      || (!pod.at.healthy && pod'.at == pod.at.(healthy := true))
    ensures LessLeft(plan, pod, pod')
  {
  }

  lemma FinishDoesWork(plan: seq<Container>, pod: Pod, pod': Pod)
    requires Fits(plan, pod) && Fits(plan, pod') && pod.at.done < |plan|
    requires Costs(plan)[pod.at.done] <= |pod.checked|
    requires pod'.at == pod.at.(done := pod.at.done + 1) && pod'.checked == {}
    ensures LessLeft(plan, pod, pod')
  {
    PassDoesWork(Costs(plan), pod.at, |pod.checked|);
  }

  lemma CheckDoesWork(plan: seq<Container>, pod: Pod, pod': Pod, check: Check)
    requires Fits(plan, pod) && Fits(plan, pod') && check !in pod.checked
    requires pod'.at == pod.at && pod'.checked == pod.checked + {check}
    ensures LessLeft(plan, pod, pod')
  {
    OneMoreChecked(pod.checked, check);
    ObserveDoesWork(Costs(plan), pod.at, |pod.checked|);
  }

  lemma OneMoreChecked(checked: set<Check>, check: Check)
    requires check !in checked
    ensures |checked + {check}| == |checked| + 1
  {
  }

  lemma StepDoesWork(proj: Project, s: State, n: string, step: Step)
    requires CanStep(proj, s, n, step) && Progresses(proj, s, Act(n, step))
    requires Fits(proj.plans[n], s.pods[n]) && Fits(proj.plans[n], StepPod(s, s.pods[n], step))
    ensures LessLeft(proj.plans[n], s.pods[n], StepPod(s, s.pods[n], step))
  {
    var plan, pod, pod' := proj.plans[n], s.pods[n], StepPod(s, s.pods[n], step);
    if step.Finish? {
      AllChecked(plan, pod);
      FinishDoesWork(plan, pod, pod');
    } else if step.Observe? {
      CheckDoesWork(plan, pod, pod', step.check);
    } else if step.RunInit? {
      RunInitDoesWork(plan, pod, pod');
    } else {
      FlagDoesWork(plan, pod, pod');
    }
  }

  /** Only the service a step is about has less left to do. */
  lemma WeightStep(proj: Project, s: State, a: Action, n: string)
    requires Progresses(proj, s, a) && FitsAt(proj, s, n) && FitsAt(proj, Exec(proj, s, a), n)
    ensures Weight(proj, Exec(proj, s, a), n) <= Weight(proj, s, n) - Flag(a.n == n)
  {
    if a.Act? && a.n == n {
      StepDoesWork(proj, s, n, a.step);
    }
  }

  lemma OutstandingStep(proj: Project, s: State, a: Action)
    requires proj.Valid() && Inv(proj, s) && Progresses(proj, s, a) && AllFit(proj, s) && AllFit(proj, Exec(proj, s, a))
    ensures Outstanding(proj, Exec(proj, s, a)) < Outstanding(proj, s)
  {
    var s' := Exec(proj, s, a);
    var j := SubjectOf(proj, s, a);
    forall i | 0 <= i < |proj.services| ensures Weights(proj, s')[i] <= Weights(proj, s)[i] - Flag(i == j) {
      assert FitsAt(proj, s, proj.services[i].name) && FitsAt(proj, s', proj.services[i].name);
      WeightStep(proj, s, a, proj.services[i].name);
    }
    SmallerSum(Weights(proj, s), Weights(proj, s'), j);
  }

  lemma SubjectOf(proj: Project, s: State, a: Action) returns (j: nat)
    requires proj.Valid() && Inv(proj, s) && Progresses(proj, s, a)
    ensures j < |proj.services| && proj.services[j].name == a.n
  {
    assert a.n in s.pods ==> PodOk(proj, s, a.n);
    assert proj.IsService(a.n);
    j :| 0 <= j < |proj.services| && proj.services[j].name == a.n;
  }

  /* ----- There is always a step to take ----- */

  /** The dependencies that count, those declared and the links beside them, name
      services and do not run in circles. */
  ghost predicate Acyclic(proj: Project, rank: map<string, nat>) {
    forall i, d | 0 <= i < |proj.services| && Counts(proj.services[i], d) ::
      proj.IsService(d.service) && RankOf(rank, d.service) < RankOf(rank, proj.services[i].name)
  }

  function RankOf(rank: map<string, nat>, n: string): nat {
    if n in rank then rank[n] else 0
  }

  predicate Counts(svc: Service, d: Dependency) {
    svc.dependsOn != map[] && !d.condition.Unknown? && DependsOn(svc.dependsOn, svc.links, d)
  }

  lemma DemandsKnown(proj: Project, svc: Service, plan: seq<Container>, k: nat, check: Check)
    requires Planned(proj.services, proj.named, svc, plan) && k < |plan| && Demands(SpecOf(plan[k]), check)
    ensures check.IsInitialized? ==> Shares(proj.services, proj.named, svc, check.service)
    ensures check.IsStarted? ==> Counts(svc, Dependency(check.service, Started))
    ensures check.IsHealthy? ==> Counts(svc, Dependency(check.service, Healthy))
  {
    var sharers, deps :| (forall name :: name in sharers <==> Shares(proj.services, proj.named, svc, name))
      && (svc.dependsOn != map[] ==> Marshalled(svc.dependsOn, svc.links, deps))
      && plan == Gates(svc, proj.named, sharers, deps);
    GatesHold(svc, proj.named, sharers, deps, k);
  }

  lemma GatesHold(svc: Service, named: map<string, string>, sharers: seq<string>, deps: seq<Dependency>, k: nat)
    requires k < |Gates(svc, named, sharers, deps)|
    ensures var c := Gates(svc, named, sharers, deps)[k];
      && (c.AwaitInitialized? ==> c.services == sharers)
      && (c.AwaitDependsOn? ==> svc.dependsOn != map[] && c.deps == deps)
  {
    var seeding := SeedGates(NativeSources(svc.volumes, named), sharers);
    var depending := DependencyGates(svc, deps);
    if k < |seeding| {
      assert Gates(svc, named, sharers, deps)[k] == seeding[k];
    } else if k < |seeding| + |depending| {
      assert Gates(svc, named, sharers, deps)[k] == depending[k - |seeding|];
    }
  }

  /** A pod that is there and seen as it is fails a check only for a reason. */
  lemma WhyNotSeen(proj: Project, s: State, check: Check)
    requires !check.IsSynced? && !Seen(proj, s, check)
    requires check.service in s.pods && check.service in proj.plans && !Stale(s, check.service)
    requires SeedsFirst(proj.plans[check.service])
    ensures var at := s.pods[check.service].at;
      match check
      case IsStarted(_) => !at.started || at.ended
      case IsHealthy(_) => !at.healthy || at.ended
      case IsInitialized(m) => !Seeded(proj.plans[m], at.done)
      case IsSynced => true
  {
    ConditionsExactly(proj.plans[check.service], s.views[check.service]);
  }

  /** A seeder runs without waiting for anything. */
  lemma SeedingIsFree(proj: Project, s: State, m: string)
    requires m in s.pods && m in proj.plans && SeedsFirst(proj.plans[m]) && !Seeded(proj.plans[m], s.pods[m].at.done)
    ensures Progresses(proj, s, Act(m, RunInit))
  {
    var plan := proj.plans[m];
    var i :| 0 <= i < |plan| && plan[i].InitializeVolumes? && i >= s.pods[m].at.done;
    assert s.pods[m].at.done == 0 || s.pods[m].at.done == 1;
  }

  /** What a pod can do next by itself, or else a check that keeps it. */
  lemma OwnStep(proj: Project, s: State, n: string) returns (a: Option<Action>, check: Check)
    requires n in proj.plans && (n in s.pods ==> PodOk(proj, s, n) && !s.pods[n].at.started)
    ensures a.Some? ==> Progresses(proj, s, a.value)
    ensures a.None? ==> n in s.pods && AtWaiter(proj.plans[n], s.pods[n].at.done) && !Seen(proj, s, check)
    ensures a.None? ==> Demands(SpecOf(proj.plans[n][s.pods[n].at.done]), check)
  {
    check := IsSynced;
    if n !in s.pods {
      return Some(Create(n)), check;
    }
    var plan, pod := proj.plans[n], s.pods[n];
    if pod.at.done == |plan| {
      return Some(Act(n, if pod.at.listed then Start else List)), check;
    } else if !IsWaiter(plan[pod.at.done]) {
      return Some(Act(n, RunInit)), check;
    } else if c :| Demands(SpecOf(plan[pod.at.done]), c) && c !in pod.checked {
      return if Seen(proj, s, c) then Some(Act(n, Observe(c))) else None, c;
    } else {
      return Some(Act(n, Finish)), check;
    }
  }

  /** The pod has not ended. */
  predicate Keeps(s: State, m: string) {
    m in s.pods ==> !s.pods[m].at.ended
  }

  /** No pod that another one depends on has ended. */
  ghost predicate DependenciesKeep(proj: Project, s: State) {
    forall i, d | 0 <= i < |proj.services| && Counts(proj.services[i], d) :: Keeps(s, d.service)
  }

  /** A check that fails points at something to do first, if only at a service
      that has to start. */
  lemma Unblock(proj: Project, s: State, check: Check) returns (a: Option<Action>)
    requires !check.IsSynced? && !Seen(proj, s, check) && check.service in proj.plans
    requires SeedsFirst(proj.plans[check.service])
    requires check.service in s.pods ==> PodOk(proj, s, check.service)
    requires !check.IsInitialized? ==> Keeps(s, check.service)
    ensures a.Some? ==> Progresses(proj, s, a.value)
    ensures a.None? ==> !check.IsInitialized? && check.service in s.pods && !s.pods[check.service].at.started
  {
    var m := check.service;
    if m !in s.pods {
      return Some(Create(m));
    } else if Stale(s, m) {
      return Some(Deliver(m));
    }
    WhyNotSeen(proj, s, check);
    if check.IsInitialized? {
      SeedingIsFree(proj, s, m);
      return Some(Act(m, RunInit));
    } else if s.pods[m].at.started {
      return Some(Act(m, BecomeHealthy));
    } else {
      return None;
    }
  }

  lemma KeptBy(proj: Project, s: State, svc: Service, check: Check)
    requires proj.Valid() && svc in proj.services && svc.name in proj.plans && svc.name in s.pods
    requires AtWaiter(proj.plans[svc.name], s.pods[svc.name].at.done)
    requires Demands(SpecOf(proj.plans[svc.name][s.pods[svc.name].at.done]), check)
    ensures check.IsInitialized? ==> proj.IsService(check.service)
    ensures check.IsStarted? ==> Counts(svc, Dependency(check.service, Started))
    ensures check.IsHealthy? ==> Counts(svc, Dependency(check.service, Healthy))
  {
    DemandsKnown(proj, svc, proj.plans[svc.name], s.pods[svc.name].at.done, check);
  }

  lemma ServiceHasPlan(proj: Project, n: string)
    requires proj.Valid() && proj.IsService(n)
    ensures n in proj.plans && SeedsFirst(proj.plans[n])
  {
    ValidSeedsFirst(proj);
  }

  /** As long as some service has not started, something can be done. */
  lemma {:induction false} NextStep(proj: Project, s: State, rank: map<string, nat>, n: string) returns (a: Action)
    requires proj.Valid() && Inv(proj, s) && s.hasSynced && Acyclic(proj, rank) && DependenciesKeep(proj, s)
    requires proj.IsService(n) && !(n in s.pods && s.pods[n].at.started)
    ensures Progresses(proj, s, a)
    decreases RankOf(rank, n)
  {
    var i :| 0 <= i < |proj.services| && proj.services[i].name == n;
    var svc := proj.services[i];
    ServiceHasPlan(proj, n);
    var own, check := OwnStep(proj, s, n);
    if own.Some? {
      return own.value;
    }
    KeptBy(proj, s, svc, check);
    var m := check.service;
    ServiceHasPlan(proj, m);
    var other := Unblock(proj, s, check);
    if other.Some? {
      return other.value;
    }
    a := NextStep(proj, s, rank, m);
  }

  /* ----- Booting completes ----- */

  /** Steps that each get something done, for as long as there is one. */
  ghost predicate Schedule(proj: Project, s: State, acts: seq<Action>)
    decreases |acts|
  {
    if acts == [] then forall a :: !Progresses(proj, s, a)
    else Progresses(proj, s, acts[0]) && Schedule(proj, Exec(proj, s, acts[0]), acts[1..])
  }

  ghost function After(proj: Project, s: State, acts: seq<Action>): State
    decreases |acts|
  {
    if acts == [] || !Enabled(proj, s, acts[0]) then s else After(proj, Exec(proj, s, acts[0]), acts[1..])
  }

  predicate AllStarted(proj: Project, s: State) {
    forall i | 0 <= i < |proj.services| :: proj.services[i].name in s.pods && s.pods[proj.services[i].name].at.started
  }

  lemma ProgressStep(proj: Project, s: State, a: Action)
    requires proj.Valid() && Inv(proj, s) && Progresses(proj, s, a)
    ensures Inv(proj, Exec(proj, s, a)) && AllFit(proj, s) && AllFit(proj, Exec(proj, s, a))
    ensures Outstanding(proj, Exec(proj, s, a)) < Outstanding(proj, s)
  {
    ValidSeedsFirst(proj);
    StepKeepsInv(proj, s, a);
    InvFits(proj, s);
    InvFits(proj, Exec(proj, s, a));
    OutstandingStep(proj, s, a);
  }

  /** However the steps are chosen, after at most `Outstanding` of them every
      service has started. */
  lemma {:induction false} BootCompletes(proj: Project, s: State, rank: map<string, nat>, acts: seq<Action>)
    requires proj.Valid() && Inv(proj, s) && s.hasSynced && Acyclic(proj, rank) && DependenciesKeep(proj, s)
    requires Schedule(proj, s, acts)
    ensures AllFit(proj, s) && |acts| <= Outstanding(proj, s)
    ensures AllStarted(proj, After(proj, s, acts))
    decreases |acts|
  {
    InvFits(proj, s);
    if acts == [] {
      OutstandingIsNat(proj, s);
      forall i | 0 <= i < |proj.services|
        ensures proj.services[i].name in s.pods && s.pods[proj.services[i].name].at.started
      {
        var n := proj.services[i].name;
        if !(n in s.pods && s.pods[n].at.started) {
          var a := NextStep(proj, s, rank, n);
        }
      }
    } else {
      ProgressStep(proj, s, acts[0]);
      assert forall m :: Keeps(s, m) ==> Keeps(Exec(proj, s, acts[0]), m);
      BootCompletes(proj, Exec(proj, s, acts[0]), rank, acts[1..]);
    }
  }

  /** There is such a choice of steps from everywhere a run can get to. */
  lemma {:induction false} SomeSchedule(proj: Project, s: State) returns (acts: seq<Action>)
    requires proj.Valid() && Inv(proj, s) && AllFit(proj, s)
    ensures Schedule(proj, s, acts)
    decreases Outstanding(proj, s)
  {
    OutstandingIsNat(proj, s);
    if a :| Progresses(proj, s, a) {
      ProgressStep(proj, s, a);
      var s' := Exec(proj, s, a);
      OutstandingIsNat(proj, s');
      var rest := SomeSchedule(proj, s');
      acts := [a] + rest;
      assert acts[1..] == rest;
    } else {
      acts := [];
    }
  }

  /** From every reachable state in which the sync has completed and nothing that
      is depended on has ended. */
  lemma EveryRunCanComplete(proj: Project, rank: map<string, nat>, s: State) returns (acts: seq<Action>)
    requires proj.Valid() && Acyclic(proj, rank) && Reachable(proj, s) && s.hasSynced && DependenciesKeep(proj, s)
    ensures AllStarted(proj, After(proj, s, acts))
  {
    ReachableOk(proj, s);
    InvFits(proj, s);
    acts := SomeSchedule(proj, s);
    BootCompletes(proj, s, rank, acts);
  }
}
