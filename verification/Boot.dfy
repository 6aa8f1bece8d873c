/** How a project's pods boot: init containers that run one after the other, a
    node controller that sees the pods through an informer, later than they are,
    and the checks it makes before it lets an init container go. */
module Boot {
  import opened Pods
  import opened Wait

  datatype Project = Project(services: seq<Service>, named: map<string, string>, plans: map<string, seq<Container>>) {
    ghost predicate Valid() {
      && (forall i, j | 0 <= i < |services| && 0 <= j < |services| :: services[i].name == services[j].name ==> i == j)
      && (forall i | 0 <= i < |services| :: services[i].name in plans)
      && (forall i {:trigger Planned(services, named, services[i], plans[services[i].name])} | 0 <= i < |services| ::
           Planned(services, named, services[i], plans[services[i].name]))
      && (forall name {:trigger IsService(name)} | name in plans :: IsService(name))
    }

    predicate IsService(name: string) {
      exists i | 0 <= i < |services| :: services[i].name == name
    }
  }

  predicate IsWaiter(c: Container) {
    !c.CopyVcp? && !c.InitializeVolumes?
  }

  function SpecOf(c: Container): WaitSpec {
    match c
    case AwaitInitialized(services) => WaitSpec([], services, [])
    case AwaitDependsOn(deps) => WaitSpec(deps, [], [])
    case AwaitSync(bindVolumes) => WaitSpec([], [], bindVolumes)
    case _ => WaitSpec([], [], [])
  }

  function ContainerName(c: Container): string {
    match c
    case CopyVcp => COPY_VCP
    case InitializeVolumes(_) => VCP
    case AwaitInitialized(_) => WAIT_INITIALIZED_VOLUMES
    case AwaitDependsOn(_) => WAIT_DEPENDS_ON
    case AwaitSync(_) => WAIT_SYNC
  }

  /** How far a pod is. `listed` says that its status lists its containers, and
      `ended` that its runtime container has started and exited for good. */
  datatype Progress = Progress(done: nat, listed: bool, started: bool, healthy: bool, ended: bool) {
    predicate NoLaterThan(p: Progress) {
      && done <= p.done && (listed ==> p.listed) && (started ==> p.started) && (healthy ==> p.healthy)
      && (ended ==> p.ended)
    }
  }

  /** `checked` is what the CheckReady call under way has found ready; `blind`
      what was ever found ready in a status that listed nothing. */
  datatype Pod = Pod(at: Progress, checked: set<Check>, blind: set<Check>)

  datatype State = State(pods: map<string, Pod>, views: map<string, Progress>, hasSynced: bool)

  const START := State(map[], map[], false)

  function StatusOf(plan: seq<Container>, p: Progress): PodStatus {
    PodStatus(
      if p.ended then Ended else if p.started then Running else Pending,
      if p.listed then seq(|plan|, i requires 0 <= i < |plan| => InitStatus(ContainerName(plan[i]), i < p.done))
             else [],
      if p.listed then [p.healthy && !p.ended] else [])
  }

  datatype Step =
    // the kubelet
    | List
    | RunInit
    | Start
    | BecomeHealthy
    | End
    // the waiting init container and the node controller
    | Observe(check: Check)
    | Retry
    | Finish

  datatype Action = Create(n: string) | Act(n: string, step: Step) | Deliver(n: string) | FinishSync

  /** The node controller finds the check satisfied in what it sees. */
  predicate Seen(proj: Project, s: State, check: Check) {
    if check.IsSynced? then s.hasSynced
    else check.service in s.views && check.service in proj.plans
         && Satisfies(StatusOf(proj.plans[check.service], s.views[check.service]), check)
  }

  /** ... which may be in a status that lists no containers. */
  predicate Blind(s: State, check: Check) {
    !check.IsSynced? && !check.IsStarted? && check.service in s.views && !s.views[check.service].listed
  }

  predicate AtWaiter(plan: seq<Container>, done: nat) {
    done < |plan| && IsWaiter(plan[done])
  }

  ghost predicate CanStep(proj: Project, s: State, n: string, step: Step) {
    n in s.pods && n in proj.plans &&
    var plan, pod := proj.plans[n], s.pods[n];
    match step
    case List => !pod.at.listed
    case RunInit => pod.at.done < |plan| && !IsWaiter(plan[pod.at.done])
    // a status that says that the pod runs lists its containers
    case Start => pod.at.done == |plan| && !pod.at.started && pod.at.listed
    case BecomeHealthy => pod.at.started && !pod.at.healthy && !pod.at.ended
    case End => pod.at.started && !pod.at.ended
    case Observe(check) => AtWaiter(plan, pod.at.done) && Demands(SpecOf(plan[pod.at.done]), check)
        && Seen(proj, s, check)
    case Retry => AtWaiter(plan, pod.at.done)
    case Finish => AtWaiter(plan, pod.at.done) && forall check :: Demands(SpecOf(plan[pod.at.done]), check) ==>
        check in pod.checked
  }

  function StepPod(s: State, pod: Pod, step: Step): Pod {
    match step
    case List => pod.(at := pod.at.(listed := true))
    case RunInit => pod.(at := pod.at.(done := pod.at.done + 1))
    case Start => pod.(at := pod.at.(started := true))
    case BecomeHealthy => pod.(at := pod.at.(healthy := true))
    case End => pod.(at := pod.at.(ended := true))
    case Observe(check) =>
      pod.(checked := pod.checked + {check}, blind := if Blind(s, check) then pod.blind + {check} else pod.blind)
    // a CheckReady call that failed is made again from the beginning
    case Retry => pod.(checked := {})
    case Finish => pod.(at := pod.at.(done := pod.at.done + 1), checked := {})
  }

  ghost predicate Enabled(proj: Project, s: State, a: Action) {
    match a
    case Create(n) => n in proj.plans && n !in s.pods
    case Act(n, step) => CanStep(proj, s, n, step)
    case Deliver(n) => n in s.pods
    case FinishSync => true
  }

  ghost function Exec(proj: Project, s: State, a: Action): State
    requires Enabled(proj, s, a)
  {
    match a
    case Create(n) => s.(pods := s.pods[n := Pod(Progress(0, false, false, false, false), {}, {})])
    case Act(n, step) => s.(pods := s.pods[n := StepPod(s, s.pods[n], step)])
    case Deliver(n) => s.(views := s.views[n := s.pods[n].at])
    case FinishSync => s.(hasSynced := true)
  }

  /* ----- What every step keeps ----- */

  predicate Seeded(plan: seq<Container>, done: nat) {
    forall i | 0 <= i < |plan| :: plan[i].InitializeVolumes? ==> i < done
  }

  /** What a check is about is really so. */
  predicate Holds(proj: Project, s: State, check: Check) {
    if check.IsSynced? then s.hasSynced
    else check.service in s.pods && check.service in proj.plans &&
         var at := s.pods[check.service].at;
         match check
         case IsStarted(_) => at.started
         case IsHealthy(_) => at.healthy
         case IsInitialized(m) => Seeded(proj.plans[m], at.done)
         case _ => true
  }

  ghost predicate PodOk(proj: Project, s: State, n: string)
    requires n in s.pods
  {
    n in proj.plans &&
    var plan, pod := proj.plans[n], s.pods[n];
    && pod.at.done <= |plan|
    && (pod.at.started ==> pod.at.done == |plan|)
    && (pod.at.healthy || pod.at.ended ==> pod.at.started)
    && (forall check | check in pod.checked ::
         AtWaiter(plan, pod.at.done) && Demands(SpecOf(plan[pod.at.done]), check) && Justified(proj, s, pod, check))
    && (forall i | 0 <= i < pod.at.done :: Passed(proj, s, pod, plan[i]))
  }

  predicate Justified(proj: Project, s: State, pod: Pod, check: Check) {
    Holds(proj, s, check) || check in pod.blind
  }

  ghost predicate Passed(proj: Project, s: State, pod: Pod, c: Container) {
    forall check | Demands(SpecOf(c), check) :: Justified(proj, s, pod, check)
  }

  ghost predicate ViewsOk(s: State) {
    forall m | m in s.views :: m in s.pods && s.views[m].NoLaterThan(s.pods[m].at)
  }

  ghost predicate Inv(proj: Project, s: State) {
    ViewsOk(s) && forall n | n in s.pods :: PodOk(proj, s, n)
  }

  /** Nothing that was so stops being so. */
  ghost predicate Forward(s: State, s': State) {
    && (forall n | n in s.pods :: n in s'.pods && s.pods[n].at.NoLaterThan(s'.pods[n].at))
    && (s.hasSynced ==> s'.hasSynced)
  }

  lemma HoldsForward(proj: Project, s: State, s': State, check: Check)
    requires Forward(s, s') && Holds(proj, s, check)
    ensures Holds(proj, s', check)
  {
  }

  lemma StepGoesForward(proj: Project, s: State, a: Action)
    requires Enabled(proj, s, a)
    ensures Forward(s, Exec(proj, s, a))
  {
  }

  /** A pod that does not move stays in order while the others do. */
  lemma PodStaysOk(proj: Project, s: State, s': State, n: string)
    requires n in s.pods && PodOk(proj, s, n) && Forward(s, s') && n in s'.pods && s'.pods[n] == s.pods[n]
    ensures PodOk(proj, s', n)
  {
    var plan, pod := proj.plans[n], s.pods[n];
    forall check | check in pod.checked ensures Justified(proj, s', pod, check) {
      if Holds(proj, s, check) { HoldsForward(proj, s, s', check); }
    }
    forall i | 0 <= i < pod.at.done ensures Passed(proj, s', pod, plan[i]) {
      PassedForward(proj, s, s', pod, pod, plan[i]);
    }
  }

  lemma PassedForward(proj: Project, s: State, s': State, pod: Pod, pod': Pod, c: Container)
    requires Passed(proj, s, pod, c) && Forward(s, s') && pod.blind <= pod'.blind
    ensures Passed(proj, s', pod', c)
  {
    forall check | Demands(SpecOf(c), check) ensures Justified(proj, s', pod', check) {
      assert Justified(proj, s, pod, check);
      if Holds(proj, s, check) { HoldsForward(proj, s, s', check); }
    }
  }

  /** A plan has one seeder at most, right after the copying of its tools. */
  predicate SeedsFirst(plan: seq<Container>) {
    forall i | 0 <= i < |plan| :: plan[i].InitializeVolumes? ==> i == 1 && plan[0].CopyVcp?
  }

  ghost predicate AllSeedFirst(proj: Project) {
    forall n | n in proj.plans :: SeedsFirst(proj.plans[n])
  }

  lemma GatesSeedFirst(services: seq<Service>, named: map<string, string>, svc: Service, plan: seq<Container>)
    requires Planned(services, named, svc, plan)
    ensures SeedsFirst(plan)
  {
    var sharers, deps :| plan == Gates(svc, named, sharers, deps);
  }

  lemma ValidSeedsFirst(proj: Project)
    requires proj.Valid()
    ensures AllSeedFirst(proj)
  {
    forall n | n in proj.plans ensures SeedsFirst(proj.plans[n]) {
      assert proj.IsService(n);
      var i :| 0 <= i < |proj.services| && proj.services[i].name == n;
      GatesSeedFirst(proj.services, proj.named, proj.services[i], proj.plans[n]);
    }
  }

  lemma SeederSeen(plan: seq<Container>, view: Progress)
    requires SeedsFirst(plan) && view.listed && FinishedVolumeInit(StatusOf(plan, view))
    ensures Seeded(plan, view.done)
  {
    var statuses := StatusOf(plan, view).initStatuses;
    assert forall i | 0 <= i < |plan| :: statuses[i] == InitStatus(ContainerName(plan[i]), i < view.done);
    SeederDoneExactly(statuses);
    forall i | 0 <= i < |plan| && plan[i].InitializeVolumes? ensures i < view.done {
      assert statuses[i].completed;
    }
  }

  lemma HealthSeen(plan: seq<Container>, view: Progress)
    requires view.listed && PodHealthy(StatusOf(plan, view))
    ensures view.healthy && !view.ended
  {
    assert StatusOf(plan, view).ready[0];
  }

  /** What is seen in a status that lists the containers is so. */
  lemma SeenHolds(proj: Project, s: State, check: Check)
    requires AllSeedFirst(proj) && ViewsOk(s) && Seen(proj, s, check) && !Blind(s, check)
    ensures Holds(proj, s, check)
  {
    if check.IsInitialized? {
      SeederSeen(proj.plans[check.service], s.views[check.service]);
    }
    if check.IsHealthy? {
      HealthSeen(proj.plans[check.service], s.views[check.service]);
    }
  }

  lemma CheckedStaysJustified(proj: Project, s: State, n: string, step: Step, check: Check)
    requires AllSeedFirst(proj) && ViewsOk(s) && CanStep(proj, s, n, step) && PodOk(proj, s, n)
    requires check in StepPod(s, s.pods[n], step).checked
    ensures Justified(proj, Exec(proj, s, Act(n, step)), StepPod(s, s.pods[n], step), check)
  {
    var s' := Exec(proj, s, Act(n, step));
    StepGoesForward(proj, s, Act(n, step));
    if check !in s.pods[n].checked && !Blind(s, check) {
      SeenHolds(proj, s, check);
    }
    if Holds(proj, s, check) {
      HoldsForward(proj, s, s', check);
    }
  }

  lemma PassedStaysPassed(proj: Project, s: State, n: string, step: Step, i: nat)
    requires CanStep(proj, s, n, step) && PodOk(proj, s, n)
    requires i < StepPod(s, s.pods[n], step).at.done <= |proj.plans[n]|
    ensures Passed(proj, Exec(proj, s, Act(n, step)), StepPod(s, s.pods[n], step), proj.plans[n][i])
  {
    var c := proj.plans[n][i];
    StepGoesForward(proj, s, Act(n, step));
    if i < s.pods[n].at.done || step.Finish? {
      assert Passed(proj, s, s.pods[n], c);
      PassedForward(proj, s, Exec(proj, s, Act(n, step)), s.pods[n], StepPod(s, s.pods[n], step), c);
    }
  }

  lemma ActKeepsPodOk(proj: Project, s: State, n: string, step: Step)
    requires AllSeedFirst(proj) && ViewsOk(s) && CanStep(proj, s, n, step) && PodOk(proj, s, n)
    ensures PodOk(proj, Exec(proj, s, Act(n, step)), n)
  {
    var s' := Exec(proj, s, Act(n, step));
    var plan, pod' := proj.plans[n], s'.pods[n];
    forall check | check in pod'.checked ensures Justified(proj, s', pod', check) {
      CheckedStaysJustified(proj, s, n, step, check);
    }
    forall i | 0 <= i < pod'.at.done ensures Passed(proj, s', pod', plan[i]) {
      PassedStaysPassed(proj, s, n, step, i);
    }
  }

  lemma StepKeepsInv(proj: Project, s: State, a: Action)
    requires AllSeedFirst(proj) && Inv(proj, s) && Enabled(proj, s, a)
    ensures Inv(proj, Exec(proj, s, a))
  {
    var s' := Exec(proj, s, a);
    StepGoesForward(proj, s, a);
    forall n | n in s'.pods ensures PodOk(proj, s', n) {
      if a.Act? && a.n == n {
        ActKeepsPodOk(proj, s, n, a.step);
      } else if n in s.pods {
        PodStaysOk(proj, s, s', n);
      }
    }
  }

  /* ----- Safety over whole runs ----- */

  /** The states that a list of actions leads through, from the start. */
  ghost predicate IsRun(proj: Project, states: seq<State>, acts: seq<Action>) {
    && |states| == |acts| + 1 && states[0] == START
    && forall i {:trigger acts[i]} | 0 <= i < |acts| ::
         Enabled(proj, states[i], acts[i]) && states[i + 1] == Exec(proj, states[i], acts[i])
  }

  ghost predicate Reachable(proj: Project, s: State) {
    exists states, acts :: IsRun(proj, states, acts) && s == states[|acts|]
  }

  lemma {:induction false} RunKeepsInv(proj: Project, states: seq<State>, acts: seq<Action>, k: nat)
    requires AllSeedFirst(proj) && IsRun(proj, states, acts) && k <= |acts|
    ensures Inv(proj, states[k])
  {
    if k > 0 {
      RunKeepsInv(proj, states, acts, k - 1);
      var a := acts[k - 1];
      StepKeepsInv(proj, states[k - 1], a);
    }
  }

  lemma StepReaches(proj: Project, s: State, a: Action) returns (s': State)
    requires Reachable(proj, s) && Enabled(proj, s, a)
    ensures s' == Exec(proj, s, a) && Reachable(proj, s')
  {
    s' := Exec(proj, s, a);
    var states, acts :| IsRun(proj, states, acts) && s == states[|acts|];
    assert IsRun(proj, states + [s'], acts + [a]);
  }

  lemma ReachableOk(proj: Project, s: State)
    requires proj.Valid() && Reachable(proj, s)
    ensures Inv(proj, s)
  {
    var states, acts :| IsRun(proj, states, acts) && s == states[|acts|];
    ValidSeedsFirst(proj);
    RunKeepsInv(proj, states, acts, |acts|);
  }

  /** The service's runtime container has started; it may have ended since. */
  predicate Runs(s: State, n: string) {
    n in s.pods && s.pods[n].at.started
  }

  /** Once a pod's runtime container has started, all that its init containers had
      to wait for is so, or was taken to be so in an empty status. */
  lemma StartedIsJustified(proj: Project, s: State, n: string, k: nat, check: Check)
    requires proj.Valid() && Reachable(proj, s) && Runs(s, n) && n in proj.plans
    requires k < |proj.plans[n]| && Demands(SpecOf(proj.plans[n][k]), check)
    ensures Justified(proj, s, s.pods[n], check)
  {
    ReachableOk(proj, s);
    assert PodOk(proj, s, n);
    assert Passed(proj, s, s.pods[n], proj.plans[n][k]);
  }

  lemma PlannedAwaitsSharers(services: seq<Service>, named: map<string, string>, svc: Service, plan: seq<Container>,
                             m: string)
    returns (k: nat)
    requires Planned(services, named, svc, plan) && Shares(services, named, svc, m)
    ensures k < |plan| && Demands(SpecOf(plan[k]), IsInitialized(m))
  {
    var sharers, deps :| (forall name :: name in sharers <==> Shares(services, named, svc, name))
      && plan == Gates(svc, named, sharers, deps);
    var i, source :| 0 <= i < |services| && services[i].name == m
      && MountsNative(services[i], source) && MountsNative(svc, source) && source !in named;
    NativeSourcesExactly(svc.volumes, named, source);
    var native := NativeSources(svc.volumes, named);
    assert m in sharers && source in native;
    k := 2;
    assert SeedGates(native, sharers)[2] == AwaitInitialized(sharers);
  }

  lemma PlannedAwaitsDependencies(services: seq<Service>, named: map<string, string>, svc: Service,
                                  plan: seq<Container>)
    returns (k: nat, deps: seq<Dependency>)
    requires Planned(services, named, svc, plan) && svc.dependsOn != map[]
    ensures k < |plan| && plan[k] == AwaitDependsOn(deps) && Marshalled(svc.dependsOn, svc.links, deps)
  {
    var sharers, marshalled :| (svc.dependsOn != map[] ==> Marshalled(svc.dependsOn, svc.links, marshalled))
      && plan == Gates(svc, named, sharers, marshalled);
    deps := marshalled;
    k := |SeedGates(NativeSources(svc.volumes, named), sharers)|;
    assert DependencyGates(svc, deps) == [AwaitDependsOn(deps)];
    assert plan == Gates(svc, named, sharers, deps);
    assert Gates(svc, named, sharers, deps)[k] == DependencyGates(svc, deps)[0];
  }

  lemma PlannedAwaitsSync(services: seq<Service>, named: map<string, string>, svc: Service, plan: seq<Container>)
    requires Planned(services, named, svc, plan) && BindSources(svc.volumes, named) != []
    ensures plan != [] && Demands(SpecOf(plan[|plan| - 1]), IsSynced)
  {
    var sharers, deps :| plan == Gates(svc, named, sharers, deps);
    assert plan[|plan| - 1] == SyncGates(BindSources(svc.volumes, named))[0];
  }

  /** A started service shares its native volumes only with services that have
      seeded them. */
  lemma SharersHaveSeeded(proj: Project, s: State, svc: Service, m: string)
    requires proj.Valid() && Reachable(proj, s) && svc in proj.services && Runs(s, svc.name)
    requires Shares(proj.services, proj.named, svc, m)
    ensures
      || IsInitialized(m) in s.pods[svc.name].blind
      || (m in s.pods && m in proj.plans && Seeded(proj.plans[m], s.pods[m].at.done))
  {
    var k := PlannedAwaitsSharers(proj.services, proj.named, svc, proj.plans[svc.name], m);
    StartedIsJustified(proj, s, svc.name, k, IsInitialized(m));
  }

  /** ... after everything it depends on, through depends_on or a link beside it. */
  lemma DependenciesWereMet(proj: Project, s: State, svc: Service, d: Dependency)
    requires proj.Valid() && Reachable(proj, s) && svc in proj.services && Runs(s, svc.name)
    requires svc.dependsOn != map[] && DependsOn(svc.dependsOn, svc.links, d)
    ensures d.condition.Started? ==> Runs(s, d.service)
    ensures d.condition.Healthy? ==>
              || IsHealthy(d.service) in s.pods[svc.name].blind
              || (d.service in s.pods && s.pods[d.service].at.healthy)
  {
    var k, deps := PlannedAwaitsDependencies(proj.services, proj.named, svc, proj.plans[svc.name]);
    if d.condition.Started? {
      StartedIsJustified(proj, s, svc.name, k, IsStarted(d.service));
      NeverTakenBlindly(proj, s, svc.name, IsStarted(d.service));
    }
    if d.condition.Healthy? {
      StartedIsJustified(proj, s, svc.name, k, IsHealthy(d.service));
    }
  }

  /** ... and, if it has bind volumes, after the CLI has reported them synced. */
  lemma SyncHadFinished(proj: Project, s: State, svc: Service)
    requires proj.Valid() && Reachable(proj, s) && svc in proj.services && Runs(s, svc.name)
    requires BindSources(svc.volumes, proj.named) != []
    ensures s.hasSynced
  {
    PlannedAwaitsSync(proj.services, proj.named, svc, proj.plans[svc.name]);
    StartedIsJustified(proj, s, svc.name, |proj.plans[svc.name]| - 1, IsSynced);
    NeverTakenBlindly(proj, s, svc.name, IsSynced);
  }

  /** The phase of a pod, and the sync, do not depend on what a status lists. */
  lemma NeverTakenBlindly(proj: Project, s: State, n: string, check: Check)
    requires Reachable(proj, s) && n in s.pods && (check.IsStarted? || check.IsSynced?)
    ensures check !in s.pods[n].blind
  {
    var states, acts :| IsRun(proj, states, acts) && s == states[|acts|];
    NeverTakenBlindlySoFar(proj, states, acts, |acts|, n, check);
  }

  lemma {:induction false} NeverTakenBlindlySoFar(proj: Project, states: seq<State>, acts: seq<Action>, k: nat,
                                                  n: string, check: Check)
    requires IsRun(proj, states, acts) && k <= |acts| && n in states[k].pods && (check.IsStarted? || check.IsSynced?)
    ensures check !in states[k].pods[n].blind
  {
    if k > 0 {
      var a := acts[k - 1];
      if n in states[k - 1].pods {
        NeverTakenBlindlySoFar(proj, states, acts, k - 1, n, check);
      }
    }
  }

  /* ----- Empty statuses ----- */

  /** What the condition really says of a status. */
  lemma ConditionsExactly(plan: seq<Container>, view: Progress)
    requires SeedsFirst(plan)
    ensures FinishedVolumeInit(StatusOf(plan, view)) <==> !view.listed || Seeded(plan, view.done)
    ensures PodHealthy(StatusOf(plan, view)) <==> !view.listed || (view.healthy && !view.ended)
    ensures PodStarted(StatusOf(plan, view)) <==> view.started && !view.ended
  {
    if view.listed && Seeded(plan, view.done) {
      var statuses := StatusOf(plan, view).initStatuses;
      assert forall i | 0 <= i < |plan| :: statuses[i] == InitStatus(ContainerName(plan[i]), i < view.done);
      SeederDoneExactly(statuses);
    }
    if view.listed && FinishedVolumeInit(StatusOf(plan, view)) {
      SeederSeen(plan, view);
    }
    if view.listed && PodHealthy(StatusOf(plan, view)) {
      HealthSeen(plan, view);
    }
  }

  /** The informer only ever brings statuses that list their containers. */
  ghost predicate OnlyListed(states: seq<State>, acts: seq<Action>) {
    |states| == |acts| + 1 &&
    forall i {:trigger acts[i]} | 0 <= i < |acts| ::
      acts[i].Deliver? && acts[i].n in states[i].pods ==> states[i].pods[acts[i].n].at.listed
  }

  lemma {:induction false} NeverBlind(proj: Project, states: seq<State>, acts: seq<Action>, k: nat)
    requires IsRun(proj, states, acts) && OnlyListed(states, acts) && k <= |acts|
    ensures forall n | n in states[k].pods :: states[k].pods[n].blind == {}
    ensures forall n | n in states[k].views :: states[k].views[n].listed
  {
    if k > 0 {
      NeverBlind(proj, states, acts, k - 1);
      var a := acts[k - 1];
    }
  }

  predicate Met(s: State, d: Dependency) {
    && (d.condition.Started? ==> Runs(s, d.service))
    && (d.condition.Healthy? ==> d.service in s.pods && s.pods[d.service].at.healthy)
  }

  /** All that a service has to wait for is so: the volumes it shares are seeded,
      its dependencies are met and, with bind volumes, the sync is done. */
  ghost predicate AllMet(proj: Project, s: State, svc: Service) {
    && (forall m | Shares(proj.services, proj.named, svc, m) ::
         m in s.pods && m in proj.plans && Seeded(proj.plans[m], s.pods[m].at.done))
    && (forall d | svc.dependsOn != map[] && DependsOn(svc.dependsOn, svc.links, d) :: Met(s, d))
    && (BindSources(svc.volumes, proj.named) != [] ==> s.hasSynced)
  }

  /** Then a service only ever starts when all that it has to wait for is so. */
  lemma BootIsSafe(proj: Project, states: seq<State>, acts: seq<Action>, svc: Service)
    requires proj.Valid() && IsRun(proj, states, acts) && OnlyListed(states, acts)
    requires svc in proj.services && Runs(states[|acts|], svc.name)
    ensures AllMet(proj, states[|acts|], svc)
  {
    var s := states[|acts|];
    assert Reachable(proj, s);
    NeverBlind(proj, states, acts, |acts|);
    forall m | Shares(proj.services, proj.named, svc, m)
      ensures m in s.pods && m in proj.plans && Seeded(proj.plans[m], s.pods[m].at.done)
    {
      SharersHaveSeeded(proj, s, svc, m);
    }
    forall d | svc.dependsOn != map[] && DependsOn(svc.dependsOn, svc.links, d) ensures Met(s, d) {
      DependenciesWereMet(proj, s, svc, d);
    }
    if BindSources(svc.volumes, proj.named) != [] {
      SyncHadFinished(proj, s, svc);
    }
  }

  /* ----- Calls of CheckReady ----- */

  /** A call of CheckReady begins when the one before failed, and for the next init
      container. */
  predicate BeginsCall(a: Action, n: string) {
    a == Create(n) || a == Act(n, Retry) || a == Act(n, Finish)
  }

  /** A call can fail at any time, whatever it has found ready; the next one has to
      find everything ready again. */
  lemma RetryStartsAfresh(proj: Project, s: State, n: string, check: Check)
    requires n in s.pods && n in proj.plans && AtWaiter(proj.plans[n], s.pods[n].at.done)
    requires Demands(SpecOf(proj.plans[n][s.pods[n].at.done]), check)
    ensures Enabled(proj, s, Act(n, Retry))
    ensures !Enabled(proj, Exec(proj, s, Act(n, Retry)), Act(n, Finish))
  {
    assert check !in Exec(proj, s, Act(n, Retry)).pods[n].checked;
  }

  predicate IsFound(s: State, n: string, check: Check) {
    n in s.pods && check in s.pods[n].checked
  }

  /** What counts as found ready was looked at, in the call under way. */
  lemma FoundByLooking(proj: Project, states: seq<State>, acts: seq<Action>, i: nat, n: string, check: Check)
    requires IsRun(proj, states, acts) && i < |acts| && IsFound(states[i + 1], n, check)
    ensures !BeginsCall(acts[i], n) && (acts[i] == Act(n, Observe(check)) || IsFound(states[i], n, check))
  {
    var a := acts[i];
    assert Enabled(proj, states[i], a) && states[i + 1] == Exec(proj, states[i], a);
  }

  /** What a call has found ready it has looked at itself. */
  lemma {:induction false} FoundInThisCall(proj: Project, states: seq<State>, acts: seq<Action>, i: nat, k: nat,
                                           n: string, check: Check)
    returns (j: nat)
    requires IsRun(proj, states, acts) && i < k <= |acts| && BeginsCall(acts[i], n) && IsFound(states[k], n, check)
    ensures i < j < k && acts[j] == Act(n, Observe(check))
  {
    j := k - 1;
    FoundByLooking(proj, states, acts, j, n, check);
    if acts[j] != Act(n, Observe(check)) {
      j := FoundInThisCall(proj, states, acts, i, j, n, check);
    }
  }

  /** A waiting init container is let go only by a call that has found everything
      that it waits for ready. */
  lemma FinishedAfterLookingAtAll(proj: Project, states: seq<State>, acts: seq<Action>, i: nat, k: nat, n: string,
                                  check: Check)
    returns (j: nat)
    requires IsRun(proj, states, acts) && i < k < |acts| && BeginsCall(acts[i], n) && acts[k] == Act(n, Finish)
    requires n in proj.plans && n in states[k].pods && states[k].pods[n].at.done < |proj.plans[n]|
    requires Demands(SpecOf(proj.plans[n][states[k].pods[n].at.done]), check)
    ensures i < j < k && acts[j] == Act(n, Observe(check)) && Seen(proj, states[j], check)
  {
    assert Enabled(proj, states[k], acts[k]) && IsFound(states[k], n, check);
    j := FoundInThisCall(proj, states, acts, i, k, n, check);
    assert Enabled(proj, states[j], acts[j]);
  }
}
