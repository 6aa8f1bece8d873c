/** What the node controller waits for on behalf of an init container. */
module Wait {
  import opened Wrappers
  import opened Pods

  datatype Phase = Pending | Running | Ended

  datatype InitStatus = InitStatus(name: string, completed: bool)

  /** What a pod's status says of its containers, which may be nothing yet. */
  datatype PodStatus = PodStatus(phase: Phase, initStatuses: seq<InitStatus>, ready: seq<bool>)

  const COPY_VCP := "copy-vcp"
  const VCP := "vcp"
  const WAIT_INITIALIZED_VOLUMES := "wait-initialized-volumes"
  const WAIT_DEPENDS_ON := "wait-depends-on"
  const WAIT_SYNC := "wait-sync"

  /* ----- The conditions ----- */

  predicate PodHealthy(pod: PodStatus) {
    forall i | 0 <= i < |pod.ready| :: pod.ready[i]
  }

  predicate PodStarted(pod: PodStatus) {
    pod.phase == Running
  }

  /** The first status with the seeder's name decides; without one there is
      nothing to wait for. */
  predicate SeederDone(statuses: seq<InitStatus>) {
    statuses == [] || if statuses[0].name == VCP then statuses[0].completed else SeederDone(statuses[1..])
  }

  predicate FinishedVolumeInit(pod: PodStatus) {
    SeederDone(pod.initStatuses)
  }

  /** The check cannot tell a pod that has no seeder from one whose status does
      not list its containers yet. */
  lemma {:induction false} SeederDoneExactly(statuses: seq<InitStatus>)
    requires forall i, j | 0 <= i < j < |statuses| :: statuses[i].name == VCP ==> statuses[j].name != VCP
    ensures SeederDone(statuses) <==>
      (forall i | 0 <= i < |statuses| :: statuses[i].name == VCP ==> statuses[i].completed)
  {
    if statuses != [] {
      var rest := statuses[1..];
      SeederDoneExactly(rest);
      assert forall i | 0 <= i < |rest| :: rest[i] == statuses[i + 1];
      assert forall i | 0 < i < |statuses| :: statuses[i] == rest[i - 1];
    }
  }

  /* ----- From a wait spec to waiters ----- */

  datatype WaitSpec = WaitSpec(dependsOn: seq<Dependency>, finishedVolumeInit: seq<string>, bindVolumes: seq<string>)

  datatype Check = IsStarted(service: string) | IsHealthy(service: string) | IsInitialized(service: string) | IsSynced

  /** What has to be found ready for a wait spec; conditions it does not know are
      ignored. */
  predicate Demands(spec: WaitSpec, check: Check) {
    match check
    case IsStarted(name) => Dependency(name, Started) in spec.dependsOn
    case IsHealthy(name) => Dependency(name, Healthy) in spec.dependsOn
    case IsInitialized(name) => name in spec.finishedVolumeInit
    case IsSynced => spec.bindVolumes != []
  }

  /** Which of the first `n` dependencies have a condition that is known. */
  function KnownAt(deps: seq<Dependency>, n: nat): set<nat>
    requires n <= |deps|
  {
    set k: nat | k < n && !deps[k].condition.Unknown?
  }

  lemma KnownMore(deps: seq<Dependency>, n: nat)
    requires n < |deps|
    ensures |KnownAt(deps, n + 1)| == |KnownAt(deps, n)| + if deps[n].condition.Unknown? then 0 else 1
  {
    if deps[n].condition.Unknown? {
      assert KnownAt(deps, n + 1) == KnownAt(deps, n);
    } else {
      assert KnownAt(deps, n + 1) == KnownAt(deps, n) + {n};
    }
  }

  /** One waiter for each of them, even when some are the same. */
  method CheckReady(spec: WaitSpec) returns (waiters: seq<Check>)
    ensures forall check :: check in waiters <==> Demands(spec, check)
    ensures |waiters| ==
            |KnownAt(spec.dependsOn, |spec.dependsOn|)| + |spec.finishedVolumeInit|
            + (if spec.bindVolumes != [] then 1 else 0)
  {
    waiters := [];
    for n := 0 to |spec.dependsOn|
      invariant |waiters| == |KnownAt(spec.dependsOn, n)|
      invariant forall check :: check in waiters <==>
        (check.IsStarted? && Dependency(check.service, Started) in spec.dependsOn[..n]) ||
        (check.IsHealthy? && Dependency(check.service, Healthy) in spec.dependsOn[..n])
    {
      var d := spec.dependsOn[n];
      KnownMore(spec.dependsOn, n);
      assert spec.dependsOn[..n + 1] == spec.dependsOn[..n] + [d];
      match d.condition {
        case Healthy => waiters := waiters + [IsHealthy(d.service)];
        case Started => waiters := waiters + [IsStarted(d.service)];
        case Unknown(_) =>
      }
    }
    assert spec.dependsOn[..|spec.dependsOn|] == spec.dependsOn;
    ghost var dependencies := waiters;
    for n := 0 to |spec.finishedVolumeInit|
      invariant |waiters| == |dependencies| + n
      invariant forall check :: check in waiters <==>
        check in dependencies || (check.IsInitialized? && check.service in spec.finishedVolumeInit[..n])
    {
      assert spec.finishedVolumeInit[..n + 1] == spec.finishedVolumeInit[..n] + [spec.finishedVolumeInit[n]];
      waiters := waiters + [IsInitialized(spec.finishedVolumeInit[n])];
    }
    assert spec.finishedVolumeInit[..|spec.finishedVolumeInit|] == spec.finishedVolumeInit;
    if spec.bindVolumes != [] {
      waiters := waiters + [IsSynced];
    }
  }

  /* ----- Waiting for all of them ----- */

  /** What reaches the loop: an update, which may fail to be sent on, or the
      result of one waiter. */
  datatype Event = Update(sent: bool) | Finished(ok: bool)

  datatype Outcome = Ready | Aborted | StillWaiting

  /** Which of the first `used` events are results of waiters. */
  function FinishedAt(events: seq<Event>, used: nat): set<nat>
    requires used <= |events|
  {
    set k: nat | k < used && events[k].Finished?
  }

  lemma FinishedMore(events: seq<Event>, n: nat)
    requires n < |events|
    ensures |FinishedAt(events, n + 1)| == |FinishedAt(events, n)| + if events[n].Finished? then 1 else 0
  {
    if events[n].Finished? {
      assert FinishedAt(events, n + 1) == FinishedAt(events, n) + {n};
    } else {
      assert FinishedAt(events, n + 1) == FinishedAt(events, n);
    }
  }

  /** The pod is told to boot exactly when every waiter has succeeded, with no
      failure before, and that can be sent. The first failure ends the loop. */
  method WaitForAll(waiters: nat, events: seq<Event>, readySent: bool) returns (outcome: Outcome, used: nat)
    ensures used <= |events| && |FinishedAt(events, used)| <= waiters
    ensures forall k | 0 <= k < used - 1 :: events[k] == Update(true) || events[k] == Finished(true)
    ensures forall k | 0 <= k < used :: |FinishedAt(events, k)| < waiters
    ensures outcome.Ready? <==>
      && (used > 0 ==> events[used - 1] == Update(true) || events[used - 1] == Finished(true))
      && |FinishedAt(events, used)| == waiters && readySent
    ensures outcome.Aborted? <==>
      || (used > 0 && (events[used - 1] == Update(false) || events[used - 1] == Finished(false)))
      || (|FinishedAt(events, used)| == waiters && !readySent)
    ensures outcome.StillWaiting? ==> used == |events|
  {
    used := 0;
    var numReady := 0;
    while numReady != waiters && used < |events|
      invariant used <= |events| && numReady == |FinishedAt(events, used)| <= waiters
      invariant forall k | 0 <= k < used :: events[k] == Update(true) || events[k] == Finished(true)
      invariant forall k | 0 <= k < used :: |FinishedAt(events, k)| < waiters
    {
      var e := events[used];
      FinishedMore(events, used);
      used := used + 1;
      match e {
        case Update(sent) =>
          if !sent {
            return Aborted, used;
          }
        case Finished(ok) =>
          if !ok {
            return Aborted, used;
          }
          numReady := numReady + 1;
      }
    }
    outcome := if numReady < waiters then StillWaiting else if readySent then Ready else Aborted;
  }

  /* ----- One pod ----- */

  predicate Satisfies(pod: PodStatus, check: Check)
    requires !check.IsSynced?
  {
    match check
    case IsStarted(_) => PodStarted(pod)
    case IsHealthy(_) => PodHealthy(pod)
    case IsInitialized(_) => FinishedVolumeInit(pod)
  }

  /** The first status with the seeder's name, if there is one, says that it has
      completed. */
  predicate SeederLooksDone(pod: PodStatus) {
    forall i | 0 <= i < |pod.initStatuses| && IsFirstSeeder(pod.initStatuses, i) :: pod.initStatuses[i].completed
  }

  predicate IsFirstSeeder(statuses: seq<InitStatus>, i: nat)
    requires i < |statuses|
  {
    statuses[i].name == VCP && forall j | 0 <= j < i :: statuses[j].name != VCP
  }

  lemma {:induction false} SeederDoneFirst(statuses: seq<InitStatus>)
    ensures SeederDone(statuses) <==>
      forall i | 0 <= i < |statuses| && IsFirstSeeder(statuses, i) :: statuses[i].completed
  {
    if statuses != [] && statuses[0].name == VCP {
      assert IsFirstSeeder(statuses, 0);
    } else if statuses != [] {
      var rest := statuses[1..];
      SeederDoneFirst(rest);
      assert forall i | 0 <= i < |rest| :: IsFirstSeeder(statuses, i + 1) <==> IsFirstSeeder(rest, i) by {
        forall i | 0 <= i < |rest| ensures IsFirstSeeder(statuses, i + 1) <==> IsFirstSeeder(rest, i) {
          assert forall j | 0 <= j < i :: rest[j] == statuses[j + 1];
          assert forall j | 1 <= j < i + 1 :: statuses[j] == rest[j - 1];
        }
      }
      assert forall i | 0 < i < |statuses| :: IsFirstSeeder(statuses, i) <==> IsFirstSeeder(rest, i - 1);
    }
  }

  /** podWaiter.wait over what the lister has at each look: it is done at the
      first look that finds the pod as it should be. */
  method WaitForPod(looks: seq<Option<PodStatus>>, check: Check) returns (done: bool, used: nat)
    requires !check.IsSynced?
    ensures used <= |looks|
    ensures done ==> used > 0 && looks[used - 1].Some? && Satisfies(looks[used - 1].value, check)
    ensures done && check.IsStarted? ==> looks[used - 1].value.phase == Running
    ensures done && check.IsHealthy? ==> false !in looks[used - 1].value.ready
    ensures done && check.IsInitialized? ==> SeederLooksDone(looks[used - 1].value)
    ensures forall k | 0 <= k < (if done then used - 1 else |looks|) && looks[k].Some? ::
      var pod := looks[k].value;
      && !Satisfies(pod, check)
      && (check.IsStarted? ==> pod.phase != Running)
      && (check.IsHealthy? ==> false in pod.ready)
      && (check.IsInitialized? ==> !SeederLooksDone(pod))
  {
    used := 0;
    while used < |looks|
      invariant used <= |looks|
      invariant forall k | 0 <= k < used && looks[k].Some? ::
        && !Satisfies(looks[k].value, check)
        && (check.IsInitialized? ==> !SeederLooksDone(looks[k].value))
    {
      used := used + 1;
      if looks[used - 1].Some? {
        SeederDoneFirst(looks[used - 1].value.initStatuses);
      }
      if looks[used - 1].Some? && Satisfies(looks[used - 1].value, check) {
        return true, used;
      }
    }
    return false, used;
  }
}
