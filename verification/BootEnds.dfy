/** Pods that end while others still wait for them to be running. */
module BootEnds {
  import opened Pods
  import opened Wait
  import opened Boot
  import opened BootProgress
  import opened BootSafety

  /** A pod that is seen to have ended is not seen to have started, nor, if its
      status lists its container, to be healthy. */
  lemma EndedIsNotSeen(proj: Project, s: State, m: string)
    requires m in s.views && s.views[m].ended
    ensures !Seen(proj, s, IsStarted(m)) && (s.views[m].listed ==> !Seen(proj, s, IsHealthy(m)))
  {
    if m in proj.plans && s.views[m].listed {
      assert StatusOf(proj.plans[m], s.views[m]).ready[0] == false;
    }
  }

  /** What a pod waits for, in container `k`, has been seen to have ended, before it
      was seen to be running. */
  ghost predicate Blocked(proj: Project, s: State, n: string, k: nat, m: string) {
    && n in proj.plans && k < |proj.plans[n]| && Demands(SpecOf(proj.plans[n][k]), IsStarted(m))
    && m in s.views && s.views[m].ended && m in s.pods && s.pods[m].at.ended
    && (n in s.pods ==> s.pods[n].at.done <= k && IsStarted(m) !in s.pods[n].checked && !s.pods[n].at.started)
  }

  lemma DemandingIsWaiter(c: Container, check: Check)
    requires Demands(SpecOf(c), check)
    ensures IsWaiter(c)
  {
  }

  lemma StepStaysBlocked(proj: Project, s: State, a: Action, n: string, k: nat, m: string)
    requires Blocked(proj, s, n, k, m) && Enabled(proj, s, a)
    ensures Blocked(proj, Exec(proj, s, a), n, k, m)
  {
    EndedIsNotSeen(proj, s, m);
    DemandingIsWaiter(proj.plans[n][k], IsStarted(m));
  }

  lemma {:induction false} StaysBlocked(proj: Project, states: seq<State>, acts: seq<Action>, i: nat, j: nat,
                                        n: string, k: nat, m: string)
    requires IsRun(proj, states, acts) && i <= j <= |acts| && Blocked(proj, states[i], n, k, m)
    ensures Blocked(proj, states[j], n, k, m)
  {
    if i < j {
      StaysBlocked(proj, states, acts, i, j - 1, n, k, m);
      var a := acts[j - 1];
      StepStaysBlocked(proj, states[j - 1], a, n, k, m);
    }
  }

  /** The pod has come past a container that demands the check, or has found it
      ready for the one it is at. */
  ghost predicate HasFound(proj: Project, s: State, n: string, check: Check) {
    && n in s.pods && n in proj.plans
    && (check in s.pods[n].checked
        || exists k | 0 <= k < |proj.plans[n]| && k < s.pods[n].at.done :: Demands(SpecOf(proj.plans[n][k]), check))
  }

  /** A service that has not found one that it depends on running, before that is
      seen to have ended, never starts. */
  lemma EndedDependencyBlocks(proj: Project, states: seq<State>, acts: seq<Action>, i: nat, j: nat, svc: Service,
                              m: string)
    requires proj.Valid() && IsRun(proj, states, acts) && i <= j <= |acts|
    requires svc in proj.services && Counts(svc, Dependency(m, Started))
    requires m in states[i].views && states[i].views[m].ended
    requires !HasFound(proj, states[i], svc.name, IsStarted(m))
    ensures !Runs(states[j], svc.name)
  {
    var k := DependencyDemands(proj, svc, Dependency(m, Started));
    Prefix(proj, states, acts, i);
    ReachableOk(proj, states[i]);
    assert svc.name in states[i].pods ==> PodOk(proj, states[i], svc.name);
    StaysBlocked(proj, states, acts, i, j, svc.name, k, m);
  }

  /** A service that runs can end. */
  lemma RunningCanEnd(proj: Project, s: State, m: string)
    requires Runs(s, m) && m in proj.plans && !s.pods[m].at.ended
    ensures Enabled(proj, s, Act(m, End)) && Enabled(proj, Exec(proj, s, Act(m, End)), Deliver(m))
  {
  }

  /** If it does, and is seen to have, before one that depends on it has found it
      running, then that one never starts. */
  lemma EndingTooSoonBlocks(proj: Project, states: seq<State>, acts: seq<Action>, i: nat, j: nat, svc: Service,
                            m: string)
    requires proj.Valid() && IsRun(proj, states, acts) && i + 2 <= j <= |acts|
    requires acts[i] == Act(m, End) && acts[i + 1] == Deliver(m)
    requires svc in proj.services && Counts(svc, Dependency(m, Started))
    requires !HasFound(proj, states[i], svc.name, IsStarted(m))
    ensures !Runs(states[j], svc.name)
  {
    assert Enabled(proj, states[i], acts[i]) && states[i + 1] == Exec(proj, states[i], acts[i]);
    assert Enabled(proj, states[i + 1], acts[i + 1]) && states[i + 2] == Exec(proj, states[i + 1], acts[i + 1]);
    EndedDependencyBlocks(proj, states, acts, i + 2, j, svc, m);
  }
}
