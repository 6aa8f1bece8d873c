/** When a namespace that comes back to its volume gets it bound again. */
module VolumeBinds {
  import opened Wrappers
  import opened Volumes
  import opened VolumeSteps
  import opened VolumeRuns

  /* ----- What can still happen ----- */

  ghost predicate LeadsBy(s: State, acts: seq<Action>, t: State)
    decreases |acts|
  {
    if acts == [] then t == s else Exec(s, acts[0]).Some? && LeadsBy(Exec(s, acts[0]).value, acts[1..], t)
  }

  ghost predicate Leads(s: State, t: State) {
    exists acts :: LeadsBy(s, acts, t)
  }

  /** The namespace's call has ended with its claim bound to the volume. */
  ghost predicate GotClaim(s: State, n: Namespace, v: nat) {
    s.At(n).Idle? && User(n) in s.claims && s.claims[User(n)].bound && s.claims[User(n)].volumeName == Some(v)
  }

  ghost predicate CanGetClaim(s: State, n: Namespace, v: nat) {
    exists t :: Leads(s, t) && GotClaim(t, n, v)
  }

  lemma StandingStill(s: State, n: Namespace, v: nat)
    requires GotClaim(s, n, v)
    ensures CanGetClaim(s, n, v)
  {
    assert LeadsBy(s, [], s);
  }

  lemma StepFirst(s: State, a: Action, n: Namespace, v: nat)
    requires Exec(s, a).Some? && CanGetClaim(Exec(s, a).value, n, v)
    ensures CanGetClaim(s, n, v)
  {
    var t :| Leads(Exec(s, a).value, t) && GotClaim(t, n, v);
    var acts :| LeadsBy(Exec(s, a).value, acts, t);
    assert ([a] + acts)[1..] == acts;
    assert LeadsBy(s, [a] + acts, t);
  }

  /* ----- What an action changes, if it is not an update ----- */

  /** Nothing but where a call stands. */
  predicate Moves(a: Action) {
    a.StartCreate? || a.FindOwn? || a.FindNone? || a.Read? || a.SeeSeedBound? || a.SeeReleased? || a.SeeBound?
    || a.StartDelete?
  }

  predicate ChangesSeeds(a: Action) {
    a.MakeSeed? || a.DropSeed?
  }

  predicate ChangesClaims(a: Action) {
    a.MakeClaim? || a.DropClaim? || a.RemoveClaim? || a.Down?
  }

  predicate Binds(a: Action) {
    a.Provision? || a.BindSeed? || a.BindClaim?
  }

  predicate ChangesVolumes(a: Action) {
    a.MarkAvailable? || a.MarkReleased? || a.DeleteVolume? || a.Touch?
  }

  /* ----- Stuck ----- */

  /** The volume still refers to the namespace's old claim, and the call will not
      look at it again. */
  ghost predicate Stuck(s: State, n: Namespace, v: nat) {
    && HeldFor(s, v, User(n)) && s.vols[v].owner == Some(n)
    && (s.At(n) == CreateClaim(v)
        || (s.At(n).AwaitBound? && ClaimOf(s, n).Some?
            && !ClaimOf(s, n).value.bound && !ClaimOf(s, n).value.deleting
            && ClaimOf(s, n).value.volumeName == Some(v)))
  }

  lemma UpdateStaysStuck(s: State, m: Namespace, n: Namespace, v: nat)
    requires Stuck(s, n, v) && UpdateStep(s, m).Some? && PcOk(s, m)
    ensures Stuck(UpdateStep(s, m).value, n, v)
  {
  }

  lemma MoveStaysStuck(s: State, a: Action, n: Namespace, v: nat)
    requires Stuck(s, n, v) && Exec(s, a).Some? && Moves(a)
    ensures Stuck(Exec(s, a).value, n, v)
  {
  }

  lemma ClaimStaysStuck(s: State, a: Action, n: Namespace, v: nat)
    requires Stuck(s, n, v) && Exec(s, a).Some? && ChangesClaims(a) && PcOk(s, n)
    ensures Stuck(Exec(s, a).value, n, v)
  {
  }

  lemma SeedStaysStuck(s: State, a: Action, n: Namespace, v: nat)
    requires Stuck(s, n, v) && Exec(s, a).Some? && ChangesSeeds(a)
    ensures Stuck(Exec(s, a).value, n, v)
  {
  }

  lemma BindStaysStuck(s: State, a: Action, n: Namespace, v: nat)
    requires Stuck(s, n, v) && Exec(s, a).Some? && Binds(a) && VolumeOk(s, v)
    ensures Stuck(Exec(s, a).value, n, v)
  {
  }

  lemma VolumeStaysStuck(s: State, a: Action, n: Namespace, v: nat)
    requires Stuck(s, n, v) && Exec(s, a).Some? && ChangesVolumes(a) && VolumeOk(s, v)
    ensures Stuck(Exec(s, a).value, n, v)
  {
  }

  lemma StepStaysStuck(s: State, a: Action, n: Namespace, v: nat)
    requires Inv(s) && Stuck(s, n, v) && Exec(s, a).Some?
    ensures Stuck(Exec(s, a).value, n, v)
  {
    Knows(s, n);
    if a.Update? {
      Knows(s, a.n);
      UpdateStaysStuck(s, a.n, n, v);
    } else if Moves(a) {
      MoveStaysStuck(s, a, n, v);
    } else if ChangesSeeds(a) {
      SeedStaysStuck(s, a, n, v);
    } else if ChangesClaims(a) {
      ClaimStaysStuck(s, a, n, v);
    } else if Binds(a) {
      BindStaysStuck(s, a, n, v);
    } else {
      VolumeStaysStuck(s, a, n, v);
    }
  }

  lemma {:induction false} StaysStuck(s: State, acts: seq<Action>, t: State, n: Namespace, v: nat)
    requires Inv(s) && Stuck(s, n, v) && LeadsBy(s, acts, t)
    ensures Stuck(t, n, v)
    decreases |acts|
  {
    if acts != [] {
      StepKeepsInv(s, acts[0]);
      StepStaysStuck(s, acts[0], n, v);
      StaysStuck(Exec(s, acts[0]).value, acts[1..], t, n, v);
    }
  }

  lemma NeverGetsClaim(s: State, n: Namespace, v: nat)
    requires Inv(s) && Stuck(s, n, v)
    ensures !CanGetClaim(s, n, v)
  {
    forall t | Leads(s, t) ensures !GotClaim(t, n, v) {
      var acts :| LeadsBy(s, acts, t);
      StaysStuck(s, acts, t, n, v);
    }
  }

  /* ----- A seed lets go ----- */

  /** The call whose seed holds the volume is on its way to letting it go. */
  ghost predicate SeedWorks(s: State, m: Namespace, v: nat) {
    if Seed(m) in s.claims
    then s.claims[Seed(m)].volumeName == Some(v) && (s.At(m).AwaitReleased? ==> s.claims[Seed(m)].deleting)
    else (s.At(m).AwaitReleased? || s.At(m).ClaimSeeded?) && s.At(m).vol == v
  }

  ghost predicate SeedsWork(s: State) {
    forall v, m | HeldFor(s, v, Seed(m)) :: SeedWorks(s, m, v)
  }

  lemma ReadWorksOn(s: State, n: Namespace, v: nat, m: Namespace)
    requires ReadStep(s, n).Some? && HeldFor(ReadStep(s, n).value, v, Seed(m))
    requires HeldFor(s, v, Seed(m)) ==> SeedWorks(s, m, v)
    ensures SeedWorks(ReadStep(s, n).value, m, v)
  {
  }

  lemma MoveWorksOn(s: State, a: Action, v: nat, m: Namespace)
    requires Exec(s, a).Some? && Moves(a) && !a.Read? && HeldFor(Exec(s, a).value, v, Seed(m))
    requires PcOk(s, m)
    requires HeldFor(s, v, Seed(m)) ==> SeedWorks(s, m, v)
    ensures SeedWorks(Exec(s, a).value, m, v)
  {
  }

  lemma ClaimWorksOn(s: State, a: Action, v: nat, m: Namespace)
    requires Exec(s, a).Some? && ChangesClaims(a) && HeldFor(Exec(s, a).value, v, Seed(m))
    requires PcOk(s, m) && (Seed(m) in s.claims ==> SeedOk(s, m))
    requires HeldFor(s, v, Seed(m)) ==> SeedWorks(s, m, v)
    ensures SeedWorks(Exec(s, a).value, m, v)
  {
  }

  lemma SeedStepWorksOn(s: State, a: Action, v: nat, m: Namespace)
    requires Exec(s, a).Some? && ChangesSeeds(a) && HeldFor(Exec(s, a).value, v, Seed(m)) && PcOk(s, m)
    requires HeldFor(s, v, Seed(m)) ==> SeedWorks(s, m, v)
    ensures SeedWorks(Exec(s, a).value, m, v)
  {
  }

  lemma BindWorksOn(s: State, a: Action, v: nat, m: Namespace)
    requires Exec(s, a).Some? && Binds(a) && HeldFor(Exec(s, a).value, v, Seed(m))
    requires Seed(m) in s.claims ==> SeedOk(s, m)
    requires HeldFor(s, v, Seed(m)) ==> SeedWorks(s, m, v)
    ensures SeedWorks(Exec(s, a).value, m, v)
  {
  }

  lemma VolumeWorksOn(s: State, a: Action, v: nat, m: Namespace)
    requires Exec(s, a).Some? && ChangesVolumes(a) && HeldFor(Exec(s, a).value, v, Seed(m))
    requires HeldFor(s, v, Seed(m)) ==> SeedWorks(s, m, v)
    ensures SeedWorks(Exec(s, a).value, m, v)
  {
  }

  lemma UpdateWorksOn(s: State, n: Namespace, v: nat, m: Namespace)
    requires UpdateStep(s, n).Some? && HeldFor(UpdateStep(s, n).value, v, Seed(m)) && PcOk(s, n)
    requires HeldFor(s, v, Seed(m)) ==> SeedWorks(s, m, v)
    ensures SeedWorks(UpdateStep(s, n).value, m, v)
  {
  }

  lemma SeedWorksOn(s: State, a: Action, v: nat, m: Namespace)
    requires Inv(s) && SeedsWork(s) && Exec(s, a).Some? && HeldFor(Exec(s, a).value, v, Seed(m))
    ensures SeedWorks(Exec(s, a).value, m, v)
  {
    Knows(s, m);
    if a.Update? {
      Knows(s, a.n);
      UpdateWorksOn(s, a.n, v, m);
    } else if a.Read? {
      ReadWorksOn(s, a.n, v, m);
    } else if Moves(a) {
      MoveWorksOn(s, a, v, m);
    } else if ChangesSeeds(a) {
      SeedStepWorksOn(s, a, v, m);
    } else if ChangesClaims(a) {
      ClaimWorksOn(s, a, v, m);
    } else if Binds(a) {
      BindWorksOn(s, a, v, m);
    } else {
      VolumeWorksOn(s, a, v, m);
    }
  }

  lemma {:induction false} SeedsWorkSoFar(states: seq<State>, acts: seq<Action>, k: nat)
    requires IsRun(states, acts) && k <= |acts|
    ensures SeedsWork(states[k])
  {
    if k > 0 {
      SeedsWorkSoFar(states, acts, k - 1);
      RunKeepsInv(states, acts, k - 1);
      var a := acts[k - 1];
      forall v, m | HeldFor(states[k], v, Seed(m)) ensures SeedWorks(states[k], m, v) {
        SeedWorksOn(states[k - 1], a, v, m);
      }
    }
  }

  lemma SeedsAlwaysWork(s: State)
    requires Reachable(s)
    ensures SeedsWork(s)
  {
    var states, acts :| IsRun(states, acts) && s == states[|acts|];
    SeedsWorkSoFar(states, acts, |acts|);
  }

  /** How far the call of `m` is from letting go of volume `v`. */
  function ToRelease(s: State, m: Namespace, v: nat): nat {
    match s.At(m)
    case AwaitSeed(_) => 10
    case RetainSeeded(_, _, None) => 8
    case RetainSeeded(_, _, Some(pv)) => if v in s.vols && s.vols[v].version == pv.version then 7 else 9
    case DeleteSeed(_, _) => 6
    case AwaitReleased(_, _) =>
      if Seed(m) in s.claims then 5 else if v in s.vols && s.vols[v].phase == Released then 3 else 4
    case ClaimSeeded(_, _, None, _) => 1
    case ClaimSeeded(_, _, Some(pv), _) => if v in s.vols && s.vols[v].version == pv.version then 0 else 2
    case _ => 0
  }

  /** What brings it closer. */
  function NextRelease(s: State, m: Namespace, v: nat): Action {
    match s.At(m)
    case AwaitSeed(_) => SeeSeedBound(m)
    case RetainSeeded(_, _, None) => Read(m)
    case RetainSeeded(_, _, Some(pv)) => Update(m)
    case DeleteSeed(_, _) => DropSeed(m)
    case AwaitReleased(_, _) =>
      if Seed(m) in s.claims then RemoveClaim(Seed(m))
      else if v in s.vols && s.vols[v].phase == Released then SeeReleased(m) else MarkReleased(v)
    case ClaimSeeded(_, _, None, _) => Read(m)
    case _ => Update(m)
  }

  /** One step closer, or let go: with a label, its own if there was none. */
  ghost predicate Closer(s: State, s': State, m: Namespace, v: nat)
    requires v in s.vols
  {
    && v in s'.vols && (forall n | n != m :: s'.At(n) == s.At(n))
    && if HeldFor(s', v, Seed(m))
       then s'.vols[v].owner == s.vols[v].owner && ToRelease(s', m, v) < ToRelease(s, m, v)
       else s'.vols[v].claimRef.None?
            && s'.vols[v].owner == if s.vols[v].owner.None? then Some(m) else s.vols[v].owner
  }

  lemma SeedComesCloser(s: State, v: nat, m: Namespace)
    requires HeldFor(s, v, Seed(m)) && SeedWorks(s, m, v) && VolumeOk(s, v) && PcOk(s, m)
    requires Seed(m) in s.claims && SeedOk(s, m)
    ensures Exec(s, NextRelease(s, m, v)).Some? && Closer(s, Exec(s, NextRelease(s, m, v)).value, m, v)
  {
  }

  lemma ReleaseComesCloser(s: State, v: nat, m: Namespace)
    requires HeldFor(s, v, Seed(m)) && SeedWorks(s, m, v) && VolumeOk(s, v) && PcOk(s, m)
    requires Seed(m) !in s.claims
    ensures Exec(s, NextRelease(s, m, v)).Some? && Closer(s, Exec(s, NextRelease(s, m, v)).value, m, v)
  {
  }

  lemma ComesCloser(s: State, v: nat, m: Namespace)
    requires Inv(s) && SeedsWork(s) && HeldFor(s, v, Seed(m))
    ensures Exec(s, NextRelease(s, m, v)).Some? && Closer(s, Exec(s, NextRelease(s, m, v)).value, m, v)
    ensures Inv(Exec(s, NextRelease(s, m, v)).value) && SeedsWork(Exec(s, NextRelease(s, m, v)).value)
  {
    Knows(s, m);
    if Seed(m) in s.claims {
      SeedComesCloser(s, v, m);
    } else {
      ReleaseComesCloser(s, v, m);
    }
    var a := NextRelease(s, m, v);
    StepKeepsInv(s, a);
    forall w, l | HeldFor(Exec(s, a).value, w, Seed(l)) ensures SeedWorks(Exec(s, a).value, l, w) {
      SeedWorksOn(s, a, w, l);
    }
  }

  /* ----- Exactly when ----- */

  /** A claim for a volume that nothing refers to is made, bound and seen. */
  lemma FreeIsBound(s: State, n: Namespace, v: nat)
    requires s.At(n) == CreateClaim(v) && User(n) !in s.claims && v in s.vols && s.vols[v].claimRef.None?
    ensures CanGetClaim(s, n, v)
  {
    var s1 := Exec(s, MakeClaim(n)).value;
    assert Exec(s1, BindClaim(n)).Some?;
    var s2 := Exec(s1, BindClaim(n)).value;
    assert Exec(s2, SeeBound(n)).Some?;
    var s3 := Exec(s2, SeeBound(n)).value;
    StandingStill(s3, n, v);
    StepFirst(s2, SeeBound(n), n, v);
    StepFirst(s1, BindClaim(n), n, v);
    StepFirst(s, MakeClaim(n), n, v);
  }

  /** A volume that is in the seed of another namespace comes back to the one that
      waits for it. */
  lemma {:induction false} LentComesBack(s: State, n: Namespace, v: nat, m: Namespace)
    requires Inv(s) && SeedsWork(s) && m != n && s.At(n) == CreateClaim(v) && HeldFor(s, v, Seed(m))
    ensures CanGetClaim(s, n, v)
    decreases ToRelease(s, m, v)
  {
    ComesCloser(s, v, m);
    var a := NextRelease(s, m, v);
    var s' := Exec(s, a).value;
    if HeldFor(s', v, Seed(m)) {
      LentComesBack(s', n, v, m);
    } else {
      Knows(s', n);
      FreeIsBound(s', n, v);
    }
    StepFirst(s, a, n, v);
  }

  lemma NotOwnSeed(s: State, n: Namespace, v: nat)
    requires Inv(s) && SeedsWork(s) && s.At(n) == CreateClaim(v)
    ensures !HeldFor(s, v, Seed(n))
  {
    Knows(s, n);
  }

  /** The claim that a call is about to create can be bound, if and only if the
      volume does not still refer to an old claim of the namespace. */
  lemma BindsExactly(s: State, n: Namespace, v: nat)
    requires Reachable(s) && s.At(n) == CreateClaim(v)
    ensures CanGetClaim(s, n, v) <==> !HeldFor(s, v, User(n))
  {
    ReachableOk(s);
    SeedsAlwaysWork(s);
    Knows(s, n);
    NotOwnSeed(s, n, v);
    if HeldFor(s, v, User(n)) {
      NeverGetsClaim(s, n, v);
    } else if s.vols[v].claimRef.None? {
      FreeIsBound(s, n, v);
    } else {
      assert VolumeOk(s, v);
      LentComesBack(s, n, v, s.vols[v].claimRef.value.key.ns);
    }
  }

  /** Whoever looks its volume up sees it referring to its old claim, which is
      gone. */
  lemma FoundWithOldClaim(s: State, n: Namespace, v: nat)
    requires Reachable(s) && Exec(s, FindOwn(n, v)).Some?
    ensures HeldFor(s, v, User(n)) && !Exists(s, s.vols[v].claimRef.value)
  {
    ReachableOk(s);
    Knows(s, n);
    assert VolumeOk(s, v);
  }

  lemma ReleaseOwnBinds(s: State, n: Namespace, v: nat)
    requires Inv(s) && s.At(n) == ReleaseOwn(v, None)
    ensures CanGetClaim(s, n, v)
  {
    Knows(s, n);
    var s1 := Exec(s, Read(n)).value;
    assert s1.At(n) == ReleaseOwn(v, Some(s.vols[v]));
    var s2 := Exec(s1, Update(n)).value;
    FreeIsBound(s2, n, v);
    StepFirst(s1, Update(n), n, v);
    StepFirst(s, Read(n), n, v);
  }

  /** A namespace that looks up its volume can get it bound, if and only if the
      controller has marked the volume as released by then. */
  lemma ComesBackExactly(s: State, n: Namespace, v: nat)
    requires Reachable(s) && Exec(s, FindOwn(n, v)).Some?
    ensures CanGetClaim(Exec(s, FindOwn(n, v)).value, n, v) <==> s.vols[v].phase == Released
  {
    FoundWithOldClaim(s, n, v);
    var s' := Exec(s, FindOwn(n, v)).value;
    StepReaches(s, FindOwn(n, v), s');
    ReachableOk(s');
    if s.vols[v].phase == Released {
      ReleaseOwnBinds(s', n, v);
    } else {
      BindsExactly(s', n, v);
    }
  }

  /* ----- It happens ----- */

  /** The call of `n` completes, with its claim bound. */
  lemma Binds0(s: State, n: Namespace) returns (s': State)
    requires Reachable(s) && s.At(n) == CreateClaim(0) && s.claims.Keys == {} && s.vols.Keys == {0}
    requires s.vols[0].claimRef.None?
    ensures Reachable(s') && s'.At(n).Idle? && s'.claims.Keys == {User(n)} && s'.vols.Keys == {0}
    ensures s'.vols[0].owner == s.vols[0].owner && s'.vols[0].phase == Bound && HeldFor(s', 0, User(n))
  {
    var s1 := Exec(s, MakeClaim(n)).value;
    StepReaches(s, MakeClaim(n), s1);
    var s2 := Exec(s1, BindClaim(n)).value;
    StepReaches(s1, BindClaim(n), s2);
    s' := Exec(s2, SeeBound(n)).value;
    StepReaches(s2, SeeBound(n), s');
  }

  /** A namespace goes down, its claim is removed, and it comes back before the
      controller has seen that. */
  lemma ComesBackTooSoon(n: Namespace) returns (s: State)
    ensures Reachable(s) && Exec(s, FindOwn(n, 0)).Some? && s.vols[0].phase == Bound
    ensures !CanGetClaim(Exec(s, FindOwn(n, 0)).value, n, 0)
  {
    var s1 := ComesToOwn(n);
    var s2 := Binds0(s1, n);
    var s3 := Exec(s2, Down(n)).value;
    StepReaches(s2, Down(n), s3);
    var s4 := Exec(s3, RemoveClaim(User(n))).value;
    StepReaches(s3, RemoveClaim(User(n)), s4);
    s := Exec(s4, StartCreate(n)).value;
    StepReaches(s4, StartCreate(n), s);
    ComesBackExactly(s, n, 0);
  }
}
