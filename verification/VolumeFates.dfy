/** No volume is left behind: whichever has no label is on its way to one, or to
    its deletion. */
module VolumeFates {
  import opened Wrappers
  import opened Volumes
  import opened VolumeSteps
  import opened VolumeRuns
  import opened VolumeBinds

  /* ----- A volume that is given up is being let go ----- */

  /** The claim that still holds the volume is about to be deleted, or is being
      deleted, or is gone. */
  ghost predicate Leaving(s: State, v: nat, n: Namespace) {
    HeldFor(s, v, User(n)) &&
    (s.At(n).DeleteClaim? || !Exists(s, s.vols[v].claimRef.value) || s.claims[User(n)].deleting)
  }

  /** A volume without a label that a user's claim refers to. */
  ghost predicate Abandoned(s: State, v: nat, n: Namespace) {
    HeldFor(s, v, User(n)) && s.vols[v].owner.None?
  }

  ghost predicate LeavesOne(s: State, v: nat, n: Namespace) {
    Abandoned(s, v, n) ==> GivenUp(s, v, n) && Leaving(s, v, n)
  }

  ghost predicate AbandonedLeave(s: State) {
    forall v, n | HeldFor(s, v, User(n)) :: LeavesOne(s, v, n)
  }

  lemma UpdateLeaves(s: State, m: Namespace, v: nat, n: Namespace)
    requires UpdateStep(s, m).Some? && PcOk(s, m) && LeavesOne(s, v, n)
    ensures LeavesOne(UpdateStep(s, m).value, v, n)
  {
  }

  lemma MoveLeaves(s: State, a: Action, v: nat, n: Namespace)
    requires Exec(s, a).Some? && Moves(a) && LeavesOne(s, v, n)
    ensures LeavesOne(Exec(s, a).value, v, n)
  {
  }

  lemma SeedLeaves(s: State, a: Action, v: nat, n: Namespace)
    requires Exec(s, a).Some? && ChangesSeeds(a) && LeavesOne(s, v, n)
    ensures LeavesOne(Exec(s, a).value, v, n)
  {
  }

  lemma ClaimLeaves(s: State, a: Action, v: nat, n: Namespace)
    requires Exec(s, a).Some? && ChangesClaims(a) && LeavesOne(s, v, n)
    requires PcOk(s, n) && (v in s.vols ==> VolumeOk(s, v))
    ensures LeavesOne(Exec(s, a).value, v, n)
  {
  }

  lemma BindLeaves(s: State, a: Action, v: nat, n: Namespace)
    requires Exec(s, a).Some? && Binds(a) && LeavesOne(s, v, n) && (v in s.vols ==> VolumeOk(s, v))
    ensures LeavesOne(Exec(s, a).value, v, n)
  {
  }

  lemma VolumeLeaves(s: State, a: Action, v: nat, n: Namespace)
    requires Exec(s, a).Some? && ChangesVolumes(a) && LeavesOne(s, v, n)
    ensures LeavesOne(Exec(s, a).value, v, n)
  {
  }

  lemma StepLeaves(s: State, a: Action, v: nat, n: Namespace)
    requires Inv(s) && Exec(s, a).Some? && LeavesOne(s, v, n)
    ensures LeavesOne(Exec(s, a).value, v, n)
  {
    Knows(s, n);
    if a.Update? {
      Knows(s, a.n);
      UpdateLeaves(s, a.n, v, n);
    } else if Moves(a) {
      MoveLeaves(s, a, v, n);
    } else if ChangesSeeds(a) {
      SeedLeaves(s, a, v, n);
    } else if ChangesClaims(a) {
      ClaimLeaves(s, a, v, n);
    } else if Binds(a) {
      BindLeaves(s, a, v, n);
    } else {
      VolumeLeaves(s, a, v, n);
    }
  }

  lemma {:induction false} LeavesSoFar(states: seq<State>, acts: seq<Action>, k: nat)
    requires IsRun(states, acts) && k <= |acts|
    ensures AbandonedLeave(states[k])
  {
    if k > 0 {
      LeavesSoFar(states, acts, k - 1);
      RunKeepsInv(states, acts, k - 1);
      var a := acts[k - 1];
      forall v, n | HeldFor(states[k], v, User(n)) ensures LeavesOne(states[k], v, n) {
        StepLeaves(states[k - 1], a, v, n);
      }
    }
  }

  /** A volume has a label, or is held by a seed whose call is at work on it, or
      has been given up and is being let go. */
  lemma EveryVolumeHasAFate(s: State, v: nat)
    requires Reachable(s) && v in s.vols
    ensures
      || s.vols[v].owner.Some?
      || (exists m :: HeldFor(s, v, Seed(m)) && SeedWorks(s, m, v))
      || (exists n :: GivenUp(s, v, n) && Leaving(s, v, n))
  {
    ReachableOk(s);
    SeedsAlwaysWork(s);
    var states, acts :| IsRun(states, acts) && s == states[|acts|];
    LeavesSoFar(states, acts, |acts|);
    assert VolumeOk(s, v);
    if s.vols[v].owner.None? {
      match s.vols[v].claimRef.value.key {
        case Seed(m) =>
          assert HeldFor(s, v, Seed(m));
        case User(n) =>
          assert HeldFor(s, v, User(n)) && LeavesOne(s, v, n);
      }
    }
  }

  /* ----- It is deleted ----- */

  /** What the deletion of the namespace's claim and volume takes. */
  predicate Deletes(a: Action, v: nat, n: Namespace) {
    a == DropClaim(n) || a == RemoveClaim(User(n)) || a == MarkReleased(v) || a == DeleteVolume(v)
  }

  function ToDeletion(s: State, v: nat, n: Namespace): nat
    requires v in s.vols && s.vols[v].claimRef.Some?
  {
    if !Exists(s, s.vols[v].claimRef.value) then if s.vols[v].phase == Released then 1 else 2
    else if User(n) in s.claims && s.claims[User(n)].deleting then 3 else 4
  }

  function NextDeletion(s: State, v: nat, n: Namespace): Action
    requires v in s.vols && s.vols[v].claimRef.Some?
  {
    match ToDeletion(s, v, n)
    case 1 => DeleteVolume(v)
    case 2 => MarkReleased(v)
    case 3 => RemoveClaim(User(n))
    case _ => DropClaim(n)
  }

  lemma DeletionStep(s: State, v: nat, n: Namespace)
    requires GivenUp(s, v, n) && Leaving(s, v, n)
    ensures Exec(s, NextDeletion(s, v, n)).Some?
    ensures var s' := Exec(s, NextDeletion(s, v, n)).value;
      v in s'.vols ==> GivenUp(s', v, n) && Leaving(s', v, n) && ToDeletion(s', v, n) < ToDeletion(s, v, n)
    ensures v in Exec(s, NextDeletion(s, v, n)).value.vols || ToDeletion(s, v, n) == 1
  {
  }

  lemma {:induction false} DeletionRuns(s: State, v: nat, n: Namespace) returns (acts: seq<Action>, t: State)
    requires GivenUp(s, v, n) && Leaving(s, v, n)
    ensures LeadsBy(s, acts, t) && v !in t.vols
    ensures |acts| <= ToDeletion(s, v, n) && forall a | a in acts :: Deletes(a, v, n)
    decreases ToDeletion(s, v, n)
  {
    DeletionStep(s, v, n);
    var a := NextDeletion(s, v, n);
    var s' := Exec(s, a).value;
    if v in s'.vols {
      var rest;
      rest, t := DeletionRuns(s', v, n);
      acts := [a] + rest;
      assert acts[1..] == rest;
    } else {
      acts, t := [a], s';
      assert LeadsBy(s', [], t);
    }
  }

  /** A volume that is given up is deleted within four steps of its namespace's
      call and the controller. */
  lemma GivenUpIsDeleted(s: State, v: nat, n: Namespace) returns (acts: seq<Action>, t: State)
    requires Reachable(s) && GivenUp(s, v, n)
    ensures LeadsBy(s, acts, t) && v !in t.vols
    ensures |acts| <= 4 && forall a | a in acts :: Deletes(a, v, n)
  {
    var states, run :| IsRun(states, run) && s == states[|run|];
    LeavesSoFar(states, run, |run|);
    assert HeldFor(s, v, User(n)) && LeavesOne(s, v, n);
    acts, t := DeletionRuns(s, v, n);
  }

  /* ----- Deleting for good ----- */

  lemma ThreeSteps(s: State, s1: State, s2: State, s3: State, a: Action, b: Action, c: Action)
    requires Exec(s, a) == Some(s1) && Exec(s1, b) == Some(s2) && Exec(s2, c) == Some(s3)
    ensures LeadsBy(s, [a, b, c], s3)
  {
    assert LeadsBy(s3, [], s3);
    assert [c][1..] == [] && [b, c][1..] == [c] && [a, b, c][1..] == [b, c];
    assert LeadsBy(s2, [c], s3);
    assert LeadsBy(s1, [b, c], s3);
  }

  /** PermanentlyDeletePVC, called when the namespace's claim names a volume, takes
      it to where the volume has been given up. */
  lemma DeletionGivesUp(s: State, n: Namespace, v: nat) returns (s': State)
    requires Reachable(s) && s.At(n).Idle? && User(n) in s.claims && s.claims[User(n)].volumeName == Some(v)
    ensures Reachable(s') && GivenUp(s', v, n) && s'.At(n) == DeleteClaim
    ensures LeadsBy(s, [StartDelete(n), Read(n), Update(n)], s')
  {
    ReachableOk(s);
    Knows(s, n);
    var s1 := Exec(s, StartDelete(n)).value;
    assert s1 == s.Go(n, Forget(v, None));
    StepReaches(s, StartDelete(n), s1);
    var s2 := Exec(s1, Read(n)).value;
    assert s2.At(n) == Forget(v, Some(s.vols[v]));
    StepReaches(s1, Read(n), s2);
    s' := Exec(s2, Update(n)).value;
    StepReaches(s2, Update(n), s');
    ThreeSteps(s, s1, s2, s', StartDelete(n), Read(n), Update(n));
  }

  lemma {:induction false} LeadsOn(s: State, acts: seq<Action>, t: State, more: seq<Action>, u: State)
    requires LeadsBy(s, acts, t) && LeadsBy(t, more, u)
    ensures LeadsBy(s, acts + more, u)
    decreases |acts|
  {
    if acts == [] {
      assert acts + more == more;
    } else {
      LeadsOn(Exec(s, acts[0]).value, acts[1..], t, more, u);
      assert (acts + more)[1..] == acts[1..] + more;
    }
  }

  /** From every reachable state in which nothing is under way for a namespace whose
      claim names a volume, deleting for good starts a run of the namespace's own
      call and the controller, of seven steps at most, that ends without it. */
  lemma DeletedForGood(s: State, n: Namespace, v: nat) returns (acts: seq<Action>, t: State)
    requires Reachable(s) && s.At(n).Idle? && User(n) in s.claims && s.claims[User(n)].volumeName == Some(v)
    ensures v in s.vols && LeadsBy(s, acts, t) && v !in t.vols
    ensures 3 < |acts| <= 7 && acts[..3] == [StartDelete(n), Read(n), Update(n)]
    ensures forall a | a in acts[3..] :: Deletes(a, v, n)
  {
    ReachableOk(s);
    Knows(s, n);
    var s' := DeletionGivesUp(s, n, v);
    var rest;
    rest, t := GivenUpIsDeleted(s', v, n);
    var first := [StartDelete(n), Read(n), Update(n)];
    LeadsOn(s, first, s', rest, t);
    acts := first + rest;
    assert rest != [] by {
      assert v in s'.vols;
    }
    assert acts[3..] == rest;
  }

  /* ----- Or gets a label ----- */

  ghost predicate Settled(s: State, v: nat) {
    v in s.vols ==> s.vols[v].owner.Some?
  }

  ghost predicate CanSettle(s: State, v: nat) {
    exists t :: Leads(s, t) && Settled(t, v)
  }

  lemma IsSettled(s: State, v: nat)
    requires Settled(s, v)
    ensures CanSettle(s, v)
  {
    assert LeadsBy(s, [], s);
    assert Leads(s, s);
  }

  lemma SettlesFirst(s: State, a: Action, v: nat)
    requires Exec(s, a).Some? && CanSettle(Exec(s, a).value, v)
    ensures CanSettle(s, v)
  {
    var t :| Leads(Exec(s, a).value, t) && Settled(t, v);
    var acts :| LeadsBy(Exec(s, a).value, acts, t);
    assert ([a] + acts)[1..] == acts;
    assert LeadsBy(s, [a] + acts, t);
  }

  lemma {:induction false} SeededIsLabelled(s: State, v: nat, m: Namespace)
    requires Inv(s) && SeedsWork(s) && HeldFor(s, v, Seed(m))
    ensures CanSettle(s, v)
    decreases ToRelease(s, m, v)
  {
    ComesCloser(s, v, m);
    var a := NextRelease(s, m, v);
    var s' := Exec(s, a).value;
    if HeldFor(s', v, Seed(m)) {
      SeededIsLabelled(s', v, m);
    } else {
      IsSettled(s', v);
    }
    SettlesFirst(s, a, v);
  }

  /** From every reachable state, a volume can get a label, or be deleted. */
  lemma NoVolumeLeftBehind(s: State, v: nat)
    requires Reachable(s)
    ensures CanSettle(s, v)
  {
    if v !in s.vols || s.vols[v].owner.Some? {
      IsSettled(s, v);
    } else {
      EveryVolumeHasAFate(s, v);
      if m :| HeldFor(s, v, Seed(m)) && SeedWorks(s, m, v) {
        ReachableOk(s);
        SeedsAlwaysWork(s);
        SeededIsLabelled(s, v, m);
      } else {
        var n :| GivenUp(s, v, n) && Leaving(s, v, n);
        var acts, t := GivenUpIsDeleted(s, v, n);
        assert Leads(s, t) && Settled(t, v);
      }
    }
  }

  /* ----- A claim can always be had ----- */

  /** The call of `n` is about to make or to bind its claim, which nothing hinders. */
  ghost predicate AboutToGet(s: State, n: Namespace, v: nat) {
    v in s.vols && s.vols[v].claimRef.None? && AboutToBind(s, n, v)
  }

  lemma AboutToGetGets(s: State, n: Namespace, v: nat)
    requires Inv(s) && AboutToGet(s, n, v)
    ensures CanGetClaim(s, n, v)
  {
    Knows(s, n);
    if s.At(n) == CreateClaim(v) {
      FreeIsBound(s, n, v);
    } else {
      var s1 := Exec(s, BindClaim(n)).value;
      assert Exec(s1, SeeBound(n)).Some?;
      StandingStill(Exec(s1, SeeBound(n)).value, n, v);
      StepFirst(s1, SeeBound(n), n, v);
      StepFirst(s, BindClaim(n), n, v);
    }
  }

  /** A seed that holds a volume without a label ends in its namespace's claim. */
  lemma {:induction false} OwnSeedGets(s: State, n: Namespace, v: nat)
    requires Inv(s) && SeedsWork(s) && HeldFor(s, v, Seed(n)) && s.vols[v].owner.None?
    ensures CanGetClaim(s, n, v)
    decreases ToRelease(s, n, v)
  {
    ComesCloser(s, v, n);
    var a := NextRelease(s, n, v);
    var s' := Exec(s, a).value;
    if HeldFor(s', v, Seed(n)) {
      OwnSeedGets(s', n, v);
    } else {
      assert VolumeOk(s', v);
      AboutToGetGets(s', n, v);
    }
    StepFirst(s, a, n, v);
  }

  /** CreatePVC for a namespace without a volume: the lookup finds none, and a seed
      is provisioned. */
  lemma NewVolumeGets(s: State, n: Namespace)
    requires Reachable(s) && s.At(n).Idle? && User(n) !in s.claims && Unlabelled(s, n)
    ensures exists v :: CanGetClaim(s, n, v)
  {
    ReachableOk(s);
    Knows(s, n);
    var s1 := Exec(s, StartCreate(n)).value;
    StepReaches(s, StartCreate(n), s1);
    assert Unlabelled(s1, n);
    var s2 := Exec(s1, FindNone(n)).value;
    StepReaches(s1, FindNone(n), s2);
    var s3 := Exec(s2, MakeSeed(n)).value;
    StepReaches(s2, MakeSeed(n), s3);
    var s4 := Exec(s3, Provision(n)).value;
    StepReaches(s3, Provision(n), s4);
    ReachableOk(s4);
    SeedsAlwaysWork(s4);
    var v := s3.nextVol;
    OwnSeedGets(s4, n, v);
    StepFirst(s3, Provision(n), n, v);
    StepFirst(s2, MakeSeed(n), n, v);
    StepFirst(s1, FindNone(n), n, v);
    StepFirst(s, StartCreate(n), n, v);
  }

  /** CreatePVC for one with a volume, once the controller has marked it. */
  lemma OwnVolumeGets(s: State, n: Namespace, v: nat)
    requires Reachable(s) && s.At(n).Idle? && User(n) !in s.claims && v in s.vols && s.vols[v].owner == Some(n)
    ensures CanGetClaim(s, n, v)
  {
    ReachableOk(s);
    Knows(s, n);
    assert VolumeOk(s, v);
    var s1 := Exec(s, MarkReleased(v)).value;
    StepReaches(s, MarkReleased(v), s1);
    var s2 := Exec(s1, StartCreate(n)).value;
    StepReaches(s1, StartCreate(n), s2);
    ComesBackExactly(s2, n, v);
    StepFirst(s2, FindOwn(n, v), n, v);
    StepFirst(s1, StartCreate(n), n, v);
    StepFirst(s, MarkReleased(v), n, v);
  }

  /** From every reachable state in which nothing is under way for a namespace
      without a claim, CreatePVC can end with its claim bound, to its own volume if
      it has one. */
  lemma CreationCanComplete(s: State, n: Namespace)
    requires Reachable(s) && s.At(n).Idle? && User(n) !in s.claims
    ensures exists v :: CanGetClaim(s, n, v) && (Unlabelled(s, n) || (v in s.vols && s.vols[v].owner == Some(n)))
  {
    if Unlabelled(s, n) {
      NewVolumeGets(s, n);
    } else {
      var v :| v in s.vols && s.vols[v].owner == Some(n);
      OwnVolumeGets(s, n, v);
    }
  }
}
