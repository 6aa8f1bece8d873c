/** What the persistent-volume protocol guarantees over whole runs. */
module VolumeRuns {
  import opened Wrappers
  import opened Volumes
  import opened VolumeSteps

  /* ----- Whole runs ----- */

  /** The states that a list of actions leads through, from the start. */
  ghost predicate IsRun(states: seq<State>, acts: seq<Action>) {
    && |states| == |acts| + 1 && states[0] == START
    && forall i {:trigger acts[i]} | 0 <= i < |acts| :: Exec(states[i], acts[i]) == Some(states[i + 1])
  }

  ghost predicate Reachable(s: State) {
    exists states, acts :: IsRun(states, acts) && s == states[|acts|]
  }

  /** Every state of a run is in order. */
  lemma {:induction false} RunKeepsInv(states: seq<State>, acts: seq<Action>, k: nat)
    requires IsRun(states, acts) && k <= |acts|
    ensures Inv(states[k])
  {
    if k > 0 {
      RunKeepsInv(states, acts, k - 1);
      var a := acts[k - 1];
      StepKeepsInv(states[k - 1], a);
    }
  }

  lemma ReachableOk(s: State)
    requires Reachable(s)
    ensures Inv(s)
  {
    var states, acts :| IsRun(states, acts) && s == states[|acts|];
    RunKeepsInv(states, acts, |acts|);
  }

  /** The claim of a namespace is for a volume with its own label, or for one it
      has itself given up for deletion and that nobody else can bind. */
  lemma ClaimsNameOwnVolumes(s: State, n: Namespace)
    requires Reachable(s) && User(n) in s.claims
    ensures s.claims[User(n)].volumeName.Some? && s.claims[User(n)].volumeName.value in s.vols
    ensures var pv := s.vols[s.claims[User(n)].volumeName.value];
      || pv.owner == Some(n)
      || (pv.owner.None? && pv.reclaim == DeleteIt && pv.claimRef.Some? && pv.claimRef.value.key == User(n))
  {
    ReachableOk(s);
    assert ClaimOk(s, n);
  }

  lemma NoTwoClaimsForOneVolume(s: State, n: Namespace, m: Namespace)
    requires Reachable(s) && User(n) in s.claims && User(m) in s.claims
    requires s.claims[User(n)].volumeName == s.claims[User(m)].volumeName
    ensures n == m
  {
    ClaimsNameOwnVolumes(s, n);
    ClaimsNameOwnVolumes(s, m);
  }

  /** A volume is only up for grabs while it has an owner to claim it back. */
  lemma UnlabelledIsNeverAvailable(s: State, v: nat)
    requires Reachable(s) && v in s.vols && s.vols[v].owner.None?
    ensures s.vols[v].phase != Available && s.vols[v].claimRef.Some?
  {
    ReachableOk(s);
    assert VolumeOk(s, v);
  }

  /** Looking up a namespace's volume never finds two. */
  lemma OneVolumeEach(s: State, v: nat, w: nat)
    requires Reachable(s) && v in s.vols && w in s.vols
    requires s.vols[v].owner.Some? && s.vols[v].owner == s.vols[w].owner
    ensures v == w
  {
    ReachableOk(s);
  }

  /** A namespace's volume stays, and stays its own, whatever anybody does but
      the namespace deleting it for good. */
  lemma OnlyOwnerLetsGo(s: State, a: Action, v: nat, n: Namespace)
    requires Reachable(s) && Exec(s, a).Some?
    requires v in s.vols && s.vols[v].owner == Some(n) && !(a == Update(n) && s.At(n).Forget?)
    ensures v in Exec(s, a).value.vols && Exec(s, a).value.vols[v].owner == Some(n)
  {
    ReachableOk(s);
    assert VolumeOk(s, v) && (a.Update? ==> PcOk(s, a.n));
    if a.Update? {
      UpdateKeepsOwner(s, a.n, v, n);
    }
    if a.Provision? {
      assert v < s.nextVol;
    }
  }

  lemma UpdateKeepsOwner(s: State, m: Namespace, v: nat, n: Namespace)
    requires UpdateStep(s, m).Some? && v in s.vols && s.vols[v].owner == Some(n)
    requires PcOk(s, m) && !(m == n && s.At(n).Forget?)
    requires VolumeOk(s, v)
    ensures v in UpdateStep(s, m).value.vols && UpdateStep(s, m).value.vols[v].owner == Some(n)
  {
  }

  /** A call that reports a volume as claimed has labelled it, though the report
      is remembered across refused updates, and goes on to ask for that volume;
      one that does not has handed an owned volume back as it was. */
  lemma ReportedIsLabelled(s: State, n: Namespace)
    requires Reachable(s) && s.At(n).ClaimSeeded? && s.At(n).snap.Some?
    ensures s.At(n).vol in s.vols && UpdateStep(s, n).Some?
    ensures var v, s' := s.At(n).vol, UpdateStep(s, n).value;
      && v in s'.vols
      && (|| (s'.At(n) == CreateClaim(v) && s.vols[v].owner.None? && s'.vols[v].owner == Some(n)
              && s'.vols[v].claimRef.None?)
          || (s'.At(n) == CreateSeed(s.At(n).i + 1) && s.vols[v].owner.Some? && s'.vols[v].owner == s.vols[v].owner
              && s'.vols[v].claimRef.None?)
          || (s'.At(n).ClaimSeeded? && s'.vols == s.vols))
  {
    ReachableOk(s);
    assert PcOk(s, n);
  }

  /** Nobody ever finds bound the volume it is about to make available, so this never
      ends a call. */
  lemma NeverAborted(s: State, n: Namespace)
    requires Reachable(s) && (s.At(n).ReleaseOwn? || s.At(n).ClaimSeeded?) && s.At(n).snap.Some?
    ensures s.At(n).snap.value.phase != Bound
    ensures MakeAvailable(s.At(n).snap.value).Some? && MakeAvailable(Label(n, s.At(n).snap.value)).Some?
  {
    ReachableOk(s);
    assert PcOk(s, n);
  }

  predicate HasRead(pc: Pc, v: nat) {
    Working(pc, v) && (pc.ReleaseOwn? || pc.RetainSeeded? || pc.ClaimSeeded? || pc.Forget?) && pc.snap.Some?
  }

  lemma ReadIsOk(s: State, n: Namespace, v: nat)
    requires Reachable(s) && v in s.vols && HasRead(s.At(n), v)
    ensures s.At(n).snap.value.version <= s.vols[v].version
    ensures !s.At(n).RetainSeeded? && !s.At(n).Forget? ==> s.At(n).snap.value.phase != Bound
  {
    ReachableOk(s);
    assert PcOk(s, n) && SnapOk(s, v, s.At(n).snap);
  }

  /** An update that somebody else's write has overtaken changes nothing, and is tried
      again from the read. */
  lemma OvertakenIsRefused(s: State, n: Namespace, v: nat)
    requires Reachable(s) && v in s.vols && HasRead(s.At(n), v)
    ensures Exec(s, Touch(v)).Some?
    ensures var s1 := Exec(s, Touch(v)).value;
      var r := Exec(s1, Update(n));
      && r.Some? && r.value.vols == s1.vols && r.value.claims == s.claims
      && Working(r.value.At(n), v) && !HasRead(r.value.At(n), v)
  {
    ReadIsOk(s, n, v);
    var s1 := s.Write(v, s.vols[v]);
    assert s1.At(n) == s.At(n) && s1.vols[v].version > s.At(n).snap.value.version;
  }

  /** A volume that a namespace has given up: without a label, it is only kept
      by the namespace's own claim. */
  predicate GivenUp(s: State, v: nat, n: Namespace) {
    v in s.vols && s.vols[v].owner.None? && s.vols[v].reclaim == DeleteIt
    && s.vols[v].claimRef.Some? && s.vols[v].claimRef.value.key == User(n)
  }

  /** Deleting for good either gives the volume up, or tries again, or finds that
      it is not there. */
  lemma DeletingGivesUp(s: State, n: Namespace)
    requires Reachable(s) && s.At(n).Forget? && s.At(n).snap.Some?
    ensures UpdateStep(s, n).Some?
    ensures var v, s' := s.At(n).vol, UpdateStep(s, n).value;
      || (s'.At(n) == DeleteClaim && GivenUp(s', v, n))
      || (s'.At(n) == Forget(v, None) && s'.vols == s.vols)
      || (s'.At(n) == Idle && v !in s.vols && s'.vols == s.vols)
  {
    ReachableOk(s);
    assert PcOk(s, n);
  }

  /** What is given up is not taken up again by anybody: it stays as it is until it
      is deleted. */
  lemma GivenUpStaysGivenUp(s: State, a: Action, v: nat, n: Namespace)
    requires Reachable(s) && Exec(s, a).Some? && GivenUp(s, v, n)
    ensures v in Exec(s, a).value.vols ==> GivenUp(Exec(s, a).value, v, n)
    ensures v !in Exec(s, a).value.vols ==> a == DeleteVolume(v)
  {
    ReachableOk(s);
    assert VolumeOk(s, v) && (a.Update? ==> PcOk(s, a.n));
    if a.Update? {
      UpdateKeepsGivenUp(s, a.n, v, n);
    } else {
      OthersKeepGivenUp(s, a, v, n);
    }
  }

  lemma OthersKeepGivenUp(s: State, a: Action, v: nat, n: Namespace)
    requires Exec(s, a).Some? && !a.Update? && GivenUp(s, v, n) && v < s.nextVol
    ensures v in Exec(s, a).value.vols ==> GivenUp(Exec(s, a).value, v, n)
    ensures v !in Exec(s, a).value.vols ==> a == DeleteVolume(v)
  {
  }

  lemma UpdateKeepsGivenUp(s: State, m: Namespace, v: nat, n: Namespace)
    requires UpdateStep(s, m).Some? && GivenUp(s, v, n) && PcOk(s, m)
    ensures GivenUp(UpdateStep(s, m).value, v, n)
  {
  }

  /** A namespace that has found its own volume released frees it for its next
      claim, or is refused and tries again. */
  lemma ComingBackFreesVolume(s: State, n: Namespace)
    requires Reachable(s) && s.At(n).ReleaseOwn? && s.At(n).snap.Some?
    ensures s.At(n).vol in s.vols && UpdateStep(s, n).Some?
    ensures var v, s' := s.At(n).vol, UpdateStep(s, n).value;
      || (s'.At(n) == CreateClaim(v) && v in s'.vols && s'.vols[v].owner == Some(n) && s'.vols[v].claimRef.None?)
      || (s'.At(n) == ReleaseOwn(v, None) && s'.vols == s.vols)
  {
    ReachableOk(s);
    assert PcOk(s, n);
  }

  /* ----- Why the label is checked ----- */

  lemma StepReaches(s: State, a: Action, s': State)
    requires Reachable(s) && Exec(s, a) == Some(s')
    ensures Reachable(s')
  {
    var states, acts :| IsRun(states, acts) && s == states[|acts|];
    assert IsRun(states + [s'], acts + [a]);
  }

  lemma StartIsReachable()
    ensures Reachable(START)
  {
    assert IsRun([START], []);
  }

  /** Namespace `n` gets as far as waiting for its seed. */
  lemma AsksForSeed(s: State, n: Namespace) returns (s': State)
    requires Reachable(s) && s.At(n).Idle? && User(n) !in s.claims && Seed(n) !in s.claims && Unlabelled(s, n)
    ensures s' == s.(claims := s.claims[Seed(n) := Claim(s.nextUid, None, false, false)], nextUid := s.nextUid + 1,
                     pcs := s'.pcs)
    ensures Reachable(s') && s'.At(n) == AwaitSeed(0) && forall m | m != n :: s'.At(m) == s.At(m)
  {
    var s1 := s.Go(n, LookUp);
    StepReaches(s, StartCreate(n), s1);
    var s2 := s1.Go(n, CreateSeed(0));
    StepReaches(s1, FindNone(n), s2);
    s' := s2.(claims := s.claims[Seed(n) := Claim(s.nextUid, None, false, false)], nextUid := s.nextUid + 1)
          .Go(n, AwaitSeed(0));
    StepReaches(s2, MakeSeed(n), s');
  }

  /** ... to seeing which volume it was given ... */
  lemma SeesSeed(s: State, n: Namespace, i: nat, v: nat) returns (s': State)
    requires Reachable(s) && s.At(n) == AwaitSeed(i) && v in s.vols
    requires Seed(n) in s.claims && s.claims[Seed(n)].volumeName == Some(v)
    ensures s' == s.(pcs := s'.pcs) && Reachable(s') && s'.At(n) == RetainSeeded(i, v, Some(s.vols[v]))
    ensures forall m | m != n :: s'.At(m) == s.At(m)
  {
    var s1 := s.Go(n, RetainSeeded(i, v, None));
    StepReaches(s, SeeSeedBound(n), s1);
    s' := s1.Go(n, RetainSeeded(i, v, Some(s.vols[v])));
    StepReaches(s1, Read(n), s');
  }

  /** ... to retaining it, and letting go of the seed ... */
  lemma RetainsSeeded(s: State, n: Namespace, i: nat, v: nat) returns (s': State)
    requires Reachable(s) && v in s.vols && s.At(n) == RetainSeeded(i, v, Some(s.vols[v]))
    ensures s' == s.(vols := s.vols[v := Retain(s.vols[v]).(version := s.vols[v].version + 1)], pcs := s'.pcs)
    ensures Reachable(s') && s'.At(n) == DeleteSeed(i, v) && forall m | m != n :: s'.At(m) == s.At(m)
  {
    s' := s.Write(v, Retain(s.vols[v])).Go(n, DeleteSeed(i, v));
    StepReaches(s, Update(n), s');
  }

  lemma DropsSeed(s: State, n: Namespace, i: nat, v: nat) returns (s': State)
    requires Reachable(s) && s.At(n) == DeleteSeed(i, v) && Seed(n) in s.claims
    ensures s' == s.(claims := s'.claims, pcs := s'.pcs) && forall key :: key in s'.claims <==>
              key in s.claims && key != Seed(n)
    ensures Reachable(s') && s'.At(n) == AwaitReleased(i, v) && forall m | m != n :: s'.At(m) == s.At(m)
  {
    var s1 := s.(claims := s.claims[Seed(n) := s.claims[Seed(n)].(deleting := true)]).Go(n, AwaitReleased(i, v));
    StepReaches(s, DropSeed(n), s1);
    s' := s1.(claims := s1.claims - {Seed(n)});
    StepReaches(s1, RemoveClaim(Seed(n)), s');
  }

  lemma SeesRelease(s: State, n: Namespace, i: nat, v: nat) returns (s': State)
    requires Reachable(s) && s.At(n) == AwaitReleased(i, v) && v in s.vols && Seed(n) !in s.claims
    requires s.vols[v].claimRef.Some? && s.vols[v].claimRef.value.key == Seed(n)
    ensures s' == s.(vols := s.vols[v := s.vols[v].(phase := Released, version := s.vols[v].version + 1)],
              pcs := s'.pcs)
    ensures Reachable(s') && s'.At(n) == ClaimSeeded(i, v, None, false) && forall m | m != n :: s'.At(m) == s.At(m)
  {
    var s1 := s.Write(v, s.vols[v].(phase := Released));
    StepReaches(s, MarkReleased(v), s1);
    s' := s1.Go(n, ClaimSeeded(i, v, None, false));
    StepReaches(s1, SeeReleased(n), s');
  }

  /** ... to owning a volume that no claim refers to. */
  lemma Labels(s: State, n: Namespace, v: nat) returns (s': State)
    requires Reachable(s) && s.At(n) == ClaimSeeded(0, v, None, false) && v in s.vols
    requires s.vols[v].owner.None? && s.vols[v].phase == Released
    ensures Reachable(s') && s' == s.(vols := s'.vols, pcs := s'.pcs) && s'.vols.Keys == s.vols.Keys
    ensures s'.vols[v].owner == Some(n) && s'.vols[v].claimRef.None?
    ensures s'.At(n) == CreateClaim(v) && forall m | m != n :: s'.At(m) == s.At(m)
  {
    var s1 := s.Go(n, ClaimSeeded(0, v, Some(s.vols[v]), false));
    StepReaches(s, Read(n), s1);
    s' := s1.Write(v, Label(n, s.vols[v]).(claimRef := None)).Go(n, CreateClaim(v));
    StepReaches(s1, Update(n), s');
  }

  lemma IsProvisioned(s: State, n: Namespace) returns (s': State)
    requires Reachable(s) && Seed(n) in s.claims && s.claims[Seed(n)].volumeName.None?
    ensures Reachable(s') && s'.pcs == s.pcs && s'.claims.Keys == s.claims.Keys
    ensures s'.claims[Seed(n)].volumeName == Some(s.nextVol)
    ensures s'.vols == s.vols[s.nextVol := Volume(None, Bound, Some(Ref(Seed(n), s.claims[Seed(n)].uid)), DeleteIt, 0)]
  {
    var c := s.claims[Seed(n)];
    s' := s.(vols := s.vols[s.nextVol := Volume(None, Bound, Some(Ref(Seed(n), c.uid)), DeleteIt, 0)],
             nextVol := s.nextVol + 1, claims := s.claims[Seed(n) := c.(volumeName := Some(s.nextVol), bound := true)]);
    StepReaches(s, Provision(n), s');
  }

  lemma ComesToHold(n: Namespace) returns (s: State)
    ensures Reachable(s) && s.At(n) == AwaitSeed(0) && s.claims.Keys == {Seed(n)}
              && s.claims[Seed(n)].volumeName == Some(0)
    ensures s.vols == map[0 := Volume(None, Bound, Some(Ref(Seed(n), 0)), DeleteIt, 0)]
    ensures forall m | m != n :: s.At(m).Idle?
  {
    StartIsReachable();
    var s1 := AsksForSeed(START, n);
    assert s1.claims == map[Seed(n) := Claim(0, None, false, false)];
    assert s1.vols == map[] && s1.nextVol == 0;
    s := IsProvisioned(s1, n);
    assert s.claims.Keys == {Seed(n)};
    forall m | m != n ensures s.At(m).Idle? {
      assert s1.At(m) == START.At(m);
    }
  }

  lemma ComesToOwn(n: Namespace) returns (s: State)
    ensures Reachable(s) && s.At(n) == CreateClaim(0) && s.vols.Keys == {0} && s.claims.Keys == {}
    ensures s.vols[0].owner == Some(n) && s.vols[0].claimRef.None?
    ensures forall m | m != n :: s.At(m).Idle?
  {
    var s1 := ComesToHold(n);
    var seen := SeesSeed(s1, n, 0, 0);
    var s2 := RetainsSeeded(seen, n, 0, 0);
    var s3 := DropsSeed(s2, n, 0, 0);
    assert s3.claims.Keys == {};
    var s4 := SeesRelease(s3, n, 0, 0);
    assert s4.vols.Keys == {0} && s4.vols[0].owner.None?;
    s := Labels(s4, n, 0);
  }

  /** A seed may well be given a volume that somebody else owns: one on its way
      from the seed of its owner to the claim of its owner. */
  lemma SeedMayTakeAnOwnedVolume(n: Namespace, m: Namespace) returns (s: State)
    requires n != m
    ensures Reachable(s) && 0 in s.vols && s.vols[0].owner == Some(n)
    ensures Seed(m) in s.claims && s.claims[Seed(m)].volumeName == Some(0)
  {
    var s1 := ComesToOwn(n);
    var available := s1.Write(0, s1.vols[0].(phase := Available));
    StepReaches(s1, MarkAvailable(0), available);
    assert available.At(m) == s1.At(m);
    var s2 := AsksForSeed(available, m);
    var c := s2.claims[Seed(m)];
    s := s2.Write(0, s2.vols[0].(phase := Bound, claimRef := Some(Ref(Seed(m), c.uid))))
         .(claims := s2.claims[Seed(m) := c.(volumeName := Some(0), bound := true)]);
    StepReaches(s2, BindSeed(m, 0), s);
  }

  /* ----- Eight attempts ----- */

  /** The attempt that a call is at. */
  function Attempt(pc: Pc): nat
    requires InLoop(pc)
  {
    match pc
    case CreateSeed(i) => i
    case AwaitSeed(i) => i
    case RetainSeeded(i, _, _) => i
    case DeleteSeed(i, _) => i
    case AwaitReleased(i, _) => i
    case ClaimSeeded(i, _, _, _) => i
  }

  predicate AttemptOk(pc: Pc) {
    InLoop(pc) ==> Attempt(pc) < 8 || pc == CreateSeed(8)
  }

  lemma UpdateKeepsAttempt(s: State, m: Namespace, n: Namespace)
    requires UpdateStep(s, m).Some? && AttemptOk(s.At(n))
    ensures AttemptOk(UpdateStep(s, m).value.At(n))
  {
  }

  lemma ReadKeepsAttempt(s: State, m: Namespace, n: Namespace)
    requires ReadStep(s, m).Some? && AttemptOk(s.At(n))
    ensures AttemptOk(ReadStep(s, m).value.At(n))
  {
  }

  lemma StepKeepsAttempt(s: State, a: Action, n: Namespace)
    requires Exec(s, a).Some? && AttemptOk(s.At(n))
    ensures AttemptOk(Exec(s, a).value.At(n))
  {
    if a.Update? {
      UpdateKeepsAttempt(s, a.n, n);
    } else if a.Read? {
      ReadKeepsAttempt(s, a.n, n);
    } else {
      OtherKeepsAttempt(s, a, n);
    }
  }

  lemma OtherKeepsAttempt(s: State, a: Action, n: Namespace)
    requires Exec(s, a).Some? && !a.Update? && !a.Read? && AttemptOk(s.At(n))
    ensures AttemptOk(Exec(s, a).value.At(n))
  {
  }

  lemma NextAttempt(states: seq<State>, acts: seq<Action>, i: nat, n: Namespace)
    requires IsRun(states, acts) && i < |acts| && AttemptOk(states[i].At(n))
    ensures AttemptOk(states[i + 1].At(n))
  {
    var a := acts[i];
    StepKeepsAttempt(states[i], a, n);
  }

  lemma {:induction false} AttemptsSoFar(states: seq<State>, acts: seq<Action>, k: nat, n: Namespace)
    requires IsRun(states, acts) && k <= |acts|
    ensures AttemptOk(states[k].At(n))
  {
    if k > 0 {
      AttemptsSoFar(states, acts, k - 1, n);
      NextAttempt(states, acts, k - 1, n);
    }
  }

  /** No call makes a ninth seed; one that would ends there. */
  lemma AtMostEightAttempts(s: State, n: Namespace)
    requires Reachable(s) && InLoop(s.At(n))
    ensures s.At(n).CreateSeed? ==> Attempt(s.At(n)) <= 8
    ensures !s.At(n).CreateSeed? ==> Attempt(s.At(n)) < 8
    ensures s.At(n) == CreateSeed(8) ==> Exec(s, MakeSeed(n)) == Some(s.Go(n, Idle))
  {
    var states, acts :| IsRun(states, acts) && s == states[|acts|];
    AttemptsSoFar(states, acts, |acts|, n);
  }

  /** Volume 0 belongs to `m`, which is about to claim it, and `n` is at attempt `i`. */
  ghost predicate Contended(s: State, n: Namespace, m: Namespace, i: nat) {
    && m != n && Reachable(s) && s.At(n) == CreateSeed(i) && Seed(n) !in s.claims
    && s.vols.Keys == {0} && s.vols[0].owner == Some(m) && s.vols[0].claimRef.None?
  }

  /** The seed is given the other's volume, which is handed back. */
  lemma HandsBack(s: State, n: Namespace, m: Namespace, i: nat) returns (s': State)
    requires Contended(s, n, m, i) && i < 8
    ensures Contended(s', n, m, i + 1)
  {
    var s1 := Exec(s, MakeSeed(n)).value;
    StepReaches(s, MakeSeed(n), s1);
    var s2 := Exec(s1, MarkAvailable(0)).value;
    StepReaches(s1, MarkAvailable(0), s2);
    var s3 := Exec(s2, BindSeed(n, 0)).value;
    StepReaches(s2, BindSeed(n, 0), s3);
    s' := ReturnsSeeded(s3, n, m, i);
  }

  lemma ReturnsSeeded(s: State, n: Namespace, m: Namespace, i: nat) returns (s': State)
    requires m != n && Reachable(s) && s.At(n) == AwaitSeed(i) && i < 8
    requires Seed(n) in s.claims && s.claims[Seed(n)].volumeName == Some(0)
    requires s.vols.Keys == {0} && s.vols[0].owner == Some(m) && HeldFor(s, 0, Seed(n))
    ensures Contended(s', n, m, i + 1)
  {
    var s1 := SeesSeed(s, n, i, 0);
    var s2 := RetainsSeeded(s1, n, i, 0);
    var s3 := DropsSeed(s2, n, i, 0);
    var s4 := SeesRelease(s3, n, i, 0);
    var s5 := s4.Go(n, ClaimSeeded(i, 0, Some(s4.vols[0]), false));
    StepReaches(s4, Read(n), s5);
    s' := s5.Write(0, s4.vols[0].(claimRef := None)).Go(n, CreateSeed(i + 1));
    StepReaches(s5, Update(n), s');
  }

  /** Some run makes all eight attempts, and gives up. */
  lemma {:induction false} MakesAttempts(n: Namespace, m: Namespace, i: nat) returns (s: State)
    requires n != m && i <= 8
    ensures Contended(s, n, m, i)
  {
    if i == 0 {
      var s1 := ComesToOwn(m);
      assert s1.At(n).Idle?;
      var s2 := s1.Go(n, LookUp);
      StepReaches(s1, StartCreate(n), s2);
      s := s2.Go(n, CreateSeed(0));
      StepReaches(s2, FindNone(n), s);
    } else {
      s := MakesAttempts(n, m, i - 1);
      s := HandsBack(s, n, m, i - 1);
    }
  }
}
