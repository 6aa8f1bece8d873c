/** Every step of the persistent-volume protocol keeps its invariant. A step is
    local: it concerns one volume, and the call and claims of one namespace. */
module VolumeSteps {
  import opened Wrappers
  import opened Volumes

  /* ----- One step at a time ----- */

  ghost predicate SameClaim(s: State, s': State, key: ClaimKey) {
    && (key in s'.claims <==> key in s.claims)
    && (key in s.claims ==> s'.claims[key] == s.claims[key])
  }

  /** The call and the claims of `m` are as they were. */
  ghost predicate SameCall(s: State, s': State, m: Namespace) {
    s'.At(m) == s.At(m) && SameClaim(s, s', Seed(m)) && SameClaim(s, s', User(m))
  }

  /** A write that a call working on the volume need not notice before its own
      update is refused. */
  ghost predicate Nudged(pv: Volume, pv': Volume) {
    || pv' == pv
    || (pv'.version > pv.version && pv' == pv.(version := pv'.version, phase := pv'.phase)
        && (pv.phase == Released ==> pv'.phase == Released))
  }

  /** Volume `v` is still what the call of `m` takes it to be. */
  ghost predicate SameVolume(s: State, s': State, m: Namespace, v: nat) {
    && ((v in s'.vols && s'.vols[v].owner == Some(m)) <==> (v in s.vols && s.vols[v].owner == Some(m)))
    && (Working(s.At(m), v) ==>
          if v in s.vols && v in s'.vols then Nudged(s.vols[v], s'.vols[v]) else v !in s'.vols && s.At(m).Forget?)
  }

  /** The step changes nothing but volume `v` and what belongs to `n`. */
  ghost predicate Local(s: State, s': State, n: Option<Namespace>, v: nat) {
    && s.nextVol <= s'.nextVol && s.nextUid <= s'.nextUid
    && (forall m | Some(m) != n :: SameCall(s, s', m))
    && (forall m | Some(m) != n :: SameVolume(s, s', m, v))
    && (forall w | w != v :: (w in s'.vols <==> w in s.vols) && (w in s.vols ==> s'.vols[w] == s.vols[w]))
  }

  /** A volume held by somebody else's claim keeps its holder, and its owner. */
  ghost predicate KeepsHolder(s: State, s': State, n: Option<Namespace>, v: nat) {
    v in s.vols && s.vols[v].claimRef.Some? && Some(s.vols[v].claimRef.value.key.ns) != n
    && Exists(s, s.vols[v].claimRef.value) ==>
      && v in s'.vols
      && s'.vols[v].claimRef == s.vols[v].claimRef
      && s'.vols[v].owner == s.vols[v].owner
      && s'.vols[v].reclaim == s.vols[v].reclaim
  }

  /** A claim that is gone does not come back: a new one has a new identity. */
  ghost predicate NewIdentity(s: State, s': State, key: ClaimKey) {
    key in s'.claims ==> (key in s.claims && s'.claims[key].uid == s.claims[key].uid) || s'.claims[key].uid >= s.nextUid
  }

  /** What is left to show of a step once its effect is known to be local. */
  ghost predicate OkAt(s: State, s': State, n: Namespace, v: nat) {
    && PcOk(s', n)
    && (Seed(n) in s'.claims ==> SeedOk(s', n))
    && (User(n) in s'.claims ==> ClaimOk(s', n))
    && NewIdentity(s, s', Seed(n)) && NewIdentity(s, s', User(n))
    && (v in s'.vols && s'.vols[v].owner == Some(n) ==>
          (v in s.vols && s.vols[v].owner == Some(n)) || Unlabelled(s, n))
    && (forall w | w in s.vols && w != v && s.vols[w].owner == Some(n) && AboutToBind(s, n, w)
          :: AboutToBind(s', n, w) || HeldFor(s, w, User(n)))
  }

  lemma PcElsewhere(s: State, s': State, n: Option<Namespace>, v: nat, m: Namespace)
    requires PcOk(s, m) && Local(s, s', n, v) && Some(m) != n
    ensures PcOk(s', m)
  {
    assert SameCall(s, s', m) && SameVolume(s, s', m, v);
  }

  lemma AboutToBindElsewhere(s: State, s': State, n: Option<Namespace>, v: nat, w: nat, m: Namespace)
    requires Local(s, s', n, v) && Some(m) != n && AboutToBind(s, m, w)
    ensures AboutToBind(s', m, w)
  {
    assert SameCall(s, s', m);
  }

  lemma ExistsNoMore(s: State, s': State, n: Option<Namespace>, v: nat, r: Ref)
    requires Local(s, s', n, v) && r.uid < s.nextUid && !Exists(s, r)
    requires n.Some? ==> NewIdentity(s, s', Seed(n.value)) && NewIdentity(s, s', User(n.value))
    ensures !Exists(s', r)
  {
    if Some(r.key.ns) != n {
      assert SameCall(s, s', r.key.ns);
    }
    assert r.key == Seed(r.key.ns) || r.key == User(r.key.ns);
  }

  lemma VolumeElsewhere(s: State, s': State, n: Option<Namespace>, v: nat, w: nat)
    requires Local(s, s', n, v) && (n.Some? ==> OkAt(s, s', n.value, v))
    requires w in s.vols && w != v && VolumeOk(s, w)
    ensures w in s'.vols && VolumeOk(s', w)
  {
    var pv := s.vols[w];
    if pv.claimRef.Some? && pv.phase == Released {
      ExistsNoMore(s, s', n, v, pv.claimRef.value);
    }
    if pv.owner.Some? && !HeldFor(s, w, User(pv.owner.value)) && Some(pv.owner.value) != n {
      AboutToBindElsewhere(s, s', n, v, w, pv.owner.value);
    }
  }

  lemma SeedElsewhere(s: State, s': State, n: Option<Namespace>, v: nat, m: Namespace)
    requires Local(s, s', n, v) && KeepsHolder(s, s', n, v) && Some(m) != n
    requires Seed(m) in s.claims && SeedOk(s, m)
    ensures Seed(m) in s'.claims && SeedOk(s', m)
  {
    assert SameCall(s, s', m);
  }

  lemma ClaimElsewhere(s: State, s': State, n: Option<Namespace>, v: nat, m: Namespace)
    requires Local(s, s', n, v) && KeepsHolder(s, s', n, v) && Some(m) != n
    requires User(m) in s.claims && ClaimOk(s, m)
    ensures User(m) in s'.claims && ClaimOk(s', m)
  {
    assert SameCall(s, s', m) && SameVolume(s, s', m, v);
  }

  lemma OneEachElsewhere(s: State, s': State, n: Option<Namespace>, v: nat)
    requires OneEach(s) && Local(s, s', n, v) && (n.Some? ==> OkAt(s, s', n.value, v))
    ensures OneEach(s')
  {
    if v in s'.vols && s'.vols[v].owner.Some? && Some(s'.vols[v].owner.value) != n {
      assert SameVolume(s, s', s'.vols[v].owner.value, v);
    }
  }

  /** A local step keeps the invariant if it does so where it acts. */
  lemma LocalKeepsInv(s: State, s': State, n: Option<Namespace>, v: nat)
    requires Inv(s) && Local(s, s', n, v) && KeepsHolder(s, s', n, v)
    requires n.Some? ==> OkAt(s, s', n.value, v)
    requires v in s'.vols ==> VolumeOk(s', v)
    ensures Inv(s')
  {
    assert PcsOk(s') by {
      forall m ensures PcOk(s', m) {
        if Some(m) != n { PcElsewhere(s, s', n, v, m); }
      }
    }
    assert VolumesOk(s') by {
      forall w | w in s'.vols ensures VolumeOk(s', w) {
        if w != v { VolumeElsewhere(s, s', n, v, w); }
      }
    }
    assert SeedsOk(s') by {
      forall m | Seed(m) in s'.claims ensures SeedOk(s', m) {
        if Some(m) != n { assert SameCall(s, s', m); SeedElsewhere(s, s', n, v, m); }
      }
    }
    assert ClaimsOk(s') by {
      forall m | User(m) in s'.claims ensures ClaimOk(s', m) {
        if Some(m) != n { assert SameCall(s, s', m); ClaimElsewhere(s, s', n, v, m); }
      }
    }
    OneEachElsewhere(s, s', n, v);
  }

  lemma NextVolIsNew(s: State)
    requires Inv(s)
    ensures s.nextVol !in s.vols
  {
    forall v | v in s.vols ensures v < s.nextVol {
      assert VolumeOk(s, v);
    }
  }

  /** Steps that leave every volume alone. */
  lemma CallKeepsInv(s: State, s': State, n: Namespace)
    requires Inv(s) && s'.vols == s.vols && s.nextVol == s'.nextVol && s.nextUid <= s'.nextUid
    requires forall m | m != n :: SameCall(s, s', m)
    requires OkAt(s, s', n, s.nextVol)
    ensures Inv(s')
  {
    NextVolIsNew(s);
    forall m | m != n ensures SameVolume(s, s', m, s.nextVol) {
      assert PcOk(s, m);
    }
    LocalKeepsInv(s, s', Some(n), s.nextVol);
  }

  lemma Knows(s: State, n: Namespace)
    requires Inv(s)
    ensures PcOk(s, n)
    ensures Seed(n) in s.claims ==> SeedOk(s, n)
    ensures User(n) in s.claims ==> ClaimOk(s, n)
  {
  }

  lemma MoveKeepsInv(s: State, n: Namespace, pc: Pc)
    requires Inv(s) && OkAt(s, s.Go(n, pc), n, s.nextVol)
    ensures Inv(s.Go(n, pc))
  {
    CallKeepsInv(s, s.Go(n, pc), n);
  }

  lemma StartCreateKeepsInv(s: State, n: Namespace)
    requires Inv(s) && Exec(s, StartCreate(n)).Some?
    ensures Inv(Exec(s, StartCreate(n)).value)
  {
    if User(n) !in s.claims {
      Knows(s, n);
      MoveKeepsInv(s, n, LookUp);
    }
  }

  lemma FindKeepsInv(s: State, n: Namespace, pc: Pc)
    requires Inv(s) && s.At(n).LookUp?
    requires
      || (pc == CreateSeed(0) && Unlabelled(s, n))
      || exists v :: v in s.vols && s.vols[v].owner == Some(n) &&
           pc == if s.vols[v].phase == Released then ReleaseOwn(v, None) else CreateClaim(v)
    ensures Inv(s.Go(n, pc))
  {
    Knows(s, n);
    if pc != CreateSeed(0) {
      assert VolumeOk(s, pc.vol);
    }
    MoveKeepsInv(s, n, pc);
  }

  lemma ReadKeepsInv(s: State, n: Namespace)
    requires Inv(s) && ReadStep(s, n).Some?
    ensures Inv(ReadStep(s, n).value)
  {
    Knows(s, n);
    var pc := ReadStep(s, n).value.pcs[n];
    assert ReadStep(s, n).value == s.Go(n, pc);
    MoveKeepsInv(s, n, pc);
  }

  lemma SeeSeedBoundKeepsInv(s: State, n: Namespace)
    requires Inv(s) && Exec(s, SeeSeedBound(n)).Some?
    ensures Inv(Exec(s, SeeSeedBound(n)).value)
  {
    Knows(s, n);
    MoveKeepsInv(s, n, RetainSeeded(s.At(n).i, SeedOf(s, n).value.volumeName.value, None));
  }

  lemma SeeReleasedKeepsInv(s: State, n: Namespace)
    requires Inv(s) && Exec(s, SeeReleased(n)).Some?
    ensures Inv(Exec(s, SeeReleased(n)).value)
  {
    var v := s.At(n).vol;
    Knows(s, n);
    assert VolumeOk(s, v);
    MoveKeepsInv(s, n, ClaimSeeded(s.At(n).i, v, None, false));
  }

  lemma SeeBoundKeepsInv(s: State, n: Namespace)
    requires Inv(s) && Exec(s, SeeBound(n)).Some?
    ensures Inv(Exec(s, SeeBound(n)).value)
  {
    Knows(s, n);
    MoveKeepsInv(s, n, Idle);
  }

  lemma StartDeleteKeepsInv(s: State, n: Namespace)
    requires Inv(s) && Exec(s, StartDelete(n)).Some?
    ensures Inv(Exec(s, StartDelete(n)).value)
  {
    Knows(s, n);
    if ClaimOf(s, n).Some? {
      assert ClaimOk(s, n);
      var v := ClaimOf(s, n).value.volumeName.value;
      assert VolumeOk(s, v);
      MoveKeepsInv(s, n, Forget(v, None));
    }
  }

  lemma MakeSeedKeepsInv(s: State, n: Namespace)
    requires Inv(s) && Exec(s, MakeSeed(n)).Some?
    ensures Inv(Exec(s, MakeSeed(n)).value)
  {
    Knows(s, n);
    CallKeepsInv(s, Exec(s, MakeSeed(n)).value, n);
  }

  lemma DropSeedKeepsInv(s: State, n: Namespace)
    requires Inv(s) && Exec(s, DropSeed(n)).Some?
    ensures Inv(Exec(s, DropSeed(n)).value)
  {
    Knows(s, n);
    CallKeepsInv(s, Exec(s, DropSeed(n)).value, n);
  }

  lemma MakeClaimKeepsInv(s: State, n: Namespace)
    requires Inv(s) && Exec(s, MakeClaim(n)).Some?
    ensures Inv(Exec(s, MakeClaim(n)).value)
  {
    Knows(s, n);
    CallKeepsInv(s, Exec(s, MakeClaim(n)).value, n);
  }

  lemma DropClaimKeepsInv(s: State, n: Namespace)
    requires Inv(s) && Exec(s, DropClaim(n)).Some?
    ensures Inv(Exec(s, DropClaim(n)).value)
  {
    Knows(s, n);
    CallKeepsInv(s, Exec(s, DropClaim(n)).value, n);
  }

  lemma DownKeepsInv(s: State, n: Namespace)
    requires Inv(s) && Exec(s, Down(n)).Some?
    ensures Inv(Exec(s, Down(n)).value)
  {
    Knows(s, n);
    CallKeepsInv(s, Exec(s, Down(n)).value, n);
  }

  lemma RemoveClaimKeepsInv(s: State, key: ClaimKey)
    requires Inv(s) && Exec(s, RemoveClaim(key)).Some?
    ensures Inv(Exec(s, RemoveClaim(key)).value)
  {
    var n := key.ns;
    Knows(s, n);
    CallKeepsInv(s, Exec(s, RemoveClaim(key)).value, n);
  }

  /** The controller gives the seed a new volume. */
  lemma ProvisionKeepsInv(s: State, n: Namespace)
    requires Inv(s) && Exec(s, Provision(n)).Some?
    ensures Inv(Exec(s, Provision(n)).value)
  {
    var s' := Exec(s, Provision(n)).value;
    Knows(s, n);
    NextVolIsNew(s);
    forall m | m != n ensures SameVolume(s, s', m, s.nextVol) {
      assert PcOk(s, m);
    }
    LocalKeepsInv(s, s', Some(n), s.nextVol);
  }

  /** A volume without a claim reference is not being worked on. */
  lemma NotWorkedOn(s: State, s': State, v: nat, m: Namespace)
    requires PcOk(s, m) && v in s.vols && v in s'.vols && s.vols[v].claimRef.None?
    requires s'.vols[v].owner == s.vols[v].owner
    ensures SameVolume(s, s', m, v)
  {
  }

  lemma BindSeedKeepsInv(s: State, n: Namespace, v: nat)
    requires Inv(s) && Exec(s, BindSeed(n, v)).Some?
    ensures Inv(Exec(s, BindSeed(n, v)).value)
  {
    var s' := Exec(s, BindSeed(n, v)).value;
    Knows(s, n);
    assert VolumeOk(s, v);
    forall m | m != n ensures SameVolume(s, s', m, v) {
      NotWorkedOn(s, s', v, m);
    }
    LocalKeepsInv(s, s', Some(n), v);
  }

  lemma BindClaimKeepsInv(s: State, n: Namespace)
    requires Inv(s) && Exec(s, BindClaim(n)).Some?
    ensures Inv(Exec(s, BindClaim(n)).value)
  {
    var s' := Exec(s, BindClaim(n)).value;
    Knows(s, n);
    var v := s.claims[User(n)].volumeName.value;
    assert VolumeOk(s, v);
    forall m | m != n ensures SameVolume(s, s', m, v) {
      NotWorkedOn(s, s', v, m);
    }
    LocalKeepsInv(s, s', Some(n), v);
  }

  lemma MarkAvailableKeepsInv(s: State, v: nat)
    requires Inv(s) && Exec(s, MarkAvailable(v)).Some?
    ensures Inv(Exec(s, MarkAvailable(v)).value)
  {
    var s' := Exec(s, MarkAvailable(v)).value;
    assert VolumeOk(s, v);
    forall m ensures SameVolume(s, s', m, v) {
      NotWorkedOn(s, s', v, m);
    }
    LocalKeepsInv(s, s', None, v);
  }

  lemma MarkReleasedKeepsInv(s: State, v: nat)
    requires Inv(s) && Exec(s, MarkReleased(v)).Some?
    ensures Inv(Exec(s, MarkReleased(v)).value)
  {
    assert VolumeOk(s, v);
    LocalKeepsInv(s, Exec(s, MarkReleased(v)).value, None, v);
  }

  lemma TouchKeepsInv(s: State, v: nat)
    requires Inv(s) && Exec(s, Touch(v)).Some?
    ensures Inv(Exec(s, Touch(v)).value)
  {
    assert VolumeOk(s, v);
    LocalKeepsInv(s, Exec(s, Touch(v)).value, None, v);
  }

  /** The controller never deletes a volume that somebody owns, or is creating. */
  lemma DeleteVolumeKeepsInv(s: State, v: nat)
    requires Inv(s) && Exec(s, DeleteVolume(v)).Some?
    ensures Inv(Exec(s, DeleteVolume(v)).value)
  {
    var s' := Exec(s, DeleteVolume(v)).value;
    assert VolumeOk(s, v);
    forall m ensures SameVolume(s, s', m, v) {
      Knows(s, m);
    }
    LocalKeepsInv(s, s', None, v);
  }

  /** Whoever works on a volume holds it through a claim, so two calls never
      work on the same one. */
  lemma OneHolder(s: State, v: nat, n: Namespace, m: Namespace)
    requires PcOk(s, n) && PcOk(s, m) && v in s.vols && Working(s.At(n), v) && Working(s.At(m), v)
    ensures n == m
  {
  }

  /** An update that goes through. */
  lemma WriteKeepsInv(s: State, n: Namespace, v: nat, write: Volume, done: Pc)
    requires Inv(s) && v in s.vols && Working(s.At(n), v)
    requires forall m | m != n :: write.owner == Some(m) <==> s.vols[v].owner == Some(m)
    requires OkAt(s, s.Write(v, write).Go(n, done), n, v)
    requires VolumeOk(s.Write(v, write).Go(n, done), v)
    ensures Inv(s.Write(v, write).Go(n, done))
  {
    var s' := s.Write(v, write).Go(n, done);
    assert PcOk(s, n);
    forall m | m != n ensures SameVolume(s, s', m, v) {
      assert PcOk(s, m);
      if Working(s.At(m), v) { OneHolder(s, v, n, m); }
    }
    LocalKeepsInv(s, s', Some(n), v);
  }

  lemma ReleaseOwnKeepsInv(s: State, n: Namespace)
    requires Inv(s) && s.At(n).ReleaseOwn? && UpdateStep(s, n).Some?
    ensures Inv(UpdateStep(s, n).value)
  {
    var v, pv := s.At(n).vol, s.At(n).snap.value;
    Knows(s, n);
    assert VolumeOk(s, v);
    if s.vols[v].version == pv.version {
      WriteKeepsInv(s, n, v, pv.(claimRef := None), CreateClaim(v));
    } else {
      MoveKeepsInv(s, n, ReleaseOwn(v, None));
    }
  }

  lemma RetainKeepsInv(s: State, n: Namespace)
    requires Inv(s) && s.At(n).RetainSeeded? && UpdateStep(s, n).Some?
    ensures Inv(UpdateStep(s, n).value)
  {
    var i, v, pv := s.At(n).i, s.At(n).vol, s.At(n).snap.value;
    Knows(s, n);
    assert VolumeOk(s, v);
    if s.vols[v].version == pv.version {
      WriteKeepsInv(s, n, v, Retain(pv), DeleteSeed(i, v));
    } else {
      MoveKeepsInv(s, n, RetainSeeded(i, v, None));
    }
  }

  /** Claiming a volume for `n`, or handing another namespace's volume back. */
  lemma ClaimWriteKeepsInv(s: State, n: Namespace, i: nat, v: nat, pv: Volume, claimed: bool)
    requires Inv(s) && s.At(n) == ClaimSeeded(i, v, Some(pv), claimed) && v in s.vols && s.vols[v].version == pv.version
    ensures claimed ==> pv.owner.None?
    ensures Inv(s.Write(v, Label(n, pv).(claimRef := None)).Go(n, AfterClaiming(i, v, NowClaimed(pv, claimed))))
  {
    Knows(s, n);
    assert VolumeOk(s, v);
    WriteKeepsInv(s, n, v, Label(n, pv).(claimRef := None), AfterClaiming(i, v, pv.owner.None?));
  }

  lemma ClaimKeepsInv(s: State, n: Namespace)
    requires Inv(s) && s.At(n).ClaimSeeded? && UpdateStep(s, n).Some?
    ensures Inv(UpdateStep(s, n).value)
  {
    var i, v, pv, claimed := s.At(n).i, s.At(n).vol, s.At(n).snap.value, s.At(n).claimed;
    Knows(s, n);
    if s.vols[v].version == pv.version {
      ClaimWriteKeepsInv(s, n, i, v, pv, claimed);
    } else {
      MoveKeepsInv(s, n, ClaimSeeded(i, v, None, NowClaimed(pv, claimed)));
    }
  }

  lemma ForgetKeepsInv(s: State, n: Namespace)
    requires Inv(s) && s.At(n).Forget? && UpdateStep(s, n).Some?
    ensures Inv(UpdateStep(s, n).value)
  {
    var v, pv := s.At(n).vol, s.At(n).snap.value;
    Knows(s, n);
    if v !in s.vols {
      MoveKeepsInv(s, n, Idle);
    } else if s.vols[v].version == pv.version {
      assert VolumeOk(s, v);
      WriteKeepsInv(s, n, v, Disown(pv), DeleteClaim);
    } else {
      MoveKeepsInv(s, n, Forget(v, None));
    }
  }

  lemma StepKeepsInv(s: State, a: Action)
    requires Inv(s) && Exec(s, a).Some?
    ensures Inv(Exec(s, a).value)
  {
    match a {
      case StartCreate(n) => StartCreateKeepsInv(s, n);
      case FindOwn(n, v) => FindKeepsInv(s, n, if s.vols[v].phase == Released then ReleaseOwn(v, None)
          else CreateClaim(v));
      case FindNone(n) => FindKeepsInv(s, n, CreateSeed(0));
      case Read(n) => ReadKeepsInv(s, n);
      case Update(n) =>
        match s.At(n) {
          case ReleaseOwn(_, _) => ReleaseOwnKeepsInv(s, n);
          case RetainSeeded(_, _, _) => RetainKeepsInv(s, n);
          case ClaimSeeded(_, _, _, _) => ClaimKeepsInv(s, n);
          case Forget(_, _) => ForgetKeepsInv(s, n);
        }
      case SeeSeedBound(n) => SeeSeedBoundKeepsInv(s, n);
      case SeeReleased(n) => SeeReleasedKeepsInv(s, n);
      case SeeBound(n) => SeeBoundKeepsInv(s, n);
      case StartDelete(n) => StartDeleteKeepsInv(s, n);
      case MakeSeed(n) => MakeSeedKeepsInv(s, n);
      case DropSeed(n) => DropSeedKeepsInv(s, n);
      case MakeClaim(n) => MakeClaimKeepsInv(s, n);
      case DropClaim(n) => DropClaimKeepsInv(s, n);
      case Down(n) => DownKeepsInv(s, n);
      case Provision(n) => ProvisionKeepsInv(s, n);
      case BindSeed(n, v) => BindSeedKeepsInv(s, n, v);
      case BindClaim(n) => BindClaimKeepsInv(s, n);
      case MarkAvailable(v) => MarkAvailableKeepsInv(s, v);
      case RemoveClaim(key) => RemoveClaimKeepsInv(s, key);
      case MarkReleased(v) => MarkReleasedKeepsInv(s, v);
      case DeleteVolume(v) => DeleteVolumeKeepsInv(s, v);
      case Touch(v) => TouchKeepsInv(s, v);
    }
  }
}
