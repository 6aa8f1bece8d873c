/** The persistent-volume ownership protocol. Each namespace runs CreatePVC and
    PermanentlyDeletePVC step by step against one store of volumes and claims,
    which a volume controller changes too. A read and the update that depends on
    it are separate steps; the update only goes through if the volume's version
    is still the one that was read. */
module Volumes {
  import opened Wrappers

  type Namespace = string

  datatype Phase = Available | Bound | Released
  datatype Reclaim = DeleteIt | RetainIt

  /** Claims are named by their namespace: the short-lived seed in Blimp's own
      namespace, and the claim in the user's. */
  datatype ClaimKey = Seed(ns: Namespace) | User(ns: Namespace)

  /** What a volume refers to: a claim, and which one of that name. */
  datatype Ref = Ref(key: ClaimKey, uid: nat)

  datatype Volume = Volume(owner: Option<Namespace>, phase: Phase, claimRef: Option<Ref>, reclaim: Reclaim,
                           version: nat)

  datatype Claim = Claim(uid: nat, volumeName: Option<nat>, bound: bool, deleting: bool)

  /** Where a namespace's call stands. `snap` is what the current attempt of
      updatePersistentVolume has read. */
  datatype Pc =
    | Idle
    // CreatePVC
    | LookUp
    | ReleaseOwn(vol: nat, snap: Option<Volume>)
    | CreateClaim(vol: nat)
    | AwaitBound
    // createPersistentVolume, attempt `i`
    | CreateSeed(i: nat)
    | AwaitSeed(i: nat)
    | RetainSeeded(i: nat, vol: nat, snap: Option<Volume>)
    | DeleteSeed(i: nat, vol: nat)
    | AwaitReleased(i: nat, vol: nat)
    | ClaimSeeded(i: nat, vol: nat, snap: Option<Volume>, claimed: bool)
    // PermanentlyDeletePVC
    | Forget(vol: nat, snap: Option<Volume>)
    | DeleteClaim

  datatype State = State(
    vols: map<nat, Volume>,
    claims: map<ClaimKey, Claim>,
    pcs: map<Namespace, Pc>,
    nextVol: nat,
    nextUid: nat)
  {
    function At(n: Namespace): Pc {
      if n in pcs then pcs[n] else Idle
    }

    function Go(n: Namespace, pc: Pc): State {
      this.(pcs := pcs[n := pc])
    }

    /** Every write moves the version on. */
    function Write(v: nat, pv: Volume): State
      requires v in vols
    {
      this.(vols := vols[v := pv.(version := vols[v].version + 1)])
    }
  }

  const ATTEMPTS: nat := 8

  /* ----- The update functions ----- */

  function MakeAvailable(pv: Volume): Option<Volume> {
    if pv.phase == Bound then None else Some(pv.(claimRef := None))
  }

  function Retain(pv: Volume): Volume {
    pv.(reclaim := RetainIt)
  }

  function Disown(pv: Volume): Volume {
    pv.(owner := None, reclaim := DeleteIt)
  }

  /** Labels the copy if it has no owner, which the caller remembers whatever
      becomes of the update. */
  function Label(n: Namespace, pv: Volume): Volume {
    if pv.owner.None? then pv.(owner := Some(n)) else pv
  }

  function NowClaimed(pv: Volume, claimed: bool): bool {
    claimed || pv.owner.None?
  }

  /** After the last attempt of claiming: done, or another round. */
  function AfterClaiming(i: nat, v: nat, claimed: bool): Pc {
    if claimed then CreateClaim(v) else CreateSeed(i + 1)
  }

  /* ----- The steps ----- */

  datatype Action =
    // a namespace's call moves on
    | StartCreate(n: Namespace)
    | FindOwn(n: Namespace, v: nat)
    | FindNone(n: Namespace)
    | Read(n: Namespace)
    | Update(n: Namespace)
    | MakeSeed(n: Namespace)
    | SeeSeedBound(n: Namespace)
    | DropSeed(n: Namespace)
    | SeeReleased(n: Namespace)
    | MakeClaim(n: Namespace)
    | SeeBound(n: Namespace)
    | StartDelete(n: Namespace)
    | DropClaim(n: Namespace)
    // the volume controller and the rest of the cluster
    | Provision(n: Namespace)
    | BindSeed(n: Namespace, v: nat)
    | BindClaim(n: Namespace)
    | MarkAvailable(v: nat)
    | RemoveClaim(key: ClaimKey)
    | MarkReleased(v: nat)
    | DeleteVolume(v: nat)
    | Touch(v: nat)
    | Down(n: Namespace)

  function SeedOf(s: State, n: Namespace): Option<Claim> {
    if Seed(n) in s.claims then Some(s.claims[Seed(n)]) else None
  }

  function ClaimOf(s: State, n: Namespace): Option<Claim> {
    if User(n) in s.claims then Some(s.claims[User(n)]) else None
  }

  /** Get, inside updatePersistentVolume. A missing volume ends the update
      without an error. */
  function ReadStep(s: State, n: Namespace): Option<State> {
    match s.At(n)
    case ReleaseOwn(v, None) =>
      Some(s.Go(n, if v in s.vols then ReleaseOwn(v, Some(s.vols[v])) else CreateClaim(v)))
    case RetainSeeded(i, v, None) =>
      Some(s.Go(n, if v in s.vols then RetainSeeded(i, v, Some(s.vols[v])) else DeleteSeed(i, v)))
    case ClaimSeeded(i, v, None, claimed) =>
      Some(s.Go(n, if v in s.vols then ClaimSeeded(i, v, Some(s.vols[v]), claimed) else AfterClaiming(i, v, claimed)))
    case Forget(v, None) =>
      Some(s.Go(n, if v in s.vols then Forget(v, Some(s.vols[v])) else DeleteClaim))
    case _ => None
  }

  /** Update: refused, and tried again from Get, when the volume has changed
      since; an error, which ends the call, when it is gone. */
  function UpdateStep(s: State, n: Namespace): Option<State> {
    match s.At(n)
    case ReleaseOwn(v, Some(pv)) =>
      Some(match MakeAvailable(pv)
           case None => s.Go(n, CreateClaim(v))
           case Some(pv') => Swap(s, n, v, pv, pv', CreateClaim(v), ReleaseOwn(v, None)))
    case RetainSeeded(i, v, Some(pv)) =>
      Some(Swap(s, n, v, pv, Retain(pv), DeleteSeed(i, v), RetainSeeded(i, v, None)))
    case ClaimSeeded(i, v, Some(pv), claimed) =>
      var claimed' := NowClaimed(pv, claimed);
      Some(match MakeAvailable(Label(n, pv))
           case None => s.Go(n, AfterClaiming(i, v, claimed'))
           case Some(pv') =>
             Swap(s, n, v, pv, pv', AfterClaiming(i, v, claimed'), ClaimSeeded(i, v, None, claimed')))
    case Forget(v, Some(pv)) =>
      Some(Swap(s, n, v, pv, Disown(pv), DeleteClaim, Forget(v, None)))
    case _ => None
  }

  function Swap(s: State, n: Namespace, v: nat, read: Volume, write: Volume, done: Pc, retry: Pc): State {
    if v !in s.vols then s.Go(n, Idle)
    else if s.vols[v].version == read.version then s.Write(v, write).Go(n, done)
    else s.Go(n, retry)
  }

  /** The state after an action, if it can happen. */
  function Exec(s: State, a: Action): Option<State> {
    match a
    case StartCreate(n) =>
      if s.At(n).Idle? then Some(if User(n) in s.claims then s else s.Go(n, LookUp)) else None
    case FindOwn(n, v) =>
      if s.At(n).LookUp? && v in s.vols && s.vols[v].owner == Some(n)
      then Some(s.Go(n, if s.vols[v].phase == Released then ReleaseOwn(v, None) else CreateClaim(v)))
      else None
    case FindNone(n) =>
      if s.At(n).LookUp? && forall v | v in s.vols :: s.vols[v].owner != Some(n)
      then Some(s.Go(n, CreateSeed(0)))
      else None
    case Read(n) => ReadStep(s, n)
    case Update(n) => UpdateStep(s, n)
    case MakeSeed(n) =>
      if !s.At(n).CreateSeed? then None
      else if s.At(n).i >= ATTEMPTS then Some(s.Go(n, Idle))
      else if Seed(n) in s.claims then Some(s.Go(n, AwaitSeed(s.At(n).i)))
      else Some(s.(claims := s.claims[Seed(n) := Claim(s.nextUid, None, false, false)], nextUid := s.nextUid + 1)
                 .Go(n, AwaitSeed(s.At(n).i)))
    case SeeSeedBound(n) =>
      if s.At(n).AwaitSeed? && SeedOf(s, n).Some? && SeedOf(s, n).value.volumeName.Some?
      then Some(s.Go(n, RetainSeeded(s.At(n).i, SeedOf(s, n).value.volumeName.value, None)))
      else None
    case DropSeed(n) =>
      if !s.At(n).DeleteSeed? then None
      else if Seed(n) !in s.claims then Some(s.Go(n, Idle))
      else Some(s.(claims := s.claims[Seed(n) := s.claims[Seed(n)].(deleting := true)])
                 .Go(n, AwaitReleased(s.At(n).i, s.At(n).vol)))
    case SeeReleased(n) =>
      if s.At(n).AwaitReleased? && s.At(n).vol in s.vols && s.vols[s.At(n).vol].phase == Released
      then Some(s.Go(n, ClaimSeeded(s.At(n).i, s.At(n).vol, None, false)))
      else None
    case MakeClaim(n) =>
      if !s.At(n).CreateClaim? then None
      else if User(n) in s.claims then Some(s.Go(n, AwaitBound))
      else Some(s.(claims := s.claims[User(n) := Claim(s.nextUid, Some(s.At(n).vol), false, false)],
                   nextUid := s.nextUid + 1).Go(n, AwaitBound))
    case SeeBound(n) =>
      if s.At(n).AwaitBound? && ClaimOf(s, n).Some? && ClaimOf(s, n).value.bound then Some(s.Go(n, Idle)) else None
    case StartDelete(n) =>
      if !s.At(n).Idle? then None
      else if ClaimOf(s, n).None? || ClaimOf(s, n).value.volumeName.None? then Some(s)
      else Some(s.Go(n, Forget(ClaimOf(s, n).value.volumeName.value, None)))
    case DropClaim(n) =>
      if !s.At(n).DeleteClaim? then None
      else if User(n) !in s.claims then Some(s.Go(n, Idle))
      else Some(s.(claims := s.claims[User(n) := s.claims[User(n)].(deleting := true)]).Go(n, Idle))

    case Provision(n) =>
      if SeedOf(s, n).Some? && SeedOf(s, n).value.volumeName.None?
      then
        var c := SeedOf(s, n).value;
        Some(s.(vols := s.vols[s.nextVol := Volume(None, Bound, Some(Ref(Seed(n), c.uid)), DeleteIt, 0)],
                nextVol := s.nextVol + 1,
                claims := s.claims[Seed(n) := c.(volumeName := Some(s.nextVol), bound := true)]))
      else None
    case BindSeed(n, v) =>
      // a claim that names no volume is only given an available one
      if SeedOf(s, n).Some? && SeedOf(s, n).value.volumeName.None?
         && v in s.vols && s.vols[v].claimRef.None? && s.vols[v].phase == Available
      then
        var c := SeedOf(s, n).value;
        Some(s.Write(v, s.vols[v].(phase := Bound, claimRef := Some(Ref(Seed(n), c.uid))))
              .(claims := s.claims[Seed(n) := c.(volumeName := Some(v), bound := true)]))
      else None
    case BindClaim(n) =>
      if ClaimOf(s, n).Some? && ClaimOf(s, n).value.volumeName.Some? && !ClaimOf(s, n).value.bound
      then
        var c := ClaimOf(s, n).value;
        var v := c.volumeName.value;
        if v in s.vols && s.vols[v].claimRef.None?
        then Some(s.Write(v, s.vols[v].(phase := Bound, claimRef := Some(Ref(User(n), c.uid))))
                   .(claims := s.claims[User(n) := c.(bound := true)]))
        else None
      else None
    case MarkAvailable(v) =>
      if v in s.vols && s.vols[v].claimRef.None? then Some(s.Write(v, s.vols[v].(phase := Available))) else None
    case RemoveClaim(key) =>
      if key in s.claims && s.claims[key].deleting then Some(s.(claims := s.claims - {key})) else None
    case MarkReleased(v) =>
      if v in s.vols && s.vols[v].claimRef.Some? && !Exists(s, s.vols[v].claimRef.value)
      then Some(s.Write(v, s.vols[v].(phase := Released)))
      else None
    case DeleteVolume(v) =>
      if v in s.vols && s.vols[v].phase == Released && s.vols[v].reclaim == DeleteIt
      then Some(s.(vols := s.vols - {v}))
      else None
    case Touch(v) =>
      if v in s.vols then Some(s.Write(v, s.vols[v])) else None
    case Down(n) =>
      if s.At(n).Idle? && User(n) in s.claims
      then Some(s.(claims := s.claims[User(n) := s.claims[User(n)].(deleting := true)]))
      else None
  }

  /** The very claim a volume refers to is still there. */
  predicate Exists(s: State, r: Ref) {
    r.key in s.claims && s.claims[r.key].uid == r.uid
  }

  /* ----- The invariant ----- */

  const START := State(map[], map[], map[], 0, 0)

  ghost predicate HeldFor(s: State, v: nat, key: ClaimKey) {
    v in s.vols && s.vols[v].claimRef.Some? && s.vols[v].claimRef.value.key == key
  }

  /** What was read is older than what is there now, or the same. */
  ghost predicate SnapOk(s: State, v: nat, snap: Option<Volume>)
    requires v in s.vols
  {
    snap.Some? ==>
      && snap.value.version <= s.vols[v].version
      && (snap.value.version == s.vols[v].version ==> snap.value == s.vols[v])
  }

  ghost predicate Unlabelled(s: State, n: Namespace) {
    forall v | v in s.vols :: s.vols[v].owner != Some(n)
  }

  /** A volume that only its holder will let go of. */
  ghost predicate VolumeOk(s: State, v: nat)
    requires v in s.vols
  {
    var pv := s.vols[v];
    && v < s.nextVol
    && (pv.owner.None? ==> pv.claimRef.Some?)
    && (pv.owner.Some? ==> pv.reclaim == RetainIt)
    && (pv.phase == Available ==> pv.claimRef.None?)
    && (pv.claimRef.Some? ==>
        && pv.claimRef.value.uid < s.nextUid
        && (pv.claimRef.value.key.User? ==> pv.owner.None? || pv.owner == Some(pv.claimRef.value.key.ns))
        && (pv.phase == Released ==> !Exists(s, pv.claimRef.value)))
    && (pv.owner.Some? && !HeldFor(s, v, User(pv.owner.value)) ==> AboutToBind(s, pv.owner.value, v))
  }

  /** The owner's call is between making the volume available and its binding. */
  ghost predicate AboutToBind(s: State, n: Namespace, v: nat) {
    || s.At(n) == CreateClaim(v)
    || (s.At(n).AwaitBound? && ClaimOf(s, n).Some? && ClaimOf(s, n).value.volumeName == Some(v)
        && !ClaimOf(s, n).value.bound)
  }

  ghost predicate SeedOk(s: State, n: Namespace)
    requires Seed(n) in s.claims
  {
    var c := s.claims[Seed(n)];
    && c.uid < s.nextUid
    && (s.At(n).AwaitSeed? || s.At(n).RetainSeeded? || s.At(n).DeleteSeed? || s.At(n).AwaitReleased?)
    && (c.deleting ==> s.At(n).AwaitReleased?)
    && (c.volumeName.None? ==> s.At(n).AwaitSeed?)
    && (c.volumeName.Some? ==>
        && c.volumeName.value in s.vols
        && s.vols[c.volumeName.value].claimRef == Some(Ref(Seed(n), c.uid)))
  }

  ghost predicate ClaimOk(s: State, n: Namespace)
    requires User(n) in s.claims
  {
    var c := s.claims[User(n)];
    && c.uid < s.nextUid
    && (s.At(n).Idle? || s.At(n).AwaitBound? || s.At(n).Forget? || s.At(n).DeleteClaim?)
    && c.volumeName.Some? && c.volumeName.value in s.vols
    && (c.bound ==> s.vols[c.volumeName.value].claimRef == Some(Ref(User(n), c.uid)))
    && (!c.bound ==> s.At(n).AwaitBound? && s.vols[c.volumeName.value].owner == Some(n))
    && Names(s, n, c.volumeName.value)
  }

  /** The claim's volume is the namespace's own, or was until the namespace
      itself gave it up for deletion. */
  ghost predicate Names(s: State, n: Namespace, v: nat) {
    && v in s.vols
    && (s.vols[v].owner == Some(n)
        || (s.vols[v].owner.None? && s.vols[v].reclaim == DeleteIt && HeldFor(s, v, User(n))))
  }

  /** In createPersistentVolume the namespace owns nothing yet. */
  predicate InLoop(pc: Pc) {
    pc.CreateSeed? || pc.AwaitSeed? || pc.RetainSeeded? || pc.DeleteSeed? || pc.AwaitReleased? || pc.ClaimSeeded?
  }

  ghost predicate PcOk(s: State, n: Namespace) {
    && (InLoop(s.At(n)) ==> Unlabelled(s, n))
    && (InLoop(s.At(n)) || s.At(n).LookUp? || s.At(n).ReleaseOwn? || s.At(n).CreateClaim? ==> User(n) !in s.claims)
    && match s.At(n)
       case ReleaseOwn(v, snap) =>
         && HeldFor(s, v, User(n)) && s.vols[v].owner == Some(n) && s.vols[v].phase == Released && SnapOk(s, v, snap)
         && (snap.Some? ==> snap.value.phase == Released)
       case CreateClaim(v) => v in s.vols && s.vols[v].owner == Some(n)
       case AwaitBound => User(n) in s.claims && !s.claims[User(n)].deleting
       case AwaitSeed(i) => Seed(n) in s.claims
       case RetainSeeded(i, v, snap) => SeededWith(s, n, v) && SnapOk(s, v, snap)
       case DeleteSeed(i, v) => SeededWith(s, n, v) && s.vols[v].reclaim == RetainIt
       case AwaitReleased(i, v) =>
         && HeldFor(s, v, Seed(n)) && s.vols[v].reclaim == RetainIt
         && (Seed(n) in s.claims ==> s.claims[Seed(n)].volumeName == Some(v))
       case ClaimSeeded(i, v, snap, claimed) =>
         && HeldFor(s, v, Seed(n)) && s.vols[v].reclaim == RetainIt && s.vols[v].phase == Released && SnapOk(s, v, snap)
         && (claimed ==> s.vols[v].owner.None?)
         && (snap.Some? ==> snap.value.phase == Released && snap.value.owner == s.vols[v].owner)
       case Forget(v, snap) => v < s.nextVol && (v in s.vols ==> HeldFor(s, v, User(n)) && SnapOk(s, v, snap))
       case _ => true
  }

  ghost predicate SeededWith(s: State, n: Namespace, v: nat) {
    && Seed(n) in s.claims && s.claims[Seed(n)].volumeName == Some(v)
    && HeldFor(s, v, Seed(n))
  }

  ghost predicate VolumesOk(s: State) {
    forall v | v in s.vols :: VolumeOk(s, v)
  }

  ghost predicate SeedsOk(s: State) {
    forall n | Seed(n) in s.claims :: SeedOk(s, n)
  }

  ghost predicate ClaimsOk(s: State) {
    forall n | User(n) in s.claims :: ClaimOk(s, n)
  }

  ghost predicate PcsOk(s: State) {
    forall n :: PcOk(s, n)
  }

  /** A namespace owns at most one volume. */
  ghost predicate OneEach(s: State) {
    forall v, w | v in s.vols && w in s.vols && s.vols[v].owner.Some? && s.vols[v].owner == s.vols[w].owner :: v == w
  }

  ghost predicate Inv(s: State) {
    VolumesOk(s) && SeedsOk(s) && ClaimsOk(s) && PcsOk(s) && OneEach(s)
  }

  /** The volume a call is about to update. */
  predicate Working(pc: Pc, v: nat) {
    match pc
    case ReleaseOwn(w, _) => w == v
    case RetainSeeded(_, w, _) => w == v
    case DeleteSeed(_, w) => w == v
    case AwaitReleased(_, w) => w == v
    case ClaimSeeded(_, w, _, _) => w == v
    case Forget(w, _) => w == v
    case _ => false
  }
}
