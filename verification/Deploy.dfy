/** Bringing the pods of a namespace in line with what is desired, without
    recreating those that already are. */
module Deploy {
  import opened Wrappers

  datatype Container = Container(name: string, image: string, others: string)

  datatype Affinity = Affinity(node: Option<string>, others: string)

  const NO_AFFINITY := Affinity(None, "")

  /** A pod as it is sent to the cluster. `others` stands for everything that is
      never overwritten, and `applied` for the annotation with the encoded pod;
      equal encodings come from equal pods. */
  datatype Pod = Pod(name: string, inits: seq<Container>, affinity: Option<Affinity>, others: string,
                     applied: Option<Pod>)

  /** A pod as DeployPod is handed it, by value: its annotations are in a map that
      the caller's pod shares, if there is one. Without annotations, a map that is
      there and one that is not are encoded alike. */
  datatype Desired = Desired(pod: Pod, hasMap: bool) {
    /** What becomes of the caller's pod when the annotation is written. */
    function Annotated(): Desired {
      if hasMap then this.(pod := Created(pod)) else this
    }
  }

  /** A pod in the cluster: a recreated pod is another one. */
  datatype Stored = Stored(uid: nat, pod: Pod)

  /** What is created for a pod remembers what it was created from. */
  function Created(pod: Pod): Pod {
    pod.(applied := Some(pod))
  }

  predicate IsCreated(pod: Pod) {
    pod.applied.Some? && pod == Created(pod.applied.value)
  }

  /* ----- The sanitizers ----- */

  /** The image of the last container of that name; none gives the empty one. */
  function ImageOf(containers: seq<Container>, name: string): string {
    if containers == [] then ""
    else
      var last := containers[|containers| - 1];
      if last.name == name then last.image else ImageOf(containers[..|containers| - 1], name)
  }

  /** The k-th container is the last one of that name. */
  predicate IsLastNamed(containers: seq<Container>, k: int, name: string) {
    && 0 <= k < |containers| && containers[k].name == name
    && forall l | k < l < |containers| :: containers[l].name != name
  }

  predicate NoneNamed(containers: seq<Container>, name: string) {
    forall l | 0 <= l < |containers| :: containers[l].name != name
  }

  lemma {:induction false} ImageOfLast(containers: seq<Container>, name: string)
    ensures NoneNamed(containers, name) ==> ImageOf(containers, name) == ""
    ensures forall k | IsLastNamed(containers, k, name) :: ImageOf(containers, name) == containers[k].image
  {
    if containers != [] {
      var n := |containers| - 1;
      if containers[n].name != name {
        ImageOfLast(containers[..n], name);
        forall k | IsLastNamed(containers, k, name) ensures IsLastNamed(containers[..n], k, name) {
        }
      }
    }
  }

  function WithImages(desired: seq<Container>, curr: seq<Container>): (r: seq<Container>)
    ensures |r| == |desired|
    ensures forall i | 0 <= i < |r| :: r[i] == desired[i].(image := ImageOf(curr, desired[i].name))
  {
    seq(|desired|, i requires 0 <= i < |desired| => desired[i].(image := ImageOf(curr, desired[i].name)))
  }

  function WithNode(desired: Option<Affinity>, curr: Option<Affinity>): Option<Affinity> {
    if curr.None? || curr.value.node.None?
    then if desired.None? then None else Some(desired.value.(node := None))
    else Some((if desired.None? then NO_AFFINITY else desired.value).(node := curr.value.node))
  }

  function Sanitized(desired: Pod, curr: Pod): Pod {
    desired.(inits := WithImages(desired.inits, curr.inits), affinity := WithNode(desired.affinity, curr.affinity))
  }

  /** A deep copy of a pod, to be overwritten. */
  class PodCopy {
    const pod: Pod
    const inits: array<Container>
    var affinity: Option<Affinity>

    function Value(): Pod
      reads this, inits
    {
      pod.(inits := inits[..], affinity := affinity)
    }

    constructor (pod: Pod)
      ensures Value() == pod && fresh(inits)
    {
      this.pod := pod;
      this.affinity := pod.affinity;
      this.inits := new Container[|pod.inits|](i requires 0 <= i < |pod.inits| => pod.inits[i]);
    }

    method IgnoreInitContainerImages(curr: Pod)
      modifies inits
      ensures inits[..] == WithImages(old(inits[..]), curr.inits) && affinity == old(affinity)
      ensures forall i | 0 <= i < inits.Length :: inits[i] == old(inits[i]).(image := inits[i].image)
      ensures forall i, k | 0 <= i < inits.Length && IsLastNamed(curr.inits, k, old(inits[i]).name) ::
        inits[i].image == curr.inits[k].image
      ensures forall i | 0 <= i < inits.Length && NoneNamed(curr.inits, old(inits[i]).name) :: inits[i].image == ""
    {
      var currImages: map<string, string> := map[];
      for n := 0 to |curr.inits|
        invariant forall name :: ImageOf(curr.inits[..n], name) == if name in currImages then currImages[name] else ""
      {
        assert curr.inits[..n + 1][..n] == curr.inits[..n];
        currImages := currImages[curr.inits[n].name := curr.inits[n].image];
      }
      assert curr.inits[..|curr.inits|] == curr.inits;
      for i := 0 to inits.Length
        invariant forall k | 0 <= k < i :: inits[k] == old(inits[k]).(image := ImageOf(curr.inits, old(inits[k]).name))
        invariant forall k | i <= k < inits.Length :: inits[k] == old(inits[k])
      {
        var c := inits[i];
        inits[i] := c.(image := if c.name in currImages then currImages[c.name] else "");
      }
      forall i | 0 <= i < inits.Length
        ensures NoneNamed(curr.inits, inits[i].name) ==> ImageOf(curr.inits, inits[i].name) == ""
        ensures forall k | IsLastNamed(curr.inits, k, inits[i].name) ::
          ImageOf(curr.inits, inits[i].name) == curr.inits[k].image
      {
        ImageOfLast(curr.inits, inits[i].name);
      }
    }

    method IgnoreNodeAffinity(curr: Pod)
      modifies this`affinity
      ensures affinity == WithNode(old(affinity), curr.affinity)
      ensures (if affinity.Some? then affinity.value.node else None)
        == if curr.affinity.Some? then curr.affinity.value.node else None
      ensures old(affinity).Some? ==> affinity.Some? && affinity.value.others == old(affinity).value.others
      ensures old(affinity).None? && affinity.Some? ==> affinity.value.others == ""
    {
      if curr.affinity.None? || curr.affinity.value.node.None? {
        if affinity.Some? {
          affinity := Some(affinity.value.(node := None));
        }
        return;
      }
      if affinity.None? {
        affinity := Some(NO_AFFINITY);
      }
      affinity := Some(affinity.value.(node := curr.affinity.value.node));
    }
  }

  /* ----- When a pod is up to date ----- */

  /** The same init containers, but for their images. */
  predicate SameInits(desired: seq<Container>, created: seq<Container>) {
    && |desired| == |created|
    && forall i | 0 <= i < |desired| :: desired[i].name == created[i].name && desired[i].others == created[i].others
  }

  /** No two containers of one name have different images. */
  predicate Unambiguous(containers: seq<Container>) {
    forall i, j | 0 <= i < |containers| && 0 <= j < |containers| ::
      containers[i].name == containers[j].name ==> containers[i].image == containers[j].image
  }

  /** The same affinity, but for that to nodes. A desired affinity of which only
      that to nodes is there counts as one, and so does one that is all empty. */
  predicate SameAffinity(desired: Option<Affinity>, created: Option<Affinity>) {
    match created
    case None => desired.None?
    case Some(c) =>
      if desired.None? then c.node.Some? && c.others == "" else desired.value.others == c.others
  }

  predicate Agrees(desired: Pod, created: Pod) {
    && desired.name == created.name && desired.others == created.others && desired.applied == created.applied
    && SameInits(desired.inits, created.inits) && Unambiguous(created.inits)
    && SameAffinity(desired.affinity, created.affinity)
  }

  lemma {:induction false} ImageOfSome(containers: seq<Container>, i: nat)
    requires i < |containers|
    ensures exists j | 0 <= j < |containers| ::
              containers[j].name == containers[i].name && containers[j].image == ImageOf(containers, containers[i].name)
  {
    var n := |containers| - 1;
    if containers[n].name != containers[i].name {
      ImageOfSome(containers[..n], i);
      var j :| 0 <= j < n && containers[..n][j].name == containers[i].name
        && containers[..n][j].image == ImageOf(containers[..n], containers[i].name);
      assert containers[j] == containers[..n][j];
    } else {
      assert containers[n].image == ImageOf(containers, containers[i].name);
    }
  }

  lemma ImagesKept(desired: seq<Container>, created: seq<Container>)
    ensures WithImages(desired, created) == created <==> SameInits(desired, created) && Unambiguous(created)
  {
    if SameInits(desired, created) && Unambiguous(created) {
      forall i | 0 <= i < |created| ensures WithImages(desired, created)[i] == created[i] {
        ImageOfSome(created, i);
      }
    }
    if WithImages(desired, created) == created {
      forall i | 0 <= i < |desired|
        ensures created[i] == desired[i].(image := ImageOf(created, desired[i].name))
      {
        assert created[i] == WithImages(desired, created)[i];
      }
    }
  }

  /** The comparison of encodings finds what it is meant to find. */
  lemma UpToDateExactly(desired: Pod, created: Pod)
    ensures Sanitized(desired, created) == created <==> Agrees(desired, created)
  {
    ImagesKept(desired.inits, created.inits);
  }

  /** Whatever init images and node affinity are asked for, it makes no difference;
      anything else does. */
  lemma OnlyTheRestMatters(desired: Pod, other: Pod, created: Pod)
    requires other == desired.(inits := other.inits, affinity := other.affinity)
    requires SameInits(desired.inits, other.inits)
    requires desired.affinity.Some? == other.affinity.Some?
    requires desired.affinity.Some? ==> desired.affinity.value.others == other.affinity.value.others
    ensures Sanitized(desired, created) == created <==> Sanitized(other, created) == created
  {
    UpToDateExactly(desired, created);
    UpToDateExactly(other, created);
    assert SameInits(desired.inits, created.inits) <==> SameInits(other.inits, created.inits);
  }

  lemma OtherChangesMatter(desired: Pod, created: Pod)
    requires Sanitized(desired, created) == created
    ensures desired.name == created.name && desired.others == created.others && desired.applied == created.applied
    ensures SameInits(desired.inits, created.inits)
    ensures desired.affinity.Some? && created.affinity.Some? ==>
      desired.affinity.value.others == created.affinity.value.others
  {
    UpToDateExactly(desired, created);
  }

  /** A pod agrees with itself, as long as its init containers have names of their
      own. */
  lemma AgreesWithItself(pod: Pod)
    ensures Agrees(pod, pod) <==> Unambiguous(pod.inits)
  {
  }

  /* ----- Deploying ----- */

  /** A pod in the cluster is up to date if the pod it was created from agrees. */
  predicate UpToDate(desired: Pod, pods: map<string, Stored>) {
    desired.name in pods && pods[desired.name].pod.applied.Some?
        && Agrees(desired, pods[desired.name].pod.applied.value)
  }

  predicate DistinctNames(desired: seq<Desired>) {
    forall i, j | 0 <= i < j < |desired| :: desired[i].pod.name != desired[j].pod.name
  }

  /** The names of the first `n` of the desired pods. */
  function Names(desired: seq<Desired>, n: nat): set<string>
    requires n <= |desired|
  {
    if n == 0 then {} else Names(desired, n - 1) + {desired[n - 1].pod.name}
  }

  lemma {:induction false} NamesExactly(desired: seq<Desired>, n: nat, name: string)
    requires n <= |desired|
    ensures name in Names(desired, n) <==> exists i | 0 <= i < n :: desired[i].pod.name == name
  {
    if n > 0 {
      NamesExactly(desired, n - 1, name);
      if name == desired[n - 1].pod.name {
        assert desired[n - 1].pod.name == name;
      }
    }
  }

  /** What DeployPod does to the pods, whatever they are. */
  predicate DeploysOne(desired: Desired, before: map<string, Stored>, uid: nat, now: map<string, Stored>,
                       left: Desired) {
    if UpToDate(desired.pod, before) then now == before && left == desired
    else now == before[desired.pod.name := Stored(uid, Created(desired.pod))] && left == desired.Annotated()
  }

  /** A pod is the one from before if that was up to date, and newly created from
      what is desired if not. */
  ghost predicate Deployed(desired: Desired, left: Desired, before: map<string, Stored>, firstUid: nat, now: Stored) {
    if UpToDate(desired.pod, before)
    then now == before[desired.pod.name] && left == desired
    else now.uid >= firstUid && now.pod == Created(desired.pod) && left == desired.Annotated()
  }

  /** What deploying leaves behind. */
  ghost predicate DeployedAll(desired: seq<Desired>, left: seq<Desired>, before: map<string, Stored>, firstUid: nat,
                              now: map<string, Stored>) {
    && DistinctNames(desired) && |left| == |desired|
    && now.Keys == Names(desired, |desired|)
    && (forall i | 0 <= i < |desired| :: desired[i].pod.name in now
          && Deployed(desired[i], left[i], before, firstUid, now[desired[i].pod.name]))
  }

  /** The first `n` of the desired pods are deployed, the other pods as before. */
  ghost predicate Halfway(desired: seq<Desired>, left: seq<Desired>, n: nat, before: map<string, Stored>, firstUid: nat,
                          now: map<string, Stored>) {
    && |left| == n <= |desired|
    && now.Keys == before.Keys + Names(desired, n)
    && (forall i | 0 <= i < n :: desired[i].pod.name in now
          && Deployed(desired[i], left[i], before, firstUid, now[desired[i].pod.name]))
    && (forall name | name in now && name !in Names(desired, n) :: name in before && now[name] == before[name])
  }

  /** Deploying one pod leaves the others alone. */
  lemma OneMoreDeployed(desired: seq<Desired>, left: seq<Desired>, n: nat, before: map<string, Stored>, firstUid: nat,
                        was: map<string, Stored>, uid: nat, now: map<string, Stored>, l: Desired)
    requires Halfway(desired, left, n, before, firstUid, was) && n < |desired| && DistinctNames(desired)
              && firstUid <= uid
    requires DeploysOne(desired[n], was, uid, now, l)
    ensures Halfway(desired, left + [l], n + 1, before, firstUid, now)
  {
    var d := desired[n];
    NamesExactly(desired, n, d.pod.name);
    assert UpToDate(d.pod, was) <==> UpToDate(d.pod, before);
    ChangesOne(d, was, uid, now, l);
    JustDeployed(d, before, firstUid, was, uid, now, l);
    forall i | 0 <= i < n
      ensures desired[i].pod.name in now
      ensures Deployed(desired[i], (left + [l])[i], before, firstUid, now[desired[i].pod.name])
    {
      assert desired[i].pod.name != d.pod.name && (left + [l])[i] == left[i];
    }
  }

  lemma ChangesOne(desired: Desired, was: map<string, Stored>, uid: nat, now: map<string, Stored>, left: Desired)
    requires DeploysOne(desired, was, uid, now, left)
    ensures now.Keys == was.Keys + {desired.pod.name}
    ensures forall name | name in was && name != desired.pod.name :: name in now && now[name] == was[name]
  {
  }

  lemma JustDeployed(desired: Desired, before: map<string, Stored>, firstUid: nat, was: map<string, Stored>, uid: nat,
                     now: map<string, Stored>, left: Desired)
    requires DeploysOne(desired, was, uid, now, left) && firstUid <= uid
    requires UpToDate(desired.pod, was) <==> UpToDate(desired.pod, before)
    requires UpToDate(desired.pod, before) ==> was[desired.pod.name] == before[desired.pod.name]
    ensures desired.pod.name in now && Deployed(desired, left, before, firstUid, now[desired.pod.name])
  {
  }

  /** ... and deleting the stale ones leaves what is desired. */
  lemma WithoutStale(desired: seq<Desired>, left: seq<Desired>, before: map<string, Stored>, firstUid: nat,
                     now: map<string, Stored>)
    requires Halfway(desired, left, |desired|, before, firstUid, now) && DistinctNames(desired)
    ensures DeployedAll(desired, left, before, firstUid, map name | name in now && name in Names(desired, |desired|) ::
              now[name])
  {
    forall i | 0 <= i < |desired| ensures desired[i].pod.name in Names(desired, |desired|) {
      NamesExactly(desired, |desired|, desired[i].pod.name);
    }
  }

  class PodStore {
    var pods: map<string, Stored>
    var nextUid: nat

    /** Every pod is as it was created, and nobody but DeployPod creates any. */
    ghost predicate Valid()
      reads this
    {
      forall name | name in pods ::
        pods[name].uid < nextUid && pods[name].pod.name == name && IsCreated(pods[name].pod)
    }

    constructor ()
      ensures Valid() && pods == map[]
    {
      pods, nextUid := map[], 0;
    }

    method Create(pod: Pod)
      requires Valid() && IsCreated(pod)
      modifies this
      ensures Valid() && pods == old(pods)[pod.name := Stored(old(nextUid), pod)] && nextUid == old(nextUid) + 1
    {
      pods := pods[pod.name := Stored(nextUid, pod)];
      nextUid := nextUid + 1;
    }

    method Delete(name: string)
      requires Valid()
      modifies this`pods
      ensures Valid() && pods == old(pods) - {name}
    {
      pods := pods - {name};
    }

    /** Leaves a pod alone exactly if it is up to date. `left` is what the caller's
        pod has become: the annotation is written to the map that it shares, or to
        one of its own. */
    method DeployPod(desired: Desired, forceRestart: bool) returns (left: Desired)
      requires Valid()
      modifies this
      ensures Valid()
      ensures !forceRestart ==> DeploysOne(desired, old(pods), old(nextUid), pods, left)
      ensures forceRestart ==>
                pods == old(pods)[desired.pod.name := Stored(old(nextUid), Created(desired.pod))]
                && left == desired.Annotated()
      ensures forceRestart || !UpToDate(desired.pod, old(pods)) ==>
                pods == old(pods)[desired.pod.name :=
                          Stored(old(nextUid), desired.pod.(applied := Some(desired.pod)))]
      ensures nextUid == if pods == old(pods) then old(nextUid) else old(nextUid) + 1
    {
      var pod := desired.pod;
      if pod.name in pods {
        var curr := pods[pod.name].pod;
        if !forceRestart {
          var sanitized := new PodCopy(pod);
          sanitized.IgnoreInitContainerImages(curr);
          sanitized.IgnoreNodeAffinity(curr);
          assert sanitized.Value() == Sanitized(pod, curr.applied.value);
          UpToDateExactly(pod, curr.applied.value);
          if Some(sanitized.Value()) == curr.applied {
            return desired;
          }
        }
        Delete(pod.name);
      }
      var annotated := pod.(applied := Some(pod));
      left := if desired.hasMap then desired.(pod := annotated) else desired;
      Create(annotated);
    }

    /** What there is afterwards is what is desired, and what was up to date
        before is the same pod. */
    method DeployCustomerPods(desired: seq<Desired>) returns (left: seq<Desired>)
      requires Valid() && DistinctNames(desired)
      modifies this
      ensures Valid() && DeployedAll(desired, left, old(pods), old(nextUid), pods)
    {
      var currPods := pods.Keys;
      var desiredNames: set<string> := {};
      left := [];
      for n := 0 to |desired|
        invariant Valid() && old(nextUid) <= nextUid
        invariant Halfway(desired, left, n, old(pods), old(nextUid), pods)
        invariant desiredNames == Names(desired, n)
      {
        ghost var was, uid := pods, nextUid;
        var l := DeployPod(desired[n], false);
        OneMoreDeployed(desired, left, n, old(pods), old(nextUid), was, uid, pods, l);
        left := left + [l];
        desiredNames := desiredNames + {desired[n].pod.name};
      }
      WithoutStale(desired, left, old(pods), old(nextUid), pods);
      ghost var deployed := pods;
      DeleteStale(currPods, desiredNames);
      assert pods == map name | name in deployed && name in desiredNames :: deployed[name];
    }

    method DeleteStale(currPods: set<string>, desiredNames: set<string>)
      requires Valid()
      modifies this`pods
      ensures Valid()
      ensures forall name :: name in pods <==> name in old(pods) && (name in currPods ==> name in desiredNames)
      ensures forall name | name in pods :: pods[name] == old(pods)[name]
    {
      var left := currPods;
      while left != {}
        invariant Valid() && left <= currPods
        invariant forall name ::
          name in pods <==> name in old(pods) && (name in currPods - left ==> name in desiredNames)
        invariant forall name | name in pods :: pods[name] == old(pods)[name]
        decreases left
      {
        var name :| name in left;
        left := left - {name};
        if name !in desiredNames {
          Delete(name);
        }
      }
    }
  }

  /* ----- Deploying again ----- */

  lemma DeployedIsUpToDate(desired: Desired, left: Desired, before: map<string, Stored>, firstUid: nat,
                           now: map<string, Stored>)
    requires desired.pod.name in now && Deployed(desired, left, before, firstUid, now[desired.pod.name])
    requires Unambiguous(desired.pod.inits)
    ensures UpToDate(desired.pod, now)
  {
    AgreesWithItself(desired.pod);
  }

  /** Deploying the same pods once more, built afresh, changes nothing. */
  lemma DeployingAgainChangesNothing(desired: seq<Desired>, left: seq<Desired>, left': seq<Desired>,
                                     before: map<string, Stored>, now: map<string, Stored>,
                                     again: map<string, Stored>, firstUid: nat, nextUid: nat)
    requires DeployedAll(desired, left, before, firstUid, now) && DeployedAll(desired, left', now, nextUid, again)
    requires forall i | 0 <= i < |desired| :: Unambiguous(desired[i].pod.inits)
    ensures again == now
  {
    forall name | name in now ensures name in again && again[name] == now[name] {
      NamesExactly(desired, |desired|, name);
      var i :| 0 <= i < |desired| && desired[i].pod.name == name;
      DeployedIsUpToDate(desired[i], left[i], before, firstUid, now);
      assert Deployed(desired[i], left'[i], now, nextUid, again[name]);
    }
    assert again.Keys == now.Keys;
  }

  lemma NotItsOwnAnnotation(pod: Pod)
    ensures pod.applied != Some(pod)
  {
  }

  /** Deploying the very objects that were deployed before is another matter: if
      they had a map of annotations, it now holds what was applied. So those that
      were created the first time are created again, exactly if the map was there
      or two init containers of one name have different images. */
  lemma SameObjectsAreRecreated(desired: Desired, left: Desired, before: map<string, Stored>, firstUid: nat,
                                now: map<string, Stored>)
    requires desired.pod.name in now && Deployed(desired, left, before, firstUid, now[desired.pod.name])
    ensures left.pod.name == desired.pod.name
    ensures !UpToDate(left.pod, now) <==>
      !UpToDate(desired.pod, before) && (desired.hasMap || !Unambiguous(desired.pod.inits))
  {
    NotItsOwnAnnotation(desired.pod);
    AgreesWithItself(desired.pod);
  }
}
