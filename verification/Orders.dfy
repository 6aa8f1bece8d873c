/** Which volumes the sort can do harm to. The sort leaves the order of equal
    depths open; this module says, from the volumes alone, when that matters. */
module Orders {
  import opened Paths
  import opened Sorting
  import opened Stignore
  import opened Collapse
  import opened Ties
  import opened BindVolumes

  /* ----- Any order that refines the depths is possible ----- */

  /** Where a volume is mounted. */
  function MountPath(v: BindVolume, isDir: Path -> bool): Path {
    if isDir(v.localPath) || v.localPath == [] then v.localPath else v.localPath[..|v.localPath| - 1]
  }

  ghost function MountFrom(v: BindVolume, isDir: Path -> bool): (m: Mount)
    requires isDir([]) && [] !in v.masks
    ensures MountOf(v, isDir, m) && m.path == MountPath(v, isDir)
  {
    if isDir(v.localPath) then
      KeepsMasks(v.masks);
      Mount(v.localPath, [], Keep(SortMasks(v.masks), |SortMasks(v.masks)|), true)
    else Mount(v.localPath[..|v.localPath| - 1], [[v.localPath[|v.localPath| - 1]]], [], false)
  }

  /** The order of these keys is that of the depths; between equal ones roots come
      before others, or after them, and files before directories. */
  function TieKey(v: BindVolume, isDir: Path -> bool, tie: nat): nat
    requires tie < 3
  {
    3 * Depth(MountPath(v, isDir)) + tie
  }

  /** The keys only break ties between equal depths. */
  ghost predicate Refines(volumes: seq<BindVolume>, isDir: Path -> bool, keys: seq<nat>) {
    && |keys| == |volumes|
    && forall i, j | 0 <= i < |volumes| && 0 <= j < |volumes| ::
         Depth(MountPath(volumes[i], isDir)) < Depth(MountPath(volumes[j], isDir)) ==> keys[i] < keys[j]
  }

  lemma SomeOrder(volumes: seq<BindVolume>, isDir: Path -> bool, keys: seq<nat>)
    returns (order: seq<Mount>, perm: seq<nat>)
    requires Sensible(volumes, isDir) && Refines(volumes, isDir, keys)
    ensures Arranged(volumes, isDir, order, perm) && ClientOf(volumes, isDir, CollapseMounts(order))
    ensures forall i, j | 0 <= i < j < |order| :: keys[perm[i]] <= keys[perm[j]]
  {
    perm := SortByKey(keys);
    order := seq(|volumes|, k requires 0 <= k < |volumes| => MountFrom(volumes[perm[k]], isDir));
    forall i, j | 0 <= i < j < |order| ensures Depth(order[i].path) <= Depth(order[j].path) {
      assert keys[perm[i]] <= keys[perm[j]];
    }
    assert Arranged(volumes, isDir, order, perm);
  }

  /** The place of a volume in an order. */
  lemma PlaceOf(volumes: seq<BindVolume>, perm: seq<nat>, v: BindVolume) returns (k: nat)
    requires Permutes(perm, |volumes|) && v in volumes
    ensures k < |perm| && volumes[perm[k]] == v
  {
    var i :| 0 <= i < |volumes| && volumes[i] == v;
    assert i in perm;
    k :| 0 <= k < |perm| && perm[k] == i;
  }

  lemma PathOfMount(v: BindVolume, isDir: Path -> bool, m: Mount)
    requires MountOf(v, isDir, m)
    ensures m.path == MountPath(v, isDir)
    ensures m.syncAll <==> isDir(v.localPath)
    ensures Initial(m) ==> Target(m) == v.localPath
  {
    if !isDir(v.localPath) {
      var n := |v.localPath| - 1;
      assert v.localPath == v.localPath[..n] + [v.localPath[n]];
    }
  }

  /* ----- Staying nested ----- */

  /** Children before the root, of equal depths. */
  function RootsLast(volumes: seq<BindVolume>, isDir: Path -> bool): (keys: seq<nat>)
    ensures Refines(volumes, isDir, keys)
  {
    seq<nat>(|volumes|, i requires 0 <= i < |volumes| =>
      TieKey(volumes[i], isDir, if MountPath(volumes[i], isDir) == [] then 1 else 0))
  }

  /** A volume is mounted at the root and another one right below it. */
  ghost predicate RootAndChild(volumes: seq<BindVolume>, isDir: Path -> bool) {
    exists a, b :: a in volumes && b in volumes && MountPath(a, isDir) == [] && |MountPath(b, isDir)| == 1
  }

  lemma NestsSometimes(volumes: seq<BindVolume>, isDir: Path -> bool) returns (mounts: seq<Mount>)
    requires Sensible(volumes, isDir) && RootAndChild(volumes, isDir)
    ensures ClientOf(volumes, isDir, mounts) && !NotNested(mounts)
  {
    var a, b :| a in volumes && b in volumes && MountPath(a, isDir) == [] && |MountPath(b, isDir)| == 1;
    var order, perm := SomeOrder(volumes, isDir, RootsLast(volumes, isDir));
    var i := PlaceOf(volumes, perm, a);
    var j := PlaceOf(volumes, perm, b);
    PathOfMount(a, isDir, order[i]);
    assert order[0].path != [] by {
      PathOfMount(volumes[perm[0]], isDir, order[0]);
      assert RootsLast(volumes, isDir)[perm[0]] <= RootsLast(volumes, isDir)[perm[j]];
    }
    mounts := CollapseMounts(order);
    RootStays(order, i);
  }

  /** A root that does not come first is not absorbed by what does. */
  lemma RootStays(order: seq<Mount>, i: nat)
    requires i < |order| && order[i].path == [] && order[0].path != []
    ensures !NotNested(CollapseMounts(order))
  {
    assert order[1..][i - 1] == order[i];
    OutsideIn(order[0].path, order[1..], order[i]);
    var r := AbsorbedInto(Others(order), order[i]);
    RootBehind(First(order), CollapseMounts(Others(order)), r);
  }

  lemma RootBehind(first: Mount, rest: seq<Mount>, r: Mount)
    requires r in rest && r.path <= first.path
    ensures !NotNested([first] + rest)
  {
    var k :| 0 <= k < |rest| && rest[k] == r;
    var c := [first] + rest;
    assert c[k + 1] == r && c[0] == first;
  }

  lemma WithoutRootAndChild(volumes: seq<BindVolume>, isDir: Path -> bool, order: seq<Mount>, perm: seq<nat>)
    requires Arranged(volumes, isDir, order, perm) && !RootAndChild(volumes, isDir)
    ensures RootsFirst(order)
  {
    forall i, j | 0 <= i < j < |order| && order[j].path == [] ensures order[i].path == [] {
      PathOfMount(volumes[perm[i]], isDir, order[i]);
      PathOfMount(volumes[perm[j]], isDir, order[j]);
      assert Depth(order[i].path) <= Depth(order[j].path);
      assert volumes[perm[i]] in volumes && volumes[perm[j]] in volumes;
    }
  }

  /** No two mounts of a client are nested, however the sort decides, exactly if
      the root and a directory right below it are not both mounted. */
  lemma NeverNestedExactly(volumes: seq<BindVolume>, isDir: Path -> bool)
    requires Sensible(volumes, isDir)
    ensures (forall mounts | ClientOf(volumes, isDir, mounts) :: NotNested(mounts)) <==> !RootAndChild(volumes, isDir)
  {
    if RootAndChild(volumes, isDir) {
      var mounts := NestsSometimes(volumes, isDir);
    } else {
      forall mounts | ClientOf(volumes, isDir, mounts) ensures NotNested(mounts) {
        var order, perm :| Arranged(volumes, isDir, order, perm) && mounts == CollapseMounts(order);
        WithoutRootAndChild(volumes, isDir, order, perm);
        DepthOrder(order);
        CollapsedNotNested(order);
      }
    }
  }

  /* ----- Losing a directory ----- */

  /** File `f` lies in the directory volume `d`, and the directory of file `h`
      strictly above it; and `d` is in no other volume. */
  ghost predicate CanLoseAt(volumes: seq<BindVolume>, isDir: Path -> bool, f: BindVolume, d: BindVolume,
                            h: BindVolume) {
    && f in volumes && d in volumes && h in volumes
    && !isDir(f.localPath) && isDir(d.localPath) && !isDir(h.localPath)
    && MountPath(f, isDir) == d.localPath && MountPath(h, isDir) < d.localPath
    && forall v | v in volumes :: !(v.localPath < d.localPath)
  }

  ghost predicate CanLose(volumes: seq<BindVolume>, isDir: Path -> bool) {
    exists f, d, h :: CanLoseAt(volumes, isDir, f, d, h)
  }

  /** Roots before others, and files before directories, of equal depths. */
  function FilesFirst(volumes: seq<BindVolume>, isDir: Path -> bool): (keys: seq<nat>)
    ensures Refines(volumes, isDir, keys)
  {
    seq<nat>(|volumes|, i requires 0 <= i < |volumes| =>
      TieKey(volumes[i], isDir, TieRank(MountPath(volumes[i], isDir), isDir(volumes[i].localPath))))
  }

  function TieRank(path: Path, directory: bool): nat {
    if path == [] then 0 else if directory then 2 else 1
  }

  /** Such volumes lose something in some client. */
  lemma LosesSometimes(volumes: seq<BindVolume>, isDir: Path -> bool) returns (mounts: seq<Mount>)
    requires Sensible(volumes, isDir) && CanLose(volumes, isDir)
    ensures ClientOf(volumes, isDir, mounts) && !Faithful(volumes, isDir, mounts)
  {
    var f, d, h :| CanLoseAt(volumes, isDir, f, d, h);
    var order, perm := SomeOrder(volumes, isDir, FilesFirst(volumes, isDir));
    ArrangedIsInitial(volumes, isDir, order, perm);
    var k := PlaceOf(volumes, perm, h);
    var i := PlaceOf(volumes, perm, f);
    var j := PlaceOf(volumes, perm, d);
    KeysOfMounts(volumes, isDir, order, perm);
    KeysPutRootsFirst(order);
    TieOf(volumes, isDir, order, perm, k, i, j);
    assert BadTieAt(order, k, i, j);
    FaithfulIffNoBadTie(volumes, isDir, order, perm);
    mounts := CollapseMounts(order);
  }

  function FilesFirstKey(m: Mount): nat {
    3 * Depth(m.path) + TieRank(m.path, m.syncAll)
  }

  ghost predicate InFilesFirst(order: seq<Mount>) {
    forall a, b | 0 <= a < b < |order| :: FilesFirstKey(order[a]) <= FilesFirstKey(order[b])
  }

  lemma KeysPutRootsFirst(order: seq<Mount>)
    requires InFilesFirst(order)
    ensures RootsFirst(order)
  {
    forall i, j | 0 <= i < j < |order| && order[j].path == [] ensures order[i].path == [] {
      assert FilesFirstKey(order[i]) <= FilesFirstKey(order[j]);
    }
  }

  /** In an order by these keys, a directory comes after its files. */
  lemma TieAmong(order: seq<Mount>, h: nat, i: nat, j: nat)
    requires AllInitial(order) && h < |order| && i < |order| && j < |order| && InFilesFirst(order)
    requires !order[i].syncAll && order[j].syncAll && order[i].path == order[j].path
    requires order[h].path < order[i].path
    requires forall k | 0 <= k < i ::
      Target(order[k]) <= order[i].path ==> order[k].syncAll && order[k].path == order[i].path
    ensures BadTieAt(order, h, i, j)
  {
    forall k | 0 <= k < i ensures !(Target(order[k]) <= order[i].path) {
      assert FilesFirstKey(order[k]) <= FilesFirstKey(order[i]);
    }
  }

  lemma KeysOfMounts(volumes: seq<BindVolume>, isDir: Path -> bool, order: seq<Mount>, perm: seq<nat>)
    requires Arranged(volumes, isDir, order, perm)
    requires forall a, b | 0 <= a < b < |order| ::
      FilesFirst(volumes, isDir)[perm[a]] <= FilesFirst(volumes, isDir)[perm[b]]
    ensures InFilesFirst(order)
  {
    forall k | 0 <= k < |order| ensures FilesFirst(volumes, isDir)[perm[k]] == FilesFirstKey(order[k]) {
      PathOfMount(volumes[perm[k]], isDir, order[k]);
    }
  }

  lemma OnlyItself(a: Path, b: Path)
    requires a <= b && !(a < b)
    ensures a == b
  {
  }

  /** Of the volumes that could hold the lost directory only it itself does. */
  lemma HoldsOnlyItself(volumes: seq<BindVolume>, isDir: Path -> bool, v: BindVolume, d: BindVolume, m: Mount)
    requires v in volumes && isDir(d.localPath) && MountOf(v, isDir, m) && Initial(m)
    requires forall w | w in volumes :: !(w.localPath < d.localPath)
    requires Target(m) <= d.localPath
    ensures m.syncAll && m.path == d.localPath
  {
    PathOfMount(v, isDir, m);
    OnlyItself(v.localPath, d.localPath);
  }

  lemma TieOf(volumes: seq<BindVolume>, isDir: Path -> bool, order: seq<Mount>, perm: seq<nat>, h: nat, i: nat, j: nat)
    requires Arranged(volumes, isDir, order, perm) && AllInitial(order) && InFilesFirst(order)
    requires h < |order| && i < |order| && j < |order|
    requires CanLoseAt(volumes, isDir, volumes[perm[i]], volumes[perm[j]], volumes[perm[h]])
    ensures BadTieAt(order, h, i, j)
  {
    PathOfMount(volumes[perm[h]], isDir, order[h]);
    PathOfMount(volumes[perm[i]], isDir, order[i]);
    PathOfMount(volumes[perm[j]], isDir, order[j]);
    forall k | 0 <= k < i && Target(order[k]) <= order[i].path
      ensures order[k].syncAll && order[k].path == order[i].path
    {
      HoldsOnlyItself(volumes, isDir, volumes[perm[k]], volumes[perm[j]], order[k]);
    }
    TieAmong(order, h, i, j);
  }

  lemma LosesOnlyThen(volumes: seq<BindVolume>, isDir: Path -> bool, mounts: seq<Mount>)
    requires Sensible(volumes, isDir) && !RootAndChild(volumes, isDir)
    requires ClientOf(volumes, isDir, mounts) && !Faithful(volumes, isDir, mounts)
    ensures CanLose(volumes, isDir)
  {
    var order, perm :| Arranged(volumes, isDir, order, perm) && mounts == CollapseMounts(order);
    WithoutRootAndChild(volumes, isDir, order, perm);
    FaithfulIffNoBadTie(volumes, isDir, order, perm);
    var h: nat, i: nat, j: nat :| BadTieAt(order, h, i, j);
    TieIsLoss(volumes, isDir, order, perm, h, i, j);
  }

  lemma TieIsLoss(volumes: seq<BindVolume>, isDir: Path -> bool, order: seq<Mount>, perm: seq<nat>, h: nat, i: nat,
                  j: nat)
    requires Arranged(volumes, isDir, order, perm) && AllInitial(order) && RootsFirst(order) && BadTieAt(order, h, i, j)
    ensures CanLoseAt(volumes, isDir, volumes[perm[i]], volumes[perm[j]], volumes[perm[h]])
  {
    PathOfMount(volumes[perm[h]], isDir, order[h]);
    PathOfMount(volumes[perm[i]], isDir, order[i]);
    PathOfMount(volumes[perm[j]], isDir, order[j]);
    DepthOrder(order);
    forall v | v in volumes ensures !(v.localPath < volumes[perm[j]].localPath) {
      var k := PlaceOf(volumes, perm, v);
      PathOfMount(v, isDir, order[k]);
      NoTargetAbove(order, i, k);
    }
  }

  /** The directory of a file that is the first one into it is in no volume. */
  lemma NoTargetAbove(order: seq<Mount>, i: nat, k: nat)
    requires AllInitial(order) && ShallowFirst(order) && i < |order| && k < |order|
    requires FirstInto(order, i) && !order[i].syncAll
    ensures !(Target(order[k]) < order[i].path)
  {
    if k > i {
      assert !(order[k].path < order[i].path);
    }
  }

  /** Every volume is synced in full, however the sort decides, exactly if no
      directory can be lost. */
  lemma FaithfulHoweverSorted(volumes: seq<BindVolume>, isDir: Path -> bool)
    requires Sensible(volumes, isDir) && !RootAndChild(volumes, isDir)
    ensures (forall mounts | ClientOf(volumes, isDir, mounts) :: Faithful(volumes, isDir, mounts)) <==>
      !CanLose(volumes, isDir)
  {
    if CanLose(volumes, isDir) {
      var mounts := LosesSometimes(volumes, isDir);
    } else {
      forall mounts | ClientOf(volumes, isDir, mounts) ensures Faithful(volumes, isDir, mounts) {
        if !Faithful(volumes, isDir, mounts) {
          LosesOnlyThen(volumes, isDir, mounts);
        }
      }
    }
  }

  /** From volumes to synced paths, whatever the sort does with equal depths. */
  lemma ClientSyncsVolumes(volumes: seq<BindVolume>, isDir: Path -> bool, mounts: seq<Mount>, x: Path)
    requires Sensible(volumes, isDir) && !RootAndChild(volumes, isDir) && !CanLose(volumes, isDir)
    requires ClientOf(volumes, isDir, mounts)
    ensures Faithful(volumes, isDir, mounts)
    ensures SyncedBySome(mounts, x) ==> exists v :: v in volumes && (v.localPath <= x || x <= v.localPath)
  {
    FaithfulHoweverSorted(volumes, isDir);
    if SyncedBySome(mounts, x) {
      var order, perm :| Arranged(volumes, isDir, order, perm) && mounts == CollapseMounts(order);
      SyncsNothingElse(volumes, isDir, order, perm, x);
    }
  }

  /** The smallest loss: the volumes p/file, p/dir/f and p/dir, and a client for
      them that does not sync the other contents of p/dir. */
  lemma LostDirectoryExample(p: Path, dir: Name, file: Name, f: Name, other: Name, isDir: Path -> bool)
    returns (volumes: seq<BindVolume>, mounts: seq<Mount>)
    requires p != [] && file != dir && f != other
    requires OnlyFiles(isDir, p + [file], p + [dir, f])
    ensures volumes == [BindVolume(p + [file], []), BindVolume(p + [dir, f], []), BindVolume(p + [dir], [])]
    ensures Sensible(volumes, isDir) && !RootAndChild(volumes, isDir)
    ensures ClientOf(volumes, isDir, mounts) && mounts == [Mount(p, [[file], [dir, f], [dir]], [], false)]
    ensures VolumeNeeds(volumes[2], isDir, p + [dir, other]) && !SyncedBySome(mounts, p + [dir, other])
  {
    volumes := LostVolumes(p, dir, file, f);
    mounts := CollapseMounts(LostOrder(p, dir, file, f));
    LostDirectoryCollapse(p, dir, file, f);
    LostDirectorySensible(p, dir, file, f, isDir);
    LostDirectoryOrder(p, dir, file, f, isDir);
    IsClient(volumes, isDir, LostOrder(p, dir, file, f), [0, 1, 2]);
    LostDirectoryLoses(p, dir, file, f, other);
    LostDirectoryNeeds(p, dir, file, f, other, isDir);
  }

  predicate OnlyFilesAt(isDir: Path -> bool, a: Path, b: Path, x: Path) {
    isDir(x) <==> x != a && x != b
  }

  /** Everything but these two is a directory. */
  ghost predicate OnlyFiles(isDir: Path -> bool, a: Path, b: Path) {
    forall x :: OnlyFilesAt(isDir, a, b, x)
  }

  function LostVolumes(p: Path, dir: Name, file: Name, f: Name): seq<BindVolume> {
    [BindVolume(p + [file], []), BindVolume(p + [dir, f], []), BindVolume(p + [dir], [])]
  }

  function LostOrder(p: Path, dir: Name, file: Name, f: Name): seq<Mount> {
    [Mount(p, [[file]], [], false), Mount(p + [dir], [[f]], [], false), Mount(p + [dir], [], [], true)]
  }

  lemma IsClient(volumes: seq<BindVolume>, isDir: Path -> bool, order: seq<Mount>, perm: seq<nat>)
    requires Arranged(volumes, isDir, order, perm)
    ensures ClientOf(volumes, isDir, CollapseMounts(order))
  {
  }

  lemma LostDirectorySensible(p: Path, dir: Name, file: Name, f: Name, isDir: Path -> bool)
    requires p != [] && OnlyFiles(isDir, p + [file], p + [dir, f])
    ensures Sensible(LostVolumes(p, dir, file, f), isDir) && !RootAndChild(LostVolumes(p, dir, file, f), isDir)
  {
    assert OnlyFilesAt(isDir, p + [file], p + [dir, f], []);
    NoneAtRoot(LostVolumes(p, dir, file, f), isDir);
  }

  lemma LostDirectoryNeeds(p: Path, dir: Name, file: Name, f: Name, other: Name, isDir: Path -> bool)
    requires file != dir && OnlyFiles(isDir, p + [file], p + [dir, f])
    ensures VolumeNeeds(BindVolume(p + [dir], []), isDir, p + [dir, other])
  {
    assert p + [dir, other] == (p + [dir]) + [other];
    DirectoryAt(p, dir, file, f, isDir);
  }

  lemma DirectoryAt(p: Path, dir: Name, file: Name, f: Name, isDir: Path -> bool)
    requires file != dir && OnlyFiles(isDir, p + [file], p + [dir, f])
    ensures isDir(p + [dir]) && !isDir(p + [file]) && !isDir(p + [dir, f])
  {
    assert (p + [dir])[|p|] == dir && (p + [file])[|p|] == file;
    assert OnlyFilesAt(isDir, p + [file], p + [dir, f], p + [dir]);
    assert OnlyFilesAt(isDir, p + [file], p + [dir, f], p + [file]);
    assert OnlyFilesAt(isDir, p + [file], p + [dir, f], p + [dir, f]);
  }

  lemma NoneAtRoot(volumes: seq<BindVolume>, isDir: Path -> bool)
    requires forall i | 0 <= i < |volumes| :: |volumes[i].localPath| > 1
    ensures !RootAndChild(volumes, isDir)
  {
  }

  lemma FileMount(v: BindVolume, isDir: Path -> bool, path: Path, name: Name)
    requires v.localPath == path + [name] && !isDir(v.localPath)
    ensures MountOf(v, isDir, Mount(path, [[name]], [], false))
  {
    assert v.localPath[..|v.localPath| - 1] == path;
  }

  lemma DirectoryMount(v: BindVolume, isDir: Path -> bool)
    requires isDir(v.localPath) && Apart(v.masks)
    ensures MountOf(v, isDir, Mount(v.localPath, [], v.masks, true))
  {
  }

  lemma LostDirectoryLoses(p: Path, dir: Name, file: Name, f: Name, other: Name)
    requires file != dir && f != other
    ensures !SyncedBySome([Mount(p, [[file], [dir, f], [dir]], [], false)], p + [dir, other])
  {
    var r := Mount(p, [[file], [dir, f], [dir]], [], false);
    var rel: Path := [dir, other];
    LostDirectoryRules(r, dir, file, f, other);
    NotSynced(r, p + rel, rel);
  }

  lemma LostDirectoryOrder(p: Path, dir: Name, file: Name, f: Name, isDir: Path -> bool)
    requires p != [] && file != dir && OnlyFiles(isDir, p + [file], p + [dir, f])
    ensures Arranged(LostVolumes(p, dir, file, f), isDir, LostOrder(p, dir, file, f), [0, 1, 2])
  {
    var volumes, order := LostVolumes(p, dir, file, f), LostOrder(p, dir, file, f);
    DirectoryAt(p, dir, file, f, isDir);
    assert p + [dir, f] == (p + [dir]) + [f];
    FileMount(volumes[0], isDir, p, file);
    FileMount(volumes[1], isDir, p + [dir], f);
    DirectoryMount(volumes[2], isDir);
    assert forall i | 0 <= i < 3 :: [0, 1, 2][i] == i;
    assert forall k | 0 <= k < 3 :: MountOf(volumes[k], isDir, order[k]);
  }

  lemma LostDirectoryRules(r: Mount, dir: Name, file: Name, f: Name, other: Name)
    requires file != dir && f != other && r.includes == [[file], [dir, f], [dir]]
    ensures forall y | y in r.includes :: !([dir, other] <= y)
    ensures forall y | IsLeaf(r.includes, y) :: !(y <= [dir, other])
  {
    assert [dir] < [dir, f];
    assert [dir] in r.includes && [dir, f] in r.includes;
    assert [dir, f][1] != [dir, other][1] && [file][0] != [dir, other][0];
  }

  lemma LostDirectoryCollapse(p: Path, dir: Name, file: Name, f: Name)
    requires file != dir
    ensures CollapseMounts(LostOrder(p, dir, file, f)) == [Mount(p, [[file], [dir, f], [dir]], [], false)]
  {
    var m0, m1, m2 := Mount(p, [[file]], [], false), Mount(p + [dir], [[f]], [], false), Mount(p + [dir], [], [], true);
    LostDirectoryMerge(p, dir, file, f);
    assert [m0, m1, m2] == [m0] + [m1, m2] && [m1, m2] == [m1] + [m2] && [m1] == [] + [m1];
    WithLast(m0, [], m1);
    WithLast(m0, [m1], m2);
    CollapseHead(m0, [m1, m2]);
  }

  lemma LostDirectoryMerge(p: Path, dir: Name, file: Name, f: Name)
    requires file != dir
    ensures p <= p + [dir]
    ensures AbsorbAll(Mount(p, [[file]], [], false),
                      [Mount(p + [dir], [[f]], [], false), Mount(p + [dir], [], [], true)])
      == Mount(p, [[file], [dir, f], [dir]], [], false)
  {
    var m0, m1, m2 := Mount(p, [[file]], [], false), Mount(p + [dir], [[f]], [], false), Mount(p + [dir], [], [], true);
    WithLast(m0, [], m1);
    assert [] + [m1] == [m1] && [m1] + [m2] == [m1, m2];
    WithLast(m0, [m1], m2);
    LostFileMerge(p, dir, file, f);
    LostTreeMerge(p, dir, file, f);
  }

  lemma LostFileMerge(p: Path, dir: Name, file: Name, f: Name)
    requires file != dir
    ensures Absorb(Mount(p, [[file]], [], false), Mount(p + [dir], [[f]], [], false)) ==
              Mount(p, [[file], [dir, f]], [], false)
  {
    assert (p + [dir])[|p|..] == [dir];
    assert [[f]][..0] == [];
    assert Joined([dir], [[f]]) == [[dir] + [f]] && [dir] + [f] == [dir, f];
    assert [file][0] != [dir][0];
    assert [[file]] + [[dir, f]] == [[file], [dir, f]];
  }

  lemma LostTreeMerge(p: Path, dir: Name, file: Name, f: Name)
    requires file != dir
    ensures Absorb(Mount(p, [[file], [dir, f]], [], false), Mount(p + [dir], [], [], true))
      == Mount(p, [[file], [dir, f], [dir]], [], false)
  {
    assert (p + [dir])[|p|..] == [dir];
    assert [file][0] != [dir][0] && |[dir, f]| > |[dir]|;
    assert [[file], [dir, f]] + [[dir]] == [[file], [dir, f], [dir]];
  }

  /* ----- With the root and a directory right below it ----- */

  /** The volumes of the smallest loss, below /p, beside one of "/" that masks /p.
      `CanLose` does not see it, as "/" holds everything. But the sort may put the
      mount of /p before that of "/", which then does not take it in. */
  lemma LostBesideRoot(p: Name, dir: Name, file: Name, f: Name, other: Name, isDir: Path -> bool)
    returns (volumes: seq<BindVolume>, mounts: seq<Mount>)
    requires file != dir && f != other && OnlyFiles(isDir, [p, file], [p, dir, f])
    ensures volumes == [BindVolume([p, file], []), BindVolume([], [[p]]), BindVolume([p, dir, f], []),
                        BindVolume([p, dir], [])]
    ensures Sensible(volumes, isDir) && RootAndChild(volumes, isDir) && !CanLose(volumes, isDir)
    ensures ClientOf(volumes, isDir, mounts) && !Faithful(volumes, isDir, mounts)
    ensures mounts == [Mount([p], [[file], [dir, f], [dir]], [], false), Mount([], [], [[p]], true)]
  {
    volumes := VolumesBesideRoot(p, dir, file, f);
    mounts := CollapseMounts(OrderBesideRoot(p, dir, file, f));
    BesideRootCollapse(p, dir, file, f);
    BesideRootOrder(p, dir, file, f, isDir);
    IsClient(volumes, isDir, OrderBesideRoot(p, dir, file, f), [0, 1, 2, 3]);
    SensibleBesideRoot(p, dir, file, f, isDir);
    BesideRootIsBoth(volumes, isDir, p, file);
    NotSyncedBesideRoot(p, dir, file, f, other);
    NeededBesideRoot(p, dir, file, f, other, isDir);
    NotFaithful(volumes, isDir, mounts, volumes[3], [p, dir, other]);
  }

  lemma NotFaithful(volumes: seq<BindVolume>, isDir: Path -> bool, mounts: seq<Mount>, v: BindVolume, x: Path)
    requires v in volumes && VolumeNeeds(v, isDir, x) && !SyncedBySome(mounts, x)
    ensures !Faithful(volumes, isDir, mounts)
  {
  }

  function VolumesBesideRoot(p: Name, dir: Name, file: Name, f: Name): seq<BindVolume> {
    [BindVolume([p, file], []), BindVolume([], [[p]]), BindVolume([p, dir, f], []), BindVolume([p, dir], [])]
  }

  function OrderBesideRoot(p: Name, dir: Name, file: Name, f: Name): seq<Mount> {
    [Mount([p], [[file]], [], false), Mount([], [], [[p]], true), Mount([p, dir], [[f]], [], false),
     Mount([p, dir], [], [], true)]
  }

  lemma SensibleBesideRoot(p: Name, dir: Name, file: Name, f: Name, isDir: Path -> bool)
    requires isDir([])
    ensures Sensible(VolumesBesideRoot(p, dir, file, f), isDir)
  {
  }

  lemma NeededBesideRoot(p: Name, dir: Name, file: Name, f: Name, other: Name, isDir: Path -> bool)
    requires file != dir && OnlyFiles(isDir, [p, file], [p, dir, f])
    ensures VolumeNeeds(BindVolume([p, dir], []), isDir, [p, dir, other])
  {
    assert [p] + [file] == [p, file] && [p] + [dir, f] == [p, dir, f] && [p] + [dir] == [p, dir];
    assert [p] + [dir, other] == [p, dir, other];
    LostDirectoryNeeds([p], dir, file, f, other, isDir);
  }

  lemma BesideRootIsBoth(volumes: seq<BindVolume>, isDir: Path -> bool, p: Name, file: Name)
    requires BindVolume([], [[p]]) in volumes && BindVolume([p, file], []) in volumes
    requires isDir([]) && !isDir([p, file])
    ensures RootAndChild(volumes, isDir) && !CanLose(volumes, isDir)
  {
    assert BindVolume([], [[p]]).localPath == [];
    assert MountPath(BindVolume([p, file], []), isDir) == [p];
  }

  lemma BesideRootMounts(p: Name, dir: Name, file: Name, f: Name, isDir: Path -> bool)
    requires isDir([]) && isDir([p, dir]) && !isDir([p, file]) && !isDir([p, dir, f])
    ensures forall k | 0 <= k < 4 ::
      MountOf(VolumesBesideRoot(p, dir, file, f)[k], isDir, OrderBesideRoot(p, dir, file, f)[k])
  {
    var volumes := VolumesBesideRoot(p, dir, file, f);
    assert [p, dir] + [f] == [p, dir, f] && [p] + [file] == [p, file];
    FileMount(volumes[0], isDir, [p], file);
    DirectoryMount(volumes[1], isDir);
    FileMount(volumes[2], isDir, [p, dir], f);
    DirectoryMount(volumes[3], isDir);
  }

  lemma BesideRootOrder(p: Name, dir: Name, file: Name, f: Name, isDir: Path -> bool)
    requires file != dir && OnlyFiles(isDir, [p, file], [p, dir, f])
    ensures isDir([]) && !isDir([p, file])
    ensures Arranged(VolumesBesideRoot(p, dir, file, f), isDir, OrderBesideRoot(p, dir, file, f), [0, 1, 2, 3])
  {
    assert [p] + [file] == [p, file] && [p] + [dir, f] == [p, dir, f] && [p] + [dir] == [p, dir];
    DirectoryAt([p], dir, file, f, isDir);
    assert OnlyFilesAt(isDir, [p, file], [p, dir, f], []);
    BesideRootMounts(p, dir, file, f, isDir);
    assert forall i | 0 <= i < 4 :: [0, 1, 2, 3][i] == i;
  }

  lemma BesideRootCollapse(p: Name, dir: Name, file: Name, f: Name)
    requires file != dir
    ensures CollapseMounts(OrderBesideRoot(p, dir, file, f))
      == [Mount([p], [[file], [dir, f], [dir]], [], false), Mount([], [], [[p]], true)]
  {
    var order := OrderBesideRoot(p, dir, file, f);
    var m0, root, m1, m2 := order[0], order[1], order[2], order[3];
    LostFileMerge([p], dir, file, f);
    LostTreeMerge([p], dir, file, f);
    assert [p] + [dir] == [p, dir];
    assert [] + [root] == [root] && [root] + [m1] == [root, m1] && [root, m1] + [m2] == [root, m1, m2];
    WithLast(m0, [], root);
    WithLast(m0, [root], m1);
    WithLast(m0, [root, m1], m2);
    assert Outside([p], [root, m1, m2]) == [root];
    assert order == [m0] + [root, m1, m2];
    CollapseHead(m0, [root, m1, m2]);
    CollapseHead(root, []);
    assert [root] + [] == [root];
  }

  lemma NotSyncedBesideRoot(p: Name, dir: Name, file: Name, f: Name, other: Name)
    requires file != dir && f != other
    ensures !SyncedBySome([Mount([p], [[file], [dir, f], [dir]], [], false), Mount([], [], [[p]], true)],
                          [p, dir, other])
  {
    var r, rel := Mount([p], [[file], [dir, f], [dir]], [], false), [dir, other];
    assert [p] + rel == [p, dir, other];
    LostDirectoryRules(r, dir, file, f, other);
    NotSynced(r, [p, dir, other], rel);
    MaskedIsNotSynced(Mount([], [], [[p]], true), [p, dir, other], [p]);
  }

  lemma MaskedIsNotSynced(m: Mount, x: Path, mask: Path)
    requires m.Valid() && m.syncAll && m.path == [] && x != [] && mask in m.ignores && mask <= x
    ensures !Synced(m, x)
  {
    assert x[0..] == x;
    forall rules | CompiledFrom(m, rules) ensures Ignored(rules, x) {
      UnignoredWhenSyncAll(m, rules, x);
    }
  }
}
