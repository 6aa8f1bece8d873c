/** From bind volumes to Syncthing mounts, end to end: what the mounts of a
    client keep, against what its volumes need. */
module BindVolumes {
  import opened Paths
  import opened Sorting
  import opened Stignore
  import opened Collapse
  import opened Ties

  /** A bind volume with the subdirectories masked off by native volumes. */
  datatype BindVolume = BindVolume(localPath: Path, masks: seq<Path>)

  /** Separators in a relative path; "." has as many as "a". */
  function MaskDepth(p: Path): nat {
    if p == [] then 0 else |p| - 1
  }

  /** Separators in an absolute path; "/" has as many as "/a". */
  function Depth(p: Path): nat {
    if p == [] then 1 else |p|
  }

  /* ----- The program ----- */

  predicate ByDepth(masks: seq<Path>) {
    forall i, j | 0 <= i < j < |masks| :: MaskDepth(masks[i]) <= MaskDepth(masks[j])
  }

  function SortMasks(masks: seq<Path>): (sorted: seq<Path>)
    ensures forall q :: q in sorted <==> q in masks
    ensures ByDepth(sorted)
  {
    var perm := SortByKey(seq(|masks|, k requires 0 <= k < |masks| => MaskDepth(masks[k])));
    var sorted := seq(|masks|, k requires 0 <= k < |masks| => masks[perm[k]]);
    assert forall q | q in masks :: q in sorted by {
      forall q | q in masks ensures q in sorted {
        var i :| 0 <= i < |masks| && masks[i] == q;
        assert i in perm;
        var k :| 0 <= k < |perm| && perm[k] == i;
        assert sorted[k] == q;
      }
    }
    sorted
  }

  ghost predicate DepthSorted(order: seq<Mount>) {
    forall i, j | 0 <= i < j < |order| :: Depth(order[i].path) <= Depth(order[j].path)
  }

  method SortMounts(mounts: seq<Mount>) returns (sorted: seq<Mount>, ghost perm: seq<nat>)
    ensures Permutes(perm, |mounts|) && |sorted| == |mounts|
    ensures forall k | 0 <= k < |sorted| :: sorted[k] == mounts[perm[k]]
    ensures DepthSorted(sorted)
  {
    var p := SortByKey(seq(|mounts|, k requires 0 <= k < |mounts| => Depth(mounts[k].path)));
    sorted := seq(|mounts|, k requires 0 <= k < |mounts| => mounts[p[k]]);
    perm := p;
  }

  /** Masks that lie in another mask are dropped; together the rest mask the
      same paths. */
  method CollapseIgnores(masks: seq<Path>) returns (collapsed: seq<Path>)
    ensures SameMasks(collapsed, masks)
    ensures [] !in masks ==> Apart(collapsed)
  {
    var sorted := SortMasks(masks);
    collapsed := [];
    for n := 0 to |sorted|
      invariant collapsed == Keep(sorted, n)
    {
      var found := FallsUnder(collapsed, sorted[n]);
      if !found {
        collapsed := collapsed + [sorted[n]];
      }
    }
    KeepsMasks(masks);
  }

  /** The first `n` masks, without those that lie in one before. */
  ghost function Keep(sorted: seq<Path>, n: nat): seq<Path>
    requires n <= |sorted|
  {
    if n == 0 then [] else KeepOne(Keep(sorted, n - 1), sorted[n - 1])
  }

  ghost function KeepOne(kept: seq<Path>, mask: Path): seq<Path> {
    if UnderSome(kept, mask) then kept else kept + [mask]
  }

  lemma {:induction false} KeepsApart(sorted: seq<Path>, n: nat)
    requires n <= |sorted| && ByDepth(sorted)
    ensures Kept(sorted, n, Keep(sorted, n))
  {
    if n > 0 {
      KeepsApart(sorted, n - 1);
      KeepsNext(sorted, n - 1, Keep(sorted, n - 1));
    }
  }

  lemma KeepsNext(sorted: seq<Path>, n: nat, kept: seq<Path>)
    requires n < |sorted| && ByDepth(sorted) && Kept(sorted, n, kept)
    ensures Kept(sorted, n + 1, KeepOne(kept, sorted[n]))
  {
    if UnderSome(kept, sorted[n]) {
      KeptUnder(sorted, n, kept);
    } else {
      KeptWith(sorted, n, kept);
    }
  }

  lemma KeepsMasks(masks: seq<Path>)
    ensures SameMasks(Keep(SortMasks(masks), |SortMasks(masks)|), masks)
    ensures [] !in masks ==> Apart(Keep(SortMasks(masks), |SortMasks(masks)|))
  {
    var sorted := SortMasks(masks);
    KeepsApart(sorted, |sorted|);
    assert sorted[..|sorted|] == sorted;
    MaskedAlike(Keep(sorted, |sorted|), sorted, masks);
  }

  /** What has been kept of the first `n` masks. */
  ghost predicate Kept(sorted: seq<Path>, n: nat, collapsed: seq<Path>)
    requires n <= |sorted|
  {
    && (forall q | q in collapsed :: q in sorted[..n])
    && (forall k {:trigger UnderSome(collapsed, sorted[k])} | 0 <= k < n :: UnderSome(collapsed, sorted[k]))
    && ([] !in sorted ==> Apart(collapsed))
  }

  lemma KeptUnder(sorted: seq<Path>, n: nat, collapsed: seq<Path>)
    requires n < |sorted| && Kept(sorted, n, collapsed) && UnderSome(collapsed, sorted[n])
    ensures Kept(sorted, n + 1, collapsed)
  {
    forall q | q in collapsed ensures q in sorted[..n + 1] {
      TakeMore(sorted, n, q);
    }
    forall k | 0 <= k < n + 1 ensures UnderSome(collapsed, sorted[k]) {
      assert k < n || k == n;
    }
  }

  lemma TakeMore(sorted: seq<Path>, n: nat, q: Path)
    requires n < |sorted|
    ensures q in sorted[..n + 1] <==> q in sorted[..n] || q == sorted[n]
  {
    assert sorted[..n + 1] == sorted[..n] + [sorted[n]];
  }

  lemma KeptWith(sorted: seq<Path>, n: nat, collapsed: seq<Path>)
    requires n < |sorted| && Kept(sorted, n, collapsed) && !UnderSome(collapsed, sorted[n])
    requires ByDepth(sorted)
    ensures Kept(sorted, n + 1, collapsed + [sorted[n]])
  {
    var more := collapsed + [sorted[n]];
    forall q | q in more ensures q in sorted[..n + 1] {
      TakeMore(sorted, n, q);
    }
    forall k | 0 <= k <= n ensures UnderSome(more, sorted[k]) {
      UnderOneMore(collapsed, sorted[n], sorted[k]);
    }
    if [] !in sorted {
      ApartWith(sorted, n, collapsed);
    }
  }

  lemma UnderOneMore(collapsed: seq<Path>, q: Path, ignore: Path)
    requires UnderSome(collapsed, ignore) || q <= ignore
    ensures UnderSome(collapsed + [q], ignore)
  {
    if p :| p in collapsed && p <= ignore {
      assert p in collapsed + [q];
    } else {
      assert q in collapsed + [q];
    }
  }

  ghost predicate UnderSome(collapsed: seq<Path>, ignore: Path) {
    exists q :: q in collapsed && q <= ignore
  }

  ghost predicate Apart(paths: seq<Path>) {
    forall i, j | 0 <= i < |paths| && 0 <= j < |paths| && i != j :: !(paths[i] <= paths[j])
  }

  method FallsUnder(collapsed: seq<Path>, ignore: Path) returns (found: bool)
    ensures found <==> UnderSome(collapsed, ignore)
  {
    for k := 0 to |collapsed|
      invariant forall i | 0 <= i < k :: !(collapsed[i] <= ignore)
    {
      if GetSubpath(collapsed[k], ignore).Some? {
        assert collapsed[k] in collapsed;
        return true;
      }
    }
    return false;
  }

  lemma ApartWith(sorted: seq<Path>, n: nat, collapsed: seq<Path>)
    requires n < |sorted| && [] !in sorted && Apart(collapsed) && !UnderSome(collapsed, sorted[n])
    requires ByDepth(sorted)
    requires forall q | q in collapsed :: q in sorted[..n]
    ensures Apart(collapsed + [sorted[n]])
  {
    forall i | 0 <= i < |collapsed| ensures !(sorted[n] <= collapsed[i]) && !(collapsed[i] <= sorted[n]) {
      assert collapsed[i] in collapsed && collapsed[i] in sorted[..n];
      var from :| 0 <= from < n && sorted[from] == collapsed[i];
      assert sorted[n] in sorted && sorted[from] in sorted;
      assert MaskDepth(sorted[from]) <= MaskDepth(sorted[n]);
    }
  }

  /** The two lists mask the same paths, and the first adds none of its own. */
  ghost predicate SameMasks(ignores: seq<Path>, masks: seq<Path>) {
    && (forall q | q in ignores :: q in masks)
    && (forall x :: Masked(ignores, x) <==> Masked(masks, x))
  }

  lemma MaskedAlike(collapsed: seq<Path>, sorted: seq<Path>, masks: seq<Path>)
    requires forall q | q in collapsed :: q in sorted
    requires forall k | 0 <= k < |sorted| :: UnderSome(collapsed, sorted[k])
    requires forall q :: q in sorted <==> q in masks
    ensures SameMasks(collapsed, masks)
  {
    forall x ensures Masked(collapsed, x) <==> Masked(masks, x) {
      if Masked(masks, x) {
        var g :| g in masks && g <= x;
        var k :| 0 <= k < |sorted| && sorted[k] == g;
        var q :| q in collapsed && q <= sorted[k];
        PrefixTransitive(q, g, x);
      }
    }
  }

  /** The mount of one volume: all of a directory, or one file of its parent. */
  ghost predicate MountOf(v: BindVolume, isDir: Path -> bool, m: Mount) {
    if isDir(v.localPath) then
      m.path == v.localPath && m.syncAll && m.includes == []
      && SameMasks(m.ignores, v.masks) && Apart(m.ignores)
    else
      && v.localPath != []
      && m == Mount(v.localPath[..|v.localPath| - 1], [[v.localPath[|v.localPath| - 1]]], [], false)
  }

  /** "/" is a directory, and no volume is masked as a whole. */
  ghost predicate Sensible(volumes: seq<BindVolume>, isDir: Path -> bool) {
    && isDir([])
    && forall v | v in volumes :: [] !in v.masks
  }

  /** `order` lists the volumes' mounts from shallow to deep, the k-th being
      that of volume `perm[k]`. */
  ghost predicate Arranged(volumes: seq<BindVolume>, isDir: Path -> bool, order: seq<Mount>, perm: seq<nat>) {
    && DepthSorted(order) && |order| == |volumes| && Permutes(perm, |volumes|)
    && forall k | 0 <= k < |order| :: MountOf(volumes[perm[k]], isDir, order[k])
  }

  /** The mounts of a client are the collapse of some depth-sorted listing of
      the volumes' mounts; which one, the sort does not say. */
  ghost predicate ClientOf(volumes: seq<BindVolume>, isDir: Path -> bool, mounts: seq<Mount>) {
    exists order, perm :: Arranged(volumes, isDir, order, perm) && mounts == CollapseMounts(order)
  }

  /** Lists, sorts and collapses, each in a loop. */
  method NewClient(volumes: seq<BindVolume>, isDir: Path -> bool) returns (mounts: seq<Mount>)
    requires Sensible(volumes, isDir)
    ensures ClientOf(volumes, isDir, mounts)
  {
    var allMounts: seq<Mount> := [];
    for n := 0 to |volumes|
      invariant |allMounts| == n
      invariant forall k | 0 <= k < n :: MountOf(volumes[k], isDir, allMounts[k])
    {
      var mount := MountFor(volumes[n], isDir);
      allMounts := allMounts + [mount];
    }
    var order, perm := SortMounts(allMounts);
    mounts := CollapseInPlace(order);
    assert Arranged(volumes, isDir, order, perm);
  }

  method MountFor(v: BindVolume, isDir: Path -> bool) returns (mount: Mount)
    requires isDir([]) && [] !in v.masks
    ensures MountOf(v, isDir, mount)
  {
    if isDir(v.localPath) {
      var ignores := CollapseIgnores(v.masks);
      mount := Mount(v.localPath, [], ignores, true);
    } else {
      var last := |v.localPath| - 1;
      mount := Mount(v.localPath[..last], [[v.localPath[last]]], [], false);
    }
  }

  /** The mounts at indices in [from, to) that have not been skipped. */
  ghost function Unskipped(order: seq<Mount>, from: nat, to: nat, skip: set<nat>): seq<Mount>
    requires from <= to <= |order|
  {
    if from == to then []
    else Unskipped(order, from, to - 1, skip) + if to - 1 in skip then [] else [order[to - 1]]
  }

  lemma Assoc<T>(a: seq<T>, b: seq<T>, c: seq<T>)
    ensures (a + b) + c == a + (b + c)
  {
  }

  lemma {:induction false} UnskippedHead(order: seq<Mount>, from: nat, to: nat, skip: set<nat>)
    requires from < to <= |order|
    ensures Unskipped(order, from, to, skip)
      == (if from in skip then [] else [order[from]]) + Unskipped(order, from + 1, to, skip)
  {
    if from + 1 < to {
      UnskippedHead(order, from, to - 1, skip);
      Assoc(if from in skip then [] else [order[from]], Unskipped(order, from + 1, to - 1, skip),
            if to - 1 in skip then [] else [order[to - 1]]);
    } else {
      assert Unskipped(order, from, to - 1, skip) == [] == Unskipped(order, from + 1, to, skip);
    }
  }

  lemma {:induction false} UnskippedAlike(order: seq<Mount>, from: nat, to: nat, skip: set<nat>, skip': set<nat>)
    requires from <= to <= |order|
    requires forall k: nat | from <= k < to :: k in skip <==> k in skip'
    ensures Unskipped(order, from, to, skip) == Unskipped(order, from, to, skip')
  {
    if from < to {
      UnskippedAlike(order, from, to - 1, skip, skip');
    }
  }

  /** The nested loops with their set of collapsed indices compute the greedy
      collapse. */
  method CollapseInPlace(allMounts: seq<Mount>) returns (collapsed: seq<Mount>)
    ensures collapsed == CollapseMounts(allMounts)
  {
    collapsed := [];
    var skipIndices: set<nat> := {};
    CollapsedAtFirst(allMounts);
    for pi := 0 to |allMounts|
      invariant Collapsed(allMounts, pi, skipIndices, collapsed)
    {
      if pi in skipIndices {
        CollapsedSkip(allMounts, pi, skipIndices, collapsed);
      } else {
        ghost var before := skipIndices;
        var parent;
        parent, skipIndices := AbsorbNested(allMounts, pi, skipIndices);
        CollapsedStep(allMounts, pi, before, collapsed, parent, skipIndices);
        collapsed := collapsed + [parent];
      }
    }
    CollapsedAtLast(allMounts, skipIndices, collapsed);
  }

  lemma CollapsedAtFirst(all: seq<Mount>)
    ensures Collapsed(all, 0, {}, [])
  {
    UnskippedNone(all, |all|);
  }

  lemma CollapsedAtLast(all: seq<Mount>, skip: set<nat>, collapsed: seq<Mount>)
    requires Collapsed(all, |all|, skip, collapsed)
    ensures collapsed == CollapseMounts(all)
  {
    assert Unskipped(all, |all|, |all|, skip) == [];
  }

  ghost predicate Collapsed(all: seq<Mount>, pi: nat, skip: set<nat>, collapsed: seq<Mount>)
    requires pi <= |all|
  {
    CollapseMounts(all) == collapsed + CollapseMounts(Unskipped(all, pi, |all|, skip))
  }

  lemma CollapsedSkip(all: seq<Mount>, pi: nat, skip: set<nat>, collapsed: seq<Mount>)
    requires pi < |all| && pi in skip && Collapsed(all, pi, skip, collapsed)
    ensures Collapsed(all, pi + 1, skip, collapsed)
  {
    UnskippedHead(all, pi, |all|, skip);
    assert [] + Unskipped(all, pi + 1, |all|, skip) == Unskipped(all, pi + 1, |all|, skip);
  }

  lemma CollapsedStep(all: seq<Mount>, pi: nat, skip: set<nat>, collapsed: seq<Mount>, parent: Mount, skip': set<nat>)
    requires pi < |all| && pi !in skip && Collapsed(all, pi, skip, collapsed)
    requires Absorbed(all, pi, |all|, skip, parent, skip')
    ensures Collapsed(all, pi + 1, skip', collapsed + [parent])
  {
    var rest := Unskipped(all, pi + 1, |all|, skip);
    UnskippedHead(all, pi, |all|, skip);
    CollapseHead(all[pi], rest);
    Assoc(collapsed, [parent], CollapseMounts(Outside(all[pi].path, rest)));
  }

  lemma CollapseHead(head: Mount, rest: seq<Mount>)
    ensures CollapseMounts([head] + rest)
      == [AbsorbAll(head, rest)] + CollapseMounts(Outside(head.path, rest))
  {
    assert ([head] + rest)[1..] == rest;
  }

  method AbsorbNested(allMounts: seq<Mount>, pi: nat, skipped: set<nat>)
    returns (parent: Mount, skipIndices: set<nat>)
    requires pi < |allMounts|
    ensures Absorbed(allMounts, pi, |allMounts|, skipped, parent, skipIndices)
  {
    parent := allMounts[pi];
    skipIndices := skipped;
    for mi := pi + 1 to |allMounts|
      invariant Absorbed(allMounts, pi, mi, skipped, parent, skipIndices)
    {
      var mount := allMounts[mi];
      if mi in skipIndices {
        AbsorbedSkip(allMounts, pi, mi, skipped, parent, skipIndices);
      } else {
        match GetSubpath(parent.path, mount.path) {
          case None =>
            AbsorbedOutside(allMounts, pi, mi, skipped, parent, skipIndices);
          case Some(relPath) =>
            assert relPath == mount.path[|parent.path|..];
            AbsorbedNested(allMounts, pi, mi, skipped, parent, skipIndices);
            parent := Merge(parent, mount, relPath);
            skipIndices := skipIndices + {mi};
        }
      }
    }
  }

  /** After looking at the mounts between `pi` and `mi`. */
  ghost predicate Absorbed(all: seq<Mount>, pi: nat, mi: nat, skipped: set<nat>, parent: Mount, skip: set<nat>)
    requires pi < mi <= |all|
  {
    var seen := Unskipped(all, pi + 1, mi, skipped);
    && (forall k: nat | k >= mi :: k in skip <==> k in skipped)
    && parent == AbsorbAll(all[pi], seen)
    && Unskipped(all, pi + 1, mi, skip) == Outside(all[pi].path, seen)
  }

  lemma AbsorbedSkip(all: seq<Mount>, pi: nat, mi: nat, skipped: set<nat>, parent: Mount, skip: set<nat>)
    requires pi < mi < |all| && Absorbed(all, pi, mi, skipped, parent, skip) && mi in skip
    ensures Absorbed(all, pi, mi + 1, skipped, parent, skip)
  {
    assert Unskipped(all, pi + 1, mi + 1, skipped) == Unskipped(all, pi + 1, mi, skipped);
  }

  lemma AbsorbedOutside(all: seq<Mount>, pi: nat, mi: nat, skipped: set<nat>, parent: Mount, skip: set<nat>)
    requires pi < mi < |all| && Absorbed(all, pi, mi, skipped, parent, skip)
    requires mi !in skip && !(parent.path <= all[mi].path)
    ensures Absorbed(all, pi, mi + 1, skipped, parent, skip)
  {
    WithLast(all[pi], Unskipped(all, pi + 1, mi, skipped), all[mi]);
  }

  lemma AbsorbedNested(all: seq<Mount>, pi: nat, mi: nat, skipped: set<nat>, parent: Mount, skip: set<nat>)
    requires pi < mi < |all| && Absorbed(all, pi, mi, skipped, parent, skip)
    requires mi !in skip && parent.path <= all[mi].path
    ensures Absorbed(all, pi, mi + 1, skipped, Absorb(parent, all[mi]), skip + {mi})
  {
    var seen := Unskipped(all, pi + 1, mi, skipped);
    UnskippedWith(all, pi + 1, mi, skip);
    NestedLast(all[pi], seen, all[mi]);
    assert Unskipped(all, pi + 1, mi + 1, skipped) == seen + [all[mi]];
  }

  lemma NestedLast(parent: Mount, ms: seq<Mount>, m: Mount)
    requires parent.path <= m.path
    ensures Outside(parent.path, ms + [m]) == Outside(parent.path, ms)
    ensures AbsorbAll(parent, ms + [m]) == Absorb(AbsorbAll(parent, ms), m)
  {
    WithLast(parent, ms, m);
    assert Outside(parent.path, ms) + [] == Outside(parent.path, ms);
  }

  lemma WithLast(parent: Mount, ms: seq<Mount>, m: Mount)
    ensures Outside(parent.path, ms + [m]) == Outside(parent.path, ms) + if parent.path <= m.path then [] else [m]
    ensures AbsorbAll(parent, ms + [m]) == Absorb(AbsorbAll(parent, ms), m)
  {
    assert (ms + [m])[..|ms + [m]| - 1] == ms;
  }

  lemma UnskippedWith(all: seq<Mount>, from: nat, mi: nat, skip: set<nat>)
    requires from <= mi < |all|
    ensures Unskipped(all, from, mi + 1, skip + {mi}) == Unskipped(all, from, mi, skip)
  {
    UnskippedAlike(all, from, mi, skip, skip + {mi});
  }

  lemma {:induction false} UnskippedNone(order: seq<Mount>, to: nat)
    requires to <= |order|
    ensures Unskipped(order, 0, to, {}) == order[..to]
    ensures to == |order| ==> order[..to] == order
  {
    if to > 0 {
      UnskippedNone(order, to - 1);
      assert order[..to] == order[..to - 1] + [order[to - 1]];
    }
  }

  /** The four cases of taking a nested mount into its parent. */
  method Merge(parent: Mount, mount: Mount, relPath: Path) returns (merged: Mount)
    requires parent.path <= mount.path && relPath == mount.path[|parent.path|..]
    ensures merged == Absorb(parent, mount)
  {
    merged := parent;
    if parent.syncAll {
      var newIgnore := FilterIgnores(parent.ignores, relPath, mount);
      merged := merged.(ignores := newIgnore);
    } else if !parent.Includes(relPath) {
      if mount.syncAll {
        if relPath == [] {
          merged := merged.(syncAll := true, includes := []);
        } else {
          merged := merged.(includes := merged.includes + [relPath]);
        }
      } else {
        var more := JoinAll(relPath, mount.includes);
        merged := merged.(includes := merged.includes + more);
      }
    }
  }

  method FilterIgnores(ignores: seq<Path>, relPath: Path, mount: Mount) returns (newIgnore: seq<Path>)
    ensures newIgnore == Surviving(ignores, relPath, mount)
  {
    newIgnore := [];
    for k := 0 to |ignores|
      invariant newIgnore == Surviving(ignores[..k], relPath, mount)
    {
      var parentIgnore := ignores[k];
      assert ignores[..k + 1][..k] == ignores[..k];
      if GetSubpath(parentIgnore, relPath).None? {
        match GetSubpath(relPath, parentIgnore) {
          case None =>
            newIgnore := newIgnore + [parentIgnore];
          case Some(relIgnore) =>
            if mount.syncAll {
              var found := Listed(mount.ignores, relIgnore);
              if found {
                newIgnore := newIgnore + [parentIgnore];
              }
            }
        }
      }
    }
    assert ignores[..|ignores|] == ignores;
  }

  method Listed(ignores: seq<Path>, relIgnore: Path) returns (found: bool)
    ensures found <==> relIgnore in ignores
  {
    for i := 0 to |ignores|
      invariant forall k | 0 <= k < i :: ignores[k] != relIgnore
    {
      if ignores[i] == relIgnore {
        return true;
      }
    }
    return false;
  }

  method JoinAll(relPath: Path, includes: seq<Path>) returns (joined: seq<Path>)
    ensures joined == Joined(relPath, includes)
  {
    joined := [];
    for k := 0 to |includes|
      invariant joined == Joined(relPath, includes[..k])
    {
      assert includes[..k + 1][..k] == includes[..k];
      joined := joined + [relPath + includes[k]];
    }
    assert includes[..|includes|] == includes;
  }

  /* ----- What the volumes need and what gets synced ----- */

  ghost predicate VolumeNeeds(v: BindVolume, isDir: Path -> bool, x: Path) {
    if isDir(v.localPath) then v.localPath <= x && !Masked(v.masks, x[|v.localPath|..])
    else x == v.localPath
  }

  /** A mount syncs its own directory, and below it what its file keeps. */
  ghost predicate Synced(m: Mount, x: Path) {
    && m.path <= x
    && (x == m.path || exists rules :: CompiledFrom(m, rules) && !Ignored(rules, x[|m.path|..]))
  }

  ghost predicate SyncedBySome(mounts: seq<Mount>, x: Path) {
    exists m :: m in mounts && Synced(m, x)
  }

  /** The client syncs everything some volume needs. */
  ghost predicate Faithful(volumes: seq<BindVolume>, isDir: Path -> bool, mounts: seq<Mount>) {
    forall v, x | v in volumes && VolumeNeeds(v, isDir, x) :: SyncedBySome(mounts, x)
  }

  /** Every mount at "/" comes before all others. */
  ghost predicate RootsFirst(order: seq<Mount>) {
    forall i, j | 0 <= i < j < |order| :: order[j].path == [] ==> order[i].path == []
  }

  /** Depth order lists parents before children, except that it cannot tell "/"
      from a directory right below it. */
  lemma DepthOrder(order: seq<Mount>)
    requires DepthSorted(order)
    ensures ShallowFirst(order) <==> RootsFirst(order)
  {
    if RootsFirst(order) {
      forall i, j | 0 <= i < j < |order| ensures !(order[j].path < order[i].path) {
        assert Depth(order[i].path) <= Depth(order[j].path);
      }
    }
    if ShallowFirst(order) {
      forall i, j | 0 <= i < j < |order| && order[j].path == [] ensures order[i].path == [] {
        assert !(order[j].path < order[i].path);
      }
    }
  }

  lemma ArrangedIsInitial(volumes: seq<BindVolume>, isDir: Path -> bool, order: seq<Mount>, perm: seq<nat>)
    requires Sensible(volumes, isDir) && Arranged(volumes, isDir, order, perm)
    ensures AllInitial(order)
  {
    forall k | 0 <= k < |order| ensures Initial(order[k]) {
      InitialFor(volumes[perm[k]], isDir, order[k]);
    }
  }

  lemma InitialFor(v: BindVolume, isDir: Path -> bool, m: Mount)
    requires MountOf(v, isDir, m) && [] !in v.masks
    ensures Initial(m)
  {
  }

  /** The volume behind a mount, and the mount of a volume. */
  lemma VolumeOf(volumes: seq<BindVolume>, isDir: Path -> bool, order: seq<Mount>, perm: seq<nat>, m: Mount)
    returns (v: BindVolume)
    requires Arranged(volumes, isDir, order, perm) && m in order
    ensures v in volumes && MountOf(v, isDir, m)
  {
    var k :| 0 <= k < |order| && order[k] == m;
    v := volumes[perm[k]];
  }

  lemma MountIn(volumes: seq<BindVolume>, isDir: Path -> bool, order: seq<Mount>, perm: seq<nat>, v: BindVolume)
    returns (m: Mount)
    requires Arranged(volumes, isDir, order, perm) && v in volumes
    ensures m in order && MountOf(v, isDir, m)
  {
    var i :| 0 <= i < |volumes| && volumes[i] == v;
    assert i in perm;
    var k :| 0 <= k < |perm| && perm[k] == i;
    m := order[k];
  }

  lemma NeedsAlike(v: BindVolume, isDir: Path -> bool, m: Mount, x: Path)
    requires MountOf(v, isDir, m) && Initial(m)
    ensures VolumeNeeds(v, isDir, x) <==> Needs(m, x)
  {
    if !isDir(v.localPath) {
      assert v.localPath == Target(m);
    }
  }

  /** A mount whose includes are flat syncs all it covers. */
  lemma CoveredIsSynced(m: Mount, x: Path)
    requires m.Valid() && NoNestedIncludes(m.includes) && Covers(m, x)
    ensures Synced(m, x)
  {
    StignoreExists(m);
    var rules :| CompiledFrom(m, rules);
    var rel := x[|m.path|..];
    if rel == [] {
      assert x == m.path + rel;
    } else if m.syncAll {
      UnignoredWhenSyncAll(m, rules, rel);
    } else {
      UnignoredWhenFlat(m, rules, rel);
    }
  }

  lemma SyncedOnlyInside(m: Mount, x: Path)
    requires m.Valid() && Synced(m, x) && x != m.path
    ensures InTree(m, x) || exists y :: y in m.includes && x <= m.path + y
  {
    var rel := x[|m.path|..];
    assert x == m.path + rel && rel != [];
    if !m.syncAll {
      var rules :| CompiledFrom(m, rules) && !Ignored(rules, rel);
      UnignoredExactly(m, rules, rel);
      if LeadsToInclude(m.includes, rel) {
        var y :| y in m.includes && rel <= y;
        SameSuffix(m.path, rel, y);
      }
    }
  }

  /** Nothing is synced but the volumes' trees and the directories above them. */
  lemma SyncsNothingElse(volumes: seq<BindVolume>, isDir: Path -> bool, order: seq<Mount>, perm: seq<nat>, x: Path)
    requires Sensible(volumes, isDir) && Arranged(volumes, isDir, order, perm)
    requires SyncedBySome(CollapseMounts(order), x)
    ensures exists v :: v in volumes && (v.localPath <= x || x <= v.localPath)
  {
    ArrangedIsInitial(volumes, isDir, order, perm);
    var r :| r in CollapseMounts(order) && Synced(r, x);
    CollapsedValid(order, r);
    if x == r.path {
      var m := PathComesFrom(order, r);
      var v := VolumeOf(volumes, isDir, order, perm, m);
      assert x <= v.localPath;
    } else {
      SyncedOnlyInside(r, x);
      if InTree(r, x) {
        var v := TreeVolume(volumes, isDir, order, perm, r, x);
      } else {
        var y :| y in r.includes && x <= r.path + y;
        var z := r.path + y;
        assert InTree(r, z) by { assert z[|r.path|..] == y; }
        var v := TreeVolume(volumes, isDir, order, perm, r, z);
        PrefixesAreNested(v.localPath, x, z);
      }
    }
  }

  lemma TreeVolume(volumes: seq<BindVolume>, isDir: Path -> bool, order: seq<Mount>, perm: seq<nat>,
                   r: Mount, x: Path)
    returns (v: BindVolume)
    requires Arranged(volumes, isDir, order, perm) && AllInitial(order)
    requires r in CollapseMounts(order) && InTree(r, x)
    ensures v in volumes && v.localPath <= x
  {
    var m := CollapseStaysInside(order, r, x);
    v := VolumeOf(volumes, isDir, order, perm, m);
    InTreeOfVolume(v, isDir, m, x);
  }

  lemma InTreeOfVolume(v: BindVolume, isDir: Path -> bool, m: Mount, x: Path)
    requires InTree(m, x) && MountOf(v, isDir, m)
    ensures v.localPath <= x
  {
    if !isDir(v.localPath) {
      var y := m.includes[0];
      assert y <= x[|m.path|..];
      PrefixAppend(m.path, y, x);
      assert v.localPath == m.path + y;
    }
  }

  /** No bad tie, no loss. */
  lemma FaithfulWithoutBadTie(volumes: seq<BindVolume>, isDir: Path -> bool, order: seq<Mount>, perm: seq<nat>,
                              v: BindVolume, x: Path)
    requires Sensible(volumes, isDir) && Arranged(volumes, isDir, order, perm) && RootsFirst(order)
    requires AllInitial(order) && !HasBadTie(order)
    requires v in volumes && VolumeNeeds(v, isDir, x)
    ensures SyncedBySome(CollapseMounts(order), x)
  {
    var m := MountIn(volumes, isDir, order, perm, v);
    NeedsAlike(v, isDir, m, x);
    var r := CollapseCovers(order, m, x);
    DepthOrder(order);
    CollapseStaysFlat(order, r);
    CoveredIsSynced(r, x);
  }

  /** A name none of the given ones is. */
  lemma UnusedName(names: set<Name>) returns (unused: Name)
    ensures unused !in names
  {
    var n := LengthBound(names);
    var s := seq(n + 1, _ => 'a');
    assert s[0] == 'a' && (|s| >= 2 ==> s[1] == 'a');
    assert |s| == 1 ==> s == "a";
    unused := s;
  }

  lemma LengthBound(names: set<Name>) returns (n: nat)
    ensures forall s | s in names :: |s| <= n
  {
    if names == {} {
      n := 0;
    } else {
      var s :| s in names;
      var m := LengthBound(names - {s});
      n := if |s| > m then |s| else m;
    }
  }

  /** A cut directory loses every entry that is not listed by name. */
  lemma CutLoses(mounts: seq<Mount>, r: Mount, file: Mount, dir: Mount) returns (x: Path)
    requires NotNested(mounts) && r in mounts && r.Valid() && Cuts(r, file, dir)
    ensures Needs(dir, x) && !SyncedBySome(mounts, x)
  {
    var relDir := dir.path[|r.path|..];
    assert dir.path == r.path + relDir;
    var unused := UnusedEntry(r.includes, relDir, dir.ignores);
    x := dir.path + [unused];
    assert x == r.path + (relDir + [unused]) && x[|dir.path|..] == [unused];
    NotKept(r, file, relDir, unused);
    NotSynced(r, x, relDir + [unused]);
    var i :| 0 <= i < |mounts| && mounts[i] == r;
    OnlyOneAbove(mounts, i, x);
  }

  lemma UnusedEntry(includes: seq<Path>, relDir: Path, ignores: seq<Path>) returns (unused: Name)
    requires [] !in ignores
    ensures !Masked(ignores, [unused])
    ensures forall y | y in includes :: !(relDir + [unused] <= y)
  {
    unused := UnusedName(
      (set g | g in ignores && |g| > 0 :: g[0]) + (set y | y in includes && |y| > |relDir| :: y[|relDir|]));
    forall g | g in ignores ensures !(g <= [unused]) {
      assert g != [] && g[0] != unused;
    }
    forall y | y in includes ensures !(relDir + [unused] <= y) {
      assert |y| > |relDir| ==> y[|relDir|] != (relDir + [unused])[|relDir|];
    }
  }

  lemma NotKept(r: Mount, file: Mount, relDir: Path, unused: Name)
    requires Initial(file) && !file.syncAll && file.path == r.path + relDir
    requires exists y :: y in r.includes && r.path + y == Target(file)
    requires forall y | y in r.includes :: !(relDir + [unused] <= y)
    ensures forall y | IsLeaf(r.includes, y) :: !(y <= relDir + [unused])
  {
    var rel := relDir + [unused];
    var y' :| y' in r.includes && r.path + y' == Target(file);
    var f := relDir + file.includes[0];
    assert Target(file) == r.path + f;
    SameSuffix(r.path, y', f);
    assert relDir < f;
    forall y | IsLeaf(r.includes, y) ensures !(y <= rel) {
      if y <= rel {
        PrefixesAreNested(y, relDir, rel);
        assert y != rel;
        PrefixTransitive(y, relDir, f);
      }
    }
  }

  lemma NotSynced(r: Mount, x: Path, rel: Path)
    requires r.Valid() && !r.syncAll && x == r.path + rel && rel != []
    requires forall y | y in r.includes :: !(rel <= y)
    requires forall y | IsLeaf(r.includes, y) :: !(y <= rel)
    ensures !Synced(r, x)
  {
    assert x[|r.path|..] == rel;
    forall rules | CompiledFrom(r, rules) ensures Ignored(rules, rel) {
      UnignoredExactly(r, rules, rel);
    }
  }

  /** Meaning is preserved exactly when the sort leaves no bad tie. */
  lemma FaithfulIffNoBadTie(volumes: seq<BindVolume>, isDir: Path -> bool, order: seq<Mount>, perm: seq<nat>)
    requires Sensible(volumes, isDir) && Arranged(volumes, isDir, order, perm) && RootsFirst(order)
    ensures AllInitial(order)
    ensures Faithful(volumes, isDir, CollapseMounts(order)) <==> !HasBadTie(order)
  {
    ArrangedIsInitial(volumes, isDir, order, perm);
    DepthOrder(order);
    if HasBadTie(order) {
      var v, x := LosesWithBadTie(volumes, isDir, order, perm);
      assert VolumeNeeds(v, isDir, x);
    } else {
      forall v, x | v in volumes && VolumeNeeds(v, isDir, x)
        ensures SyncedBySome(CollapseMounts(order), x)
      {
        FaithfulWithoutBadTie(volumes, isDir, order, perm, v, x);
      }
    }
  }

  lemma LosesWithBadTie(volumes: seq<BindVolume>, isDir: Path -> bool, order: seq<Mount>, perm: seq<nat>)
    returns (v: BindVolume, x: Path)
    requires Arranged(volumes, isDir, order, perm) && ShallowFirst(order)
    requires AllInitial(order) && HasBadTie(order)
    ensures v in volumes && VolumeNeeds(v, isDir, x) && !SyncedBySome(CollapseMounts(order), x)
  {
    var r, file, dir := CollapseKeepsFile(order);
    CollapsedNotNested(order);
    CollapsedValid(order, r);
    x := CutLoses(CollapseMounts(order), r, file, dir);
    v := VolumeOf(volumes, isDir, order, perm, dir);
    NeedsAlike(v, isDir, dir, x);
  }
}
