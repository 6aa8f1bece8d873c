/** Which masked directories are kept out of the sync. Merging may drop ignores,
    but only for a reason; this module says exactly which ones. */
module Masks {
  import opened Paths
  import opened Sorting
  import opened Stignore
  import opened Collapse
  import opened Ties
  import opened BindVolumes
  import opened Orders

  /* ----- The ignores of a collapsed mount ----- */

  /** The mounts at `path` are directories, with the given ignores, and no mount
      lies strictly above them. */
  ghost predicate Heads(order: seq<Mount>, path: Path, ignores: iset<Path>) {
    && (exists m :: m in order && m.path == path)
    && forall m | m in order && m.path <= path ::
         m.path == path && m.syncAll && forall g :: g in m.ignores <==> g in ignores
  }

  ghost predicate AllSpare(order: seq<Mount>, path: Path, g: Path) {
    forall m | m in order && path <= m.path :: Spares(m, path, g)
  }

  ghost predicate KeepsIgnores(order: seq<Mount>, path: Path, ignores: iset<Path>, r: Mount) {
    r.path == path && r.syncAll && forall g :: g in r.ignores <==> g in ignores && AllSpare(order, path, g)
  }

  lemma FirstKeeps(order: seq<Mount>, path: Path, ignores: iset<Path>)
    requires order != [] && AllInitial(order) && Heads(order, path, ignores) && order[0].path == path
    ensures KeepsIgnores(order, path, ignores, First(order))
  {
    assert order == [order[0]] + order[1..];
    assert order[0] in order;
    forall g ensures g in First(order).ignores <==> g in ignores && AllSpare(order, path, g) {
      AbsorbAllIgnores(order[0], order[1..], g);
      if g in ignores {
        assert Spares(order[0], path, g) by {
          assert g in order[0].ignores && order[0].path[|path|..] == [];
        }
      }
    }
    AbsorbAllIgnores(order[0], order[1..], []);
  }

  lemma OthersHead(order: seq<Mount>, path: Path, ignores: iset<Path>)
    requires order != [] && AllInitial(order) && ShallowFirst(order) && Heads(order, path, ignores)
    requires order[0].path != path
    ensures Heads(Others(order), path, ignores)
    ensures forall g :: AllSpare(Others(order), path, g) <==> AllSpare(order, path, g)
  {
    assert order == [order[0]] + order[1..];
    NotNestedWith(order, path, ignores);
    forall m ensures m in Others(order) <==> m in order[1..] && !(order[0].path <= m.path) {
      OutsideIn(order[0].path, order[1..], m);
    }
    forall m | m in order && path <= m.path ensures m in Others(order) {
      if order[0].path <= m.path {
        PrefixesAreNested(order[0].path, path, m.path);
      }
    }
    var m :| m in order && m.path == path;
    assert m in Others(order) && m.path == path;
  }

  lemma NotNestedWith(order: seq<Mount>, path: Path, ignores: iset<Path>)
    requires order != [] && ShallowFirst(order) && Heads(order, path, ignores) && order[0].path != path
    ensures !(order[0].path <= path) && !(path <= order[0].path)
  {
    assert order[0] in order;
    var m :| m in order && m.path == path;
    NotAboveFirst(order, m);
  }

  lemma NotAboveFirst(order: seq<Mount>, m: Mount)
    requires order != [] && ShallowFirst(order) && m in order
    ensures !(m.path < order[0].path)
  {
    var k :| 0 <= k < |order| && order[k] == m;
  }

  /** The directory that heads its group keeps exactly the ignores that spare every
      mount in it. */
  lemma {:induction false} HeadKeeps(order: seq<Mount>, path: Path, ignores: iset<Path>) returns (r: Mount)
    requires AllInitial(order) && ShallowFirst(order) && Heads(order, path, ignores)
    ensures r in CollapseMounts(order) && KeepsIgnores(order, path, ignores, r)
    decreases |order|
  {
    if order[0].path == path {
      FirstKeeps(order, path, ignores);
      r := First(order);
    } else {
      PartsAreInitial(order);
      OthersShallowFirst(order);
      OthersHead(order, path, ignores);
      r := HeadKeeps(Others(order), path, ignores);
    }
  }

  /* ----- In terms of the volumes ----- */

  /** A mask that lies in no other one. */
  predicate Outermost(masks: seq<Path>, g: Path) {
    g in masks && forall h | h in masks :: !(h < g)
  }

  lemma ApartIsSame(ignores: seq<Path>, a: Path, b: Path)
    requires Apart(ignores) && a in ignores && b in ignores && a <= b
    ensures a == b
  {
    var i :| 0 <= i < |ignores| && ignores[i] == a;
    var j :| 0 <= j < |ignores| && ignores[j] == b;
    assert ignores[i] <= ignores[j];
  }

  lemma OutermostExactly(ignores: seq<Path>, masks: seq<Path>, g: Path)
    requires SameMasks(ignores, masks) && Apart(ignores)
    ensures g in ignores <==> Outermost(masks, g)
  {
    if g in ignores {
      forall h | h in masks ensures !(h < g) {
        assert Masked(masks, h) && Masked(ignores, h);
        var g' :| g' in ignores && g' <= h;
        if h <= g {
          PrefixTransitive(g', h, g);
          ApartIsSame(ignores, g', g);
        }
      }
    }
    if Outermost(masks, g) {
      assert Masked(masks, g) && Masked(ignores, g);
      var g' :| g' in ignores && g' <= g;
      assert g' in masks;
      OnlyItself(g', g);
    }
  }

  /** A directory volume above which, and in which itself, nothing else is mounted. */
  ghost predicate HeadsAlone(volumes: seq<BindVolume>, isDir: Path -> bool, d: BindVolume) {
    && d in volumes && isDir(d.localPath)
    && forall v | v in volumes && MountPath(v, isDir) <= d.localPath :: v == d
  }

  /** Volume `v` is not mounted in the masked path; and if the path lies in the
      directory that `v` is mounted at, `v` is that directory, with the same mask. */
  predicate LeavesMasked(v: BindVolume, isDir: Path -> bool, masked: Path) {
    var at := MountPath(v, isDir);
    && !(masked <= at)
    && (at <= masked ==> isDir(v.localPath) && Outermost(v.masks, masked[|at|..]))
  }

  /** Mask `g` of volume `d` is left alone by every volume. */
  ghost predicate MaskStays(volumes: seq<BindVolume>, isDir: Path -> bool, d: BindVolume, g: Path) {
    Outermost(d.masks, g) && forall v | v in volumes :: LeavesMasked(v, isDir, d.localPath + g)
  }

  lemma SparesIfLeft(v: BindVolume, isDir: Path -> bool, m: Mount, path: Path, g: Path)
    requires MountOf(v, isDir, m) && path <= m.path
    ensures Spares(m, path, g) <==> LeavesMasked(v, isDir, path + g)
  {
    PathOfMount(v, isDir, m);
    var rel := m.path[|path|..];
    assert m.path == path + rel;
    SameSuffix(path, g, rel);
    SameSuffix(path, rel, g);
    if rel <= g {
      assert (path + g)[|m.path|..] == g[|rel|..];
      if isDir(v.localPath) {
        OutermostExactly(m.ignores, v.masks, g[|rel|..]);
      }
    }
  }

  /** Volumes mounted elsewhere leave alone what is in the directory. */
  lemma LeftElsewhere(volumes: seq<BindVolume>, isDir: Path -> bool, d: BindVolume, v: BindVolume, g: Path)
    requires HeadsAlone(volumes, isDir, d) && v in volumes && !(d.localPath <= MountPath(v, isDir))
    ensures LeavesMasked(v, isDir, d.localPath + g)
  {
    var at, masked := MountPath(v, isDir), d.localPath + g;
    assert d.localPath <= masked;
    if masked <= at {
      PrefixTransitive(d.localPath, masked, at);
    }
    if at <= masked {
      PrefixesAreNested(at, d.localPath, masked);
    }
  }

  lemma AllSpareExactly(volumes: seq<BindVolume>, isDir: Path -> bool, order: seq<Mount>, perm: seq<nat>,
                        d: BindVolume, g: Path)
    requires Arranged(volumes, isDir, order, perm) && HeadsAlone(volumes, isDir, d)
    ensures AllSpare(order, d.localPath, g) <==> forall v | v in volumes :: LeavesMasked(v, isDir, d.localPath + g)
  {
    if AllSpare(order, d.localPath, g) {
      forall v | v in volumes ensures LeavesMasked(v, isDir, d.localPath + g) {
        if d.localPath <= MountPath(v, isDir) {
          var m := MountIn(volumes, isDir, order, perm, v);
          PathOfMount(v, isDir, m);
          SparesIfLeft(v, isDir, m, d.localPath, g);
        } else {
          LeftElsewhere(volumes, isDir, d, v, g);
        }
      }
    }
    if forall v | v in volumes :: LeavesMasked(v, isDir, d.localPath + g) {
      forall m | m in order && d.localPath <= m.path ensures Spares(m, d.localPath, g) {
        var v := VolumeOf(volumes, isDir, order, perm, m);
        SparesIfLeft(v, isDir, m, d.localPath, g);
      }
    }
  }

  lemma HeadsItsGroup(volumes: seq<BindVolume>, isDir: Path -> bool, order: seq<Mount>, perm: seq<nat>, d: BindVolume)
    returns (ignores: iset<Path>)
    requires Arranged(volumes, isDir, order, perm) && HeadsAlone(volumes, isDir, d)
    ensures ignores == (iset g | Outermost(d.masks, g)) && Heads(order, d.localPath, ignores)
  {
    ignores := iset g | Outermost(d.masks, g);
    var m := MountIn(volumes, isDir, order, perm, d);
    PathOfMount(d, isDir, m);
    assert m in order && m.path == d.localPath;
    forall m | m in order && m.path <= d.localPath
      ensures m.path == d.localPath && m.syncAll && forall g :: g in m.ignores <==> g in ignores
    {
      var v := VolumeOf(volumes, isDir, order, perm, m);
      PathOfMount(v, isDir, m);
      forall g ensures g in m.ignores <==> g in ignores {
        OutermostExactly(m.ignores, d.masks, g);
      }
    }
  }

  lemma WhollySynced(r: Mount, x: Path)
    requires r.Valid() && r.syncAll && r.path <= x
    ensures Synced(r, x) <==> !Masked(r.ignores, x[|r.path|..])
  {
    var rel := x[|r.path|..];
    StignoreExists(r);
    var rules :| CompiledFrom(r, rules);
    if rel == [] {
      assert x == r.path;
    } else {
      UnignoredWhenSyncAll(r, rules, rel);
      forall rules | CompiledFrom(r, rules) ensures Ignored(rules, rel) <==> Masked(r.ignores, rel) {
        UnignoredWhenSyncAll(r, rules, rel);
      }
    }
  }

  lemma OnlyHeadSyncs(mounts: seq<Mount>, r: Mount, x: Path)
    requires NotNested(mounts) && r in mounts && r.path <= x
    ensures SyncedBySome(mounts, x) <==> Synced(r, x)
  {
    var i :| 0 <= i < |mounts| && mounts[i] == r;
    OnlyOneAbove(mounts, i, x);
  }

  lemma HeadIgnores(volumes: seq<BindVolume>, isDir: Path -> bool, order: seq<Mount>, perm: seq<nat>, d: BindVolume)
    returns (r: Mount)
    requires Arranged(volumes, isDir, order, perm) && AllInitial(order) && ShallowFirst(order)
    requires HeadsAlone(volumes, isDir, d)
    ensures r in CollapseMounts(order) && r.Valid() && r.path == d.localPath && r.syncAll
    ensures forall g :: g in r.ignores <==> MaskStays(volumes, isDir, d, g)
  {
    var ignores := HeadsItsGroup(volumes, isDir, order, perm, d);
    r := HeadKeeps(order, d.localPath, ignores);
    CollapsedValid(order, r);
    forall g ensures g in r.ignores <==> MaskStays(volumes, isDir, d, g) {
      AllSpareExactly(volumes, isDir, order, perm, d, g);
    }
  }

  /** In a directory volume that heads its group, whatever the sort does, a path is
      synced exactly if it is under no outermost mask that every volume leaves
      alone. */
  lemma MaskedExactly(volumes: seq<BindVolume>, isDir: Path -> bool, mounts: seq<Mount>, d: BindVolume, x: Path)
    requires Sensible(volumes, isDir) && !RootAndChild(volumes, isDir) && ClientOf(volumes, isDir, mounts)
    requires HeadsAlone(volumes, isDir, d) && d.localPath <= x
    ensures SyncedBySome(mounts, x) <==>
      !exists g :: MaskStays(volumes, isDir, d, g) && g <= x[|d.localPath|..]
  {
    var order, perm :| Arranged(volumes, isDir, order, perm) && mounts == CollapseMounts(order);
    ArrangedIsInitial(volumes, isDir, order, perm);
    WithoutRootAndChild(volumes, isDir, order, perm);
    DepthOrder(order);
    var r := HeadIgnores(volumes, isDir, order, perm, d);
    CollapsedNotNested(order);
    OnlyHeadSyncs(mounts, r, x);
    WhollySynced(r, x);
  }
}
