/** The order of mounts that have the same depth is left open by the sort, and
    it matters: when a file is listed before its own directory, in a group that
    is rooted further up, the directory's other contents are lost. This module
    shows that nothing else goes wrong. */
module Ties {
  import opened Paths
  import opened Stignore
  import opened Collapse

  /** Mount `i` is a file's and mount `j`, later, the file's own directory; no
      earlier volume already holds that directory, and an earlier mount `h` lies
      strictly above it. */
  ghost predicate BadTieAt(order: seq<Mount>, h: nat, i: nat, j: nat)
    requires AllInitial(order)
  {
    && h < i < j < |order|
    && !order[i].syncAll && order[j].syncAll && order[i].path == order[j].path
    && FirstInto(order, i)
    && order[h].path < order[i].path
  }

  /** No volume before the i-th holds the i-th mount's directory. */
  ghost predicate FirstInto(order: seq<Mount>, i: nat)
    requires AllInitial(order) && i < |order|
  {
    forall k | 0 <= k < i :: !(Target(order[k]) <= order[i].path)
  }

  ghost predicate HasBadTie(order: seq<Mount>)
    requires AllInitial(order)
  {
    exists h: nat, i: nat, j: nat :: BadTieAt(order, h, i, j)
  }

  lemma NotAfter(order: seq<Mount>, i: nat, j: nat)
    requires ShallowFirst(order) && i < j < |order|
    ensures !(order[j].path < order[i].path)
  {
  }

  /* ----- The merge into the first mount ----- */

  ghost predicate Listing(s: seq<Mount>) {
    s != [] && AllInitial(s) && ShallowFirst(s)
  }

  /** The merge in absolute terms: everything, or a set of targets. */
  datatype Kept = All | Only(targets: set<Path>)

  function Start(m: Mount): Kept
    requires Initial(m)
  {
    if m.syncAll then All else Only({m.path + m.includes[0]})
  }

  predicate Holds(targets: set<Path>, path: Path) {
    exists q | q in targets :: q <= path
  }

  ghost function Step(root: Path, kept: Kept, m: Mount): Kept
    requires Initial(m)
  {
    if !(root <= m.path) || kept.All? || Holds(kept.targets, m.path) then kept
    else if m.syncAll && m.path == root then All
    else Only(kept.targets + {Target(m)})
  }

  ghost function Run(s: seq<Mount>): Kept
    requires s != [] && AllInitial(s)
    decreases |s|, 0
  {
    if |s| == 1 then Start(s[0]) else Step(s[0].path, RunInit(s), s[|s| - 1])
  }

  /** The same, before the last mount. */
  ghost function RunInit(s: seq<Mount>): Kept
    requires |s| > 1 && AllInitial(s)
    decreases |s| - 1, 1
  {
    Run(s[..|s| - 1])
  }

  ghost predicate Abstracts(kept: Kept, m: Mount) {
    && (kept.All? <==> m.syncAll)
    && (kept.Only? ==> forall y: Path :: m.path + y in kept.targets <==> y in m.includes)
    && (kept.Only? ==> forall x | x in kept.targets :: m.path <= x)
  }

  lemma SameSuffix(p: Path, a: Path, b: Path)
    ensures p + a == p + b ==> a == b
    ensures p + a <= p + b <==> a <= b
  {
    assert (p + a)[|p|..] == a && (p + b)[|p|..] == b;
    PrefixAppend(p, a, p + b);
  }

  /** One more include is one more target. */
  lemma AddsTarget(targets: set<Path>, parent: Mount, rel: Path, grown: Mount)
    requires Abstracts(Only(targets), parent)
    requires grown == parent.(includes := parent.includes + [rel])
    ensures Abstracts(Only(targets + {parent.path + rel}), grown)
  {
    forall y: Path ensures parent.path + y in targets + {parent.path + rel} <==> y in grown.includes {
      SameSuffix(parent.path, y, rel);
    }
  }

  lemma StepAbstracts(kept: Kept, parent: Mount, m: Mount)
    requires parent.Valid() && Initial(m) && Abstracts(kept, parent)
    ensures Abstracts(Step(parent.path, kept, m), Absorb(parent, m))
  {
    if parent.path <= m.path && kept.Only? {
      var relPath := m.path[|parent.path|..];
      assert m.path == parent.path + relPath;
      HoldsIffIncludes(kept, parent, relPath);
      if !parent.Includes(relPath) && !(m.syncAll && relPath == []) {
        var rel := if m.syncAll then relPath else relPath + m.includes[0];
        assert Target(m) == parent.path + rel;
        if !m.syncAll {
          assert Joined(relPath, m.includes) == [rel];
        }
        AddsTarget(kept.targets, parent, rel, Absorb(parent, m));
      }
    }
  }

  lemma HoldsIffIncludes(kept: Kept, parent: Mount, relPath: Path)
    requires Abstracts(kept, parent) && kept.Only?
    ensures Holds(kept.targets, parent.path + relPath) <==> parent.Includes(relPath)
  {
    if q :| q in kept.targets && q <= parent.path + relPath {
      var y := q[|parent.path|..];
      assert q == parent.path + y;
      SameSuffix(parent.path, y, relPath);
    }
    if y :| y in parent.includes && y <= relPath {
      SameSuffix(parent.path, y, relPath);
      assert parent.path + y in kept.targets;
    }
  }

  lemma {:induction false} MergeAbstracts(s: seq<Mount>)
    requires s != [] && AllInitial(s)
    ensures First(s).Valid() && Abstracts(Run(s), First(s))
  {
    var n := |s| - 1;
    if n == 0 {
      assert First(s) == s[0];
      StartAbstracts(s[0]);
    } else {
      assert s[1..][..n - 1] == s[..n][1..];
      var before, kept, last := First(s[..n]), RunInit(s), s[n];
      MergeAbstracts(s[..n]);
      assert First(s) == Absorb(before, last);
      AbsorbKeepsValid(before, last);
      StepAbstracts(kept, before, last);
    }
  }

  lemma StartAbstracts(m: Mount)
    requires Initial(m)
    ensures Abstracts(Start(m), m)
  {
    if !m.syncAll {
      forall y: Path ensures m.path + y == Target(m) <==> y in m.includes {
        SameSuffix(m.path, y, m.includes[0]);
      }
    }
  }

  lemma Init(s: seq<Mount>)
    requires Listing(s) && |s| > 1
    ensures Listing(s[..|s| - 1]) && s[..|s| - 1][0] == s[0]
  {
  }

  /** Every target kept is a mount's, and a file that was added was the first
      to enter its directory. */
  lemma {:induction false} Source(s: seq<Mount>, x: Path) returns (k: nat)
    requires Listing(s) && Run(s).Only? && x in Run(s).targets
    ensures k < |s| && s[0].path <= s[k].path && x == Target(s[k]) && (!s[k].syncAll ==> FirstInto(s, k))
  {
    var n := |s| - 1;
    if n > 0 {
      Init(s);
    }
    if n > 0 && x in RunInit(s).targets {
      k := Source(s[..n], x);
      if !s[k].syncAll {
        FirstIntoStays(s, n, k);
      }
    } else {
      k := n;
      if n > 0 {
        LastIsFirstInto(s);
      }
    }
  }

  lemma LastIsFirstInto(s: seq<Mount>)
    requires AllInitial(s) && |s| > 1 && Listing(s[..|s| - 1]) && RunInit(s).Only?
    requires s[0].path <= s[|s| - 1].path && !Holds(RunInit(s).targets, s[|s| - 1].path)
    ensures FirstInto(s, |s| - 1)
    decreases |s| - 1, 2
  {
    var n := |s| - 1;
    forall i | 0 <= i < n ensures !(Target(s[i]) <= s[n].path) {
      NotHeld(s[..n], i, s[n].path);
      assert s[..n][i] == s[i];
    }
  }

  lemma NotHeld(s: seq<Mount>, i: nat, path: Path)
    requires Listing(s) && i < |s| && Run(s).Only? && s[0].path <= path
    requires !Holds(Run(s).targets, path)
    ensures !(Target(s[i]) <= path)
    decreases |s|, 1
  {
    if Target(s[i]) <= path {
      AboveIsNested(s, i, path);
      var q := Covered(s, i);
      PrefixTransitive(q, Target(s[i]), path);
    }
  }

  /** What holds a path below the first mount lies below the first mount. */
  lemma AboveIsNested(s: seq<Mount>, i: nat, path: Path)
    requires Listing(s) && i < |s| && s[0].path <= path && Target(s[i]) <= path
    ensures s[0].path <= s[i].path
  {
    PrefixTransitive(s[i].path, Target(s[i]), path);
    PrefixesAreNested(s[0].path, s[i].path, path);
    if i > 0 {
      NotAfter(s, 0, i);
    }
  }

  /** The target of every mount taken in is held by a target that is kept. */
  lemma {:induction false} Covered(s: seq<Mount>, k: nat) returns (q: Path)
    requires Listing(s) && k < |s| && Run(s).Only? && s[0].path <= s[k].path
    ensures q in Run(s).targets && q <= Target(s[k])
  {
    var n := |s| - 1;
    if n > 0 {
      Init(s);
    }
    if k < n {
      q := Covered(s[..n], k);
    } else if n > 0 && Holds(RunInit(s).targets, s[n].path) {
      q :| q in RunInit(s).targets && q <= s[n].path;
      PrefixTransitive(q, s[n].path, Target(s[n]));
    } else {
      q := Target(s[n]);
    }
  }

  /** A merge that syncs everything has a directory volume at its root. */
  lemma {:induction false} AllFrom(s: seq<Mount>) returns (k: nat)
    requires s != [] && AllInitial(s) && Run(s).All?
    ensures k < |s| && s[k].syncAll && s[k].path == s[0].path
  {
    var n := |s| - 1;
    if n > 0 && RunInit(s).All? {
      k := AllFrom(s[..n]);
    } else {
      k := n;
    }
  }

  ghost predicate Flat(targets: set<Path>) {
    forall a, b | a in targets && b in targets :: !(a < b)
  }

  /** Without a bad tie, no target ever lies below another. */
  lemma {:induction false} RunStaysFlat(s: seq<Mount>)
    requires Listing(s) && !HasBadTie(s)
    ensures Run(s).Only? ==> Flat(Run(s).targets)
  {
    var n := |s| - 1;
    if n > 0 && Run(s).Only? {
      Init(s);
      BadTieStays(s, n);
      RunStaysFlat(s[..n]);
      if s[0].path <= s[n].path && !Holds(RunInit(s).targets, s[n].path) {
        forall q | q in RunInit(s).targets ensures !(q < Target(s[n])) && !(Target(s[n]) < q) {
          NotBelow(s[n], q);
          NotAbove(s, q);
        }
      }
    }
  }

  lemma BadTieStays(s: seq<Mount>, n: nat)
    requires AllInitial(s) && n <= |s|
    ensures HasBadTie(s[..n]) ==> HasBadTie(s)
  {
    if HasBadTie(s[..n]) {
      var h: nat, i: nat, j: nat :| BadTieAt(s[..n], h, i, j);
      FirstIntoStays(s, n, i);
      assert BadTieAt(s, h, i, j);
    }
  }

  lemma FirstIntoStays(s: seq<Mount>, n: nat, i: nat)
    requires AllInitial(s) && i < n <= |s| && FirstInto(s[..n], i)
    ensures FirstInto(s, i)
  {
    forall k | 0 <= k < i ensures !(Target(s[k]) <= s[i].path) {
      assert s[..n][k] == s[k];
    }
  }

  lemma NotBelow(m: Mount, q: Path)
    requires Initial(m) && !(q <= m.path)
    ensures !(q < Target(m))
  {
  }

  lemma NotAbove(s: seq<Mount>, q: Path)
    requires Listing(s) && |s| > 1 && Run(s).Only?
    requires s[0].path <= s[|s| - 1].path
    requires RunInit(s).Only? && !Holds(RunInit(s).targets, s[|s| - 1].path)
    requires q in RunInit(s).targets
    ensures HasBadTie(s) || !(Target(s[|s| - 1]) < q)
  {
    if Target(s[|s| - 1]) < q {
      AboveIsBadTie(s, q);
    }
  }

  lemma AboveIsBadTie(s: seq<Mount>, q: Path)
    requires Listing(s) && |s| > 1 && Run(s).Only?
    requires s[0].path <= s[|s| - 1].path
    requires RunInit(s).Only? && !Holds(RunInit(s).targets, s[|s| - 1].path)
    requires q in RunInit(s).targets && Target(s[|s| - 1]) < q
    ensures HasBadTie(s)
  {
    var n := |s| - 1;
    Init(s);
    var k := Source(s[..n], q);
    if !s[k].syncAll {
      FirstIntoStays(s, n, k);
    }
    LaterAbove(s, k);
  }

  /** A last mount above an earlier one can only be that file's directory. */
  lemma LaterAbove(s: seq<Mount>, k: nat)
    requires Listing(s) && k < |s| - 1 && s[0].path <= s[|s| - 1].path
    requires !s[k].syncAll ==> FirstInto(s, k)
    requires Target(s[|s| - 1]) < Target(s[k])
    requires !(s[|s| - 1].syncAll && s[|s| - 1].path == s[0].path)
    ensures HasBadTie(s)
  {
    var n := |s| - 1;
    var last, m := s[n], s[k];
    NotAfter(s, k, n);
    PrefixTransitive(last.path, Target(last), Target(m));
    PrefixesAreNested(last.path, m.path, Target(m));
    assert !m.syncAll && last.syncAll && last.path == m.path;
    assert s[0].path < m.path;
    assert BadTieAt(s, 0, k, n);
  }

  lemma FirstStaysFlat(s: seq<Mount>)
    requires Listing(s) && !HasBadTie(s)
    ensures NoNestedIncludes(First(s).includes)
  {
    RunStaysFlat(s);
    MergeAbstracts(s);
    var p := First(s);
    forall a, b | a in p.includes && b in p.includes ensures !(a < b) {
      SameSuffix(p.path, a, b);
      assert p.path + a in Run(s).targets && p.path + b in Run(s).targets;
    }
  }

  /** With one below the first mount, the file's include is kept and the mount
      stays selective. */
  lemma FirstKeepsFile(s: seq<Mount>, h: nat, i: nat, j: nat)
    requires Listing(s) && BadTieAt(s, h, i, j) && s[0].path <= s[i].path
    ensures s[0].path < s[i].path
    ensures !First(s).syncAll
    ensures exists y :: y in First(s).includes && s[0].path + y == Target(s[i])
  {
    RootIsAbove(s, h, i);
    StaysSelective(s, i);
    TargetIsKept(s, i);
    MergeAbstracts(s);
    var y := Target(s[i])[|s[0].path|..];
    assert Target(s[i]) == s[0].path + y;
  }

  lemma RootIsAbove(s: seq<Mount>, h: nat, i: nat)
    requires Listing(s) && h < i < |s| && s[h].path < s[i].path && s[0].path <= s[i].path
    ensures s[0].path < s[i].path
  {
    if h > 0 {
      NotAfter(s, 0, h);
    }
    PrefixesAreNested(s[0].path, s[h].path, s[i].path);
  }

  lemma StaysSelective(s: seq<Mount>, i: nat)
    requires s != [] && AllInitial(s) && ShallowFirst(s) && i < |s|
    requires !s[i].syncAll && FirstInto(s, i) && s[0].path < s[i].path
    ensures Run(s).Only?
  {
    if Run(s).All? {
      var k := AllFrom(s);
      NoDirectoryAbove(s, i, k);
    }
  }

  lemma NoDirectoryAbove(s: seq<Mount>, i: nat, k: nat)
    requires AllInitial(s) && ShallowFirst(s) && i < |s| && k < |s|
    requires !s[i].syncAll && FirstInto(s, i) && s[k].syncAll
    ensures !(s[k].path < s[i].path)
  {
    assert k < i ==> !(Target(s[k]) <= s[i].path);
  }

  lemma {:induction false} TargetIsKept(s: seq<Mount>, i: nat)
    requires Listing(s) && 0 < i < |s| && Run(s).Only? && s[0].path <= s[i].path
    requires !s[i].syncAll && FirstInto(s, i)
    ensures Target(s[i]) in Run(s).targets
  {
    var n := |s| - 1;
    Init(s);
    if i < n {
      TargetIsKept(s[..n], i);
    } else if Holds(RunInit(s).targets, s[n].path) {
      HeldByMount(s[..n], s[n].path);
    }
  }

  lemma HeldByMount(s: seq<Mount>, path: Path)
    requires Listing(s) && Run(s).Only? && Holds(Run(s).targets, path)
    ensures exists k: nat :: k < |s| && Target(s[k]) <= path
  {
    var q :| q in Run(s).targets && q <= path;
    var k := Source(s, q);
  }

  /* ----- Bad ties further on are bad ties of the mounts left over ----- */

  lemma BadTieInOthers(order: seq<Mount>, h: nat, i: nat, j: nat)
    requires Listing(order) && BadTieAt(order, h, i, j) && !(order[0].path <= order[i].path)
    requires AllInitial(Others(order))
    ensures HasBadTie(Others(order))
  {
    NotPrefix(order[0].path, order[h].path, order[i].path);
    ToOthers(order, h);
    ToOthers(order, i);
    ToOthers(order, j);
    OthersInOrder(order, i, j);
    OthersInOrder(order, h, i);
    FirstIntoOthers(order, i);
    assert BadTieAt(Others(order), OthersPlace(order, h), OthersPlace(order, i), OthersPlace(order, j));
  }

  lemma FirstIntoOthers(order: seq<Mount>, i: nat)
    requires Listing(order) && AllInitial(Others(order))
    requires 0 < i < |order| && !(order[0].path <= order[i].path) && FirstInto(order, i)
    requires OthersPlace(order, i) < |Others(order)| && Others(order)[OthersPlace(order, i)] == order[i]
    ensures FirstInto(Others(order), OthersPlace(order, i))
  {
    var part, k := Others(order), OthersPlace(order, i);
    forall e | 0 <= e < k ensures !(Target(part[e]) <= part[k].path) {
      EarlierInOthers(order, i, e);
    }
  }

  lemma EarlierInOthers(order: seq<Mount>, i: nat, e: nat)
    requires order != [] && 0 < i < |order| && e < |Others(order)| && e < OthersPlace(order, i)
    ensures exists at: nat :: at < i && order[at] == Others(order)[e]
  {
    var at := FromOthers(order, e);
    OthersInOrder(order, at, i);
  }

  lemma NotPrefix(path: Path, a: Path, b: Path)
    requires a <= b && !(path <= b)
    ensures !(path <= a)
  {
    if path <= a {
      PrefixTransitive(path, a, b);
    }
  }

  lemma BadTieFromOthers(order: seq<Mount>)
    requires Listing(order) && AllInitial(Others(order)) && HasBadTie(Others(order))
    ensures HasBadTie(order)
  {
    var g: nat, k: nat, l: nat :| BadTieAt(Others(order), g, k, l);
    var h := FromOthers(order, g);
    var i := FromOthers(order, k);
    var j := FromOthers(order, l);
    OthersInOrder(order, i, j);
    OthersInOrder(order, h, i);
    FirstIntoFromOthers(order, i, k);
    assert BadTieAt(order, h, i, j);
  }

  lemma FirstIntoFromOthers(order: seq<Mount>, i: nat, k: nat)
    requires Listing(order) && AllInitial(Others(order))
    requires 0 < i < |order| && !(order[0].path <= order[i].path) && k == OthersPlace(order, i)
    requires k < |Others(order)| && FirstInto(Others(order), k) && Others(order)[k] == order[i]
    ensures FirstInto(order, i)
  {
    forall at | 0 <= at < i ensures !(Target(order[at]) <= order[i].path) {
      if Target(order[at]) <= order[i].path {
        PrefixTransitive(order[at].path, Target(order[at]), order[i].path);
        NotPrefix(order[0].path, order[at].path, order[i].path);
        ToOthers(order, at);
        OthersInOrder(order, at, i);
      }
    }
  }

  lemma OthersListed(order: seq<Mount>)
    requires Listing(order)
    ensures AllInitial(Others(order)) && ShallowFirst(Others(order))
  {
    PartsAreInitial(order);
    OthersShallowFirst(order);
  }

  /** Without bad ties, no collapsed mount has nested includes. */
  lemma {:induction false} CollapseStaysFlat(order: seq<Mount>, r: Mount)
    requires AllInitial(order) && ShallowFirst(order) && !HasBadTie(order)
    requires r in CollapseMounts(order)
    ensures NoNestedIncludes(r.includes)
    decreases |order|
  {
    OthersListed(order);
    FirstStaysFlat(order);
    if HasBadTie(Others(order)) {
      BadTieFromOthers(order);
    }
    if r != First(order) {
      CollapseStaysFlat(Others(order), r);
    }
  }

  /** What a bad tie leaves behind: a selective mount with the file's include,
      for a directory volume below its root. */
  ghost predicate Cuts(r: Mount, file: Mount, dir: Mount) {
    && !r.syncAll && Initial(file) && !file.syncAll && Initial(dir) && dir.syncAll
    && file.path == dir.path && r.path < dir.path
    && exists y :: y in r.includes && r.path + y == Target(file)
  }

  lemma {:induction false} CollapseKeepsFile(order: seq<Mount>) returns (r: Mount, file: Mount, dir: Mount)
    requires AllInitial(order) && ShallowFirst(order) && HasBadTie(order)
    ensures r in CollapseMounts(order) && dir in order && Cuts(r, file, dir)
    decreases |order|
  {
    var h: nat, i: nat, j: nat :| BadTieAt(order, h, i, j);
    if order[0].path <= order[i].path {
      FirstKeepsFile(order, h, i, j);
      r, file, dir := First(order), order[i], order[j];
      assert dir in order;
    } else {
      OthersListed(order);
      BadTieInOthers(order, h, i, j);
      r, file, dir := CollapseKeepsFile(Others(order));
      OutsideIn(order[0].path, order[1..], dir);
    }
  }
}
