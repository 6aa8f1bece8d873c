/** Collapsing nested mounts: the merge of a child mount into a parent, the
    greedy pass over all mounts, and what both preserve. */
module Collapse {
  import opened Paths
  import opened Stignore

  /* ----- One merge ----- */

  /** Whether a parent's ignore survives taking in `mount` at `relPath`. */
  predicate Survives(parentIgnore: Path, relPath: Path, mount: Mount) {
    if GetSubpath(parentIgnore, relPath).Some? then
      false // it would mask the child
    else
      match GetSubpath(relPath, parentIgnore)
      case None => true // unrelated to the child
      case Some(relIgnore) => mount.syncAll && relIgnore in mount.ignores
  }

  function Surviving(ignores: seq<Path>, relPath: Path, mount: Mount): seq<Path> {
    if ignores == [] then []
    else
      var n := |ignores| - 1;
      Surviving(ignores[..n], relPath, mount) + if Survives(ignores[n], relPath, mount) then [ignores[n]] else []
  }

  lemma {:induction false} SurvivingIn(ignores: seq<Path>, relPath: Path, mount: Mount, g: Path)
    ensures g in Surviving(ignores, relPath, mount) <==> g in ignores && Survives(g, relPath, mount)
  {
    if ignores != [] {
      var n := |ignores| - 1;
      SurvivingIn(ignores[..n], relPath, mount, g);
      assert ignores == ignores[..n] + [ignores[n]];
    }
  }

  function Joined(relPath: Path, includes: seq<Path>): (r: seq<Path>)
    ensures |r| == |includes| && forall i | 0 <= i < |r| :: r[i] == relPath + includes[i]
  {
    if includes == [] then []
    else Joined(relPath, includes[..|includes| - 1]) + [relPath + includes[|includes| - 1]]
  }

  /** The parent after the inner loop has looked at one mount: unchanged unless
      the mount lies at or below it. */
  function Absorb(parent: Mount, mount: Mount): (r: Mount)
    ensures r.path == parent.path
  {
    if !(parent.path <= mount.path) then parent
    else
      var relPath := mount.path[|parent.path|..];
      if parent.syncAll then parent.(ignores := Surviving(parent.ignores, relPath, mount))
      else if parent.Includes(relPath) then parent
      else if mount.syncAll then
        if relPath == [] then parent.(syncAll := true, includes := [])
        else parent.(includes := parent.includes + [relPath])
      else parent.(includes := parent.includes + Joined(relPath, mount.includes))
  }

  /* ----- The greedy pass ----- */

  function AbsorbAll(parent: Mount, ms: seq<Mount>): (r: Mount)
    ensures r.path == parent.path
  {
    if ms == [] then parent
    else Absorb(AbsorbAll(parent, ms[..|ms| - 1]), ms[|ms| - 1])
  }

  /** The mounts that do not lie at or below `path`. */
  function Outside(path: Path, ms: seq<Mount>): (r: seq<Mount>)
    ensures |r| <= |ms|
  {
    if ms == [] then []
    else
      var n := |ms| - 1;
      Outside(path, ms[..n]) + if path <= ms[n].path then [] else [ms[n]]
  }

  function Others(order: seq<Mount>): (r: seq<Mount>)
    requires order != []
    ensures |r| < |order|
  {
    Outside(order[0].path, order[1..])
  }

  function First(order: seq<Mount>): (r: Mount)
    requires order != []
    ensures r.path == order[0].path
  {
    AbsorbAll(order[0], order[1..])
  }

  /** The first mount takes in every later one nested in it; then the same for
      the rest. */
  function CollapseMounts(order: seq<Mount>): seq<Mount>
    decreases |order|
  {
    if order == [] then [] else [First(order)] + CollapseMounts(Others(order))
  }

  /* ----- What lies outside, and where ----- */

  lemma {:induction false} OutsideIn(path: Path, ms: seq<Mount>, m: Mount)
    ensures m in Outside(path, ms) <==> m in ms && !(path <= m.path)
  {
    if ms != [] {
      var n := |ms| - 1;
      OutsideIn(path, ms[..n], m);
      assert ms == ms[..n] + [ms[n]];
    }
  }

  /** How many of the first `i` mounts lie outside: the place of the i-th, if it
      lies outside itself. */
  function Place(path: Path, ms: seq<Mount>, i: nat): nat
    requires i <= |ms|
  {
    if i == 0 then 0 else Place(path, ms, i - 1) + if path <= ms[i - 1].path then 0 else 1
  }

  lemma {:induction false} PlaceGrows(path: Path, ms: seq<Mount>, i: nat, j: nat)
    requires i < j <= |ms|
    ensures Place(path, ms, i) + (if path <= ms[i].path then 0 else 1) <= Place(path, ms, j)
  {
    if i + 1 < j {
      PlaceGrows(path, ms, i, j - 1);
    }
  }

  lemma {:induction false} PlaceIs(path: Path, ms: seq<Mount>, n: nat, i: nat)
    requires i < n <= |ms| && !(path <= ms[i].path)
    ensures Place(path, ms, i) < |Outside(path, ms[..n])|
    ensures Outside(path, ms[..n])[Place(path, ms, i)] == ms[i]
    decreases n
  {
    assert ms[..n][..n - 1] == ms[..n - 1];
    if i + 1 < n {
      PlaceIs(path, ms, n - 1, i);
    } else {
      PlaceIsLength(path, ms, i);
    }
  }

  lemma {:induction false} PlaceIsLength(path: Path, ms: seq<Mount>, n: nat)
    requires n <= |ms|
    ensures Place(path, ms, n) == |Outside(path, ms[..n])|
  {
    if n > 0 {
      assert ms[..n][..n - 1] == ms[..n - 1];
      PlaceIsLength(path, ms, n - 1);
    }
  }

  /** Where the k-th mount outside comes from. */
  lemma {:induction false} From(path: Path, ms: seq<Mount>, n: nat, k: nat) returns (i: nat)
    requires n <= |ms| && k < |Outside(path, ms[..n])|
    ensures i < n && !(path <= ms[i].path) && k == Place(path, ms, i)
    ensures ms[i] == Outside(path, ms[..n])[k]
    decreases n
  {
    assert ms[..n][..n - 1] == ms[..n - 1];
    if k < |Outside(path, ms[..n - 1])| {
      i := From(path, ms, n - 1, k);
    } else {
      i := n - 1;
      PlaceIsLength(path, ms, i);
    }
  }

  /** The same for the mounts left over by the first one. */
  function OthersPlace(order: seq<Mount>, i: nat): nat
    requires 0 < i <= |order|
  {
    Place(order[0].path, order[1..], i - 1)
  }

  lemma ToOthers(order: seq<Mount>, i: nat)
    requires 0 < i < |order| && !(order[0].path <= order[i].path)
    ensures OthersPlace(order, i) < |Others(order)| && Others(order)[OthersPlace(order, i)] == order[i]
  {
    var rest := order[1..];
    assert rest[..|rest|] == rest && rest[i - 1] == order[i];
    PlaceIs(order[0].path, rest, |rest|, i - 1);
  }

  lemma FromOthers(order: seq<Mount>, k: nat) returns (i: nat)
    requires order != [] && k < |Others(order)|
    ensures 0 < i < |order| && !(order[0].path <= order[i].path)
    ensures k == OthersPlace(order, i) && order[i] == Others(order)[k]
  {
    var rest := order[1..];
    assert rest[..|rest|] == rest;
    i := From(order[0].path, rest, |rest|, k);
    assert rest[i] == order[i + 1];
    i := i + 1;
  }

  lemma OthersInOrder(order: seq<Mount>, i: nat, j: nat)
    requires 0 < i < |order| && 0 < j < |order| && !(order[0].path <= order[i].path)
    ensures i < j ==> OthersPlace(order, i) < OthersPlace(order, j)
    ensures j <= i ==> OthersPlace(order, j) <= OthersPlace(order, i)
  {
    var path, rest := order[0].path, order[1..];
    assert rest[i - 1] == order[i];
    if i < j {
      PlaceGrows(path, rest, i - 1, j - 1);
    } else if j < i {
      PlaceGrows(path, rest, j - 1, i - 1);
    }
  }

  /* ----- Reading a mount as a set of paths ----- */

  ghost predicate Masked(ignores: seq<Path>, x: Path) {
    exists g :: g in ignores && g <= x
  }

  /** The subtrees the mount syncs. */
  ghost predicate Covers(m: Mount, x: Path) {
    && m.path <= x
    && var rel := x[|m.path|..];
       if m.syncAll then !Masked(m.ignores, rel) else m.Includes(rel)
  }

  /** The same without regard to ignores. */
  ghost predicate InTree(m: Mount, x: Path) {
    m.path <= x && (m.syncAll || m.Includes(x[|m.path|..]))
  }

  /** A mount made for one volume: a directory with its masks, or one file in
      its parent directory. */
  ghost predicate Initial(m: Mount) {
    m.Valid() && (m.syncAll || (|m.includes| == 1 && |m.includes[0]| == 1))
  }

  /** The volume's own path. */
  ghost function Target(m: Mount): Path
    requires Initial(m)
  {
    if m.syncAll then m.path else m.path + m.includes[0]
  }

  /** What the volume behind an initial mount needs. */
  ghost predicate Needs(m: Mount, x: Path)
    requires Initial(m)
  {
    if m.syncAll then m.path <= x && !Masked(m.ignores, x[|m.path|..]) else x == Target(m)
  }

  /* ----- One merge covers its child and keeps to the two trees ----- */

  lemma AbsorbKeepsValid(parent: Mount, mount: Mount)
    requires parent.Valid() && Initial(mount)
    ensures Absorb(parent, mount).Valid()
  {
    if parent.path <= mount.path {
      var relPath := mount.path[|parent.path|..];
      forall g | g in Absorb(parent, mount).ignores ensures g != [] {
        SurvivingIn(parent.ignores, relPath, mount, g);
      }
      forall q | q in Joined(relPath, mount.includes) ensures q != [] {
        assert forall i | 0 <= i < |mount.includes| :: mount.includes[i] in mount.includes;
      }
    }
  }

  lemma AbsorbGrows(parent: Mount, mount: Mount, x: Path)
    requires parent.Valid() && Initial(mount)
    ensures Covers(parent, x) ==> Covers(Absorb(parent, mount), x)
    ensures InTree(parent, x) ==> InTree(Absorb(parent, mount), x)
  {
    if parent.path <= mount.path && parent.syncAll {
      var relPath := mount.path[|parent.path|..];
      forall g | g in Absorb(parent, mount).ignores ensures g in parent.ignores {
        SurvivingIn(parent.ignores, relPath, mount, g);
      }
    }
  }

  lemma AbsorbCovers(parent: Mount, mount: Mount, x: Path)
    requires parent.Valid() && Initial(mount) && parent.path <= mount.path
    requires Needs(mount, x)
    ensures Covers(Absorb(parent, mount), x)
  {
    var relPath := mount.path[|parent.path|..];
    assert mount.path == parent.path + relPath;
    assert mount.path <= x;
    PrefixAppend(parent.path, relPath, x);
    var rel := x[|parent.path|..];
    assert relPath <= rel;
    assert x[|mount.path|..] == rel[|relPath|..];
    var merged := Absorb(parent, mount);
    if parent.syncAll {
      forall g | g in merged.ignores ensures !(g <= rel) {
        SurvivorSparesChild(parent, mount, g, x);
      }
    } else if parent.Includes(relPath) {
      var q :| q in parent.includes && q <= relPath;
      PrefixTransitive(q, relPath, rel);
    } else if mount.syncAll {
      if relPath != [] {
        assert relPath in merged.includes;
      }
    } else {
      var file := relPath + mount.includes[0];
      assert Joined(relPath, mount.includes)[0] == file;
      assert merged.includes[|parent.includes|] == file;
      assert file in merged.includes && file <= rel;
    }
  }

  lemma SurvivorSparesChild(parent: Mount, mount: Mount, g: Path, x: Path)
    requires Initial(mount) && parent.path <= mount.path <= x && Needs(mount, x)
    requires var relPath := mount.path[|parent.path|..]; g in Surviving(parent.ignores, relPath, mount)
    ensures parent.path <= x && !(g <= x[|parent.path|..])
  {
    var relPath, rel := mount.path[|parent.path|..], x[|parent.path|..];
    assert mount.path == parent.path + relPath;
    PrefixAppend(parent.path, relPath, x);
    SurvivingIn(parent.ignores, relPath, mount, g);
    assert x[|mount.path|..] == rel[|relPath|..];
    if g <= rel {
      PrefixesAreNested(g, relPath, rel);
      PrefixAppend(relPath, g[|relPath|..], rel);
    }
  }

  lemma AbsorbStaysInside(parent: Mount, mount: Mount, x: Path)
    requires parent.Valid() && Initial(mount)
    requires InTree(Absorb(parent, mount), x)
    ensures InTree(parent, x) || (parent.path <= mount.path && InTree(mount, x))
  {
    if !InTree(parent, x) {
      var relPath := mount.path[|parent.path|..];
      assert mount.path == parent.path + relPath;
      PrefixAppend(parent.path, relPath, x);
      var rel := x[|parent.path|..];
      if !(mount.syncAll && relPath == []) {
        var q :| q in Absorb(parent, mount).includes && q <= rel;
        if mount.syncAll {
          assert q == relPath;
        } else {
          var i :| 0 <= i < |mount.includes| && q == relPath + mount.includes[i];
          PrefixAppend(relPath, mount.includes[i], rel);
          assert mount.includes[i] in mount.includes;
          assert x[|mount.path|..] == rel[|relPath|..];
        }
      }
    }
  }

  /* ----- Which ignores a merge keeps ----- */

  /** An ignore of a mount at `path` leaves the nested mount `m` alone, or only
      ignores what that ignores itself. */
  predicate Spares(m: Mount, path: Path, g: Path)
    requires path <= m.path
  {
    var rel := m.path[|path|..];
    && !(g <= rel)
    && (rel <= g ==> m.syncAll && g[|rel|..] in m.ignores)
  }

  /** An ignore that is nested with the child in neither direction stays, one above
      the child or at it goes, and one below it stays exactly if the child is wholly
      synced and has the same. */
  lemma MergeIgnores(parent: Mount, mount: Mount, rel: Path, g: Path)
    requires parent.syncAll && mount.path == parent.path + rel
    ensures !(g <= rel) && !(rel <= g) ==> (g in Absorb(parent, mount).ignores <==> g in parent.ignores)
    ensures g <= rel ==> g !in Absorb(parent, mount).ignores
    ensures forall h | g == rel + h && h != [] ::
      g in Absorb(parent, mount).ignores <==> g in parent.ignores && mount.syncAll && h in mount.ignores
  {
    assert mount.path[|parent.path|..] == rel;
    SurvivingIn(parent.ignores, rel, mount, g);
    forall h | g == rel + h && h != [] ensures g[|rel|..] == h {
    }
  }

  lemma AbsorbIgnores(parent: Mount, mount: Mount, g: Path)
    requires parent.syncAll && parent.path <= mount.path
    ensures g in Absorb(parent, mount).ignores <==> g in parent.ignores && Spares(mount, parent.path, g)
  {
    SurvivingIn(parent.ignores, mount.path[|parent.path|..], mount, g);
  }

  lemma {:induction false} AbsorbAllIgnores(parent: Mount, ms: seq<Mount>, g: Path)
    requires parent.syncAll
    ensures AbsorbAll(parent, ms).syncAll
    ensures g in AbsorbAll(parent, ms).ignores <==>
      g in parent.ignores && forall m | m in ms && parent.path <= m.path :: Spares(m, parent.path, g)
  {
    if ms != [] {
      var n := |ms| - 1;
      AbsorbAllIgnores(parent, ms[..n], g);
      assert ms == ms[..n] + [ms[n]];
      if parent.path <= ms[n].path {
        AbsorbIgnores(AbsorbAll(parent, ms[..n]), ms[n], g);
      }
    }
  }

  /* ----- The whole pass ----- */

  ghost predicate AllInitial(order: seq<Mount>) {
    forall k | 0 <= k < |order| :: Initial(order[k])
  }

  lemma {:induction false} AbsorbAllValid(parent: Mount, ms: seq<Mount>)
    requires Initial(parent) && AllInitial(ms)
    ensures AbsorbAll(parent, ms).Valid()
  {
    if ms != [] {
      var n := |ms| - 1;
      AbsorbAllValid(parent, ms[..n]);
      AbsorbKeepsValid(AbsorbAll(parent, ms[..n]), ms[n]);
    }
  }

  lemma {:induction false} AbsorbAllGrows(parent: Mount, ms: seq<Mount>, x: Path)
    requires Initial(parent) && AllInitial(ms) && Covers(parent, x)
    ensures Covers(AbsorbAll(parent, ms), x)
  {
    if ms != [] {
      var n := |ms| - 1;
      AbsorbAllGrows(parent, ms[..n], x);
      AbsorbAllValid(parent, ms[..n]);
      AbsorbGrows(AbsorbAll(parent, ms[..n]), ms[n], x);
    }
  }

  lemma {:induction false} AbsorbAllCovers(parent: Mount, ms: seq<Mount>, m: Mount, x: Path)
    requires Initial(parent) && AllInitial(ms) && m in ms && parent.path <= m.path && Needs(m, x)
    ensures Covers(AbsorbAll(parent, ms), x)
  {
    var n := |ms| - 1;
    assert ms == ms[..n] + [ms[n]];
    AbsorbAllValid(parent, ms[..n]);
    if m == ms[n] {
      AbsorbCovers(AbsorbAll(parent, ms[..n]), m, x);
    } else {
      AbsorbAllCovers(parent, ms[..n], m, x);
      AbsorbGrows(AbsorbAll(parent, ms[..n]), ms[n], x);
    }
  }

  lemma {:induction false} AbsorbAllStaysInside(parent: Mount, ms: seq<Mount>, x: Path)
    requires Initial(parent) && AllInitial(ms) && InTree(AbsorbAll(parent, ms), x)
    ensures InTree(parent, x) || exists m :: m in ms && InTree(m, x)
  {
    if ms != [] {
      var n := |ms| - 1;
      AbsorbAllValid(parent, ms[..n]);
      AbsorbStaysInside(AbsorbAll(parent, ms[..n]), ms[n], x);
      if InTree(AbsorbAll(parent, ms[..n]), x) {
        AbsorbAllStaysInside(parent, ms[..n], x);
      }
    }
  }

  lemma PartsAreInitial(order: seq<Mount>)
    requires AllInitial(order) && order != []
    ensures Initial(order[0]) && AllInitial(order[1..]) && AllInitial(Others(order))
  {
    forall k | 0 <= k < |Others(order)| ensures Initial(Others(order)[k]) {
      var i := FromOthers(order, k);
    }
  }

  lemma {:induction false} CollapsedValid(order: seq<Mount>, r: Mount)
    requires AllInitial(order) && r in CollapseMounts(order)
    ensures r.Valid()
    decreases |order|
  {
    PartsAreInitial(order);
    AbsorbAllValid(order[0], order[1..]);
    if r != First(order) {
      CollapsedValid(Others(order), r);
    }
  }

  /** Every volume lies in one of the collapsed mounts, which covers all it
      needs. */
  lemma {:induction false} CollapseCovers(order: seq<Mount>, m: Mount, x: Path) returns (r: Mount)
    requires AllInitial(order) && m in order && Needs(m, x)
    ensures r in CollapseMounts(order) && r.Valid() && r.path <= m.path && Covers(r, x)
    decreases |order|
  {
    PartsAreInitial(order);
    assert order == [order[0]] + order[1..];
    if m == order[0] {
      r := First(order);
      InitialCovers(m, x);
      AbsorbAllGrows(m, order[1..], x);
    } else if order[0].path <= m.path {
      r := First(order);
      AbsorbAllCovers(order[0], order[1..], m, x);
    } else {
      OutsideIn(order[0].path, order[1..], m);
      r := CollapseCovers(Others(order), m, x);
    }
    CollapsedValid(order, r);
  }

  lemma InitialCovers(m: Mount, x: Path)
    requires Initial(m) && Needs(m, x)
    ensures Covers(m, x)
  {
    if !m.syncAll {
      assert x[|m.path|..] == m.includes[0] && m.includes[0] in m.includes;
    }
  }

  /** The collapsed mounts hold nothing outside the volumes. */
  lemma {:induction false} CollapseStaysInside(order: seq<Mount>, r: Mount, x: Path) returns (m: Mount)
    requires AllInitial(order) && r in CollapseMounts(order) && InTree(r, x)
    ensures m in order && InTree(m, x)
    decreases |order|
  {
    PartsAreInitial(order);
    assert order == [order[0]] + order[1..];
    if r == First(order) {
      AbsorbAllStaysInside(order[0], order[1..], x);
      m :| m in order && InTree(m, x);
    } else {
      m := CollapseStaysInside(Others(order), r, x);
      OutsideIn(order[0].path, order[1..], m);
    }
  }

  /* ----- The mounts are not nested ----- */

  /** No mount comes after a mount strictly below it. */
  ghost predicate ShallowFirst(order: seq<Mount>) {
    forall i, j | 0 <= i < j < |order| :: !(order[j].path < order[i].path)
  }

  lemma OthersShallowFirst(order: seq<Mount>)
    requires order != [] && ShallowFirst(order)
    ensures ShallowFirst(Others(order))
  {
    var r := Others(order);
    forall k, l | 0 <= k < l < |r| ensures !(r[l].path < r[k].path) {
      var i := FromOthers(order, k);
      var j := FromOthers(order, l);
      OthersInOrder(order, i, j);
    }
  }

  lemma {:induction false} PathComesFrom(order: seq<Mount>, r: Mount) returns (m: Mount)
    requires r in CollapseMounts(order)
    ensures m in order && m.path == r.path
    decreases |order|
  {
    if r == First(order) {
      m := order[0];
    } else {
      m := PathComesFrom(Others(order), r);
      OutsideIn(order[0].path, order[1..], m);
    }
  }

  lemma {:induction false} AbsorbedInto(order: seq<Mount>, m: Mount) returns (r: Mount)
    requires m in order
    ensures r in CollapseMounts(order) && r.path <= m.path
    decreases |order|
  {
    if order[0].path <= m.path {
      r := First(order);
    } else {
      assert order == [order[0]] + order[1..];
      OutsideIn(order[0].path, order[1..], m);
      r := AbsorbedInto(Others(order), m);
    }
  }

  ghost predicate NotNested(c: seq<Mount>) {
    forall i, j | 0 <= i < |c| && 0 <= j < |c| && i != j :: !(c[i].path <= c[j].path)
  }

  /** No collapsed mount lies in another one. */
  lemma {:induction false} CollapsedNotNested(order: seq<Mount>)
    requires ShallowFirst(order)
    ensures NotNested(CollapseMounts(order))
    decreases |order|
  {
    if order != [] {
      OthersShallowFirst(order);
      CollapsedNotNested(Others(order));
      forall r | r in CollapseMounts(Others(order))
        ensures !(order[0].path <= r.path) && !(r.path <= order[0].path)
      {
        FirstIsApart(order, r);
      }
      NotNestedCons(First(order), CollapseMounts(Others(order)));
    }
  }

  lemma FirstIsApart(order: seq<Mount>, r: Mount)
    requires ShallowFirst(order) && order != [] && r in CollapseMounts(Others(order))
    ensures !(order[0].path <= r.path) && !(r.path <= order[0].path)
  {
    var m := PathComesFrom(Others(order), r);
    OutsideIn(order[0].path, order[1..], m);
    var k :| 0 <= k < |order[1..]| && order[1..][k] == m;
    assert order[k + 1] == m && !(order[k + 1].path < order[0].path);
  }

  lemma NotNestedCons(first: Mount, rest: seq<Mount>)
    requires NotNested(rest)
    requires forall r | r in rest :: !(first.path <= r.path) && !(r.path <= first.path)
    ensures NotNested([first] + rest)
  {
    var c := [first] + rest;
    assert forall i | 1 <= i < |c| :: c[i] == rest[i - 1];
    forall i | 1 <= i < |c| ensures !(first.path <= c[i].path) && !(c[i].path <= first.path) {
      assert rest[i - 1] in rest;
    }
    forall i, j | 1 <= i < |c| && 1 <= j < |c| && i != j ensures !(c[i].path <= c[j].path) {
      assert !(rest[i - 1].path <= rest[j - 1].path);
    }
  }

  /** `c[i]` is the one mount at or above `x`. */
  ghost predicate OnlyAbove(c: seq<Mount>, i: nat, x: Path) {
    && i < |c| && c[i].path <= x
    && forall j | 0 <= j < |c| && j != i :: !(c[j].path <= x)
  }

  lemma OnlyOneAbove(c: seq<Mount>, i: nat, x: Path)
    requires NotNested(c) && i < |c| && c[i].path <= x
    ensures OnlyAbove(c, i, x)
  {
    forall j | 0 <= j < |c| && j != i ensures !(c[j].path <= x) {
      if c[j].path <= x {
        PrefixesAreNested(c[i].path, c[j].path, x);
      }
    }
  }

  /** Each input mount is taken in by exactly one collapsed mount. */
  lemma AbsorbedByExactlyOne(order: seq<Mount>, m: Mount)
    requires ShallowFirst(order) && m in order
    ensures exists i :: OnlyAbove(CollapseMounts(order), i, m.path)
  {
    var c := CollapseMounts(order);
    CollapsedNotNested(order);
    var r := AbsorbedInto(order, m);
    var i :| 0 <= i < |c| && c[i] == r;
    OnlyOneAbove(c, i, m.path);
  }
}
