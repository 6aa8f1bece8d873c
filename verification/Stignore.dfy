/** Compiling one mount to the rules of its .stignore file, and what those
    rules mean when they are read first match wins. */
module Stignore {
  import opened Paths
  import opened RuleText
  import opened Strs

  datatype Mount = Mount(path: Path, includes: seq<Path>, ignores: seq<Path>, syncAll: bool) {
    /** A list is only used in the mode it belongs to, and never names the
        mount's own directory. */
    ghost predicate Valid() {
      && (syncAll ==> includes == [])
      && (!syncAll ==> ignores == [])
      && (forall q | q in includes :: q != [])
      && (forall q | q in ignores :: q != [])
    }

    /** Whether an include of this mount already covers `child`. */
    predicate Includes(child: Path)
      ensures Includes(child) <==> exists q :: q in includes && q <= child
    {
      exists q | q in includes :: GetSubpath(q, child).Some?
    }
  }

  /* ----- The compiler ----- */

  /** The rules that let `path` through: for every prefix its include rule, and
      for every proper prefix a rule dropping the rest of that directory. */
  method RulesToIncludePath(path: Path) returns (rules: seq<Rule>)
    requires path != []
    ensures forall r :: r in rules <==>
      (r.Include? && r.path != [] && r.path <= path) || (r.Contents? && r.path != [] && r.path < path)
  {
    var p := path;
    rules := [];
    while true
      invariant p != [] && p <= path
      invariant forall r :: r in rules <==>
        (r.Include? && |p| < |r.path| && r.path <= path) || (r.Contents? && |p| <= |r.path| && r.path < path)
      decreases |p|
    {
      rules := rules + [Include(p)];
      var parent := p[..|p| - 1];
      PrefixTransitive(parent, p, path);
      forall q | q <= path && |q| == |p| ensures q == p {
        assert q == path[..|q|] && p == path[..|p|];
      }
      if parent == [] {
        return;
      }
      forall q | q <= path && |q| == |parent| ensures q == parent {
        assert q == path[..|q|] && parent == path[..|parent|];
      }
      rules := rules + [Contents(parent)];
      p := parent;
    }
  }

  /** sort.Slice with the comparator; on distinct rules its result is fixed. */
  method SortRules(rules: seq<Rule>) returns (sorted: seq<Rule>)
    requires forall r | r in rules :: Specific(r)
    requires forall i, j | 0 <= i < j < |rules| :: rules[i] != rules[j]
    ensures StrictlySorted(sorted)
    ensures forall r :: r in sorted <==> r in rules
  {
    sorted := [];
    for n := 0 to |rules|
      invariant StrictlySorted(sorted)
      invariant forall r :: r in sorted <==> r in rules[..n]
    {
      assert rules[..n + 1] == rules[..n] + [rules[n]];
      assert rules[n] !in rules[..n];
      sorted := InsertRule(sorted, rules[n]);
    }
    assert rules[..|rules|] == rules;
  }

  /** The first place whose rule does not come before `r`, from `at` on. */
  function RulePlace(sorted: seq<Rule>, r: Rule, at: nat): (place: nat)
    requires (forall s | s in sorted :: Specific(s)) && Specific(r) && at <= |sorted|
    requires forall i | 0 <= i < at :: Less(sorted[i], r)
    ensures place <= |sorted| && (place < |sorted| ==> !Less(sorted[place], r))
    ensures forall i | 0 <= i < place :: Less(sorted[i], r)
    decreases |sorted| - at
  {
    if at == |sorted| || !Less(sorted[at], r) then at else RulePlace(sorted, r, at + 1)
  }

  function InsertRule(sorted: seq<Rule>, r: Rule): (result: seq<Rule>)
    requires StrictlySorted(sorted) && Specific(r) && r !in sorted
    ensures StrictlySorted(result)
    ensures forall s :: s in result <==> s in sorted || s == r
  {
    var at := RulePlace(sorted, r, 0);
    InsertedAt(sorted, r, at);
    sorted[..at] + [r] + sorted[at..]
  }

  lemma InsertedAt(sorted: seq<Rule>, r: Rule, at: nat)
    requires StrictlySorted(sorted) && Specific(r) && r !in sorted && at <= |sorted|
    requires forall i | 0 <= i < at :: Less(sorted[i], r)
    requires at < |sorted| ==> !Less(sorted[at], r)
    ensures StrictlySorted(sorted[..at] + [r] + sorted[at..])
    ensures forall s :: s in sorted[..at] + [r] + sorted[at..] <==> s in sorted || s == r
  {
    forall i | at <= i < |sorted| ensures Less(r, sorted[i]) {
      LessTotal(sorted[at], r);
      if i > at {
        LessTransitive(r, sorted[at], sorted[i]);
      }
    }
    SplicedSorted(sorted, r, at);
    SplicedHas(sorted, r, at);
  }

  lemma SplicedSorted(sorted: seq<Rule>, r: Rule, at: nat)
    requires StrictlySorted(sorted) && Specific(r) && at <= |sorted|
    requires forall i | 0 <= i < at :: Less(sorted[i], r)
    requires forall i | at <= i < |sorted| :: Less(r, sorted[i])
    ensures StrictlySorted(sorted[..at] + [r] + sorted[at..])
  {
  }

  lemma SplicedHas<T>(s: seq<T>, x: T, at: nat)
    requires at <= |s|
    ensures forall y :: y in s[..at] + [x] + s[at..] <==> y in s || y == x
  {
    assert s == s[..at] + s[at..];
  }

  /** The rules a mount calls for, before ordering. */
  ghost predicate Emitted(m: Mount, r: Rule) {
    match r
    case Include(q) => q != [] && exists inc :: inc in m.includes && q <= inc
    case Contents(q) => q != [] && exists inc :: inc in m.includes && q < inc
    case Ignore(q) => q in m.ignores
    case Everything => false
  }

  ghost predicate CompiledFrom(m: Mount, rules: seq<Rule>) {
    exists sorted :: ListsEmitted(m, sorted) && rules == sorted + Closing(m)
  }

  ghost predicate ListsEmitted(m: Mount, sorted: seq<Rule>) {
    && StrictlySorted(sorted)
    && forall r :: r in sorted <==> Emitted(m, r)
  }

  function Closing(m: Mount): seq<Rule> {
    if m.syncAll then [] else [Everything]
  }

  method GetStignore(m: Mount) returns (rules: seq<Rule>, needed: bool)
    requires m.Valid()
    ensures CompiledFrom(m, rules)
    ensures needed <==> rules != []
    ensures !needed <==> m.syncAll && m.ignores == []
  {
    var including := IncludeRules(m.includes);
    var ignoring := IgnoreRules(m.ignores);
    var allRules := including + ignoring;
    var distinct := Unique(allRules);
    AllEmitted(m, including, ignoring);
    var sorted := SortRules(distinct);
    assert ListsEmitted(m, sorted);
    rules := sorted + Closing(m);
    needed := |rules| != 0;
    if m.syncAll && m.ignores != [] {
      assert Emitted(m, Ignore(m.ignores[0]));
    }
    if m.syncAll && sorted != [] {
      assert Emitted(m, sorted[0]);
    }
  }

  method IncludeRules(includes: seq<Path>) returns (rules: seq<Rule>)
    requires forall q | q in includes :: q != []
    ensures forall r :: r in rules <==> FromIncludes(includes, |includes|, r)
  {
    rules := [];
    for n := 0 to |includes|
      invariant forall r :: r in rules <==> FromIncludes(includes, n, r)
    {
      assert includes[n] in includes;
      var more := RulesToIncludePath(includes[n]);
      forall r ensures FromIncludes(includes, n + 1, r) <==> r in rules || r in more {
        IncludeOneMore(includes, n, r);
      }
      rules := rules + more;
    }
  }

  ghost predicate FromIncludes(includes: seq<Path>, n: nat, r: Rule)
    requires n <= |includes|
  {
    || (r.Include? && r.path != [] && exists k :: 0 <= k < n && r.path <= includes[k])
    || (r.Contents? && r.path != [] && exists k :: 0 <= k < n && r.path < includes[k])
  }

  lemma IncludeOneMore(includes: seq<Path>, n: nat, r: Rule)
    requires n < |includes|
    ensures FromIncludes(includes, n + 1, r) <==>
      || FromIncludes(includes, n, r)
      || (r.Include? && r.path != [] && r.path <= includes[n])
      || (r.Contents? && r.path != [] && r.path < includes[n])
  {
  }

  method IgnoreRules(ignores: seq<Path>) returns (rules: seq<Rule>)
    ensures forall r :: r in rules <==> r.Ignore? && r.path in ignores
  {
    rules := [];
    for n := 0 to |ignores|
      invariant forall r :: r in rules <==> r.Ignore? && r.path in ignores[..n]
    {
      assert ignores[..n + 1] == ignores[..n] + [ignores[n]];
      rules := rules + [Ignore(ignores[n])];
    }
    assert ignores[..|ignores|] == ignores;
  }

  lemma AllEmitted(m: Mount, including: seq<Rule>, ignoring: seq<Rule>)
    requires m.Valid()
    requires forall r :: r in including <==> FromIncludes(m.includes, |m.includes|, r)
    requires forall r :: r in ignoring <==> r.Ignore? && r.path in m.ignores
    ensures forall r :: r in including + ignoring <==> Emitted(m, r)
  {
    assert forall k | 0 <= k < |m.includes| :: m.includes[k] in m.includes;
    forall r ensures r in including + ignoring <==> Emitted(m, r) {
      if r.Include? && Emitted(m, r) {
        var inc :| inc in m.includes && r.path <= inc;
        var k :| 0 <= k < |m.includes| && m.includes[k] == inc;
        assert FromIncludes(m.includes, |m.includes|, r);
      }
      if r.Contents? && Emitted(m, r) {
        var inc :| inc in m.includes && r.path < inc;
        var k :| 0 <= k < |m.includes| && m.includes[k] == inc;
        assert FromIncludes(m.includes, |m.includes|, r);
      }
    }
  }

  /** Every mount has a file. */
  lemma StignoreExists(m: Mount)
    requires m.Valid()
    ensures exists rules :: CompiledFrom(m, rules)
  {
    var emitted :=
      (set inc, k | inc in m.includes && 0 < k <= |inc| :: Include(inc[..k])) +
      (set inc, k | inc in m.includes && 0 < k < |inc| :: Contents(inc[..k])) +
      (set g | g in m.ignores :: Ignore(g));
    forall r ensures r in emitted <==> Emitted(m, r) {
      if r.Include? && Emitted(m, r) {
        var inc :| inc in m.includes && r.path <= inc;
        assert r == Include(inc[..|r.path|]);
      }
      if r.Contents? && Emitted(m, r) {
        var inc :| inc in m.includes && r.path < inc;
        assert r == Contents(inc[..|r.path|]);
      }
    }
    var sorted := SortedList(emitted);
    assert ListsEmitted(m, sorted);
    assert CompiledFrom(m, sorted + Closing(m));
  }

  lemma SortedList(rules: set<Rule>) returns (sorted: seq<Rule>)
    requires forall r | r in rules :: Specific(r)
    ensures StrictlySorted(sorted)
    ensures forall r :: r in sorted <==> r in rules
  {
    if rules == {} {
      sorted := [];
    } else {
      var r :| r in rules;
      var rest := SortedList(rules - {r});
      sorted := InsertRule(rest, r);
      forall q ensures q in sorted <==> q in rules {
        assert q in rules <==> q in rules - {r} || q == r;
      }
    }
  }

  /** The file depends only on the mode and on which paths are listed, not on
      their order or repetition. */
  lemma StignoreIsCanonical(m: Mount, n: Mount, rules: seq<Rule>, rules': seq<Rule>)
    requires CompiledFrom(m, rules) && CompiledFrom(n, rules')
    requires m.syncAll == n.syncAll
    requires forall q :: q in m.includes <==> q in n.includes
    requires forall q :: q in m.ignores <==> q in n.ignores
    ensures rules == rules'
  {
    var s :| ListsEmitted(m, s) && rules == s + Closing(m);
    var t :| ListsEmitted(n, t) && rules' == t + Closing(n);
    forall r ensures r in s <==> r in t {
      assert Emitted(m, r) <==> Emitted(n, r);
    }
    SortedListIsUnique(s, t);
  }

  /* ----- The meaning ----- */

  /** First match wins; a path no rule matches is kept. */
  predicate Ignored(rules: seq<Rule>, x: Path) {
    if rules == [] then false
    else if rules[0].Matches(x) then !rules[0].Include?
    else Ignored(rules[1..], x)
  }

  lemma {:induction false} FirstMatch(rules: seq<Rule>, x: Path, i: nat)
    requires i < |rules| && rules[i].Matches(x)
    requires forall j | 0 <= j < i :: !rules[j].Matches(x)
    ensures Ignored(rules, x) <==> !rules[i].Include?
  {
    if i > 0 {
      FirstMatch(rules[1..], x, i - 1);
    }
  }

  lemma {:induction false} NoMatch(rules: seq<Rule>, x: Path)
    requires forall r | r in rules :: !r.Matches(x)
    ensures !Ignored(rules, x)
  {
    if rules != [] {
      NoMatch(rules[1..], x);
    }
  }

  /** A rule that matches, and before which nothing does, decides. */
  lemma Decides(m: Mount, rules: seq<Rule>, x: Path, w: Rule)
    requires CompiledFrom(m, rules) && w in rules && w.Matches(x)
    requires forall r | Emitted(m, r) && r.Matches(x) && r != w ::
      w.Everything? || (Specific(r) && Specific(w) && Less(w, r))
    requires w.Everything? ==> forall r | Emitted(m, r) :: !r.Matches(x)
    ensures Ignored(rules, x) <==> !w.Include?
  {
    var s :| ListsEmitted(m, s) && rules == s + Closing(m);
    var i :| 0 <= i < |rules| && rules[i] == w;
    forall j | 0 <= j < i ensures !rules[j].Matches(x) {
      assert rules[j] == s[j] && Emitted(m, s[j]);
      if !w.Everything? {
        assert w == s[i] && Less(s[j], s[i]);
        LessTotal(s[j], w);
      }
    }
    FirstMatch(rules, x, i);
  }

  /** Some include lies at or below `x`. */
  ghost predicate LeadsToInclude(includes: seq<Path>, x: Path) {
    exists inc :: inc in includes && x <= inc
  }

  /** An include with no other include strictly below it. */
  ghost predicate IsLeaf(includes: seq<Path>, inc: Path) {
    && inc in includes
    && forall other | other in includes :: !(inc < other)
  }

  /** The length of the longest prefix of `x` from which an include can still
      be reached. */
  ghost function Reach(includes: seq<Path>, x: Path): (k: nat)
    requires includes != []
    ensures k <= |x| && LeadsToInclude(includes, x[..k])
    ensures forall q | q <= x && k < |q| :: !LeadsToInclude(includes, q)
  {
    assert includes[0] in includes && [] <= includes[0];
    if LeadsToInclude(includes, x) then
      assert x[..|x|] == x;
      |x|
    else
      var k := Reach(includes, x[..|x| - 1]);
      assert x[..|x| - 1][..k] == x[..k];
      assert forall q | q <= x && |q| == |x| :: q == x;
      assert forall q | q <= x && |q| < |x| :: q <= x[..|x| - 1];
      k
  }

  /** Exactly what the rules of a mount with includes keep: the paths on the way
      to an include, and everything below an include that has no further
      include below it. An include above another one does not keep its tree. */
  lemma UnignoredExactly(m: Mount, rules: seq<Rule>, x: Path)
    requires m.Valid() && !m.syncAll && CompiledFrom(m, rules) && x != []
    ensures !Ignored(rules, x) <==>
      LeadsToInclude(m.includes, x) || exists inc :: IsLeaf(m.includes, inc) && inc <= x
  {
    var s :| ListsEmitted(m, s) && rules == s + Closing(m);
    assert rules[|s|] == Everything;
    if m.includes == [] {
      forall r ensures !Emitted(m, r) {}
      Decides(m, rules, x, Everything);
    } else {
      UnignoredAtReach(m, rules, x);
    }
  }

  lemma UnignoredAtReach(m: Mount, rules: seq<Rule>, x: Path)
    requires m.Valid() && !m.syncAll && CompiledFrom(m, rules) && x != [] && m.includes != []
    requires Everything in rules
    ensures !Ignored(rules, x) <==>
      LeadsToInclude(m.includes, x) || exists inc :: IsLeaf(m.includes, inc) && inc <= x
  {
    var k := Reach(m.includes, x);
    var q := x[..k];
    var inc :| inc in m.includes && q <= inc;
    forall r | Emitted(m, r) && r.Matches(x)
      ensures Specific(r) && r.path <= x && |r.path| <= k && (|r.path| == k ==> r.path == q)
    {
      var i :| i in m.includes && r.path <= i;
      assert LeadsToInclude(m.includes, r.path);
    }
    forall l | IsLeaf(m.includes, l) && l <= x ensures l == q {
      assert LeadsToInclude(m.includes, l);
      assert l <= q <= inc by { PrefixesAreNested(l, q, x); }
      PrefixTransitive(l, q, inc);
    }
    InRules(m, rules);
    if k == 0 {
      Decides(m, rules, x, Everything);
    } else if k < |x| && exists i :: i in m.includes && q < i {
      assert Emitted(m, Contents(q));
      Decides(m, rules, x, Contents(q));
    } else {
      assert Emitted(m, Include(q));
      forall r | Emitted(m, r) && r.Matches(x) && r != Include(q) ensures Less(Include(q), r) {
        assert r.Contents? ==> exists i :: i in m.includes && r.path < i;
      }
      Decides(m, rules, x, Include(q));
      if k < |x| {
        assert q == inc && IsLeaf(m.includes, inc);
      } else {
        assert q == x;
      }
    }
  }

  lemma InRules(m: Mount, rules: seq<Rule>)
    requires CompiledFrom(m, rules)
    ensures forall r | Emitted(m, r) :: r in rules
  {
    var s :| ListsEmitted(m, s) && rules == s + Closing(m);
    forall r | Emitted(m, r) ensures r in rules {
      assert r in s;
      var i :| 0 <= i < |s| && s[i] == r;
      assert rules[i] == r;
    }
  }

  ghost predicate NoNestedIncludes(includes: seq<Path>) {
    forall a, b | a in includes && b in includes :: !(a < b)
  }

  /** With no include below another: a path is kept iff it lies at or below an
      includes, or above one; so the kept paths are closed under parents. */
  lemma UnignoredWhenFlat(m: Mount, rules: seq<Rule>, x: Path)
    requires m.Valid() && !m.syncAll && CompiledFrom(m, rules) && x != []
    requires NoNestedIncludes(m.includes)
    ensures !Ignored(rules, x) <==> exists inc :: inc in m.includes && (inc <= x || x < inc)
    ensures !Ignored(rules, x) ==> forall p: Path | p <= x && p != [] :: !Ignored(rules, p)
  {
    FlatAt(m, rules, x);
    forall p: Path | p <= x && p != [] && !Ignored(rules, x) ensures !Ignored(rules, p) {
      FlatAt(m, rules, p);
      var inc :| inc in m.includes && (inc <= x || x < inc);
      if inc <= x {
        PrefixesAreNested(inc, p, x);
      } else {
        PrefixTransitive(p, x, inc);
      }
    }
  }

  lemma FlatAt(m: Mount, rules: seq<Rule>, x: Path)
    requires m.Valid() && !m.syncAll && CompiledFrom(m, rules) && x != []
    requires NoNestedIncludes(m.includes)
    ensures !Ignored(rules, x) <==> exists inc :: inc in m.includes && (inc <= x || x < inc)
  {
    UnignoredExactly(m, rules, x);
    forall inc | inc in m.includes ensures IsLeaf(m.includes, inc) {}
    if exists inc :: inc in m.includes && (inc <= x || x < inc) {
      var inc :| inc in m.includes && (inc <= x || x < inc);
      assert x <= inc || (IsLeaf(m.includes, inc) && inc <= x);
    }
  }

  /** A mount that syncs everything drops exactly its ignored subtrees. */
  lemma UnignoredWhenSyncAll(m: Mount, rules: seq<Rule>, x: Path)
    requires m.Valid() && m.syncAll && CompiledFrom(m, rules)
    ensures !Ignored(rules, x) <==> forall g | g in m.ignores :: !(g <= x)
  {
    var s :| ListsEmitted(m, s) && rules == s + Closing(m);
    assert rules == s;
    forall r | r in rules ensures r.Ignore? && r.path in m.ignores { assert Emitted(m, r); }
    if g :| g in m.ignores && g <= x {
      assert Emitted(m, Ignore(g)) && Ignore(g) in rules;
      OnlyIgnores(rules, x, Ignore(g));
    } else {
      NoMatch(rules, x);
    }
  }

  lemma {:induction false} OnlyIgnores(rules: seq<Rule>, x: Path, r: Rule)
    requires forall s | s in rules :: s.Ignore?
    requires r in rules && r.Matches(x)
    ensures Ignored(rules, x)
  {
    if !rules[0].Matches(x) {
      assert r in rules[1..];
      OnlyIgnores(rules[1..], x, r);
    } else {
      assert rules[0] in rules;
    }
  }
}
