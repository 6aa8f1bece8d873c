/** The rules of a .stignore file, the text they are written as, and the order
    GetStignore sorts them in. */
module RuleText {
  import opened Paths

  datatype Rule =
    | Include(path: Path)  // "!/q": keep q and everything below it
    | Contents(path: Path) // "/q/": drop everything strictly below q
    | Ignore(path: Path)   // "/q": drop q and everything below it
    | Everything           // "**": drop everything
  {
    predicate Matches(x: Path) {
      match this
      case Include(q) => q <= x
      case Contents(q) => q < x
      case Ignore(q) => q <= x
      case Everything => true
    }
  }

  /** A rule about one path, as opposed to the closing "**". */
  predicate Specific(r: Rule) {
    !r.Everything? && r.path != []
  }

  function Slashed(p: Path): string {
    if p == [] then "" else "/" + p[0] + Slashed(p[1..])
  }

  function Text(r: Rule): string {
    match r
    case Include(q) => "!" + Slashed(q)
    case Contents(q) => Slashed(q) + "/"
    case Ignore(q) => Slashed(q)
    case Everything => "\n# Ignore all other files.\n**"
  }

  /* ----- The comparator, on the text as the program has it ----- */

  function CountSlashes(s: string): nat {
    if s == "" then 0 else (if s[0] == '/' then 1 else 0) + CountSlashes(s[1..])
  }

  predicate EndsInSlash(s: string) {
    s != "" && s[|s| - 1] == '/'
  }

  /** filepath.Clean on a rule: only a closing slash can be removable. */
  function CleanText(s: string): string {
    if |s| > 1 && EndsInSlash(s) then s[..|s| - 1] else s
  }

  predicate StringLess(a: string, b: string) {
    if b == "" then false
    else if a == "" then true
    else a[0] < b[0] || (a[0] == b[0] && StringLess(a[1..], b[1..]))
  }

  predicate TextLess(left: string, right: string) {
    var dl, dr := CountSlashes(CleanText(left)), CountSlashes(CleanText(right));
    if dl > dr then true
    else if dr > dl then false
    else if EndsInSlash(left) && !EndsInSlash(right) then true
    else if !EndsInSlash(left) && EndsInSlash(right) then false
    else StringLess(left, right)
  }

  /** What that comes to for the rules themselves: deeper first, then
      directory contents before the rest, then by text. */
  predicate Less(left: Rule, right: Rule)
    requires Specific(left) && Specific(right)
  {
    if |left.path| != |right.path| then |left.path| > |right.path|
    else if left.Contents? != right.Contents? then left.Contents?
    else StringLess(Text(left), Text(right))
  }

  lemma {:induction false} CountConcat(s: string, t: string)
    ensures CountSlashes(s + t) == CountSlashes(s) + CountSlashes(t)
  {
    if s == "" {
      assert s + t == t;
    } else {
      assert (s + t)[1..] == s[1..] + t;
      CountConcat(s[1..], t);
    }
  }

  lemma {:induction false} NoSlashNoCount(s: string)
    requires '/' !in s
    ensures CountSlashes(s) == 0
  {
    if s != "" {
      NoSlashNoCount(s[1..]);
    }
  }

  lemma {:induction false} SlashedShape(p: Path)
    ensures CountSlashes(Slashed(p)) == |p|
    ensures p != [] ==> |Slashed(p)| > 1 && !EndsInSlash(Slashed(p)) && Slashed(p)[0] == '/'
  {
    if p != [] {
      SlashedShape(p[1..]);
      NoSlashNoCount(p[0]);
      CountConcat("/" + p[0], Slashed(p[1..]));
      CountConcat("/", p[0]);
      if |p| == 1 {
        assert Slashed(p) == "/" + p[0];
        assert p[0][|p[0]| - 1] in p[0];
      }
    }
  }

  lemma TextShape(r: Rule)
    requires Specific(r)
    ensures CountSlashes(CleanText(Text(r))) == |r.path|
    ensures EndsInSlash(Text(r)) <==> r.Contents?
  {
    SlashedShape(r.path);
    match r
    case Include(q) => CountConcat("!", Slashed(q));
    case Contents(q) => assert CleanText(Text(r)) == Slashed(q);
    case Ignore(q) =>
  }

  /** The comparator the program runs on strings is `Less` on rules. */
  lemma ComparatorOnText(left: Rule, right: Rule)
    requires Specific(left) && Specific(right)
    ensures TextLess(Text(left), Text(right)) <==> Less(left, right)
  {
    TextShape(left);
    TextShape(right);
  }

  /* ----- It is a strict total order ----- */

  lemma {:induction false} StringLessTotal(a: string, b: string)
    ensures a == b ==> !StringLess(a, b)
    ensures a != b ==> (StringLess(a, b) <==> !StringLess(b, a))
  {
    if a != "" && b != "" && a[0] == b[0] {
      StringLessTotal(a[1..], b[1..]);
      assert a == [a[0]] + a[1..] && b == [b[0]] + b[1..];
    }
  }

  lemma {:induction false} StringLessTransitive(a: string, b: string, c: string)
    requires StringLess(a, b) && StringLess(b, c)
    ensures StringLess(a, c)
  {
    if a != "" && b != "" && c != "" && a[0] == b[0] == c[0] {
      StringLessTransitive(a[1..], b[1..], c[1..]);
    }
  }

  /** Splitting at the first slash recovers a component, so no two paths are
      written alike. */
  lemma {:induction false} SlashedInjective(p: Path, q: Path)
    requires Slashed(p) == Slashed(q)
    ensures p == q
  {
    SlashedShape(p);
    SlashedShape(q);
    if p != [] && q != [] {
      SlashedShape(p[1..]);
      SlashedShape(q[1..]);
      var s, t := p[0] + Slashed(p[1..]), q[0] + Slashed(q[1..]);
      assert Slashed(p)[1..] == s && Slashed(q)[1..] == t;
      FirstComponent(p[0], Slashed(p[1..]), q[0], Slashed(q[1..]));
      SlashedInjective(p[1..], q[1..]);
      assert p == [p[0]] + p[1..] && q == [q[0]] + q[1..];
    }
  }

  lemma FirstComponent(a: string, s: string, b: string, t: string)
    requires '/' !in a && '/' !in b
    requires s == "" || s[0] == '/'
    requires t == "" || t[0] == '/'
    requires a + s == b + t
    ensures a == b && s == t
  {
    if |a| < |b| {
      Overlap(a, s, b, t);
    } else if |b| < |a| {
      Overlap(b, t, a, s);
    }
    assert a == (a + s)[..|a|] && b == (b + t)[..|b|];
    assert s == (a + s)[|a|..] && t == (b + t)[|b|..];
  }

  lemma Overlap(a: string, s: string, b: string, t: string)
    requires a + s == b + t && |a| < |b|
    ensures s != "" && s[0] in b
  {
    assert s[0] == (a + s)[|a|] == (b + t)[|a|] == b[|a|];
  }

  lemma TextInjective(r: Rule, s: Rule)
    requires Specific(r) && Specific(s) && Text(r) == Text(s)
    ensures r == s
  {
    TextShape(r);
    TextShape(s);
    SlashedShape(r.path);
    SlashedShape(s.path);
    if r.Include? {
      assert Text(r)[0] == '!' && s.Include?;
      assert Text(r)[1..] == Slashed(r.path) && Text(s)[1..] == Slashed(s.path);
    } else {
      assert Text(r)[0] == '/' && !s.Include?;
      if r.Contents? {
        assert CleanText(Text(r)) == Slashed(r.path) && CleanText(Text(s)) == Slashed(s.path);
      }
    }
    SlashedInjective(r.path, s.path);
  }

  lemma LessTotal(r: Rule, s: Rule)
    requires Specific(r) && Specific(s)
    ensures !Less(r, r)
    ensures r != s ==> (Less(r, s) <==> !Less(s, r))
  {
    StringLessTotal(Text(r), Text(r));
    StringLessTotal(Text(r), Text(s));
    if Text(r) == Text(s) {
      TextInjective(r, s);
    }
  }

  lemma LessTransitive(r: Rule, s: Rule, t: Rule)
    requires Specific(r) && Specific(s) && Specific(t)
    requires Less(r, s) && Less(s, t)
    ensures Less(r, t)
  {
    if |r.path| == |s.path| == |t.path| && r.Contents? == s.Contents? == t.Contents? {
      StringLessTransitive(Text(r), Text(s), Text(t));
    }
  }

  /** The strict order leaves one way to list a set of rules. */
  ghost predicate StrictlySorted(rules: seq<Rule>) {
    && (forall i | 0 <= i < |rules| :: Specific(rules[i]))
    && (forall i, j | 0 <= i < j < |rules| :: Less(rules[i], rules[j]))
  }

  lemma {:induction false} SortedListIsUnique(s: seq<Rule>, t: seq<Rule>)
    requires StrictlySorted(s) && StrictlySorted(t)
    requires forall r :: r in s <==> r in t
    ensures s == t
  {
    assert t == [] || t[0] in t;
    if s != [] {
      assert s[0] in s && s[0] in t;
      SameHead(s, t);
      SameTail(s, t);
      SameTail(t, s);
      SortedListIsUnique(s[1..], t[1..]);
      assert s == [s[0]] + s[1..] && t == [t[0]] + t[1..];
    }
  }

  lemma SameHead(s: seq<Rule>, t: seq<Rule>)
    requires StrictlySorted(s) && StrictlySorted(t) && s != [] && t != []
    requires s[0] in t && t[0] in s
    ensures s[0] == t[0]
  {
    var i :| 0 <= i < |t| && t[i] == s[0];
    var j :| 0 <= j < |s| && s[j] == t[0];
    LessTotal(s[0], t[0]);
  }

  lemma SameTail(s: seq<Rule>, t: seq<Rule>)
    requires StrictlySorted(s) && s != [] && t != [] && s[0] == t[0]
    requires forall r :: r in s ==> r in t
    ensures forall r :: r in s[1..] ==> r in t[1..]
  {
    forall r | r in s[1..] ensures r in t[1..] {
      var i :| 1 <= i < |s| && s[i] == r;
      LessTotal(s[0], r);
      assert Less(s[0], s[i]);
      assert r in t;
      var j :| 0 <= j < |t| && t[j] == r;
      assert t[1..][j - 1] == r;
    }
  }
}
