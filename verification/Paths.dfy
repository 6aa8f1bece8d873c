/** File-system paths as sequences of components, and the nesting test that the
    bind-volume compiler applies to them. */
module Paths {
  import opened Wrappers

  /** A component that filepath.Clean leaves alone and that an ignore pattern
      reads literally. The double-dot prefix is excluded because getSubpath
      takes a relative path that starts with it for one that leaves the parent. */
  predicate PlainName(s: string) {
    && s != "" && s != "." && !StartsWithDotDot(s)
    && forall c | c in s :: c !in ['/', '*', '?', '[', '{', '\\', '\n']
  }

  predicate StartsWithDotDot(s: string) {
    |s| >= 2 && s[0] == '.' && s[1] == '.'
  }

  type Name = s: string | PlainName(s) witness "a"

  /** An absolute path below "/", or a path relative to some directory; `[]` is
      "/" or ".". The built-in `<=` on sequences is "is, or lies above". */
  type Path = seq<Name>

  /** The path of `child` relative to `parent`, if it lies there. filepath.Rel
      of two raw paths starts with ".." exactly when they are not nested or the
      first remaining component itself starts with two dots. */
  function RawSubpath(parent: seq<string>, child: seq<string>): (r: Option<seq<string>>) {
    if parent <= child && !(parent < child && StartsWithDotDot(child[|parent|]))
    then Some(child[|parent|..])
    else None
  }

  /** The same test on plain paths. */
  function GetSubpath(parent: Path, child: Path): (r: Option<Path>)
    ensures r.Some? <==> parent <= child
    ensures r.Some? ==> parent + r.value == child
  {
    if parent <= child && !(parent < child && StartsWithDotDot(child[|parent|]))
    then Some(child[|parent|..])
    else None
  }

  /** Why the components have to be plain: a file called "..data" below a
      directory is not recognised as lying below it. */
  lemma DotDotNamesLookUnnested()
    ensures ["p"] <= ["p", "..data"]
    ensures RawSubpath(["p"], ["p", "..data"]) == None
  {
    assert ["p", "..data"][1] == "..data";
    assert StartsWithDotDot("..data");
  }

  lemma PrefixAppend(path: Path, rel: Path, x: Path)
    ensures path + rel <= x <==> path <= x && rel <= x[|path|..]
  {
    if path + rel <= x {
      assert x[..|path|] == (path + rel)[..|path|] == path;
      assert x[|path|..][..|rel|] == x[..|path + rel|][|path|..] == (path + rel)[|path|..] == rel;
    }
    if path <= x && rel <= x[|path|..] {
      assert path + rel == x[..|path|] + x[|path|..][..|rel|];
      assert path + rel == x[..|path + rel|];
    }
  }

  lemma PrefixTransitive(a: Path, b: Path, c: Path)
    requires a <= b <= c
    ensures a <= c
  {
    assert a == b[..|a|] == c[..|b|][..|a|] == c[..|a|];
  }

  /** Two paths above the same path are nested in one another. */
  lemma PrefixesAreNested(a: Path, b: Path, x: Path)
    requires a <= x && b <= x
    ensures if |a| <= |b| then a <= b else b < a
  {
    assert a == x[..|a|] && b == x[..|b|];
    if |a| <= |b| {
      assert x[..|b|][..|a|] == x[..|a|];
    } else {
      assert x[..|a|][..|b|] == x[..|b|];
    }
  }
}
