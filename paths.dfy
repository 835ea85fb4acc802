/**
 * POSIX path arithmetic as Python's `os.path` performs it on '/'-separated
 * strings: `join`, `basename`, `dirname`, `splitext` and `relpath`.
 * The storage layer and the views build every artifact path with these.
 */
module Paths {

  /** A single path component: no separator anywhere. */
  predicate NoSlash(s: string) {
    forall i | 0 <= i < |s| :: s[i] != '/'
  }

  predicate IsAbs(p: string) {
    |p| > 0 && p[0] == '/'
  }

  /** `os.path.join(a, b)`: an absolute `b` replaces `a`; otherwise one separator is inserted when needed. */
  function Join(a: string, b: string): (r: string)
    ensures |b| <= |r| && r[|r| - |b|..] == b
    ensures !IsAbs(b) ==> |a| <= |r| && r[..|a|] == a
  {
    if IsAbs(b) then b
    else if a == [] || a[|a| - 1] == '/' then a + b
    else a + "/" + b
  }

  /** `str.rfind(c)`: the last index of `c` in `s`, or -1. */
  function LastIndex(s: string, c: char): (i: int)
    ensures -1 <= i < |s|
    ensures i >= 0 ==> s[i] == c
    ensures forall j | i < j < |s| :: s[j] != c
  {
    if s == [] then -1
    else if s[|s| - 1] == c then |s| - 1
    else LastIndex(s[..|s| - 1], c)
  }

  /** `os.path.basename(p)`: everything after the last separator. */
  function Basename(p: string): (r: string)
    ensures NoSlash(r)
    ensures |r| <= |p| && r == p[|p| - |r|..]
    ensures NoSlash(p) ==> r == p
  {
    p[LastIndex(p, '/') + 1..]
  }

  predicate AllSlashes(s: string) {
    forall i | 0 <= i < |s| :: s[i] == '/'
  }

  /** `str.rstrip('/')`. */
  function StripTrailingSlashes(s: string): (r: string)
    ensures |r| <= |s| && r == s[..|r|]
    ensures r == [] || r[|r| - 1] != '/'
    ensures AllSlashes(s[|r|..])
  {
    if s != [] && s[|s| - 1] == '/' then
      var r := StripTrailingSlashes(s[..|s| - 1]);
      assert forall i | 0 <= i < |s| - |r| :: s[|r|..][i] == if |r| + i < |s| - 1 then s[..|s| - 1][|r|..][i] else '/';
      r
    else s
  }

  /** `os.path.dirname(p)`: everything before the last separator, trailing separators removed unless only separators remain. */
  function Dirname(p: string): (r: string)
    ensures |r| <= |p| && r == p[..|r|]
  {
    var head := p[..LastIndex(p, '/') + 1];
    if head != [] && !AllSlashes(head) then StripTrailingSlashes(head) else head
  }

  predicate AllDots(s: string) {
    forall i | 0 <= i < |s| :: s[i] == '.'
  }

  /**
   * `os.path.splitext(p)`: the extension starts at the last dot after the last
   * separator, provided some character between that separator and the dot is
   * not a dot (so a leading-dot name such as ".bashrc" has no extension).
   */
  function SplitExt(p: string): (r: (string, string))
    ensures r.0 + r.1 == p
    ensures r.1 == [] || (r.1[0] == '.' && NoSlash(r.1))
  {
    var sep := LastIndex(p, '/');
    var dot := LastIndex(p, '.');
    if dot > sep && !AllDots(p[sep + 1..dot]) then
      ExtensionShape(p, sep, dot);
      (p[..dot], p[dot..])
    else (p, [])
  }

  /** The base name of a stored file name with its final extension removed. */
  function Stem(name: string): (r: string)
    ensures NoSlash(r)
  {
    SplitExt(Basename(name)).0
  }

  /** `p.split('/')`. */
  function Split(p: string): (r: seq<string>)
    ensures |r| >= 1
    ensures forall k | 0 <= k < |r| :: NoSlash(r[k])
  {
    if p == [] then [[]]
    else
      var rest := Split(p[1..]);
      if p[0] == '/' then [[]] + rest else [[p[0]] + rest[0]] + rest[1..]
  }

  /** The non-empty elements of `xs`, in order. */
  function NonEmpty(xs: seq<string>): (r: seq<string>)
    ensures |r| <= |xs|
    ensures forall k | 0 <= k < |r| :: r[k] != [] && r[k] in xs
  {
    if xs == [] then []
    else if xs[0] == [] then NonEmpty(xs[1..])
    else [xs[0]] + NonEmpty(xs[1..])
  }

  /** The components of a path: `[x for x in p.split('/') if x]`. */
  function Components(p: string): (r: seq<string>)
    ensures forall k | 0 <= k < |r| :: r[k] != [] && NoSlash(r[k])
  {
    NonEmpty(Split(p))
  }

  /** No component is "." or "..", so `abspath` only collapses separators. */
  predicate NoDotComponents(p: string) {
    forall k | 0 <= k < |Components(p)| :: Components(p)[k] != "." && Components(p)[k] != ".."
  }

  /** The length of the longest common prefix, `len(os.path.commonprefix([xs, ys]))`. */
  function CommonPrefixLength(xs: seq<string>, ys: seq<string>): (n: nat)
    ensures n <= |xs| && n <= |ys|
    ensures xs[..n] == ys[..n]
    ensures n < |xs| && n < |ys| ==> xs[n] != ys[n]
  {
    if xs == [] || ys == [] || xs[0] != ys[0] then 0
    else 1 + CommonPrefixLength(xs[1..], ys[1..])
  }

  function Repeat(x: string, n: nat): (r: seq<string>)
    ensures |r| == n
    ensures forall k | 0 <= k < n :: r[k] == x
  {
    if n == 0 then [] else [x] + Repeat(x, n - 1)
  }

  /** `os.path.join(*xs)` for a non-empty list, folded from the left. */
  function JoinAll(xs: seq<string>): (r: string)
    requires |xs| >= 1
  {
    if |xs| == 1 then xs[0] else Join(JoinAll(xs[..|xs| - 1]), xs[|xs| - 1])
  }

  /** The components separated by single separators. */
  function Intercalate(xs: seq<string>): string
    requires |xs| >= 1
  {
    if |xs| == 1 then xs[0] else Intercalate(xs[..|xs| - 1]) + "/" + xs[|xs| - 1]
  }

  /**
   * `os.path.relpath(path, start)` for absolute paths without "." or ".."
   * components (for those, `abspath` only removes empty components).
   */
  function RelPath(path: string, start: string): (r: string)
    requires IsAbs(path) && IsAbs(start)
    requires NoDotComponents(path) && NoDotComponents(start)
  {
    var s := Components(start);
    var p := Components(path);
    var i := CommonPrefixLength(s, p);
    var rel := Repeat("..", |s| - i) + p[i..];
    if rel == [] then "." else JoinAll(rel)
  }

  // ---------------------------------------------------------------------------
  // Lemmas

  /** An extension found after the last separator is a dot followed by no separator. */
  lemma ExtensionShape(p: string, sep: int, dot: int)
    requires sep == LastIndex(p, '/') && sep < dot < |p| && p[dot] == '.'
    ensures p[dot..][0] == '.' && NoSlash(p[dot..])
    ensures p[..dot] + p[dot..] == p
  {
    forall j | 0 <= j < |p| - dot ensures p[dot..][j] != '/' {
      assert p[dot..][j] == p[dot + j];
    }
  }

  lemma {:induction false} LastIndexAppend(u: string, v: string, c: char)
    ensures LastIndex(u + v, c) == if LastIndex(v, c) >= 0 then |u| + LastIndex(v, c) else LastIndex(u, c)
    decreases |v|
  {
    if v == [] {
      assert u + v == u;
    } else if v[|v| - 1] == c {
    } else {
      assert (u + v)[..|u + v| - 1] == u + v[..|v| - 1];
      LastIndexAppend(u, v[..|v| - 1], c);
    }
  }

  /** The base name only depends on what follows a separator. */
  lemma BasenameAfterSlash(u: string, v: string)
    requires u == [] || u[|u| - 1] == '/'
    ensures Basename(u + v) == Basename(v)
  {
    LastIndexAppend(u, v, '/');
    var j := LastIndex(v, '/');
    if j >= 0 {
      assert (u + v)[|u| + j + 1..] == v[j + 1..];
    } else if u != [] {
      assert LastIndex(u, '/') == |u| - 1;
      assert (u + v)[|u|..] == v;
    } else {
      assert u + v == v;
    }
  }

  /** Joining a directory in front of a name never changes its base name. */
  lemma BasenameOfJoin(a: string, b: string)
    ensures Basename(Join(a, b)) == Basename(b)
  {
    if IsAbs(b) {
    } else if a == [] || a[|a| - 1] == '/' {
      BasenameAfterSlash(a, b);
    } else {
      assert a + "/" + b == (a + "/") + b;
      BasenameAfterSlash(a + "/", b);
    }
  }

  lemma {:induction false} SplitAppend(a: string, b: string)
    ensures Split(a + "/" + b) == Split(a) + Split(b)
    decreases |a|
  {
    if a == [] {
      assert a + "/" + b == "/" + b;
      assert ("/" + b)[1..] == b;
    } else {
      assert (a + "/" + b)[1..] == a[1..] + "/" + b;
      SplitAppend(a[1..], b);
    }
  }

  lemma {:induction false} SplitNoSlash(a: string)
    requires NoSlash(a)
    ensures Split(a) == [a]
    decreases |a|
  {
    if a != [] {
      SplitNoSlash(a[1..]);
      assert [a[0]] + a[1..] == a;
    }
  }

  lemma {:induction false} NonEmptyAppend(xs: seq<string>, ys: seq<string>)
    ensures NonEmpty(xs + ys) == NonEmpty(xs) + NonEmpty(ys)
    decreases |xs|
  {
    if xs == [] {
      assert xs + ys == ys;
    } else {
      assert (xs + ys)[0] == xs[0];
      assert (xs + ys)[1..] == xs[1..] + ys;
      NonEmptyAppend(xs[1..], ys);
      if xs[0] == [] {
        assert NonEmpty(xs + ys) == NonEmpty(xs[1..] + ys);
      } else {
        assert NonEmpty(xs + ys) == [xs[0]] + NonEmpty(xs[1..] + ys);
      }
    }
  }

  lemma ComponentsAppend(a: string, b: string)
    ensures Components(a + "/" + b) == Components(a) + Components(b)
  {
    SplitAppend(a, b);
    NonEmptyAppend(Split(a), Split(b));
  }

  /** A relative name adds its own components after the directory's. */
  lemma ComponentsOfJoin(a: string, b: string)
    requires !IsAbs(b)
    ensures Components(Join(a, b)) == Components(a) + Components(b)
  {
    if a == [] {
      assert Components(a) == [];
    } else if a[|a| - 1] == '/' {
      var a' := a[..|a| - 1];
      assert a' + "/" + [] == a;
      ComponentsAppend(a', []);
      assert Components([]) == [];
      assert a + b == a' + "/" + b;
      ComponentsAppend(a', b);
    } else {
      ComponentsAppend(a, b);
    }
  }

  lemma ComponentsOfName(a: string)
    requires NoSlash(a) && a != []
    ensures Components(a) == [a]
  {
    SplitNoSlash(a);
  }

  lemma {:induction false} CommonPrefixOfExtension(xs: seq<string>, ys: seq<string>)
    ensures CommonPrefixLength(xs, xs + ys) == |xs|
    decreases |xs|
  {
    if xs != [] {
      assert (xs + ys)[1..] == xs[1..] + ys;
      CommonPrefixOfExtension(xs[1..], ys);
    }
  }

  predicate ProperComponents(xs: seq<string>) {
    forall k | 0 <= k < |xs| :: xs[k] != [] && NoSlash(xs[k])
  }

  lemma {:induction false} IntercalateShape(xs: seq<string>)
    requires |xs| >= 1 && ProperComponents(xs)
    ensures Intercalate(xs) != [] && Intercalate(xs)[0] != '/'
    ensures Intercalate(xs)[|Intercalate(xs)| - 1] != '/'
    decreases |xs|
  {
    if |xs| > 1 {
      IntercalateShape(xs[..|xs| - 1]);
    }
  }

  /** For proper components, Python's left fold of `join` just separates them by single slashes. */
  lemma {:induction false} JoinAllIsIntercalate(xs: seq<string>)
    requires |xs| >= 1 && ProperComponents(xs)
    ensures JoinAll(xs) == Intercalate(xs)
    decreases |xs|
  {
    if |xs| > 1 {
      JoinAllIsIntercalate(xs[..|xs| - 1]);
      IntercalateShape(xs[..|xs| - 1]);
    }
  }

  predicate NoDotNames(xs: seq<string>) {
    forall k | 0 <= k < |xs| :: xs[k] != "." && xs[k] != ".."
  }

  lemma NoDotComponentsOf(p: string, xs: seq<string>, ys: seq<string>)
    requires Components(p) == xs + ys
    requires NoDotNames(xs) && NoDotNames(ys)
    ensures NoDotComponents(p)
  {
    forall k | 0 <= k < |Components(p)|
      ensures Components(p)[k] != "." && Components(p)[k] != ".."
    {
      if k < |xs| { assert Components(p)[k] == xs[k]; } else { assert Components(p)[k] == ys[k - |xs|]; }
    }
  }

  lemma RelPathOfExtension(path: string, start: string, below: seq<string>)
    requires IsAbs(path) && IsAbs(start)
    requires NoDotComponents(path) && NoDotComponents(start)
    requires |below| >= 1 && ProperComponents(below)
    requires Components(path) == Components(start) + below
    ensures RelPath(path, start) == Intercalate(below)
  {
    var s := Components(start);
    CommonPrefixOfExtension(s, below);
    assert (s + below)[|s|..] == below;
    assert Repeat("..", 0) + below == below;
    JoinAllIsIntercalate(below);
  }

  /**
   * The path of a file below `root`, taken relative to `root`, is the joined
   * components below it: `relpath(root/rel, root) == rel` for a clean `rel`.
   */
  lemma RelPathBelow(root: string, below: seq<string>)
    requires IsAbs(root) && NoDotComponents(root)
    requires |below| >= 1 && ProperComponents(below) && NoDotNames(below)
    requires Components(Join(root, Intercalate(below))) == Components(root) + below
    ensures IsAbs(Join(root, Intercalate(below)))
    ensures NoDotComponents(Join(root, Intercalate(below)))
    ensures RelPath(Join(root, Intercalate(below)), root) == Intercalate(below)
  {
    var path := Join(root, Intercalate(below));
    IntercalateShape(below);
    assert path[..|root|] == root;
    assert NoDotNames(Components(root));
    NoDotComponentsOf(path, Components(root), below);
    RelPathOfExtension(path, root, below);
  }

  /** Splitting separated components gives them back. */
  lemma {:induction false} ComponentsOfIntercalate(xs: seq<string>)
    requires |xs| >= 1 && ProperComponents(xs)
    ensures Components(Intercalate(xs)) == xs
    decreases |xs|
  {
    if |xs| == 1 {
      ComponentsOfName(xs[0]);
    } else {
      var init := xs[..|xs| - 1];
      ComponentsAppend(Intercalate(init), xs[|xs| - 1]);
      ComponentsOfIntercalate(init);
      ComponentsOfName(xs[|xs| - 1]);
      assert init + [xs[|xs| - 1]] == xs;
    }
  }

  /** Joining a name onto a joined relative directory is one join of the longer relative path. */
  lemma JoinThenName(root: string, rel: string, name: string)
    requires rel != [] && rel[0] != '/' && rel[|rel| - 1] != '/'
    requires !IsAbs(name)
    ensures Join(Join(root, rel), name) == Join(root, rel + "/" + name)
  {
    var d := Join(root, rel);
    var tail := rel + "/" + name;
    assert d != [] && d[|d| - 1] == rel[|rel| - 1] by {
      assert d[|d| - |rel|..][|rel| - 1] == d[|d| - 1];
    }
    assert Join(d, name) == d + "/" + name;
    assert tail[0] == rel[0];
    if root == [] || root[|root| - 1] == '/' {
      assert d == root + rel;
      assert Join(root, tail) == root + tail;
      assert (root + rel) + "/" + name == root + tail;
    } else {
      assert d == root + "/" + rel;
      assert Join(root, tail) == root + "/" + tail;
      assert (root + "/" + rel) + "/" + name == root + "/" + tail;
    }
  }
}
