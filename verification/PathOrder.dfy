/** The order in which `reorder-libs.py` sorts the lines of a section. */
module PathOrder {
  import opened Lexicographic

  /** A Python string is a sequence of code points. */
  type CodePoint = x: nat | x < 0x11_0000
  type Str = seq<CodePoint>

  const SLASH: CodePoint := 0x2F
  const HYPHEN: CodePoint := 0x2D

  function RemovePrefix(s: Str, prefix: Str): Str {
    if prefix <= s then s[|prefix|..] else s
  }

  function Unhyphened(line: Str): Str {
    RemovePrefix(line, [HYPHEN])
  }

  /** The length of `path` up to and including its last slash; 0 when it has none. */
  function DirLength(path: Str): (n: nat)
    ensures n <= |path|
    ensures n > 0 ==> path[n - 1] == SLASH
    ensures SLASH !in path[n..]
    ensures n > 0 <==> SLASH in path
  {
    if path == [] then 0
    else
      var last := |path| - 1;
      if path[last] == SLASH then |path| else
        assert path == path[..last] + [path[last]];
        var n := DirLength(path[..last]);
        assert path[n..] == path[..last][n..] + [path[last]];
        n
  }

  /** `path.rsplit("/", 1)[0] + "/"`: a path without a slash counts as a directory of that name. */
  function Dir(path: Str): Str {
    if SLASH in path then path[..DirLength(path)] else path + [SLASH]
  }

  function ComparePaths(a: Str, b: Str): int {
    if SLASH !in a && SLASH !in b then Compare(a, b)
    else if Dir(a) == Dir(b) then Compare(a, b)
    else if Dir(b) <= Dir(a) then -1
    else if Dir(a) <= Dir(b) then 1
    else Compare(a, b)
  }

  function CompareLines(a: Str, b: Str): int {
    if a == [] || b == [] then Compare(a, b) else ComparePaths(Unhyphened(a), Unhyphened(b))
  }

  // ---------- The tree order ----------

  /** A mark above every code point, between a directory and the name of a file in it. */
  const FILE_MARK: nat := 0x11_0000

  /** In the code-point order of these keys, the subdirectories of a directory come before its files, and both come
      in code-point order. A path without a slash comes where the first file of the directory of that name would. */
  function TreeKey(path: Str): seq<nat> {
    if SLASH in path then Dir(path) + [FILE_MARK, 0] + path[DirLength(path)..]
    else Dir(path) + [FILE_MARK]
  }

  function TreeCompare(a: Str, b: Str): int {
    Compare(TreeKey(a), TreeKey(b))
  }

  /** A path without a slash against an extension of it by a character below the slash, such as "p" and "p-". */
  predicate Inverted(p: Str, z: Str) {
    SLASH !in p && p < z && z[|p|] < SLASH
  }

  lemma InvertedOrders(p: Str, z: Str)
    requires Inverted(p, z)
    ensures ComparePaths(p, z) == -1 && TreeCompare(p, z) == 1
    ensures p + [z[|p|]] <= TreeKey(z)
  {
    CompareProperPrefix(p, z);
    KeyFollowsPath(z, |p|);
    CompareAtDifference(TreeKey(p), TreeKey(z), |p|);
    if SLASH in z {
      DirStartsWith(z, p);
      assert Dir(p)[|p|] != Dir(z)[|p|];
    }
  }

  /** A prefix without a slash is a prefix of the directory, too, when the path has one. */
  lemma DirStartsWith(path: Str, p: Str)
    requires SLASH in path && SLASH !in p && p <= path
    ensures |p| < |Dir(path)| && p < Dir(path) && Dir(path)[|p|] == path[|p|]
  {
    assert forall i :: 0 <= i < |p| ==> path[i] == p[i] != SLASH;
  }

  /** A path and its key agree up to a character below the slash. */
  lemma KeyFollowsPath(path: Str, k: nat)
    requires k < |path| && path[k] < SLASH && SLASH !in path[..k]
    ensures k < |TreeKey(path)| && TreeKey(path)[..k + 1] == path[..k + 1]
  {
    assert forall i :: 0 <= i < k ==> path[i] == path[..k][i] != SLASH;
  }

  lemma SplitAtDir(path: Str)
    requires SLASH in path
    ensures path == Dir(path) + path[DirLength(path)..]
    ensures |Dir(path)| > 0 && Dir(path)[|Dir(path)| - 1] == SLASH
  {
  }

  lemma FilesInSameDir(a: Str, b: Str)
    requires Dir(a) == Dir(b) && SLASH in a && SLASH in b
    ensures Compare(a, b) == TreeCompare(a, b)
  {
    var x, y := a[DirLength(a)..], b[DirLength(b)..];
    var mark: seq<nat> := Dir(a) + [FILE_MARK, 0];
    SplitAtDir(a);
    SplitAtDir(b);
    ComparePrefix(Dir(a), x, y);
    ComparePrefix(mark, x, y);
    assert TreeKey(a) == mark + x && TreeKey(b) == mark + y;
  }

  lemma SameDir(a: Str, b: Str)
    requires Dir(a) == Dir(b)
    ensures Compare(a, b) == TreeCompare(a, b)
  {
    CompareAntisymmetric(a, b);
    CompareAntisymmetric(TreeKey(a), TreeKey(b));
    if SLASH in a && SLASH in b {
      FilesInSameDir(a, b);
    } else if SLASH in b {
      FirstInDir(a, b);
    } else if SLASH in a {
      FirstInDir(b, a);
    } else {
      assert a == Dir(a)[..|Dir(a)| - 1] == b;
    }
  }

  lemma FirstInDir(p: Str, b: Str)
    requires Dir(p) == Dir(b) && SLASH !in p && SLASH in b
    ensures Compare(p, b) == TreeCompare(p, b) == -1
  {
    SplitAtDir(b);
    assert p < p + [SLASH] <= b;
    CompareProperPrefix(p, b);
    assert TreeKey(p) < TreeKey(b);
    CompareProperPrefix(TreeKey(p), TreeKey(b));
  }

  /** A path and its directory agree before the end of either. */
  lemma DirAgrees(path: Str, k: nat)
    requires k < |Dir(path)|
    ensures k <= |path| && path[..k] == Dir(path)[..k]
    ensures k < |path| ==> path[k] == Dir(path)[k]
    ensures k == |path| ==> SLASH !in path && Dir(path)[k] == SLASH
  {
  }

  lemma KeyAgrees(path: Str, k: nat)
    requires k < |Dir(path)|
    ensures k < |TreeKey(path)| && TreeKey(path)[..k] == Dir(path)[..k] && TreeKey(path)[k] == Dir(path)[k]
  {
  }

  lemma NestedDirHasSlash(a: Str, b: Str)
    requires Dir(b) < Dir(a)
    ensures SLASH in a
  {
    var k := |Dir(b)| - 1;
    assert Dir(a)[k] == Dir(b)[k] == SLASH;
    DirAgrees(a, k);
    assert a[k] == SLASH;
  }

  lemma NestedDir(a: Str, b: Str)
    requires Dir(b) < Dir(a)
    ensures TreeCompare(a, b) == -1 && SLASH in a
  {
    var k := |Dir(b)|;
    NestedDirHasSlash(a, b);
    KeyAgrees(a, k);
    assert TreeKey(b)[..k] == Dir(b) && TreeKey(b)[k] == FILE_MARK;
    CompareAtDifference(TreeKey(a), TreeKey(b), k);
  }

  lemma KeysDiffer(a: Str, b: Str, k: nat)
    requires k < |Dir(a)| && k < |Dir(b)| && Dir(a)[..k] == Dir(b)[..k] && Dir(a)[k] != Dir(b)[k]
    ensures TreeCompare(a, b) == if Dir(a)[k] < Dir(b)[k] then -1 else 1
  {
    KeyAgrees(a, k);
    KeyAgrees(b, k);
    CompareAtDifference(TreeKey(a), TreeKey(b), k);
  }

  function FirstDifference(x: Str, y: Str): (k: nat)
    requires !(x <= y) && !(y <= x)
    ensures k < |x| && k < |y| && x[..k] == y[..k] && x[k] != y[k]
  {
    if x[0] != y[0] then 0
    else
      assert x == [x[0]] + x[1..] && y == [y[0]] + y[1..];
      1 + FirstDifference(x[1..], y[1..])
  }

  lemma UnrelatedDirs(a: Str, b: Str)
    requires !(Dir(a) <= Dir(b)) && !(Dir(b) <= Dir(a))
    requires !Inverted(a, b) && !Inverted(b, a)
    ensures Compare(a, b) == TreeCompare(a, b)
  {
    var k := FirstDifference(Dir(a), Dir(b));
    KeysDiffer(a, b, k);
    DirAgrees(a, k);
    DirAgrees(b, k);
    DiffersBefore(a, b, k);
  }

  /** Where two directories first differ, the paths compare the same way. */
  lemma DiffersBefore(a: Str, b: Str, k: nat)
    requires k < |Dir(a)| && k < |Dir(b)| && Dir(a)[..k] == Dir(b)[..k] && Dir(a)[k] != Dir(b)[k]
    requires k <= |a| && a[..k] == Dir(a)[..k] && (k < |a| ==> a[k] == Dir(a)[k])
    requires k == |a| ==> SLASH !in a && Dir(a)[k] == SLASH
    requires k <= |b| && b[..k] == Dir(b)[..k] && (k < |b| ==> b[k] == Dir(b)[k])
    requires k == |b| ==> SLASH !in b && Dir(b)[k] == SLASH
    requires !Inverted(a, b) && !Inverted(b, a)
    ensures Compare(a, b) == if Dir(a)[k] < Dir(b)[k] then -1 else 1
  {
    if k < |a| && k < |b| {
      CompareAtDifference(a, b, k);
    } else if k < |b| {
      assert a == b[..k];
      CompareProperPrefix(a, b);
    } else {
      assert b == a[..k];
      CompareProperPrefix(b, a);
      CompareAntisymmetric(a, b);
    }
  }

  /** The hand-written comparator is the tree order, except on inverted pairs, where it is the opposite. */
  lemma ComparatorIsTreeOrder(a: Str, b: Str)
    ensures ComparePaths(a, b) == if Inverted(a, b) || Inverted(b, a) then -TreeCompare(a, b) else TreeCompare(a, b)
  {
    PathsAntisymmetric(a, b);
    CompareAntisymmetric(TreeKey(a), TreeKey(b));
    if Inverted(a, b) {
      InvertedOrders(a, b);
    } else if Inverted(b, a) {
      InvertedOrders(b, a);
    } else if Dir(a) == Dir(b) {
      SameDir(a, b);
    } else if Dir(b) <= Dir(a) {
      NestedDir(a, b);
    } else if Dir(a) <= Dir(b) {
      NestedDir(b, a);
    } else {
      UnrelatedDirs(a, b);
    }
  }

  lemma PathsAntisymmetric(a: Str, b: Str)
    ensures ComparePaths(a, b) == -ComparePaths(b, a)
    ensures ComparePaths(a, b) == 0 <==> a == b
  {
    CompareAntisymmetric(a, b);
  }
}
