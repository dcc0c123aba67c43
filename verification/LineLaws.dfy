/** What the comparator of `reorder-libs.py` does, in terms of the lines as they are written: directories, names in
    them, and leading hyphens are put together rather than taken apart. */
module LineLaws {
  import opened Lexicographic
  import opened PathOrder
  import opened LineOrder
  import opened LineSort

  // ---------- Leading hyphens ----------

  /** A line as it is written in the file, with or without the hyphen of a build target. */
  function Written(hyphen: bool, path: Str): Str {
    if hyphen then [HYPHEN] + path else path
  }

  predicate StartsWithHyphen(s: Str) {
    s != [] && s[0] == HYPHEN
  }

  /** A path that is told apart from its hyphened form: it is behind a hyphen, or it is not empty and has none. */
  predicate IsPlain(hyphen: bool, path: Str) {
    hyphen || (path != [] && !StartsWithHyphen(path))
  }

  /** One leading hyphen does not matter, on either side. */
  lemma HyphenIsIgnored(hyphenP: bool, p: Str, hyphenQ: bool, q: Str)
    requires IsPlain(hyphenP, p) && IsPlain(hyphenQ, q)
    ensures CompareLines(Written(hyphenP, p), Written(hyphenQ, q)) == ComparePaths(p, q)
  {
    WrittenPath(hyphenP, p);
    WrittenPath(hyphenQ, q);
  }

  lemma WrittenPath(hyphen: bool, path: Str)
    requires IsPlain(hyphen, path)
    ensures Written(hyphen, path) != [] && Unhyphened(Written(hyphen, path)) == path
  {
    if hyphen {
      assert ([HYPHEN] + path)[1..] == path;
    }
  }

  /** Two non-empty lines tie exactly when they are the same, or one is the other behind a hyphen. */
  lemma TiesAreHyphens(a: Str, b: Str)
    requires a != [] && b != []
    ensures CompareLines(a, b) == 0 <==>
      a == b || (a == [HYPHEN] + b && !StartsWithHyphen(b)) || (b == [HYPHEN] + a && !StartsWithHyphen(a))
  {
    LinesAreTotal(a, b);
    UnhyphenedParts(a);
    UnhyphenedParts(b);
  }

  lemma UnhyphenedParts(line: Str)
    ensures StartsWithHyphen(line) ==> line == [HYPHEN] + Unhyphened(line)
    ensures !StartsWithHyphen(line) ==> line == Unhyphened(line)
  {
  }

  /** The lines that are one of two given ones, in their order. */
  function Either(lines: seq<Str>, a: Str, b: Str): seq<Str> {
    if lines == [] then []
    else if lines[0] == a || lines[0] == b then [lines[0]] + Either(lines[1..], a, b)
    else Either(lines[1..], a, b)
  }

  lemma {:induction false} TiesAreEither(lines: seq<Str>, path: Str)
    requires IsPlain(false, path)
    ensures Ties(lines, path) == Either(lines, path, [HYPHEN] + path)
  {
    if lines == [] {
    } else {
      UnhyphenedParts(lines[0]);
      WrittenPath(true, path);
      TiesAreEither(lines[1..], path);
    }
  }

  /** A line and its hyphened form keep their order, however often they occur. */
  lemma HyphensKeepOrder(lines: seq<Str>, path: Str)
    requires [] !in lines && IsPlain(false, path)
    ensures Either(SortLines(lines), path, [HYPHEN] + path) == Either(lines, path, [HYPHEN] + path)
  {
    SortIsStable(lines, path);
    TiesAreEither(lines, path);
    TiesAreEither(SortLines(lines), path);
  }

  // ---------- Directories ----------

  /** The file `name` in the directory `dir`. */
  function In(dir: Str, name: Str): Str {
    dir + [SLASH] + name
  }

  lemma LastSlash(path: Str, k: nat)
    requires 0 < k <= |path| && path[k - 1] == SLASH && SLASH !in path[k..]
    ensures DirLength(path) == k
  {
    var n := DirLength(path);
    assert forall i :: n <= i < |path| ==> path[i] == path[n..][i - n] != SLASH;
    assert forall i :: k <= i < |path| ==> path[i] == path[k..][i - k] != SLASH;
    assert n > 0 && path[n - 1] == SLASH;
  }

  lemma DirOfFile(dir: Str, name: Str)
    requires SLASH !in name
    ensures SLASH in In(dir, name) && Dir(In(dir, name)) == dir + [SLASH]
  {
    var path, k := In(dir, name), |dir| + 1;
    assert path[k - 1] == SLASH && path[k..] == name && path[..k] == dir + [SLASH];
    LastSlash(path, k);
  }

  /** The files of one directory come in the order of their names. */
  lemma FilesByName(dir: Str, a: Str, b: Str)
    requires SLASH !in a && SLASH !in b
    ensures ComparePaths(In(dir, a), In(dir, b)) == Compare(a, b)
  {
    DirOfFile(dir, a);
    DirOfFile(dir, b);
    ComparePrefix(dir + [SLASH], a, b);
  }

  /** Names without a directory come in their own order. */
  lemma NamesByName(a: Str, b: Str)
    requires SLASH !in a && SLASH !in b
    ensures ComparePaths(a, b) == Compare(a, b)
  {
  }

  /** What lies in a subdirectory, however deep, comes before the files of the directory. */
  lemma SubdirectoriesFirst(dir: Str, sub: Str, a: Str, b: Str)
    requires SLASH !in a && SLASH !in b
    ensures ComparePaths(In(In(dir, sub), a), In(dir, b)) == -1
    ensures ComparePaths(In(dir, b), In(In(dir, sub), a)) == 1
  {
    DirOfFile(In(dir, sub), a);
    DirOfFile(dir, b);
    assert dir + [SLASH] < In(dir, sub) + [SLASH];
  }

  /** A name without a directory comes before the files of the directory of that name, and after its subdirectories. */
  lemma NameAgainstItsDirectory(p: Str, sub: Str, a: Str)
    requires SLASH !in p && SLASH !in a
    ensures ComparePaths(p, In(p, a)) == -1 && ComparePaths(In(In(p, sub), a), p) == -1
  {
    DirOfFile(p, a);
    DirOfFile(In(p, sub), a);
    CompareProperPrefix(p, In(p, a));
    assert p + [SLASH] < In(p, sub) + [SLASH];
  }

  /** Everything else is compared as a whole: files whose directories do not lie in one another. */
  lemma UnrelatedByString(dirA: Str, a: Str, dirB: Str, b: Str)
    requires SLASH !in a && SLASH !in b
    requires !(dirA + [SLASH] <= dirB + [SLASH]) && !(dirB + [SLASH] <= dirA + [SLASH])
    ensures ComparePaths(In(dirA, a), In(dirB, b)) == Compare(In(dirA, a), In(dirB, b))
  {
    DirOfFile(dirA, a);
    DirOfFile(dirB, b);
  }

  lemma UnrelatedName(p: Str, dir: Str, a: Str)
    requires SLASH !in p && SLASH !in a && !(p + [SLASH] <= dir + [SLASH])
    ensures ComparePaths(p, In(dir, a)) == Compare(p, In(dir, a))
  {
    DirOfFile(dir, a);
    assert forall i :: 0 <= i < |p| ==> (p + [SLASH])[i] == p[i] != SLASH;
    assert (dir + [SLASH])[|dir|] == SLASH;
  }

  // ---------- Examples ----------

  /** The lines "-b" and "a" compare as "b" and "a", and "a/z/c" comes before "a/b" although z comes after b. */
  lemma LineExamples()
    ensures CompareLines([0x2D, 0x62], [0x61]) == 1
    ensures CompareLines([0x61, 0x2F, 0x7A, 0x2F, 0x63], [0x61, 0x2F, 0x62]) == -1
  {
    var dir: Str, sub: Str, a: Str, b: Str := [0x61], [0x7A], [0x63], [0x62];
    HyphenIsIgnored(true, b, false, dir);
    assert Written(true, b) == [0x2D, 0x62] && Written(false, dir) == [0x61];
    NamesByName(b, dir);
    SubdirectoriesFirst(dir, sub, a, b);
    var deep, flat := In(In(dir, sub), a), In(dir, b);
    assert deep == [0x61, 0x2F, 0x7A, 0x2F, 0x63] && flat == [0x61, 0x2F, 0x62];
    HyphenIsIgnored(false, deep, false, flat);
  }
}
