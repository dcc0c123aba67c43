/** When the comparator of `reorder-libs.py` is an order at all. */
module LineOrder {
  import opened Lexicographic
  import opened PathOrder

  /** A path without a slash, an extension of it by a character below the slash, and a path in a subdirectory of the
      directory of its name: such as "p", "p-" and "p/q/x". */
  predicate Tangled(p: Str, z: Str, y: Str) {
    Inverted(p, z) && p + [SLASH] <= y && SLASH in y[|p| + 1..]
  }

  lemma TangledTree(p: Str, z: Str, y: Str)
    requires Tangled(p, z, y)
    ensures TreeCompare(z, y) < 0
  {
    var k := |p|;
    InvertedOrders(p, z);
    DirStartsBelow(p, y);
    KeyAgrees(y, k);
    assert TreeKey(z)[..k] == (p + [z[k]])[..k] == p && TreeKey(z)[k] == z[k];
    assert Dir(y)[..k] == (p + [SLASH])[..k] == p && Dir(y)[k] == SLASH;
    CompareAtDifference(TreeKey(z), TreeKey(y), k);
  }

  /** A tangled triple goes round in a circle. */
  lemma TangledIsCycle(p: Str, z: Str, y: Str)
    requires Tangled(p, z, y)
    ensures ComparePaths(p, z) < 0 && ComparePaths(z, y) < 0 && ComparePaths(y, p) < 0
  {
    InvertedOrders(p, z);
    DirStartsBelow(p, y);
    TangledTree(p, z, y);
    assert y[|p|] == SLASH && SLASH in y;
    assert !Inverted(z, y) && !Inverted(y, z);
    ComparatorIsTreeOrder(z, y);
    assert Dir(p) == p + [SLASH];
  }

  lemma DirStartsBelow(p: Str, y: Str)
    requires p + [SLASH] <= y && SLASH in y[|p| + 1..]
    ensures p + [SLASH] < Dir(y)
  {
    var n := |p| + 1;
    assert SLASH in y;
    var i :| 0 <= i < |y[n..]| && y[n..][i] == SLASH;
    assert y[n + i] == SLASH;
    assert DirLength(y) > n + i by {
      assert forall j :: DirLength(y) <= j < |y| ==> y[j] == y[DirLength(y)..][j - DirLength(y)];
    }
  }

  lemma InversionsChain(a: Str, b: Str, c: Str)
    requires Inverted(a, b) && (Inverted(c, a) || Inverted(b, c))
    ensures Inverted(c, a) ==> Inverted(c, b)
    ensures Inverted(b, c) ==> Inverted(a, c)
  {
  }

  /** A key that starts with `a` and continues below the slash comes from a path that does. */
  lemma KeyBelowSlash(a: Str, c: Str)
    requires SLASH !in a && a <= TreeKey(c) && |a| < |TreeKey(c)| && TreeKey(c)[|a|] < SLASH
    ensures Inverted(a, c)
  {
    var k := |a|;
    assert forall i :: 0 <= i < k ==> TreeKey(c)[i] == a[i];
    assert TreeKey(c)[|Dir(c)|] == FILE_MARK;
    assert forall i :: 0 <= i < k ==> a[i] != FILE_MARK;
    assert k < |Dir(c)|;
    DirAgrees(c, k);
    KeyAgrees(c, k);
    assert c[..k] == Dir(c)[..k] == TreeKey(c)[..k] == a;
  }

  lemma KeyBeforeMark(a: Str, c: Str)
    requires SLASH !in a && a + [SLASH] <= TreeKey(c) && TreeCompare(c, a) < 0
    ensures |a| + 1 < |Dir(c)|
  {
    var p, d := a + [SLASH], |Dir(c)|;
    assert TreeKey(c)[d] == FILE_MARK && d < |TreeKey(c)|;
    assert forall i :: 0 <= i < |p| ==> TreeKey(c)[i] == p[i] != FILE_MARK;
    CompareBelow(p, TreeKey(c), FILE_MARK);
  }

  lemma SlashBeyond(c: Str, n: nat)
    requires SLASH in c && n < |Dir(c)|
    ensures n <= |c| && SLASH in c[n..]
  {
    var d := DirLength(c);
    assert c[n..][d - 1 - n] == SLASH;
  }

  /** A key that comes before the key of `a`, and starts with `a` and a slash, comes from a path in a subdirectory. */
  lemma KeyInSubdirectory(a: Str, c: Str)
    requires SLASH !in a && a + [SLASH] <= TreeKey(c) && TreeCompare(c, a) < 0
    ensures a + [SLASH] <= c && SLASH in c[|a| + 1..]
  {
    var p := a + [SLASH];
    KeyBeforeMark(a, c);
    KeyAgrees(c, |p|);
    DirAgrees(c, |p|);
    assert c[..|p|] == p;
    assert c[|a|] == c[..|p|][|a|] == SLASH;
    SlashBeyond(c, |p|);
  }

  /** In the tree order, what lies between the two sides of an inverted pair starts with the shorter one, followed by
      a slash or something below it. */
  lemma BetweenInverted(a: Str, b: Str, c: Str)
    requires Inverted(a, b) && TreeCompare(b, c) < 0 && TreeCompare(c, a) < 0
    ensures a <= TreeKey(c) && |a| < |TreeKey(c)| && TreeKey(c)[|a|] <= SLASH
  {
    InvertedOrders(a, b);
    assert a <= a + [b[|a|]];
    assert TreeKey(a)[|a|] == SLASH;
    CompareBetween(a, TreeKey(b), TreeKey(c), TreeKey(a));
  }

  lemma ExtendPrefix(a: Str, key: seq<nat>)
    requires a <= key && |a| < |key| && key[|a|] == SLASH
    ensures a + [SLASH] <= key
  {
  }

  lemma CycleInTree(a: Str, b: Str, c: Str)
    requires Inverted(a, b) && !Inverted(a, c) && TreeCompare(b, c) < 0 && TreeCompare(c, a) < 0
    ensures Tangled(a, b, c)
  {
    BetweenInverted(a, b, c);
    if TreeKey(c)[|a|] < SLASH {
      KeyBelowSlash(a, c);
      assert false;
    }
    ExtendPrefix(a, TreeKey(c));
    KeyInSubdirectory(a, c);
  }

  lemma CycleIsTangled(a: Str, b: Str, c: Str)
    requires Inverted(a, b) && ComparePaths(b, c) < 0 && ComparePaths(c, a) < 0
    ensures Tangled(a, b, c)
  {
    NoOtherInversion(a, b, c);
    ComparatorIsTreeOrder(b, c);
    ComparatorIsTreeOrder(c, a);
    CycleInTree(a, b, c);
  }

  lemma NoOtherInversion(a: Str, b: Str, c: Str)
    requires Inverted(a, b) && ComparePaths(b, c) < 0 && ComparePaths(c, a) < 0
    ensures !Inverted(b, c) && !Inverted(c, b) && !Inverted(c, a) && !Inverted(a, c)
  {
    PathsAntisymmetric(a, c);
    PathsAntisymmetric(b, c);
    if Inverted(c, b) {
      InvertedOrders(c, b);
    }
    if Inverted(a, c) {
      InvertedOrders(a, c);
    }
    if Inverted(c, a) || Inverted(b, c) {
      InversionsChain(a, b, c);
      if Inverted(c, b) {
        InvertedOrders(c, b);
      } else {
        InvertedOrders(a, c);
      }
    }
  }

  /** The comparator fails to be transitive on three paths only if they are tangled. */
  lemma IntransitiveIsTangled(a: Str, b: Str, c: Str)
    requires ComparePaths(a, b) <= 0 && ComparePaths(b, c) <= 0 && ComparePaths(a, c) > 0
    ensures Tangled(a, b, c) || Tangled(b, c, a) || Tangled(c, a, b)
  {
    PathsAntisymmetric(a, b);
    PathsAntisymmetric(b, c);
    PathsAntisymmetric(a, c);
    if Inverted(a, b) {
      CycleIsTangled(a, b, c);
    } else if Inverted(b, c) {
      CycleIsTangled(b, c, a);
    } else if Inverted(c, a) {
      CycleIsTangled(c, a, b);
    } else {
      TreeIsTransitive(a, b, c);
    }
  }

  lemma TreeIsTransitive(a: Str, b: Str, c: Str)
    requires !Inverted(a, b) && !Inverted(b, c) && !Inverted(c, a)
    requires ComparePaths(a, b) <= 0 && ComparePaths(b, c) <= 0
    ensures ComparePaths(a, c) <= 0
  {
    ForwardInTree(a, b);
    ForwardInTree(b, c);
    CompareTransitive(TreeKey(a), TreeKey(b), TreeKey(c));
    ComparatorIsTreeOrder(a, c);
    if Inverted(a, c) {
      InvertedOrders(a, c);
    }
  }

  lemma ForwardInTree(a: Str, b: Str)
    requires !Inverted(a, b) && ComparePaths(a, b) <= 0
    ensures TreeCompare(a, b) <= 0
  {
    ComparatorIsTreeOrder(a, b);
    if Inverted(b, a) {
      InvertedOrders(b, a);
      PathsAntisymmetric(a, b);
    }
  }

  // ---------- Lines ----------

  /** Any two lines compare, one way round or the other, and are equal only up to one leading hyphen. */
  lemma LinesAreTotal(a: Str, b: Str)
    requires a != [] && b != []
    ensures CompareLines(a, b) == -CompareLines(b, a)
    ensures CompareLines(a, b) == 0 <==> Unhyphened(a) == Unhyphened(b)
  {
    PathsAntisymmetric(Unhyphened(a), Unhyphened(b));
  }

  predicate Untangled(lines: seq<Str>) {
    forall p, z, y :: p in lines && z in lines && y in lines ==>
      !Tangled(Unhyphened(p), Unhyphened(z), Unhyphened(y))
  }

  predicate Transitive(lines: seq<Str>) {
    forall a, b, c | a in lines && b in lines && c in lines ::
      CompareLines(a, b) <= 0 && CompareLines(b, c) <= 0 ==> CompareLines(a, c) <= 0
  }

  lemma TangledLines(p: Str, z: Str, y: Str)
    requires p != [] && z != [] && y != [] && Tangled(Unhyphened(p), Unhyphened(z), Unhyphened(y))
    ensures CompareLines(p, z) <= 0 && CompareLines(z, y) <= 0 && CompareLines(p, y) > 0
  {
    TangledIsCycle(Unhyphened(p), Unhyphened(z), Unhyphened(y));
    LinesAreTotal(y, p);
  }

  lemma TransitiveIsUntangled(lines: seq<Str>)
    requires [] !in lines && Transitive(lines)
    ensures Untangled(lines)
  {
    forall p, z, y | p in lines && z in lines && y in lines
      ensures !Tangled(Unhyphened(p), Unhyphened(z), Unhyphened(y))
    {
      if Tangled(Unhyphened(p), Unhyphened(z), Unhyphened(y)) {
        TangledLines(p, z, y);
        assert false;
      }
    }
  }

  lemma UntangledIsTransitive(lines: seq<Str>)
    requires [] !in lines && Untangled(lines)
    ensures Transitive(lines)
  {
    forall a, b, c | a in lines && b in lines && c in lines && CompareLines(a, b) <= 0 && CompareLines(b, c) <= 0
      ensures CompareLines(a, c) <= 0
    {
      if CompareLines(a, c) > 0 {
        IntransitiveIsTangled(Unhyphened(a), Unhyphened(b), Unhyphened(c));
        assert false;
      }
    }
  }

  /** On any non-empty lines the comparator is a total preorder exactly when no three of them are tangled. */
  lemma PreorderIffUntangled(lines: seq<Str>)
    requires [] !in lines
    ensures Transitive(lines) <==> Untangled(lines)
  {
    if Transitive(lines) {
      TransitiveIsUntangled(lines);
    }
    if Untangled(lines) {
      UntangledIsTransitive(lines);
    }
  }

  /** The three lines "p", "p-" and "p/q/x". */
  lemma CircularExample()
    ensures var p, z, y: Str := [0x70], [0x70, HYPHEN], [0x70, SLASH, 0x71, SLASH, 0x78];
      CompareLines(p, z) < 0 && CompareLines(z, y) < 0 && CompareLines(y, p) < 0
  {
    var p, z, y: Str := [0x70], [0x70, HYPHEN], [0x70, SLASH, 0x71, SLASH, 0x78];
    assert y[2..][1] == SLASH;
    assert Tangled(p, z, y);
    TangledIsCycle(p, z, y);
  }
}
