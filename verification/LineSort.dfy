/** The stable sort that Python's `list.sort` promises, with the path comparator and with plain string order. */
module LineSort {
  import opened Lexicographic
  import opened PathOrder
  import opened LineOrder

  /** Puts a line before the first one that is not smaller. */
  function Insert(line: Str, sorted: seq<Str>): seq<Str> {
    if sorted == [] || CompareLines(line, sorted[0]) <= 0 then [line] + sorted
    else [sorted[0]] + Insert(line, sorted[1..])
  }

  function SortLines(lines: seq<Str>): seq<Str> {
    if lines == [] then [] else Insert(lines[0], SortLines(lines[1..]))
  }

  predicate Sorted(lines: seq<Str>) {
    forall i, j :: 0 <= i < j < |lines| ==> CompareLines(lines[i], lines[j]) <= 0
  }

  /** The lines that are equal to `key` for the comparator, in their order. */
  function Ties(lines: seq<Str>, key: Str): seq<Str> {
    if lines == [] then []
    else if Unhyphened(lines[0]) == key then [lines[0]] + Ties(lines[1..], key)
    else Ties(lines[1..], key)
  }

  lemma {:induction false} InsertKeepsLines(line: Str, sorted: seq<Str>)
    ensures multiset(Insert(line, sorted)) == multiset{line} + multiset(sorted)
    ensures |Insert(line, sorted)| == |sorted| + 1
  {
    if sorted == [] || CompareLines(line, sorted[0]) <= 0 {
    } else {
      InsertKeepsLines(line, sorted[1..]);
      assert sorted == [sorted[0]] + sorted[1..];
    }
  }

  lemma {:induction false} SortKeepsLines(lines: seq<Str>)
    ensures multiset(SortLines(lines)) == multiset(lines)
    ensures forall l :: l in SortLines(lines) <==> l in lines
  {
    if lines == [] {
    } else {
      SortKeepsLines(lines[1..]);
      InsertKeepsLines(lines[0], SortLines(lines[1..]));
      assert lines == [lines[0]] + lines[1..];
    }
    SameElements(SortLines(lines), lines);
  }

  lemma SameElements(a: seq<Str>, b: seq<Str>)
    requires multiset(a) == multiset(b)
    ensures forall l :: l in a <==> l in b
  {
    assert forall l :: l in a <==> l in multiset(a);
    assert forall l :: l in b <==> l in multiset(b);
  }

  lemma LeastComesFirst(line: Str, sorted: seq<Str>, all: seq<Str>)
    requires Transitive(all) && line in all && forall l :: l in sorted ==> l in all
    requires sorted != [] && Sorted(sorted) && CompareLines(line, sorted[0]) <= 0
    ensures Sorted([line] + sorted)
  {
    forall j | 0 <= j < |sorted|
      ensures CompareLines(line, sorted[j]) <= 0
    {
      assert sorted[0] in all && sorted[j] in all;
      assert j > 0 ==> CompareLines(sorted[0], sorted[j]) <= 0;
    }
  }

  lemma PrependSorted(head: Str, rest: seq<Str>)
    requires Sorted(rest) && forall l :: l in rest ==> CompareLines(head, l) <= 0
    ensures Sorted([head] + rest)
  {
  }

  lemma HeadStaysLeast(line: Str, sorted: seq<Str>)
    requires sorted != [] && Sorted(sorted) && line != [] && sorted[0] != [] && CompareLines(line, sorted[0]) > 0
    ensures forall l :: l in Insert(line, sorted[1..]) ==> CompareLines(sorted[0], l) <= 0
  {
    LinesAreTotal(line, sorted[0]);
    InsertKeepsLines(line, sorted[1..]);
    SameElements(Insert(line, sorted[1..]), [line] + sorted[1..]);
    forall l | l in Insert(line, sorted[1..])
      ensures CompareLines(sorted[0], l) <= 0
    {
      assert l in [line] + sorted[1..];
    }
  }

  lemma {:induction false} InsertSorts(line: Str, sorted: seq<Str>, all: seq<Str>)
    requires Transitive(all) && [] !in all && line in all && forall l :: l in sorted ==> l in all
    requires Sorted(sorted)
    ensures Sorted(Insert(line, sorted))
  {
    if sorted == [] {
    } else if CompareLines(line, sorted[0]) <= 0 {
      LeastComesFirst(line, sorted, all);
    } else {
      InsertSorts(line, sorted[1..], all);
      assert line != [] && sorted[0] in all;
      HeadStaysLeast(line, sorted);
      PrependSorted(sorted[0], Insert(line, sorted[1..]));
    }
  }

  /** On untangled lines the sort sorts. */
  lemma {:induction false} SortSorts(lines: seq<Str>)
    requires [] !in lines && Untangled(lines)
    ensures Sorted(SortLines(lines))
  {
    if lines == [] {
    } else {
      var rest := SortLines(lines[1..]);
      assert forall l :: l in lines[1..] ==> l in lines;
      SortSorts(lines[1..]);
      SortKeepsLines(lines[1..]);
      assert forall l :: l in rest ==> l in lines;
      PreorderIffUntangled(lines);
      InsertSorts(lines[0], rest, lines);
    }
  }

  lemma TiesOfCons(line: Str, rest: seq<Str>, key: Str)
    ensures Ties([line] + rest, key)
         == if Unhyphened(line) == key then [line] + Ties(rest, key) else Ties(rest, key)
  {
    assert ([line] + rest)[1..] == rest;
  }

  lemma {:induction false} InsertIsStable(line: Str, sorted: seq<Str>, key: Str)
    requires line != [] && [] !in sorted
    ensures Ties(Insert(line, sorted), key)
         == if Unhyphened(line) == key then [line] + Ties(sorted, key) else Ties(sorted, key)
  {
    if sorted == [] || CompareLines(line, sorted[0]) <= 0 {
      TiesOfCons(line, sorted, key);
    } else {
      InsertIsStable(line, sorted[1..], key);
      assert Unhyphened(line) != Unhyphened(sorted[0]) by {
        LinesAreTotal(line, sorted[0]);
      }
      TiesOfCons(sorted[0], Insert(line, sorted[1..]), key);
    }
  }

  /** Lines that differ only by a leading hyphen keep their order. */
  lemma {:induction false} SortIsStable(lines: seq<Str>, key: Str)
    requires [] !in lines
    ensures Ties(SortLines(lines), key) == Ties(lines, key)
  {
    if lines == [] {
    } else {
      assert forall l :: l in lines[1..] ==> l in lines;
      SortIsStable(lines[1..], key);
      SortKeepsLines(lines[1..]);
      InsertIsStable(lines[0], SortLines(lines[1..]), key);
    }
  }

  lemma {:induction false} TiesAreLines(lines: seq<Str>, key: Str)
    ensures forall l :: l in Ties(lines, key) <==> l in lines && Unhyphened(l) == key
  {
    if lines == [] {
    } else {
      TiesAreLines(lines[1..], key);
    }
  }

  lemma FirstIsLeast(a: seq<Str>, b: seq<Str>)
    requires a != [] && Sorted(b)
    requires forall key :: Ties(a, key) == Ties(b, key)
    requires [] !in a && [] !in b
    ensures b != [] && CompareLines(b[0], a[0]) <= 0
  {
    var key := Unhyphened(a[0]);
    TiesAreLines(a, key);
    TiesAreLines(b, key);
    assert a[0] in Ties(a, key) && Ties(a, key) == Ties(b, key);
    assert a[0] in b;
    LinesAreTotal(a[0], a[0]);
  }

  lemma TiesOfTail(lines: seq<Str>, key: Str)
    requires lines != []
    ensures Ties(lines[1..], key) == if Unhyphened(lines[0]) == key then Ties(lines, key)[1..] else Ties(lines, key)
  {
  }

  lemma SameHeads(a: seq<Str>, b: seq<Str>)
    requires [] !in a && [] !in b && Sorted(a) && Sorted(b) && (a != [] || b != [])
    requires forall key :: Ties(a, key) == Ties(b, key)
    ensures a != [] && b != [] && a[0] == b[0]
  {
    if a != [] {
      FirstIsLeast(a, b);
    }
    FirstIsLeast(b, a);
    FirstIsLeast(a, b);
    assert Unhyphened(a[0]) == Unhyphened(b[0]) by {
      LinesAreTotal(a[0], b[0]);
    }
    var key := Unhyphened(a[0]);
    assert Ties(a, key)[0] == a[0] && Ties(b, key)[0] == b[0];
  }

  lemma TailsTie(a: seq<Str>, b: seq<Str>, key: Str)
    requires a != [] && b != [] && a[0] == b[0] && Ties(a, key) == Ties(b, key)
    ensures Ties(a[1..], key) == Ties(b[1..], key)
  {
    TiesOfTail(a, key);
    TiesOfTail(b, key);
  }

  /** There is only one sorted and stable arrangement, so whatever algorithm is behind `list.sort`, this is its
      result. */
  lemma {:induction false} StableSortIsUnique(a: seq<Str>, b: seq<Str>)
    requires [] !in a && [] !in b && Sorted(a) && Sorted(b)
    requires forall key :: Ties(a, key) == Ties(b, key)
    ensures a == b
  {
    if a == [] && b == [] {
    } else {
      SameHeads(a, b);
      forall key
        ensures Ties(a[1..], key) == Ties(b[1..], key)
      {
        TailsTie(a, b, key);
      }
      assert forall l :: l in a[1..] ==> l in a;
      assert forall l :: l in b[1..] ==> l in b;
      StableSortIsUnique(a[1..], b[1..]);
      assert a == [a[0]] + a[1..] && b == [b[0]] + b[1..];
    }
  }

  /** What `list.sort` promises whatever the comparator is, and what it promises where the comparator is an order: on
      tangled lines it keeps the lines and may arrange them in any way. */
  ghost predicate IsListSort(lines: seq<Str>, result: seq<Str>) {
    && multiset(result) == multiset(lines)
    && (Untangled(lines) ==> Sorted(result) && forall key :: Ties(result, key) == Ties(lines, key))
  }

  lemma SortIsListSort(lines: seq<Str>)
    requires [] !in lines
    ensures IsListSort(lines, SortLines(lines))
  {
    SortKeepsLines(lines);
    if Untangled(lines) {
      SortSorts(lines);
      forall key
        ensures Ties(SortLines(lines), key) == Ties(lines, key)
      {
        SortIsStable(lines, key);
      }
    }
  }

  /** On untangled lines `list.sort` has no choice. */
  lemma ListSortIsUnique(lines: seq<Str>, result: seq<Str>)
    requires [] !in lines && Untangled(lines) && IsListSort(lines, result)
    ensures result == SortLines(lines)
  {
    SortIsListSort(lines);
    SameElements(result, lines);
    SameElements(SortLines(lines), lines);
    StableSortIsUnique(result, SortLines(lines));
  }

  /** Sorting what is sorted changes nothing. */
  lemma {:induction false} SortedIsFixed(lines: seq<Str>)
    requires Sorted(lines)
    ensures SortLines(lines) == lines
  {
    if lines == [] {
    } else {
      SortedIsFixed(lines[1..]);
      assert lines == [lines[0]] + lines[1..];
    }
  }

  // ---------- Whole sections, in string order ----------

  function InsertString(s: Str, sorted: seq<Str>): seq<Str> {
    if sorted == [] || Compare(s, sorted[0]) <= 0 then [s] + sorted
    else [sorted[0]] + InsertString(s, sorted[1..])
  }

  function SortStrings(strings: seq<Str>): seq<Str> {
    if strings == [] then [] else InsertString(strings[0], SortStrings(strings[1..]))
  }

  predicate Ascending(strings: seq<Str>) {
    forall i, j :: 0 <= i < j < |strings| ==> Compare(strings[i], strings[j]) <= 0
  }

  lemma {:induction false} InsertStringKeeps(s: Str, sorted: seq<Str>)
    ensures multiset(InsertString(s, sorted)) == multiset{s} + multiset(sorted)
  {
    if sorted == [] || Compare(s, sorted[0]) <= 0 {
    } else {
      InsertStringKeeps(s, sorted[1..]);
      assert sorted == [sorted[0]] + sorted[1..];
    }
  }

  lemma PrependAscending(head: Str, rest: seq<Str>)
    requires Ascending(rest) && forall s :: s in rest ==> Compare(head, s) <= 0
    ensures Ascending([head] + rest)
  {
  }

  lemma LeastStringFirst(s: Str, sorted: seq<Str>)
    requires sorted != [] && Ascending(sorted) && Compare(s, sorted[0]) <= 0
    ensures Ascending([s] + sorted)
  {
    forall j | 0 <= j < |sorted|
      ensures Compare(s, sorted[j]) <= 0
    {
      if j > 0 {
        CompareTransitive(s, sorted[0], sorted[j]);
      }
    }
  }

  lemma {:induction false} InsertStringSorts(s: Str, sorted: seq<Str>)
    requires Ascending(sorted)
    ensures Ascending(InsertString(s, sorted))
  {
    if sorted == [] {
    } else if Compare(s, sorted[0]) <= 0 {
      LeastStringFirst(s, sorted);
    } else {
      var rest := InsertString(s, sorted[1..]);
      InsertStringSorts(s, sorted[1..]);
      InsertStringKeeps(s, sorted[1..]);
      SameElements(rest, [s] + sorted[1..]);
      CompareAntisymmetric(s, sorted[0]);
      forall t | t in rest
        ensures Compare(sorted[0], t) <= 0
      {
        assert t in [s] + sorted[1..];
      }
      PrependAscending(sorted[0], rest);
    }
  }

  lemma {:induction false} SortStringsAscends(strings: seq<Str>)
    ensures Ascending(SortStrings(strings))
  {
    if strings == [] {
    } else {
      SortStringsAscends(strings[1..]);
      InsertStringSorts(strings[0], SortStrings(strings[1..]));
    }
  }

  lemma {:induction false} SortStringsKeeps(strings: seq<Str>)
    ensures multiset(SortStrings(strings)) == multiset(strings)
  {
    if strings == [] {
    } else {
      SortStringsKeeps(strings[1..]);
      InsertStringKeeps(strings[0], SortStrings(strings[1..]));
      assert strings == [strings[0]] + strings[1..];
    }
  }

  /** String sorting orders the strings and keeps every one of them. */
  lemma SortStringsSorts(strings: seq<Str>)
    ensures Ascending(SortStrings(strings)) && multiset(SortStrings(strings)) == multiset(strings)
    ensures |SortStrings(strings)| == |strings|
  {
    SortStringsAscends(strings);
    SortStringsKeeps(strings);
    assert |multiset(SortStrings(strings))| == |SortStrings(strings)|;
  }

  lemma {:induction false} AscendingIsFixed(strings: seq<Str>)
    requires Ascending(strings)
    ensures SortStrings(strings) == strings
  {
    if strings == [] {
    } else {
      AscendingIsFixed(strings[1..]);
      assert strings == [strings[0]] + strings[1..];
    }
  }
}
