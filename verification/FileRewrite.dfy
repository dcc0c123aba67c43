/** What `reorder-libs.py` writes back for a file it has read. */
module FileRewrite {
  import opened Lexicographic
  import opened PathOrder
  import opened LineOrder
  import opened LineSort
  import opened TextFile

  /** One arrangement of the lines of every section of a text, such as `list.sort` may produce. */
  ghost predicate IsSorting(text: Str, orders: seq<seq<Str>>) {
    && |orders| == |Sections(text)|
    && forall i :: 0 <= i < |orders| ==> IsListSort(LinesOf(Sections(text)[i]), orders[i])
  }

  function JoinedSections(orders: seq<seq<Str>>): seq<Str> {
    seq(|orders|, i requires 0 <= i < |orders| => JoinLines(orders[i]))
  }

  function Arranged(sections: seq<Str>, sortSections: bool): seq<Str> {
    if sortSections then SortStrings(sections) else sections
  }

  function Emit(sections: seq<Str>): Str {
    Strip(JoinSections(sections)) + [NEWLINE]
  }

  /** What is written when the lines of the sections have been arranged in the given way. */
  function WrittenFor(orders: seq<seq<Str>>, sortSections: bool): Str {
    Emit(Arranged(JoinedSections(orders), sortSections))
  }

  /** The texts that the script may write back for a text. */
  ghost predicate Rewrites(text: Str, sortSections: bool, written: Str) {
    exists orders :: IsSorting(text, orders) && written == WrittenFor(orders, sortSections)
  }

  /** One arrangement that `list.sort` may produce; on orderly texts the only one. */
  function SortedLines(text: Str): seq<seq<Str>> {
    seq(|Sections(text)|, i requires 0 <= i < |Sections(text)| => SortLines(LinesOf(Sections(text)[i])))
  }

  function Rewrite(text: Str, sortSections: bool): Str {
    WrittenFor(SortedLines(text), sortSections)
  }

  /** Texts in which no section has three tangled lines: the comparator orders the lines of every section. */
  predicate Orderly(text: Str) {
    forall i :: 0 <= i < |Sections(text)| ==> Untangled(LinesOf(Sections(text)[i]))
  }

  lemma SortedLinesAreSorting(text: Str)
    ensures IsSorting(text, SortedLines(text))
  {
    forall i | 0 <= i < |Sections(text)|
      ensures IsListSort(LinesOf(Sections(text)[i]), SortedLines(text)[i])
    {
      LinesAreClean(Sections(text)[i]);
      SortIsListSort(LinesOf(Sections(text)[i]));
    }
  }

  /** The body of the script's loop over files, from the text read to the text written. `SortLines` stands in for
      `list.sort`: on a tangled section the script may write another of the texts that the contract allows. */
  method RewriteFile(text: Str, sortSections: bool) returns (written: Str)
    ensures Rewrites(text, sortSections, written)
  {
    var sections := Sections(text);
    var orderedSections: seq<Str> := [];
    for i := 0 to |sections|
      invariant orderedSections == JoinedSections(SortedLines(text)[..i])
    {
      var sectionList := LinesOf(sections[i]);
      sectionList := SortLines(sectionList);
      orderedSections := orderedSections + [JoinLines(sectionList)];
    }
    assert SortedLines(text)[..|sections|] == SortedLines(text);
    if sortSections {
      orderedSections := SortStrings(orderedSections);
    }
    written := Strip(JoinSections(orderedSections)) + [NEWLINE];
    SortedLinesAreSorting(text);
  }

  /** On an orderly text the script has no choice of what to write. */
  lemma OrderlyRewriteIsUnique(text: Str, sortSections: bool, written: Str)
    requires Orderly(text)
    ensures Rewrites(text, sortSections, written) <==> written == Rewrite(text, sortSections)
  {
    SortedLinesAreSorting(text);
    forall orders | IsSorting(text, orders)
      ensures orders == SortedLines(text)
    {
      OrderlySortingIsUnique(text, orders);
    }
  }

  lemma OrderlySortingIsUnique(text: Str, orders: seq<seq<Str>>)
    requires Orderly(text) && IsSorting(text, orders)
    ensures orders == SortedLines(text)
  {
    forall i | 0 <= i < |orders|
      ensures orders[i] == SortedLines(text)[i]
    {
      LinesAreClean(Sections(text)[i]);
      ListSortIsUnique(LinesOf(Sections(text)[i]), orders[i]);
    }
  }

  // ---------- Empty sections at the ends ----------

  function TrimLeft(sections: seq<Str>): (r: seq<Str>)
    requires sections != []
    ensures r != [] && (|r| > 1 ==> r[0] != [])
  {
    if |sections| > 1 && sections[0] == [] then TrimLeft(sections[1..]) else sections
  }

  function TrimRight(sections: seq<Str>): (r: seq<Str>)
    requires sections != []
    ensures r != [] && (|r| > 1 ==> r[|r| - 1] != [])
    ensures r <= sections
  {
    if |sections| > 1 && sections[|sections| - 1] == [] then TrimRight(sections[..|sections| - 1]) else sections
  }

  /** The sections without the empty ones at either end; one empty section when there is nothing else. */
  function Trim(sections: seq<Str>): seq<Str>
    requires sections != []
  {
    TrimRight(TrimLeft(sections))
  }

  /** `part` is what `all` has from index `from` on. */
  predicate SitsAt<T(==)>(part: seq<T>, all: seq<T>, from: nat) {
    && from + |part| <= |all|
    && forall i :: 0 <= i < |part| ==> part[i] == all[from + i]
  }

  /** How many empty sections there are at the start. */
  function Skipped(sections: seq<Str>): (n: nat)
    requires sections != []
    ensures n < |sections|
    ensures forall i :: 0 <= i < n ==> sections[i] == []
    ensures TrimLeft(sections) == sections[n..]
  {
    if |sections| > 1 && sections[0] == [] then 1 + Skipped(sections[1..]) else 0
  }

  lemma {:induction false} TrimRightDropsEmpty(sections: seq<Str>)
    requires sections != []
    ensures forall i :: |TrimRight(sections)| <= i < |sections| ==> sections[i] == []
  {
    var n := |sections| - 1;
    if |sections| <= 1 || sections[n] != [] {
    } else {
      TrimRightDropsEmpty(sections[..n]);
    }
  }

  /** What trimming leaves stands together in the sections, and all that it drops is empty. */
  lemma TrimDropsEmpty(sections: seq<Str>)
    requires sections != []
    ensures SitsAt(Trim(sections), sections, Skipped(sections))
    ensures forall i :: 0 <= i < |sections| && !(Skipped(sections) <= i < Skipped(sections) + |Trim(sections)|) ==>
      sections[i] == []
  {
    var n, left := Skipped(sections), TrimLeft(sections);
    TrimRightDropsEmpty(left);
    forall i | n + |Trim(sections)| <= i < |sections|
      ensures sections[i] == []
    {
      assert sections[i] == left[i - n];
    }
  }

  lemma TrimIsTrimmed(sections: seq<Str>)
    requires sections != []
    ensures var t := Trim(sections); t != [] && (|t| > 1 ==> t[0] != [] && t[|t| - 1] != [])
    ensures Trim(Trim(sections)) == Trim(sections)
  {
  }

  lemma {:induction false} StripIgnoresLeft(sections: seq<Str>)
    requires sections != []
    ensures Strip(JoinSections(sections)) == Strip(JoinSections(TrimLeft(sections)))
  {
    if |sections| <= 1 || sections[0] != [] {
    } else {
      StripIgnoresLeft(sections[1..]);
      StripAfterSpaces(BLANK_LINE, JoinSections(sections[1..]));
      assert [] + BLANK_LINE + JoinSections(sections[1..]) == BLANK_LINE + JoinSections(sections[1..]);
    }
  }

  lemma {:induction false} JoinLast(sections: seq<Str>)
    requires |sections| > 1
    ensures JoinSections(sections)
         == JoinSections(sections[..|sections| - 1]) + BLANK_LINE + sections[|sections| - 1]
  {
    var n := |sections| - 1;
    if n == 1 {
      assert JoinSections(sections[..1]) == sections[0];
      assert JoinSections(sections[1..]) == sections[1];
    } else {
      JoinLast(sections[1..]);
      assert sections[1..][..n - 1] == sections[..n][1..];
      assert sections[1..][n - 1] == sections[n];
      var middle := JoinSections(sections[..n][1..]);
      assert JoinSections(sections[..n]) == sections[0] + BLANK_LINE + middle;
    }
  }

  lemma JoinStarts(sections: seq<Str>)
    requires sections != [] && sections[0] != []
    ensures JoinSections(sections) != [] && JoinSections(sections)[0] == sections[0][0]
  {
  }

  lemma {:induction false} StripIgnoresRight(sections: seq<Str>)
    requires sections != [] && AllTidy(sections) && (|sections| > 1 ==> sections[0] != [])
    ensures Strip(JoinSections(sections)) == Strip(JoinSections(TrimRight(sections)))
  {
    var n := |sections| - 1;
    if |sections| <= 1 || sections[n] != [] {
    } else {
      StripIgnoresRight(sections[..n]);
      JoinLast(sections);
      TidyFacts(sections[0]);
      JoinStarts(sections[..n]);
      StripBeforeSpaces(JoinSections(sections[..n]), BLANK_LINE);
      assert JoinSections(sections[..n]) + BLANK_LINE + [] == JoinSections(sections[..n]) + BLANK_LINE;
    }
  }

  lemma StripKeepsTrimmed(sections: seq<Str>)
    requires sections != [] && AllTidy(sections)
    requires |sections| > 1 ==> sections[0] != [] && sections[|sections| - 1] != []
    ensures Strip(JoinSections(sections)) == JoinSections(sections)
  {
    var n := |sections| - 1;
    TidyFacts(sections[0]);
    TidyFacts(sections[n]);
    if n > 0 {
      JoinLast(sections);
      JoinStarts(sections);
    }
    StripFixed(JoinSections(sections));
  }

  lemma {:induction false} TrimLeftKeepsTidy(sections: seq<Str>)
    requires sections != [] && AllTidy(sections)
    ensures AllTidy(TrimLeft(sections))
  {
    if |sections| <= 1 || sections[0] != [] {
    } else {
      assert forall i :: 0 <= i < |sections| - 1 ==> sections[1..][i] == sections[i + 1];
      TrimLeftKeepsTidy(sections[1..]);
    }
  }

  lemma TrimRightKeepsTidy(sections: seq<Str>)
    requires sections != [] && AllTidy(sections)
    ensures AllTidy(TrimRight(sections))
  {
    var trimmed := TrimRight(sections);
    assert forall i :: 0 <= i < |trimmed| ==> trimmed[i] == sections[i];
  }

  lemma TrimRightKeepsFirst(sections: seq<Str>)
    requires sections != []
    ensures TrimRight(sections)[0] == sections[0]
  {
  }

  /** Stripping the joined sections leaves the trimmed sections, joined. */
  lemma StripIsTrim(left: seq<Str>)
    requires left != [] && AllTidy(left) && (|left| > 1 ==> left[0] != [])
    ensures Strip(JoinSections(left)) == JoinSections(TrimRight(left))
  {
    StripIgnoresRight(left);
    TrimRightKeepsTidy(left);
    TrimRightKeepsFirst(left);
    StripKeepsTrimmed(TrimRight(left));
  }

  lemma TrimKeepsTidy(sections: seq<Str>)
    requires sections != [] && AllTidy(sections)
    ensures AllTidy(Trim(sections))
  {
    TrimLeftKeepsTidy(sections);
    TrimRightKeepsTidy(TrimLeft(sections));
  }

  /** The stripped file is the trimmed sections, joined. */
  lemma EmitTrims(sections: seq<Str>)
    requires sections != [] && AllTidy(sections)
    ensures AllTidy(Trim(sections))
    ensures Emit(sections) == JoinSections(Trim(sections)) + [NEWLINE]
  {
    TrimKeepsTidy(sections);
    TrimLeftKeepsTidy(sections);
    StripIgnoresLeft(sections);
    StripIsTrim(TrimLeft(sections));
  }

  // ---------- What a section reads back as ----------

  lemma SortingIsClean(text: Str, orders: seq<seq<Str>>)
    requires IsSorting(text, orders)
    ensures forall i :: 0 <= i < |orders| ==> AllClean(orders[i])
  {
    forall i, j | 0 <= i < |orders| && 0 <= j < |orders[i]|
      ensures IsClean(orders[i][j])
    {
      var lines := LinesOf(Sections(text)[i]);
      LinesAreClean(Sections(text)[i]);
      SameElements(orders[i], lines);
      assert orders[i][j] in lines;
    }
  }

  lemma ArrangedHas(sections: seq<Str>, sortSections: bool)
    ensures |Arranged(sections, sortSections)| == |sections|
    ensures forall s :: s in Arranged(sections, sortSections) <==> s in sections
    ensures sortSections ==> Ascending(Arranged(sections, sortSections))
  {
    SortStringsSorts(sections);
    SameElements(SortStrings(sections), sections);
  }

  /** Every section is read back as it was arranged. */
  lemma JoinedReadsBack(text: Str, orders: seq<seq<Str>>)
    requires IsSorting(text, orders)
    ensures JoinedSections(orders) != [] && AllTidy(JoinedSections(orders))
    ensures LinesOfAll(JoinedSections(orders)) == orders
  {
    SortingIsClean(text, orders);
    forall i | 0 <= i < |orders|
      ensures IsTidy(JoinLines(orders[i])) && LinesOf(JoinLines(orders[i])) == orders[i]
    {
      TidyFromLines(orders[i]);
      LinesRoundTrip(orders[i]);
    }
  }

  lemma ArrangedIsTidy(text: Str, orders: seq<seq<Str>>, sortSections: bool)
    requires IsSorting(text, orders)
    ensures var sections := Arranged(JoinedSections(orders), sortSections); sections != [] && AllTidy(sections)
  {
    JoinedReadsBack(text, orders);
    ArrangedHas(JoinedSections(orders), sortSections);
    forall s | s in JoinedSections(orders)
      ensures IsTidy(s)
    {
      var i :| 0 <= i < |orders| && JoinedSections(orders)[i] == s;
    }
  }

  // ---------- Idempotence ----------

  /** A section that sorting leaves alone. */
  predicate IsSettled(section: Str) {
    IsTidy(section) && Sorted(LinesOf(section)) && Untangled(LinesOf(section))
  }

  predicate AllSettled(sections: seq<Str>) {
    forall i :: 0 <= i < |sections| ==> IsSettled(sections[i])
  }

  lemma SortedSectionIsSettled(text: Str, i: nat)
    requires Orderly(text) && i < |Sections(text)|
    ensures IsSettled(JoinLines(SortedLines(text)[i]))
  {
    var lines := LinesOf(Sections(text)[i]);
    SortedLinesAreSorting(text);
    JoinedReadsBack(text, SortedLines(text));
    assert LinesOfAll(JoinedSections(SortedLines(text)))[i] == SortLines(lines);
    assert IsTidy(JoinedSections(SortedLines(text))[i]);
    LinesAreClean(Sections(text)[i]);
    SortSorts(lines);
    SameElements(SortLines(lines), lines);
  }

  lemma ArrangedIsSettled(text: Str, sortSections: bool)
    requires Orderly(text)
    ensures AllSettled(Arranged(JoinedSections(SortedLines(text)), sortSections))
  {
    var joined := JoinedSections(SortedLines(text));
    var arranged := Arranged(joined, sortSections);
    ArrangedHas(joined, sortSections);
    forall j | 0 <= j < |arranged|
      ensures IsSettled(arranged[j])
    {
      assert arranged[j] in joined;
      var i :| 0 <= i < |joined| && joined[i] == arranged[j];
      SortedSectionIsSettled(text, i);
    }
  }

  lemma SettledIsTidy(sections: seq<Str>)
    requires AllSettled(sections)
    ensures AllTidy(sections)
  {
    assert forall i :: 0 <= i < |sections| ==> IsSettled(sections[i]);
  }

  lemma PartIsSettled(part: seq<Str>, all: seq<Str>, from: nat)
    requires SitsAt(part, all, from) && AllSettled(all)
    ensures AllSettled(part)
  {
  }

  lemma PartAscends(part: seq<Str>, all: seq<Str>, from: nat)
    requires SitsAt(part, all, from) && Ascending(all)
    ensures Ascending(part)
  {
    forall i, j | 0 <= i < j < |part|
      ensures Compare(part[i], part[j]) <= 0
    {
      assert Compare(all[from + i], all[from + j]) <= 0;
    }
  }

  lemma TrimKeepsSettled(sections: seq<Str>)
    requires sections != [] && AllSettled(sections)
    ensures AllSettled(Trim(sections)) && (Ascending(sections) ==> Ascending(Trim(sections)))
  {
    TrimDropsEmpty(sections);
    PartIsSettled(Trim(sections), sections, Skipped(sections));
    if Ascending(sections) {
      PartAscends(Trim(sections), sections, Skipped(sections));
    }
  }

  /** The sections of a rewritten orderly text: settled, in order when that was asked for, and trimmed. */
  function WrittenSections(text: Str, sortSections: bool): seq<Str> {
    ArrangedHas(JoinedSections(SortedLines(text)), sortSections);
    Trim(Arranged(JoinedSections(SortedLines(text)), sortSections))
  }

  lemma WrittenSectionsAreSettled(text: Str, sortSections: bool)
    requires Orderly(text)
    ensures var t := WrittenSections(text, sortSections);
      && t != [] && AllSettled(t) && AllTidy(t) && Trim(t) == t && (sortSections ==> Ascending(t))
      && Rewrite(text, sortSections) == JoinSections(t) + [NEWLINE]
  {
    var sections := Arranged(JoinedSections(SortedLines(text)), sortSections);
    ArrangedHas(JoinedSections(SortedLines(text)), sortSections);
    ArrangedIsSettled(text, sortSections);
    SettledIsTidy(sections);
    EmitTrims(sections);
    TrimIsTrimmed(sections);
    TrimKeepsSettled(sections);
  }

  lemma SortedAgain(text: Str, sections: seq<Str>)
    requires AllSettled(sections) && LinesOfAll(Sections(text)) == LinesOfAll(sections)
    ensures JoinedSections(SortedLines(text)) == sections && Orderly(text)
  {
    assert |Sections(text)| == |LinesOfAll(Sections(text))| == |sections|;
    forall i | 0 <= i < |sections|
      ensures JoinLines(SortedLines(text)[i]) == sections[i] && Untangled(LinesOf(Sections(text)[i]))
    {
      assert LinesOfAll(Sections(text))[i] == LinesOfAll(sections)[i];
      SortedIsFixed(LinesOf(sections[i]));
    }
  }

  lemma AscendingFixedIf(sections: seq<Str>, sortSections: bool)
    requires sortSections ==> Ascending(sections)
    ensures Arranged(sections, sortSections) == sections
  {
    if sortSections {
      AscendingIsFixed(sections);
    }
  }

  /** Settled sections that are arranged and trimmed are written back unchanged. */
  lemma SettledFileIsFixed(sections: seq<Str>, sortSections: bool)
    requires sections != [] && AllSettled(sections)
    requires Trim(sections) == sections && (sortSections ==> Ascending(sections))
    ensures var text := JoinSections(sections) + [NEWLINE]; Rewrite(text, sortSections) == text && Orderly(text)
  {
    SettledIsTidy(sections);
    SectionsRoundTrip(sections);
    SortedAgain(JoinSections(sections) + [NEWLINE], sections);
    AscendingFixedIf(sections, sortSections);
    EmitTrims(sections);
  }

  /** The rewrite is idempotent on orderly texts, with or without sorting the sections: whatever the script may write
      for what it may have written is that text again. */
  lemma RewriteIsIdempotent(text: Str, sortSections: bool, once: Str, twice: Str)
    requires Orderly(text) && Rewrites(text, sortSections, once)
    ensures Rewrites(once, sortSections, twice) <==> twice == once
  {
    OrderlyRewriteIsUnique(text, sortSections, once);
    WrittenSectionsAreSettled(text, sortSections);
    SettledFileIsFixed(WrittenSections(text, sortSections), sortSections);
    OrderlyRewriteIsUnique(once, sortSections, twice);
  }

  /** What is read back from a rewritten orderly text: sorted sections, themselves in order when that was asked for. */
  lemma RewriteIsSorted(text: Str, sortSections: bool, written: Str)
    requires Orderly(text) && Rewrites(text, sortSections, written)
    ensures var lines := LinesOfAll(Sections(written));
      && (forall i :: 0 <= i < |lines| ==> Sorted(lines[i]))
      && (sortSections ==>
            forall i, j :: 0 <= i < j < |lines| ==> Compare(JoinLines(lines[i]), JoinLines(lines[j])) <= 0)
  {
    var t := WrittenSections(text, sortSections);
    OrderlyRewriteIsUnique(text, sortSections, written);
    WrittenSectionsAreSettled(text, sortSections);
    SectionsRoundTrip(t);
    assert forall i :: 0 <= i < |t| ==> LinesOfAll(t)[i] == LinesOf(t[i]) && IsSettled(t[i]);
  }

  // ---------- Nothing is lost ----------

  lemma {:induction false} ConcatOfInserted(s: Str, sorted: seq<Str>)
    ensures multiset(Concat(LinesOfAll(InsertString(s, sorted))))
         == multiset(LinesOf(s)) + multiset(Concat(LinesOfAll(sorted)))
  {
    if sorted == [] || Compare(s, sorted[0]) <= 0 {
      ConcatOfCons(s, sorted);
    } else {
      ConcatOfInserted(s, sorted[1..]);
      ConcatOfCons(sorted[0], InsertString(s, sorted[1..]));
      ConcatOfCons(sorted[0], sorted[1..]);
      assert sorted == [sorted[0]] + sorted[1..];
    }
  }

  lemma ConcatOfCons(head: Str, tail: seq<Str>)
    ensures Concat(LinesOfAll([head] + tail)) == LinesOf(head) + Concat(LinesOfAll(tail))
  {
    LinesOfAllCons(head, tail);
    assert LinesOfAll([head] + tail)[1..] == LinesOfAll(tail);
  }

  lemma ConcatOfHead(sections: seq<Str>)
    requires sections != []
    ensures Concat(LinesOfAll(sections)) == LinesOf(sections[0]) + Concat(LinesOfAll(sections[1..]))
  {
    ConcatOfCons(sections[0], sections[1..]);
    assert sections == [sections[0]] + sections[1..];
  }

  lemma {:induction false} ConcatOfSortedStrings(sections: seq<Str>)
    ensures multiset(Concat(LinesOfAll(SortStrings(sections)))) == multiset(Concat(LinesOfAll(sections)))
  {
    if sections == [] {
    } else {
      ConcatOfSortedStrings(sections[1..]);
      ConcatOfInserted(sections[0], SortStrings(sections[1..]));
      ConcatOfHead(sections);
    }
  }

  lemma ConcatOfArranged(sections: seq<Str>, sortSections: bool)
    ensures multiset(Concat(LinesOfAll(Arranged(sections, sortSections)))) == multiset(Concat(LinesOfAll(sections)))
  {
    ConcatOfSortedStrings(sections);
  }

  lemma {:induction false} ConcatOfSame(a: seq<seq<Str>>, b: seq<seq<Str>>)
    requires |a| == |b| && forall i :: 0 <= i < |a| ==> multiset(a[i]) == multiset(b[i])
    ensures multiset(Concat(a)) == multiset(Concat(b))
  {
    if a == [] {
    } else {
      ConcatOfSame(a[1..], b[1..]);
    }
  }

  lemma ConcatAssociates(a: seq<Str>, b: seq<Str>, c: seq<Str>)
    ensures a + (b + c) == (a + b) + c
  {
  }

  lemma {:induction false} ConcatOfLast(sections: seq<Str>, last: Str)
    ensures Concat(LinesOfAll(sections + [last])) == Concat(LinesOfAll(sections)) + LinesOf(last)
  {
    if sections == [] {
      ConcatOfCons(last, []);
      assert sections + [last] == [last] + [];
    } else {
      ConcatOfLast(sections[1..], last);
      ConcatOfHead(sections);
      ConcatOfCons(sections[0], sections[1..] + [last]);
      assert sections + [last] == [sections[0]] + (sections[1..] + [last]);
      ConcatAssociates(LinesOf(sections[0]), Concat(LinesOfAll(sections[1..])), LinesOf(last));
    }
  }

  lemma {:induction false} ConcatOfTrimmedLeft(sections: seq<Str>)
    requires sections != []
    ensures Concat(LinesOfAll(TrimLeft(sections))) == Concat(LinesOfAll(sections))
  {
    if |sections| <= 1 || sections[0] != [] {
    } else {
      ConcatOfTrimmedLeft(sections[1..]);
      LinesOfEmpty();
      ConcatOfCons(sections[0], sections[1..]);
      assert sections == [sections[0]] + sections[1..];
    }
  }

  lemma {:induction false} ConcatOfTrimmedRight(sections: seq<Str>)
    requires sections != []
    ensures Concat(LinesOfAll(TrimRight(sections))) == Concat(LinesOfAll(sections))
  {
    var n := |sections| - 1;
    if |sections| <= 1 || sections[n] != [] {
    } else {
      ConcatOfTrimmedRight(sections[..n]);
      LinesOfEmpty();
      ConcatOfLast(sections[..n], sections[n]);
      assert sections == sections[..n] + [sections[n]];
    }
  }

  lemma LinesAreTheirSections(text: Str)
    ensures LinesOf(text) == Concat(LinesOfAll(Sections(text)))
  {
    SplitThenJoin(text);
    LinesOfJoined(Sections(text));
  }

  /** The rewrite keeps every stripped non-blank line, as often as it occurs, for every text and whatever order
      `list.sort` leaves tangled lines in. */
  lemma RewriteKeepsLines(text: Str, sortSections: bool, written: Str)
    requires Rewrites(text, sortSections, written)
    ensures multiset(LinesOf(written)) == multiset(LinesOf(text))
  {
    var orders :| IsSorting(text, orders) && written == WrittenFor(orders, sortSections);
    var joined := JoinedSections(orders);
    var sections := Arranged(joined, sortSections);
    ArrangedIsTidy(text, orders, sortSections);
    EmitTrims(sections);
    LinesBeforeNewline(JoinSections(Trim(sections)));
    LinesOfJoined(Trim(sections));
    ConcatOfTrimmedRight(TrimLeft(sections));
    ConcatOfTrimmedLeft(sections);
    ConcatOfArranged(joined, sortSections);
    JoinedReadsBack(text, orders);
    ConcatOfSame(orders, LinesOfAll(Sections(text)));
    LinesAreTheirSections(text);
  }

  lemma ReadBackSitsAt(part: seq<Str>, sections: seq<Str>, from: nat)
    requires SitsAt(part, sections, from)
    ensures SitsAt(LinesOfAll(part), LinesOfAll(sections), from)
  {
    assert forall i :: 0 <= i < |part| ==> LinesOfAll(part)[i] == LinesOf(part[i]);
  }

  lemma DroppedReadsBackEmpty(sections: seq<Str>, i: nat)
    requires i < |sections| && sections[i] == []
    ensures LinesOfAll(sections)[i] == []
  {
    LinesOfEmpty();
  }

  /** Without section sorting the sections stay where they are, for every text: the file that is read back has the
      sections of the text, each as `list.sort` has arranged its own lines, up to empty sections at the ends. */
  lemma RewriteKeepsSections(text: Str, orders: seq<seq<Str>>)
    requires IsSorting(text, orders)
    ensures JoinedSections(orders) != []
    ensures var from, lines := Skipped(JoinedSections(orders)), LinesOfAll(Sections(WrittenFor(orders, false)));
      && SitsAt(lines, orders, from)
      && (forall i :: 0 <= i < |orders| && !(from <= i < from + |lines|) ==> orders[i] == [])
    ensures forall i :: 0 <= i < |orders| ==> multiset(orders[i]) == multiset(LinesOf(Sections(text)[i]))
    ensures Orderly(text) ==> orders == SortedLines(text)
  {
    var sections := JoinedSections(orders);
    JoinedReadsBack(text, orders);
    EmitTrims(sections);
    SectionsRoundTrip(Trim(sections));
    TrimDropsEmpty(sections);
    ReadBackSitsAt(Trim(sections), sections, Skipped(sections));
    forall i | 0 <= i < |orders| && !(Skipped(sections) <= i < Skipped(sections) + |Trim(sections)|)
      ensures orders[i] == []
    {
      DroppedReadsBackEmpty(sections, i);
    }
    if Orderly(text) {
      OrderlySortingIsUnique(text, orders);
    }
  }
}
