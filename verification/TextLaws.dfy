/** What reading and writing do to the characters of a text, in terms of the texts themselves. */
module TextLaws {
  import opened PathOrder
  import opened TextFile
  import opened FileRewrite

  // ---------- Reading ----------

  /** The line breaks: line feed to carriage return, the three upper information separators, next line, and the line and
      paragraph separators. */
  lemma BreaksAre(c: CodePoint)
    ensures IsBreak(c) <==> c in {0x0A, 0x0B, 0x0C, 0x0D, 0x1C, 0x1D, 0x1E, 0x85, 0x2028, 0x2029}
  {
  }

  /** The white space beyond the line breaks: tab, unit separator, blank, and the blanks of other widths. */
  lemma SpacesAre(c: CodePoint)
    ensures IsSpace(c) <==> IsBreak(c) || c in {
      0x09, 0x1F, 0x20, 0xA0, 0x1680, 0x2000, 0x2001, 0x2002, 0x2003, 0x2004, 0x2005, 0x2006, 0x2007, 0x2008, 0x2009,
      0x200A, 0x202F, 0x205F, 0x3000}
  {
  }

  predicate AllSpace(s: Str) {
    forall i :: 0 <= i < |s| ==> IsSpace(s[i])
  }

  predicate NoBreak(s: Str) {
    forall i :: 0 <= i < |s| ==> !IsBreak(s[i])
  }

  /** `strip` takes white space off both ends, and stops at the first and last character that is none. */
  lemma StripTakesSpaces(before: Str, s: Str, after: Str)
    requires AllSpace(before) && AllSpace(after)
    requires s != [] && !IsSpace(s[0]) && !IsSpace(s[|s| - 1])
    ensures Strip(before + s + after) == s
  {
    StripBeforeSpaces(s, after);
    StripAfterSpaces(before, s + after);
    assert before + s + after == before + (s + after);
    StripFixed(s);
  }

  lemma StripOfSpaces(s: Str)
    requires AllSpace(s)
    ensures Strip(s) == []
  {
    StripAfterSpaces(s, []);
    assert s + [] == s;
  }

  lemma CleanOne(piece: Str)
    ensures Clean([piece]) == if Strip(piece) == [] then [] else [Strip(piece)]
  {
    var pieces: seq<Str> := [piece];
    var none: seq<Str> := [];
    assert pieces[1..] == none && Clean(none) == none;
    if Strip(piece) != [] {
      assert Clean(pieces) == [Strip(piece)] + none;
    }
  }

  lemma LinesOfUnbroken(s: Str)
    requires NoBreak(s)
    ensures LinesOf(s) == if Strip(s) == [] then [] else [Strip(s)]
  {
    PiecesOfUnbroken(s);
    CleanOne(s);
  }

  /** White space around a line is taken off, and the line is kept. */
  lemma IndentationIsDropped(before: Str, line: Str, after: Str)
    requires AllSpace(before) && NoBreak(before) && AllSpace(after) && NoBreak(after) && IsClean(line)
    ensures LinesOf(before + line + after) == [line]
  {
    StripTakesSpaces(before, line, after);
    LinesOfUnbroken(before + line + after);
  }

  /** A line of white space alone is dropped. */
  lemma BlankIsDropped(blank: Str)
    requires AllSpace(blank) && NoBreak(blank)
    ensures LinesOf(blank) == []
  {
    StripOfSpaces(blank);
    LinesOfUnbroken(blank);
  }

  /** A blank before one line and a tab before the next, as they are encoded. */
  lemma ReadingExample()
    ensures LinesOf([0x20, 0x61, 0x0A, 0x09, 0x62]) == [[0x61], [0x62]]
  {
    var first: Str, second: Str := [0x20, 0x61], [0x09, 0x62];
    IndentationIsDropped([0x20], [0x61], []);
    IndentationIsDropped([0x09], [0x62], []);
    assert [0x20] + [0x61] + [] == first && [0x09] + [0x62] + [] == second;
    LinesConcat(first, 0x0A, second);
    assert first + [0x0A] + second == [0x20, 0x61, 0x0A, 0x09, 0x62];
  }

  // ---------- Sections ----------

  predicate NoBlankLine(s: Str) {
    forall i :: 0 <= i < |s| - 1 ==> !(s[i] == NEWLINE && s[i + 1] == NEWLINE)
  }

  lemma StartsBlank(s: Str)
    ensures BLANK_LINE <= s <==> |s| >= 2 && s[0] == NEWLINE && s[1] == NEWLINE
  {
  }

  /** A text without a blank line is one section. */
  lemma {:induction false} OneSection(s: Str)
    requires NoBlankLine(s)
    ensures Sections(s) == [s]
  {
    if s == [] {
    } else {
      assert NoBlankLine(s[1..]) by {
        assert forall i :: 0 <= i < |s| - 1 ==> s[1..][i] == s[i + 1];
      }
      OneSection(s[1..]);
      StartsBlank(s);
      assert s == [s[0]] + s[1..];
    }
  }

  /** A text is cut at its first two newlines in a row, and after them again. */
  lemma FirstBlankLineCuts(s: Str, rest: Str)
    requires NoBlankLine(s) && (s != [] ==> s[|s| - 1] != NEWLINE)
    ensures Sections(s + [0x0A, 0x0A] + rest) == [s] + Sections(rest)
  {
    SectionsSplit(s, rest);
  }

  // ---------- Writing ----------

  /** Lines are joined by one newline and sections by two, with none before the first or after the last. */
  lemma JoinedOneByOne(parts: seq<Str>, last: Str)
    ensures JoinLines([last]) == JoinSections([last]) == last
    ensures parts != [] ==> JoinLines(parts + [last]) == JoinLines(parts) + [0x0A] + last
    ensures parts != [] ==> JoinSections(parts + [last]) == JoinSections(parts) + [0x0A, 0x0A] + last
  {
    JoinAppends([NEWLINE], parts, last);
    JoinAppends(BLANK_LINE, parts, last);
  }

  lemma {:induction false} JoinAppends(separator: Str, parts: seq<Str>, last: Str)
    ensures parts != [] ==> Join(separator, parts + [last]) == Join(separator, parts) + separator + last
  {
    if |parts| <= 1 {
      if parts != [] {
        assert (parts + [last])[1..] == [last] && parts + [last] == [parts[0], last];
      }
    } else {
      JoinAppends(separator, parts[1..], last);
      assert (parts + [last])[1..] == parts[1..] + [last];
      JoinAssociates(parts[0], separator, Join(separator, parts[1..]), last);
    }
  }

  lemma JoinAssociates(a: Str, separator: Str, b: Str, c: Str)
    ensures a + separator + (b + separator + c) == (a + separator + b) + separator + c
  {
  }

  lemma StripEnds(s: Str)
    ensures Strip(s) != [] ==> !IsSpace(Strip(s)[0]) && !IsSpace(Strip(s)[|Strip(s)| - 1])
  {
    StripLeftIsSuffix(s);
    StripRightIsPrefix(StripLeft(s));
  }

  /** What is written ends in one newline, and has no white space before it or at the start. */
  lemma WrittenIsTrimmed(text: Str, sortSections: bool, written: Str)
    requires Rewrites(text, sortSections, written)
    ensures written != [] && written[|written| - 1] == 0x0A
    ensures |written| > 1 ==> !IsSpace(written[0]) && !IsSpace(written[|written| - 2])
  {
    var orders :| IsSorting(text, orders) && written == WrittenFor(orders, sortSections);
    StripEnds(JoinSections(Arranged(JoinedSections(orders), sortSections)));
  }

  // ---------- Nothing is lost ----------

  /** The characters of a text that are not white space, as often as they occur. */
  function Ink(s: Str): multiset<CodePoint> {
    if s == [] then multiset{}
    else if IsSpace(s[0]) then Ink(s[1..])
    else multiset{s[0]} + Ink(s[1..])
  }

  function InkOfAll(lines: seq<Str>): multiset<CodePoint> {
    if lines == [] then multiset{} else Ink(lines[0]) + InkOfAll(lines[1..])
  }

  lemma {:induction false} InkConcat(a: Str, b: Str)
    ensures Ink(a + b) == Ink(a) + Ink(b)
  {
    if a == [] {
      assert a + b == b;
    } else {
      assert (a + b)[1..] == a[1..] + b;
      InkConcat(a[1..], b);
    }
  }

  lemma {:induction false} InkOfSpaces(s: Str)
    requires AllSpace(s)
    ensures Ink(s) == multiset{}
  {
    if s == [] {
    } else {
      InkOfSpaces(s[1..]);
    }
  }

  lemma {:induction false} InkOfStripLeft(s: Str)
    ensures Ink(StripLeft(s)) == Ink(s)
  {
    if s == [] || !IsSpace(s[0]) {
    } else {
      InkOfStripLeft(s[1..]);
    }
  }

  lemma {:induction false} InkOfStripRight(s: Str)
    ensures Ink(StripRight(s)) == Ink(s)
  {
    if s == [] || !IsSpace(s[|s| - 1]) {
    } else {
      var n := |s| - 1;
      InkOfStripRight(s[..n]);
      InkConcat(s[..n], [s[n]]);
      InkOfSpaces([s[n]]);
      assert s == s[..n] + [s[n]];
    }
  }

  lemma {:induction false} InkOfClean(pieces: seq<Str>)
    ensures InkOfAll(Clean(pieces)) == InkOfAll(pieces)
  {
    if pieces == [] {
    } else {
      InkOfClean(pieces[1..]);
      InkOfStripLeft(pieces[0]);
      InkOfStripRight(StripLeft(pieces[0]));
      if Strip(pieces[0]) != [] {
        assert Clean(pieces)[1..] == Clean(pieces[1..]);
      }
    }
  }

  lemma {:induction false} InkOfPieces(s: Str)
    ensures InkOfAll(Pieces(s)) == Ink(s)
  {
    if s == [] {
      assert Pieces(s)[1..] == [];
    } else {
      var rest := Pieces(s[1..]);
      InkOfPieces(s[1..]);
      if IsBreak(s[0]) {
        assert Pieces(s)[1..] == rest;
      } else {
        var first := [s[0]] + rest[0];
        assert first[1..] == rest[0] && Pieces(s)[0] == first && Pieces(s)[1..] == rest[1..];
      }
    }
  }

  lemma InkOfLines(text: Str)
    ensures InkOfAll(LinesOf(text)) == Ink(text)
  {
    InkOfClean(Pieces(text));
    InkOfPieces(text);
  }

  lemma {:induction false} InkOfAllAt(lines: seq<Str>, i: nat)
    requires i < |lines|
    ensures InkOfAll(lines) == Ink(lines[i]) + InkOfAll(lines[..i] + lines[i + 1..])
  {
    if i == 0 {
      assert lines[..0] + lines[1..] == lines[1..];
    } else {
      InkOfAllAt(lines[1..], i - 1);
      var others := lines[..i] + lines[i + 1..];
      assert others[0] == lines[0] && others[1..] == lines[1..][..i - 1] + lines[1..][i..];
    }
  }

  lemma WithoutOne(lines: seq<Str>, i: nat)
    requires i < |lines|
    ensures multiset(lines[..i] + lines[i + 1..]) == multiset(lines) - multiset{lines[i]}
  {
    assert lines == lines[..i] + [lines[i]] + lines[i + 1..];
  }

  lemma MatchFirst(a: seq<Str>, b: seq<Str>) returns (i: nat)
    requires multiset(a) == multiset(b) && a != []
    ensures i < |b| && b[i] == a[0] && multiset(a[1..]) == multiset(b[..i] + b[i + 1..])
  {
    assert a[0] in multiset(a) && a[0] in multiset(b);
    i :| 0 <= i < |b| && b[i] == a[0];
    WithoutOne(b, i);
    WithoutOne(a, 0);
    assert a[..0] + a[1..] == a[1..];
  }

  lemma {:induction false} InkOfSame(a: seq<Str>, b: seq<Str>)
    requires multiset(a) == multiset(b)
    ensures InkOfAll(a) == InkOfAll(b)
    decreases |a|
  {
    if a == [] {
      assert |multiset(b)| == |b|;
    } else {
      var i := MatchFirst(a, b);
      InkOfAllAt(b, i);
      InkOfSame(a[1..], b[..i] + b[i + 1..]);
    }
  }

  /** Nothing is lost: what is written has the same characters as the text that was read, each as often, but for white
      space; for every text and however `list.sort` leaves tangled lines. */
  lemma RewriteKeepsInk(text: Str, sortSections: bool, written: Str)
    requires Rewrites(text, sortSections, written)
    ensures Ink(written) == Ink(text)
  {
    RewriteKeepsLines(text, sortSections, written);
    InkOfSame(LinesOf(written), LinesOf(text));
    InkOfLines(written);
    InkOfLines(text);
  }
}
