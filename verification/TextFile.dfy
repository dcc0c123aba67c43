/** Splitting a text into sections and lines, and putting it together again, as Python's string methods do. */
module TextFile {
  import opened PathOrder

  const NEWLINE: CodePoint := 0x0A
  const BLANK_LINE: Str := [NEWLINE, NEWLINE]

  /** Where `str.splitlines` breaks a string. */
  predicate IsBreak(c: CodePoint) {
    0x0A <= c <= 0x0D || 0x1C <= c <= 0x1E || c == 0x85 || c == 0x2028 || c == 0x2029
  }

  /** What `str.strip` removes. */
  predicate IsSpace(c: CodePoint) {
    IsBreak(c) || c == 0x09 || c == 0x1F || c == 0x20 || c == 0xA0 || c == 0x1680 || 0x2000 <= c <= 0x200A
    || c == 0x202F || c == 0x205F || c == 0x3000
  }

  function StripLeft(s: Str): Str {
    if s != [] && IsSpace(s[0]) then StripLeft(s[1..]) else s
  }

  function StripRight(s: Str): Str {
    if s != [] && IsSpace(s[|s| - 1]) then StripRight(s[..|s| - 1]) else s
  }

  function Strip(s: Str): Str {
    StripRight(StripLeft(s))
  }

  /** The pieces between line breaks. They differ from `splitlines` only in empty pieces, which are dropped below. */
  function Pieces(s: Str): (r: seq<Str>)
    ensures r != []
  {
    if s == [] then [[]]
    else
      var rest := Pieces(s[1..]);
      if IsBreak(s[0]) then [[]] + rest else [[s[0]] + rest[0]] + rest[1..]
  }

  /** `[line.strip() for line in pieces if line.strip()]` */
  function Clean(pieces: seq<Str>): seq<Str> {
    if pieces == [] then []
    else if Strip(pieces[0]) != [] then [Strip(pieces[0])] + Clean(pieces[1..])
    else Clean(pieces[1..])
  }

  /** The stripped non-blank lines of a text. */
  function LinesOf(text: Str): seq<Str> {
    Clean(Pieces(text))
  }

  /** `text.split("\n\n")`: the leftmost blank line first, and none that overlaps it. */
  function Sections(text: Str): (r: seq<Str>)
    ensures r != []
  {
    if text == [] then [[]]
    else if BLANK_LINE <= text then [[]] + Sections(text[2..])
    else
      var rest := Sections(text[1..]);
      [[text[0]] + rest[0]] + rest[1..]
  }

  /** `separator.join(parts)` */
  function Join(separator: Str, parts: seq<Str>): Str {
    if parts == [] then []
    else if |parts| == 1 then parts[0]
    else parts[0] + separator + Join(separator, parts[1..])
  }

  function JoinLines(lines: seq<Str>): Str {
    Join([NEWLINE], lines)
  }

  function JoinSections(sections: seq<Str>): Str {
    Join(BLANK_LINE, sections)
  }

  /** A line that survives cleaning unchanged. */
  predicate IsClean(line: Str) {
    && line != [] && !IsSpace(line[0]) && !IsSpace(line[|line| - 1])
    && forall i :: 0 <= i < |line| ==> !IsBreak(line[i])
  }

  predicate AllClean(lines: seq<Str>) {
    forall i :: 0 <= i < |lines| ==> IsClean(lines[i])
  }

  // ---------- Strip ----------

  lemma {:induction false} StripLeftIsSuffix(s: Str)
    ensures exists k :: 0 <= k <= |s| && StripLeft(s) == s[k..]
    ensures StripLeft(s) != [] ==> !IsSpace(StripLeft(s)[0])
  {
    if s != [] && IsSpace(s[0]) {
      StripLeftIsSuffix(s[1..]);
      var k :| 0 <= k <= |s[1..]| && StripLeft(s[1..]) == s[1..][k..];
      assert s[1..][k..] == s[k + 1..];
    } else {
      assert s == s[0..];
    }
  }

  lemma {:induction false} StripRightIsPrefix(s: Str)
    ensures StripRight(s) <= s
    ensures StripRight(s) != [] ==> !IsSpace(StripRight(s)[|StripRight(s)| - 1])
  {
    if s == [] || !IsSpace(s[|s| - 1]) {
    } else {
      StripRightIsPrefix(s[..|s| - 1]);
    }
  }

  /** A stripped piece without line breaks is empty or clean. */
  lemma StripCleans(piece: Str)
    requires forall i :: 0 <= i < |piece| ==> !IsBreak(piece[i])
    ensures Strip(piece) == [] || IsClean(Strip(piece))
  {
    StripLeftIsSuffix(piece);
    StripRightIsPrefix(StripLeft(piece));
    var k :| 0 <= k <= |piece| && StripLeft(piece) == piece[k..];
    forall i | 0 <= i < |Strip(piece)|
      ensures !IsBreak(Strip(piece)[i])
    {
      assert Strip(piece)[i] == StripLeft(piece)[i] == piece[k + i];
    }
  }

  lemma StripFixed(s: Str)
    requires s == [] || (!IsSpace(s[0]) && !IsSpace(s[|s| - 1]))
    ensures Strip(s) == s
  {
  }

  /** Leading white space does not matter to `strip`. */
  lemma {:induction false} StripAfterSpaces(spaces: Str, s: Str)
    requires forall i :: 0 <= i < |spaces| ==> IsSpace(spaces[i])
    ensures Strip(spaces + s) == Strip(s)
  {
    if spaces == [] {
      assert spaces + s == s;
    } else {
      assert (spaces + s)[1..] == spaces[1..] + s;
      StripAfterSpaces(spaces[1..], s);
    }
  }

  /** Trailing white space does not matter after something that is not. */
  lemma {:induction false} StripBeforeSpaces(s: Str, spaces: Str)
    requires s != [] && !IsSpace(s[0])
    requires forall i :: 0 <= i < |spaces| ==> IsSpace(spaces[i])
    ensures Strip(s + spaces) == Strip(s)
  {
    if spaces == [] {
      assert s + spaces == s;
    } else {
      var n := |spaces| - 1;
      StripBeforeSpaces(s, spaces[..n]);
      assert (s + spaces)[..|s + spaces| - 1] == s + spaces[..n];
      assert StripLeft(s + spaces) == s + spaces;
      assert StripLeft(s + spaces[..n]) == s + spaces[..n];
    }
  }

  // ---------- Lines ----------

  lemma {:induction false} PiecesHaveNoBreaks(s: Str)
    ensures forall j, i :: 0 <= j < |Pieces(s)| && 0 <= i < |Pieces(s)[j]| ==> !IsBreak(Pieces(s)[j][i])
  {
    if s == [] {
    } else {
      PiecesHaveNoBreaks(s[1..]);
    }
  }

  lemma {:induction false} CleanCleans(pieces: seq<Str>)
    requires forall j, i :: 0 <= j < |pieces| && 0 <= i < |pieces[j]| ==> !IsBreak(pieces[j][i])
    ensures AllClean(Clean(pieces))
  {
    if pieces == [] {
    } else {
      StripCleans(pieces[0]);
      CleanCleans(pieces[1..]);
    }
  }

  lemma LinesAreClean(text: Str)
    ensures AllClean(LinesOf(text)) && [] !in LinesOf(text)
  {
    PiecesHaveNoBreaks(text);
    CleanCleans(Pieces(text));
  }

  lemma {:induction false} CleanConcat(a: seq<Str>, b: seq<Str>)
    ensures Clean(a + b) == Clean(a) + Clean(b)
  {
    if a == [] {
      assert a + b == b;
    } else {
      assert (a + b)[1..] == a[1..] + b;
      CleanConcat(a[1..], b);
    }
  }

  lemma {:induction false} PiecesConcat(a: Str, c: CodePoint, b: Str)
    requires IsBreak(c)
    ensures Pieces(a + [c] + b) == Pieces(a) + Pieces(b)
  {
    if a == [] {
      assert a + [c] + b == [c] + b;
      assert ([c] + b)[1..] == b;
    } else {
      assert (a + [c] + b)[1..] == a[1..] + [c] + b;
      PiecesConcat(a[1..], c, b);
    }
  }

  /** Every line break, whichever it is, separates the lines before it from those after it. */
  lemma LinesConcat(a: Str, c: CodePoint, b: Str)
    requires IsBreak(c)
    ensures LinesOf(a + [c] + b) == LinesOf(a) + LinesOf(b)
  {
    PiecesConcat(a, c, b);
    CleanConcat(Pieces(a), Pieces(b));
  }

  lemma LinesOfEmpty()
    ensures LinesOf([]) == []
  {
    var pieces: seq<Str> := [[]];
    assert Pieces([]) == pieces && pieces[1..] == [];
    assert Strip([]) == [];
  }

  lemma {:induction false} PiecesOfUnbroken(line: Str)
    requires forall i :: 0 <= i < |line| ==> !IsBreak(line[i])
    ensures Pieces(line) == [line]
  {
    if line == [] {
    } else {
      PiecesOfUnbroken(line[1..]);
      assert line == [line[0]] + line[1..];
    }
  }

  lemma LinesOfCleanLine(line: Str)
    requires IsClean(line)
    ensures LinesOf(line) == [line]
  {
    PiecesOfUnbroken(line);
    StripFixed(line);
    assert [line][1..] == [];
    assert Clean([line]) == [line];
  }

  /** Reading back what was joined: the lines of joined clean lines are those lines. */
  lemma {:induction false} LinesRoundTrip(lines: seq<Str>)
    requires AllClean(lines)
    ensures LinesOf(JoinLines(lines)) == lines
  {
    if lines == [] {
      LinesOfEmpty();
    } else if |lines| == 1 {
      LinesOfCleanLine(lines[0]);
      assert lines == [lines[0]];
    } else {
      LinesRoundTrip(lines[1..]);
      LinesOfCleanLine(lines[0]);
      LinesConcat(lines[0], NEWLINE, JoinLines(lines[1..]));
      assert lines == [lines[0]] + lines[1..];
    }
  }

  // ---------- Sections ----------

  /** A section that the rewrite produces: clean lines, joined. */
  predicate IsTidy(section: Str) {
    JoinLines(LinesOf(section)) == section
  }

  predicate AllTidy(sections: seq<Str>) {
    forall i :: 0 <= i < |sections| ==> IsTidy(sections[i])
  }

  /** No blank line inside, and no newline at the end. */
  predicate Unbreakable(s: Str) {
    && (forall i :: 0 <= i < |s| - 1 ==> !(s[i] == NEWLINE && s[i + 1] == NEWLINE))
    && (s != [] ==> s[|s| - 1] != NEWLINE)
  }

  lemma {:induction false} JoinedIsUnbreakable(lines: seq<Str>)
    requires AllClean(lines)
    ensures Unbreakable(JoinLines(lines))
    ensures var s := JoinLines(lines);
      lines != [] ==> s != [] && !IsSpace(s[0]) && !IsSpace(s[|s| - 1])
  {
    if lines == [] {
    } else if |lines| == 1 {
      assert IsClean(lines[0]);
    } else {
      JoinedIsUnbreakable(lines[1..]);
      var rest := JoinLines(lines[1..]);
      assert JoinLines(lines) == lines[0] + [NEWLINE] + rest;
      assert IsClean(lines[0]);
    }
  }

  lemma TidyFacts(s: Str)
    requires IsTidy(s)
    ensures Unbreakable(s) && (s != [] ==> !IsSpace(s[0]) && !IsSpace(s[|s| - 1]))
    ensures LinesOf(s) == [] <==> s == []
  {
    LinesAreClean(s);
    JoinedIsUnbreakable(LinesOf(s));
    LinesOfEmpty();
  }

  lemma TidyFromLines(lines: seq<Str>)
    requires AllClean(lines)
    ensures IsTidy(JoinLines(lines))
  {
    LinesRoundTrip(lines);
  }

  lemma UnbreakableTail(s: Str)
    requires Unbreakable(s) && s != []
    ensures Unbreakable(s[1..])
    ensures s[0] == NEWLINE ==> |s| > 1 && s[1] != NEWLINE
  {
    assert forall i :: 0 <= i < |s| - 1 ==> s[1..][i] == s[i + 1];
  }

  lemma {:induction false} SectionsSplit(s: Str, rest: Str)
    requires Unbreakable(s)
    ensures Sections(s + BLANK_LINE + rest) == [s] + Sections(rest)
  {
    var text := s + BLANK_LINE + rest;
    if s == [] {
      assert text == BLANK_LINE + rest && text[2..] == rest;
    } else {
      UnbreakableTail(s);
      SectionsSplit(s[1..], rest);
      assert text[1..] == s[1..] + BLANK_LINE + rest;
      assert text[0] == s[0] && (|s| > 1 ==> text[1] == s[1]);
      assert !(BLANK_LINE <= text);
      assert s == [s[0]] + s[1..];
    }
  }

  /** The last section may end in one newline. */
  lemma {:induction false} SectionsOfLast(s: Str)
    requires Unbreakable(s)
    ensures Sections(s + [NEWLINE]) == [s + [NEWLINE]]
  {
    var text := s + [NEWLINE];
    if s == [] {
      assert text == [NEWLINE] && text[1..] == [];
      var rest := Sections(text[1..]);
      assert rest == [[]] && !(BLANK_LINE <= text);
      assert [text[0]] + rest[0] == text;
    } else {
      UnbreakableTail(s);
      SectionsOfLast(s[1..]);
      assert text[1..] == s[1..] + [NEWLINE];
      assert text[0] == s[0] && (|s| > 1 ==> text[1] == s[1]);
      assert !(BLANK_LINE <= text);
      assert text == [s[0]] + (s[1..] + [NEWLINE]);
    }
  }

  function LinesOfAll(sections: seq<Str>): seq<seq<Str>> {
    seq(|sections|, i requires 0 <= i < |sections| => LinesOf(sections[i]))
  }

  lemma LinesBeforeNewline(s: Str)
    ensures LinesOf(s + [NEWLINE]) == LinesOf(s)
  {
    LinesOfEmpty();
    LinesConcat(s, NEWLINE, []);
    assert s + [NEWLINE] + [] == s + [NEWLINE];
  }

  /** Reading back a joined file: its sections have the lines of the sections that were joined. */
  lemma {:induction false} SectionsRoundTrip(sections: seq<Str>)
    requires sections != [] && AllTidy(sections)
    ensures LinesOfAll(Sections(JoinSections(sections) + [NEWLINE])) == LinesOfAll(sections)
  {
    TidyFacts(sections[0]);
    if |sections| == 1 {
      SectionsOfLast(sections[0]);
      LinesBeforeNewline(sections[0]);
    } else {
      var rest := JoinSections(sections[1..]) + [NEWLINE];
      SectionsSplit(sections[0], rest);
      SectionsRoundTrip(sections[1..]);
      assert JoinSections(sections) + [NEWLINE] == sections[0] + BLANK_LINE + rest;
      LinesOfAllCons(sections[0], Sections(rest));
      LinesOfAllCons(sections[0], sections[1..]);
      assert sections == [sections[0]] + sections[1..];
    }
  }

  lemma LinesOfAllCons(head: Str, tail: seq<Str>)
    ensures LinesOfAll([head] + tail) == [LinesOf(head)] + LinesOfAll(tail)
  {
  }

  /** Splitting and joining a text gives the text back. */
  lemma {:induction false} SplitThenJoin(text: Str)
    ensures JoinSections(Sections(text)) == text
  {
    if text == [] {
    } else if BLANK_LINE <= text {
      SplitThenJoin(text[2..]);
      assert ([[]] + Sections(text[2..]))[1..] == Sections(text[2..]);
      assert text == BLANK_LINE + text[2..];
    } else {
      SplitThenJoin(text[1..]);
      var rest := Sections(text[1..]);
      JoinPrepends(text[0], rest);
      assert text == [text[0]] + text[1..];
    }
  }

  lemma JoinPrepends(c: CodePoint, parts: seq<Str>)
    requires parts != []
    ensures JoinSections([[c] + parts[0]] + parts[1..]) == [c] + JoinSections(parts)
  {
    var all := [[c] + parts[0]] + parts[1..];
    assert all[1..] == parts[1..];
    if |parts| > 1 {
      assert ([c] + parts[0]) + BLANK_LINE + JoinSections(parts[1..])
          == [c] + (parts[0] + BLANK_LINE + JoinSections(parts[1..]));
    }
  }

  function Concat(lists: seq<seq<Str>>): seq<Str> {
    if lists == [] then [] else lists[0] + Concat(lists[1..])
  }

  /** The lines of joined sections are the lines of the sections, in order. */
  lemma {:induction false} LinesOfJoined(sections: seq<Str>)
    ensures LinesOf(JoinSections(sections)) == Concat(LinesOfAll(sections))
  {
    if sections == [] {
      LinesOfEmpty();
    } else {
      LinesOfJoined(sections[1..]);
      assert LinesOfAll(sections)[1..] == LinesOfAll(sections[1..]);
      if |sections| == 1 {
        assert Concat(LinesOfAll(sections)) == LinesOf(sections[0]) + Concat([]);
      } else {
        var rest := JoinSections(sections[1..]);
        LinesBeforeNewline(sections[0]);
        LinesConcat(sections[0] + [NEWLINE], NEWLINE, rest);
        assert sections[0] + BLANK_LINE + rest == (sections[0] + [NEWLINE]) + [NEWLINE] + rest;
      }
    }
  }
}
