/** Changelog fragments: reading `### Section` blocks and printing them back (scripts/release/changelog.ts). */
module Changelog {
  import opened Text
  import opened Wrappers

  datatype Section = Breaking | Added | Changed | Fixed | Removed

  /** In the order they are printed. */
  const SECTIONS := [Breaking, Added, Changed, Fixed, Removed]

  function NameOf(s: Section): string {
    match s
    case Breaking => "BREAKING"
    case Added => "Added"
    case Changed => "Changed"
    case Fixed => "Fixed"
    case Removed => "Removed"
  }

  function Named(name: string): Option<Section> {
    if name == "BREAKING" then Some(Breaking)
    else if name == "Added" then Some(Added)
    else if name == "Changed" then Some(Changed)
    else if name == "Fixed" then Some(Fixed)
    else if name == "Removed" then Some(Removed)
    else None
  }

  /** A section is present once it has a bullet. */
  type Sections = map<Section, seq<string>>

  function BulletsOf(m: Sections, s: Section): seq<string> {
    if s in m then m[s] else []
  }

  // ---------- lines ----------

  predicate IsWordChar(c: char) { 'a' <= c <= 'z' || IsUpper(c) || IsDigit(c) || c == '_' }

  function WordRun(s: string): nat
    ensures WordRun(s) <= |s|
  {
    if s != [] && IsWordChar(s[0]) then 1 + WordRun(s[1..]) else 0
  }

  /** `/^### (\w+)\s*$/`: the word. */
  function HeadingWord(line: string): Option<string> {
    if !StartsWith(line, "### ") then None
    else
      var n := WordRun(line[4..]);
      if n > 0 && AllSpace(line[4 + n..]) then Some(line[4..4 + n]) else None
  }

  /** `/^\s*[-*] (.+)$/`: the text after the bullet. */
  function BulletText(line: string): Option<string> {
    var t := TrimStart(line);
    if |t| > 2 && t[0] in {'-', '*'} && t[1] == ' ' && OneLine(t[2..]) then Some(t[2..]) else None
  }

  /** `/^\s+(\S.*)$/`, its end trimmed: an indented line that is no bullet. */
  function Continuation(line: string): Option<string> {
    var t := TrimStart(line);
    if t != [] && |t| < |line| && OneLine(t) then Some(TrimEnd(t)) else None
  }

  // ---------- parseSections ----------

  datatype Reading = Reading(cur: Option<Section>, sections: Sections)

  /** What one line does to the reading. */
  function ReadLine(r: Reading, line: string): Reading {
    var word := HeadingWord(line);
    if word.Some? then r.(cur := Named(word.value))
    else if r.cur.None? then r
    else
      var s := r.cur.value;
      var list := BulletsOf(r.sections, s);
      var bullet := BulletText(line);
      var more := Continuation(line);
      if bullet.Some? then r.(sections := r.sections[s := list + [bullet.value]])
      else if more.Some? && list != [] then
        r.(sections := r.sections[s := list[|list| - 1 := list[|list| - 1] + " " + more.value]])
      else r
  }

  function ReadLines(lines: seq<string>, r: Reading): Reading {
    if lines == [] then r else ReadLines(lines[1..], ReadLine(r, lines[0]))
  }

  function ParseSections(raw: string): Sections {
    ReadLines(Split(raw), Reading(None, map[])).sections
  }

  /** The loop of `parseSections`. */
  method ParseSectionsLoop(raw: string) returns (sections: Sections)
    ensures sections == ParseSections(raw)
  {
    hide HeadingWord, BulletText, Continuation;
    var lines := Split(raw);
    sections := map[];
    var cur: Option<Section> := None;
    for i := 0 to |lines|
      invariant ReadLines(lines, Reading(None, map[])) == ReadLines(lines[i..], Reading(cur, sections))
    {
      var line := lines[i];
      ghost var before := Reading(cur, sections);
      if HeadingWord(line).Some? {
        cur := Named(HeadingWord(line).value);
      } else if cur.Some? {
        var list := BulletsOf(sections, cur.value);
        if BulletText(line).Some? {
          sections := sections[cur.value := list + [BulletText(line).value]];
        } else if Continuation(line).Some? && list != [] {
          sections := sections[cur.value := list[|list| - 1 := list[|list| - 1] + " " + Continuation(line).value]];
        }
      }
      assert Reading(cur, sections) == ReadLine(before, line);
      assert lines[i..][1..] == lines[i + 1..];
    }
  }

  // ---------- every bullet read is one non-empty line ----------

  ghost predicate GoodBullet(b: string) { b != [] && OneLine(b) }

  ghost predicate WellRead(m: Sections) {
    forall s :: s in m ==> m[s] != [] && forall b :: b in m[s] ==> GoodBullet(b)
  }

  lemma TrimKeepsOneLine(t: string)
    ensures OneLine(t) ==> OneLine(TrimEnd(t))
  {
  }

  lemma LineKeepsWellRead(r: Reading, line: string)
    requires WellRead(r.sections)
    ensures WellRead(ReadLine(r, line).sections)
  {
    var more := Continuation(line);
    TrimKeepsOneLine(TrimStart(line));
    assert more.Some? ==> OneLine(more.value);
    hide HeadingWord, Continuation;
    if r.cur.Some? {
      var list := BulletsOf(r.sections, r.cur.value);
      if more.Some? && list != [] {
        assert list[|list| - 1] in list;
        assert GoodBullet(list[|list| - 1] + " " + more.value);
      }
    }
  }

  lemma {:induction false} LinesKeepWellRead(lines: seq<string>, r: Reading)
    requires WellRead(r.sections)
    ensures WellRead(ReadLines(lines, r).sections)
  {
    if lines != [] {
      LineKeepsWellRead(r, lines[0]);
      hide ReadLine;
      LinesKeepWellRead(lines[1..], ReadLine(r, lines[0]));
    }
  }

  // ---------- collating and printing ----------

  /** `sources.flatMap((s) => s.sections[sec] ?? [])`. */
  function Gather(sources: seq<Sections>, s: Section): seq<string> {
    if sources == [] then [] else BulletsOf(sources[0], s) + Gather(sources[1..], s)
  }

  function BulletLines(bullets: seq<string>): seq<string> {
    if bullets == [] then [] else ["- " + bullets[0]] + BulletLines(bullets[1..])
  }

  function SectionLines(sources: seq<Sections>, s: Section): seq<string> {
    var bullets := Gather(sources, s);
    if bullets == [] then [] else ["### " + NameOf(s)] + BulletLines(bullets)
  }

  function LinesFor(sources: seq<Sections>, order: seq<Section>): seq<string> {
    if order == [] then [] else SectionLines(sources, order[0]) + LinesFor(sources, order[1..])
  }

  function CollateNotes(sources: seq<Sections>): string {
    Join(LinesFor(sources, SECTIONS)) + "\n"
  }

  /** The loops of `collateSectionLines`. */
  method CollateSectionLines(sources: seq<Sections>) returns (lines: seq<string>)
    ensures lines == LinesFor(sources, SECTIONS)
  {
    hide SectionLines;
    lines := [];
    var i := 0;
    while i < |SECTIONS|
      invariant 0 <= i <= |SECTIONS|
      invariant lines + LinesFor(sources, SECTIONS[i..]) == LinesFor(sources, SECTIONS)
    {
      ghost var rest := LinesFor(sources, SECTIONS[i + 1..]);
      assert SECTIONS[i..][1..] == SECTIONS[i + 1..];
      assert LinesFor(sources, SECTIONS[i..]) == SectionLines(sources, SECTIONS[i]) + rest;
      ghost var before := lines;
      lines := PushSection(sources, SECTIONS[i], lines);
      assert before + (SectionLines(sources, SECTIONS[i]) + rest) == lines + rest;
      i := i + 1;
    }
    assert SECTIONS[|SECTIONS|..] == [];
  }

  method PushSection(sources: seq<Sections>, sec: Section, before: seq<string>) returns (lines: seq<string>)
    ensures lines == before + SectionLines(sources, sec)
  {
    hide Gather, NameOf, BulletLines;
    lines := before;
    var bullets := Gather(sources, sec);
    if |bullets| > 0 {
      var printed := PushBullets(bullets);
      lines := lines + ["### " + NameOf(sec)] + printed;
    }
  }

  method PushBullets(bullets: seq<string>) returns (lines: seq<string>)
    ensures lines == BulletLines(bullets)
  {
    lines := [];
    for j := 0 to |bullets|
      invariant lines + BulletLines(bullets[j..]) == BulletLines(bullets)
    {
      lines := lines + ["- " + bullets[j]];
      assert bullets[j..][1..] == bullets[j + 1..];
    }
    assert bullets[|bullets|..] == [];
  }

  // ---------- what is printed is read back ----------

  lemma HeadingReadsBack(r: Reading, s: Section)
    ensures ReadLine(r, "### " + NameOf(s)) == r.(cur := Some(s))
  {
    var name := NameOf(s);
    var line := "### " + name;
    assert line[..4] == "### " && line[4..] == name;
    WordRunWhole(name);
    assert line[4..4 + |name|] == name && line[4 + |name|..] == [];
  }

  lemma {:induction false} WordRunWhole(s: string)
    requires forall i :: 0 <= i < |s| ==> IsWordChar(s[i])
    ensures WordRun(s) == |s|
  {
    if s != [] { WordRunWhole(s[1..]); }
  }

  lemma BulletReadsBack(r: Reading, b: string)
    requires GoodBullet(b) && r.cur.Some?
    ensures ReadLine(r, "- " + b) ==
            r.(sections := r.sections[r.cur.value := BulletsOf(r.sections, r.cur.value) + [b]])
  {
    var line := "- " + b;
    assert TrimStart(line) == line && line[2..] == b;
    assert line[0] != '#' && "### "[0] == '#';
    assert |line| >= 4 ==> line[..4][0] == line[0];
    assert BulletText(line) == Some(b) && HeadingWord(line).None?;
  }

  lemma {:induction false} BulletsReadBack(r: Reading, bullets: seq<string>)
    requires r.cur.Some? && bullets != [] && forall b :: b in bullets ==> GoodBullet(b)
    ensures ReadLines(BulletLines(bullets), r) ==
            r.(sections := r.sections[r.cur.value := BulletsOf(r.sections, r.cur.value) + bullets])
    decreases |bullets|
  {
    var s := r.cur.value;
    var list := BulletsOf(r.sections, s);
    hide GoodBullet;
    assert bullets[0] in bullets;
    BulletReadsBack(r, bullets[0]);
    var r1 := r.(sections := r.sections[s := list + [bullets[0]]]);
    var lines := BulletLines(bullets);
    assert lines[1..] == BulletLines(bullets[1..]);
    hide ReadLine;
    if |bullets| > 1 {
      assert forall b :: b in bullets[1..] ==> b in bullets;
      BulletsReadBack(r1, bullets[1..]);
      assert list + [bullets[0]] + bullets[1..] == list + bullets;
      assert r1.sections[s := list + bullets] == r.sections[s := list + bullets];
    } else {
      assert bullets == [bullets[0]];
    }
  }

  lemma {:induction false} ReadInParts(a: seq<string>, b: seq<string>, r: Reading)
    ensures ReadLines(a + b, r) == ReadLines(b, ReadLines(a, r))
  {
    hide ReadLine;
    if a == [] {
      assert a + b == b;
    } else {
      assert (a + b)[1..] == a[1..] + b;
      ReadInParts(a[1..], b, ReadLine(r, a[0]));
    }
  }

  lemma {:induction false} GatheredAreGood(sources: seq<Sections>, s: Section)
    requires forall m :: m in sources ==> WellRead(m)
    ensures forall b :: b in Gather(sources, s) ==> GoodBullet(b)
  {
    hide GoodBullet;
    if sources != [] {
      assert WellRead(sources[0]);
      assert forall m :: m in sources[1..] ==> m in sources;
      GatheredAreGood(sources[1..], s);
    }
  }

  lemma SectionReadsBack(r: Reading, sources: seq<Sections>, s: Section)
    requires s !in r.sections && forall m :: m in sources ==> WellRead(m)
    ensures ReadLines(SectionLines(sources, s), r) ==
            if Gather(sources, s) == [] then r else Reading(Some(s), r.sections[s := Gather(sources, s)])
  {
    GatheredAreGood(sources, s);
    var bullets := Gather(sources, s);
    if bullets != [] {
      HeadingReadsBack(r, s);
      var heading := "### " + NameOf(s);
      hide GoodBullet, ReadLine, WellRead, NameOf;
      BulletsReadBack(r.(cur := Some(s)), bullets);
      var lines := SectionLines(sources, s);
      assert lines[0] == heading && lines[1..] == BulletLines(bullets);
      assert ReadLines(lines, r) == ReadLines(BulletLines(bullets), r.(cur := Some(s)));
      assert [] + bullets == bullets;
    }
  }

  predicate Distinct(order: seq<Section>) {
    forall i, j :: 0 <= i < j < |order| ==> order[i] != order[j]
  }

  lemma DistinctRest(order: seq<Section>)
    requires order != [] && Distinct(order)
    ensures Distinct(order[1..]) && order[0] !in order[1..]
    ensures forall s :: s in order <==> s == order[0] || s in order[1..]
  {
    assert order == [order[0]] + order[1..];
    assert forall i :: 0 <= i < |order| - 1 ==> order[1..][i] == order[i + 1];
  }

  lemma {:induction false} OrderReadsBack(r: Reading, sources: seq<Sections>, order: seq<Section>)
    requires forall m :: m in sources ==> WellRead(m)
    requires Distinct(order) && forall s :: s in order ==> s !in r.sections
    ensures forall s :: BulletsOf(ReadLines(LinesFor(sources, order), r).sections, s) ==
                        if s in order then Gather(sources, s) else BulletsOf(r.sections, s)
    decreases |order|
  {
    hide SectionLines, WellRead, ReadLines, Gather, BulletsOf, Distinct;
    if order == [] {
      NothingReadsBack(r);
    } else {
      DistinctRest(order);
      var r1 := ReadLines(SectionLines(sources, order[0]), r);
      SectionAdds(r, sources, order[0]);
      ReadInParts(SectionLines(sources, order[0]), LinesFor(sources, order[1..]), r);
      OrderReadsBack(r1, sources, order[1..]);
    }
  }

  lemma NothingReadsBack(r: Reading)
    ensures ReadLines([], r) == r
  {
  }

  /** What reading one section back adds. */
  lemma SectionAdds(r: Reading, sources: seq<Sections>, s0: Section)
    requires s0 !in r.sections && forall m :: m in sources ==> WellRead(m)
    ensures var r1 := ReadLines(SectionLines(sources, s0), r);
      && (forall s :: s in r1.sections ==> s == s0 || s in r.sections)
      && forall s :: BulletsOf(r1.sections, s) == if s == s0 then Gather(sources, s0) else BulletsOf(r.sections, s)
  {
    SectionReadsBack(r, sources, s0);
    hide SectionLines, WellRead, ReadLines, Gather;
  }

  lemma {:induction false} BulletLinesAreLines(bullets: seq<string>)
    requires forall b :: b in bullets ==> GoodBullet(b)
    ensures forall l :: l in BulletLines(bullets) ==> '\n' !in l
  {
    if bullets != [] {
      assert forall b :: b in bullets[1..] ==> b in bullets;
      assert GoodBullet(bullets[0]);
      BulletLinesAreLines(bullets[1..]);
    }
  }

  lemma HeadingIsOneLine(s: Section)
    ensures '\n' !in "### " + NameOf(s)
  {
    assert '\n' !in NameOf(s) && '\n' !in "### ";
  }

  lemma {:induction false} PrintedAreLines(sources: seq<Sections>, order: seq<Section>)
    requires forall m :: m in sources ==> WellRead(m)
    ensures forall l :: l in LinesFor(sources, order) ==> '\n' !in l
  {
    if order != [] {
      GatheredAreGood(sources, order[0]);
      BulletLinesAreLines(Gather(sources, order[0]));
      HeadingIsOneLine(order[0]);
      hide GoodBullet, WellRead, Gather, BulletLines, NameOf;
      PrintedAreLines(sources, order[1..]);
    }
  }

  lemma PrintedSplits(sources: seq<Sections>)
    requires forall m :: m in sources ==> WellRead(m)
    ensures var lines := LinesFor(sources, SECTIONS);
      Split(CollateNotes(sources)) == if lines == [] then ["", ""] else lines + [""]
  {
    var lines := LinesFor(sources, SECTIONS);
    PrintedAreLines(sources, SECTIONS);
    hide WellRead, LinesFor;
    if lines == [] {
      assert CollateNotes(sources) == Join(["", ""]);
      SplitJoin(["", ""]);
    } else {
      JoinParts(lines, [""]);
      OneLineJoins("");
      assert CollateNotes(sources) == Join(lines + [""]);
      SplitJoin(lines + [""]);
    }
  }

  lemma BlankLineReadsNothing(r: Reading)
    ensures ReadLine(r, "") == r
  {
  }

  lemma EverySectionIsPrinted(s: Section)
    ensures s in SECTIONS
  {
    assert SECTIONS[0] == Breaking && SECTIONS[1] == Added && SECTIONS[2] == Changed && SECTIONS[3] == Fixed && SECTIONS[4] == Removed;
  }

  /** Printing collates and reading undoes it: every source's bullets come back once, under their
      section, in order. */
  lemma NotesRoundTrip(sources: seq<Sections>)
    requires forall m :: m in sources ==> WellRead(m)
    ensures forall s :: BulletsOf(ParseSections(CollateNotes(sources)), s) == Gather(sources, s)
  {
    var lines := LinesFor(sources, SECTIONS);
    var start := Reading(None, map[]);
    hide WellRead, LinesFor, ReadLine, Gather, ReadLines;
    PrintedSplits(sources);
    assert Distinct(SECTIONS);
    OrderReadsBack(start, sources, SECTIONS);
    EndReadsNothing(lines, start);
    forall s: Section ensures s in SECTIONS {
      EverySectionIsPrinted(s);
    }
  }

  lemma EndReadsNothing(lines: seq<string>, start: Reading)
    ensures ReadLines(if lines == [] then ["", ""] else lines + [""], start) == ReadLines(lines, start)
  {
    hide ReadLine;
    var end := ReadLines(lines, start);
    BlankLineReadsNothing(end);
    BlankLineReadsNothing(start);
    assert [""][1..] == [] && ["", ""][1..] == [""];
    assert ReadLines([""], end) == end && ReadLines([""], start) == start;
    if lines != [] { ReadInParts(lines, [""], start); }
  }
}
