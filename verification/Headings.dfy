/**
 What a fragment's headings come to: which are reported as unknown, and where the bullets under the others are filed
 (scripts/release/fragments.ts and changelog.ts).
 */
module Headings {
  import opened Text
  import opened Wrappers
  import opened Semver
  import opened Changelog
  import opened Release

  const KNOWN := ["BREAKING", "Added", "Changed", "Fixed", "Removed"]

  /** Some line is a heading with that text. */
  ghost predicate HasHeading(lines: seq<string>, h: string) {
    exists i :: 0 <= i < |lines| && HeadingText(lines[i]) == Some(h)
  }

  lemma KnownIsNamed(h: string)
    ensures h in KNOWN <==> Named(h).Some?
    ensures Named(h).Some? ==> NameOf(Named(h).value) == h
  {
  }

  lemma {:induction false} UnknownInExactly(lines: seq<string>, h: string)
    ensures h in UnknownIn(lines) <==> HasHeading(lines, h) && h !in KNOWN
    ensures forall i, j :: 0 <= i < j < |UnknownIn(lines)| ==> UnknownIn(lines)[i] != UnknownIn(lines)[j]
  {
    hide HeadingText, Named;
    if lines != [] {
      var n := |lines| - 1;
      var front := lines[..n];
      UnknownInExactly(front, h);
      var own := HeadingText(lines[n]);
      KnownIsNamed(h);
      if own.Some? { KnownIsNamed(own.value); }
      assert HasHeading(lines, h) <==> HasHeading(front, h) || own == Some(h) by {
        if HasHeading(front, h) {
          var i :| 0 <= i < |front| && HeadingText(front[i]) == Some(h);
          assert HeadingText(lines[i]) == Some(h);
        }
        if own == Some(h) { assert HeadingText(lines[n]) == Some(h); }
        if HasHeading(lines, h) && own != Some(h) {
          var i :| 0 <= i < |lines| && HeadingText(lines[i]) == Some(h);
          assert HeadingText(front[i]) == Some(h);
        }
      }
    }
  }

  /** The unknown headings of a fragment are the texts of its heading lines that name none of the five sections, each
      reported once. */
  lemma UnknownHeadingsExactly(path: string, content: string, h: string)
    ensures var unknown := ParseFragment(path, content).unknownHeadings;
      && (h in unknown <==> HasHeading(Split(content), h) && h !in ["BREAKING", "Added", "Changed", "Fixed", "Removed"])
      && forall i, j :: 0 <= i < j < |unknown| ==> unknown[i] != unknown[j]
  {
    hide UnknownIn, Split, FindBump, ParseSections;
    UnknownInExactly(Split(content), h);
  }

  /** So a misnamed heading fails the gate of every pull request that brings it, gated or not, and stops the release. */
  lemma MisnamedHeadingIsRefused(path: string, content: string, h: string, pr: Facts, base: Version, fs: seq<Fragment>)
    requires HasHeading(Split(content), h) && h !in KNOWN
    ensures ParseFragment(path, content) in pr.newFragments ==> !Passes(pr)
    ensures ParseFragment(path, content) in fs ==> ComputeRelease(base, fs).Err?
  {
    hide ParseFragment, HasHeading, Split, ComputeRelease, RequiresRelease, HasContent, HighestBump;
    UnknownHeadingsExactly(path, content, h);
    RefusesExactly(base, fs);
    hide Misdeclared;
    var f := ParseFragment(path, content);
    assert f.unknownHeadings != [] && !Releasable(f);
  }

  // ---------- where bullets go ----------

  /** Every heading has its text after exactly one space. */
  ghost predicate WellSpaced(lines: seq<string>) {
    forall i :: 0 <= i < |lines| && HeadingText(lines[i]).Some? ==> |lines[i]| > 4 && lines[i][3] == ' ' && !IsSpace(lines[i][4])
  }

  /** Line j is the last heading before line i. */
  ghost predicate Heads(lines: seq<string>, j: int, i: int) {
    0 <= j < i < |lines| && HeadingText(lines[j]).Some? && forall k :: j < k < i ==> HeadingText(lines[k]).None?
  }

  /** The bullet, or the bullet and what continues it, is among them. */
  ghost predicate Filed(m: Sections, s: Section, b: string) {
    exists x :: x in BulletsOf(m, s) && StartsWith(x, b)
  }

  /** What is read as a section is a heading. */
  lemma WordIsHeading(line: string)
    ensures HeadingWord(line).Some? ==> HeadingText(line) == HeadingWord(line)
  {
    if HeadingWord(line).Some? {
      var t := line[4..];
      var n := WordRun(t);
      var word, rest := t[..n], t[n..];
      assert line[..4] == "### " && line[..3] == line[..4][..3] && line[..3] == "###" && line[3] == line[..4][3];
      assert line[4..4 + n] == word && line[4 + n..] == rest && t == word + rest;
      WordIsWord(t);
      assert line[3..] == " " + t && line[3..][1..] == t;
      assert TrimStart(line[3..]) == TrimStart(t) == t;
      TrimEndStops(word, rest);
      AllSpaceGoes(rest);
      assert word + [] == word;
    }
  }

  lemma {:induction false} WordIsWord(t: string)
    ensures forall i :: 0 <= i < WordRun(t) ==> IsWordChar(t[i]) && !IsSpace(t[i]) && !IsLineEnd(t[i])
  {
    if t != [] && IsWordChar(t[0]) {
      WordIsWord(t[1..]);
      assert forall i :: 0 < i < WordRun(t) ==> t[i] == t[1..][i - 1];
    }
  }

  function Upto(lines: seq<string>, i: nat): Reading
    requires i <= |lines|
  {
    ReadLines(lines[..i], Reading(None, map[]))
  }

  lemma UptoNext(lines: seq<string>, i: nat)
    requires i < |lines|
    ensures Upto(lines, i + 1) == ReadLine(Upto(lines, i), lines[i])
  {
    hide ReadLine;
    assert lines[..i + 1] == lines[..i] + [lines[i]];
    ReadInParts(lines[..i], [lines[i]], Reading(None, map[]));
    assert [lines[i]][1..] == [];
    assert ReadLines([lines[i]], Upto(lines, i)) == ReadLines([], ReadLine(Upto(lines, i), lines[i]));
  }

  lemma HeadingOpens(r: Reading, line: string, s: Section)
    requires HeadingText(line) == Some(NameOf(s)) && |line| > 4 && line[3] == ' ' && !IsSpace(line[4])
    ensures ReadLine(r, line).cur == Some(s)
  {
    KnownHeadingIsRead(line, s);
    assert Named(NameOf(s)) == Some(s);
    hide HeadingText, HeadingWord;
  }

  lemma NoHeadingStays(r: Reading, line: string)
    requires HeadingText(line).None?
    ensures ReadLine(r, line).cur == r.cur
  {
    WordIsHeading(line);
    hide HeadingText, HeadingWord, BulletText, Continuation;
  }

  /** Below a well-spaced heading its section is the one being read. */
  lemma {:induction false} SectionBelow(lines: seq<string>, j: int, i: nat, s: Section)
    requires Heads(lines, j, i) && HeadingText(lines[j]) == Some(NameOf(s)) && WellSpaced(lines)
    ensures Upto(lines, i).cur == Some(s)
    decreases i
  {
    hide HeadingText, ReadLine, Upto, NameOf, IsSpace;
    if i == j + 1 {
      UptoNext(lines, j);
      HeadingOpens(Upto(lines, j), lines[j], s);
    } else {
      SectionBelow(lines, j, i - 1, s);
      UptoNext(lines, i - 1);
      NoHeadingStays(Upto(lines, i - 1), lines[i - 1]);
    }
  }

  lemma BulletIsFiled(r: Reading, line: string, s: Section)
    requires r.cur == Some(s) && HeadingWord(line).None? && BulletText(line).Some?
    ensures Filed(ReadLine(r, line).sections, s, BulletText(line).value)
  {
    hide HeadingWord, BulletText, Continuation;
    var b := BulletText(line).value;
    var list := BulletsOf(ReadLine(r, line).sections, s);
    assert list[|list| - 1] == b && b in list && StartsWith(b, b);
  }

  /** Later lines add bullets, or continue the last. */
  lemma FiledStays(r: Reading, line: string, s: Section, b: string)
    requires Filed(r.sections, s, b)
    ensures Filed(ReadLine(r, line).sections, s, b)
  {
    hide HeadingWord, BulletText, Continuation;
    var list, list' := BulletsOf(r.sections, s), BulletsOf(ReadLine(r, line).sections, s);
    var x :| x in list && StartsWith(x, b);
    var i :| 0 <= i < |list| && list[i] == x;
    assert i < |list'| && |x| <= |list'[i]| && list'[i][..|x|] == x;
    assert list'[i][..|b|] == x[..|b|];
    assert list'[i] in list';
  }

  lemma {:induction false} FiledToTheEnd(lines: seq<string>, i: nat, n: nat, s: Section, b: string)
    requires i <= n <= |lines| && Filed(Upto(lines, i).sections, s, b)
    ensures Filed(Upto(lines, n).sections, s, b)
    decreases n - i
  {
    hide Filed, ReadLine, Upto;
    if i < n {
      UptoNext(lines, i);
      FiledStays(Upto(lines, i), lines[i], s, b);
      FiledToTheEnd(lines, i + 1, n, s, b);
    }
  }

  lemma BulletIsNoHeading(line: string)
    ensures BulletText(line).Some? ==> HeadingWord(line).None?
  {
    if HeadingWord(line).Some? {
      assert line[..4][0] == line[0] && "### "[0] == '#';
      assert TrimStart(line) == line;
    }
  }

  lemma FiledBelow(lines: seq<string>, j: nat, i: nat, s: Section)
    requires WellSpaced(lines) && Heads(lines, j, i) && HeadingText(lines[j]) == Some(NameOf(s)) && BulletText(lines[i]).Some?
    ensures Filed(Upto(lines, |lines|).sections, s, BulletText(lines[i]).value)
  {
    hide HeadingText, HeadingWord, ReadLine, NameOf, BulletText, WellSpaced, Filed, Upto;
    SectionBelow(lines, j, i, s);
    BulletIsNoHeading(lines[i]);
    BulletIsFiled(Upto(lines, i), lines[i], s);
    UptoNext(lines, i);
    FiledToTheEnd(lines, i + 1, |lines|, s, BulletText(lines[i]).value);
  }

  lemma SectionsAreUpto(path: string, content: string)
    ensures ParseFragment(path, content).sections == Upto(Split(content), |Split(content)|).sections
  {
    hide ReadLines, Split, FindBump, UnknownIn;
    var lines := Split(content);
    assert lines[..|lines|] == lines;
  }

  lemma HeadingIsKnown(path: string, content: string, j: nat)
    requires ParseFragment(path, content).unknownHeadings == []
    requires j < |Split(content)| && HeadingText(Split(content)[j]).Some?
    ensures exists s :: HeadingText(Split(content)[j]) == Some(NameOf(s))
  {
    hide HeadingText, Split, ParseFragment, NameOf, Named;
    var h := HeadingText(Split(content)[j]).value;
    assert HasHeading(Split(content), h);
    UnknownHeadingsExactly(path, content, h);
    KnownIsNamed(h);
    assert HeadingText(Split(content)[j]) == Some(NameOf(Named(h).value));
  }

  /** Where a fragment has no unknown heading and each of its headings is well spaced, every bullet line below a
      heading is among the bullets of that heading's section, with whatever lines continue it. */
  lemma EveryBulletIsFiled(path: string, content: string, j: nat, i: nat)
    requires WellSpaced(Split(content)) && ParseFragment(path, content).unknownHeadings == []
    requires Heads(Split(content), j, i) && BulletText(Split(content)[i]).Some?
    ensures exists s :: HeadingText(Split(content)[j]) == Some(NameOf(s))
              && Filed(ParseFragment(path, content).sections, s, BulletText(Split(content)[i]).value)
  {
    hide HeadingText, Split, ParseFragment, NameOf, BulletText, WellSpaced, Filed, Upto;
    HeadingIsKnown(path, content, j);
    var s :| HeadingText(Split(content)[j]) == Some(NameOf(s));
    FiledBelow(Split(content), j, i, s);
    SectionsAreUpto(path, content);
  }
}
