/** What a changelog text's sections hold, bullet by bullet and in order, said from its lines (scripts/release/changelog.ts). */
module Bullets {
  import opened Text
  import opened Wrappers
  import opened Semver
  import opened Changelog
  import opened Release
  import opened Headings

  /** The last section line before line i names that section. */
  ghost predicate Names(lines: seq<string>, j: int, i: int, s: Section) {
    && 0 <= j < i <= |lines| && HeadingWord(lines[j]) == Some(NameOf(s))
    && forall k :: j < k < i ==> HeadingWord(lines[k]).None?
  }

  ghost predicate InSection(lines: seq<string>, i: int, s: Section) {
    exists j :: Names(lines, j, i, s)
  }

  ghost predicate BulletOf(lines: seq<string>, i: int, s: Section) {
    0 <= i < |lines| && InSection(lines, i, s) && BulletText(lines[i]).Some?
  }

  /** A line of the section that is neither a section line nor a bullet, indented: it continues the bullet above it. */
  ghost predicate ContinuationOf(lines: seq<string>, i: int, s: Section) {
    && 0 <= i < |lines| && InSection(lines, i, s)
    && HeadingWord(lines[i]).None? && BulletText(lines[i]).None? && Continuation(lines[i]).Some?
  }

  /** The lines, before line n, that are bullets of the section. */
  ghost function Starts(lines: seq<string>, n: nat, s: Section): seq<nat>
    requires n <= |lines|
  {
    if n == 0 then [] else Starts(lines, n - 1, s) + if BulletOf(lines, n - 1, s) then [n - 1] else []
  }

  /** All of them, and in order. */
  lemma {:induction false} StartsAreTheBullets(lines: seq<string>, n: nat, s: Section)
    requires n <= |lines|
    ensures forall i: nat :: i in Starts(lines, n, s) <==> i < n && BulletOf(lines, i, s)
    ensures forall k, l :: 0 <= k < l < |Starts(lines, n, s)| ==> Starts(lines, n, s)[k] < Starts(lines, n, s)[l]
  {
    hide BulletOf;
    if n > 0 {
      var before := Starts(lines, n - 1, s);
      StartsAreTheBullets(lines, n - 1, s);
      assert forall k :: 0 <= k < |before| ==> before[k] in before;
      forall i: nat ensures i in Starts(lines, n, s) <==> i < n && BulletOf(lines, i, s) {
        assert i in Starts(lines, n, s) <==> i in before || (i == n - 1 && BulletOf(lines, i, s));
      }
    }
  }

  /** The bullet on line i with everything up to line n that continues it, each after a space. */
  ghost function Whole(lines: seq<string>, i: nat, n: nat, s: Section): string
    requires i < n <= |lines| && BulletText(lines[i]).Some?
    decreases n
  {
    if n == i + 1 then BulletText(lines[i]).value
    else Whole(lines, i, n - 1, s) + if ContinuationOf(lines, n - 1, s) then " " + Continuation(lines[n - 1]).value else ""
  }

  /** Where the bullet begun at the k-th start ends: at the next, or at line n. */
  function EndOf(starts: seq<nat>, k: nat, n: nat): nat
    requires k < |starts|
  {
    if k + 1 < |starts| then starts[k + 1] else n
  }

  ghost predicate IsWhole(text: string, lines: seq<string>, i: nat, n: nat, s: Section) {
    i < n <= |lines| && BulletText(lines[i]).Some? && text == Whole(lines, i, n, s)
  }

  ghost predicate Holds(list: seq<string>, lines: seq<string>, n: nat, s: Section)
    requires n <= |lines|
  {
    var starts := Starts(lines, n, s);
    |list| == |starts| && forall k :: 0 <= k < |starts| ==> IsWhole(list[k], lines, starts[k], EndOf(starts, k, n), s)
  }

  lemma NameIsNamed(word: string, s: Section)
    ensures Named(word) == Some(s) <==> word == NameOf(s)
  {
  }

  lemma {:induction false} CurIs(lines: seq<string>, n: nat, s: Section)
    requires n <= |lines|
    ensures Upto(lines, n).cur == Some(s) <==> InSection(lines, n, s)
  {
    if n > 0 {
      var m := n - 1;
      CurIs(lines, m, s);
      UptoNext(lines, m);
      var word := HeadingWord(lines[m]);
      if word.Some? { NameIsNamed(word.value, s); }
      hide HeadingWord, BulletText, Continuation, NameOf, Named, Upto;
      if word.Some? {
        assert word.value == NameOf(s) ==> Names(lines, m, n, s);
      } else {
        assert forall j :: Names(lines, j, n, s) <==> Names(lines, j, m, s);
      }
    }
  }

  lemma BulletMeansNoWord(lines: seq<string>, i: int, s: Section)
    ensures BulletOf(lines, i, s) ==> HeadingWord(lines[i]).None? && !ContinuationOf(lines, i, s)
  {
    if BulletOf(lines, i, s) { BulletIsNoHeading(lines[i]); }
    hide HeadingWord, BulletText, Continuation, InSection;
  }

  /** What one line does to a section's list, by what kind of line it is. */
  lemma ListAfter(r: Reading, lines: seq<string>, n: nat, s: Section)
    requires n < |lines| && (r.cur == Some(s) <==> InSection(lines, n, s))
    ensures var list, list' := BulletsOf(r.sections, s), BulletsOf(ReadLine(r, lines[n]).sections, s);
      list' == if BulletOf(lines, n, s) then list + [BulletText(lines[n]).value]
               else if ContinuationOf(lines, n, s) && list != [] then
                 list[|list| - 1 := list[|list| - 1] + " " + Continuation(lines[n]).value]
               else list
  {
    BulletMeansNoWord(lines, n, s);
    hide HeadingWord, BulletText, Continuation, InSection, Named;
  }

  lemma StartsNext(lines: seq<string>, n: nat, s: Section)
    requires n < |lines|
    ensures Starts(lines, n + 1, s) == Starts(lines, n, s) + if BulletOf(lines, n, s) then [n] else []
  {
  }

  /** What a line that is no bullet adds to the entry above it. */
  ghost function More(lines: seq<string>, n: nat, s: Section): string
    requires n < |lines|
  {
    if ContinuationOf(lines, n, s) then " " + Continuation(lines[n]).value else ""
  }

  lemma WholeNext(text: string, lines: seq<string>, i: nat, n: nat, s: Section)
    requires n < |lines| && IsWhole(text, lines, i, n, s)
    ensures IsWhole(text + More(lines, n, s), lines, i, n + 1, s)
  {
  }

  lemma WholeAlone(lines: seq<string>, n: nat, s: Section)
    requires n < |lines| && BulletOf(lines, n, s)
    ensures IsWhole(BulletText(lines[n]).value, lines, n, n + 1, s)
  {
  }

  lemma NewBullet(list: seq<string>, lines: seq<string>, n: nat, s: Section)
    requires n < |lines| && Holds(list, lines, n, s) && BulletOf(lines, n, s)
    ensures Holds(list + [BulletText(lines[n]).value], lines, n + 1, s)
  {
    var starts, next := Starts(lines, n, s), n + 1;
    StartsNext(lines, n, s);
    WholeAlone(lines, n, s);
    hide BulletOf, BulletText, Starts, IsWhole;
    var starts', list' := Starts(lines, next, s), list + [BulletText(lines[n]).value];
    assert starts' == starts + [n];
    forall k | 0 <= k < |starts'| ensures IsWhole(list'[k], lines, starts'[k], EndOf(starts', k, next), s) {
      if k < |starts| {
        assert EndOf(starts', k, next) == EndOf(starts, k, n) && starts'[k] == starts[k] && list'[k] == list[k];
      } else {
        assert starts'[k] == n && EndOf(starts', k, next) == next;
      }
    }
  }

  function LastWith(list: seq<string>, more: string): seq<string> {
    if list == [] then list else list[|list| - 1 := list[|list| - 1] + more]
  }

  lemma NoNewBullet(list: seq<string>, lines: seq<string>, n: nat, s: Section)
    requires n < |lines| && Holds(list, lines, n, s) && !BulletOf(lines, n, s)
    ensures Holds(LastWith(list, More(lines, n, s)), lines, n + 1, s)
  {
    var starts, next, last := Starts(lines, n, s), n + 1, |list| - 1;
    StartsNext(lines, n, s);
    assert starts + [] == starts;
    hide BulletOf, BulletText, Starts, IsWhole, More;
    assert Starts(lines, next, s) == starts;
    if list != [] {
      assert IsWhole(list[last], lines, starts[last], EndOf(starts, last, n), s);
      WholeNext(list[last], lines, starts[last], n, s);
      assert forall k :: 0 <= k < last ==> EndOf(starts, k, next) == EndOf(starts, k, n);
    }
  }

  lemma SameOrMore(list: seq<string>, lines: seq<string>, n: nat, s: Section)
    requires n < |lines|
    ensures ContinuationOf(lines, n, s) ==> Continuation(lines[n]).Some?
    ensures LastWith(list, More(lines, n, s))
      == if ContinuationOf(lines, n, s) && list != [] then
           list[|list| - 1 := list[|list| - 1] + " " + Continuation(lines[n]).value]
         else list
  {
    hide HeadingWord, BulletText, InSection, Continuation;
    if list != [] {
      var x := list[|list| - 1];
      assert x + "" == x;
      if ContinuationOf(lines, n, s) { assert x + (" " + Continuation(lines[n]).value) == x + " " + Continuation(lines[n]).value; }
    }
  }

  lemma {:induction false} ListIs(lines: seq<string>, n: nat, s: Section)
    requires n <= |lines|
    ensures Holds(BulletsOf(Upto(lines, n).sections, s), lines, n, s)
  {
    if n > 0 {
      var m := n - 1;
      ListIs(lines, m, s);
      CurIs(lines, m, s);
      UptoNext(lines, m);
      ListAfter(Upto(lines, m), lines, m, s);
      hide Holds, Upto, BulletOf, ContinuationOf, InSection, LastWith, More, ReadLine, HeadingWord, BulletText, Continuation;
      if BulletOf(lines, m, s) {
        NewBullet(BulletsOf(Upto(lines, m).sections, s), lines, m, s);
      } else {
        SameOrMore(BulletsOf(Upto(lines, m).sections, s), lines, m, s);
        NoNewBullet(BulletsOf(Upto(lines, m).sections, s), lines, m, s);
      }
    }
  }

  /** A text's list for a section holds, in order, one entry for each bullet line under a line naming that section: the
      bullet's text and, each after a space, the texts that continue it before the section's next bullet. */
  lemma BulletsExactly(content: string, s: Section)
    ensures Holds(BulletsOf(ParseSections(content), s), Split(content), |Split(content)|, s)
  {
    hide Holds, Split, BulletsOf;
    SectionsAreUpto("", content);
    ListIs(Split(content), |Split(content)|, s);
  }

  ghost predicate HasBulletIn(lines: seq<string>, s: Section) {
    exists i :: BulletOf(lines, i, s)
  }

  ghost predicate HasBullets(lines: seq<string>) {
    exists s :: HasBulletIn(lines, s)
  }

  lemma SomeBullet(content: string, s: Section)
    ensures BulletsOf(ParseSections(content), s) != [] <==> HasBulletIn(Split(content), s)
  {
    hide BulletOf, Split, BulletsOf, ParseSections, Starts, IsWhole;
    var lines := Split(content);
    BulletsExactly(content, s);
    StartsAreTheBullets(lines, |lines|, s);
    var starts := Starts(lines, |lines|, s);
    if starts != [] { assert starts[0] in starts; }
    if i :| BulletOf(lines, i, s) {
      IndexIsInside(lines, i, s);
      assert i in starts;
    }
  }

  lemma IndexIsInside(lines: seq<string>, i: int, s: Section)
    ensures BulletOf(lines, i, s) ==> 0 <= i < |lines|
  {
    hide InSection;
  }

  lemma SomeSection(f: Fragment, lines: seq<string>)
    requires forall s :: BulletsOf(f.sections, s) != [] <==> HasBulletIn(lines, s)
    ensures HasContent(f) <==> HasBullets(lines)
    ensures HasBreaking(f) <==> HasBulletIn(lines, Breaking)
  {
    hide HasBulletIn;
    if HasContent(f) {
      var s :| s in f.sections && |f.sections[s]| > 0;
      assert BulletsOf(f.sections, s) != [];
    }
    if s :| HasBulletIn(lines, s) {
      assert BulletsOf(f.sections, s) != [];
      assert s in f.sections && |f.sections[s]| > 0;
    }
    assert HasBreaking(f) <==> BulletsOf(f.sections, Breaking) != [];
  }

  /** A fragment has content, and has breaking changes, exactly when it has a bullet line under a section's line, and
      under BREAKING's. */
  lemma ContentIsBulletLines(path: string, content: string)
    ensures HasContent(ParseFragment(path, content)) <==> HasBullets(Split(content))
    ensures HasBreaking(ParseFragment(path, content)) <==> HasBulletIn(Split(content), Breaking)
  {
    hide HasBullets, HasBulletIn, ParseSections, FindBump, UnknownIn, HasContent, HasBreaking, BulletsOf;
    forall s ensures BulletsOf(ParseSections(content), s) != [] <==> HasBulletIn(Split(content), s) {
      SomeBullet(content, s);
    }
    SomeSection(ParseFragment(path, content), Split(content));
  }

  /** What a released list was checked for, said from the files: each declares a level, has no misnamed heading, and
      declares a major change exactly when it has a bullet under BREAKING. */
  lemma ReleasedFilesAgree(base: Version, fs: seq<Fragment>, path: string, content: string)
    requires ComputeRelease(base, fs).Ok? && ParseFragment(path, content) in fs
    ensures var f := ParseFragment(path, content);
      && f.bump.Some? && f.unknownHeadings == []
      && (f.bump == Some(Major) <==> HasBulletIn(Split(content), Breaking))
  {
    hide HasBulletIn, Split, ParseFragment, ComputeRelease, HasBreaking, HasContent;
    RefusesExactly(base, fs);
    ContentIsBulletLines(path, content);
    var f := ParseFragment(path, content);
    assert Releasable(f) && !Misdeclared(f);
  }
}
