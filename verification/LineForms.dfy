/** Exactly which lines are headings, bullets and continuations: the shapes the changelog's regular expressions accept (scripts/release/changelog.ts). */
module LineForms {
  import opened Text
  import opened Wrappers
  import opened Changelog
  import opened Release

  /** `### `, a word, and white space at most after it. */
  lemma SectionLineExactly(line: string, word: string)
    ensures HeadingWord(line) == Some(word) <==>
            exists rest :: word != [] && AllWord(word) && AllSpace(rest) && line == "### " + word + rest
  {
    if HeadingWord(line) == Some(word) {
      var n := WordRun(line[4..]);
      WordRunHolds(line[4..]);
      var rest := line[4 + n..];
      assert line[..4] == "### " && line == line[..4] + line[4..4 + n] + rest;
      assert line[4..][..n] == line[4..4 + n];
    }
    if exists rest :: word != [] && AllWord(word) && AllSpace(rest) && line == "### " + word + rest {
      var rest :| word != [] && AllWord(word) && AllSpace(rest) && line == "### " + word + rest;
      assert line[..4] == "### " && line[4..] == word + rest;
      SpaceIsNoWord(rest);
      WordRunStops(word, rest);
      assert line[4..4 + |word|] == word && line[4 + |word|..] == rest;
    }
  }

  predicate AllWord(s: string) { forall i :: 0 <= i < |s| ==> IsWordChar(s[i]) }

  lemma {:induction false} WordRunHolds(s: string)
    ensures AllWord(s[..WordRun(s)])
  {
    if s != [] && IsWordChar(s[0]) {
      WordRunHolds(s[1..]);
      assert s[..WordRun(s)] == [s[0]] + s[1..][..WordRun(s[1..])];
    }
  }

  /** Three hashes, white space, and a one-line text with white space at most after it. */
  ghost predicate HeadingParts(line: string, h: string, gap: string, rest: string) {
    gap != [] && AllSpace(gap) && AllSpace(rest) && line == "###" + gap + h + rest
  }

  lemma HeadingLineExactly(line: string, h: string)
    requires Trimmed(h)
    ensures HeadingText(line) == Some(h) <==> OneLine(h) && exists gap, rest :: HeadingParts(line, h, gap, rest)
  {
    if HeadingText(line) == Some(h) { HeadingReads(line, h); }
    if OneLine(h) && exists gap, rest :: HeadingParts(line, h, gap, rest) {
      var gap, rest :| HeadingParts(line, h, gap, rest);
      HeadingIsRead(line, h, gap, rest);
    }
  }

  lemma HeadingIsRead(line: string, h: string, gap: string, rest: string)
    requires Trimmed(h) && OneLine(h) && HeadingParts(line, h, gap, rest)
    ensures HeadingText(line) == Some(h)
  {
    hide IsSpace, OneLine;
    assert line[..3] == "###" && line[3..] == gap + (h + rest) && line[3] == gap[0];
    GapGoes(gap, h + rest);
    TrimEndStops(h, rest);
    AllSpaceGoes(rest);
    assert h + [] == h;
  }

  /** A trimmed heading is what is left of the line when its hashes and the white space about it are gone. */
  lemma HeadingIsTrimmed(line: string, h: string)
    requires Trimmed(h) && HeadingText(line) == Some(h)
    ensures |line| > 3 && OneLine(h) && h == TrimEnd(TrimStart(line[3..])) && line[..3] == "###" && IsSpace(line[3])
  {
    hide OneLine, IsLineEnd, IsSpace, TrimEnd, TrimStart, LastPlain;
    AllTrimmedAway(line[3..]);
    LastPlainOfSpace(line[3..]);
  }

  lemma LastPlainOfSpace(s: string)
    ensures AllSpace(s) && LastPlain(s).Some? ==> IsSpace(LastPlain(s).value)
  {
    LastPlainIsPlain(s);
    hide IsSpace, LastPlain;
  }

  lemma HeadingReads(line: string, h: string)
    requires Trimmed(h) && HeadingText(line) == Some(h)
    ensures OneLine(h) && exists gap, rest :: HeadingParts(line, h, gap, rest)
  {
    hide OneLine, IsSpace, HeadingText, TrimStart, TrimEnd, AllSpace, HeadingParts;
    HeadingIsTrimmed(line, h);
    TrimStartShape(line[3..]);
    TrimEndShape(TrimStart(line[3..]));
    HeadingFromParts(line, TrimStart(line[3..]), h);
  }

  lemma HeadingFromParts(line: string, t: string, h: string)
    requires |line| > 3 && line[..3] == "###" && IsSpace(line[3]) && Trimmed(h) && |t| <= |line| - 3
    requires t == line[3..][|line| - 3 - |t|..] && AllSpace(line[3..][..|line| - 3 - |t|]) && h <= t && AllSpace(t[|h|..])
    ensures exists gap, rest :: HeadingParts(line, h, gap, rest)
  {
    hide IsSpace, AllSpace;
    var tail := line[3..];
    var gap, rest := tail[..|tail| - |t|], t[|h|..];
    assert line == line[..3] + tail && tail == gap + t && t == h + rest;
    assert tail[0] == line[3] && t[0] == h[0];
    assert gap != [];
    assert HeadingParts(line, h, gap, rest);
  }

  lemma {:induction false} LastPlainIsPlain(s: string)
    ensures LastPlain(s).Some? ==> exists i :: 0 < i < |s| && s[i] == LastPlain(s).value
    decreases |s|
  {
    if |s| > 1 && IsLineEnd(s[|s| - 1]) {
      LastPlainIsPlain(s[..|s| - 1]);
      if LastPlain(s).Some? {
        var i :| 0 < i < |s| - 1 && s[..|s| - 1][i] == LastPlain(s).value;
        assert s[i] == LastPlain(s).value;
      }
    }
  }

  /** What is trimmed to nothing was white space. */
  lemma AllTrimmedAway(s: string)
    ensures TrimEnd(TrimStart(s)) == [] ==> AllSpace(s)
  {
    TrimStartShape(s);
    TrimEndShape(TrimStart(s));
    var t := TrimStart(s);
    assert s == s[..|s| - |t|] + t;
    assert TrimEnd(t) == [] ==> t[0..] == t;
  }

  /** White space, `-` or `*`, a space, and the rest of the line. */
  lemma BulletLineExactly(line: string, b: string)
    ensures BulletText(line) == Some(b) <==>
            b != [] && OneLine(b) && exists gap, mark: char :: AllSpace(gap) && mark in {'-', '*'} && line == gap + [mark] + " " + b
  {
    hide OneLine;
    if BulletText(line) == Some(b) {
      TrimStartShape(line);
      var t := TrimStart(line);
      var gap := line[..|line| - |t|];
      assert t == [t[0]] + [t[1]] + t[2..] && line == gap + t;
      assert line == gap + [t[0]] + " " + b;
    }
    if b != [] && exists gap, mark: char :: AllSpace(gap) && mark in {'-', '*'} && line == gap + [mark] + " " + b {
      var gap, mark: char :| AllSpace(gap) && mark in {'-', '*'} && line == gap + [mark] + " " + b;
      var t := [mark] + " " + b;
      assert line == gap + t && !IsSpace(t[0]) && t[1] == ' ' && t[2..] == b;
      GapGoes(gap, t);
    }
  }

  /** White space, and at least one of it, and a one-line text: a line that continues the bullet above it. */
  lemma ContinuationExactly(line: string, more: string)
    ensures Continuation(line) == Some(more) <==>
            exists gap, text ::
              gap != [] && AllSpace(gap) && text != [] && !IsSpace(text[0]) && OneLine(text) && line == gap + text && more == TrimEnd(text)
  {
    hide OneLine;
    if Continuation(line) == Some(more) {
      TrimStartShape(line);
      var t := TrimStart(line);
      var gap := line[..|line| - |t|];
      assert line == gap + t && gap != [];
    }
    if exists gap, text ::
         gap != [] && AllSpace(gap) && text != [] && !IsSpace(text[0]) && OneLine(text) && line == gap + text && more == TrimEnd(text) {
      var gap, text :|
        gap != [] && AllSpace(gap) && text != [] && !IsSpace(text[0]) && OneLine(text) && line == gap + text && more == TrimEnd(text);
      GapGoes(gap, text);
    }
  }
}
