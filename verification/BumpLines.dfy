/** Exactly which bump a fragment declares: the first line that has the form the regular expression asks for (scripts/release/fragments.ts). */
module BumpLines {
  import opened Text
  import opened Wrappers
  import opened Semver
  import opened Release

  /** The text from position i is `bump:`, a level, and white space up to the end of a line or of the text. */
  ghost predicate Declares(s: string, i: int, kind: Bump, gap: string, space: string, tail: string) {
    && 0 <= i <= |s| && AllSpace(gap) && AllSpace(space) && (tail == [] || IsLineEnd(tail[0]))
    && s[i..] == "bump:" + gap + WordOf(kind) + space + tail
  }

  /** ... and i is where a line starts. */
  ghost predicate DeclaredAt(s: string, i: int, kind: Bump) {
    && 0 <= i <= |s| && (i > 0 ==> IsLineEnd(s[i - 1]))
    && exists gap, space, tail :: Declares(s, i, kind, gap, space, tail)
  }

  ghost predicate SpaceToTheEnd(s: string, space: string, tail: string) {
    AllSpace(space) && (tail == [] || IsLineEnd(tail[0])) && s == space + tail
  }

  lemma {:induction false} EndsLineExactly(s: string)
    ensures EndsLine(s) <==> exists space, tail :: SpaceToTheEnd(s, space, tail)
  {
    if s == [] || IsLineEnd(s[0]) {
      assert SpaceToTheEnd(s, [], s);
    } else {
      EndsLineExactly(s[1..]);
      hide IsSpace, IsLineEnd;
      if EndsLine(s) {
        var space, tail :| SpaceToTheEnd(s[1..], space, tail);
        assert SpaceToTheEnd(s, [s[0]] + space, tail);
      }
      if space, tail :| SpaceToTheEnd(s, space, tail) {
        assert space != [];
        assert SpaceToTheEnd(s[1..], space[1..], tail);
      }
    }
  }

  lemma WordIsOne(w: string, kind: Bump)
    ensures BumpWord(w) == Some(kind) <==> w == WordOf(kind)
    ensures |WordOf(kind)| == 5 && !IsSpace(WordOf(kind)[0])
  {
  }

  lemma BumpIsDeclared(s: string, i: nat, kind: Bump)
    requires i <= |s| && BumpAt(s, i) == Some(kind)
    ensures DeclaredAt(s, i, kind)
  {
    var t := s[i..];
    var after := t[5..];
    var rest := TrimStart(after);
    TrimStartShape(after);
    EndsLineExactly(rest[5..]);
    WordIsOne(rest[..5], kind);
    hide IsSpace, IsLineEnd, TrimStart, EndsLine, WordOf, AllSpace;
    var space, tail :| SpaceToTheEnd(rest[5..], space, tail);
    assert t == "bump:" + after;
    hide BumpAt;
    DeclaredByParts(s, i, kind, after, rest, space, tail);
  }

  lemma DeclaredByParts(s: string, i: nat, kind: Bump, after: string, rest: string, space: string, tail: string)
    requires i <= |s| && (i > 0 ==> IsLineEnd(s[i - 1])) && s[i..] == "bump:" + after
    requires 5 <= |rest| <= |after| && rest == after[|after| - |rest|..] && AllSpace(after[..|after| - |rest|])
    requires rest[..5] == WordOf(kind) && SpaceToTheEnd(rest[5..], space, tail)
    ensures DeclaredAt(s, i, kind)
  {
    hide IsSpace, IsLineEnd, WordOf, AllSpace;
    var gap := after[..|after| - |rest|];
    assert after == gap + rest && rest == rest[..5] + rest[5..];
    assert s[i..] == "bump:" + gap + rest[..5] + space + tail;
    assert Declares(s, i, kind, gap, space, tail);
  }

  lemma DeclaredIsRead(s: string, i: nat, kind: Bump)
    requires DeclaredAt(s, i, kind)
    ensures BumpAt(s, i) == Some(kind)
  {
    var gap, space, tail :| Declares(s, i, kind, gap, space, tail);
    var t, word := s[i..], WordOf(kind);
    var rest := word + (space + tail);
    WordIsOne(word, kind);
    hide IsSpace, IsLineEnd, WordOf;
    assert t == "bump:" + (gap + rest);
    assert t[..5] == "bump:" && t[5..] == gap + rest;
    GapGoes(gap, rest);
    assert rest[..5] == word && rest[5..] == space + tail;
    assert SpaceToTheEnd(rest[5..], space, tail);
    EndsLineExactly(rest[5..]);
    hide EndsLine, TrimStart;
  }

  /** The first position, from one on, where any level is declared. */
  ghost predicate FirstDeclared(s: string, from: int, i: int, kind: Bump) {
    from <= i <= |s| && DeclaredAt(s, i, kind) && forall j, other :: from <= j < i ==> !DeclaredAt(s, j, other)
  }

  lemma {:induction false} FindBumpExactly(s: string, from: nat, kind: Bump)
    requires from <= |s|
    ensures FindBump(s, from) == Some(kind) <==> exists i :: FirstDeclared(s, from, i, kind)
    decreases |s| - from
  {
    forall other: Bump ensures DeclaredAt(s, from, other) <==> BumpAt(s, from) == Some(other) {
      if BumpAt(s, from) == Some(other) { BumpIsDeclared(s, from, other); }
      if DeclaredAt(s, from, other) { DeclaredIsRead(s, from, other); }
    }
    hide DeclaredAt, BumpAt;
    if BumpAt(s, from).Some? {
      assert DeclaredAt(s, from, BumpAt(s, from).value);
      if FindBump(s, from) == Some(kind) { assert FirstDeclared(s, from, from, kind); }
    } else if from < |s| {
      var next := from + 1;
      FindBumpExactly(s, next, kind);
      if i :| FirstDeclared(s, from, i, kind) { assert FirstDeclared(s, next, i, kind); }
      if i :| FirstDeclared(s, next, i, kind) { assert FirstDeclared(s, from, i, kind); }
    }
  }

  /** A fragment declares a level exactly when the first place in it where a line starts with `bump:`, white space, a
      level, and white space to the end of a line names that level. */
  lemma BumpExactly(path: string, content: string, kind: Bump)
    ensures ParseFragment(path, content).bump == Some(kind) <==> exists i :: FirstDeclared(content, 0, i, kind)
  {
    hide FindBump, FirstDeclared;
    FindBumpExactly(content, 0, kind);
  }
}
