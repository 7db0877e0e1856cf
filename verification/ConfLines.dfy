/** Exactly which lines of `/etc/wsl.conf` are section headers and which set a key (scripts/wsl-host/wsl-conf.ts). */
module ConfLines {
  import opened Text
  import opened Wrappers
  import opened WslConf

  /** The same text, its capital letters made small. */
  ghost predicate SmallOf(s: string, small: string) {
    && |small| == |s|
    && forall i :: 0 <= i < |s| ==> small[i] == if 'A' <= s[i] <= 'Z' then s[i] - 'A' + 'a' else s[i]
  }

  lemma {:induction false} LowerIsSmall(s: string, small: string)
    ensures Lower(s) == small <==> SmallOf(s, small)
  {
    if s != [] {
      LowerIsSmall(s[1..], Lower(s[1..]));
      assert SmallOf(s, Lower(s));
      if SmallOf(s, small) { assert small == Lower(s); }
    }
  }

  /** White space, a name in brackets, white space. */
  ghost predicate HeaderParts(line: string, before: string, name: string, after: string) {
    AllSpace(before) && AllSpace(after) && name != [] && ']' !in name && line == before + "[" + name + "]" + after
  }

  lemma HeaderIsRead(line: string, before: string, name: string, after: string)
    requires HeaderParts(line, before, name, after)
    ensures HeaderOf(line) == Some(Lower(name))
  {
    var t := "[" + name + "]";
    assert line == before + t + after;
    AroundIsTrimmed(before, t, after);
    assert t[1..|t| - 1] == name;
  }

  /** A line is the header of a section exactly when it holds the section's name in brackets, in letters of either case,
      and nothing else but white space about it. */
  lemma HeaderLineExactly(line: string, section: string)
    ensures HeaderOf(line) == Some(section) <==>
            exists before, name, after :: HeaderParts(line, before, name, after) && SmallOf(name, section)
  {
    hide IsSpace, AllSpace, Lower, SmallOf, Trim;
    if HeaderOf(line) == Some(section) {
      TrimParts(line);
      var t := Trim(line);
      var name := t[1..|t| - 1];
      assert t == "[" + name + "]";
      var before, after :| AllSpace(before) && AllSpace(after) && line == before + t + after;
      assert line == before + "[" + name + "]" + after;
      assert HeaderParts(line, before, name, after);
      LowerIsSmall(name, section);
    }
    if exists before, name, after :: HeaderParts(line, before, name, after) && SmallOf(name, section) {
      var before, name, after :| HeaderParts(line, before, name, after) && SmallOf(name, section);
      HeaderIsRead(line, before, name, after);
      LowerIsSmall(name, section);
    }
  }

  /** White space, a key that opens no comment, white space, the first equals sign, and anything. */
  ghost predicate KeyParts(line: string, before: string, key: string, gap: string, rest: string) {
    && AllSpace(before) && AllSpace(gap) && Trimmed(key) && key[0] !in {'#', ';'} && '=' !in key
    && line == before + key + gap + "=" + rest
  }

  lemma {:induction false} EqualsAt(a: string, b: string)
    requires '=' !in a
    ensures IndexOfEquals(a + "=" + b) == |a|
  {
    if a != [] {
      assert (a + "=" + b)[1..] == a[1..] + "=" + b;
      EqualsAt(a[1..], b);
    }
  }

  lemma SpaceIsNoEquals(gap: string)
    requires AllSpace(gap)
    ensures '=' !in gap
  {
  }

  lemma KeyIsRead(line: string, before: string, key: string, gap: string, rest: string)
    requires HeaderOf(line).None? && KeyParts(line, before, key, gap, rest)
    ensures KeyOf(line) == Some(Lower(key))
  {
    hide IsSpace, Lower, HeaderOf;
    var a := key + gap;
    assert line == before + (a + "=" + rest);
    GapGoes(before, a + "=" + rest);
    EqualsIsNoSpace();
    TrimEndStops(a + "=", rest);
    assert a + "=" + rest == (a + "=") + rest;
    var t := a + "=" + TrimEnd(rest);
    assert Trim(line) == t;
    SpaceIsNoEquals(gap);
    EqualsAt(a, TrimEnd(rest));
    assert t[..|a|] == a && t[0] == key[0];
    TrimEndStops(key, gap);
    AllSpaceGoes(gap);
    assert key + [] == key;
  }

  lemma EqualsIsNoSpace()
    ensures !IsSpace('=')
  {
  }

  lemma KeyHasParts(line: string, k: string)
    requires KeyOf(line) == Some(k)
    ensures exists before, key, gap, rest :: KeyParts(line, before, key, gap, rest) && SmallOf(key, k)
  {
    hide IsSpace, AllSpace, Lower, SmallOf, HeaderOf, Trim, TrimEnd;
    TrimParts(line);
    var t := Trim(line);
    var i := IndexOfEquals(t);
    var before, after :| AllSpace(before) && AllSpace(after) && line == before + t + after;
    var key := TrimEnd(t[..i]);
    TrimEndShape(t[..i]);
    TrimEndSolid(t[..i]);
    TrimEndKeeps(t[..i], 0);
    var gap, rest := t[..i][|key|..], t[i + 1..] + after;
    assert t == t[..i] + "=" + t[i + 1..] && t[..i] == key + gap;
    assert line == before + key + gap + "=" + rest;
    assert KeyParts(line, before, key, gap, rest);
    LowerIsSmall(key, k);
  }

  /** A line that is no header sets a key exactly when it holds the key, in letters of either case, and then the line's
      first equals sign, white space allowed before each, and does not open with a comment mark. */
  lemma KeyLineExactly(line: string, k: string)
    ensures KeyOf(line) == Some(k) <==>
            HeaderOf(line).None? && exists before, key, gap, rest :: KeyParts(line, before, key, gap, rest) && SmallOf(key, k)
  {
    hide IsSpace, AllSpace, Lower, SmallOf, Trim, TrimEnd, KeyParts, HeaderOf;
    if KeyOf(line) == Some(k) { KeyHasParts(line, k); }
    hide KeyOf;
    if HeaderOf(line).None? && exists before, key, gap, rest :: KeyParts(line, before, key, gap, rest) && SmallOf(key, k) {
      var before, key, gap, rest :| KeyParts(line, before, key, gap, rest) && SmallOf(key, k);
      KeyIsRead(line, before, key, gap, rest);
      LowerIsSmall(key, k);
    }
  }
}
