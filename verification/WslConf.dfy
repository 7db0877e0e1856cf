/** The idempotent editor of `/etc/wsl.conf` (scripts/wsl-host/wsl-conf.ts). */
module WslConf {
  import opened Text
  import opened Wrappers

  datatype Edit = Edit(content: string, changed: bool)

  /** What the file must say: `[boot] systemd=true`, and optionally `[user] default=<name>`. */
  datatype Desired = Desired(systemd: bool, defaultUser: Option<string>)

  // ---------- what a line says ----------

  /** Lower case for ASCII; no other character's lower case is a letter of the names looked for. */
  function Lower(s: string): string {
    if s == [] then [] else [if IsUpper(s[0]) then s[0] - 'A' + 'a' else s[0]] + Lower(s[1..])
  }

  /** `[name]`, with white space around it allowed. */
  function HeaderOf(line: string): Option<string> {
    var t := Trim(line);
    if |t| >= 3 && t[0] == '[' && t[|t| - 1] == ']' && ']' !in t[1..|t| - 1] then Some(Lower(t[1..|t| - 1])) else None
  }

  function IndexOfEquals(s: string): (i: nat)
    ensures i <= |s| && '=' !in s[..i] && (i < |s| ==> s[i] == '=')
  {
    if s == [] || s[0] == '=' then 0 else 1 + IndexOfEquals(s[1..])
  }

  /** The key of a `key=value` line; a comment, a header or anything else has none. */
  function KeyOf(line: string): Option<string> {
    var t := Trim(line);
    if HeaderOf(line).Some? || t == [] || t[0] in {'#', ';', '='} || IndexOfEquals(t) == |t| then None
    else Some(Lower(TrimEnd(t[..IndexOfEquals(t)])))
  }

  /** The section in force after some lines. */
  function SectionAfter(lines: seq<string>, section: Option<string>): Option<string> {
    if lines == [] then section
    else SectionAfter(lines[1..], if HeaderOf(lines[0]).Some? then HeaderOf(lines[0]) else section)
  }

  /** What the file says for a key of a section: the first line there with that key. */
  function Lookup(lines: seq<string>, section: Option<string>, s: string, k: string): Option<string> {
    if lines == [] then None
    else
      var here := if HeaderOf(lines[0]).Some? then HeaderOf(lines[0]) else section;
      if here == Some(s) && KeyOf(lines[0]) == Some(k) then Some(lines[0]) else Lookup(lines[1..], here, s, k)
  }

  function Says(content: string, s: string, k: string): Option<string> { Lookup(Split(content), None, s, k) }

  // ---------- upsertIniValue ----------

  /** The section of each line as the parser threads it through. */
  function SectionOf(lines: seq<string>, i: nat): Option<string>
    requires i < |lines|
  {
    SectionAfter(lines[..i + 1], None)
  }

  predicate Matches(lines: seq<string>, i: nat, s: string, k: string)
    requires i < |lines|
  {
    SectionOf(lines, i) == Some(s) && KeyOf(lines[i]) == Some(k)
  }

  function NextMatch(lines: seq<string>, i: nat, s: string, k: string): (j: nat)
    requires i <= |lines|
    ensures i <= j <= |lines|
    ensures j < |lines| ==> Matches(lines, j, s, k)
    decreases |lines| - i
  {
    if i == |lines| || Matches(lines, i, s, k) then i else NextMatch(lines, i + 1, s, k)
  }

  function NextHeader(lines: seq<string>, i: nat, s: string): (j: nat)
    requires i <= |lines|
    ensures i <= j <= |lines|
    ensures j < |lines| ==> HeaderOf(lines[j]) == Some(s)
    decreases |lines| - i
  {
    if i == |lines| || HeaderOf(lines[i]) == Some(s) then i else NextHeader(lines, i + 1, s)
  }

  function BlockEnd(lines: seq<string>, i: nat, s: string): (j: nat)
    requires i <= |lines|
    ensures i <= j <= |lines|
    ensures j < |lines| ==> SectionOf(lines, j) != Some(s)
    decreases |lines| - i
  {
    if i == |lines| || SectionOf(lines, i) != Some(s) then i else BlockEnd(lines, i + 1, s)
  }

  function DropBlank(lines: seq<string>): (kept: seq<string>)
    ensures kept <= lines && forall i :: |kept| <= i < |lines| ==> lines[i] == ""
  {
    if lines != [] && lines[|lines| - 1] == "" then DropBlank(lines[..|lines| - 1]) else lines
  }

  function UpsertLines(lines: seq<string>, s: string, k: string, line: string): seq<string> {
    var i := NextMatch(lines, 0, s, k);
    if i < |lines| then lines[i := line]
    else
      var h := NextHeader(lines, 0, s);
      if h < |lines| then
        var j := BlockEnd(lines, h + 1, s);
        lines[..j] + [line] + lines[j..]
      else
        var kept := DropBlank(lines);
        kept + (if kept == [] then [] else [""]) + ["[" + s + "]", line, ""]
  }

  function Upsert(content: string, s: string, k: string, value: string): Edit {
    var lines := Split(content);
    var line := k + "=" + value;
    var i := NextMatch(lines, 0, s, k);
    if i < |lines| && lines[i] == line then Edit(content, false)
    else Edit(Join(UpsertLines(lines, s, k, line)), true)
  }

  function Ensure(existing: string, desired: Desired): Edit {
    var boot := if desired.systemd then Upsert(existing, "boot", "systemd", "true") else Edit(existing, false);
    if desired.defaultUser.None? then boot
    else
      var user := Upsert(boot.content, "user", "default", desired.defaultUser.value);
      Edit(user.content, boot.changed || user.changed)
  }

  // ---------- looking up in parts ----------

  lemma {:induction false} SectionOfParts(a: seq<string>, b: seq<string>, section: Option<string>)
    ensures SectionAfter(a + b, section) == SectionAfter(b, SectionAfter(a, section))
  {
    if a == [] {
      assert a + b == b;
    } else {
      assert (a + b)[1..] == a[1..] + b;
      hide HeaderOf;
      SectionOfParts(a[1..], b, if HeaderOf(a[0]).Some? then HeaderOf(a[0]) else section);
    }
  }

  lemma {:induction false} LookupInParts(a: seq<string>, b: seq<string>, section: Option<string>, s: string, k: string)
    ensures Lookup(a + b, section, s, k) ==
            if Lookup(a, section, s, k).Some? then Lookup(a, section, s, k) else Lookup(b, SectionAfter(a, section), s, k)
  {
    if a == [] {
      assert a + b == b;
    } else {
      assert (a + b)[1..] == a[1..] + b;
      hide HeaderOf, KeyOf;
      LookupInParts(a[1..], b, if HeaderOf(a[0]).Some? then HeaderOf(a[0]) else section, s, k);
    }
  }

  /** One line between two parts. */
  lemma LookupAround(a: seq<string>, x: string, b: seq<string>, s: string, k: string)
    ensures var here := SectionAfter(a, None);
      Lookup(a + [x] + b, None, s, k) ==
      if Lookup(a, None, s, k).Some? then Lookup(a, None, s, k)
      else if Lookup([x], here, s, k).Some? then Some(x)
      else Lookup(b, SectionAfter([x], here), s, k)
  {
    LookupInParts(a + [x], b, None, s, k);
    LookupInParts(a, [x], None, s, k);
    SectionOfParts(a, [x], None);
    hide HeaderOf, KeyOf;
  }

  lemma {:induction false} NextMatchSkips(lines: seq<string>, i: nat, s: string, k: string)
    requires i <= |lines| && Lookup(lines[..i], None, s, k).None?
    ensures Lookup(lines[..NextMatch(lines, i, s, k)], None, s, k).None?
    decreases |lines| - i
  {
    if i < |lines| && !Matches(lines, i, s, k) {
      assert lines[..i + 1] == lines[..i] + [lines[i]];
      LookupInParts(lines[..i], [lines[i]], None, s, k);
      SectionOfParts(lines[..i], [lines[i]], None);
      hide HeaderOf, KeyOf;
      NextMatchSkips(lines, i + 1, s, k);
    }
  }

  lemma {:induction false} BlockEndStays(lines: seq<string>, i: nat, s: string)
    requires i <= |lines| && SectionAfter(lines[..i], None) == Some(s)
    ensures SectionAfter(lines[..BlockEnd(lines, i, s)], None) == Some(s)
    decreases |lines| - i
  {
    if i < |lines| && SectionOf(lines, i) == Some(s) { BlockEndStays(lines, i + 1, s); }
  }

  lemma {:induction false} BlankSaysNothing(lines: seq<string>, section: Option<string>, s: string, k: string)
    requires forall l :: l in lines ==> l == ""
    ensures Lookup(lines, section, s, k).None? && SectionAfter(lines, section) == section
  {
    if lines != [] {
      assert forall l :: l in lines[1..] ==> l in lines;
      assert lines[0] in lines;
      BlankSaysNothing(lines[1..], section, s, k);
    }
  }

  // ---------- one edit ----------

  /** The line written is read back as the key it was written for, and the header as its section. */
  ghost predicate ReadsBack(s: string, k: string, line: string) {
    && HeaderOf(line).None? && KeyOf(line) == Some(k) && HeaderOf("[" + s + "]") == Some(s)
    && '\n' !in line && '\n' !in s
  }

  /** The three ways an edit leaves the other lines alone: one matching line rewritten, one line added
      at the end of a block of the section, or the section added at the end, after dropping trailing blank lines. */
  ghost predicate Rewritten(lines: seq<string>, out: seq<string>, i: nat, s: string, k: string, line: string) {
    i < |lines| && Matches(lines, i, s, k) && out == lines[..i] + [line] + lines[i + 1..]
  }

  ghost predicate Inserted(lines: seq<string>, out: seq<string>, i: nat, s: string, line: string) {
    && 0 < i <= |lines| && SectionOf(lines, i - 1) == Some(s) && (i < |lines| ==> SectionOf(lines, i) != Some(s))
    && out == lines[..i] + [line] + lines[i..]
  }

  ghost predicate Appended(lines: seq<string>, out: seq<string>, s: string, line: string) {
    && DropBlank(lines) <= lines
    && out == DropBlank(lines) + (if DropBlank(lines) == [] then [] else [""]) + ["[" + s + "]", line, ""]
    && forall i :: 0 <= i < |lines| ==> HeaderOf(lines[i]) != Some(s)
  }

  lemma {:induction false} NoHeader(lines: seq<string>, i: nat, s: string)
    requires i <= |lines| && NextHeader(lines, i, s) == |lines|
    ensures forall j :: i <= j < |lines| ==> HeaderOf(lines[j]) != Some(s)
    decreases |lines| - i
  {
    hide HeaderOf;
    if i < |lines| { NoHeader(lines, i + 1, s); }
  }

  lemma OneOfThree(lines: seq<string>, s: string, k: string, line: string)
    ensures var out := UpsertLines(lines, s, k, line);
      && Lookup(lines[..NextMatch(lines, 0, s, k)], None, s, k).None?
      && (Rewritten(lines, out, NextMatch(lines, 0, s, k), s, k, line)
          || (Lookup(lines, None, s, k).None?
              && ((exists i: nat :: Inserted(lines, out, i, s, line)) || Appended(lines, out, s, line))))
  {
    var out := UpsertLines(lines, s, k, line);
    var i := NextMatch(lines, 0, s, k);
    assert lines[..0] == [];
    NextMatchSkips(lines, 0, s, k);
    hide HeaderOf, KeyOf, Lookup;
    if i < |lines| {
      assert out == lines[..i] + [line] + lines[i + 1..];
    } else {
      assert lines[..i] == lines;
      var h := NextHeader(lines, 0, s);
      if h < |lines| {
        assert lines[..h + 1] == lines[..h] + [lines[h]];
        SectionOfParts(lines[..h], [lines[h]], None);
        BlockEndStays(lines, h + 1, s);
        assert Inserted(lines, out, BlockEnd(lines, h + 1, s), s, line);
      } else {
        NoHeader(lines, 0, s);
      }
    }
  }

  /** After an edit the file says what was asked, and nothing else it says has changed. */
  lemma EditSays(lines: seq<string>, s: string, k: string, line: string, s': string, k': string)
    requires ReadsBack(s, k, line)
    ensures var out := UpsertLines(lines, s, k, line);
      Lookup(out, None, s', k') == if s' == s && k' == k then Some(line) else Lookup(lines, None, s', k')
  {
    OneOfThree(lines, s, k, line);
    var out := UpsertLines(lines, s, k, line);
    hide HeaderOf, KeyOf, DropBlank, NextMatch, UpsertLines;
    if i: nat :| Rewritten(lines, out, i, s, k, line) && Lookup(lines[..i], None, s, k).None? {
      RewriteSays(lines, out, i, s, k, line, s', k');
    } else if i: nat :| Inserted(lines, out, i, s, line) {
      InsertSays(lines, out, i, s, k, line, s', k');
    } else {
      AppendSays(lines, out, s, k, line, s', k');
    }
  }

  lemma RewriteSays(lines: seq<string>, out: seq<string>, i: nat, s: string, k: string, line: string, s': string, k': string)
    requires ReadsBack(s, k, line) && Rewritten(lines, out, i, s, k, line) && Lookup(lines[..i], None, s, k).None?
    ensures Lookup(out, None, s', k') == if s' == s && k' == k then Some(line) else Lookup(lines, None, s', k')
  {
    hide HeaderOf;
    var a, b := lines[..i], lines[i + 1..];
    assert lines == a + [lines[i]] + b && lines[..i + 1] == a + [lines[i]];
    SectionOfParts(a, [lines[i]], None);
    assert HeaderOf(lines[i]).None? && SectionAfter(a, None) == Some(s);
    LookupAround(a, line, b, s', k');
    LookupAround(a, lines[i], b, s', k');
  }

  lemma InsertSays(lines: seq<string>, out: seq<string>, i: nat, s: string, k: string, line: string, s': string, k': string)
    requires ReadsBack(s, k, line) && Inserted(lines, out, i, s, line) && Lookup(lines, None, s, k).None?
    ensures Lookup(out, None, s', k') == if s' == s && k' == k then Some(line) else Lookup(lines, None, s', k')
  {
    hide HeaderOf, KeyOf;
    var a, b := lines[..i], lines[i..];
    assert lines == a + b && lines[..i - 1 + 1] == a;
    LookupAround(a, line, b, s', k');
    LookupInParts(a, b, None, s', k');
    LookupInParts(a, b, None, s, k);
  }

  /** Trailing blank lines say nothing. */
  lemma KeptSaysTheSame(lines: seq<string>, s: string, k: string)
    ensures Lookup(lines, None, s, k) == Lookup(DropBlank(lines), None, s, k)
  {
    var kept := DropBlank(lines);
    var blank := lines[|kept|..];
    assert lines == kept + blank;
    assert forall l :: l in blank ==> l == "";
    LookupInParts(kept, blank, None, s, k);
    BlankSaysNothing(blank, SectionAfter(kept, None), s, k);
  }

  /** The header and the line, after a gap or none, say only the new key. */
  lemma TailSays(gap: seq<string>, section: Option<string>, s: string, k: string, line: string, s': string, k': string)
    requires ReadsBack(s, k, line) && (gap == [] || gap == [""])
    ensures Lookup(gap + ["[" + s + "]", line, ""], section, s', k') == if s' == s && k' == k then Some(line) else None
  {
    var header := "[" + s + "]";
    HeadersHaveNoKey(header);
    BlankSaysNothing(gap, section, s', k');
    BlankSaysNothing([""], Some(s), s', k');
    assert Lookup([header], section, s', k').None? && SectionAfter([header], section) == Some(s);
    assert Lookup([line], Some(s), s', k') == if s' == s && k' == k then Some(line) else None;
    assert SectionAfter([line], Some(s)) == Some(s);
    hide HeaderOf, KeyOf, Lookup, SectionAfter;
    LookupInParts(gap, [header, line, ""], section, s', k');
    LookupInParts([header], [line, ""], section, s', k');
    LookupInParts([line], [""], Some(s), s', k');
    assert [header] + [line, ""] == [header, line, ""] && [line] + [""] == [line, ""];
  }

  lemma AppendSays(lines: seq<string>, out: seq<string>, s: string, k: string, line: string, s': string, k': string)
    requires ReadsBack(s, k, line) && Appended(lines, out, s, line) && Lookup(lines, None, s, k).None?
    ensures Lookup(out, None, s', k') == if s' == s && k' == k then Some(line) else Lookup(lines, None, s', k')
  {
    var kept := DropBlank(lines);
    var gap := if kept == [] then [] else [""];
    var tail := gap + ["[" + s + "]", line, ""];
    KeptSaysTheSame(lines, s', k');
    TailSays(gap, SectionAfter(kept, None), s, k, line, s', k');
    assert out == kept + tail;
    hide ReadsBack, Lookup, DropBlank, SectionAfter;
    LookupInParts(kept, tail, None, s', k');
  }

  lemma HeadersHaveNoKey(line: string)
    ensures HeaderOf(line).Some? ==> KeyOf(line).None?
  {
  }

  // ---------- names the daemon writes ----------

  predicate Plain(name: string) {
    name != [] && forall i :: 0 <= i < |name| ==> 'a' <= name[i] <= 'z'
  }

  lemma {:induction false} PlainIsLower(name: string)
    requires forall i :: 0 <= i < |name| ==> 'a' <= name[i] <= 'z'
    ensures Lower(name) == name
  {
    if name != [] { PlainIsLower(name[1..]); }
  }

  lemma {:induction false} EqualsIsAt(name: string, rest: string)
    requires '=' !in name
    ensures IndexOfEquals(name + "=" + rest) == |name|
  {
    if name != [] {
      EqualsIsAt(name[1..], rest);
      assert (name + "=" + rest)[1..] == name[1..] + "=" + rest;
    }
  }

  lemma PlainHeader(s: string)
    requires Plain(s)
    ensures HeaderOf("[" + s + "]") == Some(s)
  {
    var h := "[" + s + "]";
    assert Trim(h) == h && h[1..|h| - 1] == s;
    PlainIsLower(s);
  }

  lemma PlainKey(k: string, v: string)
    requires Plain(k)
    ensures HeaderOf(k + "=" + v).None? && KeyOf(k + "=" + v) == Some(k)
  {
    var line := k + "=" + v;
    assert line[0] == k[0] && TrimStart(line) == line;
    TrimEndStops(k + "=", v);
    var t := k + "=" + TrimEnd(v);
    assert Trim(line) == t && t[0] == k[0];
    EqualsIsAt(k, TrimEnd(v));
    assert t[..|k|] == k && TrimEnd(k) == k;
    PlainIsLower(k);
  }

  /** Whatever the value, so long as it is one line, the line reads back as its key. */
  lemma PlainReadsBack(s: string, k: string, v: string)
    requires Plain(s) && Plain(k) && '\n' !in v
    ensures ReadsBack(s, k, k + "=" + v)
  {
    PlainHeader(s);
    PlainKey(k, v);
    hide HeaderOf, KeyOf;
  }

  // ---------- the edited text ----------

  lemma UpsertedAreLines(lines: seq<string>, s: string, k: string, line: string)
    requires AreLines(lines) && ReadsBack(s, k, line)
    ensures AreLines(UpsertLines(lines, s, k, line))
  {
    hide HeaderOf, KeyOf, NextMatch, NextHeader, BlockEnd;
    assert forall l :: l in DropBlank(lines) ==> l in lines;
    assert '\n' !in "[" + s + "]";
  }

  lemma LookupIsFirstMatch(lines: seq<string>, s: string, k: string)
    ensures var i := NextMatch(lines, 0, s, k);
      Lookup(lines, None, s, k) == if i < |lines| then Some(lines[i]) else None
  {
    var i := NextMatch(lines, 0, s, k);
    assert lines[..0] == [];
    NextMatchSkips(lines, 0, s, k);
    if i < |lines| {
      assert Matches(lines, i, s, k);
      HeadersHaveNoKey(lines[i]);
      hide HeaderOf, KeyOf, NextMatch;
      var a, b := lines[..i], lines[i + 1..];
      assert lines == a + [lines[i]] + b && lines[..i + 1] == a + [lines[i]];
      SectionOfParts(a, [lines[i]], None);
      LookupAround(a, lines[i], b, s, k);
    } else {
      assert lines[..i] == lines;
    }
  }

  /** One upsert: the text then says the wanted line for its key, every other key of every section says
      what it said, and the text is touched exactly when it did not already say so. */
  lemma UpsertSays(content: string, s: string, k: string, v: string)
    requires Plain(s) && Plain(k) && '\n' !in v
    ensures var r := Upsert(content, s, k, v);
      && Says(r.content, s, k) == Some(k + "=" + v)
      && (forall s', k' :: !(s' == s && k' == k) ==> Says(r.content, s', k') == Says(content, s', k'))
      && (r.changed <==> Says(content, s, k) != Some(k + "=" + v))
      && (!r.changed ==> r.content == content)
  {
    var lines := Split(content);
    var line := k + "=" + v;
    PlainReadsBack(s, k, v);
    LookupIsFirstMatch(lines, s, k);
    hide ReadsBack, Lookup, NextMatch, Plain;
    var r := Upsert(content, s, k, v);
    if r.changed {
      var out := UpsertLines(lines, s, k, line);
      UpsertedAreLines(lines, s, k, line);
      SplitJoin(out);
      hide UpsertLines, Split, Join;
      assert Split(r.content) == out;
      forall s', k'
        ensures Lookup(out, None, s', k') == if s' == s && k' == k then Some(line) else Lookup(lines, None, s', k')
      {
        EditSays(lines, s, k, line, s', k');
      }
      assert Says(r.content, s, k) == Some(line);
    }
  }

  /** What the file should say. */
  ghost predicate Wanted(content: string, desired: Desired) {
    && (desired.systemd ==> Says(content, "boot", "systemd") == Some("systemd=true"))
    && (desired.defaultUser.Some? ==> Says(content, "user", "default") == Some("default=" + desired.defaultUser.value))
  }

  predicate OneLineUser(desired: Desired) {
    desired.defaultUser.Some? ==> '\n' !in desired.defaultUser.value
  }

  /** After an edit both requested settings hold, the second edit not disturbing the first, and no other
      setting of the file has changed. */
  lemma EnsureWorks(existing: string, desired: Desired)
    requires OneLineUser(desired)
    ensures var r := Ensure(existing, desired);
      && Wanted(r.content, desired)
      && (r.changed <==> !Wanted(existing, desired))
      && (!r.changed ==> r.content == existing)
      && forall s, k :: !(desired.systemd && s == "boot" && k == "systemd")
                        && !(desired.defaultUser.Some? && s == "user" && k == "default") ==>
           Says(r.content, s, k) == Says(existing, s, k)
  {
    assert Plain("boot") && Plain("systemd") && Plain("user") && Plain("default");
    assert "systemd" + "=" + "true" == "systemd=true";
    assert "user" != "boot";
    hide Says, Upsert, Plain;
    var boot := if desired.systemd then Upsert(existing, "boot", "systemd", "true") else Edit(existing, false);
    if desired.systemd { UpsertSays(existing, "boot", "systemd", "true"); }
    if desired.defaultUser.Some? {
      var name := desired.defaultUser.value;
      assert "default" + "=" + name == "default=" + name;
      UpsertSays(boot.content, "user", "default", name);
    }
  }

  /** A second run reports no change and leaves the same bytes. */
  lemma EnsureIsIdempotent(existing: string, desired: Desired)
    requires OneLineUser(desired)
    ensures var once := Ensure(existing, desired);
      Ensure(once.content, desired) == Edit(once.content, false)
  {
    var once := Ensure(existing, desired);
    EnsureWorks(existing, desired);
    EnsureWorks(once.content, desired);
    hide Ensure, Wanted;
    assert !Ensure(once.content, desired).changed;
  }

  /** The other lines keep their content and order: one line is rewritten, or one is added at the end of
      its section's block, or, after the file's trailing blank lines, a new section with its line. */
  lemma OtherLinesStay(content: string, s: string, k: string, v: string)
    requires Plain(s) && Plain(k) && '\n' !in v && Upsert(content, s, k, v).changed
    ensures var lines, out, line := Split(content), Split(Upsert(content, s, k, v).content), k + "=" + v;
      (exists i: nat :: Rewritten(lines, out, i, s, k, line)) || (exists i: nat :: Inserted(lines, out, i, s, line))
      || Appended(lines, out, s, line)
  {
    var lines, line := Split(content), k + "=" + v;
    PlainReadsBack(s, k, v);
    UpsertedAreLines(lines, s, k, line);
    SplitJoin(UpsertLines(lines, s, k, line));
    OneOfThree(lines, s, k, line);
    hide UpsertLines, ReadsBack, Lookup, Plain, Split, Rewritten, Inserted, Appended;
  }

  // ---------- the code as written ----------

  datatype ParsedLine = ParsedLine(raw: string, section: Option<string>, key: Option<string>)

  /** `content.replace(/\n+$/, "")`. */
  function StripNewlines(s: string): string {
    if s != [] && s[|s| - 1] == '\n' then StripNewlines(s[..|s| - 1]) else s
  }

  lemma StripOneMore(s: string)
    ensures StripNewlines(s + "\n") == StripNewlines(s)
  {
    assert (s + "\n")[..|s|] == s;
  }

  lemma BlankIsDropped(before: seq<string>)
    ensures DropBlank(before + [""]) == DropBlank(before)
  {
    assert (before + [""])[..|before|] == before;
  }

  lemma LastLineStays(before: string, last: string)
    requires last != [] && '\n' !in last
    ensures StripNewlines(before + last) == before + last
  {
    assert last[|last| - 1] in last;
  }

  lemma {:induction false} StripDropsBlank(lines: seq<string>)
    requires AreLines(lines)
    ensures StripNewlines(Join(lines)) == Join(DropBlank(lines))
    ensures DropBlank(lines) != [] ==> Join(DropBlank(lines)) != ""
    decreases |lines|
  {
    var last := lines[|lines| - 1];
    var before := lines[..|lines| - 1];
    assert lines == before + [last] && last in lines;
    OneLineJoins(last);
    if before != [] { JoinParts(before, [last]); }
    if last != "" {
      LastLineStays(if before == [] then "" else Join(before) + "\n", last);
      hide Join, StripNewlines;
    } else {
      BlankIsDropped(before);
      if before == [] {
        assert lines == [""];
      } else {
        assert forall l :: l in before ==> l in lines;
        StripDropsBlank(before);
        StripOneMore(Join(before));
        hide Join, StripNewlines, DropBlank;
        assert Join(lines) == Join(before) + "\n";
      }
    }
  }

  lemma SectionText(h: string, line: string)
    ensures Join([h, line, ""]) == h + "\n" + line + "\n"
  {
    assert [h, line, ""][1..] == [line, ""] && [line, ""][1..] == [""];
    OneLineJoins("");
    assert Join([line, ""]) == line + "\n" + "";
  }

  lemma Regroup(end: string, sep: string, s: string, line: string)
    ensures end + sep + "[" + s + "]\n" + line + "\n" == end + sep + ("[" + s + "]" + "\n" + line + "\n")
  {
    assert "]\n" == "]" + "\n";
  }

  lemma AfterKept(kept: seq<string>, tail: seq<string>)
    requires kept != [] && tail != []
    ensures Join(kept + [""] + tail) == Join(kept) + "\n\n" + Join(tail)
  {
    JoinParts(kept, [""] + tail);
    JoinParts([""], tail);
    OneLineJoins("");
    hide Join;
    assert kept + [""] + tail == kept + ([""] + tail);
    assert "\n\n" == "\n" + "\n";
  }

  /** The text appended for a new section, as lines. */
  lemma AppendedText(content: string, s: string, line: string)
    ensures var kept, end := DropBlank(Split(content)), StripNewlines(content);
      end + (if |end| == 0 then "" else "\n\n") + "[" + s + "]\n" + line + "\n"
      == Join(kept + (if kept == [] then [] else [""]) + ["[" + s + "]", line, ""])
  {
    var kept, end := DropBlank(Split(content)), StripNewlines(content);
    var tail := ["[" + s + "]", line, ""];
    JoinSplit(content);
    StripDropsBlank(Split(content));
    OneLineJoins("");
    hide Join, StripNewlines, DropBlank, Split;
    SectionText("[" + s + "]", line);
    Regroup(end, if |end| == 0 then "" else "\n\n", s, line);
    if kept == [] {
      assert kept + [] + tail == tail;
    } else {
      AfterKept(kept, tail);
    }
  }

  /** `parse`: each line with its section and key. */
  method Parse(content: string) returns (parsed: seq<ParsedLine>)
    ensures var lines := Split(content);
      && |parsed| == |lines|
      && forall i :: 0 <= i < |lines| ==> parsed[i] == ParsedLine(lines[i], SectionOf(lines, i), KeyOf(lines[i]))
  {
    var lines := Split(content);
    parsed := [];
    var section: Option<string> := None;
    for i := 0 to |lines|
      invariant |parsed| == i && section == SectionAfter(lines[..i], None)
      invariant forall j :: 0 <= j < i ==> parsed[j] == ParsedLine(lines[j], SectionOf(lines, j), KeyOf(lines[j]))
    {
      assert lines[..i + 1] == lines[..i] + [lines[i]];
      SectionOfParts(lines[..i], [lines[i]], None);
      HeadersHaveNoKey(lines[i]);
      hide HeaderOf, KeyOf;
      if HeaderOf(lines[i]).Some? {
        section := HeaderOf(lines[i]);
        parsed := parsed + [ParsedLine(lines[i], section, None)];
      } else {
        parsed := parsed + [ParsedLine(lines[i], section, KeyOf(lines[i]))];
      }
    }
  }

  /** `upsertIniValue`, called with lower-case names only. */
  method UpsertIniValue(content: string, section: string, key: string, value: string) returns (r: Edit)
    requires Plain(section) && Plain(key)
    ensures r == Upsert(content, section, key, value)
  {
    hide HeaderOf, KeyOf, SectionAfter;
    ghost var all := Split(content);
    var parsed := Parse(content);
    var line := key + "=" + value;
    var i := 0;
    while i < |parsed| && !(parsed[i].section == Some(section) && parsed[i].key == Some(key))
      invariant 0 <= i <= |parsed| && NextMatch(all, 0, section, key) == NextMatch(all, i, section, key)
    {
      i := i + 1;
    }
    var out := Split(content);
    if i < |parsed| {
      if parsed[i].raw == line { return Edit(content, false); }
      out := out[i := line];
      return Edit(Join(out), true);
    }
    var h := 0;
    while h < |parsed| && HeaderOf(parsed[h].raw) != Some(section)
      invariant 0 <= h <= |parsed| && NextHeader(all, 0, section) == NextHeader(all, h, section)
    {
      h := h + 1;
    }
    if h < |parsed| {
      var insertAt := h + 1;
      while insertAt < |parsed| && parsed[insertAt].section == Some(section)
        invariant h < insertAt <= |parsed| && BlockEnd(all, h + 1, section) == BlockEnd(all, insertAt, section)
      {
        insertAt := insertAt + 1;
      }
      out := out[..insertAt] + [line] + out[insertAt..];
      return Edit(Join(out), true);
    }
    var trimmedEnd := StripNewlines(content);
    var sep := if |trimmedEnd| == 0 then "" else "\n\n";
    AppendedText(content, section, line);
    return Edit(trimmedEnd + sep + "[" + section + "]\n" + line + "\n", true);
  }

  /** `ensureWslConf`. */
  method EnsureWslConf(existing: string, desired: Desired) returns (r: Edit)
    ensures r == Ensure(existing, desired)
  {
    assert Plain("boot") && Plain("systemd") && Plain("user") && Plain("default");
    hide Upsert, Plain;
    var content, changed := existing, false;
    if desired.systemd {
      var e := UpsertIniValue(content, "boot", "systemd", "true");
      content, changed := e.content, changed || e.changed;
    }
    if desired.defaultUser.Some? {
      var e := UpsertIniValue(content, "user", "default", desired.defaultUser.value);
      content, changed := e.content, changed || e.changed;
    }
    r := Edit(content, changed);
  }
}
