/**
 Changelog fragments, the release computed from them, and the gate every pull request passes first
 (scripts/release/fragments.ts, compute-release.ts and gate.ts).
 */
module Release {
  import opened Text
  import opened Wrappers
  import opened Semver
  import opened Changelog

  datatype Fragment = Fragment(path: string, bump: Option<Bump>, sections: Sections, unknownHeadings: seq<string>)

  // ---------- parseFragment ----------

  function BumpWord(word: string): Option<Bump> {
    if word == "major" then Some(Major)
    else if word == "minor" then Some(Minor)
    else if word == "patch" then Some(Patch)
    else None
  }

  /** `\s*$` at the end of a line. */
  predicate EndsLine(s: string) {
    s == [] || IsLineEnd(s[0]) || (IsSpace(s[0]) && EndsLine(s[1..]))
  }

  predicate LineStart(s: string, i: nat)
    requires i <= |s|
  {
    i == 0 || IsLineEnd(s[i - 1])
  }

  /** `/^bump:\s*(major|minor|patch)\s*$/m` at a position. */
  function BumpAt(s: string, i: nat): Option<Bump>
    requires i <= |s|
  {
    if !LineStart(s, i) || !StartsWith(s[i..], "bump:") then None
    else
      var rest := TrimStart(s[i..][5..]);
      if |rest| >= 5 && EndsLine(rest[5..]) then BumpWord(rest[..5]) else None
  }

  /** The first declaration found. */
  function FindBump(s: string, i: nat): Option<Bump>
    requires i <= |s|
    decreases |s| - i
  {
    if BumpAt(s, i).Some? then BumpAt(s, i) else if i == |s| then None else FindBump(s, i + 1)
  }

  /** The last character after the first that is not a line end. */
  function LastPlain(s: string): Option<char> {
    if |s| <= 1 then None
    else if !IsLineEnd(s[|s| - 1]) then Some(s[|s| - 1])
    else LastPlain(s[..|s| - 1])
  }

  /** `/^###\s+(.+?)\s*$/`: the heading's text. */
  function HeadingText(line: string): Option<string> {
    if !StartsWith(line, "###") || |line| == 3 || !IsSpace(line[3]) then None
    else
      var t := TrimEnd(TrimStart(line[3..]));
      if t != [] then (if OneLine(t) then Some(t) else None)
      else if LastPlain(line[3..]).Some? then Some([LastPlain(line[3..]).value])
      else None
  }

  /** The headings that are none of the known sections, each once. */
  function UnknownIn(lines: seq<string>): seq<string> {
    if lines == [] then []
    else
      var before := UnknownIn(lines[..|lines| - 1]);
      var h := HeadingText(lines[|lines| - 1]);
      if h.Some? && Named(h.value).None? && h.value !in before then before + [h.value] else before
  }

  function ParseFragment(path: string, content: string): Fragment {
    Fragment(path, FindBump(content, 0), ParseSections(content), UnknownIn(Split(content)))
  }

  function WordOf(b: Bump): string {
    match b case Major => "major" case Minor => "minor" case Patch => "patch"
  }

  /** A file that opens with its `bump: <level>` line declares that level, whatever follows. */
  lemma BumpLineIsRead(kind: Bump, path: string, body: string)
    ensures ParseFragment(path, "bump: " + WordOf(kind) + "\n" + body).bump == Some(kind)
  {
    var word := WordOf(kind);
    var content := "bump: " + word + "\n" + body;
    var after := " " + word + "\n" + body;
    assert content[0..] == content && content[..5] == "bump:" && content[5..] == after;
    assert after[1..] == word + "\n" + body;
    assert |word| == 5 && !IsSpace(word[0]);
    assert TrimStart(after) == after[1..];
    assert after[1..][..5] == word && after[1..][5..] == "\n" + body;
    assert BumpAt(content, 0) == Some(kind);
  }

  /** A fragment as some file reads. */
  ghost predicate FromFile(f: Fragment) {
    exists content :: f == ParseFragment(f.path, content)
  }

  predicate HasBreaking(f: Fragment) { |BulletsOf(f.sections, Breaking)| > 0 }

  predicate HasContent(f: Fragment) {
    exists s :: s in f.sections && |f.sections[s]| > 0
  }

  function HighestFrom(fs: seq<Fragment>, best: Option<Bump>): Option<Bump> {
    if fs == [] then best
    else
      var b := fs[0].bump;
      HighestFrom(fs[1..], if b.Some? && (best.None? || b.value.Rank() > best.value.Rank()) then b else best)
  }

  function HighestBump(fs: seq<Fragment>): Option<Bump> { HighestFrom(fs, None) }

  method HighestBumpLoop(fs: seq<Fragment>) returns (best: Option<Bump>)
    ensures best == HighestBump(fs)
  {
    best := None;
    for i := 0 to |fs|
      invariant HighestFrom(fs, None) == HighestFrom(fs[i..], best)
    {
      var b := fs[i].bump;
      if b.Some? && (best.None? || b.value.Rank() > best.value.Rank()) { best := b; }
      assert fs[i..][1..] == fs[i + 1..];
    }
  }

  function RankOf(b: Option<Bump>): int {
    if b.None? then -1 else b.value.Rank()
  }

  /** The highest bump is one that is declared, and none declared is higher. */
  lemma {:induction false} HighestIsMaximum(fs: seq<Fragment>, best: Option<Bump>)
    ensures var h := HighestFrom(fs, best);
      && (h == best || exists f :: f in fs && f.bump == h)
      && RankOf(best) <= RankOf(h)
      && forall f :: f in fs ==> RankOf(f.bump) <= RankOf(h)
  {
    if fs != [] {
      var b := fs[0].bump;
      var next := if b.Some? && (best.None? || b.value.Rank() > best.value.Rank()) then b else best;
      HighestIsMaximum(fs[1..], next);
      assert fs == [fs[0]] + fs[1..];
    }
  }

  lemma {:induction false} HighestInParts(a: seq<Fragment>, b: seq<Fragment>, best: Option<Bump>)
    ensures HighestFrom(a + b, best) == HighestFrom(b, HighestFrom(a, best))
  {
    if a == [] {
      assert a + b == b;
    } else {
      assert (a + b)[1..] == a[1..] + b;
      var c := a[0].bump;
      HighestInParts(a[1..], b, if c.Some? && (best.None? || c.value.Rank() > best.value.Rank()) then c else best);
    }
  }

  // ---------- computeRelease ----------

  datatype Published = Published(version: string, notes: string, consumed: seq<string>)

  datatype ReleaseError = NoBump(paths: seq<string>) | UnrecognisedHeadings(paths: seq<string>) | BreakingMismatch(paths: seq<string>)

  datatype Result = Ok(value: Option<Published>) | Err(error: ReleaseError)

  function Paths(fs: seq<Fragment>): seq<string> {
    seq(|fs|, i requires 0 <= i < |fs| => fs[i].path)
  }

  function SectionsOf(fs: seq<Fragment>): (ms: seq<Sections>)
    ensures |ms| == |fs| && forall i :: 0 <= i < |fs| ==> ms[i] == fs[i].sections
  {
    seq(|fs|, i requires 0 <= i < |fs| => fs[i].sections)
  }

  predicate Misdeclared(f: Fragment) { HasBreaking(f) != (f.bump == Some(Major)) }

  function Filter(fs: seq<Fragment>, bad: Fragment -> bool): (kept: seq<Fragment>)
    ensures forall f :: f in kept <==> f in fs && bad(f)
  {
    if fs == [] then []
    else
      assert fs == [fs[0]] + fs[1..];
      (if bad(fs[0]) then [fs[0]] else []) + Filter(fs[1..], bad)
  }

  function ComputeRelease(base: Version, fs: seq<Fragment>): Result {
    if fs == [] then Ok(None)
    else
      var invalid := Filter(fs, (f: Fragment) => f.bump.None?);
      var unrecognised := Filter(fs, (f: Fragment) => f.unknownHeadings != []);
      var mismatched := Filter(fs, (f: Fragment) => Misdeclared(f));
      if invalid != [] then Err(NoBump(Paths(invalid)))
      else if unrecognised != [] then Err(UnrecognisedHeadings(Paths(unrecognised)))
      else if mismatched != [] then Err(BreakingMismatch(Paths(mismatched)))
      else
        Ok(Some(Published(Fmt(BumpVersion(base, HighestBump(fs).GetOr(Patch))), CollateNotes(SectionsOf(fs)), Paths(fs))))
  }

  // ---------- the gate ----------

  datatype Surface = Surface(added: seq<string>, removed: seq<string>)

  /** `changelogVersions` and `baseChangelogVersions` are the versions of the changelog's entries. */
  datatype Facts = Facts(
    version: string, baseVersion: string, changedFiles: seq<string>,
    changelogVersions: seq<string>, baseChangelogVersions: seq<string>,
    schemaChanged: bool, newFragments: seq<Fragment>, surface: Option<Surface>)

  datatype GateResult = GateResult(required: bool, bump: Option<Bump>, verdicts: seq<bool>, ok: bool)

  predicate Gated(file: string) {
    StartsWith(file, "src/") || StartsWith(file, "schema/") || file == "package.json"
    || StartsWith(file, "briefs/") || StartsWith(file, "hooks/")
  }

  predicate RequiresRelease(files: seq<string>) {
    exists f :: f in files && Gated(f)
  }

  /** A release is required exactly by a change to the package file or to something under one of four directories. */
  lemma RequiredExactly(files: seq<string>)
    ensures RequiresRelease(files) <==>
            "package.json" in files || exists f, d :: f in files && d in {"src/", "schema/", "briefs/", "hooks/"} && StartsWith(f, d)
  {
    hide StartsWith;
    assert forall f :: Gated(f) <==> f == "package.json" || exists d :: d in {"src/", "schema/", "briefs/", "hooks/"} && StartsWith(f, d);
  }

  /** A fragment `computeRelease` accepts. */
  predicate Releasable(f: Fragment) {
    f.bump.Some? && f.unknownHeadings == [] && !Misdeclared(f)
  }

  function LeastBump(f: Facts): int {
    if f.surface.Some? && f.surface.value.removed != [] then 2
    else if f.schemaChanged || (f.surface.Some? && f.surface.value.added != []) then 1
    else 0
  }

  /** What passing means. A pull request that touches a gated file leaves the version and the changelog's
      headings alone and brings releasable fragments, with content, of a high enough bump. One that does
      not only has to leave the version alone and bring no unknown heading. */
  predicate Passes(f: Facts) {
    && (forall fr :: fr in f.newFragments ==> fr.unknownHeadings == [])
    && f.version == f.baseVersion
    && (RequiresRelease(f.changedFiles) ==>
          && (forall v :: v in f.changelogVersions ==> v in f.baseChangelogVersions)
          && f.newFragments != []
          && (forall fr :: fr in f.newFragments ==> Releasable(fr) && HasContent(fr))
          && RankOf(HighestBump(f.newFragments)) >= LeastBump(f))
  }

  predicate AllTrue(vs: seq<bool>) { forall i :: 0 <= i < |vs| ==> vs[i] }

  /** The headings verdicts. */
  method JudgeHeadings(fs: seq<Fragment>) returns (verdicts: seq<bool>)
    ensures AllTrue(verdicts) <==> forall fr :: fr in fs ==> fr.unknownHeadings == []
  {
    verdicts := [];
    for i := 0 to |fs|
      invariant AllTrue(verdicts) <==> forall fr :: fr in fs[..i] ==> fr.unknownHeadings == []
    {
      ghost var before := verdicts;
      verdicts := verdicts + [fs[i].unknownHeadings == []];
      assert AllTrue(verdicts) <==> AllTrue(before) && verdicts[|before|] by { MoreVerdicts(before, [fs[i].unknownHeadings == []]); }
      assert fs[..i + 1] == fs[..i] + [fs[i]];
    }
    assert fs[..|fs|] == fs;
  }

  lemma MoreVerdicts(a: seq<bool>, b: seq<bool>)
    ensures AllTrue(a + b) <==> AllTrue(a) && AllTrue(b)
    ensures |b| == 1 ==> (AllTrue(b) <==> b[0])
  {
    if AllTrue(a + b) {
      assert forall i :: 0 <= i < |a| ==> a[i] == (a + b)[i];
      assert forall i :: 0 <= i < |b| ==> b[i] == (a + b)[|a| + i];
    }
  }

  predicate FragmentFine(fr: Fragment) {
    fr.bump.Some? && HasContent(fr) && !Misdeclared(fr)
  }

  /** The verdicts on one fragment of a gated pull request. */
  method JudgeFragment(fr: Fragment) returns (verdicts: seq<bool>)
    ensures AllTrue(verdicts) <==> FragmentFine(fr)
  {
    hide HasContent, Misdeclared, AllTrue;
    verdicts := [fr.bump.Some?] + [HasContent(fr)];
    MoreVerdicts([fr.bump.Some?], [HasContent(fr)]);
    OneVerdict(fr.bump.Some?);
    if fr.bump.None? { return; }
    var breaking := HasBreaking(fr);
    var last := !(breaking && fr.bump != Some(Major)) && !(!breaking && fr.bump == Some(Major));
    assert last == !Misdeclared(fr) by { MisdeclaredMeans(fr); }
    MoreVerdicts(verdicts, [last]);
    verdicts := verdicts + [last];
  }

  lemma OneVerdict(v: bool)
    ensures AllTrue([v]) <==> v
  {
    assert [v][0] == v;
  }

  lemma MisdeclaredMeans(fr: Fragment)
    ensures Misdeclared(fr) <==> (HasBreaking(fr) <==> fr.bump != Some(Major))
  {
  }

  method JudgeFragments(fs: seq<Fragment>) returns (verdicts: seq<bool>)
    ensures AllTrue(verdicts) <==> forall fr :: fr in fs ==> FragmentFine(fr)
  {
    hide FragmentFine, AllTrue;
    verdicts := [];
    NoVerdicts();
    for i := 0 to |fs|
      invariant AllTrue(verdicts) <==> forall fr :: fr in fs[..i] ==> FragmentFine(fr)
    {
      var more := JudgeFragment(fs[i]);
      MoreVerdicts(verdicts, more);
      verdicts := verdicts + more;
      assert fs[..i + 1] == fs[..i] + [fs[i]];
    }
    assert fs[..|fs|] == fs;
  }

  lemma NoVerdicts()
    ensures AllTrue([])
  {
  }

  /** The verdicts on the schema and the public surface. */
  method JudgeDrift(f: Facts) returns (verdicts: seq<bool>)
    ensures f.newFragments != [] ==>
        (AllTrue(verdicts) <==> RankOf(HighestBump(f.newFragments)) >= LeastBump(f) || LeastBump(f) == 0)
  {
    verdicts := [];
    var highest := HighestBumpLoop(f.newFragments);
    hide HighestBump;
    if f.schemaChanged {
      verdicts := verdicts + [highest.Some? && highest != Some(Patch)];
    }
    NoVerdicts();
    ghost var schema := verdicts;
    assert AllTrue(schema) <==> (f.schemaChanged ==> RankOf(highest) >= 1) by {
      if f.schemaChanged { assert schema[0] == (RankOf(highest) >= 1); }
    }
    if f.surface.Some? && |f.newFragments| > 0 {
      if |f.surface.value.removed| > 0 {
        MoreVerdicts(verdicts, [highest == Some(Major)]);
        verdicts := verdicts + [highest == Some(Major)];
      } else if |f.surface.value.added| > 0 {
        MoreVerdicts(verdicts, [highest == Some(Minor) || highest == Some(Major)]);
        verdicts := verdicts + [highest == Some(Minor) || highest == Some(Major)];
      }
    }
  }

  /** `evaluate`: its verdict is `Passes`. */
  method Evaluate(f: Facts) returns (r: GateResult)
    ensures r.required == RequiresRelease(f.changedFiles)
    ensures r.bump == if r.required then HighestBump(f.newFragments) else None
    ensures r.ok == AllTrue(r.verdicts) && (r.ok <==> Passes(f))
  {
    hide AllTrue, HighestBump, RequiresRelease, Misdeclared, HasContent;
    var required := RequiresRelease(f.changedFiles);
    var verdicts := JudgeHeadings(f.newFragments);
    var versionSame := f.version == f.baseVersion;
    MoreVerdicts(verdicts, [versionSame]);
    verdicts := verdicts + [versionSame];
    if !required { return GateResult(required, None, verdicts, AllTrue(verdicts)); }
    var noHeading := forall v :: v in f.changelogVersions ==> v in f.baseChangelogVersions;
    MoreVerdicts(verdicts, [noHeading]);
    verdicts := verdicts + [noHeading];
    MoreVerdicts(verdicts, [|f.newFragments| > 0]);
    verdicts := verdicts + [|f.newFragments| > 0];
    var each := JudgeFragments(f.newFragments);
    MoreVerdicts(verdicts, each);
    verdicts := verdicts + each;
    var drift := JudgeDrift(f);
    MoreVerdicts(verdicts, drift);
    verdicts := verdicts + drift;
    var highest := HighestBumpLoop(f.newFragments);
    FineFragmentsDeclare(f.newFragments);
    r := GateResult(required, highest, verdicts, AllTrue(verdicts));
  }

  lemma FineFragmentsDeclare(fs: seq<Fragment>)
    ensures fs != [] && (forall fr :: fr in fs ==> FragmentFine(fr)) ==> RankOf(HighestBump(fs)) >= 0
  {
    HighestIsMaximum(fs, None);
    assert fs != [] ==> fs[0] in fs;
  }

  // ---------- the gate guarantees the release ----------

  function FragmentsOf(prs: seq<Facts>): seq<Fragment> {
    if prs == [] then [] else prs[0].newFragments + FragmentsOf(prs[1..])
  }

  /** The highest bump any of the pull requests declares. */
  function HighestOf(prs: seq<Facts>, best: Option<Bump>): Option<Bump> {
    if prs == [] then best
    else
      var b := HighestBump(prs[0].newFragments);
      HighestOf(prs[1..], if RankOf(b) > RankOf(best) then b else best)
  }

  /** `computeRelease` refuses exactly the lists with a fragment that is not releasable. */
  lemma RefusesExactly(base: Version, fs: seq<Fragment>)
    ensures ComputeRelease(base, fs).Ok? <==> forall f :: f in fs ==> Releasable(f)
  {
    hide Misdeclared;
    if fs != [] {
      var invalid := Filter(fs, (f: Fragment) => f.bump.None?);
      var unrecognised := Filter(fs, (f: Fragment) => f.unknownHeadings != []);
      var mismatched := Filter(fs, (f: Fragment) => Misdeclared(f));
      assert invalid != [] ==> invalid[0] in invalid;
      assert unrecognised != [] ==> unrecognised[0] in unrecognised;
      assert mismatched != [] ==> mismatched[0] in mismatched;
    }
  }

  lemma {:induction false} HighestOfAll(prs: seq<Facts>, best: Option<Bump>)
    ensures HighestFrom(FragmentsOf(prs), best) == HighestOf(prs, best)
  {
    if prs != [] {
      HighestInParts(prs[0].newFragments, FragmentsOf(prs[1..]), best);
      HighestStarts(prs[0].newFragments, best);
      hide HighestFrom;
      var b := HighestBump(prs[0].newFragments);
      HighestOfAll(prs[1..], if RankOf(b) > RankOf(best) then b else best);
    }
  }

  lemma {:induction false} HighestStarts(fs: seq<Fragment>, best: Option<Bump>)
    ensures var alone := HighestFrom(fs, None);
      HighestFrom(fs, best) == if RankOf(alone) > RankOf(best) then alone else best
    decreases |fs|
  {
    if fs != [] {
      var b := fs[0].bump;
      HighestStarts(fs[1..], b);
      HighestStarts(fs[1..], if b.Some? && (best.None? || b.value.Rank() > best.value.Rank()) then b else best);
      HighestStarts(fs[1..], None);
    }
  }

  lemma {:induction false} FragmentIsSomeones(prs: seq<Facts>)
    ensures forall f :: f in FragmentsOf(prs) ==> exists pr :: pr in prs && f in pr.newFragments
    ensures prs != [] && prs[0].newFragments != [] ==> FragmentsOf(prs) != []
  {
    if prs != [] {
      FragmentIsSomeones(prs[1..]);
      forall f | f in FragmentsOf(prs) ensures exists pr :: pr in prs && f in pr.newFragments {
        if f in prs[0].newFragments {
          assert prs[0] in prs;
        } else {
          assert f in FragmentsOf(prs[1..]);
          var pr :| pr in prs[1..] && f in pr.newFragments;
          assert pr in prs;
        }
      }
    }
  }

  /** The bump is at least what any pull request needed: major when one removed public surface. */
  lemma {:induction false} HighestReaches(prs: seq<Facts>, best: Option<Bump>)
    ensures RankOf(HighestOf(prs, best)) >= RankOf(best)
    ensures forall pr :: pr in prs ==> RankOf(HighestOf(prs, best)) >= RankOf(HighestBump(pr.newFragments))
  {
    hide HighestBump;
    if prs != [] {
      var b := HighestBump(prs[0].newFragments);
      HighestReaches(prs[1..], if RankOf(b) > RankOf(best) then b else best);
      assert prs == [prs[0]] + prs[1..];
    }
  }

  ghost predicate AllGated(prs: seq<Facts>) {
    prs != [] && forall pr :: pr in prs ==> RequiresRelease(pr.changedFiles) && Passes(pr)
  }

  lemma GatedAreReleasable(prs: seq<Facts>)
    requires AllGated(prs)
    ensures FragmentsOf(prs) != [] && forall f :: f in FragmentsOf(prs) ==> Releasable(f)
  {
    FragmentIsSomeones(prs);
    hide FragmentsOf, Releasable, HasContent, RequiresRelease, HighestBump;
    assert prs[0] in prs;
  }

  /** If every gated pull request passed, the release over all their fragments goes through: a version
      later than the base, bumped by exactly the highest level declared, which is at least what each
      needed, from every fragment. */
  lemma GateGuaranteesRelease(base: Version, prs: seq<Facts>)
    requires AllGated(prs)
    ensures var r := ComputeRelease(base, FragmentsOf(prs));
      && r.Ok? && r.value.Some? && HighestOf(prs, None).Some?
      && var to := Parse(r.value.value.version);
      && to.Some? && Compare(to.value, base) > 0
      && BumpKind(base, to.value) == HighestOf(prs, None)
      && r.value.value.consumed == Paths(FragmentsOf(prs))
    ensures forall pr :: pr in prs ==>
        RankOf(HighestOf(prs, None)) >= RankOf(HighestBump(pr.newFragments)) && RankOf(HighestOf(prs, None)) >= LeastBump(pr)
  {
    var fs := FragmentsOf(prs);
    GatedAreReleasable(prs);
    RefusesExactly(base, fs);
    HighestOfAll(prs, None);
    HighestReaches(prs, None);
    HighestIsMaximum(fs, None);
    assert fs[0] in fs && RankOf(fs[0].bump) >= 0;
    var kind := HighestOf(prs, None).value;
    var to := BumpVersion(base, kind);
    FmtParses(to);
    BumpsInvert(base, to, kind);
    hide Fmt, Parse, Releasable, FragmentsOf, HighestFrom, HighestOf, RequiresRelease, HasContent, Filter;
    assert forall pr :: pr in prs ==> Passes(pr);
  }

  /** Its notes read back as every fragment's bullets, once, under their section, in order. */
  lemma ReleaseNotesKeepEveryBullet(base: Version, prs: seq<Facts>)
    requires AllGated(prs) && forall pr, f :: pr in prs && f in pr.newFragments ==> FromFile(f)
    ensures var r := ComputeRelease(base, FragmentsOf(prs));
      && r.Ok? && r.value.Some?
      && forall s :: BulletsOf(ParseSections(r.value.value.notes), s) == Gather(SectionsOf(FragmentsOf(prs)), s)
  {
    var fs := FragmentsOf(prs);
    GateGuaranteesRelease(base, prs);
    FragmentIsSomeones(prs);
    var ms := SectionsOf(fs);
    hide AllGated, FragmentsOf, Parse, Fmt, ParseSections, Filter, HighestBump, HighestOf;
    forall m | m in ms ensures WellRead(m) {
      var i :| 0 <= i < |ms| && ms[i] == m;
      assert fs[i] in fs;
      FromFileIsWellRead(fs[i]);
    }
    NotesRoundTrip(ms);
  }

  lemma FromFileIsWellRead(f: Fragment)
    requires FromFile(f)
    ensures WellRead(f.sections)
  {
    var content :| f == ParseFragment(f.path, content);
    LinesKeepWellRead(Split(content), Reading(None, map[]));
  }

  // ---------- what the gate does not guarantee ----------

  /** A pull request that touches no gated file may pass and still stop the release: here one that only adds an
      empty fragment file. */
  lemma UngatedFragmentCanStopRelease(base: Version)
    ensures exists pr ::
      && Passes(pr) && !RequiresRelease(pr.changedFiles)
      && (forall f :: f in pr.newFragments ==> FromFile(f) && f.path in pr.changedFiles)
      && ComputeRelease(base, pr.newFragments).Err?
  {
    hide Gated, HasContent, ParseSections, FindBump, UnknownIn;
    var path := "changelog.d/A.md";
    var f := ParseFragment(path, "");
    assert f.path == path;
    EmptyFragment(path);
    var pr := Facts("1.0.0", "1.0.0", [path], [], [], false, [f], None);
    NoGatedFragment();
    RefusesExactly(base, [f]);
    hide ParseFragment, RequiresRelease;
    assert !RequiresRelease([path]) by { OnlyOne(path); }
    assert !Releasable(f) && f in [f] && FromFile(f);
    assert Passes(pr) && !RequiresRelease(pr.changedFiles);
  }

  lemma OnlyOne(path: string)
    ensures RequiresRelease([path]) <==> Gated(path)
  {
    hide Gated;
    assert path in [path];
  }

  lemma EmptyFragment(path: string)
    ensures ParseFragment(path, "").bump.None? && ParseFragment(path, "").unknownHeadings == []
  {
    hide ParseSections;
    assert HeadingText("").None? && Split("") == [""] && [""][..0] == [];
  }

  lemma NoGatedFragment()
    ensures !Gated("changelog.d/A.md")
  {
    var path := "changelog.d/A.md";
    StartsAlike(path, "src/");
    StartsAlike(path, "schema/");
    StartsAlike(path, "briefs/");
    StartsAlike(path, "hooks/");
    assert path[0] == 'c' && "package.json"[0] == 'p';
    assert "src/"[0] == 's' && "schema/"[0] == 's' && "briefs/"[0] == 'b' && "hooks/"[0] == 'h';
    assert path != "package.json";
  }

  lemma StartsAlike(file: string, t: string)
    requires file != [] && t != []
    ensures StartsWith(file, t) ==> file[0] == t[0]
  {
    assert |t| <= |file| ==> file[..|t|][0] == file[0];
  }

  /** Over pull requests that passed, gated or not, the release goes through exactly when every fragment of an
      ungated one declares a bump, and major if and only if it has a breaking section. */
  lemma PassedPullRequestsRelease(base: Version, prs: seq<Facts>)
    requires forall pr :: pr in prs ==> Passes(pr)
    ensures ComputeRelease(base, FragmentsOf(prs)).Ok? <==>
            forall pr, f :: pr in prs && !RequiresRelease(pr.changedFiles) && f in pr.newFragments ==> f.bump.Some? && !Misdeclared(f)
  {
    RefusesExactly(base, FragmentsOf(prs));
    FragmentIsSomeones(prs);
    hide ComputeRelease, FragmentsOf, Misdeclared, RequiresRelease, HasContent, HighestBump;
    forall pr, f | pr in prs && f in pr.newFragments ensures f in FragmentsOf(prs) {
      SomeonesFragmentIsThere(prs, pr, f);
    }
    forall f | f in FragmentsOf(prs)
      ensures exists pr ::
        && pr in prs && f in pr.newFragments
        && (Releasable(f) <==> RequiresRelease(pr.changedFiles) || (f.bump.Some? && !Misdeclared(f)))
    {
      var pr :| pr in prs && f in pr.newFragments;
      assert Passes(pr);
    }
  }

  lemma {:induction false} SomeonesFragmentIsThere(prs: seq<Facts>, pr: Facts, f: Fragment)
    requires pr in prs && f in pr.newFragments
    ensures f in FragmentsOf(prs)
  {
    if pr != prs[0] {
      assert prs == [prs[0]] + prs[1..];
      SomeonesFragmentIsThere(prs[1..], pr, f);
    }
  }

  lemma NameIsAWord(s: Section)
    ensures |NameOf(s)| > 1 && forall i :: 0 <= i < |NameOf(s)| ==> IsWordChar(NameOf(s)[i])
  {
  }

  lemma KnownHeadingShape(line: string, s: Section)
    requires HeadingText(line) == Some(NameOf(s))
    ensures |line| > 4 && line[..3] == "###" && IsSpace(line[3])
    ensures TrimEnd(TrimStart(line[4..])) == NameOf(s)
  {
    NameIsAWord(s);
    hide NameOf, IsSpace;
    assert line[3..][0] == line[3] && line[3..][1..] == line[4..];
    TrimStartShortens(line[4..]);
    TrimEndShape(TrimStart(line[3..]));
  }

  /** A word, after exactly one space, is read. */
  lemma SpacedHeadingIsRead(line: string, name: string)
    requires |line| > 4 && line[..3] == "###" && line[3] == ' ' && !IsSpace(line[4])
    requires TrimEnd(line[4..]) == name && name != [] && forall i :: 0 <= i < |name| ==> IsWordChar(name[i])
    ensures HeadingWord(line) == Some(name)
  {
    var t := line[4..];
    TrimEndShape(t);
    hide IsSpace;
    assert t == name + t[|name|..];
    assert |t| > |name| ==> IsSpace(t[|name|..][0]);
    SpaceIsNoWord(t[|name|..]);
    WordRunStops(name, t[|name|..]);
    assert line[..4] == "### ";
    assert line[4..4 + |name|] == name && line[4 + |name|..] == t[|name|..];
  }

  lemma SpaceIsNoWord(b: string)
    requires AllSpace(b)
    ensures b == [] || !IsWordChar(b[0])
  {
  }

  /** A heading the headings check knows is also read as a section exactly when one space, and nothing
      more, separates it from its hashes; otherwise it goes unread without being reported. */
  lemma KnownHeadingIsRead(line: string, s: Section)
    requires HeadingText(line) == Some(NameOf(s))
    ensures |line| > 4
    ensures HeadingWord(line) == Some(NameOf(s)) <==> line[3] == ' ' && !IsSpace(line[4])
  {
    KnownHeadingShape(line, s);
    NameIsAWord(s);
    hide NameOf, HeadingText;
    if line[3] == ' ' && !IsSpace(line[4]) {
      SpacedHeadingIsRead(line, NameOf(s));
    } else {
      WordFollowsSpace(line);
    }
  }

  lemma WordFollowsSpace(line: string)
    ensures HeadingWord(line).Some? ==> |line| > 4 && line[3] == ' ' && !IsSpace(line[4])
  {
    if HeadingWord(line).Some? {
      assert line[..4][3] == line[3] && line[4..][0] == line[4];
      assert IsWordChar(line[4]);
    }
  }

  lemma {:induction false} WordRunStops(a: string, b: string)
    requires (forall i :: 0 <= i < |a| ==> IsWordChar(a[i])) && (b == [] || !IsWordChar(b[0]))
    ensures WordRun(a + b) == |a|
  {
    if a == [] {
      assert a + b == b;
    } else {
      assert (a + b)[1..] == a[1..] + b;
      WordRunStops(a[1..], b);
    }
  }

  // ---------- a heading that is known and yet unread ----------

  /** A fragment whose second heading has two spaces. */
  function TwoSpaces(): seq<string> { ["bump: patch", "### Added", "- a", "###  Fixed", "- b"] }

  lemma TwoSpacesAreLines()
    ensures AreLines(TwoSpaces())
  {
    assert '\n' !in "bump: patch" && '\n' !in "### Added" && '\n' !in "- a" && '\n' !in "###  Fixed" && '\n' !in "- b";
  }

  lemma AddedIsAHeading()
    ensures HeadingText("### Added") == Some("Added")
  {
    assert "### Added"[..3] == "###" && "### Added"[3..] == " Added" && " Added"[1..] == "Added";
    assert TrimEnd("Added") == "Added";
  }

  lemma FixedIsAHeading()
    ensures HeadingText("###  Fixed") == Some("Fixed")
  {
    assert "###  Fixed"[..3] == "###" && "###  Fixed"[3..] == "  Fixed" && "  Fixed"[1..] == " Fixed" && " Fixed"[1..] == "Fixed";
    assert TrimEnd("Fixed") == "Fixed";
  }

  lemma NoHeadings()
    ensures HeadingText("bump: patch").None? && HeadingText("- a").None? && HeadingText("- b").None?
  {
    NoHash("bump: patch");
    NoHash("- a");
    NoHash("- b");
  }

  lemma NoHash(line: string)
    requires line != [] && line[0] != '#'
    ensures HeadingText(line).None?
  {
    assert |line| >= 3 ==> line[..3][0] == line[0] && "###"[0] == '#';
    hide TrimEnd, TrimStart;
  }

  lemma OtherLinesRead(r: Reading)
    ensures r.cur.None? ==> ReadLine(r, "bump: patch") == r
    ensures ReadLine(r, "###  Fixed") == r
  {
    var first, second := "bump: patch", "###  Fixed";
    assert first[..4][0] == 'b' && "### "[0] == '#';
    assert second[..4] == "### " && second[4..][0] == ' ' && TrimStart(second) == second;
  }

  lemma TwoSpacesRead()
    ensures ReadLines(TwoSpaces(), Reading(None, map[])).sections == map[Added := ["a", "b"]]
  {
    hide ReadLine, ReadLines;
    var start := Reading(None, map[]);
    var under := Reading(Some(Added), map[]);
    var one := Reading(Some(Added), map[Added := ["a"]]);
    var two := Reading(Some(Added), map[Added := ["a", "b"]]);
    OtherLinesRead(start);
    HeadingReadsBack(start, Added);
    BulletReadsBack(under, "a");
    OtherLinesRead(one);
    BulletReadsBack(one, "b");
    assert "### " + NameOf(Added) == "### Added" && "- " + "a" == "- a" && "- " + "b" == "- b";
    assert [] + ["a"] == ["a"] && ["a"] + ["b"] == ["a", "b"];
    FiveLines("bump: patch", "### Added", "- a", "###  Fixed", "- b", start);
  }

  lemma FiveLines(a: string, b: string, c: string, d: string, e: string, r: Reading)
    ensures ReadLines([a, b, c, d, e], r) == ReadLine(ReadLine(ReadLine(ReadLine(ReadLine(r, a), b), c), d), e)
  {
    hide ReadLine;
    assert [a, b, c, d, e][1..] == [b, c, d, e] && [b, c, d, e][1..] == [c, d, e] && [c, d, e][1..] == [d, e] && [d, e][1..] == [e];
    assert [e][1..] == [];
    var r1, r2, r3 := ReadLine(r, a), ReadLine(ReadLine(r, a), b), ReadLine(ReadLine(ReadLine(r, a), b), c);
    assert ReadLines([d, e], r3) == ReadLines([e], ReadLine(r3, d));
    assert ReadLines([c, d, e], r2) == ReadLines([d, e], r3);
  }

  lemma NothingUnknown(a: string, b: string, c: string, d: string, e: string)
    requires forall l :: l in [a, b, c, d, e] && HeadingText(l).Some? ==> Named(HeadingText(l).value).Some?
    ensures UnknownIn([a, b, c, d, e]) == []
  {
    hide HeadingText, Named;
    assert [a, b, c, d, e][..4] == [a, b, c, d] && [a, b, c, d][..3] == [a, b, c] && [a, b, c][..2] == [a, b] && [a, b][..1] == [a];
    assert [a][..0] == [];
    assert UnknownIn([a]) == [] && UnknownIn([a, b]) == [] && UnknownIn([a, b, c]) == [];
  }

  lemma TwoSpacesParsed(path: string)
    ensures ParseFragment(path, Join(TwoSpaces())) == Fragment(path, Some(Patch), map[Added := ["a", "b"]], [])
  {
    hide ReadLines, Split, UnknownIn, FindBump, HeadingText;
    var lines := TwoSpaces();
    TwoSpacesAreLines();
    SplitJoin(lines);
    TwoSpacesRead();
    AddedIsAHeading();
    FixedIsAHeading();
    NoHeadings();
    NothingUnknown("bump: patch", "### Added", "- a", "###  Fixed", "- b");
    BumpLineIsRead(Patch, path, Join(lines[1..]));
    assert "bump: " + WordOf(Patch) == "bump: patch";
  }

  /** No unknown heading is reported in that fragment, and the bullet under the second one is filed under the
      first: a gated pull request that brings it passes. */
  lemma UnreadHeadingMisfilesItsBullets(path: string)
    ensures var f := ParseFragment(path, Join(TwoSpaces()));
      && f.unknownHeadings == [] && f.bump == Some(Patch) && f.sections == map[Added := ["a", "b"]]
      && Passes(Facts("1.0.0", "1.0.0", ["src/a.ts", path], [], [], false, [f], None))
  {
    hide ParseFragment, Join, TwoSpaces, RequiresRelease;
    TwoSpacesParsed(path);
    var f := ParseFragment(path, Join(TwoSpaces()));
    assert Added in f.sections && f.sections[Added] == ["a", "b"];
    HighestOfOne(f);
  }

  lemma HighestOfOne(f: Fragment)
    ensures HighestBump([f]) == f.bump
  {
    assert [f][1..] == [];
    assert HighestFrom([f], None) == HighestFrom([], f.bump);
  }
}
