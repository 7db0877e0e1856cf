/** Versions and bumps (scripts/release/semver.ts; Semantic Versioning 2.0.0, items 6 to 8 and 11). */
module Semver {
  import opened Text
  import opened Wrappers

  datatype Version = Version(major: nat, minor: nat, patch: nat)

  datatype Bump = Patch | Minor | Major {
    function Rank(): nat {
      match this case Patch => 0 case Minor => 1 case Major => 2
    }
  }

  /** One run of digits, and what follows it. */
  function Number(s: string): Option<(nat, string)> {
    var d := DigitRun(s);
    if d == 0 then None else Some((Value(s[..d]), s[d..]))
  }

  /** `/^(\d+)\.(\d+)\.(\d+)$/` on the trimmed text. */
  function Parse(v: string): Option<Version> {
    var major := Number(Trim(v));
    if major.None? || major.value.1 == [] || major.value.1[0] != '.' then None
    else
      var minor := Number(major.value.1[1..]);
      if minor.None? || minor.value.1 == [] || minor.value.1[0] != '.' then None
      else
        var patch := Number(minor.value.1[1..]);
        if patch.None? || patch.value.1 != [] then None
        else Some(Version(major.value.0, minor.value.0, patch.value.0))
  }

  function Fmt(v: Version): string {
    Decimal(v.major) + "." + Decimal(v.minor) + "." + Decimal(v.patch)
  }

  /** Negative, zero or positive, as `a.major - b.major || a.minor - b.minor || a.patch - b.patch`. */
  function Compare(a: Version, b: Version): int {
    if a.major != b.major then a.major - b.major
    else if a.minor != b.minor then a.minor - b.minor
    else a.patch - b.patch
  }

  function BumpKind(from: Version, to: Version): Option<Bump> {
    if to.major == from.major + 1 && to.minor == 0 && to.patch == 0 then Some(Major)
    else if to.major == from.major && to.minor == from.minor + 1 && to.patch == 0 then Some(Minor)
    else if to.major == from.major && to.minor == from.minor && to.patch == from.patch + 1 then Some(Patch)
    else None
  }

  function BumpVersion(from: Version, kind: Bump): Version {
    match kind
    case Major => Version(from.major + 1, 0, 0)
    case Minor => Version(from.major, from.minor + 1, 0)
    case Patch => Version(from.major, from.minor, from.patch + 1)
  }

  lemma NumberReads(n: nat, rest: string)
    requires rest == [] || !IsDigit(rest[0])
    ensures Number(Decimal(n) + rest) == Some((n, rest))
  {
    DecimalReads(n);
    DigitRunStops(Decimal(n), rest);
    var s := Decimal(n) + rest;
    assert s[..|Decimal(n)|] == Decimal(n) && s[|Decimal(n)|..] == rest;
  }

  lemma FmtIsTrimmed(v: Version)
    ensures Trim(Fmt(v)) == Fmt(v)
  {
    DecimalReads(v.major);
    DecimalReads(v.patch);
    hide Decimal;
    var s := Fmt(v);
    assert IsDigit(Decimal(v.major)[0]) && IsDigit(Decimal(v.patch)[|Decimal(v.patch)| - 1]);
    assert s[0] == Decimal(v.major)[0] && s[|s| - 1] == Decimal(v.patch)[|Decimal(v.patch)| - 1];
    TrimmedStays(s);
  }

  /** A version printed is read back as itself. */
  lemma FmtParses(v: Version)
    ensures Parse(Fmt(v)) == Some(v)
  {
    FmtIsTrimmed(v);
    hide Number, Decimal, Trim;
    var tail2 := "." + Decimal(v.patch);
    var tail1 := "." + (Decimal(v.minor) + tail2);
    assert Fmt(v) == Decimal(v.major) + tail1;
    hide Fmt;
    NumberReads(v.major, tail1);
    assert tail1[1..] == Decimal(v.minor) + tail2;
    NumberReads(v.minor, tail2);
    assert tail2[1..] == Decimal(v.patch) + "";
    NumberReads(v.patch, "");
  }

  predicate Numeral(s: string, n: nat) { s != [] && AllDigits(s) && Value(s) == n }

  lemma NumberIs(s: string, n: nat, rest: string)
    ensures Number(s) == Some((n, rest)) <==> exists x :: Numeral(x, n) && s == x + rest && (rest == [] || !IsDigit(rest[0]))
  {
    if Number(s) == Some((n, rest)) {
      DigitRunHolds(s);
      var x := s[..DigitRun(s)];
      assert s == x + rest && Numeral(x, n);
    }
    if exists x :: Numeral(x, n) && s == x + rest && (rest == [] || !IsDigit(rest[0])) {
      var x :| Numeral(x, n) && s == x + rest && (rest == [] || !IsDigit(rest[0]));
      DigitRunStops(x, rest);
      assert s[..|x|] == x && s[|x|..] == rest;
    }
  }

  /** Three numerals set off by points, white space about them. */
  ghost predicate VersionParts(text: string, v: Version, before: string, x: string, y: string, z: string, after: string) {
    && AllSpace(before) && AllSpace(after) && Numeral(x, v.major) && Numeral(y, v.minor) && Numeral(z, v.patch)
    && text == before + (x + "." + y + "." + z) + after
  }

  lemma VersionIsRead(text: string, v: Version, before: string, x: string, y: string, z: string, after: string)
    requires VersionParts(text, v, before, x, y, z, after)
    ensures Parse(text) == Some(v)
  {
    var t := x + "." + y + "." + z;
    assert t[0] == x[0] && t[|t| - 1] == z[|z| - 1] && IsDigit(x[0]) && IsDigit(z[|z| - 1]);
    AroundIsTrimmed(before, t, after);
    hide Number, Trim, Value, AllDigits;
    var tail2 := "." + z;
    var tail1 := "." + (y + tail2);
    assert t == x + tail1 && tail1[1..] == y + tail2 && tail2[1..] == z + "";
    NumberIs(t, v.major, tail1);
    NumberIs(y + tail2, v.minor, tail2);
    NumberIs(z + "", v.patch, "");
  }

  /** A text reads as a version exactly when it is three decimal numbers set off by points, with white space at most
      about them. */
  lemma ParsesExactly(text: string, v: Version)
    ensures Parse(text) == Some(v) <==> exists before, x, y, z, after :: VersionParts(text, v, before, x, y, z, after)
  {
    hide Number, Trim, Numeral, AllSpace;
    if Parse(text) == Some(v) {
      TrimParts(text);
      var t := Trim(text);
      var before, after :| AllSpace(before) && AllSpace(after) && text == before + t + after;
      var r1 := Number(t).value.1;
      var r2 := Number(r1[1..]).value.1;
      NumberIs(t, v.major, r1);
      NumberIs(r1[1..], v.minor, r2);
      NumberIs(r2[1..], v.patch, "");
      hide Parse;
      var x :| Numeral(x, v.major) && t == x + r1;
      var y :| Numeral(y, v.minor) && r1[1..] == y + r2;
      var z :| Numeral(z, v.patch) && r2[1..] == z + "";
      assert r1 == "." + r1[1..] && r2 == "." + r2[1..];
      assert t == x + "." + y + "." + z;
      assert VersionParts(text, v, before, x, y, z, after);
    }
    if exists before, x, y, z, after :: VersionParts(text, v, before, x, y, z, after) {
      var before, x, y, z, after :| VersionParts(text, v, before, x, y, z, after);
      VersionIsRead(text, v, before, x, y, z, after);
    }
  }

  /** The two directions of a bump: `bumpKind` recognises exactly what `bumpVersion` makes, and a bumped
      version takes precedence over its base. */
  lemma BumpsInvert(from: Version, to: Version, kind: Bump)
    ensures BumpKind(from, to) == Some(kind) <==> to == BumpVersion(from, kind)
    ensures Compare(BumpVersion(from, kind), from) > 0 && Compare(from, BumpVersion(from, kind)) < 0
  {
  }

  /** A larger bump of the same base takes precedence over a smaller one. */
  lemma LargerBumpIsLater(from: Version, a: Bump, b: Bump)
    requires a.Rank() < b.Rank()
    ensures Compare(BumpVersion(from, a), BumpVersion(from, b)) < 0
  {
  }

  /** A version that only a bump of that kind or a larger one makes: one whose later numbers start over. */
  predicate Opens(v: Version, kind: Bump) {
    match kind
    case Major => v.minor == 0 && v.patch == 0
    case Minor => v.patch == 0
    case Patch => true
  }

  /** A bump makes the first version after its base that opens a new major, minor or patch line. */
  lemma BumpIsTheNext(from: Version, kind: Bump, v: Version)
    ensures Opens(BumpVersion(from, kind), kind)
    ensures Opens(v, kind) && Compare(v, from) > 0 ==> Compare(BumpVersion(from, kind), v) <= 0
  {
  }

  /** `compare` is a total order on versions. */
  lemma CompareIsTotalOrder(a: Version, b: Version, c: Version)
    ensures Compare(a, b) == 0 <==> a == b
    ensures Compare(a, b) == -Compare(b, a)
    ensures Compare(a, b) <= 0 && Compare(b, c) <= 0 ==> Compare(a, c) <= 0
  {
  }
}
