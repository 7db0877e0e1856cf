/**
 Directives: the `ANSWER ...` replies the daemon asks for and the parser that reads them back
 (src/agents/escalate.ts).
 */
module Directives {
  import opened Text
  import opened Wrappers

  const MARKER := "[butchr:blocked]"

  type Fingerprint = string

  datatype Directive =
    | OptionDirective(n: nat, fp: Option<Fingerprint>)
    | TextDirective(text: string, fp: Option<Fingerprint>)

  /** Eight lower-case hex digits. */
  predicate IsFingerprint(s: string) {
    |s| == 8 && forall i :: 0 <= i < 8 ==> IsHex(s[i])
  }

  // ---------- the parser ----------

  /** The length of a leading `[KEY-123]`, or 0 when there is none. */
  function TagLength(s: string): nat
    ensures TagLength(s) <= |s|
  {
    if s == [] || s[0] != '[' then 0
    else
      var letters := UpperRun(s[1..]);
      if letters == 0 || 1 + letters >= |s| || s[1 + letters] != '-' then 0
      else
        var digits := DigitRun(s[2 + letters..]);
        if digits == 0 || 2 + letters + digits >= |s| || s[2 + letters + digits] != ']' then 0
        else 3 + letters + digits
  }

  /** A leading tag and the white space after it removed. */
  function StripTag(s: string): string {
    if TagLength(s) == 0 then s else TrimStart(s[TagLength(s)..])
  }

  function FirstLine(s: string): string {
    if s == [] || s[0] == '\n' then [] else [s[0]] + FirstLine(s[1..])
  }

  lemma FirstLineIsPrefix(s: string)
    ensures |FirstLine(s)| <= |s| && s[..|FirstLine(s)|] == FirstLine(s)
    ensures |FirstLine(s)| < |s| ==> s[|FirstLine(s)|] == '\n'
  {
  }

  /** The first line that, trimmed, starts with `ANSWER `. */
  function AnswerLine(s: string): (found: Option<string>)
    ensures found.Some? ==> StartsWith(found.value, "ANSWER ")
    decreases |s|
  {
    var line := FirstLine(s);
    FirstLineIsPrefix(s);
    if StartsWith(Trim(line), "ANSWER ") then Some(Trim(line))
    else if |line| == |s| then None
    else AnswerLine(s[|line| + 1..])
  }

  predicate IsTextKeyword(s: string) {
    |s| >= 4 && s[0] in {'T', 't'} && s[1] in {'E', 'e'} && s[2] in {'X', 'x'} && s[3] in {'T', 't'}
  }

  /** `TEXT <body>`: the body, when the keyword, some white space and a one-line body are there. */
  function TextBody(rest: string): Option<string> {
    if IsTextKeyword(rest) && |rest| > 4 && IsSpace(rest[4]) && TrimStart(rest[4..]) != [] && OneLine(TrimStart(rest[4..]))
    then Some(Trim(rest[4..])) else None
  }

  /** Splits a trailing fingerprint off a text body: text, white space, eight hex digits. */
  function SplitFingerprint(body: string): Directive {
    var n := |body|;
    if n >= 10 && IsFingerprint(body[n - 8..]) && IsSpace(body[n - 9]) && TrimEnd(body[..n - 8]) != []
    then TextDirective(TrimEnd(body[..n - 8]), Some(body[n - 8..]))
    else TextDirective(body, None)
  }

  /** `<digits>` with, optionally, white space and a fingerprint. */
  function OptionBody(rest: string): Option<Directive> {
    var d := DigitRun(rest);
    if d == 0 then None
    else if d == |rest| then Some(OptionDirective(Value(rest), None))
    else if IsSpace(rest[d]) && IsFingerprint(TrimStart(rest[d..]))
    then Some(OptionDirective(Value(rest[..d]), Some(TrimStart(rest[d..]))))
    else None
  }

  function ParseDirective(comment: string): Option<Directive> {
    var trimmed := TrimStart(comment);
    if StartsWith(trimmed, MARKER) then None
    else
      var line := AnswerLine(StripTag(trimmed));
      if line.None? then None
      else
        var rest := Trim(line.value[7..]);
        var body := TextBody(rest);
        if body.Some? then Some(SplitFingerprint(body.value)) else OptionBody(rest)
  }

  // ---------- the free-text option ----------

  predicate OnlyOption(options: seq<string>, opens: string -> bool, n: nat) {
    && 1 <= n <= |options| && opens(options[n - 1])
    && forall j :: 0 <= j < |options| && j != n - 1 ==> !opens(options[j])
  }

  /** The 1-based option that opens free text, found by what it says (`opens`): none when no option, or
      more than one, does. */
  method FreeTextOption(options: seq<string>, opens: string -> bool) returns (found: Option<nat>)
    ensures found.Some? ==> OnlyOption(options, opens, found.value)
    ensures found.None? ==> forall n: nat :: !OnlyOption(options, opens, n)
  {
    var hits: seq<nat> := [];
    for i := 0 to |options|
      invariant forall h :: h in hits <==> 1 <= h <= i && opens(options[h - 1])
      invariant forall a, b :: 0 <= a < b < |hits| ==> hits[a] != hits[b]
      invariant forall h :: h in hits ==> h <= i
    {
      ghost var before := hits;
      assert forall a :: 0 <= a < |before| ==> before[a] in before;
      if opens(options[i]) { hits := hits + [i + 1]; }
    }
    if |hits| == 1 {
      assert hits[0] in hits;
      assert forall j :: 0 <= j < |options| && opens(options[j]) ==> j + 1 in hits;
      found := Some(hits[0]);
    } else {
      found := None;
      forall n: nat ensures !OnlyOption(options, opens, n) {
        if |hits| >= 2 {
          assert hits[0] in hits && hits[1] in hits && hits[0] != hits[1];
        } else if 1 <= n <= |options| {
          assert n !in hits;
        }
      }
    }
  }
}
