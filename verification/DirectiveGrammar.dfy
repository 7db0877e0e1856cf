/** Exactly which comments are directives, and which: the grammar the parser's regular expressions accept (src/agents/escalate.ts). */
module DirectiveGrammar {
  import opened Text
  import opened Wrappers
  import opened Directives
  import DirectiveRoundTrip
  import NoAnswer

  // ---------- the grammar ----------

  /** White space, and at least one of it. */
  predicate Gap(s: string) { s != [] && AllSpace(s) }

  predicate Keyword(s: string) {
    |s| == 4 && s[0] in {'T', 't'} && s[1] in {'E', 'e'} && s[2] in {'X', 'x'} && s[3] in {'T', 't'}
  }

  predicate Solid(s: string) { s != [] && !IsSpace(s[0]) && !IsSpace(s[|s| - 1]) }

  /** A number, and perhaps a fingerprint after it. */
  ghost predicate OptionForm(r: string, n: nat, fp: Option<Fingerprint>) {
    exists digits, gap :: OptionParts(r, n, fp, digits, gap)
  }

  predicate OptionParts(r: string, n: nat, fp: Option<Fingerprint>, digits: string, gap: string) {
    && digits != [] && AllDigits(digits) && n == Value(digits)
    && r == (if fp.None? then digits else digits + gap + fp.value) && (fp.Some? ==> Gap(gap) && IsFingerprint(fp.value))
  }

  /** A text with a fingerprint at its end. */
  ghost predicate Stamped(body: string, text: string, fp: Fingerprint) {
    exists gap :: text != [] && !IsSpace(text[|text| - 1]) && Gap(gap) && IsFingerprint(fp) && body == text + gap + fp
  }

  /** The keyword in any case and a one-line text, perhaps stamped. */
  ghost predicate TextForm(r: string, text: string, fp: Option<Fingerprint>) {
    exists keyword, gap, body ::
      && Keyword(keyword) && Gap(gap) && Solid(body) && OneLine(body) && r == keyword + gap + body
      && (match fp case Some(f) => Stamped(body, text, f) case None => text == body && forall t, f :: !Stamped(body, t, f))
  }

  ghost predicate Form(r: string, d: Directive) {
    match d
    case OptionDirective(n, fp) => OptionForm(r, n, fp)
    case TextDirective(text, fp) => TextForm(r, text, fp)
  }

  // ---------- the parser follows it ----------

  lemma HexIsNoSpace(fp: string)
    requires IsFingerprint(fp)
    ensures !IsSpace(fp[0]) && !IsSpace(fp[7])
  {
    assert IsHex(fp[0]) && IsHex(fp[7]);
  }

  lemma SpaceIsNoDigit(gap: string)
    requires Gap(gap)
    ensures !IsDigit(gap[0])
  {
    assert IsSpace(gap[0]);
  }

  lemma OptionIsRead(r: string, n: nat, fp: Option<Fingerprint>)
    requires OptionForm(r, n, fp)
    ensures OptionBody(r) == Some(OptionDirective(n, fp)) && !IsTextKeyword(r)
  {
    var digits, gap :| OptionParts(r, n, fp, digits, gap);
    assert IsDigit(digits[0]) && r[0] == digits[0];
    hide IsSpace;
    if fp.None? {
      DigitRunStops(digits, "");
      assert digits + "" == digits;
    } else {
      var rest := gap + fp.value;
      assert r == digits + rest && rest[0] == gap[0];
      SpaceIsNoDigit(gap);
      DigitRunStops(digits, rest);
      HexIsNoSpace(fp.value);
      GapGoes(gap, fp.value);
      assert r[|digits|..] == rest && r[..|digits|] == digits && IsSpace(r[|digits|]);
    }
  }

  lemma ReadIsOption(r: string)
    ensures var d := OptionBody(r); d.Some? ==> d.value.OptionDirective? && OptionForm(r, d.value.n, d.value.fp)
  {
    var d := DigitRun(r);
    if OptionBody(r).Some? {
      DigitRunHolds(r);
      var digits := r[..d];
      assert AllDigits(digits) && digits != [];
      if d < |r| {
        var tail := r[d..];
        TrimStartShape(tail);
        var fp := TrimStart(tail);
        var gap := tail[..|tail| - |fp|];
        assert r == digits + gap + fp;
        assert tail[0] == r[d];
        assert gap != [] && Gap(gap);
        assert OptionParts(r, Value(digits), Some(fp), digits, gap);
      } else {
        assert digits == r;
        assert OptionParts(r, Value(digits), None, digits, "");
      }
    }
  }

  /** A stamp is found, and only one. */
  lemma StampIsRead(body: string, text: string, fp: Fingerprint)
    requires Stamped(body, text, fp)
    ensures SplitFingerprint(body) == TextDirective(text, Some(fp))
  {
    var gap :| text != [] && !IsSpace(text[|text| - 1]) && Gap(gap) && IsFingerprint(fp) && body == text + gap + fp;
    var n := |body|;
    assert body[n - 8..] == fp && body[..n - 8] == text + gap && body[n - 9] == gap[|gap| - 1];
    hide IsSpace, IsFingerprint;
    TrimEndStops(text, gap);
    AllSpaceGoes(gap);
    assert text + [] == text;
  }

  lemma ReadIsStamp(body: string)
    ensures var d := SplitFingerprint(body);
      d.TextDirective? && (match d.fp case Some(f) => Stamped(body, d.text, f) case None => d.text == body && forall t, f :: !Stamped(body, t, f))
  {
    var d, n := SplitFingerprint(body), |body|;
    forall t, f ensures Stamped(body, t, f) ==> d == TextDirective(t, Some(f)) {
      if Stamped(body, t, f) { StampIsRead(body, t, f); }
    }
    if d.fp.Some? {
      var front := body[..n - 8];
      TrimEndShape(front);
      var text := TrimEnd(front);
      var gap := front[|text|..];
      TrimEndSolid(front);
      assert body == text + gap + body[n - 8..];
      assert front[n - 9] == body[n - 9];
      assert gap != [];
    }
  }

  lemma TextBodyIsRead(r: string, keyword: string, gap: string, body: string)
    requires Keyword(keyword) && Gap(gap) && Solid(body) && OneLine(body) && r == keyword + gap + body
    ensures TextBody(r) == Some(body)
  {
    hide IsSpace, OneLine;
    assert r[4..] == gap + body && r[4] == gap[0];
    GapGoes(gap, body);
    assert TrimEnd(body) == body;
  }

  lemma ReadIsTextBody(r: string)
    requires r == Trim(r)
    ensures TextBody(r).Some? ==>
      exists keyword, gap :: Keyword(keyword) && Gap(gap) && Solid(TextBody(r).value) && OneLine(TextBody(r).value) && r == keyword + gap + TextBody(r).value
  {
    if TextBody(r).Some? {
      var tail := r[4..];
      TrimStartShape(tail);
      var body := TrimStart(tail);
      var keyword, gap := r[..4], tail[..|tail| - |body|];
      hide IsSpace, OneLine;
      TrimmedEnds(r);
      assert body[|body| - 1] == r[|r| - 1];
      assert TrimEnd(body) == body;
      assert gap != [];
      assert Keyword(keyword) && r == keyword + gap + body;
    }
  }

  lemma TrimmedEnds(r: string)
    requires r == Trim(r) && r != []
    ensures !IsSpace(r[|r| - 1])
  {
    TrimEndSolid(TrimStart(r));
  }

  /** What stands after `ANSWER `, trimmed, is read as a directive exactly when it has that directive's form. */
  lemma ReadExactly(r: string, d: Directive)
    requires r == Trim(r)
    ensures DirectiveRoundTrip.ReadRest(r) == Some(d) <==> Form(r, d)
  {
    hide Trim, IsSpace, OneLine, Stamped, OptionBody, SplitFingerprint, Value, OptionForm;
    ReadIsTextBody(r);
    ReadIsOption(r);
    var body := TextBody(r);
    if body.Some? { ReadIsStamp(body.value); }
    match d {
      case OptionDirective(n, fp) => if OptionForm(r, n, fp) { OptionIsRead(r, n, fp); }
      case TextDirective(text, fp) => if TextForm(r, text, fp) { TextIsRead(r, text, fp); }
    }
  }

  lemma TextIsRead(r: string, text: string, fp: Option<Fingerprint>)
    requires TextForm(r, text, fp)
    ensures DirectiveRoundTrip.ReadRest(r) == Some(TextDirective(text, fp))
  {
    hide IsSpace, OneLine, Gap, Keyword, Solid, Stamped, OptionBody, SplitFingerprint, TextBody;
    var keyword, gap, body :|
      && Keyword(keyword) && Gap(gap) && Solid(body) && OneLine(body) && r == keyword + gap + body
      && (match fp case Some(f) => Stamped(body, text, f) case None => text == body && forall t, f :: !Stamped(body, t, f));
    TextBodyIsRead(r, keyword, gap, body);
    ReadIsStamp(body);
    if fp.Some? { StampIsRead(body, text, fp.value); }
  }

  // ---------- the whole comment ----------

  /** A leading `[KEY-123]`. */
  ghost predicate TagForm(s: string, rest: string) {
    exists letters, digits ::
      && letters != [] && AllUpper(letters)
      && digits != [] && AllDigits(digits) && s == "[" + letters + "-" + digits + "]" + rest
  }

  lemma {:induction false} UpperRunHolds(s: string)
    ensures AllUpper(s[..UpperRun(s)])
  {
    if s != [] && IsUpper(s[0]) {
      UpperRunHolds(s[1..]);
      assert s[..UpperRun(s)] == [s[0]] + s[1..][..UpperRun(s[1..])];
    }
  }

  lemma TagIsStripped(s: string, rest: string)
    requires TagForm(s, rest)
    ensures StripTag(s) == TrimStart(rest)
  {
    var letters, digits :|
      && letters != [] && AllUpper(letters)
      && digits != [] && AllDigits(digits) && s == "[" + letters + "-" + digits + "]" + rest;
    hide TrimStart, IsUpper, StripTag;
    TagIsMeasured(s, letters, digits, rest);
    assert s == ("[" + letters + "-" + digits + "]") + rest;
    StripsSo(s, rest, 3 + |letters| + |digits|);
  }

  lemma StripsSo(s: string, rest: string, n: nat)
    requires n == TagLength(s) > 0 && s[n..] == rest
    ensures StripTag(s) == TrimStart(rest)
  {
  }

  lemma TagIsMeasured(s: string, letters: string, digits: string, rest: string)
    requires letters != [] && AllUpper(letters)
    requires digits != [] && AllDigits(digits) && s == "[" + letters + "-" + digits + "]" + rest
    ensures TagLength(s) == 3 + |letters| + |digits|
  {
    var n, d := |letters|, |digits|;
    assert s[1..] == letters + ("-" + digits + "]" + rest);
    DirectiveRoundTrip.UpperRunStops(letters, "-" + digits + "]" + rest);
    assert s[1 + n] == '-' && s[2 + n..] == digits + ("]" + rest);
    DigitRunStops(digits, "]" + rest);
    assert s[0] == '[' && s[2 + n + d] == ']';
    hide UpperRun, DigitRun, IsUpper;
  }

  lemma SixParts(s: string, a: nat, b: nat, c: nat, d: nat, e: nat)
    requires a <= b <= c <= d <= e <= |s|
    ensures s == s[..a] + s[a..b] + s[b..c] + s[c..d] + s[d..e] + s[e..]
  {
  }

  lemma TagReads(s: string)
    requires TagLength(s) != 0
    ensures var n := UpperRun(s[1..]);
      && 2 + n <= |s|
      && var d := DigitRun(s[2 + n..]);
         && n > 0 && d > 0 && 2 + n + d < |s| && s[0] == '[' && s[1 + n] == '-' && s[2 + n + d] == ']'
  {
    hide UpperRun, DigitRun;
  }

  lemma OnlyTagsAreStripped(s: string)
    ensures (forall rest :: !TagForm(s, rest)) ==> StripTag(s) == s
  {
    hide TrimStart, IsUpper, UpperRun, DigitRun, TagLength;
    if TagLength(s) != 0 {
      TagReads(s);
      var n := UpperRun(s[1..]);
      var d := DigitRun(s[2 + n..]);
      UpperRunHolds(s[1..]);
      DigitRunHolds(s[2 + n..]);
      var letters, digits, rest := s[1..1 + n], s[2 + n..2 + n + d], s[3 + n + d..];
      assert letters == s[1..][..n] && digits == s[2 + n..][..d];
      TagParts(s, n, d);
      assert TagForm(s, rest);
    }
  }

  lemma TagParts(s: string, n: nat, d: nat)
    requires 2 + n + d < |s| && s[0] == '[' && s[1 + n] == '-' && s[2 + n + d] == ']'
    ensures s == "[" + s[1..1 + n] + "-" + s[2 + n..2 + n + d] + "]" + s[3 + n + d..]
  {
    SixParts(s, 1, 1 + n, 2 + n, 2 + n + d, 3 + n + d);
    assert s[..1] == "[" && s[1 + n..2 + n] == "-" && s[2 + n + d..3 + n + d] == "]";
  }

  function AfterAnswer(line: string): string { if |line| < 7 then "" else line[7..] }

  /** Line i is the first that, trimmed, begins with `ANSWER `. */
  ghost predicate FirstAnswer(lines: seq<string>, i: int) {
    0 <= i < |lines| && StartsWith(Trim(lines[i]), "ANSWER ") && forall j :: 0 <= j < i ==> !StartsWith(Trim(lines[j]), "ANSWER ")
  }

  lemma {:induction false} AnswerAmongIsFirst(lines: seq<string>)
    ensures var a := NoAnswer.AnswerAmong(lines);
      && (a.None? ==> forall i :: !FirstAnswer(lines, i))
      && (a.Some? ==> exists i :: FirstAnswer(lines, i) && a.value == Trim(lines[i]))
  {
    hide Trim, StartsWith;
    if lines != [] {
      var rest := lines[1..];
      AnswerAmongIsFirst(rest);
      if StartsWith(Trim(lines[0]), "ANSWER ") {
        assert FirstAnswer(lines, 0);
      } else {
        assert forall i :: 0 < i < |lines| ==> lines[i] == rest[i - 1];
        if NoAnswer.AnswerAmong(rest).Some? {
          var i :| FirstAnswer(rest, i) && NoAnswer.AnswerAmong(rest).value == Trim(rest[i]);
          assert FirstAnswer(lines, i + 1);
        } else {
          forall i ensures FirstAnswer(lines, i) ==> FirstAnswer(rest, i - 1) {
          }
        }
      }
    }
  }

  lemma {:induction false} TrimTwice(s: string)
    ensures Trim(Trim(s)) == Trim(s)
  {
    hide IsSpace;
    var t := TrimStart(s);
    TrimStartShape(s);
    TrimEndShape(t);
    TrimEndSolid(t);
    var u := TrimEnd(t);
    assert u != [] ==> u[0] == t[0];
    assert TrimStart(u) == u;
    assert TrimEnd(u) == u;
  }

  /** A comment is a directive, and which, exactly when it does not begin with the marker and the first of its lines
      that begins an answer, a leading tag aside, has that directive's form after `ANSWER `. */
  lemma ParsesExactly(comment: string, d: Directive)
    ensures ParseDirective(comment) == Some(d) <==>
            && !StartsWith(TrimStart(comment), MARKER)
            && exists i :: FirstAnswer(Split(StripTag(TrimStart(comment))), i)
                 && Form(Trim(AfterAnswer(Trim(Split(StripTag(TrimStart(comment)))[i]))), d)
  {
    var s := StripTag(TrimStart(comment));
    var lines := Split(s);
    NoAnswer.AnswerIsAmongLines(s);
    AnswerAmongIsFirst(lines);
    var line := AnswerLine(s);
    assert line.Some? ==> |line.value| >= 7;
    hide Form, Trim, StripTag, TrimStart, Split, NoAnswer.AnswerAmong, TextBody, OptionBody, SplitFingerprint, AnswerLine, StartsWith;
    if line.Some? {
      var r := Trim(line.value[7..]);
      TrimTwice(line.value[7..]);
      ReadExactly(r, d);
      var i :| FirstAnswer(lines, i) && line.value == Trim(lines[i]);
      assert forall j :: FirstAnswer(lines, j) ==> j == i;
      assert AfterAnswer(line.value) == line.value[7..];
    }
  }
}
