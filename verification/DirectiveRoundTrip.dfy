/** The replies the daemon asks for parse back to what was meant (src/agents/escalate.ts). */
module DirectiveRoundTrip {
  import opened Text
  import opened Wrappers
  import opened Directives

  // ---------- the replies, as the escalation comment asks for them ----------

  function OptionReply(n: nat, fp: Fingerprint): string { "ANSWER " + Decimal(n) + " " + fp }

  function TextReply(text: string, fp: Fingerprint): string { "ANSWER TEXT " + text + " " + fp }

  /** The identity tag a reply may be prefixed with, such as `[KEY-12] `. */
  datatype Tag = Tag(project: string, number: string)

  ghost predicate TagShaped(t: Tag) {
    t.project != [] && t.number != [] && AllUpper(t.project) && AllDigits(t.number)
  }

  function Tagged(t: Option<Tag>, reply: string): string {
    if t.None? then reply else "[" + t.value.project + "-" + t.value.number + "] " + reply
  }

  // ---------- runs, lines and trimming ----------

  lemma {:induction false} UpperRunStops(a: string, b: string)
    requires AllUpper(a) && b != [] && !IsUpper(b[0])
    ensures UpperRun(a + b) == |a|
  {
    if a == [] {
      assert a + b == b;
    } else {
      assert (a + b)[1..] == a[1..] + b;
      UpperRunStops(a[1..], b);
    }
  }

  lemma {:induction false} FirstLineWhole(s: string)
    requires '\n' !in s
    ensures FirstLine(s) == s
  {
    if s != [] { FirstLineWhole(s[1..]); }
  }

  /** A one-line reply is its own answer line. */
  lemma ReplyIsAnswerLine(s: string)
    requires StartsWith(s, "ANSWER ") && Trimmed(s) && '\n' !in s
    ensures AnswerLine(s) == Some(s)
  {
    FirstLineWhole(s);
    TrimmedStays(s);
  }

  // ---------- the tag ----------

  lemma TagIsMeasured(t: Tag, rest: string)
    requires TagShaped(t)
    ensures TagLength("[" + t.project + "-" + t.number + "]" + rest) == |t.project| + |t.number| + 3
  {
    var s := "[" + t.project + "-" + t.number + "]" + rest;
    var tail := "-" + t.number + "]" + rest;
    assert s[1..] == t.project + tail;
    UpperRunStops(t.project, tail);
    assert s[2 + |t.project|..] == t.number + ("]" + rest);
    DigitRunStops(t.number, "]" + rest);
    assert s[1 + |t.project|] == '-';
    assert s[2 + |t.project| + |t.number|] == ']';
  }

  lemma TagIsStripped(t: Option<Tag>, reply: string)
    requires StartsWith(reply, "ANSWER ") && (t.Some? ==> TagShaped(t.value))
    ensures TrimStart(Tagged(t, reply)) == Tagged(t, reply)
    ensures StripTag(Tagged(t, reply)) == reply
  {
    assert reply[..7][0] == reply[0] == 'A';
    hide StartsWith;
    if t.Some? { ShapedTagIsStripped(t.value, reply); }
  }

  lemma ShapedTagIsStripped(t: Tag, reply: string)
    requires TagShaped(t) && reply != [] && !IsSpace(reply[0])
    ensures var s := "[" + t.project + "-" + t.number + "] " + reply; TrimStart(s) == s && StripTag(s) == reply
  {
    TagIsMeasured(t, " " + reply);
    hide TagShaped, TagLength;
    TagRegroups(t, reply);
    var s := "[" + t.project + "-" + t.number + "] " + reply;
    assert s[0] == '[';
    assert (" " + reply)[1..] == reply && TrimStart(reply) == reply;
    assert TrimStart(" " + reply) == reply;
    assert TagLength(s) == |t.project| + |t.number| + 3;
  }

  lemma TagRegroups(t: Tag, reply: string)
    ensures var s := "[" + t.project + "-" + t.number + "] " + reply;
      && s == "[" + t.project + "-" + t.number + "]" + (" " + reply)
      && s[|t.project| + |t.number| + 3..] == " " + reply
  {
    assert "] " == "]" + " ";
  }

  /** Neither `A` nor `[K` is how the marker begins. */
  lemma ReplyIsNotMarked(t: Option<Tag>, reply: string)
    requires StartsWith(reply, "ANSWER ") && (t.Some? ==> TagShaped(t.value))
    ensures !StartsWith(Tagged(t, reply), MARKER)
  {
    var s := Tagged(t, reply);
    var k := if t.None? then 0 else 1;
    assert reply[..7][0] == 'A';
    assert t.Some? ==> s[1] == t.value.project[0] && IsUpper(s[1]);
    assert s[k] != MARKER[k];
    assert |s| >= |MARKER| ==> s[..|MARKER|][k] == s[k];
  }

  /** What the parser makes of a reply once its tag is off. */
  function ReadRest(rest: string): Option<Directive> {
    var body := TextBody(rest);
    if body.Some? then Some(SplitFingerprint(body.value)) else OptionBody(rest)
  }

  lemma ReplyIsRead(t: Option<Tag>, rest: string)
    requires Trimmed(rest) && '\n' !in rest && (t.Some? ==> TagShaped(t.value))
    ensures ParseDirective(Tagged(t, "ANSWER " + rest)) == ReadRest(rest)
  {
    var reply := "ANSWER " + rest;
    assert reply[..7] == "ANSWER " && reply[7..] == rest;
    assert reply[0] == 'A' && reply[|reply| - 1] == rest[|rest| - 1];
    hide TextBody, OptionBody, SplitFingerprint, TagLength, StripTag, TagShaped, Tagged, AnswerLine;
    TagIsStripped(t, reply);
    ReplyIsNotMarked(t, reply);
    ReplyIsAnswerLine(reply);
    TrimmedStays(rest);
  }

  // ---------- the round trips ----------

  /** For every option number, fingerprint and tag the numbered reply parses back to exactly that. */
  lemma OptionRoundTrip(t: Option<Tag>, n: nat, fp: Fingerprint)
    requires IsFingerprint(fp) && (t.Some? ==> TagShaped(t.value))
    ensures ParseDirective(Tagged(t, OptionReply(n, fp))) == Some(OptionDirective(n, Some(fp)))
  {
    var rest := Decimal(n) + " " + fp;
    assert OptionReply(n, fp) == "ANSWER " + rest;
    OptionRestReads(n, fp);
    hide Decimal, ReadRest, ParseDirective, IsFingerprint, TagShaped;
    ReplyIsRead(t, rest);
  }

  lemma OptionRestReads(n: nat, fp: Fingerprint)
    requires IsFingerprint(fp)
    ensures var rest := Decimal(n) + " " + fp;
      Trimmed(rest) && '\n' !in rest && ReadRest(rest) == Some(OptionDirective(n, Some(fp)))
  {
    DecimalReads(n);
    FingerprintIsTrimmed(fp);
    hide Decimal, IsFingerprint;
    DigitsRead(Decimal(n), fp);
  }

  lemma DigitsRead(digits: string, fp: Fingerprint)
    requires digits != [] && AllDigits(digits) && IsFingerprint(fp)
    requires Trimmed(fp) && TrimStart(" " + fp) == fp && '\n' !in fp
    ensures var rest := digits + " " + fp;
      Trimmed(rest) && '\n' !in rest && ReadRest(rest) == Some(OptionDirective(Value(digits), Some(fp)))
  {
    var rest := digits + " " + fp;
    assert IsDigit(digits[0]);
    DigitsAreTrimmed(digits, fp);
    assert rest == digits + (" " + fp) && rest[0] == digits[0];
    assert rest[..|digits|] == digits && rest[|digits|..] == " " + fp && rest[|digits|] == ' ';
    DigitRunStops(digits, " " + fp);
    hide Value, DigitRun, TrimStart, IsFingerprint, AllDigits, Trimmed;
    assert TextBody(rest).None?;
  }

  lemma DigitsAreTrimmed(digits: string, fp: Fingerprint)
    requires digits != [] && AllDigits(digits) && Trimmed(fp) && '\n' !in fp
    ensures Trimmed(digits + " " + fp) && '\n' !in digits + " " + fp
  {
    var rest := digits + " " + fp;
    assert IsDigit(digits[0]) && '\n' !in digits;
    assert rest[0] == digits[0] && rest[|rest| - 1] == fp[|fp| - 1];
  }

  lemma FingerprintIsTrimmed(fp: Fingerprint)
    requires IsFingerprint(fp)
    ensures Trimmed(fp) && TrimStart(" " + fp) == fp && '\n' !in fp && OneLine(fp)
  {
    assert IsHex(fp[0]) && IsHex(fp[7]);
    TrimmedStays(fp);
  }

  /** For every trimmed one-line text, fingerprint and tag the free-text reply parses back to exactly that. */
  lemma TextRoundTrip(t: Option<Tag>, text: string, fp: Fingerprint)
    requires Trimmed(text) && OneLine(text) && IsFingerprint(fp) && (t.Some? ==> TagShaped(t.value))
    ensures ParseDirective(Tagged(t, TextReply(text, fp))) == Some(TextDirective(text, Some(fp)))
  {
    var body := text + " " + fp;
    var rest := "TEXT " + body;
    assert TextReply(text, fp) == "ANSWER " + rest;
    FingerprintIsTrimmed(fp);
    assert body[0] == text[0] && body[|body| - 1] == fp[7];
    assert Trimmed(body) && OneLine(body);
    assert rest[4..] == " " + body && rest[0] == 'T' && rest[1] == 'E' && rest[2] == 'X' && rest[3] == 'T' && rest[4] == ' ';
    assert rest[|rest| - 1] == body[|body| - 1];
    TrimmedStays(body);
    assert TextBody(rest) == Some(body);
    BodySplits(text, fp);
    assert forall c :: c in text ==> c != '\n';
    hide TextBody, SplitFingerprint, ParseDirective, OptionBody;
    ReplyIsRead(t, rest);
  }

  lemma BodySplits(text: string, fp: Fingerprint)
    requires Trimmed(text) && IsFingerprint(fp)
    ensures SplitFingerprint(text + " " + fp) == TextDirective(text, Some(fp))
  {
    var body := text + " " + fp;
    assert body[|body| - 8..] == fp && body[|body| - 9] == ' ' && body[..|body| - 8] == text + " ";
    TrimmedStays(text);
  }

  /** A comment that begins with the daemon's marker is never an answer, whatever follows. */
  lemma MarkedIsNoAnswer(body: string)
    requires StartsWith(body, MARKER)
    ensures ParseDirective(body).None?
  {
    assert body[..|MARKER|][0] == body[0];
    assert TrimStart(body) == body;
  }
}
