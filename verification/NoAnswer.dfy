/**
 Whether what the daemon writes under its other markers can be read back as an answer: the stage comments, the
 crash-loop complaint and the report of an unresponsive pane (src/agents/abandoned.ts, src/agents/crash-loop.ts,
 src/agents/escalation-loop.ts).
 */
module NoAnswer {
  import opened Text
  import opened Wrappers
  import opened Wording
  import opened Directives
  import DirectiveRoundTrip
  import opened StageText

  const CRASHLOOP := "[butchr:crashloop]"
  const UNRESPONSIVE := "[butchr:unresponsive]"

  // ---------- reading a text line by line ----------

  /** The first line that, trimmed, begins an answer. */
  function AnswerAmong(lines: seq<string>): (found: Option<string>)
    ensures found.Some? ==> StartsWith(found.value, "ANSWER ")
  {
    if lines == [] then None
    else if StartsWith(Trim(lines[0]), "ANSWER ") then Some(Trim(lines[0]))
    else AnswerAmong(lines[1..])
  }

  lemma {:induction false} AnswerIsAmongLines(s: string)
    ensures AnswerLine(s) == AnswerAmong(Split(s))
    decreases |s|
  {
    var line := FirstLine(s);
    FirstLineIsPrefix(s);
    FirstLineIsOne(s);
    hide Trim;
    if |line| == |s| {
      SplitLine(line, "");
      assert s == line && [line][1..] == [];
    } else {
      var rest := s[|line| + 1..];
      assert s == line + "\n" + rest;
      SplitLine(line, rest);
      assert ([line] + Split(rest))[1..] == Split(rest);
      AnswerIsAmongLines(rest);
    }
  }

  lemma {:induction false} FirstLineIsOne(s: string)
    ensures '\n' !in FirstLine(s)
  {
    if s != [] && s[0] != '\n' { FirstLineIsOne(s[1..]); }
  }

  /** What a line says as an answer, if it is one. */
  function Answered(line: string): Option<Directive> {
    if StartsWith(Trim(line), "ANSWER ") then DirectiveRoundTrip.ReadRest(Trim(Trim(line)[7..])) else None
  }

  predicate Silent(line: string) { !StartsWith(Trim(line), "ANSWER ") }

  lemma FirstIsSilent(l: string)
    requires l != [] && !IsSpace(l[0]) && l[0] != 'A'
    ensures Silent(l)
  {
    TrimEndShape(l);
    assert TrimStart(l) == l;
    var t := Trim(l);
    assert |t| >= 7 ==> t[..7][0] == l[0] && "ANSWER "[0] == 'A';
  }

  lemma BlankIsSilent()
    ensures Silent("")
  {
    assert TrimStart("") == "";
  }

  lemma SilentMeans(line: string)
    ensures Silent(line) <==> !StartsWith(Trim(line), "ANSWER ")
  {
  }

  /** Where at most one line is not silent, the answer is that line. */
  lemma {:induction false} OneVoice(lines: seq<string>, k: nat)
    requires k < |lines| && forall i :: 0 <= i < |lines| && i != k ==> Silent(lines[i])
    ensures AnswerAmong(lines) == if Silent(lines[k]) then None else Some(Trim(lines[k]))
    decreases |lines|
  {
    hide Trim;
    if k > 0 {
      SilentLine(lines);
      hide Silent, AnswerAmong;
      OneVoice(lines[1..], k - 1);
    } else if Silent(lines[0]) {
      AllSilent(lines);
    }
  }

  lemma {:induction false} AllSilent(lines: seq<string>)
    requires forall i :: 0 <= i < |lines| ==> Silent(lines[i])
    ensures AnswerAmong(lines).None?
  {
    if lines != [] {
      SilentLine(lines);
      hide Silent;
      AllSilent(lines[1..]);
    }
  }

  lemma SilentLine(lines: seq<string>)
    requires lines != [] && Silent(lines[0])
    ensures AnswerAmong(lines) == AnswerAmong(lines[1..])
  {
  }

  // ---------- the three markers ----------

  predicate IsMarker(m: string) { m in [ABANDONED, CRASHLOOP, UNRESPONSIVE] }

  /** A comment that begins with one of these markers says what its first answering line says. */
  lemma MarkedIsRead(marker: string, lines: seq<string>)
    requires IsMarker(marker) && AreLines(lines) && StartsWith(lines[0], marker)
    ensures AnswerAmong(lines).None? ==> ParseDirective(Join(lines)).None?
    ensures AnswerAmong(lines).Some? ==> ParseDirective(Join(lines)) == DirectiveRoundTrip.ReadRest(Trim(AnswerAmong(lines).value[7..]))
  {
    var body := Join(lines);
    JoinStartsWith(lines);
    assert body[..|marker|] == body[..|lines[0]|][..|marker|];
    hide Join;
    MarkerIsNoTag(marker, body);
    SplitJoin(lines);
    AnswerIsAmongLines(body);
    hide TextBody, OptionBody, SplitFingerprint, Trim, StartsWith, AnswerAmong, StripTag;
  }

  lemma MarkerReads(marker: string)
    requires IsMarker(marker)
    ensures |marker| >= 9 && marker[0] == '[' && marker[1] == 'b' && marker[8] != MARKER[8]
  {
  }

  lemma MarkerIsNoTag(marker: string, body: string)
    requires IsMarker(marker) && StartsWith(body, marker)
    ensures TrimStart(body) == body && StripTag(body) == body && !StartsWith(body, MARKER)
  {
    MarkerReads(marker);
    hide IsMarker;
    var n := |marker|;
    assert body[..n][0] == body[0] && body[..n][1] == body[1] && body[..n][8] == body[8];
    assert UpperRun(body[1..]) == 0;
    assert |body| >= |MARKER| ==> body[..|MARKER|][8] == body[8];
  }

  /** Where no line is an answer, nor is the comment. */
  lemma SilentLinesAreNoAnswer(marker: string, lines: seq<string>)
    requires IsMarker(marker) && AreLines(lines) && StartsWith(lines[0], marker)
    requires forall i :: 0 <= i < |lines| ==> Silent(lines[i])
    ensures ParseDirective(Join(lines)).None?
  {
    hide IsMarker, Silent, StartsWith, ParseDirective, DirectiveRoundTrip.ReadRest, Trim;
    MarkedIsRead(marker, lines);
    AllSilent(lines);
  }

  /** A text begins as its first bit does. */
  lemma WrittenStarts(bits: seq<Bit>)
    requires bits != [] && bits[0].text != []
    ensures Written(bits) != [] && Written(bits)[0] == bits[0].text[0] && StartsWith(Written(bits), bits[0].text)
  {
    assert Written(bits) == bits[0].text + Written(bits[1..]);
  }

  // ---------- the stage comments ----------

  /** In a stage comment only the request line could answer, and the comment says what that line says. */
  lemma OnlyTheRequestAnswers(s: Stage, worker: string, boss: string, minutes: nat)
    requires StageKeys(s, worker, boss)
    ensures ParseDirective(StageComment(s, worker, boss, minutes)) == Answered(Request(s, worker, boss))
  {
    hide Request, Opening, DirectiveRoundTrip.ReadRest, Silent, ParseDirective, Trim, AnswerAmong, Tag, StartsWith, Join, StageKeys;
    var lines := StageLines(s, worker, boss, minutes);
    StageLinesAreLines(s, worker, boss, minutes);
    OtherLinesAreSilent(s, worker, boss, minutes);
    OpeningStarts(s, worker, boss, minutes);
    OneVoice(lines, 2);
    MarkedIsRead(ABANDONED, lines);
    SilentMeans(lines[2]);
  }

  lemma OtherLinesAreSilent(s: Stage, worker: string, boss: string, minutes: nat)
    ensures Silent(Opening(s, worker, boss, minutes)) && Silent("") && Silent("fingerprint: " + worker)
    ensures Silent("boss: " + boss) && Silent("stage: " + [Tag(s)])
  {
    OpeningStarts(s, worker, boss, minutes);
    var opening := Opening(s, worker, boss, minutes);
    assert opening[0] == opening[..|ABANDONED|][0] == '[';
    hide Opening, Tag, Silent;
    FirstIsSilent(opening);
    FirstIsSilent("fingerprint: " + worker);
    FirstIsSilent("boss: " + boss);
    FirstIsSilent("stage: " + [Tag(s)]);
    BlankIsSilent();
  }

  /** So the first two stages, and the third where there is a boss to escalate to, are never answers. */
  lemma EarlyStagesAreNoAnswers(s: Stage, worker: string, boss: string, minutes: nat)
    requires StageKeys(s, worker, boss) && !s.ThreeTerminal?
    ensures ParseDirective(StageComment(s, worker, boss, minutes)).None?
  {
    hide Written, Trim, DirectiveRoundTrip.ReadRest, StageComment, ParseDirective, StageKeys, StartsWith;
    OnlyTheRequestAnswers(s, worker, boss, minutes);
    var ask := Ask(s, worker, boss);
    assert ask[0] == Say(if s.ThreeEscalated? then "Prompt " else "If the work here is ");
    assert "Prompt "[0] == 'P' && "If the work here is "[0] == 'I';
    hide Ask;
    WrittenStarts(ask);
    FirstIsSilent(Written(ask));
  }

  // ---------- the terminal stage comment ----------

  /** What follows the boss in the terminal comment's request. */
  function AfterBoss(worker: string): string { Written(Ask(ThreeTerminal, worker, "")[1..]) }

  lemma TerminalRequest(worker: string, boss: string)
    ensures Request(ThreeTerminal, worker, boss) == boss + AfterBoss(worker)
  {
    assert Ask(ThreeTerminal, worker, boss)[1..] == Ask(ThreeTerminal, worker, "")[1..];
    hide Ask;
  }

  lemma {:induction false} WrittenOneLine(bits: seq<Bit>)
    ensures OneLine(Written(bits)) <==> forall i :: 0 <= i < |bits| ==> OneLine(bits[i].text)
  {
    if bits != [] {
      WrittenOneLine(bits[1..]);
      OneLineParts(bits[0].text, Written(bits[1..]));
      hide OneLine;
      assert forall i :: 0 < i < |bits| ==> bits[i] == bits[1..][i - 1];
      assert forall i :: 0 <= i < |bits[1..]| ==> bits[1..][i] == bits[i + 1];
    }
  }

  lemma OneLineParts(a: string, b: string)
    ensures OneLine(a + b) <==> OneLine(a) && OneLine(b)
  {
    hide IsLineEnd;
    assert forall i :: 0 <= i < |a| ==> (a + b)[i] == a[i];
    assert forall i :: 0 <= i < |b| ==> (a + b)[|a| + i] == b[i];
    assert OneLine(a) && OneLine(b) ==> forall i :: 0 <= i < |a + b| ==> !IsLineEnd((a + b)[i]);
  }

  lemma HumanOwnedIsOneLine()
    ensures OneLine(" is a human-owned ") && OneLine("ticket (it has no ") && OneLine("Implements boss of its ")
    ensures OneLine("own) \U{2014} a human should ") && OneLine("review ")
  {
  }

  lemma CloseItIsOneLine()
    ensures OneLine(" directly and either ") && OneLine("close it (if the work ") && OneLine("is finished) or give it ") && OneLine("a new boss.")
  {
  }

  lemma AfterBossReads(worker: string)
    ensures var q := AfterBoss(worker);
      |q| > 4 && q[0] == ' ' && q[1] == 'i' && q[|q| - 1] == '.' && (OneLine(q) <==> OneLine(worker))
  {
    var bits := Ask(ThreeTerminal, worker, "")[1..];
    HumanOwnedIsOneLine();
    CloseItIsOneLine();
    assert bits == [Say(" is a human-owned "), Say("ticket (it has no "), Say("Implements boss of its "), Say("own) \U{2014} a human should "),
                    Say("review "), Key(worker), Say(" directly and either "), Say("close it (if the work "),
                    Say("is finished) or give it "), Say("a new boss.")];
    hide Ask, OneLine;
    assert bits[0].text[..2] == " i" && bits[9].text[|bits[9].text| - 1] == '.';
    assert bits[5].text == worker;
    WrittenOneLine(bits);
    WrittenStarts(bits);
    WrittenEnds(bits);
    assert Written(bits)[1] == Written(bits)[..|bits[0].text|][1];
  }

  lemma {:induction false} TrimStartOnto(a: string, q: string)
    requires q != []
    ensures TrimStart(a + q) == if TrimStart(a) == [] then TrimStart(q) else TrimStart(a) + q
  {
    if a == [] {
      assert a + q == q;
    } else {
      assert (a + q)[1..] == a[1..] + q;
      TrimStartOnto(a[1..], q);
    }
  }

  /** Trimmed onto wording that starts with a space and ends with a full stop. */
  lemma TrimOnto(a: string, q: string)
    requires |q| > 4 && q[0] == ' ' && q[1] == 'i' && q[|q| - 1] == '.'
    ensures Trim(a + q) == if TrimStart(a) == [] then q[1..] else TrimStart(a) + q
  {
    TrimStartOnto(a, q);
    ProseIsTrimmed(q);
    SpacesAndLetters();
    hide IsSpace;
    assert TrimStart(q) == q[1..];
    assert TrimEnd(q[1..]) == q[1..];
    var t := TrimStart(a) + q;
    assert t[|t| - 1] == '.' && TrimEnd(t) == t;
  }

  lemma SpacesAndLetters()
    ensures IsSpace(' ') && !IsSpace('i') && !IsSpace('.')
  {
  }

  /** The boss's key reads as the beginning of a text answer, which the rest of the line completes. */
  predicate ReadsAsText(boss: string, worker: string) {
    var t := TrimStart(boss);
    && StartsWith(t, "ANSWER ")
    && var r := TrimStart(t[7..]);
       IsTextKeyword(r) && (|r| == 4 || IsSpace(r[4])) && OneLine(TrimStart(r[4..])) && OneLine(worker)
  }

  lemma NoForm(v: string)
    requires v != [] && v[0] == 'i'
    ensures DirectiveRoundTrip.ReadRest(v).None?
  {
  }

  /** A line that ends in wording is no option. */
  lemma NoOption(r: string, q: string)
    requires |q| > 4 && q[0] == ' ' && q[|q| - 1] == '.'
    ensures OptionBody(r + q).None?
  {
    var v := r + q;
    var d := DigitRun(v);
    DigitRunHolds(v);
    if d < |v| {
      var u := TrimStart(v[d..]);
      TrimStartEnds(v[d..]);
      assert v[d..][|v| - d - 1] == '.';
      assert |u| == 8 ==> u[7] == '.';
    }
  }

  lemma {:induction false} TrimStartEnds(v: string)
    ensures v != [] && !IsSpace(v[|v| - 1]) ==> TrimStart(v) != [] && TrimStart(v)[|TrimStart(v)| - 1] == v[|v| - 1]
  {
    if v != [] && IsSpace(v[0]) { TrimStartEnds(v[1..]); }
  }

  lemma KeywordOnto(r: string, q: string)
    requires |q| > 4 && q[0] == ' '
    ensures IsTextKeyword(r + q) <==> IsTextKeyword(r)
  {
    var v := r + q;
    assert |r| < 4 ==> v[|r|] == ' ';
    assert forall i :: 0 <= i < |r| ==> v[i] == r[i];
  }

  /** What a text answer needs of a line's beginning when wording ends it. */
  lemma TextOnto(r: string, q: string, worker: string)
    requires |q| > 4 && q[0] == ' ' && q[1] == 'i' && q[|q| - 1] == '.' && (OneLine(q) <==> OneLine(worker))
    ensures DirectiveRoundTrip.ReadRest(r + q).Some? <==>
            IsTextKeyword(r) && (|r| == 4 || IsSpace(r[4])) && OneLine(TrimStart(r[4..])) && OneLine(worker)
  {
    var v := r + q;
    NoOption(r, q);
    KeywordOnto(r, q);
    hide OptionBody, IsTextKeyword, SplitFingerprint;
    if IsTextKeyword(r) {
      assert |r| >= 4 by { KeywordIsFour(r); }
      assert v[4] == if |r| == 4 then ' ' else r[4];
      assert v[4..] == r[4..] + q;
      TrimStartOnto(r[4..], q);
      var u := TrimStart(r[4..]);
      assert TrimStart(q) == q[1..];
      OneLineParts(u, q);
      OneLineParts(" ", q[1..]);
      assert " " + q[1..] == q;
    }
  }

  lemma KeywordIsFour(r: string)
    ensures IsTextKeyword(r) ==> |r| >= 4
  {
  }

  lemma NoKeyword()
    ensures !IsTextKeyword("")
  {
  }

  lemma ProseIsTrimmed(q: string)
    requires |q| > 4 && q[0] == ' ' && q[1] == 'i' && q[|q| - 1] == '.'
    ensures Trim(q[1..]) == q[1..]
  {
    SpacesAndLetters();
    hide IsSpace;
    assert TrimStart(q[1..]) == q[1..];
  }

  lemma FrontStays(t: string, q: string)
    ensures |t| >= 7 ==> t[..7] == (t + q)[..7]
  {
  }

  /** A beginning that is no `ANSWER ` yet becomes one only if it is `ANSWER`, and wording follows. */
  lemma AlmostAnswer(t: string, q: string)
    requires |q| > 4 && q[0] == ' ' && !StartsWith(t, "ANSWER ") && StartsWith(t + q, "ANSWER ")
    ensures (t + q)[7..] == q[1..]
  {
    var v := t + q;
    FrontStays(t, q);
    assert "ANSWER "[6] == ' ' && forall i :: 0 <= i < 6 ==> "ANSWER "[i] != ' ';
    assert forall i :: 0 <= i < 7 ==> v[i] == v[..7][i] == "ANSWER "[i];
    assert v[|t|] == ' ';
    assert |t| == 6;
  }

  lemma AnsweredOnto(boss: string, q: string, worker: string)
    requires |q| > 4 && q[0] == ' ' && q[1] == 'i' && q[|q| - 1] == '.' && (OneLine(q) <==> OneLine(worker))
    ensures Answered(boss + q).Some? <==> ReadsAsText(boss, worker)
  {
    var t := TrimStart(boss);
    TrimOnto(boss, q);
    NoForm(q[1..]);
    NoKeyword();
    ProseIsTrimmed(q);
    assert "ANSWER "[0] == 'A';
    assert q[1..][..1][0] == 'i';
    hide DirectiveRoundTrip.ReadRest, OneLine, IsTextKeyword, IsSpace, Trim, TrimStart;
    if t == [] {
      FirstIs(q[1..]);
    } else if StartsWith(t, "ANSWER ") {
      assert (t + q)[..7] == t[..7] && (t + q)[7..] == t[7..] + q;
      TrimOnto(t[7..], q);
      TextOnto(TrimStart(t[7..]), q, worker);
    } else if StartsWith(t + q, "ANSWER ") {
      AlmostAnswer(t, q);
    }
  }

  lemma FirstIs(v: string)
    requires v != [] && v[0] == 'i'
    ensures !StartsWith(v, "ANSWER ")
  {
    assert |v| >= 7 ==> v[..7][0] == v[0] && "ANSWER "[0] == 'A';
  }

  /** The terminal comment's request begins with the boss key: it is an answer exactly when that key begins one,
      whatever its own lookups say. */
  lemma TerminalAnswersExactly(worker: string, boss: string, minutes: nat)
    requires StageKeys(ThreeTerminal, worker, boss)
    ensures ParseDirective(StageComment(ThreeTerminal, worker, boss, minutes)).Some? <==> ReadsAsText(boss, worker)
  {
    hide Answered, StageComment, ParseDirective, ReadsAsText, StageKeys, AfterBoss, Request, OneLine;
    OnlyTheRequestAnswers(ThreeTerminal, worker, boss, minutes);
    TerminalRequest(worker, boss);
    AfterBossReads(worker);
    AnsweredOnto(boss, AfterBoss(worker), worker);
  }

  /** This key makes it one. */
  lemma KeyThatAnswers(worker: string, minutes: nat)
    requires OneLine(worker)
    ensures var boss := "ANSWER TEXT";
      OneLine(boss) && ParseDirective(StageComment(ThreeTerminal, worker, boss, minutes)).Some?
  {
    var boss := "ANSWER TEXT";
    AnswerText();
    assert '\n' !in worker;
    hide StageComment, ParseDirective, OneLine, TrimStart, IsTextKeyword, StartsWith;
    TerminalAnswersExactly(worker, boss, minutes);
  }

  lemma AnswerText()
    ensures var boss := "ANSWER TEXT";
      && TrimStart(boss) == boss && StartsWith(boss, "ANSWER ") && boss[7..] == "TEXT" && OneLine(boss) && '\n' !in boss
    ensures TrimStart("TEXT") == "TEXT" && IsTextKeyword("TEXT") && |"TEXT"| == 4 && "TEXT"[4..] == "" && TrimStart("") == "" && OneLine("")
  {
    assert "ANSWER TEXT"[..7] == "ANSWER ";
  }

  /** A key without a space, such as Jira's, never does. */
  lemma TerminalIsNoAnswer(worker: string, boss: string, minutes: nat)
    requires StageKeys(ThreeTerminal, worker, boss) && ' ' !in boss
    ensures ParseDirective(StageComment(ThreeTerminal, worker, boss, minutes)).None?
  {
    TerminalAnswersExactly(worker, boss, minutes);
    var t := TrimStart(boss);
    TrimStartIsWithin(boss);
    AnswerHasSpace(t);
    hide StageComment, ParseDirective, TrimStart;
  }

  lemma AnswerHasSpace(t: string)
    ensures StartsWith(t, "ANSWER ") ==> ' ' in t
  {
    if StartsWith(t, "ANSWER ") { assert t[6] == t[..7][6] == ' '; }
  }

  lemma {:induction false} TrimStartIsWithin(s: string)
    ensures forall c :: c in TrimStart(s) ==> c in s
  {
    if s != [] && IsSpace(s[0]) { TrimStartIsWithin(s[1..]); }
  }

  // ---------- the crash-loop complaint ----------

  function CrashLoopTop(id: string, count: string, minutes: string): seq<Bit> {
    [Say(CRASHLOOP), Say(" "), Key(id), Say(" has been spawned "), Say(count), Say(" times in the last "), Say(minutes), Say(" minutes.")]
  }

  function CrashLoopReport(id: string): seq<Bit> {
    [Say("This is a report, "), Say("not a suppression: "), Say("nothing about "), Key(id), Say("'s spawning is being "),
     Say("blocked or rate-limited "), Say("by this comment, and it "), Say("will keep being spawned "), Say("on every poll exactly "),
     Say("as before. Whatever the "), Say("cause (a startup crash, "), Say("a session-limit refusal "), Say("that never clears, "),
     Say("a swallowed kickoff, "), Say("a workspace that fails "), Say("to build), a human "), Say("should look at why "),
     Say("it keeps being spawned "), Say("rather than waiting for "), Say("the pattern to stop "), Say("unattended.")]
  }

  function CrashLoopLines(id: string, count: nat, minutes: nat): seq<string> {
    [Written(CrashLoopTop(id, Decimal(count), Decimal(minutes))), "", Written(CrashLoopReport(id)), "", "resource: [" + id + "]"]
  }

  /** No newline in it. */
  predicate Unbroken(s: string) { forall i :: 0 <= i < |s| ==> s[i] != '\n' }

  lemma SpawnedWords()
    ensures Unbroken(CRASHLOOP) && Unbroken(" ") && Unbroken(" has been spawned ") && Unbroken(" times in the last ") && Unbroken(" minutes.")
  {
  }

  lemma ReportWords()
    ensures Unbroken("This is a report, ") && Unbroken("not a suppression: ") && Unbroken("nothing about ")
    ensures Unbroken("'s spawning is being ") && Unbroken("blocked or rate-limited ") && Unbroken("by this comment, and it ")
  {
  }

  lemma CauseWords()
    ensures Unbroken("will keep being spawned ") && Unbroken("on every poll exactly ") && Unbroken("as before. Whatever the ")
    ensures Unbroken("cause (a startup crash, ") && Unbroken("a session-limit refusal ") && Unbroken("that never clears, ")
  {
  }

  lemma KickoffWords()
    ensures Unbroken("a swallowed kickoff, ") && Unbroken("a workspace that fails ") && Unbroken("to build), a human ")
    ensures Unbroken("should look at why ") && Unbroken("it keeps being spawned ")
  {
  }

  lemma PatternWords()
    ensures Unbroken("rather than waiting for ") && Unbroken("the pattern to stop ") && Unbroken("unattended.")
  {
  }

  lemma UnbrokenBits(bits: seq<Bit>)
    requires forall i :: 0 <= i < |bits| ==> Unbroken(bits[i].text)
    ensures '\n' !in Written(bits)
  {
    WrittenIsFree(bits, '\n');
  }

  lemma NumbersAreUnbroken(n: nat)
    ensures Unbroken(Decimal(n))
  {
    DecimalReads(n);
  }

  lemma NameIsUnbroken(id: string)
    requires '\n' !in id
    ensures Unbroken(id)
  {
  }

  lemma CrashLoopTopIsOneLine(id: string, count: nat, minutes: nat)
    requires '\n' !in id
    ensures var line := Written(CrashLoopTop(id, Decimal(count), Decimal(minutes)));
      '\n' !in line && StartsWith(line, CRASHLOOP) && Silent(line)
  {
    hide Unbroken, Decimal, Silent, Written;
    NumbersAreUnbroken(count);
    NumbersAreUnbroken(minutes);
    NameIsUnbroken(id);
    SpawnedWords();
    var bits := CrashLoopTop(id, Decimal(count), Decimal(minutes));
    assert bits[0].text == CRASHLOOP && CRASHLOOP[0] == '[';
    UnbrokenBits(bits);
    hide CrashLoopTop;
    WrittenStarts(bits);
    FirstIsSilent(Written(bits));
  }

  lemma CrashLoopReportIsOneLine(id: string)
    requires '\n' !in id
    ensures '\n' !in Written(CrashLoopReport(id)) && Silent(Written(CrashLoopReport(id)))
  {
    hide Unbroken, Silent, Written;
    ReportWords();
    CauseWords();
    KickoffWords();
    PatternWords();
    NameIsUnbroken(id);
    var bits := CrashLoopReport(id);
    assert bits[0].text == "This is a report, " && "This is a report, "[0] == 'T';
    UnbrokenBits(bits);
    hide CrashLoopReport;
    WrittenStarts(bits);
    FirstIsSilent(Written(bits));
  }

  /** A complaint about any one-line id is never an answer. */
  lemma ComplaintIsNoAnswer(id: string, count: nat, minutes: nat)
    requires '\n' !in id
    ensures ParseDirective(Join(CrashLoopLines(id, count, minutes))).None?
  {
    hide CrashLoopTop, CrashLoopReport, Written, Silent, ParseDirective, Join, StartsWith, Decimal, Trim;
    CrashLoopTopIsOneLine(id, count, minutes);
    CrashLoopReportIsOneLine(id);
    var lines := CrashLoopLines(id, count, minutes);
    assert '\n' !in lines[4] && lines[4][0] == 'r' && '\n' !in "";
    BlankIsSilent();
    FirstIsSilent(lines[4]);
    SilentLinesAreNoAnswer(CRASHLOOP, lines);
  }

  // ---------- the report of an unresponsive pane ----------

  function UnresponsiveTop(issue: string, minutes: string): seq<Bit> {
    [Say(UNRESPONSIVE), Say(" "), Key(issue), Say("'s pane has been "), Say("reported blocked for "), Say(minutes), Say(" minute(s), "),
     Say("and its text does not "), Say("parse as a recognized "), Say("dialog.")]
  }

  function UnresponsiveReport(): seq<Bit> {
    [Say("This is NOT an "), Say("answerable prompt \U{2014} "), Say("there is no fingerprint "), Say("here and no ANSWER "),
     Say("protocol for it. "), Say("A human should look at "), Say("the pane directly and "), Say("decide: answer whatever "),
     Say("is actually on screen, "), Say("restart the agent, or "), Say("investigate why it is "), Say("stuck.")]
  }

  function UnresponsiveLines(issue: string, pane: string, minutes: nat): seq<string> {
    [Written(UnresponsiveTop(issue, Decimal(minutes))), "", Written(UnresponsiveReport()), "", "pane: [" + pane + "]"]
  }

  lemma PaneWords()
    ensures Unbroken(UNRESPONSIVE) && Unbroken(" ") && Unbroken("'s pane has been ") && Unbroken("reported blocked for ")
    ensures Unbroken(" minute(s), ") && Unbroken("and its text does not ") && Unbroken("parse as a recognized ") && Unbroken("dialog.")
  {
  }

  lemma PromptWords()
    ensures Unbroken("This is NOT an ") && Unbroken("answerable prompt \U{2014} ") && Unbroken("there is no fingerprint ")
    ensures Unbroken("here and no ANSWER ") && Unbroken("protocol for it. ") && Unbroken("A human should look at ")
  {
  }

  lemma ScreenWords()
    ensures Unbroken("the pane directly and ") && Unbroken("decide: answer whatever ") && Unbroken("is actually on screen, ")
    ensures Unbroken("restart the agent, or ") && Unbroken("investigate why it is ") && Unbroken("stuck.")
  {
  }

  lemma UnresponsiveTopIsOneLine(issue: string, minutes: nat)
    requires '\n' !in issue
    ensures var line := Written(UnresponsiveTop(issue, Decimal(minutes)));
      '\n' !in line && StartsWith(line, UNRESPONSIVE) && Silent(line)
  {
    hide Unbroken, Decimal, Silent, Written;
    NumbersAreUnbroken(minutes);
    NameIsUnbroken(issue);
    PaneWords();
    var bits := UnresponsiveTop(issue, Decimal(minutes));
    assert bits[0].text == UNRESPONSIVE && UNRESPONSIVE[0] == '[';
    UnbrokenBits(bits);
    hide UnresponsiveTop;
    WrittenStarts(bits);
    FirstIsSilent(Written(bits));
  }

  lemma UnresponsiveReportIsOneLine()
    ensures '\n' !in Written(UnresponsiveReport()) && Silent(Written(UnresponsiveReport()))
  {
    hide Unbroken, Silent, Written;
    PromptWords();
    ScreenWords();
    var bits := UnresponsiveReport();
    assert bits[0].text == "This is NOT an " && "This is NOT an "[0] == 'T';
    UnbrokenBits(bits);
    hide UnresponsiveReport;
    WrittenStarts(bits);
    FirstIsSilent(Written(bits));
  }

  /** Nor is the report of a pane that shows no dialog, which names `ANSWER` within a line. */
  lemma UnresponsiveIsNoAnswer(issue: string, pane: string, minutes: nat)
    requires '\n' !in issue && '\n' !in pane
    ensures ParseDirective(Join(UnresponsiveLines(issue, pane, minutes))).None?
  {
    hide UnresponsiveTop, UnresponsiveReport, Written, Silent, ParseDirective, Join, StartsWith, Decimal, Trim;
    UnresponsiveTopIsOneLine(issue, minutes);
    UnresponsiveReportIsOneLine();
    var lines := UnresponsiveLines(issue, pane, minutes);
    assert '\n' !in lines[4] && lines[4][0] == 'p' && '\n' !in "";
    BlankIsSilent();
    FirstIsSilent(lines[4]);
    SilentLinesAreNoAnswer(UNRESPONSIVE, lines);
  }
}
