/**
 Which comments the abandoned-worker detector takes for an escalation of a worker, boss and stage: exactly the
 escalation's own, provided the keys are ones that cannot be mistaken for a line of their own
 (src/agents/abandoned.ts).
 */
module StageMarks {
  import opened Text
  import opened Wording
  import opened StageText

  predicate IsTag(d: char) { d in {'1', '2', '3'} }

  // ---------- the condition on the keys ----------

  /** None of the three needles is in the key, save that of the comment's own stage. */
  predicate HoldsNoNeedle(k: string, own: char) {
    !Contains(k, "fingerprint: ") && !Contains(k, "boss: ") && forall d :: IsTag(d) && d != own ==> !Contains(k, "stage: " + [d])
  }

  /** Nor does it end where only the needle's space is wanting. */
  predicate EndsInNoName(k: string) { !EndsWith(k, "fingerprint:") && !EndsWith(k, "boss:") }

  /** What follows the boss in the second comment's opening, after a space. */
  const FOLLOW_UP := "was observed Done. " + "This is a follow-up."

  /** The keys with which a comment can be taken for no other: they hold no needle, and do not end short of one
      where a space follows. (A boss that ends so does no harm in the second comment when the worker happens to
      be called what then reads as its value.) */
  predicate SafeKeys(s: Stage, worker: string, boss: string) {
    && HoldsNoNeedle(worker, Tag(s)) && EndsInNoName(worker)
    && HoldsNoNeedle(boss, Tag(s)) && !EndsWith(boss, "boss:")
    && (EndsWith(boss, "fingerprint:") ==> s.Two? && worker == FOLLOW_UP)
    && (s.ThreeEscalated? ==> HoldsNoNeedle(s.grandBoss, Tag(s)) && EndsInNoName(s.grandBoss))
  }

  /** Whatever worker, boss and stage the comment is matched for are its own. */
  ghost predicate MatchedOnlyForItself(s: Stage, worker: string, boss: string, minutes: nat) {
    forall tag, w, b ::
      IsTag(tag) && '\n' !in w && '\n' !in b && Marks(StageComment(s, worker, boss, minutes), tag, w, b) ==>
        tag == Tag(s) && w == worker && b == boss
  }

  // ---------- a match, line by line ----------

  /** For one-line keys a comment is matched exactly when some line ends with the wanted fingerprint, some line ends
      with the wanted boss, and the wanted stage is in some line. */
  lemma MarksByLine(s: Stage, worker: string, boss: string, minutes: nat, tag: char, w: string, b: string)
    requires StageKeys(s, worker, boss) && '\n' !in w && '\n' !in b && tag != '\n'
    ensures var lines := StageLines(s, worker, boss, minutes);
      Marks(StageComment(s, worker, boss, minutes), tag, w, b) <==>
      EndsALine(lines, "fingerprint: " + w) && EndsALine(lines, "boss: " + b) && InALine(lines, "stage: " + [tag])
  {
    hide StageLines, Join, Contains, EndsALine, InALine, StartsWith, Tag, StageKeys;
    var lines := StageLines(s, worker, boss, minutes);
    StageLinesAreLines(s, worker, boss, minutes);
    MarksItself(s, worker, boss, minutes);
    NeedleEndsALine(lines, "fingerprint: " + w);
    NeedleEndsALine(lines, "boss: " + b);
    NeedleInALine(lines, "stage: " + [tag]);
    var need := Needles(tag, w, b);
    assert need[0] == "fingerprint: " + w + "\n" && need[1] == "boss: " + b + "\n" && need[2] == "stage: " + [tag];
  }

  // ---------- safe keys: no line but the right one can match ----------

  predicate LacksNeedle(k: string, name: string, v: string) {
    !Contains(k, name + ": " + v) && (v == [] ==> !EndsWith(k, name + ":"))
  }

  lemma LackingKeys(bits: seq<Bit>, s: Stage, worker: string, boss: string, name: string, v: string)
    requires SetsKeys(bits, s, worker, boss)
    requires LacksNeedle(worker, name, v) && LacksNeedle(boss, name, v) && (s.ThreeEscalated? ==> LacksNeedle(s.grandBoss, name, v))
    ensures KeysLack(bits, name, v)
  {
    hide Contains, EndsWith;
  }

  /** Neither the opening nor the request holds a needle that no key holds or ends short of. */
  lemma ProseHoldsNone(s: Stage, worker: string, boss: string, minutes: nat, name: string, v: string)
    requires IsField(name) && IsNeedle(name, v)
    requires LacksNeedle(worker, name, v) && LacksNeedle(boss, name, v) && (s.ThreeEscalated? ==> LacksNeedle(s.grandBoss, name, v))
    ensures !Contains(Opening(s, worker, boss, minutes), name + ": " + v)
    ensures !Contains(Request(s, worker, boss), name + ": " + v)
  {
    var n := Decimal(minutes);
    DecimalIsPlain(minutes);
    hide Contains, EndsWith, Sound, SetsKeys, Top, Ask, Written, Plain, Decimal, IsField, IsNeedle, LacksNeedle, WellWorded, KeysLack;
    var top, ask := Top(s, worker, boss, n), Ask(s, worker, boss);
    TopIsSound(s, worker, boss, n);
    TopSetsKeys(s, worker, boss, n);
    SoundIsWellWorded(top, name);
    LackingKeys(top, s, worker, boss, name, v);
    NoNeedle(top, name, v);
    AskIsSound(s, worker, boss);
    AskSetsKeys(s, worker, boss);
    SoundIsWellWorded(ask, name);
    LackingKeys(ask, s, worker, boss, name, v);
    NoNeedle(ask, name, v);
  }

  lemma Fields()
    ensures Calm("boss: ", "fingerprint") && Calm("fingerprint: ", "boss") && Calm("boss: ", "stage") && Calm("fingerprint: ", "stage")
    ensures IsNeedle("fingerprint", "") && IsNeedle("boss", "") && forall d :: IsTag(d) ==> IsNeedle("stage", [d])
  {
    FieldsStartOnce();
    assert IsName("stage");
    hide IsName;
  }

  lemma FieldNames()
    ensures "fingerprint" + ": " + "" == "fingerprint: " && "fingerprint" + ": " == "fingerprint: " && "fingerprint" + ":" == "fingerprint:"
    ensures "boss" + ": " + "" == "boss: " && "boss" + ": " == "boss: " && "boss" + ":" == "boss:" && "stage" + ": " == "stage: "
  {
  }

  lemma FieldsStartOnce()
    ensures IsName("fingerprint") && forall i :: 0 < i < 11 ==> "fingerprint"[i] != "fingerprint"[0]
    ensures IsName("boss") && forall i :: 0 < i < 4 ==> "boss"[i] != "boss"[0]
  {
  }

  /** The second comment's opening, around its boss. */
  lemma SecondOpening(worker: string, boss: string, n: string)
    requires Plain(n)
    ensures var top := Top(Two, worker, boss, n);
      && |top| == 10 && top[7] == Key(boss) && top[2] == Key(worker) && Written(top) == Written(top[..8]) + Written(top[8..])
      && Written(top[8..]) == " " + FOLLOW_UP && Sound(top[..8]) && Sound(top[8..])
      && (forall i :: 0 <= i < 7 && top[i].Key? ==> top[i] == top[2]) && (forall i :: 8 <= i < 10 ==> top[i].Say?)
  {
    var top := Top(Two, worker, boss, n);
    TwoTopIsSound(worker, boss, n);
    WrittenParts(top[..8], top[8..]);
    assert top[..8] + top[8..] == top;
    assert top[8..] == [Say(" was observed Done. "), Say("This is a follow-up.")];
    TwoBits(" was observed Done. ", "This is a follow-up.");
    FollowUpReads();
    hide Plain, Follows, FOLLOW_UP;
  }

  lemma FollowUpReads()
    ensures " was observed Done. " + "This is a follow-up." == " " + FOLLOW_UP
  {
    assert " was observed Done. " == " " + "was observed Done. ";
  }

  lemma TwoBits(a: string, b: string)
    ensures Written([Say(a), Say(b)]) == a + b
  {
    assert [Say(a), Say(b)][1..] == [Say(b)] && [Say(b)][1..] == [];
    assert Written([Say(b)]) == b + "";
  }

  lemma SecondOpeningFingerprint(worker: string, boss: string, minutes: nat, w: string)
    requires SafeKeys(Two, worker, boss) && EndsWith(boss, "fingerprint:")
    requires EndsWith(Opening(Two, worker, boss, minutes), "fingerprint: " + w)
    ensures w == worker
  {
    var n := Decimal(minutes);
    DecimalIsPlain(minutes);
    SecondOpening(worker, boss, n);
    Fields();
    FieldNames();
    FieldsStartOnce();
    var top := Top(Two, worker, boss, n);
    var front, rest := top[..8], top[8..];
    hide Top, Written, Plain, Decimal, Contains, EndsWith, Sound, WellWorded;
    SoundIsWellWorded(front, "fingerprint");
    SoundIsWellWorded(rest, "fingerprint");
    assert KeysLack(front, "fingerprint", "") && KeysLack(rest, "fingerprint", "");
    NoNeedle(front, "fingerprint", "");
    NoNeedle(rest, "fingerprint", "");
    TailAcross(Written(front), Written(rest), "fingerprint", w);
    assert (" " + FOLLOW_UP)[1..] == FOLLOW_UP;
  }

  /** With safe keys a line that ends with a fingerprint is the worker's. */
  lemma LineOfFingerprint(s: Stage, worker: string, boss: string, minutes: nat, k: nat, w: string)
    requires SafeKeys(s, worker, boss) && k < 6 && EndsWith(StageLines(s, worker, boss, minutes)[k], "fingerprint: " + w)
    ensures w == worker
  {
    hide Opening, Request, Calm, IsNeedle, Tag, IsName, Contains;
    var line := StageLines(s, worker, boss, minutes)[k];
    Fields();
    FieldNames();
    FieldsStartOnce();
    EndIsHeld(line, "fingerprint: ", w);
    if k == 4 {
      OwnLine("fingerprint", worker, w);
    } else if k == 5 {
      SayAddsNone("boss: ", boss, "fingerprint", "");
    } else if EndsWith(boss, "fingerprint:") {
      if k == 0 { SecondOpeningFingerprint(worker, boss, minutes, w); } else if k == 2 { SecondRequestHoldsNone(worker, boss); }
    } else {
      ProseHoldsNone(s, worker, boss, minutes, "fingerprint", "");
    }
  }

  /** In the second comment's request no space follows a key. */
  lemma SecondRequestHoldsNone(worker: string, boss: string)
    requires SafeKeys(Two, worker, boss)
    ensures !Contains(Request(Two, worker, boss), "fingerprint: ")
  {
    Fields();
    FieldNames();
    var ask := Ask(Two, worker, boss);
    TwoAskIsSound(worker, boss);
    AskSetsKeys(Two, worker, boss);
    NoSpaceFollows(worker, boss);
    hide Ask, StartsWith, Contains, Sound, WellWorded, Written, EndsWith;
    SoundIsWellWorded(ask, "fingerprint");
    assert KeysLack(ask, "fingerprint", "");
    NoNeedle(ask, "fingerprint", "");
  }

  lemma NoSpaceFollows(worker: string, boss: string)
    ensures var ask := Ask(Two, worker, boss);
      forall i :: 0 <= i < |ask| && ask[i].Key? ==> i + 1 < |ask| && !StartsWith(ask[i + 1].text, " ")
  {
    assert "'s own boss to "[..1][0] != " "[0] && ". "[..1][0] != " "[0];
    assert !StartsWith("'s own boss to ", " ") && !StartsWith(". ", " ");
    hide StartsWith;
  }

  /** And one that ends with a boss is the boss's. */
  lemma LineOfBoss(s: Stage, worker: string, boss: string, minutes: nat, k: nat, b: string)
    requires SafeKeys(s, worker, boss) && k < 6 && EndsWith(StageLines(s, worker, boss, minutes)[k], "boss: " + b)
    ensures b == boss
  {
    hide Opening, Request, Calm, IsNeedle, Tag, IsName, Contains;
    var line := StageLines(s, worker, boss, minutes)[k];
    Fields();
    FieldNames();
    FieldsStartOnce();
    EndIsHeld(line, "boss: ", b);
    if k == 4 {
      SayAddsNone("fingerprint: ", worker, "boss", "");
    } else if k == 5 {
      OwnLine("boss", boss, b);
    } else {
      ProseHoldsNone(s, worker, boss, minutes, "boss", "");
    }
  }

  /** And no line holds another stage. */
  lemma LineOfStage(s: Stage, worker: string, boss: string, minutes: nat, k: nat, d: char)
    requires SafeKeys(s, worker, boss) && k < 7 && IsTag(d) && Contains(StageLines(s, worker, boss, minutes)[k], "stage: " + [d])
    ensures d == Tag(s)
  {
    Fields();
    FieldNames();
    StageLineHolds(Tag(s), d);
    hide Opening, Request, Calm, IsNeedle, Contains;
    if d != Tag(s) {
      assert "stage" + ": " + [d] == "stage: " + [d];
      ProseHoldsNone(s, worker, boss, minutes, "stage", [d]);
      SayAddsNone("fingerprint: ", worker, "stage", [d]);
      SayAddsNone("boss: ", boss, "stage", [d]);
    }
  }

  lemma StageLineHolds(own: char, d: char)
    ensures Contains("stage: " + [own], "stage: " + [d]) ==> d == own
    ensures !Contains("", "stage: " + [d])
  {
    var s, t := "stage: " + [own], "stage: " + [d];
    assert |s| == 8 && |t| == 8 && s[7] == own && t[7] == d;
    forall i ensures OccursAt(s, t, i) ==> i == 0 && s[0..8] == t {
    }
  }

  lemma SafeKeysMatchThemselves(s: Stage, worker: string, boss: string, minutes: nat)
    requires StageKeys(s, worker, boss) && SafeKeys(s, worker, boss)
    ensures MatchedOnlyForItself(s, worker, boss, minutes)
  {
    hide StageKeys, SafeKeys, StageLines, Marks, StageComment, Tag, EndsWith, Contains;
    var lines := StageLines(s, worker, boss, minutes);
    forall tag, w, b | IsTag(tag) && '\n' !in w && '\n' !in b && Marks(StageComment(s, worker, boss, minutes), tag, w, b)
      ensures tag == Tag(s) && w == worker && b == boss
    {
      MarksByLine(s, worker, boss, minutes, tag, w, b);
      assert |lines| == 7 by { SevenLines(s, worker, boss, minutes); }
      var i :| 0 <= i < |lines| - 1 && EndsWith(lines[i], "fingerprint: " + w);
      LineOfFingerprint(s, worker, boss, minutes, i, w);
      var j :| 0 <= j < |lines| - 1 && EndsWith(lines[j], "boss: " + b);
      LineOfBoss(s, worker, boss, minutes, j, b);
      var k :| 0 <= k < |lines| && Contains(lines[k], "stage: " + [tag]);
      LineOfStage(s, worker, boss, minutes, k, tag);
    }
  }

  lemma SevenLines(s: Stage, worker: string, boss: string, minutes: nat)
    ensures |StageLines(s, worker, boss, minutes)| == 7
  {
    hide Opening, Request, Tag;
  }

  // ---------- unsafe keys: some other match ----------

  lemma WrongFingerprint(s: Stage, worker: string, boss: string, minutes: nat, k: nat, w: string)
    requires StageKeys(s, worker, boss) && k < 6 && w != worker
    requires EndsWith(StageLines(s, worker, boss, minutes)[k], "fingerprint: " + w)
    ensures !MatchedOnlyForItself(s, worker, boss, minutes)
  {
    hide Opening, Request, Contains, StageComment, Marks;
    var lines := StageLines(s, worker, boss, minutes);
    StageLinesAreLines(s, worker, boss, minutes);
    assert lines[k] in lines;
    EndIsOneLine(lines[k], "fingerprint: ", w);
    MarksItself(s, worker, boss, minutes);
    MarksByLine(s, worker, boss, minutes, Tag(s), worker, boss);
    MarksByLine(s, worker, boss, minutes, Tag(s), w, boss);
    assert EndsALine(lines, "fingerprint: " + w);
    hide EndsALine, InALine;
    assert Marks(StageComment(s, worker, boss, minutes), Tag(s), w, boss);
  }

  lemma WrongBoss(s: Stage, worker: string, boss: string, minutes: nat, k: nat, b: string)
    requires StageKeys(s, worker, boss) && k < 6 && b != boss
    requires EndsWith(StageLines(s, worker, boss, minutes)[k], "boss: " + b)
    ensures !MatchedOnlyForItself(s, worker, boss, minutes)
  {
    hide Opening, Request, Contains, StageComment, Marks;
    var lines := StageLines(s, worker, boss, minutes);
    StageLinesAreLines(s, worker, boss, minutes);
    assert lines[k] in lines;
    EndIsOneLine(lines[k], "boss: ", b);
    MarksItself(s, worker, boss, minutes);
    MarksByLine(s, worker, boss, minutes, Tag(s), worker, boss);
    MarksByLine(s, worker, boss, minutes, Tag(s), worker, b);
    assert EndsALine(lines, "boss: " + b);
    hide EndsALine, InALine;
    assert Marks(StageComment(s, worker, boss, minutes), Tag(s), worker, b);
  }

  lemma WrongStage(s: Stage, worker: string, boss: string, minutes: nat, k: nat, d: char)
    requires StageKeys(s, worker, boss) && k < 7 && IsTag(d) && d != Tag(s)
    requires Contains(StageLines(s, worker, boss, minutes)[k], "stage: " + [d])
    ensures !MatchedOnlyForItself(s, worker, boss, minutes)
  {
    hide Opening, Request, Contains, EndsWith, StageComment, Marks;
    var lines := StageLines(s, worker, boss, minutes);
    MarksItself(s, worker, boss, minutes);
    MarksByLine(s, worker, boss, minutes, Tag(s), worker, boss);
    MarksByLine(s, worker, boss, minutes, d, worker, boss);
    assert InALine(lines, "stage: " + [d]);
    hide EndsALine, InALine, StageKeys;
    assert Marks(StageComment(s, worker, boss, minutes), d, worker, boss);
  }

  lemma EndIsOneLine(l: string, t: string, y: string)
    requires '\n' !in l && EndsWith(l, t + y)
    ensures '\n' !in y
  {
    assert forall q :: 0 <= q < |y| ==> (t + y)[|t| + q] == y[q];
    assert l[|l| - |t + y|..] == t + y;
    assert forall c :: c in t + y ==> c in l;
  }

  /** At bit j there is a key with a space after it and, further on, another key; the text ends with a full stop. */
  predicate RunsTo(bits: seq<Bit>, j: nat, key: string, m: nat, other: string) {
    && j + 1 < m < |bits| && bits[j] == Key(key) && bits[m].text == other
    && StartsWith(bits[j + 1].text, " ") && |bits[j + 1].text| > 1
    && EndsWith(bits[|bits| - 1].text, ".")
  }

  lemma TailTo(bits: seq<Bit>, j: nat, key: string, m: nat, other: string, t: string) returns (r: string)
    requires RunsTo(bits, j, key, m, other) && EndsWith(key, t)
    ensures " " + r == Written(bits[j + 1..]) && EndsWith(Written(bits), t + " " + r) && |r| > |other| && r[|r| - 1] == '.'
  {
    var rest := Written(bits[j + 1..]);
    var last := bits[|bits| - 1].text;
    assert last[|last| - 1..][0] == '.';
    RunsOn(bits, j, m, t);
    r := rest[1..];
    assert rest[0] == rest[..|bits[j + 1].text|][0] == bits[j + 1].text[0] == bits[j + 1].text[..1][0];
    assert t + (" " + r) == t + " " + r;
  }

  lemma SpacesFirst()
    ensures StartsWith(" is still open. ", " ") && StartsWith(" is still open, ", " ") && StartsWith(" will never call ", " ")
    ensures StartsWith(" was observed Done. ", " ") && StartsWith(" was observed Done, ", " ") && StartsWith(" is a human-owned ", " ")
    ensures StartsWith(" \U{2014} which has not ", " ") && StartsWith(" to review ", " ")
  {
  }

  lemma StopsLast()
    ensures EndsWith("start it again.", ".") && EndsWith("This is a follow-up.", ".") && EndsWith(".", ".")
    ensures EndsWith("further.", ".") && EndsWith("new boss.", ".") && EndsWith("a new boss.", ".")
  {
  }

  lemma WorkerInTop(s: Stage, worker: string, boss: string, n: string)
    ensures RunsTo(Top(s, worker, boss, n), if s.One? then 7 else 2, worker, if s.One? then 9 else 7, boss)
  {
    SpacesFirst();
    StopsLast();
    hide StartsWith, EndsWith;
  }

  lemma BossInTop(s: Stage, worker: string, boss: string, n: string)
    ensures s.One? ==> RunsTo(Top(s, worker, boss, n), 9, boss, 12, worker)
    ensures s.ThreeEscalated? ==> RunsTo(Top(s, worker, boss, n), 7, boss, 14, worker)
    ensures s.Two? ==> RunsTo(Top(s, worker, boss, n), 7, boss, 9, "This is a follow-up.")
  {
    SpacesFirst();
    StopsLast();
    hide StartsWith, EndsWith;
  }

  lemma OtherKeysInProse(s: Stage, worker: string, boss: string, n: string)
    ensures s.ThreeTerminal? ==> RunsTo(Ask(s, worker, boss), 0, boss, 6, worker)
    ensures s.ThreeEscalated? ==> RunsTo(Top(s, worker, boss, n), 10, s.grandBoss, 14, worker)
    ensures s.ThreeEscalated? ==> RunsTo(Ask(s, worker, boss), 1, s.grandBoss, 3, worker)
  {
    SpacesFirst();
    StopsLast();
    hide StartsWith, EndsWith;
  }

  /** The worker is followed by a space and then, further on, by the boss. */
  lemma WorkerRunsOn(s: Stage, worker: string, boss: string, minutes: nat, t: string) returns (r: string)
    requires EndsWith(worker, t)
    ensures EndsWith(Opening(s, worker, boss, minutes), t + " " + r) && |r| > |boss| && r[|r| - 1] == '.'
  {
    var n := Decimal(minutes);
    WorkerInTop(s, worker, boss, n);
    hide Top, Decimal, EndsWith, RunsTo;
    r := TailTo(Top(s, worker, boss, n), if s.One? then 7 else 2, worker, if s.One? then 9 else 7, boss, t);
  }

  /** The boss is followed by a space and then, save in the second comment, by the worker. */
  lemma BossRunsOn(s: Stage, worker: string, boss: string, minutes: nat, t: string) returns (k: nat, r: string)
    requires EndsWith(boss, t)
    ensures k < 6 && EndsWith(StageLines(s, worker, boss, minutes)[k], t + " " + r) && r != [] && r[|r| - 1] == '.'
    ensures if s.Two? then r == FOLLOW_UP else |r| > |worker|
  {
    var n := Decimal(minutes);
    DecimalIsPlain(minutes);
    var top, ask := Top(s, worker, boss, n), Ask(s, worker, boss);
    BossInTop(s, worker, boss, n);
    OtherKeysInProse(s, worker, boss, n);
    hide Top, Ask, Decimal, EndsWith, RunsTo, FOLLOW_UP, Plain, Sound;
    match s
    case One => k := 0; r := TailTo(top, 9, boss, 12, worker, t);
    case Two =>
      k := 0;
      r := TailTo(top, 7, boss, 9, "This is a follow-up.", t);
      SecondOpening(worker, boss, n);
      assert (" " + r)[1..] == r && (" " + FOLLOW_UP)[1..] == FOLLOW_UP;
    case ThreeEscalated(_) => k := 0; r := TailTo(top, 7, boss, 14, worker, t);
    case ThreeTerminal => k := 2; r := TailTo(ask, 0, boss, 6, worker, t);
  }

  /** The boss's boss is followed by different things in the opening and in the request. */
  lemma GrandBossRunsOn(s: Stage, worker: string, boss: string, minutes: nat, t: string) returns (r: string, q: string)
    requires s.ThreeEscalated? && EndsWith(s.grandBoss, t)
    ensures EndsWith(Opening(s, worker, boss, minutes), t + " " + r) && EndsWith(Request(s, worker, boss), t + " " + q)
    ensures r != q && |r| > |worker|
  {
    var n := Decimal(minutes);
    var top, ask := Top(s, worker, boss, n), Ask(s, worker, boss);
    OtherKeysInProse(s, worker, boss, n);
    AfterGrandBoss(s, worker, boss, n);
    hide Top, Ask, Decimal, EndsWith, RunsTo;
    r := TailTo(top, 10, s.grandBoss, 14, worker, t);
    q := TailTo(ask, 1, s.grandBoss, 3, worker, t);
    assert (" " + r)[1] == r[0] && (" " + q)[1] == q[0];
  }

  lemma AfterGrandBoss(s: Stage, worker: string, boss: string, n: string)
    requires s.ThreeEscalated?
    ensures var r, q := Written(Top(s, worker, boss, n)[11..]), Written(Ask(s, worker, boss)[2..]);
      |r| > 1 && |q| > 1 && r[1] != q[1]
  {
    var top, ask := Top(s, worker, boss, n), Ask(s, worker, boss);
    assert top[11..][0].text == " \U{2014} which has not " && ask[2..][0].text == " to review ";
    assert " \U{2014} which has not "[1] != " to review "[1];
    hide Top, Ask;
  }

  /** The lines of their own end as the keys do. */
  lemma FieldLineEnds(s: Stage, worker: string, boss: string, minutes: nat, t: string)
    ensures EndsWith(worker, t) ==> EndsWith(StageLines(s, worker, boss, minutes)[4], t)
    ensures EndsWith(boss, t) ==> EndsWith(StageLines(s, worker, boss, minutes)[5], t)
  {
    EndAfter("fingerprint: ", worker, t);
    EndAfter("boss: ", boss, t);
    hide Opening, Request, EndsWith;
  }

  lemma EndAfter(a: string, k: string, t: string)
    ensures EndsWith(k, t) ==> EndsWith(a + k, t)
  {
    if EndsWith(k, t) { assert (a + k)[|a + k| - |t|..] == k[|k| - |t|..]; }
  }

  lemma Regroup(t: string, y: string, r: string)
    ensures (t + y) + " " + r == t + (y + " " + r) && |y + " " + r| > |y|
  {
  }

  lemma WorkerHoldsOne(s: Stage, worker: string, boss: string, minutes: nat)
    requires StageKeys(s, worker, boss)
    requires Contains(worker, "fingerprint: ") || Contains(worker, "boss: ")
    ensures !MatchedOnlyForItself(s, worker, boss, minutes)
  {
    hide MatchedOnlyForItself, StageKeys, StageLines, Opening, EndsWith, Contains;
    if Contains(worker, "fingerprint: ") {
      var y := HeldTail(worker, "fingerprint: ");
      FieldLineEnds(s, worker, boss, minutes, "fingerprint: " + y);
      WrongFingerprint(s, worker, boss, minutes, 4, y);
    } else {
      var y := HeldTail(worker, "boss: ");
      FieldLineEnds(s, worker, boss, minutes, "boss: " + y);
      var r := WorkerRunsOn(s, worker, boss, minutes, "boss: " + y);
      Regroup("boss: ", y, r);
      if y != boss {
        WrongBoss(s, worker, boss, minutes, 4, y);
      } else {
        OpeningIsFirst(s, worker, boss, minutes);
        WrongBoss(s, worker, boss, minutes, 0, y + " " + r);
      }
    }
  }

  lemma OpeningIsFirst(s: Stage, worker: string, boss: string, minutes: nat)
    ensures StageLines(s, worker, boss, minutes)[0] == Opening(s, worker, boss, minutes)
    ensures StageLines(s, worker, boss, minutes)[2] == Request(s, worker, boss)
  {
    hide Opening, Request, Tag;
  }

  lemma BossHoldsOne(s: Stage, worker: string, boss: string, minutes: nat)
    requires StageKeys(s, worker, boss)
    requires Contains(boss, "fingerprint: ") || Contains(boss, "boss: ")
    ensures !MatchedOnlyForItself(s, worker, boss, minutes)
  {
    hide MatchedOnlyForItself, StageKeys, StageLines, EndsWith, Contains;
    if Contains(boss, "boss: ") {
      var y := HeldTail(boss, "boss: ");
      FieldLineEnds(s, worker, boss, minutes, "boss: " + y);
      WrongBoss(s, worker, boss, minutes, 5, y);
    } else {
      var y := HeldTail(boss, "fingerprint: ");
      FieldLineEnds(s, worker, boss, minutes, "fingerprint: " + y);
      var k, r := BossRunsOn(s, worker, boss, minutes, "fingerprint: " + y);
      Regroup("fingerprint: ", y, r);
      if y != worker {
        WrongFingerprint(s, worker, boss, minutes, 5, y);
      } else {
        WrongFingerprint(s, worker, boss, minutes, k, y + " " + r);
      }
    }
  }

  lemma GrandBossHoldsOne(s: Stage, worker: string, boss: string, minutes: nat)
    requires StageKeys(s, worker, boss) && s.ThreeEscalated?
    requires Contains(s.grandBoss, "fingerprint: ") || Contains(s.grandBoss, "boss: ")
    ensures !MatchedOnlyForItself(s, worker, boss, minutes)
  {
    hide MatchedOnlyForItself, StageKeys, StageLines, Opening, Request, EndsWith, Contains;
    OpeningIsFirst(s, worker, boss, minutes);
    var name := if Contains(s.grandBoss, "boss: ") then "boss: " else "fingerprint: ";
    var y := HeldTail(s.grandBoss, name);
    var r, q := GrandBossRunsOn(s, worker, boss, minutes, name + y);
    Regroup(name, y, r);
    Regroup(name, y, q);
    TailsDiffer(y, r, q);
    GrandBossMisleads(s, worker, boss, minutes, name, y + " " + r, y + " " + q);
  }

  lemma TailsDiffer(y: string, r: string, q: string)
    requires r != q
    ensures y + " " + r != y + " " + q
  {
    assert (y + " " + r)[|y| + 1..] == r && (y + " " + q)[|y| + 1..] == q;
  }

  /** Of two readings of the boss's boss one is wrong. */
  lemma GrandBossMisleads(s: Stage, worker: string, boss: string, minutes: nat, name: string, y: string, z: string)
    requires StageKeys(s, worker, boss) && name in ["fingerprint: ", "boss: "] && y != z
    requires EndsWith(StageLines(s, worker, boss, minutes)[0], name + y) && EndsWith(StageLines(s, worker, boss, minutes)[2], name + z)
    ensures !MatchedOnlyForItself(s, worker, boss, minutes)
  {
    hide MatchedOnlyForItself, StageKeys, StageLines, EndsWith;
    if name == "boss: " {
      if y != boss { WrongBoss(s, worker, boss, minutes, 0, y); } else { WrongBoss(s, worker, boss, minutes, 2, z); }
    } else {
      if y != worker { WrongFingerprint(s, worker, boss, minutes, 0, y); } else { WrongFingerprint(s, worker, boss, minutes, 2, z); }
    }
  }

  lemma KeyHoldsStage(s: Stage, worker: string, boss: string, minutes: nat, d: char)
    requires StageKeys(s, worker, boss) && IsTag(d) && d != Tag(s)
    requires Contains(worker, "stage: " + [d]) || Contains(boss, "stage: " + [d])
             || (s.ThreeEscalated? && Contains(s.grandBoss, "stage: " + [d]))
    ensures !MatchedOnlyForItself(s, worker, boss, minutes)
  {
    var t := "stage: " + [d];
    if Contains(worker, t) { ContainsAfter("fingerprint: ", worker, t); }
    if Contains(boss, t) { ContainsAfter("boss: ", boss, t); }
    FieldLines(s, worker, boss, minutes);
    OpeningIsFirst(s, worker, boss, minutes);
    hide MatchedOnlyForItself, StageKeys, StageLines, Opening, Request, EndsWith, Contains, Tag;
    if Contains(worker, t) {
      WrongStage(s, worker, boss, minutes, 4, d);
    } else if Contains(boss, t) {
      WrongStage(s, worker, boss, minutes, 5, d);
    } else {
      OpeningHolds(s, worker, boss, minutes, t);
      WrongStage(s, worker, boss, minutes, 0, d);
    }
  }

  lemma FieldLines(s: Stage, worker: string, boss: string, minutes: nat)
    ensures StageLines(s, worker, boss, minutes)[4] == "fingerprint: " + worker
    ensures StageLines(s, worker, boss, minutes)[5] == "boss: " + boss
  {
    hide Opening, Request, Tag;
  }

  lemma OpeningHolds(s: Stage, worker: string, boss: string, minutes: nat, t: string)
    requires s.ThreeEscalated? && Contains(s.grandBoss, t)
    ensures Contains(Opening(s, worker, boss, minutes), t)
  {
    var top := Top(s, worker, boss, Decimal(minutes));
    OtherKeysInProse(s, worker, boss, Decimal(minutes));
    hide Top, Decimal, Contains, StartsWith, EndsWith;
    WrittenAround(top, 10);
    ContainsWithin(Written(top[..10]), s.grandBoss, Written(top[11..]), t);
  }

  lemma LastOf(s: string, t: string)
    requires EndsWith(s, t) && t != []
    ensures s != [] && s[|s| - 1] == t[|t| - 1]
  {
    assert s[|s| - |t|..][|t| - 1] == t[|t| - 1];
  }

  lemma WorkerEndsShort(s: Stage, worker: string, boss: string, minutes: nat)
    requires StageKeys(s, worker, boss) && !EndsInNoName(worker)
    ensures !MatchedOnlyForItself(s, worker, boss, minutes)
  {
    hide MatchedOnlyForItself, StageKeys, StageLines, Opening, EndsWith;
    OpeningIsFirst(s, worker, boss, minutes);
    if EndsWith(worker, "fingerprint:") {
      var r := WorkerRunsOn(s, worker, boss, minutes, "fingerprint:");
      LastOf(worker, "fingerprint:");
      assert "fingerprint:" + " " + r == "fingerprint: " + r;
      WrongFingerprint(s, worker, boss, minutes, 0, r);
    } else {
      var r := WorkerRunsOn(s, worker, boss, minutes, "boss:");
      assert "boss:" + " " + r == "boss: " + r;
      WrongBoss(s, worker, boss, minutes, 0, r);
    }
  }

  lemma BossEndsShort(s: Stage, worker: string, boss: string, minutes: nat)
    requires StageKeys(s, worker, boss)
    requires EndsWith(boss, "boss:") || (EndsWith(boss, "fingerprint:") && !(s.Two? && worker == FOLLOW_UP))
    ensures !MatchedOnlyForItself(s, worker, boss, minutes)
  {
    hide MatchedOnlyForItself, StageKeys, StageLines, EndsWith, FOLLOW_UP;
    if EndsWith(boss, "boss:") {
      var k, r := BossRunsOn(s, worker, boss, minutes, "boss:");
      LastOf(boss, "boss:");
      assert "boss:" + " " + r == "boss: " + r;
      WrongBoss(s, worker, boss, minutes, k, r);
    } else {
      var k, r := BossRunsOn(s, worker, boss, minutes, "fingerprint:");
      assert "fingerprint:" + " " + r == "fingerprint: " + r;
      WrongFingerprint(s, worker, boss, minutes, k, r);
    }
  }

  lemma GrandBossEndsShort(s: Stage, worker: string, boss: string, minutes: nat)
    requires StageKeys(s, worker, boss) && s.ThreeEscalated? && !EndsInNoName(s.grandBoss)
    ensures !MatchedOnlyForItself(s, worker, boss, minutes)
  {
    OpeningIsFirst(s, worker, boss, minutes);
    hide MatchedOnlyForItself, StageKeys, StageLines, Opening, Request, EndsWith;
    var name := if EndsWith(s.grandBoss, "boss:") then "boss:" else "fingerprint:";
    var r, q := GrandBossRunsOn(s, worker, boss, minutes, name);
    assert "boss:" + " " == "boss: " && "fingerprint:" + " " == "fingerprint: ";
    GrandBossMisleads(s, worker, boss, minutes, name + " ", r, q);
  }

  // ---------- exactly when ----------

  /** For keys that are one line a stage comment is matched for nothing but its own worker, boss and stage
      exactly when the keys are safe. */
  lemma MatchedOnlyForItselfExactly(s: Stage, worker: string, boss: string, minutes: nat)
    requires StageKeys(s, worker, boss)
    ensures MatchedOnlyForItself(s, worker, boss, minutes) <==> SafeKeys(s, worker, boss)
  {
    hide MatchedOnlyForItself, StageKeys, EndsInNoName, FOLLOW_UP, EndsWith, Contains, Tag;
    if SafeKeys(s, worker, boss) {
      SafeKeysMatchThemselves(s, worker, boss, minutes);
    } else if !HoldsNoNeedle(worker, Tag(s)) || !HoldsNoNeedle(boss, Tag(s)) || (s.ThreeEscalated? && !HoldsNoNeedle(s.grandBoss, Tag(s))) {
      SomeKeyHoldsOne(s, worker, boss, minutes);
    } else if !EndsInNoName(worker) {
      WorkerEndsShort(s, worker, boss, minutes);
    } else if s.ThreeEscalated? && !EndsInNoName(s.grandBoss) {
      GrandBossEndsShort(s, worker, boss, minutes);
    } else {
      BossEndsShort(s, worker, boss, minutes);
    }
  }

  lemma SomeKeyHoldsOne(s: Stage, worker: string, boss: string, minutes: nat)
    requires StageKeys(s, worker, boss)
    requires !HoldsNoNeedle(worker, Tag(s)) || !HoldsNoNeedle(boss, Tag(s)) || (s.ThreeEscalated? && !HoldsNoNeedle(s.grandBoss, Tag(s)))
    ensures !MatchedOnlyForItself(s, worker, boss, minutes)
  {
    hide MatchedOnlyForItself, StageKeys, Contains, Tag;
    if Contains(worker, "fingerprint: ") || Contains(worker, "boss: ") {
      WorkerHoldsOne(s, worker, boss, minutes);
    } else if Contains(boss, "fingerprint: ") || Contains(boss, "boss: ") {
      BossHoldsOne(s, worker, boss, minutes);
    } else if s.ThreeEscalated? && (Contains(s.grandBoss, "fingerprint: ") || Contains(s.grandBoss, "boss: ")) {
      GrandBossHoldsOne(s, worker, boss, minutes);
    } else {
      var d :| IsTag(d) && d != Tag(s)
               && (Contains(worker, "stage: " + [d]) || Contains(boss, "stage: " + [d])
                   || (s.ThreeEscalated? && Contains(s.grandBoss, "stage: " + [d])));
      KeyHoldsStage(s, worker, boss, minutes, d);
    }
  }

  /** So with safe keys a comment is matched for exactly its own worker, boss and stage, even where one key begins
      another. */
  lemma MarksOnlyItself(s: Stage, worker: string, boss: string, minutes: nat, tag: char, w: string, b: string)
    requires StageKeys(s, worker, boss) && SafeKeys(s, worker, boss) && IsTag(tag) && '\n' !in w && '\n' !in b
    ensures Marks(StageComment(s, worker, boss, minutes), tag, w, b) <==> tag == Tag(s) && w == worker && b == boss
  {
    hide StageKeys, SafeKeys, StageComment, Marks, Tag, Contains;
    MarksItself(s, worker, boss, minutes);
    MatchedOnlyForItselfExactly(s, worker, boss, minutes);
  }

  /** Keys that neither hold a colon with a space after it nor end with a colon are safe: so are Jira's. */
  lemma PlainKeysAreSafe(s: Stage, worker: string, boss: string)
    requires forall k :: k in [worker, boss] || (s.ThreeEscalated? && k == s.grandBoss) ==> !Contains(k, ": ") && !EndsWith(k, ":")
    ensures SafeKeys(s, worker, boss)
  {
    NeedlesHaveColons(worker);
    NeedlesHaveColons(boss);
    if s.ThreeEscalated? { NeedlesHaveColons(s.grandBoss); }
    hide Contains, EndsWith;
  }

  lemma NeedlesHaveColons(k: string)
    requires !Contains(k, ": ") && !EndsWith(k, ":")
    ensures forall own :: HoldsNoNeedle(k, own)
    ensures EndsInNoName(k)
  {
    hide Contains, EndsWith;
    HasColon(k, "fingerprint", "");
    HasColon(k, "boss", "");
    forall d: char ensures !Contains(k, "stage: " + [d]) {
      HasColon(k, "stage", [d]);
      assert "stage: " + [d] == "stage" + ": " + [d];
    }
    assert "fingerprint: " == "fingerprint" + ": " + "" && "boss: " == "boss" + ": " + "";
    assert "fingerprint:" == "fingerprint" + ":" && "boss:" == "boss" + ":";
  }

  lemma HasColon(k: string, a: string, b: string)
    ensures Contains(k, a + ": " + b) ==> Contains(k, ": ")
    ensures EndsWith(k, a + ":") ==> EndsWith(k, ":")
  {
    var t, u := a + ": " + b, a + ":";
    if Contains(k, t) {
      var i :| 0 <= i <= |k| && OccursAt(k, t, i);
      var front, rest := k[..i], k[i + |t|..];
      assert k == front + t + rest;
      assert k == (front + a) + ": " + (b + rest);
      ContainsMiddle(front + a, ": ", b + rest);
    }
    if EndsWith(k, u) {
      assert u[|a|] == ':' && k[|k| - |u|..][|a|] == k[|k| - 1];
      assert k[|k| - 1..] == ":";
    }
  }

  /** One line is not enough: with this key a comment is taken for another worker's. */
  lemma ColonInKeyMisleads(boss: string, minutes: nat)
    ensures var worker := "fingerprint: A-1";
      '\n' !in worker && worker != "A-1" && Marks(StageComment(One, worker, boss, minutes), '1', "A-1", boss)
  {
    var worker := "fingerprint: A-1";
    MarksItself(One, worker, boss, minutes);
    var body := StageComment(One, worker, boss, minutes);
    var own, need := Needles('1', worker, boss), Needles('1', "A-1", boss);
    hide StageComment, Contains;
    assert own[0] == "fingerprint: " + need[0] && own[1] == need[1] && own[2] == need[2];
    ContainsTail(body, "fingerprint: ", need[0]);
    assert Contains(body, own[1]) && Contains(body, own[2]);
  }

  lemma ContainsTail(s: string, a: string, t: string)
    requires Contains(s, a + t)
    ensures Contains(s, t)
  {
    var i :| 0 <= i <= |s| && OccursAt(s, a + t, i);
    assert s[i + |a|..i + |a| + |t|] == s[i..i + |a + t|][|a|..];
    assert OccursAt(s, t, i + |a|);
  }
}
