/** The comments of the abandoned-worker detector as text, and what it looks for in them (src/agents/abandoned.ts). */
module StageText {
  import opened Text
  import opened Wording
  import opened CommentText

  const ABANDONED := "[butchr:abandoned]"

  datatype Stage = One | Two | ThreeEscalated(grandBoss: string) | ThreeTerminal

  function Tag(s: Stage): char {
    match s case One => '1' case Two => '2' case _ => '3'
  }

  // ---------- the four stage comments ----------

  /** The observation a comment opens with. */
  function Top(s: Stage, worker: string, boss: string, minutes: string): seq<Bit> {
    var w, b, n := Key(worker), Key(boss), Say(minutes);
    match s
    case One =>
      [Say(ABANDONED), Say(" this ticket's "), Say("Implements boss, "), b, Say(", was observed Done "), n,
       Say(" minutes ago while "), w, Say(" is still open. "), b, Say(" will never call "), Say("finish_worker on "), w,
       Say(", answer it, or "), Say("start it again.")]
    case Two =>
      [Say(ABANDONED), Say(" "), w, Say(" is still open, "), n, Say(" minutes after its "), Say("boss "), b,
       Say(" was observed Done. "), Say("This is a follow-up.")]
    case ThreeEscalated(grandBoss) =>
      [Say(ABANDONED), Say(" "), w, Say(" is still open, "), n, Say(" minutes after its "), Say("boss "), b,
       Say(" was observed Done, "), Say("under "), Key(grandBoss), Say(" \U{2014} which has not "), Say("acted on two prior "),
       Say("notices on "), w, Say(".")]
    case ThreeTerminal =>
      [Say(ABANDONED), Say(" "), w, Say(" is still open, "), n, Say(" minutes after its "), Say("boss "), b,
       Say(" was observed Done, "), Say("and "), b, Say(" has no boss of its "), Say("own to escalate to "), Say("further.")]
  }

  const PROMISE := "broken promise: "

  /** What it asks for. */
  function Ask(s: Stage, worker: string, boss: string): seq<Bit> {
    var w, b := Key(worker), Key(boss);
    match s
    case One =>
      [Say("If the work here is "), Say("actually finished, "), Say("ask a human or "), b, Say("'s own boss to "),
       Say("review and close "), w, Say(" \U{2014} a worker cannot "), Say("close itself "), Say("(finish_worker is not "), w,
       Say("'s to call on itself). "), Say("If it is not finished, "), Say("this may be a "), Say(PROMISE),
       Say("surface it to a human "), Say("rather than waiting "), Say("further.")]
    case Two =>
      [Say("If the work here is "), Say("actually finished, "), Say("ask a human or "), b, Say("'s own boss to "),
       Say("review and close "), w, Say(". "), Say("If it is not finished, "), Say("surface it to a human.")]
    case ThreeEscalated(grandBoss) =>
      [Say("Prompt "), Key(grandBoss), Say(" to review "), w, Say(" and either have it "), Say("closed (if the work is "),
       Say("finished) or given a "), Say("new boss.")]
    case ThreeTerminal =>
      [b, Say(" is a human-owned "), Say("ticket (it has no "), Say("Implements boss of its "), Say("own) \U{2014} a human should "),
       Say("review "), w, Say(" directly and either "), Say("close it (if the work "), Say("is finished) or give it "), Say("a new boss.")]
  }

  function Opening(s: Stage, worker: string, boss: string, minutes: nat): string {
    Written(Top(s, worker, boss, Decimal(minutes)))
  }

  function Request(s: Stage, worker: string, boss: string): string {
    Written(Ask(s, worker, boss))
  }

  function StageLines(s: Stage, worker: string, boss: string, minutes: nat): seq<string> {
    [Opening(s, worker, boss, minutes), "", Request(s, worker, boss), "",
     "fingerprint: " + worker, "boss: " + boss, "stage: " + [Tag(s)]]
  }

  function StageComment(s: Stage, worker: string, boss: string, minutes: nat): string {
    Join(StageLines(s, worker, boss, minutes))
  }

  /** What `postStage` looks for before it posts. */
  function Needles(tag: char, worker: string, boss: string): seq<string> {
    ["fingerprint: " + worker + "\n", "boss: " + boss + "\n", "stage: " + [tag]]
  }

  predicate Marks(body: string, tag: char, worker: string, boss: string) {
    StartsWith(body, ABANDONED) && HasAll(body, Needles(tag, worker, boss))
  }

  /** A comment opens with its marker. */
  lemma OpeningStarts(s: Stage, worker: string, boss: string, minutes: nat)
    ensures StartsWith(Opening(s, worker, boss, minutes), ABANDONED)
  {
    var bits := Top(s, worker, boss, Decimal(minutes));
    assert bits[0] == Say(ABANDONED);
    hide Top;
    assert Written(bits) == bits[0].text + Written(bits[1..]);
  }

  /** A comment carries its own needles. */
  lemma MarksItself(s: Stage, worker: string, boss: string, minutes: nat)
    ensures Marks(StageComment(s, worker, boss, minutes), Tag(s), worker, boss)
  {
    var lines := StageLines(s, worker, boss, minutes);
    var body := Join(lines);
    var need := Needles(Tag(s), worker, boss);
    OpeningStarts(s, worker, boss, minutes);
    hide Opening, Request, Join, Tag;
    JoinContains(lines, 4);
    JoinContains(lines, 5);
    JoinContains(lines, 6);
    assert need[0] == lines[4] + "\n" && need[1] == lines[5] + "\n" && need[2] == lines[6];
    JoinStartsWith(lines);
    assert body[..|ABANDONED|] == body[..|lines[0]|][..|ABANDONED|];
    hide Contains;
  }

  // ---------- the wording ----------

  /** Wording without a colon, on one line, that does not end in a letter. */
  predicate Plain(s: string) {
    s != [] && !IsLower(s[|s| - 1]) && forall i :: 0 <= i < |s| ==> s[i] != ':' && s[i] != '\n'
  }

  predicate Sound(bits: seq<Bit>) {
    forall i :: 0 <= i < |bits| ==>
      && (bits[i].Say? ==> Plain(bits[i].text) || bits[i].text in {ABANDONED, PROMISE})
      && (bits[i].Key? && i + 1 < |bits| ==> bits[i + 1].Say? && Follows(bits[i + 1].text))
  }

  predicate StageKeys(s: Stage, worker: string, boss: string) {
    '\n' !in worker && '\n' !in boss && (s.ThreeEscalated? ==> '\n' !in s.grandBoss)
  }

  predicate SetsKeys(bits: seq<Bit>, s: Stage, worker: string, boss: string) {
    forall i :: 0 <= i < |bits| && bits[i].Key? ==> bits[i].text in [worker, boss] || (s.ThreeEscalated? && bits[i].text == s.grandBoss)
  }

  lemma DecimalIsPlain(n: nat)
    ensures Plain(Decimal(n))
  {
    DecimalReads(n);
  }

  lemma OpeningWords()
    ensures Plain(" this ticket's ") && Plain("Implements boss, ") && Plain(", was observed Done ") && Plain(" minutes ago while ")
    ensures Plain(" ")
  {
  }

  lemma NeverCalls()
    ensures Plain(" is still open. ") && Plain(" will never call ") && Plain("finish_worker on ") && Plain(", answer it, or ")
    ensures Plain("start it again.")
  {
  }

  lemma StillOpen()
    ensures Plain(" is still open, ") && Plain(" minutes after its ") && Plain("boss ") && Plain(" was observed Done. ")
    ensures Plain("This is a follow-up.")
  {
  }

  lemma NotActed()
    ensures Plain(" was observed Done, ") && Plain("under ") && Plain(" \U{2014} which has not ") && Plain("acted on two prior ")
    ensures Plain("notices on ") && Plain(".")
  {
  }

  lemma NoBossAbove()
    ensures Plain("and ") && Plain(" has no boss of its ") && Plain("own to escalate to ") && Plain("further.")
  {
  }

  lemma IfFinished()
    ensures Plain("If the work here is ") && Plain("actually finished, ") && Plain("ask a human or ") && Plain("'s own boss to ")
    ensures Plain("review and close ")
  {
  }

  lemma IfNotFinished()
    ensures Plain(" \U{2014} a worker cannot ") && Plain("close itself ") && Plain("(finish_worker is not ")
  {
  }

  lemma BrokenPromise()
    ensures Plain("'s to call on itself). ") && Plain("If it is not finished, ") && Plain("this may be a ")
  {
  }

  lemma SurfaceIt()
    ensures Plain("surface it to a human ") && Plain("rather than waiting ") && Plain(". ") && Plain("surface it to a human.")
  {
  }

  lemma PromptThem()
    ensures Plain("Prompt ") && Plain(" to review ") && Plain(" and either have it ") && Plain("closed (if the work is ")
    ensures Plain("finished) or given a ") && Plain("new boss.")
  {
  }

  lemma HumanOwned()
    ensures Plain(" is a human-owned ") && Plain("ticket (it has no ") && Plain("Implements boss of its ")
    ensures Plain("own) \U{2014} a human should ") && Plain("review ")
  {
  }

  lemma CloseIt()
    ensures Plain(" directly and either ") && Plain("close it (if the work ") && Plain("is finished) or give it ") && Plain("a new boss.")
  {
  }

  lemma WordsAfterKeys()
    ensures Follows(", was observed Done ") && Follows(" is still open. ") && Follows(" will never call ")
    ensures Follows(", answer it, or ") && Follows(" is still open, ") && Follows(" was observed Done. ")
    ensures Follows(" was observed Done, ") && Follows(" \U{2014} which has not ") && Follows(".") && Follows(" has no boss of its ")
  {
  }

  lemma MoreWordsAfterKeys()
    ensures Follows("'s own boss to ") && Follows(" \U{2014} a worker cannot ") && Follows("'s to call on itself). ") && Follows(". ")
    ensures Follows(" to review ") && Follows(" and either have it ") && Follows(" is a human-owned ") && Follows(" directly and either ")
  {
  }

  lemma OneTopIsSound(worker: string, boss: string, n: string)
    requires Plain(n)
    ensures Sound(Top(One, worker, boss, n))
  {
    WordsAfterKeys();
    OpeningWords();
    NeverCalls();
    hide Plain, Follows;
  }

  lemma TwoTopIsSound(worker: string, boss: string, n: string)
    requires Plain(n)
    ensures Sound(Top(Two, worker, boss, n))
  {
    WordsAfterKeys();
    OpeningWords();
    StillOpen();
    hide Plain, Follows;
  }

  lemma EscalatedTopIsSound(grandBoss: string, worker: string, boss: string, n: string)
    requires Plain(n)
    ensures Sound(Top(ThreeEscalated(grandBoss), worker, boss, n))
  {
    WordsAfterKeys();
    OpeningWords();
    StillOpen();
    NotActed();
    hide Plain, Follows;
  }

  lemma TerminalTopIsSound(worker: string, boss: string, n: string)
    requires Plain(n)
    ensures Sound(Top(ThreeTerminal, worker, boss, n))
  {
    WordsAfterKeys();
    OpeningWords();
    StillOpen();
    NotActed();
    NoBossAbove();
    hide Plain, Follows;
  }

  lemma TopIsSound(s: Stage, worker: string, boss: string, n: string)
    requires Plain(n)
    ensures Sound(Top(s, worker, boss, n))
  {
    hide Sound, Top, Plain;
    match s
    case One => OneTopIsSound(worker, boss, n);
    case Two => TwoTopIsSound(worker, boss, n);
    case ThreeEscalated(grandBoss) => EscalatedTopIsSound(grandBoss, worker, boss, n);
    case ThreeTerminal => TerminalTopIsSound(worker, boss, n);
  }

  lemma OneAskIsSound(worker: string, boss: string)
    ensures Sound(Ask(One, worker, boss))
  {
    MoreWordsAfterKeys();
    IfFinished();
    IfNotFinished();
    BrokenPromise();
    SurfaceIt();
    NoBossAbove();
    hide Plain, Follows;
  }

  lemma TwoAskIsSound(worker: string, boss: string)
    ensures Sound(Ask(Two, worker, boss))
  {
    MoreWordsAfterKeys();
    IfFinished();
    IfNotFinished();
    BrokenPromise();
    SurfaceIt();
    hide Plain, Follows;
  }

  lemma EscalatedAskIsSound(grandBoss: string, worker: string, boss: string)
    ensures Sound(Ask(ThreeEscalated(grandBoss), worker, boss))
  {
    MoreWordsAfterKeys();
    PromptThem();
    hide Plain, Follows;
  }

  lemma TerminalAskIsSound(worker: string, boss: string)
    ensures Sound(Ask(ThreeTerminal, worker, boss))
  {
    MoreWordsAfterKeys();
    HumanOwned();
    CloseIt();
    hide Plain, Follows;
  }

  lemma AskIsSound(s: Stage, worker: string, boss: string)
    ensures Sound(Ask(s, worker, boss))
  {
    hide Sound, Ask;
    match s
    case One => OneAskIsSound(worker, boss);
    case Two => TwoAskIsSound(worker, boss);
    case ThreeEscalated(grandBoss) => EscalatedAskIsSound(grandBoss, worker, boss);
    case ThreeTerminal => TerminalAskIsSound(worker, boss);
  }

  lemma TopSetsKeys(s: Stage, worker: string, boss: string, n: string)
    ensures SetsKeys(Top(s, worker, boss, n), s, worker, boss)
  {
  }

  lemma AskSetsKeys(s: Stage, worker: string, boss: string)
    ensures SetsKeys(Ask(s, worker, boss), s, worker, boss)
  {
  }

  /** The names the detector looks for. */
  predicate IsField(name: string) { name in ["fingerprint", "boss", "stage"] }

  lemma FieldsAreNames(name: string)
    requires IsField(name)
    ensures IsName(name) && Calm(ABANDONED, name) && Calm(PROMISE, name)
  {
  }

  /** Sound wording is well worded for each of them. */
  lemma SoundIsWellWorded(bits: seq<Bit>, name: string)
    requires IsField(name) && Sound(bits)
    ensures WellWorded(bits, name)
  {
    FieldsAreNames(name);
    hide IsName, Follows;
    forall i | 0 <= i < |bits| && bits[i].Say? ensures Calm(bits[i].text, name) {
      PlainIsCalm(bits[i].text, name);
      hide Plain, Calm;
    }
  }

  lemma PlainIsCalm(s: string, name: string)
    requires |name| >= 2
    ensures Plain(s) ==> Calm(s, name)
  {
  }

  lemma SoundIsOneLine(bits: seq<Bit>, s: Stage, worker: string, boss: string)
    requires Sound(bits) && SetsKeys(bits, s, worker, boss) && StageKeys(s, worker, boss)
    ensures '\n' !in Written(bits)
  {
    assert '\n' !in ABANDONED && '\n' !in PROMISE;
    hide Follows;
    WrittenIsFree(bits, '\n');
  }

  lemma FieldsAreOneLine(s: Stage, worker: string, boss: string)
    requires StageKeys(s, worker, boss)
    ensures '\n' !in "" && '\n' !in "fingerprint: " + worker && '\n' !in "boss: " + boss && '\n' !in "stage: " + [Tag(s)]
  {
  }

  lemma ProseIsOneLine(s: Stage, worker: string, boss: string, minutes: nat)
    requires StageKeys(s, worker, boss)
    ensures '\n' !in Opening(s, worker, boss, minutes) && '\n' !in Request(s, worker, boss)
  {
    DecimalIsPlain(minutes);
    var n := Decimal(minutes);
    hide Sound, SetsKeys, StageKeys, Top, Ask, Decimal, Plain, Written;
    TopIsSound(s, worker, boss, n);
    TopSetsKeys(s, worker, boss, n);
    AskIsSound(s, worker, boss);
    AskSetsKeys(s, worker, boss);
    SoundIsOneLine(Top(s, worker, boss, n), s, worker, boss);
    SoundIsOneLine(Ask(s, worker, boss), s, worker, boss);
  }

  lemma StageLinesAreLines(s: Stage, worker: string, boss: string, minutes: nat)
    requires StageKeys(s, worker, boss)
    ensures AreLines(StageLines(s, worker, boss, minutes))
  {
    FieldsAreOneLine(s, worker, boss);
    ProseIsOneLine(s, worker, boss, minutes);
    hide Opening, Request, Tag, StageKeys;
  }
}
