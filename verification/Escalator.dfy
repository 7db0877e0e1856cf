/**
 The blocked-prompt escalator (`createEscalator`, src/agents/escalation-loop.ts).

 A call is re-entered between its awaits, so it is cut into one step per await: `inFlight` holds,
 for each pane, what its suspended call is waiting for. Each step returns the new memory and
 notes of what it did for the pane.
 */
module Escalator {
  import opened Text
  import opened Wrappers
  import opened CommentText
  import opened Directives
  import HourlyCap

  type Pane = string
  type IssueKey = string

  const FOLLOWUP_MS := 15 * 60_000
  const DEBOUNCE_POLLS := 2
  const CLOCK_SKEW_GRACE_MS := 120_000
  const FOLLOWUP_STAGE := "[stage: followup]"

  /** A parsed dialog; `fp` is its fingerprint, and `freeText` the option that opens free text, if any. */
  datatype Dialog = Dialog(fp: Fingerprint, question: string, options: seq<string>, current: nat, freeText: Option<nat>)

  datatype PaneState = PaneState(
    fp: Fingerprint,
    blockedPolls: nat,
    lastPollSeq: Option<int>,
    escalatedAt: Option<int>,
    followedUpAt: Option<int>)

  function NewState(fp: Fingerprint): PaneState { PaneState(fp, 0, None, None, None) }

  datatype Keys = Select(current: nat, option: nat) | Type(text: string) | Enter

  /** Why a delivery may press keys: the dialog the pane showed when re-read for it, the one that was
      escalated, the directive and its comment's time, and the escalation's recorded time. */
  datatype Warrant = Warrant(live: Dialog, escalated: Fingerprint, directive: Directive, created: int, since: int)

  /** What a suspended call waits for. */
  datatype Waiting =
    | EscalateRead(issue: IssueKey, dialog: Dialog)
    | CapPost(issue: IssueKey, body: string)
    | Capture(issue: IssueKey, dialog: Dialog)
    | EscalationPost(issue: IssueKey, fp: Fingerprint, body: string)
    | DirectiveRead(issue: IssueKey)
    | FollowupPost(issue: IssueKey, fp: Fingerprint, body: string)
    | PaneRead(issue: IssueKey, directive: Directive, created: int, since: int)
    | NoticePost(issue: IssueKey, body: string)
    | Sending(issue: IssueKey, rest: seq<Keys>, warrant: Warrant)

  datatype Memory = Memory(
    panes: map<Pane, PaneState>,
    inFlight: map<Pane, Waiting>,
    consumed: map<Pane, set<CommentId>>,
    paneEscalations: map<Pane, seq<int>>,
    capped: set<Pane>,
    counted: map<Pane, set<Fingerprint>>)

  const Blank := Memory(map[], map[], map[], map[], {}, map[])

  /** How a dialog came to be recorded as escalated: by a comment found, one posted, or the notice of the cap. */
  datatype How = ByAdoption | ByPost | ByCap

  /** What a step did for its pane. */
  datatype Note =
    | Handled(fp: Fingerprint, seqNo: int)
    | Broken
    | Dropped(live: Option<Fingerprint>)
    | Restarted
    | Attempt(fp: Fingerprint)
    | Granted(fp: Fingerprint, at: int)
    | Recorded(fp: Fingerprint, at: int, how: How)
    | FollowUpDue(fp: Fingerprint, at: int, since: int)
    | FollowedUp(at: int)
    | Delivery(commentId: CommentId, directive: Directive, created: int, since: int)
    | Pressed(keys: Keys, warrant: Warrant)

  datatype Reaction = Reaction(memory: Memory, notes: seq<Note>)

  // ---------- comment bodies: the wording is shortened, what is read back is exact ----------

  function FingerprintLine(fp: Fingerprint): string { "fingerprint: " + fp }

  function FollowupTag(fp: Fingerprint): string { "(fingerprint " + fp + ")" }

  function ReplyLine(fp: Fingerprint): string {
    "Reply on THIS ticket: `ANSWER <n> " + fp + "` (or `ANSWER TEXT <your text> " + fp + "`), nothing else."
  }

  function CaptureLines(path: Option<string>): seq<string> {
    if path.None? then []
    else ["", "Full pane text captured to " + path.value + " (local disk only)."]
  }

  /** `question` and `options` are already redacted, capped and numbered. */
  function EscalationComment(issue: IssueKey, question: string, options: string, fp: Fingerprint, path: Option<string>): string {
    Join([MARKER + " " + issue + " is waiting on a decision:", "", question, "", options, "", FingerprintLine(fp)]
         + CaptureLines(path) + ["", ReplyLine(fp)])
  }

  function FollowupProse(): string { " — answer it, or say so on your own ticket. " }

  function FollowupComment(issue: IssueKey, fp: Fingerprint): string {
    MARKER + " " + issue + " still waiting on the decision above " + FollowupTag(fp) + FollowupProse() + FOLLOWUP_STAGE
  }

  function CapNotice(issue: IssueKey): string {
    MARKER + " " + issue + ": escalation rate cap reached (3/hour)"
  }

  function NoFreeTextNotice(issue: IssueKey, fp: Fingerprint): string {
    MARKER + " " + issue + ": no free-text option; reply with `ANSWER <n> " + fp + "`"
  }

  predicate IsEscalationOf(c: Comment, fp: Fingerprint) {
    StartsWith(c.body, MARKER) && Contains(c.body, FingerprintLine(fp))
  }

  predicate IsFollowupOf(c: Comment, fp: Fingerprint) {
    StartsWith(c.body, MARKER) && HasAll(c.body, [FOLLOWUP_STAGE, FollowupTag(fp)])
  }

  // ---------- small helpers ----------

  function SetOf<T>(m: map<Pane, set<T>>, pane: Pane): set<T> {
    if pane in m then m[pane] else {}
  }

  /** The pane's escalations of the last hour. */
  function Recent(times: seq<int>, now: int): seq<int> { HourlyCap.Recent(times, now, HourlyCap.HOUR_MS) }

  function PostsOf(m: Memory, pane: Pane): seq<int> {
    if pane in m.paneEscalations then m.paneEscalations[pane] else []
  }

  function Done(m: Memory, pane: Pane): Memory {
    m.(inFlight := m.inFlight - {pane})
  }

  function WithState(m: Memory, pane: Pane, s: PaneState): Memory {
    m.(panes := m.panes[pane := s])
  }

  // ---------- onBlocked, up to the first await ----------

  function Sighted(prior: Option<PaneState>, fp: Fingerprint, seqNo: int): PaneState {
    var consecutive := prior.Some? && prior.value.fp == fp && prior.value.lastPollSeq.Some? && seqNo == prior.value.lastPollSeq.value + 1;
    var s := if consecutive then prior.value
             else if prior.Some? && prior.value.fp == fp
             then NewState(fp).(escalatedAt := prior.value.escalatedAt, followedUpAt := prior.value.followedUpAt)
             else NewState(fp);
    s.(lastPollSeq := Some(seqNo), blockedPolls := s.blockedPolls + 1)
  }

  predicate StalePoll(prior: Option<PaneState>, seqNo: int) {
    prior.Some? && prior.value.lastPollSeq.Some? && seqNo <= prior.value.lastPollSeq.value
  }

  function StateOf(m: Memory, pane: Pane): Option<PaneState> {
    if pane in m.panes then Some(m.panes[pane]) else None
  }

  function OnBlocked(m: Memory, pane: Pane, issue: IssueKey, dialog: Dialog, seqNo: int): Reaction {
    if pane in m.inFlight || StalePoll(StateOf(m, pane), seqNo) then Reaction(m, [])
    else
      var s := Sighted(StateOf(m, pane), dialog.fp, seqNo);
      var m1 := WithState(m, pane, s);
      if s.escalatedAt.None? && s.blockedPolls < DEBOUNCE_POLLS then Reaction(m1, [Handled(dialog.fp, seqNo)])
      else if s.escalatedAt.None? then
        Reaction(m1.(inFlight := m1.inFlight[pane := EscalateRead(issue, dialog)]), [Handled(dialog.fp, seqNo), Attempt(dialog.fp)])
      else
        Reaction(m1.(inFlight := m1.inFlight[pane := DirectiveRead(issue)]), [Handled(dialog.fp, seqNo)])
  }

  // ---------- after the comment channel answered ----------

  function FirstEscalation(rows: seq<Comment>, fp: Fingerprint): Option<Comment> {
    if rows == [] then None
    else if IsEscalationOf(rows[0], fp) then Some(rows[0])
    else FirstEscalation(rows[1..], fp)
  }

  /** Adopt a comment found on the channel, counting it once towards the pane's hourly budget. */
  function Adopt(m: Memory, pane: Pane, fp: Fingerprint, at: int, now: int): Memory {
    var m1 := if fp in SetOf(m.counted, pane) then m
              else m.(counted := m.counted[pane := SetOf(m.counted, pane) + {fp}],
                      paneEscalations := m.paneEscalations[pane := Recent(PostsOf(m, pane), now) + [at]]);
    Done(if pane in m1.panes then WithState(m1, pane, m1.panes[pane].(escalatedAt := Some(at))) else m1, pane)
  }

  function RecordEscalated(m: Memory, pane: Pane, now: int): Memory {
    Done(if pane in m.panes then WithState(m, pane, m.panes[pane].(escalatedAt := Some(now))) else m, pane)
  }

  function Escalate(m: Memory, pane: Pane, issue: IssueKey, dialog: Dialog, rows: seq<Comment>, now: int): Reaction {
    var fp := dialog.fp;
    var existing := FirstEscalation(rows, fp);
    if existing.Some? then
      var at := TimeOr(existing.value.created, now);
      Reaction(Adopt(m, pane, fp, at, now), [Recorded(fp, at, ByAdoption)])
    else
      var recent := Recent(PostsOf(m, pane), now);
      if |recent| >= 3 then
        if pane in m.capped then Reaction(RecordEscalated(m, pane, now), [Recorded(fp, now, ByCap)])
        else Reaction(m.(capped := m.capped + {pane}, inFlight := m.inFlight[pane := CapPost(issue, CapNotice(issue))]), [])
      else
        Reaction(m.(paneEscalations := m.paneEscalations[pane := recent + [now]],
                    counted := m.counted[pane := SetOf(m.counted, pane) + {fp}],
                    capped := m.capped - {pane},
                    inFlight := m.inFlight[pane := Capture(issue, dialog)]), [Granted(fp, now)])
  }

  /** A comment that may carry an answer: its time is known and not before the escalation, less the
      grace, it has not been acted on, and it parses. */
  predicate Answers(c: Comment, since: int, consumed: set<CommentId>) {
    c.created.Some? && c.created.value >= since - CLOCK_SKEW_GRACE_MS && c.id !in consumed && ParseDirective(c.body).Some?
  }

  function FirstAnswer(rows: seq<Comment>, since: int, consumed: set<CommentId>): Option<Comment> {
    if rows == [] then None
    else if Answers(rows[0], since, consumed) then Some(rows[0])
    else FirstAnswer(rows[1..], since, consumed)
  }

  function CheckReplies(m: Memory, pane: Pane, issue: IssueKey, rows: seq<Comment>, now: int): Reaction
    requires pane in m.panes && m.panes[pane].escalatedAt.Some?
  {
    var s := m.panes[pane];
    var since := s.escalatedAt.value;
    var answer := FirstAnswer(rows, since, SetOf(m.consumed, pane));
    if answer.Some? && answer.value.created.Some? && ParseDirective(answer.value.body).Some? then
      Reaction(m.(consumed := m.consumed[pane := SetOf(m.consumed, pane) + {answer.value.id}],
                  inFlight := m.inFlight[pane :=
                    PaneRead(issue, ParseDirective(answer.value.body).value, answer.value.created.value, since)]),
               [Delivery(answer.value.id, ParseDirective(answer.value.body).value, answer.value.created.value, since)])
    else if s.followedUpAt.None? && now - since >= FOLLOWUP_MS then
      var existing := FindMarked(rows, MARKER, [FOLLOWUP_STAGE, FollowupTag(s.fp)]);
      if existing.Some? then
        var at := TimeOr(existing.value.created, now);
        Reaction(Done(WithState(m, pane, s.(followedUpAt := Some(at))), pane), [FollowedUp(at)])
      else
        Reaction(m.(inFlight := m.inFlight[pane := FollowupPost(issue, s.fp, FollowupComment(issue, s.fp))]),
                 [FollowUpDue(s.fp, now, since)])
    else Reaction(Done(m, pane), [])
  }

  /** The suspended read resolves (Some) or rejects (None). */
  function CommentsRead(m: Memory, pane: Pane, rows: Option<seq<Comment>>, now: int): Reaction
    requires Coherent(m) && pane in m.inFlight && (m.inFlight[pane].EscalateRead? || m.inFlight[pane].DirectiveRead?)
  {
    match m.inFlight[pane]
    case EscalateRead(issue, dialog) =>
      if rows.None? then Reaction(Done(m, pane), []) else Escalate(m, pane, issue, dialog, rows.value, now)
    case DirectiveRead(issue) =>
      if rows.None? then Reaction(Done(m, pane), []) else CheckReplies(m, pane, issue, rows.value, now)
    case _ => Reaction(m, [])
  }

  // ---------- after the capture and the posts ----------

  /** The pane's text has been captured, or could not be; the comment is written either way.
      `question` and `options` are the dialog's, as redacted for posting. */
  function Captured(m: Memory, pane: Pane, question: string, options: string, path: Option<string>): Reaction
    requires pane in m.inFlight && m.inFlight[pane].Capture?
  {
    var c := m.inFlight[pane];
    Reaction(m.(inFlight := m.inFlight[pane :=
               EscalationPost(c.issue, c.dialog.fp, EscalationComment(c.issue, question, options, c.dialog.fp, path))]), [])
  }

  predicate Posting(w: Waiting) {
    w.CapPost? || w.EscalationPost? || w.FollowupPost? || w.NoticePost?
  }

  /** A post resolves (ok) or rejects; a rejection ends the call with nothing recorded. */
  function PostReturned(m: Memory, pane: Pane, ok: bool, now: int): Reaction
    requires Coherent(m) && pane in m.inFlight && Posting(m.inFlight[pane])
  {
    if !ok then Reaction(Done(m, pane), [])
    else
      match m.inFlight[pane]
      case EscalationPost(_, fp, _) => Reaction(RecordEscalated(m, pane, now), [Recorded(fp, now, ByPost)])
      case CapPost(_, _) =>
        Reaction(RecordEscalated(m, pane, now), [Recorded(m.panes[pane].fp, now, ByCap)])
      case FollowupPost(_, _, _) =>
        Reaction(Done(WithState(m, pane, m.panes[pane].(followedUpAt := Some(now))), pane), [FollowedUp(now)])
      case _ => Reaction(Done(m, pane), [])
  }

  // ---------- delivering a directive ----------

  /** The pane's text has been re-read: Some(dialog) or Some(None) for no dialog, None for a failed read. */
  function PaneReadBack(m: Memory, pane: Pane, reread: Option<Option<Dialog>>): Reaction
    requires Coherent(m) && pane in m.inFlight && m.inFlight[pane].PaneRead?
  {
    var w := m.inFlight[pane];
    var s := m.panes[pane];
    if reread.None? then Reaction(Done(m, pane), [])
    else
      var live := reread.value;
      if live.None? then Reaction(Done(m.(panes := m.panes - {pane}), pane), [Dropped(None)])
      else if live.value.fp != s.fp || (w.directive.fp.Some? && w.directive.fp.value != s.fp) then
        Reaction(Done(WithState(m, pane, NewState(live.value.fp)), pane), [Dropped(Some(live.value.fp))])
      else Deliver(m, pane, w.issue, live.value, Warrant(live.value, s.fp, w.directive, w.created, w.since))
  }

  /** The directive matches the dialog: press what it asks, if the dialog has it. */
  function Deliver(m: Memory, pane: Pane, issue: IssueKey, live: Dialog, warrant: Warrant): Reaction {
    match warrant.directive
    case OptionDirective(n, _) =>
      if n < 1 || n > |live.options| then Reaction(Done(m, pane), [])
      else Press(m, pane, issue, [Select(live.current, n)], warrant)
    case TextDirective(text, _) =>
      if live.freeText.None? then
        Reaction(m.(inFlight := m.inFlight[pane := NoticePost(issue, NoFreeTextNotice(issue, warrant.escalated))]), [])
      else Press(m, pane, issue, [Select(live.current, live.freeText.value), Type(text), Enter], warrant)
  }

  /** Send the first keys and wait; the rest follow one by one as each send resolves. */
  function Press(m: Memory, pane: Pane, issue: IssueKey, keys: seq<Keys>, warrant: Warrant): Reaction {
    if keys == [] then Reaction(Done(m, pane), [])
    else Reaction(m.(inFlight := m.inFlight[pane := Sending(issue, keys[1..], warrant)]), [Pressed(keys[0], warrant)])
  }

  function Sent(m: Memory, pane: Pane, ok: bool): Reaction
    requires pane in m.inFlight && m.inFlight[pane].Sending?
  {
    var w := m.inFlight[pane];
    if ok then Press(m, pane, w.issue, w.rest, w.warrant) else Reaction(Done(m, pane), [])
  }

  // ---------- the watcher's synchronous signals ----------

  function ResetState(s: PaneState): PaneState { s.(blockedPolls := 0, lastPollSeq := None) }

  /** `onPoll`: every tracked pane not reported blocked loses its debounce and nothing else. */
  function OnPoll(m: Memory, blocked: set<Pane>): Memory {
    m.(panes := map p | p in m.panes :: if p in blocked then m.panes[p] else ResetState(m.panes[p]))
  }

  function OnNoPrompt(m: Memory, pane: Pane, seqNo: int): Reaction {
    if pane !in m.panes || StalePoll(Some(m.panes[pane]), seqNo) then Reaction(m, [])
    else Reaction(WithState(m, pane, ResetState(m.panes[pane])), [Broken])
  }

  // ---------- the memory's own invariant ----------

  /** A suspended call's pane is tracked under the fingerprint the call was made for, and one that is
      past escalation has its time. */
  ghost predicate CallFits(s: Option<PaneState>, w: Waiting) {
    && s.Some?
    && (w.EscalateRead? || w.Capture? ==> s.value.fp == w.dialog.fp)
    && (w.EscalationPost? || w.FollowupPost? ==> s.value.fp == w.fp)
    && (w.DirectiveRead? || w.FollowupPost? || w.PaneRead? ==> s.value.escalatedAt.Some?)
  }

  ghost predicate Coherent(m: Memory) {
    forall pane :: pane in m.inFlight ==> CallFits(StateOf(m, pane), m.inFlight[pane])
  }

  function WaitingOf(m: Memory, pane: Pane): Option<Waiting> {
    if pane in m.inFlight then Some(m.inFlight[pane]) else None
  }

  // ---------- every step touches its own pane only, and leaves its call fitting ----------

  /** Another pane's state, call and consumed comments are the same before and after. */
  ghost predicate Untouched(m: Memory, m': Memory, other: Pane) {
    StateOf(m', other) == StateOf(m, other) && WaitingOf(m', other) == WaitingOf(m, other)
    && SetOf(m'.consumed, other) == SetOf(m.consumed, other)
    && PostsOf(m', other) == PostsOf(m, other) && SetOf(m'.counted, other) == SetOf(m.counted, other)
  }

  /** The step stayed within its pane, and the call it leaves waiting, if any, fits. */
  ghost predicate GoodStep(m: Memory, m': Memory, pane: Pane) {
    && (forall other :: other != pane ==> Untouched(m, m', other))
    && (pane in m'.inFlight ==> CallFits(StateOf(m', pane), m'.inFlight[pane]))
  }

  lemma GoodStepKeepsCoherent(m: Memory, m': Memory, pane: Pane)
    requires Coherent(m) && GoodStep(m, m', pane)
    ensures Coherent(m')
  {
    hide CallFits;
    forall q | q in m'.inFlight ensures CallFits(StateOf(m', q), m'.inFlight[q]) {
      if q != pane {
        assert Untouched(m, m', q);
        assert WaitingOf(m, q) == Some(m'.inFlight[q]);
      }
    }
  }

  lemma SightedUnder(prior: Option<PaneState>, fp: Fingerprint, seqNo: int)
    ensures Sighted(prior, fp, seqNo).fp == fp
  {
  }

  lemma OnBlockedIsGood(m: Memory, pane: Pane, issue: IssueKey, dialog: Dialog, seqNo: int)
    requires Coherent(m)
    ensures GoodStep(m, OnBlocked(m, pane, issue, dialog, seqNo).memory, pane)
  {
    SightedUnder(StateOf(m, pane), dialog.fp, seqNo);
    assert pane in m.inFlight ==> CallFits(StateOf(m, pane), m.inFlight[pane]);
    hide Sighted, StalePoll, Coherent;
  }

  lemma EscalateIsGood(m: Memory, pane: Pane, issue: IssueKey, dialog: Dialog, rows: seq<Comment>, now: int)
    requires Coherent(m) && pane in m.inFlight && m.inFlight[pane] == EscalateRead(issue, dialog)
    ensures GoodStep(m, Escalate(m, pane, issue, dialog, rows, now).memory, pane)
  {
    hide FirstEscalation, CapNotice, Recent;
  }

  lemma CheckRepliesIsGood(m: Memory, pane: Pane, issue: IssueKey, rows: seq<Comment>, now: int)
    requires Coherent(m) && pane in m.panes && m.panes[pane].escalatedAt.Some?
    ensures GoodStep(m, CheckReplies(m, pane, issue, rows, now).memory, pane)
  {
    hide FirstAnswer, ParseDirective, FindMarked, FollowupComment;
  }

  lemma CommentsReadIsGood(m: Memory, pane: Pane, rows: Option<seq<Comment>>, now: int)
    requires Coherent(m) && pane in m.inFlight && (m.inFlight[pane].EscalateRead? || m.inFlight[pane].DirectiveRead?)
    ensures GoodStep(m, CommentsRead(m, pane, rows, now).memory, pane)
  {
    hide Escalate, CheckReplies;
    if rows.Some? {
      match m.inFlight[pane] {
        case EscalateRead(issue, dialog) => EscalateIsGood(m, pane, issue, dialog, rows.value, now);
        case DirectiveRead(issue) => CheckRepliesIsGood(m, pane, issue, rows.value, now);
      }
    }
  }

  lemma CapturedIsGood(m: Memory, pane: Pane, question: string, options: string, path: Option<string>)
    requires Coherent(m) && pane in m.inFlight && m.inFlight[pane].Capture?
    ensures GoodStep(m, Captured(m, pane, question, options, path).memory, pane)
  {
    hide EscalationComment;
  }

  lemma PostReturnedIsGood(m: Memory, pane: Pane, ok: bool, now: int)
    requires Coherent(m) && pane in m.inFlight && Posting(m.inFlight[pane])
    ensures GoodStep(m, PostReturned(m, pane, ok, now).memory, pane)
  {
  }

  /** The pane's state stays; its call ends, or waits on something that needs no state but that. */
  lemma SameStateIsGood(m: Memory, m': Memory, pane: Pane)
    requires pane in m.panes && m'.panes == m.panes && m'.consumed == m.consumed
    requires m'.paneEscalations == m.paneEscalations && m'.counted == m.counted
    requires m'.inFlight - {pane} == m.inFlight - {pane}
    requires pane in m'.inFlight ==> m'.inFlight[pane].NoticePost? || m'.inFlight[pane].Sending?
    ensures GoodStep(m, m', pane)
  {
    forall other | other != pane ensures WaitingOf(m', other) == WaitingOf(m, other) {
      assert other in m.inFlight <==> other in m.inFlight - {pane};
      assert other in m'.inFlight <==> other in m'.inFlight - {pane};
      assert other in m.inFlight ==> (m.inFlight - {pane})[other] == m.inFlight[other];
      assert other in m'.inFlight ==> (m'.inFlight - {pane})[other] == m'.inFlight[other];
    }
  }

  lemma DroppedIsGood(m: Memory, pane: Pane, live: Option<Fingerprint>)
    ensures GoodStep(m, Done(if live.None? then m.(panes := m.panes - {pane}) else WithState(m, pane, NewState(live.value)), pane), pane)
  {
  }

  /** Delivering changes only what the pane's call waits for: the notice, or the next key. */
  lemma DeliverKeeps(m: Memory, pane: Pane, issue: IssueKey, live: Dialog, warrant: Warrant)
    ensures var r := Deliver(m, pane, issue, live, warrant);
      && r.memory == m.(inFlight := r.memory.inFlight) && r.memory.inFlight - {pane} == m.inFlight - {pane}
      && (pane in r.memory.inFlight ==>
            && r.memory.inFlight[pane].issue == issue
            && (r.memory.inFlight[pane] == NoticePost(issue, NoFreeTextNotice(issue, warrant.escalated))
                || r.memory.inFlight[pane].Sending?))
      && (r.notes == [] || (|r.notes| == 1 && r.notes[0].Pressed?))
  {
    hide NoFreeTextNotice;
  }

  lemma PaneReadBackIsGood(m: Memory, pane: Pane, reread: Option<Option<Dialog>>)
    requires Coherent(m) && pane in m.inFlight && m.inFlight[pane].PaneRead?
    ensures GoodStep(m, PaneReadBack(m, pane, reread).memory, pane)
  {
    var w := m.inFlight[pane];
    assert CallFits(StateOf(m, pane), w);
    hide NoFreeTextNotice, Coherent, GoodStep, CallFits, NewState, Deliver;
    var r := PaneReadBack(m, pane, reread);
    if reread.Some? && r.notes != [] && r.notes[0].Dropped? {
      DroppedIsGood(m, pane, r.notes[0].live);
    } else if reread.None? {
      SameStateIsGood(m, r.memory, pane);
    } else {
      var live := reread.value.value;
      DeliverKeeps(m, pane, w.issue, live, Warrant(live, m.panes[pane].fp, w.directive, w.created, w.since));
      SameStateIsGood(m, r.memory, pane);
    }
  }

  lemma SentIsGood(m: Memory, pane: Pane, ok: bool)
    requires Coherent(m) && pane in m.inFlight && m.inFlight[pane].Sending?
    ensures GoodStep(m, Sent(m, pane, ok).memory, pane)
  {
  }

  lemma OnNoPromptIsGood(m: Memory, pane: Pane, seqNo: int)
    requires Coherent(m)
    ensures GoodStep(m, OnNoPrompt(m, pane, seqNo).memory, pane)
  {
  }
}
