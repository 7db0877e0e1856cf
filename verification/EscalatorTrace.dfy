/**
 What one pane's notes say over a whole history: the debounce before an attempt, the escalation a
 follow-up waits on, and what stands behind every delivery and every key pressed.
 */
module EscalatorTrace {
  import opened Wrappers
  import opened CommentText
  import opened Directives
  import opened Escalator
  import opened EscalatorSafety

  type Trace = seq<Note>

  // ---------- what a trace amounts to, read from its end ----------

  /** The last sighting, unless the debounce has been reset since. */
  function LastSeen(t: Trace): Option<Note> {
    if t == [] then None
    else
      match t[|t| - 1]
      case Handled(_, _) => Some(t[|t| - 1])
      case Broken => None
      case Dropped(_) => None
      case Restarted => None
      case _ => LastSeen(t[..|t| - 1])
  }

  /** The dialog the pane is tracked under. */
  function Shown(t: Trace): Option<Fingerprint> {
    if t == [] then None
    else
      match t[|t| - 1]
      case Handled(fp, _) => Some(fp)
      case Dropped(live) => live
      case Restarted => None
      case _ => Shown(t[..|t| - 1])
  }

  /** When the dialog now shown was recorded as escalated, flickers notwithstanding. */
  function InForce(t: Trace): Option<int> {
    if t == [] then None
    else
      var before := t[..|t| - 1];
      match t[|t| - 1]
      case Recorded(_, at, _) => Some(at)
      case Handled(fp, _) => if Shown(before) == Some(fp) then InForce(before) else None
      case Dropped(_) => None
      case Restarted => None
      case _ => InForce(before)
  }

  /** When the dialog now shown was followed up. */
  function FollowedAt(t: Trace): Option<int> {
    if t == [] then None
    else
      var before := t[..|t| - 1];
      match t[|t| - 1]
      case FollowedUp(at) => Some(at)
      case Handled(fp, _) => if Shown(before) == Some(fp) then FollowedAt(before) else None
      case Dropped(_) => None
      case Restarted => None
      case _ => FollowedAt(before)
  }

  /** The comments acted on in this daemon's lifetime. */
  function Delivered(t: Trace): set<CommentId> {
    if t == [] then {}
    else
      match t[|t| - 1]
      case Delivery(id, _, _, _) => Delivered(t[..|t| - 1]) + {id}
      case Restarted => {}
      case _ => Delivered(t[..|t| - 1])
  }

  function LastDelivery(t: Trace): Option<Note> {
    if t == [] then None
    else if t[|t| - 1].Delivery? then Some(t[|t| - 1])
    else LastDelivery(t[..|t| - 1])
  }

  // ---------- what each note requires of the notes before it ----------

  predicate Behind(t: Trace, directive: Directive, created: int, since: int) {
    && LastDelivery(t).Some? && LastDelivery(t).value.Delivery?
    && LastDelivery(t).value.directive == directive && LastDelivery(t).value.created == created
    && LastDelivery(t).value.since == since
  }

  /** The pane shows the escalated dialog and the directive names no other. */
  predicate Warranted(w: Warrant) {
    && w.live.fp == w.escalated
    && (w.directive.fp.Some? ==> w.directive.fp.value == w.escalated)
    && w.created >= w.since - CLOCK_SKEW_GRACE_MS
  }

  /** What the directive asks for on the dialog shown: nothing, when the dialog does not offer it. */
  function Wanted(w: Warrant): seq<Keys> {
    match w.directive
    case OptionDirective(n, _) => if 1 <= n <= |w.live.options| then [Select(w.live.current, n)] else []
    case TextDirective(text, _) =>
      if w.live.freeText.Some? then [Select(w.live.current, w.live.freeText.value), Type(text), Enter] else []
  }

  /** The keys pressed since the last delivery, in order. */
  function Typed(t: Trace): seq<Keys> {
    if t == [] then []
    else
      match t[|t| - 1]
      case Pressed(keys, _) => Typed(t[..|t| - 1]) + [keys]
      case Delivery(_, _, _, _) => []
      case _ => Typed(t[..|t| - 1])
  }

  /** And all under the same warrant. */
  predicate TypedUnder(t: Trace, w: Warrant) {
    if t == [] then true
    else
      match t[|t| - 1]
      case Pressed(_, other) => other == w && TypedUnder(t[..|t| - 1], w)
      case Delivery(_, _, _, _) => true
      case _ => TypedUnder(t[..|t| - 1], w)
  }

  predicate GoodAt(t: Trace, note: Note) {
    match note
    case Attempt(fp) =>
      && InForce(t).None? && t != [] && t[|t| - 1].Handled? && t[|t| - 1].fp == fp
      && LastSeen(t[..|t| - 1]) == Some(Handled(fp, t[|t| - 1].seqNo - 1))
    case Recorded(fp, _, _) => Shown(t) == Some(fp)
    case FollowUpDue(fp, at, since) => Shown(t) == Some(fp) && InForce(t) == Some(since) && at - since >= FOLLOWUP_MS
    case Delivery(id, _, created, since) =>
      id !in Delivered(t) && InForce(t) == Some(since) && created >= since - CLOCK_SKEW_GRACE_MS
    case Pressed(keys, w) =>
      && Warranted(w) && Behind(t, w.directive, w.created, w.since)
      && Typed(t) + [keys] <= Wanted(w) && TypedUnder(t, w)
    case _ => true
  }

  predicate Good(t: Trace) {
    t == [] || (Good(t[..|t| - 1]) && GoodAt(t[..|t| - 1], t[|t| - 1]))
  }

  // ---------- the memory is what the trace says ----------

  ghost predicate StateFits(s: Option<PaneState>, t: Trace) {
    match s
    case None => Shown(t).None? && InForce(t).None? && LastSeen(t).None?
    case Some(s) =>
      && Shown(t) == Some(s.fp) && InForce(t) == s.escalatedAt && FollowedAt(t) == s.followedUpAt
      && LastSeen(t) == (if s.lastPollSeq.Some? then Some(Handled(s.fp, s.lastPollSeq.value)) else None)
      && (s.blockedPolls > 0 <==> s.lastPollSeq.Some?)
  }

  ghost predicate WaitFits(w: Option<Waiting>, t: Trace) {
    match w
    case Some(PaneRead(_, directive, created, since)) =>
      Behind(t, directive, created, since) && created >= since - CLOCK_SKEW_GRACE_MS && Typed(t) == []
    case Some(Sending(_, rest, warrant)) =>
      && Warranted(warrant) && Behind(t, warrant.directive, warrant.created, warrant.since)
      && Typed(t) + rest == Wanted(warrant) && TypedUnder(t, warrant)
    case _ => true
  }

  ghost predicate Fits(m: Memory, pane: Pane, t: Trace) {
    && StateFits(StateOf(m, pane), t) && WaitFits(WaitingOf(m, pane), t)
    && Delivered(t) == SetOf(m.consumed, pane) && Good(t)
  }

  ghost predicate Follows(r: Reaction, pane: Pane, t: Trace) {
    Fits(r.memory, pane, t + r.notes)
  }

  // ---------- one note more ----------

  lemma Appended(t: Trace, note: Note)
    ensures t + [] == t && (t + [note])[..|t|] == t && (t + [note])[|t|] == note
  {
  }

  lemma GoodUnfolds(t: Trace)
    requires t != []
    ensures Good(t) <==> Good(t[..|t| - 1]) && GoodAt(t[..|t| - 1], t[|t| - 1])
  {
    hide GoodAt;
  }

  lemma OneMore(t: Trace, note: Note)
    ensures t + [] == t && (t + [note])[..|t|] == t && (t + [note])[|t|] == note
    ensures Good(t + [note]) <==> Good(t) && GoodAt(t, note)
  {
    hide Good, GoodAt;
    Appended(t, note);
    GoodUnfolds(t + [note]);
  }

  lemma SightedFits(s: Option<PaneState>, fp: Fingerprint, seqNo: int, t: Trace)
    requires StateFits(s, t)
    ensures StateFits(Some(Sighted(s, fp, seqNo)), t + [Handled(fp, seqNo)])
  {
    OneMore(t, Handled(fp, seqNo));
  }

  /** An attempt is the second sighting in a row. */
  lemma AttemptFits(s: Option<PaneState>, fp: Fingerprint, seqNo: int, t: Trace)
    requires StateFits(s, t)
    requires var s' := Sighted(s, fp, seqNo); s'.escalatedAt.None? && s'.blockedPolls >= DEBOUNCE_POLLS
    ensures GoodAt(t + [Handled(fp, seqNo)], Attempt(fp))
    ensures StateFits(Some(Sighted(s, fp, seqNo)), t + [Handled(fp, seqNo), Attempt(fp)])
  {
    var h := Handled(fp, seqNo);
    OneMore(t, h);
    SightedFits(s, fp, seqNo, t);
    OneMore(t + [h], Attempt(fp));
    assert t + [h, Attempt(fp)] == t + [h] + [Attempt(fp)];
    hide Good;
  }

  lemma BlockedFollows(m: Memory, pane: Pane, issue: IssueKey, dialog: Dialog, seqNo: int, t: Trace)
    requires Fits(m, pane, t)
    ensures Follows(OnBlocked(m, pane, issue, dialog, seqNo), pane, t)
  {
    var r := OnBlocked(m, pane, issue, dialog, seqNo);
    var h := Handled(dialog.fp, seqNo);
    var s := Sighted(StateOf(m, pane), dialog.fp, seqNo);
    if r.notes != [] {
      SightedFits(StateOf(m, pane), dialog.fp, seqNo, t);
      OneMore(t, h);
      if s.escalatedAt.None? && s.blockedPolls >= DEBOUNCE_POLLS {
        AttemptFits(StateOf(m, pane), dialog.fp, seqNo, t);
        OneMore(t + [h], Attempt(dialog.fp));
        assert t + [h, Attempt(dialog.fp)] == t + [h] + [Attempt(dialog.fp)];
      }
    }
    assert t + [] == t;
    hide Good, GoodAt, StateFits, Sighted;
    assert Delivered(t + [h]) == Delivered(t) && Delivered(t + [h] + [Attempt(dialog.fp)]) == Delivered(t + [h]);
  }

  /** A pane's own record of an escalation. */
  lemma RecordedFollows(m: Memory, m': Memory, pane: Pane, fp: Fingerprint, at: int, how: How, t: Trace)
    requires Fits(m, pane, t) && pane in m.panes && m.panes[pane].fp == fp
    requires StateOf(m', pane) == Some(m.panes[pane].(escalatedAt := Some(at))) && pane !in m'.inFlight
    requires SetOf(m'.consumed, pane) == SetOf(m.consumed, pane)
    ensures Fits(m', pane, t + [Recorded(fp, at, how)])
  {
    OneMore(t, Recorded(fp, at, how));
    hide Good;
  }

  /** A step with no note that leaves the pane's state, and its call either over or one that needs nothing. */
  lemma QuietFollows(m: Memory, m': Memory, pane: Pane, t: Trace)
    requires Fits(m, pane, t)
    requires StateOf(m', pane) == StateOf(m, pane) && SetOf(m'.consumed, pane) == SetOf(m.consumed, pane)
    requires pane in m'.inFlight ==> !m'.inFlight[pane].PaneRead? && !m'.inFlight[pane].Sending?
    ensures Fits(m', pane, t + [])
  {
    assert t + [] == t;
    hide Good, StateFits;
  }

  lemma GrantedFollows(m: Memory, m': Memory, pane: Pane, fp: Fingerprint, now: int, t: Trace)
    requires Fits(m, pane, t)
    requires StateOf(m', pane) == StateOf(m, pane) && SetOf(m'.consumed, pane) == SetOf(m.consumed, pane)
    requires pane in m'.inFlight && m'.inFlight[pane].Capture?
    ensures Fits(m', pane, t + [Granted(fp, now)])
  {
    OneMore(t, Granted(fp, now));
    hide Good;
  }

  lemma EscalateFollows(m: Memory, pane: Pane, issue: IssueKey, dialog: Dialog, rows: seq<Comment>, now: int, t: Trace)
    requires Fits(m, pane, t) && Coherent(m) && pane in m.inFlight && m.inFlight[pane] == EscalateRead(issue, dialog)
    ensures Follows(Escalate(m, pane, issue, dialog, rows, now), pane, t)
  {
    assert CallFits(StateOf(m, pane), m.inFlight[pane]);
    hide Fits, Recent, FirstEscalation, CapNotice;
    var r := Escalate(m, pane, issue, dialog, rows, now);
    if r.notes == [] {
      QuietFollows(m, r.memory, pane, t);
    } else if r.notes[0].Granted? {
      GrantedFollows(m, r.memory, pane, dialog.fp, now, t);
    } else {
      RecordedFollows(m, r.memory, pane, dialog.fp, r.notes[0].at, r.notes[0].how, t);
    }
  }

  predicate FirstAt(rows: seq<Comment>, since: int, consumed: set<CommentId>, i: int) {
    && 0 <= i < |rows| && Answers(rows[i], since, consumed)
    && forall j :: 0 <= j < i ==> !Answers(rows[j], since, consumed)
  }

  /** The answer found is the first row that answers, and none is found only when none does. */
  lemma {:induction false} FirstAnswerAnswers(rows: seq<Comment>, since: int, consumed: set<CommentId>)
    ensures var c := FirstAnswer(rows, since, consumed);
      && (c.None? ==> forall r :: r in rows ==> !Answers(r, since, consumed))
      && (c.Some? ==> Answers(c.value, since, consumed) && exists i :: FirstAt(rows, since, consumed, i) && rows[i] == c.value)
  {
    hide Answers;
    if rows != [] {
      var rest := rows[1..];
      FirstAnswerAnswers(rest, since, consumed);
      if Answers(rows[0], since, consumed) {
        assert FirstAt(rows, since, consumed, 0);
      } else {
        assert rows == [rows[0]] + rest;
        var c := FirstAnswer(rest, since, consumed);
        if c.Some? {
          var i :| FirstAt(rest, since, consumed, i) && rest[i] == c.value;
          assert forall j :: 0 < j <= i + 1 ==> rows[j] == rest[j - 1];
          assert FirstAt(rows, since, consumed, i + 1);
        }
      }
    }
  }

  /** A timely, unconsumed answer among the rows is acted on, the first of them, and comes before any
      follow-up; without one nothing is delivered. */
  lemma AnswersComeFirst(m: Memory, pane: Pane, issue: IssueKey, rows: seq<Comment>, now: int)
    requires pane in m.panes && m.panes[pane].escalatedAt.Some?
    ensures var since, consumed := m.panes[pane].escalatedAt.value, SetOf(m.consumed, pane);
      var notes := CheckReplies(m, pane, issue, rows, now).notes;
      if exists c :: c in rows && Answers(c, since, consumed) then
        exists i :: FirstAt(rows, since, consumed, i)
          && notes == [Delivery(rows[i].id, ParseDirective(rows[i].body).value, rows[i].created.value, since)]
      else forall k :: 0 <= k < |notes| ==> !notes[k].Delivery?
  {
    FirstAnswerAnswers(rows, m.panes[pane].escalatedAt.value, SetOf(m.consumed, pane));
    hide FirstAnswer, ParseDirective, FindMarked, FollowupComment, FollowupTag, FirstAt;
  }

  lemma DeliveryFollows(m: Memory, pane: Pane, issue: IssueKey, c: Comment, since: int, t: Trace)
    requires Fits(m, pane, t) && pane in m.panes && m.panes[pane].escalatedAt == Some(since)
    requires Answers(c, since, SetOf(m.consumed, pane))
    ensures var d := ParseDirective(c.body).value;
      Fits(m.(consumed := m.consumed[pane := SetOf(m.consumed, pane) + {c.id}],
              inFlight := m.inFlight[pane := PaneRead(issue, d, c.created.value, since)]),
           pane, t + [Delivery(c.id, d, c.created.value, since)])
  {
    hide ParseDirective, Good;
    OneMore(t, Delivery(c.id, ParseDirective(c.body).value, c.created.value, since));
  }

  lemma FollowUpFollows(m: Memory, m': Memory, pane: Pane, fp: Fingerprint, at: int, since: int, t: Trace)
    requires Fits(m, pane, t) && pane in m.panes && m.panes[pane].fp == fp && m.panes[pane].escalatedAt == Some(since)
    requires at - since >= FOLLOWUP_MS
    requires StateOf(m', pane) == StateOf(m, pane) && SetOf(m'.consumed, pane) == SetOf(m.consumed, pane)
    requires pane in m'.inFlight && m'.inFlight[pane].FollowupPost?
    ensures Fits(m', pane, t + [FollowUpDue(fp, at, since)])
  {
    OneMore(t, FollowUpDue(fp, at, since));
    hide Good;
  }

  lemma FollowedUpFollows(m: Memory, m': Memory, pane: Pane, at: int, t: Trace)
    requires Fits(m, pane, t) && pane in m.panes && pane !in m'.inFlight
    requires StateOf(m', pane) == Some(m.panes[pane].(followedUpAt := Some(at)))
    requires SetOf(m'.consumed, pane) == SetOf(m.consumed, pane)
    ensures Fits(m', pane, t + [FollowedUp(at)])
  {
    OneMore(t, FollowedUp(at));
    hide Good;
  }

  lemma RepliesFollow(m: Memory, pane: Pane, issue: IssueKey, rows: seq<Comment>, now: int, t: Trace)
    requires Fits(m, pane, t) && pane in m.panes && m.panes[pane].escalatedAt.Some?
    ensures Follows(CheckReplies(m, pane, issue, rows, now), pane, t)
  {
    var s := m.panes[pane];
    var since := s.escalatedAt.value;
    var r := CheckReplies(m, pane, issue, rows, now);
    var answer := FirstAnswer(rows, since, SetOf(m.consumed, pane));
    FirstAnswerAnswers(rows, since, SetOf(m.consumed, pane));
    hide Fits, FirstAnswer, ParseDirective, FindMarked, FollowupComment, FollowupTag;
    if answer.Some? {
      DeliveryFollows(m, pane, issue, answer.value, since, t);
    } else if s.followedUpAt.None? && now - since >= FOLLOWUP_MS {
      var existing := FindMarked(rows, MARKER, [FOLLOWUP_STAGE, FollowupTag(s.fp)]);
      if existing.Some? {
        FollowedUpFollows(m, r.memory, pane, TimeOr(existing.value.created, now), t);
      } else {
        FollowUpFollows(m, r.memory, pane, s.fp, now, since, t);
      }
    } else {
      QuietFollows(m, r.memory, pane, t);
    }
  }

  lemma ReadFollows(m: Memory, pane: Pane, rows: Option<seq<Comment>>, now: int, t: Trace)
    requires Fits(m, pane, t) && Coherent(m) && pane in m.inFlight
    requires m.inFlight[pane].EscalateRead? || m.inFlight[pane].DirectiveRead?
    ensures Follows(CommentsRead(m, pane, rows, now), pane, t)
  {
    assert CallFits(StateOf(m, pane), m.inFlight[pane]);
    hide Fits, Escalate, CheckReplies;
    if rows.None? {
      QuietFollows(m, Done(m, pane), pane, t);
    } else {
      match m.inFlight[pane] {
        case EscalateRead(issue, dialog) => EscalateFollows(m, pane, issue, dialog, rows.value, now, t);
        case DirectiveRead(issue) => RepliesFollow(m, pane, issue, rows.value, now, t);
      }
    }
  }

  lemma CapturedFollows(m: Memory, pane: Pane, question: string, options: string, path: Option<string>, t: Trace)
    requires Fits(m, pane, t) && pane in m.inFlight && m.inFlight[pane].Capture?
    ensures Follows(Captured(m, pane, question, options, path), pane, t)
  {
    hide Fits, EscalationComment;
    QuietFollows(m, Captured(m, pane, question, options, path).memory, pane, t);
  }

  lemma PostFollows(m: Memory, pane: Pane, ok: bool, now: int, t: Trace)
    requires Fits(m, pane, t) && Coherent(m) && pane in m.inFlight && Posting(m.inFlight[pane])
    ensures Follows(PostReturned(m, pane, ok, now), pane, t)
  {
    assert CallFits(StateOf(m, pane), m.inFlight[pane]);
    hide Fits, Coherent;
    var r := PostReturned(m, pane, ok, now);
    var w := m.inFlight[pane];
    if ok && (w.EscalationPost? || w.CapPost?) {
      RecordedFollows(m, r.memory, pane, m.panes[pane].fp, now, if w.EscalationPost? then ByPost else ByCap, t);
    } else if ok && w.FollowupPost? {
      FollowedUpFollows(m, r.memory, pane, now, t);
    } else {
      QuietFollows(m, r.memory, pane, t);
    }
  }

  lemma DroppedFollows(m: Memory, m': Memory, pane: Pane, live: Option<Fingerprint>, t: Trace)
    requires Fits(m, pane, t) && pane !in m'.inFlight && SetOf(m'.consumed, pane) == SetOf(m.consumed, pane)
    requires StateOf(m', pane) == (if live.None? then None else Some(NewState(live.value)))
    ensures Fits(m', pane, t + [Dropped(live)])
  {
    OneMore(t, Dropped(live));
    hide Good;
  }

  lemma PressFollows(m: Memory, pane: Pane, issue: IssueKey, keys: seq<Keys>, w: Warrant, t: Trace)
    requires Fits(m, pane, t) && Warranted(w) && Behind(t, w.directive, w.created, w.since)
    requires Typed(t) + keys == Wanted(w) && TypedUnder(t, w)
    ensures Follows(Press(m, pane, issue, keys, w), pane, t)
  {
    if keys == [] {
      QuietFollows(m, Done(m, pane), pane, t);
    } else {
      OneMore(t, Pressed(keys[0], w));
      hide Good, Wanted, Warranted;
      assert Typed(t) + [keys[0]] + keys[1..] == Typed(t) + keys;
    }
  }

  lemma {:induction false} NothingTyped(t: Trace, w: Warrant)
    requires Typed(t) == []
    ensures TypedUnder(t, w)
  {
    if t != [] && !t[|t| - 1].Delivery? { NothingTyped(t[..|t| - 1], w); }
  }

  lemma ReReadFollows(m: Memory, pane: Pane, reread: Option<Option<Dialog>>, t: Trace)
    requires Fits(m, pane, t) && Coherent(m) && pane in m.inFlight && m.inFlight[pane].PaneRead?
    ensures Follows(PaneReadBack(m, pane, reread), pane, t)
  {
    var w := m.inFlight[pane];
    assert CallFits(StateOf(m, pane), w);
    assert WaitFits(Some(w), t) && Typed(t) == [];
    var s := m.panes[pane];
    var r := PaneReadBack(m, pane, reread);
    hide Fits, Coherent, Behind, NoFreeTextNotice, Press, Typed, TypedUnder;
    if reread.None? {
      QuietFollows(m, r.memory, pane, t);
    } else if r.notes != [] && r.notes[0].Dropped? {
      DroppedFollows(m, r.memory, pane, r.notes[0].live, t);
    } else {
      var live := reread.value.value;
      var warrant := Warrant(live, s.fp, w.directive, w.created, w.since);
      NothingTyped(t, warrant);
      match w.directive {
        case OptionDirective(n, _) =>
          if n < 1 || n > |live.options| { QuietFollows(m, r.memory, pane, t); }
          else { PressFollows(m, pane, w.issue, [Select(live.current, n)], warrant, t); }
        case TextDirective(text, _) =>
          if live.freeText.None? { QuietFollows(m, r.memory, pane, t); }
          else {
            PressFollows(m, pane, w.issue, [Select(live.current, live.freeText.value), Type(text), Enter], warrant, t);
          }
      }
    }
  }

  lemma SentFollows(m: Memory, pane: Pane, ok: bool, t: Trace)
    requires Fits(m, pane, t) && pane in m.inFlight && m.inFlight[pane].Sending?
    ensures Follows(Sent(m, pane, ok), pane, t)
  {
    var w := m.inFlight[pane];
    assert WaitFits(Some(w), t);
    hide Fits, Wanted, Warranted, Behind, TypedUnder;
    if ok { PressFollows(m, pane, w.issue, w.rest, w.warrant, t); }
    else { QuietFollows(m, Done(m, pane), pane, t); }
  }

  lemma NoPromptFollows(m: Memory, pane: Pane, seqNo: int, t: Trace)
    requires Fits(m, pane, t)
    ensures Follows(OnNoPrompt(m, pane, seqNo), pane, t)
  {
    OneMore(t, Broken);
    hide Good, Wanted, Warranted, StalePoll;
  }

  lemma TickFollows(m: Memory, blocked: set<Pane>, pane: Pane, t: Trace)
    requires Fits(m, pane, t)
    ensures Fits(OnPoll(m, blocked), pane, t + (if pane in blocked then [] else [Broken]))
  {
    OneMore(t, Broken);
    hide Good, Wanted, Warranted;
  }

  // ---------- a pane's trace over a history ----------

  /** What an event adds to a pane's trace. */
  function NotesFor(w: World, e: Event, pane: Pane): Trace
    requires Coherent(w.memory) && Enabled(w, e)
  {
    if e.Tick? then (if pane in e.blocked then [] else [Broken])
    else if e.Restart? then [Restarted]
    else if Acts(e) && e.pane == pane then React(w, e).notes
    else []
  }

  ghost function TraceFrom(w: World, events: seq<Event>, pane: Pane, t: Trace): Trace
    requires Coherent(w.memory) && History(w, events)
    decreases |events|
  {
    if events == [] then t
    else
      StepKeepsCoherent(w, events[0]);
      TraceFrom(Step(w, events[0]), events[1..], pane, t + NotesFor(w, events[0], pane))
  }

  /** The acting pane's step follows its trace. */
  lemma ActFollows(w: World, e: Event, t: Trace)
    requires Coherent(w.memory) && Enabled(w, e) && Acts(e) && Fits(w.memory, e.pane, t)
    ensures Follows(React(w, e), e.pane, t)
  {
    var m := w.memory;
    hide Fits, Coherent, Follows, OnBlocked, CommentsRead, Captured, PostReturned, PaneReadBack, Sent, OnNoPrompt;
    match e {
      case Blocked(pane, issue, dialog, seqNo) => BlockedFollows(m, pane, issue, dialog, seqNo, t);
      case ReadAnswered(pane, rows, now) => ReadFollows(m, pane, rows, now, t);
      case CaptureEnded(pane, question, options, path) => CapturedFollows(m, pane, question, options, path, t);
      case PostEnded(pane, _, ok, now) => PostFollows(m, pane, ok, now, t);
      case PaneReRead(pane, reread) => ReReadFollows(m, pane, reread, t);
      case SendEnded(pane, ok) => SentFollows(m, pane, ok, t);
      case NoPromptSeen(pane, seqNo) => NoPromptFollows(m, pane, seqNo, t);
      case _ =>
    }
  }

  lemma OtherPaneFits(m: Memory, m': Memory, pane: Pane, t: Trace)
    requires Fits(m, pane, t) && Untouched(m, m', pane)
    ensures Fits(m', pane, t + [])
  {
    assert t + [] == t;
    hide StateFits, WaitFits, Good, Delivered;
  }

  lemma RestartFits(m: Memory, pane: Pane, t: Trace)
    requires Fits(m, pane, t)
    ensures Fits(Blank, pane, t + [Restarted])
  {
    OneMore(t, Restarted);
    hide Good;
  }

  /** Every event keeps every pane's memory fitting its trace. */
  lemma StepFits(w: World, e: Event, pane: Pane, t: Trace)
    requires Coherent(w.memory) && Enabled(w, e) && Fits(w.memory, pane, t)
    ensures Fits(Step(w, e).memory, pane, t + NotesFor(w, e, pane))
  {
    if e.Tick? {
      TickFollows(w.memory, e.blocked, pane, t);
    } else if e.Restart? {
      RestartFits(w.memory, pane, t);
    } else if e.Foreign? {
      assert t + [] == t;
    } else if e.pane == pane {
      ActFollows(w, e, t);
    } else {
      ReactIsGood(w, e);
      assert Untouched(w.memory, React(w, e).memory, pane);
      OtherPaneFits(w.memory, React(w, e).memory, pane, t);
    }
    hide Fits, Coherent, React, Enabled, Untouched, OnPoll, Posted;
  }

  lemma {:induction false} HistoryFits(w: World, events: seq<Event>, pane: Pane, t: Trace)
    requires Coherent(w.memory) && History(w, events) && Fits(w.memory, pane, t)
    ensures Good(TraceFrom(w, events, pane, t)) && Fits(After(w, events).memory, pane, TraceFrom(w, events, pane, t))
    decreases |events|
  {
    if events != [] {
      StepKeepsCoherent(w, events[0]);
      StepFits(w, events[0], pane, t);
      hide Coherent, Step, Enabled, Fits, NotesFor;
      HistoryFits(Step(w, events[0]), events[1..], pane, t + NotesFor(w, events[0], pane));
    }
  }

  /** The notes of one pane over a history from a new daemon and an empty channel. */
  ghost function TraceOf(events: seq<Event>, pane: Pane): Trace
    requires History(Fresh, events)
  {
    TraceFrom(Fresh, events, pane, [])
  }

  lemma TraceIsGood(events: seq<Event>, pane: Pane, i: nat)
    requires History(Fresh, events) && i < |TraceOf(events, pane)|
    ensures GoodAt(TraceOf(events, pane)[..i], TraceOf(events, pane)[i])
  {
    HistoryFits(Fresh, events, pane, []);
    GoodEverywhere(TraceOf(events, pane), i);
  }

  lemma {:induction false} GoodEverywhere(t: Trace, i: nat)
    requires Good(t) && i < |t|
    ensures Good(t[..i]) && GoodAt(t[..i], t[i])
  {
    hide GoodAt;
    if i < |t| - 1 {
      GoodEverywhere(t[..|t| - 1], i);
      assert t[..|t| - 1][..i] == t[..i];
    }
  }

  predicate SeenFrom(t: Trace, h: Note, j: int) {
    0 <= j < |t| && t[j] == h && forall k :: j < k < |t| ==> !Resets(t[k])
  }

  predicate DeliveredFrom(t: Trace, d: Note, j: int) {
    0 <= j < |t| && t[j] == d && forall k :: j < k < |t| ==> !t[k].Delivery?
  }

  // ---------- reading the summaries as positions in the trace ----------

  predicate Resets(note: Note) { note.Handled? || note.Broken? || note.Dropped? || note.Restarted? }

  lemma {:induction false} LastSeenAt(t: Trace)
    requires LastSeen(t).Some?
    ensures exists j :: SeenFrom(t, LastSeen(t).value, j)
  {
    var before := t[..|t| - 1];
    if t[|t| - 1].Handled? {
      assert SeenFrom(t, LastSeen(t).value, |t| - 1);
    } else {
      LastSeenAt(before);
      var j :| SeenFrom(before, LastSeen(before).value, j);
      assert forall k :: j <= k < |before| ==> t[k] == before[k];
      assert SeenFrom(t, LastSeen(t).value, j);
    }
  }

  /** An escalation of `fp` is no longer in force after this note. */
  predicate Ends(note: Note, fp: Fingerprint) {
    note.Restarted? || note.Dropped? || (note.Handled? && note.fp != fp)
  }

  predicate InForceFrom(t: Trace, fp: Fingerprint, at: int, j: int) {
    0 <= j < |t| && t[j].Recorded? && t[j].fp == fp && t[j].at == at && forall k :: j < k < |t| ==> !Ends(t[k], fp) && !t[k].Recorded?
  }

  /** An escalation in force was recorded, for the dialog now shown, and nothing has ended it since. */
  lemma {:induction false} InForceAt(t: Trace)
    requires Good(t) && InForce(t).Some?
    ensures Shown(t).Some? && exists j :: InForceFrom(t, Shown(t).value, InForce(t).value, j)
  {
    var before := t[..|t| - 1];
    var last := t[|t| - 1];
    assert Good(before) && GoodAt(before, last);
    if last.Recorded? {
      assert InForceFrom(t, last.fp, last.at, |t| - 1);
    } else {
      InForceAt(before);
      var j :| InForceFrom(before, Shown(before).value, InForce(before).value, j);
      hide Good, GoodAt;
      assert t[j] == before[j];
      forall k | j < k < |t| ensures !Ends(t[k], Shown(t).value) && !t[k].Recorded? {
        if k < |t| - 1 { assert t[k] == before[k]; }
      }
      assert InForceFrom(t, Shown(t).value, InForce(t).value, j);
    }
  }

  /** With none in force, every escalation recorded earlier has been ended. */
  lemma {:induction false} NoneInForce(t: Trace, j: nat)
    requires Good(t) && j < |t| && t[j].Recorded?
    ensures (Shown(t) == Some(t[j].fp) && InForce(t).Some?) || exists k :: j < k < |t| && Ends(t[k], t[j].fp)
  {
    var before := t[..|t| - 1];
    var last := t[|t| - 1];
    assert Good(before) && GoodAt(before, last);
    if j < |t| - 1 {
      NoneInForce(before, j);
      hide Good;
      if Shown(before) == Some(t[j].fp) && InForce(before).Some? {
        assert Ends(last, t[j].fp) || (Shown(t) == Some(t[j].fp) && InForce(t).Some?);
        assert t[|t| - 1] == last;
      } else {
        var k :| j < k < |before| && Ends(before[k], before[j].fp);
        assert Ends(t[k], t[j].fp);
      }
    }
  }

  lemma {:induction false} DeliveredAt(t: Trace, j: nat)
    requires j < |t| && t[j].Delivery?
    ensures t[j].commentId in Delivered(t) || exists k :: j < k < |t| && t[k].Restarted?
  {
    if j < |t| - 1 {
      DeliveredAt(t[..|t| - 1], j);
      assert t[..|t| - 1][j] == t[j];
      if t[j].commentId !in Delivered(t[..|t| - 1]) {
        var k :| j < k < |t| - 1 && t[..|t| - 1][k].Restarted?;
        assert t[k].Restarted?;
      } else {
        assert t[|t| - 1].Restarted? || t[j].commentId in Delivered(t);
      }
    }
  }

  lemma {:induction false} LastDeliveryAt(t: Trace)
    requires LastDelivery(t).Some?
    ensures exists j :: DeliveredFrom(t, LastDelivery(t).value, j)
  {
    var before := t[..|t| - 1];
    if t[|t| - 1].Delivery? {
      assert DeliveredFrom(t, LastDelivery(t).value, |t| - 1);
    } else {
      LastDeliveryAt(before);
      var j :| DeliveredFrom(before, LastDelivery(before).value, j);
      assert forall k :: j <= k < |before| ==> t[k] == before[k];
      assert DeliveredFrom(t, LastDelivery(t).value, j);
    }
  }

  // ---------- the main results ----------

  /** Debounce: an escalation is attempted only when the dialog has just been handled for the second
      time in a row, at consecutive poll numbers, with no other sighting and no reset in between. */
  lemma AttemptsAreDebounced(events: seq<Event>, pane: Pane, i: nat)
    requires History(Fresh, events) && i < |TraceOf(events, pane)| && TraceOf(events, pane)[i].Attempt?
    ensures exists j :: TwiceInARow(TraceOf(events, pane), i, j)
  {
    TraceIsGood(events, pane, i);
    hide TraceOf, History;
    AttemptIsSecond(TraceOf(events, pane), i);
  }

  lemma AttemptIsSecond(t: Trace, i: nat)
    requires i < |t| && t[i].Attempt? && GoodAt(t[..i], t[i])
    ensures exists j :: TwiceInARow(t, i, j)
  {
    hide Good;
    assert t[..i][i - 1] == t[i - 1] && t[..i][..i - 1] == t[..i - 1];
    LastSeenAt(t[..i - 1]);
    hide LastSeen;
    var j :| SeenFrom(t[..i - 1], LastSeen(t[..i - 1]).value, j);
    assert TwiceInARow(t, i, j);
  }

  predicate TwiceInARow(t: Trace, i: nat, j: int) {
    && 0 < i < |t| && t[i].Attempt? && t[i - 1].Handled? && t[i - 1].fp == t[i].fp
    && SeenFrom(t[..i - 1], Handled(t[i].fp, t[i - 1].seqNo - 1), j)
  }

  /** An escalation carries over: once recorded, the dialog is not attempted again until a restart, a
      refused directive, or a different dialog; flickers and unparseable polls do not end it. */
  lemma EscalationCarriesOver(events: seq<Event>, pane: Pane, j: nat, i: nat)
    requires History(Fresh, events) && j < i < |TraceOf(events, pane)|
    requires TraceOf(events, pane)[j].Recorded? && TraceOf(events, pane)[i] == Attempt(TraceOf(events, pane)[j].fp)
    ensures exists k :: j < k < i && Ends(TraceOf(events, pane)[k], TraceOf(events, pane)[j].fp)
  {
    var t := TraceOf(events, pane);
    TraceIsGood(events, pane, i);
    HistoryFits(Fresh, events, pane, []);
    GoodEverywhere(t, i);
    hide TraceOf, History, Good, Fits;
    NoneInForce(t[..i], j);
    var k :| j < k < i && Ends(t[..i][k], t[..i][j].fp);
    assert Ends(t[k], t[j].fp);
  }

  /** A follow-up falls due at least fifteen minutes after the recorded time of an escalation of the
      same dialog that is still in force. */
  lemma FollowUpWaits(events: seq<Event>, pane: Pane, i: nat)
    requires History(Fresh, events) && i < |TraceOf(events, pane)| && TraceOf(events, pane)[i].FollowUpDue?
    ensures TraceOf(events, pane)[i].at - TraceOf(events, pane)[i].since >= FOLLOWUP_MS
    ensures exists j :: InForceFrom(TraceOf(events, pane)[..i], TraceOf(events, pane)[i].fp, TraceOf(events, pane)[i].since, j)
  {
    var t := TraceOf(events, pane);
    TraceIsGood(events, pane, i);
    HistoryFits(Fresh, events, pane, []);
    GoodEverywhere(t, i);
    hide TraceOf, History, Good, Fits;
    InForceAt(t[..i]);
  }

  /** In one daemon lifetime a comment is acted on at most once per pane, whatever became of its sends. */
  lemma DirectivesAreConsumedOnce(events: seq<Event>, pane: Pane, j: nat, i: nat)
    requires History(Fresh, events) && j < i < |TraceOf(events, pane)|
    requires TraceOf(events, pane)[j].Delivery? && TraceOf(events, pane)[i].Delivery?
    requires TraceOf(events, pane)[j].commentId == TraceOf(events, pane)[i].commentId
    ensures exists k :: j < k < i && TraceOf(events, pane)[k].Restarted?
  {
    var t := TraceOf(events, pane);
    TraceIsGood(events, pane, i);
    hide TraceOf, History, Good;
    DeliveredAt(t[..i], j);
    var k :| j < k < i && t[..i][k].Restarted?;
    assert t[k].Restarted?;
  }

  lemma PressIsWarranted(t: Trace, note: Note)
    requires note.Pressed? && GoodAt(t, note)
    ensures Warranted(note.warrant) && Typed(t + [note]) <= Wanted(note.warrant)
    ensures exists j, id :: DeliveredFrom(t, DeliveryOf(id, note.warrant), j)
  {
    hide Warranted, Wanted, TypedUnder;
    LastDeliveryAt(t);
    assert LastDelivery(t).value == DeliveryOf(LastDelivery(t).value.commentId, note.warrant);
    assert (t + [note])[..|t|] == t;
  }

  /** Keys go out only for the delivery under way: the pane as re-read for it shows the escalated dialog,
      the directive names no other, and its comment's time is known and not before the escalation less the
      grace; and those that have gone out for it are, in order, the first of those it asks for on that dialog. */
  lemma KeysAreWarranted(events: seq<Event>, pane: Pane, i: nat)
    requires History(Fresh, events) && i < |TraceOf(events, pane)| && TraceOf(events, pane)[i].Pressed?
    ensures Warranted(TraceOf(events, pane)[i].warrant)
    ensures Typed(TraceOf(events, pane)[..i + 1]) <= Wanted(TraceOf(events, pane)[i].warrant)
    ensures exists j, id :: DeliveredFrom(TraceOf(events, pane)[..i], DeliveryOf(id, TraceOf(events, pane)[i].warrant), j)
  {
    hide TraceOf, History, GoodAt, Warranted, Wanted, Typed, DeliveredFrom;
    var t := TraceOf(events, pane);
    TraceIsGood(events, pane, i);
    PressIsWarranted(t[..i], t[i]);
    assert t[..i + 1] == t[..i] + [t[i]];
  }

  function DeliveryOf(id: CommentId, w: Warrant): Note {
    Delivery(id, w.directive, w.created, w.since)
  }
}
