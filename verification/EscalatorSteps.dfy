/**
 What the escalator does next, said from a pane's trace alone: when a sighting is attempted, when an attempt is
 posted, what a read of the replies leads to, and which keys go out.
 */
module EscalatorSteps {
  import opened Text
  import opened Wrappers
  import opened CommentText
  import opened Directives
  import opened Escalator
  import opened EscalatorSafety
  import opened EscalatorTrace
  import opened EscalatorBudget
  import Cap = HourlyCap

  /** An event that can come next after a history. */
  ghost predicate Next(events: seq<Event>, e: Event) {
    History(Fresh, events) && (AfterIsCoherent(Fresh, events); Enabled(After(Fresh, events), e))
  }

  lemma {:induction false} AfterIsCoherent(w: World, events: seq<Event>)
    requires Coherent(w.memory) && History(w, events)
    ensures Coherent(After(w, events).memory)
    decreases |events|
  {
    if events != [] {
      StepKeepsCoherent(w, events[0]);
      hide Coherent, Step, Enabled;
      AfterIsCoherent(Step(w, events[0]), events[1..]);
    }
  }

  ghost function Now(events: seq<Event>): (w: World)
    requires History(Fresh, events)
    ensures Coherent(w.memory)
  {
    AfterIsCoherent(Fresh, events);
    After(Fresh, events)
  }

  lemma MemoryFits(events: seq<Event>, pane: Pane)
    requires History(Fresh, events)
    ensures Fits(Now(events).memory, pane, TraceOf(events, pane))
  {
    HistoryFits(Fresh, events, pane, []);
  }

  // ---------- sightings ----------

  /** A sighting counts unless a call is under way or its poll is stale. A dialog whose escalation is in force is
      looked up for replies; otherwise the second sighting in a row is attempted, and no other is. */
  lemma SightingsLead(events: seq<Event>, pane: Pane, issue: IssueKey, dialog: Dialog, seqNo: int)
    requires Next(events, Blocked(pane, issue, dialog, seqNo))
    ensures var m, t, fp := Now(events).memory, TraceOf(events, pane), dialog.fp;
      var r := React(Now(events), Blocked(pane, issue, dialog, seqNo));
      && (LastSeen(t).Some? ==> LastSeen(t).value.Handled?)
      && (if pane in m.inFlight || (LastSeen(t).Some? && seqNo <= LastSeen(t).value.seqNo) then r == Reaction(m, [])
          else if Shown(t) == Some(fp) && InForce(t).Some? then
            r.notes == [Handled(fp, seqNo)] && r.memory.inFlight == m.inFlight[pane := DirectiveRead(issue)]
          else if LastSeen(t) == Some(Handled(fp, seqNo - 1)) then
            r.notes == [Handled(fp, seqNo), Attempt(fp)] && r.memory.inFlight == m.inFlight[pane := EscalateRead(issue, dialog)]
          else r.notes == [Handled(fp, seqNo)] && r.memory.inFlight == m.inFlight)
  {
    hide History, TraceOf, Good, WaitFits, Delivered;
    MemoryFits(events, pane);
  }

  /** A poll that shows no dialog breaks the pane's run of sightings, unless it is stale or the pane is not tracked. */
  lemma BlanksLead(events: seq<Event>, pane: Pane, seqNo: int)
    requires Next(events, NoPromptSeen(pane, seqNo))
    ensures var t := TraceOf(events, pane);
      React(Now(events), NoPromptSeen(pane, seqNo)).notes
      == if Shown(t).None? || (LastSeen(t).Some? && LastSeen(t).value.Handled? && seqNo <= LastSeen(t).value.seqNo) then [] else [Broken]
  {
    hide History, TraceOf, Good, WaitFits, Delivered;
    MemoryFits(events, pane);
  }

  // ---------- the read before an escalation ----------

  /** The comment begins with the escalator's marker and holds the dialog's fingerprint line. */
  ghost predicate Announces(c: Comment, fp: Fingerprint) {
    MARKER <= c.body && exists i :: OccursAt(c.body, "fingerprint: " + fp, i)
  }

  lemma AnnouncesIsEscalation(c: Comment, fp: Fingerprint)
    ensures Announces(c, fp) <==> IsEscalationOf(c, fp)
  {
  }

  ghost predicate FirstOf(rows: seq<Comment>, fp: Fingerprint, i: int) {
    0 <= i < |rows| && Announces(rows[i], fp) && forall j :: 0 <= j < i ==> !Announces(rows[j], fp)
  }

  lemma {:induction false} FirstEscalationIsFirst(rows: seq<Comment>, fp: Fingerprint)
    ensures var c := FirstEscalation(rows, fp);
      && (c.None? ==> forall r :: r in rows ==> !Announces(r, fp))
      && (c.Some? ==> exists i :: FirstOf(rows, fp, i) && rows[i] == c.value)
  {
    hide IsEscalationOf, Announces;
    if rows != [] {
      var rest := rows[1..];
      FirstEscalationIsFirst(rest, fp);
      AnnouncesIsEscalation(rows[0], fp);
      if IsEscalationOf(rows[0], fp) {
        assert FirstOf(rows, fp, 0);
      } else {
        assert rows == [rows[0]] + rest;
        var c := FirstEscalation(rest, fp);
        if c.Some? {
          var i :| FirstOf(rest, fp, i) && rest[i] == c.value;
          assert forall j :: 0 < j <= i + 1 ==> rows[j] == rest[j - 1];
          assert FirstOf(rows, fp, i + 1);
        }
      }
    }
  }

  /** The time a comment carries; one that cannot be read, or is zero, counts as now. */
  function Dated(c: Comment, now: int): int {
    match c.created
    case Some(at) => if at == 0 then now else at
    case None => now
  }

  lemma AccountNow(events: seq<Event>, pane: Pane, clock: int)
    requires History(Fresh, events) && Monotone(events, clock)
    ensures Accounted(Now(events).memory, pane, TraceOf(events, pane), ClockAfter(events, clock))
  {
    NothingKept(pane, clock);
    HistoryKeeps(Fresh, events, pane, [], clock);
    hide Accounted, Budgeted, Monotone, History;
  }

  // ---------- the notice that the hourly cap is reached ----------

  predicate GrantedIn(notes: Trace) {
    exists k :: 0 <= k < |notes| && notes[k].Granted?
  }

  ghost predicate ToldAfter(w: World, e: Event, pane: Pane, told: bool)
    requires Coherent(w.memory) && Enabled(w, e)
  {
    if e.Restart? || GrantedIn(NotesFor(w, e, pane)) then false
    else told || CapUnderWay(Step(w, e).memory, pane)
  }

  predicate CapUnderWay(m: Memory, pane: Pane) {
    pane in m.inFlight && m.inFlight[pane].CapPost?
  }

  /** The notice has been sent for the pane, and nothing granted to it nor the daemon restarted since. */
  ghost predicate Told(w: World, events: seq<Event>, pane: Pane, told: bool)
    requires Coherent(w.memory) && History(w, events)
    decreases |events|
  {
    if events == [] then told
    else
      StepKeepsCoherent(w, events[0]);
      Told(Step(w, events[0]), events[1..], pane, ToldAfter(w, events[0], pane, told))
  }

  lemma EscalateTells(m: Memory, pane: Pane, issue: IssueKey, dialog: Dialog, rows: seq<Comment>, now: int)
    ensures var r := Escalate(m, pane, issue, dialog, rows, now);
      && (forall other :: other != pane ==> (other in r.memory.capped <==> other in m.capped))
      && (pane in r.memory.capped <==> !GrantedIn(r.notes) && (pane in m.capped || CapUnderWay(r.memory, pane)))
      && (CapUnderWay(r.memory, pane) ==> pane in r.memory.capped)
  {
    hide FirstEscalation, CapNotice, Recent;
    var r := Escalate(m, pane, issue, dialog, rows, now);
    assert |r.notes| <= 1;
    assert GrantedIn(r.notes) <==> r.notes != [] && r.notes[0].Granted?;
  }

  predicate Escalating(w: World, e: Event) {
    && e.ReadAnswered? && e.rows.Some? && e.pane in w.memory.inFlight && w.memory.inFlight[e.pane].EscalateRead?
  }

  predicate Quiet(m: Memory, r: Reaction, pane: Pane) {
    && r.memory.capped == m.capped && !GrantedIn(r.notes)
    && (CapUnderWay(r.memory, pane) ==> CapUnderWay(m, pane))
  }

  lemma SightingsAreQuiet(m: Memory, pane: Pane, issue: IssueKey, dialog: Dialog, seqNo: int)
    ensures Quiet(m, OnBlocked(m, pane, issue, dialog, seqNo), pane)
  {
    hide Sighted, StalePoll;
  }

  lemma RepliesAreQuiet(m: Memory, pane: Pane, issue: IssueKey, rows: seq<Comment>, now: int)
    requires pane in m.panes && m.panes[pane].escalatedAt.Some?
    ensures Quiet(m, CheckReplies(m, pane, issue, rows, now), pane)
  {
    hide FirstAnswer, ParseDirective, FindMarked, FollowupComment, FollowupTag;
  }

  lemma PostsAreQuiet(m: Memory, pane: Pane, ok: bool, now: int)
    requires Coherent(m) && pane in m.inFlight && Posting(m.inFlight[pane])
    ensures Quiet(m, PostReturned(m, pane, ok, now), pane)
  {
    assert CallFits(StateOf(m, pane), m.inFlight[pane]);
    hide Coherent, CallFits;
  }

  lemma ReReadsAreQuiet(m: Memory, pane: Pane, reread: Option<Option<Dialog>>)
    requires Coherent(m) && pane in m.inFlight && m.inFlight[pane].PaneRead?
    ensures Quiet(m, PaneReadBack(m, pane, reread), pane)
  {
    assert CallFits(StateOf(m, pane), m.inFlight[pane]);
    hide Coherent, CallFits, NoFreeTextNotice;
  }

  /** Nothing but an attempt's read counts towards the cap or gives notice of it. */
  lemma OthersAreQuiet(w: World, e: Event)
    requires Coherent(w.memory) && Enabled(w, e) && Acts(e) && !Escalating(w, e)
    ensures Quiet(w.memory, React(w, e), e.pane)
  {
    hide OnBlocked, Escalate, CheckReplies, PostReturned, PaneReadBack, EscalationComment;
    var m := w.memory;
    match e {
      case Blocked(pane, issue, dialog, seqNo) => SightingsAreQuiet(m, pane, issue, dialog, seqNo);
      case ReadAnswered(pane, rows, now) =>
        if rows.Some? {
          CallNeedsTime(m, pane);
          RepliesAreQuiet(m, pane, m.inFlight[pane].issue, rows.value, now);
        }
        hide Coherent;
      case PostEnded(pane, _, ok, now) => PostsAreQuiet(m, pane, ok, now);
      case PaneReRead(pane, reread) => ReReadsAreQuiet(m, pane, reread);
      case _ => hide Coherent;
    }
  }

  lemma ReactTells(w: World, e: Event)
    requires Coherent(w.memory) && Enabled(w, e) && Acts(e)
    requires CapUnderWay(w.memory, e.pane) ==> e.pane in w.memory.capped
    ensures var r := React(w, e);
      && (forall other :: other != e.pane ==> (other in r.memory.capped <==> other in w.memory.capped))
      && (e.pane in r.memory.capped <==> !GrantedIn(r.notes) && (e.pane in w.memory.capped || CapUnderWay(r.memory, e.pane)))
      && (CapUnderWay(r.memory, e.pane) ==> e.pane in r.memory.capped)
  {
    if Escalating(w, e) {
      var call := w.memory.inFlight[e.pane];
      EscalateTells(w.memory, e.pane, call.issue, call.dialog, e.rows.value, e.now);
      hide Escalate, GrantedIn;
    } else {
      OthersAreQuiet(w, e);
      hide React, CapUnderWay, GrantedIn;
    }
  }

  ghost predicate CapsTold(m: Memory) {
    forall pane :: CapUnderWay(m, pane) ==> pane in m.capped
  }

  lemma StepTells(w: World, e: Event, pane: Pane)
    requires Coherent(w.memory) && Enabled(w, e) && CapsTold(w.memory)
    ensures pane in Step(w, e).memory.capped <==> ToldAfter(w, e, pane, pane in w.memory.capped)
    ensures CapUnderWay(Step(w, e).memory, pane) ==> pane in Step(w, e).memory.capped
  {
    if Acts(e) {
      assert CapUnderWay(w.memory, e.pane) ==> e.pane in w.memory.capped;
      assert CapUnderWay(w.memory, pane) ==> pane in w.memory.capped;
      ReactIsGood(w, e);
      ReactTells(w, e);
      if e.pane != pane {
        AnothersCall(w.memory, React(w, e).memory, e.pane, pane);
        assert NotesFor(w, e, pane) == [];
      }
      hide React, GoodStep, Coherent, CapUnderWay, CapsTold;
    } else if e.Tick? {
      assert forall k :: 0 <= k < |NotesFor(w, e, pane)| ==> NotesFor(w, e, pane)[k].Broken?;
    }
  }

  lemma AnothersCall(m: Memory, m': Memory, pane: Pane, other: Pane)
    requires GoodStep(m, m', pane) && other != pane
    ensures CapUnderWay(m', other) <==> CapUnderWay(m, other)
  {
    hide CallFits;
    assert Untouched(m, m', other);
  }

  lemma StepKeepsCapsTold(w: World, e: Event)
    requires Coherent(w.memory) && Enabled(w, e) && CapsTold(w.memory)
    ensures CapsTold(Step(w, e).memory)
  {
    hide Step, CapUnderWay, ToldAfter, Enabled, Coherent;
    forall pane ensures CapUnderWay(Step(w, e).memory, pane) ==> pane in Step(w, e).memory.capped {
      StepTells(w, e, pane);
    }
  }
  lemma {:induction false} HistoryTells(w: World, events: seq<Event>, pane: Pane)
    requires Coherent(w.memory) && History(w, events) && CapsTold(w.memory)
    ensures Coherent(After(w, events).memory)
    ensures pane in After(w, events).memory.capped <==> Told(w, events, pane, pane in w.memory.capped)
    decreases |events|
  {
    AfterIsCoherent(w, events);
    if events != [] {
      StepKeepsCoherent(w, events[0]);
      StepKeepsCapsTold(w, events[0]);
      StepTells(w, events[0], pane);
      hide Coherent, Step, Enabled, CapsTold, ToldAfter;
      HistoryTells(Step(w, events[0]), events[1..], pane);
    }
  }

  /** A pane is capped exactly when the notice has been sent for it and nothing granted to it nor the daemon restarted
      since. */
  lemma CappedMeansTold(events: seq<Event>, pane: Pane)
    requires History(Fresh, events)
    ensures pane in Now(events).memory.capped <==> Told(Fresh, events, pane, false)
  {
    hide Coherent, History, After, Told;
    assert Coherent(Fresh.memory) by { BlankIsCoherent(); }
    assert CapsTold(Fresh.memory);
    HistoryTells(Fresh, events, pane);
  }

  lemma BlankIsCoherent()
    ensures Coherent(Fresh.memory)
  {
  }

  /** Where an attempt's read leads, by the trace. */
  ghost predicate LedOn(m: Memory, pane: Pane, issue: IssueKey, dialog: Dialog, rows: seq<Comment>, now: int, t: Trace, told: bool, r: Reaction) {
    if exists c :: c in rows && Announces(c, dialog.fp) then
      && pane !in r.memory.inFlight
      && exists i :: FirstOf(rows, dialog.fp, i) && r.notes == [Recorded(dialog.fp, Dated(rows[i], now), ByAdoption)]
    else if |Cap.Recent(AccountOf(t).times, now, Cap.HOUR_MS)| < 3 then
      r.notes == [Granted(dialog.fp, now)] && r.memory.inFlight == m.inFlight[pane := Capture(issue, dialog)]
    else if told then r.notes == [Recorded(dialog.fp, now, ByCap)] && pane !in r.memory.inFlight
    else r.notes == [] && r.memory.inFlight == m.inFlight[pane := CapPost(issue, CapNotice(issue))]
  }

  lemma EscalateLeads(m: Memory, pane: Pane, issue: IssueKey, dialog: Dialog, rows: seq<Comment>, now: int, t: Trace, clock: int)
    requires Accounted(m, pane, t, clock) && clock <= now
    ensures LedOn(m, pane, issue, dialog, rows, now, t, pane in m.capped, Escalate(m, pane, issue, dialog, rows, now))
  {
    hide IsEscalationOf, Announces, CapNotice, Cap.Recent, AccountOf, GrantsFit;
    FirstEscalationIsFirst(rows, dialog.fp);
    var existing := FirstEscalation(rows, dialog.fp);
    hide FirstEscalation;
    if existing.Some? {
      var i :| FirstOf(rows, dialog.fp, i) && rows[i] == existing.value;
      assert rows[i] in rows;
    } else {
      assert Cap.Recent(PostsOf(m, pane), now, Cap.HOUR_MS) == Cap.Recent(AccountOf(t).times, now, Cap.HOUR_MS);
    }
  }

  /** An attempt whose read resolves adopts the first escalation of the dialog already there, at its own time; finds
      none and goes on to post while fewer than three charges lie in the hour before; and beyond that only gives
      notice, once, or records the dialog as handled. */
  lemma AttemptsLead(events: seq<Event>, pane: Pane, rows: seq<Comment>, now: int, clock: int)
    requires Next(events, ReadAnswered(pane, Some(rows), now)) && Now(events).memory.inFlight[pane].EscalateRead?
    requires Monotone(events, clock) && ClockAfter(events, clock) <= now
    ensures var m := Now(events).memory;
      LedOn(m, pane, m.inFlight[pane].issue, m.inFlight[pane].dialog, rows, now, TraceOf(events, pane),
            Told(Fresh, events, pane, false), React(Now(events), ReadAnswered(pane, Some(rows), now)))
  {
    hide History, TraceOf, LedOn, Accounted, Monotone, Escalate, Coherent, ClockAfter, Told;
    AccountNow(events, pane, clock);
    CappedMeansTold(events, pane);
    var m := Now(events).memory;
    EscalateLeads(m, pane, m.inFlight[pane].issue, m.inFlight[pane].dialog, rows, now, TraceOf(events, pane), ClockAfter(events, clock));
  }

  /** What was granted goes on to be posted, whether or not the pane's text could be captured: a comment recognisable
      as the escalation of that dialog, to the issue it was granted for. */
  lemma GrantsArePosted(w: World, e: Event)
    requires Coherent(w.memory) && Enabled(w, e) && e.CaptureEnded?
    ensures var c, m := w.memory.inFlight[e.pane], Step(w, e).memory;
      && e.pane in m.inFlight && m.inFlight[e.pane].EscalationPost?
      && m.inFlight[e.pane].issue == c.issue && m.inFlight[e.pane].fp == c.dialog.fp
      && forall id, at :: IsEscalationOf(Comment(id, m.inFlight[e.pane].body, at), c.dialog.fp)
  {
    hide EscalationComment, Coherent, IsEscalationOf;
    var c := w.memory.inFlight[e.pane];
    EscalationFits(c.issue, e.question, e.options, c.dialog.fp, e.path);
  }

  lemma EscalationFits(issue: IssueKey, question: string, options: string, fp: Fingerprint, path: Option<string>)
    ensures forall id, at :: IsEscalationOf(Comment(id, EscalationComment(issue, question, options, fp, path), at), fp)
  {
    hide EscalationComment, StartsWith, Contains;
    EscalationIsRecognised(issue, question, options, fp, path);
  }

  /** A post reported done is the issue's last comment, in the words that were sent, and is put on record at its time;
      one that failed leaves no record. */
  lemma PostsAreRecorded(w: World, e: Event)
    requires Coherent(w.memory) && Enabled(w, e) && e.PostEnded?
    ensures var p, notes := w.memory.inFlight[e.pane], React(w, e).notes;
      && e.pane !in Step(w, e).memory.inFlight
      && (e.ok ==> e.landed.Some? && e.landed.value.body == p.body)
      && (e.ok ==> ChannelOf(Step(w, e), p.issue) == ChannelOf(w, p.issue) + [e.landed.value])
      && (e.ok && p.EscalationPost? ==> notes == [Recorded(p.fp, e.now, ByPost)])
      && (e.ok && p.FollowupPost? ==> notes == [FollowedUp(e.now)])
      && (e.ok && p.CapPost? ==> e.pane in w.memory.panes && notes == [Recorded(w.memory.panes[e.pane].fp, e.now, ByCap)])
      && (e.ok && p.NoticePost? ==> notes == [])
      && (!e.ok ==> notes == [])
  {
    assert CallFits(StateOf(w.memory, e.pane), w.memory.inFlight[e.pane]);
    hide Coherent, CallFits;
  }

  // ---------- the read for replies ----------

  /** The row answers the dialog in force: dated no more than the clocks may differ before its escalation, not among
      those delivered, and readable as a directive. */
  predicate Answering(t: Trace, c: Comment)
    requires InForce(t).Some?
  {
    && c.created.Some? && InForce(t).value - c.created.value <= CLOCK_SKEW_GRACE_MS
    && c.id !in Delivered(t) && ParseDirective(c.body).Some?
  }

  predicate FirstAnswering(t: Trace, rows: seq<Comment>, i: int)
    requires InForce(t).Some?
  {
    0 <= i < |rows| && Answering(t, rows[i]) && forall j :: 0 <= j < i ==> !Answering(t, rows[j])
  }

  lemma AnsweringAnswers(t: Trace, rows: seq<Comment>)
    requires InForce(t).Some?
    ensures forall c :: Answering(t, c) <==> Answers(c, InForce(t).value, Delivered(t))
    ensures forall i :: FirstAnswering(t, rows, i) <==> FirstAt(rows, InForce(t).value, Delivered(t), i)
  {
    hide ParseDirective, InForce, Delivered;
    assert forall c :: Answering(t, c) <==> Answers(c, InForce(t).value, Delivered(t));
    hide Answers, Answering;
  }

  /** Where a read for replies leads, by the trace: the first answer is delivered; without one a dialog escalated
      fifteen minutes ago and not yet followed up is followed up, unless a follow-up is already there; and
      otherwise nothing happens. */
  ghost predicate RepliedTo(m: Memory, pane: Pane, issue: IssueKey, rows: seq<Comment>, now: int, t: Trace, r: Reaction)
    requires Shown(t).Some? && InForce(t).Some?
  {
    var fp, since := Shown(t).value, InForce(t).value;
    if exists c :: c in rows && Answering(t, c) then
      exists i :: FirstAnswering(t, rows, i)
        && r.notes == [Delivery(rows[i].id, ParseDirective(rows[i].body).value, rows[i].created.value, since)]
        && r.memory.inFlight
           == m.inFlight[pane := PaneRead(issue, ParseDirective(rows[i].body).value, rows[i].created.value, since)]
    else if FollowedAt(t).None? && now - since >= FOLLOWUP_MS then
      if exists c :: c in rows && IsFollowupOf(c, fp) then
        pane !in r.memory.inFlight && exists c :: c in rows && IsFollowupOf(c, fp) && r.notes == [FollowedUp(Dated(c, now))]
      else
        && r.notes == [FollowUpDue(fp, now, since)] && pane in r.memory.inFlight && r.memory.inFlight[pane].FollowupPost?
        && r.memory.inFlight[pane].issue == issue && forall id, at :: IsFollowupOf(Comment(id, r.memory.inFlight[pane].body, at), fp)
    else r.notes == [] && pane !in r.memory.inFlight
  }

  lemma RepliesLeadOn(m: Memory, pane: Pane, issue: IssueKey, rows: seq<Comment>, now: int, t: Trace)
    requires Fits(m, pane, t) && pane in m.panes && m.panes[pane].escalatedAt.Some?
    ensures Shown(t).Some? && InForce(t).Some?
    ensures RepliedTo(m, pane, issue, rows, now, t, CheckReplies(m, pane, issue, rows, now))
  {
    hide Good, WaitFits, Answers, Answering, IsFollowupOf, FirstAnswer, FindMarked, FollowupComment, FollowupTag;
    var s := m.panes[pane];
    var since, consumed := s.escalatedAt.value, Delivered(t);
    assert Shown(t) == Some(s.fp) && InForce(t) == Some(since) && FollowedAt(t) == s.followedUpAt;
    FirstAnswerAnswers(rows, since, consumed);
    AnsweringAnswers(t, rows);
    hide StateFits, Fits;
    var answer := FirstAnswer(rows, since, consumed);
    if answer.Some? {
      var i :| FirstAt(rows, since, consumed, i) && rows[i] == answer.value;
      assert rows[i] in rows;
      AnswersRead(rows[i], since, consumed);
    } else if s.followedUpAt.None? && now - since >= FOLLOWUP_MS {
      FollowUpsFound(rows, s.fp);
      FollowupFits(issue, s.fp);
    }
  }

  lemma AnswersRead(c: Comment, since: int, consumed: set<CommentId>)
    requires Answers(c, since, consumed)
    ensures c.created.Some? && ParseDirective(c.body).Some?
  {
    hide ParseDirective;
  }

  lemma FollowUpsFound(rows: seq<Comment>, fp: Fingerprint)
    ensures var c := FindMarked(rows, MARKER, [FOLLOWUP_STAGE, FollowupTag(fp)]);
      && (c.Some? ==> c.value in rows && IsFollowupOf(c.value, fp))
      && (c.None? ==> forall r :: r in rows ==> !IsFollowupOf(r, fp))
  {
    FindMarkedFinds(rows, MARKER, [FOLLOWUP_STAGE, FollowupTag(fp)]);
    hide FindMarked, StartsWith, HasAll, FollowupTag;
  }

  lemma FollowupFits(issue: IssueKey, fp: Fingerprint)
    ensures forall id, at :: IsFollowupOf(Comment(id, FollowupComment(issue, fp), at), fp)
  {
    FollowupIsRecognised(issue, fp);
    hide FollowupComment, StartsWith, HasAll, FollowupTag;
  }

  /** Over any history, so goes every read for replies that resolves. */
  lemma RepliesLead(events: seq<Event>, pane: Pane, rows: seq<Comment>, now: int)
    requires Next(events, ReadAnswered(pane, Some(rows), now)) && Now(events).memory.inFlight[pane].DirectiveRead?
    ensures var m, t := Now(events).memory, TraceOf(events, pane);
      && Shown(t).Some? && InForce(t).Some?
      && RepliedTo(m, pane, m.inFlight[pane].issue, rows, now, t, React(Now(events), ReadAnswered(pane, Some(rows), now)))
  {
    hide History, TraceOf, RepliedTo, Fits, CheckReplies, Shown, InForce;
    MemoryFits(events, pane);
    var m := Now(events).memory;
    CallNeedsTime(m, pane);
    RepliesLeadOn(m, pane, m.inFlight[pane].issue, rows, now, TraceOf(events, pane));
  }

  // ---------- the re-read before keys ----------

  /** The directive under way, on that dialog. */
  function WarrantFor(t: Trace, live: Dialog): Warrant
    requires LastDelivery(t).Some? && LastDelivery(t).value.Delivery?
  {
    var d := LastDelivery(t).value;
    Warrant(live, live.fp, d.directive, d.created, d.since)
  }

  /** Where a re-read leads, by the trace: nowhere when it failed; a dialog gone or changed, or a directive for
      another, drops the directive; and otherwise the first key the directive asks for goes out; a text for a dialog without a
      free-text option is answered with a notice, and an option it does not have with nothing. */
  ghost predicate ReReadTo(m: Memory, pane: Pane, reread: Option<Option<Dialog>>, t: Trace, r: Reaction)
    requires LastDelivery(t).Some? && LastDelivery(t).value.Delivery? && pane in m.inFlight
  {
    if reread.None? then r.notes == [] && pane !in r.memory.inFlight
    else if reread.value.None? then r.notes == [Dropped(None)] && pane !in r.memory.inFlight
    else
      var live, d := reread.value.value, LastDelivery(t).value.directive;
      if Shown(t) != Some(live.fp) || (d.fp.Some? && d.fp.value != live.fp) then
        r.notes == [Dropped(Some(live.fp))] && pane !in r.memory.inFlight
      else
        var w := WarrantFor(t, live);
        if Wanted(w) == [] then
          && r.notes == []
          && (d.TextDirective? ==> pane in r.memory.inFlight && r.memory.inFlight[pane].NoticePost?
                                   && r.memory.inFlight[pane].issue == m.inFlight[pane].issue)
          && (d.OptionDirective? ==> pane !in r.memory.inFlight)
        else
          && r.notes == [Pressed(Wanted(w)[0], w)]
          && pane in r.memory.inFlight && r.memory.inFlight[pane] == Sending(m.inFlight[pane].issue, Wanted(w)[1..], w)
  }

  lemma ReReadLeadsOn(m: Memory, pane: Pane, reread: Option<Option<Dialog>>, t: Trace)
    requires Fits(m, pane, t) && Coherent(m) && pane in m.inFlight && m.inFlight[pane].PaneRead?
    ensures LastDelivery(t).Some? && LastDelivery(t).value.Delivery?
    ensures ReReadTo(m, pane, reread, t, PaneReadBack(m, pane, reread))
  {
    hide Good, Typed, LastDelivery, Shown, NoFreeTextNotice;
    assert CallFits(StateOf(m, pane), m.inFlight[pane]);
    assert WaitFits(Some(m.inFlight[pane]), t) && StateFits(StateOf(m, pane), t);
    hide Coherent, CallFits, Fits;
  }

  lemma ReReadsLead(events: seq<Event>, pane: Pane, reread: Option<Option<Dialog>>)
    requires Next(events, PaneReRead(pane, reread))
    ensures var t := TraceOf(events, pane);
      && LastDelivery(t).Some? && LastDelivery(t).value.Delivery?
      && ReReadTo(Now(events).memory, pane, reread, t, React(Now(events), PaneReRead(pane, reread)))
  {
    hide History, TraceOf, ReReadTo, Fits, PaneReadBack, LastDelivery;
    MemoryFits(events, pane);
    ReReadLeadsOn(Now(events).memory, pane, reread, TraceOf(events, pane));
  }

  // ---------- the keys ----------

  lemma SendLeadsOn(m: Memory, pane: Pane, ok: bool, t: Trace)
    requires Fits(m, pane, t) && pane in m.inFlight && m.inFlight[pane].Sending?
    ensures var w, typed, r := m.inFlight[pane].warrant, Typed(t), Sent(m, pane, ok);
      && typed <= Wanted(w)
      && (if ok && typed != Wanted(w) then r.notes == [Pressed(Wanted(w)[|typed|], w)] && pane in r.memory.inFlight
          else r.notes == [] && pane !in r.memory.inFlight)
  {
    hide Good, StateFits, Typed, Wanted, Warranted;
    assert WaitFits(Some(m.inFlight[pane]), t);
    hide Fits;
  }

  /** When a key's send ends, the next key the directive asks for goes out, if there is one and the send did not fail;
      otherwise the call is over. */
  lemma SendsLead(events: seq<Event>, pane: Pane, ok: bool)
    requires Next(events, SendEnded(pane, ok))
    ensures var m, typed := Now(events).memory, Typed(TraceOf(events, pane));
      var w, r := m.inFlight[pane].warrant, React(Now(events), SendEnded(pane, ok));
      && typed <= Wanted(w)
      && (if ok && typed != Wanted(w) then r.notes == [Pressed(Wanted(w)[|typed|], w)] && pane in r.memory.inFlight
          else r.notes == [] && pane !in r.memory.inFlight)
  {
    hide History, TraceOf, Fits, Sent, Typed, Wanted;
    MemoryFits(events, pane);
    SendLeadsOn(Now(events).memory, pane, ok, TraceOf(events, pane));
  }
}
