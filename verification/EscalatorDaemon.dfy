/**
 The escalator's closures as they are written: maps updated in place, one method per stretch of
 code between two awaits, each shown to do exactly what the step function of the same name says.
 */
module EscalatorDaemon {
  import opened Wrappers
  import opened CommentText
  import opened Directives
  import opened Escalator

  class EscalatorState {
    var panes: map<Pane, PaneState>
    var inFlight: map<Pane, Waiting>
    var consumed: map<Pane, set<CommentId>>
    var paneEscalations: map<Pane, seq<int>>
    var capped: set<Pane>
    var counted: map<Pane, set<Fingerprint>>

    function Model(): Memory
      reads this
    {
      Memory(panes, inFlight, consumed, paneEscalations, capped, counted)
    }

    constructor ()
      ensures Model() == Blank
    {
      panes, inFlight, consumed, paneEscalations, capped, counted := map[], map[], map[], map[], {}, map[];
    }

    /** `resetDebounce`. */
    method ResetDebounce(pane: Pane)
      modifies this`panes
      ensures pane !in old(panes) ==> panes == old(panes)
      ensures pane in old(panes) ==> panes == old(panes)[pane := ResetState(old(panes)[pane])]
    {
      if pane !in panes { return; }
      panes := panes[pane := panes[pane].(blockedPolls := 0)];
      panes := panes[pane := panes[pane].(lastPollSeq := None)];
    }

    method OnPoll(blocked: set<Pane>)
      modifies this`panes
      ensures Model() == Escalator.OnPoll(old(Model()), blocked)
    {
      ghost var was := panes;
      var left := panes.Keys;
      while left != {}
        invariant left <= was.Keys && panes.Keys == was.Keys
        invariant forall p :: p in panes ==>
            panes[p] == if p in left || p in blocked then was[p] else ResetState(was[p])
        decreases |left|
      {
        var pane :| pane in left;
        left := left - {pane};
        if pane !in blocked { ResetDebounce(pane); }
      }
      assert panes == Escalator.OnPoll(old(Model()), blocked).panes;
    }

    method OnNoPrompt(pane: Pane, seqNo: int) returns (notes: seq<Note>)
      modifies this`panes
      ensures Reaction(Model(), notes) == Escalator.OnNoPrompt(old(Model()), pane, seqNo)
    {
      notes := [];
      if pane in panes && !(panes[pane].lastPollSeq.Some? && seqNo <= panes[pane].lastPollSeq.value) {
        ResetDebounce(pane);
        notes := [Broken];
      }
    }

    /** `onBlocked` and `handleBlocked` up to the first await. */
    method OnBlocked(pane: Pane, issue: IssueKey, dialog: Dialog, seqNo: int) returns (notes: seq<Note>)
      modifies this`panes, this`inFlight
      ensures Reaction(Model(), notes) == Escalator.OnBlocked(old(Model()), pane, issue, dialog, seqNo)
    {
      notes := [];
      if pane in inFlight { return; }
      var fp := dialog.fp;
      var prior := if pane in panes then Some(panes[pane]) else None;
      if prior.Some? && prior.value.lastPollSeq.Some? && seqNo <= prior.value.lastPollSeq.value { return; }
      var s: PaneState;
      if prior.Some? && prior.value.fp == fp && prior.value.lastPollSeq.Some? && seqNo == prior.value.lastPollSeq.value + 1 {
        s := prior.value;
      } else {
        s := NewState(fp);
        if prior.Some? && prior.value.fp == fp {
          s := s.(escalatedAt := prior.value.escalatedAt);
          s := s.(followedUpAt := prior.value.followedUpAt);
        }
      }
      s := s.(lastPollSeq := Some(seqNo));
      s := s.(blockedPolls := s.blockedPolls + 1);
      panes := panes[pane := s];
      notes := [Handled(fp, seqNo)];
      if s.escalatedAt.None? && s.blockedPolls < DEBOUNCE_POLLS { return; }
      if s.escalatedAt.None? {
        inFlight := inFlight[pane := EscalateRead(issue, dialog)];
        notes := notes + [Attempt(fp)];
      } else {
        inFlight := inFlight[pane := DirectiveRead(issue)];
      }
    }

    /** `escalate` after its read resolved. */
    method Escalate(pane: Pane, issue: IssueKey, dialog: Dialog, rows: seq<Comment>, now: int) returns (notes: seq<Note>)
      modifies this
      ensures Reaction(Model(), notes) == Escalator.Escalate(old(Model()), pane, issue, dialog, rows, now)
    {
      hide IsEscalationOf, Recent, FirstEscalation, CapNotice;
      notes := [];
      var fp := dialog.fp;
      var existing := FindEscalation(rows, fp);
      if existing.Some? {
        var adoptedAt := TimeOr(existing.value.created, now);
        if fp !in SetOf(counted, pane) {
          counted := counted[pane := SetOf(counted, pane) + {fp}];
          paneEscalations := paneEscalations[pane := Recent(PostsOf(Model(), pane), now) + [adoptedAt]];
        }
        SetEscalatedAt(pane, adoptedAt);
        notes := [Recorded(fp, adoptedAt, ByAdoption)];
        return;
      }
      var recent := Recent(PostsOf(Model(), pane), now);
      if |recent| >= 3 {
        if pane !in capped {
          capped := capped + {pane};
          inFlight := inFlight[pane := CapPost(issue, CapNotice(issue))];
          return;
        }
        SetEscalatedAt(pane, now);
        notes := [Recorded(fp, now, ByCap)];
        return;
      }
      paneEscalations := paneEscalations[pane := recent + [now]];
      counted := counted[pane := SetOf(counted, pane) + {fp}];
      capped := capped - {pane};
      inFlight := inFlight[pane := Capture(issue, dialog)];
      notes := [Granted(fp, now)];
    }

    /** The call's own state object is written and the call ends. */
    method SetEscalatedAt(pane: Pane, at: int)
      modifies this`panes, this`inFlight
      ensures Model() == RecordEscalated(old(Model()), pane, at)
    {
      if pane in panes { panes := panes[pane := panes[pane].(escalatedAt := Some(at))]; }
      inFlight := inFlight - {pane};
    }

    /** `rows.find(...)`. */
    static method FindEscalation(rows: seq<Comment>, fp: Fingerprint) returns (found: Option<Comment>)
      ensures found == FirstEscalation(rows, fp)
    {
      hide IsEscalationOf;
      var i := 0;
      while i < |rows|
        invariant 0 <= i <= |rows| && FirstEscalation(rows, fp) == FirstEscalation(rows[i..], fp)
      {
        if IsEscalationOf(rows[i], fp) { return Some(rows[i]); }
        i := i + 1;
      }
      return None;
    }

    /** The directive scan of `handleBlocked`: the first row that answers, newest first. */
    static method ScanReplies(rows: seq<Comment>, since: int, consumed: set<CommentId>)
      returns (found: Option<(CommentId, Directive, int)>)
      ensures var answer := FirstAnswer(rows, since, consumed);
        found == if answer.None? then None
                 else Some((answer.value.id, ParseDirective(answer.value.body).GetOr(OptionDirective(0, None)), answer.value.created.GetOr(0)))
      ensures found.Some? ==> FirstAnswer(rows, since, consumed).value.created.Some?
                              && ParseDirective(FirstAnswer(rows, since, consumed).value.body).Some?
    {
      hide ParseDirective;
      var i := 0;
      while i < |rows|
        invariant 0 <= i <= |rows| && FirstAnswer(rows, since, consumed) == FirstAnswer(rows[i..], since, consumed)
      {
        var r := rows[i];
        i := i + 1;
        if r.created.None? || r.created.value < since - CLOCK_SKEW_GRACE_MS { continue; }
        if r.id in consumed { continue; }
        var d := ParseDirective(r.body);
        if d.Some? { return Some((r.id, d.value, r.created.value)); }
      }
      return None;
    }

    /** `handleBlocked` after the replies have been read: act on the first answer, or see whether the
        follow-up is due. */
    method CheckReplies(pane: Pane, issue: IssueKey, rows: seq<Comment>, now: int) returns (notes: seq<Note>)
      requires pane in panes && panes[pane].escalatedAt.Some?
      modifies this
      ensures Reaction(Model(), notes) == Escalator.CheckReplies(old(Model()), pane, issue, rows, now)
    {
      hide FirstAnswer, ParseDirective, FindMarked, FollowupComment, FollowupTag;
      notes := [];
      var s := panes[pane];
      var since := s.escalatedAt.value;
      var found := ScanReplies(rows, since, SetOf(consumed, pane));
      if found.Some? {
        var (id, directive, created) := found.value;
        consumed := consumed[pane := SetOf(consumed, pane) + {id}];
        inFlight := inFlight[pane := PaneRead(issue, directive, created, since)];
        notes := [Delivery(id, directive, created, since)];
        return;
      }
      if s.followedUpAt.None? && now - since >= FOLLOWUP_MS {
        var existing := FindMarked(rows, MARKER, [FOLLOWUP_STAGE, FollowupTag(s.fp)]);
        if existing.Some? {
          notes := [FollowedUp(TimeOr(existing.value.created, now))];
          panes := panes[pane := s.(followedUpAt := Some(TimeOr(existing.value.created, now)))];
          inFlight := inFlight - {pane};
        } else {
          inFlight := inFlight[pane := FollowupPost(issue, s.fp, FollowupComment(issue, s.fp))];
          notes := [FollowUpDue(s.fp, now, since)];
        }
      } else {
        inFlight := inFlight - {pane};
      }
    }

    /** `handleDirective` after the pane has been re-read. */
    method HandleDirective(pane: Pane, reread: Option<Option<Dialog>>) returns (notes: seq<Note>)
      requires Coherent(Model()) && pane in inFlight && inFlight[pane].PaneRead?
      modifies this
      ensures Reaction(Model(), notes) == PaneReadBack(old(Model()), pane, reread)
    {
      assert CallFits(StateOf(Model(), pane), inFlight[pane]);
      hide Coherent, NoFreeTextNotice;
      notes := [];
      var w := inFlight[pane];
      var s := panes[pane];
      if reread.None? {
        inFlight := inFlight - {pane};
        return;
      }
      var live := reread.value;
      if live.None? || live.value.fp != s.fp || (w.directive.fp.Some? && w.directive.fp.value != s.fp) {
        panes := panes - {pane};
        if live.Some? { panes := panes[pane := NewState(live.value.fp)]; }
        inFlight := inFlight - {pane};
        notes := [Dropped(if live.Some? then Some(live.value.fp) else None)];
        assert live.Some? ==> panes == old(panes)[pane := NewState(live.value.fp)];
        return;
      }
      var warrant := Warrant(live.value, s.fp, w.directive, w.created, w.since);
      if w.directive.OptionDirective? {
        if w.directive.n < 1 || w.directive.n > |live.value.options| {
          inFlight := inFlight - {pane};
          return;
        }
        notes := Send(pane, w.issue, [Select(live.value.current, w.directive.n)], warrant);
      } else if live.value.freeText.None? {
        inFlight := inFlight[pane := NoticePost(w.issue, NoFreeTextNotice(w.issue, s.fp))];
      } else {
        notes := Send(pane, w.issue,
                      [Select(live.value.current, live.value.freeText.value), Type(w.directive.text), Enter], warrant);
      }
    }

    method Send(pane: Pane, issue: IssueKey, keys: seq<Keys>, warrant: Warrant) returns (notes: seq<Note>)
      modifies this`inFlight
      ensures Reaction(Model(), notes) == Press(old(Model()), pane, issue, keys, warrant)
    {
      if keys == [] {
        inFlight, notes := inFlight - {pane}, [];
      } else {
        inFlight, notes := inFlight[pane := Sending(issue, keys[1..], warrant)], [Pressed(keys[0], warrant)];
      }
    }

    /** A post has settled: `escalate` and `handleBlocked` write their times, then the call ends. */
    method PostSettled(pane: Pane, ok: bool, now: int) returns (notes: seq<Note>)
      requires Coherent(Model()) && pane in inFlight && Posting(inFlight[pane])
      modifies this
      ensures Reaction(Model(), notes) == PostReturned(old(Model()), pane, ok, now)
    {
      assert CallFits(StateOf(Model(), pane), inFlight[pane]);
      hide Coherent;
      notes := [];
      var w := inFlight[pane];
      if ok && (w.EscalationPost? || w.CapPost?) {
        notes := [Recorded(panes[pane].fp, now, if w.EscalationPost? then ByPost else ByCap)];
        SetEscalatedAt(pane, now);
      } else {
        if ok && w.FollowupPost? {
          notes := [FollowedUp(now)];
          panes := panes[pane := panes[pane].(followedUpAt := Some(now))];
        }
        inFlight := inFlight - {pane};
      }
    }
  }
}
