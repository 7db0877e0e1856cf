/** The hourly budget: in one daemon lifetime no pane starts more than three escalation posts in any hour, and
    escalations found already on the ticket count against it. */
module EscalatorBudget {
  import opened Wrappers
  import opened CommentText
  import opened Directives
  import opened Escalator
  import opened EscalatorSafety
  import opened EscalatorTrace
  import Cap = HourlyCap

  const MAX_PER_HOUR := 3

  /** The times at which a pane went on to post, since the last restart. */
  function Grants(t: Trace): seq<int> {
    if t == [] then []
    else
      match t[|t| - 1]
      case Granted(_, at) => Grants(t[..|t| - 1]) + [at]
      case Restarted => []
      case _ => Grants(t[..|t| - 1])
  }

  /** From `clock` on, the pane's kept times cover every grant still in the hour, and no hour ever held
      more than the cap. */
  ghost predicate Budgeted(m: Memory, pane: Pane, t: Trace, clock: int) {
    && (forall now, at :: clock <= now <= at ==>
          Cap.InWindow(Grants(t), at, Cap.HOUR_MS) <= |Cap.Recent(PostsOf(m, pane), now, Cap.HOUR_MS)|)
    && forall at :: Cap.InWindow(Grants(t), at, Cap.HOUR_MS) <= MAX_PER_HOUR
  }

  /** Only reading the comments reads the clock the budget is kept by. */
  function ClockOf(e: Event, clock: int): int {
    if e.ReadAnswered? then e.now else clock
  }

  function ClockAfter(events: seq<Event>, clock: int): int {
    if events == [] then clock else ClockAfter(events[1..], ClockOf(events[0], clock))
  }

  ghost predicate Monotone(events: seq<Event>, clock: int)
    decreases |events|
  {
    events == [] || (clock <= ClockOf(events[0], clock) && Monotone(events[1..], ClockOf(events[0], clock)))
  }

  lemma GrantsGrow(t: Trace, notes: Trace)
    requires forall i :: 0 <= i < |notes| ==> !notes[i].Granted? && !notes[i].Restarted?
    ensures Grants(t + notes) == Grants(t)
    decreases |notes|
  {
    if notes == [] {
      assert t + notes == t;
    } else {
      assert (t + notes)[..|t + notes| - 1] == t + notes[..|notes| - 1];
      GrantsGrow(t, notes[..|notes| - 1]);
    }
  }

  /** A step that leaves the pane's kept times and grants nothing keeps the budget. */
  lemma SameBudget(m: Memory, m': Memory, pane: Pane, t: Trace, notes: Trace, clock: int, clock': int)
    requires Budgeted(m, pane, t, clock) && clock <= clock' && PostsOf(m', pane) == PostsOf(m, pane)
    requires forall i :: 0 <= i < |notes| ==> !notes[i].Granted? && !notes[i].Restarted?
    ensures Budgeted(m', pane, t + notes, clock')
  {
    GrantsGrow(t, notes);
    hide Cap.InWindow, Cap.Recent, Grants, PostsOf;
  }

  /** Keeping one more time beside the recent ones loses none of them. */
  lemma KeptCover(posts: seq<int>, more: int, now: int, later: int)
    requires now <= later
    ensures |Cap.Recent(Cap.Recent(posts, now, Cap.HOUR_MS) + [more], later, Cap.HOUR_MS)|
            == |Cap.Recent(posts, later, Cap.HOUR_MS)| + if later - more < Cap.HOUR_MS then 1 else 0
  {
    Cap.RecentInParts(Cap.Recent(posts, now, Cap.HOUR_MS), [more], later, Cap.HOUR_MS);
    Cap.RecentTwice(posts, now, later, Cap.HOUR_MS);
  }

  lemma GrantCounts(t: Trace, fp: Fingerprint, now: int, at: int)
    ensures Cap.InWindow(Grants(t + [Granted(fp, now)]), at, Cap.HOUR_MS)
            == Cap.InWindow(Grants(t), at, Cap.HOUR_MS) + if now <= at && at - now < Cap.HOUR_MS then 1 else 0
  {
    assert (t + [Granted(fp, now)])[..|t|] == t;
    assert Grants(t + [Granted(fp, now)])[..|Grants(t)|] == Grants(t);
  }

  /** A grant finds fewer than three in the hour before it. */
  lemma GrantKeepsBudget(m: Memory, m': Memory, pane: Pane, t: Trace, clock: int, fp: Fingerprint, now: int)
    requires Budgeted(m, pane, t, clock) && clock <= now
    requires |Cap.Recent(PostsOf(m, pane), now, Cap.HOUR_MS)| < MAX_PER_HOUR
    requires PostsOf(m', pane) == Cap.Recent(PostsOf(m, pane), now, Cap.HOUR_MS) + [now]
    ensures Budgeted(m', pane, t + [Granted(fp, now)], now)
  {
    var t' := t + [Granted(fp, now)];
    hide Cap.InWindow, Cap.Recent, Grants, PostsOf;
    forall later, at | now <= later <= at
      ensures Cap.InWindow(Grants(t'), at, Cap.HOUR_MS) <= |Cap.Recent(PostsOf(m', pane), later, Cap.HOUR_MS)|
    {
      GrantCounts(t, fp, now, at);
      KeptCover(PostsOf(m, pane), now, now, later);
    }
    forall at ensures Cap.InWindow(Grants(t'), at, Cap.HOUR_MS) <= MAX_PER_HOUR {
      GrantCounts(t, fp, now, at);
      if now <= at { assert Cap.InWindow(Grants(t), at, Cap.HOUR_MS) <= |Cap.Recent(PostsOf(m, pane), now, Cap.HOUR_MS)|; }
    }
  }

  /** An adopted escalation counts towards the budget; it can only make later grants rarer. */
  lemma AdoptionKeepsBudget(m: Memory, m': Memory, pane: Pane, t: Trace, notes: Trace, clock: int, now: int, adopted: int)
    requires Budgeted(m, pane, t, clock) && clock <= now
    requires forall i :: 0 <= i < |notes| ==> !notes[i].Granted? && !notes[i].Restarted?
    requires PostsOf(m', pane) == Cap.Recent(PostsOf(m, pane), now, Cap.HOUR_MS) + [adopted]
    ensures Budgeted(m', pane, t + notes, now)
  {
    GrantsGrow(t, notes);
    hide Cap.InWindow, Cap.Recent, Grants, PostsOf;
    forall later, at | now <= later <= at
      ensures Cap.InWindow(Grants(t), at, Cap.HOUR_MS) <= |Cap.Recent(PostsOf(m', pane), later, Cap.HOUR_MS)|
    {
      KeptCover(PostsOf(m, pane), adopted, now, later);
    }
  }

  lemma EscalateKeepsBudget(m: Memory, pane: Pane, issue: IssueKey, dialog: Dialog, rows: seq<Comment>, now: int, t: Trace, clock: int)
    requires Budgeted(m, pane, t, clock) && clock <= now
    ensures var r := Escalate(m, pane, issue, dialog, rows, now); Budgeted(r.memory, pane, t + r.notes, now)
  {
    var r := Escalate(m, pane, issue, dialog, rows, now);
    hide Budgeted, Cap.Recent, FirstEscalation, CapNotice;
    var existing := FirstEscalation(rows, dialog.fp);
    if r.notes != [] && r.notes[0].Granted? {
      GrantKeepsBudget(m, r.memory, pane, t, clock, dialog.fp, now);
    } else if existing.Some? && dialog.fp !in SetOf(m.counted, pane) {
      AdoptionKeepsBudget(m, r.memory, pane, t, r.notes, clock, now, TimeOr(existing.value.created, now));
    } else {
      SameBudget(m, r.memory, pane, t, r.notes, clock, now);
    }
  }

  // ---------- the account: grants, and adoptions at their comments' times ----------

  /** The times charged to the pane since the last restart, and the fingerprints they were charged for. */
  datatype Account = Account(times: seq<int>, fps: set<Fingerprint>)

  /** Every grant is charged, and the adoption of a fingerprint not charged for before. */
  function AccountOf(t: Trace): Account {
    if t == [] then Account([], {})
    else
      var before := AccountOf(t[..|t| - 1]);
      match t[|t| - 1]
      case Granted(fp, at) => Account(before.times + [at], before.fps + {fp})
      case Recorded(fp, at, ByAdoption) => if fp in before.fps then before else Account(before.times + [at], before.fps + {fp})
      case Restarted => Account([], {})
      case _ => before
  }

  /** At every grant fewer than three charges lie in the hour before it. */
  ghost predicate GrantsFit(t: Trace) {
    forall i :: 0 <= i < |t| && t[i].Granted? ==> |Cap.Recent(AccountOf(t[..i]).times, t[i].at, Cap.HOUR_MS)| < MAX_PER_HOUR
  }

  /** From `clock` on, the pane's kept times are the charges still in the hour. */
  ghost predicate Accounted(m: Memory, pane: Pane, t: Trace, clock: int) {
    && SetOf(m.counted, pane) == AccountOf(t).fps && GrantsFit(t)
    && forall now :: clock <= now ==> Cap.Recent(PostsOf(m, pane), now, Cap.HOUR_MS) == Cap.Recent(AccountOf(t).times, now, Cap.HOUR_MS)
  }

  lemma OneMoreNote(t: Trace, note: Note)
    ensures (t + [note])[..|t|] == t
    ensures GrantsFit(t) && (note.Granted? ==> |Cap.Recent(AccountOf(t).times, note.at, Cap.HOUR_MS)| < MAX_PER_HOUR) ==> GrantsFit(t + [note])
  {
    var t' := t + [note];
    assert t'[..|t|] == t;
    hide AccountOf, Cap.Recent;
    assert forall i :: 0 <= i < |t| ==> t'[i] == t[i] && t'[..i] == t[..i];
  }

  /** No grant, restart or adoption. */
  predicate Neutral(note: Note) { !note.Granted? && !note.Restarted? && !(note.Recorded? && note.how == ByAdoption) }

  lemma {:induction false} SameAccount(m: Memory, m': Memory, pane: Pane, t: Trace, notes: Trace, clock: int, clock': int)
    requires Accounted(m, pane, t, clock) && clock <= clock'
    requires PostsOf(m', pane) == PostsOf(m, pane) && SetOf(m'.counted, pane) == SetOf(m.counted, pane)
    requires forall i :: 0 <= i < |notes| ==> Neutral(notes[i])
    ensures Accounted(m', pane, t + notes, clock')
    decreases |notes|
  {
    hide Cap.Recent, PostsOf, GrantsFit;
    if notes == [] {
      assert t + notes == t;
    } else {
      var front, last := notes[..|notes| - 1], notes[|notes| - 1];
      SameAccount(m, m', pane, t, front, clock, clock');
      OneMoreNote(t + front, last);
      assert t + notes == t + front + [last];
      assert AccountOf(t + front + [last]) == AccountOf(t + front);
    }
  }

  /** A charge is kept beside the times that are still recent. */
  lemma ChargeKeepsAccount(m: Memory, m': Memory, pane: Pane, t: Trace, note: Note, clock: int, now: int, fp: Fingerprint, at: int)
    requires Accounted(m, pane, t, clock) && clock <= now
    requires note == Granted(fp, at) || (note == Recorded(fp, at, ByAdoption) && fp !in SetOf(m.counted, pane))
    requires note.Granted? ==> at == now && |Cap.Recent(PostsOf(m, pane), now, Cap.HOUR_MS)| < MAX_PER_HOUR
    requires PostsOf(m', pane) == Cap.Recent(PostsOf(m, pane), now, Cap.HOUR_MS) + [at]
    requires SetOf(m'.counted, pane) == SetOf(m.counted, pane) + {fp}
    ensures Accounted(m', pane, t + [note], now)
  {
    hide Cap.Recent, PostsOf, GrantsFit;
    var before, after := AccountOf(t).times, AccountOf(t + [note]).times;
    OneMoreNote(t, note);
    assert after == before + [at];
    forall later | now <= later ensures Cap.Recent(PostsOf(m', pane), later, Cap.HOUR_MS) == Cap.Recent(after, later, Cap.HOUR_MS) {
      Cap.RecentInParts(Cap.Recent(PostsOf(m, pane), now, Cap.HOUR_MS), [at], later, Cap.HOUR_MS);
      Cap.RecentTwice(PostsOf(m, pane), now, later, Cap.HOUR_MS);
      Cap.RecentInParts(before, [at], later, Cap.HOUR_MS);
    }
  }

  lemma RepeatKeepsAccount(m: Memory, m': Memory, pane: Pane, t: Trace, clock: int, now: int, fp: Fingerprint, at: int)
    requires Accounted(m, pane, t, clock) && clock <= now && fp in SetOf(m.counted, pane)
    requires PostsOf(m', pane) == PostsOf(m, pane) && SetOf(m'.counted, pane) == SetOf(m.counted, pane)
    ensures Accounted(m', pane, t + [Recorded(fp, at, ByAdoption)], now)
  {
    hide Cap.Recent, PostsOf, GrantsFit;
    OneMoreNote(t, Recorded(fp, at, ByAdoption));
  }

  lemma EscalateKeepsAccount(m: Memory, pane: Pane, issue: IssueKey, dialog: Dialog, rows: seq<Comment>, now: int, t: Trace, clock: int)
    requires Accounted(m, pane, t, clock) && clock <= now
    ensures var r := Escalate(m, pane, issue, dialog, rows, now); Accounted(r.memory, pane, t + r.notes, now)
  {
    hide Accounted, Cap.Recent, FirstEscalation, CapNotice;
    var r := Escalate(m, pane, issue, dialog, rows, now);
    var existing := FirstEscalation(rows, dialog.fp);
    if r.notes != [] && r.notes[0].Granted? {
      ChargeKeepsAccount(m, r.memory, pane, t, r.notes[0], clock, now, dialog.fp, now);
    } else if existing.Some? {
      var at := TimeOr(existing.value.created, now);
      if dialog.fp in SetOf(m.counted, pane) {
        RepeatKeepsAccount(m, r.memory, pane, t, clock, now, dialog.fp, at);
      } else {
        ChargeKeepsAccount(m, r.memory, pane, t, r.notes[0], clock, now, dialog.fp, at);
      }
    } else {
      SameAccount(m, r.memory, pane, t, r.notes, clock, now);
    }
  }

  // ---------- nothing else grants, adopts, or touches what is kept ----------

  lemma ReReadGrantsNothing(m: Memory, pane: Pane, reread: Option<Option<Dialog>>)
    requires Coherent(m) && pane in m.inFlight && m.inFlight[pane].PaneRead?
    ensures var r := PaneReadBack(m, pane, reread);
      && PostsOf(r.memory, pane) == PostsOf(m, pane) && SetOf(r.memory.counted, pane) == SetOf(m.counted, pane)
      && forall i :: 0 <= i < |r.notes| ==> Neutral(r.notes[i])
  {
    var w := m.inFlight[pane];
    assert CallFits(StateOf(m, pane), w);
    hide Coherent, CallFits, NoFreeTextNotice, Deliver, NewState;
    if reread.Some? && reread.value.Some? {
      var live := reread.value.value;
      DeliverKeeps(m, pane, w.issue, live, Warrant(live, m.panes[pane].fp, w.directive, w.created, w.since));
    }
  }

  lemma RepliesGrantNothing(m: Memory, pane: Pane, issue: IssueKey, rows: seq<Comment>, now: int)
    requires pane in m.panes && m.panes[pane].escalatedAt.Some?
    ensures var r := CheckReplies(m, pane, issue, rows, now);
      && PostsOf(r.memory, pane) == PostsOf(m, pane) && SetOf(r.memory.counted, pane) == SetOf(m.counted, pane)
      && forall i :: 0 <= i < |r.notes| ==> Neutral(r.notes[i])
  {
    hide FirstAnswer, ParseDirective, FindMarked, FollowupComment, FollowupTag;
  }

  lemma PostGrantsNothing(m: Memory, pane: Pane, ok: bool, now: int)
    requires Coherent(m) && pane in m.inFlight && Posting(m.inFlight[pane])
    ensures var r := PostReturned(m, pane, ok, now);
      && PostsOf(r.memory, pane) == PostsOf(m, pane) && SetOf(r.memory.counted, pane) == SetOf(m.counted, pane)
      && forall i :: 0 <= i < |r.notes| ==> Neutral(r.notes[i])
  {
    assert CallFits(StateOf(m, pane), m.inFlight[pane]);
    hide Coherent, CallFits;
  }

  lemma SightingGrantsNothing(m: Memory, pane: Pane, issue: IssueKey, dialog: Dialog, seqNo: int)
    ensures var r := OnBlocked(m, pane, issue, dialog, seqNo);
      && PostsOf(r.memory, pane) == PostsOf(m, pane) && SetOf(r.memory.counted, pane) == SetOf(m.counted, pane)
      && forall i :: 0 <= i < |r.notes| ==> Neutral(r.notes[i])
  {
    hide Sighted, StalePoll;
  }

  lemma OthersGrantNothing(w: World, e: Event)
    requires Coherent(w.memory) && Enabled(w, e) && Acts(e)
    requires e.ReadAnswered? ==> e.rows.None? || w.memory.inFlight[e.pane].DirectiveRead?
    ensures var r := React(w, e);
      && PostsOf(r.memory, e.pane) == PostsOf(w.memory, e.pane) && SetOf(r.memory.counted, e.pane) == SetOf(w.memory.counted, e.pane)
      && forall i :: 0 <= i < |r.notes| ==> Neutral(r.notes[i])
  {
    hide Coherent, CheckReplies, Escalate, PaneReadBack, PostReturned, OnBlocked, EscalationComment, StalePoll;
    match e
    case PaneReRead(pane, reread) => ReReadGrantsNothing(w.memory, pane, reread);
    case ReadAnswered(pane, rows, now) =>
      if rows.Some? {
        CallNeedsTime(w.memory, pane);
        RepliesGrantNothing(w.memory, pane, w.memory.inFlight[pane].issue, rows.value, now);
      }
    case PostEnded(pane, _, ok, now) => PostGrantsNothing(w.memory, pane, ok, now);
    case Blocked(pane, issue, dialog, seqNo) => SightingGrantsNothing(w.memory, pane, issue, dialog, seqNo);
    case _ =>
  }

  ghost predicate Kept(m: Memory, pane: Pane, t: Trace, clock: int) {
    Budgeted(m, pane, t, clock) && Accounted(m, pane, t, clock)
  }

  lemma SameKept(m: Memory, m': Memory, pane: Pane, t: Trace, notes: Trace, clock: int, clock': int)
    requires Kept(m, pane, t, clock) && clock <= clock'
    requires PostsOf(m', pane) == PostsOf(m, pane) && SetOf(m'.counted, pane) == SetOf(m.counted, pane)
    requires forall i :: 0 <= i < |notes| ==> Neutral(notes[i])
    ensures Kept(m', pane, t + notes, clock')
  {
    hide Budgeted, Accounted, PostsOf;
    SameBudget(m, m', pane, t, notes, clock, clock');
    SameAccount(m, m', pane, t, notes, clock, clock');
  }

  lemma RestartKeeps(m: Memory, pane: Pane, t: Trace, clock: int)
    requires Kept(m, pane, t, clock)
    ensures Kept(Blank, pane, t + [Restarted], clock)
  {
    hide Cap.Recent, Cap.InWindow;
    OneMoreNote(t, Restarted);
    assert Grants(t + [Restarted]) == [] && AccountOf(t + [Restarted]) == Account([], {});
    NothingInWindow();
  }

  lemma NothingInWindow()
    ensures forall at :: Cap.InWindow([], at, Cap.HOUR_MS) == 0
  {
  }

  lemma StepKeeps(w: World, e: Event, pane: Pane, t: Trace, clock: int)
    requires Coherent(w.memory) && Enabled(w, e) && Kept(w.memory, pane, t, clock) && clock <= ClockOf(e, clock)
    ensures Kept(Step(w, e).memory, pane, t + NotesFor(w, e, pane), ClockOf(e, clock))
  {
    hide Kept;
    var m' := Step(w, e).memory;
    var notes := NotesFor(w, e, pane);
    if e.Restart? {
      RestartKeeps(w.memory, pane, t, clock);
    } else if Acts(e) && e.pane == pane {
      ActKeeps(w, e, t, clock);
    } else {
      if Acts(e) {
        ReactIsGood(w, e);
        assert Untouched(w.memory, React(w, e).memory, pane);
      }
      hide Coherent, React, Enabled;
      SameKept(w.memory, m', pane, t, notes, clock, ClockOf(e, clock));
    }
  }

  lemma ActKeeps(w: World, e: Event, t: Trace, clock: int)
    requires Coherent(w.memory) && Enabled(w, e) && Acts(e) && Kept(w.memory, e.pane, t, clock) && clock <= ClockOf(e, clock)
    ensures Kept(React(w, e).memory, e.pane, t + React(w, e).notes, ClockOf(e, clock))
  {
    if e.ReadAnswered? && e.rows.Some? && w.memory.inFlight[e.pane].EscalateRead? {
      var p := w.memory.inFlight[e.pane];
      EscalateKeepsBudget(w.memory, e.pane, p.issue, p.dialog, e.rows.value, e.now, t, clock);
      EscalateKeepsAccount(w.memory, e.pane, p.issue, p.dialog, e.rows.value, e.now, t, clock);
      hide Budgeted, Accounted, Coherent, Escalate;
    } else {
      OthersGrantNothing(w, e);
      hide Kept, Coherent, React, Enabled;
      SameKept(w.memory, React(w, e).memory, e.pane, t, React(w, e).notes, clock, ClockOf(e, clock));
    }
  }

  lemma {:induction false} HistoryKeeps(w: World, events: seq<Event>, pane: Pane, t: Trace, clock: int)
    requires Coherent(w.memory) && History(w, events) && Monotone(events, clock) && Kept(w.memory, pane, t, clock)
    ensures GrantsFit(TraceFrom(w, events, pane, t))
    ensures Kept(After(w, events).memory, pane, TraceFrom(w, events, pane, t), ClockAfter(events, clock))
    ensures forall at :: Cap.InWindow(Grants(TraceFrom(w, events, pane, t)), at, Cap.HOUR_MS) <= MAX_PER_HOUR
    decreases |events|
  {
    if events != [] {
      StepKeepsCoherent(w, events[0]);
      StepKeeps(w, events[0], pane, t, clock);
      hide Coherent, Step, Enabled, Kept, NotesFor, Cap.InWindow, Grants, GrantsFit;
      HistoryKeeps(Step(w, events[0]), events[1..], pane, t + NotesFor(w, events[0], pane), ClockOf(events[0], clock));
    }
  }

  lemma NothingKept(pane: Pane, clock: int)
    ensures Kept(Blank, pane, [], clock)
  {
    assert Grants([]) == [] && AccountOf([]) == Account([], {});
  }

  /** On a clock that never goes back, no pane goes on to post more than three escalations in any hour
      of one daemon lifetime. */
  lemma AtMostThreeAnHour(events: seq<Event>, pane: Pane, clock: int, at: int)
    requires History(Fresh, events) && Monotone(events, clock)
    ensures Cap.InWindow(Grants(TraceOf(events, pane)), at, Cap.HOUR_MS) <= MAX_PER_HOUR
  {
    NothingKept(pane, clock);
    HistoryKeeps(Fresh, events, pane, [], clock);
  }

  /** An escalation is only posted while fewer than three charges lie in the hour before: earlier grants, and
      the comments adopted, each fingerprint once, at the time the comment itself carries. */
  lemma AdoptionsCountToo(events: seq<Event>, pane: Pane, clock: int, i: nat)
    requires History(Fresh, events) && Monotone(events, clock)
    requires i < |TraceOf(events, pane)| && TraceOf(events, pane)[i].Granted?
    ensures var t := TraceOf(events, pane); |Cap.Recent(AccountOf(t[..i]).times, t[i].at, Cap.HOUR_MS)| < MAX_PER_HOUR
  {
    NothingKept(pane, clock);
    HistoryKeeps(Fresh, events, pane, [], clock);
  }
}
