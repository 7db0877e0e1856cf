/**
 The escalator over whole histories: overlapping polls, flickers, failed reads, posts whose
 reply is lost, and daemon restarts, against a comment channel that outlives the daemon.
 */
module EscalatorSafety {
  import opened Text
  import opened Wrappers
  import opened CommentText
  import opened Directives
  import opened DirectiveRoundTrip
  import opened Escalator

  type Subject = (IssueKey, Fingerprint)

  /** The daemon's memory, each issue's comments, and how often the daemon has posted an escalation
      and a follow-up for each issue and fingerprint. */
  datatype World = World(
    memory: Memory,
    channel: map<IssueKey, seq<Comment>>,
    escalations: multiset<Subject>,
    followups: multiset<Subject>)

  datatype Event =
    | Blocked(pane: Pane, issue: IssueKey, dialog: Dialog, seqNo: int)
    | ReadAnswered(pane: Pane, rows: Option<seq<Comment>>, now: int)
    | CaptureEnded(pane: Pane, question: string, options: string, path: Option<string>)
    | PostEnded(pane: Pane, landed: Option<Comment>, ok: bool, now: int)
    | PaneReRead(pane: Pane, reread: Option<Option<Dialog>>)
    | SendEnded(pane: Pane, ok: bool)
    | NoPromptSeen(pane: Pane, seqNo: int)
    | Tick(blocked: set<Pane>)
    | Foreign(issue: IssueKey, comment: Comment)
    | Restart

  function ChannelOf(w: World, issue: IssueKey): seq<Comment> {
    if issue in w.channel then w.channel[issue] else []
  }

  predicate Waits(w: World, pane: Pane) { pane in w.memory.inFlight }

  /** One pane per issue at a time; a read that resolves shows every earlier comment; a post that is
      reported done has landed, with the body that was sent. A crash just after a post landed is a
      post that landed without being reported, and then a restart. */
  ghost predicate Enabled(w: World, e: Event) {
    match e
    case Blocked(pane, issue, _, _) =>
      forall other :: Waits(w, other) && other != pane ==> w.memory.inFlight[other].issue != issue
    case ReadAnswered(pane, rows, _) =>
      && Waits(w, pane) && (w.memory.inFlight[pane].EscalateRead? || w.memory.inFlight[pane].DirectiveRead?)
      && (rows.Some? ==> forall c :: c in ChannelOf(w, w.memory.inFlight[pane].issue) ==> c in rows.value)
    case CaptureEnded(pane, _, _, _) => Waits(w, pane) && w.memory.inFlight[pane].Capture?
    case PostEnded(pane, landed, ok, _) =>
      && Waits(w, pane) && Posting(w.memory.inFlight[pane])
      && (ok ==> landed.Some?) && (landed.Some? ==> landed.value.body == w.memory.inFlight[pane].body)
    case PaneReRead(pane, _) => Waits(w, pane) && w.memory.inFlight[pane].PaneRead?
    case SendEnded(pane, _) => Waits(w, pane) && w.memory.inFlight[pane].Sending?
    case _ => true
  }

  /** What the acting pane's step does. */
  function React(w: World, e: Event): Reaction
    requires Coherent(w.memory) && Enabled(w, e)
  {
    var m := w.memory;
    match e
    case Blocked(pane, issue, dialog, seqNo) => OnBlocked(m, pane, issue, dialog, seqNo)
    case ReadAnswered(pane, rows, now) => CommentsRead(m, pane, rows, now)
    case CaptureEnded(pane, question, options, path) => Captured(m, pane, question, options, path)
    case PostEnded(pane, _, ok, now) => PostReturned(m, pane, ok, now)
    case PaneReRead(pane, reread) => PaneReadBack(m, pane, reread)
    case SendEnded(pane, ok) => Sent(m, pane, ok)
    case NoPromptSeen(pane, seqNo) => OnNoPrompt(m, pane, seqNo)
    case Tick(blocked) => Reaction(OnPoll(m, blocked), [])
    case Foreign(_, _) => Reaction(m, [])
    case Restart => Reaction(Blank, [])
  }

  function Posted(w: World, e: Event): World
    requires e.PostEnded? && e.landed.Some? && Waits(w, e.pane) && Posting(w.memory.inFlight[e.pane])
  {
    var p := w.memory.inFlight[e.pane];
    w.(channel := w.channel[p.issue := ChannelOf(w, p.issue) + [e.landed.value]],
       escalations := if p.EscalationPost? then w.escalations + multiset{(p.issue, p.fp)} else w.escalations,
       followups := if p.FollowupPost? then w.followups + multiset{(p.issue, p.fp)} else w.followups)
  }

  function Step(w: World, e: Event): World
    requires Coherent(w.memory) && Enabled(w, e)
  {
    var after := if e.PostEnded? && e.landed.Some? then Posted(w, e)
                 else if e.Foreign? then w.(channel := w.channel[e.issue := ChannelOf(w, e.issue) + [e.comment]])
                 else w;
    after.(memory := React(w, e).memory)
  }

  const Fresh := World(Blank, map[], multiset{}, multiset{})

  // ---------- steps keep the memory coherent ----------

  predicate Acts(e: Event) {
    !e.Tick? && !e.Foreign? && !e.Restart?
  }

  lemma ReactIsGood(w: World, e: Event)
    requires Coherent(w.memory) && Enabled(w, e) && Acts(e)
    ensures GoodStep(w.memory, React(w, e).memory, e.pane)
  {
    hide GoodStep, Coherent;
    var m := w.memory;
    match e {
      case Blocked(pane, issue, dialog, seqNo) => OnBlockedIsGood(m, pane, issue, dialog, seqNo);
      case ReadAnswered(pane, rows, now) => CommentsReadIsGood(m, pane, rows, now);
      case CaptureEnded(pane, question, options, path) => CapturedIsGood(m, pane, question, options, path);
      case PostEnded(pane, _, ok, now) => PostReturnedIsGood(m, pane, ok, now);
      case PaneReRead(pane, reread) => PaneReadBackIsGood(m, pane, reread);
      case SendEnded(pane, ok) => SentIsGood(m, pane, ok);
      case NoPromptSeen(pane, seqNo) => OnNoPromptIsGood(m, pane, seqNo);
      case _ =>
    }
  }

  lemma TickKeepsCoherent(m: Memory, blocked: set<Pane>)
    requires Coherent(m)
    ensures Coherent(OnPoll(m, blocked))
  {
    forall pane | pane in m.inFlight ensures CallFits(StateOf(OnPoll(m, blocked), pane), m.inFlight[pane]) {
      assert CallFits(StateOf(m, pane), m.inFlight[pane]);
    }
  }

  lemma StepKeepsCoherent(w: World, e: Event)
    requires Coherent(w.memory) && Enabled(w, e)
    ensures Coherent(Step(w, e).memory)
  {
    if Acts(e) {
      ReactIsGood(w, e);
      hide React, Coherent, GoodStep;
      GoodStepKeepsCoherent(w.memory, React(w, e).memory, e.pane);
    } else if e.Tick? {
      TickKeepsCoherent(w.memory, e.blocked);
    }
  }

  // ---------- at most one escalation and one follow-up ----------

  /** What a call about to post knows: nothing of the kind has been posted for its subject, and its body
      carries the marker and will be recognised when read back. */
  ghost predicate PostIsFirst(w: World, p: Waiting) {
    && (Posting(p) ==> StartsWith(p.body, MARKER))
    && (p.Capture? ==> w.escalations[(p.issue, p.dialog.fp)] == 0)
    && (p.EscalationPost? ==> w.escalations[(p.issue, p.fp)] == 0 && IsEscalationOf(Comment("", p.body, None), p.fp))
    && (p.FollowupPost? ==> w.followups[(p.issue, p.fp)] == 0 && IsFollowupOf(Comment("", p.body, None), p.fp))
  }

  ghost predicate Solo(m: Memory) {
    forall p, q :: p in m.inFlight && q in m.inFlight && p != q ==> m.inFlight[p].issue != m.inFlight[q].issue
  }

  ghost predicate SubjectOnRecord(w: World, s: Subject) {
    && w.escalations[s] <= 1 && w.followups[s] <= 1
    && (w.escalations[s] > 0 ==> exists c :: c in ChannelOf(w, s.0) && IsEscalationOf(c, s.1))
    && (w.followups[s] > 0 ==> exists c :: c in ChannelOf(w, s.0) && IsFollowupOf(c, s.1))
  }

  ghost predicate OnRecord(w: World) {
    forall s: Subject :: SubjectOnRecord(w, s)
  }

  ghost predicate Inv(w: World) {
    && Coherent(w.memory) && Solo(w.memory) && OnRecord(w)
    && (forall p :: p in w.memory.inFlight ==> PostIsFirst(w, w.memory.inFlight[p]))
  }

  lemma {:induction false} FirstEscalationFinds(rows: seq<Comment>, fp: Fingerprint)
    ensures FirstEscalation(rows, fp).None? ==> forall c :: c in rows ==> !IsEscalationOf(c, fp)
  {
    if rows != [] {
      FirstEscalationFinds(rows[1..], fp);
      assert rows == [rows[0]] + rows[1..];
    }
  }

  /** The escalation comment carries what `escalate` looks for after a restart. */
  lemma EscalationIsRecognised(issue: IssueKey, question: string, options: string, fp: Fingerprint, path: Option<string>)
    ensures IsEscalationOf(Comment("", EscalationComment(issue, question, options, fp, path), None), fp)
  {
    var head := [MARKER + " " + issue + " is waiting on a decision:", "", question, "", options, "", FingerprintLine(fp)];
    var lines := head + CaptureLines(path) + ["", ReplyLine(fp)];
    hide ReplyLine, CaptureLines;
    JoinContains(lines, 6);
    assert lines[6] == FingerprintLine(fp);
    JoinStartsWith(lines);
    assert lines[0] == MARKER + (" " + issue + " is waiting on a decision:");
    var body := Join(lines);
    assert body[..|lines[0]|] == lines[0] && lines[0][..|MARKER|] == MARKER;
    assert body[..|MARKER|] == body[..|lines[0]|][..|MARKER|];
  }

  lemma FollowupIsRecognised(issue: IssueKey, fp: Fingerprint)
    ensures IsFollowupOf(Comment("", FollowupComment(issue, fp), None), fp)
  {
    hide FollowupProse;
    var body := FollowupComment(issue, fp);
    var tag := FollowupTag(fp);
    var head := MARKER + " " + issue + " still waiting on the decision above ";
    ContainsMiddle(head, tag, FollowupProse() + FOLLOWUP_STAGE);
    assert body == head + tag + (FollowupProse() + FOLLOWUP_STAGE);
    ContainsMiddle(head + tag + FollowupProse(), FOLLOWUP_STAGE, "");
    assert body == (head + tag + FollowupProse()) + FOLLOWUP_STAGE + "";
    assert body[..|MARKER|] == MARKER;
    hide FollowupTag, FollowupComment, Contains;
    assert [FOLLOWUP_STAGE, tag][0] == FOLLOWUP_STAGE && [FOLLOWUP_STAGE, tag][1] == tag;
  }

  /** With no escalation of the fingerprint among all the issue's comments, none has been posted. */
  lemma UnreadMeansUnposted(w: World, issue: IssueKey, fp: Fingerprint, rows: seq<Comment>)
    requires OnRecord(w) && forall c :: c in ChannelOf(w, issue) ==> c in rows
    ensures FirstEscalation(rows, fp).None? ==> w.escalations[(issue, fp)] == 0
    ensures FindMarked(rows, MARKER, [FOLLOWUP_STAGE, FollowupTag(fp)]).None? ==> w.followups[(issue, fp)] == 0
  {
    hide IsEscalationOf, FollowupTag, HasAll, StartsWith;
    FirstEscalationFinds(rows, fp);
    FindMarkedFinds(rows, MARKER, [FOLLOWUP_STAGE, FollowupTag(fp)]);
    var s: Subject := (issue, fp);
    assert SubjectOnRecord(w, s);
    assert FirstEscalation(rows, fp).None? ==> forall c :: c in ChannelOf(w, s.0) ==> !IsEscalationOf(c, s.1);
    assert FindMarked(rows, MARKER, [FOLLOWUP_STAGE, FollowupTag(fp)]).None? ==>
        forall c :: c in ChannelOf(w, s.0) ==> !IsFollowupOf(c, s.1);
  }

  /** The call the acting pane is left waiting on still knows its post to be the first, and is for the
      issue the pane's call was for. */
  ghost predicate LeavesFirst(w: World, m': Memory, pane: Pane, issue: IssueKey) {
    pane in m'.inFlight ==> PostIsFirst(w, m'.inFlight[pane]) && m'.inFlight[pane].issue == issue
  }

  lemma NoticesAreMarked(issue: IssueKey, fp: Fingerprint)
    ensures StartsWith(CapNotice(issue), MARKER) && StartsWith(NoFreeTextNotice(issue, fp), MARKER)
  {
    assert CapNotice(issue) == MARKER + (" " + issue + ": escalation rate cap reached (3/hour)");
    assert NoFreeTextNotice(issue, fp) == MARKER + (" " + issue + ": no free-text option; reply with `ANSWER <n> " + fp + "`");
  }

  lemma EscalateLeavesFirst(w: World, pane: Pane, issue: IssueKey, dialog: Dialog, rows: seq<Comment>, now: int)
    requires Inv(w) && forall c :: c in ChannelOf(w, issue) ==> c in rows
    ensures LeavesFirst(w, Escalate(w.memory, pane, issue, dialog, rows, now).memory, pane, issue)
  {
    UnreadMeansUnposted(w, issue, dialog.fp, rows);
    NoticesAreMarked(issue, dialog.fp);
    hide StartsWith, Inv, OnRecord, FirstEscalation, IsEscalationOf, IsFollowupOf, FindMarked, Recent, CapNotice;
  }

  lemma FollowupIsFirst(w: World, issue: IssueKey, fp: Fingerprint)
    requires w.followups[(issue, fp)] == 0
    ensures PostIsFirst(w, FollowupPost(issue, fp, FollowupComment(issue, fp)))
  {
    FollowupIsRecognised(issue, fp);
    hide StartsWith, HasAll, FollowupComment, FollowupTag;
  }

  lemma SilentIsFirst(w: World, p: Waiting)
    requires !Posting(p) && !p.Capture?
    ensures PostIsFirst(w, p)
  {
  }

  /** Checking replies leaves the call over, or waiting to re-read the pane, or to post the follow-up
      when no follow-up is among the rows. */
  lemma RepliesLeadTo(m: Memory, pane: Pane, issue: IssueKey, rows: seq<Comment>, now: int)
    requires pane in m.panes && m.panes[pane].escalatedAt.Some?
    ensures var m' := CheckReplies(m, pane, issue, rows, now).memory;
      var fp := m.panes[pane].fp;
      pane in m'.inFlight ==>
        && m'.inFlight[pane].issue == issue
        && (m'.inFlight[pane].PaneRead?
            || (m'.inFlight[pane] == FollowupPost(issue, fp, FollowupComment(issue, fp))
                && FindMarked(rows, MARKER, [FOLLOWUP_STAGE, FollowupTag(fp)]).None?))
  {
    hide FirstAnswer, ParseDirective, FindMarked, FollowupComment, FollowupTag;
  }

  lemma RepliesLeaveFirst(w: World, pane: Pane, issue: IssueKey, rows: seq<Comment>, now: int)
    requires Inv(w) && forall c :: c in ChannelOf(w, issue) ==> c in rows
    requires pane in w.memory.panes && w.memory.panes[pane].escalatedAt.Some?
    ensures LeavesFirst(w, CheckReplies(w.memory, pane, issue, rows, now).memory, pane, issue)
  {
    var fp := w.memory.panes[pane].fp;
    UnreadMeansUnposted(w, issue, fp, rows);
    RepliesLeadTo(w.memory, pane, issue, rows, now);
    hide PostIsFirst, Inv, OnRecord, FirstEscalation, CheckReplies, FindMarked, FollowupComment, FollowupTag;
    if w.followups[(issue, fp)] == 0 { FollowupIsFirst(w, issue, fp); }
    var m' := CheckReplies(w.memory, pane, issue, rows, now).memory;
    if pane in m'.inFlight && m'.inFlight[pane].PaneRead? { SilentIsFirst(w, m'.inFlight[pane]); }
  }

  /** The issue the acting pane's call is for. */
  function ActingIssue(w: World, e: Event): IssueKey
    requires Acts(e)
  {
    if Waits(w, e.pane) then w.memory.inFlight[e.pane].issue
    else if e.Blocked? then e.issue
    else ""
  }

  lemma ReadLeavesFirst(w: World, pane: Pane, rows: Option<seq<Comment>>, now: int)
    requires Inv(w) && Enabled(w, ReadAnswered(pane, rows, now))
    ensures LeavesFirst(w, CommentsRead(w.memory, pane, rows, now).memory, pane, w.memory.inFlight[pane].issue)
  {
    if rows.Some? {
      hide OnRecord, Coherent, Solo, PostIsFirst, Escalate, CheckReplies;
      match w.memory.inFlight[pane] {
        case EscalateRead(issue, dialog) => EscalateLeavesFirst(w, pane, issue, dialog, rows.value, now);
        case DirectiveRead(issue) =>
          CallNeedsTime(w.memory, pane);
          RepliesLeaveFirst(w, pane, issue, rows.value, now);
      }
    }
  }

  lemma CallNeedsTime(m: Memory, pane: Pane)
    requires Coherent(m) && pane in m.inFlight && m.inFlight[pane].DirectiveRead?
    ensures pane in m.panes && m.panes[pane].escalatedAt.Some?
  {
    assert CallFits(StateOf(m, pane), m.inFlight[pane]);
  }

  lemma CaptureLeavesFirst(w: World, pane: Pane, question: string, options: string, path: Option<string>)
    requires Inv(w) && Waits(w, pane) && w.memory.inFlight[pane].Capture?
    ensures LeavesFirst(w, Captured(w.memory, pane, question, options, path).memory, pane, w.memory.inFlight[pane].issue)
  {
    var c := w.memory.inFlight[pane];
    assert PostIsFirst(w, c);
    EscalationIsRecognised(c.issue, question, options, c.dialog.fp, path);
    assert StartsWith(EscalationComment(c.issue, question, options, c.dialog.fp, path), MARKER);
    hide Inv, StartsWith, IsEscalationOf, EscalationComment;
  }

  lemma BlockedLeavesFirst(w: World, pane: Pane, issue: IssueKey, dialog: Dialog, seqNo: int)
    requires Inv(w)
    ensures LeavesFirst(w, OnBlocked(w.memory, pane, issue, dialog, seqNo).memory, pane,
                        ActingIssue(w, Blocked(pane, issue, dialog, seqNo)))
  {
    assert Waits(w, pane) ==> PostIsFirst(w, w.memory.inFlight[pane]);
    hide Inv, Sighted, StalePoll;
  }

  /** After the pane is re-read the only post left to make is the no-free-text notice. */
  lemma ReReadPostsNoticeOnly(m: Memory, pane: Pane, reread: Option<Option<Dialog>>)
    requires Coherent(m) && pane in m.inFlight && m.inFlight[pane].PaneRead?
    ensures pane in m.panes
    ensures var m' := PaneReadBack(m, pane, reread).memory;
      pane in m'.inFlight ==>
        && m'.inFlight[pane].issue == m.inFlight[pane].issue
        && (m'.inFlight[pane] == NoticePost(m.inFlight[pane].issue, NoFreeTextNotice(m.inFlight[pane].issue, m.panes[pane].fp))
            || m'.inFlight[pane].Sending?)
  {
    var w := m.inFlight[pane];
    assert CallFits(StateOf(m, pane), w);
    hide Coherent, NoFreeTextNotice, CallFits, NewState, Deliver;
    if reread.Some? && reread.value.Some? {
      var live := reread.value.value;
      DeliverKeeps(m, pane, w.issue, live, Warrant(live, m.panes[pane].fp, w.directive, w.created, w.since));
    }
  }

  lemma ReReadLeavesFirst(w: World, pane: Pane, reread: Option<Option<Dialog>>)
    requires Inv(w) && Waits(w, pane) && w.memory.inFlight[pane].PaneRead?
    ensures LeavesFirst(w, PaneReadBack(w.memory, pane, reread).memory, pane, w.memory.inFlight[pane].issue)
  {
    ReReadPostsNoticeOnly(w.memory, pane, reread);
    hide Inv, PostIsFirst, Coherent, NoFreeTextNotice, PaneReadBack;
    NoticeIsFirst(w, w.memory.inFlight[pane].issue, w.memory.panes[pane].fp);
    var m' := PaneReadBack(w.memory, pane, reread).memory;
    if pane in m'.inFlight && m'.inFlight[pane].Sending? { SilentIsFirst(w, m'.inFlight[pane]); }
  }

  lemma NoticeIsFirst(w: World, issue: IssueKey, fp: Fingerprint)
    ensures PostIsFirst(w, NoticePost(issue, NoFreeTextNotice(issue, fp)))
  {
    NoticesAreMarked(issue, fp);
    hide StartsWith, NoFreeTextNotice;
  }

  lemma SentLeavesFirst(w: World, pane: Pane, ok: bool)
    requires Inv(w) && Waits(w, pane) && w.memory.inFlight[pane].Sending?
    ensures LeavesFirst(w, Sent(w.memory, pane, ok).memory, pane, w.memory.inFlight[pane].issue)
  {
    hide Inv, PostIsFirst;
    var m' := Sent(w.memory, pane, ok).memory;
    if pane in m'.inFlight { SilentIsFirst(w, m'.inFlight[pane]); }
  }

  lemma NoPromptLeavesFirst(w: World, pane: Pane, seqNo: int)
    requires Inv(w)
    ensures LeavesFirst(w, OnNoPrompt(w.memory, pane, seqNo).memory, pane, ActingIssue(w, NoPromptSeen(pane, seqNo)))
  {
    assert Waits(w, pane) ==> PostIsFirst(w, w.memory.inFlight[pane]);
    hide Inv, StalePoll, ResetState;
  }

  lemma StepLeavesFirst(w: World, e: Event)
    requires Inv(w) && Enabled(w, e) && Acts(e) && !e.PostEnded?
    ensures LeavesFirst(w, React(w, e).memory, e.pane, ActingIssue(w, e))
  {
    hide Inv, Coherent, LeavesFirst, CommentsRead, Captured, OnBlocked, PaneReadBack, Sent, OnNoPrompt;
    match e {
      case Blocked(pane, issue, dialog, seqNo) => BlockedLeavesFirst(w, pane, issue, dialog, seqNo);
      case ReadAnswered(pane, rows, now) => ReadLeavesFirst(w, pane, rows, now);
      case CaptureEnded(pane, question, options, path) => CaptureLeavesFirst(w, pane, question, options, path);
      case PaneReRead(pane, reread) => ReReadLeavesFirst(w, pane, reread);
      case SendEnded(pane, ok) => SentLeavesFirst(w, pane, ok);
      case NoPromptSeen(pane, seqNo) => NoPromptLeavesFirst(w, pane, seqNo);
    }
  }

  lemma RecordGrows(w: World, issue: IssueKey, c: Comment)
    requires OnRecord(w)
    ensures OnRecord(w.(channel := w.channel[issue := ChannelOf(w, issue) + [c]]))
  {
    hide IsEscalationOf, IsFollowupOf;
    var w' := w.(channel := w.channel[issue := ChannelOf(w, issue) + [c]]);
    assert forall i: IssueKey, d :: d in ChannelOf(w, i) ==> d in ChannelOf(w', i);
    forall s: Subject ensures SubjectOnRecord(w', s) { assert SubjectOnRecord(w, s); }
  }

  /** A comment that lands is counted once and can be read back from then on. */
  lemma LandingKeepsRecord(w: World, e: Event)
    requires Inv(w) && Enabled(w, e) && e.PostEnded? && e.landed.Some?
    ensures OnRecord(Posted(w, e))
  {
    hide SubjectOnRecord, Posted, IsEscalationOf, IsFollowupOf, Coherent, Solo;
    forall s: Subject ensures SubjectOnRecord(Posted(w, e), s) {
      LandingKeepsSubject(w, e, s);
    }
  }

  lemma LandingKeepsSubject(w: World, e: Event, s: Subject)
    requires Inv(w) && Enabled(w, e) && e.PostEnded? && e.landed.Some?
    ensures SubjectOnRecord(Posted(w, e), s)
  {
    LandingCounts(w, e, s);
    LandingGrowsChannel(w, e);
    var p := w.memory.inFlight[e.pane];
    var c := e.landed.value;
    assert PostIsFirst(w, p);
    assert p.EscalationPost? ==> IsEscalationOf(c, p.fp);
    assert p.FollowupPost? ==> IsFollowupOf(c, p.fp);
    assert SubjectOnRecord(w, s);
    hide Inv, OnRecord, Posted, IsEscalationOf, IsFollowupOf, ChannelOf;
  }

  lemma LandingGrowsChannel(w: World, e: Event)
    requires Inv(w) && Enabled(w, e) && e.PostEnded? && e.landed.Some?
    ensures e.landed.value in ChannelOf(Posted(w, e), w.memory.inFlight[e.pane].issue)
    ensures forall i, d :: d in ChannelOf(w, i) ==> d in ChannelOf(Posted(w, e), i)
  {
    hide Inv;
  }

  lemma LandingCounts(w: World, e: Event, s: Subject)
    requires Inv(w) && Enabled(w, e) && e.PostEnded? && e.landed.Some?
    ensures var p := w.memory.inFlight[e.pane];
      && Posted(w, e).escalations[s] == w.escalations[s] + (if p.EscalationPost? && s == (p.issue, p.fp) then 1 else 0)
      && Posted(w, e).followups[s] == w.followups[s] + (if p.FollowupPost? && s == (p.issue, p.fp) then 1 else 0)
  {
    hide Inv;
  }

  /** A comment landing for one pane leaves the others' knowledge intact: they speak for other issues. */
  lemma LandingLeavesOthersFirst(w: World, e: Event, q: Pane)
    requires Inv(w) && Enabled(w, e) && e.PostEnded? && e.landed.Some? && Waits(w, q) && q != e.pane
    ensures PostIsFirst(Posted(w, e), w.memory.inFlight[q])
  {
    var p := w.memory.inFlight[q];
    assert PostIsFirst(w, p) && p.issue != w.memory.inFlight[e.pane].issue;
    hide Inv, OnRecord, IsEscalationOf, IsFollowupOf, Posted;
    if p.Capture? { LandingCounts(w, e, (p.issue, p.dialog.fp)); }
    if p.EscalationPost? || p.FollowupPost? { LandingCounts(w, e, (p.issue, p.fp)); }
  }

  lemma PostEndsTheCall(m: Memory, pane: Pane, ok: bool, now: int)
    requires Coherent(m) && pane in m.inFlight && Posting(m.inFlight[pane])
    ensures pane !in PostReturned(m, pane, ok, now).memory.inFlight
  {
  }

  lemma PostEndsItsCall(w: World, e: Event)
    requires Inv(w) && Enabled(w, e) && e.PostEnded?
    ensures e.pane !in React(w, e).memory.inFlight
  {
    PostEndsTheCall(w.memory, e.pane, e.ok, e.now);
    hide Inv, Coherent, PostReturned;
  }

  // ---------- the invariant step by step ----------

  /** The calls in flight after a step: another pane's is the one it had, the acting pane's is for the
      same issue as before. */
  lemma CallsAfter(w: World, e: Event)
    requires Inv(w) && Enabled(w, e) && Acts(e)
    ensures var m' := React(w, e).memory;
      && (forall q :: q != e.pane ==> WaitingOf(m', q) == WaitingOf(w.memory, q))
      && (e.pane in m'.inFlight ==> !e.PostEnded? && PostIsFirst(w, m'.inFlight[e.pane])
                                    && m'.inFlight[e.pane].issue == ActingIssue(w, e)
                                    && (Waits(w, e.pane) || e.Blocked?))
  {
    assert Coherent(w.memory);
    hide Inv, Coherent, React, PostIsFirst, Enabled;
    OthersKeepTheirCalls(w, e);
    if e.PostEnded? { PostEndsItsCall(w, e); } else { StepLeavesFirst(w, e); }
    NewCallIsForBlocked(w, e);
  }

  lemma OthersKeepTheirCalls(w: World, e: Event)
    requires Coherent(w.memory) && Enabled(w, e) && Acts(e)
    ensures forall q :: q != e.pane ==> WaitingOf(React(w, e).memory, q) == WaitingOf(w.memory, q)
  {
    hide React, Coherent, Enabled, CallFits, StateOf, WaitingOf, SetOf;
    ReactIsGood(w, e);
    forall q | q != e.pane ensures WaitingOf(React(w, e).memory, q) == WaitingOf(w.memory, q) {
      assert Untouched(w.memory, React(w, e).memory, q);
    }
  }

  /** Only a blocked sighting starts a call. */
  lemma NewCallIsForBlocked(w: World, e: Event)
    requires Inv(w) && Enabled(w, e) && Acts(e)
    ensures e.pane in React(w, e).memory.inFlight ==> Waits(w, e.pane) || e.Blocked?
  {
    hide Inv, OnBlocked, CommentsRead, Captured, PostReturned, PaneReadBack, Sent;
  }

  lemma SoloAfter(w: World, e: Event)
    requires Inv(w) && Enabled(w, e) && Acts(e)
    ensures Solo(React(w, e).memory)
  {
    CallsAfter(w, e);
    hide React, OnRecord, Coherent, PostIsFirst;
    var m' := React(w, e).memory;
    forall q | q in m'.inFlight && q != e.pane
      ensures Waits(w, q) && m'.inFlight[q] == w.memory.inFlight[q]
    {
      assert WaitingOf(m', q) == WaitingOf(w.memory, q);
    }
  }

  lemma FirstAfter(w: World, e: Event, q: Pane)
    requires Inv(w) && Enabled(w, e) && Acts(e) && q in React(w, e).memory.inFlight
    ensures PostIsFirst(Step(w, e), React(w, e).memory.inFlight[q])
  {
    CallsAfter(w, e);
    var m' := React(w, e).memory;
    hide React, OnRecord, Coherent, Solo, PostIsFirst, Posted;
    if q != e.pane { assert WaitingOf(m', q) == WaitingOf(w.memory, q); }
    if e.PostEnded? && e.landed.Some? {
      LandingLeavesOthersFirst(w, e, q);
      SameCounts(Posted(w, e), Step(w, e), m'.inFlight[q]);
    } else {
      SameCounts(w, Step(w, e), m'.inFlight[q]);
    }
  }

  lemma SameCounts(w: World, w': World, p: Waiting)
    requires w'.escalations == w.escalations && w'.followups == w.followups
    ensures PostIsFirst(w, p) == PostIsFirst(w', p)
  {
  }

  lemma RecordAfter(w: World, e: Event)
    requires Inv(w) && Enabled(w, e)
    ensures OnRecord(Step(w, e))
  {
    if e.PostEnded? && e.landed.Some? {
      LandingKeepsRecord(w, e);
      RecordIgnoresMemory(Posted(w, e), React(w, e).memory);
    } else if e.Foreign? {
      RecordGrows(w, e.issue, e.comment);
    } else {
      RecordIgnoresMemory(w, React(w, e).memory);
    }
    hide React, OnRecord, Posted;
  }

  lemma RecordIgnoresMemory(w: World, m: Memory)
    requires OnRecord(w)
    ensures OnRecord(w.(memory := m))
  {
    hide IsEscalationOf, IsFollowupOf;
    forall s: Subject ensures SubjectOnRecord(w.(memory := m), s) {
      assert SubjectOnRecord(w, s) && ChannelOf(w.(memory := m), s.0) == ChannelOf(w, s.0);
    }
  }

  /** Every event keeps the invariant. */
  lemma StepKeepsInv(w: World, e: Event)
    requires Inv(w) && Enabled(w, e)
    ensures Inv(Step(w, e))
  {
    StepKeepsCoherent(w, e);
    RecordAfter(w, e);
    if Acts(e) {
      SoloAfter(w, e);
      hide OnRecord, Coherent, Solo, PostIsFirst, React, Posted;
      assert Step(w, e).memory == React(w, e).memory;
      forall q | q in Step(w, e).memory.inFlight ensures PostIsFirst(Step(w, e), Step(w, e).memory.inFlight[q]) {
        FirstAfter(w, e, q);
      }
    } else {
      hide OnRecord, Coherent, PostIsFirst;
      forall q | q in Step(w, e).memory.inFlight ensures PostIsFirst(Step(w, e), Step(w, e).memory.inFlight[q]) {
        SameCounts(w, Step(w, e), w.memory.inFlight[q]);
      }
    }
  }

  // ---------- whole histories ----------

  ghost predicate History(w: World, events: seq<Event>)
    requires Coherent(w.memory)
    decreases |events|
  {
    events == [] ||
    (Enabled(w, events[0]) && (StepKeepsCoherent(w, events[0]); History(Step(w, events[0]), events[1..])))
  }

  ghost function After(w: World, events: seq<Event>): World
    requires Coherent(w.memory) && History(w, events)
    decreases |events|
  {
    if events == [] then w
    else
      StepKeepsCoherent(w, events[0]);
      After(Step(w, events[0]), events[1..])
  }

  lemma {:induction false} HistoryKeepsInv(w: World, events: seq<Event>)
    requires Inv(w) && History(w, events)
    ensures Inv(After(w, events))
    decreases |events|
  {
    if events != [] {
      StepKeepsInv(w, events[0]);
      hide Inv, Step, Enabled;
      StepKeepsCoherent(w, events[0]);
      HistoryKeepsInv(Step(w, events[0]), events[1..]);
    }
  }

  /** Whatever the interleaving of polls, replies, failures and restarts, each issue gets at most one
      escalation and one follow-up comment for a fingerprint, and each that was posted is on the channel. */
  lemma AtMostOneEscalation(events: seq<Event>, issue: IssueKey, fp: Fingerprint)
    requires History(Fresh, events)
    ensures var end := After(Fresh, events);
      && end.escalations[(issue, fp)] <= 1 && end.followups[(issue, fp)] <= 1
      && (end.escalations[(issue, fp)] == 1 ==> exists c :: c in ChannelOf(end, issue) && IsEscalationOf(c, fp))
      && (end.followups[(issue, fp)] == 1 ==> exists c :: c in ChannelOf(end, issue) && IsFollowupOf(c, fp))
  {
    assert Inv(Fresh);
    HistoryKeepsInv(Fresh, events);
    hide IsEscalationOf, IsFollowupOf, After, Coherent, Solo, PostIsFirst;
    assert SubjectOnRecord(After(Fresh, events), (issue, fp));
  }

  lemma {:induction false} LandedIsNoAnswer(w: World, events: seq<Event>, i: nat)
    requires Inv(w) && History(w, events) && i < |events| && events[i].PostEnded? && events[i].landed.Some?
    ensures ParseDirective(events[i].landed.value.body).None?
    decreases |events|
  {
    if i == 0 {
      var p := w.memory.inFlight[events[0].pane];
      assert PostIsFirst(w, p);
      hide ParseDirective, Inv;
      MarkedIsNoAnswer(p.body);
    } else {
      StepKeepsInv(w, events[0]);
      hide Inv, Step, Enabled, ParseDirective;
      StepKeepsCoherent(w, events[0]);
      LandedIsNoAnswer(Step(w, events[0]), events[1..], i - 1);
    }
  }

  /** No comment the daemon lands in any history can be read back as an answer to itself. */
  lemma OwnCommentsAreNoAnswers(events: seq<Event>, i: nat)
    requires History(Fresh, events) && i < |events| && events[i].PostEnded? && events[i].landed.Some?
    ensures ParseDirective(events[i].landed.value.body).None?
  {
    assert Inv(Fresh);
    LandedIsNoAnswer(Fresh, events, i);
  }

  /** A rejected read posts nothing and latches nothing: the call ends and its pane is as it was. */
  lemma RejectedReadChangesNothing(w: World, pane: Pane, now: int)
    requires Inv(w) && Enabled(w, ReadAnswered(pane, None, now))
    ensures Step(w, ReadAnswered(pane, None, now)) == w.(memory := w.memory.(inFlight := w.memory.inFlight - {pane}))
    ensures React(w, ReadAnswered(pane, None, now)).notes == []
  {
    hide OnRecord, PostIsFirst, Solo;
  }
}
