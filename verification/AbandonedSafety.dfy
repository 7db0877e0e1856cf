/** The abandoned-worker detector over whole histories: polls, failed reads, lost replies and restarts. */
module AbandonedSafety {
  import opened Text
  import opened Wrappers
  import opened CommentText
  import opened StageText
  import opened StageMarks
  import opened Abandoned

  /** One escalation step's identity: where it is posted, for whom, and which of the three stages. */
  datatype Subject = Subject(target: string, pair: Pair, tag: char)

  /** The memory, every target's comments, and how often each escalation has been posted. */
  datatype World = World(memory: Memory, channel: map<string, seq<Comment>>, posted: multiset<Subject>)

  datatype Event =
    | PollStarted(candidates: set<Pair>, complete: bool)
    | Visited(pair: Pair, answers: Answers, landed: Option<Comment>)
    | Foreign(target: string, comment: Comment)
    | Restart

  function ChannelOf(w: World, target: string): seq<Comment> {
    if target in w.channel then w.channel[target] else []
  }

  function VisitOf(w: World, e: Event, minutesMs: int): Visit
    requires e.Visited?
  {
    VisitPair(w.memory, e.pair, e.answers, minutesMs)
  }

  function DueOf(w: World, e: Event, minutesMs: int): Option<Attempt>
    requires e.Visited?
  {
    Due(Observe(w.memory, e.pair, e.answers.now).entries[e.pair], e.pair, e.answers, minutesMs)
  }

  /** A read that resolves shows every earlier comment of the target; a post that resolves has landed, and
      one that has landed has the body that was sent. */
  ghost predicate Enabled(w: World, e: Event, minutesMs: int) {
    e.Visited? ==>
      && (DueOf(w, e, minutesMs).Some? && e.answers.rows.Some? ==>
            forall c :: c in ChannelOf(w, DueOf(w, e, minutesMs).value.target) ==> c in e.answers.rows.value)
      && (VisitOf(w, e, minutesMs).post.Some? && e.answers.ok ==> e.landed.Some?)
      && (e.landed.Some? ==> VisitOf(w, e, minutesMs).post.Some? && e.landed.value.body == VisitOf(w, e, minutesMs).post.value.1)
  }

  function Step(w: World, e: Event, minutesMs: int): World {
    match e
    case PollStarted(candidates, complete) => if complete then w.(memory := Forget(w.memory, candidates)) else w
    case Foreign(target, c) => w.(channel := w.channel[target := ChannelOf(w, target) + [c]])
    case Restart => w.(memory := Memory(map[], map[]))
    case Visited(p, a, landed) =>
      var v := VisitOf(w, e, minutesMs);
      var due := DueOf(w, e, minutesMs);
      if landed.None? || due.None? then w.(memory := v.memory)
      else
        var t := due.value.target;
        World(v.memory, w.channel[t := ChannelOf(w, t) + [landed.value]],
              w.posted + multiset{Subject(t, p, Tag(due.value.stage))})
  }

  const Fresh := World(Memory(map[], map[]), map[], multiset{})

  ghost predicate History(w: World, events: seq<Event>, minutesMs: int)
    decreases |events|
  {
    events == [] || (Enabled(w, events[0], minutesMs) && History(Step(w, events[0], minutesMs), events[1..], minutesMs))
  }

  function After(w: World, events: seq<Event>, minutesMs: int): World
    decreases |events|
  {
    if events == [] then w else After(Step(w, events[0], minutesMs), events[1..], minutesMs)
  }

  // ---------- at most one comment per escalation ----------

  ghost predicate OnRecord(w: World, s: Subject) {
    && w.posted[s] <= 1
    && (w.posted[s] == 1 ==> exists c :: c in ChannelOf(w, s.target) && Marks(c.body, s.tag, s.pair.worker, s.pair.boss))
  }

  /** A visit posts only when no comment read carries the escalation's needles. */
  lemma PostIsUnmarked(w: World, e: Event, minutesMs: int)
    requires e.Visited? && VisitOf(w, e, minutesMs).post.Some?
    ensures DueOf(w, e, minutesMs).Some? && e.answers.rows.Some?
    ensures var t := DueOf(w, e, minutesMs).value;
      && (exists minutes :: VisitOf(w, e, minutesMs).post.value == (t.target, StageComment(t.stage, e.pair.worker, e.pair.boss, minutes)))
      && forall c :: c in e.answers.rows.value ==> !Marks(c.body, Tag(t.stage), e.pair.worker, e.pair.boss)
  {
    var t := DueOf(w, e, minutesMs).value;
    var m := Observe(w.memory, e.pair, e.answers.now);
    FindMarkedFinds(e.answers.rows.value, ABANDONED, Needles(Tag(t.stage), e.pair.worker, e.pair.boss));
    hide StageComment, FindMarked, Contains, StartsWith, HasAll, Needles, Due, Observe, Tag;
    assert VisitOf(w, e, minutesMs).post == PostStage(m, e.pair, t, e.answers).post;
    var minutes := ElapsedMinutes(m.entries[e.pair], e.answers.now);
    assert VisitOf(w, e, minutesMs).post.value == (t.target, StageComment(t.stage, e.pair.worker, e.pair.boss, minutes));
  }

  /** The first two stages go to the worker's own ticket, the third to the boss's boss or, where there is
      none, to the boss; while the boss's links cannot be read nothing is posted. */
  lemma PostsGoUpTheChain(m: Memory, p: Pair, a: Answers, minutesMs: int)
    requires VisitPair(m, p, a, minutesMs).post.Some?
    ensures var e := Observe(m, p, a.now).entries[p];
      var target := VisitPair(m, p, a, minutesMs).post.value.0;
      && (e.stage1At.None? || e.stage2At.None? ==> target == p.worker)
      && (e.stage1At.Some? && e.stage2At.Some? ==> e.stage3At.None? && a.bossOfBoss.Some? && target == a.bossOfBoss.value.GetOr(p.boss))
  {
    var m1 := Observe(m, p, a.now);
    var due := Due(m1.entries[p], p, a, minutesMs);
    assert due.Some?;
    PostTarget(m1, p, due.value, a);
    hide PostStage, Observe;
  }

  lemma PostTarget(m: Memory, p: Pair, t: Attempt, a: Answers)
    requires p in m.entries
    ensures PostStage(m, p, t, a).post.Some? ==> PostStage(m, p, t, a).post.value.0 == t.target
  {
    hide StageComment, Needles;
  }

  lemma MemoryKeepsRecord(w: World, m: Memory, s: Subject)
    requires OnRecord(w, s)
    ensures OnRecord(w.(memory := m), s)
  {
    hide Marks;
    assert ChannelOf(w.(memory := m), s.target) == ChannelOf(w, s.target);
  }

  /** A comment that landed is the escalation that was due, unmarked in all that its target held before. */
  lemma LandedIsFirst(w: World, e: Event, minutesMs: int)
    requires Enabled(w, e, minutesMs) && e.Visited? && e.landed.Some?
    ensures DueOf(w, e, minutesMs).Some?
    ensures var t := DueOf(w, e, minutesMs).value;
      && Marks(e.landed.value.body, Tag(t.stage), e.pair.worker, e.pair.boss)
      && forall c :: c in ChannelOf(w, t.target) ==> !Marks(c.body, Tag(t.stage), e.pair.worker, e.pair.boss)
  {
    PostIsUnmarked(w, e, minutesMs);
    hide StageComment, Marks, VisitOf, DueOf, Tag;
    var t := DueOf(w, e, minutesMs).value;
    var post := VisitOf(w, e, minutesMs).post.value;
    var minutes :| post == (t.target, StageComment(t.stage, e.pair.worker, e.pair.boss, minutes));
    MarksItself(t.stage, e.pair.worker, e.pair.boss, minutes);
  }

  lemma LandingKeepsRecord(w: World, e: Event, minutesMs: int, s: Subject)
    requires Enabled(w, e, minutesMs) && e.Visited? && e.landed.Some? && OnRecord(w, s)
    ensures OnRecord(Step(w, e, minutesMs), s)
  {
    LandedIsFirst(w, e, minutesMs);
    hide Enabled, Marks, VisitOf, DueOf, Tag;
    var t := DueOf(w, e, minutesMs).value;
    var w' := Step(w, e, minutesMs);
    var own := Subject(t.target, e.pair, Tag(t.stage));
    assert e.landed.value in ChannelOf(w', t.target);
    assert forall c :: c in ChannelOf(w, s.target) ==> c in ChannelOf(w', s.target);
    assert w'.posted[s] == w.posted[s] + if s == own then 1 else 0;
    if s == own { assert w.posted[s] == 0; }
  }

  lemma StepKeepsRecord(w: World, e: Event, minutesMs: int, s: Subject)
    requires Enabled(w, e, minutesMs) && OnRecord(w, s)
    ensures OnRecord(Step(w, e, minutesMs), s)
  {
    if e.Visited? && e.landed.Some? {
      LandingKeepsRecord(w, e, minutesMs, s);
    } else if e.Foreign? {
      hide Marks;
      assert forall c :: c in ChannelOf(w, s.target) ==> c in ChannelOf(Step(w, e, minutesMs), s.target);
    } else {
      hide Marks, VisitOf, DueOf, Forget;
      MemoryKeepsRecord(w, Step(w, e, minutesMs).memory, s);
    }
  }

  lemma {:induction false} HistoryKeepsRecord(w: World, events: seq<Event>, minutesMs: int, s: Subject)
    requires History(w, events, minutesMs) && OnRecord(w, s)
    ensures OnRecord(After(w, events, minutesMs), s)
    decreases |events|
  {
    if events != [] {
      hide OnRecord, Enabled, Step;
      StepKeepsRecord(w, events[0], minutesMs, s);
      HistoryKeepsRecord(Step(w, events[0], minutesMs), events[1..], minutesMs, s);
    }
  }

  /** Across polls, failed reads, lost replies and restarts, at most one comment is ever posted per
      target, worker, boss and stage, and one that was posted can be found on its target. */
  lemma EscalationsAreNotRepeated(events: seq<Event>, minutesMs: int, s: Subject)
    requires History(Fresh, events, minutesMs)
    ensures OnRecord(After(Fresh, events, minutesMs), s)
  {
    assert OnRecord(Fresh, s);
    HistoryKeepsRecord(Fresh, events, minutesMs, s);
  }

  /** A detector's own comment on a channel, about keys that cannot be mistaken for a field of a comment. */
  ghost predicate IsStageComment(body: string, s: Stage, worker: string, boss: string, minutes: nat) {
    StageKeys(s, worker, boss) && SafeKeys(s, worker, boss) && body == StageComment(s, worker, boss, minutes)
  }

  ghost predicate Authored(body: string, tag: char, worker: string, boss: string) {
    exists s, minutes :: IsStageComment(body, s, worker, boss, minutes) && Tag(s) == tag
  }

  /** Where every marked comment is the detector's own, for safe one-line keys, the comment adopted is one that
      was posted for this very worker, boss and stage. */
  lemma AdoptsOnlyItsOwn(rows: seq<Comment>, stage: Stage, p: Pair)
    requires '\n' !in p.worker && '\n' !in p.boss
    requires forall c :: c in rows && StartsWith(c.body, ABANDONED) ==>
        exists s, w, b, minutes :: IsStageComment(c.body, s, w, b, minutes)
    ensures var found := FindMarked(rows, ABANDONED, Needles(Tag(stage), p.worker, p.boss));
      found.Some? ==> found.value in rows && Authored(found.value.body, Tag(stage), p.worker, p.boss)
  {
    var tag := Tag(stage);
    assert IsTag(tag);
    FindMarkedFinds(rows, ABANDONED, Needles(tag, p.worker, p.boss));
    hide FindMarked, HasAll, StartsWith, StageComment, StageKeys, SafeKeys, Needles, Tag;
    var found := FindMarked(rows, ABANDONED, Needles(tag, p.worker, p.boss));
    if found.Some? {
      var c := found.value;
      assert c in rows;
      var s, w, b, minutes :| IsStageComment(c.body, s, w, b, minutes);
      assert Marks(c.body, tag, p.worker, p.boss);
      MarksOnlyItself(s, w, b, minutes, tag, p.worker, p.boss);
      assert IsStageComment(c.body, s, p.worker, p.boss, minutes) && Tag(s) == tag;
    }
  }

  // ---------- stages, in order and spaced ----------

  type Trace = seq<Note>

  /** When a stage was last marked, unless the pair has been forgotten since. */
  function MarkOf(t: Trace, stage: nat): Option<int> {
    if t == [] then None
    else
      match t[|t| - 1]
      case Marked(s, at) => if s == stage then Some(at) else MarkOf(t[..|t| - 1], stage)
      case Tried(_, _) => MarkOf(t[..|t| - 1], stage)
      case Reset => None
  }

  /** A stage is tried only when the one before it was marked long enough ago, and never twice once marked. */
  predicate GoodAt(t: Trace, note: Note, minutesMs: int) {
    match note
    case Marked(s, _) => s == 0 ==> MarkOf(t, 0).None?
    case Tried(s, at) => 1 <= s <= 3 && MarkOf(t, s).None? && MarkOf(t, s - 1).Some? && at - MarkOf(t, s - 1).value >= minutesMs
    case Reset => true
  }

  predicate Good(t: Trace, minutesMs: int) {
    t == [] || (Good(t[..|t| - 1], minutesMs) && GoodAt(t[..|t| - 1], t[|t| - 1], minutesMs))
  }

  /** A pair's entry is what its trace says. */
  ghost predicate Fits(m: Memory, p: Pair, t: Trace, minutesMs: int) {
    && Good(t, minutesMs)
    && (if p in m.entries then
          var e := m.entries[p];
          MarkOf(t, 0) == Some(e.firstObservedAt) && MarkOf(t, 1) == e.stage1At && MarkOf(t, 2) == e.stage2At && MarkOf(t, 3) == e.stage3At
        else forall s :: MarkOf(t, s).None?)
  }

  function NotesFor(w: World, e: Event, p: Pair, minutesMs: int): Trace {
    match e
    case PollStarted(candidates, complete) => if complete && p !in candidates then [Reset] else []
    case Visited(q, _, _) => if q == p then VisitOf(w, e, minutesMs).notes else []
    case Foreign(_, _) => []
    case Restart => [Reset]
  }

  function MarkAfter(t: Trace, n: Note, stage: nat): Option<int> {
    if n.Reset? then None else if n.Marked? && n.stage == stage then Some(n.at) else MarkOf(t, stage)
  }

  lemma Appended(t: Trace, n: Note)
    ensures (t + [n])[..|t|] == t && (t + [n])[|t|] == n && t + [] == t
  {
  }

  lemma GoodUnfolds(t: Trace, minutesMs: int)
    requires t != []
    ensures Good(t, minutesMs) <==> Good(t[..|t| - 1], minutesMs) && GoodAt(t[..|t| - 1], t[|t| - 1], minutesMs)
  {
    hide GoodAt;
  }

  lemma OneMore(t: Trace, n: Note, minutesMs: int)
    ensures (t + [n])[..|t|] == t && (t + [n])[|t|] == n && t + [] == t
    ensures Good(t + [n], minutesMs) <==> Good(t, minutesMs) && GoodAt(t, n, minutesMs)
    ensures forall s :: MarkOf(t + [n], s) == MarkAfter(t, n, s)
  {
    hide Good, GoodAt;
    Appended(t, n);
    GoodUnfolds(t + [n], minutesMs);
  }

  lemma ObserveFits(m: Memory, p: Pair, now: int, t: Trace, minutesMs: int)
    requires Fits(m, p, t, minutesMs)
    ensures Fits(Observe(m, p, now), p, t + (if p in m.entries then [] else [Marked(0, now)]), minutesMs)
  {
    OneMore(t, Marked(0, now), minutesMs);
    hide Good;
  }

  /** Trying a stage that is due, and marking it. */
  lemma TriedFits(m: Memory, m': Memory, p: Pair, a: Answers, t: Trace, minutesMs: int, due: Attempt)
    requires Fits(m, p, t, minutesMs) && p in m.entries && Due(m.entries[p], p, a, minutesMs) == Some(due)
    requires m'.entries == m.entries
    ensures Fits(m', p, t + [Tried(StageNo(due.stage), a.now)], minutesMs)
  {
    OneMore(t, Tried(StageNo(due.stage), a.now), minutesMs);
    hide Good;
  }

  lemma MarkedFits(m: Memory, m': Memory, p: Pair, s: Stage, at: int, t: Trace, minutesMs: int)
    requires Fits(m, p, t, minutesMs) && p in m.entries && p in m'.entries
    requires m'.entries[p] == WithStage(m.entries[p], s, at)
    ensures Fits(m', p, t + [Marked(StageNo(s), at)], minutesMs)
  {
    OneMore(t, Marked(StageNo(s), at), minutesMs);
    hide Good;
  }

  lemma PostFits(m: Memory, p: Pair, due: Attempt, a: Answers, t: Trace, minutesMs: int)
    requires Fits(m, p, t, minutesMs) && p in m.entries && Due(m.entries[p], p, a, minutesMs) == Some(due)
    ensures Fits(PostStage(m, p, due, a).memory, p, t + PostStage(m, p, due, a).notes, minutesMs)
  {
    var v := PostStage(m, p, due, a);
    var n := StageNo(due.stage);
    var tried := t + [Tried(n, a.now)];
    TriedFits(m, m, p, a, t, minutesMs, due);
    TriedFits(m, v.memory.(entries := m.entries), p, a, t, minutesMs, due);
    hide Fits, Due, FindMarked, Needles, StageNo, WithStage;
    if |v.notes| == 2 {
      assert v.notes == [Tried(n, a.now)] + [Marked(n, v.notes[1].at)];
      assert t + v.notes == tried + [Marked(n, v.notes[1].at)];
      assert v.memory.entries[p] == WithStage(m.entries[p], due.stage, v.notes[1].at);
      MarkedFits(m, v.memory, p, due.stage, v.notes[1].at, tried, minutesMs);
    } else {
      assert v.memory.entries == m.entries && v.notes == [Tried(n, a.now)];
    }
  }

  lemma VisitFits(m: Memory, p: Pair, a: Answers, t: Trace, minutesMs: int)
    requires Fits(m, p, t, minutesMs)
    ensures Fits(VisitPair(m, p, a, minutesMs).memory, p, t + VisitPair(m, p, a, minutesMs).notes, minutesMs)
  {
    ObserveFits(m, p, a.now, t, minutesMs);
    var m1 := Observe(m, p, a.now);
    var seen := if p in m.entries then [] else [Marked(0, a.now)];
    hide Fits, Due, PostStage, Observe;
    var due := Due(m1.entries[p], p, a, minutesMs);
    if due.Some? {
      PostFits(m1, p, due.value, a, t + seen, minutesMs);
      assert t + seen + PostStage(m1, p, due.value, a).notes == t + (seen + PostStage(m1, p, due.value, a).notes);
    }
  }

  lemma VisitLeavesOthers(m: Memory, p: Pair, a: Answers, minutesMs: int, q: Pair)
    requires q != p
    ensures q in VisitPair(m, p, a, minutesMs).memory.entries <==> q in m.entries
    ensures q in m.entries ==> VisitPair(m, p, a, minutesMs).memory.entries[q] == m.entries[q]
  {
    hide FindMarked, Needles, Due, StageComment, WithStage;
  }

  lemma StepFits(w: World, e: Event, p: Pair, t: Trace, minutesMs: int)
    requires Fits(w.memory, p, t, minutesMs)
    ensures Fits(Step(w, e, minutesMs).memory, p, t + NotesFor(w, e, p, minutesMs), minutesMs)
  {
    OneMore(t, Reset, minutesMs);
    hide Good, VisitPair, DueOf, MarkOf;
    if e.Visited? {
      if e.pair == p { VisitFits(w.memory, p, e.answers, t, minutesMs); }
      else { VisitLeavesOthers(w.memory, e.pair, e.answers, minutesMs, p); }
    }
  }

  function TraceFrom(w: World, events: seq<Event>, p: Pair, minutesMs: int, t: Trace): Trace
    decreases |events|
  {
    if events == [] then t
    else TraceFrom(Step(w, events[0], minutesMs), events[1..], p, minutesMs, t + NotesFor(w, events[0], p, minutesMs))
  }

  function TraceOf(events: seq<Event>, p: Pair, minutesMs: int): Trace { TraceFrom(Fresh, events, p, minutesMs, []) }

  lemma {:induction false} TraceIsGood(w: World, events: seq<Event>, p: Pair, minutesMs: int, t: Trace)
    requires Fits(w.memory, p, t, minutesMs)
    ensures Good(TraceFrom(w, events, p, minutesMs, t), minutesMs)
    decreases |events|
  {
    if events != [] {
      StepFits(w, events[0], p, t, minutesMs);
      hide Fits, Step, NotesFor;
      TraceIsGood(Step(w, events[0], minutesMs), events[1..], p, minutesMs, t + NotesFor(w, events[0], p, minutesMs));
    }
  }

  lemma {:induction false} GoodEverywhere(t: Trace, minutesMs: int, i: nat)
    requires Good(t, minutesMs) && i < |t|
    ensures GoodAt(t[..i], t[i], minutesMs)
    decreases |t|
  {
    if i < |t| - 1 {
      assert t[..|t| - 1][..i] == t[..i];
      GoodEverywhere(t[..|t| - 1], minutesMs, i);
    }
  }

  predicate MarkedFrom(t: Trace, stage: nat, at: int, j: int) {
    0 <= j < |t| && t[j] == Marked(stage, at) && forall k :: j < k < |t| ==> !t[k].Reset?
  }

  lemma {:induction false} MarkIsAt(t: Trace, stage: nat)
    requires MarkOf(t, stage).Some?
    ensures exists j :: MarkedFrom(t, stage, MarkOf(t, stage).value, j)
    decreases |t|
  {
    var n := |t| - 1;
    if t[n] == Marked(stage, MarkOf(t, stage).value) {
      assert MarkedFrom(t, stage, MarkOf(t, stage).value, n);
    } else {
      MarkIsAt(t[..n], stage);
      var j :| MarkedFrom(t[..n], stage, MarkOf(t, stage).value, j);
      assert forall k :: j <= k < n ==> t[k] == t[..n][k];
      assert MarkedFrom(t, stage, MarkOf(t, stage).value, j);
    }
  }

  lemma {:induction false} UnmarkedMeansReset(t: Trace, stage: nat, j: nat)
    requires j < |t| && t[j].Marked? && t[j].stage == stage && MarkOf(t, stage).None?
    ensures exists k :: j < k < |t| && t[k].Reset?
    decreases |t|
  {
    var n := |t| - 1;
    if !t[n].Reset? {
      UnmarkedMeansReset(t[..n], stage, j);
      var k :| j < k < n && t[..n][k].Reset?;
      assert t[k].Reset?;
    }
  }

  lemma StartFits(p: Pair, minutesMs: int)
    ensures Fits(Fresh.memory, p, [], minutesMs)
  {
  }

  /** Each stage is tried only with the stage before it (the first observation, for stage one) marked at
      least the configured time earlier in this daemon's watch of the pair. */
  lemma StagesAreSpaced(events: seq<Event>, p: Pair, minutesMs: int, i: nat)
    requires i < |TraceOf(events, p, minutesMs)| && TraceOf(events, p, minutesMs)[i].Tried?
    ensures var t := TraceOf(events, p, minutesMs);
      1 <= t[i].stage <= 3 && exists j :: SpacedFrom(t, i, j, minutesMs)
  {
    StartFits(p, minutesMs);
    TraceIsGood(Fresh, events, p, minutesMs, []);
    TriedIsSpaced(TraceOf(events, p, minutesMs), minutesMs, i);
  }

  lemma TriedIsSpaced(t: Trace, minutesMs: int, i: nat)
    requires Good(t, minutesMs) && i < |t| && t[i].Tried?
    ensures 1 <= t[i].stage <= 3 && exists j :: SpacedFrom(t, i, j, minutesMs)
  {
    GoodEverywhere(t, minutesMs, i);
    hide Good, MarkOf;
    var before := t[..i];
    var at := MarkOf(before, t[i].stage - 1).value;
    MarkIsAt(before, t[i].stage - 1);
    var j :| MarkedFrom(before, t[i].stage - 1, at, j);
    assert t[j] == before[j];
    assert SpacedFrom(t, i, j, minutesMs);
  }

  predicate SpacedFrom(t: Trace, i: nat, j: int, minutesMs: int) {
    && 0 <= j < i < |t| && t[i].Tried? && t[i].stage >= 1 && t[j].Marked?
    && MarkedFrom(t[..i], t[i].stage - 1, t[j].at, j) && t[i].at - t[j].at >= minutesMs
  }

  /** The pair's clock starts again, or a stage already marked is tried again. */
  predicate Again(first: Note, later: Note) {
    first.Marked? && ((later.Tried? && later.stage == first.stage) || (first.stage == 0 && later.Marked? && later.stage == 0))
  }

  /** The clock of a pair starts again only after it was forgotten: by a restart, or by a complete poll
      that no longer had it. An incomplete poll never restarts it, and a marked stage is not tried again. */
  lemma ClocksAreKept(events: seq<Event>, p: Pair, minutesMs: int, j: nat, i: nat)
    requires j < i < |TraceOf(events, p, minutesMs)|
    requires Again(TraceOf(events, p, minutesMs)[j], TraceOf(events, p, minutesMs)[i])
    ensures exists k :: j < k < i && TraceOf(events, p, minutesMs)[k].Reset?
  {
    var t := TraceOf(events, p, minutesMs);
    StartFits(p, minutesMs);
    TraceIsGood(Fresh, events, p, minutesMs, []);
    GoodEverywhere(t, minutesMs, i);
    hide TraceOf, Good;
    UnmarkedMeansReset(t[..i], t[j].stage, j);
    var k :| j < k < i && t[..i][k].Reset?;
    assert t[k].Reset?;
  }
}
