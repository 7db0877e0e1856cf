/**
 What a visit of the abandoned-worker detector posts, said from the pair's trace and the target's own posts: the
 stage that is due, if nothing on the target already says it and the hour has room.
 */
module AbandonedPosts {
  import opened Text
  import opened Wrappers
  import opened CommentText
  import opened StageText
  import opened Abandoned
  import opened AbandonedSafety
  import Cap = HourlyCap

  const PER_HOUR := 3

  // ---------- the run's own record ----------

  /** The times of the posts on a target that resolved, since the last restart. */
  function PostsFrom(w: World, events: seq<Event>, target: string, minutesMs: int, past: seq<int>): seq<int>
    decreases |events|
  {
    if events == [] then past
    else PostsFrom(Step(w, events[0], minutesMs), events[1..], target, minutesMs, PostsAfter(w, events[0], target, minutesMs, past))
  }

  function PostsAfter(w: World, e: Event, target: string, minutesMs: int, past: seq<int>): seq<int> {
    match e
    case Restart => []
    case Visited(_, a, _) =>
      var post := VisitOf(w, e, minutesMs).post;
      if post.Some? && post.value.0 == target && a.ok then past + [a.now] else past
    case _ => past
  }

  function PostsOf(events: seq<Event>, target: string, minutesMs: int): seq<int> {
    PostsFrom(Fresh, events, target, minutesMs, [])
  }

  function ClockOf(e: Event, clock: int): int { if e.Visited? then e.answers.now else clock }

  function ClockAfter(events: seq<Event>, clock: int): int {
    if events == [] then clock else ClockAfter(events[1..], ClockOf(events[0], clock))
  }

  predicate Ticks(events: seq<Event>, clock: int) {
    events == [] || (clock <= ClockOf(events[0], clock) && Ticks(events[1..], ClockOf(events[0], clock)))
  }

  /** The pair's trace with its first observation, if this is it. */
  function Observed(t: Trace, now: int): Trace {
    if MarkOf(t, 0).Some? then t else t + [Marked(0, now)]
  }

  /** A stage is due: not marked, and the one before it marked long enough ago; the third needs the boss's links. */
  predicate DueAt(t: Trace, a: Answers, k: nat, minutesMs: int) {
    && 1 <= k <= 3 && MarkOf(t, k).None?
    && MarkOf(t, k - 1).Some? && a.now - MarkOf(t, k - 1).value >= minutesMs
    && (k == 3 ==> a.bossOfBoss.Some?)
  }

  /** Where it goes and which comment it is. */
  function AttemptFor(p: Pair, a: Answers, k: nat): Attempt
    requires k == 3 ==> a.bossOfBoss.Some?
  {
    if k == 1 then Attempt(p.worker, One)
    else if k == 2 then Attempt(p.worker, Two)
    else if k == 3 && a.bossOfBoss.value.Some? then Attempt(a.bossOfBoss.value.value, ThreeEscalated(a.bossOfBoss.value.value))
    else Attempt(p.boss, ThreeTerminal)
  }

  /** The nearest number of whole minutes. */
  predicate Rounds(minutes: nat, ms: int) { -30_000 <= ms - minutes * 60_000 < 30_000 || (ms < 0 && minutes == 0) }

  predicate Said(c: Comment, p: Pair, s: Stage) { Marks(c.body, Tag(s), p.worker, p.boss) }

  /** What a visit with a due stage does. */
  ghost predicate ActsOn(t: Trace, p: Pair, a: Answers, k: nat, posts: seq<int>, v: Visit)
    requires (k == 3 ==> a.bossOfBoss.Some?) && MarkOf(t, 0).Some?
  {
    var due := AttemptFor(p, a, k);
    if a.rows.None? then v.post.None? && NothingMarked(v.notes)
    else if exists c :: c in a.rows.value && Said(c, p, due.stage) then
      v.post.None? && exists c :: c in a.rows.value && Said(c, p, due.stage) && MarkedOnly(v.notes, k, TimeOr(c.created, a.now))
    else if |Cap.Recent(posts, a.now, Cap.HOUR_MS)| >= PER_HOUR then v.post.None? && NothingMarked(v.notes)
    else
      && (exists minutes :: Rounds(minutes, a.now - MarkOf(t, 0).value)
            && v.post == Some((due.target, StageComment(due.stage, p.worker, p.boss, minutes))))
      && (if a.ok then MarkedOnly(v.notes, k, a.now) else NothingMarked(v.notes))
  }

  predicate NothingMarked(notes: seq<Note>) {
    forall i :: 0 <= i < |notes| ==> !(notes[i].Marked? && notes[i].stage > 0)
  }

  predicate MarkedOnly(notes: seq<Note>, k: nat, at: int) {
    notes != [] && notes[|notes| - 1] == Marked(k, at) && NothingMarked(notes[..|notes| - 1])
  }

  // ---------- the memory is the record ----------

  ghost predicate Accounted(m: Memory, target: string, posts: seq<int>, clock: int) {
    && (forall now :: clock <= now ==>
          Cap.Recent(Cap.PostsFor(m.posts, target), now, Cap.HOUR_MS) == Cap.Recent(posts, now, Cap.HOUR_MS))
    && forall at :: Cap.InWindow(posts, at, Cap.HOUR_MS) <= PER_HOUR
  }

  /** Marks come in order. */
  ghost predicate InOrder(m: Memory) {
    forall p :: p in m.entries ==>
      (m.entries[p].stage2At.Some? ==> m.entries[p].stage1At.Some?) && (m.entries[p].stage3At.Some? ==> m.entries[p].stage2At.Some?)
  }

  lemma VisitKeepsOrder(m: Memory, p: Pair, a: Answers, minutesMs: int)
    requires InOrder(m)
    ensures InOrder(VisitPair(m, p, a, minutesMs).memory)
  {
    hide FindMarked, Needles, StageComment, HasAll, StartsWith;
  }

  lemma StepKeepsOrder(w: World, e: Event, minutesMs: int)
    requires InOrder(w.memory)
    ensures InOrder(Step(w, e, minutesMs).memory)
  {
    hide VisitPair, DueOf;
    if e.Visited? { VisitKeepsOrder(w.memory, e.pair, e.answers, minutesMs); }
  }

  // ---------- one visit ----------

  lemma FindMarkedSaid(rows: seq<Comment>, p: Pair, s: Stage)
    ensures var c := FindMarked(rows, ABANDONED, Needles(Tag(s), p.worker, p.boss));
      && (c.Some? ==> c.value in rows && Said(c.value, p, s))
      && (c.None? ==> forall r :: r in rows ==> !Said(r, p, s))
  {
    hide FindMarked, HasAll, StartsWith, Needles, Tag;
    FindMarkedFinds(rows, ABANDONED, Needles(Tag(s), p.worker, p.boss));
  }

  lemma MinutesRound(e: Entry, now: int)
    ensures Rounds(ElapsedMinutes(e, now), now - e.firstObservedAt)
  {
  }

  lemma StageActs(m: Memory, p: Pair, a: Answers, k: nat, t: Trace, posts: seq<int>, clock: int)
    requires 1 <= k <= 3 && (k == 3 ==> a.bossOfBoss.Some?) && p in m.entries && MarkOf(t, 0) == Some(m.entries[p].firstObservedAt)
    requires Accounted(m, AttemptFor(p, a, k).target, posts, clock) && clock <= a.now
    ensures ActsOn(t, p, a, k, posts, PostStage(m, p, AttemptFor(p, a, k), a))
  {
    hide MarkOf, FindMarked, Needles, Said, Marks, StageComment, Tag, Cap.Recent, Cap.InWindow, Rounds, ElapsedMinutes, WithStage;
    var due := AttemptFor(p, a, k);
    assert StageNo(due.stage) == k;
    var v := PostStage(m, p, due, a);
    assert v.notes[0] == Tried(k, a.now);
    if a.rows.Some? {
      FindMarkedSaid(a.rows.value, p, due.stage);
      MinutesRound(m.entries[p], a.now);
      assert Cap.Recent(Cap.PostsFor(m.posts, due.target), a.now, Cap.HOUR_MS) == Cap.Recent(posts, a.now, Cap.HOUR_MS);
      if |v.notes| == 2 { assert v.notes[..1] == [Tried(k, a.now)]; }
      if v.post.Some? {
        assert v.post == Some((due.target, StageComment(due.stage, p.worker, p.boss, ElapsedMinutes(m.entries[p], a.now))));
      }
    }
  }

  /** Seeing the pair first adds no mark of a stage. */
  lemma SeenFirst(t: Trace, p: Pair, a: Answers, k: nat, posts: seq<int>, v: Visit, at: int)
    requires (k == 3 ==> a.bossOfBoss.Some?) && MarkOf(t, 0).Some? && ActsOn(t, p, a, k, posts, v)
    ensures ActsOn(t, p, a, k, posts, v.(notes := [Marked(0, at)] + v.notes))
  {
    hide MarkOf, Said, StageComment, Cap.Recent, Rounds;
    var notes := [Marked(0, at)] + v.notes;
    assert NothingMarked(v.notes) ==> NothingMarked(notes);
    assert v.notes != [] ==> notes[..|notes| - 1] == [Marked(0, at)] + v.notes[..|v.notes| - 1];
    assert forall k0, at0 :: MarkedOnly(v.notes, k0, at0) ==> MarkedOnly(notes, k0, at0);
    hide NothingMarked, MarkedOnly;
  }

  /** Which stage is due, by the entry and by the trace. */
  lemma DueIsDueAt(e: Entry, p: Pair, a: Answers, minutesMs: int, t: Trace)
    requires MarkOf(t, 0) == Some(e.firstObservedAt) && MarkOf(t, 1) == e.stage1At && MarkOf(t, 2) == e.stage2At && MarkOf(t, 3) == e.stage3At
    requires (e.stage2At.Some? ==> e.stage1At.Some?) && (e.stage3At.Some? ==> e.stage2At.Some?)
    ensures Due(e, p, a, minutesMs).None? ==> forall k :: !DueAt(t, a, k, minutesMs)
    ensures forall k :: DueAt(t, a, k, minutesMs) ==> Due(e, p, a, minutesMs) == Some(AttemptFor(p, a, k))
  {
    hide MarkOf;
  }

  lemma VisitActs(m: Memory, p: Pair, a: Answers, t: Trace, minutesMs: int, k: nat, posts: seq<int>, clock: int)
    requires Fits(m, p, t, minutesMs) && InOrder(m) && DueAt(Observed(t, a.now), a, k, minutesMs)
    requires Accounted(m, AttemptFor(p, a, k).target, posts, clock) && clock <= a.now
    ensures MarkOf(Observed(t, a.now), 0).Some?
    ensures ActsOn(Observed(t, a.now), p, a, k, posts, VisitPair(m, p, a, minutesMs))
  {
    var t', m1 := Observed(t, a.now), Observe(m, p, a.now);
    ObserveFits(m, p, a.now, t, minutesMs);
    assert p in m.entries <==> MarkOf(t, 0).Some?;
    assert t + [] == t;
    hide Good;
    assert Fits(m1, p, t', minutesMs);
    DueIsDueAt(m1.entries[p], p, a, minutesMs, t');
    var due := AttemptFor(p, a, k);
    hide MarkOf, Fits, Due, DueAt, AttemptFor, PostStage, ActsOn, Cap.Recent, Cap.InWindow;
    StageActs(m1, p, a, k, t', posts, clock);
    var v := PostStage(m1, p, due, a);
    if p !in m.entries { SeenFirst(t', p, a, k, posts, v, a.now); }
    assert [] + v.notes == v.notes;
  }

  lemma IdleVisit(m: Memory, p: Pair, a: Answers, t: Trace, minutesMs: int)
    requires Fits(m, p, t, minutesMs) && InOrder(m) && forall k :: !DueAt(Observed(t, a.now), a, k, minutesMs)
    ensures VisitPair(m, p, a, minutesMs).post.None? && NothingMarked(VisitPair(m, p, a, minutesMs).notes)
  {
    var t', m1 := Observed(t, a.now), Observe(m, p, a.now);
    ObserveFits(m, p, a.now, t, minutesMs);
    assert p in m.entries <==> MarkOf(t, 0).Some?;
    assert t + [] == t;
    hide Good;
    assert Fits(m1, p, t', minutesMs);
    SomeStageIsDue(m1.entries[p], p, a, minutesMs, t');
    hide MarkOf, Fits, Due, DueAt, PostStage;
  }

  lemma SomeStageIsDue(e: Entry, p: Pair, a: Answers, minutesMs: int, t: Trace)
    requires MarkOf(t, 0) == Some(e.firstObservedAt) && MarkOf(t, 1) == e.stage1At && MarkOf(t, 2) == e.stage2At && MarkOf(t, 3) == e.stage3At
    ensures Due(e, p, a, minutesMs).Some? ==> exists k :: DueAt(t, a, k, minutesMs)
  {
    hide MarkOf;
    if Due(e, p, a, minutesMs).Some? {
      var k := if e.stage1At.None? then 1 else if e.stage2At.None? then 2 else 3;
      assert DueAt(t, a, k, minutesMs);
    }
  }

  // ---------- over a run ----------

  lemma KeptPosts(posts: seq<int>, kept: seq<int>, now: int, later: int)
    requires now <= later && Cap.Recent(kept, later, Cap.HOUR_MS) == Cap.Recent(posts, later, Cap.HOUR_MS)
    ensures Cap.Recent(Cap.Recent(kept, now, Cap.HOUR_MS), later, Cap.HOUR_MS) == Cap.Recent(posts, later, Cap.HOUR_MS)
    ensures Cap.Recent(Cap.Recent(kept, now, Cap.HOUR_MS) + [now], later, Cap.HOUR_MS) == Cap.Recent(posts + [now], later, Cap.HOUR_MS)
  {
    Cap.RecentTwice(kept, now, later, Cap.HOUR_MS);
    Cap.RecentInParts(Cap.Recent(kept, now, Cap.HOUR_MS), [now], later, Cap.HOUR_MS);
    Cap.RecentInParts(posts, [now], later, Cap.HOUR_MS);
  }

  lemma RoomForOne(posts: seq<int>, now: int)
    requires |Cap.Recent(posts, now, Cap.HOUR_MS)| < PER_HOUR
    requires forall at :: Cap.InWindow(posts, at, Cap.HOUR_MS) <= PER_HOUR
    ensures forall at :: Cap.InWindow(posts + [now], at, Cap.HOUR_MS) <= PER_HOUR
  {
    assert (posts + [now])[..|posts|] == posts;
    forall at ensures Cap.InWindow(posts + [now], at, Cap.HOUR_MS) <= PER_HOUR {
      if now <= at { Cap.WindowIsRecent(posts, now, at, Cap.HOUR_MS); }
    }
  }

  /** The posts kept for a target after a visit: as they were, pruned, or pruned and one more that had room. */
  lemma VisitKeepsPosts(m: Memory, p: Pair, a: Answers, minutesMs: int, target: string)
    ensures var v := VisitPair(m, p, a, minutesMs);
      var kept, after := Cap.PostsFor(m.posts, target), Cap.PostsFor(v.memory.posts, target);
      if v.post.Some? && v.post.value.0 == target && a.ok then
        after == Cap.Recent(kept, a.now, Cap.HOUR_MS) + [a.now] && |Cap.Recent(kept, a.now, Cap.HOUR_MS)| < PER_HOUR
      else after == kept || after == Cap.Recent(kept, a.now, Cap.HOUR_MS)
  {
    hide Due, Cap.Recent, FindMarked, Needles, StageComment, WithStage;
  }

  lemma StepKeepsAccount(w: World, e: Event, minutesMs: int, target: string, posts: seq<int>, clock: int)
    requires Accounted(w.memory, target, posts, clock) && clock <= ClockOf(e, clock)
    ensures Accounted(Step(w, e, minutesMs).memory, target, PostsAfter(w, e, target, minutesMs, posts), ClockOf(e, clock))
  {
    hide VisitPair, DueOf, Cap.Recent, Cap.InWindow;
    if e.Visited? {
      VisitKeepsPosts(w.memory, e.pair, e.answers, minutesMs, target);
      var kept, now := Cap.PostsFor(w.memory.posts, target), e.answers.now;
      forall later | now <= later
        ensures Cap.Recent(Cap.Recent(kept, now, Cap.HOUR_MS), later, Cap.HOUR_MS) == Cap.Recent(posts, later, Cap.HOUR_MS)
        ensures Cap.Recent(Cap.Recent(kept, now, Cap.HOUR_MS) + [now], later, Cap.HOUR_MS) == Cap.Recent(posts + [now], later, Cap.HOUR_MS)
      {
        KeptPosts(posts, kept, now, later);
      }
      if |Cap.Recent(posts, now, Cap.HOUR_MS)| < PER_HOUR { RoomForOne(posts, now); }
    } else if e.Restart? {
      NothingPosted();
    } else if e.PollStarted? {
      assert Step(w, e, minutesMs).memory.posts == w.memory.posts;
    }
  }

  lemma NothingPosted()
    ensures forall at :: Cap.InWindow([], at, Cap.HOUR_MS) == 0
  {
  }

  lemma {:induction false} RunKeepsAccount(w: World, events: seq<Event>, minutesMs: int, target: string, posts: seq<int>, clock: int)
    requires Accounted(w.memory, target, posts, clock) && InOrder(w.memory) && Ticks(events, clock)
    ensures Accounted(After(w, events, minutesMs).memory, target, PostsFrom(w, events, target, minutesMs, posts), ClockAfter(events, clock))
    ensures InOrder(After(w, events, minutesMs).memory)
    decreases |events|
  {
    hide Accounted, InOrder, Step, PostsAfter, ClockOf;
    if events != [] {
      var e := events[0];
      StepKeepsAccount(w, e, minutesMs, target, posts, clock);
      StepKeepsOrder(w, e, minutesMs);
      RunKeepsAccount(Step(w, e, minutesMs), events[1..], minutesMs, target, PostsAfter(w, e, target, minutesMs, posts), ClockOf(e, clock));
    }
  }

  lemma {:induction false} RunFits(w: World, events: seq<Event>, p: Pair, minutesMs: int, t: Trace)
    requires Fits(w.memory, p, t, minutesMs)
    ensures Fits(After(w, events, minutesMs).memory, p, TraceFrom(w, events, p, minutesMs, t), minutesMs)
    decreases |events|
  {
    if events != [] {
      StepFits(w, events[0], p, t, minutesMs);
      hide Fits, Step, NotesFor;
      RunFits(Step(w, events[0], minutesMs), events[1..], p, minutesMs, t + NotesFor(w, events[0], p, minutesMs));
    }
  }

  lemma NothingKept(target: string, clock: int)
    ensures Accounted(Fresh.memory, target, [], clock) && InOrder(Fresh.memory)
  {
    NothingPosted();
  }

  // ---------- the results ----------

  /** After any history on a clock that never goes back, a visit with a due stage, its target's comments read, none of
      them saying that stage of that pair, and fewer than three posts on the target in the hour before, posts the
      stage's own comment there, and marks the stage if the post resolves; one already said is adopted at its own
      time; with three posts in the hour, or the comments unread, nothing is posted or marked. */
  lemma DueStagesArePosted(events: seq<Event>, p: Pair, a: Answers, minutesMs: int, k: nat, clock: int)
    requires Ticks(events, clock) && ClockAfter(events, clock) <= a.now
    requires DueAt(Observed(TraceOf(events, p, minutesMs), a.now), a, k, minutesMs)
    ensures var t := Observed(TraceOf(events, p, minutesMs), a.now);
      && MarkOf(t, 0).Some?
      && ActsOn(t, p, a, k, PostsOf(events, AttemptFor(p, a, k).target, minutesMs), VisitPair(After(Fresh, events, minutesMs).memory, p, a, minutesMs))
  {
    var target := AttemptFor(p, a, k).target;
    StartFits(p, minutesMs);
    hide Fits, Ticks, VisitPair, DueAt, Observed, ActsOn, AttemptFor, Accounted, InOrder;
    RunFits(Fresh, events, p, minutesMs, []);
    NothingKept(target, clock);
    RunKeepsAccount(Fresh, events, minutesMs, target, [], clock);
    VisitActs(After(Fresh, events, minutesMs).memory, p, a, TraceOf(events, p, minutesMs), minutesMs, k,
              PostsOf(events, target, minutesMs), ClockAfter(events, clock));
  }

  /** A visit with no stage due posts nothing and marks none. */
  lemma OnlyDueStagesArePosted(events: seq<Event>, p: Pair, a: Answers, minutesMs: int)
    requires forall k :: !DueAt(Observed(TraceOf(events, p, minutesMs), a.now), a, k, minutesMs)
    ensures var v := VisitPair(After(Fresh, events, minutesMs).memory, p, a, minutesMs); v.post.None? && NothingMarked(v.notes)
  {
    StartFits(p, minutesMs);
    hide Fits, VisitPair, DueAt, Observed, InOrder;
    RunFits(Fresh, events, p, minutesMs, []);
    NothingKept("", 0);
    RunIsInOrder(Fresh, events, minutesMs);
    IdleVisit(After(Fresh, events, minutesMs).memory, p, a, TraceOf(events, p, minutesMs), minutesMs);
  }

  lemma {:induction false} RunIsInOrder(w: World, events: seq<Event>, minutesMs: int)
    requires InOrder(w.memory)
    ensures InOrder(After(w, events, minutesMs).memory)
    decreases |events|
  {
    hide InOrder, Step;
    if events != [] {
      StepKeepsOrder(w, events[0], minutesMs);
      RunIsInOrder(Step(w, events[0], minutesMs), events[1..], minutesMs);
    }
  }

  /** And no target gets more than three posts in any hour between restarts. */
  lemma ThreePostsAnHour(events: seq<Event>, target: string, minutesMs: int, clock: int, at: int)
    requires Ticks(events, clock)
    ensures Cap.InWindow(PostsOf(events, target, minutesMs), at, Cap.HOUR_MS) <= PER_HOUR
  {
    NothingKept(target, clock);
    RunKeepsAccount(Fresh, events, minutesMs, target, [], clock);
    hide Ticks, PostsOf, Cap.InWindow, InOrder;
  }
}
