/** The abandoned-worker detector (src/agents/abandoned.ts): staged escalation that survives restarts through its own comments. */
module Abandoned {
  import opened Wrappers
  import opened CommentText
  import opened StageText
  import HourlyCap

  const MAX_PER_HOUR := 3

  // ---------- abandonedCandidates ----------

  datatype Link = Link(linkType: string, inward: bool, key: string, status: Option<string>)

  datatype Issue = Issue(key: string, status: string, links: seq<Link>)

  /** A worker and the Done boss it implements. */
  datatype Pair = Pair(worker: string, boss: string)

  predicate Abandons(l: Link) { l.linkType == "Implements" && l.inward && l.status == Some("Done") }

  /** The loops of `abandonedCandidates`: exactly the open issues' links to a boss confirmed Done. */
  method AbandonedCandidates(issues: seq<Issue>) returns (out: seq<Pair>)
    ensures forall p :: p in out <==>
        exists i, j :: 0 <= i < |issues| && 0 <= j < |issues[i].links| && CandidateAt(issues, i, j, p)
  {
    out := [];
    for i := 0 to |issues|
      invariant forall p :: p in out <==>
          exists k, j :: 0 <= k < i && 0 <= j < |issues[k].links| && CandidateAt(issues, k, j, p)
    {
      var worker := issues[i];
      if worker.status == "Done" { continue; }
      ghost var before := out;
      for j := 0 to |worker.links|
        invariant forall p :: p in out <==> p in before || exists m :: 0 <= m < j && CandidateAt(issues, i, m, p)
      {
        var link := worker.links[j];
        if link.linkType != "Implements" || !link.inward { continue; }
        if link.status != Some("Done") { continue; }
        ghost var was := out;
        out := out + [Pair(worker.key, link.key)];
        assert CandidateAt(issues, i, j, Pair(worker.key, link.key));
        assert forall p :: p in out <==> p in was || p == Pair(worker.key, link.key);
      }
    }
  }

  predicate CandidateAt(issues: seq<Issue>, i: nat, j: nat, p: Pair)
    requires i < |issues| && j < |issues[i].links|
  {
    issues[i].status != "Done" && Abandons(issues[i].links[j]) && p == Pair(issues[i].key, issues[i].links[j].key)
  }

  // ---------- one visit to a candidate ----------

  datatype Entry = Entry(firstObservedAt: int, stage1At: Option<int>, stage2At: Option<int>, stage3At: Option<int>)

  datatype Memory = Memory(entries: map<Pair, Entry>, posts: HourlyCap.Posts)

  /** What the calls of one visit answer: the boss's own boss (None when it could not be read), the
      target's comments (likewise), and whether a post, if made, resolves. */
  datatype Answers = Answers(now: int, bossOfBoss: Option<Option<string>>, rows: Option<seq<Comment>>, ok: bool)

  /** What is noted for a pair; stage 0 is its first observation. */
  datatype Note = Marked(stage: nat, at: int) | Tried(stage: nat, at: int) | Reset

  datatype Attempt = Attempt(target: string, stage: Stage)

  datatype Visit = Visit(memory: Memory, notes: seq<Note>, post: Option<(string, string)>)

  function Observe(m: Memory, p: Pair, now: int): (seen: Memory)
    ensures p in seen.entries
  {
    if p in m.entries then m else m.(entries := m.entries[p := Entry(now, None, None, None)])
  }

  function StageNo(s: Stage): nat {
    match s case One => 1 case Two => 2 case _ => 3
  }

  /** The stage that is due, if any, and where it goes. */
  function Due(e: Entry, p: Pair, a: Answers, minutesMs: int): Option<Attempt> {
    if e.stage1At.None? then
      if a.now - e.firstObservedAt < minutesMs then None else Some(Attempt(p.worker, One))
    else if e.stage2At.None? then
      if a.now - e.stage1At.value < minutesMs then None else Some(Attempt(p.worker, Two))
    else if e.stage3At.None? then
      if a.now - e.stage2At.value < minutesMs || a.bossOfBoss.None? then None
      else if a.bossOfBoss.value.Some? then Some(Attempt(a.bossOfBoss.value.value, ThreeEscalated(a.bossOfBoss.value.value)))
      else Some(Attempt(p.boss, ThreeTerminal))
    else None
  }

  function WithStage(e: Entry, s: Stage, at: int): Entry {
    match s
    case One => e.(stage1At := Some(at))
    case Two => e.(stage2At := Some(at))
    case _ => e.(stage3At := Some(at))
  }

  /** `Math.round` of the minutes since the first observation. */
  function ElapsedMinutes(e: Entry, now: int): nat {
    if now < e.firstObservedAt then 0 else (now - e.firstObservedAt + 30_000) / 60_000
  }

  function Body(e: Entry, p: Pair, s: Stage, now: int): string {
    StageComment(s, p.worker, p.boss, ElapsedMinutes(e, now))
  }

  function Recorded(m: Memory, p: Pair, s: Stage, at: int): Memory
    requires p in m.entries
  {
    m.(entries := m.entries[p := WithStage(m.entries[p], s, at)])
  }

  /** `postStage`: adopt, or post within the hourly cap, or nothing. */
  function PostStage(m: Memory, p: Pair, t: Attempt, a: Answers): Visit
    requires p in m.entries
  {
    var n := StageNo(t.stage);
    var tried := [Tried(n, a.now)];
    if a.rows.None? then Visit(m, tried, None)
    else
      var existing := FindMarked(a.rows.value, ABANDONED, Needles(Tag(t.stage), p.worker, p.boss));
      if existing.Some? then
        var at := TimeOr(existing.value.created, a.now);
        Visit(Recorded(m, p, t.stage, at), tried + [Marked(n, at)], None)
      else
        var m1 := m.(posts := HourlyCap.After(m.posts, HourlyCap.Allow(t.target, a.now), HourlyCap.HOUR_MS));
        if |HourlyCap.PostsFor(m1.posts, t.target)| >= MAX_PER_HOUR then Visit(m1, tried, None)
        else
          var post := Some((t.target, Body(m.entries[p], p, t.stage, a.now)));
          if !a.ok then Visit(m1, tried, post)
          else
            Visit(Recorded(m1, p, t.stage, a.now).(posts := HourlyCap.After(m1.posts, HourlyCap.Record(t.target, a.now), HourlyCap.HOUR_MS)),
                  tried + [Marked(n, a.now)], post)
  }

  function VisitPair(m: Memory, p: Pair, a: Answers, minutesMs: int): Visit {
    var m1 := Observe(m, p, a.now);
    var seen := if p in m.entries then [] else [Marked(0, a.now)];
    var due := Due(m1.entries[p], p, a, minutesMs);
    if due.None? then Visit(m1, seen, None)
    else
      var v := PostStage(m1, p, due.value, a);
      v.(notes := seen + v.notes)
  }

  function Forget(m: Memory, candidates: set<Pair>): Memory {
    m.(entries := map p | p in m.entries && p in candidates :: m.entries[p])
  }

  // ---------- the detector as written ----------

  class AbandonedDetector {
    const minutesMs: int
    const rateCap: HourlyCap.RateCap
    var entries: map<Pair, Entry>

    function Model(): Memory
      reads this, rateCap
    {
      Memory(entries, rateCap.posts)
    }

    ghost predicate Valid()
      reads this, rateCap
    {
      rateCap.max == MAX_PER_HOUR && rateCap.window == HourlyCap.HOUR_MS
    }

    constructor (minutes: int)
      ensures Valid() && Model() == Memory(map[], map[]) && minutesMs == minutes * 60_000
      ensures fresh(rateCap)
    {
      minutesMs := minutes * 60_000;
      rateCap := new HourlyCap.RateCap(MAX_PER_HOUR, HourlyCap.HOUR_MS);
      entries := map[];
    }

    method ForgetMissing(stillCandidates: set<Pair>)
      requires Valid()
      modifies this`entries
      ensures Valid() && Model() == Forget(old(Model()), stillCandidates)
    {
      ghost var was := entries;
      var left := entries.Keys;
      while left != {}
        invariant left <= was.Keys
        invariant forall p :: p in entries <==> p in was && (p in left || p in stillCandidates)
        invariant forall p :: p in entries ==> entries[p] == was[p]
        decreases |left|
      {
        var p :| p in left;
        left := left - {p};
        if p !in stillCandidates { entries := entries - {p}; }
      }
      assert entries == Forget(old(Model()), stillCandidates).entries;
    }

    /** `postStage` on the entry of a pair. */
    method Post(p: Pair, t: Attempt, a: Answers) returns (notes: seq<Note>, post: Option<(string, string)>)
      requires Valid() && p in entries
      modifies this`entries, rateCap
      ensures Valid() && Visit(Model(), notes, post) == PostStage(old(Model()), p, t, a)
    {
      hide FindMarked, StageComment, Needles, HourlyCap.Recent;
      var e := entries[p];
      notes, post := [Tried(StageNo(t.stage), a.now)], None;
      if a.rows.None? { return; }
      var existing := FindMarked(a.rows.value, ABANDONED, Needles(Tag(t.stage), p.worker, p.boss));
      if existing.Some? {
        var adoptedAt := TimeOr(existing.value.created, a.now);
        entries := entries[p := WithStage(e, t.stage, adoptedAt)];
        notes := notes + [Marked(StageNo(t.stage), adoptedAt)];
        return;
      }
      var allowed := rateCap.AllowPost(t.target, a.now);
      if !allowed { return; }
      post := Some((t.target, Body(e, p, t.stage, a.now)));
      if !a.ok { return; }
      rateCap.RecordPost(t.target, a.now);
      entries := entries[p := WithStage(e, t.stage, a.now)];
      notes := notes + [Marked(StageNo(t.stage), a.now)];
    }

    /** The body of `check`'s loop. */
    method VisitCandidate(p: Pair, a: Answers) returns (notes: seq<Note>, post: Option<(string, string)>)
      requires Valid()
      modifies this`entries, rateCap
      ensures Valid() && Visit(Model(), notes, post) == VisitPair(old(Model()), p, a, minutesMs)
    {
      hide PostStage;
      notes, post := [], None;
      if p !in entries {
        entries := entries[p := Entry(a.now, None, None, None)];
        notes := [Marked(0, a.now)];
      }
      ghost var seen := Model();
      assert seen == Observe(old(Model()), p, a.now);
      var e := entries[p];
      var t: Attempt;
      if e.stage1At.None? {
        if a.now - e.firstObservedAt < minutesMs { return; }
        t := Attempt(p.worker, One);
      } else if e.stage2At.None? {
        if a.now - e.stage1At.value < minutesMs { return; }
        t := Attempt(p.worker, Two);
      } else if e.stage3At.None? {
        if a.now - e.stage2At.value < minutesMs { return; }
        if a.bossOfBoss.None? { return; }
        if a.bossOfBoss.value.Some? {
          t := Attempt(a.bossOfBoss.value.value, ThreeEscalated(a.bossOfBoss.value.value));
        } else {
          t := Attempt(p.boss, ThreeTerminal);
        }
      } else {
        return;
      }
      var more, made := Post(p, t, a);
      notes, post := notes + more, made;
    }
  }
}
