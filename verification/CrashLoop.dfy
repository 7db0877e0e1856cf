/** The crash-loop detector (src/agents/crash-loop.ts): spawn counts over a rolling window, one complaint per stay. */
module CrashLoop {
  import opened Wrappers
  import opened HourlyCap

  type Id = string

  datatype Entry = Entry(spawnTimes: seq<int>, spokenAt: Option<int>)

  /** How `postComplaint` ends: posted or adopted, not written, or the post threw. */
  datatype Outcome = Complained(at: int) | NotWritten | Threw

  /** One id of the spawn plan: the time read for it, and how its complaint would end if one is tried. */
  datatype Sighting = Sighting(id: Id, now: int, outcome: Outcome)

  datatype Poll = Poll(spawning: seq<Sighting>, desired: seq<Id>)

  datatype Limits = Limits(count: int, window: int)

  type Entries = map<Id, Entry>

  /** What a poll did, in order. */
  datatype Note = Started(desired: set<Id>) | Spawned(id: Id, at: int) | Spoke(id: Id, at: int)

  datatype Watch = Watch(entries: Entries, notes: seq<Note>)

  function IdSet(ids: seq<Id>): set<Id> { set id | id in ids }

  function EntryOf(es: Entries, id: Id): Entry {
    if id in es then es[id] else Entry([], None)
  }

  predicate FleetWide(p: Poll) { |p.desired| > 1 && |p.spawning| == |p.desired| }

  function WithSpawn(es: Entries, id: Id, now: int, window: int): Entries {
    var e := EntryOf(es, id);
    es[id := e.(spawnTimes := Recent(e.spawnTimes + [now], now, window))]
  }

  /** Whether this sighting goes as far as trying a complaint. */
  predicate Tries(es: Entries, s: Sighting, limits: Limits) {
    var e := EntryOf(WithSpawn(es, s.id, s.now, limits.window), s.id);
    |e.spawnTimes| >= limits.count && e.spokenAt.None?
  }

  function See(w: Watch, s: Sighting, limits: Limits): Watch {
    var es := WithSpawn(w.entries, s.id, s.now, limits.window);
    if Tries(w.entries, s, limits) && s.outcome.Complained? then
      Watch(es[s.id := es[s.id].(spokenAt := Some(s.outcome.at))], w.notes + [Spawned(s.id, s.now), Spoke(s.id, s.outcome.at)])
    else Watch(es, w.notes + [Spawned(s.id, s.now)])
  }

  /** The spawns in order, until a complaint throws: that ends the poll. */
  function SeeAll(w: Watch, spawning: seq<Sighting>, limits: Limits): Watch
    decreases |spawning|
  {
    if spawning == [] then w
    else
      var w1 := See(w, spawning[0], limits);
      if Tries(w.entries, spawning[0], limits) && spawning[0].outcome.Threw? then w1
      else SeeAll(w1, spawning[1..], limits)
  }

  function Forget(es: Entries, desired: set<Id>): Entries {
    map id | id in es && id in desired :: es[id]
  }

  function AfterPoll(w: Watch, p: Poll, limits: Limits): Watch {
    var w1 := Watch(Forget(w.entries, IdSet(p.desired)), w.notes + [Started(IdSet(p.desired))]);
    if FleetWide(p) then w1 else SeeAll(w1, p.spawning, limits)
  }

  function Run(polls: seq<Poll>, limits: Limits): Watch {
    if polls == [] then Watch(map[], [])
    else AfterPoll(Run(polls[..|polls| - 1], limits), polls[|polls| - 1], limits)
  }

  // ---------- the tracker as written ----------

  class CrashLoopTracker {
    var entries: Entries

    constructor ()
      ensures entries == map[]
    {
      entries := map[];
    }

    method ForgetMissing(stillDesired: set<Id>)
      modifies this
      ensures entries == Forget(old(entries), stillDesired)
    {
      ghost var was := entries;
      var left := entries.Keys;
      while left != {}
        invariant left <= was.Keys
        invariant forall id :: id in entries <==> id in was && (id in left || id in stillDesired)
        invariant forall id :: id in entries ==> entries[id] == was[id]
        decreases |left|
      {
        var id :| id in left;
        left := left - {id};
        if id !in stillDesired { entries := entries - {id}; }
      }
    }

    method RecordSpawn(id: Id, at: int, window: int) returns (times: seq<int>)
      modifies this
      ensures entries == WithSpawn(old(entries), id, at, window) && times == entries[id].spawnTimes
    {
      var e := EntryOf(entries, id);
      times := Recent(e.spawnTimes + [at], at, window);
      entries := entries[id := e.(spawnTimes := times)];
    }

    predicate IsSpoken(id: Id)
      reads this
    {
      id in entries && entries[id].spokenAt.Some?
    }

    method MarkSpoken(id: Id, at: int)
      requires id in entries
      modifies this
      ensures entries == old(entries)[id := old(entries)[id].(spokenAt := Some(at))]
    {
      entries := entries[id := entries[id].(spokenAt := Some(at))];
    }

    /** `check`, its complaints' outcomes given. */
    method Check(p: Poll, limits: Limits) returns (notes: seq<Note>)
      modifies this
      ensures Watch(entries, notes) == AfterPoll(Watch(old(entries), []), p, limits)
    {
      ForgetMissing(IdSet(p.desired));
      notes := [Started(IdSet(p.desired))];
      if |p.desired| > 1 && |p.spawning| == |p.desired| { return; }
      ghost var start := Watch(entries, notes);
      assert AfterPoll(Watch(old(entries), []), p, limits) == SeeAll(start, p.spawning, limits) by {
        assert [] + notes == notes;
      }
      for i := 0 to |p.spawning|
        invariant SeeAll(start, p.spawning, limits) == SeeAll(Watch(entries, notes), p.spawning[i..], limits)
      {
        var s := p.spawning[i];
        ghost var before := Watch(entries, notes);
        assert p.spawning[i..][0] == s && p.spawning[i..][1..] == p.spawning[i + 1..];
        var times := RecordSpawn(s.id, s.now, limits.window);
        notes := notes + [Spawned(s.id, s.now)];
        if |times| >= limits.count && !IsSpoken(s.id) {
          if s.outcome.Threw? {
            assert Watch(entries, notes) == See(before, s, limits) && Tries(before.entries, s, limits);
            assert SeeAll(before, p.spawning[i..], limits) == Watch(entries, notes);
            return;
          }
          if s.outcome.Complained? {
            MarkSpoken(s.id, s.outcome.at);
            notes := notes + [Spoke(s.id, s.outcome.at)];
            assert before.notes + [Spawned(s.id, s.now), Spoke(s.id, s.outcome.at)] == notes;
          }
        }
        assert Watch(entries, notes) == See(before, s, limits);
      }
    }
  }

  // ---------- what the notes amount to ----------

  /** The spawns recorded for an id since it was last out of the desired set. */
  function Stay(notes: seq<Note>, id: Id): seq<int> {
    if notes == [] then []
    else
      var before := notes[..|notes| - 1];
      match notes[|notes| - 1]
      case Started(desired) => if id in desired then Stay(before, id) else []
      case Spawned(other, at) => if other == id then Stay(before, id) + [at] else Stay(before, id)
      case Spoke(_, _) => Stay(before, id)
  }

  /** Whether its complaint has been made in that stay. */
  predicate Spoken(notes: seq<Note>, id: Id) {
    if notes == [] then false
    else
      var before := notes[..|notes| - 1];
      match notes[|notes| - 1]
      case Started(desired) => id in desired && Spoken(before, id)
      case Spawned(_, _) => Spoken(before, id)
      case Spoke(other, _) => other == id || Spoken(before, id)
  }

  /** The clock of the recorded spawns never goes back. */
  predicate Ticks(notes: seq<Note>) {
    forall i, j :: 0 <= i < j < |notes| && notes[i].Spawned? && notes[j].Spawned? ==> notes[i].at <= notes[j].at
  }

  /** The list kept for an id is the stay's spawns that were in the window when the last was recorded. */
  function Kept(notes: seq<Note>, id: Id, window: int): seq<int> {
    var stay := Stay(notes, id);
    if stay == [] then [] else Recent(stay, stay[|stay| - 1], window)
  }

  ghost predicate Faithful(w: Watch, id: Id, window: int) {
    && EntryOf(w.entries, id).spawnTimes == Kept(w.notes, id, window)
    && (EntryOf(w.entries, id).spokenAt.Some? <==> Spoken(w.notes, id))
  }

  /** Each complaint is made at most once in a stay, and only over the threshold. */
  predicate Sound(notes: seq<Note>, limits: Limits) {
    notes == [] ||
    var before, last := notes[..|notes| - 1], notes[|notes| - 1];
    Sound(before, limits) &&
    (last.Spoke? ==> !Spoken(before, last.id) && |Kept(before, last.id, limits.window)| >= limits.count)
  }

  lemma OneNoteMore(notes: seq<Note>, n: Note)
    ensures (notes + [n])[..|notes|] == notes && (notes + [n])[|notes|] == n
  {
  }

  lemma {:induction false} StayIsRecorded(notes: seq<Note>, id: Id, at: int)
    requires Stay(notes, id) != [] && Stay(notes, id)[|Stay(notes, id)| - 1] == at
    ensures exists i :: 0 <= i < |notes| && notes[i] == Spawned(id, at)
  {
    var before := notes[..|notes| - 1];
    if notes[|notes| - 1] == Spawned(id, at) {
    } else {
      StayIsRecorded(before, id, at);
      var i :| 0 <= i < |before| && before[i] == Spawned(id, at);
      assert notes[i] == Spawned(id, at);
    }
  }

  /** Recording on the pruned list is recording on the whole stay. */
  lemma SpawnKeeps(notes: seq<Note>, id: Id, now: int, window: int)
    requires Ticks(notes + [Spawned(id, now)])
    ensures Kept(notes + [Spawned(id, now)], id, window) == Recent(Kept(notes, id, window) + [now], now, window)
  {
    OneNoteMore(notes, Spawned(id, now));
    var stay := Stay(notes, id);
    var all := notes + [Spawned(id, now)];
    assert Stay(all, id) == stay + [now];
    RecentInParts(stay, [now], now, window);
    RecentInParts(Kept(notes, id, window), [now], now, window);
    if stay != [] {
      var last := stay[|stay| - 1];
      StayIsRecorded(notes, id, last);
      var i :| 0 <= i < |notes| && notes[i] == Spawned(id, last);
      assert all[i] == Spawned(id, last) && all[|notes|] == Spawned(id, now);
      RecentTwice(stay, last, now, window);
    }
  }

  lemma SeeIsFaithful(w: Watch, s: Sighting, id: Id, limits: Limits)
    requires Faithful(w, id, limits.window) && Faithful(w, s.id, limits.window) && Sound(w.notes, limits)
    requires Ticks(See(w, s, limits).notes)
    ensures Faithful(See(w, s, limits), id, limits.window) && Sound(See(w, s, limits).notes, limits)
  {
    var spawned := w.notes + [Spawned(s.id, s.now)];
    var w' := See(w, s, limits);
    OneNoteMore(w.notes, Spawned(s.id, s.now));
    assert Ticks(spawned) by {
      assert forall i :: 0 <= i < |spawned| ==> spawned[i] == w'.notes[i];
    }
    SpawnKeeps(w.notes, s.id, s.now, limits.window);
    hide Ticks, Recent, Kept;
    if s.id != id { KeptElsewhere(w.notes, Spawned(s.id, s.now), id, limits.window); }
    if w'.notes != spawned {
      var spoke := Spoke(s.id, s.outcome.at);
      assert w'.notes == spawned + [spoke];
      OneNoteMore(spawned, spoke);
      KeptElsewhere(spawned, spoke, id, limits.window);
      KeptElsewhere(spawned, spoke, s.id, limits.window);
    }
  }

  lemma KeptElsewhere(notes: seq<Note>, n: Note, id: Id, window: int)
    requires n.Spoke? || (n.Spawned? && n.id != id)
    ensures Kept(notes + [n], id, window) == Kept(notes, id, window)
    ensures n.Spawned? ==> Spoken(notes + [n], id) == Spoken(notes, id)
  {
    OneNoteMore(notes, n);
  }

  ghost predicate AllFaithful(w: Watch, limits: Limits) {
    Sound(w.notes, limits) && forall id :: Faithful(w, id, limits.window)
  }

  lemma NotesGrow(w: Watch, spawning: seq<Sighting>, limits: Limits)
    ensures w.notes <= SeeAll(w, spawning, limits).notes
    decreases |spawning|
  {
    if spawning != [] { NotesGrow(See(w, spawning[0], limits), spawning[1..], limits); }
  }

  lemma TicksPrefix(a: seq<Note>, b: seq<Note>)
    requires a <= b && Ticks(b)
    ensures Ticks(a)
  {
    assert forall i :: 0 <= i < |a| ==> a[i] == b[i];
  }

  lemma {:induction false} SeeAllIsFaithful(w: Watch, spawning: seq<Sighting>, limits: Limits)
    requires AllFaithful(w, limits) && Ticks(SeeAll(w, spawning, limits).notes)
    ensures AllFaithful(SeeAll(w, spawning, limits), limits)
    decreases |spawning|
  {
    if spawning != [] {
      var w1 := See(w, spawning[0], limits);
      NotesGrow(w1, spawning[1..], limits);
      TicksPrefix(w1.notes, SeeAll(w, spawning, limits).notes);
      hide Faithful, See, Ticks, Sound, Tries;
      SeeIsFaithful(w, spawning[0], spawning[0].id, limits);
      forall id ensures Faithful(w1, id, limits.window) {
        SeeIsFaithful(w, spawning[0], id, limits);
      }
      if w1 != SeeAll(w, spawning, limits) { SeeAllIsFaithful(w1, spawning[1..], limits); }
    }
  }

  lemma ForgetIsFaithful(w: Watch, desired: set<Id>, limits: Limits)
    requires AllFaithful(w, limits)
    ensures AllFaithful(Watch(Forget(w.entries, desired), w.notes + [Started(desired)]), limits)
  {
    OneNoteMore(w.notes, Started(desired));
    hide Recent;
    forall id ensures Faithful(Watch(Forget(w.entries, desired), w.notes + [Started(desired)]), id, limits.window) {
      assert Faithful(w, id, limits.window);
    }
  }

  /** Over any run with a clock that never goes back, each id's list is its stay's spawns still in the
      window, and its latch says whether the stay has had its complaint. */
  lemma {:induction false} TrackerKeepsTheStay(polls: seq<Poll>, limits: Limits)
    requires Ticks(Run(polls, limits).notes)
    ensures AllFaithful(Run(polls, limits), limits)
    decreases |polls|
  {
    if polls != [] {
      var before, p := Run(polls[..|polls| - 1], limits), polls[|polls| - 1];
      var started := Watch(Forget(before.entries, IdSet(p.desired)), before.notes + [Started(IdSet(p.desired))]);
      NotesGrow(started, p.spawning, limits);
      TicksPrefix(before.notes, Run(polls, limits).notes);
      hide AllFaithful, Ticks, SeeAll, Forget;
      TrackerKeepsTheStay(polls[..|polls| - 1], limits);
      ForgetIsFaithful(before, IdSet(p.desired), limits);
      if !FleetWide(p) { SeeAllIsFaithful(started, p.spawning, limits); }
    }
  }

  lemma {:induction false} SoundAt(notes: seq<Note>, limits: Limits, i: nat)
    requires Sound(notes, limits) && i < |notes| && notes[i].Spoke?
    ensures !Spoken(notes[..i], notes[i].id) && |Kept(notes[..i], notes[i].id, limits.window)| >= limits.count
    decreases |notes|
  {
    if i < |notes| - 1 {
      assert notes[..|notes| - 1][..i] == notes[..i];
      SoundAt(notes[..|notes| - 1], limits, i);
    }
  }

  lemma {:induction false} SpokenStays(notes: seq<Note>, id: Id, i: nat)
    requires i < |notes| && notes[i].Spoke? && notes[i].id == id && !Spoken(notes, id)
    ensures exists k :: i < k < |notes| && notes[k].Started? && id !in notes[k].desired
    decreases |notes|
  {
    var n := |notes| - 1;
    if notes[n].Started? && id !in notes[n].desired {
    } else {
      SpokenStays(notes[..n], id, i);
      var k :| i < k < n && notes[..n][k].Started? && id !in notes[..n][k].desired;
      assert notes[k].Started? && id !in notes[k].desired;
    }
  }

  /** One continuous stay in the desired set brings at most one complaint, made with at least `count`
      spawns of that stay in the window; being out of the spawn plan for a while does not reset it. */
  lemma OneComplaintPerStay(polls: seq<Poll>, limits: Limits, i: nat, j: nat)
    requires Ticks(Run(polls, limits).notes) && i < j < |Run(polls, limits).notes|
    requires Run(polls, limits).notes[i].Spoke? && Run(polls, limits).notes[j].Spoke?
    requires Run(polls, limits).notes[i].id == Run(polls, limits).notes[j].id
    ensures var notes := Run(polls, limits).notes;
      && (exists k :: i < k < j && notes[k].Started? && notes[j].id !in notes[k].desired)
      && |Kept(notes[..j], notes[j].id, limits.window)| >= limits.count
  {
    var notes := Run(polls, limits).notes;
    TrackerKeepsTheStay(polls, limits);
    SoundAt(notes, limits, j);
    hide Run, Kept, Sound, Faithful;
    SpokenStays(notes[..j], notes[j].id, i);
    var k :| i < k < j && notes[..j][k].Started? && notes[j].id !in notes[..j][k].desired;
    assert notes[k].Started? && notes[j].id !in notes[k].desired;
  }
}
