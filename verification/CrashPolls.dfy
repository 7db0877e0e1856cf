/**
 The crash-loop detector said from its polls alone: which sightings count towards an id's stay, which of them bring
 a complaint, and where a poll ends (src/agents/crash-loop.ts).
 */
module CrashPolls {
  import opened Wrappers
  import opened HourlyCap
  import opened CrashLoop

  // ---------- positions: a list of polls, and how many sightings of the last have been gone through ----------

  function Last(polls: seq<Poll>): Poll
    requires polls != []
  {
    polls[|polls| - 1]
  }

  predicate Within(polls: seq<Poll>, k: nat) { if polls == [] then k == 0 else k <= |Last(polls).spawning| }

  /** The whole of a fleet of several is to be spawned: the poll says nothing about any one of them. */
  predicate WholeFleet(p: Poll) { 1 < |p.desired| == |p.spawning| }

  /** The times the id has been sighted since it was last not desired. */
  ghost function StayTimes(polls: seq<Poll>, k: nat, id: Id, limits: Limits): seq<int>
    requires Within(polls, k)
    decreases |polls|, 0, k, 0
  {
    if polls == [] then []
    else if k == 0 then
      if id in Last(polls).desired then StayTimes(polls[..|polls| - 1], Reach(polls[..|polls| - 1], limits), id, limits) else []
    else
      var s := Last(polls).spawning[k - 1];
      StayTimes(polls, k - 1, id, limits) + if s.id == id then [s.now] else []
  }

  /** Whether it has had its complaint in that time. */
  ghost predicate HadComplaint(polls: seq<Poll>, k: nat, id: Id, limits: Limits)
    requires Within(polls, k)
    decreases |polls|, 0, k, 2
  {
    if polls == [] then false
    else if k == 0 then
      id in Last(polls).desired && HadComplaint(polls[..|polls| - 1], Reach(polls[..|polls| - 1], limits), id, limits)
    else HadComplaint(polls, k - 1, id, limits) || (Last(polls).spawning[k - 1].id == id && Speaks(polls, k - 1, limits))
  }

  /** At this sighting the id has been sighted often enough within the window, and has had no complaint. */
  ghost predicate AtThreshold(polls: seq<Poll>, j: nat, limits: Limits)
    requires polls != [] && j < |Last(polls).spawning|
    decreases |polls|, 0, j + 1, 0
  {
    var s := Last(polls).spawning[j];
    && |Recent(StayTimes(polls, j, s.id, limits) + [s.now], s.now, limits.window)| >= limits.count
    && !HadComplaint(polls, j, s.id, limits)
  }

  ghost predicate Speaks(polls: seq<Poll>, j: nat, limits: Limits)
    requires polls != [] && j < |Last(polls).spawning|
    decreases |polls|, 0, j + 1, 1
  {
    AtThreshold(polls, j, limits) && Last(polls).spawning[j].outcome.Complained?
  }

  /** How far a poll gets: nowhere for a whole fleet, and no further than a complaint that throws. */
  ghost function Reach(polls: seq<Poll>, limits: Limits): (k: nat)
    ensures Within(polls, k)
    decreases |polls|, 2, 0, 0
  {
    if polls == [] || WholeFleet(Last(polls)) then 0 else ReachFrom(polls, 0, limits)
  }

  ghost function ReachFrom(polls: seq<Poll>, j: nat, limits: Limits): (k: nat)
    requires polls != [] && j <= |Last(polls).spawning|
    ensures j <= k <= |Last(polls).spawning|
    decreases |polls|, 1, |Last(polls).spawning| - j, 0
  {
    if j == |Last(polls).spawning| then j
    else if AtThreshold(polls, j, limits) && Last(polls).spawning[j].outcome.Threw? then j + 1
    else ReachFrom(polls, j + 1, limits)
  }

  /** The complaints made about the id, over all polls. */
  ghost function Complaints(polls: seq<Poll>, k: nat, id: Id, limits: Limits): seq<int>
    requires Within(polls, k)
    decreases |polls|, k
  {
    if polls == [] then []
    else if k == 0 then Complaints(polls[..|polls| - 1], Reach(polls[..|polls| - 1], limits), id, limits)
    else
      var s := Last(polls).spawning[k - 1];
      Complaints(polls, k - 1, id, limits) + if s.id == id && Speaks(polls, k - 1, limits) then [s.outcome.at] else []
  }

  /** Every time a sighting read the clock. */
  ghost function Clock(polls: seq<Poll>, k: nat, limits: Limits): seq<int>
    requires Within(polls, k)
    decreases |polls|, k
  {
    if polls == [] then []
    else if k == 0 then Clock(polls[..|polls| - 1], Reach(polls[..|polls| - 1], limits), limits)
    else Clock(polls, k - 1, limits) + [Last(polls).spawning[k - 1].now]
  }

  predicate Ascending(times: seq<int>) {
    forall i, j :: 0 <= i < j < |times| ==> times[i] <= times[j]
  }

  /** The part of a list that is in the window at its last time. */
  function InItsWindow(times: seq<int>, window: int): seq<int> {
    if times == [] then [] else Recent(times, times[|times| - 1], window)
  }

  /** The complaints among the notes. */
  function SpokeTimes(notes: seq<Note>, id: Id): seq<int> {
    if notes == [] then []
    else
      var last := notes[|notes| - 1];
      SpokeTimes(notes[..|notes| - 1], id) + if last.Spoke? && last.id == id then [last.at] else []
  }

  // ---------- the tracker is where the polls say ----------

  ghost predicate Shows(w: Watch, polls: seq<Poll>, k: nat, id: Id, limits: Limits)
    requires Within(polls, k)
  {
    && EntryOf(w.entries, id).spawnTimes == InItsWindow(StayTimes(polls, k, id, limits), limits.window)
    && (EntryOf(w.entries, id).spokenAt.Some? <==> HadComplaint(polls, k, id, limits))
    && SpokeTimes(w.notes, id) == Complaints(polls, k, id, limits)
  }

  lemma {:induction false} StayIsOnTheClock(polls: seq<Poll>, k: nat, id: Id, limits: Limits)
    requires Within(polls, k)
    ensures forall t :: t in StayTimes(polls, k, id, limits) ==> t in Clock(polls, k, limits)
    decreases |polls|, k
  {
    if polls != [] {
      if k > 0 { StayIsOnTheClock(polls, k - 1, id, limits); }
      else { StayIsOnTheClock(polls[..|polls| - 1], Reach(polls[..|polls| - 1], limits), id, limits); }
    }
  }

  /** Counting on the pruned list is counting on the whole stay. */
  lemma CountedOnStay(stay: seq<int>, now: int, window: int)
    requires stay != [] ==> stay[|stay| - 1] <= now
    ensures Recent(InItsWindow(stay, window) + [now], now, window) == Recent(stay + [now], now, window)
    ensures InItsWindow(stay + [now], window) == Recent(stay + [now], now, window)
  {
    RecentInParts(stay, [now], now, window);
    RecentInParts(InItsWindow(stay, window), [now], now, window);
    if stay != [] { RecentTwice(stay, stay[|stay| - 1], now, window); }
  }

  lemma SightingIsLatest(polls: seq<Poll>, j: nat, limits: Limits)
    requires polls != [] && j < |Last(polls).spawning| && Ascending(Clock(polls, j + 1, limits))
    ensures var s := Last(polls).spawning[j]; var stay := StayTimes(polls, j, s.id, limits);
      stay != [] ==> stay[|stay| - 1] <= s.now
  {
    var s := Last(polls).spawning[j];
    var stay, clock := StayTimes(polls, j, s.id, limits), Clock(polls, j, limits);
    StayIsOnTheClock(polls, j, s.id, limits);
    assert Clock(polls, j + 1, limits) == clock + [s.now];
    hide StayTimes, Clock;
    if stay != [] {
      var last := stay[|stay| - 1];
      assert last in stay;
      var i :| 0 <= i < |clock| && clock[i] == last;
      assert (clock + [s.now])[i] == last && (clock + [s.now])[|clock|] == s.now;
    }
  }

  /** A sighting tries a complaint exactly when the polls put it at the threshold. */
  lemma TriesAtThreshold(w: Watch, polls: seq<Poll>, j: nat, limits: Limits)
    requires polls != [] && j < |Last(polls).spawning| && Ascending(Clock(polls, j + 1, limits))
    requires Shows(w, polls, j, Last(polls).spawning[j].id, limits)
    ensures Tries(w.entries, Last(polls).spawning[j], limits) <==> AtThreshold(polls, j, limits)
  {
    var s := Last(polls).spawning[j];
    SightingIsLatest(polls, j, limits);
    CountedOnStay(StayTimes(polls, j, s.id, limits), s.now, limits.window);
    hide StayTimes, HadComplaint, Recent, InItsWindow, Clock, Complaints;
  }

  lemma NotesAfter(notes: seq<Note>, n: Note, id: Id)
    ensures SpokeTimes(notes + [n], id) == SpokeTimes(notes, id) + if n.Spoke? && n.id == id then [n.at] else []
  {
    assert (notes + [n])[..|notes|] == notes;
  }

  lemma SeeNotes(w: Watch, s: Sighting, limits: Limits, id: Id)
    ensures SpokeTimes(See(w, s, limits).notes, id)
            == SpokeTimes(w.notes, id) + if s.id == id && Tries(w.entries, s, limits) && s.outcome.Complained? then [s.outcome.at] else []
  {
    hide Tries, WithSpawn, SpokeTimes;
    var spawned := w.notes + [Spawned(s.id, s.now)];
    NotesAfter(w.notes, Spawned(s.id, s.now), id);
    if Tries(w.entries, s, limits) && s.outcome.Complained? {
      NotesAfter(spawned, Spoke(s.id, s.outcome.at), id);
      assert spawned + [Spoke(s.id, s.outcome.at)] == See(w, s, limits).notes;
    }
  }

  lemma SeeShows(w: Watch, polls: seq<Poll>, j: nat, id: Id, limits: Limits)
    requires polls != [] && j < |Last(polls).spawning| && Ascending(Clock(polls, j + 1, limits))
    requires Shows(w, polls, j, Last(polls).spawning[j].id, limits) && Shows(w, polls, j, id, limits)
    ensures Shows(See(w, Last(polls).spawning[j], limits), polls, j + 1, id, limits)
  {
    hide AtThreshold, SpokeTimes, Recent, InItsWindow, Clock, Ascending, Tries, See, WithSpawn, EntryOf;
    var s := Last(polls).spawning[j];
    TriesAtThreshold(w, polls, j, limits);
    SeeNotes(w, s, limits, id);
    SightingIsLatest(polls, j, limits);
    CountedOnStay(StayTimes(polls, j, s.id, limits), s.now, limits.window);
    OneSightingMore(polls, j, id, limits);
    SeeEntry(w.entries, w, s, limits, id);
    assert StayTimes(polls, j, id, limits) + [] == StayTimes(polls, j, id, limits);
  }

  lemma OneSightingMore(polls: seq<Poll>, j: nat, id: Id, limits: Limits)
    requires polls != [] && j < |Last(polls).spawning|
    ensures var s := Last(polls).spawning[j];
      && StayTimes(polls, j + 1, id, limits) == StayTimes(polls, j, id, limits) + (if s.id == id then [s.now] else [])
      && (HadComplaint(polls, j + 1, id, limits) <==> HadComplaint(polls, j, id, limits) || (s.id == id && Speaks(polls, j, limits)))
      && Complaints(polls, j + 1, id, limits)
         == Complaints(polls, j, id, limits) + (if s.id == id && Speaks(polls, j, limits) then [s.outcome.at] else [])
  {
    hide AtThreshold;
  }

  lemma SeeEntry(es: Entries, w: Watch, s: Sighting, limits: Limits, id: Id)
    requires es == w.entries
    ensures var e, e' := EntryOf(es, id), EntryOf(See(w, s, limits).entries, id);
      && e'.spawnTimes == (if s.id == id then Recent(e.spawnTimes + [s.now], s.now, limits.window) else e.spawnTimes)
      && (e'.spokenAt.Some? <==> e.spokenAt.Some? || (s.id == id && Tries(es, s, limits) && s.outcome.Complained?))
  {
    hide Tries, Recent;
  }

  ghost predicate ShowsAll(w: Watch, polls: seq<Poll>, k: nat, limits: Limits)
    requires Within(polls, k)
  {
    forall id :: Shows(w, polls, k, id, limits)
  }

  /** The clock up to a sighting is the beginning of the whole. */
  lemma {:induction false} ClockPrefix(polls: seq<Poll>, j: nat, k: nat, limits: Limits)
    requires polls != [] && j <= k && Within(polls, k)
    ensures Clock(polls, j, limits) <= Clock(polls, k, limits)
    decreases k
  {
    if j < k { ClockPrefix(polls, j, k - 1, limits); }
  }

  lemma AscendingPrefix(a: seq<int>, b: seq<int>)
    requires a <= b && Ascending(b)
    ensures Ascending(a)
  {
    assert forall i :: 0 <= i < |a| ==> a[i] == b[i];
  }

  /** A poll goes as far as it reaches, and shows what the polls say. */
  lemma {:induction false} SeeAllShows(w: Watch, polls: seq<Poll>, j: nat, limits: Limits)
    requires polls != [] && j <= |Last(polls).spawning| && ShowsAll(w, polls, j, limits)
    requires Ascending(Clock(polls, ReachFrom(polls, j, limits), limits))
    ensures ShowsAll(SeeAll(w, Last(polls).spawning[j..], limits), polls, ReachFrom(polls, j, limits), limits)
    decreases |Last(polls).spawning| - j
  {
    hide Shows, See, Tries, Clock, Ascending, AtThreshold;
    var spawning := Last(polls).spawning;
    if j < |spawning| {
      var s := spawning[j];
      assert spawning[j..][0] == s && spawning[j..][1..] == spawning[j + 1..];
      ClockPrefix(polls, j + 1, ReachFrom(polls, j, limits), limits);
      AscendingPrefix(Clock(polls, j + 1, limits), Clock(polls, ReachFrom(polls, j, limits), limits));
      assert Shows(w, polls, j, s.id, limits);
      TriesAtThreshold(w, polls, j, limits);
      var seen, k := See(w, s, limits), j + 1;
      forall id ensures Shows(seen, polls, k, id, limits) {
        SeeShows(w, polls, j, id, limits);
      }
      if !(AtThreshold(polls, j, limits) && s.outcome.Threw?) { SeeAllShows(See(w, s, limits), polls, j + 1, limits); }
    }
  }

  /** A poll starts by forgetting the ids no longer desired. */
  lemma StartShows(w: Watch, polls: seq<Poll>, limits: Limits)
    requires polls != [] && ShowsAll(w, polls[..|polls| - 1], Reach(polls[..|polls| - 1], limits), limits)
    ensures var desired := IdSet(Last(polls).desired);
      ShowsAll(Watch(Forget(w.entries, desired), w.notes + [Started(desired)]), polls, 0, limits)
  {
    hide Reach, SpokeTimes, Recent;
    var desired, before := IdSet(Last(polls).desired), polls[..|polls| - 1];
    var start := Watch(Forget(w.entries, desired), w.notes + [Started(desired)]);
    forall id ensures Shows(start, polls, 0, id, limits) {
      assert Shows(w, before, Reach(before, limits), id, limits);
      NotesAfter(w.notes, Started(desired), id);
    }
  }

  lemma {:induction false} RunShows(polls: seq<Poll>, limits: Limits)
    requires Ascending(Clock(polls, Reach(polls, limits), limits))
    ensures ShowsAll(Run(polls, limits), polls, Reach(polls, limits), limits)
    decreases |polls|
  {
    if polls == [] {
      assert forall id :: Shows(Run(polls, limits), polls, 0, id, limits);
    } else {
      var before, p := polls[..|polls| - 1], Last(polls);
      ClockPrefix(polls, 0, Reach(polls, limits), limits);
      AscendingPrefix(Clock(polls, 0, limits), Clock(polls, Reach(polls, limits), limits));
      assert Clock(polls, 0, limits) == Clock(before, Reach(before, limits), limits);
      RunShows(before, limits);
      hide ShowsAll, Clock, Ascending, SeeAll, ReachFrom;
      StartShows(Run(before, limits), polls, limits);
      assert p.spawning[0..] == p.spawning;
      var start := Watch(Forget(Run(before, limits).entries, IdSet(p.desired)), Run(before, limits).notes + [Started(IdSet(p.desired))]);
      if !WholeFleet(p) { SeeAllShows(start, polls, 0, limits); }
    }
  }

  // ---------- the results ----------

  /** On a clock that never goes back, the list kept for an id is what is in its window of the id's sightings since
      it was last not desired, polls of a whole fleet and sightings after a throw left out; it is latched exactly when
      it has had its complaint in that time; and the complaints made are exactly those the polls call for. */
  lemma ListsAndComplaintsAreThePolls(polls: seq<Poll>, id: Id, limits: Limits)
    requires Ascending(Clock(polls, Reach(polls, limits), limits))
    ensures var w, k := Run(polls, limits), Reach(polls, limits);
      && EntryOf(w.entries, id).spawnTimes == InItsWindow(StayTimes(polls, k, id, limits), limits.window)
      && (EntryOf(w.entries, id).spokenAt.Some? <==> HadComplaint(polls, k, id, limits))
      && SpokeTimes(w.notes, id) == Complaints(polls, k, id, limits)
  {
    RunShows(polls, limits);
    assert Shows(Run(polls, limits), polls, Reach(polls, limits), id, limits);
    hide Run, Reach, StayTimes, HadComplaint, Complaints;
  }
}
