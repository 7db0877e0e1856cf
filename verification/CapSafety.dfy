/**
 The shared cap under interleaving. Several loops share one controller; a call's census may be
 stale by the time it is used; spawns land, fail and are released at any moment.
 */
module CapSafety {
  import opened Wrappers
  import opened AdmissionOrder
  import opened RateLimits
  import opened Admission

  /** The fleet beside the controller: who is alive, and which spawns each source has under way.
      `census` is the answer already given to the call in progress, if any. */
  datatype World = World(
    machine: Machine,
    census: Option<seq<Id>>,
    resident: set<Id>,
    inFlight: map<Source, set<Id>>)

  datatype Event =
    | Poll(source: Source, candidates: seq<Id>, stopping: seq<Id>)
    | CensusRead(answer: seq<Id>)
    | CensusUsed(limitOf: LimitOf, now: int)
    | CensusThrows(limitOf: LimitOf, now: int)
    | HoldForRespawn(source: Source, ids: seq<Id>)
    | Exit(id: Id)
    | Land(source: Source, id: Id)
    | Settle(source: Source, id: Id)
    | ReleaseHeld(source: Source, ids: seq<Id>)
    | Spawned(ids: seq<Id>)

  function UnderWay(w: World): set<Id> { AllHeld(w.inFlight) }

  /** What `reconcileNow` and the fleet promise: a source polls again only when its spawns have
      settled, the census answers with the agents alive when it is read, a respawn is held while
      its agent still runs, only spawns under way land, and only settled ones are released. */
  ghost predicate Enabled(w: World, e: Event) {
    match e
    case Poll(source, _, _) => w.machine.call.None? && Held(w.inFlight, source) == {}
    case CensusRead(answer) => w.machine.call.Some? && w.census.None? && ToSet(answer) == w.resident
    case CensusUsed(_, _) => w.machine.call.Some? && w.census.Some?
    case CensusThrows(_, _) => w.machine.call.Some?
    case HoldForRespawn(_, ids) => ToSet(ids) <= w.resident
    case Exit(_) => true
    case Land(source, id) => id in Held(w.inFlight, source)
    case Settle(_, _) => true
    case ReleaseHeld(source, ids) => w.machine.call.None? && ToSet(ids) !! Held(w.inFlight, source)
    case Spawned(_) => true
  }

  function Step(w: World, e: Event, fleet: Settings, roleOf: RoleOf): World
    requires Enabled(w, e)
  {
    match e
    case Poll(source, candidates, stopping) =>
      w.(machine := Next(w.machine, Begin(source, candidates, stopping, roleOf), fleet), census := None)
    case CensusRead(answer) => w.(census := Some(answer))
    case CensusUsed(limitOf, now) =>
      var end := End(w.census, roleOf, limitOf, now);
      var let := Returned(w.machine, end, fleet).value;
      World(Next(w.machine, end, fleet), None, w.resident,
            Reserve(w.inFlight, w.machine.call.value.source, let.workers + let.sentinels))
    case CensusThrows(limitOf, now) =>
      var end := End(None, roleOf, limitOf, now);
      var let := Returned(w.machine, end, fleet).value;
      World(Next(w.machine, end, fleet), None, w.resident,
            Reserve(w.inFlight, w.machine.call.value.source, let.workers + let.sentinels))
    case HoldForRespawn(source, ids) =>
      w.(machine := Next(w.machine, ReserveIds(source, ids), fleet), inFlight := Reserve(w.inFlight, source, ids))
    case Exit(id) => w.(resident := w.resident - {id})
    case Land(source, id) => w.(resident := w.resident + {id})
    case Settle(source, id) => w.(inFlight := Release(w.inFlight, source, [id]))
    case ReleaseHeld(source, ids) => w.(machine := Next(w.machine, ReleaseIds(source, ids), fleet))
    case Spawned(ids) => w.(machine := Next(w.machine, RecordSpawned(ids), fleet))
  }

  /** Workers that run or may yet come to run without a further admission. */
  function Load(w: World, roleOf: RoleOf): set<Id> {
    WorkerSet(w.resident + UnderWay(w), roleOf)
  }

  // ---------- facts about one call's end ----------

  /** Whatever path a call takes, it reserves exactly the workers it returns, returns every sentinel
      it was offered, and returns no more workers than the cap leaves beside the occupied ids. */
  lemma EndRationsTheCap(s: State, call: Call, census: Option<seq<Id>>, fleet: Settings, roleOf: RoleOf, limitOf: LimitOf, now: int)
    ensures var (s', let) := EndCall(s, call, census, fleet.cap, fleet.maxPolls, roleOf, limitOf, now);
      && s'.reserved == Reserve(s.reserved, call.source, let.workers)
      && let.sentinels == call.sentinels
      && (let.workers != [] ==>
            census.Some? && |OccupiedBy(census.value, s.reserved, roleOf)| + |let.workers| <= fleet.cap)
  {
    hide OccupiedBy, Age, NotDeferred, OrderByWait, Pass, Refused;
    if census.Some? && !Refused(s, call, census.value, roleOf, fleet.maxPolls) && call.workers != [] {
      var trusted := Accept(s, census.value, roleOf);
      PassWithinBudget(OrderByWait(call.workers, trusted.waits), fleet.cap - |OccupiedBy(census.value, s.reserved, roleOf)|,
                       limitOf, s.ruleLastAdmittedAt, now);
    }
  }

  lemma HeldAfterReserve(m: map<Source, set<Id>>, source: Source, ids: seq<Id>)
    ensures forall other ::
      Held(Reserve(m, source, ids), other) == Held(m, other) + (if other == source then ToSet(ids) else {})
  {
  }

  lemma HeldAfterRelease(m: map<Source, set<Id>>, source: Source, ids: seq<Id>)
    ensures forall other ::
      Held(Release(m, source, ids), other) == Held(m, other) - (if other == source then ToSet(ids) else {})
  {
  }

  lemma AllHeldIsUnion(m: map<Source, set<Id>>)
    ensures forall id :: id in AllHeld(m) <==> exists source :: id in Held(m, source)
  {
    forall id | id in AllHeld(m) ensures exists source :: id in Held(m, source) {
      var source :| source in m && id in m[source];
      assert id in Held(m, source);
    }
  }

  lemma CardinalityGrows(a: set<Id>, b: set<Id>)
    requires a <= b
    ensures |a| <= |b|
  {
    assert b == a + (b - a);
  }

  lemma {:induction false} ToSetIsSmall(ids: seq<Id>)
    ensures |ToSet(ids)| <= |ids|
  {
    if ids != [] {
      var n := |ids| - 1;
      ToSetIsSmall(ids[..n]);
      assert ids[..n + 1] == ids;
      ToSetStep(ids, n);
    }
  }

  // ---------- the invariant ----------

  ghost predicate SpawnsAreReserved(w: World, roleOf: RoleOf) {
    forall source :: WorkerSet(Held(w.inFlight, source), roleOf) <= Held(w.machine.state.reserved, source)
  }

  /** Everyone alive is in the census already read or is held: release waits its turn, reserve only adds. */
  ghost predicate CensusCovers(w: World, roleOf: RoleOf) {
    w.census.Some? ==>
      && w.machine.call.Some?
      && WorkerSet(w.resident, roleOf) <= ToSet(w.census.value) + AllHeld(w.machine.state.reserved)
  }

  ghost predicate RolesSplit(w: World, roleOf: RoleOf) {
    w.machine.call.Some? ==> forall id :: id in w.machine.call.value.sentinels ==> roleOf(id) == Sentinel
  }

  ghost predicate Safe(w: World, fleet: Settings, roleOf: RoleOf, bound: int) {
    && SpawnsAreReserved(w, roleOf) && CensusCovers(w, roleOf) && RolesSplit(w, roleOf)
    && |Load(w, roleOf)| <= bound
  }

  /** A used census leaves no room for an admission past the cap. */
  lemma AdmissionKeepsLoad(w: World, let: seq<Id>, sentinels: seq<Id>, source: Source, fleet: Settings, roleOf: RoleOf, bound: int)
    requires Safe(w, fleet, roleOf, bound) && fleet.cap <= bound && w.census.Some?
    requires let != [] ==> |OccupiedBy(w.census.value, w.machine.state.reserved, roleOf)| + |let| <= fleet.cap
    requires forall id :: id in sentinels ==> roleOf(id) == Sentinel
    ensures |WorkerSet(w.resident + AllHeld(Reserve(w.inFlight, source, let + sentinels)), roleOf)| <= bound
  {
    var occupied := OccupiedBy(w.census.value, w.machine.state.reserved, roleOf);
    var after := WorkerSet(w.resident + AllHeld(Reserve(w.inFlight, source, let + sentinels)), roleOf);
    HeldAfterReserve(w.inFlight, source, let + sentinels);
    AllHeldIsUnion(w.inFlight);
    AllHeldIsUnion(Reserve(w.inFlight, source, let + sentinels));
    assert after <= Load(w, roleOf) + ToSet(let);
    if let == [] {
      CardinalityGrows(after, Load(w, roleOf));
    } else {
      WithRoleMembers(w.census.value, roleOf, Worker);
      forall id | id in Load(w, roleOf) ensures id in occupied {
        assert id in w.resident ==> id in WorkerSet(w.resident, roleOf);
        if id in AllHeld(w.inFlight) {
          var holder :| id in Held(w.inFlight, holder);
          assert id in WorkerSet(Held(w.inFlight, holder), roleOf);
          AllHeldIsUnion(w.machine.state.reserved);
        }
      }
      assert after <= occupied + ToSet(let);
      CardinalityGrows(after, occupied + ToSet(let));
      ToSetIsSmall(let);
      assert |occupied + ToSet(let)| <= |occupied| + |ToSet(let)|;
    }
  }

  // ---------- every event keeps it ----------

  lemma PollKeepsSafe(w: World, e: Event, fleet: Settings, roleOf: RoleOf, bound: int)
    requires Safe(w, fleet, roleOf, bound) && Enabled(w, e) && e.Poll?
    ensures Safe(Step(w, e, fleet, roleOf), fleet, roleOf, bound)
  {
    WithRoleMembers(e.candidates, roleOf, Sentinel);
  }

  lemma CallEndKeepsSafe(w: World, e: Event, fleet: Settings, roleOf: RoleOf, bound: int)
    requires Safe(w, fleet, roleOf, bound) && Enabled(w, e) && fleet.cap <= bound
    requires e.CensusUsed? || e.CensusThrows?
    ensures Safe(Step(w, e, fleet, roleOf), fleet, roleOf, bound)
  {
    hide OccupiedBy, EndCall;
    var call := w.machine.call.value;
    var census := if e.CensusUsed? then w.census else None;
    EndRationsTheCap(w.machine.state, call, census, fleet, roleOf, e.limitOf, e.now);
    var (s', let) := EndCall(w.machine.state, call, census, fleet.cap, fleet.maxPolls, roleOf, e.limitOf, e.now);
    var w' := Step(w, e, fleet, roleOf);
    assert w'.machine.state == s' && w'.inFlight == Reserve(w.inFlight, call.source, let.workers + let.sentinels);
    HeldAfterReserve(w.machine.state.reserved, call.source, let.workers);
    HeldAfterReserve(w.inFlight, call.source, let.workers + let.sentinels);
    if w.census.Some? {
      AdmissionKeepsLoad(w, let.workers, let.sentinels, call.source, fleet, roleOf, bound);
    } else {
      SentinelsAddNoLoad(w, let.sentinels, call.source, roleOf);
    }
  }

  lemma SentinelsAddNoLoad(w: World, sentinels: seq<Id>, source: Source, roleOf: RoleOf)
    requires forall id :: id in sentinels ==> roleOf(id) == Sentinel
    ensures WorkerSet(w.resident + AllHeld(Reserve(w.inFlight, source, [] + sentinels)), roleOf) == Load(w, roleOf)
  {
    HeldAfterReserve(w.inFlight, source, [] + sentinels);
    AllHeldIsUnion(w.inFlight);
    AllHeldIsUnion(Reserve(w.inFlight, source, [] + sentinels));
    assert [] + sentinels == sentinels;
  }

  lemma FleetEventKeepsSafe(w: World, e: Event, fleet: Settings, roleOf: RoleOf, bound: int)
    requires Safe(w, fleet, roleOf, bound) && Enabled(w, e)
    requires e.CensusRead? || e.Exit? || e.Land? || e.Spawned?
    ensures Safe(Step(w, e, fleet, roleOf), fleet, roleOf, bound)
  {
    var w' := Step(w, e, fleet, roleOf);
    if e.Land? {
      AllHeldIsUnion(w.inFlight);
      assert w'.resident + UnderWay(w') == w.resident + UnderWay(w);
      if roleOf(e.id) == Worker {
        assert e.id in WorkerSet(Held(w.inFlight, e.source), roleOf);
        AllHeldIsUnion(w.machine.state.reserved);
      }
    } else {
      CardinalityGrows(Load(w', roleOf), Load(w, roleOf));
    }
  }

  lemma HoldingKeepsSafe(w: World, e: Event, fleet: Settings, roleOf: RoleOf, bound: int)
    requires Safe(w, fleet, roleOf, bound) && Enabled(w, e)
    requires e.HoldForRespawn? || e.Settle? || e.ReleaseHeld?
    ensures Safe(Step(w, e, fleet, roleOf), fleet, roleOf, bound)
  {
    var w' := Step(w, e, fleet, roleOf);
    var reserved, inFlight := w.machine.state.reserved, w.inFlight;
    match e {
      case HoldForRespawn(source, ids) =>
        HeldAfterReserve(reserved, source, ids);
        HeldAfterReserve(inFlight, source, ids);
      case Settle(source, id) =>
        HeldAfterRelease(inFlight, source, [id]);
      case ReleaseHeld(source, ids) =>
        HeldAfterRelease(reserved, source, ids);
    }
    AllHeldIsUnion(reserved);
    AllHeldIsUnion(w'.machine.state.reserved);
    AllHeldIsUnion(inFlight);
    AllHeldIsUnion(w'.inFlight);
    CardinalityGrows(Load(w', roleOf), Load(w, roleOf));
  }

  lemma StepKeepsSafe(w: World, e: Event, fleet: Settings, roleOf: RoleOf, bound: int)
    requires Safe(w, fleet, roleOf, bound) && Enabled(w, e) && fleet.cap <= bound
    ensures Safe(Step(w, e, fleet, roleOf), fleet, roleOf, bound)
  {
    match e {
      case Poll(_, _, _) => PollKeepsSafe(w, e, fleet, roleOf, bound);
      case CensusUsed(_, _) => CallEndKeepsSafe(w, e, fleet, roleOf, bound);
      case CensusThrows(_, _) => CallEndKeepsSafe(w, e, fleet, roleOf, bound);
      case HoldForRespawn(_, _) => HoldingKeepsSafe(w, e, fleet, roleOf, bound);
      case Settle(_, _) => HoldingKeepsSafe(w, e, fleet, roleOf, bound);
      case ReleaseHeld(_, _) => HoldingKeepsSafe(w, e, fleet, roleOf, bound);
      case _ => FleetEventKeepsSafe(w, e, fleet, roleOf, bound);
    }
  }

  // ---------- every run ----------

  ghost predicate History(w: World, events: seq<Event>, fleet: Settings, roleOf: RoleOf)
    decreases |events|
  {
    events == [] || (Enabled(w, events[0]) && History(Step(w, events[0], fleet, roleOf), events[1..], fleet, roleOf))
  }

  ghost function After(w: World, events: seq<Event>, fleet: Settings, roleOf: RoleOf): World
    requires History(w, events, fleet, roleOf)
    decreases |events|
  {
    if events == [] then w else After(Step(w, events[0], fleet, roleOf), events[1..], fleet, roleOf)
  }

  lemma {:induction false} RunKeepsSafe(w: World, events: seq<Event>, fleet: Settings, roleOf: RoleOf, bound: int)
    requires Safe(w, fleet, roleOf, bound) && fleet.cap <= bound && History(w, events, fleet, roleOf)
    ensures Safe(After(w, events, fleet, roleOf), fleet, roleOf, bound)
    decreases |events|
  {
    if events != [] {
      StepKeepsSafe(w, events[0], fleet, roleOf, bound);
      RunKeepsSafe(Step(w, events[0], fleet, roleOf), events[1..], fleet, roleOf, bound);
    }
  }

  /** A controller just built, beside whatever fleet it finds alive. */
  function Boot(resident: set<Id>, sources: set<Source>, now: int): World {
    World(Machine(InitialState(sources, now), None), None, resident, map[])
  }

  /** After any history at all, the workers alive or on their way number at most the cap, or at most
      as many as were alive when the controller started if that was more. */
  lemma FleetStaysWithinCap(resident: set<Id>, sources: set<Source>, now: int, events: seq<Event>, fleet: Settings, roleOf: RoleOf)
    requires History(Boot(resident, sources, now), events, fleet, roleOf)
    ensures var w := After(Boot(resident, sources, now), events, fleet, roleOf);
      && |WorkerSet(w.resident, roleOf)| <= |Load(w, roleOf)|
      && |Load(w, roleOf)| <= Max(fleet.cap, |WorkerSet(resident, roleOf)|)
  {
    var w0 := Boot(resident, sources, now);
    var bound := Max(fleet.cap, |WorkerSet(resident, roleOf)|);
    assert Load(w0, roleOf) == WorkerSet(resident, roleOf);
    RunKeepsSafe(w0, events, fleet, roleOf, bound);
    var w := After(w0, events, fleet, roleOf);
    CardinalityGrows(WorkerSet(w.resident, roleOf), Load(w, roleOf));
  }
}
