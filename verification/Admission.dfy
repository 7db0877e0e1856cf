/**
 The fleet-wide admission controller (`createAdmissionController`, src/agents/admission.ts).

 `admit` suspends once, at the residency census, so it is two steps here: `Begin` up to the
 await, `End` from the census's answer on. `Machine` is the controller as a state machine over
 those steps; the class is the controller with its fields updated in place, each method proved
 to take the machine's step.
 */
module Admission {
  import opened Wrappers
  import opened AdmissionOrder
  import opened RateLimits

  datatype Role = Worker | Sentinel
  type RoleOf = Id -> Role
  type Source = string

  datatype DeclineReason = CensusThrew | CensusUntrusted | NeverReported

  /** One calling loop's residency-census bucket. */
  datatype Bucket =
    | Checked(confirmedAt: int, withheld: seq<Id>)
    | Declined(declinedAt: int, reason: DeclineReason)

  datatype State = State(
    lastTrusted: Option<nat>,
    lastTrustedSentinels: Option<nat>,
    lastTrustedWorkerIds: set<Id>,
    streak: nat,
    waits: Waits,
    lastSeenCall: map<Id, nat>,
    callCount: nat,
    lastWithheld: seq<Id>,
    ruleLastAdmittedAt: map<RuleId, int>,
    buckets: map<Source, Bucket>,
    reserved: map<Source, set<Id>>)

  /** What `admit` keeps across its await. */
  datatype Call = Call(source: Source, workers: seq<Id>, sentinels: seq<Id>, stopping: seq<Id>)

  /** What `admit` returns: workers let in, then every sentinel candidate. */
  datatype Outcome = Outcome(workers: seq<Id>, sentinels: seq<Id>)

  const LEDGER_UNSEEN_EVICTION_CALLS := 200

  function InitialState(sources: set<Source>, now: int): State {
    State(None, None, {}, 0, map[], map[], 0, [], map[],
          map source | source in sources :: Declined(now, NeverReported), map[])
  }

  // ---------- roles ----------

  function WithRole(ids: seq<Id>, roleOf: RoleOf, role: Role): (kept: seq<Id>)
    ensures |kept| <= |ids|
  {
    if ids == [] then []
    else (if roleOf(ids[0]) == role then [ids[0]] else []) + WithRole(ids[1..], roleOf, role)
  }

  function Workers(ids: seq<Id>, roleOf: RoleOf): (kept: seq<Id>)
    ensures |kept| <= |ids|
  {
    WithRole(ids, roleOf, Worker)
  }

  function Sentinels(ids: seq<Id>, roleOf: RoleOf): seq<Id> { WithRole(ids, roleOf, Sentinel) }

  function ToSet(ids: seq<Id>): set<Id> { set id | id in ids }

  function WorkerSet(ids: set<Id>, roleOf: RoleOf): set<Id> { set id | id in ids && roleOf(id) == Worker }

  // ---------- reservations ----------

  function Held(reserved: map<Source, set<Id>>, source: Source): set<Id> {
    if source in reserved then reserved[source] else {}
  }

  function AllHeld(reserved: map<Source, set<Id>>): set<Id> {
    set source, id | source in reserved && id in reserved[source] :: id
  }

  function Reserve(reserved: map<Source, set<Id>>, source: Source, ids: seq<Id>): map<Source, set<Id>> {
    if ids == [] then reserved else reserved[source := Held(reserved, source) + ToSet(ids)]
  }

  function Release(reserved: map<Source, set<Id>>, source: Source, ids: seq<Id>): map<Source, set<Id>> {
    if source !in reserved then reserved
    else
      var left := reserved[source] - ToSet(ids);
      if left == {} then reserved - {source} else reserved[source := left]
  }

  // ---------- trust ----------

  /** A resident worker gone, or turned sentinel, for a reason this poll can name. */
  function Explained(s: State, call: Call, census: seq<Id>, roleOf: RoleOf): set<Id> {
    ToSet(Workers(call.stopping, roleOf))
    + set id | id in s.lastTrustedWorkerIds && id in census && roleOf(id) == Sentinel
  }

  /** A readable zero that contradicts the last trusted count and that this poll cannot explain. */
  predicate Implausible(s: State, call: Call, census: seq<Id>, roleOf: RoleOf) {
    && s.lastTrusted.Some? && s.lastTrusted.value > 0
    && Workers(census, roleOf) == []
    && |Explained(s, call, census, roleOf)| < s.lastTrusted.value
  }

  /** The read is refused: implausible, and the run of refusals has not used up its bound. */
  predicate Refused(s: State, call: Call, census: seq<Id>, roleOf: RoleOf, maxPolls: int) {
    Implausible(s, call, census, roleOf) && s.streak + 1 <= maxPolls
  }

  // ---------- the wait ledger ----------

  function AddWaits(waits: Waits, withheld: seq<Id>): Waits {
    if withheld == [] then waits
    else
      var n := |withheld| - 1;
      var w := AddWaits(waits, withheld[..n]);
      w[withheld[n] := WaitOf(w, withheld[n]) + 1]
  }

  function Seen(lastSeen: map<Id, nat>, ids: set<Id>, call: nat): map<Id, nat> {
    lastSeen + map id | id in ids :: call
  }

  function Stale(lastSeen: map<Id, nat>, call: nat): set<Id> {
    set id | id in lastSeen && call - lastSeen[id] > LEDGER_UNSEEN_EVICTION_CALLS
  }

  /** The wait ledger after a call: the withheld age, admitted ids that still carry a wait stay in
      sight, and ids unseen for too many calls are dropped. */
  function Age(waits: Waits, lastSeen: map<Id, nat>, call: nat, withheld: seq<Id>, admitted: seq<Id>): (Waits, map<Id, nat>) {
    var aged := AddWaits(waits, withheld);
    var seen := Seen(lastSeen, ToSet(withheld) + ToSet(admitted) * aged.Keys, call);
    (aged - Stale(seen, call), seen - Stale(seen, call))
  }

  // ---------- the steps ----------

  function BeginCall(source: Source, candidates: seq<Id>, stopping: seq<Id>, roleOf: RoleOf): Call {
    Call(source, Workers(candidates, roleOf), Sentinels(candidates, roleOf), stopping)
  }

  /** The workers that count against the cap: in the census, or held while a spawn settles. */
  function OccupiedBy(census: seq<Id>, reserved: map<Source, set<Id>>, roleOf: RoleOf): set<Id> {
    ToSet(Workers(census, roleOf)) + WorkerSet(AllHeld(reserved), roleOf)
  }

  function NotDeferred(withheld: seq<Id>, deferred: seq<Id>): seq<Id> {
    if withheld == [] then []
    else (if withheld[0] in deferred then [] else [withheld[0]]) + NotDeferred(withheld[1..], deferred)
  }

  /** The pass an accepted read runs over its call's worker candidates. */
  function CallPass(s: State, call: Call, census: seq<Id>, cap: int, roleOf: RoleOf, limitOf: LimitOf, now: int)
    : RateLimitedAdmission
  {
    Pass(OrderByWait(call.workers, s.waits), cap - |OccupiedBy(census, s.reserved, roleOf)|, limitOf, s.ruleLastAdmittedAt, now)
  }

  /** The state once the census read is accepted as true. */
  function Accept(s: State, census: seq<Id>, roleOf: RoleOf): State {
    s.(streak := 0,
       lastTrusted := Some(|Workers(census, roleOf)|),
       lastTrustedSentinels := Some(|census| - |Workers(census, roleOf)|),
       lastTrustedWorkerIds := ToSet(Workers(census, roleOf)))
  }

  /** The ledger after an accepted read that had worker candidates. */
  function Ration(s: State, call: Call, census: seq<Id>, cap: int, roleOf: RoleOf, limitOf: LimitOf, now: int): State {
    var p := CallPass(s, call, census, cap, roleOf, limitOf, now);
    var ledger := Age(s.waits, s.lastSeenCall, s.callCount + 1, p.withheld, p.admitted);
    var capWithheld := NotDeferred(p.withheld, p.rateDeferred);
    s.(callCount := s.callCount + 1,
       waits := ledger.0,
       lastSeenCall := ledger.1,
       ruleLastAdmittedAt := s.ruleLastAdmittedAt + p.admittedAt,
       lastWithheld := capWithheld,
       reserved := Reserve(s.reserved, call.source, p.admitted),
       buckets := s.buckets[call.source := Checked(now, capWithheld)])
  }

  function Decline(s: State, source: Source, now: int, reason: DeclineReason): State {
    s.(buckets := s.buckets[source := Declined(now, reason)])
  }

  /** From the census's answer (None: the read threw) to the returned list. */
  function EndCall(s: State, call: Call, census: Option<seq<Id>>, cap: int, maxPolls: int, roleOf: RoleOf, limitOf: LimitOf, now: int)
    : (State, Outcome)
  {
    match census
    case None => (Decline(s, call.source, now, CensusThrew), Outcome([], call.sentinels))
    case Some(ids) =>
      if Refused(s, call, ids, roleOf, maxPolls) then
        (Decline(s, call.source, now, CensusUntrusted).(streak := s.streak + 1), Outcome([], call.sentinels))
      else
        var trusted := Accept(s, ids, roleOf);
        if call.workers == [] then
          (trusted.(lastWithheld := [], buckets := trusted.buckets[call.source := Checked(now, [])]),
           Outcome([], call.sentinels))
        else
          (Ration(trusted, call, ids, cap, roleOf, limitOf, now),
           Outcome(CallPass(trusted, call, ids, cap, roleOf, limitOf, now).admitted, call.sentinels))
  }

  // ---------- the machine ----------

  /** `admit` and `release` take turns, so at most one call is between its two steps. */
  datatype Machine = Machine(state: State, call: Option<Call>)

  datatype Op =
    | Begin(source: Source, candidates: seq<Id>, stopping: seq<Id>, roleOf: RoleOf)
    | End(census: Option<seq<Id>>, endRoleOf: RoleOf, limitOf: LimitOf, now: int)
    | ReserveIds(holder: Source, ids: seq<Id>)
    | ReleaseIds(holder: Source, ids: seq<Id>)
    | RecordSpawned(ids: seq<Id>)

  datatype Settings = Settings(cap: int, maxPolls: int)

  predicate Allowed(m: Machine, op: Op) {
    match op
    case Begin(_, _, _, _) => m.call.None?
    case End(_, _, _, _) => m.call.Some?
    case ReleaseIds(_, _) => m.call.None?
    case _ => true
  }

  function Next(m: Machine, op: Op, fleet: Settings): Machine
    requires Allowed(m, op)
  {
    var s := m.state;
    match op
    case Begin(source, candidates, stopping, roleOf) =>
      Machine(s.(reserved := s.reserved - {source}), Some(BeginCall(source, candidates, stopping, roleOf)))
    case End(census, roleOf, limitOf, now) =>
      Machine(EndCall(s, m.call.value, census, fleet.cap, fleet.maxPolls, roleOf, limitOf, now).0, None)
    case ReserveIds(source, ids) => m.(state := s.(reserved := Reserve(s.reserved, source, ids)))
    case ReleaseIds(source, ids) => m.(state := s.(reserved := Release(s.reserved, source, ids)))
    case RecordSpawned(ids) =>
      m.(state := s.(waits := s.waits - ToSet(ids), lastSeenCall := s.lastSeenCall - ToSet(ids)))
  }

  /** What the call finishing with this step returns. */
  function Returned(m: Machine, op: Op, fleet: Settings): Option<Outcome>
    requires Allowed(m, op)
  {
    match op
    case End(census, roleOf, limitOf, now) =>
      Some(EndCall(m.state, m.call.value, census, fleet.cap, fleet.maxPolls, roleOf, limitOf, now).1)
    case _ => None
  }

  predicate RunAllowed(m: Machine, ops: seq<Op>, fleet: Settings)
    decreases |ops|
  {
    ops == [] || (Allowed(m, ops[0]) && RunAllowed(Next(m, ops[0], fleet), ops[1..], fleet))
  }

  function RunTo(m: Machine, ops: seq<Op>, fleet: Settings): Machine
    requires RunAllowed(m, ops, fleet)
    decreases |ops|
  {
    if ops == [] then m else RunTo(Next(m, ops[0], fleet), ops[1..], fleet)
  }

  // ---------- basic facts about the pieces ----------

  lemma {:induction false} WithRoleMembers(ids: seq<Id>, roleOf: RoleOf, role: Role)
    ensures forall id :: id in WithRole(ids, roleOf, role) <==> id in ids && roleOf(id) == role
  {
    if ids != [] {
      WithRoleMembers(ids[1..], roleOf, role);
      assert ids == [ids[0]] + ids[1..];
    }
  }

  /** Every withheld candidate's wait grows by one per time it was withheld, and no other wait moves. */
  lemma {:induction false} AddWaitsCounts(waits: Waits, withheld: seq<Id>)
    ensures var w := AddWaits(waits, withheld);
      && w.Keys == waits.Keys + ToSet(withheld)
      && (forall id :: WaitOf(w, id) == WaitOf(waits, id) + multiset(withheld)[id])
  {
    if withheld != [] {
      var n := |withheld| - 1;
      AddWaitsCounts(waits, withheld[..n]);
      assert withheld == withheld[..n] + [withheld[n]];
    }
  }

  lemma {:induction false} NotDeferredMembers(withheld: seq<Id>, deferred: seq<Id>)
    ensures forall id :: id in NotDeferred(withheld, deferred) <==> id in withheld && id !in deferred
  {
    if withheld != [] {
      NotDeferredMembers(withheld[1..], deferred);
      assert withheld == [withheld[0]] + withheld[1..];
    }
  }

  lemma ToSetStep(ids: seq<Id>, i: nat)
    requires i < |ids|
    ensures ToSet(ids[..i + 1]) == ToSet(ids[..i]) + {ids[i]}
  {
    assert ids[..i + 1] == ids[..i] + [ids[i]];
  }

  lemma SeenStep(lastSeen: map<Id, nat>, ids: set<Id>, id: Id, call: nat)
    ensures Seen(lastSeen, ids + {id}, call) == Seen(lastSeen, ids, call)[id := call]
  {
  }

  lemma SeenJoin(lastSeen: map<Id, nat>, a: set<Id>, b: set<Id>, call: nat)
    ensures Seen(Seen(lastSeen, a, call), b, call) == Seen(lastSeen, a + b, call)
  {
  }

  // ---------- the classes ----------

  /** Counts consecutive implausible reads (`ImplausibleZeroGuard`). */
  class ImplausibleZeroGuard {
    var streak: nat
    const maxPolls: int

    constructor (maxPolls: int)
      ensures streak == 0 && this.maxPolls == maxPolls
    {
      streak := 0;
      this.maxPolls := maxPolls;
    }

    /** True while the streak is within its bound; past it, false, and the streak starts over. */
    method Record() returns (untrusted: bool)
      modifies this
      ensures untrusted == (old(streak) + 1 <= maxPolls)
      ensures streak == if untrusted then old(streak) + 1 else 0
    {
      streak := streak + 1;
      if streak > maxPolls {
        streak := 0;
        return false;
      }
      return true;
    }

    method Clear()
      modifies this
      ensures streak == 0
    {
      streak := 0;
    }
  }

  class AdmissionController {
    const cap: int
    const guard: ImplausibleZeroGuard
    var lastTrusted: Option<nat>
    var lastTrustedSentinels: Option<nat>
    var lastTrustedWorkerIds: set<Id>
    var waits: Waits
    var lastSeenCall: map<Id, nat>
    var callCount: nat
    var lastWithheld: seq<Id>
    var ruleLastAdmittedAt: map<RuleId, int>
    var buckets: map<Source, Bucket>
    var reserved: map<Source, set<Id>>
    /** The call that has begun and awaits its census; the source's `turn` chain keeps it alone. */
    var call: Option<Call>

    ghost function Model(): Machine
      reads this, guard
    {
      Machine(State(lastTrusted, lastTrustedSentinels, lastTrustedWorkerIds, guard.streak, waits, lastSeenCall,
                    callCount, lastWithheld, ruleLastAdmittedAt, buckets, reserved), call)
    }

    ghost function Config(): Settings {
      Settings(cap, guard.maxPolls)
    }

    constructor (cap: int, maxPolls: int, sources: set<Source>, now: int)
      ensures Model() == Machine(InitialState(sources, now), None)
      ensures Config() == Settings(cap, maxPolls)
      ensures fresh(guard)
    {
      this.cap := cap;
      guard := new ImplausibleZeroGuard(maxPolls);
      lastTrusted, lastTrustedSentinels, lastTrustedWorkerIds := None, None, {};
      waits, lastSeenCall, callCount, lastWithheld := map[], map[], 0, [];
      ruleLastAdmittedAt, reserved, call := map[], map[], None;
      buckets := map source | source in sources :: Declined(now, NeverReported);
    }

    method BeginAdmit(candidates: seq<Id>, stopping: seq<Id>, source: Source, roleOf: RoleOf)
      requires Allowed(Model(), Begin(source, candidates, stopping, roleOf))
      modifies this
      ensures Model() == Next(old(Model()), Begin(source, candidates, stopping, roleOf), Config())
    {
      reserved := reserved - {source};
      call := Some(Call(source, Workers(candidates, roleOf), Sentinels(candidates, roleOf), stopping));
    }

    method ReserveFor(ids: seq<Id>, source: Source)
      modifies this`reserved
      ensures Model() == Next(old(Model()), ReserveIds(source, ids), Config())
    {
      Hold(ids, source);
    }

    method Hold(ids: seq<Id>, source: Source)
      modifies this`reserved
      ensures reserved == Reserve(old(reserved), source, ids)
    {
      if |ids| == 0 { return; }
      var held := if source in reserved then reserved[source] else {};
      for i := 0 to |ids|
        invariant held == Held(reserved, source) + ToSet(ids[..i])
        invariant reserved == old(reserved)
      {
        held := held + {ids[i]};
        assert ids[..i + 1] == ids[..i] + [ids[i]];
      }
      assert ids[..|ids|] == ids;
      reserved := reserved[source := held];
    }

    method ReleaseFrom(ids: seq<Id>, source: Source)
      requires Allowed(Model(), ReleaseIds(source, ids))
      modifies this`reserved
      ensures Model() == Next(old(Model()), ReleaseIds(source, ids), Config())
    {
      if source !in reserved { return; }
      var held := reserved[source];
      for i := 0 to |ids|
        invariant held == reserved[source] - ToSet(ids[..i])
        invariant reserved == old(reserved)
      {
        held := held - {ids[i]};
        assert ids[..i + 1] == ids[..i] + [ids[i]];
      }
      assert ids[..|ids|] == ids;
      reserved := if held == {} then reserved - {source} else reserved[source := held];
    }

    method RecordSpawnedIds(succeeded: seq<Id>)
      modifies this`waits, this`lastSeenCall
      ensures Model() == Next(old(Model()), RecordSpawned(succeeded), Config())
    {
      for i := 0 to |succeeded|
        invariant waits == old(waits) - ToSet(succeeded[..i])
        invariant lastSeenCall == old(lastSeenCall) - ToSet(succeeded[..i])
      {
        waits := waits - {succeeded[i]};
        lastSeenCall := lastSeenCall - {succeeded[i]};
        assert succeeded[..i + 1] == succeeded[..i] + [succeeded[i]];
      }
      assert succeeded[..|succeeded|] == succeeded;
    }

    /** The rest of `admit`, once the census has answered or thrown (None). */
    method EndAdmit(census: Option<seq<Id>>, roleOf: RoleOf, limitOf: LimitOf, now: int) returns (outcome: Outcome)
      requires Allowed(Model(), End(census, roleOf, limitOf, now))
      modifies this, guard
      ensures Model() == Next(old(Model()), End(census, roleOf, limitOf, now), Config())
      ensures Returned(old(Model()), End(census, roleOf, limitOf, now), Config()) == Some(outcome)
    {
      hide Ration, CallPass, Accept, Refused;
      var c := call.value;
      call := None;
      if census.None? {
        buckets := buckets[c.source := Declined(now, CensusThrew)];
        return Outcome([], c.sentinels);
      }
      var believed := Judge(c, census.value, roleOf, now);
      if !believed {
        return Outcome([], c.sentinels);
      }
      if c.workers == [] {
        lastWithheld := [];
        buckets := buckets[c.source := Checked(now, [])];
        return Outcome([], c.sentinels);
      }
      var admitted := RationCall(c, census.value, roleOf, limitOf, now);
      return Outcome(admitted, c.sentinels);
    }

    /** Whether this census read is to be believed; the trust state moves only when it is. */
    method Judge(c: Call, resident: seq<Id>, roleOf: RoleOf, now: int) returns (believed: bool)
      modifies this, guard
      ensures believed == !Refused(old(Model().state), c, resident, roleOf, guard.maxPolls)
      ensures Model() == old(Model()).(state :=
        if believed then Accept(old(Model().state), resident, roleOf)
        else Decline(old(Model().state), c.source, now, CensusUntrusted).(streak := old(guard.streak) + 1))
    {
      var residentWorkers := Workers(resident, roleOf);
      var reclassified := set id | id in lastTrustedWorkerIds && id in resident && roleOf(id) == Sentinel;
      var explained := ToSet(Workers(c.stopping, roleOf)) + reclassified;
      if lastTrusted.Some? && lastTrusted.value > 0 && |residentWorkers| == 0 && |explained| < lastTrusted.value {
        var stillUntrusted := guard.Record();
        if stillUntrusted {
          buckets := buckets[c.source := Declined(now, CensusUntrusted)];
          return false;
        }
      } else {
        guard.Clear();
      }
      lastTrusted := Some(|residentWorkers|);
      lastTrustedSentinels := Some(|resident| - |residentWorkers|);
      lastTrustedWorkerIds := ToSet(residentWorkers);
      return true;
    }

    /** The ordering, and the one pass over cap and rate limits. */
    method RunPass(c: Call, resident: seq<Id>, roleOf: RoleOf, limitOf: LimitOf, now: int) returns (p: RateLimitedAdmission)
      ensures p == CallPass(Model().state, c, resident, cap, roleOf, limitOf, now)
    {
      hide OccupiedBy, Pass, OrderByWait;
      var ordered := OrderByWait(c.workers, waits);
      var occupied := OccupiedBy(resident, reserved, roleOf);
      p := AdmitWithRateLimits(ordered, cap - |occupied|, limitOf, ruleLastAdmittedAt, now);
    }

    /** The pass, and then the ledger, the reservations and what is reported. */
    method RationCall(c: Call, resident: seq<Id>, roleOf: RoleOf, limitOf: LimitOf, now: int) returns (admitted: seq<Id>)
      modifies this
      ensures Model() == old(Model()).(state := Ration(old(Model().state), c, resident, cap, roleOf, limitOf, now))
      ensures admitted == CallPass(old(Model().state), c, resident, cap, roleOf, limitOf, now).admitted
    {
      hide CallPass, Age, NotDeferred, Reserve, Next;
      var p := RunPass(c, resident, roleOf, limitOf, now);
      callCount := callCount + 1;
      ruleLastAdmittedAt := ruleLastAdmittedAt + p.admittedAt;
      var capWithheld := NotDeferred(p.withheld, p.rateDeferred);
      UpdateLedger(p.withheld, p.admitted);
      lastWithheld := capWithheld;
      Hold(p.admitted, c.source);
      buckets := buckets[c.source := Checked(now, capWithheld)];
      admitted := p.admitted;
    }

    method UpdateLedger(withheld: seq<Id>, admitted: seq<Id>)
      modifies this`waits, this`lastSeenCall
      ensures (waits, lastSeenCall) == Age(old(waits), old(lastSeenCall), callCount, withheld, admitted)
    {
      AgeWithheld(withheld);
      KeepSightOf(admitted);
      SeenJoin(old(lastSeenCall), ToSet(withheld), ToSet(admitted) * waits.Keys, callCount);
      EvictUnseen();
    }

    method AgeWithheld(withheld: seq<Id>)
      modifies this`waits, this`lastSeenCall
      ensures waits == AddWaits(old(waits), withheld)
      ensures lastSeenCall == Seen(old(lastSeenCall), ToSet(withheld), callCount)
    {
      for i := 0 to |withheld|
        invariant waits == AddWaits(old(waits), withheld[..i])
        invariant lastSeenCall == Seen(old(lastSeenCall), ToSet(withheld[..i]), callCount)
      {
        waits := waits[withheld[i] := WaitOf(waits, withheld[i]) + 1];
        lastSeenCall := lastSeenCall[withheld[i] := callCount];
        assert withheld[..i + 1][..i] == withheld[..i];
        ToSetStep(withheld, i);
        SeenStep(old(lastSeenCall), ToSet(withheld[..i]), withheld[i], callCount);
      }
      assert withheld[..|withheld|] == withheld;
    }

    method KeepSightOf(admitted: seq<Id>)
      modifies this`lastSeenCall
      ensures lastSeenCall == Seen(old(lastSeenCall), ToSet(admitted) * waits.Keys, callCount)
    {
      for i := 0 to |admitted|
        invariant lastSeenCall == Seen(old(lastSeenCall), ToSet(admitted[..i]) * waits.Keys, callCount)
      {
        ToSetStep(admitted, i);
        if admitted[i] in waits {
          lastSeenCall := lastSeenCall[admitted[i] := callCount];
          assert ToSet(admitted[..i + 1]) * waits.Keys == ToSet(admitted[..i]) * waits.Keys + {admitted[i]};
          SeenStep(old(lastSeenCall), ToSet(admitted[..i]) * waits.Keys, admitted[i], callCount);
        } else {
          assert ToSet(admitted[..i + 1]) * waits.Keys == ToSet(admitted[..i]) * waits.Keys;
        }
      }
      assert admitted[..|admitted|] == admitted;
    }

    method EvictUnseen()
      modifies this`waits, this`lastSeenCall
      ensures waits == old(waits) - Stale(old(lastSeenCall), callCount)
      ensures lastSeenCall == old(lastSeenCall) - Stale(old(lastSeenCall), callCount)
    {
      var unvisited := lastSeenCall.Keys;
      while unvisited != {}
        invariant unvisited <= old(lastSeenCall).Keys
        invariant lastSeenCall == old(lastSeenCall) - (Stale(old(lastSeenCall), callCount) - unvisited)
        invariant waits == old(waits) - (Stale(old(lastSeenCall), callCount) - unvisited)
        decreases unvisited
      {
        var id :| id in unvisited;
        if callCount - lastSeenCall[id] > LEDGER_UNSEEN_EVICTION_CALLS {
          waits := waits - {id};
          lastSeenCall := lastSeenCall - {id};
        }
        unvisited := unvisited - {id};
      }
    }
  }
}
