/**
 Sentinels do not interfere: run the controller twice, once with every sentinel erased from its
 inputs, and every worker decision comes out the same (src/agents/admission.ts, BUTCHR-398).
 Roles are fixed over the run.
 */
module SentinelFreedom {
  import opened Wrappers
  import opened AdmissionOrder
  import opened RateLimits
  import opened Admission

  // ---------- erasing ----------

  function Erase(op: Op, roleOf: RoleOf): Op {
    match op
    case Begin(source, candidates, stopping, r) => Begin(source, Workers(candidates, roleOf), Workers(stopping, roleOf), r)
    case End(census, r, limitOf, now) =>
      End(if census.Some? then Some(Workers(census.value, roleOf)) else None, r, limitOf, now)
    case ReserveIds(source, ids) => ReserveIds(source, Workers(ids, roleOf))
    case ReleaseIds(source, ids) => ReleaseIds(source, Workers(ids, roleOf))
    case RecordSpawned(ids) => RecordSpawned(Workers(ids, roleOf))
  }

  function EraseAll(ops: seq<Op>, roleOf: RoleOf): seq<Op> {
    if ops == [] then [] else [Erase(ops[0], roleOf)] + EraseAll(ops[1..], roleOf)
  }

  ghost predicate RolesFixed(ops: seq<Op>, roleOf: RoleOf) {
    forall i :: 0 <= i < |ops| ==>
      && (ops[i].Begin? ==> ops[i].roleOf == roleOf)
      && (ops[i].End? ==> ops[i].endRoleOf == roleOf)
  }

  lemma {:induction false} AllWorkers(ids: seq<Id>, roleOf: RoleOf)
    requires forall id :: id in ids ==> roleOf(id) == Worker
    ensures Workers(ids, roleOf) == ids && Sentinels(ids, roleOf) == []
  {
    if ids != [] {
      assert ids == [ids[0]] + ids[1..];
      AllWorkers(ids[1..], roleOf);
    }
  }

  lemma WorkersOfWorkers(ids: seq<Id>, roleOf: RoleOf)
    ensures Workers(Workers(ids, roleOf), roleOf) == Workers(ids, roleOf)
    ensures Sentinels(Workers(ids, roleOf), roleOf) == []
  {
    WithRoleMembers(ids, roleOf, Worker);
    AllWorkers(Workers(ids, roleOf), roleOf);
  }

  // ---------- the two runs stay alike ----------

  /** The states agree on everything but the sentinel count and the sentinels held. */
  ghost predicate AlikeStates(s: State, t: State, roleOf: RoleOf) {
    && t == s.(reserved := t.reserved, lastTrustedSentinels := t.lastTrustedSentinels)
    && (forall source :: Held(t.reserved, source) == WorkerSet(Held(s.reserved, source), roleOf))
    && (forall id :: id in s.waits.Keys + s.lastSeenCall.Keys + s.lastTrustedWorkerIds ==> roleOf(id) == Worker)
  }

  ghost predicate AlikeCalls(c: Call, d: Call, roleOf: RoleOf) {
    && d.source == c.source && d.workers == c.workers && d.sentinels == []
    && d.stopping == Workers(c.stopping, roleOf)
    && (forall id :: id in c.workers ==> roleOf(id) == Worker)
  }

  ghost predicate Alike(m: Machine, n: Machine, roleOf: RoleOf) {
    && AlikeStates(m.state, n.state, roleOf)
    && m.call.Some? == n.call.Some?
    && (m.call.Some? ==> AlikeCalls(m.call.value, n.call.value, roleOf))
  }

  lemma HeldInAll(reserved: map<Source, set<Id>>)
    ensures forall id :: id in AllHeld(reserved) <==> exists source :: id in Held(reserved, source)
  {
    forall id | id in AllHeld(reserved) ensures exists source :: id in Held(reserved, source) {
      var source :| source in reserved && id in reserved[source];
      assert id in Held(reserved, source);
    }
  }

  lemma OccupiedAlike(s: State, t: State, census: seq<Id>, roleOf: RoleOf)
    requires AlikeStates(s, t, roleOf)
    ensures OccupiedBy(Workers(census, roleOf), t.reserved, roleOf) == OccupiedBy(census, s.reserved, roleOf)
  {
    WorkersOfWorkers(census, roleOf);
    HeldInAll(s.reserved);
    HeldInAll(t.reserved);
    forall id | roleOf(id) == Worker ensures id in AllHeld(t.reserved) <==> id in AllHeld(s.reserved) {
      if id in AllHeld(s.reserved) {
        var source :| id in Held(s.reserved, source);
        assert id in WorkerSet(Held(s.reserved, source), roleOf);
        assert id in Held(t.reserved, source);
      }
      if id in AllHeld(t.reserved) {
        var source :| id in Held(t.reserved, source);
        assert id in Held(s.reserved, source);
      }
    }
    assert WorkerSet(AllHeld(t.reserved), roleOf) == WorkerSet(AllHeld(s.reserved), roleOf);
  }

  lemma RefusedAlike(s: State, t: State, c: Call, d: Call, census: seq<Id>, roleOf: RoleOf, maxPolls: int)
    requires AlikeStates(s, t, roleOf) && AlikeCalls(c, d, roleOf)
    ensures Refused(s, c, census, roleOf, maxPolls) == Refused(t, d, Workers(census, roleOf), roleOf, maxPolls)
  {
    WorkersOfWorkers(census, roleOf);
    WorkersOfWorkers(c.stopping, roleOf);
    assert Explained(s, c, census, roleOf) == Explained(t, d, Workers(census, roleOf), roleOf);
  }

  lemma AcceptAlike(s: State, t: State, census: seq<Id>, roleOf: RoleOf)
    requires AlikeStates(s, t, roleOf)
    ensures AlikeStates(Accept(s, census, roleOf), Accept(t, Workers(census, roleOf), roleOf), roleOf)
  {
    WorkersOfWorkers(census, roleOf);
    WithRoleMembers(census, roleOf, Worker);
  }

  lemma ReserveAlike(r: map<Source, set<Id>>, q: map<Source, set<Id>>, holder: Source, ids: seq<Id>, roleOf: RoleOf)
    requires forall source :: Held(q, source) == WorkerSet(Held(r, source), roleOf)
    ensures forall source :: Held(Reserve(q, holder, Workers(ids, roleOf)), source) == WorkerSet(Held(Reserve(r, holder, ids), source), roleOf)
    ensures forall source :: Held(Release(q, holder, Workers(ids, roleOf)), source) == WorkerSet(Held(Release(r, holder, ids), source), roleOf)
  {
    WithRoleMembers(ids, roleOf, Worker);
    forall source {:trigger Held(q, source)}
      ensures Held(Reserve(q, holder, Workers(ids, roleOf)), source) == WorkerSet(Held(Reserve(r, holder, ids), source), roleOf)
      ensures Held(Release(q, holder, Workers(ids, roleOf)), source) == WorkerSet(Held(Release(r, holder, ids), source), roleOf)
    {
      assert Held(q, source) == WorkerSet(Held(r, source), roleOf);
    }
  }

  /** The ledger is keyed by candidates it was handed, so it never comes to hold a sentinel. */
  lemma AgeKeepsKeys(waits: Waits, lastSeen: map<Id, nat>, call: nat, withheld: seq<Id>, admitted: seq<Id>)
    ensures var (w, seen) := Age(waits, lastSeen, call, withheld, admitted);
      w.Keys + seen.Keys <= waits.Keys + lastSeen.Keys + ToSet(withheld)
  {
    AddWaitsCounts(waits, withheld);
  }

  lemma PassAlike(s: State, t: State, c: Call, d: Call, census: seq<Id>, cap: int, roleOf: RoleOf, limitOf: LimitOf, now: int)
    requires AlikeStates(s, t, roleOf) && AlikeCalls(c, d, roleOf)
    ensures var p := CallPass(s, c, census, cap, roleOf, limitOf, now);
      && CallPass(t, d, Workers(census, roleOf), cap, roleOf, limitOf, now) == p
      && (forall id :: id in p.admitted || id in p.withheld ==> roleOf(id) == Worker)
  {
    hide OccupiedBy, Pass, OrderByWait;
    OccupiedAlike(s, t, census, roleOf);
    OrderByWaitMembers(c.workers, s.waits);
    PassMembers(OrderByWait(c.workers, s.waits), cap - |OccupiedBy(census, s.reserved, roleOf)|, limitOf, s.ruleLastAdmittedAt, now);
  }

  lemma RationAlike(s: State, t: State, c: Call, d: Call, census: seq<Id>, cap: int, roleOf: RoleOf, limitOf: LimitOf, now: int)
    requires AlikeStates(s, t, roleOf) && AlikeCalls(c, d, roleOf)
    ensures CallPass(t, d, Workers(census, roleOf), cap, roleOf, limitOf, now) == CallPass(s, c, census, cap, roleOf, limitOf, now)
    ensures AlikeStates(Ration(s, c, census, cap, roleOf, limitOf, now),
                        Ration(t, d, Workers(census, roleOf), cap, roleOf, limitOf, now), roleOf)
  {
    hide CallPass, Age, NotDeferred, Reserve, Workers;
    PassAlike(s, t, c, d, census, cap, roleOf, limitOf, now);
    var p := CallPass(s, c, census, cap, roleOf, limitOf, now);
    AgeKeepsKeys(s.waits, s.lastSeenCall, s.callCount + 1, p.withheld, p.admitted);
    AllWorkers(p.admitted, roleOf);
    ReserveAlike(s.reserved, t.reserved, c.source, p.admitted, roleOf);
  }

  /** A call's end takes the same worker decisions and leaves the states alike. */
  lemma EndAlike(s: State, t: State, c: Call, d: Call, census: Option<seq<Id>>, fleet: Settings, roleOf: RoleOf, limitOf: LimitOf, now: int)
    requires AlikeStates(s, t, roleOf) && AlikeCalls(c, d, roleOf)
    ensures var kept := if census.Some? then Some(Workers(census.value, roleOf)) else None;
      var (s', let) := EndCall(s, c, census, fleet.cap, fleet.maxPolls, roleOf, limitOf, now);
      var (t', erased) := EndCall(t, d, kept, fleet.cap, fleet.maxPolls, roleOf, limitOf, now);
      && AlikeStates(s', t', roleOf)
      && erased.workers == let.workers
      && let.sentinels == c.sentinels && erased.sentinels == []
  {
    hide Ration, CallPass, Refused, Accept;
    if census.Some? {
      var ids := census.value;
      RefusedAlike(s, t, c, d, ids, roleOf, fleet.maxPolls);
      AcceptAlike(s, t, ids, roleOf);
      RationAlike(Accept(s, ids, roleOf), Accept(t, Workers(ids, roleOf), roleOf), c, d, ids, fleet.cap, roleOf, limitOf, now);
    }
  }

  lemma StepAlike(m: Machine, n: Machine, op: Op, fleet: Settings, roleOf: RoleOf)
    requires Alike(m, n, roleOf) && Allowed(m, op)
    requires RolesFixed([op], roleOf)
    ensures Allowed(n, Erase(op, roleOf))
    ensures Alike(Next(m, op, fleet), Next(n, Erase(op, roleOf), fleet), roleOf)
    ensures var let, erased := Returned(m, op, fleet), Returned(n, Erase(op, roleOf), fleet);
      && let.Some? == erased.Some?
      && (let.Some? ==> erased.value.workers == let.value.workers && let.value.sentinels == m.call.value.sentinels)
  {
    assert [op][0] == op;
    match op {
      case Begin(source, candidates, stopping, r) =>
        WorkersOfWorkers(candidates, roleOf);
        WithRoleMembers(candidates, roleOf, Worker);
        forall other {:trigger Held(m.state.reserved, other)}
          ensures Held(n.state.reserved - {source}, other) == WorkerSet(Held(m.state.reserved - {source}, other), roleOf)
        {
          assert Held(n.state.reserved, other) == WorkerSet(Held(m.state.reserved, other), roleOf);
        }
      case End(census, r, limitOf, now) =>
        hide EndCall;
        EndAlike(m.state, n.state, m.call.value, n.call.value, census, fleet, roleOf, limitOf, now);
      case ReserveIds(source, ids) => ReserveAlike(m.state.reserved, n.state.reserved, source, ids, roleOf);
      case ReleaseIds(source, ids) => ReserveAlike(m.state.reserved, n.state.reserved, source, ids, roleOf);
      case RecordSpawned(ids) =>
        WithRoleMembers(ids, roleOf, Worker);
        assert m.state.waits - ToSet(ids) == m.state.waits - ToSet(Workers(ids, roleOf));
        assert m.state.lastSeenCall - ToSet(ids) == m.state.lastSeenCall - ToSet(Workers(ids, roleOf));
    }
  }

  // ---------- whole runs ----------

  /** The lists the calls of a run let in, in order: workers, then sentinels. */
  ghost function Outcomes(m: Machine, ops: seq<Op>, fleet: Settings): seq<Outcome>
    requires RunAllowed(m, ops, fleet)
    decreases |ops|
  {
    if ops == [] then []
    else
      var let := Returned(m, ops[0], fleet);
      (if let.Some? then [let.value] else []) + Outcomes(Next(m, ops[0], fleet), ops[1..], fleet)
  }

  lemma {:induction false} RunsAlike(m: Machine, n: Machine, ops: seq<Op>, fleet: Settings, roleOf: RoleOf)
    requires Alike(m, n, roleOf) && RunAllowed(m, ops, fleet) && RolesFixed(ops, roleOf)
    ensures RunAllowed(n, EraseAll(ops, roleOf), fleet)
    ensures Alike(RunTo(m, ops, fleet), RunTo(n, EraseAll(ops, roleOf), fleet), roleOf)
    ensures var a, b := Outcomes(m, ops, fleet), Outcomes(n, EraseAll(ops, roleOf), fleet);
      |a| == |b| && forall i :: 0 <= i < |a| ==> a[i].workers == b[i].workers
    decreases |ops|
  {
    if ops != [] {
      hide Next, Returned;
      StepAlike(m, n, ops[0], fleet, roleOf);
      RunsAlike(Next(m, ops[0], fleet), Next(n, Erase(ops[0], roleOf), fleet), ops[1..], fleet, roleOf);
      assert EraseAll(ops, roleOf)[1..] == EraseAll(ops[1..], roleOf);
    }
  }

  /** Deleting every sentinel from everything the controller is told leaves the worker admissions of
      every call, the wait ledger, the trust state and the withheld list unchanged. */
  lemma SentinelsDoNotInterfere(sources: set<Source>, start: int, ops: seq<Op>, fleet: Settings, roleOf: RoleOf)
    requires RunAllowed(Machine(InitialState(sources, start), None), ops, fleet) && RolesFixed(ops, roleOf)
    ensures var m0 := Machine(InitialState(sources, start), None);
      && RunAllowed(m0, EraseAll(ops, roleOf), fleet)
      && (var s, t := RunTo(m0, ops, fleet).state, RunTo(m0, EraseAll(ops, roleOf), fleet).state;
          && t.waits == s.waits && t.lastSeenCall == s.lastSeenCall && t.callCount == s.callCount
          && t.lastTrusted == s.lastTrusted && t.lastTrustedWorkerIds == s.lastTrustedWorkerIds && t.streak == s.streak
          && t.lastWithheld == s.lastWithheld && t.ruleLastAdmittedAt == s.ruleLastAdmittedAt && t.buckets == s.buckets)
      && (var a, b := Outcomes(m0, ops, fleet), Outcomes(m0, EraseAll(ops, roleOf), fleet);
          |a| == |b| && forall i :: 0 <= i < |a| ==> a[i].workers == b[i].workers)
  {
    var m0 := Machine(InitialState(sources, start), None);
    RunsAlike(m0, m0, ops, fleet, roleOf);
  }

  /** Every sentinel candidate is let in, on every path a call can take. */
  lemma SentinelsAlwaysAdmitted(s: State, source: Source, candidates: seq<Id>, stopping: seq<Id>, census: Option<seq<Id>>,
                                fleet: Settings, roleOf: RoleOf, endRoleOf: RoleOf, limitOf: LimitOf, now: int, id: Id)
    requires id in candidates && roleOf(id) == Sentinel
    ensures var call := BeginCall(source, candidates, stopping, roleOf);
      id in EndCall(s, call, census, fleet.cap, fleet.maxPolls, endRoleOf, limitOf, now).1.sentinels
  {
    WithRoleMembers(candidates, roleOf, Sentinel);
  }
}
