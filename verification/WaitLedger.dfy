/**
 The wait ledger and the report of a rationed call, said from what calls were offered and what they let in
 (src/agents/admission.ts).
 */
module WaitLedger {
  import opened Wrappers
  import opened AdmissionOrder
  import opened RateLimits
  import opened Admission

  // ---------- waits ----------

  /** How often an id has been held back, and for how many rationed calls it has not been seen. */
  datatype Tally = Tally(wait: nat, idle: nat)

  const MAX_IDLE := 200

  /** The step ends a call that was believed and had workers to ration. */
  ghost predicate Rationed(m: Machine, op: Op, fleet: Settings)
    requires Allowed(m, op)
  {
    op.End? && m.call.value.workers != []
    && m.call.value.source in Next(m, op, fleet).state.buckets
    && Next(m, op, fleet).state.buckets[m.call.value.source].Checked?
    && op.census.Some?
  }

  /** An id held back waits on; one let in that had waited is in sight; one unseen for too long, or spawned, is
      forgotten. */
  ghost function TallyAfter(m: Machine, op: Op, fleet: Settings, id: Id, t: Option<Tally>): Option<Tally>
    requires Allowed(m, op)
  {
    if Rationed(m, op, fleet) then
      var offered, letIn := multiset(m.call.value.workers)[id], multiset(Returned(m, op, fleet).value.workers)[id];
      if offered > letIn then Some(Tally((if t.Some? then t.value.wait else 0) + offered - letIn, 0))
      else if t.None? then None
      else if letIn > 0 then Some(t.value.(idle := 0))
      else if t.value.idle < MAX_IDLE then Some(t.value.(idle := t.value.idle + 1))
      else None
    else if op.RecordSpawned? && id in op.ids then None
    else t
  }

  ghost function RunTally(m: Machine, ops: seq<Op>, fleet: Settings, id: Id, t: Option<Tally>): Option<Tally>
    requires RunAllowed(m, ops, fleet)
    decreases |ops|
  {
    if ops == [] then t else RunTally(Next(m, ops[0], fleet), ops[1..], fleet, id, TallyAfter(m, ops[0], fleet, id, t))
  }

  ghost predicate Tallies(s: State, id: Id, t: Option<Tally>) {
    && (id in s.waits <==> t.Some?) && (id in s.lastSeenCall <==> t.Some?)
    && (t.Some? ==> s.waits[id] == t.value.wait && s.lastSeenCall[id] + t.value.idle == s.callCount && t.value.idle <= MAX_IDLE)
  }

  lemma PassHoldsBack(s: State, call: Call, census: seq<Id>, cap: int, roleOf: RoleOf, limitOf: LimitOf, now: int, id: Id)
    ensures var p := CallPass(s, call, census, cap, roleOf, limitOf, now);
      multiset(call.workers)[id] == multiset(p.admitted)[id] + multiset(p.withheld)[id]
  {
    var ordered := OrderByWait(call.workers, s.waits);
    OrderByWaitSorts(call.workers, s.waits);
    PassMembers(ordered, cap - |OccupiedBy(census, s.reserved, roleOf)|, limitOf, s.ruleLastAdmittedAt, now);
  }

  /** Ageing, for one id. */
  lemma AgedOne(waits: Waits, lastSeen: map<Id, nat>, call: nat, withheld: seq<Id>, admitted: seq<Id>, id: Id, t: Option<Tally>)
    requires (id in waits <==> t.Some?) && (id in lastSeen <==> t.Some?)
    requires t.Some? ==> waits[id] == t.value.wait && lastSeen[id] + t.value.idle + 1 == call && t.value.idle <= MAX_IDLE
    ensures var (w, seen) := Age(waits, lastSeen, call, withheld, admitted);
      var held := multiset(withheld)[id];
      var t' := if held > 0 then Some(Tally((if t.Some? then t.value.wait else 0) + held, 0))
                else if t.None? then None
                else if id in admitted then Some(t.value.(idle := 0))
                else if t.value.idle < MAX_IDLE then Some(t.value.(idle := t.value.idle + 1))
                else None;
      && (id in w <==> t'.Some?) && (id in seen <==> t'.Some?)
      && (t'.Some? ==> w[id] == t'.value.wait && seen[id] + t'.value.idle == call)
  {
    AddWaitsCounts(waits, withheld);
    assert id in ToSet(withheld) <==> multiset(withheld)[id] > 0;
    hide AddWaits;
  }

  lemma RationTallies(s: State, call: Call, census: seq<Id>, cap: int, roleOf: RoleOf, limitOf: LimitOf, now: int, id: Id, t: Option<Tally>)
    requires Tallies(s, id, t)
    ensures var p := CallPass(s, call, census, cap, roleOf, limitOf, now);
      var held := multiset(p.withheld)[id];
      var t' := if held > 0 then Some(Tally((if t.Some? then t.value.wait else 0) + held, 0))
                else if t.None? then None
                else if id in p.admitted then Some(t.value.(idle := 0))
                else if t.value.idle < MAX_IDLE then Some(t.value.(idle := t.value.idle + 1))
                else None;
      Tallies(Ration(s, call, census, cap, roleOf, limitOf, now), id, t')
  {
    hide CallPass, NotDeferred, Reserve;
    var p := CallPass(s, call, census, cap, roleOf, limitOf, now);
    AgedOne(s.waits, s.lastSeenCall, s.callCount + 1, p.withheld, p.admitted, id, t);
    hide Age;
  }

  /** How a call ends, as far as the ledger goes. */
  lemma EndOfCall(m: Machine, op: Op, fleet: Settings)
    requires Allowed(m, op) && op.End?
    ensures var s, s' := m.state, Next(m, op, fleet).state;
      if Rationed(m, op, fleet) then
        var trusted := Accept(s, op.census.value, op.endRoleOf);
        && s' == Ration(trusted, m.call.value, op.census.value, fleet.cap, op.endRoleOf, op.limitOf, op.now)
        && Returned(m, op, fleet)
           == Some(Outcome(CallPass(trusted, m.call.value, op.census.value, fleet.cap, op.endRoleOf, op.limitOf, op.now).admitted, m.call.value.sentinels))
      else s'.waits == s.waits && s'.lastSeenCall == s.lastSeenCall && s'.callCount == s.callCount
  {
    hide Refused, CallPass, Age, NotDeferred, Reserve;
  }

  lemma EndTallies(m: Machine, op: Op, fleet: Settings, id: Id, t: Option<Tally>)
    requires Allowed(m, op) && op.End? && Tallies(m.state, id, t)
    ensures Tallies(Next(m, op, fleet).state, id, TallyAfter(m, op, fleet, id, t))
  {
    hide Next, Returned, Ration, CallPass, Rationed;
    EndOfCall(m, op, fleet);
    if Rationed(m, op, fleet) {
      RationedHasCensus(m, op, fleet);
      var trusted := Accept(m.state, op.census.value, op.endRoleOf);
      RationTallies(trusted, m.call.value, op.census.value, fleet.cap, op.endRoleOf, op.limitOf, op.now, id, t);
      PassHoldsBack(trusted, m.call.value, op.census.value, fleet.cap, op.endRoleOf, op.limitOf, op.now, id);
      var p := CallPass(trusted, m.call.value, op.census.value, fleet.cap, op.endRoleOf, op.limitOf, op.now);
      assert id in p.admitted <==> multiset(p.admitted)[id] > 0;
    }
  }

  lemma RationedHasCensus(m: Machine, op: Op, fleet: Settings)
    requires Allowed(m, op)
    ensures Rationed(m, op, fleet) ==> op.End? && op.census.Some?
  {
    hide Next;
  }

  lemma StepTallies(m: Machine, op: Op, fleet: Settings, id: Id, t: Option<Tally>)
    requires Allowed(m, op) && Tallies(m.state, id, t)
    ensures Tallies(Next(m, op, fleet).state, id, TallyAfter(m, op, fleet, id, t))
  {
    hide Reserve, Release, WithRole, EndCall;
    if op.End? { EndTallies(m, op, fleet, id, t); }
  }

  lemma {:induction false} RunTallies(m: Machine, ops: seq<Op>, fleet: Settings, id: Id, t: Option<Tally>)
    requires RunAllowed(m, ops, fleet) && Tallies(m.state, id, t)
    ensures Tallies(RunTo(m, ops, fleet).state, id, RunTally(m, ops, fleet, id, t))
    decreases |ops|
  {
    hide Next, Tallies, TallyAfter, Allowed;
    if ops != [] {
      StepTallies(m, ops[0], fleet, id, t);
      RunTallies(Next(m, ops[0], fleet), ops[1..], fleet, id, TallyAfter(m, ops[0], fleet, id, t));
    }
  }

  /** Over any run an id's wait is the number of times it has been held back since it was last spawned or forgotten,
      and it is forgotten exactly when more than two hundred rationed calls have gone by without holding it back or
      letting it in. */
  lemma WaitsAreTallied(sources: set<Source>, start: int, ops: seq<Op>, fleet: Settings, id: Id)
    requires RunAllowed(Machine(InitialState(sources, start), None), ops, fleet)
    ensures var m0 := Machine(InitialState(sources, start), None);
      var s, t := RunTo(m0, ops, fleet).state, RunTally(m0, ops, fleet, id, None);
      (id in s.waits <==> t.Some?) && WaitOf(s.waits, id) == if t.Some? then t.value.wait else 0
  {
    RunTallies(Machine(InitialState(sources, start), None), ops, fleet, id, None);
    hide RunTo, RunTally, RunAllowed;
  }

  // ---------- what a call reports ----------

  /** At some place of the order the id found no place left. */
  ghost predicate FoundNoPlace(ordered: seq<Id>, budget: int, limitOf: LimitOf, ledger: map<RuleId, int>, now: int, id: Id) {
    exists i :: 0 <= i < |ordered| && ordered[i] == id && |Pass(ordered[..i], budget, limitOf, ledger, now).admitted| >= Max(0, budget)
  }

  /** At some place it found one, but not its turn. */
  ghost predicate FoundNoTurn(ordered: seq<Id>, budget: int, limitOf: LimitOf, ledger: map<RuleId, int>, now: int, id: Id) {
    exists i ::
      && 0 <= i < |ordered| && ordered[i] == id
      && |Pass(ordered[..i], budget, limitOf, ledger, now).admitted| < budget
      && !HasTurn(Pass(ordered[..i], budget, limitOf, ledger, now).admitted, id, budget, limitOf, ledger, now)
  }

  lemma {:induction false} HeldBackWhere(ordered: seq<Id>, n: nat, budget: int, limitOf: LimitOf, ledger: map<RuleId, int>, now: int, id: Id)
    requires n <= |ordered|
    ensures var p := Pass(ordered[..n], budget, limitOf, ledger, now);
      && (id in p.withheld <==> exists i ::
            && 0 <= i < n && ordered[i] == id
            && !HasTurn(Pass(ordered[..i], budget, limitOf, ledger, now).admitted, id, budget, limitOf, ledger, now))
      && (id in p.rateDeferred <==> exists i ::
            && 0 <= i < n && ordered[i] == id
            && |Pass(ordered[..i], budget, limitOf, ledger, now).admitted| < budget
            && !HasTurn(Pass(ordered[..i], budget, limitOf, ledger, now).admitted, id, budget, limitOf, ledger, now))
    decreases n
  {
    hide HasTurn, Turn, Pass;
    if n > 0 {
      HeldBackWhere(ordered, n - 1, budget, limitOf, ledger, now, id);
      AdmittedExactly(ordered, n - 1, budget, limitOf, ledger, now);
    } else {
      NobodyYet(ordered, budget, limitOf, ledger, now);
    }
  }

  lemma NobodyYet(ordered: seq<Id>, budget: int, limitOf: LimitOf, ledger: map<RuleId, int>, now: int)
    ensures Pass(ordered[..0], budget, limitOf, ledger, now) == EmptyPass
  {
  }

  /** A rationed call reports, in its bucket and for the fleet, exactly the workers that found no place left and were
      not passed over for their rate. */
  lemma ReportIsTheCap(m: Machine, op: Op, fleet: Settings, id: Id)
    requires Allowed(m, op) && Rationed(m, op, fleet)
    ensures var s, after, call := m.state, Next(m, op, fleet).state, m.call.value;
      var ordered := OrderByWait(call.workers, s.waits);
      var budget := fleet.cap - |OccupiedBy(op.census.value, s.reserved, op.endRoleOf)|;
      && after.buckets[call.source] == Checked(op.now, after.lastWithheld)
      && (id in after.lastWithheld <==>
            && FoundNoPlace(ordered, budget, op.limitOf, s.ruleLastAdmittedAt, op.now, id)
            && !FoundNoTurn(ordered, budget, op.limitOf, s.ruleLastAdmittedAt, op.now, id))
  {
    hide Age, Reserve, Refused, OccupiedBy, Pass, HasTurn, OrderByWait, NotDeferred;
    EndOfCall(m, op, fleet);
    var s, call := m.state, m.call.value;
    var ordered := OrderByWait(call.workers, s.waits);
    var budget := fleet.cap - |OccupiedBy(op.census.value, s.reserved, op.endRoleOf)|;
    var p := Pass(ordered, budget, op.limitOf, s.ruleLastAdmittedAt, op.now);
    hide Next, Rationed, Returned;
    NotDeferredMembers(p.withheld, p.rateDeferred);
    HeldBackWhere(ordered, |ordered|, budget, op.limitOf, s.ruleLastAdmittedAt, op.now, id);
    assert ordered[..|ordered|] == ordered;
    NoPlaceNoTurn(ordered, budget, op.limitOf, s.ruleLastAdmittedAt, op.now, id);
  }

  lemma NoPlaceNoTurn(ordered: seq<Id>, budget: int, limitOf: LimitOf, ledger: map<RuleId, int>, now: int, id: Id)
    ensures forall i :: 0 <= i < |ordered| && |Pass(ordered[..i], budget, limitOf, ledger, now).admitted| >= Max(0, budget) ==>
      !HasTurn(Pass(ordered[..i], budget, limitOf, ledger, now).admitted, id, budget, limitOf, ledger, now)
  {
    hide Pass;
  }

  /** And one with no workers to ration reports that nobody is held back. */
  lemma NobodyToHoldBack(m: Machine, op: Op, fleet: Settings)
    requires Allowed(m, op) && op.End? && m.call.value.workers == []
    requires m.call.value.source in Next(m, op, fleet).state.buckets && Next(m, op, fleet).state.buckets[m.call.value.source].Checked?
    requires op.census.Some?
    ensures var after := Next(m, op, fleet).state; after.lastWithheld == [] && after.buckets[m.call.value.source] == Checked(op.now, [])
  {
    hide Refused, Accept;
  }
}
