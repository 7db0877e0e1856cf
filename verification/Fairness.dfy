/**
 Starvation freedom of aging: a worker that keeps being offered, and that always finds a free
 slot somewhere in the order, is admitted within a bound known in advance.
 */
module Fairness {
  import opened Wrappers
  import opened AdmissionOrder
  import opened RateLimits
  import opened Admission

  // ---------- the measure ----------

  /** How many more times d can be let in ahead of c while c keeps waiting. */
  function Lead(waits: Waits, d: Id, c: Id): nat {
    var ahead := WaitOf(waits, d) - WaitOf(waits, c) + (if d != c && KeyLe(d, c) then 1 else 0);
    if d == c || ahead < 0 then 0 else ahead
  }

  /** The rivals' leads over c, summed over the ids its source may ever offer. */
  function Phi(waits: Waits, roster: seq<Id>, c: Id): nat {
    if roster == [] then 0 else Lead(waits, roster[0], c) + Phi(waits, roster[1..], c)
  }

  /** d stands before c exactly when its lead is positive. */
  lemma LeadMeansPrecedes(waits: Waits, d: Id, c: Id)
    requires d != c
    ensures Lead(waits, d, c) > 0 <==> Precedes(waits, d, c)
  {
  }

  lemma {:induction false} PhiDoesNotGrow(before: Waits, after: Waits, roster: seq<Id>, c: Id)
    requires forall d :: d in roster ==> Lead(after, d, c) <= Lead(before, d, c)
    ensures Phi(after, roster, c) <= Phi(before, roster, c)
  {
    if roster != [] {
      PhiDoesNotGrow(before, after, roster[1..], c);
    }
  }

  lemma {:induction false} PhiFalls(before: Waits, after: Waits, roster: seq<Id>, c: Id, rival: Id)
    requires forall d :: d in roster ==> Lead(after, d, c) <= Lead(before, d, c)
    requires rival in roster && Lead(after, rival, c) < Lead(before, rival, c)
    ensures Phi(after, roster, c) < Phi(before, roster, c)
  {
    if roster[0] == rival {
      PhiDoesNotGrow(before, after, roster[1..], c);
    } else {
      PhiFalls(before, after, roster[1..], c, rival);
    }
  }

  // ---------- one accepted call that withholds c ----------

  ghost predicate Distinct(ids: seq<Id>) {
    forall i, j :: 0 <= i < j < |ids| ==> ids[i] != ids[j]
  }

  lemma {:induction false} DistinctMultiset(ids: seq<Id>)
    requires Distinct(ids)
    ensures forall id :: multiset(ids)[id] <= 1
  {
    if ids != [] {
      DistinctMultiset(ids[1..]);
      assert ids == [ids[0]] + ids[1..];
      assert ids[0] !in ids[1..];
    }
  }

  lemma {:induction false} OrderedPrefix(ids: seq<Id>, k: nat, waits: Waits, d: Id)
    requires Ordered(ids, waits) && k < |ids| && d in ids[..k]
    ensures Precedes(waits, d, ids[k])
  {
    var i :| 0 <= i < k && ids[i] == d;
  }

  /** If c is withheld with a slot free and no rate limit of its own, some rival standing before it
      was let in. */
  lemma RivalAdmitted(p: RateLimitedAdmission, candidates: seq<Id>, budget: int, limitOf: LimitOf, ledger: map<RuleId, int>,
                      now: int, waits: Waits, c: Id) returns (rival: Id)
    requires Ordered(candidates, waits) && Distinct(candidates)
    requires p == Pass(candidates, budget, limitOf, ledger, now)
    requires budget >= 1 && c in p.withheld && EffectiveLimit(limitOf, c).None?
    ensures rival in p.admitted && rival != c && rival in candidates && Precedes(waits, rival, c)
  {
    UnlimitedNeverDeferred(candidates, c, budget, limitOf, ledger, now);
    var k := CapWithholdsOnlyWhenSpent(candidates, c, budget, limitOf, ledger, now);
    var early := Pass(candidates[..k], budget, limitOf, ledger, now);
    rival := early.admitted[0];
    PassGrows(candidates, k, budget, limitOf, ledger, now);
    PassMembers(candidates[..k], budget, limitOf, ledger, now);
    assert rival in early.admitted && rival in candidates[..k];
    assert p.admitted[0] == rival;
    OrderedPrefix(candidates, k, waits, rival);
    var i :| 0 <= i < k && candidates[..k][i] == rival;
  }

  /** What an accepted call does to one wait: up by one if withheld, unchanged or dropped if not. */
  lemma AgeMovesOneWait(waits: Waits, lastSeen: map<Id, nat>, call: nat, withheld: seq<Id>, admitted: seq<Id>, id: Id)
    requires multiset(withheld)[id] <= 1
    ensures var w := Age(waits, lastSeen, call, withheld, admitted).0;
      && (id in withheld ==> WaitOf(w, id) == WaitOf(waits, id) + 1)
      && (id !in withheld ==> WaitOf(w, id) <= WaitOf(waits, id))
  {
    AddWaitsCounts(waits, withheld);
    assert id in withheld <==> id in multiset(withheld);
    assert id in withheld ==> id !in Stale(Seen(lastSeen, ToSet(withheld) + ToSet(admitted) * AddWaits(waits, withheld).Keys, call), call);
  }

  /** Each accepted call of c's source that withholds c, with a slot free, lowers the measure:
      c gains on everyone the call did not withhold, and someone ahead of c was not withheld. */
  lemma WithheldCallLowersPhi(s: State, call: Call, census: seq<Id>, cap: int, roleOf: RoleOf, limitOf: LimitOf, now: int,
                              roster: seq<Id>, c: Id)
    requires Distinct(call.workers) && c in call.workers
    requires forall id :: id in call.workers ==> id in roster
    requires cap - |OccupiedBy(census, s.reserved, roleOf)| >= 1 && EffectiveLimit(limitOf, c).None?
    requires c !in CallPass(s, call, census, cap, roleOf, limitOf, now).admitted
    ensures Phi(Ration(s, call, census, cap, roleOf, limitOf, now).waits, roster, c) < Phi(s.waits, roster, c)
  {
    hide OccupiedBy, Age, Pass, OrderByWait, NotDeferred;
    var budget := cap - |OccupiedBy(census, s.reserved, roleOf)|;
    var ordered := OrderByWait(call.workers, s.waits);
    var p := Pass(ordered, budget, limitOf, s.ruleLastAdmittedAt, now);
    OrderByWaitSorts(call.workers, s.waits);
    OrderByWaitMembers(call.workers, s.waits);
    DistinctMultiset(call.workers);
    DistinctFromCounts(ordered);
    PassMembers(ordered, budget, limitOf, s.ruleLastAdmittedAt, now);
    var rival := RivalAdmitted(p, ordered, budget, limitOf, s.ruleLastAdmittedAt, now, s.waits, c);
    var after := Ration(s, call, census, cap, roleOf, limitOf, now).waits;
    assert after == Age(s.waits, s.lastSeenCall, s.callCount + 1, p.withheld, p.admitted).0;
    assert multiset(call.workers) == multiset(p.admitted) + multiset(p.withheld);
    forall d ensures multiset(p.withheld)[d] <= 1 {
      assert multiset(call.workers)[d] <= 1;
    }
    forall d ensures Lead(after, d, c) <= Lead(s.waits, d, c) {
      AgeMovesOneWait(s.waits, s.lastSeenCall, s.callCount + 1, p.withheld, p.admitted, d);
      AgeMovesOneWait(s.waits, s.lastSeenCall, s.callCount + 1, p.withheld, p.admitted, c);
    }
    assert rival !in p.withheld by {
      assert rival in multiset(p.admitted);
      assert multiset(call.workers)[rival] <= 1;
    }
    AgeMovesOneWait(s.waits, s.lastSeenCall, s.callCount + 1, p.withheld, p.admitted, rival);
    AgeMovesOneWait(s.waits, s.lastSeenCall, s.callCount + 1, p.withheld, p.admitted, c);
    LeadMeansPrecedes(s.waits, rival, c);
    PhiFalls(s.waits, after, roster, c, rival);
  }

  lemma {:induction false} DistinctFromCounts(ids: seq<Id>)
    requires forall id :: multiset(ids)[id] <= 1
    ensures Distinct(ids)
  {
    forall i, j | 0 <= i < j < |ids| ensures ids[i] != ids[j] {
      assert ids == ids[..j] + ids[j..];
      assert multiset(ids)[ids[j]] == multiset(ids[..j])[ids[j]] + multiset(ids[j..])[ids[j]];
      assert ids[j..][0] == ids[j];
      assert ids[j] in multiset(ids[j..]);
      assert ids[..j][i] == ids[i];
      assert ids[i] in multiset(ids[..j]);
    }
  }

  // ---------- whole runs ----------

  /** The op ends a call whose census was believed and that had workers to ration. */
  predicate Rations(m: Machine, op: Op, fleet: Settings) {
    && op.End? && m.call.Some? && op.census.Some?
    && !Refused(m.state, m.call.value, op.census.value, op.endRoleOf, fleet.maxPolls)
    && m.call.value.workers != []
  }

  predicate TurnOf(m: Machine, op: Op, fleet: Settings, source: Source) {
    Rations(m, op, fleet) && m.call.value.source == source
  }

  predicate AdmitsNow(m: Machine, op: Op, fleet: Settings, c: Id)
    requires Allowed(m, op)
  {
    var let := Returned(m, op, fleet);
    let.Some? && c in let.value.workers
  }

  function NextGap(m: Machine, op: Op, fleet: Settings, source: Source, gap: nat): nat {
    if TurnOf(m, op, fleet, source) then 0 else if Rations(m, op, fleet) then gap + 1 else gap
  }

  /** One step of a run that is fair to c: its source offers c among distinct ids of the roster, with
      a free slot and no rate limit on c; other sources offer none of the roster's ids, and at most
      LEDGER_UNSEEN_EVICTION_CALLS of their calls fall between two of its source's; c, not being
      admitted, is not reported as spawned. */
  ghost predicate FairStep(m: Machine, op: Op, fleet: Settings, source: Source, c: Id, roster: seq<Id>, gap: nat) {
    && (TurnOf(m, op, fleet, source) ==>
          var call := m.call.value;
          && Distinct(call.workers) && c in call.workers
          && (forall id :: id in call.workers ==> id in roster)
          && fleet.cap - |OccupiedBy(op.census.value, m.state.reserved, op.endRoleOf)| >= 1
          && EffectiveLimit(op.limitOf, c).None?)
    && (Rations(m, op, fleet) && !TurnOf(m, op, fleet, source) ==>
          && (forall id :: id in m.call.value.workers ==> id !in roster)
          && gap + 1 <= LEDGER_UNSEEN_EVICTION_CALLS)
    && (op.RecordSpawned? ==> c !in op.ids)
  }

  /** The run is fair to c for as long as c has not been admitted. */
  ghost predicate FairRun(m: Machine, ops: seq<Op>, fleet: Settings, source: Source, c: Id, roster: seq<Id>, gap: nat)
    decreases |ops|
  {
    ops == []
    || (&& Allowed(m, ops[0])
        && FairStep(m, ops[0], fleet, source, c, roster, gap)
        && (AdmitsNow(m, ops[0], fleet, c)
            || FairRun(Next(m, ops[0], fleet), ops[1..], fleet, source, c, roster, NextGap(m, ops[0], fleet, source, gap))))
  }

  ghost predicate EverAdmits(m: Machine, ops: seq<Op>, fleet: Settings, c: Id)
    decreases |ops|
  {
    ops != [] && Allowed(m, ops[0])
    && (AdmitsNow(m, ops[0], fleet, c) || EverAdmits(Next(m, ops[0], fleet), ops[1..], fleet, c))
  }

  /** How many believed calls of the source the run holds. */
  ghost function Turns(m: Machine, ops: seq<Op>, fleet: Settings, source: Source): nat
    decreases |ops|
  {
    if ops == [] || !Allowed(m, ops[0]) then 0
    else (if TurnOf(m, ops[0], fleet, source) then 1 else 0) + Turns(Next(m, ops[0], fleet), ops[1..], fleet, source)
  }

  ghost predicate InSight(s: State, c: Id, gap: nat) {
    c in s.lastSeenCall ==> s.callCount - s.lastSeenCall[c] <= gap
  }

  /** A call of another source leaves c's wait alone and can only lower a rival's. */
  lemma OtherSourcesDoNotInterfere(s: State, call: Call, census: seq<Id>, cap: int, roleOf: RoleOf, limitOf: LimitOf, now: int,
                                   roster: seq<Id>, c: Id, gap: nat)
    requires forall id :: id in call.workers ==> id !in roster
    requires c in roster && InSight(s, c, gap) && gap + 1 <= LEDGER_UNSEEN_EVICTION_CALLS
    ensures var s' := Ration(s, call, census, cap, roleOf, limitOf, now);
      && InSight(s', c, gap + 1)
      && Phi(s'.waits, roster, c) <= Phi(s.waits, roster, c)
  {
    hide OccupiedBy, Pass, OrderByWait, NotDeferred, Age;
    var ordered := OrderByWait(call.workers, s.waits);
    var p := CallPass(s, call, census, cap, roleOf, limitOf, now);
    OrderByWaitMembers(call.workers, s.waits);
    PassMembers(ordered, cap - |OccupiedBy(census, s.reserved, roleOf)|, limitOf, s.ruleLastAdmittedAt, now);
    var s' := Ration(s, call, census, cap, roleOf, limitOf, now);
    AgePassesOver(s.waits, s.lastSeenCall, s.callCount + 1, p.withheld, p.admitted, c);
    forall d | d in roster ensures Lead(s'.waits, d, c) <= Lead(s.waits, d, c) {
      AgePassesOver(s.waits, s.lastSeenCall, s.callCount + 1, p.withheld, p.admitted, d);
    }
    PhiDoesNotGrow(s.waits, s'.waits, roster, c);
  }

  /** An id the call did not offer keeps its entry, unless it has been out of sight too long. */
  lemma AgePassesOver(waits: Waits, lastSeen: map<Id, nat>, call: nat, withheld: seq<Id>, admitted: seq<Id>, id: Id)
    requires id !in withheld && id !in admitted
    ensures var (w, seen) := Age(waits, lastSeen, call, withheld, admitted);
      && WaitOf(w, id) <= WaitOf(waits, id)
      && (id in seen ==> id in lastSeen && seen[id] == lastSeen[id])
      && ((id in lastSeen ==> call - lastSeen[id] <= LEDGER_UNSEEN_EVICTION_CALLS) ==> WaitOf(w, id) == WaitOf(waits, id))
  {
    AddWaitsCounts(waits, withheld);
    assert id in withheld <==> id in multiset(withheld);
  }

  /** A call of c's own source that withholds c keeps c in sight. */
  lemma WithheldStaysInSight(s: State, call: Call, census: seq<Id>, cap: int, roleOf: RoleOf, limitOf: LimitOf, now: int, c: Id)
    requires c in call.workers
    requires c !in CallPass(s, call, census, cap, roleOf, limitOf, now).admitted
    ensures InSight(Ration(s, call, census, cap, roleOf, limitOf, now), c, 0)
  {
    hide OccupiedBy, Pass, OrderByWait, NotDeferred;
    var ordered := OrderByWait(call.workers, s.waits);
    OrderByWaitMembers(call.workers, s.waits);
    PassMembers(ordered, cap - |OccupiedBy(census, s.reserved, roleOf)|, limitOf, s.ruleLastAdmittedAt, now);
  }

  /** One step of a fair run that does not admit c: the measure falls on a turn of c's source and
      never rises. */
  lemma StepLowersPhi(m: Machine, op: Op, fleet: Settings, source: Source, c: Id, roster: seq<Id>, gap: nat)
    requires Allowed(m, op) && FairStep(m, op, fleet, source, c, roster, gap) && !AdmitsNow(m, op, fleet, c)
    requires c in roster && InSight(m.state, c, gap)
    ensures var m' := Next(m, op, fleet);
      && InSight(m'.state, c, NextGap(m, op, fleet, source, gap))
      && Phi(m'.state.waits, roster, c) + (if TurnOf(m, op, fleet, source) then 1 else 0) <= Phi(m.state.waits, roster, c)
  {
    if Rations(m, op, fleet) {
      hide Ration, OccupiedBy, CallPass, Refused;
      var call, trusted := m.call.value, Accept(m.state, op.census.value, op.endRoleOf);
      if TurnOf(m, op, fleet, source) {
        WithheldCallLowersPhi(trusted, call, op.census.value, fleet.cap, op.endRoleOf, op.limitOf, op.now, roster, c);
        WithheldStaysInSight(trusted, call, op.census.value, fleet.cap, op.endRoleOf, op.limitOf, op.now, c);
      } else {
        OtherSourcesDoNotInterfere(trusted, call, op.census.value, fleet.cap, op.endRoleOf, op.limitOf, op.now, roster, c, gap);
      }
    } else {
      hide Ration, OccupiedBy, CallPass, Refused;
      var m' := Next(m, op, fleet);
      forall d | d in roster ensures Lead(m'.state.waits, d, c) <= Lead(m.state.waits, d, c) {
      }
      PhiDoesNotGrow(m.state.waits, m'.state.waits, roster, c);
    }
  }

  /** No starvation: in a run fair to c, either c is admitted, or its source has had no more believed
      calls than the rivals' leads sum to at the start. So c is in by call number Phi + 1. */
  lemma {:induction false} NoStarvation(m: Machine, ops: seq<Op>, fleet: Settings, source: Source, c: Id, roster: seq<Id>, gap: nat)
    requires FairRun(m, ops, fleet, source, c, roster, gap)
    requires c in roster && InSight(m.state, c, gap)
    ensures EverAdmits(m, ops, fleet, c) || Turns(m, ops, fleet, source) <= Phi(m.state.waits, roster, c)
    decreases |ops|
  {
    if ops != [] && !AdmitsNow(m, ops[0], fleet, c) {
      StepLowersPhi(m, ops[0], fleet, source, c, roster, gap);
      NoStarvation(Next(m, ops[0], fleet), ops[1..], fleet, source, c, roster, NextGap(m, ops[0], fleet, source, gap));
    }
  }

  /** From a fresh start only ids with smaller keys lead, by one each. */
  lemma {:induction false} FreshStartBound(roster: seq<Id>, c: Id)
    ensures Phi(map[], roster, c) <= |roster|
  {
    if roster != [] {
      FreshStartBound(roster[1..], c);
    }
  }
}
