/** The rate limits over whole runs of the admission machine: a rule's admissions keep their distance in time. */
module AdmissionSpacing {
  import opened Wrappers
  import opened AdmissionOrder
  import opened RateLimits
  import opened Admission

  /** Every read that rations does so under limits in which the rule asks for these seconds. */
  ghost predicate AlwaysAsksFor(ops: seq<Op>, rule: RuleId, seconds: int) {
    forall i :: 0 <= i < |ops| && ops[i].End? ==> RuleAsksFor(ops[i].limitOf, rule, seconds)
  }

  /** When a step lets candidates of the rule in: once for each worker it returns. */
  ghost function TimesOf(m: Machine, op: Op, fleet: Settings, rule: RuleId): seq<int>
    requires Allowed(m, op)
  {
    match op
    case End(_, _, limitOf, now) => seq(|OfRule(Returned(m, op, fleet).value.workers, limitOf, rule)|, _ => now)
    case _ => []
  }

  /** And over a run. */
  ghost function RunTimes(m: Machine, ops: seq<Op>, fleet: Settings, rule: RuleId): seq<int>
    requires RunAllowed(m, ops, fleet)
    decreases |ops|
  {
    if ops == [] then [] else TimesOf(m, ops[0], fleet, rule) + RunTimes(Next(m, ops[0], fleet), ops[1..], fleet, rule)
  }

  /** The machine remembers the rule's last admission, and those so far keep their distance. */
  ghost predicate Remembers(m: Machine, rule: RuleId, past: seq<int>, ms: int) {
    && SpacedBy(past, ms)
    && (rule in m.state.ruleLastAdmittedAt <==> past != [])
    && (past != [] ==> m.state.ruleLastAdmittedAt[rule] == past[|past| - 1])
  }

  /** One rationed call. */
  lemma RationRemembers(m: Machine, op: Op, fleet: Settings, rule: RuleId, past: seq<int>, seconds: int)
    requires Allowed(m, op) && op.End? && op.census.Some?
    requires !Refused(m.state, m.call.value, op.census.value, op.endRoleOf, fleet.maxPolls) && m.call.value.workers != []
    requires seconds > 0 && RuleAsksFor(op.limitOf, rule, seconds) && Remembers(m, rule, past, seconds * 1000)
    ensures Remembers(Next(m, op, fleet), rule, past + TimesOf(m, op, fleet, rule), seconds * 1000)
  {
    hide Refused, Pass, OfRule, RuleAsksFor, OrderByWait, Age, OccupiedBy, ToSet;
    var s, call := Accept(m.state, op.census.value, op.endRoleOf), m.call.value;
    var candidates, budget := OrderByWait(call.workers, s.waits), fleet.cap - |OccupiedBy(op.census.value, s.reserved, op.endRoleOf)|;
    var ledger := s.ruleLastAdmittedAt;
    OnePerPeriod(candidates, budget, op.limitOf, ledger, op.now, rule, seconds);
    TimerMovesOnAdmission(candidates, budget, op.limitOf, ledger, op.now, rule);
    var p := Pass(candidates, budget, op.limitOf, ledger, op.now);
    assert CallPass(s, call, op.census.value, fleet.cap, op.endRoleOf, op.limitOf, op.now) == p;
    assert Next(m, op, fleet).state.ruleLastAdmittedAt == ledger + p.admittedAt;
    var own, times := OfRule(p.admitted, op.limitOf, rule), TimesOf(m, op, fleet, rule);
    assert times == seq(|own|, _ => op.now);
    SpacingExtends(past, past + times, op.now, seconds * 1000);
  }

  lemma StepRemembers(m: Machine, op: Op, fleet: Settings, rule: RuleId, past: seq<int>, seconds: int)
    requires Allowed(m, op) && (op.End? ==> RuleAsksFor(op.limitOf, rule, seconds))
    requires seconds > 0 && Remembers(m, rule, past, seconds * 1000)
    ensures Remembers(Next(m, op, fleet), rule, past + TimesOf(m, op, fleet, rule), seconds * 1000)
  {
    hide Refused, RuleAsksFor, Ration, CallPass, SpacedBy;
    if op.End? && op.census.Some? && !Refused(m.state, m.call.value, op.census.value, op.endRoleOf, fleet.maxPolls) && m.call.value.workers != [] {
      RationRemembers(m, op, fleet, rule, past, seconds);
    } else {
      assert TimesOf(m, op, fleet, rule) == [];
      assert past + [] == past;
    }
  }

  lemma {:induction false} RunRemembers(m: Machine, ops: seq<Op>, fleet: Settings, rule: RuleId, past: seq<int>, seconds: int)
    requires RunAllowed(m, ops, fleet) && AlwaysAsksFor(ops, rule, seconds)
    requires seconds > 0 && Remembers(m, rule, past, seconds * 1000)
    ensures SpacedBy(past + RunTimes(m, ops, fleet, rule), seconds * 1000)
    decreases |ops|
  {
    hide Next, RuleAsksFor, SpacedBy, TimesOf, Allowed;
    if ops == [] {
      assert past + [] == past;
    } else {
      StepRemembers(m, ops[0], fleet, rule, past, seconds);
      var first, rest := TimesOf(m, ops[0], fleet, rule), RunTimes(Next(m, ops[0], fleet), ops[1..], fleet, rule);
      RunRemembers(Next(m, ops[0], fleet), ops[1..], fleet, rule, past + first, seconds);
      assert past + first + rest == past + (first + rest);
    }
  }

  /** Over any run of the machine from its start, whatever the sources, failed and refused reads, reservations
      and spawns in between, any two workers of a rule are let in at least the rule's period apart. The clock may
      stand still or step back. */
  lemma RunsAreSpaced(sources: set<Source>, now: int, ops: seq<Op>, fleet: Settings, rule: RuleId, seconds: int)
    requires RunAllowed(Machine(InitialState(sources, now), None), ops, fleet)
    requires seconds > 0 && AlwaysAsksFor(ops, rule, seconds)
    ensures SpacedBy(RunTimes(Machine(InitialState(sources, now), None), ops, fleet, rule), seconds * 1000)
  {
    var m := Machine(InitialState(sources, now), None);
    assert Remembers(m, rule, [], seconds * 1000);
    hide AlwaysAsksFor, RunAllowed, RunTimes, SpacedBy;
    RunRemembers(m, ops, fleet, rule, [], seconds);
    assert [] + RunTimes(m, ops, fleet, rule) == RunTimes(m, ops, fleet, rule);
  }
}
