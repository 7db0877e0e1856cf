/** Which ids a source holds while their spawns settle, said from the run alone (src/agents/admission.ts). */
module Reservations {
  import opened Wrappers
  import opened AdmissionOrder
  import opened Admission

  /** The step takes an id into a source's hold: by name, or as a worker that source's call returns. */
  ghost predicate Takes(m: Machine, op: Op, fleet: Settings, source: Source, id: Id)
    requires Allowed(m, op)
  {
    match op
    case ReserveIds(holder, ids) => holder == source && id in ids
    case End(_, _, _, _) =>
      m.call.value.source == source && Returned(m, op, fleet).Some? && id in Returned(m, op, fleet).value.workers
    case _ => false
  }

  /** The step lets it go: the source asks again, or releases it by name. */
  predicate Drops(op: Op, source: Source, id: Id) {
    match op
    case Begin(asking, _, _, _) => asking == source
    case ReleaseIds(holder, ids) => holder == source && id in ids
    case _ => false
  }

  /** Whether the run ends with the id taken and not let go since. */
  ghost predicate Holds(m: Machine, ops: seq<Op>, fleet: Settings, source: Source, id: Id, held: bool)
    requires RunAllowed(m, ops, fleet)
    decreases |ops|
  {
    if ops == [] then held
    else
      Holds(Next(m, ops[0], fleet), ops[1..], fleet, source, id,
            Takes(m, ops[0], fleet, source, id) || (held && !Drops(ops[0], source, id)))
  }

  lemma ReservedBy(reserved: map<Source, set<Id>>, holder: Source, ids: seq<Id>, source: Source, id: Id)
    ensures id in Held(Reserve(reserved, holder, ids), source) <==> id in Held(reserved, source) || (holder == source && id in ids)
    ensures id in Held(Release(reserved, holder, ids), source) <==> id in Held(reserved, source) && !(holder == source && id in ids)
  {
  }

  lemma EndHolds(m: Machine, op: Op, fleet: Settings, source: Source, id: Id)
    requires Allowed(m, op) && op.End?
    ensures id in Held(Next(m, op, fleet).state.reserved, source) <==>
            id in Held(m.state.reserved, source) || Takes(m, op, fleet, source, id)
  {
    hide Refused, CallPass, Age, NotDeferred, Reserve, Held;
    if op.census.Some? && !Refused(m.state, m.call.value, op.census.value, op.endRoleOf, fleet.maxPolls) && m.call.value.workers != [] {
      var trusted := Accept(m.state, op.census.value, op.endRoleOf);
      var p := CallPass(trusted, m.call.value, op.census.value, fleet.cap, op.endRoleOf, op.limitOf, op.now);
      ReservedBy(m.state.reserved, m.call.value.source, p.admitted, source, id);
    }
  }

  lemma StepHolds(m: Machine, op: Op, fleet: Settings, source: Source, id: Id)
    requires Allowed(m, op)
    ensures id in Held(Next(m, op, fleet).state.reserved, source) <==>
            Takes(m, op, fleet, source, id) || (id in Held(m.state.reserved, source) && !Drops(op, source, id))
  {
    match op {
      case End(_, _, _, _) =>
        hide Next, Returned, Held;
        EndHolds(m, op, fleet, source, id);
      case ReserveIds(holder, ids) => ReservedBy(m.state.reserved, holder, ids, source, id);
      case ReleaseIds(holder, ids) => ReservedBy(m.state.reserved, holder, ids, source, id);
      case _ =>
    }
  }

  lemma {:induction false} RunHolds(m: Machine, ops: seq<Op>, fleet: Settings, source: Source, id: Id)
    requires RunAllowed(m, ops, fleet)
    ensures id in Held(RunTo(m, ops, fleet).state.reserved, source) <==>
            Holds(m, ops, fleet, source, id, id in Held(m.state.reserved, source))
    decreases |ops|
  {
    hide Next, Takes, Drops, Held;
    if ops != [] {
      StepHolds(m, ops[0], fleet, source, id);
      RunHolds(Next(m, ops[0], fleet), ops[1..], fleet, source, id);
    }
  }

  /** Over any run a source holds exactly the ids it reserved, or was returned as workers, and has not released nor
      asked again since; what other sources do is nothing to its hold. */
  lemma HeldSinceTaken(sources: set<Source>, start: int, ops: seq<Op>, fleet: Settings, source: Source, id: Id)
    requires RunAllowed(Machine(InitialState(sources, start), None), ops, fleet)
    ensures var m0 := Machine(InitialState(sources, start), None);
      id in Held(RunTo(m0, ops, fleet).state.reserved, source) <==> Holds(m0, ops, fleet, source, id, false)
  {
    hide Holds, RunTo;
    RunHolds(Machine(InitialState(sources, start), None), ops, fleet, source, id);
  }
}
