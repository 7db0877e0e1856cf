/** The bound on mistrust: an implausible zero is refused only so many times in a row. */
module Mistrust {
  import opened Wrappers
  import opened AdmissionOrder
  import opened RateLimits
  import opened Admission

  datatype Reading = Threw | RefusedRead | BelievedRead

  /** What became of the census read a call ended with. */
  function ReadingOf(m: Machine, op: Op, fleet: Settings): Option<Reading>
    requires Allowed(m, op)
  {
    if !op.End? then None
    else if op.census.None? then Some(Threw)
    else if Refused(m.state, m.call.value, op.census.value, op.endRoleOf, fleet.maxPolls) then Some(RefusedRead)
    else Some(BelievedRead)
  }

  /** The readings of a run, oldest first. */
  ghost function Readings(m: Machine, ops: seq<Op>, fleet: Settings): seq<Reading>
    requires RunAllowed(m, ops, fleet)
    decreases |ops|
  {
    if ops == [] then []
    else
      var r := ReadingOf(m, ops[0], fleet);
      (if r.Some? then [r.value] else []) + Readings(Next(m, ops[0], fleet), ops[1..], fleet)
  }

  /** Refusals among the readings since the last believed one; throws neither add nor clear. */
  ghost function RefusedInARow(readings: seq<Reading>): nat {
    if readings == [] then 0
    else
      var n := |readings| - 1;
      match readings[n]
      case BelievedRead => 0
      case RefusedRead => RefusedInARow(readings[..n]) + 1
      case Threw => RefusedInARow(readings[..n])
  }

  lemma RefusedInARowStep(readings: seq<Reading>, r: Reading)
    ensures RefusedInARow(readings + [r])
         == match r case BelievedRead => 0 case RefusedRead => RefusedInARow(readings) + 1 case Threw => RefusedInARow(readings)
  {
    assert (readings + [r])[..|readings|] == readings;
  }

  /** The guard's streak is the run's own count of refusals in a row, continued from `past`. */
  lemma {:induction false} StreakCountsRefusals(m: Machine, ops: seq<Op>, fleet: Settings, past: seq<Reading>)
    requires RunAllowed(m, ops, fleet)
    requires m.state.streak == RefusedInARow(past) <= Max(0, fleet.maxPolls)
    ensures RunTo(m, ops, fleet).state.streak
         == RefusedInARow(past + Readings(m, ops, fleet)) <= Max(0, fleet.maxPolls)
    decreases |ops|
  {
    if ops == [] {
      assert past + [] == past;
    } else {
      hide Next, Refused, ReadingOf;
      var r, m' := ReadingOf(m, ops[0], fleet), Next(m, ops[0], fleet);
      var step := if r.Some? then [r.value] else [];
      assert m'.state.streak == RefusedInARow(past + step) <= Max(0, fleet.maxPolls) by {
        StreakAfter(m, ops[0], fleet);
        if r.Some? {
          RefusedInARowStep(past, r.value);
        } else {
          assert past + step == past;
        }
      }
      StreakCountsRefusals(m', ops[1..], fleet, past + step);
      hide RefusedInARow;
      assert Readings(m, ops, fleet) == step + Readings(m', ops[1..], fleet);
      assert past + step + Readings(m', ops[1..], fleet) == past + (step + Readings(m', ops[1..], fleet));
    }
  }

  lemma StreakAfter(m: Machine, op: Op, fleet: Settings)
    requires Allowed(m, op)
    ensures Next(m, op, fleet).state.streak
         == match ReadingOf(m, op, fleet)
            case Some(RefusedRead) => m.state.streak + 1
            case Some(BelievedRead) => 0
            case _ => m.state.streak
    ensures ReadingOf(m, op, fleet) == Some(RefusedRead) ==> m.state.streak + 1 <= fleet.maxPolls
  {
    hide CallPass, Explained, Age, Pass, OrderByWait;
  }

  /** From construction on, no more than maxPolls reads are ever refused in a row, and once that many
      have been, the next read that answers at all is believed, whatever it says. */
  lemma MistrustIsBounded(sources: set<Source>, start: int, ops: seq<Op>, fleet: Settings, op: Op)
    requires RunAllowed(Machine(InitialState(sources, start), None), ops, fleet)
    ensures var m0 := Machine(InitialState(sources, start), None);
      var m, refused := RunTo(m0, ops, fleet), RefusedInARow(Readings(m0, ops, fleet));
      && refused <= Max(0, fleet.maxPolls)
      && (refused == Max(0, fleet.maxPolls) && Allowed(m, op) && op.End? && op.census.Some? ==>
            ReadingOf(m, op, fleet) == Some(BelievedRead))
  {
    var m0 := Machine(InitialState(sources, start), None);
    StreakCountsRefusals(m0, ops, fleet, []);
    assert [] + Readings(m0, ops, fleet) == Readings(m0, ops, fleet);
  }

  /** A read that throws or is refused is evidence of nothing: apart from the caller's own bucket, and
      the streak that counts the refusal, no field moves, and no worker is let in. */
  lemma DeclinedReadTouchesNothing(m: Machine, op: Op, fleet: Settings)
    requires Allowed(m, op)
    requires ReadingOf(m, op, fleet) in {Some(Threw), Some(RefusedRead)}
    ensures var s, s' := m.state, Next(m, op, fleet).state;
      && s' == s.(streak := s'.streak, buckets := s'.buckets)
      && s'.buckets.Keys == s.buckets.Keys + {m.call.value.source}
      && (forall source :: source in s.buckets && source != m.call.value.source ==> s'.buckets[source] == s.buckets[source])
      && s'.buckets[m.call.value.source].Declined?
      && Returned(m, op, fleet) == Some(Outcome([], m.call.value.sentinels))
  {
  }

  /** A zero is refused for no other reason: no worker in the census, some trusted before, and too few
      of them stopping or turned sentinel. In particular a first census is always believed. */
  lemma RefusedOnlyWhenUnexplained(m: Machine, op: Op, fleet: Settings)
    requires Allowed(m, op) && ReadingOf(m, op, fleet) == Some(RefusedRead)
    ensures m.state.lastTrusted.Some? && m.state.lastTrusted.value > 0
    ensures forall id :: id in op.census.value ==> op.endRoleOf(id) == Sentinel
    ensures |ToSet(Workers(m.call.value.stopping, op.endRoleOf))| < m.state.lastTrusted.value
  {
    WithRoleMembers(op.census.value, op.endRoleOf, Worker);
    var stopping, explained := ToSet(Workers(m.call.value.stopping, op.endRoleOf)), Explained(m.state, m.call.value, op.census.value, op.endRoleOf);
    assert explained == stopping + (explained - stopping);
    forall id | id in op.census.value ensures op.endRoleOf(id) == Sentinel {
      assert id !in Workers(op.census.value, op.endRoleOf);
    }
  }
}
