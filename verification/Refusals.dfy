/**
 When a census is disbelieved, said from the run alone: from the censuses the calls were answered with, and from
 what each call then reported (src/agents/admission.ts).
 */
module Refusals {
  import opened Wrappers
  import opened AdmissionOrder
  import opened RateLimits
  import opened Admission

  /** A census that answered a call, and whether the call's bucket then showed it as checked. */
  datatype Answer = Answer(census: seq<Id>, roleOf: RoleOf, believed: bool)

  // ---------- the run's own record ----------

  /** The call under way, by the step that began it. */
  function Pending(ops: seq<Op>, before: Option<Op>): Option<Op> {
    if ops == [] then before
    else Pending(ops[1..], PendingAfter(ops[0], before))
  }

  function PendingAfter(op: Op, before: Option<Op>): Option<Op> {
    match op case Begin(_, _, _, _) => Some(op) case End(_, _, _, _) => None case _ => before
  }

  /** What a step shows of its census. */
  ghost function AnswerOf(m: Machine, op: Op, fleet: Settings): seq<Answer>
    requires Allowed(m, op)
  {
    if op.End? && op.census.Some? then
      var buckets, source := Next(m, op, fleet).state.buckets, m.call.value.source;
      [Answer(op.census.value, op.endRoleOf, source in buckets && buckets[source].Checked?)]
    else []
  }

  ghost function Answers(m: Machine, ops: seq<Op>, fleet: Settings): seq<Answer>
    requires RunAllowed(m, ops, fleet)
    decreases |ops|
  {
    if ops == [] then [] else AnswerOf(m, ops[0], fleet) + Answers(Next(m, ops[0], fleet), ops[1..], fleet)
  }

  /** The last census believed. */
  ghost function LastBelieved(answers: seq<Answer>): Option<Answer> {
    if answers == [] then None
    else if answers[|answers| - 1].believed then Some(answers[|answers| - 1])
    else LastBelieved(answers[..|answers| - 1])
  }

  /** The censuses disbelieved since. */
  ghost function RefusalsSince(answers: seq<Answer>): nat {
    if answers == [] || answers[|answers| - 1].believed then 0 else 1 + RefusalsSince(answers[..|answers| - 1])
  }

  /** How many places of a census hold that role. */
  function CountOf(ids: seq<Id>, roleOf: RoleOf, role: Role): nat {
    if ids == [] then 0 else (if roleOf(ids[0]) == role then 1 else 0) + CountOf(ids[1..], roleOf, role)
  }

  ghost predicate HadWorker(a: Answer, id: Id) { id in a.census && a.roleOf(id) == Worker }

  // ---------- when a census is to be disbelieved ----------

  /** The workers whose absence has a name: those being stopped, and those of the believed census that are
      now resident as sentinels. */
  ghost function Accounted(last: Answer, stopping: seq<Id>, census: seq<Id>, roleOf: RoleOf): set<Id> {
    (set id | id in stopping && roleOf(id) == Worker) + (set id | id in census && roleOf(id) == Sentinel && HadWorker(last, id))
  }

  /** No worker in the census; some in the last believed one, more than have a name; refusals left. */
  ghost predicate ToRefuse(answers: seq<Answer>, stopping: seq<Id>, census: seq<Id>, roleOf: RoleOf, maxPolls: int) {
    && (forall id :: id in census ==> roleOf(id) == Sentinel)
    && RefusalsSince(answers) < maxPolls
    && LastBelieved(answers).Some?
    && var last := LastBelieved(answers).value;
       |Accounted(last, stopping, census, roleOf)| < CountOf(last.census, last.roleOf, Worker)
  }

  // ---------- the trust state is the run's record ----------

  ghost predicate Trusts(s: State, answers: seq<Answer>) {
    && s.streak == RefusalsSince(answers)
    && match LastBelieved(answers)
       case None => s.lastTrusted.None? && s.lastTrustedSentinels.None? && s.lastTrustedWorkerIds == {}
       case Some(a) =>
         && s.lastTrusted == Some(CountOf(a.census, a.roleOf, Worker))
         && s.lastTrustedSentinels == Some(CountOf(a.census, a.roleOf, Sentinel))
         && forall id :: id in s.lastTrustedWorkerIds <==> HadWorker(a, id)
  }

  ghost predicate CallIs(m: Machine, pending: Option<Op>) {
    match pending
    case None => m.call.None?
    case Some(b) => b.Begin? && m.call.Some? && m.call.value.source == b.source && m.call.value.stopping == b.stopping
  }

  lemma {:induction false} CountedByRole(ids: seq<Id>, roleOf: RoleOf)
    ensures |Workers(ids, roleOf)| == CountOf(ids, roleOf, Worker)
    ensures |ids| == CountOf(ids, roleOf, Worker) + CountOf(ids, roleOf, Sentinel)
  {
    if ids != [] { CountedByRole(ids[1..], roleOf); }
  }

  lemma NoWorkerSeen(census: seq<Id>, roleOf: RoleOf)
    ensures Workers(census, roleOf) == [] <==> forall id :: id in census ==> roleOf(id) == Sentinel
  {
    WithRoleMembers(census, roleOf, Worker);
    hide WithRole;
    var workers := Workers(census, roleOf);
    assert workers != [] ==> workers[0] in workers;
    assert forall id :: id in census && roleOf(id) != Sentinel ==> id in workers;
  }

  lemma SameExplanation(s: State, call: Call, census: seq<Id>, roleOf: RoleOf, answers: seq<Answer>)
    requires Trusts(s, answers) && LastBelieved(answers).Some?
    ensures Explained(s, call, census, roleOf) == Accounted(LastBelieved(answers).value, call.stopping, census, roleOf)
  {
    WithRoleMembers(call.stopping, roleOf, Worker);
    hide WithRole;
  }

  /** The controller's test is the run's. */
  lemma RefusedIsToRefuse(s: State, call: Call, census: seq<Id>, roleOf: RoleOf, maxPolls: int, answers: seq<Answer>)
    requires Trusts(s, answers)
    ensures Refused(s, call, census, roleOf, maxPolls) <==> ToRefuse(answers, call.stopping, census, roleOf, maxPolls)
  {
    NoWorkerSeen(census, roleOf);
    if LastBelieved(answers).Some? { SameExplanation(s, call, census, roleOf, answers); }
    hide Workers, Explained, Accounted, CountOf, LastBelieved, RefusalsSince;
  }

  lemma OneAnswerMore(answers: seq<Answer>, a: Answer)
    ensures LastBelieved(answers + [a]) == if a.believed then Some(a) else LastBelieved(answers)
    ensures RefusalsSince(answers + [a]) == if a.believed then 0 else 1 + RefusalsSince(answers)
  {
    assert (answers + [a])[..|answers|] == answers;
  }

  lemma AcceptTrusts(s: State, census: seq<Id>, roleOf: RoleOf, answers: seq<Answer>)
    ensures Trusts(Accept(s, census, roleOf), answers + [Answer(census, roleOf, true)])
  {
    OneAnswerMore(answers, Answer(census, roleOf, true));
    CountedByRole(census, roleOf);
    WithRoleMembers(census, roleOf, Worker);
    hide WithRole, CountOf, LastBelieved, RefusalsSince;
  }

  /** The three ways a call whose census answers can end. */
  lemma EndOfCall(m: Machine, op: Op, fleet: Settings)
    requires Allowed(m, op) && op.End? && op.census.Some?
    ensures var s, call, census, roleOf := m.state, m.call.value, op.census.value, op.endRoleOf;
      var after, trusted := Next(m, op, fleet).state, Accept(s, census, roleOf);
      && call.source in after.buckets
      && (if Refused(s, call, census, roleOf, fleet.maxPolls) then
            && after.buckets[call.source] == Declined(op.now, CensusUntrusted)
            && Returned(m, op, fleet) == Some(Outcome([], call.sentinels))
            && after.streak == s.streak + 1 && SameTrust(after, s)
          else
            && after.buckets[call.source].Checked? && after.buckets[call.source].confirmedAt == op.now
            && after.streak == trusted.streak && SameTrust(after, trusted))
  {
    hide Refused, Accept, CallPass, Age, NotDeferred, Reserve;
  }

  predicate SameTrust(s: State, t: State) {
    s.lastTrusted == t.lastTrusted && s.lastTrustedSentinels == t.lastTrustedSentinels && s.lastTrustedWorkerIds == t.lastTrustedWorkerIds
  }

  /** One call answered: its bucket, what it returns and the trust after it. */
  lemma AnswerShows(m: Machine, op: Op, fleet: Settings, answers: seq<Answer>)
    requires Allowed(m, op) && op.End? && op.census.Some? && Trusts(m.state, answers)
    ensures var refuse := ToRefuse(answers, m.call.value.stopping, op.census.value, op.endRoleOf, fleet.maxPolls);
      var after := Next(m, op, fleet).state;
      && m.call.value.source in after.buckets
      && (refuse ==> after.buckets[m.call.value.source] == Declined(op.now, CensusUntrusted)
                     && Returned(m, op, fleet) == Some(Outcome([], m.call.value.sentinels)))
      && (!refuse ==> after.buckets[m.call.value.source].Checked? && after.buckets[m.call.value.source].confirmedAt == op.now)
      && Trusts(after, answers + AnswerOf(m, op, fleet))
  {
    hide Refused, ToRefuse, Accept, CountOf, LastBelieved, RefusalsSince, HadWorker, EndCall;
    var s, call, census, roleOf := m.state, m.call.value, op.census.value, op.endRoleOf;
    EndOfCall(m, op, fleet);
    RefusedIsToRefuse(s, call, census, roleOf, fleet.maxPolls, answers);
    AcceptTrusts(s, census, roleOf, answers);
    OneAnswerMore(answers, Answer(census, roleOf, false));
    hide Next, Returned;
  }

  lemma StepTrusts(m: Machine, op: Op, fleet: Settings, answers: seq<Answer>)
    requires Allowed(m, op) && Trusts(m.state, answers)
    ensures Trusts(Next(m, op, fleet).state, answers + AnswerOf(m, op, fleet))
  {
    if op.End? && op.census.Some? {
      AnswerShows(m, op, fleet, answers);
    } else {
      assert answers + [] == answers;
      hide LastBelieved, RefusalsSince, CountOf, HadWorker, Reserve, Release;
    }
  }

  lemma StepCalls(m: Machine, op: Op, fleet: Settings, pending: Option<Op>)
    requires Allowed(m, op) && CallIs(m, pending)
    ensures CallIs(Next(m, op, fleet), PendingAfter(op, pending))
  {
    hide EndCall, Reserve, Release, WithRole;
  }

  lemma {:induction false} RunTrusts(m: Machine, ops: seq<Op>, fleet: Settings, answers: seq<Answer>, pending: Option<Op>)
    requires RunAllowed(m, ops, fleet) && Trusts(m.state, answers) && CallIs(m, pending)
    ensures Trusts(RunTo(m, ops, fleet).state, answers + Answers(m, ops, fleet))
    ensures CallIs(RunTo(m, ops, fleet), Pending(ops, pending))
    decreases |ops|
  {
    hide Next, Trusts, CallIs, AnswerOf, PendingAfter, Allowed;
    if ops == [] {
      assert answers + [] == answers;
    } else {
      var op := ops[0];
      StepTrusts(m, op, fleet, answers);
      StepCalls(m, op, fleet, pending);
      var first, rest := AnswerOf(m, op, fleet), Answers(Next(m, op, fleet), ops[1..], fleet);
      RunTrusts(Next(m, op, fleet), ops[1..], fleet, answers + first, PendingAfter(op, pending));
      assert answers + first + rest == answers + (first + rest);
    }
  }

  // ---------- the results ----------

  lemma ThrownIsReported(m: Machine, op: Op, fleet: Settings)
    requires Allowed(m, op) && op.End? && op.census.None?
    ensures Next(m, op, fleet).state == m.state.(buckets := m.state.buckets[m.call.value.source := Declined(op.now, CensusThrew)])
    ensures Returned(m, op, fleet) == Some(Outcome([], m.call.value.sentinels))
  {
    hide Refused, Ration, Accept;
  }

  /** Over any run a census that answers is disbelieved exactly when it shows no worker, the last believed census
      held more workers than are being stopped or have turned sentinel, and fewer than maxPolls have been
      disbelieved since. Its call then reports it untrusted and lets no worker in; one that throws is reported so and
      lets none in either; every other is reported checked. */
  lemma DisbelievedExactly(sources: set<Source>, start: int, ops: seq<Op>, fleet: Settings, op: Op)
    requires var m0 := Machine(InitialState(sources, start), None);
      RunAllowed(m0, ops, fleet) && Allowed(RunTo(m0, ops, fleet), op) && op.End?
    ensures var m0 := Machine(InitialState(sources, start), None);
      var m, call := RunTo(m0, ops, fleet), Pending(ops, None);
      var buckets := Next(m, op, fleet).state.buckets;
      && call.Some? && call.value.Begin? && call.value.source in buckets && Returned(m, op, fleet).Some?
      && (var bucket, workers := buckets[call.value.source], Returned(m, op, fleet).value.workers;
          if op.census.None? then bucket == Declined(op.now, CensusThrew) && workers == []
          else if ToRefuse(Answers(m0, ops, fleet), call.value.stopping, op.census.value, op.endRoleOf, fleet.maxPolls) then
            bucket == Declined(op.now, CensusUntrusted) && workers == []
          else bucket.Checked? && bucket.confirmedAt == op.now)
  {
    var m0 := Machine(InitialState(sources, start), None);
    RunTrusts(m0, ops, fleet, [], None);
    assert [] + Answers(m0, ops, fleet) == Answers(m0, ops, fleet);
    var m := RunTo(m0, ops, fleet);
    hide Trusts, Answers, RunAllowed, RunTo, Pending, ToRefuse, Next, Returned;
    if op.census.None? {
      ThrownIsReported(m, op, fleet);
    } else {
      AnswerShows(m, op, fleet, Answers(m0, ops, fleet));
    }
  }

  /** What is trusted is the last believed census: its workers, counted and by name, and its sentinels, counted. */
  lemma TrustIsTheLastBelieved(sources: set<Source>, start: int, ops: seq<Op>, fleet: Settings)
    requires RunAllowed(Machine(InitialState(sources, start), None), ops, fleet)
    ensures var m0 := Machine(InitialState(sources, start), None);
      Trusts(RunTo(m0, ops, fleet).state, Answers(m0, ops, fleet))
  {
    var m0 := Machine(InitialState(sources, start), None);
    RunTrusts(m0, ops, fleet, [], None);
    assert [] + Answers(m0, ops, fleet) == Answers(m0, ops, fleet);
  }
}
