/**
 Per-rule rate limits and the shared cap, consumed together in one pass over the ordered
 candidates (`admitWithRateLimits`, src/agents/admission.ts).
 */
module RateLimits {
  import opened Wrappers
  import opened AdmissionOrder

  type RuleId = string

  /** One rule's limits, resolved for one candidate. Times are milliseconds, periods seconds. */
  datatype RuleRateLimit = RuleRateLimit(
    ruleId: RuleId,
    maxNewPerTick: Option<int>,
    minSecondsBetweenAdmissions: Option<int>)

  type LimitOf = Id -> Option<RuleRateLimit>

  /** What a pass hands back; `counts` is how many limited candidates each rule got in. */
  datatype RateLimitedAdmission = RateLimitedAdmission(
    admitted: seq<Id>,
    withheld: seq<Id>,
    rateDeferred: seq<Id>,
    counts: map<RuleId, nat>,
    admittedAt: map<RuleId, int>)

  const EmptyPass := RateLimitedAdmission([], [], [], map[], map[])

  function Max(a: int, b: int): int { if a >= b then a else b }

  /** The candidate's own limit, if it sets at least one of the two fields. */
  function EffectiveLimit(limitOf: LimitOf, id: Id): Option<RuleRateLimit> {
    var limit := limitOf(id);
    if limit.Some? && (limit.value.maxNewPerTick.Some? || limit.value.minSecondsBetweenAdmissions.Some?)
    then limit else None
  }

  /** The candidate's own limit names this rule. */
  predicate Governed(limitOf: LimitOf, id: Id, rule: RuleId) {
    var limit := EffectiveLimit(limitOf, id);
    limit.Some? && limit.value.ruleId == rule
  }

  function CountFor(counts: map<RuleId, nat>, rule: RuleId): nat {
    if rule in counts then counts[rule] else 0
  }

  /** When the rule last let a candidate in: this pass first, then the ledger of earlier passes. */
  function LastAdmission(admittedAt: map<RuleId, int>, ledger: map<RuleId, int>, rule: RuleId): Option<int> {
    if rule in admittedAt then Some(admittedAt[rule])
    else if rule in ledger then Some(ledger[rule])
    else None
  }

  predicate TickAllows(limit: RuleRateLimit, counts: map<RuleId, nat>) {
    limit.maxNewPerTick.None? || CountFor(counts, limit.ruleId) < limit.maxNewPerTick.value
  }

  predicate SecondsAllow(limit: RuleRateLimit, last: Option<int>, now: int) {
    limit.minSecondsBetweenAdmissions.None? || last.None?
    || now - last.value >= limit.minSecondsBetweenAdmissions.value * 1000
  }

  /** One candidate's turn after `acc`, the outcome of all earlier turns. */
  function Turn(acc: RateLimitedAdmission, id: Id, budget: int, limitOf: LimitOf, ledger: map<RuleId, int>, now: int)
    : RateLimitedAdmission
  {
    if |acc.admitted| >= Max(0, budget) then acc.(withheld := acc.withheld + [id])
    else
      match EffectiveLimit(limitOf, id)
      case None => acc.(admitted := acc.admitted + [id])
      case Some(limit) =>
        if TickAllows(limit, acc.counts)
           && SecondsAllow(limit, LastAdmission(acc.admittedAt, ledger, limit.ruleId), now)
        then acc.(admitted := acc.admitted + [id],
                  counts := acc.counts[limit.ruleId := CountFor(acc.counts, limit.ruleId) + 1],
                  admittedAt := acc.admittedAt[limit.ruleId := now])
        else acc.(withheld := acc.withheld + [id], rateDeferred := acc.rateDeferred + [id])
  }

  function Pass(candidates: seq<Id>, budget: int, limitOf: LimitOf, ledger: map<RuleId, int>, now: int)
    : RateLimitedAdmission
  {
    if candidates == [] then EmptyPass
    else
      var n := |candidates| - 1;
      Turn(Pass(candidates[..n], budget, limitOf, ledger, now), candidates[n], budget, limitOf, ledger, now)
  }

  /** The source's loop: `remaining` counts down while the candidates are walked once. */
  method AdmitWithRateLimits(candidates: seq<Id>, budget: int, limitOf: LimitOf, ledger: map<RuleId, int>, now: int)
    returns (r: RateLimitedAdmission)
    ensures r == Pass(candidates, budget, limitOf, ledger, now)
  {
    var remaining := Max(0, budget);
    var admitted: seq<Id>, withheld: seq<Id>, rateDeferred: seq<Id> := [], [], [];
    var counts: map<RuleId, nat> := map[];
    var admittedAt: map<RuleId, int> := map[];
    for i := 0 to |candidates|
      invariant remaining == Max(0, budget) - |admitted|
      invariant remaining >= 0
      invariant RateLimitedAdmission(admitted, withheld, rateDeferred, counts, admittedAt)
             == Pass(candidates[..i], budget, limitOf, ledger, now)
    {
      assert candidates[..i + 1][..i] == candidates[..i];
      var id := candidates[i];
      if remaining <= 0 {
        withheld := withheld + [id];
        continue;
      }
      var limit := limitOf(id);
      if limit.None? || (limit.value.maxNewPerTick.None? && limit.value.minSecondsBetweenAdmissions.None?) {
        admitted := admitted + [id];
        remaining := remaining - 1;
        continue;
      }
      var rl := limit.value;
      var countSoFar := CountFor(counts, rl.ruleId);
      var tickOk := rl.maxNewPerTick.None? || countSoFar < rl.maxNewPerTick.value;
      var lastAt := LastAdmission(admittedAt, ledger, rl.ruleId);
      var secondsOk := rl.minSecondsBetweenAdmissions.None? || lastAt.None?
                       || now - lastAt.value >= rl.minSecondsBetweenAdmissions.value * 1000;
      if tickOk && secondsOk {
        admitted := admitted + [id];
        remaining := remaining - 1;
        counts := counts[rl.ruleId := countSoFar + 1];
        admittedAt := admittedAt[rl.ruleId := now];
      } else {
        withheld := withheld + [id];
        rateDeferred := rateDeferred + [id];
      }
    }
    assert candidates[..|candidates|] == candidates;
    r := RateLimitedAdmission(admitted, withheld, rateDeferred, counts, admittedAt);
  }

  // ---------- an order-preserving partition ----------

  /** all is a and w shuffled together, each keeping its own order. */
  ghost predicate Interleaves(all: seq<Id>, a: seq<Id>, w: seq<Id>)
    decreases |all|
  {
    if all == [] then a == [] && w == []
    else
      var n := |all| - 1;
      || (a != [] && a[|a| - 1] == all[n] && Interleaves(all[..n], a[..|a| - 1], w))
      || (w != [] && w[|w| - 1] == all[n] && Interleaves(all[..n], a, w[..|w| - 1]))
  }

  lemma {:induction false} InterleavesCounts(all: seq<Id>, a: seq<Id>, w: seq<Id>)
    requires Interleaves(all, a, w)
    ensures multiset(all) == multiset(a) + multiset(w)
    decreases |all|
  {
    if all != [] {
      var n := |all| - 1;
      assert all == all[..n] + [all[n]];
      if a != [] && a[|a| - 1] == all[n] && Interleaves(all[..n], a[..|a| - 1], w) {
        assert a == a[..|a| - 1] + [a[|a| - 1]];
        InterleavesCounts(all[..n], a[..|a| - 1], w);
      } else {
        assert w == w[..|w| - 1] + [w[|w| - 1]];
        InterleavesCounts(all[..n], a, w[..|w| - 1]);
      }
    }
  }

  /** The pass never exceeds the budget. */
  lemma {:induction false} PassWithinBudget(candidates: seq<Id>, budget: int, limitOf: LimitOf, ledger: map<RuleId, int>, now: int)
    ensures |Pass(candidates, budget, limitOf, ledger, now).admitted| <= Max(0, budget)
  {
    if candidates != [] {
      PassWithinBudget(candidates[..|candidates| - 1], budget, limitOf, ledger, now);
    }
  }

  lemma InterleavesExtends(all: seq<Id>, a: seq<Id>, w: seq<Id>, id: Id)
    requires Interleaves(all, a, w)
    ensures Interleaves(all + [id], a + [id], w) && Interleaves(all + [id], a, w + [id])
  {
    assert (all + [id])[..|all|] == all && (a + [id])[..|a|] == a && (w + [id])[..|w|] == w;
  }

  lemma TurnAppends(acc: RateLimitedAdmission, id: Id, budget: int, limitOf: LimitOf, ledger: map<RuleId, int>, now: int)
    ensures var after := Turn(acc, id, budget, limitOf, ledger, now);
      || (after.withheld == acc.withheld && after.admitted == acc.admitted + [id])
      || (after.admitted == acc.admitted && after.withheld == acc.withheld + [id])
  {
  }

  /** The pass splits its candidates in two without reordering either half. */
  lemma {:induction false} PassPartitions(candidates: seq<Id>, budget: int, limitOf: LimitOf, ledger: map<RuleId, int>, now: int)
    ensures var p := Pass(candidates, budget, limitOf, ledger, now);
      Interleaves(candidates, p.admitted, p.withheld)
  {
    if candidates != [] {
      hide Turn, Interleaves;
      var n := |candidates| - 1;
      var before := Pass(candidates[..n], budget, limitOf, ledger, now);
      PassPartitions(candidates[..n], budget, limitOf, ledger, now);
      TurnAppends(before, candidates[n], budget, limitOf, ledger, now);
      InterleavesExtends(candidates[..n], before.admitted, before.withheld, candidates[n]);
      assert candidates == candidates[..n] + [candidates[n]];
    }
  }

  /** Every candidate is either admitted or withheld, and nothing else is. */
  lemma PassMembers(candidates: seq<Id>, budget: int, limitOf: LimitOf, ledger: map<RuleId, int>, now: int)
    ensures var p := Pass(candidates, budget, limitOf, ledger, now);
      && (forall id :: id in candidates <==> id in p.admitted || id in p.withheld)
      && multiset(candidates) == multiset(p.admitted) + multiset(p.withheld)
  {
    var p := Pass(candidates, budget, limitOf, ledger, now);
    PassPartitions(candidates, budget, limitOf, ledger, now);
    InterleavesCounts(candidates, p.admitted, p.withheld);
    forall id ensures id in candidates <==> id in p.admitted || id in p.withheld {
      assert id in candidates <==> id in multiset(candidates);
      assert id in p.admitted <==> id in multiset(p.admitted);
      assert id in p.withheld <==> id in multiset(p.withheld);
    }
  }

  /** The pass only ever grows: what a prefix admitted stays admitted, in place. */
  lemma {:induction false} PassGrows(candidates: seq<Id>, k: nat, budget: int, limitOf: LimitOf, ledger: map<RuleId, int>, now: int)
    requires k <= |candidates|
    ensures var p, q := Pass(candidates[..k], budget, limitOf, ledger, now), Pass(candidates, budget, limitOf, ledger, now);
      p.admitted <= q.admitted && p.withheld <= q.withheld && p.rateDeferred <= q.rateDeferred
    decreases |candidates|
  {
    if k < |candidates| {
      var n := |candidates| - 1;
      assert candidates[..n][..k] == candidates[..k];
      PassGrows(candidates[..n], k, budget, limitOf, ledger, now);
    } else {
      assert candidates[..k] == candidates;
    }
  }

  // ---------- the cap and the rules each answer for their own withholdings ----------

  /** A candidate withheld but not by its rule's rate was withheld because the budget was gone:
      the whole budget went to candidates that stood before it. */
  lemma {:induction false} CapWithholdsOnlyWhenSpent(candidates: seq<Id>, id: Id, budget: int, limitOf: LimitOf, ledger: map<RuleId, int>, now: int)
    returns (k: nat)
    requires var p := Pass(candidates, budget, limitOf, ledger, now);
      id in p.withheld && id !in p.rateDeferred
    ensures k < |candidates| && candidates[k] == id
    ensures |Pass(candidates[..k], budget, limitOf, ledger, now).admitted| == Max(0, budget)
  {
    var n := |candidates| - 1;
    var before := Pass(candidates[..n], budget, limitOf, ledger, now);
    if id in before.withheld {
      k := CapWithholdsOnlyWhenSpent(candidates[..n], id, budget, limitOf, ledger, now);
      assert candidates[..n][..k] == candidates[..k];
    } else {
      k := n;
      PassWithinBudget(candidates[..n], budget, limitOf, ledger, now);
    }
  }

  /** A candidate whose rule sets no limit is never deferred for its rate. */
  lemma {:induction false} UnlimitedNeverDeferred(candidates: seq<Id>, id: Id, budget: int, limitOf: LimitOf, ledger: map<RuleId, int>, now: int)
    requires EffectiveLimit(limitOf, id).None?
    ensures id !in Pass(candidates, budget, limitOf, ledger, now).rateDeferred
  {
    if candidates != [] {
      UnlimitedNeverDeferred(candidates[..|candidates| - 1], id, budget, limitOf, ledger, now);
    }
  }

  /** The admitted candidates whose own limit names the rule. */
  function OfRule(ids: seq<Id>, limitOf: LimitOf, rule: RuleId): seq<Id> {
    if ids == [] then []
    else
      var n := |ids| - 1;
      OfRule(ids[..n], limitOf, rule) + (if Governed(limitOf, ids[n], rule) then [ids[n]] else [])
  }

  lemma OfRuleSnoc(ids: seq<Id>, id: Id, limitOf: LimitOf, rule: RuleId)
    ensures OfRule(ids + [id], limitOf, rule)
         == OfRule(ids, limitOf, rule)
            + (if Governed(limitOf, id, rule) then [id] else [])
  {
    assert (ids + [id])[..|ids|] == ids;
  }

  /** A rule's per-call count is what it let in, and no rule lets in more than its maximum:
      the k-th admission of a rule came from a candidate whose own maximum is at least k. */
  lemma {:induction false} TickBound(candidates: seq<Id>, budget: int, limitOf: LimitOf, ledger: map<RuleId, int>, now: int, rule: RuleId)
    ensures var p := Pass(candidates, budget, limitOf, ledger, now);
      var own := OfRule(p.admitted, limitOf, rule);
      && CountFor(p.counts, rule) == |own|
      && (forall k :: 0 <= k < |own| && Governed(limitOf, own[k], rule)
            && EffectiveLimit(limitOf, own[k]).value.maxNewPerTick.Some?
            ==> k + 1 <= EffectiveLimit(limitOf, own[k]).value.maxNewPerTick.value)
  {
    if candidates != [] {
      var n := |candidates| - 1;
      var before := Pass(candidates[..n], budget, limitOf, ledger, now);
      TickBound(candidates[..n], budget, limitOf, ledger, now, rule);
      OfRuleSnoc(before.admitted, candidates[n], limitOf, rule);
    }
  }

  lemma {:induction false} OfRuleMembers(ids: seq<Id>, limitOf: LimitOf, rule: RuleId)
    ensures forall id :: id in OfRule(ids, limitOf, rule) <==>
      id in ids && Governed(limitOf, id, rule)
  {
    if ids != [] {
      var n := |ids| - 1;
      assert ids == ids[..n] + [ids[n]];
      OfRuleMembers(ids[..n], limitOf, rule);
    }
  }

  /** When every candidate of a rule carries the same maximum, one call admits at most that many. */
  lemma AtMostMaxPerTick(candidates: seq<Id>, budget: int, limitOf: LimitOf, ledger: map<RuleId, int>, now: int, rule: RuleId, max: nat)
    requires forall id :: id in candidates && Governed(limitOf, id, rule) ==>
      EffectiveLimit(limitOf, id).value.maxNewPerTick == Some(max)
    ensures |OfRule(Pass(candidates, budget, limitOf, ledger, now).admitted, limitOf, rule)| <= max
  {
    var p := Pass(candidates, budget, limitOf, ledger, now);
    var own := OfRule(p.admitted, limitOf, rule);
    TickBound(candidates, budget, limitOf, ledger, now, rule);
    OfRuleMembers(p.admitted, limitOf, rule);
    PassMembers(candidates, budget, limitOf, ledger, now);
    if own != [] {
      var last := own[|own| - 1];
      assert last in own && last in p.admitted && last in candidates;
    }
  }

  /** A rule's timer moves exactly when the rule let a candidate in, and then to this call's time. */
  lemma {:induction false} TimerMovesOnAdmission(candidates: seq<Id>, budget: int, limitOf: LimitOf, ledger: map<RuleId, int>, now: int, rule: RuleId)
    ensures var p := Pass(candidates, budget, limitOf, ledger, now);
      && (rule in p.admittedAt <==> OfRule(p.admitted, limitOf, rule) != [])
      && (rule in p.admittedAt ==> p.admittedAt[rule] == now)
  {
    if candidates != [] {
      var n := |candidates| - 1;
      var before := Pass(candidates[..n], budget, limitOf, ledger, now);
      var after := Turn(before, candidates[n], budget, limitOf, ledger, now);
      TimerMovesOnAdmission(candidates[..n], budget, limitOf, ledger, now, rule);
      OfRuleSnoc(before.admitted, candidates[n], limitOf, rule);
      assert Pass(candidates, budget, limitOf, ledger, now) == after;
    }
  }

  // ---------- without limits this is the plain cap ----------

  /** The source's `admitWithinBudget`: the first max(0, budget) candidates. */
  function AdmitWithinBudget(candidates: seq<Id>, budget: int): (seq<Id>, seq<Id>) {
    var b := if Max(0, budget) <= |candidates| then Max(0, budget) else |candidates|;
    (candidates[..b], candidates[b..])
  }

  lemma {:induction false} UnlimitedPassIsPlainCap(candidates: seq<Id>, budget: int, limitOf: LimitOf, ledger: map<RuleId, int>, now: int)
    requires forall id :: id in candidates ==> EffectiveLimit(limitOf, id).None?
    ensures var p := Pass(candidates, budget, limitOf, ledger, now);
      && p.admitted == AdmitWithinBudget(candidates, budget).0
      && p.withheld == AdmitWithinBudget(candidates, budget).1
      && p.rateDeferred == [] && p.admittedAt == map[]
  {
    if candidates != [] {
      var n := |candidates| - 1;
      UnlimitedPassIsPlainCap(candidates[..n], budget, limitOf, ledger, now);
      assert EffectiveLimit(limitOf, candidates[n]).None?;
      assert candidates == candidates[..n] + [candidates[n]];
      var b := if Max(0, budget) <= n then Max(0, budget) else n;
      assert candidates[..n][..b] == candidates[..b];
      if Max(0, budget) <= n {
        assert candidates[b..] == candidates[..n][b..] + [candidates[n]];
      } else {
        assert candidates[..n][..n] == candidates[..n] && candidates[..n][n..] == [];
        assert candidates[..n + 1] == candidates && candidates[n + 1..] == [];
      }
    }
  }

  // ---------- who is let in ----------

  /** After those admitted so far there is a place left, and the candidate's own rule, if it has one, has room in this
      call and has let nobody in too recently: neither in this call nor by its recorded time. */
  predicate HasTurn(admitted: seq<Id>, id: Id, budget: int, limitOf: LimitOf, ledger: map<RuleId, int>, now: int) {
    && |admitted| < budget
    && (limitOf(id).Some? ==>
          var limit := limitOf(id).value;
          var own := OfRule(admitted, limitOf, limit.ruleId);
          && (limit.maxNewPerTick.Some? ==> |own| < limit.maxNewPerTick.value)
          && (limit.minSecondsBetweenAdmissions.Some? ==>
                var ms := limit.minSecondsBetweenAdmissions.value * 1000;
                if own != [] then ms <= 0 else limit.ruleId in ledger ==> now - ledger[limit.ruleId] >= ms))
  }

  /** A candidate is admitted exactly when it has its turn; and one that has not is deferred for its rate exactly when
      there was a place left. */
  lemma AdmittedExactly(candidates: seq<Id>, i: nat, budget: int, limitOf: LimitOf, ledger: map<RuleId, int>, now: int)
    requires i < |candidates|
    ensures var before, after := Pass(candidates[..i], budget, limitOf, ledger, now), Pass(candidates[..i + 1], budget, limitOf, ledger, now);
      var id, turn := candidates[i], HasTurn(before.admitted, candidates[i], budget, limitOf, ledger, now);
      && after.admitted == before.admitted + (if turn then [id] else [])
      && after.withheld == before.withheld + (if turn then [] else [id])
      && after.rateDeferred == before.rateDeferred + (if !turn && |before.admitted| < budget then [id] else [])
  {
    var front, id := candidates[..i], candidates[i];
    var before := Pass(front, budget, limitOf, ledger, now);
    assert candidates[..i + 1][..i] == front && candidates[..i + 1][i] == id;
    assert Pass(candidates[..i + 1], budget, limitOf, ledger, now) == Turn(before, id, budget, limitOf, ledger, now);
    if limitOf(id).Some? {
      TickBound(front, budget, limitOf, ledger, now, limitOf(id).value.ruleId);
      TimerMovesOnAdmission(front, budget, limitOf, ledger, now, limitOf(id).value.ruleId);
    }
    hide Pass, OfRule;
  }

  // ---------- spacing over a whole run ----------

  /** One call's inputs to the pass. */
  datatype PassInput = PassInput(candidates: seq<Id>, budget: int, now: int)

  function Ledger(calls: seq<PassInput>, limitOf: LimitOf): map<RuleId, int> {
    if calls == [] then map[]
    else
      var n := |calls| - 1;
      var ledger := Ledger(calls[..n], limitOf);
      ledger + Pass(calls[n].candidates, calls[n].budget, limitOf, ledger, calls[n].now).admittedAt
  }

  /** The times at which a rule let candidates in, call after call, one entry per admission. */
  ghost function AdmissionTimes(calls: seq<PassInput>, limitOf: LimitOf, rule: RuleId): seq<int> {
    if calls == [] then []
    else
      var n := |calls| - 1;
      var p := Pass(calls[n].candidates, calls[n].budget, limitOf, Ledger(calls[..n], limitOf), calls[n].now);
      AdmissionTimes(calls[..n], limitOf, rule) + seq(|OfRule(p.admitted, limitOf, rule)|, _ => calls[n].now)
  }

  ghost predicate SpacedBy(times: seq<int>, ms: int) {
    forall i, j :: 0 <= i < j < |times| ==> times[j] - times[i] >= ms
  }

  /** Every candidate of the rule asks for the same number of seconds between admissions. */
  ghost predicate RuleAsksFor(limitOf: LimitOf, rule: RuleId, seconds: int) {
    forall id :: Governed(limitOf, id, rule) ==>
      EffectiveLimit(limitOf, id).value.minSecondsBetweenAdmissions == Some(seconds)
  }

  /** With a positive period, one call admits at most one candidate of the rule, and only when the
      rule's recorded time lies at least the period back. */
  lemma {:induction false} OnePerPeriod(candidates: seq<Id>, budget: int, limitOf: LimitOf, ledger: map<RuleId, int>, now: int, rule: RuleId, seconds: int)
    requires seconds > 0 && RuleAsksFor(limitOf, rule, seconds)
    ensures var own := OfRule(Pass(candidates, budget, limitOf, ledger, now).admitted, limitOf, rule);
      && |own| <= 1
      && (own != [] && rule in ledger ==> now - ledger[rule] >= seconds * 1000)
  {
    if candidates != [] {
      var n := |candidates| - 1;
      var before := Pass(candidates[..n], budget, limitOf, ledger, now);
      OnePerPeriod(candidates[..n], budget, limitOf, ledger, now, rule, seconds);
      TimerMovesOnAdmission(candidates[..n], budget, limitOf, ledger, now, rule);
      OfRuleSnoc(before.admitted, candidates[n], limitOf, rule);
      assert Pass(candidates, budget, limitOf, ledger, now) == Turn(before, candidates[n], budget, limitOf, ledger, now);
      hide Pass, OfRule;
    }
  }

  lemma SpacingExtends(earlier: seq<int>, times: seq<int>, now: int, ms: int)
    requires SpacedBy(earlier, ms) && ms >= 0
    requires times == earlier || times == earlier + [now]
    requires times != earlier && earlier != [] ==> now - earlier[|earlier| - 1] >= ms
    ensures SpacedBy(times, ms)
  {
  }

  /** Over any run, any two admissions of a rule are at least its period apart. The clock may stand
      still or even step back: the recorded time alone forces the spacing. */
  lemma {:induction false} AdmissionsAreSpaced(calls: seq<PassInput>, limitOf: LimitOf, rule: RuleId, seconds: int)
    requires seconds > 0 && RuleAsksFor(limitOf, rule, seconds)
    ensures var times := AdmissionTimes(calls, limitOf, rule);
      && SpacedBy(times, seconds * 1000)
      && (rule in Ledger(calls, limitOf) <==> times != [])
      && (times != [] ==> Ledger(calls, limitOf)[rule] == times[|times| - 1])
  {
    if calls != [] {
      var n := |calls| - 1;
      var c, ledger := calls[n], Ledger(calls[..n], limitOf);
      AdmissionsAreSpaced(calls[..n], limitOf, rule, seconds);
      OnePerPeriod(c.candidates, c.budget, limitOf, ledger, c.now, rule, seconds);
      TimerMovesOnAdmission(c.candidates, c.budget, limitOf, ledger, c.now, rule);
      var p := Pass(c.candidates, c.budget, limitOf, ledger, c.now);
      assert Ledger(calls, limitOf) == ledger + p.admittedAt;
      var own := OfRule(p.admitted, limitOf, rule);
      var earlier, times := AdmissionTimes(calls[..n], limitOf, rule), AdmissionTimes(calls, limitOf, rule);
      assert times == earlier + seq(|own|, _ => c.now);
      SpacingExtends(earlier, times, c.now, seconds * 1000);
    }
  }
}
