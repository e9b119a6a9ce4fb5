/** With frozen evidence, every changed adaptive decision strictly lowers the total cost, so changes end. */
module ReplayConvergence {
  import opened Wrappers
  import opened Policies
  import opened Sorting
  import opened Finite
  import opened Selection
  import opened SelectionProofs
  import opened SelectionHysteresis
  import opened Replay
  import opened ReplayProofs

  function Sum(values: seq<Ranked>): int {
    if values == [] then 0 else values[0].explanation.cost + Sum(values[1..])
  }

  /** Slot-wise no dearer, and strictly cheaper in total if any slot changed. */
  lemma {:induction false} SumLower(a: seq<Ranked>, b: seq<Ranked>)
    requires |a| == |b|
    requires forall i :: 0 <= i < |a| ==> a[i] == b[i] || a[i].explanation.cost < b[i].explanation.cost
    ensures Sum(a) <= Sum(b)
    ensures a != b ==> Sum(a) < Sum(b)
  {
    if a == [] {
    } else {
      SumLower(a[1..], b[1..]);
      assert a == [a[0]] + a[1..] && b == [b[0]] + b[1..];
    }
  }

  /** The cost of a connection among fixed candidates; without cooldowns it does not depend on the run. */
  function CostOf(candidates: seq<Candidate>, ref: Ref, env: Env): int {
    if candidates == [] then 0
    else if candidates[0].ref == ref then Evaluate(candidates[0], env).cost
    else CostOf(candidates[1..], ref, env)
  }

  function TotalCost(members: seq<Member>, candidates: seq<Candidate>, env: Env): int {
    if members == [] then 0
    else CostOf(candidates, members[0].connection, env) + TotalCost(members[1..], candidates, env)
  }

  /** Evaluation without cooldowns depends on members and time only through residence and incumbency. */
  lemma EvaluateFrozen(c: Candidate, a: Env, b: Env)
    requires a.cooldowns == [] == b.cooldowns && a.context == b.context && a.policy == b.policy && a.wilson == b.wilson
    ensures Evaluate(c, a).reason == Evaluate(c, b).reason && Evaluate(c, a).cost == Evaluate(c, b).cost
  {
  }

  lemma {:induction false} CostOfCandidate(candidates: seq<Candidate>, c: Candidate, a: Env, b: Env)
    requires DistinctCandidates(candidates) && c in candidates
    requires a.cooldowns == [] == b.cooldowns && a.context == b.context && a.policy == b.policy && a.wilson == b.wilson
    ensures CostOf(candidates, c.ref, b) == Evaluate(c, a).cost
  {
    if candidates[0] == c {
      EvaluateFrozen(c, a, b);
    } else {
      assert c in candidates[1..];
      var i :| 0 <= i < |candidates[1..]| && candidates[1..][i] == c;
      assert candidates[i + 1] == c;
      CostOfCandidate(candidates[1..], c, a, b);
    }
  }

  /** The members' total cost is the sum over the slots they were chosen from. */
  lemma {:induction false} TotalIsSum(members: seq<Member>, values: seq<Ranked>, ordered: seq<Candidate>, a: Env, b: Env)
    requires |members| == |values| && DistinctCandidates(ordered)
    requires forall i :: 0 <= i < |members| ==> members[i].connection == values[i].Ref()
    requires forall v :: v in values ==> v.candidate in ordered && v.explanation == Evaluate(v.candidate, a)
    requires a.cooldowns == [] == b.cooldowns && a.context == b.context && a.policy == b.policy && a.wilson == b.wilson
    ensures TotalCost(members, ordered, b) == Sum(values)
  {
    if members == [] {
    } else {
      assert values[0] in values;
      CostOfCandidate(ordered, values[0].candidate, a, b);
      forall v | v in values[1..]
        ensures v in values
      {
      }
      TotalIsSum(members[1..], values[1..], ordered, a, b);
    }
  }

  // ----- a full set of eligible members

  /** Every member has a ranked entry. */
  ghost predicate AllRanked(members: seq<Member>, ranked: seq<Ranked>) {
    forall m :: m in members ==> FindRanked(ranked, m.connection).Some?
  }

  lemma {:induction false} RetainAll(members: seq<Member>, ranked: seq<Ranked>)
    requires AllRanked(members, ranked)
    ensures var r := Retain(members, ranked);
            |r| == |members| && forall i :: 0 <= i < |members| ==> r[i].Ref() == members[i].connection
  {
    if members == [] {
    } else {
      assert members[0] in members;
      assert forall m :: m in members[1..] ==> m in members;
      RetainAll(members[1..], ranked);
    }
  }

  lemma {:induction false} FillFull(selected: seq<Ranked>, ranked: seq<Ranked>, topN: int)
    requires |selected| >= topN
    ensures Fill(selected, ranked, topN) == selected
    decreases |ranked|
  {
    if ranked == [] {
    } else {
      FillFull(selected, ranked[1..], topN);
    }
  }

  lemma {:induction false} PunishNone(cooldowns: seq<Cooldown>, members: seq<Member>, explanations: seq<Explanation>, ranked: seq<Ranked>, env: Env)
    requires env.policy.Valid() && AllRanked(members, ranked)
    ensures Punish(cooldowns, members, explanations, ranked, env) == cooldowns
    decreases |members|
  {
    if members == [] {
    } else {
      assert members[0] in members;
      assert forall m :: m in members[1..] ==> m in members;
      PunishNone(cooldowns, members[1..], explanations, ranked, env);
    }
  }

  /** The optimising pass over a full set: slot by slot the same entry or a strictly cheaper one. */
  lemma FullSetOptimizes(ordered: seq<Candidate>, ranked: seq<Ranked>, env: Env)
    requires GoodRanking(ordered, ranked, env) && env.policy.Valid() && env.policy.strategy == Adaptive
    requires AllRanked(env.members, ranked) && |env.members| == env.policy.topN
    ensures var kept, chosen := Retain(env.members, ranked), Choose(ranked, true, env);
            && |chosen| == |kept| == |env.members|
            && (forall i :: 0 <= i < |kept| ==> chosen[i] == kept[i] || chosen[i].explanation.cost < kept[i].explanation.cost)
  {
    var kept, chosen := Retain(env.members, ranked), Choose(ranked, true, env);
    RetainAll(env.members, ranked);
    FillFull(kept, ranked, env.policy.topN);
    RankableDistinct(ordered, env);
    RankedByCost(Rankable(ordered, env));
    forall i | 0 <= i < |kept|
      ensures chosen[i] == kept[i] || chosen[i].explanation.cost < kept[i].explanation.cost
    {
      PassReplaces(kept, ranked, env.members, env.policy, env.now, i);
    }
  }

  /** A state that frozen evidence keeps full: no cooldowns, TopN members, all of them eligible. */
  ghost predicate Settled(state: State, candidates: seq<Candidate>, env: Env) {
    && state.cooldowns == [] && |state.members| == env.policy.topN
    && forall m :: m in state.members ==> m.connection in EligibleRefs(candidates, env)
  }

  lemma SettledRanked(ordered: seq<Candidate>, ranked: seq<Ranked>, env: Env, base: Env)
    requires GoodRanking(ordered, ranked, env)
    requires env.cooldowns == [] == base.cooldowns && env.context == base.context && env.policy == base.policy && env.wilson == base.wilson
    requires forall m :: m in env.members ==> m.connection in EligibleRefs(ordered, base)
    ensures AllRanked(env.members, ranked)
  {
    forall m | m in env.members
      ensures FindRanked(ranked, m.connection).Some?
    {
      var c :| c in ordered && Evaluate(c, base).reason == Eligible && c.ref == m.connection;
      EvaluateFrozen(c, env, base);
      assert Ranked(c, Evaluate(c, env)) in ranked;
    }
  }

  /** The next members of a settled state: again eligible, and cheaper in total if anything changed. */
  lemma SettledStep(ordered: seq<Candidate>, ranked: seq<Ranked>, env: Env, base: Env)
    requires GoodRanking(ordered, ranked, env) && env.policy.Valid() && env.policy.strategy == Adaptive
    requires env.cooldowns == [] == base.cooldowns && env.context == base.context && env.policy == base.policy && env.wilson == base.wilson
    requires |env.members| == env.policy.topN && DistinctMembers(env.members)
    requires forall m :: m in env.members ==> m.connection in EligibleRefs(ordered, base)
    ensures var next := NextMembers(Choose(ranked, true, env), env.members, env.now);
            && |next| == env.policy.topN
            && TotalCost(next, ordered, base) <= TotalCost(env.members, ordered, base)
            && (!SameConnections(env.members, next) ==> TotalCost(next, ordered, base) < TotalCost(env.members, ordered, base))
  {
    var kept, chosen := Retain(env.members, ranked), Choose(ranked, true, env);
    var next := NextMembers(chosen, env.members, env.now);
    SettledRanked(ordered, ranked, env, base);
    RetainAll(env.members, ranked);
    RetainSpec(env.members, ranked);
    FullSetOptimizes(ordered, ranked, env);
    ChooseSpec(ranked, true, env);
    TotalIsSum(env.members, kept, ordered, env, base);
    TotalIsSum(next, chosen, ordered, env, base);
    SumLower(chosen, kept);
  }

  lemma NextEligible(ordered: seq<Candidate>, ranked: seq<Ranked>, env: Env, base: Env)
    requires GoodRanking(ordered, ranked, env) && env.policy.Valid() && DistinctMembers(env.members)
    requires env.cooldowns == [] == base.cooldowns && env.context == base.context && env.policy == base.policy && env.wilson == base.wilson
    ensures forall m :: m in NextMembers(Choose(ranked, true, env), env.members, env.now) ==> m.connection in EligibleRefs(ordered, base)
  {
    var chosen := Choose(ranked, true, env);
    ChooseSpec(ranked, true, env);
    forall m | m in NextMembers(chosen, env.members, env.now)
      ensures m.connection in EligibleRefs(ordered, base)
    {
      var i :| 0 <= i < |chosen| && m.connection == chosen[i].Ref();
      assert chosen[i] in chosen && chosen[i] in ranked;
      EvaluateFrozen(chosen[i].candidate, env, base);
    }
  }

  // ----- runs with frozen evidence

  /** The evaluation environment without history: what frozen costs refer to. */
  function Fresh(s: Scenario, wilson: (int, int) -> Ppm): Env {
    Env(s.context, s.policy, [], [], 0, wilson)
  }

  lemma EligibleOrdered(candidates: seq<Candidate>, env: Env)
    ensures EligibleRefs(Ordered(candidates), env) == EligibleRefs(candidates, env)
  {
    SortKeeps(candidates);
  }

  /** One frame of frozen evidence: the state stays settled and its total cost never rises. */
  lemma FrozenStep(s: Scenario, ds: seq<Decision>, wilson: (int, int) -> Ppm, i: nat)
    requires Replayed(s, ds, wilson) && s.context.Valid() && s.policy.strategy == Adaptive && 0 < i < |ds|
    requires Settled(ds[i - 1].next, s.frames[i].candidates, Fresh(s, wilson))
    ensures Settled(ds[i].next, s.frames[i].candidates, Fresh(s, wilson))
    ensures var ordered, base := Ordered(s.frames[i].candidates), Fresh(s, wilson);
            && TotalCost(ds[i].next.members, ordered, base) <= TotalCost(ds[i - 1].next.members, ordered, base)
            && (ds[i].changed ==> TotalCost(ds[i].next.members, ordered, base) < TotalCost(ds[i - 1].next.members, ordered, base))
  {
    var ordered, base := Ordered(s.frames[i].candidates), Fresh(s, wilson);
    var env, ranked := EnvAt(s, ds, i, wilson), RankedAt(s, ds, i, wilson);
    StepEnv(s, ds, wilson, i);
    StepRanking(s, ds, wilson, i);
    StepShape(s, ds, wilson, i);
    EligibleOrdered(s.frames[i].candidates, base);
    FrozenEffects(ordered, ranked, env, base, ds[i]);
  }

  lemma FrozenEffects(ordered: seq<Candidate>, ranked: seq<Ranked>, env: Env, base: Env, d: Decision)
    requires GoodRanking(ordered, ranked, env) && GoodEnv(env) && env.policy.strategy == Adaptive
    requires env.cooldowns == [] == base.cooldowns && env.context == base.context && env.policy == base.policy && env.wilson == base.wilson
    requires |env.members| == env.policy.topN
    requires forall m :: m in env.members ==> m.connection in EligibleRefs(ordered, base)
    requires d.next.members == NextMembers(Choose(ranked, true, env), env.members, env.now)
    requires d.next.cooldowns == NextCooldowns(ordered, ranked, true, env)
    requires d.changed <==> !SameConnections(env.members, d.next.members)
    ensures Settled(d.next, ordered, base)
    ensures TotalCost(d.next.members, ordered, base) <= TotalCost(env.members, ordered, base)
    ensures d.changed ==> TotalCost(d.next.members, ordered, base) < TotalCost(env.members, ordered, base)
  {
    SettledStep(ordered, ranked, env, base);
    NextEligible(ordered, ranked, env, base);
    SettledRanked(ordered, ranked, env, base);
    PunishNone([], env.members, Explain(ordered, env), ranked, env);
  }

  function Changes(ds: seq<Decision>): nat {
    if ds == [] then 0 else (if ds[0].changed then 1 else 0) + Changes(ds[1..])
  }

  /** Measured evidence: durations within the observation ceiling, so costs are positive. */
  ghost predicate Measured(candidates: seq<Candidate>) {
    forall c :: c in candidates && c.evidence.Some? ==> c.evidence.value.mean <= 2 * MINUTE
  }

  lemma {:induction false} CostNonNegative(candidates: seq<Candidate>, ref: Ref, env: Env)
    requires Measured(candidates)
    ensures CostOf(candidates, ref, env) >= 0
  {
    if candidates == [] {
    } else {
      assert candidates[0] in candidates;
      EvaluateCost(candidates[0], env);
      assert forall c :: c in candidates[1..] ==> c in candidates;
      CostNonNegative(candidates[1..], ref, env);
    }
  }

  lemma EvaluateCost(c: Candidate, env: Env)
    requires c.evidence.Some? ==> c.evidence.value.mean <= 2 * MINUTE
    ensures Evaluate(c, env).cost >= 0
  {
    if c.evidence.Some? && c.evidence.value.mean > 0 {
      var confidence := env.wilson(c.evidence.value.successes, c.evidence.value.samples);
      if confidence > 0 {
        RiskCostIsCeiling(c.evidence.value.mean, confidence);
      }
    }
  }

  lemma {:induction false} TotalNonNegative(members: seq<Member>, candidates: seq<Candidate>, env: Env)
    requires Measured(candidates)
    ensures TotalCost(members, candidates, env) >= 0
  {
    if members == [] {
    } else {
      CostNonNegative(candidates, members[0].connection, env);
      TotalNonNegative(members[1..], candidates, env);
    }
  }

  lemma {:induction false} ChangesPaid(s: Scenario, ds: seq<Decision>, wilson: (int, int) -> Ppm, i: nat, k: nat)
    requires Replayed(s, ds, wilson) && s.context.Valid() && s.policy.strategy == Adaptive && i <= k < |ds|
    requires forall j :: i < j <= k ==> s.frames[j].candidates == s.frames[i].candidates
    requires Settled(ds[i].next, s.frames[i].candidates, Fresh(s, wilson))
    ensures var ordered, base := Ordered(s.frames[i].candidates), Fresh(s, wilson);
            Changes(ds[i + 1..k + 1]) + TotalCost(ds[k].next.members, ordered, base) <= TotalCost(ds[i].next.members, ordered, base)
    ensures Settled(ds[k].next, s.frames[i].candidates, Fresh(s, wilson))
    decreases k - i
  {
    if i == k {
      assert ds[i + 1..k + 1] == [];
    } else {
      FrozenStep(s, ds, wilson, i + 1);
      ChangesPaid(s, ds, wilson, i + 1, k);
      assert ds[i + 1..k + 1][0] == ds[i + 1] && ds[i + 1..k + 1][1..] == ds[i + 2..k + 1];
    }
  }

  /**
   While the evidence stays the same and the members are TopN eligible connections without cooldowns, an adaptive
   run changes its selection at most as often as its total cost is nanoseconds: every change pays at least one.
   */
  lemma FrozenRunSettles(s: Scenario, ds: seq<Decision>, wilson: (int, int) -> Ppm, i: nat, k: nat)
    requires Replayed(s, ds, wilson) && s.context.Valid() && s.policy.strategy == Adaptive && i <= k < |ds|
    requires forall j :: i < j <= k ==> s.frames[j].candidates == s.frames[i].candidates
    requires Settled(ds[i].next, s.frames[i].candidates, Fresh(s, wilson)) && Measured(s.frames[i].candidates)
    ensures Changes(ds[i + 1..k + 1]) <= TotalCost(ds[i].next.members, Ordered(s.frames[i].candidates), Fresh(s, wilson))
  {
    ChangesPaid(s, ds, wilson, i, k);
    SortKeeps(s.frames[i].candidates);
    TotalNonNegative(ds[k].next.members, Ordered(s.frames[i].candidates), Fresh(s, wilson));
  }
}
