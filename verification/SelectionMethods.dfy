/** The loops of the selector, proved against the functions of Selection. Library sorting stays a function. */
module SelectionMethods {
  import opened Wrappers
  import opened Policies
  import opened Sorting
  import opened Selection

  method UpsertCooldown(values: seq<Cooldown>, value: Cooldown) returns (r: seq<Cooldown>)
    ensures r == Upsert(values, value)
  {
    for i := 0 to |values|
      invariant values[..i] + Upsert(values[i..], value) == Upsert(values, value)
    {
      ghost var tail := values[i..];
      assert tail[0] == values[i] && tail[1..] == values[i + 1..];
      if values[i].connection == value.connection {
        assert values[..i] + ([value] + values[i + 1..]) == values[i := value];
        return values[i := value];
      }
      assert values[..i] + ([values[i]] + Upsert(values[i + 1..], value)) == values[..i + 1] + Upsert(values[i + 1..], value);
    }
    assert values[..|values|] == values && values[|values|..] == [];
    return values + [value];
  }

  /** The most expensive slot that its residence does not protect. */
  method WorstSlot(selected: seq<Ranked>, members: seq<Member>, policy: Policy, now: nat) returns (worst: nat)
    ensures worst == Worst(selected, 0, |selected|, members, policy, now)
  {
    worst := |selected|;
    for i := 0 to |selected|
      invariant worst <= |selected|
      invariant Worst(selected, i, worst, members, policy, now) == Worst(selected, 0, |selected|, members, policy, now)
    {
      var since := FindMember(members, selected[i].Ref());
      if since.Some? && since.value != 0 && now < since.value + policy.residence {
        continue;
      }
      if worst == |selected| || Worse(selected[worst], selected[i]) {
        worst := i;
      }
    }
  }

  /** The in-place pass: each challenger may overwrite one slot. */
  method OptimizeSelected(initial: seq<Ranked>, ranked: seq<Ranked>, members: seq<Member>, policy: Policy, now: nat)
    returns (selected: seq<Ranked>)
    ensures selected == Optimize(initial, ranked, members, policy, now)
  {
    selected := initial;
    for k := 0 to |ranked|
      invariant Optimize(selected, ranked[k..], members, policy, now) == Optimize(initial, ranked, members, policy, now)
    {
      var challenger := ranked[k];
      assert ranked[k..][0] == challenger && ranked[k..][1..] == ranked[k + 1..];
      if Contains(selected, challenger.Ref()) {
        continue;
      }
      var worst := WorstSlot(selected, members, policy, now);
      if worst == |selected| {
        continue;
      }
      if ImprovesBy(challenger.explanation, selected[worst].explanation, policy.requiredImprovementPermille) {
        selected := selected[worst := challenger];
      }
    }
  }

  lemma ExplainOne(ordered: seq<Candidate>, i: nat, env: Env, done: seq<Explanation>)
    requires i < |ordered| && done + Explain(ordered[i..], env) == Explain(ordered, env)
    ensures (done + [Evaluate(ordered[i], env)]) + Explain(ordered[i + 1..], env) == Explain(ordered, env)
  {
    assert ordered[i..][0] == ordered[i] && ordered[i..][1..] == ordered[i + 1..];
    var e, rest := Evaluate(ordered[i], env), Explain(ordered[i + 1..], env);
    assert done + ([e] + rest) == (done + [e]) + rest;
  }

  lemma RankOne(ordered: seq<Candidate>, i: nat, env: Env, done: seq<Ranked>)
    requires i < |ordered| && done + Rankable(ordered[i..], env) == Rankable(ordered, env)
    ensures var e := Evaluate(ordered[i], env);
            (if e.reason == Eligible then done + [Ranked(ordered[i], e)] else done) + Rankable(ordered[i + 1..], env) == Rankable(ordered, env)
  {
    assert ordered[i..][0] == ordered[i] && ordered[i..][1..] == ordered[i + 1..];
    var e, rest := Evaluate(ordered[i], env), Rankable(ordered[i + 1..], env);
    assert done + ([Ranked(ordered[i], e)] + rest) == (done + [Ranked(ordered[i], e)]) + rest;
    assert [] + rest == rest;
  }

  method EvaluateAll(ordered: seq<Candidate>, env: Env) returns (explanations: seq<Explanation>, eligible: seq<Ranked>)
    ensures explanations == Explain(ordered, env) && eligible == Rankable(ordered, env)
  {
    explanations, eligible := [], [];
    assert ordered[0..] == ordered;
    for i := 0 to |ordered|
      invariant explanations + Explain(ordered[i..], env) == Explain(ordered, env)
      invariant eligible + Rankable(ordered[i..], env) == Rankable(ordered, env)
    {
      ExplainOne(ordered, i, env, explanations);
      RankOne(ordered, i, env, eligible);
      var explanation := Evaluate(ordered[i], env);
      explanations := explanations + [explanation];
      if explanation.reason == Eligible {
        eligible := eligible + [Ranked(ordered[i], explanation)];
      }
    }
  }

  lemma KeepFrom(all: seq<Cooldown>, i: nat, ordered: seq<Candidate>, ranked: seq<Ranked>, env: Env)
    requires i < |all|
    ensures var rest := KeepCooldowns(all[i + 1..], ordered, ranked, env);
            KeepCooldowns(all[i..], ordered, ranked, env)
            == if Present(ordered, all[i].connection) && !Released(all[i], ranked, env) then [all[i]] + rest else rest
  {
    assert all[i..][0] == all[i] && all[i..][1..] == all[i + 1..];
  }

  lemma KeepOne(all: seq<Cooldown>, i: nat, ordered: seq<Candidate>, ranked: seq<Ranked>, env: Env, done: seq<Cooldown>)
    requires i < |all| && done + KeepCooldowns(all[i..], ordered, ranked, env) == KeepCooldowns(all, ordered, ranked, env)
    ensures (if Present(ordered, all[i].connection) && !Released(all[i], ranked, env) then done + [all[i]] else done)
            + KeepCooldowns(all[i + 1..], ordered, ranked, env) == KeepCooldowns(all, ordered, ranked, env)
  {
    KeepFrom(all, i, ordered, ranked, env);
    var rest := KeepCooldowns(all[i + 1..], ordered, ranked, env);
    assert done + ([all[i]] + rest) == done + [all[i]] + rest;
  }

  /** Preserve only present cooldowns and release recovered revisions. */
  method KeepPresent(ordered: seq<Candidate>, ranked: seq<Ranked>, env: Env) returns (kept: seq<Cooldown>)
    ensures kept == KeepCooldowns(env.cooldowns, ordered, ranked, env)
  {
    kept := [];
    ghost var all := env.cooldowns;
    assert all[0..] == all;
    for i := 0 to |env.cooldowns|
      invariant kept + KeepCooldowns(all[i..], ordered, ranked, env) == KeepCooldowns(all, ordered, ranked, env)
    {
      var c := env.cooldowns[i];
      KeepOne(all, i, ordered, ranked, env, kept);
      var entry := FindRanked(ranked, c.connection);
      if Present(ordered, c.connection) &&
         (env.now < c.until || entry.None? || entry.value.candidate.evidence.None? ||
          entry.value.candidate.evidence.value.consecutiveSuccesses < env.policy.recoverySuccesses) {
        assert !Released(c, ranked, env);
        kept := kept + [c];
      }
    }
    assert all[|all|..] == [];
  }

  /** A lost member whose latest explanation is a failure starts a cooldown. */
  method PunishMember(cooldowns: seq<Cooldown>, ref: Ref, explanations: seq<Explanation>, ranked: seq<Ranked>, env: Env)
    returns (next: seq<Cooldown>)
    requires env.policy.Valid() && FindRanked(ranked, ref).None?
    ensures next == PunishOne(cooldowns, ref, explanations, ranked, env)
  {
    next := cooldowns;
    var reason := ReasonOf(explanations, ref);
    if reason == Some(FailureStreak) || reason == Some(Unreliable) {
      next := UpsertCooldown(next, Cooldown(ref, env.now + env.policy.cooldown));
    }
  }

  /** Keep eligible members; the failing ones among the others start a cooldown. */
  method KeepMembers(cooldowns: seq<Cooldown>, explanations: seq<Explanation>, ranked: seq<Ranked>, env: Env)
    returns (selected: seq<Ranked>, next: seq<Cooldown>, emergency: bool)
    requires env.policy.Valid()
    ensures selected == Retain(env.members, ranked)
    ensures next == Punish(cooldowns, env.members, explanations, ranked, env)
    ensures emergency <==> LostMember(env.members, ranked)
  {
    selected, next, emergency := [], cooldowns, false;
    ghost var all := env.members;
    for i := 0 to |env.members|
      invariant selected + Retain(all[i..], ranked) == Retain(all, ranked)
      invariant Punish(next, all[i..], explanations, ranked, env) == Punish(cooldowns, all, explanations, ranked, env)
      invariant emergency <==> LostMember(all[..i], ranked)
    {
      var ref := env.members[i].connection;
      assert all[i..][0] == all[i] && all[i..][1..] == all[i + 1..];
      ghost var rest := Retain(all[i + 1..], ranked);
      LostStep(all, i, ranked);
      var entry := FindRanked(ranked, ref);
      if entry.Some? {
        assert Retain(all[i..], ranked) == [entry.value] + rest;
        assert selected + ([entry.value] + rest) == (selected + [entry.value]) + rest;
        selected := selected + [entry.value];
      } else {
        assert Retain(all[i..], ranked) == rest;
        emergency := true;
        next := PunishMember(next, ref, explanations, ranked, env);
      }
    }
    assert all[..|all|] == all && all[|all|..] == [];
  }

  lemma LostStep(members: seq<Member>, i: nat, ranked: seq<Ranked>)
    requires i < |members|
    ensures LostMember(members[..i + 1], ranked) <==>
              LostMember(members[..i], ranked) || FindRanked(ranked, members[i].connection).None?
  {
    var a, b := members[..i], members[..i + 1];
    assert b == a + [members[i]];
    if FindRanked(ranked, members[i].connection).None? {
      assert members[i] in b;
    }
    if LostMember(a, ranked) {
      var m :| m in a && FindRanked(ranked, m.connection).None?;
      assert m in b;
    }
  }

  method FillUp(initial: seq<Ranked>, ranked: seq<Ranked>, topN: int) returns (selected: seq<Ranked>)
    ensures selected == Fill(initial, ranked, topN)
  {
    selected := initial;
    for i := 0 to |ranked|
      invariant Fill(selected, ranked[i..], topN) == Fill(initial, ranked, topN)
    {
      assert ranked[i..][0] == ranked[i] && ranked[i..][1..] == ranked[i + 1..];
      if |selected| >= topN || Contains(selected, ranked[i].Ref()) {
        continue;
      }
      selected := selected + [ranked[i]];
    }
  }

  method HasDuplicate(ordered: seq<Candidate>) returns (found: bool)
    ensures found == AdjacentDuplicate(ordered)
  {
    var i := 1;
    while i < |ordered|
      invariant 1 <= i
      invariant forall k :: 0 < k < i && k < |ordered| ==> ordered[k - 1].ref != ordered[k].ref
    {
      if ordered[i - 1].ref == ordered[i].ref {
        return true;
      }
      i := i + 1;
    }
    return false;
  }

  method ChooseFrom(retained: seq<Ranked>, ranked: seq<Ranked>, usable: bool, env: Env) returns (selected: seq<Ranked>)
    requires env.policy.Valid()
    requires retained == if env.policy.strategy == Adaptive && usable then Retain(env.members, ranked) else []
    ensures selected == Choose(ranked, usable, env)
  {
    selected := retained;
    if |selected| > env.policy.topN {
      selected := SortRanked(selected, Adaptive);
      selected := selected[..env.policy.topN];
    }
    selected := FillUp(selected, ranked, env.policy.topN);
    if env.policy.strategy != Adaptive || !usable {
      if |selected| > env.policy.topN {
        selected := selected[..env.policy.topN];
      }
    } else if |selected| == env.policy.topN {
      selected := OptimizeSelected(selected, ranked, env.members, env.policy, env.now);
    }
  }

  method BuildDecision(scope: string, ordered: seq<Candidate>, previous: Option<State>, env: Env) returns (d: Decision)
    requires env.policy.Valid()
    ensures d == Decide(scope, ordered, previous, env)
  {
    var usable := Usable(previous, scope, env.context, env.policy);
    var explanations, eligible := EvaluateAll(ordered, env);
    var ranked := SortRanked(eligible, env.policy.strategy);
    var cooldowns := KeepPresent(ordered, ranked, env);
    var selected, emergency := [], false;
    if env.policy.strategy == Adaptive && usable {
      selected, cooldowns, emergency := KeepMembers(cooldowns, explanations, ranked, env);
    }
    selected := ChooseFrom(selected, ranked, usable, env);
    var members := NextMembers(selected, env.members, env.now);
    var changed := !SameConnections(env.members, members);
    var transition := if usable then Unchanged else if previous.Some? then ContextReset else Initial;
    if |selected| == 0 {
      transition := NoEligible;
    } else if emergency && changed {
      transition := Emergency;
    } else if changed && usable {
      transition := Optimized;
    }
    d := Decision(Refs(selected), explanations, State(scope, env.context, env.policy, env.now, members, cooldowns),
                  changed, |selected| < env.policy.topN, transition, |ranked|, env.policy.topN);
  }

  method SelectEndpoints(scope: string, context: Context, policy: Policy, candidates: seq<Candidate>, previous: Option<State>,
                         now: nat, wilson: (int, int) -> Ppm) returns (r: Result<Decision, Error>)
    ensures r == Select(scope, context, policy, candidates, previous, now, wilson)
  {
    if !SafeScope(scope) || now == 0 {
      return Err(BadRequest);
    }
    if !policy.Valid() {
      return Err(BadPolicy);
    }
    if Usable(previous, scope, context, policy) && now < previous.value.evaluatedAt {
      return Err(OlderThanState);
    }
    var ordered := Ordered(candidates);
    var duplicate := HasDuplicate(ordered);
    if duplicate {
      return Err(DuplicateCandidates);
    }
    for i := 0 to |ordered|
      invariant forall k :: 0 <= k < i ==> ordered[k].ref.Valid()
    {
      if !ordered[i].ref.Valid() {
        return Err(BadIdentity);
      }
    }
    var d := BuildDecision(scope, ordered, previous, EnvOf(previous, scope, context, policy, now, wilson));
    return Ok(d);
  }
}
