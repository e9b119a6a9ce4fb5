/** The optimising pass: exact costs, who may replace whom, and why replacement comes to an end. */
module SelectionHysteresis {
  import opened Wrappers
  import opened Policies
  import opened Sorting
  import opened Finite
  import opened Selection
  import opened SelectionProofs
  import Cadence

  // ----- arithmetic of costs

  /** For every duration an observation can have, the cost is the exact ceiling and no product wraps. */
  lemma RiskCostIsCeiling(duration: int, confidence: int)
    requires 0 < duration <= 2 * MINUTE && 0 < confidence <= 1_000_000
    ensures var r := RiskCost(duration, confidence);
            r > 0 && (r - 1) * confidence < duration * 1_000_000 <= r * confidence
  {
    var a := duration * 1_000_000 + confidence - 1;
    assert Cadence.Wrap(duration * 1_000_000) == duration * 1_000_000;
    assert Cadence.Wrap(a) == a;
    Cadence.FloorBracket(a, confidence);
    CeilingStep(RiskCost(duration, confidence), confidence, duration * 1_000_000);
  }

  lemma CeilingStep(q: int, c: int, d: int)
    requires c > 0 && d > 0 && q * c <= d + c - 1 < (q + 1) * c
    ensures (q - 1) * c < d <= q * c && q > 0
  {
    assert (q + 1) * c == q * c + c;
    assert (q - 1) * c == q * c - c;
    if q <= 0 {
      Cadence.MulMonotone(q, 0, c);
      assert false;
    }
  }

  /** Two entries never improve on each other. */
  lemma ImprovesAsymmetric(a: Explanation, b: Explanation, required: int)
    requires ImprovesBy(a, b, required)
    ensures !ImprovesBy(b, a, required) && !ImprovesBy(a, a, required)
  {
  }

  lemma MulCancel(x: int, y: int, k: int)
    requires k > 0 && x * k <= y * k
    ensures x <= y
  {
    assert (y + 1) * k == y * k + k;
    if x > y {
      Cadence.MulMonotone(y + 1, x, k);
      assert false;
    }
  }

  lemma MulChain(a: int, b: int, c: int, d: int)
    requires 0 <= a <= b && 0 <= c <= d
    ensures a * c <= b * d
  {
    Cadence.MulMonotone(a, b, c);
    Cadence.MulMonotone(c, d, b);
    assert c * b == b * c && d * b == b * d;
  }

  lemma Regroup(d1: int, p1: int, d2: int, p2: int, d3: int, p3: int, k: int)
    ensures (d1 * p2 * 1000) * (d2 * p3 * 1000) == (d1 * p3 * 1000 * 1000) * (d2 * p2)
    ensures (d2 * p1 * k) * (d3 * p2 * k) == (d3 * p1 * k * k) * (d2 * p2)
  {
    assert (d1 * p2 * 1000) * (d2 * p3 * 1000) == (d1 * p3 * 1000 * 1000) * (d2 * p2) by {
      var a, b := d1 * p3, d2 * p2;
      assert (d1 * p2) * (d2 * p3) == a * b;
      assert (d1 * p2 * 1000) * (d2 * p3 * 1000) == (d1 * p2) * (d2 * p3) * 1_000_000;
    }
    assert (d2 * p1 * k) * (d3 * p2 * k) == (d3 * p1 * k * k) * (d2 * p2) by {
      assert (d2 * p1) * (d3 * p2) == (d3 * p1) * (d2 * p2);
      assert (d2 * p1 * k) * (d3 * p2 * k) == ((d2 * p1) * (d3 * p2)) * (k * k);
      assert (d3 * p1 * k * k) * (d2 * p2) == ((d3 * p1) * (d2 * p2)) * (k * k);
    }
  }

  /** Improvement by at least the required margin is transitive. */
  lemma ImprovesTransitive(a: Explanation, b: Explanation, c: Explanation, required: int)
    requires 0 <= required < 1000
    requires a.mean > 0 && b.mean > 0 && c.mean > 0 && a.confidence > 0 && b.confidence > 0 && c.confidence > 0
    requires ImprovesBy(a, b, required) && ImprovesBy(b, c, required)
    ensures ImprovesBy(a, c, required)
  {
    var k := 1000 - required;
    Positive(a.mean, b.confidence);
    Positive(b.mean, c.confidence);
    Positive(b.mean, b.confidence);
    Positive(c.mean, a.confidence);
    MulChain(a.mean * b.confidence * 1000, b.mean * a.confidence * k, b.mean * c.confidence * 1000, c.mean * b.confidence * k);
    Regroup(a.mean, a.confidence, b.mean, b.confidence, c.mean, c.confidence, k);
    MulCancel(a.mean * c.confidence * 1000 * 1000, c.mean * a.confidence * k * k, b.mean * b.confidence);
    Cadence.MulMonotone(k, 1000, c.mean * a.confidence * k);
    var x, y := a.mean * c.confidence * 1000, c.mean * a.confidence * k;
    assert y * k == k * y && y * 1000 == 1000 * y;
    MulCancel(x, y, 1000);
  }

  lemma Positive(a: int, b: int)
    requires a > 0 && b > 0
    ensures a * b > 0
  {
  }

  // ----- the slot that may be replaced

  /** The replaced slot is outside its residence, and no such slot is costlier. */
  lemma {:induction false} WorstSpec(selected: seq<Ranked>, i: nat, worst: nat, members: seq<Member>, policy: Policy, now: nat)
    requires i <= |selected| && worst <= |selected|
    requires worst < |selected| ==> !Resident(members, selected[worst].Ref(), policy, now)
    requires forall j :: 0 <= j < i && !Resident(members, selected[j].Ref(), policy, now) ==>
               worst < |selected| && !Worse(selected[worst], selected[j])
    ensures var w := Worst(selected, i, worst, members, policy, now);
            && (w < |selected| ==> !Resident(members, selected[w].Ref(), policy, now))
            && (forall j :: 0 <= j < |selected| && !Resident(members, selected[j].Ref(), policy, now) ==>
                  w < |selected| && !Worse(selected[w], selected[j]))
    decreases |selected| - i
  {
    if i == |selected| {
    } else {
      var next := if Resident(members, selected[i].Ref(), policy, now) then worst
                  else if worst == |selected| || Worse(selected[worst], selected[i]) then i else worst;
      forall j | 0 <= j < i + 1 && !Resident(members, selected[j].Ref(), policy, now)
        ensures next < |selected| && !Worse(selected[next], selected[j])
      {
        BelowTotal(selected[i].Order(Adaptive), selected[i].Order(Adaptive));
        if next == i && j < i && Worse(selected[i], selected[j]) {
          BelowTransitive(selected[worst].Order(Adaptive), selected[i].Order(Adaptive), selected[j].Order(Adaptive));
        }
      }
      WorstSpec(selected, i + 1, next, members, policy, now);
    }
  }

  /** One challenger changes at most one slot, outside its residence and only by a sufficient improvement. */
  lemma StepReplaces(selected: seq<Ranked>, c: Ranked, members: seq<Member>, policy: Policy, now: nat, i: nat)
    requires i < |selected|
    ensures var r := OptimizeStep(selected, c, members, policy, now);
            r[i] == selected[i] ||
            (r[i] == c && !Resident(members, selected[i].Ref(), policy, now) &&
             ImprovesBy(c.explanation, selected[i].explanation, policy.requiredImprovementPermille))
  {
    WorstSpec(selected, 0, |selected|, members, policy, now);
  }

  /** A slot no dearer than any remaining challenger is never replaced. */
  lemma {:induction false} CheapStays(selected: seq<Ranked>, ranked: seq<Ranked>, members: seq<Member>, policy: Policy, now: nat, i: nat)
    requires i < |selected|
    requires forall v :: v in ranked ==> selected[i].explanation.cost <= v.explanation.cost
    ensures Optimize(selected, ranked, members, policy, now)[i] == selected[i]
    decreases |ranked|
  {
    if ranked == [] {
    } else {
      StepReplaces(selected, ranked[0], members, policy, now, i);
      assert ranked[0] in ranked;
      CheapStays(OptimizeStep(selected, ranked[0], members, policy, now), ranked[1..], members, policy, now, i);
    }
  }

  ghost predicate ByCost(ranked: seq<Ranked>) {
    forall i, j :: 0 <= i < j < |ranked| ==> ranked[i].explanation.cost <= ranked[j].explanation.cost
  }

  /**
   What a whole pass does to one slot: it keeps its entry, or ends with a challenger that improves on it by the
   required margin at strictly lower cost.
   */
  lemma {:induction false} PassReplaces(selected: seq<Ranked>, ranked: seq<Ranked>, members: seq<Member>, policy: Policy, now: nat, i: nat)
    requires i < |selected| && ByCost(ranked)
    ensures var r := Optimize(selected, ranked, members, policy, now);
            r[i] == selected[i] ||
            (r[i] in ranked && !Resident(members, selected[i].Ref(), policy, now) &&
             ImprovesBy(r[i].explanation, selected[i].explanation, policy.requiredImprovementPermille))
    decreases |ranked|
  {
    if ranked == [] {
    } else {
      var next := OptimizeStep(selected, ranked[0], members, policy, now);
      StepReplaces(selected, ranked[0], members, policy, now, i);
      if next[i] == selected[i] {
        PassReplaces(next, ranked[1..], members, policy, now, i);
      } else {
        forall v | v in ranked[1..]
          ensures next[i].explanation.cost <= v.explanation.cost
        {
          var j :| 0 <= j < |ranked[1..]| && ranked[1..][j] == v;
          assert ranked[j + 1] == v;
        }
        CheapStays(next, ranked[1..], members, policy, now, i);
      }
    }
  }

  lemma {:induction false} OptimizeSplits(selected: seq<Ranked>, a: seq<Ranked>, b: seq<Ranked>, members: seq<Member>, policy: Policy, now: nat)
    ensures Optimize(selected, a + b, members, policy, now) ==
            Optimize(Optimize(selected, a, members, policy, now), b, members, policy, now)
    decreases |a|
  {
    if a == [] {
      assert a + b == b;
    } else {
      assert (a + b)[0] == a[0] && (a + b)[1..] == a[1..] + b;
      OptimizeSplits(OptimizeStep(selected, a[0], members, policy, now), a[1..], b, members, policy, now);
    }
  }

  /** The selection when challenger k of a pass has its turn. */
  function BeforeTurn(selected: seq<Ranked>, ranked: seq<Ranked>, k: nat, members: seq<Member>, policy: Policy, now: nat): (r: seq<Ranked>)
    requires k <= |ranked|
    ensures |r| == |selected|
  {
    Optimize(selected, ranked[..k], members, policy, now)
  }

  lemma OptimizeFrom(selected: seq<Ranked>, ranked: seq<Ranked>, k: nat, members: seq<Member>, policy: Policy, now: nat)
    requires k < |ranked|
    ensures var after := OptimizeStep(BeforeTurn(selected, ranked, k, members, policy, now), ranked[k], members, policy, now);
            Optimize(selected, ranked, members, policy, now) == Optimize(after, ranked[k + 1..], members, policy, now)
  {
    assert ranked == ranked[..k] + ranked[k..];
    OptimizeSplits(selected, ranked[..k], ranked[k..], members, policy, now);
    assert ranked[k..][0] == ranked[k] && ranked[k..][1..] == ranked[k + 1..];
  }

  lemma LaterIsDearer(ranked: seq<Ranked>, k: nat)
    requires k < |ranked| && ByCost(ranked)
    ensures forall v :: v in ranked[k + 1..] ==> ranked[k].explanation.cost <= v.explanation.cost
  {
    forall v | v in ranked[k + 1..]
      ensures ranked[k].explanation.cost <= v.explanation.cost
    {
      var j :| 0 <= j < |ranked[k + 1..]| && ranked[k + 1..][j] == v;
      assert ranked[k + 1 + j] == v;
    }
  }

  /** A challenger that a pass places in a slot is still there when the pass ends: no slot is replaced twice. */
  lemma PlacedStays(selected: seq<Ranked>, ranked: seq<Ranked>, members: seq<Member>, policy: Policy, now: nat, k: nat, i: nat)
    requires k < |ranked| && i < |selected| && ByCost(ranked)
    requires var before := BeforeTurn(selected, ranked, k, members, policy, now);
             OptimizeStep(before, ranked[k], members, policy, now)[i] != before[i]
    ensures Optimize(selected, ranked, members, policy, now)[i] == ranked[k]
  {
    var before := BeforeTurn(selected, ranked, k, members, policy, now);
    StepReplaces(before, ranked[k], members, policy, now, i);
    LaterIsDearer(ranked, k);
    CheapStays(OptimizeStep(before, ranked[k], members, policy, now), ranked[k + 1..], members, policy, now, i);
    OptimizeFrom(selected, ranked, k, members, policy, now);
  }

  // ----- why a member leaves

  lemma {:induction false} RetainKeeps(members: seq<Member>, ranked: seq<Ranked>, m: Member, v: Ranked)
    requires m in members && FindRanked(ranked, m.connection) == Some(v)
    ensures v in Retain(members, ranked)
  {
    if members[0] == m {
    } else {
      RetainKeeps(members[1..], ranked, m, v);
    }
  }

  lemma {:induction false} RetainSize(members: seq<Member>, ranked: seq<Ranked>)
    ensures |Retain(members, ranked)| <= |members|
  {
    if members == [] {
    } else {
      RetainSize(members[1..], ranked);
    }
  }

  lemma RankedByCost(values: seq<Ranked>)
    requires DistinctRefs(values)
    ensures ByCost(SortRanked(values, Adaptive))
  {
    SortRankedSpec(values, Adaptive);
  }

  /** An eligible member of a set within TopN keeps its slot unless a chosen challenger beats it. */
  lemma EligibleMemberChosen(ordered: seq<Candidate>, ranked: seq<Ranked>, env: Env, m: Member, v: Ranked)
    requires GoodRanking(ordered, ranked, env) && env.policy.Valid() && env.policy.strategy == Adaptive
    requires DistinctMembers(env.members) && |env.members| <= env.policy.topN
    requires m in env.members && v in ranked && v.Ref() == m.connection
    ensures var chosen := Choose(ranked, true, env);
            v in chosen ||
            (!Resident(env.members, v.Ref(), env.policy, env.now) &&
             exists c :: c in chosen && ImprovesBy(c.explanation, v.explanation, env.policy.requiredImprovementPermille))
  {
    FindDistinct(ranked, v);
    RetainKeeps(env.members, ranked, m, v);
    RetainSize(env.members, ranked);
    BaseSpec(ranked, true, env);
    var base := Base(ranked, true, env);
    var filled := Fill(base, ranked, env.policy.topN);
    FillSpec(base, ranked, env.policy.topN);
    var i :| 0 <= i < |base| && base[i] == v;
    assert filled[i] == v;
    if |filled| == env.policy.topN {
      RankableDistinct(ordered, env);
      RankedByCost(Rankable(ordered, env));
      PassReplaces(filled, ranked, env.members, env.policy, env.now, i);
      var chosen := Choose(ranked, true, env);
      assert chosen[i] in chosen;
    }
  }

  lemma FindMemberDistinct(members: seq<Member>, m: Member)
    requires DistinctMembers(members) && m in members
    ensures FindMember(members, m.connection) == Some(m.selectedAt)
  {
    var since := FindMember(members, m.connection);
    var n :| n in members && n.connection == m.connection && n.selectedAt == since.value;
    var i :| 0 <= i < |members| && members[i] == m;
    var j :| 0 <= j < |members| && members[j] == n;
  }

  /**
   Under an unchanged adaptive policy a member leaves the selection only if it became ineligible, or its
   residence is over and a connection that is selected now beats it: strictly cheaper, and better by at least
   the required margin.
   */
  lemma MemberLeavesOnlyBeaten(scope: string, context: Context, policy: Policy, candidates: seq<Candidate>, p: State,
                               now: nat, wilson: (int, int) -> Ppm, d: Decision, m: Member)
    requires Select(scope, context, policy, candidates, Some(p), now, wilson) == Ok(d)
    requires Usable(Some(p), scope, context, policy) && policy.strategy == Adaptive
    requires p.Valid() && |p.members| <= policy.topN
    requires m in p.members && m.connection !in d.selected
    ensures var env := EnvOf(Some(p), scope, context, policy, now, wilson);
            m.connection !in EligibleRefs(candidates, env) ||
            (now >= m.selectedAt + policy.residence &&
             exists c, x :: c in candidates && x in candidates && c.ref in d.selected && x.ref == m.connection &&
                            ImprovesBy(Evaluate(c, env), Evaluate(x, env), policy.requiredImprovementPermille))
  {
    var env := EnvOf(Some(p), scope, context, policy, now, wilson);
    var ordered := Ordered(candidates);
    var ranked := SortRanked(Rankable(ordered, env), policy.strategy);
    SortKeeps(candidates);
    DuplicateIff(candidates);
    RankingIsGood(ordered, env);
    if m.connection in EligibleRefs(candidates, env) {
      var x :| x in candidates && Evaluate(x, env).reason == Eligible && x.ref == m.connection;
      var v := Ranked(x, Evaluate(x, env));
      assert v in ranked;
      EligibleMemberChosen(ordered, ranked, env, m, v);
      var chosen := Choose(ranked, true, env);
      forall i | 0 <= i < |chosen|
        ensures chosen[i] != v
      {
        assert d.selected[i] == chosen[i].Ref();
      }
      BeatenBy(ordered, ranked, env, v, d.selected);
      FindMemberDistinct(env.members, m);
      assert m.selectedAt != 0;
    }
  }

  /** The chosen challenger named in terms of the candidates. */
  lemma BeatenBy(ordered: seq<Candidate>, ranked: seq<Ranked>, env: Env, v: Ranked, selected: seq<Ref>)
    requires GoodRanking(ordered, ranked, env) && env.policy.Valid() && DistinctMembers(env.members)
    requires v in ranked && selected == Refs(Choose(ranked, true, env))
    requires exists c :: c in Choose(ranked, true, env) && ImprovesBy(c.explanation, v.explanation, env.policy.requiredImprovementPermille)
    ensures exists c, x :: c in ordered && x in ordered && c.ref in selected && x.ref == v.Ref() &&
                           ImprovesBy(Evaluate(c, env), Evaluate(x, env), env.policy.requiredImprovementPermille)
  {
    var chosen := Choose(ranked, true, env);
    var c :| c in chosen && ImprovesBy(c.explanation, v.explanation, env.policy.requiredImprovementPermille);
    ChooseSpec(ranked, true, env);
    assert c in ranked;
    var i :| 0 <= i < |chosen| && chosen[i] == c;
    assert selected[i] == c.candidate.ref;
    assert c.candidate in ordered && v.candidate in ordered;
  }
}
