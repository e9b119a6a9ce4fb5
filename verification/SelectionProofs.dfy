/** What one selection guarantees: order independence, an exact eligible set, and a valid next state. */
module SelectionProofs {
  import opened Wrappers
  import opened Policies
  import opened Sorting
  import opened Finite
  import opened Selection

  ghost predicate DistinctRefs(values: seq<Ranked>) {
    forall i, j :: 0 <= i < j < |values| ==> values[i].Ref() != values[j].Ref()
  }

  ghost predicate DistinctCandidates(cs: seq<Candidate>) {
    forall i, j :: 0 <= i < j < |cs| ==> cs[i].ref != cs[j].ref
  }

  ghost predicate DistinctMembers(ms: seq<Member>) {
    forall i, j :: 0 <= i < j < |ms| ==> ms[i].connection != ms[j].connection
  }

  ghost predicate DistinctCooldowns(cs: seq<Cooldown>) {
    forall i, j :: 0 <= i < j < |cs| ==> cs[i].connection != cs[j].connection
  }

  ghost predicate Within(values: seq<Ranked>, all: seq<Ranked>) {
    forall v :: v in values ==> v in all
  }

  // ----- candidate order does not matter

  lemma {:induction false} KeyedCount(cs: seq<Candidate>, x: Keyed<Candidate>)
    ensures multiset(KeyedCandidates(cs))[x] == if x.key == x.value.ref.Order() then multiset(cs)[x.value] else 0
  {
    if cs == [] {
      assert KeyedCandidates(cs) == [];
    } else {
      var rest, last := cs[..|cs| - 1], cs[|cs| - 1];
      KeyedCount(rest, x);
      assert cs == rest + [last];
      assert KeyedCandidates(cs) == KeyedCandidates(rest) + [Keyed(last.ref.Order(), last)];
    }
  }

  lemma KeyedPermutes(a: seq<Candidate>, b: seq<Candidate>)
    requires multiset(a) == multiset(b)
    ensures multiset(KeyedCandidates(a)) == multiset(KeyedCandidates(b))
  {
    forall x
      ensures multiset(KeyedCandidates(a))[x] == multiset(KeyedCandidates(b))[x]
    {
      KeyedCount(a, x);
      KeyedCount(b, x);
    }
  }

  /** Sorting keeps each candidate with its own key. */
  lemma SortKeeps(cs: seq<Candidate>)
    ensures var s := Sort(KeyedCandidates(cs));
            && |s| == |cs|
            && (forall i :: 0 <= i < |s| ==> s[i].key == s[i].value.ref.Order())
            && (forall c :: c in Ordered(cs) <==> c in cs)
  {
    var k, s := KeyedCandidates(cs), Sort(KeyedCandidates(cs));
    SortPermutes(k);
    SameMembers(s, k);
    forall i | 0 <= i < |s|
      ensures s[i].key == s[i].value.ref.Order() && s[i].value in cs
    {
      assert s[i] in s;
      assert s[i] in multiset(s);
      assert s[i] in k;
    }
    forall c | c in cs
      ensures c in Ordered(cs)
    {
      var i :| 0 <= i < |cs| && cs[i] == c;
      assert k[i] in s;
      var j :| 0 <= j < |s| && s[j] == k[i];
      assert Ordered(cs)[j] == c;
    }
  }

  lemma OrderInjective(a: Ref, b: Ref)
    ensures a.Order() == b.Order() <==> a == b
  {
  }

  /** The duplicate check sees duplicates wherever they were in the input. */
  lemma DuplicateIff(cs: seq<Candidate>)
    ensures !AdjacentDuplicate(Ordered(cs)) <==> DistinctKeys(Sort(KeyedCandidates(cs)))
    ensures !AdjacentDuplicate(Ordered(cs)) ==> DistinctCandidates(Ordered(cs))
  {
    var s := Sort(KeyedCandidates(cs));
    SortKeeps(cs);
    SortSorted(KeyedCandidates(cs));
    AdjacentDuplicates(s);
    forall i | 0 < i < |s|
      ensures s[i - 1].key == s[i].key <==> Ordered(cs)[i - 1].ref == Ordered(cs)[i].ref
    {
      OrderInjective(s[i - 1].value.ref, s[i].value.ref);
    }
  }

  lemma OrderedCanonical(a: seq<Candidate>, b: seq<Candidate>)
    requires multiset(a) == multiset(b)
    ensures AdjacentDuplicate(Ordered(a)) <==> AdjacentDuplicate(Ordered(b))
    ensures !AdjacentDuplicate(Ordered(a)) ==> Ordered(a) == Ordered(b)
  {
    var ka, kb := KeyedCandidates(a), KeyedCandidates(b);
    KeyedPermutes(a, b);
    SortPermutes(ka);
    SortPermutes(kb);
    DuplicateIff(a);
    DuplicateIff(b);
    if DistinctKeys(Sort(ka)) {
      DistinctPermutes(Sort(ka), ka);
      DistinctPermutes(Sort(ka), Sort(kb));
      SortCanonical(ka, kb);
    }
    if DistinctKeys(Sort(kb)) {
      DistinctPermutes(Sort(kb), Sort(ka));
    }
  }

  /** Select does not depend on the order of its candidates. */
  lemma SelectIgnoresOrder(scope: string, context: Context, policy: Policy, a: seq<Candidate>, b: seq<Candidate>,
                           previous: Option<State>, now: nat, wilson: (int, int) -> Ppm)
    requires multiset(a) == multiset(b)
    ensures Select(scope, context, policy, a, previous, now, wilson) == Select(scope, context, policy, b, previous, now, wilson)
  {
    OrderedCanonical(a, b);
  }

  // ----- the ranking

  lemma {:induction false} RankableDistinct(ordered: seq<Candidate>, env: Env)
    requires DistinctCandidates(ordered)
    ensures DistinctRefs(Rankable(ordered, env))
    ensures |Rankable(ordered, env)| <= |ordered|
  {
    if ordered == [] {
    } else {
      RankableDistinct(ordered[1..], env);
      forall v | v in Rankable(ordered[1..], env)
        ensures v.Ref() != ordered[0].ref
      {
        assert v.candidate in ordered[1..];
      }
    }
  }

  /** Sorting a ranking keeps its entries and makes its order keys ascend. */
  lemma SortRankedSpec(values: seq<Ranked>, strategy: Strategy)
    requires DistinctRefs(values)
    ensures var r := SortRanked(values, strategy);
            && DistinctRefs(r)
            && (forall v :: v in r <==> v in values)
            && (forall i, j :: 0 <= i < j < |r| ==> Below(r[i].Order(strategy), r[j].Order(strategy)))
  {
    var k, s := KeyedBy(values, strategy), Sort(KeyedBy(values, strategy));
    var r := SortRanked(values, strategy);
    SortPermutes(k);
    SameMembers(s, k);
    SortCanonical(k, k);
    forall i | 0 <= i < |s|
      ensures s[i].key == r[i].Order(strategy) && r[i] in values
    {
      assert s[i] in k;
    }
    forall v | v in values
      ensures v in r
    {
      var i :| 0 <= i < |values| && values[i] == v;
      assert k[i] in s;
      var j :| 0 <= j < |s| && s[j] == k[i];
      assert r[j] == v;
    }
    forall i, j | 0 <= i < j < |r|
      ensures Below(r[i].Order(strategy), r[j].Order(strategy)) && r[i].Ref() != r[j].Ref()
    {
      assert Below(s[i].key, s[j].key);
      BelowTotal(s[i].key, s[j].key);
      DistinctEntries(values, r[i], r[j]);
    }
  }

  lemma DistinctEntries(values: seq<Ranked>, a: Ranked, b: Ranked)
    requires DistinctRefs(values) && a in values && b in values && a != b
    ensures a.Ref() != b.Ref()
  {
    var i :| 0 <= i < |values| && values[i] == a;
    var j :| 0 <= j < |values| && values[j] == b;
  }

  lemma FindDistinct(values: seq<Ranked>, v: Ranked)
    requires DistinctRefs(values) && v in values
    ensures FindRanked(values, v.Ref()) == Some(v)
  {
    var f := FindRanked(values, v.Ref());
    if f.Some? && f.value != v {
      DistinctEntries(values, f.value, v);
    }
  }

  // ----- the chosen set

  lemma {:induction false} RetainSpec(members: seq<Member>, ranked: seq<Ranked>)
    requires DistinctMembers(members)
    ensures var r := Retain(members, ranked);
            && DistinctRefs(r) && Within(r, ranked) && |r| <= |members|
            && forall v :: v in r ==> exists m :: m in members && m.connection == v.Ref()
  {
    if members == [] {
    } else {
      RetainSpec(members[1..], ranked);
      forall v | v in Retain(members[1..], ranked)
        ensures v.Ref() != members[0].connection
      {
        var m :| m in members[1..] && m.connection == v.Ref();
        var i :| 0 <= i < |members[1..]| && members[1..][i] == m;
        assert members[i + 1] == m;
      }
    }
  }

  /** Filling keeps what was there, adds only ranked entries and stops at TopN or when all are in. */
  lemma {:induction false} FillSpec(selected: seq<Ranked>, ranked: seq<Ranked>, topN: int)
    requires DistinctRefs(selected) && |selected| <= topN
    ensures var r := Fill(selected, ranked, topN);
            && DistinctRefs(r) && selected <= r && |r| <= topN
            && (forall v :: v in r ==> v in selected || v in ranked)
            && (|r| == topN || forall v :: v in ranked ==> Contains(r, v.Ref()))
    decreases |ranked|
  {
    if ranked == [] {
    } else {
      var next := if |selected| >= topN || Contains(selected, ranked[0].Ref()) then selected else selected + [ranked[0]];
      if !Contains(selected, ranked[0].Ref()) {
        assert forall v :: v in selected ==> v.Ref() != ranked[0].Ref();
      }
      FillSpec(next, ranked[1..], topN);
      var r := Fill(selected, ranked, topN);
      if |r| < topN {
        FirstStays(next, r, ranked[0]);
      }
    }
  }

  lemma FirstStays(next: seq<Ranked>, r: seq<Ranked>, v: Ranked)
    requires next <= r && Contains(next, v.Ref())
    ensures Contains(r, v.Ref())
  {
    var f := FindRanked(next, v.Ref()).value;
    var i :| 0 <= i < |next| && next[i] == f;
    assert r[i] == f;
    assert f in r;
  }

  lemma OptimizeStepKeeps(selected: seq<Ranked>, c: Ranked, all: seq<Ranked>, members: seq<Member>, policy: Policy, now: nat)
    requires DistinctRefs(selected) && Within(selected, all) && c in all
    ensures var r := OptimizeStep(selected, c, members, policy, now); DistinctRefs(r) && Within(r, all)
  {
    if !Contains(selected, c.Ref()) {
      assert forall i :: 0 <= i < |selected| ==> selected[i] in selected && selected[i].Ref() != c.Ref();
    }
  }

  lemma {:induction false} OptimizeKeeps(selected: seq<Ranked>, ranked: seq<Ranked>, all: seq<Ranked>, members: seq<Member>, policy: Policy, now: nat)
    requires DistinctRefs(selected) && Within(selected, all) && Within(ranked, all)
    ensures var r := Optimize(selected, ranked, members, policy, now); DistinctRefs(r) && Within(r, all)
    decreases |ranked|
  {
    if ranked == [] {
    } else {
      OptimizeStepKeeps(selected, ranked[0], all, members, policy, now);
      OptimizeKeeps(OptimizeStep(selected, ranked[0], members, policy, now), ranked[1..], all, members, policy, now);
    }
  }

  lemma DistinctRefsSet(values: seq<Ranked>)
    requires DistinctRefs(values)
    ensures NoDup(Refs(values)) && |ToSet(Refs(values))| == |values|
  {
    ToSetSize(Refs(values));
  }

  /** A duplicate-free part of a ranking is no longer than the ranking. */
  lemma WithinSize(values: seq<Ranked>, all: seq<Ranked>)
    requires DistinctRefs(values) && DistinctRefs(all) && Within(values, all)
    ensures |values| <= |all|
    ensures (forall v :: v in all ==> Contains(values, v.Ref())) ==> |values| == |all|
  {
    DistinctRefsSet(values);
    DistinctRefsSet(all);
    RefsSubset(values, all);
    SubsetSize(ToSet(Refs(values)), ToSet(Refs(all)));
    if forall v :: v in all ==> Contains(values, v.Ref()) {
      forall ref | ref in ToSet(Refs(all))
        ensures ref in ToSet(Refs(values))
      {
        var i :| 0 <= i < |all| && all[i].Ref() == ref;
        assert all[i] in all;
        var f := FindRanked(values, ref).value;
        var j :| 0 <= j < |values| && values[j] == f;
        assert Refs(values)[j] == ref;
      }
      SubsetSize(ToSet(Refs(all)), ToSet(Refs(values)));
    }
  }

  lemma RefsSubset(values: seq<Ranked>, all: seq<Ranked>)
    requires Within(values, all)
    ensures ToSet(Refs(values)) <= ToSet(Refs(all))
  {
    forall ref | ref in ToSet(Refs(values))
      ensures ref in ToSet(Refs(all))
    {
      var i :| 0 <= i < |values| && values[i].Ref() == ref;
      assert values[i] in all;
      var j :| 0 <= j < |all| && all[j] == values[i];
      assert Refs(all)[j] == ref;
    }
  }

  /** The members that stay before filling: distinct, ranked, at most TopN. */
  function Base(ranked: seq<Ranked>, usable: bool, env: Env): seq<Ranked>
    requires env.policy.Valid()
  {
    var retained := if env.policy.strategy == Adaptive && usable then Retain(env.members, ranked) else [];
    if |retained| > env.policy.topN then SortRanked(retained, Adaptive)[..env.policy.topN] else retained
  }

  lemma BaseSpec(ranked: seq<Ranked>, usable: bool, env: Env)
    requires env.policy.Valid() && DistinctMembers(env.members)
    ensures var b := Base(ranked, usable, env); DistinctRefs(b) && Within(b, ranked) && |b| <= env.policy.topN
  {
    var retained := if env.policy.strategy == Adaptive && usable then Retain(env.members, ranked) else [];
    RetainSpec(env.members, ranked);
    if |retained| > env.policy.topN {
      SortRankedSpec(retained, Adaptive);
      TakeSpec(SortRanked(retained, Adaptive), ranked, env.policy.topN);
    }
  }

  lemma TakeSpec(values: seq<Ranked>, all: seq<Ranked>, n: nat)
    requires DistinctRefs(values) && Within(values, all) && n <= |values|
    ensures DistinctRefs(values[..n]) && Within(values[..n], all)
  {
  }

  /** The chosen entries are distinct, eligible, and exactly min(TopN, eligible) many. */
  lemma ChooseSpec(ranked: seq<Ranked>, usable: bool, env: Env)
    requires env.policy.Valid() && DistinctMembers(env.members) && DistinctRefs(ranked)
    ensures var c := Choose(ranked, usable, env);
            && DistinctRefs(c) && Within(c, ranked)
            && |c| == if env.policy.topN < |ranked| then env.policy.topN else |ranked|
  {
    var base := Base(ranked, usable, env);
    BaseSpec(ranked, usable, env);
    var filled := Fill(base, ranked, env.policy.topN);
    FillSpec(base, ranked, env.policy.topN);
    WithinSize(filled, ranked);
    OptimizeKeeps(filled, ranked, ranked, env.members, env.policy, env.now);
  }

  // ----- the next state

  ghost predicate Timely(s: State) {
    forall m :: m in s.members ==> m.selectedAt <= s.evaluatedAt
  }

  /** The previous state, as far as an evaluation uses it, is valid and timely. */
  ghost predicate GoodEnv(env: Env) {
    && env.policy.Valid() && env.now != 0
    && DistinctMembers(env.members) && DistinctCooldowns(env.cooldowns)
    && (forall m :: m in env.members ==> m.selectedAt <= env.now)
    && (forall c :: c in env.cooldowns ==> c.until != 0 && c.connection.revision != "")
    && (forall m :: m in env.members ==> m.connection.revision != "")
  }

  lemma GoodEnvOf(previous: Option<State>, scope: string, context: Context, policy: Policy, now: nat, wilson: (int, int) -> Ppm)
    requires policy.Valid() && now != 0
    requires Usable(previous, scope, context, policy) ==>
               previous.value.Valid() && Timely(previous.value) && previous.value.evaluatedAt <= now
    ensures GoodEnv(EnvOf(previous, scope, context, policy, now, wilson))
  {
    if Usable(previous, scope, context, policy) {
      var p := previous.value;
      forall c | c in p.cooldowns
        ensures c.until != 0 && c.connection.revision != ""
      {
        var i :| 0 <= i < |p.cooldowns| && p.cooldowns[i] == c;
      }
      forall m | m in p.members
        ensures m.connection.revision != ""
      {
        var i :| 0 <= i < |p.members| && p.members[i] == m;
      }
    }
  }

  lemma {:induction false} KeepDistinct(cooldowns: seq<Cooldown>, ordered: seq<Candidate>, ranked: seq<Ranked>, env: Env)
    requires DistinctCooldowns(cooldowns)
    ensures DistinctCooldowns(KeepCooldowns(cooldowns, ordered, ranked, env))
  {
    if cooldowns == [] {
    } else {
      KeepDistinct(cooldowns[1..], ordered, ranked, env);
      forall c | c in KeepCooldowns(cooldowns[1..], ordered, ranked, env)
        ensures c.connection != cooldowns[0].connection
      {
        assert c in cooldowns[1..];
        var i :| 0 <= i < |cooldowns[1..]| && cooldowns[1..][i] == c;
        assert cooldowns[i + 1] == c;
      }
    }
  }

  /** One entry per connection: the given one for its own, the old ones for all others. */
  lemma {:induction false} UpsertSpec(cooldowns: seq<Cooldown>, value: Cooldown)
    requires DistinctCooldowns(cooldowns)
    ensures var r := Upsert(cooldowns, value);
            && DistinctCooldowns(r)
            && forall c :: c in r <==> c == value || (c in cooldowns && c.connection != value.connection)
  {
    if cooldowns == [] {
    } else {
      assert forall c :: c in cooldowns <==> c == cooldowns[0] || c in cooldowns[1..];
      forall c | c in cooldowns[1..]
        ensures c.connection != cooldowns[0].connection
      {
        var i :| 0 <= i < |cooldowns[1..]| && cooldowns[1..][i] == c;
        assert cooldowns[i + 1] == c;
      }
      if cooldowns[0].connection != value.connection {
        UpsertSpec(cooldowns[1..], value);
      }
    }
  }

  /** After punishing, exactly the lost and failing members carry a new cooldown; all other entries stay. */
  lemma {:induction false} PunishSpec(cooldowns: seq<Cooldown>, members: seq<Member>, explanations: seq<Explanation>, ranked: seq<Ranked>, env: Env)
    requires env.policy.Valid() && DistinctCooldowns(cooldowns)
    ensures var r := Punish(cooldowns, members, explanations, ranked, env);
            && DistinctCooldowns(r)
            && (forall c :: c in r ==> c in cooldowns || IsPunishment(c, members, explanations, ranked, env))
            && (forall c :: c in cooldowns && !Punishable(c.connection, members, explanations, ranked) ==> c in r)
            && (forall ref :: Punishable(ref, members, explanations, ranked) ==> Cooldown(ref, env.now + env.policy.cooldown) in r)
    decreases |members|
  {
    if members == [] {
    } else {
      var ref := members[0].connection;
      var value := Cooldown(ref, env.now + env.policy.cooldown);
      var next := PunishOne(cooldowns, ref, explanations, ranked, env);
      UpsertSpec(cooldowns, value);
      PunishSpec(next, members[1..], explanations, ranked, env);
      PunishHead(cooldowns, members, explanations, ranked, env, next);
    }
  }

  ghost predicate Punishable(ref: Ref, members: seq<Member>, explanations: seq<Explanation>, ranked: seq<Ranked>) {
    && FindRanked(ranked, ref).None? && Punished(explanations, ref)
    && exists m :: m in members && m.connection == ref
  }

  ghost predicate IsPunishment(c: Cooldown, members: seq<Member>, explanations: seq<Explanation>, ranked: seq<Ranked>, env: Env) {
    Punishable(c.connection, members, explanations, ranked) && c.until == env.now + env.policy.cooldown
  }

  lemma PunishHead(cooldowns: seq<Cooldown>, members: seq<Member>, explanations: seq<Explanation>, ranked: seq<Ranked>, env: Env, next: seq<Cooldown>)
    requires env.policy.Valid() && DistinctCooldowns(cooldowns) && members != []
    requires next == PunishOne(cooldowns, members[0].connection, explanations, ranked, env)
    requires var r := Punish(next, members[1..], explanations, ranked, env);
             && (forall c :: c in r ==> c in next || IsPunishment(c, members[1..], explanations, ranked, env))
             && (forall c :: c in next && !Punishable(c.connection, members[1..], explanations, ranked) ==> c in r)
             && (forall ref :: Punishable(ref, members[1..], explanations, ranked) ==> Cooldown(ref, env.now + env.policy.cooldown) in r)
    ensures var r := Punish(next, members[1..], explanations, ranked, env);
            && (forall c :: c in r ==> c in cooldowns || IsPunishment(c, members, explanations, ranked, env))
            && (forall c :: c in cooldowns && !Punishable(c.connection, members, explanations, ranked) ==> c in r)
            && (forall ref :: Punishable(ref, members, explanations, ranked) ==> Cooldown(ref, env.now + env.policy.cooldown) in r)
  {
    var head := members[0].connection;
    var value := Cooldown(head, env.now + env.policy.cooldown);
    UpsertSpec(cooldowns, value);
    PunishableSplits(members, explanations, ranked);
  }

  lemma PunishableSplits(members: seq<Member>, explanations: seq<Explanation>, ranked: seq<Ranked>)
    requires members != []
    ensures forall ref :: Punishable(ref, members[1..], explanations, ranked) ==> Punishable(ref, members, explanations, ranked)
    ensures forall ref :: Punishable(ref, members, explanations, ranked) && ref != members[0].connection ==>
                            Punishable(ref, members[1..], explanations, ranked)
    ensures forall ref :: ref == members[0].connection && FindRanked(ranked, ref).None? && Punished(explanations, ref) ==>
                            Punishable(ref, members, explanations, ranked)
  {
    assert forall m :: m in members <==> m == members[0] || m in members[1..];
    assert members[0] in members;
  }

  // ----- one whole selection

  /** What is known of the ranking of a successful selection. */
  ghost predicate GoodRanking(ordered: seq<Candidate>, ranked: seq<Ranked>, env: Env) {
    && DistinctCandidates(ordered)
    && DistinctRefs(ranked)
    && ranked == SortRanked(Rankable(ordered, env), env.policy.strategy)
    && (forall v :: v in ranked <==> v.candidate in ordered && v.explanation == Evaluate(v.candidate, env) && v.explanation.reason == Eligible)
  }

  lemma RankingIsGood(ordered: seq<Candidate>, env: Env)
    requires DistinctCandidates(ordered)
    ensures GoodRanking(ordered, SortRanked(Rankable(ordered, env), env.policy.strategy), env)
  {
    RankableDistinct(ordered, env);
    SortRankedSpec(Rankable(ordered, env), env.policy.strategy);
  }

  /** The connections eligible in this evaluation. */
  ghost function EligibleRefs(candidates: seq<Candidate>, env: Env): set<Ref> {
    set c | c in candidates && Evaluate(c, env).reason == Eligible :: c.ref
  }

  lemma RankedAreEligible(ordered: seq<Candidate>, ranked: seq<Ranked>, env: Env)
    requires GoodRanking(ordered, ranked, env)
    ensures ToSet(Refs(ranked)) == EligibleRefs(ordered, env) && |ranked| == |EligibleRefs(ordered, env)|
  {
    forall ref | ref in EligibleRefs(ordered, env)
      ensures ref in ToSet(Refs(ranked))
    {
      var c :| c in ordered && Evaluate(c, env).reason == Eligible && c.ref == ref;
      var v := Ranked(c, Evaluate(c, env));
      assert v in ranked;
      var i :| 0 <= i < |ranked| && ranked[i] == v;
      assert Refs(ranked)[i] == ref;
    }
    forall ref | ref in ToSet(Refs(ranked))
      ensures ref in EligibleRefs(ordered, env)
    {
      var i :| 0 <= i < |ranked| && ranked[i].Ref() == ref;
      assert ranked[i] in ranked;
    }
    DistinctRefsSet(ranked);
  }

  /** Exactly min(TopN, eligible) distinct eligible connections are selected. */
  lemma SelectsExactly(scope: string, context: Context, policy: Policy, candidates: seq<Candidate>, previous: Option<State>,
                       now: nat, wilson: (int, int) -> Ppm, d: Decision)
    requires Select(scope, context, policy, candidates, previous, now, wilson) == Ok(d)
    requires Usable(previous, scope, context, policy) ==> DistinctMembers(previous.value.members)
    ensures var eligible := EligibleRefs(candidates, EnvOf(previous, scope, context, policy, now, wilson));
            && NoDup(d.selected) && ToSet(d.selected) <= eligible
            && |d.selected| == (if policy.topN < |eligible| then policy.topN else |eligible|)
            && d.eligible == |eligible| && (d.degraded <==> |eligible| < policy.topN)
  {
    var env := EnvOf(previous, scope, context, policy, now, wilson);
    var ordered := Ordered(candidates);
    var ranked := SortRanked(Rankable(ordered, env), policy.strategy);
    var chosen := Choose(ranked, Usable(previous, scope, context, policy), env);
    DuplicateIff(candidates);
    SortKeeps(candidates);
    RankingIsGood(ordered, env);
    RankedAreEligible(ordered, ranked, env);
    assert EligibleRefs(ordered, env) == EligibleRefs(candidates, env);
    ChooseSpec(ranked, Usable(previous, scope, context, policy), env);
    RefsSubset(chosen, ranked);
    DistinctRefsSet(chosen);
  }

  lemma FindCooldownDistinct(cooldowns: seq<Cooldown>, c: Cooldown)
    requires DistinctCooldowns(cooldowns) && c in cooldowns
    ensures FindCooldown(cooldowns, c.connection) == Some(c)
  {
    var f := FindCooldown(cooldowns, c.connection).value;
    var i :| 0 <= i < |cooldowns| && cooldowns[i] == c;
    var j :| 0 <= j < |cooldowns| && cooldowns[j] == f;
  }

  /** An eligible entry's own cooldown, if any, is over and recovered from. */
  lemma EligibleIsReleased(ordered: seq<Candidate>, ranked: seq<Ranked>, env: Env, v: Ranked, c: Cooldown)
    requires GoodRanking(ordered, ranked, env) && DistinctCooldowns(env.cooldowns)
    requires v in ranked && c in env.cooldowns && c.connection == v.Ref()
    ensures Released(c, ranked, env)
  {
    FindDistinct(ranked, v);
    FindCooldownDistinct(env.cooldowns, c);
  }

  /** No selected connection is in cooldown afterwards. */
  lemma NextDisjoint(ordered: seq<Candidate>, ranked: seq<Ranked>, usable: bool, env: Env, v: Ranked, c: Cooldown)
    requires GoodRanking(ordered, ranked, env) && GoodEnv(env)
    requires v in ranked && c in NextCooldowns(ordered, ranked, usable, env)
    ensures c.connection != v.Ref()
  {
    var kept := KeepCooldowns(env.cooldowns, ordered, ranked, env);
    KeepDistinct(env.cooldowns, ordered, ranked, env);
    PunishSpec(kept, env.members, Explain(ordered, env), ranked, env);
    FindDistinct(ranked, v);
    if c in kept && c.connection == v.Ref() {
      EligibleIsReleased(ordered, ranked, env, v, c);
    }
  }

  lemma NextCooldownsValid(ordered: seq<Candidate>, ranked: seq<Ranked>, usable: bool, env: Env)
    requires GoodEnv(env)
    ensures var r := NextCooldowns(ordered, ranked, usable, env);
            DistinctCooldowns(r) && forall c :: c in r ==> c.until != 0 && c.connection.revision != ""
  {
    var kept := KeepCooldowns(env.cooldowns, ordered, ranked, env);
    KeepDistinct(env.cooldowns, ordered, ranked, env);
    PunishSpec(kept, env.members, Explain(ordered, env), ranked, env);
  }

  lemma NextMembersValid(chosen: seq<Ranked>, ordered: seq<Candidate>, env: Env)
    requires GoodEnv(env) && DistinctRefs(chosen)
    requires forall v :: v in chosen ==> v.candidate in ordered
    requires forall c :: c in ordered ==> c.ref.Valid()
    ensures var r := NextMembers(chosen, env.members, env.now);
            && (forall i :: 0 <= i < |r| ==> 0 < r[i].selectedAt <= env.now && r[i].connection.Valid())
            && (forall i, j :: 0 <= i < j < |r| ==> r[i].connection != r[j].connection)
  {
    forall i | 0 <= i < |chosen|
      ensures chosen[i].Ref().Valid() && 0 < Since(env.members, chosen[i].Ref(), env.now) <= env.now
    {
      assert chosen[i] in chosen;
      var since := FindMember(env.members, chosen[i].Ref());
      if since.Some? {
        var m :| m in env.members && m.connection == chosen[i].Ref() && m.selectedAt == since.value;
      }
    }
  }

  ghost predicate Disjoint(s: State) {
    forall m, c :: m in s.members && c in s.cooldowns ==> m.connection != c.connection
  }

  /** The next state names what it was made for, and never goes back in time. */
  lemma SelectNames(scope: string, context: Context, policy: Policy, candidates: seq<Candidate>, previous: Option<State>,
                    now: nat, wilson: (int, int) -> Ppm, d: Decision)
    requires Select(scope, context, policy, candidates, previous, now, wilson) == Ok(d)
    ensures d.next.scope == scope && d.next.context == context && d.next.policy == policy && d.next.evaluatedAt == now
    ensures policy.Valid() && now != 0
    ensures Usable(previous, scope, context, policy) ==> previous.value.evaluatedAt <= now
  {
  }

  /** A successful selection from a usable state, taken apart. */
  lemma SelectShape(scope: string, context: Context, policy: Policy, candidates: seq<Candidate>, previous: Option<State>,
                    now: nat, wilson: (int, int) -> Ppm, d: Decision)
    requires Select(scope, context, policy, candidates, previous, now, wilson) == Ok(d) && Usable(previous, scope, context, policy)
    ensures policy.Valid()
    ensures var env, ordered := EnvOf(previous, scope, context, policy, now, wilson), Ordered(candidates);
            var ranked := SortRanked(Rankable(ordered, env), policy.strategy);
            && d.selected == Refs(Choose(ranked, true, env))
            && d.explanations == Explain(ordered, env)
            && d.next.members == NextMembers(Choose(ranked, true, env), env.members, env.now)
            && d.next.cooldowns == NextCooldowns(ordered, ranked, true, env)
            && (d.changed <==> !SameConnections(env.members, d.next.members))
  {
  }

  lemma MembersApart(ordered: seq<Candidate>, ranked: seq<Ranked>, usable: bool, env: Env)
    requires GoodEnv(env) && GoodRanking(ordered, ranked, env)
    ensures forall m, c ::
              m in NextMembers(Choose(ranked, usable, env), env.members, env.now) && c in NextCooldowns(ordered, ranked, usable, env) ==>
                m.connection != c.connection
  {
    var chosen := Choose(ranked, usable, env);
    ChooseSpec(ranked, usable, env);
    forall m, c | m in NextMembers(chosen, env.members, env.now) && c in NextCooldowns(ordered, ranked, usable, env)
      ensures m.connection != c.connection
    {
      var i :| 0 <= i < |chosen| && NextMembers(chosen, env.members, env.now)[i] == m;
      assert chosen[i] in chosen;
      NextDisjoint(ordered, ranked, usable, env, chosen[i], c);
    }
  }

  /**
   From no state, another context's state or a valid state, a successful selection yields a state that again
   validates, was evaluated now, has no member selected later than that and no member in cooldown.
   */
  lemma NextIsValid(scope: string, context: Context, policy: Policy, candidates: seq<Candidate>, previous: Option<State>,
                    now: nat, wilson: (int, int) -> Ppm, d: Decision)
    requires Select(scope, context, policy, candidates, previous, now, wilson) == Ok(d)
    requires context.Valid()
    requires Usable(previous, scope, context, policy) ==> previous.value.Valid() && Timely(previous.value)
    ensures d.next.Valid() && Timely(d.next) && Disjoint(d.next) && d.next.evaluatedAt == now
    ensures |d.next.members| <= policy.topN
  {
    var env := EnvOf(previous, scope, context, policy, now, wilson);
    var usable := Usable(previous, scope, context, policy);
    var ordered := Ordered(candidates);
    var ranked := SortRanked(Rankable(ordered, env), policy.strategy);
    var chosen := Choose(ranked, usable, env);
    GoodEnvOf(previous, scope, context, policy, now, wilson);
    DuplicateIff(candidates);
    RankingIsGood(ordered, env);
    ChooseSpec(ranked, usable, env);
    NextMembersValid(chosen, ordered, env);
    NextCooldownsValid(ordered, ranked, usable, env);
    MembersApart(ordered, ranked, usable, env);
    ValidFrom(d.next);
  }

  lemma ValidFrom(s: State)
    requires SafeScope(s.scope) && s.context.Valid() && s.evaluatedAt != 0
    requires forall i :: 0 <= i < |s.members| ==> s.members[i].selectedAt > 0 && s.members[i].connection.Valid()
    requires DistinctMembers(s.members) && DistinctCooldowns(s.cooldowns)
    requires forall c :: c in s.cooldowns ==> c.until != 0 && c.connection.revision != ""
    ensures s.Valid()
  {
  }
}
