/** What holds over every selection run: valid disjoint states, cooldowns that last, and finitely many changes. */
module ReplayProofs {
  import opened Wrappers
  import opened Policies
  import opened Sorting
  import opened Finite
  import opened Selection
  import opened SelectionProofs
  import opened SelectionHysteresis
  import opened Replay

  function Before(ds: seq<Decision>, i: nat): Option<State>
    requires i <= |ds|
  {
    if i == 0 then None else Some(ds[i - 1].next)
  }

  ghost predicate Step(s: Scenario, ds: seq<Decision>, i: nat, wilson: (int, int) -> Ppm)
    requires i < |ds| == |s.frames|
  {
    Select(s.scope, s.context, s.policy, s.frames[i].candidates, Before(ds, i), s.frames[i].at, wilson) == Ok(ds[i])
  }

  /** ds are the decisions of a run over the scenario's frames. */
  ghost predicate Replayed(s: Scenario, ds: seq<Decision>, wilson: (int, int) -> Ppm) {
    |ds| == |s.frames| && forall i :: 0 <= i < |ds| ==> Step(s, ds, i, wilson)
  }

  function EnvAt(s: Scenario, ds: seq<Decision>, i: nat, wilson: (int, int) -> Ppm): Env
    requires i < |ds| == |s.frames|
  {
    EnvOf(Before(ds, i), s.scope, s.context, s.policy, s.frames[i].at, wilson)
  }

  /** Which decisions one frame may yield from a state. */
  ghost function Chooses(s: Scenario, wilson: (int, int) -> Ppm): (Frame, Option<State>, Decision) -> bool {
    (f: Frame, p: Option<State>, d: Decision) => Select(s.scope, s.context, s.policy, f.candidates, p, f.at, wilson) == Ok(d)
  }

  /** Each decision is one that its frame may yield from the state before it. */
  ghost predicate Chained(allows: (Frame, Option<State>, Decision) -> bool, frames: seq<Frame>, state: Option<State>, ds: seq<Decision>)
    decreases |frames|
  {
    && |ds| == |frames|
    && (frames == [] || (allows(frames[0], state, ds[0]) && Chained(allows, frames[1..], Some(ds[0].next), ds[1..])))
  }

  lemma {:induction false} DecisionsChained(s: Scenario, frames: seq<Frame>, state: Option<State>, wilson: (int, int) -> Ppm)
    requires Decisions(s, frames, state, wilson).Ok?
    ensures Chained(Chooses(s, wilson), frames, state, Decisions(s, frames, state, wilson).value)
    decreases |frames|
  {
    if frames == [] {
    } else {
      var ds := Decisions(s, frames, state, wilson).value;
      DecisionsChained(s, frames[1..], Some(ds[0].next), wilson);
      assert ds[1..] == Decisions(s, frames[1..], Some(ds[0].next), wilson).value;
    }
  }

  lemma {:induction false} ChainedAt(allows: (Frame, Option<State>, Decision) -> bool, frames: seq<Frame>, state: Option<State>, ds: seq<Decision>, i: nat)
    requires Chained(allows, frames, state, ds) && i < |frames|
    ensures allows(frames[i], if i == 0 then state else Some(ds[i - 1].next), ds[i])
    decreases i
  {
    if i == 0 {
    } else {
      ChainedAt(allows, frames[1..], Some(ds[0].next), ds[1..], i - 1);
      assert frames[1..][i - 1] == frames[i] && ds[1..][i - 1] == ds[i];
      assert i > 1 ==> ds[1..][i - 2] == ds[i - 1];
    }
  }

  /** The fold that a comparison totals is a run in this sense. */
  lemma DecisionsReplay(s: Scenario, wilson: (int, int) -> Ppm)
    requires Decisions(s, s.frames, None, wilson).Ok?
    ensures Replayed(s, Decisions(s, s.frames, None, wilson).value, wilson)
  {
    var ds := Decisions(s, s.frames, None, wilson).value;
    DecisionsChained(s, s.frames, None, wilson);
    forall i | 0 <= i < |ds|
      ensures Step(s, ds, i, wilson)
    {
      ChainedAt(Chooses(s, wilson), s.frames, None, ds, i);
    }
  }

  ghost predicate GoodState(s: Scenario, state: State) {
    && state.Valid() && Timely(state) && Disjoint(state)
    && state.scope == s.scope && state.context == s.context && state.policy == s.policy
    && |state.members| <= s.policy.topN
  }

  /** One frame: a good state, or none, leads to a good state. */
  lemma FrameKeeps(s: Scenario, frame: Frame, p: Option<State>, wilson: (int, int) -> Ppm, d: Decision)
    requires Select(s.scope, s.context, s.policy, frame.candidates, p, frame.at, wilson) == Ok(d)
    requires s.context.Valid() && (p.Some? ==> GoodState(s, p.value))
    ensures GoodState(s, d.next) && d.next.evaluatedAt == frame.at
    ensures p.Some? ==> p.value.evaluatedAt <= frame.at
  {
    NextIsValid(s.scope, s.context, s.policy, frame.candidates, p, frame.at, wilson, d);
    SelectNames(s.scope, s.context, s.policy, frame.candidates, p, frame.at, wilson, d);
  }

  /** Every reachable state validates, keeps members and cooldowns disjoint and holds at most TopN members. */
  lemma {:induction false} ReplayInvariant(s: Scenario, ds: seq<Decision>, wilson: (int, int) -> Ppm, i: nat)
    requires Replayed(s, ds, wilson) && s.context.Valid() && i < |ds|
    ensures GoodState(s, ds[i].next) && ds[i].next.evaluatedAt == s.frames[i].at
    ensures i > 0 ==> s.frames[i - 1].at <= s.frames[i].at
    decreases i, 1
  {
    assert Step(s, ds, i, wilson);
    if i == 0 {
      FrameKeeps(s, s.frames[i], None, wilson, ds[i]);
    } else {
      PreviousIsGood(s, ds, wilson, i);
      FrameKeeps(s, s.frames[i], Some(ds[i - 1].next), wilson, ds[i]);
    }
  }

  /** The state a frame starts from, named from that frame. */
  lemma {:induction false} PreviousIsGood(s: Scenario, ds: seq<Decision>, wilson: (int, int) -> Ppm, i: nat)
    requires Replayed(s, ds, wilson) && s.context.Valid() && 0 < i < |ds|
    ensures GoodState(s, ds[i - 1].next) && ds[i - 1].next.evaluatedAt == s.frames[i - 1].at
    decreases i, 0
  {
    ReplayInvariant(s, ds, wilson, i - 1);
  }

  function RankedAt(s: Scenario, ds: seq<Decision>, i: nat, wilson: (int, int) -> Ppm): seq<Ranked>
    requires i < |ds| == |s.frames|
  {
    SortRanked(Rankable(Ordered(s.frames[i].candidates), EnvAt(s, ds, i, wilson)), s.policy.strategy)
  }

  /** A run that reached frame i has an admitted policy and a proper evaluation time there. */
  lemma StepFacts(s: Scenario, ds: seq<Decision>, wilson: (int, int) -> Ppm, i: nat)
    requires Replayed(s, ds, wilson) && i < |ds|
    ensures s.policy.Valid() && s.frames[i].at != 0
  {
    assert Step(s, ds, i, wilson);
  }

  /** The state a later frame of a run evaluates from. */
  lemma StepEnv(s: Scenario, ds: seq<Decision>, wilson: (int, int) -> Ppm, i: nat)
    requires Replayed(s, ds, wilson) && s.context.Valid() && 0 < i < |ds|
    ensures var env := EnvAt(s, ds, i, wilson);
            && env == Env(s.context, s.policy, ds[i - 1].next.members, ds[i - 1].next.cooldowns, s.frames[i].at, wilson)
            && GoodEnv(env) && |env.members| <= env.policy.topN
            && (forall m, c :: m in env.members && c in env.cooldowns ==> m.connection != c.connection)
  {
    PreviousIsGood(s, ds, wilson, i);
    ReplayInvariant(s, ds, wilson, i);
    StepFacts(s, ds, wilson, i);
    GoodEnvOf(Before(ds, i), s.scope, s.context, s.policy, s.frames[i].at, wilson);
  }

  lemma StepRanking(s: Scenario, ds: seq<Decision>, wilson: (int, int) -> Ppm, i: nat)
    requires Replayed(s, ds, wilson) && i < |ds|
    ensures GoodRanking(Ordered(s.frames[i].candidates), RankedAt(s, ds, i, wilson), EnvAt(s, ds, i, wilson))
  {
    assert Step(s, ds, i, wilson);
    DuplicateIff(s.frames[i].candidates);
    RankingIsGood(Ordered(s.frames[i].candidates), EnvAt(s, ds, i, wilson));
  }

  /** The parts of a later decision of a run. */
  lemma StepShape(s: Scenario, ds: seq<Decision>, wilson: (int, int) -> Ppm, i: nat)
    requires Replayed(s, ds, wilson) && s.context.Valid() && 0 < i < |ds|
    ensures s.policy.Valid()
    ensures var env, ordered := EnvAt(s, ds, i, wilson), Ordered(s.frames[i].candidates);
            var ranked := RankedAt(s, ds, i, wilson);
            && ds[i].selected == Refs(Choose(ranked, true, env))
            && ds[i].explanations == Explain(ordered, env)
            && ds[i].next.members == NextMembers(Choose(ranked, true, env), env.members, env.now)
            && ds[i].next.cooldowns == NextCooldowns(ordered, ranked, true, env)
            && (ds[i].changed <==> !SameConnections(env.members, ds[i].next.members))
  {
    PreviousIsGood(s, ds, wilson, i);
    assert Step(s, ds, i, wilson);
    SelectShape(s.scope, s.context, s.policy, s.frames[i].candidates, Before(ds, i), s.frames[i].at, wilson, ds[i]);
  }

  lemma {:induction false} TimesAscend(s: Scenario, ds: seq<Decision>, wilson: (int, int) -> Ppm, i: nat, j: nat)
    requires Replayed(s, ds, wilson) && s.context.Valid() && i <= j < |ds|
    ensures s.frames[i].at <= s.frames[j].at
    decreases j - i
  {
    if i == j {
    } else {
      ReplayInvariant(s, ds, wilson, j);
      TimesAscend(s, ds, wilson, i, j - 1);
    }
  }

  /** Over a run: a member leaves only when ineligible, or past its residence and beaten by the margin. */
  lemma ReplayDeparture(s: Scenario, ds: seq<Decision>, wilson: (int, int) -> Ppm, i: nat, m: Member)
    requires Replayed(s, ds, wilson) && s.context.Valid() && s.policy.strategy == Adaptive && 0 < i < |ds|
    requires m in ds[i - 1].next.members && m.connection !in ds[i].selected
    ensures var env := EnvAt(s, ds, i, wilson);
            m.connection !in EligibleRefs(s.frames[i].candidates, env) ||
            (s.frames[i].at >= m.selectedAt + s.policy.residence &&
             exists c, x :: c in s.frames[i].candidates && x in s.frames[i].candidates && c.ref in ds[i].selected && x.ref == m.connection &&
                            ImprovesBy(Evaluate(c, env), Evaluate(x, env), s.policy.requiredImprovementPermille))
  {
    PreviousIsGood(s, ds, wilson, i);
    assert Step(s, ds, i, wilson);
    MemberLeavesOnlyBeaten(s.scope, s.context, s.policy, s.frames[i].candidates, ds[i - 1].next, s.frames[i].at, wilson, ds[i], m);
  }

  // ----- cooldowns last

  /** At frame i the member was judged failing or unreliable. */
  ghost predicate DroppedAt(s: Scenario, ds: seq<Decision>, i: nat, ref: Ref)
    requires 0 < i < |ds| == |s.frames|
  {
    && (exists m :: m in ds[i - 1].next.members && m.connection == ref)
    && exists e :: e in ds[i].explanations && e.ref == ref && (e.reason == FailureStreak || e.reason == Unreliable)
  }

  /** At frame i the cooldown is over and the connection succeeded often enough in a row. */
  ghost predicate RecoveredAt(s: Scenario, i: nat, ref: Ref, until: nat)
    requires i < |s.frames|
  {
    && s.frames[i].at >= until
    && exists c :: c in s.frames[i].candidates && c.ref == ref && c.evidence.Some? &&
                   c.evidence.value.consecutiveSuccesses >= s.policy.recoverySuccesses
  }

  /** Some frame after i, up to k, shows the recovery. */
  ghost predicate RecoveredWithin(s: Scenario, i: nat, k: nat, ref: Ref, until: nat)
    requires k < |s.frames|
  {
    exists j :: i < j <= k && RecoveredAt(s, j, ref, until)
  }

  lemma {:induction false} ReasonOfDistinct(es: seq<Explanation>, i: nat)
    requires i < |es| && forall j, k :: 0 <= j < k < |es| ==> es[j].ref != es[k].ref
    ensures ReasonOf(es, es[i].ref) == Some(es[i].reason)
  {
    if i == 0 {
    } else {
      ReasonOfDistinct(es[1..], i - 1);
    }
  }

  lemma ExplanationsDistinct(ordered: seq<Candidate>, env: Env, e: Explanation)
    requires DistinctCandidates(ordered) && e in Explain(ordered, env)
    ensures ReasonOf(Explain(ordered, env), e.ref) == Some(e.reason)
    ensures exists c :: c in ordered && c.ref == e.ref && e == Evaluate(c, env)
  {
    var es := Explain(ordered, env);
    var i :| 0 <= i < |es| && es[i] == e;
    ReasonOfDistinct(es, i);
    assert ordered[i] in ordered && e == Evaluate(ordered[i], env);
  }

  /** A failing explanation means the connection is not ranked. */
  lemma FailingNotRanked(ordered: seq<Candidate>, ranked: seq<Ranked>, env: Env, e: Explanation)
    requires GoodRanking(ordered, ranked, env) && e in Explain(ordered, env) && e.reason != Eligible
    ensures FindRanked(ranked, e.ref).None?
  {
    ExplanationsDistinct(ordered, env, e);
    var c :| c in ordered && c.ref == e.ref && e == Evaluate(c, env);
    forall v | v in ranked
      ensures v.Ref() != e.ref
    {
      if v.candidate != c {
        var i :| 0 <= i < |ordered| && ordered[i] == v.candidate;
        var j :| 0 <= j < |ordered| && ordered[j] == c;
      }
    }
  }

  /** A member dropped for its failures starts a cooldown and is not selected. */
  lemma DropStartsCooldown(s: Scenario, ds: seq<Decision>, wilson: (int, int) -> Ppm, i: nat, ref: Ref)
    requires Replayed(s, ds, wilson) && s.context.Valid() && s.policy.strategy == Adaptive && 0 < i < |ds|
    requires DroppedAt(s, ds, i, ref)
    ensures s.policy.Valid() && Cooldown(ref, s.frames[i].at + s.policy.cooldown) in ds[i].next.cooldowns
    ensures ref !in ds[i].selected
  {
    StepFacts(s, ds, wilson, i);
    var until := s.frames[i].at + s.policy.cooldown;
    assert Cooldown(ref, until) in ds[i].next.cooldowns && ref !in ds[i].selected by {
      StepEnv(s, ds, wilson, i);
      StepRanking(s, ds, wilson, i);
      StepShape(s, ds, wilson, i);
      DropEffects(Ordered(s.frames[i].candidates), RankedAt(s, ds, i, wilson), EnvAt(s, ds, i, wilson), ref, ds[i], until);
    }
  }

  lemma DropEffects(ordered: seq<Candidate>, ranked: seq<Ranked>, env: Env, ref: Ref, d: Decision, until: nat)
    requires GoodRanking(ordered, ranked, env) && GoodEnv(env) && env.policy.strategy == Adaptive
    requires until == env.now + env.policy.cooldown
    requires d.explanations == Explain(ordered, env) && d.selected == Refs(Choose(ranked, true, env))
    requires d.next.cooldowns == NextCooldowns(ordered, ranked, true, env)
    requires exists e :: e in d.explanations && e.ref == ref && (e.reason == FailureStreak || e.reason == Unreliable)
    requires exists m :: m in env.members && m.connection == ref
    ensures ref !in d.selected
    ensures Cooldown(ref, until) in d.next.cooldowns
  {
    var e :| e in d.explanations && e.ref == ref && (e.reason == FailureStreak || e.reason == Unreliable);
    assert Cooldown(e.ref, env.now + env.policy.cooldown) == Cooldown(ref, until);
    DropPunishes(ordered, ranked, env, e);
    NotRankedNotSelected(ranked, env, ref);
  }

  lemma DropPunishes(ordered: seq<Candidate>, ranked: seq<Ranked>, env: Env, e: Explanation)
    requires GoodRanking(ordered, ranked, env) && GoodEnv(env) && env.policy.strategy == Adaptive
    requires e in Explain(ordered, env) && (e.reason == FailureStreak || e.reason == Unreliable)
    requires exists m :: m in env.members && m.connection == e.ref
    ensures FindRanked(ranked, e.ref).None?
    ensures Cooldown(e.ref, env.now + env.policy.cooldown) in NextCooldowns(ordered, ranked, true, env)
  {
    FailingNotRanked(ordered, ranked, env, e);
    ExplanationsDistinct(ordered, env, e);
    KeepDistinct(env.cooldowns, ordered, ranked, env);
    PunishSpec(KeepCooldowns(env.cooldowns, ordered, ranked, env), env.members, Explain(ordered, env), ranked, env);
    assert Punishable(e.ref, env.members, Explain(ordered, env), ranked);
  }

  lemma NotRankedNotSelected(ranked: seq<Ranked>, env: Env, ref: Ref)
    requires env.policy.Valid() && DistinctMembers(env.members) && DistinctRefs(ranked) && FindRanked(ranked, ref).None?
    ensures ref !in Refs(Choose(ranked, true, env))
  {
    var chosen := Choose(ranked, true, env);
    ChooseSpec(ranked, true, env);
    forall i | 0 <= i < |chosen|
      ensures chosen[i].Ref() != ref
    {
      assert chosen[i] in chosen;
    }
  }

  /** While a connection is present, its cooldown stays until the frame at which it has recovered. */
  lemma CooldownStays(s: Scenario, ds: seq<Decision>, wilson: (int, int) -> Ppm, i: nat, c: Cooldown)
    requires Replayed(s, ds, wilson) && s.context.Valid() && 0 < i < |ds|
    requires c in ds[i - 1].next.cooldowns && Present(s.frames[i].candidates, c.connection)
    ensures c in ds[i].next.cooldowns || RecoveredAt(s, i, c.connection, c.until)
  {
    StepEnv(s, ds, wilson, i);
    StepRanking(s, ds, wilson, i);
    StepShape(s, ds, wilson, i);
    PreviousIsGood(s, ds, wilson, i);
    SortKeeps(s.frames[i].candidates);
    var env, ranked := EnvAt(s, ds, i, wilson), RankedAt(s, ds, i, wilson);
    if Released(c, ranked, env) {
      var v := FindRanked(ranked, c.connection).value;
      assert v.candidate in s.frames[i].candidates;
    } else {
      KeptUnpunished(Ordered(s.frames[i].candidates), ranked, env, c, true);
    }
  }

  lemma KeptUnpunished(ordered: seq<Candidate>, ranked: seq<Ranked>, env: Env, c: Cooldown, usable: bool)
    requires GoodEnv(env) && c in env.cooldowns && Present(ordered, c.connection) && !Released(c, ranked, env)
    requires forall m :: m in env.members ==> m.connection != c.connection
    ensures c in NextCooldowns(ordered, ranked, usable, env)
  {
    KeepDistinct(env.cooldowns, ordered, ranked, env);
    PunishSpec(KeepCooldowns(env.cooldowns, ordered, ranked, env), env.members, Explain(ordered, env), ranked, env);
  }

  /** A connection in cooldown afterwards is not selected. */
  lemma CoolingNotSelected(s: Scenario, ds: seq<Decision>, wilson: (int, int) -> Ppm, i: nat, c: Cooldown)
    requires Replayed(s, ds, wilson) && s.context.Valid() && i < |ds| && c in ds[i].next.cooldowns
    ensures c.connection !in ds[i].selected
  {
    ReplayInvariant(s, ds, wilson, i);
    assert Step(s, ds, i, wilson);
    forall k | 0 <= k < |ds[i].selected|
      ensures ds[i].selected[k] != c.connection
    {
      assert ds[i].next.members[k].connection == ds[i].selected[k];
      assert ds[i].next.members[k] in ds[i].next.members;
    }
  }

  lemma {:induction false} CooldownLasts(s: Scenario, ds: seq<Decision>, wilson: (int, int) -> Ppm, i: nat, k: nat, c: Cooldown)
    requires Replayed(s, ds, wilson) && s.context.Valid() && i < k < |ds|
    requires c in ds[i].next.cooldowns
    requires forall j :: i < j <= k ==> Present(s.frames[j].candidates, c.connection)
    requires c.connection in ds[k].selected
    ensures RecoveredWithin(s, i, k, c.connection, c.until)
    decreases k - i
  {
    CooldownStays(s, ds, wilson, i + 1, c);
    if c in ds[i + 1].next.cooldowns {
      CoolingNotSelected(s, ds, wilson, i + 1, c);
      CooldownLasts(s, ds, wilson, i + 1, k, c);
    }
  }

  /**
   A member dropped at frame i for a failure streak or unreliability, and present in every frame since, is selected
   again at frame k only if some frame in between came at least Cooldown later and showed RecoverySuccesses
   consecutive successes; in particular not before Cooldown has passed.
   */
  lemma DroppedStaysOut(s: Scenario, ds: seq<Decision>, wilson: (int, int) -> Ppm, i: nat, k: nat, ref: Ref)
    requires Replayed(s, ds, wilson) && s.context.Valid() && s.policy.strategy == Adaptive && 0 < i < k < |ds|
    requires DroppedAt(s, ds, i, ref)
    requires forall j :: i < j <= k ==> Present(s.frames[j].candidates, ref)
    requires ref in ds[k].selected
    ensures s.policy.Valid()
    ensures RecoveredWithin(s, i, k, ref, s.frames[i].at + s.policy.cooldown)
    ensures s.frames[k].at >= s.frames[i].at + s.policy.cooldown
  {
    DropStartsCooldown(s, ds, wilson, i, ref);
    CooldownLasts(s, ds, wilson, i, k, Cooldown(ref, s.frames[i].at + s.policy.cooldown));
    var until := s.frames[i].at + s.policy.cooldown;
    var j :| i < j <= k && RecoveredAt(s, j, ref, until);
    TimesAscend(s, ds, wilson, j, k);
  }
}
