/**
 Deterministic adaptive selection. Times are nanoseconds since the zero time, which is 0; a record is known by
 its connection reference; the policy fingerprint is the policy itself; the Wilson bound is a parameter into
 parts per million.
 */
module Selection {
  import opened Wrappers
  import opened Policies
  import opened Sorting
  import Cadence

  type Ppm = x: int | 0 <= x <= 1_000_000

  const MAX_INT64: int := 0x7FFF_FFFF_FFFF_FFFF

  /** A connection revision: logical endpoint ID and confidential revision bytes. */
  datatype Ref = Ref(id: string, revision: string) {
    predicate Valid() { id != "" && revision != "" }

    function Order(): Key { Key(0, id, revision) }
  }

  datatype Context = Context(target: string, targetRevision: string, vantage: string, kind: int, profile: string) {
    predicate Valid() {
      && target != "" && targetRevision != "" && vantage != "" && kind == 1
      && (profile == "mihomo" || profile == "sing-box")
    }
  }

  datatype Summary = Summary(context: Context, connection: Ref, samples: nat, successes: nat, mean: int,
                             consecutiveSuccesses: nat, consecutiveFailures: nat, isFresh: bool)

  datatype Candidate = Candidate(ref: Ref, evidence: Option<Summary>)

  datatype Member = Member(connection: Ref, selectedAt: nat)

  datatype Cooldown = Cooldown(connection: Ref, until: nat)

  datatype State = State(scope: string, context: Context, policy: Policy, evaluatedAt: nat,
                         members: seq<Member>, cooldowns: seq<Cooldown>)
  {
    predicate Valid() {
      && SafeScope(scope)
      && context.Valid()
      && evaluatedAt != 0
      && (forall i :: 0 <= i < |members| ==> members[i].selectedAt != 0 && members[i].connection.Valid())
      && (forall i, j :: 0 <= i < j < |members| ==> members[i].connection != members[j].connection)
      && (forall i :: 0 <= i < |cooldowns| ==> cooldowns[i].until != 0 && cooldowns[i].connection.revision != "")
      && (forall i, j :: 0 <= i < j < |cooldowns| ==> cooldowns[i].connection != cooldowns[j].connection)
    }
  }

  datatype Reason =
    | Eligible | MissingEvidence | WrongContext | WrongRevision | Stale | InsufficientSamples
    | Unreliable | FailureStreak | NoSuccessfulLatency | InCooldown | Recovering

  datatype Explanation = Explanation(ref: Ref, reason: Reason, samples: nat, successes: nat, successPermille: int,
                                     mean: int, confidence: int, cost: int, incumbent: bool, residenceActive: bool)

  datatype Ranked = Ranked(candidate: Candidate, explanation: Explanation) {
    function Ref(): Ref { candidate.ref }

    function Order(strategy: Strategy): Key {
      var n := match strategy
        case Static => 0
        case LowestLatency => explanation.mean
        case Adaptive => explanation.cost;
      Key(n, Ref().id, Ref().revision)
    }
  }

  datatype Transition = Initial | Unchanged | Optimized | Emergency | ContextReset | NoEligible

  datatype Decision = Decision(selected: seq<Ref>, explanations: seq<Explanation>, next: State, changed: bool,
                               degraded: bool, transition: Transition, eligible: nat, requested: int)

  datatype Error = BadRequest | BadPolicy | OlderThanState | DuplicateCandidates | BadIdentity

  /** What one evaluation reads besides the candidates. */
  datatype Env = Env(context: Context, policy: Policy, members: seq<Member>, cooldowns: seq<Cooldown>, now: nat,
                     wilson: (int, int) -> Ppm)

  predicate SafeScope(s: string) {
    0 < |s| <= 128 && forall i :: 0 <= i < |s| ==> SafeChar(s[i])
  }

  predicate SafeChar(c: char) {
    'a' <= c <= 'z' || 'A' <= c <= 'Z' || '0' <= c <= '9' || c == '.' || c == '/' || c == '_' || c == '-'
  }

  // ----- lookups: the first match, as the source's loops find it

  function FindMember(members: seq<Member>, ref: Ref): (r: Option<nat>)
    ensures r.Some? ==> exists m :: m in members && m.connection == ref && m.selectedAt == r.value
    ensures r.None? ==> forall m :: m in members ==> m.connection != ref
  {
    if members == [] then None
    else if members[0].connection == ref then Some(members[0].selectedAt)
    else FindMember(members[1..], ref)
  }

  function FindCooldown(cooldowns: seq<Cooldown>, ref: Ref): (r: Option<Cooldown>)
    ensures r.Some? ==> r.value in cooldowns && r.value.connection == ref
    ensures r.None? ==> forall c :: c in cooldowns ==> c.connection != ref
  {
    if cooldowns == [] then None
    else if cooldowns[0].connection == ref then Some(cooldowns[0])
    else FindCooldown(cooldowns[1..], ref)
  }

  function FindRanked(values: seq<Ranked>, ref: Ref): (r: Option<Ranked>)
    ensures r.Some? ==> r.value in values && r.value.Ref() == ref
    ensures r.None? ==> forall v :: v in values ==> v.Ref() != ref
  {
    if values == [] then None
    else if values[0].Ref() == ref then Some(values[0])
    else FindRanked(values[1..], ref)
  }

  function ReasonOf(explanations: seq<Explanation>, ref: Ref): (r: Option<Reason>)
    ensures r.Some? ==> exists e :: e in explanations && e.ref == ref && e.reason == r.value
    ensures r.None? ==> forall e :: e in explanations ==> e.ref != ref
  {
    if explanations == [] then None
    else if explanations[0].ref == ref then Some(explanations[0].reason)
    else ReasonOf(explanations[1..], ref)
  }

  // ----- costs

  /** ceil(duration * 10^6 / confidence) in signed 64-bit arithmetic. */
  function RiskCost(duration: int, confidence: int): int {
    if duration <= 0 || confidence <= 0 then MAX_INT64
    else Cadence.TruncDiv(Cadence.Wrap(Cadence.Wrap(duration * 1_000_000) + confidence - 1), confidence)
  }

  /** The exact hysteresis boundary, cross-multiplied in unbounded integers. */
  predicate ImprovesBy(challenger: Explanation, incumbent: Explanation, requiredPermille: int) {
    && challenger.mean * incumbent.confidence * 1000 <= incumbent.mean * challenger.confidence * (1000 - requiredPermille)
    && challenger.cost < incumbent.cost
  }

  // ----- evaluation of one candidate

  function ResidenceActive(members: seq<Member>, ref: Ref, policy: Policy, now: nat): bool {
    var since := FindMember(members, ref);
    since.Some? && now < since.value + policy.residence
  }

  /** Why a cooldown still bars a connection with this evidence, if it does. */
  function Barred(cooldowns: seq<Cooldown>, ref: Ref, s: Summary, policy: Policy, now: nat): Option<Reason> {
    var cooldown := FindCooldown(cooldowns, ref);
    if cooldown.Some? && now < cooldown.value.until then Some(InCooldown)
    else if cooldown.Some? && s.consecutiveSuccesses < policy.recoverySuccesses then Some(Recovering)
    else None
  }

  datatype Judgement = Judgement(reason: Reason, confidence: int, cost: int)

  function Permille(s: Summary): int {
    if s.samples > 0 then s.successes * 1000 / s.samples else 0
  }

  /** The checks in the source's order; the first that fails names the reason. */
  function Judge(ref: Ref, s: Summary, context: Context, policy: Policy, barred: Option<Reason>, confidence: int): Judgement {
    if s.context != context then Judgement(WrongContext, 0, 0)
    else if s.connection != ref then Judgement(WrongRevision, 0, 0)
    else if !s.isFresh then Judgement(Stale, 0, 0)
    else if s.samples < policy.minSamples then Judgement(InsufficientSamples, 0, 0)
    else if Permille(s) < policy.minSuccessPermille then Judgement(Unreliable, 0, 0)
    else if s.consecutiveFailures >= policy.failureStreak then Judgement(FailureStreak, 0, 0)
    else if s.successes == 0 || s.mean <= 0 then Judgement(NoSuccessfulLatency, 0, 0)
    else if barred.Some? then Judgement(barred.value, 0, 0)
    else if confidence <= 0 then Judgement(Unreliable, confidence, 0)
    else Judgement(Eligible, confidence, RiskCost(s.mean, confidence))
  }

  function Evaluate(c: Candidate, env: Env): (e: Explanation)
    ensures e.ref == c.ref
  {
    var incumbent := FindMember(env.members, c.ref).Some?;
    var resident := ResidenceActive(env.members, c.ref, env.policy, env.now);
    if c.evidence.None? then Explanation(c.ref, MissingEvidence, 0, 0, 0, 0, 0, 0, incumbent, resident)
    else
      var s := c.evidence.value;
      var j := Judge(c.ref, s, env.context, env.policy, Barred(env.cooldowns, c.ref, s, env.policy, env.now),
                     env.wilson(s.successes, s.samples));
      Explanation(c.ref, j.reason, s.samples, s.successes, Permille(s), s.mean, j.confidence, j.cost, incumbent, resident)
  }

  function Explain(ordered: seq<Candidate>, env: Env): (r: seq<Explanation>)
    ensures |r| == |ordered|
    ensures forall i :: 0 <= i < |ordered| ==> r[i] == Evaluate(ordered[i], env) && r[i].ref == ordered[i].ref
  {
    if ordered == [] then [] else [Evaluate(ordered[0], env)] + Explain(ordered[1..], env)
  }

  /** The eligible candidates, in candidate order. */
  function Rankable(ordered: seq<Candidate>, env: Env): (r: seq<Ranked>)
    ensures forall v :: v in r ==> v.candidate in ordered && v.explanation == Evaluate(v.candidate, env) && v.explanation.reason == Eligible
    ensures forall c :: c in ordered && Evaluate(c, env).reason == Eligible ==> Ranked(c, Evaluate(c, env)) in r
  {
    if ordered == [] then []
    else
      var e := Evaluate(ordered[0], env);
      (if e.reason == Eligible then [Ranked(ordered[0], e)] else []) + Rankable(ordered[1..], env)
  }

  function KeyedBy(values: seq<Ranked>, strategy: Strategy): (r: seq<Keyed<Ranked>>)
    ensures |r| == |values|
    ensures forall i :: 0 <= i < |values| ==> r[i] == Keyed(values[i].Order(strategy), values[i])
  {
    seq(|values|, i requires 0 <= i < |values| => Keyed(values[i].Order(strategy), values[i]))
  }

  function SortRanked(values: seq<Ranked>, strategy: Strategy): (r: seq<Ranked>)
    ensures |r| == |values|
  {
    SortPermutes(KeyedBy(values, strategy));
    Values(Sort(KeyedBy(values, strategy)))
  }

  function KeyedCandidates(candidates: seq<Candidate>): (r: seq<Keyed<Candidate>>)
    ensures |r| == |candidates|
    ensures forall i :: 0 <= i < |candidates| ==> r[i] == Keyed(candidates[i].ref.Order(), candidates[i])
  {
    seq(|candidates|, i requires 0 <= i < |candidates| => Keyed(candidates[i].ref.Order(), candidates[i]))
  }

  function Ordered(candidates: seq<Candidate>): seq<Candidate> {
    Values(Sort(KeyedCandidates(candidates)))
  }

  // ----- cooldowns

  predicate Present(ordered: seq<Candidate>, ref: Ref) {
    exists c :: c in ordered && c.ref == ref
  }

  /** A recovered revision is released: its cooldown is over, it is eligible and succeeded often enough. */
  predicate Released(cooldown: Cooldown, ranked: seq<Ranked>, env: Env) {
    var entry := FindRanked(ranked, cooldown.connection);
    && env.now >= cooldown.until && entry.Some? && entry.value.candidate.evidence.Some?
    && entry.value.candidate.evidence.value.consecutiveSuccesses >= env.policy.recoverySuccesses
  }

  function KeepCooldowns(cooldowns: seq<Cooldown>, ordered: seq<Candidate>, ranked: seq<Ranked>, env: Env): (r: seq<Cooldown>)
    ensures forall c :: c in r <==> c in cooldowns && Present(ordered, c.connection) && !Released(c, ranked, env)
  {
    if cooldowns == [] then []
    else
      var c := cooldowns[0];
      (if Present(ordered, c.connection) && !Released(c, ranked, env) then [c] else [])
      + KeepCooldowns(cooldowns[1..], ordered, ranked, env)
  }

  function Upsert(cooldowns: seq<Cooldown>, value: Cooldown): seq<Cooldown> {
    if cooldowns == [] then [value]
    else if cooldowns[0].connection == value.connection then [value] + cooldowns[1..]
    else [cooldowns[0]] + Upsert(cooldowns[1..], value)
  }

  /** A member is punished when the latest explanation rejects it for its failures. */
  predicate Punished(explanations: seq<Explanation>, ref: Ref) {
    ReasonOf(explanations, ref) == Some(FailureStreak) || ReasonOf(explanations, ref) == Some(Unreliable)
  }

  function PunishOne(cooldowns: seq<Cooldown>, ref: Ref, explanations: seq<Explanation>, ranked: seq<Ranked>, env: Env): seq<Cooldown>
    requires env.policy.Valid()
  {
    if FindRanked(ranked, ref).None? && Punished(explanations, ref)
    then Upsert(cooldowns, Cooldown(ref, env.now + env.policy.cooldown)) else cooldowns
  }

  function Punish(cooldowns: seq<Cooldown>, members: seq<Member>, explanations: seq<Explanation>, ranked: seq<Ranked>, env: Env): seq<Cooldown>
    requires env.policy.Valid()
    decreases |members|
  {
    if members == [] then cooldowns
    else Punish(PunishOne(cooldowns, members[0].connection, explanations, ranked, env), members[1..], explanations, ranked, env)
  }

  // ----- the selected set

  /** The members that are still eligible, in member order. */
  function Retain(members: seq<Member>, ranked: seq<Ranked>): seq<Ranked> {
    if members == [] then []
    else
      var entry := FindRanked(ranked, members[0].connection);
      (if entry.Some? then [entry.value] else []) + Retain(members[1..], ranked)
  }

  predicate Contains(values: seq<Ranked>, ref: Ref) {
    FindRanked(values, ref).Some?
  }

  function Fill(selected: seq<Ranked>, ranked: seq<Ranked>, topN: int): seq<Ranked>
    decreases |ranked|
  {
    if ranked == [] then selected
    else
      Fill(if |selected| >= topN || Contains(selected, ranked[0].Ref()) then selected else selected + [ranked[0]],
           ranked[1..], topN)
  }

  /** The costlier of two slots, ties going to the later identity. */
  predicate Worse(a: Ranked, b: Ranked) {
    Below(a.Order(Adaptive), b.Order(Adaptive))
  }

  /** The most expensive slot whose residence does not protect it, or |selected|. */
  function Worst(selected: seq<Ranked>, i: nat, worst: nat, members: seq<Member>, policy: Policy, now: nat): (w: nat)
    requires i <= |selected| && worst <= |selected|
    ensures w <= |selected|
    decreases |selected| - i
  {
    if i == |selected| then worst
    else
      var resident := Resident(members, selected[i].Ref(), policy, now);
      var next := if resident then worst
                  else if worst == |selected| || Worse(selected[worst], selected[i]) then i
                  else worst;
      Worst(selected, i + 1, next, members, policy, now)
  }

  /** A member inside its residence; the zero time counts as "not a member". */
  predicate Resident(members: seq<Member>, ref: Ref, policy: Policy, now: nat) {
    var since := FindMember(members, ref);
    since.Some? && since.value != 0 && now < since.value + policy.residence
  }

  function OptimizeStep(selected: seq<Ranked>, challenger: Ranked, members: seq<Member>, policy: Policy, now: nat): (r: seq<Ranked>)
    ensures |r| == |selected|
  {
    if Contains(selected, challenger.Ref()) then selected
    else
      var worst := Worst(selected, 0, |selected|, members, policy, now);
      if worst < |selected| && ImprovesBy(challenger.explanation, selected[worst].explanation, policy.requiredImprovementPermille)
      then selected[worst := challenger]
      else selected
  }

  function Optimize(selected: seq<Ranked>, ranked: seq<Ranked>, members: seq<Member>, policy: Policy, now: nat): (r: seq<Ranked>)
    ensures |r| == |selected|
    decreases |ranked|
  {
    if ranked == [] then selected
    else Optimize(OptimizeStep(selected, ranked[0], members, policy, now), ranked[1..], members, policy, now)
  }

  /** Members first, then the best others up to TopN, then one optimising pass over a full set. */
  function Choose(ranked: seq<Ranked>, usable: bool, env: Env): seq<Ranked>
    requires env.policy.Valid()
  {
    var adaptive := env.policy.strategy == Adaptive && usable;
    var retained := if adaptive then Retain(env.members, ranked) else [];
    var base := if |retained| > env.policy.topN then SortRanked(retained, Adaptive)[..env.policy.topN] else retained;
    var filled := Fill(base, ranked, env.policy.topN);
    if !adaptive then (if |filled| > env.policy.topN then filled[..env.policy.topN] else filled)
    else if |filled| == env.policy.topN then Optimize(filled, ranked, env.members, env.policy, env.now)
    else filled
  }

  function Since(members: seq<Member>, ref: Ref, now: nat): nat {
    var since := FindMember(members, ref);
    if since.Some? && since.value != 0 then since.value else now
  }

  function NextMembers(chosen: seq<Ranked>, members: seq<Member>, now: nat): (r: seq<Member>)
    ensures |r| == |chosen|
    ensures forall i :: 0 <= i < |chosen| ==> r[i] == Member(chosen[i].Ref(), Since(members, chosen[i].Ref(), now))
  {
    seq(|chosen|, i requires 0 <= i < |chosen| => Member(chosen[i].Ref(), Since(members, chosen[i].Ref(), now)))
  }

  function Refs(chosen: seq<Ranked>): (r: seq<Ref>)
    ensures |r| == |chosen|
    ensures forall i :: 0 <= i < |chosen| ==> r[i] == chosen[i].Ref()
  {
    seq(|chosen|, i requires 0 <= i < |chosen| => chosen[i].Ref())
  }

  predicate SameConnections(a: seq<Member>, b: seq<Member>) {
    |a| == |b| && forall i :: 0 <= i < |a| ==> a[i].connection == b[i].connection
  }

  predicate Usable(previous: Option<State>, scope: string, context: Context, policy: Policy) {
    && previous.Some? && previous.value.scope == scope
    && previous.value.context == context && previous.value.policy == policy
  }

  function EnvOf(previous: Option<State>, scope: string, context: Context, policy: Policy, now: nat, wilson: (int, int) -> Ppm): Env {
    if Usable(previous, scope, context, policy)
    then Env(context, policy, previous.value.members, previous.value.cooldowns, now, wilson)
    else Env(context, policy, [], [], now, wilson)
  }

  predicate AdjacentDuplicate(ordered: seq<Candidate>) {
    exists i :: 0 < i < |ordered| && ordered[i - 1].ref == ordered[i].ref
  }

  function NextCooldowns(ordered: seq<Candidate>, ranked: seq<Ranked>, usable: bool, env: Env): seq<Cooldown>
    requires env.policy.Valid()
  {
    var kept := KeepCooldowns(env.cooldowns, ordered, ranked, env);
    if env.policy.strategy == Adaptive && usable then Punish(kept, env.members, Explain(ordered, env), ranked, env) else kept
  }

  predicate LostMember(members: seq<Member>, ranked: seq<Ranked>) {
    exists m :: m in members && FindRanked(ranked, m.connection).None?
  }

  function Decide(scope: string, ordered: seq<Candidate>, previous: Option<State>, env: Env): Decision
    requires env.policy.Valid()
  {
    var usable := Usable(previous, scope, env.context, env.policy);
    var ranked := SortRanked(Rankable(ordered, env), env.policy.strategy);
    var chosen := Choose(ranked, usable, env);
    var members := NextMembers(chosen, env.members, env.now);
    var changed := !SameConnections(env.members, members);
    var lost := env.policy.strategy == Adaptive && usable && LostMember(env.members, ranked);
    var transition := if |chosen| == 0 then NoEligible
                      else if lost && changed then Emergency
                      else if changed && usable then Optimized
                      else if usable then Unchanged
                      else if previous.Some? then ContextReset
                      else Initial;
    Decision(Refs(chosen), Explain(ordered, env),
             State(scope, env.context, env.policy, env.now, members, NextCooldowns(ordered, ranked, usable, env)),
             changed, |chosen| < env.policy.topN, transition, |ranked|, env.policy.topN)
  }

  function Select(scope: string, context: Context, policy: Policy, candidates: seq<Candidate>, previous: Option<State>,
                  now: nat, wilson: (int, int) -> Ppm): Result<Decision, Error>
  {
    if !SafeScope(scope) || now == 0 then Err(BadRequest)
    else if !policy.Valid() then Err(BadPolicy)
    else if Usable(previous, scope, context, policy) && now < previous.value.evaluatedAt then Err(OlderThanState)
    else
      var ordered := Ordered(candidates);
      if AdjacentDuplicate(ordered) then Err(DuplicateCandidates)
      else if exists c :: c in ordered && !c.ref.Valid() then Err(BadIdentity)
      else Ok(Decide(scope, ordered, previous, EnvOf(previous, scope, context, policy, now, wilson)))
  }
}
