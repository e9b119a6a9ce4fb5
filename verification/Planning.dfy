/**
 Planning one decision: evidence is loaded for every record, and withheld from the records a constrained plan may
 not use. Links the plan to the probe cohort that must maintain what it selects.
 */
module Planning {
  import opened Wrappers
  import opened Finite
  import opened Policies
  import opened Selection
  import SelectionMethods
  import SelectionProofs
  import PC = ProbeContext
  import PA = ProbeAdmission
  import PR = ProbeReservation

  /** The evidence store: a summary for every connection, or an error. */
  type History = Ref -> Option<Summary>

  /** The cohort snapshot a constrained plan is limited to. */
  type Limit = Option<set<string>>

  datatype Request = Request(scope: string, inventory: seq<Ref>, context: Context, policy: Policy, now: nat,
                             wilson: (int, int) -> Ppm, history: History)

  datatype PlanError = EvidenceLoad | SelectionFailed(cause: Error)

  predicate Withheld(limit: Limit, ref: Ref) {
    limit.Some? && ref.id !in limit.value
  }

  function CandidateOf(request: Request, limit: Limit, ref: Ref): Result<Candidate, PlanError> {
    if Withheld(limit, ref) then Ok(Candidate(ref, None))
    else
      var summary := request.history(ref);
      if summary.None? then Err(EvidenceLoad) else Ok(Candidate(ref, summary))
  }

  function Candidates(request: Request, limit: Limit, inventory: seq<Ref>): (r: Result<seq<Candidate>, PlanError>)
    ensures r.Ok? ==> |r.value| == |inventory|
    ensures r.Ok? ==> forall i :: 0 <= i < |inventory| ==>
                        r.value[i].ref == inventory[i] && (Withheld(limit, inventory[i]) ==> r.value[i].evidence.None?)
  {
    if inventory == [] then Ok([])
    else
      var first := CandidateOf(request, limit, inventory[0]);
      if first.Err? then Err(first.error)
      else
        var rest := Candidates(request, limit, inventory[1..]);
        if rest.Err? then rest else Ok([first.value] + rest.value)
  }

  function Plan(request: Request, limit: Limit, previous: Option<State>): Result<Decision, PlanError> {
    var candidates := Candidates(request, limit, request.inventory);
    if candidates.Err? then Err(candidates.error)
    else
      var d := Select(request.scope, request.context, request.policy, candidates.value, previous, request.now, request.wilson);
      if d.Err? then Err(SelectionFailed(d.error)) else Ok(d.value)
  }

  /** The candidates loaded so far, followed by what loading the rest gives. */
  ghost predicate Continues(whole: Result<seq<Candidate>, PlanError>, loaded: seq<Candidate>, rest: Result<seq<Candidate>, PlanError>) {
    if rest.Err? then whole == rest else whole.Ok? && whole.value == loaded + rest.value
  }

  lemma LoadOne(request: Request, limit: Limit, inventory: seq<Ref>, i: nat, whole: Result<seq<Candidate>, PlanError>, loaded: seq<Candidate>)
    requires i < |inventory|
    requires Continues(whole, loaded, Candidates(request, limit, inventory[i..]))
    ensures var c := CandidateOf(request, limit, inventory[i]);
            if c.Err? then whole == Err(c.error)
            else Continues(whole, loaded + [c.value], Candidates(request, limit, inventory[i + 1..]))
  {
    assert inventory[i..][0] == inventory[i] && inventory[i..][1..] == inventory[i + 1..];
    var c, rest := CandidateOf(request, limit, inventory[i]), Candidates(request, limit, inventory[i + 1..]);
    if c.Ok? && rest.Ok? {
      assert loaded + ([c.value] + rest.value) == (loaded + [c.value]) + rest.value;
    }
  }

  method LoadCandidates(request: Request, limit: Limit, inventory: seq<Ref>) returns (r: Result<seq<Candidate>, PlanError>)
    ensures r == Candidates(request, limit, inventory)
  {
    var candidates: seq<Candidate> := [];
    ghost var whole := Candidates(request, limit, inventory);
    assert inventory[0..] == inventory;
    var i := 0;
    while i < |inventory|
      invariant 0 <= i <= |inventory|
      invariant Continues(whole, candidates, Candidates(request, limit, inventory[i..]))
    {
      LoadOne(request, limit, inventory, i, whole, candidates);
      var candidate := CandidateOf(request, limit, inventory[i]);
      if candidate.Err? {
        return Err(candidate.error);
      }
      candidates := candidates + [candidate.value];
      i := i + 1;
    }
    assert inventory[i..] == [] && candidates + [] == candidates;
    return Ok(candidates);
  }

  method PlanDecision(request: Request, limit: Limit, previous: Option<State>) returns (r: Result<Decision, PlanError>)
    ensures r == Plan(request, limit, previous)
    ensures r.Ok? ==> r.value.next.scope == request.scope
  {
    var candidates := LoadCandidates(request, limit, request.inventory);
    if candidates.Err? {
      return Err(candidates.error);
    }
    var d := SelectionMethods.SelectEndpoints(request.scope, request.context, request.policy, candidates.value, previous,
                                              request.now, request.wilson);
    return if d.Err? then Err(SelectionFailed(d.error)) else Ok(d.value);
  }

  /** Withheld evidence makes a record unselectable: a constrained plan selects inside its limit only. */
  lemma ConstrainedSelectsMaintained(request: Request, limit: set<string>, previous: Option<State>, d: Decision)
    requires Plan(request, Some(limit), previous) == Ok(d)
    requires previous.Some? ==> SelectionProofs.DistinctMembers(previous.value.members)
    ensures forall ref :: ref in d.selected ==> ref.id in limit && ref in request.inventory
  {
    var candidates := Candidates(request, Some(limit), request.inventory).value;
    var env := EnvOf(previous, request.scope, request.context, request.policy, request.now, request.wilson);
    SelectionProofs.SelectsExactly(request.scope, request.context, request.policy, candidates, previous, request.now,
                                   request.wilson, d);
    forall ref | ref in d.selected
      ensures ref.id in limit && ref in request.inventory
    {
      assert ref in ToSet(d.selected);
      EligibleIsMaintained(request, limit, candidates, env, ref);
    }
  }

  lemma EligibleIsMaintained(request: Request, limit: set<string>, candidates: seq<Candidate>, env: Env, ref: Ref)
    requires Candidates(request, Some(limit), request.inventory) == Ok(candidates)
    requires ref in SelectionProofs.EligibleRefs(candidates, env)
    ensures ref.id in limit && ref in request.inventory
  {
    var c :| c in candidates && Evaluate(c, env).reason == Eligible && c.ref == ref;
    var i :| 0 <= i < |candidates| && candidates[i] == c;
    assert request.inventory[i] == ref;
  }

  /** The second plan, after the preferred decision was refused. */
  method PlanWithin(request: Request, limit: set<string>, previous: Option<State>) returns (r: Result<Decision, PlanError>)
    requires previous.Some? ==> previous.value.Valid()
    ensures r == Plan(request, Some(limit), previous)
    ensures r.Ok? ==> r.value.next.scope == request.scope
    ensures r.Ok? ==> forall ref :: ref in r.value.selected ==> ref.id in limit && ref in request.inventory
  {
    r := PlanDecision(request, Some(limit), previous);
    if r.Ok? {
      ConstrainedSelectsMaintained(request, limit, previous, r.value);
    }
  }

  // ----- what the cohort sees of a decision

  function Ids(refs: seq<Ref>): (r: seq<string>)
    ensures |r| == |refs|
    ensures forall i :: 0 <= i < |refs| ==> r[i] == refs[i].id
  {
    seq(|refs|, i requires 0 <= i < |refs| => refs[i].id)
  }

  /** The selected IDs, and the IDs rejected for a failure streak or unreliability. */
  function Scheduling(d: Decision): PC.Decision {
    PC.Decision(Ids(d.selected),
                set e | e in d.explanations && (e.reason == FailureStreak || e.reason == Unreliable) :: e.ref.id)
  }

  /** An effective TopN that the cohort can maintain: the first selection in a context is always granted. */
  lemma FirstSelectionIsGranted(s: PC.Probe, gateway: string, isDefault: bool, requested: int, request: Request,
                                previous: Option<State>, d: Decision)
    requires s.demand == map[] && request.policy.topN == PC.MaintainableTopN(isDefault, requested)
    requires previous.Some? ==> SelectionProofs.DistinctMembers(previous.value.members)
    requires Plan(request, None, previous) == Ok(d)
    ensures PR.Granted(s, gateway, Scheduling(d), request.now, PC.CohortCapacity(isDefault))
  {
    var candidates := Candidates(request, None, request.inventory).value;
    SelectionProofs.SelectsExactly(request.scope, request.context, request.policy, candidates, previous, request.now,
                                   request.wilson, d);
    FewSelectedFit(s, gateway, Scheduling(d), request.now, PC.CohortCapacity(isDefault));
  }

  lemma FewSelectedFit(s: PC.Probe, gateway: string, decision: PC.Decision, now: nat, capacity: nat)
    requires s.demand == map[] && |decision.selected| <= capacity
    ensures PR.Granted(s, gateway, decision, now, capacity)
  {
    assert s.ObserveVerdicts(decision).Needed(gateway, decision.selected) == ToSet(decision.selected);
    ToSetSize(decision.selected);
  }

  /**
   When no write of this Gateway is unresolved and no other reservation is open, a plan limited to the cohort is
   granted its reservation, also after the preferred plan was refused.
   */
  lemma ConstrainedPlanIsGranted(s: PC.Probe, gateway: string, capacity: nat, request: Request, previous: Option<State>,
                                 preferred: Decision, constrained: Decision)
    requires PA.Bounded(s, capacity) && !s.Unresolved(gateway)
    requires forall g :: g in s.demand && g != gateway ==> !s.demand[g].pending
    requires previous.Some? ==> SelectionProofs.DistinctMembers(previous.value.members)
    requires Plan(request, None, previous) == Ok(preferred)
    requires !PR.Granted(s, gateway, Scheduling(preferred), request.now, capacity)
    requires Plan(request, Some(ToSet(s.cohort)), previous) == Ok(constrained)
    ensures var refused := s.Reserve(gateway, Scheduling(preferred), request.now, capacity).0;
            PR.Granted(refused, gateway, Scheduling(constrained), request.now, capacity)
  {
    var refused := s.Reserve(gateway, Scheduling(preferred), request.now, capacity).0;
    assert refused == s.ObserveVerdicts(Scheduling(preferred));
    ConstrainedSelectsMaintained(request, ToSet(s.cohort), previous, constrained);
    forall id | id in ToSet(Scheduling(constrained).selected)
      ensures id in ToSet(s.cohort)
    {
      var i :| 0 <= i < |constrained.selected| && constrained.selected[i].id == id;
      assert constrained.selected[i] in constrained.selected;
    }
    PR.MaintainedPlanFits(refused, gateway, Scheduling(constrained), request.now, capacity);
  }
}
