/** Whole selection runs: each decision's next state is the previous state of the following frame. */
module Replay {
  import opened Wrappers
  import opened Policies
  import opened Sorting
  import opened Finite
  import opened Selection
  import opened SelectionProofs
  import opened SelectionHysteresis

  datatype Frame = Frame(at: nat, candidates: seq<Candidate>)

  datatype Scenario = Scenario(scope: string, context: Context, policy: Policy, frames: seq<Frame>)

  datatype Report = Report(strategy: Strategy, evaluations: nat, changes: nat, emergencyChanges: nat,
                           noEligible: nat, degraded: nat, meanSelectedLatency: int)

  datatype Failure = EmptyScenario | Selecting(error: Error)

  // ----- the fold and its report

  /** The decisions of a run that starts from `state`. */
  function Decisions(s: Scenario, frames: seq<Frame>, state: Option<State>, wilson: (int, int) -> Ppm): Result<seq<Decision>, Error>
    decreases |frames|
  {
    if frames == [] then Ok([])
    else
      match Select(s.scope, s.context, s.policy, frames[0].candidates, state, frames[0].at, wilson)
      case Err(e) => Err(e)
      case Ok(d) =>
        match Decisions(s, frames[1..], Some(d.next), wilson)
        case Err(e) => Err(e)
        case Ok(rest) => Ok([d] + rest)
  }

  /** The measures a run accumulates. */
  datatype Tally = Tally(evaluations: nat, changes: nat, emergencies: nat, noEligible: nat, degraded: nat,
                         latencyTotal: int, latencySamples: nat)

  const NOTHING: Tally := Tally(0, 0, 0, 0, 0, 0, 0)

  function One(condition: bool): nat { if condition then 1 else 0 }

  /** The mean latency of the first eligible explanation of a selected connection. */
  function LatencyOf(explanations: seq<Explanation>, ref: Ref): Option<int> {
    if explanations == [] then None
    else if explanations[0].ref == ref && explanations[0].reason == Eligible then Some(explanations[0].mean)
    else LatencyOf(explanations[1..], ref)
  }

  function AddLatencies(t: Tally, selected: seq<Ref>, explanations: seq<Explanation>): Tally
    decreases |selected|
  {
    if selected == [] then t
    else
      var l := LatencyOf(explanations, selected[0]);
      AddLatencies(if l.Some? then t.(latencyTotal := t.latencyTotal + l.value, latencySamples := t.latencySamples + 1) else t,
                   selected[1..], explanations)
  }

  function Add(t: Tally, d: Decision): Tally {
    AddLatencies(Tally(t.evaluations + 1, t.changes + One(d.changed), t.emergencies + One(d.transition == Emergency),
                       t.noEligible + One(d.selected == []), t.degraded + One(d.degraded), t.latencyTotal, t.latencySamples),
                 d.selected, d.explanations)
  }

  function Total(t: Tally, ds: seq<Decision>): Tally
    decreases |ds|
  {
    if ds == [] then t else Total(Add(t, ds[0]), ds[1..])
  }

  function ReportOf(strategy: Strategy, t: Tally): Report {
    Report(strategy, t.evaluations, t.changes, t.emergencies, t.noEligible, t.degraded,
           if t.latencySamples > 0 then t.latencyTotal / t.latencySamples else 0)
  }

  /** One strategy's run, measured from `state` on. */
  function Measure(s: Scenario, frames: seq<Frame>, state: Option<State>, t: Tally, wilson: (int, int) -> Ppm): Result<Tally, Error>
    decreases |frames|
  {
    if frames == [] then Ok(t)
    else
      match Select(s.scope, s.context, s.policy, frames[0].candidates, state, frames[0].at, wilson)
      case Err(e) => Err(e)
      case Ok(d) => Measure(s, frames[1..], Some(d.next), Add(t, d), wilson)
  }

  /** Measuring a run is totalling its decisions. */
  lemma {:induction false} MeasureTotals(s: Scenario, frames: seq<Frame>, state: Option<State>, t: Tally, wilson: (int, int) -> Ppm)
    ensures Measure(s, frames, state, t, wilson) ==
            match Decisions(s, frames, state, wilson) case Err(e) => Err(e) case Ok(ds) => Ok(Total(t, ds))
    decreases |frames|
  {
    if frames == [] {
    } else {
      var r := Select(s.scope, s.context, s.policy, frames[0].candidates, state, frames[0].at, wilson);
      if r.Ok? {
        MeasureTotals(s, frames[1..], Some(r.value.next), Add(t, r.value), wilson);
        var rest := Decisions(s, frames[1..], Some(r.value.next), wilson);
        if rest.Ok? {
          assert ([r.value] + rest.value)[1..] == rest.value;
        }
      }
    }
  }

  function WithStrategy(s: Scenario, strategy: Strategy): Scenario {
    s.(policy := s.policy.(strategy := strategy))
  }

  function Reports(s: Scenario, strategies: seq<Strategy>, reports: seq<Report>, wilson: (int, int) -> Ppm): Result<seq<Report>, Failure>
    decreases |strategies|
  {
    if strategies == [] then Ok(reports)
    else
      match Measure(WithStrategy(s, strategies[0]), s.frames, None, NOTHING, wilson)
      case Err(e) => Err(Selecting(e))
      case Ok(t) => Reports(s, strategies[1..], reports + [ReportOf(strategies[0], t)], wilson)
  }

  method SumLatencies(t: Tally, d: Decision) returns (r: Tally)
    ensures r == AddLatencies(t, d.selected, d.explanations)
  {
    r := t;
    for i := 0 to |d.selected|
      invariant AddLatencies(r, d.selected[i..], d.explanations) == AddLatencies(t, d.selected, d.explanations)
    {
      assert d.selected[i..][0] == d.selected[i] && d.selected[i..][1..] == d.selected[i + 1..];
      ghost var before := r;
      var j := 0;
      while j < |d.explanations| && !(d.explanations[j].ref == d.selected[i] && d.explanations[j].reason == Eligible)
        invariant 0 <= j <= |d.explanations| && r == before
        invariant LatencyOf(d.explanations[j..], d.selected[i]) == LatencyOf(d.explanations, d.selected[i])
      {
        assert d.explanations[j..][1..] == d.explanations[j + 1..];
        j := j + 1;
      }
      if j < |d.explanations| {
        r := r.(latencyTotal := r.latencyTotal + d.explanations[j].mean, latencySamples := r.latencySamples + 1);
      }
    }
  }

  method AddDecision(t: Tally, d: Decision) returns (r: Tally)
    ensures r == Add(t, d)
  {
    r := t.(evaluations := t.evaluations + 1);
    if d.changed {
      r := r.(changes := r.changes + 1);
    }
    if d.transition == Emergency {
      r := r.(emergencies := r.emergencies + 1);
    }
    if d.selected == [] {
      r := r.(noEligible := r.noEligible + 1);
    }
    if d.degraded {
      r := r.(degraded := r.degraded + 1);
    }
    r := SumLatencies(r, d);
  }

  /** One strategy's run over the frames, feeding each next state back in. */
  method RunStrategy(s: Scenario, wilson: (int, int) -> Ppm) returns (r: Result<Tally, Error>)
    ensures r == Measure(s, s.frames, None, NOTHING, wilson)
  {
    var state: Option<State> := None;
    var t := NOTHING;
    for i := 0 to |s.frames|
      invariant Measure(s, s.frames[i..], state, t, wilson) == Measure(s, s.frames, None, NOTHING, wilson)
    {
      assert s.frames[i..][0] == s.frames[i] && s.frames[i..][1..] == s.frames[i + 1..];
      var result := Select(s.scope, s.context, s.policy, s.frames[i].candidates, state, s.frames[i].at, wilson);
      if result.Err? {
        return Err(result.error);
      }
      t := AddDecision(t, result.value);
      state := Some(result.value.next);
    }
    return Ok(t);
  }

  method Compare(s: Scenario, strategies: seq<Strategy>, wilson: (int, int) -> Ppm) returns (r: Result<seq<Report>, Failure>)
    ensures r == if strategies == [] || s.frames == [] then Err(EmptyScenario) else Reports(s, strategies, [], wilson)
  {
    if strategies == [] || s.frames == [] {
      return Err(EmptyScenario);
    }
    var reports := [];
    for i := 0 to |strategies|
      invariant Reports(s, strategies[i..], reports, wilson) == Reports(s, strategies, [], wilson)
    {
      assert strategies[i..][0] == strategies[i] && strategies[i..][1..] == strategies[i + 1..];
      var t := RunStrategy(WithStrategy(s, strategies[i]), wilson);
      if t.Err? {
        return Err(Selecting(t.error));
      }
      reports := reports + [ReportOf(strategies[i], t.value)];
    }
    return Ok(reports);
  }
}
