/**
 One reconciliation against a checkpoint store shared by many scopes and a publisher that holds one receipt. The fate
 of every effect is a parameter; each execution is a run of the machine in DecisionStore.
 */
module Reconcile {
  import opened Wrappers
  import opened DecisionStore
  import opened Planning
  import opened Policies
  import Selection
  import SelectionProofs

  datatype Slot = Committed | Pending

  datatype Failure = RequestInvalid | PublisherRead | StateRecover | PlanFailed(cause: PlanError) | Scheduling
                   | Render | StateStage | PublicationFailed | PublicationReadback | StateCommit

  /** The external write, reported apart from the error. */
  datatype Publication = NoPublication | Uncertain | WrittenUnread | ReadBackMatches

  datatype Report = Report(decision: Option<Selection.Decision>, published: bool, changed: bool, retained: bool,
                           publication: Publication, intended: Receipt, constrained: bool)

  const NO_REPORT := Report(None, false, false, false, NoPublication, "", false)

  /** `grants` answers the reservation requests; `admitsWrite` is the publisher's own claim that it may have written. */
  datatype Fates = Fates(read: bool, recover: Outcome, grants: (bool, bool), stage: Outcome, publish: Outcome,
                         admitsWrite: bool, readBack: bool, commit: Outcome)

  const EMPTY_DECISION :=
    Selection.Decision([], [], Selection.State("", Selection.Context("", "", "", 0, ""), DefaultPolicy(Adaptive), 0, [], []),
                       false, false, Selection.NoEligible, 0, 0)

  type Renderer = seq<Selection.Ref> -> Option<Receipt>

  class Store {
    var checkpoints: map<(string, Slot), Row>

    constructor ()
      ensures checkpoints == map[]
    {
      checkpoints := map[];
    }

    function At(scope: string, slot: Slot): Option<Row>
      reads this
    {
      if (scope, slot) in checkpoints then Some(checkpoints[(scope, slot)]) else None
    }

    function View(scope: string): Slots
      reads this
    {
      Slots(At(scope, Committed), At(scope, Pending))
    }

    /** Every stored state passed validation. */
    ghost predicate Valid()
      reads this
    {
      forall k :: k in checkpoints ==> checkpoints[k].state.Valid()
    }

    method StageDecision(state: Selection.State, receipt: Receipt, now: nat, o: Outcome) returns (ok: bool)
      requires Valid()
      modifies this
      ensures Valid()
      ensures ok ==> state.Valid() && now != 0
      ensures ok == (state.Valid() && now != 0 && o == Fine)
      ensures View(state.scope) == if state.Valid() && now != 0 && o != FailBefore
                                   then old(View(state.scope)).Stage(Row(state, receipt, now)) else old(View(state.scope))
      ensures forall other :: other != state.scope ==> View(other) == old(View(other))
    {
      if !state.Valid() || now == 0 {
        return false;
      }
      if o != FailBefore {
        checkpoints := checkpoints[(state.scope, Pending) := Row(state, receipt, now)];
      }
      return o == Fine;
    }

    method Promote(scope: string)
      requires Valid() && At(scope, Pending).Some?
      modifies this
      ensures Valid()
      ensures View(scope) == Slots(old(View(scope)).pending, None)
      ensures forall other :: other != scope ==> View(other) == old(View(other))
    {
      var row := checkpoints[(scope, Pending)];
      checkpoints := checkpoints - {(scope, Committed)};
      checkpoints := checkpoints[(scope, Committed) := row] - {(scope, Pending)};
    }

    method CommitDecision(scope: string, current: Receipt, o: Outcome) returns (ok: bool)
      requires Valid()
      modifies this
      ensures Valid()
      ensures ok == (old(View(scope)).Commit(current).Some? && o == Fine)
      ensures View(scope) == (if old(View(scope)).Commit(current).Some? && o != FailBefore
                              then old(View(scope)).Commit(current).value else old(View(scope)))
      ensures forall other :: other != scope ==> View(other) == old(View(other))
    {
      var pending := At(scope, Pending);
      if pending.None? || pending.value.receipt != current {
        return false;
      }
      if o != FailBefore {
        Promote(scope);
      }
      return o == Fine;
    }

    /** None is a failed transaction; Some(None) says that no stored decision describes the current output. */
    method RecoverDecision(scope: string, current: Option<Receipt>, o: Outcome) returns (r: Option<Option<Selection.State>>)
      requires Valid()
      modifies this
      ensures Valid()
      ensures r == if Selection.SafeScope(scope) && o == Fine then Some(old(View(scope)).Answer(current)) else None
      ensures View(scope) == (if Selection.SafeScope(scope) && o != FailBefore
                              then old(View(scope)).Recover(current) else old(View(scope)))
      ensures forall other :: other != scope ==> View(other) == old(View(other))
      ensures r.Some? && r.value.Some? ==> r.value.value.Valid()
    {
      if !Selection.SafeScope(scope) || o == FailBefore {
        return None;
      }
      var pending := At(scope, Pending);
      if pending.Some? && current == Some(pending.value.receipt) {
        Promote(scope);
      } else if pending.Some? {
        checkpoints := checkpoints - {(scope, Pending)};
      }
      if o == FailAfter {
        return None;
      }
      var committed := At(scope, Committed);
      if committed.None? || current != Some(committed.value.receipt) {
        return Some(None);
      }
      return Some(Some(committed.value.state));
    }

    method ExpireCheckpoints(cutoff: int)
      requires Valid()
      modifies this
      ensures Valid()
      ensures forall scope :: View(scope) == old(View(scope)).Expire(cutoff)
    {
      checkpoints := map k | k in checkpoints && checkpoints[k].at >= cutoff :: checkpoints[k];
    }
  }

  /** The publisher failed after it had replaced the output, and did not admit that it may have written. */
  ghost predicate DeniedWrite(render: Renderer, fates: Fates, report: Report, error: Option<Failure>, before: Option<Receipt>) {
    && error == Some(PublicationFailed) && fates.publish == FailAfter && !fates.admitsWrite
    && report.decision.Some? && before != render(report.decision.value.selected)
  }

  /** What the report says about the output: `before` and `after` are the receipts it carries. */
  ghost predicate Faithful(request: Request, render: Renderer, fates: Fates, report: Report, error: Option<Failure>,
                           before: Option<Receipt>, after: Option<Receipt>)
  {
    && (report.publication == ReadBackMatches || report.publication == WrittenUnread ==> after == Some(report.intended))
    && (report.publication != NoPublication ==>
          report.decision.Some? && render(report.decision.value.selected) == Some(report.intended))
    && (report.publication == Uncertain ==> after == before || after == Some(report.intended))
    && (error == Some(PublicationFailed) ==>
          report.decision.Some? && report.publication == if fates.admitsWrite then Uncertain else NoPublication)
    && (report.publication == NoPublication ==> (after == before <==> !DeniedWrite(render, fates, report, error, before)))
    && (report.published ==> report.publication == ReadBackMatches)
    && (report.publication == ReadBackMatches || report.publication == WrittenUnread ==>
          (report.changed <==> before != after))
  }

  /** A published decision is the committed checkpoint of the output it produced, and nothing is pending. */
  ghost predicate Durable(request: Request, report: Report, slots: Slots, after: Option<Receipt>) {
    && report.decision.Some? && after.Some?
    && slots == Slots(Some(Row(report.decision.value.next, after.value, request.now)), None)
  }

  /** A constrained decision stays within the limit and follows a refusal. */
  ghost predicate Limited(limit: Limit, fates: Fates, report: Report) {
    report.constrained ==>
      && !fates.grants.0 && limit.Some? && report.decision.Some?
      && forall ref :: ref in report.decision.value.selected ==> ref.id in limit.value
  }

  /** Only a granted decision is applied, and then the report is about it. */
  ghost predicate Settles(report: Report, error: Option<Failure>, granted: Option<Selection.Decision>) {
    if granted.Some? then (report.published <==> error.None?) && (report.decision.Some? ==> report.decision == granted)
    else !report.published && report.publication == NoPublication && error != Some(PublicationFailed)
  }

  class Reconciler {
    const store: Store
    var register: Option<Receipt>
    ghost var history: seq<Row>
    ghost var horizon: int

    constructor (store: Store)
      ensures this.store == store && register == None && history == [] && horizon == 0
    {
      this.store := store;
      register, history, horizon := None, [], 0;
    }

    ghost function At(scope: string, pc: Pc): DecisionStore.State
      reads this, store
    {
      DecisionStore.State(store.View(scope), register, pc, history, horizon)
    }

    /** Rendered and validated content is staged, published, read back and committed, in this order. */
    method Apply(request: Request, decision: Selection.Decision, render: Renderer, fates: Fates, ghost pc: Pc)
      returns (report: Report, error: Option<Failure>, ghost es: seq<Event>)
      requires store.Valid() && decision.next.scope == request.scope && pc.Planned?
      modifies this, store
      ensures store.Valid() && horizon == old(horizon)
      ensures Runs(old(At(request.scope, pc)), es)
      ensures After(old(At(request.scope, pc)), es) == At(request.scope, Idle)
      ensures forall other :: other != request.scope ==> store.View(other) == old(store.View(other))
      ensures report.published <==> error.None?
      ensures report.published ==> Durable(request, report, store.View(request.scope), register)
      ensures report.decision.Some? ==> report.decision.value == decision
      ensures Faithful(request, render, fates, report, error, old(register), register)
      ensures report.publication != NoPublication ==> render(decision.selected) == Some(report.intended)
    {
      ghost var s := At(request.scope, pc);
      var receipt := render(decision.selected);
      if receipt.None? {
        One(s, Stop);
        return NO_REPORT, Some(Render), [Stop];
      }
      ghost var row := Row(decision.next, receipt.value, request.now);
      var staged := store.StageDecision(decision.next, receipt.value, request.now, fates.stage);
      if !staged {
        ghost var e := if decision.next.Valid() && request.now != 0 then Stage(row, fates.stage) else Stop;
        if e.Stage? && e.o == FailAfter {
          history := history + [row];
        }
        One(s, e);
        return NO_REPORT, Some(StateStage), [e];
      }
      history := history + [row];
      One(s, Stage(row, Fine));
      ghost var more;
      report, error, more := Deliver(request, decision, receipt.value, render, fates);
      DecisionStore.RunsAppend(s, [Stage(row, Fine)], more);
      es := [Stage(row, Fine)] + more;
    }

    /** Publish the staged decision, read the receipt back, and commit. */
    method Deliver(request: Request, decision: Selection.Decision, receipt: Receipt, render: Renderer, fates: Fates)
      returns (report: Report, error: Option<Failure>, ghost es: seq<Event>)
      requires store.Valid() && render(decision.selected) == Some(receipt)
      requires store.View(request.scope).pending == Some(Row(decision.next, receipt, request.now))
      modifies this, store
      ensures store.Valid() && horizon == old(horizon) && history == old(history)
      ensures var start := old(At(request.scope, Staged(Row(decision.next, receipt, request.now))));
              Runs(start, es) && After(start, es) == At(request.scope, Idle)
      ensures forall other :: other != request.scope ==> store.View(other) == old(store.View(other))
      ensures report.published <==> error.None?
      ensures report.published ==> Durable(request, report, store.View(request.scope), register)
      ensures report.decision == Some(decision)
      ensures Faithful(request, render, fates, report, error, old(register), register)
      ensures report.publication != NoPublication ==> report.intended == receipt
    {
      ghost var s := At(request.scope, Staged(Row(decision.next, receipt, request.now)));
      var before := register;
      if fates.publish != FailBefore {
        register := Some(receipt);
      }
      One(s, Publish(fates.publish));
      es := [Publish(fates.publish)];
      if fates.publish != Fine {
        report := NO_REPORT.(decision := Some(decision));
        if fates.admitsWrite {
          report := report.(publication := Uncertain, intended := receipt);
        }
        return report, Some(PublicationFailed), es;
      }
      report := Report(Some(decision), false, before != Some(receipt), false, WrittenUnread, receipt, false);
      if !fates.readBack || register != Some(receipt) {
        Snoc(s, es, Stop);
        return report, Some(PublicationReadback), es + [Stop];
      }
      Snoc(s, es, ReadBack);
      es := es + [ReadBack];
      report := report.(publication := ReadBackMatches);
      var committed := store.CommitDecision(request.scope, receipt, fates.commit);
      Snoc(s, es, Commit(fates.commit));
      es := es + [Commit(fates.commit)];
      if !committed {
        return report, Some(StateCommit), es;
      }
      return report.(published := true), None, es;
    }

    /** Plan, reserve and apply, once the store is recovered. */
    method Proceed(request: Request, limit: Limit, previous: Option<Selection.State>, render: Renderer, fates: Fates)
      returns (report: Report, error: Option<Failure>, granted: Option<Selection.Decision>, ghost es: seq<Event>)
      requires store.Valid() && (previous.Some? ==> previous.value.Valid())
      modifies this, store
      ensures store.Valid()
      ensures Runs(old(At(request.scope, Planned(previous))), es)
      ensures After(old(At(request.scope, Planned(previous))), es) == At(request.scope, Idle)
      ensures forall other :: other != request.scope ==> store.View(other) == old(store.View(other))
      ensures Faithful(request, render, fates, report, error, old(register), register)
      ensures report.published ==> error.None? && Durable(request, report, store.View(request.scope), register)
      ensures Limited(limit, fates, report)
      ensures Settles(report, error, granted)
    {
      ghost var s := At(request.scope, Planned(previous));
      var decision, constrained, failure := Decide(request, limit, previous, fates.grants);
      if failure.Some? || decision.selected == [] {
        One(s, Stop);
        es := [Stop];
        report := NO_REPORT;
        if failure.None? {
          report := NO_REPORT.(decision := Some(decision), retained := register.Some?, constrained := constrained);
        }
        return report, failure, None, es;
      }
      report, error, es := Apply(request, decision, render, fates, Planned(previous));
      granted := Some(decision);
      report := report.(constrained := constrained && error.None?);
    }

    /**
     Recover, plan, reserve, and apply. A decision that cannot be reserved is planned once more within the limit; an
     empty decision, or one refused again, leaves the output alone.
     */
    method Reconcile(request: Request, limit: Limit, profileMatches: bool, render: Renderer, fates: Fates)
      returns (report: Report, error: Option<Failure>, granted: Option<Selection.Decision>, ghost es: seq<Event>)
      requires store.Valid()
      modifies this, store
      ensures store.Valid()
      ensures Runs(old(At(request.scope, Idle)), es)
      ensures After(old(At(request.scope, Idle)), es) == At(request.scope, Idle)
      ensures old(Inv(At(request.scope, Idle))) ==> Inv(At(request.scope, Idle))
      ensures forall other :: other != request.scope ==> store.View(other) == old(store.View(other))
      ensures Faithful(request, render, fates, report, error, old(register), register)
      ensures report.published ==> error.None? && Durable(request, report, store.View(request.scope), register)
      ensures Limited(limit, fates, report)
      ensures Settles(report, error, granted)
    {
      ghost var s := At(request.scope, Idle);
      es := [];
      report := NO_REPORT;
      if request.inventory == [] || request.now == 0 || !profileMatches {
        return NO_REPORT, Some(RequestInvalid), None, es;
      }
      if !fates.read {
        return NO_REPORT, Some(PublisherRead), None, es;
      }
      Snoc(s, es, ReadCurrent);
      var previous, recovered := Begin(request.scope, register, fates.recover, es + [ReadCurrent], s);
      es := recovered;
      if previous.None? {
        error, granted := Some(StateRecover), None;
      } else {
        ghost var more;
        report, error, granted, more := Proceed(request, limit, previous.value, render, fates);
        DecisionStore.RunsAppend(s, es, more);
        es := es + more;
      }
      InvAfter(s, es);
    }

    lemma InvAfter(s: DecisionStore.State, es: seq<Event>)
      requires Runs(s, es)
      ensures Inv(s) ==> Inv(After(s, es))
    {
      if Inv(s) {
        RunKeeps(s, es);
      }
    }

    method Begin(scope: string, current: Option<Receipt>, o: Outcome, ghost done: seq<Event>, ghost s: DecisionStore.State)
      returns (previous: Option<Option<Selection.State>>, ghost es: seq<Event>)
      requires store.Valid() && Runs(s, done) && After(s, done) == At(scope, Seen(current))
      modifies store
      ensures store.Valid() && Runs(s, es)
      ensures After(s, es) == At(scope, if previous.Some? then Planned(previous.value) else Idle)
      ensures forall other :: other != scope ==> store.View(other) == old(store.View(other))
      ensures previous.Some? && previous.value.Some? ==> previous.value.value.Valid()
    {
      previous := store.RecoverDecision(scope, current, o);
      ghost var e := if Selection.SafeScope(scope) then Recover(o) else Stop;
      Snoc(s, done, e);
      es := done + [e];
    }

    method Decide(request: Request, limit: Limit, previous: Option<Selection.State>, grants: (bool, bool))
      returns (decision: Selection.Decision, constrained: bool, failure: Option<Failure>)
      requires previous.Some? ==> previous.value.Valid()
      ensures failure.None? ==>
                decision.next.scope == request.scope && Plan(request, if constrained then limit else None, previous) == Ok(decision)
      ensures failure.None? && decision.selected != [] ==> if constrained then !grants.0 && grants.1 else grants.0
      ensures failure.Some? ==> failure.value.PlanFailed? || failure.value.Scheduling?
      ensures failure.None? && constrained ==>
                !grants.0 && limit.Some? && forall ref :: ref in decision.selected ==> ref.id in limit.value
    {
      constrained := false;
      var planned := PlanDecision(request, None, previous);
      if planned.Err? {
        return EMPTY_DECISION, false, Some(PlanFailed(planned.error));
      }
      decision := planned.value;
      if decision.selected == [] || grants.0 {
        return decision, false, None;
      }
      if limit.None? {
        return decision, false, Some(Scheduling);
      }
      planned := PlanWithin(request, limit.value, previous);
      if planned.Err? {
        return decision, true, Some(PlanFailed(planned.error));
      }
      decision := planned.value;
      if decision.selected != [] && !grants.1 {
        return decision, true, Some(Scheduling);
      }
      return decision, true, None;
    }
  }
}
