/**
 The end of one Gateway run: what the operator does with its reservation after a reconciliation, and why the probe
 context's view of the Gateway's output stays in line with the output itself.
 */
module GatewayRuns {
  import opened Wrappers
  import opened Finite
  import Selection
  import Planning
  import R = Reconcile
  import PC = ProbeContext
  import PR = ProbeRuns
  import PS = ProbeStates

  /** What a receipt's output carries. */
  type Contents = PC.Receipt -> set<PC.Id>

  /** Receipts identify what they carry. */
  ghost predicate Identifies(carries: Contents, render: R.Renderer) {
    forall refs :: render(refs).Some? ==> carries(render(refs).value) == ToSet(Planning.Ids(refs))
  }

  /** What the context believes to be the Gateway's output is the register. */
  ghost predicate Linked(w: PR.World, g: PC.Uid, register: Option<PC.Receipt>, carries: Contents) {
    g in w.live ==> register == Some(w.live[g].receipt) && w.live[g].ids == carries(w.live[g].receipt)
  }

  /** The event a run ends with, if any; `landed` says whether the output carries the intended receipt. */
  function Emitted(granted: Option<Selection.Decision>, report: R.Report, error: Option<R.Failure>, now: nat, landed: bool): Option<PR.Event> {
    if granted.None? then
      if error.None? && report.decision.Some? then Some(PR.Verdicts(Planning.Scheduling(report.decision.value))) else None
    else if error.None? && report.published then Some(PR.Published(report.intended))
    else if report.publication != R.NoPublication then Some(PR.Unconfirmed(report.intended, now, landed))
    else Some(PR.GiveUp)
  }

  /** The reservation that a run holds is the one for the decision it was granted. */
  ghost predicate HeldFor(w: PR.World, g: PC.Uid, decision: Selection.Decision) {
    && w.open.Some? && w.open.value.gateway == g && w.probe.Pending(g)
    && w.probe.demand[g].selected == Planning.Ids(decision.selected)
  }

  /**
   The event a granted run ends with is possible, closes the reservation, and leaves the context in line with the
   output, unless the publisher denied a write over an output the context knows: then, and only then, it does not.
   */
  lemma SwitchIsSound(w: PR.World, g: PC.Uid, decision: Selection.Decision, request: Planning.Request, render: R.Renderer,
                      fates: R.Fates, report: R.Report, error: Option<R.Failure>, before: Option<PC.Receipt>,
                      after: Option<PC.Receipt>, carries: Contents, capacity: nat, isDefault: bool)
    requires HeldFor(w, g, decision) && Linked(w, g, before, carries) && Identifies(carries, render)
    requires R.Faithful(request, render, fates, report, error, before, after) && R.Settles(report, error, Some(decision))
    ensures var e := Emitted(Some(decision), report, error, request.now, after == Some(report.intended));
            && e.Some? && PR.Enabled(w, e.value)
            && var n := PR.Next(w, e.value, capacity, isDefault);
               && n.open.None?
               && (Linked(n, g, after, carries) <==> !(g in w.live && R.DeniedWrite(render, fates, report, error, before)))
  {
    if report.publication == R.NoPublication {
      assert Emitted(Some(decision), report, error, request.now, after == Some(report.intended)) == Some(PR.GiveUp);
    } else {
      assert carries(report.intended) == ToSet(Planning.Ids(decision.selected));
      if error.None? && report.published {
        CommitLinks(w, g, report.intended, after, carries, capacity, isDefault);
      } else {
        HoldLinks(w, g, report.intended, request.now, before, after, carries, capacity, isDefault);
      }
    }
  }

  lemma CommitLinks(w: PR.World, g: PC.Uid, receipt: PC.Receipt, after: Option<PC.Receipt>, carries: Contents, capacity: nat, isDefault: bool)
    requires w.open.Some? && w.open.value.gateway == g && w.probe.Pending(g)
    requires carries(receipt) == ToSet(w.probe.demand[g].selected) && after == Some(receipt)
    ensures PR.Enabled(w, PR.Published(receipt))
    ensures var n := PR.Next(w, PR.Published(receipt), capacity, isDefault); n.open.None? && Linked(n, g, after, carries)
  {
  }

  lemma HoldLinks(w: PR.World, g: PC.Uid, receipt: PC.Receipt, now: nat, before: Option<PC.Receipt>, after: Option<PC.Receipt>,
                  carries: Contents, capacity: nat, isDefault: bool)
    requires w.open.Some? && w.open.value.gateway == g && w.probe.Pending(g) && Linked(w, g, before, carries)
    requires carries(receipt) == ToSet(w.probe.demand[g].selected) && (after == before || after == Some(receipt))
    ensures var e := PR.Unconfirmed(receipt, now, after == Some(receipt));
            && PR.Enabled(w, e)
            && var n := PR.Next(w, e, capacity, isDefault); n.open.None? && Linked(n, g, after, carries)
  {
  }

  /** A run that was refused, or planned nothing, emits verdicts at most and leaves output and context alone. */
  lemma RefusedRunIsQuiet(w: PR.World, g: PC.Uid, request: Planning.Request, render: R.Renderer, fates: R.Fates,
                          report: R.Report, error: Option<R.Failure>, before: Option<PC.Receipt>, after: Option<PC.Receipt>,
                          carries: Contents, capacity: nat, isDefault: bool)
    requires w.open.None? && Linked(w, g, before, carries)
    requires R.Faithful(request, render, fates, report, error, before, after) && R.Settles(report, error, None)
    ensures after == before
    ensures var e := Emitted(None, report, error, request.now, false);
            e.Some? ==> PR.Enabled(w, e.value) && Linked(PR.Next(w, e.value, capacity, isDefault), g, after, carries)
  {
  }

  /** Comparing the register with the receipt of the unresolved attempt is a truthful read. */
  lemma ReadIsTruthful(w: PR.World, g: PC.Uid, register: Option<PC.Receipt>, carries: Contents, capacity: nat, isDefault: bool)
    requires PR.Inv(w, capacity) && w.open.None? && Linked(w, g, register, carries) && g in w.tried
    requires w.tried[g].ids == carries(w.tried[g].receipt)
    ensures var open := w.probe.OpenAttempt(g);
            && open.Some?
            && var e := PR.Settle(g, open.value.1, register == Some(open.value.0));
               PR.Enabled(w, e) && Linked(PR.Next(w, e, capacity, isDefault), g, register, carries)
  {
    PR.AttemptIsTried(w, g, capacity);
  }

  // ----- in place

  function Explained(d: Selection.Decision): (r: seq<PS.Explanation>)
    ensures |r| == |d.explanations|
    ensures forall i :: 0 <= i < |r| ==> r[i] == Verdict(d.explanations[i])
  {
    seq(|d.explanations|, i requires 0 <= i < |d.explanations| => Verdict(d.explanations[i]))
  }

  function Verdict(e: Selection.Explanation): PS.Explanation {
    PS.Explanation(e.ref.id, e.reason == Selection.FailureStreak || e.reason == Selection.Unreliable)
  }

  lemma SameVerdicts(d: Selection.Decision)
    ensures PS.FailedIn(Explained(d)) == Planning.Scheduling(d).failed
  {
    forall id | id in Planning.Scheduling(d).failed
      ensures id in PS.FailedIn(Explained(d))
    {
      var e :| e in d.explanations && (e.reason == Selection.FailureStreak || e.reason == Selection.Unreliable) && e.ref.id == id;
      var i :| 0 <= i < |d.explanations| && d.explanations[i] == e;
      assert Explained(d)[i] in Explained(d);
    }
    forall id | id in PS.FailedIn(Explained(d))
      ensures id in Planning.Scheduling(d).failed
    {
      var v :| v in Explained(d) && v.failed && v.id == id;
      var i :| 0 <= i < |Explained(d)| && Explained(d)[i] == v;
      assert d.explanations[i] in d.explanations;
    }
  }

  /** The switch at the end of a run, on the state it updates. */
  method FinishRun(state: PS.ProbeState, reservation: Option<PC.Reservation>, report: R.Report, error: Option<R.Failure>,
                   now: nat, capacity: nat)
    modifies state
    ensures var was := old(state.View());
            state.View() ==
            if reservation.None? then
              if error.None? && report.decision.Some? then was.ObserveVerdicts(Planning.Scheduling(report.decision.value)) else was
            else if error.None? && report.published then was.Commit(reservation.value, capacity)
            else if report.publication != R.NoPublication then was.Hold(reservation.value, report.intended, now, capacity)
            else was.Release(reservation.value)
  {
    if reservation.None? {
      if error.None? && report.decision.Some? {
        SameVerdicts(report.decision.value);
        state.ObserveVerdicts(Explained(report.decision.value));
        assert state.View() == old(state.View()).ObserveVerdicts(
          PC.Decision(Planning.Ids(report.decision.value.selected), PS.FailedIn(Explained(report.decision.value))));
      }
    } else if error.None? && report.published {
      state.CommitSelection(reservation.value, capacity);
    } else if report.publication != R.NoPublication {
      state.HoldUncertain(reservation.value, report.intended, now, capacity);
    } else {
      state.ReleaseSelection(reservation.value);
    }
  }
}
