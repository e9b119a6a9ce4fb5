/** What the protocols achieve when nothing fails: the runs their invariants are about exist and end where they should. */
module Undisturbed {
  import opened Wrappers
  import opened Finite
  import FP = FilePublisher
  import FM = FilePublisherMethods
  import DS = DecisionStore
  import PC = ProbeContext
  import PA = ProbeAdmission
  import PV = ProbeReservation
  import PR = ProbeRuns

  // ----- the file publisher

  function PublicationScript(wanted: FP.Artifact): seq<FP.Event> {
    [FP.Ask(wanted, true), FP.Backup(FP.Fine), FP.WriteJournal(FP.Fine), FP.RenameTarget, FP.WriteReceipt(FP.Fine), FP.RemoveJournal(FP.Fine)]
  }

  lemma PublicationSteps(s: FP.State, wanted: FP.Artifact)
    requires FP.Inv(s) && s.pc.Up? && wanted.Valid() && FP.ContentOf(s.live) != Some(wanted.content)
    ensures var es := PublicationScript(wanted);
            && FP.Runs(s, es)
            && var n := FP.After(s, es);
               n.pc.Down? && n.live == Some(wanted) && n.disk.journal.None? && FP.CurrentOwned(n.disk) == Ok(Some(wanted))
  {
    var es := PublicationScript(wanted);
    FP.OneStep(s, es[0]);
    FM.RunsSnoc(s, [es[0]], es[1]);
    FM.RunsSnoc(s, [es[0]] + [es[1]], es[2]);
    FM.RunsSnoc(s, [es[0]] + [es[1]] + [es[2]], es[3]);
    FM.RunsSnoc(s, [es[0]] + [es[1]] + [es[2]] + [es[3]], es[4]);
    FM.RunsSnoc(s, [es[0]] + [es[1]] + [es[2]] + [es[3]] + [es[4]], es[5]);
    assert es == [es[0]] + [es[1]] + [es[2]] + [es[3]] + [es[4]] + [es[5]];
  }

  /**
   From any recoverable directory, recovery and publication without a failure end with exactly the new pair owned, and
   no step on the way is harmful.
   */
  lemma PublicationSucceeds(s: FP.State, wanted: FP.Artifact)
    requires s.pc.Down? && FP.Sound(s) && wanted.Valid() && FP.ContentOf(s.live) != Some(wanted.content)
    ensures var es := FP.RecoveryScript(s.disk) + PublicationScript(wanted);
            && FP.Runs(s, es) && FP.Harmless(s, es)
            && var n := FP.After(s, es);
               n.pc.Down? && n.live == Some(wanted) && n.disk.journal.None? && FP.CurrentOwned(n.disk) == Ok(Some(wanted))
  {
    var first, rest := FP.RecoveryScript(s.disk), PublicationScript(wanted);
    FP.RecoveryCompletes(s);
    var up := FP.After(s, first);
    PublicationSteps(up, wanted);
    FM.RunsAppend(s, first, rest);
    FP.NoRollbackHarmless(s, first + rest);
  }

  // ----- the decision store

  function ReconcileScript(row: DS.Row): seq<DS.Event> {
    [DS.ReadCurrent, DS.Recover(DS.Fine), DS.Stage(row, DS.Fine), DS.Publish(DS.Fine), DS.ReadBack, DS.Commit(DS.Fine)]
  }

  /** A reconciliation without a failure commits its checkpoint for the output it published, whatever was there before. */
  lemma ReconciliationSucceeds(s: DS.State, row: DS.Row)
    requires s.pc.Idle?
    ensures var es := ReconcileScript(row);
            && DS.Runs(s, es)
            && DS.After(s, es) == s.(slots := DS.Slots(Some(row), None), register := Some(row.receipt), history := s.history + [row])
  {
    var es := ReconcileScript(row);
    DS.One(s, es[0]);
    DS.Snoc(s, [es[0]], es[1]);
    DS.Snoc(s, [es[0]] + [es[1]], es[2]);
    DS.Snoc(s, [es[0]] + [es[1]] + [es[2]], es[3]);
    DS.Snoc(s, [es[0]] + [es[1]] + [es[2]] + [es[3]], es[4]);
    DS.Snoc(s, [es[0]] + [es[1]] + [es[2]] + [es[3]] + [es[4]], es[5]);
    assert es == [es[0]] + [es[1]] + [es[2]] + [es[3]] + [es[4]] + [es[5]];
  }

  // ----- the shared cohort

  lemma AskOpens(w: PR.World, g: PC.Uid, decision: PC.Decision, now: nat, capacity: nat, isDefault: bool)
    requires PR.Inv(w, capacity) && w.open.None?
    requires PV.Granted(w.probe, g, decision, now, capacity) && decision.failed !! ToSet(decision.selected)
    ensures var n := PR.Next(w, PR.Ask(g, decision, now), capacity, isDefault);
            && n.open.Some? && n.open.value.gateway == g && PV.Open(n.probe, n.open.value, capacity)
            && n.probe.Pending(g) && n.probe.demand[g].selected == decision.selected
            && n.probe.rejected !! ToSet(decision.selected)
  {
    PR.EventKeeps(w, PR.Ask(g, decision, now), capacity, isDefault);
  }

  /** Publishing an open reservation none of whose endpoints is rejected. */
  lemma PublishDelivers(w: PR.World, receipt: PC.Receipt, capacity: nat, isDefault: bool)
    requires w.open.Some? && PV.Open(w.probe, w.open.value, capacity) && w.probe.Pending(w.open.value.gateway)
    requires w.probe.rejected !! ToSet(w.probe.demand[w.open.value.gateway].selected)
    ensures var n, g := PR.Next(w, PR.Published(receipt), capacity, isDefault), w.open.value.gateway;
            && g in n.live && n.live[g] == PR.Output(receipt, ToSet(w.probe.demand[g].selected))
            && n.open.None? && g in n.probe.demand && n.probe.demand[g].selected == w.probe.demand[g].selected
            && ToSet(w.probe.demand[g].selected) <= ToSet(n.probe.cohort)
  {
    PV.OneRevisionPerId(w.probe, w.open.value, capacity);
    PV.CommitKeepsSelectionIff(w.probe, w.open.value, capacity);
  }

  lemma TwoEvents(w: PR.World, d: PR.Event, e: PR.Event, capacity: nat, isDefault: bool)
    requires PR.Enabled(w, d) && PR.Enabled(PR.Next(w, d, capacity, isDefault), e)
    ensures PR.Runs(w, [d, e], capacity, isDefault)
    ensures PR.After(w, [d, e], capacity, isDefault) == PR.Next(PR.Next(w, d, capacity, isDefault), e, capacity, isDefault)
  {
    assert [d, e][1..] == [e] && [e][1..] == [];
    var n := PR.Next(w, d, capacity, isDefault);
    assert PR.Runs(n, [e], capacity, isDefault);
    assert PR.After(n, [e], capacity, isDefault) == PR.Next(n, e, capacity, isDefault);
  }

  /**
   A granted decision that rejects none of the endpoints it selects and is then published becomes the Gateway's demand
   in full and is maintained in full.
   */
  lemma PublishedIsMaintained(w: PR.World, g: PC.Uid, decision: PC.Decision, now: nat, receipt: PC.Receipt, capacity: nat, isDefault: bool)
    requires PR.Inv(w, capacity) && w.open.None?
    requires PV.Granted(w.probe, g, decision, now, capacity) && decision.failed !! ToSet(decision.selected)
    ensures var es := [PR.Ask(g, decision, now), PR.Published(receipt)];
            && PR.Runs(w, es, capacity, isDefault)
            && var n := PR.After(w, es, capacity, isDefault);
               && g in n.live && n.live[g] == PR.Output(receipt, ToSet(decision.selected))
               && n.open.None? && g in n.probe.demand && n.probe.demand[g].selected == decision.selected
               && ToSet(decision.selected) <= ToSet(n.probe.cohort)
  {
    AskOpens(w, g, decision, now, capacity, isDefault);
    PublishDelivers(PR.Next(w, PR.Ask(g, decision, now), capacity, isDefault), receipt, capacity, isDefault);
    TwoEvents(w, PR.Ask(g, decision, now), PR.Published(receipt), capacity, isDefault);
  }
}
