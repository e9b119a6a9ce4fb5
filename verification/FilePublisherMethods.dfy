/**
 The publisher's methods on its files, with the fate of every operation as a parameter. Each execution, whatever
 fails and wherever the process dies, is a run of the machine in FilePublisher.
 */
module FilePublisherMethods {
  import opened Wrappers
  import opened FilePublisher

  /** What becomes of one operation; Dies means the process ends before or after its effect. */
  datatype Fate = Works | Fails | FailsLate | Dies | DiesLate {
    function Effect(): Outcome {
      match this
      case Works => Fine
      case Fails => FailBefore
      case FailsLate => FailAfter
      case Dies => FailBefore
      case DiesLate => Fine
    }

    predicate Kills() { this == Dies || this == DiesLate }
  }

  datatype RecoverFates = RecoverFates(receipt: Fate, journal: Fate, scanned: bool)

  datatype PublishFates = PublishFates(stage: bool, backup: Fate, journal: Fate, cancelled: bool, rename: Fate,
                                       trusted: bool, receipt: Fate, cleanup: Fate,
                                       restore: Fate, restoreReceipt: Fate, restoreJournal: Fate)

  datatype Answer = Unchanged | Published | Refused | Failed | Died

  lemma {:induction false} RunsSnoc(s: State, es: seq<Event>, e: Event)
    requires Runs(s, es) && Enabled(After(s, es), e)
    ensures Runs(s, es + [e]) && After(s, es + [e]) == Next(After(s, es), e)
    decreases |es|
  {
    if es == [] {
      OneStep(s, e);
    } else {
      assert (es + [e])[1..] == es[1..] + [e];
      RunsSnoc(Next(s, es[0]), es[1..], e);
    }
  }

  lemma {:induction false} RunsAppend(s: State, es: seq<Event>, fs: seq<Event>)
    requires Runs(s, es) && Runs(After(s, es), fs)
    ensures Runs(s, es + fs) && After(s, es + fs) == After(After(s, es), fs)
    decreases |es|
  {
    if es == [] {
      assert es + fs == fs;
    } else {
      assert (es + fs)[1..] == es[1..] + fs;
      RunsAppend(Next(s, es[0]), es[1..], fs);
    }
  }

  ghost predicate OnlyRecovers(es: seq<Event>) {
    forall i :: 0 <= i < |es| ==> es[i].Begin? || es[i].RecoverReceipt? || es[i].RecoverJournal? || es[i].Sweep?
  }

  class Publisher {
    var target: Option<Content>
    var receipt: Option<Receipt>
    var previous: Option<Content>
    var journal: Option<Receipt>
    var temps: nat
    ghost var live: Option<Artifact>

    constructor ()
      ensures View() == Disk(None, None, None, None, 0) && live == None
      ensures Sound(State(View(), Down, live))
    {
      target, receipt, previous, journal, temps, live := None, None, None, None, 0, None;
    }

    function View(): Disk
      reads this
    {
      Disk(target, receipt, previous, journal, temps)
    }

    ghost function At(pc: Pc): State
      reads this
    {
      State(View(), pc, live)
    }

    /** A publication that reports success has its whole pair in place and nothing pending. */
    predicate Outcome(answer: Answer, job: Job)
      reads this
    {
      match answer
      case Published =>
        target == Some(job.wanted.content) && receipt == Some(job.wanted.receipt) && journal.None? && temps == 0
      case Failed => temps == 0
      case Died => true
      case _ => false
    }

    /** Ends with the directory recovered and read, or with an error or a dead process. */
    method Recover(fates: RecoverFates) returns (owned: Option<Option<Artifact>>, ghost es: seq<Event>)
      modifies this`receipt, this`journal, this`temps
      ensures Runs(old(At(Down)), es)
      ensures After(old(At(Down)), es) == At(if owned.Some? then Up(owned.value) else Down)
      ensures OnlyRecovers(es)
    {
      ghost var s := At(Down);
      es := [Begin];
      OneStep(s, Begin);
      if journal.Some? {
        if target.Some? && Matches(target.value, journal.value) {
          if fates.receipt == Dies || fates.receipt == Fails {
            RunsSnoc(s, es, RecoverReceipt(FailBefore));
            es := es + [RecoverReceipt(FailBefore)];
            return None, es;
          }
          receipt := journal;
          RunsSnoc(s, es, RecoverReceipt(if fates.receipt == Works then Fine else FailAfter));
          es := es + [RecoverReceipt(if fates.receipt == Works then Fine else FailAfter)];
          if fates.receipt != Works {
            return None, es;
          }
        }
        if fates.journal == Dies || fates.journal == Fails {
          RunsSnoc(s, es, RecoverJournal(FailBefore));
          es := es + [RecoverJournal(FailBefore)];
          return None, es;
        }
        journal := None;
        RunsSnoc(s, es, RecoverJournal(if fates.journal == Works then Fine else FailAfter));
        es := es + [RecoverJournal(if fates.journal == Works then Fine else FailAfter)];
        if fates.journal != Works {
          return None, es;
        }
      }
      RunsSnoc(s, es, Sweep(fates.scanned));
      es := es + [Sweep(fates.scanned)];
      if !fates.scanned {
        return None, es;
      }
      temps := 0;
      var current := CurrentOwned(View());
      return if current.Ok? then Some(current.value) else None, es;
    }

    /** The old pair comes back as far as the operations work; the journal goes last. */
    method Undo(job: Job, fates: PublishFates) returns (answer: Answer, ghost es: seq<Event>)
      modifies this
      ensures Runs(old(At(Rollback(job))), es)
      ensures After(old(At(Rollback(job))), es) == At(Down)
      ensures Outcome(answer, job)
      ensures live == old(live) || live == job.had || live == Some(job.wanted)
    {
      ghost var s := At(Rollback(job));
      es := [];
      if fates.restore == Dies {
        RunsSnoc(s, es, Crash);
        return Died, [Crash];
      }
      if fates.restore != Fails {
        if job.had.Some? {
          target, previous := previous, None;
        } else {
          target := None;
        }
        live := job.had;
      }
      es := [Restore(fates.restore != Fails)];
      OneStep(s, es[0]);
      if fates.restore == DiesLate || fates.restoreReceipt == Dies {
        RunsSnoc(s, es, Crash);
        return Died, es + [Crash];
      }
      if fates.restoreReceipt != Fails {
        receipt := if job.had.Some? then Some(job.had.value.receipt) else None;
      }
      RunsSnoc(s, es, RestoreReceipt(if fates.restoreReceipt != Fails then Fine else FailBefore));
      es := es + [RestoreReceipt(if fates.restoreReceipt != Fails then Fine else FailBefore)];
      if fates.restoreReceipt == DiesLate || fates.restoreJournal == Dies {
        RunsSnoc(s, es, Crash);
        return Died, es + [Crash];
      }
      if fates.restoreJournal != Fails {
        journal := None;
      }
      temps := 0;
      RunsSnoc(s, es, RestoreJournal(fates.restoreJournal != Fails));
      return Failed, es + [RestoreJournal(fates.restoreJournal != Fails)];
    }

    /** From the journal on: rename the target, read it back, write the receipt, remove the journal. */
    method Switch(job: Job, fates: PublishFates) returns (answer: Answer, ghost es: seq<Event>)
      modifies this
      ensures Runs(old(At(Journaled(job))), es)
      ensures After(old(At(Journaled(job))), es) == At(Down)
      ensures Outcome(answer, job)
      ensures live == old(live) || live == job.had || live == Some(job.wanted)
    {
      ghost var s := At(Journaled(job));
      es := [];
      if fates.rename == Dies {
        OneStep(s, Crash);
        return Died, [Crash];
      }
      if fates.cancelled || fates.rename == Fails {
        if fates.restoreJournal != Fails {
          journal := None;
        }
        temps := 0;
        OneStep(s, GiveUp(fates.restoreJournal != Fails));
        return Failed, [GiveUp(fates.restoreJournal != Fails)];
      }
      target := Some(job.wanted.content);
      temps := if temps > 0 then temps - 1 else 0;
      live := Some(job.wanted);
      OneStep(s, RenameTarget);
      es := [RenameTarget];
      ghost var more;
      answer, more := Confirm(job, fates);
      RunsAppend(s, es, more);
      return answer, es + more;
    }

    method Confirm(job: Job, fates: PublishFates) returns (answer: Answer, ghost es: seq<Event>)
      modifies this
      ensures Runs(old(At(Renamed(job))), es)
      ensures After(old(At(Renamed(job))), es) == At(Down)
      ensures Outcome(answer, job)
      ensures live == old(live) || live == job.had || live == Some(job.wanted)
    {
      ghost var s := At(Renamed(job));
      ghost var more;
      if fates.rename == DiesLate || fates.receipt == Dies {
        OneStep(s, Crash);
        return Died, [Crash];
      }
      if !fates.trusted || target != Some(job.wanted.content) {
        OneStep(s, Distrust);
        answer, more := Undo(job, fates);
        RunsAppend(s, [Distrust], more);
        return answer, [Distrust] + more;
      }
      if fates.receipt != Fails {
        receipt := Some(job.wanted.receipt);
      }
      if fates.receipt == Fails || fates.receipt == FailsLate {
        ghost var e := WriteReceipt(if fates.receipt == Fails then FailBefore else FailAfter);
        OneStep(s, e);
        answer, more := Undo(job, fates);
        RunsAppend(s, [e], more);
        return answer, [e] + more;
      }
      OneStep(s, WriteReceipt(Fine));
      es := [WriteReceipt(Fine)];
      if fates.receipt == DiesLate || fates.cleanup == Dies {
        RunsSnoc(s, es, Crash);
        return Died, es + [Crash];
      }
      if fates.cleanup != Fails {
        journal := None;
      }
      temps := 0;
      ghost var e := RemoveJournal(if fates.cleanup == Fails then FailBefore else if fates.cleanup == FailsLate then FailAfter else Fine);
      RunsSnoc(s, es, e);
      return if fates.cleanup == Works then Published else Failed, es + [e];
    }

    /** Back up the current content and write the journal. */
    method Prepare(job: Job, fates: PublishFates) returns (answer: Answer, ghost es: seq<Event>)
      modifies this
      ensures Runs(old(At(Staged(job))), es)
      ensures After(old(At(Staged(job))), es) == At(Down)
      ensures Outcome(answer, job)
      ensures live == old(live) || live == job.had || live == Some(job.wanted)
    {
      ghost var s := At(Staged(job));
      if fates.backup.Kills() && job.had.Some? {
        if fates.backup == DiesLate {
          previous := Some(job.had.value.content);
          OneStep(s, Backup(Fine));
          RunsSnoc(s, [Backup(Fine)], Crash);
          return Died, [Backup(Fine)] + [Crash];
        }
        OneStep(s, Crash);
        return Died, [Crash];
      }
      if job.had.Some? {
        if fates.backup != Fails {
          previous := Some(job.had.value.content);
        }
        if fates.backup != Works {
          temps := 0;
          OneStep(s, Backup(fates.backup.Effect()));
          return Failed, [Backup(fates.backup.Effect())];
        }
      }
      OneStep(s, Backup(Fine));
      ghost var more;
      answer, more := Commit(job, fates);
      RunsAppend(s, [Backup(Fine)], more);
      return answer, [Backup(Fine)] + more;
    }

    method Commit(job: Job, fates: PublishFates) returns (answer: Answer, ghost es: seq<Event>)
      modifies this
      ensures Runs(old(At(Backed(job))), es)
      ensures After(old(At(Backed(job))), es) == At(Down)
      ensures Outcome(answer, job)
      ensures live == old(live) || live == job.had || live == Some(job.wanted)
    {
      ghost var s := At(Backed(job));
      if fates.journal == Dies {
        OneStep(s, Crash);
        return Died, [Crash];
      }
      if fates.journal != Fails {
        journal := Some(job.wanted.receipt);
      }
      if fates.journal == Fails || fates.journal == FailsLate {
        temps := 0;
        OneStep(s, WriteJournal(fates.journal.Effect()));
        return Failed, [WriteJournal(fates.journal.Effect())];
      }
      OneStep(s, WriteJournal(Fine));
      ghost var more;
      if fates.journal == DiesLate {
        RunsSnoc(s, [WriteJournal(Fine)], Crash);
        return Died, [WriteJournal(Fine)] + [Crash];
      }
      answer, more := Switch(job, fates);
      RunsAppend(s, [WriteJournal(Fine)], more);
      return answer, [WriteJournal(Fine)] + more;
    }

    /** Stage an artifact over the owned output, unless that carries its content already. */
    method Offer(wanted: Artifact, had: Option<Artifact>, fates: PublishFates) returns (answer: Answer, ghost es: seq<Event>)
      requires wanted.Valid()
      modifies this
      ensures Runs(old(At(Up(had))), es) && After(old(At(Up(had))), es) == At(Down)
      ensures answer == Published ==> Outcome(answer, Job(wanted, had))
      ensures answer == Unchanged ==> live == old(live) && had.Some? && had.value.content == wanted.content
      ensures live == old(live) || live == had || live == Some(wanted)
    {
      ghost var s := At(Up(had));
      if had.Some? && had.value.content == wanted.content {
        OneStep(s, Ask(wanted, true));
        answer := if had.value.receipt.Receipt? && had.value.receipt.profile == wanted.receipt.profile then Unchanged else Refused;
        return answer, [Ask(wanted, true)];
      }
      if !fates.stage {
        OneStep(s, Ask(wanted, false));
        return Failed, [Ask(wanted, false)];
      }
      temps := temps + 1;
      OneStep(s, Ask(wanted, true));
      ghost var more;
      answer, more := Prepare(Job(wanted, had), fates);
      RunsAppend(s, [Ask(wanted, true)], more);
      return answer, [Ask(wanted, true)] + more;
    }

    /** Publish a validated artifact. Returning or dying, the files are those of a run of the machine. */
    method Publish(wanted: Artifact, recover: RecoverFates, fates: PublishFates) returns (answer: Answer, ghost es: seq<Event>)
      requires wanted.Valid()
      modifies this
      ensures Runs(old(At(Down)), es)
      ensures After(old(At(Down)), es) == At(Down)
      ensures old(Sound(At(Down))) && Harmless(old(At(Down)), es) ==> Sound(At(Down))
      ensures answer == Published ==> CurrentOwned(View()) == Ok(Some(wanted)) && journal.None? && temps == 0
      ensures old(Sound(At(Down))) ==> live == old(live) || live == Some(wanted)
      ensures old(Sound(At(Down))) && answer == Unchanged ==> live == old(live) && ContentOf(live) == Some(wanted.content)
    {
      ghost var s := At(Down);
      ghost var more;
      var owned: Option<Option<Artifact>>;
      owned, es := Recover(recover);
      if Sound(s) {
        ReadIsHarmless(s, es);
        RunKeeps(s, es);
      }
      if owned.Some? {
        answer, more := Offer(wanted, owned.value, fates);
        RunsAppend(s, es, more);
        es := es + more;
      } else {
        answer := Failed;
      }
      if Sound(s) && Harmless(s, es) {
        RunKeeps(s, es);
      }
    }

    /** The receipt of the owned output after recovery; reading publishes nothing. */
    method CurrentReceipt(recover: RecoverFates) returns (r: Result<Option<Receipt>, Answer>, ghost es: seq<Event>)
      modifies this
      ensures Runs(old(At(Down)), es) && After(old(At(Down)), es) == At(Down)
      ensures old(Sound(At(Down))) ==> Sound(At(Down)) && live == old(live)
      ensures old(Sound(At(Down))) && r.Ok? ==> r.value == ReceiptOf(live)
    {
      ghost var s := At(Down);
      var owned: Option<Option<Artifact>>;
      owned, es := Recover(recover);
      if Sound(s) {
        ReadIsHarmless(s, es);
        RunKeeps(s, es);
      }
      if owned.Some? {
        RunsSnoc(s, es, Read);
        es := es + [Read];
        r := Ok(ReceiptOf(owned.value));
      } else {
        r := Err(Failed);
      }
    }
  }

  lemma {:induction false} ReadIsHarmless(s: State, es: seq<Event>)
    requires Runs(s, es) && OnlyRecovers(es) && NotUndoing(s)
    ensures Harmless(s, es)
    decreases |es|
  {
    if es == [] {
    } else {
      ReadIsHarmless(Next(s, es[0]), es[1..]);
    }
  }
}
