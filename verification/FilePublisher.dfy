/**
 The file publisher as a step machine over its four files. Effects persist in order; a crash may come between any
 two of them, and each operation may fail before or after its effect. A digest is its input, so distinct contents
 never match one receipt.
 */
module FilePublisher {
  import opened Wrappers

  type Content = string

  datatype Digest = Digest(profile: string, content: Content)

  /** A protected receipt as read from a file: decodable, or anything else. */
  datatype Receipt = Receipt(profile: string, validator: string, generation: Digest) | Garbage(bytes: string)

  predicate Matches(content: Content, r: Receipt) {
    r.Receipt? && r.generation == Digest(r.profile, content)
  }

  /** A validated artifact: its content and the receipt that vouches for it. */
  datatype Artifact = Artifact(content: Content, receipt: Receipt) {
    predicate Valid() { Matches(content, receipt) }
  }

  datatype Disk = Disk(target: Option<Content>, receipt: Option<Receipt>, previous: Option<Content>,
                       journal: Option<Receipt>, temps: nat)

  datatype Fault = OrphanReceipt | UnmanagedTarget | ReceiptMismatch

  /** The owned pair, nothing, or an ownership conflict. */
  function CurrentOwned(d: Disk): Result<Option<Artifact>, Fault> {
    if d.target.None? then (if d.receipt.Some? then Err(OrphanReceipt) else Ok(None))
    else if d.receipt.None? then Err(UnmanagedTarget)
    else if !Matches(d.target.value, d.receipt.value) then Err(ReceiptMismatch)
    else Ok(Some(Artifact(d.target.value, d.receipt.value)))
  }

  predicate JournalMatches(d: Disk) {
    d.journal.Some? && d.target.Some? && Matches(d.target.value, d.journal.value)
  }

  /** What a recovery that runs to its end leaves. */
  function Recovered(d: Disk): Disk {
    Disk(d.target, if JournalMatches(d) then d.journal else d.receipt, d.previous, None, 0)
  }

  /** One publication: what to publish and what was current when it began. */
  datatype Job = Job(wanted: Artifact, had: Option<Artifact>)

  datatype Pc =
    | Down
    | Deciding(matched: bool)
    | ReceiptRestored
    | JournalGone
    | Up(had: Option<Artifact>)
    | Staged(job: Job)
    | Backed(job: Job)
    | Journaled(job: Job)
    | Renamed(job: Job)
    | Receipted(job: Job)
    | Rollback(job: Job)
    | Undo(job: Job)
    | Undone(job: Job)

  /** An operation that works, fails without effect, or fails after its effect (a directory sync). */
  datatype Outcome = Fine | FailBefore | FailAfter

  datatype Event =
    | Begin
    | RecoverReceipt(o: Outcome)
    | RecoverJournal(o: Outcome)
    | Sweep(scanned: bool)
    | Read
    | Ask(wanted: Artifact, staged: bool)
    | Backup(o: Outcome)
    | WriteJournal(o: Outcome)
    | GiveUp(removed: bool)
    | RenameTarget
    | Distrust
    | WriteReceipt(o: Outcome)
    | RemoveJournal(o: Outcome)
    | Restore(ok: bool)
    | RestoreReceipt(o: Outcome)
    | RestoreJournal(ok: bool)
    | Crash

  /** `live` is the pair a recovery must yield: it changes when the target is renamed or restored. */
  datatype State = State(disk: Disk, pc: Pc, live: Option<Artifact>)

  predicate Enabled(s: State, e: Event) {
    match e
    case Begin => s.pc.Down?
    case RecoverReceipt(_) => s.pc == Deciding(true) && s.disk.journal.Some?
    case RecoverJournal(_) => s.pc == Deciding(false) || s.pc.ReceiptRestored?
    case Sweep(_) => s.pc.JournalGone?
    case Read => s.pc.Up?
    case Ask(wanted, _) => s.pc.Up? && wanted.Valid()
    case Backup(_) => s.pc.Staged?
    case WriteJournal(_) => s.pc.Backed?
    case GiveUp(_) => s.pc.Journaled?
    case RenameTarget => s.pc.Journaled?
    case Distrust => s.pc.Renamed?
    case WriteReceipt(_) => s.pc.Renamed?
    case RemoveJournal(_) => s.pc.Receipted?
    case Restore(_) => s.pc.Rollback?
    case RestoreReceipt(_) => s.pc.Undo?
    case RestoreJournal(_) => s.pc.Undone?
    case Crash => true
  }

  /** Returning to the caller removes the operation's own temporaries. */
  function Return(d: Disk): Disk { d.(temps := 0) }

  function Next(s: State, e: Event): State
    requires Enabled(s, e)
  {
    var d := s.disk;
    match e
    case Begin =>
      s.(pc := if d.journal.None? then JournalGone else Deciding(JournalMatches(d)))
    case RecoverReceipt(o) =>
      s.(disk := if o == FailBefore then d else d.(receipt := d.journal), pc := if o == Fine then ReceiptRestored else Down)
    case RecoverJournal(o) =>
      s.(disk := if o == FailBefore then d else d.(journal := None), pc := if o == Fine then JournalGone else Down)
    case Sweep(scanned) =>
      var owned := CurrentOwned(d);
      if !scanned then s.(pc := Down)
      else s.(disk := d.(temps := 0), pc := if owned.Ok? then Up(owned.value) else Down)
    case Read => s.(pc := Down)
    case Ask(wanted, staged) =>
      if (s.pc.had.Some? && s.pc.had.value.content == wanted.content) || !staged then s.(pc := Down)
      else s.(disk := d.(temps := d.temps + 1), pc := Staged(Job(wanted, s.pc.had)))
    case Backup(o) =>
      var job := s.pc.job;
      if job.had.None? then s.(pc := Backed(job))
      else
        var e := if o == FailBefore then d else d.(previous := Some(job.had.value.content));
        if o == Fine then s.(disk := e, pc := Backed(job)) else s.(disk := Return(e), pc := Down)
    case WriteJournal(o) =>
      var e := if o == FailBefore then d else d.(journal := Some(s.pc.job.wanted.receipt));
      if o == Fine then s.(disk := e, pc := Journaled(s.pc.job)) else s.(disk := Return(e), pc := Down)
    case GiveUp(removed) =>
      s.(disk := Return(if removed then d.(journal := None) else d), pc := Down)
    case RenameTarget =>
      s.(disk := d.(target := Some(s.pc.job.wanted.content), temps := if d.temps > 0 then d.temps - 1 else 0),
      pc := Renamed(s.pc.job), live := Some(s.pc.job.wanted))
    case Distrust => s.(pc := Rollback(s.pc.job))
    case WriteReceipt(o) =>
      s.(disk := if o == FailBefore then d else d.(receipt := Some(s.pc.job.wanted.receipt)),
      pc := if o == Fine then Receipted(s.pc.job) else Rollback(s.pc.job))
    case RemoveJournal(o) =>
      s.(disk := Return(if o == FailBefore then d else d.(journal := None)), pc := Down)
    case Restore(ok) =>
      var job := s.pc.job;
      if !ok then s.(pc := Undo(job))
      else if job.had.Some? then s.(disk := d.(target := d.previous, previous := None), pc := Undo(job), live := job.had)
      else s.(disk := d.(target := None), pc := Undo(job), live := job.had)
    case RestoreReceipt(o) =>
      var earlier := if s.pc.job.had.Some? then Some(s.pc.job.had.value.receipt) else None;
      s.(disk := if o == FailBefore then d else d.(receipt := earlier), pc := Undone(s.pc.job))
    case RestoreJournal(ok) =>
      s.(disk := Return(if ok then d.(journal := None) else d), pc := Down)
    case Crash => s.(pc := Down)
  }

  // ----- the invariant

  /** Recovery yields the live pair. */
  predicate Sound(s: State) {
    CurrentOwned(Recovered(s.disk)) == Ok(s.live)
  }

  function ReceiptOf(a: Option<Artifact>): Option<Receipt> {
    if a.Some? then Some(a.value.receipt) else None
  }

  function ContentOf(a: Option<Artifact>): Option<Content> {
    if a.Some? then Some(a.value.content) else None
  }

  ghost predicate Admitted(job: Job) {
    && job.wanted.Valid()
    && (job.had.Some? ==> job.had.value.Valid() && job.had.value.content != job.wanted.content)
  }

  /** During a rollback the target is the old or the new content and the receipt the old or the new one. */
  ghost predicate RollingBack(s: State, job: Job) {
    && Admitted(job)
    && s.disk.journal == Some(job.wanted.receipt)
    && (s.disk.receipt == ReceiptOf(job.had) || s.disk.receipt == Some(job.wanted.receipt))
    && if s.disk.target == Some(job.wanted.content) then s.live == Some(job.wanted)
       else s.disk.target == ContentOf(job.had) && s.live == job.had
  }

  ghost predicate Shape(s: State) {
    var d := s.disk;
    match s.pc
    case Down => true
    case Deciding(matched) => d.journal.Some? && matched == JournalMatches(d)
    case ReceiptRestored => d.journal.Some? && d.receipt == d.journal && JournalMatches(d)
    case JournalGone => d.journal.None?
    case Up(had) => d.journal.None? && CurrentOwned(d) == Ok(had) && had == s.live
    case Staged(job) => Admitted(job) && d.journal.None? && CurrentOwned(d) == Ok(job.had) && job.had == s.live
    case Backed(job) =>
      && Admitted(job) && d.journal.None? && CurrentOwned(d) == Ok(job.had) && job.had == s.live
      && (job.had.Some? ==> d.previous == ContentOf(job.had))
    case Journaled(job) =>
      && Admitted(job) && d.journal == Some(job.wanted.receipt) && CurrentOwned(d) == Ok(job.had) && job.had == s.live
      && (job.had.Some? ==> d.previous == ContentOf(job.had))
    case Renamed(job) =>
      && RollingBack(s, job) && d.target == Some(job.wanted.content) && d.receipt == ReceiptOf(job.had)
      && (job.had.Some? ==> d.previous == ContentOf(job.had))
    case Receipted(job) =>
      && RollingBack(s, job) && d.target == Some(job.wanted.content) && d.receipt == Some(job.wanted.receipt)
    case Rollback(job) =>
      && RollingBack(s, job) && d.target == Some(job.wanted.content)
      && (job.had.Some? ==> d.previous == ContentOf(job.had))
    case Undo(job) => RollingBack(s, job)
    case Undone(job) => RollingBack(s, job)
  }

  /** The one window in which recovery would fail: the old target is back, the new receipt still in place. */
  ghost predicate Exposed(s: State) {
    && (s.pc.Undo? || s.pc.Undone?)
    && s.disk.target != Some(s.pc.job.wanted.content) && s.disk.receipt == Some(s.pc.job.wanted.receipt)
  }

  ghost predicate Inv(s: State) {
    Shape(s) && (Sound(s) <==> !Exposed(s))
  }

  /** The steps that leave an ownership conflict behind. */
  ghost predicate Harmful(s: State, e: Event) {
    match e
    case Crash => Exposed(s)
    case RestoreJournal(ok) =>
      Exposed(s) || (s.pc.Undone? && ok && s.disk.target == Some(s.pc.job.wanted.content) &&
                     s.disk.receipt != Some(s.pc.job.wanted.receipt))
    case _ => false
  }

  /** Every step keeps the invariant, and loses the live pair exactly when it is harmful. */
  lemma StepKeeps(s: State, e: Event)
    requires Inv(s) && Enabled(s, e)
    ensures Inv(Next(s, e)) <==> !Harmful(s, e)
  {
    match e
    case Begin =>
    case RecoverReceipt(o) =>
    case RecoverJournal(o) =>
    case Sweep(_) =>
    case _ =>
  }

  // ----- whole runs

  ghost predicate Runs(s: State, es: seq<Event>)
    decreases |es|
  {
    es == [] || (Enabled(s, es[0]) && Runs(Next(s, es[0]), es[1..]))
  }

  ghost function After(s: State, es: seq<Event>): State
    requires Runs(s, es)
    decreases |es|
  {
    if es == [] then s else After(Next(s, es[0]), es[1..])
  }

  ghost predicate Harmless(s: State, es: seq<Event>)
    requires Runs(s, es)
    decreases |es|
  {
    es == [] || (!Harmful(s, es[0]) && Harmless(Next(s, es[0]), es[1..]))
  }

  lemma {:induction false} RunKeeps(s: State, es: seq<Event>)
    requires Inv(s) && Runs(s, es) && Harmless(s, es)
    ensures Inv(After(s, es))
    decreases |es|
  {
    if es == [] {
    } else {
      StepKeeps(s, es[0]);
      RunKeeps(Next(s, es[0]), es[1..]);
    }
  }

  /**
   From a recoverable directory, after any operations, failures and crashes, including crashes of recovery itself and
   however often, a recovery yields exactly the live pair, or nothing before the first publication, provided
   no step was harmful.
   */
  lemma RecoveryYieldsLive(s: State, es: seq<Event>)
    requires s.pc.Down? && Sound(s) && Runs(s, es) && Harmless(s, es)
    requires After(s, es).pc.Down?
    ensures CurrentOwned(Recovered(After(s, es).disk)) == Ok(After(s, es).live)
  {
    RunKeeps(s, es);
  }

  /** No sync, read-back or receipt write fails between the target rename and the journal removal. */
  ghost predicate NoRollback(es: seq<Event>) {
    forall e :: e in es ==> !e.Distrust? && (e.WriteReceipt? ==> e.o == Fine)
  }

  ghost predicate NotUndoing(s: State) {
    !s.pc.Rollback? && !s.pc.Undo? && !s.pc.Undone?
  }

  lemma {:induction false} NoRollbackHarmless(s: State, es: seq<Event>)
    requires Runs(s, es) && NoRollback(es) && NotUndoing(s)
    ensures Harmless(s, es) && NotUndoing(After(s, es))
    decreases |es|
  {
    if es == [] {
    } else {
      assert es[0] in es;
      assert forall e :: e in es[1..] ==> e in es;
      NoRollbackHarmless(Next(s, es[0]), es[1..]);
    }
  }

  /** Crashes at any points of publication and recovery, and failures outside that stretch, never lose the live pair. */
  lemma CrashesAreSafe(s: State, es: seq<Event>)
    requires s.pc.Down? && Sound(s) && Runs(s, es) && NoRollback(es)
    ensures Sound(After(s, es))
  {
    NoRollbackHarmless(s, es);
    RunKeeps(s, es);
  }

  // ----- one publication

  ghost predicate Working(s: State, job: Job) {
    match s.pc
    case Staged(j) => j == job
    case Backed(j) => j == job
    case Journaled(j) => j == job
    case Renamed(j) => j == job
    case Receipted(j) => j == job
    case Rollback(j) => j == job
    case Undo(j) => j == job
    case Undone(j) => j == job
    case _ => false
  }

  /** A publication in progress ends with the new pair live exactly when the target was renamed and not restored. */
  lemma {:induction false} WorkDecidesLive(s: State, es: seq<Event>, job: Job)
    requires Runs(s, es) && Begin !in es && (Working(s, job) || s.pc.Down?)
    ensures After(s, es).live ==
            if Restore(true) in es then job.had
            else if RenameTarget in es then Some(job.wanted)
            else s.live
    decreases |es|
  {
    if es == [] {
    } else {
      var n := Next(s, es[0]);
      assert forall e :: e in es <==> e == es[0] || e in es[1..];
      WorkDecidesLive(n, es[1..], job);
      if s.pc.Down? || (es[0] == Restore(true)) {
        NoRename(n, es[1..], job);
      }
    }
  }

  /** Once the target was restored, or the operation ended, it is not renamed again. */
  lemma {:induction false} NoRename(s: State, es: seq<Event>, job: Job)
    requires Runs(s, es) && Begin !in es && (s.pc.Down? || s.pc == Undo(job) || s.pc == Undone(job))
    ensures RenameTarget !in es && Restore(true) !in es && After(s, es).live == s.live
    decreases |es|
  {
    if es == [] {
    } else {
      assert forall e :: e in es <==> e == es[0] || e in es[1..];
      NoRename(Next(s, es[0]), es[1..], job);
    }
  }

  /**
   One publication, from the moment its directory was recovered and read, to any return or crash: a later recovery
   yields the new pair if the target was renamed and not rolled back, and the old pair, or nothing, otherwise.
   */
  lemma PublicationIsAtomic(s: State, wanted: Artifact, es: seq<Event>)
    requires Inv(s) && s.pc.Up? && wanted.Valid()
    requires Runs(s, [Ask(wanted, true)] + es) && Harmless(s, [Ask(wanted, true)] + es) && Begin !in es
    requires s.pc.had.None? || s.pc.had.value.content != wanted.content
    requires After(s, [Ask(wanted, true)] + es).pc.Down?
    ensures var n := After(s, [Ask(wanted, true)] + es);
            CurrentOwned(Recovered(n.disk)) ==
            Ok(if RenameTarget in es && Restore(true) !in es then Some(wanted) else s.pc.had)
  {
    var run := [Ask(wanted, true)] + es;
    assert run[0] == Ask(wanted, true) && run[1..] == es;
    RunKeeps(s, run);
    var n := Next(s, run[0]);
    WorkDecidesLive(n, es, Job(wanted, s.pc.had));
    if RenameTarget !in es {
      NeverRenamed(n, es, Job(wanted, s.pc.had));
    }
  }

  /** A target that was not renamed is not restored either. */
  lemma {:induction false} NeverRenamed(s: State, es: seq<Event>, job: Job)
    requires Runs(s, es) && Begin !in es && RenameTarget !in es
    requires s.pc.Down? || s.pc == Staged(job) || s.pc == Backed(job) || s.pc == Journaled(job)
    ensures Restore(true) !in es && After(s, es).live == s.live
    decreases |es|
  {
    if es == [] {
    } else {
      assert forall e :: e in es <==> e == es[0] || e in es[1..];
      NeverRenamed(Next(s, es[0]), es[1..], job);
    }
  }

  // ----- recovery completes, conflicts stay

  function RecoveryScript(d: Disk): seq<Event> {
    if d.journal.None? then [Begin, Sweep(true)]
    else if JournalMatches(d) then [Begin, RecoverReceipt(Fine), RecoverJournal(Fine), Sweep(true)]
    else [Begin, RecoverJournal(Fine), Sweep(true)]
  }

  /** An undisturbed recovery of a sound directory ends with the live pair owned and no temporaries left. */
  lemma RecoveryCompletes(s: State)
    requires s.pc.Down? && Sound(s)
    ensures var es := RecoveryScript(s.disk);
            Runs(s, es) && After(s, es) == State(Recovered(s.disk), Up(s.live), s.live)
  {
    var es, a := RecoveryScript(s.disk), Next(s, Begin);
    assert es[0] == Begin;
    if s.disk.journal.None? {
      assert es[1..] == [Sweep(true)];
      OneStep(a, Sweep(true));
    } else if JournalMatches(s.disk) {
      assert es[1..] == [RecoverReceipt(Fine), RecoverJournal(Fine), Sweep(true)];
      var b := Next(a, RecoverReceipt(Fine));
      assert es[1..][1..] == [RecoverJournal(Fine), Sweep(true)];
      TwoSteps(b, RecoverJournal(Fine), Sweep(true));
    } else {
      assert es[1..] == [RecoverJournal(Fine), Sweep(true)];
      TwoSteps(a, RecoverJournal(Fine), Sweep(true));
    }
  }

  lemma OneStep(s: State, e: Event)
    requires Enabled(s, e)
    ensures Runs(s, [e]) && After(s, [e]) == Next(s, e)
  {
    assert [e][1..] == [];
  }

  lemma TwoSteps(s: State, e: Event, f: Event)
    requires Enabled(s, e) && Enabled(Next(s, e), f)
    ensures Runs(s, [e, f]) && After(s, [e, f]) == Next(Next(s, e), f)
  {
    assert [e, f][1..] == [f];
    OneStep(Next(s, e), f);
  }

  ghost predicate Conflicted(s: State) {
    && CurrentOwned(Recovered(s.disk)).Err?
    && match s.pc
       case Down => true
       case Deciding(matched) => s.disk.journal.Some? && matched == JournalMatches(s.disk)
       case ReceiptRestored => s.disk.journal.Some? && s.disk.receipt == s.disk.journal && JournalMatches(s.disk)
       case JournalGone => s.disk.journal.None?
       case _ => false
  }

  /** A harmful step is final: recovery and publication refuse for ever after, and no publication starts. */
  lemma {:induction false} ConflictIsFinal(s: State, es: seq<Event>)
    requires Conflicted(s) && Runs(s, es)
    ensures Conflicted(After(s, es))
    decreases |es|
  {
    if es == [] {
    } else {
      ConflictIsFinal(Next(s, es[0]), es[1..]);
    }
  }

  lemma HarmIsFinal(s: State, e: Event)
    requires Inv(s) && Enabled(s, e) && Harmful(s, e)
    ensures Conflicted(Next(s, e))
  {
  }

  lemma {:induction false} HarmfulRunConflicts(s: State, es: seq<Event>)
    requires Inv(s) && Runs(s, es) && !Harmless(s, es)
    ensures Conflicted(After(s, es))
    decreases |es|
  {
    if Harmful(s, es[0]) {
      HarmIsFinal(s, es[0]);
      ConflictIsFinal(Next(s, es[0]), es[1..]);
    } else {
      StepKeeps(s, es[0]);
      HarmfulRunConflicts(Next(s, es[0]), es[1..]);
    }
  }

  /** The exact condition over whole runs: recovery yields the live pair if and only if no step was harmful. */
  lemma RecoveryYieldsLiveIff(s: State, es: seq<Event>)
    requires s.pc.Down? && Sound(s) && Runs(s, es) && After(s, es).pc.Down?
    ensures CurrentOwned(Recovered(After(s, es).disk)) == Ok(After(s, es).live) <==> Harmless(s, es)
  {
    if Harmless(s, es) {
      RecoveryYieldsLive(s, es);
    } else {
      HarmfulRunConflicts(s, es);
    }
  }

  /**
   A failed directory sync after the journal is gone: the publication reports an error while the new pair is owned.
   This error does not say that it may have written.
   */
  lemma FailedAfterWriting(s: State)
    requires Inv(s) && s.pc.Renamed?
    ensures var es := [WriteReceipt(Fine), RemoveJournal(FailAfter)];
            && Runs(s, es)
            && var n := After(s, es);
               n.pc.Down? && n.live == Some(s.pc.job.wanted) && CurrentOwned(n.disk) == Ok(Some(s.pc.job.wanted))
  {
    TwoSteps(s, WriteReceipt(Fine), RemoveJournal(FailAfter));
  }

  /** The harmful run that every publication can take: the directory sync after the receipt's rename fails, the
      rollback puts the old target back, and the process dies before the old receipt is back. */
  lemma CrashInRollback(s: State)
    requires Inv(s) && s.pc.Renamed?
    ensures var es := [WriteReceipt(FailAfter), Restore(true), Crash];
            Runs(s, es) && Conflicted(After(s, es))
  {
    var es := [WriteReceipt(FailAfter), Restore(true), Crash];
    var a := Next(s, WriteReceipt(FailAfter));
    assert es[1..] == [Restore(true), Crash];
    TwoSteps(a, Restore(true), Crash);
    StepKeeps(s, WriteReceipt(FailAfter));
    StepKeeps(a, Restore(true));
    HarmIsFinal(Next(a, Restore(true)), Crash);
  }
}
