/**
 Decision checkpoints and the publisher they describe. One scope owns two slots; the publisher is a register that
 holds the receipt of the live output. Every store operation is one transaction: it takes effect or it does not, and
 it may report failure either way.
 */
module DecisionStore {
  import opened Wrappers
  import Selection

  /** A protected receipt, compared for equality only. */
  type Receipt = string

  datatype Row = Row(state: Selection.State, receipt: Receipt, at: nat)

  predicate Names(row: Option<Row>, receipt: Option<Receipt>) {
    row.Some? && receipt == Some(row.value.receipt)
  }

  datatype Slots = Slots(committed: Option<Row>, pending: Option<Row>) {
    function Stage(row: Row): Slots { this.(pending := Some(row)) }

    /** The pending checkpoint replaces the committed one only when it names the current output. */
    function Commit(current: Receipt): Option<Slots> {
      if Names(pending, Some(current)) then Some(Slots(pending, None)) else None
    }

    /** A pending checkpoint is promoted when it names the current output and discarded otherwise. */
    function Recover(current: Option<Receipt>): Slots {
      if Names(pending, current) then Slots(pending, None) else this.(pending := None)
    }

    function Expire(cutoff: int): Slots {
      Slots(if committed.Some? && committed.value.at < cutoff then None else committed,
            if pending.Some? && pending.value.at < cutoff then None else pending)
    }

    /** What a recovery against this receipt returns. */
    function Answer(current: Option<Receipt>): Option<Selection.State> {
      var row := Recover(current).committed;
      if Names(row, current) then Some(row.value.state) else None
    }
  }

  // ----- runs of one scope

  datatype Pc =
    | Idle
    | Seen(current: Option<Receipt>)
    | Planned(previous: Option<Selection.State>)
    | Staged(row: Row)
    | Written(row: Row)
    | Confirmed(row: Row)

  datatype Outcome = Fine | FailBefore | FailAfter

  datatype Event =
    | ReadCurrent
    | Recover(o: Outcome)
    | Stage(row: Row, o: Outcome)
    | Publish(o: Outcome)
    | ReadBack
    | Commit(o: Outcome)
    | Expire(cutoff: int)
    | Stop

  /**
   `history` lists every checkpoint ever staged, in order, and `horizon` is the largest expiry cutoff applied. Both
   only serve to say what the slots mean.
   */
  datatype State = State(slots: Slots, register: Option<Receipt>, pc: Pc, history: seq<Row>, horizon: int)

  predicate Enabled(s: State, e: Event) {
    match e
    case ReadCurrent => s.pc.Idle?
    case Recover(_) => s.pc.Seen?
    case Stage(_, _) => s.pc.Planned?
    case Publish(_) => s.pc.Staged?
    case ReadBack => s.pc.Written?
    case Commit(_) => s.pc.Confirmed?
    case Expire(_) => true
    case Stop => true
  }

  function Next(s: State, e: Event): State
    requires Enabled(s, e)
  {
    match e
    case ReadCurrent => s.(pc := Seen(s.register))
    case Recover(o) =>
      s.(slots := if o == FailBefore then s.slots else s.slots.Recover(s.pc.current),
      pc := if o == Fine then Planned(s.slots.Answer(s.pc.current)) else Idle)
    case Stage(row, o) =>
      if o == FailBefore then s.(pc := Idle)
      else s.(slots := s.slots.Stage(row), history := s.history + [row], pc := if o == Fine then Staged(row) else Idle)
    case Publish(o) =>
      s.(register := if o == FailBefore then s.register else Some(s.pc.row.receipt),
      pc := if o == Fine then Written(s.pc.row) else Idle)
    case ReadBack => s.(pc := if s.register == Some(s.pc.row.receipt) then Confirmed(s.pc.row) else Idle)
    case Commit(o) =>
      var committed := s.slots.Commit(s.pc.row.receipt);
      s.(slots := if o == FailBefore || committed.None? then s.slots else committed.value, pc := Idle)
    case Expire(cutoff) =>
      s.(slots := s.slots.Expire(cutoff), horizon := if cutoff > s.horizon then cutoff else s.horizon)
    case Stop => s.(pc := Idle)
  }

  /** The checkpoint staged last for this receipt. */
  function Latest(history: seq<Row>, receipt: Receipt): (r: Option<Row>)
    ensures r.Some? ==> r.value in history && r.value.receipt == receipt
    ensures r.None? ==> forall row :: row in history ==> row.receipt != receipt
  {
    if history == [] then None
    else
      var last := history[|history| - 1];
      if last.receipt == receipt then Some(last) else Latest(history[..|history| - 1], receipt)
  }

  /** The live output's latest checkpoint is in a slot, unless it was staged before the expiry horizon. */
  ghost predicate Carried(s: State) {
    s.register.Some? ==>
      var latest := Latest(s.history, s.register.value);
      latest.Some? && (s.slots.pending == latest || s.slots.committed == latest || latest.value.at < s.horizon)
  }

  ghost predicate InFlight(s: State, row: Row) {
    && Latest(s.history, row.receipt) == Some(row)
    && (s.slots.pending == Some(row) || row.at < s.horizon)
  }

  ghost predicate Inv(s: State) {
    && Carried(s)
    && (s.slots.pending.Some? ==> Latest(s.history, s.slots.pending.value.receipt) == s.slots.pending)
    && (s.slots.committed.Some? ==> s.slots.committed.value in s.history)
    && match s.pc
       case Idle => true
       case Seen(current) => current == s.register
       case Planned(_) => s.slots.pending.None?
       case Staged(row) => InFlight(s, row)
       case Written(row) => InFlight(s, row) && s.register == Some(row.receipt)
       case Confirmed(row) => InFlight(s, row) && s.register == Some(row.receipt)
  }

  lemma LatestAppends(history: seq<Row>, row: Row, receipt: Receipt)
    ensures Latest(history + [row], receipt) == if row.receipt == receipt then Some(row) else Latest(history, receipt)
  {
    assert (history + [row])[..|history|] == history;
  }

  lemma StepKeeps(s: State, e: Event)
    requires Inv(s) && Enabled(s, e)
    ensures Inv(Next(s, e))
  {
    match e
    case Stage(row, o) => StageKeeps(s, row, o);
    case _ =>
  }

  lemma StageKeeps(s: State, row: Row, o: Outcome)
    requires Inv(s) && s.pc.Planned?
    ensures Inv(Next(s, Stage(row, o)))
  {
    var n := Next(s, Stage(row, o));
    LatestAppends(s.history, row, row.receipt);
    if s.register.Some? {
      LatestAppends(s.history, row, s.register.value);
    }
  }

  ghost predicate Runs(s: State, es: seq<Event>)
    decreases |es|
  {
    es == [] || (Enabled(s, es[0]) && Runs(Next(s, es[0]), es[1..]))
  }

  ghost function After(s: State, es: seq<Event>): State
    requires Runs(s, es)
    decreases |es|
  {
    if es == [] then s else After(Next(s, es[0]), es[1..])
  }

  const EMPTY := State(Slots(None, None), None, Idle, [], 0)

  /** Every run, whatever fails and wherever it stops, keeps the live output's decision in the store. */
  lemma {:induction false} RunKeeps(s: State, es: seq<Event>)
    requires Inv(s) && Runs(s, es)
    ensures Inv(After(s, es))
    decreases |es|
  {
    if es == [] {
    } else {
      StepKeeps(s, es[0]);
      RunKeeps(Next(s, es[0]), es[1..]);
    }
  }

  /**
   After any run of an initially empty store, recovering against the live receipt returns only a state that was
   staged for exactly that receipt, and returns the one staged last for it unless that one has expired. Without a
   live output it returns nothing.
   */
  lemma RecoveryIsFaithful(es: seq<Event>)
    requires Runs(EMPTY, es)
    ensures var s := After(EMPTY, es); var answer := s.slots.Answer(s.register);
            && (s.register.None? ==> answer.None?)
            && (answer.Some? ==> exists row :: row in s.history && s.register == Some(row.receipt) && answer == Some(row.state))
            && (s.register.Some? ==>
                  var latest := Latest(s.history, s.register.value);
                  latest.Some? && (latest.value.at >= s.horizon ==> answer == Some(latest.value.state)))
  {
    RunKeeps(EMPTY, es);
    var s := After(EMPTY, es);
    var row := s.slots.Recover(s.register).committed;
    if Names(row, s.register) {
      assert row.value in s.history;
    }
  }

  /** The live output always was staged first: nothing is published that no checkpoint names. */
  lemma PublishedWasStaged(es: seq<Event>)
    requires Runs(EMPTY, es)
    ensures var s := After(EMPTY, es);
            s.register.Some? ==> exists row :: row in s.history && row.receipt == s.register.value
  {
    RunKeeps(EMPTY, es);
  }

  /** Recovery is idempotent: a second one, after a crash or a failed report, changes nothing and answers the same. */
  lemma RecoverTwice(slots: Slots, current: Option<Receipt>)
    ensures slots.Recover(current).Recover(current) == slots.Recover(current)
    ensures slots.Recover(current).Answer(current) == slots.Answer(current)
  {
  }

  /**
   A completed run leaves its own checkpoint committed for the live output with nothing pending, unless it expired on
   the way; so the next recovery answers with this run's state.
   */
  lemma CompletedRun(s: State)
    requires Inv(s) && s.pc.Confirmed?
    ensures var n := Next(s, Commit(Fine)); var row := s.pc.row;
            && n.register == Some(row.receipt)
            && (row.at >= s.horizon ==>
                  n.slots == Slots(Some(row), None) && n.slots.Answer(n.register) == Some(row.state))
  {
  }

  /** When the commit does not happen, the next recovery still answers with the written run's state. */
  lemma LostCommit(s: State)
    requires Inv(s) && (s.pc.Written? || s.pc.Confirmed?) && s.pc.row.at >= s.horizon
    ensures s.slots.Answer(s.register) == Some(s.pc.row.state)
  {
  }

  /**
   Why recovery comes first: staging over a pending checkpoint that already names the live output loses the decision
   behind it, whatever the new receipt is.
   */
  lemma StagingUnrecovered(s: State, row: Row)
    requires Inv(s) && s.register.Some? && s.slots.pending.Some? && s.slots.pending.value.receipt == s.register.value
    requires s.slots.committed.None? || s.slots.committed.value.receipt != s.register.value
    requires row.receipt != s.register.value
    ensures s.slots.Answer(s.register).Some? && s.slots.Stage(row).Answer(s.register).None?
  {
  }

  lemma RunsAppend(s: State, es: seq<Event>, fs: seq<Event>)
    requires Runs(s, es) && Runs(After(s, es), fs)
    ensures Runs(s, es + fs) && After(s, es + fs) == After(After(s, es), fs)
    decreases |es|
  {
    if es == [] {
      assert es + fs == fs;
    } else {
      assert (es + fs)[1..] == es[1..] + fs;
      RunsAppend(Next(s, es[0]), es[1..], fs);
    }
  }

  lemma One(s: State, e: Event)
    requires Enabled(s, e)
    ensures Runs(s, [e]) && After(s, [e]) == Next(s, e)
  {
    assert [e][1..] == [];
  }

  lemma Snoc(s: State, es: seq<Event>, e: Event)
    requires Runs(s, es) && Enabled(After(s, es), e)
    ensures Runs(s, es + [e]) && After(s, es + [e]) == Next(After(s, es), e)
  {
    One(After(s, es), e);
    RunsAppend(s, es, [e]);
  }
}
