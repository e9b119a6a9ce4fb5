/**
 Whole runs of one probe context. Gateways reconcile one after another; each of their operations is an event,
 in any order and with any arguments, except that a granted reservation is settled before the next operation.
 The world also records what the operator cannot see at once: the output each Gateway really has.
 */
module ProbeRuns {
  import opened Wrappers
  import opened Finite
  import opened ProbeContext
  import opened ProbeAdmission
  import opened ProbeReservation

  /** A published output: its receipt and the endpoints it carries. */
  datatype Output = Output(receipt: Receipt, ids: set<Id>)

  datatype Event =
    | Settle(gateway: Uid, attempt: nat, written: bool)
    | BeginRound(records: seq<Record>, now: nat, refresh: nat)
    | Answers(ids: seq<Id>)
    | Abandon(round: Round)
    | Complete(round: Round, late: bool)
    | Touch(gateway: Uid, now: nat)
    | Leave(gateway: Uid)
    | Verdicts(decision: Decision)
    | Ask(gateway: Uid, decision: Decision, now: nat)
    | Published(receipt: Receipt)
    | Unconfirmed(intended: Receipt, now: nat, landed: bool)
    | GiveUp
    | Land(gateway: Uid)

  /** What a Gateway's selection and its unresolved attempt lost since they were published or tried. */
  datatype Lost = Lost(selected: set<Id>, attempt: set<Id>)

  /**
   `live` is the output each Gateway published from this context, `tried` its unresolved attempt, as far as
   the context still holds a demand for it. `lost` holds, for either list, the endpoints that were dropped from it
   while they were rejected; a publication starts afresh. `departed` holds the endpoints that a round found missing or
   incompatible, until they are members again.
   */
  datatype World = World(probe: Probe, open: Option<Reservation>, live: map<Uid, Output>, tried: map<Uid, Output>,
                         lost: map<Uid, Lost>, departed: set<Id>)

  const START: World := World(Probe(0, 0, 0, [], {}, map[], false, 0), None, map[], map[], map[], {})

  function Restrict<T>(m: map<Uid, T>, keys: set<Uid>): map<Uid, T> {
    map g | g in m && g in keys :: m[g]
  }

  function LostBy(lost: map<Uid, Lost>, g: Uid): Lost {
    if g in lost then lost[g] else Lost({}, {})
  }

  /** What a list loses from one step to the next, as far as it was rejected at the time. */
  function Loss(before: seq<Id>, after: seq<Id>, rejected: set<Id>): set<Id> {
    (ToSet(before) - ToSet(after)) * rejected
  }

  function Attempt(d: Demand): seq<Id> {
    if d.uncertain.Some? then d.uncertain.value else []
  }

  function Charge(lost: Lost, before: Demand, after: Demand, rejected: set<Id>): Lost {
    Lost(lost.selected + Loss(before.selected, after.selected, rejected),
         lost.attempt + Loss(Attempt(before), Attempt(after), rejected))
  }

  /** The world after admissions that led from the demands of `before` to the probe `after`. */
  function Admitted(w: World, lost: map<Uid, Lost>, before: Probe, after: Probe): World {
    w.(probe := after, departed := w.departed - ToSet(after.cohort),
    lost := map g | g in after.demand && g in before.demand ::
              Charge(LostBy(lost, g), before.demand[g], after.demand[g], before.rejected))
  }

  /** The members a round no longer finds, or finds incompatible. */
  function Gone(cohort: seq<Id>, records: seq<Record>): set<Id> {
    set id | id in cohort && Compatible(records, id).None?
  }

  /** A read of the output is truthful about the attempt it looked for. Receipts identify what they carry. */
  predicate Enabled(w: World, e: Event) {
    match e
    case Settle(g, attempt, written) =>
      w.open.None? && (g in w.live && g in w.tried ==> written == (w.live[g].receipt == w.tried[g].receipt))
    case BeginRound(_, now, _) => w.open.None? && w.probe.Due(now)
    case Published(_) => w.open.Some? && w.probe.Pending(w.open.value.gateway)
    case Unconfirmed(intended, _, _) =>
      && w.open.Some? && w.probe.Pending(w.open.value.gateway)
      && var g := w.open.value.gateway;
         g in w.live && w.live[g].receipt == intended ==> w.live[g].ids == ToSet(w.probe.demand[g].selected)
    case GiveUp => w.open.Some?
    case Land(g) => g in w.tried
    case _ => w.open.None?
  }

  function Next(w: World, e: Event, capacity: nat, isDefault: bool): World
    requires Enabled(w, e)
  {
    match e
    case Settle(g, attempt, written) =>
      var p := w.probe.Settle(g, attempt, written);
      if p == w.probe || g !in w.tried then w.(probe := p)
      else
        var l := LostBy(w.lost, g);
        w.(probe := p, tried := w.tried - {g}, live := if written && g !in w.live then w.live[g := w.tried[g]] else w.live,
        lost := w.lost[g := Lost(if written then l.attempt else l.selected, {})])
    case BeginRound(records, now, refresh) =>
      var p := w.probe.Budgeted(records, now, refresh, isDefault).0;
      w.(probe := p, departed := w.departed + Gone(w.probe.cohort, records))
    case Answers(ids) => Admitted(w, w.lost, w.probe, w.probe.RecordResults(ids, capacity))
    case Abandon(r) => w.(probe := w.probe.Abandon(r))
    case Complete(r, late) => w.(probe := w.probe.Complete(r, late))
    case Touch(g, now) =>
      var p := w.probe.Touch(g, now);
      w.(probe := p, live := Restrict(w.live, p.demand.Keys), tried := Restrict(w.tried, p.demand.Keys),
      lost := Restrict(w.lost, p.demand.Keys))
    case Leave(g) => w.(probe := w.probe.Leave(g), live := w.live - {g}, tried := w.tried - {g}, lost := w.lost - {g})
    case Verdicts(d) => w.(probe := w.probe.ObserveVerdicts(d))
    case Ask(g, d, now) =>
      var (p, r) := w.probe.Reserve(g, d, now, capacity);
      w.(probe := p, open := if r.Ok? then Some(r.value) else None)
    case Published(receipt) =>
      var r := w.open.value;
      var g := r.gateway;
      var n := Admitted(w, w.lost[g := Lost({}, {})], w.probe.CommitDemand(r), w.probe.Commit(r, capacity));
      n.(open := None, tried := w.tried - {g}, live := w.live[g := Output(receipt, ToSet(w.probe.demand[g].selected))])
    case Unconfirmed(intended, now, landed) =>
      var r := w.open.value;
      var g := r.gateway;
      var attempt := Output(intended, ToSet(w.probe.demand[g].selected));
      var n := Admitted(w, w.lost[g := Lost(LostBy(w.lost, g).selected, {})], w.probe.HoldDemand(r, intended, now),
                        w.probe.Hold(r, intended, now, capacity));
      n.(open := None, tried := w.tried[g := attempt], live := if landed then w.live[g := attempt] else w.live)
    case GiveUp => w.(probe := w.probe.Release(w.open.value), open := None)
    case Land(g) => w.(live := w.live[g := w.tried[g]])
  }

  // ----- the invariant

  /** The list holds exactly `ids`, except for what it lost. */
  ghost predicate Covers(list: seq<Id>, ids: set<Id>, lost: set<Id>) {
    ToSet(list) == ids - lost
  }

  /** A Gateway's demand as it stands apart from an open reservation. */
  function Standing(w: World, g: Uid): Option<Demand> {
    if w.open.Some? && w.open.value.gateway == g then w.open.value.previous
    else w.probe.Previous(g)
  }

  ghost predicate Claimed(w: World, g: Uid, id: Id) {
    Standing(w, g).Some? && Standing(w, g).value.Claims(id)
  }

  /** Demand follows the real output: an unresolved attempt is recorded next to the selection, and one of the
      two is what the output carries. */
  ghost predicate TracksOutput(d: Demand, g: Uid, live: map<Uid, Output>, tried: map<Uid, Output>, lost: Lost) {
    && !d.pending
    && (d.uncertain.Some? <==> g in tried)
    && (g in tried ==> d.intended == tried[g].receipt && Covers(d.uncertain.value, tried[g].ids, lost.attempt))
    && (g in live && g in tried && live[g].receipt == tried[g].receipt ==> live[g].ids == tried[g].ids)
    && (g in live ==> Covers(d.selected, live[g].ids, lost.selected) || (g in tried && live[g] == tried[g]))
  }

  ghost predicate Tracked(w: World) {
    && w.live.Keys <= w.probe.demand.Keys && w.tried.Keys <= w.probe.demand.Keys
    && forall g :: g in w.probe.demand ==>
         match Standing(w, g)
         case None => g !in w.live && g !in w.tried
         case Some(d) => TracksOutput(d, g, w.live, w.tried, LostBy(w.lost, g))
  }

  /** Every claimed endpoint is maintained, or a round found it gone and it has not come back. */
  ghost predicate Maintained(w: World) {
    && w.departed !! ToSet(w.probe.cohort)
    && forall g, id :: Claimed(w, g, id) ==> id in w.probe.cohort || id in w.departed
  }

  ghost predicate OpenOk(w: World, capacity: nat) {
    match w.open
    case None => forall g :: g in w.probe.demand ==> !w.probe.demand[g].pending
    case Some(r) =>
      && Open(w.probe, r, capacity)
      && forall g :: g in w.probe.demand && g != r.gateway ==> !w.probe.demand[g].pending
  }

  ghost predicate Inv(w: World, capacity: nat) {
    && Bounded(w.probe, capacity)
    && OpenOk(w, capacity)
    && Tracked(w)
    && Maintained(w)
  }

  // ----- admissions keep it

  lemma CoversTrimmed(list: seq<Id>, ids: set<Id>, lost: set<Id>, dropped: set<Id>, rejected: set<Id>)
    requires Covers(list, ids, lost) && dropped <= rejected
    ensures Covers(Remove(list, dropped), ids, lost + Loss(list, Remove(list, dropped), rejected))
  {
    assert ToSet(Remove(list, dropped)) == ToSet(list) - dropped;
  }

  /** Dropping rejected endpoints keeps track: they are charged as lost. */
  lemma TracksTrimmed(d: Demand, g: Uid, live: map<Uid, Output>, tried: map<Uid, Output>, lost: Lost, dropped: set<Id>, rejected: set<Id>)
    requires TracksOutput(d, g, live, tried, lost) && dropped <= rejected
    ensures TracksOutput(d.Without(dropped), g, live, tried, Charge(lost, d, d.Without(dropped), rejected))
  {
    if g in tried {
      CoversTrimmed(d.uncertain.value, tried[g].ids, lost.attempt, dropped, rejected);
    }
    if g in live && Covers(d.selected, live[g].ids, lost.selected) {
      CoversTrimmed(d.selected, live[g].ids, lost.selected, dropped, rejected);
    }
  }

  /** Admissions keep every demand on track, whatever outputs the demands are held against. */
  lemma AdmittedTracks(w: World, lost: map<Uid, Lost>, before: Probe, ids: seq<Id>, capacity: nat, selected: bool,
                       live: map<Uid, Output>, tried: map<Uid, Output>)
    requires forall g :: g in before.demand ==> TracksOutput(before.demand[g], g, live, tried, LostBy(lost, g))
    ensures var after := before.AdmitAll(ids, capacity, selected); var n := Admitted(w, lost, before, after);
            && after.demand.Keys == before.demand.Keys
            && forall g :: g in after.demand ==> TracksOutput(after.demand[g], g, live, tried, LostBy(n.lost, g))
  {
    var after := before.AdmitAll(ids, capacity, selected);
    AdmitAllTrims(before, ids, capacity, selected);
    forall g | g in after.demand
      ensures TracksOutput(after.demand[g], g, live, tried, LostBy(Admitted(w, lost, before, after).lost, g))
    {
      TracksTrimmed(before.demand[g], g, live, tried, LostBy(lost, g), Drops(before, ids, capacity, selected), before.rejected);
    }
  }

  /** Admissions keep every claim maintained or departed, provided the reserved endpoints are admitted unless dropped. */
  lemma AdmittedMaintains(w: World, lost: map<Uid, Lost>, before: Probe, ids: seq<Id>, capacity: nat, selected: bool, reserved: set<Id>)
    requires Bounded(before, capacity)
    requires forall g, id :: g in before.demand && before.demand[g].Claims(id) ==> id in before.cohort || id in w.departed || id in reserved
    requires forall id :: id in reserved && id !in Drops(before, ids, capacity, selected) ==> id in before.AdmitAll(ids, capacity, selected).cohort
    ensures var after := before.AdmitAll(ids, capacity, selected); var n := Admitted(w, lost, before, after);
            && n.departed !! ToSet(after.cohort)
            && forall g, id :: g in after.demand && after.demand[g].Claims(id) ==> id in after.cohort || id in n.departed
  {
    var after := before.AdmitAll(ids, capacity, selected);
    AdmitAllTrims(before, ids, capacity, selected);
    forall g, id | g in after.demand && after.demand[g].Claims(id)
      ensures id in after.cohort || id in Admitted(w, lost, before, after).departed
    {
      assert before.demand[g].Claims(id) && id !in Drops(before, ids, capacity, selected);
      if id in before.cohort {
        assert before.Demanded(id);
        AdmitAllKeepsDemanded(before, ids, capacity, selected, id);
      }
    }
  }

  lemma AnswersKeep(w: World, ids: seq<Id>, capacity: nat, isDefault: bool)
    requires Inv(w, capacity) && w.open.None?
    ensures Inv(Next(w, Answers(ids), capacity, isDefault), capacity)
  {
    AdmitAllKeeps(w.probe, ids, capacity, false);
    AdmitAllTrims(w.probe, ids, capacity, false);
    AdmittedTracks(w, w.lost, w.probe, ids, capacity, false, w.live, w.tried);
    forall g, id | g in w.probe.demand && w.probe.demand[g].Claims(id)
      ensures id in w.probe.cohort || id in w.departed
    {
      assert Claimed(w, g, id);
    }
    AdmittedMaintains(w, w.lost, w.probe, ids, capacity, false, {});
  }

  // ----- one lemma per event

  lemma SettleTracks(w: World, g: Uid, attempt: nat, written: bool, capacity: nat, isDefault: bool, h: Uid)
    requires Inv(w, capacity) && Enabled(w, Settle(g, attempt, written)) && h in w.probe.demand
    ensures var n := Next(w, Settle(g, attempt, written), capacity, isDefault);
            h in n.probe.demand && TracksOutput(n.probe.demand[h], h, n.live, n.tried, LostBy(n.lost, h))
  {
    var n := Next(w, Settle(g, attempt, written), capacity, isDefault);
    assert TracksOutput(w.probe.demand[h], h, w.live, w.tried, LostBy(w.lost, h));
    if h != g {
      assert n.probe.demand[h] == w.probe.demand[h] && LostBy(n.lost, h) == LostBy(w.lost, h);
    }
  }

  /** Settling claims nothing that was not claimed before. */
  lemma SettleClaims(w: World, g: Uid, attempt: nat, written: bool, capacity: nat, isDefault: bool, h: Uid, id: Id)
    requires Inv(w, capacity) && Enabled(w, Settle(g, attempt, written))
    requires Claimed(Next(w, Settle(g, attempt, written), capacity, isDefault), h, id)
    ensures Claimed(w, h, id)
  {
  }

  lemma SettleKeeps(w: World, g: Uid, attempt: nat, written: bool, capacity: nat, isDefault: bool)
    requires Inv(w, capacity) && Enabled(w, Settle(g, attempt, written))
    ensures Inv(Next(w, Settle(g, attempt, written), capacity, isDefault), capacity)
  {
    var n := Next(w, Settle(g, attempt, written), capacity, isDefault);
    forall h | h in n.probe.demand
      ensures TracksOutput(n.probe.demand[h], h, n.live, n.tried, LostBy(n.lost, h))
    {
      SettleTracks(w, g, attempt, written, capacity, isDefault, h);
    }
    forall h, id | Claimed(n, h, id)
      ensures id in n.probe.cohort || id in n.departed
    {
      SettleClaims(w, g, attempt, written, capacity, isDefault, h, id);
    }
  }

  lemma {:induction false} KeepNoDup(cohort: seq<Id>, records: seq<Record>)
    requires NoDup(cohort)
    ensures NoDup(Keep(cohort, records)) && |Keep(cohort, records)| <= |cohort|
  {
    if cohort == [] {
    } else {
      KeepNoDup(cohort[1..], records);
      assert cohort[0] !in cohort[1..];
    }
  }

  lemma BeginRoundKeeps(w: World, records: seq<Record>, now: nat, refresh: nat, capacity: nat, isDefault: bool)
    requires Inv(w, capacity) && Enabled(w, BeginRound(records, now, refresh))
    ensures Inv(Next(w, BeginRound(records, now, refresh), capacity, isDefault), capacity)
  {
    var n := Next(w, BeginRound(records, now, refresh), capacity, isDefault);
    KeepNoDup(w.probe.cohort, records);
    forall h | h in n.probe.demand
      ensures TracksOutput(n.probe.demand[h], h, n.live, n.tried, LostBy(n.lost, h))
    {
      assert TracksOutput(w.probe.demand[h], h, w.live, w.tried, LostBy(w.lost, h));
    }
    forall h, id | Claimed(n, h, id)
      ensures id in n.probe.cohort || id in n.departed
    {
      assert Claimed(w, h, id);
    }
  }

  /** Events that leave cohort and departures alone and only drop or refresh demand keep the invariant. */
  lemma FewerDemands(w: World, n: World, capacity: nat)
    requires Inv(w, capacity) && w.open.None? && n.open.None?
    requires n.probe.cohort == w.probe.cohort && n.departed == w.departed
    requires forall g :: g in n.probe.demand ==> LostBy(n.lost, g) == LostBy(w.lost, g)
    requires n.probe.demand.Keys <= w.probe.demand.Keys
    requires forall g :: g in n.probe.demand ==> n.probe.demand[g] == w.probe.demand[g].(seen := n.probe.demand[g].seen)
    requires n.live == Restrict(w.live, n.probe.demand.Keys) && n.tried == Restrict(w.tried, n.probe.demand.Keys)
    ensures Inv(n, capacity)
  {
    forall g | g in n.probe.demand
      ensures TracksOutput(n.probe.demand[g], g, n.live, n.tried, LostBy(n.lost, g))
    {
      assert TracksOutput(w.probe.demand[g], g, w.live, w.tried, LostBy(w.lost, g));
    }
    forall g, id | Claimed(n, g, id)
      ensures id in n.probe.cohort || id in n.departed
    {
      assert Claimed(w, g, id);
    }
  }

  lemma QuietKeeps(w: World, e: Event, capacity: nat, isDefault: bool)
    requires Inv(w, capacity) && Enabled(w, e)
    requires e.Abandon? || e.Complete? || e.Touch? || e.Leave? || e.Verdicts?
    ensures Inv(Next(w, e, capacity, isDefault), capacity)
  {
    if e.Touch? || e.Leave? {
      DroppedKeeps(w, e, capacity, isDefault);
    } else {
      var n := Next(w, e, capacity, isDefault);
      assert n.live == Restrict(w.live, n.probe.demand.Keys);
      assert n.tried == Restrict(w.tried, n.probe.demand.Keys);
      FewerDemands(w, n, capacity);
    }
  }

  lemma DroppedKeeps(w: World, e: Event, capacity: nat, isDefault: bool)
    requires Inv(w, capacity) && Enabled(w, e) && (e.Touch? || e.Leave?)
    ensures Inv(Next(w, e, capacity, isDefault), capacity)
  {
    var n := Next(w, e, capacity, isDefault);
    assert n.live == Restrict(w.live, n.probe.demand.Keys);
    assert n.tried == Restrict(w.tried, n.probe.demand.Keys);
    FewerDemands(w, n, capacity);
  }

  /** A step that leaves every standing demand, the cohort and the outputs alone keeps the invariant. */
  lemma SameStanding(w: World, n: World, capacity: nat)
    requires Inv(w, capacity) && Bounded(n.probe, capacity) && OpenOk(n, capacity)
    requires n.probe.cohort == w.probe.cohort && n.departed == w.departed
    requires n.lost == w.lost
    requires n.live == w.live && n.tried == w.tried
    requires n.live.Keys <= n.probe.demand.Keys && n.tried.Keys <= n.probe.demand.Keys
    requires forall h :: Standing(n, h) == Standing(w, h)
    ensures Inv(n, capacity)
  {
    forall h | h in n.probe.demand
      ensures match Standing(n, h)
              case None => h !in n.live && h !in n.tried
              case Some(d) => TracksOutput(d, h, n.live, n.tried, LostBy(n.lost, h))
    {
      assert Standing(n, h) == Standing(w, h);
      if h in w.probe.demand && Standing(w, h).Some? {
        assert TracksOutput(Standing(w, h).value, h, w.live, w.tried, LostBy(w.lost, h));
      }
    }
    forall h, id | Claimed(n, h, id)
      ensures id in n.probe.cohort || id in n.departed
    {
      assert Claimed(w, h, id);
    }
  }

  /** Opening a reservation changes no standing demand. */
  lemma OpeningKeeps(w: World, n: World, capacity: nat)
    requires Inv(w, capacity) && w.open.None? && n.open.Some? && Open(n.probe, n.open.value, capacity)
    requires n.probe.cohort == w.probe.cohort && n.departed == w.departed
    requires n.lost == w.lost
    requires n.live == w.live && n.tried == w.tried
    requires n.open.value.previous == w.probe.Previous(n.open.value.gateway)
    requires n.probe.demand == w.probe.demand[n.open.value.gateway := n.probe.demand[n.open.value.gateway]]
    ensures Inv(n, capacity)
  {
    SameStanding(w, n, capacity);
  }

  lemma AskKeeps(w: World, g: Uid, decision: Decision, now: nat, capacity: nat, isDefault: bool)
    requires Inv(w, capacity) && w.open.None?
    ensures Inv(Next(w, Ask(g, decision, now), capacity, isDefault), capacity)
  {
    var n := Next(w, Ask(g, decision, now), capacity, isDefault);
    if n.open.Some? {
      GrantFits(w.probe, g, decision, now, capacity);
      OpeningKeeps(w, n, capacity);
    } else {
      RefusalChangesVerdictsOnly(w.probe, g, decision, now, capacity);
      SameStanding(w, n, capacity);
    }
  }

  /** The committed demand, before any admission, is exactly the new output. */
  lemma CommittedTracks(w: World, receipt: Receipt, capacity: nat)
    requires Inv(w, capacity) && Enabled(w, Published(receipt))
    ensures var r := w.open.value; var c := w.probe.CommitDemand(r);
            var live := w.live[r.gateway := Output(receipt, ToSet(w.probe.demand[r.gateway].selected))];
            forall g :: g in c.demand ==>
              TracksOutput(c.demand[g], g, live, w.tried - {r.gateway}, LostBy(w.lost[r.gateway := Lost({}, {})], g))
  {
    var r := w.open.value;
    forall g | g in w.probe.demand && g != r.gateway
      ensures TracksOutput(w.probe.demand[g], g, w.live, w.tried, LostBy(w.lost, g))
    {
      assert Standing(w, g) == Some(w.probe.demand[g]);
    }
  }

  lemma PublishedTracks(w: World, receipt: Receipt, capacity: nat, isDefault: bool)
    requires Inv(w, capacity) && Enabled(w, Published(receipt))
    ensures var n := Next(w, Published(receipt), capacity, isDefault); OpenOk(n, capacity) && Tracked(n)
  {
    var r := w.open.value;
    var c := w.probe.CommitDemand(r);
    var live := w.live[r.gateway := Output(receipt, ToSet(w.probe.demand[r.gateway].selected))];
    CommittedTracks(w, receipt, capacity);
    AdmittedTracks(w, w.lost[r.gateway := Lost({}, {})], c, w.probe.demand[r.gateway].selected, capacity, true, live, w.tried - {r.gateway});
    SettledTracks(Next(w, Published(receipt), capacity, isDefault), capacity);
  }

  /** With no reservation open, every demand on track is all there is to track. */
  lemma SettledTracks(n: World, capacity: nat)
    requires n.open.None? && n.live.Keys <= n.probe.demand.Keys && n.tried.Keys <= n.probe.demand.Keys
    requires forall g :: g in n.probe.demand ==> TracksOutput(n.probe.demand[g], g, n.live, n.tried, LostBy(n.lost, g))
    ensures OpenOk(n, capacity) && Tracked(n)
  {
    forall g | g in n.probe.demand
      ensures !n.probe.demand[g].pending && Standing(n, g) == Some(n.probe.demand[g])
    {
      assert TracksOutput(n.probe.demand[g], g, n.live, n.tried, LostBy(n.lost, g));
    }
  }

  lemma PublishedMaintains(w: World, receipt: Receipt, capacity: nat, isDefault: bool)
    requires Inv(w, capacity) && Enabled(w, Published(receipt))
    ensures Maintained(Next(w, Published(receipt), capacity, isDefault))
  {
    var r := w.open.value;
    var c, ids := w.probe.CommitDemand(r), w.probe.demand[r.gateway].selected;
    CommitHonours(w.probe, r, capacity);
    forall g, id | g in c.demand && c.demand[g].Claims(id)
      ensures id in c.cohort || id in w.departed || id in ToSet(ids)
    {
      if g != r.gateway {
        assert Claimed(w, g, id);
      }
    }
    AdmittedMaintains(w, w.lost[r.gateway := Lost({}, {})], c, ids, capacity, true, ToSet(ids));
  }

  /** The held demand, before any admission, tracks the output, whether the write landed or not. */
  lemma HeldTracks(w: World, intended: Receipt, now: nat, live: map<Uid, Output>, capacity: nat)
    requires Inv(w, capacity) && Enabled(w, Unconfirmed(intended, now, false))
    requires var g := w.open.value.gateway;
             live == w.live || live == w.live[g := Output(intended, ToSet(w.probe.demand[g].selected))]
    ensures var g := w.open.value.gateway; var h := w.probe.HoldDemand(w.open.value, intended, now);
            TracksOutput(h.demand[g], g, live, w.tried[g := Output(intended, ToSet(w.probe.demand[g].selected))],
                         Lost(LostBy(w.lost, g).selected, {}))
  {
    var r := w.open.value;
    assert Standing(w, r.gateway) == r.previous;
    if r.gateway in w.live {
      assert TracksOutput(r.previous.value, r.gateway, w.live, w.tried, LostBy(w.lost, r.gateway));
    }
  }

  /** A hold, before any admission, is nothing to the other Gateways. */
  lemma OthersTrack(w: World, intended: Receipt, now: nat, live: map<Uid, Output>, capacity: nat, h: Uid)
    requires Inv(w, capacity) && Enabled(w, Unconfirmed(intended, now, false))
    requires h in w.probe.demand && h != w.open.value.gateway
    requires var g := w.open.value.gateway;
             live == w.live || live == w.live[g := Output(intended, ToSet(w.probe.demand[g].selected))]
    ensures var g := w.open.value.gateway; var held := w.probe.HoldDemand(w.open.value, intended, now);
            && h in held.demand
            && TracksOutput(held.demand[h], h, live, w.tried[g := Output(intended, ToSet(w.probe.demand[g].selected))],
                            LostBy(w.lost[g := Lost(LostBy(w.lost, g).selected, {})], h))
  {
    assert Standing(w, h) == Some(w.probe.demand[h]);
  }

  lemma UnconfirmedTracks(w: World, intended: Receipt, now: nat, landed: bool, capacity: nat, isDefault: bool)
    requires Inv(w, capacity) && Enabled(w, Unconfirmed(intended, now, landed))
    ensures var n := Next(w, Unconfirmed(intended, now, landed), capacity, isDefault); OpenOk(n, capacity) && Tracked(n)
  {
    var n := Next(w, Unconfirmed(intended, now, landed), capacity, isDefault);
    var r := w.open.value;
    var h, ids := w.probe.HoldDemand(r, intended, now), w.probe.demand[r.gateway].selected;
    var lost := w.lost[r.gateway := Lost(LostBy(w.lost, r.gateway).selected, {})];
    forall g | g in h.demand
      ensures TracksOutput(h.demand[g], g, n.live, n.tried, LostBy(lost, g))
    {
      if g == r.gateway {
        HeldTracks(w, intended, now, n.live, capacity);
      } else {
        OthersTrack(w, intended, now, n.live, capacity, g);
      }
    }
    AdmittedTracks(w, lost, h, ids, capacity, true, n.live, n.tried);
    SettledTracks(n, capacity);
  }

  lemma UnconfirmedMaintains(w: World, intended: Receipt, now: nat, landed: bool, capacity: nat, isDefault: bool)
    requires Inv(w, capacity) && Enabled(w, Unconfirmed(intended, now, landed))
    ensures Maintained(Next(w, Unconfirmed(intended, now, landed), capacity, isDefault))
  {
    var r := w.open.value;
    var h, ids := w.probe.HoldDemand(r, intended, now), w.probe.demand[r.gateway].selected;
    HoldHonours(w.probe, r, intended, now, capacity);
    forall g, id | g in h.demand && h.demand[g].Claims(id)
      ensures id in h.cohort || id in w.departed || id in ToSet(ids)
    {
      if g != r.gateway || id !in ids {
        assert Claimed(w, g, id);
      }
    }
    AdmittedMaintains(w, w.lost[r.gateway := Lost(LostBy(w.lost, r.gateway).selected, {})], h, ids, capacity, true, ToSet(ids));
  }

  lemma GiveUpKeeps(w: World, capacity: nat, isDefault: bool)
    requires Inv(w, capacity) && w.open.Some?
    ensures Inv(Next(w, GiveUp, capacity, isDefault), capacity)
  {
    assert Standing(w, w.open.value.gateway) == w.open.value.previous;
    SameStanding(w, Next(w, GiveUp, capacity, isDefault), capacity);
  }

  lemma LandKeeps(w: World, g: Uid, capacity: nat, isDefault: bool)
    requires Inv(w, capacity) && g in w.tried
    ensures Inv(Next(w, Land(g), capacity, isDefault), capacity)
  {
    var n := Next(w, Land(g), capacity, isDefault);
    forall h
      ensures Standing(n, h) == Standing(w, h)
    {
    }
    forall h, id | Claimed(n, h, id)
      ensures id in n.probe.cohort || id in n.departed
    {
      assert Claimed(w, h, id);
    }
  }

  /** Every event keeps the invariant. */
  lemma EventKeeps(w: World, e: Event, capacity: nat, isDefault: bool)
    requires Inv(w, capacity) && Enabled(w, e)
    ensures Inv(Next(w, e, capacity, isDefault), capacity)
  {
    match e
    case Settle(g, attempt, written) => SettleKeeps(w, g, attempt, written, capacity, isDefault);
    case BeginRound(records, now, refresh) => BeginRoundKeeps(w, records, now, refresh, capacity, isDefault);
    case Answers(ids) => AnswersKeep(w, ids, capacity, isDefault);
    case Ask(g, d, now) => AskKeeps(w, g, d, now, capacity, isDefault);
    case Published(receipt) =>
      CommitHonours(w.probe, w.open.value, capacity);
      CommitDemands(w.probe, w.open.value, capacity);
      PublishedTracks(w, receipt, capacity, isDefault);
      PublishedMaintains(w, receipt, capacity, isDefault);
    case Unconfirmed(intended, now, landed) =>
      HoldHonours(w.probe, w.open.value, intended, now, capacity);
      HoldDemands(w.probe, w.open.value, intended, now, capacity);
      UnconfirmedTracks(w, intended, now, landed, capacity, isDefault);
      UnconfirmedMaintains(w, intended, now, landed, capacity, isDefault);
    case GiveUp => GiveUpKeeps(w, capacity, isDefault);
    case Land(g) => LandKeeps(w, g, capacity, isDefault);
    case _ => QuietKeeps(w, e, capacity, isDefault);
  }

  // ----- whole runs

  ghost predicate Runs(w: World, es: seq<Event>, capacity: nat, isDefault: bool)
    decreases |es|
  {
    es == [] || (Enabled(w, es[0]) && Runs(Next(w, es[0], capacity, isDefault), es[1..], capacity, isDefault))
  }

  ghost function After(w: World, es: seq<Event>, capacity: nat, isDefault: bool): World
    requires Runs(w, es, capacity, isDefault)
    decreases |es|
  {
    if es == [] then w else After(Next(w, es[0], capacity, isDefault), es[1..], capacity, isDefault)
  }

  lemma {:induction false} RunKeeps(w: World, es: seq<Event>, capacity: nat, isDefault: bool)
    requires Inv(w, capacity) && Runs(w, es, capacity, isDefault)
    ensures Inv(After(w, es, capacity, isDefault), capacity)
    decreases |es|
  {
    if es == [] {
    } else {
      EventKeeps(w, es[0], capacity, isDefault);
      RunKeeps(Next(w, es[0], capacity, isDefault), es[1..], capacity, isDefault);
    }
  }

  /**
   Over every run from an empty context: the cohort is duplicate-free and within its capacity; an endpoint that a
   Gateway's demand claims is a member exactly when it is not departed; and demand tracks the real outputs: it is what
   the output or the unresolved attempt carries, less only what was dropped while rejected since that was published.
   */
  lemma EveryRun(es: seq<Event>, isDefault: bool)
    requires Runs(START, es, CohortCapacity(isDefault), isDefault)
    ensures var w := After(START, es, CohortCapacity(isDefault), isDefault);
            && NoDup(w.probe.cohort) && |w.probe.cohort| <= CohortCapacity(isDefault)
            && (forall g, id :: Claimed(w, g, id) ==> (id in w.probe.cohort <==> id !in w.departed))
            && Tracked(w)
  {
    RunKeeps(START, es, CohortCapacity(isDefault), isDefault);
  }

  /** The events that may end the maintenance of an endpoint for a Gateway. */
  ghost predicate Releases(w: World, e: Event, n: World, g: Uid, id: Id) {
    match e
    case BeginRound(records, _, _) => Compatible(records, id).None?
    case Settle(h, _, _) => h == g && g in n.probe.demand && id !in n.probe.demand[g].selected
    case Touch(_, _) => g !in n.probe.demand
    case Leave(h) => h == g
    case Answers(_) => id in w.probe.rejected
    case Published(_) =>
      w.open.Some? && if w.open.value.gateway == g then g in n.probe.demand && id !in n.probe.demand[g].selected else id in w.probe.rejected
    case Unconfirmed(_, _, _) => id in w.probe.rejected
    case _ => false
  }

  lemma PublishedPersists(w: World, receipt: Receipt, g: Uid, id: Id, capacity: nat, isDefault: bool)
    requires Inv(w, capacity) && Enabled(w, Published(receipt)) && Claimed(w, g, id) && id in w.probe.cohort
    requires !Releases(w, Published(receipt), Next(w, Published(receipt), capacity, isDefault), g, id)
    ensures var n := Next(w, Published(receipt), capacity, isDefault); Claimed(n, g, id) && id in n.probe.cohort
  {
    var r := w.open.value;
    CommitHonours(w.probe, r, capacity);
    CommitDemands(w.probe, r, capacity);
    if g != r.gateway {
      assert w.probe.CommitDemand(r).demand[g].Claims(id);
      AdmitAllKeepsDemanded(w.probe.CommitDemand(r), w.probe.demand[r.gateway].selected, capacity, true, id);
    }
  }

  lemma UnconfirmedPersists(w: World, intended: Receipt, now: nat, landed: bool, g: Uid, id: Id, capacity: nat, isDefault: bool)
    requires Inv(w, capacity) && Enabled(w, Unconfirmed(intended, now, landed))
    requires Claimed(w, g, id) && id in w.probe.cohort && id !in w.probe.rejected
    ensures var n := Next(w, Unconfirmed(intended, now, landed), capacity, isDefault);
            Claimed(n, g, id) && id in n.probe.cohort
  {
    var r := w.open.value;
    HoldHonours(w.probe, r, intended, now, capacity);
    HoldDemands(w.probe, r, intended, now, capacity);
    assert w.probe.HoldDemand(r, intended, now).demand[g].Claims(id);
    AdmitAllKeepsDemanded(w.probe.HoldDemand(r, intended, now), w.probe.demand[r.gateway].selected, capacity, true, id);
  }

  lemma AnswersPersist(w: World, ids: seq<Id>, g: Uid, id: Id, capacity: nat, isDefault: bool)
    requires Inv(w, capacity) && w.open.None?
    requires Claimed(w, g, id) && id in w.probe.cohort && id !in w.probe.rejected
    ensures var n := Next(w, Answers(ids), capacity, isDefault); Claimed(n, g, id) && id in n.probe.cohort
  {
    AdmitAllTrims(w.probe, ids, capacity, false);
    assert w.probe.demand[g].Claims(id);
    AdmitAllKeepsDemanded(w.probe, ids, capacity, false, id);
  }

  lemma DepartedPersists(w: World, e: Event, g: Uid, id: Id, capacity: nat, isDefault: bool)
    requires Inv(w, capacity) && Enabled(w, e) && Claimed(w, g, id) && id in w.probe.cohort && (e.BeginRound? || e.Settle?)
    requires !Releases(w, e, Next(w, e, capacity, isDefault), g, id)
    ensures var n := Next(w, e, capacity, isDefault); Claimed(n, g, id) && id in n.probe.cohort
  {
  }

  lemma DemandPersists(w: World, e: Event, g: Uid, id: Id, capacity: nat, isDefault: bool)
    requires Inv(w, capacity) && Enabled(w, e) && Claimed(w, g, id) && id in w.probe.cohort && (e.Touch? || e.Leave?)
    requires !Releases(w, e, Next(w, e, capacity, isDefault), g, id)
    ensures var n := Next(w, e, capacity, isDefault); Claimed(n, g, id) && id in n.probe.cohort
  {
  }

  lemma OthersPersist(w: World, e: Event, g: Uid, id: Id, capacity: nat, isDefault: bool)
    requires Inv(w, capacity) && Enabled(w, e) && Claimed(w, g, id) && id in w.probe.cohort
    requires !e.Answers? && !e.BeginRound? && !e.Settle? && !e.Published? && !e.Unconfirmed? && !e.Touch? && !e.Leave?
    ensures var n := Next(w, e, capacity, isDefault); Claimed(n, g, id) && id in n.probe.cohort
  {
  }

  lemma EventPersists(w: World, e: Event, g: Uid, id: Id, capacity: nat, isDefault: bool)
    requires Inv(w, capacity) && Enabled(w, e) && Claimed(w, g, id) && id in w.probe.cohort
    requires !Releases(w, e, Next(w, e, capacity, isDefault), g, id)
    ensures var n := Next(w, e, capacity, isDefault); Claimed(n, g, id) && id in n.probe.cohort
  {
    match e
    case Answers(ids) => AnswersPersist(w, ids, g, id, capacity, isDefault);
    case BeginRound(_, _, _) => DepartedPersists(w, e, g, id, capacity, isDefault);
    case Settle(_, _, _) => DepartedPersists(w, e, g, id, capacity, isDefault);
    case Published(receipt) => PublishedPersists(w, receipt, g, id, capacity, isDefault);
    case Unconfirmed(intended, now, landed) => UnconfirmedPersists(w, intended, now, landed, g, id, capacity, isDefault);
    case Touch(_, _) => DemandPersists(w, e, g, id, capacity, isDefault);
    case Leave(_) => DemandPersists(w, e, g, id, capacity, isDefault);
    case _ => OthersPersist(w, e, g, id, capacity, isDefault);
  }

  ghost predicate NeverReleased(w: World, es: seq<Event>, g: Uid, id: Id, capacity: nat, isDefault: bool)
    requires Runs(w, es, capacity, isDefault)
    decreases |es|
  {
    es == [] ||
    var n := Next(w, es[0], capacity, isDefault);
    !Releases(w, es[0], n, g, id) && NeverReleased(n, es[1..], g, id, capacity, isDefault)
  }

  /** A maintained endpoint stays claimed and maintained until it is rejected, leaves the inventory or the
      compatible set, or its Gateway republishes, resolves, moves away or expires. */
  lemma {:induction false} ClaimPersists(w: World, es: seq<Event>, g: Uid, id: Id, capacity: nat, isDefault: bool)
    requires Inv(w, capacity) && Runs(w, es, capacity, isDefault)
    requires Claimed(w, g, id) && id in w.probe.cohort && NeverReleased(w, es, g, id, capacity, isDefault)
    ensures var n := After(w, es, capacity, isDefault); Claimed(n, g, id) && id in n.probe.cohort
    decreases |es|
  {
    if es == [] {
    } else {
      EventPersists(w, es[0], g, id, capacity, isDefault);
      EventKeeps(w, es[0], capacity, isDefault);
      ClaimPersists(Next(w, es[0], capacity, isDefault), es[1..], g, id, capacity, isDefault);
    }
  }

  lemma {:induction false} JobsOfMember(cohort: seq<Id>, records: seq<Record>, chosen: set<Id>, id: Id)
    requires id in cohort && id in chosen && Compatible(records, id).Some?
    ensures exists job :: job in JobsOf(cohort, records, chosen) && job.id == id
  {
    if cohort[0] == id {
      assert JobsOf(cohort, records, chosen)[0].id == id;
    } else {
      JobsOfMember(cohort[1..], records, chosen, id);
      var job :| job in JobsOf(cohort[1..], records, chosen) && job.id == id;
      assert job in JobsOf(cohort, records, chosen);
    }
  }

  /** Every compatible cohort member is in the maintenance list of the next round. */
  lemma MemberIsMaintained(s: Probe, records: seq<Record>, now: nat, refresh: nat, isDefault: bool, id: Id)
    requires s.Due(now) && id in s.cohort && Compatible(records, id).Some?
    ensures exists job :: job in s.Budgeted(records, now, refresh, isDefault).1.maintain && job.id == id
  {
    if id in s.Unprotected() {
      JobsOfMember(s.cohort, records, s.Unprotected(), id);
      var job :| job in JobsOf(s.cohort, records, s.Unprotected()) && job.id == id;
      assert job in s.MaintainJobs(records);
    } else {
      JobsOfMember(s.cohort, records, ToSet(s.cohort) - s.Unprotected(), id);
      var job :| job in JobsOf(s.cohort, records, ToSet(s.cohort) - s.Unprotected()) && job.id == id;
      assert job in s.MaintainJobs(records);
    }
  }

  /** The promise of the scheduler: a claimed endpoint is probed in every later round until it is released. */
  lemma ClaimIsProbed(w: World, es: seq<Event>, g: Uid, id: Id, records: seq<Record>, now: nat, refresh: nat,
                      capacity: nat, isDefault: bool)
    requires Inv(w, capacity) && Runs(w, es, capacity, isDefault)
    requires Claimed(w, g, id) && id in w.probe.cohort && NeverReleased(w, es, g, id, capacity, isDefault)
    requires After(w, es, capacity, isDefault).probe.Due(now) && Compatible(records, id).Some?
    ensures var n := After(w, es, capacity, isDefault).probe;
            exists job :: job in n.Budgeted(records, now, refresh, isDefault).1.maintain && job.id == id
  {
    ClaimPersists(w, es, g, id, capacity, isDefault);
    MemberIsMaintained(After(w, es, capacity, isDefault).probe, records, now, refresh, isDefault, id);
  }

  // ----- unresolved writes

  /** An unresolved write blocks every further reservation of its Gateway. */
  lemma UnresolvedBlocks(w: World, g: Uid, decision: Decision, now: nat, capacity: nat, isDefault: bool)
    requires Inv(w, capacity) && w.open.None? && g in w.tried
    ensures Next(w, Ask(g, decision, now), capacity, isDefault).open.None?
    ensures w.probe.Reserve(g, decision, now, capacity).1 == Err(PublicationUnresolved)
  {
    assert TracksOutput(w.probe.demand[g], g, w.live, w.tried, LostBy(w.lost, g));
  }

  /** The events that may end the Gateway's unresolved write. */
  ghost predicate Resolves(e: Event, n: World, g: Uid) {
    || (e.Settle? && e.gateway == g && g !in n.tried)
    || (e.Leave? && e.gateway == g)
    || (e.Touch? && g !in n.probe.demand)
  }

  lemma TriedPersists(w: World, e: Event, g: Uid, capacity: nat, isDefault: bool)
    requires Enabled(w, e) && g in w.tried && (w.open.Some? ==> w.open.value.gateway != g)
    requires !Resolves(e, Next(w, e, capacity, isDefault), g)
    ensures var n := Next(w, e, capacity, isDefault); g in n.tried && n.tried[g] == w.tried[g]
  {
  }

  ghost predicate NeverResolved(w: World, es: seq<Event>, g: Uid, capacity: nat, isDefault: bool)
    requires Runs(w, es, capacity, isDefault)
    decreases |es|
  {
    es == [] ||
    var n := Next(w, es[0], capacity, isDefault);
    && !Resolves(es[0], n, g)
    && NeverResolved(n, es[1..], g, capacity, isDefault)
  }

  /** A write stays unresolved, with the same receipt to look for, until a read settles it or its Gateway leaves. */
  lemma {:induction false} UnresolvedPersists(w: World, es: seq<Event>, g: Uid, capacity: nat, isDefault: bool)
    requires Inv(w, capacity) && Runs(w, es, capacity, isDefault)
    requires g in w.tried && NeverResolved(w, es, g, capacity, isDefault)
    ensures var n := After(w, es, capacity, isDefault); g in n.tried && n.tried[g] == w.tried[g]
    decreases |es|
  {
    if es == [] {
    } else {
      assert w.open.Some? ==> w.open.value.gateway != g;
      TriedPersists(w, es[0], g, capacity, isDefault);
      EventKeeps(w, es[0], capacity, isDefault);
      UnresolvedPersists(Next(w, es[0], capacity, isDefault), es[1..], g, capacity, isDefault);
    }
  }

  /**
   A truthful read settles the attempt: the attempted selection becomes the demand exactly when the output
   carries its receipt, the current one remains otherwise, and either way the demand is exactly what the output
   carries, less what that selection lost while rejected.
   */
  lemma SettledIsLive(w: World, g: Uid, attempt: nat, written: bool, capacity: nat, isDefault: bool)
    requires Inv(w, capacity) && Enabled(w, Settle(g, attempt, written))
    requires g in w.tried && attempt == w.probe.demand[g].attempt
    ensures var n := Next(w, Settle(g, attempt, written), capacity, isDefault);
            var d := n.probe.demand[g];
            && g !in n.tried && d.uncertain.None?
            && d.selected == (if written then w.probe.demand[g].uncertain.value else w.probe.demand[g].selected)
            && (g in n.live ==> Covers(d.selected, n.live[g].ids, LostBy(n.lost, g).selected))
            && (written ==> g in n.live && n.live[g].receipt == w.tried[g].receipt)
            && (!written && g in n.live ==> n.live[g].receipt != w.tried[g].receipt)
  {
    assert TracksOutput(w.probe.demand[g], g, w.live, w.tried, LostBy(w.lost, g));
    SettleKeeps(w, g, attempt, written, capacity, isDefault);
  }

  /** The receipt a read looks for is that of the unresolved attempt, and it looks for one exactly when there is one. */
  lemma AttemptIsTried(w: World, g: Uid, capacity: nat)
    requires Inv(w, capacity) && w.open.None?
    ensures w.probe.OpenAttempt(g).Some? <==> g in w.tried
    ensures g in w.tried ==> w.probe.OpenAttempt(g) == Some((w.tried[g].receipt, w.probe.demand[g].attempt))
  {
    if g in w.probe.demand {
      assert Standing(w, g) == Some(w.probe.demand[g]);
    }
  }

  /** A read of an older attempt, or a second read, changes nothing. */
  lemma StaleReadIgnored(w: World, g: Uid, attempt: nat, written: bool, capacity: nat, isDefault: bool)
    requires Inv(w, capacity) && Enabled(w, Settle(g, attempt, written))
    requires g in w.tried ==> attempt != w.probe.demand[g].attempt
    ensures Next(w, Settle(g, attempt, written), capacity, isDefault) == w
  {
    if g in w.probe.demand {
      assert TracksOutput(w.probe.demand[g], g, w.live, w.tried, LostBy(w.lost, g));
    }
  }
}
