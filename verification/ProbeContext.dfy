/**
 One probe context shared by several Gateways: the bounded cohort of maintained endpoints, the verdicts
 of the latest decision and each Gateway's demand, as a value. Every operation the operator performs under
 its lock is a function on that value; the class ProbeState refines them in place.
 */
module ProbeContext {
  import opened Wrappers
  import opened Finite
  import opened Policies
  import Cadence

  type Id = string
  type Uid = string
  type Receipt = string

  const NO_RECEIPT: Receipt := ""
  const MAX_PROBE_BATCH: int := 64
  const NAMED_PROBE_BATCH: int := 30
  const EXPLORE_MIN: int := 2
  const EVIDENCE: Policy := DefaultPolicy(Adaptive)
  const SAMPLES: int := EVIDENCE.minSamples

  function RoundBudget(isDefault: bool): nat {
    if isDefault then MAX_PROBE_BATCH else NAMED_PROBE_BATCH
  }

  function CohortCapacity(isDefault: bool): nat {
    RoundBudget(isDefault) - EXPLORE_MIN * SAMPLES
  }

  function MaintainableTopN(isDefault: bool, requested: int): int {
    Cadence.Max(1, Cadence.Min(requested, CohortCapacity(isDefault)))
  }

  /** What a decision means for scheduling: the IDs it selects and the IDs it rejected for a failure
      streak or unreliability. An ID can be in both when two of its revisions are judged apart. */
  datatype Decision = Decision(selected: seq<Id>, failed: set<Id>)

  datatype Demand = Demand(selected: seq<Id>, seen: nat, pending: bool,
                           uncertain: Option<seq<Id>>, intended: Receipt, attempt: nat)
  {
    predicate Claims(id: Id) {
      id in selected || (uncertain.Some? && id in uncertain.value)
    }

    function Ids(): (ids: set<Id>)
      ensures forall id :: id in ids <==> Claims(id)
    {
      (set id | id in selected) + (if uncertain.Some? then set id | id in uncertain.value else {})
    }

    function Without(ids: set<Id>): Demand {
      this.(selected := Remove(selected, ids),
      uncertain := if uncertain.Some? then Some(Remove(uncertain.value, ids)) else None)
    }
  }

  const NO_DEMAND: Demand := Demand([], 0, false, None, NO_RECEIPT, 0)

  datatype Reservation = Reservation(gateway: Uid, previous: Option<Demand>)

  datatype Refusal = CapacityExceeded | PublicationUnresolved

  /** One endpoint record of the inventory; `fits` is the exact-engine compatibility of its revision. */
  datatype Record = Record(id: Id, revision: string, fits: bool)

  datatype Round = Round(id: nat, explore: seq<Record>, maintain: seq<Record>, cursor: nat)

  function Remove(s: seq<Id>, ids: set<Id>): (r: seq<Id>)
    ensures forall x :: x in r <==> x in s && x !in ids
  {
    if s == [] then []
    else
      assert forall x :: x in s <==> x == s[0] || x in s[1..];
      (if s[0] in ids then [] else [s[0]]) + Remove(s[1..], ids)
  }

  /** Index of the first element of s that lies in x, or |s|. */
  function FirstIn(s: seq<Id>, x: set<Id>): (i: nat)
    ensures i <= |s|
    ensures i < |s| ==> s[i] in x
    ensures forall j :: 0 <= j < i ==> s[j] !in x
  {
    if s == [] || s[0] in x then 0 else 1 + FirstIn(s[1..], x)
  }

  function DeleteAt(s: seq<Id>, i: nat): (r: seq<Id>)
    requires i < |s|
  {
    s[..i] + s[i + 1..]
  }

  datatype Probe = Probe(until: nat, round: nat, cursor: nat, cohort: seq<Id>, rejected: set<Id>,
                         demand: map<Uid, Demand>, overloaded: bool, attempts: nat)
  {
    predicate Demanded(id: Id) {
      exists g :: g in demand && demand[g].Claims(id)
    }

    predicate Protected(id: Id) {
      id !in rejected && Demanded(id)
    }

    function Unprotected(): set<Id> {
      set m | m in cohort && !Protected(m)
    }

    function Forget(id: Id): Probe {
      this.(demand := map g | g in demand :: demand[g].Without({id}))
    }

    /** The index admit would evict from a full cohort, or |cohort| when nobody may yield. */
    function Victim(selected: bool): (v: nat)
      ensures v <= |cohort|
    {
      var v := FirstIn(cohort, rejected);
      if v == |cohort| && selected then FirstIn(cohort, Unprotected()) else v
    }

    function Evict(v: nat): Probe
      requires v < |cohort|
    {
      var evicted := cohort[v];
      var s := if evicted in rejected then Forget(evicted) else this;
      s.(rejected := rejected - {evicted}, cohort := DeleteAt(cohort, v))
    }

    function Admit(id: Id, capacity: nat, selected: bool): Probe {
      if id in cohort then this
      else if |cohort| < capacity then this.(cohort := cohort + [id])
      else
        var v := Victim(selected);
        if v == |cohort| then this
        else
          var s := Evict(v);
          s.(cohort := s.cohort + [id])
    }

    function AdmitAll(ids: seq<Id>, capacity: nat, selected: bool): Probe
      decreases |ids|
    {
      if ids == [] then this
      else Admit(ids[0], capacity, selected).AdmitAll(ids[1..], capacity, selected)
    }

    function ObserveVerdicts(decision: Decision): Probe {
      this.(rejected := set id | id in cohort && id in decision.failed)
    }

    /** Whether demand d of Gateway g counts endpoint id against a reservation for `gateway`. */
    predicate Counts(gateway: Uid, g: Uid, d: Demand, id: Id) {
      || (id in d.selected && ((g != gateway && d.pending) || (id in cohort && id !in rejected)))
      || (d.uncertain.Some? && id in d.uncertain.value && id in cohort && id !in rejected)
    }

    /** The endpoints that must be maintained together if this selection is admitted next to the
        context's other demand and the Gateway's own current output. */
    function Needed(gateway: Uid, selected: seq<Id>): set<Id> {
      (set g, id | g in demand && id in demand[g].Ids() && Counts(gateway, g, demand[g], id) :: id) + ToSet(selected)
    }

    predicate Unresolved(gateway: Uid) {
      gateway in demand && demand[gateway].uncertain.Some?
    }

    function Refusal(gateway: Uid, selected: seq<Id>, capacity: nat): Option<Refusal> {
      if Unresolved(gateway) then Some(PublicationUnresolved)
      else if |Needed(gateway, selected)| > capacity then Some(CapacityExceeded)
      else None
    }

    function Previous(gateway: Uid): Option<Demand> {
      if gateway in demand then Some(demand[gateway]) else None
    }

    /** A refused reservation leaves only the verdicts behind. */
    function Reserve(gateway: Uid, decision: Decision, now: nat, capacity: nat): (Probe, Result<Reservation, Refusal>) {
      var s := ObserveVerdicts(decision);
      var refusal := s.Refusal(gateway, decision.selected, capacity);
      if refusal.Some? then (s, Err(refusal.value))
      else
        var previous := s.Previous(gateway);
        var base := if previous.Some? then previous.value else NO_DEMAND;
        var pending := base.(selected := decision.selected, seen := now, pending := true);
        (s.(demand := s.demand[gateway := pending]), Ok(Reservation(gateway, previous)))
    }

    predicate Pending(gateway: Uid) {
      gateway in demand && demand[gateway].pending
    }

    function CommitDemand(reservation: Reservation): Probe
      requires Pending(reservation.gateway)
    {
      var d := demand[reservation.gateway].(pending := false, uncertain := None, intended := NO_RECEIPT);
      this.(demand := demand[reservation.gateway := d])
    }

    function Commit(reservation: Reservation, capacity: nat): Probe {
      if !Pending(reservation.gateway) then this
      else
        var s := CommitDemand(reservation);
        s.AdmitAll(s.demand[reservation.gateway].selected, capacity, true)
    }

    function HoldDemand(reservation: Reservation, intended: Receipt, now: nat): Probe
      requires Pending(reservation.gateway)
    {
      var base := if reservation.previous.Some? then reservation.previous.value else NO_DEMAND;
      var held := base.(uncertain := Some(demand[reservation.gateway].selected), intended := intended,
      attempt := attempts + 1, seen := now, pending := false);
      this.(attempts := attempts + 1, demand := demand[reservation.gateway := held])
    }

    function Hold(reservation: Reservation, intended: Receipt, now: nat, capacity: nat): Probe {
      if !Pending(reservation.gateway) then this
      else
        HoldDemand(reservation, intended, now)
        .AdmitAll(demand[reservation.gateway].selected, capacity, true)
    }

    function Release(reservation: Reservation): Probe {
      if !Pending(reservation.gateway) then this
      else if reservation.previous.Some? then
        this.(demand := demand[reservation.gateway := reservation.previous.value])
      else this.(demand := demand - {reservation.gateway})
    }

    /** The receipt to look for and the attempt it belongs to, when a write is unresolved. */
    function OpenAttempt(gateway: Uid): Option<(Receipt, nat)> {
      if Unresolved(gateway) && !demand[gateway].pending
      then Some((demand[gateway].intended, demand[gateway].attempt))
      else None
    }

    function Settle(gateway: Uid, attempt: nat, written: bool): Probe {
      if !Unresolved(gateway) || demand[gateway].pending || demand[gateway].attempt != attempt then this
      else
        var d := demand[gateway];
        var kept := if written then d.(selected := d.uncertain.value) else d;
        this.(demand := demand[gateway := kept.(uncertain := None, intended := NO_RECEIPT)])
    }

    /** The Gateway evaluates here: its demand stays alive, others silent for a window expire. */
    function Touch(gateway: Uid, now: nat): Probe {
      var d := if gateway in demand && !demand[gateway].pending
               then demand[gateway := demand[gateway].(seen := now)] else demand;
      this.(demand := map g | g in d && (d[g].pending || now - d[g].seen <= EVIDENCE.evidenceWindow) :: d[g])
    }

    /** The Gateway evaluates in another context. */
    function Leave(gateway: Uid): Probe {
      this.(demand := demand - {gateway})
    }

    function RecordResults(answered: seq<Id>, capacity: nat): Probe {
      AdmitAll(answered, capacity, false)
    }

    function Abandon(r: Round): Probe {
      if round == r.id then this.(until := 0, cursor := r.cursor) else this
    }

    function Complete(r: Round, late: bool): Probe {
      if round == r.id then this.(overloaded := late) else this
    }

    /** The cohort's jobs of a round: unprotected members first, protected ones last. */
    function MaintainJobs(records: seq<Record>): seq<Record> {
      JobsOf(cohort, records, Unprotected()) + JobsOf(cohort, records, ToSet(cohort) - Unprotected())
    }

    function ExploreLimit(maintained: nat, isDefault: bool): int {
      Cadence.Max(EXPLORE_MIN, Cadence.TruncDiv(RoundBudget(isDefault) - maintained, SAMPLES))
    }

    function Due(now: nat): bool {
      until <= now
    }

    function Budgeted(records: seq<Record>, now: nat, refresh: nat, isDefault: bool): (Probe, Round)
      requires Due(now)
    {
      var window := Cadence.ProbeCadence(EVIDENCE);
      var maintain := MaintainJobs(records);
      var kept := Keep(cohort, records);
      var (jobs, next) := NextBatch(records, cursor, ExploreLimit(|maintain|, isDefault), ToSet(kept));
      (this.(until := now + (if refresh > 0 then Cadence.Min(window, refresh) else window),
      round := round + 1, cohort := kept, cursor := next),
      Round(round + 1, Repeat(jobs, SAMPLES), maintain, cursor))
    }
  }

  /** The record a maintained ID is probed with: the last compatible one of the inventory. */
  function Compatible(records: seq<Record>, id: Id): (r: Option<Record>)
    ensures r.Some? ==> r.value in records && r.value.id == id && r.value.fits
    ensures r.None? ==> forall x :: x in records && x.id == id ==> !x.fits
  {
    if records == [] then None
    else
      var last := records[|records| - 1];
      if last.id == id && last.fits then Some(last) else Compatible(records[..|records| - 1], id)
  }

  function Keep(cohort: seq<Id>, records: seq<Record>): (r: seq<Id>)
    ensures forall x :: x in r <==> x in cohort && Compatible(records, x).Some?
  {
    if cohort == [] then []
    else
      assert forall x :: x in cohort <==> x == cohort[0] || x in cohort[1..];
      if Compatible(records, cohort[0]).Some? then [cohort[0]] + Keep(cohort[1..], records)
      else Keep(cohort[1..], records)
  }

  /** The jobs of the compatible members of `chosen`, in cohort order. */
  function JobsOf(cohort: seq<Id>, records: seq<Record>, chosen: set<Id>): (r: seq<Record>)
  {
    if cohort == [] then []
    else
      var c := Compatible(records, cohort[0]);
      if c.Some? && cohort[0] in chosen then [c.value] + JobsOf(cohort[1..], records, chosen)
      else JobsOf(cohort[1..], records, chosen)
  }

  function Repeat<T>(s: seq<T>, times: nat): seq<T> {
    if times == 0 then [] else s + Repeat(s, times - 1)
  }

  predicate Explorable(r: Record, skip: set<Id>) {
    r.id !in skip && r.fits
  }

  /** The k-th record after `start`, around the end of the inventory. */
  function At(records: seq<Record>, start: nat, k: nat): (r: Record)
    requires records != []
    ensures r in records
  {
    records[(start + k) % |records|]
  }

  /** Scan the inventory circularly from `start`, past `scanned` records already seen. */
  function Scan(records: seq<Record>, start: nat, scanned: nat, jobs: seq<Record>, limit: int, skip: set<Id>): (seq<Record>, nat)
    requires scanned <= |records|
    decreases |records| - scanned
  {
    if scanned == |records| || |jobs| >= limit then (jobs, scanned)
    else
      var r := At(records, start, scanned);
      Scan(records, start, scanned + 1, if Explorable(r, skip) then jobs + [r] else jobs, limit, skip)
  }

  function NextBatch(records: seq<Record>, cursor: nat, limit: int, skip: set<Id>): (seq<Record>, nat) {
    var start := if cursor >= |records| then 0 else cursor;
    var (jobs, scanned) := Scan(records, start, 0, [], limit, skip);
    (jobs, if |records| > 0 then (start + scanned) % |records| else 0)
  }
}
