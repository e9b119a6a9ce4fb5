/**
 Probe rounds: every round stays within its job budget, consecutive rounds reach every compatible endpoint, and
 a stale abandonment never rewinds a newer round.
 */
module ProbeRounds {
  import opened Wrappers
  import opened Finite
  import opened ProbeContext
  import opened ProbeAdmission
  import opened ProbeReservation
  import opened ProbeRuns
  import Cadence

  // ----- the job budget

  lemma {:induction false} JobsOfSplit(cohort: seq<Id>, records: seq<Record>, a: set<Id>, b: set<Id>)
    requires a !! b
    ensures |JobsOf(cohort, records, a)| + |JobsOf(cohort, records, b)| <= |cohort|
  {
    if cohort == [] {
    } else {
      JobsOfSplit(cohort[1..], records, a, b);
    }
  }

  lemma {:induction false} RepeatSize<T>(s: seq<T>, times: nat)
    ensures |Repeat(s, times)| == times * |s|
    ensures times > 0 ==> forall x :: x in s ==> x in Repeat(s, times)
  {
    if times == 0 {
    } else {
      RepeatSize(s, times - 1);
    }
  }

  /** What one scan of the inventory does, from `scanned` records on. */
  lemma {:induction false} ScanCovers(records: seq<Record>, start: nat, scanned: nat, jobs: seq<Record>, limit: int, skip: set<Id>)
    requires start < |records| && scanned <= |records| && |jobs| <= limit
    ensures var (out, end) := Scan(records, start, scanned, jobs, limit, skip);
            && scanned <= end <= |records|
            && |out| <= limit && |out| - |jobs| <= end - scanned
            && (end == |records| || |out| == limit)
            && (forall x :: x in jobs ==> x in out)
            && (forall k :: scanned <= k < end && Explorable(At(records, start, k), skip) ==> At(records, start, k) in out)
    decreases |records| - scanned
  {
    if scanned == |records| || |jobs| >= limit {
    } else {
      var r := At(records, start, scanned);
      ScanCovers(records, start, scanned + 1, if Explorable(r, skip) then jobs + [r] else jobs, limit, skip);
    }
  }

  lemma NextBatchSize(records: seq<Record>, cursor: nat, limit: int, skip: set<Id>)
    requires limit >= 0
    ensures |NextBatch(records, cursor, limit, skip).0| <= limit
  {
    if records != [] {
      ScanCovers(records, if cursor >= |records| then 0 else cursor, 0, [], limit, skip);
    }
  }

  /** A bounded cohort leaves room for at least EXPLORE_MIN newcomers, and the whole round fits its budget. */
  lemma RoundWithinBudget(s: Probe, records: seq<Record>, now: nat, refresh: nat, isDefault: bool)
    requires Bounded(s, CohortCapacity(isDefault)) && s.Due(now)
    ensures var round := s.Budgeted(records, now, refresh, isDefault).1;
            |round.explore| + |round.maintain| <= RoundBudget(isDefault)
  {
    var maintain := s.MaintainJobs(records);
    JobsOfSplit(s.cohort, records, s.Unprotected(), ToSet(s.cohort) - s.Unprotected());
    var limit := s.ExploreLimit(|maintain|, isDefault);
    NextBatchSize(records, s.cursor, limit, ToSet(Keep(s.cohort, records)));
    RepeatSize(NextBatch(records, s.cursor, limit, ToSet(Keep(s.cohort, records))).0, SAMPLES);
  }

  /** Every round of every run stays within the documented budget. */
  lemma EveryRoundWithinBudget(es: seq<Event>, records: seq<Record>, now: nat, refresh: nat, isDefault: bool)
    requires Runs(START, es, CohortCapacity(isDefault), isDefault)
    requires After(START, es, CohortCapacity(isDefault), isDefault).probe.Due(now)
    ensures var round := After(START, es, CohortCapacity(isDefault), isDefault).probe.Budgeted(records, now, refresh, isDefault).1;
            |round.explore| + |round.maintain| <= RoundBudget(isDefault)
  {
    EveryRun(es, isDefault);
    RoundWithinBudget(After(START, es, CohortCapacity(isDefault), isDefault).probe, records, now, refresh, isDefault);
  }

  lemma {:induction false} JobsOfChosen(cohort: seq<Id>, records: seq<Record>, chosen: set<Id>)
    ensures forall job :: job in JobsOf(cohort, records, chosen) ==> job.id in chosen && job.id in cohort && job.fits
  {
    if cohort == [] {
    } else {
      JobsOfChosen(cohort[1..], records, chosen);
    }
  }

  /** Protected members are observed last, closest to the evaluation. */
  lemma ProtectedLast(s: Probe, records: seq<Record>, i: nat, j: nat)
    requires i < j < |s.MaintainJobs(records)| && s.Protected(s.MaintainJobs(records)[i].id)
    ensures s.Protected(s.MaintainJobs(records)[j].id)
  {
    var first := JobsOf(s.cohort, records, s.Unprotected());
    JobsOfChosen(s.cohort, records, s.Unprotected());
    JobsOfChosen(s.cohort, records, ToSet(s.cohort) - s.Unprotected());
    forall k | 0 <= k < |first|
      ensures !s.Protected(first[k].id)
    {
      assert first[k] in first;
    }
    var last := JobsOf(s.cohort, records, ToSet(s.cohort) - s.Unprotected());
    assert s.MaintainJobs(records)[j] == last[j - |first|];
    assert last[j - |first|] in last;
  }

  // ----- exploration reaches everyone

  /** How many records exploration scans before it reaches position p. */
  function Distance(cursor: nat, p: nat, n: nat): nat
    requires p < n
  {
    var start := if cursor >= n then 0 else cursor;
    if p >= start then p - start else p + n - start
  }

  lemma WrapAround(start: nat, k: nat, n: nat)
    requires start < n && k <= n
    ensures (start + k) % n == if start + k < n then start + k else start + k - n
  {
    if start + k >= n {
      assert (start + k) % n == (start + k - n) % n;
    }
  }

  /** The job of record p is in the round, or its endpoint is among the maintained ones. */
  ghost predicate InRound(round: Round, id: Id) {
    exists job :: (job in round.explore || job in round.maintain) && job.id == id
  }

  /** A scan of at least EXPLORE_MIN records, or of all of them, passes record p or moves the cursor towards it. */
  lemma ScanAdvances(start: nat, end: nat, p: nat, n: nat)
    requires start < n && p < n && end <= n && (end == n || end >= EXPLORE_MIN)
    requires Distance(start, p, n) >= end
    ensures Distance((start + end) % n, p, n) + EXPLORE_MIN <= Distance(start, p, n)
  {
    WrapAround(start, end, n);
  }

  lemma ScanPasses(records: seq<Record>, start: nat, p: nat)
    requires start < |records| && p < |records|
    ensures Distance(start, p, |records|) < |records|
    ensures At(records, start, Distance(start, p, |records|)) == records[p]
  {
    WrapAround(start, Distance(start, p, |records|), |records|);
  }

  /** One round either reaches record p or comes at least EXPLORE_MIN records closer to it. */
  lemma RoundAdvances(s: Probe, records: seq<Record>, now: nat, refresh: nat, isDefault: bool, p: nat)
    requires s.Due(now) && p < |records| && records[p].fits
    ensures var (t, round) := s.Budgeted(records, now, refresh, isDefault);
            InRound(round, records[p].id) ||
            Distance(t.cursor, p, |records|) + EXPLORE_MIN <= Distance(s.cursor, p, |records|)
  {
    var start := if s.cursor >= |records| then 0 else s.cursor;
    var limit, skip := s.ExploreLimit(|s.MaintainJobs(records)|, isDefault), ToSet(Keep(s.cohort, records));
    var (jobs, end) := Scan(records, start, 0, [], limit, skip);
    ScanCovers(records, start, 0, [], limit, skip);
    ScanPasses(records, start, p);
    assert Distance(s.cursor, p, |records|) == Distance(start, p, |records|);
    if Distance(start, p, |records|) < end {
      Reached(s, records, now, refresh, isDefault, p, jobs);
    } else {
      ScanAdvances(start, end, p, |records|);
    }
  }

  lemma Reached(s: Probe, records: seq<Record>, now: nat, refresh: nat, isDefault: bool, p: nat, jobs: seq<Record>)
    requires s.Due(now) && p < |records| && records[p].fits
    requires var limit, skip := s.ExploreLimit(|s.MaintainJobs(records)|, isDefault), ToSet(Keep(s.cohort, records));
             && jobs == NextBatch(records, s.cursor, limit, skip).0
             && (Explorable(records[p], skip) ==> records[p] in jobs)
    ensures InRound(s.Budgeted(records, now, refresh, isDefault).1, records[p].id)
  {
    var round := s.Budgeted(records, now, refresh, isDefault).1;
    if records[p].id in Keep(s.cohort, records) {
      MemberIsMaintained(s, records, now, refresh, isDefault, records[p].id);
    } else {
      RepeatSize(jobs, SAMPLES);
      assert records[p] in round.explore;
    }
  }

  function RoundsIn(es: seq<Event>): nat {
    if es == [] then 0 else (if es[0].BeginRound? then 1 else 0) + RoundsIn(es[1..])
  }

  /** The inventory is `records` in every round of the run, and no current round is abandoned. */
  ghost predicate Undisturbed(w: World, es: seq<Event>, records: seq<Record>, capacity: nat, isDefault: bool)
    requires Runs(w, es, capacity, isDefault)
    decreases |es|
  {
    es == [] ||
    (&& (es[0].BeginRound? ==> es[0].records == records)
     && (es[0].Abandon? ==> es[0].round.id != w.probe.round)
     && Undisturbed(Next(w, es[0], capacity, isDefault), es[1..], records, capacity, isDefault))
  }

  /** Some round of the run probes the endpoint, by exploration or maintenance. */
  ghost predicate Probed(w: World, es: seq<Event>, id: Id, capacity: nat, isDefault: bool)
    requires Runs(w, es, capacity, isDefault)
    decreases |es|
  {
    es != [] &&
    ((es[0].BeginRound? && InRound(w.probe.Budgeted(es[0].records, es[0].now, es[0].refresh, isDefault).1, id))
     || Probed(Next(w, es[0], capacity, isDefault), es[1..], id, capacity, isDefault))
  }

  lemma CursorMoves(w: World, e: Event, capacity: nat, isDefault: bool)
    requires Enabled(w, e) && !e.BeginRound?
    ensures var n := Next(w, e, capacity, isDefault);
            && n.probe.round == w.probe.round
            && (n.probe.cursor == w.probe.cursor || (e.Abandon? && e.round.id == w.probe.round))
  {
    match e
    case Answers(ids) => AdmitAllCounters(w.probe, ids, capacity, false);
    case Published(_) =>
      AdmitAllCounters(w.probe.CommitDemand(w.open.value), w.probe.demand[w.open.value.gateway].selected, capacity, true);
    case Unconfirmed(intended, now, _) =>
      AdmitAllCounters(w.probe.HoldDemand(w.open.value, intended, now), w.probe.demand[w.open.value.gateway].selected, capacity, true);
    case _ =>
  }

  lemma {:induction false} RoundsReach(w: World, es: seq<Event>, records: seq<Record>, p: nat, capacity: nat, isDefault: bool)
    requires Runs(w, es, capacity, isDefault) && Undisturbed(w, es, records, capacity, isDefault)
    requires p < |records| && records[p].fits
    requires Distance(w.probe.cursor, p, |records|) < EXPLORE_MIN * RoundsIn(es)
    ensures Probed(w, es, records[p].id, capacity, isDefault)
    decreases |es|
  {
    if es == [] {
    } else {
      var n := Next(w, es[0], capacity, isDefault);
      if es[0].BeginRound? {
        RoundAdvances(w.probe, records, es[0].now, es[0].refresh, isDefault, p);
        if !InRound(w.probe.Budgeted(records, es[0].now, es[0].refresh, isDefault).1, records[p].id) {
          RoundsReach(n, es[1..], records, p, capacity, isDefault);
        }
      } else {
        CursorMoves(w, es[0], capacity, isDefault);
        RoundsReach(n, es[1..], records, p, capacity, isDefault);
      }
    }
  }

  /**
   With a fixed inventory of n records, any ceil(n / EXPLORE_MIN) consecutive rounds that are not abandoned probe
   every compatible endpoint at least once, whatever happens to cohort and demand in between.
   */
  lemma EveryEndpointIsProbed(w: World, es: seq<Event>, records: seq<Record>, r: Record, capacity: nat, isDefault: bool)
    requires Runs(w, es, capacity, isDefault) && Undisturbed(w, es, records, capacity, isDefault)
    requires RoundsIn(es) >= (|records| + EXPLORE_MIN - 1) / EXPLORE_MIN
    requires r in records && r.fits
    ensures Probed(w, es, r.id, capacity, isDefault)
  {
    var p :| 0 <= p < |records| && records[p] == r;
    RoundsReach(w, es, records, p, capacity, isDefault);
  }

  // ----- abandonment

  lemma {:induction false} RoundsGrow(w: World, es: seq<Event>, capacity: nat, isDefault: bool)
    requires Runs(w, es, capacity, isDefault)
    ensures After(w, es, capacity, isDefault).probe.round == w.probe.round + RoundsIn(es)
    decreases |es|
  {
    if es == [] {
    } else {
      if !es[0].BeginRound? {
        CursorMoves(w, es[0], capacity, isDefault);
      }
      RoundsGrow(Next(w, es[0], capacity, isDefault), es[1..], capacity, isDefault);
    }
  }

  /** Abandoning the current round makes it due again at the cursor it started from; once another round has
      begun, abandoning the older one changes nothing. */
  lemma AbandonOnlyCurrent(w: World, records: seq<Record>, now: nat, refresh: nat, es: seq<Event>, capacity: nat, isDefault: bool)
    requires Enabled(w, BeginRound(records, now, refresh))
    requires Runs(Next(w, BeginRound(records, now, refresh), capacity, isDefault), es, capacity, isDefault)
    ensures var round := w.probe.Budgeted(records, now, refresh, isDefault).1;
            var n := After(Next(w, BeginRound(records, now, refresh), capacity, isDefault), es, capacity, isDefault);
            if RoundsIn(es) == 0 then n.probe.Abandon(round).Due(now) && n.probe.Abandon(round).cursor == w.probe.cursor
            else n.probe.Abandon(round) == n.probe
  {
    RoundsGrow(Next(w, BeginRound(records, now, refresh), capacity, isDefault), es, capacity, isDefault);
  }
}
