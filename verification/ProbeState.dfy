/**
 The mutable scheduling state of one probe context and the loops the operator runs on it under its lock. Every
 method is proved equal to the operation on values in ProbeContext.
 */
module ProbeStates {
  import opened Wrappers
  import opened Finite
  import opened Policies
  import opened ProbeContext
  import Cadence

  /** One explanation of a decision, as far as scheduling reads it. */
  datatype Explanation = Explanation(id: Id, failed: bool)

  /** The outcome of one probe job: whether the target answered, and without an infrastructure error. */
  datatype Answer = Answer(id: Id, error: bool, successful: bool)

  function FailedIn(explanations: seq<Explanation>): set<Id> {
    set e | e in explanations && e.failed :: e.id
  }

  function AnsweredIn(answers: seq<Answer>): seq<Id> {
    if answers == [] then []
    else (if !answers[0].error && answers[0].successful then [answers[0].id] else []) + AnsweredIn(answers[1..])
  }

  lemma RemoveFrom(ids: seq<Id>, i: nat, gone: set<Id>)
    requires i < |ids|
    ensures Remove(ids[i..], gone) == if ids[i] in gone then Remove(ids[i + 1..], gone) else [ids[i]] + Remove(ids[i + 1..], gone)
  {
    assert ids[i..][0] == ids[i] && ids[i..][1..] == ids[i + 1..];
  }

  lemma RemoveOne(ids: seq<Id>, i: nat, id: Id, done: seq<Id>)
    requires i < |ids| && done + Remove(ids[i..], {id}) == Remove(ids, {id})
    ensures (if ids[i] != id then done + [ids[i]] else done) + Remove(ids[i + 1..], {id}) == Remove(ids, {id})
  {
    RemoveFrom(ids, i, {id});
    if ids[i] != id {
      ConcatAssociates(done, [ids[i]], Remove(ids[i + 1..], {id}));
    }
  }

  lemma KeepFrom(cohort: seq<Id>, i: nat, records: seq<Record>)
    requires i < |cohort|
    ensures var rest := Keep(cohort[i + 1..], records);
            Keep(cohort[i..], records) == if Compatible(records, cohort[i]).Some? then [cohort[i]] + rest else rest
  {
    assert cohort[i..][0] == cohort[i] && cohort[i..][1..] == cohort[i + 1..];
  }

  lemma KeepOne(cohort: seq<Id>, i: nat, records: seq<Record>, done: seq<Id>)
    requires i < |cohort| && done + Keep(cohort[i..], records) == Keep(cohort, records)
    ensures (if Compatible(records, cohort[i]).Some? then done + [cohort[i]] else done) + Keep(cohort[i + 1..], records)
            == Keep(cohort, records)
  {
    KeepFrom(cohort, i, records);
    ConcatAssociates(done, [cohort[i]], Keep(cohort[i + 1..], records));
  }

  lemma JobsOne(cohort: seq<Id>, i: nat, records: seq<Record>, chosen: set<Id>, done: seq<Record>)
    requires i < |cohort| && done + JobsOf(cohort[i..], records, chosen) == JobsOf(cohort, records, chosen)
    ensures var c := Compatible(records, cohort[i]);
            (if c.Some? && cohort[i] in chosen then done + [c.value] else done) + JobsOf(cohort[i + 1..], records, chosen)
            == JobsOf(cohort, records, chosen)
  {
    assert cohort[i..][0] == cohort[i] && cohort[i..][1..] == cohort[i + 1..];
    var c := Compatible(records, cohort[i]);
    if c.Some? {
      ConcatAssociates(done, [c.value], JobsOf(cohort[i + 1..], records, chosen));
    }
  }

  method Without(ids: seq<Id>, id: Id) returns (r: seq<Id>)
    ensures r == Remove(ids, {id})
  {
    r := [];
    assert ids[0..] == ids;
    for i := 0 to |ids|
      invariant r + Remove(ids[i..], {id}) == Remove(ids, {id})
    {
      RemoveOne(ids, i, id, r);
      if ids[i] != id {
        r := r + [ids[i]];
      }
    }
    assert ids[|ids|..] == [];
  }

  /** Demands that were silent for longer than the evidence window are deleted, pending ones never. */
  method DropSilent(all: map<Uid, Demand>, now: nat) returns (demand: map<Uid, Demand>)
    ensures demand == map g | g in all && (all[g].pending || now - all[g].seen <= EVIDENCE.evidenceWindow) :: all[g]
  {
    demand := all;
    var window := EVIDENCE.evidenceWindow;
    var todo := all.Keys;
    while todo != {}
      invariant todo <= all.Keys
      invariant demand == map g | g in all && (g in todo || all[g].pending || now - all[g].seen <= window) :: all[g]
      decreases |todo|
    {
      var g :| g in todo;
      if !all[g].pending && now - all[g].seen > window {
        demand := demand - {g};
      }
      todo := todo - {g};
    }
  }

  /** slices.IndexFunc for membership in a set: |s| stands for "not found". */
  method IndexIn(s: seq<Id>, x: set<Id>) returns (i: nat)
    ensures i == FirstIn(s, x)
  {
    i := 0;
    while i < |s| && s[i] !in x
      invariant i <= |s|
      invariant i + FirstIn(s[i..], x) == FirstIn(s, x)
    {
      assert s[i..][1..] == s[i + 1..];
      i := i + 1;
    }
  }

  method NextProbeBatch(records: seq<Record>, cursor: nat, limit: int, skip: set<Id>) returns (jobs: seq<Record>, next: nat)
    ensures (jobs, next) == NextBatch(records, cursor, limit, skip)
  {
    var start := if cursor >= |records| then 0 else cursor;
    jobs := [];
    var scanned := 0;
    while scanned < |records| && |jobs| < limit
      invariant scanned <= |records|
      invariant Scan(records, start, scanned, jobs, limit, skip) == Scan(records, start, 0, [], limit, skip)
    {
      var record := records[(start + scanned) % |records|];
      if Explorable(record, skip) {
        jobs := jobs + [record];
      }
      scanned := scanned + 1;
    }
    next := if |records| > 0 then (start + scanned) % |records| else 0;
  }

  /** The last compatible record of each ID. */
  method CompatibleRecords(records: seq<Record>) returns (compatible: map<Id, Record>)
    ensures forall id :: id in compatible <==> Compatible(records, id).Some?
    ensures forall id :: id in compatible ==> Compatible(records, id) == Some(compatible[id])
  {
    compatible := map[];
    for i := 0 to |records|
      invariant forall id :: id in compatible <==> Compatible(records[..i], id).Some?
      invariant forall id :: id in compatible ==> Compatible(records[..i], id) == Some(compatible[id])
    {
      assert records[..i + 1][..i] == records[..i];
      if records[i].fits {
        compatible := compatible[records[i].id := records[i]];
      }
    }
    assert records[..|records|] == records;
  }

  /** Each explored record is probed once per required sample. */
  method RepeatJobs(explore: seq<Record>) returns (jobs: seq<Record>)
    ensures jobs == Repeat(explore, SAMPLES)
  {
    jobs := [];
    for i := 0 to SAMPLES
      invariant jobs == Repeat(explore, i)
    {
      RepeatSnoc(explore, i);
      jobs := jobs + explore;
    }
  }

  class ProbeState {
    var until: nat
    var round: nat
    var cursor: nat
    var cohort: seq<Id>
    var rejected: set<Id>
    var demand: map<Uid, Demand>
    var overloaded: bool
    var attempts: nat

    constructor ()
      ensures View() == Probe(0, 0, 0, [], {}, map[], false, 0)
    {
      until, round, cursor, cohort, rejected, demand, overloaded, attempts := 0, 0, 0, [], {}, map[], false, 0;
    }

    function View(): Probe
      reads this
    {
      Probe(until, round, cursor, cohort, rejected, demand, overloaded, attempts)
    }

    method IsProtected(id: Id) returns (b: bool)
      ensures b == View().Protected(id)
    {
      if id in rejected {
        return false;
      }
      var todo := demand.Keys;
      while todo != {}
        invariant todo <= demand.Keys
        invariant forall g :: g in demand && g !in todo ==> !demand[g].Claims(id)
        decreases |todo|
      {
        var g :| g in todo;
        if demand[g].Claims(id) {
          return true;
        }
        todo := todo - {g};
      }
      return false;
    }

    method UnprotectedMembers() returns (members: set<Id>)
      ensures members == View().Unprotected()
    {
      members := {};
      for i := 0 to |cohort|
        invariant members == set m | m in cohort[..i] && !View().Protected(m)
      {
        var p := IsProtected(cohort[i]);
        assert cohort[..i + 1] == cohort[..i] + [cohort[i]];
        if !p {
          members := members + {cohort[i]};
        }
      }
      assert cohort[..|cohort|] == cohort;
    }

    method Forget(id: Id)
      modifies this`demand
      ensures View() == old(View()).Forget(id)
    {
      var todo := demand.Keys;
      while todo != {}
        invariant todo <= demand.Keys == old(demand).Keys
        invariant forall g :: g in demand ==> demand[g] == if g in todo then old(demand)[g] else old(demand)[g].Without({id})
        decreases |todo|
      {
        var g :| g in todo;
        var d := demand[g];
        var selected := Without(d.selected, id);
        var uncertain := d.uncertain;
        if uncertain.Some? {
          var u := Without(uncertain.value, id);
          uncertain := Some(u);
        }
        demand := demand[g := d.(selected := selected, uncertain := uncertain)];
        todo := todo - {g};
      }
      assert demand == map g | g in old(demand) :: old(demand)[g].Without({id});
    }

    method Admit(id: Id, capacity: nat, selected: bool)
      modifies this`cohort, this`rejected, this`demand
      ensures View() == old(View()).Admit(id, capacity, selected)
    {
      if id in cohort {
        return;
      }
      if |cohort| >= capacity {
        var victim := IndexIn(cohort, rejected);
        if victim == |cohort| && selected {
          var unprotected := UnprotectedMembers();
          victim := IndexIn(cohort, unprotected);
        }
        if victim == |cohort| {
          return;
        }
        var evicted := cohort[victim];
        if evicted in rejected {
          Forget(evicted);
        }
        rejected := rejected - {evicted};
        cohort := cohort[..victim] + cohort[victim + 1..];
      }
      cohort := cohort + [id];
    }

    method AdmitAll(ids: seq<Id>, capacity: nat, selected: bool)
      modifies this`cohort, this`rejected, this`demand
      ensures View() == old(View()).AdmitAll(ids, capacity, selected)
    {
      for i := 0 to |ids|
        invariant View().AdmitAll(ids[i..], capacity, selected) == old(View()).AdmitAll(ids, capacity, selected)
      {
        assert ids[i..][0] == ids[i] && ids[i..][1..] == ids[i + 1..];
        Admit(ids[i], capacity, selected);
      }
    }

    method ObserveVerdicts(explanations: seq<Explanation>)
      modifies this`rejected
      ensures forall selected :: View() == old(View()).ObserveVerdicts(Decision(selected, FailedIn(explanations)))
    {
      rejected := {};
      for i := 0 to |explanations|
        invariant rejected == set id | id in cohort && id in FailedIn(explanations[..i])
      {
        var e := explanations[i];
        assert explanations[..i + 1] == explanations[..i] + [e];
        assert FailedIn(explanations[..i + 1]) == FailedIn(explanations[..i]) + (if e.failed then {e.id} else {});
        if e.id in cohort && e.failed {
          rejected := rejected + {e.id};
        }
      }
      assert explanations[..|explanations|] == explanations;
    }

    /** The union of everything a reservation has to fit next to. */
    method NeededFor(gateway: Uid, selected: seq<Id>) returns (needed: set<Id>)
      ensures needed == View().Needed(gateway, selected)
    {
      needed := {};
      var todo := demand.Keys;
      while todo != {}
        invariant todo <= demand.Keys
        invariant forall id :: id in needed <==>
                                 exists g :: g in demand && g !in todo && View().Counts(gateway, g, demand[g], id)
        decreases |todo|
      {
        var g :| g in todo;
        var d := demand[g];
        needed := needed + set id | id in d.Ids() && View().Counts(gateway, g, d, id);
        todo := todo - {g};
      }
      needed := needed + ToSet(selected);
    }

    method ReserveSelection(gateway: Uid, selected: seq<Id>, explanations: seq<Explanation>, now: nat, capacity: nat)
      returns (result: Result<Reservation, Refusal>)
      modifies this`rejected, this`demand
      ensures (View(), result) == old(View()).Reserve(gateway, Decision(selected, FailedIn(explanations)), now, capacity)
    {
      ObserveVerdicts(explanations);
      assert View() == old(View()).ObserveVerdicts(Decision(selected, FailedIn(explanations)));
      if gateway in demand && demand[gateway].uncertain.Some? {
        return Err(PublicationUnresolved);
      }
      var needed := NeededFor(gateway, selected);
      if |needed| > capacity {
        return Err(CapacityExceeded);
      }
      var previous := if gateway in demand then Some(demand[gateway]) else None;
      var pending := if previous.Some? then previous.value else NO_DEMAND;
      demand := demand[gateway := pending.(selected := selected, seen := now, pending := true)];
      return Ok(Reservation(gateway, previous));
    }

    method CommitSelection(reservation: Reservation, capacity: nat)
      modifies this`cohort, this`rejected, this`demand
      ensures View() == old(View()).Commit(reservation, capacity)
    {
      if reservation.gateway !in demand || !demand[reservation.gateway].pending {
        return;
      }
      var d := demand[reservation.gateway].(pending := false, uncertain := None, intended := NO_RECEIPT);
      demand := demand[reservation.gateway := d];
      AdmitAll(d.selected, capacity, true);
    }

    method HoldUncertain(reservation: Reservation, intended: Receipt, now: nat, capacity: nat)
      modifies this`cohort, this`rejected, this`demand, this`attempts
      ensures View() == old(View()).Hold(reservation, intended, now, capacity)
    {
      if reservation.gateway !in demand || !demand[reservation.gateway].pending {
        return;
      }
      var d := demand[reservation.gateway];
      attempts := attempts + 1;
      var held := if reservation.previous.Some? then reservation.previous.value else NO_DEMAND;
      held := held.(uncertain := Some(d.selected), intended := intended, attempt := attempts, seen := now, pending := false);
      demand := demand[reservation.gateway := held];
      AdmitAll(d.selected, capacity, true);
    }

    /** The receipt an unresolved write has to be compared with, and the attempt it belongs to. */
    method FindAttempt(gateway: Uid) returns (r: Option<(Receipt, nat)>)
      ensures r == View().OpenAttempt(gateway)
    {
      if gateway !in demand || demand[gateway].pending || demand[gateway].uncertain.None? {
        return None;
      }
      return Some((demand[gateway].intended, demand[gateway].attempt));
    }

    /** `read` is the receipt of the current output, or nothing when the output cannot be read. */
    method ResolveUncertain(gateway: Uid, read: Option<Option<Receipt>>)
      modifies this`demand
      ensures var open := old(View()).OpenAttempt(gateway);
              View() == if open.None? || read.None? then old(View())
                        else old(View()).Settle(gateway, open.value.1, read.value == Some(open.value.0))
    {
      var open := FindAttempt(gateway);
      if open.None? || read.None? {
        return;
      }
      var (intended, attempt) := open.value;
      SettleRead(gateway, attempt, read.value == Some(intended));
    }

    method SettleRead(gateway: Uid, attempt: nat, written: bool)
      modifies this`demand
      ensures View() == old(View()).Settle(gateway, attempt, written)
    {
      if gateway !in demand || demand[gateway].pending || demand[gateway].attempt != attempt || demand[gateway].uncertain.None? {
        return;
      }
      var d := demand[gateway];
      if written {
        d := d.(selected := d.uncertain.value);
      }
      demand := demand[gateway := d.(uncertain := None, intended := NO_RECEIPT)];
    }

    method ReleaseSelection(reservation: Reservation)
      modifies this`demand
      ensures View() == old(View()).Release(reservation)
    {
      if reservation.gateway !in demand || !demand[reservation.gateway].pending {
        return;
      }
      if reservation.previous.Some? {
        demand := demand[reservation.gateway := reservation.previous.value];
      } else {
        demand := demand - {reservation.gateway};
      }
    }

    method TouchHere(gateway: Uid, now: nat)
      modifies this`demand
      ensures View() == old(View()).Touch(gateway, now)
    {
      if gateway in demand && !demand[gateway].pending {
        demand := demand[gateway := demand[gateway].(seen := now)];
      }
      demand := DropSilent(demand, now);
    }

    method Drop(gateway: Uid)
      modifies this`demand
      ensures View() == old(View()).Leave(gateway)
    {
      demand := demand - {gateway};
    }

    method RecordProbeResults(answers: seq<Answer>, capacity: nat)
      modifies this`cohort, this`rejected, this`demand
      ensures View() == old(View()).RecordResults(AnsweredIn(answers), capacity)
    {
      for i := 0 to |answers|
        invariant View().AdmitAll(AnsweredIn(answers[i..]), capacity, false)
                  == old(View()).AdmitAll(AnsweredIn(answers), capacity, false)
      {
        assert answers[i..][0] == answers[i] && answers[i..][1..] == answers[i + 1..];
        if !answers[i].error && answers[i].successful {
          assert AnsweredIn(answers[i..]) == [answers[i].id] + AnsweredIn(answers[i + 1..]);
          assert AnsweredIn(answers[i..])[1..] == AnsweredIn(answers[i + 1..]);
          Admit(answers[i].id, capacity, false);
        } else {
          assert AnsweredIn(answers[i..]) == AnsweredIn(answers[i + 1..]);
        }
      }
    }

    method AbandonRound(r: Round)
      modifies this`until, this`cursor
      ensures View() == old(View()).Abandon(r)
    {
      if round == r.id {
        until, cursor := 0, r.cursor;
      }
    }

    method CompleteRound(r: Round, late: bool)
      modifies this`overloaded
      ensures View() == old(View()).Complete(r, late)
    {
      if round == r.id {
        overloaded := late;
      }
    }

    /** Split the cohort into kept members, plain maintenance and protected maintenance. */
    method SplitCohort(compatible: map<Id, Record>, ghost records: seq<Record>)
      returns (kept: seq<Id>, maintain: seq<Record>, demanded: seq<Record>)
      requires forall id :: id in compatible <==> Compatible(records, id).Some?
      requires forall id :: id in compatible ==> Compatible(records, id) == Some(compatible[id])
      ensures kept == Keep(cohort, records)
      ensures maintain == JobsOf(cohort, records, View().Unprotected())
      ensures demanded == JobsOf(cohort, records, ToSet(cohort) - View().Unprotected())
    {
      kept, maintain, demanded := [], [], [];
      ghost var plain, last := View().Unprotected(), ToSet(cohort) - View().Unprotected();
      assert cohort[0..] == cohort;
      for i := 0 to |cohort|
        invariant kept + Keep(cohort[i..], records) == Keep(cohort, records)
        invariant maintain + JobsOf(cohort[i..], records, plain) == JobsOf(cohort, records, plain)
        invariant demanded + JobsOf(cohort[i..], records, last) == JobsOf(cohort, records, last)
      {
        var id := cohort[i];
        KeepOne(cohort, i, records, kept);
        JobsOne(cohort, i, records, plain, maintain);
        JobsOne(cohort, i, records, last, demanded);
        if id in compatible {
          var p := IsProtected(id);
          if p {
            demanded := demanded + [compatible[id]];
          } else {
            maintain := maintain + [compatible[id]];
          }
          kept := kept + [id];
        }
      }
    }

    method BudgetedJobs(records: seq<Record>, now: nat, refresh: nat, isDefault: bool) returns (r: Option<Round>)
      modifies this`until, this`round, this`cursor, this`cohort
      ensures r.Some? <==> old(View()).Due(now)
      ensures r.Some? ==> (View(), r.value) == old(View()).Budgeted(records, now, refresh, isDefault)
      ensures r.None? ==> View() == old(View())
    {
      if now < until {
        return None;
      }
      var compatible := CompatibleRecords(records);
      var kept, maintain, demanded := SplitCohort(compatible, records);
      maintain := maintain + demanded;
      var limit := Cadence.Max(EXPLORE_MIN, Cadence.TruncDiv(RoundBudget(isDefault) - |maintain|, SAMPLES));
      var explore, next := NextProbeBatch(records, cursor, limit, ToSet(kept));
      var window := Cadence.ProbeCadence(EVIDENCE);
      if refresh > 0 {
        window := Cadence.Min(window, refresh);
      }
      var from := cursor;
      until, round, cohort, cursor := now + window, round + 1, kept, next;
      var jobs := RepeatJobs(explore);
      return Some(Round(round, jobs, maintain, from));
    }
  }

  lemma {:induction false} RepeatSnoc<T>(s: seq<T>, times: nat)
    ensures Repeat(s, times + 1) == Repeat(s, times) + s
  {
    if times == 0 {
      assert Repeat(s, 1) == s + Repeat(s, 0);
    } else {
      RepeatSnoc(s, times - 1);
      assert s + (Repeat(s, times - 1) + s) == (s + Repeat(s, times - 1)) + s;
    }
  }

  /** All probe contexts of one operator. Contexts never share their state. */
  class Pipeline {
    var probes: map<string, ProbeState>

    constructor ()
      ensures probes == map[]
    {
      probes := map[];
    }

    ghost predicate Valid()
      reads this
    {
      forall k, l :: k in probes && l in probes && k != l ==> probes[k] != probes[l]
    }

    /** The Gateway evaluates in `key`: its demand there stays alive, its demand everywhere else is released. */
    method TouchDemand(key: string, gateway: Uid, now: nat)
      requires Valid()
      modifies probes.Values
      ensures Valid() && probes == old(probes)
      ensures forall k :: k in probes && k != key ==> probes[k].View() == old(probes[k].View()).Leave(gateway)
      ensures key in probes ==> probes[key].View() == old(probes[key].View()).Touch(gateway, now)
    {
      ReleaseElsewhere(key, gateway);
      if key in probes {
        probes[key].TouchHere(gateway, now);
      }
    }

    method ReleaseElsewhere(key: string, gateway: Uid)
      requires Valid()
      modifies probes.Values
      ensures Valid() && probes == old(probes)
      ensures forall k :: k in probes && k != key ==> probes[k].View() == old(probes[k].View()).Leave(gateway)
      ensures key in probes ==> probes[key].View() == old(probes[key].View())
    {
      var todo := probes.Keys - {key};
      while todo != {}
        invariant todo <= probes.Keys - {key} && probes == old(probes)
        invariant forall k :: k in probes ==>
                    probes[k].View() == if k in todo || k == key then old(probes[k].View()) else old(probes[k].View()).Leave(gateway)
        decreases |todo|
      {
        var k :| k in todo;
        probes[k].Drop(gateway);
        todo := todo - {k};
      }
    }
  }
}
