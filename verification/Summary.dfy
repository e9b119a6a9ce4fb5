/** Evidence summaries, as a function of the rows in the window, and the store that feeds them. */
module Summaries {
  import opened Wrappers
  import opened Sorting
  import opened Selection
  import opened Retention

  predicate InWindow(o: Observation, now: nat, window: int) { now - window <= o.completedAt <= now }

  function Filter(values: seq<Observation>, now: nat, window: int): (r: seq<Observation>)
    ensures forall o :: o in r <==> o in values && InWindow(o, now, window)
  {
    if values == [] then []
    else (if InWindow(values[0], now, window) then [values[0]] else []) + Filter(values[1..], now, window)
  }

  function KeyedRows(values: seq<Observation>): (r: seq<Keyed<Observation>>)
    ensures |r| == |values|
    ensures forall i :: 0 <= i < |values| ==> r[i] == Keyed(values[i].Order(), values[i])
  {
    seq(|values|, i requires 0 <= i < |values| => Keyed(values[i].Order(), values[i]))
  }

  function InOrder(values: seq<Observation>): seq<Observation> { Values(Sort(KeyedRows(values))) }

  // ----- what a summary says of an ordered list

  function Successes(values: seq<Observation>): nat {
    if values == [] then 0 else (if values[0].success then 1 else 0) + Successes(values[1..])
  }

  function TotalDuration(values: seq<Observation>): nat {
    if values == [] then 0 else (if values[0].success then values[0].duration else 0) + TotalDuration(values[1..])
  }

  /** The length of the longest suffix whose outcomes are all `success`. */
  function Streak(values: seq<Observation>, success: bool): (n: nat)
    ensures n <= |values|
  {
    if values == [] || values[|values| - 1].success != success then 0
    else 1 + Streak(values[..|values| - 1], success)
  }

  lemma {:induction false} StreakMeans(values: seq<Observation>, success: bool)
    ensures var n := Streak(values, success);
            && (forall i :: |values| - n <= i < |values| ==> values[i].success == success)
            && (n < |values| ==> values[|values| - n - 1].success != success)
  {
    if values == [] {
    } else if values[|values| - 1].success == success {
      StreakMeans(values[..|values| - 1], success);
    }
  }

  /** The last success of the list. */
  function LatestSuccess(values: seq<Observation>): Option<Observation> {
    if values == [] then None
    else
      var rest := LatestSuccess(values[1..]);
      if rest.Some? then rest else if values[0].success then Some(values[0]) else None
  }

  lemma {:induction false} LatestSuccessMeans(values: seq<Observation>)
    ensures match LatestSuccess(values)
            case None => Successes(values) == 0 && forall i :: 0 <= i < |values| ==> !values[i].success
            case Some(o) => exists i :: 0 <= i < |values| && values[i] == o && o.success && NoneAfter(values, i)
  {
    if values == [] {
    } else {
      LatestSuccessMeans(values[1..]);
      var rest := LatestSuccess(values[1..]);
      if rest.Some? {
        var i :| 0 <= i < |values[1..]| && values[1..][i] == rest.value && rest.value.success && NoneAfter(values[1..], i);
        assert values[i + 1] == rest.value;
        forall j | i + 1 < j < |values|
          ensures !values[j].success
        {
          assert values[1..][j - 1] == values[j];
        }
        assert NoneAfter(values, i + 1);
      } else {
        forall j | 0 < j < |values|
          ensures !values[j].success
        {
          assert values[1..][j - 1] == values[j];
        }
        assert NoneAfter(values, 0);
      }
    }
  }

  predicate NoneAfter(values: seq<Observation>, i: int) {
    forall j :: 0 <= i < j < |values| ==> !values[j].success
  }

  /** A summary with the parts that selection does not read. The ratio is exact. */
  datatype Evidence = Evidence(summary: Summary, ratio: real, latest: Option<Observation>, latestSuccess: Option<Observation>)

  function EvidenceOf(key: EvidenceKey, ordered: seq<Observation>, now: nat, freshness: int): Evidence {
    Evidence(SummaryOf(key, ordered, now, freshness),
             if ordered == [] then 0.0 else Successes(ordered) as real / |ordered| as real,
             if ordered == [] then None else Some(ordered[|ordered| - 1]),
             LatestSuccess(ordered))
  }

  function SummaryOf(key: EvidenceKey, ordered: seq<Observation>, now: nat, freshness: int): Summary {
    Summary(key.context, key.connection, |ordered|, Successes(ordered),
            if Successes(ordered) > 0 then TotalDuration(ordered) / Successes(ordered) else 0,
            Streak(ordered, true), Streak(ordered, false),
            ordered != [] && now - ordered[|ordered| - 1].completedAt <= freshness)
  }

  predicate OfOneKey(values: seq<Observation>, key: EvidenceKey) {
    forall i :: 0 <= i < |values| ==> values[i].key == key
  }

  datatype SummaryError = BadBounds | OtherKey

  function Summarized(key: EvidenceKey, values: seq<Observation>, now: nat, window: int, freshness: int): Result<Evidence, SummaryError> {
    if now == 0 || window <= 0 || freshness <= 0 then Err(BadBounds)
    else if !OfOneKey(values, key) then Err(OtherKey)
    else Ok(EvidenceOf(key, InOrder(Filter(values, now, window)), now, freshness))
  }

  // ----- a summary depends on the rows in the window only

  ghost predicate DistinctSamples(values: seq<Observation>) {
    forall i, j :: 0 <= i < j < |values| ==> values[i].sample != values[j].sample
  }

  lemma {:induction false} FilterKeepsDistinct(values: seq<Observation>, now: nat, window: int)
    requires DistinctSamples(values)
    ensures DistinctSamples(Filter(values, now, window))
  {
    if values == [] {
    } else {
      var rest := Filter(values[1..], now, window);
      FilterKeepsDistinct(values[1..], now, window);
      forall i | 0 <= i < |rest|
        ensures rest[i].sample != values[0].sample
      {
        assert rest[i] in rest;
        assert rest[i] in values[1..];
      }
    }
  }

  lemma DistinctAscending(values: seq<Observation>)
    requires DistinctSamples(values)
    ensures var u := Sort(KeyedRows(values)); Ascending(u) && forall x :: x in u <==> x in KeyedRows(values)
  {
    SortCanonical(KeyedRows(values), KeyedRows(values));
    SortPermutes(KeyedRows(values));
    SameMembers(Sort(KeyedRows(values)), KeyedRows(values));
  }

  lemma SameRowsSameOrder(a: seq<Observation>, b: seq<Observation>)
    requires DistinctSamples(a) && DistinctSamples(b) && forall o :: o in a <==> o in b
    ensures InOrder(a) == InOrder(b)
  {
    DistinctAscending(a);
    DistinctAscending(b);
    forall x
      ensures x in KeyedRows(a) <==> x in KeyedRows(b)
    {
      if x in KeyedRows(a) {
        var i :| 0 <= i < |a| && KeyedRows(a)[i] == x;
        assert a[i] in b;
        var j :| 0 <= j < |b| && b[j] == a[i];
        assert KeyedRows(b)[j] == x;
      }
      if x in KeyedRows(b) {
        var i :| 0 <= i < |b| && KeyedRows(b)[i] == x;
        assert b[i] in a;
        var j :| 0 <= j < |a| && a[j] == b[i];
        assert KeyedRows(a)[j] == x;
      }
    }
    AscendingUnique(Sort(KeyedRows(a)), Sort(KeyedRows(b)));
  }

  /** Order does not matter, nor does anything outside the window. */
  lemma SummaryDependsOnWindow(key: EvidenceKey, a: seq<Observation>, b: seq<Observation>, now: nat, window: int, freshness: int)
    requires DistinctSamples(a) && DistinctSamples(b)
    requires forall o :: o in a || o in b ==> o.key == key
    requires forall o :: InWindow(o, now, window) ==> (o in a <==> o in b)
    ensures Summarized(key, a, now, window, freshness) == Summarized(key, b, now, window, freshness)
  {
    assert OfOneKey(a, key) && OfOneKey(b, key);
    FilterKeepsDistinct(a, now, window);
    FilterKeepsDistinct(b, now, window);
    SameRowsSameOrder(Filter(a, now, window), Filter(b, now, window));
  }

  // ----- methods

  lemma FilterOne(values: seq<Observation>, i: nat, now: nat, window: int, done: seq<Observation>)
    requires i < |values| && done + Filter(values[i..], now, window) == Filter(values, now, window)
    ensures (if InWindow(values[i], now, window) then done + [values[i]] else done) + Filter(values[i + 1..], now, window)
            == Filter(values, now, window)
  {
    assert values[i..][0] == values[i] && values[i..][1..] == values[i + 1..];
    var rest := Filter(values[i + 1..], now, window);
    assert done + ([values[i]] + rest) == (done + [values[i]]) + rest;
    assert [] + rest == rest;
  }

  method FilterWindow(key: EvidenceKey, values: seq<Observation>, now: nat, window: int) returns (r: Option<seq<Observation>>)
    ensures r == if OfOneKey(values, key) then Some(Filter(values, now, window)) else None
  {
    var filtered: seq<Observation> := [];
    var i := 0;
    assert values[0..] == values;
    while i < |values|
      invariant 0 <= i <= |values|
      invariant filtered + Filter(values[i..], now, window) == Filter(values, now, window)
      invariant forall j :: 0 <= j < i ==> values[j].key == key
    {
      if values[i].key != key {
        return None;
      }
      FilterOne(values, i, now, window, filtered);
      if InWindow(values[i], now, window) {
        filtered := filtered + [values[i]];
      }
      i := i + 1;
    }
    assert filtered + [] == filtered;
    return Some(filtered);
  }

  method CountSuccesses(ordered: seq<Observation>) returns (successes: nat, total: nat, latest: Option<Observation>)
    ensures successes == Successes(ordered) && total == TotalDuration(ordered) && latest == LatestSuccess(ordered)
  {
    successes, total, latest := 0, 0, None;
    var i := 0;
    assert ordered[0..] == ordered;
    while i < |ordered|
      invariant 0 <= i <= |ordered|
      invariant successes + Successes(ordered[i..]) == Successes(ordered)
      invariant total + TotalDuration(ordered[i..]) == TotalDuration(ordered)
      invariant LatestSuccess(ordered) == if LatestSuccess(ordered[i..]).Some? then LatestSuccess(ordered[i..]) else latest
    {
      assert ordered[i..][0] == ordered[i] && ordered[i..][1..] == ordered[i + 1..];
      if ordered[i].success {
        successes := successes + 1;
        total := total + ordered[i].duration;
        latest := Some(ordered[i]);
      }
      i := i + 1;
    }
  }

  /** One backward pass: it stops at the first outcome that differs from the latest one. */
  method CountStreaks(ordered: seq<Observation>) returns (successes: nat, failures: nat)
    ensures successes == Streak(ordered, true) && failures == Streak(ordered, false)
  {
    successes, failures := 0, 0;
    var i := |ordered|;
    assert ordered[..i] == ordered;
    while i > 0
      invariant 0 <= i <= |ordered|
      invariant successes == 0 || failures == 0
      invariant failures == 0 && (i < |ordered| ==> successes > 0) ==> successes + Streak(ordered[..i], true) == Streak(ordered, true)
      invariant successes == 0 && (i < |ordered| ==> failures > 0) ==> failures + Streak(ordered[..i], false) == Streak(ordered, false)
      invariant i < |ordered| ==> successes > 0 || failures > 0
      invariant failures > 0 ==> Streak(ordered, true) == 0
      invariant successes > 0 ==> Streak(ordered, false) == 0
    {
      assert ordered[..i][..i - 1] == ordered[..i - 1];
      if ordered[i - 1].success {
        if failures > 0 {
          break;
        }
        successes := successes + 1;
      } else {
        if successes > 0 {
          break;
        }
        failures := failures + 1;
      }
      i := i - 1;
    }
  }

  method Summarize(key: EvidenceKey, values: seq<Observation>, now: nat, window: int, freshness: int) returns (r: Result<Evidence, SummaryError>)
    ensures r == Summarized(key, values, now, window, freshness)
  {
    if now == 0 || window <= 0 || freshness <= 0 {
      return Err(BadBounds);
    }
    var filtered := FilterWindow(key, values, now, window);
    if filtered.None? {
      return Err(OtherKey);
    }
    var ordered := InOrder(filtered.value);
    var successes, total, latestSuccess := CountSuccesses(ordered);
    var streak, failures := CountStreaks(ordered);
    var samples := |ordered|;
    var recent := false;
    var ratio := 0.0;
    var latest: Option<Observation> := None;
    if samples > 0 {
      latest := Some(ordered[samples - 1]);
      ratio := successes as real / samples as real;
      recent := now - latest.value.completedAt <= freshness;
    }
    var mean := if successes > 0 then total / successes else 0;
    return Ok(Evidence(Summary(key.context, key.connection, samples, successes, mean, streak, failures, recent),
                       ratio, latest, latestSuccess));
  }

  // ----- the store

  /** Rows as a list, in no particular order. */
  method ListRows(rows: set<Observation>) returns (r: seq<Observation>)
    requires OneRowPerSample(rows)
    ensures DistinctSamples(r) && forall o :: o in r <==> o in rows
  {
    r := [];
    var left := rows;
    while left != {}
      invariant left <= rows && DistinctSamples(r)
      invariant forall o :: o in r <==> o in rows && o !in left
      decreases |left|
    {
      var o :| o in left;
      forall i | 0 <= i < |r|
        ensures r[i].sample != o.sample
      {
        assert r[i] in r;
        assert !SameSample(r[i], o);
      }
      r := r + [o];
      left := left - {o};
    }
  }

  /** The insert and the three deletions of one transaction. */
  method InsertAndPrune(table: set<Observation>, value: Observation, cutoff: int, limits: Limits) returns (rows: set<Observation>)
    ensures rows == Append(table, value, cutoff, limits)
  {
    rows := table + {value};
    rows := Live(rows, cutoff);
    rows := PruneKey(rows, value.key, limits.maxPerKey);
    rows := Newest(rows, limits.maxRows);
  }

  class EvidenceStore {
    const limits: Limits
    var rows: set<Observation>
    ghost var held: set<Observation>

    /** The table is what retention keeps of the committed rows that age alone would leave. */
    ghost predicate Valid()
      reads this
    {
      OneRowPerSample(held) && rows == Kept(held, limits)
    }

    constructor (limits: Limits)
      ensures this.limits == limits && Valid() && held == {} && rows == {}
    {
      this.limits := limits;
      rows, held := {}, {};
    }

    /** One transaction, at any clock reading; a rolled-back one changes nothing. */
    method AppendRow(value: Observation, now: nat, commits: bool) returns (ok: bool)
      requires Valid() && OneRowPerSample(held + {value})
      modifies this
      ensures Valid()
      ensures ok == (now != 0 && commits)
      ensures if ok then held == Live(old(held) + {value}, Arrival(value, now).Cutoff(limits)) else held == old(held) && rows == old(rows)
    {
      if now == 0 || !commits {
        return false;
      }
      var cutoff := Arrival(value, now).Cutoff(limits);
      AppendKeeps(held, value, cutoff, limits);
      rows := InsertAndPrune(rows, value, cutoff, limits);
      held := Live(held + {value}, cutoff);
      return true;
    }

    /** The rows of one key completed within the bounds, oldest first. */
    method Load(key: EvidenceKey, from: int, through: int) returns (r: seq<Observation>)
      requires Valid()
      ensures DistinctSamples(r) && forall o :: o in r <==> o in rows && o.key == key && from <= o.completedAt <= through
      ensures Ascending(KeyedRows(r))
    {
      KeptSubset(held, limits);
      var matching := set o | o in rows && o.key == key && from <= o.completedAt <= through;
      var listed := ListRows(matching);
      r := InOrder(listed);
      LoadedInOrder(listed);
    }

    /** Loading the window and summarising it says what summarising every stored row of the key would say. */
    method SummarizeStored(key: EvidenceKey, now: nat, window: int, freshness: int, ghost all: seq<Observation>)
      returns (r: Result<Evidence, SummaryError>)
      requires Valid() && DistinctSamples(all) && forall o :: o in all <==> o in rows && o.key == key
      ensures r == Summarized(key, all, now, window, freshness)
    {
      var values := Load(key, now - window, now);
      r := Summarize(key, values, now, window, freshness);
      SummaryDependsOnWindow(key, values, all, now, window, freshness);
    }
  }

  lemma LoadedInOrder(listed: seq<Observation>)
    requires DistinctSamples(listed)
    ensures var r := InOrder(listed); DistinctSamples(r) && Ascending(KeyedRows(r)) && forall o :: o in r <==> o in listed
  {
    var k := KeyedRows(listed);
    var u := Sort(k);
    DistinctAscending(listed);
    SortPermutes(k);
    SortKeepsMembers(k);
    DistinctPermutes(k, u);
    forall i | 0 <= i < |u|
      ensures u[i] == Keyed(u[i].value.Order(), u[i].value)
    {
      assert u[i] in k;
    }
    assert KeyedRows(Values(u)) == u;
    InOrderMembers(listed);
    InOrderDistinct(listed);
  }

  lemma InOrderMembers(listed: seq<Observation>)
    ensures forall o :: o in InOrder(listed) <==> o in listed
  {
    var k := KeyedRows(listed);
    var u := Sort(k);
    SortKeepsMembers(k);
    forall o
      ensures o in Values(u) <==> o in listed
    {
      if o in Values(u) {
        var i :| 0 <= i < |u| && u[i].value == o;
        assert u[i] in k;
      }
      if o in listed {
        var i :| 0 <= i < |listed| && listed[i] == o;
        assert k[i] in u;
        var j :| 0 <= j < |u| && u[j] == k[i];
        assert Values(u)[j] == o;
      }
    }
  }

  lemma InOrderDistinct(listed: seq<Observation>)
    requires DistinctSamples(listed)
    ensures DistinctSamples(InOrder(listed))
  {
    var k := KeyedRows(listed);
    var u := Sort(k);
    DistinctAscending(listed);
    SortKeepsMembers(k);
    forall i, j | 0 <= i < j < |u|
      ensures Values(u)[i].sample != Values(u)[j].sample
    {
      assert u[i] in k && u[j] in k;
      var a :| 0 <= a < |k| && k[a] == u[i];
      var b :| 0 <= b < |k| && k[b] == u[j];
      assert Below(u[i].key, u[j].key);
      BelowTotal(u[i].key, u[i].key);
      assert a != b;
    }
  }
}
