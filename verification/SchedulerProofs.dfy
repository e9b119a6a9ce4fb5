/** Limits, conservation of results, progress and termination over every interleaving. */
module SchedulerProofs {
  import opened Wrappers
  import opened Schedulers

  lemma StartKeeps(config: Config, jobs: seq<Job>)
    requires config.Valid() && Start(config, jobs).Ok?
    ensures Inv(Start(config, jobs).value)
  {
    var s := Start(config, jobs).value;
    forall m
      ensures Holders(s.jobs, s.workers, m) == 0
    {
      NoHolders(s.jobs, s.workers, m);
    }
    forall i | 0 <= i < |jobs|
      ensures Places(s, i) == 1
    {
      assert s.writes[i] == 0;
    }
  }

  // ----- one step of a worker

  function EffectAt(s: State, w: nat): Effect
    requires Busy(s, w)
  {
    EffectOf(s.workers[w].stage, s.jobs[s.workers[w].item])
  }

  /** Advancing changes the worker, the levels, the peaks, the highs and the writes, and nothing else. */
  lemma AdvanceKeeps(s: State, w: nat)
    requires Shape(s) && Enabled(s, Advance(w))
    ensures var n, e := Next(s, Advance(w)), EffectAt(s, w);
            && n == s.(workers := s.workers[w := Moved(s, w, e)], levels := n.levels, peaks := n.peaks, highs := n.highs, writes := n.writes)
            && n.levels == (if e.Change? then Adjust(s.levels, e.r, e.delta) else s.levels)
            && n.highs == (if e.Change? then Max(s.highs, e.r, Level(s.levels, e.r) + e.delta) else s.highs)
            && n.peaks == (if e.Raise? then Max(s.peaks, e.r, Read(s.workers[w].seen, e.r)) else s.peaks)
            && n.writes == (if e.WriteResult? then Write(s.writes, s.workers[w].item) else s.writes)
  {
  }

  lemma AdjustSpec(levels: map<Resource, int>, q: Resource, d: int, r: Resource)
    ensures Level(Adjust(levels, q, d), r) == Level(levels, r) + if q == r then d else 0
  {
  }

  lemma MaxSpec(m: map<Resource, int>, q: Resource, value: int, r: Resource)
    ensures Level(Max(m, q, value), r) == if q == r && value > Level(m, q) then value else Level(m, r)
  {
  }

  lemma MoveShape(s: State, w: nat, pc: Pc, queue: seq<nat>)
    requires Shape(s) && w < |s.workers| && (pc.At? ==> pc.item < |s.jobs|) && (pc.Done? ==> s.closed && s.queue == [])
    requires queue == s.queue || (s.queue != [] && queue == s.queue[1..])
    ensures Shape(s.(workers := s.workers[w := pc], queue := queue))
  {
  }

  lemma StepShape(s: State, e: Event)
    requires Shape(s) && Enabled(s, e)
    ensures Shape(Next(s, e))
  {
    match e
    case Take(w) => MoveShape(s, w, At(WantEndpoint, s.queue[0], Seen(0, 0, 0)), s.queue[1..]);
    case Exit(w) => MoveShape(s, w, Done, s.queue);
    case Refuse(w) => MoveShape(s, w, Next(s, e).workers[w], s.queue);
    case Advance(w) =>
      AdvanceKeeps(s, w);
      MoveShape(s, w, Moved(s, w, EffectAt(s, w)), s.queue);
    case _ =>
  }

  lemma MoveHolders(s: State, w: nat, pc: Pc, m: Mark)
    requires w < |s.workers| && Holds(s.jobs, s.workers[w], m) == Holds(s.jobs, pc, m)
    ensures Holders(s.jobs, s.workers[w := pc], m) == Holders(s.jobs, s.workers, m)
  {
    HoldersUpdate(s.jobs, s.workers, w, pc, m);
  }

  // ----- accounting and limits

  /** One step of a worker changes the users of exactly the resource whose level it changes. */
  lemma UsersMatch(jobs: seq<Job>, pc: Pc, after: Pc, r: Resource)
    requires pc.At? && pc.item < |jobs|
    requires var next := StageAfter(pc.stage);
             if next.None? then after == Idle else after.At? && after.stage == next.value && after.item == pc.item
    ensures var e := EffectOf(pc.stage, jobs[pc.item]);
            Bit(Uses(jobs, after, r)) == Bit(Uses(jobs, pc, r)) + (if e.Change? && e.r == r then e.delta else 0)
  {
  }

  lemma AdvanceAccounted(s: State, w: nat, r: Resource)
    requires Shape(s) && Enabled(s, Advance(w)) && Level(s.levels, r) == Holders(s.jobs, s.workers, User(r))
    ensures var n := Next(s, Advance(w)); Level(n.levels, r) == Holders(n.jobs, n.workers, User(r))
  {
    var e := EffectAt(s, w);
    AdvanceKeeps(s, w);
    HoldersUpdate(s.jobs, s.workers, w, Moved(s, w, e), User(r));
    UsersMatch(s.jobs, s.workers[w], Moved(s, w, e), r);
    if e.Change? {
      AdjustSpec(s.levels, e.r, e.delta, r);
    }
  }

  lemma StepAccounted(s: State, e: Event)
    requires Shape(s) && Accounted(s) && Enabled(s, e)
    ensures Accounted(Next(s, e))
  {
    var n := Next(s, e);
    forall r
      ensures Level(n.levels, r) == Holders(n.jobs, n.workers, User(r))
    {
      assert Level(s.levels, r) == Holders(s.jobs, s.workers, User(r));
      match e
      case Take(w) => MoveHolders(s, w, At(WantEndpoint, s.queue[0], Seen(0, 0, 0)), User(r));
      case Exit(w) => MoveHolders(s, w, Done, User(r));
      case Refuse(w) => MoveHolders(s, w, n.workers[w], User(r));
      case Advance(w) => AdvanceAccounted(s, w, r);
      case _ =>
    }
  }

  lemma AdvanceLimited(s: State, w: nat, r: Resource)
    requires Shape(s) && Enabled(s, Advance(w)) && (r.EndpointSlot? || r.TargetSlot?) && Level(s.levels, r) <= Limit(s, r)
    ensures Level(Next(s, Advance(w)).levels, r) <= Limit(s, r)
  {
    var e := EffectAt(s, w);
    AdvanceKeeps(s, w);
    if e.Change? {
      AdjustSpec(s.levels, e.r, e.delta, r);
    }
  }

  lemma StepLimited(s: State, e: Event)
    requires Shape(s) && Limited(s) && Enabled(s, e)
    ensures Limited(Next(s, e))
  {
    var n := Next(s, e);
    forall x
      ensures Level(n.levels, EndpointSlot(x)) <= s.config.perEndpoint && Level(n.levels, TargetSlot(x)) <= s.config.perTarget
    {
      assert Level(s.levels, EndpointSlot(x)) <= s.config.perEndpoint && Level(s.levels, TargetSlot(x)) <= s.config.perTarget;
      if e.Advance? {
        AdvanceLimited(s, e.w, EndpointSlot(x));
        AdvanceLimited(s, e.w, TargetSlot(x));
      }
    }
  }

  /** The slot that whoever is counted also holds. */
  function SlotOf(r: Resource): Resource {
    match r
    case EndpointCount(name) => EndpointSlot(name)
    case TargetCount(name) => TargetSlot(name)
    case _ => r
  }

  /** A counter never exceeds its limit, because whoever is counted holds a slot. */
  lemma CounterLimited(s: State, r: Resource)
    requires Shape(s) && Accounted(s) && Limited(s) && Counter(r)
    ensures 0 <= Level(s.levels, r) <= Limit(s, r)
  {
    FewerHolders(s.jobs, s.workers, User(r), User(SlotOf(r)));
    assert Level(s.levels, r) == Holders(s.jobs, s.workers, User(r));
    assert Level(s.levels, SlotOf(r)) == Holders(s.jobs, s.workers, User(SlotOf(r)));
  }

  // ----- what the workers read

  /** Of the worker that moved, the values it read from a counter it was already part of stay as they were. */
  lemma ReadStays(s: State, w: nat, r: Resource)
    requires Busy(s, w) && Counter(r) && Uses(s.jobs, Moved(s, w, EffectAt(s, w)), r)
    ensures var e, after := EffectAt(s, w), Moved(s, w, EffectAt(s, w));
            if e == Change(r, 1) then Read(after.seen, r) == Level(s.levels, r) + 1 && Unraised(s.jobs, after, r)
            else && Uses(s.jobs, s.workers[w], r) && Read(after.seen, r) == Read(s.workers[w].seen, r)
                 && (Unraised(s.jobs, s.workers[w], r) ==> e == Raise(r) || Unraised(s.jobs, after, r))
  {
  }

  lemma AdvanceRanked(s: State, w: nat, r: Resource, x: int)
    requires Shape(s) && Accounted(s) && Ranked(s) && Enabled(s, Advance(w)) && Counter(r) && x >= 0
    ensures var n := Next(s, Advance(w)); Holders(n.jobs, n.workers, Reader(r, x)) <= x
  {
    var e, n := EffectAt(s, w), Next(s, Advance(w));
    var after := Moved(s, w, e);
    AdvanceKeeps(s, w);
    assert Holders(s.jobs, s.workers, Reader(r, x)) <= x;
    HoldersUpdate(s.jobs, s.workers, w, after, Reader(r, x));
    if Holds(s.jobs, after, Reader(r, x)) {
      ReadStays(s, w, r);
      if e == Change(r, 1) {
        AdvanceAccounted(s, w, r);
        AdjustSpec(s.levels, r, 1, r);
        FewerHolders(n.jobs, n.workers, Reader(r, x), User(r));
      }
    }
  }

  lemma StepRanked(s: State, e: Event)
    requires Shape(s) && Accounted(s) && Ranked(s) && Enabled(s, e)
    ensures Ranked(Next(s, e))
  {
    var n := Next(s, e);
    forall r, x | Counter(r) && x >= 0
      ensures Holders(n.jobs, n.workers, Reader(r, x)) <= x
    {
      assert Holders(s.jobs, s.workers, Reader(r, x)) <= x;
      match e
      case Take(w) => MoveHolders(s, w, At(WantEndpoint, s.queue[0], Seen(0, 0, 0)), Reader(r, x));
      case Exit(w) => MoveHolders(s, w, Done, Reader(r, x));
      case Refuse(w) => MoveHolders(s, w, n.workers[w], Reader(r, x));
      case Advance(w) => AdvanceRanked(s, w, r, x);
      case _ =>
    }
  }

  // ----- peaks

  /** Highs and peaks never fall. */
  lemma PeaksGrow(s: State, w: nat, r: Resource)
    requires Shape(s) && Enabled(s, Advance(w))
    ensures var n := Next(s, Advance(w)); Level(s.highs, r) <= Level(n.highs, r) && Level(s.peaks, r) <= Level(n.peaks, r)
  {
    var e := EffectAt(s, w);
    AdvanceKeeps(s, w);
    if e.Change? {
      MaxSpec(s.highs, e.r, Level(s.levels, e.r) + e.delta, r);
    }
    if e.Raise? {
      MaxSpec(s.peaks, e.r, Read(s.workers[w].seen, e.r), r);
    }
  }

  lemma MovedReadOk(s: State, w: nat, r: Resource)
    requires Shape(s) && Accounted(s) && Enabled(s, Advance(w)) && ReadOk(s, w, r)
    ensures ReadOk(Next(s, Advance(w)), w, r)
  {
    var e, n := EffectAt(s, w), Next(s, Advance(w));
    AdvanceKeeps(s, w);
    PeaksGrow(s, w, r);
    assert n.workers[w] == Moved(s, w, e);
    if Counter(r) && Uses(n.jobs, n.workers[w], r) {
      ReadStays(s, w, r);
      if e == Change(r, 1) {
        MaxSpec(s.highs, r, Level(s.levels, r) + 1, r);
        assert Level(s.levels, r) == Holders(s.jobs, s.workers, User(r));
      } else if e == Raise(r) {
        MaxSpec(s.peaks, r, Read(s.workers[w].seen, r), r);
      }
    }
  }

  lemma AdvanceReadOk(s: State, w: nat, v: nat, r: Resource)
    requires Shape(s) && Accounted(s) && Enabled(s, Advance(w)) && v < |s.workers| && ReadOk(s, v, r)
    ensures ReadOk(Next(s, Advance(w)), v, r)
  {
    if v == w {
      MovedReadOk(s, w, r);
    } else {
      AdvanceKeeps(s, w);
      PeaksGrow(s, w, r);
    }
  }

  lemma AdvanceCounters(s: State, w: nat, r: Resource)
    requires Inv(s) && Enabled(s, Advance(w)) && Counter(r)
    ensures var n := Next(s, Advance(w)); 0 <= Level(n.levels, r) <= Limit(s, r) && Limit(n, r) == Limit(s, r)
  {
    StepShape(s, Advance(w));
    StepFixed(s, Advance(w));
    StepAccounted(s, Advance(w));
    StepLimited(s, Advance(w));
    CounterLimited(Next(s, Advance(w)), r);
  }

  /** Counter levels stay below the highs, and those within the limits. */
  lemma AdvanceHighs(s: State, w: nat, r: Resource)
    requires Inv(s) && Enabled(s, Advance(w)) && Counter(r)
    ensures var n := Next(s, Advance(w));
            && Level(n.levels, r) <= Level(n.highs, r) <= Limit(n, r) && 0 <= Level(n.peaks, r) <= Level(n.highs, r)
  {
    var e, n := EffectAt(s, w), Next(s, Advance(w));
    assert Level(s.levels, r) <= Level(s.highs, r) <= Limit(s, r) && 0 <= Level(s.peaks, r) <= Level(s.highs, r);
    AdvanceKeeps(s, w);
    PeaksGrow(s, w, r);
    AdvanceCounters(s, w, r);
    if e.Change? {
      AdjustSpec(s.levels, e.r, e.delta, r);
      MaxSpec(s.highs, e.r, Level(s.levels, e.r) + e.delta, r);
    } else if e.Raise? {
      assert ReadOk(s, w, e.r);
      MaxSpec(s.peaks, e.r, Read(s.workers[w].seen, e.r), r);
    }
  }

  /** The worker that owes a peak still owes it after its step, unless the step raised it. */
  lemma OwedStays(s: State, w: nat, v: nat, r: Resource)
    requires Shape(s) && Enabled(s, Advance(w)) && v < |s.workers|
    requires Unraised(s.jobs, s.workers[v], r) && !(v == w && EffectAt(s, w) == Raise(r))
    ensures var n := Next(s, Advance(w));
            Unraised(n.jobs, n.workers[v], r) && Read(n.workers[v].seen, r) == Read(s.workers[v].seen, r)
  {
    AdvanceKeeps(s, w);
  }

  lemma AdvanceOwed(s: State, w: nat, r: Resource)
    requires Inv(s) && Enabled(s, Advance(w)) && Counter(r)
    ensures var n := Next(s, Advance(w)); Level(n.peaks, r) == Level(n.highs, r) || Owed(n, r)
  {
    var e, n := EffectAt(s, w), Next(s, Advance(w));
    AdvanceKeeps(s, w);
    PeaksGrow(s, w, r);
    AdvanceHighs(s, w, r);
    if Level(n.highs, r) > Level(s.highs, r) {
      RaisedHigh(s, w, r);
    } else if Level(s.peaks, r) != Level(s.highs, r) {
      assert Owed(s, r);
      var v :| 0 <= v < |s.workers| && Unraised(s.jobs, s.workers[v], r) && Read(s.workers[v].seen, r) == Level(s.highs, r);
      if v == w && e == Raise(r) {
        MaxSpec(s.peaks, r, Read(s.workers[w].seen, r), r);
      } else {
        OwedStays(s, w, v, r);
      }
    }
  }

  /** A new high is owed by the worker that reached it. */
  lemma RaisedHigh(s: State, w: nat, r: Resource)
    requires Inv(s) && Enabled(s, Advance(w)) && Counter(r) && Level(Next(s, Advance(w)).highs, r) > Level(s.highs, r)
    ensures Owed(Next(s, Advance(w)), r)
  {
    var e, n := EffectAt(s, w), Next(s, Advance(w));
    AdvanceKeeps(s, w);
    MaxSpec(s.highs, e.r, Level(s.levels, e.r) + e.delta, r);
    assert Level(s.levels, r) <= Level(s.highs, r);
    assert e == Change(r, 1);
    UsersMatch(s.jobs, s.workers[w], Moved(s, w, e), r);
    ReadStays(s, w, r);
    assert n.workers[w] == Moved(s, w, e);
  }

  lemma AdvancePeaked(s: State, w: nat)
    requires Inv(s) && Enabled(s, Advance(w))
    ensures Peaked(Next(s, Advance(w)))
  {
    var n := Next(s, Advance(w));
    AdvanceKeeps(s, w);
    forall v, r | 0 <= v < |n.workers|
      ensures ReadOk(n, v, r)
    {
      AdvanceReadOk(s, w, v, r);
    }
    forall r | Counter(r)
      ensures Level(n.levels, r) <= Level(n.highs, r) <= Limit(n, r) && 0 <= Level(n.peaks, r) <= Level(n.highs, r)
      ensures Level(n.peaks, r) == Level(n.highs, r) || Owed(n, r)
    {
      AdvanceHighs(s, w, r);
      AdvanceOwed(s, w, r);
    }
  }

  /** A worker that is not counted may move without any effect on counters and peaks. */
  lemma QuietPeaked(s: State, n: State, w: nat)
    requires Peaked(s) && w < |s.workers| && n.levels == s.levels && n.highs == s.highs && n.peaks == s.peaks
    requires n.config == s.config && n.jobs == s.jobs && |n.workers| == |s.workers|
    requires forall v :: 0 <= v < |s.workers| && v != w ==> n.workers[v] == s.workers[v]
    requires forall r :: Counter(r) ==> !Uses(s.jobs, s.workers[w], r) && !Uses(s.jobs, n.workers[w], r)
    ensures Peaked(n)
  {
    forall v, r | 0 <= v < |n.workers|
      ensures ReadOk(n, v, r)
    {
      assert ReadOk(s, v, r);
    }
    forall r | Counter(r)
      ensures Level(n.peaks, r) == Level(n.highs, r) || Owed(n, r)
    {
      if Level(n.peaks, r) != Level(n.highs, r) {
        assert Owed(s, r);
        var v :| 0 <= v < |s.workers| && Unraised(s.jobs, s.workers[v], r) && Read(s.workers[v].seen, r) == Level(s.highs, r);
        assert n.workers[v] == s.workers[v];
      }
    }
  }

  lemma StepPeaked(s: State, e: Event)
    requires Inv(s) && Enabled(s, e)
    ensures Peaked(Next(s, e))
  {
    match e
    case Take(w) => QuietPeaked(s, Next(s, e), w);
    case Exit(w) => QuietPeaked(s, Next(s, e), w);
    case Refuse(w) => QuietPeaked(s, Next(s, e), w);
    case Advance(w) => AdvancePeaked(s, w);
    case _ => SamePeaked(s, Next(s, e));
  }

  lemma SamePeaked(s: State, n: State)
    requires Peaked(s) && n.levels == s.levels && n.highs == s.highs && n.peaks == s.peaks
    requires n.config == s.config && n.jobs == s.jobs && n.workers == s.workers
    ensures Peaked(n)
  {
    forall v, r | 0 <= v < |n.workers|
      ensures ReadOk(n, v, r)
    {
      assert ReadOk(s, v, r);
    }
    forall r | Counter(r)
      ensures Level(n.peaks, r) == Level(n.highs, r) || Owed(n, r)
    {
      assert Level(s.peaks, r) == Level(s.highs, r) || Owed(s, r);
    }
  }

  // ----- each result is written exactly once

  /** A step moves one result at most, and loses none. */
  lemma StepPlaces(s: State, e: Event, i: nat)
    requires Shape(s) && Enabled(s, e) && i < |s.jobs|
    ensures Shape(Next(s, e)) && Places(Next(s, e), i) == Places(s, i)
  {
    StepShape(s, e);
    match e
    case Send => SendPlaces(s, i);
    case Take(w) => TakePlaces(s, w, i);
    case Exit(w) => MoveHolders(s, w, Done, Duty(i));
    case Refuse(w) => RefusePlaces(s, w, i);
    case Advance(w) => AdvancePlaces(s, w, i);
    case _ =>
  }

  lemma RefusePlaces(s: State, w: nat, i: nat)
    requires Shape(s) && Enabled(s, Refuse(w)) && i < |s.jobs|
    ensures Places(Next(s, Refuse(w)), i) == Places(s, i)
  {
    MoveHolders(s, w, Next(s, Refuse(w)).workers[w], Duty(i));
  }

  lemma StepConserved(s: State, e: Event)
    requires Shape(s) && Conserved(s) && Enabled(s, e)
    ensures Shape(Next(s, e)) && Conserved(Next(s, e))
  {
    StepShape(s, e);
    StepFixed(s, e);
    forall i | 0 <= i < |s.jobs|
      ensures Places(Next(s, e), i) == 1
    {
      assert Places(s, i) == 1;
      StepPlaces(s, e, i);
    }
  }

  lemma StepFixed(s: State, e: Event)
    requires Shape(s) && Enabled(s, e)
    ensures Next(s, e).config == s.config && Next(s, e).jobs == s.jobs
  {
    if e.Advance? {
      AdvanceKeeps(s, e.w);
    }
  }

  lemma SendPlaces(s: State, i: nat)
    requires Shape(s) && Enabled(s, Send) && i < |s.jobs|
    ensures Places(Next(s, Send), i) == Places(s, i)
  {
    assert multiset(s.queue + [s.next]) == multiset(s.queue) + multiset{s.next};
  }

  lemma TakePlaces(s: State, w: nat, i: nat)
    requires Shape(s) && Enabled(s, Take(w)) && i < |s.jobs|
    ensures Places(Next(s, Take(w)), i) == Places(s, i)
  {
    assert s.queue == [s.queue[0]] + s.queue[1..];
    HoldersUpdate(s.jobs, s.workers, w, At(WantEndpoint, s.queue[0], Seen(0, 0, 0)), Duty(i));
  }

  lemma DutyMatches(jobs: seq<Job>, pc: Pc, after: Pc, i: nat)
    requires pc.At? && pc.item < |jobs|
    requires var next := StageAfter(pc.stage);
             if next.None? then after == Idle else after.At? && after.stage == next.value && after.item == pc.item
    ensures Bit(Holds(jobs, after, Duty(i))) + Bit(EffectOf(pc.stage, jobs[pc.item]).WriteResult? && pc.item == i) ==
            Bit(Holds(jobs, pc, Duty(i)))
  {
  }

  lemma AdvancePlaces(s: State, w: nat, i: nat)
    requires Shape(s) && Enabled(s, Advance(w)) && i < |s.jobs|
    ensures Places(Next(s, Advance(w)), i) == Places(s, i)
  {
    AdvanceKeeps(s, w);
    HoldersUpdate(s.jobs, s.workers, w, Moved(s, w, EffectAt(s, w)), Duty(i));
    DutyMatches(s.jobs, s.workers[w], Moved(s, w, EffectAt(s, w)), i);
  }

  /** Every atomic effect keeps the invariant. */
  lemma StepKeeps(s: State, e: Event)
    requires Inv(s) && Enabled(s, e)
    ensures Inv(Next(s, e))
  {
    StepShape(s, e);
    StepAccounted(s, e);
    StepLimited(s, e);
    StepRanked(s, e);
    StepPeaked(s, e);
    StepConserved(s, e);
  }

  ghost predicate Runs(s: State, es: seq<Event>)
    decreases |es|
  {
    es == [] || (Enabled(s, es[0]) && Runs(Next(s, es[0]), es[1..]))
  }

  ghost function After(s: State, es: seq<Event>): State
    requires Runs(s, es)
    decreases |es|
  {
    if es == [] then s else After(Next(s, es[0]), es[1..])
  }

  lemma {:induction false} RunKeeps(s: State, es: seq<Event>)
    requires Inv(s) && Runs(s, es)
    ensures Inv(After(s, es)) && After(s, es).config == s.config && After(s, es).jobs == s.jobs
    decreases |es|
  {
    if es == [] {
    } else {
      StepKeeps(s, es[0]);
      StepFixed(s, es[0]);
      RunKeeps(Next(s, es[0]), es[1..]);
    }
  }

  /** How many workers execute a job that is counted here. */
  ghost function Running(s: State, r: Resource): nat { Holders(s.jobs, s.workers, Runner(r)) }

  /** What executes is covered by the peak: each of them raised what it read, and whoever came later read more. */
  lemma PeakCovers(s: State, r: Resource)
    requires Inv(s) && Counter(r)
    ensures Running(s, r) <= Level(s.peaks, r)
  {
    var x := Level(s.peaks, r);
    forall w | 0 <= w < |s.workers| && Holds(s.jobs, s.workers[w], Runner(r))
      ensures Holds(s.jobs, s.workers[w], Reader(r, x))
    {
      assert ReadOk(s, w, r);
    }
    FewerHolders(s.jobs, s.workers, Runner(r), Reader(r, x));
    assert Holders(s.jobs, s.workers, Reader(r, x)) <= x;
  }

  /**
   In every interleaving of every run and for every counter (all jobs, one endpoint, one target): the executing jobs
   are covered by the peak, no peak exceeds the highest value the counter ever had, and that is within the
   limit; and no result is written twice.
   */
  lemma LimitsHold(config: Config, jobs: seq<Job>, es: seq<Event>, r: Resource)
    requires config.Valid() && Start(config, jobs).Ok? && Runs(Start(config, jobs).value, es) && Counter(r)
    ensures var s := After(Start(config, jobs).value, es);
            && Running(s, r) <= Level(s.peaks, r) <= Level(s.highs, r) <= Limit(s, r)
            && Level(s.levels, r) <= Level(s.highs, r) && s.config == config
            && |s.writes| == |jobs| && forall i :: 0 <= i < |jobs| ==> s.writes[i] <= 1
  {
    StartKeeps(config, jobs);
    RunKeeps(Start(config, jobs).value, es);
    var s := After(Start(config, jobs).value, es);
    PeakCovers(s, r);
    forall i | 0 <= i < |jobs|
      ensures s.writes[i] <= 1
    {
      assert Places(s, i) == 1;
    }
  }

  // ----- no deadlock

  ghost predicate Finished(s: State) {
    s.closed && forall w :: 0 <= w < |s.workers| ==> s.workers[w].Done?
  }

  ghost predicate Waiting(s: State, w: nat) {
    w < |s.workers| && s.workers[w].At? && (s.workers[w].stage == WantEndpoint || s.workers[w].stage == WantTarget)
  }

  /** If every busy worker waits, no target slot is taken, and no endpoint slot if all wait for endpoints. */
  lemma SlotsFree(s: State, w: nat)
    requires Inv(s) && Waiting(s, w)
    requires forall v :: 0 <= v < |s.workers| && s.workers[v].At? ==> Waiting(s, v)
    requires s.workers[w].stage == WantTarget || forall v :: 0 <= v < |s.workers| && s.workers[v].At? ==> s.workers[v].stage == WantEndpoint
    ensures Enabled(s, Advance(w))
  {
    var job := s.jobs[s.workers[w].item];
    if s.workers[w].stage == WantTarget {
      NoHolders(s.jobs, s.workers, User(TargetSlot(job.target)));
      assert Level(s.levels, TargetSlot(job.target)) == 0;
    } else {
      NoHolders(s.jobs, s.workers, User(EndpointSlot(job.endpoint)));
      assert Level(s.levels, EndpointSlot(job.endpoint)) == 0;
    }
  }

  /** Taking the endpoint slot first never blocks everybody: some busy worker can move. */
  lemma BusyAdvances(s: State, b: nat) returns (w: nat)
    requires Inv(s) && b < |s.workers| && s.workers[b].At?
    ensures Enabled(s, Advance(w))
  {
    if v :| 0 <= v < |s.workers| && s.workers[v].At? && !Waiting(s, v) {
      w := v;
    } else if v :| 0 <= v < |s.workers| && s.workers[v].At? && s.workers[v].stage == WantTarget {
      SlotsFree(s, v);
      w := v;
    } else {
      SlotsFree(s, b);
      w := b;
    }
  }

  /** No reachable state is stuck, with or without cancellation, until every worker is done. */
  lemma Progress(s: State) returns (e: Event)
    requires Inv(s) && !Finished(s)
    ensures Enabled(s, e) && !e.Cancel?
  {
    if b :| 0 <= b < |s.workers| && s.workers[b].At? {
      var w := BusyAdvances(s, b);
      e := Advance(w);
    } else if s.next == |s.jobs| && !s.closed {
      e := Close;
    } else if s.closed {
      var w :| 0 <= w < |s.workers| && !s.workers[w].Done?;
      e := if s.queue == [] then Exit(w) else Take(w);
    } else {
      e := ProducerProgress(s);
    }
  }

  lemma ProducerProgress(s: State) returns (e: Event)
    requires Inv(s) && s.next < |s.jobs| && !s.closed
    requires forall w :: 0 <= w < |s.workers| ==> !s.workers[w].At?
    ensures Enabled(s, e) && !e.Cancel?
  {
    assert s.workers[0].Idle?;
    if s.queue != [] {
      e := Take(0);
    } else if !s.giving {
      e := Send;
    } else {
      e := GiveUp;
    }
  }

  // ----- every run ends

  function Rank(pc: Pc): nat {
    match pc
    case Done => 0
    case Idle => 1
    case At(stage, _, _) => StageRank(stage)
  }

  function StageRank(stage: Stage): nat {
    match stage
    case WantEndpoint => 19
    case WantTarget => 18
    case HasBoth => 17
    case AddedTotal => 16
    case InTotal => 15
    case AddedEndpoint => 14
    case AddedTarget => 13
    case RaisedEndpoint => 12
    case Executing => 11
    case Written => 10
    case OutTarget => 9
    case OutEndpoint => 8
    case OutTotal => 7
    case ReleasedTarget => 6
    case Dropping => 5
    case Refused => 4
  }

  function Ranks(workers: seq<Pc>): nat {
    if workers == [] then 0 else Rank(workers[0]) + Ranks(workers[1..])
  }

  lemma {:induction false} RanksUpdate(workers: seq<Pc>, w: nat, pc: Pc)
    requires w < |workers|
    ensures Ranks(workers[w := pc]) + Rank(workers[w]) == Ranks(workers) + Rank(pc)
    decreases |workers|
  {
    var updated := workers[w := pc];
    if w == 0 {
      assert updated[1..] == workers[1..];
    } else {
      assert updated[1..] == workers[1..][w - 1 := pc];
      RanksUpdate(workers[1..], w - 1, pc);
    }
  }

  /** The work left, with cancellation counted as one possible step. */
  function Measure(s: State): int {
    23 * (|s.jobs| - s.next) + 20 * |s.queue| + Ranks(s.workers) + Bit(!s.closed) + Bit(!s.cancelled)
  }

  lemma StepDecreases(s: State, e: Event)
    requires Shape(s) && Enabled(s, e)
    ensures Measure(Next(s, e)) < Measure(s)
  {
    match e
    case Take(w) => RanksUpdate(s.workers, w, At(WantEndpoint, s.queue[0], Seen(0, 0, 0)));
    case Exit(w) => RanksUpdate(s.workers, w, Done);
    case Refuse(w) => RanksUpdate(s.workers, w, Next(s, e).workers[w]);
    case Advance(w) => AdvanceDecreases(s, w);
    case _ =>
  }

  lemma RankDrops(pc: Pc, after: Pc)
    requires pc.At?
    requires var next := StageAfter(pc.stage); if next.None? then after == Idle else after.At? && after.stage == next.value
    ensures Rank(after) < Rank(pc)
  {
  }

  lemma AdvanceDecreases(s: State, w: nat)
    requires Shape(s) && Enabled(s, Advance(w))
    ensures Measure(Next(s, Advance(w))) < Measure(s)
  {
    var after := Moved(s, w, EffectAt(s, w));
    AdvanceKeeps(s, w);
    RanksUpdate(s.workers, w, after);
    RankDrops(s.workers[w], after);
  }

  /** No run is longer than the measure of the state it starts in. */
  lemma {:induction false} RunsEnd(s: State, es: seq<Event>)
    requires Shape(s) && Runs(s, es)
    ensures |es| + Measure(After(s, es)) <= Measure(s) && Measure(After(s, es)) >= 0
    decreases |es|
  {
    if es == [] {
    } else {
      StepDecreases(s, es[0]);
      StepShape(s, es[0]);
      RunsEnd(Next(s, es[0]), es[1..]);
    }
  }

  /**
   A run that cannot go on has finished: every result is written exactly once, every slot is free, and every reported
   peak is exactly the highest value its counter ever had.
   */
  lemma StuckIsFinished(config: Config, jobs: seq<Job>, es: seq<Event>, r: Resource)
    requires config.Valid() && Start(config, jobs).Ok? && Runs(Start(config, jobs).value, es)
    requires var s := After(Start(config, jobs).value, es); forall e :: Enabled(s, e) ==> e.Cancel?
    ensures var s := After(Start(config, jobs).value, es);
            && Finished(s) && Level(s.levels, r) == 0 && (Counter(r) ==> Level(s.peaks, r) == Level(s.highs, r))
            && |s.writes| == |jobs| && forall i :: 0 <= i < |jobs| ==> s.writes[i] == 1
  {
    StartKeeps(config, jobs);
    RunKeeps(Start(config, jobs).value, es);
    var s := After(Start(config, jobs).value, es);
    if !Finished(s) {
      var e := Progress(s);
    }
    NoHolders(s.jobs, s.workers, User(r));
    assert Level(s.levels, r) == Holders(s.jobs, s.workers, User(r));
    if Counter(r) {
      assert !Owed(s, r);
    }
    forall i | 0 <= i < |jobs|
      ensures s.writes[i] == 1
    {
      assert Places(s, i) == 1;
      NoHolders(s.jobs, s.workers, Duty(i));
      assert s.workers[0].Done?;
      assert s.queue == [];
    }
  }

  /** Every run of n jobs on k workers, whatever the interleaving, takes at most 23n + k + 2 steps. */
  lemma StepBound(config: Config, jobs: seq<Job>, es: seq<Event>)
    requires config.Valid() && Start(config, jobs).Ok? && Runs(Start(config, jobs).value, es)
    ensures |es| <= 23 * |jobs| + config.concurrency + 2
  {
    StartKeeps(config, jobs);
    var s := Start(config, jobs).value;
    RunsEnd(s, es);
    IdleRanks(s.workers);
  }

  lemma {:induction false} IdleRanks(workers: seq<Pc>)
    requires forall w :: 0 <= w < |workers| ==> workers[w] == Idle
    ensures Ranks(workers) == |workers|
  {
    if workers == [] {
    } else {
      IdleRanks(workers[1..]);
    }
  }
}
