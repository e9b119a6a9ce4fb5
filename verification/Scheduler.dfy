/**
 The probe scheduler in every interleaving: one producer, a bounded queue, a fixed set of workers, one semaphore per
 endpoint and one per target, cancellation at any moment. Each event is one atomic effect of one goroutine.
 */
module Schedulers {
  import opened Wrappers

  const MAX_CONCURRENCY: int := 64
  const MAX_QUEUE: int := 4096
  const MAX_JOBS: int := 10_000

  datatype Config = Config(concurrency: int, queue: int, perEndpoint: int, perTarget: int, maxJobs: int) {
    predicate Valid() {
      && 1 <= concurrency <= MAX_CONCURRENCY && 1 <= queue <= MAX_QUEUE
      && 1 <= perEndpoint <= concurrency && 1 <= perTarget <= concurrency && 1 <= maxJobs <= MAX_JOBS
    }
  }

  datatype Job = Job(endpoint: string, target: string) {
    predicate Valid() { endpoint != "" && target != "" }
  }

  /** Where a worker is with its item, named by what it did last. */
  datatype Stage = WantEndpoint | WantTarget | HasBoth | AddedTotal | InTotal | AddedEndpoint | AddedTarget | RaisedEndpoint
                 | Executing | Written | OutTarget | OutEndpoint | OutTotal | ReleasedTarget | Dropping | Refused

  /** The values a worker read from the counters when it added itself to them. */
  datatype Seen = Seen(total: int, endpoint: int, target: int)

  datatype Pc = Idle | Done | At(stage: Stage, item: nat, seen: Seen)

  /** Semaphores and counters. */
  datatype Resource = EndpointSlot(name: string) | TargetSlot(name: string) | Total
                    | EndpointCount(name: string) | TargetCount(name: string)

  /** `highs` records the highest value each counter ever had; it only serves to say what the peaks mean. */
  datatype State = State(config: Config, jobs: seq<Job>, next: nat, giving: bool, closed: bool, cancelled: bool,
                         queue: seq<nat>, workers: seq<Pc>, levels: map<Resource, int>, peaks: map<Resource, int>,
                         highs: map<Resource, int>, writes: seq<nat>)

  datatype Event = Send | GiveUp | Close | Cancel | Take(w: nat) | Exit(w: nat) | Advance(w: nat) | Refuse(w: nat)

  function Level(m: map<Resource, int>, r: Resource): int { if r in m then m[r] else 0 }

  function Adjust(m: map<Resource, int>, r: Resource, d: int): map<Resource, int> { m[r := Level(m, r) + d] }

  // ----- what a worker holds at each stage

  predicate HoldsEndpoint(s: Stage) { s != WantEndpoint && s != Refused }

  predicate HoldsTarget(s: Stage) { HoldsEndpoint(s) && s != WantTarget && s != ReleasedTarget && s != Dropping }

  predicate InTotalCount(s: Stage) { HoldsTarget(s) && s != HasBoth && s != OutTotal }

  predicate InEndpointCount(s: Stage) { InTotalCount(s) && s != AddedTotal && s != InTotal && s != OutEndpoint }

  predicate InTargetCount(s: Stage) { InEndpointCount(s) && s != AddedEndpoint && s != OutTarget }

  predicate Owes(s: Stage) {
    s == WantEndpoint || s == WantTarget || s == HasBoth || s == AddedTotal || s == InTotal || s == AddedEndpoint
    || s == AddedTarget || s == RaisedEndpoint || s == Executing || s == Dropping || s == Refused
  }

  predicate Uses(jobs: seq<Job>, pc: Pc, r: Resource) {
    pc.At? && pc.item < |jobs| &&
    match r
    case EndpointSlot(e) => HoldsEndpoint(pc.stage) && jobs[pc.item].endpoint == e
    case TargetSlot(t) => HoldsTarget(pc.stage) && jobs[pc.item].target == t
    case Total => InTotalCount(pc.stage)
    case EndpointCount(e) => InEndpointCount(pc.stage) && jobs[pc.item].endpoint == e
    case TargetCount(t) => InTargetCount(pc.stage) && jobs[pc.item].target == t
  }

  predicate Counter(r: Resource) { r.Total? || r.EndpointCount? || r.TargetCount? }

  /** The value the worker read from this counter. */
  function Read(seen: Seen, r: Resource): int {
    match r
    case Total => seen.total
    case EndpointCount(_) => seen.endpoint
    case TargetCount(_) => seen.target
    case _ => 0
  }

  /** The worker has added itself to the counter and has not offered the value as a peak yet. */
  predicate Unraised(jobs: seq<Job>, pc: Pc, r: Resource) {
    Uses(jobs, pc, r) &&
    match r
    case Total => pc.stage == AddedTotal
    case EndpointCount(_) => pc.stage == AddedEndpoint || pc.stage == AddedTarget
    case TargetCount(_) => pc.stage == AddedTarget || pc.stage == RaisedEndpoint
    case _ => false
  }

  /** What is counted over the workers: users of a resource, those of them that read a small value, the duty to write
      one result, and executions. */
  datatype Mark = User(r: Resource) | Reader(r: Resource, bound: int) | Duty(item: nat) | Runner(r: Resource)

  predicate Holds(jobs: seq<Job>, pc: Pc, m: Mark) {
    match m
    case User(r) => Uses(jobs, pc, r)
    case Reader(r, bound) => Uses(jobs, pc, r) && Read(pc.seen, r) <= bound
    case Duty(i) => pc.At? && Owes(pc.stage) && pc.item == i
    case Runner(r) => Uses(jobs, pc, r) && pc.stage == Executing
  }

  function Bit(b: bool): nat { if b then 1 else 0 }

  function Holders(jobs: seq<Job>, workers: seq<Pc>, m: Mark): nat {
    if workers == [] then 0 else Bit(Holds(jobs, workers[0], m)) + Holders(jobs, workers[1..], m)
  }

  // ----- steps

  /** The next stage, or nothing when the item is finished. */
  function StageAfter(s: Stage): Option<Stage> {
    match s
    case WantEndpoint => Some(WantTarget)
    case WantTarget => Some(HasBoth)
    case HasBoth => Some(AddedTotal)
    case AddedTotal => Some(InTotal)
    case InTotal => Some(AddedEndpoint)
    case AddedEndpoint => Some(AddedTarget)
    case AddedTarget => Some(RaisedEndpoint)
    case RaisedEndpoint => Some(Executing)
    case Executing => Some(Written)
    case Written => Some(OutTarget)
    case OutTarget => Some(OutEndpoint)
    case OutEndpoint => Some(OutTotal)
    case OutTotal => Some(ReleasedTarget)
    case ReleasedTarget => None
    case Dropping => Some(Refused)
    case Refused => None
  }

  /** The one atomic effect of a step. */
  datatype Effect = Change(r: Resource, delta: int) | Raise(r: Resource) | WriteResult

  function EffectOf(s: Stage, job: Job): Effect {
    match s
    case WantEndpoint => Change(EndpointSlot(job.endpoint), 1)
    case WantTarget => Change(TargetSlot(job.target), 1)
    case HasBoth => Change(Total, 1)
    case AddedTotal => Raise(Total)
    case InTotal => Change(EndpointCount(job.endpoint), 1)
    case AddedEndpoint => Change(TargetCount(job.target), 1)
    case AddedTarget => Raise(EndpointCount(job.endpoint))
    case RaisedEndpoint => Raise(TargetCount(job.target))
    case Executing => WriteResult
    case Written => Change(TargetCount(job.target), -1)
    case OutTarget => Change(EndpointCount(job.endpoint), -1)
    case OutEndpoint => Change(Total, -1)
    case OutTotal => Change(TargetSlot(job.target), -1)
    case ReleasedTarget => Change(EndpointSlot(job.endpoint), -1)
    case Dropping => Change(EndpointSlot(job.endpoint), -1)
    case Refused => WriteResult
  }

  /** Adding to a counter returns its new value. */
  function Note(seen: Seen, e: Effect, value: int): Seen {
    if !e.Change? || e.delta < 0 then seen
    else
      match e.r
      case Total => seen.(total := value)
      case EndpointCount(_) => seen.(endpoint := value)
      case TargetCount(_) => seen.(target := value)
      case _ => seen
  }

  /** The compare-and-swap loop takes effect once: when it publishes its value or finds one as large. */
  function Max(m: map<Resource, int>, r: Resource, value: int): map<Resource, int> {
    if value > Level(m, r) then m[r := value] else m
  }

  predicate Busy(s: State, w: nat) {
    w < |s.workers| && s.workers[w].At? && s.workers[w].item < |s.jobs| && s.workers[w].item < |s.writes|
  }

  predicate CanAdvance(s: State, w: nat)
    requires Busy(s, w)
  {
    var pc := s.workers[w];
    match pc.stage
    case WantEndpoint => Level(s.levels, EndpointSlot(s.jobs[pc.item].endpoint)) < s.config.perEndpoint
    case WantTarget => Level(s.levels, TargetSlot(s.jobs[pc.item].target)) < s.config.perTarget
    case _ => true
  }

  predicate Enabled(s: State, e: Event) {
    match e
    case Send => s.next < |s.jobs| && !s.giving && |s.queue| < s.config.queue
    case GiveUp => s.next < |s.jobs| && s.next < |s.writes| && s.cancelled
    case Close => s.next == |s.jobs| && !s.closed
    case Cancel => !s.cancelled
    case Take(w) => w < |s.workers| && s.workers[w].Idle? && s.queue != []
    case Exit(w) => w < |s.workers| && s.workers[w].Idle? && s.queue == [] && s.closed
    case Advance(w) => Busy(s, w) && CanAdvance(s, w)
    case Refuse(w) => Busy(s, w) && s.cancelled && (s.workers[w].stage == WantEndpoint || s.workers[w].stage == WantTarget)
  }

  function Write(writes: seq<nat>, i: nat): seq<nat>
    requires i < |writes|
  {
    writes[i := writes[i] + 1]
  }

  function Next(s: State, e: Event): State
    requires Enabled(s, e)
  {
    match e
    case Send => s.(queue := s.queue + [s.next], next := s.next + 1)
    case GiveUp => s.(writes := Write(s.writes, s.next), next := s.next + 1, giving := true)
    case Close => s.(closed := true)
    case Cancel => s.(cancelled := true)
    case Take(w) => s.(workers := s.workers[w := At(WantEndpoint, s.queue[0], Seen(0, 0, 0))], queue := s.queue[1..])
    case Exit(w) => s.(workers := s.workers[w := Done])
    case Refuse(w) =>
      var pc := s.workers[w];
      s.(workers := s.workers[w := pc.(stage := if pc.stage == WantEndpoint then Refused else Dropping)])
    case Advance(w) => Apply(s, w, EffectOf(s.workers[w].stage, s.jobs[s.workers[w].item]))
  }

  /** Where worker w is after its effect. */
  function Moved(s: State, w: nat, e: Effect): Pc
    requires Busy(s, w)
  {
    var pc := s.workers[w];
    var next := StageAfter(pc.stage);
    if next.None? then Idle
    else At(next.value, pc.item, if e.Change? then Note(pc.seen, e, Level(s.levels, e.r) + e.delta) else pc.seen)
  }

  function Apply(s: State, w: nat, e: Effect): State
    requires Busy(s, w)
  {
    var moved := s.(workers := s.workers[w := Moved(s, w, e)]);
    match e
    case Change(r, d) => moved.(levels := Adjust(s.levels, r, d), highs := Max(s.highs, r, Level(s.levels, r) + d))
    case Raise(r) => moved.(peaks := Max(s.peaks, r, Read(s.workers[w].seen, r)))
    case WriteResult => moved.(writes := Write(s.writes, s.workers[w].item))
  }

  function Zeros(n: nat): (r: seq<nat>)
    ensures |r| == n && forall i :: 0 <= i < n ==> r[i] == 0
  {
    seq(n, _ => 0)
  }

  function Idlers(n: nat): (r: seq<Pc>)
    ensures |r| == n && forall i :: 0 <= i < n ==> r[i] == Idle
  {
    seq(n, _ => Idle)
  }

  datatype StartError = JobLimit | BadJob

  /** A run with no jobs is over at once. */
  function Start(config: Config, jobs: seq<Job>): Result<State, StartError>
    requires config.Valid()
  {
    if |jobs| > config.maxJobs then Err(JobLimit)
    else if exists i :: 0 <= i < |jobs| && !jobs[i].Valid() then Err(BadJob)
    else
      var workers := if config.concurrency > |jobs| then |jobs| else config.concurrency;
      Ok(State(config, jobs, 0, false, jobs == [], false, [], Idlers(workers), map[], map[], map[], Zeros(|jobs|)))
  }

  // ----- counting

  lemma {:induction false} HoldersUpdate(jobs: seq<Job>, workers: seq<Pc>, w: nat, pc: Pc, m: Mark)
    requires w < |workers|
    ensures Holders(jobs, workers[w := pc], m) + Bit(Holds(jobs, workers[w], m)) == Holders(jobs, workers, m) + Bit(Holds(jobs, pc, m))
    decreases |workers|
  {
    var updated := workers[w := pc];
    if w == 0 {
      assert updated[1..] == workers[1..];
    } else {
      assert updated[1..] == workers[1..][w - 1 := pc];
      HoldersUpdate(jobs, workers[1..], w - 1, pc, m);
    }
  }

  lemma {:induction false} NoHolders(jobs: seq<Job>, workers: seq<Pc>, m: Mark)
    requires forall w :: 0 <= w < |workers| ==> !Holds(jobs, workers[w], m)
    ensures Holders(jobs, workers, m) == 0
  {
    if workers == [] {
    } else {
      NoHolders(jobs, workers[1..], m);
    }
  }

  /** A mark that implies another is never held more often. */
  lemma {:induction false} FewerHolders(jobs: seq<Job>, workers: seq<Pc>, m: Mark, n: Mark)
    requires forall w :: 0 <= w < |workers| && Holds(jobs, workers[w], m) ==> Holds(jobs, workers[w], n)
    ensures Holders(jobs, workers, m) <= Holders(jobs, workers, n) <= |workers|
  {
    if workers == [] {
    } else {
      assert Holds(jobs, workers[0], m) ==> Holds(jobs, workers[0], n);
      FewerHolders(jobs, workers[1..], m, n);
    }
  }

  // ----- the invariant

  function Limit(s: State, r: Resource): int {
    match r
    case EndpointSlot(_) => s.config.perEndpoint
    case TargetSlot(_) => s.config.perTarget
    case Total => s.config.concurrency
    case EndpointCount(_) => s.config.perEndpoint
    case TargetCount(_) => s.config.perTarget
  }

  ghost predicate Shape(s: State) {
    && s.config.Valid() && s.next <= |s.jobs| && |s.writes| == |s.jobs| && |s.queue| <= s.config.queue
    && (s.closed ==> s.next == |s.jobs|)
    && (s.jobs != [] ==> s.workers != []) && |s.workers| <= s.config.concurrency
    && (forall i :: 0 <= i < |s.queue| ==> s.queue[i] < |s.jobs|)
    && (forall w :: 0 <= w < |s.workers| && s.workers[w].At? ==> s.workers[w].item < |s.jobs|)
    && (forall w :: 0 <= w < |s.workers| && s.workers[w].Done? ==> s.closed && s.queue == [])
    && (s.jobs == [] ==> s.closed) && (s.giving ==> s.cancelled)
  }

  /** Semaphores and counters show exactly who uses them. */
  ghost predicate Accounted(s: State) {
    forall r :: Level(s.levels, r) == Holders(s.jobs, s.workers, User(r))
  }

  ghost predicate Limited(s: State) {
    && (forall e :: Level(s.levels, EndpointSlot(e)) <= s.config.perEndpoint)
    && (forall t :: Level(s.levels, TargetSlot(t)) <= s.config.perTarget)
  }

  /** At most x of a counter's users read a value up to x: whoever came later read more. */
  ghost predicate Ranked(s: State) {
    forall r, x :: Counter(r) && x >= 0 ==> Holders(s.jobs, s.workers, Reader(r, x)) <= x
  }

  /** A value that a worker read is within the limit and, once raised, within the peak. */
  ghost predicate ReadOk(s: State, w: nat, r: Resource)
    requires w < |s.workers|
  {
    Uses(s.jobs, s.workers[w], r) && Counter(r) ==>
      && 0 < Read(s.workers[w].seen, r) <= Level(s.highs, r)
      && (Unraised(s.jobs, s.workers[w], r) || Read(s.workers[w].seen, r) <= Level(s.peaks, r))
  }

  ghost predicate Owed(s: State, r: Resource) {
    exists w :: 0 <= w < |s.workers| && Unraised(s.jobs, s.workers[w], r) && Read(s.workers[w].seen, r) == Level(s.highs, r)
  }

  /** A peak is the highest value its counter ever had, unless a worker still has to raise it to that. */
  ghost predicate Peaked(s: State) {
    && (forall w, r :: 0 <= w < |s.workers| ==> ReadOk(s, w, r))
    && (forall r :: Counter(r) ==>
          && Level(s.levels, r) <= Level(s.highs, r) <= Limit(s, r)
          && 0 <= Level(s.peaks, r) <= Level(s.highs, r)
          && (Level(s.peaks, r) == Level(s.highs, r) || Owed(s, r)))
  }

  function Places(s: State, i: nat): nat
    requires i < |s.writes|
  {
    Bit(i >= s.next) + multiset(s.queue)[i] + Holders(s.jobs, s.workers, Duty(i)) + s.writes[i]
  }

  /** Every result is unsent, queued, owed by one worker, or written: exactly one of these, exactly once. */
  ghost predicate Conserved(s: State)
    requires |s.writes| == |s.jobs|
  {
    forall i :: 0 <= i < |s.jobs| ==> Places(s, i) == 1
  }

  ghost predicate Inv(s: State) {
    Shape(s) && Accounted(s) && Limited(s) && Ranked(s) && Peaked(s) && Conserved(s)
  }
}
