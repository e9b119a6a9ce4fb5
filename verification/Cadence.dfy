/** Round cadence and requeue jitter: 64-bit nanosecond arithmetic, and when the cadence keeps its promise. */
module Cadence {
  import opened Policies

  const MIN_PROBE_CADENCE: int := 30 * SECOND
  const REQUEUE_JITTER_PERMILLE: int := 100
  const TWO_63: int := 0x8000_0000_0000_0000
  const TWO_64: int := 0x1_0000_0000_0000_0000

  /** Two's complement wrap-around of a signed 64-bit result. */
  function Wrap(x: int): int {
    (x + TWO_63) % TWO_64 - TWO_63
  }

  /** Go's signed division truncates toward zero. */
  function TruncDiv(a: int, b: int): int
    requires b != 0
  {
    var q := (if a < 0 then -a else a) / (if b < 0 then -b else b);
    if (a < 0) == (b < 0) then q else -q
  }

  function Min(a: int, b: int): int { if a < b then a else b }

  function Max(a: int, b: int): int { if a < b then b else a }

  /** The sample spread; a 64-bit product, as the division by it below. */
  function Spread(policy: Policy): int {
    Wrap(policy.minSamples * (1000 + REQUEUE_JITTER_PERMILLE))
  }

  /** The evidence cadence before the 30-second floor. */
  function UnflooredCadence(policy: Policy): int
    requires policy.Valid()
  {
    if policy.minSamples > 1 then
      SpreadExact(policy);
      Min(policy.freshness, TruncDiv(Wrap(policy.evidenceWindow * 1000), Spread(policy)))
    else
      policy.freshness
  }

  function ProbeCadence(policy: Policy): int
    requires policy.Valid()
  {
    Max(UnflooredCadence(policy), MIN_PROBE_CADENCE)
  }

  function RefreshInterval(value: int): int {
    if value < 30 * SECOND || value > 24 * HOUR then 5 * MINUTE else value
  }

  /** `hash` is the FNV digest of the object UID; the product is an unsigned 64-bit one. */
  function RequeueAfter(value: int, hash: nat): int {
    var base := RefreshInterval(value);
    base + (base * (hash % (REQUEUE_JITTER_PERMILLE * 10 + 1))) % TWO_64 / 10_000
  }

  function GatewayRequeue(refresh: int, policy: Policy, hash: nat): int
    requires policy.Valid()
  {
    RequeueAfter(Min(RefreshInterval(refresh), ProbeCadence(policy)), hash)
  }

  lemma SpreadExact(policy: Policy)
    requires policy.Valid()
    ensures Spread(policy) == policy.minSamples * 1100 > 0
    ensures Wrap(policy.evidenceWindow * 1000) == policy.evidenceWindow * 1000
  {
  }

  /** Euclidean division of a non-negative number, bracketed. */
  lemma DivBracket(a: int, k: int)
    requires 0 <= a && 0 < k
    ensures 0 <= a / k && a / k * k <= a < (a / k + 1) * k
  {
    var q, r := a / k, a % k;
    assert a == q * k + r;
    assert (q + 1) * k == q * k + k;
    if q < 0 {
      MulMonotone(q, -1, k);
      assert false;
    }
  }

  /** Truncating division of non-negative numbers is the floor. */
  lemma FloorBracket(a: int, k: int)
    requires 0 <= a && 0 < k
    ensures var q := TruncDiv(a, k); 0 <= q && q * k <= a < (q + 1) * k
  {
    DivBracket(a, k);
  }

  /** No 64-bit product of the cadence wraps for an admitted policy, and the quotient is the floor. */
  lemma UnflooredCadenceExact(policy: Policy)
    requires policy.Valid() && policy.minSamples > 1
    ensures var c := UnflooredCadence(policy);
            var spread := policy.minSamples * 1100;
            && 0 <= c <= policy.freshness
            && c * spread <= policy.evidenceWindow * 1000
            && (c < policy.freshness ==> policy.evidenceWindow * 1000 < (c + 1) * spread)
  {
    SpreadExact(policy);
    var spread := policy.minSamples * 1100;
    var q := TruncDiv(policy.evidenceWindow * 1000, spread);
    FloorBracket(policy.evidenceWindow * 1000, spread);
    MulMonotone(Min(policy.freshness, q), q, spread);
  }

  lemma MulMonotone(a: int, b: int, k: int)
    requires a <= b && 0 <= k
    ensures a * k <= b * k
  {
  }

  lemma DivMonotone(a: int, b: int)
    requires 0 <= a <= b
    ensures 0 <= a / 10_000 <= b / 10_000
  {
  }

  /** A requeue is never later than 10% after its base, for every UID. */
  lemma RequeueLateness(value: int, hash: nat)
    ensures var base := RefreshInterval(value);
            base <= RequeueAfter(value, hash) <= base + base * REQUEUE_JITTER_PERMILLE / 1000
  {
    var base := RefreshInterval(value);
    var jitter := hash % 1001;
    MulMonotone(jitter, 1000, base);
    MulMonotone(0, jitter, base);
    var product := base * jitter;
    assert product == jitter * base;
    assert product % TWO_64 == product;
    DivMonotone(product, base * 1000);
    TenPercent(base);
  }

  lemma TenPercent(base: int)
    ensures base * 1000 / 10_000 == base * 100 / 1000
  {
  }

  /** The latest a Gateway can be requeued, whatever its pool's refresh interval and its UID. */
  lemma GatewayRequeueBound(refresh: int, policy: Policy, hash: nat)
    requires policy.Valid()
    ensures var cadence := ProbeCadence(policy);
            0 < GatewayRequeue(refresh, policy, hash) <= cadence + cadence * REQUEUE_JITTER_PERMILLE / 1000
  {
    var asked := Min(RefreshInterval(refresh), ProbeCadence(policy));
    RequeueLateness(asked, hash);
    assert RefreshInterval(asked) <= ProbeCadence(policy);
  }

  ghost predicate KeepsPromise(policy: Policy)
    requires policy.Valid()
  {
    var cadence := ProbeCadence(policy);
    && cadence <= policy.freshness
    && forall refresh, hash: nat {:trigger GatewayRequeue(refresh, policy, hash)} ::
         policy.minSamples * GatewayRequeue(refresh, policy, hash) <= policy.evidenceWindow
  }

  /**
   The cadence keeps every evaluation within Freshness of its round and fits MinSamples maximally late
   requeues into EvidenceWindow exactly when the 30-second floor did not raise it.
   */
  lemma CadenceKeepsPromise(policy: Policy)
    requires policy.Valid() && policy.minSamples > 1
    ensures KeepsPromise(policy) <==> UnflooredCadence(policy) >= MIN_PROBE_CADENCE
  {
    UnflooredCadenceExact(policy);
    if UnflooredCadence(policy) >= MIN_PROBE_CADENCE {
      forall refresh, hash: nat
        ensures policy.minSamples * GatewayRequeue(refresh, policy, hash) <= policy.evidenceWindow
      {
        GatewayRequeueBound(refresh, policy, hash);
        FitsWindow(policy.minSamples, ProbeCadence(policy), GatewayRequeue(refresh, policy, hash), policy.evidenceWindow);
      }
    } else if ProbeCadence(policy) <= policy.freshness {
      LatestRequeueMisses(policy);
    }
  }

  lemma FitsWindow(samples: int, cadence: int, requeue: int, window: int)
    requires samples > 1 && 0 < requeue <= cadence + cadence * 100 / 1000
    requires cadence * (samples * 1100) <= window * 1000
    ensures samples * requeue <= window
  {
    assert requeue * 1000 <= cadence * 1100;
    MulMonotone(requeue * 1000, cadence * 1100, samples);
    assert samples * requeue * 1000 == requeue * 1000 * samples;
    assert cadence * (samples * 1100) == cadence * 1100 * samples;
  }

  /** When the window forces a cadence below the floor, the latest requeue of the floored cadence overruns it. */
  lemma LatestRequeueMisses(policy: Policy)
    requires policy.Valid() && policy.minSamples > 1
    requires UnflooredCadence(policy) < MIN_PROBE_CADENCE <= policy.freshness
    ensures !KeepsPromise(policy)
  {
    ShortWindow(policy);
    FlooredRequeue(policy);
    assert policy.minSamples * (33 * SECOND) > policy.evidenceWindow;
  }

  lemma ShortWindow(policy: Policy)
    requires policy.Valid() && policy.minSamples > 1 && UnflooredCadence(policy) < MIN_PROBE_CADENCE <= policy.freshness
    ensures policy.evidenceWindow < policy.minSamples * (33 * SECOND)
  {
    UnflooredCadenceExact(policy);
    var c := UnflooredCadence(policy);
    var spread := policy.minSamples * 1100;
    MulMonotone(c + 1, MIN_PROBE_CADENCE, spread);
  }

  /** The latest requeue of a floored cadence is ten percent after thirty seconds. */
  lemma FlooredRequeue(policy: Policy)
    requires policy.Valid() && UnflooredCadence(policy) < MIN_PROBE_CADENCE
    ensures GatewayRequeue(HOUR, policy, 1000) == 33 * SECOND
  {
    assert ProbeCadence(policy) == 30 * SECOND;
  }

  /** A window with room for all samples at Freshness leaves the cadence at Freshness. */
  lemma RoomyWindow(policy: Policy)
    requires policy.Valid() && policy.minSamples > 1
    requires policy.freshness * (policy.minSamples * 1100) <= policy.evidenceWindow * 1000
    ensures UnflooredCadence(policy) == policy.freshness
  {
    UnflooredCadenceExact(policy);
    var c := UnflooredCadence(policy);
    if c < policy.freshness {
      MulMonotone(c + 1, policy.freshness, policy.minSamples * 1100);
    }
  }

  /** The policy the operator uses: its cadence is its Freshness and the promise holds. */
  lemma DefaultCadence()
    ensures ProbeCadence(DefaultPolicy(Adaptive)) == 5 * MINUTE
    ensures KeepsPromise(DefaultPolicy(Adaptive))
  {
    RoomyWindow(DefaultPolicy(Adaptive));
    CadenceKeepsPromise(DefaultPolicy(Adaptive));
  }
}
