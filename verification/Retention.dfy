/**
 Evidence retention. Rows are a set; a sample ID is a digest of its row, so rows that share one are the same row.
 Times are nanoseconds.
 */
module Retention {
  import opened Finite
  import opened Sorting
  import opened Selection

  datatype EvidenceKey = EvidenceKey(context: Context, connection: Ref)

  datatype Observation = Observation(key: EvidenceKey, sample: string, completedAt: nat, duration: nat, success: bool) {
    function Order(): Key { Key(completedAt, sample, "") }
  }

  datatype Limits = Limits(maxAge: nat, maxPerKey: nat, maxRows: nat)

  predicate Newer(x: Observation, y: Observation) { Below(y.Order(), x.Order()) }

  /** Rows with one sample ID are one row. */
  ghost predicate OneRowPerSample(s: set<Observation>) {
    forall x, y {:trigger SameSample(x, y)} :: x in s && y in s && SameSample(x, y) ==> x == y
  }

  predicate SameSample(x: Observation, y: Observation) { x.sample == y.sample }

  function Above(s: set<Observation>, r: Observation): set<Observation> { set x | x in s && Newer(x, r) }

  function Newest(s: set<Observation>, n: nat): set<Observation> { set r | r in s && |Above(s, r)| < n }

  function OfKey(s: set<Observation>, key: EvidenceKey): set<Observation> { set r | r in s && r.key == key }

  /** The newest rows of every key. */
  function PerKey(s: set<Observation>, n: nat): set<Observation> { set r | r in s && |Above(OfKey(s, r.key), r)| < n }

  function Live(s: set<Observation>, cutoff: int): set<Observation> { set r | r in s && r.completedAt >= cutoff }

  /** What retention keeps when nothing has expired: the newest rows among the newest rows of every key. */
  function Kept(s: set<Observation>, limits: Limits): set<Observation> {
    Newest(PerKey(s, limits.maxPerKey), limits.maxRows)
  }

  /** Drops the older rows of one key. */
  function PruneKey(s: set<Observation>, key: EvidenceKey, n: nat): set<Observation> {
    set r | r in s && (r.key == key ==> |Above(OfKey(s, r.key), r)| < n)
  }

  /** One append with its three deletions; only the appended row's key is pruned by key. */
  function Append(rows: set<Observation>, value: Observation, cutoff: int, limits: Limits): set<Observation> {
    Newest(PruneKey(Live(rows + {value}, cutoff), value.key, limits.maxPerKey), limits.maxRows)
  }

  // ----- the order

  lemma NewerTotal(x: Observation, y: Observation)
    ensures !(Newer(x, y) && Newer(y, x)) && !Newer(x, x)
    ensures SameSample(x, y) || Newer(x, y) || Newer(y, x)
  {
    BelowTotal(x.Order(), y.Order());
    BelowTotal(x.Order(), x.Order());
  }

  lemma NewerTransitive(x: Observation, y: Observation, z: Observation)
    requires Newer(x, y) && Newer(y, z)
    ensures Newer(x, z)
  {
    BelowTransitive(z.Order(), y.Order(), x.Order());
  }

  lemma AboveShrinks(s: set<Observation>, x: Observation, y: Observation)
    requires Newer(x, y)
    ensures Above(s, x) <= Above(s, y) && |Above(s, x)| <= |Above(s, y)|
    ensures x in s ==> |Above(s, x)| < |Above(s, y)|
  {
    forall z | z in Above(s, x)
      ensures z in Above(s, y)
    {
      NewerTransitive(z, x, y);
    }
    SubsetSize(Above(s, x), Above(s, y));
    if x in s {
      NewerTotal(x, x);
      SubsetSize(Above(s, x), Above(s, y) - {x});
    }
  }

  lemma AboveMonotone(s: set<Observation>, t: set<Observation>, r: Observation)
    requires s <= t
    ensures Above(s, r) <= Above(t, r) && |Above(s, r)| <= |Above(t, r)|
  {
    SubsetSize(Above(s, r), Above(t, r));
  }

  // ----- how many are kept

  lemma {:induction false} Oldest(s: set<Observation>) returns (m: Observation)
    requires s != {} && OneRowPerSample(s)
    ensures m in s && Above(s, m) == s - {m}
    decreases |s|
  {
    var x :| x in s;
    if s == {x} {
      m := x;
      NewerTotal(x, x);
    } else {
      var rest := Oldest(s - {x});
      NewerTotal(x, rest);
      NewerTotal(x, x);
      NewerTotal(rest, rest);
      m := if Newer(x, rest) then rest else x;
      forall z | z in s - {m}
        ensures Newer(z, m)
      {
        if m == x && z != rest {
          assert z in Above(s - {x}, rest);
          NewerTransitive(z, rest, x);
        } else if m == rest && z != x {
          assert z in Above(s - {x}, rest);
        }
      }
    }
  }

  lemma WithoutOldest(s: set<Observation>, m: Observation, n: nat)
    requires OneRowPerSample(s) && m in s && Above(s, m) == s - {m} && |s| > n
    ensures Newest(s, n) == Newest(s - {m}, n)
  {
    assert |Above(s, m)| >= n;
    forall r | r in s - {m}
      ensures Above(s, r) == Above(s - {m}, r)
    {
      assert r in Above(s, m);
      NewerTotal(m, r);
    }
  }

  /** Of a set, exactly the bounded number of newest rows is kept. */
  lemma {:induction false} NewestSize(s: set<Observation>, n: nat)
    requires OneRowPerSample(s)
    ensures |Newest(s, n)| == if |s| < n then |s| else n
    decreases |s|
  {
    if |s| <= n {
      forall r | r in s
        ensures |Above(s, r)| < n
      {
        NewerTotal(r, r);
        SubsetSize(Above(s, r), s - {r});
      }
      assert Newest(s, n) == s;
    } else {
      var m := Oldest(s);
      WithoutOldest(s, m, n);
      NewestSize(s - {m}, n);
    }
  }

  /** A row that is not among the newest has at least that many newer kept rows above it. */
  lemma NewestAbove(s: set<Observation>, r: Observation, n: nat)
    requires OneRowPerSample(s) && |Above(s, r)| >= n
    ensures |Above(Newest(s, n), r)| >= n
  {
    var a := Above(s, r);
    NewestSize(a, n);
    forall z | z in Newest(a, n)
      ensures z in Above(Newest(s, n), r)
    {
      assert Above(a, z) == Above(s, z) by {
        forall y | y in Above(s, z)
          ensures y in Above(a, z)
        {
          NewerTransitive(y, z, r);
        }
      }
    }
    SubsetSize(Newest(a, n), Above(Newest(s, n), r));
  }

  // ----- retention absorbs what it already dropped

  /** Any set between the kept rows and all rows: above a kept row, the same rows are newest of their keys. */
  lemma SameAbove(x: set<Observation>, y: set<Observation>, r: Observation, z: Observation, limits: Limits)
    requires OneRowPerSample(x) && Kept(x, limits) <= y <= x && r in Kept(x, limits) && (z == r || Newer(z, r))
    ensures z in PerKey(x, limits.maxPerKey) <==> z in PerKey(y, limits.maxPerKey)
  {
    var k := limits.maxPerKey;
    AboveMonotone(OfKey(y, z.key), OfKey(x, z.key), z);
    if z in PerKey(x, k) {
      KeptAbove(x, r, z, limits);
    } else if z in y {
      assert |Above(OfKey(x, z.key), z)| >= k;
      NewestAbove(OfKey(x, z.key), z, k);
      var a := Above(Newest(OfKey(x, z.key), k), z);
      forall t | t in a
        ensures t in Above(OfKey(y, z.key), z)
      {
        assert t in PerKey(x, k);
        if Newer(z, r) {
          NewerTransitive(t, z, r);
        }
        KeptAbove(x, r, t, limits);
      }
      SubsetSize(a, Above(OfKey(y, z.key), z));
    }
  }

  /** Whatever is newest of its key and newer than a kept row is kept as well. */
  lemma KeptAbove(x: set<Observation>, r: Observation, z: Observation, limits: Limits)
    requires r in Kept(x, limits) && z in PerKey(x, limits.maxPerKey) && (z == r || Newer(z, r))
    ensures z in Kept(x, limits)
  {
    if Newer(z, r) {
      AboveShrinks(PerKey(x, limits.maxPerKey), z, r);
    }
  }

  lemma SameCount(x: set<Observation>, y: set<Observation>, r: Observation, limits: Limits)
    requires OneRowPerSample(x) && Kept(x, limits) <= y <= x && r in Kept(x, limits)
    ensures Above(PerKey(x, limits.maxPerKey), r) == Above(PerKey(y, limits.maxPerKey), r)
    ensures r in Kept(y, limits)
  {
    forall z | Newer(z, r)
      ensures z in PerKey(x, limits.maxPerKey) <==> z in PerKey(y, limits.maxPerKey)
    {
      SameAbove(x, y, r, z, limits);
    }
    SameAbove(x, y, r, r, limits);
  }

  lemma NothingElse(x: set<Observation>, y: set<Observation>, r: Observation, limits: Limits)
    requires OneRowPerSample(x) && Kept(x, limits) <= y <= x && r in Kept(y, limits)
    ensures r in Kept(x, limits)
  {
    var tx, ty := PerKey(x, limits.maxPerKey), PerKey(y, limits.maxPerKey);
    if r !in Kept(x, limits) {
      if g :| g in Kept(x, limits) && Newer(r, g) {
        SameAbove(x, y, g, r, limits);
        KeptAbove(x, g, r, limits);
      } else {
        AllAbove(x, y, r, limits);
      }
    }
  }

  /** A row older than everything kept is dropped, for its key or for the total. */
  lemma AllAbove(x: set<Observation>, y: set<Observation>, r: Observation, limits: Limits)
    requires OneRowPerSample(x) && Kept(x, limits) <= y <= x && r in y && r !in Kept(x, limits)
    requires forall g :: g in Kept(x, limits) ==> !Newer(r, g)
    ensures r !in Kept(y, limits)
  {
    var tx, ty := PerKey(x, limits.maxPerKey), PerKey(y, limits.maxPerKey);
    forall g | g in Kept(x, limits)
      ensures Newer(g, r) && g in ty
    {
      NewerTotal(g, r);
      SameCount(x, y, g, limits);
    }
    NewestSize(tx, limits.maxRows);
    if |tx| >= limits.maxRows {
      SubsetSize(Kept(x, limits), Above(ty, r));
    } else {
      assert Kept(x, limits) == tx by {
        SubsetFull(Kept(x, limits), tx);
      }
      NotNewestOfKey(x, y, r, limits);
    }
  }

  lemma NotNewestOfKey(x: set<Observation>, y: set<Observation>, r: Observation, limits: Limits)
    requires OneRowPerSample(x) && r in y && PerKey(x, limits.maxPerKey) <= y <= x && r !in PerKey(x, limits.maxPerKey)
    ensures r !in PerKey(y, limits.maxPerKey)
  {
    var k := limits.maxPerKey;
    NewestAbove(OfKey(x, r.key), r, k);
    var a := Above(Newest(OfKey(x, r.key), k), r);
    forall t | t in a
      ensures t in Above(OfKey(y, r.key), r)
    {
      assert t in PerKey(x, k);
    }
    SubsetSize(a, Above(OfKey(y, r.key), r));
  }

  /** Dropping rows that would not be kept anyway does not change what is kept. */
  lemma KeptAbsorbs(x: set<Observation>, y: set<Observation>, limits: Limits)
    requires OneRowPerSample(x) && Kept(x, limits) <= y <= x
    ensures Kept(y, limits) == Kept(x, limits)
  {
    forall r | r in Kept(x, limits)
      ensures r in Kept(y, limits)
    {
      SameCount(x, y, r, limits);
    }
    forall r | r in Kept(y, limits)
      ensures r in Kept(x, limits)
    {
      NothingElse(x, y, r, limits);
    }
  }

  /** Expiry and retention commute, because everything newer than a live row is live. */
  lemma LiveCommutes(s: set<Observation>, cutoff: int, limits: Limits)
    ensures Kept(Live(s, cutoff), limits) == Live(Kept(s, limits), cutoff)
  {
    forall r | r in Live(s, cutoff)
      ensures Above(OfKey(Live(s, cutoff), r.key), r) == Above(OfKey(s, r.key), r)
    {
    }
    var t, u := PerKey(s, limits.maxPerKey), PerKey(Live(s, cutoff), limits.maxPerKey);
    assert u == Live(t, cutoff);
    forall r | r in u
      ensures Above(u, r) == Above(t, r)
    {
    }
  }

  /** One more row: only what is kept now, and the new row, can be kept afterwards. */
  lemma KeptGrows(s: set<Observation>, value: Observation, limits: Limits)
    requires OneRowPerSample(s + {value})
    ensures Kept(s + {value}, limits) <= Kept(s, limits) + {value}
  {
    var x := s + {value};
    forall r | r in Kept(x, limits) && r != value
      ensures r in Kept(s, limits)
    {
      AboveMonotone(OfKey(s, r.key), OfKey(x, r.key), r);
      assert r in PerKey(s, limits.maxPerKey);
      FewerAbove(s, value, r, limits);
    }
  }

  /** A new row never lowers the number of kept-by-key rows above an old one. */
  lemma FewerAbove(s: set<Observation>, value: Observation, r: Observation, limits: Limits)
    requires OneRowPerSample(s + {value})
    ensures |Above(PerKey(s, limits.maxPerKey), r)| <= |Above(PerKey(s + {value}, limits.maxPerKey), r)|
  {
    var x, k := s + {value}, limits.maxPerKey;
    var before, after := PerKey(s, k), PerKey(x, k);
    if forall z :: z in before && Newer(z, r) ==> z in after {
      SubsetSize(Above(before, r), Above(after, r));
    } else {
      var lost :| lost in before && Newer(lost, r) && lost !in after;
      LostIsReplaced(s, value, lost, k);
      NewerTransitive(value, lost, r);
      OnlyOneLost(s, value, lost, k);
      assert value !in Above(before, r) - {lost};
      forall z | z in Above(before, r) - {lost}
        ensures z in Above(after, r)
      {
      }
      SubsetSize((Above(before, r) - {lost}) + {value}, Above(after, r));
    }
  }

  /** A row loses its place only to a new, newer row of its key, which is then kept in its stead. */
  lemma LostIsReplaced(s: set<Observation>, value: Observation, lost: Observation, k: nat)
    requires OneRowPerSample(s + {value}) && lost in PerKey(s, k) && lost !in PerKey(s + {value}, k)
    ensures value !in s && value.key == lost.key && Newer(value, lost) && value in PerKey(s + {value}, k)
    ensures |Above(OfKey(s, lost.key), lost)| == k - 1
  {
    var x := s + {value};
    var a, b := Above(OfKey(s, lost.key), lost), Above(OfKey(x, lost.key), lost);
    assert b <= a + {value};
    assert value !in b || value in s ==> b == a;
    assert b == a + {value} && value !in a;
    AboveShrinks(OfKey(x, lost.key), value, lost);
  }

  lemma OnlyOneLost(s: set<Observation>, value: Observation, lost: Observation, k: nat)
    requires OneRowPerSample(s + {value}) && lost in PerKey(s, k) && lost !in PerKey(s + {value}, k)
    ensures forall z :: z in PerKey(s, k) && z != lost ==> z in PerKey(s + {value}, k)
  {
    LostIsReplaced(s, value, lost, k);
    forall z | z in PerKey(s, k) && z != lost
      ensures z in PerKey(s + {value}, k)
    {
      if z !in PerKey(s + {value}, k) {
        LostIsReplaced(s, value, z, k);
        NewerTotal(z, lost);
        if Newer(z, lost) {
          AboveShrinks(OfKey(s, lost.key), z, lost);
        } else {
          AboveShrinks(OfKey(s, lost.key), lost, z);
        }
      }
    }
  }

  // ----- one append, and any number of them

  /**
   The stored rows after an append are what retention keeps of the rows that would be there if rows were deleted for
   their age only.
   */
  lemma AppendKeeps(held: set<Observation>, value: Observation, cutoff: int, limits: Limits)
    requires OneRowPerSample(held + {value})
    ensures Append(Kept(held, limits), value, cutoff, limits) == Kept(Live(held + {value}, cutoff), limits)
  {
    AppendIsKept(held, value, cutoff, limits);
    LiveGrown(held, value, cutoff, limits);
  }

  lemma AppendIsKept(held: set<Observation>, value: Observation, cutoff: int, limits: Limits)
    ensures Append(Kept(held, limits), value, cutoff, limits) == Kept(Live(Kept(held, limits) + {value}, cutoff), limits)
  {
    OtherKeysFit(held, Live(Kept(held, limits) + {value}, cutoff), value, limits);
  }

  lemma LiveGrown(held: set<Observation>, value: Observation, cutoff: int, limits: Limits)
    requires OneRowPerSample(held + {value})
    ensures Kept(Live(Kept(held, limits) + {value}, cutoff), limits) == Kept(Live(held + {value}, cutoff), limits)
  {
    LiveCommutes(Kept(held, limits) + {value}, cutoff, limits);
    KeptOfGrown(held, value, limits);
    LiveCommutes(held + {value}, cutoff, limits);
  }

  lemma KeptOfGrown(held: set<Observation>, value: Observation, limits: Limits)
    requires OneRowPerSample(held + {value})
    ensures Kept(Kept(held, limits) + {value}, limits) == Kept(held + {value}, limits)
  {
    KeptGrows(held, value, limits);
    KeptSubset(held, limits);
    KeptAbsorbs(held + {value}, Kept(held, limits) + {value}, limits);
  }

  lemma KeptSubset(s: set<Observation>, limits: Limits)
    ensures Kept(s, limits) <= s
  {
  }

  /** Pruning the appended key alone prunes every key: the others already fit. */
  lemma OtherKeysFit(held: set<Observation>, live: set<Observation>, value: Observation, limits: Limits)
    requires live <= Kept(held, limits) + {value}
    ensures PruneKey(live, value.key, limits.maxPerKey) == PerKey(live, limits.maxPerKey)
  {
    forall r | r in live && r.key != value.key
      ensures |Above(OfKey(live, r.key), r)| < limits.maxPerKey
    {
      AboveMonotone(OfKey(live, r.key), OfKey(held, r.key), r);
    }
  }

  datatype Arrival = Arrival(value: Observation, now: int) {
    function Cutoff(limits: Limits): int { now - limits.maxAge }
  }

  /** The table after appends to an empty one, in order. */
  function Stored(arrivals: seq<Arrival>, limits: Limits): set<Observation> {
    if arrivals == [] then {}
    else
      var last := arrivals[|arrivals| - 1];
      Append(Stored(arrivals[..|arrivals| - 1], limits), last.value, last.Cutoff(limits), limits)
  }

  /** The same with rows deleted for their age only. */
  function Held(arrivals: seq<Arrival>, limits: Limits): set<Observation> {
    if arrivals == [] then {}
    else
      var last := arrivals[|arrivals| - 1];
      Live(Held(arrivals[..|arrivals| - 1], limits) + {last.value}, last.Cutoff(limits))
  }

  function Arrived(arrivals: seq<Arrival>): set<Observation> { set a | a in arrivals :: a.value }

  lemma {:induction false} HeldArrived(arrivals: seq<Arrival>, limits: Limits)
    ensures Held(arrivals, limits) <= Arrived(arrivals)
  {
    if arrivals == [] {
    } else {
      var init, last := arrivals[..|arrivals| - 1], arrivals[|arrivals| - 1];
      HeldArrived(init, limits);
      assert last in arrivals && forall a :: a in init ==> a in arrivals;
    }
  }

  /**
   After any appends, whatever the clock did, the stored rows are the newest maxRows of the newest maxPerKey of every
   key, of the rows that age alone would leave.
   */
  lemma {:induction false} StoredIsKept(arrivals: seq<Arrival>, limits: Limits)
    requires OneRowPerSample(Arrived(arrivals))
    ensures Stored(arrivals, limits) == Kept(Held(arrivals, limits), limits)
    decreases |arrivals|
  {
    if arrivals == [] {
    } else {
      var init, last := arrivals[..|arrivals| - 1], arrivals[|arrivals| - 1];
      ArrivedInit(arrivals);
      StoredIsKept(init, limits);
      HeldArrived(init, limits);
      AppendKeeps(Held(init, limits), last.value, last.Cutoff(limits), limits);
    }
  }

  lemma ArrivedInit(arrivals: seq<Arrival>)
    requires arrivals != []
    ensures Arrived(arrivals) == Arrived(arrivals[..|arrivals| - 1]) + {arrivals[|arrivals| - 1].value}
  {
    var init, last := arrivals[..|arrivals| - 1], arrivals[|arrivals| - 1];
    assert forall a :: a in arrivals <==> a in init || a == last;
  }

  /** A row outlives age exactly when some arrival of it was followed by no cutoff beyond it. */
  ghost predicate Outlives(arrivals: seq<Arrival>, limits: Limits, r: Observation, i: nat) {
    && i < |arrivals| && arrivals[i].value == r
    && forall j :: i <= j < |arrivals| ==> r.completedAt >= arrivals[j].Cutoff(limits)
  }

  lemma {:induction false} HeldMeans(arrivals: seq<Arrival>, limits: Limits, r: Observation)
    ensures r in Held(arrivals, limits) <==> exists i: nat :: Outlives(arrivals, limits, r, i)
    decreases |arrivals|
  {
    if arrivals == [] {
    } else {
      var n := |arrivals| - 1;
      var init := arrivals[..n];
      HeldMeans(init, limits, r);
      if r in Held(arrivals, limits) {
        if r == arrivals[n].value {
          assert Outlives(arrivals, limits, r, n);
        } else {
          var i: nat :| Outlives(init, limits, r, i);
          assert Outlives(arrivals, limits, r, i);
        }
      }
      if i: nat :| Outlives(arrivals, limits, r, i) {
        assert r.completedAt >= arrivals[n].Cutoff(limits);
        if i < n {
          assert forall j :: i <= j < n ==> init[j] == arrivals[j];
          assert Outlives(init, limits, r, i);
        }
      }
    }
  }

  ghost predicate ClockAdvances(arrivals: seq<Arrival>) {
    forall i, j :: 0 <= i < j < |arrivals| ==> arrivals[i].now <= arrivals[j].now
  }

  /** With a clock that never goes back, the last cutoff decides. */
  lemma HeldIsLive(arrivals: seq<Arrival>, limits: Limits)
    requires arrivals != [] && ClockAdvances(arrivals)
    ensures Held(arrivals, limits) == Live(Arrived(arrivals), arrivals[|arrivals| - 1].Cutoff(limits))
  {
    var n := |arrivals| - 1;
    forall r
      ensures r in Held(arrivals, limits) <==> r in Live(Arrived(arrivals), arrivals[n].Cutoff(limits))
    {
      HeldMeans(arrivals, limits, r);
      if r in Arrived(arrivals) && r.completedAt >= arrivals[n].Cutoff(limits) {
        var a :| a in arrivals && a.value == r;
        var i :| 0 <= i < |arrivals| && arrivals[i] == a;
        assert Outlives(arrivals, limits, r, i);
      }
      if i: nat :| Outlives(arrivals, limits, r, i) {
        assert arrivals[i] in arrivals;
      }
    }
  }

  /**
   With a clock that never goes back, the stored rows after any appends are exactly the unexpired rows among the newest
   maxRows of the newest maxPerKey of every key, of all rows that ever arrived.
   */
  lemma StoredIsNewest(arrivals: seq<Arrival>, limits: Limits)
    requires arrivals != [] && OneRowPerSample(Arrived(arrivals)) && ClockAdvances(arrivals)
    ensures Stored(arrivals, limits) == Live(Kept(Arrived(arrivals), limits), arrivals[|arrivals| - 1].Cutoff(limits))
  {
    StoredIsKept(arrivals, limits);
    HeldIsLive(arrivals, limits);
    LiveCommutes(Arrived(arrivals), arrivals[|arrivals| - 1].Cutoff(limits), limits);
  }

  /** Arrival order and repeated samples do not matter. */
  lemma StoredIgnoresOrder(a: seq<Arrival>, b: seq<Arrival>, limits: Limits)
    requires a != [] && b != [] && OneRowPerSample(Arrived(a)) && Arrived(a) == Arrived(b)
    requires ClockAdvances(a) && ClockAdvances(b) && a[|a| - 1].now == b[|b| - 1].now
    ensures Stored(a, limits) == Stored(b, limits)
  {
    StoredIsNewest(a, limits);
    StoredIsNewest(b, limits);
  }
}
