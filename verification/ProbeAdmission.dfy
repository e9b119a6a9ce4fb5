/**
 Admission into the bounded cohort: what one admission and a whole reservation keep, the pigeonhole argument
 that a granted reservation always finds a slot, and exactly when no reserved endpoint is forgotten.
 */
module ProbeAdmission {
  import opened Wrappers
  import opened Finite
  import opened ProbeContext

  ghost predicate Bounded(s: Probe, capacity: nat) {
    NoDup(s.cohort) && |s.cohort| <= capacity
  }

  /** Every protected cohort member lies in `needed`, a set the capacity can hold. */
  ghost predicate Fits(s: Probe, needed: set<Id>, capacity: nat) {
    && Bounded(s, capacity)
    && |needed| <= capacity
    && forall m :: m in s.cohort && s.Protected(m) ==> m in needed
  }

  ghost predicate SameProtection(s: Probe, t: Probe) {
    forall id :: s.Protected(id) <==> t.Protected(id)
  }

  /** Protected members of s are still members of t. */
  ghost predicate KeepsProtected(s: Probe, t: Probe) {
    forall m :: m in s.cohort && s.Protected(m) ==> m in t.cohort
  }

  function Trim(demand: map<Uid, Demand>, ids: set<Id>): map<Uid, Demand> {
    map g | g in demand :: demand[g].Without(ids)
  }

  // ----- removal of identifiers from demand

  lemma {:induction false} RemoveTwice(s: seq<Id>, a: set<Id>, b: set<Id>)
    ensures Remove(Remove(s, a), b) == Remove(s, a + b)
  {
    if s == [] {
    } else {
      RemoveTwice(s[1..], a, b);
      if s[0] in a {
        assert Remove(s, a) == Remove(s[1..], a);
      } else {
        assert Remove(s, a)[1..] == Remove(s[1..], a);
      }
    }
  }

  lemma {:induction false} RemoveNothing(s: seq<Id>, ids: set<Id>)
    requires ToSet(s) !! ids
    ensures Remove(s, ids) == s
  {
    if s == [] {
    } else {
      assert s[0] in ToSet(s);
      assert ToSet(s[1..]) <= ToSet(s);
      RemoveNothing(s[1..], ids);
    }
  }

  lemma TrimNothing(demand: map<Uid, Demand>)
    ensures Trim(demand, {}) == demand
  {
    forall g | g in demand
      ensures demand[g].Without({}) == demand[g]
    {
      RemoveNothing(demand[g].selected, {});
      if demand[g].uncertain.Some? {
        RemoveNothing(demand[g].uncertain.value, {});
      }
    }
  }

  lemma TrimTwice(demand: map<Uid, Demand>, a: set<Id>, b: set<Id>)
    ensures Trim(Trim(demand, a), b) == Trim(demand, a + b)
  {
    forall g | g in demand
      ensures demand[g].Without(a).Without(b) == demand[g].Without(a + b)
    {
      RemoveTwice(demand[g].selected, a, b);
      if demand[g].uncertain.Some? {
        RemoveTwice(demand[g].uncertain.value, a, b);
      }
    }
  }

  // ----- one eviction, one admission

  lemma DeleteAtMembers(s: seq<Id>, v: nat)
    requires v < |s| && NoDup(s)
    ensures NoDup(DeleteAt(s, v))
    ensures forall x :: x in DeleteAt(s, v) <==> x in s && x != s[v]
  {
    var r := DeleteAt(s, v);
    forall x | x in s && x != s[v]
      ensures x in r
    {
      var i :| 0 <= i < |s| && s[i] == x;
      assert if i < v then r[i] == x else r[i - 1] == x;
    }
  }

  /** Protection depends on demand and verdicts only. */
  lemma ProtectionDepends(s: Probe, t: Probe)
    requires s.demand == t.demand && s.rejected == t.rejected
    ensures SameProtection(s, t)
  {
    forall x
      ensures s.Protected(x) <==> t.Protected(x)
    {
      if x !in s.rejected && s.Demanded(x) {
        var g :| g in s.demand && s.demand[g].Claims(x);
        assert t.demand[g].Claims(x);
      }
      if x !in s.rejected && t.Demanded(x) {
        var g :| g in t.demand && t.demand[g].Claims(x);
        assert s.demand[g].Claims(x);
      }
    }
  }

  lemma ForgetProtection(s: Probe, id: Id)
    requires id in s.rejected
    ensures SameProtection(s, s.Forget(id).(rejected := s.rejected - {id}))
  {
    var t := s.Forget(id).(rejected := s.rejected - {id});
    forall x
      ensures s.Protected(x) <==> t.Protected(x)
    {
      if s.Protected(x) {
        var g :| g in s.demand && s.demand[g].Claims(x);
        assert t.demand[g].Claims(x);
      }
      if t.Protected(x) {
        var g :| g in t.demand && t.demand[g].Claims(x);
        assert s.demand[g].Claims(x);
      }
    }
  }

  lemma EvictKeeps(s: Probe, v: nat)
    requires v < |s.cohort| && NoDup(s.cohort) && !s.Protected(s.cohort[v])
    ensures var t := s.Evict(v);
            && NoDup(t.cohort) && |t.cohort| == |s.cohort| - 1
            && (forall x :: x in t.cohort <==> x in s.cohort && x != s.cohort[v])
            && SameProtection(s, t)
  {
    DeleteAtMembers(s.cohort, v);
    var t := s.Evict(v);
    if s.cohort[v] in s.rejected {
      ForgetProtection(s, s.cohort[v]);
      ProtectionDepends(s.Forget(s.cohort[v]).(rejected := s.rejected - {s.cohort[v]}), t);
    } else {
      assert s.rejected - {s.cohort[v]} == s.rejected;
      ProtectionDepends(s, t);
    }
  }

  lemma VictimUnprotected(s: Probe, selected: bool)
    requires s.Victim(selected) < |s.cohort|
    ensures !s.Protected(s.cohort[s.Victim(selected)])
  {
  }

  /** One admission: never a duplicate, never above capacity, never a protected member displaced, and
      the protected set itself does not change. */
  lemma AdmitKeeps(s: Probe, id: Id, capacity: nat, selected: bool)
    requires Bounded(s, capacity)
    ensures var t := s.Admit(id, capacity, selected);
            && Bounded(t, capacity) && SameProtection(s, t) && KeepsProtected(s, t)
            && (forall x :: x in t.cohort ==> x in s.cohort || x == id)
  {
    var t := s.Admit(id, capacity, selected);
    if id in s.cohort || (|s.cohort| >= capacity && s.Victim(selected) == |s.cohort|) {
      assert t == s;
    } else if |s.cohort| < capacity {
      ProtectionDepends(s, t);
    } else {
      var v := s.Victim(selected);
      VictimUnprotected(s, selected);
      EvictKeeps(s, v);
      ProtectionDepends(s.Evict(v), t);
    }
  }

  /** A whole list of admissions keeps the same. */
  lemma {:induction false} AdmitAllKeeps(s: Probe, ids: seq<Id>, capacity: nat, selected: bool)
    requires Bounded(s, capacity)
    ensures var t := s.AdmitAll(ids, capacity, selected);
            && Bounded(t, capacity) && SameProtection(s, t) && KeepsProtected(s, t)
            && (forall x :: x in t.cohort ==> x in s.cohort || x in ids)
    decreases |ids|
  {
    if ids == [] {
    } else {
      AdmitKeeps(s, ids[0], capacity, selected);
      AdmitAllKeeps(s.Admit(ids[0], capacity, selected), ids[1..], capacity, selected);
    }
  }

  // ----- the pigeonhole argument

  /** A reserved endpoint always finds a slot next to every protected member. */
  lemma AdmitFindsSlot(s: Probe, id: Id, needed: set<Id>, capacity: nat)
    requires Fits(s, needed, capacity) && id in needed
    ensures var t := s.Admit(id, capacity, true); id in t.cohort && Fits(t, needed, capacity)
  {
    AdmitKeeps(s, id, capacity, true);
    if id !in s.cohort && |s.cohort| >= capacity {
      Pigeonhole(s.cohort, needed, id, capacity);
      var x :| x in s.cohort && x !in needed;
      assert x in s.Unprotected();
      assert s.Victim(true) < |s.cohort|;
    }
  }

  /** After admitting a reservation, every reserved endpoint that is protected is in the cohort. */
  lemma {:induction false} AdmitAllFindsSlots(s: Probe, ids: seq<Id>, needed: set<Id>, capacity: nat)
    requires Fits(s, needed, capacity) && ToSet(ids) <= needed
    ensures var t := s.AdmitAll(ids, capacity, true);
            && Fits(t, needed, capacity)
            && forall id :: id in ids && s.Protected(id) ==> id in t.cohort
    decreases |ids|
  {
    if ids == [] {
    } else {
      assert ids[0] in ToSet(ids);
      assert ToSet(ids[1..]) <= ToSet(ids);
      var t := s.Admit(ids[0], capacity, true);
      AdmitFindsSlot(s, ids[0], needed, capacity);
      AdmitKeeps(s, ids[0], capacity, true);
      AdmitAllFindsSlots(t, ids[1..], needed, capacity);
      AdmitAllKeeps(t, ids[1..], capacity, true);
      forall id | id in ids && s.Protected(id)
        ensures id in t.AdmitAll(ids[1..], capacity, true).cohort
      {
        assert t.Protected(id);
        assert id == ids[0] || id in ids[1..];
      }
    }
  }

  // ----- which endpoints an admission forgets

  ghost function AdmitDrops(s: Probe, id: Id, capacity: nat, selected: bool): set<Id> {
    if id in s.cohort || |s.cohort| < capacity || FirstIn(s.cohort, s.rejected) == |s.cohort| then {}
    else {s.cohort[FirstIn(s.cohort, s.rejected)]}
  }

  /** The rejected endpoints a list of admissions evicts and thereby drops from every demand. */
  ghost function Drops(s: Probe, ids: seq<Id>, capacity: nat, selected: bool): set<Id>
    decreases |ids|
  {
    if ids == [] then {}
    else
      AdmitDrops(s, ids[0], capacity, selected)
      + Drops(s.Admit(ids[0], capacity, selected), ids[1..], capacity, selected)
  }

  lemma AdmitTrims(s: Probe, id: Id, capacity: nat, selected: bool)
    ensures var t := s.Admit(id, capacity, selected);
            && t.demand == Trim(s.demand, AdmitDrops(s, id, capacity, selected))
            && t.rejected <= s.rejected
            && AdmitDrops(s, id, capacity, selected) <= s.rejected
  {
    TrimNothing(s.demand);
  }

  /** Admissions touch demand only by dropping evicted endpoints that were rejected. */
  lemma {:induction false} AdmitAllTrims(s: Probe, ids: seq<Id>, capacity: nat, selected: bool)
    ensures var t := s.AdmitAll(ids, capacity, selected);
            && t.demand == Trim(s.demand, Drops(s, ids, capacity, selected))
            && t.rejected <= s.rejected
            && Drops(s, ids, capacity, selected) <= s.rejected
    decreases |ids|
  {
    if ids == [] {
      TrimNothing(s.demand);
    } else {
      var t := s.Admit(ids[0], capacity, selected);
      AdmitTrims(s, ids[0], capacity, selected);
      AdmitAllTrims(t, ids[1..], capacity, selected);
      TrimTwice(s.demand, AdmitDrops(s, ids[0], capacity, selected), Drops(t, ids[1..], capacity, selected));
    }
  }
}
