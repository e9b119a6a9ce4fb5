/**
 The reservation protocol on one context: a granted reservation is honoured by commit and by hold, a release
 restores every demand, and a reservation planned among maintained endpoints is never refused for capacity.
 */
module ProbeReservation {
  import opened Wrappers
  import opened Finite
  import opened ProbeContext
  import opened ProbeAdmission

  ghost predicate Granted(s: Probe, gateway: Uid, decision: Decision, now: nat, capacity: nat) {
    s.Reserve(gateway, decision, now, capacity).1.Ok?
  }

  /** Everything a pending reservation may have to keep: protected members, the Gateway's previous
      selection as far as it is maintained, and the reserved endpoints. */
  ghost function OpenNeeded(s: Probe, r: Reservation): set<Id>
    requires s.Pending(r.gateway)
  {
    (set m | m in s.cohort && m !in s.rejected &&
             (s.Demanded(m) || (r.previous.Some? && m in r.previous.value.selected)))
    + ToSet(s.demand[r.gateway].selected)
  }

  ghost predicate OpenFits(s: Probe, r: Reservation, capacity: nat) {
    && Bounded(s, capacity)
    && s.Pending(r.gateway)
    && s.demand[r.gateway].uncertain.None?
    && (r.previous.Some? ==> r.previous.value.uncertain.None?)
    && |OpenNeeded(s, r)| <= capacity
  }

  lemma NeededMember(s: Probe, gateway: Uid, selected: seq<Id>, g: Uid, m: Id)
    requires g in s.demand && s.demand[g].Claims(m) && m in s.cohort && m !in s.rejected
    ensures m in s.Needed(gateway, selected)
  {
    assert m in s.demand[g].Ids() && s.Counts(gateway, g, s.demand[g], m);
  }

  /** A granted reservation accounts for everything that may have to be maintained together. */
  lemma GrantFits(s: Probe, gateway: Uid, decision: Decision, now: nat, capacity: nat)
    requires Bounded(s, capacity) && Granted(s, gateway, decision, now, capacity)
    ensures var (t, r) := s.Reserve(gateway, decision, now, capacity);
            && Open(t, r.value, capacity)
            && r.value.gateway == gateway && r.value.previous == s.Previous(gateway)
            && t.cohort == s.cohort
  {
    var (t, r) := s.Reserve(gateway, decision, now, capacity);
    var u := s.ObserveVerdicts(decision);
    var needed := u.Needed(gateway, decision.selected);
    forall m | m in OpenNeeded(t, r.value)
      ensures m in needed
    {
      if m !in decision.selected {
        if t.Demanded(m) {
          var g :| g in t.demand && t.demand[g].Claims(m);
          assert u.demand[g].Claims(m);
          NeededMember(u, gateway, decision.selected, g, m);
        } else {
          NeededMember(u, gateway, decision.selected, gateway, m);
        }
      }
    }
    SubsetSize(OpenNeeded(t, r.value), needed);
  }

  lemma CommitFits(s: Probe, r: Reservation, capacity: nat)
    requires OpenFits(s, r, capacity)
    ensures Fits(s.CommitDemand(r), OpenNeeded(s, r), capacity)
  {
    var t := s.CommitDemand(r);
    forall m | m in t.cohort && t.Protected(m)
      ensures m in OpenNeeded(s, r)
    {
      var g :| g in t.demand && t.demand[g].Claims(m);
      assert s.demand[g].Claims(m);
    }
  }

  lemma HoldFits(s: Probe, r: Reservation, intended: Receipt, now: nat, capacity: nat)
    requires OpenFits(s, r, capacity)
    ensures Fits(s.HoldDemand(r, intended, now), OpenNeeded(s, r), capacity)
  {
    var t := s.HoldDemand(r, intended, now);
    forall m | m in t.cohort && t.Protected(m)
      ensures m in OpenNeeded(s, r)
    {
      var g :| g in t.demand && t.demand[g].Claims(m);
      if g != r.gateway {
        assert s.demand[g].Claims(m);
      } else if m in s.demand[g].selected {
      } else {
        assert m in r.previous.value.selected;
      }
    }
  }

  // ----- members that stay

  lemma AdmitKeepsDemanded(s: Probe, id: Id, capacity: nat, selected: bool, x: Id)
    requires Bounded(s, capacity) && x in s.cohort && s.Demanded(x)
    requires x !in AdmitDrops(s, id, capacity, selected)
    ensures var t := s.Admit(id, capacity, selected); x in t.cohort && t.Demanded(x)
  {
    var t := s.Admit(id, capacity, selected);
    AdmitTrims(s, id, capacity, selected);
    var g :| g in s.demand && s.demand[g].Claims(x);
    assert t.demand[g].Claims(x);
    if id !in s.cohort && |s.cohort| >= capacity && s.Victim(selected) < |s.cohort| {
      DeleteAtMembers(s.cohort, s.Victim(selected));
    }
  }

  /** A demanded member leaves the cohort during admissions only by being dropped as rejected. */
  lemma {:induction false} AdmitAllKeepsDemanded(s: Probe, ids: seq<Id>, capacity: nat, selected: bool, x: Id)
    requires Bounded(s, capacity) && x in s.cohort && s.Demanded(x)
    requires x !in Drops(s, ids, capacity, selected)
    ensures x in s.AdmitAll(ids, capacity, selected).cohort
    decreases |ids|
  {
    if ids == [] {
    } else {
      AdmitKeeps(s, ids[0], capacity, selected);
      AdmitKeepsDemanded(s, ids[0], capacity, selected, x);
      AdmitAllKeepsDemanded(s.Admit(ids[0], capacity, selected), ids[1..], capacity, selected, x);
    }
  }

  /** After admitting reserved endpoints, each is a member unless it was dropped as rejected. */
  lemma AdmittedUnlessDropped(s: Probe, ids: seq<Id>, needed: set<Id>, capacity: nat, x: Id)
    requires Fits(s, needed, capacity) && ToSet(ids) <= needed
    requires s.rejected <= ToSet(s.cohort)
    requires x in ids && s.Demanded(x) && x !in Drops(s, ids, capacity, true)
    ensures x in s.AdmitAll(ids, capacity, true).cohort
  {
    if x in s.rejected {
      AdmitAllKeepsDemanded(s, ids, capacity, true, x);
    } else {
      AdmitAllFindsSlots(s, ids, needed, capacity);
    }
  }

  // ----- commit and hold

  /** The demand of a Gateway before a reservation was made for it. */
  function Before(r: Reservation): Demand {
    if r.previous.Some? then r.previous.value else NO_DEMAND
  }

  /** An open reservation: made in s, not yet settled. */
  ghost predicate Open(s: Probe, r: Reservation, capacity: nat) {
    OpenFits(s, r, capacity) && s.rejected <= ToSet(s.cohort)
  }

  /** The rejected endpoints a commit drops, and those a hold drops. */
  ghost function CommitDrops(s: Probe, r: Reservation, capacity: nat): set<Id>
    requires s.Pending(r.gateway)
  {
    Drops(s.CommitDemand(r), s.demand[r.gateway].selected, capacity, true)
  }

  ghost function HoldDrops(s: Probe, r: Reservation, intended: Receipt, now: nat, capacity: nat): set<Id>
    requires s.Pending(r.gateway)
  {
    Drops(s.HoldDemand(r, intended, now), s.demand[r.gateway].selected, capacity, true)
  }

  /**
   Publishing an open reservation: the cohort stays duplicate-free and within capacity, no protected member
   is displaced, and every reserved endpoint is maintained unless it was itself rejected and dropped.
   */
  lemma CommitHonours(s: Probe, r: Reservation, capacity: nat)
    requires Open(s, r, capacity)
    ensures var u := s.Commit(r, capacity);
            && Bounded(u, capacity)
            && KeepsProtected(s.CommitDemand(r), u)
            && CommitDrops(s, r, capacity) <= s.rejected
            && (forall id :: id in s.demand[r.gateway].selected && id !in CommitDrops(s, r, capacity) ==> id in u.cohort)
  {
    var c, ids := s.CommitDemand(r), s.demand[r.gateway].selected;
    CommitFits(s, r, capacity);
    AdmitAllKeeps(c, ids, capacity, true);
    AdmitAllTrims(c, ids, capacity, true);
    forall id | id in ids && id !in CommitDrops(s, r, capacity)
      ensures id in s.Commit(r, capacity).cohort
    {
      assert c.demand[r.gateway].Claims(id);
      AdmittedUnlessDropped(c, ids, OpenNeeded(s, r), capacity, id);
    }
  }

  /** After a commit the Gateway's demand is the reserved selection and no Gateway lost anything that was
      not rejected. */
  lemma CommitDemands(s: Probe, r: Reservation, capacity: nat)
    requires Open(s, r, capacity)
    ensures var u := s.Commit(r, capacity);
            var dropped := CommitDrops(s, r, capacity);
            && u.demand.Keys == s.demand.Keys
            && u.rejected <= s.rejected
            && (forall g :: g in s.demand && g != r.gateway ==> u.demand[g] == s.demand[g].Without(dropped))
            && u.demand[r.gateway].selected == Remove(s.demand[r.gateway].selected, dropped)
            && u.demand[r.gateway].uncertain.None? && !u.demand[r.gateway].pending
  {
    AdmitAllTrims(s.CommitDemand(r), s.demand[r.gateway].selected, capacity, true);
  }

  /**
   Holding an open reservation as uncertain: besides what a commit keeps, the Gateway's previous selection
   stays maintained next to the attempted one.
   */
  lemma HoldHonours(s: Probe, r: Reservation, intended: Receipt, now: nat, capacity: nat)
    requires Open(s, r, capacity)
    ensures var u := s.Hold(r, intended, now, capacity);
            var dropped := HoldDrops(s, r, intended, now, capacity);
            && Bounded(u, capacity)
            && KeepsProtected(s.HoldDemand(r, intended, now), u)
            && dropped <= s.rejected
            && (forall id :: id in s.demand[r.gateway].selected && id !in dropped ==> id in u.cohort)
            && (forall id :: id in Before(r).selected && id in s.cohort && id !in dropped ==> id in u.cohort)
  {
    var h, ids := s.HoldDemand(r, intended, now), s.demand[r.gateway].selected;
    var dropped := HoldDrops(s, r, intended, now, capacity);
    HoldFits(s, r, intended, now, capacity);
    AdmitAllKeeps(h, ids, capacity, true);
    AdmitAllTrims(h, ids, capacity, true);
    forall id | id in ids && id !in dropped
      ensures id in s.Hold(r, intended, now, capacity).cohort
    {
      assert h.demand[r.gateway].Claims(id);
      AdmittedUnlessDropped(h, ids, OpenNeeded(s, r), capacity, id);
    }
    forall id | id in Before(r).selected && id in s.cohort && id !in dropped
      ensures id in s.Hold(r, intended, now, capacity).cohort
    {
      assert h.demand[r.gateway].Claims(id);
      AdmitAllKeepsDemanded(h, ids, capacity, true, id);
    }
  }

  /** After a hold the Gateway's demand is its previous selection, with the attempt and the receipt to look
      for beside it. */
  lemma HoldDemands(s: Probe, r: Reservation, intended: Receipt, now: nat, capacity: nat)
    requires Open(s, r, capacity)
    ensures var u := s.Hold(r, intended, now, capacity);
            var dropped := HoldDrops(s, r, intended, now, capacity);
            && u.demand.Keys == s.demand.Keys
            && u.rejected <= s.rejected
            && (forall g :: g in s.demand && g != r.gateway ==> u.demand[g] == s.demand[g].Without(dropped))
            && u.demand[r.gateway].selected == Remove(Before(r).selected, dropped)
            && u.demand[r.gateway].uncertain == Some(Remove(s.demand[r.gateway].selected, dropped))
            && u.demand[r.gateway].intended == intended && u.demand[r.gateway].attempt == s.attempts + 1
            && !u.demand[r.gateway].pending
  {
    AdmitAllTrims(s.HoldDemand(r, intended, now), s.demand[r.gateway].selected, capacity, true);
  }

  lemma {:induction false} AdmitAllCounters(s: Probe, ids: seq<Id>, capacity: nat, selected: bool)
    ensures var t := s.AdmitAll(ids, capacity, selected);
            t.attempts == s.attempts && t.round == s.round && t.cursor == s.cursor && t.until == s.until
    decreases |ids|
  {
    if ids == [] {
    } else {
      AdmitAllCounters(s.Admit(ids[0], capacity, selected), ids[1..], capacity, selected);
    }
  }

  // ----- refusal and release

  /** A failure before any write restores every demand exactly and moves no cohort member. */
  lemma ReleaseRestores(s: Probe, gateway: Uid, decision: Decision, now: nat, capacity: nat)
    requires Granted(s, gateway, decision, now, capacity)
    ensures var (t, r) := s.Reserve(gateway, decision, now, capacity);
            t.Release(r.value) == s.ObserveVerdicts(decision)
  {
    var (t, r) := s.Reserve(gateway, decision, now, capacity);
    assert t.Release(r.value).demand == s.demand;
  }

  /** No second reservation while a write is unresolved, and a refusal changes verdicts only. */
  lemma RefusalChangesVerdictsOnly(s: Probe, gateway: Uid, decision: Decision, now: nat, capacity: nat)
    ensures s.Unresolved(gateway) ==> !Granted(s, gateway, decision, now, capacity)
    ensures !Granted(s, gateway, decision, now, capacity) ==>
              s.Reserve(gateway, decision, now, capacity).0 == s.ObserveVerdicts(decision)
    ensures Granted(s, gateway, decision, now, capacity) <==>
              !s.Unresolved(gateway) && |s.ObserveVerdicts(decision).Needed(gateway, decision.selected)| <= capacity
  {
  }

  /**
   A decision planned among maintained endpoints always fits: when no other Gateway's reservation is open and
   the Gateway's own last write is resolved, everything counted is a cohort member.
   */
  lemma MaintainedPlanFits(s: Probe, gateway: Uid, decision: Decision, now: nat, capacity: nat)
    requires Bounded(s, capacity) && !s.Unresolved(gateway)
    requires forall g :: g in s.demand && g != gateway ==> !s.demand[g].pending
    requires ToSet(decision.selected) <= ToSet(s.cohort)
    ensures Granted(s, gateway, decision, now, capacity)
  {
    var u := s.ObserveVerdicts(decision);
    assert u.Needed(gateway, decision.selected) <= ToSet(s.cohort);
    SubsetSize(u.Needed(gateway, decision.selected), ToSet(s.cohort));
    ToSetSize(s.cohort);
  }

  // ----- exactly when nothing reserved is forgotten

  /** The rejected members in admission order: the order in which admissions evict them. */
  function RejectedMembers(cohort: seq<Id>, rejected: set<Id>): seq<Id> {
    if cohort == [] then []
    else (if cohort[0] in rejected then [cohort[0]] else []) + RejectedMembers(cohort[1..], rejected)
  }

  /** How many members must yield before all of `ids` are in the cohort. */
  function Overflow(cohort: seq<Id>, ids: seq<Id>, capacity: nat): nat {
    var n := |ToSet(ids) - ToSet(cohort)| + |cohort| - capacity;
    if n < 0 then 0 else n
  }

  function FirstToYield(s: Probe, ids: seq<Id>, capacity: nat): seq<Id> {
    var r := RejectedMembers(s.cohort, s.rejected);
    var k := Overflow(s.cohort, ids, capacity);
    if k < |r| then r[..k] else r
  }

  lemma {:induction false} RejectedMembersAppend(cohort: seq<Id>, rejected: set<Id>, id: Id)
    requires id !in rejected
    ensures RejectedMembers(cohort + [id], rejected) == RejectedMembers(cohort, rejected)
  {
    if cohort == [] {
      assert RejectedMembers([id], rejected) == [] + RejectedMembers([id][1..], rejected);
    } else {
      assert (cohort + [id])[1..] == cohort[1..] + [id];
      RejectedMembersAppend(cohort[1..], rejected, id);
    }
  }

  lemma {:induction false} RejectedMembersFirst(cohort: seq<Id>, rejected: set<Id>)
    requires NoDup(cohort)
    ensures var v := FirstIn(cohort, rejected);
            var r := RejectedMembers(cohort, rejected);
            && (v == |cohort| <==> r == [])
            && (v < |cohort| ==> r[0] == cohort[v] && RejectedMembers(DeleteAt(cohort, v), rejected - {cohort[v]}) == r[1..])
  {
    if cohort == [] {
    } else {
      var v := FirstIn(cohort, rejected);
      if v == 0 {
        assert DeleteAt(cohort, 0) == cohort[1..];
        RejectedMembersIgnores(cohort[1..], rejected, cohort[0]);
      } else {
        RejectedMembersFirst(cohort[1..], rejected);
        if v < |cohort| {
          assert DeleteAt(cohort, v) == [cohort[0]] + DeleteAt(cohort[1..], v - 1);
          assert DeleteAt(cohort, v)[1..] == DeleteAt(cohort[1..], v - 1);
        }
      }
    }
  }

  lemma {:induction false} RejectedMembersIgnores(cohort: seq<Id>, rejected: set<Id>, id: Id)
    requires id !in cohort
    ensures RejectedMembers(cohort, rejected - {id}) == RejectedMembers(cohort, rejected)
  {
    if cohort == [] {
    } else {
      RejectedMembersIgnores(cohort[1..], rejected, id);
    }
  }

  /** The counting step: one more endpoint in, at the price of one free or yielded slot. */
  lemma OverflowStep(s: Probe, ids: seq<Id>, capacity: nat, t: Probe)
    requires ids != [] && ids[0] !in s.cohort && Bounded(s, capacity)
    requires ids[0] in t.cohort
    requires forall x :: x in ids && x != ids[0] ==> (x in t.cohort <==> x in s.cohort)
    ensures |ToSet(ids) - ToSet(s.cohort)| == 1 + |ToSet(ids[1..]) - ToSet(t.cohort)|
  {
    assert forall x :: x in ids <==> x == ids[0] || x in ids[1..];
    assert ToSet(ids) - ToSet(s.cohort) == {ids[0]} + (ToSet(ids[1..]) - ToSet(t.cohort));
  }

  /**
   A list of admissions drops none of `keep` exactly when none of `keep` is among the first rejected
   members that have to yield. The condition reads off the state before the first admission.
   */
  lemma {:induction false} DropsNoneIff(s: Probe, ids: seq<Id>, keep: set<Id>, needed: set<Id>, capacity: nat)
    requires Fits(s, needed, capacity) && ToSet(ids) <= keep <= needed
    requires s.rejected <= ToSet(s.cohort)
    requires forall x :: x in keep ==> s.Demanded(x)
    ensures Drops(s, ids, capacity, true) !! keep <==> ToSet(FirstToYield(s, ids, capacity)) !! keep
    decreases |ids|
  {
    if ids == [] {
      return;
    }
    var a, t := ids[0], s.Admit(ids[0], capacity, true);
    assert a in ToSet(ids);
    assert ToSet(ids[1..]) <= ToSet(ids);
    AdmitFindsSlot(s, a, needed, capacity);
    if a in s.cohort {
      assert ToSet(ids) - ToSet(s.cohort) == ToSet(ids[1..]) - ToSet(s.cohort);
      DropsNoneIff(s, ids[1..], keep, needed, capacity);
    } else if |s.cohort| < capacity {
      DropsNoneFree(s, ids, keep, needed, capacity);
    } else {
      DropsNoneFull(s, ids, keep, needed, capacity);
    }
  }

  lemma FreeStep(s: Probe, ids: seq<Id>, keep: set<Id>, needed: set<Id>, capacity: nat)
    requires Fits(s, needed, capacity) && ToSet(ids) <= keep <= needed
    requires s.rejected <= ToSet(s.cohort)
    requires forall x :: x in keep ==> s.Demanded(x)
    requires ids != [] && ids[0] !in s.cohort && |s.cohort| < capacity
    ensures var t := s.Admit(ids[0], capacity, true);
            && Fits(t, needed, capacity) && ToSet(ids[1..]) <= keep && t.rejected <= ToSet(t.cohort)
            && (forall x :: x in keep ==> t.Demanded(x))
            && FirstToYield(t, ids[1..], capacity) == FirstToYield(s, ids, capacity)
  {
    assert ids[0] in ToSet(ids) && ToSet(ids[1..]) <= ToSet(ids);
    AdmitFindsSlot(s, ids[0], needed, capacity);
    FreeDemanded(s, ids[0], keep, capacity);
    FreeYield(s, ids, capacity);
  }

  lemma FreeDemanded(s: Probe, id: Id, keep: set<Id>, capacity: nat)
    requires id !in s.cohort && |s.cohort| < capacity && forall x :: x in keep ==> s.Demanded(x)
    ensures forall x :: x in keep ==> s.Admit(id, capacity, true).Demanded(x)
  {
    var t := s.Admit(id, capacity, true);
    forall x | x in keep
      ensures t.Demanded(x)
    {
      var g :| g in s.demand && s.demand[g].Claims(x);
      assert g in t.demand && t.demand[g].Claims(x);
    }
  }

  lemma FreeYield(s: Probe, ids: seq<Id>, capacity: nat)
    requires Bounded(s, capacity) && s.rejected <= ToSet(s.cohort)
    requires ids != [] && ids[0] !in s.cohort && |s.cohort| < capacity
    ensures FirstToYield(s.Admit(ids[0], capacity, true), ids[1..], capacity) == FirstToYield(s, ids, capacity)
  {
    RejectedMembersAppend(s.cohort, s.rejected, ids[0]);
    OverflowStep(s, ids, capacity, s.Admit(ids[0], capacity, true));
  }

  lemma DropsNoneFree(s: Probe, ids: seq<Id>, keep: set<Id>, needed: set<Id>, capacity: nat)
    requires Fits(s, needed, capacity) && ToSet(ids) <= keep <= needed
    requires s.rejected <= ToSet(s.cohort)
    requires forall x :: x in keep ==> s.Demanded(x)
    requires ids != [] && ids[0] !in s.cohort && |s.cohort| < capacity
    ensures Drops(s, ids, capacity, true) !! keep <==> ToSet(FirstToYield(s, ids, capacity)) !! keep
    decreases |ids|, 0
  {
    FreeStep(s, ids, keep, needed, capacity);
    DropsNoneIff(s.Admit(ids[0], capacity, true), ids[1..], keep, needed, capacity);
  }

  lemma DropsNoneFull(s: Probe, ids: seq<Id>, keep: set<Id>, needed: set<Id>, capacity: nat)
    requires Fits(s, needed, capacity) && ToSet(ids) <= keep <= needed
    requires s.rejected <= ToSet(s.cohort)
    requires forall x :: x in keep ==> s.Demanded(x)
    requires ids != [] && ids[0] !in s.cohort && |s.cohort| >= capacity
    ensures Drops(s, ids, capacity, true) !! keep <==> ToSet(FirstToYield(s, ids, capacity)) !! keep
    decreases |ids|, 0
  {
    var r := RejectedMembers(s.cohort, s.rejected);
    RejectedMembersFirst(s.cohort, s.rejected);
    assert ids[0] in ToSet(ids) - ToSet(s.cohort);
    assert Overflow(s.cohort, ids, capacity) > 0;
    if r != [] && r[0] in keep {
      assert r[0] in FirstToYield(s, ids, capacity);
      assert r[0] in AdmitDrops(s, ids[0], capacity, true);
    } else {
      YieldStep(s, ids, keep, needed, capacity);
      DemandedAfter(s, ids[0], capacity, keep);
      assert ToSet(ids[1..]) <= ToSet(ids);
      DropsNoneIff(s.Admit(ids[0], capacity, true), ids[1..], keep, needed, capacity);
    }
  }

  /** A full cohort yields a member outside `keep`. */
  lemma YieldVictim(s: Probe, ids: seq<Id>, keep: set<Id>, needed: set<Id>, capacity: nat)
    requires Fits(s, needed, capacity) && ToSet(ids) <= keep <= needed
    requires forall x :: x in keep ==> s.Demanded(x)
    requires ids != [] && ids[0] !in s.cohort && |s.cohort| >= capacity
    requires var r := RejectedMembers(s.cohort, s.rejected); r == [] || r[0] !in keep
    ensures s.Victim(true) < |s.cohort|
    ensures s.cohort[s.Victim(true)] !in keep
    ensures var t := s.Admit(ids[0], capacity, true);
            Fits(t, needed, capacity) && t.cohort == DeleteAt(s.cohort, s.Victim(true)) + [ids[0]]
  {
    assert ids[0] in ToSet(ids);
    AdmitFindsSlot(s, ids[0], needed, capacity);
    var v := s.Victim(true);
    VictimUnprotected(s, true);
    RejectedMembersFirst(s.cohort, s.rejected);
    var e := s.cohort[v];
    if e !in s.rejected {
      assert !s.Demanded(e);
    }
  }

  /** One slot less is owed afterwards, and the remaining rejected members keep their order. */
  lemma YieldStep(s: Probe, ids: seq<Id>, keep: set<Id>, needed: set<Id>, capacity: nat)
    requires Fits(s, needed, capacity) && ToSet(ids) <= keep <= needed
    requires s.rejected <= ToSet(s.cohort)
    requires forall x :: x in keep ==> s.Demanded(x)
    requires ids != [] && ids[0] !in s.cohort && |s.cohort| >= capacity
    requires var r := RejectedMembers(s.cohort, s.rejected); r == [] || r[0] !in keep
    ensures var t := s.Admit(ids[0], capacity, true);
            && Fits(t, needed, capacity)
            && t.rejected <= ToSet(t.cohort)
            && AdmitDrops(s, ids[0], capacity, true) !! keep
            && (ToSet(FirstToYield(s, ids, capacity)) !! keep <==> ToSet(FirstToYield(t, ids[1..], capacity)) !! keep)
  {
    YieldVictim(s, ids, keep, needed, capacity);
    DeleteAtMembers(s.cohort, s.Victim(true));
    YieldCounts(s, ids, keep, needed, capacity);
  }

  /** What is owed after the step is what was owed before it, less the member that yielded. */
  lemma YieldCounts(s: Probe, ids: seq<Id>, keep: set<Id>, needed: set<Id>, capacity: nat)
    requires Fits(s, needed, capacity) && ToSet(ids) <= keep <= needed && s.rejected <= ToSet(s.cohort)
    requires ids != [] && ids[0] !in s.cohort && |s.cohort| >= capacity
    requires var r := RejectedMembers(s.cohort, s.rejected); r == [] || r[0] !in keep
    requires s.Victim(true) < |s.cohort| && s.cohort[s.Victim(true)] !in keep
    ensures var t := s.Admit(ids[0], capacity, true);
            ToSet(FirstToYield(s, ids, capacity)) !! keep <==> ToSet(FirstToYield(t, ids[1..], capacity)) !! keep
  {
    var a, t := ids[0], s.Admit(ids[0], capacity, true);
    var v := s.Victim(true);
    DeleteAtMembers(s.cohort, v);
    OverflowStep(s, ids, capacity, t);
    YieldRest(s, v, a);
    YieldOrder(RejectedMembers(s.cohort, s.rejected), RejectedMembers(t.cohort, t.rejected),
               Overflow(s.cohort, ids, capacity), keep);
  }

  lemma YieldRest(s: Probe, v: nat, a: Id)
    requires NoDup(s.cohort) && v == s.Victim(true) < |s.cohort| && a !in s.rejected
    ensures var rest := RejectedMembers(DeleteAt(s.cohort, v) + [a], s.rejected - {s.cohort[v]});
            var r := RejectedMembers(s.cohort, s.rejected);
            if r == [] then rest == [] else rest == r[1..]
  {
    RejectedMembersFirst(s.cohort, s.rejected);
    DeleteAtMembers(s.cohort, v);
    RejectedMembersAppend(DeleteAt(s.cohort, v), s.rejected - {s.cohort[v]}, a);
    if FirstIn(s.cohort, s.rejected) == |s.cohort| {
      RejectedMembersNone(DeleteAt(s.cohort, v), s.rejected - {s.cohort[v]});
    }
  }

  lemma {:induction false} RejectedMembersNone(cohort: seq<Id>, rejected: set<Id>)
    requires forall x :: x in cohort ==> x !in rejected
    ensures RejectedMembers(cohort, rejected) == []
  {
    if cohort == [] {
    } else {
      assert cohort[0] in cohort;
      RejectedMembersNone(cohort[1..], rejected);
    }
  }

  /** The first k of a list avoid `keep` iff the first k - 1 of its tail do, when its head does. */
  lemma YieldOrder(r: seq<Id>, rest: seq<Id>, k: nat, keep: set<Id>)
    requires k > 0
    requires if r == [] then rest == [] else r[0] !in keep && rest == r[1..]
    ensures var first := if k < |r| then r[..k] else r;
            var next := if k - 1 < |rest| then rest[..k - 1] else rest;
            ToSet(first) !! keep <==> ToSet(next) !! keep
  {
    if r != [] {
      var first := if k < |r| then r[..k] else r;
      var next := if k - 1 < |rest| then rest[..k - 1] else rest;
      assert first == [r[0]] + next;
      assert ToSet(first) == {r[0]} + ToSet(next);
    }
  }

  lemma DemandedAfter(s: Probe, id: Id, capacity: nat, keep: set<Id>)
    requires forall x :: x in keep ==> s.Demanded(x)
    requires AdmitDrops(s, id, capacity, true) !! keep
    ensures forall x :: x in keep ==> s.Admit(id, capacity, true).Demanded(x)
  {
    var t := s.Admit(id, capacity, true);
    AdmitTrims(s, id, capacity, true);
    forall x | x in keep
      ensures t.Demanded(x)
    {
      var g :| g in s.demand && s.demand[g].Claims(x);
      assert t.demand[g].Claims(x);
    }
  }

  /**
   A published reservation is kept in full, as demand and in the cohort, exactly when none of its endpoints
   is among the first rejected members that must yield to it. An inventory with one revision per endpoint ID
   always meets the condition, because a selected endpoint is then never rejected.
   */
  lemma CommitKeepsSelectionIff(s: Probe, r: Reservation, capacity: nat)
    requires Open(s, r, capacity)
    ensures s.Commit(r, capacity).demand.Keys == s.demand.Keys
    ensures var u, selected := s.Commit(r, capacity), s.demand[r.gateway].selected;
            (u.demand[r.gateway].selected == selected && ToSet(selected) <= ToSet(u.cohort))
            <==> ToSet(FirstToYield(s, selected, capacity)) !! ToSet(selected)
  {
    var c, ids := s.CommitDemand(r), s.demand[r.gateway].selected;
    CommitFits(s, r, capacity);
    CommitHonours(s, r, capacity);
    CommitDemands(s, r, capacity);
    assert forall x :: x in ids ==> c.demand[r.gateway].Claims(x);
    DropsNoneIff(c, ids, ToSet(ids), OpenNeeded(s, r), capacity);
    if CommitDrops(s, r, capacity) !! ToSet(ids) {
      RemoveNothing(ids, CommitDrops(s, r, capacity));
    }
  }

  /** The same boundary for a held reservation. */
  lemma HoldKeepsAttemptIff(s: Probe, r: Reservation, intended: Receipt, now: nat, capacity: nat)
    requires Open(s, r, capacity)
    ensures s.Hold(r, intended, now, capacity).demand.Keys == s.demand.Keys
    ensures var u, selected := s.Hold(r, intended, now, capacity), s.demand[r.gateway].selected;
            (u.demand[r.gateway].uncertain == Some(selected) && ToSet(selected) <= ToSet(u.cohort))
            <==> ToSet(FirstToYield(s, selected, capacity)) !! ToSet(selected)
  {
    var h, ids := s.HoldDemand(r, intended, now), s.demand[r.gateway].selected;
    HoldFits(s, r, intended, now, capacity);
    HoldHonours(s, r, intended, now, capacity);
    HoldDemands(s, r, intended, now, capacity);
    assert forall x :: x in ids ==> h.demand[r.gateway].Claims(x);
    DropsNoneIff(h, ids, ToSet(ids), OpenNeeded(s, r), capacity);
    if HoldDrops(s, r, intended, now, capacity) !! ToSet(ids) {
      RemoveNothing(ids, HoldDrops(s, r, intended, now, capacity));
    }
  }

  /** When no selected endpoint is also rejected, the condition above holds. */
  lemma OneRevisionPerId(s: Probe, r: Reservation, capacity: nat)
    requires Open(s, r, capacity)
    requires s.rejected !! ToSet(s.demand[r.gateway].selected)
    ensures ToSet(FirstToYield(s, s.demand[r.gateway].selected, capacity)) !! ToSet(s.demand[r.gateway].selected)
  {
    RejectedMembersRejected(s.cohort, s.rejected);
  }

  lemma {:induction false} RejectedMembersRejected(cohort: seq<Id>, rejected: set<Id>)
    ensures ToSet(RejectedMembers(cohort, rejected)) <= rejected
  {
    if cohort == [] {
    } else {
      RejectedMembersRejected(cohort[1..], rejected);
    }
  }

  /**
   Two revisions of one endpoint ID defeat a granted reservation: in a full cohort that starts with `a`, a
   decision that selects `a` and `b` while another revision of `a` is failing is granted, and publishing
   it evicts `a` and forgets it in the very demand it was published for.
   */
  lemma SelectedRevisionForgotten(s: Probe, gateway: Uid, a: Id, b: Id, capacity: nat, now: nat)
    requires capacity >= 2 && NoDup(s.cohort) && |s.cohort| == capacity
    requires s.cohort[0] == a && b !in s.cohort && s.demand == map[]
    ensures var (t, r) := s.Reserve(gateway, Decision([a, b], {a}), now, capacity);
            && r.Ok?
            && var u := t.Commit(r.value, capacity);
               a !in u.cohort && gateway in u.demand && a !in u.demand[gateway].selected && b in u.cohort
  {
    var decision := Decision([a, b], {a});
    var (t, r) := s.Reserve(gateway, decision, now, capacity);
    var needed := s.ObserveVerdicts(decision).Needed(gateway, decision.selected);
    assert needed == {a, b};
    GrantFits(s, gateway, decision, now, capacity);
    var c := t.CommitDemand(r.value);
    assert c.Admit(a, capacity, true) == c;
    var d := c.Admit(b, capacity, true);
    assert a in t.rejected;
    assert c.Victim(true) == 0;
    AdmitPair(c, a, b, capacity);
    DeleteAtMembers(s.cohort, 0);
  }

  lemma AdmitPair(c: Probe, a: Id, b: Id, capacity: nat)
    ensures c.AdmitAll([a, b], capacity, true) == c.Admit(a, capacity, true).Admit(b, capacity, true)
  {
    var d := c.Admit(a, capacity, true);
    assert [a, b][1..] == [b] && [b][1..] == [];
    assert d.AdmitAll([b], capacity, true) == d.Admit(b, capacity, true).AdmitAll([], capacity, true);
  }
}
