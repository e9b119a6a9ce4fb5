/** Finite sets and duplicate-free sequences: the counting facts the allocator proofs rest on. */
module Finite {
  function ToSet<T>(s: seq<T>): set<T> {
    set x | x in s
  }

  ghost predicate NoDup<T>(s: seq<T>) {
    forall i, j :: 0 <= i < j < |s| ==> s[i] != s[j]
  }

  /** A sequence never has more distinct elements than positions. */
  lemma {:induction false} ToSetSize<T>(s: seq<T>)
    ensures |ToSet(s)| <= |s|
    ensures NoDup(s) ==> |ToSet(s)| == |s|
  {
    if s == [] {
    } else {
      var rest := s[..|s| - 1];
      var last := s[|s| - 1];
      ToSetSize(rest);
      assert s == rest + [last];
      assert ToSet(s) == ToSet(rest) + {last};
      if NoDup(s) {
        assert NoDup(rest);
        assert last !in rest;
      }
    }
  }

  lemma {:induction false} SubsetSize<T>(a: set<T>, b: set<T>)
    requires a <= b
    ensures |a| <= |b|
  {
    if a == {} {
    } else {
      var x :| x in a;
      SubsetSize(a - {x}, b - {x});
    }
  }

  /** A subset that is just as large is the whole set. */
  lemma SubsetFull<T>(a: set<T>, b: set<T>)
    requires a <= b && |a| >= |b|
    ensures a == b
  {
    if a != b {
      var x :| x in b && x !in a;
      SubsetSize(a, b - {x});
    }
  }

  /** The pigeonhole step: a full duplicate-free list that lies in a set of at most its size and
      misses one element of that set cannot exist, so some list element lies outside. */
  lemma Pigeonhole<T>(s: seq<T>, bound: set<T>, missing: T, capacity: nat)
    requires NoDup(s) && |s| >= capacity >= |bound|
    requires missing in bound && missing !in s
    ensures exists x :: x in s && x !in bound
  {
    if forall x :: x in s ==> x in bound {
      ToSetSize(s);
      assert ToSet(s) <= bound - {missing};
      SubsetSize(ToSet(s), bound - {missing});
      assert false;
    }
  }

  lemma ConcatAssociates<T>(a: seq<T>, b: seq<T>, c: seq<T>)
    ensures a + (b + c) == a + b + c
  {
  }
}
