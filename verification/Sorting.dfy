/** Byte-wise lexicographic order and sorting by explicit keys. */
module Sorting {
  /** strings.Compare(a, b) < 0 and bytes.Compare(a, b) < 0. */
  predicate Lex(a: string, b: string) {
    b != [] && (a == [] || a[0] < b[0] || (a[0] == b[0] && Lex(a[1..], b[1..])))
  }

  lemma {:induction false} LexTotal(a: string, b: string)
    ensures Lex(a, b) || a == b || Lex(b, a)
  {
    if a == [] || b == [] {
    } else if a[0] == b[0] {
      LexTotal(a[1..], b[1..]);
      if a[1..] == b[1..] {
        assert a == [a[0]] + a[1..];
        assert b == [b[0]] + b[1..];
      }
    }
  }

  lemma {:induction false} LexTransitive(a: string, b: string, c: string)
    requires Lex(a, b) && Lex(b, c)
    ensures Lex(a, c)
  {
    if a == [] {
    } else if a[0] == b[0] == c[0] {
      LexTransitive(a[1..], b[1..], c[1..]);
    }
  }

  lemma {:induction false} LexIrreflexive(a: string)
    ensures !Lex(a, a)
  {
    if a == [] {
    } else {
      LexIrreflexive(a[1..]);
    }
  }

  datatype Key = Key(n: int, a: string, b: string)

  predicate Below(x: Key, y: Key) {
    x.n < y.n || (x.n == y.n && (Lex(x.a, y.a) || (x.a == y.a && Lex(x.b, y.b))))
  }

  /** Below is a strict total order. */
  lemma BelowTotal(x: Key, y: Key)
    ensures Below(x, y) || x == y || Below(y, x)
    ensures !(Below(x, y) && Below(y, x)) && !Below(x, x)
  {
    LexTotal(x.a, y.a);
    LexTotal(x.b, y.b);
    LexIrreflexive(x.a);
    LexIrreflexive(x.b);
    if Lex(x.a, y.a) && Lex(y.a, x.a) {
      LexTransitive(x.a, y.a, x.a);
    }
    if Lex(x.b, y.b) && Lex(y.b, x.b) {
      LexTransitive(x.b, y.b, x.b);
    }
  }

  lemma BelowTransitive(x: Key, y: Key, z: Key)
    requires Below(x, y) && Below(y, z)
    ensures Below(x, z)
  {
    if Lex(x.a, y.a) && Lex(y.a, z.a) {
      LexTransitive(x.a, y.a, z.a);
    }
    if Lex(x.b, y.b) && Lex(y.b, z.b) {
      LexTransitive(x.b, y.b, z.b);
    }
  }

  datatype Keyed<T> = Keyed(key: Key, value: T)

  function Values<T>(s: seq<Keyed<T>>): (r: seq<T>)
    ensures |r| == |s|
    ensures forall i :: 0 <= i < |s| ==> r[i] == s[i].value
  {
    seq(|s|, i requires 0 <= i < |s| => s[i].value)
  }

  ghost predicate Sorted<T>(s: seq<Keyed<T>>) {
    forall i, j :: 0 <= i < j < |s| ==> !Below(s[j].key, s[i].key)
  }

  /** Strictly ascending keys. */
  ghost predicate Ascending<T>(s: seq<Keyed<T>>) {
    forall i, j :: 0 <= i < j < |s| ==> Below(s[i].key, s[j].key)
  }

  function Insert<T>(x: Keyed<T>, s: seq<Keyed<T>>): seq<Keyed<T>> {
    if s == [] || !Below(s[0].key, x.key) then [x] + s else [s[0]] + Insert(x, s[1..])
  }

  /** A stable sort by key. */
  function Sort<T>(s: seq<Keyed<T>>): seq<Keyed<T>> {
    if s == [] then [] else Insert(s[0], Sort(s[1..]))
  }

  lemma {:induction false} InsertPermutes<T>(x: Keyed<T>, s: seq<Keyed<T>>)
    ensures multiset(Insert(x, s)) == multiset(s) + multiset{x}
  {
    if s == [] {
    } else if Below(s[0].key, x.key) {
      InsertPermutes(x, s[1..]);
      assert s == [s[0]] + s[1..];
    }
  }

  lemma {:induction false} SortPermutes<T>(s: seq<Keyed<T>>)
    ensures multiset(Sort(s)) == multiset(s) && |Sort(s)| == |s|
  {
    if s == [] {
    } else {
      SortPermutes(s[1..]);
      InsertPermutes(s[0], Sort(s[1..]));
      assert s == [s[0]] + s[1..];
    }
    assert |multiset(Sort(s))| == |Sort(s)|;
  }

  lemma SameMembers<T>(a: seq<T>, b: seq<T>)
    requires multiset(a) == multiset(b)
    ensures forall x :: x in a <==> x in b
  {
    forall x
      ensures x in a <==> x in b
    {
      assert x in a <==> x in multiset(a);
      assert x in b <==> x in multiset(b);
    }
  }

  lemma {:induction false} InsertSorted<T>(x: Keyed<T>, s: seq<Keyed<T>>)
    requires Sorted(s)
    ensures Sorted(Insert(x, s))
  {
    if s == [] {
    } else if !Below(s[0].key, x.key) {
      forall j | 0 <= j < |s|
        ensures !Below(s[j].key, x.key)
      {
        if Below(s[j].key, x.key) {
          BelowTotal(s[0].key, s[j].key);
          if Below(s[0].key, s[j].key) {
            BelowTransitive(s[0].key, s[j].key, x.key);
          }
        }
      }
    } else {
      InsertSorted(x, s[1..]);
      InsertPermutes(x, s[1..]);
      var r := Insert(x, s[1..]);
      forall j | 0 <= j < |r|
        ensures !Below(r[j].key, s[0].key)
      {
        assert r[j] in multiset(r);
        if r[j] == x {
          BelowTotal(s[0].key, x.key);
        } else {
          assert r[j] in s[1..];
        }
      }
      assert Insert(x, s) == [s[0]] + r;
    }
  }

  lemma {:induction false} SortSorted<T>(s: seq<Keyed<T>>)
    ensures Sorted(Sort(s))
  {
    if s == [] {
    } else {
      SortSorted(s[1..]);
      InsertSorted(s[0], Sort(s[1..]));
    }
  }

  /** No two positions carry the same key. */
  ghost predicate DistinctKeys<T>(s: seq<Keyed<T>>) {
    forall i, j :: 0 <= i < j < |s| ==> s[i].key != s[j].key
  }

  lemma SortedDistinct<T>(s: seq<Keyed<T>>)
    requires Sorted(s) && DistinctKeys(s)
    ensures Ascending(s)
  {
    forall i, j | 0 <= i < j < |s|
      ensures Below(s[i].key, s[j].key)
    {
      BelowTotal(s[i].key, s[j].key);
    }
  }

  /** Two ascending lists with the same elements are the same list. */
  lemma {:induction false} AscendingUnique<T>(a: seq<Keyed<T>>, b: seq<Keyed<T>>)
    requires Ascending(a) && Ascending(b)
    requires forall x :: x in a <==> x in b
    ensures a == b
  {
    assert |a| > 0 ==> a[0] in a;
    assert |b| > 0 ==> b[0] in b;
    if a == [] || b == [] {
    } else {
      HeadsAgree(a, b);
      forall x
        ensures x in a[1..] <==> x in b[1..]
      {
        TailMember(a, x);
        TailMember(b, x);
      }
      AscendingUnique(a[1..], b[1..]);
      assert a == [a[0]] + a[1..];
      assert b == [b[0]] + b[1..];
    }
  }

  lemma HeadsAgree<T>(a: seq<Keyed<T>>, b: seq<Keyed<T>>)
    requires Ascending(a) && Ascending(b) && a != [] && b != []
    requires forall x :: x in a <==> x in b
    ensures a[0] == b[0]
  {
    assert a[0] in b && b[0] in a;
    var i :| 0 <= i < |b| && b[i] == a[0];
    var j :| 0 <= j < |a| && a[j] == b[0];
    BelowTotal(a[0].key, b[0].key);
  }

  /** In an ascending list, the tail holds every element but the head. */
  lemma TailMember<T>(a: seq<Keyed<T>>, x: Keyed<T>)
    requires Ascending(a) && a != []
    ensures x in a[1..] <==> x in a && x != a[0]
  {
    BelowTotal(a[0].key, a[0].key);
    if x in a[1..] {
      var i :| 0 <= i < |a[1..]| && a[1..][i] == x;
      assert a[i + 1] == x;
      assert Below(a[0].key, x.key);
    }
  }

  lemma DistinctPermutes<T>(a: seq<Keyed<T>>, b: seq<Keyed<T>>)
    requires multiset(a) == multiset(b) && DistinctKeys(a)
    ensures DistinctKeys(b)
  {
    forall i, j | 0 <= i < j < |b|
      ensures b[i].key != b[j].key
    {
      SameMembers(a, b);
      assert b[i] in a && b[j] in a;
      var k :| 0 <= k < |a| && a[k] == b[i];
      var l :| 0 <= l < |a| && a[l] == b[j];
      if k == l {
        TwiceInMultiset(b, i, j);
        OnceInMultiset(a, k);
      }
    }
  }

  lemma TwiceInMultiset<T>(b: seq<T>, i: nat, j: nat)
    requires i < j < |b| && b[i] == b[j]
    ensures multiset(b)[b[i]] >= 2
  {
    assert b == b[..i] + [b[i]] + b[i + 1..j] + [b[j]] + b[j + 1..];
  }

  lemma OnceInMultiset<T>(a: seq<Keyed<T>>, k: nat)
    requires k < |a| && DistinctKeys(a)
    ensures multiset(a)[a[k]] == 1
  {
    assert a == a[..k] + [a[k]] + a[k + 1..];
    assert a[k] !in a[..k];
    assert a[k] !in a[k + 1..];
  }

  lemma SortKeepsMembers<T>(s: seq<Keyed<T>>)
    ensures forall i :: 0 <= i < |Sort(s)| ==> Sort(s)[i] in s
    ensures forall i :: 0 <= i < |s| ==> s[i] in Sort(s)
  {
    var u := Sort(s);
    SortPermutes(s);
    forall i | 0 <= i < |u|
      ensures u[i] in s
    {
      assert u[i] in multiset(u);
    }
    forall i | 0 <= i < |s|
      ensures s[i] in u
    {
      assert s[i] in multiset(s);
    }
  }

  /** With distinct keys, the sorted list depends only on the elements, not on their order. */
  lemma SortCanonical<T>(a: seq<Keyed<T>>, b: seq<Keyed<T>>)
    requires multiset(a) == multiset(b) && DistinctKeys(a)
    ensures Sort(a) == Sort(b) && Ascending(Sort(a))
  {
    SortPermutes(a);
    SortPermutes(b);
    SortSorted(a);
    SortSorted(b);
    DistinctPermutes(a, Sort(a));
    DistinctPermutes(a, Sort(b));
    SortedDistinct(Sort(a));
    SortedDistinct(Sort(b));
    SameMembers(Sort(a), Sort(b));
    AscendingUnique(Sort(a), Sort(b));
  }

  /** Sorting brings equal keys next to each other. */
  lemma AdjacentDuplicates<T>(s: seq<Keyed<T>>)
    requires Sorted(s)
    ensures DistinctKeys(s) <==> forall i :: 0 < i < |s| ==> s[i - 1].key != s[i].key
  {
    if forall i :: 0 < i < |s| ==> s[i - 1].key != s[i].key {
      forall i, j | 0 <= i < j < |s|
        ensures s[i].key != s[j].key
      {
        BelowTotal(s[i].key, s[i + 1].key);
        BelowTotal(s[i].key, s[j].key);
        assert s[i + 1 - 1].key != s[i + 1].key;
        assert Below(s[i].key, s[i + 1].key);
        assert j == i + 1 || !Below(s[j].key, s[i + 1].key);
      }
    }
  }
}
