/** Normalisation and deduplication as the loops that perform them. Iteration over a map has no fixed order. */
module InventoryMethods {
  import opened Wrappers
  import opened Sorting
  import opened Selection
  import opened Configurations
  import opened Inventories
  import Identities
  import Encoding

  // ----- aliases

  lemma SortedStrings(s: seq<string>)
    requires forall i, j :: 0 <= i < j < |s| ==> s[i] != s[j]
    ensures var r := Values(Sort(KeyedStrings(s))); Ascending(KeyedStrings(r)) && forall x :: x in r <==> x in s
  {
    var u := Sort(KeyedStrings(s));
    SortPermutes(KeyedStrings(s));
    SortCanonical(KeyedStrings(s), KeyedStrings(s));
    SameMembers(u, KeyedStrings(s));
    forall i | 0 <= i < |u|
      ensures u[i] == Keyed(Key(0, u[i].value, ""), u[i].value)
    {
      assert u[i] in KeyedStrings(s);
    }
    assert KeyedStrings(Values(u)) == u;
    forall x
      ensures x in Values(u) <==> x in s
    {
      if x in Values(u) {
        var i :| 0 <= i < |u| && u[i].value == x;
        assert u[i] in KeyedStrings(s);
      }
      if x in s {
        var i :| 0 <= i < |s| && s[i] == x;
        assert KeyedStrings(s)[i] in u;
        var j :| 0 <= j < |u| && u[j] == KeyedStrings(s)[i];
        assert Values(u)[j] == x;
      }
    }
  }

  function Raw(aliases: seq<string>): (r: seq<RawAlias>)
    ensures |r| == |aliases|
    ensures forall i :: 0 <= i < |aliases| ==> r[i] == Utf8(aliases[i])
  {
    seq(|aliases|, i requires 0 <= i < |aliases| => Utf8(aliases[i]))
  }

  lemma RawMembers(aliases: seq<string>)
    ensures forall a :: Utf8(a) in Raw(aliases) <==> a in aliases
    ensures (forall a :: a in aliases ==> GoodAlias(a)) ==> forall b :: b in Raw(aliases) ==> b.Good()
  {
    forall a
      ensures Utf8(a) in Raw(aliases) <==> a in aliases
    {
      if a in aliases {
        var i :| 0 <= i < |aliases| && aliases[i] == a;
        assert Raw(aliases)[i] == Utf8(a);
      }
    }
  }

  /** The members of a set, each once, in no particular order. */
  method Listed(unique: set<string>) returns (values: seq<string>)
    ensures forall a :: a in values <==> a in unique
    ensures forall i, j :: 0 <= i < j < |values| ==> values[i] != values[j]
  {
    values := [];
    var left := unique;
    while left != {}
      invariant left <= unique
      invariant forall a :: a in values <==> a in unique && a !in left
      invariant forall i, j :: 0 <= i < j < |values| ==> values[i] != values[j]
      decreases |left|
    {
      var a :| a in left;
      values := values + [a];
      left := left - {a};
    }
  }

  /** The aliases as a strictly sorted list, or nothing when one of them is not acceptable. */
  method NormalizeAliases(aliases: seq<RawAlias>) returns (r: Option<seq<string>>)
    ensures r.Some? <==> forall a :: a in aliases ==> a.Good()
    ensures r.Some? ==> NormalAliases(r.value) && forall a :: a in r.value <==> Utf8(a) in aliases
  {
    var unique: set<string> := {};
    var i := 0;
    while i < |aliases|
      invariant 0 <= i <= |aliases|
      invariant forall a :: a in unique <==> Utf8(a) in aliases[..i]
      invariant forall j :: 0 <= j < i ==> aliases[j].Good()
    {
      if !aliases[i].Good() {
        assert aliases[i] in aliases;
        return None;
      }
      assert aliases[..i + 1] == aliases[..i] + [aliases[i]];
      unique := unique + {aliases[i].text};
      i := i + 1;
    }
    assert aliases[..i] == aliases;
    forall a | a in unique
      ensures GoodAlias(a)
    {
      var j :| 0 <= j < |aliases| && aliases[j] == Utf8(a);
    }
    var normalized := Listed(unique);
    SortedStrings(normalized);
    return Some(Values(Sort(KeyedStrings(normalized))));
  }

  // ----- provenance

  /** The joined key names one source record, because safe identifiers contain no NUL. */
  lemma MapKeyInjective(p: Provenance, q: Provenance)
    requires SafeId(p.source) && SafeId(q.source)
    ensures p.MapKey() == q.MapKey() <==> p.Order() == q.Order()
  {
    if p.MapKey() == q.MapKey() {
      var k := p.MapKey();
      assert k[|p.source|] == '\0' && k[|q.source|] == '\0';
      assert forall i :: 0 <= i < |p.source| ==> k[i] == p.source[i] && k[i] != '\0';
      assert forall i :: 0 <= i < |q.source| ==> k[i] == q.source[i] && k[i] != '\0';
      assert p.source == k[..|p.source|] && q.source == k[..|q.source|];
      assert p.record == k[|p.source| + 1..] && q.record == k[|q.source| + 1..];
    }
  }

  ghost function MapSources(m: map<string, Provenance>): set<(string, string)> {
    set k | k in m :: (m[k].source, m[k].record)
  }

  ghost function MapAliases(m: map<string, Provenance>): set<(string, string, string)> {
    set k, a | k in m && a in m[k].aliases :: (m[k].source, m[k].record, a)
  }

  ghost predicate Indexed(m: map<string, Provenance>) {
    forall k :: k in m ==> m[k].MapKey() == k && m[k].Normal()
  }

  lemma AddNew(m: map<string, Provenance>, p: Provenance)
    requires Indexed(m) && p.Normal() && p.MapKey() !in m
    ensures var n := m[p.MapKey() := p];
            Indexed(n) && MapSources(n) == MapSources(m) + Sources([p]) && MapAliases(n) == MapAliases(m) + Aliases([p])
  {
    var n := m[p.MapKey() := p];
    assert p in [p];
    assert forall k :: k in n <==> k in m || k == p.MapKey();
    forall f
      ensures f in MapSources(n) <==> f in MapSources(m) + Sources([p])
    {
      if f in MapSources(m) {
        var k :| k in m && (m[k].source, m[k].record) == f;
        assert n[k] == m[k];
      }
      if f in Sources([p]) {
        assert n[p.MapKey()] == p;
      }
    }
    forall f
      ensures f in MapAliases(n) <==> f in MapAliases(m) + Aliases([p])
    {
      if f in MapAliases(m) {
        var k, a :| k in m && a in m[k].aliases && (m[k].source, m[k].record, a) == f;
        assert n[k] == m[k];
      }
      if f in Aliases([p]) {
        assert n[p.MapKey()] == p;
      }
    }
  }

  lemma AddMore(m: map<string, Provenance>, p: Provenance, aliases: seq<string>)
    requires Indexed(m) && p.Normal() && p.MapKey() in m && NormalAliases(aliases)
    requires forall a :: a in aliases <==> a in m[p.MapKey()].aliases || a in p.aliases
    ensures var n := m[p.MapKey() := m[p.MapKey()].(aliases := aliases)];
            Indexed(n) && MapSources(n) == MapSources(m) + Sources([p]) && MapAliases(n) == MapAliases(m) + Aliases([p])
  {
    var k := p.MapKey();
    var e := m[k];
    var n := m[k := e.(aliases := aliases)];
    MapKeyInjective(e, p);
    assert p in [p];
    assert forall k :: k in n <==> k in m;
    assert MapSources(n) == MapSources(m) + Sources([p]) by {
      assert (m[k].source, m[k].record) == (p.source, p.record);
      forall f
        ensures f in MapSources(n) <==> f in MapSources(m) + Sources([p])
      {
        if f in MapSources(m) {
          var l :| l in m && (m[l].source, m[l].record) == f;
          assert (n[l].source, n[l].record) == f;
        }
      }
    }
    forall f
      ensures f in MapAliases(n) <==> f in MapAliases(m) + Aliases([p])
    {
      if f in MapAliases(m) {
        var l, a :| l in m && a in m[l].aliases && (m[l].source, m[l].record, a) == f;
        assert a in n[l].aliases;
      }
      if f in Aliases([p]) {
        assert f.2 in n[k].aliases;
      }
      if f in MapAliases(n) {
        var l, a :| l in n && a in n[l].aliases && (n[l].source, n[l].record, a) == f;
        if a in p.aliases && l == k {
          assert f in Aliases([p]);
        } else {
          assert a in m[l].aliases;
        }
      }
    }
  }

  lemma SourcesAppend(s: seq<Provenance>, t: seq<Provenance>)
    ensures Sources(s + t) == Sources(s) + Sources(t) && Aliases(s + t) == Aliases(s) + Aliases(t)
  {
    assert forall p :: p in s + t <==> p in s || p in t;
    assert Sources(s + t) == Sources(s) + Sources(t);
    assert Aliases(s + t) == Aliases(s) + Aliases(t);
  }

  method IndexProvenance(values: seq<Provenance>) returns (byKey: map<string, Provenance>)
    requires forall p :: p in values ==> p.Normal()
    ensures Indexed(byKey) && MapSources(byKey) == Sources(values) && MapAliases(byKey) == Aliases(values)
  {
    byKey := map[];
    var i := 0;
    while i < |values|
      invariant 0 <= i <= |values|
      invariant Indexed(byKey) && MapSources(byKey) == Sources(values[..i]) && MapAliases(byKey) == Aliases(values[..i])
    {
      var p := values[i];
      assert values[..i + 1] == values[..i] + [p];
      SourcesAppend(values[..i], [p]);
      if p.MapKey() in byKey {
        var existing := byKey[p.MapKey()];
        assert existing.Normal() && p.Normal();
        RawMembers(existing.aliases + p.aliases);
        var aliases := NormalizeAliases(Raw(existing.aliases + p.aliases));
        AddMore(byKey, p, aliases.value);
        byKey := byKey[p.MapKey() := existing.(aliases := aliases.value)];
      } else {
        AddNew(byKey, p);
        byKey := byKey[p.MapKey() := p];
      }
      i := i + 1;
    }
    assert values[..i] == values;
  }

  lemma SortedProvenance(s: seq<Provenance>)
    requires forall i, j :: 0 <= i < j < |s| ==> s[i].Order() != s[j].Order()
    ensures var r := Values(Sort(KeyedProvenance(s))); Ascending(KeyedProvenance(r)) && forall x :: x in r <==> x in s
  {
    var k := KeyedProvenance(s);
    var u := Sort(k);
    SortCanonical(k, k);
    SortKeepsMembers(k);
    forall i | 0 <= i < |u|
      ensures u[i] == Keyed(u[i].value.Order(), u[i].value)
    {
      assert u[i] in k;
    }
    assert KeyedProvenance(Values(u)) == u;
    SortedMembers(s);
  }

  lemma SortedMembers(s: seq<Provenance>)
    ensures forall x :: x in Values(Sort(KeyedProvenance(s))) <==> x in s
  {
    var k := KeyedProvenance(s);
    var u := Sort(k);
    SortKeepsMembers(k);
    forall x
      ensures x in Values(u) <==> x in s
    {
      if x in Values(u) {
        var i :| 0 <= i < |u| && u[i].value == x;
        assert u[i] in k;
      }
      if x in s {
        var i :| 0 <= i < |s| && s[i] == x;
        assert k[i] in u;
        var j :| 0 <= j < |u| && u[j] == k[i];
        assert Values(u)[j] == x;
      }
    }
  }

  method ListValues(byKey: map<string, Provenance>) returns (merged: seq<Provenance>)
    requires Indexed(byKey)
    ensures forall p :: p in merged <==> p.MapKey() in byKey && byKey[p.MapKey()] == p
    ensures forall i, j :: 0 <= i < j < |merged| ==> merged[i].Order() != merged[j].Order()
  {
    merged := [];
    var left := byKey.Keys;
    while left != {}
      invariant left <= byKey.Keys
      invariant forall p :: p in merged <==> p.MapKey() in byKey && p.MapKey() !in left && byKey[p.MapKey()] == p
      invariant forall i, j :: 0 <= i < j < |merged| ==> merged[i].Order() != merged[j].Order()
      decreases |left|
    {
      var k :| k in left;
      forall i | 0 <= i < |merged|
        ensures merged[i].Order() != byKey[k].Order()
      {
        assert merged[i] in merged;
        MapKeyInjective(merged[i], byKey[k]);
      }
      merged := merged + [byKey[k]];
      left := left - {k};
    }
  }

  lemma ListedFacts(byKey: map<string, Provenance>, merged: seq<Provenance>)
    requires Indexed(byKey)
    requires forall p :: p in merged <==> p.MapKey() in byKey && byKey[p.MapKey()] == p
    ensures Sources(merged) == MapSources(byKey) && Aliases(merged) == MapAliases(byKey)
    ensures forall p :: p in merged ==> p.Normal()
  {
    forall k | k in byKey
      ensures byKey[k] in merged
    {
      assert byKey[k].MapKey() == k;
    }
    assert Sources(merged) == MapSources(byKey);
    assert Aliases(merged) == MapAliases(byKey);
  }

  /** The union of the relationships and, per relationship, of the aliases, strictly sorted. */
  method MergeProvenance(values: seq<Provenance>) returns (merged: seq<Provenance>)
    requires forall p :: p in values ==> p.Normal()
    ensures NormalProvenance(merged) && Sources(merged) == Sources(values) && Aliases(merged) == Aliases(values)
  {
    var byKey := IndexProvenance(values);
    var listed := ListValues(byKey);
    ListedFacts(byKey, listed);
    SortedProvenance(listed);
    merged := Values(Sort(KeyedProvenance(listed)));
    assert Sources(merged) == Sources(listed);
    assert Aliases(merged) == Aliases(listed);
  }

  /** A record whose provenance is normal, unless its parts are invalid. */
  method NewRecord(ref: Ref, configuration: Configuration, provenance: seq<Provenance>) returns (r: Option<Record>)
    requires (configuration.Valid() ==> Built(configuration)) && forall p :: p in provenance && p.Valid() ==> p.Normal()
    ensures r.Some? <==> configuration.Valid() && provenance != [] && forall p :: p in provenance ==> p.Valid()
    ensures r.Some? ==> r.value.Normal() && FactsOf([r.value]) == FactsOf([Record(ref, configuration, provenance)])
  {
    if !configuration.Valid() || provenance == [] || exists p :: p in provenance && !p.Valid() {
      return None;
    }
    var merged := MergeProvenance(provenance);
    var given := Record(ref, configuration, provenance);
    SingleFacts(given, Record(ref, configuration, merged));
    assert provenance[0] in provenance;
    assert (provenance[0].source, provenance[0].record) in Sources(merged);
    return Some(Record(ref, configuration, merged));
  }

  /** The facts of one record are those of its provenance. */
  lemma SingleFacts(x: Record, y: Record)
    requires x.ref == y.ref && x.configuration == y.configuration
    requires Sources(x.provenance) == Sources(y.provenance) && Aliases(x.provenance) == Aliases(y.provenance)
    ensures FactsOf([x]) == FactsOf([y])
  {
    SingleCovers(x, y);
    SingleCovers(y, x);
  }

  lemma SingleCovers(x: Record, y: Record)
    requires x.ref == y.ref && x.configuration == y.configuration
    requires Sources(x.provenance) <= Sources(y.provenance) && Aliases(x.provenance) <= Aliases(y.provenance)
    ensures FactsOf([x]).known <= FactsOf([y]).known
    ensures FactsOf([x]).sources <= FactsOf([y]).sources
    ensures FactsOf([x]).aliases <= FactsOf([y]).aliases
  {
    assert y in [y];
    forall f | f in FactsOf([x]).sources
      ensures f in FactsOf([y]).sources
    {
      var p :| p in x.provenance && f == (x.ref, p.source, p.record);
      assert (p.source, p.record) in Sources(y.provenance);
      var q :| q in y.provenance && q.source == p.source && q.record == p.record;
    }
    forall f | f in FactsOf([x]).aliases
      ensures f in FactsOf([y]).aliases
    {
      var p, a :| p in x.provenance && a in p.aliases && f == (x.ref, p.source, p.record, a);
      assert (p.source, p.record, a) in Aliases(y.provenance);
      var q :| q in y.provenance && a in q.aliases && q.source == p.source && q.record == p.record;
    }
  }

  method MergeMatchingRecords(left: Record, right: Record) returns (r: Option<Record>)
    requires left.Normal() && right.Normal() && left.ref == right.ref
    ensures r.Some? <==> left.configuration == right.configuration
    ensures r.Some? ==> r.value.Normal() && r.value.ref == left.ref && r.value.configuration == left.configuration
    ensures r.Some? ==> FactsOf([r.value]) == FactsOf([left]).Plus(FactsOf([right]))
  {
    EquivalentIsEqual(left.configuration, right.configuration);
    if !left.configuration.Equivalent(right.configuration) {
      return None;
    }
    var merged := MergeProvenance(left.provenance + right.provenance);
    SourcesAppend(left.provenance, right.provenance);
    var both := left.(provenance := left.provenance + right.provenance);
    SingleFacts(left.(provenance := merged), both);
    BothFacts(left, right);
    assert (left.provenance[0].source, left.provenance[0].record) in Sources(merged) by {
      assert left.provenance[0] in left.provenance;
    }
    return Some(left.(provenance := merged));
  }

  lemma BothFacts(x: Record, y: Record)
    requires x.ref == y.ref && x.configuration == y.configuration
    ensures FactsOf([x.(provenance := x.provenance + y.provenance)]) == FactsOf([x]).Plus(FactsOf([y]))
  {
    var z := x.(provenance := x.provenance + y.provenance);
    assert x in [x] && y in [y] && z in [z];
    assert forall p :: p in z.provenance <==> p in x.provenance || p in y.provenance;
    var f, g := FactsOf([z]), FactsOf([x]).Plus(FactsOf([y]));
    assert f.known == g.known;
    assert f.sources == g.sources;
    assert f.aliases == g.aliases;
  }

  // ----- deduplication

  lemma SortedRecords(s: seq<Record>)
    ensures var r := Values(Sort(KeyedRecords(s))); Sorted(KeyedRecords(r)) && forall x :: x in r <==> x in s
  {
    var k := KeyedRecords(s);
    var u := Sort(k);
    SortSorted(k);
    SortKeepsMembers(k);
    forall i | 0 <= i < |u|
      ensures u[i] == Keyed(u[i].value.ref.Order(), u[i].value)
    {
      assert u[i] in k;
      var j :| 0 <= j < |k| && k[j] == u[i];
    }
    assert KeyedRecords(Values(u)) == u;
    forall x
      ensures x in Values(u) <==> x in s
    {
      if x in Values(u) {
        var i :| 0 <= i < |u| && u[i].value == x;
        assert u[i] in k;
        var j :| 0 <= j < |k| && k[j] == u[i];
        assert s[j] == x;
      }
      if x in s {
        var i :| 0 <= i < |s| && s[i] == x;
        assert k[i] in u;
        var j :| 0 <= j < |u| && u[j] == k[i];
        assert Values(u)[j] == x;
      }
    }
  }

  /** The records seen so far are merged, and the last result is the last connection seen. */
  ghost predicate Merged(ordered: seq<Record>, i: nat, result: seq<Record>) {
    && i <= |ordered| && NormalInventory(result) && FactsOf(result) == FactsOf(ordered[..i])
    && (i > 0 <==> result != [])
    && (i > 0 ==> result[|result| - 1].ref == ordered[i - 1].ref)
  }

  lemma AscendingAppend(result: seq<Record>, r: Record)
    requires Ascending(KeyedRecords(result))
    requires result != [] ==> Below(result[|result| - 1].ref.Order(), r.ref.Order())
    ensures Ascending(KeyedRecords(result + [r]))
  {
    var u, v := KeyedRecords(result), KeyedRecords(result + [r]);
    forall k, l | 0 <= k < l < |v|
      ensures Below(v[k].key, v[l].key)
    {
      if l < |result| {
        assert v[k] == u[k] && v[l] == u[l];
      } else if k < |result| - 1 {
        BelowTransitive(u[k].key, u[|result| - 1].key, r.ref.Order());
      }
    }
  }

  lemma AscendingReplace(result: seq<Record>, merged: Record)
    requires result != [] && Ascending(KeyedRecords(result)) && merged.ref == result[|result| - 1].ref
    ensures Ascending(KeyedRecords(result[|result| - 1 := merged]))
  {
    var u, v := KeyedRecords(result), KeyedRecords(result[|result| - 1 := merged]);
    assert forall k :: 0 <= k < |u| ==> v[k].key == u[k].key;
  }

  lemma AppendFacts(ordered: seq<Record>, i: nat, result: seq<Record>)
    requires i < |ordered| && FactsOf(result) == FactsOf(ordered[..i])
    ensures FactsOf(result + [ordered[i]]) == FactsOf(ordered[..i + 1])
  {
    TakeFacts(ordered, i);
    FactsAppend(result, [ordered[i]]);
  }

  lemma ReplaceFacts(ordered: seq<Record>, i: nat, result: seq<Record>, merged: Record)
    requires i < |ordered| && result != [] && FactsOf(result) == FactsOf(ordered[..i])
    requires FactsOf([merged]) == FactsOf([result[|result| - 1]]).Plus(FactsOf([ordered[i]]))
    ensures FactsOf(result[|result| - 1 := merged]) == FactsOf(ordered[..i + 1])
  {
    var n := |result| - 1;
    TakeFacts(ordered, i);
    LastFacts(result, merged);
    SplitFacts(result);
    PlusChain(FactsOf(ordered[..i + 1]), FactsOf(result), FactsOf(result[n := merged]), FactsOf(result[..n]),
              FactsOf([result[n]]), FactsOf([ordered[i]]), FactsOf([merged]));
  }

  lemma SplitFacts(result: seq<Record>)
    requires result != []
    ensures FactsOf(result) == FactsOf(result[..|result| - 1]).Plus(FactsOf([result[|result| - 1]]))
  {
    LastFacts(result, result[|result| - 1]);
    assert result[|result| - 1 := result[|result| - 1]] == result;
  }

  lemma PlusChain(whole: Facts, before: Facts, after: Facts, front: Facts, last: Facts, one: Facts, merged: Facts)
    requires whole == before.Plus(one) && before == front.Plus(last) && merged == last.Plus(one) && after == front.Plus(merged)
    ensures after == whole
  {
    PlusAssociates(front, last, one);
  }

  lemma TakeFacts(ordered: seq<Record>, i: nat)
    requires i < |ordered|
    ensures FactsOf(ordered[..i + 1]) == FactsOf(ordered[..i]).Plus(FactsOf([ordered[i]]))
  {
    assert ordered[..i + 1] == ordered[..i] + [ordered[i]];
    FactsAppend(ordered[..i], [ordered[i]]);
  }

  lemma LastFacts(result: seq<Record>, merged: Record)
    requires result != []
    ensures FactsOf(result[|result| - 1 := merged]) == FactsOf(result[..|result| - 1]).Plus(FactsOf([merged]))
  {
    assert result[|result| - 1 := merged] == result[..|result| - 1] + [merged];
    FactsAppend(result[..|result| - 1], [merged]);
  }

  lemma PlusAssociates(f: Facts, g: Facts, h: Facts)
    ensures f.Plus(g).Plus(h) == f.Plus(g.Plus(h))
  {
    assert (f.known + g.known) + h.known == f.known + (g.known + h.known);
    assert (f.sources + g.sources) + h.sources == f.sources + (g.sources + h.sources);
    assert (f.aliases + g.aliases) + h.aliases == f.aliases + (g.aliases + h.aliases);
  }

  lemma AppendRecord(ordered: seq<Record>, i: nat, result: seq<Record>)
    requires i < |ordered| && Merged(ordered, i, result) && Sorted(KeyedRecords(ordered)) && ordered[i].Normal()
    requires i > 0 ==> ordered[i - 1].ref != ordered[i].ref
    ensures Merged(ordered, i + 1, result + [ordered[i]])
  {
    if i > 0 {
      LastIsBelow(ordered, i, result);
    }
    AscendingAppend(result, ordered[i]);
    AppendFacts(ordered, i, result);
  }

  lemma LastIsBelow(ordered: seq<Record>, i: nat, result: seq<Record>)
    requires 0 < i < |ordered| && Merged(ordered, i, result) && Sorted(KeyedRecords(ordered))
    requires ordered[i - 1].ref != ordered[i].ref
    ensures Below(result[|result| - 1].ref.Order(), ordered[i].ref.Order())
  {
    var u := KeyedRecords(ordered);
    assert !Below(u[i].key, u[i - 1].key);
    BelowTotal(u[i - 1].key, u[i].key);
  }

  lemma ReplaceLast(ordered: seq<Record>, i: nat, result: seq<Record>, merged: Record)
    requires 0 < i < |ordered| && Merged(ordered, i, result) && merged.Normal()
    requires merged.ref == ordered[i].ref == result[|result| - 1].ref
    requires FactsOf([merged]) == FactsOf([result[|result| - 1]]).Plus(FactsOf([ordered[i]]))
    ensures Merged(ordered, i + 1, result[|result| - 1 := merged])
  {
    AscendingReplace(result, merged);
    ReplaceFacts(ordered, i, result, merged);
    forall r | r in result[|result| - 1 := merged]
      ensures r.Normal()
    {
      assert r == merged || r in result;
    }
  }

  /** A failed merge is the first conflict: every smaller connection was seen completely, without one. */
  lemma FailedMerge(ordered: seq<Record>, i: nat, result: seq<Record>)
    requires 0 < i < |ordered| && Merged(ordered, i, result) && Sorted(KeyedRecords(ordered))
    requires ordered[i].ref == result[|result| - 1].ref && ordered[i].configuration != result[|result| - 1].configuration
    ensures FirstConflict(FactsOf(ordered), ordered[i].ref)
  {
    var f, ref, last := FactsOf(ordered), ordered[i].ref, result[|result| - 1];
    assert (ref, ordered[i].configuration) in f.known;
    assert (last.ref, last.configuration) in FactsOf(result).known;
    assert (ref, last.configuration) in FactsOf(ordered[..i]).known;
    assert ConflictAt(f, ref);
    NoConflict(result);
    forall other: Ref | Below(other.Order(), ref.Order())
      ensures !ConflictAt(f, other)
    {
      forall c | (other, c) in f.known
        ensures (other, c) in FactsOf(result).known
      {
        SmallerIsSeen(ordered, i, other, c);
      }
      assert !ConflictAt(FactsOf(result), other);
    }
  }

  lemma SmallerIsSeen(ordered: seq<Record>, i: nat, other: Ref, c: Configuration)
    requires i < |ordered| && Sorted(KeyedRecords(ordered)) && Below(other.Order(), ordered[i].ref.Order())
    requires (other, c) in FactsOf(ordered).known
    ensures (other, c) in FactsOf(ordered[..i]).known
  {
    var r :| r in ordered && r.ref == other && r.configuration == c;
    var j :| 0 <= j < |ordered| && ordered[j] == r;
    var u := KeyedRecords(ordered);
    assert u[j].key == other.Order();
    forall k | i <= k < |ordered|
      ensures !Below(u[k].key, u[i].key)
    {
      BelowTotal(u[i].key, u[i].key);
    }
    assert j < i;
    assert ordered[..i][j] == r;
  }

  method AllValid(records: seq<Record>) returns (ok: bool)
    ensures ok <==> forall r :: r in records ==> r.Valid()
  {
    var i := 0;
    while i < |records|
      invariant 0 <= i <= |records|
      invariant forall j :: 0 <= j < i ==> records[j].Valid()
    {
      if !records[i].Valid() {
        assert records[i] in records;
        return false;
      }
      i := i + 1;
    }
    return true;
  }

  method MergeOne(ordered: seq<Record>, i: nat, result: seq<Record>) returns (next: Option<seq<Record>>)
    requires i < |ordered| && Merged(ordered, i, result) && Sorted(KeyedRecords(ordered)) && ordered[i].Normal()
    ensures next.Some? ==> Merged(ordered, i + 1, next.value)
    ensures next.None? ==> FirstConflict(FactsOf(ordered), ordered[i].ref)
  {
    if result == [] || result[|result| - 1].ref != ordered[i].ref {
      AppendRecord(ordered, i, result);
      return Some(result + [ordered[i]]);
    }
    var last := result[|result| - 1];
    assert last in result;
    var merged := MergeMatchingRecords(last, ordered[i]);
    if merged.None? {
      FailedMerge(ordered, i, result);
      return None;
    }
    ReplaceLast(ordered, i, result, merged.value);
    return Some(result[|result| - 1 := merged.value]);
  }

  method MergeOrdered(ordered: seq<Record>) returns (r: Result<seq<Record>, DedupError>)
    requires Sorted(KeyedRecords(ordered)) && forall x :: x in ordered ==> x.Normal()
    ensures if r.Ok? then NormalInventory(r.value) && FactsOf(r.value) == FactsOf(ordered)
            else exists ref :: FirstConflict(FactsOf(ordered), ref) && r == Err(Conflict(ref.id))
  {
    var result: seq<Record> := [];
    var i := 0;
    while i < |ordered|
      invariant 0 <= i <= |ordered| && Merged(ordered, i, result)
    {
      assert ordered[i] in ordered;
      var next := MergeOne(ordered, i, result);
      if next.None? {
        return Err(Conflict(ordered[i].ref.id));
      }
      result := next.value;
      i := i + 1;
    }
    assert ordered[..i] == ordered;
    return Ok(result);
  }

  /** Sort, then merge neighbours with one identity. */
  method Deduplicate(records: seq<Record>) returns (r: Result<seq<Record>, DedupError>)
    requires forall x :: x in records && x.Valid() ==> x.Normal()
    ensures Dedups(records, r)
  {
    var valid := AllValid(records);
    if !valid {
      return Err(InvalidRecord);
    }
    var ordered := Values(Sort(KeyedRecords(records)));
    SortedRecords(records);
    SameFacts(ordered, records);
    r := MergeOrdered(ordered);
    if r.Ok? {
      NoConflict(r.value);
    }
  }

  function Parts(snapshots: map<string, seq<Record>>, names: seq<string>): (r: seq<seq<Record>>)
    requires forall n :: n in names ==> n in snapshots
    ensures |r| == |names| && forall i :: 0 <= i < |names| ==> r[i] == snapshots[names[i]]
  {
    seq(|names|, i requires 0 <= i < |names| => assert names[i] in names; snapshots[names[i]])
  }

  method SortedNames(snapshots: map<string, seq<Record>>) returns (names: seq<string>)
    ensures Ascending(KeyedStrings(names)) && forall n :: n in names <==> n in snapshots
  {
    var listed: seq<string> := [];
    var left := snapshots.Keys;
    while left != {}
      invariant left <= snapshots.Keys
      invariant forall n :: n in listed <==> n in snapshots && n !in left
      invariant forall i, j :: 0 <= i < j < |listed| ==> listed[i] != listed[j]
      decreases |left|
    {
      var n :| n in left;
      listed := listed + [n];
      left := left - {n};
    }
    SortedStrings(listed);
    return Values(Sort(KeyedStrings(listed)));
  }

  /** The inventory of a set of source snapshots, taken in the order of their sorted names. */
  method CombineSnapshots(snapshots: map<string, seq<Record>>) returns (names: seq<string>, r: Result<seq<Record>, DedupError>)
    requires forall n :: n in snapshots ==> NormalInventory(snapshots[n])
    ensures Ascending(KeyedStrings(names)) && forall n :: n in names <==> n in snapshots
    ensures Dedups(Flat(Parts(snapshots, names)), r)
  {
    names := SortedNames(snapshots);
    ghost var parts := Parts(snapshots, names);
    var records: seq<Record> := [];
    var i := 0;
    assert parts[0..] == parts && records + Flat(parts) == Flat(parts);
    while i < |names|
      invariant 0 <= i <= |names|
      invariant records + Flat(parts[i..]) == Flat(parts)
      invariant forall x :: x in records ==> x.Normal()
    {
      assert parts[i..][0] == parts[i] && parts[i..][1..] == parts[i + 1..];
      assert names[i] in names;
      assert (records + parts[i]) + Flat(parts[i + 1..]) == records + (parts[i] + Flat(parts[i + 1..]));
      records := records + snapshots[names[i]];
      i := i + 1;
    }
    assert parts[i..] == [] && records + [] == records;
    r := Deduplicate(records);
  }

  // ----- identities never conflict

  function Chars(t: Encoding.Text): (r: string)
    ensures |r| == |t|
    ensures forall i :: 0 <= i < |t| ==> r[i] as int == t[i]
  {
    seq(|t|, i requires 0 <= i < |t| => t[i] as char)
  }

  function RefOf(c: Configuration, digest: Encoding.Text -> Encoding.Text, text: Encoding.Text -> Encoding.Text): Ref
    requires c.Valid()
  {
    Ref(Chars(Identities.IdOf(c, digest, text)), Chars(digest(Identities.Canonical(c, true))))
  }

  lemma CharsInjective(t: Encoding.Text, u: Encoding.Text)
    requires Chars(t) == Chars(u)
    ensures t == u
  {
    assert forall i :: 0 <= i < |t| ==> Chars(t)[i] == Chars(u)[i];
  }

  /** Records that carry the identity of their own configuration never conflict: deduplicating them succeeds. */
  lemma IdentitiesNeverConflict(s: seq<Record>, digest: Encoding.Text -> Encoding.Text, text: Encoding.Text -> Encoding.Text)
    requires Identities.Injective(digest) && Identities.Injective(text)
    requires forall r :: r in s ==> r.Normal() && r.ref == RefOf(r.configuration, digest, text)
    ensures !Conflicting(FactsOf(s))
  {
    forall ref
      ensures !ConflictAt(FactsOf(s), ref)
    {
      forall c, d | (ref, c) in FactsOf(s).known && (ref, d) in FactsOf(s).known
        ensures c == d
      {
        var x :| x in s && (x.ref, x.configuration) == (ref, c);
        var y :| y in s && (y.ref, y.configuration) == (ref, d);
        CharsInjective(digest(Identities.Canonical(c, true)), digest(Identities.Canonical(d, true)));
        Identities.PrivateIsExact(c, d);
        EquivalentIsEqual(c, d);
      }
    }
  }
}
