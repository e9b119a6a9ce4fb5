/**
 Inventories as facts: which configuration a connection has, which source records contribute it, and under which
 aliases. A deduplicated inventory is the one normal form of its facts.
 */
module Inventories {
  import opened Wrappers
  import opened Sorting
  import opened Selection
  import opened Configurations

  predicate SafeId(s: string) {
    0 < |s| <= 128 && forall i :: 0 <= i < |s| ==> IdChar(s[i])
  }

  predicate IdChar(c: char) {
    'a' <= c <= 'z' || 'A' <= c <= 'Z' || '0' <= c <= '9' || c == '.' || c == '_' || c == '-'
  }

  predicate Control(c: char) { c < ' ' || '\U{7f}' <= c <= '\U{9f}' }

  /** The Unicode category Cf. */
  predicate Format(c: char) {
    || c == '\U{AD}' || '\U{600}' <= c <= '\U{605}' || c == '\U{61C}' || c == '\U{6DD}' || c == '\U{70F}'
    || '\U{890}' <= c <= '\U{891}' || c == '\U{8E2}' || c == '\U{180E}' || '\U{200B}' <= c <= '\U{200F}'
    || '\U{202A}' <= c <= '\U{202E}' || '\U{2060}' <= c <= '\U{2064}' || '\U{2066}' <= c <= '\U{206F}'
    || c == '\U{FEFF}' || '\U{FFF9}' <= c <= '\U{FFFB}' || c == '\U{110BD}' || c == '\U{110CD}'
    || '\U{13430}' <= c <= '\U{1343F}' || '\U{1BCA0}' <= c <= '\U{1BCA3}' || '\U{1D173}' <= c <= '\U{1D17A}'
    || c == '\U{E0001}' || '\U{E0020}' <= c <= '\U{E007F}'
  }

  /** How many bytes the UTF-8 form has. */
  function Utf8Size(s: string): nat {
    if s == "" then 0
    else
      var c := s[0] as int;
      (if c < 0x80 then 1 else if c < 0x800 then 2 else if c < 0x1_0000 then 3 else 4) + Utf8Size(s[1..])
  }

  predicate GoodAlias(s: string) {
    s != "" && Utf8Size(s) <= 256 && forall i :: 0 <= i < |s| ==> !Control(s[i]) && !Format(s[i])
  }

  /** An alias as it arrives: the characters of valid UTF-8, or bytes that are not. */
  datatype RawAlias = Utf8(text: string) | Malformed(bytes: seq<int>) {
    predicate Good() { Utf8? && GoodAlias(text) }
  }

  function KeyedStrings(s: seq<string>): (r: seq<Keyed<string>>)
    ensures |r| == |s|
    ensures forall i :: 0 <= i < |s| ==> r[i] == Keyed(Key(0, s[i], ""), s[i])
  {
    seq(|s|, i requires 0 <= i < |s| => Keyed(Key(0, s[i], ""), s[i]))
  }

  ghost predicate NormalAliases(s: seq<string>) {
    Ascending(KeyedStrings(s)) && forall a :: a in s ==> GoodAlias(a)
  }

  datatype Provenance = Provenance(source: string, record: string, aliases: seq<string>) {
    predicate Valid() { source != "" && record != "" }

    function Order(): Key { Key(0, source, record) }

    /** The map key: source and record joined by a NUL. */
    function MapKey(): string { source + "\0" + record }

    ghost predicate Normal() { SafeId(source) && SafeId(record) && NormalAliases(aliases) }
  }

  function KeyedProvenance(s: seq<Provenance>): (r: seq<Keyed<Provenance>>)
    ensures |r| == |s|
    ensures forall i :: 0 <= i < |s| ==> r[i] == Keyed(s[i].Order(), s[i])
  {
    seq(|s|, i requires 0 <= i < |s| => Keyed(s[i].Order(), s[i]))
  }

  ghost predicate NormalProvenance(s: seq<Provenance>) {
    Ascending(KeyedProvenance(s)) && forall p :: p in s ==> p.Normal()
  }

  ghost function Sources(s: seq<Provenance>): set<(string, string)> {
    set p | p in s :: (p.source, p.record)
  }

  ghost function Aliases(s: seq<Provenance>): set<(string, string, string)> {
    set p, a | p in s && a in p.aliases :: (p.source, p.record, a)
  }

  datatype Record = Record(ref: Ref, configuration: Configuration, provenance: seq<Provenance>) {
    predicate Valid() {
      configuration.Valid() && provenance != [] && forall p :: p in provenance ==> p.Valid()
    }

    /** As NewRecord builds it. */
    ghost predicate Normal() { Built(configuration) && provenance != [] && NormalProvenance(provenance) }
  }

  function KeyedRecords(s: seq<Record>): (r: seq<Keyed<Record>>)
    ensures |r| == |s|
    ensures forall i :: 0 <= i < |s| ==> r[i] == Keyed(s[i].ref.Order(), s[i])
  {
    seq(|s|, i requires 0 <= i < |s| => Keyed(s[i].ref.Order(), s[i]))
  }

  datatype Facts = Facts(known: set<(Ref, Configuration)>, sources: set<(Ref, string, string)>,
                         aliases: set<(Ref, string, string, string)>)
  {
    function Plus(other: Facts): Facts {
      Facts(known + other.known, sources + other.sources, aliases + other.aliases)
    }
  }

  ghost function FactsOf(s: seq<Record>): Facts {
    Facts(set r | r in s :: (r.ref, r.configuration),
          set r, p | r in s && p in r.provenance :: (r.ref, p.source, p.record),
          set r, p, a | r in s && p in r.provenance && a in p.aliases :: (r.ref, p.source, p.record, a))
  }

  ghost predicate NormalInventory(s: seq<Record>) {
    Ascending(KeyedRecords(s)) && forall r :: r in s ==> r.Normal()
  }

  ghost predicate ConflictAt(f: Facts, ref: Ref) {
    exists c, d :: (ref, c) in f.known && (ref, d) in f.known && c != d
  }

  ghost predicate Conflicting(f: Facts) {
    exists ref :: ConflictAt(f, ref)
  }

  datatype DedupError = InvalidRecord | Conflict(id: string)

  ghost predicate FirstConflict(f: Facts, ref: Ref) {
    ConflictAt(f, ref) && forall other: Ref :: Below(other.Order(), ref.Order()) ==> !ConflictAt(f, other)
  }

  /** What deduplication promises: the normal form of the facts, or the first conflicting connection. */
  ghost predicate Dedups(s: seq<Record>, r: Result<seq<Record>, DedupError>) {
    if exists x :: x in s && !x.Valid() then r == Err(InvalidRecord)
    else if Conflicting(FactsOf(s)) then exists ref :: FirstConflict(FactsOf(s), ref) && r == Err(Conflict(ref.id))
    else r.Ok? && NormalInventory(r.value) && FactsOf(r.value) == FactsOf(s)
  }

  // ----- normal forms are unique

  lemma StringsUnique(a: seq<string>, b: seq<string>)
    requires Ascending(KeyedStrings(a)) && Ascending(KeyedStrings(b)) && forall x :: x in a <==> x in b
    ensures a == b
  {
    var u, v := KeyedStrings(a), KeyedStrings(b);
    forall x
      ensures x in u <==> x in v
    {
      if x in u {
        var i :| 0 <= i < |u| && u[i] == x;
        assert a[i] in b;
        var j :| 0 <= j < |b| && b[j] == a[i];
        assert v[j] == x;
      }
      if x in v {
        var i :| 0 <= i < |v| && v[i] == x;
        assert b[i] in a;
        var j :| 0 <= j < |a| && a[j] == b[i];
        assert u[j] == x;
      }
    }
    AscendingUnique(u, v);
    assert forall i :: 0 <= i < |a| ==> u[i].value == v[i].value;
  }

  lemma OneProvenance(s: seq<Provenance>, p: Provenance, q: Provenance)
    requires Ascending(KeyedProvenance(s)) && p in s && q in s && p.source == q.source && p.record == q.record
    ensures p == q
  {
    var i :| 0 <= i < |s| && s[i] == p;
    var j :| 0 <= j < |s| && s[j] == q;
    BelowTotal(p.Order(), q.Order());
    assert KeyedProvenance(s)[i].key == KeyedProvenance(s)[j].key;
  }

  lemma OneRecord(s: seq<Record>, x: Record, y: Record)
    requires Ascending(KeyedRecords(s)) && x in s && y in s && x.ref == y.ref
    ensures x == y
  {
    var i :| 0 <= i < |s| && s[i] == x;
    var j :| 0 <= j < |s| && s[j] == y;
    BelowTotal(x.ref.Order(), y.ref.Order());
    assert KeyedRecords(s)[i].key == KeyedRecords(s)[j].key;
  }

  lemma AliasesTransfer(s: seq<Provenance>, t: seq<Provenance>, p: Provenance, q: Provenance, a: string)
    requires NormalProvenance(t) && Aliases(s) == Aliases(t)
    requires p in s && q in t && p.source == q.source && p.record == q.record && a in p.aliases
    ensures a in q.aliases
  {
    assert (p.source, p.record, a) in Aliases(t);
    var o :| o in t && a in o.aliases && o.source == p.source && o.record == p.record;
    OneProvenance(t, o, q);
  }

  lemma ProvenanceTransfer(s: seq<Provenance>, t: seq<Provenance>, p: Provenance)
    requires NormalProvenance(s) && NormalProvenance(t) && Sources(s) == Sources(t) && Aliases(s) == Aliases(t)
    requires p in s
    ensures p in t
  {
    assert (p.source, p.record) in Sources(t);
    var q :| q in t && q.source == p.source && q.record == p.record;
    forall a
      ensures a in p.aliases <==> a in q.aliases
    {
      if a in p.aliases {
        AliasesTransfer(s, t, p, q, a);
      }
      if a in q.aliases {
        AliasesTransfer(t, s, q, p, a);
      }
    }
    assert p.Normal() && q.Normal();
    StringsUnique(p.aliases, q.aliases);
  }

  lemma ProvenanceUnique(s: seq<Provenance>, t: seq<Provenance>)
    requires NormalProvenance(s) && NormalProvenance(t) && Sources(s) == Sources(t) && Aliases(s) == Aliases(t)
    ensures s == t
  {
    var u, v := KeyedProvenance(s), KeyedProvenance(t);
    forall x
      ensures x in u <==> x in v
    {
      if x in u {
        var i :| 0 <= i < |u| && u[i] == x;
        ProvenanceTransfer(s, t, s[i]);
        var j :| 0 <= j < |t| && t[j] == s[i];
        assert v[j] == x;
      }
      if x in v {
        var i :| 0 <= i < |v| && v[i] == x;
        ProvenanceTransfer(t, s, t[i]);
        var j :| 0 <= j < |s| && s[j] == t[i];
        assert u[j] == x;
      }
    }
    AscendingUnique(u, v);
    assert forall i :: 0 <= i < |s| ==> u[i].value == v[i].value;
  }

  lemma SourceTransfer(s: seq<Record>, t: seq<Record>, x: Record, y: Record, p: Provenance)
    requires NormalInventory(t) && FactsOf(s) == FactsOf(t) && x in s && y in t && x.ref == y.ref && p in x.provenance
    ensures (p.source, p.record) in Sources(y.provenance)
  {
    assert (x.ref, p.source, p.record) in FactsOf(t).sources;
    var o, q :| o in t && q in o.provenance && o.ref == x.ref && q.source == p.source && q.record == p.record;
    OneRecord(t, o, y);
  }

  lemma AliasTransfer(s: seq<Record>, t: seq<Record>, x: Record, y: Record, p: Provenance, a: string)
    requires NormalInventory(t) && FactsOf(s) == FactsOf(t) && x in s && y in t && x.ref == y.ref
    requires p in x.provenance && a in p.aliases
    ensures (p.source, p.record, a) in Aliases(y.provenance)
  {
    assert (x.ref, p.source, p.record, a) in FactsOf(t).aliases;
    var o, q :| o in t && q in o.provenance && a in q.aliases && o.ref == x.ref && q.source == p.source && q.record == p.record;
    OneRecord(t, o, y);
  }

  lemma ProvenanceCovered(s: seq<Record>, t: seq<Record>, x: Record, y: Record)
    requires NormalInventory(t) && FactsOf(s) == FactsOf(t) && x in s && y in t && x.ref == y.ref
    ensures Sources(x.provenance) <= Sources(y.provenance) && Aliases(x.provenance) <= Aliases(y.provenance)
  {
    forall f | f in Sources(x.provenance)
      ensures f in Sources(y.provenance)
    {
      var p :| p in x.provenance && (p.source, p.record) == f;
      SourceTransfer(s, t, x, y, p);
    }
    forall f | f in Aliases(x.provenance)
      ensures f in Aliases(y.provenance)
    {
      var p, a :| p in x.provenance && a in p.aliases && (p.source, p.record, a) == f;
      AliasTransfer(s, t, x, y, p, a);
    }
  }

  lemma RecordTransfer(s: seq<Record>, t: seq<Record>, x: Record)
    requires NormalInventory(s) && NormalInventory(t) && FactsOf(s) == FactsOf(t) && x in s
    ensures x in t
  {
    assert (x.ref, x.configuration) in FactsOf(t).known;
    var y :| y in t && y.ref == x.ref && y.configuration == x.configuration;
    ProvenanceCovered(s, t, x, y);
    ProvenanceCovered(t, s, y, x);
    assert x.Normal() && y.Normal();
    ProvenanceUnique(x.provenance, y.provenance);
  }

  /** One normal inventory for every set of facts. */
  lemma InventoryUnique(s: seq<Record>, t: seq<Record>)
    requires NormalInventory(s) && NormalInventory(t) && FactsOf(s) == FactsOf(t)
    ensures s == t
  {
    var u, v := KeyedRecords(s), KeyedRecords(t);
    forall x
      ensures x in u <==> x in v
    {
      if x in u {
        var i :| 0 <= i < |u| && u[i] == x;
        RecordTransfer(s, t, s[i]);
        var j :| 0 <= j < |t| && t[j] == s[i];
        assert v[j] == x;
      }
      if x in v {
        var i :| 0 <= i < |v| && v[i] == x;
        RecordTransfer(t, s, t[i]);
        var j :| 0 <= j < |s| && s[j] == t[i];
        assert u[j] == x;
      }
    }
    AscendingUnique(u, v);
    assert forall i :: 0 <= i < |s| ==> u[i].value == v[i].value;
  }

  // ----- the laws of deduplication

  lemma FirstConflictUnique(f: Facts, x: Ref, y: Ref)
    requires FirstConflict(f, x) && FirstConflict(f, y)
    ensures x == y
  {
    BelowTotal(x.Order(), y.Order());
  }

  /** The result is determined by the facts alone: order and repetition of the records do not matter. */
  lemma DedupDependsOnFacts(s: seq<Record>, t: seq<Record>, r: Result<seq<Record>, DedupError>, q: Result<seq<Record>, DedupError>)
    requires FactsOf(s) == FactsOf(t) && (forall x :: x in s ==> x.Valid()) && (forall x :: x in t ==> x.Valid())
    requires Dedups(s, r) && Dedups(t, q)
    ensures r == q
  {
    if Conflicting(FactsOf(s)) {
      var x :| FirstConflict(FactsOf(s), x) && r == Err(Conflict(x.id));
      var y :| FirstConflict(FactsOf(t), y) && q == Err(Conflict(y.id));
      FirstConflictUnique(FactsOf(s), x, y);
    } else {
      InventoryUnique(r.value, q.value);
    }
  }

  /** Permuting the records does not change the result, whatever it is. */
  lemma DedupIgnoresOrder(s: seq<Record>, t: seq<Record>, r: Result<seq<Record>, DedupError>, q: Result<seq<Record>, DedupError>)
    requires multiset(s) == multiset(t) && Dedups(s, r) && Dedups(t, q)
    ensures r == q
  {
    SameMembers(s, t);
    SameFacts(s, t);
    if forall x :: x in s ==> x.Valid() {
      DedupDependsOnFacts(s, t, r, q);
    }
  }

  lemma SameFacts(s: seq<Record>, t: seq<Record>)
    requires forall x :: x in s <==> x in t
    ensures FactsOf(s) == FactsOf(t)
  {
    assert FactsOf(s).known == FactsOf(t).known;
    assert FactsOf(s).sources == FactsOf(t).sources;
    assert FactsOf(s).aliases == FactsOf(t).aliases;
  }

  lemma NormalIsValid(s: seq<Record>)
    requires NormalInventory(s)
    ensures forall x :: x in s ==> x.Valid()
  {
    forall x | x in s
      ensures x.Valid()
    {
      assert x.Normal();
    }
  }

  lemma NoConflict(s: seq<Record>)
    requires NormalInventory(s)
    ensures !Conflicting(FactsOf(s))
  {
    forall ref
      ensures !ConflictAt(FactsOf(s), ref)
    {
      forall c, d | (ref, c) in FactsOf(s).known && (ref, d) in FactsOf(s).known
        ensures c == d
      {
        var x :| x in s && (x.ref, x.configuration) == (ref, c);
        var y :| y in s && (y.ref, y.configuration) == (ref, d);
        OneRecord(s, x, y);
      }
    }
  }

  /** Deduplicating a deduplicated inventory changes nothing. */
  lemma DedupIdempotent(s: seq<Record>, q: Result<seq<Record>, DedupError>)
    requires NormalInventory(s) && Dedups(s, q)
    ensures q == Ok(s)
  {
    NormalIsValid(s);
    NoConflict(s);
    InventoryUnique(s, q.value);
  }

  lemma FactsAppend(s: seq<Record>, t: seq<Record>)
    ensures FactsOf(s + t) == FactsOf(s).Plus(FactsOf(t))
  {
    assert forall r :: r in s + t <==> r in s || r in t;
    assert FactsOf(s + t).known == FactsOf(s).known + FactsOf(t).known;
    assert FactsOf(s + t).sources == FactsOf(s).sources + FactsOf(t).sources;
    assert FactsOf(s + t).aliases == FactsOf(s).aliases + FactsOf(t).aliases;
  }

  function Flat(parts: seq<seq<Record>>): seq<Record> {
    if parts == [] then [] else parts[0] + Flat(parts[1..])
  }

  ghost predicate DedupsEach(parts: seq<seq<Record>>, snapshots: seq<seq<Record>>) {
    |parts| == |snapshots| && forall i :: 0 <= i < |parts| ==> Dedups(parts[i], Ok(snapshots[i]))
  }

  lemma {:induction false} FlatFacts(parts: seq<seq<Record>>, snapshots: seq<seq<Record>>)
    requires DedupsEach(parts, snapshots)
    ensures FactsOf(Flat(parts)) == FactsOf(Flat(snapshots))
    ensures (forall x :: x in Flat(parts) ==> x.Valid()) && (forall x :: x in Flat(snapshots) ==> x.Valid())
    decreases |parts|
  {
    if parts == [] {
    } else {
      assert DedupsEach(parts[1..], snapshots[1..]) by {
        forall i | 0 <= i < |parts[1..]|
          ensures Dedups(parts[1..][i], Ok(snapshots[1..][i]))
        {
          assert Dedups(parts[i + 1], Ok(snapshots[i + 1]));
        }
      }
      FlatFacts(parts[1..], snapshots[1..]);
      FactsAppend(parts[0], Flat(parts[1..]));
      FactsAppend(snapshots[0], Flat(snapshots[1..]));
      assert Dedups(parts[0], Ok(snapshots[0]));
      NormalIsValid(snapshots[0]);
    }
  }

  /**
   Deduplicating every source on its own and then the snapshots together gives what one deduplication of all records
   gives, conflicts included.
   */
  lemma DedupHomomorphic(parts: seq<seq<Record>>, snapshots: seq<seq<Record>>,
                         r: Result<seq<Record>, DedupError>, q: Result<seq<Record>, DedupError>)
    requires DedupsEach(parts, snapshots) && Dedups(Flat(parts), r) && Dedups(Flat(snapshots), q)
    ensures r == q
  {
    FlatFacts(parts, snapshots);
    DedupDependsOnFacts(Flat(parts), Flat(snapshots), r, q);
  }

  /** A source whose own records conflict makes the flat deduplication fail as well. */
  lemma PartConflicts(s: seq<Record>, t: seq<Record>, ref: Ref)
    requires ConflictAt(FactsOf(s), ref)
    ensures ConflictAt(FactsOf(s + t), ref) && ConflictAt(FactsOf(t + s), ref)
  {
    FactsAppend(s, t);
    FactsAppend(t, s);
    var c, d :| (ref, c) in FactsOf(s).known && (ref, d) in FactsOf(s).known && c != d;
    assert (ref, c) in FactsOf(s + t).known && (ref, d) in FactsOf(s + t).known;
    assert (ref, c) in FactsOf(t + s).known && (ref, d) in FactsOf(t + s).known;
  }
}
