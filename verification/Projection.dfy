/** Versioned last-writer-wins mutations as a fold over values, and when arrival order does not matter. */
module Projection {
  import opened Common

  type Record = map<string, string>
  type Entries = map<string, Record>

  datatype Operation = Upsert | Patch | Delete

  datatype Scope = Scope(tenantId: string, domain: string, collection: string)

  datatype Mutation = Mutation(
    operation: Operation,
    scope: Scope,
    recordId: string,
    version: int,
    sourceWatermark: Option<string>,
    fields: Record,
    record: Option<Record>)

  datatype State = State(byId: Entries, versions: map<string, int>)

  const EMPTY := State(map[], map[])

  // The record an upsert stores: the one sent, or the sent fields with the id filled in
  function Resolved(m: Mutation): Record
  {
    if m.record.Some? then m.record.value else m.fields["id" := m.recordId]
  }

  function Patched(current: Option<Record>, m: Mutation): Record
  {
    ((if current.Some? then current.value else map["id" := m.recordId]) + m.fields)["id" := m.recordId]
  }

  function Get(entries: Entries, id: string): Option<Record> { if id in entries then Some(entries[id]) else None }

  predicate Accepts(scope: Scope, s: State, m: Mutation)
  {
    m.scope == scope && m.version >= (if m.recordId in s.versions then s.versions[m.recordId] else -1)
  }

  function Effect(getId: Record -> string, entries: Entries, m: Mutation): Entries
  {
    match m.operation
    case Delete => entries - {m.recordId}
    case Patch =>
      var record := Patched(Get(entries, m.recordId), m);
      entries[getId(record) := record]
    case Upsert => entries[getId(Resolved(m)) := Resolved(m)]
  }

  function Apply(getId: Record -> string, scope: Scope, s: State, m: Mutation): State
  {
    if Accepts(scope, s, m) then State(Effect(getId, s.byId, m), s.versions[m.recordId := m.version]) else s
  }

  function Fold(getId: Record -> string, scope: Scope, s: State, ms: seq<Mutation>): State
  {
    if ms == [] then s else Apply(getId, scope, Fold(getId, scope, s, ms[..|ms| - 1]), ms[|ms| - 1])
  }

  // What a mutation leaves behind, field by field

  // p has the record's id, the patch's fields, and the old record's fields that the patch does not name.
  ghost predicate IsPatch(current: Option<Record>, m: Mutation, p: Record)
  {
    && "id" in p && p["id"] == m.recordId
    && (forall f :: f in m.fields && f != "id" ==> f in p && p[f] == m.fields[f])
    && (current.Some? ==>
          forall f :: f in current.value && f !in m.fields && f != "id" ==> f in p && p[f] == current.value[f])
    && (forall f :: f in p ==> f == "id" || f in m.fields || (current.Some? && f in current.value))
  }

  // p is the record sent, or has the record's id and exactly the sent fields.
  ghost predicate IsUpsert(m: Mutation, p: Record)
  {
    if m.record.Some? then p == m.record.value
    else
      && "id" in p && p["id"] == m.recordId
      && (forall f :: f in m.fields && f != "id" ==> f in p && p[f] == m.fields[f])
      && (forall f :: f in p ==> f == "id" || f in m.fields)
  }

  // Record p is stored under its id and every other id is as before.
  ghost predicate Stores(getId: Record -> string, before: Entries, p: Record, after: Entries)
  {
    Get(after, getId(p)) == Some(p) && forall id :: id != getId(p) ==> Get(after, id) == Get(before, id)
  }

  ghost predicate Meant(getId: Record -> string, before: Entries, m: Mutation, after: Entries)
  {
    match m.operation
    case Delete => Get(after, m.recordId).None? && forall id :: id != m.recordId ==> Get(after, id) == Get(before, id)
    case Patch => exists p :: IsPatch(Get(before, m.recordId), m, p) && Stores(getId, before, p, after)
    case Upsert => exists p :: IsUpsert(m, p) && Stores(getId, before, p, after)
  }

  /** An accepted mutation leaves what it says; it is accepted in scope, at or above the version it replaces. */
  lemma AcceptedMeans(getId: Record -> string, scope: Scope, s: State, m: Mutation)
    ensures var t := Apply(getId, scope, s, m);
            && (Accepts(scope, s, m) ==>
                  Meant(getId, s.byId, m, t.byId) && t.versions == s.versions[m.recordId := m.version])
            && (!Accepts(scope, s, m) ==> t == s)
    ensures Accepts(scope, s, m) <==>
            && m.scope == scope && (m.recordId in s.versions ==> m.version >= s.versions[m.recordId])
            && (m.recordId !in s.versions ==> m.version >= -1)
  {
    if Accepts(scope, s, m) {
      match m.operation
      case Delete =>
      case Patch =>
        var p := Patched(Get(s.byId, m.recordId), m);
        assert IsPatch(Get(s.byId, m.recordId), m, p) && Stores(getId, s.byId, p, Effect(getId, s.byId, m));
      case Upsert =>
        var p := Resolved(m);
        assert IsUpsert(m, p) && Stores(getId, s.byId, p, Effect(getId, s.byId, m));
    }
  }

  // Upserts whose record is stored under the record id, and deletes
  predicate Plain(getId: Record -> string, m: Mutation)
  {
    !m.operation.Patch? && (m.operation.Upsert? ==> getId(Resolved(m)) == m.recordId)
  }

  predicate AllPlain(getId: Record -> string, ms: seq<Mutation>)
  {
    forall k :: 0 <= k < |ms| ==> Plain(getId, ms[k])
  }

  // What a plain mutation leaves under its id
  function Outcome(m: Mutation): Option<Record> { if m.operation.Delete? then None else Some(Resolved(m)) }

  // Addresses this id, in scope, and not below the version a record starts from
  predicate Counts(scope: Scope, id: string, m: Mutation)
  {
    m.scope == scope && m.recordId == id && m.version >= -1
  }

  // The mutation that decides an id: none has a higher version, and no later one the same
  predicate Decides(scope: Scope, ms: seq<Mutation>, id: string, k: nat)
  {
    && k < |ms| && Counts(scope, id, ms[k])
    && forall j :: 0 <= j < |ms| && Counts(scope, id, ms[j]) ==>
         ms[j].version <= ms[k].version && (j > k ==> ms[j].version < ms[k].version)
  }

  predicate DecidedBy(scope: Scope, ms: seq<Mutation>, s: State, id: string, k: nat)
  {
    && Decides(scope, ms, id, k) && id in s.versions
    && s.versions[id] == ms[k].version && Get(s.byId, id) == Outcome(ms[k])
  }

  // Some mutation decides the id and its outcome stands, or none addressed it.
  ghost predicate Settled(scope: Scope, ms: seq<Mutation>, s: State, id: string)
  {
    && (id !in s.versions ==> id !in s.byId && forall j :: 0 <= j < |ms| ==> !Counts(scope, id, ms[j]))
    && (id in s.versions ==>
          exists k: nat :: DecidedBy(scope, ms, s, id, k))
  }

  /** After any sequence of plain mutations each id holds the outcome of its last highest version. */
  lemma {:induction false} HighestVersionWins(getId: Record -> string, scope: Scope, ms: seq<Mutation>, id: string)
    requires AllPlain(getId, ms)
    ensures Settled(scope, ms, Fold(getId, scope, EMPTY, ms), id)
  {
    if ms != [] {
      var n := |ms| - 1;
      var before, m := ms[..n], ms[n];
      HighestVersionWins(getId, scope, before, id);
      var s := Fold(getId, scope, EMPTY, before);
      assert Plain(getId, m);
      if Counts(scope, id, m) && Accepts(scope, s, m) {
        Takes(getId, scope, ms, s, id);
      } else {
        Stays(getId, scope, ms, s, id);
      }
    }
  }

  lemma Takes(getId: Record -> string, scope: Scope, ms: seq<Mutation>, s: State, id: string)
    requires ms != [] && Plain(getId, ms[|ms| - 1]) && Settled(scope, ms[..|ms| - 1], s, id)
    requires Counts(scope, id, ms[|ms| - 1]) && Accepts(scope, s, ms[|ms| - 1])
    ensures Settled(scope, ms, Apply(getId, scope, s, ms[|ms| - 1]), id)
  {
    var n := |ms| - 1;
    var before := ms[..n];
    if id in s.versions {
      var k: nat :| DecidedBy(scope, before, s, id, k);
      forall j | 0 <= j < |ms| && Counts(scope, id, ms[j]) ensures ms[j].version <= ms[n].version {
        if j < n { assert before[j] == ms[j]; }
      }
    } else {
      forall j | 0 <= j < n ensures !Counts(scope, id, ms[j]) { assert before[j] == ms[j]; }
    }
    assert DecidedBy(scope, ms, Apply(getId, scope, s, ms[n]), id, n);
  }

  lemma Stays(getId: Record -> string, scope: Scope, ms: seq<Mutation>, s: State, id: string)
    requires ms != [] && Plain(getId, ms[|ms| - 1]) && Settled(scope, ms[..|ms| - 1], s, id)
    requires !(Counts(scope, id, ms[|ms| - 1]) && Accepts(scope, s, ms[|ms| - 1]))
    ensures Settled(scope, ms, Apply(getId, scope, s, ms[|ms| - 1]), id)
  {
    var n := |ms| - 1;
    var before, s' := ms[..n], Apply(getId, scope, s, ms[n]);
    if id in s.versions {
      var k: nat :| DecidedBy(scope, before, s, id, k);
      assert ms[n].recordId != id || s' == s;
      forall j | 0 <= j < |ms| && Counts(scope, id, ms[j])
        ensures ms[j].version <= ms[k].version && (j > k ==> ms[j].version < ms[k].version)
      {
        if j < n { assert before[j] == ms[j]; }
      }
      assert DecidedBy(scope, ms, s', id, k);
    } else {
      forall j | 0 <= j < |ms| ensures !Counts(scope, id, ms[j]) {
        if j < n { assert before[j] == ms[j]; }
      }
    }
  }

  // No mutation of its id in scope has a higher version
  predicate Top(scope: Scope, ms: seq<Mutation>, k: nat)
  {
    && k < |ms| && Counts(scope, ms[k].recordId, ms[k])
    && forall j :: 0 <= j < |ms| && Counts(scope, ms[k].recordId, ms[j]) ==> ms[j].version <= ms[k].version
  }

  // Mutations tied at an id's highest version leave the same thing behind.
  ghost predicate TiesAgree(scope: Scope, ms: seq<Mutation>)
  {
    forall i: nat, j: nat :: Top(scope, ms, i) && Top(scope, ms, j) && ms[i].recordId == ms[j].recordId ==>
                     Outcome(ms[i]) == Outcome(ms[j])
  }

  predicate Permutes(ms: seq<Mutation>, ns: seq<Mutation>) { multiset(ms) == multiset(ns) }

  lemma Occurs(ms: seq<Mutation>, ns: seq<Mutation>, k: nat) returns (i: nat)
    requires Permutes(ms, ns) && k < |ns|
    ensures i < |ms| && ms[i] == ns[k]
  {
    assert ns[k] in multiset(ms);
    i :| 0 <= i < |ms| && ms[i] == ns[k];
  }

  lemma PlainPermuted(getId: Record -> string, ms: seq<Mutation>, ns: seq<Mutation>)
    requires Permutes(ms, ns) && AllPlain(getId, ms)
    ensures AllPlain(getId, ns)
  {
    forall k | 0 <= k < |ns| ensures Plain(getId, ns[k]) {
      var i := Occurs(ms, ns, k);
    }
  }

  // A decider of one order is a top of the other.
  lemma DeciderIsTop(scope: Scope, ms: seq<Mutation>, ns: seq<Mutation>, id: string, l: nat) returns (i: nat)
    requires Permutes(ms, ns) && Decides(scope, ns, id, l)
    ensures Top(scope, ms, i) && ms[i] == ns[l]
  {
    i := Occurs(ms, ns, l);
    forall j | 0 <= j < |ms| && Counts(scope, id, ms[j]) ensures ms[j].version <= ms[i].version {
      var k := Occurs(ns, ms, j);
    }
  }

  lemma AgreeAt(getId: Record -> string, scope: Scope, ms: seq<Mutation>, ns: seq<Mutation>, id: string)
    requires AllPlain(getId, ms) && Permutes(ms, ns) && TiesAgree(scope, ms)
    ensures var s, t := Fold(getId, scope, EMPTY, ms), Fold(getId, scope, EMPTY, ns);
            Get(s.byId, id) == Get(t.byId, id) && (id in s.versions <==> id in t.versions)
            && (id in s.versions ==> s.versions[id] == t.versions[id])
  {
    hide Fold, Outcome, Plain;
    PlainPermuted(getId, ms, ns);
    HighestVersionWins(getId, scope, ms, id);
    HighestVersionWins(getId, scope, ns, id);
    var s, t := Fold(getId, scope, EMPTY, ms), Fold(getId, scope, EMPTY, ns);
    if id in s.versions && id in t.versions {
      var k: nat :| DecidedBy(scope, ms, s, id, k);
      var l: nat :| DecidedBy(scope, ns, t, id, l);
      var i := DeciderIsTop(scope, ms, ns, id, l);
      assert Top(scope, ms, k);
    } else if id in s.versions {
      var k: nat :| DecidedBy(scope, ms, s, id, k);
      var j := Occurs(ns, ms, k);
      assert false;
    } else if id in t.versions {
      var l: nat :| DecidedBy(scope, ns, t, id, l);
      var j := Occurs(ms, ns, l);
      assert false;
    }
  }

  lemma Converges(getId: Record -> string, scope: Scope, ms: seq<Mutation>, ns: seq<Mutation>)
    requires AllPlain(getId, ms) && Permutes(ms, ns) && TiesAgree(scope, ms)
    ensures Fold(getId, scope, EMPTY, ms) == Fold(getId, scope, EMPTY, ns)
  {
    hide Fold, TiesAgree, AllPlain, Permutes;
    var s, t := Fold(getId, scope, EMPTY, ms), Fold(getId, scope, EMPTY, ns);
    forall id: string
      ensures Get(s.byId, id) == Get(t.byId, id) && (id in s.versions <==> id in t.versions)
      ensures id in s.versions ==> s.versions[id] == t.versions[id]
    {
      AgreeAt(getId, scope, ms, ns, id);
    }
    assert s.versions == t.versions;
    assert s.byId == t.byId by {
      forall id ensures id in s.byId <==> id in t.byId { assert Get(s.byId, id) == Get(t.byId, id); }
      forall id | id in s.byId ensures s.byId[id] == t.byId[id] { assert Get(s.byId, id) == Get(t.byId, id); }
    }
  }

  function ToEnd(ms: seq<Mutation>, i: nat): seq<Mutation>
    requires i < |ms|
  {
    ms[..i] + ms[i + 1..] + [ms[i]]
  }

  lemma EndPermutes(ms: seq<Mutation>, i: nat)
    requires i < |ms|
    ensures Permutes(ms, ToEnd(ms, i))
  {
    assert ms == ms[..i] + [ms[i]] + ms[i + 1..];
  }

  lemma MovedWins(getId: Record -> string, scope: Scope, ms: seq<Mutation>, i: nat)
    requires AllPlain(getId, ms) && Top(scope, ms, i)
    ensures Permutes(ms, ToEnd(ms, i))
    ensures Get(Fold(getId, scope, EMPTY, ToEnd(ms, i)).byId, ms[i].recordId) == Outcome(ms[i])
  {
    hide Fold, AllPlain, Permutes, Outcome;
    var ns, n, id := ToEnd(ms, i), |ms| - 1, ms[i].recordId;
    EndPermutes(ms, i);
    PlainPermuted(getId, ms, ns);
    HighestVersionWins(getId, scope, ns, id);
    var s := Fold(getId, scope, EMPTY, ns);
    assert Counts(scope, id, ns[n]);
    var k: nat :| DecidedBy(scope, ns, s, id, k);
    var j := Occurs(ms, ns, k);
    assert ns[k].version <= ns[n].version;
    assert k == n;
  }

  /**
   All arrival orders of a set of plain mutations leave the same records exactly when, for
   every id, the in-scope mutations tied at its highest version have the same outcome.
   */
  lemma OrderIndependentIff(getId: Record -> string, scope: Scope, ms: seq<Mutation>)
    requires AllPlain(getId, ms)
    ensures (forall ns {:trigger Permutes(ms, ns)} :: Permutes(ms, ns) ==>
               Fold(getId, scope, EMPTY, ns).byId == Fold(getId, scope, EMPTY, ms).byId)
            <==> TiesAgree(scope, ms)
  {
    hide Fold, AllPlain, Permutes, Outcome;
    if TiesAgree(scope, ms) {
      forall ns | Permutes(ms, ns)
        ensures Fold(getId, scope, EMPTY, ns).byId == Fold(getId, scope, EMPTY, ms).byId
      {
        Converges(getId, scope, ms, ns);
      }
    } else {
      var i: nat, j: nat :| Top(scope, ms, i) && Top(scope, ms, j) && ms[i].recordId == ms[j].recordId
                  && Outcome(ms[i]) != Outcome(ms[j]);
      MovedWins(getId, scope, ms, i);
      MovedWins(getId, scope, ms, j);
      assert Permutes(ms, ToEnd(ms, i)) && Permutes(ms, ToEnd(ms, j));
    }
  }

  /** Versions distinct per record id make every arrival order agree, versions included. */
  lemma DistinctVersionsConverge(getId: Record -> string, scope: Scope, ms: seq<Mutation>, ns: seq<Mutation>)
    requires AllPlain(getId, ms) && Permutes(ms, ns)
    requires forall i, j :: 0 <= i < j < |ms| && ms[i].recordId == ms[j].recordId ==> ms[i].version != ms[j].version
    ensures Fold(getId, scope, EMPTY, ms) == Fold(getId, scope, EMPTY, ns)
  {
    hide Fold, AllPlain, Permutes, Outcome;
    assert TiesAgree(scope, ms);
    Converges(getId, scope, ms, ns);
  }

  // Patches too: every field has its last writer

  // Stores under the record id, whatever the record was
  ghost predicate UnderId(getId: Record -> string, m: Mutation)
  {
    && (m.operation.Upsert? ==> getId(Resolved(m)) == m.recordId)
    && (m.operation.Patch? ==> forall r: Record :: "id" in r && r["id"] == m.recordId ==> getId(r) == m.recordId)
  }

  predicate AcceptedAt(getId: Record -> string, scope: Scope, s: State, ms: seq<Mutation>, k: nat)
  {
    k < |ms| && Accepts(scope, Fold(getId, scope, s, ms[..k]), ms[k])
  }

  // Decides the field: a patch that names it, or anything that replaces the whole record
  predicate Settles(m: Mutation, f: string) { m.operation.Patch? ==> f in m.fields }

  ghost predicate SettledBy(getId: Record -> string, scope: Scope, ms: seq<Mutation>, id: string, f: string, n: nat)
  {
    && AcceptedAt(getId, scope, EMPTY, ms, n) && ms[n].recordId == id && Settles(ms[n], f)
    && forall k: nat :: n < k && AcceptedAt(getId, scope, EMPTY, ms, k) && ms[k].recordId == id ==> !Settles(ms[k], f)
  }

  function Field(r: Option<Record>, f: string): Option<string>
  {
    if r.Some? && f in r.value then Some(r.value[f]) else None
  }

  // What the mutation says of the field
  function Says(m: Mutation, f: string): Option<string>
  {
    match m.operation
    case Delete => None
    case Patch => if f in m.fields then Some(m.fields[f]) else None
    case Upsert =>
      if m.record.Some? then Field(m.record, f) else if f in m.fields then Some(m.fields[f]) else None
  }

  lemma SamePrefix(getId: Record -> string, scope: Scope, s: State, ms: seq<Mutation>, k: nat)
    requires ms != [] && k < |ms| - 1
    ensures AcceptedAt(getId, scope, s, ms, k) == AcceptedAt(getId, scope, s, ms[..|ms| - 1], k)
    ensures ms[..|ms| - 1][k] == ms[k]
  {
    assert ms[..|ms| - 1][..k] == ms[..k];
  }

  /**
   After any sequence of upserts, patches and deletes, each field of each record is what the
   last accepted mutation that settles it said: the last patch naming the field, upsert or
   delete. A field that none settled is absent.
   */
  lemma {:induction false} FieldIsTheLastSaid(getId: Record -> string, scope: Scope, ms: seq<Mutation>,
                                              id: string, f: string)
    requires f != "id" && forall k :: 0 <= k < |ms| ==> UnderId(getId, ms[k])
    ensures var s := Fold(getId, scope, EMPTY, ms);
            && (forall n: nat :: SettledBy(getId, scope, ms, id, f, n) ==> Field(Get(s.byId, id), f) == Says(ms[n], f))
            && ((forall n: nat :: !SettledBy(getId, scope, ms, id, f, n)) ==> Field(Get(s.byId, id), f).None?)
  {
    if ms != [] {
      var k := |ms| - 1;
      var before, m := ms[..k], ms[k];
      FieldIsTheLastSaid(getId, scope, before, id, f);
      var s := Fold(getId, scope, EMPTY, before);
      assert UnderId(getId, m);
      FieldMoves(getId, scope, s, m, id, f);
      if Accepts(scope, s, m) && m.recordId == id && Settles(m, f) {
        assert AcceptedAt(getId, scope, EMPTY, ms, k);
        assert SettledBy(getId, scope, ms, id, f, k);
      } else {
        forall n: nat ensures SettledBy(getId, scope, ms, id, f, n) == SettledBy(getId, scope, before, id, f, n) {
          SettledSame(getId, scope, ms, id, f, n);
        }
      }
    }
  }

  lemma SettledSame(getId: Record -> string, scope: Scope, ms: seq<Mutation>, id: string, f: string, n: nat)
    requires ms != []
    requires var k := |ms| - 1;
             !(Accepts(scope, Fold(getId, scope, EMPTY, ms[..k]), ms[k]) && ms[k].recordId == id && Settles(ms[k], f))
    ensures SettledBy(getId, scope, ms, id, f, n) == SettledBy(getId, scope, ms[..|ms| - 1], id, f, n)
  {
    hide Fold, Accepts;
    forall j: nat | j < |ms| - 1
      ensures AcceptedAt(getId, scope, EMPTY, ms, j) == AcceptedAt(getId, scope, EMPTY, ms[..|ms| - 1], j)
      ensures ms[..|ms| - 1][j] == ms[j]
    {
      SamePrefix(getId, scope, EMPTY, ms, j);
    }
  }

  // One mutation: a field moves only when it is settled.
  lemma FieldMoves(getId: Record -> string, scope: Scope, s: State, m: Mutation, id: string, f: string)
    requires UnderId(getId, m) && f != "id"
    ensures Field(Get(Apply(getId, scope, s, m).byId, id), f) ==
            if Accepts(scope, s, m) && m.recordId == id && Settles(m, f) then Says(m, f)
            else Field(Get(s.byId, id), f)
  {
    if m.operation.Patch? {
      var current := Get(s.byId, m.recordId);
      assert getId(Patched(current, m)) == m.recordId;
    }
  }
}
