/**
 The domain store and the tenant projection store. A Cell is one map object: the live one
 is updated in place, and each snapshot holds its own copy.
 */
module ProjectionStore {
  import opened Common
  import opened Projection

  class Cell {
    var entries: Entries

    constructor (m: Entries)
      ensures entries == m
    {
      entries := m;
    }
  }

  datatype Snapshot = Snapshot(byId: Cell, version: nat)

  function FromRecords(getId: Record -> string, records: seq<Record>): Entries
  {
    if records == [] then map[]
    else FromRecords(getId, records[..|records| - 1])[getId(records[|records| - 1]) := records[|records| - 1]]
  }

  class DomainStore {
    const getId: Record -> string
    var version: nat
    var byId: Cell
    var snapshot: Snapshot
    var snapshotDirty: bool
    var batchDepth: nat
    var pendingEmit: bool
    // the cells handed out as snapshots
    ghost var issued: set<Cell>
    // the records at each version as published
    ghost var log: map<nat, Entries>

    // The published version describes the live records until a batch changes them.
    ghost predicate Valid()
      reads this, byId, snapshot.byId
    {
      && byId !in issued && byId != snapshot.byId
      && (!snapshotDirty ==> snapshot.byId.entries == byId.entries && snapshot.version == version)
      && (pendingEmit ==> batchDepth > 0)
      && (!pendingEmit ==> version in log && log[version] == byId.entries)
      && (forall v :: v in log ==> v <= version)
    }

    ghost function Live(): Entries
      reads this, byId
    {
      byId.entries
    }

    // Nothing already published or handed out has changed.
    twostate predicate HistoryKept()
      reads this, issued
    {
      && old(issued) <= issued && old(version) <= version
      && (forall v :: v in old(log) ==> v in log && log[v] == old(log)[v])
      && (forall c :: c in old(issued) ==> c.entries == old(c.entries))
    }

    // The live records became `now`, published at once outside a batch and held back inside one.
    twostate predicate Changed(now: Entries)
      reads this, byId, issued
    {
      && Live() == now && HistoryKept() && batchDepth == old(batchDepth)
      && (batchDepth == 0 ==> version == old(version) + 1 && !pendingEmit)
      && (batchDepth > 0 ==> version == old(version) && pendingEmit)
      && (byId == old(byId) || fresh(byId))
    }

    constructor (getId: Record -> string, initial: seq<Record>)
      ensures Valid() && fresh(byId) && fresh(snapshot.byId) && this.getId == getId
      ensures Live() == FromRecords(getId, initial) && version == 1 && batchDepth == 0 && issued == {}
    {
      this.getId := getId;
      version, snapshotDirty, batchDepth, pendingEmit, issued, log := 0, false, 0, false, {}, map[];
      var blank := new Cell(map[]);
      snapshot := Snapshot(blank, 0);
      byId := new Cell(FromRecords(getId, initial));
      new;
      snapshotDirty, version := true, 1;
      log := log[1 := byId.entries];
    }

    // Marks the snapshot stale and publishes, or leaves that to the end of the batch.
    method Emit()
      modifies `version, `snapshotDirty, `pendingEmit, `log
      ensures snapshotDirty
      ensures batchDepth > 0 ==> pendingEmit && version == old(version) && log == old(log)
      ensures batchDepth == 0 ==>
                pendingEmit == old(pendingEmit) && version == old(version) + 1 && log == old(log)[version := Live()]
    {
      snapshotDirty := true;
      if batchDepth > 0 {
        pendingEmit := true;
        return;
      }
      version := version + 1;
      log := log[version := byId.entries];
    }

    method Replace(records: seq<Record>)
      requires Valid()
      modifies this
      ensures Valid() && Changed(FromRecords(getId, records)) && fresh(byId)
    {
      byId := new Cell(FromRecords(getId, records));
      Emit();
    }

    method Upsert(record: Record)
      requires Valid()
      modifies this, byId
      ensures Valid() && Changed(old(Live())[getId(record) := record]) && byId == old(byId) && issued == old(issued)
    {
      byId.entries := byId.entries[getId(record) := record];
      Emit();
    }

    /** Removing an absent record publishes nothing. */
    method Remove(id: string)
      requires Valid()
      modifies this, byId
      ensures Valid() && byId == old(byId) && issued == old(issued)
      ensures id in old(Live()) ==> Changed(old(Live()) - {id})
      ensures id !in old(Live()) ==>
                Live() == old(Live()) && HistoryKept() && version == old(version) && batchDepth == old(batchDepth)
                && pendingEmit == old(pendingEmit)
    {
      if id !in byId.entries { return; }
      byId.entries := byId.entries - {id};
      Emit();
    }

    method Reset()
      requires Valid()
      modifies this, byId
      ensures Valid() && Changed(map[]) && byId == old(byId) && issued == old(issued)
    {
      byId.entries := map[];
      Emit();
    }

    method BeginBatch()
      requires Valid()
      modifies `batchDepth
      ensures Valid() && batchDepth == old(batchDepth) + 1
    {
      batchDepth := batchDepth + 1;
    }

    /** Closing the outermost batch publishes once if anything was emitted in it. */
    method EndBatch()
      requires Valid() && batchDepth > 0
      modifies this
      ensures Valid() && HistoryKept() && byId == old(byId) && issued == old(issued)
      ensures batchDepth == old(batchDepth) - 1
      ensures batchDepth == 0 ==> !pendingEmit && version == old(version) + if old(pendingEmit) then 1 else 0
      ensures batchDepth > 0 ==> pendingEmit == old(pendingEmit) && version == old(version)
    {
      batchDepth := batchDepth - 1;
      if !pendingEmit || batchDepth > 0 { return; }
      pendingEmit := false;
      version := version + 1;
      snapshotDirty := true;
      log := log[version := byId.entries];
    }

    /**
     The snapshot always holds the live records; with nothing held back by a batch it is
     the record set logged for its version, so equal versions mean equal records.
     */
    method GetSnapshot() returns (s: Snapshot)
      requires Valid()
      modifies this
      ensures Valid() && s == snapshot && s.byId in issued && s.version == version
      ensures s.byId.entries == Live() == old(Live()) && byId == old(byId)
      ensures !pendingEmit ==> s.version in log && s.byId.entries == log[s.version]
      ensures version == old(version) && log == old(log) && batchDepth == old(batchDepth)
      ensures pendingEmit == old(pendingEmit) && issued == old(issued) + {s.byId}
    {
      if snapshotDirty {
        var copy := new Cell(byId.entries);
        snapshot := Snapshot(copy, version);
        snapshotDirty := false;
      }
      s := snapshot;
      issued := issued + {s.byId};
    }
  }

  // Anything a caller does to a store; a batch holds operations of its own
  datatype StoreOp =
    | PutOne(record: Record)
    | Drop(id: string)
    | PutAll(records: seq<Record>)
    | Clear
    | TakeSnapshot
    | InBatch(body: seq<StoreOp>)

  // A snapshot handed out and the records it held then
  datatype Taken = Taken(s: Snapshot, entries: Entries)

  // The live records after one operation
  function Applied(getId: Record -> string, entries: Entries, op: StoreOp): Entries
    decreases op, 0
  {
    match op
    case PutOne(record) => entries[getId(record) := record]
    case Drop(id) => entries - {id}
    case PutAll(records) => FromRecords(getId, records)
    case Clear => map[]
    case TakeSnapshot => entries
    case InBatch(body) => AppliedAll(getId, entries, body)
  }

  function AppliedAll(getId: Record -> string, entries: Entries, ops: seq<StoreOp>): Entries
    decreases ops, 1
  {
    if ops == [] then entries else AppliedAll(getId, Applied(getId, entries, ops[0]), ops[1..])
  }

  /**
   Over any list of operations, batches and snapshots included: the live records are the
   operations' result, every snapshot handed out before or during the list still holds what
   it held, and outside a batch the version moved on if the records changed.
   */
  method RunOps(store: DomainStore, ops: seq<StoreOp>) returns (ghost taken: seq<Taken>)
    requires store.Valid()
    modifies store, store.byId
    ensures store.Valid() && store.HistoryKept() && store.batchDepth == old(store.batchDepth)
    ensures store.byId == old(store.byId) || fresh(store.byId)
    ensures store.Live() == AppliedAll(store.getId, old(store.Live()), ops)
    ensures forall k :: 0 <= k < |taken| ==>
              taken[k].s.byId in store.issued && taken[k].s.byId.entries == taken[k].entries
    ensures store.batchDepth == 0 && store.version == old(store.version) ==> store.Live() == old(store.Live())
    decreases ops, 1
  {
    taken := [];
    if ops == [] { return; }
    var first := RunOp(store, ops[0]);
    var rest := RunOps(store, ops[1..]);
    taken := first + rest;
  }

  method RunOp(store: DomainStore, op: StoreOp) returns (ghost taken: seq<Taken>)
    requires store.Valid()
    modifies store, store.byId
    ensures store.Valid() && store.HistoryKept() && store.batchDepth == old(store.batchDepth)
    ensures store.byId == old(store.byId) || fresh(store.byId)
    ensures store.Live() == Applied(store.getId, old(store.Live()), op)
    ensures forall k :: 0 <= k < |taken| ==>
              taken[k].s.byId in store.issued && taken[k].s.byId.entries == taken[k].entries
    ensures store.batchDepth == 0 && store.version == old(store.version) ==> store.Live() == old(store.Live())
    decreases op, 0
  {
    taken := [];
    match op {
      case PutOne(record) => store.Upsert(record);
      case Drop(id) => store.Remove(id);
      case PutAll(records) => store.Replace(records);
      case Clear => store.Reset();
      case TakeSnapshot =>
        var s := store.GetSnapshot();
        taken := [Taken(s, store.Live())];
      case InBatch(body) =>
        store.BeginBatch();
        taken := RunOps(store, body);
        store.EndBatch();
    }
  }

  datatype Tally = Tally(accepted: nat, rejected: nat, lastVersion: Option<int>, watermark: Option<string>)

  function Counted(t: Tally, accepted: bool, m: Mutation): Tally
  {
    if !accepted then t.(rejected := t.rejected + 1)
    else
      Tally(t.accepted + 1, t.rejected,
            Some(if t.lastVersion.None? || m.version > t.lastVersion.value then m.version else t.lastVersion.value),
            if m.sourceWatermark.Some? then m.sourceWatermark else t.watermark)
  }

  // What applying the mutations in order counts and remembers
  function Tallied(getId: Record -> string, scope: Scope, s: State, ms: seq<Mutation>): Tally
  {
    if ms == [] then Tally(0, 0, None, None)
    else
      var before, m := ms[..|ms| - 1], ms[|ms| - 1];
      Counted(Tallied(getId, scope, s, before), Accepts(scope, Fold(getId, scope, s, before), m), m)
  }

  // Every mutation is counted once, and the last version is the highest one accepted.
  ghost predicate VersionOk(getId: Record -> string, scope: Scope, s: State, ms: seq<Mutation>, t: Tally)
  {
    && t.accepted + t.rejected == |ms|
    && (t.lastVersion.None? <==> t.accepted == 0)
    && (forall k: nat :: AcceptedAt(getId, scope, s, ms, k) ==>
          t.lastVersion.Some? && ms[k].version <= t.lastVersion.value)
    && (t.lastVersion.Some? ==>
          exists k: nat :: AcceptedAt(getId, scope, s, ms, k) && ms[k].version == t.lastVersion.value)
  }

  // Mutation k was accepted with the watermark w, and no later one accepted gave any.
  ghost predicate LastMark(getId: Record -> string, scope: Scope, s: State, ms: seq<Mutation>,
                           w: Option<string>, k: nat)
  {
    && AcceptedAt(getId, scope, s, ms, k) && ms[k].sourceWatermark == w
    && forall j: nat :: j > k && AcceptedAt(getId, scope, s, ms, j) ==> ms[j].sourceWatermark.None?
  }

  // The watermark is the latest one given by an accepted mutation.
  ghost predicate MarkOk(getId: Record -> string, scope: Scope, s: State, ms: seq<Mutation>, t: Tally)
  {
    && (t.watermark.None? ==> forall k: nat :: AcceptedAt(getId, scope, s, ms, k) ==> ms[k].sourceWatermark.None?)
    && (t.watermark.Some? ==> exists k: nat :: LastMark(getId, scope, s, ms, t.watermark, k))
  }

  lemma {:induction false} TallyVersions(getId: Record -> string, scope: Scope, s: State, ms: seq<Mutation>)
    ensures VersionOk(getId, scope, s, ms, Tallied(getId, scope, s, ms))
  {
    hide Fold, Accepts;
    if ms != [] {
      var n := |ms| - 1;
      var before := ms[..n];
      TallyVersions(getId, scope, s, before);
      var t, t' := Tallied(getId, scope, s, before), Tallied(getId, scope, s, ms);
      forall k: nat | AcceptedAt(getId, scope, s, ms, k)
        ensures t'.lastVersion.Some? && ms[k].version <= t'.lastVersion.value
      {
        if k < n { SamePrefix(getId, scope, s, ms, k); }
      }
      if t'.lastVersion.Some? {
        if AcceptedAt(getId, scope, s, ms, n) && t'.lastVersion == Some(ms[n].version) {
        } else {
          var k: nat :| AcceptedAt(getId, scope, s, before, k) && before[k].version == t.lastVersion.value;
          SamePrefix(getId, scope, s, ms, k);
        }
      }
    }
  }

  lemma {:induction false} TallyMarks(getId: Record -> string, scope: Scope, s: State, ms: seq<Mutation>)
    ensures MarkOk(getId, scope, s, ms, Tallied(getId, scope, s, ms))
  {
    hide Fold, Accepts;
    if ms != [] {
      var n := |ms| - 1;
      var before := ms[..n];
      TallyMarks(getId, scope, s, before);
      var t, t' := Tallied(getId, scope, s, before), Tallied(getId, scope, s, ms);
      if t'.watermark.None? {
        forall k: nat | AcceptedAt(getId, scope, s, ms, k) ensures ms[k].sourceWatermark.None? {
          if k < n { SamePrefix(getId, scope, s, ms, k); }
        }
      } else if AcceptedAt(getId, scope, s, ms, n) && ms[n].sourceWatermark.Some? {
        assert LastMark(getId, scope, s, ms, t'.watermark, n);
      } else {
        var k: nat :| LastMark(getId, scope, s, before, t.watermark, k);
        SamePrefix(getId, scope, s, ms, k);
        forall j: nat | j > k && AcceptedAt(getId, scope, s, ms, j) ensures ms[j].sourceWatermark.None? {
          if j < n { SamePrefix(getId, scope, s, ms, j); }
        }
        assert LastMark(getId, scope, s, ms, t'.watermark, k);
      }
    }
  }

  // An accepted mutation publishes unless it deletes a record that is not there.
  predicate Emits(scope: Scope, s: State, m: Mutation)
  {
    Accepts(scope, s, m) && (m.operation.Delete? ==> m.recordId in s.byId)
  }

  predicate EmitsAny(getId: Record -> string, scope: Scope, s: State, ms: seq<Mutation>)
  {
    exists k :: 0 <= k < |ms| && Emits(scope, Fold(getId, scope, s, ms[..k]), ms[k])
  }

  class TenantProjectionStore {
    const scope: Scope
    const store: DomainStore
    var versions: map<string, int>

    ghost predicate Valid()
      reads this, store, store.byId, store.snapshot.byId
    {
      store.Valid()
    }

    ghost function Model(): State
      reads this, store, store.byId
    {
      State(store.Live(), versions)
    }

    constructor (scope: Scope, getId: Record -> string)
      ensures Valid() && this.scope == scope && store.getId == getId && Model() == EMPTY
      ensures fresh(store) && fresh(store.byId) && store.batchDepth == 0
    {
      this.scope := scope;
      store := new DomainStore(getId, []);
      versions := map[];
    }

    /** Applies one mutation exactly as the fold does, publishing only when the records were touched. */
    method ApplyOne(m: Mutation) returns (ok: bool)
      requires Valid()
      modifies this, store, store.byId
      ensures Valid() && ok == Accepts(scope, old(Model()), m)
      ensures Model() == Apply(store.getId, scope, old(Model()), m)
      ensures ok ==>
                && Meant(store.getId, old(store.Live()), m, store.Live())
                && versions == old(versions)[m.recordId := m.version]
      ensures !ok ==> store.Live() == old(store.Live()) && versions == old(versions)
      ensures store.HistoryKept() && store.byId == old(store.byId) && store.issued == old(store.issued)
      ensures store.batchDepth == old(store.batchDepth)
      ensures store.batchDepth == 0 ==>
                store.version == old(store.version) + if Emits(scope, old(Model()), m) then 1 else 0
      ensures store.batchDepth > 0 ==>
                store.version == old(store.version)
                && (store.pendingEmit <==> old(store.pendingEmit) || Emits(scope, old(Model()), m))
    {
      hide Meant;
      AcceptedMeans(store.getId, scope, Model(), m);
      if m.scope.tenantId != scope.tenantId || m.scope.domain != scope.domain
         || m.scope.collection != scope.collection {
        return false;
      }
      var current := if m.recordId in versions then versions[m.recordId] else -1;
      if m.version < current { return false; }
      versions := versions[m.recordId := m.version];
      match m.operation {
        case Delete =>
          store.Remove(m.recordId);
        case Patch =>
          var entries := store.byId.entries;
          var base := if m.recordId in entries then entries[m.recordId] else map["id" := m.recordId];
          store.Upsert((base + m.fields)["id" := m.recordId]);
        case Upsert =>
          store.Upsert(if m.record.Some? then m.record.value else m.fields["id" := m.recordId]);
      }
      ok := true;
    }

    // The loop of ApplyMany, inside its batch
    method ApplyEach(ms: seq<Mutation>) returns (r: Tally)
      requires Valid() && store.batchDepth > 0
      modifies this, store, store.byId
      ensures Valid() && store.HistoryKept()
      ensures store.byId == old(store.byId) && store.batchDepth == old(store.batchDepth)
      ensures Model() == Fold(store.getId, scope, old(Model()), ms)
      ensures r == Tallied(store.getId, scope, old(Model()), ms)
      ensures store.version == old(store.version)
      ensures store.pendingEmit <==> old(store.pendingEmit) || EmitsAny(store.getId, scope, old(Model()), ms)
    {
      hide Apply, Accepts, Emits, EmitsAny, Fold, Tallied, Counted;
      ghost var s := Model();
      r := Tally(0, 0, None, None);
      var i := 0;
      NoneYet(store.getId, scope, s, ms);
      while i < |ms|
        invariant 0 <= i <= |ms| && Valid() && store.HistoryKept()
        invariant store.byId == old(store.byId) && store.batchDepth == old(store.batchDepth)
        invariant Model() == Fold(store.getId, scope, s, ms[..i]) && r == Tallied(store.getId, scope, s, ms[..i])
        invariant store.version == old(store.version)
        invariant store.pendingEmit <==> old(store.pendingEmit) || EmitsAny(store.getId, scope, s, ms[..i])
      {
        OneMore(store.getId, scope, s, ms, i);
        var ok := ApplyOne(ms[i]);
        r := Counted(r, ok, ms[i]);
        i := i + 1;
      }
      assert ms[..i] == ms;
    }

    /**
     Equals folding the mutations one by one, and outside a batch publishes exactly once if
     any of them touched the records and not at all otherwise.
     */
    method ApplyMany(ms: seq<Mutation>) returns (r: Tally)
      requires Valid()
      modifies this, store, store.byId
      ensures Valid() && store.HistoryKept() && store.batchDepth == old(store.batchDepth)
      ensures Model() == Fold(store.getId, scope, old(Model()), ms)
      ensures VersionOk(store.getId, scope, old(Model()), ms, r) && MarkOk(store.getId, scope, old(Model()), ms, r)
      ensures store.batchDepth == 0 ==>
                store.version == old(store.version) + if EmitsAny(store.getId, scope, old(Model()), ms) then 1 else 0
    {
      hide Fold, Tallied, EmitsAny, VersionOk, MarkOk;
      TallyVersions(store.getId, scope, Model(), ms);
      TallyMarks(store.getId, scope, Model(), ms);
      store.BeginBatch();
      r := ApplyEach(ms);
      store.EndBatch();
    }

    method Reset()
      requires Valid()
      modifies this, store, store.byId
      ensures Valid() && Model() == EMPTY && store.HistoryKept()
    {
      versions := map[];
      store.Reset();
    }
  }

  lemma NoneYet(getId: Record -> string, scope: Scope, s: State, ms: seq<Mutation>)
    ensures Fold(getId, scope, s, ms[..0]) == s && Tallied(getId, scope, s, ms[..0]) == Tally(0, 0, None, None)
    ensures !EmitsAny(getId, scope, s, ms[..0])
  {
  }

  lemma OneMore(getId: Record -> string, scope: Scope, s: State, ms: seq<Mutation>, i: nat)
    requires i < |ms|
    ensures var now := Fold(getId, scope, s, ms[..i]);
            && Fold(getId, scope, s, ms[..i + 1]) == Apply(getId, scope, now, ms[i])
            && Tallied(getId, scope, s, ms[..i + 1]) ==
               Counted(Tallied(getId, scope, s, ms[..i]), Accepts(scope, now, ms[i]), ms[i])
            && (EmitsAny(getId, scope, s, ms[..i + 1]) <==>
                EmitsAny(getId, scope, s, ms[..i]) || Emits(scope, now, ms[i]))
  {
    assert ms[..i + 1][..i] == ms[..i];
    EmitsMore(getId, scope, s, ms, i);
  }

  lemma EmitsMore(getId: Record -> string, scope: Scope, s: State, ms: seq<Mutation>, i: nat)
    requires i < |ms|
    ensures EmitsAny(getId, scope, s, ms[..i + 1]) <==>
            EmitsAny(getId, scope, s, ms[..i]) || Emits(scope, Fold(getId, scope, s, ms[..i]), ms[i])
  {
    hide Fold, Emits;
    var a, b := ms[..i], ms[..i + 1];
    assert b[..i] == a;
    forall k | 0 <= k < i ensures b[..k] == a[..k] && b[k] == a[k] {}
    if EmitsAny(getId, scope, s, a) {
      var k :| 0 <= k < |a| && Emits(scope, Fold(getId, scope, s, a[..k]), a[k]);
      assert Emits(scope, Fold(getId, scope, s, b[..k]), b[k]);
    }
    if EmitsAny(getId, scope, s, b) {
      var k :| 0 <= k < |b| && Emits(scope, Fold(getId, scope, s, b[..k]), b[k]);
      if k < i { assert Emits(scope, Fold(getId, scope, s, a[..k]), a[k]); }
    }
    if Emits(scope, Fold(getId, scope, s, a), ms[i]) {
      assert Emits(scope, Fold(getId, scope, s, b[..i]), b[i]);
    }
  }
}
