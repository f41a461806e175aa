/**
 The shared arena over its raw bytes. Header words, epochs and 32-byte table rows are
 little-endian; `Model` reads the table back as the abstract arena of ArenaSpec.
 */
module ArenaStore {
  import opened Common
  import opened Bytes
  import A = ArenaSpec

  const HEADER_MAGIC: nat := 1330400321
  const SCHEMA_VERSION: nat := 1
  const MAGIC: nat := 0
  const SCHEMA: nat := 4
  const CAPACITY: nat := 8
  const ALLOCATED_BYTES: nat := 12
  const ROWS_USED: nat := 16
  const DROPPED: nat := 20
  const FLAGS: nat := 24
  const EPOCH_READY: nat := A.EPOCHS_OFFSET
  const EPOCH_HEAD: nat := A.EPOCHS_OFFSET + 4
  const EPOCH_DESCRIPTOR: nat := A.EPOCHS_OFFSET + 8

  function Word(s: seq<byte>, off: nat): nat
    requires off + 4 <= |s|
  {
    FromLE(s[off..off + 4])
  }

  function RowAt(id: nat): nat { A.TABLE_OFFSET + id * A.DESCRIPTOR_SIZE }

  function Row(s: seq<byte>, id: nat): (row: seq<byte>)
    requires |s| >= A.MIN_BYTES && id < A.DESCRIPTOR_COUNT
    ensures |row| == A.DESCRIPTOR_SIZE
  {
    s[RowAt(id)..RowAt(id) + A.DESCRIPTOR_SIZE]
  }

  function EntryOf(row: seq<byte>): A.Slab
    requires |row| == A.DESCRIPTOR_SIZE
  {
    A.Slab(Word(row, 0), Word(row, 4), Word(row, 8), Word(row, 12), Word(row, 16), Word(row, 20))
  }

  function RowOf(d: A.Slab, id: nat): (row: seq<byte>)
    ensures |row| == A.DESCRIPTOR_SIZE
  {
    LE(d.state, 4) + LE(d.offset, 4) + LE(d.length, 4) + LE(d.capacity, 4)
    + LE(d.slabType, 4) + LE(d.flags, 4) + LE(id + 1, 4) + LE(0, 4)
  }

  predicate Fits(d: A.Slab)
  {
    && d.state < U32 && d.offset < U32 && d.length < U32
    && d.capacity < U32 && d.slabType < U32 && d.flags < U32
  }

  /** A table row read back is the descriptor that was written. */
  lemma RowRoundTrip(d: A.Slab, id: nat)
    requires Fits(d)
    ensures EntryOf(RowOf(d, id)) == d
  {
    Widths();
    var row := RowOf(d, id);
    assert row[0..4] == LE(d.state, 4) && row[4..8] == LE(d.offset, 4) && row[8..12] == LE(d.length, 4);
    assert row[12..16] == LE(d.capacity, 4) && row[16..20] == LE(d.slabType, 4) && row[20..24] == LE(d.flags, 4);
    LERoundTrip(d.state, 4);
    LERoundTrip(d.offset, 4);
    LERoundTrip(d.length, 4);
    LERoundTrip(d.capacity, 4);
    LERoundTrip(d.slabType, 4);
    LERoundTrip(d.flags, 4);
  }

  /** A row is stamped with its producer epoch, one past its id, and a consumer epoch of zero. */
  lemma RowEpochs(d: A.Slab, id: nat)
    requires id + 1 < U32
    ensures Word(RowOf(d, id), 24) == id + 1 && Word(RowOf(d, id), 28) == 0
  {
    hide LE, FromLE;
    Widths();
    var row := RowOf(d, id);
    assert row[24..28] == LE(id + 1, 4);
    assert row[28..32] == LE(0, 4);
    LERoundTrip(id + 1, 4);
    LERoundTrip(0, 4);
  }

  function Table(s: seq<byte>, n: nat): (t: seq<A.Slab>)
    requires |s| >= A.MIN_BYTES && n <= A.DESCRIPTOR_COUNT
    ensures |t| == n
  {
    seq(n, id requires 0 <= id < n => EntryOf(Row(s, id)))
  }

  // The bytes a table entry addresses, bounds re-derived from the row.
  function SlabBytes(s: seq<byte>, id: nat): Option<seq<byte>>
    requires |s| >= A.MIN_BYTES
  {
    if id >= A.DESCRIPTOR_COUNT then None
    else
      var e := EntryOf(Row(s, id));
      if e.offset < A.PAGES_OFFSET || e.offset + e.length > |s| then None
      else Some(s[e.offset..e.offset + e.length])
  }

  function Zeros(n: nat): (z: seq<byte>)
    ensures |z| == n && forall k :: 0 <= k < n ==> z[k] == 0
  {
    seq(n, _ => 0)
  }

  predicate TailClear(s: seq<byte>, n: nat)
    requires |s| >= A.MIN_BYTES
  {
    forall id :: n <= id < A.DESCRIPTOR_COUNT ==> Row(s, id) == Zeros(A.DESCRIPTOR_SIZE)
  }

  predicate HeaderOk(s: seq<byte>, head: nat, rows: nat)
    requires |s| >= A.MIN_BYTES
  {
    && Word(s, MAGIC) == HEADER_MAGIC && Word(s, SCHEMA) == SCHEMA_VERSION && Word(s, CAPACITY) == |s|
    && Word(s, ALLOCATED_BYTES) == head && Word(s, EPOCH_HEAD) == head && Word(s, ROWS_USED) == rows
    && Word(s, DROPPED) == 0 && Word(s, FLAGS) == 0 && Word(s, EPOCH_READY) == 1
  }

  // Only header and epoch words may differ.
  predicate SameData(s: seq<byte>, t: seq<byte>)
  {
    |s| == |t| >= A.MIN_BYTES && s[A.TABLE_OFFSET..] == t[A.TABLE_OFFSET..]
  }

  lemma SliceFrom(s: seq<byte>, t: seq<byte>, from: nat, lo: nat, hi: nat)
    requires |s| == |t| && from <= lo <= hi <= |s| && s[from..] == t[from..]
    ensures s[lo..hi] == t[lo..hi]
  {
    forall k | lo <= k < hi ensures s[k] == t[k] {
      assert s[k] == s[from..][k - from] && t[k] == t[from..][k - from];
    }
  }

  lemma DataKept(s: seq<byte>, t: seq<byte>, n: nat)
    requires SameData(s, t) && n <= A.DESCRIPTOR_COUNT
    ensures Table(s, n) == Table(t, n) && (TailClear(s, n) ==> TailClear(t, n))
    ensures forall id :: 0 <= id ==> SlabBytes(s, id) == SlabBytes(t, id)
  {
    forall id | 0 <= id < A.DESCRIPTOR_COUNT ensures Row(s, id) == Row(t, id) {
      SliceFrom(s, t, A.TABLE_OFFSET, RowAt(id), RowAt(id) + A.DESCRIPTOR_SIZE);
    }
    forall id | 0 <= id ensures SlabBytes(s, id) == SlabBytes(t, id) {
      if id < A.DESCRIPTOR_COUNT {
        var e := EntryOf(Row(s, id));
        if A.PAGES_OFFSET <= e.offset && e.offset + e.length <= |s| {
          SliceFrom(s, t, A.TABLE_OFFSET, e.offset, e.offset + e.length);
        }
      }
    }
  }

  /** Writing one row changes that row alone and no slab bytes. */
  lemma RowWritten(s: seq<byte>, d: A.Slab, id: nat)
    requires |s| >= A.MIN_BYTES && id < A.DESCRIPTOR_COUNT && Fits(d)
    ensures var t := Patch(s, RowAt(id), RowOf(d, id));
            && EntryOf(Row(t, id)) == d
            && (forall k :: 0 <= k < A.DESCRIPTOR_COUNT && k != id ==> Row(t, k) == Row(s, k))
            && t[A.PAGES_OFFSET..] == s[A.PAGES_OFFSET..]
            && t[..A.TABLE_OFFSET] == s[..A.TABLE_OFFSET]
  {
    var row := RowOf(d, id);
    var t := Patch(s, RowAt(id), row);
    RowRoundTrip(d, id);
    forall k | 0 <= k < A.DESCRIPTOR_COUNT && k != id ensures Row(t, k) == Row(s, k) {
      PatchElsewhere(s, RowAt(id), row, RowAt(k), RowAt(k) + A.DESCRIPTOR_SIZE);
    }
    PatchElsewhere(s, RowAt(id), row, A.PAGES_OFFSET, |s|);
    PatchElsewhere(s, RowAt(id), row, 0, A.TABLE_OFFSET);
  }

  lemma SlabsKept(s: seq<byte>, t: seq<byte>, id: nat)
    requires |s| == |t| >= A.MIN_BYTES && t[A.PAGES_OFFSET..] == s[A.PAGES_OFFSET..]
    requires id < A.DESCRIPTOR_COUNT
    requires EntryOf(Row(t, id)).offset == EntryOf(Row(s, id)).offset
    requires EntryOf(Row(t, id)).length == EntryOf(Row(s, id)).length
    ensures SlabBytes(t, id) == SlabBytes(s, id)
  {
    var e := EntryOf(Row(s, id));
    if A.PAGES_OFFSET <= e.offset && e.offset + e.length <= |s| {
      SliceFrom(s, t, A.PAGES_OFFSET, e.offset, e.offset + e.length);
    }
  }

  lemma ZeroRow(row: seq<byte>)
    requires row == Zeros(A.DESCRIPTOR_SIZE)
    ensures EntryOf(row).offset == 0
  {
    LERoundTrip(0, 4);
    LE4(0);
    assert row[4..8] == LE(0, 4);
  }

  /** Header words below the table, one changed: the others stay. */
  lemma WordPatched(s: seq<byte>, off: nat, v: nat)
    requires |s| >= A.MIN_BYTES && off + 4 <= A.TABLE_OFFSET && off % 4 == 0 && v < U32
    ensures var t := Patch(s, off, LE(v, 4));
            && SameData(s, t) && Word(t, off) == v
            && (forall k :: 0 <= k && k + 4 <= A.TABLE_OFFSET && k % 4 == 0 && k != off ==> Word(t, k) == Word(s, k))
  {
    Widths();
    LERoundTrip(v, 4);
    PatchElsewhere(s, off, LE(v, 4), A.TABLE_OFFSET, |s|);
    forall k | 0 <= k && k + 4 <= A.TABLE_OFFSET && k % 4 == 0 && k != off
      ensures Word(Patch(s, off, LE(v, 4)), k) == Word(s, k)
    {
      PatchElsewhere(s, off, LE(v, 4), k, k + 4);
    }
  }

  lemma Rewritten(was: seq<byte>, wrote: seq<byte>, now: seq<byte>, n: nat, id: nat, d: A.Slab)
    requires |was| >= A.MIN_BYTES && id < n <= A.DESCRIPTOR_COUNT && Fits(d)
    requires wrote == Patch(was, RowAt(id), RowOf(d, id)) && SameData(wrote, now)
    requires EntryOf(Row(was, id)).offset == d.offset && EntryOf(Row(was, id)).length == d.length
    ensures Table(now, n) == Table(was, n)[id := d]
    ensures TailClear(was, n) ==> TailClear(now, n)
    ensures forall k :: 0 <= k < n ==> SlabBytes(now, k) == SlabBytes(was, k)
  {
    RowWritten(was, d, id);
    DataKept(wrote, now, n);
    forall k | 0 <= k < n ensures SlabBytes(now, k) == SlabBytes(was, k) {
      SlabsKept(was, wrote, k);
    }
  }

  lemma Grown(was: seq<byte>, wrote: seq<byte>, now: seq<byte>, n: nat, d: A.Slab)
    requires |was| >= A.MIN_BYTES && n < A.DESCRIPTOR_COUNT && Fits(d)
    requires wrote == Patch(was, RowAt(n), RowOf(d, n)) && SameData(wrote, now)
    ensures Table(now, n + 1) == Table(was, n) + [d]
    ensures TailClear(was, n) ==> TailClear(now, n + 1)
    ensures forall k :: 0 <= k < n ==> SlabBytes(now, k) == SlabBytes(was, k)
  {
    RowWritten(was, d, n);
    DataKept(wrote, now, n + 1);
    forall k | 0 <= k < n ensures SlabBytes(now, k) == SlabBytes(was, k) {
      SlabsKept(was, wrote, k);
    }
  }

  lemma HeaderKept(s: seq<byte>, t: seq<byte>, head: nat, rows: nat)
    requires |s| == |t| >= A.MIN_BYTES && s[..A.TABLE_OFFSET] == t[..A.TABLE_OFFSET]
    ensures HeaderOk(s, head, rows) ==> HeaderOk(t, head, rows)
  {
    forall k: nat | k + 4 <= A.TABLE_OFFSET ensures Word(s, k) == Word(t, k) {
      assert s[k..k + 4] == s[..A.TABLE_OFFSET][k..k + 4] && t[k..k + 4] == t[..A.TABLE_OFFSET][k..k + 4];
    }
  }

  class Arena {
    const raw: array<byte>
    var allocHead: nat
    var nextID: nat
    var generation: nat

    ghost function Model(): A.Arena
      requires raw.Length >= A.MIN_BYTES && nextID <= A.DESCRIPTOR_COUNT
      reads this, raw
    {
      A.Arena(raw.Length, allocHead, Table(raw[..], nextID), generation)
    }

    // What each allocated descriptor addresses.
    ghost function Slabs(): (r: seq<Option<seq<byte>>>)
      requires raw.Length >= A.MIN_BYTES
      reads this, raw
      ensures |r| == nextID
    {
      var s := raw[..];
      seq(nextID, id requires 0 <= id => SlabBytes(s, id))
    }

    ghost predicate Valid()
      reads this, raw
    {
      && A.MIN_BYTES <= raw.Length <= A.MAX_BYTES
      && nextID <= A.DESCRIPTOR_COUNT && generation < U32
      && A.Chained(Model()) && TailClear(raw[..], nextID) && HeaderOk(raw[..], allocHead, nextID)
    }

    method PutWord(off: nat, value: nat)
      requires raw.Length >= A.MIN_BYTES && off + 4 <= A.TABLE_OFFSET && off % 4 == 0 && value < U32
      modifies raw
      ensures SameData(old(raw[..]), raw[..]) && Word(raw[..], off) == value
      ensures forall k :: 0 <= k && k + 4 <= A.TABLE_OFFSET && k % 4 == 0 && k != off ==>
                Word(raw[..], k) == Word(old(raw[..]), k)
    {
      WordPatched(raw[..], off, value);
      Put32(raw, off, value);
    }

    method WriteHeader()
      requires A.MIN_BYTES <= raw.Length <= A.MAX_BYTES
      modifies raw
      ensures SameData(old(raw[..]), raw[..]) && HeaderOk(raw[..], A.PAGES_OFFSET, 0)
    {
      PutWord(MAGIC, HEADER_MAGIC);
      PutWord(SCHEMA, SCHEMA_VERSION);
      PutWord(CAPACITY, raw.Length);
      PutWord(ALLOCATED_BYTES, A.PAGES_OFFSET);
      PutWord(ROWS_USED, 0);
      PutWord(DROPPED, 0);
      PutWord(FLAGS, 0);
      PutWord(EPOCH_HEAD, A.PAGES_OFFSET);
      PutWord(EPOCH_READY, 1);
    }

    method ClearTable()
      requires raw.Length >= A.MIN_BYTES
      modifies raw
      ensures TailClear(raw[..], 0) && raw[..A.TABLE_OFFSET] == old(raw[..A.TABLE_OFFSET])
    {
      var k := A.TABLE_OFFSET;
      while k < A.TABLE_OFFSET + A.TABLE_BYTES
        invariant A.TABLE_OFFSET <= k <= A.TABLE_OFFSET + A.TABLE_BYTES
        invariant forall j :: A.TABLE_OFFSET <= j < k ==> raw[j] == 0
        invariant raw[..A.TABLE_OFFSET] == old(raw[..A.TABLE_OFFSET])
      {
        raw[k] := 0;
        k := k + 1;
      }
    }

    /** Starts the next generation with an empty table, every row cleared. */
    method Reset()
      requires A.MIN_BYTES <= raw.Length <= A.MAX_BYTES && nextID <= A.DESCRIPTOR_COUNT && generation < U32
      modifies this, raw
      ensures Valid() && Model() == A.Step(old(Model()), A.Reset)
    {
      ClearTable();
      ghost var cleared := raw[..];
      WriteHeader();
      DataKept(cleared, raw[..], 0);
      allocHead := A.PAGES_OFFSET;
      nextID := 0;
      generation := (generation + 1) % U32;
    }

    /** Wraps a region of an admissible size; the first generation is 1. */
    constructor (region: array<byte>)
      requires A.MIN_BYTES <= region.Length <= A.MAX_BYTES
      modifies region
      ensures raw == region && Valid() && Model() == A.Fresh(region.Length, 1)
    {
      raw, allocHead, nextID, generation := region, A.PAGES_OFFSET, 0, 0;
      new;
      Reset();
    }

    // Extends a row written at base by one more word.
    method PutNext(ghost s: seq<byte>, ghost base: nat, ghost row: seq<byte>, off: nat, v: nat)
      requires base + |row| + 4 <= |s| == raw.Length && off == base + |row|
      requires raw[..] == Patch(s, base, row)
      modifies raw
      ensures raw[..] == Patch(s, base, row + LE(v, 4))
    {
      PatchChain(s, base, row, LE(v, 4));
      Put32(raw, off, v);
    }

    method WriteDescriptor(id: nat, d: A.Slab)
      requires raw.Length >= A.MIN_BYTES && id < A.DESCRIPTOR_COUNT
      modifies raw
      ensures raw[..] == Patch(old(raw[..]), RowAt(id), RowOf(d, id))
    {
      hide Patch, LE;
      ghost var s := raw[..];
      var base := RowAt(id);
      Put32(raw, base, d.state);
      ghost var row := LE(d.state, 4);
      PutNext(s, base, row, base + 4, d.offset);
      row := row + LE(d.offset, 4);
      PutNext(s, base, row, base + 8, d.length);
      row := row + LE(d.length, 4);
      PutNext(s, base, row, base + 12, d.capacity);
      row := row + LE(d.capacity, 4);
      PutNext(s, base, row, base + 16, d.slabType);
      row := row + LE(d.slabType, 4);
      PutNext(s, base, row, base + 20, d.flags);
      row := row + LE(d.flags, 4);
      PutNext(s, base, row, base + 24, id + 1);
      row := row + LE(id + 1, 4);
      PutNext(s, base, row, base + 28, 0);
    }

    // Appends one row and advances the head past its extent.
    method Enter(slab: A.Slab)
      requires A.MIN_BYTES <= raw.Length && nextID < A.DESCRIPTOR_COUNT && Fits(slab)
      requires allocHead + slab.capacity < U32
      requires TailClear(raw[..], nextID) && HeaderOk(raw[..], allocHead, nextID)
      modifies this, raw
      ensures nextID == old(nextID) + 1 && allocHead == old(allocHead) + slab.capacity
      ensures generation == old(generation)
      ensures Table(raw[..], nextID) == old(Table(raw[..], nextID)) + [slab]
      ensures TailClear(raw[..], nextID) && HeaderOk(raw[..], allocHead, nextID)
      ensures forall k :: 0 <= k < old(nextID) ==> SlabBytes(raw[..], k) == SlabBytes(old(raw[..]), k)
    {
      hide TailClear, Table, SlabBytes, EntryOf, Row, RowOf, Fits, LE;
      ghost var was := raw[..];
      var id := nextID;
      RowWritten(was, slab, id);
      WriteDescriptor(id, slab);
      ghost var wrote := raw[..];
      HeaderKept(was, wrote, allocHead, id);
      nextID := nextID + 1;
      allocHead := allocHead + slab.capacity;
      PutWord(ALLOCATED_BYTES, allocHead);
      PutWord(ROWS_USED, nextID);
      PutWord(EPOCH_HEAD, allocHead);
      Grown(was, wrote, raw[..], id, slab);
    }

    // Rewrites one row in place, same bounds.
    method Rewrite(id: nat, slab: A.Slab)
      requires A.MIN_BYTES <= raw.Length && id < nextID <= A.DESCRIPTOR_COUNT && Fits(slab)
      requires TailClear(raw[..], nextID) && HeaderOk(raw[..], allocHead, nextID)
      requires EntryOf(Row(raw[..], id)).offset == slab.offset && EntryOf(Row(raw[..], id)).length == slab.length
      modifies raw
      ensures Table(raw[..], nextID) == old(Table(raw[..], nextID))[id := slab]
      ensures TailClear(raw[..], nextID) && HeaderOk(raw[..], allocHead, nextID)
      ensures Word(raw[..], EPOCH_DESCRIPTOR) == id + 1
      ensures forall k :: 0 <= k < nextID ==> SlabBytes(raw[..], k) == SlabBytes(old(raw[..]), k)
    {
      hide TailClear, Table, SlabBytes, EntryOf, Row, RowOf, Fits, LE;
      ghost var was := raw[..];
      RowWritten(was, slab, id);
      WriteDescriptor(id, slab);
      ghost var wrote := raw[..];
      HeaderKept(was, wrote, allocHead, nextID);
      PutWord(EPOCH_DESCRIPTOR, id + 1);
      Rewritten(was, wrote, raw[..], nextID, id, slab);
    }

    /** Refines the abstract allocation; slabs already there keep their bytes. */
    method Allocate(length: nat, slabType: nat) returns (r: A.AllocResult)
      requires Valid() && length < U32 && slabType < U32
      modifies this, raw
      ensures Valid() && r == A.AllocateResult(old(Model()), length, slabType)
      ensures Model() == A.Allocating(old(Model()), length, slabType)
      ensures old(Slabs()) <= Slabs()
    {
      hide A.Chained, TailClear, Table, SlabBytes, HeaderOk, A.AlignToPage;
      if length == 0 { return A.ZeroLength; }
      if nextID >= A.DESCRIPTOR_COUNT { return A.TableFull; }
      var capacity := A.AlignToPage(length);
      var offset := allocHead;
      if offset + capacity > raw.Length { return A.CapacityExceeded; }
      var slab := A.Slab(A.ALLOCATED, offset, length, capacity, slabType, 0);
      A.StepChained(Model(), A.Allocate(length, slabType));
      var d := A.Descriptor(nextID, slab, generation);
      Enter(slab);
      r := if A.SliceOk(offset, length, capacity, raw.Length) then A.Allocated(d) else A.Panicked(d);
    }

    /** Refines the abstract commit: accepted exactly on a live ALLOCATED row with the same bounds. */
    method Commit(d: A.Descriptor) returns (ok: bool)
      requires Valid() && Fits(d.slab)
      modifies raw
      ensures Valid() && ok == A.Commits(old(Model()), d)
      ensures Model() == A.Committing(old(Model()), d) && Slabs() == old(Slabs())
      ensures ok ==> Word(raw[..], EPOCH_DESCRIPTOR) == d.id + 1
      ensures !ok ==> raw[..] == old(raw[..])
    {
      hide A.Chained, TailClear, SlabBytes, HeaderOk, EntryOf;
      if d.generation != generation || d.id >= nextID { return false; }
      var stored := EntryOf(raw[RowAt(d.id)..RowAt(d.id) + A.DESCRIPTOR_SIZE]);
      assert stored == Model().slabs[d.id];
      if stored.state != A.ALLOCATED || stored.offset != d.slab.offset || stored.length != d.slab.length
         || stored.capacity != d.slab.capacity || stored.slabType != d.slab.slabType {
        return false;
      }
      A.StepChained(Model(), A.Commit(d));
      Rewrite(d.id, d.slab.(state := A.READY));
      ok := true;
    }

    /** The bytes of a table entry; refused for any row not allocated in this generation. */
    method Slab(id: nat) returns (r: Option<seq<byte>>)
      requires Valid()
      ensures r == if id < nextID then Slabs()[id] else None
    {
      if id >= A.DESCRIPTOR_COUNT { return None; }
      var e := EntryOf(raw[RowAt(id)..RowAt(id) + A.DESCRIPTOR_SIZE]);
      assert e == EntryOf(Row(raw[..], id));
      if id >= nextID { ZeroRow(Row(raw[..], id)); }
      if e.offset < A.PAGES_OFFSET || e.offset + e.length > raw.Length { return None; }
      r := Some(raw[e.offset..e.offset + e.length]);
    }
  }

  /** Only a region between the size bounds becomes an arena. */
  method NewArenaOver(region: array<byte>) returns (r: Option<Arena>)
    modifies region
    ensures r.Some? <==> A.MIN_BYTES <= region.Length <= A.MAX_BYTES
    ensures r.Some? ==> r.value.raw == region && r.value.Valid() && r.value.Model() == A.Fresh(region.Length, 1)
    ensures r.None? ==> region[..] == old(region[..])
  {
    if region.Length < A.MIN_BYTES || region.Length > A.MAX_BYTES { return None; }
    var a := new Arena(region);
    r := Some(a);
  }
}
