/** Columnar batches: fixed-width columns and field tables written into arena slabs and read back. */
module Columnar {
  import opened Common
  import opened Bytes
  import opened ArenaStore
  import A = ArenaSpec

  const TYPE_BATCH: nat := 5
  const TYPE_VALUES: nat := 7
  const BATCH_MAGIC: nat := 1129460291
  const BATCH_SCHEMA: nat := 1
  const MAX_COLUMNS: nat := 1024
  const BATCH_HEADER_BYTES: nat := 32
  const FIELD_BYTES: nat := 64
  const ID_NONE: nat := 4294967295
  const LOGICAL_FLOAT: nat := 4
  const FIXED_WIDTH: nat := 1
  const MAX_ELEMENTS: nat := (U32 - 1) / 4

  // Length counts elements; values are 32-bit patterns.
  datatype Field = Field(fieldID: nat, logicalType: nat, length: nat, byteWidth: nat, values: nat)

  datatype Written<T> =
    | Done(value: T)
    | Empty
    | TooMany
    | BadShape
    | Refused(why: A.AllocResult)
    | CommitRefused

  datatype Batch = Batch(rows: nat, fields: seq<Field>) | Missing | Short | BadMagic | ManyColumns | Truncated

  predicate FieldFits(f: Field)
  {
    f.fieldID < U32 && f.logicalType < U32 && f.length < U32 && f.byteWidth < U32 && f.values < U32
  }

  function FieldOf(row: seq<byte>): Field
    requires |row| == FIELD_BYTES
  {
    Field(Word(row, 0), Word(row, 4), Word(row, 16), Word(row, 40), Word(row, 32))
  }

  function FieldRow(b: seq<byte>, i: nat): (row: seq<byte>)
    requires BATCH_HEADER_BYTES + FIELD_BYTES * (i + 1) <= |b|
    ensures |row| == FIELD_BYTES
  {
    b[BATCH_HEADER_BYTES + FIELD_BYTES * i..BATCH_HEADER_BYTES + FIELD_BYTES * (i + 1)]
  }

  // What a reader makes of a slab's bytes
  function BatchOf(slab: Option<seq<byte>>): Batch
  {
    if slab.None? then Missing
    else
      var b := slab.value;
      if |b| < BATCH_HEADER_BYTES then Short
      else if Word(b, 0) != BATCH_MAGIC then BadMagic
      else if Word(b, 12) > MAX_COLUMNS then ManyColumns
      else if |b| < BATCH_HEADER_BYTES + FIELD_BYTES * Word(b, 12) then Truncated
      else Batch(Word(b, 8), seq(Word(b, 12), i requires 0 <= i < Word(b, 12) => FieldOf(FieldRow(b, i))))
  }

  function ColumnOf(slab: Option<seq<byte>>, length: nat): Option<seq<nat>>
  {
    if slab.None? || |slab.value| < 4 * length then None
    else Some(seq(length, i requires 0 <= i < length => Word(slab.value, 4 * i)))
  }

  /** Bytes written inside one slab leave the table, the header and every other slab as they were. */
  lemma Filled(s: seq<byte>, n: nat, head: nat, generation: nat, id: nat, bytes: seq<byte>)
    requires |s| >= A.MIN_BYTES && id < n <= A.DESCRIPTOR_COUNT
    requires A.Chained(A.Arena(|s|, head, Table(s, n), generation))
    requires Table(s, n)[id].length == |bytes| <= A.MAX_LENGTH
    ensures var e := Table(s, n)[id];
            && e.offset + |bytes| <= |s|
            && var t := Patch(s, e.offset, bytes);
            && Table(t, n) == Table(s, n) && (TailClear(s, n) ==> TailClear(t, n))
            && HeaderOk(t, head, n) == HeaderOk(s, head, n)
            && SlabBytes(t, id) == Some(bytes)
            && (forall k :: 0 <= k < n && k != id ==> SlabBytes(t, k) == SlabBytes(s, k))
  {
    hide EntryOf, TailClear, HeaderOk;
    var e := Table(s, n)[id];
    A.AlignCovers(|bytes|);
    var t := Patch(s, e.offset, bytes);
    PatchElsewhere(s, e.offset, bytes, 0, A.TABLE_OFFSET);
    HeaderKept(s, t, head, n);
    HeaderKept(t, s, head, n);
    forall k | 0 <= k < A.DESCRIPTOR_COUNT ensures Row(t, k) == Row(s, k) {
      PatchElsewhere(s, e.offset, bytes, RowAt(k), RowAt(k) + A.DESCRIPTOR_SIZE);
    }
    TailKept(s, t, n);
    forall k | 0 <= k < n && k != id ensures SlabBytes(t, k) == SlabBytes(s, k) {
      var f := Table(s, n)[k];
      if f.offset + f.length <= |s| {
        A.AlignCovers(f.length);
        PatchElsewhere(s, e.offset, bytes, f.offset, f.offset + f.length);
      }
    }
  }

  lemma TailKept(s: seq<byte>, t: seq<byte>, n: nat)
    requires |s| == |t| >= A.MIN_BYTES
    requires forall k :: 0 <= k < A.DESCRIPTOR_COUNT ==> Row(t, k) == Row(s, k)
    ensures TailClear(s, n) ==> TailClear(t, n)
  {
  }

  // Writes words at `at` inside a slab whose bytes so far are b.
  method FillWords(raw: array<byte>, ghost s: seq<byte>, off: nat, ghost b: seq<byte>, at: nat, ws: seq<nat>)
    requires off + |b| <= |s| == raw.Length && at + 4 * |ws| <= |b|
    requires raw[..] == Patch(s, off, b)
    modifies raw
    ensures raw[..] == Patch(s, off, Patch(b, at, LEWords(ws)))
  {
    hide Patch, LE;
    var i := 0;
    PatchNothing(b, at);
    while i < |ws|
      invariant 0 <= i <= |ws|
      invariant raw[..] == Patch(s, off, Patch(b, at, LEWords(ws[..i])))
    {
      assert ws[..i + 1][..i] == ws[..i];
      PatchChain(b, at, LEWords(ws[..i]), LE(ws[i], 4));
      PatchAgain(s, off, Patch(b, at, LEWords(ws[..i])), at + 4 * i, LE(ws[i], 4));
      Put32(raw, off + at + 4 * i, ws[i]);
      i := i + 1;
    }
    assert ws[..i] == ws;
  }

  lemma PatchNothing(b: seq<byte>, at: nat)
    requires at <= |b|
    ensures Patch(b, at, LEWords([])) == b
  {
  }

  lemma PatchWhole(b: seq<byte>, t: seq<byte>)
    requires |t| == |b|
    ensures Patch(b, 0, t) == t
  {
  }

  /** A column written whole reads back word for word. */
  lemma ColumnRoundTrip(values: seq<nat>)
    requires Words32(values)
    ensures ColumnOf(Some(LEWords(values)), |values|) == Some(values)
  {
    hide LEWords, FromLE;
    forall i | 0 <= i < |values| ensures Word(LEWords(values), 4 * i) == values[i] {
      LEWordsAt(values, i);
    }
    assert ColumnOf(Some(LEWords(values)), |values|).value == values;
  }

  function FieldWords(f: Field): (ws: seq<nat>)
    ensures |ws| == 11
  {
    [f.fieldID, f.logicalType, FIXED_WIDTH, 0, f.length, 0, ID_NONE, ID_NONE, f.values, ID_NONE, f.byteWidth]
  }

  function HeaderWords(rows: nat, columns: nat): (ws: seq<nat>)
    ensures |ws| == 7
  {
    [BATCH_MAGIC, BATCH_SCHEMA, rows, columns, 0, ID_NONE, ID_NONE]
  }

  function WithField(b: seq<byte>, i: nat, f: Field): (r: seq<byte>)
    requires BATCH_HEADER_BYTES + FIELD_BYTES * (i + 1) <= |b|
    ensures |r| == |b|
  {
    var base := BATCH_HEADER_BYTES + FIELD_BYTES * i;
    Patch(Patch(b, base, LEWords(FieldWords(f))), base + 56, LEWords([ID_NONE]))
  }

  lemma WordIn(b: seq<byte>, at: nat, ws: seq<nat>, i: nat)
    requires at + 4 * |ws| <= |b| && Words32(ws) && i < |ws|
    ensures Word(Patch(b, at, LEWords(ws)), at + 4 * i) == ws[i]
  {
    hide LEWords, FromLE, Patch;
    LEWordsAt(ws, i);
    var t := Patch(b, at, LEWords(ws));
    assert t[at..at + 4 * |ws|] == LEWords(ws);
    Subslice(t, at, at + 4 * |ws|, 4 * i, 4 * i + 4);
  }

  // The words of a field row that a reader of dense columns leaves alone: fixed width, no flags, no
  // nulls, and no validity, offsets, auxiliary or dictionary descriptor.
  predicate DenseWords(row: seq<byte>)
    requires |row| == FIELD_BYTES
  {
    && Word(row, 8) == 1 && Word(row, 12) == 0 && Word(row, 20) == 0
    && Word(row, 24) == Word(row, 28) == Word(row, 36) == Word(row, 56) == 0xFFFF_FFFF
  }

  // Schema version, no flags, and no metadata or dictionary descriptor
  predicate HeaderRest(b: seq<byte>)
    requires |b| >= BATCH_HEADER_BYTES
  {
    Word(b, 4) == 1 && Word(b, 16) == 0 && Word(b, 20) == Word(b, 24) == 0xFFFF_FFFF
  }

  // What a slab needs beyond what ReadColumnarBatch reads
  predicate WireOk(slab: Option<seq<byte>>, columns: nat)
  {
    && slab.Some? && |slab.value| == BATCH_HEADER_BYTES + FIELD_BYTES * columns && HeaderRest(slab.value)
    && forall k :: 0 <= k < columns ==> DenseWords(FieldRow(slab.value, k))
  }

  lemma FieldSeen(b: seq<byte>, i: nat, f: Field)
    requires BATCH_HEADER_BYTES + FIELD_BYTES * (i + 1) <= |b| && FieldFits(f)
    ensures FieldOf(FieldRow(WithField(b, i, f), i)) == f && DenseWords(FieldRow(WithField(b, i, f), i))
  {
    hide LEWords, FromLE, Patch;
    var base := BATCH_HEADER_BYTES + FIELD_BYTES * i;
    var ws := FieldWords(f);
    var t := Patch(b, base, LEWords(ws));
    var r := WithField(b, i, f);
    forall k | 0 <= k < 11 ensures Word(FieldRow(r, i), 4 * k) == ws[k] {
      WordIn(b, base, ws, k);
      PatchElsewhere(t, base + 56, LEWords([ID_NONE]), base + 4 * k, base + 4 * k + 4);
      Subslice(r, base, base + FIELD_BYTES, 4 * k, 4 * k + 4);
    }
    assert Word(FieldRow(r, i), 4 * 0) == ws[0] && Word(FieldRow(r, i), 4 * 1) == ws[1];
    assert Word(FieldRow(r, i), 4 * 4) == ws[4] && Word(FieldRow(r, i), 4 * 10) == ws[10];
    assert Word(FieldRow(r, i), 4 * 8) == ws[8];
    assert Word(FieldRow(r, i), 4 * 2) == ws[2] && Word(FieldRow(r, i), 4 * 3) == ws[3];
    assert Word(FieldRow(r, i), 4 * 5) == ws[5] && Word(FieldRow(r, i), 4 * 6) == ws[6];
    assert Word(FieldRow(r, i), 4 * 7) == ws[7] && Word(FieldRow(r, i), 4 * 9) == ws[9];
    WordIn(t, base + 56, [ID_NONE], 0);
    Subslice(r, base, base + FIELD_BYTES, 56, 60);
  }

  lemma FieldElsewhere(b: seq<byte>, i: nat, f: Field, lo: nat, hi: nat)
    requires BATCH_HEADER_BYTES + FIELD_BYTES * (i + 1) <= |b| && lo <= hi <= BATCH_HEADER_BYTES + FIELD_BYTES * i
    ensures WithField(b, i, f)[lo..hi] == b[lo..hi]
  {
    var base := BATCH_HEADER_BYTES + FIELD_BYTES * i;
    PatchElsewhere(b, base, LEWords(FieldWords(f)), lo, hi);
    PatchElsewhere(Patch(b, base, LEWords(FieldWords(f))), base + 56, LEWords([ID_NONE]), lo, hi);
  }

  // The batch as far as its first i fields are written
  predicate Partial(b: seq<byte>, rows: nat, fields: seq<Field>, i: nat)
  {
    && |b| == BATCH_HEADER_BYTES + FIELD_BYTES * |fields| && i <= |fields|
    && Word(b, 0) == BATCH_MAGIC && Word(b, 8) == rows && Word(b, 12) == |fields| && HeaderRest(b)
    && forall k :: 0 <= k < i ==> FieldOf(FieldRow(b, k)) == fields[k] && DenseWords(FieldRow(b, k))
  }

  lemma HeaderSeen(b: seq<byte>, rows: nat, fields: seq<Field>)
    requires |b| == BATCH_HEADER_BYTES + FIELD_BYTES * |fields| && rows < U32 && |fields| <= MAX_COLUMNS
    ensures Partial(Patch(b, 0, LEWords(HeaderWords(rows, |fields|))), rows, fields, 0)
  {
    hide LEWords, FromLE, Patch, Word, FieldOf;
    var ws := HeaderWords(rows, |fields|);
    assert Words32(ws);
    WordIn(b, 0, ws, 0);
    WordIn(b, 0, ws, 1);
    WordIn(b, 0, ws, 2);
    WordIn(b, 0, ws, 3);
    WordIn(b, 0, ws, 4);
    WordIn(b, 0, ws, 5);
    WordIn(b, 0, ws, 6);
  }

  lemma PartialGrows(b: seq<byte>, rows: nat, fields: seq<Field>, i: nat)
    requires Partial(b, rows, fields, i) && i < |fields| && FieldFits(fields[i])
    ensures Partial(WithField(b, i, fields[i]), rows, fields, i + 1)
  {
    hide FromLE, WithField, FieldOf, DenseWords;
    var r := WithField(b, i, fields[i]);
    FieldSeen(b, i, fields[i]);
    FieldElsewhere(b, i, fields[i], 0, 4);
    FieldElsewhere(b, i, fields[i], 4, 8);
    FieldElsewhere(b, i, fields[i], 16, 20);
    FieldElsewhere(b, i, fields[i], 20, 24);
    FieldElsewhere(b, i, fields[i], 24, 28);
    FieldElsewhere(b, i, fields[i], 8, 12);
    FieldElsewhere(b, i, fields[i], 12, 16);
    forall k | 0 <= k < i ensures FieldRow(r, k) == FieldRow(b, k) {
      FieldElsewhere(b, i, fields[i], BATCH_HEADER_BYTES + FIELD_BYTES * k, BATCH_HEADER_BYTES + FIELD_BYTES * (k + 1));
    }
  }

  /** A field table written whole reads back as the same rows and fields. */
  lemma BatchRoundTrip(b: seq<byte>, rows: nat, fields: seq<Field>)
    requires Partial(b, rows, fields, |fields|) && |fields| <= MAX_COLUMNS
    ensures BatchOf(Some(b)) == Batch(rows, fields) && WireOk(Some(b), |fields|)
  {
    hide FromLE, FieldOf, DenseWords;
  }

  // The arena after an allocation and, when it hands out a slab, the commit of that slab
  function Published(a: A.Arena, length: nat, slabType: nat): A.Arena
    requires length < U32
  {
    var r := A.AllocateResult(a, length, slabType);
    var b := A.Allocating(a, length, slabType);
    if r.Allocated? then A.Committing(b, r.d) else b
  }

  // Commits a slab whose bytes b were written over the region s.
  method Seal(arena: Arena, d: A.Descriptor, ghost s: seq<byte>, ghost b: seq<byte>) returns (ok: bool)
    requires A.MIN_BYTES <= |s| == arena.raw.Length <= A.MAX_BYTES && arena.generation < U32
    requires d.id < arena.nextID <= A.DESCRIPTOR_COUNT && d.generation == arena.generation && Fits(d.slab)
    requires A.Chained(A.Arena(|s|, arena.allocHead, Table(s, arena.nextID), arena.generation))
    requires TailClear(s, arena.nextID) && HeaderOk(s, arena.allocHead, arena.nextID)
    requires Table(s, arena.nextID)[d.id] == d.slab && d.slab.state == A.ALLOCATED
    requires |b| == d.slab.length <= A.MAX_LENGTH && d.slab.offset + |b| <= |s|
    requires arena.raw[..] == Patch(s, d.slab.offset, b)
    modifies arena.raw
    ensures ok && arena.Valid()
    ensures arena.Model() ==
            A.Committing(A.Arena(|s|, arena.allocHead, Table(s, arena.nextID), arena.generation), d)
    ensures arena.Slabs()[d.id] == Some(b)
    ensures forall k :: 0 <= k < arena.nextID && k != d.id ==> arena.Slabs()[k] == SlabBytes(s, k)
  {
    hide A.Chained, TailClear, HeaderOk, Table, SlabBytes, Patch;
    Filled(s, arena.nextID, arena.allocHead, arena.generation, d.id, b);
    assert arena.Slabs()[d.id] == Some(b);
    ok := arena.Commit(d);
  }

  // A slab just handed out, as the bytes it holds before it is written.
  ghost function SlabStart(arena: Arena, d: A.Descriptor): (b: seq<byte>)
    requires arena.Valid() && d.id < arena.nextID && arena.Model().slabs[d.id] == d.slab
    requires d.slab.length <= A.MAX_LENGTH
    reads arena, arena.raw
    ensures |b| == d.slab.length && d.slab.offset + |b| <= arena.raw.Length && Fits(d.slab)
    ensures arena.raw[..] == Patch(arena.raw[..], d.slab.offset, b)
  {
    assert 0 < d.slab.length < U32 && d.slab.offset + d.slab.capacity <= arena.raw.Length;
    A.AlignCovers(d.slab.length);
    RowWords(Row(arena.raw[..], d.id));
    arena.raw[d.slab.offset..d.slab.offset + d.slab.length]
  }

  lemma RowWords(row: seq<byte>)
    requires |row| == A.DESCRIPTOR_SIZE
    ensures Fits(EntryOf(row))
  {
    Widths();
    LEBounded(row[0..4]);
    LEBounded(row[4..8]);
    LEBounded(row[8..12]);
    LEBounded(row[12..16]);
    LEBounded(row[16..20]);
    LEBounded(row[20..24]);
  }

  function ColumnOutcome(a: A.Arena, fieldID: nat, logicalType: nat, count: nat): Written<Field>
  {
    if count == 0 then Empty
    else if count > MAX_ELEMENTS then TooMany
    else
      var r := A.AllocateResult(a, count * 4, TYPE_VALUES);
      if r.Allocated? then Done(Field(fieldID, logicalType, count, 4, |a.slabs|)) else Refused(r)
  }

  /**
   Copies a column of 32-bit patterns into its own slab and publishes it. The slab reads
   back as the values, and slabs already there keep their bytes.
   */
  method WriteColumn(arena: Arena, fieldID: nat, logicalType: nat, values: seq<nat>) returns (r: Written<Field>)
    requires arena.Valid() && Words32(values)
    modifies arena, arena.raw
    ensures arena.Valid() && old(arena.Slabs()) <= arena.Slabs()
    ensures r == ColumnOutcome(old(arena.Model()), fieldID, logicalType, |values|)
    ensures 0 < |values| <= MAX_ELEMENTS ==> arena.Model() == Published(old(arena.Model()), |values| * 4, TYPE_VALUES)
    ensures r.Empty? || r.TooMany? ==> arena.Model() == old(arena.Model()) && arena.Slabs() == old(arena.Slabs())
    ensures r.Done? ==> r.value.values == arena.nextID - 1 == old(arena.nextID)
    ensures r.Done? ==>
              && r.value.fieldID == fieldID && r.value.logicalType == logicalType
              && r.value.length == |values| && r.value.byteWidth == 4
    ensures r.Done? ==> ColumnOf(arena.Slabs()[r.value.values], r.value.length) == Some(values)
  {
    hide A.Chained, TailClear, HeaderOk, Table, SlabBytes, Patch, A.AlignToPage, ColumnOf, LEWords;
    if |values| == 0 { return Empty; }
    if |values| > MAX_ELEMENTS { return TooMany; }
    A.PanicsExactlyPastTheLimit(arena.Model(), |values| * 4, TYPE_VALUES);
    var got := arena.Allocate(|values| * 4, TYPE_VALUES);
    if !got.Allocated? { return Refused(got); }
    var d := got.d;
    ghost var s := arena.raw[..];
    ghost var b := SlabStart(arena, d);
    FillWords(arena.raw, s, d.slab.offset, b, 0, values);
    PatchWhole(b, LEWords(values));
    var ok := Seal(arena, d, s, LEWords(values));
    if !ok { return CommitRefused; }
    ColumnRoundTrip(values);
    r := Done(Field(fieldID, logicalType, |values|, 4, d.id));
  }

  /** Writes a row-major matrix as one column; a shape that does not match the values touches nothing. */
  method WriteFloat32Matrix(arena: Arena, fieldID: nat, rows: nat, dimensions: nat, values: seq<nat>)
    returns (r: Written<Field>)
    requires arena.Valid() && Words32(values)
    modifies arena, arena.raw
    ensures arena.Valid() && old(arena.Slabs()) <= arena.Slabs()
    ensures r.BadShape? <==> rows == 0 || dimensions == 0 || |values| != rows * dimensions || |values| > MAX_ELEMENTS
    ensures r.BadShape? ==> arena.Model() == old(arena.Model()) && arena.Slabs() == old(arena.Slabs())
    ensures !r.BadShape? ==> r == ColumnOutcome(old(arena.Model()), fieldID, LOGICAL_FLOAT, rows * dimensions)
    ensures r.Done? ==> arena.nextID == old(arena.nextID) + 1
    ensures r.Done? ==> ColumnOf(arena.Slabs()[arena.nextID - 1], rows * dimensions) == Some(values)
  {
    hide A.Chained, TailClear, HeaderOk, Table, SlabBytes, ColumnOf, A.AllocateResult;
    if rows == 0 || dimensions == 0 { return BadShape; }
    var want := rows * dimensions;
    if want > MAX_ELEMENTS || |values| != want { return BadShape; }
    r := WriteColumn(arena, fieldID, LOGICAL_FLOAT, values);
  }

  function BatchOutcome(a: A.Arena, columns: nat): Written<nat>
  {
    if columns == 0 then Empty
    else if columns > MAX_COLUMNS then TooMany
    else
      var r := A.AllocateResult(a, BATCH_HEADER_BYTES + FIELD_BYTES * columns, TYPE_BATCH);
      if r.Allocated? then Done(|a.slabs|) else Refused(r)
  }

  // Writes the batch header, then the field table one descriptor at a time.
  method FillBatch(raw: array<byte>, ghost s: seq<byte>, off: nat, ghost b: seq<byte>, rows: nat, fields: seq<Field>)
    returns (ghost t: seq<byte>)
    requires off + |b| <= |s| == raw.Length && |b| == BATCH_HEADER_BYTES + FIELD_BYTES * |fields|
    requires raw[..] == Patch(s, off, b) && rows < U32 && |fields| <= MAX_COLUMNS
    requires forall k :: 0 <= k < |fields| ==> FieldFits(fields[k])
    modifies raw
    ensures |t| == |b| && raw[..] == Patch(s, off, t) && Partial(t, rows, fields, |fields|)
  {
    hide Patch, LEWords, Partial;
    FillWords(raw, s, off, b, 0, HeaderWords(rows, |fields|));
    t := Patch(b, 0, LEWords(HeaderWords(rows, |fields|)));
    HeaderSeen(b, rows, fields);
    var i := 0;
    var base := BATCH_HEADER_BYTES;
    while i < |fields|
      invariant 0 <= i <= |fields| && base == BATCH_HEADER_BYTES + FIELD_BYTES * i
      invariant |t| == |b| && raw[..] == Patch(s, off, t) && Partial(t, rows, fields, i)
    {
      PartialGrows(t, rows, fields, i);
      FillWords(raw, s, off, t, base, FieldWords(fields[i]));
      FillWords(raw, s, off, Patch(t, base, LEWords(FieldWords(fields[i]))), base + 56, [ID_NONE]);
      t := WithField(t, i, fields[i]);
      base := base + FIELD_BYTES;
      i := i + 1;
    }
  }

  /**
   Writes a batch header and field table and publishes them. The slab reads back as the
   same row count and fields, and slabs already there keep their bytes.
   */
  method WriteColumnarBatch(arena: Arena, rows: nat, fields: seq<Field>) returns (r: Written<nat>)
    requires arena.Valid() && rows < U32 && forall k :: 0 <= k < |fields| ==> FieldFits(fields[k])
    modifies arena, arena.raw
    ensures arena.Valid() && old(arena.Slabs()) <= arena.Slabs()
    ensures r == BatchOutcome(old(arena.Model()), |fields|)
    ensures 0 < |fields| <= MAX_COLUMNS ==>
              arena.Model() ==
              Published(old(arena.Model()), BATCH_HEADER_BYTES + FIELD_BYTES * |fields|, TYPE_BATCH)
    ensures r.Empty? || r.TooMany? ==> arena.Model() == old(arena.Model()) && arena.Slabs() == old(arena.Slabs())
    ensures r.Done? ==> r.value == arena.nextID - 1 == old(arena.nextID)
    ensures r.Done? ==> BatchOf(arena.Slabs()[r.value]) == Batch(rows, fields)
    ensures r.Done? ==> WireOk(arena.Slabs()[r.value], |fields|)
  {
    hide A.Chained, TailClear, HeaderOk, Table, SlabBytes, Patch, A.AlignToPage, BatchOf, Partial, FieldFits, WireOk;
    if |fields| == 0 { return Empty; }
    if |fields| > MAX_COLUMNS { return TooMany; }
    var size := BATCH_HEADER_BYTES + |fields| * FIELD_BYTES;
    A.PanicsExactlyPastTheLimit(arena.Model(), size, TYPE_BATCH);
    var got := arena.Allocate(size, TYPE_BATCH);
    if !got.Allocated? { return Refused(got); }
    var d := got.d;
    ghost var s := arena.raw[..];
    ghost var t := FillBatch(arena.raw, s, d.slab.offset, SlabStart(arena, d), rows, fields);
    var ok := Seal(arena, d, s, t);
    if !ok { return CommitRefused; }
    BatchRoundTrip(t, rows, fields);
    r := Done(d.id);
  }

  /** Reads a batch back, refusing a slab that is absent, short, unmarked or over-declared. */
  method ReadColumnarBatch(arena: Arena, id: nat) returns (r: Batch)
    requires arena.Valid()
    ensures r == BatchOf(if id < arena.nextID then arena.Slabs()[id] else None)
  {
    hide arena.Valid, FromLE, FieldOf, SlabBytes;
    var slab := arena.Slab(id);
    if slab.None? { return Missing; }
    var b := slab.value;
    if |b| < BATCH_HEADER_BYTES { return Short; }
    if Word(b, 0) != BATCH_MAGIC { return BadMagic; }
    var columns := Word(b, 12);
    if columns > MAX_COLUMNS { return ManyColumns; }
    if |b| < BATCH_HEADER_BYTES + columns * FIELD_BYTES { return Truncated; }
    var fields: seq<Field> := [];
    var i := 0;
    while i < columns
      invariant 0 <= i <= columns && |fields| == i
      invariant forall k :: 0 <= k < i ==> fields[k] == FieldOf(FieldRow(b, k))
    {
      var base := BATCH_HEADER_BYTES + i * FIELD_BYTES;
      fields := fields + [FieldOf(b[base..base + FIELD_BYTES])];
      i := i + 1;
    }
    r := Batch(Word(b, 8), fields);
  }

  /** Reads a column back, refusing a slab shorter than the declared length. */
  method ReadColumn(arena: Arena, field: Field) returns (r: Option<seq<nat>>)
    requires arena.Valid()
    ensures r == ColumnOf(if field.values < arena.nextID then arena.Slabs()[field.values] else None, field.length)
  {
    hide arena.Valid, FromLE, SlabBytes;
    var slab := arena.Slab(field.values);
    if slab.None? || |slab.value| < field.length * 4 { return None; }
    var out: seq<nat> := [];
    var i := 0;
    while i < field.length
      invariant 0 <= i <= field.length && |out| == i
      invariant forall k :: 0 <= k < i ==> out[k] == Word(slab.value, 4 * k)
    {
      out := out + [Word(slab.value, i * 4)];
      i := i + 1;
    }
    assert out == ColumnOf(slab, field.length).value;
    r := Some(out);
  }

  // Anything a producer does between two resets
  datatype Later =
    | Reserve(length: nat, slabType: nat)
    | Publish(d: A.Descriptor)
    | Column(fieldID: nat, logicalType: nat, values: seq<nat>)
    | FieldTable(rows: nat, fields: seq<Field>)

  predicate LaterOk(op: Later)
  {
    match op
    case Reserve(length, slabType) => length < U32 && slabType < U32
    case Publish(d) => Fits(d.slab)
    case Column(_, _, values) => Words32(values)
    case FieldTable(rows, fields) => rows < U32 && forall k :: 0 <= k < |fields| ==> FieldFits(fields[k])
  }

  /** Whatever is allocated, committed and written before the next reset, every batch and column reads as before. */
  method RunLater(arena: Arena, ops: seq<Later>)
    requires arena.Valid() && forall k :: 0 <= k < |ops| ==> LaterOk(ops[k])
    modifies arena, arena.raw
    ensures arena.Valid() && old(arena.Slabs()) <= arena.Slabs()
    ensures forall id :: 0 <= id < old(arena.nextID) ==> BatchOf(arena.Slabs()[id]) == BatchOf(old(arena.Slabs())[id])
    ensures forall id, length: nat :: 0 <= id < old(arena.nextID) ==>
              ColumnOf(arena.Slabs()[id], length) == ColumnOf(old(arena.Slabs())[id], length)
  {
    hide A.Chained, TailClear, HeaderOk, Table, SlabBytes, BatchOf, ColumnOf;
    var k := 0;
    while k < |ops|
      invariant 0 <= k <= |ops| && arena.Valid() && old(arena.Slabs()) <= arena.Slabs()
    {
      assert LaterOk(ops[k]);
      match ops[k] {
        case Reserve(length, slabType) => var _ := arena.Allocate(length, slabType);
        case Publish(d) => var _ := arena.Commit(d);
        case Column(fieldID, logicalType, values) => var _ := WriteColumn(arena, fieldID, logicalType, values);
        case FieldTable(rows, fields) => var _ := WriteColumnarBatch(arena, rows, fields);
      }
      k := k + 1;
    }
  }
}
