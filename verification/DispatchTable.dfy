/** The published lane table as the bytes of one buffer, and the stores that fill a buffer. */
module DispatchTable {
  import opened Common
  import opened Bytes
  import D = Dispatch

  const BUFFER_BYTES: nat := 2048
  const CLEARS: nat := 64
  const STORES_PER_ROW: nat := 92

  type Table = t: seq<D.Lane> | |t| == D.MAX_LANES witness seq(D.MAX_LANES, _ => D.Lane(0, 0, 0, 0, 0, 0))

  predicate TableFits(t: Table) { forall i :: 0 <= i < D.MAX_LANES ==> D.LaneFits(t[i]) }

  // Rows are positional and share one generation; unlisted slots are retired.
  function Positional(rows: seq<D.Lane>, generation: nat): (t: Table)
    requires |rows| <= D.MAX_LANES
  {
    seq(D.MAX_LANES, i requires 0 <= i < D.MAX_LANES =>
      if i < |rows| then rows[i].(laneID := i, generation := generation)
      else D.Lane(0, 0, i, D.GLOBAL, 0, generation))
  }

  function Zero(): Table { seq(D.MAX_LANES, _ => D.Lane(0, 0, 0, 0, 0, 0)) }

  function Byte(t: Table, j: nat): byte
    requires j < BUFFER_BYTES
  {
    D.Encode(t[j / D.ROW_BYTES])[j % D.ROW_BYTES]
  }

  function TableBytes(t: Table): (b: seq<byte>)
    ensures |b| == BUFFER_BYTES
  {
    seq(BUFFER_BYTES, j requires 0 <= j < BUFFER_BYTES => Byte(t, j))
  }

  function DecodeTable(b: seq<byte>): (t: Table)
    requires |b| == BUFFER_BYTES
  {
    seq(D.MAX_LANES, i requires 0 <= i < D.MAX_LANES => D.Decode(b[i * D.ROW_BYTES..i * D.ROW_BYTES + D.ROW_BYTES]))
  }

  lemma RowSlice(t: Table, i: nat)
    requires i < D.MAX_LANES
    ensures TableBytes(t)[i * D.ROW_BYTES..i * D.ROW_BYTES + D.ROW_BYTES] == D.Encode(t[i])
  {
    hide D.Encode;
    var row := TableBytes(t)[i * D.ROW_BYTES..i * D.ROW_BYTES + D.ROW_BYTES];
    forall k | 0 <= k < D.ROW_BYTES ensures row[k] == D.Encode(t[i])[k] {
      var j := i * D.ROW_BYTES + k;
      assert j / D.ROW_BYTES == i && j % D.ROW_BYTES == k;
      assert row[k] == Byte(t, j);
    }
  }

  /** A buffer holding a table decodes to that table. */
  lemma TableRoundTrip(t: Table)
    requires TableFits(t)
    ensures DecodeTable(TableBytes(t)) == t
  {
    hide D.Encode, D.Decode, TableBytes;
    forall i | 0 <= i < D.MAX_LANES ensures DecodeTable(TableBytes(t))[i] == t[i] {
      RowSlice(t, i);
      D.RowRoundTrip(t[i]);
    }
  }

  /** Every published row carries its own slot as lane id and the common generation. */
  lemma PositionalRows(rows: seq<D.Lane>, generation: nat, i: nat)
    requires |rows| <= D.MAX_LANES && i < D.MAX_LANES && generation < U32
    requires forall k :: 0 <= k < |rows| ==> D.LaneFits(rows[k])
    ensures var t := Positional(rows, generation);
            && TableFits(t) && t[i].laneID == i && t[i].generation == generation
            && (i < |rows| ==>
                  && t[i].classes == rows[i].classes && t[i].bloom == rows[i].bloom
                  && t[i].jurisdiction == rows[i].jurisdiction && t[i].maxConcurrency == rows[i].maxConcurrency)
            && (i >= |rows| ==>
                  t[i].classes == 0 && t[i].bloom == 0 && t[i].jurisdiction == 0 && t[i].maxConcurrency == 0)
  {
  }

  // Store r of the row in `slot`: 64 clears, then the 28 bytes of its fields.
  function StoreAt(t: Table, slot: nat, r: nat): (nat, byte)
    requires slot < D.MAX_LANES && r < STORES_PER_ROW
  {
    if r < CLEARS then (slot * D.ROW_BYTES + r, 0)
    else (slot * D.ROW_BYTES + r - CLEARS, D.Encode(t[slot])[r - CLEARS])
  }

  predicate ByteDone(b: seq<byte>, t: Table, slot: nat, r: nat, j: nat)
    requires |b| == BUFFER_BYTES && j < BUFFER_BYTES
  {
    var row, k := j / D.ROW_BYTES, j % D.ROW_BYTES;
    && (row < slot ==> b[j] == Byte(t, j))
    && (row == slot && r <= CLEARS && k < r ==> b[j] == 0)
    && (row == slot && r > CLEARS && k < r - CLEARS ==> b[j] == Byte(t, j))
    && (row == slot && r > CLEARS && k >= r - CLEARS ==> b[j] == 0)
  }

  // The first `slot` rows are in place and r stores of the next have landed.
  predicate Progress(b: seq<byte>, t: Table, slot: nat, r: nat)
  {
    |b| == BUFFER_BYTES && slot <= D.MAX_LANES && r <= STORES_PER_ROW
    && forall j {:trigger ByteDone(b, t, slot, r, j)} :: 0 <= j < BUFFER_BYTES ==> ByteDone(b, t, slot, r, j)
  }

  lemma Started(b: seq<byte>, t: Table)
    requires |b| == BUFFER_BYTES
    ensures Progress(b, t, 0, 0)
  {
  }

  lemma StoreLands(b: seq<byte>, t: Table, slot: nat, r: nat)
    requires Progress(b, t, slot, r) && slot < D.MAX_LANES && r < STORES_PER_ROW
    ensures var (at, v) := StoreAt(t, slot, r); Progress(b[at := v], t, slot, r + 1)
  {
    hide D.Encode;
    var (at, v) := StoreAt(t, slot, r);
    var c, next := b[at := v], r + 1;
    forall j | 0 <= j < BUFFER_BYTES ensures ByteDone(c, t, slot, next, j) {
      assert ByteDone(b, t, slot, r, j);
    }
  }

  lemma RowDone(b: seq<byte>, t: Table, slot: nat)
    requires Progress(b, t, slot, STORES_PER_ROW) && slot < D.MAX_LANES
    ensures Progress(b, t, slot + 1, 0)
  {
    var next := slot + 1;
    forall j | 0 <= j < BUFFER_BYTES ensures ByteDone(b, t, next, 0, j) {
      assert ByteDone(b, t, slot, STORES_PER_ROW, j);
    }
  }

  /** When every row is in place the buffer is the table's bytes. */
  lemma BufferDone(b: seq<byte>, t: Table)
    requires Progress(b, t, D.MAX_LANES, 0)
    ensures b == TableBytes(t)
  {
    forall j | 0 <= j < BUFFER_BYTES ensures b[j] == TableBytes(t)[j] {
      assert ByteDone(b, t, D.MAX_LANES, 0, j);
    }
  }

  const REGION_BYTES: nat := 6208
  const FLIP_OFFSET: nat := 0
  const BUFFERS_OFFSET: nat := 2112

  // Panicked: a flip word that names no buffer makes the first row slice fall outside the region.
  datatype Published = Active(index: nat) | TooManyRows | Panicked

  datatype Snapshot = Lanes(t: Table) | NoBuffer

  // One dispatch region: the flip word, statistics rows and two table buffers.
  class Block {
    const raw: array<byte>

    constructor (region: array<byte>)
      requires region.Length == REGION_BYTES
      ensures raw == region
    {
      raw := region;
    }

    ghost function Flip(): nat
      requires raw.Length == REGION_BYTES
      reads raw
    {
      FromLE(raw[FLIP_OFFSET..FLIP_OFFSET + 4])
    }

    ghost function Buffer(i: nat): (b: seq<byte>)
      requires raw.Length == REGION_BYTES && i < 2
      reads raw
      ensures |b| == BUFFER_BYTES
    {
      raw[BUFFERS_OFFSET + i * BUFFER_BYTES..BUFFERS_OFFSET + i * BUFFER_BYTES + BUFFER_BYTES]
    }

    method Store(target: nat, at: nat, v: byte)
      requires raw.Length == REGION_BYTES && target < 2 && at < BUFFER_BYTES
      modifies raw
      ensures Buffer(target) == old(Buffer(target))[at := v] && Buffer(1 - target) == old(Buffer(1 - target))
      ensures raw[..BUFFERS_OFFSET] == old(raw[..BUFFERS_OFFSET])
    {
      raw[BUFFERS_OFFSET + target * BUFFER_BYTES + at] := v;
    }

    method StoreFlip(target: nat)
      requires raw.Length == REGION_BYTES && target < 2
      modifies raw
      ensures Flip() == target && Buffer(0) == old(Buffer(0)) && Buffer(1) == old(Buffer(1))
      ensures raw[4..BUFFERS_OFFSET] == old(raw[4..BUFFERS_OFFSET])
    {
      ghost var was := raw[..];
      Put32(raw, FLIP_OFFSET, target);
      Widths();
      LERoundTrip(target, 4);
      assert raw[0..4] == LE(target, 4);
      PatchElsewhere(was, 0, LE(target, 4), 4, BUFFERS_OFFSET);
      PatchElsewhere(was, 0, LE(target, 4), BUFFERS_OFFSET, BUFFERS_OFFSET + BUFFER_BYTES);
      PatchElsewhere(was, 0, LE(target, 4), BUFFERS_OFFSET + BUFFER_BYTES, REGION_BYTES);
    }

    // Clears one slot, then lays the row's fields over it.
    method EncodeInto(t: Table, target: nat, slot: nat)
      requires raw.Length == REGION_BYTES && target < 2 && slot < D.MAX_LANES
      requires Progress(Buffer(target), t, slot, 0)
      modifies raw
      ensures Progress(Buffer(target), t, slot + 1, 0)
      ensures Buffer(1 - target) == old(Buffer(1 - target))
      ensures raw[..BUFFERS_OFFSET] == old(raw[..BUFFERS_OFFSET])
    {
      hide Progress, D.Encode, Buffer;
      var k := 0;
      while k < D.ROW_BYTES
        invariant 0 <= k <= D.ROW_BYTES && Progress(Buffer(target), t, slot, k)
        invariant Buffer(1 - target) == old(Buffer(1 - target)) && raw[..BUFFERS_OFFSET] == old(raw[..BUFFERS_OFFSET])
      {
        StoreLands(Buffer(target), t, slot, k);
        Store(target, slot * D.ROW_BYTES + k, 0);
        k := k + 1;
      }
      var row := D.Encode(t[slot]);
      k := 0;
      while k < STORES_PER_ROW - CLEARS
        invariant 0 <= k <= STORES_PER_ROW - CLEARS && Progress(Buffer(target), t, slot, CLEARS + k)
        invariant Buffer(1 - target) == old(Buffer(1 - target)) && raw[..BUFFERS_OFFSET] == old(raw[..BUFFERS_OFFSET])
      {
        StoreLands(Buffer(target), t, slot, CLEARS + k);
        Store(target, slot * D.ROW_BYTES + k, row[k]);
        k := k + 1;
      }
      RowDone(Buffer(target), t, slot);
    }

    /**
     Fills the idle buffer with the positional table, then flips; the other buffer is untouched.
     A flip word that selects no buffer fails before anything is written.
     */
    method PublishDescriptors(rows: seq<D.Lane>, generation: nat) returns (r: Published)
      requires raw.Length == REGION_BYTES
      modifies raw
      ensures r.TooManyRows? <==> |rows| > D.MAX_LANES
      ensures r.Panicked? <==> |rows| <= D.MAX_LANES && old(Flip()) >= 2
      ensures !r.Active? ==> raw[..] == old(raw[..])
      ensures r.Active? ==> old(Flip()) < 2 && r.index == Flip() == 1 - old(Flip())
      ensures r.Active? ==> Buffer(Flip()) == TableBytes(Positional(rows, generation))
      ensures r.Active? ==> Buffer(1 - Flip()) == old(Buffer(Flip()))
      ensures r.Active? ==> raw[4..BUFFERS_OFFSET] == old(raw[4..BUFFERS_OFFSET])
    {
      hide Progress, Positional, TableBytes, Buffer;
      if |rows| > D.MAX_LANES { return TooManyRows; }
      var active := Get32(raw, FLIP_OFFSET);
      Widths();
      LEBounded(raw[FLIP_OFFSET..FLIP_OFFSET + 4]);
      var target := (1 + U32 - active) % U32;
      if BUFFERS_OFFSET + target * BUFFER_BYTES + D.ROW_BYTES > raw.Length { return Panicked; }
      var t := Positional(rows, generation);
      Started(Buffer(target), t);
      var slot := 0;
      while slot < D.MAX_LANES
        invariant 0 <= slot <= D.MAX_LANES && Progress(Buffer(target), t, slot, 0)
        invariant Buffer(active) == old(Buffer(active)) && raw[..BUFFERS_OFFSET] == old(raw[..BUFFERS_OFFSET])
      {
        EncodeInto(t, target, slot);
        slot := slot + 1;
      }
      BufferDone(Buffer(target), t);
      assert raw[4..BUFFERS_OFFSET] == raw[..BUFFERS_OFFSET][4..] == old(raw[..BUFFERS_OFFSET])[4..];
      StoreFlip(target);
      r := Active(target);
    }

    /** Decodes the buffer the flip word selects. */
    method SnapshotDescriptors() returns (r: Snapshot)
      requires raw.Length == REGION_BYTES
      ensures r.Lanes? <==> Flip() < 2
      ensures r.Lanes? ==> r.t == DecodeTable(Buffer(Flip()))
    {
      hide D.Decode, FromLE;
      var active := Get32(raw, FLIP_OFFSET);
      if active >= 2 { return NoBuffer; }
      var base := BUFFERS_OFFSET + active * BUFFER_BYTES;
      var out: seq<D.Lane> := [];
      var slot := 0;
      while slot < D.MAX_LANES
        invariant 0 <= slot <= D.MAX_LANES && |out| == slot
        invariant forall i :: 0 <= i < slot ==> out[i] == DecodeTable(Buffer(active))[i]
      {
        var start := base + slot * D.ROW_BYTES;
        Subslice(raw[..], base, base + BUFFER_BYTES, slot * D.ROW_BYTES, slot * D.ROW_BYTES + D.ROW_BYTES);
        out := out + [D.Decode(raw[start..start + D.ROW_BYTES])];
        slot := slot + 1;
      }
      r := Lanes(out);
    }
  }

  /**
   A table published and read back: each listed row with its own slot as lane id and the
   generation of the publish, each other slot retired.
   */
  method PublishThenSnapshot(block: Block, rows: seq<D.Lane>, generation: nat) returns (p: Published, r: Snapshot)
    requires block.raw.Length == REGION_BYTES && generation < U32
    requires forall k :: 0 <= k < |rows| ==> D.LaneFits(rows[k])
    modifies block.raw
    ensures p.Active? <==> |rows| <= D.MAX_LANES && old(block.Flip()) < 2
    ensures p.Active? ==> r.Lanes?
    ensures p.Active? ==> forall i :: 0 <= i < |rows| ==> r.t[i] == rows[i].(laneID := i, generation := generation)
    ensures p.Active? ==> forall i :: |rows| <= i < D.MAX_LANES ==> r.t[i] == D.Lane(0, 0, i, 0, 0, generation)
  {
    hide DecodeTable, TableBytes, D.LaneFits;
    p := block.PublishDescriptors(rows, generation);
    r := block.SnapshotDescriptors();
    if p.Active? {
      PositionalRows(rows, generation, 0);
      TableRoundTrip(Positional(rows, generation));
    }
  }
}
