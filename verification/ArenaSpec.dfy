/**
 The shared arena as a value: a bump allocator of page-aligned slabs with a descriptor
 table that resets clear. Runs of Reset, Allocate and Commit, and what they keep.
 */
module ArenaSpec {
  import opened Common

  const PAGE: nat := 4096
  const HEADER_BYTES: nat := 256
  const EPOCHS_OFFSET: nat := 256
  const EPOCHS_BYTES: nat := 256
  const TABLE_OFFSET: nat := 4096
  const TABLE_BYTES: nat := 16384
  const DESCRIPTOR_SIZE: nat := 32
  const DESCRIPTOR_COUNT: nat := 512
  const PAGES_OFFSET: nat := 131072
  const MIN_BYTES: nat := 1048576
  const MAX_BYTES: nat := 536870912
  const ALLOCATED: nat := 1
  const READY: nat := 2

  // The longest slab whose page rounding does not wrap in 32 bits.
  const MAX_LENGTH: nat := U32 - PAGE

  datatype Slab = Slab(state: nat, offset: nat, length: nat, capacity: nat, slabType: nat, flags: nat)

  // `generation` is the reset count modulo 2^32.
  datatype Arena = Arena(bytes: nat, head: nat, slabs: seq<Slab>, generation: nat)

  datatype Descriptor = Descriptor(id: nat, slab: Slab, generation: nat)

  // Panicked: the table entry was written, then slicing the region failed.
  datatype AllocResult =
    | Allocated(d: Descriptor)
    | Panicked(d: Descriptor)
    | ZeroLength
    | TableFull
    | CapacityExceeded

  datatype Op = Reset | Allocate(length: nat, slabType: nat) | Commit(d: Descriptor)

  // alignToPage, in 32-bit arithmetic
  function AlignToPage(n: nat): nat
    requires n < U32
  {
    if n == 0 then PAGE else (((n + PAGE - 1) % U32) / PAGE) * PAGE
  }

  /** The reserved extent covers the slab exactly when the rounding does not wrap. */
  lemma AlignCovers(n: nat)
    requires 0 < n < U32
    ensures AlignToPage(n) % PAGE == 0
    ensures n <= AlignToPage(n) <==> n <= MAX_LENGTH
    ensures n <= MAX_LENGTH ==> AlignToPage(n) < n + PAGE
    ensures n > MAX_LENGTH ==> AlignToPage(n) == 0
  {
  }

  // The slice raw[offset : offset+length : offset+capacity], bounds added in 32 bits
  predicate SliceOk(offset: nat, length: nat, capacity: nat, bytes: nat)
  {
    offset <= (offset + length) % U32 <= (offset + capacity) % U32 <= bytes
  }

  function Fresh(bytes: nat, generation: nat): Arena { Arena(bytes, PAGES_OFFSET, [], generation) }

  function AllocateResult(a: Arena, length: nat, slabType: nat): AllocResult
    requires length < U32
  {
    if length == 0 then ZeroLength
    else if |a.slabs| >= DESCRIPTOR_COUNT then TableFull
    else if a.head + AlignToPage(length) > a.bytes then CapacityExceeded
    else
      var slab := Slab(ALLOCATED, a.head, length, AlignToPage(length), slabType, 0);
      var d := Descriptor(|a.slabs|, slab, a.generation);
      if SliceOk(a.head, length, slab.capacity, a.bytes) then Allocated(d) else Panicked(d)
  }

  function Allocating(a: Arena, length: nat, slabType: nat): Arena
    requires length < U32
  {
    var r := AllocateResult(a, length, slabType);
    if r.Allocated? || r.Panicked? then a.(head := a.head + r.d.slab.capacity, slabs := a.slabs + [r.d.slab]) else a
  }

  // The only accepted edge: ALLOCATED to READY on the live table, same bounds and type.
  predicate Commits(a: Arena, d: Descriptor)
  {
    && d.generation == a.generation && d.id < |a.slabs|
    && a.slabs[d.id].state == ALLOCATED && a.slabs[d.id].offset == d.slab.offset
    && a.slabs[d.id].length == d.slab.length && a.slabs[d.id].capacity == d.slab.capacity
    && a.slabs[d.id].slabType == d.slab.slabType
  }

  function Committing(a: Arena, d: Descriptor): Arena
  {
    if Commits(a, d) then a.(slabs := a.slabs[d.id := a.slabs[d.id].(state := READY, flags := d.slab.flags)]) else a
  }

  predicate ValidOp(op: Op) { op.Allocate? ==> op.length < U32 }

  predicate ValidRun(run: seq<Op>) { forall k :: 0 <= k < |run| ==> ValidOp(run[k]) }

  function Step(a: Arena, op: Op): Arena
    requires ValidOp(op)
  {
    match op
    case Reset => Fresh(a.bytes, (a.generation + 1) % U32)
    case Allocate(length, slabType) => Allocating(a, length, slabType)
    case Commit(d) => Committing(a, d)
  }

  function Exec(a: Arena, run: seq<Op>): Arena
    requires ValidRun(run)
  {
    if run == [] then a else Step(Exec(a, run[..|run| - 1]), run[|run| - 1])
  }

  // Slabs lie end to end from the first page on, each with its page-rounded extent.
  predicate Chained(a: Arena)
  {
    && PAGES_OFFSET <= a.head <= a.bytes <= MAX_BYTES && a.head % PAGE == 0
    && |a.slabs| <= DESCRIPTOR_COUNT
    && (forall i :: 0 <= i < |a.slabs| ==>
          && 0 < a.slabs[i].length < U32
          && a.slabs[i].capacity == AlignToPage(a.slabs[i].length)
          && PAGES_OFFSET <= a.slabs[i].offset && a.slabs[i].offset % PAGE == 0
          && a.slabs[i].offset + a.slabs[i].capacity <= a.head
          && (a.slabs[i].state == ALLOCATED || a.slabs[i].state == READY))
    && (forall i, j :: 0 <= i < j < |a.slabs| ==>
          a.slabs[i].offset + a.slabs[i].capacity <= a.slabs[j].offset)
  }

  lemma StepChained(a: Arena, op: Op)
    requires Chained(a) && ValidOp(op)
    ensures Chained(Step(a, op)) && Step(a, op).bytes == a.bytes
  {
    if op.Allocate? && op.length > 0 { AlignCovers(op.length); }
  }

  lemma {:induction false} RunChained(bytes: nat, generation: nat, run: seq<Op>)
    requires MIN_BYTES <= bytes <= MAX_BYTES && ValidRun(run)
    ensures Chained(Exec(Fresh(bytes, generation), run)) && Exec(Fresh(bytes, generation), run).bytes == bytes
  {
    if run != [] {
      RunChained(bytes, generation, run[..|run| - 1]);
      StepChained(Exec(Fresh(bytes, generation), run[..|run| - 1]), run[|run| - 1]);
    }
  }

  /**
   After any run, every slab of the current generation starts on a page inside the page
   region, clear of header, epochs and descriptor table. It ends inside the region and
   before the next slab begins exactly when its length is within the rounding limit.
   */
  lemma SlabsAreSeparate(bytes: nat, generation: nat, run: seq<Op>, i: nat, j: nat)
    requires MIN_BYTES <= bytes <= MAX_BYTES && ValidRun(run)
    requires i < |Exec(Fresh(bytes, generation), run).slabs| && j < |Exec(Fresh(bytes, generation), run).slabs|
    ensures var a := Exec(Fresh(bytes, generation), run);
            var x, y := a.slabs[i], a.slabs[j];
            && x.offset % PAGE == 0 && x.offset >= PAGES_OFFSET
            && x.offset >= TABLE_OFFSET + TABLE_BYTES >= EPOCHS_OFFSET + EPOCHS_BYTES >= HEADER_BYTES
            && (x.length <= MAX_LENGTH <==> x.offset + x.length <= bytes)
            && (i < j ==> (x.length <= MAX_LENGTH <==> x.offset + x.length <= y.offset))
  {
    RunChained(bytes, generation, run);
    AlignCovers(Exec(Fresh(bytes, generation), run).slabs[i].length);
  }

  /** Exactly the accepted lengths past the limit write a table entry and then fail to slice the region. */
  lemma PanicsExactlyPastTheLimit(a: Arena, length: nat, slabType: nat)
    requires Chained(a) && length < U32
    ensures AllocateResult(a, length, slabType).Panicked? <==>
            length > MAX_LENGTH && |a.slabs| < DESCRIPTOR_COUNT
    ensures AllocateResult(a, length, slabType).Allocated? <==>
            0 < length <= MAX_LENGTH && |a.slabs| < DESCRIPTOR_COUNT && a.head + AlignToPage(length) <= a.bytes
  {
    if length > 0 { AlignCovers(length); }
  }

  /** A request gets the next id, the live generation and its own type, or the one refusal that applies. */
  lemma AllocationMeans(a: Arena, length: nat, slabType: nat)
    requires Chained(a) && length < U32
    ensures var r := AllocateResult(a, length, slabType);
            && (r.ZeroLength? <==> length == 0)
            && (r.TableFull? <==> length > 0 && |a.slabs| >= 512)
            && (r.CapacityExceeded? <==> length > 0 && |a.slabs| < 512 && a.head + AlignToPage(length) > a.bytes)
            && (r.Allocated? ==>
                  && r.d.id == |a.slabs| && r.d.generation == a.generation
                  && r.d.slab.slabType == slabType && r.d.slab.length == length && r.d.slab.flags == 0
                  && r.d.slab.state == 1 && r.d.slab.offset == a.head
                  && length <= r.d.slab.capacity < length + 4096 && r.d.slab.capacity % 4096 == 0
                  && Allocating(a, length, slabType).slabs == a.slabs + [r.d.slab])
            && (!r.Allocated? && !r.Panicked? ==> Allocating(a, length, slabType) == a)
  {
    if length > 0 { AlignCovers(length); }
  }

  // Slabs lie end to end from the first page, and the head is where the last one ends.
  predicate Packed(a: Arena)
  {
    && (forall i :: 0 < i < |a.slabs| ==> a.slabs[i].offset == a.slabs[i - 1].offset + a.slabs[i - 1].capacity)
    && (a.slabs == [] ==> a.head == PAGES_OFFSET)
    && (a.slabs != [] ==>
          && a.slabs[0].offset == PAGES_OFFSET
          && a.head == a.slabs[|a.slabs| - 1].offset + a.slabs[|a.slabs| - 1].capacity)
  }

  lemma FreshPacked(bytes: nat, generation: nat)
    ensures Packed(Fresh(bytes, generation))
  {
  }

  lemma StepPacked(a: Arena, op: Op)
    requires Packed(a) && ValidOp(op)
    ensures Packed(Step(a, op))
  {
    hide AlignToPage, SliceOk;
    var b := Step(a, op);
    if op.Commit? && Commits(a, op.d) {
      assert forall i :: 0 <= i < |a.slabs| ==>
               b.slabs[i].offset == a.slabs[i].offset && b.slabs[i].capacity == a.slabs[i].capacity;
    } else if op.Allocate? && b.slabs != a.slabs {
      assert forall i :: 0 <= i < |a.slabs| ==> b.slabs[i] == a.slabs[i];
    }
  }

  /** No page is skipped: after any run each slab starts where the one before it ends. */
  lemma {:induction false} RunPacked(bytes: nat, generation: nat, run: seq<Op>)
    requires ValidRun(run)
    ensures Packed(Exec(Fresh(bytes, generation), run))
  {
    hide Packed, Step;
    var a := Fresh(bytes, generation);
    if run == [] {
      FreshPacked(bytes, generation);
    } else {
      RunPacked(bytes, generation, run[..|run| - 1]);
      StepPacked(Exec(a, run[..|run| - 1]), run[|run| - 1]);
    }
  }

  /** A length past the limit is entered with an empty extent, so the next slab starts inside it. */
  lemma WrappedLengthOverlaps()
    ensures var run := [Allocate(U32 - 1, 0), Allocate(1, 0)];
            var a := Exec(Fresh(MIN_BYTES, 0), run);
            |a.slabs| == 2 && a.slabs[1].offset == a.slabs[0].offset && a.slabs[0].length == U32 - 1
  {
    var first, second := Allocate(U32 - 1, 0), Allocate(1, 0);
    var run := [first, second];
    AlignCovers(U32 - 1);
    var a := Fresh(MIN_BYTES, 0);
    assert Exec(a, []) == a;
    assert run[..1] == [first] && [first][..0] == [];
    assert Exec(a, [first]) == Step(a, first);
    assert Exec(a, run) == Step(Step(a, first), second);
  }

  /** Until the next reset a slab keeps its place, and once READY it stays READY. */
  lemma {:induction false} SlabsPersist(a: Arena, run: seq<Op>, i: nat)
    requires ValidRun(run) && i < |a.slabs|
    requires forall k :: 0 <= k < |run| ==> !run[k].Reset?
    ensures var b := Exec(a, run);
            && i < |b.slabs| && b.generation == a.generation
            && b.slabs[i].offset == a.slabs[i].offset && b.slabs[i].length == a.slabs[i].length
            && b.slabs[i].capacity == a.slabs[i].capacity && b.slabs[i].slabType == a.slabs[i].slabType
            && (a.slabs[i].state == READY ==> b.slabs[i] == a.slabs[i])
  {
    if run != [] {
      SlabsPersist(a, run[..|run| - 1], i);
    }
  }

  /** A commit that was accepted is never accepted again before a reset. */
  lemma CommitsOnce(a: Arena, d: Descriptor, run: seq<Op>, again: Descriptor)
    requires ValidRun(run) && Commits(a, d) && again.id == d.id
    requires forall k :: 0 <= k < |run| ==> !run[k].Reset?
    ensures Committing(a, d).slabs[d.id] == d.slab.(state := READY)
    ensures forall k :: 0 <= k < |a.slabs| && k != d.id ==> Committing(a, d).slabs[k] == a.slabs[k]
    ensures !Commits(Exec(Committing(a, d), run), again)
  {
    SlabsPersist(Committing(a, d), run, d.id);
  }

  function Resets(run: seq<Op>): nat
  {
    if run == [] then 0 else Resets(run[..|run| - 1]) + if run[|run| - 1].Reset? then 1 else 0
  }

  lemma ModShift(r: nat, k: nat)
    ensures (r % U32 + k) % U32 == r % U32 <==> k % U32 == 0
    ensures (r % U32 + k) % U32 == (r + k) % U32
  {
  }

  lemma {:induction false} ResetsCounted(a: Arena, run: seq<Op>)
    requires ValidRun(run) && a.generation < U32
    ensures Exec(a, run).generation == (a.generation + Resets(run)) % U32
  {
    if run != [] {
      var before := run[..|run| - 1];
      ResetsCounted(a, before);
      ModShift(a.generation + Resets(before), 1);
    }
  }

  /**
   A descriptor carries the live generation exactly when the resets since it was issued
   are a multiple of 2^32; otherwise its commit is refused whatever the table holds.
   */
  lemma StaleDescriptorRefused(a: Arena, d: Descriptor, run: seq<Op>)
    requires ValidRun(run) && a.generation < U32 && d.generation == a.generation
    ensures d.generation == Exec(a, run).generation <==> Resets(run) % U32 == 0
    ensures Resets(run) % U32 != 0 ==> !Commits(Exec(a, run), d) && Committing(Exec(a, run), d) == Exec(a, run)
  {
    ResetsCounted(a, run);
    ModShift(a.generation, Resets(run));
  }

  function Repeat(op: Op, n: nat): (run: seq<Op>)
    ensures |run| == n && forall k :: 0 <= k < n ==> run[k] == op
  {
    seq(n, _ => op)
  }

  lemma {:induction false} ResetRun(a: Arena, n: nat)
    requires a.generation < U32
    ensures Exec(a, Repeat(Reset, n)).generation == (a.generation + n) % U32
    ensures n > 0 ==> Exec(a, Repeat(Reset, n)) == Fresh(a.bytes, (a.generation + n) % U32)
    ensures Exec(a, Repeat(Reset, n)).bytes == a.bytes
  {
    if n > 0 {
      ResetRun(a, n - 1);
      assert Repeat(Reset, n)[..n - 1] == Repeat(Reset, n - 1);
      ModShift(a.generation + n - 1, 1);
    }
  }

  lemma ExecSplit(a: Arena, run: seq<Op>, op: Op)
    requires ValidRun(run) && ValidOp(op)
    ensures Exec(a, run + [op]) == Step(Exec(a, run), op)
  {
    assert (run + [op])[..|run|] == run;
  }

  /**
   The bound is tight: allocate, reset 2^32 times, allocate the same again, and the first
   descriptor, from before all those resets, is committed.
   */
  lemma StaleDescriptorCommits() returns (d: Descriptor, run: seq<Op>)
    ensures AllocateResult(Fresh(MIN_BYTES, 1), 1, 0) == Allocated(d)
    ensures ValidRun(run) && Resets(run) == U32
    ensures Commits(Exec(Allocating(Fresh(MIN_BYTES, 1), 1, 0), run), d)
  {
    var a := Fresh(MIN_BYTES, 1);
    AlignCovers(1);
    d := AllocateResult(a, 1, 0).d;
    var b := Allocating(a, 1, 0);
    ResetRun(b, U32);
    run := Repeat(Reset, U32) + [Allocate(1, 0)];
    ExecSplit(b, Repeat(Reset, U32), Allocate(1, 0));
    assert Exec(b, Repeat(Reset, U32)) == a;
    ManyResets(U32);
    assert run[..U32] == Repeat(Reset, U32);
  }

  lemma {:induction false} ManyResets(n: nat)
    ensures Resets(Repeat(Reset, n)) == n
  {
    if n > 0 {
      ManyResets(n - 1);
      assert Repeat(Reset, n)[..n - 1] == Repeat(Reset, n - 1);
    }
  }
}
