/**
 Publication under interleaving: one publisher fills the idle buffer store by store and
 flips, while any number of readers load the flip word and then read bytes in any order.
 */
module DispatchRuns {
  import opened Common
  import opened Bytes
  import opened DispatchTable
  import D = Dispatch

  datatype Publisher = Idle | Filling(t: Table, target: nat, slot: nat, r: nat)

  // History: `start` is the table current when the flip word was loaded; `overlap` counts the
  // publishes under way at that moment or begun since.
  datatype Reader = Reader(active: nat, got: map<nat, byte>, start: Table, overlap: nat)

  // History: `current` is the last table flipped in; `published` lists them all.
  datatype State = State(
    flip: nat,
    bufs: seq<seq<byte>>,
    pub: Publisher,
    current: Table,
    published: seq<Table>,
    readers: map<nat, Reader>)

  datatype Action =
    | Begin(rows: seq<D.Lane>, generation: nat)
    | Write
    | Flip
    | Load(reader: nat)
    | Read(reader: nat, j: nat)

  predicate ValidAction(a: Action)
  {
    a.Begin? ==> a.generation < U32 && forall k :: 0 <= k < |a.rows| ==> D.LaneFits(a.rows[k])
  }

  function Blank(): seq<byte> { seq(BUFFER_BYTES, _ => 0) }

  function Init(): State { State(0, [Blank(), Blank()], Idle, Zero(), [], map[]) }

  predicate Shaped(s: State)
  {
    && s.flip < 2 && |s.bufs| == 2 && |s.bufs[0]| == BUFFER_BYTES && |s.bufs[1]| == BUFFER_BYTES
    && (s.pub.Filling? ==> s.pub.target < 2 && s.pub.slot <= D.MAX_LANES && s.pub.r < STORES_PER_ROW)
    && forall id :: id in s.readers ==> s.readers[id].active < 2
  }

  function Overlapped(readers: map<nat, Reader>): (r: map<nat, Reader>)
    ensures r.Keys == readers.Keys
    ensures forall id :: id in r ==> r[id] == readers[id].(overlap := readers[id].overlap + 1)
  {
    map id | id in readers :: Reader(readers[id].active, readers[id].got, readers[id].start, readers[id].overlap + 1)
  }

  function Step(s: State, a: Action): (r: State)
    requires Shaped(s) && ValidAction(a)
    ensures Shaped(r)
  {
    match a
    case Begin(rows, generation) =>
      if s.pub.Idle? && |rows| <= D.MAX_LANES then
        s.(pub := Filling(Positional(rows, generation), 1 - s.flip, 0, 0),
           readers := Overlapped(s.readers))
      else s
    case Write =>
      if s.pub.Filling? && s.pub.slot < D.MAX_LANES then
        var store := StoreAt(s.pub.t, s.pub.slot, s.pub.r);
        var filled: seq<byte> := s.bufs[s.pub.target][store.0 := store.1];
        var last := s.pub.r + 1 == STORES_PER_ROW;
        s.(bufs := s.bufs[s.pub.target := filled],
           pub := Filling(s.pub.t, s.pub.target, if last then s.pub.slot + 1 else s.pub.slot,
                          if last then 0 else s.pub.r + 1))
      else s
    case Flip =>
      if s.pub.Filling? && s.pub.slot == D.MAX_LANES then
        s.(flip := s.pub.target, pub := Idle, current := s.pub.t, published := s.published + [s.pub.t])
      else s
    case Load(id) =>
      s.(readers := s.readers[id := Reader(s.flip, map[], s.current, if s.pub.Filling? then 1 else 0)])
    case Read(id, j) =>
      if id in s.readers && j < BUFFER_BYTES then
        var me := s.readers[id];
        s.(readers := s.readers[id := me.(got := me.got[j := s.bufs[me.active][j]])])
      else s
  }

  predicate ValidRun(run: seq<Action>) { forall k :: 0 <= k < |run| ==> ValidAction(run[k]) }

  // Lane ids positional, one generation
  predicate Uniform(t: Table)
  {
    forall i {:trigger t[i]} :: 0 <= i < D.MAX_LANES ==> t[i].laneID == i && t[i].generation == t[0].generation
  }

  predicate Known(s: State, t: Table) { t == Zero() || t in s.published }

  predicate GotFrom(got: map<nat, byte>, b: seq<byte>)
  {
    forall j :: j in got ==> j < |b| && got[j] == b[j]
  }

  predicate ReaderOk(s: State, id: nat)
    requires Shaped(s) && id in s.readers
  {
    var me := s.readers[id];
    && Known(s, me.start)
    && (me.overlap == 0 ==> s.pub.Idle? && s.flip == me.active)
    && (me.overlap <= 1 ==>
          && s.bufs[me.active] == TableBytes(me.start)
          && (s.pub.Filling? ==> s.flip == me.active)
          && GotFrom(me.got, TableBytes(me.start)))
  }

  predicate PubOk(s: State)
    requires Shaped(s)
  {
    s.pub.Filling? ==>
      && s.pub.target == 1 - s.flip && TableFits(s.pub.t) && Uniform(s.pub.t)
      && Progress(s.bufs[s.pub.target], s.pub.t, s.pub.slot, s.pub.r)
      && (s.pub.slot == D.MAX_LANES ==> s.pub.r == 0)
  }

  predicate Inv(s: State)
  {
    && Shaped(s) && PubOk(s)
    && s.bufs[s.flip] == TableBytes(s.current) && Known(s, s.current)
    && (forall k {:trigger s.published[k]} :: 0 <= k < |s.published| ==>
          TableFits(s.published[k]) && Uniform(s.published[k]))
    && forall id {:trigger ReaderOk(s, id)} :: id in s.readers ==> ReaderOk(s, id)
  }

  function Exec(run: seq<Action>): (s: State)
    requires ValidRun(run)
    ensures Shaped(s)
  {
    if run == [] then Init() else Step(Exec(run[..|run| - 1]), run[|run| - 1])
  }

  lemma BlankIsZero()
    ensures Blank() == TableBytes(Zero())
  {
    ZeroBytes(8);
    ZeroBytes(4);
    ZeroBytes(2);
    var row := D.Encode(D.Lane(0, 0, 0, 0, 0, 0));
    assert forall k :: 0 <= k < D.ROW_BYTES ==> row[k] == 0;
    forall j | 0 <= j < BUFFER_BYTES ensures TableBytes(Zero())[j] == 0 {
      assert TableBytes(Zero())[j] == Byte(Zero(), j) == row[j % D.ROW_BYTES];
    }
  }

  lemma {:induction false} ZeroBytes(n: nat)
    ensures forall k :: 0 <= k < n ==> LE(0, n)[k] == 0
  {
    if n > 0 { ZeroBytes(n - 1); }
  }

  lemma BeginKeeps(s: State, a: Action)
    requires Inv(s) && ValidAction(a) && a.Begin?
    ensures Inv(Step(s, a))
  {
    hide TableBytes, D.LaneFits;
    var s' := Step(s, a);
    if s' != s {
      var t := Positional(a.rows, a.generation);
      PositionalRows(a.rows, a.generation, 0);
      assert Uniform(t);
      Started(s.bufs[1 - s.flip], t);
      forall id | id in s'.readers ensures ReaderOk(s', id) {
        assert ReaderOk(s, id);
      }
    }
  }

  lemma WriteKeeps(s: State)
    requires Inv(s)
    ensures Inv(Step(s, Write))
  {
    hide TableBytes, D.LaneFits, Progress, TableFits, Uniform;
    var s' := Step(s, Write);
    if s.pub.Filling? && s.pub.slot < D.MAX_LANES {
      StoreLands(s.bufs[s.pub.target], s.pub.t, s.pub.slot, s.pub.r);
      if s.pub.r + 1 == STORES_PER_ROW { RowDone(s'.bufs[s.pub.target], s.pub.t, s.pub.slot); }
      forall id | id in s'.readers ensures ReaderOk(s', id) {
        assert ReaderOk(s, id);
      }
    }
  }

  lemma FlipKeeps(s: State)
    requires Inv(s)
    ensures Inv(Step(s, Flip))
  {
    hide TableBytes, D.LaneFits, Progress, TableFits, Uniform;
    var s' := Step(s, Flip);
    if s.pub.Filling? && s.pub.slot == D.MAX_LANES {
      BufferDone(s.bufs[s.pub.target], s.pub.t);
      assert s'.published[|s.published|] == s.pub.t;
      forall id | id in s'.readers ensures ReaderOk(s', id) {
        assert ReaderOk(s, id);
      }
    }
  }

  lemma ReadKeeps(s: State, a: Action)
    requires Inv(s) && (a.Load? || a.Read?)
    ensures Inv(Step(s, a))
  {
    hide TableBytes, D.LaneFits, Progress, TableFits, Uniform;
    var s' := Step(s, a);
    forall id | id in s'.readers ensures ReaderOk(s', id) {
      if id in s.readers { assert ReaderOk(s, id); }
    }
  }

  lemma {:induction false} RunKeeps(run: seq<Action>)
    requires ValidRun(run)
    ensures Inv(Exec(run))
  {
    if run == [] {
      BlankIsZero();
    } else {
      var a := run[|run| - 1];
      RunKeeps(run[..|run| - 1]);
      var s := Exec(run[..|run| - 1]);
      match a
      case Begin(_, _) => BeginKeeps(s, a);
      case Write => WriteKeeps(s);
      case Flip => FlipKeeps(s);
      case Load(_) => ReadKeeps(s, a);
      case Read(_, _) => ReadKeeps(s, a);
    }
  }

  predicate Complete(me: Reader) { forall j :: 0 <= j < BUFFER_BYTES ==> j in me.got }

  function Scanned(me: Reader): (b: seq<byte>)
    requires Complete(me)
    ensures |b| == BUFFER_BYTES
  {
    seq(BUFFER_BYTES, j requires 0 <= j < BUFFER_BYTES => me.got[j])
  }

  /**
   In every interleaving, a reader whose scan overlaps at most one publish decodes exactly
   the table that was current when it loaded the flip word: the initial zero table, or one
   wholly published table with positional lane ids and a single generation.
   */
  lemma ReaderSeesOneTable(run: seq<Action>, id: nat)
    requires ValidRun(run) && id in Exec(run).readers
    requires Complete(Exec(run).readers[id]) && Exec(run).readers[id].overlap <= 1
    ensures var me := Exec(run).readers[id];
            && DecodeTable(Scanned(me)) == me.start
            && (me.start == Zero() || (me.start in Exec(run).published && Uniform(me.start)))
  {
    hide DecodeTable, TableBytes, Uniform, TableFits;
    var s := Exec(run);
    var me := s.readers[id];
    RunKeeps(run);
    assert ReaderOk(s, id);
    assert Scanned(me) == TableBytes(me.start);
    ZeroFits();
    TableRoundTrip(me.start);
  }

  lemma ZeroFits()
    ensures TableFits(Zero())
  {
  }

  // A scan that two publishes overlap

  lemma ExecSnoc(run: seq<Action>, a: Action)
    requires ValidRun(run) && ValidAction(a)
    ensures ValidRun(run + [a]) && Exec(run + [a]) == Step(Exec(run), a)
  {
    assert (run + [a])[..|run|] == run;
  }

  /** The publisher, left alone, completes a publish: some run extension flips the table in. */
  lemma PublishRun(run: seq<Action>, rows: seq<D.Lane>, generation: nat) returns (r: seq<Action>)
    requires ValidRun(run) && ValidAction(Begin(rows, generation)) && |rows| <= D.MAX_LANES
    requires Exec(run).pub.Idle?
    ensures ValidRun(r)
    ensures var s, e, t := Exec(run), Exec(r), Positional(rows, generation);
            && e.pub.Idle? && e.flip == 1 - s.flip && e.bufs[1 - s.flip] == TableBytes(t)
            && e.bufs[s.flip] == s.bufs[s.flip] && e.readers == Overlapped(s.readers)
            && e.published == s.published + [t]
  {
    hide Exec, TableBytes, Positional, Progress, StoreAt;
    var t := Positional(rows, generation);
    ExecSnoc(run, Begin(rows, generation));
    var begun := run + [Begin(rows, generation)];
    var filled := FillRun(begun, D.MAX_LANES * STORES_PER_ROW);
    FilledBuffer(filled);
    ExecSnoc(filled, Flip);
    r := filled + [Flip];
  }

  // A filled target holds the table's bytes.
  lemma FilledBuffer(run: seq<Action>)
    requires ValidRun(run) && Exec(run).pub.Filling? && Exec(run).pub.slot == D.MAX_LANES
    ensures Exec(run).bufs[Exec(run).pub.target] == TableBytes(Exec(run).pub.t)
  {
    hide Exec, TableBytes, Progress, ReaderOk;
    RunKeeps(run);
    BufferDone(Exec(run).bufs[Exec(run).pub.target], Exec(run).pub.t);
  }

  function Left(p: Publisher): int
  {
    if p.Idle? then 0 else (D.MAX_LANES - p.slot) * STORES_PER_ROW - p.r
  }

  lemma {:induction false} FillRun(run: seq<Action>, n: nat) returns (r: seq<Action>)
    requires ValidRun(run) && Exec(run).pub.Filling? && Left(Exec(run).pub) == n
    ensures ValidRun(r) && Exec(r).pub.Filling? && Exec(r).pub.slot == D.MAX_LANES
    ensures var s, e := Exec(run), Exec(r);
            && e.pub.t == s.pub.t && e.pub.target == s.pub.target && e.flip == s.flip
            && e.bufs[1 - s.pub.target] == s.bufs[1 - s.pub.target]
            && e.readers == s.readers && e.published == s.published && e.current == s.current
    decreases n
  {
    hide Exec, StoreAt;
    if Exec(run).pub.slot == D.MAX_LANES { return run; }
    ExecSnoc(run, Write);
    r := FillRun(run + [Write], n - 1);
  }

  // Reads bytes from..2048 of the reader's buffer.
  lemma {:induction false} ScanRun(run: seq<Action>, id: nat, from: nat) returns (r: seq<Action>)
    requires ValidRun(run) && id in Exec(run).readers && from <= BUFFER_BYTES
    ensures ValidRun(r) && id in Exec(r).readers
    ensures Exec(r).bufs == Exec(run).bufs && Exec(r).published == Exec(run).published
    ensures Exec(r).readers[id].overlap == Exec(run).readers[id].overlap
    ensures Exec(r).readers[id].active == Exec(run).readers[id].active
    ensures forall j :: from <= j < BUFFER_BYTES ==>
              && j in Exec(r).readers[id].got
              && Exec(r).readers[id].got[j] == Exec(run).bufs[Exec(run).readers[id].active][j]
    ensures forall j :: 0 <= j < from ==>
              (j in Exec(r).readers[id].got <==> j in Exec(run).readers[id].got)
              && (j in Exec(run).readers[id].got ==> Exec(r).readers[id].got[j] == Exec(run).readers[id].got[j])
    decreases BUFFER_BYTES - from
  {
    if from == BUFFER_BYTES { return run; }
    ExecSnoc(run, Read(id, from));
    r := ScanRun(run + [Read(id, from)], id, from + 1);
  }

  function TornLane(): D.Lane { D.Lane(1, 0, 0, 0, 1, 0) }

  function TornTable(): Table { Positional([TornLane()], 2) }

  // The reader has one byte of the blank buffer, and n publishes of one table have gone by.
  ghost predicate Overtaken(s: State, n: nat)
    requires Shaped(s)
  {
    && s.pub.Idle? && 0 in s.readers
    && s.readers[0].active == 0 && s.readers[0].overlap == n && s.readers[0].got == map[0 := 0]
    && (forall t :: t in s.published ==> t == TornTable())
    && (n >= 1 ==> s.bufs[s.flip] == TableBytes(TornTable()))
    && (n >= 2 ==> s.bufs[1 - s.flip] == TableBytes(TornTable()))
  }

  lemma {:induction false} OvertakenRun(n: nat) returns (run: seq<Action>)
    ensures ValidRun(run) && Overtaken(Exec(run), n)
  {
    hide Exec, Step, TableBytes, Positional, Overtaken;
    if n == 0 {
      run := FirstByte();
      OvertakenStart(Exec(run));
    } else {
      var before := OvertakenRun(n - 1);
      OvertakenIdle(Exec(before), n - 1);
      run := PublishRun(before, [TornLane()], 2);
      OvertakenNext(Exec(before), Exec(run), n - 1);
    }
  }

  lemma OvertakenStart(s: State)
    requires Shaped(s) && s == Init().(readers := map[0 := Reader(0, map[0 := 0], Zero(), 0)])
    ensures Overtaken(s, 0)
  {
  }

  lemma OvertakenIdle(s: State, n: nat)
    requires Shaped(s) && Overtaken(s, n)
    ensures s.pub.Idle?
  {
  }

  lemma OvertakenNext(s: State, e: State, n: nat)
    requires Shaped(s) && Shaped(e) && Overtaken(s, n) && e.pub.Idle? && e.flip == 1 - s.flip
    requires e.bufs[1 - s.flip] == TableBytes(TornTable()) && e.bufs[s.flip] == s.bufs[s.flip]
    requires e.readers == Overlapped(s.readers) && e.published == s.published + [TornTable()]
    ensures Overtaken(e, n + 1)
  {
    hide TableBytes, TornTable, Overlapped;
  }

  /**
   The bound is tight: for every n from two on there is a run in which exactly n publishes
   overlap a scan and the reader decodes a table that was never published and is not the
   initial one.
   */
  lemma OverlapsTear(n: nat) returns (run: seq<Action>)
    requires n >= 2
    ensures ValidRun(run) && 0 in Exec(run).readers
    ensures Complete(Exec(run).readers[0]) && Exec(run).readers[0].overlap == n
    ensures var t := DecodeTable(Scanned(Exec(run).readers[0]));
            t != Zero() && t !in Exec(run).published
  {
    hide Exec, Step, TableBytes, Positional, DecodeTable;
    var before := OvertakenRun(n);
    run := ScanRun(before, 0, 1);
    PositionalRows([TornLane()], 2, 0);
    Torn(TornTable(), Scanned(Exec(run).readers[0]));
  }

  // A reader that has loaded the flip word and read one byte of the blank buffer.
  lemma FirstByte() returns (run: seq<Action>)
    ensures ValidRun(run)
    ensures Exec(run) == Init().(readers := map[0 := Reader(0, map[0 := 0], Zero(), 0)])
  {
    ExecSnoc([], Load(0));
    ExecSnoc([] + [Load(0)], Read(0, 0));
    run := [] + [Load(0)] + [Read(0, 0)];
  }

  lemma Torn(t: Table, b: seq<byte>)
    requires |b| == BUFFER_BYTES && TableFits(t) && t[0].classes == 1 && t[0].generation == 2
    requires b[0] == 0 && forall j :: 1 <= j < BUFFER_BYTES ==> b[j] == TableBytes(t)[j]
    ensures DecodeTable(b)[0].classes == 0 && DecodeTable(b)[0].generation == 2
  {
    hide FromLE, D.Encode, D.Decode, TableBytes;
    var row := b[0..D.ROW_BYTES];
    RowSlice(t, 0);
    var whole := D.Encode(t[0]);
    assert TableBytes(t)[0..D.ROW_BYTES] == whole;
    forall k | 1 <= k < D.ROW_BYTES ensures row[k] == whole[k] {
      assert row[k] == b[k] == TableBytes(t)[k] == TableBytes(t)[0..D.ROW_BYTES][k];
    }
    TornRow(t[0], row);
    assert DecodeTable(b)[0] == D.Decode(row);
  }

  lemma TornRow(d: D.Lane, row: seq<byte>)
    requires D.LaneFits(d) && d.classes == 1 && |row| == D.ROW_BYTES
    requires row[0] == 0 && forall k :: 1 <= k < D.ROW_BYTES ==> row[k] == D.Encode(d)[k]
    ensures D.Decode(row).classes == 0 && D.Decode(row).generation == d.generation
  {
    hide FromLE, LE;
    var whole := D.Encode(d);
    Widths();
    LERoundTrip(d.generation, 4);
    assert row[24..28] == whole[24..28] == LE(d.generation, 4);
    assert whole[0..8] == LE(1, 8);
    OneBytes();
    ZeroBytes(8);
    LERoundTrip(0, 8);
    forall k | 0 <= k < 8 ensures row[k] == LE(0, 8)[k] {
      if k > 0 { assert row[k] == whole[0..8][k] == LE(1, 8)[k]; }
    }
    assert row[0..8] == LE(0, 8);
  }

  lemma OneBytes()
    ensures forall k :: 1 <= k < 8 ==> LE(1, 8)[k] == 0
  {
    ZeroBytes(7);
    assert LE(1, 8) == [1] + LE(0, 7);
  }
}
