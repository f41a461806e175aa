/**
 Runs that show where the registry's promises end: a call that sleeps through 2^32
 retirements, a handle kept through as many, and a fence signal that sleeps through one.
 */
module SlotRegistryLimits {
  import opened Common
  import opened SlotRegistry
  import opened SlotRegistryProofs
  import opened SlotRegistryTheorems

  function Alice(): Owner { Owner("tenant-1", "camera", "gpu-0") }

  function Bob(): Owner { Owner("tenant-2", "camera", "gpu-0") }

  function At(run: seq<Action>): State { Exec(Init(1), run) }

  lemma Do(run: seq<Action>, t: Tid, input: Input) returns (next: seq<Action>)
    ensures At(next) == Step(At(run), Action(t, input))
    ensures next == run + [Action(t, input)]
  {
    next := run + [Action(t, input)];
    ExecSnoc(Init(1), run, Action(t, input));
  }

  // One slot, retired k times and free; thread 2 is parked.
  ghost predicate Rest(s: State, k: nat, park: Pc)
  {
    && |s.sh.slots| == 1
    && s.sh.slots[0].word == Word(GenOf(k), 0) && s.sh.slots[0].epoch == k
    && s.sh.records == map[] && s.sh.free == [0]
    && s.sh.writer.None? && s.sh.readers == {}
    && (PcOf(s, 1).Idle? || PcOf(s, 1).Returned?)
    && PcOf(s, 2) == park
  }

  // The slot carries one registration with one reference.
  ghost predicate Up(s: State, k: nat, id: Id, o: Owner, req: nat, park: Pc)
  {
    && |s.sh.slots| == 1
    && s.sh.slots[0] == Slot(Word(GenOf(k), 1), 0, req, Some(o), Some(id), k)
    && s.sh.records == map[id := Record(o, Handle(GenOf(k), 0))] && s.sh.free == []
    && s.sh.writer.None? && s.sh.readers == {}
    && (0, k) in s.sh.issued && s.sh.issued[(0, k)] == Issue(id, o, req)
    && PcOf(s, 1).Returned?
    && PcOf(s, 2) == park
  }

  // Thread 1 takes the step that its pc calls for.
  lemma Next(run: seq<Action>, sh: Shared, pc: Pc) returns (next: seq<Action>)
    requires !PcOf(At(run), 1).Idle?
    requires GoStep(At(run).sh, 1, PcOf(At(run), 1), false) == (sh, pc)
    ensures next == run + [Action(1, Go(false))]
    ensures At(next).sh == sh && PcOf(At(next), 1) == pc && PcOf(At(next), 2) == PcOf(At(run), 2)
  {
    next := Do(run, 1, Go(false));
  }

  lemma Start(run: seq<Action>, op: Op, sh: Shared, pc: Pc) returns (next: seq<Action>)
    requires PcOf(At(run), 1).Idle? || PcOf(At(run), 1).Returned?
    requires BeginStep(At(run).sh, 1, op) == (sh, pc)
    ensures next == run + [Action(1, Begin(op))]
    ensures At(next).sh == sh && PcOf(At(next), 1) == pc && PcOf(At(next), 2) == PcOf(At(run), 2)
  {
    next := Do(run, 1, Begin(op));
  }

  // No step of the run begins a signal.
  predicate Unsignalled(run: seq<Action>)
  {
    forall k :: 0 <= k < |run| && run[k].input.Begin? ==>
      !run[k].input.op.SignalSlot? && !run[k].input.op.Signal?
  }

  // Thread 1 is at `pc` with shared state sh, and the run from `base` on never signals.
  ghost predicate On(base: seq<Action>, run: seq<Action>, sh: Shared, pc: Pc, park: Pc)
  {
    && base <= run && Unsignalled(run[|base|..])
    && At(run).sh == sh && PcOf(At(run), 1) == pc && PcOf(At(run), 2) == park
  }

  lemma OnNext(base: seq<Action>, run: seq<Action>, sh: Shared, pc: Pc, park: Pc) returns (next: seq<Action>)
    requires On(base, run, sh, pc, park) && !pc.Idle?
    ensures var (sh', pc') := GoStep(sh, 1, pc, false); On(base, next, sh', pc', park)
  {
    var (sh', pc') := GoStep(sh, 1, pc, false);
    next := Next(run, sh', pc');
    assert next[|base|..] == run[|base|..] + [Action(1, Go(false))];
  }

  // A registration up to its first store.
  lemma RegisterToStore(run: seq<Action>, k: nat, r: Entry, park: Pc) returns (next: seq<Action>)
    requires Rest(At(run), k, park) && ValidOwner(r.o) && r.op == Register(r.id, r.o, r.req)
    ensures On(run, next, At(run).sh.(writer := Some(1), free := []),
               Registering(r, RegStore(0, GenOf(k), PutRequired)), park)
  {
    var s := At(run).sh;
    next := Start(run, r.op, s, Registering(r, RegLock));
    next := OnNext(run, next, s, Registering(r, RegLock), park);
    s := s.(writer := Some(1));
    next := OnNext(run, next, s, Registering(r, RegPop), park);
    assert s.free[..0] == [];
    s := s.(free := []);
    next := OnNext(run, next, s, Registering(r, RegLoad(0)), park);
  }

  lemma RegisterRun(run: seq<Action>, k: nat, id: Id, o: Owner, req: nat, park: Pc) returns (next: seq<Action>)
    requires Rest(At(run), k, park) && ValidOwner(o)
    ensures Up(At(next), k, id, o, req, park)
    ensures run <= next && Unsignalled(next[|run|..])
  {
    hide At;
    var op, s := Register(id, o, req), At(run).sh.(writer := Some(1), free := []);
    var r := Entry(op, id, o, req);
    next := RegisterToStore(run, k, r, park);
    next := StoreRun(run, next, s, k, r, park);
    s := Filled(s, k, r);
    next := OnNext(run, next, s, Registering(r, RegStore(0, GenOf(k), PutState)), park);
    s := Publishing(s, 0, GenOf(k), Issue(id, o, req));
    next := OnNext(run, next, s, Registering(r, RegStore(0, GenOf(k), PutRecord)), park);
  }

  function Filled(sh: Shared, k: nat, r: Entry): Shared
    requires |sh.slots| == 1
  {
    sh.(slots := [Slot(Word(GenOf(k), 0), 0, r.req, Some(r.o), Some(r.id), k)])
  }

  // The four stores before the publishing one.
  lemma StoreRun(base: seq<Action>, run: seq<Action>, sh: Shared, k: nat, r: Entry, park: Pc)
    returns (next: seq<Action>)
    requires On(base, run, sh, Registering(r, RegStore(0, GenOf(k), PutRequired)), park)
    requires |sh.slots| == 1 && sh.slots[0].word == Word(GenOf(k), 0) && sh.slots[0].epoch == k
    ensures On(base, next, Filled(sh, k, r), Registering(r, RegStore(0, GenOf(k), PutState)), park)
  {
    hide On;
    var g, s := GenOf(k), sh;
    next := OnNext(base, run, s, Registering(r, RegStore(0, g, PutRequired)), park);
    s := WithSlot(s, 0, s.slots[0].(required := r.req));
    next := OnNext(base, next, s, Registering(r, RegStore(0, g, PutSignaled)), park);
    s := WithSlot(s, 0, s.slots[0].(signaled := 0));
    next := OnNext(base, next, s, Registering(r, RegStore(0, g, PutOwner)), park);
    s := WithSlot(s, 0, s.slots[0].(owner := Some(r.o)));
    next := OnNext(base, next, s, Registering(r, RegStore(0, g, PutDescriptor)), park);
    s := WithSlot(s, 0, s.slots[0].(descriptor := Some(r.id)));
    assert s == Filled(sh, k, r);
  }

  // A final release up to the retiring compare-and-swap.
  lemma ReleaseToLock(run: seq<Action>, k: nat, id: Id, o: Owner, park: Pc) returns (next: seq<Action>)
    requires Up(At(run), k, id, o, 0, park) && ValidOwner(o)
    ensures var h := Handle(GenOf(k), 0);
            On(run, next, At(run).sh, Finalizing(Call(ReleaseSlot(h, o), h, o), k, FinLock), park)
  {
    hide At;
    var h, s := Handle(GenOf(k), 0), At(run).sh;
    var op, word := ReleaseSlot(h, o), Word(GenOf(k), 1);
    var c := Call(op, h, o);
    next := Start(run, op, s, Releasing(c, RelLive));
    assert On(run, next, s, Releasing(c, RelLive), park);
    hide On;
    next := OnNext(run, next, s, Releasing(c, RelLive), park);
    next := OnNext(run, next, s, Releasing(c, RelOwner(k)), park);
    next := OnNext(run, next, s, Releasing(c, RelLoad(k)), park);
    next := OnNext(run, next, s, Releasing(c, RelCas(k, word)), park);
    next := OnNext(run, next, s, Releasing(c, RelFence(k, 0)), park);
  }

  lemma ReleaseToRetire(run: seq<Action>, k: nat, id: Id, o: Owner, park: Pc) returns (next: seq<Action>)
    requires Up(At(run), k, id, o, 0, park) && ValidOwner(o)
    ensures var h := Handle(GenOf(k), 0);
            On(run, next, At(run).sh.(writer := Some(1)),
               Finalizing(Call(ReleaseSlot(h, o), h, o), k, FinRetire(Word(GenOf(k), 1))), park)
  {
    hide At, On;
    var h, s := Handle(GenOf(k), 0), At(run).sh;
    var c, word := Call(ReleaseSlot(h, o), h, o), Word(GenOf(k), 1);
    next := ReleaseToLock(run, k, id, o, park);
    next := OnNext(run, next, s, Finalizing(c, k, FinLock), park);
    s := s.(writer := Some(1));
    next := OnNext(run, next, s, Finalizing(c, k, FinOwner), park);
    next := OnNext(run, next, s, Finalizing(c, k, FinLoad), park);
    next := OnNext(run, next, s, Finalizing(c, k, FinCas(word)), park);
    next := OnNext(run, next, s, Finalizing(c, k, FinFence(word, 0)), park);
  }

  lemma ReleaseRun(run: seq<Action>, k: nat, id: Id, o: Owner, park: Pc) returns (next: seq<Action>)
    requires Up(At(run), k, id, o, 0, park) && ValidOwner(o)
    ensures Rest(At(next), k + 1, park)
    ensures run <= next && Unsignalled(next[|run|..])
  {
    hide At;
    var h, s := Handle(GenOf(k), 0), At(run).sh.(writer := Some(1));
    var c := Call(ReleaseSlot(h, o), h, o);
    next := ReleaseToRetire(run, k, id, o, park);
    next := OnNext(run, next, s, Finalizing(c, k, FinRetire(Word(GenOf(k), 1))), park);
    var x := |s.log|;
    s := Retiring(s, 0, Removed(0, k, h, o, k, 0));
    next := OnNext(run, next, s, Finalizing(c, k, FinUnlink(x)), park);
    s := Unlinking(s, 0);
    next := OnNext(run, next, s, Finalizing(c, k, FinDisown(x)), park);
    s := WithSlot(s, 0, s.slots[0].(owner := None));
    next := OnNext(run, next, s, Finalizing(c, k, FinFree(x)), park);
  }

  // Any number of further registrations of the slot by Bob, each removed again.
  lemma {:induction false} Cycles(run: seq<Action>, k: nat, n: nat, park: Pc) returns (next: seq<Action>)
    requires Rest(At(run), k, park)
    ensures Rest(At(next), k + n, park)
    decreases n
  {
    next := run;
    if n > 0 {
      next := RegisterRun(next, k, "b", Bob(), 0, park);
      next := ReleaseRun(next, k, "b", Bob(), park);
      next := Cycles(next, k + 1, n - 1, park);
    }
  }

  // Thread 2 begins a call on a live slot and stops before its last step.
  lemma Park(run: seq<Action>, o: Owner, op: Op, steps: nat, park: Pc) returns (next: seq<Action>)
    requires Up(At(run), 0, "a", o, 0, Idle) && ValidOwner(o)
    requires || (op == AcquireSlot(Handle(1, 0), o) && steps == 3
                 && park == Acquiring(Call(op, Handle(1, 0), o), false, AcqCas(0, Word(1, 1))))
             || (op == SignalSlot(Handle(1, 0), o, 5) && steps == 2
                 && park == Signaling(Call(op, Handle(1, 0), o), 5, SigMax(0)))
    ensures Up(At(next), 0, "a", o, 0, park)
    ensures |next| == |run| + 1 + steps && run <= next && next[|run|] == Action(2, Begin(op))
    ensures forall k :: |run| < k < |next| ==> next[k].input.Go?
  {
    next := Do(run, 2, Begin(op));
    next := Do(next, 2, Go(false));
    next := Do(next, 2, Go(false));
    if steps == 3 { next := Do(next, 2, Go(false)); }
  }

  lemma Fresh()
    ensures Rest(At([]), 0, Idle) && ValidOwner(Alice()) && ValidOwner(Bob())
  {
  }

  /**
   With 2^32 retirements between its checks and its compare-and-swap, an acquire by one
   owner succeeds on the registration of another: the bound of SuccessHitsItsRegistration
   cannot be dropped.
   */
  lemma WrappedGenerationDefeatsTheHandle() returns (run: seq<Action>)
    ensures var sh := After(1, run);
            exists event :: event in sh.log && event.Acquired? && event.epoch == GENERATIONS
              && event.seen == 0 && event.owner == Alice()
              && (0, GENERATIONS) in sh.issued && sh.issued[(0, GENERATIONS)].owner == Bob()
  {
    hide At, Up, Rest, ValidOwner;
    Fresh();
    run := RegisterRun([], 0, "a", Alice(), 0, Idle);
    var h := Handle(1, 0);
    var op := AcquireSlot(h, Alice());
    var park := Acquiring(Call(op, h, Alice()), false, AcqCas(0, Word(1, 1)));
    run := Park(run, Alice(), op, 3, park);
    run := ReleaseRun(run, 0, "a", Alice(), park);
    run := Cycles(run, 1, GENERATIONS - 1, park);
    run := RegisterRun(run, GENERATIONS, "b", Bob(), 0, park);
    run := WrappedCas(run);
  }

  lemma WrappedCas(run: seq<Action>) returns (next: seq<Action>)
    requires var h := Handle(1, 0);
             Up(At(run), GENERATIONS, "b", Bob(), 0,
                Acquiring(Call(AcquireSlot(h, Alice()), h, Alice()), false, AcqCas(0, Word(1, 1))))
    ensures var event := Acquired(0, GENERATIONS, Handle(1, 0), Alice(), 0);
            var sh := After(1, next);
            event in sh.log && (0, GENERATIONS) in sh.issued && sh.issued[(0, GENERATIONS)].owner == Bob()
  {
    next := Do(run, 2, Go(false));
    assert At(next).sh.log[|At(next).sh.log| - 1] == Acquired(0, GENERATIONS, Handle(1, 0), Alice(), 0);
  }

  /**
   A handle kept through 2^32 retirements: with no retirement between its check and its
   compare-and-swap, an acquire with the handle of registration 0 succeeds on registration 2^32.
   */
  lemma KeptHandleHitsALaterRegistration() returns (run: seq<Action>)
    ensures var sh := After(1, run);
            exists event :: event in sh.log && event.Acquired? && event.seen == event.epoch == GENERATIONS
              && IssuedWith(sh, event.handle, 0)
  {
    hide At, Up, Rest, ValidOwner, IssuedWith;
    Fresh();
    run := RegisterRun([], 0, "a", Alice(), 0, Idle);
    run := ReleaseRun(run, 0, "a", Alice(), Idle);
    run := Cycles(run, 1, GENERATIONS - 1, Idle);
    run := RegisterRun(run, GENERATIONS, "a", Alice(), 0, Idle);
    run := KeptAcquire(run);
    FirstWasIssued(run);
    assert Acquired(0, GENERATIONS, Handle(1, 0), Alice(), GENERATIONS) in After(1, run).log;
  }

  lemma FirstWasIssued(run: seq<Action>)
    requires |After(1, run).slots| == 1 && After(1, run).slots[0].epoch > 0
    ensures IssuedWith(After(1, run), Handle(1, 0), 0)
  {
    RunKeeps(1, run);
    assert (0, 0) in After(1, run).issued;
  }

  lemma KeptAcquire(run: seq<Action>) returns (next: seq<Action>)
    requires Up(At(run), GENERATIONS, "a", Alice(), 0, Idle) && ValidOwner(Alice())
    ensures var sh, event := After(1, next), Acquired(0, GENERATIONS, Handle(1, 0), Alice(), GENERATIONS);
            event in sh.log && |sh.slots| == 1 && sh.slots[0].epoch == GENERATIONS
  {
    hide At;
    var h, s := Handle(1, 0), At(run).sh;
    var op, word := AcquireSlot(h, Alice()), Word(1, 1);
    var c := Call(op, h, Alice());
    next := Start(run, op, s, Acquiring(c, false, AcqLive));
    next := Next(next, s, Acquiring(c, false, AcqOwner(GENERATIONS)));
    next := Next(next, s, Acquiring(c, false, AcqLoad(GENERATIONS)));
    next := Next(next, s, Acquiring(c, false, AcqCas(GENERATIONS, word)));
    var event := Acquired(0, GENERATIONS, h, Alice(), GENERATIONS);
    var k := |s.log|;
    s := WithWord(s, 0, Word(1, 2), event);
    next := Next(next, s, Returned(op, DidAcquire(2, k)));
    assert s.log[|s.log| - 1] == event;
    AtIsAfter(next);
  }

  lemma AtIsAfter(run: seq<Action>)
    ensures At(run).sh == After(1, run)
  {
  }

  /**
   A signal whose fetch-max comes after a retirement completes the fence of the next
   registration, whose owner never signalled.
   */
  lemma LateSignalCompletesAnothersFence() returns (run: seq<Action>)
    ensures var sh := After(1, run);
            && |sh.slots| == 1 && sh.slots[0].word.refs == 1 && sh.slots[0].owner == Some(Bob())
            && sh.slots[0].required == 5 && sh.slots[0].signaled == 5
    ensures OnlyAliceSignals(run)
  {
    hide At, Up, Rest, ValidOwner, After;
    Fresh();
    run := RegisterRun([], 0, "a", Alice(), 0, Idle);
    assert OnlyAliceSignals(run) by { assert run[0..] == run; }
    var h := Handle(1, 0);
    var op := SignalSlot(h, Alice(), 5);
    var park := Signaling(Call(op, h, Alice()), 5, SigMax(0));
    var next := Park(run, Alice(), op, 2, park);
    assert OnlyAliceSignals(next);
    run := ReleaseRun(next, 0, "a", Alice(), park);
    StillOnlyAlice(next, run);
    next := RegisterRun(run, 1, "b", Bob(), 5, park);
    StillOnlyAlice(run, next);
    run := LateMax(next);
  }

  predicate OnlyAliceSignals(run: seq<Action>)
  {
    forall k :: 0 <= k < |run| && run[k].input.Begin? ==>
      !run[k].input.op.Signal? && (run[k].input.op.SignalSlot? ==> run[k].input.op.owner == Alice())
  }

  lemma StillOnlyAlice(run: seq<Action>, next: seq<Action>)
    requires OnlyAliceSignals(run) && run <= next && Unsignalled(next[|run|..])
    ensures OnlyAliceSignals(next)
  {
    forall k | 0 <= k < |next|
      ensures k < |run| ==> next[k] == run[k]
      ensures k >= |run| ==> next[k] == next[|run|..][k - |run|]
    {
    }
  }

  lemma LateMax(run: seq<Action>) returns (next: seq<Action>)
    requires var h := Handle(1, 0);
             Up(At(run), 1, "b", Bob(), 5, Signaling(Call(SignalSlot(h, Alice(), 5), h, Alice()), 5, SigMax(0)))
    requires OnlyAliceSignals(run)
    ensures OnlyAliceSignals(next)
    ensures var sh := After(1, next);
            && |sh.slots| == 1 && sh.slots[0].word.refs == 1 && sh.slots[0].owner == Some(Bob())
            && sh.slots[0].required == 5 && sh.slots[0].signaled == 5
  {
    next := Do(run, 2, Go(false));
  }
}
