/**
 What a call on the slot registry answers, over every run of any number of threads: a success
 names the one log entry that its own call made, with the count at that entry, and a failure
 names something that the call itself observed.
 */
module SlotRegistryAnswers {
  import opened Common
  import opened SlotRegistry
  import opened SlotRegistryProofs
  import opened SlotRegistryTheorems
  import opened SlotRegistryHistory

  predicate IsAcquire(op: Op) { op.Acquire? || op.AcquireSlot? }

  predicate IsRelease(op: Op) { op.Release? || op.ReleaseSlot? }

  predicate IsSignal(op: Op) { op.Signal? || op.SignalSlot? }

  predicate ById(op: Op) { op.Acquire? || op.Release? || op.Signal? }

  predicate ByHandle(op: Op) { op.AcquireSlot? || op.ReleaseSlot? || op.SignalSlot? }

  // One plus acquires less releases of the registration of entry k, that entry included
  function Balance(log: seq<Event>, k: nat): int
    requires k < |log|
  {
    var e := log[k];
    1 + Count(log[..k + 1], 0, e.slot, e.epoch) - Count(log[..k + 1], 1, e.slot, e.epoch)
  }

  // ---------------------------------------------------------------- what a call observed

  // The latest call of t is this one.
  predicate Asked(max: nat, run: seq<Action>, t: Tid, op: Op)
  {
    Began(max, run, t) < |run| && run[Began(max, run, t)] == Action(t, Begin(op))
  }

  predicate RecordIs(sh: Shared, id: Id, r: Record)
  {
    sh.writer.None? && id in sh.records && sh.records[id] == r
  }

  // The handle the call works on: its own, or the one its id's record held when it looked.
  ghost predicate Named(max: nat, run: seq<Action>, t: Tid, op: Op, h: Handle)
  {
    if ByHandle(op) then h == op.handle
    else ById(op) && exists m: nat :: Mine(max, run, t, m) && RecordIs(View(max, run, m), op.id, Record(op.owner, h))
  }

  predicate HasWord(sh: Shared, i: nat, word: Word) { i < |sh.slots| && sh.slots[i].word == word }

  predicate HasSignal(sh: Shared, i: nat, v: nat) { i < |sh.slots| && sh.slots[i].signaled == v }

  predicate HasRequired(sh: Shared, i: nat, v: nat) { i < |sh.slots| && sh.slots[i].required == v }

  // The step from a to b raised the signalled value of slot i to at least v, leaving top.
  predicate Raised(a: Shared, b: Shared, i: nat, v: nat, top: nat)
  {
    && HasSignal(b, i, top) && i < |a.slots|
    && top >= v && top >= a.slots[i].signaled && (top == v || top == a.slots[i].signaled)
  }

  ghost predicate SawWord(max: nat, run: seq<Action>, t: Tid, i: nat, word: Word)
  {
    exists m: nat :: Mine(max, run, t, m) && HasWord(View(max, run, m), i, word)
  }

  ghost predicate SawSignal(max: nat, run: seq<Action>, t: Tid, i: nat, v: nat)
  {
    exists m: nat :: Mine(max, run, t, m) && HasSignal(View(max, run, m), i, v)
  }

  ghost predicate SawRequired(max: nat, run: seq<Action>, t: Tid, i: nat, v: nat)
  {
    exists m: nat :: Mine(max, run, t, m) && HasRequired(View(max, run, m), i, v)
  }

  ghost predicate DidRaise(max: nat, run: seq<Action>, t: Tid, i: nat, v: nat, top: nat)
  {
    exists m: nat :: Mine(max, run, t, m) && Raised(View(max, run, m), View(max, run, m + 1), i, v, top)
  }

  // The lookup or the records refuse the call.
  predicate Refused(sh: Shared, op: Op, error: Error)
  {
    match error
    case UnknownDescriptor => ById(op) && op.id !in sh.records
    case RecordOwnerMismatch => ById(op) && op.id in sh.records && sh.records[op.id].owner != op.owner
    case LimitReached => op.Register? && |sh.records| >= |sh.slots|
    case DuplicateDescriptor => op.Register? && op.id in sh.records
    case _ => false
  }

  // The slot of h refuses the call.
  predicate Faulty(sh: Shared, op: Op, h: Handle, error: Error)
  {
    if error.OutOfBounds? then h.slot >= |sh.slots|
    else
      && h.slot < |sh.slots|
      && match error
         case Expired => sh.slots[h.slot].word.gen != h.gen || sh.slots[h.slot].word.refs == 0
         case SlotOwnerMismatch => sh.slots[h.slot].owner != Some(op.owner)
         case CountOverflow => IsAcquire(op) && sh.slots[h.slot].word == Word(h.gen, MAX_REFS)
         case _ => false
  }

  ghost predicate SawRefusal(max: nat, run: seq<Action>, t: Tid, op: Op, error: Error)
  {
    exists m: nat :: Mine(max, run, t, m) && Refused(View(max, run, m), op, error)
  }

  ghost predicate SawFault(max: nat, run: seq<Action>, t: Tid, op: Op, h: Handle, error: Error)
  {
    exists m: nat :: Mine(max, run, t, m) && Faulty(View(max, run, m), op, h, error)
  }

  // The release saw its handle's last reference and a signalled value short of a required one.
  ghost predicate SawPending(max: nat, run: seq<Action>, t: Tid, op: Op, h: Handle)
  {
    && IsRelease(op) && SawWord(max, run, t, h.slot, Word(h.gen, 1))
    && exists v: nat, r: nat ::
         SawSignal(max, run, t, h.slot, v) && SawRequired(max, run, t, h.slot, r) && v < r
  }

  ghost predicate Blamed(max: nat, run: seq<Action>, t: Tid, op: Op, h: Handle, error: Error)
  {
    Named(max, run, t, op, h)
    && if error.FencePending? then SawPending(max, run, t, op, h) else SawFault(max, run, t, op, h, error)
  }

  ghost predicate Justified(max: nat, run: seq<Action>, t: Tid, op: Op, error: Error)
  {
    if error.MalformedOwner? then !ValidOwner(op.owner)
    else SawRefusal(max, run, t, op, error) || exists h: Handle :: Blamed(max, run, t, op, h, error)
  }

  ghost predicate SignalTold(max: nat, run: seq<Action>, t: Tid, op: Op, h: Handle, signaled: nat, required: nat)
  {
    && IsSignal(op) && Named(max, run, t, op, h)
    && DidRaise(max, run, t, h.slot, op.value, signaled) && SawRequired(max, run, t, h.slot, required)
  }

  // ---------------------------------------------------------------- the story of a call

  ghost predicate Answered(max: nat, run: seq<Action>, t: Tid, op: Op, outcome: Outcome)
  {
    match outcome
    case DidRegister(_, _) => op.Register?
    case DidAcquire(_, k) => k < |After(max, run).log| && Named(max, run, t, op, After(max, run).log[k].handle)
    case DidRelease(_, _, k) => k < |After(max, run).log| && Named(max, run, t, op, After(max, run).log[k].handle)
    case DidSignal(s, r) => exists h: Handle :: SignalTold(max, run, t, op, h, s, r)
    case Failed(error) => Justified(max, run, t, op, error)
  }

  predicate Entered(log: seq<Event>, k: nat, c: Call)
  {
    k < |log| && log[k].Removed? && log[k].handle == c.h && log[k].owner == c.o
  }

  ghost predicate CallOk(max: nat, run: seq<Action>, t: Tid, c: Call)
  {
    Asked(max, run, t, c.op) && ValidOwner(c.o) && c.o == c.op.owner && Named(max, run, t, c.op, c.h)
  }

  ghost predicate Story(max: nat, run: seq<Action>, t: Tid, pc: Pc)
  {
    match pc
    case Idle => true
    case Returned(op, outcome) => Asked(max, run, t, op) && Answered(max, run, t, op, outcome)
    case Acquiring(c, held, at) =>
      && CallOk(max, run, t, c) && IsAcquire(c.op)
      && (at.AcqCas? ==> SawWord(max, run, t, c.h.slot, at.cur))
    case Releasing(c, at) =>
      && CallOk(max, run, t, c) && IsRelease(c.op)
      && (at.RelCas? ==> SawWord(max, run, t, c.h.slot, at.cur))
      && (at.RelFence? ==> SawWord(max, run, t, c.h.slot, Word(c.h.gen, 1)) && SawSignal(max, run, t, c.h.slot, at.sig))
    case Finalizing(c, seen, at) =>
      && CallOk(max, run, t, c) && IsRelease(c.op)
      && (at.FinCas? ==> SawWord(max, run, t, c.h.slot, at.cur))
      && (at.FinFence? ==> SawWord(max, run, t, c.h.slot, Word(c.h.gen, 1)) && SawSignal(max, run, t, c.h.slot, at.sig))
      && (Wrote(pc).Some? ==> Entered(After(max, run).log, Wrote(pc).value, c))
    case Signaling(c, v, at) =>
      && CallOk(max, run, t, c) && IsSignal(c.op) && v == c.op.value
      && (at.SigRequired? ==> DidRaise(max, run, t, c.h.slot, v, at.signaled))
    case Registering(r, at) => Asked(max, run, t, r.op) && r.op == Register(r.id, r.o, r.req)
  }

  // ---------------------------------------------------------------- stories are kept

  lemma LogGrew(max: nat, run: seq<Action>, a: Action)
    ensures var x, y := After(max, run).log, After(max, Snoc(run, a)).log; |x| <= |y| && x == y[..|x|]
  {
    hide Step;
    NowIsMine(max, run, a);
    StepWrites(Exec(Init(max), run), a);
  }

  lemma NamedCarries(max: nat, run: seq<Action>, a: Action, t: Tid, op: Op, h: Handle)
    requires !(a.tid == t && a.input.Begin? && Waiting(PcAfter(max, run, t)))
    requires Named(max, run, t, op, h)
    ensures Named(max, Snoc(run, a), t, op, h)
  {
    hide Mine, View, Began;
    Carries(max, run, a, t);
  }

  // What was seen stays seen while the call goes on.
  lemma SightsCarry(max: nat, run: seq<Action>, a: Action, t: Tid)
    requires !(a.tid == t && a.input.Begin? && Waiting(PcAfter(max, run, t)))
    ensures forall i: nat, w: Word :: SawWord(max, run, t, i, w) ==> SawWord(max, Snoc(run, a), t, i, w)
    ensures forall i: nat, v: nat :: SawSignal(max, run, t, i, v) ==> SawSignal(max, Snoc(run, a), t, i, v)
    ensures forall i: nat, v: nat :: SawRequired(max, run, t, i, v) ==> SawRequired(max, Snoc(run, a), t, i, v)
    ensures forall i: nat, v: nat, top: nat ::
              DidRaise(max, run, t, i, v, top) ==> DidRaise(max, Snoc(run, a), t, i, v, top)
  {
    hide Mine, View, Began;
    Carries(max, run, a, t);
  }

  lemma BlameCarries(max: nat, run: seq<Action>, a: Action, t: Tid, op: Op, h: Handle, error: Error)
    requires !(a.tid == t && a.input.Begin? && Waiting(PcAfter(max, run, t)))
    requires Blamed(max, run, t, op, h, error)
    ensures Blamed(max, Snoc(run, a), t, op, h, error)
  {
    hide Mine, View, Began, Named, SawWord, SawSignal, SawRequired, Faulty, PcAfter;
    NamedCarries(max, run, a, t, op, h);
    if error.FencePending? {
      SightsCarry(max, run, a, t);
    } else {
      Carries(max, run, a, t);
    }
  }

  lemma FaultCarries(max: nat, run: seq<Action>, a: Action, t: Tid, op: Op, error: Error)
    requires !(a.tid == t && a.input.Begin? && Waiting(PcAfter(max, run, t)))
    requires Justified(max, run, t, op, error)
    ensures Justified(max, Snoc(run, a), t, op, error)
  {
    hide Mine, View, Began, Blamed, Refused, PcAfter;
    if error.MalformedOwner? {
    } else if SawRefusal(max, run, t, op, error) {
      Carries(max, run, a, t);
    } else {
      var h: Handle :| Blamed(max, run, t, op, h, error);
      BlameCarries(max, run, a, t, op, h, error);
    }
  }

  lemma AnswerCarries(max: nat, run: seq<Action>, a: Action, t: Tid, op: Op, outcome: Outcome)
    requires !(a.tid == t && a.input.Begin? && Waiting(PcAfter(max, run, t)))
    requires Answered(max, run, t, op, outcome)
    ensures Answered(max, Snoc(run, a), t, op, outcome)
  {
    hide Mine, View, Began, Named, Justified, After;
    var next := Snoc(run, a);
    LogGrew(max, run, a);
    match outcome
    case DidRegister(_, _) =>
    case DidAcquire(_, k) => NamedCarries(max, run, a, t, op, After(max, run).log[k].handle);
    case DidRelease(_, _, k) => NamedCarries(max, run, a, t, op, After(max, run).log[k].handle);
    case DidSignal(s, r) =>
      var h: Handle :| SignalTold(max, run, t, op, h, s, r);
      NamedCarries(max, run, a, t, op, h);
      SightsCarry(max, run, a, t);
      assert SignalTold(max, next, t, op, h, s, r);
    case Failed(error) => FaultCarries(max, run, a, t, op, error);
  }

  lemma AskedCarries(max: nat, run: seq<Action>, a: Action, t: Tid, op: Op)
    requires !(a.tid == t && a.input.Begin? && Waiting(PcAfter(max, run, t)))
    requires Asked(max, run, t, op)
    ensures Asked(max, Snoc(run, a), t, op)
  {
    Carries(max, run, a, t);
    assert Snoc(run, a)[Began(max, run, t)] == run[Began(max, run, t)];
  }

  /** A step that does not begin a call of t keeps the story of t where t stands. */
  lemma StoryCarries(max: nat, run: seq<Action>, a: Action, t: Tid, pc: Pc)
    requires !(a.tid == t && a.input.Begin? && Waiting(PcAfter(max, run, t)))
    requires Story(max, run, t, pc)
    ensures Story(max, Snoc(run, a), t, pc)
  {
    hide Asked, Answered, Named, SawWord, SawSignal, DidRaise, Waiting, After;
    SightsCarry(max, run, a, t);
    LogGrew(max, run, a);
    match pc
    case Idle =>
    case Returned(op, outcome) =>
      AskedCarries(max, run, a, t, op);
      AnswerCarries(max, run, a, t, op, outcome);
    case Registering(r, at) => AskedCarries(max, run, a, t, r.op);
    case _ =>
      AskedCarries(max, run, a, t, pc.c.op);
      NamedCarries(max, run, a, t, pc.c.op, pc.c.h);
  }

  // The last step of the run is one of t's call, and sh the state in front of it.
  predicate Now(max: nat, run: seq<Action>, t: Tid, sh: Shared)
  {
    run != [] && Mine(max, run, t, |run| - 1) && View(max, run, |run| - 1) == sh
  }

  // A refusal seen just now.
  lemma Faults(max: nat, run: seq<Action>, t: Tid, sh: Shared, op: Op, h: Handle, error: Error)
    requires Now(max, run, t, sh) && Named(max, run, t, op, h) && Faulty(sh, op, h, error)
    ensures Justified(max, run, t, op, error)
  {
    hide Mine, View;
    assert SawFault(max, run, t, op, h, error);
    assert Blamed(max, run, t, op, h, error);
  }

  // A refusal read off a word seen earlier in the call.
  lemma FaultsBefore(max: nat, run: seq<Action>, t: Tid, op: Op, h: Handle, word: Word, error: Error)
    requires Named(max, run, t, op, h) && SawWord(max, run, t, h.slot, word)
    requires || (error.Expired? && (word.gen != h.gen || word.refs == 0))
             || (error.CountOverflow? && IsAcquire(op) && word == Word(h.gen, MAX_REFS))
    ensures Justified(max, run, t, op, error)
  {
    hide Mine, View;
    var m: nat :| Mine(max, run, t, m) && HasWord(View(max, run, m), h.slot, word);
    assert Faulty(View(max, run, m), op, h, error);
    assert SawFault(max, run, t, op, h, error);
    assert Blamed(max, run, t, op, h, error);
  }

  lemma Pends(max: nat, run: seq<Action>, t: Tid, sh: Shared, op: Op, h: Handle, sig: nat)
    requires Now(max, run, t, sh) && Named(max, run, t, op, h) && IsRelease(op)
    requires SawWord(max, run, t, h.slot, Word(h.gen, 1)) && SawSignal(max, run, t, h.slot, sig)
    requires h.slot < |sh.slots| && sig < sh.slots[h.slot].required
    ensures Justified(max, run, t, op, FencePending)
  {
    hide Mine, View;
    assert SawRequired(max, run, t, h.slot, sh.slots[h.slot].required);
    assert SawPending(max, run, t, op, h);
    assert Blamed(max, run, t, op, h, FencePending);
  }

  lemma AcquireStory(max: nat, run: seq<Action>, t: Tid, sh: Shared, c: Call, held: bool, at: AcqAt, weak: bool)
    requires Now(max, run, t, sh) && Story(max, run, t, Acquiring(c, held, at))
    requires After(max, run) == AcquireStep(sh, t, c, held, at, weak).0
    ensures Story(max, run, t, AcquireStep(sh, t, c, held, at, weak).1)
  {
    hide Mine, View, After, Named, Justified, Asked;
    var pc := AcquireStep(sh, t, c, held, at, weak).1;
    if pc.Returned? && pc.outcome.Failed? {
      if at.AcqCas? && InBounds(sh, c.h) {
        FaultsBefore(max, run, t, c.op, c.h, at.cur, pc.outcome.error);
      } else {
        Faults(max, run, t, sh, c.op, c.h, pc.outcome.error);
      }
    }
  }

  lemma ReleaseStory(max: nat, run: seq<Action>, t: Tid, sh: Shared, c: Call, at: RelAt, weak: bool)
    requires Now(max, run, t, sh) && Story(max, run, t, Releasing(c, at))
    requires After(max, run) == ReleaseStep(sh, c, at, weak).0
    ensures Story(max, run, t, ReleaseStep(sh, c, at, weak).1)
  {
    hide Mine, View, After, Named, Justified, Asked;
    var pc := ReleaseStep(sh, c, at, weak).1;
    if pc.Returned? && pc.outcome.Failed? {
      if at.RelCas? && InBounds(sh, c.h) {
        FaultsBefore(max, run, t, c.op, c.h, at.cur, pc.outcome.error);
      } else if at.RelFence? && InBounds(sh, c.h) {
        Pends(max, run, t, sh, c.op, c.h, at.sig);
      } else {
        Faults(max, run, t, sh, c.op, c.h, pc.outcome.error);
      }
    }
  }

  lemma FinalizeStory(max: nat, run: seq<Action>, t: Tid, sh: Shared, c: Call, seen: nat, at: FinAt, weak: bool)
    requires InBounds(sh, c.h) && Now(max, run, t, sh) && Story(max, run, t, Finalizing(c, seen, at))
    requires After(max, run) == FinalizeStep(sh, t, c, seen, at, weak).0
    ensures Story(max, run, t, FinalizeStep(sh, t, c, seen, at, weak).1)
  {
    hide Mine, View, After, Named, Justified, Asked;
    var pc := FinalizeStep(sh, t, c, seen, at, weak).1;
    if pc.Returned? && pc.outcome.Failed? {
      if at.FinCas? {
        FaultsBefore(max, run, t, c.op, c.h, at.cur, pc.outcome.error);
      } else if at.FinFence? {
        Pends(max, run, t, sh, c.op, c.h, at.sig);
      } else {
        Faults(max, run, t, sh, c.op, c.h, pc.outcome.error);
      }
    }
  }

  lemma SignalStory(max: nat, run: seq<Action>, t: Tid, sh: Shared, c: Call, v: nat, at: SigAt)
    requires Now(max, run, t, sh) && Story(max, run, t, Signaling(c, v, at))
    requires After(max, run) == View(max, run, |run|) == SignalStep(sh, c, v, at).0
    ensures Story(max, run, t, SignalStep(sh, c, v, at).1)
  {
    hide Mine, View, After, Named, Justified, Asked;
    var pc := SignalStep(sh, c, v, at).1;
    if pc.Returned? && pc.outcome.Failed? {
      Faults(max, run, t, sh, c.op, c.h, pc.outcome.error);
    } else if pc.Returned? {
      assert SawRequired(max, run, t, c.h.slot, sh.slots[c.h.slot].required);
      assert SignalTold(max, run, t, c.op, c.h, pc.outcome.signaled, pc.outcome.required);
    } else if at.SigMax? {
      var m := |run| - 1;
      assert m + 1 == |run| && Raised(View(max, run, m), View(max, run, m + 1), c.h.slot, v, pc.sig.signaled);
    }
  }

  lemma RegisterStory(max: nat, run: seq<Action>, t: Tid, sh: Shared, r: Entry, at: RegAt)
    requires at.RegLoad? || at.RegStore? ==> at.i < |sh.slots|
    requires Now(max, run, t, sh) && Story(max, run, t, Registering(r, at))
    requires RegisterStep(sh, t, r, at).1 != Returned(r.op, Failed(NoFreeSlot))
    ensures Story(max, run, t, RegisterStep(sh, t, r, at).1)
  {
    hide Mine, View, Asked;
    var pc := RegisterStep(sh, t, r, at).1;
    if pc.Returned? && pc.outcome.Failed? {
      assert Refused(sh, r.op, pc.outcome.error);
      assert SawRefusal(max, run, t, r.op, pc.outcome.error);
    }
  }

  lemma BeginStory(max: nat, run: seq<Action>, t: Tid, sh: Shared, op: Op)
    requires Now(max, run, t, sh) && Asked(max, run, t, op)
    ensures Story(max, run, t, BeginStep(sh, t, op).1)
  {
    hide Mine, View, Asked;
    var pc := BeginStep(sh, t, op).1;
    if pc.Returned? && !pc.outcome.error.MalformedOwner? {
      assert Refused(sh, op, pc.outcome.error);
      assert SawRefusal(max, run, t, op, pc.outcome.error);
    } else if ById(op) && !pc.Returned? && !pc.Idle? {
      assert RecordIs(sh, op.id, Record(op.owner, pc.c.h));
    }
  }

  /** Every step of every thread keeps every thread's story. */
  lemma StoryStep(max: nat, run: seq<Action>, a: Action, t: Tid)
    requires max <= GENERATIONS && Story(max, run, t, PcAfter(max, run, t))
    ensures Story(max, Snoc(run, a), t, PcAfter(max, Snoc(run, a), t))
  {
    hide Story, Step, BeginStep, AcquireStep, ReleaseStep, FinalizeStep, SignalStep, RegisterStep;
    var next, s, pc := Snoc(run, a), Exec(Init(max), run), PcAfter(max, run, t);
    NowIsMine(max, run, a);
    if a.tid != t {
      OthersKeepTheirPc(s, a, t);
      StoryCarries(max, run, a, t, pc);
    } else if a.input.Begin? && Waiting(pc) {
      BeginsAnew(max, run, a);
      BeginTaken(s, a);
      BeginStory(max, next, t, s.sh, a.input.op);
    } else {
      StoryCarries(max, run, a, t, pc);
      OwnStep(max, run, a);
    }
  }

  lemma BeginTaken(s: State, a: Action)
    requires a.input.Begin? && Waiting(PcOf(s, a.tid))
    ensures (Step(s, a).sh, PcOf(Step(s, a), a.tid)) == BeginStep(s.sh, a.tid, a.input.op)
  {
  }

  lemma GoTaken(s: State, a: Action)
    ensures a.input.Go? ==>
              (Step(s, a).sh, PcOf(Step(s, a), a.tid)) == GoStep(s.sh, a.tid, PcOf(s, a.tid), a.input.weak)
    ensures a.input.Begin? && !Waiting(PcOf(s, a.tid)) ==> Step(s, a) == s
  {
  }

  lemma OwnStep(max: nat, run: seq<Action>, a: Action)
    requires max <= GENERATIONS && !(a.input.Begin? && Waiting(PcAfter(max, run, a.tid)))
    requires Story(max, Snoc(run, a), a.tid, PcAfter(max, run, a.tid))
    ensures Story(max, Snoc(run, a), a.tid, PcAfter(max, Snoc(run, a), a.tid))
  {
    hide Story, Step, AcquireStep, ReleaseStep, FinalizeStep, SignalStep, RegisterStep, Began, Writes, Inv;
    var next, s, t, pc := Snoc(run, a), Exec(Init(max), run), a.tid, PcAfter(max, run, a.tid);
    NowIsMine(max, run, a);
    GoTaken(s, a);
    assert next[..|next|] == next;
    if a.input.Go? {
      match pc
      case Idle =>
      case Returned(_, _) =>
      case Acquiring(c, held, at) => AcquireStory(max, next, t, s.sh, c, held, at, a.input.weak);
      case Releasing(c, at) => ReleaseStory(max, next, t, s.sh, c, at, a.input.weak);
      case Finalizing(c, seen, at) =>
        if InBounds(s.sh, c.h) { FinalizeStory(max, next, t, s.sh, c, seen, at, a.input.weak); }
      case Signaling(c, v, at) => SignalStory(max, next, t, s.sh, c, v, at);
      case Registering(r, at) =>
        if !((at.RegLoad? || at.RegStore?) && at.i >= |s.sh.slots|) {
          NoSpuriousFailure(max, next, t);
          RegisterStory(max, next, t, s.sh, r, at);
        }
    }
  }

  /** Every thread has its story after every run. */
  lemma {:induction false} Stories(max: nat, run: seq<Action>, t: Tid)
    requires max <= GENERATIONS
    ensures Story(max, run, t, PcAfter(max, run, t))
  {
    if run != [] {
      var front, a := run[..|run| - 1], run[|run| - 1];
      Stories(max, front, t);
      StoryStep(max, front, a, t);
      assert Snoc(front, a) == run;
    }
  }

  // ---------------------------------------------------------------- counts in answers

  // What the entry a thread carries says
  predicate Told(log: seq<Event>, pc: Pc)
  {
    Wrote(pc).Some? ==>
      var k := Wrote(pc).value;
      && k < |log|
      && if pc.Finalizing? then Entered(log, k, pc.c) && Balance(log, k) == 1
         else if pc.outcome.DidAcquire? then
           && IsAcquire(pc.op) && log[k].Acquired? && log[k].owner == pc.op.owner
           && pc.outcome.refs == Balance(log, k)
         else
           && IsRelease(pc.op) && log[k].owner == pc.op.owner
           && if pc.outcome.removed then log[k].Removed? && Balance(log, k) == 1 && pc.outcome.remaining == 0
              else log[k].Released? && pc.outcome.remaining == Balance(log, k) > 0
  }

  lemma ToldCarries(x: seq<Event>, y: seq<Event>, pc: Pc)
    requires |x| <= |y| && x == y[..|x|] && Told(x, pc)
    ensures Told(y, pc)
  {
    if Wrote(pc).Some? {
      var k := Wrote(pc).value;
      assert y[..k + 1] == x[..k + 1];
    }
  }

  // The newest entry's balance is the count of a slot it left live, and 1 when it retired the slot.
  lemma NewestBalance(sh: Shared, k: nat)
    requires AllCountsOk(sh) && |sh.log| == k + 1
    requires sh.log[k].slot < |sh.slots| && sh.log[k].epoch <= sh.slots[sh.log[k].slot].epoch
    ensures var slot := sh.slots[sh.log[k].slot];
            && (sh.log[k].epoch < slot.epoch ==> Balance(sh.log, k) == 1)
            && (sh.log[k].epoch == slot.epoch && slot.word.refs > 0 ==> Balance(sh.log, k) == slot.word.refs)
  {
    assert sh.log[..k + 1] == sh.log;
    assert CountsOk(sh, sh.log[k].slot, sh.log[k].epoch);
  }

  lemma AcquireTold(sh: Shared, t: Tid, c: Call, held: bool, at: AcqAt, weak: bool)
    requires AllCountsOk(AcquireStep(sh, t, c, held, at, weak).0) && IsAcquire(c.op) && c.o == c.op.owner
    ensures var (sh', pc) := AcquireStep(sh, t, c, held, at, weak); Told(sh'.log, pc)
  {
    hide AllCountsOk, Balance;
    var (sh', pc) := AcquireStep(sh, t, c, held, at, weak);
    if Wrote(pc).Some? { NewestBalance(sh', |sh.log|); }
  }

  lemma ReleaseTold(sh: Shared, c: Call, at: RelAt, weak: bool)
    requires AllCountsOk(ReleaseStep(sh, c, at, weak).0) && IsRelease(c.op) && c.o == c.op.owner
    ensures var (sh', pc) := ReleaseStep(sh, c, at, weak); Told(sh'.log, pc)
  {
    hide AllCountsOk, Balance;
    var (sh', pc) := ReleaseStep(sh, c, at, weak);
    if Wrote(pc).Some? { NewestBalance(sh', |sh.log|); }
  }

  lemma FinalizeTold(sh: Shared, t: Tid, c: Call, seen: nat, at: FinAt, weak: bool)
    requires InBounds(sh, c.h) && Told(sh.log, Finalizing(c, seen, at)) && IsRelease(c.op) && c.o == c.op.owner
    requires AllCountsOk(FinalizeStep(sh, t, c, seen, at, weak).0)
    ensures var (sh', pc) := FinalizeStep(sh, t, c, seen, at, weak); Told(sh'.log, pc)
  {
    hide AllCountsOk, Balance;
    var (sh', pc) := FinalizeStep(sh, t, c, seen, at, weak);
    if Wrote(pc).Some? && Wrote(Finalizing(c, seen, at)).None? { NewestBalance(sh', |sh.log|); }
  }

  lemma ToldStep(max: nat, run: seq<Action>, a: Action, t: Tid)
    requires max <= GENERATIONS && Told(After(max, run).log, PcAfter(max, run, t))
    ensures Told(After(max, Snoc(run, a)).log, PcAfter(max, Snoc(run, a), t))
  {
    hide Told, Step, AcquireStep, ReleaseStep, FinalizeStep, SignalStep, RegisterStep, Began, Writes,
         BeginStep, CoreInv, SharedInv, Named, SawWord, SawSignal, DidRaise, Entered;
    var next, s, pc := Snoc(run, a), Exec(Init(max), run), PcAfter(max, run, t);
    NowIsMine(max, run, a);
    LogGrew(max, run, a);
    GoTaken(s, a);
    StepWrites(s, a);
    if a.tid != t {
      OthersKeepTheirPc(s, a, t);
      ToldCarries(After(max, run).log, After(max, next).log, pc);
    } else if a.input.Begin? && Waiting(pc) {
      NothingTold(After(max, next).log, PcAfter(max, next, t));
    } else if a.input.Go? {
      Stories(max, run, t);
      CountsAfter(max, next);
      match pc
      case Acquiring(c, held, at) => AcquireTold(s.sh, t, c, held, at, a.input.weak);
      case Releasing(c, at) => ReleaseTold(s.sh, c, at, a.input.weak);
      case Finalizing(c, seen, at) =>
        if InBounds(s.sh, c.h) { FinalizeTold(s.sh, t, c, seen, at, a.input.weak); }
      case Signaling(c, v, at) =>
        SignalWritesNothing(s.sh, c, v, at);
        NothingTold(After(max, next).log, PcAfter(max, next, t));
      case Registering(r, at) => RegisterTold(s.sh, t, r, at, a.input.weak);
      case _ =>
    }
  }

  lemma NothingTold(log: seq<Event>, pc: Pc)
    requires Wrote(pc).None?
    ensures Told(log, pc)
  {
  }

  lemma SignalWritesNothing(sh: Shared, c: Call, v: nat, at: SigAt)
    ensures Wrote(SignalStep(sh, c, v, at).1).None?
  {
  }

  lemma RegisterTold(sh: Shared, t: Tid, r: Entry, at: RegAt, weak: bool)
    ensures var (sh', pc) := GoStep(sh, t, Registering(r, at), weak); Told(sh'.log, pc)
  {
  }

  lemma CountsAfter(max: nat, run: seq<Action>)
    requires max <= GENERATIONS
    ensures AllCountsOk(After(max, run))
  {
    RunKeeps(max, run);
  }

  lemma {:induction false} ToldAlways(max: nat, run: seq<Action>, t: Tid)
    requires max <= GENERATIONS
    ensures Told(After(max, run).log, PcAfter(max, run, t))
  {
    if run != [] {
      var front, a := run[..|run| - 1], run[|run| - 1];
      ToldAlways(max, front, t);
      ToldStep(max, front, a, t);
      assert Snoc(front, a) == run;
    }
  }

  // ---------------------------------------------------------------- theorems

  /**
   A call answers with success exactly when it made a log entry, and then with that one. The
   entry is of its own kind, on the handle the call was given or looked up and for its owner.
   The count answered is one plus the acquires less the releases of that registration up to
   and with the entry; a release answers removed, and zero, exactly when its entry is a removal.
   */
  lemma AnswerIsItsOwnEntry(max: nat, run: seq<Action>, t: Tid, k: nat)
    requires max <= GENERATIONS && PcAfter(max, run, t).Returned?
    ensures var pc, log := PcAfter(max, run, t), After(max, run).log;
            && Asked(max, run, t, pc.op)
            && (Own(max, run, t, k) <==>
                  (pc.outcome.DidAcquire? || pc.outcome.DidRelease?) && pc.outcome.index == k)
            && (Own(max, run, t, k) ==>
                  && k < |log| && log[k].owner == pc.op.owner && Named(max, run, t, pc.op, log[k].handle)
                  && (IsAcquire(pc.op) <==> log[k].Acquired?) && (IsAcquire(pc.op) <==> pc.outcome.DidAcquire?)
                  && (IsRelease(pc.op) <==> pc.outcome.DidRelease?)
                  && (pc.outcome.DidAcquire? ==> pc.outcome.refs == Balance(log, k))
                  && (pc.outcome.DidRelease? ==>
                        && (pc.outcome.removed <==> log[k].Removed?)
                        && (!pc.outcome.removed ==> pc.outcome.remaining == Balance(log, k) > 0)
                        && (pc.outcome.removed ==> pc.outcome.remaining == 0 && Balance(log, k) == 1)))
  {
    hide Own, Named, Justified, Balance, Asked, SignalTold;
    EntriesKept(max, run, t);
    Stories(max, run, t);
    ToldAlways(max, run, t);
  }

  predicate SaysRemoved(max: nat, run: seq<Action>, t: Tid)
  {
    var pc := PcAfter(max, run, t); pc.Returned? && pc.outcome.DidRelease? && pc.outcome.removed
  }

  lemma {:induction false} LogPrefix(max: nat, run: seq<Action>, n: nat)
    requires n <= |run|
    ensures After(max, run[..n]).log <= After(max, run).log && Writes(max, run[..n]) <= Writes(max, run)
  {
    hide After, Writes;
    if n == |run| {
      assert run[..n] == run;
    } else {
      var front, a := run[..|run| - 1], run[|run| - 1];
      LogPrefix(max, front, n);
      assert front[..n] == run[..n];
      assert Snoc(front, a) == run;
      LogGrew(max, front, a);
      WritesGrow(max, front, a);
    }
  }

  lemma {:induction false} SameCall(max: nat, run: seq<Action>, n: nat, t: Tid)
    requires n <= |run| && Began(max, run, t) < n
    ensures Began(max, run[..n], t) == Began(max, run, t)
  {
    if n < |run| {
      var front := run[..|run| - 1];
      assert front[..n] == run[..n];
      SameCall(max, front, n, t);
    } else {
      assert run[..n] == run;
    }
  }

  /** Two answers that report one registration removed are one answer, of one call of one thread. */
  lemma RemovedIsToldOnce(max: nat, run: seq<Action>, n: nat, t: Tid, u: Tid)
    requires max <= GENERATIONS && n <= |run| && SaysRemoved(max, run[..n], t) && SaysRemoved(max, run, u)
    ensures PcAfter(max, run, u).outcome.index < |After(max, run).log|
    ensures PcAfter(max, run[..n], t).outcome.index < |After(max, run).log|
    ensures var log, j, k := After(max, run).log,
                             PcAfter(max, run[..n], t).outcome.index, PcAfter(max, run, u).outcome.index;
            log[j].slot == log[k].slot && log[j].epoch == log[k].epoch ==>
              t == u && j == k && Began(max, run[..n], t) == Began(max, run, u)
  {
    hide PcAfter, After, Inv, Writes, Began, Balance, Named, Asked;
    var log, j, k := After(max, run).log,
                     PcAfter(max, run[..n], t).outcome.index, PcAfter(max, run, u).outcome.index;
    AnswerIsItsOwnEntry(max, run[..n], t, j);
    AnswerIsItsOwnEntry(max, run, u, k);
    LogPrefix(max, run, n);
    if log[j].slot == log[k].slot && log[j].epoch == log[k].epoch {
      OneRemoval(max, run, j, k);
      SameCall(max, run, n, u);
    }
  }

  lemma OneRemoval(max: nat, run: seq<Action>, j: nat, k: nat)
    requires max <= GENERATIONS && j < |After(max, run).log| && k < |After(max, run).log|
    requires After(max, run).log[j].Removed? && After(max, run).log[k].Removed?
    requires After(max, run).log[j].slot == After(max, run).log[k].slot
    requires After(max, run).log[j].epoch == After(max, run).log[k].epoch
    ensures j == k
  {
    RunKeeps(max, run);
  }

  /**
   A signal answers the maximum of its own value and what the slot had signalled, as its own
   fetch-max left it, and the required value it then read; both on the slot of its handle.
   */
  lemma SignalAnswer(max: nat, run: seq<Action>, t: Tid) returns (h: Handle, m: nat, n: nat)
    requires max <= GENERATIONS
    requires PcAfter(max, run, t).Returned? && PcAfter(max, run, t).outcome.DidSignal?
    ensures var pc := PcAfter(max, run, t);
            && IsSignal(pc.op) && Asked(max, run, t, pc.op) && Named(max, run, t, pc.op, h)
            && Mine(max, run, t, m) && Mine(max, run, t, n)
            && var a, b, c := View(max, run, m), View(max, run, m + 1), View(max, run, n);
               && h.slot < |a.slots| && h.slot < |b.slots| && h.slot < |c.slots|
               && b.slots[h.slot].signaled == pc.outcome.signaled
               && pc.outcome.signaled >= pc.op.value && pc.outcome.signaled >= a.slots[h.slot].signaled
               && pc.outcome.signaled in {pc.op.value, a.slots[h.slot].signaled}
               && c.slots[h.slot].required == pc.outcome.required
  {
    hide Mine, View, Named, Asked, PcAfter;
    var pc := PcAfter(max, run, t);
    Stories(max, run, t);
    h :| SignalTold(max, run, t, pc.op, h, pc.outcome.signaled, pc.outcome.required);
    m :| Mine(max, run, t, m)
         && Raised(View(max, run, m), View(max, run, m + 1), h.slot, pc.op.value, pc.outcome.signaled);
    n :| Mine(max, run, t, n) && HasRequired(View(max, run, n), h.slot, pc.outcome.required);
  }

  /** A call fails only for a reason that held in front of one of its own steps. */
  lemma FailureIsJustified(max: nat, run: seq<Action>, t: Tid)
    requires max <= GENERATIONS
    requires PcAfter(max, run, t).Returned? && PcAfter(max, run, t).outcome.Failed?
    ensures var pc := PcAfter(max, run, t);
            Asked(max, run, t, pc.op) && Justified(max, run, t, pc.op, pc.outcome.error)
  {
    Stories(max, run, t);
  }

  // ---------------------------------------------------------------- locks

  predicate AtWrite(pc: Pc)
  {
    (pc.Finalizing? && !pc.fin.FinLock?) || (pc.Registering? && !pc.reg.RegLock?)
  }

  predicate AtRead(pc: Pc) { pc.Acquiring? && pc.held }

  // Thread t holds a lock exactly where its own call took one and has not dropped it.
  predicate LocksOk(sh: Shared, t: Tid, pc: Pc)
  {
    (sh.writer == Some(t) <==> AtWrite(pc)) && (t in sh.readers <==> AtRead(pc))
  }

  lemma BeginLocks(sh: Shared, t: Tid, op: Op, pc: Pc)
    requires LocksOk(sh, t, pc) && Waiting(pc)
    ensures LocksOk(BeginStep(sh, t, op).0, t, BeginStep(sh, t, op).1)
  {
  }

  lemma AcquireLocks(sh: Shared, t: Tid, c: Call, held: bool, at: AcqAt, weak: bool)
    requires LocksOk(sh, t, Acquiring(c, held, at))
    ensures var (sh', pc) := AcquireStep(sh, t, c, held, at, weak); LocksOk(sh', t, pc)
  {
  }

  lemma ReleaseLocks(sh: Shared, t: Tid, c: Call, at: RelAt, weak: bool)
    requires LocksOk(sh, t, Releasing(c, at))
    ensures var (sh', pc) := ReleaseStep(sh, c, at, weak); LocksOk(sh', t, pc)
  {
  }

  lemma FinalizeLocks(sh: Shared, t: Tid, c: Call, seen: nat, at: FinAt, weak: bool)
    requires InBounds(sh, c.h) && LocksOk(sh, t, Finalizing(c, seen, at))
    ensures var (sh', pc) := FinalizeStep(sh, t, c, seen, at, weak); LocksOk(sh', t, pc)
  {
  }

  lemma RegisterLocks(sh: Shared, t: Tid, r: Entry, at: RegAt)
    requires at.RegLoad? || at.RegStore? ==> at.i < |sh.slots|
    requires LocksOk(sh, t, Registering(r, at))
    ensures var (sh', pc) := RegisterStep(sh, t, r, at); LocksOk(sh', t, pc)
  {
  }

  lemma GoLocks(sh: Shared, t: Tid, pc: Pc, weak: bool)
    requires LocksOk(sh, t, pc)
    ensures LocksOk(GoStep(sh, t, pc, weak).0, t, GoStep(sh, t, pc, weak).1)
  {
    hide AcquireStep, ReleaseStep, FinalizeStep, RegisterStep;
    match pc
    case Acquiring(c, held, at) => AcquireLocks(sh, t, c, held, at, weak);
    case Releasing(c, at) => ReleaseLocks(sh, t, c, at, weak);
    case Finalizing(c, seen, at) => if InBounds(sh, c.h) { FinalizeLocks(sh, t, c, seen, at, weak); }
    case Registering(r, at) =>
      if !((at.RegLoad? || at.RegStore?) && at.i >= |sh.slots|) { RegisterLocks(sh, t, r, at); }
    case _ =>
  }

  lemma LocksStep(max: nat, run: seq<Action>, a: Action, t: Tid)
    requires max <= GENERATIONS && LocksOk(After(max, run), t, PcAfter(max, run, t))
    ensures LocksOk(After(max, Snoc(run, a)), t, PcAfter(max, Snoc(run, a), t))
  {
    hide Step, BeginStep, GoStep, SharedInv, PcInv, StepParts;
    var s := Exec(Init(max), run);
    NowIsMine(max, run, a);
    if a.tid == t {
      GoTaken(s, a);
      if a.input.Go? {
        GoLocks(s.sh, t, PcOf(s, t), a.input.weak);
      } else if Waiting(PcOf(s, t)) {
        BeginTaken(s, a);
        BeginLocks(s.sh, t, a.input.op, PcOf(s, t));
      }
    } else {
      OthersKeepTheirPc(s, a, t);
      RunKeeps(max, run);
      assert PcInv(s.sh, a.tid, PcOf(s, a.tid));
      StepPartsKept(s, a);
    }
  }

  /** A thread holds the write or the read lock exactly in the lock's part of a call, so none outlives a call. */
  lemma {:induction false} NoLockOutlivesItsCall(max: nat, run: seq<Action>, t: Tid)
    requires max <= GENERATIONS
    ensures LocksOk(After(max, run), t, PcAfter(max, run, t))
    ensures Waiting(PcAfter(max, run, t)) ==> After(max, run).writer != Some(t) && t !in After(max, run).readers
  {
    if run != [] {
      var front, a := run[..|run| - 1], run[|run| - 1];
      NoLockOutlivesItsCall(max, front, t);
      LocksStep(max, front, a, t);
      assert Snoc(front, a) == run;
    }
  }
}
