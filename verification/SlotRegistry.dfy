/**
 The generational GPU slot registry as a machine of interleaved atomic steps.

 Every atomic load, store, compare-and-swap or fetch-max of a slot, and every
 taking of the records lock, is one step. Any number of threads run at once and
 a run is any list of (thread, input) pairs. What one thread does to
 lock-guarded data that only the lock holder can see is joined to one step.
 */
module SlotRegistry {
  import opened Common

  const GENERATIONS: nat := 0x1_0000_0000
  const MAX_REFS: nat := 0xffff_ffff
  const SCOPE_TEXT_MAX: nat := 128

  type Tid = nat
  type Id = string

  datatype Owner = Owner(tenant: string, producer: string, device: string)

  // Slot state word: generation in the high half, count in the low half.
  datatype Word = Word(gen: nat, refs: nat)

  // Slot handle: generation in the high half, slot index in the low half.
  datatype Handle = Handle(gen: nat, slot: nat)

  // `epoch` is a history variable: how many registrations of the slot were retired.
  datatype Slot = Slot(word: Word, signaled: nat, required: nat,
                       owner: Option<Owner>, descriptor: Option<Id>, epoch: nat)

  datatype Record = Record(owner: Owner, handle: Handle)

  // History: what each registration, named by slot and epoch, was issued with.
  datatype Issue = Issue(id: Id, owner: Owner, required: nat)

  // History: one entry per successful count change. `seen` is the epoch at which
  // the call's liveness check passed, `epoch` the one its compare-and-swap hit.
  datatype Event =
    | Acquired(slot: nat, epoch: nat, handle: Handle, owner: Owner, seen: nat)
    | Released(slot: nat, epoch: nat, handle: Handle, owner: Owner, seen: nat)
    | Removed(slot: nat, epoch: nat, handle: Handle, owner: Owner, seen: nat, signaled: nat)

  datatype Shared = Shared(
    slots: seq<Slot>,
    records: map<Id, Record>,
    free: seq<nat>,
    writer: Option<Tid>,
    readers: set<Tid>,
    issued: map<(nat, nat), Issue>,
    log: seq<Event>)

  datatype Error =
    | MalformedOwner
    | UnknownDescriptor
    | RecordOwnerMismatch
    | OutOfBounds
    | Expired
    | SlotOwnerMismatch
    | CountOverflow
    | FencePending
    | LimitReached
    | NoFreeSlot
    | DuplicateDescriptor

  // A registration's handle is the one it records. History: its `epoch` is the slot's epoch
  // at the publishing store, and `index` is where the call's event stands in the log.
  datatype Outcome =
    | DidRegister(handle: Handle, epoch: nat)
    | DidAcquire(refs: nat, index: nat)
    | DidRelease(remaining: nat, removed: bool, index: nat)
    | DidSignal(signaled: nat, required: nat)
    | Failed(error: Error)

  datatype Op =
    | AcquireSlot(handle: Handle, owner: Owner)
    | Acquire(id: Id, owner: Owner)
    | ReleaseSlot(handle: Handle, owner: Owner)
    | Release(id: Id, owner: Owner)
    | SignalSlot(handle: Handle, owner: Owner, value: nat)
    | Signal(id: Id, owner: Owner, value: nat)
    | Register(id: Id, owner: Owner, required: nat)

  // The arguments of a call on a handle: `op` is the public call it came from.
  datatype Call = Call(op: Op, h: Handle, o: Owner)

  datatype Entry = Entry(op: Op, id: Id, o: Owner, req: nat)

  // Next steps of acquire_slot: liveness, owner check, load, compare-and-swap.
  datatype AcqAt = AcqLive | AcqOwner(seen: nat) | AcqLoad(seen: nat) | AcqCas(seen: nat, cur: Word)

  // Next steps of release_slot; RelFence has loaded the signalled value.
  datatype RelAt =
    RelLive | RelOwner(seen: nat) | RelLoad(seen: nat) | RelCas(seen: nat, cur: Word) | RelFence(seen: nat, sig: nat)

  // Next steps of finalize_slot_release; all but FinLock hold the records write lock. The last
  // three carry the log index of the removal.
  datatype FinAt =
    FinLock | FinOwner | FinLoad | FinCas(cur: Word) | FinFence(cur: Word, sig: nat) | FinRetire(cur: Word)
    | FinUnlink(index: nat) | FinDisown(index: nat) | FinFree(index: nat)

  // Next steps of signal_fence_slot.
  datatype SigAt = SigLive | SigOwner(seen: nat) | SigMax(seen: nat) | SigRequired(signaled: nat)

  // The stores of register_private, in order.
  datatype Store = PutRequired | PutSignaled | PutOwner | PutDescriptor | PutState | PutRecord

  // Next steps of register_private; all but RegLock hold the records write lock.
  datatype RegAt = RegLock | RegPop | RegLoad(i: nat) | RegStore(i: nat, gen: nat, store: Store)

  // Where a thread is. `held` says that `acquire` keeps its read lock.
  datatype Pc =
    | Idle
    | Returned(op: Op, outcome: Outcome)
    | Acquiring(c: Call, held: bool, acq: AcqAt)
    | Releasing(c: Call, rel: RelAt)
    | Finalizing(c: Call, seen: nat, fin: FinAt)
    | Signaling(c: Call, v: nat, sig: SigAt)
    | Registering(r: Entry, reg: RegAt)

  datatype State = State(sh: Shared, pcs: map<Tid, Pc>)

  // `weak` is the spurious failure that a weak compare-and-swap may report.
  datatype Input = Begin(op: Op) | Go(weak: bool)

  datatype Action = Action(tid: Tid, input: Input)

  // ---------------------------------------------------------------- words

  function Pack(high: nat, low: nat): nat { high * GENERATIONS + low }

  function Unpack(word: nat): (nat, nat) { (word / GENERATIONS, word % GENERATIONS) }

  /** Pairs of 32-bit halves and 64-bit words are the same thing, so a compare-and-swap
      on the pair is a compare-and-swap on the word. */
  lemma PackedWordIsThePair(high: nat, low: nat, word: nat)
    requires high < GENERATIONS && low < GENERATIONS
    requires word < GENERATIONS * GENERATIONS
    ensures Pack(high, low) < GENERATIONS * GENERATIONS
    ensures Unpack(Pack(high, low)) == (high, low)
    ensures Pack(Unpack(word).0, Unpack(word).1) == word
    ensures Unpack(word).0 < GENERATIONS && Unpack(word).1 < GENERATIONS
  {
  }

  function GenOf(epoch: nat): nat { (1 + epoch) % GENERATIONS }

  function NextGen(gen: nat): nat { (gen + 1) % GENERATIONS }

  // ---------------------------------------------------------------- helpers

  predicate ValidText(s: string) { 0 < |s| <= SCOPE_TEXT_MAX }

  predicate ValidOwner(o: Owner)
  {
    ValidText(o.tenant) && ValidText(o.producer) && ValidText(o.device)
  }

  predicate InBounds(sh: Shared, h: Handle) { h.slot < |sh.slots| }

  predicate Live(sh: Shared, i: nat)
    requires i < |sh.slots|
  {
    sh.slots[i].word.refs > 0
  }

  function PcOf(s: State, t: Tid): Pc { if t in s.pcs then s.pcs[t] else Idle }

  function WithSlot(sh: Shared, i: nat, slot: Slot): Shared
    requires i < |sh.slots|
  {
    sh.(slots := sh.slots[i := slot])
  }

  function WithWord(sh: Shared, i: nat, word: Word, event: Event): Shared
    requires i < |sh.slots|
  {
    WithSlot(sh, i, sh.slots[i].(word := word)).(log := sh.log + [event])
  }

  function DropRead(sh: Shared, t: Tid, held: bool): Shared
  {
    if held then sh.(readers := sh.readers - {t}) else sh
  }

  function DropWrite(sh: Shared): Shared { sh.(writer := None) }

  predicate LockFree(sh: Shared) { sh.writer.None? && sh.readers == {} }

  // ---------------------------------------------------------------- steps

  function BeginStep(sh: Shared, t: Tid, op: Op): (Shared, Pc)
  {
    if !ValidOwner(op.owner) then (sh, Returned(op, Failed(MalformedOwner)))
    else if op.AcquireSlot? then (sh, Acquiring(Call(op, op.handle, op.owner), false, AcqLive))
    else if op.ReleaseSlot? then (sh, Releasing(Call(op, op.handle, op.owner), RelLive))
    else if op.SignalSlot? then (sh, Signaling(Call(op, op.handle, op.owner), op.value, SigLive))
    else if op.Register? then (sh, Registering(Entry(op, op.id, op.owner, op.required), RegLock))
    else if sh.writer.Some? then (sh, Idle)
    else if op.id !in sh.records then (sh, Returned(op, Failed(UnknownDescriptor)))
    else if sh.records[op.id].owner != op.owner then (sh, Returned(op, Failed(RecordOwnerMismatch)))
    else
      var c := Call(op, sh.records[op.id].handle, op.owner);
      if op.Acquire? then (sh.(readers := sh.readers + {t}), Acquiring(c, true, AcqLive))
      else if op.Release? then (sh, Releasing(c, RelLive))
      else (sh, Signaling(c, op.value, SigLive))
  }

  predicate Expires(slot: Slot, h: Handle) { slot.word.gen != h.gen || slot.word.refs == 0 }

  function AcquireStep(sh: Shared, t: Tid, c: Call, held: bool, at: AcqAt, weak: bool): (Shared, Pc)
  {
    if !InBounds(sh, c.h) then (DropRead(sh, t, held), Returned(c.op, Failed(OutOfBounds)))
    else
      var slot := sh.slots[c.h.slot];
      match at
      case AcqLive =>
        if Expires(slot, c.h) then (DropRead(sh, t, held), Returned(c.op, Failed(Expired)))
        else (sh, Acquiring(c, held, AcqOwner(slot.epoch)))
      case AcqOwner(seen) =>
        if slot.owner != Some(c.o) then (DropRead(sh, t, held), Returned(c.op, Failed(SlotOwnerMismatch)))
        else (sh, Acquiring(c, held, AcqLoad(seen)))
      case AcqLoad(seen) => (sh, Acquiring(c, held, AcqCas(seen, slot.word)))
      case AcqCas(seen, cur) =>
        if cur.gen != c.h.gen || cur.refs == 0 then (DropRead(sh, t, held), Returned(c.op, Failed(Expired)))
        else if cur.refs == MAX_REFS then (DropRead(sh, t, held), Returned(c.op, Failed(CountOverflow)))
        else if weak || slot.word != cur then (sh, Acquiring(c, held, AcqCas(seen, slot.word)))
        else
          var event := Acquired(c.h.slot, slot.epoch, c.h, c.o, seen);
          (DropRead(WithWord(sh, c.h.slot, Word(c.h.gen, cur.refs + 1), event), t, held),
           Returned(c.op, DidAcquire(cur.refs + 1, |sh.log|)))
  }

  function ReleaseStep(sh: Shared, c: Call, at: RelAt, weak: bool): (Shared, Pc)
  {
    if !InBounds(sh, c.h) then (sh, Returned(c.op, Failed(OutOfBounds)))
    else
      var slot := sh.slots[c.h.slot];
      match at
      case RelLive =>
        if Expires(slot, c.h) then (sh, Returned(c.op, Failed(Expired)))
        else (sh, Releasing(c, RelOwner(slot.epoch)))
      case RelOwner(seen) =>
        if slot.owner != Some(c.o) then (sh, Returned(c.op, Failed(SlotOwnerMismatch)))
        else (sh, Releasing(c, RelLoad(seen)))
      case RelLoad(seen) => (sh, Releasing(c, RelCas(seen, slot.word)))
      case RelCas(seen, cur) =>
        if cur.gen != c.h.gen || cur.refs == 0 then (sh, Returned(c.op, Failed(Expired)))
        else if cur.refs == 1 then (sh, Releasing(c, RelFence(seen, slot.signaled)))
        else if weak || slot.word != cur then (sh, Releasing(c, RelCas(seen, slot.word)))
        else
          var event := Released(c.h.slot, slot.epoch, c.h, c.o, seen);
          (WithWord(sh, c.h.slot, Word(c.h.gen, cur.refs - 1), event),
           Returned(c.op, DidRelease(cur.refs - 1, false, |sh.log|)))
      case RelFence(seen, sig) =>
        if sig < slot.required then (sh, Returned(c.op, Failed(FencePending)))
        else (sh, Finalizing(c, seen, FinLock))
  }

  function FinalizeStep(sh: Shared, t: Tid, c: Call, seen: nat, at: FinAt, weak: bool): (Shared, Pc)
    requires InBounds(sh, c.h)
  {
    var slot := sh.slots[c.h.slot];
    match at
    case FinLock =>
      if !LockFree(sh) then (sh, Finalizing(c, seen, FinLock))
      else (sh.(writer := Some(t)), Finalizing(c, seen, FinOwner))
    case FinOwner =>
      if slot.owner != Some(c.o) then (DropWrite(sh), Returned(c.op, Failed(SlotOwnerMismatch)))
      else (sh, Finalizing(c, seen, FinLoad))
    case FinLoad => (sh, Finalizing(c, seen, FinCas(slot.word)))
    case FinCas(cur) =>
      if cur.gen != c.h.gen || cur.refs == 0 then (DropWrite(sh), Returned(c.op, Failed(Expired)))
      else if cur.refs == 1 then (sh, Finalizing(c, seen, FinFence(cur, slot.signaled)))
      else if weak || slot.word != cur then (sh, Finalizing(c, seen, FinCas(slot.word)))
      else
        var event := Released(c.h.slot, slot.epoch, c.h, c.o, seen);
        (DropWrite(WithWord(sh, c.h.slot, Word(c.h.gen, cur.refs - 1), event)),
         Returned(c.op, DidRelease(cur.refs - 1, false, |sh.log|)))
    case FinFence(cur, sig) =>
      if sig < slot.required then (DropWrite(sh), Returned(c.op, Failed(FencePending)))
      else (sh, Finalizing(c, seen, FinRetire(cur)))
    case FinRetire(cur) =>
      if slot.word != cur then (sh, Finalizing(c, seen, FinCas(slot.word)))
      else
        var event := Removed(c.h.slot, slot.epoch, c.h, c.o, seen, slot.signaled);
        (Retiring(sh, c.h.slot, event), Finalizing(c, seen, FinUnlink(|sh.log|)))
    case FinUnlink(k) => (Unlinking(sh, c.h.slot), Finalizing(c, seen, FinDisown(k)))
    case FinDisown(k) => (WithSlot(sh, c.h.slot, slot.(owner := None)), Finalizing(c, seen, FinFree(k)))
    case FinFree(k) => (DropWrite(sh.(free := sh.free + [c.h.slot])), Returned(c.op, DidRelease(0, true, k)))
  }

  // The retiring compare-and-swap: no references and the next generation in one step.
  function Retiring(sh: Shared, i: nat, event: Event): Shared
    requires i < |sh.slots|
  {
    var slot := sh.slots[i];
    WithSlot(sh, i, slot.(word := Word(NextGen(slot.word.gen), 0), epoch := slot.epoch + 1)).(log := sh.log + [event])
  }

  function Unlinking(sh: Shared, i: nat): Shared
    requires i < |sh.slots|
  {
    var id := sh.slots[i].descriptor;
    WithSlot(sh, i, sh.slots[i].(descriptor := None))
      .(records := if id.None? then sh.records else sh.records - {id.value})
  }

  function SignalStep(sh: Shared, c: Call, v: nat, at: SigAt): (Shared, Pc)
  {
    if !InBounds(sh, c.h) then (sh, Returned(c.op, Failed(OutOfBounds)))
    else
      var slot := sh.slots[c.h.slot];
      match at
      case SigLive =>
        if Expires(slot, c.h) then (sh, Returned(c.op, Failed(Expired)))
        else (sh, Signaling(c, v, SigOwner(slot.epoch)))
      case SigOwner(seen) =>
        if slot.owner != Some(c.o) then (sh, Returned(c.op, Failed(SlotOwnerMismatch)))
        else (sh, Signaling(c, v, SigMax(seen)))
      case SigMax(seen) =>
        var top := if slot.signaled < v then v else slot.signaled;
        (WithSlot(sh, c.h.slot, slot.(signaled := top)), Signaling(c, v, SigRequired(top)))
      case SigRequired(signaled) => (sh, Returned(c.op, DidSignal(signaled, slot.required)))
  }

  function RegisterStep(sh: Shared, t: Tid, r: Entry, at: RegAt): (Shared, Pc)
    requires at.RegLoad? || at.RegStore? ==> at.i < |sh.slots|
  {
    match at
    case RegLock =>
      if !LockFree(sh) then (sh, Registering(r, RegLock))
      else (sh.(writer := Some(t)), Registering(r, RegPop))
    case RegPop =>
      if |sh.records| >= |sh.slots| then (DropWrite(sh), Returned(r.op, Failed(LimitReached)))
      else if r.id in sh.records then (DropWrite(sh), Returned(r.op, Failed(DuplicateDescriptor)))
      else if sh.free == [] then (DropWrite(sh), Returned(r.op, Failed(NoFreeSlot)))
      else
        var last := |sh.free| - 1;
        (sh.(free := sh.free[..last]), Registering(r, RegLoad(sh.free[last])))
    case RegLoad(i) => (sh, Registering(r, RegStore(i, sh.slots[i].word.gen, PutRequired)))
    case RegStore(i, gen, store) =>
      if store.PutRecord? then
        var h := Handle(gen, i);
        (DropWrite(sh.(records := sh.records[r.id := Record(r.o, h)])),
         Returned(r.op, DidRegister(h, sh.slots[i].epoch)))
      else if store.PutState? then
        (Publishing(sh, i, gen, Issue(r.id, r.o, r.req)), Registering(r, RegStore(i, gen, PutRecord)))
      else (WithSlot(sh, i, Stored(sh.slots[i], r, store)), Registering(r, RegStore(i, gen, NextStore(store))))
  }

  function Stored(slot: Slot, r: Entry, store: Store): Slot
  {
    match store
    case PutRequired => slot.(required := r.req)
    case PutSignaled => slot.(signaled := 0)
    case PutOwner => slot.(owner := Some(r.o))
    case PutDescriptor => slot.(descriptor := Some(r.id))
    case _ => slot
  }

  function NextStore(store: Store): Store
  {
    match store
    case PutRequired => PutSignaled
    case PutSignaled => PutOwner
    case PutOwner => PutDescriptor
    case PutDescriptor => PutState
    case _ => PutRecord
  }

  // The publishing store: the slot becomes live with one reference.
  function Publishing(sh: Shared, i: nat, gen: nat, issue: Issue): Shared
    requires i < |sh.slots|
  {
    var slot := sh.slots[i];
    WithSlot(sh, i, slot.(word := Word(gen, 1))).(issued := sh.issued[(i, slot.epoch) := issue])
  }

  // A pc whose slot index is out of range never arises; such a thread does nothing.
  function GoStep(sh: Shared, t: Tid, pc: Pc, weak: bool): (Shared, Pc)
  {
    match pc
    case Idle => (sh, pc)
    case Returned(_, _) => (sh, pc)
    case Acquiring(c, held, at) => AcquireStep(sh, t, c, held, at, weak)
    case Releasing(c, at) => ReleaseStep(sh, c, at, weak)
    case Finalizing(c, seen, at) => if InBounds(sh, c.h) then FinalizeStep(sh, t, c, seen, at, weak) else (sh, pc)
    case Signaling(c, v, at) => SignalStep(sh, c, v, at)
    case Registering(r, at) =>
      if (at.RegLoad? || at.RegStore?) && at.i >= |sh.slots| then (sh, pc) else RegisterStep(sh, t, r, at)
  }

  function Step(s: State, a: Action): State
  {
    var pc := PcOf(s, a.tid);
    match a.input
    case Begin(op) =>
      if !pc.Idle? && !pc.Returned? then s
      else
        var (sh, next) := BeginStep(s.sh, a.tid, op);
        State(sh, s.pcs[a.tid := next])
    case Go(weak) =>
      var (sh, next) := GoStep(s.sh, a.tid, pc, weak);
      State(sh, s.pcs[a.tid := next])
  }

  // The state after a run; the last action of the list is the latest.
  function Exec(s: State, run: seq<Action>): State
  {
    if run == [] then s else Step(Exec(s, run[..|run| - 1]), run[|run| - 1])
  }

  function EmptySlot(): Slot { Slot(Word(1, 0), 0, 0, None, None, 0) }

  // `new`: every slot free, the free list reversed so that slot 0 is popped first.
  function Init(max: nat): State
  {
    State(
      Shared(seq(max, i => EmptySlot()), map[], seq(max, i requires 0 <= i < max => max - 1 - i),
             None, {}, map[], []),
      map[])
  }
}
