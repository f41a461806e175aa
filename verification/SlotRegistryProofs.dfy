/**
 Safety of the slot registry over every interleaving.

 The proof is by rely and guarantee: each step keeps the shared invariant and the
 stepping thread's own assertion, and changes the shared state only within `Rely`;
 every assertion of another thread is stable under `Rely`.
 */
module SlotRegistryProofs {
  import opened Common
  import opened SlotRegistry

  // ---------------------------------------------------------------- invariants

  ghost predicate SlotOk(sh: Shared, i: nat)
    requires i < |sh.slots|
  {
    var slot := sh.slots[i];
    && slot.word.gen == GenOf(slot.epoch)
    && slot.word.refs <= MAX_REFS
    && (Live(sh, i) ==>
          && (i, slot.epoch) in sh.issued
          && slot.owner == Some(sh.issued[(i, slot.epoch)].owner)
          && slot.descriptor == Some(sh.issued[(i, slot.epoch)].id)
          && slot.required == sh.issued[(i, slot.epoch)].required)
  }

  // Issued registrations are the live ones and those already retired.
  ghost predicate IssuedOk(sh: Shared)
  {
    forall i: nat, e: nat :: i < |sh.slots| ==>
      ((i, e) in sh.issued <==> (e < sh.slots[i].epoch || (e == sh.slots[i].epoch && Live(sh, i))))
  }

  function Kind(event: Event): nat
  {
    match event case Acquired(_, _, _, _, _) => 0 case Released(_, _, _, _, _) => 1 case Removed(_, _, _, _, _, _) => 2
  }

  // How many events of one kind the log holds for one registration.
  function Count(log: seq<Event>, kind: nat, i: nat, e: nat): nat
  {
    if log == [] then 0
    else
      var last := log[|log| - 1];
      Count(log[..|log| - 1], kind, i, e)
      + if Kind(last) == kind && last.slot == i && last.epoch == e then 1 else 0
  }

  function Acquires(sh: Shared, i: nat, e: nat): nat { Count(sh.log, 0, i, e) }

  function Releases(sh: Shared, i: nat, e: nat): nat { Count(sh.log, 1, i, e) }

  function Removals(sh: Shared, i: nat, e: nat): nat { Count(sh.log, 2, i, e) }

  // The count of a live registration is one plus its acquires less its releases; a
  // retired one was removed once, after exactly its acquires were released.
  ghost predicate CountsOk(sh: Shared, i: nat, e: nat)
    requires i < |sh.slots|
  {
    if e < sh.slots[i].epoch then Removals(sh, i, e) == 1 && Acquires(sh, i, e) == Releases(sh, i, e)
    else if e == sh.slots[i].epoch && Live(sh, i) then
      Removals(sh, i, e) == 0 && sh.slots[i].word.refs == 1 + Acquires(sh, i, e) - Releases(sh, i, e)
    else Removals(sh, i, e) == 0 && Acquires(sh, i, e) == 0 && Releases(sh, i, e) == 0
  }

  ghost predicate AllCountsOk(sh: Shared)
  {
    forall i: nat, e: nat :: i < |sh.slots| ==> CountsOk(sh, i, e)
  }

  predicate SameWrap(a: nat, b: nat) { a <= b && (b - a) % GENERATIONS == 0 }

  // What one event says about the registration its compare-and-swap hit.
  ghost predicate EventOk(sh: Shared, event: Event)
  {
    && event.slot < |sh.slots|
    && (event.slot, event.epoch) in sh.issued
    && event.epoch <= sh.slots[event.slot].epoch
    && event.handle == Handle(GenOf(event.epoch), event.slot)
    && SameWrap(event.seen, event.epoch)
    && (event.seen == event.epoch || event.Removed? ==>
          event.owner == sh.issued[(event.slot, event.epoch)].owner)
    && (event.Removed? ==>
          && event.epoch < sh.slots[event.slot].epoch
          && event.signaled >= sh.issued[(event.slot, event.epoch)].required)
  }

  ghost predicate LogOk(sh: Shared)
  {
    && (forall k | 0 <= k < |sh.log| :: EventOk(sh, sh.log[k]))
    && (forall a, b | 0 <= a < b < |sh.log| && sh.log[b].slot == sh.log[a].slot ::
          sh.log[a].epoch < sh.log[b].epoch || (sh.log[a].epoch == sh.log[b].epoch && !sh.log[a].Removed?))
  }

  // The record of id names a slot that carries id and is not in `gone`; unless the
  // slot is in `skip`, it is live with the record's generation and owner.
  predicate RecordOk(sh: Shared, id: Id, skip: set<nat>, gone: set<nat>)
  {
    id in sh.records ==>
      var h := sh.records[id].handle;
      && h.slot < |sh.slots| && h.slot !in gone
      && sh.slots[h.slot].descriptor == Some(id)
      && (h.slot !in skip ==>
            && sh.slots[h.slot].word.refs > 0
            && h.gen == sh.slots[h.slot].word.gen
            && sh.slots[h.slot].owner == Some(sh.records[id].owner))
  }

  predicate Recorded(sh: Shared, i: nat)
    requires i < |sh.slots|
  {
    && sh.slots[i].descriptor.Some?
    && sh.slots[i].descriptor.value in sh.records
    && sh.records[sh.slots[i].descriptor.value].handle.slot == i
  }

  // Live slots are recorded and the others are free.
  predicate PlaceOk(sh: Shared, i: nat, skip: set<nat>)
    requires i < |sh.slots|
  {
    i !in skip ==> if sh.slots[i].word.refs > 0 then Recorded(sh, i) && i !in sh.free else i in sh.free
  }

  ghost predicate RecordsOk(sh: Shared, skip: set<nat>, gone: set<nat>)
  {
    && (forall id {:trigger RecordOk(sh, id, skip, gone)} :: RecordOk(sh, id, skip, gone))
    && (forall i: nat {:trigger PlaceOk(sh, i, skip)} :: i < |sh.slots| ==> PlaceOk(sh, i, skip))
  }

  ghost predicate FreeOk(sh: Shared, skip: set<nat>)
  {
    && (forall a, b :: 0 <= a < b < |sh.free| ==> sh.free[a] != sh.free[b])
    && (forall a :: 0 <= a < |sh.free| ==> sh.free[a] < |sh.slots| && sh.free[a] !in skip)
  }

  ghost predicate Whole(sh: Shared)
  {
    RecordsOk(sh, {}, {}) && FreeOk(sh, {}) && |sh.records| + |sh.free| == |sh.slots|
  }

  // Slot i is in the lock holder's hand: it has no record and is not free.
  ghost predicate InHand(sh: Shared, i: nat)
  {
    && i < |sh.slots|
    && RecordsOk(sh, {i}, {i}) && FreeOk(sh, {i})
    && |sh.records| + |sh.free| + 1 == |sh.slots|
  }

  // Slot i was just retired: its record is still there and it is not yet free.
  ghost predicate Retired(sh: Shared, i: nat)
  {
    && i < |sh.slots|
    && !Live(sh, i)
    && RecordsOk(sh, {i}, {}) && FreeOk(sh, {i})
    && Recorded(sh, i)
    && |sh.records| + |sh.free| == |sh.slots|
  }

  ghost predicate CoreInv(sh: Shared)
  {
    && (forall i: nat :: i < |sh.slots| ==> SlotOk(sh, i))
    && IssuedOk(sh)
    && AllCountsOk(sh)
    && LogOk(sh)
  }

  ghost predicate SharedInv(sh: Shared)
  {
    && |sh.slots| <= GENERATIONS
    && (sh.writer.Some? ==> sh.readers == {})
    && CoreInv(sh)
    && (sh.writer.None? ==> Whole(sh))
  }

  // The call saw handle h live at epoch `seen`; its slot has not been reused since
  // unless the epoch moved on.
  ghost predicate Seen(sh: Shared, h: Handle, seen: nat)
  {
    && InBounds(sh, h)
    && seen <= sh.slots[h.slot].epoch
    && h.gen == GenOf(seen)
    && (sh.slots[h.slot].epoch == seen ==> Live(sh, h.slot))
  }

  ghost predicate SeenOwned(sh: Shared, h: Handle, o: Owner, seen: nat)
  {
    && Seen(sh, h, seen)
    && (sh.slots[h.slot].epoch == seen ==> sh.slots[h.slot].owner == Some(o))
  }

  // A read-locked `acquire` found the record of h, so its slot is live and owned by o.
  ghost predicate Pinned(sh: Shared, t: Tid, h: Handle, o: Owner)
  {
    && t in sh.readers
    && InBounds(sh, h)
    && Live(sh, h.slot)
    && sh.slots[h.slot].word.gen == h.gen
    && sh.slots[h.slot].owner == Some(o)
  }

  ghost predicate Holding(sh: Shared, t: Tid, h: Handle, o: Owner, seen: nat)
  {
    && sh.writer == Some(t)
    && Whole(sh)
    && Seen(sh, h, seen)
    && sh.slots[h.slot].owner == Some(o)
  }

  // `acquire` by id, once past its own lookup, fails only when the count is full.
  predicate AcquireResultOk(op: Op, outcome: Outcome)
  {
    op.Acquire? && outcome.Failed? ==>
      || outcome.error.MalformedOwner? || outcome.error.UnknownDescriptor?
      || outcome.error.RecordOwnerMismatch? || outcome.error.CountOverflow?
  }

  // A registration returns a handle of its own generation, issued with the caller's arguments.
  predicate RegisteredOk(sh: Shared, op: Op, outcome: Outcome)
  {
    outcome.DidRegister? ==>
      && op.Register? && (outcome.handle.slot, outcome.epoch) in sh.issued
      && sh.issued[(outcome.handle.slot, outcome.epoch)] == Issue(op.id, op.owner, op.required)
      && outcome.handle.gen == GenOf(outcome.epoch) && outcome.handle.slot < |sh.slots|
  }

  ghost predicate AcqInv(sh: Shared, t: Tid, c: Call, held: bool, at: AcqAt)
  {
    && (c.op.Acquire? <==> held)
    && (held ==> Pinned(sh, t, c.h, c.o))
    && match at
       case AcqLive => true
       case AcqOwner(seen) => Seen(sh, c.h, seen)
       case AcqLoad(seen) => SeenOwned(sh, c.h, c.o, seen)
       case AcqCas(seen, cur) =>
         SeenOwned(sh, c.h, c.o, seen) && (held ==> cur.gen == c.h.gen && cur.refs > 0)
  }

  ghost predicate RelInv(sh: Shared, c: Call, at: RelAt)
  {
    && !c.op.Acquire?
    && match at
       case RelLive => true
       case RelOwner(seen) => Seen(sh, c.h, seen)
       case RelLoad(seen) => SeenOwned(sh, c.h, c.o, seen)
       case RelCas(seen, cur) => SeenOwned(sh, c.h, c.o, seen)
       case RelFence(seen, sig) => SeenOwned(sh, c.h, c.o, seen)
  }

  ghost predicate FinInv(sh: Shared, t: Tid, c: Call, seen: nat, at: FinAt)
  {
    && !c.op.Acquire?
    && match at
       case FinLock => SeenOwned(sh, c.h, c.o, seen)
       case FinOwner => sh.writer == Some(t) && Whole(sh) && Seen(sh, c.h, seen)
       case FinLoad => Holding(sh, t, c.h, c.o, seen)
       case FinCas(cur) => Holding(sh, t, c.h, c.o, seen)
       case FinFence(cur, sig) =>
         Holding(sh, t, c.h, c.o, seen) && cur == Word(c.h.gen, 1) && sig <= sh.slots[c.h.slot].signaled
       case FinRetire(cur) =>
         && Holding(sh, t, c.h, c.o, seen) && cur == Word(c.h.gen, 1)
         && sh.slots[c.h.slot].required <= sh.slots[c.h.slot].signaled
       case FinUnlink(_) => sh.writer == Some(t) && Retired(sh, c.h.slot)
       case FinDisown(_) => sh.writer == Some(t) && InHand(sh, c.h.slot) && !Live(sh, c.h.slot)
       case FinFree(_) => sh.writer == Some(t) && InHand(sh, c.h.slot) && !Live(sh, c.h.slot)
  }

  ghost predicate SigInv(sh: Shared, c: Call, at: SigAt)
  {
    && !c.op.Acquire?
    && match at
       case SigLive => true
       case SigOwner(seen) => Seen(sh, c.h, seen)
       case SigMax(seen) => SeenOwned(sh, c.h, c.o, seen)
       case SigRequired(_) => InBounds(sh, c.h)
  }

  function Rank(store: Store): nat
  {
    match store
    case PutRequired => 0 case PutSignaled => 1 case PutOwner => 2
    case PutDescriptor => 3 case PutState => 4 case PutRecord => 5
  }

  ghost predicate RegInv(sh: Shared, t: Tid, r: Entry, at: RegAt)
  {
    && r.op == Register(r.id, r.o, r.req)
    && match at
       case RegLock => true
       case RegPop => sh.writer == Some(t) && Whole(sh)
       case RegLoad(i) => sh.writer == Some(t) && InHand(sh, i) && r.id !in sh.records && !Live(sh, i)
       case RegStore(i, gen, store) =>
         && sh.writer == Some(t) && InHand(sh, i) && r.id !in sh.records
         && Storing(sh.slots[i], r, gen, store)
  }

  // What has been stored so far into the slot in hand.
  predicate Storing(slot: Slot, r: Entry, gen: nat, store: Store)
  {
    && gen == slot.word.gen
    && (store.PutRecord? <==> slot.word.refs > 0)
    && (Rank(store) > 0 ==> slot.required == r.req)
    && (Rank(store) > 2 ==> slot.owner == Some(r.o))
    && (Rank(store) > 3 ==> slot.descriptor == Some(r.id))
  }

  ghost predicate PcInv(sh: Shared, t: Tid, pc: Pc)
  {
    match pc
    case Idle => true
    case Returned(op, outcome) =>
      AcquireResultOk(op, outcome) && outcome != Failed(NoFreeSlot) && RegisteredOk(sh, op, outcome)
    case Acquiring(c, held, at) => AcqInv(sh, t, c, held, at)
    case Releasing(c, at) => RelInv(sh, c, at)
    case Finalizing(c, seen, at) => FinInv(sh, t, c, seen, at)
    case Signaling(c, v, at) => SigInv(sh, c, at)
    case Registering(r, at) => RegInv(sh, t, r, at)
  }

  ghost predicate Inv(s: State)
  {
    SharedInv(s.sh) && forall t: Tid :: PcInv(s.sh, t, PcOf(s, t))
  }

  // ---------------------------------------------------------------- rely

  // A slot change that every other thread tolerates.
  predicate SlotRely(before: Slot, after: Slot)
  {
    && before.epoch <= after.epoch
    && (before.epoch == after.epoch && before.word.refs > 0 ==>
          && after.word.refs > 0
          && after.word.gen == before.word.gen
          && after.owner == before.owner
          && after.required == before.required
          && after.descriptor == before.descriptor
          && before.signaled <= after.signaled)
  }

  // A slot change by a thread that does not hold the records write lock.
  predicate SlotFrame(before: Slot, after: Slot)
  {
    && before.epoch == after.epoch
    && (before.word.refs > 0 <==> after.word.refs > 0)
    && after.word.gen == before.word.gen
    && after.owner == before.owner
    && after.required == before.required
    && after.descriptor == before.descriptor
    && before.signaled <= after.signaled
  }

  ghost predicate SlotsRely(before: Shared, after: Shared)
  {
    && |before.slots| == |after.slots|
    && forall i :: 0 <= i < |before.slots| ==> SlotRely(before.slots[i], after.slots[i])
  }

  ghost predicate Frame(before: Shared, after: Shared)
  {
    && |before.slots| == |after.slots|
    && before.records == after.records
    && before.free == after.free
    && forall i :: 0 <= i < |before.slots| ==> SlotFrame(before.slots[i], after.slots[i])
  }

  // What was issued stays issued.
  ghost predicate IssuedGrows(before: Shared, after: Shared)
  {
    forall r {:trigger r in before.issued} :: r in before.issued ==>
      r in after.issued && after.issued[r] == before.issued[r]
  }

  // What thread t may do to the shared state in one step.
  ghost predicate Rely(before: Shared, after: Shared, t: Tid)
  {
    && SlotsRely(before, after) && IssuedGrows(before, after)
    && (before.writer != Some(t) ==> Frame(before, after))
    && (forall u: Tid :: u != t ==> (before.writer == Some(u) <==> after.writer == Some(u)))
    && (forall u: Tid :: u != t ==> (u in before.readers <==> u in after.readers))
  }

  lemma FrameKeepsRecords(a: Shared, b: Shared, skip: set<nat>, gone: set<nat>)
    requires Frame(a, b) && RecordsOk(a, skip, gone)
    ensures RecordsOk(b, skip, gone)
  {
    forall id
      ensures RecordOk(b, id, skip, gone)
    {
      assert RecordOk(a, id, skip, gone);
    }
    forall i: nat | i < |b.slots|
      ensures PlaceOk(b, i, skip)
    {
      assert PlaceOk(a, i, skip);
    }
  }

  lemma FrameKeepsStages(a: Shared, b: Shared, i: nat)
    requires Frame(a, b)
    ensures Whole(a) ==> Whole(b)
    ensures InHand(a, i) ==> InHand(b, i)
    ensures Retired(a, i) ==> Retired(b, i)
  {
    hide RecordsOk;
    if Whole(a) { FrameKeepsRecords(a, b, {}, {}); }
    if InHand(a, i) { FrameKeepsRecords(a, b, {i}, {i}); }
    if Retired(a, i) { FrameKeepsRecords(a, b, {i}, {}); }
  }

  lemma SeenStable(a: Shared, b: Shared, h: Handle, o: Owner, seen: nat)
    requires SlotsRely(a, b)
    ensures InBounds(a, h) ==> InBounds(b, h)
    ensures Seen(a, h, seen) ==> Seen(b, h, seen)
    ensures SeenOwned(a, h, o, seen) ==> SeenOwned(b, h, o, seen)
  {
    if InBounds(a, h) {
      assert SlotRely(a.slots[h.slot], b.slots[h.slot]);
    }
  }

  lemma PinnedStable(a: Shared, b: Shared, t: Tid, u: Tid, h: Handle, o: Owner)
    requires Rely(a, b, t) && u != t
    requires a.writer.Some? ==> a.readers == {}
    ensures Pinned(a, u, h, o) ==> Pinned(b, u, h, o)
  {
    if Pinned(a, u, h, o) {
      assert SlotFrame(a.slots[h.slot], b.slots[h.slot]);
    }
  }

  lemma AcqInvStable(a: Shared, b: Shared, t: Tid, u: Tid, c: Call, held: bool, at: AcqAt)
    requires Rely(a, b, t) && u != t && (a.writer.Some? ==> a.readers == {})
    requires AcqInv(a, u, c, held, at)
    ensures AcqInv(b, u, c, held, at)
  {
    hide Rely, Pinned, Seen, SeenOwned;
    PinnedStable(a, b, t, u, c.h, c.o);
    RelySlots(a, b, t);
    if !at.AcqLive? { SeenStable(a, b, c.h, c.o, at.seen); }
  }

  lemma RelySlots(a: Shared, b: Shared, t: Tid)
    requires Rely(a, b, t)
    ensures SlotsRely(a, b) && IssuedGrows(a, b)
    ensures a.writer != Some(t) ==> Frame(a, b)
  {
  }

  lemma FinInvStable(a: Shared, b: Shared, t: Tid, u: Tid, c: Call, seen: nat, at: FinAt)
    requires Rely(a, b, t) && u != t
    requires FinInv(a, u, c, seen, at)
    ensures FinInv(b, u, c, seen, at)
  {
    hide Whole, InHand, Retired, Seen;
    SeenStable(a, b, c.h, c.o, seen);
    if !at.FinLock? {
      assert a.writer == Some(u);
      FrameKeepsStages(a, b, c.h.slot);
      FinalizeSlot(a, u, c, seen, at);
      assert SlotFrame(a.slots[c.h.slot], b.slots[c.h.slot]);
    }
  }

  lemma FinalizeSlot(sh: Shared, t: Tid, c: Call, seen: nat, at: FinAt)
    requires FinInv(sh, t, c, seen, at)
    ensures InBounds(sh, c.h)
    ensures at.FinUnlink? ==> sh.slots[c.h.slot].descriptor.Some?
  {
  }

  lemma RegInvStable(a: Shared, b: Shared, t: Tid, u: Tid, r: Entry, at: RegAt)
    requires Rely(a, b, t) && u != t
    requires RegInv(a, u, r, at)
    ensures RegInv(b, u, r, at)
  {
    hide Whole, InHand;
    if !at.RegLock? {
      assert a.writer == Some(u);
      if at.RegPop? {
        FrameKeepsStages(a, b, 0);
      } else {
        FrameKeepsStages(a, b, at.i);
        RegisterSlot(a, u, r, at);
        assert SlotFrame(a.slots[at.i], b.slots[at.i]);
      }
    }
  }

  lemma RegisterSlot(sh: Shared, t: Tid, r: Entry, at: RegAt)
    requires RegInv(sh, t, r, at) && (at.RegLoad? || at.RegStore?)
    ensures at.i < |sh.slots|
  {
  }

  /** Another thread's step never falsifies this thread's assertion. */
  lemma Stable(a: Shared, b: Shared, t: Tid, u: Tid, pc: Pc)
    requires Rely(a, b, t) && u != t
    requires a.writer.Some? ==> a.readers == {}
    requires PcInv(a, u, pc)
    ensures PcInv(b, u, pc)
  {
    hide Rely, FinInv, RegInv, AcqInv, Seen, SeenOwned;
    RelySlots(a, b, t);
    match pc
    case Idle =>
    case Returned(_, _) =>
    case Acquiring(c, held, at) => AcqInvStable(a, b, t, u, c, held, at);
    case Releasing(c, at) => if !at.RelLive? { SeenStable(a, b, c.h, c.o, at.seen); }
    case Finalizing(c, seen, at) => FinInvStable(a, b, t, u, c, seen, at);
    case Signaling(c, v, at) =>
      SeenStable(a, b, c.h, c.o, if at.SigOwner? || at.SigMax? then at.seen else 0);
    case Registering(r, at) => RegInvStable(a, b, t, u, r, at);
  }

  // ---------------------------------------------------------------- log lemmas

  lemma CountAppend(log: seq<Event>, event: Event, kind: nat, i: nat, e: nat)
    ensures Count(log + [event], kind, i, e)
         == Count(log, kind, i, e) + if Kind(event) == kind && event.slot == i && event.epoch == e then 1 else 0
  {
    assert (log + [event])[..|log|] == log;
  }

  // Nothing that CoreInv speaks of changed, except fields of slots that are not live
  // and the signalled values, which it does not mention.
  lemma CoreKept(a: Shared, b: Shared)
    requires CoreInv(a)
    requires |a.slots| == |b.slots| && a.issued == b.issued && a.log == b.log
    requires forall i :: 0 <= i < |a.slots| ==>
               && b.slots[i].word == a.slots[i].word && b.slots[i].epoch == a.slots[i].epoch
               && (Live(a, i) ==>
                     && b.slots[i].owner == a.slots[i].owner
                     && b.slots[i].descriptor == a.slots[i].descriptor
                     && b.slots[i].required == a.slots[i].required)
    ensures CoreInv(b)
  {
    forall i: nat | i < |b.slots|
      ensures SlotOk(b, i)
    {
      assert SlotOk(a, i);
    }
    forall i: nat, e: nat | i < |b.slots|
      ensures CountsOk(b, i, e)
    {
      assert CountsOk(a, i, e);
    }
    forall k | 0 <= k < |b.log|
      ensures EventOk(b, b.log[k])
    {
      assert EventOk(a, a.log[k]);
    }
  }

  // An event on the current registration of slot i extends the log soundly.
  lemma LogGrows(a: Shared, b: Shared, event: Event)
    requires LogOk(a)
    requires |a.slots| == |b.slots| && b.log == a.log + [event] && a.issued == b.issued
    requires forall i :: 0 <= i < |a.slots| ==> a.slots[i].epoch <= b.slots[i].epoch
    requires event.slot < |a.slots| && event.epoch == a.slots[event.slot].epoch
    requires EventOk(b, event)
    ensures LogOk(b)
  {
    forall k | 0 <= k < |b.log|
      ensures EventOk(b, b.log[k])
    {
      if k < |a.log| { assert EventOk(a, a.log[k]); }
    }
    forall x, y | 0 <= x < y < |b.log| && b.log[y].slot == b.log[x].slot
      ensures b.log[x].epoch < b.log[y].epoch || (b.log[x].epoch == b.log[y].epoch && !b.log[x].Removed?)
    {
      assert EventOk(a, a.log[x]);
    }
  }

  // A count change on a live registration that stays live.
  lemma CountMoves(a: Shared, i: nat, refs: nat, event: Event)
    requires CoreInv(a) && i < |a.slots| && Live(a, i)
    requires event.slot == i && event.epoch == a.slots[i].epoch
    requires || (event.Acquired? && refs == a.slots[i].word.refs + 1 <= MAX_REFS)
             || (event.Released? && refs == a.slots[i].word.refs - 1 > 0)
    requires EventOk(a, event)
    ensures var b := WithWord(a, i, Word(a.slots[i].word.gen, refs), event);
            CoreInv(b) && Frame(a, b) && SlotsRely(a, b)
  {
    var b := WithWord(a, i, Word(a.slots[i].word.gen, refs), event);
    forall j: nat | j < |b.slots|
      ensures SlotOk(b, j)
    {
      assert SlotOk(a, j);
    }
    forall j: nat, e: nat | j < |b.slots|
      ensures CountsOk(b, j, e)
    {
      assert CountsOk(a, j, e);
      CountAppend(a.log, event, 0, j, e);
      CountAppend(a.log, event, 1, j, e);
      CountAppend(a.log, event, 2, j, e);
    }
    LogGrows(a, b, event);
  }

  lemma GenWraps(a: nat, b: nat)
    requires a <= b && GenOf(a) == GenOf(b)
    ensures SameWrap(a, b)
  {
  }

  // The retiring compare-and-swap.
  lemma RetireKeeps(a: Shared, i: nat, event: Event)
    requires CoreInv(a) && i < |a.slots| && a.slots[i].word.refs == 1
    requires event.Removed? && event.slot == i && event.epoch == a.slots[i].epoch
    requires event.handle == Handle(a.slots[i].word.gen, i) && SameWrap(event.seen, event.epoch)
    requires a.slots[i].owner == Some(event.owner) && a.slots[i].required <= event.signaled
    ensures CoreInv(Retiring(a, i, event))
  {
    var b := Retiring(a, i, event);
    assert SlotOk(a, i);
    forall j: nat | j < |b.slots|
      ensures SlotOk(b, j)
    {
      assert SlotOk(a, j);
    }
    forall j: nat, e: nat | j < |b.slots|
      ensures CountsOk(b, j, e)
    {
      assert CountsOk(a, j, e);
      CountAppend(a.log, event, 0, j, e);
      CountAppend(a.log, event, 1, j, e);
      CountAppend(a.log, event, 2, j, e);
    }
    LogGrows(a, b, event);
  }

  // Publishing a registration.
  lemma PublishKeeps(a: Shared, i: nat, issue: Issue)
    requires CoreInv(a) && i < |a.slots| && !Live(a, i)
    requires a.slots[i].owner == Some(issue.owner) && a.slots[i].descriptor == Some(issue.id)
    requires a.slots[i].required == issue.required
    ensures CoreInv(Publishing(a, i, a.slots[i].word.gen, issue))
  {
    var b := Publishing(a, i, a.slots[i].word.gen, issue);
    assert SlotOk(a, i);
    forall j: nat | j < |b.slots|
      ensures SlotOk(b, j)
    {
      assert SlotOk(a, j);
    }
    forall j: nat, e: nat | j < |b.slots|
      ensures CountsOk(b, j, e)
    {
      assert CountsOk(a, j, e);
    }
    assert (i, a.slots[i].epoch) !in a.issued;
    forall k | 0 <= k < |b.log|
      ensures EventOk(b, b.log[k])
    {
      assert EventOk(a, a.log[k]);
    }
  }

  // ---------------------------------------------------------------- steps

  ghost predicate Kept(a: Shared, t: Tid, next: (Shared, Pc))
  {
    SharedInv(next.0) && PcInv(next.0, t, next.1) && Rely(a, next.0, t)
  }

  // Only the locks changed.
  lemma LocksOnly(a: Shared, b: Shared)
    requires CoreInv(a)
    requires b == a.(writer := b.writer, readers := b.readers)
    ensures CoreInv(b) && Frame(a, b) && SlotsRely(a, b)
    ensures Whole(a) ==> Whole(b)
  {
    CoreKept(a, b);
    FrameKeepsStages(a, b, 0);
  }

  lemma RelySelf(sh: Shared, t: Tid)
    ensures Rely(sh, sh, t)
  {
  }

  // A step that only reads.
  lemma ReadOnly(sh: Shared, t: Tid, next: (Shared, Pc))
    requires SharedInv(sh) && next.0 == sh && PcInv(sh, t, next.1)
    ensures Kept(sh, t, next)
  {
    RelySelf(sh, t);
  }

  // A step that takes or drops the read lock of t.
  lemma ReadLockOnly(a: Shared, b: Shared, t: Tid)
    requires SharedInv(a) && a.writer.None?
    requires b == a.(readers := a.readers + {t}) || b == a.(readers := a.readers - {t})
    ensures SharedInv(b) && Rely(a, b, t) && Frame(a, b)
  {
    LocksOnly(a, b);
  }

  // A step that drops the write lock of t with the registry whole.
  lemma DropsWrite(a: Shared, t: Tid)
    requires SharedInv(a) && a.writer == Some(t) && Whole(a)
    ensures SharedInv(DropWrite(a)) && Rely(a, DropWrite(a), t)
  {
    LocksOnly(a, DropWrite(a));
  }

  lemma TakesWrite(a: Shared, t: Tid)
    requires SharedInv(a) && LockFree(a)
    ensures var b := a.(writer := Some(t)); SharedInv(b) && Rely(a, b, t) && Whole(b) && Frame(a, b)
  {
    LocksOnly(a, a.(writer := Some(t)));
  }

  lemma RecordIsLive(sh: Shared, id: Id)
    requires RecordsOk(sh, {}, {}) && id in sh.records
    ensures var r := sh.records[id];
            && InBounds(sh, r.handle) && Live(sh, r.handle.slot)
            && sh.slots[r.handle.slot].word.gen == r.handle.gen
            && sh.slots[r.handle.slot].owner == Some(r.owner)
  {
    assert RecordOk(sh, id, {}, {});
  }

  lemma BeginKeeps(sh: Shared, t: Tid, op: Op)
    requires SharedInv(sh)
    ensures Kept(sh, t, BeginStep(sh, t, op))
  {
    var next := BeginStep(sh, t, op);
    if next.1.Acquiring? && next.1.held {
      LookupPins(sh, t, op);
    } else {
      hide SharedInv, Rely;
      ReadOnly(sh, t, next);
    }
  }

  lemma LookupPins(sh: Shared, t: Tid, op: Op)
    requires SharedInv(sh) && BeginStep(sh, t, op).1.Acquiring? && BeginStep(sh, t, op).1.held
    ensures Kept(sh, t, BeginStep(sh, t, op))
  {
    RecordIsLive(sh, op.id);
    ReadLockOnly(sh, BeginStep(sh, t, op).0, t);
  }

  lemma SeesLive(sh: Shared, h: Handle)
    requires SharedInv(sh) && InBounds(sh, h) && Live(sh, h.slot) && sh.slots[h.slot].word.gen == h.gen
    ensures Seen(sh, h, sh.slots[h.slot].epoch)
  {
    assert SlotOk(sh, h.slot);
  }

  lemma CountBounded(sh: Shared, h: Handle)
    requires SharedInv(sh) && InBounds(sh, h)
    ensures sh.slots[h.slot].word.refs <= MAX_REFS
  {
    assert SlotOk(sh, h.slot);
  }

  // A successful count change by a call that saw h live.
  lemma CountStep(sh: Shared, h: Handle, o: Owner, seen: nat, refs: nat, event: Event)
    requires CoreInv(sh) && Seen(sh, h, seen)
    requires sh.slots[h.slot].epoch == seen ==> sh.slots[h.slot].owner == Some(o)
    requires Live(sh, h.slot) && sh.slots[h.slot].word.gen == h.gen
    requires event.slot == h.slot && event.epoch == sh.slots[h.slot].epoch
    requires event.handle == h && event.owner == o && event.seen == seen
    requires || (event.Acquired? && refs == sh.slots[h.slot].word.refs + 1 <= MAX_REFS)
             || (event.Released? && refs == sh.slots[h.slot].word.refs - 1 > 0)
    ensures var b := WithWord(sh, h.slot, Word(h.gen, refs), event);
            CoreInv(b) && Frame(sh, b) && SlotsRely(sh, b) && (Whole(sh) ==> Whole(b))
  {
    assert SlotOk(sh, h.slot);
    GenWraps(seen, event.epoch);
    CountMoves(sh, h.slot, refs, event);
    FrameKeepsStages(sh, WithWord(sh, h.slot, Word(h.gen, refs), event), 0);
  }

  // The successful compare-and-swap of an acquire.
  lemma AcquireLands(sh: Shared, t: Tid, h: Handle, o: Owner, held: bool, seen: nat)
    requires SharedInv(sh) && SeenOwned(sh, h, o, seen) && (held ==> Pinned(sh, t, h, o))
    requires Live(sh, h.slot) && sh.slots[h.slot].word.gen == h.gen && sh.slots[h.slot].word.refs < MAX_REFS
    ensures var event := Acquired(h.slot, sh.slots[h.slot].epoch, h, o, seen);
            var mid := WithWord(sh, h.slot, Word(h.gen, sh.slots[h.slot].word.refs + 1), event);
            SharedInv(DropRead(mid, t, held)) && Rely(sh, DropRead(mid, t, held), t)
  {
    var event := Acquired(h.slot, sh.slots[h.slot].epoch, h, o, seen);
    var refs := sh.slots[h.slot].word.refs + 1;
    CountStep(sh, h, o, seen, refs, event);
    var mid := WithWord(sh, h.slot, Word(h.gen, refs), event);
    assert SharedInv(mid);
    if held { ReadLockOnly(mid, DropRead(mid, t, held), t); }
  }

  lemma AcquireEnds(sh: Shared, t: Tid, held: bool, op: Op, error: Error)
    requires SharedInv(sh) && (held ==> t in sh.readers) && (held ==> error.CountOverflow?)
    requires op.Acquire? ==> held
    requires !error.NoFreeSlot?
    ensures Kept(sh, t, (DropRead(sh, t, held), Returned(op, Failed(error))))
  {
    if held { ReadLockOnly(sh, DropRead(sh, t, held), t); } else { RelySelf(sh, t); }
  }

  lemma AcquireKeeps(sh: Shared, t: Tid, c: Call, held: bool, at: AcqAt, weak: bool)
    requires SharedInv(sh) && AcqInv(sh, t, c, held, at)
    ensures Kept(sh, t, AcquireStep(sh, t, c, held, at, weak))
  {
    hide SharedInv, Rely;
    var next := AcquireStep(sh, t, c, held, at, weak);
    if next.1.Returned? && next.1.outcome.DidAcquire? {
      CountBounded(sh, c.h);
      AcquireLands(sh, t, c.h, c.o, held, at.seen);
    } else if next.1.Returned? {
      AcquireEnds(sh, t, held, c.op, next.1.outcome.error);
    } else {
      if at.AcqLive? { SeesLive(sh, c.h); }
      ReadOnly(sh, t, next);
    }
  }

  // The successful compare-and-swap of a release that leaves references behind.
  lemma ReleaseLands(sh: Shared, t: Tid, h: Handle, o: Owner, seen: nat, mine: bool)
    requires SharedInv(sh) && Seen(sh, h, seen)
    requires sh.slots[h.slot].epoch == seen ==> sh.slots[h.slot].owner == Some(o)
    requires sh.slots[h.slot].word.gen == h.gen && sh.slots[h.slot].word.refs > 1
    requires mine ==> sh.writer == Some(t) && Whole(sh)
    ensures var event := Released(h.slot, sh.slots[h.slot].epoch, h, o, seen);
            var mid := WithWord(sh, h.slot, Word(h.gen, sh.slots[h.slot].word.refs - 1), event);
            var end := if mine then DropWrite(mid) else mid;
            SharedInv(end) && Rely(sh, end, t)
  {
    var event := Released(h.slot, sh.slots[h.slot].epoch, h, o, seen);
    var refs := sh.slots[h.slot].word.refs - 1;
    CountStep(sh, h, o, seen, refs, event);
    var mid := WithWord(sh, h.slot, Word(h.gen, refs), event);
    assert SharedInv(mid);
    if mine { DropsWrite(mid, t); }
  }

  lemma ReleaseKeeps(sh: Shared, t: Tid, c: Call, at: RelAt, weak: bool)
    requires SharedInv(sh) && RelInv(sh, c, at)
    ensures Kept(sh, t, ReleaseStep(sh, c, at, weak))
  {
    hide SharedInv, Rely;
    var next := ReleaseStep(sh, c, at, weak);
    if next.1.Returned? && next.1.outcome.DidRelease? {
      ReleaseLands(sh, t, c.h, c.o, at.seen, false);
    } else {
      if next.1.Releasing? && at.RelLive? { SeesLive(sh, c.h); }
      ReadOnly(sh, t, next);
    }
  }

  // The retiring compare-and-swap under the write lock.
  lemma RetireLands(sh: Shared, t: Tid, h: Handle, o: Owner, seen: nat)
    requires SharedInv(sh) && Holding(sh, t, h, o, seen)
    requires sh.slots[h.slot].word == Word(h.gen, 1)
    requires sh.slots[h.slot].required <= sh.slots[h.slot].signaled
    ensures var slot := sh.slots[h.slot];
            var b := Retiring(sh, h.slot, Removed(h.slot, slot.epoch, h, o, seen, slot.signaled));
            SharedInv(b) && Rely(sh, b, t) && Retired(b, h.slot)
  {
    var slot := sh.slots[h.slot];
    assert SlotOk(sh, h.slot);
    GenWraps(seen, slot.epoch);
    RetireKeeps(sh, h.slot, Removed(h.slot, slot.epoch, h, o, seen, slot.signaled));
    WholeToRetired(sh, Retiring(sh, h.slot, Removed(h.slot, slot.epoch, h, o, seen, slot.signaled)), h.slot);
  }

  lemma WholeToRetired(a: Shared, b: Shared, i: nat)
    requires Whole(a) && i < |a.slots| == |b.slots| && Live(a, i) && !Live(b, i)
    requires b.records == a.records && b.free == a.free
    requires b.slots[i].descriptor == a.slots[i].descriptor
    requires forall j :: 0 <= j < |a.slots| && j != i ==> b.slots[j] == a.slots[j]
    ensures Retired(b, i)
  {
    assert PlaceOk(a, i, {});
    forall id
      ensures RecordOk(b, id, {i}, {})
    {
      assert RecordOk(a, id, {}, {});
    }
    forall j: nat | j < |b.slots|
      ensures PlaceOk(b, j, {i})
    {
      assert PlaceOk(a, j, {});
    }
  }

  // The lock holder changes fields of one slot that is not live.
  lemma HiddenWrite(a: Shared, t: Tid, i: nat, slot: Slot)
    requires SharedInv(a) && a.writer == Some(t) && i < |a.slots| && !Live(a, i)
    requires slot.word == a.slots[i].word && slot.epoch == a.slots[i].epoch
    ensures SharedInv(WithSlot(a, i, slot)) && Rely(a, WithSlot(a, i, slot), t)
  {
    CoreKept(a, WithSlot(a, i, slot));
  }

  lemma InHandWrite(a: Shared, i: nat, slot: Slot)
    requires InHand(a, i)
    ensures InHand(WithSlot(a, i, slot), i)
  {
    var b := WithSlot(a, i, slot);
    forall id
      ensures RecordOk(b, id, {i}, {i})
    {
      assert RecordOk(a, id, {i}, {i});
    }
    forall j: nat | j < |b.slots|
      ensures PlaceOk(b, j, {i})
    {
      assert PlaceOk(a, j, {i});
    }
  }

  lemma UnlinkKeeps(sh: Shared, t: Tid, i: nat)
    requires SharedInv(sh) && sh.writer == Some(t) && Retired(sh, i)
    ensures var b := Unlinking(sh, i); SharedInv(b) && Rely(sh, b, t) && InHand(b, i) && !Live(b, i)
  {
    var mid := WithSlot(sh, i, sh.slots[i].(descriptor := None));
    HiddenWrite(sh, t, i, sh.slots[i].(descriptor := None));
    CoreKept(mid, Unlinking(sh, i));
    UnlinkedInHand(sh, i);
  }

  lemma UnlinkedInHand(sh: Shared, i: nat)
    requires Retired(sh, i)
    ensures InHand(Unlinking(sh, i), i)
  {
    var b, gone := Unlinking(sh, i), sh.slots[i].descriptor.value;
    assert b.records.Keys == sh.records.Keys - {gone};
    assert |b.records| == |b.records.Keys| && |sh.records| == |sh.records.Keys|;
    forall id
      ensures RecordOk(b, id, {i}, {i})
    {
      assert RecordOk(sh, id, {i}, {});
    }
    forall j: nat | j < |b.slots|
      ensures PlaceOk(b, j, {i})
    {
      assert PlaceOk(sh, j, {i}) && RecordOk(sh, gone, {i}, {});
    }
  }

  lemma FreeKeeps(sh: Shared, t: Tid, i: nat)
    requires SharedInv(sh) && sh.writer == Some(t) && InHand(sh, i) && !Live(sh, i)
    ensures var b := DropWrite(sh.(free := sh.free + [i])); SharedInv(b) && Rely(sh, b, t)
  {
    hide Whole;
    var mid := sh.(free := sh.free + [i]);
    CoreKept(sh, mid);
    FreedWhole(sh, i);
    DropsWrite(mid, t);
  }

  lemma FreedWhole(sh: Shared, i: nat)
    requires InHand(sh, i) && !Live(sh, i)
    ensures Whole(sh.(free := sh.free + [i]))
  {
    var b := sh.(free := sh.free + [i]);
    forall id
      ensures RecordOk(b, id, {}, {})
    {
      assert RecordOk(sh, id, {i}, {i});
    }
    forall j: nat | j < |b.slots|
      ensures PlaceOk(b, j, {})
    {
      assert PlaceOk(sh, j, {i});
    }
  }

  lemma FinalizeEnds(sh: Shared, t: Tid, op: Op, error: Error)
    requires SharedInv(sh) && sh.writer == Some(t) && Whole(sh) && !op.Acquire? && !error.NoFreeSlot?
    ensures Kept(sh, t, (DropWrite(sh), Returned(op, Failed(error))))
  {
    DropsWrite(sh, t);
  }

  lemma FinalizeChecks(sh: Shared, t: Tid, c: Call, seen: nat, at: FinAt, weak: bool)
    requires SharedInv(sh) && FinInv(sh, t, c, seen, at) && InBounds(sh, c.h)
    requires at.FinLock? || at.FinOwner? || at.FinLoad? || at.FinCas? || at.FinFence?
    ensures Kept(sh, t, FinalizeStep(sh, t, c, seen, at, weak))
  {
    hide SharedInv, Rely, Whole, Retired, InHand;
    var next := FinalizeStep(sh, t, c, seen, at, weak);
    if next.1.Returned? && next.1.outcome.Failed? {
      FinalizeEnds(sh, t, c.op, next.1.outcome.error);
    } else if next.1.Returned? {
      ReleaseLands(sh, t, c.h, c.o, seen, true);
    } else if next.1.fin.FinOwner? {
      TakesWrite(sh, t);
      SeenStable(sh, next.0, c.h, c.o, seen);
    } else {
      ReadOnly(sh, t, next);
    }
  }

  lemma RetireStep(sh: Shared, t: Tid, c: Call, seen: nat, cur: Word, weak: bool)
    requires SharedInv(sh) && FinInv(sh, t, c, seen, FinRetire(cur)) && InBounds(sh, c.h)
    ensures Kept(sh, t, FinalizeStep(sh, t, c, seen, FinRetire(cur), weak))
  {
    hide SharedInv, Rely, Whole, Retired, InHand;
    if sh.slots[c.h.slot].word == cur {
      RetireLands(sh, t, c.h, c.o, seen);
    } else {
      ReadOnly(sh, t, FinalizeStep(sh, t, c, seen, FinRetire(cur), weak));
    }
  }

  lemma DisownStep(sh: Shared, t: Tid, c: Call, seen: nat, k: nat, weak: bool)
    requires SharedInv(sh) && FinInv(sh, t, c, seen, FinDisown(k)) && InBounds(sh, c.h)
    ensures Kept(sh, t, FinalizeStep(sh, t, c, seen, FinDisown(k), weak))
  {
    hide SharedInv, Rely, Whole, Retired, InHand;
    HiddenWrite(sh, t, c.h.slot, sh.slots[c.h.slot].(owner := None));
    InHandWrite(sh, c.h.slot, sh.slots[c.h.slot].(owner := None));
  }

  lemma FinalizeRetires(sh: Shared, t: Tid, c: Call, seen: nat, at: FinAt, weak: bool)
    requires SharedInv(sh) && FinInv(sh, t, c, seen, at) && InBounds(sh, c.h)
    requires at.FinUnlink? ==> sh.slots[c.h.slot].descriptor.Some?
    requires at.FinRetire? || at.FinUnlink? || at.FinDisown? || at.FinFree?
    ensures Kept(sh, t, FinalizeStep(sh, t, c, seen, at, weak))
  {
    hide SharedInv, Rely, Whole, Retired, InHand;
    match at
    case FinRetire(cur) => RetireStep(sh, t, c, seen, cur, weak);
    case FinUnlink(_) => UnlinkKeeps(sh, t, c.h.slot);
    case FinDisown(k) => DisownStep(sh, t, c, seen, k, weak);
    case FinFree(_) => FreeKeeps(sh, t, c.h.slot);
  }

  lemma FinalizeKeeps(sh: Shared, t: Tid, c: Call, seen: nat, at: FinAt, weak: bool)
    requires SharedInv(sh) && FinInv(sh, t, c, seen, at)
    ensures InBounds(sh, c.h) && Kept(sh, t, FinalizeStep(sh, t, c, seen, at, weak))
  {
    hide SharedInv, Kept, FinInv, FinalizeStep;
    FinalizeSlot(sh, t, c, seen, at);
    if at.FinRetire? || at.FinUnlink? || at.FinDisown? || at.FinFree? {
      FinalizeRetires(sh, t, c, seen, at, weak);
    } else {
      FinalizeChecks(sh, t, c, seen, at, weak);
    }
  }

  lemma SignalLands(sh: Shared, t: Tid, i: nat, top: nat)
    requires SharedInv(sh) && i < |sh.slots| && sh.slots[i].signaled <= top
    ensures var b := WithSlot(sh, i, sh.slots[i].(signaled := top)); SharedInv(b) && Rely(sh, b, t)
  {
    var b := WithSlot(sh, i, sh.slots[i].(signaled := top));
    CoreKept(sh, b);
    assert Frame(sh, b);
    FrameKeepsStages(sh, b, 0);
  }

  lemma SignalKeeps(sh: Shared, t: Tid, c: Call, v: nat, at: SigAt)
    requires SharedInv(sh) && SigInv(sh, c, at)
    ensures Kept(sh, t, SignalStep(sh, c, v, at))
  {
    hide SharedInv, Rely;
    var next := SignalStep(sh, c, v, at);
    if at.SigMax? {
      SignalLands(sh, t, c.h.slot, next.1.sig.signaled);
    } else {
      if next.1.Signaling? && at.SigLive? { SeesLive(sh, c.h); }
      ReadOnly(sh, t, next);
    }
  }

  lemma PopKeeps(sh: Shared, t: Tid, id: Id)
    requires SharedInv(sh) && sh.writer == Some(t) && Whole(sh)
    requires id !in sh.records && |sh.records| < |sh.slots|
    ensures sh.free != []
    ensures var last := |sh.free| - 1;
            var b := sh.(free := sh.free[..last]);
            SharedInv(b) && Rely(sh, b, t) && InHand(b, sh.free[last]) && !Live(b, sh.free[last])
  {
    CoreKept(sh, sh.(free := sh.free[..|sh.free| - 1]));
    PoppedInHand(sh);
  }

  lemma PoppedInHand(sh: Shared)
    requires Whole(sh) && |sh.records| < |sh.slots|
    ensures sh.free != []
    ensures var last := |sh.free| - 1;
            InHand(sh.(free := sh.free[..last]), sh.free[last]) && sh.slots[sh.free[last]].word.refs == 0
  {
    var last := |sh.free| - 1;
    var b, i := sh.(free := sh.free[..last]), sh.free[last];
    assert PlaceOk(sh, i, {});
    forall id
      ensures RecordOk(b, id, {i}, {i})
    {
      assert RecordOk(sh, id, {}, {});
    }
    forall j: nat | j < |b.slots|
      ensures PlaceOk(b, j, {i})
    {
      assert PlaceOk(sh, j, {});
    }
  }

  lemma PublishLands(sh: Shared, t: Tid, i: nat, issue: Issue)
    requires SharedInv(sh) && sh.writer == Some(t) && InHand(sh, i) && !Live(sh, i)
    requires sh.slots[i].owner == Some(issue.owner) && sh.slots[i].descriptor == Some(issue.id)
    requires sh.slots[i].required == issue.required
    ensures var b := Publishing(sh, i, sh.slots[i].word.gen, issue);
            SharedInv(b) && Rely(sh, b, t) && InHand(b, i) && Live(b, i)
  {
    hide RecordsOk, FreeOk;
    PublishKeeps(sh, i, issue);
    var mid := WithSlot(sh, i, sh.slots[i].(word := Word(sh.slots[i].word.gen, 1)));
    InHandWrite(sh, i, mid.slots[i]);
    StagesIgnoreHistory(mid, Publishing(sh, i, sh.slots[i].word.gen, issue), i);
  }

  lemma StagesIgnoreHistory(a: Shared, b: Shared, i: nat)
    requires a.slots == b.slots && a.records == b.records && a.free == b.free
    ensures InHand(a, i) ==> InHand(b, i)
  {
    FrameKeepsStages(a, b, i);
  }

  lemma InsertKeeps(sh: Shared, t: Tid, i: nat, id: Id, o: Owner)
    requires SharedInv(sh) && sh.writer == Some(t) && InHand(sh, i) && Live(sh, i)
    requires id !in sh.records && sh.slots[i].owner == Some(o) && sh.slots[i].descriptor == Some(id)
    ensures var b := DropWrite(sh.(records := sh.records[id := Record(o, Handle(sh.slots[i].word.gen, i))]));
            SharedInv(b) && Rely(sh, b, t)
  {
    hide Whole;
    var mid := sh.(records := sh.records[id := Record(o, Handle(sh.slots[i].word.gen, i))]);
    CoreKept(sh, mid);
    InsertedWhole(sh, i, id, o);
    DropsWrite(mid, t);
  }

  lemma InsertedRecord(sh: Shared, i: nat, id: Id, o: Owner, other: Id)
    requires InHand(sh, i) && Live(sh, i)
    requires id !in sh.records && sh.slots[i].owner == Some(o) && sh.slots[i].descriptor == Some(id)
    ensures RecordOk(sh.(records := sh.records[id := Record(o, Handle(sh.slots[i].word.gen, i))]), other, {}, {})
  {
    assert RecordOk(sh, other, {i}, {i});
  }

  lemma InsertedPlace(sh: Shared, i: nat, id: Id, o: Owner, j: nat)
    requires InHand(sh, i) && Live(sh, i) && j < |sh.slots|
    requires id !in sh.records && sh.slots[i].owner == Some(o) && sh.slots[i].descriptor == Some(id)
    ensures PlaceOk(sh.(records := sh.records[id := Record(o, Handle(sh.slots[i].word.gen, i))]), j, {})
  {
    assert PlaceOk(sh, j, {i});
  }

  lemma InsertedCount(sh: Shared, id: Id, r: Record)
    requires id !in sh.records
    ensures |sh.records[id := r]| == |sh.records| + 1
  {
    assert sh.records[id := r].Keys == sh.records.Keys + {id};
    assert |sh.records[id := r]| == |sh.records[id := r].Keys| && |sh.records| == |sh.records.Keys|;
  }

  lemma InsertedWhole(sh: Shared, i: nat, id: Id, o: Owner)
    requires InHand(sh, i) && Live(sh, i)
    requires id !in sh.records && sh.slots[i].owner == Some(o) && sh.slots[i].descriptor == Some(id)
    ensures Whole(sh.(records := sh.records[id := Record(o, Handle(sh.slots[i].word.gen, i))]))
  {
    hide RecordOk, PlaceOk;
    var b := sh.(records := sh.records[id := Record(o, Handle(sh.slots[i].word.gen, i))]);
    InsertedCount(sh, id, Record(o, Handle(sh.slots[i].word.gen, i)));
    forall other ensures RecordOk(b, other, {}, {}) {
      InsertedRecord(sh, i, id, o, other);
    }
    forall j: nat | j < |b.slots| ensures PlaceOk(b, j, {}) {
      InsertedPlace(sh, i, id, o, j);
    }
  }

  lemma LiveIsIssued(sh: Shared, i: nat)
    requires SharedInv(sh) && i < |sh.slots| && Live(sh, i)
    ensures (i, sh.slots[i].epoch) in sh.issued && sh.slots[i].word.gen == GenOf(sh.slots[i].epoch)
    ensures var issue := sh.issued[(i, sh.slots[i].epoch)];
            sh.slots[i].owner == Some(issue.owner) && sh.slots[i].descriptor == Some(issue.id)
            && sh.slots[i].required == issue.required
  {
    assert SlotOk(sh, i);
  }

  lemma RegisterKeeps(sh: Shared, t: Tid, r: Entry, at: RegAt)
    requires SharedInv(sh) && RegInv(sh, t, r, at)
    ensures at.RegLoad? || at.RegStore? ==> at.i < |sh.slots|
    ensures Kept(sh, t, RegisterStep(sh, t, r, at))
  {
    hide SharedInv, Rely, Whole, InHand;
    match at
    case RegLock =>
      if LockFree(sh) { TakesWrite(sh, t); } else { ReadOnly(sh, t, (sh, Registering(r, at))); }
    case RegPop =>
      if |sh.records| < |sh.slots| && r.id !in sh.records { PopKeeps(sh, t, r.id); } else { DropsWrite(sh, t); }
    case RegLoad(i) =>
      RegisterSlot(sh, t, r, at);
      ReadOnly(sh, t, RegisterStep(sh, t, r, at));
    case RegStore(i, gen, store) =>
      RegisterSlot(sh, t, r, at);
      if store.PutRecord? {
        InsertKeeps(sh, t, i, r.id, r.o);
        LiveIsIssued(sh, i);
      } else if store.PutState? {
        PublishLands(sh, t, i, Issue(r.id, r.o, r.req));
      } else {
        HiddenWrite(sh, t, i, Stored(sh.slots[i], r, store));
        InHandWrite(sh, i, Stored(sh.slots[i], r, store));
      }
  }

  /** Every step of every thread keeps the invariant. */
  lemma StepKeeps(s: State, a: Action)
    requires Inv(s)
    ensures Inv(Step(s, a))
  {
    var t := a.tid;
    var pc := PcOf(s, t);
    assert PcInv(s.sh, t, pc);
    var next := StepParts(s, a);
    StepPartsKept(s, a);
    forall u: Tid
      ensures PcInv(next.0, u, PcOf(Step(s, a), u))
    {
      if u != t { Stable(s.sh, next.0, t, u, PcOf(s, u)); }
    }
  }

  function StepParts(s: State, a: Action): (Shared, Pc)
  {
    var pc := PcOf(s, a.tid);
    match a.input
    case Begin(op) => if !pc.Idle? && !pc.Returned? then (s.sh, pc) else BeginStep(s.sh, a.tid, op)
    case Go(weak) => GoStep(s.sh, a.tid, pc, weak)
  }

  lemma StepPartsKept(s: State, a: Action)
    requires SharedInv(s.sh) && PcInv(s.sh, a.tid, PcOf(s, a.tid))
    ensures Kept(s.sh, a.tid, StepParts(s, a))
    ensures Step(s, a) == State(StepParts(s, a).0, s.pcs[a.tid := StepParts(s, a).1])
         || (Step(s, a) == s && StepParts(s, a) == (s.sh, PcOf(s, a.tid)))
  {
    hide SharedInv, Rely, AcqInv, RelInv, FinInv, SigInv, RegInv, AcquireStep, ReleaseStep, FinalizeStep,
         SignalStep, RegisterStep, BeginStep, Kept;
    var sh, t, pc := s.sh, a.tid, PcOf(s, a.tid);
    if a.input.Begin? {
      if pc.Idle? || pc.Returned? { BeginKeeps(sh, t, a.input.op); } else { ReadOnly(sh, t, (sh, pc)); }
    } else {
      match pc
      case Idle => ReadOnly(sh, t, (sh, pc));
      case Returned(_, _) => ReadOnly(sh, t, (sh, pc));
      case Acquiring(c, held, at) => AcquireKeeps(sh, t, c, held, at, a.input.weak);
      case Releasing(c, at) => ReleaseKeeps(sh, t, c, at, a.input.weak);
      case Finalizing(c, seen, at) => FinalizeKeeps(sh, t, c, seen, at, a.input.weak);
      case Signaling(c, v, at) => SignalKeeps(sh, t, c, v, at);
      case Registering(r, at) => RegisterKeeps(sh, t, r, at);
    }
  }

  lemma InitHolds(max: nat)
    requires max <= GENERATIONS
    ensures Inv(Init(max))
  {
    var sh := Init(max).sh;
    forall i: nat, e: nat | i < |sh.slots|
      ensures CountsOk(sh, i, e)
    {
    }
    forall i: nat | i < |sh.slots|
      ensures PlaceOk(sh, i, {})
    {
      assert sh.free[max - 1 - i] == i;
    }
  }

  /** The invariant holds after every run of any number of threads. */
  lemma {:induction false} RunKeeps(max: nat, run: seq<Action>)
    requires max <= GENERATIONS
    ensures Inv(Exec(Init(max), run))
  {
    if run == [] {
      InitHolds(max);
    } else {
      RunKeeps(max, run[..|run| - 1]);
      StepKeeps(Exec(Init(max), run[..|run| - 1]), run[|run| - 1]);
    }
  }
}
