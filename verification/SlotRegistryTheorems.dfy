/**
 What the slot registry promises, over every run of any number of threads, and
 where its 32-bit generation and its unguarded fence signal stop keeping it.
 */
module SlotRegistryTheorems {
  import opened Common
  import opened SlotRegistry
  import opened SlotRegistryProofs

  function After(max: nat, run: seq<Action>): Shared { Exec(Init(max), run).sh }

  /** The handle a registration recorded names exactly the registration made for that call. */
  lemma HandleNamesItsRegistration(max: nat, run: seq<Action>, t: Tid)
    requires max <= GENERATIONS
    requires PcOf(Exec(Init(max), run), t).Returned? && PcOf(Exec(Init(max), run), t).outcome.DidRegister?
    ensures var sh, pc := After(max, run), PcOf(Exec(Init(max), run), t);
            var h, e := pc.outcome.handle, pc.outcome.epoch;
            && pc.op.Register? && h == Handle(GenOf(e), h.slot) && h.slot < max
            && (h.slot, e) in sh.issued && sh.issued[(h.slot, e)] == Issue(pc.op.id, pc.op.owner, pc.op.required)
  {
    RunKeeps(max, run);
    SlotsFixed(max, run);
    assert PcInv(After(max, run), t, PcOf(Exec(Init(max), run), t));
  }

  // Registration e of the slot was issued with this handle.
  predicate IssuedWith(sh: Shared, h: Handle, e: nat)
  {
    (h.slot, e) in sh.issued && h == Handle(GenOf(e), h.slot)
  }

  /**
   With no writer, the handle that slot_handle reads from a record is the one the slot's
   current registration was issued with, to the record's owner and under its id.
   */
  lemma RecordedHandleIsIssued(max: nat, run: seq<Action>, id: Id)
    requires max <= GENERATIONS && After(max, run).writer.None? && id in After(max, run).records
    ensures var sh := After(max, run);
            var r := sh.records[id];
            && r.handle.slot < |sh.slots|
            && var e := sh.slots[r.handle.slot].epoch;
            && IssuedWith(sh, r.handle, e) && LiveRegistration(sh, r.handle.slot, e)
            && sh.issued[(r.handle.slot, e)].owner == r.owner && sh.issued[(r.handle.slot, e)].id == id
  {
    RunKeeps(max, run);
    var sh := After(max, run);
    assert RecordOk(sh, id, {}, {});
    assert SlotOk(sh, sh.records[id].handle.slot);
  }

  /**
   A successful acquire, release or removal acts on the registration that was issued with its
   handle exactly when the issue and the compare-and-swap are fewer than 2^32 retirements of
   the slot apart. When the call's liveness check came after the issue, it is then also made
   by that registration's owner.
   */
  lemma SuccessHitsItsRegistration(max: nat, run: seq<Action>, k: nat, e: nat)
    requires max <= GENERATIONS && k < |After(max, run).log|
    requires IssuedWith(After(max, run), After(max, run).log[k].handle, e)
    ensures var sh, event := After(max, run), After(max, run).log[k];
            && event.slot < max && event.handle.slot == event.slot && (event.slot, event.epoch) in sh.issued
            && (event.epoch == e <==> event.epoch < e + GENERATIONS && e < event.epoch + GENERATIONS)
            && (e <= event.seen ==>
                  e <= event.epoch
                  && (event.epoch == e && event.owner == sh.issued[(event.slot, e)].owner <==>
                      event.epoch - e < GENERATIONS))
  {
    RunKeeps(max, run);
    SlotsFixed(max, run);
    var event := After(max, run).log[k];
    assert EventOk(After(max, run), event);
    var low, high := if e < event.epoch then e else event.epoch, if e < event.epoch then event.epoch else e;
    GenWraps(low, high);
    SameWrapSameGen(low, high);
  }

  /** Every success was checked live at an epoch issued with its handle, so some registration was. */
  lemma EverySuccessWasIssued(max: nat, run: seq<Action>, k: nat)
    requires max <= GENERATIONS && k < |After(max, run).log|
    ensures var sh, event := After(max, run), After(max, run).log[k];
            && IssuedWith(sh, event.handle, event.seen) && event.seen <= event.epoch
            && (event.slot, event.epoch) in sh.issued
            && (event.Removed? ==> event.owner == sh.issued[(event.slot, event.epoch)].owner)
  {
    RunKeeps(max, run);
    var sh, event := After(max, run), After(max, run).log[k];
    assert EventOk(sh, event);
    SameWrapSameGen(event.seen, event.epoch);
    assert (event.slot, event.seen) in sh.issued;
  }

  lemma SameWrapSameGen(a: nat, b: nat)
    requires SameWrap(a, b)
    ensures GenOf(a) == GenOf(b)
    ensures a == b <==> b - a < GENERATIONS
  {
    var k := (b - a) / GENERATIONS;
    assert b == a + k * GENERATIONS;
  }

  lemma {:induction false} SlotsFixed(max: nat, run: seq<Action>)
    requires max <= GENERATIONS
    ensures |After(max, run).slots| == max
  {
    if run != [] {
      var before := run[..|run| - 1];
      SlotsFixed(max, before);
      RunKeeps(max, before);
      var s := Exec(Init(max), before);
      assert PcInv(s.sh, run[|run| - 1].tid, PcOf(s, run[|run| - 1].tid));
      StepPartsKept(s, run[|run| - 1]);
    }
  }

  /**
   The count of a live registration is one plus its successful acquires less its
   successful releases. A retired one had as many releases as acquires before the
   single release that reported it removed. A slot not live has no references.
   */
  lemma CountIsTheBalance(max: nat, run: seq<Action>, i: nat, e: nat)
    requires max <= GENERATIONS && i < max
    ensures var sh := After(max, run);
            && |sh.slots| == max
            && ((i, e) in sh.issued <==>
                  e < sh.slots[i].epoch || (e == sh.slots[i].epoch && sh.slots[i].word.refs > 0))
            && ((i, e) in sh.issued && e == sh.slots[i].epoch ==>
                  && Removals(sh, i, e) == 0
                  && sh.slots[i].word.refs == 1 + Acquires(sh, i, e) - Releases(sh, i, e))
            && ((i, e) in sh.issued && e < sh.slots[i].epoch ==>
                  Removals(sh, i, e) == 1 && Acquires(sh, i, e) == Releases(sh, i, e))
            && ((i, e) !in sh.issued ==>
                  Removals(sh, i, e) == 0 && Acquires(sh, i, e) == 0 && Releases(sh, i, e) == 0)
  {
    RunKeeps(max, run);
    SlotsFixed(max, run);
    assert CountsOk(After(max, run), i, e);
  }

  /**
   After the release that reported removed, nothing succeeds on that handle again,
   unless the slot has since been retired a positive multiple of 2^32 times.
   */
  lemma NothingSucceedsAfterRemoval(max: nat, run: seq<Action>, a: nat, b: nat)
    requires max <= GENERATIONS
    requires a < b < |After(max, run).log|
    requires After(max, run).log[a].Removed?
    ensures var log := After(max, run).log;
            log[b].handle == log[a].handle ==>
              log[a].epoch < log[b].epoch && (log[b].epoch - log[a].epoch) % GENERATIONS == 0
    ensures After(max, run).log[a].slot < |After(max, run).slots|
    ensures var sh := After(max, run);
            sh.slots[sh.log[a].slot].epoch < GENERATIONS ==> sh.log[b].handle != sh.log[a].handle
  {
    RunKeeps(max, run);
    var sh := After(max, run);
    assert EventOk(sh, sh.log[a]) && EventOk(sh, sh.log[b]);
    if sh.log[b].handle == sh.log[a].handle {
      var x, y := sh.log[a].epoch, sh.log[b].epoch;
      GenWraps(x, y);
      SameWrapSameGen(x, y);
    }
  }

  /**
   While no thread holds the write lock, every slot is either free or named by the
   record of exactly one id, which carries its generation and owner, and never both.
   */
  lemma RecordsAndFreeSlotsPartition(max: nat, run: seq<Action>, i: nat)
    requires max <= GENERATIONS && i < max
    requires After(max, run).writer.None?
    ensures var sh := After(max, run);
            && |sh.slots| == max && |sh.records| + |sh.free| == max
            && (forall a, b :: 0 <= a < b < |sh.free| ==> sh.free[a] != sh.free[b])
            && (i in sh.free <==> sh.slots[i].word.refs == 0)
            && (i !in sh.free <==> exists id :: id in sh.records && sh.records[id].handle.slot == i)
            && (forall id :: id in sh.records && sh.records[id].handle.slot == i ==>
                  && sh.records[id].handle.gen == sh.slots[i].word.gen
                  && sh.slots[i].descriptor == Some(id)
                  && sh.slots[i].owner == Some(sh.records[id].owner))
  {
    RunKeeps(max, run);
    SlotsFixed(max, run);
    var sh := After(max, run);
    assert PlaceOk(sh, i, {});
    forall id | id in sh.records && sh.records[id].handle.slot == i
      ensures sh.records[id].handle.gen == sh.slots[i].word.gen && sh.slots[i].word.refs > 0
      ensures sh.slots[i].descriptor == Some(id) && sh.slots[i].owner == Some(sh.records[id].owner)
    {
      assert RecordOk(sh, id, {}, {});
    }
  }

  /**
   Registering never finds the free list empty once it has passed the limit check,
   and `acquire` by id on a record with the right owner fails only on a full count.
   */
  lemma NoSpuriousFailure(max: nat, run: seq<Action>, t: Tid)
    requires max <= GENERATIONS
    ensures var pc := PcOf(Exec(Init(max), run), t);
            && (pc.Returned? ==> pc.outcome != Failed(NoFreeSlot))
            && (pc.Returned? && pc.op.Acquire? && pc.outcome.Failed? ==>
                  pc.outcome.error in {MalformedOwner, UnknownDescriptor, RecordOwnerMismatch, CountOverflow})
  {
    RunKeeps(max, run);
    assert PcInv(After(max, run), t, PcOf(Exec(Init(max), run), t));
  }

  /** No registration is retired before its fence reached the value it was issued with. */
  lemma RetiredOnlyAfterTheFence(max: nat, run: seq<Action>, k: nat)
    requires max <= GENERATIONS && k < |After(max, run).log| && After(max, run).log[k].Removed?
    ensures var sh, event := After(max, run), After(max, run).log[k];
            (event.slot, event.epoch) in sh.issued
            && sh.issued[(event.slot, event.epoch)].required <= event.signaled
  {
    RunKeeps(max, run);
    assert EventOk(After(max, run), After(max, run).log[k]);
  }

  lemma ExecSnoc(s: State, run: seq<Action>, a: Action)
    ensures Exec(s, run + [a]) == Step(Exec(s, run), a)
  {
    assert (run + [a])[..|run|] == run;
  }

  /**
   For as long as one registration is live, over any further run, its required value,
   owner and generation stay as issued and its signalled value only grows.
   */
  lemma {:induction false} FenceIsMonotone(max: nat, run: seq<Action>, more: seq<Action>, i: nat)
    requires max <= GENERATIONS && i < max
    requires |After(max, run).slots| == max && |After(max, run + more).slots| == max
    ensures SlotRely(After(max, run).slots[i], After(max, run + more).slots[i])
    decreases more
  {
    if more == [] {
      assert run + more == run;
    } else {
      var front, a := more[..|more| - 1], more[|more| - 1];
      assert run + more == (run + front) + [a];
      SlotsFixed(max, run + front);
      FenceIsMonotone(max, run, front, i);
      RunKeeps(max, run + front);
      ExecSnoc(Init(max), run + front, a);
      var s := Exec(Init(max), run + front);
      assert PcInv(s.sh, a.tid, PcOf(s, a.tid));
      StepPartsKept(s, a);
    }
  }

  /**
   The fetch-max of a signal call, made without a fresh liveness check, finds the registration
   that the check saw live exactly when the slot was not retired since, and is then made by
   its owner. Otherwise that registration was removed, once, in between.
   */
  lemma SignalLandsOnItsOwner(max: nat, run: seq<Action>, t: Tid)
    requires max <= GENERATIONS
    requires PcOf(Exec(Init(max), run), t).Signaling? && PcOf(Exec(Init(max), run), t).sig.SigMax?
    ensures var sh, pc := After(max, run), PcOf(Exec(Init(max), run), t);
            var i, seen := pc.c.h.slot, pc.sig.seen;
            && i < |sh.slots| && seen <= sh.slots[i].epoch && IssuedWith(sh, pc.c.h, seen)
            && (LiveRegistration(sh, i, seen) <==> seen == sh.slots[i].epoch)
            && (LiveRegistration(sh, i, seen) ==> sh.issued[(i, seen)].owner == pc.c.o)
            && (seen < sh.slots[i].epoch ==> Removals(sh, i, seen) == 1)
  {
    RunKeeps(max, run);
    var sh, pc := After(max, run), PcOf(Exec(Init(max), run), t);
    assert PcInv(sh, t, pc);
    assert SlotOk(sh, pc.c.h.slot);
    assert CountsOk(sh, pc.c.h.slot, pc.sig.seen);
    assert (pc.c.h.slot, pc.sig.seen) in sh.issued;
  }

  // Registration e of slot i was issued and not retired.
  predicate LiveRegistration(sh: Shared, i: nat, e: nat)
    requires i < |sh.slots|
  {
    (i, e) in sh.issued && e == sh.slots[i].epoch && sh.slots[i].word.refs > 0
  }
}
