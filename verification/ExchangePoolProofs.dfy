/**
 The ownership discipline of completion channels, control buffers and child processes,
 kept by every step of callers, loops, supervisors and restarts.
 */
module ExchangePoolProofs {
  import opened Common
  import opened ExchangePool

  // ---------------------------------------------------------------- invariants

  function Holder(use: Use): Option<Gid> { if use.Pooled? then None else Some(use.g) }

  predicate InService(loop: Loop, r: Request)
  {
    || (loop.at.Serving? && loop.at.r == r)
    || (loop.at.Replying? && loop.at.r == r)
  }

  // A handed-over request really is in the loop it was handed to.
  predicate InLoop(sh: Shared, c: nat, use: Use)
    requires use.Out?
  {
    var r := Request(use.req, c, use.buf);
    && use.l in sh.loops
    && if use.queued then sh.loops[use.l].queue == Some(r) else InService(sh.loops[use.l], r)
  }

  // The buffer of an outstanding request is the caller's and lent, or was let go.
  predicate BufferOk(sh: Shared, c: nat, use: Use)
    requires use.Out? || use.Answered?
  {
    && use.buf in sh.bufUse
    && sh.bufUse[use.buf] == if use.g.Caller? then Owned(use.g, Some(c)) else Dropped
  }

  predicate ContentOk(sh: Shared, content: Option<Result>, use: Use)
  {
    if use.Answered? then
      && content.Some? && content.value.req == use.req
      && (content.value.reply.ReplyError? ==> use.req in sh.failed)
      && (content.value.reply.ReplyCanceled? ==> EpochRequest(sh, use.req))
    else content.None?
  }

  predicate EpochRequest(sh: Shared, req: nat)
  {
    req in sh.hands && sh.hands[req].w in sh.workers && sh.workers[sh.hands[req].w].mode.Epoch?
  }

  predicate MadeFor(sh: Shared, req: nat, c: nat) { req in sh.hands && sh.hands[req].chan == c }

  predicate ChanOk(sh: Shared, c: nat)
  {
    && (c in sh.chans <==> c in sh.use)
    && (c !in sh.use ==> sh.chanPool[c] == 0)
    && (c in sh.use ==>
          var use := sh.use[c];
          && c < sh.nextChan
          && sh.chanPool[c] == (if use.Pooled? then 1 else 0)
          && ContentOk(sh, sh.chans[c], use)
          && (use.Out? ==> InLoop(sh, c, use))
          && (use.Out? || use.Answered? ==> BufferOk(sh, c, use) && MadeFor(sh, use.req, c))
          && (Holder(use).Some? && use.g.Supervisor? ==> use.g.k < sh.nextSup))
  }

  predicate BufOk(sh: Shared, b: nat)
  {
    && (b in sh.bufUse ==> b < sh.nextBuf)
    && sh.bufPool[b] == (if b in sh.bufUse && sh.bufUse[b].InPool? then 1 else 0)
  }

  // A request that the loop will still touch is the outstanding one of its channel.
  predicate Outstanding(sh: Shared, r: Request, l: nat, queued: bool)
  {
    && r.chan in sh.use && sh.use[r.chan].Out?
    && sh.use[r.chan].req == r.id && sh.use[r.chan].l == l
    && sh.use[r.chan].queued == queued && sh.use[r.chan].buf == r.buf
  }

  predicate LoopOk(sh: Shared, l: nat)
  {
    l in sh.loops ==>
      var loop := sh.loops[l];
      && l < sh.nextLoop
      && (loop.queue.Some? && !loop.at.Done? ==>
            Outstanding(sh, loop.queue.value, l, true) && HandedTo(sh, loop.queue.value.id, loop.w))
      && (loop.at.Serving? || loop.at.Replying? ==>
            Outstanding(sh, loop.at.r, l, false) && HandedTo(sh, loop.at.r.id, loop.w))
      && (loop.at.Replying? && loop.at.reply.ReplyCanceled? ==> EpochRequest(sh, loop.at.r.id))
  }

  predicate HandedTo(sh: Shared, req: nat, w: nat) { req in sh.hands && sh.hands[req].w == w }

  predicate WorkerOk(sh: Shared, w: nat)
  {
    w in sh.workers ==>
      var worker := sh.workers[w];
      && (worker.process.Some? ==> worker.process.value < sh.nextPid)
      && (worker.loop.Some? ==>
            var l := worker.loop.value;
            l in sh.loops && sh.loops[l].w == w && !sh.loops[l].stop && !sh.loops[l].at.Done?)
  }

  // The failure that tears a worker down, and what it rests on.
  predicate WhyOk(sh: Shared, why: Why)
  {
    match why
    case OnClose => true
    case NotReady(_, w, _) => w in sh.workers && sh.workers[w].mode.Epoch?
    case OnFailure(end, ctx, deadline) =>
      match end.out
      case ContextEnded => end.handed.None? && ContextDone(sh, ctx)
      case NeverStarted => end.handed.None? && deadline in sh.expired
      case ExchangeFailed => end.handed.Some? && end.handed.value in sh.failed
      case ExchangeCanceled => end.handed.Some? && EpochRequest(sh, end.handed.value)
      case TimedOut => end.handed.Some? && deadline in sh.expired
      case _ => false
  }

  // The process a teardown hits is the one that had the failed request, or the one just started.
  predicate Targets(sh: Shared, why: Why, pid: nat)
  {
    match why
    case OnClose => true
    case NotReady(started, _, _) => pid == started
    case OnFailure(end, _, deadline) =>
      end.handed.Some? ==>
        && end.handed.value in sh.hands
        && sh.hands[end.handed.value].pid == Some(pid) && sh.hands[end.handed.value].deadline == deadline
  }

  predicate KillOk(sh: Shared, kill: Kill)
  {
    match kill.cause
    case AttemptDeadline(req) =>
      req in sh.hands && sh.hands[req].pid == Some(kill.pid) && sh.hands[req].deadline in sh.expired
    case SupervisorDeadline(req) =>
      req in sh.hands && sh.hands[req].pid == Some(kill.pid) && sh.hands[req].deadline in sh.expired
    case Teardown(why) => WhyOk(sh, why) && Targets(sh, why, kill.pid)
  }

  ghost predicate SharedInv(sh: Shared)
  {
    && (forall c: nat {:trigger ChanOk(sh, c)} :: ChanOk(sh, c))
    && (forall b: nat {:trigger BufOk(sh, b)} :: BufOk(sh, b))
    && (forall l: nat {:trigger LoopOk(sh, l)} :: LoopOk(sh, l))
    && (forall w: nat {:trigger WorkerOk(sh, w)} :: WorkerOk(sh, w))
    && (forall k :: 0 <= k < |sh.kills| ==> KillOk(sh, sh.kills[k]))
    && (forall req :: req in sh.hands ==> req < sh.nextReq)
  }

  predicate Locked(sh: Shared, g: Gid, w: nat) { w in sh.workers && sh.workers[w].mu == Some(g) }

  predicate Owns(sh: Shared, g: Gid, b: nat) { b in sh.bufUse && sh.bufUse[b] == Owned(g, None) }

  predicate Holds(sh: Shared, g: Gid, c: nat) { c in sh.use && sh.use[c] == Held(g) }

  predicate Awaits(sh: Shared, g: Gid, x: Exchange)
  {
    && x.chan in sh.use
    && (|| sh.use[x.chan] == Answered(g, x.req, x.buf)
        || (exists queued :: sh.use[x.chan] == Out(g, x.req, x.lid, queued, x.buf)))
  }

  predicate Made(sh: Shared, x: Exchange, w: nat)
  {
    x.req in sh.hands && sh.hands[x.req] == Hand(w, x.pid, x.deadline, x.chan)
  }

  // The buffer and deadline of an attempt are the call's own, or fresh for a warm-up.
  predicate Fits(c: Call, phase: Phase, x: Exchange)
  {
    if phase.Warmup? then x.buf != c.buf else x.buf == c.buf && x.deadline == c.deadline
  }

  // The request an attempt handed over was made for this worker's process and this deadline.
  predicate EndOk(sh: Shared, c: Call, phase: Phase, end: End)
  {
    phase.Attempt? && !end.out.Completed? && !end.out.Abandoned? ==>
      && c.w in sh.workers && WhyOk(sh, OnFailure(end, c.ctx, c.deadline))
      && (end.handed.Some? ==>
            end.handed.value in sh.hands
            && sh.hands[end.handed.value].w == c.w && sh.hands[end.handed.value].deadline == c.deadline
            && sh.hands[end.handed.value].pid == sh.workers[c.w].process)
  }

  predicate Current(sh: Shared, w: nat, lid: nat, pid: Option<nat>)
  {
    w in sh.workers && sh.workers[w].loop == Some(lid) && sh.workers[w].process == pid
  }

  predicate AttemptInv(sh: Shared, g: Gid, c: Call, phase: Phase, at: AttAt)
  {
    && g.Caller? && Locked(sh, g, c.w) && sh.workers[c.w].process.Some?
    && (phase.Warmup? || !(at.AtWait? || at.AtKill? || at.AtSettle?) ==> Owns(sh, g, c.buf))
    && match at
       case AtContext => true
       case AtLoop => true
       case AtChan(lid, pid) => Current(sh, c.w, lid, pid)
       case AtSend(x) =>
         && Current(sh, c.w, x.lid, x.pid) && Made(sh, x, c.w) && Fits(c, phase, x)
         && Holds(sh, g, x.chan) && Owns(sh, g, x.buf)
       case AtWait(x) => Current(sh, c.w, x.lid, x.pid) && Made(sh, x, c.w) && Fits(c, phase, x) && Awaits(sh, g, x)
       case AtKill(x) =>
         && Current(sh, c.w, x.lid, x.pid) && Made(sh, x, c.w) && Fits(c, phase, x) && Awaits(sh, g, x)
         && x.deadline in sh.expired
       case AtSettle(x) =>
         && Current(sh, c.w, x.lid, x.pid) && Made(sh, x, c.w) && Fits(c, phase, x) && Awaits(sh, g, x)
         && x.deadline in sh.expired
       case AtDrain(chan, end) => Holds(sh, g, chan) && EndOk(sh, c, phase, end) && !end.out.ContextEnded?
       case AtPut(chan, end) => Holds(sh, g, chan) && EndOk(sh, c, phase, end) && !end.out.ContextEnded?
  }

  predicate CallInv(sh: Shared, g: Gid, c: Call, at: CallAt)
  {
    && g.Caller?
    && (at.NeedStart? || at.Recheck? || at.Succeeded? || at.Finish? ==> Locked(sh, g, c.w))
    && (at.Recheck? ==> sh.workers[c.w].process.Some?)
    && ((at.Finish? && at.out.Abandoned?) || Owns(sh, g, c.buf))
  }

  predicate CloseInv(sh: Shared, g: Gid, w: nat, back: Option<Call>, why: Why)
  {
    && g.Caller? && Locked(sh, g, w) && WhyOk(sh, why)
    && (why.NotReady? ==> back.Some?)
    && (sh.workers[w].process.Some? ==> Targets(sh, why, sh.workers[w].process.value))
    && (back.Some? ==> back.value.w == w && Owns(sh, g, back.value.buf))
  }

  predicate SupInv(sh: Shared, g: Gid, x: Exchange, at: SupAt)
  {
    && g.Supervisor? && g.k < sh.nextSup
    && (at.SupWait? || at.SupSettle? ==> Awaits(sh, g, x) && x.req in sh.hands
                                         && sh.hands[x.req].pid == x.pid && sh.hands[x.req].deadline == x.deadline)
    && (at.SupDrain? ==> Holds(sh, g, x.chan) || (x.chan in sh.use && sh.use[x.chan] == Answered(g, x.req, x.buf)))
    && (at.SupPut? ==> Holds(sh, g, x.chan))
  }

  predicate PcInv(sh: Shared, g: Gid, pc: Pc)
  {
    match pc
    case Idle => true
    case Returned(_) => g.Caller?
    case Calling(c, at) => CallInv(sh, g, c, at)
    case Attempting(c, phase, at) => AttemptInv(sh, g, c, phase, at)
    case Closing(w, back, why, at) => CloseInv(sh, g, w, back, why)
    case Supervising(x, at) => SupInv(sh, g, x, at)
  }

  ghost predicate Inv(s: State)
  {
    SharedInv(s.sh) && forall g: Gid :: PcInv(s.sh, g, PcOf(s, g))
  }

  // ---------------------------------------------------------------- rely

  // History only grows and worker modes are fixed.
  ghost predicate Grows(a: Shared, b: Shared)
  {
    && (forall req :: req in a.hands ==> req in b.hands && b.hands[req] == a.hands[req])
    && a.failed <= b.failed && a.cancelled <= b.cancelled && a.expired <= b.expired
    && a.nextSup <= b.nextSup && b.workers.Keys == a.workers.Keys
    && (forall w :: w in a.workers ==> w in b.workers && b.workers[w].mode == a.workers[w].mode)
  }

  predicate UseNext(a: Use, b: Use)
  {
    || a == b
    || (a.Out? && b.Out? && b == a.(queued := b.queued))
    || (a.Out? && b == Answered(a.g, a.req, a.buf))
  }

  // What others may do, as goroutine h sees it.
  ghost predicate Rely(a: Shared, b: Shared, h: Gid)
  {
    && Grows(a, b)
    && (forall w :: w in a.workers && a.workers[w].mu == Some(h) ==> w in b.workers && b.workers[w] == a.workers[w])
    && (forall c :: c in a.use && Holder(a.use[c]) == Some(h) ==> c in b.use && UseNext(a.use[c], b.use[c]))
    && (forall x :: x in a.bufUse && a.bufUse[x] == Owned(h, None) ==> x in b.bufUse && b.bufUse[x] == a.bufUse[x])
  }

  lemma WhyStable(a: Shared, b: Shared, why: Why)
    requires Grows(a, b) && WhyOk(a, why)
    ensures WhyOk(b, why)
  {
  }

  lemma AwaitsStable(a: Shared, b: Shared, h: Gid, x: Exchange)
    requires Rely(a, b, h) && Awaits(a, h, x)
    ensures Awaits(b, h, x)
  {
    assert Holder(a.use[x.chan]) == Some(h);
    assert UseNext(a.use[x.chan], b.use[x.chan]);
    if b.use[x.chan].Out? {
      assert b.use[x.chan] == Out(h, x.req, x.lid, b.use[x.chan].queued, x.buf);
    }
  }

  lemma AttemptStable(a: Shared, b: Shared, h: Gid, c: Call, phase: Phase, at: AttAt)
    requires Rely(a, b, h) && AttemptInv(a, h, c, phase, at)
    ensures AttemptInv(b, h, c, phase, at)
  {
    assert b.workers[c.w] == a.workers[c.w];
    match at
    case AtContext =>
    case AtLoop =>
    case AtChan(lid, pid) =>
    case AtSend(x) =>
    case AtWait(x) => AwaitsStable(a, b, h, x);
    case AtKill(x) => AwaitsStable(a, b, h, x);
    case AtSettle(x) => AwaitsStable(a, b, h, x);
    case AtDrain(chan, end) =>
      if phase.Attempt? && !end.out.Completed? && !end.out.Abandoned? {
        WhyStable(a, b, OnFailure(end, c.ctx, c.deadline));
      }
    case AtPut(chan, end) =>
      if phase.Attempt? && !end.out.Completed? && !end.out.Abandoned? {
        WhyStable(a, b, OnFailure(end, c.ctx, c.deadline));
      }
  }

  /** Steps of others never falsify a goroutine's assertion. */
  lemma Stable(a: Shared, b: Shared, h: Gid, pc: Pc)
    requires Rely(a, b, h) && PcInv(a, h, pc)
    ensures PcInv(b, h, pc)
  {
    match pc
    case Idle =>
    case Returned(_) =>
    case Calling(c, at) =>
    case Attempting(c, phase, at) => AttemptStable(a, b, h, c, phase, at);
    case Closing(w, back, why, at) => WhyStable(a, b, why);
    case Supervising(x, at) => if at.SupWait? || at.SupSettle? { AwaitsStable(a, b, h, x); }
  }

  // ---------------------------------------------------------------- effects

  // A step of g keeps the shared invariant and what everybody else relies on.
  ghost predicate Effect(a: Shared, b: Shared, g: Gid)
  {
    SharedInv(b) && forall h: Gid :: h != g ==> Rely(a, b, h)
  }

  // Killed processes and failures in the log stay explained.
  lemma KillsStable(a: Shared, b: Shared)
    requires SharedInv(a) && Grows(a, b) && b.kills == a.kills
    ensures forall k :: 0 <= k < |b.kills| ==> KillOk(b, b.kills[k])
  {
    forall k | 0 <= k < |b.kills|
      ensures KillOk(b, b.kills[k])
    {
      assert KillOk(a, a.kills[k]);
      if b.kills[k].cause.Teardown? { WhyStable(a, b, b.kills[k].cause.why); }
    }
  }

  // Channels, buffers and loops are untouched; only worker fields or history changed.
  lemma TablesKept(a: Shared, b: Shared)
    requires SharedInv(a) && Grows(a, b)
    requires b.chans == a.chans && b.chanPool == a.chanPool && b.use == a.use && b.loops == a.loops
    requires b.bufPool == a.bufPool && b.bufUse == a.bufUse
    requires b.nextChan == a.nextChan && b.nextBuf == a.nextBuf && b.nextLoop == a.nextLoop
    ensures forall c: nat :: ChanOk(b, c)
    ensures forall x: nat :: BufOk(b, x)
    ensures forall l: nat :: LoopOk(b, l)
  {
    forall c: nat ensures ChanOk(b, c) { assert ChanOk(a, c); }
    forall x: nat ensures BufOk(b, x) { assert BufOk(a, x); }
    forall l: nat ensures LoopOk(b, l) { assert LoopOk(a, l); }
  }

  lemma NoEffect(sh: Shared, g: Gid)
    requires SharedInv(sh)
    ensures Effect(sh, sh, g)
  {
  }

  // g changes the worker it has locked, locks a free one, or unlocks its own.
  lemma WorkerEffect(a: Shared, g: Gid, w: nat, worker: Worker, nextPid: nat)
    requires SharedInv(a) && w in a.workers && (a.workers[w].mu.None? || a.workers[w].mu == Some(g))
    requires worker.mode == a.workers[w].mode && a.nextPid <= nextPid
    requires worker.process.Some? ==> worker.process.value < nextPid
    requires worker.loop.None? || worker.loop == a.workers[w].loop
    ensures Effect(a, a.(workers := a.workers[w := worker], nextPid := nextPid), g)
  {
    var b := a.(workers := a.workers[w := worker], nextPid := nextPid);
    TablesKept(a, b);
    KillsStable(a, b);
    forall v: nat ensures WorkerOk(b, v) { assert WorkerOk(a, v) && WorkerOk(a, w); }
  }

  lemma KillEffect(a: Shared, g: Gid, pid: Option<nat>, cause: Cause)
    requires SharedInv(a) && (pid.Some? ==> KillOk(a, Kill(pid.value, cause)))
    ensures Effect(a, Killed(a, pid, cause), g)
  {
    var b := Killed(a, pid, cause);
    TablesKept(a, b);
    forall w: nat ensures WorkerOk(b, w) { assert WorkerOk(a, w); }
    forall k | 0 <= k < |b.kills|
      ensures KillOk(b, b.kills[k])
    {
      if k < |a.kills| { assert KillOk(a, a.kills[k]); }
    }
  }

  lemma EnvEffect(a: Shared, ctx: set<nat>, times: set<nat>, g: Gid)
    requires SharedInv(a)
    ensures var b := a.(cancelled := a.cancelled + ctx, expired := a.expired + times);
            Effect(a, b, g) && Rely(a, b, g)
  {
    var b := a.(cancelled := a.cancelled + ctx, expired := a.expired + times);
    TablesKept(a, b);
    KillsStable(a, b);
    forall w: nat ensures WorkerOk(b, w) { assert WorkerOk(a, w); }
  }

  // The parts of the invariant that a change to channels and buffers leaves alone.
  lemma RestKept(a: Shared, b: Shared)
    requires SharedInv(a) && Grows(a, b) && b.kills == a.kills
    requires b.workers == a.workers && b.nextPid == a.nextPid
    requires forall l :: l in a.loops ==>
               && l in b.loops && b.loops[l].w == a.loops[l].w && b.loops[l].stop == a.loops[l].stop
               && (b.loops[l].at.Done? ==> a.loops[l].at.Done? || a.loops[l].stop)
    requires forall req :: req in b.hands ==> req < b.nextReq
    requires forall c: nat :: ChanOk(b, c)
    requires forall x: nat :: BufOk(b, x)
    requires forall l: nat :: LoopOk(b, l)
    ensures SharedInv(b)
  {
    KillsStable(a, b);
    forall w: nat ensures WorkerOk(b, w) { assert WorkerOk(a, w); }
  }

  // g takes a buffer: from the pool, or a new one.
  lemma TakeBufferEffect(a: Shared, g: Gid, buf: nat, fromPool: bool, nextTime: nat)
    requires SharedInv(a)
    requires if fromPool then a.bufPool[buf] > 0 else buf == a.nextBuf
    ensures var b := a.(bufPool := if fromPool then a.bufPool - multiset{buf} else a.bufPool,
                        nextBuf := if fromPool then a.nextBuf else a.nextBuf + 1, nextTime := nextTime,
                        bufUse := a.bufUse[buf := Owned(g, None)]);
            Effect(a, b, g)
  {
    hide KillOk, WorkerOk;
    var b := a.(bufPool := if fromPool then a.bufPool - multiset{buf} else a.bufPool,
                nextBuf := if fromPool then a.nextBuf else a.nextBuf + 1, nextTime := nextTime,
                bufUse := a.bufUse[buf := Owned(g, None)]);
    assert BufOk(a, buf);
    forall c: nat ensures ChanOk(b, c) { assert ChanOk(a, c); }
    forall x: nat ensures BufOk(b, x) { assert BufOk(a, x); }
    forall l: nat ensures LoopOk(b, l) { assert LoopOk(a, l); }
    RestKept(a, b);
  }

  lemma PutBufferEffect(a: Shared, g: Gid, buf: nat)
    requires SharedInv(a) && Owns(a, g, buf)
    ensures Effect(a, a.(bufPool := a.bufPool + multiset{buf}, bufUse := a.bufUse[buf := InPool]), g)
  {
    hide KillOk, WorkerOk;
    var b := a.(bufPool := a.bufPool + multiset{buf}, bufUse := a.bufUse[buf := InPool]);
    assert BufOk(a, buf);
    forall c: nat
      ensures ChanOk(b, c)
    {
      assert ChanOk(a, c);
    }
    forall x: nat ensures BufOk(b, x) { assert BufOk(a, x); }
    forall l: nat ensures LoopOk(b, l) { assert LoopOk(a, l); }
    RestKept(a, b);
  }

  lemma NewLoopEffect(a: Shared, g: Gid, w: nat)
    requires SharedInv(a) && Locked(a, g, w) && a.workers[w].loop.None?
    ensures var b := a.(loops := a.loops[a.nextLoop := Loop(w, None, false, Waiting)],
                        workers := a.workers[w := a.workers[w].(loop := Some(a.nextLoop))],
                        nextLoop := a.nextLoop + 1);
            Effect(a, b, g)
  {
    var b := a.(loops := a.loops[a.nextLoop := Loop(w, None, false, Waiting)],
                workers := a.workers[w := a.workers[w].(loop := Some(a.nextLoop))],
                nextLoop := a.nextLoop + 1);
    assert LoopOk(a, a.nextLoop);
    forall c: nat ensures ChanOk(b, c) { assert ChanOk(a, c); }
    forall x: nat ensures BufOk(b, x) { assert BufOk(a, x); }
    forall l: nat ensures LoopOk(b, l) { assert LoopOk(a, l); }
    forall v: nat ensures WorkerOk(b, v) { assert WorkerOk(a, v); }
    KillsStable(a, b);
  }

  // g draws a completion channel for a new request.
  function WithChannel(a: Shared, g: Gid, chan: nat, fromPool: bool, hand: Hand): Shared
  {
    a.(chanPool := if fromPool then a.chanPool - multiset{chan} else a.chanPool,
       chans := if fromPool then a.chans else a.chans[chan := None],
       nextChan := if fromPool then a.nextChan else a.nextChan + 1,
       nextReq := a.nextReq + 1, hands := a.hands[a.nextReq := hand],
       use := a.use[chan := Held(g)])
  }

  lemma ChannelTables(a: Shared, g: Gid, chan: nat, fromPool: bool, hand: Hand)
    requires SharedInv(a) && (g.Supervisor? ==> g.k < a.nextSup)
    requires if fromPool then a.chanPool[chan] > 0 else chan == a.nextChan
    ensures var b := WithChannel(a, g, chan, fromPool, hand);
            && (forall c: nat :: ChanOk(b, c)) && (forall x: nat :: BufOk(b, x)) && (forall l: nat :: LoopOk(b, l))
  {
    hide KillOk, WorkerOk;
    var b := WithChannel(a, g, chan, fromPool, hand);
    assert a.nextReq !in a.hands;
    assert ChanOk(a, chan);
    forall c: nat ensures ChanOk(b, c) { assert ChanOk(a, c); }
    forall x: nat ensures BufOk(b, x) { assert BufOk(a, x); }
    forall l: nat ensures LoopOk(b, l) { assert LoopOk(a, l); }
  }

  lemma TakeChannelEffect(a: Shared, g: Gid, chan: nat, fromPool: bool, hand: Hand)
    requires SharedInv(a) && (g.Supervisor? ==> g.k < a.nextSup)
    requires if fromPool then a.chanPool[chan] > 0 else chan == a.nextChan
    ensures Effect(a, WithChannel(a, g, chan, fromPool, hand), g)
  {
    ChannelTables(a, g, chan, fromPool, hand);
    var b := WithChannel(a, g, chan, fromPool, hand);
    assert a.nextReq !in a.hands;
    assert ChanOk(a, chan);
    hide KillOk, WorkerOk, ChanOk, BufOk, LoopOk;
    RestKept(a, b);
  }

  lemma HandOverEffect(a: Shared, g: Gid, x: Exchange, w: nat)
    requires SharedInv(a) && g.Caller? && Current(a, w, x.lid, x.pid) && Made(a, x, w)
    requires Holds(a, g, x.chan) && Owns(a, g, x.buf)
    requires x.lid in a.loops && a.loops[x.lid].queue.None?
    ensures Effect(a, HandOver(a, g, x), g) && Awaits(HandOver(a, g, x), g, x)
  {
    hide KillOk;
    var b := HandOver(a, g, x);
    assert WorkerOk(a, w) && LoopOk(a, x.lid);
    forall c: nat ensures ChanOk(b, c) { assert ChanOk(a, c); }
    forall y: nat ensures BufOk(b, y) { assert BufOk(a, y); }
    forall l: nat ensures LoopOk(b, l) { assert LoopOk(a, l); }
    RestKept(a, b);
    assert b.use[x.chan] == Out(g, x.req, x.lid, true, x.buf);
  }

  // A supervisor receives, or anyone drains a channel with nothing outstanding.
  lemma DrainEffect(a: Shared, g: Gid, c: nat)
    requires SharedInv(a) && c in a.use && Holder(a.use[c]) == Some(g) && !a.use[c].Out?
    ensures Effect(a, SetUse(a, c, None, Held(g)), g)
  {
    hide KillOk, WorkerOk;
    var b := SetUse(a, c, None, Held(g));
    assert ChanOk(a, c);
    forall d: nat ensures ChanOk(b, d) { assert ChanOk(a, d); }
    forall x: nat ensures BufOk(b, x) { assert BufOk(a, x); }
    forall l: nat ensures LoopOk(b, l) { assert LoopOk(a, l); }
    RestKept(a, b);
  }

  lemma ReceiveEffect(a: Shared, g: Gid, x: Exchange)
    requires SharedInv(a) && g.Caller? && Awaits(a, g, x) && a.use[x.chan].Answered?
    ensures Effect(a, Received(a, g, x), g)
  {
    hide KillOk, WorkerOk;
    var b := Received(a, g, x);
    assert ChanOk(a, x.chan);
    forall d: nat ensures ChanOk(b, d) { assert ChanOk(a, d); }
    forall y: nat ensures BufOk(b, y) { assert BufOk(a, y) && BufOk(a, x.buf); }
    forall l: nat ensures LoopOk(b, l) { assert LoopOk(a, l); }
    RestKept(a, b);
  }

  lemma RecycleEffect(a: Shared, g: Gid, c: nat)
    requires SharedInv(a) && Holds(a, g, c)
    ensures Effect(a, Recycled(a, c), g)
  {
    hide KillOk, WorkerOk;
    var b := Recycled(a, c);
    assert ChanOk(a, c);
    forall d: nat ensures ChanOk(b, d) { assert ChanOk(a, d); }
    forall x: nat ensures BufOk(b, x) { assert BufOk(a, x); }
    forall l: nat ensures LoopOk(b, l) { assert LoopOk(a, l); }
    RestKept(a, b);
  }

  // The caller hands its channel to a new supervisor and lets its buffer go.
  lemma AbandonEffect(a: Shared, g: Gid, x: Exchange)
    requires SharedInv(a) && g.Caller? && Awaits(a, g, x)
    ensures Effect(a, Abandon(a, x), g)
    ensures Awaits(Abandon(a, x), Supervisor(a.nextSup), x)
  {
    hide KillOk, WorkerOk;
    var b := Abandon(a, x);
    var sup := Supervisor(a.nextSup);
    assert ChanOk(a, x.chan);
    if b.use[x.chan].Out? { assert b.use[x.chan] == Out(sup, x.req, x.lid, b.use[x.chan].queued, x.buf); }
    forall c: nat
      ensures ChanOk(b, c)
    {
      assert ChanOk(a, c);
    }
    forall y: nat ensures BufOk(b, y) { assert BufOk(a, y) && BufOk(a, x.buf); }
    forall l: nat ensures LoopOk(b, l) { assert LoopOk(a, l); }
    RestKept(a, b);
  }

  lemma StopLoopEffect(a: Shared, g: Gid, w: nat)
    requires SharedInv(a) && Locked(a, g, w) && a.workers[w].loop.Some? && a.workers[w].loop.value in a.loops
    ensures var l := a.workers[w].loop.value;
            Effect(a, a.(workers := a.workers[w := a.workers[w].(loop := None)],
                         loops := a.loops[l := a.loops[l].(stop := true)]), g)
  {
    var l := a.workers[w].loop.value;
    var b := a.(workers := a.workers[w := a.workers[w].(loop := None)],
                loops := a.loops[l := a.loops[l].(stop := true)]);
    forall c: nat ensures ChanOk(b, c) { assert ChanOk(a, c); }
    forall y: nat ensures BufOk(b, y) { assert BufOk(a, y); }
    forall k: nat ensures LoopOk(b, k) { assert LoopOk(a, k); }
    forall v: nat ensures WorkerOk(b, v) { assert WorkerOk(a, v) && WorkerOk(a, w); }
    KillsStable(a, b);
  }

  // A request in the queue of a finished loop stops being outstanding.
  lemma StandDownEffect(a: Shared, g: Gid, x: Exchange)
    requires SharedInv(a) && g.Supervisor? && g.k < a.nextSup && Awaits(a, g, x)
    requires x.lid in a.loops && a.loops[x.lid].at.Done?
    ensures var b := a.(use := StandDown(a, g, x));
            && Effect(a, b, g)
            && x.chan in b.use && (b.use[x.chan] == Held(g) || b.use[x.chan] == Answered(g, x.req, x.buf))
  {
    hide KillOk, WorkerOk;
    var b := a.(use := StandDown(a, g, x));
    assert ChanOk(a, x.chan);
    forall c: nat ensures ChanOk(b, c) { assert ChanOk(a, c); }
    forall y: nat ensures BufOk(b, y) { assert BufOk(a, y); }
    forall l: nat ensures LoopOk(b, l) { assert LoopOk(a, l); }
    RestKept(a, b);
  }

  // ---------------------------------------------------------------- loop steps

  ghost predicate LoopEffect(a: Shared, b: Shared)
  {
    SharedInv(b) && forall h: Gid :: Rely(a, b, h)
  }

  lemma TakeEffect(a: Shared, l: nat)
    requires SharedInv(a) && l in a.loops && a.loops[l].at.Waiting? && a.loops[l].queue.Some?
    ensures LoopEffect(a, LoopStep(a, l, Take))
  {
    hide KillOk, WorkerOk;
    var b := LoopStep(a, l, Take);
    var r := a.loops[l].queue.value;
    assert LoopOk(a, l) && ChanOk(a, r.chan);
    forall c: nat ensures ChanOk(b, c) { assert ChanOk(a, c); }
    forall y: nat ensures BufOk(b, y) { assert BufOk(a, y); }
    forall k: nat ensures LoopOk(b, k) { assert LoopOk(a, k); }
    RestKept(a, b);
  }

  // The loop changes state without touching a channel: it stops, or its child answers.
  lemma LoopMoveEffect(a: Shared, l: nat, at: LoopAt)
    requires SharedInv(a) && l in a.loops
    requires || (a.loops[l].at.Waiting? && a.loops[l].stop && at.Done?)
             || (a.loops[l].at.Serving? && at.Replying? && at.r == a.loops[l].at.r
                 && (at.reply.ReplyCanceled? ==>
                       a.loops[l].w in a.workers && a.workers[a.loops[l].w].mode.Epoch?))
    ensures LoopEffect(a, a.(loops := a.loops[l := a.loops[l].(at := at)]))
  {
    hide KillOk, WorkerOk;
    var b := a.(loops := a.loops[l := a.loops[l].(at := at)]);
    assert LoopOk(a, l);
    forall c: nat ensures ChanOk(b, c) { assert ChanOk(a, c); }
    forall y: nat ensures BufOk(b, y) { assert BufOk(a, y); }
    forall k: nat ensures LoopOk(b, k) { assert LoopOk(a, k); }
    RestKept(a, b);
  }

  lemma AnswerEffect(a: Shared, l: nat, r: Request, reply: Reply)
    requires SharedInv(a) && l in a.loops && a.loops[l].at == Replying(r, reply)
    ensures LoopEffect(a, Answer(a, l, r, reply))
  {
    hide KillOk, WorkerOk;
    var b := Answer(a, l, r, reply);
    assert LoopOk(a, l) && ChanOk(a, r.chan);
    forall c: nat ensures ChanOk(b, c) { assert ChanOk(a, c); }
    forall y: nat ensures BufOk(b, y) { assert BufOk(a, y); }
    forall k: nat ensures LoopOk(b, k) { assert LoopOk(a, k); }
    RestKept(a, b);
  }

  lemma LoopKeeps(a: Shared, l: nat, lc: LoopChoice)
    requires SharedInv(a)
    ensures LoopEffect(a, LoopStep(a, l, lc))
  {
    hide SharedInv, Rely;
    var b := LoopStep(a, l, lc);
    if b == a {
      LoopSame(a);
    } else {
      match a.loops[l].at
      case Waiting => if lc.Take? { TakeEffect(a, l); } else { LoopMoveEffect(a, l, Done); }
      case Serving(r) => LoopMoveEffect(a, l, Replying(r, lc.reply));
      case Replying(r, reply) => AnswerEffect(a, l, r, reply);
    }
  }

  lemma LoopSame(a: Shared)
    requires SharedInv(a)
    ensures LoopEffect(a, a)
  {
  }

  // ---------------------------------------------------------------- goroutine steps

  ghost predicate Kept(a: Shared, g: Gid, next: Next)
  {
    && Effect(a, next.sh, g)
    && PcInv(next.sh, g, next.pc)
    && (next.spawn.Some? ==>
          var sup := Supervisor(next.spawn.value.0);
          g.Caller? && SupInv(next.sh, sup, next.spawn.value.1, SupWait))
  }

  lemma BeginKeeps(sh: Shared, g: Gid, choice: Choice)
    requires SharedInv(sh) && g.Caller?
    ensures Kept(sh, g, GoStep(sh, g, Idle, choice))
  {
    hide SharedInv, Rely, Effect;
    if choice.Begin? && choice.pooled.Some? && sh.bufPool[choice.pooled.value] > 0 {
      TakeBufferEffect(sh, g, choice.pooled.value, true, sh.nextTime + 1);
    } else if choice.Begin? && choice.pooled.None? {
      TakeBufferEffect(sh, g, sh.nextBuf, false, sh.nextTime + 1);
    } else if choice.BeginClose? && choice.w in sh.workers && sh.workers[choice.w].mu.None? {
      ProcessBounded(sh, choice.w);
      WorkerEffect(sh, g, choice.w, sh.workers[choice.w].(mu := Some(g)), sh.nextPid);
    } else {
      NoEffect(sh, g);
    }
  }

  lemma CallKeeps(sh: Shared, g: Gid, c: Call, at: CallAt, choice: Choice)
    requires SharedInv(sh) && CallInv(sh, g, c, at)
    ensures Kept(sh, g, CallStep(sh, g, c, at, choice))
  {
    hide SharedInv, Rely, Effect;
    var next := CallStep(sh, g, c, at, choice);
    if next.sh == sh {
      NoEffect(sh, g);
    } else {
      match at
      case NeedLock =>
        ProcessBounded(sh, choice.w);
        WorkerEffect(sh, g, choice.w, sh.workers[choice.w].(mu := Some(g)), sh.nextPid);
      case NeedStart => WorkerEffect(sh, g, c.w, sh.workers[c.w].(process := Some(sh.nextPid)), sh.nextPid + 1);
      case Finish(out) =>
        ProcessBounded(sh, c.w);
        WorkerEffect(sh, g, c.w, sh.workers[c.w].(mu := None), sh.nextPid);
      case PutBuffer(out) => PutBufferEffect(sh, g, c.buf);
    }
  }

  lemma ProcessBounded(sh: Shared, w: nat)
    requires SharedInv(sh) && w in sh.workers
    ensures sh.workers[w].process.Some? ==> sh.workers[w].process.value < sh.nextPid
    ensures sh.workers[w].loop.Some? ==> sh.workers[w].loop.value in sh.loops
  {
    assert WorkerOk(sh, w);
  }

  lemma RelaunchKeeps(sh: Shared, g: Gid, w: nat, back: Option<Call>, why: Why, choice: Choice)
    requires SharedInv(sh) && CloseInv(sh, g, w, back, why)
    ensures Kept(sh, g, CloseStep(sh, g, w, back, why, Relaunch, choice))
  {
    hide SharedInv, Rely, Effect, WhyOk;
    var next := CloseStep(sh, g, w, back, why, Relaunch, choice);
    ProcessBounded(sh, w);
    if next.sh == sh {
      NoEffect(sh, g);
      if next.pc.Closing? { CloseAgain(sh); }
    } else if back.None? {
      WorkerEffect(sh, g, w, sh.workers[w].(mu := None), sh.nextPid);
    } else {
      WorkerEffect(sh, g, w, sh.workers[w].(process := Some(sh.nextPid)), sh.nextPid + 1);
      if next.pc.Closing? { StartedEpoch(next.sh, sh.nextPid, w); }
    }
  }

  lemma CloseAgain(sh: Shared)
    ensures WhyOk(sh, OnClose)
  {
  }

  lemma StartedEpoch(sh: Shared, pid: nat, w: nat)
    requires w in sh.workers && sh.workers[w].mode.Epoch?
    ensures WhyOk(sh, NotReady(pid, w, true))
  {
  }

  lemma CloseKeeps(sh: Shared, g: Gid, w: nat, back: Option<Call>, why: Why, at: CloseAt, choice: Choice)
    requires SharedInv(sh) && CloseInv(sh, g, w, back, why)
    ensures Kept(sh, g, CloseStep(sh, g, w, back, why, at, choice))
  {
    hide SharedInv, Rely, Effect, WhyOk, Targets;
    var next := CloseStep(sh, g, w, back, why, at, choice);
    ProcessBounded(sh, w);
    if at.Relaunch? {
      RelaunchKeeps(sh, g, w, back, why, choice);
    } else {
      if next.sh == sh {
        NoEffect(sh, g);
      } else if at.StopLoop? {
        StopLoopEffect(sh, g, w);
      } else {
        TeardownEffect(sh, g, w, why);
      }
      if next.pc.Closing? { WhySame(sh, next.sh, why); }
    }
  }

  lemma WhySame(a: Shared, b: Shared, why: Why)
    requires WhyOk(a, why)
    requires b.cancelled == a.cancelled && b.expired == a.expired && b.failed == a.failed && b.hands == a.hands
    requires forall w :: w in a.workers ==> w in b.workers && b.workers[w].mode == a.workers[w].mode
    ensures WhyOk(b, why) && WhyOk(b, OnClose)
    ensures forall pid: nat :: Targets(a, why, pid) ==> Targets(b, why, pid)
    ensures forall pid: nat :: Targets(b, OnClose, pid)
  {
  }

  lemma TeardownEffect(sh: Shared, g: Gid, w: nat, why: Why)
    requires SharedInv(sh) && Locked(sh, g, w) && sh.workers[w].process.Some? && WhyOk(sh, why)
    requires Targets(sh, why, sh.workers[w].process.value)
    ensures var b := Killed(sh, sh.workers[w].process, Teardown(why))
                       .(workers := sh.workers[w := sh.workers[w].(process := None)]);
            Effect(sh, b, g)
  {
    var mid := Killed(sh, sh.workers[w].process, Teardown(why));
    KillEffect(sh, g, sh.workers[w].process, Teardown(why));
    WorkerEffect(mid, g, w, sh.workers[w].(process := None), sh.nextPid);
    EffectTrans(sh, mid, mid.(workers := mid.workers[w := mid.workers[w].(process := None)]), g);
  }

  lemma EffectTrans(a: Shared, b: Shared, c: Shared, g: Gid)
    requires Effect(a, b, g) && Effect(b, c, g)
    ensures Effect(a, c, g)
  {
    forall h: Gid | h != g
      ensures Rely(a, c, h)
    {
      assert Rely(a, b, h) && Rely(b, c, h);
    }
  }

  // What executeHeld goes on with after an attempt.
  lemma AfterKeeps(sh: Shared, g: Gid, c: Call, phase: Phase, end: End)
    requires g.Caller? && Locked(sh, g, c.w) && Owns(sh, g, c.buf) && EndOk(sh, c, phase, end)
    requires sh.workers[c.w].process.Some?
    ensures PcInv(sh, g, AfterAttempt(c, phase, end))
  {
  }

  lemma TakeChannelKeeps(sh: Shared, g: Gid, c: Call, phase: Phase, lid: nat, pid: Option<nat>, choice: Choice)
    requires SharedInv(sh) && AttemptInv(sh, g, c, phase, AtChan(lid, pid))
    ensures Kept(sh, g, TakeChannel(sh, g, c, phase, lid, pid, choice))
  {
    var next := TakeChannel(sh, g, c, phase, lid, pid, choice);
    if choice.FromPool? && sh.chanPool[choice.chan] == 0 {
      NoEffect(sh, g);
    } else {
      var x := next.pc.att.x;
      var mid := sh;
      if phase.Warmup? {
        TakeBufferEffect(sh, g, sh.nextBuf, false, sh.nextTime + 1);
        assert BufOk(sh, c.buf);
        mid := sh.(nextBuf := sh.nextBuf + 1, nextTime := sh.nextTime + 1,
                   bufUse := sh.bufUse[sh.nextBuf := Owned(g, None)]);
        assert mid.bufPool == sh.bufPool;
      } else {
        NoEffect(sh, g);
        assert sh.bufUse[c.buf := Owned(g, None)] == sh.bufUse;
      }
      TakeChannelEffect(mid, g, x.chan, choice.FromPool?, Hand(c.w, pid, x.deadline, x.chan));
      EffectTrans(sh, mid, next.sh, g);
    }
  }

  lemma ReceiveKeeps(sh: Shared, g: Gid, c: Call, phase: Phase, at: AttAt)
    requires SharedInv(sh) && AttemptInv(sh, g, c, phase, at) && (at.AtWait? || at.AtSettle?)
    requires at.x.chan in sh.chans && sh.chans[at.x.chan].Some?
    ensures Kept(sh, g, AttemptStep(sh, g, c, phase, at, Receive))
    ensures sh.chans[at.x.chan].value.req == at.x.req
  {
    var x := at.x;
    assert ChanOk(sh, x.chan);
    assert sh.use[x.chan] == Answered(g, x.req, x.buf);
    ReceiveEffect(sh, g, x);
  }

  lemma AttemptKeeps(sh: Shared, g: Gid, c: Call, phase: Phase, at: AttAt, choice: Choice)
    requires SharedInv(sh) && AttemptInv(sh, g, c, phase, at)
    ensures Kept(sh, g, AttemptStep(sh, g, c, phase, at, choice))
  {
    hide SharedInv, Rely, Effect;
    var next := AttemptStep(sh, g, c, phase, at, choice);
    match at
    case AtContext =>
      NoEffect(sh, g);
      if ContextDone(sh, ContextOf(c, phase)) { AfterKeeps(sh, g, c, phase, End(ContextEnded, None)); }
    case AtLoop => if sh.workers[c.w].loop.Some? { NoEffect(sh, g); } else { NewLoopEffect(sh, g, c.w); }
    case AtChan(lid, pid) => TakeChannelKeeps(sh, g, c, phase, lid, pid, choice);
    case AtSend(x) =>
      if next.pc.att.AtWait? { HandOverEffect(sh, g, x, c.w); } else { NoEffect(sh, g); }
    case AtWait(x) =>
      if next.pc.Attempting? && next.pc.att.AtDrain? {
        ReceiveKeeps(sh, g, c, phase, at);
      } else if next.spawn.Some? {
        AbandonEffect(sh, g, x);
      } else {
        NoEffect(sh, g);
      }
    case AtKill(x) => KillEffect(sh, g, x.pid, AttemptDeadline(x.req));
    case AtSettle(x) =>
      if next.pc.att.AtDrain? { ReceiveKeeps(sh, g, c, phase, at); } else { NoEffect(sh, g); }
    case AtDrain(chan, end) => DrainEffect(sh, g, chan);
    case AtPut(chan, end) =>
      RecycleEffect(sh, g, chan);
      AfterKeeps(next.sh, g, c, phase, end);
  }

  lemma SuperviseKeeps(sh: Shared, g: Gid, x: Exchange, at: SupAt, choice: Choice)
    requires SharedInv(sh) && SupInv(sh, g, x, at)
    ensures Kept(sh, g, SuperviseStep(sh, g, x, at, choice))
  {
    hide Rely, Effect;
    var next := SuperviseStep(sh, g, x, at, choice);
    if next.pc.sup == at {
      NoEffect(sh, g);
    } else if next.pc.sup.SupSettle? {
      KillEffect(sh, g, x.pid, SupervisorDeadline(x.req));
    } else if at.SupPut? {
      RecycleEffect(sh, g, x.chan);
    } else if at.SupDrain? {
      DrainEffect(sh, g, x.chan);
    } else if at.SupWait? && !choice.Receive? {
      StandDownEffect(sh, g, x);
    } else {
      assert ChanOk(sh, x.chan);
      DrainEffect(sh, g, x.chan);
    }
  }

  lemma GoKeeps(sh: Shared, g: Gid, pc: Pc, choice: Choice)
    requires SharedInv(sh) && PcInv(sh, g, pc)
    ensures Kept(sh, g, GoStep(sh, g, pc, choice))
  {
    hide SharedInv, Effect, CallInv, AttemptInv, CloseInv, SupInv, CallStep, AttemptStep, CloseStep, SuperviseStep;
    match pc
    case Idle => if g.Caller? { BeginKeeps(sh, g, choice); } else { NoEffect(sh, g); }
    case Returned(_) => NoEffect(sh, g);
    case Calling(c, at) => CallKeeps(sh, g, c, at, choice);
    case Attempting(c, phase, at) => AttemptKeeps(sh, g, c, phase, at, choice);
    case Closing(w, back, why, at) => CloseKeeps(sh, g, w, back, why, at, choice);
    case Supervising(x, at) => SuperviseKeeps(sh, g, x, at, choice);
  }

  /** Every step of every goroutine, loop and of the environment keeps the invariant. */
  lemma StepKeeps(s: State, a: Action)
    requires Inv(s)
    ensures Inv(Step(s, a))
  {
    var b := Step(s, a).sh;
    match a
    case Go(g, choice) =>
      assert PcInv(s.sh, g, PcOf(s, g));
      GoKeeps(s.sh, g, PcOf(s, g), choice);
      forall h: Gid
        ensures PcInv(b, h, PcOf(Step(s, a), h))
      {
        if h != g {
          assert PcInv(s.sh, h, PcOf(s, h));
          Stable(s.sh, b, h, PcOf(s, h));
        }
      }
    case LoopGo(l, lc) =>
      LoopKeeps(s.sh, l, lc);
      forall h: Gid ensures PcInv(b, h, PcOf(Step(s, a), h)) { Stable(s.sh, b, h, PcOf(s, h)); }
    case Cancel(ctx) => EnvironmentKeeps(s, a, {ctx}, {});
    case Expire(time) => EnvironmentKeeps(s, a, {}, {time});
  }

  lemma EnvironmentKeeps(s: State, a: Action, ctx: set<nat>, times: set<nat>)
    requires Inv(s)
    requires Step(s, a) == s.(sh := s.sh.(cancelled := s.sh.cancelled + ctx, expired := s.sh.expired + times))
    ensures Inv(Step(s, a))
  {
    EnvEffect(s.sh, ctx, times, Caller(0));
    forall h: Gid
      ensures PcInv(Step(s, a).sh, h, PcOf(Step(s, a), h))
    {
      EnvEffect(s.sh, ctx, times, h);
      Stable(s.sh, Step(s, a).sh, h, PcOf(s, h));
    }
  }

  lemma {:induction false} RunKeeps(modes: seq<Mode>, run: seq<Action>)
    ensures Inv(Exec(Init(modes), run))
  {
    if run != [] {
      RunKeeps(modes, run[..|run| - 1]);
      StepKeeps(Exec(Init(modes), run[..|run| - 1]), run[|run| - 1]);
    }
  }
}
