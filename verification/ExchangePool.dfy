/**
 The process-pool exchange protocol as a machine of interleaved steps.

 Goroutines are callers of `execute` or `Close`, detached supervisors, and one
 exchange loop per worker incarnation. A step is one channel or pool operation, one
 branch of a select, one lock operation, or one effect on the child process. Timers,
 cancellations, replies of the child and the choices of select are the input of a
 step, so a run is any interleaving with any environment.
 */
module ExchangePool {
  import opened Common

  datatype Gid = Caller(n: nat) | Supervisor(k: nat)

  datatype Mode = Stdio | SharedMemory | Epoch

  datatype Reply = ReplyOk | ReplyError | ReplyCanceled

  datatype Result = Result(req: nat, reply: Reply)

  datatype Request = Request(id: nat, chan: nat, buf: nat)

  datatype LoopAt = Waiting | Serving(r: Request) | Replying(r: Request, reply: Reply) | Done

  // One incarnation of a worker's exchange loop: a request channel of capacity one.
  datatype Loop = Loop(w: nat, queue: Option<Request>, stop: bool, at: LoopAt)

  datatype Worker = Worker(mode: Mode, mu: Option<Gid>, loop: Option<nat>, process: Option<nat>)

  // History: who uses a completion channel and for what. `Out` is a request handed to
  // loop l and not answered; `Answered` one whose result waits in the channel.
  datatype Use =
    | Pooled
    | Held(g: Gid)
    | Out(g: Gid, req: nat, l: nat, queued: bool, buf: nat)
    | Answered(g: Gid, req: nat, buf: nat)

  // History: who uses a control buffer, and the channel of the request it is lent to
  // until the caller has that request's result.
  datatype BufUse = InPool | Owned(g: Gid, lent: Option<nat>) | Dropped

  // History: the worker, process, deadline and completion channel a request was made for.
  datatype Hand = Hand(w: nat, pid: Option<nat>, deadline: nat, chan: nat)

  datatype Outcome =
    | Completed
    | ContextEnded
    | Abandoned
    | NeverStarted
    | ExchangeFailed
    | ExchangeCanceled
    | TimedOut
    | StartFailed
    | RestartFailed

  // Why a worker is torn down: `Close`, the failed attempt of a call, or an epoch child that
  // was just started, or started again, and never became ready.
  datatype Why =
    | OnClose
    | OnFailure(end: End, ctx: Option<nat>, deadline: nat)
    | NotReady(pid: nat, w: nat, again: bool)

  datatype Cause = AttemptDeadline(req: nat) | SupervisorDeadline(req: nat) | Teardown(why: Why)

  datatype Kill = Kill(pid: nat, cause: Cause)

  datatype Shared = Shared(
    workers: map<nat, Worker>,
    loops: map<nat, Loop>,
    chanPool: multiset<nat>,
    chans: map<nat, Option<Result>>,
    bufPool: multiset<nat>,
    nextChan: nat, nextBuf: nat, nextLoop: nat, nextPid: nat, nextReq: nat, nextSup: nat, nextTime: nat,
    cancelled: set<nat>,
    expired: set<nat>,
    use: map<nat, Use>,
    bufUse: map<nat, BufUse>,
    hands: map<nat, Hand>,
    failed: set<nat>,
    kills: seq<Kill>)

  // A call of `execute`; w is the selected worker.
  datatype Call = Call(w: nat, ctx: Option<nat>, deadline: nat, buf: nat)

  // One exchange attempt: everything captured while the worker lock is held.
  datatype Exchange = Exchange(lid: nat, pid: Option<nat>, req: nat, chan: nat, buf: nat, deadline: nat)

  // How an attempt ended, and the request it had handed over, if any.
  datatype End = End(out: Outcome, handed: Option<nat>)

  // Which executeWithContext of executeHeld: the warm-up of a start, or a caller's attempt.
  datatype Phase = Warmup(again: bool) | Attempt(again: bool)

  datatype AttAt =
    | AtContext
    | AtLoop
    | AtChan(lid: nat, pid: Option<nat>)
    | AtSend(x: Exchange)
    | AtWait(x: Exchange)
    | AtKill(x: Exchange)
    | AtSettle(x: Exchange)
    | AtDrain(chan: nat, end: End)
    | AtPut(chan: nat, end: End)

  datatype CallAt = NeedLock | NeedStart | Recheck | Succeeded | Finish(out: Outcome) | PutBuffer(out: Outcome)

  datatype CloseAt = StopLoop | AwaitDone(lid: nat) | KillChild | Relaunch

  datatype SupAt = SupWait | SupSettle | SupDrain | SupPut | SupGone

  datatype Pc =
    | Idle
    | Returned(out: Outcome)
    | Calling(c: Call, call: CallAt)
    | Attempting(c: Call, phase: Phase, att: AttAt)
    | Closing(w: nat, back: Option<Call>, why: Why, cls: CloseAt)
    | Supervising(x: Exchange, sup: SupAt)

  // What the environment decides for one step of a goroutine.
  datatype Choice =
    | Begin(ctx: Option<nat>, pooled: Option<nat>)
    | BeginClose(w: nat)
    | Lock(w: nat)
    | Plain
    | FromPool(chan: nat)
    | Receive
    | SeeContext
    | SeeDeadline
    | SeeLoopDone
    | Fail
    | NoKernel

  datatype LoopChoice = Take | SeeStop | Respond(reply: Reply) | SendReply

  datatype Action =
    | Go(g: Gid, choice: Choice)
    | LoopGo(l: nat, lc: LoopChoice)
    | Cancel(ctx: nat)
    | Expire(time: nat)

  datatype State = State(sh: Shared, pcs: map<Gid, Pc>)

  // A step of a goroutine: the new shared state, its next pc, and a spawned supervisor.
  datatype Next = Next(sh: Shared, pc: Pc, spawn: Option<(nat, Exchange)>)

  function Same(sh: Shared, pc: Pc): Next { Next(sh, pc, None) }

  predicate ContextDone(sh: Shared, ctx: Option<nat>) { ctx.Some? && ctx.value in sh.cancelled }

  function ContextOf(c: Call, phase: Phase): Option<nat> { if phase.Warmup? then None else c.ctx }

  function PcOf(s: State, g: Gid): Pc { if g in s.pcs then s.pcs[g] else Idle }

  function Unlock(sh: Shared, w: nat): Shared
  {
    if w in sh.workers then sh.(workers := sh.workers[w := sh.workers[w].(mu := None)]) else sh
  }

  function SetUse(sh: Shared, chan: nat, content: Option<Result>, use: Use): Shared
  {
    sh.(chans := sh.chans[chan := content], use := sh.use[chan := use])
  }

  function Killed(sh: Shared, pid: Option<nat>, cause: Cause): Shared
  {
    if pid.None? then sh else sh.(kills := sh.kills + [Kill(pid.value, cause)])
  }

  // ---------------------------------------------------------------- callers

  // execute: a control buffer from the pool or a new one.
  function BeginCall(sh: Shared, g: Gid, ctx: Option<nat>, pooled: Option<nat>): Next
  {
    var deadline := sh.nextTime;
    if pooled.Some? then
      if sh.bufPool[pooled.value] == 0 then Same(sh, Idle)
      else
        Same(sh.(bufPool := sh.bufPool - multiset{pooled.value}, nextTime := sh.nextTime + 1,
                 bufUse := sh.bufUse[pooled.value := Owned(g, None)]),
             Calling(Call(0, ctx, deadline, pooled.value), NeedLock))
    else
      Same(sh.(nextBuf := sh.nextBuf + 1, nextTime := sh.nextTime + 1,
               bufUse := sh.bufUse[sh.nextBuf := Owned(g, None)]),
           Calling(Call(0, ctx, deadline, sh.nextBuf), NeedLock))
  }

  function CallStep(sh: Shared, g: Gid, c: Call, at: CallAt, choice: Choice): Next
  {
    match at
    case NeedLock =>
      // executeOnSelectedWorker: an ended context returns at once; any free worker may be taken.
      if ContextDone(sh, c.ctx) && choice.SeeContext? then Same(sh, Calling(c, PutBuffer(ContextEnded)))
      else if choice.Lock? && choice.w in sh.workers && sh.workers[choice.w].mu.None? then
        Same(sh.(workers := sh.workers[choice.w := sh.workers[choice.w].(mu := Some(g))]),
             Calling(c.(w := choice.w), NeedStart))
      else Same(sh, Calling(c, at))
    case NeedStart =>
      // startLocked: a running child is kept, else one is launched and warmed up.
      if c.w !in sh.workers || sh.workers[c.w].process.Some? then Same(sh, Attempting(c, Attempt(false), AtContext))
      else if choice.Fail? then Same(sh, Calling(c, Finish(StartFailed)))
      else if choice.NoKernel? && sh.workers[c.w].mode.Epoch? then HalfStarted(sh, c, c.w, false)
      else Same(Launched(sh, c.w), Attempting(c, Warmup(false), AtContext))
    case Recheck =>
      if ContextDone(sh, c.ctx) then Same(sh, Calling(c, Finish(ContextEnded)))
      else Same(sh, Attempting(c, Attempt(true), AtContext))
    case Succeeded => Same(sh, Calling(c, Finish(if ContextDone(sh, c.ctx) then ContextEnded else Completed)))
    case Finish(out) => Same(Unlock(sh, c.w), if out.Abandoned? then Returned(out) else Calling(c, PutBuffer(out)))
    case PutBuffer(out) =>
      Same(sh.(bufPool := sh.bufPool + multiset{c.buf}, bufUse := sh.bufUse[c.buf := InPool]), Returned(out))
  }

  function Launched(sh: Shared, w: nat): Shared
    requires w in sh.workers
  {
    sh.(workers := sh.workers[w := sh.workers[w].(process := Some(sh.nextPid))], nextPid := sh.nextPid + 1)
  }

  // waitForKernelReady gave up on the child just started: startLocked closes it again.
  function HalfStarted(sh: Shared, c: Call, w: nat, again: bool): Next
    requires w in sh.workers
  {
    Same(Launched(sh, w), Closing(w, Some(c), NotReady(sh.nextPid, w, again), StopLoop))
  }

  // What executeHeld does when one of its attempts has returned; a success still looks at the context.
  function AfterAttempt(c: Call, phase: Phase, end: End): Pc
  {
    match phase
    case Warmup(again) => if again then Calling(c, Recheck) else Attempting(c, Attempt(false), AtContext)
    case Attempt(again) =>
      if end.out.Completed? then Calling(c, Succeeded)
      else if again || end.out.Abandoned? then Calling(c, Finish(end.out))
      else Closing(c.w, Some(c), OnFailure(end, c.ctx, c.deadline), StopLoop)
  }

  // executeWithContext
  function AttemptStep(sh: Shared, g: Gid, c: Call, phase: Phase, at: AttAt, choice: Choice): Next
  {
    var stay := Same(sh, Attempting(c, phase, at));
    match at
    case AtContext =>
      if ContextDone(sh, ContextOf(c, phase)) then Same(sh, AfterAttempt(c, phase, End(ContextEnded, None)))
      else Same(sh, Attempting(c, phase, AtLoop))
    case AtLoop =>
      if c.w !in sh.workers then stay
      else
        var worker := sh.workers[c.w];
        if worker.loop.Some? then Same(sh, Attempting(c, phase, AtChan(worker.loop.value, worker.process)))
        else
          Same(sh.(loops := sh.loops[sh.nextLoop := Loop(c.w, None, false, Waiting)],
                   workers := sh.workers[c.w := worker.(loop := Some(sh.nextLoop))],
                   nextLoop := sh.nextLoop + 1),
               Attempting(c, phase, AtChan(sh.nextLoop, worker.process)))
    case AtChan(lid, pid) => TakeChannel(sh, g, c, phase, lid, pid, choice)
    case AtSend(x) =>
      if choice.Plain? && x.lid in sh.loops && sh.loops[x.lid].queue.None? then
        Same(HandOver(sh, g, x), Attempting(c, phase, AtWait(x)))
      else if choice.SeeContext? && ContextDone(sh, ContextOf(c, phase)) then
        Same(sh, Attempting(c, phase, AtDrain(x.chan, End(Abandoned, None))))
      else if choice.SeeDeadline? && x.deadline in sh.expired then
        Same(sh, Attempting(c, phase, AtDrain(x.chan, End(NeverStarted, None))))
      else stay
    case AtWait(x) =>
      if choice.Receive? && x.chan in sh.chans && sh.chans[x.chan].Some? then
        Same(Received(sh, g, x),
             Attempting(c, phase, AtDrain(x.chan, End(OutcomeOf(sh.chans[x.chan].value.reply), Some(x.req)))))
      else if choice.SeeContext? && ContextDone(sh, ContextOf(c, phase)) then
        Next(Abandon(sh, x), Calling(c, Finish(Abandoned)), Some((sh.nextSup, x)))
      else if choice.SeeDeadline? && x.deadline in sh.expired then Same(sh, Attempting(c, phase, AtKill(x)))
      else stay
    case AtKill(x) => Same(Killed(sh, x.pid, AttemptDeadline(x.req)), Attempting(c, phase, AtSettle(x)))
    case AtSettle(x) =>
      if x.chan in sh.chans && sh.chans[x.chan].Some? then
        Same(Received(sh, g, x), Attempting(c, phase, AtDrain(x.chan, End(TimedOut, Some(x.req)))))
      else stay
    case AtDrain(chan, end) => Same(Drained(sh, g, chan), Attempting(c, phase, AtPut(chan, end)))
    case AtPut(chan, end) => Same(Recycled(sh, chan), AfterAttempt(c, phase, end))
  }

  // err := <-result, by the caller
  function Received(sh: Shared, g: Gid, x: Exchange): Shared
  {
    SetUse(sh, x.chan, None, Held(g)).(bufUse := sh.bufUse[x.buf := Owned(g, None)])
  }

  function OutcomeOf(reply: Reply): Outcome
  {
    match reply case ReplyOk => Completed case ReplyError => ExchangeFailed case ReplyCanceled => ExchangeCanceled
  }

  // exchangeResultChan, and the request; a warm-up brings its own buffer and deadline.
  function TakeChannel(sh: Shared, g: Gid, c: Call, phase: Phase, lid: nat, pid: Option<nat>, choice: Choice): Next
  {
    var warm := phase.Warmup?;
    var buf := if warm then sh.nextBuf else c.buf;
    var deadline := if warm then sh.nextTime else c.deadline;
    var chan := if choice.FromPool? then choice.chan else sh.nextChan;
    var base := sh.(nextReq := sh.nextReq + 1,
                    nextBuf := if warm then sh.nextBuf + 1 else sh.nextBuf,
                    nextTime := if warm then sh.nextTime + 1 else sh.nextTime,
                    bufUse := sh.bufUse[buf := Owned(g, None)],
                    hands := sh.hands[sh.nextReq := Hand(c.w, pid, deadline, chan)]);
    if choice.FromPool? then
      if sh.chanPool[chan] == 0 then Same(sh, Attempting(c, phase, AtChan(lid, pid)))
      else
        Same(base.(chanPool := sh.chanPool - multiset{chan}, use := sh.use[chan := Held(g)]),
             Attempting(c, phase, AtSend(Exchange(lid, pid, sh.nextReq, chan, buf, deadline))))
    else
      Same(SetUse(base.(nextChan := sh.nextChan + 1), chan, None, Held(g)),
           Attempting(c, phase, AtSend(Exchange(lid, pid, sh.nextReq, chan, buf, deadline))))
  }

  // requests <- request
  function HandOver(sh: Shared, g: Gid, x: Exchange): Shared
    requires x.lid in sh.loops
  {
    var loop := sh.loops[x.lid];
    sh.(loops := sh.loops[x.lid := loop.(queue := Some(Request(x.req, x.chan, x.buf)))],
        use := sh.use[x.chan := Out(g, x.req, x.lid, true, x.buf)],
        bufUse := sh.bufUse[x.buf := Owned(g, Some(x.chan))])
  }

  // The caller leaves: a supervisor takes over the channel and the buffer is let go.
  function Abandon(sh: Shared, x: Exchange): Shared
  {
    var sup := Supervisor(sh.nextSup);
    var use := if x.chan in sh.use && sh.use[x.chan].Out? then
                 Out(sup, sh.use[x.chan].req, sh.use[x.chan].l, sh.use[x.chan].queued, sh.use[x.chan].buf)
               else Answered(sup, x.req, x.buf);
    sh.(use := sh.use[x.chan := use], bufUse := sh.bufUse[x.buf := Dropped], nextSup := sh.nextSup + 1)
  }

  // recycleResultChan: drain, then put.
  function Drained(sh: Shared, g: Gid, chan: nat): Shared { SetUse(sh, chan, None, Held(g)) }

  function Recycled(sh: Shared, chan: nat): Shared
  {
    sh.(chanPool := sh.chanPool + multiset{chan}, use := sh.use[chan := Pooled])
  }

  // closeLocked, and restartLocked when it follows a failed attempt.
  function CloseStep(sh: Shared, g: Gid, w: nat, c: Option<Call>, why: Why, at: CloseAt, choice: Choice): Next
  {
    if w !in sh.workers then Same(sh, Closing(w, c, why, at))
    else
      var worker := sh.workers[w];
      match at
      case StopLoop =>
        if worker.loop.None? || worker.loop.value !in sh.loops then Same(sh, Closing(w, c, why, KillChild))
        else
          var lid := worker.loop.value;
          Same(sh.(workers := sh.workers[w := worker.(loop := None)],
                   loops := sh.loops[lid := sh.loops[lid].(stop := true)]),
               Closing(w, c, why, AwaitDone(lid)))
      case AwaitDone(lid) =>
        if lid in sh.loops && sh.loops[lid].at.Done? then Same(sh, Closing(w, c, why, KillChild))
        else Same(sh, Closing(w, c, why, at))
      case KillChild =>
        if worker.process.None? then Same(sh, Closing(w, c, why, Relaunch))
        else if choice.Fail? then Same(sh, CloseEnds(w, c, why))
        else
          Same(Killed(sh, worker.process, Teardown(why))
                 .(workers := sh.workers[w := worker.(process := None)]),
               Closing(w, c, why, Relaunch))
      case Relaunch =>
        if c.None? then Same(Unlock(sh, w), Returned(Completed))
        else if why.NotReady? then Same(sh, CloseEnds(w, c, why))
        else if choice.Fail? then Same(sh, CloseEnds(w, c, why))
        else if worker.process.Some? then Same(sh, Calling(c.value, Recheck))
        else if choice.NoKernel? && worker.mode.Epoch? then HalfStarted(sh, c.value, w, true)
        else Same(Launched(sh, w), Attempting(c.value, Warmup(true), AtContext))
  }

  // A failed kill or launch: `Close` gives the error back, a call finishes with it. It is a failed
  // start when the child was the call's first.
  function CloseEnds(w: nat, c: Option<Call>, why: Why): Pc
  {
    if c.Some? then Calling(c.value, Finish(if why.NotReady? && !why.again then StartFailed else RestartFailed))
    else Closing(w, None, OnClose, Relaunch)
  }

  // superviseAbandoned
  function SuperviseStep(sh: Shared, g: Gid, x: Exchange, at: SupAt, choice: Choice): Next
  {
    var stay := Same(sh, Supervising(x, at));
    var ready := x.chan in sh.chans && sh.chans[x.chan].Some?;
    match at
    case SupWait =>
      if choice.Receive? && ready then
        Same(SetUse(sh, x.chan, None, Held(g)), Supervising(x, SupDrain))
      else if choice.SeeLoopDone? && x.lid in sh.loops && sh.loops[x.lid].at.Done? then
        Same(sh.(use := StandDown(sh, g, x)), Supervising(x, SupDrain))
      else if choice.SeeDeadline? && x.deadline in sh.expired then
        Same(Killed(sh, x.pid, SupervisorDeadline(x.req)), Supervising(x, SupSettle))
      else stay
    case SupSettle =>
      if ready then Same(SetUse(sh, x.chan, None, Held(g)), Supervising(x, SupDrain)) else stay
    case SupDrain => Same(Drained(sh, g, x.chan), Supervising(x, SupPut))
    case SupPut => Same(Recycled(sh, x.chan), Supervising(x, SupGone))
    case SupGone => stay
  }

  // A request left in the queue of a finished loop is no longer outstanding.
  function StandDown(sh: Shared, g: Gid, x: Exchange): map<nat, Use>
  {
    if x.chan in sh.use && sh.use[x.chan].Out? then sh.use[x.chan := Held(g)] else sh.use
  }

  // ---------------------------------------------------------------- loops

  // runExchangeLoop
  function LoopStep(sh: Shared, l: nat, lc: LoopChoice): Shared
  {
    if l !in sh.loops then sh
    else
      var loop := sh.loops[l];
      match loop.at
      case Waiting =>
        if lc.Take? && loop.queue.Some? then
          var r := loop.queue.value;
          sh.(loops := sh.loops[l := loop.(queue := None, at := Serving(r))],
              use := if r.chan in sh.use && sh.use[r.chan].Out? then sh.use[r.chan := sh.use[r.chan].(queued := false)]
                     else sh.use)
        else if lc.SeeStop? && loop.stop then sh.(loops := sh.loops[l := loop.(at := Done)])
        else sh
      case Serving(r) =>
        // Only the epoch exchange watches its context.
        if lc.Respond? && (lc.reply.ReplyCanceled? ==> loop.w in sh.workers && sh.workers[loop.w].mode.Epoch?) then
          sh.(loops := sh.loops[l := loop.(at := Replying(r, lc.reply))])
        else sh
      case Replying(r, reply) =>
        if lc.SendReply? && r.chan in sh.chans && sh.chans[r.chan].None? then Answer(sh, l, r, reply) else sh
      case Done => sh
  }

  // request.results <- reply
  function Answer(sh: Shared, l: nat, r: Request, reply: Reply): Shared
    requires l in sh.loops
  {
    var g := if r.chan in sh.use && sh.use[r.chan].Out? then sh.use[r.chan].g else Caller(0);
    SetUse(sh, r.chan, Some(Result(r.id, reply)), Answered(g, r.id, r.buf))
      .(loops := sh.loops[l := sh.loops[l].(at := Waiting)],
        failed := if reply.ReplyError? then sh.failed + {r.id} else sh.failed)
  }

  // ---------------------------------------------------------------- runs

  function GoStep(sh: Shared, g: Gid, pc: Pc, choice: Choice): Next
  {
    match pc
    case Idle =>
      if g.Caller? && choice.Begin? then BeginCall(sh, g, choice.ctx, choice.pooled)
      else if g.Caller? && choice.BeginClose? && choice.w in sh.workers && sh.workers[choice.w].mu.None? then
        Same(sh.(workers := sh.workers[choice.w := sh.workers[choice.w].(mu := Some(g))]),
             Closing(choice.w, None, OnClose, StopLoop))
      else Same(sh, pc)
    case Returned(_) => Same(sh, Idle)
    case Calling(c, at) => CallStep(sh, g, c, at, choice)
    case Attempting(c, phase, at) => AttemptStep(sh, g, c, phase, at, choice)
    case Closing(w, c, why, at) => CloseStep(sh, g, w, c, why, at, choice)
    case Supervising(x, at) => SuperviseStep(sh, g, x, at, choice)
  }

  function Step(s: State, a: Action): State
  {
    match a
    case Go(g, choice) =>
      var next := GoStep(s.sh, g, PcOf(s, g), choice);
      var pcs := s.pcs[g := next.pc];
      State(next.sh,
            if next.spawn.None? then pcs
            else pcs[Supervisor(next.spawn.value.0) := Supervising(next.spawn.value.1, SupWait)])
    case LoopGo(l, lc) => s.(sh := LoopStep(s.sh, l, lc))
    case Cancel(ctx) => s.(sh := s.sh.(cancelled := s.sh.cancelled + {ctx}))
    case Expire(time) => s.(sh := s.sh.(expired := s.sh.expired + {time}))
  }

  function Exec(s: State, run: seq<Action>): State
  {
    if run == [] then s else Step(Exec(s, run[..|run| - 1]), run[|run| - 1])
  }

  // A pool of workers with no child running, no loop and empty pools.
  function Init(modes: seq<Mode>): State
  {
    State(
      Shared(map w: nat | w < |modes| :: Worker(modes[w], None, None, None),
             map[], multiset{}, map[], multiset{}, 0, 0, 0, 0, 0, 0, 0, {}, {}, map[], map[], map[], {}, []),
      map[])
  }
}
