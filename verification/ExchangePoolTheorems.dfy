/**
 What the exchange protocol promises over every interleaving of callers, loops,
 supervisors, restarts and timers.
 */
module ExchangePoolTheorems {
  import opened Common
  import opened ExchangePool
  import opened ExchangePoolProofs

  function After(modes: seq<Mode>, run: seq<Action>): Shared { Exec(Init(modes), run).sh }

  // A request that a running loop has queued or in service.
  predicate ToBeServiced(sh: Shared, l: nat, r: Request)
  {
    l in sh.loops && ((sh.loops[l].queue == Some(r) && !sh.loops[l].at.Done?) || InService(sh.loops[l], r))
  }

  // The exchange whose result a goroutine is waiting for.
  predicate WaitsFor(pc: Pc, x: Exchange)
  {
    || (pc.Attempting? && (pc.att.AtWait? || pc.att.AtKill? || pc.att.AtSettle?) && pc.att.x == x)
    || (pc.Supervising? && (pc.sup.SupWait? || pc.sup.SupSettle?) && pc.x == x)
  }

  lemma WaitsAwaits(modes: seq<Mode>, run: seq<Action>, g: Gid, x: Exchange)
    requires WaitsFor(PcOf(Exec(Init(modes), run), g), x)
    ensures Awaits(After(modes, run), g, x) && SharedInv(After(modes, run))
  {
    RunKeeps(modes, run);
    assert PcInv(After(modes, run), g, PcOf(Exec(Init(modes), run), g));
  }

  /**
   A completion channel in the pool is there once and empty, no request still to be
   serviced answers into it, and no goroutine waits on it.
   */
  lemma PooledChannelIsQuiet(modes: seq<Mode>, run: seq<Action>, c: nat)
    requires After(modes, run).chanPool[c] > 0
    ensures var sh := After(modes, run);
            && sh.chanPool[c] == 1
            && c in sh.chans && sh.chans[c].None?
            && (forall l, r :: ToBeServiced(sh, l, r) ==> r.chan != c)
            && (forall g, x :: WaitsFor(PcOf(Exec(Init(modes), run), g), x) ==> x.chan != c)
  {
    RunKeeps(modes, run);
    var sh := After(modes, run);
    assert ChanOk(sh, c);
    forall l, r | ToBeServiced(sh, l, r)
      ensures r.chan != c
    {
      assert LoopOk(sh, l);
    }
    forall g, x | WaitsFor(PcOf(Exec(Init(modes), run), g), x)
      ensures x.chan != c
    {
      WaitsAwaits(modes, run, g, x);
    }
  }

  /**
   Whatever a caller or supervisor finds in the channel it waits on is the result of its
   own request, and no two of them wait on one channel.
   */
  lemma NobodyGetsAnothersResult(modes: seq<Mode>, run: seq<Action>, g: Gid, x: Exchange)
    requires WaitsFor(PcOf(Exec(Init(modes), run), g), x)
    ensures var sh := After(modes, run);
            && x.chan in sh.chans
            && (sh.chans[x.chan].Some? ==> sh.chans[x.chan].value.req == x.req)
            && (forall h, y :: h != g && WaitsFor(PcOf(Exec(Init(modes), run), h), y) ==> y.chan != x.chan)
  {
    WaitsAwaits(modes, run, g, x);
    assert ChanOk(After(modes, run), x.chan);
    forall h, y | h != g && WaitsFor(PcOf(Exec(Init(modes), run), h), y)
      ensures y.chan != x.chan
    {
      WaitsAwaits(modes, run, h, y);
    }
  }

  /** A control buffer in the pool is there once and no request still to be serviced refers to it. */
  lemma PooledBufferIsQuiet(modes: seq<Mode>, run: seq<Action>, b: nat)
    requires After(modes, run).bufPool[b] > 0
    ensures var sh := After(modes, run);
            sh.bufPool[b] == 1 && forall l, r :: ToBeServiced(sh, l, r) ==> r.buf != b
  {
    RunKeeps(modes, run);
    var sh := After(modes, run);
    assert BufOk(sh, b);
    forall l, r | ToBeServiced(sh, l, r)
      ensures r.buf != b
    {
      assert LoopOk(sh, l);
      assert ChanOk(sh, r.chan);
    }
  }

  /**
   While a caller waits, its worker's loop is running and has the caller's request queued
   or in service, or the answer is in the caller's channel: only a supervisor can be left
   with a request that nobody will answer.
   */
  lemma WaitingCallerIsServed(modes: seq<Mode>, run: seq<Action>, g: Gid, x: Exchange)
    requires g.Caller? && WaitsFor(PcOf(Exec(Init(modes), run), g), x)
    ensures var sh := After(modes, run);
            && x.lid in sh.loops && !sh.loops[x.lid].stop && !sh.loops[x.lid].at.Done?
            && x.chan in sh.chans
            && (sh.chans[x.chan].Some? || ToBeServiced(sh, x.lid, Request(x.req, x.chan, x.buf)))
  {
    WaitsAwaits(modes, run, g, x);
    var sh, pc := After(modes, run), PcOf(Exec(Init(modes), run), g);
    RunKeeps(modes, run);
    assert PcInv(sh, g, pc);
    assert WorkerOk(sh, pc.c.w) && ChanOk(sh, x.chan);
  }

  // Why a process was killed, read off the recorded cause.
  predicate Explained(sh: Shared, kill: Kill)
  {
    match kill.cause
    case AttemptDeadline(req) =>
      req in sh.hands && sh.hands[req].pid == Some(kill.pid) && sh.hands[req].deadline in sh.expired
    case SupervisorDeadline(req) =>
      req in sh.hands && sh.hands[req].pid == Some(kill.pid) && sh.hands[req].deadline in sh.expired
    case Teardown(OnClose) => true
    case Teardown(NotReady(pid, w, _)) => kill.pid == pid && w in sh.workers && sh.workers[w].mode.Epoch?
    case Teardown(OnFailure(end, ctx, deadline)) =>
      if end.handed.Some? then
        var req := end.handed.value;
        && req in sh.hands && sh.hands[req].pid == Some(kill.pid) && sh.hands[req].deadline == deadline
        && (|| (end.out.ExchangeFailed? && req in sh.failed)
            || (end.out.TimedOut? && deadline in sh.expired)
            || (end.out.ExchangeCanceled? && EpochRequest(sh, req)))
      else
        || (end.out.NeverStarted? && deadline in sh.expired)
        || (end.out.ContextEnded? && ctx.Some? && ctx.value in sh.cancelled)
  }

  /**
   Every kill is explained. A deadline kill hits the process captured when the request was
   made, after that request's deadline. A teardown follows `Close`, a failed attempt, or an
   epoch child that never became ready and is killed by the start that launched it. If the
   attempt had handed its request over, the teardown hits the process that had the request,
   and the exchange answered with an error, its deadline had passed, or it ran on a
   context-watching epoch worker. The ended context of a caller explains a teardown only when
   nothing was handed over.
   */
  lemma EveryKillIsExplained(modes: seq<Mode>, run: seq<Action>, k: nat)
    requires k < |After(modes, run).kills|
    ensures Explained(After(modes, run), After(modes, run).kills[k])
  {
    RunKeeps(modes, run);
    KillExplained(After(modes, run), k);
  }

  lemma KillExplained(sh: Shared, k: nat)
    requires SharedInv(sh) && k < |sh.kills|
    ensures Explained(sh, sh.kills[k])
  {
    assert KillOk(sh, sh.kills[k]);
  }

  /** Workers and their modes are those of the pool, whatever has happened. */
  lemma {:induction false} ModesFixed(modes: seq<Mode>, run: seq<Action>)
    ensures var sh := After(modes, run);
            forall w: nat :: w in sh.workers <==> w < |modes|
    ensures var sh := After(modes, run);
            forall w: nat :: w in sh.workers ==> w < |modes| && sh.workers[w].mode == modes[w]
  {
    if run != [] {
      var before, a := run[..|run| - 1], run[|run| - 1];
      ModesFixed(modes, before);
      RunKeeps(modes, before);
      StepGrows(Exec(Init(modes), before), a);
    }
  }

  lemma StepGrows(s: State, a: Action)
    requires Inv(s)
    ensures Grows(s.sh, Step(s, a).sh)
  {
    hide GoStep, LoopStep, SharedInv, Grows;
    match a
    case Go(g, choice) =>
      assert PcInv(s.sh, g, PcOf(s, g));
      GoKeeps(s.sh, g, PcOf(s, g), choice);
      var h := if g == Caller(0) then Caller(1) else Caller(0);
      assert Rely(s.sh, Step(s, a).sh, h);
    case LoopGo(l, lc) =>
      LoopKeeps(s.sh, l, lc);
      assert Rely(s.sh, Step(s, a).sh, Caller(0));
    case Cancel(_) => EnvGrows(s.sh, Step(s, a).sh);
    case Expire(_) => EnvGrows(s.sh, Step(s, a).sh);
  }

  lemma EnvGrows(a: Shared, b: Shared)
    requires b == a.(cancelled := b.cancelled, expired := b.expired)
    requires a.cancelled <= b.cancelled && a.expired <= b.expired
    ensures Grows(a, b)
  {
  }

  predicate NoEpoch(modes: seq<Mode>) { forall i :: 0 <= i < |modes| ==> !modes[i].Epoch? }

  /**
   In a pool of stdio and shared-memory workers, with no deadline passed and no exchange
   failed, callers may leave as they like: any kill is the work of `Close`, or of a context
   that ended before its call handed anything to a loop.
   */
  lemma CancellationAloneNeverKills(modes: seq<Mode>, run: seq<Action>, k: nat)
    requires NoEpoch(modes) && k < |After(modes, run).kills|
    requires After(modes, run).expired == {} && After(modes, run).failed == {}
    ensures var sh, cause := After(modes, run), After(modes, run).kills[k].cause;
            || cause == Teardown(OnClose)
            || (&& cause.Teardown? && cause.why.OnFailure? && cause.why.end == End(ContextEnded, None)
                && ContextDone(sh, cause.why.ctx))
  {
    hide After;
    EveryKillIsExplained(modes, run, k);
    ModesFixed(modes, run);
  }

  /**
   The exact guard of that one path. In such a pool, with nothing expired and nothing failed,
   a step of a caller's attempt turns to tearing its worker down exactly when the call's first
   attempt finds its context already ended.
   */
  lemma TeardownExactlyAtTheFirstCheck(modes: seq<Mode>, run: seq<Action>, g: Gid, choice: Choice)
    requires NoEpoch(modes) && After(modes, run).expired == {} && After(modes, run).failed == {}
    requires PcOf(Exec(Init(modes), run), g).Attempting?
    ensures var sh, pc := After(modes, run), PcOf(Exec(Init(modes), run), g);
            GoStep(sh, g, pc, choice).pc.Closing? <==>
            pc.phase == Attempt(false) && pc.att.AtContext? && ContextDone(sh, pc.c.ctx)
  {
    hide After;
    var sh, pc := After(modes, run), PcOf(Exec(Init(modes), run), g);
    RunKeeps(modes, run);
    ModesFixed(modes, run);
    AttemptIs(modes, run, g);
    NoCauseNoTeardown(sh, g, pc, choice);
  }

  lemma AttemptIs(modes: seq<Mode>, run: seq<Action>, g: Gid)
    requires PcOf(Exec(Init(modes), run), g).Attempting?
    ensures var pc := PcOf(Exec(Init(modes), run), g);
            AttemptInv(After(modes, run), g, pc.c, pc.phase, pc.att)
  {
    RunKeeps(modes, run);
    assert PcInv(After(modes, run), g, PcOf(Exec(Init(modes), run), g));
  }

  lemma NoCauseNoTeardown(sh: Shared, g: Gid, pc: Pc, choice: Choice)
    requires pc.Attempting? && AttemptInv(sh, g, pc.c, pc.phase, pc.att)
    requires sh.expired == {} && sh.failed == {} && forall w :: w in sh.workers ==> !sh.workers[w].mode.Epoch?
    ensures GoStep(sh, g, pc, choice).pc.Closing? <==>
            pc.phase == Attempt(false) && pc.att.AtContext? && ContextDone(sh, pc.c.ctx)
  {
  }

  // ---------------------------------------------------------------- the early context path

  function At(run: seq<Action>): State { Exec(Init([Stdio]), run) }

  lemma Do(run: seq<Action>, a: Action) returns (next: seq<Action>)
    ensures At(next) == Step(At(run), a)
  {
    next := run + [a];
    assert next[..|run|] == run;
  }

  // Caller 0 takes a step that spawns nothing.
  lemma Next(run: seq<Action>, choice: Choice, sh: Shared, pc: Pc) returns (next: seq<Action>)
    requires GoStep(At(run).sh, Caller(0), PcOf(At(run), Caller(0)), choice) == Same(sh, pc)
    ensures At(next).sh == sh && PcOf(At(next), Caller(0)) == pc
    ensures PcOf(At(next), Caller(1)) == PcOf(At(run), Caller(1))
  {
    next := Do(run, Go(Caller(0), choice));
  }

  lemma LoopNext(run: seq<Action>, lc: LoopChoice, sh: Shared) returns (next: seq<Action>)
    requires LoopStep(At(run).sh, 0, lc) == sh
    ensures At(next).sh == sh && PcOf(At(next), Caller(0)) == PcOf(At(run), Caller(0))
    ensures PcOf(At(next), Caller(1)) == PcOf(At(run), Caller(1))
  {
    next := Do(run, LoopGo(0, lc));
  }

  function TheCall(): Call { Call(0, Some(7), 0, 0) }

  function Child(mu: Option<Gid>, loop: Option<nat>, process: Option<nat>): map<nat, Worker>
  {
    map[0 := Worker(Stdio, mu, loop, process)]
  }

  // Nothing has expired, failed or been killed, and the tables are as given.
  ghost predicate Calm(run: seq<Action>, workers: map<nat, Worker>, loops: map<nat, Loop>, pc: Pc)
  {
    var sh := At(run).sh;
    && sh.workers == workers && sh.loops == loops
    && sh.kills == [] && sh.expired == {} && sh.failed == {}
    && PcOf(At(run), Caller(0)) == pc && PcOf(At(run), Caller(1)) == Idle
  }

  lemma AtStart() returns (sh: Shared)
    ensures At([]).sh == sh == Init([Stdio]).sh && PcOf(At([]), Caller(0)) == PcOf(At([]), Caller(1)) == Idle
    ensures sh.workers == Child(None, None, None)
  {
    sh := At([]).sh;
  }

  lemma Launch() returns (run: seq<Action>)
    ensures Calm(run, Child(Some(Caller(0)), None, Some(0)), map[], Attempting(TheCall(), Warmup(false), AtContext))
    ensures At(run).sh.nextLoop == 0 && At(run).sh.cancelled == {}
  {
    hide At;
    var c := TheCall();
    var s := AtStart();
    s := s.(nextBuf := 1, nextTime := 1, bufUse := map[0 := Owned(Caller(0), None)]);
    run := Next([], Begin(Some(7), None), s, Calling(c, NeedLock));
    s := s.(workers := Child(Some(Caller(0)), None, None));
    run := Next(run, Lock(0), s, Calling(c, NeedStart));
    s := s.(workers := Child(Some(Caller(0)), None, Some(0)), nextPid := 1);
    run := Next(run, Plain, s, Attempting(c, Warmup(false), AtContext));
  }

  // The warm-up request is in the queue of the new loop.
  lemma WarmupSent(run: seq<Action>) returns (next: seq<Action>, x: Exchange)
    requires Calm(run, Child(Some(Caller(0)), None, Some(0)), map[], Attempting(TheCall(), Warmup(false), AtContext))
    requires At(run).sh.nextLoop == 0
    ensures Calm(next, Child(Some(Caller(0)), Some(0), Some(0)),
                 map[0 := Loop(0, Some(Request(x.req, x.chan, x.buf)), false, Waiting)],
                 Attempting(TheCall(), Warmup(false), AtWait(x)))
    ensures x.chan in At(next).sh.chans && At(next).sh.chans[x.chan].None?
    ensures At(next).sh.cancelled == At(run).sh.cancelled
  {
    hide At;
    var c, s := TheCall(), At(run).sh;
    next := Next(run, Plain, s, Attempting(c, Warmup(false), AtLoop));
    s := s.(loops := map[0 := Loop(0, None, false, Waiting)],
            workers := Child(Some(Caller(0)), Some(0), Some(0)), nextLoop := 1);
    next := Next(next, Plain, s, Attempting(c, Warmup(false), AtChan(0, Some(0))));
    x := Exchange(0, Some(0), s.nextReq, s.nextChan, s.nextBuf, s.nextTime);
    var t := TakeChannel(s, Caller(0), c, Warmup(false), 0, Some(0), Plain);
    next := Next(next, Plain, t.sh, Attempting(c, Warmup(false), AtSend(x)));
    next := HandsOver(next, x);
  }

  lemma HandsOver(run: seq<Action>, x: Exchange) returns (next: seq<Action>)
    requires Calm(run, Child(Some(Caller(0)), Some(0), Some(0)), map[0 := Loop(0, None, false, Waiting)],
                  Attempting(TheCall(), Warmup(false), AtSend(x)))
    requires x.lid == 0 && x.chan in At(run).sh.chans && At(run).sh.chans[x.chan].None?
    ensures Calm(next, Child(Some(Caller(0)), Some(0), Some(0)),
                 map[0 := Loop(0, Some(Request(x.req, x.chan, x.buf)), false, Waiting)],
                 Attempting(TheCall(), Warmup(false), AtWait(x)))
    ensures At(next).sh.chans == At(run).sh.chans && At(next).sh.cancelled == At(run).sh.cancelled
  {
    hide At;
    var s := HandOver(At(run).sh, Caller(0), x);
    next := Next(run, Plain, s, Attempting(TheCall(), Warmup(false), AtWait(x)));
  }

  lemma Answering(run: seq<Action>, x: Exchange) returns (next: seq<Action>)
    requires Calm(run, Child(Some(Caller(0)), Some(0), Some(0)),
                  map[0 := Loop(0, Some(Request(x.req, x.chan, x.buf)), false, Waiting)],
                  Attempting(TheCall(), Warmup(false), AtWait(x)))
    requires x.chan in At(run).sh.chans && At(run).sh.chans[x.chan].None?
    ensures Calm(next, Child(Some(Caller(0)), Some(0), Some(0)), map[0 := Loop(0, None, false, Waiting)],
                 Attempting(TheCall(), Warmup(false), AtWait(x)))
    ensures x.chan in At(next).sh.chans && At(next).sh.chans[x.chan] == Some(Result(x.req, ReplyOk))
    ensures At(next).sh.cancelled == At(run).sh.cancelled
  {
    hide At;
    var r, s := Request(x.req, x.chan, x.buf), At(run).sh;
    s := LoopStep(s, 0, Take);
    next := LoopNext(run, Take, s);
    assert s.loops == map[0 := Loop(0, None, false, Serving(r))];
    s := s.(loops := map[0 := Loop(0, None, false, Replying(r, ReplyOk))]);
    next := LoopNext(next, Respond(ReplyOk), s);
    s := Answer(s, 0, r, ReplyOk);
    next := LoopNext(next, SendReply, s);
    assert s.loops == map[0 := Loop(0, None, false, Waiting)];
  }

  // The child answers the warm-up and the caller goes on to its own attempt.
  lemma WarmupDone(run: seq<Action>, x: Exchange) returns (next: seq<Action>)
    requires Calm(run, Child(Some(Caller(0)), Some(0), Some(0)),
                  map[0 := Loop(0, Some(Request(x.req, x.chan, x.buf)), false, Waiting)],
                  Attempting(TheCall(), Warmup(false), AtWait(x)))
    requires x.chan in At(run).sh.chans && At(run).sh.chans[x.chan].None?
    ensures Calm(next, Child(Some(Caller(0)), Some(0), Some(0)), map[0 := Loop(0, None, false, Waiting)],
                 Attempting(TheCall(), Attempt(false), AtContext))
    ensures At(next).sh.cancelled == At(run).sh.cancelled
  {
    hide At;
    var c, s := TheCall(), At(run).sh;
    next := Answering(run, x);
    s := At(next).sh;
    s := Received(s, Caller(0), x);
    next := Next(next, Receive, s, Attempting(c, Warmup(false), AtDrain(x.chan, End(Completed, Some(x.req)))));
    s := Drained(s, Caller(0), x.chan);
    next := Next(next, Plain, s, Attempting(c, Warmup(false), AtPut(x.chan, End(Completed, Some(x.req)))));
    s := Recycled(s, x.chan);
    next := Next(next, Plain, s, Attempting(c, Attempt(false), AtContext));
  }

  /**
   A context that ends after the worker lock is taken and before the first attempt checks
   it is treated as a failed exchange: the healthy child is killed with nothing handed over.
   */
  lemma EarlyCancellationRestartsTheWorker() returns (run: seq<Action>)
    ensures var sh := After([Stdio], run);
            && sh.expired == {} && sh.failed == {}
            && |sh.kills| == 1
            && sh.kills[0] == Kill(0, Teardown(OnFailure(End(ContextEnded, None), Some(7), 0)))
  {
    var x: Exchange;
    run := Launch();
    run, x := WarmupSent(run);
    run := WarmupDone(run, x);
    run := CancelledTeardown(run);
  }

  lemma CancelledTeardown(run: seq<Action>) returns (next: seq<Action>)
    requires Calm(run, Child(Some(Caller(0)), Some(0), Some(0)), map[0 := Loop(0, None, false, Waiting)],
                  Attempting(TheCall(), Attempt(false), AtContext))
    ensures var sh := At(next).sh;
            && sh.expired == {} && sh.failed == {}
            && sh.kills == [Kill(0, Teardown(OnFailure(End(ContextEnded, None), Some(7), 0)))]
  {
    var why := OnFailure(End(ContextEnded, None), Some(7), 0);
    next := Do(run, Cancel(7));
    var s := At(next).sh;
    hide At;
    next := Next(next, Plain, s, Closing(0, Some(TheCall()), why, StopLoop));
    next := TeardownRun(next, why);
  }

  lemma TeardownRun(run: seq<Action>, why: Why) returns (next: seq<Action>)
    requires Calm(run, Child(Some(Caller(0)), Some(0), Some(0)), map[0 := Loop(0, None, false, Waiting)],
                  Closing(0, Some(TheCall()), why, StopLoop))
    ensures At(next).sh.expired == {} && At(next).sh.failed == {} && At(next).sh.kills == [Kill(0, Teardown(why))]
  {
    hide At;
    var c, s := Some(TheCall()), At(run).sh;
    s := s.(workers := Child(Some(Caller(0)), None, Some(0)), loops := map[0 := Loop(0, None, true, Waiting)]);
    next := Next(run, Plain, s, Closing(0, c, why, AwaitDone(0)));
    s := s.(loops := map[0 := Loop(0, None, true, Done)]);
    next := LoopNext(next, SeeStop, s);
    next := Next(next, Plain, s, Closing(0, c, why, KillChild));
    s := Killed(s, Some(0), Teardown(why)).(workers := Child(Some(Caller(0)), None, None));
    next := Next(next, Plain, s, Closing(0, c, why, Relaunch));
  }
}
