/**
 A supervisor past its timer waits for a result with nothing else to wake it. This is when
 that result never comes.
 */
module ExchangePoolStranded {
  import opened Common
  import opened ExchangePool
  import opened ExchangePoolProofs
  import opened ExchangePoolTheorems

  // The request is still in the queue of a loop that has returned.
  predicate Stranded(sh: Shared, x: Exchange)
  {
    && x.lid in sh.loops && sh.loops[x.lid].at.Done? && sh.loops[x.lid].queue == Some(Request(x.req, x.chan, x.buf))
    && x.chan in sh.chans && sh.chans[x.chan].None?
  }

  predicate Settling(s: State, g: Gid, x: Exchange) { PcOf(s, g) == Supervising(x, SupSettle) }

  // What a settling supervisor waits for is answered, to be serviced, or stranded.
  lemma Trichotomy(s: State, g: Gid, x: Exchange)
    requires Inv(s) && Settling(s, g, x)
    ensures x.chan in s.sh.chans && x.chan in s.sh.use
    ensures s.sh.chans[x.chan].Some? ==> s.sh.chans[x.chan].value.req == x.req
    ensures s.sh.chans[x.chan].None? ==>
              s.sh.use[x.chan].Out? && s.sh.use[x.chan].g == g && s.sh.use[x.chan].l == x.lid
    ensures s.sh.chans[x.chan].None? ==>
              (Stranded(s.sh, x) <==> !ToBeServiced(s.sh, x.lid, Request(x.req, x.chan, x.buf)))
  {
    assert PcInv(s.sh, g, PcOf(s, g));
    assert ChanOk(s.sh, x.chan);
  }

  // Channel c is still empty, and the queue and position of loop l are as they were.
  predicate Untouched(sh: Shared, b: Shared, c: nat, l: nat)
  {
    && c in b.chans && b.chans[c].None?
    && l in sh.loops && l in b.loops && b.loops[l].queue == sh.loops[l].queue && b.loops[l].at == sh.loops[l].at
  }

  // An empty channel and a loop with a full queue, both old
  predicate Full(sh: Shared, c: nat, l: nat)
  {
    && c in sh.chans && sh.chans[c].None? && c < sh.nextChan
    && l in sh.loops && sh.loops[l].queue.Some? && l < sh.nextLoop
  }

  // No goroutine touches a full queue or puts anything into a channel.
  lemma GoNeverAnswers(sh: Shared, g: Gid, pc: Pc, choice: Choice, c: nat, l: nat)
    requires Full(sh, c, l)
    ensures Untouched(sh, GoStep(sh, g, pc, choice).sh, c, l)
  {
    hide AttemptStep, CloseStep, CallStep, SuperviseStep;
    match pc
    case Idle =>
    case Returned(_) =>
    case Calling(call, at) => CallNeverAnswers(sh, g, call, at, choice, c, l);
    case Attempting(call, phase, at) => AttemptNeverAnswers(sh, g, call, phase, at, choice, c, l);
    case Closing(w, back, why, at) => CloseNeverAnswers(sh, g, w, back, why, at, choice, c, l);
    case Supervising(x, at) => SuperviseNeverAnswers(sh, g, x, at, choice, c, l);
  }

  lemma CallNeverAnswers(sh: Shared, g: Gid, call: Call, at: CallAt, choice: Choice, c: nat, l: nat)
    requires Full(sh, c, l)
    ensures Untouched(sh, CallStep(sh, g, call, at, choice).sh, c, l)
  {
  }

  lemma CloseNeverAnswers(sh: Shared, g: Gid, w: nat, back: Option<Call>, why: Why, at: CloseAt, choice: Choice,
                          c: nat, l: nat)
    requires Full(sh, c, l)
    ensures Untouched(sh, CloseStep(sh, g, w, back, why, at, choice).sh, c, l)
  {
  }

  lemma SuperviseNeverAnswers(sh: Shared, g: Gid, x: Exchange, at: SupAt, choice: Choice, c: nat, l: nat)
    requires Full(sh, c, l)
    ensures Untouched(sh, SuperviseStep(sh, g, x, at, choice).sh, c, l)
  {
  }

  lemma AttemptNeverAnswers(sh: Shared, g: Gid, call: Call, phase: Phase, at: AttAt, choice: Choice, c: nat, l: nat)
    requires Full(sh, c, l)
    ensures Untouched(sh, AttemptStep(sh, g, call, phase, at, choice).sh, c, l)
  {
  }

  lemma StrandedStep(s: State, a: Action, g: Gid, x: Exchange)
    requires Inv(s) && Settling(s, g, x) && Stranded(s.sh, x)
    ensures Settling(Step(s, a), g, x) && Stranded(Step(s, a).sh, x)
  {
    Trichotomy(s, g, x);
    assert PcInv(s.sh, g, PcOf(s, g));
    assert ChanOk(s.sh, x.chan) && LoopOk(s.sh, x.lid);
    match a
    case Go(h, choice) => GoStrands(s, h, choice, g, x);
    case LoopGo(l, lc) => if l in s.sh.loops && l != x.lid { assert LoopOk(s.sh, l); }
    case Cancel(_) =>
    case Expire(_) =>
  }

  lemma GoStrands(s: State, h: Gid, choice: Choice, g: Gid, x: Exchange)
    requires Inv(s) && Settling(s, g, x) && Stranded(s.sh, x)
    requires x.chan < s.sh.nextChan && x.lid < s.sh.nextLoop && g.Supervisor? && g.k < s.sh.nextSup
    ensures Settling(Step(s, Go(h, choice)), g, x) && Stranded(Step(s, Go(h, choice)).sh, x)
  {
    hide Inv, GoStep, PcInv, SharedInv;
    GoNeverAnswers(s.sh, h, PcOf(s, h), choice, x.chan, x.lid);
    SpawnsNew(s.sh, h, PcOf(s, h), choice);
    if h == g { StaysSettling(s.sh, g, x, choice); }
  }

  lemma SpawnsNew(sh: Shared, h: Gid, pc: Pc, choice: Choice)
    ensures var next := GoStep(sh, h, pc, choice); next.spawn.Some? ==> next.spawn.value.0 == sh.nextSup
  {
  }

  lemma StaysSettling(sh: Shared, g: Gid, x: Exchange, choice: Choice)
    requires x.chan in sh.chans && sh.chans[x.chan].None?
    ensures GoStep(sh, g, Supervising(x, SupSettle), choice) == Same(sh, Supervising(x, SupSettle))
  {
  }

  /** Once stranded, a settling supervisor is never answered, whatever happens next. */
  lemma {:induction false} StrandedForever(modes: seq<Mode>, run: seq<Action>, more: seq<Action>, g: Gid, x: Exchange)
    requires Settling(Exec(Init(modes), run), g, x) && Stranded(After(modes, run), x)
    ensures Settling(Exec(Init(modes), run + more), g, x) && Stranded(After(modes, run + more), x)
    decreases more
  {
    hide Step, Inv, Stranded, Init;
    if more == [] {
      assert run + more == run;
    } else {
      var n := |more| - 1;
      StrandedForever(modes, run, more[..n], g, x);
      RunKeeps(modes, run + more[..n]);
      StrandedStep(Exec(Init(modes), run + more[..n]), more[n], g, x);
      assert (run + more)[..|run + more| - 1] == run + more[..n];
    }
  }

  // How many loop steps lie before the request is answered
  function Distance(loop: Loop, r: Request): nat
  {
    if loop.at.Replying? && loop.at.r == r then 1
    else if loop.at.Serving? && loop.at.r == r then 2
    else if loop.at.Waiting? then 3
    else if loop.at.Replying? then 4
    else 5
  }

  function NextMove(loop: Loop): LoopChoice
  {
    match loop.at
    case Waiting => Take
    case Serving(_) => Respond(ReplyOk)
    case Replying(_, _) => SendReply
    case Done => SeeStop
  }

  // One step of the loop brings the answer nearer.
  lemma Nearer(s: State, g: Gid, x: Exchange)
    requires Inv(s) && Settling(s, g, x) && x.chan in s.sh.chans && s.sh.chans[x.chan].None?
    requires ToBeServiced(s.sh, x.lid, Request(x.req, x.chan, x.buf))
    ensures var r, t := Request(x.req, x.chan, x.buf), Step(s, LoopGo(x.lid, NextMove(s.sh.loops[x.lid])));
            && Settling(t, g, x) && x.chan in t.sh.chans
            && (t.sh.chans[x.chan].None? ==>
                  ToBeServiced(t.sh, x.lid, r) && Distance(t.sh.loops[x.lid], r) < Distance(s.sh.loops[x.lid], r))
  {
    assert LoopOk(s.sh, x.lid);
    var loop := s.sh.loops[x.lid];
    if loop.at.Replying? { assert ChanOk(s.sh, loop.at.r.chan); }
  }

  // The loop goes on until the answer is there, and the supervisor takes it.
  lemma {:induction false} Served(modes: seq<Mode>, run: seq<Action>, g: Gid, x: Exchange) returns (more: seq<Action>)
    requires Settling(Exec(Init(modes), run), g, x) && x.chan in After(modes, run).chans
    requires || After(modes, run).chans[x.chan].Some?
             || ToBeServiced(After(modes, run), x.lid, Request(x.req, x.chan, x.buf))
    ensures PcOf(Exec(Init(modes), run + more), g) == Supervising(x, SupDrain)
    decreases After(modes, run).chans[x.chan].None?,
              if x.lid !in After(modes, run).loops then 0
              else Distance(After(modes, run).loops[x.lid], Request(x.req, x.chan, x.buf))
  {
    hide Step, Inv, Init, ToBeServiced, Distance, NextMove;
    var s := Exec(Init(modes), run);
    if s.sh.chans[x.chan].Some? {
      more := [Go(g, Plain)];
      ExecOne(Init(modes), run, Go(g, Plain));
      Taken(s, g, x);
    } else {
      RunKeeps(modes, run);
      Nearer(s, g, x);
      ServicedInLoop(s.sh, x.lid, Request(x.req, x.chan, x.buf));
      var a := LoopGo(x.lid, NextMove(s.sh.loops[x.lid]));
      ExecOne(Init(modes), run, a);
      var rest := Served(modes, run + [a], g, x);
      more := [a] + rest;
      assert run + more == (run + [a]) + rest;
    }
  }

  lemma ServicedInLoop(sh: Shared, l: nat, r: Request)
    requires ToBeServiced(sh, l, r)
    ensures l in sh.loops
  {
  }

  lemma ExecOne(s: State, run: seq<Action>, a: Action)
    ensures Exec(s, run + [a]) == Step(Exec(s, run), a)
  {
    assert (run + [a])[..|run|] == run;
  }

  lemma Taken(s: State, g: Gid, x: Exchange)
    requires Settling(s, g, x) && x.chan in s.sh.chans && s.sh.chans[x.chan].Some?
    ensures PcOf(Step(s, Go(g, Plain)), g) == Supervising(x, SupDrain)
  {
  }

  /**
   A supervisor past its timer can still be answered exactly when its request is not left in
   the queue of a finished loop; if it is, no continuation of the run wakes the supervisor.
   */
  lemma AnsweredUnlessStranded(modes: seq<Mode>, run: seq<Action>, g: Gid, x: Exchange)
    requires Settling(Exec(Init(modes), run), g, x)
    ensures Stranded(After(modes, run), x) <==>
            forall more {:trigger run + more} :: Settling(Exec(Init(modes), run + more), g, x)
  {
    hide Inv, Init, Step, ToBeServiced, Stranded;
    RunKeeps(modes, run);
    Trichotomy(Exec(Init(modes), run), g, x);
    if Stranded(After(modes, run), x) {
      forall more ensures Settling(Exec(Init(modes), run + more), g, x) {
        StrandedForever(modes, run, more, g, x);
      }
    } else {
      var more := Served(modes, run, g, x);
      assert !Settling(Exec(Init(modes), run + more), g, x);
    }
  }

  // The caller's own request x is in the loop's queue and the caller waits for it.
  ghost predicate Sent(run: seq<Action>, x: Exchange)
  {
    var sh := At(run).sh;
    && x.lid == 0 && sh.workers == Child(Some(Caller(0)), Some(0), Some(0))
    && sh.loops == map[0 := Loop(0, Some(Request(x.req, x.chan, x.buf)), false, Waiting)]
    && x.chan in sh.chans && sh.chans[x.chan].None?
    && PcOf(At(run), Caller(0)) == Attempting(TheCall(), Attempt(false), AtWait(x))
    && PcOf(At(run), Caller(1)) == Idle
  }

  // The caller has drawn a channel for its request x.
  ghost predicate Drawn(run: seq<Action>, x: Exchange)
  {
    var sh := At(run).sh;
    && x.lid == 0 && sh.workers == Child(Some(Caller(0)), Some(0), Some(0))
    && sh.loops == map[0 := Loop(0, None, false, Waiting)]
    && x.chan in sh.chans && sh.chans[x.chan].None?
    && PcOf(At(run), Caller(0)) == Attempting(TheCall(), Attempt(false), AtSend(x))
    && PcOf(At(run), Caller(1)) == Idle
  }

  lemma DrawOwn(run: seq<Action>) returns (next: seq<Action>, x: Exchange)
    requires Calm(run, Child(Some(Caller(0)), Some(0), Some(0)), map[0 := Loop(0, None, false, Waiting)],
                  Attempting(TheCall(), Attempt(false), AtContext))
    requires 7 !in At(run).sh.cancelled
    ensures Drawn(next, x)
  {
    hide At;
    var c, s := TheCall(), At(run).sh;
    next := ExchangePoolTheorems.Next(run, Plain, s, Attempting(c, Attempt(false), AtLoop));
    next := ExchangePoolTheorems.Next(next, Plain, s, Attempting(c, Attempt(false), AtChan(0, Some(0))));
    x := Exchange(0, Some(0), s.nextReq, s.nextChan, c.buf, c.deadline);
    s := TakeChannel(s, Caller(0), c, Attempt(false), 0, Some(0), Plain).sh;
    next := ExchangePoolTheorems.Next(next, Plain, s, Attempting(c, Attempt(false), AtSend(x)));
  }

  lemma SendOwn(run: seq<Action>, x: Exchange) returns (next: seq<Action>)
    requires Drawn(run, x)
    ensures Sent(next, x)
  {
    hide At;
    var s := HandOver(At(run).sh, Caller(0), x);
    next := ExchangePoolTheorems.Next(run, Plain, s, Attempting(TheCall(), Attempt(false), AtWait(x)));
  }

  lemma EndContext(run: seq<Action>, x: Exchange) returns (next: seq<Action>)
    requires Sent(run, x)
    ensures Sent(next, x) && ContextDone(At(next).sh, Some(7)) && At(next).sh.loops == At(run).sh.loops
  {
    next := Do(run, Cancel(7));
  }

  // The caller sees its context ended and hands its channel to a supervisor.
  lemma HandToSupervisor(run: seq<Action>, x: Exchange) returns (next: seq<Action>, g: Gid)
    requires Sent(run, x) && ContextDone(At(run).sh, Some(7))
    ensures g.Supervisor? && PcOf(At(next), g) == Supervising(x, SupWait) && PcOf(At(next), Caller(1)) == Idle
    ensures At(next).sh == Abandon(At(run).sh, x)
    ensures PcOf(At(next), Caller(0)) == Calling(TheCall(), Finish(Abandoned))
  {
    g := Supervisor(At(run).sh.nextSup);
    next := Do(run, Go(Caller(0), SeeContext));
  }

  lemma LetGo(run: seq<Action>, g: Gid) returns (next: seq<Action>)
    requires PcOf(At(run), Caller(0)) == Calling(TheCall(), Finish(Abandoned)) && g != Caller(0)
    requires At(run).sh.workers == Child(Some(Caller(0)), Some(0), Some(0))
    ensures At(next).sh == At(run).sh.(workers := Child(None, Some(0), Some(0)))
    ensures PcOf(At(next), g) == PcOf(At(run), g) && PcOf(At(next), Caller(1)) == PcOf(At(run), Caller(1))
  {
    next := Do(run, Go(Caller(0), Plain));
  }

  // The caller's context ends, and a supervisor takes over.
  lemma LeaveIt(run: seq<Action>, x: Exchange) returns (next: seq<Action>, g: Gid)
    requires Sent(run, x)
    ensures g.Supervisor? && PcOf(At(next), g) == Supervising(x, SupWait)
    ensures At(next).sh.loops == At(run).sh.loops && x.chan in At(next).sh.chans && At(next).sh.chans[x.chan].None?
    ensures At(next).sh.workers == Child(None, Some(0), Some(0)) && PcOf(At(next), Caller(1)) == Idle
  {
    hide At;
    next := EndContext(run, x);
    next, g := HandToSupervisor(next, x);
    next := LetGo(next, g);
  }

  // Another goroutine's step that spawns nothing; g stays where it is.
  lemma Beside(run: seq<Action>, h: Gid, choice: Choice, sh: Shared, pc: Pc, g: Gid) returns (next: seq<Action>)
    requires h != g && GoStep(At(run).sh, h, PcOf(At(run), h), choice) == Same(sh, pc)
    ensures At(next).sh == sh && PcOf(At(next), h) == pc && PcOf(At(next), g) == PcOf(At(run), g)
  {
    next := Do(run, Go(h, choice));
  }

  // Close stops the loop before it took the request, and the supervisor's timer fires first.
  lemma CloseIt(run: seq<Action>, x: Exchange, g: Gid) returns (next: seq<Action>)
    requires g.Supervisor? && PcOf(At(run), g) == Supervising(x, SupWait) && PcOf(At(run), Caller(1)) == Idle
    requires At(run).sh.workers == Child(None, Some(0), Some(0)) && x.lid == 0
    requires At(run).sh.loops == map[0 := Loop(0, Some(Request(x.req, x.chan, x.buf)), false, Waiting)]
    requires x.chan in At(run).sh.chans && At(run).sh.chans[x.chan].None?
    ensures Settling(At(next), g, x) && Stranded(At(next).sh, x)
  {
    hide At;
    var s, r := At(run).sh, Some(Request(x.req, x.chan, x.buf));
    s := s.(workers := Child(Some(Caller(1)), Some(0), Some(0)));
    next := Beside(run, Caller(1), BeginClose(0), s, Closing(0, None, OnClose, StopLoop), g);
    s := s.(workers := Child(Some(Caller(1)), None, Some(0)), loops := map[0 := Loop(0, r, true, Waiting)]);
    next := Beside(next, Caller(1), Plain, s, Closing(0, None, OnClose, AwaitDone(0)), g);
    next := TimerFires(next, x, g);
  }

  lemma TimerFires(run: seq<Action>, x: Exchange, g: Gid) returns (next: seq<Action>)
    requires PcOf(At(run), g) == Supervising(x, SupWait) && x.lid == 0
    requires At(run).sh.loops == map[0 := Loop(0, Some(Request(x.req, x.chan, x.buf)), true, Waiting)]
    requires x.chan in At(run).sh.chans && At(run).sh.chans[x.chan].None?
    ensures Settling(At(next), g, x) && Stranded(At(next).sh, x)
  {
    hide At;
    next := Do(run, LoopGo(0, SeeStop));
    next := Do(next, Expire(x.deadline));
    next := Do(next, Go(g, SeeDeadline));
  }

  /** A run that strands a supervisor: the caller leaves, and the pool closes before the loop takes the request. */
  lemma SupervisorIsStranded() returns (run: seq<Action>, g: Gid, x: Exchange)
    ensures Settling(Exec(Init([Stdio]), run), g, x) && Stranded(After([Stdio], run), x)
  {
    hide Calm, Drawn, Sent, Settling, Stranded;
    run := Launch();
    run, x := WarmupSent(run);
    run := WarmupDone(run, x);
    run, x := DrawOwn(run);
    run := SendOwn(run, x);
    SentFacts(run, x);
    run, g := LeaveIt(run, x);
    run := CloseIt(run, x, g);
  }

  lemma SentFacts(run: seq<Action>, x: Exchange)
    requires Sent(run, x)
    ensures x.lid == 0 && At(run).sh.loops == map[0 := Loop(0, Some(Request(x.req, x.chan, x.buf)), false, Waiting)]
  {
  }
}
