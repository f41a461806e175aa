/**
 From a failed first attempt to the second one: a continuation of any run that reaches it. The
 worker's child is killed for that failure and a new one is started for the call.
 */
module ExchangePoolRetry {
  import opened Common
  import opened ExchangePool
  import opened ExchangePoolProofs
  import opened ExchangePoolTheorems
  import opened ExchangePoolEarlyPath

  // The first attempt of call c has ended badly and is about to give its channel back.
  predicate AttemptFailed(pc: Pc, c: Call, end: End)
  {
    && pc.Attempting? && pc.c == c && pc.phase == Attempt(false) && pc.att.AtPut? && pc.att.end == end
    && !end.out.Completed? && !end.out.Abandoned?
  }

  // In s caller g stands at pc; contexts and kills are as they were in s0.
  predicate Stands(s0: State, s: State, g: Gid, c: Call, pc: Pc)
  {
    PcOf(s, g) == pc && c.w in s.sh.workers && s.sh.cancelled == s0.sh.cancelled && s.sh.kills == s0.sh.kills
  }

  lemma FailureTurns(s: State, g: Gid, c: Call, end: End, pid: nat)
    requires AttemptFailed(PcOf(s, g), c, end) && c.w in s.sh.workers && s.sh.workers[c.w].process == Some(pid)
    ensures var t := Step(s, Go(g, Plain));
            TearingDown(t, g, c, OnFailure(end, c.ctx, c.deadline), StopLoop, pid) && t.sh.cancelled == s.sh.cancelled
  {
  }

  lemma Relaunches(s0: State, s: State, g: Gid, c: Call, why: Why)
    requires Stands(s0, s, g, c, Closing(c.w, Some(c), why, Relaunch)) && why.OnFailure?
    requires s.sh.workers[c.w].process.None?
    ensures Stands(s0, Step(s, Go(g, Plain)), g, c, Attempting(c, Warmup(true), AtContext))
  {
  }

  lemma WarmsUp(s0: State, s: State, g: Gid, c: Call)
    requires Stands(s0, s, g, c, Attempting(c, Warmup(true), AtContext))
    ensures Stands(s0, Step(s, Go(g, Plain)), g, c, Attempting(c, Warmup(true), AtLoop))
  {
  }

  lemma FindsLoop(s0: State, s: State, g: Gid, c: Call) returns (lid: nat, pid: Option<nat>)
    requires Stands(s0, s, g, c, Attempting(c, Warmup(true), AtLoop))
    ensures Stands(s0, Step(s, Go(g, Plain)), g, c, Attempting(c, Warmup(true), AtChan(lid, pid)))
  {
    var worker := s.sh.workers[c.w];
    lid, pid := if worker.loop.Some? then worker.loop.value else s.sh.nextLoop, worker.process;
  }

  lemma MakesRequest(s0: State, s: State, g: Gid, c: Call, lid: nat, pid: Option<nat>) returns (x: Exchange)
    requires Stands(s0, s, g, c, Attempting(c, Warmup(true), AtChan(lid, pid)))
    ensures Stands(s0, Step(s, Go(g, Plain)), g, c, Attempting(c, Warmup(true), AtSend(x)))
  {
    x := Exchange(lid, pid, s.sh.nextReq, s.sh.nextChan, s.sh.nextBuf, s.sh.nextTime);
  }

  lemma RunsOut(s0: State, s: State, g: Gid, c: Call, x: Exchange)
    requires Stands(s0, s, g, c, Attempting(c, Warmup(true), AtSend(x)))
    ensures var t := Step(s, Expire(x.deadline));
            && Stands(s0, t, g, c, Attempting(c, Warmup(true), AtSend(x)))
            && Stands(s0, Step(t, Go(g, SeeDeadline)), g, c,
                      Attempting(c, Warmup(true), AtDrain(x.chan, End(NeverStarted, None))))
  {
  }

  lemma GivesBack(s0: State, s: State, g: Gid, c: Call, chan: nat, end: End)
    requires Stands(s0, s, g, c, Attempting(c, Warmup(true), AtDrain(chan, end)))
    ensures var t := Step(s, Go(g, Plain));
            && Stands(s0, t, g, c, Attempting(c, Warmup(true), AtPut(chan, end)))
            && Stands(s0, Step(t, Go(g, Plain)), g, c, Calling(c, Recheck))
  {
  }

  lemma Retries(s0: State, s: State, g: Gid, c: Call)
    requires Stands(s0, s, g, c, Calling(c, Recheck)) && !ContextDone(s0.sh, c.ctx)
    ensures Stands(s0, Step(s, Go(g, Plain)), g, c, Attempting(c, Attempt(true), AtContext))
  {
  }

  lemma Then(s: State, more: seq<Action>, a: Action) returns (longer: seq<Action>)
    ensures longer == more + [a] && Exec(s, longer) == Step(Exec(s, more), a)
  {
    longer := more + [a];
    assert longer[..|more|] == more;
  }

  // A new child is started and its warm-up runs into its own deadline; then the call tries again.
  lemma SecondAttempt(s: State, g: Gid, c: Call, why: Why) returns (more: seq<Action>)
    requires Stands(s, s, g, c, Closing(c.w, Some(c), why, Relaunch)) && why.OnFailure?
    requires s.sh.workers[c.w].process.None? && !ContextDone(s.sh, c.ctx)
    ensures Stands(s, Exec(s, more), g, c, Attempting(c, Attempt(true), AtContext))
  {
    hide Step;
    more := [];
    Relaunches(s, s, g, c, why);
    more := Then(s, more, Go(g, Plain));
    hide Stands;
    WarmsUp(s, Exec(s, more), g, c);
    more := Then(s, more, Go(g, Plain));
    var lid, pid := FindsLoop(s, Exec(s, more), g, c);
    more := Then(s, more, Go(g, Plain));
    var x := MakesRequest(s, Exec(s, more), g, c, lid, pid);
    more := Then(s, more, Go(g, Plain));
    RunsOut(s, Exec(s, more), g, c, x);
    more := Then(s, more, Expire(x.deadline));
    more := Then(s, more, Go(g, SeeDeadline));
    GivesBack(s, Exec(s, more), g, c, x.chan, End(NeverStarted, None));
    more := Then(s, more, Go(g, Plain));
    more := Then(s, more, Go(g, Plain));
    Retries(s, Exec(s, more), g, c);
    more := Then(s, more, Go(g, Plain));
  }

  lemma ClearedStands(s: State, t: State, g: Gid, c: Call, why: Why, pid: nat)
    requires Cleared(s, t, g, c, why, pid)
    ensures Stands(t, t, g, c, Closing(c.w, Some(c), why, Relaunch)) && t.sh.workers[c.w].process.None?
    ensures t.sh.cancelled == s.sh.cancelled && Kill(pid, Teardown(why)) in t.sh.kills
  {
  }

  /**
   Whenever a call's first attempt has failed and its context has not ended, in any pool and
   after any run, some continuation kills the child that had the attempt, for that failure, and
   brings the call to its second attempt on the same worker.
   */
  lemma FailedAttemptIsTriedAgain(modes: seq<Mode>, run: seq<Action>, g: Gid, c: Call, end: End)
    returns (more: seq<Action>, pid: nat)
    requires AttemptFailed(PcOf(Exec(Init(modes), run), g), c, end) && !ContextDone(After(modes, run), c.ctx)
    ensures c.w in After(modes, run).workers && After(modes, run).workers[c.w].process == Some(pid)
    ensures Kill(pid, Teardown(OnFailure(end, c.ctx, c.deadline))) in After(modes, run + more).kills
    ensures PcOf(Exec(Init(modes), run + more), g) == Attempting(c, Attempt(true), AtContext)
  {
    hide Inv, Step, TearingDown, Init, Cleared;
    var s, why := Exec(Init(modes), run), OnFailure(end, c.ctx, c.deadline);
    RunKeeps(modes, run);
    pid := AttemptHasChild(modes, run, g);
    FailureTurns(s, g, c, end, pid);
    StepKeeps(s, Go(g, Plain));
    var t := Step(s, Go(g, Plain));
    var down := FromStop(t, g, c, why, pid);
    ClearedStands(t, Exec(t, down), g, c, why, pid);
    var up := SecondAttempt(Exec(t, down), g, c, why);
    more := [Go(g, Plain)] + (down + up);
    ExecPlus(t, down, up);
    ExecFirst(s, Go(g, Plain), down + up);
    ExecPlus(Init(modes), run, more);
  }
}
