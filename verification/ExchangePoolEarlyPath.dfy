/** From the guard of the early context path, the child is killed: a continuation of any run that reaches it. */
module ExchangePoolEarlyPath {
  import opened Common
  import opened ExchangePool
  import opened ExchangePoolProofs
  import opened ExchangePoolTheorems

  // The first attempt of a call is about to find its context ended.
  predicate AtGuard(s: State, g: Gid)
  {
    var pc := PcOf(s, g);
    pc.Attempting? && pc.phase == Attempt(false) && pc.att.AtContext? && ContextDone(s.sh, pc.c.ctx)
  }

  /** An attempt is made only with a child running. */
  lemma AttemptHasChild(modes: seq<Mode>, run: seq<Action>, g: Gid) returns (pid: nat)
    requires PcOf(Exec(Init(modes), run), g).Attempting?
    ensures var sh, w := After(modes, run), PcOf(Exec(Init(modes), run), g).c.w;
            w in sh.workers && sh.workers[w].process == Some(pid)
  {
    AttemptIs(modes, run, g);
    pid := After(modes, run).workers[PcOf(Exec(Init(modes), run), g).c.w].process.value;
  }

  // The caller is tearing down worker w, whose child is pid.
  predicate TearingDown(s: State, g: Gid, c: Call, why: Why, at: CloseAt, pid: nat)
  {
    && PcOf(s, g) == Closing(c.w, Some(c), why, at)
    && c.w in s.sh.workers && s.sh.workers[c.w].process == Some(pid)
    && (!at.StopLoop? ==> s.sh.workers[c.w].loop.None?)
  }

  // The child of worker w was killed for `why`; nothing else about contexts changed since s.
  predicate Cleared(s: State, t: State, g: Gid, c: Call, why: Why, pid: nat)
  {
    && PcOf(t, g) == Closing(c.w, Some(c), why, Relaunch)
    && c.w in t.sh.workers && t.sh.workers[c.w].process.None? && t.sh.workers[c.w].loop.None?
    && Kill(pid, Teardown(why)) in t.sh.kills && t.sh.cancelled == s.sh.cancelled
  }

  lemma {:induction false} ExecPlus(s: State, run: seq<Action>, more: seq<Action>)
    ensures Exec(s, run + more) == Exec(Exec(s, run), more)
  {
    if more == [] {
      assert run + more == run;
    } else {
      var n := |more| - 1;
      ExecPlus(s, run, more[..n]);
      assert (run + more)[..|run + more| - 1] == run + more[..n];
    }
  }

  lemma ExecFirst(s: State, a: Action, more: seq<Action>)
    ensures Exec(s, [a] + more) == Exec(Step(s, a), more)
  {
    ExecPlus(s, [a], more);
    assert [a][..0] == [];
    assert Exec(s, [a]) == Step(Exec(s, []), a);
  }

  // How far a stopped loop is from its end
  function ToEnd(at: LoopAt): nat
  {
    match at case Serving(_) => 3 case Replying(_, _) => 2 case Waiting => 1 case Done => 0
  }

  function Wind(at: LoopAt): LoopChoice
  {
    match at case Serving(_) => Respond(ReplyOk) case Replying(_, _) => SendReply case _ => SeeStop
  }

  lemma WindsDown(s: State, l: nat, g: Gid, c: Call, why: Why, pid: nat)
    requires Inv(s) && l in s.sh.loops && s.sh.loops[l].stop && !s.sh.loops[l].at.Done?
    requires TearingDown(s, g, c, why, AwaitDone(l), pid)
    ensures var t := Step(s, LoopGo(l, Wind(s.sh.loops[l].at)));
            && l in t.sh.loops && t.sh.loops[l].stop && ToEnd(t.sh.loops[l].at) < ToEnd(s.sh.loops[l].at)
            && TearingDown(t, g, c, why, AwaitDone(l), pid) && t.sh.cancelled == s.sh.cancelled
  {
    assert LoopOk(s.sh, l);
    if s.sh.loops[l].at.Replying? { assert ChanOk(s.sh, s.sh.loops[l].at.r.chan); }
  }

  // The loop ends and the caller kills the child.
  lemma {:induction false} AwaitAndKill(s: State, l: nat, g: Gid, c: Call, why: Why, pid: nat)
    returns (more: seq<Action>)
    requires Inv(s) && l in s.sh.loops && s.sh.loops[l].stop && TearingDown(s, g, c, why, AwaitDone(l), pid)
    ensures Cleared(s, Exec(s, more), g, c, why, pid)
    decreases ToEnd(s.sh.loops[l].at)
  {
    hide Inv, Step, TearingDown;
    if s.sh.loops[l].at.Done? {
      var t := EndSeen(s, l, g, c, why, pid);
      var rest := KillNow(t, g, c, why, pid);
      more := [Go(g, Plain)] + rest;
      ExecFirst(s, Go(g, Plain), rest);
    } else {
      var a := LoopGo(l, Wind(s.sh.loops[l].at));
      WindsDown(s, l, g, c, why, pid);
      StepKeeps(s, a);
      var rest := AwaitAndKill(Step(s, a), l, g, c, why, pid);
      more := [a] + rest;
      ExecFirst(s, a, rest);
    }
  }

  lemma EndSeen(s: State, l: nat, g: Gid, c: Call, why: Why, pid: nat) returns (t: State)
    requires l in s.sh.loops && s.sh.loops[l].at.Done? && TearingDown(s, g, c, why, AwaitDone(l), pid)
    ensures t == Step(s, Go(g, Plain)) && TearingDown(t, g, c, why, KillChild, pid)
    ensures t.sh.cancelled == s.sh.cancelled
  {
    t := Step(s, Go(g, Plain));
  }

  lemma KillNow(s: State, g: Gid, c: Call, why: Why, pid: nat) returns (more: seq<Action>)
    requires TearingDown(s, g, c, why, KillChild, pid)
    ensures Cleared(s, Exec(s, more), g, c, why, pid)
  {
    more := [Go(g, Plain)];
    ExecFirst(s, Go(g, Plain), []);
    assert [Go(g, Plain)] + [] == more;
    var t := Step(s, Go(g, Plain));
    assert t.sh.kills[|s.sh.kills|] == Kill(pid, Teardown(why));
  }

  lemma StopStep(s: State, g: Gid, c: Call, why: Why, pid: nat)
    requires Inv(s) && TearingDown(s, g, c, why, StopLoop, pid)
    ensures var t := Step(s, Go(g, Plain));
            || TearingDown(t, g, c, why, KillChild, pid)
            || (exists l: nat :: l in t.sh.loops && t.sh.loops[l].stop && TearingDown(t, g, c, why, AwaitDone(l), pid))
    ensures Step(s, Go(g, Plain)).sh.cancelled == s.sh.cancelled
  {
    assert WorkerOk(s.sh, c.w);
    var t := Step(s, Go(g, Plain));
    if s.sh.workers[c.w].loop.Some? {
      var l := s.sh.workers[c.w].loop.value;
      assert l in t.sh.loops && t.sh.loops[l].stop && TearingDown(t, g, c, why, AwaitDone(l), pid);
    }
  }

  lemma FromStop(s: State, g: Gid, c: Call, why: Why, pid: nat) returns (more: seq<Action>)
    requires Inv(s) && TearingDown(s, g, c, why, StopLoop, pid)
    ensures Cleared(s, Exec(s, more), g, c, why, pid)
  {
    hide Inv, Step, TearingDown;
    var t := Step(s, Go(g, Plain));
    StopStep(s, g, c, why, pid);
    StepKeeps(s, Go(g, Plain));
    var rest;
    if TearingDown(t, g, c, why, KillChild, pid) {
      rest := KillNow(t, g, c, why, pid);
    } else {
      var l: nat :| l in t.sh.loops && t.sh.loops[l].stop && TearingDown(t, g, c, why, AwaitDone(l), pid);
      rest := AwaitAndKill(t, l, g, c, why, pid);
    }
    more := [Go(g, Plain)] + rest;
    ExecFirst(s, Go(g, Plain), rest);
  }

  /**
   Whenever a call's first attempt finds its context ended, in any pool and after any run, some
   continuation kills the running child for that reason alone, with nothing handed over.
   */
  lemma EndedContextKills(modes: seq<Mode>, run: seq<Action>, g: Gid) returns (more: seq<Action>, pid: nat)
    requires AtGuard(Exec(Init(modes), run), g)
    ensures var c := PcOf(Exec(Init(modes), run), g).c;
            && c.w in After(modes, run).workers && After(modes, run).workers[c.w].process == Some(pid)
            && Kill(pid, Teardown(OnFailure(End(ContextEnded, None), c.ctx, c.deadline)))
               in After(modes, run + more).kills
  {
    hide Inv, Step, TearingDown, Init;
    var s := Exec(Init(modes), run);
    RunKeeps(modes, run);
    pid := AttemptHasChild(modes, run, g);
    var c, why := Turns(s, g, pid);
    StepKeeps(s, Go(g, Plain));
    var rest := FromStop(Step(s, Go(g, Plain)), g, c, why, pid);
    more := [Go(g, Plain)] + rest;
    ExecFirst(s, Go(g, Plain), rest);
    ExecPlus(Init(modes), run, more);
  }

  lemma Turns(s: State, g: Gid, pid: nat) returns (c: Call, why: Why)
    requires AtGuard(s, g) && PcOf(s, g).c.w in s.sh.workers && s.sh.workers[PcOf(s, g).c.w].process == Some(pid)
    ensures PcOf(s, g).Attempting? && c == PcOf(s, g).c
    ensures why == OnFailure(End(ContextEnded, None), c.ctx, c.deadline)
    ensures TearingDown(Step(s, Go(g, Plain)), g, c, why, StopLoop, pid)
  {
    c := PcOf(s, g).c;
    why := OnFailure(End(ContextEnded, None), c.ctx, c.deadline);
  }
}
