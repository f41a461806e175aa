/**
 What a call of `execute` returns, over every interleaving: each outcome is tied to the reply
 that the call's last request got, to the deadline or context of the call, or to a choice of
 the environment that the call met.
 */
module ExchangePoolAnswers {
  import opened Common
  import opened ExchangePool
  import opened ExchangePoolProofs
  import opened ExchangePoolTheorems
  import opened ExchangePoolHistory

  // ---------------------------------------------------------------- what a call went through

  // The latest call of g is a call of `execute` with this context, deadline and buffer.
  predicate Asked(modes: seq<Mode>, run: seq<Action>, g: Gid, c: Call)
  {
    var m := Began(modes, run, g);
    && m < |run| && IsStep(run[m], g) && run[m].choice.Begin? && run[m].choice.ctx == c.ctx
    && c.deadline == Before(modes, run, m).sh.nextTime
    && Owns(Before(modes, run, m + 1).sh, g, c.buf) && !Owns(Before(modes, run, m).sh, g, c.buf)
  }

  predicate AskedClose(modes: seq<Mode>, run: seq<Action>, g: Gid)
  {
    var m := Began(modes, run, g);
    m < |run| && IsStep(run[m], g) && run[m].choice.BeginClose?
  }

  predicate TearsDown(pc: Pc) { pc.Closing? && pc.back.Some? && pc.why.OnFailure? }

  // Before step n the call was tearing its worker down after a failed attempt.
  ghost predicate Torn(modes: seq<Mode>, run: seq<Action>, g: Gid, n: nat)
  {
    exists m: nat :: Mine(modes, run, g, m) && m < n && TearsDown(PcOf(Before(modes, run, m), g))
  }

  // Launching, killing or waiting for readiness failed in a step of the call.
  ghost predicate Met(modes: seq<Mode>, run: seq<Action>, g: Gid)
  {
    exists m: nat :: Mine(modes, run, g, m) && (run[m].choice.Fail? || run[m].choice.NoKernel?)
  }

  // A step of the call put its buffer back.
  ghost predicate PutBack(modes: seq<Mode>, run: seq<Action>, g: Gid, buf: nat)
  {
    exists m: nat :: Mine(modes, run, g, m) && Puts(Before(modes, run, m).sh, Before(modes, run, m + 1).sh, g, buf)
  }

  predicate Puts(a: Shared, b: Shared, g: Gid, buf: nat)
  {
    Owns(a, g, buf) && b.bufPool == a.bufPool + multiset{buf} && !Owns(b, g, buf)
  }

  // The last request of the call was answered, after a teardown if this is the second attempt.
  ghost predicate LastGot(modes: seq<Mode>, run: seq<Action>, g: Gid, again: bool)
  {
    var h := LastSent(modes, run, g);
    h.Some? && h.value.req in Answers(modes, run) && (again ==> Torn(modes, run, g, h.value.step))
  }

  ghost function LastReply(modes: seq<Mode>, run: seq<Action>, g: Gid): Reply
    requires LastGot(modes, run, g, false)
  {
    Answers(modes, run)[LastSent(modes, run, g).value.req]
  }

  ghost predicate Verdict(modes: seq<Mode>, run: seq<Action>, g: Gid, c: Call, out: Outcome, again: bool)
  {
    var sh := After(modes, run);
    match out
    case Completed => LastGot(modes, run, g, false) && LastReply(modes, run, g) == ReplyOk
    case ContextEnded => ContextDone(sh, c.ctx)
    case Abandoned => ContextDone(sh, c.ctx)
    case NeverStarted => c.deadline in sh.expired && (again ==> Torn(modes, run, g, |run|))
    case ExchangeFailed => LastGot(modes, run, g, again) && LastReply(modes, run, g) == ReplyError
    case ExchangeCanceled => LastGot(modes, run, g, again) && LastReply(modes, run, g) == ReplyCanceled
    case TimedOut => LastGot(modes, run, g, again) && c.deadline in sh.expired
    case StartFailed => Met(modes, run, g)
    case RestartFailed => Met(modes, run, g) && Torn(modes, run, g, |run|)
  }

  // After its last request the call found its context not ended.
  ghost predicate Unended(modes: seq<Mode>, run: seq<Action>, g: Gid, c: Call)
  {
    && LastSent(modes, run, g).Some?
    && exists m: nat :: Mine(modes, run, g, m) && LastSent(modes, run, g).value.step < m
                        && !ContextDone(Before(modes, run, m).sh, c.ctx)
  }

  ghost predicate Returns(modes: seq<Mode>, run: seq<Action>, g: Gid, c: Call, out: Outcome)
  {
    && Asked(modes, run, g, c) && Verdict(modes, run, g, c, out, true)
    && (out.Completed? ==> Unended(modes, run, g, c))
    && (!out.Abandoned? ==> PutBack(modes, run, g, c.buf))
  }

  // An attempt that handed its request over ends with what that request, the last one, came to.
  ghost predicate EndVerdict(modes: seq<Mode>, run: seq<Action>, g: Gid, c: Call, end: End, again: bool)
  {
    && Verdict(modes, run, g, c, end.out, again)
    && (end.handed.Some? ==>
          var h := LastSent(modes, run, g);
          h.Some? && h.value.req == end.handed.value && !end.out.Abandoned? && !end.out.ContextEnded?)
  }

  ghost predicate AttemptStory(modes: seq<Mode>, run: seq<Action>, g: Gid, c: Call, again: bool, at: AttAt)
  {
    && (at.AtWait? || at.AtKill? || at.AtSettle? ==>
          var h := LastSent(modes, run, g);
          h.Some? && h.value.req == at.x.req && (again ==> Torn(modes, run, g, h.value.step)))
    && (at.AtDrain? || at.AtPut? ==> EndVerdict(modes, run, g, c, at.end, again))
  }

  ghost predicate Story(modes: seq<Mode>, run: seq<Action>, g: Gid, pc: Pc)
  {
    match pc
    case Idle => true
    case Returned(out) =>
      || (AskedClose(modes, run, g) && out.Completed?)
      || (exists c: Call :: Returns(modes, run, g, c, out))
    case Calling(c, at) =>
      && Asked(modes, run, g, c)
      && (at.Recheck? ==> Torn(modes, run, g, |run|))
      && (at.Succeeded? ==> Verdict(modes, run, g, c, Completed, true))
      && (at.Finish? || at.PutBuffer? ==>
            Verdict(modes, run, g, c, at.out, true) && (at.out.Completed? ==> Unended(modes, run, g, c)))
      && (at.PutBuffer? ==> !at.out.Abandoned?)
    case Attempting(c, phase, at) =>
      && Asked(modes, run, g, c) && (phase.again ==> Torn(modes, run, g, |run|))
      && (phase.Attempt? ==> AttemptStory(modes, run, g, c, phase.again, at))
    case Closing(w, back, why, at) =>
      if back.None? then AskedClose(modes, run, g)
      else
        && Asked(modes, run, g, back.value) && !why.OnClose?
        && (why.NotReady? ==> Met(modes, run, g) && (why.again ==> Torn(modes, run, g, |run|)))
    case Supervising(_, _) => true
  }

  // ---------------------------------------------------------------- stories carry over

  lemma SnocExec(modes: seq<Mode>, run: seq<Action>, a: Action)
    ensures Exec(Init(modes), Snoc(run, a)) == Step(Exec(Init(modes), run), a)
  {
  }

  // The run grows by a step that does not start a call of g.
  lemma Carries(modes: seq<Mode>, run: seq<Action>, a: Action, g: Gid)
    requires !Starts(Exec(Init(modes), run), a, g)
    ensures Began(modes, Snoc(run, a), g) == Began(modes, run, g)
    ensures forall m: nat :: Mine(modes, run, g, m) ==> Mine(modes, Snoc(run, a), g, m) && Snoc(run, a)[m] == run[m]
    ensures forall m: nat :: m <= |run| ==> Before(modes, Snoc(run, a), m) == Before(modes, run, m)
  {
    var next := Snoc(run, a);
    forall m: nat | m <= |run| ensures Before(modes, next, m) == Before(modes, run, m) {
      assert next[..m] == run[..m];
    }
    forall m: nat | Mine(modes, run, g, m) ensures Mine(modes, next, g, m) && next[m] == run[m] {
    }
  }

  lemma PartsCarry(modes: seq<Mode>, run: seq<Action>, a: Action, g: Gid)
    requires !Starts(Exec(Init(modes), run), a, g)
    ensures forall n: nat :: Torn(modes, run, g, n) ==> Torn(modes, Snoc(run, a), g, n)
    ensures Torn(modes, run, g, |run|) ==> Torn(modes, Snoc(run, a), g, |run| + 1)
    ensures Met(modes, run, g) ==> Met(modes, Snoc(run, a), g)
    ensures forall buf: nat :: PutBack(modes, run, g, buf) ==> PutBack(modes, Snoc(run, a), g, buf)
  {
    hide Before, Began, TearsDown, Puts, Starts;
    Carries(modes, run, a, g);
  }

  lemma AskedCarries(modes: seq<Mode>, run: seq<Action>, a: Action, g: Gid)
    requires !Starts(Exec(Init(modes), run), a, g)
    ensures forall c: Call :: Asked(modes, run, g, c) ==> Asked(modes, Snoc(run, a), g, c)
    ensures AskedClose(modes, run, g) ==> AskedClose(modes, Snoc(run, a), g)
  {
    hide Before, Began, Starts, Owns;
    Carries(modes, run, a, g);
    var m := Began(modes, run, g);
    if m < |run| { assert Snoc(run, a)[m] == run[m]; }
  }

  lemma LastCarries(modes: seq<Mode>, run: seq<Action>, a: Action, g: Gid, again: bool)
    requires !Starts(Exec(Init(modes), run), a, g) && Sends(Exec(Init(modes), run), a, g).None?
    ensures LastSent(modes, Snoc(run, a), g) == LastSent(modes, run, g)
    ensures LastGot(modes, run, g, again) ==>
              && LastGot(modes, Snoc(run, a), g, again)
              && LastReply(modes, Snoc(run, a), g) == LastReply(modes, run, g)
  {
    hide Starts, Sends, Torn, Answers;
    PartsCarry(modes, run, a, g);
    AnsweredOnce(modes, run, a);
  }

  lemma UnendedCarries(modes: seq<Mode>, run: seq<Action>, a: Action, g: Gid, c: Call)
    requires !Starts(Exec(Init(modes), run), a, g) && Sends(Exec(Init(modes), run), a, g).None?
    requires Unended(modes, run, g, c)
    ensures Unended(modes, Snoc(run, a), g, c)
  {
    LastCarries(modes, run, a, g, false);
    hide Starts, Sends, LastSent, Before, Began;
    Carries(modes, run, a, g);
  }

  lemma SharedGrows(modes: seq<Mode>, run: seq<Action>, a: Action)
    ensures After(modes, run).expired <= After(modes, Snoc(run, a)).expired
    ensures After(modes, run).cancelled <= After(modes, Snoc(run, a)).cancelled
  {
    hide Inv;
    RunKeeps(modes, run);
    SnocExec(modes, run, a);
    StepGrows(Exec(Init(modes), run), a);
  }

  lemma VerdictCarries(modes: seq<Mode>, run: seq<Action>, a: Action, g: Gid, c: Call, out: Outcome, again: bool)
    requires !Starts(Exec(Init(modes), run), a, g) && Sends(Exec(Init(modes), run), a, g).None?
    requires Verdict(modes, run, g, c, out, again)
    ensures Verdict(modes, Snoc(run, a), g, c, out, again)
  {
    hide Starts, Sends, Torn, Met, LastGot, After, PutBack, LastReply;
    PartsCarry(modes, run, a, g);
    LastCarries(modes, run, a, g, again);
    LastCarries(modes, run, a, g, false);
    SharedGrows(modes, run, a);
  }

  lemma ReturnsCarries(modes: seq<Mode>, run: seq<Action>, a: Action, g: Gid, c: Call, out: Outcome)
    requires !Starts(Exec(Init(modes), run), a, g) && Sends(Exec(Init(modes), run), a, g).None?
    requires Returns(modes, run, g, c, out)
    ensures Returns(modes, Snoc(run, a), g, c, out)
  {
    hide Starts, Sends, Verdict, PutBack, Asked, Unended;
    PartsCarry(modes, run, a, g);
    AskedCarries(modes, run, a, g);
    VerdictCarries(modes, run, a, g, c, out, true);
    if out.Completed? { UnendedCarries(modes, run, a, g, c); }
  }

  lemma AttemptCarries(modes: seq<Mode>, run: seq<Action>, a: Action, g: Gid, c: Call, again: bool, at: AttAt)
    requires !Starts(Exec(Init(modes), run), a, g) && Sends(Exec(Init(modes), run), a, g).None?
    requires AttemptStory(modes, run, g, c, again, at)
    ensures AttemptStory(modes, Snoc(run, a), g, c, again, at)
  {
    hide Starts, Sends, Verdict, Torn, LastSent;
    PartsCarry(modes, run, a, g);
    LastCarries(modes, run, a, g, again);
    if at.AtDrain? || at.AtPut? { VerdictCarries(modes, run, a, g, c, at.end.out, again); }
  }

  /** A step that starts no call of g and sends nothing for g keeps the story of g where g stands. */
  lemma StoryCarries(modes: seq<Mode>, run: seq<Action>, a: Action, g: Gid, pc: Pc)
    requires !Starts(Exec(Init(modes), run), a, g) && Sends(Exec(Init(modes), run), a, g).None?
    requires Story(modes, run, g, pc)
    ensures Story(modes, Snoc(run, a), g, pc)
  {
    hide Starts, Sends, Verdict, Torn, Met, Returns, AttemptStory, Asked, AskedClose, Unended;
    PartsCarry(modes, run, a, g);
    AskedCarries(modes, run, a, g);
    match pc
    case Idle =>
    case Returned(out) =>
      if !(AskedClose(modes, run, g) && out.Completed?) {
        var c: Call :| Returns(modes, run, g, c, out);
        ReturnsCarries(modes, run, a, g, c, out);
      }
    case Calling(c, at) =>
      if at.Finish? || at.PutBuffer? {
        VerdictCarries(modes, run, a, g, c, at.out, true);
        if at.out.Completed? { UnendedCarries(modes, run, a, g, c); }
      }
      if at.Succeeded? { VerdictCarries(modes, run, a, g, c, Completed, true); }
    case Attempting(c, phase, at) =>
      if phase.Attempt? { AttemptCarries(modes, run, a, g, c, phase.again, at); }
    case Closing(_, _, _, _) =>
    case Supervising(_, _) =>
  }

  // ---------------------------------------------------------------- a goroutine's own steps

  // The last step of the run is one of g's call, taken in state s.
  predicate Now(modes: seq<Mode>, run: seq<Action>, g: Gid, s: State)
  {
    && run != [] && Mine(modes, run, g, |run| - 1)
    && Before(modes, run, |run| - 1) == s && Before(modes, run, |run|) == Exec(Init(modes), run)
  }

  function Chosen(run: seq<Action>): Choice
    requires run != [] && run[|run| - 1].Go?
  {
    run[|run| - 1].choice
  }

  lemma MetNow(modes: seq<Mode>, run: seq<Action>, g: Gid, s: State)
    requires Now(modes, run, g, s)
    ensures Chosen(run).Fail? || Chosen(run).NoKernel? ==> Met(modes, run, g)
  {
    hide Mine, Before;
    assert forall m: nat :: Mine(modes, run, g, m) ==> m < |run| && IsStep(run[m], g) by { MineIs(modes, run, g); }
  }

  lemma MineIs(modes: seq<Mode>, run: seq<Action>, g: Gid)
    ensures forall m: nat :: Mine(modes, run, g, m) ==> m < |run| && IsStep(run[m], g)
  {
  }

  lemma TornNow(modes: seq<Mode>, run: seq<Action>, g: Gid, s: State)
    requires Now(modes, run, g, s) && TearsDown(PcOf(s, g))
    ensures Torn(modes, run, g, |run|)
  {
    hide Mine, Before;
  }

  lemma PutNow(modes: seq<Mode>, run: seq<Action>, g: Gid, s: State, buf: nat)
    requires Now(modes, run, g, s) && Puts(s.sh, After(modes, run), g, buf)
    ensures PutBack(modes, run, g, buf)
  {
    hide Mine, Before, Puts;
    var m := |run| - 1;
    assert m + 1 == |run| && Puts(Before(modes, run, m).sh, Before(modes, run, m + 1).sh, g, buf);
  }

  lemma {:induction false} SentBefore(modes: seq<Mode>, run: seq<Action>, g: Gid)
    ensures LastSent(modes, run, g).Some? ==> LastSent(modes, run, g).value.step < |run|
  {
    if run != [] { SentBefore(modes, run[..|run| - 1], g); }
  }

  lemma UnendedNow(modes: seq<Mode>, run: seq<Action>, g: Gid, s: State, c: Call)
    requires Now(modes, run, g, s) && !ContextDone(s.sh, c.ctx) && LastSent(modes, run, g).Some?
    requires !PcOf(s, g).Attempting?
    ensures Unended(modes, run, g, c)
  {
    var front := run[..|run| - 1];
    SentBefore(modes, front, g);
    assert Sends(Exec(Init(modes), front), run[|run| - 1], g).None?;
    hide Mine, Starts;
    assert Mine(modes, run, g, |run| - 1);
  }

  // Only the context, deadline and buffer of a call are of its story.
  lemma AnyWorker(modes: seq<Mode>, run: seq<Action>, g: Gid, c: Call, w: nat)
    requires Asked(modes, run, g, c)
    ensures Asked(modes, run, g, c.(w := w))
  {
  }

  lemma FailedVerdicts(modes: seq<Mode>, run: seq<Action>, g: Gid)
    ensures forall c: Call :: Met(modes, run, g) ==> Verdict(modes, run, g, c, StartFailed, true)
    ensures forall c: Call :: Met(modes, run, g) && Torn(modes, run, g, |run|) ==>
              Verdict(modes, run, g, c, RestartFailed, true)
  {
  }

  lemma FreshAttempt(modes: seq<Mode>, run: seq<Action>, g: Gid, c: Call, again: bool)
    ensures AttemptStory(modes, run, g, c, again, AtContext)
  {
  }

  // The call ends with an outcome that its verdict already covers, its buffer put back.
  lemma PutStory(modes: seq<Mode>, run: seq<Action>, g: Gid, s: State, c: Call, out: Outcome)
    requires Now(modes, run, g, s) && Story(modes, run, g, Calling(c, PutBuffer(out)))
    requires Owns(s.sh, g, c.buf) && After(modes, run) == CallStep(s.sh, g, c, PutBuffer(out), Chosen(run)).sh
    ensures Story(modes, run, g, Returned(out))
  {
    PutNow(modes, run, g, s, c.buf);
    hide Now, Asked, AskedClose, Verdict, PutBack, After, Unended;
    assert Returns(modes, run, g, c, out);
  }

  lemma EndedVerdict(modes: seq<Mode>, run: seq<Action>, g: Gid, c: Call)
    ensures ContextDone(After(modes, run), c.ctx) ==> Verdict(modes, run, g, c, ContextEnded, true)
  {
  }

  lemma FinishStory(modes: seq<Mode>, run: seq<Action>, g: Gid, c: Call, out: Outcome)
    requires Asked(modes, run, g, c) && Verdict(modes, run, g, c, out, true)
    requires out.Completed? ==> Unended(modes, run, g, c)
    ensures Story(modes, run, g, Calling(c, Finish(out)))
    ensures !out.Abandoned? ==> Story(modes, run, g, Calling(c, PutBuffer(out)))
    ensures out.Abandoned? ==> Story(modes, run, g, Returned(out))
  {
    hide Asked, AskedClose, Torn, Verdict, PutBack, Unended;
    if out.Abandoned? { assert Returns(modes, run, g, c, out); }
  }

  // The steps of a call before it has an outcome
  lemma CallEarly(modes: seq<Mode>, run: seq<Action>, g: Gid, s: State, c: Call, at: CallAt)
    requires Now(modes, run, g, s) && Story(modes, run, g, Calling(c, at)) && PcOf(s, g) == Calling(c, at)
    requires at.NeedLock? || at.NeedStart? || at.Recheck? || at.Succeeded?
    requires After(modes, run).cancelled == s.sh.cancelled
    ensures Story(modes, run, g, CallStep(s.sh, g, c, at, Chosen(run)).pc)
  {
    var choice := Chosen(run);
    MetNow(modes, run, g, s);
    FailedVerdicts(modes, run, g);
    EndedVerdict(modes, run, g, c);
    FreshAttempt(modes, run, g, c, false);
    FreshAttempt(modes, run, g, c, true);
    if at.Succeeded? && !ContextDone(s.sh, c.ctx) { UnendedNow(modes, run, g, s, c); }
    hide Now, Asked, AskedClose, Torn, Met, Verdict, After, AttemptStory, Launched, Unended;
    if at.NeedLock? && choice.Lock? { AnyWorker(modes, run, g, c, choice.w); }
  }

  lemma CallStory(modes: seq<Mode>, run: seq<Action>, g: Gid, s: State, c: Call, at: CallAt)
    requires Now(modes, run, g, s) && Story(modes, run, g, Calling(c, at)) && CallInv(s.sh, g, c, at)
    requires PcOf(s, g) == Calling(c, at)
    requires After(modes, run) == CallStep(s.sh, g, c, at, Chosen(run)).sh
    ensures Story(modes, run, g, CallStep(s.sh, g, c, at, Chosen(run)).pc)
  {
    hide Now, Asked, Torn, Verdict, After, Unended;
    match at
    case Finish(out) => FinishStory(modes, run, g, c, out);
    case PutBuffer(out) => PutStory(modes, run, g, s, c, out);
    case _ => CallEarly(modes, run, g, s, c, at);
  }

  lemma CloseStory(modes: seq<Mode>, run: seq<Action>, g: Gid, s: State, w: nat, back: Option<Call>, why: Why,
                   at: CloseAt)
    requires Now(modes, run, g, s) && PcOf(s, g) == Closing(w, back, why, at)
    requires Story(modes, run, g, Closing(w, back, why, at))
    ensures Story(modes, run, g, CloseStep(s.sh, g, w, back, why, at, Chosen(run)).pc)
  {
    hide Now, Asked, AskedClose, Torn, Met, Verdict, AttemptStory;
    MetNow(modes, run, g, s);
    if TearsDown(PcOf(s, g)) { TornNow(modes, run, g, s); }
    FailedVerdicts(modes, run, g);
    if at.Relaunch? && back.Some? { FreshAttempt(modes, run, g, back.value, true); }
  }

  // What executeHeld goes on with after an attempt
  lemma AfterStory(modes: seq<Mode>, run: seq<Action>, g: Gid, c: Call, phase: Phase, end: End)
    requires Asked(modes, run, g, c) && (phase.again ==> Torn(modes, run, g, |run|))
    requires phase.Attempt? ==> EndVerdict(modes, run, g, c, end, phase.again)
    ensures Story(modes, run, g, AfterAttempt(c, phase, end))
  {
    hide Asked, Torn, LastGot, After, Met;
  }

  // What a waiting call receives is the answer of the request it sent last.
  lemma Receives(modes: seq<Mode>, run: seq<Action>, g: Gid, x: Exchange)
    requires WaitsFor(PcAfter(modes, run, g), x)
    requires x.chan in After(modes, run).chans && After(modes, run).chans[x.chan].Some?
    ensures x.req in Answers(modes, run)
    ensures After(modes, run).chans[x.chan].value.reply == Answers(modes, run)[x.req]
  {
    HistoryKept(modes, run);
    WaitsAwaits(modes, run, g, x);
    assert ChanOk(After(modes, run), x.chan);
  }

  lemma ReplyVerdict(modes: seq<Mode>, run: seq<Action>, g: Gid, c: Call, req: nat, reply: Reply, again: bool)
    requires var h := LastSent(modes, run, g);
             h.Some? && h.value.req == req && (again ==> Torn(modes, run, g, h.value.step))
    requires req in Answers(modes, run) && Answers(modes, run)[req] == reply
    ensures EndVerdict(modes, run, g, c, End(OutcomeOf(reply), Some(req)), again)
    ensures c.deadline in After(modes, run).expired ==>
              EndVerdict(modes, run, g, c, End(TimedOut, Some(req)), again)
  {
    hide Torn, After, LastSent, Answers;
  }

  lemma DrainStory(modes: seq<Mode>, run: seq<Action>, g: Gid, c: Call, phase: Phase, at: AttAt)
    requires at.AtDrain? || at.AtPut?
    ensures Story(modes, run, g, Attempting(c, phase, at)) <==>
            && Asked(modes, run, g, c) && (phase.again ==> Torn(modes, run, g, |run|))
            && (phase.Attempt? ==> EndVerdict(modes, run, g, c, at.end, phase.again))
  {
    hide Asked, Torn, EndVerdict, LastSent;
  }

  // A waiting attempt, and the request it waits for
  predicate Waits(at: AttAt) { at.AtWait? || at.AtKill? || at.AtSettle? }

  // What a waiting attempt has to show
  ghost predicate SentLast(modes: seq<Mode>, run: seq<Action>, g: Gid, req: nat, again: bool)
  {
    var h := LastSent(modes, run, g);
    h.Some? && h.value.req == req && (again ==> Torn(modes, run, g, h.value.step))
  }

  lemma WaitStory(modes: seq<Mode>, run: seq<Action>, g: Gid, c: Call, phase: Phase, at: AttAt)
    requires Waits(at)
    ensures Story(modes, run, g, Attempting(c, phase, at)) <==>
            && Asked(modes, run, g, c) && (phase.again ==> Torn(modes, run, g, |run|))
            && (phase.Attempt? ==> SentLast(modes, run, g, at.x.req, phase.again))
  {
    hide Asked, Torn, Verdict, LastSent;
  }

  lemma EarlyStory(modes: seq<Mode>, run: seq<Action>, g: Gid, c: Call, phase: Phase, at: AttAt)
    requires !Waits(at) && !at.AtDrain? && !at.AtPut?
    ensures Story(modes, run, g, Attempting(c, phase, at)) <==>
            Asked(modes, run, g, c) && (phase.again ==> Torn(modes, run, g, |run|))
  {
    hide Asked, Torn, Verdict, LastSent;
  }

  // Where an attempt can be after a step that starts before its request is handed over
  predicate EarlyNext(sh: Shared, c: Call, phase: Phase, at: AttAt, pc: Pc)
  {
    || (&& pc.Attempting? && pc.c == c && pc.phase == phase
        && (|| (!Waits(pc.att) && !pc.att.AtDrain? && !pc.att.AtPut?)
            || (at.AtSend? && pc.att.AtWait?)
            || (pc.att.AtDrain? && pc.att.end == End(Abandoned, None) && ContextDone(sh, ContextOf(c, phase)))
            || (pc.att.AtDrain? && pc.att.end == End(NeverStarted, None) && at.AtSend?
                && at.x.deadline in sh.expired)))
    || (pc == AfterAttempt(c, phase, End(ContextEnded, None)) && ContextDone(sh, ContextOf(c, phase)))
  }

  lemma TakesOn(sh: Shared, g: Gid, c: Call, phase: Phase, at: AttAt, choice: Choice)
    requires at.AtChan?
    ensures var next := TakeChannel(sh, g, c, phase, at.lid, at.pid, choice);
            && next.pc.Attempting? && next.pc.c == c && next.pc.phase == phase
            && (next.pc.att.AtChan? || next.pc.att.AtSend?)
            && next.sh.cancelled == sh.cancelled && next.sh.expired == sh.expired
  {
  }

  lemma EarlyMoves(sh: Shared, g: Gid, c: Call, phase: Phase, at: AttAt, choice: Choice)
    requires !Waits(at) && !at.AtDrain? && !at.AtPut?
    ensures var next := AttemptStep(sh, g, c, phase, at, choice);
            && EarlyNext(sh, c, phase, at, next.pc)
            && next.sh.cancelled == sh.cancelled && next.sh.expired == sh.expired
  {
    hide TakeChannel, AfterAttempt;
    if at.AtChan? { TakesOn(sh, g, c, phase, at, choice); }
  }

  // A step of an attempt that has not handed its request over, and does not do so now.
  lemma AttemptEarly(modes: seq<Mode>, run: seq<Action>, g: Gid, sh: Shared, c: Call, phase: Phase, at: AttAt, pc: Pc)
    requires Story(modes, run, g, Attempting(c, phase, at))
    requires !Waits(at) && !at.AtDrain? && !at.AtPut? && EarlyNext(sh, c, phase, at, pc)
    requires at.AtSend? ==> Fits(c, phase, at.x)
    requires After(modes, run).cancelled == sh.cancelled && After(modes, run).expired == sh.expired
    requires !(phase.Attempt? && pc.Attempting? && pc.att.AtWait?)
    ensures Story(modes, run, g, pc)
  {
    EarlyStory(modes, run, g, c, phase, at);
    EarlyVerdicts(modes, run, g, c, phase.again);
    hide Story, Asked, Torn, EndVerdict, After;
    if pc == AfterAttempt(c, phase, End(ContextEnded, None)) && ContextDone(sh, ContextOf(c, phase)) {
      AfterStory(modes, run, g, c, phase, End(ContextEnded, None));
    } else if pc.att.AtDrain? {
      DrainStory(modes, run, g, c, phase, pc.att);
    } else if pc.att.AtWait? {
      WaitStory(modes, run, g, c, phase, pc.att);
    } else {
      EarlyStory(modes, run, g, c, phase, pc.att);
    }
  }

  lemma EarlyVerdicts(modes: seq<Mode>, run: seq<Action>, g: Gid, c: Call, again: bool)
    ensures ContextDone(After(modes, run), c.ctx) ==>
              && EndVerdict(modes, run, g, c, End(ContextEnded, None), again)
              && EndVerdict(modes, run, g, c, End(Abandoned, None), again)
              && Verdict(modes, run, g, c, Abandoned, again)
    ensures c.deadline in After(modes, run).expired && (again ==> Torn(modes, run, g, |run|)) ==>
              EndVerdict(modes, run, g, c, End(NeverStarted, None), again)
  {
  }

  // A step of an attempt that waits for its answer
  lemma AttemptWaits(modes: seq<Mode>, run: seq<Action>, g: Gid, s: State, c: Call, phase: Phase, at: AttAt)
    requires Now(modes, run, g, s) && Story(modes, run, g, Attempting(c, phase, at))
    requires Waits(at) && AttemptInv(s.sh, g, c, phase, at)
    requires After(modes, run) == AttemptStep(s.sh, g, c, phase, at, Chosen(run)).sh
    requires at.x.chan in s.sh.chans && s.sh.chans[at.x.chan].Some? ==>
               && at.x.req in Answers(modes, run)
               && s.sh.chans[at.x.chan].value.reply == Answers(modes, run)[at.x.req]
    ensures Story(modes, run, g, AttemptStep(s.sh, g, c, phase, at, Chosen(run)).pc)
  {
    var pc, x := AttemptStep(s.sh, g, c, phase, at, Chosen(run)).pc, at.x;
    WaitStory(modes, run, g, c, phase, at);
    EarlyVerdicts(modes, run, g, c, true);
    hide Story, Now, Asked, Torn, Verdict, After, Current, Made, Owns, Awaits, LastSent, Answers, Abandon,
         EndVerdict;
    if pc.Calling? {
      FinishStory(modes, run, g, c, Abandoned);
    } else if pc.att.AtDrain? {
      if phase.Attempt? {
        ReplyVerdict(modes, run, g, c, x.req, s.sh.chans[x.chan].value.reply, phase.again);
      }
      DrainStory(modes, run, g, c, phase, pc.att);
    } else {
      WaitStory(modes, run, g, c, phase, pc.att);
    }
  }

  // A step of an attempt that is not the sending one
  lemma AttemptOn(modes: seq<Mode>, run: seq<Action>, g: Gid, s: State, c: Call, phase: Phase, at: AttAt)
    requires Now(modes, run, g, s) && Story(modes, run, g, Attempting(c, phase, at))
    requires AttemptInv(s.sh, g, c, phase, at)
    requires After(modes, run) == AttemptStep(s.sh, g, c, phase, at, Chosen(run)).sh
    requires Waits(at) && at.x.chan in s.sh.chans && s.sh.chans[at.x.chan].Some? ==>
               && at.x.req in Answers(modes, run)
               && s.sh.chans[at.x.chan].value.reply == Answers(modes, run)[at.x.req]
    requires var pc := AttemptStep(s.sh, g, c, phase, at, Chosen(run)).pc;
             !(phase.Attempt? && at.AtSend? && pc.Attempting? && pc.att.AtWait?)
    ensures Story(modes, run, g, AttemptStep(s.sh, g, c, phase, at, Chosen(run)).pc)
  {
    var sh, choice := s.sh, Chosen(run);
    hide Story, Now, After, Answers, EndVerdict, Torn, Asked, AfterAttempt;
    if at.AtDrain? {
      DrainStory(modes, run, g, c, phase, at);
      DrainStory(modes, run, g, c, phase, AtPut(at.chan, at.end));
    } else if at.AtPut? {
      DrainStory(modes, run, g, c, phase, at);
      AfterStory(modes, run, g, c, phase, at.end);
    } else if Waits(at) {
      AttemptWaits(modes, run, g, s, c, phase, at);
    } else {
      hide AttemptStep;
      EarlyMoves(sh, g, c, phase, at, choice);
      AttemptEarly(modes, run, g, sh, c, phase, at, AttemptStep(sh, g, c, phase, at, choice).pc);
    }
  }

  // The sending step of the call's own attempt
  lemma SendStory(modes: seq<Mode>, run: seq<Action>, a: Action, g: Gid)
    requires var s := Exec(Init(modes), run); !Starts(s, a, g) && Sends(s, a, g).Some?
    requires Story(modes, run, g, PcAfter(modes, run, g))
    ensures Story(modes, Snoc(run, a), g, PcAfter(modes, Snoc(run, a), g))
  {
    var next, pc, s := Snoc(run, a), PcAfter(modes, run, g), Exec(Init(modes), run);
    SnocExec(modes, run, a);
    assert LastSent(modes, next, g) == Some(Sent(|run|, pc.att.x.req));
    PartsCarry(modes, run, a, g);
    AskedCarries(modes, run, a, g);
    SendsOn(s.sh, g, pc, a.choice);
    hide Asked, Torn, Starts, Sends, LastSent, Verdict, GoStep;
    assert AttemptStory(modes, next, g, pc.c, pc.phase.again, AtWait(pc.att.x));
  }

  lemma SendsOn(sh: Shared, g: Gid, pc: Pc, choice: Choice)
    requires pc.Attempting? && pc.att.AtSend?
    ensures var next := GoStep(sh, g, pc, choice).pc;
            next.Attempting? && next.c == pc.c && next.phase == pc.phase
            && (next.att.AtWait? ==> next.att == AtWait(pc.att.x))
  {
  }

  lemma StartStory(modes: seq<Mode>, run: seq<Action>, a: Action, g: Gid)
    requires g.Caller? && Starts(Exec(Init(modes), run), a, g)
    ensures Story(modes, Snoc(run, a), g, PcAfter(modes, Snoc(run, a), g))
  {
    var next, s := Snoc(run, a), Exec(Init(modes), run);
    SnocExec(modes, run, a);
    RunKeeps(modes, run);
    assert Began(modes, next, g) == |run|;
    assert next[..|run| + 1] == next;
    if a.choice.Begin? {
      BeginOwns(s.sh, g, a.choice.ctx, a.choice.pooled);
    }
  }

  lemma BeginOwns(sh: Shared, g: Gid, ctx: Option<nat>, pooled: Option<nat>)
    requires SharedInv(sh)
    ensures var next := BeginCall(sh, g, ctx, pooled);
            next.pc.Calling? ==>
              && next.pc == Calling(next.pc.c, NeedLock) && next.pc.c.ctx == ctx && next.pc.c.deadline == sh.nextTime
              && Owns(next.sh, g, next.pc.c.buf) && !Owns(sh, g, next.pc.c.buf)
    ensures BeginCall(sh, g, ctx, pooled).pc.Calling? || BeginCall(sh, g, ctx, pooled).pc.Idle?
  {
    assert BufOk(sh, sh.nextBuf);
    if pooled.Some? { assert BufOk(sh, pooled.value); }
  }

  lemma GoTaken(s: State, a: Action, g: Gid)
    requires IsStep(a, g) && g.Caller?
    ensures var next := GoStep(s.sh, g, PcOf(s, g), a.choice);
            Step(s, a).sh == next.sh && PcOf(Step(s, a), g) == next.pc
  {
  }

  lemma OthersKeepTheirPc(s: State, a: Action, g: Gid)
    requires g.Caller? && !IsStep(a, g)
    ensures PcOf(Step(s, a), g) == PcOf(s, g)
  {
  }

  lemma {:induction false} BeganWithin(modes: seq<Mode>, run: seq<Action>, g: Gid)
    ensures run != [] ==> Began(modes, run, g) < |run|
  {
    if |run| > 1 { BeganWithin(modes, run[..|run| - 1], g); }
  }

  lemma NowIs(modes: seq<Mode>, run: seq<Action>, a: Action, g: Gid)
    requires IsStep(a, g)
    ensures Now(modes, Snoc(run, a), g, Exec(Init(modes), run)) && Chosen(Snoc(run, a)) == a.choice
  {
    BeganWithin(modes, Snoc(run, a), g);
    assert Snoc(run, a)[..|run| + 1] == Snoc(run, a);
  }

  lemma OwnStep(modes: seq<Mode>, run: seq<Action>, a: Action, g: Gid)
    requires g.Caller? && IsStep(a, g)
    requires var s := Exec(Init(modes), run); !Starts(s, a, g) && Sends(s, a, g).None?
    requires Story(modes, Snoc(run, a), g, PcAfter(modes, run, g))
    ensures Story(modes, Snoc(run, a), g, PcAfter(modes, Snoc(run, a), g))
  {
    var next, s, pc := Snoc(run, a), Exec(Init(modes), run), PcAfter(modes, run, g);
    SnocExec(modes, run, a);
    GoTaken(s, a, g);
    NowIs(modes, run, a, g);
    RunKeeps(modes, run);
    assert PcInv(s.sh, g, pc);
    NoReply(modes, run, a);
    hide Story, Now, Step, CallStep, AttemptStep, CloseStep, Inv, SharedInv, CallInv, AttemptInv, CloseInv;
    match pc
    case Idle => IdleStory(modes, next, g);
    case Returned(_) => IdleStory(modes, next, g);
    case Calling(c, at) => CallStory(modes, next, g, s, c, at);
    case Attempting(c, phase, at) =>
      if Waits(at) && at.x.chan in s.sh.chans && s.sh.chans[at.x.chan].Some? {
        Receives(modes, run, g, at.x);
      }
      AttemptOn(modes, next, g, s, c, phase, at);
    case Closing(w, back, why, at) => CloseStory(modes, next, g, s, w, back, why, at);
    case Supervising(_, _) => SupervisingStory(modes, next, g, s.sh, pc, a.choice);
  }

  lemma IdleStory(modes: seq<Mode>, run: seq<Action>, g: Gid)
    ensures Story(modes, run, g, Idle)
  {
  }

  lemma SupervisingStory(modes: seq<Mode>, run: seq<Action>, g: Gid, sh: Shared, pc: Pc, choice: Choice)
    requires pc.Supervising?
    ensures Story(modes, run, g, GoStep(sh, g, pc, choice).pc)
  {
  }

  lemma NoReply(modes: seq<Mode>, run: seq<Action>, a: Action)
    requires a.Go?
    ensures Answers(modes, Snoc(run, a)) == Answers(modes, run)
  {
  }

  /** Every step keeps the story of every caller. */
  lemma StoryStep(modes: seq<Mode>, run: seq<Action>, a: Action, g: Gid)
    requires g.Caller? && Story(modes, run, g, PcAfter(modes, run, g))
    ensures Story(modes, Snoc(run, a), g, PcAfter(modes, Snoc(run, a), g))
  {
    hide Story, Step;
    var s := Exec(Init(modes), run);
    if Starts(s, a, g) {
      StartStory(modes, run, a, g);
    } else if Sends(s, a, g).Some? {
      SendStory(modes, run, a, g);
    } else {
      StoryCarries(modes, run, a, g, PcAfter(modes, run, g));
      if IsStep(a, g) {
        OwnStep(modes, run, a, g);
      } else {
        OthersKeepTheirPc(s, a, g);
        SnocExec(modes, run, a);
      }
    }
  }

  lemma {:induction false} Stories(modes: seq<Mode>, run: seq<Action>, g: Gid)
    requires g.Caller?
    ensures Story(modes, run, g, PcAfter(modes, run, g))
  {
    hide Story;
    if run == [] {
      IdleStory(modes, run, g);
    } else {
      var front, a := run[..|run| - 1], run[|run| - 1];
      Stories(modes, front, g);
      StoryStep(modes, front, a, g);
      assert Snoc(front, a) == run;
    }
  }

  // ---------------------------------------------------------------- theorems

  lemma FailedAreAnswered(modes: seq<Mode>, run: seq<Action>)
    ensures forall req :: req in After(modes, run).failed <==>
              req in Answers(modes, run) && Answers(modes, run)[req].ReplyError?
  {
    HistoryKept(modes, run);
  }

  /**
   What `execute` returns. Completed: the last request of the call was answered well, and after it
   the call found its context not ended. A failed
   or cancelled exchange: it was answered so, and the call handed it over only after it had
   torn its worker down for an earlier failure. Timed out: it was answered, and the call's own
   deadline had passed. Never started: the deadline had passed, after a teardown too. Ended or
   abandoned: the call's own context had ended. A failed start or restart: a step of the call
   met that failure. Unless it was abandoned, the call put back the buffer it began with.
   */
  lemma ReturnedMeans(modes: seq<Mode>, run: seq<Action>, g: Gid) returns (c: Call)
    requires g.Caller? && PcAfter(modes, run, g).Returned? && !AskedClose(modes, run, g)
    ensures Asked(modes, run, g, c)
    ensures var out, sh, sent := PcAfter(modes, run, g).out, After(modes, run), LastSent(modes, run, g);
            && (out.Completed? || out.ExchangeFailed? || out.ExchangeCanceled? || out.TimedOut? ==>
                  sent.Some? && sent.value.req in Answers(modes, run))
            && (out.Completed? ==> Answers(modes, run)[sent.value.req] == ReplyOk && Unended(modes, run, g, c))
            && (out.ExchangeFailed? ==>
                  Answers(modes, run)[sent.value.req] == ReplyError && sent.value.req in sh.failed)
            && (out.ExchangeCanceled? ==> Answers(modes, run)[sent.value.req] == ReplyCanceled)
            && (out.ExchangeFailed? || out.ExchangeCanceled? || out.TimedOut? ==>
                  Torn(modes, run, g, sent.value.step))
            && (out.TimedOut? || out.NeverStarted? ==> c.deadline in sh.expired)
            && (out.NeverStarted? ==> Torn(modes, run, g, |run|))
            && (out.ContextEnded? || out.Abandoned? ==> c.ctx.Some? && c.ctx.value in sh.cancelled)
            && (out.StartFailed? || out.RestartFailed? ==> Met(modes, run, g))
            && (out.RestartFailed? ==> Torn(modes, run, g, |run|))
            && (!out.Abandoned? ==> PutBack(modes, run, g, c.buf))
  {
    hide PcAfter, After, Torn, Met, PutBack, Asked, LastSent, Answers, AskedClose, Unended;
    var out := PcAfter(modes, run, g).out;
    Stories(modes, run, g);
    c :| Returns(modes, run, g, c, out);
    FailedAreAnswered(modes, run);
  }

  /** A first attempt whose request was answered with an error ends in the teardown of its worker. */
  lemma FailedFirstAttemptTearsDown(modes: seq<Mode>, run: seq<Action>, g: Gid, choice: Choice)
    requires var pc := PcAfter(modes, run, g);
             && g.Caller? && pc.Attempting? && pc.phase == Attempt(false) && pc.att.AtPut?
             && pc.att.end.handed.Some? && pc.att.end.handed.value in After(modes, run).failed
    ensures var pc := PcAfter(modes, run, g);
            GoStep(After(modes, run), g, pc, choice).pc ==
            Closing(pc.c.w, Some(pc.c), OnFailure(pc.att.end, pc.c.ctx, pc.c.deadline), StopLoop)
  {
    var pc := PcAfter(modes, run, g);
    Stories(modes, run, g);
    FailedAreAnswered(modes, run);
    hide After, LastSent, Answers, Torn, Met, Asked, PcAfter;
    DrainStory(modes, run, g, pc.c, pc.phase, pc.att);
  }
}
