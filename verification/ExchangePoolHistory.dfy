/**
 Histories of the exchange pool, read off the run: the reply each request got, the step at
 which a caller's latest call began, and the request that call handed over last. A request is
 answered at most once, and what waits in a channel is the answer its request got.
 */
module ExchangePoolHistory {
  import opened Common
  import opened ExchangePool
  import opened ExchangePoolProofs
  import opened ExchangePoolTheorems

  function PcAfter(modes: seq<Mode>, run: seq<Action>, g: Gid): Pc { PcOf(Exec(Init(modes), run), g) }

  predicate IsStep(a: Action, g: Gid) { a.Go? && a.g == g }

  // The step takes g out of Idle.
  predicate Starts(s: State, a: Action, g: Gid)
  {
    IsStep(a, g) && PcOf(s, g).Idle? && !PcOf(Step(s, a), g).Idle?
  }

  // The request that the step hands over for an attempt of g's own
  function Sends(s: State, a: Action, g: Gid): Option<nat>
  {
    var pc, pc' := PcOf(s, g), PcOf(Step(s, a), g);
    if IsStep(a, g) && pc.Attempting? && pc.phase.Attempt? && pc.att.AtSend? && pc'.Attempting? && pc'.att.AtWait? then
      Some(pc.att.x.req)
    else None
  }

  // The result that the step puts into a channel
  function Replies(s: State, a: Action): Option<Result>
  {
    if a.LoopGo? && a.l in s.sh.loops && s.sh.loops[a.l].at.Replying? && Step(s, a) != s then
      Some(Result(s.sh.loops[a.l].at.r.id, s.sh.loops[a.l].at.reply))
    else None
  }

  // The step that began the latest call of g
  function Began(modes: seq<Mode>, run: seq<Action>, g: Gid): nat
  {
    if run == [] then 0
    else
      var front := run[..|run| - 1];
      if Starts(Exec(Init(modes), front), run[|run| - 1], g) then |front| else Began(modes, front, g)
  }

  datatype Sent = Sent(step: nat, req: nat)

  // The last request that the latest call of g handed over for itself, and when
  function LastSent(modes: seq<Mode>, run: seq<Action>, g: Gid): Option<Sent>
  {
    if run == [] then None
    else
      var front, a := run[..|run| - 1], run[|run| - 1];
      var s := Exec(Init(modes), front);
      if Starts(s, a, g) then None
      else if Sends(s, a, g).Some? then Some(Sent(|front|, Sends(s, a, g).value))
      else LastSent(modes, front, g)
  }

  // The child's response to the request that loop l served last
  function Given(modes: seq<Mode>, run: seq<Action>, l: nat): Reply
  {
    if run == [] then ReplyOk
    else
      var front, a := run[..|run| - 1], run[|run| - 1];
      var loops := After(modes, front).loops;
      if a.LoopGo? && a.l == l && a.lc.Respond? && l in loops && loops[l].at.Serving?
         && After(modes, run) != After(modes, front) then a.lc.reply
      else Given(modes, front, l)
  }

  // What the child responded to each answered request
  function Answers(modes: seq<Mode>, run: seq<Action>): map<nat, Reply>
  {
    if run == [] then map[]
    else
      var front, a := run[..|run| - 1], run[|run| - 1];
      var r := Replies(Exec(Init(modes), front), a);
      if r.Some? then Answers(modes, front)[r.value.req := Given(modes, front, a.l)] else Answers(modes, front)
  }

  // Step m is one of the latest call of g.
  predicate Mine(modes: seq<Mode>, run: seq<Action>, g: Gid, m: nat)
  {
    Began(modes, run, g) <= m < |run| && IsStep(run[m], g)
  }

  // The state in front of step m
  function Before(modes: seq<Mode>, run: seq<Action>, m: nat): State
  {
    Exec(Init(modes), if m <= |run| then run[..m] else run)
  }

  function Snoc(run: seq<Action>, a: Action): (next: seq<Action>)
    ensures |next| == |run| + 1 && next[..|run|] == run && next[|run|] == a
  {
    run + [a]
  }

  // ---------------------------------------------------------------- one answer a request

  // Answers agree with the uses of channels and with the failed requests.
  ghost predicate AnswersOk(sh: Shared, answers: map<nat, Reply>)
  {
    && (forall c :: c in sh.use && sh.use[c].Out? ==> sh.use[c].req !in answers)
    && (forall c :: c in sh.use && sh.use[c].Answered? ==>
          && sh.use[c].req in answers && c in sh.chans
          && sh.chans[c] == Some(Result(sh.use[c].req, answers[sh.use[c].req])))
    && (forall req :: req in answers ==> req in sh.hands)
    && (forall req :: req in sh.failed <==> req in answers && answers[req].ReplyError?)
  }

  predicate Unsent(pc: Pc, answers: map<nat, Reply>)
  {
    pc.Attempting? && pc.att.AtSend? ==> pc.att.x.req !in answers
  }

  // How a goroutine step moves the uses: what is out was out or is just being sent.
  ghost predicate Moved(a: Shared, b: Shared, pc: Pc)
  {
    && (forall c :: c in b.use && b.use[c].Out? ==>
          || (c in a.use && a.use[c].Out? && a.use[c].req == b.use[c].req)
          || (pc.Attempting? && pc.att.AtSend? && b.use[c].req == pc.att.x.req))
    && (forall c :: c in b.use && b.use[c].Answered? ==>
          && c in a.use && a.use[c].Answered? && a.use[c].req == b.use[c].req
          && c in a.chans && c in b.chans && a.chans[c] == b.chans[c])
    && b.failed == a.failed
  }

  lemma AnsweredIsThere(sh: Shared)
    requires SharedInv(sh)
    ensures forall d :: d in sh.use && sh.use[d].Answered? ==> d in sh.chans
  {
    forall d | d in sh.use && sh.use[d].Answered? ensures d in sh.chans { assert ChanOk(sh, d); }
  }

  lemma AbandonMoves(sh: Shared, g: Gid, x: Exchange, pc: Pc)
    requires SharedInv(sh) && Awaits(sh, g, x)
    ensures Moved(sh, Abandon(sh, x), pc)
  {
    AnsweredIsThere(sh);
    hide SharedInv;
    var b := Abandon(sh, x);
    assert forall d :: d != x.chan && d in b.use ==> d in sh.use && b.use[d] == sh.use[d];
  }

  lemma SendMoves(sh: Shared, g: Gid, x: Exchange, pc: Pc)
    requires SharedInv(sh) && x.lid in sh.loops && pc.Attempting? && pc.att == AtSend(x)
    ensures Moved(sh, HandOver(sh, g, x), pc)
  {
    AnsweredIsThere(sh);
    hide SharedInv;
  }

  lemma SameMoves(sh: Shared, b: Shared, pc: Pc)
    requires SharedInv(sh) && b.failed == sh.failed && b.use == sh.use && b.chans == sh.chans
    ensures Moved(sh, b, pc)
  {
    AnsweredIsThere(sh);
    hide SharedInv;
  }

  // One channel is emptied, and every other is left as it was.
  lemma EmptyMoves(sh: Shared, b: Shared, chan: nat, g: Gid, pc: Pc)
    requires SharedInv(sh) && b.failed == sh.failed
    requires b.use == sh.use[chan := Held(g)] || b.use == sh.use[chan := Pooled] || b.use == sh.use
    requires b.chans == sh.chans[chan := None] || b.chans == sh.chans
    requires b.use == sh.use ==> b.chans == sh.chans || (chan in sh.use && !sh.use[chan].Answered?)
    ensures Moved(sh, b, pc)
  {
    AnsweredIsThere(sh);
    hide SharedInv;
  }

  lemma CallMoves(sh: Shared, g: Gid, c: Call, at: CallAt, choice: Choice, pc: Pc)
    requires SharedInv(sh)
    ensures Moved(sh, CallStep(sh, g, c, at, choice).sh, pc)
  {
    hide SharedInv, Moved;
    SameMoves(sh, CallStep(sh, g, c, at, choice).sh, pc);
  }

  lemma CloseMoves(sh: Shared, g: Gid, w: nat, c: Option<Call>, why: Why, at: CloseAt, choice: Choice, pc: Pc)
    requires SharedInv(sh)
    ensures Moved(sh, CloseStep(sh, g, w, c, why, at, choice).sh, pc)
  {
    hide SharedInv, Moved;
    SameMoves(sh, CloseStep(sh, g, w, c, why, at, choice).sh, pc);
  }

  lemma KillMoves(sh: Shared, pid: Option<nat>, cause: Cause, pc: Pc)
    requires SharedInv(sh)
    ensures Moved(sh, Killed(sh, pid, cause), pc)
  {
    hide SharedInv, Moved;
    SameMoves(sh, Killed(sh, pid, cause), pc);
  }

  lemma TakeMoves(sh: Shared, g: Gid, c: Call, phase: Phase, lid: nat, pid: Option<nat>, choice: Choice, pc: Pc)
    requires SharedInv(sh)
    ensures Moved(sh, TakeChannel(sh, g, c, phase, lid, pid, choice).sh, pc)
  {
    hide SharedInv, Moved;
    var chan := if choice.FromPool? then choice.chan else sh.nextChan;
    EmptyMoves(sh, TakeChannel(sh, g, c, phase, lid, pid, choice).sh, chan, g, pc);
  }

  lemma AttemptMoves(sh: Shared, g: Gid, c: Call, phase: Phase, at: AttAt, choice: Choice)
    requires SharedInv(sh) && AttemptInv(sh, g, c, phase, at)
    ensures Moved(sh, AttemptStep(sh, g, c, phase, at, choice).sh, Attempting(c, phase, at))
  {
    hide SharedInv, Moved, TakeChannel, AfterAttempt, Killed;
    var b, pc := AttemptStep(sh, g, c, phase, at, choice), Attempting(c, phase, at);
    match at
    case AtContext => SameMoves(sh, b.sh, pc);
    case AtLoop => SameMoves(sh, b.sh, pc);
    case AtChan(lid, pid) => TakeMoves(sh, g, c, phase, lid, pid, choice, pc);
    case AtSend(x) =>
      if b.sh == sh { SameMoves(sh, sh, pc); } else { SendMoves(sh, g, x, pc); }
    case AtWait(x) =>
      if b.spawn.Some? { AbandonMoves(sh, g, x, pc); } else { EmptyMoves(sh, b.sh, x.chan, g, pc); }
    case AtKill(x) => KillMoves(sh, x.pid, AttemptDeadline(x.req), pc);
    case AtSettle(x) => EmptyMoves(sh, b.sh, x.chan, g, pc);
    case AtDrain(chan, end) => EmptyMoves(sh, b.sh, chan, g, pc);
    case AtPut(chan, end) => EmptyMoves(sh, b.sh, chan, g, pc);
  }

  lemma SuperviseMoves(sh: Shared, g: Gid, x: Exchange, at: SupAt, choice: Choice)
    requires SharedInv(sh) && SupInv(sh, g, x, at)
    ensures Moved(sh, SuperviseStep(sh, g, x, at, choice).sh, Supervising(x, at))
  {
    hide SharedInv, Moved;
    EmptyMoves(sh, SuperviseStep(sh, g, x, at, choice).sh, x.chan, g, Supervising(x, at));
  }

  lemma BeginSame(sh: Shared, g: Gid, ctx: Option<nat>, pooled: Option<nat>)
    ensures var b := BeginCall(sh, g, ctx, pooled).sh;
            b.use == sh.use && b.chans == sh.chans && b.failed == sh.failed
  {
  }

  lemma IdleMoves(sh: Shared, g: Gid, pc: Pc, choice: Choice)
    requires SharedInv(sh) && (pc.Idle? || pc.Returned?)
    ensures Moved(sh, GoStep(sh, g, pc, choice).sh, pc)
  {
    hide SharedInv, Moved, BeginCall;
    if choice.Begin? { BeginSame(sh, g, choice.ctx, choice.pooled); }
    SameMoves(sh, GoStep(sh, g, pc, choice).sh, pc);
  }

  lemma GoMoves(sh: Shared, g: Gid, pc: Pc, choice: Choice)
    requires SharedInv(sh) && PcInv(sh, g, pc)
    ensures Moved(sh, GoStep(sh, g, pc, choice).sh, pc)
  {
    hide SharedInv, Moved, CallStep, CloseStep, AttemptStep, SuperviseStep, CallInv, CloseInv, AttemptInv, SupInv;
    match pc
    case Idle => IdleMoves(sh, g, pc, choice);
    case Returned(_) => IdleMoves(sh, g, pc, choice);
    case Calling(c, at) => CallMoves(sh, g, c, at, choice, pc);
    case Attempting(c, phase, at) => AttemptMoves(sh, g, c, phase, at, choice);
    case Closing(w, back, why, at) => CloseMoves(sh, g, w, back, why, at, choice, pc);
    case Supervising(x, at) => SuperviseMoves(sh, g, x, at, choice);
  }

  lemma GoAnswers(sh: Shared, g: Gid, pc: Pc, choice: Choice, answers: map<nat, Reply>)
    requires SharedInv(sh) && PcInv(sh, g, pc) && AnswersOk(sh, answers) && Unsent(pc, answers)
    requires Grows(sh, GoStep(sh, g, pc, choice).sh)
    ensures AnswersOk(GoStep(sh, g, pc, choice).sh, answers)
  {
    hide SharedInv, GoStep, PcInv;
    GoMoves(sh, g, pc, choice);
  }

  // A step of loop l that sends its reply, or does not.
  lemma LoopAnswers(sh: Shared, l: nat, lc: LoopChoice, answers: map<nat, Reply>)
    requires SharedInv(sh) && AnswersOk(sh, answers)
    ensures var b := LoopStep(sh, l, lc);
            AnswersOk(b, if l in sh.loops && sh.loops[l].at.Replying? && b != sh then
                        answers[sh.loops[l].at.r.id := sh.loops[l].at.reply]
                      else answers)
  {
    var b := LoopStep(sh, l, lc);
    if l in sh.loops && sh.loops[l].at.Replying? && b != sh {
      ReplyAnswers(sh, l, answers);
    } else if l in sh.loops && !sh.loops[l].at.Replying? {
      QuietLoop(sh, l, lc, answers);
    }
  }

  lemma QuietLoop(sh: Shared, l: nat, lc: LoopChoice, answers: map<nat, Reply>)
    requires l in sh.loops && !sh.loops[l].at.Replying? && AnswersOk(sh, answers)
    ensures AnswersOk(LoopStep(sh, l, lc), answers)
  {
  }

  lemma ReplyAnswers(sh: Shared, l: nat, answers: map<nat, Reply>)
    requires SharedInv(sh) && AnswersOk(sh, answers) && l in sh.loops && sh.loops[l].at.Replying?
    ensures var r, reply := sh.loops[l].at.r, sh.loops[l].at.reply;
            r.id !in answers && AnswersOk(Answer(sh, l, r, reply), answers[r.id := reply])
  {
    var r, reply := sh.loops[l].at.r, sh.loops[l].at.reply;
    assert LoopOk(sh, l);
    assert ChanOk(sh, r.chan);
    forall c | c in sh.use && c != r.chan && (sh.use[c].Out? || sh.use[c].Answered?)
      ensures sh.use[c].req != r.id
    {
      assert ChanOk(sh, c);
    }
  }

  // A request not yet sent is not the one a loop is answering.
  lemma UnsentStays(sh: Shared, g: Gid, pc: Pc, l: nat)
    requires SharedInv(sh) && PcInv(sh, g, pc) && pc.Attempting? && pc.att.AtSend?
    requires l in sh.loops && sh.loops[l].at.Replying?
    ensures pc.att.x.req != sh.loops[l].at.r.id
  {
    assert LoopOk(sh, l);
    assert ChanOk(sh, sh.loops[l].at.r.chan);
  }

  // A request just made is not answered.
  lemma NewIsUnsent(sh: Shared, g: Gid, pc: Pc, choice: Choice, answers: map<nat, Reply>)
    requires SharedInv(sh) && AnswersOk(sh, answers) && Unsent(pc, answers)
    ensures Unsent(GoStep(sh, g, pc, choice).pc, answers)
  {
    assert sh.nextReq !in sh.hands;
    hide CallStep, CloseStep, SuperviseStep;
    match pc
    case Attempting(c, phase, at) =>
    case Calling(c, at) => NotSending(sh, g, pc, choice);
    case Closing(_, _, _, _) => NotSending(sh, g, pc, choice);
    case Supervising(_, _) => NotSending(sh, g, pc, choice);
    case _ =>
  }

  lemma NotSending(sh: Shared, g: Gid, pc: Pc, choice: Choice)
    requires pc.Calling? || pc.Closing? || pc.Supervising?
    ensures var next := GoStep(sh, g, pc, choice).pc; !(next.Attempting? && next.att.AtSend?)
  {
  }

  ghost predicate HistoryOk(s: State, answers: map<nat, Reply>)
  {
    AnswersOk(s.sh, answers) && forall g: Gid :: Unsent(PcOf(s, g), answers)
  }

  function WithReply(s: State, a: Action, answers: map<nat, Reply>): map<nat, Reply>
  {
    var r := Replies(s, a); if r.Some? then answers[r.value.req := r.value.reply] else answers
  }

  lemma HistoryStep(s: State, a: Action, answers: map<nat, Reply>)
    requires Inv(s) && HistoryOk(s, answers)
    ensures HistoryOk(Step(s, a), WithReply(s, a, answers))
    ensures Replies(s, a).Some? ==> Replies(s, a).value.req !in answers
  {
    hide SharedInv, PcInv, GoStep, LoopStep, AnswersOk;
    StepGrows(s, a);
    match a
    case Go(g, choice) =>
      var pc := PcOf(s, g);
      assert PcInv(s.sh, g, pc) && Unsent(pc, answers);
      GoAnswers(s.sh, g, pc, choice, answers);
      NewIsUnsent(s.sh, g, pc, choice, answers);
      forall h: Gid ensures Unsent(PcOf(Step(s, a), h), answers) { assert Unsent(PcOf(s, h), answers); }
    case LoopGo(l, lc) =>
      LoopAnswers(s.sh, l, lc, answers);
      if Replies(s, a).Some? {
        ReplyAnswers(s.sh, l, answers);
        forall h: Gid
          ensures Unsent(PcOf(Step(s, a), h), WithReply(s, a, answers))
        {
          assert Unsent(PcOf(s, h), answers) && PcInv(s.sh, h, PcOf(s, h));
          if PcOf(s, h).Attempting? && PcOf(s, h).att.AtSend? { UnsentStays(s.sh, h, PcOf(s, h), l); }
        }
      } else {
        forall h: Gid ensures Unsent(PcOf(Step(s, a), h), answers) { assert Unsent(PcOf(s, h), answers); }
      }
    case Cancel(_) => EnvAnswers(s, a, answers);
    case Expire(_) => EnvAnswers(s, a, answers);
  }

  lemma EnvAnswers(s: State, a: Action, answers: map<nat, Reply>)
    requires (a.Cancel? || a.Expire?) && HistoryOk(s, answers)
    ensures HistoryOk(Step(s, a), answers)
  {
    forall h: Gid ensures Unsent(PcOf(Step(s, a), h), answers) { assert Unsent(PcOf(s, h), answers); }
  }

  // A goroutine never moves a loop, and a new loop waits.
  predicate LoopsStay(a: Shared, b: Shared)
  {
    forall l :: l in b.loops ==> b.loops[l].at.Waiting? || (l in a.loops && b.loops[l].at == a.loops[l].at)
  }

  lemma AttemptLoopsStay(sh: Shared, g: Gid, c: Call, phase: Phase, at: AttAt, choice: Choice)
    ensures LoopsStay(sh, AttemptStep(sh, g, c, phase, at, choice).sh)
  {
  }

  lemma CloseLoopsStay(sh: Shared, g: Gid, w: nat, c: Option<Call>, why: Why, at: CloseAt, choice: Choice)
    ensures LoopsStay(sh, CloseStep(sh, g, w, c, why, at, choice).sh)
  {
  }

  lemma CallLoopsStay(sh: Shared, g: Gid, c: Call, at: CallAt, choice: Choice)
    ensures CallStep(sh, g, c, at, choice).sh.loops == sh.loops
  {
  }

  lemma SuperviseLoopsStay(sh: Shared, g: Gid, x: Exchange, at: SupAt, choice: Choice)
    ensures SuperviseStep(sh, g, x, at, choice).sh.loops == sh.loops
  {
  }

  lemma BeginLoopsStay(sh: Shared, g: Gid, ctx: Option<nat>, pooled: Option<nat>)
    ensures BeginCall(sh, g, ctx, pooled).sh.loops == sh.loops
  {
  }

  lemma GoLoopsStay(sh: Shared, g: Gid, pc: Pc, choice: Choice)
    ensures LoopsStay(sh, GoStep(sh, g, pc, choice).sh)
  {
    hide AttemptStep, CloseStep, CallStep, SuperviseStep, BeginCall;
    match pc
    case Idle => if choice.Begin? { BeginLoopsStay(sh, g, choice.ctx, choice.pooled); }
    case Returned(_) =>
    case Calling(c, at) => CallLoopsStay(sh, g, c, at, choice);
    case Attempting(c, phase, at) => AttemptLoopsStay(sh, g, c, phase, at, choice);
    case Closing(w, back, why, at) => CloseLoopsStay(sh, g, w, back, why, at, choice);
    case Supervising(x, at) => SuperviseLoopsStay(sh, g, x, at, choice);
  }

  // A loop that now replies did so before, or its child just responded.
  predicate Responds(s: State, a: Action, l: nat)
  {
    var b := Step(s, a).sh;
    l in b.loops && b.loops[l].at.Replying? ==>
      && l in s.sh.loops
      && (|| b.loops[l].at == s.sh.loops[l].at
          || (a.LoopGo? && a.l == l && a.lc == Respond(b.loops[l].at.reply) && s.sh.loops[l].at.Serving? && b != s.sh))
      && (a.LoopGo? && a.l == l && a.lc.Respond? && s.sh.loops[l].at.Serving? && b != s.sh ==>
            a.lc.reply == b.loops[l].at.reply)
  }

  lemma LoopReplies(sh: Shared, k: nat, lc: LoopChoice, l: nat)
    ensures var b := LoopStep(sh, k, lc);
            l in b.loops && b.loops[l].at.Replying? ==>
              && l in sh.loops
              && (|| (b.loops[l].at == sh.loops[l].at)
                  || (k == l && lc == Respond(b.loops[l].at.reply) && sh.loops[l].at.Serving?))
  {
  }

  lemma LoopResponds(s: State, a: Action, l: nat)
    requires a.LoopGo?
    ensures Responds(s, a, l)
  {
    hide LoopStep;
    LoopReplies(s.sh, a.l, a.lc, l);
  }

  lemma StepResponds(s: State, a: Action, l: nat)
    ensures Responds(s, a, l)
  {
    hide GoStep, LoopStep;
    if a.LoopGo? {
      LoopResponds(s, a, l);
    } else if a.Go? {
      GoLoopsStay(s.sh, a.g, PcOf(s, a.g), a.choice);
    }
  }

  /** A loop replies what its child responded. */
  lemma {:induction false} ReplyIsGiven(modes: seq<Mode>, run: seq<Action>, l: nat)
    ensures var loops := After(modes, run).loops;
            l in loops && loops[l].at.Replying? ==> loops[l].at.reply == Given(modes, run, l)
  {
    if run != [] {
      var front, a := run[..|run| - 1], run[|run| - 1];
      ReplyIsGiven(modes, front, l);
      StepResponds(Exec(Init(modes), front), a, l);
      hide Step;
      assert After(modes, run) == Step(Exec(Init(modes), front), a).sh;
    }
  }

  lemma RepliesGiven(modes: seq<Mode>, run: seq<Action>, a: Action)
    ensures var r := Replies(Exec(Init(modes), run), a); r.Some? ==> r.value.reply == Given(modes, run, a.l)
  {
    hide Step, Given;
    if a.LoopGo? { ReplyIsGiven(modes, run, a.l); }
  }

  /**
   After every run, no request that is still to be sent or still out has an answer, what waits
   in a channel is the answer of its own request, and the failed requests are those answered
   with an error.
   */
  lemma {:induction false} HistoryKept(modes: seq<Mode>, run: seq<Action>)
    ensures HistoryOk(Exec(Init(modes), run), Answers(modes, run))
  {
    if run != [] {
      var front := run[..|run| - 1];
      HistoryKept(modes, front);
      RunKeeps(modes, front);
      HistoryStep(Exec(Init(modes), front), run[|run| - 1], Answers(modes, front));
      RepliesGiven(modes, front, run[|run| - 1]);
    }
  }

  /** No step ever answers a request again. */
  lemma AnsweredOnce(modes: seq<Mode>, run: seq<Action>, a: Action)
    ensures var r := Replies(Exec(Init(modes), run), a); r.Some? ==> r.value.req !in Answers(modes, run)
    ensures forall req :: req in Answers(modes, run) ==>
              && req in Answers(modes, Snoc(run, a))
              && Answers(modes, Snoc(run, a))[req] == Answers(modes, run)[req]
  {
    hide Replies, Inv, HistoryOk;
    HistoryKept(modes, run);
    RunKeeps(modes, run);
    HistoryStep(Exec(Init(modes), run), a, Answers(modes, run));
    hide Given;
    assert Snoc(run, a)[..|run|] == run;
  }
}
