/**
 What a goroutine holds is what its place in the call calls for, over every interleaving: no
 worker lock and no completion channel outlives the call, the close or the supervisor that took it.
 */
module ExchangePoolHoldings {
  import opened Common
  import opened ExchangePool
  import opened ExchangePoolProofs
  import opened ExchangePoolTheorems
  import opened ExchangePoolHistory

  // The worker whose lock a goroutine has at pc
  function LockAt(pc: Pc): Option<nat>
  {
    match pc
    case Calling(c, at) => if at.NeedLock? || at.PutBuffer? then None else Some(c.w)
    case Attempting(c, _, _) => Some(c.w)
    case Closing(w, _, _, _) => Some(w)
    case _ => None
  }

  // The completion channel a goroutine answers for at pc
  function ChanAt(pc: Pc): Option<nat>
  {
    match pc
    case Attempting(_, _, AtSend(x)) => Some(x.chan)
    case Attempting(_, _, AtWait(x)) => Some(x.chan)
    case Attempting(_, _, AtKill(x)) => Some(x.chan)
    case Attempting(_, _, AtSettle(x)) => Some(x.chan)
    case Attempting(_, _, AtDrain(chan, _)) => Some(chan)
    case Attempting(_, _, AtPut(chan, _)) => Some(chan)
    case Supervising(x, at) => if at.SupGone? then None else Some(x.chan)
    case _ => None
  }

  predicate HasLock(sh: Shared, g: Gid, w: nat) { w in sh.workers && sh.workers[w].mu == Some(g) }

  predicate HasChan(sh: Shared, g: Gid, c: nat) { c in sh.use && Holder(sh.use[c]) == Some(g) }

  // g has no more than pc calls for.
  ghost predicate NoMore(sh: Shared, g: Gid, pc: Pc)
  {
    && (forall w: nat :: HasLock(sh, g, w) ==> LockAt(pc) == Some(w))
    && (forall c: nat :: HasChan(sh, g, c) ==> ChanAt(pc) == Some(c))
  }

  // Goroutines other than g and a supervisor it starts have nothing new.
  ghost predicate NothingNew(a: Shared, b: Shared, g: Gid, sup: Option<nat>)
  {
    && (forall h: Gid, w: nat :: h != g && HasLock(b, h, w) ==> HasLock(a, h, w))
    && (forall h: Gid, c: nat :: h != g && HasChan(b, h, c) ==>
          HasChan(a, h, c) || (sup.Some? && h == Supervisor(sup.value)))
  }

  function Started(next: Next): Option<nat> { if next.spawn.None? then None else Some(next.spawn.value.0) }

  // A step of g leaves everybody within bounds.
  ghost predicate Fair(sh: Shared, g: Gid, next: Next)
  {
    && NoMore(next.sh, g, next.pc) && NothingNew(sh, next.sh, g, Started(next))
    && (next.spawn.Some? ==>
          && next.spawn.value.0 == sh.nextSup
          && forall c: nat :: HasChan(next.sh, Supervisor(sh.nextSup), c) ==> c == next.spawn.value.1.chan)
  }

  // Only worker w changed, and its lock only to or from g.
  lemma WorkerFair(sh: Shared, g: Gid, pc: Pc, b: Shared, w: nat, next: Pc)
    requires NoMore(sh, g, pc) && b.use == sh.use
    requires b.workers == sh.workers
             || (w in sh.workers && (sh.workers[w].mu.None? || sh.workers[w].mu == Some(g)) && w in b.workers
                 && b.workers == sh.workers[w := b.workers[w]]
                 && (b.workers[w].mu.None? || b.workers[w].mu == Some(g)))
    requires LockAt(next) == LockAt(pc)
             || (w in b.workers && b.workers[w].mu == Some(g) && LockAt(next) == Some(w) && LockAt(pc).None?)
             || (w in b.workers && b.workers[w].mu.None? && LockAt(pc) == Some(w) && LockAt(next).None?)
    requires b.workers != sh.workers && b.workers[w].mu == Some(g) ==> LockAt(next) == Some(w)
    requires ChanAt(next) == ChanAt(pc)
    ensures Fair(sh, g, Same(b, next))
  {
    assert forall h: Gid, v: nat :: HasLock(b, h, v) ==> (v != w && HasLock(sh, h, v)) || v == w;
  }

  // Only channel c changed, from g or nobody to g or nobody.
  lemma ChanFair(sh: Shared, g: Gid, pc: Pc, b: Shared, c: nat, next: Pc)
    requires NoMore(sh, g, pc) && b.workers == sh.workers && LockAt(next) == LockAt(pc)
    requires c in b.use && b.use == sh.use[c := b.use[c]]
    requires Holder(b.use[c]).None? || Holder(b.use[c]) == Some(g)
    requires if Holder(b.use[c]).Some? then ChanAt(next) == Some(c) else ChanAt(next).None?
    requires ChanAt(pc).None? || ChanAt(pc) == Some(c)
    ensures Fair(sh, g, Same(b, next))
  {
  }

  lemma IdleFair(sh: Shared, g: Gid, pc: Pc, choice: Choice)
    requires NoMore(sh, g, pc) && (pc.Idle? || pc.Returned?)
    ensures Fair(sh, g, GoStep(sh, g, pc, choice))
  {
    hide NoMore, Fair, BeginCall;
    if choice.Begin? && pc.Idle? { BeginKeepsTables(sh, g, choice.ctx, choice.pooled); }
    var next := GoStep(sh, g, pc, choice);
    WorkerFair(sh, g, pc, next.sh, if choice.BeginClose? then choice.w else 0, next.pc);
  }

  lemma BeginKeepsTables(sh: Shared, g: Gid, ctx: Option<nat>, pooled: Option<nat>)
    ensures var next := BeginCall(sh, g, ctx, pooled);
            && next.sh.use == sh.use && next.sh.workers == sh.workers && next.spawn.None?
            && LockAt(next.pc).None? && ChanAt(next.pc).None?
  {
  }

  lemma SameFair(sh: Shared, g: Gid, pc: Pc, b: Shared, next: Pc)
    requires NoMore(sh, g, pc) && b.use == sh.use && b.workers == sh.workers
    requires LockAt(next) == LockAt(pc) && ChanAt(next) == ChanAt(pc)
    ensures Fair(sh, g, Same(b, next))
  {
  }

  // Launching leaves every lock and channel alone.
  lemma LaunchFair(sh: Shared, g: Gid, pc: Pc, w: nat, next: Pc)
    requires NoMore(sh, g, pc) && w in sh.workers && LockAt(next) == LockAt(pc) && ChanAt(next) == ChanAt(pc)
    ensures Fair(sh, g, Same(Launched(sh, w), next))
  {
  }

  lemma CallFair(sh: Shared, g: Gid, c: Call, at: CallAt, choice: Choice)
    requires NoMore(sh, g, Calling(c, at)) && CallInv(sh, g, c, at)
    ensures Fair(sh, g, CallStep(sh, g, c, at, choice))
  {
    hide NoMore, Fair, Launched;
    var next, pc := CallStep(sh, g, c, at, choice), Calling(c, at);
    if next.sh == sh {
      SameFair(sh, g, pc, sh, next.pc);
    } else {
      match at
      case NeedLock => WorkerFair(sh, g, pc, next.sh, choice.w, next.pc);
      case NeedStart => LaunchFair(sh, g, pc, c.w, next.pc);
      case Finish(_) => WorkerFair(sh, g, pc, next.sh, c.w, next.pc);
      case _ => SameFair(sh, g, pc, next.sh, next.pc);
    }
  }

  lemma CloseFair(sh: Shared, g: Gid, w: nat, back: Option<Call>, why: Why, at: CloseAt, choice: Choice)
    requires NoMore(sh, g, Closing(w, back, why, at)) && CloseInv(sh, g, w, back, why)
    ensures Fair(sh, g, CloseStep(sh, g, w, back, why, at, choice))
  {
    hide NoMore, Fair, WhyOk, Targets, Launched;
    var next, pc := CloseStep(sh, g, w, back, why, at, choice), Closing(w, back, why, at);
    if next.sh == sh {
      SameFair(sh, g, pc, sh, next.pc);
    } else if at.Relaunch? && back.Some? {
      LaunchFair(sh, g, pc, w, next.pc);
    } else {
      WorkerFair(sh, g, pc, next.sh, w, next.pc);
    }
  }

  lemma TakeFair(sh: Shared, g: Gid, c: Call, phase: Phase, lid: nat, pid: Option<nat>, choice: Choice)
    requires NoMore(sh, g, Attempting(c, phase, AtChan(lid, pid)))
    ensures Fair(sh, g, TakeChannel(sh, g, c, phase, lid, pid, choice))
  {
    hide NoMore, Fair;
    var next, pc := TakeChannel(sh, g, c, phase, lid, pid, choice), Attempting(c, phase, AtChan(lid, pid));
    if next.pc == pc {
      WorkerFair(sh, g, pc, next.sh, c.w, next.pc);
    } else {
      ChanFair(sh, g, pc, next.sh, next.pc.att.x.chan, next.pc);
    }
  }

  lemma AbandonFair(sh: Shared, g: Gid, c: Call, phase: Phase, x: Exchange)
    requires NoMore(sh, g, Attempting(c, phase, AtWait(x))) && Awaits(sh, g, x)
    requires forall d: nat :: !HasChan(sh, Supervisor(sh.nextSup), d)
    ensures Fair(sh, g, Next(Abandon(sh, x), Calling(c, Finish(Abandoned)), Some((sh.nextSup, x))))
  {
    var b := Abandon(sh, x);
    forall h: Gid, d: nat | HasChan(b, h, d) && d != x.chan ensures HasChan(sh, h, d) {
    }
    assert HasChan(sh, g, x.chan);
  }

  // The steps of an attempt that touch no channel
  lemma AttemptEarlyFair(sh: Shared, g: Gid, c: Call, phase: Phase, at: AttAt, choice: Choice)
    requires NoMore(sh, g, Attempting(c, phase, at)) && Locked(sh, g, c.w)
    requires at.AtContext? || at.AtLoop? || at.AtKill?
    ensures Fair(sh, g, AttemptStep(sh, g, c, phase, at, choice))
  {
    hide NoMore, Fair;
    var next, pc := AttemptStep(sh, g, c, phase, at, choice), Attempting(c, phase, at);
    if at.AtLoop? { WorkerFair(sh, g, pc, next.sh, c.w, next.pc); } else { SameFair(sh, g, pc, next.sh, next.pc); }
  }

  lemma AttemptFair(sh: Shared, g: Gid, c: Call, phase: Phase, at: AttAt, choice: Choice)
    requires NoMore(sh, g, Attempting(c, phase, at)) && AttemptInv(sh, g, c, phase, at)
    requires forall d: nat :: !HasChan(sh, Supervisor(sh.nextSup), d)
    ensures Fair(sh, g, AttemptStep(sh, g, c, phase, at, choice))
  {
    hide NoMore, Fair, TakeChannel, EndOk, Made, Fits, Owns;
    var next, pc := AttemptStep(sh, g, c, phase, at, choice), Attempting(c, phase, at);
    if at.AtContext? || at.AtLoop? || at.AtKill? {
      AttemptEarlyFair(sh, g, c, phase, at, choice);
    } else if at.AtChan? {
      TakeFair(sh, g, c, phase, at.lid, at.pid, choice);
    } else if next.spawn.Some? {
      AbandonFair(sh, g, c, phase, at.x);
    } else if next.sh == sh && ChanAt(next.pc) == ChanAt(pc) {
      SameFair(sh, g, pc, sh, next.pc);
    } else {
      ChanFair(sh, g, pc, next.sh, ChanAt(pc).value, next.pc);
    }
  }

  lemma SuperviseFair(sh: Shared, g: Gid, x: Exchange, at: SupAt, choice: Choice)
    requires NoMore(sh, g, Supervising(x, at)) && SupInv(sh, g, x, at)
    ensures Fair(sh, g, SuperviseStep(sh, g, x, at, choice))
  {
    hide NoMore, Fair;
    var next, pc := SuperviseStep(sh, g, x, at, choice), Supervising(x, at);
    if next.sh.use == sh.use && ChanAt(next.pc) == ChanAt(pc) {
      WorkerFair(sh, g, pc, next.sh, 0, next.pc);
    } else {
      ChanFair(sh, g, pc, next.sh, x.chan, next.pc);
    }
  }

  lemma GoFair(sh: Shared, g: Gid, pc: Pc, choice: Choice)
    requires NoMore(sh, g, pc) && PcInv(sh, g, pc) && forall d: nat :: !HasChan(sh, Supervisor(sh.nextSup), d)
    ensures Fair(sh, g, GoStep(sh, g, pc, choice))
  {
    hide NoMore, Fair, CallStep, AttemptStep, CloseStep, SuperviseStep, CallInv, AttemptInv, CloseInv, SupInv;
    match pc
    case Idle => IdleFair(sh, g, pc, choice);
    case Returned(_) => IdleFair(sh, g, pc, choice);
    case Calling(c, at) => CallFair(sh, g, c, at, choice);
    case Attempting(c, phase, at) => AttemptFair(sh, g, c, phase, at, choice);
    case Closing(w, back, why, at) => CloseFair(sh, g, w, back, why, at, choice);
    case Supervising(x, at) => SuperviseFair(sh, g, x, at, choice);
  }

  lemma LoopFair(sh: Shared, l: nat, lc: LoopChoice)
    requires SharedInv(sh)
    ensures var b := LoopStep(sh, l, lc);
            b.workers == sh.workers && forall h: Gid, c: nat :: HasChan(b, h, c) ==> HasChan(sh, h, c)
  {
    assert LoopOk(sh, l);
  }

  ghost predicate AllNoMore(s: State) { forall g: Gid :: NoMore(s.sh, g, PcOf(s, g)) }

  // A supervisor that does not exist yet has no channel.
  lemma NextSupervisorHasNothing(sh: Shared)
    requires SharedInv(sh)
    ensures forall d: nat :: !HasChan(sh, Supervisor(sh.nextSup), d)
  {
    forall d: nat ensures !HasChan(sh, Supervisor(sh.nextSup), d) { assert ChanOk(sh, d); }
  }

  lemma OthersFair(a: Shared, b: Shared, g: Gid, sup: Option<nat>, h: Gid, pc: Pc)
    requires NothingNew(a, b, g, sup) && h != g && NoMore(a, h, pc) && (sup.Some? ==> h != Supervisor(sup.value))
    ensures NoMore(b, h, pc)
  {
  }

  lemma LessIsFair(a: Shared, b: Shared, h: Gid, pc: Pc)
    requires NoMore(a, h, pc) && b.workers == a.workers
    requires forall c: nat :: HasChan(b, h, c) ==> HasChan(a, h, c)
    ensures NoMore(b, h, pc)
  {
  }

  lemma EnvFair(s: State, a: Action)
    requires (a.Cancel? || a.Expire?) && AllNoMore(s)
    ensures AllNoMore(Step(s, a))
  {
    forall h: Gid ensures NoMore(Step(s, a).sh, h, PcOf(Step(s, a), h)) { assert NoMore(s.sh, h, PcOf(s, h)); }
  }

  // Only a caller starts a supervisor.
  lemma SpawnIsOther(sh: Shared, g: Gid, pc: Pc, choice: Choice)
    requires SharedInv(sh) && PcInv(sh, g, pc)
    ensures GoStep(sh, g, pc, choice).spawn.Some? ==> g.Caller?
  {
    hide GoStep, Effect, SharedInv, PcInv;
    GoKeeps(sh, g, pc, choice);
  }

  lemma SupervisorsLockNothing(s: State, h: Gid)
    requires h.Supervisor? && PcInv(s.sh, h, PcOf(s, h)) && NoMore(s.sh, h, PcOf(s, h))
    ensures forall w: nat :: !HasLock(s.sh, h, w)
  {
  }

  lemma NewSupervisorFair(sh: Shared, g: Gid, next: Next)
    requires Fair(sh, g, next) && next.spawn.Some? && g.Caller?
    requires forall w: nat :: !HasLock(sh, Supervisor(sh.nextSup), w)
    ensures NoMore(next.sh, Supervisor(next.spawn.value.0), Supervising(next.spawn.value.1, SupWait))
  {
  }

  lemma StepFair(s: State, a: Action)
    requires Inv(s) && AllNoMore(s)
    ensures AllNoMore(Step(s, a))
  {
    hide GoStep, LoopStep, SharedInv, PcInv, NoMore, NothingNew;
    match a
    case Go(g, choice) =>
      var pc := PcOf(s, g);
      assert PcInv(s.sh, g, pc) && NoMore(s.sh, g, pc);
      NextSupervisorHasNothing(s.sh);
      GoFair(s.sh, g, pc, choice);
      var next := GoStep(s.sh, g, pc, choice);
      SpawnIsOther(s.sh, g, pc, choice);
      forall h: Gid
        ensures NoMore(Step(s, a).sh, h, PcOf(Step(s, a), h))
      {
        assert NoMore(s.sh, h, PcOf(s, h));
        if next.spawn.Some? && h == Supervisor(next.spawn.value.0) {
          SupervisorsLockNothing(s, h);
          NewSupervisorFair(s.sh, g, next);
        } else if h != g {
          OthersFair(s.sh, next.sh, g, Started(next), h, PcOf(s, h));
        }
      }
    case LoopGo(l, lc) =>
      LoopFair(s.sh, l, lc);
      forall h: Gid ensures NoMore(Step(s, a).sh, h, PcOf(Step(s, a), h)) {
        assert NoMore(s.sh, h, PcOf(s, h));
        LessIsFair(s.sh, LoopStep(s.sh, l, lc), h, PcOf(s, h));
      }
    case Cancel(_) => EnvFair(s, a);
    case Expire(_) => EnvFair(s, a);
  }

  lemma {:induction false} RunFair(modes: seq<Mode>, run: seq<Action>)
    ensures AllNoMore(Exec(Init(modes), run))
  {
    if run == [] {
      assert forall g: Gid :: NoMore(Init(modes).sh, g, Idle);
    } else {
      RunFair(modes, run[..|run| - 1]);
      RunKeeps(modes, run[..|run| - 1]);
      StepFair(Exec(Init(modes), run[..|run| - 1]), run[|run| - 1]);
    }
  }

  // g has what its pc calls for.
  lemma AtLeast(sh: Shared, g: Gid, pc: Pc)
    requires PcInv(sh, g, pc)
    ensures LockAt(pc).Some? ==> HasLock(sh, g, LockAt(pc).value)
    ensures ChanAt(pc).Some? ==> HasChan(sh, g, ChanAt(pc).value)
  {
  }

  /**
   After every run a goroutine has a worker's lock exactly while its call or close is at work on
   that worker, and a completion channel exactly while it is using that channel for its request
   or, as a supervisor, has not given it back. One that is idle or has returned has neither.
   */
  lemma NothingOutlivesItsCall(modes: seq<Mode>, run: seq<Action>, g: Gid, w: nat, c: nat)
    ensures var sh, pc := After(modes, run), PcAfter(modes, run, g);
            && (HasLock(sh, g, w) <==> LockAt(pc) == Some(w))
            && (HasChan(sh, g, c) <==> ChanAt(pc) == Some(c))
            && (pc.Idle? || pc.Returned? ==> !HasLock(sh, g, w) && !HasChan(sh, g, c))
  {
    RunKeeps(modes, run);
    RunFair(modes, run);
    var sh, pc := After(modes, run), PcAfter(modes, run, g);
    assert NoMore(sh, g, pc) && PcInv(sh, g, pc);
    AtLeast(sh, g, pc);
  }
}
