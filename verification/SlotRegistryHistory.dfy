/**
 Histories of the slot registry, read off the run: the step that wrote each log entry, the step
 at which a thread's latest call began, and the shared state in front of each step. A call has
 exactly the log entry that its thread carries.
 */
module SlotRegistryHistory {
  import opened Common
  import opened SlotRegistry
  import opened SlotRegistryProofs
  import opened SlotRegistryTheorems

  function PcAfter(max: nat, run: seq<Action>, t: Tid): Pc { PcOf(Exec(Init(max), run), t) }

  predicate Waiting(pc: Pc) { pc.Idle? || pc.Returned? }

  // The step that began the latest call of thread t; a busy thread begins nothing.
  function Began(max: nat, run: seq<Action>, t: Tid): nat
  {
    if run == [] then 0
    else
      var last, front := run[|run| - 1], run[..|run| - 1];
      if last.tid == t && last.input.Begin? && Waiting(PcAfter(max, front, t)) then |front| else Began(max, front, t)
  }

  // The step that appended each entry of the log.
  function Writes(max: nat, run: seq<Action>): seq<nat>
  {
    if run == [] then []
    else
      var front := run[..|run| - 1];
      Writes(max, front) + if |After(max, run).log| > |After(max, front).log| then [|front|] else []
  }

  // Step m is one of the latest call of thread t.
  predicate Mine(max: nat, run: seq<Action>, t: Tid, m: nat)
  {
    Began(max, run, t) <= m < |run| && run[m].tid == t
  }

  // The shared state in front of step m
  function View(max: nat, run: seq<Action>, m: nat): Shared
  {
    After(max, if m <= |run| then run[..m] else run)
  }

  // Log entry k was written by the latest call of thread t.
  predicate Own(max: nat, run: seq<Action>, t: Tid, k: nat)
  {
    k < |Writes(max, run)| && Mine(max, run, t, Writes(max, run)[k])
  }

  // The log entry of this call, once it has one
  function Wrote(pc: Pc): Option<nat>
  {
    if pc.Returned? && (pc.outcome.DidAcquire? || pc.outcome.DidRelease?) then Some(pc.outcome.index)
    else if pc.Finalizing? && (pc.fin.FinUnlink? || pc.fin.FinDisown? || pc.fin.FinFree?) then Some(pc.fin.index)
    else None
  }

  // ---------------------------------------------------------------- one more step

  function Snoc(run: seq<Action>, a: Action): (next: seq<Action>)
    ensures |next| == |run| + 1 && next[..|run|] == run && next[|run|] == a
  {
    run + [a]
  }

  // The run grows by one step that is not the start of a call of t.
  lemma Carries(max: nat, run: seq<Action>, a: Action, t: Tid)
    requires !(a.tid == t && a.input.Begin? && Waiting(PcAfter(max, run, t)))
    ensures Began(max, Snoc(run, a), t) == Began(max, run, t)
    ensures forall m: nat :: Mine(max, run, t, m) ==> Mine(max, Snoc(run, a), t, m)
    ensures forall m: nat :: Mine(max, run, t, m) ==> View(max, Snoc(run, a), m) == View(max, run, m)
    ensures forall m: nat :: Mine(max, run, t, m) ==> View(max, Snoc(run, a), m + 1) == View(max, run, m + 1)
  {
    var next := Snoc(run, a);
    forall m: nat | Mine(max, run, t, m)
      ensures Mine(max, next, t, m) && View(max, next, m) == View(max, run, m)
      ensures View(max, next, m + 1) == View(max, run, m + 1)
    {
      assert next[..m] == run[..m] && next[..m + 1] == run[..m + 1];
    }
  }

  lemma {:induction false} BeganWithin(max: nat, run: seq<Action>, t: Tid)
    ensures Began(max, run, t) <= |run|
    ensures run != [] ==> Began(max, run, t) < |run|
  {
    if run != [] { BeganWithin(max, run[..|run| - 1], t); }
  }

  // The step just taken by t is one of its call.
  lemma NowIsMine(max: nat, run: seq<Action>, a: Action)
    ensures Mine(max, Snoc(run, a), a.tid, |run|) && View(max, Snoc(run, a), |run|) == After(max, run)
    ensures Exec(Init(max), Snoc(run, a)) == Step(Exec(Init(max), run), a)
  {
    BeganWithin(max, Snoc(run, a), a.tid);
  }

  // The log is as it was and so is the thread's entry, or the thread got the entry just appended.
  predicate Logged(a: Shared, pc: Pc, next: (Shared, Pc))
  {
    || (next.0.log == a.log && Wrote(next.1) == Wrote(pc))
    || (|next.0.log| == |a.log| + 1 && a.log == next.0.log[..|a.log|] && Wrote(pc).None?
        && Wrote(next.1) == Some(|a.log|))
  }

  lemma AcquireLogs(sh: Shared, t: Tid, c: Call, held: bool, at: AcqAt, weak: bool)
    ensures Logged(sh, Acquiring(c, held, at), AcquireStep(sh, t, c, held, at, weak))
  {
  }

  lemma ReleaseLogs(sh: Shared, c: Call, at: RelAt, weak: bool)
    ensures Logged(sh, Releasing(c, at), ReleaseStep(sh, c, at, weak))
  {
  }

  lemma FinalizeLogs(sh: Shared, t: Tid, c: Call, seen: nat, at: FinAt, weak: bool)
    requires InBounds(sh, c.h)
    ensures Logged(sh, Finalizing(c, seen, at), FinalizeStep(sh, t, c, seen, at, weak))
  {
  }

  lemma RegisterLogs(sh: Shared, t: Tid, r: Entry, at: RegAt)
    requires at.RegLoad? || at.RegStore? ==> at.i < |sh.slots|
    ensures Logged(sh, Registering(r, at), RegisterStep(sh, t, r, at))
  {
  }

  lemma SignalLogs(sh: Shared, c: Call, v: nat, at: SigAt)
    ensures Logged(sh, Signaling(c, v, at), SignalStep(sh, c, v, at))
  {
  }

  lemma StaysLogged(sh: Shared, pc: Pc)
    ensures Logged(sh, pc, (sh, pc))
  {
  }

  lemma GoLogs(sh: Shared, t: Tid, pc: Pc, weak: bool)
    ensures Logged(sh, pc, GoStep(sh, t, pc, weak))
  {
    hide AcquireStep, ReleaseStep, FinalizeStep, RegisterStep, Logged;
    match pc
    case Idle => StaysLogged(sh, pc);
    case Returned(_, _) => StaysLogged(sh, pc);
    case Acquiring(c, held, at) => AcquireLogs(sh, t, c, held, at, weak);
    case Releasing(c, at) => ReleaseLogs(sh, c, at, weak);
    case Finalizing(c, seen, at) =>
      if InBounds(sh, c.h) { FinalizeLogs(sh, t, c, seen, at, weak); } else { StaysLogged(sh, pc); }
    case Signaling(c, v, at) => SignalLogs(sh, c, v, at);
    case Registering(r, at) =>
      if (at.RegLoad? || at.RegStore?) && at.i >= |sh.slots| {
        StaysLogged(sh, pc);
      } else {
        RegisterLogs(sh, t, r, at);
      }
  }

  // A step appends at most one entry, and then its thread has that entry and had none.
  lemma StepWrites(s: State, a: Action)
    ensures a.input.Go? ==> Logged(s.sh, PcOf(s, a.tid), (Step(s, a).sh, PcOf(Step(s, a), a.tid)))
    ensures a.input.Begin? ==> Step(s, a).sh.log == s.sh.log
    ensures a.input.Begin? && Waiting(PcOf(s, a.tid)) ==> Wrote(PcOf(Step(s, a), a.tid)).None?
    ensures a.input.Begin? && !Waiting(PcOf(s, a.tid)) ==> Step(s, a) == s
  {
    hide GoStep;
    if a.input.Go? { GoLogs(s.sh, a.tid, PcOf(s, a.tid), a.input.weak); }
  }

  lemma OthersKeepTheirPc(s: State, a: Action, u: Tid)
    requires u != a.tid
    ensures PcOf(Step(s, a), u) == PcOf(s, u)
  {
  }

  lemma {:induction false} WritesMatchTheLog(max: nat, run: seq<Action>)
    ensures |Writes(max, run)| == |After(max, run).log|
    ensures forall k :: 0 <= k < |Writes(max, run)| ==> Writes(max, run)[k] < |run|
  {
    if run != [] {
      WritesMatchTheLog(max, run[..|run| - 1]);
      StepWrites(Exec(Init(max), run[..|run| - 1]), run[|run| - 1]);
    }
  }

  // ---------------------------------------------------------------- a call and its entry

  // The entries of t's latest call are exactly the one its pc carries, if any.
  ghost predicate EntryOk(max: nat, run: seq<Action>, t: Tid)
  {
    && (Wrote(PcAfter(max, run, t)).Some? ==> Wrote(PcAfter(max, run, t)).value < |After(max, run).log|)
    && forall k: nat :: Own(max, run, t, k) <==> Wrote(PcAfter(max, run, t)) == Some(k)
  }

  lemma WritesGrow(max: nat, run: seq<Action>, a: Action)
    ensures Writes(max, Snoc(run, a)) == Writes(max, run)
         || Writes(max, Snoc(run, a)) == Writes(max, run) + [|run|]
    ensures Writes(max, Snoc(run, a)) == Writes(max, run) <==>
            After(max, Snoc(run, a)).log == After(max, run).log
  {
    var next := Snoc(run, a);
    NowIsMine(max, run, a);
    StepWrites(Exec(Init(max), run), a);
    assert Writes(max, next) == Writes(max, run)
                                + if |After(max, next).log| > |After(max, run).log| then [|run|] else [];
  }

  lemma LogIsOfRun(max: nat, run: seq<Action>, a: Action)
    ensures After(max, run) == Exec(Init(max), run).sh
    ensures After(max, Snoc(run, a)) == Step(Exec(Init(max), run), a).sh
  {
  }

  lemma BeginsAnew(max: nat, run: seq<Action>, a: Action)
    requires a.input.Begin? && Waiting(PcAfter(max, run, a.tid))
    ensures Began(max, Snoc(run, a), a.tid) == |run|
    ensures forall k: nat :: !Own(max, Snoc(run, a), a.tid, k)
  {
    var next := Snoc(run, a);
    NowIsMine(max, run, a);
    WritesGrow(max, run, a);
    StepWrites(Exec(Init(max), run), a);
    WritesMatchTheLog(max, run);
  }

  lemma EntryStep(max: nat, run: seq<Action>, a: Action, t: Tid)
    requires EntryOk(max, run, t)
    ensures EntryOk(max, Snoc(run, a), t)
  {
    hide Step, Writes, After;
    var next, s := Snoc(run, a), Exec(Init(max), run);
    NowIsMine(max, run, a);
    StepWrites(s, a);
    WritesGrow(max, run, a);
    WritesMatchTheLog(max, run);
    WritesMatchTheLog(max, next);
    LogIsOfRun(max, run, a);
    if a.tid != t { OthersKeepTheirPc(s, a, t); }
    if a.tid == t && a.input.Begin? && Waiting(PcAfter(max, run, t)) {
      BeginsAnew(max, run, a);
    } else {
      Carries(max, run, a, t);
      forall k: nat
        ensures Own(max, next, t, k) <==> Wrote(PcAfter(max, next, t)) == Some(k)
      {
        if k < |Writes(max, run)| { assert Own(max, next, t, k) <==> Own(max, run, t, k); }
      }
    }
  }

  /** Each call has the one log entry its pc carries, and a thread that carries none wrote none. */
  lemma {:induction false} EntriesKept(max: nat, run: seq<Action>, t: Tid)
    ensures EntryOk(max, run, t)
  {
    if run != [] {
      var front, a := run[..|run| - 1], run[|run| - 1];
      EntriesKept(max, front, t);
      EntryStep(max, front, a, t);
      assert Snoc(front, a) == run;
    }
  }
}
