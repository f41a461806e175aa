/** One lane's statistics row: the completion record, and the in-flight count under interleaving. */
module LaneStats {
  import opened Common
  import D = Dispatch

  class Row {
    var ewmaNs: nat
    var inflight: nat
    var maxConcurrency: nat
    var lastTickSeen: nat

    constructor ()
      ensures ewmaNs == 0 && inflight == 0 && maxConcurrency == 0 && lastTickSeen == 0
    {
      ewmaNs, inflight, maxConcurrency, lastTickSeen := 0, 0, 0, 0;
    }

    /** Blends one sample into the mean and stamps the heartbeat. */
    method RecordCompletion(sampleNs: nat, tickNow: nat) returns (blended: nat)
      requires ewmaNs < U64 && sampleNs < U64
      modifies `ewmaNs, `lastTickSeen
      ensures blended == ewmaNs == (sampleNs + 7 * old(ewmaNs)) / 8 && ewmaNs < U64
      ensures lastTickSeen == tickNow
    {
      D.BlendIsTheMean(ewmaNs, sampleNs);
      blended := D.BlendEwma(ewmaNs, sampleNs);
      ewmaNs := blended;
      lastTickSeen := tickNow;
    }

    /** A run of completions that all took the same time leaves the settled estimate. */
    method RecordRun(sampleNs: nat, ticks: seq<nat>)
      requires ewmaNs < U64 && sampleNs < U64
      modifies `ewmaNs, `lastTickSeen
      ensures ewmaNs == D.EwmaRun(old(ewmaNs), sampleNs, |ticks|)
      ensures old(ewmaNs) <= sampleNs && |ticks| >= sampleNs - old(ewmaNs) ==> sampleNs - 7 <= ewmaNs <= sampleNs
      ensures old(ewmaNs) >= sampleNs && |ticks| >= old(ewmaNs) - sampleNs ==> ewmaNs == sampleNs
    {
      var k := 0;
      while k < |ticks|
        invariant 0 <= k <= |ticks| && ewmaNs < U64
        invariant ewmaNs == D.EwmaRun(old(ewmaNs), sampleNs, k)
      {
        D.BlendIsTheMean(ewmaNs, sampleNs);
        var _ := RecordCompletion(sampleNs, ticks[k]);
        k := k + 1;
      }
      D.EwmaSettles(old(ewmaNs), sampleNs, |ticks|);
    }
  }

  // Claims and bounded releases by many threads over one count word

  const ATTEMPTS: nat := 8

  datatype Result = Released | Nothing | Contended

  // `others` counts changes of the word by other threads since the call began.
  datatype Caller =
    | Resting(last: Option<Result>, others: nat)
    | Releasing(tries: nat, others: nat)
    | Loaded(tries: nat, others: nat, value: nat, at: nat)

  datatype State = State(count: nat, claims: nat, releases: nat, callers: map<nat, Caller>)

  datatype Action = Claim(t: nat) | Call(t: nat) | LoadWord(t: nat) | Swap(t: nat)

  function Init(): State { State(0, 0, 0, map[]) }

  function At(s: State, t: nat): Caller { if t in s.callers then s.callers[t] else Resting(None, 0) }

  function Noticed(c: Caller): Caller
  {
    match c
    case Resting(_, _) => c
    case Releasing(tries, others) => Releasing(tries, others + 1)
    case Loaded(tries, others, value, at) => Loaded(tries, others + 1, value, at)
  }

  // Thread t changed the word: every other caller has seen one more change.
  function Changed(callers: map<nat, Caller>, t: nat, now: Caller): (r: map<nat, Caller>)
    ensures r.Keys == callers.Keys + {t} && r[t] == now
    ensures forall u :: u in callers && u != t ==> r[u] == Noticed(callers[u])
  {
    (map u | u in callers :: Noticed(callers[u]))[t := now]
  }

  function Step(s: State, a: Action): State
  {
    var t := a.t;
    var c := At(s, t);
    match a
    case Claim(_) =>
      if c.Resting? then
        s.(count := (s.count + 1) % U32, claims := s.claims + 1, callers := Changed(s.callers, t, c))
      else s
    case Call(_) =>
      if c.Resting? then s.(callers := s.callers[t := Releasing(0, 0)]) else s
    case LoadWord(_) =>
      if !c.Releasing? then s
      else if s.count == 0 then s.(callers := s.callers[t := Resting(Some(Nothing), c.others)])
      else s.(callers := s.callers[t := Loaded(c.tries, c.others, s.count, c.others)])
    case Swap(_) =>
      if !c.Loaded? then s
      else if s.count == c.value then
        s.(count := (c.value + U32 - 1) % U32, releases := s.releases + 1,
           callers := Changed(s.callers, t, Resting(Some(Released), c.others)))
      else if c.tries + 1 == ATTEMPTS then s.(callers := s.callers[t := Resting(Some(Contended), c.others)])
      else s.(callers := s.callers[t := Releasing(c.tries + 1, c.others)])
  }

  function Exec(run: seq<Action>): State
  {
    if run == [] then Init() else Step(Exec(run[..|run| - 1]), run[|run| - 1])
  }

  predicate CallerOk(s: State, c: Caller)
  {
    match c
    case Resting(last, others) => last == Some(Contended) ==> others >= ATTEMPTS
    case Releasing(tries, others) => others >= tries && tries < ATTEMPTS
    case Loaded(tries, others, value, at) =>
      && tries <= at <= others && tries < ATTEMPTS && value > 0
      && (others == at ==> s.count == value)
  }

  predicate Inv(s: State)
  {
    && s.releases <= s.claims && s.count == (s.claims - s.releases) % U32
    && forall t {:trigger CallerOk(s, At(s, t))} :: t in s.callers ==> CallerOk(s, At(s, t))
  }

  lemma CountKeeps(s: State, a: Action)
    requires Inv(s)
    ensures var s' := Step(s, a); s'.releases <= s'.claims && s'.count == (s'.claims - s'.releases) % U32
  {
    assert CallerOk(s, At(s, a.t));
  }

  lemma CallersKeep(s: State, a: Action, t: nat)
    requires Inv(s) && t in Step(s, a).callers
    ensures CallerOk(Step(s, a), At(Step(s, a), t))
  {
    assert CallerOk(s, At(s, a.t));
    if t in s.callers { assert CallerOk(s, At(s, t)); }
  }

  lemma StepKeeps(s: State, a: Action)
    requires Inv(s)
    ensures Inv(Step(s, a))
  {
    hide Step, CallerOk;
    CountKeeps(s, a);
    forall t | t in Step(s, a).callers ensures CallerOk(Step(s, a), At(Step(s, a), t)) {
      CallersKeep(s, a, t);
    }
  }

  lemma {:induction false} RunKeeps(run: seq<Action>)
    ensures Inv(Exec(run))
  {
    if run != [] {
      RunKeeps(run[..|run| - 1]);
      StepKeeps(Exec(run[..|run| - 1]), run[|run| - 1]);
    }
  }

  /**
   In every interleaving the word is claims less releases modulo 2^32, and releases never
   outnumber claims.
   */
  lemma InflightIsTheBalance(run: seq<Action>)
    ensures var s := Exec(run); s.releases <= s.claims && s.count == (s.claims - s.releases) % U32
  {
    RunKeeps(run);
  }

  /**
   A release that gives up as contended was passed by at least eight changes of the word made
   by other threads during the call; a lone writer is therefore never refused that way.
   */
  lemma ContendedMeansEightOthers(run: seq<Action>, t: nat)
    requires At(Exec(run), t).Resting? && At(Exec(run), t).last == Some(Contended)
    ensures At(Exec(run), t).others >= ATTEMPTS
  {
    RunKeeps(run);
    assert CallerOk(Exec(run), At(Exec(run), t));
  }

  // The answer of a release call that the step ends
  function Answer(s: State, a: Action): Option<Result>
  {
    if !At(s, a.t).Resting? && At(Step(s, a), a.t).Resting? then At(Step(s, a), a.t).last else None
  }

  function Answered(run: seq<Action>, r: Result): nat
  {
    if run == [] then 0
    else
      var front := run[..|run| - 1];
      Answered(front, r) + if Answer(Exec(front), run[|run| - 1]) == Some(r) then 1 else 0
  }

  lemma CountFits(s: State)
    requires Inv(s)
    ensures s.count < U32
  {
  }

  lemma Decrement(value: nat)
    requires 0 < value < U32
    ensures (value + U32 - 1) % U32 == value - 1
  {
  }

  predicate TrueAnswer(s: State, t: State, r: Option<Result>)
  {
    && (r == Some(Released) <==> t.releases != s.releases)
    && (r == Some(Released) ==> s.count > 0 && t.count == s.count - 1 && t.releases == s.releases + 1)
    && (r == Some(Nothing) ==> s.count == 0 && t.count == 0)
    && (r == Some(Contended) ==> t.count == s.count)
  }

  lemma AnswerStep(s: State, a: Action)
    requires s.count < U32 && CallerOk(s, At(s, a.t))
    ensures TrueAnswer(s, Step(s, a), Answer(s, a))
    ensures Step(s, a).claims == s.claims + (if a.Claim? && At(s, a.t).Resting? then 1 else 0)
  {
    if a.Swap? && At(s, a.t).Loaded? && s.count == At(s, a.t).value { Decrement(s.count); }
  }

  /**
   A release answers that it released exactly in the step that takes one off the word. It answers
   that there was nothing only when the word is zero, and as contended it changes nothing.
   */
  lemma AnswersAreTrue(run: seq<Action>, a: Action)
    ensures TrueAnswer(Exec(run), Step(Exec(run), a), Answer(Exec(run), a))
    ensures Step(Exec(run), a).claims ==
            Exec(run).claims + (if a.Claim? && At(Exec(run), a.t).Resting? then 1 else 0)
  {
    RunKeeps(run);
    var s := Exec(run);
    CountFits(s);
    assert CallerOk(s, At(s, a.t));
    hide Exec, Inv, Step, CallerOk;
    AnswerStep(s, a);
  }

  /** Over every run, as many calls were told that they released as the word was taken down. */
  lemma {:induction false} ReleasesAreAnswered(run: seq<Action>)
    ensures Exec(run).releases == Answered(run, Released)
  {
    if run != [] {
      ReleasesAreAnswered(run[..|run| - 1]);
      AnswersAreTrue(run[..|run| - 1], run[|run| - 1]);
    }
  }
}
