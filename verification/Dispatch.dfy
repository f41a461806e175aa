/** Lane placement: latency blending, eligibility, the least-score choice, and the row codec. */
module Dispatch {
  import opened Common
  import opened Bits
  import opened Bytes

  const MAX64: nat := U64 - 1
  const MAX_LANES: nat := 32
  const ROW_BYTES: nat := 64
  const STALE_TICKS: nat := 4
  const ALPHA_NUM: nat := 1
  const ALPHA_DEN: nat := 8
  const AFFINITY_BONUS_NS: nat := 250000
  const GLOBAL: nat := 0

  datatype Lane = Lane(classes: nat, bloom: nat, laneID: nat, jurisdiction: nat, maxConcurrency: nat, generation: nat)

  datatype Stats = Stats(ewmaNs: nat, inflight: nat, maxConcurrency: nat, lastTickSeen: nat)

  datatype Request = Request(requiredClasses: nat, jurisdiction: nat, deadlineNs: nat, affinityKey: nat)

  predicate LaneFits(d: Lane)
  {
    && d.classes < U64 && d.bloom < U64 && d.laneID < U16 && d.jurisdiction < U16
    && d.maxConcurrency < U32 && d.generation < U32
  }

  predicate StatsFit(s: Stats)
  {
    s.ewmaNs < U64 && s.inflight < U32 && s.maxConcurrency < U32 && s.lastTickSeen < U64
  }

  // 64-bit machine operations with the high half kept

  function Mul64(x: nat, y: nat): (nat, nat) { (x * y / U64, x * y % U64) }

  function Add64(x: nat, y: nat): (nat, nat) { ((x + y) % U64, (x + y) / U64) }

  function Div64(hi: nat, lo: nat, y: nat): nat
    requires hi < y
  {
    (hi * U64 + lo) / y
  }

  // The 128-bit weighted sum, high and low half
  function BlendSum(previous: nat, sample: nat): (nat, nat)
  {
    var (hi1, lo1) := Mul64(ALPHA_NUM, sample);
    var (hi2, lo2) := Mul64(ALPHA_DEN - ALPHA_NUM, previous);
    var (lo, carry) := Add64(lo1, lo2);
    ((hi1 + hi2 + carry) % U64, lo)
  }

  function BlendEwma(previous: nat, sample: nat): nat
  {
    var (hi, lo) := BlendSum(previous, sample);
    if hi >= ALPHA_DEN then MAX64 else Div64(hi, lo, ALPHA_DEN)
  }

  lemma BlendExact(previous: nat, sample: nat)
    requires previous < U64 && sample < U64
    ensures BlendSum(previous, sample).0 < ALPHA_DEN
    ensures BlendEwma(previous, sample) == (sample + 7 * previous) / 8
  {
    var (hi1, lo1) := Mul64(ALPHA_NUM, sample);
    var (hi2, lo2) := Mul64(ALPHA_DEN - ALPHA_NUM, previous);
    assert hi1 == 0 && lo1 == sample;
    assert hi2 * U64 + lo2 == 7 * previous && hi2 <= 6;
    var (lo, carry) := Add64(lo1, lo2);
    assert carry <= 1 && carry * U64 + lo == lo1 + lo2;
  }

  /** The blend is the exact weighted mean rounded down; the saturating branch is never taken. */
  lemma BlendIsTheMean(previous: nat, sample: nat)
    requires previous < U64 && sample < U64
    ensures BlendSum(previous, sample).0 < ALPHA_DEN
    ensures BlendEwma(previous, sample) == (sample + 7 * previous) / 8
    ensures sample <= BlendEwma(previous, sample) <= previous || previous <= BlendEwma(previous, sample) <= sample
    ensures BlendEwma(previous, sample) == previous <==> previous <= sample <= previous + 7
  {
    hide BlendEwma, BlendSum;
    BlendExact(previous, sample);
  }

  // The estimate after n completions that all took `sample`
  function EwmaRun(start: nat, sample: nat, n: nat): nat
  {
    if n == 0 then start else BlendEwma(EwmaRun(start, sample, n - 1), sample)
  }

  /**
   Under a constant sample the estimate moves monotonically toward it, never crosses it,
   and after |sample - start| completions is within 7 below it, or equal if it came from above.
   */
  lemma {:induction false} EwmaSettles(start: nat, sample: nat, n: nat)
    requires start < U64 && sample < U64
    ensures EwmaRun(start, sample, n) < U64
    ensures start <= sample ==> start <= EwmaRun(start, sample, n) <= sample
    ensures start >= sample ==> sample <= EwmaRun(start, sample, n) <= start
    ensures n > 0 && start <= sample ==> EwmaRun(start, sample, n - 1) <= EwmaRun(start, sample, n)
    ensures n > 0 && start >= sample ==> EwmaRun(start, sample, n) <= EwmaRun(start, sample, n - 1)
    ensures start <= sample && n >= sample - start ==> sample - EwmaRun(start, sample, n) <= 7
    ensures start >= sample && n >= start - sample ==> EwmaRun(start, sample, n) == sample
  {
    hide BlendEwma;
    if n > 0 {
      EwmaSettles(start, sample, n - 1);
      BlendIsTheMean(EwmaRun(start, sample, n - 1), sample);
      EwmaGap(start, sample, n);
    }
  }

  lemma {:induction false} EwmaGap(start: nat, sample: nat, n: nat)
    requires start < U64 && sample < U64
    ensures EwmaRun(start, sample, n) < U64
    ensures start <= sample ==> EwmaRun(start, sample, n) <= sample
    ensures start >= sample ==> sample <= EwmaRun(start, sample, n)
    ensures start <= sample ==> EwmaRun(start, sample, n) >= start + n || sample - EwmaRun(start, sample, n) <= 7
    ensures start >= sample ==> EwmaRun(start, sample, n) + n <= start || EwmaRun(start, sample, n) == sample
  {
    hide BlendEwma;
    if n > 0 {
      EwmaGap(start, sample, n - 1);
      BlendIsTheMean(EwmaRun(start, sample, n - 1), sample);
    }
  }

  function Power(base: nat, n: nat): nat { if n == 0 then 1 else base * Power(base, n - 1) }

  function Gap(a: nat, b: nat): nat { if a < b then b - a else a - b }

  lemma GapStep(previous: nat, sample: nat)
    requires previous < U64 && sample < U64
    ensures 8 * (Gap(BlendEwma(previous, sample), sample) - 7) <= 7 * (Gap(previous, sample) - 7)
  {
    hide BlendEwma;
    BlendIsTheMean(previous, sample);
  }

  /** Over the settled band of 7, the distance to a constant sample shrinks by 7/8 with every completion. */
  lemma {:induction false} EwmaDecays(start: nat, sample: nat, n: nat)
    requires start < U64 && sample < U64
    ensures Power(8, n) * (Gap(EwmaRun(start, sample, n), sample) - 7) <= Power(7, n) * (Gap(start, sample) - 7)
  {
    if n > 0 {
      hide BlendEwma, Gap, Power, EwmaRun;
      var before := EwmaRun(start, sample, n - 1);
      OneMore(start, sample, n);
      EwmaDecays(start, sample, n - 1);
      EwmaGap(start, sample, n - 1);
      GapStep(before, sample);
      Scaled(Gap(EwmaRun(start, sample, n), sample) - 7, Gap(before, sample) - 7, Gap(start, sample) - 7,
             Power(8, n - 1), Power(7, n - 1));
    }
  }

  lemma OneMore(start: nat, sample: nat, n: nat)
    requires n > 0
    ensures EwmaRun(start, sample, n) == BlendEwma(EwmaRun(start, sample, n - 1), sample)
    ensures Power(8, n) == 8 * Power(8, n - 1) && Power(7, n) == 7 * Power(7, n - 1)
  {
  }

  lemma Scaled(g': int, g: int, g0: int, p: nat, q: nat)
    requires 8 * g' <= 7 * g && p * g <= q * g0
    ensures (8 * p) * g' <= (7 * q) * g0
  {
    Scale(g', g, p);
    Reassociate(8, p, g');
    Reassociate(7, q, g0);
  }

  lemma Reassociate(a: int, b: int, c: int)
    ensures (a * b) * c == b * (a * c) == a * (b * c)
  {
  }

  lemma Scale(g': int, g: int, p: nat)
    requires 8 * g' <= 7 * g
    ensures p * (8 * g') <= 7 * (p * g)
  {
    var x, y := 8 * g', 7 * g;
    assert p * x <= p * y;
    Reassociate(7, p, g);
  }

  // Filters

  // Every required class bit is set, by Bits.AndSubset.
  predicate Covers(d: Lane, required: nat) { And(d.classes, required) == required }

  predicate AllowsJurisdiction(d: Lane, request: nat) { d.jurisdiction == GLOBAL || d.jurisdiction == request }

  predicate HoldsLocality(d: Lane, key: nat) { Bit(d.bloom, key % 64) }

  predicate IsFresh(now: nat, s: Stats)
  {
    // the difference wraps in 64 bits
    s.lastTickSeen != 0 && (now - s.lastTickSeen) % U64 <= STALE_TICKS
  }

  function Concurrency(d: Lane, s: Stats): (c: nat)
    ensures c > 0
  {
    var c := if d.maxConcurrency > s.maxConcurrency then d.maxConcurrency else s.maxConcurrency;
    if c == 0 then 1 else c
  }

  function Min(a: nat, b: nat): nat { if a < b then a else b }

  // c is the larger of the two declared limits, and at least one.
  predicate Limit(d: Lane, s: Stats, c: nat)
  {
    && c >= 1 && c >= d.maxConcurrency && c >= s.maxConcurrency
    && (c == 1 || c == d.maxConcurrency || c == s.maxConcurrency)
  }

  // The score a lane would get in unbounded arithmetic, capped at 64 bits before the bonus
  function TrueScore(d: Lane, s: Stats, request: Request): nat
  {
    var latency := Min(MAX64, s.ewmaNs * (1 + s.inflight / Concurrency(d, s)));
    if !HoldsLocality(d, request.affinityKey) then latency
    else if latency < AFFINITY_BONUS_NS then 0 else latency - AFFINITY_BONUS_NS
  }

  /** The score is the mean times one plus the full rounds queued at the limit, less 250000 ns for a bloom hit. */
  lemma ScoreMeans(d: Lane, s: Stats, request: Request, c: nat)
    requires Limit(d, s, c)
    ensures Concurrency(d, s) == c
    ensures var capped := Min(MAX64, s.ewmaNs * (1 + s.inflight / c));
            TrueScore(d, s, request) ==
            if Bit(d.bloom, request.affinityKey % 64) then (if capped < 250000 then 0 else capped - 250000) else capped
  {
    assert Concurrency(d, s) == c;
  }

  // A heartbeat covers the four clicks after it, counted around the 64-bit wrap.
  predicate Alive(now: nat, s: Stats)
  {
    s.lastTickSeen != 0 && (s.lastTickSeen <= now <= s.lastTickSeen + 4 || now + U64 <= s.lastTickSeen + 4)
  }

  // What it takes to serve a request, stated without the machine operations
  ghost predicate Eligible(now: nat, d: Lane, s: Stats, request: Request)
  {
    && d.classes != 0 && EachBitIn(request.requiredClasses, d.classes)
    && (d.jurisdiction == GLOBAL || d.jurisdiction == request.jurisdiction)
    && Alive(now, s) && s.ewmaNs > 0 && TrueScore(d, s, request) <= request.deadlineNs
  }

  // The first index attaining the least score among the eligible lanes before n
  ghost predicate Best(now: nat, lanes: seq<Lane>, stats: seq<Stats>, request: Request, n: nat, k: nat)
    requires n <= |lanes| && n <= |stats|
  {
    && k < n && Eligible(now, lanes[k], stats[k], request)
    && forall i :: 0 <= i < n && Eligible(now, lanes[i], stats[i], request) ==>
         && TrueScore(lanes[k], stats[k], request) <= TrueScore(lanes[i], stats[i], request)
         && (i < k ==> TrueScore(lanes[k], stats[k], request) < TrueScore(lanes[i], stats[i], request))
  }

  /** Mean inflated by queue pressure, saturating at 64 bits; none when unsampled. */
  method ExpectedLatency(d: Lane, s: Stats) returns (latency: nat, sampled: bool)
    requires LaneFits(d) && StatsFit(s)
    ensures sampled == (s.ewmaNs != 0)
    ensures sampled ==> latency == Min(MAX64, s.ewmaNs * (1 + s.inflight / Concurrency(d, s)))
  {
    if s.ewmaNs == 0 { return 0, false; }
    var concurrency := Concurrency(d, s);
    var factor := 1 + s.inflight / concurrency;
    Saturation(s.ewmaNs, factor);
    if factor != 0 && s.ewmaNs > MAX64 / factor { return MAX64, true; }
    return s.ewmaNs * factor % U64, true;
  }

  lemma Saturation(x: nat, factor: nat)
    requires factor > 0
    ensures x > MAX64 / factor <==> x * factor > MAX64
    ensures x <= MAX64 / factor ==> x * factor % U64 == x * factor
  {
    var q := MAX64 / factor;
    assert q * factor <= MAX64 < (q + 1) * factor;
    if x > q {
      MulMono(q + 1, x, factor);
    } else {
      MulMono(x, q, factor);
    }
  }

  lemma MulMono(a: nat, b: nat, c: nat)
    requires a <= b
    ensures a * c <= b * c
  {
  }

  /**
   Succeeds exactly when some lane passes every filter within the deadline, and then
   returns the id of the first lane with the least score.
   */
  method Decide(now: nat, lanes: seq<Lane>, stats: seq<Stats>, request: Request)
    returns (laneID: nat, ok: bool)
    requires forall i :: 0 <= i < |lanes| ==> LaneFits(lanes[i])
    requires forall i :: 0 <= i < |stats| ==> StatsFit(stats[i])
    requires now < U64
    ensures var n := Min(Min(|stats|, |lanes|), MAX_LANES);
            && (ok <==> exists i :: 0 <= i < n && Eligible(now, lanes[i], stats[i], request))
            && (ok ==> exists k: nat :: Best(now, lanes, stats, request, n, k) && laneID == lanes[k].laneID
                                        && lanes[k].classes != 0)
  {
    hide Eligible, HoldsLocality, LaneFits, StatsFit;
    laneID, ok := 0, false;
    ghost var at: nat := 0;
    var bestScore := MAX64;
    var n := Min(Min(|stats|, |lanes|), MAX_LANES);
    var i := 0;
    while i < n
      invariant 0 <= i <= n
      invariant ok <==> exists k :: 0 <= k < i && Eligible(now, lanes[k], stats[k], request)
      invariant ok ==> Best(now, lanes, stats, request, i, at) && laneID == lanes[at].laneID
      invariant ok ==> bestScore == TrueScore(lanes[at], stats[at], request) && lanes[at].classes != 0
    {
      var score := Consider(now, lanes[i], stats[i], request);
      if score.Some? && (!ok || score.value < bestScore) {
        bestScore, laneID, ok := score.value, lanes[i].laneID, true;
        at := i;
      }
      i := i + 1;
    }
  }

  // One turn of the filter chain: the lane's score, or none when it is skipped.
  method Consider(now: nat, d: Lane, s: Stats, request: Request) returns (score: Option<nat>)
    requires LaneFits(d) && StatsFit(s) && now < U64
    ensures score.Some? <==> Eligible(now, d, s, request)
    ensures score.Some? ==> score.value == TrueScore(d, s, request) && d.classes != 0
  {
    hide And, EachBitIn, Bit;
    AndSubset(d.classes, request.requiredClasses);
    if d.classes == 0 { return None; }
    if !Covers(d, request.requiredClasses) { return None; }
    if !AllowsJurisdiction(d, request.jurisdiction) { return None; }
    if !IsFresh(now, s) { return None; }
    var expected, sampled := ExpectedLatency(d, s);
    if !sampled { return None; }
    var value := expected;
    if HoldsLocality(d, request.affinityKey) {
      value := if AFFINITY_BONUS_NS > value then 0 else value - AFFINITY_BONUS_NS;
    }
    if value > request.deadlineNs { return None; }
    score := Some(value);
  }

  // Row codec

  function Encode(d: Lane): (row: seq<byte>)
    ensures |row| == ROW_BYTES
    ensures forall k :: 28 <= k < ROW_BYTES ==> row[k] == 0
  {
    LE(d.classes, 8) + LE(d.bloom, 8) + LE(d.laneID, 2) + LE(d.jurisdiction, 2)
    + LE(d.maxConcurrency, 4) + LE(d.generation, 4) + seq(36, _ => 0)
  }

  function Decode(row: seq<byte>): Lane
    requires |row| >= ROW_BYTES
  {
    Lane(FromLE(row[0..8]), FromLE(row[8..16]), FromLE(row[16..18]), FromLE(row[18..20]),
         FromLE(row[20..24]), FromLE(row[24..28]))
  }

  /** A row read back is the row written. */
  lemma RowRoundTrip(d: Lane)
    requires LaneFits(d)
    ensures Decode(Encode(d)) == d
  {
    hide LE, FromLE;
    Widths();
    var row := Encode(d);
    assert row[0..8] == LE(d.classes, 8) && row[8..16] == LE(d.bloom, 8) && row[16..18] == LE(d.laneID, 2);
    assert row[18..20] == LE(d.jurisdiction, 2) && row[20..24] == LE(d.maxConcurrency, 4);
    assert row[24..28] == LE(d.generation, 4);
    LERoundTrip(d.classes, 8);
    LERoundTrip(d.bloom, 8);
    LERoundTrip(d.laneID, 2);
    LERoundTrip(d.jurisdiction, 2);
    LERoundTrip(d.maxConcurrency, 4);
    LERoundTrip(d.generation, 4);
  }
}
