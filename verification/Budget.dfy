/** Token budgets: thresholds from the window size, estimates, and the calibration factor. */
module Budget {
  import opened Common
  import opened Turns

  // ---------------------------------------------------------------- thresholds

  datatype Settings = Settings(windowDefault: int, summaryReserve: int, buffer: int, keep: int)

  datatype ContextBudget = ContextBudget(window: int, summaryReserve: int, buffer: int, keepTokens: int)

  function Effective(b: ContextBudget): int {
    Max(1024, b.window - b.summaryReserve)
  }

  function Trigger(b: ContextBudget): int {
    Max(b.keepTokens + 1, Effective(b) - b.buffer)
  }

  function BudgetFor(contextWindow: int, s: Settings): ContextBudget {
    var window := Max(4096, if contextWindow <= 0 then s.windowDefault else contextWindow);
    ContextBudget(
      window,
      Min(Max(1024, s.summaryReserve), window / 4),
      Min(Max(512, s.buffer), window / 4),
      Min(Max(512, s.keep), Max(512, window / 4)))
  }

  /** Whatever the settings, the thresholds are strictly ordered and neither lower clamp ever binds. */
  lemma ThresholdsOrdered(contextWindow: int, s: Settings)
    ensures var b := BudgetFor(contextWindow, s);
      && 512 <= b.keepTokens < Trigger(b) < Effective(b) < b.window
      && Trigger(b) == b.window - b.summaryReserve - b.buffer
      && Effective(b) == b.window - b.summaryReserve
  {
    var b := BudgetFor(contextWindow, s);
    assert 4 * (b.window / 4) <= b.window;
  }

  // ---------------------------------------------------------------- estimates

  function Ceil(x: real): int {
    -((-x).Floor)
  }

  lemma ProductPositive(x: real, y: real)
    requires x > 0.0 && y > 0.0
    ensures x * y > 0.0
  {
  }

  lemma ProductMonotone(x: real, y: real, f: real)
    requires 0.0 <= x && 0.0 <= y && f > 0.0
    ensures 0.0 <= x * f && 0.0 <= y * f && (x + y) * f == x * f + y * f
  {
  }

  function ApplyFactor(estimated: int, factor: real): (r: nat)
    ensures estimated > 0 ==> r > 0
  {
    if estimated <= 0 then 0
    else
      var f := if factor > 0.0 then factor else 1.0;
      ProductPositive(estimated as real, f);
      Ceil(estimated as real * f)
  }

  /** Rounding up once is at most rounding up each part. */
  lemma ApplyFactorSubadditive(a: nat, b: nat, factor: real)
    ensures ApplyFactor(a, factor) <= ApplyFactor(a + b, factor) <= ApplyFactor(a, factor) + ApplyFactor(b, factor)
  {
    var f := if factor > 0.0 then factor else 1.0;
    ProductMonotone(a as real, b as real, f);
    assert (a + b) as real == a as real + b as real;
  }

  function RawTokens(msgs: seq<Message>, cost: Message -> nat): nat {
    if msgs == [] then 0 else RawTokens(msgs[..|msgs| - 1], cost) + cost(msgs[|msgs| - 1])
  }

  function Estimate(msgs: seq<Message>, cost: Message -> nat, factor: real): nat {
    ApplyFactor(RawTokens(msgs, cost), factor)
  }

  method EstimateMessagesTokens(msgs: seq<Message>, cost: Message -> nat, factor: real) returns (n: nat)
    ensures n == Estimate(msgs, cost, factor)
  {
    var total := 0;
    for i := 0 to |msgs|
      invariant total == RawTokens(msgs[..i], cost)
    {
      assert msgs[..i + 1][..i] == msgs[..i];
      total := total + cost(msgs[i]);
    }
    assert msgs[..|msgs|] == msgs;
    n := ApplyFactor(total, factor);
  }

  lemma {:induction false} RawTokensConcat(a: seq<Message>, b: seq<Message>, cost: Message -> nat)
    ensures RawTokens(a + b, cost) == RawTokens(a, cost) + RawTokens(b, cost)
    decreases |b|
  {
    if b == [] {
      assert a + b == a;
    } else {
      RawTokensConcat(a, b[..|b| - 1], cost);
      assert (a + b)[..|a + b| - 1] == a + b[..|b| - 1];
    }
  }

  // ---------------------------------------------------------------- choosing the verbatim window

  /** Sum of the per-turn estimates. */
  function TurnCosts(turns: seq<seq<Message>>, cost: Message -> nat, factor: real): nat {
    if turns == [] then 0 else Estimate(turns[0], cost, factor) + TurnCosts(turns[1..], cost, factor)
  }

  /** Least start whose turns fit the budget, or the last turn if none does. */
  ghost predicate IsWindowStart(turns: seq<seq<Message>>, budget: int, cost: Message -> nat, factor: real, k: nat)
  {
    if turns == [] then k == 0 else
      && k < |turns|
      && (k == |turns| - 1 || TurnCosts(turns[k..], cost, factor) <= budget)
      && forall j :: 0 <= j < k ==> TurnCosts(turns[j..], cost, factor) > budget
  }

  lemma {:induction false} LongerCostsMore(turns: seq<seq<Message>>, i: nat, j: nat, cost: Message -> nat, factor: real)
    requires i <= j <= |turns|
    ensures TurnCosts(turns[j..], cost, factor) <= TurnCosts(turns[i..], cost, factor)
    decreases j - i
  {
    if i < j {
      LongerCostsMore(turns, i + 1, j, cost, factor);
      assert turns[i..][1..] == turns[i + 1..];
    }
  }

  lemma WindowStartUnique(turns: seq<seq<Message>>, budget: int, cost: Message -> nat, factor: real, j: nat, k: nat)
    requires IsWindowStart(turns, budget, cost, factor, j) && IsWindowStart(turns, budget, cost, factor, k)
    ensures j == k
  {
    if turns != [] && j < k { LongerCostsMore(turns, j, k, cost, factor); }
    if turns != [] && k < j { LongerCostsMore(turns, k, j, cost, factor); }
  }

  method ChooseKeepFrom(turns: seq<seq<Message>>, keepTokens: int, cost: Message -> nat, factor: real) returns (keepFrom: nat)
    ensures IsWindowStart(turns, Max(256, keepTokens), cost, factor, keepFrom)
  {
    if turns == [] {
      return 0;
    }
    var budget := Max(256, keepTokens);
    var acc := 0;
    keepFrom := |turns| - 1;
    var i := |turns| - 1;
    while i >= 0
      invariant -1 <= i < |turns|
      invariant i == |turns| - 1 ==> keepFrom == |turns| - 1
      invariant i < |turns| - 1 ==> keepFrom == i + 1
      invariant acc == TurnCosts(turns[i + 1..], cost, factor)
      invariant i < |turns| - 2 ==> acc <= budget
    {
      var c := EstimateMessagesTokens(turns[i], cost, factor);
      assert turns[i..][1..] == turns[i + 1..];
      if i < |turns| - 1 && acc + c > budget {
        forall j | 0 <= j < keepFrom ensures TurnCosts(turns[j..], cost, factor) > budget {
          LongerCostsMore(turns, j, i, cost, factor);
        }
        return;
      }
      acc := acc + c;
      keepFrom := i;
      i := i - 1;
    }
  }

  /** The window's own estimate fits too, unless only the last turn is left. */
  lemma WindowFits(turns: seq<seq<Message>>, budget: int, cost: Message -> nat, factor: real, k: nat)
    requires turns != [] && IsWindowStart(turns, budget, cost, factor, k) && k < |turns| - 1
    ensures Estimate(Flatten(turns[k..]), cost, factor) <= budget
  {
    FlatCostsAtMost(turns[k..], cost, factor);
  }

  lemma {:induction false} FlatCostsAtMost(turns: seq<seq<Message>>, cost: Message -> nat, factor: real)
    ensures Estimate(Flatten(turns), cost, factor) <= TurnCosts(turns, cost, factor)
  {
    if turns != [] {
      FlatCostsAtMost(turns[1..], cost, factor);
      RawTokensConcat(turns[0], Flatten(turns[1..]), cost);
      ApplyFactorSubadditive(RawTokens(turns[0], cost), RawTokens(Flatten(turns[1..]), cost), factor);
    }
  }

  // ---------------------------------------------------------------- calibration

  const FACTOR_MIN := 0.5
  const FACTOR_MAX := 2.5
  const ALPHA := 0.4
  const MAX_SAMPLES := 8

  datatype Calibration = Calibration(model: string, factor: real, samples: nat)

  function Clamp(x: real): real {
    if x < FACTOR_MIN then FACTOR_MIN else if x > FACTOR_MAX then FACTOR_MAX else x
  }

  /** Nearest multiple of 1/10000. */
  function Round4(x: real): real {
    (x * 10000.0 + 0.5).Floor as real / 10000.0
  }

  /** A sample that is missing or out of range changes nothing; a new model starts over. */
  function Calibrate(prev: Option<Calibration>, estimated: int, inputTokens: int, model: string): Option<Calibration> {
    if estimated <= 0 || inputTokens <= 0 then prev
    else
      var sample := inputTokens as real / estimated as real;
      if !(FACTOR_MIN <= sample <= FACTOR_MAX) then prev
      else
        var cur := Current(prev, model);
        Some(Calibration(model, NewFactor(OldFactor(cur), sample, cur.samples), Min(cur.samples + 1, MAX_SAMPLES)))
  }

  function Current(prev: Option<Calibration>, model: string): Calibration {
    if prev.Some? && prev.value.model == model then prev.value else Calibration(model, 1.0, 0)
  }

  function Weight(samples: nat): (alpha: real)
    ensures alpha == 0.4 || alpha == 0.2
  {
    if samples < 3 then ALPHA else ALPHA * 0.5
  }

  function Mix(prior: real, sample: real, alpha: real): real {
    prior * (1.0 - alpha) + sample * alpha
  }

  function NewFactor(prior: real, sample: real, samples: nat): real {
    Round4(Clamp(Mix(prior, sample, Weight(samples))))
  }

  function OldFactor(c: Calibration): real {
    if c.factor == 0.0 then 1.0 else c.factor
  }

  /** The factor applied to estimates for `model`. */
  function FactorOf(calib: Option<Calibration>, model: string): (f: real)
    ensures FACTOR_MIN <= f <= FACTOR_MAX
  {
    if calib.None? || calib.value.model != model then 1.0 else Clamp(OldFactor(calib.value))
  }

  function Abs(x: real): real {
    if x < 0.0 then -x else x
  }

  ghost predicate OnGrid(x: real) {
    (x * 10000.0).Floor as real == x * 10000.0
  }

  lemma RoundIsNear(x: real)
    ensures Abs(Round4(x) - x) <= 0.00005
  {
  }

  /** Rounding cannot leave an interval whose ends have at most four decimals. */
  lemma RoundStaysBetween(x: real, lo: real, hi: real)
    requires OnGrid(lo) && OnGrid(hi) && lo <= x <= hi
    ensures lo <= Round4(x) <= hi
  {
    var l, h, r := (lo * 10000.0).Floor, (hi * 10000.0).Floor, (x * 10000.0 + 0.5).Floor;
    assert l as real <= x * 10000.0 <= h as real;
    assert l <= r <= h;
  }

  lemma RoundedStaysNear(x: real, target: real, d: real)
    requires Abs(x - target) <= d
    ensures Abs(Round4(x) - target) <= d + 0.00005
  {
    RoundIsNear(x);
  }

  /** Part of the distance to the sample that is left after it has been mixed in. */
  function Remaining(samples: nat, distance: real): real {
    if samples < 3 then 0.6 * distance else 0.8 * distance
  }

  lemma MixContracts(prior: real, sample: real, samples: nat)
    requires FACTOR_MIN <= sample <= FACTOR_MAX
    ensures Abs(Clamp(Mix(prior, sample, Weight(samples))) - sample) <= Remaining(samples, Abs(prior - sample))
  {
    if samples < 3 {
      assert Mix(prior, sample, 0.4) - sample == 0.6 * (prior - sample);
    } else {
      assert Mix(prior, sample, 0.2) - sample == 0.8 * (prior - sample);
    }
  }

  /** A factor in the legal range moves by exactly the weight of the sample, up to rounding. */
  lemma NewFactorMoves(prior: real, sample: real, samples: nat)
    requires FACTOR_MIN <= sample <= FACTOR_MAX && FACTOR_MIN <= prior <= FACTOR_MAX
    ensures Abs((NewFactor(prior, sample, samples) - sample) - Remaining(samples, prior - sample)) <= 0.00005
  {
    assert Mix(prior, sample, 0.4) == sample + 0.6 * (prior - sample) && Mix(prior, sample, 0.2) == sample + 0.8 * (prior - sample);
    assert Clamp(Mix(prior, sample, Weight(samples))) == Mix(prior, sample, Weight(samples));
    RoundIsNear(Mix(prior, sample, Weight(samples)));
  }

  lemma NewFactorContracts(prior: real, sample: real, samples: nat)
    requires FACTOR_MIN <= sample <= FACTOR_MAX
    ensures Abs(NewFactor(prior, sample, samples) - sample) <= Remaining(samples, Abs(prior - sample)) + 0.00005
  {
    MixContracts(prior, sample, samples);
    RoundedStaysNear(Clamp(Mix(prior, sample, Weight(samples))), sample, Remaining(samples, Abs(prior - sample)));
  }

  lemma NewFactorStaysBetween(prior: real, sample: real, samples: nat, lo: real, hi: real)
    requires OnGrid(lo) && OnGrid(hi)
    requires FACTOR_MIN <= lo <= prior <= hi <= FACTOR_MAX && lo <= sample <= hi
    ensures lo <= NewFactor(prior, sample, samples) <= hi
  {
    assert lo <= Clamp(Mix(prior, sample, 0.4)) <= hi && lo <= Clamp(Mix(prior, sample, 0.2)) <= hi;
    RoundStaysBetween(Clamp(Mix(prior, sample, Weight(samples))), lo, hi);
  }

  /** An accepted sample brings the factor closer to itself, by the weight it has, up to rounding. */
  lemma SampleContracts(prev: Option<Calibration>, estimated: int, inputTokens: int, model: string)
    requires 0 < estimated && 0 < inputTokens
    requires FACTOR_MIN <= inputTokens as real / estimated as real <= FACTOR_MAX
    ensures var sample := inputTokens as real / estimated as real;
      var cur, after := Current(prev, model), Calibrate(prev, estimated, inputTokens, model);
      && after.Some? && after.value.model == model
      && Abs(after.value.factor - sample) <= Remaining(cur.samples, Abs(OldFactor(cur) - sample)) + 0.00005
      && (FACTOR_MIN <= OldFactor(cur) <= FACTOR_MAX ==>
            Abs((after.value.factor - sample) - Remaining(cur.samples, OldFactor(cur) - sample)) <= 0.00005)
  {
    var cur := Current(prev, model);
    if FACTOR_MIN <= OldFactor(cur) <= FACTOR_MAX {
      NewFactorMoves(OldFactor(cur), inputTokens as real / estimated as real, cur.samples);
    }
    NewFactorContracts(OldFactor(cur), inputTokens as real / estimated as real, cur.samples);
  }

  datatype Sample = Sample(estimated: int, inputTokens: int, model: string)

  function CalibrateAll(start: Option<Calibration>, samples: seq<Sample>): Option<Calibration> {
    if samples == [] then start
    else
      var last := samples[|samples| - 1];
      Calibrate(CalibrateAll(start, samples[..|samples| - 1]), last.estimated, last.inputTokens, last.model)
  }

  ghost predicate FactorWithin(c: Option<Calibration>, lo: real, hi: real) {
    c.Some? ==> lo <= c.value.factor <= hi
  }

  /** A sample between `lo` and `hi`, or one that is ignored. */
  ghost predicate SampleWithin(s: Sample, lo: real, hi: real) {
    0 < s.estimated && 0 < s.inputTokens ==> lo <= s.inputTokens as real / s.estimated as real <= hi
  }

  lemma StepStaysWithin(prev: Option<Calibration>, s: Sample, lo: real, hi: real)
    requires OnGrid(lo) && OnGrid(hi) && FACTOR_MIN <= lo <= 1.0 <= hi <= FACTOR_MAX
    requires FactorWithin(prev, lo, hi)
    requires Calibrate(prev, s.estimated, s.inputTokens, s.model) == prev || SampleWithin(s, lo, hi)
    ensures FactorWithin(Calibrate(prev, s.estimated, s.inputTokens, s.model), lo, hi)
  {
    var after := Calibrate(prev, s.estimated, s.inputTokens, s.model);
    if after != prev {
      var sample := s.inputTokens as real / s.estimated as real;
      var cur := Current(prev, s.model);
      NewFactorStaysBetween(OldFactor(cur), sample, cur.samples, lo, hi);
    }
  }

  /** Under any sequence of samples the factor stays within the legal range. */
  lemma {:induction false} FactorStaysLegal(start: Option<Calibration>, samples: seq<Sample>)
    requires FactorWithin(start, FACTOR_MIN, FACTOR_MAX)
    ensures FactorWithin(CalibrateAll(start, samples), FACTOR_MIN, FACTOR_MAX)
  {
    if samples != [] {
      var init, last := samples[..|samples| - 1], samples[|samples| - 1];
      FactorStaysLegal(start, init);
      StepStaysWithin(CalibrateAll(start, init), last, FACTOR_MIN, FACTOR_MAX);
    }
  }

  /** If all samples lie in a band around 1 that the factor starts in, it never leaves that band. */
  lemma {:induction false} FactorStaysInBand(start: Option<Calibration>, samples: seq<Sample>, lo: real, hi: real)
    requires OnGrid(lo) && OnGrid(hi) && FACTOR_MIN <= lo <= 1.0 <= hi <= FACTOR_MAX
    requires FactorWithin(start, lo, hi)
    requires forall i :: 0 <= i < |samples| ==> SampleWithin(samples[i], lo, hi)
    ensures FactorWithin(CalibrateAll(start, samples), lo, hi)
  {
    if samples != [] {
      var init, last := samples[..|samples| - 1], samples[|samples| - 1];
      FactorStaysInBand(start, init, lo, hi);
      StepStaysWithin(CalibrateAll(start, init), last, lo, hi);
    }
  }
}
