/** The usage counters of a sub-skill and the whole-number average of its token cost. */
module UsageMetrics {
  import opened Prelude

  /** A stored metric; only `Whole` values read as numbers. */
  datatype Metric = Whole(number: nat) | Text(text: string) | OtherMetric(json: string)

  type Metrics = map<string, Metric>

  const U64_MAX: nat := 0xFFFF_FFFF_FFFF_FFFF

  /** One recorded load: its token estimate, mode and time. */
  datatype Use = Use(tokens: nat, mode: string, at: string)

  function ReadWhole(metrics: Metrics, key: string): Option<nat> {
    if key in metrics && metrics[key].Whole? then Some(metrics[key].number) else None
  }

  function OrElse(found: Option<nat>, default: nat): nat {
    match found
    case None => default
    case Some(n) => n
  }

  function SaturatingMul(a: nat, b: nat): nat {
    if a * b > U64_MAX then U64_MAX else a * b
  }

  function Incremented(metrics: Metrics, key: string): Metrics {
    metrics[key := Whole(OrElse(ReadWhole(metrics, key), 0) + 1)]
  }

  function Averaged(metrics: Metrics, key: string, sample: nat): Metrics {
    var count := Max(OrElse(ReadWhole(metrics, "use_count"), 1), 1);
    var previous := OrElse(ReadWhole(metrics, key), sample);
    metrics[key := Whole((SaturatingMul(previous, count - 1) + sample) / count)]
  }

  function Recorded(metrics: Metrics, use: Use, success: Option<bool>): Metrics {
    var counted := Incremented(metrics, "use_count");
    var judged := match success
      case None => counted
      case Some(true) => Incremented(counted, "success_count")
      case Some(false) => Incremented(counted, "failure_count");
    var averaged := Averaged(judged, "average_token_cost", use.tokens);
    averaged["last_used_at" := Text(use.at)]["last_load_mode" := Text(use.mode)]
  }

  function RecordedAll(metrics: Metrics, uses: seq<(Use, Option<bool>)>): Metrics {
    if uses == [] then metrics
    else
      var last := uses[|uses| - 1];
      Recorded(RecordedAll(metrics, uses[..|uses| - 1]), last.0, last.1)
  }

  class SkillUsage {
    var metrics: Metrics

    constructor (metrics: Metrics)
      ensures this.metrics == metrics
    {
      this.metrics := metrics;
    }

    method IncrementMetric(key: string)
      modifies this
      ensures metrics == Incremented(old(metrics), key)
    {
      var next := OrElse(ReadWhole(metrics, key), 0) + 1;
      metrics := metrics[key := Whole(next)];
    }

    method UpdateAverageMetric(key: string, sample: nat)
      modifies this
      ensures metrics == Averaged(old(metrics), key, sample)
    {
      var count := Max(OrElse(ReadWhole(metrics, "use_count"), 1), 1);
      var previous := OrElse(ReadWhole(metrics, key), sample);
      var next := (SaturatingMul(previous, count - 1) + sample) / count;
      metrics := metrics[key := Whole(next)];
    }

    method RecordUse(use: Use, success: Option<bool>)
      modifies this
      ensures metrics == Recorded(old(metrics), use, success)
    {
      IncrementMetric("use_count");
      match success {
        case Some(true) => IncrementMetric("success_count");
        case Some(false) => IncrementMetric("failure_count");
        case None =>
      }
      UpdateAverageMetric("average_token_cost", use.tokens);
      metrics := metrics["last_used_at" := Text(use.at)];
      metrics := metrics["last_load_mode" := Text(use.mode)];
    }
  }

  // ---------------------------------------------------------------- what the stored average means

  function SumTokens(uses: seq<(Use, Option<bool>)>): nat {
    if uses == [] then 0 else SumTokens(uses[..|uses| - 1]) + uses[|uses| - 1].0.tokens
  }

  function CountResults(uses: seq<(Use, Option<bool>)>, result: Option<bool>): nat {
    if uses == [] then 0
    else CountResults(uses[..|uses| - 1], result) + (if uses[|uses| - 1].1 == result then 1 else 0)
  }

  predicate AllWithin(uses: seq<(Use, Option<bool>)>, low: nat, high: nat) {
    forall i :: 0 <= i < |uses| ==> low <= uses[i].0.tokens <= high
  }

  /** `average` stands in for the mean of `count` samples summing to `sum`: below it, by under half a count. */
  predicate AverageOf(average: nat, count: nat, sum: nat) {
    count * average <= sum <= count * average + count * (count - 1) / 2
  }

  lemma AverageStep(average: nat, count: nat, sum: nat, sample: nat, next: nat)
    requires AverageOf(average, count, sum)
    requires next == (average * count + sample) / (count + 1)
    ensures AverageOf(next, count + 1, sum + sample)
  {
    var total := average * count + sample;
    assert (count + 1) * next <= total < (count + 1) * next + (count + 1);
    assert count * average == average * count;
    assert (count + 1) * count / 2 == count * (count - 1) / 2 + count by {
      assert (count + 1) * count == count * (count - 1) + 2 * count;
    }
  }

  lemma AverageBetween(average: nat, count: nat, sample: nat, low: nat, high: nat, next: nat)
    requires low <= sample <= high && (count > 0 ==> low <= average <= high)
    requires next == (average * count + sample) / (count + 1)
    ensures low <= next <= high
  {
    if count > 0 {
      MulMonotone(low, average, count);
      MulMonotone(average, high, count);
    }
    assert low * (count + 1) == low * count + low;
    assert high * (count + 1) == high * count + high;
    DivBetween(average * count + sample, count + 1, low, high);
  }

  lemma MulMonotone(a: nat, b: nat, n: nat)
    requires a <= b
    ensures a * n <= b * n
  {
  }

  lemma MulStrict(a: nat, b: nat, n: nat)
    requires a * n < b * n
    ensures a < b
  {
    if b <= a {
      MulMonotone(b, a, n);
    }
  }

  lemma DivBetween(total: nat, n: nat, low: nat, high: nat)
    requires n > 0 && low * n <= total <= high * n
    ensures low <= total / n <= high
  {
    var q, r := total / n, total % n;
    assert total == q * n + r && r < n;
    assert (q + 1) * n == q * n + n && (high + 1) * n == high * n + n;
    MulStrict(low, q + 1, n);
    MulStrict(q, high + 1, n);
  }

  /** The next stored average, as computed, keeps both bounds when nothing saturates. */
  lemma NextAverage(average: nat, count: nat, sum: nat, sample: nat, low: nat, high: nat)
    requires count > 0 && AverageOf(average, count, sum) && sum + sample <= U64_MAX
    requires low <= sample <= high && low <= average <= high
    ensures var next := (SaturatingMul(average, count) + sample) / (count + 1);
            AverageOf(next, count + 1, sum + sample) && low <= next <= high
  {
    assert average * count == count * average;
    assert SaturatingMul(average, count) == average * count;
    var next := (average * count + sample) / (count + 1);
    AverageStep(average, count, sum, sample, next);
    AverageBetween(average, count, sample, low, high, next);
  }

  /** One recorded use, counter by counter. */
  lemma RecordedOnce(before: Metrics, count: nat, use: Use, success: Option<bool>)
    requires OrElse(ReadWhole(before, "use_count"), 0) == count
    ensures var after := Recorded(before, use, success);
            && ReadWhole(after, "use_count") == Some(count + 1)
            && OrElse(ReadWhole(after, "success_count"), 0)
               == OrElse(ReadWhole(before, "success_count"), 0) + (if success == Some(true) then 1 else 0)
            && OrElse(ReadWhole(after, "failure_count"), 0)
               == OrElse(ReadWhole(before, "failure_count"), 0) + (if success == Some(false) then 1 else 0)
            && ReadWhole(after, "average_token_cost")
               == Some((SaturatingMul(OrElse(ReadWhole(before, "average_token_cost"), use.tokens), count)
                        + use.tokens) / (count + 1))
  {
    var counted := Incremented(before, "use_count");
    assert ReadWhole(counted, "use_count") == Some(count + 1);
    var judged := match success
      case None => counted
      case Some(true) => Incremented(counted, "success_count")
      case Some(false) => Incremented(counted, "failure_count");
    assert ReadWhole(judged, "use_count") == Some(count + 1);
    assert ReadWhole(judged, "average_token_cost") == ReadWhole(before, "average_token_cost");
  }

  /** The counters and the average that `uses`, at least one, leave behind. */
  ghost predicate Tallied(metrics: Metrics, uses: seq<(Use, Option<bool>)>, low: nat, high: nat, after: Metrics) {
    && ReadWhole(after, "use_count") == Some(|uses|)
    && OrElse(ReadWhole(after, "success_count"), 0)
       == OrElse(ReadWhole(metrics, "success_count"), 0) + CountResults(uses, Some(true))
    && OrElse(ReadWhole(after, "failure_count"), 0)
       == OrElse(ReadWhole(metrics, "failure_count"), 0) + CountResults(uses, Some(false))
    && var average := ReadWhole(after, "average_token_cost");
       average.Some? && low <= average.value <= high && AverageOf(average.value, |uses|, SumTokens(uses))
  }

  lemma TallyMore(metrics: Metrics, front: seq<(Use, Option<bool>)>, last: (Use, Option<bool>),
                  low: nat, high: nat, before: Metrics)
    requires Tallied(metrics, front, low, high, before) && front != []
    requires low <= last.0.tokens <= high && SumTokens(front) + last.0.tokens <= U64_MAX
    ensures Tallied(metrics, front + [last], low, high, Recorded(before, last.0, last.1))
  {
    assert (front + [last])[..|front|] == front;
    RecordedOnce(before, |front|, last.0, last.1);
    NextAverage(ReadWhole(before, "average_token_cost").value, |front|, SumTokens(front), last.0.tokens, low, high);
  }

  lemma TallyFirst(metrics: Metrics, first: (Use, Option<bool>), low: nat, high: nat)
    requires OrElse(ReadWhole(metrics, "use_count"), 0) == 0 && low <= first.0.tokens <= high
    ensures Tallied(metrics, [first], low, high, Recorded(metrics, first.0, first.1))
  {
    assert [first][..0] == [];
    RecordedOnce(metrics, 0, first.0, first.1);
    FirstAverageAnyway(OrElse(ReadWhole(metrics, "average_token_cost"), first.0.tokens), first.0.tokens);
  }

  /**
   Starting from a use count of zero, after any run of uses: the counters are exact, and the stored
   average is within the samples' range, never above their mean, and below it by at most half the
   number of uses less one.  The samples must sum to a 64-bit value, so that nothing saturates.
   */
  lemma {:induction false} AverageAfterRun(metrics: Metrics, uses: seq<(Use, Option<bool>)>, low: nat, high: nat)
    requires OrElse(ReadWhole(metrics, "use_count"), 0) == 0
    requires uses != [] && AllWithin(uses, low, high) && SumTokens(uses) <= U64_MAX
    ensures Tallied(metrics, uses, low, high, RecordedAll(metrics, uses))
    decreases |uses|
  {
    var n := |uses| - 1;
    var front, last := uses[..n], uses[n];
    assert uses == front + [last];
    if n == 0 {
      assert front == [] && uses == [last];
      TallyFirst(metrics, last, low, high);
    } else {
      AverageAfterRun(metrics, front, low, high);
      TallyMore(metrics, front, last, low, high, RecordedAll(metrics, front));
    }
  }

  /** The first use replaces whatever average was stored. */
  lemma FirstAverageAnyway(previous: nat, sample: nat)
    ensures (SaturatingMul(previous, 0) + sample) / (0 + 1) == sample
  {
    assert previous * 0 == 0;
  }

  /** Recording uses touches no metric but its own six. */
  lemma {:induction false} RunKeepsOtherMetrics(metrics: Metrics, uses: seq<(Use, Option<bool>)>, key: string)
    requires key !in {"use_count", "success_count", "failure_count", "average_token_cost", "last_used_at",
                      "last_load_mode"}
    ensures var after := RecordedAll(metrics, uses);
            (key in after <==> key in metrics) && (key in metrics ==> after[key] == metrics[key])
    decreases |uses|
  {
    if uses != [] {
      RunKeepsOtherMetrics(metrics, uses[..|uses| - 1], key);
    }
  }
}
