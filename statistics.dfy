/**
 * `calculate_statistics`: the summary figures shown beside the intensity
 * chart, computed from the current log without changing it. Values are
 * exact reals; the final `round(.., 1)` is not modelled.
 */
module Statistics {
  import opened Wrappers
  import opened Frame

  /** The figures of the summary; `latestTimestamp` is `None` where the
      dashboard shows "N/A". */
  datatype Summary = Summary(
    avgIntensity: real,
    avgVoltage: real,
    lampOnPercentage: real,
    totalData: nat,
    latestTimestamp: Option<Timestamp>)

  /** Sum of the present values; absent ones contribute nothing. */
  function SumPresent(xs: seq<Option<real>>): real {
    if xs == [] then 0.0 else SumPresent(xs[..|xs| - 1]) + xs[|xs| - 1].GetOr(0.0)
  }

  /** Number of present values. */
  function CountPresent(xs: seq<Option<real>>): (n: nat)
    ensures n <= |xs|
  {
    if xs == [] then 0 else CountPresent(xs[..|xs| - 1]) + (if xs[|xs| - 1].Some? then 1 else 0)
  }

  /** pandas' `mean()` over a column with missing values, or 0 when every
      value is missing. */
  function MeanPresent(xs: seq<Option<real>>): (m: real)
    ensures CountPresent(xs) == 0 ==> m == 0.0
  {
    var n := CountPresent(xs);
    if n == 0 then 0.0 else SumPresent(xs) / (n as real)
  }

  function Intensities(log: seq<Row>): (xs: seq<Option<real>>)
    ensures |xs| == |log|
  {
    seq(|log|, k requires 0 <= k < |log| => log[k].intensity)
  }

  function Voltages(log: seq<Row>): (xs: seq<Option<real>>)
    ensures |xs| == |log|
  {
    seq(|log|, k requires 0 <= k < |log| => log[k].voltage)
  }

  /** Number of rows whose lamp state is "MENYALA". */
  function CountLampOn(log: seq<Row>): (n: nat)
    ensures n <= |log|
  {
    if log == [] then 0 else CountLampOn(log[..|log| - 1]) + (if log[|log| - 1].lamp.Label() == "MENYALA" then 1 else 0)
  }

  /** The largest timestamp of a non-empty log. */
  function MaxTimestamp(log: seq<Row>): (t: Timestamp)
    requires log != []
    ensures exists k :: 0 <= k < |log| && log[k].timestamp == t
    ensures forall k :: 0 <= k < |log| ==> log[k].timestamp <= t
  {
    if |log| == 1 then log[0].timestamp
    else
      var m := MaxTimestamp(log[..|log| - 1]);
      var last := log[|log| - 1].timestamp;
      if last > m then last else m
  }

  /** `calculate_statistics` over the rows of the log. */
  function Stats(log: seq<Row>): (s: Summary)
    ensures log == [] ==> s == Summary(0.0, 0.0, 0.0, 0, None)
    ensures s.totalData == |log|
    ensures s.avgIntensity == MeanPresent(Intensities(log))
    ensures s.avgVoltage == MeanPresent(Voltages(log))
    ensures log != [] ==> s.lampOnPercentage == Percentage(CountLampOn(log), |log|)
    ensures 0.0 <= s.lampOnPercentage <= 100.0
    ensures s.latestTimestamp.Some? <==> log != []
    ensures s.latestTimestamp.Some? ==>
      forall k :: 0 <= k < |log| ==> log[k].timestamp <= s.latestTimestamp.value
  {
    if log == [] then
      Summary(0.0, 0.0, 0.0, 0, None)
    else
      var percentage := Percentage(CountLampOn(log), |log|);
      Summary(
        MeanPresent(Intensities(log)),
        MeanPresent(Voltages(log)),
        percentage,
        |log|,
        Some(MaxTimestamp(log)))
  }

  /** `on / n * 100`: the share of `n` that `on` is, in percent. */
  function Percentage(on: nat, n: nat): (p: real)
    requires on <= n && n > 0
    ensures 0.0 <= p <= 100.0
    ensures p * (n as real) == 100.0 * (on as real)
  {
    RatioWithin(on as real, n as real);
    (on as real) / (n as real) * 100.0
  }

  lemma RatioWithin(a: real, b: real)
    requires 0.0 <= a <= b && b > 0.0
    ensures 0.0 <= a / b * 100.0 <= 100.0
    ensures a / b * 100.0 * b == 100.0 * a
  {
    QuotientWithin(a, b, 0.0, 1.0);
  }

  /** A sum between `lo * n` and `hi * n` divided by `n` lies between `lo` and `hi`. */
  lemma QuotientWithin(sum: real, n: real, lo: real, hi: real)
    requires n > 0.0 && lo * n <= sum <= hi * n
    ensures lo <= sum / n <= hi
  {
    var q := sum / n;
    assert q * n == sum;
    assert (q - lo) * n >= 0.0;
    assert (hi - q) * n >= 0.0;
  }

  /** `x` added once for every present value of `xs`. */
  function PresentTimes(x: real, xs: seq<Option<real>>): real {
    if xs == [] then 0.0 else PresentTimes(x, xs[..|xs| - 1]) + (if xs[|xs| - 1].Some? then x else 0.0)
  }

  /** Adding `x` once per present value is multiplying it by their number. */
  lemma {:induction false} PresentTimesIsProduct(x: real, xs: seq<Option<real>>)
    ensures PresentTimes(x, xs) == x * (CountPresent(xs) as real)
  {
    if xs != [] {
      var init := xs[..|xs| - 1];
      PresentTimesIsProduct(x, init);
      var c := CountPresent(init) as real;
      assert x * (c + 1.0) == x * c + x;
    }
  }

  /** A sum of values within `lo..hi` lies between `lo` and `hi` taken once
      per value. */
  lemma {:induction false} SumPresentBounds(xs: seq<Option<real>>, lo: real, hi: real)
    requires forall k :: 0 <= k < |xs| && xs[k].Some? ==> lo <= xs[k].value <= hi
    ensures PresentTimes(lo, xs) <= SumPresent(xs) <= PresentTimes(hi, xs)
  {
    if xs != [] {
      var init := xs[..|xs| - 1];
      forall k | 0 <= k < |init| && init[k].Some?
        ensures lo <= init[k].value <= hi
      {
        assert init[k] == xs[k];
      }
      SumPresentBounds(init, lo, hi);
    }
  }

  /** An average lies between the smallest and the largest present value. */
  lemma MeanWithin(xs: seq<Option<real>>, lo: real, hi: real)
    requires forall k :: 0 <= k < |xs| && xs[k].Some? ==> lo <= xs[k].value <= hi
    requires CountPresent(xs) > 0
    ensures lo <= MeanPresent(xs) <= hi
  {
    SumPresentBounds(xs, lo, hi);
    PresentTimesIsProduct(lo, xs);
    PresentTimesIsProduct(hi, xs);
    MeanOfBoundedSum(xs, lo, hi);
  }

  lemma MeanOfBoundedSum(xs: seq<Option<real>>, lo: real, hi: real)
    requires CountPresent(xs) > 0
    requires lo * (CountPresent(xs) as real) <= SumPresent(xs) <= hi * (CountPresent(xs) as real)
    ensures lo <= MeanPresent(xs) <= hi
  {
    var sum, n := SumPresent(xs), CountPresent(xs) as real;
    QuotientWithin(sum, n, lo, hi);
    assert MeanPresent(xs) == sum / n;
  }

  /** Absent values count neither in the sum nor in the divisor:
      intensities 10, absent, 30 average to 20. */
  lemma MeanSkipsAbsent()
    ensures MeanPresent([Some(10.0), None, Some(30.0)]) == 20.0
  {
    var xs := [Some(10.0), None, Some(30.0)];
    assert xs[..2] == [Some(10.0), None];
    assert xs[..2][..1] == [Some(10.0)];
    assert [Some(10.0)][..0] == [];
    assert CountPresent(xs) == 2;
    assert SumPresent(xs) == 40.0;
  }

  /** The label "MENYALA" names the lit lamp and no other state. */
  lemma LitLabel(lamp: LampState)
    ensures lamp.Label() == "MENYALA" <==> lamp == LampOn
  {
    if lamp != LampOn {
      assert lamp.Label()[1] != 'E';
    }
  }

  /** Positions of the rows whose voltage read exactly 0.0. */
  ghost function ZeroVoltageRows(log: seq<Row>): set<int> {
    set k | 0 <= k < |log| && log[k].voltage == Some(0.0)
  }

  /** A decoded row adds one to the lamp-on count exactly when its voltage is 0.0. */
  lemma CountLampOnStep(log: seq<Row>)
    requires log != [] && WellFormed(log[|log| - 1])
    ensures CountLampOn(log) ==
      CountLampOn(log[..|log| - 1]) + (if log[|log| - 1].voltage == Some(0.0) then 1 else 0)
  {
    LitLabel(log[|log| - 1].lamp);
  }

  /** A row adds its position to the zero-voltage positions exactly when its
      voltage is 0.0. */
  lemma ZeroVoltageStep(log: seq<Row>)
    requires log != []
    ensures |ZeroVoltageRows(log)| ==
      |ZeroVoltageRows(log[..|log| - 1])| + (if log[|log| - 1].voltage == Some(0.0) then 1 else 0)
  {
    var init, last := log[..|log| - 1], |log| - 1;
    var before, after := ZeroVoltageRows(init), ZeroVoltageRows(log);
    var added: set<int> := if log[last].voltage == Some(0.0) then {last} else {};
    forall k
      ensures k in after <==> k in before + added
    {
      if 0 <= k < |init| {
        assert init[k] == log[k];
      }
    }
    assert after == before + added;
    assert last !in before;
  }

  /** On decoded rows the lamp is lit exactly when the voltage read 0.0, so
      the lamp-on figure counts the rows with zero voltage. */
  lemma {:induction false} LampOnCountsZeroVoltage(log: seq<Row>)
    requires forall k :: 0 <= k < |log| ==> WellFormed(log[k])
    ensures CountLampOn(log) == |ZeroVoltageRows(log)|
  {
    if log != [] {
      var init := log[..|log| - 1];
      assert forall k :: 0 <= k < |init| ==> init[k] == log[k];
      LampOnCountsZeroVoltage(init);
      CountLampOnStep(log);
      ZeroVoltageStep(log);
    }
  }

  /** The latest timestamp is the largest one, which need not be the one of
      the row appended last. */
  lemma LatestIsMaximum(log: seq<Row>)
    requires log != []
    ensures Stats(log).latestTimestamp == Some(MaxTimestamp(log))
    ensures exists k :: 0 <= k < |log| && log[k].timestamp == Stats(log).latestTimestamp.value
  {
  }
}
