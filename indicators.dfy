/**
 * calculate_ma: adds the short_ma, long_ma and signal columns to a (timestamp, ratio) frame.
 * The frame is a value here, so the caller's frame (the copy the bot passes in) is never altered.
 */
module Indicators {
  import opened Wrappers
  import opened Settings
  import opened MovingAverage

  /** datetime.now() at the moment of sampling; only its identity matters to the core. */
  type Timestamp = int

  /** One row of historical_ratio. */
  datatype Row = Row(timestamp: Timestamp, ratio: Ratio)

  /** One row of the frame calculate_ma returns; None stands for NaN. */
  datatype MaRow = MaRow(timestamp: Timestamp, ratio: Ratio, shortMa: Option<real>, longMa: Option<real>, signal: int)

  function Ratios(rows: seq<Row>): (xs: seq<real>)
    ensures |xs| == |rows|
    ensures forall i :: 0 <= i < |rows| ==> xs[i] == rows[i].ratio
  {
    seq(|rows|, i requires 0 <= i < |rows| => rows[i].ratio as real)
  }

  /**
   * np.where(short_ma > long_ma, 1, -1): 1 (favour BTC) exactly when both averages exist and the
   * short one is strictly above the long one; a tie or a NaN on either side gives -1 (favour ETH).
   */
  function SignalOf(shortMa: Option<real>, longMa: Option<real>): (s: int)
    ensures s == 1 || s == -1
    ensures s == 1 <==> shortMa.Some? && longMa.Some? && shortMa.value > longMa.value
  {
    match (shortMa, longMa)
    case (Some(a), Some(b)) => if a > b then 1 else -1
    case _ => -1
  }

  /** The signal column of a ratio column. */
  function Signals(xs: seq<real>, shortWindow: Window, longWindow: Window, useEma: bool): (ss: seq<int>)
    ensures |ss| == |xs|
  {
    var s := Average(xs, shortWindow, useEma);
    var l := Average(xs, longWindow, useEma);
    seq(|xs|, i requires 0 <= i < |xs| => SignalOf(s[i], l[i]))
  }

  /** The signal column of the frame is the signal column of its ratios. */
  lemma SignalsAgree(rows: seq<Row>, shortWindow: Window, longWindow: Window, useEma: bool, i: nat)
    requires i < |rows|
    ensures Signals(Ratios(rows), shortWindow, longWindow, useEma)[i] == CalculateMa(rows, shortWindow, longWindow, useEma)[i].signal
  {
  }

  function CalculateMa(rows: seq<Row>, shortWindow: Window, longWindow: Window, useEma: bool): (df: seq<MaRow>)
    ensures |df| == |rows|
    ensures forall i :: 0 <= i < |rows| ==> df[i].timestamp == rows[i].timestamp && df[i].ratio == rows[i].ratio
    ensures forall i :: 0 <= i < |rows| ==>
      (df[i].signal == 1 || df[i].signal == -1) &&
      (df[i].signal == 1 <==> df[i].shortMa.Some? && df[i].longMa.Some? && df[i].shortMa.value > df[i].longMa.value)
  {
    var xs := Ratios(rows);
    var s := Average(xs, shortWindow, useEma);
    var l := Average(xs, longWindow, useEma);
    seq(|rows|, i requires 0 <= i < |rows| => MaRow(rows[i].timestamp, rows[i].ratio, s[i], l[i], SignalOf(s[i], l[i])))
  }

  /**
   * EMA mode (ewm with adjust=False): both averages are defined at every row, start at the first
   * ratio and move a fraction 2/(w+1) of the way towards each new ratio.
   */
  lemma CalculateMaEma(rows: seq<Row>, shortWindow: Window, longWindow: Window, i: nat)
    requires i < |rows|
    ensures var df := CalculateMa(rows, shortWindow, longWindow, true);
      && df[i].shortMa.Some? && df[i].longMa.Some?
      && (i == 0 ==> df[i].shortMa.value == df[i].longMa.value == rows[0].ratio as real)
      && (i > 0 ==> df[i - 1].shortMa.Some? && df[i - 1].longMa.Some?)
      && (i > 0 ==> df[i].shortMa.value == EmaStep(df[i - 1].shortMa.value, rows[i].ratio as real, shortWindow))
      && (i > 0 ==> df[i].longMa.value == EmaStep(df[i - 1].longMa.value, rows[i].ratio as real, longWindow))
  {
    var xs := Ratios(rows);
    EmaRecurrence(xs, shortWindow, i);
    EmaRecurrence(xs, longWindow, i);
  }

  /** EMA mode: each average lies between the least and greatest ratio seen so far. */
  lemma CalculateMaEmaWithin(rows: seq<Row>, shortWindow: Window, longWindow: Window, i: nat)
    requires i < |rows|
    ensures var df := CalculateMa(rows, shortWindow, longWindow, true);
      var seen := Ratios(rows)[..i + 1];
      && df[i].shortMa.Some? && Min(seen) <= df[i].shortMa.value <= Max(seen)
      && df[i].longMa.Some? && Min(seen) <= df[i].longMa.value <= Max(seen)
  {
    var xs := Ratios(rows);
    EmaBetweenMinMax(xs, shortWindow, i);
    EmaBetweenMinMax(xs, longWindow, i);
  }

  /**
   * SMA mode (rolling mean): an average over window w is NaN before row w - 1 and the mean of the
   * last w ratios from there on.
   */
  lemma CalculateMaSma(rows: seq<Row>, shortWindow: Window, longWindow: Window, i: nat)
    requires i < |rows|
    ensures var df := CalculateMa(rows, shortWindow, longWindow, false);
      var xs := Ratios(rows);
      && (df[i].shortMa.Some? <==> i + 1 >= shortWindow)
      && (df[i].longMa.Some? <==> i + 1 >= longWindow)
      && (i + 1 >= shortWindow ==> df[i].shortMa.value == Mean(xs[i + 1 - shortWindow..i + 1]))
      && (i + 1 >= longWindow ==> df[i].longMa.value == Mean(xs[i + 1 - longWindow..i + 1]))
  {
    var xs := Ratios(rows);
    RollingMeanAt(xs, shortWindow, i);
    RollingMeanAt(xs, longWindow, i);
  }

  /**
   * A constant ratio r: wherever an average is defined it equals r, so the short average is never
   * strictly above the long one and every signal is -1.
   */
  lemma CalculateMaConstant(rows: seq<Row>, shortWindow: Window, longWindow: Window, useEma: bool, r: Ratio)
    requires forall j :: 0 <= j < |rows| ==> rows[j].ratio == r
    ensures var df := CalculateMa(rows, shortWindow, longWindow, useEma);
      forall i :: 0 <= i < |rows| ==>
        df[i].shortMa in {None, Some(r as real)} && df[i].longMa in {None, Some(r as real)} && df[i].signal == -1
  {
    var xs := Ratios(rows);
    AverageOfConstant(xs, shortWindow, useEma, r as real);
    AverageOfConstant(xs, longWindow, useEma, r as real);
  }

  /** The ratio series of the crossover example: five samples at 1 followed by five at 2. */
  const CROSSOVER_RATIOS: seq<real> := [1.0, 1.0, 1.0, 1.0, 1.0, 2.0, 2.0, 2.0, 2.0, 2.0]

  /** The 2-sample rolling mean of the crossover series. */
  lemma CrossoverShortAverage()
    ensures RollingMean(CROSSOVER_RATIOS, 2) == [None, Some(1.0), Some(1.0), Some(1.0), Some(1.0), Some(1.5), Some(2.0), Some(2.0), Some(2.0), Some(2.0)]
  {
    RollingMeanAt(CROSSOVER_RATIOS, 2, 0);
    RollingMeanAt(CROSSOVER_RATIOS, 2, 1);
    assert CROSSOVER_RATIOS[0..2] == [1.0, 1.0];
    SumOfWindow(CROSSOVER_RATIOS[0..2]);
    RollingMeanAt(CROSSOVER_RATIOS, 2, 2);
    assert CROSSOVER_RATIOS[1..3] == [1.0, 1.0];
    SumOfWindow(CROSSOVER_RATIOS[1..3]);
    RollingMeanAt(CROSSOVER_RATIOS, 2, 3);
    assert CROSSOVER_RATIOS[2..4] == [1.0, 1.0];
    SumOfWindow(CROSSOVER_RATIOS[2..4]);
    RollingMeanAt(CROSSOVER_RATIOS, 2, 4);
    assert CROSSOVER_RATIOS[3..5] == [1.0, 1.0];
    SumOfWindow(CROSSOVER_RATIOS[3..5]);
    RollingMeanAt(CROSSOVER_RATIOS, 2, 5);
    assert CROSSOVER_RATIOS[4..6] == [1.0, 2.0];
    SumOfWindow(CROSSOVER_RATIOS[4..6]);
    RollingMeanAt(CROSSOVER_RATIOS, 2, 6);
    assert CROSSOVER_RATIOS[5..7] == [2.0, 2.0];
    SumOfWindow(CROSSOVER_RATIOS[5..7]);
    RollingMeanAt(CROSSOVER_RATIOS, 2, 7);
    assert CROSSOVER_RATIOS[6..8] == [2.0, 2.0];
    SumOfWindow(CROSSOVER_RATIOS[6..8]);
    RollingMeanAt(CROSSOVER_RATIOS, 2, 8);
    assert CROSSOVER_RATIOS[7..9] == [2.0, 2.0];
    SumOfWindow(CROSSOVER_RATIOS[7..9]);
    RollingMeanAt(CROSSOVER_RATIOS, 2, 9);
    assert CROSSOVER_RATIOS[8..10] == [2.0, 2.0];
    SumOfWindow(CROSSOVER_RATIOS[8..10]);
  }

  /** The 5-sample rolling mean of the crossover series. */
  lemma CrossoverLongAverage()
    ensures RollingMean(CROSSOVER_RATIOS, 5) == [None, None, None, None, Some(1.0), Some(1.2), Some(1.4), Some(1.6), Some(1.8), Some(2.0)]
  {
    RollingMeanAt(CROSSOVER_RATIOS, 5, 0);
    RollingMeanAt(CROSSOVER_RATIOS, 5, 1);
    RollingMeanAt(CROSSOVER_RATIOS, 5, 2);
    RollingMeanAt(CROSSOVER_RATIOS, 5, 3);
    RollingMeanAt(CROSSOVER_RATIOS, 5, 4);
    assert CROSSOVER_RATIOS[0..5] == [1.0, 1.0, 1.0, 1.0, 1.0];
    SumOfWindow(CROSSOVER_RATIOS[0..5]);
    RollingMeanAt(CROSSOVER_RATIOS, 5, 5);
    assert CROSSOVER_RATIOS[1..6] == [1.0, 1.0, 1.0, 1.0, 2.0];
    SumOfWindow(CROSSOVER_RATIOS[1..6]);
    RollingMeanAt(CROSSOVER_RATIOS, 5, 6);
    assert CROSSOVER_RATIOS[2..7] == [1.0, 1.0, 1.0, 2.0, 2.0];
    SumOfWindow(CROSSOVER_RATIOS[2..7]);
    RollingMeanAt(CROSSOVER_RATIOS, 5, 7);
    assert CROSSOVER_RATIOS[3..8] == [1.0, 1.0, 2.0, 2.0, 2.0];
    SumOfWindow(CROSSOVER_RATIOS[3..8]);
    RollingMeanAt(CROSSOVER_RATIOS, 5, 8);
    assert CROSSOVER_RATIOS[4..9] == [1.0, 2.0, 2.0, 2.0, 2.0];
    SumOfWindow(CROSSOVER_RATIOS[4..9]);
    RollingMeanAt(CROSSOVER_RATIOS, 5, 9);
    assert CROSSOVER_RATIOS[5..10] == [2.0, 2.0, 2.0, 2.0, 2.0];
    SumOfWindow(CROSSOVER_RATIOS[5..10]);
  }

  /**
   * The crossover example in SMA mode with windows 2 and 5. The signal turns from -1 to 1 once, at
   * index 5 (1.5 > 1.2), and back to -1 at index 9, where both averages are 2 and the tie goes to -1.
   */
  lemma CrossoverExample()
    ensures Signals(CROSSOVER_RATIOS, 2, 5, false) == [-1, -1, -1, -1, -1, 1, 1, 1, 1, -1]
  {
    CrossoverShortAverage();
    CrossoverLongAverage();
  }

  lemma SumOfWindow(s: seq<real>)
    requires |s| == 2 || |s| == 5
    ensures |s| == 2 ==> Sum(s) == s[0] + s[1]
    ensures |s| == 5 ==> Sum(s) == s[0] + s[1] + s[2] + s[3] + s[4]
  {
    assert Sum(s[..1]) == s[0] by { assert s[..1][..0] == []; }
    assert Sum(s[..2]) == Sum(s[..1]) + s[1] by { assert s[..2][..1] == s[..1]; }
    if |s| == 5 {
      assert Sum(s[..3]) == Sum(s[..2]) + s[2] by { assert s[..3][..2] == s[..2]; }
      assert Sum(s[..4]) == Sum(s[..3]) + s[3] by { assert s[..4][..3] == s[..3]; }
      assert Sum(s) == Sum(s[..4]) + s[4];
    } else {
      assert s[..2] == s;
    }
  }
}
