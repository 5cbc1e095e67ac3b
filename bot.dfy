/**
 * LiveArbitrageBot: the (timestamp, ratio) history it grows one sample at a time, the BTC and ETH
 * balances it holds, the swap it proposes from the latest crossover signal, and the body of its
 * run_live loop. The exchange, the clock and the Telegram call are parameters: a feed result of
 * None is a get_live_ratio call that raised, and Tick.alertDelivered == false is an alert whose
 * delivery raised.
 */
module Bot {
  import opened Wrappers
  import opened Settings
  import opened Indicators

  datatype Direction = EthToBtc | BtcToEth

  /** The alert generate_signal prints and sends: a direction, the reported gain and the ratio. */
  datatype Swap = Swap(direction: Direction, amount: real, ratio: Ratio)

  /** One pass of run_live's loop: what the exchange returned, the clock, and the alert delivery outcome. */
  datatype Tick = Tick(fetched: Option<Ratio>, now: Timestamp, alertDelivered: bool)

  /** The signal of the last row of calculate_ma over the history, with the configured settings. */
  function LatestSignal(history: seq<Row>): (s: int)
    requires |history| > 0
    ensures s == 1 || s == -1
    ensures var df := CalculateMa(history, SHORT_WINDOW, LONG_WINDOW, USE_EMA);
      s == 1 <==> df[|df| - 1].shortMa.Some? && df[|df| - 1].longMa.Some? && df[|df| - 1].shortMa.value > df[|df| - 1].longMa.value
  {
    CalculateMa(history, SHORT_WINDOW, LONG_WINDOW, USE_EMA)[|history| - 1].signal
  }

  /**
   * The decision of generate_signal: none during warm-up; otherwise ETH -> BTC for signal 1 when ETH
   * is held, BTC -> ETH for signal -1 when BTC is held, none when the favoured swap has nothing to
   * sell. The amounts are the source's formulas: eth * ratio * (1 - FEE) and btc / ratio * (1 - FEE).
   */
  function Decide(history: seq<Row>, btc: real, eth: real): (d: Option<Swap>)
    ensures d.Some? ==> |history| >= LONG_WINDOW && d.value.ratio == history[|history| - 1].ratio
    ensures d.Some? ==> d.value.amount > 0.0
    ensures (d.Some? && d.value.direction == EthToBtc) <==> |history| >= LONG_WINDOW && LatestSignal(history) == 1 && eth > 0.0
    ensures (d.Some? && d.value.direction == BtcToEth) <==> |history| >= LONG_WINDOW && LatestSignal(history) == -1 && btc > 0.0
    ensures d.Some? && d.value.direction == EthToBtc ==> d.value.amount == eth * (d.value.ratio as real) * (1.0 - FEE)
    ensures d.Some? && d.value.direction == BtcToEth ==> d.value.amount == btc / (d.value.ratio as real) * (1.0 - FEE)
  {
    if |history| < LONG_WINDOW then None
    else
      var ratio := history[|history| - 1].ratio;
      if LatestSignal(history) == 1 then
        if eth > 0.0 then Some(Swap(EthToBtc, eth * ratio * (1.0 - FEE), ratio)) else None
      else
        if btc > 0.0 then Some(Swap(BtcToEth, btc / ratio * (1.0 - FEE), ratio)) else None
  }

  /** With a constant ratio r the signal is always -1, so the bot can only ever propose BTC -> ETH. */
  lemma DecideOnConstantHistory(history: seq<Row>, btc: real, eth: real, r: Ratio)
    requires forall j :: 0 <= j < |history| ==> history[j].ratio == r
    ensures Decide(history, btc, eth) ==
      if |history| >= LONG_WINDOW && btc > 0.0 then Some(Swap(BtcToEth, btc / (r as real) * (1.0 - FEE), r)) else None
  {
    CalculateMaConstant(history, SHORT_WINDOW, LONG_WINDOW, USE_EMA, r);
  }

  /**
   * Holding 1 BTC and 10 ETH at ratio 10 with signal 1, the reported gain is 10 * 10 * 0.985 = 98.5:
   * the source's formula eth * ratio * (1 - FEE), with the BTC already held not subtracted.
   */
  lemma SwapAmountExample(history: seq<Row>)
    requires |history| >= LONG_WINDOW && LatestSignal(history) == 1 && history[|history| - 1].ratio == 10.0
    ensures Decide(history, 1.0, 10.0) == Some(Swap(EthToBtc, 98.5, 10.0))
  {
  }

  class LiveArbitrageBot {
    var historicalRatio: seq<Row>
    var currentBtc: real
    var currentEth: real

    /** An empty history and the hard-coded starting balances. */
    constructor ()
      ensures historicalRatio == [] && currentBtc == 1.0 && currentEth == 10.0
    {
      historicalRatio := [];
      currentBtc := 1.0;
      currentEth := 10.0;
    }

    /**
     * Appends one (now, ratio) row when the exchange answered and returns that ratio; when the
     * exchange call raised, nothing is appended and None stands for the exception.
     */
    method UpdateHistoricalData(fetched: Option<Ratio>, now: Timestamp) returns (ratio: Option<Ratio>)
      modifies this`historicalRatio
      ensures ratio == fetched
      ensures fetched.None? ==> historicalRatio == old(historicalRatio)
      ensures fetched.Some? ==> historicalRatio == old(historicalRatio) + [Row(now, fetched.value)]
      ensures fetched.Some? ==>
        && |historicalRatio| == |old(historicalRatio)| + 1
        && historicalRatio[..|old(historicalRatio)|] == old(historicalRatio)
        && historicalRatio[|historicalRatio| - 1].ratio == fetched.value
    {
      match fetched
      case None =>
        ratio := None;
      case Some(r) =>
        historicalRatio := historicalRatio + [Row(now, r)];
        ratio := Some(r);
    }

    /**
     * The decision part of generate_signal. It works on a copy of the history and only reads the
     * balances, so it changes nothing.
     */
    method GenerateSignal() returns (alert: Option<Swap>)
      ensures alert == Decide(historicalRatio, currentBtc, currentEth)
      ensures |historicalRatio| < LONG_WINDOW ==> alert == None
    {
      alert := None;
      if |historicalRatio| >= LONG_WINDOW {
        var df := CalculateMa(historicalRatio, SHORT_WINDOW, LONG_WINDOW, USE_EMA);
        var latestSignal := df[|df| - 1].signal;
        var latestRatio := df[|df| - 1].ratio;
        assert latestSignal == LatestSignal(historicalRatio);
        assert latestRatio == historicalRatio[|historicalRatio| - 1].ratio;
        if latestSignal == 1 {
          if currentEth > 0.0 {
            var btcGain := (currentEth * latestRatio) * (1.0 - FEE);
            alert := Some(Swap(EthToBtc, btcGain, latestRatio));
            assert |historicalRatio| >= LONG_WINDOW && LatestSignal(historicalRatio) == 1;
            assert Decide(historicalRatio, currentBtc, currentEth).value.amount == btcGain;
          }
        } else {
          if currentBtc > 0.0 {
            var ethGain := (currentBtc / latestRatio) * (1.0 - FEE);
            alert := Some(Swap(BtcToEth, ethGain, latestRatio));
          }
        }
      }
    }

    /**
     * One pass of run_live's loop: sample, decide, then sleep CHECK_INTERVAL seconds, or
     * ERROR_DELAY seconds when the exchange call or the alert delivery raised. A failed fetch skips
     * generate_signal; the balances never change.
     */
    method RunLiveStep(tick: Tick) returns (alert: Option<Swap>, sleep: nat)
      modifies this`historicalRatio
      ensures historicalRatio == old(historicalRatio) + NewRows([tick])
      ensures alert == StepAlert(historicalRatio, tick, currentBtc, currentEth)
      ensures sleep == SleepAfter(tick, alert)
    {
      var ratio := UpdateHistoricalData(tick.fetched, tick.now);
      if ratio.None? {
        alert, sleep := None, ERROR_DELAY;
      } else {
        alert := GenerateSignal();
        sleep := if alert.Some? && !tick.alertDelivered then ERROR_DELAY else CHECK_INTERVAL;
      }
    }

    /**
     * A finite stretch of run_live's endless loop, one pass per tick: the history grows by exactly
     * the rows of the successful fetches, in order, and each pass reports the alert and the sleep
     * of RunLiveStep on the history as it stood after that pass's fetch.
     */
    method RunLive(ticks: seq<Tick>) returns (alerts: seq<Option<Swap>>, sleeps: seq<nat>)
      modifies this`historicalRatio
      ensures historicalRatio == old(historicalRatio) + NewRows(ticks)
      ensures alerts == RunAlerts(old(historicalRatio), ticks, currentBtc, currentEth)
      ensures sleeps == RunSleeps(ticks, alerts)
    {
      ghost var start := historicalRatio;
      alerts, sleeps := [], [];
      var i := 0;
      while i < |ticks|
        invariant 0 <= i <= |ticks|
        invariant historicalRatio == start + NewRows(ticks[..i])
        invariant alerts == RunAlerts(start, ticks[..i], currentBtc, currentEth)
        invariant sleeps == RunSleeps(ticks[..i], alerts)
      {
        assert ticks[..i + 1][..i] == ticks[..i];
        NewRowsAppend(ticks[..i], ticks[i]);
        assert ticks[..i + 1] == ticks[..i] + [ticks[i]];
        var alert, sleep := RunLiveStep(ticks[i]);
        alerts, sleeps := alerts + [alert], sleeps + [sleep];
        i := i + 1;
      }
      assert ticks[..i] == ticks;
    }
  }

  /** The alerts of successive passes from a starting history. */
  function RunAlerts(start: seq<Row>, ticks: seq<Tick>, btc: real, eth: real): (alerts: seq<Option<Swap>>)
    ensures |alerts| == |ticks|
    decreases |ticks|
  {
    if |ticks| == 0 then []
    else RunAlerts(start, ticks[..|ticks| - 1], btc, eth) + [StepAlert(start + NewRows(ticks), ticks[|ticks| - 1], btc, eth)]
  }

  /** Pass k of a run reports the alert of StepAlert on the history after the first k + 1 fetches. */
  lemma {:induction false} RunAlertsAt(start: seq<Row>, ticks: seq<Tick>, btc: real, eth: real, k: nat)
    requires k < |ticks|
    ensures RunAlerts(start, ticks, btc, eth)[k] == StepAlert(start + NewRows(ticks[..k + 1]), ticks[k], btc, eth)
    decreases |ticks|
  {
    var n := |ticks|;
    var earlier := RunAlerts(start, ticks[..n - 1], btc, eth);
    var last := StepAlert(start + NewRows(ticks), ticks[n - 1], btc, eth);
    assert RunAlerts(start, ticks, btc, eth) == earlier + [last];
    if k < n - 1 {
      RunAlertsAt(start, ticks[..n - 1], btc, eth, k);
      assert ticks[..n - 1][..k + 1] == ticks[..k + 1];
      assert RunAlerts(start, ticks, btc, eth)[k] == earlier[k];
    } else {
      assert ticks[..k + 1] == ticks;
    }
  }

  /** While the history is still short of LONG_WINDOW rows after a pass, that pass raises no alert. */
  lemma RunAlertsWarmUp(start: seq<Row>, ticks: seq<Tick>, btc: real, eth: real, k: nat)
    requires k < |ticks| && |start| + k + 1 < LONG_WINDOW
    ensures RunAlerts(start, ticks, btc, eth)[k] == None
  {
    RunAlertsAt(start, ticks, btc, eth, k);
  }

  /** The sleeps of successive passes, given their alerts. */
  function RunSleeps(ticks: seq<Tick>, alerts: seq<Option<Swap>>): (sleeps: seq<nat>)
    requires |alerts| == |ticks|
    ensures |sleeps| == |ticks|
    decreases |ticks|
  {
    if |ticks| == 0 then []
    else RunSleeps(ticks[..|ticks| - 1], alerts[..|ticks| - 1]) + [SleepAfter(ticks[|ticks| - 1], alerts[|ticks| - 1])]
  }

  /** The rows the successful fetches of the ticks append, in tick order. */
  function NewRows(ticks: seq<Tick>): (rows: seq<Row>)
    ensures |rows| <= |ticks|
    ensures forall j :: 0 <= j < |rows| ==> exists k :: 0 <= k < |ticks| && ticks[k].fetched == Some(rows[j].ratio)
    decreases |ticks|
  {
    if |ticks| == 0 then []
    else
      var last := ticks[|ticks| - 1];
      NewRows(ticks[..|ticks| - 1]) + (if last.fetched.Some? then [Row(last.now, last.fetched.value)] else [])
  }

  lemma NewRowsAppend(ticks: seq<Tick>, t: Tick)
    ensures NewRows(ticks + [t]) == NewRows(ticks) + NewRows([t])
  {
    assert (ticks + [t])[..|ticks|] == ticks;
    assert [t][..0] == [];
  }

  /** The alert of one pass, given the history after its fetch: none when the fetch raised. */
  function StepAlert(history: seq<Row>, tick: Tick, btc: real, eth: real): (a: Option<Swap>)
    ensures tick.fetched.None? ==> a == None
    ensures a.Some? ==> tick.fetched.Some? && |history| >= LONG_WINDOW && a.value.amount > 0.0
  {
    if tick.fetched.None? then None else Decide(history, btc, eth)
  }

  /** run_live's sleep: ERROR_DELAY after an exception, CHECK_INTERVAL otherwise. */
  function SleepAfter(tick: Tick, alert: Option<Swap>): (s: nat)
    ensures s == ERROR_DELAY <==> tick.fetched.None? || (alert.Some? && !tick.alertDelivered)
    ensures s == ERROR_DELAY || s == CHECK_INTERVAL
  {
    if tick.fetched.None? || (alert.Some? && !tick.alertDelivered) then ERROR_DELAY else CHECK_INTERVAL
  }
}
