/**
 * The normal-mode evaluator: H4 and M15 trend from the second-to-last bar's
 * close against its EMA50, an RSI over-extension check, and levels built
 * from the M15 EMA50 and ATR14.
 *
 * The indicator columns (EMA50, ATR14, RSI14) are inputs aligned row by row
 * with the bars of their frame.
 */
module Normal {
  import opened Options
  import Market

  datatype H4Frame = H4Frame(bars: seq<Market.Candle>, ema50: seq<real>)
  datatype M15Frame = M15Frame(bars: seq<Market.Candle>, ema50: seq<real>, atr: seq<real>, rsi: seq<real>)

  /** Columns aligned with the bars, and the second-to-last row present. */
  predicate H4Ready(f: H4Frame) {
    |f.bars| >= 2 && |f.ema50| == |f.bars|
  }

  predicate M15Ready(f: M15Frame) {
    |f.bars| >= 2 && |f.ema50| == |f.bars| && |f.atr| == |f.bars| && |f.rsi| == |f.bars|
  }

  datatype Trend = Up | Down

  datatype Signal = Long | PendingLong | Short | PendingShort

  datatype WaitReason = NoData | TrendMismatch

  datatype Verdict = Wait(reason: WaitReason) | Setup(signal: Signal, levels: Market.Levels)

  const Overbought: real := 70.0
  const Oversold: real := 30.0
  const PullbackAtr: real := 0.5
  const BracketAtr: real := 2.0

  /** Up when the close is strictly above the EMA50, Down otherwise (ties included). */
  function TrendOf(close: real, ema: real): (t: Trend)
    ensures t == Up <==> close > ema
  {
    if close > ema then Up else Down
  }

  function H4Trend(f: H4Frame): Trend
    requires H4Ready(f)
  {
    var i := |f.bars| - 2;
    TrendOf(f.bars[i].close, f.ema50[i])
  }

  function M15Trend(f: M15Frame): Trend
    requires M15Ready(f)
  {
    var i := |f.bars| - 2;
    TrendOf(f.bars[i].close, f.ema50[i])
  }

  predicate IsLong(s: Signal) { s == Long || s == PendingLong }

  /**
   * The evaluator. A missing frame gives NoData. Both trends Up: a LONG
   * setup, pending exactly when the latest RSI is above 70. Both Down: a
   * SHORT setup, pending exactly when the latest RSI is below 30. Otherwise
   * TrendMismatch. Entry is the M15 EMA50 (half an ATR inside it when
   * pending); stop and target are two ATRs either side of the EMA50.
   */
  function NormalSetup(m15: Option<M15Frame>, h4: Option<H4Frame>): (r: Verdict)
    requires m15.Some? && h4.Some? ==> M15Ready(m15.value) && H4Ready(h4.value)
    ensures m15.None? || h4.None? ==> r == Wait(NoData)
    ensures r.Setup? ==> m15.Some? && h4.Some?
    ensures r.Setup? && IsLong(r.signal) <==>
              m15.Some? && h4.Some? && H4Trend(h4.value) == Up && M15Trend(m15.value) == Up
    ensures r.Setup? && !IsLong(r.signal) <==>
              m15.Some? && h4.Some? && H4Trend(h4.value) == Down && M15Trend(m15.value) == Down
    ensures r == Wait(TrendMismatch) <==>
              m15.Some? && h4.Some? && H4Trend(h4.value) != M15Trend(m15.value)
    ensures r.Setup? ==>
              var f := m15.value;
              var ema, atr, rsi := f.ema50[|f.bars| - 2], f.atr[|f.bars| - 2], f.rsi[|f.bars| - 1];
              && (r.signal == PendingLong <==> IsLong(r.signal) && rsi > Overbought)
              && (r.signal == PendingShort <==> !IsLong(r.signal) && rsi < Oversold)
              && r.levels.entry == (if r.signal == PendingLong then ema - PullbackAtr * atr
                                    else if r.signal == PendingShort then ema + PullbackAtr * atr
                                    else ema)
              && r.levels.sl == (if IsLong(r.signal) then ema - BracketAtr * atr else ema + BracketAtr * atr)
              && r.levels.tp == (if IsLong(r.signal) then ema + BracketAtr * atr else ema - BracketAtr * atr)
  {
    if m15.None? || h4.None? then Wait(NoData)
    else
      var f := m15.value;
      var trendH4, trendM15 := H4Trend(h4.value), M15Trend(f);
      var atr := f.atr[|f.bars| - 2];
      var ema := f.ema50[|f.bars| - 2];
      var rsi := f.rsi[|f.bars| - 1];
      if trendH4 == Up && trendM15 == Up then
        if rsi > Overbought then
          Setup(PendingLong, Market.Levels(ema - PullbackAtr * atr, ema - BracketAtr * atr, ema + BracketAtr * atr))
        else
          Setup(Long, Market.Levels(ema, ema - BracketAtr * atr, ema + BracketAtr * atr))
      else if trendH4 == Down && trendM15 == Down then
        if rsi < Oversold then
          Setup(PendingShort, Market.Levels(ema + PullbackAtr * atr, ema + BracketAtr * atr, ema - BracketAtr * atr))
        else
          Setup(Short, Market.Levels(ema, ema + BracketAtr * atr, ema - BracketAtr * atr))
      else Wait(TrendMismatch)
  }

  /**
   * With a positive ATR every setup brackets its entry (stop on the losing
   * side, target on the winning side); a market setup risks one unit for
   * one unit of reward, a pending one 1.5 ATR for 2.5 ATR.
   */
  lemma SetupRiskReward(m15: Option<M15Frame>, h4: Option<H4Frame>)
    requires m15.Some? && h4.Some? ==> M15Ready(m15.value) && H4Ready(h4.value)
    requires m15.Some? ==> |m15.value.bars| >= 2 && |m15.value.atr| == |m15.value.bars|
    requires m15.Some? ==> m15.value.atr[|m15.value.bars| - 2] > 0.0
    ensures var r := NormalSetup(m15, h4);
            r.Setup? ==>
              var l, atr := r.levels, m15.value.atr[|m15.value.bars| - 2];
              && (IsLong(r.signal) ==> l.sl < l.entry < l.tp)
              && (!IsLong(r.signal) ==> l.tp < l.entry < l.sl)
              && (r.signal == Long ==> l.tp - l.entry == l.entry - l.sl == BracketAtr * atr)
              && (r.signal == Short ==> l.entry - l.tp == l.sl - l.entry == BracketAtr * atr)
              && (r.signal == PendingLong ==> l.entry - l.sl == 1.5 * atr && l.tp - l.entry == 2.5 * atr)
              && (r.signal == PendingShort ==> l.sl - l.entry == 1.5 * atr && l.entry - l.tp == 2.5 * atr)
  {
  }
}
