/**
 * The sniper ("All-In") evaluator: a short-circuiting chain of gates (news
 * timing, sweep, DXY, GC=F, retail sentiment) ending in a fixed 1:2
 * risk:reward setup around the sweep.
 */
module AllIn {
  import opened Options
  import opened Market
  import opened Sweep
  import opened News

  /** The traffic light shown beside the verdict. */
  datatype Light = Red | Yellow | Green | White

  /** Percentage change of the last bar of the dollar index and of the gold future. */
  datatype Macro = Macro(dxyChange: real, gcfChange: real)

  /** Share of retail traders short and long, in percent. */
  datatype Sentiment = Sentiment(shortPct: real, longPct: real)

  datatype WaitReason =
    | NoData
    | NewsTooClose(title: string)  // red event from half an hour ago to a quarter hour ahead
    | AwaitingNews                 // red event further away than the trading window
    | NoRedNews
    | NoSweep
    | DxyConflict
    | GcfConflict
    | RetailNotCrowded(pct: real)

  datatype Verdict = Wait(reason: WaitReason) | AllInTrade(dir: Direction, levels: Levels)

  datatype Outcome = Outcome(verdict: Verdict, light: Light)

  const EntryOffset: real := 1.0
  const SweepBuffer: real := 0.5
  const MaxRisk: real := 3.0
  const RewardRatio: real := 2.0
  const CrowdThreshold: real := 75.0

  /** The trading window: a red event a quarter to half an hour ahead. */
  predicate InGreenWindow(next: Option<RedNews>) {
    next.Some? && 0.25 <= next.value.hours <= 0.5
  }

  /** The news gate; only Green lets evaluation go on. */
  function NewsLight(next: Option<RedNews>): (light: Light)
    ensures light == Green <==> InGreenWindow(next)
    ensures light == White <==> next.None?
    ensures light == Red <==> next.Some? && -0.5 <= next.value.hours < 0.25
  {
    if next.None? then White
    else if 0.25 <= next.value.hours <= 0.5 then Green
    else if -0.5 <= next.value.hours < 0.25 then Red
    else Yellow
  }

  /**
   * LONG geometry: a buy limit 1.0 below the trigger close, the stop 0.5
   * below the swept low but never more than 3.0 below entry, and the
   * target twice the risk above entry.
   */
  function LongLevels(close: real, sweptLow: real): (l: Levels)
    ensures l.entry == close - EntryOffset
    ensures l.sl >= l.entry - MaxRisk && l.sl >= sweptLow - SweepBuffer
    ensures l.sl == l.entry - MaxRisk || l.sl == sweptLow - SweepBuffer
    ensures l.tp - l.entry == RewardRatio * (l.entry - l.sl)
  {
    var entry := close - EntryOffset;
    var sl := Max(sweptLow - SweepBuffer, entry - MaxRisk);
    Levels(entry, sl, entry + (entry - sl) * RewardRatio)
  }

  /** SHORT geometry: the mirror image of LongLevels. */
  function ShortLevels(close: real, sweptHigh: real): (l: Levels)
    ensures l.entry == close + EntryOffset
    ensures l.sl <= l.entry + MaxRisk && l.sl <= sweptHigh + SweepBuffer
    ensures l.sl == l.entry + MaxRisk || l.sl == sweptHigh + SweepBuffer
    ensures l.entry - l.tp == RewardRatio * (l.sl - l.entry)
  {
    var entry := close + EntryOffset;
    var sl := Min(sweptHigh + SweepBuffer, entry + MaxRisk);
    Levels(entry, sl, entry - (sl - entry) * RewardRatio)
  }

  /**
   * The LONG stop lies below the entry (and the target above it) exactly
   * when the trigger close is more than 0.5 above the swept low; otherwise
   * the stop sits at or above the buy limit and the target at or below it.
   */
  lemma LongStopProtects(close: real, sweptLow: real)
    ensures var l := LongLevels(close, sweptLow);
            (l.sl < l.entry <==> close - sweptLow > 0.5) && (l.sl < l.entry <==> l.tp > l.entry)
            && (l.sl < l.entry ==> 0.0 < l.entry - l.sl <= MaxRisk)
  {
  }

  /** The mirror of LongStopProtects for SHORT setups. */
  lemma ShortStopProtects(close: real, sweptHigh: real)
    ensures var l := ShortLevels(close, sweptHigh);
            (l.sl > l.entry <==> sweptHigh - close > 0.5) && (l.sl > l.entry <==> l.tp < l.entry)
            && (l.sl > l.entry ==> 0.0 < l.sl - l.entry <= MaxRisk)
  {
  }

  /** Whether the macro and sentiment inputs all agree with a LONG sweep. */
  predicate LongConfluence(macro: Macro, sentiment: Sentiment) {
    macro.dxyChange <= 0.0 && macro.gcfChange >= 0.0 && sentiment.shortPct >= CrowdThreshold
  }

  /** Whether the macro and sentiment inputs all agree with a SHORT sweep. */
  predicate ShortConfluence(macro: Macro, sentiment: Sentiment) {
    macro.dxyChange >= 0.0 && macro.gcfChange <= 0.0 && sentiment.longPct >= CrowdThreshold
  }

  /**
   * The evaluator. Without an M15 frame it waits under a red light. With
   * one, the light is the news gate's; it proposes only inside the green
   * window, and then a LONG trade exactly on a LONG sweep with LONG
   * confluence, a SHORT trade exactly on a SHORT sweep (not also LONG) with
   * SHORT confluence, with the geometry of LongLevels / ShortLevels taken at
   * the sweep's trigger close and swept extreme.
   */
  function AllInSetup(m15: Option<seq<Candle>>, next: Option<RedNews>, macro: Macro, sentiment: Sentiment): (r: Outcome)
    ensures m15.None? ==> r == Outcome(Wait(NoData), Red)
    ensures m15.Some? ==> r.light == NewsLight(next)
    ensures m15.Some? && !InGreenWindow(next) ==> r.verdict.Wait?
    ensures m15.Some? && InGreenWindow(next) && DetectChochAndSweep(m15.value).NotFound? ==> r.verdict == Wait(NoSweep)
    ensures r.verdict.AllInTrade? && r.verdict.dir == Long <==>
              && m15.Some? && InGreenWindow(next) && |m15.value| >= WindowSize
              && LongSweep(Tail(m15.value)) && LongConfluence(macro, sentiment)
    ensures r.verdict.AllInTrade? && r.verdict.dir == Short <==>
              && m15.Some? && InGreenWindow(next) && |m15.value| >= WindowSize
              && ShortSweep(Tail(m15.value)) && !LongSweep(Tail(m15.value))
              && ShortConfluence(macro, sentiment)
    ensures r.verdict.AllInTrade? ==>
              var s := DetectChochAndSweep(m15.value);
              && s.Found? && s.dir == r.verdict.dir
              && s.trigger == m15.value[|m15.value| - 1].close
              && r.verdict.levels == (if s.dir == Long then LongLevels(s.trigger, s.extreme)
                                      else ShortLevels(s.trigger, s.extreme))
  {
    if m15.None? then Outcome(Wait(NoData), Red)
    else if next.None? then Outcome(Wait(NoRedNews), White)
    else if !(0.25 <= next.value.hours <= 0.5) then
      if -0.5 <= next.value.hours < 0.25 then Outcome(Wait(NewsTooClose(next.value.title)), Red)
      else Outcome(Wait(AwaitingNews), Yellow)
    else
      var s := DetectChochAndSweep(m15.value);
      if s.NotFound? then Outcome(Wait(NoSweep), Green)
      else match s.dir
        case Long =>
          if macro.dxyChange > 0.0 then Outcome(Wait(DxyConflict), Green)
          else if macro.gcfChange < 0.0 then Outcome(Wait(GcfConflict), Green)
          else if sentiment.shortPct < CrowdThreshold then Outcome(Wait(RetailNotCrowded(sentiment.shortPct)), Green)
          else Outcome(AllInTrade(Long, LongLevels(s.trigger, s.extreme)), Green)
        case Short =>
          if macro.dxyChange < 0.0 then Outcome(Wait(DxyConflict), Green)
          else if macro.gcfChange > 0.0 then Outcome(Wait(GcfConflict), Green)
          else if sentiment.longPct < CrowdThreshold then Outcome(Wait(RetailNotCrowded(sentiment.longPct)), Green)
          else Outcome(AllInTrade(Short, ShortLevels(s.trigger, s.extreme)), Green)
  }

  /**
   * A proposed LONG trade's stop is on the protective side of its entry,
   * with a risk of at most 3.0, exactly when the trigger close beat the
   * swept low by more than 0.5; the same for SHORT with the swept high.
   */
  lemma ProposalRisk(m15: seq<Candle>, next: Option<RedNews>, macro: Macro, sentiment: Sentiment)
    requires AllInSetup(Some(m15), next, macro, sentiment).verdict.AllInTrade?
    ensures var v := AllInSetup(Some(m15), next, macro, sentiment).verdict;
            var s := DetectChochAndSweep(m15);
            && (v.dir == Long ==> (v.levels.sl < v.levels.entry <==> s.trigger - s.extreme > 0.5))
            && (v.dir == Short ==> (v.levels.sl > v.levels.entry <==> s.extreme - s.trigger > 0.5))
  {
  }
}
