/**
 * Liquidity-sweep / change-of-character detector of the sniper mode.
 *
 * It looks at the last 20 bars of the M15 frame: positions 0..14 are the
 * reference window, positions 15..18 the recent window, and position 19 the
 * latest bar, whose close is the trigger.
 */
module Sweep {
  import opened Market

  const WindowSize := 20
  const ReferenceEnd := 15   // reference window: positions 0 .. 14
  const TriggerPos := 19     // recent window: positions 15 .. 18

  /** A detected sweep: its direction, the swept extreme and the trigger close. */
  datatype SweepResult = NotFound | Found(dir: Direction, extreme: real, trigger: real)

  /** `df.tail(20)`: the last 20 bars, or the whole frame when it is shorter. */
  function Tail(df: seq<Candle>): (w: seq<Candle>)
    ensures |w| == if |df| < WindowSize then |df| else WindowSize
    ensures w == df[|df| - |w|..]
  {
    if |df| < WindowSize then df else df[|df| - WindowSize..]
  }

  /**
   * Bullish sweep over a 20-bar window: some recent bar dips below every
   * reference low, and the trigger closes above every recent high.
   */
  ghost predicate LongSweep(w: seq<Candle>)
    requires |w| == WindowSize
  {
    && (exists j :: ReferenceEnd <= j < TriggerPos && forall i :: 0 <= i < ReferenceEnd ==> w[j].low < w[i].low)
    && (forall j :: ReferenceEnd <= j < TriggerPos ==> w[TriggerPos].close > w[j].high)
  }

  /**
   * Bearish sweep: some recent bar pokes above every reference high, and the
   * trigger closes below every recent low.
   */
  ghost predicate ShortSweep(w: seq<Candle>)
    requires |w| == WindowSize
  {
    && (exists j :: ReferenceEnd <= j < TriggerPos && forall i :: 0 <= i < ReferenceEnd ==> w[j].high > w[i].high)
    && (forall j :: ReferenceEnd <= j < TriggerPos ==> w[TriggerPos].close < w[j].low)
  }

  /** The lowest low of the recent window, stated as an attained lower bound. */
  ghost predicate IsRecentLow(w: seq<Candle>, x: real)
    requires |w| == WindowSize
  {
    && (exists j :: ReferenceEnd <= j < TriggerPos && x == w[j].low)
    && (forall j :: ReferenceEnd <= j < TriggerPos ==> x <= w[j].low)
  }

  /** The highest high of the recent window, stated as an attained upper bound. */
  ghost predicate IsRecentHigh(w: seq<Candle>, x: real)
    requires |w| == WindowSize
  {
    && (exists j :: ReferenceEnd <= j < TriggerPos && x == w[j].high)
    && (forall j :: ReferenceEnd <= j < TriggerPos ==> w[j].high <= x)
  }

  /**
   * The detector. Fewer than 20 bars: not found. Otherwise a LONG sweep
   * exactly when LongSweep holds, reporting the recent low and the latest
   * close; a SHORT sweep exactly when ShortSweep holds and LongSweep does not
   * (LONG is tested first), reporting the recent high and the latest close.
   */
  function DetectChochAndSweep(df: seq<Candle>): (r: SweepResult)
    ensures |df| < WindowSize ==> r == NotFound
    ensures |df| >= WindowSize ==> (r.Found? && r.dir == Long <==> LongSweep(Tail(df)))
    ensures |df| >= WindowSize ==>
              (r.Found? && r.dir == Short <==> ShortSweep(Tail(df)) && !LongSweep(Tail(df)))
    ensures r.Found? ==> r.trigger == df[|df| - 1].close
    ensures r.Found? && r.dir == Long ==> IsRecentLow(Tail(df), r.extreme)
    ensures r.Found? && r.dir == Short ==> IsRecentHigh(Tail(df), r.extreme)
  {
    var w := Tail(df);
    if |w| < WindowSize then NotFound
    else
      var lowestLow := MinLow(w[..ReferenceEnd]);
      var highestHigh := MaxHigh(w[..ReferenceEnd]);
      var currentClose := w[TriggerPos].close;
      var recentLow := MinLow(w[ReferenceEnd..TriggerPos]);
      var recentHigh := MaxHigh(w[ReferenceEnd..TriggerPos]);
      RecentExtremes(w);
      if recentLow < lowestLow && currentClose > recentHigh then
        Found(Long, recentLow, currentClose)
      else if recentHigh > highestHigh && currentClose < recentLow then
        Found(Short, recentHigh, currentClose)
      else
        NotFound
  }

  /** Relates the window minima and maxima to the quantified sweep predicates. */
  lemma RecentExtremes(w: seq<Candle>)
    requires |w| == WindowSize
    ensures IsRecentLow(w, MinLow(w[ReferenceEnd..TriggerPos]))
    ensures IsRecentHigh(w, MaxHigh(w[ReferenceEnd..TriggerPos]))
    ensures LongSweep(w) <==>
              MinLow(w[ReferenceEnd..TriggerPos]) < MinLow(w[..ReferenceEnd])
              && w[TriggerPos].close > MaxHigh(w[ReferenceEnd..TriggerPos])
    ensures ShortSweep(w) <==>
              MaxHigh(w[ReferenceEnd..TriggerPos]) > MaxHigh(w[..ReferenceEnd])
              && w[TriggerPos].close < MinLow(w[ReferenceEnd..TriggerPos])
  {
    RecentLow(w);
    RecentHigh(w);
    LongSweepByExtremes(w);
    ShortSweepByExtremes(w);
  }

  lemma RecentLow(w: seq<Candle>)
    requires |w| == WindowSize
    ensures IsRecentLow(w, MinLow(w[ReferenceEnd..TriggerPos]))
  {
  }

  lemma RecentHigh(w: seq<Candle>)
    requires |w| == WindowSize
    ensures IsRecentHigh(w, MaxHigh(w[ReferenceEnd..TriggerPos]))
  {
  }

  lemma LongSweepByExtremes(w: seq<Candle>)
    requires |w| == WindowSize
    ensures LongSweep(w) <==>
              MinLow(w[ReferenceEnd..TriggerPos]) < MinLow(w[..ReferenceEnd])
              && w[TriggerPos].close > MaxHigh(w[ReferenceEnd..TriggerPos])
  {
    var recent, reference := w[ReferenceEnd..TriggerPos], w[..ReferenceEnd];
    RecentLow(w);
    RecentHigh(w);
    var recentLow, lowestLow := MinLow(recent), MinLow(reference);
    var rl :| 0 <= rl < |reference| && lowestLow == reference[rl].low;
    assert lowestLow == w[rl].low;
    assert forall i :: 0 <= i < ReferenceEnd ==> lowestLow <= w[i].low by {
      forall i | 0 <= i < ReferenceEnd ensures lowestLow <= w[i].low {
        assert w[i] == reference[i];
      }
    }
    var kl :| ReferenceEnd <= kl < TriggerPos && recentLow == w[kl].low;
    if recentLow < lowestLow {
      assert forall i :: 0 <= i < ReferenceEnd ==> w[kl].low < w[i].low;
    }
  }

  lemma ShortSweepByExtremes(w: seq<Candle>)
    requires |w| == WindowSize
    ensures ShortSweep(w) <==>
              MaxHigh(w[ReferenceEnd..TriggerPos]) > MaxHigh(w[..ReferenceEnd])
              && w[TriggerPos].close < MinLow(w[ReferenceEnd..TriggerPos])
  {
    var recent, reference := w[ReferenceEnd..TriggerPos], w[..ReferenceEnd];
    RecentLow(w);
    RecentHigh(w);
    var recentHigh, highestHigh := MaxHigh(recent), MaxHigh(reference);
    var rh :| 0 <= rh < |reference| && highestHigh == reference[rh].high;
    assert highestHigh == w[rh].high;
    assert forall i :: 0 <= i < ReferenceEnd ==> w[i].high <= highestHigh by {
      forall i | 0 <= i < ReferenceEnd ensures w[i].high <= highestHigh {
        assert w[i] == reference[i];
      }
    }
    var kh :| ReferenceEnd <= kh < TriggerPos && recentHigh == w[kh].high;
    if recentHigh > highestHigh {
      assert forall i :: 0 <= i < ReferenceEnd ==> w[kh].high > w[i].high;
    }
  }

  /**
   * On well-formed bars (low <= high) a window cannot be a LONG and a SHORT
   * sweep at once, so testing LONG first loses no SHORT sweep.
   */
  lemma SweepsExclusive(w: seq<Candle>)
    requires |w| == WindowSize
    requires forall j :: ReferenceEnd <= j < TriggerPos ==> WellFormed(w[j])
    ensures !(LongSweep(w) && ShortSweep(w))
  {
    assert WellFormed(w[ReferenceEnd]);
  }

  /**
   * A LONG sweep's trigger closes above its swept low, and a SHORT sweep's
   * below its swept high, when the recent bars are well formed.
   */
  lemma SweepTriggerBeyondExtreme(df: seq<Candle>)
    requires |df| >= WindowSize
    requires forall j :: |df| - 5 <= j < |df| - 1 ==> WellFormed(df[j])
    ensures var r := DetectChochAndSweep(df);
            r.Found? ==> (if r.dir == Long then r.trigger > r.extreme else r.trigger < r.extreme)
  {
  }
}
