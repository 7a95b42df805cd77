/**
 * Price data shared by every evaluator: one OHLC bar, a trade direction,
 * and the entry / stop-loss / take-profit levels of a proposal.
 */
module Market {
  /** One bar of a price frame (the `open`, `high`, `low`, `close` columns). */
  datatype Candle = Candle(open: real, high: real, low: real, close: real)

  datatype Direction = Long | Short

  /** Entry, stop-loss and take-profit of a proposed trade, as numbers. */
  datatype Levels = Levels(entry: real, sl: real, tp: real)

  /** A bar whose low is not above its high, as a broker feed delivers it. */
  predicate WellFormed(c: Candle) {
    c.low <= c.high
  }

  function Max(a: real, b: real): (m: real)
    ensures m >= a && m >= b && (m == a || m == b)
  {
    if a >= b then a else b
  }

  function Min(a: real, b: real): (m: real)
    ensures m <= a && m <= b && (m == a || m == b)
  {
    if a <= b then a else b
  }

  /** The lowest `low` of a non-empty run of bars: a lower bound that is attained. */
  function MinLow(s: seq<Candle>): (m: real)
    requires |s| > 0
    ensures forall i :: 0 <= i < |s| ==> m <= s[i].low
    ensures exists i :: 0 <= i < |s| && m == s[i].low
  {
    if |s| == 1 then s[0].low
    else
      var rest := MinLow(s[1..]);
      assert exists i :: 1 <= i < |s| && rest == s[i].low by {
        var k :| 0 <= k < |s| - 1 && rest == s[1..][k].low;
        assert rest == s[k + 1].low;
      }
      Min(s[0].low, rest)
  }

  /** The highest `high` of a non-empty run of bars: an upper bound that is attained. */
  function MaxHigh(s: seq<Candle>): (m: real)
    requires |s| > 0
    ensures forall i :: 0 <= i < |s| ==> s[i].high <= m
    ensures exists i :: 0 <= i < |s| && m == s[i].high
  {
    if |s| == 1 then s[0].high
    else
      var rest := MaxHigh(s[1..]);
      assert exists i :: 1 <= i < |s| && rest == s[i].high by {
        var k :| 0 <= k < |s| - 1 && rest == s[1..][k].high;
        assert rest == s[k + 1].high;
      }
      Max(s[0].high, rest)
  }
}
