/**
 * Logged trades and their resolution against one bar's high and low.
 * A long trade loses when the low reaches its stop and otherwise wins when
 * the high reaches its target; a short trade is the mirror. The stop is
 * tested first, so a bar that spans both counts as a loss.
 */
module Trades {
  import opened Options
  import opened Market
  import Normal

  /** Which evaluator proposed the trade (the logged `setup_type`). */
  datatype Mode = AllInMode | NormalMode

  /** The logged signal: an All-In direction or a normal-mode signal. */
  datatype TradeSignal = AllInSignal(dir: Direction) | NormalSignal(normal: Normal.Signal)

  /** A logged trade: id (the clock second it was logged), mode, signal and levels. */
  datatype Trade = Trade(id: int, mode: Mode, signal: TradeSignal, levels: Levels)

  datatype Result = Win | Loss

  /** The result update sent for a resolved trade. */
  datatype Update = Update(id: int, result: Result)

  /** Whether the signal names a long trade (every logged signal names LONG or SHORT). */
  predicate IsLongTrade(t: Trade) {
    match t.signal
    case AllInSignal(d) => d == Long
    case NormalSignal(s) => Normal.IsLong(s)
  }

  /** The bar reaches the trade's stop-loss. */
  predicate StopTouched(t: Trade, high: real, low: real) {
    if IsLongTrade(t) then low <= t.levels.sl else high >= t.levels.sl
  }

  /** The bar reaches the trade's take-profit. */
  predicate TargetTouched(t: Trade, high: real, low: real) {
    if IsLongTrade(t) then high >= t.levels.tp else low <= t.levels.tp
  }

  /**
   * One trade against one bar: LOSS whenever the stop is touched, WIN when
   * only the target is touched, no result when neither is.
   */
  function Resolve(t: Trade, high: real, low: real): (r: Option<Result>)
    ensures r == Some(Loss) <==> StopTouched(t, high, low)
    ensures r == Some(Win) <==> TargetTouched(t, high, low) && !StopTouched(t, high, low)
    ensures r.None? <==> !StopTouched(t, high, low) && !TargetTouched(t, high, low)
  {
    if IsLongTrade(t) then
      if low <= t.levels.sl then Some(Loss)
      else if high >= t.levels.tp then Some(Win)
      else None
    else
      if high >= t.levels.sl then Some(Loss)
      else if low <= t.levels.tp then Some(Win)
      else None
  }

  predicate Resolves(t: Trade, high: real, low: real) {
    Resolve(t, high, low).Some?
  }

  /** The trades of `s` that resolve on the bar, in their order in `s`. */
  function ResolvedOf(s: seq<Trade>, high: real, low: real): seq<Trade> {
    if s == [] then []
    else (if Resolves(s[0], high, low) then [s[0]] else []) + ResolvedOf(s[1..], high, low)
  }

  /** The trades of `s` that stay open, in their order in `s`. */
  function KeptOf(s: seq<Trade>, high: real, low: real): seq<Trade> {
    if s == [] then []
    else (if Resolves(s[0], high, low) then [] else [s[0]]) + KeptOf(s[1..], high, low)
  }

  /** The updates sent for `s`: one per resolving trade, in order. */
  function UpdatesOf(s: seq<Trade>, high: real, low: real): seq<Update> {
    if s == [] then []
    else
      (if Resolves(s[0], high, low) then [Update(s[0].id, Resolve(s[0], high, low).value)] else [])
      + UpdatesOf(s[1..], high, low)
  }

  /**
   * The bar splits the trades exactly: the kept ones are the trades without
   * a result, the resolved ones the trades with one, and together they are
   * the trades of `s`, duplicates included.
   */
  lemma {:induction false} PartitionByResult(s: seq<Trade>, high: real, low: real)
    ensures forall t :: t in KeptOf(s, high, low) <==> t in s && !Resolves(t, high, low)
    ensures forall t :: t in ResolvedOf(s, high, low) <==> t in s && Resolves(t, high, low)
    ensures multiset(KeptOf(s, high, low)) + multiset(ResolvedOf(s, high, low)) == multiset(s)
  {
    if s != [] {
      PartitionByResult(s[1..], high, low);
      assert s == [s[0]] + s[1..];
    }
  }

  /** The k-th update names the k-th resolving trade and its result. */
  lemma {:induction false} UpdatesMatchResolved(s: seq<Trade>, high: real, low: real)
    ensures |UpdatesOf(s, high, low)| == |ResolvedOf(s, high, low)|
    ensures forall k :: 0 <= k < |UpdatesOf(s, high, low)| ==>
              var t := ResolvedOf(s, high, low)[k];
              Resolves(t, high, low) && UpdatesOf(s, high, low)[k] == Update(t.id, Resolve(t, high, low).value)
  {
    if s != [] {
      UpdatesMatchResolved(s[1..], high, low);
      PartitionByResult(s[1..], high, low);
    }
  }

  lemma {:induction false} ResolvedAppend(a: seq<Trade>, b: seq<Trade>, high: real, low: real)
    ensures ResolvedOf(a + b, high, low) == ResolvedOf(a, high, low) + ResolvedOf(b, high, low)
    ensures UpdatesOf(a + b, high, low) == UpdatesOf(a, high, low) + UpdatesOf(b, high, low)
  {
    if a != [] {
      assert (a + b)[1..] == a[1..] + b;
      ResolvedAppend(a[1..], b, high, low);
    } else {
      assert a + b == b;
    }
  }

  /** Extending the scanned prefix by one trade extends the collected trades and updates by its own. */
  lemma ResolvedSnoc(s: seq<Trade>, t: Trade, high: real, low: real)
    ensures ResolvedOf(s + [t], high, low)
              == ResolvedOf(s, high, low) + (if Resolves(t, high, low) then [t] else [])
    ensures UpdatesOf(s + [t], high, low)
              == UpdatesOf(s, high, low) + (if Resolves(t, high, low) then [Update(t.id, Resolve(t, high, low).value)] else [])
  {
    ResolvedAppend(s, [t], high, low);
    SingleResolved(t, high, low);
  }

  lemma SingleResolved(t: Trade, high: real, low: real)
    ensures ResolvedOf([t], high, low) == (if Resolves(t, high, low) then [t] else [])
    ensures UpdatesOf([t], high, low)
              == (if Resolves(t, high, low) then [Update(t.id, Resolve(t, high, low).value)] else [])
  {
  }

  /** `list.remove(x)`: drops the first element equal to `x`. */
  function RemoveFirst(s: seq<Trade>, x: Trade): seq<Trade>
    requires x in s
  {
    if s[0] == x then s[1..] else [s[0]] + RemoveFirst(s[1..], x)
  }

  /** The position of the first occurrence of `x` in `s`. */
  function IndexOf(s: seq<Trade>, x: Trade): (i: nat)
    requires x in s
    ensures i < |s| && s[i] == x && x !in s[..i]
  {
    if s[0] == x then 0
    else
      var j := IndexOf(s[1..], x);
      assert s[..j + 1] == [s[0]] + s[1..][..j];
      j + 1
  }

  /** RemoveFirst cuts `s` at the first occurrence of `x` and leaves the rest as it was. */
  lemma {:induction false} RemoveFirstCuts(s: seq<Trade>, x: Trade)
    requires x in s
    ensures RemoveFirst(s, x) == s[..IndexOf(s, x)] + s[IndexOf(s, x) + 1..]
  {
    if s[0] != x {
      var t := s[1..];
      RemoveFirstCuts(t, x);
      var j := IndexOf(t, x);
      assert s[..j + 1] == [s[0]] + t[..j];
      assert s[j + 2..] == t[j + 1..];
    }
  }

  /** `s` with its first `k` resolving trades removed. */
  function DropResolved(s: seq<Trade>, k: nat, high: real, low: real): seq<Trade> {
    if s == [] then []
    else if k > 0 && Resolves(s[0], high, low) then DropResolved(s[1..], k - 1, high, low)
    else [s[0]] + DropResolved(s[1..], k, high, low)
  }

  lemma {:induction false} DropNone(s: seq<Trade>, high: real, low: real)
    ensures DropResolved(s, 0, high, low) == s
  {
    if s != [] {
      DropNone(s[1..], high, low);
    }
  }

  /** Removing every resolving trade leaves the kept ones. */
  lemma {:induction false} DropAll(s: seq<Trade>, high: real, low: real)
    ensures DropResolved(s, |ResolvedOf(s, high, low)|, high, low) == KeptOf(s, high, low)
  {
    if s != [] {
      DropAll(s[1..], high, low);
      if Resolves(s[0], high, low) {
        assert ResolvedOf(s, high, low) == [s[0]] + ResolvedOf(s[1..], high, low);
      } else {
        assert ResolvedOf(s, high, low) == ResolvedOf(s[1..], high, low);
      }
    }
  }

  /**
   * Removing (by value, first occurrence) the k-th resolving trade from `s`
   * with its first k resolving trades gone removes exactly that trade: no
   * equal trade stays open, because equal trades resolve alike.
   */
  lemma {:induction false} RemoveStep(s: seq<Trade>, k: nat, high: real, low: real)
    requires k < |ResolvedOf(s, high, low)|
    ensures ResolvedOf(s, high, low)[k] in DropResolved(s, k, high, low)
    ensures RemoveFirst(DropResolved(s, k, high, low), ResolvedOf(s, high, low)[k])
              == DropResolved(s, k + 1, high, low)
  {
    var x := ResolvedOf(s, high, low)[k];
    var d := DropResolved(s, k, high, low);
    if Resolves(s[0], high, low) {
      assert ResolvedOf(s, high, low) == [s[0]] + ResolvedOf(s[1..], high, low);
      if k > 0 {
        RemoveStep(s[1..], k - 1, high, low);
      } else {
        DropNone(s[1..], high, low);
        assert d == [s[0]] + s[1..];
      }
    } else {
      assert ResolvedOf(s, high, low) == ResolvedOf(s[1..], high, low);
      RemoveStep(s[1..], k, high, low);
      PartitionByResult(s[1..], high, low);
      assert x in ResolvedOf(s[1..], high, low);
      assert d == [s[0]] + DropResolved(s[1..], k, high, low);
      assert s[0] != x;
    }
  }
}
