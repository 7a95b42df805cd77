/**
 * The state kept across refreshes: the list of open logged trades and the
 * key of the last logged setup, plus one refresh cycle of the dashboard
 * (resolve open trades on the latest bar, evaluate both modes, log new
 * setups whose key differs from the last one logged).
 */
module Journal {
  import opened Options
  import opened Market
  import News
  import AllIn
  import Normal
  import opened Trades

  /**
   * Key of a logged setup: the mode and its entry level. NoKey is the
   * empty key the session starts with. One slot serves both modes.
   */
  datatype SetupKey = NoKey | AllInKey(entry: real) | NormKey(entry: real)

  /** The journal's state as a value. */
  datatype Book = Book(pending: seq<Trade>, lastLogged: SetupKey)

  /** Logs `t` unless `key` is the last key logged; the key is remembered either way. */
  function LogIfNew(b: Book, key: SetupKey, t: Trade): (b': Book)
    ensures b'.lastLogged == key
    ensures b'.pending == if key == b.lastLogged then b.pending else b.pending + [t]
  {
    if key != b.lastLogged then Book(b.pending + [t], key) else b
  }

  /** Offering the same setup twice in a row logs it once. */
  lemma RepeatLogsOnce(b: Book, key: SetupKey, t: Trade, t': Trade)
    ensures LogIfNew(LogIfNew(b, key, t), key, t') == LogIfNew(b, key, t)
  {
  }

  /**
   * The slot is shared: two different keys offered alternately are logged
   * every time, however often the pair repeats.
   */
  lemma {:induction false} AlternatingKeysRelog(b: Book, k1: SetupKey, k2: SetupKey, t1: Trade, t2: Trade, n: nat)
    requires k1 != k2
    requires b.lastLogged != k1
    ensures var b' := Alternate(b, k1, k2, t1, t2, n);
            b'.pending == b.pending + Repeat([t1, t2], n) && (n > 0 ==> b'.lastLogged == k2)
  {
    if n > 0 {
      AlternatingKeysRelog(b, k1, k2, t1, t2, n - 1);
      var b0 := Alternate(b, k1, k2, t1, t2, n - 1);
      assert b0.lastLogged != k1;
      assert Repeat([t1, t2], n) == Repeat([t1, t2], n - 1) + [t1, t2];
    }
  }

  /** `n` rounds of offering k1 then k2. */
  function Alternate(b: Book, k1: SetupKey, k2: SetupKey, t1: Trade, t2: Trade, n: nat): Book {
    if n == 0 then b else LogIfNew(LogIfNew(Alternate(b, k1, k2, t1, t2, n - 1), k1, t1), k2, t2)
  }

  function Repeat(s: seq<Trade>, n: nat): seq<Trade> {
    if n == 0 then [] else Repeat(s, n - 1) + s
  }

  /** The trade logged for an All-In proposal at clock second `now`. */
  function AllInTradeOf(now: int, v: AllIn.Verdict): Trade
    requires v.AllInTrade?
  {
    Trade(now, AllInMode, AllInSignal(v.dir), v.levels)
  }

  /** The trade logged for a normal-mode setup at clock second `now`. */
  function NormalTradeOf(now: int, v: Normal.Verdict): Trade
    requires v.Setup?
  {
    Trade(now, NormalMode, NormalSignal(v.signal), v.levels)
  }

  /** The bars of the M15 frame, when there is one. */
  function BarsOf(m15: Option<Normal.M15Frame>): Option<seq<Candle>> {
    if m15.Some? then Some(m15.value.bars) else None
  }

  /** What a cycle needs of its frames: a latest M15 bar, and normal mode's two rows. */
  predicate CycleReady(m15: Option<Normal.M15Frame>, h4: Option<Normal.H4Frame>) {
    && (m15.Some? ==> |m15.value.bars| >= 1)
    && (m15.Some? && h4.Some? ==> Normal.M15Ready(m15.value) && Normal.H4Ready(h4.value))
  }

  /** The journal after resolving its open trades on the latest M15 bar. */
  function AfterCheck(b: Book, m15: Option<Normal.M15Frame>): Book
    requires m15.Some? ==> |m15.value.bars| >= 1
  {
    if m15.None? then b
    else
      var last := m15.value.bars[|m15.value.bars| - 1];
      Book(KeptOf(b.pending, last.high, last.low), b.lastLogged)
  }

  /** The journal after logging the All-In proposal, if there is one and it is new. */
  function AfterAllIn(b: Book, v: AllIn.Verdict, now: int): Book {
    if v.AllInTrade? then LogIfNew(b, AllInKey(v.levels.entry), AllInTradeOf(now, v)) else b
  }

  /** The journal after logging the normal-mode setup, if there is one and it is new. */
  function AfterNormal(b: Book, v: Normal.Verdict, now: int): Book {
    if v.Setup? then LogIfNew(b, NormKey(v.levels.entry), NormalTradeOf(now, v)) else b
  }

  /** One refresh cycle, as a function of the journal before it. */
  function Cycle(b: Book, m15: Option<Normal.M15Frame>, h4: Option<Normal.H4Frame>,
                 mt5: seq<News.NewsEvent>, ff: seq<News.NewsEvent>,
                 macro: AllIn.Macro, sentiment: AllIn.Sentiment, now: int): Book
    requires CycleReady(m15, h4)
  {
    var next := News.NextRed(News.MergedNews(mt5, ff));
    var allIn := AllIn.AllInSetup(BarsOf(m15), next, macro, sentiment);
    AfterNormal(AfterAllIn(AfterCheck(b, m15), allIn.verdict, now), Normal.NormalSetup(m15, h4), now)
  }

  /**
   * A cycle keeps the open trades that did not resolve on the latest bar,
   * in order, and appends at most the two setups it logs, both stamped
   * `now`; its key is the old one or a key of this cycle's setups.
   */
  lemma CycleShape(b: Book, m15: Option<Normal.M15Frame>, h4: Option<Normal.H4Frame>,
                   mt5: seq<News.NewsEvent>, ff: seq<News.NewsEvent>,
                   macro: AllIn.Macro, sentiment: AllIn.Sentiment, now: int)
    requires CycleReady(m15, h4)
    ensures var b' := Cycle(b, m15, h4, mt5, ff, macro, sentiment, now);
            exists added: seq<Trade> ::
              && |added| <= 2
              && (forall t :: t in added ==> t.id == now)
              && b'.pending == AfterCheck(b, m15).pending + added
    ensures var b' := Cycle(b, m15, h4, mt5, ff, macro, sentiment, now);
            var v := AllIn.AllInSetup(BarsOf(m15), News.NextRed(News.MergedNews(mt5, ff)), macro, sentiment).verdict;
            var n := Normal.NormalSetup(m15, h4);
            || b'.lastLogged == b.lastLogged
            || (v.AllInTrade? && b'.lastLogged == AllInKey(v.levels.entry))
            || (n.Setup? && b'.lastLogged == NormKey(n.levels.entry))
  {
    var allIn := AllIn.AllInSetup(BarsOf(m15), News.NextRed(News.MergedNews(mt5, ff)), macro, sentiment);
    LoggingShape(AfterCheck(b, m15), allIn.verdict, Normal.NormalSetup(m15, h4), now);
  }

  lemma LoggingShape(b: Book, v: AllIn.Verdict, n: Normal.Verdict, now: int)
    ensures exists added: seq<Trade> ::
              && |added| <= 2
              && (forall t :: t in added ==> t.id == now)
              && AfterNormal(AfterAllIn(b, v, now), n, now).pending == b.pending + added
    ensures var k := AfterNormal(AfterAllIn(b, v, now), n, now).lastLogged;
            || k == b.lastLogged
            || (v.AllInTrade? && k == AllInKey(v.levels.entry))
            || (n.Setup? && k == NormKey(n.levels.entry))
  {
    var b2 := AfterAllIn(b, v, now);
    var b3 := AfterNormal(b2, n, now);
    var f2 := b2.pending[|b.pending|..];
    assert b2.pending == b.pending + f2;
    var f3 := b3.pending[|b.pending|..];
    assert b3.pending == b.pending + f3;
  }

  /**
   * When both modes propose, the normal setup is logged after the All-In
   * one, so the next cycle with both proposals logs both again: the shared
   * key never matches the All-In key it is compared with.
   */
  lemma BothModesRelog(b: Book, m15: Option<Normal.M15Frame>, h4: Option<Normal.H4Frame>,
                       mt5: seq<News.NewsEvent>, ff: seq<News.NewsEvent>,
                       macro: AllIn.Macro, sentiment: AllIn.Sentiment, now: int)
    requires CycleReady(m15, h4)
    requires b.lastLogged.NormKey?
    requires AllIn.AllInSetup(BarsOf(m15), News.NextRed(News.MergedNews(mt5, ff)), macro, sentiment).verdict.AllInTrade?
    requires Normal.NormalSetup(m15, h4).Setup?
    ensures var b' := Cycle(b, m15, h4, mt5, ff, macro, sentiment, now);
            && |b'.pending| == |AfterCheck(b, m15).pending| + 2
            && b'.lastLogged.NormKey?
  {
  }

  /**
   * A LONG All-In proposal whose trigger close beat the swept low by no more
   * than 0.5 has its stop at or above the buy limit and its target at or
   * below it. Any later bar whose low stays above that stop then resolves
   * the trade as WIN, although the low never reached the buy limit, so the
   * limit order was never filled.
   */
  lemma InvertedLongWinsUnfilled(close: real, sweptLow: real, now: int, high: real, low: real)
    requires close - sweptLow <= AllIn.SweepBuffer
    requires AllIn.LongLevels(close, sweptLow).sl < low <= high
    ensures var t := Trade(now, AllInMode, AllInSignal(Long), AllIn.LongLevels(close, sweptLow));
            && t.levels.entry < low
            && Resolve(t, high, low) == Some(Win)
  {
    AllIn.LongStopProtects(close, sweptLow);
  }

  /**
   * The first pass of the resolver: the trades that resolve on the bar, in
   * order, and the result update for each of them.
   */
  method CollectResolved(trades: seq<Trade>, high: real, low: real) returns (toRemove: seq<Trade>, updates: seq<Update>)
    ensures toRemove == ResolvedOf(trades, high, low)
    ensures updates == UpdatesOf(trades, high, low)
  {
    toRemove, updates := [], [];
    for i := 0 to |trades|
      invariant toRemove == ResolvedOf(trades[..i], high, low)
      invariant updates == UpdatesOf(trades[..i], high, low)
    {
      var trade := trades[i];
      var result := Resolve(trade, high, low);
      ResolvedSnoc(trades[..i], trade, high, low);
      assert trades[..i + 1] == trades[..i] + [trade];
      if result.Some? {
        updates := updates + [Update(trade.id, result.value)];
        toRemove := toRemove + [trade];
      }
    }
    assert trades[..|trades|] == trades;
  }

  class TradeJournal {
    var pending: seq<Trade>
    var lastLogged: SetupKey

    function State(): Book
      reads this
    {
      Book(pending, lastLogged)
    }

    /** A new session: no open trades, the empty key. */
    constructor ()
      ensures State() == Book([], NoKey)
    {
      pending := [];
      lastLogged := NoKey;
    }

    /** Records a trade as open (the result sheet's POST is not modelled). */
    method LogNewTrade(t: Trade)
      modifies this`pending
      ensures pending == old(pending) + [t]
    {
      pending := pending + [t];
    }

    /**
     * Resolves every open trade on a bar: collects the resolving trades and
     * their updates in one pass, then removes each collected trade by
     * value. What stays is exactly the trades without a result, in order.
     */
    method CheckPendingTrades(high: real, low: real) returns (updates: seq<Update>)
      modifies this`pending
      ensures pending == KeptOf(old(pending), high, low)
      ensures updates == UpdatesOf(old(pending), high, low)
      ensures forall t :: t in pending <==> t in old(pending) && !Resolves(t, high, low)
    {
      var toRemove;
      toRemove, updates := CollectResolved(pending, high, low);
      ghost var original := pending;
      DropNone(original, high, low);
      for k := 0 to |toRemove|
        invariant pending == DropResolved(original, k, high, low)
      {
        RemoveStep(original, k, high, low);
        pending := RemoveFirst(pending, toRemove[k]);
      }
      DropAll(original, high, low);
      PartitionByResult(original, high, low);
    }

    /** The de-duplicating logger of the main block. */
    method RecordSetup(key: SetupKey, t: Trade) returns (logged: bool)
      modifies this
      ensures logged == (key != old(lastLogged))
      ensures State() == LogIfNew(old(State()), key, t)
    {
      logged := key != lastLogged;
      if logged {
        LogNewTrade(t);
        lastLogged := key;
      }
    }

    /** Resolves the open trades on the latest M15 bar, when there is a frame. */
    method CheckLatestBar(m15: Option<Normal.M15Frame>) returns (updates: seq<Update>)
      requires m15.Some? ==> |m15.value.bars| >= 1
      modifies this`pending
      ensures State() == AfterCheck(old(State()), m15)
      ensures updates == if m15.Some? then
                           var last := m15.value.bars[|m15.value.bars| - 1];
                           UpdatesOf(old(pending), last.high, last.low)
                         else []
    {
      updates := [];
      if m15.Some? {
        var last := m15.value.bars[|m15.value.bars| - 1];
        updates := CheckPendingTrades(last.high, last.low);
      }
    }

    /** Logs the All-In proposal under its key, if there is one. */
    method LogAllIn(v: AllIn.Verdict, now: int)
      modifies this
      ensures State() == AfterAllIn(old(State()), v, now)
    {
      if v.AllInTrade? {
        var _ := RecordSetup(AllInKey(v.levels.entry), AllInTradeOf(now, v));
      }
    }

    /** Logs the normal-mode setup under its key, if there is one. */
    method LogNormal(v: Normal.Verdict, now: int)
      modifies this
      ensures State() == AfterNormal(old(State()), v, now)
    {
      if v.Setup? {
        var _ := RecordSetup(NormKey(v.levels.entry), NormalTradeOf(now, v));
      }
    }

    /**
     * One refresh: merge the calendars, resolve open trades on the latest
     * M15 bar, then evaluate and log the All-In and the normal setups.
     */
    method RunCycle(m15: Option<Normal.M15Frame>, h4: Option<Normal.H4Frame>,
                    mt5: seq<News.NewsEvent>, ff: seq<News.NewsEvent>,
                    macro: AllIn.Macro, sentiment: AllIn.Sentiment, now: int)
      returns (updates: seq<Update>, allIn: AllIn.Outcome, normal: Normal.Verdict)
      requires CycleReady(m15, h4)
      modifies this
      ensures State() == Cycle(old(State()), m15, h4, mt5, ff, macro, sentiment, now)
      ensures allIn == AllIn.AllInSetup(BarsOf(m15), News.NextRed(News.MergedNews(mt5, ff)), macro, sentiment)
      ensures normal == Normal.NormalSetup(m15, h4)
      ensures updates == if m15.Some? then
                           var last := m15.value.bars[|m15.value.bars| - 1];
                           UpdatesOf(old(pending), last.high, last.low)
                         else []
    {
      ghost var before := State();
      var merged, next := News.MergeNewsSources(mt5, ff);
      updates := CheckLatestBar(m15);
      ghost var checked := State();
      allIn := AllIn.AllInSetup(BarsOf(m15), next, macro, sentiment);
      LogAllIn(allIn.verdict, now);
      ghost var logged := State();
      normal := Normal.NormalSetup(m15, h4);
      LogNormal(normal, now);
      assert State() == AfterNormal(AfterAllIn(AfterCheck(before, m15), allIn.verdict, now), normal, now);
    }
  }
}
