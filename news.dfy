/**
 * Merging of the two economic-calendar feeds (the broker's MT5 feed and
 * ForexFactory) and selection of the next high-impact ("red") event.
 *
 * Event times are whole seconds. `hours` is the event's distance from the
 * moment its feed was read, in hours, computed by the feed reader.
 */
module News {
  import opened Options

  datatype Source = MT5 | ForexFactory
  datatype Impact = High | Medium | Low

  datatype NewsEvent = NewsEvent(source: Source, title: string, impact: Impact, time: int, hours: real)

  /** The summary the sniper mode reads: title, hours until the event, and its time. */
  datatype RedNews = RedNews(title: string, hours: real, time: int)

  /** A ForexFactory event this close (in seconds) to an MT5 event is a duplicate of it. */
  const DuplicateWindow := 3600

  function Abs(x: int): (a: nat)
    ensures a == x || a == -x
  {
    if x < 0 then -x else x
  }

  /** True when `f` lies within the duplicate window of some MT5 event. */
  predicate NearAny(f: NewsEvent, mt5: seq<NewsEvent>) {
    exists m :: m in mt5 && Abs(f.time - m.time) <= DuplicateWindow
  }

  /** The ForexFactory events that duplicate no MT5 event, in their original order. */
  function DropNearDuplicates(ff: seq<NewsEvent>, mt5: seq<NewsEvent>): (r: seq<NewsEvent>)
    ensures forall e :: e in r <==> e in ff && !NearAny(e, mt5)
    ensures multiset(r) <= multiset(ff)
    ensures forall e :: multiset(r)[e] == if NearAny(e, mt5) then 0 else multiset(ff)[e]
  {
    if ff == [] then []
    else
      var rest := DropNearDuplicates(ff[1..], mt5);
      assert ff == [ff[0]] + ff[1..];
      assert multiset(ff) == multiset{ff[0]} + multiset(ff[1..]);
      if NearAny(ff[0], mt5) then rest else [ff[0]] + rest
  }

  /**
   * The filter keeps the order of `ff`: filtering a concatenation is the
   * concatenation of the filtered parts (with the one-event case read off
   * the definition, this fixes the result completely).
   */
  lemma {:induction false} DropNearDuplicatesAppend(a: seq<NewsEvent>, b: seq<NewsEvent>, mt5: seq<NewsEvent>)
    ensures DropNearDuplicates(a + b, mt5) == DropNearDuplicates(a, mt5) + DropNearDuplicates(b, mt5)
  {
    if a == [] {
      assert a + b == b;
    } else {
      assert (a + b)[0] == a[0];
      assert (a + b)[1..] == a[1..] + b;
      DropNearDuplicatesAppend(a[1..], b, mt5);
    }
  }

  /** A single event is kept exactly when it duplicates no MT5 event. */
  lemma DropNearDuplicatesSingle(e: NewsEvent, mt5: seq<NewsEvent>)
    ensures DropNearDuplicates([e], mt5) == if NearAny(e, mt5) then [] else [e]
  {
    assert [e][1..] == [];
  }

  ghost predicate SortedByTime(s: seq<NewsEvent>) {
    forall i, j :: 0 <= i < j < |s| ==> s[i].time <= s[j].time
  }

  /** Inserts `e` before the first later event, after every event at the same time or earlier. */
  function InsertByTime(e: NewsEvent, s: seq<NewsEvent>): (r: seq<NewsEvent>)
    requires SortedByTime(s)
    ensures SortedByTime(r)
    ensures multiset(r) == multiset(s) + multiset{e}
    ensures forall x :: x in r ==> x == e || x in s
  {
    if s == [] || e.time < s[0].time then [e] + s
    else
      var rest := InsertByTime(e, s[1..]);
      assert s == [s[0]] + s[1..];
      assert forall x :: x in rest ==> s[0].time <= x.time;
      assert forall j :: 0 < j <= |rest| ==> ([s[0]] + rest)[j] == rest[j - 1];
      [s[0]] + rest
  }

  /** `list.sort(key=time)`: a stable sort by event time. */
  function SortByTime(s: seq<NewsEvent>): (r: seq<NewsEvent>)
    ensures SortedByTime(r)
    ensures multiset(r) == multiset(s)
    decreases |s|
  {
    if s == [] then []
    else
      assert s == s[..|s| - 1] + [s[|s| - 1]];
      InsertByTime(s[|s| - 1], SortByTime(s[..|s| - 1]))
  }

  /** The events of `s` at clock second `t`, in their order in `s`. */
  function AtTime(s: seq<NewsEvent>, t: int): seq<NewsEvent> {
    if s == [] then []
    else (if s[0].time == t then [s[0]] else []) + AtTime(s[1..], t)
  }

  lemma {:induction false} AtTimeAppend(a: seq<NewsEvent>, b: seq<NewsEvent>, t: int)
    ensures AtTime(a + b, t) == AtTime(a, t) + AtTime(b, t)
  {
    if a != [] {
      assert (a + b)[1..] == a[1..] + b;
      AtTimeAppend(a[1..], b, t);
    } else {
      assert a + b == b;
    }
  }

  lemma {:induction false} NoneAtEarlierTime(s: seq<NewsEvent>, t: int)
    requires forall x :: x in s ==> t < x.time
    ensures AtTime(s, t) == []
  {
    if s != [] {
      assert forall x :: x in s[1..] ==> x in s;
      NoneAtEarlierTime(s[1..], t);
    }
  }

  lemma AtTimeSingle(e: NewsEvent, t: int)
    ensures AtTime([e], t) == if e.time == t then [e] else []
  {
    assert [e][1..] == [];
  }

  /** In a sorted list, every event is at or after the first one. */
  lemma AfterFirst(s: seq<NewsEvent>, x: NewsEvent)
    requires SortedByTime(s) && x in s
    ensures s[0].time <= x.time
  {
    var i :| 0 <= i < |s| && s[i] == x;
  }

  /** Inserting `e` puts it after every event of `s` that has its time. */
  lemma {:induction false} InsertAfterTies(e: NewsEvent, s: seq<NewsEvent>, t: int)
    requires SortedByTime(s)
    ensures AtTime(InsertByTime(e, s), t) == AtTime(s, t) + (if e.time == t then [e] else [])
  {
    if s == [] || e.time < s[0].time {
      InsertAtFront(e, s, t);
    } else {
      assert SortedByTime(s[1..]);
      InsertAfterTies(e, s[1..], t);
      AtTimeAppend([s[0]], InsertByTime(e, s[1..]), t);
      AtTimeSingle(s[0], t);
    }
  }

  lemma InsertAtFront(e: NewsEvent, s: seq<NewsEvent>, t: int)
    requires SortedByTime(s)
    requires s == [] || e.time < s[0].time
    ensures AtTime([e] + s, t) == AtTime(s, t) + (if e.time == t then [e] else [])
  {
    AtTimeAppend([e], s, t);
    AtTimeSingle(e, t);
    if e.time == t {
      forall x | x in s ensures t < x.time {
        AfterFirst(s, x);
      }
      NoneAtEarlierTime(s, t);
    }
  }

  /**
   * `SortByTime` is stable: the events that share a clock second come out
   * in the order they went in.
   */
  lemma {:induction false} SortByTimeStable(s: seq<NewsEvent>, t: int)
    ensures AtTime(SortByTime(s), t) == AtTime(s, t)
    decreases |s|
  {
    if s != [] {
      var p, e := s[..|s| - 1], s[|s| - 1];
      assert s == p + [e];
      SortByTimeStable(p, t);
      InsertAfterTies(e, SortByTime(p), t);
      AtTimeAppend(p, [e], t);
      AtTimeSingle(e, t);
    }
  }

  /**
   * The merged calendar: every MT5 event plus the ForexFactory events that
   * duplicate none of them, sorted by time.
   */
  function MergedNews(mt5: seq<NewsEvent>, ff: seq<NewsEvent>): (r: seq<NewsEvent>)
    ensures SortedByTime(r)
    ensures multiset(r) == multiset(mt5) + multiset(DropNearDuplicates(ff, mt5))
    ensures forall e :: e in mt5 ==> e in r
    ensures forall e :: e in r <==> e in mt5 || (e in ff && !NearAny(e, mt5))
  {
    var r := SortByTime(mt5 + DropNearDuplicates(ff, mt5));
    assert forall e :: e in r <==> e in multiset(r);
    r
  }

  /** A high-impact event from half an hour ago up to three hours ahead. */
  predicate IsRedCandidate(e: NewsEvent) {
    e.impact == High && -0.5 <= e.hours <= 3.0
  }

  function Summary(e: NewsEvent): RedNews {
    RedNews(e.title, e.hours, e.time)
  }

  /** One step of the scan: a candidate replaces the current pick only when strictly sooner. */
  function Prefer(best: Option<RedNews>, e: NewsEvent): Option<RedNews> {
    if IsRedCandidate(e) && (best.None? || e.hours < best.value.hours) then Some(Summary(e)) else best
  }

  /** The pick after scanning `s` from the front. */
  function NextRed(s: seq<NewsEvent>): Option<RedNews> {
    if s == [] then None else Prefer(NextRed(s[..|s| - 1]), s[|s| - 1])
  }

  /** `s[k]` is a candidate with the fewest hours, and the first such one in `s`. */
  ghost predicate FirstNearest(s: seq<NewsEvent>, k: int) {
    && 0 <= k < |s|
    && IsRedCandidate(s[k])
    && (forall j :: 0 <= j < |s| && IsRedCandidate(s[j]) ==> s[k].hours <= s[j].hours)
    && (forall j :: 0 <= j < k && IsRedCandidate(s[j]) ==> s[k].hours < s[j].hours)
  }

  /**
   * The scan finds nothing exactly when no event is a candidate, and
   * otherwise reports the first candidate with the fewest hours.
   */
  lemma {:induction false} NextRedIsFirstNearest(s: seq<NewsEvent>)
    ensures NextRed(s).None? <==> forall i :: 0 <= i < |s| ==> !IsRedCandidate(s[i])
    ensures NextRed(s).Some? ==> exists k :: FirstNearest(s, k) && NextRed(s).value == Summary(s[k])
  {
    if s != [] {
      var p, e := s[..|s| - 1], s[|s| - 1];
      assert s == p + [e];
      NextRedIsFirstNearest(p);
      if NextRed(p).Some? {
        var k :| FirstNearest(p, k) && NextRed(p).value == Summary(p[k]);
        if IsRedCandidate(e) && e.hours < p[k].hours {
          NearestIsNew(p, e, k);
        } else {
          NearestStays(p, e, k);
        }
      } else if IsRedCandidate(e) {
        NearestIsFirstCandidate(p, e);
      } else {
        assert forall i :: 0 <= i < |s| ==> !IsRedCandidate(s[i]) by {
          forall i | 0 <= i < |s| ensures !IsRedCandidate(s[i]) {
            if i < |p| { assert s[i] == p[i]; }
          }
        }
      }
    }
  }

  lemma NearestStays(p: seq<NewsEvent>, e: NewsEvent, k: int)
    requires FirstNearest(p, k)
    requires !(IsRedCandidate(e) && e.hours < p[k].hours)
    ensures FirstNearest(p + [e], k) && (p + [e])[k] == p[k]
  {
  }

  lemma NearestIsNew(p: seq<NewsEvent>, e: NewsEvent, k: int)
    requires FirstNearest(p, k)
    requires IsRedCandidate(e) && e.hours < p[k].hours
    ensures FirstNearest(p + [e], |p|) && (p + [e])[|p|] == e
  {
  }

  lemma NearestIsFirstCandidate(p: seq<NewsEvent>, e: NewsEvent)
    requires forall i :: 0 <= i < |p| ==> !IsRedCandidate(p[i])
    requires IsRedCandidate(e)
    ensures FirstNearest(p + [e], |p|) && (p + [e])[|p|] == e
  {
  }

  /**
   * Merges the two feeds, sorts the result by time, and scans it for the
   * next red event, keeping the first candidate with the fewest hours.
   */
  method MergeNewsSources(mt5: seq<NewsEvent>, ff: seq<NewsEvent>) returns (merged: seq<NewsEvent>, next: Option<RedNews>)
    ensures merged == MergedNews(mt5, ff)
    ensures next == NextRed(merged)
    ensures next.None? <==> forall i :: 0 <= i < |merged| ==> !IsRedCandidate(merged[i])
    ensures next.Some? ==> exists k :: FirstNearest(merged, k) && next.value == Summary(merged[k])
  {
    merged := mt5 + DropNearDuplicates(ff, mt5);
    merged := SortByTime(merged);
    next := None;
    for i := 0 to |merged|
      invariant next == NextRed(merged[..i])
    {
      assert merged[..i + 1][..i] == merged[..i];
      var ev := merged[i];
      if ev.impact == High && -0.5 <= ev.hours <= 3.0 {
        if next.None? || ev.hours < next.value.hours {
          next := Some(RedNews(ev.title, ev.hours, ev.time));
        }
      }
    }
    assert merged[..|merged|] == merged;
    NextRedIsFirstNearest(merged);
  }
}
