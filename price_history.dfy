// The historical half of the price-feed client: turning a market-data
// response into chart candles, and the synthetic series shown when there is
// no usable response.
module PriceHistory {
  import opened Common

  /** One chart sample; `time` is in unix seconds. */
  datatype Candle = Candle(time: int, open: real, high: real, low: real, close: real)

  /**
   * One item of the market-data response. `unixTime` is in milliseconds;
   * the open/high/low/close fields may be missing.
   */
  datatype Item = Item(unixTime: int, value: real, o: Option<real>, h: Option<real>, l: Option<real>, c: Option<real>)

  /** The response body, when it parses as JSON at all. */
  datatype Body = Malformed | Json(success: bool, items: Option<seq<Item>>)

  /** The outcome of the request: a transport failure, or a status and a body. */
  datatype Response = NetworkError | Http(ok: bool, body: Body)

  /** `limit` when the caller gives none. */
  const DefaultLimit: int := 100

  /** Length of the synthetic series, and its spacing in milliseconds. */
  const MockCount: nat := 100
  const MockSpacingMs: int := 60 * 1000

  // ---------------------------------------------------------------------
  // Mapping an item to a candle

  /** `f || value`: a missing or zero field falls back to `value`. */
  function OrValue(f: Option<real>, value: real): (r: real)
    ensures f.Some? && f.value != 0.0 ==> r == f.value
    ensures f.None? || f.value == 0.0 ==> r == value
  {
    match f
    case Some(x) => if x != 0.0 then x else value
    case None => value
  }

  /** `Math.floor(ms / 1000)`: the whole second a millisecond instant falls in. */
  function SecondsOf(ms: int): (s: int)
    ensures s * 1000 <= ms < (s + 1) * 1000
  {
    ms / 1000
  }

  function ToCandle(item: Item): (r: Candle)
    ensures r.time == SecondsOf(item.unixTime)
    ensures r.open == OrValue(item.o, item.value) && r.high == OrValue(item.h, item.value)
    ensures r.low == OrValue(item.l, item.value) && r.close == OrValue(item.c, item.value)
  {
    Candle(SecondsOf(item.unixTime), OrValue(item.o, item.value), OrValue(item.h, item.value),
           OrValue(item.l, item.value), OrValue(item.c, item.value))
  }

  function ToCandles(items: seq<Item>): (r: seq<Candle>)
    ensures |r| == |items|
    ensures forall k :: 0 <= k < |items| ==> r[k] == ToCandle(items[k])
  {
    seq(|items|, k requires 0 <= k < |items| => ToCandle(items[k]))
  }

  // ---------------------------------------------------------------------
  // `sort((a, b) => a.time - b.time)`: a stable sort by time

  predicate SortedByTime(s: seq<Candle>)
  {
    forall i, j :: 0 <= i < j < |s| ==> s[i].time <= s[j].time
  }

  /** The candles of `s` stamped `t`, in their order in `s`. */
  function OfTime(s: seq<Candle>, t: int): seq<Candle>
  {
    if s == [] then []
    else (if s[0].time == t then [s[0]] else []) + OfTime(s[1..], t)
  }

  /** Splitting off the first candle of a filter by time. */
  lemma OfTimeCons(a: Candle, s: seq<Candle>, t: int)
    ensures OfTime([a] + s, t) == (if a.time == t then [a] else []) + OfTime(s, t)
  {
    assert ([a] + s)[1..] == s;
  }

  /**
   * Insert `c` into the sorted `s` before the first candle that is not
   * earlier than it.
   */
  function InsertByTime(c: Candle, s: seq<Candle>): (r: seq<Candle>)
    requires SortedByTime(s)
    ensures |r| == |s| + 1 && (r[0] == c || (s != [] && r[0] == s[0]))
    ensures SortedByTime(r)
    ensures multiset(r) == multiset(s) + multiset{c}
  {
    if s == [] || c.time <= s[0].time then [c] + s
    else
      assert s == [s[0]] + s[1..];
      [s[0]] + InsertByTime(c, s[1..])
  }

  /**
   * Inserting keeps `c` ahead of the candles with its time that were in `s`:
   * filtered by any time, the result is `c` followed by `s`.
   */
  lemma {:induction false} InsertByTimeStable(c: Candle, s: seq<Candle>, t: int)
    requires SortedByTime(s)
    ensures OfTime(InsertByTime(c, s), t) == OfTime([c] + s, t)
  {
    if s == [] || c.time <= s[0].time {
    } else {
      var rest := InsertByTime(c, s[1..]);
      assert s == [s[0]] + s[1..];
      InsertByTimeStable(c, s[1..], t);
      OfTimeCons(s[0], rest, t);
      OfTimeCons(c, s[1..], t);
      OfTimeCons(c, s, t);
      OfTimeCons(s[0], s[1..], t);
    }
  }

  /** The candles of `s` in ascending time (insertion sort). */
  function SortByTime(s: seq<Candle>): (r: seq<Candle>)
    ensures |r| == |s|
    ensures SortedByTime(r)
    ensures multiset(r) == multiset(s)
  {
    if s == [] then []
    else
      assert s == [s[0]] + s[1..];
      InsertByTime(s[0], SortByTime(s[1..]))
  }

  /**
   * The sort is stable: filtered by any time, the sorted series lists the
   * candles in their input order.
   */
  lemma {:induction false} SortByTimeStable(s: seq<Candle>, t: int)
    ensures OfTime(SortByTime(s), t) == OfTime(s, t)
  {
    if s != [] {
      var rest := SortByTime(s[1..]);
      SortByTimeStable(s[1..], t);
      InsertByTimeStable(s[0], rest, t);
      OfTimeCons(s[0], rest, t);
      OfTimeCons(s[0], s[1..], t);
      assert s == [s[0]] + s[1..];
    }
  }

  // ---------------------------------------------------------------------
  // `slice(-limit)`

  /** JavaScript's `s.slice(start)`: a negative start counts from the end. */
  function SliceFrom<T>(s: seq<T>, start: int): (r: seq<T>)
    ensures |r| <= |s| && r == s[|s| - |r|..]
    ensures start < 0 ==> |r| == (if -start < |s| then -start else |s|)
    ensures start >= 0 ==> |r| == (if start < |s| then |s| - start else 0)
  {
    if start < 0 then s[if |s| + start < 0 then 0 else |s| + start..]
    else s[if start < |s| then start else |s|..]
  }

  /** `s.slice(-limit)`. */
  function TakeLast<T>(s: seq<T>, limit: int): (r: seq<T>)
    ensures |r| <= |s| && r == s[|s| - |r|..]
    ensures limit < 0 ==> |r| == (if -limit < |s| then |s| + limit else 0)
  {
    SliceFrom(s, -limit)
  }

  /** For a positive limit, `slice(-limit)` is the last `min(|s|, limit)` entries. */
  lemma TakeLastPositive<T>(s: seq<T>, limit: int)
    requires limit >= 1
    ensures |TakeLast(s, limit)| == (if |s| < limit then |s| else limit)
    ensures TakeLast(s, limit) == s[|s| - |TakeLast(s, limit)|..]
  {
  }

  /** `slice(-0)` is `slice(0)`: a limit of zero keeps everything. */
  lemma TakeLastZero<T>(s: seq<T>)
    ensures TakeLast(s, 0) == s
  {
  }

  // ---------------------------------------------------------------------
  // The whole formatting pipeline

  /** map, then sort by time, then keep the last `limit`. */
  function FormatHistory(items: seq<Item>, limit: int): seq<Candle>
  {
    TakeLast(SortByTime(ToCandles(items)), limit)
  }

  /**
   * For a positive limit the formatted series is sorted by time, holds
   * `min(|items|, limit)` candles, those are the latest ones after sorting,
   * and each of them is the candle of some item of the response.
   */
  lemma FormatHistoryShape(items: seq<Item>, limit: int)
    requires limit >= 1
    ensures var r := FormatHistory(items, limit);
            && SortedByTime(r)
            && |r| == (if |items| < limit then |items| else limit)
            && r == SortByTime(ToCandles(items))[|items| - |r|..]
            && forall k :: 0 <= k < |r| ==> exists j :: 0 <= j < |items| && r[k] == ToCandle(items[j])
  {
    var sorted := SortByTime(ToCandles(items));
    var r := FormatHistory(items, limit);
    TakeLastPositive(sorted, limit);
    SortedSuffix(sorted, |items| - |r|);
    forall k | 0 <= k < |r|
      ensures exists j :: 0 <= j < |items| && r[k] == ToCandle(items[j])
    {
      var m := |items| - |r| + k;
      assert r[k] == sorted[m];
      SortedCandleFromItem(items, m);
    }
  }

  /** A suffix of a time-sorted series is time-sorted. */
  lemma SortedSuffix(s: seq<Candle>, from: nat)
    requires from <= |s| && SortedByTime(s)
    ensures SortedByTime(s[from..])
  {
    forall i, j | 0 <= i < j < |s| - from
      ensures s[from..][i].time <= s[from..][j].time
    {
      assert s[from..][i] == s[from + i] && s[from..][j] == s[from + j];
    }
  }

  /** Every entry of the sorted candles is the candle of some item. */
  lemma SortedCandleFromItem(items: seq<Item>, m: nat)
    requires m < |items|
    ensures exists j :: 0 <= j < |items| && SortByTime(ToCandles(items))[m] == ToCandle(items[j])
  {
    var sorted := SortByTime(ToCandles(items));
    assert sorted[m] in multiset(sorted);
    assert sorted[m] in multiset(ToCandles(items));
    var j :| 0 <= j < |items| && ToCandles(items)[j] == sorted[m];
  }

  /**
   * The items the pipeline formats: those of a successful response whose
   * body says `success` and carries at least one item.
   */
  function UsableItems(resp: Response): (r: Option<seq<Item>>)
    ensures r.Some? <==> resp.Http? && resp.ok && resp.body.Json? && resp.body.success
                         && resp.body.items.Some? && |resp.body.items.value| > 0
    ensures r.Some? ==> r.value == resp.body.items.value
  {
    match resp
    case Http(true, Json(true, Some(items))) => if |items| > 0 then Some(items) else None
    case _ => None
  }

  // ---------------------------------------------------------------------
  // The synthetic series

  /** Four `Math.random()` results, each in [0, 1). */
  datatype Draw = Draw(variation: real, drift: real, wickUp: real, wickDown: real)

  predicate ValidDraw(d: Draw)
  {
    0.0 <= d.variation < 1.0 && 0.0 <= d.drift < 1.0 && 0.0 <= d.wickUp < 1.0 && 0.0 <= d.wickDown < 1.0
  }

  const BasePrice: real := 0.00154

  function Max(a: real, b: real): real { if a < b then b else a }
  function Min(a: real, b: real): real { if a < b then a else b }

  /** `(now - i * 60 * 1000) / 1000`, floored, is `i` minutes before now's second. */
  lemma MinutesBefore(nowMs: int, i: int)
    ensures SecondsOf(nowMs - i * MockSpacingMs) == SecondsOf(nowMs) - 60 * i
  {
    var s := SecondsOf(nowMs);
    assert (s - 60 * i) * 1000 <= nowMs - i * MockSpacingMs < (s - 60 * i + 1) * 1000;
    var q := SecondsOf(nowMs - i * MockSpacingMs);
    assert q * 1000 <= nowMs - i * MockSpacingMs < (q + 1) * 1000;
  }

  /**
   * The candle generated `i` minutes before `nowMs` from one draw: every
   * price clamped at zero, the wicks enclosing open and close.
   */
  function MockCandle(nowMs: int, i: int, d: Draw): (r: Candle)
    requires ValidDraw(d)
    ensures r.time == SecondsOf(nowMs) - 60 * i
    ensures 0.0 <= r.low && 0.0 <= r.open && 0.0 <= r.close && 0.0 <= r.high
    ensures r.low <= r.open <= r.high && r.low <= r.close <= r.high
  {
    MinutesBefore(nowMs, i);
    var open := BasePrice + (d.variation - 0.5) * 0.00015;
    var close := open + (d.drift - 0.5) * 0.00008;
    var high := Max(open, close) + d.wickUp * 0.00003;
    var low := Min(open, close) - d.wickDown * 0.00003;
    Candle(SecondsOf(nowMs - i * MockSpacingMs), Max(0.0, open), Max(0.0, high), Max(0.0, low), Max(0.0, close))
  }

  /**
   * `generateMockData`: 100 candles one minute apart, the last one at the
   * current second, built oldest first.
   */
  method GenerateMockData(nowMs: int, draws: seq<Draw>) returns (data: seq<Candle>)
    requires |draws| == MockCount && forall k :: 0 <= k < |draws| ==> ValidDraw(draws[k])
    ensures |data| == MockCount
    ensures forall k :: 0 <= k < |data| ==> data[k] == MockCandle(nowMs, MockCount - 1 - k, draws[k])
    ensures data[|data| - 1].time == SecondsOf(nowMs)
    ensures forall k :: 0 <= k < |data| - 1 ==> data[k + 1].time == data[k].time + 60
    ensures forall k :: 0 <= k < |data| ==>
              0.0 <= data[k].low <= data[k].open <= data[k].high && data[k].low <= data[k].close <= data[k].high
  {
    data := [];
    var i: int := MockCount - 1;
    while i >= 0
      invariant -1 <= i < MockCount
      invariant |data| == MockCount - 1 - i
      invariant forall k :: 0 <= k < |data| ==> data[k] == MockCandle(nowMs, MockCount - 1 - k, draws[k])
    {
      var candle := MockCandle(nowMs, i, draws[|data|]);
      data := data + [candle];
      i := i - 1;
    }
  }

  /**
   * `getHistoricalData`: the formatted series of a usable response, the
   * synthetic series for every other outcome.
   */
  method GetHistoricalData(resp: Response, limit: Option<int>, nowMs: int, draws: seq<Draw>)
    returns (data: seq<Candle>)
    requires |draws| == MockCount && forall k :: 0 <= k < |draws| ==> ValidDraw(draws[k])
    ensures UsableItems(resp).Some? ==>
              data == FormatHistory(UsableItems(resp).value, if limit.Some? then limit.value else DefaultLimit)
    ensures UsableItems(resp).None? ==>
              && |data| == MockCount
              && data[|data| - 1].time == SecondsOf(nowMs)
              && (forall k :: 0 <= k < |data| - 1 ==> data[k + 1].time == data[k].time + 60)
              && (forall k :: 0 <= k < |data| ==> 0.0 <= data[k].low <= data[k].open <= data[k].high
                                                   && data[k].low <= data[k].close <= data[k].high)
  {
    var lim := if limit.Some? then limit.value else DefaultLimit;
    match UsableItems(resp)
    case Some(items) =>
      data := FormatHistory(items, lim);
    case None =>
      data := GenerateMockData(nowMs, draws);
  }
}
