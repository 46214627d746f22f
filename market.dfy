/** Price series of one stock and the plain market that holds them
    (market.py). A stock's queries read its whole recorded history; the
    time-windowed variant used for backtests is in BenchmarkModel. */
module MarketModel {
  import opened Py

  /** The index `trend` computes for an offset: positive offsets are taken as
      they are, anything else is counted back from the length of the history.
      Note that offset 0 becomes n, although `past[0]` reads index 0. */
  function TrendIndex(n: nat, t: int): int
  {
    if t > 0 then t else n + t
  }

  datatype Stock = Stock(name: string, past: seq<real>) {

    /** The most recent observation. */
    function Price(): (r: Result<real>)
      ensures r.Ok? <==> |past| > 0
      ensures r.Err? ==> r.error == IndexError
      ensures r.Ok? ==> r.value == past[|past| - 1]
    {
      Get(past, -1)
    }

    /** The slice `past[fromTime:toTime]` shared by average, min and max. */
    function Window(fromTime: int, toTime: int): seq<real>
    {
      Slice(past, fromTime, toTime)
    }

    function HistoricalAverage(fromTime: int := 0, toTime: int := -1): (r: Result<real>)
      ensures r.Err? <==> Window(fromTime, toTime) == []
      ensures r.Err? ==> r.error == ZeroDivisionError
      ensures r.Ok? ==> r.value * |Window(fromTime, toTime)| as real == Sum(Window(fromTime, toTime))
    {
      var w := Window(fromTime, toTime);
      if |w| == 0 then Err(ZeroDivisionError) else Ok(Sum(w) / |w| as real)
    }

    function HistoricalMin(fromTime: int := 0, toTime: int := -1): (r: Result<real>)
      ensures r.Err? <==> Window(fromTime, toTime) == []
      ensures r.Err? ==> r.error == ValueError
      ensures r.Ok? ==> r.value in Window(fromTime, toTime)
      ensures r.Ok? ==> forall i :: 0 <= i < |Window(fromTime, toTime)| ==> r.value <= Window(fromTime, toTime)[i]
    {
      var w := Window(fromTime, toTime);
      if w == [] then Err(ValueError) else MinIsLeast(w); Ok(Min(w))
    }

    function HistoricalMax(fromTime: int := 0, toTime: int := -1): (r: Result<real>)
      ensures r.Err? <==> Window(fromTime, toTime) == []
      ensures r.Err? ==> r.error == ValueError
      ensures r.Ok? ==> r.value in Window(fromTime, toTime)
      ensures r.Ok? ==> forall i :: 0 <= i < |Window(fromTime, toTime)| ==> Window(fromTime, toTime)[i] <= r.value
    {
      var w := Window(fromTime, toTime);
      if w == [] then Err(ValueError) else MaxIsGreatest(w); Ok(Max(w))
    }

    /** Rate of change between two observations; 0 on an empty history or
        when the two computed indices coincide. */
    function Trend(fromTime: int := -2, toTime: int := -1): (r: Result<real>)
      ensures |past| == 0 ==> r == Ok(0.0)
      ensures TrendIndex(|past|, fromTime) == TrendIndex(|past|, toTime) ==> r == Ok(0.0)
      ensures r.Err? ==> r.error == IndexError
      ensures r.Err? <==> |past| > 0 && TrendIndex(|past|, fromTime) != TrendIndex(|past|, toTime)
                          && (Get(past, fromTime).Err? || Get(past, toTime).Err?)
    {
      var n := |past|;
      var i1, i2 := TrendIndex(n, fromTime), TrendIndex(n, toTime);
      if n > 0 && i1 != i2 then
        match Get(past, fromTime)
        case Err(e) => Err(e)
        case Ok(a) =>
          match Get(past, toTime)
          case Err(e) => Err(e)
          case Ok(b) => Ok((a - b) / (i1 - i2) as real)
      else Ok(0.0)
    }
  }

  /** With the default bounds the window is every observation but the latest. */
  lemma DefaultWindowExcludesLatest(s: Stock)
    requires |s.past| > 0
    ensures s.Window(0, -1) == s.past[..|s.past| - 1]
  {
  }

  /** On a non-empty window: minimum <= average <= maximum. */
  lemma WindowOrder(s: Stock, fromTime: int, toTime: int)
    requires s.Window(fromTime, toTime) != []
    ensures s.HistoricalMin(fromTime, toTime).Ok?
    ensures s.HistoricalAverage(fromTime, toTime).Ok?
    ensures s.HistoricalMax(fromTime, toTime).Ok?
    ensures s.HistoricalMin(fromTime, toTime).value <= s.HistoricalAverage(fromTime, toTime).value
    ensures s.HistoricalAverage(fromTime, toTime).value <= s.HistoricalMax(fromTime, toTime).value
  {
    var w := s.Window(fromTime, toTime);
    SumBetween(w);
    MeanBetween(|w| as real, Min(w), s.HistoricalAverage(fromTime, toTime).value, Max(w), Sum(w));
  }

  /** A mean of n values lies between n-fold bounds of their sum. */
  lemma MeanBetween(n: real, lo: real, avg: real, hi: real, sum: real)
    requires n > 0.0 && n * lo <= sum <= n * hi && avg * n == sum
    ensures lo <= avg <= hi
  {
    assert n * lo <= n * avg;
    assert n * avg <= n * hi;
    CancelFactor(n, lo, avg);
    CancelFactor(n, avg, hi);
  }

  /** The default trend is the last price step: past[-1] - past[-2]. */
  lemma {:induction false} DefaultTrend(s: Stock)
    requires |s.past| >= 2
    ensures s.Trend() == Ok(s.past[|s.past| - 1] - s.past[|s.past| - 2])
  {
    var n := |s.past|;
    assert TrendIndex(n, -2) - TrendIndex(n, -1) == -1;
    var a, b := s.past[n - 2], s.past[n - 1];
    assert (a - b) / (-1) as real == b - a;
  }

  /** With a single observation the default trend reads past[-2] and fails. */
  lemma DefaultTrendOneObservation(s: Stock)
    requires |s.past| == 1
    ensures s.Trend() == Err(IndexError)
  {
  }

  /** market.py's Market: a list of stocks, appended to in place. */
  class Market {
    var stocks: seq<Stock>

    constructor ()
      ensures stocks == []
    {
      stocks := [];
    }

    method AddStock(stk: Stock)
      modifies this
      ensures stocks == old(stocks) + [stk]
    {
      stocks := stocks + [stk];
    }

    /** The length of the first stock's history; IndexError on an empty market. */
    function HistoryLen(): (r: Result<nat>)
      reads this
      ensures r.Ok? <==> stocks != []
      ensures r.Err? ==> r.error == IndexError
      ensures r.Ok? ==> r.value == |stocks[0].past|
    {
      if stocks == [] then Err(IndexError) else Ok(|stocks[0].past|)
    }

    /** The first stock carrying the name, or None. */
    method StockByName(name: string) returns (r: Option<Stock>)
      ensures r.None? <==> forall i :: 0 <= i < |stocks| ==> stocks[i].name != name
      ensures r.Some? ==> exists i :: 0 <= i < |stocks| && stocks[i] == r.value && r.value.name == name
                                      && forall j :: 0 <= j < i ==> stocks[j].name != name
    {
      var i := 0;
      while i < |stocks|
        invariant 0 <= i <= |stocks|
        invariant forall j :: 0 <= j < i ==> stocks[j].name != name
      {
        if stocks[i].name == name {
          return Some(stocks[i]);
        }
        i := i + 1;
      }
      return None;
    }
  }
}
