/** The backtesting market (alg_benchmark.py): stocks carrying an
    `end_index` cursor ("now") that every windowed query is measured
    against, and a market that moves all cursors in lock step. */
module BenchmarkModel {
  import opened Py
  import opened MarketModel

  /** How a BenchmarkStock hands an offset to the plain Stock query: positive
      offsets are absolute, the others count back from the cursor, so that
      -1 names the cursor itself and 0 the observation just after it. */
  function Resolve(endIndex: int, t: int): (r: int)
    ensures t > 0 ==> r == t
    ensures t <= 0 ==> r == endIndex + t + 1
  {
    if t > 0 then t else endIndex + t + 1
  }

  /** The cursor the constructor stores: a positive end index is absolute,
      any other is counted back from the length of the history. */
  function InitialEndIndex(n: nat, endIndex: int): (r: int)
    ensures endIndex > 0 ==> r == endIndex
    ensures endIndex <= 0 ==> r == n + endIndex
  {
    if endIndex > 0 then endIndex else n + endIndex
  }

  /** The state of one BenchmarkStock at a given moment: its history and its
      cursor. All queries refuse offsets beyond the cursor. */
  datatype Series = Series(stock: Stock, endIndex: int) {

    predicate Beyond(fromTime: int, toTime: int)
    {
      fromTime > endIndex || toTime > endIndex
    }

    /** The observation at the cursor (not the last one recorded). */
    function Price(): (r: Result<real>)
      ensures r.Ok? <==> -|stock.past| <= endIndex < |stock.past|
      ensures r.Err? ==> r.error == IndexError
      ensures 0 <= endIndex < |stock.past| ==> r == Ok(stock.past[endIndex])
      ensures -|stock.past| <= endIndex < 0 ==> r == Ok(stock.past[|stock.past| + endIndex])
    {
      Get(stock.past, endIndex)
    }

    function HistoricalAverage(fromTime: int := 0, toTime: int := -1): (r: Result<real>)
      ensures Beyond(fromTime, toTime) ==> r == Err(IndexError)
      ensures !Beyond(fromTime, toTime) ==>
                r == stock.HistoricalAverage(Resolve(endIndex, fromTime), Resolve(endIndex, toTime))
    {
      if Beyond(fromTime, toTime) then Err(IndexError)
      else stock.HistoricalAverage(Resolve(endIndex, fromTime), Resolve(endIndex, toTime))
    }

    function HistoricalMin(fromTime: int := 0, toTime: int := -1): (r: Result<real>)
      ensures Beyond(fromTime, toTime) ==> r == Err(IndexError)
      ensures !Beyond(fromTime, toTime) ==>
                r == stock.HistoricalMin(Resolve(endIndex, fromTime), Resolve(endIndex, toTime))
    {
      if Beyond(fromTime, toTime) then Err(IndexError)
      else stock.HistoricalMin(Resolve(endIndex, fromTime), Resolve(endIndex, toTime))
    }

    function HistoricalMax(fromTime: int := 0, toTime: int := -1): (r: Result<real>)
      ensures Beyond(fromTime, toTime) ==> r == Err(IndexError)
      ensures !Beyond(fromTime, toTime) ==>
                r == stock.HistoricalMax(Resolve(endIndex, fromTime), Resolve(endIndex, toTime))
    {
      if Beyond(fromTime, toTime) then Err(IndexError)
      else stock.HistoricalMax(Resolve(endIndex, fromTime), Resolve(endIndex, toTime))
    }

    function Trend(fromTime: int := -2, toTime: int := -1): (r: Result<real>)
      ensures Beyond(fromTime, toTime) ==> r == Err(IndexError)
      ensures !Beyond(fromTime, toTime) ==>
                r == stock.Trend(Resolve(endIndex, fromTime), Resolve(endIndex, toTime))
    {
      if Beyond(fromTime, toTime) then Err(IndexError)
      else stock.Trend(Resolve(endIndex, fromTime), Resolve(endIndex, toTime))
    }
  }

  /** Two histories of equal length that agree at every index up to the cursor. */
  ghost predicate AgreeUpTo(p: seq<real>, q: seq<real>, endIndex: int)
  {
    |p| == |q| && forall i :: 0 <= i < |p| && i <= endIndex ==> p[i] == q[i]
  }

  /** The slices average, min and max take stop at the cursor, provided the
      resolved upper bound does not wrap around to the end of the history. */
  lemma {:induction false} WindowStopsAtCursor(s: Series, fromTime: int, toTime: int)
    requires !s.Beyond(fromTime, toTime)
    requires toTime > 0 || toTime >= -(s.endIndex + 1)
    ensures SliceBound(|s.stock.past|, Resolve(s.endIndex, toTime)) <= s.endIndex + 1
  {
  }

  /** Slices of two histories that agree below the upper bound are equal. */
  lemma SliceAgrees(p: seq<real>, q: seq<real>, a: int, b: int, e: int)
    requires AgreeUpTo(p, q, e)
    requires SliceBound(|p|, b) <= e + 1
    ensures Slice(p, a, b) == Slice(q, a, b)
  {
    var lo, hi := SliceBound(|p|, a), SliceBound(|p|, b);
    if lo < hi {
      assert forall i :: lo <= i < hi ==> p[i] == q[i];
    }
  }

  /** No lookahead for the windowed queries: average, min and max give the same
      answer on any two histories that agree up to the cursor, for every upper
      offset that does not reach before the start of the history. */
  lemma {:induction false} WindowNoLookahead(s: Series, other: seq<real>, fromTime: int, toTime: int)
    requires AgreeUpTo(s.stock.past, other, s.endIndex)
    requires toTime > 0 || toTime >= -(s.endIndex + 1)
    ensures s.HistoricalAverage(fromTime, toTime) == s.(stock := s.stock.(past := other)).HistoricalAverage(fromTime, toTime)
    ensures s.HistoricalMin(fromTime, toTime) == s.(stock := s.stock.(past := other)).HistoricalMin(fromTime, toTime)
    ensures s.HistoricalMax(fromTime, toTime) == s.(stock := s.stock.(past := other)).HistoricalMax(fromTime, toTime)
  {
    if !s.Beyond(fromTime, toTime) {
      WindowStopsAtCursor(s, fromTime, toTime);
      SliceAgrees(s.stock.past, other, Resolve(s.endIndex, fromTime), Resolve(s.endIndex, toTime), s.endIndex);
    }
  }

  /** An upper offset further back than the start of the history wraps around
      Python-style and reads past the cursor: with the cursor at index 1 the
      maximum of window (1, -3) is the price at index 3. */
  lemma WindowWrapsPastCursor()
    ensures Series(Stock("s", [1.0, 2.0, 3.0, 4.0, 5.0]), 1).HistoricalMax(1, -3) == Ok(4.0)
  {
    var past := [1.0, 2.0, 3.0, 4.0, 5.0];
    assert Slice(past, 1, -1) == [2.0, 3.0, 4.0];
    MaxIsGreatest([2.0, 3.0, 4.0]);
  }

  /** An offset the trend accepts without reading past the cursor: one of
      -endIndex..-1 or 1..endIndex. */
  predicate TrendOffsetSafe(endIndex: int, t: int)
  {
    -endIndex <= t <= -1 || 1 <= t <= endIndex
  }

  /** No lookahead for the trend, for offsets in -endIndex..-1 or 1..endIndex. */
  lemma {:induction false} TrendNoLookahead(s: Series, other: seq<real>, fromTime: int, toTime: int)
    requires AgreeUpTo(s.stock.past, other, s.endIndex)
    requires TrendOffsetSafe(s.endIndex, fromTime) && TrendOffsetSafe(s.endIndex, toTime)
    ensures s.Trend(fromTime, toTime) == s.(stock := s.stock.(past := other)).Trend(fromTime, toTime)
  {
    var a, b := Resolve(s.endIndex, fromTime), Resolve(s.endIndex, toTime);
    assert 1 <= a <= s.endIndex && 1 <= b <= s.endIndex;
    var p := s.stock.past;
    if a < |p| {
      assert p[a] == other[a];
    }
    if b < |p| {
      assert p[b] == other[b];
    }
  }

  /** Offset 0 reads the observation just after the cursor: two histories that
      agree up to the cursor (index 1) give different trends. */
  lemma TrendOffsetZeroLooksAhead()
    ensures Series(Stock("s", [1.0, 2.0, 3.0]), 1).Trend(0, -1) == Ok(1.0)
    ensures Series(Stock("s", [1.0, 2.0, 10.0]), 1).Trend(0, -1) == Ok(8.0)
  {
  }

  /** An offset before the start of the history wraps to the end of the full
      history: with the cursor at index 1, trend(-3) (what Simple asks for)
      reads the last recorded price, index 4. */
  lemma TrendWrapsPastCursor()
    ensures Series(Stock("s", [1.0, 2.0, 3.0, 4.0, 5.0]), 1).Trend(-3) == Ok(1.0)
    ensures Series(Stock("s", [1.0, 2.0, 3.0, 4.0, 50.0]), 1).Trend(-3) == Ok(16.0)
  {
  }

  /** The default bounds of average/min/max (0, -1) resolve to the empty slice
      past[endIndex+1 : endIndex], so those defaults always fail. */
  lemma DefaultWindowEmpty(s: Series)
    requires s.endIndex >= 0
    ensures s.HistoricalAverage() == Err(ZeroDivisionError)
    ensures s.HistoricalMin() == Err(ValueError)
    ensures s.HistoricalMax() == Err(ValueError)
  {
  }

  /** One stock of the backtesting market; `next` moves its cursor. */
  class BenchmarkStock {
    const name: string
    const past: seq<real>
    var endIndex: int

    constructor (name: string, endIndex: int, past: seq<real>)
      ensures this.name == name && this.past == past
      ensures this.endIndex == InitialEndIndex(|past|, endIndex)
    {
      this.name := name;
      this.past := past;
      this.endIndex := InitialEndIndex(|past|, endIndex);
    }

    /** The stock as its queries see it now. */
    function View(): (r: Series)
      reads this
      ensures r.stock.name == name && r.stock.past == past && r.endIndex == endIndex
    {
      Series(Stock(name, past), endIndex)
    }

    method Next()
      modifies this
      ensures endIndex == old(endIndex) + 1
    {
      endIndex := endIndex + 1;
    }
  }

  function Views(ss: seq<BenchmarkStock>): (r: seq<Series>)
    reads ss
    ensures |r| == |ss|
    ensures forall i :: 0 <= i < |ss| ==> r[i] == ss[i].View()
  {
    if ss == [] then [] else Views(ss[..|ss| - 1]) + [ss[|ss| - 1].View()]
  }

  /** The files of a scenario directory that load_scenario keeps: those named
      in the wanted list, or all of them when the list is empty. */
  function Selected(listing: seq<(string, seq<real>)>, wanted: seq<string>): (r: seq<(string, seq<real>)>)
    ensures |r| <= |listing|
    ensures wanted == [] ==> r == listing
    ensures forall i :: 0 <= i < |r| ==> r[i] in listing && (wanted == [] || r[i].0 in wanted)
  {
    if listing == [] then []
    else
      var rest := Selected(listing[..|listing| - 1], wanted);
      var f := listing[|listing| - 1];
      assert listing == listing[..|listing| - 1] + [f];
      if wanted == [] || f.0 in wanted then rest + [f] else rest
  }

  /** Every listed file the wanted list names (every file, for an empty
      list) is kept. */
  lemma {:induction false} SelectedKeepsWanted(listing: seq<(string, seq<real>)>, wanted: seq<string>)
    ensures forall f :: f in listing && (wanted == [] || f.0 in wanted) ==> f in Selected(listing, wanted)
    decreases |listing|
  {
    if listing != [] {
      var p := listing[..|listing| - 1];
      assert listing == p + [listing[|listing| - 1]];
      SelectedKeepsWanted(p, wanted);
    }
  }

  /** The selection is a filter in listing order: selecting from two runs of
      files, one after the other, selects from each and keeps them in that
      order. */
  lemma {:induction false} SelectedConcat(xs: seq<(string, seq<real>)>, ys: seq<(string, seq<real>)>, wanted: seq<string>)
    ensures Selected(xs + ys, wanted) == Selected(xs, wanted) + Selected(ys, wanted)
    decreases |ys|
  {
    if ys == [] {
      assert xs + ys == xs;
    } else {
      var zs := ys[..|ys| - 1];
      assert (xs + ys)[..|xs + ys| - 1] == xs + zs;
      SelectedConcat(xs, zs, wanted);
    }
  }

  /** A single file is kept exactly when it is wanted. */
  lemma SelectedOne(f: (string, seq<real>), wanted: seq<string>)
    ensures Selected([f], wanted) == if wanted == [] || f.0 in wanted then [f] else []
  {
    assert [f][..0] == [];
  }

  /** The scenario name load_scenario uses: an empty name means "current". */
  function ScenarioName(scenario: string): (r: string)
    ensures r != ""
    ensures scenario != "" ==> r == scenario
  {
    if scenario == "" then "current" else scenario
  }

  /** The backtesting market: stocks with cursors, plus the name of the loaded
      scenario, which load_scenario uses as a cache key. */
  class MarketBenchmark {
    var stocks: seq<BenchmarkStock>
    var nBenchmarks: nat
    var loadedScenario: string

    /** Every stock is its own object, so moving one cursor moves no other. */
    ghost predicate Valid()
      reads this
    {
      forall i, j :: 0 <= i < j < |stocks| ==> stocks[i] != stocks[j]
    }

    /** All cursors are equal. */
    predicate LockStep()
      reads this, stocks
    {
      forall i :: 0 <= i < |stocks| ==> stocks[i].endIndex == stocks[0].endIndex
    }

    constructor ()
      ensures Valid()
      ensures stocks == [] && nBenchmarks == 0 && loadedScenario == ""
    {
      stocks := [];
      nBenchmarks := 0;
      loadedScenario := "";
    }

    /** What every stock's queries see now, in market order. */
    function Snapshot(): (r: seq<Series>)
      reads this, stocks
      ensures |r| == |stocks|
      ensures forall i :: 0 <= i < |stocks| ==> r[i] == stocks[i].View()
    {
      Views(stocks)
    }

    /** Loads a scenario from a directory listing given as (file name, parsed
        prices) pairs; returns at once when that scenario is already loaded,
        whatever the other arguments. */
    method LoadScenario(scenario: string, listing: seq<(string, seq<real>)>, wanted: seq<string>, start: int)
      requires Valid()
      modifies this
      ensures Valid()
      ensures nBenchmarks == old(nBenchmarks)
      ensures old(loadedScenario) == ScenarioName(scenario) ==>
                stocks == old(stocks) && loadedScenario == old(loadedScenario)
      ensures old(loadedScenario) != ScenarioName(scenario) ==>
                loadedScenario == ScenarioName(scenario) &&
                |stocks| == |Selected(listing, wanted)| &&
                forall i :: 0 <= i < |stocks| ==>
                  fresh(stocks[i]) &&
                  stocks[i].name == Selected(listing, wanted)[i].0 &&
                  stocks[i].past == Selected(listing, wanted)[i].1 &&
                  stocks[i].endIndex == InitialEndIndex(|stocks[i].past|, start)
    {
      var sc := ScenarioName(scenario);
      if loadedScenario == sc {
        return;
      }
      loadedScenario := sc;
      stocks := [];
      var k := 0;
      while k < |listing|
        invariant 0 <= k <= |listing|
        invariant loadedScenario == sc && nBenchmarks == old(nBenchmarks)
        invariant Valid()
        invariant |stocks| == |Selected(listing[..k], wanted)|
        invariant forall i :: 0 <= i < |stocks| ==>
                    fresh(stocks[i]) &&
                    stocks[i].name == Selected(listing[..k], wanted)[i].0 &&
                    stocks[i].past == Selected(listing[..k], wanted)[i].1 &&
                    stocks[i].endIndex == InitialEndIndex(|stocks[i].past|, start)
      {
        assert listing[..k + 1][..k] == listing[..k];
        var (file, past) := listing[k];
        if wanted == [] || file in wanted {
          var b := new BenchmarkStock(file, start, past);
          stocks := stocks + [b];
        }
        k := k + 1;
      }
      assert listing[..k] == listing;
    }

    /** Puts every cursor at `start`; fails when no scenario is loaded. */
    method StartFrom(start: int) returns (raised: Option<Error>)
      requires Valid()
      modifies stocks
      ensures loadedScenario == "" ==> raised == Some(Exception("scenario not loaded"))
      ensures loadedScenario == "" ==> forall i :: 0 <= i < |stocks| ==> stocks[i].endIndex == old(stocks[i].endIndex)
      ensures loadedScenario != "" ==> raised.None?
      ensures loadedScenario != "" ==> LockStep() && forall i :: 0 <= i < |stocks| ==> stocks[i].endIndex == start
    {
      if loadedScenario == "" {
        return Some(Exception("scenario not loaded"));
      }
      var k := 0;
      while k < |stocks|
        invariant 0 <= k <= |stocks|
        invariant forall i :: 0 <= i < k ==> stocks[i].endIndex == start
      {
        stocks[k].endIndex := start;
        k := k + 1;
      }
      return None;
    }

    /** Moves every cursor one step forward. */
    method Next()
      requires Valid()
      modifies stocks
      ensures forall i :: 0 <= i < |stocks| ==> stocks[i].endIndex == old(stocks[i].endIndex) + 1
      ensures old(LockStep()) ==> LockStep()
    {
      var k := 0;
      while k < |stocks|
        invariant 0 <= k <= |stocks|
        invariant forall i :: 0 <= i < k ==> stocks[i].endIndex == old(stocks[i].endIndex) + 1
        invariant forall i :: k <= i < |stocks| ==> stocks[i].endIndex == old(stocks[i].endIndex)
      {
        stocks[k].Next();
        k := k + 1;
      }
    }

    /** The number of observations visible to the first stock. */
    function HistoryLen(): (r: Result<int>)
      reads this, stocks
      ensures r.Ok? <==> stocks != []
      ensures r.Err? ==> r.error == IndexError
      ensures r.Ok? ==> r.value == stocks[0].endIndex + 1
    {
      if stocks == [] then Err(IndexError) else Ok(stocks[0].endIndex + 1)
    }

    /** Observations of the first stock still to come; the other stocks are
        not consulted. */
    function TimeLeft(): (r: Result<int>)
      reads this, stocks
      ensures r.Ok? <==> stocks != []
      ensures r.Err? ==> r.error == IndexError
      ensures r.Ok? ==> r.value == |stocks[0].past| - (stocks[0].endIndex + 1)
    {
      match HistoryLen()
      case Err(e) => Err(e)
      case Ok(h) => Ok(|stocks[0].past| - h)
    }
  }
}
