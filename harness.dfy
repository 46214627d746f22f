/** The backtest driver of alg_benchmark.py: MarketBenchmark.cycle and the
    stats_of_benchmark sequence (load the scenario, build the strategy, set
    its tick counter, cycle, report). It sits in a module of its own because
    it joins the market to the strategy engine, which itself reads the market. */
module Harness {
  import opened Py
  import opened BenchmarkModel
  import opened Strategy

  /** The number of ticks a cycle runs from a given time_left. */
  function TicksFor(timeLeft: int): (r: nat)
    ensures timeLeft > 0 ==> r == timeLeft
    ensures timeLeft <= 0 ==> r == 0
  {
    Pos(timeLeft)
  }

  /** cycle(strategy.tick): while time_left() > 0, tick then move every cursor.
      Returns the number of ticks run; an exception from time_left (an empty
      market) or from a tick ends it. */
  method Cycle(market: MarketBenchmark, a: AlgorithmStrategy) returns (r: Result<nat>)
    requires market.Valid() && a.Valid() && a.market == market
    modifies market.stocks, a
    ensures a.Valid()
    ensures old(market.TimeLeft()).Err? ==> r == Err(IndexError) && a.tickCount == old(a.tickCount)
    ensures old(market.TimeLeft()).Ok? && old(market.TimeLeft()).value <= 0 ==> r == Ok(0)
    ensures r.Ok? ==> old(market.TimeLeft()).Ok? && r.value == TicksFor(old(market.TimeLeft()).value)
    ensures r.Ok? ==> market.TimeLeft().Ok? && market.TimeLeft().value <= 0
    ensures r.Ok? ==> a.tickCount == old(a.tickCount) + r.value
    ensures r.Ok? ==> forall i :: 0 <= i < |market.stocks| ==>
                        market.stocks[i].endIndex == old(market.stocks[i].endIndex) + r.value
    ensures old(market.TimeLeft()).Ok? ==> old(a.tickCount) <= a.tickCount <= old(a.tickCount) + TicksFor(old(market.TimeLeft()).value)
    ensures old(market.LockStep()) ==> market.LockStep()
    ensures r == Ok(0) ==> unchanged(a)
  {
    var count := 0;
    var tl := market.TimeLeft();
    while tl.Ok? && tl.value > 0
      invariant a.Valid()
      invariant tl == market.TimeLeft()
      invariant tl.Ok? <==> old(market.TimeLeft()).Ok?
      invariant tl.Ok? ==> tl.value == old(market.TimeLeft()).value - count
      invariant tl.Ok? ==> count <= TicksFor(old(market.TimeLeft()).value)
      invariant tl.Err? ==> count == 0
      invariant a.tickCount == old(a.tickCount) + count
      invariant forall i :: 0 <= i < |market.stocks| ==>
                  market.stocks[i].endIndex == old(market.stocks[i].endIndex) + count
      invariant old(market.LockStep()) ==> market.LockStep()
      invariant count == 0 ==> unchanged(a)
      decreases if tl.Ok? then tl.value else 0
    {
      var raised := Step(market, a);
      if raised.Some? {
        return Err(raised.value);
      }
      count := count + 1;
      tl := market.TimeLeft();
    }
    if tl.Err? {
      return Err(tl.error);
    }
    return Ok(count);
  }

  /** One turn of the cycle loop: a tick, then every cursor moves on; the
      cursors stay where they are when the tick raises. */
  method Step(market: MarketBenchmark, a: AlgorithmStrategy) returns (raised: Option<Error>)
    requires market.Valid() && a.Valid() && a.market == market
    modifies market.stocks, a
    ensures a.Valid()
    ensures a.tickCount == old(a.tickCount) + 1
    ensures raised.None? ==> forall i :: 0 <= i < |market.stocks| ==>
                               market.stocks[i].endIndex == old(market.stocks[i].endIndex) + 1
    ensures raised.Some? ==> forall i :: 0 <= i < |market.stocks| ==>
                               market.stocks[i].endIndex == old(market.stocks[i].endIndex)
    ensures old(market.LockStep()) ==> market.LockStep()
    ensures raised.None? && old(market.TimeLeft()).Ok? ==> market.TimeLeft() == Ok(old(market.TimeLeft()).value - 1)
    ensures raised.None? && old(market.TimeLeft()).Err? ==> market.TimeLeft() == old(market.TimeLeft())
  {
    raised := TickFun(a);
    if raised.Some? {
      return;
    }
    market.Next();
  }

  /** The tick_fun callback cycle is handed (the strategy's tick), with what
      cycle relies on: the engine stays consistent and counts the tick. cycle
      accepts any tick function, so what the tick does to the book (TickSpec,
      proved of AlgorithmStrategy.Tick) is not carried past this point. */
  method TickFun(a: AlgorithmStrategy) returns (raised: Option<Error>)
    requires a.Valid()
    modifies a
    ensures a.Valid() && a.tickCount == old(a.tickCount) + 1
  {
    raised := a.Tick();
  }

  /** The alg_class argument: which strategy the driver builds. */
  datatype AlgClass = SimpleClass | AllInAllOutClass

  function RuleFor(alg: AlgClass, params: seq<real>): Rule
  {
    match alg
    case SimpleClass => SimpleParams(params)
    case AllInAllOutClass => AllInAllOutParams(params)
  }

  /** Builds the strategy alg_class names with start_capital 0 and sets its
      tick counter to `start`. */
  method Build(market: MarketBenchmark, alg: AlgClass, params: seq<real>, start: int, round: real -> real)
    returns (a: AlgorithmStrategy)
    ensures fresh(a) && a.Valid() && a.market == market && a.rule == RuleFor(alg, params) && a.startCapital == 0.0
    ensures a.Untraded() && a.tickCount == start
  {
    if alg.SimpleClass? {
      a := NewSimple(market, 0.0, params, round);
    } else {
      a := NewAllInAllOut(market, 0.0, params, round);
    }
    a.SetTickCount(start);
  }

  /** The first half of stats_of_benchmark: load the scenario (a no-op when
      it is already loaded, whatever the other arguments), build the strategy
      and set its tick counter to `start`. */
  method Prepare(market: MarketBenchmark, alg: AlgClass, scenario: string,
                 listing: seq<(string, seq<real>)>, wanted: seq<string>,
                 params: seq<real>, start: int, round: real -> real)
    returns (a: AlgorithmStrategy)
    requires market.Valid()
    modifies market
    ensures market.Valid() && market.loadedScenario == ScenarioName(scenario)
    ensures fresh(a) && a.Valid() && a.market == market && a.rule == RuleFor(alg, params) && a.startCapital == 0.0
    ensures a.Untraded() && a.tickCount == start
    ensures forall i :: 0 <= i < |market.stocks| ==> market.stocks[i] in old(market.stocks) || fresh(market.stocks[i])
    ensures old(market.loadedScenario) == ScenarioName(scenario) ==>
              market.stocks == old(market.stocks) && market.TimeLeft() == old(market.TimeLeft())
    ensures old(market.loadedScenario) != ScenarioName(scenario) ==>
              |market.stocks| == |Selected(listing, wanted)| &&
              forall i :: 0 <= i < |market.stocks| ==>
                market.stocks[i].name == Selected(listing, wanted)[i].0 &&
                market.stocks[i].past == Selected(listing, wanted)[i].1 &&
                market.stocks[i].endIndex == InitialEndIndex(|market.stocks[i].past|, start)
  {
    market.LoadScenario(scenario, listing, wanted, start);
    a := Build(market, alg, params, start, round);
  }

  /** The second half of stats_of_benchmark: cycle the strategy's tick to the
      end of the history and return its stats. `ran` is what the cycle
      returned. */
  method Finish(market: MarketBenchmark, a: AlgorithmStrategy) returns (r: Result<Statistics>, ran: Result<nat>)
    requires market.Valid() && a.Valid() && a.market == market
    modifies market.stocks, a
    ensures a.Valid()
    ensures (old(market.TimeLeft()).Ok? && old(market.TimeLeft()).value <= 0) ==> ran == Ok(0)
    ensures ran.Ok? ==> old(market.TimeLeft()).Ok? && ran.value == TicksFor(old(market.TimeLeft()).value)
    ensures ran.Ok? ==> market.TimeLeft().Ok? && market.TimeLeft().value <= 0
    ensures ran.Ok? ==> a.tickCount == old(a.tickCount) + ran.value
    ensures ran.Err? ==> r == Err(ran.error)
    ensures ran.Ok? ==> r == a.Stats()
    ensures ran == Ok(0) ==> unchanged(a)
    ensures ran == Ok(0) && old(a.Untraded()) ==> a.Untraded()
  {
    ran := Cycle(market, a);
    if ran.Err? {
      return Err(ran.error), ran;
    }
    r := a.Stats();
  }

  /** stats_of_benchmark with its scenario cache as it stands; the calls to
      disable_log and update_history, which alg.py does not define, are
      taken as doing nothing. */
  method StatsOfBenchmark(market: MarketBenchmark, alg: AlgClass, scenario: string,
                          listing: seq<(string, seq<real>)>, wanted: seq<string>,
                          params: seq<real>, start: int, round: real -> real)
    returns (r: Result<Statistics>, a: AlgorithmStrategy, ran: Result<nat>)
    requires market.Valid()
    modifies market, market.stocks
    ensures market.Valid() && market.loadedScenario == ScenarioName(scenario)
    ensures fresh(a) && a.Valid() && a.market == market && a.rule == RuleFor(alg, params) && a.startCapital == 0.0
    ensures forall i :: 0 <= i < |market.stocks| ==> market.stocks[i] in old(market.stocks) || fresh(market.stocks[i])
    ensures old(market.loadedScenario) == ScenarioName(scenario) ==> market.stocks == old(market.stocks)
    ensures (old(market.loadedScenario) == ScenarioName(scenario) && old(market.TimeLeft()).Ok? &&
             old(market.TimeLeft()).value <= 0) ==> ran == Ok(0)
    ensures old(market.loadedScenario) != ScenarioName(scenario) ==>
              |market.stocks| == |Selected(listing, wanted)| &&
              forall i :: 0 <= i < |market.stocks| ==>
                market.stocks[i].name == Selected(listing, wanted)[i].0 && market.stocks[i].past == Selected(listing, wanted)[i].1
    ensures (old(market.loadedScenario) != ScenarioName(scenario) && ran.Ok?) ==>
              market.stocks != [] &&
              ran.value == TicksFor(|market.stocks[0].past| - (InitialEndIndex(|market.stocks[0].past|, start) + 1))
    ensures ran.Ok? ==> a.tickCount == start + ran.value
    ensures ran.Ok? ==> market.TimeLeft().Ok? && market.TimeLeft().value <= 0
    ensures ran.Err? ==> r == Err(ran.error)
    ensures ran.Ok? ==> r == a.Stats()
    ensures ran == Ok(0) ==> a.Untraded()
  {
    a := Prepare(market, alg, scenario, listing, wanted, params, start, round);
    r, ran := Finish(market, a);
  }

  /** Puts every cursor where a fresh load with `start` would put it. */
  method Rewind(market: MarketBenchmark, start: int)
    requires market.Valid()
    modifies market.stocks
    ensures forall i :: 0 <= i < |market.stocks| ==>
              market.stocks[i].endIndex == InitialEndIndex(|market.stocks[i].past|, start)
  {
    var k := 0;
    while k < |market.stocks|
      invariant 0 <= k <= |market.stocks|
      invariant forall i :: 0 <= i < k ==>
                  market.stocks[i].endIndex == InitialEndIndex(|market.stocks[i].past|, start)
    {
      market.stocks[k].endIndex := InitialEndIndex(|market.stocks[k].past|, start);
      k := k + 1;
    }
  }

  /** The second half with the cursors rewound first: every run then
      covers the history from `start`. */
  method Replay(market: MarketBenchmark, a: AlgorithmStrategy, start: int)
    returns (r: Result<Statistics>, ran: Result<nat>)
    requires market.Valid() && a.Valid() && a.market == market
    modifies market.stocks, a
    ensures a.Valid()
    ensures ran.Ok? ==>
              market.stocks != [] &&
              ran.value == TicksFor(|market.stocks[0].past| - (InitialEndIndex(|market.stocks[0].past|, start) + 1))
    ensures ran.Ok? ==> a.tickCount == old(a.tickCount) + ran.value
    ensures ran.Err? ==> r == Err(ran.error)
    ensures ran.Ok? ==> r == a.Stats()
  {
    Rewind(market, start);
    r, ran := Finish(market, a);
  }

  /** stats_of_benchmark with the cursors rewound after loading, so that a
      cached scenario is replayed from `start` like a fresh one. */
  method StatsOfBenchmarkRewound(market: MarketBenchmark, alg: AlgClass, scenario: string,
                                 listing: seq<(string, seq<real>)>, wanted: seq<string>,
                                 params: seq<real>, start: int, round: real -> real)
    returns (r: Result<Statistics>, a: AlgorithmStrategy, ran: Result<nat>)
    requires market.Valid()
    modifies market, market.stocks
    ensures market.Valid() && market.loadedScenario == ScenarioName(scenario)
    ensures fresh(a) && a.Valid() && a.market == market && a.rule == RuleFor(alg, params) && a.startCapital == 0.0
    ensures forall i :: 0 <= i < |market.stocks| ==> market.stocks[i] in old(market.stocks) || fresh(market.stocks[i])
    ensures old(market.loadedScenario) == ScenarioName(scenario) ==> market.stocks == old(market.stocks)
    ensures old(market.loadedScenario) != ScenarioName(scenario) ==>
              |market.stocks| == |Selected(listing, wanted)| &&
              forall i :: 0 <= i < |market.stocks| ==>
                market.stocks[i].name == Selected(listing, wanted)[i].0 && market.stocks[i].past == Selected(listing, wanted)[i].1
    ensures ran.Ok? ==>
              market.stocks != [] &&
              ran.value == TicksFor(|market.stocks[0].past| - (InitialEndIndex(|market.stocks[0].past|, start) + 1))
    ensures ran.Ok? ==> a.tickCount == start + ran.value
    ensures ran.Err? ==> r == Err(ran.error)
    ensures ran.Ok? ==> r == a.Stats()
  {
    a := Prepare(market, alg, scenario, listing, wanted, params, start, round);
    r, ran := Replay(market, a, start);
  }

  /** Two runs of stats_of_benchmark on one market and one scenario, as the
      worker loop of the grid search makes them: when the first run loads the
      scenario and completes its ticks, the second finds the cursors at the
      end and runs no tick at all. */
  method RepeatedRunIsIdle(market: MarketBenchmark, alg: AlgClass, scenario: string,
                           listing: seq<(string, seq<real>)>, wanted: seq<string>,
                           params1: seq<real>, params2: seq<real>, start: int, round: real -> real)
    returns (ran1: Result<nat>, ran2: Result<nat>, r2: Result<Statistics>)
    requires market.Valid() && market.loadedScenario != ScenarioName(scenario)
    requires Selected(listing, wanted) != []
    requires |Selected(listing, wanted)[0].1| - (InitialEndIndex(|Selected(listing, wanted)[0].1|, start) + 1) > 0
    modifies market, market.stocks
    ensures ran1.Ok? ==> ran1.value > 0 && ran2 == Ok(0)
    ensures ran1.Ok? && r2.Ok? ==> IdleStats(r2.value)
  {
    var r1, a1;
    r1, a1, ran1 := StatsOfBenchmark(market, alg, scenario, listing, wanted, params1, start, round);
    if ran1.Ok? {
      r2, ran2 := RunAtEnd(market, alg, scenario, listing, wanted, params2, start, round);
    } else {
      var a2;
      r2, a2, ran2 := StatsOfBenchmark(market, alg, scenario, listing, wanted, params2, start, round);
    }
  }

  /** The statistics of a strategy that started from 0 and never traded:
      no transaction, no cash, a flat capital history, no share held. */
  predicate IdleStats(st: Statistics)
  {
    st.nTransactions == 0 && st.revenue == 0.0 && st.maxCapital == 0.0 && st.minCapital == 0.0 &&
    forall k :: k in st.finalPortfolio ==> st.finalPortfolio[k] == 0
  }

  /** stats_of_benchmark on a market that already holds the scenario with
      every cursor at its end: the cache skips the reload and no tick runs. */
  method RunAtEnd(market: MarketBenchmark, alg: AlgClass, scenario: string,
                  listing: seq<(string, seq<real>)>, wanted: seq<string>,
                  params: seq<real>, start: int, round: real -> real)
    returns (r: Result<Statistics>, ran: Result<nat>)
    requires market.Valid() && market.loadedScenario == ScenarioName(scenario)
    requires market.TimeLeft().Ok? && market.TimeLeft().value <= 0
    modifies market, market.stocks
    ensures ran == Ok(0)
    ensures r.Ok? ==> IdleStats(r.value)
  {
    var a;
    r, a, ran := StatsOfBenchmark(market, alg, scenario, listing, wanted, params, start, round);
  }

  /** A rewound run on a market that already holds the scenario keeps its
      stocks and replays their history from `start`. */
  method RunLoaded(market: MarketBenchmark, alg: AlgClass, scenario: string,
                   listing: seq<(string, seq<real>)>, wanted: seq<string>,
                   params: seq<real>, start: int, round: real -> real)
    returns (ran: Result<nat>)
    requires market.Valid() && market.loadedScenario == ScenarioName(scenario)
    modifies market, market.stocks
    ensures market.stocks == old(market.stocks)
    ensures ran.Ok? ==>
              market.stocks != [] &&
              ran.value == TicksFor(|market.stocks[0].past| - (InitialEndIndex(|market.stocks[0].past|, start) + 1))
  {
    var r, a;
    r, a, ran := StatsOfBenchmarkRewound(market, alg, scenario, listing, wanted, params, start, round);
  }

  /** With the rewind, the second run replays as many ticks as the first. */
  method RepeatedRunRewound(market: MarketBenchmark, alg: AlgClass, scenario: string,
                            listing: seq<(string, seq<real>)>, wanted: seq<string>,
                            params1: seq<real>, params2: seq<real>, start: int, round: real -> real)
    returns (ran1: Result<nat>, ran2: Result<nat>)
    requires market.Valid() && market.loadedScenario != ScenarioName(scenario)
    requires Selected(listing, wanted) != []
    requires |Selected(listing, wanted)[0].1| - (InitialEndIndex(|Selected(listing, wanted)[0].1|, start) + 1) > 0
    modifies market, market.stocks
    ensures ran1.Ok? ==> ran1.value > 0
    ensures ran1.Ok? && ran2.Ok? ==> ran1.value == ran2.value
  {
    var r1, a1;
    r1, a1, ran1 := StatsOfBenchmarkRewound(market, alg, scenario, listing, wanted, params1, start, round);
    ran2 := RunLoaded(market, alg, scenario, listing, wanted, params2, start, round);
  }
}
