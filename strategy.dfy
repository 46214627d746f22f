/** The strategy engine (alg.py, plus ReproduceMoves from alg_benchmark.py):
    one accounting engine holding a share map, a cash balance, a transaction
    counter and three parallel history lists, driven by a decision rule. */
module Strategy {
  import opened Py
  import opened MarketModel
  import opened BenchmarkModel

  /** A decision for one stock on one tick: shares to buy, shares to sell. */
  datatype Order = Order(buy: int, sell: int)

  /** The decision rules: the subclasses Simple, AllInAllOut and ReproduceMoves. */
  datatype Rule =
    | SimpleRule(profitPercent: real, percentRangeBuy: real, minTrendBuy: real, maxTrendBuy: real, nBuy: int)
    | AllInAllOutRule(nStockMov: int, buyPerc: real, sellPerc: real, timeComp: int)
    | ReproduceRule(moves: map<string, map<int, Order>>)

  /** Simple's parameters: exactly five values, or else the defaults
      (0.02, 0.01, -0.01, 0.05, 1); the lot size goes through int(). */
  function SimpleParams(params: seq<real>): (r: Rule)
    ensures r.SimpleRule?
    ensures |params| == 5 ==> r == SimpleRule(params[0], params[1], params[2], params[3], Trunc(params[4]))
    ensures |params| != 5 ==> r == SimpleRule(0.02, 0.01, -0.01, 0.05, 1)
  {
    var p := if |params| == 5 then params else [0.02, 0.01, -0.01, 0.05, 1.0];
    SimpleRule(p[0], p[1], p[2], p[3], Trunc(p[4]))
  }

  /** AllInAllOut's parameters: exactly four values, or else the defaults
      (1, 0.03, 0.1, -10); lot size and look-back go through int(). */
  function AllInAllOutParams(params: seq<real>): (r: Rule)
    ensures r.AllInAllOutRule?
    ensures |params| == 4 ==> r == AllInAllOutRule(Trunc(params[0]), params[1], params[2], Trunc(params[3]))
    ensures |params| != 4 ==> r == AllInAllOutRule(1, 0.03, 0.1, -10)
  {
    var p := if |params| == 4 then params else [1.0, 0.03, 0.1, -10.0];
    AllInAllOutRule(Trunc(p[0]), p[1], p[2], Trunc(p[3]))
  }

  function Abs(x: real): real
  {
    if x < 0.0 then -x else x
  }

  /** Simple's tolerance test. Its band is symmetric around zero, not around
      `confront`: the check holds exactly when |check| <= confront * (1 + percent). */
  function InErrorRange(confront: real, check: real, percent: real): (r: bool)
    ensures r <==> Abs(check) <= confront * (1.0 + percent)
  {
    confront * (-(1.0 + percent)) <= check <= confront * (1.0 + percent)
  }

  /** The mean of the recorded buy prices, or 0 when none are recorded. */
  function AvgStockPrice(bought: seq<real>): (r: real)
    ensures bought == [] ==> r == 0.0
    ensures bought != [] ==> Min(bought) <= r <= Max(bought)
  {
    if |bought| > 0 then
      SumBetween(bought);
      AvgBetween(Sum(bought), |bought| as real, Min(bought), Max(bought));
      Sum(bought) / |bought| as real
    else 0.0
  }

  lemma AvgBetween(total: real, n: real, lo: real, hi: real)
    requires n > 0.0 && n * lo <= total <= n * hi
    ensures lo <= total / n <= hi
  {
    var q := total / n;
    assert total == n * q;
    CancelFactor(n, lo, q);
    CancelFactor(n, q, hi);
  }

  /** The engine's accounting state as a value: shares per stock name, cash,
      transaction counter and Simple's recorded buy prices. */
  datatype Book = Book(portfolio: map<string, int>, capital: real, nTran: int, bought: map<string, seq<real>>)

  /** Simple.buy_sell: sell the whole holding once the price reaches the
      average buy price plus the profit margin; otherwise buy a lot when the
      price is within range of the 5-tick minimum and the 3-tick trend lies
      strictly inside (minTrendBuy, maxTrendBuy). Updates the buy-price record. */
  function DecideSimple(r: Rule, book: Book, s: Series): (d: Result<(Order, map<string, seq<real>>)>)
    requires r.SimpleRule?
    ensures s.Price().Err? ==> d == Err(s.Price().error)
    ensures s.Price().Ok? && s.stock.name !in book.bought ==> d == Err(KeyError)
    ensures d.Ok? ==> d.value.0.buy == 0 || d.value.0.sell == 0
  {
    var name := s.stock.name;
    match s.Price()
    case Err(e) => Err(e)
    case Ok(price) =>
      if name !in book.bought then Err(KeyError)
      else
        var reached := price >= AvgStockPrice(book.bought[name]) * (1.0 + r.profitPercent);
        if reached && name !in book.portfolio then Err(KeyError)
        else if reached && book.portfolio[name] > 0 then
          Ok((Order(0, book.portfolio[name]), book.bought[name := []]))
        else
          match s.HistoricalMin(fromTime := -5)
          case Err(e) => Err(e)
          case Ok(low) =>
            if !InErrorRange(low, price, r.percentRangeBuy) then Ok((Order(0, 0), book.bought))
            else
              match s.Trend(fromTime := -3)
              case Err(e) => Err(e)
              case Ok(t) =>
                if r.minTrendBuy < t < r.maxTrendBuy then
                  Ok((Order(r.nBuy, 0), book.bought[name := book.bought[name] + [price]]))
                else Ok((Order(0, 0), book.bought))
  }

  /** AllInAllOut.buy_sell: when flat, buy a lot if the price is below the
      average over the look-back window by the buy margin; when holding, sell
      a lot if it is above that average by the sell margin. */
  function DecideAllInAllOut(r: Rule, book: Book, s: Series): (d: Result<Order>)
    requires r.AllInAllOutRule?
    ensures s.stock.name !in book.portfolio ==> d == Err(KeyError)
    ensures s.stock.name in book.portfolio && book.portfolio[s.stock.name] < 0 ==> d == Ok(Order(0, 0))
    ensures d.Ok? ==> d.value.buy == 0 || d.value.sell == 0
  {
    var name := s.stock.name;
    if name !in book.portfolio then Err(KeyError)
    else
      var held := book.portfolio[name];
      if held == 0 then
        match s.Price()
        case Err(e) => Err(e)
        case Ok(price) =>
          match s.HistoricalAverage(fromTime := r.timeComp)
          case Err(e) => Err(e)
          case Ok(avg) =>
            if price < avg * (1.0 + r.buyPerc) then Ok(Order(r.nStockMov, 0)) else Ok(Order(0, 0))
      else if held > 0 then
        match s.Price()
        case Err(e) => Err(e)
        case Ok(price) =>
          match s.HistoricalAverage(fromTime := r.timeComp)
          case Err(e) => Err(e)
          case Ok(avg) =>
            if price > avg * (1.0 + r.sellPerc) then Ok(Order(0, r.nStockMov)) else Ok(Order(0, 0))
      else Ok(Order(0, 0))
  }

  /** ReproduceMoves.buy_sell: the recorded move for this stock at this tick,
      or (0, 0) when none is recorded; KeyError for a stock with no record. */
  function DecideReproduce(moves: map<string, map<int, Order>>, tickCount: int, s: Series): (r: Result<Order>)
    ensures s.stock.name !in moves ==> r == Err(KeyError)
    ensures s.stock.name in moves && tickCount in moves[s.stock.name] ==> r == Ok(moves[s.stock.name][tickCount])
    ensures s.stock.name in moves && tickCount !in moves[s.stock.name] ==> r == Ok(Order(0, 0))
  {
    var name := s.stock.name;
    if name !in moves then Err(KeyError)
    else if tickCount in moves[name] then Ok(moves[name][tickCount])
    else Ok(Order(0, 0))
  }

  /** The decision of any rule, with the buy-price record it leaves behind. */
  function Decide(rule: Rule, tickCount: int, book: Book, s: Series): Result<(Order, map<string, seq<real>>)>
  {
    match rule
    case SimpleRule(_, _, _, _, _) => DecideSimple(rule, book, s)
    case AllInAllOutRule(_, _, _, _) =>
      (match DecideAllInAllOut(rule, book, s)
       case Err(e) => Err(e)
       case Ok(o) => Ok((o, book.bought)))
    case ReproduceRule(moves) =>
      (match DecideReproduce(moves, tickCount, s)
       case Err(e) => Err(e)
       case Ok(o) => Ok((o, book.bought)))
  }

  /** The state after applying one order, and the exception raised, if any.
      On an exception the state is the one Python leaves behind at that point. */
  datatype Run = Run(book: Book, raised: Option<Error>)

  const NotEnoughStocks := Exception("not enough stocks in portfolio")

  /** Lines 30-37 of tick: count the shares and, when the order buys, add
      the lot to the holding and debit price * lot. */
  function BuyStep(book: Book, s: Series, o: Order): Run
  {
    var name := s.stock.name;
    var b1 := book.(nTran := book.nTran + o.buy + o.sell);
    if o.buy <= 0 then Run(b1, None)
    else if name !in b1.portfolio then Run(b1, Some(KeyError))
    else
      var b2 := b1.(portfolio := b1.portfolio[name := b1.portfolio[name] + o.buy]);
      match s.Price()
      case Err(e) => Run(b2, Some(e))
      case Ok(price) => Run(b2.(capital := b2.capital - price * o.buy as real), None)
  }

  /** Lines 39-46 of tick: check the holding against the buy lot, then, when
      the order sells, remove the lot and credit price * lot; round the cash. */
  function SellStep(book: Book, s: Series, o: Order, round: real -> real): Run
  {
    var name := s.stock.name;
    if name !in book.portfolio then Run(book, Some(KeyError))
    else if book.portfolio[name] < o.buy then Run(book, Some(NotEnoughStocks))
    else if o.sell <= 0 then Run(book.(capital := round(book.capital)), None)
    else
      var b4 := book.(portfolio := book.portfolio[name := book.portfolio[name] - o.sell]);
      match s.Price()
      case Err(e) => Run(b4, Some(e))
      case Ok(price) => Run(b4.(capital := round(b4.capital + price * o.sell as real)), None)
  }

  /** Lines 30-46 of tick for one stock; nothing happens for an order whose
      lots add up to zero or less. On an exception the state is the one
      Python leaves behind at that point. */
  function Trade(book: Book, s: Series, o: Order, round: real -> real): Run
  {
    if o.buy + o.sell <= 0 then Run(book, None)
    else
      var r := BuyStep(book, s, o);
      if r.raised.Some? then r else SellStep(r.book, s, o, round)
  }

  /** The state of a tick's loop over the stocks: accounting state, whether any
      stock traded, and the exception that stopped the loop, if any. */
  datatype Pass = Pass(book: Book, changed: bool, raised: Option<Error>)

  /** One stock's turn in the loop: decide, then trade. */
  function Visit(rule: Rule, tickCount: int, p: Pass, s: Series, round: real -> real): Pass
  {
    match Decide(rule, tickCount, p.book, s)
    case Err(e) => p.(raised := Some(e))
    case Ok((o, bought)) =>
      var run := Trade(p.book.(bought := bought), s, o, round);
      Pass(run.book, p.changed || o.buy + o.sell > 0, run.raised)
  }

  /** The loop of tick over the market's stocks, in market order, stopping at
      the first exception. */
  function Sweep(rule: Rule, tickCount: int, book: Book, view: seq<Series>, round: real -> real): Pass
    decreases |view|
  {
    if view == [] then Pass(book, false, None)
    else
      var p := Sweep(rule, tickCount, book, view[..|view| - 1], round);
      if p.raised.Some? then p else Visit(rule, tickCount, p, view[|view| - 1], round)
  }

  /** Once an exception was raised, the remaining stocks change nothing. */
  lemma {:induction false} SweepStops(rule: Rule, tickCount: int, book: Book, view: seq<Series>, k: nat, round: real -> real)
    requires k <= |view|
    requires Sweep(rule, tickCount, book, view[..k], round).raised.Some?
    ensures Sweep(rule, tickCount, book, view, round) == Sweep(rule, tickCount, book, view[..k], round)
    decreases |view| - k
  {
    if k < |view| {
      assert view[..k + 1][..k] == view[..k];
      SweepStops(rule, tickCount, book, view, k + 1, round);
    } else {
      assert view[..k] == view;
    }
  }

  /** Trading and deciding only ever update names already in the portfolio. */
  lemma TradeKeepsKeys(book: Book, s: Series, o: Order, round: real -> real)
    ensures Trade(book, s, o, round).book.portfolio.Keys == book.portfolio.Keys
  {
  }

  lemma {:induction false} SweepKeepsKeys(rule: Rule, tickCount: int, book: Book, view: seq<Series>, round: real -> real)
    ensures Sweep(rule, tickCount, book, view, round).book.portfolio.Keys == book.portfolio.Keys
    decreases |view|
  {
    if view != [] {
      SweepKeepsKeys(rule, tickCount, book, view[..|view| - 1], round);
      var p := Sweep(rule, tickCount, book, view[..|view| - 1], round);
      var s := view[|view| - 1];
      match Decide(rule, tickCount, p.book, s)
      case Err(_) =>
      case Ok((o, bought)) => TradeKeepsKeys(p.book.(bought := bought), s, o, round);
    }
  }

  /** The part of a lot count that takes effect: Python's `if lot > 0`. */
  function Pos(x: int): nat
  {
    if x > 0 then x else 0
  }

  /** An order whose lots add up to zero or less changes nothing. */
  lemma IdleOrderChangesNothing(book: Book, s: Series, o: Order, round: real -> real)
    requires o.buy + o.sell <= 0
    ensures Trade(book, s, o, round) == Run(book, None)
  {
  }

  /** Any trade, completed or not, counts its lots once and touches no other
      name, no recorded buy price. */
  lemma TradeFrame(book: Book, s: Series, o: Order, round: real -> real)
    ensures Trade(book, s, o, round).book.nTran == book.nTran + (if o.buy + o.sell > 0 then o.buy + o.sell else 0)
    ensures Trade(book, s, o, round).book.bought == book.bought
    ensures forall k :: k in book.portfolio && k != s.stock.name ==>
              Trade(book, s, o, round).book.portfolio[k] == book.portfolio[k]
  {
  }

  /** A completed trade adds the bought lot, removes the sold lot, debits and
      credits price * lot, and rounds the cash. */
  lemma TradeEffect(book: Book, s: Series, o: Order, round: real -> real)
    requires o.buy + o.sell > 0
    requires Trade(book, s, o, round).raised.None?
    ensures s.stock.name in book.portfolio && s.Price().Ok?
    ensures Trade(book, s, o, round).book.portfolio
            == book.portfolio[s.stock.name := book.portfolio[s.stock.name] + Pos(o.buy) - Pos(o.sell)]
    ensures Trade(book, s, o, round).book.capital
            == round(book.capital - s.Price().value * Pos(o.buy) as real + s.Price().value * Pos(o.sell) as real)
  {
    var name := s.stock.name;
    var b := BuyStep(book, s, o);
    assert b.raised.None?;
    var price := s.Price().value;
    var bought := price * Pos(o.buy) as real;
    var sold := price * Pos(o.sell) as real;
    if o.buy > 0 {
      assert b.book.portfolio == book.portfolio[name := book.portfolio[name] + o.buy];
      assert b.book.capital == book.capital - bought;
    } else {
      assert bought == 0.0;
      assert b.book.portfolio == book.portfolio && b.book.capital == book.capital - bought;
    }
    assert Trade(book, s, o, round) == SellStep(b.book, s, o, round);
    if o.sell <= 0 {
      assert sold == 0.0 && b.book.capital + sold == b.book.capital;
    }
  }

  /** The guard compares the holding after the buy with the buy lot, so it
      fires exactly when the holding was negative (a buying order) or below
      the buy lot (an order that only sells). */
  lemma GuardCondition(book: Book, s: Series, o: Order, round: real -> real)
    requires o.buy + o.sell > 0 && s.stock.name in book.portfolio
    requires o.buy > 0 ==> s.Price().Ok?
    ensures Trade(book, s, o, round).raised == Some(NotEnoughStocks) <==>
              if o.buy > 0 then book.portfolio[s.stock.name] < 0 else book.portfolio[s.stock.name] < o.buy
  {
  }

  /** With a non-negative holding the "not enough stocks" exception cannot be raised. */
  lemma GuardNeverFires(book: Book, s: Series, o: Order, round: real -> real)
    requires s.stock.name in book.portfolio ==> book.portfolio[s.stock.name] >= 0
    ensures Trade(book, s, o, round).raised != Some(NotEnoughStocks)
  {
    if o.buy + o.sell > 0 && s.stock.name in book.portfolio && (o.buy > 0 ==> s.Price().Ok?) {
      GuardCondition(book, s, o, round);
    }
  }

  /** Selling more than is held goes through and leaves a short position. */
  lemma OversizedSell(book: Book, s: Series, o: Order, round: real -> real)
    requires s.stock.name in book.portfolio && s.Price().Ok?
    requires o.buy == 0 && o.sell > book.portfolio[s.stock.name] >= 0
    ensures Trade(book, s, o, round).raised.None?
    ensures Trade(book, s, o, round).book.portfolio[s.stock.name] < 0
  {
  }

  /** The transaction counter never decreases over a tick's loop. */
  lemma {:induction false} SweepCountsUp(rule: Rule, tickCount: int, book: Book, view: seq<Series>, round: real -> real)
    ensures Sweep(rule, tickCount, book, view, round).book.nTran >= book.nTran
    decreases |view|
  {
    if view != [] {
      SweepCountsUp(rule, tickCount, book, view[..|view| - 1], round);
      var p := Sweep(rule, tickCount, book, view[..|view| - 1], round);
      var s := view[|view| - 1];
      match Decide(rule, tickCount, p.book, s)
      case Err(_) =>
      case Ok((o, bought)) => TradeFrame(p.book.(bought := bought), s, o, round);
    }
  }

  /** Simple sells exactly when the price reached the average buy price plus
      the margin and shares are held; it then sells the whole holding and
      forgets the recorded buy prices. It never buys and sells at once. */
  lemma SimpleSellsAll(r: Rule, book: Book, s: Series)
    requires r.SimpleRule? && DecideSimple(r, book, s).Ok?
    ensures s.Price().Ok? && s.stock.name in book.bought
    ensures DecideSimple(r, book, s).value.0.sell > 0 <==>
              s.stock.name in book.portfolio && book.portfolio[s.stock.name] > 0 &&
              s.Price().value >= AvgStockPrice(book.bought[s.stock.name]) * (1.0 + r.profitPercent)
    ensures DecideSimple(r, book, s).value.0.sell > 0 ==>
              DecideSimple(r, book, s).value == (Order(0, book.portfolio[s.stock.name]), book.bought[s.stock.name := []])
    ensures DecideSimple(r, book, s).value.0.buy == 0 || DecideSimple(r, book, s).value.0.sell == 0
  {
  }

  /** Simple records the price exactly on the ticks it orders a buy lot. */
  lemma SimpleRecordsBuys(r: Rule, book: Book, s: Series)
    requires r.SimpleRule? && DecideSimple(r, book, s).Ok?
    requires DecideSimple(r, book, s).value.0.sell == 0
    ensures DecideSimple(r, book, s).value.0 == Order(0, 0) || DecideSimple(r, book, s).value.0 == Order(r.nBuy, 0)
    ensures DecideSimple(r, book, s).value.0 == Order(r.nBuy, 0) && r.nBuy != 0 ==>
              DecideSimple(r, book, s).value.1 == book.bought[s.stock.name := book.bought[s.stock.name] + [s.Price().value]]
    ensures DecideSimple(r, book, s).value.0 == Order(0, 0) && r.nBuy != 0 ==> DecideSimple(r, book, s).value.1 == book.bought
  {
  }

  /** AllInAllOut buys a lot only when flat and sells a lot only when holding;
      it never buys and sells at once. */
  lemma AllInAllOutOrders(r: Rule, book: Book, s: Series)
    requires r.AllInAllOutRule? && DecideAllInAllOut(r, book, s).Ok?
    ensures s.stock.name in book.portfolio
    ensures DecideAllInAllOut(r, book, s).value in {Order(0, 0), Order(r.nStockMov, 0), Order(0, r.nStockMov)}
    ensures DecideAllInAllOut(r, book, s).value == Order(r.nStockMov, 0) && r.nStockMov != 0 ==> book.portfolio[s.stock.name] == 0
    ensures DecideAllInAllOut(r, book, s).value == Order(0, r.nStockMov) && r.nStockMov != 0 ==> book.portfolio[s.stock.name] > 0
  {
  }

  /** Every holding is 0 or the AllInAllOut lot size. */
  ghost predicate FlatOrLot(portfolio: map<string, int>, lot: int)
  {
    forall k :: k in portfolio ==> portfolio[k] == 0 || portfolio[k] == lot
  }

  /** One AllInAllOut step keeps every holding at 0 or the lot size. */
  lemma AllInAllOutVisitKeeps(r: Rule, tickCount: int, p: Pass, s: Series, round: real -> real)
    requires r.AllInAllOutRule? && FlatOrLot(p.book.portfolio, r.nStockMov)
    ensures FlatOrLot(Visit(r, tickCount, p, s, round).book.portfolio, r.nStockMov)
  {
    var name := s.stock.name;
    var n := r.nStockMov;
    match DecideAllInAllOut(r, p.book, s)
    case Err(_) =>
    case Ok(o) =>
      AllInAllOutOrders(r, p.book, s);
      TradeFrame(p.book, s, o, round);
      var run := Trade(p.book, s, o, round);
      if o.buy + o.sell > 0 {
        if o == Order(n, 0) {
          assert p.book.portfolio[name] == 0;
          assert s.Price().Ok?;
          assert run.book.portfolio[name] == n;
        } else {
          assert o == Order(0, n) && p.book.portfolio[name] == n;
        }
        assert run.book.portfolio.Keys == p.book.portfolio.Keys;
      }
  }

  /** Under AllInAllOut, holdings that start at 0 or the lot size stay so
      through a tick, whatever stopped it. */
  lemma {:induction false} AllInAllOutSweepKeeps(r: Rule, tickCount: int, book: Book, view: seq<Series>, round: real -> real)
    requires r.AllInAllOutRule? && FlatOrLot(book.portfolio, r.nStockMov)
    ensures FlatOrLot(Sweep(r, tickCount, book, view, round).book.portfolio, r.nStockMov)
    decreases |view|
  {
    if view != [] {
      AllInAllOutSweepKeeps(r, tickCount, book, view[..|view| - 1], round);
      var p := Sweep(r, tickCount, book, view[..|view| - 1], round);
      if p.raised.None? {
        AllInAllOutVisitKeeps(r, tickCount, p, view[|view| - 1], round);
      }
    }
  }

  /** The names of the stocks, in market order. */
  function Names(view: seq<Series>): (r: seq<string>)
    ensures |r| == |view|
    ensures forall i :: 0 <= i < |view| ==> r[i] == view[i].stock.name
  {
    if view == [] then [] else Names(view[..|view| - 1]) + [view[|view| - 1].stock.name]
  }

  /** Price of the first stock carrying the name (stock_by_name(name).price());
      AttributeError when no stock carries it. */
  function PriceOf(view: seq<Series>, name: string): (r: Result<real>)
    ensures name !in Names(view) ==> r == Err(AttributeError)
  {
    match FirstIndex(Names(view), name)
    case None => Err(AttributeError)
    case Some(i) => view[i].Price()
  }

  /** Sum over the portfolio's names, in order, of price * shares. */
  function HoldingsValue(view: seq<Series>, names: seq<string>, portfolio: map<string, int>): (r: Result<real>)
    requires forall i :: 0 <= i < |names| ==> names[i] in portfolio
    ensures r.Ok? <==> forall i :: 0 <= i < |names| ==> PriceOf(view, names[i]).Ok?
  {
    if names == [] then Ok(0.0)
    else
      match PriceOf(view, names[0])
      case Err(e) => Err(e)
      case Ok(price) =>
        match HoldingsValue(view, names[1..], portfolio)
        case Err(e) => Err(e)
        case Ok(rest) =>
          assert forall i :: 1 <= i < |names| ==> names[i] == names[1..][i - 1];
          Ok(price * portfolio[names[0]] as real + rest)
  }

  /** A portfolio holding 0 shares of each name. */
  function NoShares(names: seq<string>): (r: map<string, int>)
    ensures forall k :: k in r <==> k in names
  {
    map k | k in names :: 0
  }

  /** An empty buy-price record per name. */
  function NoPurchases(names: seq<string>): (r: map<string, seq<real>>)
    ensures forall k :: k in r <==> k in names
  {
    map k | k in names :: []
  }

  /** The keys of `{stock.name: 0 for stock in market.stocks}`, in insertion order. */
  function PortfolioOrder(view: seq<Series>): seq<string>
  {
    Distinct(Names(view))
  }

  /** Cash plus the market value of the holdings, rounded. */
  function TotalCapital(view: seq<Series>, names: seq<string>, portfolio: map<string, int>, capital: real, round: real -> real): (r: Result<real>)
    requires forall i :: 0 <= i < |names| ==> names[i] in portfolio
    ensures r.Ok? <==> forall i :: 0 <= i < |names| ==> PriceOf(view, names[i]).Ok?
    ensures r.Ok? ==> r.value == round(capital + HoldingsValue(view, names, portfolio).value)
  {
    match HoldingsValue(view, names, portfolio)
    case Err(e) => Err(e)
    case Ok(v) => Ok(round(capital + v))
  }

  /** The engine's state after a tick, and the exception it raised, if any. */
  datatype TickState = TickState(book: Book, raised: Option<Error>, ticks: seq<int>, capitals: seq<real>, totals: seq<real>)

  /** What one tick does, as a function of the state before it (with the tick
      counter already incremented) and of what the market shows: the loop over
      the stocks, then, on a tick where some stock traded, the three history
      appends, the last of which fails when the total capital cannot be priced. */
  function TickSpec(rule: Rule, tickCount: int, book: Book, view: seq<Series>, holdings: seq<string>,
                    round: real -> real, ticks: seq<int>, capitals: seq<real>, totals: seq<real>): TickState
    requires forall i :: 0 <= i < |holdings| ==> holdings[i] in book.portfolio
  {
    var p := Sweep(rule, tickCount, book, view, round);
    if p.raised.Some? then TickState(p.book, p.raised, ticks, capitals, totals)
    else if !p.changed then TickState(p.book, None, ticks, capitals, totals)
    else
      SweepKeepsKeys(rule, tickCount, book, view, round);
      Recorded(tickCount, p.book, view, holdings, round, ticks, capitals, totals)
  }

  /** The end of a tick on which some stock traded: tick and cash are
      appended, then the total capital, whose pricing may fail. */
  function Recorded(tickCount: int, book: Book, view: seq<Series>, holdings: seq<string>,
                    round: real -> real, ticks: seq<int>, capitals: seq<real>, totals: seq<real>): TickState
    requires forall i :: 0 <= i < |holdings| ==> holdings[i] in book.portfolio
  {
    var ticks', capitals' := ticks + [tickCount], capitals + [book.capital];
    match TotalCapital(view, holdings, book.portfolio, book.capital, round)
    case Err(e) => TickState(book, Some(e), ticks', capitals', totals)
    case Ok(t) => TickState(book, None, ticks', capitals', totals + [t])
  }

  /** The three histories grow together, by one entry and only on a tick
      where the loop completed and some stock traded; the old entries stay;
      they are left equal in length unless the total capital failed; the
      portfolio keeps its names. */
  lemma TickHistories(rule: Rule, tickCount: int, book: Book, view: seq<Series>, holdings: seq<string>,
                      round: real -> real, ticks: seq<int>, capitals: seq<real>, totals: seq<real>)
    requires forall i :: 0 <= i < |holdings| ==> holdings[i] in book.portfolio
    ensures var t := TickSpec(rule, tickCount, book, view, holdings, round, ticks, capitals, totals);
            var p := Sweep(rule, tickCount, book, view, round);
            (|t.ticks| == |ticks| + 1 <==> p.raised.None? && p.changed) &&
            (|t.ticks| == |ticks| + 1 || t.ticks == ticks) &&
            t.ticks[..|ticks|] == ticks && t.capitals[..|capitals|] == capitals && t.totals[..|totals|] == totals &&
            |t.capitals| - |capitals| == |t.ticks| - |ticks| &&
            (t.raised.None? && |ticks| == |capitals| == |totals| ==> |t.ticks| == |t.capitals| == |t.totals|) &&
            t.book.portfolio.Keys == book.portfolio.Keys
  {
    SweepKeepsKeys(rule, tickCount, book, view, round);
  }

  /** What stats returns. */
  datatype Statistics = Statistics(
    name: string,
    nTransactions: int,
    revenue: real,
    maxCapital: real,
    minCapital: real,
    finalPortfolio: map<string, int>,
    totCapital: real)

  /** AlgorithmStrategy: the accounting engine, with its rule as a value and
      Python's round(., 2) as the function `round`. */
  class AlgorithmStrategy {
    const name: string
    const market: MarketBenchmark
    const rule: Rule
    const round: real -> real
    const startCapital: real
    /** The portfolio's keys in insertion order (the market's names at creation). */
    const holdings: seq<string>

    var portfolio: map<string, int>
    var capital: real
    var nTran: int
    var bought: map<string, seq<real>>
    var tickCount: int
    /** capital_history[0], [1] and [2]: tick, cash, total capital. */
    var ticks: seq<int>
    var capitals: seq<real>
    var totals: seq<real>

    ghost predicate Valid()
      reads this
    {
      (forall k :: k in portfolio <==> k in holdings) &&
      |capitals| >= 1 && capitals[0] == startCapital
    }

    /** The three history lists have equal length. */
    predicate HistoryAligned()
      reads this
    {
      |ticks| == |capitals| == |totals|
    }

    /** The state a new strategy starts in: 0 shares of every stock, no
        recorded buys, the start capital, no transaction and the histories
        [0], [start_capital], [start_capital]. */
    predicate Untraded()
      reads this
    {
      portfolio == NoShares(holdings) &&
      bought == (if rule.SimpleRule? then NoPurchases(holdings) else map[]) &&
      capital == startCapital && nTran == 0 &&
      ticks == [0] && capitals == [startCapital] && totals == [startCapital]
    }

    function CurrentBook(): Book
      reads this
    {
      Book(portfolio, capital, nTran, bought)
    }

    /** A new strategy holds 0 shares of every stock of the market; Simple
        also starts an empty buy-price record per stock. */
    constructor (market: MarketBenchmark, name: string, startCapital: real, rule: Rule, round: real -> real)
      ensures Valid() && HistoryAligned()
      ensures this.market == market && this.name == name && this.rule == rule && this.round == round
      ensures this.startCapital == startCapital
      ensures holdings == PortfolioOrder(old(market.Snapshot()))
      ensures portfolio == NoShares(holdings)
      ensures bought == if rule.SimpleRule? then NoPurchases(holdings) else map[]
      ensures capital == startCapital && nTran == 0 && tickCount == 0
      ensures ticks == [0] && capitals == [startCapital] && totals == [startCapital]
    {
      var keys := PortfolioOrder(market.Snapshot());
      this.name := name;
      this.market := market;
      this.rule := rule;
      this.round := round;
      this.startCapital := startCapital;
      holdings := keys;
      portfolio := NoShares(keys);
      bought := if rule.SimpleRule? then NoPurchases(keys) else map[];
      capital := startCapital;
      nTran := 0;
      tickCount := 0;
      ticks, capitals, totals := [0], [startCapital], [startCapital];
    }

    /** `a.tick_count = n`, which the benchmark driver does after building. */
    method SetTickCount(n: int)
      modifies this
      ensures tickCount == n
      ensures CurrentBook() == old(CurrentBook())
      ensures ticks == old(ticks) && capitals == old(capitals) && totals == old(totals)
      ensures old(Valid()) ==> Valid()
      ensures old(Untraded()) ==> Untraded()
    {
      tickCount := n;
    }

    /** tot_capital: cash plus the market value of every holding, rounded;
        fails when a held name is not in the market or its price fails. */
    function TotCapital(): Result<real>
      reads this, market, market.stocks
      requires Valid()
    {
      TotalCapital(market.Snapshot(), holdings, portfolio, capital, round)
    }

    /** stats: the extremes of the cash history bracket the starting capital. */
    function Stats(): (r: Result<Statistics>)
      reads this, market, market.stocks
      requires Valid()
      ensures r.Ok? <==> TotCapital().Ok?
      ensures r.Ok? ==> r.value.minCapital <= startCapital <= r.value.maxCapital
      ensures r.Ok? ==> r.value.minCapital in capitals && r.value.maxCapital in capitals
      ensures r.Ok? ==> forall i :: 0 <= i < |capitals| ==> r.value.minCapital <= capitals[i] <= r.value.maxCapital
      ensures r.Ok? ==> r.value.nTransactions == nTran && r.value.revenue == capital && r.value.finalPortfolio == portfolio
      ensures r.Ok? ==> r.value.name == name && r.value.totCapital == TotCapital().value
    {
      MinIsLeast(capitals);
      MaxIsGreatest(capitals);
      match TotCapital()
      case Err(e) => Err(e)
      case Ok(t) => Ok(Statistics(name, nTran, capital, Max(capitals), Min(capitals), portfolio, t))
    }

    /** Lines 30-37 of tick, in place. */
    method Buy(s: Series, order: Order) returns (raised: Option<Error>)
      modifies this
      ensures Run(CurrentBook(), raised) == BuyStep(old(CurrentBook()), s, order)
      ensures tickCount == old(tickCount)
      ensures ticks == old(ticks) && capitals == old(capitals) && totals == old(totals)
    {
      var nm := s.stock.name;
      nTran := nTran + order.buy + order.sell;
      if order.buy > 0 {
        if nm !in portfolio {
          return Some(KeyError);
        }
        portfolio := portfolio[nm := portfolio[nm] + order.buy];
        var price := s.Price();
        if price.Err? {
          return Some(price.error);
        }
        capital := capital - price.value * order.buy as real;
      }
      return None;
    }

    /** Lines 39-46 of tick, in place. */
    method Sell(s: Series, order: Order) returns (raised: Option<Error>)
      modifies this
      ensures Run(CurrentBook(), raised) == SellStep(old(CurrentBook()), s, order, round)
      ensures tickCount == old(tickCount)
      ensures ticks == old(ticks) && capitals == old(capitals) && totals == old(totals)
    {
      var nm := s.stock.name;
      if nm !in portfolio {
        return Some(KeyError);
      }
      if portfolio[nm] < order.buy {
        return Some(NotEnoughStocks);
      }
      if order.sell > 0 {
        portfolio := portfolio[nm := portfolio[nm] - order.sell];
        var price := s.Price();
        if price.Err? {
          return Some(price.error);
        }
        capital := capital + price.value * order.sell as real;
      }
      capital := round(capital);
      return None;
    }

    /** Lines 30-46 of tick for one stock, in place. */
    method Apply(s: Series, order: Order) returns (raised: Option<Error>)
      modifies this
      ensures Run(CurrentBook(), raised) == Trade(old(CurrentBook()), s, order, round)
      ensures tickCount == old(tickCount)
      ensures ticks == old(ticks) && capitals == old(capitals) && totals == old(totals)
    {
      if order.buy + order.sell <= 0 {
        return None;
      }
      raised := Buy(s, order);
      if raised.Some? {
        return;
      }
      raised := Sell(s, order);
    }

    /** One tick: count it, let the rule decide for every stock in market order
        and apply each order; on a tick where some stock traded, append tick,
        cash and total capital to the three history lists. */
    method Tick() returns (raised: Option<Error>)
      requires Valid()
      modifies this
      ensures Valid()
      ensures tickCount == old(tickCount) + 1
      ensures TickState(CurrentBook(), raised, ticks, capitals, totals)
              == TickSpec(rule, old(tickCount) + 1, old(CurrentBook()), old(market.Snapshot()), holdings, round,
                          old(ticks), old(capitals), old(totals))
    {
      var view := market.Snapshot();
      tickCount := tickCount + 1;
      ghost var start := CurrentBook();
      var changed;
      changed, raised := TradeAll(view);
      SweepKeepsKeys(rule, tickCount, start, view, round);
      if raised.Some? {
        return;
      }
      if changed {
        raised := Record(view);
      }
    }

    /** The history appends of a tick on which some stock traded. */
    method Record(view: seq<Series>) returns (raised: Option<Error>)
      requires forall i :: 0 <= i < |holdings| ==> holdings[i] in portfolio
      modifies this
      ensures TickState(CurrentBook(), raised, ticks, capitals, totals)
              == Recorded(tickCount, old(CurrentBook()), view, holdings, round, old(ticks), old(capitals), old(totals))
      ensures tickCount == old(tickCount)
    {
      ticks := ticks + [tickCount];
      capitals := capitals + [capital];
      var t := TotalCapital(view, holdings, portfolio, capital, round);
      if t.Err? {
        return Some(t.error);
      }
      totals := totals + [t.value];
      return None;
    }

    /** The body of tick's loop for one stock: the rule decides, the order is applied. */
    method BuySell(s: Series, changedBefore: bool) returns (changed: bool, raised: Option<Error>)
      modifies this
      ensures Pass(CurrentBook(), changed, raised) == Visit(rule, tickCount, Pass(old(CurrentBook()), changedBefore, None), s, round)
      ensures tickCount == old(tickCount)
      ensures ticks == old(ticks) && capitals == old(capitals) && totals == old(totals)
    {
      var d := Decide(rule, tickCount, CurrentBook(), s);
      if d.Err? {
        return changedBefore, Some(d.error);
      }
      var order := d.value.0;
      bought := d.value.1;
      raised := Apply(s, order);
      changed := changedBefore || order.buy + order.sell > 0;
    }

    /** The loop of tick over the stocks of one view, in order: decide, apply,
        stop at the first exception. */
    method TradeAll(view: seq<Series>) returns (changed: bool, raised: Option<Error>)
      modifies this
      ensures Pass(CurrentBook(), changed, raised) == Sweep(rule, tickCount, old(CurrentBook()), view, round)
      ensures tickCount == old(tickCount)
      ensures ticks == old(ticks) && capitals == old(capitals) && totals == old(totals)
    {
      ghost var start := CurrentBook();
      changed := false;
      var k := 0;
      while k < |view|
        invariant 0 <= k <= |view|
        invariant tickCount == old(tickCount)
        invariant ticks == old(ticks) && capitals == old(capitals) && totals == old(totals)
        invariant Sweep(rule, tickCount, start, view[..k], round) == Pass(CurrentBook(), changed, None)
      {
        assert view[..k + 1][..k] == view[..k];
        changed, raised := BuySell(view[k], changed);
        if raised.Some? {
          SweepStops(rule, tickCount, start, view, k + 1, round);
          return;
        }
        k := k + 1;
      }
      assert view[..k] == view;
      return changed, None;
    }
  }

  /** Simple(market, start_capital, params). */
  method NewSimple(market: MarketBenchmark, startCapital: real, params: seq<real>, round: real -> real)
    returns (a: AlgorithmStrategy)
    ensures fresh(a) && a.Valid() && a.HistoryAligned()
    ensures a.market == market && a.name == "Simple" && a.rule == SimpleParams(params) && a.startCapital == startCapital
    ensures a.holdings == PortfolioOrder(old(market.Snapshot())) && a.Untraded() && a.tickCount == 0
  {
    a := new AlgorithmStrategy(market, "Simple", startCapital, SimpleParams(params), round);
  }

  /** AllInAllOut(market, start_capital, params). */
  method NewAllInAllOut(market: MarketBenchmark, startCapital: real, params: seq<real>, round: real -> real)
    returns (a: AlgorithmStrategy)
    ensures fresh(a) && a.Valid() && a.HistoryAligned()
    ensures a.market == market && a.name == "AllInAllOut" && a.rule == AllInAllOutParams(params) && a.startCapital == startCapital
    ensures a.holdings == PortfolioOrder(old(market.Snapshot())) && a.Untraded() && a.tickCount == 0
  {
    a := new AlgorithmStrategy(market, "AllInAllOut", startCapital, AllInAllOutParams(params), round);
  }

  /** ReproduceMoves(market, start_capital, moves). */
  method NewReproduce(market: MarketBenchmark, startCapital: real, moves: map<string, map<int, Order>>, round: real -> real)
    returns (a: AlgorithmStrategy)
    ensures fresh(a) && a.Valid() && a.HistoryAligned()
    ensures a.market == market && a.name == "Reproducing" && a.rule == ReproduceRule(moves) && a.startCapital == startCapital
    ensures a.holdings == PortfolioOrder(old(market.Snapshot())) && a.Untraded() && a.tickCount == 0
  {
    a := new AlgorithmStrategy(market, "Reproducing", startCapital, ReproduceRule(moves), round);
  }
}
