/**
  The spot paper-trading ledger of the bot (`CloudBot`): a cash balance, at most one open
  position per symbol, and a bounded newest-first event log. Money is modelled as exact
  `real` arithmetic.
 */
module Ledger {
  import opened Signals

  const InitialBalance: real := 1000.0
  /** Trades below this ticket size are skipped. */
  const MinTicket: real := 10.0
  const LogCapacity: nat := 100

  /** An open position: entry price, units held, the signal that opened it, cash invested. */
  datatype Position = Position(entry: real, amount: real, reason: Label, invested: real)

  type Portfolio = map<string, Position>
  type PriceTable = map<string, real>

  datatype Exit = TakeProfit | StopLoss

  /** What the exit rules decide for one position. */
  datatype Verdict = Hold | Sell(exit: Exit)

  /** The events the bot logs; timestamps and wording are not modelled. */
  datatype LogEvent =
    | Started(balance: real)
    | Bought(symbol: string, invested: real, price: real)
    | ManualSold(symbol: string, profit: real)
    | AutoSold(symbol: string, exit: Exit, pnlPct: real, profit: real)

  /** Insert `e` at the front of the log and keep at most `LogCapacity` entries. */
  function Pushed(e: LogEvent, logs: seq<LogEvent>): (r: seq<LogEvent>)
    requires |logs| <= LogCapacity
    ensures |r| == if |logs| < LogCapacity then |logs| + 1 else LogCapacity
    ensures r[0] == e && r[1..] == logs[..|r| - 1]
  {
    var grown := [e] + logs;
    if |grown| > LogCapacity then grown[..LogCapacity] else grown
  }

  /** Realised profit of selling a whole position at `price`. */
  function SaleProfit(pos: Position, price: real): real
  {
    pos.amount * price - pos.amount * pos.entry
  }

  /** The price of `s` if the table has one, otherwise `fallback`. */
  function PriceOr(prices: PriceTable, s: string, fallback: real): real
  {
    if s in prices then prices[s] else fallback
  }

  /** A held position valued at its current price, or at its entry price when none is known. */
  function MarkValue(p: Portfolio, prices: PriceTable, s: string): real
    requires s in p
  {
    p[s].amount * PriceOr(prices, s, p[s].entry)
  }

  /** Sum of MarkValue over `keys`. */
  ghost function Value(p: Portfolio, prices: PriceTable, keys: set<string>): real
    requires keys <= p.Keys
    decreases keys
  {
    if keys == {} then 0.0
    else
      var s :| s in keys;
      MarkValue(p, prices, s) + Value(p, prices, keys - {s})
  }

  /** Total account value: cash plus every position marked to market. */
  ghost function Equity(balance: real, p: Portfolio, prices: PriceTable): real
  {
    balance + Value(p, prices, p.Keys)
  }

  /** Percentage profit or loss of a position bought at `entry` and valued at `price`. */
  function PnlPct(entry: real, price: real): real
    requires entry > 0.0
  {
    (price - entry) / entry * 100.0
  }

  /** Take-profit is checked before stop-loss. */
  function ExitFor(entry: real, price: real, takeProfit: real, stopLoss: real): Verdict
    requires entry > 0.0
  {
    var pnl := PnlPct(entry, price);
    if pnl >= takeProfit then Sell(TakeProfit)
    else if pnl <= -stopLoss then Sell(StopLoss)
    else Hold
  }

  /** Every position has a positive entry price, holds units and cost at least a ticket. */
  predicate Sound(pos: Position)
  {
    pos.entry > 0.0 && pos.amount > 0.0 && pos.invested >= MinTicket && pos.invested == pos.amount * pos.entry
  }

  ghost predicate AllSound(p: Portfolio)
  {
    forall s :: s in p ==> Sound(p[s])
  }

  ghost predicate NonNegative(prices: PriceTable)
  {
    forall s :: s in prices ==> prices[s] >= 0.0
  }

  /** The symbols among `keys` that have a current price and cross an exit threshold. */
  function Exits(p: Portfolio, prices: PriceTable, takeProfit: real, stopLoss: real, keys: set<string>): (r: set<string>)
    requires keys <= p.Keys && AllSound(p)
    ensures r <= keys && r <= prices.Keys
  {
    set s | s in keys && s in prices && ExitFor(p[s].entry, prices[s], takeProfit, stopLoss).Sell?
  }

  /** `s` is held, quoted, and its move crosses the take-profit or stop-loss threshold. */
  predicate Exiting(p: Portfolio, prices: PriceTable, takeProfit: real, stopLoss: real, s: string)
  {
    s in p && s in prices && p[s].entry > 0.0 && ExitFor(p[s].entry, prices[s], takeProfit, stopLoss).Sell?
  }

  /** The log event of an automatic sale: the symbol, the band crossed, the PnL% and the profit. */
  function SaleEvent(p: Portfolio, prices: PriceTable, takeProfit: real, stopLoss: real, s: string): LogEvent
    requires Exiting(p, prices, takeProfit, stopLoss, s)
  {
    AutoSold(s, ExitFor(p[s].entry, prices[s], takeProfit, stopLoss).exit,
             PnlPct(p[s].entry, prices[s]), SaleProfit(p[s], prices[s]))
  }

  /** The log after the sales of `syms` are logged one after another, in that order. */
  function LogSales(p: Portfolio, prices: PriceTable, takeProfit: real, stopLoss: real,
                    syms: seq<string>, logs: seq<LogEvent>): (r: seq<LogEvent>)
    requires |logs| <= LogCapacity
    requires forall i :: 0 <= i < |syms| ==> Exiting(p, prices, takeProfit, stopLoss, syms[i])
    ensures |r| <= LogCapacity
  {
    if syms == [] then logs
    else Pushed(SaleEvent(p, prices, takeProfit, stopLoss, syms[|syms| - 1]),
                LogSales(p, prices, takeProfit, stopLoss, syms[..|syms| - 1], logs))
  }

  /** Logging one more sale pushes its event onto the log of the earlier ones. */
  lemma LogSalesSnoc(p: Portfolio, prices: PriceTable, takeProfit: real, stopLoss: real,
                     syms: seq<string>, s: string, logs: seq<LogEvent>)
    requires |logs| <= LogCapacity
    requires forall i :: 0 <= i < |syms| ==> Exiting(p, prices, takeProfit, stopLoss, syms[i])
    requires Exiting(p, prices, takeProfit, stopLoss, s)
    ensures forall i :: 0 <= i < |syms + [s]| ==> Exiting(p, prices, takeProfit, stopLoss, (syms + [s])[i])
    ensures LogSales(p, prices, takeProfit, stopLoss, syms + [s], logs)
         == Pushed(SaleEvent(p, prices, takeProfit, stopLoss, s), LogSales(p, prices, takeProfit, stopLoss, syms, logs))
  {
    assert (syms + [s])[..|syms|] == syms;
  }

  /**
    Logging a batch of sales adds one entry per sale, up to the capacity, and the batch's
    events head the log, newest first.
   */
  lemma {:induction false} LogSalesNewestFirst(p: Portfolio, prices: PriceTable, takeProfit: real, stopLoss: real,
                                               syms: seq<string>, logs: seq<LogEvent>)
    requires |logs| <= LogCapacity && |syms| <= LogCapacity
    requires forall i :: 0 <= i < |syms| ==> Exiting(p, prices, takeProfit, stopLoss, syms[i])
    ensures var r := LogSales(p, prices, takeProfit, stopLoss, syms, logs);
      |r| == (if |logs| + |syms| <= LogCapacity then |logs| + |syms| else LogCapacity)
      && forall i :: 0 <= i < |syms| ==> r[|syms| - 1 - i] == SaleEvent(p, prices, takeProfit, stopLoss, syms[i])
  {
    if syms != [] {
      var n := |syms|;
      var init := syms[..n - 1];
      assert forall i :: 0 <= i < n - 1 ==> init[i] == syms[i];
      LogSalesNewestFirst(p, prices, takeProfit, stopLoss, init, logs);
      var before := LogSales(p, prices, takeProfit, stopLoss, init, logs);
      var e := SaleEvent(p, prices, takeProfit, stopLoss, syms[n - 1]);
      assert LogSales(p, prices, takeProfit, stopLoss, syms, logs) == Pushed(e, before);
      forall i | 0 <= i < n - 1
        ensures Pushed(e, before)[n - 1 - i] == SaleEvent(p, prices, takeProfit, stopLoss, syms[i])
      {
        PushedShifts(e, before, n - 2 - i);
      }
    }
  }

  /** Pushing an event moves every kept entry one place back. */
  lemma PushedShifts(e: LogEvent, logs: seq<LogEvent>, k: nat)
    requires |logs| <= LogCapacity && k + 1 < |Pushed(e, logs)|
    ensures Pushed(e, logs)[k + 1] == logs[k]
  {
    var r := Pushed(e, logs);
    assert r[1..][k] == r[k + 1];
  }

  /** `order` lists every symbol of `sold` exactly once, each of them exiting. */
  predicate SaleOrder(p: Portfolio, prices: PriceTable, takeProfit: real, stopLoss: real,
                      order: seq<string>, sold: set<string>)
  {
    Elems(order) == sold && |order| == |sold|
    && forall i :: 0 <= i < |order| ==> Exiting(p, prices, takeProfit, stopLoss, order[i])
  }

  /** The cash a buy commits: the equity share, capped by the cash available. */
  function TradeSize(totalEquity: real, tradePct: real, balance: real): (r: real)
    ensures r <= balance && r <= totalEquity * (tradePct / 100.0)
    ensures r == balance || r == totalEquity * (tradePct / 100.0)
  {
    var target := totalEquity * (tradePct / 100.0);
    if target <= balance then target else balance
  }

  function Elems(s: seq<string>): set<string>
  {
    set x | x in s
  }

  // ---------------------------------------------------------------------------
  // The sum behind Value does not depend on the order the keys are taken in.

  /** Any key can be taken out of the sum first. */
  lemma {:induction false} ValueRemove(p: Portfolio, prices: PriceTable, keys: set<string>, s: string)
    requires keys <= p.Keys && s in keys
    ensures Value(p, prices, keys) == MarkValue(p, prices, s) + Value(p, prices, keys - {s})
    decreases keys
  {
    var t :| t in keys && Value(p, prices, keys) == MarkValue(p, prices, t) + Value(p, prices, keys - {t});
    if t != s {
      ValueRemove(p, prices, keys - {t}, s);
      ValueRemove(p, prices, keys - {s}, t);
      assert keys - {t} - {s} == keys - {s} - {t};
    }
  }

  /** The value of two disjoint sets of keys is the sum of their values. */
  lemma {:induction false} ValueSplit(p: Portfolio, prices: PriceTable, a: set<string>, b: set<string>)
    requires a + b <= p.Keys && a !! b
    ensures Value(p, prices, a + b) == Value(p, prices, a) + Value(p, prices, b)
    decreases a
  {
    if a != {} {
      var s :| s in a;
      ValueRemove(p, prices, a, s);
      ValueRemove(p, prices, a + b, s);
      assert (a + b) - {s} == (a - {s}) + b;
      ValueSplit(p, prices, a - {s}, b);
    } else {
      assert a + b == b;
    }
  }

  /** Value only looks at the positions of the keys it sums. */
  lemma {:induction false} ValueFrame(p: Portfolio, q: Portfolio, prices: PriceTable, keys: set<string>)
    requires keys <= p.Keys && keys <= q.Keys
    requires forall s :: s in keys ==> p[s] == q[s]
    ensures Value(p, prices, keys) == Value(q, prices, keys)
    decreases keys
  {
    if keys != {} {
      var s :| s in keys;
      ValueRemove(p, prices, keys, s);
      ValueRemove(q, prices, keys, s);
      ValueFrame(p, q, prices, keys - {s});
    }
  }

  /** With sound positions and non-negative prices, holdings are worth at least nothing. */
  lemma {:induction false} ValueNonNegative(p: Portfolio, prices: PriceTable, keys: set<string>)
    requires keys <= p.Keys && AllSound(p) && NonNegative(prices)
    ensures Value(p, prices, keys) >= 0.0
    decreases keys
  {
    if keys != {} {
      var s :| s in keys;
      ValueRemove(p, prices, keys, s);
      ValueNonNegative(p, prices, keys - {s});
      MarkNonNegative(p, prices, s);
    }
  }

  /** Adding a key not yet summed adds its mark. */
  lemma ValueAdd(p: Portfolio, prices: PriceTable, keys: set<string>, s: string)
    requires keys + {s} <= p.Keys && s !in keys
    ensures Value(p, prices, keys + {s}) == Value(p, prices, keys) + MarkValue(p, prices, s)
  {
    ValueRemove(p, prices, keys + {s}, s);
    assert keys + {s} - {s} == keys;
  }

  /** Examining one more symbol adds it to the exits exactly when its verdict is to sell. */
  lemma ExitsStep(p: Portfolio, prices: PriceTable, takeProfit: real, stopLoss: real, done: set<string>, s: string)
    requires done + {s} <= p.Keys && AllSound(p)
    ensures Exits(p, prices, takeProfit, stopLoss, done + {s})
         == Exits(p, prices, takeProfit, stopLoss, done)
          + if s in prices && ExitFor(p[s].entry, prices[s], takeProfit, stopLoss).Sell? then {s} else {}
  {
  }

  /** A sound position at a non-negative price is worth at least nothing. */
  lemma MarkNonNegative(p: Portfolio, prices: PriceTable, s: string)
    requires s in p && AllSound(p) && NonNegative(prices)
    ensures MarkValue(p, prices, s) >= 0.0
  {
    var price := PriceOr(prices, s, p[s].entry);
    assert price >= 0.0 && p[s].amount > 0.0;
  }

  lemma ElemsSnoc(xs: seq<string>, x: string)
    ensures Elems(xs + [x]) == Elems(xs) + {x}
  {
    assert forall y :: y in xs + [x] <==> y in xs || y == x;
  }

  // ---------------------------------------------------------------------------
  // Trades at the current mark conserve equity.

  /** Opening a position at the price the equity is valued at leaves equity unchanged. */
  lemma BuyKeepsEquity(balance: real, p: Portfolio, prices: PriceTable, symbol: string, price: real, reason: Label, trade: real)
    requires symbol !in p && price > 0.0
    requires symbol in prices ==> prices[symbol] == price
    ensures Equity(balance - trade, p[symbol := Position(price, trade / price, reason, trade)], prices) == Equity(balance, p, prices)
  {
    var q := p[symbol := Position(price, trade / price, reason, trade)];
    ValueRemove(q, prices, q.Keys, symbol);
    assert q.Keys - {symbol} == p.Keys;
    ValueFrame(q, p, prices, p.Keys);
    assert MarkValue(q, prices, symbol) == trade / price * price == trade;
  }

  /** Closing one position at its mark leaves equity unchanged. */
  lemma SellKeepsEquity(balance: real, p: Portfolio, prices: PriceTable, symbol: string)
    requires symbol in p
    ensures Equity(balance + MarkValue(p, prices, symbol), p - {symbol}, prices) == Equity(balance, p, prices)
  {
    ValueRemove(p, prices, p.Keys, symbol);
    assert (p - {symbol}).Keys == p.Keys - {symbol};
    ValueFrame(p - {symbol}, p, prices, p.Keys - {symbol});
  }

  /** Closing any set of positions at their marks leaves equity unchanged. */
  lemma ClosingKeepsEquity(balance: real, p: Portfolio, prices: PriceTable, closed: set<string>)
    requires closed <= p.Keys
    ensures Equity(balance + Value(p, prices, closed), p - closed, prices) == Equity(balance, p, prices)
  {
    var kept := p.Keys - closed;
    assert closed + kept == p.Keys;
    ValueSplit(p, prices, closed, kept);
    assert (p - closed).Keys == kept;
    ValueFrame(p - closed, p, prices, kept);
  }

  /** The exit band: a position is held exactly while its PnL lies strictly between the thresholds. */
  lemma ExitBand(entry: real, price: real, takeProfit: real, stopLoss: real)
    requires entry > 0.0
    ensures ExitFor(entry, price, takeProfit, stopLoss) == Hold
        <==> -stopLoss < PnlPct(entry, price) < takeProfit
    ensures ExitFor(entry, price, takeProfit, stopLoss) == Sell(TakeProfit) <==> PnlPct(entry, price) >= takeProfit
  {
  }

  /** The take-profit threshold as a price level: entry raised by `takeProfit` percent. */
  lemma TakeProfitLevel(entry: real, price: real, takeProfit: real, stopLoss: real)
    requires entry > 0.0
    ensures ExitFor(entry, price, takeProfit, stopLoss) == Sell(TakeProfit)
        <==> price >= entry + entry * takeProfit / 100.0
  {
    var pnl := PnlPct(entry, price);
    assert pnl * entry == (price - entry) * 100.0;
    if pnl >= takeProfit {
      assert pnl * entry >= takeProfit * entry;
    } else {
      assert pnl * entry < takeProfit * entry;
    }
  }

  /** The stop-loss threshold as a price level, below the take-profit level. */
  lemma StopLossLevel(entry: real, price: real, takeProfit: real, stopLoss: real)
    requires entry > 0.0
    ensures ExitFor(entry, price, takeProfit, stopLoss) == Sell(StopLoss)
        <==> price < entry + entry * takeProfit / 100.0 && price <= entry - entry * stopLoss / 100.0
  {
    TakeProfitLevel(entry, price, takeProfit, stopLoss);
    var pnl := PnlPct(entry, price);
    assert pnl * entry == (price - entry) * 100.0;
    if pnl <= -stopLoss {
      assert pnl * entry <= -stopLoss * entry;
    } else {
      assert pnl * entry > -stopLoss * entry;
    }
  }

  /**
    The bot's session state. `tradePct`, `takeProfit` and `stopLoss` are the settings the
    dashboard writes before each cycle.
   */
  class CloudBot {
    var balance: real
    var portfolio: Portfolio
    var logs: seq<LogEvent>
    var tradePct: real
    var takeProfit: real
    var stopLoss: real

    ghost predicate Valid()
      reads this
    {
      balance >= 0.0 && |logs| <= LogCapacity && AllSound(portfolio)
    }

    constructor ()
      ensures Valid()
      ensures balance == InitialBalance && portfolio == map[] && logs == [Started(InitialBalance)]
      ensures tradePct == 10.0 && takeProfit == 3.0 && stopLoss == 2.0
    {
      balance := InitialBalance;
      portfolio := map[];
      logs := [Started(InitialBalance)];
      tradePct := 10.0;
      takeProfit := 3.0;
      stopLoss := 2.0;
    }

    /** Record an event, newest first, dropping the oldest beyond the capacity. */
    method Log(e: LogEvent)
      requires |logs| <= LogCapacity
      modifies this`logs
      ensures logs == Pushed(e, old(logs))
    {
      logs := [e] + logs;
      if |logs| > LogCapacity {
        logs := logs[..LogCapacity];
      }
    }

    /** Cash plus every position valued at its current price, or its entry price if none. */
    method TotalEquity(prices: PriceTable) returns (equity: real)
      ensures equity == Equity(balance, portfolio, prices)
    {
      var holdings := 0.0;
      var rest := portfolio.Keys;
      while rest != {}
        invariant rest <= portfolio.Keys
        invariant holdings + Value(portfolio, prices, rest) == Value(portfolio, prices, portfolio.Keys)
        decreases rest
      {
        var symbol :| symbol in rest;
        var data := portfolio[symbol];
        var price := if symbol in prices then prices[symbol] else data.entry;
        ValueRemove(portfolio, prices, rest, symbol);
        holdings := holdings + data.amount * price;
        rest := rest - {symbol};
      }
      equity := balance + holdings;
    }

    /** Close one position unconditionally at `currentPrice`; false if it is not held. */
    method ManualSell(symbol: string, currentPrice: real) returns (sold: bool)
      requires Valid()
      modifies this`balance, this`portfolio, this`logs
      ensures |logs| <= LogCapacity && AllSound(portfolio)
      ensures currentPrice >= 0.0 ==> Valid()
      ensures sold <==> symbol in old(portfolio)
      ensures !sold ==> balance == old(balance) && portfolio == old(portfolio) && logs == old(logs)
      ensures sold ==> balance == old(balance) + old(portfolio)[symbol].amount * currentPrice
      ensures sold ==> portfolio == old(portfolio) - {symbol}
      ensures sold ==> logs == Pushed(ManualSold(symbol, SaleProfit(old(portfolio)[symbol], currentPrice)), old(logs))
    {
      if symbol in portfolio {
        var data := portfolio[symbol];
        var revenue := data.amount * currentPrice;
        var profit := revenue - data.amount * data.entry;
        balance := balance + revenue;
        portfolio := portfolio - {symbol};
        assert profit == SaleProfit(old(portfolio)[symbol], currentPrice);
        Log(ManualSold(symbol, profit));
        sold := true;
      } else {
        sold := false;
      }
    }

    /**
      The exit check of one held position: when its symbol is quoted and the move from the
      entry price reaches the take-profit or stop-loss band, the position's value at the
      quoted price is credited and the sale is logged with its band, move and profit.
     */
    method SellIfExiting(symbol: string, prices: PriceTable) returns (exited: bool)
      requires Valid() && NonNegative(prices) && symbol in portfolio
      modifies this`balance, this`logs
      ensures Valid()
      ensures exited <==> symbol in prices && ExitFor(portfolio[symbol].entry, prices[symbol], takeProfit, stopLoss).Sell?
      ensures !exited ==> balance == old(balance) && logs == old(logs)
      ensures exited ==> balance == old(balance) + MarkValue(portfolio, prices, symbol)
      ensures exited ==> logs == Pushed(SaleEvent(portfolio, prices, takeProfit, stopLoss, symbol), old(logs))
    {
      exited := false;
      if symbol in prices {
        var data := portfolio[symbol];
        var currentPrice := prices[symbol];
        var pnlPct := PnlPct(data.entry, currentPrice);
        var verdict := Hold;
        if pnlPct >= takeProfit {
          verdict := Sell(TakeProfit);
        } else if pnlPct <= -stopLoss {
          verdict := Sell(StopLoss);
        }
        assert verdict == ExitFor(data.entry, currentPrice, takeProfit, stopLoss);
        if verdict.Sell? {
          var revenue := data.amount * currentPrice;
          var profit := revenue - data.amount * data.entry;
          assert profit == SaleProfit(data, currentPrice);
          assert revenue == MarkValue(portfolio, prices, symbol) >= 0.0 by {
            MarkNonNegative(portfolio, prices, symbol);
          }
          balance := balance + revenue;
          Log(AutoSold(symbol, verdict.exit, pnlPct, profit));
          exited := true;
        }
      }
    }

    /**
      After the symbols of `done` were examined: `toSell` lists each exit among them once,
      the balance has grown by their marked value, and their sales were logged in order.
     */
    ghost predicate SalesSoFar(prices: PriceTable, done: set<string>, toSell: seq<string>,
                               balance0: real, logs0: seq<LogEvent>)
      reads this
    {
      done <= portfolio.Keys && AllSound(portfolio) && |logs0| <= LogCapacity
      && Elems(toSell) == Exits(portfolio, prices, takeProfit, stopLoss, done) && |toSell| == |Elems(toSell)|
      && balance == balance0 + Value(portfolio, prices, Elems(toSell))
      && (forall i :: 0 <= i < |toSell| ==> Exiting(portfolio, prices, takeProfit, stopLoss, toSell[i]))
      && logs == LogSales(portfolio, prices, takeProfit, stopLoss, toSell, logs0)
    }

    /** Examine one more held symbol, selling it when it exits. */
    method SellStep(symbol: string, prices: PriceTable, ghost done: set<string>, toSell: seq<string>,
                    ghost balance0: real, ghost logs0: seq<LogEvent>) returns (toSell': seq<string>)
      requires Valid() && NonNegative(prices) && symbol in portfolio && symbol !in done
      requires SalesSoFar(prices, done, toSell, balance0, logs0)
      modifies this`balance, this`logs
      ensures Valid() && SalesSoFar(prices, done + {symbol}, toSell', balance0, logs0)
    {
      ExitsStep(portfolio, prices, takeProfit, stopLoss, done, symbol);
      var exited := SellIfExiting(symbol, prices);
      toSell' := toSell;
      if exited {
        assert Exiting(portfolio, prices, takeProfit, stopLoss, symbol);
        ValueAdd(portfolio, prices, Elems(toSell), symbol);
        ElemsSnoc(toSell, symbol);
        LogSalesSnoc(portfolio, prices, takeProfit, stopLoss, toSell, symbol, logs0);
        toSell' := toSell + [symbol];
      }
    }

    /**
      Every held position whose symbol has a price and whose move has reached the take-profit
      or stop-loss band is sold: the revenue is credited and the sale logged. The symbols
      sold are returned; the positions themselves stay until the caller removes them.
     */
    method SellExits(prices: PriceTable) returns (toSell: seq<string>)
      requires Valid() && NonNegative(prices)
      modifies this`balance, this`logs
      ensures Valid()
      ensures Elems(toSell) == Exits(portfolio, prices, takeProfit, stopLoss, portfolio.Keys)
      ensures |toSell| == |Elems(toSell)|
      ensures balance == old(balance) + Value(portfolio, prices, Elems(toSell))
      ensures forall i :: 0 <= i < |toSell| ==> Exiting(portfolio, prices, takeProfit, stopLoss, toSell[i])
      ensures logs == LogSales(portfolio, prices, takeProfit, stopLoss, toSell, old(logs))
    {
      toSell := [];
      var rest := portfolio.Keys;
      assert Elems(toSell) == {} == Exits(portfolio, prices, takeProfit, stopLoss, portfolio.Keys - rest);
      while rest != {}
        invariant Valid() && rest <= portfolio.Keys
        invariant SalesSoFar(prices, portfolio.Keys - rest, toSell, old(balance), old(logs))
        decreases rest
      {
        var symbol :| symbol in rest;
        toSell := SellStep(symbol, prices, portfolio.Keys - rest, toSell, old(balance), old(logs));
        assert portfolio.Keys - (rest - {symbol}) == (portfolio.Keys - rest) + {symbol};
        rest := rest - {symbol};
      }
      assert portfolio.Keys - rest == portfolio.Keys;
    }

    /** Delete the listed positions, one after another. */
    method RemovePositions(symbols: seq<string>)
      requires Valid()
      modifies this`portfolio
      ensures Valid()
      ensures portfolio == old(portfolio) - Elems(symbols)
    {
      for i := 0 to |symbols|
        invariant Valid()
        invariant portfolio == old(portfolio) - Elems(symbols[..i])
      {
        ElemsSnoc(symbols[..i], symbols[i]);
        assert symbols[..i + 1] == symbols[..i] + [symbols[i]];
        portfolio := portfolio - {symbols[i]};
      }
      assert symbols[..|symbols|] == symbols;
    }

    /**
      One pass of the automatic exit check: every position that hit its band is sold at
      the quoted price and then removed from the portfolio.
     */
    method CheckPortfolio(prices: PriceTable)
      requires Valid() && NonNegative(prices)
      modifies this`balance, this`portfolio, this`logs
      ensures Valid()
      ensures var sold := Exits(old(portfolio), prices, takeProfit, stopLoss, old(portfolio).Keys);
        portfolio == old(portfolio) - sold
        && balance == old(balance) + Value(old(portfolio), prices, sold)
        && (sold == {} ==> logs == old(logs))
    ensures var sold := Exits(old(portfolio), prices, takeProfit, stopLoss, old(portfolio).Keys);
      exists order :: SaleOrder(old(portfolio), prices, takeProfit, stopLoss, order, sold)
        && logs == LogSales(old(portfolio), prices, takeProfit, stopLoss, order, old(logs))
    {
      var toSell := SellExits(prices);
      assert toSell != [] ==> toSell[0] in Elems(toSell);
      assert SaleOrder(portfolio, prices, takeProfit, stopLoss, toSell, Elems(toSell));
      RemovePositions(toSell);
    }

    /**
      Open a position in `symbol` at `price`, sized as `tradePct` percent of `totalEquity`
      capped by the cash balance; nothing happens if the symbol is already held or the
      trade would be below the minimum ticket.
     */
    method ExecuteBuy(symbol: string, price: real, reason: Label, totalEquity: real)
      requires Valid() && price > 0.0
      modifies this`balance, this`portfolio, this`logs
      ensures Valid()
      ensures var trade := TradeSize(totalEquity, tradePct, old(balance));
        if symbol in old(portfolio) || trade < MinTicket then
          balance == old(balance) && portfolio == old(portfolio) && logs == old(logs)
        else
          balance == old(balance) - trade
          && portfolio == old(portfolio)[symbol := Position(price, trade / price, reason, trade)]
          && logs == Pushed(Bought(symbol, trade, price), old(logs))
    {
      if symbol in portfolio {
        return;
      }
      var targetAmount := totalEquity * (tradePct / 100.0);
      var tradeAmount := if targetAmount <= balance then targetAmount else balance;
      if tradeAmount < MinTicket {
        return;
      }
      var amount := tradeAmount / price;
      balance := balance - tradeAmount;
      portfolio := portfolio[symbol := Position(price, amount, reason, tradeAmount)];
      Log(Bought(symbol, tradeAmount, price));
    }
  }

  /** A buy followed by a manual sale at the same price restores the balance and the portfolio. */
  method SpotRoundTrip(bot: CloudBot, symbol: string, price: real, reason: Label, totalEquity: real)
    requires bot.Valid() && price > 0.0 && symbol !in bot.portfolio
    modifies bot
    ensures bot.Valid()
    ensures bot.balance == old(bot.balance) && bot.portfolio == old(bot.portfolio)
  {
    bot.ExecuteBuy(symbol, price, reason, totalEquity);
    if symbol in bot.portfolio {
      var _ := bot.ManualSell(symbol, price);
    }
  }
}
