# whale-hunt paper-trading core in Dafny

This project models the decision core of the whale-hunt dashboard bot (`ai_futures_bot.py`):

- **`CloudBot`** (`ledger.dfy`, module `Ledger`). This is the spot paper-trading ledger.
  - It holds a cash balance, at most one open position per symbol and a log of at most 100 events, newest first.
  - Its operations are logging, total equity, manual sale, the automatic take-profit/stop-loss check and the equity-sized buy.
  - It is an imperative class. Each method states its complete new state in terms of specification functions (`Pushed`, `Value`, `Exits`, `LogSales`, `TradeSize`), and lemmas prove what those functions promise: equity conservation, the exit band and order independence of the portfolio sum.
- **The signal history** (`history.dfy`, module `History`). `HISTORY_SIZE` = 6, and `hafizayi_guncelle` becomes `SignalHistory.Update`.
  - Each symbol keeps a FIFO window of its latest six samples.
  - `Update` is proved equal to the function `RecordRows`. Lemmas then show that every window is the latest six samples of the old window followed by the new ones, oldest first.
- **The classifier `analiz_motoru`** (`signals.dfy`, module `Signals`). This is a pure function `Classify`.
  - It is proved equal to an independent first-match reading of the rule table: breakout, momentum, whale, weak, dump, stable.
  - Separate lemmas cover the cold-start cases.
- **One scan of the main loop** (`scan.dfy`, module `Scan`). This is where the source records the scanned rows before classifying them (see Findings).

Money is exact `real` arithmetic. A Python dict's iteration order is modelled as an arbitrary choice of the next key. Balances, portfolios and equity are proved independent of that choice. The log after a `CheckPortfolio` pass is stated for some order of the sold symbols: one `AutoSold` event per sale, pushed one after another.

Log lines become a `LogEvent` datatype that keeps the values each line reports. Labels become the enum `Label`. The module-level `st.session_state.history` becomes an explicit map parameter of `Classify` and a field of `SignalHistory`.

## Model

| member | source | states |
|---|---|---|
| Ledger.CloudBot.constructor | ai_futures_bot.py:59-70 | a fresh bot holds 1000 in cash, no positions and a single start event in the log; the settings are 10% per trade, take-profit 3% and stop-loss 2% |
| Ledger.Pushed | ai_futures_bot.py:72-77 | a logged event goes to the front; the older entries follow in order, cut so that at most 100 remain |
| Ledger.CloudBot.Log | ai_futures_bot.py:72-77 | the log becomes `Pushed(e, old log)`; nothing else changes |
| Ledger.CloudBot.TotalEquity | ai_futures_bot.py:79-85 | returns the balance plus, for every held symbol, units times the current price (the entry price when no current price is known), whatever order the symbols are visited in |
| Ledger.ValueRemove | ai_futures_bot.py:82-84 | the portfolio sum is independent of iteration order: any symbol can be taken out first |
| Ledger.ValueSplit | ai_futures_bot.py:82-84 | the value of two disjoint groups of positions is the sum of their values |
| Ledger.ValueNonNegative | ai_futures_bot.py:82-84 | with sound positions and non-negative prices the holdings are worth at least 0 |
| Ledger.CloudBot.ManualSell | ai_futures_bot.py:87-97 | returns true exactly when the symbol is held; then it credits units times the price, removes only that symbol and logs the sale with its realised profit; otherwise nothing changes |
| Ledger.SellKeepsEquity | ai_futures_bot.py:87-94 | a manual sale at the price the equity is valued at leaves total equity unchanged |
| Ledger.Exits | ai_futures_bot.py:104-116 | the symbols sold by one pass are a subset of the held symbols that have a current price |
| Ledger.ExitBand | ai_futures_bot.py:107-116 | a position is held exactly while its PnL% lies strictly between -stopLoss and takeProfit; take-profit wins whenever PnL% reaches it |
| Ledger.TakeProfitLevel | ai_futures_bot.py:107-113 | take-profit fires exactly when the price reaches entry raised by takeProfit percent |
| Ledger.StopLossLevel | ai_futures_bot.py:107-115 | stop-loss fires exactly when the price is below the take-profit level and at most entry lowered by stopLoss percent |
| Ledger.CloudBot.SellIfExiting | ai_futures_bot.py:105-122 | one position is sold exactly when its symbol is quoted and crosses a band; the sale credits units times the price and logs the band, the PnL% and the profit; otherwise nothing changes |
| Ledger.CloudBot.SellStep | ai_futures_bot.py:104-122 | examining one more symbol keeps the loop's bookkeeping: each exit seen so far is listed once, the balance has grown by exactly their marked value, and their sale events were pushed onto the log in the order sold |
| Ledger.CloudBot.SellExits | ai_futures_bot.py:104-122 | the symbols collected are exactly `Exits` over the whole portfolio, each once; the balance grows by exactly their marked value; the log is the old log with one `AutoSold` event per collected symbol pushed in collection order |
| Ledger.LogSalesNewestFirst | ai_futures_bot.py:117-122 | logging a batch of sales adds one entry per sale up to the 100-entry capacity, and the batch's sale events (symbol, band, PnL%, profit) head the log, newest first |
| Ledger.CloudBot.RemovePositions | ai_futures_bot.py:124 | the listed symbols, and only those, leave the portfolio |
| Ledger.CloudBot.CheckPortfolio | ai_futures_bot.py:99-124 | exactly the quoted positions outside the band are removed; unquoted and in-band positions stay; the balance grows by exactly their value at the current prices; the log is the old log with one `AutoSold` event per sold symbol pushed on, in some order of those symbols, so with no exit it is unchanged; the invariants (balance >= 0, sound positions, log bound) are kept |
| Ledger.ClosingKeepsEquity | ai_futures_bot.py:117-124 | closing any set of positions at their marks leaves total equity unchanged |
| Ledger.TradeSize | ai_futures_bot.py:130-131 | the trade is `min(equity * tradePct / 100, balance)`: it is one of the two and at most either |
| Ledger.CloudBot.ExecuteBuy | ai_futures_bot.py:126-144 | no change when the symbol is held or the trade is below 10; otherwise it debits exactly the trade, records the position with entry = price, units = trade / price and invested = trade, and logs the buy; the balance stays >= 0 |
| Ledger.BuyKeepsEquity | ai_futures_bot.py:135-137 | buying at the price the equity is valued at leaves total equity unchanged |
| Ledger.SpotRoundTrip | ai_futures_bot.py:87-144 | `execute_buy` (lines 126-144) followed by `manual_sell` (lines 87-97) at the same price restores the balance and the portfolio |
| History.RecordEndsWith | ai_futures_bot.py:156-158 | the recorded sample is the newest element of its window |
| History.FirstRecordStartsWindow | ai_futures_bot.py:156-157 | a symbol seen for the first time gets a one-sample window |
| History.RecordLatest | ai_futures_bot.py:149-158 | appending then evicting the oldest past 6 is the same as keeping the latest 6 of the longer sequence |
| History.RecordRowWindow | ai_futures_bot.py:153-158 | recording a row changes only that row's symbol's window |
| History.RecordRowsWindow | ai_futures_bot.py:152-158 | after a scan a symbol has a window exactly when it was known or appears in the rows, and the window is the latest 6 of the old window followed by the row samples, oldest first |
| History.RecordRowsBounded | ai_futures_bot.py:149-158 | every window holds at most 6 samples after a scan |
| History.RecordRowsNewestLast | ai_futures_bot.py:152-158 | the row a symbol last appears in supplies the newest sample of that symbol's window |
| History.SignalHistory.constructor | ai_futures_bot.py:150 | the history starts empty |
| History.SignalHistory.Update | ai_futures_bot.py:152-158 | the windows become `RecordRows` of the old windows and the rows, and stay within 6 samples |
| Signals.Classify | ai_futures_bot.py:160-179 | the status always matches the label; the label is a cold-start label exactly when the symbol has no history or fewer than 2 samples, and it is AwaitingData exactly when there is no history |
| Signals.ClassifyIsFirstMatch | ai_futures_bot.py:165-179 | with at least 2 stored samples the label is exactly the first rule, in priority order, whose condition holds on the price change, the current relative volume and the three-step volume rise |
| Signals.BreakoutWins | ai_futures_bot.py:169-172 | relative volume above 3 with a price change above 1% is always a bullish breakout |
| Signals.ColdStartIsNeutral | ai_futures_bot.py:161-163 | with no history or fewer than 2 samples the status is neutral, whatever the current sample |
| Signals.NoPreviousPriceMeansNoTrend | ai_futures_bot.py:170-179 | a non-positive previous price counts as no change, so only the whale rule or the fallback can match |
| Signals.RepeatedPriceMeansNoTrend | ai_futures_bot.py:161-179 | a sample repeating the last stored price can only be Observing, Whale or Stable |
| Scan.AsWrittenSeesNoTrend | ai_futures_bot.py:283-289 | as written, a scanned symbol is classified only as Observing, Whale or Stable, and Whale is the only bullish label |
| Scan.AsWrittenMissesBreakout | ai_futures_bot.py:283-289 | a 10% jump on 4x relative volume is Stable as written and Breakout against the previous scan |
| Scan.AgainstPreviousIsFirstMatch | ai_futures_bot.py:283-289 | in the corrected order each warm row gets the first rule that fires on the move from the previous scan's price |
| Scan.ScanAsWritten | ai_futures_bot.py:283-289 | records the rows into the history, then returns the as-written signals |
| Scan.ScanRows | ai_futures_bot.py:283-289 | returns the signals measured against the previous scans, then records the rows |

## Left out

- The Streamlit dashboard is not modelled: page set-up, styling, sidebar widgets, tabs, metrics, buttons, and the `st.rerun`/`time.sleep` polling loop. Those are presentation.
- `get_market_data` and `get_technical` are not modelled. They are HTTP requests plus pandas filtering and rolling-mean RSI/RVOL numerics. Scanned rows and price tables are parameters instead.
- The run-time `pip install` of yfinance is environment set-up and is not modelled.
- Timestamps, the `ts` field of a position and the wording of log lines and labels are not modelled.
- Floating-point rounding is not modelled; money is exact `real`.
- The margin-mode (leveraged) ledger is not part of `ai_futures_bot.py` and is not part of this model.
- The main loop's buy gate (bullish status and RSI below 70) and the per-cycle orchestration are not modelled. Only the order of recording and classifying is modelled, in `Scan`.
- The `rvol` default of 0 for a row without that column is not modelled; every `Sample` carries its relative volume.
- The constructor models only the first start of a session. A later construction that finds an existing session state keeps that state.
- Ledger.CloudBot.ExecuteBuy: requires a positive price. At 0 the source raises ZeroDivisionError once the trade reaches 10. A negative price would record a position with negative units, which the ledger invariant excludes.
- Ledger.CloudBot.CheckPortfolio: requires non-negative prices, as quoted by the exchange. The balance >= 0 invariant depends on that. The order in which one pass logs its sales follows the dict order. The contract states the log for some order of the sold symbols, not for the dict's own order.
- Ledger.CloudBot.ManualSell: keeps balance >= 0 only for a non-negative price. At a negative price it still states the new balance, portfolio and log exactly.

## Findings

| source | as written | input that shows it | evidently intended | confidence | as-written member | corrected member |
|---|---|---|---|---|---|---|
| ai_futures_bot.py:283-289 | `hafizayi_guncelle(full_df)` records every scanned row before `analiz_motoru` classifies the same rows. The last stored price is therefore the current price, the price change is always 0, and breakout, momentum, weak and dump can never fire | BTC history [100, 100], then a scan row BTC at 110 with relative volume 4: the result is Stable | classify each row against the windows of the previous scans, then record: the result is Breakout | high; not executed | Scan.AsWrittenSeesNoTrend, Scan.AsWrittenMissesBreakout, Scan.ScanAsWritten | Scan.AgainstPreviousIsFirstMatch, Scan.ScanRows |
