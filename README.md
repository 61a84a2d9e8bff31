# Signal-to-order core of a perpetual-futures trading bot

This project models the core of a small trading bot in Dafny. The bot receives trade
alerts over a webhook, reduces each alert to a `(symbol, direction, action)` signal,
and sizes and places an exchange order. It keeps a local ledger of the positions it
opened and closed, and a history page shows the closed positions with their profit
and loss. The model covers five things:

- **Webhook** (`webhook.dfy`): reducing a JSON alert body to a signal. The signal
  sources are tried in a fixed priority order. Then the `.P` marker is dropped, the
  components are validated, and a status code with a message comes back.
- **Ledger** (`ledger.dfy`): `process_signal` (the daily-trade and open-position gates,
  opening, and closing every matching entry), the dashboard's manual close, and the
  history page (filter, newest-first sort, rounded per-entry PnL and total).
- **Bitget** (`bitget_handler.dfy`): `place_order`. It formats the contract symbol,
  sizes the order from balance × percentage ÷ price, rounds to the symbol's lot rule,
  reads lenient configuration values with their defaults, and builds the order
  parameters. It also models the fallback of `get_open_positions`.
- **Volatility** (`volatility.dfy`): true range, Wilder's ATR smoothing, and the
  take-profit and stop-loss levels of `calculate_tp_sl`.
- **Models** (`models.dfy`): the `Position` and `Config` records with their field
  defaults, and `calculate_pnl`.

A few more modules support them. `telegram.dfy` holds the chat-id rewrite. The other
files stand in for the Python built-ins the core relies on:

- `text.dfy`: `split`, `replace`, `lower`, `in`, `startswith`, string comparison;
- `json.dfy`: JSON values, `dict.get`, and `in` with its `TypeError`;
- `numbers.dfy`: `round`, `int`, `float`;
- `wrappers.dfy`: `Option` and `Result`.

The ledger, the configuration and the request body are values passed in and returned.
The exchange is an oracle: every `place_order` call is answered by the next element of
a list of replies given as input. The clock is two parameters, today's date and the
current timestamp. Numbers are exact reals. Python's `round` is specified as
round-half-to-even on the exact value.

In these respects the model follows the code:

- The open-position gate counts non-closed entries of the local ledger, not positions
  reported by the exchange. There is no duplicate-direction or opposite-direction
  check.
- The order size is balance × percentage ÷ 100 ÷ price. Leverage does not enter it.
- The size is rounded to the nearest lot step and then raised to the minimum lot; it is
  not rounded down.
- Close orders are sized by `place_order` from the balance, like opens. They are not
  sized to the entry's own quantity.
- A missing balance becomes 1000 and a missing price becomes 45000. The code
  substitutes these constants instead of failing, and the model does the same.
- The core has no loop that reconciles the ledger with the exchange, and it never attaches TP/SL to orders.

## Model

| member | source | states |
|---|---|---|
| Webhook.HandleWebhook | app.py:386-490 | The handler's chain of early returns and its first-match scan give, for every body and trading switch, exactly the reply of the reference function `Normalize`. |
| Webhook.ChooseSignal | app.py:408-436 | The signal source is chosen by key presence in this order: `signal`, `strategy.alert_message`, `message`, `text`, then the scan. An `in` test on a number, boolean or null strategy raises `TypeError`, and so does indexing a non-object strategy. |
| Webhook.ScanForTriple | app.py:431-436 | The loop returns the first member value, in document order, that is a string containing `/` and splitting into exactly three parts. It returns nothing when there is none. |
| Webhook.FirstSlashTriple | app.py:431-436 | The search finds nothing iff no member value qualifies. Otherwise the result is a qualifying member value, and every member before it does not qualify. |
| Webhook.CheckComponents | app.py:460-490 | A signal is accepted iff the symbol with `.P` removed is non-empty, direction and action are non-empty, and they lower-case into {long, short} and {open, close}. The accepted signal is (cleaned symbol, lower-cased direction, lower-cased action). Its message is "Signal received and processing: " with the cleaned symbol and the direction and action as they arrived. Every rejection is 400: "Invalid signal components" iff a component is empty after cleaning, otherwise "Invalid direction" iff the direction is not long/short, otherwise "Invalid action" iff the action is not open/close. |
| Webhook.CheckComponentsAcceptsValid | app.py:460-484 | Components that already pass every check are handed on unchanged, with the message naming them. |
| Webhook.GatesComeFirst | app.py:388-396 | A missing or empty body gets 400 "Invalid JSON". With trading disabled, every other body gets 200 "Trading is disabled" before any parsing. |
| Webhook.AcceptedSignalIsWellFormed | app.py:386-484 | Every accepted reply came with trading enabled and an object body. Its symbol is non-empty, its direction is long or short, its action is open or close, and its message has the success prefix. |
| Webhook.MarkerRemovedWithoutDoubleDot | app.py:460-464 | For a symbol without `..`, no `.P` is left after the replace. |
| Webhook.MarkerSurvivesDoubleDot | app.py:460-464 | The replace is a single pass: `..PP` becomes `.P`, so the marker can survive. |
| Webhook.BasicPayloadRoundTrip | test/webhook_test.py:23-27 | The `{"signal": "S/D/A"}` body built by the test sender is accepted as exactly `(S, D, A)`, for any choice the sender offers. |
| Webhook.TradingViewPayloadRoundTrip | test/webhook_test.py:28-34 | The `{"strategy": {"alert_message": "S/D/A"}}` body is accepted as exactly `(S, D, A)`. |
| Webhook.SplitSignal | app.py:443-448 | A signal joined from three `/`-free components splits back into those three components. |
| Webhook.TopLevelSymbolBuyIsLongOpen | app.py:404-490 | With a top-level string symbol that is non-empty once `.P` is removed, the signal is (cleaned symbol, long, open) iff the lower-cased `action` is `buy`. Any other action, a missing one included, gives (cleaned symbol, short, close). |
| Webhook.PipedreamPayloadIsShortClose | test/webhook_test.py:35-40 | The sender's pipedream body always arrives as a short close, whatever direction and action the sender was asked for. |
| Webhook.LastResortScan | app.py:431-440 | A body with none of the signal keys uses the first three-part string value. With none, the reply is 400 "No signal provided". |
| Webhook.SignalFormatChecked | app.py:438-448 | Whatever member the signal string was chosen from: an empty one gets 400 "No signal provided". A non-empty one that does not split into three parts gets 400 "Invalid signal format". Three parts go on to the component checks. |
| Ledger.ProcessSignal | app.py:492-628 | Every branch is covered. No handler means nothing changes. An open is refused when today's trades (closed ones included) reach the daily limit, or when the non-closed entries reach the open limit. A successful open appends exactly one new open entry; a failed one changes nothing. A close with no match changes nothing; otherwise the ledger is the close pass. An unknown action does nothing. Both gates' limits are preserved. |
| Ledger.CloseMatching | app.py:573-606 | The close loop places one `close_<direction>` order per matching entry and leaves the ledger equal to the close pass `SettlePrefix`. |
| Ledger.CloseStep | app.py:585-606 | One loop step turns the ledger settled up to entry `i` into the one settled up to entry `i + 1`, and the match count grows only on a match. |
| Ledger.CloseSignalEffect | app.py:573-610 | After a close signal, non-matching and already-closed entries are unchanged. A matching entry whose order has an id is closed at `now` with the fill price, keeping its id, entry price and open time. Nothing is added or removed. |
| Ledger.SettlePrefixAt | app.py:585-606 | Entry `i` is settled with the reply to the close order numbered by the matching entries before it. |
| Ledger.SettlePrefixKeepsCounts | app.py:503-517 | A close pass leaves today's trade count unchanged and never increases the open count. |
| Ledger.SettlePrefix | app.py:585-606 | A close pass keeps the ledger's length. |
| Ledger.FillPrice | app.py:594-606 | The recorded price is the reply's price when positive. Otherwise it is the ticker price (45000 when the ticker fails) when positive, and otherwise the average price. |
| Ledger.CloseEntry | app.py:604-606 | A closed entry is marked closed, stamped with `now`, priced with the fill price, and otherwise unchanged. |
| Ledger.MatchCountSnoc | app.py:573-578 | Appending an entry adds one to the match count exactly when the entry matches. |
| Ledger.OpenCountSnoc | app.py:512 | Appending an entry adds one to the open count exactly when the entry is not closed. |
| Ledger.TodayTradesSnoc | app.py:504 | Appending an entry adds one to today's count exactly when its open time starts with today's date. |
| Ledger.ClosePosition | app.py:223-295 | A form missing any field changes nothing. Without a handler nothing changes and no order is placed. Otherwise a `close_<direction>` order is placed. The first entry with the id is closed only when the order has an id; otherwise nothing changes. |
| Ledger.FirstIndexWithId | app.py:246-250 | The found index holds the id, and no earlier entry has it. Finding nothing means no entry has it. |
| Ledger.ManualCloseRecloses | app.py:246-269 | The dashboard finds an entry by id alone, even one already closed, and overwrites its close time and exit price. |
| Ledger.ClosedEntries | app.py:200 | The filter keeps exactly the closed entries, and it drops as many entries as are open. |
| Ledger.ClosedEntriesMultiplicity | app.py:200 | Each closed entry is kept as many times as it occurs, and no open entry is kept. |
| Ledger.InsertByCloseTime | app.py:203 | Insertion adds one entry. |
| Ledger.SortByCloseTime | app.py:203 | Sorting keeps the length. |
| Ledger.InsertByCloseTimeSorted | app.py:203 | Inserting into a newest-first list keeps it newest-first. |
| Ledger.InsertByCloseTimePermutes | app.py:203 | Insertion adds the entry and keeps all the others (multiset). |
| Ledger.SortByCloseTimeSorted | app.py:203 | The history order is newest-first by `close_time` and is a permutation of its input. |
| Ledger.SumPnlSnoc | app.py:206-219 | The PnL total of a list with an entry appended is the old total plus that entry's PnL. |
| Ledger.SumPnlInsert | app.py:206-219 | Inserting an entry adds its PnL to the total. |
| Ledger.ClosedSum | app.py:200-219 | Dropping the open entries does not change the PnL total. |
| Ledger.SortSum | app.py:203-219 | Sorting does not change the PnL total. |
| Ledger.HistoryTotalIsLedgerTotal | app.py:200-219 | The history page's total equals `calculate_pnl` summed over the whole ledger. |
| Ledger.RowsFor | app.py:206-218 | There is one history row per entry. |
| Ledger.PositionHistory | app.py:192-221 | The rows are the closed entries, newest first, each with its PnL rounded to 2 decimals. Every row is closed. The total is the ledger's PnL sum rounded to 2 decimals. |
| Ledger.HistoryEntriesClosed | app.py:200-203 | Every entry on the history page is closed. |
| Bitget.PlaceOrder | bitget_handler.py:112-240 | The order parameters hold the formatted symbol, `USDT`, and size = lot(balance′ × pct / 100 / price′). Here balance′ and price′ replace non-positive values by 1000 and 45000, and the leverage plays no part. `side` is present iff it is one of the four sides; `orderType` is market iff the lower-cased type is `market`; otherwise it is limit with the price. The leverage is read leniently, and a failed post answers None. |
| Bitget.OrderParams | bitget_handler.py:204-226 | Keys and values of the posted parameter map: side only for a known side, `market` iff the lower-cased type is `market`, otherwise `limit` plus price. |
| Bitget.ApplyLotRule | bitget_handler.py:161-173 | The branch chain computes the lot size of the symbol's rule. |
| Bitget.LotSizeRespectsRule | bitget_handler.py:161-173 | The size is never below the minimum lot: 0.001 for symbols containing BTC (checked first), 0.01 otherwise. Above the minimum it is a whole number of lot steps within half a step of the raw size. |
| Bitget.SizingInputsArePositive | bitget_handler.py:131-156 | Sizing never uses a non-positive balance and never divides by a non-positive price. Positive values are used as reported. |
| Bitget.FormatSymbolAppendsSuffixOnce | bitget_handler.py:125-128 | The formatted symbol ends with `_UMCBL`, and it is unchanged iff the symbol already ends with it. |
| Bitget.FormatSymbolIdempotent | bitget_handler.py:85-87 | Formatting twice is formatting once. |
| Bitget.PercentSettingParsesStrings | bitget_handler.py:138-145 | A percentage string `w.f` (digits, a point, digits) is read as w + f / 10^len(f), and a digit string `n` as n. An unparseable one, a missing one and a null one become 10. |
| Bitget.LeverageSettingTruncatesStrings | bitget_handler.py:176-183 | A string leverage is parsed and truncated toward zero. An unparseable one becomes 5. |
| Bitget.OpenPositions | bitget_handler.py:242-259 | The result is the reply's `data` member when there is one; otherwise, or when the request raised, it is an empty list. |
| Volatility.TrueRange | test_atr.py:26-32 | The true range is the largest of high − low and the two distances from the previous close. The first candle has only its own range. |
| Volatility.TrueRanges | test_atr.py:25-32 | There is one true range per candle. |
| Volatility.TrueRangesNonNegative | test_atr.py:25-32 | True ranges are non-negative, and the first equals high − low. |
| Volatility.AtrSeries | test_atr.py:34 | There is one ATR value per candle. |
| Volatility.SmoothedStep | test_atr.py:34 | The exponential mean with alpha = 1/period equals Wilder's step `prev + (x − prev) / period`. |
| Volatility.AtrSeriesRecurrence | test_atr.py:34 | a₀ = tr₀ and aₜ = aₜ₋₁ + (trₜ − aₜ₋₁) / period. |
| Volatility.SmoothedWithin | test_atr.py:34 | The smoothed mean stays within any bounds that all its inputs respect. |
| Volatility.AtrWithinTrueRanges | test_atr.py:34 | Every ATR value lies between the smallest and the largest true range up to its candle. |
| Volatility.Atr | test_atr.py:62-63 | The ATR used is the last value of the series. It exists iff the period is at least 1 and there are candles. |
| Volatility.AtrNonNegative | test_atr.py:24-35 | Candles whose high is not below their low give a non-negative ATR. |
| Volatility.TpSlFailures | test_atr.py:45-96 | `calculate_tp_sl` gives finite levels exactly when the ATR can be computed, the price is not 0 and the stop distance is not 0. It then reports the last ATR and the given price. An ATR failure passes through. A zero price or stop distance is reported as `NonFinite`. |
| Volatility.TpSlSides | test_atr.py:69-78 | With a positive ATR and positive multipliers, a long has SL < price < TP with directions UP/DOWN, and a short mirrors this. |
| Volatility.LevelsRiskReward | test_atr.py:87-91 | The distances are \|atr·tpMult\| and \|atr·slMult\|, and the percentages are of the price. The risk/reward ratio is \|tpMult\| / \|slMult\|. |
| Models.PnlOfOpenPositionIsZero | models.py:39-41 | An open position's PnL is 0. |
| Models.PnlIsSignedPriceMove | models.py:43-50 | A closed long earns (exit − entry) × size; any other direction earns (entry − exit) × size. |
| Models.PnlLongMirrorsShort | models.py:47-50 | With equal prices and size, long PnL = −(short PnL), and any non-`long` direction is priced as short. |
| Models.PositionDefaults | models.py:27-37 | Missing position fields default to empty strings, zero numbers and not closed. |
| Models.PositionKeepsGivenFields | models.py:28-37 | Each of the nine fields, when given, is kept as given. |
| Models.ConfigDefaults | models.py:9-25 | The missing-key defaults: trading on, 10 daily trades, 10 open positions, ATR 14 with 2.5/3.0, TP/SL off, leverage 5, 10 %. |
| Models.InitialConfigDiffersFromDefaults | app.py:54-67 | The first-start configuration file caps open positions at 3, not the class default of 10. |
| Telegram.ChatIdRewrite | app.py:113-121 | The id is rewritten iff it is all digits and starts with `100`, and the rewrite only prepends `-`. |
| Telegram.ChatIdForIdempotent | app.py:116-120 | Rewriting a rewritten id changes nothing. |
| Numbers.RoundIsNearestStep | bitget_handler.py:164 | `round(x, d)` is a whole number of 10⁻ᵈ steps within half a step of `x`. |
| Numbers.RoundIdempotent | app.py:217 | Rounding a rounded value changes nothing. |
| Numbers.ParseShowNat | bitget_handler.py:142 | `float(str(n)) == n` for natural numbers. |
| Numbers.ParseDecimal | bitget_handler.py:142 | `float("w.f")` is w + f / 10^len(f), and `float("-w.f")` is its negation. |
| Text.SplitJoin3 | app.py:443-448 | Three separator-free pieces joined by the separator split back into those pieces. |
| Text.SplitCount | app.py:444 | The number of split parts is the number of separators plus one. |
| Text.RemoveAllAbsent | app.py:461-463 | Removing a pattern that does not occur changes nothing. |
| Text.LexTotal | app.py:203 | Any two close times are comparable. |
| Text.LexTransitive | app.py:203 | The close-time order is transitive. |
| Json.Get | app.py:404-405 | `dict.get` finds a value iff the key is present, and the value belongs to that key. |
| Json.PyIn | app.py:418 | `in` raises `TypeError` exactly on numbers, booleans and null, and on an object it tests key presence. |

## Left out

- Flask routing, login and sessions, templates, user management with password hashing, and the settings and dashboard pages. They are presentation and foreign libraries.
- Reading and writing `positions.json` and `config.json`. The ledger and the configuration are values passed in and returned.
- The Bitget REST calls themselves and the leverage-setting loop over both hold sides. Their answers are inputs: the balance reply, the ticker reply, the post reply, and each order's `OrderReply`.
- Sending Telegram messages. Only the chat-id rewrite is modelled.
- `threading.Thread` and `asyncio.run`. `process_signal` is one sequential call.
- Binance candle and price fetching, and the printing harness of test_atr.py. Candles and the current price are inputs.
- IEEE floating point. Values are exact reals, and `round` is round-half-to-even on the exact value.
- Numbers.ParseFloat: models only a plain decimal with surrounding whitespace and a sign. Exponents, `inf`, `nan` and digit underscores are not modelled.
- Text.Lower and Text.IsDigits: ASCII only. There is no Unicode case mapping, and no non-ASCII digits.
- Json.Get: a JSON object with a repeated key takes the first occurrence. Python's `json` module keeps the last one.
- Webhook.Normalize: a top-level symbol that is a non-empty list or object is answered as a crash. The source would go on with it.
- Webhook.ChooseSignal: the source first checks with `any(...)` that some string value contains `/`, then scans. The model folds both into one scan, which selects the same value.
- Ledger.ProcessSignal: a reply that makes the handler raise is not modelled. Examples are a `data` member that is null or not an object (app.py:525 and app.py:589) and a price that `float(...)` cannot parse. `OrderReply` has no such kind. In the source the exception ends the close loop, and the closes already written to the file remain.
- Ledger.ProcessSignal: every close in one call is stamped with the same `now`.
- Ledger.SortByCloseTimeSorted: proves the order is newest-first and a permutation, but not that entries with equal close times keep their relative order (stability).
- Volatility.TpSlFailures: a zero price or a zero stop distance is reported as the failure `NonFinite`. The source divides numpy floats there, so it raises nothing and returns its dictionary with infinite or undefined percentages and ratio.
- Volatility.Atr: an empty candle table is reported as its own failure kind, `NoCandles`. The source would raise an `IndexError`.
- Webhook.MarkerRemovedWithoutDoubleDot: guarantees no `.P` remains only for symbols without `..`. In general it does not hold, as Webhook.MarkerSurvivesDoubleDot shows.
- Config: the exchange credentials and the bot token are not fields. The credentials sit in `Bitget.Handler`, and "handler configured" is a boolean input of the ledger operations.
- app_ssl.py and test_order.py, which only relaunch the app or repeat the sizing arithmetic, are not part of this model.
