# Trading ledger and portfolio — a Dafny model

This project models the in-memory trading server of `server.js`: the
`portfolio` list of positions `{symbol, quantity, avgPrice}`, the `trades`
ledger `{id, symbol, type, quantity, price, date}`, the `POST /trades` handler
that validates a request, numbers a new trade, appends it to the ledger and
calls `updatePortfolio`, the average-cost rule of `updatePortfolio`, and the
`totalValue` that `GET /portfolio` reports.

Layout:

- `wrappers.dfy` — `Wrappers.Option`.
- `js_number.dfy` — `JsNumber.Number`: a JavaScript number as an exact real
  (`Finite`) or `NonFinite`, the NaN / ±Infinity the unguarded division
  `totalValue / newQuantity` (server.js:86) yields when `newQuantity` is 0.
  `Add`, `Mul` and `DivInt` give `NonFinite` whenever an operand is non-finite
  or the divisor is zero, as IEEE arithmetic does for those operations.
- `text.dfy` — `Text.ToUpper`, `toUpperCase` on the letters a to z.
- `portfolio.dfy` — the values `Trade` and `Position`, and the pure part of the
  core: `FindSymbol` (the `find` at server.js:78), `Averaged` (server.js:84-92),
  `Opened` (server.js:96-100), `Apply` (the whole of `updatePortfolio` on the
  portfolio value), `ApplyAll` (a run of trades), `Cost` and `TotalValue`
  (the `reduce` at server.js:32, a left fold from 0), with the lemmas about them.
- `server.dfy` — class `Server.TradingBook`, whose fields `portfolio` and
  `trades` are the two module-level lists; its constructor installs the seed
  data of server.js:9-18 (`SeedPortfolio`, `SeedTrades`); `PostTrade` is the `POST /trades` handler,
  `UpdatePortfolio` the in-place update, `GetPortfolio` and `GetTrades` the two
  read handlers. `Valid()` is the invariant every handler keeps: ids are the
  1-based ledger positions, ledger symbols are upper case with type BUY or SELL,
  and portfolio symbols are upper case and pairwise distinct. `SeedScenario`
  is a client that replays the worked example (seed AAPL 10 at 150, then a BUY
  of "aapl" 5 at 180, gives AAPL 15 at 160).

Modelling choices:

- A request field the client omitted is `None`; JavaScript falsiness of the
  typed fields is `""` for strings, `0` for the quantity and `0.0` for the price.
- The request's `quantity` is already an `int` and `price` a `real`, so
  `parseInt`/`parseFloat` are the identity. The trade's type is stored as the
  upper-cased request string (`kind`), as server.js:58 does; `PostTrade` proves
  that upper-casing never changes an accepted type.
- The date of a trade is a parameter of `PostTrade` in place of the clock.
- A position object that `updatePortfolio` overwrites in place
  (server.js:91-92) is a value replaced at its index in the `portfolio` sequence.

Behaviour of server.js worth noting:

- The type check is case-sensitive: `"buy"` is refused with "Type must be BUY or SELL".
- `GET /trades` returns the ledger in insertion order; no sort by date.
- `totalValue` sums `quantity * avgPrice` over every position, whatever its quantity.
- Negative quantities and prices pass validation (only zero is falsy). A BUY that
  brings a held position to exactly zero shares makes its average price, and
  the reported total, non-finite (`BuyToZeroSharesIsNonFinite`).
- SELL trades are recorded but never change the portfolio.

## Model

| member | source | states |
|---|---|---|
| Text.ToUpper | server.js:57-58 | the upper-cased string has the same length, upper-cases each letter a-z and keeps every other character, contains no lower-case letter, and equals its input when that is already upper case |
| Portfolio.FindSymbol | server.js:78 | the result is the index of the FIRST position with the symbol, or None exactly when no position has it |
| Portfolio.Averaged | server.js:84-92 | the symbol is kept, the share counts add up, and the total cost `quantity * avgPrice` grows by exactly `trade.quantity * trade.price` when the new count is non-zero; at zero shares the average is non-finite |
| Portfolio.AverageBetween | server.js:84-86 | with positive share counts on both sides and a finite old average, the new average lies between the old average and the trade price |
| Portfolio.NonBuyLeavesPortfolio | server.js:81 | a trade whose type is not BUY, so every SELL, leaves the portfolio unchanged |
| Portfolio.BuyUpdatesFirstMatch | server.js:78-92 | a BUY on a held symbol replaces the first position with that symbol by its averaged position, keeps the length and leaves every other position as it was |
| Portfolio.BuyOpensPosition | server.js:93-100 | a BUY on a symbol not held appends exactly `{symbol, quantity, avgPrice: price}` after the unchanged existing positions |
| Portfolio.ApplyFrame | server.js:78-101 | positions keep their order and symbols, positions of other symbols are untouched, the portfolio grows by one exactly for a BUY on a symbol not held and then by the opened position, and after a BUY the symbol is held |
| Portfolio.ApplyKeepsDistinct | server.js:78-100 | if no two positions share a symbol before a trade, none do after it |
| Portfolio.TotalValueAppend | server.js:32 | the total of a portfolio with one more position is the old total plus that position's cost |
| Portfolio.TotalValueReplace | server.js:32 | replacing one position changes the total by exactly the change in that position's cost |
| Portfolio.TotalValueNonFinite | server.js:32 | one position of non-finite cost makes the reported total non-finite |
| Portfolio.BuyAddsToTotalValue | server.js:81-100 | a BUY raises the total by exactly `quantity * price` unless it brings a held position to zero shares |
| Portfolio.BuyToZeroSharesIsNonFinite | server.js:84-92 | a BUY that brings a held position to zero shares leaves it at 0 shares with a non-finite average, and the total non-finite |
| Portfolio.BuysAccumulate | server.js:78-100 | a run of BUYs with positive quantities on a symbol not held builds one new last position whose quantity is the sum of the quantities and whose average is the volume-weighted average of the prices, leaving the other positions untouched |
| Portfolio.Cost | server.js:32 | definition: one position's `quantity * avgPrice`; properties in `Averaged`, `TotalValueReplace`, `TotalValueNonFinite` |
| Portfolio.TotalValue | server.js:32 | definition: the `reduce` as a left fold from 0 over `Cost`; properties in `TotalValueAppend`, `TotalValueReplace`, `TotalValueNonFinite`, `BuyAddsToTotalValue` |
| Portfolio.Opened | server.js:96-100 | definition: the position a BUY on a new symbol pushes; properties in `BuyOpensPosition`, `ApplyFrame` |
| Portfolio.Apply | server.js:74-105 | definition: `updatePortfolio` on the portfolio value; properties in `NonBuyLeavesPortfolio`, `BuyUpdatesFirstMatch`, `BuyOpensPosition`, `ApplyFrame`, `ApplyKeepsDistinct`, `BuyAddsToTotalValue`, `BuyToZeroSharesIsNonFinite`, `BuysAccumulate` |
| Portfolio.ApplyAll | server.js:74-105 | definition: successive `updatePortfolio` calls, in order; property in `BuysAccumulate` |
| Server.HasAllFields | server.js:46 | definition: every field present and truthy; its negation is the missing-fields refusal in `PostTrade` |
| Server.IsTradeType | server.js:50 | definition: exactly "BUY" or "SELL", case-sensitive; its negation is the type refusal in `PostTrade` |
| Server.SeedPortfolio | server.js:9-13 | the three seed positions have pairwise distinct, upper-case symbols |
| Server.SeedTrades | server.js:15-18 | there are two seed trades, with ids 1 and 2 (numbered from 1), upper-case symbols and type BUY |
| Server.AppendKeepsLedger | server.js:55-65 | appending the trade with id `length + 1` keeps every id equal to its 1-based ledger position |
| Server.ApplyKeepsUpperSymbols | server.js:93-100 | applying a trade with an upper-case symbol keeps every portfolio symbol upper case |
| Server.SeedBuyExample | server.js:84-92 | on the seed portfolio, a BUY of 5 AAPL at 180 turns AAPL 10 at 150 into AAPL 15 at 160 and changes nothing else |
| Server.TradingBook.constructor | server.js:9-18 | the server starts with the three seed positions and the two seed trades, and the invariant holds |
| Server.TradingBook.GetPortfolio | server.js:29-34 | returns the portfolio and the sum of `quantity * avgPrice` over it, changing nothing |
| Server.TradingBook.GetTrades | server.js:37-39 | returns the ledger in insertion order, changing nothing |
| Server.TradingBook.PostTrade | server.js:42-71 | a request with a missing or falsy field is refused with the missing-fields message, one with a type other than exactly BUY or SELL with the type message, both with no change to either list; otherwise the trade with id `old length + 1`, upper-cased symbol, the request's type unchanged, its quantity, price and the date is returned, appended to the ledger and applied to the portfolio; the status is 400 on both refusals and 201 on success; the invariant is kept |
| Server.TradingBook.UpdatePortfolio | server.js:74-105 | the portfolio becomes `Apply(old portfolio, trade)` and the ledger does not change |

## Left out

- Express routing, `GET /`, `app.listen`, JSON framing and every `console.log` (server.js:1-6, 20-26, 75-104, 108-110): input/output plumbing.
- `server-harperdb.js` is not part of this model: it is an HTTP client of a remote database whose averaging rule is the one in server.js, and its read-then-write race only arises under concurrently interleaved requests.
- Floating point: rounding, overflow to Infinity, the difference between NaN and ±Infinity, and integer precision above 2^53; prices are exact reals.
- JavaScript coercion: `parseInt`/`parseFloat` of strings, falsiness of `false`, `null` and `NaN`, and non-string fields; request fields arrive typed. A truthy non-string `type` fails the strict comparison at server.js:50 and is refused with 400 and the type message, the same path any string other than BUY or SELL takes in `PostTrade`; a truthy non-string `symbol` makes `toUpperCase` (server.js:57) throw before `trades.push`, so Express answers 500 and nothing is recorded, which the model does not represent.
- `toUpperCase` beyond the letters a to z (other scripts, and characters whose upper case is longer).
- The clock (`new Date()` at server.js:61): the date is a parameter.
- Concurrency: Node runs each handler to completion, so no two requests interleave in server.js.
- Server.TradingBook.PostTrade: its contract ties the new portfolio to `Apply`; the totals and frame facts it implies are stated on `Apply` by the lemmas above rather than repeated on the method.
