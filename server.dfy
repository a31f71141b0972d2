/**
 * The in-memory trading server: its two module-level lists, the
 * `GET /portfolio`, `GET /trades` and `POST /trades` handlers, and
 * `updatePortfolio`.
 */
module Server {
  import opened Wrappers
  import opened JsNumber
  import opened Text
  import opened Portfolio

  /** The body of `POST /trades`; a field the client left out is None. */
  datatype Request = Request(symbol: Option<string>, tradeType: Option<string>, quantity: Option<int>, price: Option<real>)

  datatype Response = Created(trade: Trade) | BadRequest(error: string)

  const MissingFields := "Missing required fields: symbol, type, quantity, price"
  const BadType := "Type must be BUY or SELL"

  function Status(r: Response): int {
    if r.Created? then 201 else 400
  }

  /** Every field is present and truthy: a non-empty string, a non-zero number. */
  predicate HasAllFields(req: Request) {
    && req.symbol.Some? && req.symbol.value != ""
    && req.tradeType.Some? && req.tradeType.value != ""
    && req.quantity.Some? && req.quantity.value != 0
    && req.price.Some? && req.price.value != 0.0
  }

  predicate IsTradeType(s: string) {
    s == BUY || s == SELL
  }


  /** Trade ids are the 1-based positions in the ledger, hence distinct. */
  predicate NumberedTrades(ts: seq<Trade>) {
    forall i :: 0 <= i < |ts| ==> ts[i].id == i + 1
  }

  predicate UpperSymbols(ps: seq<Position>) {
    forall i :: 0 <= i < |ps| ==> IsUpperCase(ps[i].symbol)
  }

  /** Every recorded trade has an upper-case symbol and the type BUY or SELL. */
  predicate WellFormedTrades(ts: seq<Trade>) {
    forall i :: 0 <= i < |ts| ==> IsUpperCase(ts[i].symbol) && IsTradeType(ts[i].kind)
  }

  /** The portfolio the server starts with: distinct, upper-case symbols. */
  function SeedPortfolio(): (ps: seq<Position>)
    ensures DistinctSymbols(ps) && UpperSymbols(ps)
  {
    [ Position("AAPL", 10, Finite(150.0)),
      Position("TSLA", 5, Finite(250.0)),
      Position("MSFT", 8, Finite(300.0)) ]
  }

  /** The trade history the server starts with: two BUYs numbered from 1, well formed. */
  function SeedTrades(): (ts: seq<Trade>)
    ensures NumberedTrades(ts) && WellFormedTrades(ts)
    ensures |ts| == 2 && forall i :: 0 <= i < |ts| ==> ts[i].kind == BUY
  {
    [ Trade(1, "AAPL", BUY, 10, 150.0, "2025-07-20"),
      Trade(2, "TSLA", BUY, 5, 250.0, "2025-07-21") ]
  }

  class TradingBook {
    var portfolio: seq<Position>
    var trades: seq<Trade>

    ghost predicate Valid()
      reads this
    {
      && NumberedTrades(trades)
      && WellFormedTrades(trades)
      && DistinctSymbols(portfolio)
      && UpperSymbols(portfolio)
    }

    constructor ()
      ensures Valid()
      ensures portfolio == SeedPortfolio() && trades == SeedTrades()
    {
      portfolio := SeedPortfolio();
      trades := SeedTrades();
    }

    /** `GET /portfolio`: the positions and the sum of their costs; nothing changes. */
    method GetPortfolio() returns (positions: seq<Position>, totalValue: Number)
      ensures positions == portfolio
      ensures totalValue == TotalValue(portfolio)
    {
      positions := portfolio;
      totalValue := TotalValue(portfolio);
    }

    /** `GET /trades`: the ledger in the order the trades were recorded; nothing changes. */
    method GetTrades() returns (ledger: seq<Trade>)
      ensures ledger == trades
    {
      ledger := trades;
    }

    /**
     * `POST /trades`. A request with a missing or falsy field, or with a type
     * other than exactly BUY or SELL, is refused and changes nothing.
     * Otherwise one trade, numbered after the last, is appended to the ledger
     * and applied to the portfolio.
     */
    method PostTrade(req: Request, today: string) returns (res: Response)
      requires Valid()
      modifies this
      ensures Valid()
      ensures !HasAllFields(req) ==>
        res == BadRequest(MissingFields) && trades == old(trades) && portfolio == old(portfolio)
      ensures HasAllFields(req) && !IsTradeType(req.tradeType.value) ==>
        res == BadRequest(BadType) && trades == old(trades) && portfolio == old(portfolio)
      ensures HasAllFields(req) && IsTradeType(req.tradeType.value) ==>
        && res == Created(Trade(|old(trades)| + 1, ToUpper(req.symbol.value), req.tradeType.value,
                                req.quantity.value, req.price.value, today))
        && trades == old(trades) + [res.trade]
        && portfolio == Apply(old(portfolio), res.trade)
      ensures Status(res) == if HasAllFields(req) && IsTradeType(req.tradeType.value) then 201 else 400
    {
      if !HasAllFields(req) {
        return BadRequest(MissingFields);
      }
      var tradeType := req.tradeType.value;
      if tradeType != BUY && tradeType != SELL {
        return BadRequest(BadType);
      }
      var newTrade := Trade(|trades| + 1, ToUpper(req.symbol.value), ToUpper(tradeType),
                            req.quantity.value, req.price.value, today);
      assert IsUpperCase(tradeType);
      assert newTrade.kind == tradeType;
      AppendKeepsLedger(trades, newTrade);
      trades := trades + [newTrade];
      ghost var before := portfolio;
      UpdatePortfolio(newTrade);
      ApplyKeepsDistinct(before, newTrade);
      ApplyKeepsUpperSymbols(before, newTrade);
      res := Created(newTrade);
    }

    /** `updatePortfolio(trade)`: only the portfolio changes, as Apply says. */
    method UpdatePortfolio(trade: Trade)
      modifies this`portfolio
      ensures portfolio == Apply(old(portfolio), trade)
    {
      var existing := FindSymbol(portfolio, trade.symbol);
      if trade.kind == BUY {
        match existing
        case Some(i) =>
          var position := portfolio[i];
          var totalValue := Add(Cost(position), Mul(FromInt(trade.quantity), Finite(trade.price)));
          var newQuantity := position.quantity + trade.quantity;
          var newAvgPrice := DivInt(totalValue, newQuantity);
          portfolio := portfolio[i := position.(quantity := newQuantity, avgPrice := newAvgPrice)];
        case None =>
          portfolio := portfolio + [Position(trade.symbol, trade.quantity, Finite(trade.price))];
      }
    }
  }

  /** Applying a trade with an upper-case symbol keeps every symbol upper-case. */
  lemma ApplyKeepsUpperSymbols(ps: seq<Position>, t: Trade)
    requires UpperSymbols(ps) && IsUpperCase(t.symbol)
    ensures UpperSymbols(Apply(ps, t))
  {
    ApplyFrame(ps, t);
    var r := Apply(ps, t);
    forall i | 0 <= i < |r| ensures IsUpperCase(r[i].symbol) {
      if i < |ps| {
        assert r[i].symbol == ps[i].symbol;
      } else {
        assert r[i] == Opened(t);
      }
    }
  }

  /** Appending the trade numbered after the last keeps the ledger numbered and well formed. */
  lemma AppendKeepsLedger(ts: seq<Trade>, t: Trade)
    requires NumberedTrades(ts) && WellFormedTrades(ts)
    requires t.id == |ts| + 1 && IsUpperCase(t.symbol) && IsTradeType(t.kind)
    ensures NumberedTrades(ts + [t]) && WellFormedTrades(ts + [t])
  {
  }

  /** The worked example: on the seed data, a BUY of 5 AAPL at 180 moves AAPL to 15 shares at 160. */
  lemma SeedBuyExample(date: string)
    ensures Apply(SeedPortfolio(), Trade(3, "AAPL", BUY, 5, 180.0, date))
         == SeedPortfolio()[0 := Position("AAPL", 15, Finite(160.0))]
  {
    var t := Trade(3, "AAPL", BUY, 5, 180.0, date);
    BuyUpdatesFirstMatch(SeedPortfolio(), t, 0);
    assert Averaged(SeedPortfolio()[0], t).avgPrice == DivInt(Finite(2400.0), 15);
  }

  lemma UpperAapl()
    ensures ToUpper("aapl") == "AAPL"
  {
    assert ToUpper("l") == "L";
    assert ToUpper("pl") == "PL";
    assert ToUpper("apl") == "APL";
  }

  /**
   * A client of the handler: starting from the seed data, a BUY of five
   * "aapl" at 180 is recorded as trade 3 on AAPL; a lower-case type and a
   * zero quantity are refused.
   */
  method SeedScenario() {
    var book := new TradingBook();
    UpperAapl();
    var r := book.PostTrade(Request(Some("aapl"), Some("BUY"), Some(5), Some(180.0)), "2025-07-22");
    assert r == Created(Trade(3, "AAPL", BUY, 5, 180.0, "2025-07-22"));
    SeedBuyExample("2025-07-22");
    assert book.portfolio[0] == Position("AAPL", 15, Finite(160.0));
    assert !IsTradeType("buy");
    var refused := book.PostTrade(Request(Some("MSFT"), Some("buy"), Some(1), Some(10.0)), "2025-07-22");
    assert refused == BadRequest(BadType);
    var missing := book.PostTrade(Request(Some("MSFT"), Some("SELL"), Some(0), Some(10.0)), "2025-07-22");
    assert missing == BadRequest(MissingFields) && |book.trades| == 3;
  }
}
