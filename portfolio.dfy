/**
 * The positions and trades of the in-memory trading server, and the rule by
 * which a recorded trade changes the portfolio (`updatePortfolio`).
 */
module Portfolio {
  import opened Wrappers
  import opened JsNumber

  const BUY := "BUY"
  const SELL := "SELL"

  /** A recorded trade; `kind` is the upper-cased request type. */
  datatype Trade = Trade(id: int, symbol: string, kind: string, quantity: int, price: real, date: string)

  /** A held position: share count and average purchase price. */
  datatype Position = Position(symbol: string, quantity: int, avgPrice: Number)

  /** What a position is worth at its average price: `quantity * avgPrice`. */
  function Cost(p: Position): Number {
    Mul(FromInt(p.quantity), p.avgPrice)
  }

  /** `portfolio.reduce((sum, stock) => sum + stock.quantity * stock.avgPrice, 0)`, a left fold. */
  function TotalValue(ps: seq<Position>): Number {
    if ps == [] then Finite(0.0) else Add(TotalValue(ps[..|ps| - 1]), Cost(ps[|ps| - 1]))
  }

  /** `portfolio.find(p => p.symbol === symbol)`, as the index of the first match. */
  function FindSymbol(ps: seq<Position>, symbol: string): (r: Option<nat>)
    ensures r.Some? ==> r.value < |ps| && ps[r.value].symbol == symbol
    ensures r.Some? ==> forall j :: 0 <= j < r.value ==> ps[j].symbol != symbol
    ensures r.None? ==> forall j :: 0 <= j < |ps| ==> ps[j].symbol != symbol
  {
    if ps == [] then None
    else if ps[0].symbol == symbol then Some(0)
    else match FindSymbol(ps[1..], symbol)
      case None => None
      case Some(j) => Some(j + 1)
  }

  /** The position a BUY opens on a symbol not yet held. */
  function Opened(t: Trade): Position {
    Position(t.symbol, t.quantity, Finite(t.price))
  }

  /**
   * The position after a BUY of `t` on the held position `p`: the share counts
   * add up and the average price is the volume-weighted one. The total cost is
   * conserved unless the new share count is zero, where the division yields a
   * non-finite average.
   */
  function Averaged(p: Position, t: Trade): (r: Position)
    ensures r.symbol == p.symbol
    ensures r.quantity == p.quantity + t.quantity
    ensures r.quantity != 0 ==> Cost(r) == Add(Cost(p), Finite(t.quantity as real * t.price))
    ensures r.quantity == 0 ==> r.avgPrice == NonFinite && Cost(r) == NonFinite
  {
    var totalValue := Add(Cost(p), Mul(FromInt(t.quantity), Finite(t.price)));
    var newQuantity := p.quantity + t.quantity;
    var avgPrice := DivInt(totalValue, newQuantity);
    assert newQuantity != 0 ==> Mul(FromInt(newQuantity), avgPrice) == totalValue by {
      if newQuantity != 0 { DivIntCancels(totalValue, newQuantity); }
    }
    Position(p.symbol, newQuantity, avgPrice)
  }

  /** The portfolio after `updatePortfolio(t)`. */
  function Apply(ps: seq<Position>, t: Trade): seq<Position> {
    if t.kind == BUY then
      match FindSymbol(ps, t.symbol)
      case Some(i) => ps[i := Averaged(ps[i], t)]
      case None => ps + [Opened(t)]
    else ps
  }

  /** The portfolio after a whole sequence of trades, in order. */
  function ApplyAll(ps: seq<Position>, ts: seq<Trade>): seq<Position> {
    if ts == [] then ps else Apply(ApplyAll(ps, ts[..|ts| - 1]), ts[|ts| - 1])
  }

  /** The trade does not bring a held position to exactly zero shares. */
  predicate KeepsSharesNonZero(ps: seq<Position>, t: Trade) {
    forall i :: 0 <= i < |ps| && ps[i].symbol == t.symbol ==> ps[i].quantity + t.quantity != 0
  }

  /** No two positions share a symbol. */
  predicate DistinctSymbols(ps: seq<Position>) {
    forall i, j :: 0 <= i < j < |ps| ==> ps[i].symbol != ps[j].symbol
  }

  predicate Holds(ps: seq<Position>, symbol: string) {
    exists i :: 0 <= i < |ps| && ps[i].symbol == symbol
  }

  /** A trade of any other type than BUY (so every SELL) leaves the portfolio as it was. */
  lemma NonBuyLeavesPortfolio(ps: seq<Position>, t: Trade)
    requires t.kind != BUY
    ensures Apply(ps, t) == ps
  {
  }

  /** A BUY on a held symbol rewrites the first position with that symbol and nothing else. */
  lemma BuyUpdatesFirstMatch(ps: seq<Position>, t: Trade, i: nat)
    requires t.kind == BUY
    requires i < |ps| && ps[i].symbol == t.symbol
    requires forall j :: 0 <= j < i ==> ps[j].symbol != t.symbol
    ensures |Apply(ps, t)| == |ps|
    ensures Apply(ps, t)[i] == Averaged(ps[i], t)
    ensures forall j :: 0 <= j < |ps| && j != i ==> Apply(ps, t)[j] == ps[j]
  {
    var r := FindSymbol(ps, t.symbol);
    assert r.Some? && r.value == i;
  }

  /** A BUY on a symbol not held appends one position and keeps all the others. */
  lemma BuyOpensPosition(ps: seq<Position>, t: Trade)
    requires t.kind == BUY
    requires !Holds(ps, t.symbol)
    ensures Apply(ps, t) == ps + [Position(t.symbol, t.quantity, Finite(t.price))]
  {
    assert FindSymbol(ps, t.symbol).None?;
  }

  /**
   * Only positions with the trade's symbol change; the order and the symbols of
   * the existing positions stay, and at most the trade's own symbol is added.
   */
  lemma ApplyFrame(ps: seq<Position>, t: Trade)
    ensures |ps| <= |Apply(ps, t)| <= |ps| + 1
    ensures forall j :: 0 <= j < |ps| ==> Apply(ps, t)[j].symbol == ps[j].symbol
    ensures forall j :: 0 <= j < |ps| && ps[j].symbol != t.symbol ==> Apply(ps, t)[j] == ps[j]
    ensures |Apply(ps, t)| == |ps| + 1 <==> t.kind == BUY && !Holds(ps, t.symbol)
    ensures |Apply(ps, t)| == |ps| + 1 ==> Apply(ps, t)[|ps|] == Opened(t)
    ensures t.kind == BUY ==> Holds(Apply(ps, t), t.symbol)
  {
    if t.kind == BUY {
      match FindSymbol(ps, t.symbol)
      case Some(i) =>
        assert Apply(ps, t)[i].symbol == t.symbol;
      case None =>
        assert Apply(ps, t)[|ps|].symbol == t.symbol;
    }
  }

  /** Symbols stay pairwise distinct: a BUY either updates the holder of its symbol or adds a new one. */
  lemma ApplyKeepsDistinct(ps: seq<Position>, t: Trade)
    requires DistinctSymbols(ps)
    ensures DistinctSymbols(Apply(ps, t))
  {
    ApplyFrame(ps, t);
    if t.kind == BUY && FindSymbol(ps, t.symbol).None? {
      var r := Apply(ps, t);
      forall i, j | 0 <= i < j < |r| ensures r[i].symbol != r[j].symbol {
        if j == |ps| {
          assert r[i].symbol == ps[i].symbol;
        }
      }
    }
  }

  /** Replacing one position changes the total by the change in that position's cost. */
  lemma {:induction false} TotalValueReplace(ps: seq<Position>, i: nat, p: Position, delta: real)
    requires i < |ps|
    requires Cost(p) == Add(Cost(ps[i]), Finite(delta))
    ensures TotalValue(ps[i := p]) == Add(TotalValue(ps), Finite(delta))
    decreases |ps|
  {
    var n := |ps| - 1;
    var qs := ps[i := p];
    assert qs[..n] == if i < n then ps[..n][i := p] else ps[..n];
    if i < n {
      TotalValueReplace(ps[..n], i, p, delta);
    }
  }

  /** A position whose cost is not finite makes the whole total not finite. */
  lemma {:induction false} TotalValueNonFinite(ps: seq<Position>, i: nat)
    requires i < |ps| && Cost(ps[i]) == NonFinite
    ensures TotalValue(ps) == NonFinite
    decreases |ps|
  {
    var n := |ps| - 1;
    if i < n {
      TotalValueNonFinite(ps[..n], i);
    }
  }

  /**
   * A BUY raises the reported total by exactly `quantity * price`, unless it
   * brings a held position to zero shares.
   */
  lemma BuyAddsToTotalValue(ps: seq<Position>, t: Trade)
    requires t.kind == BUY
    requires KeepsSharesNonZero(ps, t)
    ensures TotalValue(Apply(ps, t)) == Add(TotalValue(ps), Finite(t.quantity as real * t.price))
  {
    var found := FindSymbol(ps, t.symbol);
    if found.Some? {
      BuyOnHeldAddsToTotalValue(ps, t, found.value);
    } else {
      BuyOnNewAddsToTotalValue(ps, t);
    }
  }

  lemma BuyOnNewAddsToTotalValue(ps: seq<Position>, t: Trade)
    requires t.kind == BUY && FindSymbol(ps, t.symbol).None?
    ensures TotalValue(Apply(ps, t)) == Add(TotalValue(ps), Finite(t.quantity as real * t.price))
  {
    assert Apply(ps, t) == ps + [Opened(t)];
    TotalValueAppend(ps, Opened(t));
  }

  lemma BuyOnHeldAddsToTotalValue(ps: seq<Position>, t: Trade, i: nat)
    requires t.kind == BUY && FindSymbol(ps, t.symbol) == Some(i)
    requires ps[i].quantity + t.quantity != 0
    ensures TotalValue(Apply(ps, t)) == Add(TotalValue(ps), Finite(t.quantity as real * t.price))
  {
    var p := Averaged(ps[i], t);
    assert Apply(ps, t) == ps[i := p];
    TotalValueReplace(ps, i, p, t.quantity as real * t.price);
  }

  lemma TotalValueAppend(ps: seq<Position>, p: Position)
    ensures TotalValue(ps + [p]) == Add(TotalValue(ps), Cost(p))
  {
    assert (ps + [p])[..|ps|] == ps;
  }

  /** A BUY that brings a held position to zero shares leaves its average, and the total, non-finite. */
  lemma BuyToZeroSharesIsNonFinite(ps: seq<Position>, t: Trade, i: nat)
    requires t.kind == BUY
    requires i < |ps| && ps[i].symbol == t.symbol
    requires forall j :: 0 <= j < i ==> ps[j].symbol != t.symbol
    requires ps[i].quantity + t.quantity == 0
    ensures Apply(ps, t)[i] == Position(t.symbol, 0, NonFinite)
    ensures TotalValue(Apply(ps, t)) == NonFinite
  {
    BuyUpdatesFirstMatch(ps, t, i);
    TotalValueNonFinite(Apply(ps, t), i);
  }

  /**
   * With positive quantities on both sides and a finite average, the new
   * average lies between the old average and the trade's price.
   */
  lemma AverageBetween(p: Position, t: Trade)
    requires p.quantity > 0 && t.quantity > 0 && p.avgPrice.Finite?
    ensures Averaged(p, t).avgPrice.Finite?
    ensures var a := Averaged(p, t).avgPrice.value;
      (p.avgPrice.value <= a <= t.price) || (t.price <= a <= p.avgPrice.value)
  {
    var q, n := p.quantity as real, t.quantity as real;
    var lo, hi := if p.avgPrice.value <= t.price then p.avgPrice.value else t.price,
                  if p.avgPrice.value <= t.price then t.price else p.avgPrice.value;
    var sum := q * p.avgPrice.value + n * t.price;
    assert Averaged(p, t).avgPrice == Finite(sum / (q + n));
    ScaledBetween(q, p.avgPrice.value, lo, hi);
    ScaledBetween(n, t.price, lo, hi);
    assert (q + n) * lo <= sum <= (q + n) * hi;
    QuotientBetween(sum, q + n, lo, hi);
  }

  lemma ScaledBetween(k: real, x: real, lo: real, hi: real)
    requires k >= 0.0 && lo <= x <= hi
    ensures k * lo <= k * x <= k * hi
  {
  }

  lemma QuotientBetween(x: real, d: real, lo: real, hi: real)
    requires d > 0.0 && d * lo <= x <= d * hi
    ensures lo <= x / d <= hi
  {
    assert x / d * d == x;
  }

  /** Total shares bought by a sequence of trades. */
  function SumQuantity(ts: seq<Trade>): int {
    if ts == [] then 0 else SumQuantity(ts[..|ts| - 1]) + ts[|ts| - 1].quantity
  }

  /** Total amount paid for a sequence of trades. */
  function SumCost(ts: seq<Trade>): real {
    if ts == [] then 0.0 else SumCost(ts[..|ts| - 1]) + ts[|ts| - 1].quantity as real * ts[|ts| - 1].price
  }

  /**
   * A run of BUYs with positive quantities on a symbol not held builds one new
   * position at the end, holding the sum of the quantities at the
   * volume-weighted average of the prices; the other positions are untouched.
   */
  lemma {:induction false} BuysAccumulate(ps: seq<Position>, ts: seq<Trade>, symbol: string)
    requires !Holds(ps, symbol)
    requires |ts| > 0
    requires forall k :: 0 <= k < |ts| ==> ts[k].kind == BUY && ts[k].symbol == symbol && ts[k].quantity > 0
    ensures SumQuantity(ts) > 0
    ensures |ApplyAll(ps, ts)| == |ps| + 1
    ensures ApplyAll(ps, ts)[..|ps|] == ps
    ensures ApplyAll(ps, ts)[|ps|]
         == Position(symbol, SumQuantity(ts), Finite(SumCost(ts) / SumQuantity(ts) as real))
    decreases |ts|
  {
    var n := |ts| - 1;
    var init := ts[..n];
    if n == 0 {
      var t := ts[0];
      assert ApplyAll(ps, init) == ps;
      assert SumQuantity(ts) == t.quantity;
      assert SumCost(ts) == t.quantity as real * t.price;
      BuyOpensPosition(ps, t);
      assert (t.quantity as real * t.price) / t.quantity as real == t.price;
      assert ApplyAll(ps, ts) == Apply(ps, t);
    } else {
      forall k | 0 <= k < |init|
        ensures init[k].kind == BUY && init[k].symbol == symbol && init[k].quantity > 0
      {
        assert init[k] == ts[k];
      }
      BuysAccumulate(ps, init, symbol);
      BuysAccumulateStep(ps, ts, symbol);
    }
  }

  /** The induction step of BuysAccumulate: one more BUY after a run that already holds the average. */
  lemma BuysAccumulateStep(ps: seq<Position>, ts: seq<Trade>, symbol: string)
    requires !Holds(ps, symbol)
    requires |ts| > 1
    requires var t := ts[|ts| - 1]; t.kind == BUY && t.symbol == symbol && t.quantity > 0
    requires var init := ts[..|ts| - 1];
      SumQuantity(init) > 0 && |ApplyAll(ps, init)| == |ps| + 1 && ApplyAll(ps, init)[..|ps|] == ps &&
      ApplyAll(ps, init)[|ps|] == Position(symbol, SumQuantity(init), Finite(SumCost(init) / SumQuantity(init) as real))
    ensures SumQuantity(ts) > 0
    ensures |ApplyAll(ps, ts)| == |ps| + 1
    ensures ApplyAll(ps, ts)[..|ps|] == ps
    ensures ApplyAll(ps, ts)[|ps|]
         == Position(symbol, SumQuantity(ts), Finite(SumCost(ts) / SumQuantity(ts) as real))
  {
    var t := ts[|ts| - 1];
    var init := ts[..|ts| - 1];
    var before := ApplyAll(ps, init);
    forall j | 0 <= j < |ps| ensures before[j].symbol != symbol {
      assert before[j] == before[..|ps|][j];
    }
    var shares, cost := SumQuantity(init), SumCost(init);
    BuyExtendsAverage(before, |ps|, t, shares, cost);
    assert SumQuantity(ts) == shares + t.quantity;
    assert SumCost(ts) == cost + t.quantity as real * t.price;
    var after := ApplyAll(ps, ts);
    assert after == Apply(before, t);
    assert after[..|ps|] == before[..|ps|];
  }

  /** One more BUY on a position held at the average `cost / shares` keeps it at the running average. */
  lemma BuyExtendsAverage(ps: seq<Position>, k: nat, t: Trade, shares: int, cost: real)
    requires t.kind == BUY && t.quantity > 0 && shares > 0
    requires k < |ps| && ps[k] == Position(t.symbol, shares, Finite(cost / shares as real))
    requires forall j :: 0 <= j < k ==> ps[j].symbol != t.symbol
    ensures Apply(ps, t) == ps[k := Position(t.symbol, shares + t.quantity,
      Finite((cost + t.quantity as real * t.price) / (shares + t.quantity) as real))]
  {
    BuyUpdatesFirstMatch(ps, t, k);
    assert Cost(ps[k]) == Finite(cost) by {
      assert shares as real * (cost / shares as real) == cost;
    }
    var total := Add(Cost(ps[k]), Mul(FromInt(t.quantity), Finite(t.price)));
    assert total == Finite(cost + t.quantity as real * t.price);
    assert Averaged(ps[k], t).avgPrice == DivInt(total, shares + t.quantity);
  }
}
