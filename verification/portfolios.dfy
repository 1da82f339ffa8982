/** The trader's state: a cash balance and a whole number of shares, changed
    only by buying, selling and liquidating at a given price. Buys are clamped
    to what the cash affords and sells to what is held, so a solvent trader
    stays solvent. */
module Portfolios {
  import opened RealArith

  datatype Portfolio = Portfolio(balance: real, shares: int)

  /** Cash and holdings are both non-negative. */
  predicate Solvent(p: Portfolio)
  {
    p.balance >= 0.0 && p.shares >= 0
  }

  /** The value of the holdings marked to `price`, plus the cash. */
  function NetWorth(p: Portfolio, price: real): real
  {
    p.balance + p.shares as real * price
  }

  function MinInt(a: int, b: int): int
  {
    if a <= b then a else b
  }

  /** Java's `(int)` cast of a double within int range: truncation toward zero. */
  function Trunc(x: real): (n: int)
    ensures x >= 0.0 ==> 0 <= n && n as real <= x < (n + 1) as real
    ensures x < 0.0 ==> n <= 0 && (n - 1) as real < x <= n as real
  {
    if x >= 0.0 then x.Floor else -((-x).Floor)
  }

  /** Truncating `b / price` counts whole prices that fit in b. */
  lemma TruncatedQuotientFits(b: real, price: real, n: int)
    requires b >= 0.0 && price > 0.0 && n == Trunc(b / price)
    ensures n >= 0 && n as real * price <= b
  {
  }

  /** One more price than the truncated count would not fit in b. */
  lemma TruncatedQuotientMaximal(b: real, price: real, n: int)
    requires b >= 0.0 && price > 0.0 && n == Trunc(b / price)
    ensures b < (n + 1) as real * price
  {
  }

  /** Paying for q of the n shares the cash b affords leaves the cash
      non-negative, and less than one price when q is all n. */
  lemma PayForShares(b: real, price: real, q: int, n: int)
    requires price > 0.0 && 0 < q <= n
    requires n as real * price <= b < (n + 1) as real * price
    ensures b - q as real * price >= 0.0
    ensures q == n ==> b - q as real * price < price
  {
    ScaleMonotone(q as real, n as real, price);
    assert (n + 1) as real * price == n as real * price + price;
  }

  /** Cash that covers the price affords at least one whole share. */
  lemma CashCoversOne(b: real, price: real)
    requires price > 0.0 && b >= price
    ensures (b / price).Floor >= 1
  {
    ScaleMonotone(1.0, b / price, price);
  }

  /** Whole shares the cash buys at `price`, `(int)(balance / price)`: with
      non-negative cash, the largest count whose cost does not exceed it. */
  function MaxAffordable(p: Portfolio, price: real): (n: int)
    requires price > 0.0
    ensures p.balance >= 0.0 ==>
      n >= 0 && n as real * price <= p.balance < (n + 1) as real * price
  {
    if p.balance >= 0.0 then 
      TruncatedQuotientFits(p.balance, price, Trunc(p.balance / price));
      TruncatedQuotientMaximal(p.balance, price, Trunc(p.balance / price));
      Trunc(p.balance / price)
    else Trunc(p.balance / price)
  }

  /** Shares bought for a request of `requested` at `price`. */
  function BuyQuantity(p: Portfolio, requested: int, price: real): int
    requires price > 0.0
  {
    MinInt(requested, MaxAffordable(p, price))
  }

  /** Shares sold for a request of `requested`. */
  function SellQuantity(p: Portfolio, requested: int): int
  {
    MinInt(p.shares, requested)
  }

  /** A buy of up to `requested` shares at `price`. From a solvent state the
      count bought is the largest that is at most the request and that the
      cash pays for; nothing changes when that count is zero; the cash pays
      exactly for what was bought, so the worth at the trade price is kept. */
  function BuyUpTo(p: Portfolio, requested: int, price: real): (r: Portfolio)
    requires price > 0.0
    ensures r.balance == p.balance - (r.shares - p.shares) as real * price
    ensures NetWorth(r, price) == NetWorth(p, price)
    ensures Solvent(p) && requested >= 0 ==>
      var bought := r.shares - p.shares;
      && Solvent(r)
      && 0 <= bought <= requested
      && (bought == requested || r.balance < price)
    ensures BuyQuantity(p, requested, price) <= 0 ==> r == p
  {
    var q := BuyQuantity(p, requested, price);
    if q > 0 then
      var n := MaxAffordable(p, price);
      assert p.balance >= 0.0 ==>
        p.balance - q as real * price >= 0.0 && (q == n ==> p.balance - q as real * price < price) by {
        if p.balance >= 0.0 { PayForShares(p.balance, price, q, n); }
      }
      assert (p.shares + q) as real * price == p.shares as real * price + q as real * price;
      Portfolio(p.balance - q as real * price, p.shares + q)
    else p
  }

  /** A sell of up to `requested` shares at `price`. The count sold is at
      most the request and the holdings, and falls short of the request only
      by selling everything; nothing changes when it is zero; cash grows by
      exactly the proceeds. */
  function SellUpTo(p: Portfolio, requested: int, price: real): (r: Portfolio)
    ensures r.balance == p.balance + (p.shares - r.shares) as real * price
    ensures NetWorth(r, price) == NetWorth(p, price)
    ensures p.shares >= 0 && requested >= 0 ==>
      var sold := p.shares - r.shares;
      && r.shares >= 0
      && 0 <= sold <= requested
      && (sold == requested || r.shares == 0)
    ensures Solvent(p) && requested >= 0 && price >= 0.0 ==> Solvent(r)
    ensures SellQuantity(p, requested) <= 0 ==> r == p
  {
    var q := SellQuantity(p, requested);
    if q > 0 then
      Portfolio(p.balance + q as real * price, p.shares - q)
    else p
  }

  /** Cash in the whole position at `price`: the cash becomes the worth at
      that price and no shares remain. */
  function Liquidate(p: Portfolio, price: real): (r: Portfolio)
    ensures r.shares == 0
    ensures r.balance == NetWorth(p, price)
    ensures Solvent(p) && price >= 0.0 ==> Solvent(r)
  {
    Portfolio(p.balance + p.shares as real * price, 0)
  }

  /** From a solvent state a buy of `requested >= 0` shares purchases exactly
      the smaller of the request and `floor(balance / price)`. */
  lemma BuyExactlyMin(p: Portfolio, requested: int, price: real)
    requires price > 0.0 && Solvent(p) && requested >= 0
    ensures BuyUpTo(p, requested, price).shares - p.shares == MinInt(requested, (p.balance / price).Floor)
  {
  }

  /** From non-negative holdings a sell of `requested >= 0` shares sells
      exactly the smaller of the holdings and the request. */
  lemma SellExactlyMin(p: Portfolio, requested: int, price: real)
    requires p.shares >= 0 && requested >= 0
    ensures p.shares - SellUpTo(p, requested, price).shares == MinInt(p.shares, requested)
  {
  }

  /** Buying and then selling back the same count at the same price restores
      the cash and the holdings exactly. */
  lemma BuyThenSellRestores(p: Portfolio, requested: int, price: real)
    requires price > 0.0 && p.shares >= 0
    ensures var r := BuyUpTo(p, requested, price);
            SellUpTo(r, r.shares - p.shares, price) == p
  {
  }

  /** A buy clamped by the cash: when the request costs more than the cash,
      exactly `floor(balance / price)` shares are bought. */
  lemma BuyClampedByCash(p: Portfolio, requested: int, price: real)
    requires price > 0.0 && Solvent(p)
    requires p.balance < requested as real * price
    ensures BuyUpTo(p, requested, price).shares - p.shares == (p.balance / price).Floor
  {
  }

  /** A sell clamped by the holdings: when more is requested than held,
      everything is sold. */
  lemma SellClampedByHoldings(p: Portfolio, requested: int, price: real)
    requires p.shares >= 0 && requested > p.shares
    ensures SellUpTo(p, requested, price).shares == 0
  {
  }
}
