/** One fill: an entry/exit row of the trading-platform export (the
    `EntryExit` class of main.py), with its signed profit, its exit label
    and its exit summary. Prices are whole ticks, so every product and sum
    is exact. */
module Fills {

  /** How an exit is labelled: a take-profit or a stop. */
  datatype ExitType = Stop | TakeProfit

  /** The {price, Qty, Pnl} record that summarises an exit. */
  datatype ExitSummary = ExitSummary(price: int, qty: int, pnl: int)

  /** The one market-position value that makes a fill long. */
  const Long: string := "Long"

  /** The fields of one row. Times and instrument are opaque strings that are
      only ever compared for equality; the exit time is carried but unused. */
  datatype Fill = Fill(
    account: string,
    marketPos: string,
    entryPrice: int,
    exitPrice: int,
    qty: int,
    entryTime: string,
    exitTime: string,
    instrument: string)
  {
    /** Signed profit: the price move times the quantity, negated unless the
        position is exactly "Long" (any other value counts as short). */
    function Profit(): (p: int)
      ensures marketPos == Long ==> p == (exitPrice - entryPrice) * qty
      ensures marketPos != Long ==> p == (entryPrice - exitPrice) * qty
      ensures exitPrice == entryPrice || qty == 0 ==> p == 0
    {
      if marketPos == Long then (exitPrice - entryPrice) * qty
      else -(exitPrice - entryPrice) * qty
    }

    /** The exit label of this fill, taken from the sign of its profit. */
    function ExitTypeOf(): (t: ExitType)
      ensures t == TakeProfit <==> Profit() > 0
      ensures t == Stop <==> Profit() <= 0
    {
      Label(Profit())
    }

    /** The exit summary of this fill. */
    function Exit(): (e: ExitSummary)
      ensures e.price == exitPrice && e.qty == qty
      ensures e.pnl == Profit()
      ensures Label(e.pnl) == ExitTypeOf()
    {
      ExitSummary(exitPrice, qty, Profit())
    }
  }

  /** The label of an exit with profit pnl: a take-profit exactly when the
      profit is strictly positive, so a break-even exit is a stop. */
  function Label(pnl: int): (t: ExitType)
    ensures t == TakeProfit <==> pnl > 0
    ensures t == Stop <==> pnl <= 0
  {
    if pnl > 0 then TakeProfit else Stop
  }

  /** True when the exit price moved in the fill's favour: up for a long
      fill, down for any other. */
  predicate Favourable(f: Fill) {
    if f.marketPos == Long then f.exitPrice > f.entryPrice else f.exitPrice < f.entryPrice
  }

  // Field selectors, passed to the generic sums and groupings of Seqs.

  function QtyOf(f: Fill): int { f.qty }
  function EntryPriceOf(f: Fill): int { f.entryPrice }
  function ExitPriceOf(f: Fill): int { f.exitPrice }
  function NotionalOf(f: Fill): int { f.entryPrice * f.qty }
  function ProfitOf(f: Fill): int { f.Profit() }

  /** For a positive quantity, the profit is positive exactly when the price
      moved in the fill's favour, and zero exactly when it did not move. */
  lemma {:induction false} ProfitSign(f: Fill)
    requires f.qty > 0
    ensures f.Profit() > 0 <==> Favourable(f)
    ensures f.Profit() == 0 <==> f.exitPrice == f.entryPrice
  {
    var d := f.exitPrice - f.entryPrice;
    assert d > 0 ==> d * f.qty > 0;
    assert d < 0 ==> d * f.qty < 0;
    assert d == 0 ==> d * f.qty == 0;
  }

  /** For a positive quantity, a fill is a take-profit exactly when the price
      moved in its favour; a fill whose price did not move is a stop. */
  lemma {:induction false} ExitTypeFollowsPriceMove(f: Fill)
    requires f.qty > 0
    ensures f.ExitTypeOf() == TakeProfit <==> Favourable(f)
    ensures f.exitPrice == f.entryPrice ==> f.ExitTypeOf() == Stop
  {
    ProfitSign(f);
  }

  /** Every market position other than exactly "Long" is treated like
      "Short", and the two sides of the same prices earn opposite profits. */
  lemma {:induction false} NonLongIsShort(f: Fill)
    requires f.marketPos != Long
    ensures f.Profit() == f.(marketPos := "Short").Profit()
    ensures f.Profit() == -f.(marketPos := Long).Profit()
  {
  }
}
