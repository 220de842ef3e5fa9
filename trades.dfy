/** One trade: a non-empty group of fills combined into a single position
    (the `Trade` class of main.py). Its quantity is the sum of the fills'
    quantities, its average entry price their quantity-weighted mean, its
    entry legs one per distinct entry price and its exit legs one per
    distinct exit price, each leg in the order its price was first seen. */
module Trades {
  import opened Wrappers
  import opened Seqs
  import opened Fills

  /** One entry leg: a distinct entry price and the quantity entered at it. */
  datatype EntryLeg = EntryLeg(price: int, qty: int)

  /** One exit leg: the label taken from the leg's summed profit, and the
      {price, Qty, Pnl} summary of the fills that exited at that price. */
  datatype ExitLeg = ExitLeg(kind: ExitType, summary: ExitSummary)

  /** Why a group of fills makes no trade: it is empty (the ValueError of the
      constructor), or its quantities sum to zero (the average price would
      divide by zero). */
  datatype TradeError = EmptyGroup | ZeroTotalQty

  datatype Trade = Trade(
    account: string,
    marketPos: string,
    avgEntryPrice: real,
    qty: int,
    entryTime: string,
    instrument: string,
    exits: seq<ExitLeg>,
    entries: seq<EntryLeg>)

  function EntryLegQty(e: EntryLeg): int { e.qty }
  function ExitLegQty(e: ExitLeg): int { e.summary.qty }
  function ExitLegPnl(e: ExitLeg): int { e.summary.pnl }
  function TradeQty(t: Trade): int { t.qty }

  // ---------------------------------------------------------------------
  // Specification of the legs

  /** The entry leg at price: the quantities of the fills entered at it. */
  function EntryLegAt(fills: seq<Fill>, price: int): EntryLeg {
    EntryLeg(price, SumAt(fills, EntryPriceOf, price, QtyOf))
  }

  /** One entry leg per distinct entry price, in first-seen order. */
  function EntryLegs(fills: seq<Fill>): (legs: seq<EntryLeg>)
    ensures |legs| == |FirstSeen(fills, EntryPriceOf)|
    ensures forall a :: 0 <= a < |legs| ==> legs[a] == EntryLegAt(fills, FirstSeen(fills, EntryPriceOf)[a])
  {
    var prices := FirstSeen(fills, EntryPriceOf);
    seq(|prices|, a requires 0 <= a < |prices| => EntryLegAt(fills, prices[a]))
  }

  /** The exit leg at price: summed quantity and summed per-fill profit of
      the fills that exited at it, labelled by the sign of that sum. */
  function ExitLegAt(fills: seq<Fill>, price: int): ExitLeg {
    var pnl := SumAt(fills, ExitPriceOf, price, ProfitOf);
    ExitLeg(Label(pnl), ExitSummary(price, SumAt(fills, ExitPriceOf, price, QtyOf), pnl))
  }

  /** One exit leg per distinct exit price, in first-seen order. */
  function ExitLegs(fills: seq<Fill>): (legs: seq<ExitLeg>)
    ensures |legs| == |FirstSeen(fills, ExitPriceOf)|
    ensures forall a :: 0 <= a < |legs| ==> legs[a] == ExitLegAt(fills, FirstSeen(fills, ExitPriceOf)[a])
  {
    var prices := FirstSeen(fills, ExitPriceOf);
    seq(|prices|, a requires 0 <= a < |prices| => ExitLegAt(fills, prices[a]))
  }

  /** The trade a group of fills makes, or why it makes none. Account,
      position, entry time and instrument come from the first fill; the
      fields of later fills are ignored. */
  function TradeOf(fills: seq<Fill>): (r: Result<Trade, TradeError>)
    ensures r == Failure(EmptyGroup) <==> fills == []
    ensures r == Failure(ZeroTotalQty) <==> fills != [] && Sum(fills, QtyOf) == 0
  {
    if fills == [] then Failure(EmptyGroup)
    else if Sum(fills, QtyOf) == 0 then Failure(ZeroTotalQty)
    else Success(Assemble(fills))
  }

  /** The fields of the trade of a group whose total quantity is not zero:
      the average entry price is the total price-times-quantity over the
      total quantity. */
  function Assemble(fills: seq<Fill>): Trade
    requires fills != [] && Sum(fills, QtyOf) != 0
  {
    var first := fills[0];
    Trade(first.account, first.marketPos, AveragePrice(fills), Sum(fills, QtyOf),
          first.entryTime, first.instrument, ExitLegs(fills), EntryLegs(fills))
  }

  /** The average entry price of a group: its total price-times-quantity
      over its total quantity. */
  function AveragePrice(fills: seq<Fill>): real
    requires Sum(fills, QtyOf) != 0
  {
    Sum(fills, NotionalOf) as real / Sum(fills, QtyOf) as real
  }

  // ---------------------------------------------------------------------
  // The aggregation loops

  /** The loop shared by aggregate_entries and get_exits: a dictionary whose
      missing prices read as zero, adding each fill's quantity under the
      fill's price and remembering the order in which prices were
      inserted. */
  method TallyQty(fills: seq<Fill>, priceOf: Fill -> int) returns (prices: seq<int>, qtyAt: map<int, int>)
    ensures prices == FirstSeen(fills, priceOf)
    ensures forall p :: p in qtyAt <==> p in prices
    ensures forall p :: p in qtyAt ==> qtyAt[p] == SumAt(fills, priceOf, p, QtyOf)
  {
    prices, qtyAt := [], map[];
    for i := 0 to |fills|
      invariant Tallied(fills[..i], priceOf, QtyOf, prices, qtyAt)
    {
      var price := priceOf(fills[i]);
      var seen, tallied := prices, qtyAt;
      if price !in qtyAt {
        prices := prices + [price];
      }
      qtyAt := qtyAt[price := (if price in qtyAt then qtyAt[price] else 0) + fills[i].qty];
      TallyStep(fills, priceOf, QtyOf, i, seen, tallied, prices, qtyAt);
    }
    assert fills[..|fills|] == fills;
  }

  /** Trade.aggregate_entries: one leg per distinct entry price. */
  method AggregateEntries(fills: seq<Fill>) returns (entries: seq<EntryLeg>)
    ensures entries == EntryLegs(fills)
  {
    var prices, qtyAt := TallyQty(fills, EntryPriceOf);
    forall a | 0 <= a < |prices| ensures prices[a] in qtyAt {
      assert prices[a] in prices;
    }
    entries := seq(|prices|, a requires 0 <= a < |prices| => EntryLeg(prices[a], qtyAt[prices[a]]));
  }

  /** Trade.get_exits: one leg per distinct exit price, with the summed
      profit of the fills at that price and the label of that sum. */
  method GetExits(fills: seq<Fill>) returns (exits: seq<ExitLeg>)
    ensures exits == ExitLegs(fills)
  {
    var prices, qtyAt := TallyQty(fills, ExitPriceOf);
    exits := [];
    for a := 0 to |prices|
      invariant |exits| == a
      invariant forall b :: 0 <= b < a ==> exits[b] == ExitLegAt(fills, prices[b])
    {
      var price := prices[a];
      var profit := SumAt(fills, ExitPriceOf, price, ProfitOf);
      var kind := if profit > 0 then TakeProfit else Stop;
      exits := exits + [ExitLeg(kind, ExitSummary(price, qtyAt[price], profit))];
    }
  }

  /** Trade.__init__: reject an empty group, sum the quantities, divide for
      the average entry price, build the legs and copy the first fill's
      fields. */
  method NewTrade(fills: seq<Fill>) returns (r: Result<Trade, TradeError>)
    ensures r == TradeOf(fills)
  {
    if fills == [] {
      return Failure(EmptyGroup);
    }
    var totalQty := Sum(fills, QtyOf);
    var totalPriceQty := Sum(fills, NotionalOf);
    if totalQty == 0 {
      return Failure(ZeroTotalQty);
    }
    var avg := totalPriceQty as real / totalQty as real;
    var entries := AggregateEntries(fills);
    var exits := GetExits(fills);
    var first := fills[0];
    r := Success(Trade(first.account, first.marketPos, avg, totalQty, first.entryTime, first.instrument, exits, entries));
  }

  // ---------------------------------------------------------------------
  // Properties of the legs

  /** The entry legs' prices are the distinct entry prices of the fills, in
      first-seen order. */
  lemma {:induction false} EntryLegPrices(fills: seq<Fill>)
    ensures |EntryLegs(fills)| == |FirstSeen(fills, EntryPriceOf)|
    ensures forall a :: 0 <= a < |EntryLegs(fills)| ==> EntryLegs(fills)[a].price == FirstSeen(fills, EntryPriceOf)[a]
  {
  }

  /** No two entry legs share a price, and each carries the summed quantity
      of the fills entered at its price. */
  lemma {:induction false} EntryLegsDistinctPrices(fills: seq<Fill>)
    ensures var legs := EntryLegs(fills);
      && (forall a, b :: 0 <= a < b < |legs| ==> legs[a].price != legs[b].price)
      && (forall a :: 0 <= a < |legs| ==> legs[a].qty == SumAt(fills, EntryPriceOf, legs[a].price, QtyOf))
  {
    EntryLegPrices(fills);
  }

  /** Every fill's entry price has an entry leg. */
  lemma {:induction false} EntryLegsCoverFills(fills: seq<Fill>)
    ensures var legs := EntryLegs(fills);
      forall i :: 0 <= i < |fills| ==> exists a :: 0 <= a < |legs| && legs[a].price == fills[i].entryPrice
  {
    var legs := EntryLegs(fills);
    EntryLegPrices(fills);
    forall i | 0 <= i < |fills|
      ensures exists a :: 0 <= a < |legs| && legs[a].price == fills[i].entryPrice
    {
      var a := FirstSeenIndex(fills, EntryPriceOf, i);
      assert legs[a].price == fills[i].entryPrice;
    }
  }

  /** Every entry leg's price is the entry price of some fill. */
  lemma {:induction false} EntryLegsComeFromFills(fills: seq<Fill>)
    ensures var legs := EntryLegs(fills);
      forall a :: 0 <= a < |legs| ==> exists i :: 0 <= i < |fills| && fills[i].entryPrice == legs[a].price
  {
    var legs := EntryLegs(fills);
    EntryLegPrices(fills);
    forall a | 0 <= a < |legs|
      ensures exists i :: 0 <= i < |fills| && fills[i].entryPrice == legs[a].price
    {
      var i := FirstSeenWitness(fills, EntryPriceOf, a);
      assert fills[i].entryPrice == legs[a].price;
    }
  }

  /** The entry legs come in the order their prices first appear among the
      fills. */
  lemma {:induction false} EntryLegsInFirstSeenOrder(fills: seq<Fill>)
    ensures var legs := EntryLegs(fills);
      forall a, b :: 0 <= a < b < |legs| ==>
        FirstIndex(fills, EntryPriceOf, legs[a].price) < FirstIndex(fills, EntryPriceOf, legs[b].price) < |fills|
  {
    EntryLegPrices(fills);
    FirstSeenOrder(fills, EntryPriceOf);
  }

  /** The quantities of the entry legs add up to the group's total quantity:
      quantities at a repeated price are summed, none is lost or counted
      twice. */
  lemma {:induction false} EntryLegsConserveQty(fills: seq<Fill>)
    ensures Sum(EntryLegs(fills), EntryLegQty) == Sum(fills, QtyOf)
  {
    SumOverPointwise(fills, EntryPriceOf, FirstSeen(fills, EntryPriceOf), QtyOf, EntryLegs(fills), EntryLegQty);
    SumOverFirstSeen(fills, EntryPriceOf, QtyOf);
  }

  /** No two exit legs share a price. */
  lemma {:induction false} ExitLegsDistinctPrices(fills: seq<Fill>)
    ensures var legs := ExitLegs(fills);
      forall a, b :: 0 <= a < b < |legs| ==> legs[a].summary.price != legs[b].summary.price
  {
    ExitLegPrices(fills);
  }

  /** Every fill's exit price has an exit leg. */
  lemma {:induction false} ExitLegsCoverFills(fills: seq<Fill>)
    ensures var legs := ExitLegs(fills);
      forall i :: 0 <= i < |fills| ==> exists a :: 0 <= a < |legs| && legs[a].summary.price == fills[i].exitPrice
  {
    var legs := ExitLegs(fills);
    ExitLegPrices(fills);
    forall i | 0 <= i < |fills|
      ensures exists a :: 0 <= a < |legs| && legs[a].summary.price == fills[i].exitPrice
    {
      var a := FirstSeenIndex(fills, ExitPriceOf, i);
      assert legs[a].summary.price == fills[i].exitPrice;
    }
  }

  /** Every exit leg's price is the exit price of some fill. */
  lemma {:induction false} ExitLegsComeFromFills(fills: seq<Fill>)
    ensures var legs := ExitLegs(fills);
      forall a :: 0 <= a < |legs| ==> exists i :: 0 <= i < |fills| && fills[i].exitPrice == legs[a].summary.price
  {
    var legs := ExitLegs(fills);
    ExitLegPrices(fills);
    forall a | 0 <= a < |legs|
      ensures exists i :: 0 <= i < |fills| && fills[i].exitPrice == legs[a].summary.price
    {
      var i := FirstSeenWitness(fills, ExitPriceOf, a);
      assert fills[i].exitPrice == legs[a].summary.price;
    }
  }

  /** The exit legs come in the order their prices first appear among the
      fills. */
  lemma {:induction false} ExitLegsInFirstSeenOrder(fills: seq<Fill>)
    ensures var legs := ExitLegs(fills);
      forall a, b :: 0 <= a < b < |legs| ==>
        FirstIndex(fills, ExitPriceOf, legs[a].summary.price) < FirstIndex(fills, ExitPriceOf, legs[b].summary.price) < |fills|
  {
    ExitLegPrices(fills);
    FirstSeenOrder(fills, ExitPriceOf);
  }

  /** The exit legs' prices are the distinct exit prices of the fills, in
      first-seen order. */
  lemma {:induction false} ExitLegPrices(fills: seq<Fill>)
    ensures |ExitLegs(fills)| == |FirstSeen(fills, ExitPriceOf)|
    ensures forall a :: 0 <= a < |ExitLegs(fills)| ==> ExitLegs(fills)[a].summary.price == FirstSeen(fills, ExitPriceOf)[a]
  {
  }

  /** Each exit leg carries the summed quantity and the summed per-fill
      profit of the fills that exited at its price, and is a take-profit
      exactly when that summed profit is positive, whatever the labels of
      the single fills. */
  lemma {:induction false} ExitLegsSumPerPrice(fills: seq<Fill>)
    ensures forall leg :: leg in ExitLegs(fills) ==>
      && leg.summary.qty == SumAt(fills, ExitPriceOf, leg.summary.price, QtyOf)
      && leg.summary.pnl == SumAt(fills, ExitPriceOf, leg.summary.price, ProfitOf)
      && (leg.kind == TakeProfit <==> leg.summary.pnl > 0)
  {
  }

  /** The quantities of the exit legs add up to the group's total quantity,
      and their profits to the sum of the fills' own profits. */
  lemma {:induction false} ExitLegsConserveQtyAndPnl(fills: seq<Fill>)
    ensures Sum(ExitLegs(fills), ExitLegQty) == Sum(fills, QtyOf)
    ensures Sum(ExitLegs(fills), ExitLegPnl) == Sum(fills, ProfitOf)
  {
    var prices := FirstSeen(fills, ExitPriceOf);
    SumOverPointwise(fills, ExitPriceOf, prices, QtyOf, ExitLegs(fills), ExitLegQty);
    SumOverFirstSeen(fills, ExitPriceOf, QtyOf);
    SumOverPointwise(fills, ExitPriceOf, prices, ProfitOf, ExitLegs(fills), ExitLegPnl);
    SumOverFirstSeen(fills, ExitPriceOf, ProfitOf);
  }

  /** A trade takes its account, position, entry time and instrument from
      the first fill of its group; the fields of later fills are ignored. */
  lemma {:induction false} TradeCopiesFirstFill(fills: seq<Fill>, t: Trade)
    requires TradeOf(fills) == Success(t)
    ensures fills != []
    ensures t.account == fills[0].account && t.marketPos == fills[0].marketPos
    ensures t.entryTime == fills[0].entryTime && t.instrument == fills[0].instrument
  {
    assert fills != [] && Sum(fills, QtyOf) != 0;
    assert t == Assemble(fills);
  }

  /** A trade's quantity is the non-zero total quantity of its group, and
      its average entry price is the group's average. */
  lemma {:induction false} TradeTotalsOfGroup(fills: seq<Fill>, t: Trade)
    requires TradeOf(fills) == Success(t)
    ensures t.qty == Sum(fills, QtyOf) != 0
    ensures t.avgEntryPrice == AveragePrice(fills)
  {
    assert fills != [] && Sum(fills, QtyOf) != 0;
    assert t == Assemble(fills);
  }

  /** A trade's legs are the entry and exit legs of its group. */
  lemma {:induction false} TradeLegsOfGroup(fills: seq<Fill>, t: Trade)
    requires TradeOf(fills) == Success(t)
    ensures t.entries == EntryLegs(fills) && t.exits == ExitLegs(fills)
  {
    assert fills != [] && Sum(fills, QtyOf) != 0;
    assert t == Assemble(fills);
  }

  /** The average entry price is the quantity-weighted mean of the entry
      prices: times the total quantity it gives back the total
      price-times-quantity. */
  lemma {:induction false} AverageTimesQty(fills: seq<Fill>)
    requires Sum(fills, QtyOf) != 0
    ensures Weighted(AveragePrice(fills), Sum(fills, QtyOf)) == Sum(fills, NotionalOf) as real
  {
    QuotientTimesDivisor(AveragePrice(fills), Sum(fills, QtyOf), Sum(fills, NotionalOf));
  }

  /** A trade's average entry price times its quantity is the group's total
      price-times-quantity. */
  lemma {:induction false} TradeAverageTimesQty(fills: seq<Fill>, t: Trade)
    requires TradeOf(fills) == Success(t)
    ensures t.qty == Sum(fills, QtyOf)
    ensures Weighted(t.avgEntryPrice, t.qty) == Sum(fills, NotionalOf) as real
  {
    TradeTotalsOfGroup(fills, t);
    AverageTimesQty(fills);
  }

  /** A price weighted by a quantity. */
  function Weighted(price: real, qty: int): real {
    price * qty as real
  }

  lemma {:induction false} QuotientTimesDivisor(q: real, den: int, num: int)
    requires den != 0 && q == num as real / den as real
    ensures q * den as real == num as real
  {
  }

  /** A group of one fill makes a trade whose only exit leg is that fill's
      own exit summary under that fill's own exit label. */
  lemma {:induction false} SingleFillTrade(f: Fill)
    requires f.qty != 0
    ensures TradeOf([f]).Success?
    ensures TradeOf([f]).value.avgEntryPrice == f.entryPrice as real
    ensures TradeOf([f]).value.entries == [EntryLeg(f.entryPrice, f.qty)]
    ensures TradeOf([f]).value.exits == [ExitLeg(f.ExitTypeOf(), f.Exit())]
  {
    var s := [f];
    assert s[..0] == [];
    assert Sum(s, QtyOf) == f.qty;
    assert Sum(s, NotionalOf) == f.entryPrice * f.qty;
    assert f.entryPrice as real * f.qty as real == (f.entryPrice * f.qty) as real;
    assert FirstSeen(s, EntryPriceOf) == [f.entryPrice];
    assert FirstSeen(s, ExitPriceOf) == [f.exitPrice];
    assert SumAt(s, EntryPriceOf, f.entryPrice, QtyOf) == f.qty;
    assert SumAt(s, ExitPriceOf, f.exitPrice, QtyOf) == f.qty;
    assert SumAt(s, ExitPriceOf, f.exitPrice, ProfitOf) == f.Profit();
  }

  // A worked group: two long fills entered at 100 (2 lots) and 102 (3
  // lots), both exiting at 105.

  const ExampleFirst: Fill := Fill("acct", Long, 100, 105, 2, "t0", "t1", "ES")
  const ExampleSecond: Fill := Fill("acct", Long, 102, 105, 3, "t0", "t2", "ES")

  /** The worked group has one entry leg per entry price, in order. */
  lemma {:induction false} ExampleEntryLegs()
    ensures EntryLegs([ExampleFirst, ExampleSecond]) == [EntryLeg(100, 2), EntryLeg(102, 3)]
  {
    var s := [ExampleFirst, ExampleSecond];
    assert s[..1] == [ExampleFirst] && [ExampleFirst][..0] == [];
    assert FirstSeen([ExampleFirst], EntryPriceOf) == [100];
    assert FirstSeen(s, EntryPriceOf) == [100, 102];
    assert SumAt([ExampleFirst], EntryPriceOf, 100, QtyOf) == 2;
    assert SumAt([ExampleFirst], EntryPriceOf, 102, QtyOf) == 0;
    assert SumAt(s, EntryPriceOf, 100, QtyOf) == 2;
    assert SumAt(s, EntryPriceOf, 102, QtyOf) == 3;
  }

  /** The worked group has a single exit leg: a take-profit of 5 lots whose
      pnl is 5 * 2 + 3 * 3 = 19 ticks. */
  lemma {:induction false} ExampleExitLegs()
    ensures ExitLegs([ExampleFirst, ExampleSecond]) == [ExitLeg(TakeProfit, ExitSummary(105, 5, 19))]
  {
    var s := [ExampleFirst, ExampleSecond];
    assert s[..1] == [ExampleFirst] && [ExampleFirst][..0] == [];
    assert FirstSeen([ExampleFirst], ExitPriceOf) == [105];
    assert FirstSeen(s, ExitPriceOf) == [105];
    assert SumAt([ExampleFirst], ExitPriceOf, 105, QtyOf) == 2;
    assert SumAt(s, ExitPriceOf, 105, QtyOf) == 5;
    assert ExampleFirst.Profit() == 10 && ExampleSecond.Profit() == 9;
    assert SumAt([ExampleFirst], ExitPriceOf, 105, ProfitOf) == 10;
    assert SumAt(s, ExitPriceOf, 105, ProfitOf) == 19;
  }

  /** The worked group's total quantity is 5 and its average entry price is
      (100 * 2 + 102 * 3) / 5. */
  lemma {:induction false} ExampleAverage()
    ensures Sum([ExampleFirst, ExampleSecond], QtyOf) == 5
    ensures AveragePrice([ExampleFirst, ExampleSecond]) == 506.0 / 5.0
  {
    var s := [ExampleFirst, ExampleSecond];
    assert s[..1] == [ExampleFirst] && [ExampleFirst][..0] == [];
    assert Sum([ExampleFirst], QtyOf) == 2;
    assert Sum(s, QtyOf) == 5;
    assert Sum([ExampleFirst], NotionalOf) == 200;
    assert Sum(s, NotionalOf) == 506;
  }

  // ---------------------------------------------------------------------
  // The average entry price

  /** The lowest entry price of a non-empty group. */
  function MinEntryPrice(fills: seq<Fill>): (m: int)
    requires fills != []
    ensures forall i :: 0 <= i < |fills| ==> m <= fills[i].entryPrice
    ensures exists i :: 0 <= i < |fills| && fills[i].entryPrice == m
  {
    var n := |fills| - 1;
    if n == 0 then fills[0].entryPrice
    else
      var m' := MinEntryPrice(fills[..n]);
      assert forall i :: 0 <= i < n ==> fills[..n][i] == fills[i];
      if fills[n].entryPrice < m' then fills[n].entryPrice else m'
  }

  /** The highest entry price of a non-empty group. */
  function MaxEntryPrice(fills: seq<Fill>): (m: int)
    requires fills != []
    ensures forall i :: 0 <= i < |fills| ==> fills[i].entryPrice <= m
    ensures exists i :: 0 <= i < |fills| && fills[i].entryPrice == m
  {
    var n := |fills| - 1;
    if n == 0 then fills[0].entryPrice
    else
      var m' := MaxEntryPrice(fills[..n]);
      assert forall i :: 0 <= i < n ==> fills[..n][i] == fills[i];
      if fills[n].entryPrice > m' then fills[n].entryPrice else m'
  }

  /** With positive quantities, the total price-times-quantity lies between
      the bounds of the entry prices times the total quantity. */
  lemma {:induction false} NotionalBounds(fills: seq<Fill>, lo: int, hi: int)
    requires forall i :: 0 <= i < |fills| ==> fills[i].qty > 0 && lo <= fills[i].entryPrice <= hi
    ensures lo * Sum(fills, QtyOf) <= Sum(fills, NotionalOf) <= hi * Sum(fills, QtyOf)
    ensures fills != [] ==> Sum(fills, QtyOf) > 0
  {
    if fills != [] {
      var n := |fills| - 1;
      var p := fills[..n];
      assert forall i :: 0 <= i < |p| ==> p[i] == fills[i];
      NotionalBounds(p, lo, hi);
      var f := fills[n];
      var q, nq := Sum(p, QtyOf), Sum(p, NotionalOf);
      assert Sum(fills, QtyOf) == q + f.qty;
      assert Sum(fills, NotionalOf) == nq + f.entryPrice * f.qty;
      ScaledBetween(lo, f.entryPrice, hi, f.qty);
      assert lo * (q + f.qty) == lo * q + lo * f.qty;
      assert hi * (q + f.qty) == hi * q + hi * f.qty;
    }
  }

  lemma {:induction false} ScaledBetween(lo: int, x: int, hi: int, k: int)
    requires lo <= x <= hi && k > 0
    ensures lo * k <= x * k <= hi * k
  {
  }

  /** A quotient whose numerator lies between lo and hi times its positive
      denominator lies between lo and hi. */
  lemma {:induction false} QuotientBetween(q: real, num: int, den: int, lo: int, hi: int)
    requires den > 0 && q * den as real == num as real
    requires lo * den <= num <= hi * den
    ensures lo as real <= q <= hi as real
  {
    assert (lo * den) as real == lo as real * den as real;
    assert (hi * den) as real == hi as real * den as real;
  }

  /** A non-empty group with positive quantities always makes a trade,
      and its quantity is positive. */
  lemma {:induction false} PositiveGroupMakesTrade(fills: seq<Fill>)
    requires fills != []
    requires forall i :: 0 <= i < |fills| ==> fills[i].qty > 0
    ensures TradeOf(fills).Success? && TradeOf(fills).value.qty > 0
  {
    NotionalBounds(fills, MinEntryPrice(fills), MaxEntryPrice(fills));
    var r := TradeOf(fills);
    assert r.Success?;
    TradeTotalsOfGroup(fills, r.value);
  }

  /** With positive quantities the average entry price, the
      quantity-weighted mean of the entry prices, lies between the lowest
      and the highest of them. */
  lemma {:induction false} AverageEntryBetweenMinAndMax(fills: seq<Fill>)
    requires fills != []
    requires forall i :: 0 <= i < |fills| ==> fills[i].qty > 0
    ensures Sum(fills, QtyOf) > 0
    ensures MinEntryPrice(fills) as real <= AveragePrice(fills) <= MaxEntryPrice(fills) as real
  {
    AverageBetween(fills, MinEntryPrice(fills), MaxEntryPrice(fills));
  }

  /** With positive quantities and entry prices between lo and hi, the
      average entry price lies between lo and hi. */
  lemma {:induction false} AverageBetween(fills: seq<Fill>, lo: int, hi: int)
    requires fills != []
    requires forall i :: 0 <= i < |fills| ==> fills[i].qty > 0 && lo <= fills[i].entryPrice <= hi
    ensures Sum(fills, QtyOf) > 0
    ensures lo as real <= AveragePrice(fills) <= hi as real
  {
    NotionalBounds(fills, lo, hi);
    var qty, notional := Sum(fills, QtyOf), Sum(fills, NotionalOf);
    AverageTimesQty(fills);
    QuotientBetween(AveragePrice(fills), notional, qty, lo, hi);
  }
}
