# NinjaTrader trades organizer: grouping fills into trades

This project models, in Dafny, the core of a small Python tool (`main.py`).
The tool turns the rows of a NinjaTrader trade-performance export into
trades. Each row is one fill: an entry and an exit of some quantity at two
prices, with an account, a market position ("Long" or anything else), an
entry time and an instrument.

The modelled core has three parts:

- **One fill** (`EntryExit`, module `Fills`). A fill has a signed profit:
  the price move times the quantity, negated unless the position is
  exactly "Long". Its exit label is take-profit when that profit is
  strictly positive and stop otherwise. Its exit summary is the record
  {price, Qty, Pnl}.
- **One trade** (`Trade`, module `Trades`). A trade is built from a
  non-empty group of fills:
  - its quantity is the summed quantity;
  - its average entry price is the quantity-weighted mean of the entry
    prices;
  - its entry legs are one per distinct entry price, and its exit legs
    one per distinct exit price, each in first-seen order with summed
    quantity;
  - each exit leg also carries the summed profit and a label taken from
    that sum;
  - its account, position, entry time and instrument come from the first
    fill.
- **`create_trades`** (module `Grouping`). It groups the fills by the pair
  (entry time, instrument) in an insertion-ordered dictionary, then builds
  one trade per group in key order.

How the model is built:

- Prices and quantities are whole numbers (ticks), so sums and products are
  exact. The average entry price is an exact `real` quotient.
- The Python dictionaries (`defaultdict(int)` and the `unique_sets` dict)
  are a sequence of keys in insertion order plus a `map`.
- The loops of `aggregate_entries`, `get_exits` and `create_trades` are
  methods, and so is the constructor `Trade.__init__` (`Trades.NewTrade`).
  Each is proved equal to a specification function, and the promised
  properties are proved as lemmas about those functions.
- The exceptions become a `Result`:
  - the `ValueError` for an empty group is `EmptyGroup`;
  - the `ZeroDivisionError` of the average, raised when quantities sum to
    zero, is `ZeroTotalQty`;
  - the list comprehension stops at the first group that raises
    (`Wrappers.MapAll`).
- Module `Seqs` holds the generic sequence facts the proofs rest on: sums,
  filters, first-seen keys, and grouping as a partition.

## Model

| member | source | states |
|---|---|---|
| Fills.Fill.Profit | main.py:44-48 | A long fill earns the exit price minus the entry price per lot; a fill with any other position earns the entry price minus the exit price per lot. A fill whose price did not move, or whose quantity is zero, earns nothing. |
| Fills.Fill.ExitTypeOf | main.py:34-38 | `get_exit_type` is a take-profit exactly when the fill's profit is strictly positive, and a stop exactly when it is zero or negative. |
| Fills.ProfitSign | main.py:44-48 | For a positive quantity, the profit is positive exactly when the price moved in the position's favour: up for "Long", down for any other position. It is zero exactly when the price did not move. |
| Fills.NonLongIsShort | main.py:46-48 | Any position other than exactly "Long" earns what "Short" earns, and the opposite of what "Long" earns on the same prices. |
| Fills.Label | main.py:34-38 | The label is take-profit exactly when the profit is strictly positive, and stop exactly when it is zero or negative. |
| Fills.ExitTypeFollowsPriceMove | main.py:34-38 | For a positive quantity, a fill is a take-profit exactly when the price moved in its favour. A fill whose price did not move is a stop. |
| Fills.Fill.Exit | main.py:40-42 | The exit summary carries the fill's exit price, its quantity and its profit as the pnl, so the pnl's label is the fill's own exit type. |
| Trades.TradeOf | main.py:63-71 | A group fails with EmptyGroup exactly when it is empty. It fails with ZeroTotalQty exactly when it is non-empty and its quantities sum to zero. Otherwise it makes a trade. |
| Trades.NewTrade | main.py:63-84 | The constructor's steps give exactly the trade, or the error, that TradeOf specifies. |
| Trades.TradeTotalsOfGroup | main.py:68-71 | A trade's quantity is the group's non-zero total quantity. Its average entry price is the group's average. |
| Trades.AverageTimesQty | main.py:68-71 | The average entry price times the total quantity gives back the total of entry price times quantity. |
| Trades.TradeAverageTimesQty | main.py:68-71 | For every trade made: Avg_entry_price × Qty = Σ entry price × qty, and Qty = Σ qty. |
| Trades.AverageEntryBetweenMinAndMax | main.py:68-71 | With every quantity positive, the total quantity is positive. The average entry price then lies between the group's lowest and highest entry price. |
| Trades.PositiveGroupMakesTrade | main.py:63-71 | A non-empty group with positive quantities always makes a trade, and the trade's quantity is positive. |
| Trades.TradeCopiesFirstFill | main.py:80-84 | A trade's account, position, entry time and instrument are those of the first fill of its group. Later fills are ignored. |
| Trades.TradeLegsOfGroup | main.py:73-77 | A trade's entry and exit legs are the entry and exit legs of its group. |
| Trades.SingleFillTrade | main.py:63-104 | A one-fill group makes a trade with these fields. The average is the fill's entry price. There is one entry leg: that price and the fill's quantity. There is one exit leg: the fill's own exit summary under the fill's own label. |
| Trades.ExampleEntryLegs | main.py:86-90 | Two fills entered at 100 (2 lots) and 102 (3 lots) give the entry legs {100, 2} and {102, 3}, in that order. |
| Trades.ExampleExitLegs | main.py:92-104 | The same two long fills, both exiting at 105, give one take-profit exit leg {105, 5, 19}: 19 is 5 × 2 + 3 × 3. |
| Trades.ExampleAverage | main.py:68-71 | The same two fills have a total quantity of 5 and an average entry price of 506 / 5. |
| Trades.TallyQty | main.py:87-89 | The loop shared by `aggregate_entries` and `get_exits` works on the dictionary whose missing keys read as zero. The prices come out in first-seen order, the dictionary holds exactly those prices, and each maps to the summed quantity of the fills at that price. |
| Trades.AggregateEntries | main.py:86-90 | The entry legs built by the loop are exactly EntryLegs: one leg per first-seen entry price, carrying the summed quantity at that price. |
| Trades.GetExits | main.py:92-104 | The exit legs built by the loops are exactly ExitLegs. Each leg has one first-seen exit price, the summed quantity and summed profit at that price, and the label of that sum. |
| Trades.EntryLegPrices | main.py:87-90 | The entry legs' prices are the distinct entry prices, in first-seen order. |
| Trades.EntryLegsDistinctPrices | main.py:86-90 | No two entry legs share a price. Each leg's quantity is the summed quantity of the fills entered at its price. |
| Trades.EntryLegsCoverFills | main.py:88-89 | Every fill's entry price has an entry leg. |
| Trades.EntryLegsComeFromFills | main.py:88-90 | Every entry leg's price is the entry price of some fill. |
| Trades.EntryLegsInFirstSeenOrder | main.py:87-90 | The entry legs come in the order their prices first occur among the fills. |
| Trades.EntryLegsConserveQty | main.py:86-90 | The entry legs' quantities add up to the group's total quantity, which is the trade's Qty. |
| Trades.ExitLegPrices | main.py:93-98 | The exit legs' prices are the distinct exit prices, in first-seen order. |
| Trades.ExitLegsDistinctPrices | main.py:92-104 | No two exit legs share a price. |
| Trades.ExitLegsCoverFills | main.py:94-95 | Every fill's exit price has an exit leg. |
| Trades.ExitLegsComeFromFills | main.py:94-98 | Every exit leg's price is the exit price of some fill. |
| Trades.ExitLegsInFirstSeenOrder | main.py:93-98 | The exit legs come in the order their prices first occur among the fills. |
| Trades.ExitLegsSumPerPrice | main.py:98-101 | Each exit leg carries the summed quantity and the summed per-fill profit at its price. It is a take-profit exactly when that summed profit is positive, whatever the single fills' labels. |
| Trades.ExitLegsConserveQtyAndPnl | main.py:92-104 | The exit legs' quantities add up to the group's total quantity. Their pnls add up to the sum of the fills' own profits. |
| Grouping.SameKey | main.py:131 | Two fills share a grouping key (`KeyOf`) exactly when they share their entry time and their instrument; no other field matters. |
| Grouping.Groups | main.py:128-136 | There is one group per distinct key, in first-seen order, and each group is the fills with that key in input order. |
| Grouping.CollectGroups | main.py:128-136 | The keys come out in first-seen order. The dictionary holds exactly those keys, each mapped to the fills with that key in input order. |
| Grouping.GroupsAreValues | main.py:138 | The dictionary's values, read in key insertion order, are the groups. |
| Grouping.BuildTrades | main.py:138 | The comprehension's loop gives one trade per group, in order, or the error of the first group that makes none (MapAll of TradeOf). |
| Grouping.CreateTrades | main.py:127-139 | create_trades gives exactly the all-or-nothing map of TradeOf over the groups. |
| Grouping.GroupsNonEmpty | main.py:133-136 | There is one group per distinct key, and no group is empty. |
| Grouping.GroupsByKey | main.py:130-136 | The group keys are distinct, and every fill's key is a group key. A fill is in a group exactly when it carries that group's key, so each fill is in exactly one group. |
| Grouping.GroupsPartition | main.py:130-136 | Every fill of a group carries the group's key. Together the groups hold every input fill exactly as often as the input does (equal multisets). |
| Grouping.GroupsInFirstSeenOrder | main.py:130-138 | Groups come out in the order their key first occurs. Each group starts with the first fill carrying its key. |
| Grouping.GroupKeepsInputOrder | main.py:133-136 | Two fills with the same key keep their input order inside their group. |
| Grouping.CreateTradesNeverEmptyGroup | main.py:64-65 | create_trades never hands the constructor an empty group, so it never fails with EmptyGroup. |
| Grouping.CreateTradesSucceedOnPositiveQty | main.py:127-139 | When every quantity is positive, create_trades succeeds. |
| Grouping.CreateTradesConserveQty | main.py:127-139 | The trades' quantities add up to the total quantity of the fills. |
| Grouping.CreateTradesHeaders | main.py:127-139 | There is one trade per distinct key. Each trade carries its group's (entry time, instrument) key, and the account and position of the first fill with that key. |
| Wrappers.MapAll | main.py:138 | The comprehension succeeds exactly when the constructor succeeds on every group, and then has one trade per group. |
| Wrappers.MapAllPointwise | main.py:138 | A successful comprehension gives one result per group, and each is the constructor's result on that group. |
| Wrappers.MapAllFailsAtFirst | main.py:138 | A failed comprehension reports the error of the first group on which the constructor fails. Every group before it succeeds. |

## Left out

- CSV and file input are not modelled, because they are file I/O and a foreign library. This covers `parse_ninjatrader_csv`, `EntryExit.from_csv_row` and `Trade.from_csv_file`. The model starts from fills whose fields are already numbers.
- The top-level script and its writers are not modelled, because they are output only. This covers date stamping, JSON and CSV output, `trade_to_dict` and printing.
- The `__repr__` methods are not modelled.
- Exit legs are not rendered as the f-string `'{exit_type}: {exit_detail}'`. An exit leg is the structured record `ExitLeg(kind, ExitSummary(price, qty, pnl))` instead, and `ExitType` has no string values.
- Floating point is not modelled. Prices are whole ticks, and the average entry price is an exact rational quotient rather than a Python float.
- The exit time is carried on each fill but used nowhere, as in the source.
- Input is not validated, because `main.py` does not validate it. The model does the same:
  - any quantity is accepted;
  - any position other than exactly "Long" is priced as a short.

  Properties that need positive quantities take them as a precondition.
- The Python `ZeroDivisionError` of the average is the error `ZeroTotalQty` of `Trades.TradeOf`. It arises when a group's quantities sum to zero, which needs zero or negative quantities.
- `Trade` is a datatype built in one step, not a class whose constructor assigns its fields one by one. No field is changed after construction.
- The generator-expression sums of `Trade.__init__` and of the per-price profit in `get_exits` are the functions `Seqs.Sum` and `Seqs.SumAt`, not loops.
- `EntryExit.get_exit_type` is the function `Fills.Fill.ExitTypeOf`. `get_exits` does not call it: it labels each exit leg from the summed profit, and the model does the same.
