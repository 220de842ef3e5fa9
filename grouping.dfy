/** Turning the flat list of fills into trades (`create_trades` of main.py):
    fills are grouped by the exact pair (entry time, instrument), the groups
    come out in the order their key was first seen, and each group becomes
    one trade. */
module Grouping {
  import opened Wrappers
  import opened Seqs
  import opened Fills
  import opened Trades

  /** The grouping key of a fill. */
  type Key = (string, string)

  function KeyOf(f: Fill): Key {
    (f.entryTime, f.instrument)
  }

  /** Two fills share a key exactly when they share their entry time and
      their instrument; account, position, prices, quantity and exit time
      play no part. */
  lemma {:induction false} SameKey(f: Fill, g: Fill)
    ensures KeyOf(f) == KeyOf(g) <==> f.entryTime == g.entryTime && f.instrument == g.instrument
  {
  }

  /** The distinct keys of the fills, in first-seen order. */
  function GroupKeys(fills: seq<Fill>): seq<Key> {
    FirstSeen(fills, KeyOf)
  }

  /** One group per distinct key: the fills with that key, in input order. */
  function Groups(fills: seq<Fill>): (gs: seq<seq<Fill>>)
    ensures |gs| == |GroupKeys(fills)|
    ensures forall i :: 0 <= i < |gs| ==> gs[i] == Filter(fills, KeyOf, GroupKeys(fills)[i])
  {
    GroupsBy(fills, KeyOf, GroupKeys(fills))
  }

  /** One trade per group, in order; the first group that makes no trade
      ends the whole run with its error and no trades. */
  function TradesOf(groups: seq<seq<Fill>>): Result<seq<Trade>, TradeError> {
    MapAll(groups, TradeOf)
  }

  // ---------------------------------------------------------------------
  // The loops of create_trades

  /** The first loop of create_trades: a dictionary from key to the list of
      fills seen so far with that key, with its keys in insertion order. */
  method CollectGroups(fills: seq<Fill>) returns (keys: seq<Key>, uniqueSets: map<Key, seq<Fill>>)
    ensures keys == GroupKeys(fills)
    ensures forall k :: k in uniqueSets <==> k in keys
    ensures forall k :: k in uniqueSets ==> uniqueSets[k] == Filter(fills, KeyOf, k)
  {
    keys, uniqueSets := [], map[];
    for i := 0 to |fills|
      invariant keys == FirstSeen(fills[..i], KeyOf)
      invariant forall k :: k in uniqueSets <==> k in keys
      invariant forall k :: k in uniqueSets ==> uniqueSets[k] == Filter(fills[..i], KeyOf, k)
    {
      var f := fills[i];
      var key := KeyOf(f);
      FirstSeenStep(fills, KeyOf, i);
      if key !in uniqueSets {
        FilterAbsent(fills[..i], KeyOf, key);
        keys := keys + [key];
        uniqueSets := uniqueSets[key := [f]];
      } else {
        uniqueSets := uniqueSets[key := uniqueSets[key] + [f]];
      }
      forall k | k in uniqueSets
        ensures uniqueSets[k] == Filter(fills[..i + 1], KeyOf, k)
      {
        FilterStep(fills, KeyOf, k, i);
      }
    }
    assert fills[..|fills|] == fills;
  }

  /** create_trades: collect the groups, then build one trade per group, in
      the insertion order of their keys. */
  method CreateTrades(fills: seq<Fill>) returns (r: Result<seq<Trade>, TradeError>)
    ensures r == TradesOf(Groups(fills))
  {
    var keys, uniqueSets := CollectGroups(fills);
    GroupsAreValues(fills, keys, uniqueSets);
    r := BuildTrades(Values(keys, uniqueSets));
  }

  /** The list comprehension of create_trades: one trade per group, in
      order, stopping at the first group whose trade cannot be made. */
  method BuildTrades(groups: seq<seq<Fill>>) returns (r: Result<seq<Trade>, TradeError>)
    ensures r == TradesOf(groups)
  {
    var trades: seq<Trade> := [];
    for i := 0 to |groups|
      invariant MapAll(groups[..i], TradeOf) == Success(trades)
    {
      var t := NewTrade(groups[i]);
      if t.Failure? {
        MapAllStopsAt(groups, TradeOf, i, trades);
        return Failure(t.error);
      }
      MapAllStep(groups, TradeOf, i, trades, t.value);
      trades := trades + [t.value];
    }
    assert groups[..|groups|] == groups;
    r := Success(trades);
  }

  /** The values of the dictionary, read in the insertion order of its
      keys, are the groups. */
  lemma {:induction false} GroupsAreValues(fills: seq<Fill>, keys: seq<Key>, uniqueSets: map<Key, seq<Fill>>)
    requires keys == GroupKeys(fills)
    requires forall k :: k in uniqueSets <==> k in keys
    requires forall k :: k in uniqueSets ==> uniqueSets[k] == Filter(fills, KeyOf, k)
    ensures forall k :: k in keys ==> k in uniqueSets
    ensures Values(keys, uniqueSets) == Groups(fills)
  {
    var values := Values(keys, uniqueSets);
    forall j | 0 <= j < |keys|
      ensures values[j] == Groups(fills)[j]
    {
      assert keys[j] in keys;
    }
  }

  /** The values of a dictionary, read in the insertion order given by keys. */
  function Values(keys: seq<Key>, m: map<Key, seq<Fill>>): (vs: seq<seq<Fill>>)
    requires forall k :: k in keys ==> k in m
    ensures |vs| == |keys|
    ensures forall j :: 0 <= j < |keys| ==> vs[j] == m[keys[j]]
  {
    seq(|keys|, j requires 0 <= j < |keys| => m[keys[j]])
  }

  // ---------------------------------------------------------------------
  // Grouping is a partition

  /** There is one group per distinct key, and every group is non-empty. */
  lemma {:induction false} GroupsNonEmpty(fills: seq<Fill>)
    ensures |Groups(fills)| == |GroupKeys(fills)|
    ensures forall i :: 0 <= i < |Groups(fills)| ==> Groups(fills)[i] != []
  {
    var ks, gs := GroupKeys(fills), Groups(fills);
    forall i | 0 <= i < |gs| ensures gs[i] != [] {
      assert ks[i] in ks;
      var j :| 0 <= j < |fills| && KeyOf(fills[j]) == ks[i];
      assert fills[j] in gs[i];
    }
  }

  /** The keys of distinct groups are distinct, and a fill belongs to a
      group exactly when it carries that group's key, so every fill belongs
      to exactly one group. */
  lemma {:induction false} GroupsByKey(fills: seq<Fill>)
    ensures NoDuplicates(GroupKeys(fills))
    ensures forall j :: 0 <= j < |fills| ==> exists i :: 0 <= i < |GroupKeys(fills)| && GroupKeys(fills)[i] == KeyOf(fills[j])
    ensures forall i, j :: 0 <= i < |Groups(fills)| && 0 <= j < |fills| ==>
      (fills[j] in Groups(fills)[i] <==> KeyOf(fills[j]) == GroupKeys(fills)[i])
  {
    var ks := GroupKeys(fills);
    forall j | 0 <= j < |fills| ensures exists i :: 0 <= i < |ks| && ks[i] == KeyOf(fills[j]) {
      assert KeyOf(fills[j]) in ks;
    }
  }

  /** Every fill of a group carries the group's key, and together the groups
      hold every fill exactly as often as the input does. */
  lemma {:induction false} GroupsPartition(fills: seq<Fill>)
    ensures forall i, f :: 0 <= i < |Groups(fills)| && f in Groups(fills)[i] ==> KeyOf(f) == GroupKeys(fills)[i]
    ensures multiset(Flatten(Groups(fills))) == multiset(fills)
  {
    GroupsArePermutation(fills, KeyOf);
  }

  /** Groups come out in the order their key first appears among the fills,
      and each group starts with the first fill that carries its key. */
  lemma {:induction false} GroupsInFirstSeenOrder(fills: seq<Fill>)
    ensures var ks, gs := GroupKeys(fills), Groups(fills);
      && (forall a, b :: 0 <= a < b < |ks| ==>
            FirstIndex(fills, KeyOf, ks[a]) < FirstIndex(fills, KeyOf, ks[b]) < |fills|)
      && (forall a :: 0 <= a < |gs| ==> gs[a] != [] && gs[a][0] == fills[FirstIndex(fills, KeyOf, ks[a])])
  {
    var ks := GroupKeys(fills);
    FirstSeenOrder(fills, KeyOf);
    forall a | 0 <= a < |ks|
      ensures Filter(fills, KeyOf, ks[a]) != [] && Filter(fills, KeyOf, ks[a])[0] == fills[FirstIndex(fills, KeyOf, ks[a])]
    {
      FilterHeadIsFirst(fills, KeyOf, ks[a]);
    }
  }

  /** Two fills with the same key keep their input order inside their
      group. */
  lemma {:induction false} GroupKeepsInputOrder(fills: seq<Fill>, i: nat, j: nat)
    requires i < j < |fills|
    requires KeyOf(fills[i]) == KeyOf(fills[j])
    ensures exists a :: 0 <= a < |GroupKeys(fills)| && GroupKeys(fills)[a] == KeyOf(fills[j])
    ensures forall a :: 0 <= a < |GroupKeys(fills)| && GroupKeys(fills)[a] == KeyOf(fills[j]) ==>
      var g := Groups(fills)[a];
      Rank(fills, KeyOf, i) < Rank(fills, KeyOf, j) < |g|
      && g[Rank(fills, KeyOf, i)] == fills[i]
      && g[Rank(fills, KeyOf, j)] == fills[j]
  {
    assert KeyOf(fills[j]) in GroupKeys(fills);
    FilterKeepsOrder(fills, KeyOf, i, j);
  }

  // ---------------------------------------------------------------------
  // Trades of the groups

  /** Grouping never hands the trade constructor an empty group. */
  lemma {:induction false} CreateTradesNeverEmptyGroup(fills: seq<Fill>)
    ensures TradesOf(Groups(fills)) != Failure(EmptyGroup)
  {
    GroupsNonEmpty(fills);
    MapAllNeverFailsWith(Groups(fills), TradeOf, EmptyGroup);
  }

  /** When every quantity is positive every group makes a trade, so
      create_trades succeeds. */
  lemma {:induction false} CreateTradesSucceedOnPositiveQty(fills: seq<Fill>)
    requires forall i :: 0 <= i < |fills| ==> fills[i].qty > 0
    ensures TradesOf(Groups(fills)).Success?
  {
    var gs := Groups(fills);
    GroupsNonEmpty(fills);
    forall a | 0 <= a < |gs| ensures TradeOf(gs[a]).Success? {
      forall k | 0 <= k < |gs[a]| ensures gs[a][k].qty > 0 {
        assert gs[a][k] in gs[a];
        assert gs[a][k] in fills;
      }
      PositiveGroupMakesTrade(gs[a]);
    }
    MapAllSucceeds(gs, TradeOf);
  }

  /** The trades' quantities add up to the total quantity of the fills. */
  lemma {:induction false} CreateTradesConserveQty(fills: seq<Fill>, trades: seq<Trade>)
    requires TradesOf(Groups(fills)) == Success(trades)
    ensures Sum(trades, TradeQty) == Sum(fills, QtyOf)
  {
    var ks, gs := GroupKeys(fills), Groups(fills);
    MapAllPointwise(gs, TradeOf, trades);
    forall a | 0 <= a < |trades| ensures TradeQty(trades[a]) == SumAt(fills, KeyOf, ks[a], QtyOf) {
      TradeTotalsOfGroup(gs[a], trades[a]);
      SumFilter(fills, KeyOf, ks[a], QtyOf);
    }
    SumOverPointwise(fills, KeyOf, ks, QtyOf, trades, TradeQty);
    SumOverFirstSeen(fills, KeyOf, QtyOf);
  }

  /** There is one trade per distinct key, in first-seen order; each trade
      carries its group's key, and the account and position of the first
      fill with that key. */
  lemma {:induction false} CreateTradesHeaders(fills: seq<Fill>, trades: seq<Trade>)
    requires TradesOf(Groups(fills)) == Success(trades)
    ensures |trades| == |GroupKeys(fills)|
    ensures forall a :: 0 <= a < |trades| ==>
      var n := FirstIndex(fills, KeyOf, GroupKeys(fills)[a]);
      && n < |fills|
      && (trades[a].entryTime, trades[a].instrument) == GroupKeys(fills)[a]
      && trades[a].account == fills[n].account
      && trades[a].marketPos == fills[n].marketPos
  {
    var ks, gs := GroupKeys(fills), Groups(fills);
    MapAllPointwise(gs, TradeOf, trades);
    forall a | 0 <= a < |trades|
      ensures FirstIndex(fills, KeyOf, ks[a]) < |fills|
      ensures (trades[a].entryTime, trades[a].instrument) == ks[a]
      ensures trades[a].account == fills[FirstIndex(fills, KeyOf, ks[a])].account
      ensures trades[a].marketPos == fills[FirstIndex(fills, KeyOf, ks[a])].marketPos
    {
      GroupTradeHeader(fills, a, trades[a]);
    }
  }

  /** The trade of the a-th group takes its key, account and position from
      the first fill carrying that group's key. */
  lemma {:induction false} GroupTradeHeader(fills: seq<Fill>, a: nat, t: Trade)
    requires a < |GroupKeys(fills)|
    requires TradeOf(Groups(fills)[a]) == Success(t)
    ensures FirstIndex(fills, KeyOf, GroupKeys(fills)[a]) < |fills|
    ensures (t.entryTime, t.instrument) == GroupKeys(fills)[a]
    ensures t.account == fills[FirstIndex(fills, KeyOf, GroupKeys(fills)[a])].account
    ensures t.marketPos == fills[FirstIndex(fills, KeyOf, GroupKeys(fills)[a])].marketPos
  {
    TradeCopiesFirstFill(Groups(fills)[a], t);
    GroupHead(fills, KeyOf, a);
  }
}
