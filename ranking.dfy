/**
 * The manager-level stage both pipelines share: group the holdings by
 * (manager id, manager name) with `sum` of the amounts and `count` of the
 * rows, attach the first firstName, city and state of each manager id through a
 * left merge, sort by market value descending and add each manager's share
 * of the total, rounded to two decimals.
 */
module ManagerRanking {
  import opened Wrappers
  import opened Cells
  import opened Relational

  /** A row entering the manager aggregation. */
  datatype Holding = Holding(
    manager: IdCell,          // Manager_CNPJ (dashboard) or CNPJ_Administrador (batch)
    name: Option<string>,     // Manager_Name or Administrador
    market: real,             // VL_MERC_POS_FINAL of the fund
    cost: real,               // VL_CUSTO_POS_FINAL of the fund
    firstName: Option<string>,    // the third `first` column: Manager_Name or DENOM_SOCIAL
    city: Option<string>,     // MUN
    state: Option<string>)    // UF

  /** A row of `groupby([id, name]).agg(sum, sum, count)`. */
  datatype GroupTotal = GroupTotal(manager: IdCell, name: string, market: real, cost: real, funds: nat)

  /** A row of the per-id location table. */
  datatype Location = Location(manager: IdCell, firstName: Option<string>, city: Option<string>, state: Option<string>)

  /** A manager's row after the location merge. */
  datatype ManagerTotal = ManagerTotal(
    manager: IdCell, name: string, market: real, cost: real, funds: nat,
    firstName: Option<string>, city: Option<string>, state: Option<string>)

  /** A manager's row with its `Percentage_of_Total`. */
  datatype Ranked = Ranked(total: ManagerTotal, share: real)

  /** The valid-manager mask: the id is present and not the number 0. */
  predicate HasManager(h: Holding) { IsPresentNonZero(h.manager) }

  predicate HasName(h: Holding) { h.name.Some? }

  /** The two-column group key; a missing name drops the row from the groups. */
  function ManagerKey(h: Holding): Option<(IdCell, string)> {
    if h.name.Some? then Some((h.manager, h.name.value)) else None
  }

  function IdKey(h: Holding): Option<IdCell> { Some(h.manager) }
  function HoldingMarket(h: Holding): Option<real> { Some(h.market) }
  function HoldingCost(h: Holding): Option<real> { Some(h.cost) }
  function HoldingFirstName(h: Holding): Option<string> { h.firstName }
  function HoldingCity(h: Holding): Option<string> { h.city }
  function HoldingState(h: Holding): Option<string> { h.state }

  /** The holdings of manager `m` named `n`. */
  function RowsOf(hs: seq<Holding>, m: IdCell, n: string): (g: seq<Holding>)
    ensures forall h :: h in g <==> h in hs && h.manager == m && h.name == Some(n)
  {
    Group(hs, ManagerKey, (m, n))
  }

  /** The holdings of manager id `m`, whatever their name. */
  function RowsOfId(hs: seq<Holding>, m: IdCell): (g: seq<Holding>)
    ensures forall h :: h in g <==> h in hs && h.manager == m
  {
    Group(hs, IdKey, m)
  }

  // ------------------------------------------------------------ grouping

  function GroupTotalOf(hs: seq<Holding>, k: (IdCell, string)): GroupTotal {
    var g := RowsOf(hs, k.0, k.1);
    GroupTotal(k.0, k.1, SumOf(g, HoldingMarket), SumOf(g, HoldingCost), |g|)
  }

  function GroupTotalsFor(hs: seq<Holding>, ks: seq<(IdCell, string)>): (ts: seq<GroupTotal>)
    ensures |ts| == |ks| && forall i :: 0 <= i < |ks| ==> ts[i] == GroupTotalOf(hs, ks[i])
  {
    seq(|ks|, i requires 0 <= i < |ks| => GroupTotalOf(hs, ks[i]))
  }

  function GroupTotals(hs: seq<Holding>): seq<GroupTotal> {
    GroupTotalsFor(hs, GroupKeys(hs, ManagerKey))
  }

  // ------------------------------------------------------------ location

  /** The `first` firstName, city and state over the rows of manager id `m`. */
  function LocationOf(hs: seq<Holding>, m: IdCell): Location {
    var g := RowsOfId(hs, m);
    Location(m, FirstPresent(g, HoldingFirstName), FirstPresent(g, HoldingCity), FirstPresent(g, HoldingState))
  }

  /** `groupby([id]).agg(first, first, first)`: one location row per manager id. */
  function Locations(hs: seq<Holding>): (r: seq<Location>)
    ensures forall i, j :: 0 <= i < j < |r| ==> r[i].manager != r[j].manager
    ensures forall i :: 0 <= i < |r| ==> r[i] == LocationOf(hs, r[i].manager)
    ensures forall i :: 0 <= i < |hs| ==> exists j :: 0 <= j < |r| && r[j].manager == hs[i].manager
  {
    var ks := GroupKeys(hs, IdKey);
    var r := seq(|ks|, i requires 0 <= i < |ks| => LocationOf(hs, ks[i]));
    assert forall i :: 0 <= i < |hs| ==> hs[i].manager in ks by {
      forall i | 0 <= i < |hs| ensures hs[i].manager in ks {
        assert IdKey(hs[i]) == Some(hs[i].manager);
      }
    }
    assert forall i :: 0 <= i < |hs| ==> exists j :: 0 <= j < |r| && r[j].manager == hs[i].manager by {
      forall i | 0 <= i < |hs| ensures exists j :: 0 <= j < |r| && r[j].manager == hs[i].manager {
        var j :| 0 <= j < |ks| && ks[j] == hs[i].manager;
        assert r[j].manager == hs[i].manager;
      }
    }
    r
  }

  function Combine(t: GroupTotal, l: Option<Location>): ManagerTotal {
    match l
    case Some(x) => ManagerTotal(t.manager, t.name, t.market, t.cost, t.funds, x.firstName, x.city, x.state)
    case None => ManagerTotal(t.manager, t.name, t.market, t.cost, t.funds, None, None, None)
  }

  function ManagerOfTotal(t: GroupTotal): IdCell { t.manager }
  function ManagerOfLocation(l: Location): IdCell { l.manager }

  /** `merge(location_data, on=id, how='left')`. */
  function AttachLocations(ts: seq<GroupTotal>, locs: seq<Location>): (r: seq<ManagerTotal>)
    ensures |r| >= |ts|
  {
    var joined := LeftJoin(ts, locs, ManagerOfTotal, ManagerOfLocation);
    seq(|joined|, i requires 0 <= i < |joined| => Combine(joined[i].0, joined[i].1))
  }

  /**
   * Every id of the grouped table has exactly one row in the location table,
   * so the merge keeps one row per manager and hands it that id's location.
   */
  lemma AttachIsLookup(hs: seq<Holding>)
    ensures |AttachLocations(GroupTotals(hs), Locations(hs))| == |GroupTotals(hs)|
    ensures forall i :: 0 <= i < |GroupTotals(hs)| ==>
      AttachLocations(GroupTotals(hs), Locations(hs))[i] == Combine(GroupTotals(hs)[i], Some(LocationOf(hs, GroupTotals(hs)[i].manager)))
  {
    var ts := GroupTotals(hs);
    var locs := Locations(hs);
    TotalsMatchOnce(hs);
    LeftJoinSingleMatches(ts, locs, ManagerOfTotal, ManagerOfLocation);
  }

  lemma TotalsMatchOnce(hs: seq<Holding>)
    ensures forall i :: 0 <= i < |GroupTotals(hs)| ==>
      Matches(GroupTotals(hs)[i], Locations(hs), ManagerOfTotal, ManagerOfLocation) == [LocationOf(hs, GroupTotals(hs)[i].manager)]
  {
    var ts := GroupTotals(hs);
    var ks := GroupKeys(hs, ManagerKey);
    forall i | 0 <= i < |ts|
      ensures Matches(ts[i], Locations(hs), ManagerOfTotal, ManagerOfLocation) == [LocationOf(hs, ts[i].manager)]
    {
      var n :| 0 <= n < |hs| && ManagerKey(hs[n]) == Some(ks[i]);
      LocationMatch(hs, ts[i], n);
    }
  }

  /** A manager id of the holdings finds exactly its own row in the location table. */
  lemma LocationMatch(hs: seq<Holding>, t: GroupTotal, n: nat)
    requires n < |hs| && hs[n].manager == t.manager
    ensures Matches(t, Locations(hs), ManagerOfTotal, ManagerOfLocation) == [LocationOf(hs, t.manager)]
  {
    var locs := Locations(hs);
    var j :| 0 <= j < |locs| && locs[j].manager == hs[n].manager;
    UniqueMatch(t, locs, ManagerOfTotal, ManagerOfLocation, j);
  }

  function NoLocation(t: GroupTotal): ManagerTotal { Combine(t, None) }

  /**
   * The manager table before sorting: the grouped totals with the location
   * of their id attached (`withLocation`), or with null location columns.
   */
  function ManagerTotals(hs: seq<Holding>, withLocation: bool): (r: seq<ManagerTotal>)
    ensures |r| == |GroupTotals(hs)|
    ensures forall i :: 0 <= i < |r| ==>
      r[i] == Combine(GroupTotals(hs)[i], if withLocation then Some(LocationOf(hs, GroupTotals(hs)[i].manager)) else None)
  {
    var ts := GroupTotals(hs);
    if withLocation then
      AttachIsLookup(hs);
      AttachLocations(ts, Locations(hs))
    else
      seq(|ts|, i requires 0 <= i < |ts| => NoLocation(ts[i]))
  }

  function ManagerIds(r: seq<ManagerTotal>): (ks: seq<(IdCell, string)>)
    ensures |ks| == |r| && forall i :: 0 <= i < |r| ==> ks[i] == (r[i].manager, r[i].name)
  {
    seq(|r|, i requires 0 <= i < |r| => (r[i].manager, r[i].name))
  }

  /**
   * One row per (id, name) pair of a named holding, with that pair's sums and
   * row count.
   */
  lemma ManagerTotalsGroup(hs: seq<Holding>, withLocation: bool)
    ensures NoDuplicates(ManagerIds(ManagerTotals(hs, withLocation)))
    ensures forall m, n :: (m, n) in ManagerIds(ManagerTotals(hs, withLocation)) <==>
      exists i :: 0 <= i < |hs| && hs[i].manager == m && hs[i].name == Some(n)
    ensures forall t :: t in ManagerTotals(hs, withLocation) ==>
      && t.market == SumOf(RowsOf(hs, t.manager, t.name), HoldingMarket)
      && t.cost == SumOf(RowsOf(hs, t.manager, t.name), HoldingCost)
      && t.funds == |RowsOf(hs, t.manager, t.name)|
  {
    var r := ManagerTotals(hs, withLocation);
    assert ManagerIds(r) == GroupKeys(hs, ManagerKey);
    ManagerKeysOf(hs);
  }

  /** The group keys are the (manager id, name) pairs of the named holdings. */
  lemma ManagerKeysOf(hs: seq<Holding>)
    ensures forall m, n :: (m, n) in GroupKeys(hs, ManagerKey) <==>
      exists i :: 0 <= i < |hs| && hs[i].manager == m && hs[i].name == Some(n)
  {
    var ks := GroupKeys(hs, ManagerKey);
    forall m, n ensures (m, n) in ks <==> exists i :: 0 <= i < |hs| && hs[i].manager == m && hs[i].name == Some(n) {
      if (m, n) in ks {
        var i :| 0 <= i < |hs| && ManagerKey(hs[i]) == Some((m, n));
        assert hs[i].manager == m && hs[i].name == Some(n);
      }
      if exists i :: 0 <= i < |hs| && hs[i].manager == m && hs[i].name == Some(n) {
        var i :| 0 <= i < |hs| && hs[i].manager == m && hs[i].name == Some(n);
        assert ManagerKey(hs[i]) == Some((m, n));
      }
    }
  }

  /** With every holding's market value positive, every manager total is positive and counts a fund. */
  lemma ManagerTotalsPositive(hs: seq<Holding>, withLocation: bool)
    requires forall i :: 0 <= i < |hs| ==> hs[i].market > 0.0
    ensures forall t :: t in ManagerTotals(hs, withLocation) ==> t.market > 0.0 && t.funds >= 1
  {
    var r := ManagerTotals(hs, withLocation);
    var ks := GroupKeys(hs, ManagerKey);
    forall t | t in r ensures t.market > 0.0 && t.funds >= 1 {
      var i :| 0 <= i < |r| && r[i] == t;
      var n :| 0 <= n < |hs| && ManagerKey(hs[n]) == Some(ks[i]);
      GroupPositive(hs, n);
    }
  }

  /** The group of a named holding is non-empty, and positive when every market value is. */
  lemma GroupPositive(hs: seq<Holding>, n: nat)
    requires n < |hs| && hs[n].name.Some?
    requires forall i :: 0 <= i < |hs| ==> hs[i].market > 0.0
    ensures |RowsOf(hs, hs[n].manager, hs[n].name.value)| >= 1
    ensures SumOf(RowsOf(hs, hs[n].manager, hs[n].name.value), HoldingMarket) > 0.0
  {
    var g := RowsOf(hs, hs[n].manager, hs[n].name.value);
    assert hs[n] in g;
    forall j | 0 <= j < |g| ensures HoldingMarket(g[j]).Some? && HoldingMarket(g[j]).value > 0.0 {
      assert g[j] in hs;
    }
    SumOfPositive(g, HoldingMarket);
  }

  function TotalMarkets(r: seq<ManagerTotal>): (ms: seq<real>)
    ensures |ms| == |r| && forall i :: 0 <= i < |r| ==> ms[i] == r[i].market
  {
    seq(|r|, i requires 0 <= i < |r| => r[i].market)
  }

  lemma {:induction false} MarketsOfGroups(hs: seq<Holding>, ks: seq<(IdCell, string)>)
    ensures SumReals(TotalMarkets(seq(|ks|, i requires 0 <= i < |ks| => Combine(GroupTotalOf(hs, ks[i]), None))))
         == SumOverKeys(hs, ManagerKey, HoldingMarket, ks)
  {
    if ks != [] {
      var init := ks[..|ks| - 1];
      MarketsOfGroups(hs, init);
      var all := TotalMarkets(seq(|ks|, i requires 0 <= i < |ks| => Combine(GroupTotalOf(hs, ks[i]), None)));
      var front := TotalMarkets(seq(|init|, i requires 0 <= i < |init| => Combine(GroupTotalOf(hs, init[i]), None)));
      forall i | 0 <= i < |front| ensures all[i] == front[i] {
        assert init[i] == ks[i];
      }
      assert all[..|all| - 1] == front;
      SumRealsLast(all);
    }
  }

  /** The grouping conserves money: the manager totals add up to the market value of the named holdings. */
  lemma ManagerTotalsConserveMarket(hs: seq<Holding>, withLocation: bool)
    ensures SumReals(TotalMarkets(ManagerTotals(hs, withLocation))) == SumOf(Filter(hs, HasName), HoldingMarket)
  {
    var ks := GroupKeys(hs, ManagerKey);
    var bare := seq(|ks|, i requires 0 <= i < |ks| => Combine(GroupTotalOf(hs, ks[i]), None));
    assert TotalMarkets(ManagerTotals(hs, withLocation)) == TotalMarkets(bare);
    MarketsOfGroups(hs, ks);
    GroupSumsConserveTotal(hs, ManagerKey, HoldingMarket, HasName);
  }

  /**
   * The attached city and state are the first ones among the rows of the
   * manager id (all of its rows, whatever their name), and each is missing
   * exactly when none of those rows has one; without the location step they
   * are missing.
   */
  lemma ManagerTotalsLocation(hs: seq<Holding>, withLocation: bool, t: ManagerTotal)
    requires t in ManagerTotals(hs, withLocation)
    ensures !withLocation ==> t.city.None? && t.state.None? && t.firstName.None?
    ensures withLocation ==> (t.city.None? <==> forall i :: 0 <= i < |hs| && hs[i].manager == t.manager ==> hs[i].city.None?)
    ensures withLocation ==> (t.state.None? <==> forall i :: 0 <= i < |hs| && hs[i].manager == t.manager ==> hs[i].state.None?)
    ensures withLocation && t.city.Some? ==>
      exists i :: (0 <= i < |hs| && hs[i].manager == t.manager && hs[i].city == t.city
                   && forall j :: 0 <= j < i && hs[j].manager == t.manager ==> hs[j].city.None?)
    ensures withLocation && t.state.Some? ==>
      exists i :: (0 <= i < |hs| && hs[i].manager == t.manager && hs[i].state == t.state
                   && forall j :: 0 <= j < i && hs[j].manager == t.manager ==> hs[j].state.None?)
  {
    var r := ManagerTotals(hs, withLocation);
    var i :| 0 <= i < |r| && r[i] == t;
    if withLocation {
      assert t.city == FirstPresent(Group(hs, IdKey, t.manager), HoldingCity);
      assert t.state == FirstPresent(Group(hs, IdKey, t.manager), HoldingState);
      FirstCity(hs, t.manager);
      FirstState(hs, t.manager);
    }
  }

  /** `first` of the city over the rows of manager id `m`. */
  lemma FirstCity(hs: seq<Holding>, m: IdCell)
    ensures var c := FirstPresent(Group(hs, IdKey, m), HoldingCity);
      && (c.None? <==> forall i :: 0 <= i < |hs| && hs[i].manager == m ==> hs[i].city.None?)
      && (c.Some? ==> exists i :: (0 <= i < |hs| && hs[i].manager == m && hs[i].city == c
                      && forall j :: 0 <= j < i && hs[j].manager == m ==> hs[j].city.None?))
  {
    FirstOfGroupMissing(hs, IdKey, m, HoldingCity);
    if FirstPresent(Group(hs, IdKey, m), HoldingCity).Some? {
      FirstOfGroup(hs, IdKey, m, HoldingCity);
    }
  }

  /** `first` of the state over the rows of manager id `m`. */
  lemma FirstState(hs: seq<Holding>, m: IdCell)
    ensures var c := FirstPresent(Group(hs, IdKey, m), HoldingState);
      && (c.None? <==> forall i :: 0 <= i < |hs| && hs[i].manager == m ==> hs[i].state.None?)
      && (c.Some? ==> exists i :: (0 <= i < |hs| && hs[i].manager == m && hs[i].state == c
                      && forall j :: 0 <= j < i && hs[j].manager == m ==> hs[j].state.None?))
  {
    FirstOfGroupMissing(hs, IdKey, m, HoldingState);
    if FirstPresent(Group(hs, IdKey, m), HoldingState).Some? {
      FirstOfGroup(hs, IdKey, m, HoldingState);
    }
  }

  // ------------------------------------------------------------- ranking

  function MarketKey(t: ManagerTotal): Option<real> { Some(t.market) }

  function Totals(r: seq<Ranked>): (ts: seq<ManagerTotal>)
    ensures |ts| == |r| && forall i :: 0 <= i < |r| ==> ts[i] == r[i].total
  {
    seq(|r|, i requires 0 <= i < |r| => r[i].total)
  }

  function Shares(r: seq<Ranked>): (ss: seq<real>)
    ensures |ss| == |r| && forall i :: 0 <= i < |r| ==> ss[i] == r[i].share
  {
    seq(|r|, i requires 0 <= i < |r| => r[i].share)
  }

  /**
   * `Percentage_of_Total`: each market value over the table's total, times
   * 100, rounded to two decimals. An empty table has no total to divide by.
   */
  function WithShares(ts: seq<ManagerTotal>): (r: seq<Ranked>)
    ensures Totals(r) == ts
    ensures SumReals(TotalMarkets(ts)) == 0.0 ==> forall i :: 0 <= i < |r| ==> r[i].share == 0.0
    ensures SumReals(TotalMarkets(ts)) != 0.0 ==> forall i :: 0 <= i < |r| ==>
      -0.005 <= r[i].share - ts[i].market / SumReals(TotalMarkets(ts)) * 100.0 <= 0.005
  {
    var total := SumReals(TotalMarkets(ts));
    var r := seq(|ts|, i requires 0 <= i < |ts| =>
      Ranked(ts[i], if total == 0.0 then 0.0 else Round2(ts[i].market / total * 100.0)));
    assert Totals(r) == ts;
    r
  }

  /** `sort_values(market, ascending=False)` followed by the shares. */
  function Rank(ts: seq<ManagerTotal>): seq<Ranked> {
    WithShares(SortBy(ts, MarketKey, true))
  }

  /** The ranked table lists the managers by non-increasing market value, and is a permutation of them. */
  lemma RankOrder(ts: seq<ManagerTotal>)
    ensures SortedBy(Totals(Rank(ts)), MarketKey, true)
    ensures forall i, j :: 0 <= i < j < |Rank(ts)| ==> Rank(ts)[i].total.market >= Rank(ts)[j].total.market
    ensures multiset(Totals(Rank(ts))) == multiset(ts)
  {
    var r := Rank(ts);
    assert Totals(r) == SortBy(ts, MarketKey, true);
    forall i, j | 0 <= i < j < |r| ensures r[i].total.market >= r[j].total.market {
      assert Before(MarketKey(Totals(r)[i]), MarketKey(Totals(r)[j]), true);
    }
  }

  lemma {:induction false} SumRealsPositive(s: seq<real>)
    requires s != [] && forall i :: 0 <= i < |s| ==> s[i] > 0.0
    ensures SumReals(s) > 0.0
  {
    if |s| > 1 {
      SumRealsPositive(s[1..]);
    }
  }

  /**
   * With positive market values, each share is within 0.005 of the exact
   * percentage of the table's total, and the exact percentages add up to 100.
   */
  lemma RankShares(ts: seq<ManagerTotal>)
    requires ts != []
    requires forall t :: t in ts ==> t.market > 0.0
    ensures SumReals(TotalMarkets(Totals(Rank(ts)))) > 0.0
    ensures var total := SumReals(TotalMarkets(Totals(Rank(ts))));
      forall i :: 0 <= i < |Rank(ts)| ==> -0.005 <= Rank(ts)[i].share - Rank(ts)[i].total.market / total * 100.0 <= 0.005
    ensures var ms := TotalMarkets(Totals(Rank(ts)));
      SumReals(Percentages(ms, SumReals(ms))) == 100.0
  {
    var sorted := SortBy(ts, MarketKey, true);
    var r := Rank(ts);
    assert Totals(r) == sorted;
    SortedMarketsPositive(ts);
    SumRealsPositive(TotalMarkets(sorted));
    SharesSumTo100(TotalMarkets(sorted));
    forall i | 0 <= i < |r| ensures r[i].total == sorted[i] { }
  }

  lemma SortedMarketsPositive(ts: seq<ManagerTotal>)
    requires ts != []
    requires forall t :: t in ts ==> t.market > 0.0
    ensures TotalMarkets(SortBy(ts, MarketKey, true)) != []
    ensures forall i :: 0 <= i < |TotalMarkets(SortBy(ts, MarketKey, true))| ==> TotalMarkets(SortBy(ts, MarketKey, true))[i] > 0.0
  {
    var sorted := SortBy(ts, MarketKey, true);
    forall i | 0 <= i < |sorted| ensures sorted[i].market > 0.0 {
      assert sorted[i] in multiset(sorted);
    }
  }

  /** Sorting and the shares move the rows, and keep the table's total market value. */
  lemma RankConservesMarket(ts: seq<ManagerTotal>)
    ensures SumReals(TotalMarkets(Totals(Rank(ts)))) == SumReals(TotalMarkets(ts))
  {
    RankOrder(ts);
    SumMarketsPermutation(Totals(Rank(ts)), ts);
  }

  lemma TotalMarketsAppend(a: seq<ManagerTotal>, b: seq<ManagerTotal>)
    ensures TotalMarkets(a + b) == TotalMarkets(a) + TotalMarkets(b)
  {
    assert |TotalMarkets(a + b)| == |TotalMarkets(a) + TotalMarkets(b)|;
    forall i | 0 <= i < |a + b| ensures TotalMarkets(a + b)[i] == (TotalMarkets(a) + TotalMarkets(b))[i] {
      if i < |a| { assert (a + b)[i] == a[i]; } else { assert (a + b)[i] == b[i - |a|]; }
    }
  }

  /** Two tables with the same rows, in any order, have the same total market value. */
  lemma {:induction false} SumMarketsPermutation(a: seq<ManagerTotal>, b: seq<ManagerTotal>)
    requires multiset(a) == multiset(b)
    ensures SumReals(TotalMarkets(a)) == SumReals(TotalMarkets(b))
    decreases |a|
  {
    if a == [] {
      assert |multiset(b)| == 0;
    } else {
      assert a[0] in multiset(b);
      var k :| 0 <= k < |b| && b[k] == a[0];
      RemoveMatched(a, b, k);
      SumMarketsPermutation(a[1..], b[..k] + b[k + 1..]);
      assert TotalMarkets(a)[1..] == TotalMarkets(a[1..]);
      SumMarketsAround(b, k);
    }
  }

  lemma RemoveMatched(a: seq<ManagerTotal>, b: seq<ManagerTotal>, k: nat)
    requires multiset(a) == multiset(b) && a != [] && k < |b| && b[k] == a[0]
    ensures multiset(a[1..]) == multiset(b[..k] + b[k + 1..])
  {
    var front, back := b[..k], b[k + 1..];
    assert b == front + [b[k]] + back;
    assert a == [a[0]] + a[1..];
    assert multiset(a[1..]) == multiset(a) - multiset{a[0]};
    assert multiset(front + back) == multiset(front) + multiset(back);
    assert multiset(front + back) == multiset(b) - multiset{b[k]};
  }

  /** The total of a table is row `k`'s market value plus the total of the other rows. */
  lemma SumMarketsAround(b: seq<ManagerTotal>, k: nat)
    requires k < |b|
    ensures SumReals(TotalMarkets(b)) == b[k].market + SumReals(TotalMarkets(b[..k] + b[k + 1..]))
  {
    var front, back := b[..k], b[k + 1..];
    assert b == front + [b[k]] + back;
    TotalMarketsAppend(front, back);
    TotalMarketsAppend(front + [b[k]], back);
    TotalMarketsAppend(front, [b[k]]);
    SumRealsAppend(TotalMarkets(front), TotalMarkets(back));
    SumRealsAppend(TotalMarkets(front) + TotalMarkets([b[k]]), TotalMarkets(back));
    SumRealsAppend(TotalMarkets(front), TotalMarkets([b[k]]));
    assert SumReals(TotalMarkets([b[k]])) == b[k].market;
  }
}
