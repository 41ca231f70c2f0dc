/**
 * The dashboard's `main` (streamlit_app_dynamic.py:508-733) on the table
 * `process_cda_data` returns: the location and asset filters, the sort
 * chosen in the table header, the lookup of the manager name column, and
 * the formatted table with its ranks.
 */
module DashboardView {
  import opened Wrappers
  import opened Text
  import opened Cells
  import opened Relational
  import opened Formatting
  import opened ManagerRanking
  import opened DashboardLoader

  /** The select-box entry that switches a location filter off. */
  const AllChoice: string := "All"

  const Billion: real := 1000000000.0

  // -------------------------------------------------------------- filters

  /** What the three filters of lines 549-557 keep. */
  predicate Kept(r: Ranked, state: string, city: string, minBillions: real) {
    && (state != AllChoice ==> r.total.state == Some(state))
    && (city != AllChoice ==> r.total.city == Some(city))
    && r.total.market >= minBillions * Billion
  }

  function KeptBy(state: string, city: string, minBillions: real): Ranked -> bool {
    r => Kept(r, state, city, minBillions)
  }

  function StateIs(state: string): Ranked -> bool { (r: Ranked) => r.total.state == Some(state) }
  function CityIs(city: string): Ranked -> bool { (r: Ranked) => r.total.city == Some(city) }
  function AtLeast(minBillions: real): Ranked -> bool { (r: Ranked) => r.total.market >= minBillions * Billion }

  /**
   * Lines 546-557: `filtered_df` narrowed by the state, then the city, then
   * the asset floor. A missing UF or MUN never equals the chosen one.
   */
  method FilterManagers(df: seq<Ranked>, state: string, city: string, minBillions: real)
    returns (filtered: seq<Ranked>)
    ensures filtered == Filter(df, KeptBy(state, city, minBillions))
    ensures IsSubsequence(filtered, df)
    ensures forall r :: r in filtered <==> r in df && Kept(r, state, city, minBillions)
    ensures forall i :: 0 <= i < |filtered| ==> Kept(filtered[i], state, city, minBillions)
  {
    filtered := df;
    if state != AllChoice {
      filtered := Filter(filtered, StateIs(state));
    }
    if city != AllChoice {
      filtered := Filter(filtered, CityIs(city));
    }
    filtered := Filter(filtered, AtLeast(minBillions));
    assert filtered == Staged(df, state, city, minBillions);
    StagesCompose(df, state, city, minBillions);
  }

  /** The rows left by the state stage, then the city stage, then the floor. */
  function Staged(df: seq<Ranked>, state: string, city: string, minBillions: real): seq<Ranked> {
    var s1 := if state != AllChoice then Filter(df, StateIs(state)) else df;
    var s2 := if city != AllChoice then Filter(s1, CityIs(city)) else s1;
    Filter(s2, AtLeast(minBillions))
  }

  /** The three stages keep exactly the rows every active filter accepts. */
  lemma StagesCompose(df: seq<Ranked>, state: string, city: string, minBillions: real)
    ensures Staged(df, state, city, minBillions) == Filter(df, KeptBy(state, city, minBillions))
  {
    var keep := KeptBy(state, city, minBillions);
    var s1 := if state != AllChoice then Filter(df, StateIs(state)) else df;
    var p1 := (r: Ranked) => state != AllChoice ==> r.total.state == Some(state);
    if state != AllChoice {
      FilterSame(df, StateIs(state), p1);
    } else {
      FilterAll(df, p1);
    }
    assert s1 == Filter(df, p1);
    var s2 := if city != AllChoice then Filter(s1, CityIs(city)) else s1;
    var p2 := (r: Ranked) => p1(r) && (city != AllChoice ==> r.total.city == Some(city));
    if city != AllChoice {
      FilterFilter(df, p1, CityIs(city), p2);
    } else {
      FilterSame(df, p1, p2);
    }
    assert s2 == Filter(df, p2);
    FilterFilter(df, p2, AtLeast(minBillions), keep);
  }

  // ---------------------------------------------------------------- sort

  /** The three choices of the "Sort by" box (lines 689-697). */
  datatype SortColumn = ByAssets | ByFunds | ByShare

  function ColumnName(c: SortColumn): string {
    match c
    case ByAssets => "Total_Offshore_Assets_Market_Value"
    case ByFunds => "Number_of_Funds"
    case ByShare => "Percentage_of_Total"
  }

  /** Line 701: only the asset column sorts descending. */
  function Ascending(c: SortColumn): (up: bool)
    ensures up <==> c != ByAssets
  {
    ColumnName(c) != "Total_Offshore_Assets_Market_Value"
  }

  function SortKey(c: SortColumn, r: Ranked): Option<real> {
    match c
    case ByAssets => Some(r.total.market)
    case ByFunds => Some(r.total.funds as real)
    case ByShare => Some(r.share)
  }

  function KeyOf(c: SortColumn): Ranked -> Option<real> { r => SortKey(c, r) }

  /**
   * Line 702: `sort_values(sort_by, ascending=...)`: the rows reordered, by
   * assets from the largest, by funds or share from the smallest; the sort
   * is not stable, so the order of ties is not promised.
   */
  function SortManagers(filtered: seq<Ranked>, c: SortColumn): (sorted: seq<Ranked>)
    ensures multiset(sorted) == multiset(filtered)
    ensures c == ByAssets ==> forall i, j :: 0 <= i < j < |sorted| ==> sorted[i].total.market >= sorted[j].total.market
    ensures c == ByFunds ==> forall i, j :: 0 <= i < j < |sorted| ==> sorted[i].total.funds <= sorted[j].total.funds
    ensures c == ByShare ==> forall i, j :: 0 <= i < j < |sorted| ==> sorted[i].share <= sorted[j].share
  {
    var s := SortBy(filtered, KeyOf(c), !Ascending(c));
    assert forall i, j :: 0 <= i < j < |s| ==> Before(SortKey(c, s[i]), SortKey(c, s[j]), c == ByAssets);
    s
  }

  // --------------------------------------------------------- name column

  /** The name columns lines 705-716 try, in order. */
  const NameCandidates: seq<string> := ["DENOM_SOCIAL", "Manager_Name_x", "Manager_Name_y", "Manager_Name"]

  /** Lines 594-606 and 705-716: the first candidate the table has; None ends the page with an error. */
  function NameColumn(cols: set<string>): (col: Option<string>)
    ensures col.None? <==> forall k :: 0 <= k < |NameCandidates| ==> NameCandidates[k] !in cols
    ensures col.Some? ==> exists k :: (0 <= k < |NameCandidates| && NameCandidates[k] == col.value && col.value in cols
                                       && forall j :: 0 <= j < k ==> NameCandidates[j] !in cols)
  {
    if "DENOM_SOCIAL" in cols then
      assert NameCandidates[0] == "DENOM_SOCIAL";
      Some("DENOM_SOCIAL")
    else if "Manager_Name_x" in cols then
      assert NameCandidates[1] == "Manager_Name_x";
      Some("Manager_Name_x")
    else if "Manager_Name_y" in cols then
      assert NameCandidates[2] == "Manager_Name_y";
      Some("Manager_Name_y")
    else if "Manager_Name" in cols then
      assert NameCandidates[3] == "Manager_Name";
      Some("Manager_Name")
    else None
  }

  /** On the loader's table the lookup settles on Manager_Name_x, the group's own name. */
  lemma LoaderNameColumn()
    ensures NameColumn(OutputColumns()) == Some("Manager_Name_x")
  {
    OutputColumnsFacts();
    OutputHasNoNameColumn();
  }

  /**
   * A cell of a name column of the loader's table: Manager_Name_x holds the
   * group's name, Manager_Name_y the first name of the id; the table has no
   * other name column.
   */
  function NameCell(col: string, t: ManagerTotal): Option<string> {
    if col == "Manager_Name_x" then Some(t.name)
    else if col == "Manager_Name_y" then t.firstName
    else None
  }

  // -------------------------------------------------------------- display

  datatype DisplayRow = DisplayRow(
    rank: nat,             // Rank
    manager: Option<string>,   // Manager
    city: Option<string>,  // City
    state: Option<string>, // State
    assets: string,        // Offshore Assets
    share: string,         // Market Share %
    funds: int)            // Number of Funds

  /** Lines 722-725: the column formats of one row. */
  function DisplayOf(rank: nat, col: string, r: Ranked): DisplayRow {
    DisplayRow(rank, NameCell(col, r.total), r.total.city, r.total.state,
               "R$ " + GroupedWhole(r.total.market), Fixed1(r.share) + "%", r.total.funds)
  }

  /** Lines 718-733: the displayed table, ranked 1..n in the sorted order. */
  function DisplayTable(sorted: seq<Ranked>, col: string): (d: seq<DisplayRow>)
    ensures |d| == |sorted|
    ensures forall i :: 0 <= i < |d| ==> d[i] == DisplayOf(i + 1, col, sorted[i])
  {
    seq(|sorted|, i requires 0 <= i < |sorted| => DisplayOf(i + 1, col, sorted[i]))
  }

  /** The ranks are 1..n: distinct, increasing, and each row's position plus one. */
  lemma DisplayRanks(sorted: seq<Ranked>, col: string)
    ensures forall i :: 0 <= i < |sorted| ==> DisplayTable(sorted, col)[i].rank == i + 1
    ensures forall i, j :: 0 <= i < j < |sorted| ==> DisplayTable(sorted, col)[i].rank < DisplayTable(sorted, col)[j].rank
    ensures |sorted| > 0 ==> DisplayTable(sorted, col)[|sorted| - 1].rank == |sorted|
  {
  }

  /** The digits of "Offshore Assets" are those of the market value rounded to a whole number. */
  lemma DisplayAssetsDigits(sorted: seq<Ranked>, col: string, i: nat)
    requires i < |sorted|
    ensures KeepDigits(DisplayTable(sorted, col)[i].assets) == NatToString(Abs(RoundHalfEven(sorted[i].total.market)))
  {
    var m := sorted[i].total.market;
    assert DisplayTable(sorted, col)[i].assets == "R$ " + GroupedWhole(m);
    GroupedWholeDigits(m);
    KeepDigitsAppend("R$ ", GroupedWhole(m));
    assert KeepDigits("R$ ") == [] by {
      assert "R$ " == ['R', '$', ' '];
    }
  }

  /** "Market Share %" is the share to one decimal and a '%', and reads back as the share so rounded. */
  lemma DisplayShareReadsBack(sorted: seq<Ranked>, col: string, i: nat)
    requires i < |sorted|
    ensures var t := DisplayTable(sorted, col)[i].share;
      && t == Fixed1(sorted[i].share) + "%"
      && ParseNumber(t[..|t| - 1]) == Some(RoundHalfEven(sorted[i].share * 10.0) as real / 10.0)
  {
    var x := sorted[i].share;
    var t := DisplayTable(sorted, col)[i].share;
    assert t == Fixed1(x) + "%";
    assert t[..|t| - 1] == Fixed1(x);
    Fixed1ReadsBack(x);
  }

  /**
   * The table section of `main`: filter, sort, find the name column, format.
   * None is the `st.error` branch that ends the page.
   */
  method DetailedResults(df: seq<Ranked>, cols: set<string>, state: string, city: string, minBillions: real, c: SortColumn)
    returns (shown: Option<seq<DisplayRow>>)
    ensures NameColumn(cols).None? <==> shown.None?
    ensures shown.Some? ==>
      shown.value == DisplayTable(SortManagers(Filter(df, KeptBy(state, city, minBillions)), c), NameColumn(cols).value)
  {
    var filtered := FilterManagers(df, state, city, minBillions);
    var sorted := SortManagers(filtered, c);
    var col := NameColumn(cols);
    if col.None? {
      return None;
    }
    shown := Some(DisplayTable(sorted, col.value));
  }

  /** Under Manager_Name_x, the loader's name column, the Manager column shows each manager's group name. */
  lemma LoaderDisplayNames(sorted: seq<Ranked>)
    ensures forall i :: 0 <= i < |sorted| ==> DisplayTable(sorted, "Manager_Name_x")[i].manager == Some(sorted[i].total.name)
  {
  }
}
