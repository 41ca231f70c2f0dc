/**
 * The static dashboard (streamlit_app.py) over the table the batch analysis
 * writes: the cleaning `load_data` does in place, the two cell formatters,
 * the sidebar filters narrowing `filtered_df`, the sort and the ranked
 * display table.
 */
module StaticDashboard {
  import opened Wrappers
  import opened Text
  import opened Cells
  import opened Relational
  import opened Formatting
  import DashboardView

  // ---------------------------------------------------------------- rows

  /** A calendar day. */
  datatype Date = Date(year: int, month: int, day: int)

  /** Dates compare as (year, month, day). */
  predicate DateLe(a: Date, b: Date) {
    a.year < b.year || (a.year == b.year && (a.month < b.month || (a.month == b.month && a.day <= b.day)))
  }

  /** Line 63: every row is dated 31 August 2025. */
  const ReferenceDate: Date := Date(2025, 8, 31)

  /** What lines 58-60 put in a missing text cell. */
  const NotAvailable: string := "N/A"

  /** A row of offshore_managers_analysis.csv, with the columns the page reads. */
  datatype ManagerRow = ManagerRow(
    administrator: Option<string>,  // Administrador
    city: Option<string>,           // Cidade
    state: Option<string>,          // UF
    name: Option<string>,           // DENOM_SOCIAL
    market: AmountCell,             // Total_Offshore_Assets_Market_Value
    cost: AmountCell,               // Total_Offshore_Assets_Cost_Value
    funds: AmountCell,              // Number_of_Funds
    share: AmountCell,              // Percentage_of_Total
    date: Option<Date>)             // Data_Referencia

  /** Lines 52-55: the four numeric columns through `pd.to_numeric(errors='coerce')`. */
  function Coerced(r: ManagerRow): ManagerRow {
    r.(market := ToNumeric(r.market), cost := ToNumeric(r.cost), funds := ToNumeric(r.funds), share := ToNumeric(r.share))
  }

  /** Lines 58-60: `fillna('N/A')` on Cidade, UF and DENOM_SOCIAL. */
  function Filled(r: ManagerRow): ManagerRow {
    r.(city := Some(r.city.GetOr(NotAvailable)), state := Some(r.state.GetOr(NotAvailable)),
       name := Some(r.name.GetOr(NotAvailable)))
  }

  /** Line 63. */
  function Dated(r: ManagerRow): ManagerRow { r.(date := Some(ReferenceDate)) }

  /** A row as `load_data` leaves it. */
  function Loaded(r: ManagerRow): ManagerRow { Dated(Filled(Coerced(r))) }

  /** A column assignment: `f` applied to every row. */
  function Each(rows: seq<ManagerRow>, f: ManagerRow -> ManagerRow): (r: seq<ManagerRow>)
    ensures |r| == |rows| && forall i :: 0 <= i < |rows| ==> r[i] == f(rows[i])
  {
    seq(|rows|, i requires 0 <= i < |rows| => f(rows[i]))
  }

  /**
   * A loaded row has every text column present, the missing ones as "N/A"
   * and the others unchanged, numbers where the file had numbers or numeric
   * text and missing values elsewhere, and the reference date.
   */
  lemma LoadedRow(r: ManagerRow)
    ensures var l := Loaded(r);
      && l.administrator == r.administrator
      && (r.city.Some? ==> l.city == r.city) && (r.city.None? ==> l.city == Some(NotAvailable))
      && (r.state.Some? ==> l.state == r.state) && (r.state.None? ==> l.state == Some(NotAvailable))
      && (r.name.Some? ==> l.name == r.name) && (r.name.None? ==> l.name == Some(NotAvailable))
      && !l.market.Text? && !l.cost.Text? && !l.funds.Text? && !l.share.Text?
      && AsReal(l.market) == (if r.market.Text? then ParseNumber(r.market.s) else AsReal(r.market))
      && AsReal(l.cost) == (if r.cost.Text? then ParseNumber(r.cost.s) else AsReal(r.cost))
      && AsReal(l.funds) == (if r.funds.Text? then ParseNumber(r.funds.s) else AsReal(r.funds))
      && AsReal(l.share) == (if r.share.Text? then ParseNumber(r.share.s) else AsReal(r.share))
      && l.date == Some(ReferenceDate)
  {
  }

  /** Loading a loaded row again changes nothing. */
  lemma LoadIdempotent(r: ManagerRow)
    ensures Loaded(Loaded(r)) == Loaded(r)
  {
  }

  /** `df` of `load_data`: its columns are overwritten one assignment at a time. */
  class ManagerFrame {
    var rows: seq<ManagerRow>

    constructor (rows: seq<ManagerRow>)
      ensures this.rows == rows
    {
      this.rows := rows;
    }

    method CoerceNumbers()
      modifies this
      ensures rows == Each(old(rows), Coerced)
    {
      rows := Each(rows, Coerced);
    }

    method FillMissing()
      modifies this
      ensures rows == Each(old(rows), Filled)
    {
      rows := Each(rows, Filled);
    }

    method AddReferenceDate()
      modifies this
      ensures rows == Each(old(rows), Dated)
    {
      rows := Each(rows, Dated);
    }
  }

  /**
   * Lines 44-68. `file` is None when offshore_managers_analysis.csv does not
   * exist, which gives the empty DataFrame.
   */
  method LoadData(file: Option<seq<ManagerRow>>) returns (df: ManagerFrame)
    ensures fresh(df)
    ensures df.rows == if file.None? then [] else Each(file.value, Loaded)
  {
    if file.None? {
      df := new ManagerFrame([]);
      return;
    }
    df := new ManagerFrame(file.value);
    df.CoerceNumbers();
    df.FillMissing();
    df.AddReferenceDate();
    assert df.rows == Each(Each(Each(file.value, Coerced), Filled), Dated);
  }

  // ------------------------------------------------------------ formats

  /** Lines 70-74. */
  function FormatCurrency(value: Option<real>): string {
    if value.None? || value.value == 0.0 then "R$ 0" else "R$ " + GroupedWhole(value.value)
  }

  /** Lines 76-80. */
  function FormatPercentage(value: Option<real>): string {
    if value.None? then "0.0%" else Fixed1(value.value) + "%"
  }

  /**
   * A currency cell is "R$ " and the comma-grouped whole amount, a missing
   * value printing as zero does; its digits are those of the amount rounded.
   */
  lemma CurrencyText(value: Option<real>)
    ensures |FormatCurrency(value)| >= 4 && FormatCurrency(value)[..3] == "R$ "
    ensures FormatCurrency(value) == "R$ " + GroupedWhole(value.GetOr(0.0))
    ensures KeepDigits(FormatCurrency(value)) == NatToString(Abs(RoundHalfEven(value.GetOr(0.0))))
  {
    CurrencyIsGrouped(value);
    PrefixedDigits(value.GetOr(0.0), FormatCurrency(value));
  }

  lemma CurrencyIsGrouped(value: Option<real>)
    ensures FormatCurrency(value) == "R$ " + GroupedWhole(value.GetOr(0.0))
  {
    GroupedZero();
  }

  lemma GroupedZero()
    ensures GroupedWhole(0.0) == "0"
  {
    assert RoundHalfEven(0.0) == 0;
    assert NatToString(0) == "0";
  }

  lemma PrefixedDigits(x: real, t: string)
    requires t == "R$ " + GroupedWhole(x)
    ensures |t| >= 4 && t[..3] == "R$ "
    ensures KeepDigits(t) == NatToString(Abs(RoundHalfEven(x)))
  {
    GroupedWholeDigits(x);
    KeepDigitsAppend("R$ ", GroupedWhole(x));
    assert KeepDigits("R$ ") == [] by {
      assert "R$ " == ['R', '$', ' '];
    }
  }

  /**
   * A percentage cell is the value to one decimal and a '%' (a missing value
   * prints as zero), and reads back as the value so rounded.
   */
  lemma PercentageText(value: Option<real>)
    ensures var t := FormatPercentage(value);
      && t == Fixed1(value.GetOr(0.0)) + "%"
      && ParseNumber(t[..|t| - 1]) == Some(RoundHalfEven(value.GetOr(0.0) * 10.0) as real / 10.0)
  {
    PercentageIsFixed(value);
    PercentReadsBack(value.GetOr(0.0), FormatPercentage(value));
  }

  lemma PercentageIsFixed(value: Option<real>)
    ensures FormatPercentage(value) == Fixed1(value.GetOr(0.0)) + "%"
  {
    FixedZero();
  }

  lemma FixedZero()
    ensures Fixed1(0.0) == "0.0"
  {
    assert RoundHalfEven(0.0) == 0;
    assert NatToString(0) == "0";
    assert DigitChar(0) == '0';
  }

  lemma PercentReadsBack(x: real, t: string)
    requires t == Fixed1(x) + "%"
    ensures |t| >= 1 && ParseNumber(t[..|t| - 1]) == Some(RoundHalfEven(x * 10.0) as real / 10.0)
  {
    assert t[..|t| - 1] == Fixed1(x);
    Fixed1ReadsBack(x);
  }

  // ------------------------------------------------------------ filters

  predicate InDateRange(r: ManagerRow, start: Date, end: Date) {
    r.date.Some? && DateLe(start, r.date.value) && DateLe(r.date.value, end)
  }

  /** Line 161: a NaN value compares false, so it never reaches the floor. */
  predicate AtLeastAssets(r: ManagerRow, minBillions: real) {
    AsReal(r.market).Some? && AsReal(r.market).value >= minBillions * DashboardView.Billion
  }

  /** What the four filters of lines 145-161 keep. */
  predicate Shown(r: ManagerRow, dateRange: seq<Date>, state: string, city: string, minBillions: real) {
    && (|dateRange| == 2 ==> InDateRange(r, dateRange[0], dateRange[1]))
    && (state != DashboardView.AllChoice ==> r.state == Some(state))
    && (city != DashboardView.AllChoice ==> r.city == Some(city))
    && AtLeastAssets(r, minBillions)
  }

  function ShownBy(dateRange: seq<Date>, state: string, city: string, minBillions: real): ManagerRow -> bool {
    r => Shown(r, dateRange, state, city, minBillions)
  }

  function DatedIn(start: Date, end: Date): ManagerRow -> bool { (r: ManagerRow) => InDateRange(r, start, end) }
  function StateIs(state: string): ManagerRow -> bool { (r: ManagerRow) => r.state == Some(state) }
  function CityIs(city: string): ManagerRow -> bool { (r: ManagerRow) => r.city == Some(city) }
  function AtLeast(minBillions: real): ManagerRow -> bool { (r: ManagerRow) => AtLeastAssets(r, minBillions) }

  /**
   * Lines 142-161: `filtered_df` narrowed by the date range when two dates
   * are chosen, then the state, then the city, then the asset floor.
   */
  method ApplyFilters(df: seq<ManagerRow>, dateRange: seq<Date>, state: string, city: string, minBillions: real)
    returns (filtered: seq<ManagerRow>)
    ensures filtered == Filter(df, ShownBy(dateRange, state, city, minBillions))
    ensures IsSubsequence(filtered, df)
    ensures forall r :: r in filtered <==> r in df && Shown(r, dateRange, state, city, minBillions)
  {
    filtered := df;
    if |dateRange| == 2 {
      filtered := Filter(filtered, DatedIn(dateRange[0], dateRange[1]));
    }
    if state != DashboardView.AllChoice {
      filtered := Filter(filtered, StateIs(state));
    }
    if city != DashboardView.AllChoice {
      filtered := Filter(filtered, CityIs(city));
    }
    filtered := Filter(filtered, AtLeast(minBillions));
    assert filtered == Staged(df, dateRange, state, city, minBillions);
    StagesCompose(df, dateRange, state, city, minBillions);
  }

  /** The rows left by the date, state, city and floor stages in turn. */
  function Staged(df: seq<ManagerRow>, dateRange: seq<Date>, state: string, city: string, minBillions: real): seq<ManagerRow> {
    var s0 := if |dateRange| == 2 then Filter(df, DatedIn(dateRange[0], dateRange[1])) else df;
    var s1 := if state != DashboardView.AllChoice then Filter(s0, StateIs(state)) else s0;
    var s2 := if city != DashboardView.AllChoice then Filter(s1, CityIs(city)) else s1;
    Filter(s2, AtLeast(minBillions))
  }

  predicate DateStage(r: ManagerRow, dateRange: seq<Date>) {
    |dateRange| == 2 ==> InDateRange(r, dateRange[0], dateRange[1])
  }

  predicate StateStage(r: ManagerRow, dateRange: seq<Date>, state: string) {
    DateStage(r, dateRange) && (state != DashboardView.AllChoice ==> r.state == Some(state))
  }

  predicate CityStage(r: ManagerRow, dateRange: seq<Date>, state: string, city: string) {
    StateStage(r, dateRange, state) && (city != DashboardView.AllChoice ==> r.city == Some(city))
  }

  /** The four stages keep exactly the rows every active filter accepts. */
  lemma StagesCompose(df: seq<ManagerRow>, dateRange: seq<Date>, state: string, city: string, minBillions: real)
    ensures Staged(df, dateRange, state, city, minBillions) == Filter(df, ShownBy(dateRange, state, city, minBillions))
  {
    var p0 := (r: ManagerRow) => DateStage(r, dateRange);
    var s0 := if |dateRange| == 2 then Filter(df, DatedIn(dateRange[0], dateRange[1])) else df;
    if |dateRange| == 2 {
      FilterSame(df, DatedIn(dateRange[0], dateRange[1]), p0);
    } else {
      FilterAll(df, p0);
    }
    assert s0 == Filter(df, p0);
    var p1 := (r: ManagerRow) => StateStage(r, dateRange, state);
    var s1 := if state != DashboardView.AllChoice then Filter(s0, StateIs(state)) else s0;
    if state != DashboardView.AllChoice {
      FilterFilter(df, p0, StateIs(state), p1);
    } else {
      FilterSame(df, p0, p1);
    }
    assert s1 == Filter(df, p1);
    var p2 := (r: ManagerRow) => CityStage(r, dateRange, state, city);
    var s2 := if city != DashboardView.AllChoice then Filter(s1, CityIs(city)) else s1;
    if city != DashboardView.AllChoice {
      FilterFilter(df, p1, CityIs(city), p2);
    } else {
      FilterSame(df, p1, p2);
    }
    assert s2 == Filter(df, p2);
    FilterFilter(df, p2, AtLeast(minBillions), ShownBy(dateRange, state, city, minBillions));
  }

  /**
   * On loaded rows, which all carry the reference date, the date stage keeps
   * every row or none: all of them for a range around 31 August 2025, such
   * as the default one from the earliest to the latest date (lines 104-112).
   */
  lemma DateStageAllOrNothing(df: seq<ManagerRow>, start: Date, end: Date)
    requires forall i :: 0 <= i < |df| ==> df[i].date == Some(ReferenceDate)
    ensures Filter(df, DatedIn(start, end)) == if DateLe(start, ReferenceDate) && DateLe(ReferenceDate, end) then df else []
  {
    if DateLe(start, ReferenceDate) && DateLe(ReferenceDate, end) {
      FilterAll(df, DatedIn(start, end));
    } else {
      FilterNone(df, DatedIn(start, end));
    }
  }

  // --------------------------------------------------------------- sort

  /** The sort keys of the three choices of lines 281-288; NaN is missing. */
  function SortKey(c: DashboardView.SortColumn, r: ManagerRow): Option<real> {
    match c
    case ByAssets => AsReal(r.market)
    case ByFunds => AsReal(r.funds)
    case ByShare => AsReal(r.share)
  }

  function KeyOf(c: DashboardView.SortColumn): ManagerRow -> Option<real> { r => SortKey(c, r) }

  /**
   * Lines 291-292: the rows reordered, by assets from the largest, by funds
   * or share from the smallest, missing values last either way; the order of
   * ties is not promised.
   */
  function SortRows(filtered: seq<ManagerRow>, c: DashboardView.SortColumn): (sorted: seq<ManagerRow>)
    ensures multiset(sorted) == multiset(filtered)
    ensures forall i, j :: 0 <= i < j < |sorted| && SortKey(c, sorted[i]).None? ==> SortKey(c, sorted[j]).None?
    ensures c == DashboardView.ByAssets ==> forall i, j :: 0 <= i < j < |sorted| && SortKey(c, sorted[j]).Some? ==>
      SortKey(c, sorted[i]).Some? && SortKey(c, sorted[i]).value >= SortKey(c, sorted[j]).value
    ensures c != DashboardView.ByAssets ==> forall i, j :: 0 <= i < j < |sorted| && SortKey(c, sorted[j]).Some? ==>
      SortKey(c, sorted[i]).Some? && SortKey(c, sorted[i]).value <= SortKey(c, sorted[j]).value
  {
    var s := SortBy(filtered, KeyOf(c), !DashboardView.Ascending(c));
    assert forall i, j :: 0 <= i < j < |s| ==> Before(SortKey(c, s[i]), SortKey(c, s[j]), c == DashboardView.ByAssets);
    s
  }

  // ------------------------------------------------------------ display

  /** A row of `display_df` (lines 294-305). */
  datatype DisplayRow = DisplayRow(
    rank: nat,                      // Rank
    administrator: Option<string>,  // Administrador
    city: Option<string>,           // Cidade
    state: Option<string>,          // UF
    assets: string,                 // Offshore Assets
    share: string,                  // Market Share
    funds: int)                     // Funds

  /** `astype(int)` on a float: the fraction dropped toward zero. */
  function Truncated(x: real): (n: int)
    ensures x >= 0.0 ==> n as real <= x < n as real + 1.0
    ensures x < 0.0 ==> n as real - 1.0 < x <= n as real
  {
    if x >= 0.0 then x.Floor else -((-x).Floor)
  }

  /** Line 301 raises on a missing Number_of_Funds: NaN has no integer. */
  predicate FundsCastable(r: ManagerRow) { r.funds.Number? }

  function DisplayOf(rank: nat, r: ManagerRow): DisplayRow
    requires FundsCastable(r)
  {
    DisplayRow(rank, r.administrator, r.city, r.state, FormatCurrency(AsReal(r.market)),
               FormatPercentage(AsReal(r.share)), Truncated(r.funds.v))
  }

  /** What the table section ends in. */
  datatype Page =
    | Stopped                        // line 89: no data, `st.stop()`
    | CastFailed                     // line 301 raises
    | Table(rows: seq<DisplayRow>)

  /** Lines 294-305 on the sorted rows: ranked 1..n in the sorted order. */
  function DisplayTable(sorted: seq<ManagerRow>): (p: Page)
    ensures p.CastFailed? <==> exists i :: 0 <= i < |sorted| && !FundsCastable(sorted[i])
    ensures p.Table? ==> |p.rows| == |sorted| && forall i :: 0 <= i < |sorted| ==> p.rows[i] == DisplayOf(i + 1, sorted[i])
    ensures !p.Stopped?
  {
    if forall i :: 0 <= i < |sorted| ==> FundsCastable(sorted[i]) then
      Table(seq(|sorted|, i requires 0 <= i < |sorted| => DisplayOf(i + 1, sorted[i])))
    else CastFailed
  }

  /** The table section of `main` as a value. */
  function ManagerPage(df: seq<ManagerRow>, dateRange: seq<Date>, state: string, city: string, minBillions: real,
                       c: DashboardView.SortColumn): Page {
    if df == [] then Stopped
    else DisplayTable(SortRows(Filter(df, ShownBy(dateRange, state, city, minBillions)), c))
  }

  /** `d` shows the loaded row `r`: its names and location as they are, its cells formatted. */
  predicate Shows(d: DisplayRow, r: ManagerRow) {
    && d.administrator == r.administrator && d.city == r.city && d.state == r.state
    && d.assets == FormatCurrency(AsReal(r.market)) && d.share == FormatPercentage(AsReal(r.share))
  }

  predicate ShowsKept(d: DisplayRow, df: seq<ManagerRow>, dateRange: seq<Date>, state: string, city: string, minBillions: real) {
    exists r :: r in df && Shown(r, dateRange, state, city, minBillions) && Shows(d, r)
  }

  /**
   * The page lists as many rows as the filters keep, ranked 1..n, each
   * showing a row of the table that passes every filter.
   */
  lemma PageRows(df: seq<ManagerRow>, dateRange: seq<Date>, state: string, city: string, minBillions: real,
                 c: DashboardView.SortColumn)
    requires ManagerPage(df, dateRange, state, city, minBillions, c).Table?
    ensures var rows := ManagerPage(df, dateRange, state, city, minBillions, c).rows;
      && |rows| == |Filter(df, ShownBy(dateRange, state, city, minBillions))|
      && (forall i :: 0 <= i < |rows| ==> rows[i].rank == i + 1)
      && (forall i :: 0 <= i < |rows| ==> ShowsKept(rows[i], df, dateRange, state, city, minBillions))
  {
    var filtered := Filter(df, ShownBy(dateRange, state, city, minBillions));
    var sorted := SortRows(filtered, c);
    var rows := ManagerPage(df, dateRange, state, city, minBillions, c).rows;
    assert |sorted| == |filtered| by {
      assert |multiset(sorted)| == |multiset(filtered)|;
    }
    forall i | 0 <= i < |rows| ensures ShowsKept(rows[i], df, dateRange, state, city, minBillions) {
      SortedRowKept(df, dateRange, state, city, minBillions, filtered, sorted, i);
      assert rows[i] == DisplayOf(i + 1, sorted[i]);
      assert Shows(rows[i], sorted[i]);
    }
  }

  lemma SortedRowKept(df: seq<ManagerRow>, dateRange: seq<Date>, state: string, city: string, minBillions: real,
                      filtered: seq<ManagerRow>, sorted: seq<ManagerRow>, i: nat)
    requires filtered == Filter(df, ShownBy(dateRange, state, city, minBillions))
    requires multiset(sorted) == multiset(filtered) && i < |sorted|
    ensures sorted[i] in df && Shown(sorted[i], dateRange, state, city, minBillions)
  {
    assert sorted[i] in multiset(filtered);
    assert sorted[i] in filtered;
  }

  /** A funds count prints as the whole number it holds. */
  lemma WholeFunds(r: ManagerRow, n: nat)
    requires r.funds == Number(n as real)
    ensures DisplayOf(1, r).funds == n
  {
  }

  /** Lines 86-305, the table section: load, stop on no data, filter, sort and format. */
  method ManagerTable(file: Option<seq<ManagerRow>>, dateRange: seq<Date>, state: string, city: string,
                      minBillions: real, c: DashboardView.SortColumn) returns (page: Page)
    ensures page == ManagerPage(if file.None? then [] else Each(file.value, Loaded), dateRange, state, city, minBillions, c)
  {
    var df := LoadData(file);
    if |df.rows| == 0 {
      return Stopped;
    }
    var filtered := ApplyFilters(df.rows, dateRange, state, city, minBillions);
    var sorted := SortRows(filtered, c);
    page := DisplayTable(sorted);
  }
}
