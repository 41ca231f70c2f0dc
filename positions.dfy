/**
 * The fund-level stage both pipelines share: select the positions, coerce
 * the value columns with `to_numeric`, group by the fund's CNPJ (`sum` of
 * the market and cost values, `first` of the name and date) and keep the
 * funds whose market value is positive.
 */
module Positions {
  import opened Wrappers
  import opened Text
  import opened Cells
  import opened Relational

  /** Why a stage yields no table: a pandas KeyError, or an early empty return. */
  datatype Failure =
    | MissingColumn(name: string)   // a KeyError on a column the table lacks
    | NoRowsAfterFilter             // streamlit_app_dynamic.py:178-180
    | NoFundNameColumn              // streamlit_app_dynamic.py:190-194
    | InvalidScientificId           // `float(x)` raised ValueError at line 247
    | NoValidRows                   // the valid-manager set is empty

  datatype Result<T> = Ok(value: T) | Err(failure: Failure)

  /** A row of the CDA position file. */
  datatype CdaRow = CdaRow(
    fund: IdCell,                     // CNPJ_FUNDO_CLASSE
    fundName: Option<string>,         // DENOM_SOCIAL
    date: Option<string>,             // DT_COMPTC
    assetType: Option<string>,        // TP_ATIVO
    applicationType: Option<string>,  // TP_APLIC
    market: AmountCell,               // VL_MERC_POS_FINAL
    cost: AmountCell,                 // VL_CUSTO_POS_FINAL
    sale: AmountCell,                 // VL_VENDA_NEGOC
    acquisition: AmountCell)          // VL_AQUIS_NEGOC

  /** A CDA table: the columns it has, and its rows (a field of a column it lacks is never read). */
  datatype CdaFrame = CdaFrame(columns: set<string>, rows: seq<CdaRow>)

  const ValueColumns: seq<string> := ["VL_MERC_POS_FINAL", "VL_CUSTO_POS_FINAL", "VL_VENDA_NEGOC", "VL_AQUIS_NEGOC"]

  /** The columns the fund `groupby` names. */
  const GroupedColumns: set<string> := {"CNPJ_FUNDO_CLASSE", "VL_MERC_POS_FINAL", "VL_CUSTO_POS_FINAL", "DENOM_SOCIAL", "DT_COMPTC"}

  const OffshoreApplication: string := "Investimento no Exterior"

  // ------------------------------------------------------------- selection

  /**
   * The dashboard's type filter (lines 166-171): with a non-empty list of
   * asset types only the rows whose TP_ATIVO is in it are kept; without one
   * every row is kept.
   */
  function SelectAssetTypes(frame: CdaFrame, types: Option<seq<string>>): (r: Result<CdaFrame>)
    ensures (types.None? || types.value == []) ==> r == Ok(frame)
    ensures types.Some? && types.value != [] && "TP_ATIVO" !in frame.columns ==> r == Err(MissingColumn("TP_ATIVO"))
    ensures r.Ok? ==> r.value.columns == frame.columns && IsSubsequence(r.value.rows, frame.rows)
    ensures r.Ok? && types.Some? && types.value != [] ==>
      forall x :: x in r.value.rows <==> x in frame.rows && x.assetType.Some? && x.assetType.value in types.value
  {
    SubsequenceReflexive(frame.rows);
    match types
    case None => Ok(frame)
    case Some(ts) =>
      if ts == [] then Ok(frame)
      else if "TP_ATIVO" !in frame.columns then Err(MissingColumn("TP_ATIVO"))
      else Ok(frame.(rows := Filter(frame.rows, (x: CdaRow) => x.assetType.Some? && x.assetType.value in ts)))
  }

  /** The batch script's filter (line 39): only offshore-investment rows. */
  function SelectOffshore(frame: CdaFrame): (r: Result<CdaFrame>)
    ensures "TP_APLIC" !in frame.columns ==> r == Err(MissingColumn("TP_APLIC"))
    ensures r.Ok? ==> r.value.columns == frame.columns && IsSubsequence(r.value.rows, frame.rows)
    ensures r.Ok? ==> forall x :: x in r.value.rows <==> x in frame.rows && x.applicationType == Some(OffshoreApplication)
  {
    if "TP_APLIC" !in frame.columns then Err(MissingColumn("TP_APLIC"))
    else Ok(frame.(rows := Filter(frame.rows, IsOffshore)))
  }

  predicate IsOffshore(x: CdaRow) { x.applicationType == Some(OffshoreApplication) }

  // ------------------------------------------------------------- coercion

  /** The row with the value columns among the first `k` of ValueColumns that the table has coerced. */
  function CoerceFirst(x: CdaRow, columns: set<string>, k: nat): CdaRow {
    x.(market := if 0 < k && ValueColumns[0] in columns then ToNumeric(x.market) else x.market,
       cost := if 1 < k && ValueColumns[1] in columns then ToNumeric(x.cost) else x.cost,
       sale := if 2 < k && ValueColumns[2] in columns then ToNumeric(x.sale) else x.sale,
       acquisition := if 3 < k && ValueColumns[3] in columns then ToNumeric(x.acquisition) else x.acquisition)
  }

  /**
   * A row after the coercion loop: a value column the table has no longer
   * holds text, a number stays as it is, and the other fields are untouched.
   */
  function CoerceRow(x: CdaRow, columns: set<string>): (c: CdaRow)
    ensures "VL_MERC_POS_FINAL" in columns ==> !c.market.Text? && AsReal(c.market) == AsReal(ToNumeric(x.market))
    ensures "VL_CUSTO_POS_FINAL" in columns ==> !c.cost.Text? && AsReal(c.cost) == AsReal(ToNumeric(x.cost))
    ensures "VL_VENDA_NEGOC" in columns ==> !c.sale.Text?
    ensures "VL_AQUIS_NEGOC" in columns ==> !c.acquisition.Text?
    ensures c.fund == x.fund && c.fundName == x.fundName && c.date == x.date
    ensures c.assetType == x.assetType && c.applicationType == x.applicationType
  {
    CoerceFirst(x, columns, 4)
  }

  /** `to_numeric` of the value column numbered `k` of one row. */
  function CoerceColumn(x: CdaRow, k: nat): CdaRow
    requires k < 4
  {
    if k == 0 then x.(market := ToNumeric(x.market))
    else if k == 1 then x.(cost := ToNumeric(x.cost))
    else if k == 2 then x.(sale := ToNumeric(x.sale))
    else x.(acquisition := ToNumeric(x.acquisition))
  }

  /** The `for col in value_cols` loop (streamlit_app_dynamic.py:184-187, analyze_offshore_managers.py:43-46). */
  method CoerceValueColumns(frame: CdaFrame) returns (out: CdaFrame)
    ensures out.columns == frame.columns
    ensures |out.rows| == |frame.rows|
    ensures forall i :: 0 <= i < |out.rows| ==> out.rows[i] == CoerceRow(frame.rows[i], frame.columns)
  {
    var rows := frame.rows;
    for k := 0 to |ValueColumns|
      invariant |rows| == |frame.rows|
      invariant forall i :: 0 <= i < |rows| ==> rows[i] == CoerceFirst(frame.rows[i], frame.columns, k)
    {
      if ValueColumns[k] in frame.columns {
        rows := seq(|rows|, i requires 0 <= i < |rows| => CoerceColumn(rows[i], k));
      }
    }
    out := frame.(rows := rows);
  }

  /** The table the coercion loop produces, as a value. */
  function Coerced(frame: CdaFrame): (r: CdaFrame)
    ensures r.columns == frame.columns && |r.rows| == |frame.rows|
    ensures forall i :: 0 <= i < |r.rows| ==> r.rows[i] == CoerceRow(frame.rows[i], frame.columns)
  {
    frame.(rows := seq(|frame.rows|, i requires 0 <= i < |frame.rows| => CoerceRow(frame.rows[i], frame.columns)))
  }

  // ------------------------------------------------------------- grouping

  /** One row of `groupby('CNPJ_FUNDO_CLASSE').agg(...)`. */
  datatype FundTotal = FundTotal(fund: IdCell, market: real, cost: real, name: Option<string>, date: Option<string>)

  /** The group key: a missing CNPJ is dropped from the groups. */
  function FundKey(x: CdaRow): Option<IdCell> {
    if x.fund.IdNull? then None else Some(x.fund)
  }

  predicate HasFundKey(x: CdaRow) { !x.fund.IdNull? }

  function MarketOf(x: CdaRow): Option<real> { AsReal(x.market) }
  function CostOf(x: CdaRow): Option<real> { AsReal(x.cost) }

  /** The aggregate of one fund's rows. */
  function FundTotalOf(rows: seq<CdaRow>, k: IdCell): (t: FundTotal)
    ensures t.fund == k
  {
    var g := Group(rows, FundKey, k);
    FundTotal(k, SumOf(g, MarketOf), SumOf(g, CostOf),
      FirstPresent(g, (x: CdaRow) => x.fundName), FirstPresent(g, (x: CdaRow) => x.date))
  }

  /**
   * The fund `groupby` (streamlit_app_dynamic.py:197-203,
   * analyze_offshore_managers.py:49-54): one row per present fund CNPJ, a
   * KeyError when a named column is missing.
   */
  function GroupByFund(frame: CdaFrame): (r: Result<seq<FundTotal>>)
    ensures !(GroupedColumns <= frame.columns) <==> r.Err?
    ensures r.Ok? ==> NoDuplicates(FundIds(r.value))
    ensures r.Ok? ==> forall k :: k in FundIds(r.value) <==> exists i :: 0 <= i < |frame.rows| && frame.rows[i].fund == k && !k.IdNull?
    ensures r.Ok? ==> forall i :: 0 <= i < |r.value| ==> r.value[i] == FundTotalOf(frame.rows, r.value[i].fund)
  {
    if !(GroupedColumns <= frame.columns) then Err(MissingColumn("CNPJ_FUNDO_CLASSE"))
    else
      var ks := GroupKeys(frame.rows, FundKey);
      var ts := TotalsFor(frame.rows, ks);
      assert FundIds(ts) == ks;
      assert forall k :: (exists i :: 0 <= i < |frame.rows| && FundKey(frame.rows[i]) == Some(k))
                     <==> (exists i :: 0 <= i < |frame.rows| && frame.rows[i].fund == k && !k.IdNull?);
      Ok(ts)
  }

  function FundIds(ts: seq<FundTotal>): (r: seq<IdCell>)
    ensures |r| == |ts| && forall i :: 0 <= i < |ts| ==> r[i] == ts[i].fund
  {
    seq(|ts|, i requires 0 <= i < |ts| => ts[i].fund)
  }

  function Markets(ts: seq<FundTotal>): (r: seq<real>)
    ensures |r| == |ts| && forall i :: 0 <= i < |ts| ==> r[i] == ts[i].market
  {
    seq(|ts|, i requires 0 <= i < |ts| => ts[i].market)
  }

  /** The aggregates of the groups `ks`, in that order. */
  function TotalsFor(rows: seq<CdaRow>, ks: seq<IdCell>): (ts: seq<FundTotal>)
    ensures |ts| == |ks| && forall i :: 0 <= i < |ks| ==> ts[i] == FundTotalOf(rows, ks[i])
  {
    seq(|ks|, i requires 0 <= i < |ks| => FundTotalOf(rows, ks[i]))
  }

  lemma {:induction false} MarketsOfKeys(rows: seq<CdaRow>, ks: seq<IdCell>)
    ensures SumReals(Markets(TotalsFor(rows, ks))) == SumOverKeys(rows, FundKey, MarketOf, ks)
  {
    if ks != [] {
      var init := ks[..|ks| - 1];
      MarketsOfKeys(rows, init);
      var all := Markets(TotalsFor(rows, ks));
      var front := Markets(TotalsFor(rows, init));
      forall i | 0 <= i < |front| ensures all[i] == front[i] {
        assert init[i] == ks[i];
      }
      assert all[..|all| - 1] == front;
      SumRealsLast(all);
    }
  }

  /**
   * Grouping conserves money: the fund totals add up to the market value of
   * every position with a fund CNPJ, non-numeric values counting as nothing.
   */
  lemma GroupByFundConservesMarket(frame: CdaFrame)
    requires GroupByFund(frame).Ok?
    ensures SumReals(Markets(GroupByFund(frame).value)) == SumOf(Filter(frame.rows, HasFundKey), MarketOf)
  {
    var ks := GroupKeys(frame.rows, FundKey);
    assert GroupByFund(frame).value == TotalsFor(frame.rows, ks);
    MarketsOfKeys(frame.rows, ks);
    GroupSumsConserveTotal(frame.rows, FundKey, MarketOf, HasFundKey);
  }

  /** The zero filter (streamlit_app_dynamic.py:211, analyze_offshore_managers.py:57). */
  function PositiveFunds(ts: seq<FundTotal>): (r: seq<FundTotal>)
    ensures forall i :: 0 <= i < |r| ==> r[i].market > 0.0
    ensures forall t :: t in r <==> t in ts && t.market > 0.0
    ensures IsSubsequence(r, ts)
    ensures NoDuplicates(FundIds(ts)) ==> NoDuplicates(FundIds(r))
  {
    var r := Filter(ts, IsPositiveFund);
    assert NoDuplicates(FundIds(ts)) ==> NoDuplicates(FundIds(r)) by {
      if NoDuplicates(FundIds(ts)) { FilterKeepsDistinctIds(ts, IsPositiveFund); }
    }
    r
  }

  predicate IsPositiveFund(t: FundTotal) { t.market > 0.0 }

  /** After the zero filter the fund ids are still distinct. */
  lemma {:induction false} FilterKeepsDistinctIds(ts: seq<FundTotal>, p: FundTotal -> bool)
    requires NoDuplicates(FundIds(ts))
    ensures NoDuplicates(FundIds(Filter(ts, p)))
  {
    if ts != [] {
      var rest := Filter(ts[1..], p);
      TailDistinct(ts);
      FilterKeepsDistinctIds(ts[1..], p);
      if p(ts[0]) {
        var f := Filter(ts, p);
        assert f == [ts[0]] + rest;
        assert f[1..] == rest;
        HeadNotKept(ts, p);
        ConsDistinct(f);
      } else {
        assert Filter(ts, p) == rest;
      }
    }
  }

  lemma TailDistinct(ts: seq<FundTotal>)
    requires ts != [] && NoDuplicates(FundIds(ts))
    ensures NoDuplicates(FundIds(ts[1..]))
  {
    forall i, j | 0 <= i < j < |ts| - 1 ensures FundIds(ts[1..])[i] != FundIds(ts[1..])[j] {
      assert FundIds(ts)[i + 1] != FundIds(ts)[j + 1];
    }
  }

  /** No fund the filter keeps from the tail shares the head's id. */
  lemma HeadNotKept(ts: seq<FundTotal>, p: FundTotal -> bool)
    requires ts != [] && NoDuplicates(FundIds(ts))
    ensures forall j :: 0 <= j < |Filter(ts[1..], p)| ==> Filter(ts[1..], p)[j].fund != ts[0].fund
  {
    var rest := Filter(ts[1..], p);
    forall j | 0 <= j < |rest| ensures rest[j].fund != ts[0].fund {
      assert rest[j] in ts[1..];
      var m :| 0 <= m < |ts[1..]| && ts[1..][m] == rest[j];
      assert FundIds(ts)[m + 1] == rest[j].fund;
    }
  }

  /** A table whose tail has distinct ids, none equal to its head's, has distinct ids. */
  lemma ConsDistinct(b: seq<FundTotal>)
    requires b != [] && NoDuplicates(FundIds(b[1..]))
    requires forall q :: 0 <= q < |b[1..]| ==> b[1..][q].fund != b[0].fund
    ensures NoDuplicates(FundIds(b))
  {
    forall i, j | 0 <= i < j < |b| ensures FundIds(b)[i] != FundIds(b)[j] {
      assert b[j] == b[1..][j - 1];
      if i > 0 {
        assert b[i] == b[1..][i - 1];
        assert FundIds(b[1..])[i - 1] != FundIds(b[1..])[j - 1];
      }
    }
  }
}
