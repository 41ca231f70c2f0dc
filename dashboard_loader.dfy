/**
 * The dashboard's `process_cda_data` (streamlit_app_dynamic.py:137-408):
 * from one CDA position file and the two registries to the ranked table of
 * managers. The fund registry is joined on the fund's digit-only CNPJ, the
 * manager registry on the upper-cased, stripped manager name, and the
 * ranking groups the funds by the registry's gestor id and name.
 */
module DashboardLoader {
  import opened Wrappers
  import opened Text
  import opened Cells
  import opened Cnpj
  import opened Relational
  import opened Positions
  import opened Registries
  import opened ManagerRanking

  // ---------------------------------------------------------------- schema

  /** `fund_offshore` after line 218. */
  const FundTotalColumns: set<string> :=
    {"CNPJ_FUNDO_CLASSE", "VL_MERC_POS_FINAL", "VL_CUSTO_POS_FINAL", "DENOM_SOCIAL", "DT_COMPTC", "CNPJ_FUNDO_CLASSE_clean"}

  /** The fund registry columns taken into the merge at line 232. */
  const FundRegistryColumns: set<string> := {"CNPJ_Fundo_clean", "CPF_CNPJ_Gestor", "Gestor"}

  /** The manager registry columns taken into the merge at line 302. */
  const ManagerRegistryColumns: set<string> :=
    {"DENOM_SOCIAL_clean", "DENOM_SOCIAL", "MUN", "UF", "LOGRADOURO", "BAIRRO", "CEP"}

  /** The per-manager group of line 341, before the rename. */
  const GroupColumns: set<string> :=
    {"Manager_CNPJ", "Manager_Name", "VL_MERC_POS_FINAL", "VL_CUSTO_POS_FINAL", "CNPJ_FUNDO_CLASSE"}

  /** `merged_df` with the two `_clean` columns of lines 245 and 298. */
  function MergedColumns(): set<string> {
    MergeColumns(FundTotalColumns, FundRegistryColumns, {}) + {"CPF_CNPJ_Gestor_clean", "Gestor_clean"}
  }

  /** `valid_df` (lines 323-338): `final_df` plus the two manager columns. */
  function ValidColumns(): set<string> {
    MergeColumns(MergedColumns(), ManagerRegistryColumns, {}) + {"Manager_CNPJ", "Manager_Name"}
  }

  /** The `location_data` columns that `agg_dict` (lines 352-363) produces. */
  function LocationColumns(valid: set<string>): (cols: set<string>)
    ensures "DENOM_SOCIAL" in valid <==> "DENOM_SOCIAL" in cols
    ensures "DENOM_SOCIAL" !in valid <==> "Manager_Name" in cols
  {
    {"Manager_CNPJ", "MUN", "UF"} + (if "DENOM_SOCIAL" in valid then {"DENOM_SOCIAL"} else {"Manager_Name"})
  }

  /** `manager_offshore` after the location merge of line 370. */
  function LocatedColumns(): set<string> {
    MergeColumns(GroupColumns, LocationColumns(ValidColumns()), {"Manager_CNPJ"})
  }

  /** The fixed entries of `rename_dict` (lines 373-379). */
  const BaseRename: map<string, string> :=
    map["VL_MERC_POS_FINAL" := "Total_Offshore_Assets_Market_Value",
        "VL_CUSTO_POS_FINAL" := "Total_Offshore_Assets_Cost_Value",
        "CNPJ_FUNDO_CLASSE" := "Number_of_Funds",
        "MUN" := "MUN", "UF" := "UF"]

  /** `rename_dict` with its name entry (lines 381-385). */
  function RenamePlan(cols: set<string>): (plan: map<string, string>)
    ensures "DENOM_SOCIAL" !in cols && "Manager_Name" !in cols ==> plan == BaseRename
  {
    if "DENOM_SOCIAL" in cols then BaseRename["DENOM_SOCIAL" := "DENOM_SOCIAL"]
    else if "Manager_Name" in cols then BaseRename["Manager_Name" := "DENOM_SOCIAL"]
    else BaseRename
  }

  /** The name column filled with "N/A" at lines 392-395, if any. */
  function FilledNameColumn(cols: set<string>): (r: Option<string>)
    ensures r.Some? ==> r.value in cols
    ensures r.None? <==> "DENOM_SOCIAL" !in cols && "Manager_Name" !in cols
  {
    if "DENOM_SOCIAL" in cols then Some("DENOM_SOCIAL")
    else if "Manager_Name" in cols then Some("Manager_Name")
    else None
  }

  /** The columns of the returned table. */
  function OutputColumns(): set<string> {
    Renamed(LocatedColumns(), RenamePlan(LocatedColumns())) + {"Percentage_of_Total"}
  }

  lemma MergedColumnsFacts()
    ensures "DENOM_SOCIAL" in MergedColumns()
    ensures "MUN" !in MergedColumns() && "UF" !in MergedColumns()
  {
    MergeKeeps(FundTotalColumns, FundRegistryColumns, {}, "MUN");
    MergeKeeps(FundTotalColumns, FundRegistryColumns, {}, "UF");
  }

  /**
   * The funds' DENOM_SOCIAL meets the registry's in the name merge, so
   * `valid_df` has DENOM_SOCIAL_x and DENOM_SOCIAL_y and no DENOM_SOCIAL;
   * `agg_dict` then falls back to Manager_Name.
   */
  lemma ValidColumnsFacts()
    ensures "DENOM_SOCIAL" !in ValidColumns()
    ensures "DENOM_SOCIAL_x" in ValidColumns() && "DENOM_SOCIAL_y" in ValidColumns()
    ensures "MUN" in ValidColumns() && "UF" in ValidColumns()
    ensures LocationColumns(ValidColumns()) == {"Manager_CNPJ", "MUN", "UF", "Manager_Name"}
  {
    MergedColumnsFacts();
    MergeKeeps(MergedColumns(), ManagerRegistryColumns, {}, "DENOM_SOCIAL");
    MergeKeeps(MergedColumns(), ManagerRegistryColumns, {}, "MUN");
    MergeKeeps(MergedColumns(), ManagerRegistryColumns, {}, "UF");
    assert "DENOM_SOCIAL" + "_x" == "DENOM_SOCIAL_x";
    assert "DENOM_SOCIAL" + "_y" == "DENOM_SOCIAL_y";
  }

  /** The columns of `manager_offshore` after the location merge of line 370. */
  lemma LocatedColumnsFacts()
    ensures "DENOM_SOCIAL" !in LocatedColumns() && "Manager_Name" !in LocatedColumns()
    ensures "Manager_Name_x" in LocatedColumns() && "Manager_Name_y" in LocatedColumns()
    ensures "MUN" in LocatedColumns() && "UF" in LocatedColumns() && "VL_MERC_POS_FINAL" in LocatedColumns()
  {
    ValidColumnsFacts();
    LocatedNames(LocationColumns(ValidColumns()));
    LocatedKept(LocationColumns(ValidColumns()));
  }

  lemma LocatedNames(loc: set<string>)
    requires loc == {"Manager_CNPJ", "MUN", "UF", "Manager_Name"}
    ensures "DENOM_SOCIAL" !in MergeColumns(GroupColumns, loc, {"Manager_CNPJ"})
    ensures "Manager_Name" !in MergeColumns(GroupColumns, loc, {"Manager_CNPJ"})
    ensures "Manager_Name_x" in MergeColumns(GroupColumns, loc, {"Manager_CNPJ"})
    ensures "Manager_Name_y" in MergeColumns(GroupColumns, loc, {"Manager_CNPJ"})
  {
    MergeKeeps(GroupColumns, loc, {"Manager_CNPJ"}, "DENOM_SOCIAL");
    MergeKeeps(GroupColumns, loc, {"Manager_CNPJ"}, "Manager_Name");
    assert "Manager_Name" + "_x" == "Manager_Name_x";
    assert "Manager_Name" + "_y" == "Manager_Name_y";
  }

  lemma LocatedKept(loc: set<string>)
    requires loc == {"Manager_CNPJ", "MUN", "UF", "Manager_Name"}
    ensures "MUN" in MergeColumns(GroupColumns, loc, {"Manager_CNPJ"})
    ensures "UF" in MergeColumns(GroupColumns, loc, {"Manager_CNPJ"})
    ensures "VL_MERC_POS_FINAL" in MergeColumns(GroupColumns, loc, {"Manager_CNPJ"})
  {
    MergeKeeps(GroupColumns, loc, {"Manager_CNPJ"}, "MUN");
    MergeKeeps(GroupColumns, loc, {"Manager_CNPJ"}, "UF");
    MergeKeeps(GroupColumns, loc, {"Manager_CNPJ"}, "VL_MERC_POS_FINAL");
  }

  /** No rename target is a name column other than the kept DENOM_SOCIAL. */
  lemma BaseRenameTargets()
    ensures BaseRename.Keys == {"VL_MERC_POS_FINAL", "VL_CUSTO_POS_FINAL", "CNPJ_FUNDO_CLASSE", "MUN", "UF"}
    ensures forall d :: d in BaseRename ==> BaseRename[d] != "DENOM_SOCIAL" && BaseRename[d] != "Manager_Name"
    ensures BaseRename["MUN"] == "MUN" && BaseRename["UF"] == "UF"
    ensures BaseRename["VL_MERC_POS_FINAL"] == "Total_Offshore_Assets_Market_Value"
  {
  }

  /**
   * The location table's Manager_Name meets the group's in the merge of line
   * 370, so the returned table has Manager_Name_x (the group's name) and
   * Manager_Name_y (the first name of the id), and keeps MUN and UF.
   */
  lemma OutputColumnsFacts()
    ensures "Manager_Name_x" in OutputColumns() && "Manager_Name_y" in OutputColumns()
    ensures "MUN" in OutputColumns() && "UF" in OutputColumns()
    ensures "Total_Offshore_Assets_Market_Value" in OutputColumns() && "Percentage_of_Total" in OutputColumns()
  {
    LocatedColumnsFacts();
    var located := LocatedColumns();
    assert RenamePlan(located) == BaseRename;
    OutputRename(located);
  }

  lemma OutputRename(cols: set<string>)
    requires "Manager_Name_x" in cols && "Manager_Name_y" in cols
    requires "MUN" in cols && "UF" in cols && "VL_MERC_POS_FINAL" in cols
    ensures var r := Renamed(cols, BaseRename) + {"Percentage_of_Total"};
      && "Manager_Name_x" in r && "Manager_Name_y" in r && "MUN" in r && "UF" in r
      && "Total_Offshore_Assets_Market_Value" in r && "Percentage_of_Total" in r
  {
    assert "Manager_Name_x" !in BaseRename && "Manager_Name_y" !in BaseRename;
    assert BaseRename["MUN"] == "MUN" && BaseRename["UF"] == "UF";
    assert BaseRename["VL_MERC_POS_FINAL"] == "Total_Offshore_Assets_Market_Value";
  }

  /** The returned table has neither DENOM_SOCIAL nor Manager_Name: no name column is renamed and none is filled. */
  lemma OutputHasNoNameColumn()
    ensures "DENOM_SOCIAL" !in OutputColumns() && "Manager_Name" !in OutputColumns()
    ensures FilledNameColumn(LocatedColumns()).None?
  {
    LocatedColumnsFacts();
    BaseRenameTargets();
    assert RenamePlan(LocatedColumns()) == BaseRename;
  }

  // ---------------------------------------------------------------- stages

  /**
   * Lines 166-213: select the asset types, refuse an empty selection, coerce
   * the value columns, refuse a file without DENOM_SOCIAL, group by fund and
   * keep the funds with a positive market value.
   */
  function FundStage(cda: CdaFrame, types: Option<seq<string>>): (r: Result<seq<FundTotal>>)
    ensures r.Ok? ==> forall i :: 0 <= i < |r.value| ==> r.value[i].market > 0.0
  {
    match SelectAssetTypes(cda, types)
    case Err(f) => Err(f)
    case Ok(selected) =>
      if selected.rows == [] then Err(NoRowsAfterFilter)
      else
        var coerced := Coerced(selected);
        if "DENOM_SOCIAL" !in coerced.columns then Err(NoFundNameColumn)
        else
          match GroupByFund(coerced)
          case Err(f) => Err(f)
          case Ok(ts) =>
            Ok(PositiveFunds(ts))
  }

  /**
   * The fund stage stops on a failed selection, on an empty selection and on
   * a file without DENOM_SOCIAL.
   */
  lemma FundStageErrors(cda: CdaFrame, types: Option<seq<string>>)
    ensures SelectAssetTypes(cda, types).Err? ==> FundStage(cda, types) == Err(SelectAssetTypes(cda, types).failure)
    ensures SelectAssetTypes(cda, types).Ok? && SelectAssetTypes(cda, types).value.rows == [] ==>
      FundStage(cda, types) == Err(NoRowsAfterFilter)
    ensures SelectAssetTypes(cda, types).Ok? && SelectAssetTypes(cda, types).value.rows != [] && "DENOM_SOCIAL" !in cda.columns ==>
      FundStage(cda, types) == Err(NoFundNameColumn)
    ensures FundStage(cda, types).Ok? ==> GroupedColumns <= cda.columns
  {
  }

  /** Otherwise it lists each fund of the selection once, with its totals. */
  lemma FundStageFunds(cda: CdaFrame, types: Option<seq<string>>)
    requires FundStage(cda, types).Ok?
    ensures NoDuplicates(FundIds(FundStage(cda, types).value))
    ensures forall i :: 0 <= i < |FundStage(cda, types).value| ==>
      FundStage(cda, types).value[i] == FundTotalOf(Coerced(SelectAssetTypes(cda, types).value).rows, FundStage(cda, types).value[i].fund)
  {
    var frame := Coerced(SelectAssetTypes(cda, types).value);
    var ts := GroupByFund(frame).value;
    assert FundStage(cda, types).value == PositiveFunds(ts);
    PositiveGrouped(frame, ts, FundStage(cda, types).value);
  }

  /** The positive funds of a grouping are distinct, each with its totals. */
  lemma PositiveGrouped(frame: CdaFrame, ts: seq<FundTotal>, r: seq<FundTotal>)
    requires GroupByFund(frame) == Ok(ts) && r == PositiveFunds(ts)
    ensures NoDuplicates(FundIds(r))
    ensures forall i :: 0 <= i < |r| ==> r[i] == FundTotalOf(frame.rows, r[i].fund)
  {
    assert forall i :: 0 <= i < |r| ==> r[i] in ts;
  }

  /** A fund row after the fund-registry merge of lines 231-236. */
  datatype GestorRow = GestorRow(fund: FundTotal, gestorId: IdCell, gestor: Option<string>)

  /** The fund's digit-only CNPJ (line 218). */
  function FundKeyText(t: FundTotal): string { DigitsOf(t.fund) }

  function GestorOf(p: (FundTotal, Option<FundEntry>), widen: bool): GestorRow {
    match p.1
    case None => GestorRow(p.0, IdNull, None)
    case Some(e) => GestorRow(p.0, Widened(e.gestorId, widen), e.gestor)
  }

  /** The merge of lines 231-236, on the fund's digit-only CNPJ. */
  function GestorJoin(funds: seq<FundTotal>, registry: seq<FundEntry>): seq<(FundTotal, Option<FundEntry>)> {
    JoinRegistry(funds, FundTextIds(registry), registry, FundKeyText)
  }

  /**
   * Lines 231-236: each positive fund paired with the gestor id and name of
   * every registry row of its CNPJ, or with none.
   */
  function AttachGestors(funds: seq<FundTotal>, registry: seq<FundEntry>): (r: seq<GestorRow>)
    ensures |r| >= |funds|
    ensures forall i :: 0 <= i < |r| ==> r[i].fund in funds
  {
    var joined := GestorJoin(funds, registry);
    seq(|joined|, i requires 0 <= i < |joined| => GestorOf(joined[i], SomeUnmatched(joined)))
  }

  /**
   * No fund is lost in the merge: each appears with the gestor of every
   * registry row of its CNPJ (the id widened to a float when some fund is
   * unmatched), and a fund no registry row has appears with neither.
   */
  lemma GestorsKeepFunds(funds: seq<FundTotal>, registry: seq<FundEntry>, i: nat)
    requires i < |funds|
    ensures exists k :: 0 <= k < |AttachGestors(funds, registry)| && AttachGestors(funds, registry)[k].fund == funds[i]
    ensures forall j :: 0 <= j < |registry| && DigitsOf(registry[j].fund) == FundKeyText(funds[i]) ==>
      GestorRow(funds[i], Widened(registry[j].gestorId, SomeUnmatched(GestorJoin(funds, registry))), registry[j].gestor)
        in AttachGestors(funds, registry)
    ensures (forall j :: 0 <= j < |registry| ==> DigitsOf(registry[j].fund) != FundKeyText(funds[i])) ==>
      GestorRow(funds[i], IdNull, None) in AttachGestors(funds, registry)
  {
    var keys := FundTextIds(registry);
    var joined := GestorJoin(funds, registry);
    JoinRegistryKeepsRows(funds, keys, registry, FundKeyText, i);
    var o :| (funds[i], o) in joined;
    JoinedGestor(funds, registry, (funds[i], o));
    forall j | 0 <= j < |registry| && DigitsOf(registry[j].fund) == FundKeyText(funds[i])
      ensures GestorRow(funds[i], Widened(registry[j].gestorId, SomeUnmatched(joined)), registry[j].gestor)
        in AttachGestors(funds, registry)
    {
      assert keys[j] == FundKeyText(funds[i]);
      JoinedGestor(funds, registry, (funds[i], Some(registry[j])));
    }
    if forall j :: 0 <= j < |registry| ==> DigitsOf(registry[j].fund) != FundKeyText(funds[i]) {
      JoinRegistryUnmatched(funds, keys, registry, FundKeyText, (funds[i], o));
    }
  }

  /** A pair of the merge becomes a fund row with its gestor. */
  lemma JoinedGestor(funds: seq<FundTotal>, registry: seq<FundEntry>, p: (FundTotal, Option<FundEntry>))
    requires p in GestorJoin(funds, registry)
    ensures GestorOf(p, SomeUnmatched(GestorJoin(funds, registry))) in AttachGestors(funds, registry)
  {
    var joined := GestorJoin(funds, registry);
    var k :| 0 <= k < |joined| && joined[k] == p;
    assert AttachGestors(funds, registry)[k] == GestorOf(p, SomeUnmatched(joined));
  }

  /**
   * A fund row has a gestor id or name only from a registry row of its CNPJ,
   * and a fund the registry lacks has neither.
   */
  lemma GestorOrigin(funds: seq<FundTotal>, registry: seq<FundEntry>, i: nat)
    requires i < |AttachGestors(funds, registry)|
    ensures var g := AttachGestors(funds, registry)[i];
      (g.gestor.Some? || !g.gestorId.IdNull?) ==>
        exists j :: (0 <= j < |registry| && DigitsOf(registry[j].fund) == FundKeyText(g.fund)
                     && g.gestor == registry[j].gestor
                     && (IsPresentNonZero(g.gestorId) <==> IsPresentNonZero(registry[j].gestorId)))
    ensures var g := AttachGestors(funds, registry)[i];
      (forall j :: 0 <= j < |registry| ==> DigitsOf(registry[j].fund) != FundKeyText(g.fund)) ==>
        g.gestorId.IdNull? && g.gestor.None?
  {
    var joined := GestorJoin(funds, registry);
    assert AttachGestors(funds, registry)[i] == GestorOf(joined[i], SomeUnmatched(joined));
  }

  /**
   * Lines 245-272 as written (see `GestorIdAsWritten`): the fourteen-digit
   * id of every row, or None when `float` raises on one.
   */
  function CleanGestorIds(rows: seq<GestorRow>): (r: Option<seq<string>>)
    ensures r.None? <==> exists i :: 0 <= i < |rows| && GestorIdAsWritten(rows[i].gestorId).None?
    ensures r.Some? ==> |r.value| == |rows|
    ensures r.Some? ==> forall i :: 0 <= i < |rows| ==> GestorIdAsWritten(rows[i].gestorId) == Some(r.value[i])
    ensures r.Some? ==> forall i :: 0 <= i < |rows| ==> |r.value[i]| == CnpjWidth && AllDigits(r.value[i])
  {
    if exists i :: 0 <= i < |rows| && GestorIdAsWritten(rows[i].gestorId).None? then None
    else Some(seq(|rows|, i requires 0 <= i < |rows| => GestorIdAsWritten(rows[i].gestorId).value))
  }

  /** Lines 284-286: how many distinct gestor ids the manager registry also has. */
  function MatchCount(ids: seq<string>, registry: seq<ManagerEntry>): (n: nat)
    ensures n == |set x | x in ids && x in ManagerTextIds(registry)|
    ensures n <= |set x | x in ids|
    ensures n <= |set y | y in ManagerTextIds(registry)|
  {
    var gs := set x | x in ids;
    var ms := set y | y in ManagerTextIds(registry);
    assert gs * ms <= gs && gs * ms <= ms;
    assert (set x | x in ids && x in ManagerTextIds(registry)) == gs * ms;
    SubsetSize(gs * ms, gs);
    SubsetSize(gs * ms, ms);
    |gs * ms|
  }

  lemma SubsetSize<T>(a: set<T>, b: set<T>)
    requires a <= b
    ensures |a| <= |b|
  {
    assert b == a + (b - a);
  }

  /** Line 298: the name key of a fund row. */
  function GestorName(g: GestorRow): Option<string> { CleanName(g.gestor) }

  /** Lines 301-306: the name-based merge with the manager registry. */
  function AttachManagers(rows: seq<GestorRow>, registry: seq<ManagerEntry>): seq<(GestorRow, Option<ManagerEntry>)> {
    JoinRegistry(rows, ManagerCleanNames(registry), registry, GestorName)
  }

  /** Lines 337-338 and the columns the two groupings read. */
  function HoldingOf(p: (GestorRow, Option<ManagerEntry>)): Holding {
    var g := p.0;
    Holding(g.gestorId, g.gestor, g.fund.market, g.fund.cost, g.gestor,
            if p.1.Some? then p.1.value.city else None,
            if p.1.Some? then p.1.value.state else None)
  }

  /**
   * The rows of `final_df`. A city or state comes from a registry row whose
   * cleaned DENOM_SOCIAL equals the cleaned gestor name.
   */
  function Holdings(rows: seq<GestorRow>, registry: seq<ManagerEntry>): (hs: seq<Holding>)
    ensures forall i :: 0 <= i < |hs| ==>
      exists g :: g in rows && hs[i].manager == g.gestorId && hs[i].name == g.gestor && hs[i].market == g.fund.market
  {
    var joined := AttachManagers(rows, registry);
    var hs := seq(|joined|, i requires 0 <= i < |joined| => HoldingOf(joined[i]));
    assert forall i :: 0 <= i < |hs| ==>
      exists g :: g in rows && hs[i].manager == g.gestorId && hs[i].name == g.gestor && hs[i].market == g.fund.market by {
      forall i | 0 <= i < |hs|
        ensures exists g :: g in rows && hs[i].manager == g.gestorId && hs[i].name == g.gestor && hs[i].market == g.fund.market
      {
        var g := joined[i].0;
        assert g in rows;
        assert hs[i] == HoldingOf(joined[i]);
      }
    }
    hs
  }

  /**
   * No fund row is lost in the name merge of lines 301-306: each appears
   * once with every registry row whose cleaned DENOM_SOCIAL equals its
   * cleaned gestor name, or with no city and state when none does.
   */
  lemma HoldingsKeepRows(rows: seq<GestorRow>, registry: seq<ManagerEntry>, i: nat)
    requires i < |rows|
    ensures exists h :: (h in Holdings(rows, registry) && h.manager == rows[i].gestorId
                         && h.name == rows[i].gestor && h.market == rows[i].fund.market)
    ensures forall j :: 0 <= j < |registry| && CleanName(registry[j].name) == GestorName(rows[i]) ==>
      HoldingOf((rows[i], Some(registry[j]))) in Holdings(rows, registry)
    ensures (forall j :: 0 <= j < |registry| ==> CleanName(registry[j].name) != GestorName(rows[i])) ==>
      HoldingOf((rows[i], None)) in Holdings(rows, registry)
  {
    var keys := ManagerCleanNames(registry);
    var joined := AttachManagers(rows, registry);
    JoinRegistryKeepsRows(rows, keys, registry, GestorName, i);
    var o :| (rows[i], o) in joined;
    JoinedHolding(rows, registry, (rows[i], o));
    forall j | 0 <= j < |registry| && CleanName(registry[j].name) == GestorName(rows[i])
      ensures HoldingOf((rows[i], Some(registry[j]))) in Holdings(rows, registry)
    {
      assert keys[j] == GestorName(rows[i]);
      JoinedHolding(rows, registry, (rows[i], Some(registry[j])));
    }
    if forall j :: 0 <= j < |registry| ==> CleanName(registry[j].name) != GestorName(rows[i]) {
      JoinRegistryUnmatched(rows, keys, registry, GestorName, (rows[i], o));
    }
  }

  /** A pair of the name merge becomes a holding. */
  lemma JoinedHolding(rows: seq<GestorRow>, registry: seq<ManagerEntry>, p: (GestorRow, Option<ManagerEntry>))
    requires p in AttachManagers(rows, registry)
    ensures HoldingOf(p) in Holdings(rows, registry)
  {
    var joined := AttachManagers(rows, registry);
    var k :| 0 <= k < |joined| && joined[k] == p;
    assert Holdings(rows, registry)[k] == HoldingOf(p);
  }

  /** A city or state reaches a holding only from a registry row whose cleaned name is the gestor's. */
  lemma HoldingLocationOrigin(rows: seq<GestorRow>, registry: seq<ManagerEntry>, i: nat)
    requires i < |Holdings(rows, registry)|
    ensures var h := Holdings(rows, registry)[i];
      (h.city.Some? || h.state.Some?) ==>
        exists j :: (0 <= j < |registry| && CleanName(registry[j].name) == CleanName(h.name)
                     && h.city == registry[j].city && h.state == registry[j].state)
  {
    var joined := AttachManagers(rows, registry);
    assert Holdings(rows, registry)[i] == HoldingOf(joined[i]);
  }

  /** Lines 390-391: missing cities and states become "N/A". */
  function FillLocation(t: ManagerTotal): (r: ManagerTotal)
    ensures r.city.Some? && r.state.Some?
    ensures t.city.Some? ==> r.city == t.city
    ensures t.state.Some? ==> r.state == t.state
    ensures t.city.None? ==> r.city == Some("N/A")
    ensures t.state.None? ==> r.state == Some("N/A")
    ensures r.(city := t.city, state := t.state) == t
  {
    t.(city := Some(t.city.GetOr("N/A")), state := Some(t.state.GetOr("N/A")))
  }

  function FillLocations(ts: seq<ManagerTotal>): (r: seq<ManagerTotal>)
    ensures |r| == |ts| && forall i :: 0 <= i < |ts| ==> r[i] == FillLocation(ts[i])
  {
    seq(|ts|, i requires 0 <= i < |ts| => FillLocation(ts[i]))
  }

  /** What the loader hands over: the ranked table and the sidebar's match count. */
  datatype LoaderOutput = LoaderOutput(table: seq<Ranked>, matches: nat)

  /** The valid holdings (lines 323-325) and the match count, or why the loader stops first. */
  function ValidStage(cda: CdaFrame, types: Option<seq<string>>, funds: seq<FundEntry>, managers: seq<ManagerEntry>):
    (r: Result<(seq<Holding>, nat)>)
  {
    match FundStage(cda, types)
    case Err(f) => Err(f)
    case Ok(positive) =>
      var rows := AttachGestors(positive, funds);
      match CleanGestorIds(rows)
      case None => Err(InvalidScientificId)
      case Some(ids) =>
        var valid := Filter(Holdings(rows, managers), HasManager);
        if valid == [] then Err(NoValidRows) else Ok((valid, MatchCount(ids, managers)))
  }

  /** The valid-manager filter leaves rows with an id and a positive market value. */
  lemma ValidStageRows(cda: CdaFrame, types: Option<seq<string>>, funds: seq<FundEntry>, managers: seq<ManagerEntry>)
    requires ValidStage(cda, types, funds, managers).Ok?
    ensures ValidHoldings(ValidStage(cda, types, funds, managers).value.0)
  {
    var positive := FundStage(cda, types).value;
    var valid := ValidStage(cda, types, funds, managers).value.0;
    assert valid == Filter(Holdings(AttachGestors(positive, funds), managers), HasManager) && valid != [];
    FilteredHoldings(positive, funds, managers, valid);
  }

  lemma FilteredHoldings(positive: seq<FundTotal>, funds: seq<FundEntry>, managers: seq<ManagerEntry>, valid: seq<Holding>)
    requires forall i :: 0 <= i < |positive| ==> positive[i].market > 0.0
    requires valid == Filter(Holdings(AttachGestors(positive, funds), managers), HasManager) && valid != []
    ensures ValidHoldings(valid)
  {
    var hs := Holdings(AttachGestors(positive, funds), managers);
    PositiveRows(positive, funds, managers);
    assert forall i :: 0 <= i < |valid| ==> valid[i] in hs;
  }

  /** What the valid-manager filter leaves: at least one row, each with an id and a positive market value. */
  ghost predicate ValidHoldings(hs: seq<Holding>) {
    hs != [] && forall i :: 0 <= i < |hs| ==> IsPresentNonZero(hs[i].manager) && hs[i].market > 0.0
  }

  /** Every holding carries the market value of a positive fund. */
  lemma PositiveRows(positive: seq<FundTotal>, funds: seq<FundEntry>, managers: seq<ManagerEntry>)
    requires forall i :: 0 <= i < |positive| ==> positive[i].market > 0.0
    ensures forall h :: h in Holdings(AttachGestors(positive, funds), managers) ==> h.market > 0.0
  {
    var rows := AttachGestors(positive, funds);
    var hs := Holdings(rows, managers);
    forall h | h in hs ensures h.market > 0.0 {
      var i :| 0 <= i < |hs| && hs[i] == h;
      var g :| g in rows && h.market == g.fund.market;
    }
  }

  /** Lines 341-402: group, attach the locations, fill them, sort and add the shares. */
  function Table(valid: seq<Holding>): seq<Ranked> {
    Rank(FillLocations(ManagerTotals(valid, true)))
  }

  /** The whole loader as a function of its inputs. */
  function LoaderResult(cda: CdaFrame, types: Option<seq<string>>, funds: seq<FundEntry>, managers: seq<ManagerEntry>):
    (r: Result<LoaderOutput>)
    ensures r.Err? <==> ValidStage(cda, types, funds, managers).Err?
    ensures r.Err? ==> r.failure == ValidStage(cda, types, funds, managers).failure
    ensures r.Ok? ==> r.value.matches == ValidStage(cda, types, funds, managers).value.1
    ensures r.Ok? ==> r.value.table == Table(ValidStage(cda, types, funds, managers).value.0)
  {
    match ValidStage(cda, types, funds, managers)
    case Err(f) => Err(f)
    case Ok((valid, matches)) => Ok(LoaderOutput(Table(valid), matches))
  }

  /** The table runs by non-increasing market value and is a permutation of the filled manager totals. */
  lemma TableOrder(valid: seq<Holding>)
    ensures multiset(Totals(Table(valid))) == multiset(FillLocations(ManagerTotals(valid, true)))
    ensures forall i, j :: 0 <= i < j < |Table(valid)| ==> Table(valid)[i].total.market >= Table(valid)[j].total.market
  {
    RankOrder(FillLocations(ManagerTotals(valid, true)));
  }

  /** A row of the filled totals belongs to a valid holding's (id, name) pair and has a city and a state. */
  lemma FilledRow(valid: seq<Holding>, t: ManagerTotal)
    requires ValidHoldings(valid)
    requires t in FillLocations(ManagerTotals(valid, true))
    ensures IsPresentNonZero(t.manager) && t.market > 0.0 && t.funds >= 1
    ensures t.city.Some? && t.state.Some?
    ensures exists h :: h in valid && h.manager == t.manager && h.name == Some(t.name)
  {
    var totals := ManagerTotals(valid, true);
    var filled := FillLocations(totals);
    var i :| 0 <= i < |filled| && filled[i] == t;
    GroupedRow(valid, totals[i]);
  }

  lemma GroupedRow(valid: seq<Holding>, t: ManagerTotal)
    requires ValidHoldings(valid)
    requires t in ManagerTotals(valid, true)
    ensures IsPresentNonZero(t.manager) && t.market > 0.0 && t.funds >= 1
    ensures exists h :: h in valid && h.manager == t.manager && h.name == Some(t.name)
  {
    ManagerTotalsPositive(valid, true);
    GroupedRowOrigin(valid, t);
  }

  lemma GroupedRowOrigin(valid: seq<Holding>, t: ManagerTotal)
    requires t in ManagerTotals(valid, true)
    ensures exists h :: h in valid && h.manager == t.manager && h.name == Some(t.name)
  {
    var totals := ManagerTotals(valid, true);
    var i :| 0 <= i < |totals| && totals[i] == t;
    ManagerTotalsGroup(valid, true);
    assert (t.manager, t.name) in ManagerIds(totals);
    var n :| 0 <= n < |valid| && valid[n].manager == t.manager && valid[n].name == Some(t.name);
    assert valid[n] in valid;
  }

  /**
   * The returned table: every row is a (gestor id, gestor name) pair of a
   * valid holding, with a non-zero id, a positive market value, at least one
   * fund, a city and a state; the rows run by non-increasing market value and
   * are a permutation of the grouped managers.
   */
  lemma LoaderTable(cda: CdaFrame, types: Option<seq<string>>, funds: seq<FundEntry>, managers: seq<ManagerEntry>)
    requires LoaderResult(cda, types, funds, managers).Ok?
    ensures var valid := ValidStage(cda, types, funds, managers).value.0;
      var table := LoaderResult(cda, types, funds, managers).value.table;
      && multiset(Totals(table)) == multiset(FillLocations(ManagerTotals(valid, true)))
      && (forall i, j :: 0 <= i < j < |table| ==> table[i].total.market >= table[j].total.market)
      && (forall t :: t in Totals(table) ==>
            && IsPresentNonZero(t.manager) && t.market > 0.0 && t.funds >= 1
            && t.city.Some? && t.state.Some?
            && exists h :: h in valid && h.manager == t.manager && h.name == Some(t.name))
  {
    var valid := ValidStage(cda, types, funds, managers).value.0;
    ValidStageRows(cda, types, funds, managers);
    TableOrder(valid);
    var filled := FillLocations(ManagerTotals(valid, true));
    forall t | t in Totals(Table(valid))
      ensures && IsPresentNonZero(t.manager) && t.market > 0.0 && t.funds >= 1
              && t.city.Some? && t.state.Some?
              && exists h :: h in valid && h.manager == t.manager && h.name == Some(t.name)
    {
      assert t in multiset(filled);
      FilledRow(valid, t);
    }
  }

  /**
   * A non-empty table's shares are within 0.005 of the exact percentages of
   * its total, and those add up to 100. (Valid rows whose gestor has no name
   * leave the table empty.)
   */
  lemma LoaderShares(cda: CdaFrame, types: Option<seq<string>>, funds: seq<FundEntry>, managers: seq<ManagerEntry>)
    requires LoaderResult(cda, types, funds, managers).Ok?
    requires LoaderResult(cda, types, funds, managers).value.table != []
    ensures var table := LoaderResult(cda, types, funds, managers).value.table;
      var total := SumReals(TotalMarkets(Totals(table)));
      && total > 0.0
      && (forall i :: 0 <= i < |table| ==> -0.005 <= table[i].share - table[i].total.market / total * 100.0 <= 0.005)
      && SumReals(Percentages(TotalMarkets(Totals(table)), total)) == 100.0
  {
    var valid := ValidStage(cda, types, funds, managers).value.0;
    ValidStageRows(cda, types, funds, managers);
    var filled := FillLocations(ManagerTotals(valid, true));
    forall t | t in filled ensures t.market > 0.0 {
      FilledRow(valid, t);
    }
    assert |Totals(Table(valid))| == |filled|;
    RankShares(filled);
  }

  /**
   * The whole market value of the valid holdings that name their manager
   * reaches the table: grouping, the location merge and the fill conserve it.
   */
  lemma LoaderConservesMarket(cda: CdaFrame, types: Option<seq<string>>, funds: seq<FundEntry>, managers: seq<ManagerEntry>)
    requires LoaderResult(cda, types, funds, managers).Ok?
    ensures var valid := ValidStage(cda, types, funds, managers).value.0;
      SumReals(TotalMarkets(Totals(LoaderResult(cda, types, funds, managers).value.table))) == SumOf(Filter(valid, HasName), HoldingMarket)
  {
    var valid := ValidStage(cda, types, funds, managers).value.0;
    var filled := FillLocations(ManagerTotals(valid, true));
    ManagerTotalsConserveMarket(valid, true);
    assert TotalMarkets(filled) == TotalMarkets(ManagerTotals(valid, true));
    RankConservesMarket(filled);
  }

  // ---------------------------------------------------------------- the loader

  /** Lines 166-213 step by step, with the value columns coerced one after the other. */
  method FundPositions(cda: CdaFrame, types: Option<seq<string>>) returns (r: Result<seq<FundTotal>>)
    ensures r == FundStage(cda, types)
  {
    var selection := SelectAssetTypes(cda, types);
    if selection.Err? {
      return Err(selection.failure);
    }
    var selected := selection.value;
    if |selected.rows| == 0 {
      return Err(NoRowsAfterFilter);
    }
    var coerced := CoerceValueColumns(selected);
    assert coerced == Coerced(selected);
    if "DENOM_SOCIAL" !in coerced.columns {
      return Err(NoFundNameColumn);
    }
    var grouped := GroupByFund(coerced);
    if grouped.Err? {
      return Err(grouped.failure);
    }
    r := Ok(PositiveFunds(grouped.value));
  }

  /** The loader's result after a successful fund stage, step by step. */
  lemma LoaderSteps(cda: CdaFrame, types: Option<seq<string>>, funds: seq<FundEntry>, managers: seq<ManagerEntry>, positive: seq<FundTotal>)
    requires FundStage(cda, types) == Ok(positive)
    ensures var ids := CleanGestorIds(AttachGestors(positive, funds));
      ids.None? ==> LoaderResult(cda, types, funds, managers) == Err(InvalidScientificId)
    ensures var rows := AttachGestors(positive, funds);
      var ids := CleanGestorIds(rows);
      var valid := Filter(Holdings(rows, managers), HasManager);
      ids.Some? ==> (LoaderResult(cda, types, funds, managers) ==
        if valid == [] then Err(NoValidRows) else Ok(LoaderOutput(Table(valid), MatchCount(ids.value, managers))))
  {
  }

  /** Lines 218-236: the fund registry gains its key column, then the positive funds are merged with it. */
  method AttachFundRegistry(positive: seq<FundTotal>, funds: FundRegistry) returns (rows: seq<GestorRow>)
    modifies funds
    ensures funds.rows == old(funds.rows)
    ensures funds.cleanId == TextKeys(FundTextIds(funds.rows))
    ensures rows == AttachGestors(positive, funds.rows)
  {
    funds.AddTextIds();
    assert funds.cleanId.texts == FundTextIds(funds.rows);
    rows := AttachGestors(positive, funds.rows);
  }

  /** Lines 250 and 273: the manager registry's fourteen-digit key column. */
  method AddManagerIds(managers: ManagerRegistry)
    modifies managers
    ensures managers.rows == old(managers.rows) && managers.cleanName == old(managers.cleanName)
    ensures managers.cleanId == TextKeys(ManagerTextIds(managers.rows))
  {
    managers.AddTextIds();
    managers.PadTextIds();
    assert managers.cleanId.texts == ManagerTextIds(managers.rows);
  }

  /** Lines 297-306: the manager registry's name key, then the name merge. */
  method AttachManagerRegistry(rows: seq<GestorRow>, managers: ManagerRegistry) returns (hs: seq<Holding>)
    modifies managers
    ensures managers.rows == old(managers.rows) && managers.cleanId == old(managers.cleanId)
    ensures managers.cleanName == Some(ManagerCleanNames(managers.rows))
    ensures hs == Holdings(rows, managers.rows)
  {
    managers.AddCleanNames();
    assert managers.cleanName.value == ManagerCleanNames(managers.rows);
    hs := Holdings(rows, managers.rows);
  }

  /**
   * `process_cda_data` step by step. The two registries gain their `_clean`
   * columns in place, as `fund_df` and `manager_df` do, each only once the
   * loader reaches the line that adds it.
   */
  method ProcessCdaData(cda: CdaFrame, types: Option<seq<string>>, funds: FundRegistry, managers: ManagerRegistry)
    returns (result: Result<LoaderOutput>)
    modifies funds, managers
    ensures result == LoaderResult(cda, types, old(funds.rows), old(managers.rows))
    ensures funds.rows == old(funds.rows) && managers.rows == old(managers.rows)
    ensures FundStage(cda, types).Ok? ==> funds.cleanId == TextKeys(FundTextIds(funds.rows))
    ensures FundStage(cda, types).Err? ==> funds.cleanId == old(funds.cleanId)
    ensures result == Err(InvalidScientificId) || FundStage(cda, types).Err? ==>
      managers.cleanId == old(managers.cleanId) && managers.cleanName == old(managers.cleanName)
    ensures result != Err(InvalidScientificId) && FundStage(cda, types).Ok? ==>
      managers.cleanId == TextKeys(ManagerTextIds(managers.rows)) && managers.cleanName == Some(ManagerCleanNames(managers.rows))
  {
    var stage := FundPositions(cda, types);
    if stage.Err? {
      return Err(stage.failure);
    }
    var positive := stage.value;
    LoaderSteps(cda, types, funds.rows, managers.rows, positive);
    var rows := AttachFundRegistry(positive, funds);
    var ids := CleanGestorIds(rows);
    if ids.None? {
      return Err(InvalidScientificId);
    }
    AddManagerIds(managers);
    var matches := MatchCount(ids.value, managers.rows);
    var holdings := AttachManagerRegistry(rows, managers);
    var valid := Filter(holdings, HasManager);
    if |valid| == 0 {
      return Err(NoValidRows);
    }
    result := Ok(LoaderOutput(Table(valid), matches));
  }
}
