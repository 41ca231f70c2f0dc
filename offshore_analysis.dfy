/**
 * The batch script analyze_offshore_managers.py: offshore positions of the
 * CDA file grouped per fund, merged with the fund registry on the fund's
 * CNPJ read as an integer, merged with the manager registry on the
 * administrator's CNPJ read as an integer, grouped per administrator,
 * ranked, and laid out as the top-20 report.
 */
module OffshoreAnalysis {
  import opened Wrappers
  import opened Text
  import opened Cells
  import opened Cnpj
  import opened Relational
  import opened Positions
  import opened Registries
  import opened ManagerRanking
  import opened Formatting

  // ------------------------------------------------- offshore positions

  function FundMarketKey(t: FundTotal): Option<real> { Some(t.market) }

  /** `analyze_offshore_positions` (lines 34-63) as a function of the CDA table. */
  function OffshorePositions(cda: CdaFrame): Result<seq<FundTotal>> {
    match SelectOffshore(cda)
    case Err(f) => Err(f)
    case Ok(offshore) =>
      match GroupByFund(Coerced(offshore))
      case Err(f) => Err(f)
      case Ok(grouped) => Ok(SortBy(PositiveFunds(grouped), FundMarketKey, true))
  }

  /** Lines 38-58 step by step, with the value columns coerced one after the other. */
  method AnalyzeOffshorePositions(cda: CdaFrame) returns (r: Result<seq<FundTotal>>)
    ensures r == OffshorePositions(cda)
  {
    var selection := SelectOffshore(cda);
    if selection.Err? {
      return Err(selection.failure);
    }
    var coerced := CoerceValueColumns(selection.value);
    assert coerced == Coerced(selection.value);
    var grouped := GroupByFund(coerced);
    if grouped.Err? {
      return Err(grouped.failure);
    }
    var positive := PositiveFunds(grouped.value);
    r := Ok(SortBy(positive, FundMarketKey, true));
  }

  /** A KeyError stops the stage exactly when TP_APLIC or a grouped column is missing. */
  lemma OffshorePositionsErrors(cda: CdaFrame)
    ensures "TP_APLIC" !in cda.columns ==> OffshorePositions(cda) == Err(MissingColumn("TP_APLIC"))
    ensures "TP_APLIC" in cda.columns ==> (OffshorePositions(cda).Err? <==> !(GroupedColumns <= cda.columns))
  {
  }

  /**
   * The fund table: one row per fund CNPJ of an offshore position, each the
   * per-fund sums of the offshore rows, only funds with a positive market
   * value, ordered by non-increasing market value.
   */
  lemma OffshorePositionsFunds(cda: CdaFrame)
    requires OffshorePositions(cda).Ok?
    ensures var offshore := Coerced(SelectOffshore(cda).value);
      var funds := OffshorePositions(cda).value;
      && multiset(funds) == multiset(PositiveFunds(GroupByFund(offshore).value))
      && (forall i, j :: 0 <= i < j < |funds| ==> funds[i].market >= funds[j].market)
      && (forall t :: t in funds ==> t.market > 0.0 && t == FundTotalOf(offshore.rows, t.fund))
      && (forall t :: t in funds ==> exists i :: 0 <= i < |cda.rows| && cda.rows[i].fund == t.fund
                                              && cda.rows[i].applicationType == Some(OffshoreApplication))
  {
    var selected := SelectOffshore(cda).value;
    var offshore := Coerced(selected);
    var grouped := GroupByFund(offshore).value;
    var positive := PositiveFunds(grouped);
    var funds := OffshorePositions(cda).value;
    assert funds == SortBy(positive, FundMarketKey, true);
    forall i, j | 0 <= i < j < |funds| ensures funds[i].market >= funds[j].market {
      assert Before(FundMarketKey(funds[i]), FundMarketKey(funds[j]), true);
    }
    forall t | t in funds
      ensures t.market > 0.0 && t == FundTotalOf(offshore.rows, t.fund)
      ensures exists i :: 0 <= i < |cda.rows| && cda.rows[i].fund == t.fund
                        && cda.rows[i].applicationType == Some(OffshoreApplication)
    {
      assert t in multiset(positive);
      OffshoreFund(cda, selected, grouped, t);
    }
  }

  /** A fund of the grouped offshore table: its row is the aggregate of its positions, one of them in the CDA table. */
  lemma OffshoreFund(cda: CdaFrame, selected: CdaFrame, grouped: seq<FundTotal>, t: FundTotal)
    requires SelectOffshore(cda) == Ok(selected)
    requires GroupByFund(Coerced(selected)) == Ok(grouped)
    requires t in PositiveFunds(grouped)
    ensures t.market > 0.0 && t == FundTotalOf(Coerced(selected).rows, t.fund)
    ensures exists i :: 0 <= i < |cda.rows| && cda.rows[i].fund == t.fund
                      && cda.rows[i].applicationType == Some(OffshoreApplication)
  {
    var offshore := Coerced(selected);
    GroupedFundOrigin(offshore, grouped, t);
    var n :| 0 <= n < |offshore.rows| && offshore.rows[n].fund == t.fund;
    assert offshore.rows[n] == CoerceRow(selected.rows[n], selected.columns);
    SelectedOrigin(cda, selected, n);
  }

  /** A row of the per-fund table aggregates its fund's rows, of which there is one at least. */
  lemma GroupedFundOrigin(frame: CdaFrame, grouped: seq<FundTotal>, t: FundTotal)
    requires GroupByFund(frame) == Ok(grouped) && t in grouped
    ensures t == FundTotalOf(frame.rows, t.fund)
    ensures exists n :: 0 <= n < |frame.rows| && frame.rows[n].fund == t.fund
  {
    var k :| 0 <= k < |grouped| && grouped[k] == t;
    assert t.fund in FundIds(grouped) by { assert FundIds(grouped)[k] == t.fund; }
  }

  /** A selected row is an offshore row of the CDA table. */
  lemma SelectedOrigin(cda: CdaFrame, selected: CdaFrame, n: nat)
    requires SelectOffshore(cda) == Ok(selected) && n < |selected.rows|
    ensures exists i :: 0 <= i < |cda.rows| && cda.rows[i].fund == selected.rows[n].fund
                      && cda.rows[i].applicationType == Some(OffshoreApplication)
  {
    assert selected.rows[n] in selected.rows;
    var i :| 0 <= i < |cda.rows| && cda.rows[i] == selected.rows[n];
  }

  /** The funds are distinct: the grouping gives each CNPJ one row and the filter and sort keep that. */
  lemma OffshorePositionsDistinct(cda: CdaFrame)
    requires OffshorePositions(cda).Ok?
    ensures NoDuplicates(FundIds(OffshorePositions(cda).value))
  {
    var grouped := GroupByFund(Coerced(SelectOffshore(cda).value)).value;
    var positive := PositiveFunds(grouped);
    assert OffshorePositions(cda).value == SortBy(positive, FundMarketKey, true);
    PermutationKeepsDistinctIds(positive, SortBy(positive, FundMarketKey, true));
  }

  /** A reordering of funds with distinct CNPJs still has distinct CNPJs. */
  lemma {:induction false} PermutationKeepsDistinctIds(a: seq<FundTotal>, b: seq<FundTotal>)
    requires multiset(a) == multiset(b) && NoDuplicates(FundIds(a))
    ensures NoDuplicates(FundIds(b))
  {
    if b != [] {
      var x := b[0];
      assert b == [x] + b[1..];
      assert x in multiset(a);
      var k :| 0 <= k < |a| && a[k] == x;
      var rest := a[..k] + a[k + 1..];
      RemoveKeepsDistinct(a, k, rest);
      RestPermutes(a, b, k, rest);
      PermutationKeepsDistinctIds(rest, b[1..]);
      OthersDiffer(rest, b);
      ConsDistinct(b);
    }
  }

  /** Taking the head of b out of its place in a leaves a reordering of b's tail. */
  lemma RestPermutes(a: seq<FundTotal>, b: seq<FundTotal>, k: nat, rest: seq<FundTotal>)
    requires multiset(a) == multiset(b) && b != [] && k < |a| && a[k] == b[0]
    requires multiset(a) == multiset(rest) + multiset{a[k]}
    ensures multiset(rest) == multiset(b[1..])
  {
    assert b == [b[0]] + b[1..];
    assert multiset(b) == multiset{b[0]} + multiset(b[1..]);
    assert multiset(rest) == multiset(a) - multiset{a[k]};
    assert multiset(b[1..]) == multiset(b) - multiset{b[0]};
  }

  /** A reordering of funds whose ids all differ from the head of b's gives b's tail that property. */
  lemma OthersDiffer(rest: seq<FundTotal>, b: seq<FundTotal>)
    requires b != [] && multiset(rest) == multiset(b[1..])
    requires forall y :: y in multiset(rest) ==> y.fund != b[0].fund
    ensures forall q :: 0 <= q < |b[1..]| ==> b[1..][q].fund != b[0].fund
  {
    forall q | 0 <= q < |b[1..]| ensures b[1..][q].fund != b[0].fund {
      assert b[1..][q] in multiset(rest);
    }
  }

  /** Taking one fund out of a distinct-id table leaves distinct ids, none of them the removed fund's. */
  lemma RemoveKeepsDistinct(a: seq<FundTotal>, k: nat, rest: seq<FundTotal>)
    requires NoDuplicates(FundIds(a)) && k < |a| && rest == a[..k] + a[k + 1..]
    ensures multiset(a) == multiset(rest) + multiset{a[k]}
    ensures NoDuplicates(FundIds(rest))
    ensures forall y :: y in multiset(rest) ==> y.fund != a[k].fund
  {
    assert a == a[..k] + [a[k]] + a[k + 1..];
    RemoveDistinct(a, k, rest);
    RemoveOthers(a, k, rest);
  }

  lemma RemoveDistinct(a: seq<FundTotal>, k: nat, rest: seq<FundTotal>)
    requires NoDuplicates(FundIds(a)) && k < |a| && rest == a[..k] + a[k + 1..]
    ensures NoDuplicates(FundIds(rest))
  {
    forall p, q | 0 <= p < q < |rest| ensures FundIds(rest)[p] != FundIds(rest)[q] {
      var p' := if p < k then p else p + 1;
      var q' := if q < k then q else q + 1;
      assert rest[p] == a[p'] && rest[q] == a[q'];
      assert FundIds(a)[p'] != FundIds(a)[q'];
    }
  }

  lemma RemoveOthers(a: seq<FundTotal>, k: nat, rest: seq<FundTotal>)
    requires NoDuplicates(FundIds(a)) && k < |a| && rest == a[..k] + a[k + 1..]
    ensures forall y :: y in multiset(rest) ==> y.fund != a[k].fund
  {
    forall y | y in multiset(rest) ensures y.fund != a[k].fund {
      var m :| 0 <= m < |rest| && rest[m] == y;
      var m' := if m < k then m else m + 1;
      assert a[m'] == y && m' != k;
      assert FundIds(a)[m'] != FundIds(a)[k];
    }
  }

  /** A position of another application type changes nothing in the fund table. */
  lemma OtherApplicationsIgnored(cda: CdaFrame, x: CdaRow)
    requires x.applicationType != Some(OffshoreApplication)
    ensures OffshorePositions(cda.(rows := cda.rows + [x])) == OffshorePositions(cda)
  {
    FilterAppend(cda.rows, [x], IsOffshore);
    assert Filter([x], IsOffshore) == [];
    assert Filter(cda.rows, IsOffshore) + [] == Filter(cda.rows, IsOffshore);
    assert SelectOffshore(cda.(rows := cda.rows + [x])) == SelectOffshore(cda);
  }

  // ------------------------------------------------- fund registry merge

  /** `fund_offshore` after line 70: the grouped columns and the fund key. */
  const OffshoreColumns: set<string> :=
    {"CNPJ_FUNDO_CLASSE", "VL_MERC_POS_FINAL", "VL_CUSTO_POS_FINAL", "DENOM_SOCIAL", "DT_COMPTC", "CNPJ_FUNDO_CLASSE_clean"}

  /** The fund registry columns taken into the merge at line 79. */
  const FundRegistryTaken: set<string> :=
    {"CNPJ_Fundo_clean", "CNPJ_Administrador", "Administrador", "CPF_CNPJ_Gestor", "Gestor"}

  /** The columns of `merged_df`. */
  function FundMergeColumns(): set<string> { MergeColumns(OffshoreColumns, FundRegistryTaken, {}) }

  /** A fund row after the fund-registry merge of lines 78-83. */
  datatype AdminRow = AdminRow(fund: FundTotal, adminId: IdCell, admin: Option<string>, gestorId: IdCell, gestor: Option<string>)

  /** A table with its columns, as `merged_df` is handed on. */
  datatype AdminTable = AdminTable(columns: set<string>, rows: seq<AdminRow>)

  /** The fund's batch key (lines 70 and 74): its digits read as an integer. */
  function FundNumericKey(t: FundTotal): Option<nat> { NumericId(t.fund) }

  function AdminOf(p: (FundTotal, Option<FundEntry>), widen: bool): AdminRow {
    match p.1
    case None => AdminRow(p.0, IdNull, None, IdNull, None)
    case Some(e) => AdminRow(p.0, Widened(e.administratorId, widen), e.administrator, Widened(e.gestorId, widen), e.gestor)
  }

  /**
   * Lines 78-83: each fund paired with the administrator and gestor of every
   * registry row whose CNPJ reads as the same integer, or with none.
   */
  function AttachAdministrators(funds: seq<FundTotal>, registry: seq<FundEntry>): (r: seq<AdminRow>)
    ensures |r| >= |funds|
    ensures forall i :: 0 <= i < |r| ==> r[i].fund in funds
  {
    var joined := JoinRegistry(funds, FundNumericIds(registry), registry, FundNumericKey);
    seq(|joined|, i requires 0 <= i < |joined| => AdminOf(joined[i], SomeUnmatched(joined)))
  }

  /**
   * A merged row has an administrator only from a registry row whose fund
   * CNPJ reads as the same integer as its own, and a fund no registry row
   * matches has neither administrator nor gestor.
   */
  lemma AdministratorOrigin(funds: seq<FundTotal>, registry: seq<FundEntry>, i: nat)
    requires i < |AttachAdministrators(funds, registry)|
    ensures var a := AttachAdministrators(funds, registry)[i];
      (a.admin.Some? || !a.adminId.IdNull?) ==>
        exists j :: (0 <= j < |registry| && NumericId(registry[j].fund) == NumericId(a.fund.fund)
                     && a.admin == registry[j].administrator && a.gestor == registry[j].gestor
                     && (IsPresentNonZero(a.adminId) <==> IsPresentNonZero(registry[j].administratorId)))
    ensures var a := AttachAdministrators(funds, registry)[i];
      (forall j :: 0 <= j < |registry| ==> NumericId(registry[j].fund) != NumericId(a.fund.fund)) ==>
        a.adminId.IdNull? && a.admin.None? && a.gestorId.IdNull? && a.gestor.None?
  {
    var joined := JoinRegistry(funds, FundNumericIds(registry), registry, FundNumericKey);
    assert AttachAdministrators(funds, registry)[i] == AdminOf(joined[i], SomeUnmatched(joined));
  }

  /** No fund is lost in the merge, and each registry row of its CNPJ brings its administrator. */
  lemma AdministratorsKeepFunds(funds: seq<FundTotal>, registry: seq<FundEntry>, i: nat)
    requires i < |funds|
    ensures exists k :: 0 <= k < |AttachAdministrators(funds, registry)| && AttachAdministrators(funds, registry)[k].fund == funds[i]
    ensures forall j :: 0 <= j < |registry| && NumericId(registry[j].fund) == NumericId(funds[i].fund) ==>
      exists k :: (0 <= k < |AttachAdministrators(funds, registry)| && AttachAdministrators(funds, registry)[k].fund == funds[i]
                   && AttachAdministrators(funds, registry)[k].admin == registry[j].administrator)
  {
    var keys := FundNumericIds(registry);
    var joined := JoinRegistry(funds, keys, registry, FundNumericKey);
    JoinRegistryKeepsRows(funds, keys, registry, FundNumericKey, i);
    var o :| (funds[i], o) in joined;
    JoinedAdministrator(funds, registry, (funds[i], o));
    forall j | 0 <= j < |registry| && NumericId(registry[j].fund) == NumericId(funds[i].fund)
      ensures exists k :: (0 <= k < |AttachAdministrators(funds, registry)| && AttachAdministrators(funds, registry)[k].fund == funds[i]
                           && AttachAdministrators(funds, registry)[k].admin == registry[j].administrator)
    {
      assert keys[j] == FundNumericKey(funds[i]);
      JoinedAdministrator(funds, registry, (funds[i], Some(registry[j])));
    }
  }

  /** A pair of the registry merge gives a merged row with its fund and its administrator name. */
  lemma JoinedAdministrator(funds: seq<FundTotal>, registry: seq<FundEntry>, p: (FundTotal, Option<FundEntry>))
    requires p in JoinRegistry(funds, FundNumericIds(registry), registry, FundNumericKey)
    ensures exists k :: (0 <= k < |AttachAdministrators(funds, registry)| && AttachAdministrators(funds, registry)[k].fund == p.0
                         && AttachAdministrators(funds, registry)[k].admin == (if p.1.Some? then p.1.value.administrator else None))
  {
    var joined := JoinRegistry(funds, FundNumericIds(registry), registry, FundNumericKey);
    var k :| 0 <= k < |joined| && joined[k] == p;
    assert AttachAdministrators(funds, registry)[k] == AdminOf(p, SomeUnmatched(joined));
  }

  /** Lines 69-83: the fund registry gains its integer key column in place, then the funds are merged with it. */
  method CrossReferenceWithFunds(offshore: seq<FundTotal>, funds: FundRegistry) returns (merged: AdminTable)
    modifies funds
    ensures funds.rows == old(funds.rows)
    ensures funds.cleanId == NumericKeys(FundNumericIds(funds.rows))
    ensures merged == AdminTable(FundMergeColumns(), AttachAdministrators(offshore, funds.rows))
  {
    funds.AddNumericIds();
    assert funds.cleanId.numbers == FundNumericIds(funds.rows);
    merged := AdminTable(FundMergeColumns(), AttachAdministrators(offshore, funds.rows));
  }

  // ---------------------------------------------- manager registry merge

  /** The manager registry columns taken into the merge at line 109. */
  const ManagerRegistryTaken: set<string> := {"CNPJ_clean", "DENOM_SOCIAL", "MUN", "UF", "LOGRADOURO", "BAIRRO", "CEP"}

  /** The rename of lines 121-124. */
  const LocationRename: map<string, string> := map["DENOM_SOCIAL_y" := "DENOM_SOCIAL", "DENOM_SOCIAL_x" := "FUNDO_DENOM_SOCIAL"]

  /** The six columns lines 129-134 add as null. */
  const LocationColumns: set<string> := {"DENOM_SOCIAL", "MUN", "UF", "LOGRADOURO", "BAIRRO", "CEP"}

  /** The columns of `final_df` straight after the merge of lines 108-113. */
  function ManagerMergeColumns(cols: set<string>): set<string> {
    MergeColumns(cols + {"CNPJ_Administrador_clean"}, ManagerRegistryTaken, {})
  }

  /** A row of `final_df`: the merged fund row and the manager registry row it met, if any. */
  datatype FinalRow = FinalRow(row: AdminRow, location: Option<ManagerEntry>)

  datatype FinalTable = FinalTable(columns: set<string>, rows: seq<FinalRow>)

  /** The administrator's batch key (lines 95 and 99). */
  function AdminKey(a: AdminRow): Option<nat> { NumericId(a.adminId) }

  /** Without the suffixed column the location columns are overwritten with null. */
  function LocatedRow(p: (AdminRow, Option<ManagerEntry>), renamed: bool): FinalRow {
    FinalRow(p.0, if renamed then p.1 else None)
  }

  /**
   * `cross_reference_with_managers` (lines 90-136) as a value: the left
   * merge on the administrator's integer key, then either the rename of the
   * suffixed name columns or six null location columns.
   */
  function CrossReferenced(merged: AdminTable, registry: seq<ManagerEntry>): (r: FinalTable)
    ensures |r.rows| >= |merged.rows|
    ensures forall i :: 0 <= i < |r.rows| ==> r.rows[i].row in merged.rows
    ensures "DENOM_SOCIAL_y" !in ManagerMergeColumns(merged.columns) ==>
      LocationColumns <= r.columns && forall i :: 0 <= i < |r.rows| ==> r.rows[i].location.None?
  {
    var cols := ManagerMergeColumns(merged.columns);
    var joined := JoinRegistry(merged.rows, ManagerNumericIds(registry), registry, AdminKey);
    var renamed := "DENOM_SOCIAL_y" in cols;
    FinalTable(if renamed then Renamed(cols, LocationRename) else cols + LocationColumns,
               seq(|joined|, i requires 0 <= i < |joined| => LocatedRow(joined[i], renamed)))
  }

  /**
   * After the rename a row's location is a registry row whose CNPJ reads as
   * the same integer as the administrator's, and it is missing exactly when
   * no registry row does.
   */
  lemma LocationOrigin(merged: AdminTable, registry: seq<ManagerEntry>, i: nat)
    requires "DENOM_SOCIAL_y" in ManagerMergeColumns(merged.columns)
    requires i < |CrossReferenced(merged, registry).rows|
    ensures var f := CrossReferenced(merged, registry).rows[i];
      f.location.Some? ==> f.location.value in registry && NumericId(f.location.value.cnpj) == NumericId(f.row.adminId)
    ensures var f := CrossReferenced(merged, registry).rows[i];
      f.location.None? <==> forall j :: 0 <= j < |registry| ==> NumericId(registry[j].cnpj) != NumericId(f.row.adminId)
  {
    var keys := ManagerNumericIds(registry);
    var joined := JoinRegistry(merged.rows, keys, registry, AdminKey);
    var f := CrossReferenced(merged, registry).rows[i];
    assert f == LocatedRow(joined[i], true);
    if f.location.Some? {
      var j :| 0 <= j < |registry| && registry[j] == f.location.value && keys[j] == AdminKey(f.row);
    } else {
      forall j | 0 <= j < |registry| ensures NumericId(registry[j].cnpj) != NumericId(f.row.adminId) {
        assert keys[j] != AdminKey(f.row);
      }
    }
  }

  /** No merged row is lost, and after the rename each registry row of its administrator comes with it. */
  lemma CrossReferenceKeepsRows(merged: AdminTable, registry: seq<ManagerEntry>, i: nat)
    requires i < |merged.rows|
    ensures exists f :: f in CrossReferenced(merged, registry).rows && f.row == merged.rows[i]
    ensures "DENOM_SOCIAL_y" in ManagerMergeColumns(merged.columns) ==>
      forall j :: 0 <= j < |registry| && NumericId(registry[j].cnpj) == NumericId(merged.rows[i].adminId) ==>
        FinalRow(merged.rows[i], Some(registry[j])) in CrossReferenced(merged, registry).rows
  {
    var keys := ManagerNumericIds(registry);
    var joined := JoinRegistry(merged.rows, keys, registry, AdminKey);
    var renamed := "DENOM_SOCIAL_y" in ManagerMergeColumns(merged.columns);
    var rows := CrossReferenced(merged, registry).rows;
    JoinRegistryKeepsRows(merged.rows, keys, registry, AdminKey, i);
    var o :| (merged.rows[i], o) in joined;
    var k :| 0 <= k < |joined| && joined[k] == (merged.rows[i], o);
    assert rows[k] == LocatedRow(joined[k], renamed);
    if renamed {
      forall j | 0 <= j < |registry| && NumericId(registry[j].cnpj) == NumericId(merged.rows[i].adminId)
        ensures FinalRow(merged.rows[i], Some(registry[j])) in rows
      {
        assert keys[j] == AdminKey(merged.rows[i]);
        var m :| 0 <= m < |joined| && joined[m] == (merged.rows[i], Some(registry[j]));
        assert rows[m] == LocatedRow(joined[m], true);
      }
    }
  }

  /**
   * With the batch's own tables the two DENOM_SOCIAL columns collide, so the
   * rename branch is the one taken: the registry's name becomes DENOM_SOCIAL,
   * the fund's FUNDO_DENOM_SOCIAL, and MUN and UF are kept.
   */
  lemma BatchLocationColumns(merged: AdminTable, registry: seq<ManagerEntry>)
    requires merged.columns == FundMergeColumns()
    ensures "DENOM_SOCIAL_y" in ManagerMergeColumns(merged.columns)
    ensures var cols := CrossReferenced(merged, registry).columns;
      && "DENOM_SOCIAL" in cols && "FUNDO_DENOM_SOCIAL" in cols && "MUN" in cols && "UF" in cols
      && "DENOM_SOCIAL_x" !in cols && "DENOM_SOCIAL_y" !in cols
  {
    FundMergeFacts();
    ManagerMergeFacts(merged.columns);
    RenameFacts(ManagerMergeColumns(merged.columns));
  }

  /** `merged_df` has the fund's DENOM_SOCIAL and neither MUN nor UF. */
  lemma FundMergeFacts()
    ensures "DENOM_SOCIAL" in FundMergeColumns() && "MUN" !in FundMergeColumns() && "UF" !in FundMergeColumns()
  {
    FundMergeName();
    FundMergeLacksCity();
    FundMergeLacksState();
  }

  lemma FundMergeLacksCity()
    ensures "MUN" !in FundMergeColumns()
  {
    NotInMerge(OffshoreColumns, FundRegistryTaken, "MUN");
  }

  lemma FundMergeLacksState()
    ensures "UF" !in FundMergeColumns()
  {
    NotInMerge(OffshoreColumns, FundRegistryTaken, "UF");
  }

  lemma FundMergeName()
    ensures "DENOM_SOCIAL" in FundMergeColumns()
  {
    MergeKeeps(OffshoreColumns, FundRegistryTaken, {}, "DENOM_SOCIAL");
  }

  lemma NotInMerge(left: set<string>, right: set<string>, c: string)
    requires c !in left && c !in right && |c| >= 1 && c[|c| - 1] != 'x' && c[|c| - 1] != 'y'
    ensures c !in MergeColumns(left, right, {})
  {
    MergeKeeps(left, right, {}, c);
  }

  lemma ManagerMergeFacts(cols: set<string>)
    requires "DENOM_SOCIAL" in cols && "MUN" !in cols && "UF" !in cols
    ensures var m := ManagerMergeColumns(cols);
      "DENOM_SOCIAL_x" in m && "DENOM_SOCIAL_y" in m && "MUN" in m && "UF" in m
  {
    var left := cols + {"CNPJ_Administrador_clean"};
    MergeKeeps(left, ManagerRegistryTaken, {}, "MUN");
    MergeKeeps(left, ManagerRegistryTaken, {}, "UF");
    assert "DENOM_SOCIAL" + "_x" == "DENOM_SOCIAL_x";
    assert "DENOM_SOCIAL" + "_y" == "DENOM_SOCIAL_y";
  }

  lemma RenameFacts(cols: set<string>)
    requires "DENOM_SOCIAL_x" in cols && "DENOM_SOCIAL_y" in cols && "MUN" in cols && "UF" in cols
    ensures var r := Renamed(cols, LocationRename);
      && "DENOM_SOCIAL" in r && "FUNDO_DENOM_SOCIAL" in r && "MUN" in r && "UF" in r
      && "DENOM_SOCIAL_x" !in r && "DENOM_SOCIAL_y" !in r
  {
    assert LocationRename["DENOM_SOCIAL_y"] == "DENOM_SOCIAL" && LocationRename["DENOM_SOCIAL_x"] == "FUNDO_DENOM_SOCIAL";
    assert "MUN" !in LocationRename && "UF" !in LocationRename;
  }

  /**
   * Lines 94-136: the manager registry gains its integer key column in
   * place, then the merge and the rename, or the null location columns.
   */
  method CrossReferenceWithManagers(merged: AdminTable, managers: ManagerRegistry) returns (final: FinalTable)
    modifies managers
    ensures managers.rows == old(managers.rows) && managers.cleanName == old(managers.cleanName)
    ensures managers.cleanId == NumericKeys(ManagerNumericIds(managers.rows))
    ensures final == CrossReferenced(merged, managers.rows)
  {
    managers.AddNumericIds();
    assert managers.cleanId.numbers == ManagerNumericIds(managers.rows);
    var cols := ManagerMergeColumns(merged.columns);
    var joined := JoinRegistry(merged.rows, managers.cleanId.numbers, managers.rows, AdminKey);
    if "DENOM_SOCIAL_y" in cols {
      final := FinalTable(Renamed(cols, LocationRename), seq(|joined|, i requires 0 <= i < |joined| => FinalRow(joined[i].0, joined[i].1)));
    } else {
      final := FinalTable(cols + LocationColumns, seq(|joined|, i requires 0 <= i < |joined| => FinalRow(joined[i].0, None)));
    }
  }

  // ------------------------------------------------ manager aggregation

  /** What `analyze_managers_by_offshore_assets` returns: an empty DataFrame, or the ranked managers. */
  datatype Analysis = NoAdministrators | Managers(table: seq<Ranked>)

  /** The columns the aggregation reads from a row of `final_df`. */
  function FinalHolding(f: FinalRow): Holding {
    var loc := f.location;
    Holding(f.row.adminId, f.row.admin, f.row.fund.market, f.row.fund.cost,
            if loc.Some? then loc.value.name else None,
            if loc.Some? then loc.value.city else None,
            if loc.Some? then loc.value.state else None)
  }

  function FinalHoldings(rows: seq<FinalRow>): (hs: seq<Holding>)
    ensures |hs| == |rows| && forall i :: 0 <= i < |rows| ==> hs[i] == FinalHolding(rows[i])
  {
    seq(|rows|, i requires 0 <= i < |rows| => FinalHolding(rows[i]))
  }

  /** Line 143: the rows whose CNPJ_Administrador is present and not 0. */
  function ValidAdministrators(final: FinalTable): seq<Holding> {
    Filter(FinalHoldings(final.rows), HasManager)
  }

  /** Line 159: the location columns the per-administrator `first` needs. */
  predicate HasLocationColumns(cols: set<string>) {
    "DENOM_SOCIAL" in cols && "MUN" in cols && "UF" in cols
  }

  /** Lines 142-190 as a value. */
  function ManagerAnalysis(final: FinalTable): Analysis {
    var valid := ValidAdministrators(final);
    if valid == [] then NoAdministrators
    else Managers(Rank(ManagerTotals(valid, HasLocationColumns(final.columns))))
  }

  /** The early return of line 148 happens exactly when no row has a present, non-zero administrator CNPJ. */
  lemma AnalysisEmpty(final: FinalTable)
    ensures ManagerAnalysis(final).NoAdministrators? <==>
      forall i :: 0 <= i < |final.rows| ==> !IsPresentNonZero(final.rows[i].row.adminId)
  {
    var hs := FinalHoldings(final.rows);
    var valid := ValidAdministrators(final);
    if valid == [] {
      forall i | 0 <= i < |final.rows| ensures !IsPresentNonZero(final.rows[i].row.adminId) {
        assert hs[i] in hs;
      }
    } else {
      assert valid[0] in hs;
      var i :| 0 <= i < |hs| && hs[i] == valid[0];
      assert IsPresentNonZero(final.rows[i].row.adminId);
    }
  }

  /**
   * The manager table: one row per (CNPJ_Administrador, Administrador) pair
   * of a valid row, with that pair's sums and row count, ordered by
   * non-increasing market value, and a permutation of the grouped rows.
   */
  lemma AnalysisTable(final: FinalTable)
    requires ManagerAnalysis(final).Managers?
    ensures var valid := ValidAdministrators(final);
      var table := ManagerAnalysis(final).table;
      var totals := ManagerTotals(valid, HasLocationColumns(final.columns));
      && multiset(Totals(table)) == multiset(totals)
      && (forall i, j :: 0 <= i < j < |table| ==> table[i].total.market >= table[j].total.market)
      && (forall t :: t in Totals(table) ==>
            && IsPresentNonZero(t.manager)
            && t.market == SumOf(RowsOf(valid, t.manager, t.name), HoldingMarket)
            && t.cost == SumOf(RowsOf(valid, t.manager, t.name), HoldingCost)
            && t.funds == |RowsOf(valid, t.manager, t.name)|)
  {
    var valid := ValidAdministrators(final);
    var withLocation := HasLocationColumns(final.columns);
    var totals := ManagerTotals(valid, withLocation);
    RankOrder(totals);
    ValidHaveManagers(final);
    forall t | t in Totals(ManagerAnalysis(final).table)
      ensures && IsPresentNonZero(t.manager)
              && t.market == SumOf(RowsOf(valid, t.manager, t.name), HoldingMarket)
              && t.cost == SumOf(RowsOf(valid, t.manager, t.name), HoldingCost)
              && t.funds == |RowsOf(valid, t.manager, t.name)|
    {
      assert t in multiset(totals);
      AnalysisRow(valid, withLocation, t);
    }
  }

  lemma ValidHaveManagers(final: FinalTable)
    ensures forall i :: 0 <= i < |ValidAdministrators(final)| ==> HasManager(ValidAdministrators(final)[i])
  {
    var valid := ValidAdministrators(final);
    forall i | 0 <= i < |valid| ensures HasManager(valid[i]) {
      assert valid[i] in valid;
    }
  }

  /** A manager row's id is the id of a valid row, and its figures are those of its group. */
  lemma AnalysisRow(valid: seq<Holding>, withLocation: bool, t: ManagerTotal)
    requires forall i :: 0 <= i < |valid| ==> HasManager(valid[i])
    requires t in ManagerTotals(valid, withLocation)
    ensures IsPresentNonZero(t.manager)
    ensures t.market == SumOf(RowsOf(valid, t.manager, t.name), HoldingMarket)
    ensures t.cost == SumOf(RowsOf(valid, t.manager, t.name), HoldingCost)
    ensures t.funds == |RowsOf(valid, t.manager, t.name)|
  {
    var totals := ManagerTotals(valid, withLocation);
    var k :| 0 <= k < |totals| && totals[k] == t;
    ManagerTotalsGroup(valid, withLocation);
    assert (t.manager, t.name) in ManagerIds(totals) by { assert ManagerIds(totals)[k] == (t.manager, t.name); }
    var n :| 0 <= n < |valid| && valid[n].manager == t.manager && valid[n].name == Some(t.name);
  }

  /**
   * Lines 158-173: with the three location columns a manager's city is the
   * first one among the valid rows of its CNPJ, missing exactly when none has
   * one; without them the location is missing.
   */
  lemma AnalysisLocation(final: FinalTable, t: ManagerTotal)
    requires ManagerAnalysis(final).Managers? && t in Totals(ManagerAnalysis(final).table)
    ensures !HasLocationColumns(final.columns) ==> t.city.None? && t.state.None? && t.firstName.None?
    ensures var valid := ValidAdministrators(final);
      HasLocationColumns(final.columns) ==>
        && (t.city.None? <==> forall i :: 0 <= i < |valid| && valid[i].manager == t.manager ==> valid[i].city.None?)
        && (t.state.None? <==> forall i :: 0 <= i < |valid| && valid[i].manager == t.manager ==> valid[i].state.None?)
  {
    var valid := ValidAdministrators(final);
    var totals := ManagerTotals(valid, HasLocationColumns(final.columns));
    RankOrder(totals);
    assert t in multiset(totals);
    ManagerTotalsLocation(valid, HasLocationColumns(final.columns), t);
  }

  /**
   * When every row carries a positive fund value, every manager's total is
   * positive, each share is within 0.005 of the exact percentage of the
   * table's total, and the exact percentages add up to 100.
   */
  lemma AnalysisShares(final: FinalTable)
    requires ManagerAnalysis(final).Managers?
    requires forall i :: 0 <= i < |final.rows| ==> final.rows[i].row.fund.market > 0.0
    requires ManagerAnalysis(final).table != []
    ensures var table := ManagerAnalysis(final).table;
      var total := SumReals(TotalMarkets(Totals(table)));
      && total > 0.0
      && (forall t :: t in Totals(table) ==> t.market > 0.0 && t.funds >= 1)
      && (forall i :: 0 <= i < |table| ==> -0.005 <= table[i].share - table[i].total.market / total * 100.0 <= 0.005)
      && SumReals(Percentages(TotalMarkets(Totals(table)), total)) == 100.0
  {
    var valid := ValidAdministrators(final);
    ValidPositive(final);
    PositiveTotals(valid, HasLocationColumns(final.columns));
  }

  lemma ValidPositive(final: FinalTable)
    requires forall i :: 0 <= i < |final.rows| ==> final.rows[i].row.fund.market > 0.0
    ensures forall i :: 0 <= i < |ValidAdministrators(final)| ==> ValidAdministrators(final)[i].market > 0.0
  {
    var hs := FinalHoldings(final.rows);
    var valid := ValidAdministrators(final);
    forall i | 0 <= i < |valid| ensures valid[i].market > 0.0 {
      assert valid[i] in hs;
    }
  }

  /** Positive holdings give positive manager totals and shares close to the exact percentages. */
  lemma PositiveTotals(valid: seq<Holding>, withLocation: bool)
    requires forall i :: 0 <= i < |valid| ==> valid[i].market > 0.0
    requires Rank(ManagerTotals(valid, withLocation)) != []
    ensures var table := Rank(ManagerTotals(valid, withLocation));
      var total := SumReals(TotalMarkets(Totals(table)));
      && total > 0.0
      && (forall t :: t in Totals(table) ==> t.market > 0.0 && t.funds >= 1)
      && (forall i :: 0 <= i < |table| ==> -0.005 <= table[i].share - table[i].total.market / total * 100.0 <= 0.005)
      && SumReals(Percentages(TotalMarkets(Totals(table)), total)) == 100.0
  {
    var totals := ManagerTotals(valid, withLocation);
    ManagerTotalsPositive(valid, withLocation);
    RankOrder(totals);
    forall t | t in Totals(Rank(totals)) ensures t.market > 0.0 && t.funds >= 1 {
      assert t in multiset(totals);
    }
    assert |Totals(Rank(totals))| == |totals|;
    RankShares(totals);
  }

  /** Lines 142-188 step by step. */
  method AnalyzeManagersByOffshoreAssets(final: FinalTable) returns (a: Analysis)
    ensures a == ManagerAnalysis(final)
  {
    var valid := Filter(FinalHoldings(final.rows), HasManager);
    if |valid| == 0 {
      return NoAdministrators;
    }
    var withLocation := HasLocationColumns(final.columns);
    var totals := ManagerTotals(valid, withLocation);
    var sorted := SortBy(totals, MarketKey, true);
    a := Managers(WithShares(sorted));
  }

  // ----------------------------------------------------------- the run

  /** `main` without the file reads and the report: lines 257-266. */
  function BatchAnalysis(cda: CdaFrame, funds: seq<FundEntry>, managers: seq<ManagerEntry>): Result<Analysis> {
    match OffshorePositions(cda)
    case Err(f) => Err(f)
    case Ok(positive) =>
      Ok(ManagerAnalysis(CrossReferenced(AdminTable(FundMergeColumns(), AttachAdministrators(positive, funds)), managers)))
  }

  /**
   * The batch's own tables always give the location step its columns and
   * carry positive fund values, so a non-empty manager table has located
   * rows and shares close to the exact percentages.
   */
  lemma BatchShares(cda: CdaFrame, funds: seq<FundEntry>, managers: seq<ManagerEntry>)
    requires BatchAnalysis(cda, funds, managers).Ok?
    requires BatchAnalysis(cda, funds, managers).value.Managers?
    requires BatchAnalysis(cda, funds, managers).value.table != []
    ensures var positive := OffshorePositions(cda).value;
      HasLocationColumns(CrossReferenced(AdminTable(FundMergeColumns(), AttachAdministrators(positive, funds)), managers).columns)
    ensures var table := BatchAnalysis(cda, funds, managers).value.table;
      var total := SumReals(TotalMarkets(Totals(table)));
      && total > 0.0
      && (forall i :: 0 <= i < |table| ==> -0.005 <= table[i].share - table[i].total.market / total * 100.0 <= 0.005)
      && SumReals(Percentages(TotalMarkets(Totals(table)), total)) == 100.0
  {
    var positive := OffshorePositions(cda).value;
    var merged := AdminTable(FundMergeColumns(), AttachAdministrators(positive, funds));
    var final := CrossReferenced(merged, managers);
    BatchLocationColumns(merged, managers);
    OffshorePositionsFunds(cda);
    forall i | 0 <= i < |final.rows| ensures final.rows[i].row.fund.market > 0.0 {
      assert final.rows[i].row in merged.rows;
      var k :| 0 <= k < |merged.rows| && merged.rows[k] == final.rows[i].row;
      assert merged.rows[k].fund in positive;
    }
    AnalysisShares(final);
  }

  // ------------------------------------------------------------ report

  const TopN := 20
  const TopShareCount := 10

  /** Python's `str` of a UF cell that may be missing (NaN prints as "nan"). */
  function StateText(s: Option<string>): string { if s.Some? then s.value else "nan" }

  /** Line 211: "Cidade, UF", or "N/A" without a city. */
  function LocationText(t: ManagerTotal): string {
    if t.city.Some? then t.city.value + ", " + StateText(t.state) else "N/A"
  }

  /** The fields of line 216 after the rank and the name. */
  function FiguresText(r: Ranked): string {
    PadRight("R$ " + GroupedWhole(r.total.market), 15) + " " + PadRight(Fixed1(r.share) + "%", 6) + " "
      + PadRight(NatToString(r.total.funds), 6)
  }

  /** Line 216: one report row. */
  function ReportLine(rank: nat, r: Ranked): string {
    PadRight(NatToString(rank), 4) + " " + PadRight(Prefix(r.total.name, 29), 30) + " "
      + PadRight(Prefix(LocationText(r.total), 19), 20) + " " + FiguresText(r)
  }

  /** `f(1, s[0]), f(2, s[1]), …`: rows numbered from 1, as `enumerate(…, 1)` does. */
  function Numbered<T, U>(s: seq<T>, f: (nat, T) -> U): (r: seq<U>)
    ensures |r| == |s| && forall k :: 0 <= k < |s| ==> r[k] == f(k + 1, s[k])
  {
    seq(|s|, k requires 0 <= k < |s| => f(k + 1, s[k]))
  }

  lemma NumberedSnoc<T, U>(s: seq<T>, i: nat, f: (nat, T) -> U)
    requires i < |s|
    ensures Numbered(s[..i + 1], f) == Numbered(s[..i], f) + [f(i + 1, s[i])]
  {
    var a := Numbered(s[..i + 1], f);
    var b := Numbered(s[..i], f) + [f(i + 1, s[i])];
    forall k | 0 <= k < |a| ensures a[k] == b[k] {
      assert s[..i + 1][k] == s[k];
      if k < i {
        assert s[..i][k] == s[k];
      }
    }
  }

  function ReportLines(top: seq<Ranked>): (lines: seq<string>)
    ensures |lines| == |top| && forall k :: 0 <= k < |top| ==> lines[k] == ReportLine(k + 1, top[k])
  {
    Numbered(top, ReportLine)
  }

  /** Line 225: the shares of the first ten managers, added. */
  function TopTenShare(table: seq<Ranked>): real {
    SumReals(Shares(Head(table, TopShareCount)))
  }

  function StateKey(r: Ranked): Option<string> { r.total.state }

  /** What `generate_report` ends in. */
  datatype ReportOutcome =
    | NoMarketColumn   // line 198 reads a column the empty DataFrame lacks: KeyError
    | Printed(lines: seq<string>, topTen: real, top: Option<seq<Ranked>>)  // `top` is None when line 232 raises NameError

  /**
   * `generate_report` as a value: the rows of the first `topN` managers, the
   * top-10 figure, and the geographic loop of lines 229-233, which reaches
   * the undefined `total_offshore` at the first state it prints.
   */
  function ReportOf(a: Analysis, topN: int): ReportOutcome {
    match a
    case NoAdministrators => NoMarketColumn
    case Managers(table) =>
      var top := Head(table, topN);
      Printed(ReportLines(top), TopTenShare(table), if GroupKeys(top, StateKey) == [] then Some(top) else None)
  }

  /** Lines 192-235, with the counting loop of lines 210-216. */
  method GenerateReport(a: Analysis, topN: int) returns (out: ReportOutcome)
    ensures out == ReportOf(a, topN)
  {
    if a.NoAdministrators? {
      return NoMarketColumn;
    }
    var top := Head(a.table, topN);
    var lines: seq<string> := [];
    for i := 0 to |top|
      invariant lines == Numbered(top[..i], ReportLine)
    {
      NumberedSnoc(top, i, ReportLine);
      lines := lines + [ReportLine(i + 1, top[i])];
    }
    assert top[..|top|] == top;
    var topTen := SumReals(Shares(Head(a.table, TopShareCount)));
    var states := GroupKeys(top, StateKey);
    out := Printed(lines, topTen, if |states| == 0 then Some(top) else None);
  }

  /**
   * The report lists min(topN, n) managers numbered from 1 in table order,
   * and the geographic loop fails exactly when one of them has a UF.
   */
  lemma ReportRows(table: seq<Ranked>, topN: int)
    requires 0 <= topN
    ensures var out := ReportOf(Managers(table), topN);
      && |out.lines| == (if topN <= |table| then topN else |table|)
      && (forall k :: 0 <= k < |out.lines| ==> out.lines[k] == ReportLine(k + 1, table[k]))
      && (out.top.None? <==> exists k :: 0 <= k < |out.lines| && table[k].total.state.Some?)
  {
    var top := Head(table, topN);
    var lines := ReportLines(top);
    assert ReportOf(Managers(table), topN).lines == lines;
    forall k | 0 <= k < |lines| ensures lines[k] == ReportLine(k + 1, table[k]) {
      assert top[k] == table[k];
    }
    forall k | 0 <= k < |top| ensures top[k] == table[k] { }
    NoStates(top);
  }

  /** The geographic loop prints nothing exactly when no listed manager has a UF. */
  lemma NoStates(top: seq<Ranked>)
    ensures GroupKeys(top, StateKey) == [] <==> forall k :: 0 <= k < |top| ==> top[k].total.state.None?
  {
    var states := GroupKeys(top, StateKey);
    forall k | 0 <= k < |top|
      ensures top[k].total.state.Some? ==> top[k].total.state.value in states
    {
    }
    if states != [] {
      assert states[0] in states;
    }
  }

  /** A rank below 10000 fits its four columns. */
  lemma {:induction false} ShortNumber(n: nat, w: nat)
    requires 1 <= w && n < Pow10(w)
    ensures |NatToString(n)| <= w
  {
    assert Pow10(1) == 10;
    if n >= 10 {
      ShortNumber(n / 10, w - 1);
    }
  }

  /**
   * The layout of a report row: the rank in four columns, the name cut to 29
   * characters in thirty, the location cut to 19 in twenty, each followed by
   * a space.
   */
  lemma ReportLineFields(rank: nat, r: Ranked)
    requires rank < 10000
    ensures var line := ReportLine(rank, r);
      && |line| >= 57
      && line[..4] == PadRight(NatToString(rank), 4)
      && line[5..35] == PadRight(Prefix(r.total.name, 29), 30)
      && line[36..56] == PadRight(Prefix(LocationText(r.total), 19), 20)
      && line[4] == ' ' && line[35] == ' ' && line[56] == ' '
      && line[57..] == FiguresText(r)
  {
    assert Pow10(4) == 10000;
    ShortNumber(rank, 4);
    Columns(PadRight(NatToString(rank), 4), PadRight(Prefix(r.total.name, 29), 30),
            PadRight(Prefix(LocationText(r.total), 19), 20), FiguresText(r));
  }

  /** Four fields of widths 4, 30 and 20 and the rest, joined by single spaces. */
  lemma Columns(a: string, b: string, c: string, d: string)
    requires |a| == 4 && |b| == 30 && |c| == 20
    ensures var line := a + " " + b + " " + c + " " + d;
      && |line| >= 57
      && line[..4] == a && line[5..35] == b && line[36..56] == c && line[57..] == d
      && line[4] == ' ' && line[35] == ' ' && line[56] == ' '
  {
  }

  /** A missing city prints as "N/A"; otherwise the city, a comma and the state. */
  lemma LocationTextCases(t: ManagerTotal)
    ensures t.city.None? ==> LocationText(t) == "N/A"
    ensures t.city.Some? ==> LocationText(t)[..|t.city.value|] == t.city.value
    ensures t.city.Some? && t.state.Some? ==> LocationText(t) == t.city.value + ", " + t.state.value
  {
  }

  /**
   * The top-10 figure of a ranked table of positive values adds up at most
   * ten rounded shares: it is within 0.05 of the exact percentage of the top
   * ten, which is at most 100.
   */
  lemma TopTenShareBound(ts: seq<ManagerTotal>)
    requires ts != []
    requires forall t :: t in ts ==> t.market > 0.0
    ensures var table := Rank(ts);
      var ms := TotalMarkets(Totals(table));
      SumReals(ms) > 0.0 &&
      var exact := SumReals(Percentages(Head(ms, TopShareCount), SumReals(ms)));
      -0.05 <= TopTenShare(table) - exact <= 0.05 && exact <= 100.0
  {
    var table := Rank(ts);
    var ms := TotalMarkets(Totals(table));
    RankShares(ts);
    var total := SumReals(ms);
    var top := Head(table, TopShareCount);
    var exact := Percentages(Head(ms, TopShareCount), total);
    assert |exact| == |top| <= 10;
    forall i | 0 <= i < |top| ensures -0.005 <= Shares(top)[i] - exact[i] <= 0.005 {
      assert top[i] == table[i] && Head(ms, TopShareCount)[i] == ms[i];
    }
    SumsClose(Shares(top), exact);
    var all := Percentages(ms, total);
    assert Totals(table) == SortBy(ts, MarketKey, true);
    SortedMarketsPositive(ts);
    PercentagesNonNegative(ms, total);
    assert Head(ms, TopShareCount) == ms[..|exact|];
    PrefixPercentages(ms, total, |exact|);
    PrefixSumBound(all, |exact|);
  }

  /** Pointwise within 0.005, so the sums are within 0.005 per element. */
  lemma {:induction false} SumsClose(a: seq<real>, b: seq<real>)
    requires |a| == |b|
    requires forall i :: 0 <= i < |a| ==> -0.005 <= a[i] - b[i] <= 0.005
    ensures -0.005 * |a| as real <= SumReals(a) - SumReals(b) <= 0.005 * |a| as real
  {
    if a != [] {
      SumsClose(a[1..], b[1..]);
    }
  }

  lemma PercentagesNonNegative(ms: seq<real>, total: real)
    requires total > 0.0 && forall i :: 0 <= i < |ms| ==> ms[i] > 0.0
    ensures forall i :: 0 <= i < |ms| ==> Percentages(ms, total)[i] >= 0.0
  {
    forall i | 0 <= i < |ms| ensures ms[i] / total * 100.0 >= 0.0 {
      assert ms[i] / total > 0.0;
    }
  }

  lemma PrefixPercentages(ms: seq<real>, total: real, n: nat)
    requires total != 0.0 && n <= |ms|
    ensures Percentages(ms[..n], total) == Percentages(ms, total)[..n]
  {
  }

  /** A prefix of non-negative values adds up to at most the whole. */
  lemma {:induction false} PrefixSumBound(s: seq<real>, n: nat)
    requires n <= |s| && forall i :: 0 <= i < |s| ==> s[i] >= 0.0
    ensures SumReals(s[..n]) <= SumReals(s)
  {
    if n > 0 {
      assert s[..n][1..] == s[1..][..n - 1];
      PrefixSumBound(s[1..], n - 1);
    } else {
      NonNegativeSum(s);
    }
  }

  lemma {:induction false} NonNegativeSum(s: seq<real>)
    requires forall i :: 0 <= i < |s| ==> s[i] >= 0.0
    ensures SumReals(s) >= 0.0
  {
    if s != [] {
      NonNegativeSum(s[1..]);
    }
  }

  // ------------------------------------------------------------ main

  /**
   * `main` after the file reads (lines 257-269): the registries gain their
   * key columns in place, as `fund_df` and `manager_df` do, once the
   * offshore stage has succeeded.
   */
  method RunAnalysis(cda: CdaFrame, funds: FundRegistry, managers: ManagerRegistry) returns (r: Result<ReportOutcome>)
    modifies funds, managers
    ensures funds.rows == old(funds.rows) && managers.rows == old(managers.rows)
    ensures BatchAnalysis(cda, funds.rows, managers.rows).Err? <==> r.Err?
    ensures r.Err? ==> r == Err(BatchAnalysis(cda, funds.rows, managers.rows).failure)
    ensures r.Ok? ==> r.value == ReportOf(BatchAnalysis(cda, funds.rows, managers.rows).value, TopN)
    ensures r.Ok? ==> (funds.cleanId == NumericKeys(FundNumericIds(funds.rows))
                       && managers.cleanId == NumericKeys(ManagerNumericIds(managers.rows)))
    ensures r.Err? ==> funds.cleanId == old(funds.cleanId) && managers.cleanId == old(managers.cleanId)
  {
    var positions := AnalyzeOffshorePositions(cda);
    if positions.Err? {
      return Err(positions.failure);
    }
    var merged := CrossReferenceWithFunds(positions.value, funds);
    var final := CrossReferenceWithManagers(merged, managers);
    var analysis := AnalyzeManagersByOffshoreAssets(final);
    var report := GenerateReport(analysis, TopN);
    r := Ok(report);
  }
}
