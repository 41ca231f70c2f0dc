# Offshore fund managers: a verified model of the ranking pipeline

This project models, in Dafny, how the repository ranks Brazilian fund
managers by the offshore assets of the funds they run. The model covers
three files:

- `analyze_offshore_managers.py` is the batch script. It reads the CVM
  portfolio file (CDA, Bloco 7), the fund registry and the manager
  registry. It keeps the "Investimento no Exterior" positions and sums them
  per fund. It joins the fund registry on the fund CNPJ and the manager
  registry on the administrator CNPJ, both read as integers. Then it groups
  per administrator, ranks by market value, adds the market shares and
  lays out the top-20 report.
- `streamlit_app_dynamic.py` is the dashboard. Its loader,
  `process_cda_data`, runs the same pipeline with these differences:
  - an optional TP_ATIVO filter;
  - the fund join is on digit-only CNPJ strings;
  - the gestor CNPJ normalisation (scientific-notation expansion,
    `fix_fund_cnpj`, `zfill(14)[:14]`) feeds a diagnostic match count,
    computed in the order the code runs (see "## Findings");
  - the manager registry join is on the stripped, upper-cased gestor name;
  - managers are grouped by the raw `CPF_CNPJ_Gestor`.

  Its `main` filters, sorts and ranks the loader's table.
- `streamlit_app.py` is the static dashboard over the batch script's CSV.
  `load_data` cleans in place: `to_numeric` and `fillna('N/A')`, plus a
  fixed reference date. It has the two cell formatters and its own
  filter, sort and rank chain.

The model's shape follows the code:

- pandas tables are sequences of rows.
- A group-by, a left merge (a left row with k matches appears k times; an
  unmatched row gets nulls) and `sort_values` are functions with their own
  contracts, in module `Relational`.
- The merge's `_x`/`_y` column suffixes are computed, not assumed. This is
  how the model derives that the dashboard's `DENOM_SOCIAL` collides in the
  name merge, and that the display name falls back to `Manager_Name_x`.
- Code that updates tables in place is imperative:
  - The registries gain their `_clean` key columns through `modifies`
    methods of the classes `FundRegistry` and `ManagerRegistry`.
  - `load_data` rewrites the columns of a `ManagerFrame`.
  - The coercion loop and the report loop are `for` loops, each proved
    against a specification function.
- Amounts are exact `real`s. A cell that `to_numeric` cannot read becomes
  missing and is skipped by sums.
- An identifier cell is text, an int64, a whole float64 or missing.
  Python's `str` of each is modelled, including "nan" and the `repr` of a
  float: digits plus ".0" below 1e16, and from there on scientific notation
  with every significant digit (which differs from Python's shortest `repr`
  beyond 17 digits; see "## Left out").

Two behaviours of the batch script are kept exactly as written:

- After the fund merge leaves any fund unmatched, the administrator column
  turns float. Its text then gains a ".0" digit, so the integer key becomes
  ten times the CNPJ (`Registries.Widened`, `Cnpj.NumericIdOfFloat`).
- `generate_report` reads the undefined `total_offshore` at line 232 as
  soon as one of the top rows has a UF. The report outcome records this.

The loader's manager join is by name only: despite the comment at
streamlit_app_dynamic.py:300, the code has no identifier-then-name fallback.

## Model

| member | source | states |
|---|---|---|
| Text.KeepDigits | streamlit_app_dynamic.py:248 | the result holds only digits and is no longer than the input, and a digit string is left as it is |
| Text.NatToString | analyze_offshore_managers.py:214 | the printed whole number is a non-empty digit string that reads back as the number, with no leading zero |
| Text.StripIdempotent | streamlit_app_dynamic.py:297-298 | stripping an already stripped name changes nothing |
| Text.UpperIdempotent | streamlit_app_dynamic.py:297-298 | upper-casing twice equals upper-casing once, with Python's capitals of Latin-1 text ('ß' becomes "SS", 'ÿ' U+0178, 'µ' U+039C) |
| Text.GroupThousandsDigits | streamlit_app.py:74 | removing the thousands commas from a grouped digit string gives back the digits |
| Text.RoundHalfEven | streamlit_app.py:74 | the rounded whole number is within 0.5 of the value, and an exact tie goes to the even neighbour |
| Text.PadRight | analyze_offshore_managers.py:216 | a left-aligned field keeps its text as a prefix and is filled with spaces up to the width |
| Text.Prefix | analyze_offshore_managers.py:216 | a cut text is the first min(n, length) characters of the text |
| Cells.ToNumeric | streamlit_app_dynamic.py:184-187 | a number stays as it is, a missing cell stays missing, and a text becomes the number it spells or missing when it spells none |
| Cells.ParseDigits | analyze_offshore_managers.py:74-75 | a digit string reads as the whole number it spells |
| Cells.ParseIntToString | streamlit_app.py:52-55 | the printed text of any integer reads back as that integer |
| Cnpj.FixFundCnpj | streamlit_app_dynamic.py:254-267 | missing and "" come back unchanged; any other text gives the digits of the text without its trailing ".0", denoting the same number, with one leading '0' added exactly when there are 13 of them |
| Cnpj.FixFundCnpjIdempotent | streamlit_app_dynamic.py:254-267 | applying `fix_fund_cnpj` twice equals applying it once |
| Cnpj.Pad14 | streamlit_app_dynamic.py:272-273 | a digit string of at most 14 characters is left-padded with zeros to 14, a longer one keeps its first 14, and a digit input gives exactly 14 digits |
| Cnpj.CanonicalId | streamlit_app_dynamic.py:272-273 | the key of a digit string is 14 digits, and one of at most 14 digits keeps its number |
| Cnpj.ExpandIfScientific | streamlit_app_dynamic.py:245-247 | a text without a lowercase "e+" passes unchanged |
| Cnpj.ExpandParts | streamlit_app_dynamic.py:246-247 | an expanded scientific text is a non-empty, optionally negative digit string |
| Cnpj.ScaledWhole | streamlit_app_dynamic.py:246-247 | the expanded value is the mantissa digits times the power of ten, exactly when the exponent covers the fraction and within 0.5 otherwise |
| Cnpj.ExpandUndoesSciRepr | streamlit_app_dynamic.py:245-247 | for a whole float of 1e16 or more, whose text is scientific, the expansion gives back the integer's own decimal digits |
| Cnpj.GestorId | streamlit_app_dynamic.py:245-273 | corrected order; defined exactly when `float` does not raise (always, for a text without "e+"), and then the 14-digit key of the digits the expanded text holds before its ".0", which keeps their number |
| Cnpj.GestorIdAsWritten | streamlit_app_dynamic.py:245-273 | as-written order (strip at line 248 before `fix_fund_cnpj`); defined exactly when `float` does not raise, and then the 14-digit key of every digit of the expanded text, the ".0"'s zero included |
| Cnpj.GestorIdOfMissing | streamlit_app_dynamic.py:245-273 | a missing id prints as "nan" and ends as fourteen zeros, in both orders and in the manager registry key |
| Cnpj.FloatGestorIdAsWritten | streamlit_app_dynamic.py:248-269 | a float-typed 13-digit gestor id ends as its digits followed by '0' as written, but as '0' followed by its digits in the corrected order, and the two differ |
| Cnpj.RegistryId | streamlit_app_dynamic.py:250-273 | the manager registry's cleaned CNPJ is the 14-digit key of the CNPJ's digits, keeping their number when there are at most 14 |
| Cnpj.RegistryKeysAgree | analyze_offshore_managers.py:95-100 | for registry CNPJs of one to fourteen digits the batch key is the number of the dashboard key, and two CNPJs get the same dashboard key exactly when they get the same batch key |
| Cnpj.CanonicalIdsMatch | streamlit_app_dynamic.py:272-273 | two digit strings of at most 14 digits get the same key exactly when they denote the same number |
| Cnpj.GestorMeetsRegistry | streamlit_app_dynamic.py:284-286 | a gestor id and a registry CNPJ of at most 14 digits meet in the intersection exactly when their digits denote the same number, in either order of the normalisation |
| Cnpj.GestorIdOfFloat | streamlit_app_dynamic.py:245-273 | a float-typed gestor id of at most 14 digits keys as its number in the corrected order, and as written as ten times it (13 digits or fewer) or as its own digits (14) |
| Cnpj.GestorIdOfInt | streamlit_app_dynamic.py:245-273 | an int64 gestor id of at most 14 digits keys as its number in either order |
| Cnpj.NumericIdIgnoresLeadingZeros | analyze_offshore_managers.py:95-100 | leading zeros do not change the batch key |
| Cnpj.NumericIdOfInt | analyze_offshore_managers.py:70-75 | an int64 id keys as its own value, and a missing id has no key |
| Cnpj.NumericIdOfFloat | analyze_offshore_managers.py:95-100 | a whole float id below 1e16 keys as ten times its value, since the digit of ".0" is kept |
| Relational.Filter | streamlit_app_dynamic.py:213 | a boolean mask keeps exactly the rows that satisfy it, in their order (a subsequence) |
| Relational.FilterCounts | streamlit_app_dynamic.py:213 | a row the mask keeps appears as many times as in the table, and a row it drops not at all |
| Relational.FilterFilter | streamlit_app.py:142-161 | two masks applied one after the other equal the mask of their conjunction |
| Relational.LeftJoin | streamlit_app_dynamic.py:231-236 | a left merge has at least as many rows as the left table; each row pairs a left row with a right row of the same key, or with none when no right row has that key |
| Relational.LeftJoinKeepsRows | streamlit_app_dynamic.py:301-306 | every left row appears in the merge, once with each right row of its key |
| Relational.LeftJoinKeepsCount | streamlit_app_dynamic.py:370 | when no left row has two matches, the merge has exactly as many rows as the left table |
| Relational.LeftJoinSingleMatches | streamlit_app_dynamic.py:370 | when every left row has exactly one match, row i of the merge is left row i paired with its match |
| Relational.GroupKeys | streamlit_app_dynamic.py:199-204 | the group keys have no duplicates and are exactly the non-null keys of the rows |
| Relational.GroupSumsConserveTotal | streamlit_app_dynamic.py:199-204 | the per-group sums add up to the sum over the rows with a non-null key |
| Relational.FirstPresent | streamlit_app_dynamic.py:202-203 | `first` is missing exactly when every value is, and otherwise is the first non-null value |
| Relational.FirstOfGroup | streamlit_app_dynamic.py:367 | a group's `first` comes from a row of that group with no earlier non-null value in the group |
| Relational.SortBy | streamlit_app_dynamic.py:398 | the sorted rows are a permutation of the input in key order, with missing keys last |
| Relational.Head | analyze_offshore_managers.py:203 | `head(n)` is the prefix of min(n, length) rows, and a negative n drops rows from the end |
| Relational.Percentages | streamlit_app_dynamic.py:401-402 | each share is the value over the total, times 100 |
| Relational.SharesSumTo100 | streamlit_app_dynamic.py:401-402 | over a positive total, the unrounded shares add up to 100 |
| Relational.Round2 | streamlit_app_dynamic.py:402 | `round(2)` moves a value by at most 0.005 and leaves two decimals |
| Relational.MergeColumns | analyze_offshore_managers.py:108-113 | a column of only one side keeps its name, a shared join column stays single, and any other shared column appears as both `_x` and `_y` |
| Relational.MergeKeeps | streamlit_app_dynamic.py:301-306 | an unsuffixed name is in the merged columns exactly when one side has it and, if both do, it is a join column |
| Relational.Renamed | analyze_offshore_managers.py:121-124 | renamed columns take their new names, the others keep theirs, and no other name appears |
| Positions.SelectAssetTypes | streamlit_app_dynamic.py:166-171 | without a type list, or with an empty one, every row is kept; otherwise exactly the rows whose TP_ATIVO is listed remain, in order, and a file without TP_ATIVO fails |
| Positions.SelectOffshore | analyze_offshore_managers.py:39 | the rows kept are exactly those whose TP_APLIC is "Investimento no Exterior", in order, and a file without TP_APLIC fails |
| Positions.CoerceRow | streamlit_app_dynamic.py:184-187 | each value column present in the file is coerced as `to_numeric` does; identifying fields are untouched |
| Positions.CoerceValueColumns | streamlit_app_dynamic.py:184-187 | the column loop leaves every row coerced and the columns unchanged |
| Positions.Coerced | analyze_offshore_managers.py:43-46 | one coerced row for each input row, in order |
| Positions.GroupByFund | streamlit_app_dynamic.py:197-210 | fails exactly when a grouped column is missing; otherwise one row per non-null fund id (no id twice), each holding that fund's sums and firsts |
| Positions.GroupByFundConservesMarket | streamlit_app_dynamic.py:199-204 | the fund market sums add up to the market sum of the rows with a fund id |
| Positions.PositiveFunds | streamlit_app_dynamic.py:213 | exactly the funds with a positive market sum remain, in order, still without a repeated id |
| Positions.FilterKeepsDistinctIds | analyze_offshore_managers.py:57 | filtering a table with distinct fund ids keeps them distinct |
| Registries.DigitsOf | streamlit_app_dynamic.py:218-219 | the digit-only text of a cell is digits only, and empty for a missing cell |
| Registries.CleanName | streamlit_app_dynamic.py:297-298 | the name key is missing exactly when the name is; otherwise it is the upper-cased part of the name between whitespace at its two ends, starts and ends with no whitespace and is all capitals |
| Registries.CleanNameIdempotent | streamlit_app_dynamic.py:297-298 | cleaning a cleaned name changes nothing |
| Registries.JoinRegistry | streamlit_app_dynamic.py:301-306 | a registry merge pairs each left row with every registry row whose key equals the left key, or with none when there is no such row |
| Registries.JoinRegistryKeepsRows | analyze_offshore_managers.py:78-83 | no left row is lost, and each appears with every registry row of its key |
| Registries.JoinRegistryUnmatched | streamlit_app_dynamic.py:301-306 | a left row whose key no registry row has is merged with nulls |
| Registries.Widened | analyze_offshore_managers.py:78-83 | an unmatched row turns an int64 id into a whole float and nothing else; presence and non-zero-ness are unchanged |
| Registries.ManagerTextIds | streamlit_app_dynamic.py:250-273 | every cleaned manager registry id is exactly 14 ASCII digits |
| Registries.FundRegistry.AddTextIds | streamlit_app_dynamic.py:219-223 | the fund registry gains the digit-only key of each row; its rows are unchanged |
| Registries.FundRegistry.AddNumericIds | analyze_offshore_managers.py:71-75 | the fund registry gains each row's integer key; its rows are unchanged |
| Registries.ManagerRegistry.AddTextIds | streamlit_app_dynamic.py:250 | the manager registry gains each row's digit-only CNPJ; rows and name key are unchanged |
| Registries.ManagerRegistry.PadTextIds | streamlit_app_dynamic.py:273 | each key becomes its `zfill(14)[:14]`; rows and name key are unchanged |
| Registries.ManagerRegistry.AddCleanNames | streamlit_app_dynamic.py:297 | the manager registry gains each row's name key; rows and id key are unchanged |
| Registries.ManagerRegistry.AddNumericIds | analyze_offshore_managers.py:96-100 | the manager registry gains each row's integer key; rows and name key are unchanged |
| ManagerRanking.Locations | streamlit_app_dynamic.py:367 | one location row per manager id of the holdings, each with the firsts of that id |
| ManagerRanking.ManagerTotals | streamlit_app_dynamic.py:341-370 | one row per (id, name) group, with the location of its id attached, or null locations when there are none |
| ManagerRanking.ManagerTotalsGroup | streamlit_app_dynamic.py:341-345 | the (id, name) pairs are distinct and are exactly those of the named holdings; each row's sums are its group's sums and its fund count is its group's row count |
| ManagerRanking.ManagerTotalsPositive | analyze_offshore_managers.py:152-156 | when every holding is positive, every manager total is positive and counts at least one fund |
| ManagerRanking.ManagerTotalsConserveMarket | streamlit_app_dynamic.py:341-345 | the manager totals add up to the market value of the named holdings |
| ManagerRanking.ManagerTotalsLocation | analyze_offshore_managers.py:159-173 | without the location columns city and state are null; with them, each is missing exactly when every row of the id lacks it, and otherwise is the first present value of the id |
| ManagerRanking.WithShares | streamlit_app_dynamic.py:401-402 | the table keeps its rows, and each share is within 0.005 of value / total × 100 |
| ManagerRanking.RankOrder | streamlit_app_dynamic.py:398 | the ranked table is non-increasing in market value and a permutation of the manager totals |
| ManagerRanking.RankShares | analyze_offshore_managers.py:184-188 | over positive managers, the total is positive, each share is within 0.005 of value / total × 100, and the unrounded shares add up to 100 |
| ManagerRanking.RankConservesMarket | analyze_offshore_managers.py:184 | sorting does not change the total market value |
| DashboardLoader.LocationColumns | streamlit_app_dynamic.py:352-363 | the location table carries DENOM_SOCIAL when the valid rows have it, and Manager_Name otherwise |
| DashboardLoader.RenamePlan | streamlit_app_dynamic.py:373-385 | without DENOM_SOCIAL or Manager_Name, the rename plan is the fixed base plan |
| DashboardLoader.FilledNameColumn | streamlit_app_dynamic.py:392-395 | the name column filled with "N/A" exists in the table, and there is none exactly when neither name column exists |
| DashboardLoader.ValidColumnsFacts | streamlit_app_dynamic.py:301-338 | in the valid rows DENOM_SOCIAL has split into `_x` and `_y`, so the location table takes Manager_Name |
| DashboardLoader.LocatedColumnsFacts | streamlit_app_dynamic.py:367-370 | after the location merge the name appears as Manager_Name_x and Manager_Name_y, and no plain name column is left |
| DashboardLoader.OutputColumnsFacts | streamlit_app_dynamic.py:373-402 | the returned table has Manager_Name_x, Manager_Name_y, MUN, UF, the market value and the share columns |
| DashboardLoader.OutputHasNoNameColumn | streamlit_app_dynamic.py:382-395 | the returned table has neither DENOM_SOCIAL nor Manager_Name, so the name fill does nothing |
| DashboardLoader.FundStage | streamlit_app_dynamic.py:166-213 | every fund the fund stage keeps has a positive market value |
| DashboardLoader.FundStageErrors | streamlit_app_dynamic.py:166-194 | the loader stops on a failed type filter, on an empty selection and on a file without DENOM_SOCIAL, and succeeds only when the grouped columns exist |
| DashboardLoader.FundStageFunds | streamlit_app_dynamic.py:197-213 | the kept funds have distinct ids, and each holds its own sums over the coerced selected rows |
| DashboardLoader.AttachGestors | streamlit_app_dynamic.py:231-236 | the fund merge has at least one row per fund and only rows of those funds; with GestorsKeepFunds, every fund row is kept with each match |
| DashboardLoader.GestorsKeepFunds | streamlit_app_dynamic.py:231-236 | every fund appears in the merge, once with the gestor of each registry row of its digit-only CNPJ, or with null gestor fields when the registry has none |
| DashboardLoader.GestorOrigin | streamlit_app_dynamic.py:231-236 | a gestor reaches a fund only from a registry row with the same digit-only CNPJ; a fund no registry row matches gets null gestor fields |
| DashboardLoader.CleanGestorIds | streamlit_app_dynamic.py:245-273 | in the order the code runs, the normalisation fails exactly when some id's `float` raises; otherwise each row gets its as-written 14-digit id |
| DashboardLoader.MatchCount | streamlit_app_dynamic.py:284-286 | the match count is the number of distinct gestor ids the registry ids also contain, so at most either side's number of distinct ids |
| DashboardLoader.Holdings | streamlit_app_dynamic.py:297-306 | each merged row carries the gestor id, gestor name and market value of a fund row; with HoldingsKeepRows, every fund row is kept with each match |
| DashboardLoader.HoldingsKeepRows | streamlit_app_dynamic.py:297-306 | every fund row appears in the name merge, once with the city and state of each registry row whose cleaned name is its cleaned gestor name, or with none when no registry row has it |
| DashboardLoader.HoldingLocationOrigin | streamlit_app_dynamic.py:301-306 | a city or state comes from a registry row whose cleaned name equals the cleaned gestor name |
| DashboardLoader.FillLocation | streamlit_app_dynamic.py:390-391 | a missing MUN or UF becomes "N/A", a present one is kept, and nothing else changes |
| DashboardLoader.ValidStageRows | streamlit_app_dynamic.py:323-334 | when rows survive the valid-manager filter, each has a present, non-zero gestor id and a positive market value |
| DashboardLoader.LoaderResult | streamlit_app_dynamic.py:137-408 | the loader fails exactly when a stage before the grouping stops it, and otherwise returns the ranked table of its valid rows and the match count of the as-written ids |
| DashboardLoader.LoaderTable | streamlit_app_dynamic.py:341-402 | the returned table is a permutation of the filled manager totals, non-increasing in market value; each row has a valid id, a positive total, at least one fund, a city and a state, and comes from a valid row |
| DashboardLoader.LoaderShares | streamlit_app_dynamic.py:400-402 | the total is positive, each share is within 0.005 of value / total × 100, and the unrounded shares add up to 100 |
| DashboardLoader.LoaderConservesMarket | streamlit_app_dynamic.py:341-402 | the table's market values add up to the market value of the valid named rows |
| DashboardLoader.FundPositions | streamlit_app_dynamic.py:166-213 | the stage-by-stage fund computation equals the fund stage |
| DashboardLoader.LoaderSteps | streamlit_app_dynamic.py:245-334 | after the fund stage, the loader stops on a raising `float`, stops on an empty valid set, and otherwise ranks the valid rows |
| DashboardLoader.AttachFundRegistry | streamlit_app_dynamic.py:216-236 | the fund registry gains its digit-only key and the fund rows gain their gestors |
| DashboardLoader.AddManagerIds | streamlit_app_dynamic.py:250-273 | the manager registry gains its 14-digit key column |
| DashboardLoader.AttachManagerRegistry | streamlit_app_dynamic.py:296-306 | the manager registry gains its name key, and the rows are the name-based merge |
| DashboardLoader.ProcessCdaData | streamlit_app_dynamic.py:137-408 | the loader returns the loader result; the registries keep their rows and gain exactly the key columns of the stages it reached |
| DashboardView.FilterManagers | streamlit_app_dynamic.py:546-557 | the filtered rows are a subsequence of the table and are exactly the rows whose UF and MUN equal the chosen ones (each unless "All") and whose market value is at least the floor × 1e9 |
| DashboardView.StagesCompose | streamlit_app_dynamic.py:546-557 | the three successive filters keep exactly the rows every active filter accepts |
| DashboardView.Ascending | streamlit_app_dynamic.py:701 | the sort ascends for every column except the market value |
| DashboardView.SortManagers | streamlit_app_dynamic.py:689-702 | the sorted rows are a permutation of the filtered rows, descending by assets or ascending by funds or share |
| DashboardView.NameColumn | streamlit_app_dynamic.py:705-716 | the name column is the first candidate the table has, and there is none exactly when it has no candidate |
| DashboardView.LoaderNameColumn | streamlit_app_dynamic.py:594-606 | on the loader's table the name column is Manager_Name_x |
| DashboardView.DisplayTable | streamlit_app_dynamic.py:718-733 | one display row per sorted row, each formatted from that row with rank equal to its position plus one |
| DashboardView.DisplayRanks | streamlit_app_dynamic.py:722 | the ranks run 1..n, increasing |
| DashboardView.DisplayAssetsDigits | streamlit_app_dynamic.py:723 | the digits of Offshore Assets are those of the market value rounded to a whole number |
| DashboardView.DisplayShareReadsBack | streamlit_app_dynamic.py:724 | Market Share % is the share to one decimal followed by '%', and reads back as the share so rounded |
| DashboardView.DetailedResults | streamlit_app_dynamic.py:689-733 | the page stops exactly when no name column exists, and otherwise shows the ranked display of the filtered, sorted table |
| DashboardView.LoaderDisplayNames | streamlit_app_dynamic.py:705-728 | under Manager_Name_x each displayed manager is its group's own name |
| Formatting.GroupedWholeDigits | streamlit_app.py:74 | the digits of a `:,.0f` field are those of the value rounded half to even |
| Formatting.Fixed1ReadsBack | streamlit_app.py:80 | a `.1f` field reads back as the value rounded to one decimal |
| Formatting.RoundKeepsSign | streamlit_app.py:74 | rounding keeps the sign of the value |
| OffshoreAnalysis.AnalyzeOffshorePositions | analyze_offshore_managers.py:34-63 | the stage-by-stage computation equals the offshore fund table |
| OffshoreAnalysis.OffshorePositionsErrors | analyze_offshore_managers.py:39-54 | the stage fails without TP_APLIC, and otherwise exactly when a grouped column is missing |
| OffshoreAnalysis.OffshorePositionsFunds | analyze_offshore_managers.py:39-58 | the result is a permutation of the positive funds, non-increasing in market value; each fund is positive, holds its own sums over the coerced offshore rows, and has an offshore row in the file |
| OffshoreAnalysis.OffshorePositionsDistinct | analyze_offshore_managers.py:49-58 | no fund id appears twice |
| OffshoreAnalysis.OtherApplicationsIgnored | analyze_offshore_managers.py:39 | adding a row with another TP_APLIC changes nothing |
| OffshoreAnalysis.AttachAdministrators | analyze_offshore_managers.py:78-83 | the fund merge keeps every fund row and adds nothing else |
| OffshoreAnalysis.AdministratorOrigin | analyze_offshore_managers.py:78-83 | an administrator reaches a fund only from a registry row with the same integer key; a fund with no such row gets null administrator and gestor fields |
| OffshoreAnalysis.AdministratorsKeepFunds | analyze_offshore_managers.py:78-83 | every fund appears in the merge, with the administrator of each registry row of its key |
| OffshoreAnalysis.CrossReferenceWithFunds | analyze_offshore_managers.py:65-88 | the fund registry gains its integer key, and the result is the administrator merge with its columns |
| OffshoreAnalysis.CrossReferenced | analyze_offshore_managers.py:108-134 | no merged row is lost and each row comes from one; without `DENOM_SOCIAL_y`, the location columns are added and every location is null |
| OffshoreAnalysis.LocationOrigin | analyze_offshore_managers.py:108-113 | a location comes from a registry row with the administrator's integer key, and a row has none exactly when no registry row has that key |
| OffshoreAnalysis.CrossReferenceKeepsRows | analyze_offshore_managers.py:108-113 | every merged row survives, with each registry row of its administrator key |
| OffshoreAnalysis.BatchLocationColumns | analyze_offshore_managers.py:119-124 | after the fund merge, DENOM_SOCIAL_y exists, so the table has DENOM_SOCIAL, FUNDO_DENOM_SOCIAL, MUN and UF and no suffixed name column |
| OffshoreAnalysis.CrossReferenceWithManagers | analyze_offshore_managers.py:90-136 | the manager registry gains its integer key, and the result is the location merge |
| OffshoreAnalysis.AnalysisEmpty | analyze_offshore_managers.py:143-148 | the empty result happens exactly when no row has a present, non-zero CNPJ_Administrador |
| OffshoreAnalysis.AnalysisTable | analyze_offshore_managers.py:143-188 | the table is a permutation of the manager totals, non-increasing in market value; each row has a valid id, its group's sums and its group's row count |
| OffshoreAnalysis.AnalysisLocation | analyze_offshore_managers.py:159-173 | without the location columns the location is null; with them, a city or state is missing exactly when every row of the administrator lacks it |
| OffshoreAnalysis.AnalysisShares | analyze_offshore_managers.py:184-188 | over positive funds, the total is positive, every manager is positive with at least one fund, each share is within 0.005 of value / total × 100, and the unrounded shares add up to 100 |
| OffshoreAnalysis.AnalyzeManagersByOffshoreAssets | analyze_offshore_managers.py:138-190 | the stage-by-stage computation equals the manager analysis |
| OffshoreAnalysis.BatchShares | analyze_offshore_managers.py:249-268 | for a whole run with a non-empty table, the location columns exist, and the shares are those of value / total × 100 and add up to 100 before rounding |
| OffshoreAnalysis.ReportLines | analyze_offshore_managers.py:210-216 | one report line per top manager, numbered from 1 |
| OffshoreAnalysis.GenerateReport | analyze_offshore_managers.py:192-235 | the counting loop yields the report lines, the top-10 figure and the geographic outcome |
| OffshoreAnalysis.ReportRows | analyze_offshore_managers.py:203-233 | the report lists min(top_n, n) rows numbered from 1 in table order, and the geographic loop fails exactly when one of them has a UF |
| OffshoreAnalysis.ReportLineFields | analyze_offshore_managers.py:216 | a line is the rank padded to 4, the name cut to 29 and padded to 30, the location cut to 19 and padded to 20, then the figures, all separated by single spaces |
| OffshoreAnalysis.LocationTextCases | analyze_offshore_managers.py:211 | the location is "N/A" without a city, starts with the city otherwise, and is "Cidade, UF" when both exist |
| OffshoreAnalysis.TopTenShareBound | analyze_offshore_managers.py:225 | the top-10 figure is within 0.05 of the exact share of the first ten managers, which is at most 100 |
| OffshoreAnalysis.RunAnalysis | analyze_offshore_managers.py:249-282 | the run fails exactly when the offshore stage does; otherwise it ends in the report of the analysis and the registries gain their integer keys |
| StaticDashboard.LoadedRow | streamlit_app.py:52-63 | a loaded row has its four numbers (market, cost, funds, share) coerced, a missing Cidade, UF or DENOM_SOCIAL replaced by "N/A" (present ones kept), and the reference date |
| StaticDashboard.LoadIdempotent | streamlit_app.py:52-63 | loading a loaded row changes nothing |
| StaticDashboard.ManagerFrame.CoerceNumbers | streamlit_app.py:52-55 | every row has its four numeric columns coerced |
| StaticDashboard.ManagerFrame.FillMissing | streamlit_app.py:58-60 | every row has its missing text cells filled with "N/A" |
| StaticDashboard.ManagerFrame.AddReferenceDate | streamlit_app.py:63 | every row gets the reference date |
| StaticDashboard.LoadData | streamlit_app.py:44-68 | a missing file gives the empty table, and otherwise every row is loaded |
| StaticDashboard.CurrencyText | streamlit_app.py:70-74 | the cell is "R$ " followed by the comma-grouped whole amount, "R$ 0" for a missing or zero value, and its digits are those of the rounded amount |
| StaticDashboard.PercentageText | streamlit_app.py:76-80 | the cell is the value to one decimal followed by '%' ("0.0%" when missing), and reads back as the value so rounded |
| StaticDashboard.ApplyFilters | streamlit_app.py:141-161 | the filtered rows are a subsequence of the table and are exactly the rows that pass every active filter |
| StaticDashboard.StagesCompose | streamlit_app.py:141-161 | the four successive filters keep exactly the rows every active filter accepts |
| StaticDashboard.DateStageAllOrNothing | streamlit_app.py:145-150 | on loaded rows, all dated on the reference date, the date filter keeps all rows or none |
| StaticDashboard.SortRows | streamlit_app.py:289-291 | the sorted rows are a permutation, descending by assets and ascending otherwise, with missing values last |
| StaticDashboard.Truncated | streamlit_app.py:301 | `astype(int)` drops the fraction toward zero |
| StaticDashboard.DisplayTable | streamlit_app.py:294-308 | the cast fails exactly when some funds count is missing; otherwise one display row per sorted row, ranked by position plus one |
| StaticDashboard.PageRows | streamlit_app.py:141-308 | the page lists as many rows as the filters keep, ranked 1..n, each showing a row of the table that passes every filter |
| StaticDashboard.WholeFunds | streamlit_app.py:301 | a whole funds count shows as itself |
| StaticDashboard.ManagerTable | streamlit_app.py:86-308 | the page is the table section over the loaded file: stop when it is empty, then filter, sort and format |

## Left out

- CSV loading: downloading the CVM files, zip extraction and CSV decoding with its encoding fallback (streamlit_app_dynamic.py:47-160, analyze_offshore_managers.py:13-32) are I/O. The tables enter the model as values, and `load_data`'s missing file enters as an absent table.
- Output and UI: `save_results` (analyze_offshore_managers.py:237-247), every `print` header and summary line, the Streamlit widgets, CSS, metric cards, Plotly charts and their aggregations (streamlit_app_dynamic.py:560-678, streamlit_app.py:164-275), the `st.sidebar.write` debug lines and the download buttons are I/O or display. The clock line (analyze_offshore_managers.py:197) reads the clock.
- Statistics: the mean and median (analyze_offshore_managers.py:223-224) are floating-point summaries that only print.
- Other files: update_analysis.py, run_app.py, run_dynamic_app.py and demo.py are not part of this model; they are launchers and download scripts.
- Floating point: amounts are exact reals, so float64 rounding in sums, shares and `float(x)` is not modelled. The `:.0f` expansion rounds the exact decimal value half to even.
- Exceptions: an exception pandas would raise inside the loader's `try` becomes an error result, without the message text.
- Cells.ToNumeric: reads an optionally signed decimal with at most one '.'; text with an exponent ("1e3"), blanks around it, or "inf", which `pd.to_numeric` reads as numbers, becomes missing. The model has no infinite amount, and `read_csv` hands the numeric columns over as numbers, so only stray text cells take this path.
- Cnpj.ExpandIfScientific: the `float(x)` of line 247 reads "[sign]digits[.digits]e+digits" only. Python also accepts blanks around the text and '_' between digits; for such an id the model reports InvalidScientificId where Python would expand it. pandas never prints an id that way.
- Cells.FloatRepr: from 1e16 on, the scientific text carries every significant digit, where Python prints the shortest text that reads back (2^60 prints as "1.152921504606847e+18"). The two can differ once a value has more than 15 significant digits. Whole float64 values above 2^53 are not restricted to the representable ones. CNPJs have 14 digits and stay below 1e16.
- Text.Upper: exact for Latin-1 text, which is how all three files are read. A character beyond U+00FF keeps its case, while Python upper-cases every cased letter. Such characters could appear only through the UTF-8 fallback (streamlit_app_dynamic.py:98, 125).
- Text.RoundHalfEven: states the `:,.0f` and `.1f` conversions on exact values, not on the binary float the source formats.
- ManagerRanking.WithShares: a zero total (an empty table) gives shares of 0.0 where pandas would give NaN; the table then has no rows to show, so the difference is never observed.
- Relational.GroupKeys: groups are listed in order of first appearance, whereas pandas sorts group keys. Every contract above the group-by is stated up to permutation or after a sort, so nothing depends on it.
- Relational.SortBy: the sort is modelled as an insertion sort; pandas' default quicksort is not stable. Only the order and the permutation are promised, never the order of ties.
- OffshoreAnalysis.ReportOf: the geographic loop (analyze_offshore_managers.py:229-233) is modelled only as far as its NameError. With no UF among the top rows it prints nothing; otherwise the report ends at the first state. Its per-state sums are not modelled.
- StaticDashboard.DisplayTable: `astype(int)` on a missing funds count raises. This is modelled as the CastFailed page, not as the Streamlit error screen.

## Findings

| source | as written | input that shows it | evidently intended | confidence | as-written member | corrected member |
|---|---|---|---|---|---|---|
| streamlit_app_dynamic.py:248-269 | line 248 strips non-digits from the gestor id before `fix_fund_cnpj` runs at line 269, so the ".0" that `fix_fund_cnpj` is meant to drop has already turned into a trailing digit '0' | a float-typed gestor id with 13 digits, e.g. 1234567890123.0, ends as "12345678901230" | the comment at lines 252-253 says the ".0" should be dropped and the 13 digits should gain a leading zero: "01234567890123" | not executed | Cnpj.GestorIdAsWritten, Cnpj.FloatGestorIdAsWritten | Cnpj.GestorId |

The loader keeps the as-written order (`DashboardLoader.CleanGestorIds`), because its match count is what the sidebar reports. The corrected order is `Cnpj.GestorId`; `Cnpj.GestorMeetsRegistry` and `Cnpj.GestorIdOfFloat` prove that it gives the intended key.
