# Payment statements of a fibre-production subcontracting app: a Dafny model

The application records production by subcontracted workers, the expenses charged
to each subcontractor company, and the payment statements ("estados de pago")
that settle them. This project models four parts of it.

- **Statement creation** (`creacion_estado_pago.py`):
  - `leer_produccion` joins production rows to staff by worker name, keeps the
    chosen company, and joins activity rates by description. It drops the rows a
    statement already bills and adds the production amount.
  - `leer_gastos` keeps the company's expenses that no statement bills yet.
  - The page starts from both reads. It shows a notice when both are empty, and
    otherwise fills the session lists and their id pickers.
  - The session holds four lists: available and selected production, available
    and selected expenses. The `>>` / `<<` buttons move the rows with the picked
    ids from one list to the end of the other.
  - The page shows the totals `tp`, `tg` and `neto` of the selected rows.
  - The correlative is `EGTD-{count+1:02d}`.
  - `insertar_estado_pago` writes one statement row and one link row per
    selected production id and per selected expense id.
- **RUT validation** (`mantenimiento_empresas.py`): `validar_rut` cleans the
  input, matches it against the pattern, and checks the modulo-11 check
  character.
- **Production summary** (`resumen_produccion.py`): quantities are summed per
  activity, left-merged onto the rates, and priced.

Modules:

| module | file | what it holds |
|---|---|---|
| `Wrappers` | `wrappers.dfy` | `Option` |
| `Digits` | `digits.dfy` | ASCII decimal digits, shared by the correlative and the RUT |
| `RowFilters` | `row_filters.dfy` | pandas `isin` / `~isin` row filters over any id column, and column sums |
| `Eligibility` | `eligibility.dfy` | the record types, the inner merges, `leer_produccion`, `leer_gastos` |
| `Totals` | `totals.dfy` | `tp`, `tg`, `neto` |
| `Correlative` | `correlative.dfy` | the statement number |
| `Selection` | `selection.dfy` | class `Draft`, the four session lists and the four buttons |
| `Ledger` | `ledger.dfy` | class `Database`, the tables, `insertar_estado_pago`, the save button |
| `Rut` | `rut.dfy` | `validar_rut` as a loop, its specification, and the code as written |
| `ProductionSummary` | `production_summary.dfy` | group-by-sum, left merge, amount columns |
| `StatementPage` | `statement_page.dfy` | the start of the statement page: the column-less frames an empty table gives, and the `KeyError` they cause |

Modelling choices:

- Data frames are sequences of rows in frame order.
- An inner merge keeps the left frame's order and yields one row per matching
  right row.
- Amounts are `real`.
- Database reads are the `Database` fields. Today's date is a parameter.
- A missing merged value (NaN) is `None`.

## Model

| member | source | states |
|---|---|---|
| RowFilters.WithIds | creacion_estado_pago.py:207-209 | `df[df['id'].isin(ids)]`: a row is kept iff it is a row of the frame whose id is picked |
| RowFilters.WithoutIds | creacion_estado_pago.py:213-215 | `df[~df['id'].isin(ids)]`: a row is kept iff it is a row of the frame whose id is not picked |
| RowFilters.KeysWithIds | creacion_estado_pago.py:207-209 | the ids of the picked rows are the frame's ids that were picked |
| RowFilters.KeysWithoutIds | creacion_estado_pago.py:213-215 | the ids left behind are the frame's ids that were not picked |
| RowFilters.KeysAppend | creacion_estado_pago.py:210-212 | the ids of a concatenation are the union of both frames' ids |
| RowFilters.PartitionPreservesRows | creacion_estado_pago.py:206-215 | picked rows plus remaining rows are the original rows, as a multiset |
| RowFilters.WithoutIdsCount | creacion_estado_pago.py:49 | `~isin` keeps each unpicked row as often as the frame holds it and drops picked rows entirely |
| RowFilters.WithoutIdsAppend | creacion_estado_pago.py:49 | `~isin` over a concatenation is the concatenation of the filtered parts |
| RowFilters.WithIdsAppend | creacion_estado_pago.py:207-209 | `isin` over a concatenation is the concatenation of the filtered parts |
| RowFilters.WithoutIdsUntouched | creacion_estado_pago.py:213-215 | when no row's id is picked, `~isin` returns the frame unchanged |
| RowFilters.WithoutIdsUnion | creacion_estado_pago.py:47-49 | excluding one id set and then another is excluding their union |
| RowFilters.SumAppend | creacion_estado_pago.py:275-276 | a column sum over a concatenation is the sum of the parts |
| RowFilters.SumPermutation | creacion_estado_pago.py:275-276 | a column sum does not depend on row order |
| RowFilters.SumCongruent | creacion_estado_pago.py:275 | two columns equal row by row have equal sums |
| Eligibility.LinkedIds | creacion_estado_pago.py:47-48 | the `used` set holds exactly the item ids of the link rows |
| Eligibility.LinksFor | creacion_estado_pago.py:160-167 | one link row per selected id, in order, each carrying the correlative |
| Eligibility.LinkedIdsAfterCommit | creacion_estado_pago.py:160-167 | after a commit the billed ids are the old ones plus the committed ones |
| Eligibility.StaffMatches | creacion_estado_pago.py:44 | the merged rows for one production row are its pairs with each staff row of the same name |
| Eligibility.JoinStaff | creacion_estado_pago.py:44 | `prod.merge(perso, left_on="trabajador", right_on="nombre")` holds exactly the pairs whose names match |
| Eligibility.OfCompany | creacion_estado_pago.py:45 | the filtered rows are exactly the merged rows whose worker belongs to the company |
| Eligibility.RateMatches | creacion_estado_pago.py:46-50 | one priced line per rate whose description is the row's activity |
| Eligibility.Priced | creacion_estado_pago.py:50 | the line a staffed record and a rate merge into, with `Monto Producción = cantidad * valor_produccion`; its meaning in the read is stated by `Eligibility.EligibleProductionIff` |
| Eligibility.JoinRates | creacion_estado_pago.py:46-50 | the merge with `acts` holds exactly the rows priced at a rate with their activity as description |
| Eligibility.EligibleProduction | creacion_estado_pago.py:20-51 | `leer_produccion`: an empty `produccion`, `personal` or `actividades` table reads nothing; every line read is a record of the table, of a worker of the company, not billed yet |
| Eligibility.LineRead | creacion_estado_pago.py:44-50 | a record of a company worker, unbilled, with a rate for its activity, is read priced at that rate |
| Eligibility.EligibleProductionIff | creacion_estado_pago.py:20-51 | a line is read iff its record, worker and rate come from the tables, names and descriptions match, the worker is in the company, no detail row bills the record, and the amount is `cantidad * valor_produccion` |
| Eligibility.EligibleProductionSound | creacion_estado_pago.py:45-50 | every line read belongs to the company, is unbilled, and carries `cantidad * valor_produccion` |
| Eligibility.UnmatchedRecordDropped | creacion_estado_pago.py:44-46 | a record with no staff row of its worker's name, or no rate for its activity, is never read |
| Eligibility.ProductionAfterCommit | creacion_estado_pago.py:47-49 | after a commit, `leer_produccion` returns the previous frame minus the committed ids |
| Eligibility.ExpensesOf | creacion_estado_pago.py:64 | `df_g[df_g["empresa"] == empresa_sel]` keeps exactly the company's expenses |
| Eligibility.ExpensesOfCount | creacion_estado_pago.py:64 | the company filter keeps each of the company's expenses as often as the table holds it |
| Eligibility.EligibleExpenses | creacion_estado_pago.py:54-69 | `leer_gastos`: an expense is read iff it is in the table, belongs to the company and no link row bills it |
| Eligibility.EligibleExpensesCount | creacion_estado_pago.py:54-69 | `leer_gastos` holds each of the company's unbilled expenses as often as the table does, and nothing else |
| Eligibility.EligibleExpensesAppend | creacion_estado_pago.py:64-67 | reading expenses keeps table order: over two concatenated runs of the table it gives the two results in turn |
| Eligibility.ExpensesOfAppend | creacion_estado_pago.py:64 | the company filter distributes over concatenation |
| Eligibility.ExpensesAfterCommit | creacion_estado_pago.py:65-67 | after a commit, `leer_gastos` returns the previous frame minus the committed ids |
| Totals.ComputeTotals | creacion_estado_pago.py:273-277 | no selected production gives `tp == 0`, no selected expense gives `tg == 0`, and `neto == tp - tg` |
| Totals.TotalsAdditive | creacion_estado_pago.py:275-277 | the totals of two selections together are the sums of their totals |
| Totals.TotalsReorder | creacion_estado_pago.py:275-276 | the totals do not depend on the order rows were selected in |
| Totals.ProductionTotalIsAmountColumn | creacion_estado_pago.py:273-275 | on rows from `leer_produccion`, `tp` equals the sum of the `Monto Producción` column |
| Totals.SplitKeepsTotals | creacion_estado_pago.py:273-276 | the available list's totals plus the selected list's totals are the pool's totals |
| Correlative.DigitChar | creacion_estado_pago.py:290 | a digit below ten becomes a decimal digit character |
| Correlative.Decimal | creacion_estado_pago.py:290 | `str(n)` is a non-empty digit string with no leading zero (from 10 up) that reads back as n |
| Correlative.Pad2 | creacion_estado_pago.py:290 | `{n:02d}` has at least two digits, and a leading zero only when exactly two |
| Correlative.CorrelativeFor | creacion_estado_pago.py:289-290 | the correlative is `EGTD-` followed by at least two digits |
| Correlative.LeadingZero | creacion_estado_pago.py:290 | a leading zero does not change a decimal value |
| Correlative.Pad2Value | creacion_estado_pago.py:290 | the zero-padded digits read back as n |
| Correlative.CorrelativeRoundTrip | creacion_estado_pago.py:289-290 | the number in the correlative is the statement count plus one |
| Correlative.CorrelativeInjective | creacion_estado_pago.py:289-290 | different counts never mint the same correlative |
| Correlative.CorrelativeExamples | creacion_estado_pago.py:289-290 | counts 0, 7, 9 and 99 give `EGTD-01`, `EGTD-08`, `EGTD-10` and `EGTD-100` |
| Selection.Draft.constructor | creacion_estado_pago.py:191-195 | everything starts available and nothing selected; the invariant holds |
| Selection.Draft.AddProduction | creacion_estado_pago.py:206-215 | the picked available rows go to the end of the selection; the available list keeps the rest; expenses are unchanged; each row is in exactly one list with no id in both |
| Selection.Draft.RemoveProduction | creacion_estado_pago.py:223-232 | the picked selected rows go back to the end of the available list; the selection keeps the rest; the invariant is kept |
| Selection.Draft.AddExpenses | creacion_estado_pago.py:244-253 | as for production, over the expense lists; production is unchanged |
| Selection.Draft.RemoveExpenses | creacion_estado_pago.py:261-270 | as for production, over the expense lists; production is unchanged |
| Selection.Draft.CurrentTotals | creacion_estado_pago.py:273-277 | the selected totals plus the available totals are the pool's totals, and `neto == tp - tg` |
| Selection.MoveKeepsPool | creacion_estado_pago.py:206-215 | a move keeps the rows of both lists together as a multiset and keeps their ids apart |
| Ledger.ProductionIds | creacion_estado_pago.py:162 | the selected frame's `id` column, row by row |
| Ledger.ExpenseIds | creacion_estado_pago.py:166 | the selected expenses' `id` column, row by row |
| Ledger.Database.ReadProduction | creacion_estado_pago.py:20-51 | `leer_produccion` over the stored tables: every line read is a stored record of a company worker that no detail row bills |
| Ledger.Database.ReadExpenses | creacion_estado_pago.py:54-69 | `leer_gastos` over the stored tables: an expense is read iff it is stored, is the company's, and no link row bills it |
| Ledger.Database.NextCorrelative | creacion_estado_pago.py:289-290 | the correlative minted now reads back as the number of stored statements plus one |
| Ledger.Database.InsertStatement | creacion_estado_pago.py:151-167 | appends one statement row and one link row per selected id to each link table. The read tables are unchanged. For every company, later reads are the earlier ones minus the committed ids. Correlatives stay sequential when the minted one is used |
| Ledger.SaveStatement | creacion_estado_pago.py:284-297 | saving mints the next correlative and appends one statement row with the totals shown. Each link table gains one row per selected id under that correlative; the production, staff, rate and expense tables are unchanged. For every company, both reads afterwards are the earlier reads minus the selected ids, so no selected row is read again. Correlatives stay sequential. When every record was billed at most once before, and the selected ids are distinct and unbilled, every record is still billed at most once |
| Ledger.SaveBranchAsWritten | creacion_estado_pago.py:288-297 | the two buttons of one rerun as written: `corr` is bound only in the preview branch; what each click ends in is stated by `Ledger.SaveNeverSavesAsWritten` |
| Ledger.SaveNeverSavesAsWritten | creacion_estado_pago.py:288-297 | as written, no rerun saves, and the save click ends in an unbound `corr` |
| Ledger.SequentialCorrelativesDistinct | creacion_estado_pago.py:289-290 | statements minted from the running count never share a correlative |
| Ledger.CommitBillsAtMostOnce | creacion_estado_pago.py:160-163 | committing distinct ids none of which is billed keeps every record billed at most once |
| Ledger.RecommitBreaksAtMostOnce | creacion_estado_pago.py:160-163 | committing again an id some link row already bills leaves that record billed twice |
| Ledger.RepeatedRateRepeatsId | creacion_estado_pago.py:46 | two rates with the same description read one record twice, so its id appears twice among the selected ids |
| Ledger.SelectedIdsUnbilled | creacion_estado_pago.py:191-195 | every id selected out of `leer_produccion`'s frame is unbilled |
| Rut.Clean | mantenimiento_empresas.py:7 | `replace('.', '').replace('-', '').upper()` character by character; stated by `Rut.CleanOutput`, `Rut.CleanAppend` and `Rut.CleanSkipsSeparator` |
| Rut.MatchesPattern | mantenimiento_empresas.py:8 | `^\d{7,8}[0-9K]$` with `$` at the end of the string: 7 or 8 digits and then a digit or `K`; used by `Rut.ValidateRut` and `Rut.MalformedRejected` |
| Rut.WeightedSum | mantenimiento_empresas.py:11-14 | the body digits times the weights 2, 3, 4, 5, 6, 7, 2, ... from the right; stated by `Rut.CheckDigitMod11` and `Rut.StatementRutSum` |
| Rut.CleanOutput | mantenimiento_empresas.py:7 | cleaning never lengthens the input and leaves no separator and no lower-case letter |
| Rut.CheckDigit | mantenimiento_empresas.py:15-22 | the computed check character is a digit or `K` |
| Rut.ValidateRut | mantenimiento_empresas.py:6-23 | the loop over the reversed body returns true iff the cleaned input is well formed and ends in its body's check character |
| Rut.CheckDigitMod11 | mantenimiento_empresas.py:15-23 | a character is the check character iff weighted sum plus its value is divisible by 11 |
| Rut.CleanAppend | mantenimiento_empresas.py:7 | cleaning works character by character |
| Rut.CleanOfClean | mantenimiento_empresas.py:7 | cleaning leaves a string of digits and `K` unchanged |
| Rut.SeparatorIgnored | mantenimiento_empresas.py:7 | inserting a dot or a dash anywhere does not change the verdict |
| Rut.CleanSkipsSeparator | mantenimiento_empresas.py:7 | inserting a dot or a dash anywhere does not change the cleaned string |
| Rut.LowerCaseK | mantenimiento_empresas.py:7 | a lower-case `k` is accepted exactly where `K` is |
| Rut.ExactlyOneCheckDigit | mantenimiento_empresas.py:8-23 | for a 7- or 8-digit body, exactly one check character validates, the one that makes the sum divisible by 11 |
| Rut.MalformedRejected | mantenimiento_empresas.py:8-9 | a cleaned input that does not match the pattern is rejected |
| Rut.StatementRutSum | mantenimiento_empresas.py:11-14 | the weighted sum of `76002581` is 89 |
| Rut.StatementRutClean | mantenimiento_empresas.py:7 | `76.002.581-K` cleans to `76002581K` |
| Rut.StatementRutValid | mantenimiento_empresas.py:6-23 | `76.002.581-K` is valid and `K` is its check character |
| Rut.StatementRutCleanValid | mantenimiento_empresas.py:15-23 | the body `76002581`, whose weighted sum is 89, takes `K` as check character |
| Rut.ValidateAsWritten | mantenimiento_empresas.py:6-23 | the function as written, with `$` also matching before a final newline; it raises `ValueError` only when the cleaned input ends in a newline |
| Rut.TrailingNewlineRaises | mantenimiento_empresas.py:8-13 | as written, `76.002.581-K` plus a newline raises instead of returning, while the intended predicate rejects it |
| Rut.StatementRutNewlineClean | mantenimiento_empresas.py:7 | cleaning keeps the trailing newline |
| Rut.NewlineCleanRaises | mantenimiento_empresas.py:8-13 | as written, `76002581K` plus a newline passes the pattern and raises on `int('K')` |
| Rut.AsWrittenAgreesOffNewline | mantenimiento_empresas.py:6-23 | without a trailing newline after cleaning, the code as written returns exactly the intended verdict |
| Rut.TrailingNewlineRejected | mantenimiento_empresas.py:8 | the intended validation rejects any input ending in a newline |
| ProductionSummary.BelowIrreflexive | resumen_produccion.py:42 | no activity sorts before itself |
| ProductionSummary.BelowTransitive | resumen_produccion.py:42 | the sort order of group keys is transitive |
| ProductionSummary.BelowTotal | resumen_produccion.py:42 | any two different activities are ordered one way or the other |
| ProductionSummary.InsertKey | resumen_produccion.py:42 | adding a key gives exactly the old keys plus the new one |
| ProductionSummary.InsertKeySorted | resumen_produccion.py:42 | adding a key keeps the key list strictly sorted |
| ProductionSummary.GroupKeys | resumen_produccion.py:42 | the group keys are exactly the activities produced |
| ProductionSummary.GroupKeysSorted | resumen_produccion.py:42 | the group keys are strictly sorted, so each appears once |
| ProductionSummary.GroupRows | resumen_produccion.py:42 | one row per key, carrying that activity's summed quantity |
| ProductionSummary.GroupBy | resumen_produccion.py:42 | `groupby("actividad", as_index=False).sum()`; stated by `ProductionSummary.GroupByMeaning` and `ProductionSummary.GroupByConserves` |
| ProductionSummary.GroupByMeaning | resumen_produccion.py:42 | the grouped frame is sorted by activity and holds each produced activity in exactly one row and no other; each row's `cantidad` is the sum of that activity's quantities |
| ProductionSummary.GroupRowsOfNothing | resumen_produccion.py:42 | grouping no rows sums to zero |
| ProductionSummary.GroupRowsCons | resumen_produccion.py:42 | one more production row adds its quantity once, to its own group |
| ProductionSummary.GroupRowsTotal | resumen_produccion.py:42 | summing per group over distinct keys covering every activity loses no quantity |
| ProductionSummary.GroupByConserves | resumen_produccion.py:42 | the grouped quantities add up to the total quantity produced |
| ProductionSummary.RatesFor | resumen_produccion.py:45-49 | the matching rates are exactly the rates whose description is the activity |
| ProductionSummary.RowsFor | resumen_produccion.py:45-53 | the merged rows of one group: one per matching rate, or one with both amounts missing; stated by `ProductionSummary.RowsForMeaning` and `ProductionSummary.RowsForKeepsGroup` |
| ProductionSummary.LeftMerge | resumen_produccion.py:45-53 | the left merge with the amount columns, group by group; stated by `ProductionSummary.LeftMergeMeaning` and `ProductionSummary.LeftMergeRowForRow` |
| ProductionSummary.RowsForMeaning | resumen_produccion.py:45-53 | a merged row of a group has its activity and quantity, and either both amounts are missing because no rate matches, or both are its quantity times a matching rate's unit values |
| ProductionSummary.RowsForKeepsGroup | resumen_produccion.py:45-49 | the left merge never drops a grouped row, matched or not |
| ProductionSummary.LeftMergeMembers | resumen_produccion.py:45-49 | the merged table is made of the merged rows of each group |
| ProductionSummary.LeftMergeMeaning | resumen_produccion.py:45-53 | a row is in the merged table iff it comes from a group, priced at a matching rate or, with no match, with both amounts missing |
| ProductionSummary.AtMostOneRate | resumen_produccion.py:45-49 | with unique descriptions, at most one rate matches an activity |
| ProductionSummary.LeftMergeRowForRow | resumen_produccion.py:45-49 | with unique descriptions, the merge is row for row with the grouped frame |
| ProductionSummary.LeftMergeCovers | resumen_produccion.py:45-49 | the merge has at least as many rows as the grouped frame |
| ProductionSummary.KeysCount | resumen_produccion.py:42 | a key list holding every activity is at least as long as the set of activities |
| ProductionSummary.Summarize | resumen_produccion.py:37-53 | there is no summary iff there is no production; a table has at least one row per activity |
| ProductionSummary.SummaryTable | resumen_produccion.py:37-53 | with production and rates, every row shown is a produced activity with its total quantity. Its amounts are missing iff no rate matches; otherwise they are the quantity times a matching rate's unit values |
| ProductionSummary.SummaryShowsEveryActivity | resumen_produccion.py:42-49 | every produced activity is shown with its total quantity |
| ProductionSummary.SummaryConservesQuantity | resumen_produccion.py:42-53 | with one rate per description, the quantities shown add up to the total produced |
| StatementPage.ProductionFrameAsWritten | creacion_estado_pago.py:42-43 | `leer_produccion` gives a frame with no columns iff the `produccion`, `personal` or `actividades` table is empty; otherwise its rows are the company's unbilled lines |
| StatementPage.ExpenseFrameAsWritten | creacion_estado_pago.py:62-63 | `leer_gastos` gives a frame with no columns iff the `gastos` table is empty; otherwise a row is read iff it is the company's and unbilled |
| StatementPage.StartAsWritten | creacion_estado_pago.py:184-203 | the page start as written: the notice when both frames are empty, a `KeyError` on `['id']` when one frame has no columns, else the session lists; stated by the three lemmas below |
| StatementPage.Start | creacion_estado_pago.py:184-195 | the page start as intended never raises; it shows the notice iff both reads are empty, and otherwise starts the lists from the reads |
| StatementPage.AsWrittenAgreesOnFullTables | creacion_estado_pago.py:184-203 | when every table holds rows, the page as written starts exactly as intended |
| StatementPage.EmptyExpenseTableRaises | creacion_estado_pago.py:237-243 | an empty `gastos` table raises `KeyError` whenever the company has unbilled production, where the intended page lists that production |
| StatementPage.EmptyProductionTableRaises | creacion_estado_pago.py:199-205 | an empty `produccion`, `personal` or `actividades` table raises `KeyError` whenever the company has unbilled expenses, where the intended page lists them |
| StatementPage.FirstStatementRaises | creacion_estado_pago.py:184-243 | one unbilled record and no expense ever recorded: the page as written raises, the intended page lists the record |

## Left out

- Supabase reads and writes, Streamlit widgets, and the page layout. Table
  contents are `Database` fields or function arguments. A button click is a
  method call.
- `leer_empresas` (creacion_estado_pago.py:9-17) is a plain read with no logic.
- `generar_pdf_bytes` (creacion_estado_pago.py:73-147) and the download button
  are PDF output.
- `reset_on_change` (creacion_estado_pago.py:175-177) is a UI callback. It
  drops the four lists, and `Selection.Draft.constructor` then builds them again.
- The notice "No hay datos para este subcontrato"
  (creacion_estado_pago.py:186-188) is the `NoData` outcome of the page start;
  its text is not modelled.
- `datetime.date.today()` is the `date` parameter.
- Floating point: amounts are exact reals. `float(tp)`, `int(i)` and the display
  formats are not modelled.
- `reset_index(drop=True)` only renumbers rows. Rows are sequences in frame order.
- Statement creation is not atomic, and two sessions can commit at once: each
  insert is modelled as one step of a single session.
- Columns the page never reads (`fecha`, `valor_venta` in `leer_produccion`) are
  carried but nothing is proved about them.
- Digits.IsDigit: Python's `\d` also matches non-ASCII decimal digits, and
  `int()` accepts them. The model accepts ASCII digits only.
- Rut.Upper: `str.upper()` maps every Unicode letter. The model maps ASCII
  letters only, which are the only ones that can reach the pattern.
- Eligibility.EligibleProduction: a frame without columns, which the source
  returns when a table is empty, is kept apart from an empty frame only in
  `StatementPage`, where it matters (see Findings). When staff or rate rows
  repeat a name or description, the model duplicates lines as the merges do.
- Ledger.SaveStatement: the page never clears the selected lists after a save,
  so a second save commits the same ids again and bills them twice
  (`Ledger.RecommitBreaksAtMostOnce`). The at-most-once guarantee is therefore
  stated only under its conditions.
- Ledger.SaveStatement: two rates sharing a description read one record twice,
  so one save can commit the same production id twice
  (`Ledger.RepeatedRateRepeatsId`). Staff rows hold only a name and a company,
  so a repeated staff row repeats an identical line and the same id.
- ProductionSummary.Summarize: an empty rate table becomes `pd.DataFrame([])`,
  which has no `descripcion` column. The merge then raises `KeyError`; the model
  returns `MissingRateColumns` for this case.
- ProductionSummary.Summarize: when rates repeat a description, `SummaryConservesQuantity`
  does not apply. The merge shows one row per matching rate, so an activity's
  quantity is counted more than once.

## Findings

| source | as written | input that shows it | evidently intended | confidence | as-written member | corrected member |
|---|---|---|---|---|---|---|
| mantenimiento_empresas.py:8-13 | `$` in `re.match` also matches just before a final newline, so a cleaned RUT followed by `\n` passes. The body then includes the check character, and `int('K')` raises `ValueError` | `"76.002.581-K\n"` | reject any input that is not exactly a body and a check character | not executed | Rut.ValidateAsWritten (with Rut.TrailingNewlineRaises) | Rut.ValidateRut (with Rut.TrailingNewlineRejected) |
| creacion_estado_pago.py:42-43 | `leer_produccion` and `leer_gastos` return `pd.DataFrame()`, a frame with no columns, when a table they read is empty. Unless both frames are empty the page goes on and asks each frame for `['id']`, which raises `KeyError` | an empty `gastos` table while the company has unbilled production | treat an empty table as an empty frame with the read's columns, so the page shows what there is | not executed | StatementPage.StartAsWritten (with StatementPage.FirstStatementRaises) | StatementPage.Start |
| creacion_estado_pago.py:288-297 | `corr` is assigned only in the preview branch. Streamlit reruns the script on each click, and a button is true only in its own rerun. So the save rerun reads an unbound local and raises `UnboundLocalError`; nothing is ever saved | a click on "Guardar Estado" | mint the correlative from the statement count when saving, as the preview does | not executed | Ledger.SaveBranchAsWritten (with Ledger.SaveNeverSavesAsWritten) | Ledger.SaveStatement |
