/**
 * The start of the statement page: the two reads, the "no data" notice, and the
 * session lists the buttons then work on. `leer_produccion` and `leer_gastos`
 * return `pd.DataFrame()`, a frame without any column, when a table they read
 * is empty; the page then asks that frame for its `id` column.
 */
module StatementPage {
  import opened Eligibility

  /** A frame as a read returns it: no columns at all, or rows under the read's columns. */
  datatype Frame<R> = NoColumns | Rows(rows: seq<R>)

  /** `df.empty`: no columns, or no rows. */
  predicate IsEmpty<R>(f: Frame<R>)
  {
    f.NoColumns? || f.rows == []
  }

  /** What the page start ends in: the notice, a `KeyError`, or the session lists. */
  datatype PageStart = NoData | RaisedKeyError | Lists(production: seq<ProductionLine>, expenses: seq<Expense>)

  /** `leer_produccion` as written: an empty `produccion`, `personal` or `actividades`
      table gives a frame with no columns. */
  function ProductionFrameAsWritten(prod: seq<ProductionRecord>, staff: seq<Worker>, rates: seq<ActivityRate>,
                                    detail: seq<Link>, company: string): (f: Frame<ProductionLine>)
    ensures f.NoColumns? <==> prod == [] || staff == [] || rates == []
    ensures f.Rows? ==> forall l :: l in f.rows ==> l.worker.company == company && l.record.id !in LinkedIds(detail)
  {
    if prod == [] || staff == [] || rates == [] then NoColumns
    else Rows(EligibleProduction(prod, staff, rates, detail, company))
  }

  /** `leer_gastos` as written: an empty `gastos` table gives a frame with no columns. */
  function ExpenseFrameAsWritten(expenses: seq<Expense>, links: seq<Link>, company: string): (f: Frame<Expense>)
    ensures f.NoColumns? <==> expenses == []
    ensures f.Rows? ==> forall e :: e in f.rows <==> e in expenses && e.company == company && e.id !in LinkedIds(links)
  {
    if expenses == [] then NoColumns else Rows(EligibleExpenses(expenses, links, company))
  }

  /** The page start as written: the notice when both frames are empty; otherwise the
      session lists copy the frames and the multiselects read their `id` columns. */
  function StartAsWritten(production: Frame<ProductionLine>, expenses: Frame<Expense>): PageStart
  {
    if IsEmpty(production) && IsEmpty(expenses) then NoData
    else if production.NoColumns? || expenses.NoColumns? then RaisedKeyError
    else Lists(production.rows, expenses.rows)
  }

  /** The page start as intended: an empty read is an empty list. */
  function Start(production: seq<ProductionLine>, expenses: seq<Expense>): (s: PageStart)
    ensures s != RaisedKeyError
    ensures s == NoData <==> production == [] && expenses == []
    ensures s.Lists? ==> s.production == production && s.expenses == expenses
  {
    if production == [] && expenses == [] then NoData else Lists(production, expenses)
  }

  /** With every table non-empty, the page as written starts exactly as intended. */
  lemma AsWrittenAgreesOnFullTables(prod: seq<ProductionRecord>, staff: seq<Worker>, rates: seq<ActivityRate>,
                                    detail: seq<Link>, expenses: seq<Expense>, links: seq<Link>, company: string)
    requires prod != [] && staff != [] && rates != [] && expenses != []
    ensures StartAsWritten(ProductionFrameAsWritten(prod, staff, rates, detail, company),
                           ExpenseFrameAsWritten(expenses, links, company))
         == Start(EligibleProduction(prod, staff, rates, detail, company), EligibleExpenses(expenses, links, company))
  {
  }

  /** As written, an empty `gastos` table makes the page raise whenever the company has
      unbilled production; as intended, the page shows that production. */
  lemma EmptyExpenseTableRaises(prod: seq<ProductionRecord>, staff: seq<Worker>, rates: seq<ActivityRate>,
                                detail: seq<Link>, links: seq<Link>, company: string)
    requires EligibleProduction(prod, staff, rates, detail, company) != []
    ensures StartAsWritten(ProductionFrameAsWritten(prod, staff, rates, detail, company),
                           ExpenseFrameAsWritten([], links, company)) == RaisedKeyError
    ensures Start(EligibleProduction(prod, staff, rates, detail, company), EligibleExpenses([], links, company))
         == Lists(EligibleProduction(prod, staff, rates, detail, company), [])
  {
  }

  /** As written, an empty `produccion`, `personal` or `actividades` table makes the page
      raise whenever the company has unbilled expenses; as intended, it shows them. */
  lemma EmptyProductionTableRaises(prod: seq<ProductionRecord>, staff: seq<Worker>, rates: seq<ActivityRate>,
                                   detail: seq<Link>, expenses: seq<Expense>, links: seq<Link>, company: string)
    requires prod == [] || staff == [] || rates == []
    requires EligibleExpenses(expenses, links, company) != []
    ensures StartAsWritten(ProductionFrameAsWritten(prod, staff, rates, detail, company),
                           ExpenseFrameAsWritten(expenses, links, company)) == RaisedKeyError
    ensures Start(EligibleProduction(prod, staff, rates, detail, company), EligibleExpenses(expenses, links, company))
         == Lists([], EligibleExpenses(expenses, links, company))
  {
    var e := EligibleExpenses(expenses, links, company);
    assert e[0] in e;
  }

  /** A company with one unbilled production record and a `gastos` table not yet used:
      the page as written raises, the intended page lists the record. */
  lemma FirstStatementRaises()
    ensures StartAsWritten(ProductionFrameAsWritten([ProductionRecord(1, "2024-05-02", "Empalme", "Ana", 10.0)],
                                                    [Worker("Ana", "Acme")], [ActivityRate("Empalme", 500.0, 800.0)],
                                                    [], "Acme"),
                           ExpenseFrameAsWritten([], [], "Acme")) == RaisedKeyError
    ensures Start(EligibleProduction([ProductionRecord(1, "2024-05-02", "Empalme", "Ana", 10.0)],
                                     [Worker("Ana", "Acme")], [ActivityRate("Empalme", 500.0, 800.0)], [], "Acme"),
                  EligibleExpenses([], [], "Acme")).Lists?
  {
    var p := ProductionRecord(1, "2024-05-02", "Empalme", "Ana", 10.0);
    var w := Worker("Ana", "Acme");
    var a := ActivityRate("Empalme", 500.0, 800.0);
    LineRead([p], [w], [a], [], "Acme", p, w, a);
    EmptyExpenseTableRaises([p], [w], [a], [], [], "Acme");
  }
}
