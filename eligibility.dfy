/**
 * The reads behind a new payment statement (estado de pago): which production
 * records and which expenses of one subcontractor company are still unbilled.
 * Table contents are given as sequences of records in table order; the
 * statement link tables (estados_pago_detalle, estados_pago_gastos) are
 * sequences of links.
 */
module Eligibility {
  import opened RowFilters

  /** A row of the `produccion` table. */
  datatype ProductionRecord = ProductionRecord(id: int, date: string, activity: string, worker: string, quantity: real)

  /** A row of the `personal` table: a worker and the company they belong to. */
  datatype Worker = Worker(name: string, company: string)

  /** A row of the `actividades` table: unit values of one activity. */
  datatype ActivityRate = ActivityRate(description: string, productionValue: real, saleValue: real)

  /** A row of the `gastos` table. */
  datatype Expense = Expense(id: int, company: string, description: string, amount: real)

  /** A row of `estados_pago_detalle` or `estados_pago_gastos`: one record billed by one statement. */
  datatype Link = Link(statement: string, itemId: int)

  /** A production record with the worker it was merged with. */
  datatype StaffedRecord = StaffedRecord(record: ProductionRecord, worker: Worker)

  /** A row of the eligible-production frame: record, worker, rate and its production amount. */
  datatype ProductionLine = ProductionLine(record: ProductionRecord, worker: Worker, rate: ActivityRate, amount: real)

  function LineId(l: ProductionLine): int { l.record.id }

  function ExpenseId(e: Expense): int { e.id }

  /** The ids a link table marks as billed. */
  function LinkedIds(links: seq<Link>): (ids: set<int>)
    ensures forall l :: l in links ==> l.itemId in ids
    ensures forall i :: i in ids ==> exists l :: l in links && l.itemId == i
  {
    set l | l in links :: l.itemId
  }

  /** The link rows a commit writes: one per id, all carrying the statement's correlative. */
  function LinksFor(statement: string, ids: seq<int>): (links: seq<Link>)
    ensures |links| == |ids|
    ensures forall k :: 0 <= k < |ids| ==> links[k] == Link(statement, ids[k])
  {
    seq(|ids|, k requires 0 <= k < |ids| => Link(statement, ids[k]))
  }

  /** Appending the links of a commit marks exactly its ids as billed, besides those already billed. */
  lemma LinkedIdsAfterCommit(links: seq<Link>, statement: string, ids: seq<int>)
    ensures LinkedIds(links + LinksFor(statement, ids)) == LinkedIds(links) + set i | i in ids
  {
    var added := LinksFor(statement, ids);
    forall i | i in ids ensures i in LinkedIds(links + added) {
      var k :| 0 <= k < |ids| && ids[k] == i;
      assert added[k] in links + added;
    }
    forall i | i in LinkedIds(links + added) ensures i in LinkedIds(links) || i in ids {
      var l :| l in links + added && l.itemId == i;
      if l !in links {
        var k :| 0 <= k < |added| && added[k] == l;
      }
    }
  }

  // ---- leer_produccion -------------------------------------------------------

  /** The workers a production record merges with (`trabajador` == `nombre`), in table order. */
  function StaffMatches(p: ProductionRecord, staff: seq<Worker>): (r: seq<StaffedRecord>)
    ensures forall x :: x in r <==> x.record == p && x.worker in staff && x.worker.name == p.worker
  {
    if staff == [] then []
    else if staff[0].name == p.worker then [StaffedRecord(p, staff[0])] + StaffMatches(p, staff[1..])
    else StaffMatches(p, staff[1..])
  }

  /** `prod.merge(perso, left_on="trabajador", right_on="nombre")`: an inner join in production order. */
  function JoinStaff(prod: seq<ProductionRecord>, staff: seq<Worker>): (r: seq<StaffedRecord>)
    ensures forall x :: x in r <==> x.record in prod && x.worker in staff && x.worker.name == x.record.worker
  {
    if prod == [] then []
    else
      assert forall q :: q in prod <==> q == prod[0] || q in prod[1..];
      StaffMatches(prod[0], staff) + JoinStaff(prod[1..], staff)
  }

  /** `df[df["empresa"] == empresa_sel]`. */
  function OfCompany(rows: seq<StaffedRecord>, company: string): (r: seq<StaffedRecord>)
    ensures forall x :: x in r <==> x in rows && x.worker.company == company
  {
    if rows == [] then []
    else if rows[0].worker.company == company then [rows[0]] + OfCompany(rows[1..], company)
    else OfCompany(rows[1..], company)
  }

  /** The line a staffed record and a rate merge into, with `Monto Producción = cantidad * valor_produccion`. */
  function Priced(x: StaffedRecord, a: ActivityRate): ProductionLine
  {
    ProductionLine(x.record, x.worker, a, x.record.quantity * a.productionValue)
  }

  /** The rates a staffed record merges with (`actividad` == `descripcion`), in table order. */
  function RateMatches(x: StaffedRecord, rates: seq<ActivityRate>): (r: seq<ProductionLine>)
    ensures forall l :: l in r ==> l.rate in rates && l.rate.description == x.record.activity && l == Priced(x, l.rate)
    ensures forall a :: a in rates && a.description == x.record.activity ==> Priced(x, a) in r
  {
    if rates == [] then []
    else
      var rest := RateMatches(x, rates[1..]);
      assert forall a :: a in rates <==> a == rates[0] || a in rates[1..];
      if rates[0].description == x.record.activity then [Priced(x, rates[0])] + rest else rest
  }

  /** `df.merge(acts, left_on="actividad", right_on="descripcion")`: an inner join in row order. */
  function JoinRates(rows: seq<StaffedRecord>, rates: seq<ActivityRate>): (r: seq<ProductionLine>)
    ensures forall l :: l in r ==>
      var x := StaffedRecord(l.record, l.worker);
      x in rows && l.rate in rates && l.rate.description == l.record.activity && l == Priced(x, l.rate)
    ensures forall x, a :: x in rows && a in rates && a.description == x.record.activity ==> Priced(x, a) in r
  {
    if rows == [] then []
    else
      assert forall q :: q in rows <==> q == rows[0] || q in rows[1..];
      RateMatches(rows[0], rates) + JoinRates(rows[1..], rates)
  }

  /** `leer_produccion(empresa_sel)`: the company's production lines not yet billed by any statement. */
  function EligibleProduction(prod: seq<ProductionRecord>, staff: seq<Worker>, rates: seq<ActivityRate>,
                              detail: seq<Link>, company: string): (r: seq<ProductionLine>)
    ensures prod == [] || staff == [] || rates == [] ==> r == []
    ensures forall l :: l in r ==> l.record in prod && l.worker.company == company && l.record.id !in LinkedIds(detail)
  {
    if prod == [] || staff == [] || rates == [] then []
    else WithoutIds(JoinRates(OfCompany(JoinStaff(prod, staff), company), rates), LineId, LinkedIds(detail))
  }

  /** A line is eligible exactly when its record, worker and rate are rows of
      their tables that inner-join, the worker belongs to the company, the record
      is billed by no statement, and the amount is quantity times production value. */
  lemma EligibleProductionIff(prod: seq<ProductionRecord>, staff: seq<Worker>, rates: seq<ActivityRate>,
                              detail: seq<Link>, company: string, l: ProductionLine)
    ensures l in EligibleProduction(prod, staff, rates, detail, company) <==>
      && l.record in prod && l.worker in staff && l.rate in rates
      && l.worker.name == l.record.worker
      && l.worker.company == company
      && l.rate.description == l.record.activity
      && l.record.id !in LinkedIds(detail)
      && l.amount == l.record.quantity * l.rate.productionValue
  {
    var x := StaffedRecord(l.record, l.worker);
    assert l == ProductionLine(l.record, l.worker, l.rate, l.amount);
    assert l == Priced(x, l.rate) <==> l.amount == l.record.quantity * l.rate.productionValue;
    if !(prod == [] || staff == [] || rates == []) {
      var staffed := OfCompany(JoinStaff(prod, staff), company);
      var joined := JoinRates(staffed, rates);
      assert x in staffed <==>
        l.record in prod && l.worker in staff && l.worker.name == l.record.worker && l.worker.company == company;
      assert l in joined <==>
        x in staffed && l.rate in rates && l.rate.description == l.record.activity && l == Priced(x, l.rate);
      assert EligibleProduction(prod, staff, rates, detail, company) == WithoutIds(joined, LineId, LinkedIds(detail));
    }
  }

  /** No eligible line belongs to another company, repeats a billed id, or has another amount. */
  lemma EligibleProductionSound(prod: seq<ProductionRecord>, staff: seq<Worker>, rates: seq<ActivityRate>,
                                detail: seq<Link>, company: string, l: ProductionLine)
    requires l in EligibleProduction(prod, staff, rates, detail, company)
    ensures l.worker.company == company
    ensures forall d :: d in detail ==> d.itemId != l.record.id
    ensures l.amount == l.record.quantity * l.rate.productionValue
  {
    EligibleProductionIff(prod, staff, rates, detail, company, l);
  }

  /** A record of the company, unbilled, whose worker and activity both match, is read
      once priced at each matching rate. */
  lemma LineRead(prod: seq<ProductionRecord>, staff: seq<Worker>, rates: seq<ActivityRate>,
                 detail: seq<Link>, company: string, p: ProductionRecord, w: Worker, a: ActivityRate)
    requires p in prod && w in staff && w.name == p.worker && w.company == company && p.id !in LinkedIds(detail)
    requires a in rates && a.description == p.activity
    ensures ProductionLine(p, w, a, p.quantity * a.productionValue) in EligibleProduction(prod, staff, rates, detail, company)
  {
    var amount := p.quantity * a.productionValue;
    var l := ProductionLine(p, w, a, amount);
    assert l.record == p && l.worker == w && l.rate == a;
    assert l.amount == l.record.quantity * l.rate.productionValue;
    EligibleProductionIff(prod, staff, rates, detail, company, l);
  }

  /** A production record whose worker or activity has no row in its table yields no line. */
  lemma UnmatchedRecordDropped(prod: seq<ProductionRecord>, staff: seq<Worker>, rates: seq<ActivityRate>,
                               detail: seq<Link>, company: string, p: ProductionRecord)
    requires (forall w :: w in staff ==> w.name != p.worker) || (forall a :: a in rates ==> a.description != p.activity)
    ensures forall l :: l in EligibleProduction(prod, staff, rates, detail, company) ==> l.record != p
  {
    forall l | l in EligibleProduction(prod, staff, rates, detail, company) ensures l.record != p {
      EligibleProductionIff(prod, staff, rates, detail, company, l);
    }
  }

  /** After a statement billing `ids` is committed, the company's eligible lines
      are the earlier ones minus those ids, in the same order. */
  lemma ProductionAfterCommit(prod: seq<ProductionRecord>, staff: seq<Worker>, rates: seq<ActivityRate>,
                              detail: seq<Link>, company: string, statement: string, ids: seq<int>)
    ensures EligibleProduction(prod, staff, rates, detail + LinksFor(statement, ids), company)
         == WithoutIds(EligibleProduction(prod, staff, rates, detail, company), LineId, set i | i in ids)
  {
    LinkedIdsAfterCommit(detail, statement, ids);
    if !(prod == [] || staff == [] || rates == []) {
      WithoutIdsUnion(JoinRates(OfCompany(JoinStaff(prod, staff), company), rates), LineId,
                      LinkedIds(detail), set i | i in ids);
    }
  }

  // ---- leer_gastos -----------------------------------------------------------

  /** `df_g[df_g["empresa"] == empresa_sel]`. */
  function ExpensesOf(expenses: seq<Expense>, company: string): (r: seq<Expense>)
    ensures forall e :: e in r <==> e in expenses && e.company == company
  {
    if expenses == [] then []
    else if expenses[0].company == company then [expenses[0]] + ExpensesOf(expenses[1..], company)
    else ExpensesOf(expenses[1..], company)
  }

  /** `leer_gastos(empresa_sel)`: the company's expenses not yet billed by any statement. */
  function EligibleExpenses(expenses: seq<Expense>, links: seq<Link>, company: string): (r: seq<Expense>)
    ensures forall e :: e in r <==> e in expenses && e.company == company && e.id !in LinkedIds(links)
  {
    if expenses == [] then []
    else WithoutIds(ExpensesOf(expenses, company), ExpenseId, LinkedIds(links))
  }

  /** The company's expenses that no link bills, each as many times as the table holds it, and no others. */
  lemma {:induction false} EligibleExpensesCount(expenses: seq<Expense>, links: seq<Link>, company: string, e: Expense)
    ensures multiset(EligibleExpenses(expenses, links, company))[e]
         == if e.company == company && e.id !in LinkedIds(links) then multiset(expenses)[e] else 0
  {
    if expenses != [] {
      WithoutIdsCount(ExpensesOf(expenses, company), ExpenseId, LinkedIds(links), e);
      ExpensesOfCount(expenses, company, e);
    }
  }

  lemma {:induction false} ExpensesOfCount(expenses: seq<Expense>, company: string, e: Expense)
    ensures multiset(ExpensesOf(expenses, company))[e] == if e.company == company then multiset(expenses)[e] else 0
  {
    if expenses != [] {
      ExpensesOfCount(expenses[1..], company, e);
      assert expenses == [expenses[0]] + expenses[1..];
    }
  }

  /** The expense frame keeps table order: reading two runs of the table gives the two results in turn. */
  lemma {:induction false} EligibleExpensesAppend(a: seq<Expense>, b: seq<Expense>, links: seq<Link>, company: string)
    ensures EligibleExpenses(a + b, links, company) == EligibleExpenses(a, links, company) + EligibleExpenses(b, links, company)
  {
    if a == [] {
      assert a + b == b;
    } else if b == [] {
      assert a + b == a;
    } else {
      ExpensesOfAppend(a, b, company);
      WithoutIdsAppend(ExpensesOf(a, company), ExpensesOf(b, company), ExpenseId, LinkedIds(links));
    }
  }

  lemma {:induction false} ExpensesOfAppend(a: seq<Expense>, b: seq<Expense>, company: string)
    ensures ExpensesOf(a + b, company) == ExpensesOf(a, company) + ExpensesOf(b, company)
  {
    if a == [] {
      assert a + b == b;
    } else {
      ExpensesOfAppend(a[1..], b, company);
      assert (a + b)[1..] == a[1..] + b;
    }
  }

  /** After a statement billing `ids` is committed, the company's eligible
      expenses are the earlier ones minus those ids, in the same order. */
  lemma ExpensesAfterCommit(expenses: seq<Expense>, links: seq<Link>, company: string, statement: string, ids: seq<int>)
    ensures EligibleExpenses(expenses, links + LinksFor(statement, ids), company)
         == WithoutIds(EligibleExpenses(expenses, links, company), ExpenseId, set i | i in ids)
  {
    LinkedIdsAfterCommit(links, statement, ids);
    if expenses != [] {
      WithoutIdsUnion(ExpensesOf(expenses, company), ExpenseId, LinkedIds(links), set i | i in ids);
    }
  }
}
