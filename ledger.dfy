/**
 * The tables the statement page reads and writes, and the commit of a
 * statement (`insertar_estado_pago`): one `estados_pago` row, one
 * `estados_pago_detalle` row per selected production id and one
 * `estados_pago_gastos` row per selected expense id, all carrying the same
 * correlative.
 */
module Ledger {
  import opened Wrappers
  import opened RowFilters
  import opened Eligibility
  import opened Totals
  import opened Correlative
  import opened Selection

  /** A row of `estados_pago`. */
  datatype Statement = Statement(correlative: string, date: string, company: string,
                                 totalProduction: real, totalExpenses: real, net: real)

  /** The ids in a selected frame's `id` column, in frame order. */
  function ProductionIds(lines: seq<ProductionLine>): (ids: seq<int>)
    ensures |ids| == |lines|
    ensures forall k :: 0 <= k < |lines| ==> ids[k] == lines[k].record.id
  {
    seq(|lines|, k requires 0 <= k < |lines| => lines[k].record.id)
  }

  function ExpenseIds(expenses: seq<Expense>): (ids: seq<int>)
    ensures |ids| == |expenses|
    ensures forall k :: 0 <= k < |expenses| ==> ids[k] == expenses[k].id
  {
    seq(|expenses|, k requires 0 <= k < |expenses| => expenses[k].id)
  }

  /** No id occurs twice in a column of ids. */
  predicate Distinct(ids: seq<int>)
  {
    forall i, j :: 0 <= i < j < |ids| ==> ids[i] != ids[j]
  }

  /** No record is billed by two link rows. */
  ghost predicate BilledAtMostOnce(links: seq<Link>)
  {
    forall i, j :: 0 <= i < j < |links| ==> links[i].itemId != links[j].itemId
  }

  /** The database, table by table, in table order. */
  class Database {
    var production: seq<ProductionRecord>
    var staff: seq<Worker>
    var rates: seq<ActivityRate>
    var expenses: seq<Expense>
    var statements: seq<Statement>
    var productionLinks: seq<Link>
    var expenseLinks: seq<Link>

    constructor (production: seq<ProductionRecord>, staff: seq<Worker>, rates: seq<ActivityRate>, expenses: seq<Expense>)
      ensures this.production == production && this.staff == staff && this.rates == rates && this.expenses == expenses
      ensures statements == [] && productionLinks == [] && expenseLinks == []
    {
      this.production, this.staff, this.rates, this.expenses := production, staff, rates, expenses;
      statements, productionLinks, expenseLinks := [], [], [];
    }

    /** `leer_produccion(company)` against the current tables. */
    function ReadProduction(company: string): (r: seq<ProductionLine>)
      reads this
      ensures forall l :: l in r ==>
        l.record in production && l.worker.company == company && l.record.id !in LinkedIds(productionLinks)
    {
      EligibleProduction(production, staff, rates, productionLinks, company)
    }

    /** `leer_gastos(company)` against the current tables. */
    function ReadExpenses(company: string): (r: seq<Expense>)
      reads this
      ensures forall e :: e in r <==> e in expenses && e.company == company && e.id !in LinkedIds(expenseLinks)
    {
      EligibleExpenses(expenses, expenseLinks, company)
    }

    /** The correlative the preview computes from the number of statements. */
    function NextCorrelative(): (c: string)
      reads this
      ensures ParseCorrelative(c) == Some(|statements| + 1)
    {
      CorrelativeRoundTrip(|statements|);
      CorrelativeFor(|statements|)
    }

    /** Every statement carries the correlative minted from the count before it. */
    ghost predicate Sequential()
      reads this
    {
      forall k :: 0 <= k < |statements| ==> statements[k].correlative == CorrelativeFor(k)
    }

    /** `insertar_estado_pago(corr, emp, tp, tg, neto)` with the selected ids. */
    method InsertStatement(corr: string, company: string, date: string, tp: real, tg: real, net: real,
                           productionIds: seq<int>, expenseIds: seq<int>)
      modifies this
      ensures statements == old(statements) + [Statement(corr, date, company, tp, tg, net)]
      ensures productionLinks == old(productionLinks) + LinksFor(corr, productionIds)
      ensures expenseLinks == old(expenseLinks) + LinksFor(corr, expenseIds)
      ensures production == old(production) && staff == old(staff) && rates == old(rates) && expenses == old(expenses)
      ensures forall c :: ReadProduction(c) == WithoutIds(old(ReadProduction(c)), LineId, set i | i in productionIds)
      ensures forall c :: ReadExpenses(c) == WithoutIds(old(ReadExpenses(c)), ExpenseId, set i | i in expenseIds)
      ensures old(Sequential()) && corr == old(NextCorrelative()) ==> Sequential()
    {
      statements := statements + [Statement(corr, date, company, tp, tg, net)];
      forall c ensures EligibleProduction(production, staff, rates, productionLinks + LinksFor(corr, productionIds), c)
                    == WithoutIds(EligibleProduction(production, staff, rates, productionLinks, c), LineId, set i | i in productionIds)
      {
        ProductionAfterCommit(production, staff, rates, productionLinks, c, corr, productionIds);
      }
      forall c ensures EligibleExpenses(expenses, expenseLinks + LinksFor(corr, expenseIds), c)
                    == WithoutIds(EligibleExpenses(expenses, expenseLinks, c), ExpenseId, set i | i in expenseIds)
      {
        ExpensesAfterCommit(expenses, expenseLinks, c, corr, expenseIds);
      }
      productionLinks := productionLinks + LinksFor(corr, productionIds);
      expenseLinks := expenseLinks + LinksFor(corr, expenseIds);
    }
  }

  /** "Guardar Estado", as intended: mint the correlative from the statement count, then
      commit the draft's selection under it with the totals shown on the page. */
  method SaveStatement(db: Database, draft: Draft, company: string, date: string) returns (corr: string)
    requires draft.Valid()
    modifies db
    ensures corr == old(db.NextCorrelative())
    ensures db.statements == old(db.statements) + [Statement(corr, date, company,
      draft.CurrentTotals().production, draft.CurrentTotals().expenses, draft.CurrentTotals().net)]
    ensures db.productionLinks == old(db.productionLinks) + LinksFor(corr, ProductionIds(draft.selectedProduction))
    ensures db.expenseLinks == old(db.expenseLinks) + LinksFor(corr, ExpenseIds(draft.selectedExpenses))
    ensures db.production == old(db.production) && db.staff == old(db.staff)
    ensures db.rates == old(db.rates) && db.expenses == old(db.expenses)
    ensures forall c ::
      db.ReadProduction(c) == WithoutIds(old(db.ReadProduction(c)), LineId, set i | i in ProductionIds(draft.selectedProduction))
    ensures forall c ::
      db.ReadExpenses(c) == WithoutIds(old(db.ReadExpenses(c)), ExpenseId, set i | i in ExpenseIds(draft.selectedExpenses))
    ensures forall l :: l in draft.selectedProduction ==> forall c :: forall m :: m in db.ReadProduction(c) ==> m.record.id != l.record.id
    ensures forall e :: e in draft.selectedExpenses ==> forall c :: forall f :: f in db.ReadExpenses(c) ==> f.id != e.id
    ensures old(db.Sequential()) ==> db.Sequential()
    ensures old(BilledAtMostOnce(db.productionLinks)) && Distinct(ProductionIds(draft.selectedProduction))
            && (forall i :: i in ProductionIds(draft.selectedProduction) ==> i !in LinkedIds(old(db.productionLinks)))
            ==> BilledAtMostOnce(db.productionLinks)
    ensures old(BilledAtMostOnce(db.expenseLinks)) && Distinct(ExpenseIds(draft.selectedExpenses))
            && (forall i :: i in ExpenseIds(draft.selectedExpenses) ==> i !in LinkedIds(old(db.expenseLinks)))
            ==> BilledAtMostOnce(db.expenseLinks)
  {
    corr := db.NextCorrelative();
    var t := draft.CurrentTotals();
    var pids := ProductionIds(draft.selectedProduction);
    var eids := ExpenseIds(draft.selectedExpenses);
    ghost var oldProductionLinks, oldExpenseLinks := db.productionLinks, db.expenseLinks;
    db.InsertStatement(corr, company, date, t.production, t.expenses, t.net, pids, eids);
    if BilledAtMostOnce(oldProductionLinks) && Distinct(pids) && (forall i :: i in pids ==> i !in LinkedIds(oldProductionLinks)) {
      CommitBillsAtMostOnce(oldProductionLinks, corr, pids);
    }
    if BilledAtMostOnce(oldExpenseLinks) && Distinct(eids) && (forall i :: i in eids ==> i !in LinkedIds(oldExpenseLinks)) {
      CommitBillsAtMostOnce(oldExpenseLinks, corr, eids);
    }
    forall l | l in draft.selectedProduction ensures l.record.id in set i | i in pids {
      var k :| 0 <= k < |draft.selectedProduction| && draft.selectedProduction[k] == l;
      assert pids[k] == l.record.id;
    }
    forall e | e in draft.selectedExpenses ensures e.id in set i | i in eids {
      var k :| 0 <= k < |draft.selectedExpenses| && draft.selectedExpenses[k] == e;
      assert eids[k] == e.id;
    }
  }

  // ---- the save button as written -------------------------------------------

  /** The button whose click triggered a rerun of the page. Streamlit reruns the whole
      script on each click, and `st.button` is true only in the rerun of its own click. */
  datatype Click = NoClick | PreviewClicked | SaveClicked

  datatype SaveOutcome = NothingSaved | SavedUnder(correlative: string) | RaisedUnboundLocalError

  /** The two buttons as written: `corr` is a local of `app()` assigned only in the
      preview branch, and the save branch reads it in the same rerun. */
  function SaveBranchAsWritten(click: Click, count: nat): SaveOutcome
  {
    var corrBound := click == PreviewClicked;
    if click != SaveClicked then NothingSaved
    else if corrBound then SavedUnder(CorrelativeFor(count))
    else RaisedUnboundLocalError
  }

  /** As written, no rerun ever saves: the save click reaches an unbound `corr`. */
  lemma SaveNeverSavesAsWritten(click: Click, count: nat)
    ensures !SaveBranchAsWritten(click, count).SavedUnder?
    ensures click == SaveClicked <==> SaveBranchAsWritten(click, count) == RaisedUnboundLocalError
  {
  }

  /** A ledger whose statements were all minted from the running count never repeats a correlative. */
  lemma SequentialCorrelativesDistinct(statements: seq<Statement>, i: nat, j: nat)
    requires forall k :: 0 <= k < |statements| ==> statements[k].correlative == CorrelativeFor(k)
    requires i < j < |statements|
    ensures statements[i].correlative != statements[j].correlative
  {
    if statements[i].correlative == statements[j].correlative {
      CorrelativeInjective(i, j);
    }
  }

  /** Committing ids that are pairwise distinct and not yet billed keeps every record billed at most once. */
  lemma CommitBillsAtMostOnce(links: seq<Link>, corr: string, ids: seq<int>)
    requires BilledAtMostOnce(links)
    requires Distinct(ids)
    requires forall i :: i in ids ==> i !in LinkedIds(links)
    ensures BilledAtMostOnce(links + LinksFor(corr, ids))
  {
    var all := links + LinksFor(corr, ids);
    forall i, j | 0 <= i < j < |all| ensures all[i].itemId != all[j].itemId {
      if i >= |links| {
        assert all[i].itemId == ids[i - |links|] && all[j].itemId == ids[j - |links|];
      } else if j >= |links| {
        assert all[j].itemId == ids[j - |links|] && ids[j - |links|] in ids;
        assert links[i] in links;
      }
    }
  }

  /** Committing an id that a statement already bills breaks the at-most-once rule: nothing on
      the page stops a second save of the same selection. */
  lemma RecommitBreaksAtMostOnce(links: seq<Link>, corr: string, ids: seq<int>)
    requires |ids| > 0 && ids[0] in LinkedIds(links)
    ensures !BilledAtMostOnce(links + LinksFor(corr, ids))
  {
    var l :| l in links && l.itemId == ids[0];
    var k :| 0 <= k < |links| && links[k] == l;
    var all := links + LinksFor(corr, ids);
    assert all[k].itemId == all[|links|].itemId;
  }

  /** Two rate rows with the record's activity as description put the record in
      `leer_produccion`'s frame twice, once per rate, so selecting both commits its id twice. */
  lemma RepeatedRateRepeatsId(prod: seq<ProductionRecord>, staff: seq<Worker>, rates: seq<ActivityRate>,
                              detail: seq<Link>, company: string, p: ProductionRecord, w: Worker,
                              a1: ActivityRate, a2: ActivityRate)
    requires p in prod && w in staff && w.name == p.worker && w.company == company && p.id !in LinkedIds(detail)
    requires a1 in rates && a2 in rates && a1 != a2 && a1.description == p.activity && a2.description == p.activity
    ensures ProductionLine(p, w, a1, p.quantity * a1.productionValue) in EligibleProduction(prod, staff, rates, detail, company)
    ensures ProductionLine(p, w, a2, p.quantity * a2.productionValue) in EligibleProduction(prod, staff, rates, detail, company)
    ensures !Distinct(ProductionIds([ProductionLine(p, w, a1, p.quantity * a1.productionValue),
                                     ProductionLine(p, w, a2, p.quantity * a2.productionValue)]))
  {
    LineRead(prod, staff, rates, detail, company, p, w, a1);
    LineRead(prod, staff, rates, detail, company, p, w, a2);
    var ids := ProductionIds([ProductionLine(p, w, a1, p.quantity * a1.productionValue),
                              ProductionLine(p, w, a2, p.quantity * a2.productionValue)]);
    assert ids[0] == p.id == ids[1];
  }

  /** Every production id a draft selected out of `leer_produccion`'s frame is unbilled. */
  lemma SelectedIdsUnbilled(pool: seq<ProductionLine>, selected: seq<ProductionLine>, prod: seq<ProductionRecord>,
                            staff: seq<Worker>, rates: seq<ActivityRate>, detail: seq<Link>, company: string)
    requires pool == EligibleProduction(prod, staff, rates, detail, company)
    requires multiset(selected) <= multiset(pool)
    ensures forall i :: i in ProductionIds(selected) ==> i !in LinkedIds(detail)
  {
    var ids := ProductionIds(selected);
    forall i | i in ids ensures i !in LinkedIds(detail) {
      var k :| 0 <= k < |ids| && ids[k] == i;
      assert selected[k] in multiset(selected);
      assert selected[k] in pool;
      EligibleProductionIff(prod, staff, rates, detail, company, selected[k]);
    }
  }
}
