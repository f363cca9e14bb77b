/**
 * The totals of a payment statement: production total `tp`, expense total
 * `tg` and the net `neto = tp - tg`, over the rows the user selected.
 */
module Totals {
  import opened RowFilters
  import opened Eligibility

  datatype Totals = Totals(production: real, expenses: real, net: real)

  /** `cantidad * valor_produccion` of one selected production line, recomputed from its columns. */
  function LineValue(l: ProductionLine): real { l.record.quantity * l.rate.productionValue }

  /** The amount column a production line carries. */
  function LineAmount(l: ProductionLine): real { l.amount }

  function ExpenseAmount(e: Expense): real { e.amount }

  /** The totals of a statement over its selected production lines and expenses. */
  function ComputeTotals(production: seq<ProductionLine>, expenses: seq<Expense>): (t: Totals)
    ensures production == [] ==> t.production == 0.0
    ensures expenses == [] ==> t.expenses == 0.0
    ensures t.net == t.production - t.expenses
  {
    var tp := Sum(production, LineValue);
    var tg := Sum(expenses, ExpenseAmount);
    Totals(tp, tg, tp - tg)
  }

  /** Totals over two disjoint selections add up. */
  lemma TotalsAdditive(p1: seq<ProductionLine>, p2: seq<ProductionLine>, e1: seq<Expense>, e2: seq<Expense>)
    ensures ComputeTotals(p1 + p2, e1 + e2).production == ComputeTotals(p1, e1).production + ComputeTotals(p2, e2).production
    ensures ComputeTotals(p1 + p2, e1 + e2).expenses == ComputeTotals(p1, e1).expenses + ComputeTotals(p2, e2).expenses
    ensures ComputeTotals(p1 + p2, e1 + e2).net == ComputeTotals(p1, e1).net + ComputeTotals(p2, e2).net
  {
    SumAppend(p1, p2, LineValue);
    SumAppend(e1, e2, ExpenseAmount);
  }

  /** Totals do not depend on the order in which rows were selected. */
  lemma TotalsReorder(p1: seq<ProductionLine>, p2: seq<ProductionLine>, e1: seq<Expense>, e2: seq<Expense>)
    requires multiset(p1) == multiset(p2) && multiset(e1) == multiset(e2)
    ensures ComputeTotals(p1, e1) == ComputeTotals(p2, e2)
  {
    SumPermutation(p1, p2, LineValue);
    SumPermutation(e1, e2, ExpenseAmount);
  }

  /** On rows read by `leer_produccion`, the recomputed production total is the
      sum of the frame's `Monto Producción` column. */
  lemma ProductionTotalIsAmountColumn(prod: seq<ProductionRecord>, staff: seq<Worker>, rates: seq<ActivityRate>,
                                      detail: seq<Link>, company: string, selected: seq<ProductionLine>)
    requires forall l :: l in selected ==> l in EligibleProduction(prod, staff, rates, detail, company)
    ensures ComputeTotals(selected, []).production == Sum(selected, LineAmount)
  {
    forall l | l in selected ensures LineValue(l) == LineAmount(l) {
      EligibleProductionSound(prod, staff, rates, detail, company, l);
    }
    SumCongruent(selected, LineValue, LineAmount);
  }

  /** Splitting a pool of rows between the available and selected lists keeps its totals. */
  lemma SplitKeepsTotals(pool: seq<ProductionLine>, available: seq<ProductionLine>, selected: seq<ProductionLine>,
                         expensePool: seq<Expense>, availableExpenses: seq<Expense>, selectedExpenses: seq<Expense>)
    requires multiset(available + selected) == multiset(pool)
    requires multiset(availableExpenses + selectedExpenses) == multiset(expensePool)
    ensures ComputeTotals(available, availableExpenses).production + ComputeTotals(selected, selectedExpenses).production
         == ComputeTotals(pool, expensePool).production
    ensures ComputeTotals(available, availableExpenses).expenses + ComputeTotals(selected, selectedExpenses).expenses
         == ComputeTotals(pool, expensePool).expenses
  {
    TotalsAdditive(available, selected, availableExpenses, selectedExpenses);
    TotalsReorder(available + selected, pool, availableExpenses + selectedExpenses, expensePool);
  }
}
