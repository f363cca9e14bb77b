/**
 * The selection workflow of the statement page: for production and for
 * expenses, an "available" list and a "selected" list held in the session,
 * and the add (>>) and remove (<<) handlers that move the rows whose ids the
 * user picked from one list to the end of the other.
 */
module Selection {
  import opened RowFilters
  import opened Eligibility
  import opened Totals

  /** The four session lists `prod_disp`, `prod_sel`, `gast_disp`, `gast_sel`. */
  class Draft {
    /** The frames `leer_produccion` and `leer_gastos` returned when the session was initialised. */
    ghost const productionPool: seq<ProductionLine>
    ghost const expensePool: seq<Expense>

    var availableProduction: seq<ProductionLine>
    var selectedProduction: seq<ProductionLine>
    var availableExpenses: seq<Expense>
    var selectedExpenses: seq<Expense>

    /** Every row of a pool sits in exactly one of its two lists, and no id is in both. */
    ghost predicate Valid()
      reads this
    {
      && multiset(availableProduction + selectedProduction) == multiset(productionPool)
      && multiset(availableExpenses + selectedExpenses) == multiset(expensePool)
      && Keys(availableProduction, LineId) !! Keys(selectedProduction, LineId)
      && Keys(availableExpenses, ExpenseId) !! Keys(selectedExpenses, ExpenseId)
    }

    /** Session initialisation: everything available, nothing selected. */
    constructor (production: seq<ProductionLine>, expenses: seq<Expense>)
      ensures Valid()
      ensures productionPool == production && expensePool == expenses
      ensures availableProduction == production && selectedProduction == []
      ensures availableExpenses == expenses && selectedExpenses == []
    {
      productionPool, expensePool := production, expenses;
      availableProduction, selectedProduction := production, [];
      availableExpenses, selectedExpenses := expenses, [];
      new;
      assert availableProduction + selectedProduction == production;
      assert availableExpenses + selectedExpenses == expenses;
    }

    /** ">> Añadir Producción": the available rows with a picked id go to the end of the selection. */
    method AddProduction(ids: set<int>)
      requires Valid()
      modifies this
      ensures Valid()
      ensures selectedProduction == old(selectedProduction) + WithIds(old(availableProduction), LineId, ids)
      ensures availableProduction == WithoutIds(old(availableProduction), LineId, ids)
      ensures availableExpenses == old(availableExpenses) && selectedExpenses == old(selectedExpenses)
    {
      var moved := WithIds(availableProduction, LineId, ids);
      var kept := WithoutIds(availableProduction, LineId, ids);
      MoveKeepsPool(availableProduction, selectedProduction, LineId, ids);
      selectedProduction := selectedProduction + moved;
      availableProduction := kept;
    }

    /** "<< Quitar Producción": the selected rows with a picked id go back to the end of the available list. */
    method RemoveProduction(ids: set<int>)
      requires Valid()
      modifies this
      ensures Valid()
      ensures availableProduction == old(availableProduction) + WithIds(old(selectedProduction), LineId, ids)
      ensures selectedProduction == WithoutIds(old(selectedProduction), LineId, ids)
      ensures availableExpenses == old(availableExpenses) && selectedExpenses == old(selectedExpenses)
    {
      var moved := WithIds(selectedProduction, LineId, ids);
      var kept := WithoutIds(selectedProduction, LineId, ids);
      MoveKeepsPool(selectedProduction, availableProduction, LineId, ids);
      MultisetSwap(availableProduction, selectedProduction);
      MultisetSwap(availableProduction + moved, kept);
      availableProduction := availableProduction + moved;
      selectedProduction := kept;
    }

    /** ">> Añadir Gasto". */
    method AddExpenses(ids: set<int>)
      requires Valid()
      modifies this
      ensures Valid()
      ensures selectedExpenses == old(selectedExpenses) + WithIds(old(availableExpenses), ExpenseId, ids)
      ensures availableExpenses == WithoutIds(old(availableExpenses), ExpenseId, ids)
      ensures availableProduction == old(availableProduction) && selectedProduction == old(selectedProduction)
    {
      var moved := WithIds(availableExpenses, ExpenseId, ids);
      var kept := WithoutIds(availableExpenses, ExpenseId, ids);
      MoveKeepsPool(availableExpenses, selectedExpenses, ExpenseId, ids);
      selectedExpenses := selectedExpenses + moved;
      availableExpenses := kept;
    }

    /** "<< Quitar Gasto". */
    method RemoveExpenses(ids: set<int>)
      requires Valid()
      modifies this
      ensures Valid()
      ensures availableExpenses == old(availableExpenses) + WithIds(old(selectedExpenses), ExpenseId, ids)
      ensures selectedExpenses == WithoutIds(old(selectedExpenses), ExpenseId, ids)
      ensures availableProduction == old(availableProduction) && selectedProduction == old(selectedProduction)
    {
      var moved := WithIds(selectedExpenses, ExpenseId, ids);
      var kept := WithoutIds(selectedExpenses, ExpenseId, ids);
      MoveKeepsPool(selectedExpenses, availableExpenses, ExpenseId, ids);
      MultisetSwap(availableExpenses, selectedExpenses);
      MultisetSwap(availableExpenses + moved, kept);
      availableExpenses := availableExpenses + moved;
      selectedExpenses := kept;
    }

    /** The totals shown under the lists (`tp`, `tg`, `neto`), over the selected rows. */
    function CurrentTotals(): (t: Totals)
      reads this
      requires Valid()
      ensures t.production + ComputeTotals(availableProduction, []).production == ComputeTotals(productionPool, []).production
      ensures t.expenses + ComputeTotals([], availableExpenses).expenses == ComputeTotals([], expensePool).expenses
      ensures t.net == t.production - t.expenses
    {
      SplitKeepsTotals(productionPool, availableProduction, selectedProduction,
                       expensePool, availableExpenses, selectedExpenses);
      ComputeTotals(selectedProduction, selectedExpenses)
    }
  }

  lemma MultisetSwap<R>(a: seq<R>, b: seq<R>)
    ensures multiset(a + b) == multiset(b + a)
  {
  }

  /** Moving the rows with picked ids from `source` to the end of `target`
      keeps the rows of both lists together, and keeps their ids apart. */
  lemma MoveKeepsPool<R(!new)>(source: seq<R>, target: seq<R>, key: R -> int, ids: set<int>)
    ensures multiset(WithoutIds(source, key, ids) + (target + WithIds(source, key, ids))) == multiset(source + target)
    ensures Keys(source, key) !! Keys(target, key) ==>
      Keys(WithoutIds(source, key, ids), key) !! Keys(target + WithIds(source, key, ids), key)
  {
    PartitionPreservesRows(source, key, ids);
    KeysWithIds(source, key, ids);
    KeysWithoutIds(source, key, ids);
    KeysAppend(target, WithIds(source, key, ids), key);
  }
}
