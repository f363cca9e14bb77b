/**
 * The production summary page: the `produccion` rows grouped by activity with
 * their quantities summed (`groupby("actividad", as_index=False).sum()`, which
 * sorts the groups by activity), left-merged onto the `actividades` rates by
 * description, and the two amount columns `cantidad * valor_produccion` and
 * `cantidad * valor_venta`. A missing rate is a missing value (NaN in pandas),
 * here `None`.
 */
module ProductionSummary {
  import opened Wrappers
  import opened RowFilters

  /** A row of `produccion` as the page reads it (`actividad, cantidad`). */
  datatype Entry = Entry(activity: string, quantity: real)

  /** A row of `actividades` (`descripcion, valor_produccion, valor_venta`). */
  datatype Rate = Rate(description: string, productionValue: real, saleValue: real)

  /** A row of the grouped frame. */
  datatype Group = Group(activity: string, quantity: real)

  /** A row of the table shown: activity, quantity, production amount, sale amount. */
  datatype SummaryRow = SummaryRow(activity: string, quantity: real,
                                   productionAmount: Option<real>, saleAmount: Option<real>)

  /** What the page ends with: the "no data" notice, the merge's KeyError when the
      rate frame has no columns at all, or the table. */
  datatype Summary = NoProduction | MissingRateColumns | Table(rows: seq<SummaryRow>)

  // ---------------------------------------------------------------------------
  // The order groupby sorts its keys in: Python's string order, code point by code point.

  predicate Below(a: string, b: string)
  {
    if a == [] then b != []
    else b != [] && (a[0] < b[0] || (a[0] == b[0] && Below(a[1..], b[1..])))
  }

  lemma {:induction false} BelowIrreflexive(a: string)
    ensures !Below(a, a)
  {
    if a != [] {
      BelowIrreflexive(a[1..]);
    }
  }

  lemma {:induction false} BelowTransitive(a: string, b: string, c: string)
    requires Below(a, b) && Below(b, c)
    ensures Below(a, c)
  {
    if a != [] && a[0] == b[0] && b[0] == c[0] {
      BelowTransitive(a[1..], b[1..], c[1..]);
    }
  }

  lemma {:induction false} BelowTotal(a: string, b: string)
    requires a != b
    ensures Below(a, b) || Below(b, a)
  {
    if a != [] && b != [] && a[0] == b[0] {
      assert a == [a[0]] + a[1..] && b == [b[0]] + b[1..];
      BelowTotal(a[1..], b[1..]);
    }
  }

  predicate StrictlySorted(keys: seq<string>)
  {
    forall i, j :: 0 <= i < j < |keys| ==> Below(keys[i], keys[j])
  }

  // ---------------------------------------------------------------------------
  // Group-by-sum.

  function Activities(prod: seq<Entry>): set<string>
  {
    set e | e in prod :: e.activity
  }

  /** Sum of the quantities of the entries of one activity. */
  function QuantityOf(prod: seq<Entry>, activity: string): real
  {
    if prod == [] then 0.0
    else (if prod[0].activity == activity then prod[0].quantity else 0.0) + QuantityOf(prod[1..], activity)
  }

  function EntryQuantity(e: Entry): real { e.quantity }

  function GroupQuantity(g: Group): real { g.quantity }

  function RowQuantity(r: SummaryRow): real { r.quantity }

  /** Adds a key to a sorted key list, keeping it sorted and free of repeats. */
  function InsertKey(k: string, keys: seq<string>): (r: seq<string>)
    ensures forall x :: x in r <==> x == k || x in keys
  {
    if keys == [] then [k]
    else if k == keys[0] then keys
    else if Below(k, keys[0]) then [k] + keys
    else [keys[0]] + InsertKey(k, keys[1..])
  }

  lemma {:induction false} InsertKeySorted(k: string, keys: seq<string>)
    requires StrictlySorted(keys)
    ensures StrictlySorted(InsertKey(k, keys))
  {
    if keys == [] {
    } else if k == keys[0] {
    } else if Below(k, keys[0]) {
      var r := [k] + keys;
      forall i, j | 0 <= i < j < |r| ensures Below(r[i], r[j]) {
        if i == 0 && j > 1 {
          BelowTransitive(k, keys[0], keys[j - 1]);
        }
      }
    } else {
      BelowTotal(k, keys[0]);
      InsertKeySorted(k, keys[1..]);
      var rest := InsertKey(k, keys[1..]);
      var r := [keys[0]] + rest;
      forall j | 0 < j < |r| ensures Below(r[0], r[j]) {
        assert r[j] in rest;
        if r[j] != k {
          var m :| 1 <= m < |keys| && keys[m] == r[j];
        }
      }
    }
  }

  /** The distinct activities, in the order groupby emits them. */
  function GroupKeys(prod: seq<Entry>): (keys: seq<string>)
    ensures forall a :: a in keys <==> a in Activities(prod)
  {
    if prod == [] then []
    else
      var rest := GroupKeys(prod[1..]);
      assert Activities(prod) == {prod[0].activity} + Activities(prod[1..]) by {
        assert prod == [prod[0]] + prod[1..];
      }
      InsertKey(prod[0].activity, rest)
  }

  lemma {:induction false} GroupKeysSorted(prod: seq<Entry>)
    ensures StrictlySorted(GroupKeys(prod))
  {
    if prod != [] {
      GroupKeysSorted(prod[1..]);
      InsertKeySorted(prod[0].activity, GroupKeys(prod[1..]));
    }
  }

  function GroupRows(keys: seq<string>, prod: seq<Entry>): (r: seq<Group>)
    ensures |r| == |keys|
    ensures forall i :: 0 <= i < |r| ==> r[i].activity == keys[i] && r[i].quantity == QuantityOf(prod, keys[i])
  {
    if keys == [] then []
    else [Group(keys[0], QuantityOf(prod, keys[0]))] + GroupRows(keys[1..], prod)
  }

  /** `groupby("actividad", as_index=False).sum()` on the `actividad, cantidad` frame. */
  function GroupBy(prod: seq<Entry>): seq<Group>
  {
    GroupRows(GroupKeys(prod), prod)
  }

  /** The grouped frame is sorted by activity, holds each activity of the input in
      exactly one row and no other, and each row's quantity is that activity's total. */
  lemma GroupByMeaning(prod: seq<Entry>)
    ensures forall i, j :: 0 <= i < j < |GroupBy(prod)| ==> Below(GroupBy(prod)[i].activity, GroupBy(prod)[j].activity)
    ensures forall i, j :: 0 <= i < j < |GroupBy(prod)| ==> GroupBy(prod)[i].activity != GroupBy(prod)[j].activity
    ensures forall a :: a in Activities(prod) <==> exists i :: 0 <= i < |GroupBy(prod)| && GroupBy(prod)[i].activity == a
    ensures forall i :: 0 <= i < |GroupBy(prod)| ==> GroupBy(prod)[i].quantity == QuantityOf(prod, GroupBy(prod)[i].activity)
  {
    var keys := GroupKeys(prod);
    var g := GroupBy(prod);
    GroupKeysSorted(prod);
    forall i, j | 0 <= i < j < |g| ensures g[i].activity != g[j].activity {
      BelowIrreflexive(keys[i]);
    }
    forall a ensures a in Activities(prod) <==> exists i :: 0 <= i < |g| && g[i].activity == a {
      if a in Activities(prod) {
        assert a in keys;
        var i :| 0 <= i < |keys| && keys[i] == a;
        assert g[i].activity == a;
      }
    }
  }

  predicate Distinct(keys: seq<string>)
  {
    forall i, j :: 0 <= i < j < |keys| ==> keys[i] != keys[j]
  }

  lemma {:induction false} GroupRowsOfNothing(keys: seq<string>)
    ensures Sum(GroupRows(keys, []), GroupQuantity) == 0.0
  {
    if keys != [] {
      GroupRowsOfNothing(keys[1..]);
    }
  }

  /** Adding an entry in front adds its quantity once, to its own group, if that group is listed. */
  lemma {:induction false} GroupRowsCons(keys: seq<string>, e: Entry, prod: seq<Entry>)
    requires Distinct(keys)
    ensures Sum(GroupRows(keys, [e] + prod), GroupQuantity)
         == Sum(GroupRows(keys, prod), GroupQuantity) + (if e.activity in keys then e.quantity else 0.0)
  {
    if keys != [] {
      assert ([e] + prod)[1..] == prod;
      assert Distinct(keys[1..]) by {
        forall i, j | 0 <= i < j < |keys[1..]| ensures keys[1..][i] != keys[1..][j] {
          assert keys[1..][i] == keys[i + 1] && keys[1..][j] == keys[j + 1];
        }
      }
      assert keys[0] !in keys[1..] by {
        forall m | 0 <= m < |keys[1..]| ensures keys[1..][m] != keys[0] {
          assert keys[1..][m] == keys[m + 1];
        }
      }
      GroupRowsCons(keys[1..], e, prod);
      assert e.activity in keys <==> e.activity == keys[0] || e.activity in keys[1..] by {
        assert keys == [keys[0]] + keys[1..];
      }
    }
  }

  /** Summing per group over a key list that covers every activity, each once, loses no quantity. */
  lemma {:induction false} GroupRowsTotal(keys: seq<string>, prod: seq<Entry>)
    requires Distinct(keys)
    requires Activities(prod) <= set k | k in keys
    ensures Sum(GroupRows(keys, prod), GroupQuantity) == Sum(prod, EntryQuantity)
  {
    if prod == [] {
      GroupRowsOfNothing(keys);
    } else {
      assert prod == [prod[0]] + prod[1..];
      assert prod[0].activity in Activities(prod);
      assert Activities(prod[1..]) <= Activities(prod);
      GroupRowsTotal(keys, prod[1..]);
      GroupRowsCons(keys, prod[0], prod[1..]);
    }
  }

  /** The grouped quantities add up to the total quantity produced. */
  lemma GroupByConserves(prod: seq<Entry>)
    ensures Sum(GroupBy(prod), GroupQuantity) == Sum(prod, EntryQuantity)
  {
    var keys := GroupKeys(prod);
    GroupKeysSorted(prod);
    forall i, j | 0 <= i < j < |keys| ensures keys[i] != keys[j] {
      BelowIrreflexive(keys[i]);
    }
    GroupRowsTotal(keys, prod);
  }

  // ---------------------------------------------------------------------------
  // The left merge and the amount columns.

  predicate HasRate(activity: string, rates: seq<Rate>)
  {
    exists r :: r in rates && r.description == activity
  }

  /** The rates whose description is the activity, in rate-table order. */
  function RatesFor(activity: string, rates: seq<Rate>): (r: seq<Rate>)
    ensures forall x :: x in r <==> x in rates && x.description == activity
  {
    if rates == [] then []
    else (if rates[0].description == activity then [rates[0]] else []) + RatesFor(activity, rates[1..])
  }

  /** An amount column: `cantidad` times a unit value. */
  function Amount(quantity: real, unitValue: real): real
  {
    quantity * unitValue
  }

  /** A grouped row priced at one rate: both amounts are its quantity times the rate's unit values. */
  function Priced(g: Group, r: Rate): SummaryRow
  {
    SummaryRow(g.activity, g.quantity, Some(Amount(g.quantity, r.productionValue)), Some(Amount(g.quantity, r.saleValue)))
  }

  /** The merged rows one grouped row yields: one per matching rate, or one with
      missing amounts when no rate matches. */
  function RowsFor(g: Group, rates: seq<Rate>): seq<SummaryRow>
  {
    var matches := RatesFor(g.activity, rates);
    if matches == [] then [SummaryRow(g.activity, g.quantity, None, None)]
    else seq(|matches|, k requires 0 <= k < |matches| => Priced(g, matches[k]))
  }

  /** `merge(df_act, left_on="actividad", right_on="descripcion", how="left")`
      followed by the two amount columns. */
  function LeftMerge(groups: seq<Group>, rates: seq<Rate>): seq<SummaryRow>
  {
    if groups == [] then [] else RowsFor(groups[0], rates) + LeftMerge(groups[1..], rates)
  }

  /** A merged row of one group: its activity and quantity, and either both amounts
      missing because no rate matches, or both amounts priced at a matching rate. */
  lemma RowsForMeaning(g: Group, rates: seq<Rate>, row: SummaryRow)
    ensures row in RowsFor(g, rates) <==>
      && row.activity == g.activity && row.quantity == g.quantity
      && ((!HasRate(g.activity, rates) && row.productionAmount.None? && row.saleAmount.None?)
          || (exists r :: r in rates && r.description == g.activity && row == Priced(g, r)))
  {
    var matches := RatesFor(g.activity, rates);
    if matches == [] {
      forall r | r in rates ensures r.description != g.activity {
        assert r !in matches;
      }
    } else {
      assert matches[0] in matches;
      var rows := RowsFor(g, rates);
      if row in rows {
        var k :| 0 <= k < |rows| && rows[k] == row;
        assert matches[k] in matches;
      }
      if exists r :: r in rates && r.description == g.activity && row == Priced(g, r) {
        var r :| r in rates && r.description == g.activity && row == Priced(g, r);
        assert r in matches;
        var k :| 0 <= k < |matches| && matches[k] == r;
        assert rows[k] == row;
      }
    }
  }

  /** A grouped row is never lost by the merge, matched or not. */
  lemma RowsForKeepsGroup(g: Group, rates: seq<Rate>)
    ensures |RowsFor(g, rates)| >= 1
    ensures RowsFor(g, rates)[0].activity == g.activity && RowsFor(g, rates)[0].quantity == g.quantity
  {
  }

  lemma {:induction false} LeftMergeMembers(groups: seq<Group>, rates: seq<Rate>, row: SummaryRow)
    ensures row in LeftMerge(groups, rates) <==> exists g :: g in groups && row in RowsFor(g, rates)
  {
    if groups != [] {
      LeftMergeMembers(groups[1..], rates, row);
      assert groups == [groups[0]] + groups[1..];
    }
  }

  /** Every row of the merged table is a grouped row, priced at a matching rate or,
      when there is none, with both amounts missing; and every grouped row is there. */
  lemma LeftMergeMeaning(groups: seq<Group>, rates: seq<Rate>, row: SummaryRow)
    ensures row in LeftMerge(groups, rates) <==>
      exists g :: g in groups && row.activity == g.activity && row.quantity == g.quantity
        && ((!HasRate(g.activity, rates) && row.productionAmount.None? && row.saleAmount.None?)
            || (exists r :: r in rates && r.description == g.activity && row == Priced(g, r)))
  {
    LeftMergeMembers(groups, rates, row);
    forall g ensures row in RowsFor(g, rates) <==>
      && row.activity == g.activity && row.quantity == g.quantity
      && ((!HasRate(g.activity, rates) && row.productionAmount.None? && row.saleAmount.None?)
          || (exists r :: r in rates && r.description == g.activity && row == Priced(g, r)))
    {
      RowsForMeaning(g, rates, row);
    }
  }

  predicate UniqueDescriptions(rates: seq<Rate>)
  {
    forall i, j :: 0 <= i < j < |rates| ==> rates[i].description != rates[j].description
  }

  lemma {:induction false} AtMostOneRate(activity: string, rates: seq<Rate>)
    requires UniqueDescriptions(rates)
    ensures |RatesFor(activity, rates)| <= 1
  {
    if rates != [] {
      assert UniqueDescriptions(rates[1..]) by {
        forall i, j | 0 <= i < j < |rates[1..]| ensures rates[1..][i].description != rates[1..][j].description {
          assert rates[1..][i] == rates[i + 1] && rates[1..][j] == rates[j + 1];
        }
      }
      AtMostOneRate(activity, rates[1..]);
      if rates[0].description == activity {
        var rest := RatesFor(activity, rates[1..]);
        if rest != [] {
          assert rest[0] in rates[1..];
        }
      }
    }
  }

  /** With one rate per description the merge is row for row: the table has the grouped
      frame's rows, in its order, each with its activity and quantity. */
  lemma {:induction false} LeftMergeRowForRow(groups: seq<Group>, rates: seq<Rate>)
    requires UniqueDescriptions(rates)
    ensures |LeftMerge(groups, rates)| == |groups|
    ensures forall i :: 0 <= i < |groups| ==>
      LeftMerge(groups, rates)[i].activity == groups[i].activity && LeftMerge(groups, rates)[i].quantity == groups[i].quantity
  {
    if groups != [] {
      AtMostOneRate(groups[0].activity, rates);
      LeftMergeRowForRow(groups[1..], rates);
      var rest := LeftMerge(groups[1..], rates);
      assert LeftMerge(groups, rates) == RowsFor(groups[0], rates) + rest;
      assert |RowsFor(groups[0], rates)| == 1;
      forall i | 1 <= i < |groups| ensures LeftMerge(groups, rates)[i] == rest[i - 1] {
      }
    }
  }

  // ---------------------------------------------------------------------------
  // The page.

  /** The summary the page computes from the two frames it reads. */
  function Summarize(prod: seq<Entry>, rates: seq<Rate>): (s: Summary)
    ensures s == NoProduction <==> prod == []
    ensures s.Table? ==> |s.rows| >= |Activities(prod)|
  {
    if prod == [] then NoProduction
    else if rates == [] then MissingRateColumns
    else
      var g := GroupBy(prod);
      GroupByMeaning(prod);
      LeftMergeCovers(g, rates);
      KeysCount(GroupKeys(prod), prod);
      Table(LeftMerge(g, rates))
  }

  /** The merge yields at least one row per grouped row. */
  lemma {:induction false} LeftMergeCovers(groups: seq<Group>, rates: seq<Rate>)
    ensures |LeftMerge(groups, rates)| >= |groups|
  {
    if groups != [] {
      LeftMergeCovers(groups[1..], rates);
    }
  }

  /** A key list holding every activity has at least as many entries as there are activities. */
  lemma KeysCount(keys: seq<string>, prod: seq<Entry>)
    requires forall a :: a in keys <==> a in Activities(prod)
    ensures |keys| >= |Activities(prod)|
  {
    var ks := set k | k in keys;
    assert ks == Activities(prod);
    SetOfSeqSize(keys);
  }

  lemma {:induction false} SetOfSeqSize(keys: seq<string>)
    ensures |set k | k in keys| <= |keys|
  {
    if keys != [] {
      SetOfSeqSize(keys[1..]);
      assert (set k | k in keys) == {keys[0]} + (set k | k in keys[1..]) by {
        assert keys == [keys[0]] + keys[1..];
      }
    }
  }

  /** The table of a page with production and rates: every produced activity is shown with
      its total quantity, every row shown is a produced activity with that total, and its
      amounts are its quantity times a matching rate's unit values, or missing when none matches. */
  lemma SummaryTable(prod: seq<Entry>, rates: seq<Rate>, row: SummaryRow)
    requires prod != [] && rates != []
    ensures Summarize(prod, rates).Table?
    ensures row in Summarize(prod, rates).rows ==>
      && row.activity in Activities(prod)
      && row.quantity == QuantityOf(prod, row.activity)
      && (row.productionAmount.None? <==> !HasRate(row.activity, rates))
      && (row.saleAmount.None? <==> !HasRate(row.activity, rates))
      && (row.productionAmount.Some? ==>
            exists r :: r in rates && r.description == row.activity
              && row.productionAmount == Some(Amount(row.quantity, r.productionValue))
              && row.saleAmount == Some(Amount(row.quantity, r.saleValue)))
  {
    var g := GroupBy(prod);
    GroupByMeaning(prod);
    if row in Summarize(prod, rates).rows {
      LeftMergeMeaning(g, rates, row);
      var grp :| grp in g && row.activity == grp.activity && row.quantity == grp.quantity
        && ((!HasRate(grp.activity, rates) && row.productionAmount.None? && row.saleAmount.None?)
            || (exists r :: r in rates && r.description == grp.activity && row == Priced(grp, r)));
      var i :| 0 <= i < |g| && g[i] == grp;
      assert g[i].activity == row.activity;
      if row.productionAmount.Some? {
        var r :| r in rates && r.description == grp.activity && row == Priced(grp, r);
        assert r.description == row.activity;
      }
    }
  }

  /** Every produced activity has a row in the table, carrying its total quantity. */
  lemma SummaryShowsEveryActivity(prod: seq<Entry>, rates: seq<Rate>, a: string)
    requires rates != []
    requires a in Activities(prod)
    ensures Summarize(prod, rates).Table?
    ensures exists row :: row in Summarize(prod, rates).rows && row.activity == a && row.quantity == QuantityOf(prod, a)
  {
    var g := GroupBy(prod);
    GroupByMeaning(prod);
    var i :| 0 <= i < |g| && g[i].activity == a;
    RowsForKeepsGroup(g[i], rates);
    var row := RowsFor(g[i], rates)[0];
    LeftMergeMembers(g, rates, row);
  }

  /** With one rate per description, the table's quantities add up to the total produced. */
  lemma SummaryConservesQuantity(prod: seq<Entry>, rates: seq<Rate>)
    requires prod != [] && rates != []
    requires UniqueDescriptions(rates)
    ensures Summarize(prod, rates).Table?
    ensures Sum(Summarize(prod, rates).rows, RowQuantity) == Sum(prod, EntryQuantity)
  {
    var g := GroupBy(prod);
    LeftMergeRowForRow(g, rates);
    GroupByConserves(prod);
    SumCongruentAcross(LeftMerge(g, rates), g);
  }

  lemma {:induction false} SumCongruentAcross(rows: seq<SummaryRow>, groups: seq<Group>)
    requires |rows| == |groups|
    requires forall i :: 0 <= i < |rows| ==> rows[i].quantity == groups[i].quantity
    ensures Sum(rows, RowQuantity) == Sum(groups, GroupQuantity)
  {
    if rows != [] {
      SumCongruentAcross(rows[1..], groups[1..]);
    }
  }
}
