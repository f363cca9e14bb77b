/**
 * Row-level building blocks shared by the payment-statement pages: selecting
 * the rows of a frame whose id column is (or is not) in a chosen set, the set
 * of ids a frame holds, and column sums.
 */
module RowFilters {

  /** The ids that a frame of rows holds in its id column. */
  ghost function Keys<R(!new)>(rows: seq<R>, key: R -> int): set<int>
  {
    set x | x in rows :: key(x)
  }

  /** `frame[frame["id"].isin(ids)]`: the rows whose id is chosen, in frame order. */
  function WithIds<R(!new)>(rows: seq<R>, key: R -> int, ids: set<int>): (r: seq<R>)
    ensures forall x :: x in r <==> x in rows && key(x) in ids
  {
    if rows == [] then []
    else if key(rows[0]) in ids then [rows[0]] + WithIds(rows[1..], key, ids)
    else WithIds(rows[1..], key, ids)
  }

  /** `frame[~frame["id"].isin(ids)]`: the rows whose id is not chosen, in frame order. */
  function WithoutIds<R(!new)>(rows: seq<R>, key: R -> int, ids: set<int>): (r: seq<R>)
    ensures forall x :: x in r <==> x in rows && key(x) !in ids
  {
    if rows == [] then []
    else if key(rows[0]) in ids then WithoutIds(rows[1..], key, ids)
    else [rows[0]] + WithoutIds(rows[1..], key, ids)
  }

  /** The chosen rows hold exactly the chosen ids the frame had. */
  lemma KeysWithIds<R(!new)>(rows: seq<R>, key: R -> int, ids: set<int>)
    ensures Keys(WithIds(rows, key, ids), key) == Keys(rows, key) * ids
  {
    var r := WithIds(rows, key, ids);
    forall k | k in Keys(rows, key) * ids ensures k in Keys(r, key) {
      var x :| x in rows && key(x) == k;
      assert x in r;
    }
  }

  /** The rows left behind hold exactly the frame's ids that were not chosen. */
  lemma KeysWithoutIds<R(!new)>(rows: seq<R>, key: R -> int, ids: set<int>)
    ensures Keys(WithoutIds(rows, key, ids), key) == Keys(rows, key) - ids
  {
    var r := WithoutIds(rows, key, ids);
    forall k | k in Keys(rows, key) - ids ensures k in Keys(r, key) {
      var x :| x in rows && key(x) == k;
      assert x in r;
    }
  }

  /** The ids of two concatenated frames are the ids of each. */
  lemma KeysAppend<R(!new)>(a: seq<R>, b: seq<R>, key: R -> int)
    ensures Keys(a + b, key) == Keys(a, key) + Keys(b, key)
  {
    forall k | k in Keys(a, key) + Keys(b, key) ensures k in Keys(a + b, key) {
      if k in Keys(a, key) {
        var x :| x in a && key(x) == k;
        assert x in a + b;
      } else {
        var x :| x in b && key(x) == k;
        assert x in a + b;
      }
    }
  }

  /** Splitting a frame into its chosen and unchosen rows loses and invents no row. */
  lemma {:induction false} PartitionPreservesRows<R(!new)>(rows: seq<R>, key: R -> int, ids: set<int>)
    ensures multiset(WithIds(rows, key, ids)) + multiset(WithoutIds(rows, key, ids)) == multiset(rows)
  {
    if rows != [] {
      PartitionPreservesRows(rows[1..], key, ids);
      assert rows == [rows[0]] + rows[1..];
    }
  }

  /** An unchosen row is kept exactly as often as the frame holds it; a chosen one never. */
  lemma {:induction false} WithoutIdsCount<R(!new)>(rows: seq<R>, key: R -> int, ids: set<int>, x: R)
    ensures multiset(WithoutIds(rows, key, ids))[x] == if key(x) in ids then 0 else multiset(rows)[x]
  {
    if rows != [] {
      WithoutIdsCount(rows[1..], key, ids, x);
      assert rows == [rows[0]] + rows[1..];
    }
  }

  /** Filtering distributes over concatenation: the rows that stay keep their relative order. */
  lemma {:induction false} WithoutIdsAppend<R(!new)>(a: seq<R>, b: seq<R>, key: R -> int, ids: set<int>)
    ensures WithoutIds(a + b, key, ids) == WithoutIds(a, key, ids) + WithoutIds(b, key, ids)
  {
    if a != [] {
      WithoutIdsAppend(a[1..], b, key, ids);
      assert (a + b)[1..] == a[1..] + b;
    } else {
      assert a + b == b;
    }
  }

  /** Likewise for the chosen rows: they are taken in frame order. */
  lemma {:induction false} WithIdsAppend<R(!new)>(a: seq<R>, b: seq<R>, key: R -> int, ids: set<int>)
    ensures WithIds(a + b, key, ids) == WithIds(a, key, ids) + WithIds(b, key, ids)
  {
    if a != [] {
      WithIdsAppend(a[1..], b, key, ids);
      assert (a + b)[1..] == a[1..] + b;
    } else {
      assert a + b == b;
    }
  }

  /** A frame none of whose ids is chosen is left exactly as it was. */
  lemma {:induction false} WithoutIdsUntouched<R(!new)>(rows: seq<R>, key: R -> int, ids: set<int>)
    requires Keys(rows, key) !! ids
    ensures WithoutIds(rows, key, ids) == rows
  {
    if rows != [] {
      assert rows[0] in rows;
      assert Keys(rows[1..], key) <= Keys(rows, key) by {
        forall k | k in Keys(rows[1..], key) ensures k in Keys(rows, key) {
          var x :| x in rows[1..] && key(x) == k;
          assert x in rows;
        }
      }
      WithoutIdsUntouched(rows[1..], key, ids);
    }
  }

  /** Excluding two id sets one after the other is excluding their union. */
  lemma {:induction false} WithoutIdsUnion<R(!new)>(rows: seq<R>, key: R -> int, a: set<int>, b: set<int>)
    ensures WithoutIds(rows, key, a + b) == WithoutIds(WithoutIds(rows, key, a), key, b)
  {
    if rows != [] {
      WithoutIdsUnion(rows[1..], key, a, b);
    }
  }

  /** `frame[column].sum()`: the sum of `f` over the rows, 0 for an empty frame. */
  function Sum<R>(rows: seq<R>, f: R -> real): real
  {
    if rows == [] then 0.0 else f(rows[0]) + Sum(rows[1..], f)
  }

  /** Column sums are additive over concatenated frames. */
  lemma {:induction false} SumAppend<R>(a: seq<R>, b: seq<R>, f: R -> real)
    ensures Sum(a + b, f) == Sum(a, f) + Sum(b, f)
  {
    if a == [] {
      assert a + b == b;
    } else {
      SumAppend(a[1..], b, f);
      assert (a + b)[1..] == a[1..] + b;
    }
  }

  /** A column sum does not depend on the order of the rows. */
  lemma {:induction false} SumPermutation<R>(a: seq<R>, b: seq<R>, f: R -> real)
    requires multiset(a) == multiset(b)
    ensures Sum(a, f) == Sum(b, f)
    decreases |a|
  {
    if a == [] {
      assert |b| == |multiset(b)| == 0;
    } else {
      var x := a[0];
      assert x in multiset(b);
      var i :| 0 <= i < |b| && b[i] == x;
      var rest := b[..i] + b[i + 1..];
      assert b == b[..i] + [x] + b[i + 1..];
      SumAppend(b[..i] + [x], b[i + 1..], f);
      SumAppend(b[..i], [x], f);
      SumAppend(b[..i], b[i + 1..], f);
      assert a == [x] + a[1..];
      assert multiset(b) == multiset(b[..i]) + multiset{x} + multiset(b[i + 1..]);
      assert multiset(rest) == multiset(b[..i]) + multiset(b[i + 1..]);
      assert multiset(a) == multiset{x} + multiset(a[1..]);
      assert multiset(a[1..]) == multiset(a) - multiset{x};
      assert multiset(rest) == multiset(b) - multiset{x};
      SumPermutation(a[1..], rest, f);
    }
  }

  /** Two columns that agree on every row have the same sum. */
  lemma {:induction false} SumCongruent<R>(rows: seq<R>, f: R -> real, g: R -> real)
    requires forall x :: x in rows ==> f(x) == g(x)
    ensures Sum(rows, f) == Sum(rows, g)
  {
    if rows != [] {
      assert rows[0] in rows;
      SumCongruent(rows[1..], f, g);
    }
  }
}
