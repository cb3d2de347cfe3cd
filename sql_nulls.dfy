/** SQL aggregates over a column that may hold NULL (`None`): `SUM` and `MAX` skip NULL and are
    NULL when no value is left, `COUNT(col)` counts the non-NULL values, `COUNT(*)` counts rows. */
module SqlNulls {
  import opened Wrappers

  /** NULL-skipping addition of two partial sums. */
  function AddOpt(a: Option<int>, b: Option<int>): (r: Option<int>)
    ensures r.None? <==> a.None? && b.None?
    ensures r.GetOr(0) == a.GetOr(0) + b.GetOr(0)
  {
    match (a, b)
    case (None, _) => b
    case (_, None) => a
    case (Some(x), Some(y)) => Some(x + y)
  }

  /** SQL `SUM(col)`. */
  function SumOpt<T>(rows: seq<T>, col: T -> Option<int>): Option<int>
  {
    if rows == [] then None else AddOpt(col(rows[0]), SumOpt(rows[1..], col))
  }

  /** SQL `COUNT(col)`: the rows whose column is not NULL. */
  function CountSome<T>(rows: seq<T>, col: T -> Option<int>): nat
  {
    if rows == [] then 0 else (if col(rows[0]).Some? then 1 else 0) + CountSome(rows[1..], col)
  }

  /** NULL-skipping maximum of two partial maxima. */
  function MaxOpt2(a: Option<int>, b: Option<int>): Option<int>
  {
    match (a, b)
    case (None, _) => b
    case (_, None) => a
    case (Some(x), Some(y)) => Some(if x >= y then x else y)
  }

  /** SQL `MAX(col)`. */
  function MaxOpt<T>(rows: seq<T>, col: T -> Option<int>): Option<int>
  {
    if rows == [] then None else MaxOpt2(col(rows[0]), MaxOpt(rows[1..], col))
  }

  /** A sum where NULL counts as 0: what `IFNULL(SUM(col), 0)` computes. */
  function SumOrZero<T>(rows: seq<T>, col: T -> Option<int>): int
  {
    if rows == [] then 0 else col(rows[0]).GetOr(0) + SumOrZero(rows[1..], col)
  }

  /** `CAST(s AS REAL) / n`, NULL when `s` is NULL. */
  function DivOpt(s: Option<int>, n: nat): Option<real>
    requires n > 0
  {
    match s
    case None => None
    case Some(v) => Some(v as real / n as real)
  }

  // ---------------------------------------------------------------------------------------

  /** `SUM` is NULL exactly when every value is NULL. */
  lemma {:induction false} SumOptNone<T>(rows: seq<T>, col: T -> Option<int>)
    ensures SumOpt(rows, col).None? <==> forall i :: 0 <= i < |rows| ==> col(rows[i]).None?
  {
    if rows != [] {
      SumOptNone(rows[1..], col);
      assert forall i :: 1 <= i < |rows| ==> rows[i] == rows[1..][i - 1];
    }
  }

  /** `IFNULL(SUM(col), 0)` is the sum with NULL read as 0. */
  lemma {:induction false} IfNullSum<T>(rows: seq<T>, col: T -> Option<int>)
    ensures SumOpt(rows, col).GetOr(0) == SumOrZero(rows, col)
  {
    if rows != [] {
      IfNullSum(rows[1..], col);
    }
  }

  /** `IFNULL(CAST(SUM(col) AS REAL) / COUNT(*), 0)` is the NULL-as-0 sum over the row count:
      when every value is NULL both sides are 0. */
  lemma IfNullRate<T>(rows: seq<T>, col: T -> Option<int>)
    requires |rows| > 0
    ensures DivOpt(SumOpt(rows, col), |rows|).GetOr(0.0) == SumOrZero(rows, col) as real / |rows| as real
  {
    IfNullSum(rows, col);
    if SumOpt(rows, col).None? {
      SumOptNone(rows, col);
      SumOrZeroAllNull(rows, col);
    }
  }

  lemma {:induction false} SumOrZeroAllNull<T>(rows: seq<T>, col: T -> Option<int>)
    requires forall i :: 0 <= i < |rows| ==> col(rows[i]).None?
    ensures SumOrZero(rows, col) == 0
  {
    if rows != [] {
      assert forall i :: 0 <= i < |rows[1..]| ==> rows[1..][i] == rows[i + 1];
      SumOrZeroAllNull(rows[1..], col);
    }
  }

  /** `COUNT(col)` never exceeds `COUNT(*)`, and equals it when no value is NULL. */
  lemma {:induction false} CountSomeBound<T>(rows: seq<T>, col: T -> Option<int>)
    ensures CountSome(rows, col) <= |rows|
    ensures (forall i :: 0 <= i < |rows| ==> col(rows[i]).Some?) ==> CountSome(rows, col) == |rows|
  {
    if rows != [] {
      CountSomeBound(rows[1..], col);
      assert forall i :: 1 <= i < |rows| ==> rows[i] == rows[1..][i - 1];
    }
  }

  /** `MAX` is a value of the column, and no value is larger. */
  lemma {:induction false} MaxOptIsMax<T>(rows: seq<T>, col: T -> Option<int>)
    ensures MaxOpt(rows, col).Some? <==> exists i :: 0 <= i < |rows| && col(rows[i]).Some?
    ensures MaxOpt(rows, col).Some? ==>
      && (exists i :: 0 <= i < |rows| && col(rows[i]) == MaxOpt(rows, col))
      && (forall i :: 0 <= i < |rows| && col(rows[i]).Some? ==> col(rows[i]).value <= MaxOpt(rows, col).value)
  {
    if rows != [] {
      MaxOptIsMax(rows[1..], col);
      assert forall i :: 1 <= i < |rows| ==> rows[i] == rows[1..][i - 1];
      var m := MaxOpt(rows[1..], col);
      if m.Some? {
        var i :| 0 <= i < |rows[1..]| && col(rows[1..][i]) == m;
        assert col(rows[i + 1]) == m;
      }
    }
  }

  lemma {:induction false} SumOptConcat<T>(a: seq<T>, b: seq<T>, col: T -> Option<int>)
    ensures SumOpt(a + b, col) == AddOpt(SumOpt(a, col), SumOpt(b, col))
  {
    if a == [] {
      assert a + b == b;
    } else {
      assert (a + b)[1..] == a[1..] + b;
      SumOptConcat(a[1..], b, col);
    }
  }

  lemma {:induction false} CountSomeConcat<T>(a: seq<T>, b: seq<T>, col: T -> Option<int>)
    ensures CountSome(a + b, col) == CountSome(a, col) + CountSome(b, col)
  {
    if a == [] {
      assert a + b == b;
    } else {
      assert (a + b)[1..] == a[1..] + b;
      CountSomeConcat(a[1..], b, col);
    }
  }

  lemma {:induction false} SumOrZeroConcat<T>(a: seq<T>, b: seq<T>, col: T -> Option<int>)
    ensures SumOrZero(a + b, col) == SumOrZero(a, col) + SumOrZero(b, col)
  {
    if a == [] {
      assert a + b == b;
    } else {
      assert (a + b)[1..] == a[1..] + b;
      SumOrZeroConcat(a[1..], b, col);
    }
  }

  /** Every non-NULL value is at most `MAX`. */
  lemma MaxOptUpper<T>(rows: seq<T>, col: T -> Option<int>, x: T)
    requires x in rows && col(x).Some?
    ensures MaxOpt(rows, col).Some? && col(x).value <= MaxOpt(rows, col).value
  {
    MaxOptIsMax(rows, col);
    var i :| 0 <= i < |rows| && rows[i] == x;
  }

  /** A non-NULL `MAX` is the value of some row. */
  lemma MaxOptWitness<T>(rows: seq<T>, col: T -> Option<int>) returns (i: nat)
    requires MaxOpt(rows, col).Some?
    ensures i < |rows| && col(rows[i]) == MaxOpt(rows, col)
  {
    MaxOptIsMax(rows, col);
    i :| 0 <= i < |rows| && col(rows[i]) == MaxOpt(rows, col);
  }
}
