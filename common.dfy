/** Shared vocabulary of the model: nullable values, the exceptions the services
    throw, results of operations that may throw, and the filter/sum/count
    combinators that the repositories' queries are built from. */
module Common {

  /** A Java reference that may be null. */
  datatype Option<+T> = None | Some(value: T)

  /** The exceptions that the core throws or lets through to the controller advice. */
  datatype Exception =
    | ResourceNotFound(message: string)
    | IllegalState(message: string)
    | IllegalArgument(message: string)
    | PaymentAlreadyVerified(message: string)
    | RoleAlreadyExists(message: string)
    | UserAlreadyExists(message: string)
    | InvalidCredentials(message: string)
    | BadCredentials(message: string)
    | Unauthorized(message: string)
    | AccessDenied(message: string)
    | InsufficientPermission(message: string)
    | MethodArgumentNotValid(fieldErrors: seq<FieldError>)
    | DateTimeError(message: string)
    /** A query that promises at most one row found several
        (`IncorrectResultSizeDataAccessException`). */
    | IncorrectResultSize(message: string)

  /** One field error of a failed bean validation. */
  datatype FieldError = FieldError(field: string, defaultMessage: string)

  /** The outcome of an operation that either returns a value or throws. */
  datatype Result<+T> = Ok(value: T) | Err(error: Exception)

  /** The value of a `void` operation that did not throw. */
  datatype Unit = Unit

  /** Money is a BigDecimal of scale 2; the model counts it in cents. */
  type Cents = int

  /** The elements of `xs` that satisfy `p`, in their original order (a stream `filter`
      or a SQL `WHERE`). */
  function Filter<T>(xs: seq<T>, p: T -> bool): (r: seq<T>)
    ensures |r| <= |xs|
    ensures forall i :: 0 <= i < |r| ==> r[i] in xs && p(r[i])
    ensures forall i :: 0 <= i < |xs| && p(xs[i]) ==> xs[i] in r
    decreases |xs|
  {
    if xs == [] then [] else (if p(xs[0]) then [xs[0]] else []) + Filter(xs[1..], p)
  }

  /** The sum of a sequence of amounts (`reduce(BigDecimal.ZERO, BigDecimal::add)`). */
  function Sum(xs: seq<int>): int
    decreases |xs|
  {
    if xs == [] then 0 else xs[0] + Sum(xs[1..])
  }

  /** The amounts of a sequence of records (a stream `map`). */
  function Map<T, U>(xs: seq<T>, f: T -> U): (r: seq<U>)
    ensures |r| == |xs|
    ensures forall i :: 0 <= i < |xs| ==> r[i] == f(xs[i])
  {
    seq(|xs|, i requires 0 <= i < |xs| => f(xs[i]))
  }

  lemma {:induction false} SumAppend(xs: seq<int>, ys: seq<int>)
    ensures Sum(xs + ys) == Sum(xs) + Sum(ys)
    decreases |xs|
  {
    if xs == [] {
      assert xs + ys == ys;
    } else {
      assert (xs + ys)[1..] == xs[1..] + ys;
      SumAppend(xs[1..], ys);
    }
  }

  /** Filtering by a predicate and by its negation splits the sum of any measure. */
  lemma {:induction false} SumPartition<T>(xs: seq<T>, p: T -> bool, q: T -> bool, amount: T -> int)
    requires forall x :: q(x) == !p(x)
    ensures Sum(Map(Filter(xs, p), amount)) + Sum(Map(Filter(xs, q), amount)) == Sum(Map(xs, amount))
    decreases |xs|
  {
    if xs != [] {
      SumPartition(xs[1..], p, q, amount);
      var yes, no := Filter(xs[1..], p), Filter(xs[1..], q);
      MapAppend([xs[0]], xs[1..], amount);
      assert [xs[0]] + xs[1..] == xs;
      SumAppend(Map([xs[0]], amount), Map(xs[1..], amount));
      if p(xs[0]) {
        assert Filter(xs, p) == [xs[0]] + yes && Filter(xs, q) == no;
        MapAppend([xs[0]], yes, amount);
        SumAppend(Map([xs[0]], amount), Map(yes, amount));
      } else {
        assert Filter(xs, q) == [xs[0]] + no && Filter(xs, p) == yes;
        MapAppend([xs[0]], no, amount);
        SumAppend(Map([xs[0]], amount), Map(no, amount));
      }
    }
  }

  /** Filtering by a predicate and by its negation splits the count. */
  lemma {:induction false} CountPartition<T>(xs: seq<T>, p: T -> bool, q: T -> bool)
    requires forall x :: q(x) == !p(x)
    ensures |Filter(xs, p)| + |Filter(xs, q)| == |xs|
    decreases |xs|
  {
    if xs != [] {
      CountPartition(xs[1..], p, q);
      assert Filter(xs, p) == (if p(xs[0]) then [xs[0]] else []) + Filter(xs[1..], p);
      assert Filter(xs, q) == (if q(xs[0]) then [xs[0]] else []) + Filter(xs[1..], q);
    }
  }

  lemma MapAppend<T, U>(xs: seq<T>, ys: seq<T>, f: T -> U)
    ensures Map(xs + ys, f) == Map(xs, f) + Map(ys, f)
  {
  }

  /** Filtering twice is filtering by the conjunction. */
  lemma {:induction false} FilterFilter<T>(xs: seq<T>, p: T -> bool, q: T -> bool, both: T -> bool)
    requires forall x :: both(x) == (p(x) && q(x))
    ensures Filter(Filter(xs, p), q) == Filter(xs, both)
    decreases |xs|
  {
    if xs != [] {
      FilterFilter(xs[1..], p, q, both);
      var head := if p(xs[0]) then [xs[0]] else [];
      assert Filter(xs, p) == head + Filter(xs[1..], p);
      FilterAppend(head, Filter(xs[1..], p), q);
    }
  }

  lemma {:induction false} FilterAppend<T>(xs: seq<T>, ys: seq<T>, p: T -> bool)
    ensures Filter(xs + ys, p) == Filter(xs, p) + Filter(ys, p)
    decreases |xs|
  {
    if xs == [] {
      assert xs + ys == ys;
    } else {
      assert (xs + ys)[1..] == xs[1..] + ys;
      FilterAppend(xs[1..], ys, p);
    }
  }

  /** Filters that agree on every element give the same result. */
  lemma {:induction false} FilterExtensional<T>(xs: seq<T>, p: T -> bool, q: T -> bool)
    requires forall x :: x in xs ==> p(x) == q(x)
    ensures Filter(xs, p) == Filter(xs, q)
    decreases |xs|
  {
    if xs != [] {
      FilterExtensional(xs[1..], p, q);
    }
  }

  /** A filter that accepts everything returns the input. */
  lemma {:induction false} FilterAll<T>(xs: seq<T>, p: T -> bool)
    requires forall x :: x in xs ==> p(x)
    ensures Filter(xs, p) == xs
    decreases |xs|
  {
    if xs != [] {
      FilterAll(xs[1..], p);
    }
  }


  /** SQL's `SUM(amount) ... WHERE p`: NULL (here `None`) when no row qualifies, otherwise
      the total of the qualifying rows. */
  function SqlSum<T>(xs: seq<T>, p: T -> bool, amount: T -> int): (r: Option<int>)
    ensures r.None? <==> forall i :: 0 <= i < |xs| ==> !p(xs[i])
    decreases |xs|
  {
    if xs == [] then None
    else
      var rest := SqlSum(xs[1..], p, amount);
      assert forall i :: 1 <= i < |xs| ==> xs[i] == xs[1..][i - 1];
      if !p(xs[0]) then rest
      else Some(amount(xs[0]) + (if rest.Some? then rest.value else 0))
  }

  /** A NULL sum read as zero. */
  function OrZero(x: Option<int>): int {
    if x.Some? then x.value else 0
  }

  /** Read as zero, the aggregate is the application-side total of the filtered rows. */
  lemma {:induction false} SqlSumOrZero<T>(xs: seq<T>, p: T -> bool, amount: T -> int)
    ensures OrZero(SqlSum(xs, p, amount)) == Sum(Map(Filter(xs, p), amount))
    decreases |xs|
  {
    if xs != [] {
      SqlSumOrZero(xs[1..], p, amount);
      var rest := Filter(xs[1..], p);
      if p(xs[0]) {
        assert Filter(xs, p) == [xs[0]] + rest;
        MapAppend([xs[0]], rest, amount);
        SumAppend(Map([xs[0]], amount), Map(rest, amount));
      } else {
        assert Filter(xs, p) == rest;
      }
    }
  }

  /** The aggregate agrees with filtering the rows and adding up their amounts in the
      application, except that no rows give NULL rather than zero. */
  lemma SqlSumIsSumOfFilter<T>(xs: seq<T>, p: T -> bool, amount: T -> int)
    ensures SqlSum(xs, p, amount) == if Filter(xs, p) == [] then None else Some(Sum(Map(Filter(xs, p), amount)))
  {
    SqlSumOrZero(xs, p, amount);
    var f := Filter(xs, p);
    if f != [] {
      assert f[0] in xs && p(f[0]);
      var k :| 0 <= k < |xs| && xs[k] == f[0];
    }
  }

  /** The aggregate over a non-empty table: the first row's contribution plus the rest. */
  lemma SqlSumCons<T>(xs: seq<T>, p: T -> bool, amount: T -> int)
    requires xs != []
    ensures OrZero(SqlSum(xs, p, amount)) == (if p(xs[0]) then amount(xs[0]) else 0) + OrZero(SqlSum(xs[1..], p, amount))
  {
  }

  /** The bounds of a Java `Integer`. */
  const MaxInt: int := 0x7fff_ffff
  const MinInt: int := -0x8000_0000

  /** `x++` on a Java `Integer`: it wraps to the least value after the greatest. */
  function IncrementInt32(x: int): (r: int)
    requires MinInt <= x <= MaxInt
    ensures MinInt <= r <= MaxInt
    ensures x < MaxInt ==> r == x + 1
    ensures x == MaxInt ==> r == MinInt
  {
    if x == MaxInt then MinInt else x + 1
  }

  /** No value occurs twice in `s`. */
  predicate NoDuplicates<T(==)>(s: seq<T>) {
    forall i, j :: 0 <= i < j < |s| ==> s[i] != s[j]
  }

  /** The distinct values of `xs` (the groups of a `GROUP BY`). */
  function Distinct<T(==)>(xs: seq<T>): (r: seq<T>)
    ensures NoDuplicates(r)
    ensures forall i :: 0 <= i < |r| ==> r[i] in xs
    ensures forall i :: 0 <= i < |xs| ==> xs[i] in r
    decreases |xs|
  {
    if xs == [] then []
    else
      var rest := Distinct(xs[1..]);
      assert forall i :: 1 <= i < |xs| ==> xs[i] == xs[1..][i - 1];
      if xs[0] in rest then rest else [xs[0]] + rest
  }
}
