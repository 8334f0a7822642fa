/** A whole query over a sequence of input rows: each row is evaluated
    from a fresh output row, in order, and the rows it keeps are collected;
    the first row that fails aborts the query. */
module QueryRun {
  import opened Values
  import opened Syntax
  import opened Evaluation

  /** The output of one row: nothing, or the row it keeps. */
  function Emit(kept: Option<Row>): seq<Row> {
    if kept.Some? then [kept.value] else []
  }

  /** The outputs so far, extended by one more row's step. */
  function Then(sofar: Result<seq<Row>>, step: Result<Option<Row>>): Result<seq<Row>> {
    match sofar
    case Err(err) => Err(err)
    case Ok(out) =>
      match step
      case Err(err) => Err(err)
      case Ok(kept) => Ok(out + Emit(kept))
  }

  /** The result of the query over `rows`, read from the first row on. */
  function QueryResult(env: Env, q: Query, rows: seq<Row>): Result<seq<Row>>
    decreases |rows|
  {
    if rows == [] then Ok([])
    else Then(QueryResult(env, q, rows[..|rows| - 1]), RowStep(env, q, rows[|rows| - 1]))
  }

  lemma QueryAppendRow(env: Env, q: Query, rows: seq<Row>, row: Row)
    ensures QueryResult(env, q, rows + [row]) == Then(QueryResult(env, q, rows), RowStep(env, q, row))
  {
  }

  /** Reading row `i` after rows `..i`: a failing row fails the whole
      query with its error; otherwise the result grows by its output. */
  lemma QueryStep(env: Env, q: Query, rows: seq<Row>, i: nat, out: seq<Row>)
    requires i < |rows| && QueryResult(env, q, rows[..i]) == Ok(out)
    ensures RowStep(env, q, rows[i]).Err? ==> QueryResult(env, q, rows) == Err(RowStep(env, q, rows[i]).error)
    ensures RowStep(env, q, rows[i]).Ok? ==>
      QueryResult(env, q, rows[..i + 1]) == Ok(out + Emit(RowStep(env, q, rows[i]).value))
  {
    assert rows[..i + 1] == rows[..i] + [rows[i]];
    QueryAppendRow(env, q, rows[..i], rows[i]);
    if RowStep(env, q, rows[i]).Err? {
      QueryFailurePersists(env, q, rows, i + 1);
    }
  }

  /** Results of two stretches of rows, one after the other; the first
      failure wins. */
  function Concat(a: Result<seq<Row>>, b: Result<seq<Row>>): Result<seq<Row>> {
    match a
    case Err(err) => Err(err)
    case Ok(x) =>
      match b
      case Err(err) => Err(err)
      case Ok(y) => Ok(x + y)
  }

  lemma ThenConcat(a: Result<seq<Row>>, b: Result<seq<Row>>, step: Result<Option<Row>>)
    ensures Then(Concat(a, b), step) == Concat(a, Then(b, step))
  {
    if a.Ok? && b.Ok? && step.Ok? {
      assert (a.value + b.value) + Emit(step.value) == a.value + (b.value + Emit(step.value));
    }
  }

  /** Rows are independent: the query over two stretches of rows is the
      query over each, put together.  Nothing of one row's evaluation is
      carried into the next. */
  lemma {:induction false} QueryConcat(env: Env, q: Query, a: seq<Row>, b: seq<Row>)
    ensures QueryResult(env, q, a + b) == Concat(QueryResult(env, q, a), QueryResult(env, q, b))
    decreases |b|
  {
    if b == [] {
      assert a + b == a;
      if QueryResult(env, q, a).Ok? {
        assert QueryResult(env, q, a).value + [] == QueryResult(env, q, a).value;
      }
    } else {
      var init := b[..|b| - 1];
      var last := b[|b| - 1];
      calc {
        QueryResult(env, q, a + b);
        { assert a + b == (a + init) + [last]; QueryAppendRow(env, q, a + init, last); }
        Then(QueryResult(env, q, a + init), RowStep(env, q, last));
        { QueryConcat(env, q, a, init); }
        Then(Concat(QueryResult(env, q, a), QueryResult(env, q, init)), RowStep(env, q, last));
        { ThenConcat(QueryResult(env, q, a), QueryResult(env, q, init), RowStep(env, q, last)); }
        Concat(QueryResult(env, q, a), Then(QueryResult(env, q, init), RowStep(env, q, last)));
        { assert init + [last] == b; QueryAppendRow(env, q, init, last); }
        Concat(QueryResult(env, q, a), QueryResult(env, q, b));
      }
    }
  }

  /** One row alone gives its own output or its own failure. */
  lemma QuerySingle(env: Env, q: Query, row: Row)
    ensures QueryResult(env, q, [row]) == Then(Ok([]), RowStep(env, q, row))
  {
  }

  /** Row `i` contributes its own output, at its own place between the
      outputs of the rows before and after it. */
  lemma QuerySplitAt(env: Env, q: Query, rows: seq<Row>, i: nat)
    requires i < |rows|
    ensures QueryResult(env, q, rows) ==
      Concat(Concat(QueryResult(env, q, rows[..i]), Then(Ok([]), RowStep(env, q, rows[i]))),
             QueryResult(env, q, rows[i + 1..]))
  {
    assert rows == rows[..i] + [rows[i]] + rows[i + 1..];
    QueryConcat(env, q, rows[..i] + [rows[i]], rows[i + 1..]);
    QueryConcat(env, q, rows[..i], [rows[i]]);
    QuerySingle(env, q, rows[i]);
  }

  /** At most one output per input row, and never an empty one. */
  lemma {:induction false} QueryBounds(env: Env, q: Query, rows: seq<Row>)
    requires QueryResult(env, q, rows).Ok?
    ensures |QueryResult(env, q, rows).value| <= |rows|
    ensures forall j :: 0 <= j < |QueryResult(env, q, rows).value| ==> QueryResult(env, q, rows).value[j] != map[]
    decreases |rows|
  {
    if rows != [] {
      QueryBounds(env, q, rows[..|rows| - 1]);
    }
  }

  /** The query fails exactly when some row fails, and then with the error
      of the first failing row. */
  lemma {:induction false} QueryFails(env: Env, q: Query, rows: seq<Row>)
    ensures QueryResult(env, q, rows).Err? <==> exists i :: 0 <= i < |rows| && RowStep(env, q, rows[i]).Err?
    ensures QueryResult(env, q, rows).Err? ==>
      exists i :: 0 <= i < |rows| && RowStep(env, q, rows[i]) == Err(QueryResult(env, q, rows).error)
        && forall j :: 0 <= j < i ==> RowStep(env, q, rows[j]).Ok?
    decreases |rows|
  {
    if rows != [] {
      var init := rows[..|rows| - 1];
      QueryFails(env, q, init);
      if QueryResult(env, q, init).Err? {
        var i :| 0 <= i < |init| && RowStep(env, q, init[i]) == Err(QueryResult(env, q, init).error)
          && forall j :: 0 <= j < i ==> RowStep(env, q, init[j]).Ok?;
        assert rows[i] == init[i];
        assert forall j :: 0 <= j < i ==> rows[j] == init[j];
      } else {
        assert forall i :: 0 <= i < |init| ==> rows[i] == init[i] && RowStep(env, q, rows[i]).Ok?;
        if RowStep(env, q, rows[|rows| - 1]).Err? {
          assert RowStep(env, q, rows[|rows| - 1]) == Err(QueryResult(env, q, rows).error);
        }
      }
    }
  }

  /** Once a stretch of rows has failed, later rows change nothing. */
  lemma QueryFailurePersists(env: Env, q: Query, rows: seq<Row>, k: nat)
    requires k <= |rows|
    requires QueryResult(env, q, rows[..k]).Err?
    ensures QueryResult(env, q, rows) == QueryResult(env, q, rows[..k])
  {
    assert rows == rows[..k] + rows[k..];
    QueryConcat(env, q, rows[..k], rows[k..]);
  }
}
