/** The query object.  It keeps the current input row, the output row being
    built and the condition text as fields, as the reading of a query
    updates them item by item; every method is proved to do what the
    functions of module Evaluation say. */
module Engine {
  import opened Values
  import opened Syntax
  import opened Conditions
  import opened Evaluation
  import opened QueryRun

  class Sql4Csv {
    /** Casters by field name, fixed when the object is made. */
    const fieldTypes: map<string, Caster>
    /** The host's order between a string and a number. */
    const mixedLess: (Value, Value) -> bool
    /** The functions of the query being run. */
    var funs: seq<UserFunction>
    var rowIn: Row
    var rowOut: Row
    var conditions: seq<Atom>

    function EnvOf(): Env
      reads this
    {
      Env(fieldTypes, funs, mixedLess)
    }

    constructor (fieldTypes: map<string, Caster>, mixedLess: (Value, Value) -> bool)
      ensures this.fieldTypes == fieldTypes && this.mixedLess == mixedLess
      ensures funs == [] && rowIn == map[] && rowOut == map[] && conditions == []
    {
      this.fieldTypes := fieldTypes;
      this.mixedLess := mixedLess;
      funs := [];
      rowIn := map[];
      rowOut := map[];
      conditions := [];
    }

    /** A connective appends its keyword to the condition text. */
    method ParseAndOr(c: Connective)
      modifies this`conditions
      ensures conditions == old(conditions) + [Conn(c)]
    {
      conditions := conditions + [Conn(c)];
    }

    /** A comparison appends its truth to the condition text. */
    method ParseCondition(left: Value, op: CompareOp, right: Value)
      modifies this`conditions
      ensures conditions == old(conditions) + [Bool(Compare(op, left, right, mixedLess))]
    {
      var b := Compare(op, left, right, mixedLess);
      conditions := conditions + [Bool(b)];
    }

    /** `*`: copies the input row into the output row, entry by entry. */
    method ParseStar()
      modifies this`rowOut
      ensures rowOut == StarRow(rowIn, old(rowOut))
    {
      var keys := rowIn.Keys;
      while keys != {}
        invariant keys <= rowIn.Keys
        invariant rowOut.Keys == old(rowOut).Keys + (rowIn.Keys - keys)
        invariant forall k :: k in rowIn && k !in keys ==> rowOut[k] == rowIn[k]
        invariant forall k :: k in old(rowOut) && (k !in rowIn || k in keys) ==> rowOut[k] == old(rowOut)[k]
        decreases keys
      {
        var key :| key in keys;
        rowOut := rowOut[key := rowIn[key]];
        keys := keys - {key};
      }
    }

    /** A field reference, `$name` or `$name as $alias`, at the top level
        (`insideFunction` false) or inside a function argument or a where
        operand.  The branches follow the input row first, then the output
        row, and cast by the caster of `name`. */
    method ParseFieldAs(name: string, alias: Option<string>, insideFunction: bool) returns (r: Result<Value>)
      modifies this`rowOut
      ensures WithRow(r, rowOut) == ResolveField(EnvOf(), rowIn, old(rowOut), name, alias, insideFunction)
      ensures r.Err? ==> rowOut == old(rowOut)
    {
      if alias.None? {
        if name in rowIn {
          if insideFunction {
            if name in fieldTypes {
              return Ok(fieldTypes[name](rowIn[name]));
            } else {
              return Ok(rowIn[name]);
            }
          } else {
            rowOut := rowOut[name := rowIn[name]];
            if name in fieldTypes {
              rowOut := rowOut[name := fieldTypes[name](rowOut[name])];
            }
            assert rowOut == old(rowOut)[name := Cast(EnvOf(), name, rowIn[name])];
            return Ok(rowOut[name]);
          }
        } else if name in rowOut {
          if insideFunction {
            if name in fieldTypes {
              return Ok(fieldTypes[name](rowOut[name]));
            } else {
              return Ok(rowOut[name]);
            }
          } else {
            if name in fieldTypes {
              rowOut := rowOut[name := fieldTypes[name](rowOut[name])];
            }
            assert rowOut == old(rowOut)[name := Cast(EnvOf(), name, old(rowOut)[name])];
            return Ok(rowOut[name]);
          }
        } else {
          return Err(FieldNotFound(name));
        }
      } else {
        var newKey := alias.value;
        if name in rowIn {
          rowOut := rowOut[newKey := rowIn[name]];
          if name in fieldTypes {
            rowOut := rowOut[newKey := fieldTypes[name](rowOut[newKey])];
          }
          assert rowOut == old(rowOut)[newKey := Cast(EnvOf(), name, rowIn[name])];
          return Ok(rowOut[newKey]);
        } else if name in rowOut {
          rowOut := rowOut[newKey := rowOut[name]];
          if name in fieldTypes {
            rowOut := rowOut[newKey := fieldTypes[name](rowOut[newKey])];
          }
          assert rowOut == old(rowOut)[newKey := Cast(EnvOf(), name, old(rowOut)[name])];
          return Ok(rowOut[newKey]);
        } else {
          return Err(FieldNotFound(name));
        }
      }
    }

    /** A call with its arguments already evaluated. */
    method ParseFunction(index: nat, params: seq<Value>, alias: Option<string>) returns (r: Result<Value>)
      modifies this`rowOut
      ensures WithRow(r, rowOut) == ApplyFunction(EnvOf(), old(rowOut), index, params, alias)
      ensures r.Err? || alias.None? ==> rowOut == old(rowOut)
    {
      if index >= |funs| {
        return Err(FunctionIndexOutOfRange(index, |funs|));
      }
      var fun := funs[index];
      if alias.Some? {
        var key := alias.value;
        rowOut := rowOut[key := fun(params)];
        return Ok(rowOut[key]);
      } else {
        return Ok(fun(params));
      }
    }

    /** A function argument: its own arguments first, then itself. */
    method EvalArg(e: Arg) returns (r: Result<Value>)
      modifies this`rowOut
      ensures WithRow(r, rowOut) == Evaluation.EvalArg(EnvOf(), rowIn, old(rowOut), e)
      decreases e, 1
    {
      match e
      case ALit(v) =>
        r := Ok(v);
      case AField(name, alias) =>
        r := ParseFieldAs(name, alias, true);
      case ACall(index, args, alias) =>
        var params := EvalArgs(args);
        if params.Err? {
          return Err(params.error);
        }
        r := ParseFunction(index, params.value, alias);
    }

    /** The arguments of a call, left to right. */
    method EvalArgs(args: seq<Arg>) returns (r: Result<seq<Value>>)
      modifies this`rowOut
      ensures WithRows(r, rowOut) == Evaluation.EvalArgs(EnvOf(), rowIn, old(rowOut), args)
      decreases args, 0
    {
      var params: seq<Value> := [];
      var i := 0;
      ArgsFrom(EnvOf(), rowIn, rowOut, args);
      while i < |args|
        invariant 0 <= i <= |args|
        invariant Evaluation.EvalArgs(EnvOf(), rowIn, old(rowOut), args)
               == PrependValues(params, Evaluation.EvalArgs(EnvOf(), rowIn, rowOut, args[i..]))
      {
        ArgsStep(EnvOf(), rowIn, rowOut, args, i, params);
        var v := EvalArg(args[i]);
        if v.Err? {
          return Err(v.error);
        }
        params := params + [v.value];
        i := i + 1;
      }
      ArgsDone(EnvOf(), rowIn, rowOut, args, params);
      return Ok(params);
    }

    /** A where operand; the output row is left as it was. */
    method EvalOperand(o: Operand) returns (r: Result<Value>)
      modifies this`rowOut
      ensures rowOut == old(rowOut)
      ensures r == Evaluation.EvalOperand(EnvOf(), rowIn, rowOut, o)
      decreases o, 1
    {
      match o
      case OLit(v) =>
        r := Ok(v);
      case OField(name) =>
        r := ParseFieldAs(name, None, true);
      case OCall(index, args) =>
        var params := EvalOperands(args);
        if params.Err? {
          return Err(params.error);
        }
        r := ParseFunction(index, params.value, None);
    }

    method EvalOperands(os: seq<Operand>) returns (r: Result<seq<Value>>)
      modifies this`rowOut
      ensures rowOut == old(rowOut)
      ensures r == Evaluation.EvalOperands(EnvOf(), rowIn, rowOut, os)
      decreases os, 0
    {
      var params: seq<Value> := [];
      var i := 0;
      OperandsFrom(EnvOf(), rowIn, rowOut, os);
      while i < |os|
        invariant 0 <= i <= |os|
        invariant rowOut == old(rowOut)
        invariant Evaluation.EvalOperands(EnvOf(), rowIn, rowOut, os)
               == PrependOperands(params, Evaluation.EvalOperands(EnvOf(), rowIn, rowOut, os[i..]))
      {
        OperandsStep(EnvOf(), rowIn, rowOut, os, i, params);
        var v := EvalOperand(os[i]);
        if v.Err? {
          return Err(v.error);
        }
        params := params + [v.value];
        i := i + 1;
      }
      OperandsDone(EnvOf(), rowIn, rowOut, os, params);
      return Ok(params);
    }

    /** The where clause: appends its condition text, writes nothing to the
        output row. */
    method EvalWhere(w: Where) returns (r: Result<()>)
      modifies this`rowOut, this`conditions
      ensures rowOut == old(rowOut)
      ensures r.Err? ==> WhereAtoms(EnvOf(), rowIn, rowOut, w) == Err(r.error)
      ensures r.Ok? ==> WhereAtoms(EnvOf(), rowIn, rowOut, w).Ok?
      ensures r.Ok? ==> conditions == old(conditions) + WhereAtoms(EnvOf(), rowIn, rowOut, w).value
    {
      match w
      case Condition(left, op, right) =>
        var a := EvalOperand(left);
        if a.Err? {
          return Err(a.error);
        }
        var b := EvalOperand(right);
        if b.Err? {
          return Err(b.error);
        }
        ParseCondition(a.value, op, b.value);
        r := Ok(());
      case Paren(inner) =>
        r := EvalWhere(inner);
      case Connect(head, conn, rest) =>
        r := EvalWhere(head);
        if r.Err? {
          return;
        }
        ParseAndOr(conn);
        r := EvalWhere(rest);
        if r.Ok? {
          var x := WhereAtoms(EnvOf(), rowIn, rowOut, head).value;
          var y := WhereAtoms(EnvOf(), rowIn, rowOut, rest).value;
          assert conditions == old(conditions) + (x + [Conn(conn)] + y);
        }
    }

    /** One select item. */
    method EvalItem(item: SelectItem) returns (r: Result<()>)
      modifies this`rowOut
      ensures r.Err? ==> Evaluation.EvalItem(EnvOf(), rowIn, old(rowOut), item) == Err(r.error)
      ensures r.Ok? ==> Evaluation.EvalItem(EnvOf(), rowIn, old(rowOut), item) == Ok(rowOut)
    {
      match item
      case Star =>
        ParseStar();
        r := Ok(());
      case Field(name, alias) =>
        var v := ParseFieldAs(name, alias, false);
        r := if v.Ok? then Ok(()) else Err(v.error);
      case Call(index, args, alias) =>
        var v := EvalArg(ACall(index, args, alias));
        r := if v.Ok? then Ok(()) else Err(v.error);
    }

    /** The select list, left to right. */
    method EvalItems(items: seq<SelectItem>) returns (r: Result<()>)
      modifies this`rowOut
      ensures r.Err? ==> Evaluation.EvalItems(EnvOf(), rowIn, old(rowOut), items) == Err(r.error)
      ensures r.Ok? ==> Evaluation.EvalItems(EnvOf(), rowIn, old(rowOut), items) == Ok(rowOut)
    {
      var i := 0;
      while i < |items|
        invariant 0 <= i <= |items|
        invariant Evaluation.EvalItems(EnvOf(), rowIn, old(rowOut), items)
               == Evaluation.EvalItems(EnvOf(), rowIn, rowOut, items[i..])
      {
        assert items[i..][0] == items[i] && items[i..][1..] == items[i + 1..];
        r := EvalItem(items[i]);
        if r.Err? {
          return;
        }
        i := i + 1;
      }
      assert items[|items|..] == [];
      r := Ok(());
    }

    /** One input row: the output row and the condition text start empty,
        the query is read, and the output row is kept when it is non-empty
        and the condition text is empty or true. */
    method ProcessRow(q: Query, row: Row) returns (r: Result<Option<Row>>)
      modifies this`rowIn, this`rowOut, this`conditions
      ensures r == RowStep(EnvOf(), q, row)
      ensures rowIn == row
      ensures r.Ok? ==> Evaluation.EvalItems(EnvOf(), row, map[], q.items) == Ok(rowOut)
      ensures r.Ok? ==> QueryAtoms(EnvOf(), row, rowOut, q) == Ok(conditions)
      ensures r.Ok? && r.value.Some? ==> rowOut == r.value.value
    {
      rowIn := row;
      rowOut := map[];
      conditions := [];
      var items := EvalItems(q.items);
      if items.Err? {
        return Err(items.error);
      }
      if q.where.Some? {
        var w := EvalWhere(q.where.value);
        if w.Err? {
          return Err(w.error);
        }
      }
      if q.where.Some? {
        assert [] + WhereAtoms(EnvOf(), rowIn, rowOut, q.where.value).value
          == WhereAtoms(EnvOf(), rowIn, rowOut, q.where.value).value;
      }
      assert QueryAtoms(EnvOf(), rowIn, rowOut, q) == Ok(conditions);
      if rowOut == map[] {
        r := Ok(None);
      } else if conditions == [] {
        r := Ok(Some(rowOut));
      } else {
        var truth := Truth(conditions);
        if truth.None? {
          r := Err(MalformedConditions);
        } else {
          r := Ok(if truth.value then Some(rowOut) else None);
        }
      }
    }

    /** The eager query: every row in order, the kept ones collected. */
    method Query(q: Query, rows: seq<Row>, funs: seq<UserFunction>) returns (r: Result<seq<Row>>)
      modifies this`funs, this`rowIn, this`rowOut, this`conditions
      ensures r == QueryResult(Env(fieldTypes, funs, mixedLess), q, rows)
      ensures this.funs == funs
    {
      this.funs := funs;
      var output: seq<Row> := [];
      var i := 0;
      while i < |rows|
        invariant 0 <= i <= |rows|
        invariant this.funs == funs
        invariant QueryResult(EnvOf(), q, rows[..i]) == Ok(output)
      {
        QueryStep(EnvOf(), q, rows, i, output);
        var step := ProcessRow(q, rows[i]);
        if step.Err? {
          return Err(step.error);
        }
        output := output + Emit(step.value);
        i := i + 1;
      }
      assert rows[..|rows|] == rows;
      r := Ok(output);
    }
  }

  function PrependValues(vs: seq<Value>, r: Result<Steps>): Result<Steps> {
    match r
    case Err(err) => Err(err)
    case Ok(s) => Ok(Steps(vs + s.values, s.rowOut))
  }

  function PrependOperands(vs: seq<Value>, r: Result<seq<Value>>): Result<seq<Value>> {
    match r
    case Err(err) => Err(err)
    case Ok(s) => Ok(vs + s)
  }

  /** The argument list read from its first argument. */
  lemma ArgsFrom(env: Env, rowIn: Row, rowOut: Row, args: seq<Arg>)
    ensures Evaluation.EvalArgs(env, rowIn, rowOut, args)
         == PrependValues([], Evaluation.EvalArgs(env, rowIn, rowOut, args[0..]))
  {
    assert args[0..] == args;
    var r := Evaluation.EvalArgs(env, rowIn, rowOut, args);
    if r.Ok? {
      assert [] + r.value.values == r.value.values;
    }
  }

  /** One argument further along the list: a failing argument fails the
      list; otherwise its value joins those before it. */
  lemma ArgsStep(env: Env, rowIn: Row, rowOut: Row, args: seq<Arg>, i: nat, params: seq<Value>)
    requires i < |args|
    ensures Evaluation.EvalArg(env, rowIn, rowOut, args[i]).Err? ==>
      PrependValues(params, Evaluation.EvalArgs(env, rowIn, rowOut, args[i..]))
        == Err(Evaluation.EvalArg(env, rowIn, rowOut, args[i]).error)
    ensures Evaluation.EvalArg(env, rowIn, rowOut, args[i]).Ok? ==>
      var s := Evaluation.EvalArg(env, rowIn, rowOut, args[i]).value;
      PrependValues(params, Evaluation.EvalArgs(env, rowIn, rowOut, args[i..]))
        == PrependValues(params + [s.value], Evaluation.EvalArgs(env, rowIn, s.rowOut, args[i + 1..]))
  {
    assert args[i..][0] == args[i] && args[i..][1..] == args[i + 1..];
    var h := Evaluation.EvalArg(env, rowIn, rowOut, args[i]);
    if h.Ok? {
      var rest := Evaluation.EvalArgs(env, rowIn, h.value.rowOut, args[i + 1..]);
      if rest.Ok? {
        assert params + ([h.value.value] + rest.value.values) == (params + [h.value.value]) + rest.value.values;
      }
    }
  }

  lemma ArgsDone(env: Env, rowIn: Row, rowOut: Row, args: seq<Arg>, params: seq<Value>)
    ensures PrependValues(params, Evaluation.EvalArgs(env, rowIn, rowOut, args[|args|..]))
         == WithRows(Ok(params), rowOut)
  {
    assert args[|args|..] == [];
    assert params + [] == params;
  }

  lemma OperandsFrom(env: Env, rowIn: Row, rowOut: Row, os: seq<Operand>)
    ensures Evaluation.EvalOperands(env, rowIn, rowOut, os)
         == PrependOperands([], Evaluation.EvalOperands(env, rowIn, rowOut, os[0..]))
  {
    assert os[0..] == os;
    var r := Evaluation.EvalOperands(env, rowIn, rowOut, os);
    if r.Ok? {
      assert [] + r.value == r.value;
    }
  }

  /** One operand further along the list. */
  lemma OperandsStep(env: Env, rowIn: Row, rowOut: Row, os: seq<Operand>, i: nat, params: seq<Value>)
    requires i < |os|
    ensures Evaluation.EvalOperand(env, rowIn, rowOut, os[i]).Err? ==>
      PrependOperands(params, Evaluation.EvalOperands(env, rowIn, rowOut, os[i..]))
        == Err(Evaluation.EvalOperand(env, rowIn, rowOut, os[i]).error)
    ensures Evaluation.EvalOperand(env, rowIn, rowOut, os[i]).Ok? ==>
      PrependOperands(params, Evaluation.EvalOperands(env, rowIn, rowOut, os[i..]))
        == PrependOperands(params + [Evaluation.EvalOperand(env, rowIn, rowOut, os[i]).value],
                           Evaluation.EvalOperands(env, rowIn, rowOut, os[i + 1..]))
  {
    assert os[i..][0] == os[i] && os[i..][1..] == os[i + 1..];
    var h := Evaluation.EvalOperand(env, rowIn, rowOut, os[i]);
    var rest := Evaluation.EvalOperands(env, rowIn, rowOut, os[i + 1..]);
    if h.Ok? && rest.Ok? {
      assert params + ([h.value] + rest.value) == (params + [h.value]) + rest.value;
    }
  }

  lemma OperandsDone(env: Env, rowIn: Row, rowOut: Row, os: seq<Operand>, params: seq<Value>)
    ensures PrependOperands(params, Evaluation.EvalOperands(env, rowIn, rowOut, os[|os|..])) == Ok(params)
  {
    assert os[|os|..] == [];
    assert params + [] == params;
  }

  /** The lazy query: rows are read one pull at a time, and each pull
      returns the next kept row.  Once the rows are exhausted, or a row has
      failed, every further pull returns nothing. */
  class LazyQuery {
    const engine: Sql4Csv
    const query: Query
    const rows: seq<Row>
    const funs: seq<UserFunction>
    /** Whether the first pull has happened (it installs the functions). */
    var started: bool
    /** Index of the next row to read. */
    var pos: nat
    /** Whether the sequence has ended. */
    var done: bool
    /** The rows returned so far, and whether the end came from a failure. */
    ghost var yielded: seq<Row>
    ghost var failed: bool

    function EnvOf(): Env {
      Env(engine.fieldTypes, funs, engine.mixedLess)
    }

    ghost predicate Valid()
      reads this, engine
    {
      && pos <= |rows|
      && (started ==> engine.funs == funs)
      && (!done ==> QueryResult(EnvOf(), query, rows[..pos]) == Ok(yielded))
      && (done && !failed ==> QueryResult(EnvOf(), query, rows) == Ok(yielded))
      && (done && failed ==> QueryResult(EnvOf(), query, rows).Err?)
    }

    constructor (engine: Sql4Csv, query: Query, rows: seq<Row>, funs: seq<UserFunction>)
      ensures Valid()
      ensures this.engine == engine && this.query == query && this.rows == rows && this.funs == funs
      ensures !started && !done && pos == 0 && yielded == []
    {
      this.engine := engine;
      this.query := query;
      this.rows := rows;
      this.funs := funs;
      started := false;
      pos := 0;
      done := false;
      yielded := [];
      failed := false;
    }

    /** The next kept row (`Ok(Some(row))`), the end of the sequence
        (`Ok(None)`), or the failure of the row being read. */
    method Next() returns (r: Result<Option<Row>>)
      requires Valid()
      modifies this`started, this`pos, this`done, this`yielded, this`failed, engine`funs, engine`rowIn, engine`rowOut, engine`conditions
      ensures Valid()
      ensures old(done) ==> r == Ok(None) && yielded == old(yielded) && done
      ensures r.Ok? && r.value.Some? ==> !done && yielded == old(yielded) + [r.value.value] && pos > old(pos)
      ensures r == Ok(None) ==> done && yielded == old(yielded)
      ensures !old(done) && r == Ok(None) ==> QueryResult(EnvOf(), query, rows) == Ok(yielded)
      ensures r.Err? ==> done && QueryResult(EnvOf(), query, rows) == Err(r.error)
    {
      if done {
        return Ok(None);
      }
      if !started {
        engine.funs := funs;
        started := true;
      }
      while pos < |rows|
        invariant pos <= |rows|
        invariant engine.funs == funs && started && !done
        invariant QueryResult(EnvOf(), query, rows[..pos]) == Ok(yielded)
        invariant yielded == old(yielded) && pos >= old(pos)
        decreases |rows| - pos
      {
        var step := ReadRow();
        if step.Err? {
          done := true;
          failed := true;
          return Err(step.error);
        }
        if step.value.Some? {
          yielded := yielded + [step.value.value];
          return step;
        }
        assert yielded + Emit(step.value) == yielded;
      }
      assert rows[..pos] == rows;
      done := true;
      failed := false;
      return Ok(None);
    }

    /** Reads the row at `pos` and moves past it: a failing row fails the
        whole query, any other extends the result over the rows read by
        that row's output. */
    method ReadRow() returns (step: Result<Option<Row>>)
      requires pos < |rows| && engine.funs == funs
      requires QueryResult(EnvOf(), query, rows[..pos]) == Ok(yielded)
      modifies this`pos, engine`rowIn, engine`rowOut, engine`conditions
      ensures pos == old(pos) + 1 && engine.funs == funs
      ensures step == RowStep(EnvOf(), query, rows[old(pos)])
      ensures step.Err? ==> QueryResult(EnvOf(), query, rows) == Err(step.error)
      ensures step.Ok? ==> QueryResult(EnvOf(), query, rows[..pos]) == Ok(yielded + Emit(step.value))
    {
      QueryStep(EnvOf(), query, rows, pos, yielded);
      step := engine.ProcessRow(query, rows[pos]);
      pos := pos + 1;
    }

    /** Pulls until the end: the rest of the query's result. */
    method Drain() returns (r: Result<seq<Row>>)
      requires Valid() && !done
      modifies this, engine
      ensures Valid() && done
      ensures r.Ok? ==> QueryResult(EnvOf(), query, rows) == Ok(old(yielded) + r.value)
      ensures r.Err? ==> QueryResult(EnvOf(), query, rows) == Err(r.error)
    {
      var out: seq<Row> := [];
      while true
        invariant Valid() && !done
        invariant yielded == old(yielded) + out
        decreases |rows| - pos
      {
        var x := Next();
        if x.Err? {
          return Err(x.error);
        }
        if x.value.None? {
          return Ok(out);
        }
        out := out + [x.value.value];
      }
    }
  }

  /** The lazy query, pulled to its end, returns what the eager one does. */
  method LazyMatchesEager(engine: Sql4Csv, q: Query, rows: seq<Row>, funs: seq<UserFunction>)
    returns (eager: Result<seq<Row>>, lazy: Result<seq<Row>>)
    modifies engine
    ensures eager == lazy
  {
    eager := engine.Query(q, rows, funs);
    var g := new LazyQuery(engine, q, rows, funs);
    lazy := g.Drain();
    if lazy.Ok? {
      assert [] + lazy.value == lazy.value;
    }
  }
}
