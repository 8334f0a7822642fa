/** Properties of one row's evaluation: which output-row entries each kind
    of expression writes and leaves alone, that where operands behave as
    alias-free arguments, and that the condition text always has a truth
    value. */
module RowFacts {
  import opened Values
  import opened Syntax
  import opened Conditions
  import opened Evaluation

  /** `after` has the keys of `before` plus `names`, and every entry of
      `before` outside `names` is unchanged. */
  predicate Written(before: Row, after: Row, names: set<string>) {
    && after.Keys == before.Keys + names
    && forall k :: k in before && k !in names ==> after[k] == before[k]
  }

  lemma WrittenTrans(a: Row, b: Row, c: Row, n1: set<string>, n2: set<string>)
    requires Written(a, b, n1) && Written(b, c, n2)
    ensures Written(a, c, n1 + n2)
  {
  }

  /** An argument writes its aliases (every one of them) and nothing else. */
  lemma {:induction false} ArgWrites(env: Env, rowIn: Row, rowOut: Row, e: Arg)
    requires EvalArg(env, rowIn, rowOut, e).Ok?
    ensures Written(rowOut, EvalArg(env, rowIn, rowOut, e).value.rowOut, ArgAliases(e))
    decreases e, 1
  {
    match e
    case ALit(_) =>
    case AField(_, _) =>
    case ACall(index, args, alias) =>
      var ps := EvalArgs(env, rowIn, rowOut, args).value;
      ArgsWrites(env, rowIn, rowOut, args);
      var own: set<string> := if alias.Some? then {alias.value} else {};
      WrittenTrans(rowOut, ps.rowOut, EvalArg(env, rowIn, rowOut, e).value.rowOut, ArgsAliases(args), own);
  }

  lemma {:induction false} ArgsWrites(env: Env, rowIn: Row, rowOut: Row, args: seq<Arg>)
    requires EvalArgs(env, rowIn, rowOut, args).Ok?
    ensures Written(rowOut, EvalArgs(env, rowIn, rowOut, args).value.rowOut, ArgsAliases(args))
    decreases args, 0
  {
    if args != [] {
      var s := EvalArg(env, rowIn, rowOut, args[0]).value;
      ArgWrites(env, rowIn, rowOut, args[0]);
      ArgsWrites(env, rowIn, s.rowOut, args[1..]);
      WrittenTrans(rowOut, s.rowOut, EvalArgs(env, rowIn, rowOut, args).value.rowOut,
                   ArgAliases(args[0]), ArgsAliases(args[1..]));
    }
  }

  /** The list `b` after the outcome `first` of an earlier list: `b` starts
      from the output row `first` left, and the values are put together. */
  function ArgsThen(env: Env, rowIn: Row, first: Result<Steps>, b: seq<Arg>): Result<Steps> {
    match first
    case Err(err) => Err(err)
    case Ok(x) =>
      match EvalArgs(env, rowIn, x.rowOut, b)
      case Err(err) => Err(err)
      case Ok(y) => Ok(Steps(x.values + y.values, y.rowOut))
  }

  /** Arguments are evaluated in textual order: a list split in two is its
      first part, then its second part from the output row the first part
      left, with the values concatenated.  The first failure wins. */
  lemma {:induction false} EvalArgsConcat(env: Env, rowIn: Row, rowOut: Row, a: seq<Arg>, b: seq<Arg>)
    ensures EvalArgs(env, rowIn, rowOut, a + b) == ArgsThen(env, rowIn, EvalArgs(env, rowIn, rowOut, a), b)
    decreases a
  {
    if a == [] {
      assert a + b == b;
      if EvalArgs(env, rowIn, rowOut, b).Ok? {
        assert [] + EvalArgs(env, rowIn, rowOut, b).value.values == EvalArgs(env, rowIn, rowOut, b).value.values;
      }
    } else {
      assert (a + b)[0] == a[0] && (a + b)[1..] == a[1..] + b;
      match EvalArg(env, rowIn, rowOut, a[0])
      case Err(_) =>
      case Ok(s) =>
        EvalArgsConcat(env, rowIn, s.rowOut, a[1..], b);
        var first := EvalArgs(env, rowIn, s.rowOut, a[1..]);
        if first.Ok? {
          var second := EvalArgs(env, rowIn, first.value.rowOut, b);
          if second.Ok? {
            assert [s.value] + (first.value.values + second.value.values)
                == ([s.value] + first.value.values) + second.value.values;
          }
        }
    }
  }

  /** Argument `i` is evaluated against the output row its predecessors
      left, and gives the `i`-th value. */
  lemma EachArgSeesEarlier(env: Env, rowIn: Row, rowOut: Row, args: seq<Arg>, i: nat)
    requires i < |args| && EvalArgs(env, rowIn, rowOut, args).Ok?
    ensures EvalArgs(env, rowIn, rowOut, args[..i]).Ok?
    ensures EvalArg(env, rowIn, EvalArgs(env, rowIn, rowOut, args[..i]).value.rowOut, args[i]).Ok?
    ensures EvalArg(env, rowIn, EvalArgs(env, rowIn, rowOut, args[..i]).value.rowOut, args[i]).value.value
         == EvalArgs(env, rowIn, rowOut, args).value.values[i]
  {
    assert args == args[..i] + args[i..];
    EvalArgsConcat(env, rowIn, rowOut, args[..i], args[i..]);
    var x := EvalArgs(env, rowIn, rowOut, args[..i]).value;
    assert args[i..][0] == args[i];
  }

  /** In `#f($a as $b, $b)` with `b` not an input field, the second
      argument reads what the first one wrote. */
  lemma AliasReadByNextArg(env: Env, rowIn: Row, rowOut: Row, a: string, b: string)
    requires a in rowIn && b !in rowIn
    ensures EvalArgs(env, rowIn, rowOut, [AField(a, Some(b)), AField(b, None)])
         == Ok(Steps([Cast(env, a, rowIn[a]), Cast(env, b, Cast(env, a, rowIn[a]))],
                     rowOut[b := Cast(env, a, rowIn[a])]))
  {
    var v := Cast(env, a, rowIn[a]);
    var o1 := rowOut[b := v];
    var args := [AField(a, Some(b)), AField(b, None)];
    assert EvalArg(env, rowIn, rowOut, args[0]) == Ok(Step(v, o1));
    assert args[1..] == [AField(b, None)] && args[1..][1..] == [];
    assert EvalArg(env, rowIn, o1, args[1..][0]) == Ok(Step(Cast(env, b, v), o1));
    assert EvalArgs(env, rowIn, o1, args[1..][1..]) == Ok(Steps([], o1));
    assert [Cast(env, b, v)] + [] == [Cast(env, b, v)];
    assert EvalArgs(env, rowIn, o1, args[1..]) == Ok(Steps([Cast(env, b, v)], o1));
    assert [v] + [Cast(env, b, v)] == [v, Cast(env, b, v)];
  }

  /** A call or field reference without any alias in it leaves the output
      row as it was. */
  lemma ArgWithoutAliasesKeepsRow(env: Env, rowIn: Row, rowOut: Row, e: Arg)
    requires EvalArg(env, rowIn, rowOut, e).Ok?
    requires ArgAliases(e) == {}
    ensures EvalArg(env, rowIn, rowOut, e).value.rowOut == rowOut
  {
    ArgWrites(env, rowIn, rowOut, e);
  }

  /** Without aliases, every argument of a list is evaluated against the
      same output row, so the values do not depend on the order. */
  lemma {:induction false} ArgsWithoutAliases(env: Env, rowIn: Row, rowOut: Row, args: seq<Arg>)
    requires EvalArgs(env, rowIn, rowOut, args).Ok?
    requires ArgsAliases(args) == {}
    ensures EvalArgs(env, rowIn, rowOut, args).value.rowOut == rowOut
    ensures forall k :: 0 <= k < |args| ==>
      EvalArg(env, rowIn, rowOut, args[k]) == Ok(Step(EvalArgs(env, rowIn, rowOut, args).value.values[k], rowOut))
    decreases args
  {
    ArgsWrites(env, rowIn, rowOut, args);
    if args != [] {
      var r := EvalArgs(env, rowIn, rowOut, args).value;
      ArgWithoutAliasesKeepsRow(env, rowIn, rowOut, args[0]);
      ArgsWithoutAliases(env, rowIn, rowOut, args[1..]);
      forall k | 0 <= k < |args|
        ensures EvalArg(env, rowIn, rowOut, args[k]) == Ok(Step(r.values[k], rowOut))
      {
        if k > 0 { assert args[k] == args[1..][k - 1]; }
      }
    }
  }

  /** A where operand resolves exactly as the same expression used as a
      function argument without aliases, and writes nothing. */
  lemma {:induction false} OperandAgrees(env: Env, rowIn: Row, rowOut: Row, o: Operand)
    ensures EvalArg(env, rowIn, rowOut, OperandAsArg(o)) == WithRow(EvalOperand(env, rowIn, rowOut, o), rowOut)
    decreases o, 1
  {
    match o
    case OLit(_) =>
    case OField(_) =>
    case OCall(index, args) =>
      OperandsAgree(env, rowIn, rowOut, args);
  }

  lemma {:induction false} OperandsAgree(env: Env, rowIn: Row, rowOut: Row, os: seq<Operand>)
    ensures EvalArgs(env, rowIn, rowOut, OperandsAsArgs(os)) == WithRows(EvalOperands(env, rowIn, rowOut, os), rowOut)
    decreases os, 0
  {
    if os != [] {
      var args := OperandsAsArgs(os);
      assert args[0] == OperandAsArg(os[0]);
      assert args[1..] == OperandsAsArgs(os[1..]);
      OperandAgrees(env, rowIn, rowOut, os[0]);
      OperandsAgree(env, rowIn, rowOut, os[1..]);
    }
  }

  /** The output-row names one select item writes. */
  function ItemWrites(rowIn: Row, item: SelectItem): set<string> {
    match item
    case Star => rowIn.Keys
    case Field(name, alias) => if alias.Some? then {alias.value} else {name}
    case Call(index, args, alias) => ArgAliases(ACall(index, args, alias))
  }

  function ItemsWrite(rowIn: Row, items: seq<SelectItem>): set<string>
    decreases |items|
  {
    if items == [] then {} else ItemWrites(rowIn, items[0]) + ItemsWrite(rowIn, items[1..])
  }

  /** The select list adds exactly the names its items write. */
  lemma {:induction false} ItemsKeys(env: Env, rowIn: Row, rowOut: Row, items: seq<SelectItem>)
    requires EvalItems(env, rowIn, rowOut, items).Ok?
    ensures EvalItems(env, rowIn, rowOut, items).value.Keys == rowOut.Keys + ItemsWrite(rowIn, items)
    decreases |items|
  {
    if items != [] {
      var next := EvalItem(env, rowIn, rowOut, items[0]).value;
      match items[0] {
        case Star =>
        case Field(_, _) =>
        case Call(index, args, alias) =>
          ArgWrites(env, rowIn, rowOut, ACall(index, args, alias));
      }
      ItemsKeys(env, rowIn, next, items[1..]);
    }
  }

  /** An emitted row has exactly the columns the select list names. */
  lemma RowColumns(env: Env, q: Query, rowIn: Row)
    requires RowStep(env, q, rowIn).Ok? && RowStep(env, q, rowIn).value.Some?
    ensures RowStep(env, q, rowIn).value.value.Keys == ItemsWrite(rowIn, q.items)
  {
    ItemsKeys(env, rowIn, map[], q.items);
  }

  /** The condition text never fails to read: a row is never refused
      because of the text's shape. */
  lemma RowStepNeverMalformed(env: Env, q: Query, rowIn: Row)
    ensures RowStep(env, q, rowIn) != Err(MalformedConditions)
  {
    var items := EvalItems(env, rowIn, map[], q.items);
    NoMalformedItems(env, rowIn, map[], q.items);
    if items.Ok? {
      var atoms := QueryAtoms(env, rowIn, items.value, q);
      if atoms.Ok? && atoms.value != [] {
        TruthDefined(atoms.value);
      }
      if q.where.Some? {
        NoMalformedWhere(env, rowIn, items.value, q.where.value);
      }
    }
  }

  lemma {:induction false} NoMalformedArg(env: Env, rowIn: Row, rowOut: Row, e: Arg)
    ensures EvalArg(env, rowIn, rowOut, e) != Err(MalformedConditions)
    decreases e, 1
  {
    match e
    case ALit(_) =>
    case AField(_, _) =>
    case ACall(_, args, _) => NoMalformedArgs(env, rowIn, rowOut, args);
  }

  lemma {:induction false} NoMalformedArgs(env: Env, rowIn: Row, rowOut: Row, args: seq<Arg>)
    ensures EvalArgs(env, rowIn, rowOut, args) != Err(MalformedConditions)
    decreases args, 0
  {
    if args != [] {
      NoMalformedArg(env, rowIn, rowOut, args[0]);
      var s := EvalArg(env, rowIn, rowOut, args[0]);
      if s.Ok? {
        NoMalformedArgs(env, rowIn, s.value.rowOut, args[1..]);
      }
    }
  }

  lemma {:induction false} NoMalformedItems(env: Env, rowIn: Row, rowOut: Row, items: seq<SelectItem>)
    ensures EvalItems(env, rowIn, rowOut, items) != Err(MalformedConditions)
    decreases |items|
  {
    if items != [] {
      match items[0] {
        case Star =>
        case Field(_, _) =>
        case Call(index, args, alias) => NoMalformedArg(env, rowIn, rowOut, ACall(index, args, alias));
      }
      var next := EvalItem(env, rowIn, rowOut, items[0]);
      if next.Ok? {
        NoMalformedItems(env, rowIn, next.value, items[1..]);
      }
    }
  }

  lemma {:induction false} NoMalformedWhere(env: Env, rowIn: Row, rowOut: Row, w: Where)
    ensures WhereAtoms(env, rowIn, rowOut, w) != Err(MalformedConditions)
  {
    match w
    case Condition(left, _, right) =>
      OperandAgrees(env, rowIn, rowOut, left);
      OperandAgrees(env, rowIn, rowOut, right);
      NoMalformedArg(env, rowIn, rowOut, OperandAsArg(left));
      NoMalformedArg(env, rowIn, rowOut, OperandAsArg(right));
    case Paren(inner) => NoMalformedWhere(env, rowIn, rowOut, inner);
    case Connect(head, _, rest) =>
      NoMalformedWhere(env, rowIn, rowOut, head);
      NoMalformedWhere(env, rowIn, rowOut, rest);
  }

  /** Both sides of a connective are always evaluated: a failing right
      side fails the clause whatever the left side's truth. */
  lemma NoShortCircuit(env: Env, rowIn: Row, rowOut: Row, head: Where, conn: Connective, rest: Where)
    requires WhereAtoms(env, rowIn, rowOut, rest).Err?
    ensures WhereAtoms(env, rowIn, rowOut, Connect(head, conn, rest)).Err?
  {
  }

  /** Parentheses add nothing to the condition text, so its truth is that
      of the text with every group dissolved: `(c1 or c2) and c3` reads as
      `c1 or (c2 and c3)`. With c1 true and c2, c3 false the clause holds,
      while the grouping written in the query would make it false. */
  lemma ParenthesesIgnored(env: Env, rowIn: Row, rowOut: Row)
    ensures
      var t := Condition(OLit(Int(1)), Eq, OLit(Int(1)));
      var f := Condition(OLit(Int(1)), Eq, OLit(Int(2)));
      var w := Connect(Paren(Connect(t, OrConn, f)), AndConn, f);
      && WhereAtoms(env, rowIn, rowOut, w) == Ok([Bool(true), Conn(OrConn), Bool(false), Conn(AndConn), Bool(false)])
      && Truth(WhereAtoms(env, rowIn, rowOut, w).value) == Some(true)
  {
    var t := Condition(OLit(Int(1)), Eq, OLit(Int(1)));
    var f := Condition(OLit(Int(1)), Eq, OLit(Int(2)));
    assert WhereAtoms(env, rowIn, rowOut, t) == Ok([Bool(true)]);
    assert WhereAtoms(env, rowIn, rowOut, f) == Ok([Bool(false)]);
    var tf := [Bool(true)] + [Conn(OrConn)] + [Bool(false)];
    assert tf == [Bool(true), Conn(OrConn), Bool(false)];
    assert WhereAtoms(env, rowIn, rowOut, Connect(t, OrConn, f)) == Ok(tf);
    assert tf + [Conn(AndConn)] + [Bool(false)] == [Bool(true), Conn(OrConn), Bool(false), Conn(AndConn), Bool(false)];
    assert WhereAtoms(env, rowIn, rowOut, Paren(Connect(t, OrConn, f))) == Ok([Bool(true), Conn(OrConn), Bool(false)]);
  }
}
