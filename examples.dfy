/** Worked queries over a three-row table with the columns fname, lname,
    gender, age and fav_num, all read as text.  For each query a lemma
    states the output for any row (or for a row with the given cast
    values), and a `Table` lemma the output of the whole table. */
module Examples {
  import opened Values
  import opened Syntax
  import opened Conditions
  import opened Evaluation
  import opened QueryRun
  import Lexical

  function Person(fname: string, lname: string, gender: string, age: string, favNum: string): Row {
    map["fname" := Str(fname), "lname" := Str(lname), "gender" := Str(gender),
        "age" := Str(age), "fav_num" := Str(favNum)]
  }

  function Cathal(): Row { Person("cathal", "coffey", "male", "21", "3.1415") }
  function Joe(): Row { Person("joe", "smith", "male", "31", "5") }
  function Mary(): Row { Person("mary", "burne", "female", "21", "2.7182") }

  function Table(): seq<Row> { [Cathal(), Joe(), Mary()] }

  /** A string is never ordered against a number in these queries. */
  function NoMixedOrder(a: Value, b: Value): bool { false }

  /** `'%s %s' % (a, b)` on two strings. */
  function FullName(ps: seq<Value>): Value {
    if |ps| == 2 && ps[0].Str? && ps[1].Str? then Str(ps[0].s + " " + ps[1].s) else Str("")
  }

  /** The caster `int`: a text the integer rule reads as a number
      becomes that number, a real is cut toward zero, and anything else
      (where the host would raise) is left as it is. */
  function AgeCaster(v: Value): Value {
    match v
    case Str(t) => if Lexical.ScanNumber(t).IntLiteral? then Int(Lexical.ScanNumber(t).value) else v
    case Real(r) => Int(if r >= 0.0 then r.Floor else -((-r).Floor))
    case Int(_) => v
  }

  /** `int` reads every digit string as its decimal value, leading zeros
      included. */
  lemma AgeCasterDigits(t: string)
    requires Lexical.IsDigits(t)
    ensures AgeCaster(Str(t)) == Int(Lexical.DecimalValue(t))
  {
  }

  /** `int` reads a sign and digits as the signed value. */
  lemma AgeCasterSigned(t: string)
    requires |t| > 1 && t[0] in {'+', '-'} && Lexical.IsDigits(t[1..])
    ensures AgeCaster(Str(t)) == Int(Lexical.SignOf(t) * Lexical.DecimalValue(t[1..]))
  {
    Lexical.SignedDigits(t);
  }

  /** `int` refuses a text with a `.`, which it leaves as it is. */
  lemma AgeCasterRefusesDot(t: string)
    requires '.' in t
    ensures AgeCaster(Str(t)) == Str(t)
  {
  }

  /** A two-digit age. */
  lemma AgeCasterTwoDigits(t: string)
    requires |t| == 2 && Lexical.IsDigit(t[0]) && Lexical.IsDigit(t[1])
    ensures AgeCaster(Str(t)) == Int(Lexical.DigitValue(t[0]) * 10 + Lexical.DigitValue(t[1]))
  {
    assert t[..1] == [t[0]] && t[..1][..0] == [];
    assert Lexical.DecimalValue(t[..1]) == Lexical.DigitValue(t[0]);
    assert Lexical.DecimalValue(t) == Lexical.DecimalValue(t[..1]) * 10 + Lexical.DigitValue(t[1]);
    AgeCasterDigits(t);
  }

  /** The ages of the table, and the 23 of test 10's second condition. */
  lemma TableAges()
    ensures AgeCaster(Str("21")) == Int(21)
    ensures AgeCaster(Str("23")) == Int(23)
    ensures AgeCaster(Str("31")) == Int(31)
  {
    AgeCasterTwoDigits("21");
    AgeCasterTwoDigits("23");
    AgeCasterTwoDigits("31");
  }

  /** The caster `float` on the favourite numbers of the table. */
  function FavCaster(v: Value): Value {
    if v == Str("3.1415") then Real(3.1415)
    else if v == Str("5") then Real(5.0)
    else if v == Str("2.7182") then Real(2.7182)
    else v
  }

  function Plain(funs: seq<UserFunction>): Env {
    Env(map[], funs, NoMixedOrder)
  }

  function Typed(): Env {
    Env(map["age" := AgeCaster, "fav_num" := FavCaster], [], NoMixedOrder)
  }

  /** A row whose select list writes something, in a query without a
      where clause, is kept as written. */
  lemma KeptWithoutWhere(env: Env, items: seq<SelectItem>, row: Row, out: Row, k: string)
    requires EvalItems(env, row, map[], items) == Ok(out) && k in out
    ensures RowStep(env, Query(items, None), row) == Ok(Some(out))
  {
  }

  /** A row whose where clause reads as `b`. */
  lemma DecidedByWhere(env: Env, items: seq<SelectItem>, w: Where, row: Row, out: Row, k: string,
                       atoms: seq<Atom>, b: bool)
    requires EvalItems(env, row, map[], items) == Ok(out) && k in out
    requires WhereAtoms(env, row, out, w) == Ok(atoms) && Truth(atoms) == Some(b)
    ensures RowStep(env, Query(items, Some(w)), row) == Ok(if b then Some(out) else None)
  {
  }

  /** A select list of one item. */
  lemma OneItem(env: Env, row: Row, i0: SelectItem, o1: Row)
    requires EvalItem(env, row, map[], i0) == Ok(o1)
    ensures EvalItems(env, row, map[], [i0]) == Ok(o1)
  {
    assert [i0][1..] == [];
  }

  /** A select list of two items, the second applied to what the first
      wrote. */
  lemma TwoItems(env: Env, row: Row, i0: SelectItem, i1: SelectItem, o1: Row, o2: Row)
    requires EvalItem(env, row, map[], i0) == Ok(o1)
    requires EvalItem(env, row, o1, i1) == Ok(o2)
    ensures EvalItems(env, row, map[], [i0, i1]) == Ok(o2)
  {
    assert [i0, i1][1..] == [i1] && [i1][1..] == [];
    assert EvalItems(env, row, o2, []) == Ok(o2);
    assert EvalItems(env, row, o1, [i1]) == Ok(o2);
  }

  lemma ThreeItems(env: Env, row: Row, i0: SelectItem, i1: SelectItem, i2: SelectItem,
                   o1: Row, o2: Row, o3: Row)
    requires EvalItem(env, row, map[], i0) == Ok(o1)
    requires EvalItem(env, row, o1, i1) == Ok(o2)
    requires EvalItem(env, row, o2, i2) == Ok(o3)
    ensures EvalItems(env, row, map[], [i0, i1, i2]) == Ok(o3)
  {
    assert [i0, i1, i2][1..] == [i1, i2] && [i1, i2][1..] == [i2] && [i2][1..] == [];
    assert EvalItems(env, row, o3, []) == Ok(o3);
    assert EvalItems(env, row, o2, [i2]) == Ok(o3);
    assert EvalItems(env, row, o1, [i1, i2]) == Ok(o3);
  }


  /** Three rows, all kept, with the given outputs. */
  lemma KeepThree(env: Env, q: Query, a: Row, b: Row, c: Row, oa: Row, ob: Row, oc: Row)
    requires RowStep(env, q, a) == Ok(Some(oa))
    requires RowStep(env, q, b) == Ok(Some(ob))
    requires RowStep(env, q, c) == Ok(Some(oc))
    ensures QueryResult(env, q, [a, b, c]) == Ok([oa, ob, oc])
  {
    QueryAppendRow(env, q, [], a);
    assert [] + [a] == [a];
    assert [] + [oa] == [oa];
    QueryAppendRow(env, q, [a], b);
    assert [a] + [b] == [a, b];
    assert [oa] + [ob] == [oa, ob];
    QueryAppendRow(env, q, [a, b], c);
    assert [a, b] + [c] == [a, b, c];
    assert [oa, ob] + [oc] == [oa, ob, oc];
  }

  /** The three rows of the table, all kept, with the given outputs. */
  lemma KeepAll(env: Env, q: Query, oa: Row, ob: Row, oc: Row)
    requires RowStep(env, q, Cathal()) == Ok(Some(oa))
    requires RowStep(env, q, Joe()) == Ok(Some(ob))
    requires RowStep(env, q, Mary()) == Ok(Some(oc))
    ensures QueryResult(env, q, Table()) == Ok([oa, ob, oc])
  {
    KeepThree(env, q, Cathal(), Joe(), Mary(), oa, ob, oc);
  }


  /** Test 0: `select $fname, $lname`. */
  function Test0(): Query {
    Query([Field("fname", None), Field("lname", None)], None)
  }

  /** Each row keeps just the two columns. */
  lemma SelectTwoFields(fname: string, lname: string, gender: string, age: string, favNum: string)
    ensures RowStep(Plain([]), Test0(), Person(fname, lname, gender, age, favNum))
         == Ok(Some(map["fname" := Str(fname), "lname" := Str(lname)]))
  {
    var env, row := Plain([]), Person(fname, lname, gender, age, favNum);
    assert "fname" in row && row["fname"] == Str(fname);
    assert "lname" in row && row["lname"] == Str(lname);
    var o1 := map["fname" := Str(fname)];
    TwoItems(env, row, Field("fname", None), Field("lname", None), o1, o1["lname" := Str(lname)]);
    KeptWithoutWhere(env, Test0().items, row, o1["lname" := Str(lname)], "fname");
  }

  lemma Test0Table()
    ensures QueryResult(Plain([]), Test0(), Table())
         == Ok([map["fname" := Str("cathal"), "lname" := Str("coffey")],
                map["fname" := Str("joe"), "lname" := Str("smith")],
                map["fname" := Str("mary"), "lname" := Str("burne")]])
  {
    var env, q := Plain([]), Test0();
    assert RowStep(env, q, Cathal()) == Ok(Some(map["fname" := Str("cathal"), "lname" := Str("coffey")])) by {
      SelectTwoFields("cathal", "coffey", "male", "21", "3.1415");
    }
    assert RowStep(env, q, Joe()) == Ok(Some(map["fname" := Str("joe"), "lname" := Str("smith")])) by {
      SelectTwoFields("joe", "smith", "male", "31", "5");
    }
    assert RowStep(env, q, Mary()) == Ok(Some(map["fname" := Str("mary"), "lname" := Str("burne")])) by {
      SelectTwoFields("mary", "burne", "female", "21", "2.7182");
    }
    KeepAll(env, q,
            map["fname" := Str("cathal"), "lname" := Str("coffey")],
            map["fname" := Str("joe"), "lname" := Str("smith")],
            map["fname" := Str("mary"), "lname" := Str("burne")]);
  }

  /** Test 1: `select $fname as $first_name, $lname as $last_name`. */
  function Test1(): Query {
    Query([Field("fname", Some("first_name")), Field("lname", Some("last_name"))], None)
  }

  /** Each row keeps only the aliases. */
  lemma SelectAliased(fname: string, lname: string, gender: string, age: string, favNum: string)
    ensures RowStep(Plain([]), Test1(), Person(fname, lname, gender, age, favNum))
         == Ok(Some(map["first_name" := Str(fname), "last_name" := Str(lname)]))
  {
    var env, row := Plain([]), Person(fname, lname, gender, age, favNum);
    assert "fname" in row && row["fname"] == Str(fname);
    assert "lname" in row && row["lname"] == Str(lname);
    var o1 := map["first_name" := Str(fname)];
    TwoItems(env, row, Test1().items[0], Test1().items[1], o1, o1["last_name" := Str(lname)]);
    KeptWithoutWhere(env, Test1().items, row, o1["last_name" := Str(lname)], "first_name");
  }

  lemma Test1Table()
    ensures QueryResult(Plain([]), Test1(), Table())
         == Ok([map["first_name" := Str("cathal"), "last_name" := Str("coffey")],
                map["first_name" := Str("joe"), "last_name" := Str("smith")],
                map["first_name" := Str("mary"), "last_name" := Str("burne")]])
  {
    var env, q := Plain([]), Test1();
    assert RowStep(env, q, Cathal()) == Ok(Some(map["first_name" := Str("cathal"), "last_name" := Str("coffey")])) by {
      SelectAliased("cathal", "coffey", "male", "21", "3.1415");
    }
    assert RowStep(env, q, Joe()) == Ok(Some(map["first_name" := Str("joe"), "last_name" := Str("smith")])) by {
      SelectAliased("joe", "smith", "male", "31", "5");
    }
    assert RowStep(env, q, Mary()) == Ok(Some(map["first_name" := Str("mary"), "last_name" := Str("burne")])) by {
      SelectAliased("mary", "burne", "female", "21", "2.7182");
    }
    KeepAll(env, q,
            map["first_name" := Str("cathal"), "last_name" := Str("coffey")],
            map["first_name" := Str("joe"), "last_name" := Str("smith")],
            map["first_name" := Str("mary"), "last_name" := Str("burne")]);
  }

  /** Two arguments, the second seeing what the first wrote. */
  lemma TwoArgs(env: Env, rowIn: Row, rowOut: Row, a0: Arg, a1: Arg, s0: Step, s1: Step)
    requires EvalArg(env, rowIn, rowOut, a0) == Ok(s0)
    requires EvalArg(env, rowIn, s0.rowOut, a1) == Ok(s1)
    ensures EvalArgs(env, rowIn, rowOut, [a0, a1]) == Ok(Steps([s0.value, s1.value], s1.rowOut))
  {
    var args := [a0, a1];
    assert args[0] == a0 && args[1..] == [a1] && [a1][0] == a1 && [a1][1..] == [];
    assert EvalArgs(env, rowIn, s1.rowOut, []) == Ok(Steps([], s1.rowOut));
    assert [s1.value] + [] == [s1.value];
    assert EvalArgs(env, rowIn, s0.rowOut, [a1]) == Ok(Steps([s1.value], s1.rowOut));
    assert [s0.value] + [s1.value] == [s0.value, s1.value];
  }

  /** `#0($a, $b) as $out` as a select item: the arguments are cast and
      write nothing; the aliased call writes its result. */
  lemma CallOfTwoFields(env: Env, row: Row, rowOut: Row, a: string, b: string, out: string)
    requires |env.funs| >= 1 && a in row && b in row
    ensures EvalItem(env, row, rowOut, Call(0, [AField(a, None), AField(b, None)], Some(out)))
         == Ok(rowOut[out := env.funs[0]([Cast(env, a, row[a]), Cast(env, b, row[b])])])
  {
    var va, vb := Cast(env, a, row[a]), Cast(env, b, row[b]);
    TwoArgs(env, row, rowOut, AField(a, None), AField(b, None), Step(va, rowOut), Step(vb, rowOut));
  }

  /** The row test 2 keeps: the full name alone. */
  function FullNameRow(fname: string, lname: string): Row {
    map["fullname" := Str(fname + " " + lname)]
  }

  /** The row tests 3 and 4 keep: both names and the full name. */
  function NamesRow(fname: string, lname: string): Row {
    map["fname" := Str(fname), "lname" := Str(lname), "fullname" := Str(fname + " " + lname)]
  }

  /** Test 2: `select #0($fname, $lname) as $fullname` with
      `'%s %s' % (a, b)`. */
  function Test2(): Query {
    Query([Call(0, [AField("fname", None), AField("lname", None)], Some("fullname"))], None)
  }

  /** Each row keeps only the alias. */
  lemma SelectFunction(fname: string, lname: string, gender: string, age: string, favNum: string)
    ensures RowStep(Plain([FullName]), Test2(), Person(fname, lname, gender, age, favNum))
         == Ok(Some(FullNameRow(fname, lname)))
  {
    var env, row := Plain([FullName]), Person(fname, lname, gender, age, favNum);
    assert "fname" in row && row["fname"] == Str(fname);
    assert "lname" in row && row["lname"] == Str(lname);
    CallOfTwoFields(env, row, map[], "fname", "lname", "fullname");
    assert FullName([Str(fname), Str(lname)]) == Str(fname + " " + lname);
    OneItem(env, row, Test2().items[0], map["fullname" := Str(fname + " " + lname)]);
    KeptWithoutWhere(env, Test2().items, row, map["fullname" := Str(fname + " " + lname)], "fullname");
  }

  lemma Test2Table()
    ensures QueryResult(Plain([FullName]), Test2(), Table())
         == Ok([FullNameRow("cathal", "coffey"), FullNameRow("joe", "smith"), FullNameRow("mary", "burne")])
  {
    SelectFunction("cathal", "coffey", "male", "21", "3.1415");
    SelectFunction("joe", "smith", "male", "31", "5");
    SelectFunction("mary", "burne", "female", "21", "2.7182");
    KeepAll(Plain([FullName]), Test2(), FullNameRow("cathal", "coffey"), FullNameRow("joe", "smith"), FullNameRow("mary", "burne"));
  }

  /** Test 3: `select $fname, $lname, #0($fname, $lname) as $fullname`. */
  function Test3(): Query {
    Query([Field("fname", None), Field("lname", None),
           Call(0, [AField("fname", None), AField("lname", None)], Some("fullname"))], None)
  }

  /** Each row keeps the two fields and the call's alias. */
  lemma SelectFieldsAndFunction(fname: string, lname: string, gender: string, age: string, favNum: string)
    ensures RowStep(Plain([FullName]), Test3(), Person(fname, lname, gender, age, favNum))
         == Ok(Some(NamesRow(fname, lname)))
  {
    var env, row := Plain([FullName]), Person(fname, lname, gender, age, favNum);
    assert "fname" in row && row["fname"] == Str(fname);
    assert "lname" in row && row["lname"] == Str(lname);
    var o1 := map["fname" := Str(fname)];
    var o2 := o1["lname" := Str(lname)];
    var o3 := o2["fullname" := Str(fname + " " + lname)];
    CallOfTwoFields(env, row, o2, "fname", "lname", "fullname");
    assert FullName([Str(fname), Str(lname)]) == Str(fname + " " + lname);
    ThreeItems(env, row, Test3().items[0], Test3().items[1], Test3().items[2], o1, o2, o3);
    KeptWithoutWhere(env, Test3().items, row, o3, "fname");
  }

  lemma Test3Table()
    ensures QueryResult(Plain([FullName]), Test3(), Table())
         == Ok([NamesRow("cathal", "coffey"), NamesRow("joe", "smith"), NamesRow("mary", "burne")])
  {
    SelectFieldsAndFunction("cathal", "coffey", "male", "21", "3.1415");
    SelectFieldsAndFunction("joe", "smith", "male", "31", "5");
    SelectFieldsAndFunction("mary", "burne", "female", "21", "2.7182");
    KeepAll(Plain([FullName]), Test3(), NamesRow("cathal", "coffey"), NamesRow("joe", "smith"), NamesRow("mary", "burne"));
  }

  /** Test 4: `select #0($fname as $fname, $lname as $lname) as $fullname`. */
  function Test4(): Query {
    Query([Call(0, [AField("fname", Some("fname")), AField("lname", Some("lname"))], Some("fullname"))], None)
  }

  /** Aliased arguments are written too: the same row as test 3. */
  lemma SelectFunctionAliasedArgs(fname: string, lname: string, gender: string, age: string, favNum: string)
    ensures RowStep(Plain([FullName]), Test4(), Person(fname, lname, gender, age, favNum))
         == Ok(Some(NamesRow(fname, lname)))
  {
    var env, row := Plain([FullName]), Person(fname, lname, gender, age, favNum);
    var args := [AField("fname", Some("fname")), AField("lname", Some("lname"))];
    assert "fname" in row && row["fname"] == Str(fname);
    assert "lname" in row && row["lname"] == Str(lname);
    var o1 := map["fname" := Str(fname)];
    var o2 := o1["lname" := Str(lname)];
    var o3 := o2["fullname" := Str(fname + " " + lname)];
    TwoArgs(env, row, map[], args[0], args[1], Step(Str(fname), o1), Step(Str(lname), o2));
    assert FullName([Str(fname), Str(lname)]) == Str(fname + " " + lname);
    OneItem(env, row, Test4().items[0], o3);
    KeptWithoutWhere(env, Test4().items, row, o3, "fullname");
  }

  /** The same table as test 3. */
  lemma Test4Table()
    ensures QueryResult(Plain([FullName]), Test4(), Table())
         == Ok([NamesRow("cathal", "coffey"), NamesRow("joe", "smith"), NamesRow("mary", "burne")])
  {
    SelectFunctionAliasedArgs("cathal", "coffey", "male", "21", "3.1415");
    SelectFunctionAliasedArgs("joe", "smith", "male", "31", "5");
    SelectFunctionAliasedArgs("mary", "burne", "female", "21", "2.7182");
    KeepAll(Plain([FullName]), Test4(), NamesRow("cathal", "coffey"), NamesRow("joe", "smith"), NamesRow("mary", "burne"));
  }

  /** `a + b` on two strings or on two numbers. */
  function Plus(ps: seq<Value>): Value {
    if |ps| != 2 then Str("")
    else if ps[0].Str? && ps[1].Str? then Str(ps[0].s + ps[1].s)
    else if ps[0].Int? && ps[1].Int? then Int(ps[0].i + ps[1].i)
    else if IsNumber(ps[0]) && IsNumber(ps[1]) then Real(AsReal(ps[0]) + AsReal(ps[1]))
    else Str("")
  }

  /** Tests 5 and 6: `select #0($age, $fav_num) as $result` with `+`. */
  function Test5(): Query {
    Query([Call(0, [AField("age", None), AField("fav_num", None)], Some("result"))], None)
  }

  /** The row test 5 keeps: the two texts joined. */
  function JoinedRow(age: string, favNum: string): Row {
    map["result" := Str(age + favNum)]
  }

  /** Without casters the function sees the text of both fields and joins
      it. */
  lemma FunctionSeesText(fname: string, lname: string, gender: string, age: string, favNum: string)
    ensures RowStep(Plain([Plus]), Test5(), Person(fname, lname, gender, age, favNum))
         == Ok(Some(JoinedRow(age, favNum)))
  {
    var env, row := Plain([Plus]), Person(fname, lname, gender, age, favNum);
    assert "age" in row && row["age"] == Str(age);
    assert "fav_num" in row && row["fav_num"] == Str(favNum);
    CallOfTwoFields(env, row, map[], "age", "fav_num", "result");
    assert Plus([Str(age), Str(favNum)]) == Str(age + favNum);
    OneItem(env, row, Test5().items[0], map["result" := Str(age + favNum)]);
    KeptWithoutWhere(env, Test5().items, row, map["result" := Str(age + favNum)], "result");
  }

  /** The texts joined: `213.1415`, `315` and `212.7182`. */
  lemma Test5Table()
    ensures QueryResult(Plain([Plus]), Test5(), Table())
         == Ok([JoinedRow("21", "3.1415"), JoinedRow("31", "5"), JoinedRow("21", "2.7182")])
  {
    FunctionSeesText("cathal", "coffey", "male", "21", "3.1415");
    FunctionSeesText("joe", "smith", "male", "31", "5");
    FunctionSeesText("mary", "burne", "female", "21", "2.7182");
    KeepAll(Plain([Plus]), Test5(), JoinedRow("21", "3.1415"), JoinedRow("31", "5"), JoinedRow("21", "2.7182"));
  }



  /** The row test 6 keeps: the sum alone. */
  function SumRow(age: int, fav: real): Row {
    map["result" := Real(age as real + fav)]
  }

  /** With the `int` and `float` casters the function sees an int and a
      float and adds them. */
  lemma FunctionSeesCasts(row: Row, age: int, fav: real)
    requires "age" in row && AgeCaster(row["age"]) == Int(age)
    requires "fav_num" in row && FavCaster(row["fav_num"]) == Real(fav)
    ensures RowStep(Typed().(funs := [Plus]), Test5(), row) == Ok(Some(SumRow(age, fav)))
  {
    var env := Typed().(funs := [Plus]);
    assert Cast(env, "age", row["age"]) == Int(age);
    assert Cast(env, "fav_num", row["fav_num"]) == Real(fav);
    CallOfTwoFields(env, row, map[], "age", "fav_num", "result");
    assert Plus([Int(age), Real(fav)]) == Real(age as real + fav);
    OneItem(env, row, Test5().items[0], map["result" := Real(age as real + fav)]);
    KeptWithoutWhere(env, Test5().items, row, map["result" := Real(age as real + fav)], "result");
  }

  /** Cathal's 21 + 3.1415, Joe's 31 + 5.0 and Mary's 21 + 2.7182. */
  lemma Test6Table()
    ensures QueryResult(Typed().(funs := [Plus]), Test5(), Table())
         == Ok([SumRow(21, 3.1415), SumRow(31, 5.0), SumRow(21, 2.7182)])
  {
    TableAges();
    assert "age" in Cathal() && Cathal()["age"] == Str("21");
    assert "fav_num" in Cathal() && Cathal()["fav_num"] == Str("3.1415");
    FunctionSeesCasts(Cathal(), 21, 3.1415);
    assert "age" in Joe() && Joe()["age"] == Str("31");
    assert "fav_num" in Joe() && Joe()["fav_num"] == Str("5");
    FunctionSeesCasts(Joe(), 31, 5.0);
    assert "age" in Mary() && Mary()["age"] == Str("21");
    assert "fav_num" in Mary() && Mary()["fav_num"] == Str("2.7182");
    FunctionSeesCasts(Mary(), 21, 2.7182);
    KeepAll(Typed().(funs := [Plus]), Test5(), SumRow(21, 3.1415), SumRow(31, 5.0), SumRow(21, 2.7182));
  }



  /** `select #3()` names a function the list does not have. */
  lemma SelectMissingFunction()
    ensures RowStep(Plain([FullName]), Query([Call(3, [], None)], None), Cathal())
         == Err(FunctionIndexOutOfRange(3, 1))
  {
  }

  /** `select $nickname`: the field is in neither row. */
  lemma SelectMissingField()
    ensures RowStep(Plain([]), Query([Field("nickname", None)], None), Cathal())
         == Err(FieldNotFound("nickname"))
  {
  }

  /** `select $fname as $a, $a as $b`: a later item reads what an earlier
      one wrote to the output row. */
  lemma SelectReadsOutputRow()
    ensures RowStep(Plain([]), Query([Field("fname", Some("a")), Field("a", Some("b"))], None), Joe())
         == Ok(Some(map["a" := Str("joe"), "b" := Str("joe")]))
  {
  }

  /** Test 7: `select * where $age = 21`. */
  function Test7(): Query {
    Query([Star], Some(Condition(OField("age"), Eq, OLit(Int(21)))))
  }

  /** With an integer caster on age the where clause compares the cast
      age, while `*` copies the text: a row is kept as it is iff its age
      is 21. */
  lemma StarWhereTyped(row: Row, age: int)
    requires "age" in row && AgeCaster(row["age"]) == Int(age)
    ensures RowStep(Typed(), Test7(), row) == Ok(if age == 21 then Some(row) else None)
  {
    var env := Typed();
    assert Cast(env, "age", row["age"]) == Int(age);
    StarOnly(env, row);
    FieldCondition(env, row, "age", Eq, Int(21), Int(age));
    assert Compare(Eq, Int(age), Int(21), env.mixedLess) == (age == 21);
    assert Truth([Bool(age == 21)]) == Some(age == 21);
    DecidedByWhere(env, [Star], Test7().where.value, row, row, "age", [Bool(age == 21)], age == 21);
  }

  lemma Test7Table()
    ensures QueryResult(Typed(), Test7(), Table()) == Ok([Cathal(), Mary()])
  {
    TableAges();
    assert "age" in Cathal() && Cathal()["age"] == Str("21");
    StarWhereTyped(Cathal(), 21);
    assert "age" in Joe() && Joe()["age"] == Str("31");
    StarWhereTyped(Joe(), 31);
    assert "age" in Mary() && Mary()["age"] == Str("21");
    StarWhereTyped(Mary(), 21);
    KeepFirstAndLast(Typed(), Test7(), Cathal(), Joe(), Mary());
  }

  /** `select *` alone gives the input row. */
  lemma StarOnly(env: Env, row: Row)
    ensures EvalItems(env, row, map[], [Star]) == Ok(row)
  {
    assert StarRow(row, map[]) == row;
    assert [Star][1..] == [];
  }

  /** Test 7 without casters compares text with a number, which is never
      equal: nothing is kept. */
  lemma StarWhereUntyped(row: Row)
    requires "age" in row && row["age"].Str?
    ensures RowStep(Plain([]), Test7(), row) == Ok(None)
  {
  }

  /** The where clause `($age = 21) or ($age = 23) and $fav_num > 2` over
      the table with its casters. */
  function Test10(): Query {
    Query([Star],
      Some(Connect(Paren(Condition(OField("age"), Eq, OLit(Int(21)))), OrConn,
           Connect(Paren(Condition(OField("age"), Eq, OLit(Int(23)))), AndConn,
                   Condition(OField("fav_num"), Gt, OLit(Int(2)))))))
  }

  /** The condition text of that clause, for a row with the given age and
      favourite number as text. */
  lemma Test10Atoms(row: Row, age: int, fav: real)
    requires "age" in row && AgeCaster(row["age"]) == Int(age)
    requires "fav_num" in row && FavCaster(row["fav_num"]) == Real(fav)
    ensures WhereAtoms(Typed(), row, row, Test10().where.value)
         == Ok([Bool(age == 21), Conn(OrConn), Bool(age == 23), Conn(AndConn), Bool(fav > 2.0)])
  {
    var env := Typed();
    var c1 := Condition(OField("age"), Eq, OLit(Int(21)));
    var c2 := Condition(OField("age"), Eq, OLit(Int(23)));
    var c3 := Condition(OField("fav_num"), Gt, OLit(Int(2)));
    assert Cast(env, "age", row["age"]) == Int(age);
    assert Cast(env, "fav_num", row["fav_num"]) == Real(fav);
    FieldCondition(env, row, "age", Eq, Int(21), Int(age));
    FieldCondition(env, row, "age", Eq, Int(23), Int(age));
    FieldCondition(env, row, "fav_num", Gt, Int(2), Real(fav));
    assert Compare(Eq, Int(age), Int(21), env.mixedLess) == (age == 21);
    assert Compare(Eq, Int(age), Int(23), env.mixedLess) == (age == 23);
    assert Compare(Gt, Real(fav), Int(2), env.mixedLess) == (fav > 2.0);
    var x, y, z := [Bool(age == 21)], [Bool(age == 23)], [Bool(fav > 2.0)];
    ConnectAtoms(env, row, row, Paren(c2), AndConn, c3, y, z);
    ConnectAtoms(env, row, row, Paren(c1), OrConn, Connect(Paren(c2), AndConn, c3), x, y + [Conn(AndConn)] + z);
    assert x + [Conn(OrConn)] + (y + [Conn(AndConn)] + z)
        == [Bool(age == 21), Conn(OrConn), Bool(age == 23), Conn(AndConn), Bool(fav > 2.0)];
  }

  /** `head conn rest`: the two texts joined by the connective. */
  lemma ConnectAtoms(env: Env, rowIn: Row, rowOut: Row, head: Where, conn: Connective, rest: Where,
                     x: seq<Atom>, y: seq<Atom>)
    requires WhereAtoms(env, rowIn, rowOut, head) == Ok(x)
    requires WhereAtoms(env, rowIn, rowOut, rest) == Ok(y)
    ensures WhereAtoms(env, rowIn, rowOut, Connect(head, conn, rest)) == Ok(x + [Conn(conn)] + y)
  {
  }

  /** `$name op literal`: one boolean, the comparison of the cast field
      with the literal. */
  lemma FieldCondition(env: Env, row: Row, name: string, op: CompareOp, lit: Value, v: Value)
    requires name in row && Cast(env, name, row[name]) == v
    ensures WhereAtoms(env, row, row, Condition(OField(name), op, OLit(lit)))
         == Ok([Bool(Compare(op, v, lit, env.mixedLess))])
  {
  }

  /** A row through that query: `and` binds tighter than `or`, and the
      parentheses group nothing. */
  lemma Test10Row(row: Row, age: int, fav: real)
    requires "age" in row && AgeCaster(row["age"]) == Int(age)
    requires "fav_num" in row && FavCaster(row["fav_num"]) == Real(fav)
    ensures RowStep(Typed(), Test10(), row)
         == Ok(if age == 21 || (age == 23 && fav > 2.0) then Some(row) else None)
  {
    var atoms := [Bool(age == 21), Conn(OrConn), Bool(age == 23), Conn(AndConn), Bool(fav > 2.0)];
    StarOnly(Typed(), row);
    Test10Atoms(row, age, fav);
    TruthShape(atoms);
    DecidedByWhere(Typed(), [Star], Test10().where.value, row, row, "age", atoms,
                   age == 21 || (age == 23 && fav > 2.0));
  }

  lemma Test10EachRow()
    ensures RowStep(Typed(), Test10(), Cathal()) == Ok(Some(Cathal()))
    ensures RowStep(Typed(), Test10(), Joe()) == Ok(None)
    ensures RowStep(Typed(), Test10(), Mary()) == Ok(Some(Mary()))
  {
    Test10Cathal();
    Test10Joe();
    Test10Mary();
  }

  lemma Test10Cathal()
    ensures RowStep(Typed(), Test10(), Cathal()) == Ok(Some(Cathal()))
  {
    TableAges();
    assert "age" in Cathal() && Cathal()["age"] == Str("21");
    assert "fav_num" in Cathal() && Cathal()["fav_num"] == Str("3.1415");
    Test10Row(Cathal(), 21, 3.1415);
  }

  lemma Test10Joe()
    ensures RowStep(Typed(), Test10(), Joe()) == Ok(None)
  {
    TableAges();
    assert "age" in Joe() && Joe()["age"] == Str("31");
    assert "fav_num" in Joe() && Joe()["fav_num"] == Str("5");
    Test10Row(Joe(), 31, 5.0);
  }

  lemma Test10Mary()
    ensures RowStep(Typed(), Test10(), Mary()) == Ok(Some(Mary()))
  {
    TableAges();
    assert "age" in Mary() && Mary()["age"] == Str("21");
    assert "fav_num" in Mary() && Mary()["fav_num"] == Str("2.7182");
    Test10Row(Mary(), 21, 2.7182);
  }

  /** A row aged 23 with a favourite number above 2 is kept by the
      second condition alone. */
  lemma Test10Aged23(fname: string, lname: string, gender: string)
    ensures RowStep(Typed(), Test10(), Person(fname, lname, gender, "23", "5"))
         == Ok(Some(Person(fname, lname, gender, "23", "5")))
  {
    var row := Person(fname, lname, gender, "23", "5");
    TableAges();
    assert "age" in row && row["age"] == Str("23");
    assert "fav_num" in row && row["fav_num"] == Str("5");
    Test10Row(row, 23, 5.0);
  }

  /** Three rows of which the first and the last are kept as they are. */
  lemma KeepFirstAndLast(env: Env, q: Query, a: Row, b: Row, c: Row)
    requires RowStep(env, q, a) == Ok(Some(a))
    requires RowStep(env, q, b) == Ok(None)
    requires RowStep(env, q, c) == Ok(Some(c))
    ensures QueryResult(env, q, [a, b, c]) == Ok([a, c])
  {
    QueryAppendRow(env, q, [], a);
    assert [] + [a] == [a];
    QueryAppendRow(env, q, [a], b);
    assert [a] + [b] == [a, b];
    assert [a] + [] == [a];
    QueryAppendRow(env, q, [a, b], c);
    assert [a, b] + [c] == [a, b, c];
    assert [a] + [c] == [a, c];
  }

  /** The whole table through that query keeps the two rows aged 21, in
      their order. */
  lemma Test10Table()
    ensures QueryResult(Typed(), Test10(), Table()) == Ok([Cathal(), Mary()])
  {
    Test10EachRow();
    KeepFirstAndLast(Typed(), Test10(), Cathal(), Joe(), Mary());
  }

  /** The value of `x or y and z` for the five-atom texts above. */
  lemma TruthShape(a: seq<Atom>)
    requires |a| == 5 && a[0].Bool? && a[2].Bool? && a[4].Bool?
    requires a[1] == Conn(OrConn) && a[3] == Conn(AndConn)
    ensures Truth(a) == Some(a[0].b || (a[2].b && a[4].b))
  {
    var x, y, z := a[0].b, a[2].b, a[4].b;
    assert Chain([], x, y && z) == Some(x || (y && z));
    assert a[3..][0] == a[3] && a[3..][1] == a[4] && a[3..][2..] == [];
    assert Chain(a[3..], x, y) == Chain([], x, y && z);
    assert a[1..][0] == a[1] && a[1..][1] == a[2] && a[1..][2..] == a[3..];
    assert Chain(a[1..], false, x) == Chain(a[3..], x, y);
  }
}
