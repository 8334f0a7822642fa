/** What one row's evaluation computes, as functions: field resolution,
    function calls, `*`, the select list, and the condition text of the
    where clause.  The evaluator object in module Engine is proved to
    compute exactly these. */
module Evaluation {
  import opened Values
  import opened Syntax
  import opened Conditions

  /** A per-field conversion, applied to the resolved value of that field. */
  type Caster = Value -> Value

  /** A caller-supplied function, addressed by its position in a list. */
  type UserFunction = seq<Value> -> Value

  /** What stays fixed while a query runs: the casters by field name, the
      function list, and the host's order between a string and a number. */
  datatype Env = Env(
    fieldTypes: map<string, Caster>,
    funs: seq<UserFunction>,
    mixedLess: (Value, Value) -> bool)

  /** The value an expression produced and the output row after it. */
  datatype Step = Step(value: Value, rowOut: Row)

  /** The values of an argument list and the output row after it. */
  datatype Steps = Steps(values: seq<Value>, rowOut: Row)

  /** An expression's outcome paired with the output row it leaves. */
  function WithRow(r: Result<Value>, rowOut: Row): Result<Step> {
    match r
    case Ok(v) => Ok(Step(v, rowOut))
    case Err(err) => Err(err)
  }

  function WithRows(r: Result<seq<Value>>, rowOut: Row): Result<Steps> {
    match r
    case Ok(vs) => Ok(Steps(vs, rowOut))
    case Err(err) => Err(err)
  }

  /** A field's value after its caster, when one is registered. */
  function Cast(env: Env, name: string, v: Value): Value {
    if name in env.fieldTypes then env.fieldTypes[name](v) else v
  }

  /** The input row is looked at first, then the output row. */
  function Lookup(rowIn: Row, rowOut: Row, name: string): Option<Value> {
    if name in rowIn then Some(rowIn[name])
    else if name in rowOut then Some(rowOut[name])
    else None
  }

  /** A field reference `$name` or `$name as $alias`.  The value is looked
      up (input row first), cast by the caster of `name`, and written under
      the alias; without an alias it is written under `name` at the top
      level of the select list, and not written at all inside a function
      argument or a where operand. */
  function ResolveField(env: Env, rowIn: Row, rowOut: Row, name: string,
                        alias: Option<string>, insideFunction: bool): (r: Result<Step>)
    ensures r.Err? <==> name !in rowIn && name !in rowOut
    ensures r.Err? ==> r.error == FieldNotFound(name)
    ensures r.Ok? && name in rowIn ==> r.value.value == Cast(env, name, rowIn[name])
    ensures r.Ok? && name !in rowIn ==> r.value.value == Cast(env, name, rowOut[name])
    ensures r.Ok? && alias.Some? ==> r.value.rowOut == rowOut[alias.value := r.value.value]
    ensures r.Ok? && alias.None? && !insideFunction ==> r.value.rowOut == rowOut[name := r.value.value]
    ensures r.Ok? && alias.None? && insideFunction ==> r.value.rowOut == rowOut
  {
    match Lookup(rowIn, rowOut, name)
    case None => Err(FieldNotFound(name))
    case Some(raw) =>
      var v := Cast(env, name, raw);
      if alias.Some? then Ok(Step(v, rowOut[alias.value := v]))
      else if insideFunction then Ok(Step(v, rowOut))
      else Ok(Step(v, rowOut[name := v]))
  }

  /** A call `#index(params)` whose arguments are already evaluated: the
      function at that position applied to them, stored under the alias if
      there is one. */
  function ApplyFunction(env: Env, rowOut: Row, index: nat, params: seq<Value>,
                         alias: Option<string>): (r: Result<Step>)
    ensures r.Err? <==> index >= |env.funs|
    ensures r.Err? ==> r.error == FunctionIndexOutOfRange(index, |env.funs|)
    ensures r.Ok? ==> r.value.value == env.funs[index](params)
    ensures r.Ok? && alias.Some? ==> r.value.rowOut == rowOut[alias.value := r.value.value]
    ensures r.Ok? && alias.None? ==> r.value.rowOut == rowOut
  {
    if index < |env.funs| then
      var v := env.funs[index](params);
      Ok(Step(v, if alias.Some? then rowOut[alias.value := v] else rowOut))
    else
      Err(FunctionIndexOutOfRange(index, |env.funs|))
  }

  /** A function argument.  Arguments of a call are evaluated before the
      call, left to right, each seeing what the earlier ones wrote. */
  function EvalArg(env: Env, rowIn: Row, rowOut: Row, e: Arg): Result<Step>
    decreases e, 1
  {
    match e
    case ALit(v) => Ok(Step(v, rowOut))
    case AField(name, alias) => ResolveField(env, rowIn, rowOut, name, alias, true)
    case ACall(index, args, alias) =>
      match EvalArgs(env, rowIn, rowOut, args)
      case Err(err) => Err(err)
      case Ok(ps) => ApplyFunction(env, ps.rowOut, index, ps.values, alias)
  }

  function EvalArgs(env: Env, rowIn: Row, rowOut: Row, args: seq<Arg>): (r: Result<Steps>)
    ensures r.Ok? ==> |r.value.values| == |args|
    decreases args, 0
  {
    if args == [] then Ok(Steps([], rowOut))
    else
      match EvalArg(env, rowIn, rowOut, args[0])
      case Err(err) => Err(err)
      case Ok(s) =>
        match EvalArgs(env, rowIn, s.rowOut, args[1..])
        case Err(err) => Err(err)
        case Ok(rest) => Ok(Steps([s.value] + rest.values, rest.rowOut))
  }

  /** A where operand: resolved like an argument without alias, never
      written to the output row. */
  function EvalOperand(env: Env, rowIn: Row, rowOut: Row, o: Operand): Result<Value>
    decreases o, 1
  {
    match o
    case OLit(v) => Ok(v)
    case OField(name) =>
      (match ResolveField(env, rowIn, rowOut, name, None, true)
       case Err(err) => Err(err)
       case Ok(s) => Ok(s.value))
    case OCall(index, args) =>
      match EvalOperands(env, rowIn, rowOut, args)
      case Err(err) => Err(err)
      case Ok(vs) =>
        match ApplyFunction(env, rowOut, index, vs, None)
        case Err(err) => Err(err)
        case Ok(s) => Ok(s.value)
  }

  function EvalOperands(env: Env, rowIn: Row, rowOut: Row, os: seq<Operand>): (r: Result<seq<Value>>)
    ensures r.Ok? ==> |r.value| == |os|
    decreases os, 0
  {
    if os == [] then Ok([])
    else
      match EvalOperand(env, rowIn, rowOut, os[0])
      case Err(err) => Err(err)
      case Ok(v) =>
        match EvalOperands(env, rowIn, rowOut, os[1..])
        case Err(err) => Err(err)
        case Ok(vs) => Ok([v] + vs)
  }

  /** `*`: every input field is copied into the output row, uncast; the
      other entries of the output row stay as they were. */
  function StarRow(rowIn: Row, rowOut: Row): (r: Row)
    ensures r.Keys == rowIn.Keys + rowOut.Keys
    ensures forall k :: k in rowIn ==> r[k] == rowIn[k]
    ensures forall k :: k in rowOut && k !in rowIn ==> r[k] == rowOut[k]
  {
    rowOut + rowIn
  }

  /** One select item, applied to the output row built so far. */
  function EvalItem(env: Env, rowIn: Row, rowOut: Row, item: SelectItem): Result<Row> {
    match item
    case Star => Ok(StarRow(rowIn, rowOut))
    case Field(name, alias) =>
      (match ResolveField(env, rowIn, rowOut, name, alias, false)
       case Err(err) => Err(err)
       case Ok(s) => Ok(s.rowOut))
    case Call(index, args, alias) =>
      match EvalArg(env, rowIn, rowOut, ACall(index, args, alias))
      case Err(err) => Err(err)
      case Ok(s) => Ok(s.rowOut)
  }

  /** The select list, left to right. */
  function EvalItems(env: Env, rowIn: Row, rowOut: Row, items: seq<SelectItem>): Result<Row>
    decreases |items|
  {
    if items == [] then Ok(rowOut)
    else
      match EvalItem(env, rowIn, rowOut, items[0])
      case Err(err) => Err(err)
      case Ok(next) => EvalItems(env, rowIn, next, items[1..])
  }

  lemma AlternatingJoin(x: seq<Atom>, c: Connective, y: seq<Atom>)
    requires Alternating(x) && Alternating(y)
    ensures Alternating(x + [Conn(c)] + y)
  {
  }

  /** The condition text of a where clause: each comparison adds its
      boolean, each connective its keyword, parentheses nothing.  Every
      such text alternates booleans and connectives and holds one boolean
      per comparison. */
  function WhereAtoms(env: Env, rowIn: Row, rowOut: Row, w: Where): (r: Result<seq<Atom>>)
    ensures r.Ok? ==> Alternating(r.value) && |r.value| == 2 * Comparisons(w) - 1
  {
    match w
    case Condition(left, op, right) =>
      (match EvalOperand(env, rowIn, rowOut, left)
       case Err(err) => Err(err)
       case Ok(a) =>
         match EvalOperand(env, rowIn, rowOut, right)
         case Err(err) => Err(err)
         case Ok(b) => Ok([Bool(Compare(op, a, b, env.mixedLess))]))
    case Paren(inner) => WhereAtoms(env, rowIn, rowOut, inner)
    case Connect(head, conn, rest) =>
      match WhereAtoms(env, rowIn, rowOut, head)
      case Err(err) => Err(err)
      case Ok(x) =>
        match WhereAtoms(env, rowIn, rowOut, rest)
        case Err(err) => Err(err)
        case Ok(y) => AlternatingJoin(x, conn, y); Ok(x + [Conn(conn)] + y)
  }

  /** The decision taken after the row's query text has been read: the
      output row is kept when it is non-empty and the condition text is
      empty or true. */
  function Decide(rowOut: Row, atoms: seq<Atom>): (r: Result<Option<Row>>)
    ensures r.Ok? && r.value.Some? ==> r.value.value == rowOut && rowOut != map[]
    ensures r.Ok? && r.value.Some? <==> rowOut != map[] && (atoms == [] || Truth(atoms) == Some(true))
    ensures r.Err? ==> rowOut != map[] && atoms != [] && Truth(atoms).None?
  {
    if rowOut == map[] then Ok(None)
    else if atoms == [] then Ok(Some(rowOut))
    else
      match Truth(atoms)
      case None => Err(MalformedConditions)
      case Some(b) => Ok(if b then Some(rowOut) else None)
  }

  /** The condition text of a whole query: empty without a where clause. */
  function QueryAtoms(env: Env, rowIn: Row, rowOut: Row, q: Query): (r: Result<seq<Atom>>)
    ensures q.where.None? ==> r == Ok([])
    ensures r.Ok? && q.where.Some? ==> Alternating(r.value)
  {
    if q.where.None? then Ok([]) else WhereAtoms(env, rowIn, rowOut, q.where.value)
  }

  /** One input row through the whole query: the select list, then the
      where clause (which sees the output row the select list built), then
      the decision. */
  function RowStep(env: Env, q: Query, rowIn: Row): Result<Option<Row>> {
    match EvalItems(env, rowIn, map[], q.items)
    case Err(err) => Err(err)
    case Ok(rowOut) =>
      match QueryAtoms(env, rowIn, rowOut, q)
      case Err(err) => Err(err)
      case Ok(atoms) => Decide(rowOut, atoms)
  }
}
