/** A parsed query.  Three expression forms exist because the grammar
    allows different things in different places: top-level select items may
    be `*` and may carry `as $alias`; function arguments may carry an alias
    too (on a field and on a nested call); where-clause operands never do. */
module Syntax {
  import opened Values

  /** A function-argument expression. */
  datatype Arg =
    | ALit(v: Value)
    | AField(name: string, alias: Option<string>)
    | ACall(index: nat, args: seq<Arg>, alias: Option<string>)

  /** A where-clause operand. */
  datatype Operand =
    | OLit(v: Value)
    | OField(name: string)
    | OCall(index: nat, args: seq<Operand>)

  /** One entry of the select list. */
  datatype SelectItem =
    | Star
    | Field(name: string, alias: Option<string>)
    | Call(index: nat, args: seq<Arg>, alias: Option<string>)

  /** The connectives, which the grammar reads without regard to case. */
  datatype Connective = AndConn | OrConn

  /** The where clause as the grammar groups it: a condition or a
      parenthesised clause, then optionally a connective and the rest of
      the clause (so, for conditions a, b and c, `a and b or c` is
      `Connect(a, and, Connect(b, or, c))`). */
  datatype Where =
    | Condition(left: Operand, op: CompareOp, right: Operand)
    | Paren(inner: Where)
    | Connect(head: Where, conn: Connective, rest: Where)

  datatype Query = Query(items: seq<SelectItem>, where: Option<Where>)

  /** The names an argument writes to the output row: its aliases. */
  function ArgAliases(e: Arg): set<string>
    decreases e, 1
  {
    match e
    case ALit(_) => {}
    case AField(_, alias) => if alias.Some? then {alias.value} else {}
    case ACall(_, args, alias) =>
      (if alias.Some? then {alias.value} else {}) + ArgsAliases(args)
  }

  function ArgsAliases(args: seq<Arg>): set<string>
    decreases args, 0
  {
    if args == [] then {} else ArgAliases(args[0]) + ArgsAliases(args[1..])
  }

  /** Number of comparisons in a where clause. */
  function Comparisons(w: Where): nat {
    match w
    case Condition(_, _, _) => 1
    case Paren(inner) => Comparisons(inner)
    case Connect(head, _, rest) => Comparisons(head) + Comparisons(rest)
  }

  /** A where operand is an argument that carries no alias. */
  function OperandAsArg(o: Operand): Arg
    decreases o, 1
  {
    match o
    case OLit(v) => ALit(v)
    case OField(name) => AField(name, None)
    case OCall(index, args) => ACall(index, OperandsAsArgs(args), None)
  }

  function OperandsAsArgs(os: seq<Operand>): (r: seq<Arg>)
    ensures |r| == |os|
    decreases os, 0
  {
    if os == [] then [] else [OperandAsArg(os[0])] + OperandsAsArgs(os[1..])
  }
}
