/** Values held in rows and produced by expressions, the errors the
    evaluator can raise, and the comparison that the where clause applies. */
module Values {

  /** A cell or expression value. `Real` stands for a host float; its
      arithmetic is never used here, only its numeric order. */
  datatype Value = Str(s: string) | Int(i: int) | Real(r: real)

  /** The six canonical comparison operators. */
  datatype CompareOp = Eq | Ne | Lt | Gt | Le | Ge

  /** The failures the evaluator can raise; any of them aborts the query. */
  datatype Error =
    | FieldNotFound(name: string)
    | FunctionIndexOutOfRange(index: nat, count: nat)
    | MalformedConditions

  datatype Option<T> = None | Some(value: T)

  datatype Result<T> = Ok(value: T) | Err(error: Error)

  /** A row: column name to value. */
  type Row = map<string, Value>

  predicate IsNumber(v: Value) {
    v.Int? || v.Real?
  }

  function AsReal(v: Value): real
    requires IsNumber(v)
  {
    if v.Int? then v.i as real else v.r
  }

  /** Two values the host orders natively: both strings or both numbers. */
  predicate SameKind(a: Value, b: Value) {
    (a.Str? && b.Str?) || (IsNumber(a) && IsNumber(b))
  }

  /** Byte-string order: the first differing character decides, and a
      proper prefix is smaller. */
  predicate LexLess(a: string, b: string)
    decreases |a|
  {
    if |a| == 0 then |b| > 0
    else if |b| == 0 then false
    else if a[0] == b[0] then LexLess(a[1..], b[1..])
    else a[0] < b[0]
  }

  lemma {:induction false} LexLessIrreflexive(a: string)
    ensures !LexLess(a, a)
    decreases |a|
  {
    if |a| > 0 {
      LexLessIrreflexive(a[1..]);
    }
  }

  /** Exactly one of a < b, a == b, b < a holds for strings. */
  lemma {:induction false} LexLessTrichotomy(a: string, b: string)
    ensures LexLess(a, b) || a == b || LexLess(b, a)
    ensures !(LexLess(a, b) && LexLess(b, a))
    ensures LexLess(a, b) ==> a != b
    decreases |a|
  {
    if |a| > 0 && |b| > 0 && a[0] == b[0] {
      LexLessTrichotomy(a[1..], b[1..]);
      if a[1..] == b[1..] {
        assert a == [a[0]] + a[1..] && b == [b[0]] + b[1..];
      }
    }
    if a == b {
      LexLessIrreflexive(a);
    }
  }

  lemma {:induction false} LexLessTransitive(a: string, b: string, c: string)
    requires LexLess(a, b) && LexLess(b, c)
    ensures LexLess(a, c)
    decreases |a|
  {
    if |a| > 0 && |b| > 0 && |c| > 0 && a[0] == b[0] && b[0] == c[0] {
      LexLessTransitive(a[1..], b[1..], c[1..]);
    }
  }

  /** Equality as the host's `==` sees it: numbers by value (an int equals
      the float with the same value), strings by contents, a string never
      equals a number. */
  predicate Same(a: Value, b: Value) {
    if IsNumber(a) && IsNumber(b) then AsReal(a) == AsReal(b)
    else a == b
  }

  /** Strict order: numbers numerically, strings lexicographically; the
      order between a string and a number is the host's own and is left to
      the caller (`mixedLess`). */
  predicate Less(a: Value, b: Value, mixedLess: (Value, Value) -> bool) {
    if IsNumber(a) && IsNumber(b) then AsReal(a) < AsReal(b)
    else if a.Str? && b.Str? then LexLess(a.s, b.s)
    else mixedLess(a, b)
  }

  /** The truth of `a op b`. */
  predicate Compare(op: CompareOp, a: Value, b: Value, mixedLess: (Value, Value) -> bool) {
    match op
    case Eq => Same(a, b)
    case Ne => !Same(a, b)
    case Lt => Less(a, b, mixedLess)
    case Gt => Less(b, a, mixedLess)
    case Le => Less(a, b, mixedLess) || Same(a, b)
    case Ge => Less(b, a, mixedLess) || Same(a, b)
  }

  /** On values of one kind the six operators behave as a total order:
      exactly one of <, ==, > holds, `<=` is the negation of `>`, `>=` of
      `<`, and `!=` of `==` (the last one for values of any kinds). */
  lemma CompareTotalOrder(a: Value, b: Value, mixedLess: (Value, Value) -> bool)
    requires SameKind(a, b)
    ensures Compare(Lt, a, b, mixedLess) || Compare(Eq, a, b, mixedLess) || Compare(Gt, a, b, mixedLess)
    ensures !(Compare(Lt, a, b, mixedLess) && Compare(Gt, a, b, mixedLess))
    ensures !(Compare(Lt, a, b, mixedLess) && Compare(Eq, a, b, mixedLess))
    ensures Compare(Le, a, b, mixedLess) == !Compare(Gt, a, b, mixedLess)
    ensures Compare(Ge, a, b, mixedLess) == !Compare(Lt, a, b, mixedLess)
    ensures Compare(Ne, a, b, mixedLess) == !Compare(Eq, a, b, mixedLess)
    ensures Compare(Lt, a, b, mixedLess) == Compare(Gt, b, a, mixedLess)
  {
    if a.Str? && b.Str? {
      LexLessTrichotomy(a.s, b.s);
    }
  }

  /** Strings compare by the lexicographic order, which is transitive. */
  lemma CompareLtTransitive(a: Value, b: Value, c: Value, mixedLess: (Value, Value) -> bool)
    requires SameKind(a, b) && SameKind(b, c)
    requires Compare(Lt, a, b, mixedLess) && Compare(Lt, b, c, mixedLess)
    ensures Compare(Lt, a, c, mixedLess)
  {
    if a.Str? {
      LexLessTransitive(a.s, b.s, c.s);
    }
  }
}
