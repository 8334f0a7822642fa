# sql4csv query evaluator, modelled in Dafny

sql4csv runs SQL-like queries over the rows of a CSV file. A query is read as

`select item, item, ... [where clause]`.

- A select item is one of:
  - `*`;
  - a field reference `$name` or `$name as $alias`;
  - a call `#i(arg, ...) [as $alias]` of the `i`-th caller-supplied function.
- For each input row the evaluator builds an output row, item by item, left to right. A field is looked up in the input row first, then in the output row built so far, and passed through the caster registered for that field name.
- The where clause does two things:
  - compares operands, appending each comparison's truth to a condition text;
  - appends each `and`/`or` keyword to that text.
- The text is then read with the host language's rules: `and` binds tighter than `or`, and parentheses in the query leave no trace.
- A row is kept when its output row is non-empty and the condition text is empty or true.
- `query` returns the kept rows as a list. `lazy_query` yields the same rows one at a time.

The model has three layers.

- **Lexical rules** (module `Lexical`). These are:
  - the field-name rule, with a longest-match recogniser;
  - operator normalisation;
  - keyword case rules;
  - the int and real literal rules.
- **Specification functions.**
  - Module `Values` holds the values, and comparison under Python 2 rules.
  - Module `Syntax` holds the parsed query.
  - Module `Conditions` holds the condition text and its truth.
  - Module `Evaluation` holds the evaluation of one row.
  - Module `QueryRun` holds the query over a sequence of rows.
  - Module `RowFacts` holds the frame and shape lemmas about one row.
- **The evaluator object** (module `Engine`).
  - `Sql4Csv` keeps `rowIn`, `rowOut`, `conditions` and `funs` as fields, and mutates them the way the parse actions do.
  - `LazyQuery` is the generator as a pull-based cursor.
  - Every method is proved to compute exactly what the specification functions say.

Module `Examples` restates tests 0 to 7 and 10 of the source's own test harness. Tests 0 to 5 are proved on any row with the table's five columns (`Person(fname, lname, gender, age, favNum)`); tests 6, 7 and 10 on any row with the given cast values. Each is also proved over a three-row table whose values the expected outputs imply.

Casters and user functions are arbitrary total functions. They are parameters of the model (`Evaluation.Env`).

The order between a string and a number is not specified by Python 2's rules. It is the parameter `mixedLess`. A string is never equal to a number.

## Model

| member | source | states |
|---|---|---|
| Lexical.MatchFieldName | novacode.py:13 | the longest-match recogniser of a field name: its properties are stated by `MatchFieldNameAccepts` and `MatchFieldNameLongest` |
| Lexical.MatchFieldNameAccepts | novacode.py:13 | a string is accepted whole by the field-name recogniser iff it is non-empty, starts and ends with an alphanumeric, and has only alphanumerics, `_` and `-` |
| Lexical.MatchFieldNameLongest | novacode.py:13 | the recogniser returns the longest prefix that is a field name; no longer prefix is one |
| Lexical.MatchTailSound | novacode.py:13 | after a field-name prefix, the tail loop (separator run then word, repeated) stops at the longest field-name prefix |
| Lexical.JoinWordsIsFieldName | novacode.py:13 | a word followed by any number of (separator run, word) pairs, consecutive separators included, is a field name |
| Lexical.Lower | novacode.py:62 | lower-casing keeps the length and maps each character by ASCII lower case |
| Lexical.LowerIdempotent | novacode.py:62 | lower-casing twice is lower-casing once |
| Lexical.ParseBinaryOp | novacode.py:61-75 | any accepted token (13 spellings, any case) becomes one of `==, !=, <, >, <=, >=`; `=`/`eq`→`==`, `ne`→`!=`, `lt`, `gt`, `le`, `ge` to their symbols; other input comes back lower-cased; canonical input is unchanged |
| Lexical.ParseBinaryOpIdempotent | novacode.py:61-75 | normalising twice gives the same as once |
| Lexical.OperatorOf | novacode.py:25 | a normalised token denotes a comparison exactly when it is one of the six canonical symbols |
| Lexical.OperatorTokenDenotes | novacode.py:25-26 | normalisation yields a comparison iff the token is one of the grammar's operator spellings, and tokens equal up to case normalise alike |
| Lexical.KeywordOf | novacode.py:18 | `as` is a keyword only in exactly that spelling; `select`, `where`, `and`, `or` are keywords in any case |
| Lexical.KeywordCaseInsensitive | novacode.py:48-49 | two tokens equal up to case are the same keyword, unless they spell `as` |
| Lexical.IndexOfAny | novacode.py:29 | the position of the first character from a set, or the length when there is none |
| Lexical.ScanNumber | novacode.py:29-32 | the real rule is tried first: every text it accepts is a real literal of that text; otherwise a text the int rule accepts is, with an exponent, a conversion error and, without one, the int of its sign times the decimal value of its digits; any other text is no number. A real has a `.`; an int is signs and digits; a digit string is its decimal value |
| Lexical.SignedDigits | novacode.py:31-32 | a sign followed by digits, leading zeros allowed, is the int of the signed decimal value |
| Lexical.ScanSignedSamples | novacode.py:31-32 | `-007` reads as -7 and `+7` as 7 |
| Lexical.ScanExponentIntSample | novacode.py:31-32 | `1e5` is an int token with an exponent, so its conversion fails |
| Lexical.ScanRealSample | novacode.py:29-30 | `1.5e-3` is accepted by the real rule and reads as the real literal of that text |
| Lexical.ScanNegativeExponentSample | novacode.py:29-31 | `1e-5` is no number: it has no `.`, so the real rule refuses it, and the int rule allows no sign on its exponent |
| Lexical.RealTextHasDot | novacode.py:29 | every text the real rule accepts contains `.` |
| Lexical.IntTextChars | novacode.py:31 | a text the int rule accepts has no `.`; with an exponent it has `e` or `E`, without one it is only digits and signs |
| Lexical.DigitsAreInt | novacode.py:29-31 | a plain digit string is accepted by the int rule and not by the real rule |
| Lexical.ShowNat | novacode.py:31 | the printed form of a natural number is a non-empty digit string |
| Lexical.DecimalValueShowNat | novacode.py:31 | reading back the printed form of a natural number gives the number |
| Lexical.ScanNumberShowInt | novacode.py:31-32 | every integer, printed with an optional sign, is read back as an int literal of the same value |
| Values.Compare | novacode.py:81-93 | the six comparisons under Python 2's rules: equality only between values of one kind, numbers compared numerically, strings lexicographically, and a string against a number by `mixedLess`; `CompareTotalOrder` and `CompareLtTransitive` state the order it gives |
| Values.LexLessIrreflexive | novacode.py:90 | no string is ordered before itself |
| Values.LexLessTrichotomy | novacode.py:90 | of two different strings exactly one is ordered before the other |
| Values.LexLessTransitive | novacode.py:90 | string order is transitive |
| Values.CompareTotalOrder | novacode.py:90 | on two strings or two numbers exactly one of `<`, `==`, `>` holds; `<=` is not `>`, `>=` is not `<`; `!=` is not `==` |
| Values.CompareLtTransitive | novacode.py:90 | `<` on values of one kind is transitive |
| Syntax.OperandsAsArgs | novacode.py:40 | a where operand list becomes an argument list of the same length |
| Evaluation.ResolveField | novacode.py:127-199 | fails (field not found) iff the name is in neither row; the value comes from the input row first, else the output row, cast by the caster of the source name; with an alias it writes just the alias; without one it writes the name at the top level and nothing inside a function or where operand |
| Evaluation.ApplyFunction | novacode.py:102-124 | fails iff the index is beyond the function list; the value is that function applied to the arguments; with an alias it writes only the alias, else nothing |
| Evaluation.EvalArg | novacode.py:35 | a function argument: a literal is its own value, a field is resolved without writing its name, a call evaluates its arguments first; what it writes is stated by `RowFacts.ArgWrites`, how it fails by `RowFacts.NoMalformedArg` |
| Evaluation.EvalArgs | novacode.py:35 | an argument list that evaluates gives one value per argument; `RowFacts.EvalArgsConcat` and `RowFacts.EachArgSeesEarlier` state the left-to-right order and what each argument sees |
| Evaluation.EvalOperand | novacode.py:40 | a where operand: resolved like an alias-free argument and never written, as `RowFacts.OperandAgrees` states |
| Evaluation.EvalOperands | novacode.py:40 | a where operand list that evaluates gives one value per operand |
| Evaluation.StarRow | novacode.py:96-99 | the keys are those of the input row plus the old ones; every input field has its raw value; other entries are unchanged |
| Evaluation.EvalItem | novacode.py:55 | one select item on the output row built so far: `*`, a field or a call; its keys are stated by `RowFacts.ItemsKeys` |
| Evaluation.EvalItems | novacode.py:55 | the select list, item by item, left to right, each item seeing what the earlier ones wrote; `RowFacts.ItemsKeys` and `RowFacts.NoMalformedItems` state its keys and its failures |
| Evaluation.AlternatingJoin | novacode.py:53 | joining two well-formed condition texts with a connective gives a well-formed text |
| Evaluation.WhereAtoms | novacode.py:52-53 | the condition text of a clause alternates booleans and connectives and holds one boolean per comparison |
| Evaluation.Decide | novacode.py:213 | a row is kept iff its output row is non-empty and the condition text is empty or true; the kept row is the output row; only a text of the wrong shape is an error |
| Evaluation.QueryAtoms | novacode.py:55 | without a where clause the condition text is empty; with one it is well-formed |
| Conditions.Truth | novacode.py:213 | the value Python's `eval` gives a condition text: `and` binds tighter than `or`; `TruthDefined`, `TruthOrSplit` and `TruthAndChain` state it |
| Conditions.ChainDefined | novacode.py:213 | the left-to-right reading of the text after its first boolean succeeds iff it is connective/boolean pairs |
| Conditions.TruthDefined | novacode.py:213 | the condition text has a truth value iff it alternates booleans and connectives with odd length |
| Conditions.ChainFactorsDisj | novacode.py:213 | the or of closed chains can be taken out of the reading |
| Conditions.ChainOrSplit | novacode.py:213 | an `or` in the middle splits the reading into the or of both sides |
| Conditions.TruthOrSplit | novacode.py:213 | `x or y` is true iff `x` is true or `y` is true, for any well-formed texts `x` and `y`: `and` binds tighter than `or` |
| Conditions.ChainAndOnly | novacode.py:213 | a reading with only `and` connectives is the and of its booleans |
| Conditions.TruthAndChain | novacode.py:213 | a text with only `and` connectives is true iff all its booleans are true |
| Evaluation.RowStep | novacode.py:208-214 | one input row: the select list from an empty output row, then the where clause on the row it built, then the decision; `RowFacts.RowColumns`, `RowFacts.RowStepNeverMalformed` and the examples state what it gives |
| RowFacts.WrittenTrans | novacode.py:211 | the entries written by two evaluations one after the other are those written by either |
| RowFacts.ArgWrites | novacode.py:35 | a function argument changes the output row only at its own aliases and those of its nested arguments |
| RowFacts.ArgsWrites | novacode.py:35 | an argument list changes the output row only at the aliases in it |
| RowFacts.EvalArgsConcat | novacode.py:113-115 | arguments are evaluated in textual order: a list split in two is its first part, then its second part from the output row the first part left, with the values concatenated and the first failure winning |
| RowFacts.EachArgSeesEarlier | novacode.py:35 | argument `i` is evaluated against the output row its predecessors left and gives the `i`-th value |
| RowFacts.AliasReadByNextArg | novacode.py:35 | in `#f($a as $b, $b)`, with `b` not an input field, the second argument reads the value the first wrote under `b` |
| RowFacts.ArgWithoutAliasesKeepsRow | novacode.py:118-124 | an argument with no alias anywhere leaves the output row unchanged |
| RowFacts.ArgsWithoutAliases | novacode.py:113-115 | an alias-free argument list leaves the output row unchanged and each value is that argument's value on its own |
| RowFacts.OperandAgrees | novacode.py:15-16 | a where operand evaluates as the same expression would as an alias-free function argument, and writes nothing |
| RowFacts.OperandsAgree | novacode.py:40 | a where operand list agrees with the same list as alias-free arguments |
| RowFacts.ItemsKeys | novacode.py:55 | the select list adds exactly the keys its items write (input fields for `*`, names or aliases for fields, aliases for calls) |
| RowFacts.RowColumns | novacode.py:209-214 | a kept row's columns are exactly the keys its select list writes, starting from an empty output row |
| RowFacts.RowStepNeverMalformed | novacode.py:213 | every condition text the evaluator builds is well formed, so the text is never a syntax error |
| RowFacts.NoMalformedArg | novacode.py:102-124 | argument evaluation fails only by a missing field or function |
| RowFacts.NoMalformedArgs | novacode.py:113-115 | argument list evaluation fails only by a missing field or function |
| RowFacts.NoMalformedItems | novacode.py:55 | the select list fails only by a missing field or function |
| RowFacts.NoMalformedWhere | novacode.py:52-53 | the where clause fails only by a missing field or function |
| RowFacts.NoShortCircuit | novacode.py:53 | the rest of a clause is evaluated whatever its head gives: a failing rest fails the clause |
| RowFacts.ParenthesesIgnored | novacode.py:52 | `(1 = 1 or 1 = 2) and 1 = 2` is true: parentheses append nothing, so the text reads as `1=1 or (1=2 and 1=2)` |
| QueryRun.QueryResult | novacode.py:202-215 | the query over the rows read so far, row by row from a fresh output row; `QueryConcat`, `QuerySplitAt`, `QueryBounds` and `QueryFails` state its properties |
| QueryRun.QueryAppendRow | novacode.py:208-214 | one more row extends the result by that row's own output |
| QueryRun.QueryStep | novacode.py:208-214 | reading one more row either fails the whole query with that row's error or extends the result by the row's output |
| QueryRun.ThenConcat | novacode.py:214 | extending a joined result is extending its second part |
| QueryRun.QueryConcat | novacode.py:208-209 | the query over two stretches of rows is the two queries joined: nothing carries over from one row to the next |
| QueryRun.QuerySingle | novacode.py:209-214 | one row alone gives its own output or failure |
| QueryRun.QuerySplitAt | novacode.py:208-215 | row `i`'s output sits between the outputs of the rows before and after it, so input order is kept |
| QueryRun.QueryBounds | novacode.py:213-214 | at most one output per input row, and no output row is empty |
| QueryRun.QueryFails | novacode.py:208-215 | the query fails iff some row fails, with the error of the first failing row |
| QueryRun.QueryFailurePersists | novacode.py:208-215 | after a failure, later rows change nothing |
| Engine.Sql4Csv.constructor | novacode.py:6-9 | a new evaluator has the given casters, no functions and empty rows and condition text |
| Engine.Sql4Csv.ParseAndOr | novacode.py:77-79 | appends the connective to the condition text, nothing else |
| Engine.Sql4Csv.ParseCondition | novacode.py:81-93 | appends the truth of the comparison to the condition text, nothing else |
| Engine.Sql4Csv.ParseStar | novacode.py:96-99 | the loop over the input keys leaves the output row equal to `StarRow` of the input and old output rows |
| Engine.Sql4Csv.ParseFieldAs | novacode.py:127-199 | the branches (input row / output row, inside / outside a function, with / without an alias) compute exactly `ResolveField`; a failure leaves the row unchanged |
| Engine.Sql4Csv.ParseFunction | novacode.py:102-124 | computes exactly `ApplyFunction`; without an alias or on failure the row is unchanged |
| Engine.Sql4Csv.EvalArg | novacode.py:35 | evaluates a function argument as `EvalArg` says, nested calls first |
| Engine.Sql4Csv.EvalArgs | novacode.py:113-115 | the loop over the arguments computes `EvalArgs`, left to right |
| Engine.Sql4Csv.EvalOperand | novacode.py:40 | evaluates a where operand as `EvalOperand` says and leaves the row unchanged |
| Engine.Sql4Csv.EvalOperands | novacode.py:40 | the loop over the operands computes `EvalOperands` and leaves the row unchanged |
| Engine.Sql4Csv.EvalWhere | novacode.py:52-53 | appends exactly `WhereAtoms` to the condition text, or fails with its error, and leaves the row unchanged |
| Engine.Sql4Csv.EvalItem | novacode.py:55 | one select item computes `EvalItem` |
| Engine.Sql4Csv.EvalItems | novacode.py:55 | the loop over the select list computes `EvalItems` |
| Engine.Sql4Csv.ProcessRow | novacode.py:208-214 | a fresh output row and condition text, the select list, the where clause, the decision: the result is exactly `RowStep`; `rowIn` is the row; when the row does not fail, `rowOut` is what the select list wrote (`EvalItems` from an empty row) and `conditions` is the where clause's text (`QueryAtoms`), and a kept row is `rowOut` itself |
| Engine.Sql4Csv.Query | novacode.py:202-215 | the loop over the rows returns exactly `QueryResult` |
| Engine.LazyQuery.constructor | novacode.py:218-221 | a cursor at the first row that has yielded nothing |
| Engine.LazyQuery.ReadRow | novacode.py:223-228 | reads the row at the cursor and moves past it: its outcome is `RowStep`; a failing row fails the whole query with its error, any other extends the result over the rows read by its output |
| Engine.LazyQuery.Next | novacode.py:223-229 | each pull reads rows until one is kept and yields it; at the end it yields nothing; what has been yielded is always the query's result over the rows read |
| Engine.LazyQuery.Drain | novacode.py:218-229 | pulling to the end yields the rest of the query's result, or its failure |
| Engine.LazyMatchesEager | novacode.py:202-229 | the lazy query pulled to its end gives what the eager query gives |
| Examples.SelectTwoFields | novacode.py:240-242 | test 0 on any row: `select $fname, $lname` keeps just those two columns |
| Examples.Test0Table | novacode.py:240-242 | test 0 over the table gives its expected three rows |
| Examples.SelectAliased | novacode.py:244-246 | test 1 on any row: aliased fields write only the aliases |
| Examples.Test1Table | novacode.py:244-246 | test 1 over the table gives its expected three rows |
| Examples.CallOfTwoFields | novacode.py:248-250 | `#0($a, $b) as $out` writes only `out`, with the function applied to the cast arguments |
| Examples.SelectFunction | novacode.py:248-250 | test 2 on any row: `select #0($fname, $lname) as $fullname` keeps only `fullname`, the two names joined by a space |
| Examples.Test2Table | novacode.py:248-250 | test 2 over the table gives the three full names in order |
| Examples.SelectFieldsAndFunction | novacode.py:252-254 | test 3 on any row: both names and the full name, the call reading the input fields |
| Examples.Test3Table | novacode.py:252-254 | test 3 over the table gives its expected three rows |
| Examples.SelectFunctionAliasedArgs | novacode.py:256-258 | test 4 on any row: aliased arguments inside a call are written as well, giving test 3's row |
| Examples.Test4Table | novacode.py:256-258 | test 4 over the table gives the same three rows as test 3 |
| Examples.FunctionSeesText | novacode.py:260-262 | test 5 on any row: without casters the function sees the two texts and joins them |
| Examples.Test5Table | novacode.py:260-262 | test 5 over the table gives the joined texts `21` `3.1415`, `31` `5` and `21` `2.7182`, that is `213.1415`, `315` and `212.7182` |
| Examples.AgeCasterDigits | novacode.py:264 | the `int` caster reads every digit string, leading zeros included, as its decimal value |
| Examples.AgeCasterSigned | novacode.py:264 | the `int` caster reads a sign followed by digits as the signed value |
| Examples.AgeCasterRefusesDot | novacode.py:264 | the `int` caster converts no text that contains a `.` |
| Examples.AgeCasterTwoDigits | novacode.py:264 | a two-digit text is cast to ten times its first digit plus its second |
| Examples.TableAges | novacode.py:264 | the texts `21`, `23` and `31` are cast to the numbers 21, 23 and 31 |
| Examples.FunctionSeesCasts | novacode.py:264-268 | test 6 on a row: with `int` and `float` casters the function sees an int and a float, and the result is their sum |
| Examples.Test6Table | novacode.py:264-268 | test 6 over the table gives the sums 21 + 3.1415, 31 + 5.0 and 21 + 2.7182 |
| Examples.SelectMissingFunction | novacode.py:117 | an index beyond the function list fails |
| Examples.SelectMissingField | novacode.py:165-167 | a field in neither row fails |
| Examples.SelectReadsOutputRow | novacode.py:133-134 | `select $fname as $a, $a as $b` resolves `$a` through the output row |
| Examples.StarWhereTyped | novacode.py:270-272 | test 7 on a row: `select * where $age = 21` with an int caster keeps a row, as `*` copied it uncast, iff its age is 21 |
| Examples.Test7Table | novacode.py:270-272 | test 7 over the table keeps the first and the last row |
| Examples.StarWhereUntyped | novacode.py:90 | without a caster, a text field never equals a number, so nothing is kept |
| Examples.Test10Row | novacode.py:282-284 | `($age = 21) or ($age = 23) and $fav_num > 2` keeps a row iff age is 21, or age is 23 and fav_num is over 2 |
| Examples.Test10Aged23 | novacode.py:282-284 | a row aged `23` with favourite number `5` is kept by the second condition alone |
| Examples.Test10Table | novacode.py:282-284 | over the three-row table that query keeps the two rows aged 21, in order |

## Left out

- The CSV file access is I/O, so the input rows are a parameter. Reading the file with `csv.DictReader` is not modelled; a row is a map from column name to value.
- The pyparsing engine is not modelled. The model starts from the parsed query as a datatype. Three things therefore go unmodelled:
  - parse actions firing on a branch that later backtracks;
  - the query being re-parsed for each row;
  - whitespace handling between tokens.

  The lexical rules are stated on their own.
- Python's `eval` is modelled only as much as the core needs:
  - a comparison is the predicate `Values.Compare`;
  - the condition text is a sequence of booleans and connectives read by `Conditions.Truth`.

  The literal text that `eval` parses is not modelled.
- Comparisons between a string and a number:
  - equality is always false;
  - the order is Python 2's cross-type order, left as the parameter `mixedLess`.

  No string is converted to a number. This follows the code, which compares the two values themselves.
- Floating point is not modelled:
  - `Real` values are mathematical reals;
  - a real literal is recognised (`Lexical.ScanNumber` returns its text) but its conversion to a float is not modelled;
  - a parsed query holds values, not literal text.
- The `float` caster of the examples (`Examples.FavCaster`) is a table over the three favourite numbers, because real literals are not converted to values. The `int` caster (`Examples.AgeCaster`) is defined through `Lexical.ScanNumber` and reads every integer text.
- Casters and user functions are total. The exceptions a Python caster or function may raise (a wrong argument count, a bad conversion) are not modelled.
- A quoted string literal keeps its quote characters, because pyparsing's `quotedString` does not strip them. In the model a string literal is just a `Str` value in the parsed query.
- Lazy evaluation is modelled only as the order of yielded results. `lazy_query` keeps evaluating with the evaluator's shared fields, and interleaving two generators over one object is not modelled. The file handle's lifetime is not modelled.
- `join` is a stub that returns the object and has an invalid signature, so it is not modelled.
- The `__main__` harness depends on a data file that is not part of this model. Its queries are restated in module `Examples`, over a three-row table with the values its expected outputs imply.
  - The query strings of tests 8 and 9 are not restated. Test 8 carries its function list inside the query text. Test 9 calls one-argument functions with no arguments.
- setup.py is packaging only and is not part of this model.
- The where clause is read as flat text. The grammar nests each connective's right side (novacode.py:53), but the code never uses that grouping. It appends a flat text that the host's `eval` reads (novacode.py:213), where `and` binds tighter than `or` and parentheses have no effect. The model follows that flat text (`RowFacts.ParenthesesIgnored`, `Examples.Test10Row`).
- Engine.Sql4Csv.ParseFieldAs: when a field is missing the source raises an exception. The model returns `Err(FieldNotFound)` and leaves the output row as it was. A function index beyond the list (an `IndexError`) likewise becomes `Err(FunctionIndexOutOfRange)`.
- Engine.Sql4Csv.ProcessRow: on a failing row, the output row and condition text it leaves (whatever was written before the failure) are not stated. The failure ends the query, and nothing reads those fields afterwards.
- Engine.Sql4Csv.Query: the `rowIn`, `rowOut` and `conditions` it leaves after the last row are not stated. They are scratch state that the next query resets.
