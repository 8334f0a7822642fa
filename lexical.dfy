/** Lexical rules of the query grammar: field names, comparison operators,
    keywords and numeric literals, stated on whole tokens. */
module Lexical {
  import opened Values

  // ---------------------------------------------------------------------
  // Characters

  predicate IsDigit(c: char) { '0' <= c <= '9' }

  /** Letters and digits of the ASCII range, as the grammar's word rule. */
  predicate IsAlnum(c: char) {
    ('a' <= c <= 'z') || ('A' <= c <= 'Z') || IsDigit(c)
  }

  /** The characters allowed between the words of a field name. */
  predicate IsSep(c: char) { c == '_' || c == '-' }

  function LowerChar(c: char): char {
    if 'A' <= c <= 'Z' then (c as int - 'A' as int + 'a' as int) as char else c
  }

  /** ASCII lower-casing, as the host's byte-string `lower`. */
  function Lower(s: string): (r: string)
    ensures |r| == |s|
    ensures forall i :: 0 <= i < |s| ==> r[i] == LowerChar(s[i])
  {
    if s == [] then [] else [LowerChar(s[0])] + Lower(s[1..])
  }

  lemma LowerIdempotent(s: string)
    ensures Lower(Lower(s)) == Lower(s)
  {
  }

  // ---------------------------------------------------------------------
  // Field names: the part after `$`

  /** The shape the grammar admits: one or more alphanumeric runs, joined by
      non-empty runs of `_`/`-`.  Equivalently: non-empty, only alphanumerics
      and separators, starting and ending with an alphanumeric. */
  predicate IsFieldName(s: string) {
    && |s| > 0
    && IsAlnum(s[0])
    && IsAlnum(s[|s| - 1])
    && forall i :: 0 <= i < |s| ==> IsAlnum(s[i]) || IsSep(s[i])
  }

  /** End of the longest run of alphanumerics starting at `i`. */
  function AlnumRun(s: string, i: nat): (j: nat)
    requires i <= |s|
    ensures i <= j <= |s|
    ensures forall k :: i <= k < j ==> IsAlnum(s[k])
    ensures j == |s| || !IsAlnum(s[j])
    decreases |s| - i
  {
    if i < |s| && IsAlnum(s[i]) then AlnumRun(s, i + 1) else i
  }

  /** End of the longest run of separators starting at `i`. */
  function SepRun(s: string, i: nat): (j: nat)
    requires i <= |s|
    ensures i <= j <= |s|
    ensures forall k :: i <= k < j ==> IsSep(s[k])
    ensures j == |s| || !IsSep(s[j])
    decreases |s| - i
  {
    if i < |s| && IsSep(s[i]) then SepRun(s, i + 1) else i
  }

  /** The greedy repetition `(sep+ word)*` after a word that ends at `i`:
      a separator run followed by a word extends the match, anything else
      stops it where it was. */
  function MatchTail(s: string, i: nat): nat
    requires i <= |s|
    decreases |s| - i
  {
    var j := SepRun(s, i);
    if i < j < |s| && IsAlnum(s[j]) then MatchTail(s, AlnumRun(s, j)) else i
  }

  /** Length of the field name the grammar reads at the start of `s`
      (0 when `s` does not start with an alphanumeric). */
  function MatchFieldName(s: string): nat {
    if |s| > 0 && IsAlnum(s[0]) then MatchTail(s, AlnumRun(s, 0)) else 0
  }

  lemma {:induction false} MatchTailSound(s: string, i: nat)
    requires 0 < i <= |s|
    requires IsFieldName(s[..i])
    requires i == |s| || !IsAlnum(s[i])
    ensures i <= MatchTail(s, i) <= |s|
    ensures IsFieldName(s[..MatchTail(s, i)])
    ensures forall j :: MatchTail(s, i) < j <= |s| ==> !IsFieldName(s[..j])
    decreases |s| - i
  {
    var j := SepRun(s, i);
    if i < j < |s| && IsAlnum(s[j]) {
      var k := AlnumRun(s, j);
      assert IsFieldName(s[..k]) by {
        forall m | 0 <= m < k ensures IsAlnum(s[..k][m]) || IsSep(s[..k][m]) {
          if m < i { assert s[..k][m] == s[..i][m]; }
        }
      }
      MatchTailSound(s, k);
    } else {
      forall n | i < n <= |s| ensures !IsFieldName(s[..n]) {
        if n <= j {
          assert !IsAlnum(s[..n][n - 1]);
        } else {
          assert s[..n][j] == s[j];
        }
      }
    }
  }

  /** The recogniser reads exactly the longest prefix that is a field name. */
  lemma MatchFieldNameLongest(s: string)
    ensures MatchFieldName(s) <= |s|
    ensures MatchFieldName(s) == 0 || IsFieldName(s[..MatchFieldName(s)])
    ensures forall j :: MatchFieldName(s) < j <= |s| ==> !IsFieldName(s[..j])
  {
    if |s| > 0 && IsAlnum(s[0]) {
      var i := AlnumRun(s, 0);
      assert IsFieldName(s[..i]);
      MatchTailSound(s, i);
    } else {
      forall j | 0 < j <= |s| ensures !IsFieldName(s[..j]) {
        assert s[..j][0] == s[0];
      }
    }
  }

  /** A whole token is accepted as a field name iff the recogniser reads all
      of it. */
  lemma MatchFieldNameAccepts(s: string)
    ensures IsFieldName(s) <==> |s| > 0 && MatchFieldName(s) == |s|
  {
    MatchFieldNameLongest(s);
    assert s[..|s|] == s;
  }

  /** Words joined by separator runs, the way the grammar builds a name. */
  function JoinWords(first: string, rest: seq<(string, string)>): string
    decreases |rest|
  {
    if rest == [] then first
    else JoinWords(first + rest[0].0 + rest[0].1, rest[1..])
  }

  predicate IsWord(w: string) { |w| > 0 && forall i :: 0 <= i < |w| ==> IsAlnum(w[i]) }
  predicate IsSepRun(w: string) { |w| > 0 && forall i :: 0 <= i < |w| ==> IsSep(w[i]) }

  /** Every name built by the grammar (a word, then any number of separator
      runs each followed by a word) is a field name. */
  lemma {:induction false} JoinWordsIsFieldName(first: string, rest: seq<(string, string)>)
    requires IsFieldName(first)
    requires forall k :: 0 <= k < |rest| ==> IsSepRun(rest[k].0) && IsWord(rest[k].1)
    ensures IsFieldName(JoinWords(first, rest))
    decreases |rest|
  {
    if rest != [] {
      var next := first + rest[0].0 + rest[0].1;
      assert next[|next| - 1] == rest[0].1[|rest[0].1| - 1];
      forall i | 0 <= i < |next| ensures IsAlnum(next[i]) || IsSep(next[i]) {
        if i < |first| {
          assert next[i] == first[i];
        } else if i < |first| + |rest[0].0| {
          assert next[i] == rest[0].0[i - |first|];
        } else {
          assert next[i] == rest[0].1[i - |first| - |rest[0].0|];
        }
      }
      JoinWordsIsFieldName(next, rest[1..]);
    }
  }

  // ---------------------------------------------------------------------
  // Comparison operators

  /** The tokens the grammar accepts as operators (matched without regard
      to case). */
  predicate IsOperatorToken(t: string) {
    Lower(t) in {"==", "=", "!=", "<", ">", ">=", "<=", "eq", "ne", "lt", "le", "gt", "ge"}
  }

  predicate IsCanonicalOperator(t: string) {
    t in {"==", "!=", "<", ">", "<=", ">="}
  }

  /** Normalisation of an operator token: lower-case it, then replace each
      word form and the single `=` by its symbol; anything else is kept. */
  function ParseBinaryOp(t: string): (r: string)
    ensures IsOperatorToken(t) ==> IsCanonicalOperator(r)
    ensures Lower(t) in {"=", "eq"} ==> r == "=="
    ensures Lower(t) == "ne" ==> r == "!="
    ensures Lower(t) == "lt" ==> r == "<"
    ensures Lower(t) == "gt" ==> r == ">"
    ensures Lower(t) == "le" ==> r == "<="
    ensures Lower(t) == "ge" ==> r == ">="
    ensures Lower(t) !in {"=", "eq", "ne", "lt", "gt", "le", "ge"} ==> r == Lower(t)
    ensures IsCanonicalOperator(t) ==> r == t
  {
    var bo := Lower(t);
    if bo in {"=", "eq"} then "=="
    else if bo == "ne" then "!="
    else if bo == "lt" then "<"
    else if bo == "gt" then ">"
    else if bo == "le" then "<="
    else if bo == "ge" then ">="
    else bo
  }

  /** Normalising twice is normalising once, for every token. */
  lemma ParseBinaryOpIdempotent(t: string)
    ensures ParseBinaryOp(ParseBinaryOp(t)) == ParseBinaryOp(t)
  {
    LowerIdempotent(t);
  }

  /** The operator a canonical symbol denotes. */
  function OperatorOf(t: string): (r: Option<CompareOp>)
    ensures r.Some? <==> IsCanonicalOperator(t)
  {
    match t
    case "==" => Some(Eq)
    case "!=" => Some(Ne)
    case "<" => Some(Lt)
    case ">" => Some(Gt)
    case "<=" => Some(Le)
    case ">=" => Some(Ge)
    case _ => None
  }

  /** An operator token denotes an operator exactly when the grammar accepts
      it, and tokens equal up to case denote the same operator. */
  lemma OperatorTokenDenotes(t: string, u: string)
    ensures OperatorOf(ParseBinaryOp(t)).Some? <==> IsOperatorToken(t)
    ensures Lower(t) == Lower(u) ==> ParseBinaryOp(t) == ParseBinaryOp(u)
  {
  }

  // ---------------------------------------------------------------------
  // Keywords

  datatype Keyword = Select | Where | And | Or | As

  /** `select`, `where`, `and` and `or` are read without regard to case;
      `as` only in lower case. */
  function KeywordOf(t: string): (r: Option<Keyword>)
    ensures r == Some(As) <==> t == "as"
    ensures r == Some(Select) <==> Lower(t) == "select"
    ensures r == Some(Where) <==> Lower(t) == "where"
    ensures r == Some(And) <==> Lower(t) == "and"
    ensures r == Some(Or) <==> Lower(t) == "or"
  {
    var l := Lower(t);
    if t == "as" then Some(As)
    else if l == "select" then Some(Select)
    else if l == "where" then Some(Where)
    else if l == "and" then Some(And)
    else if l == "or" then Some(Or)
    else None
  }

  /** Two spellings equal up to case are the same keyword, except for `as`. */
  lemma KeywordCaseInsensitive(t: string, u: string)
    requires Lower(t) == Lower(u)
    requires Lower(t) != "as"
    ensures KeywordOf(t) == KeywordOf(u)
  {
  }

  // ---------------------------------------------------------------------
  // Numeric literals

  predicate AllDigits(s: string) { forall i :: 0 <= i < |s| ==> IsDigit(s[i]) }

  predicate IsDigits(s: string) { |s| > 0 && AllDigits(s) }

  /** First index of one of `cs` in `s`, or `|s|`. */
  function IndexOfAny(s: string, cs: set<char>): (k: nat)
    ensures k <= |s|
    ensures forall i :: 0 <= i < k ==> s[i] !in cs
    ensures k < |s| ==> s[k] in cs
  {
    if s == [] then 0
    else if s[0] in cs then 0
    else 1 + IndexOfAny(s[1..], cs)
  }

  function Unsigned(t: string): string {
    if |t| > 0 && t[0] in {'+', '-'} then t[1..] else t
  }

  /** An exponent part: `E` in either case, an optional sign from `signs`,
      digits. */
  predicate IsExponent(x: string, signs: set<char>) {
    && |x| > 1
    && x[0] in {'e', 'E'}
    && (if x[1] in signs then IsDigits(x[2..]) else IsDigits(x[1..]))
  }

  /** The mantissa of a real: `digits . [digits]` or `. digits`. */
  predicate IsMantissa(m: string) {
    var d := IndexOfAny(m, {'.'});
    && d < |m|
    && AllDigits(m[..d])
    && AllDigits(m[d + 1..])
    && (d > 0 || d + 1 < |m|)
  }

  /** The real-number rule: optional sign, mantissa, optional signed
      exponent. */
  predicate IsRealText(t: string) {
    var u := Unsigned(t);
    var k := IndexOfAny(u, {'e', 'E'});
    && IsMantissa(u[..k])
    && (k == |u| || IsExponent(u[k..], {'+', '-'}))
  }

  /** The integer rule: optional sign, digits, optional exponent whose only
      sign may be `+`. */
  predicate IsIntText(t: string) {
    var u := Unsigned(t);
    var k := IndexOfAny(u, {'e', 'E'});
    && IsDigits(u[..k])
    && (k == |u| || IsExponent(u[k..], {'+'}))
  }

  function DigitValue(c: char): nat
    requires IsDigit(c)
  {
    c as int - '0' as int
  }

  /** The value of a decimal digit string, most significant digit first. */
  function DecimalValue(s: string): nat
    requires AllDigits(s)
    decreases |s|
  {
    if s == [] then 0 else DecimalValue(s[..|s| - 1]) * 10 + DigitValue(s[|s| - 1])
  }

  /** What a numeric token becomes. The real rule is tried first; an
      integer token with an exponent is handed to the host's integer
      conversion, which refuses it. */
  datatype NumberLiteral =
    | NotANumber
    | IntLiteral(value: int)
    | RealLiteral(text: string)
    | IntConversionError(text: string)

  /** The sign a leading `-` gives; a leading `+` or none gives 1. */
  function SignOf(t: string): int {
    if |t| > 0 && t[0] == '-' then -1 else 1
  }

  /** A numeric token read as a whole: a real when the real rule accepts
      it, else an int when the int rule does (an exponent making the
      conversion fail), else no number. */
  function ScanNumber(t: string): (r: NumberLiteral)
    ensures r.RealLiteral? ==> '.' in t && r.text == t
    ensures r.IntLiteral? ==> '.' !in t && forall i :: 0 <= i < |t| ==> IsDigit(t[i]) || t[i] in {'+', '-'}
    ensures r.IntConversionError? ==> '.' !in t && ('e' in t || 'E' in t)
    ensures IsDigits(t) ==> r == IntLiteral(DecimalValue(t))
    ensures IsRealText(t) ==> r == RealLiteral(t)
    ensures !IsRealText(t) && IsIntText(t) && IndexOfAny(Unsigned(t), {'e', 'E'}) < |Unsigned(t)| ==>
      r == IntConversionError(t)
    ensures !IsRealText(t) && IsIntText(t) && IndexOfAny(Unsigned(t), {'e', 'E'}) == |Unsigned(t)| ==>
      AllDigits(Unsigned(t)) && r == IntLiteral(SignOf(t) * DecimalValue(Unsigned(t)))
    ensures !IsRealText(t) && !IsIntText(t) ==> r == NotANumber
  {
    var u := Unsigned(t);
    var k := IndexOfAny(u, {'e', 'E'});
    if IsRealText(t) then
      RealTextHasDot(t);
      RealLiteral(t)
    else if IsIntText(t) then
      IntTextChars(t);
      if k < |u| then
        IntConversionError(t)
      else
        assert u[..k] == u;
        IntLiteral(SignOf(t) * DecimalValue(u))
    else
      DigitsAreInt(t);
      NotANumber
  }

  lemma RealTextHasDot(t: string)
    requires IsRealText(t)
    ensures '.' in t
  {
  }

  /** An integer token has no `.`; with an exponent it has an `e` or `E`,
      without one it is a sign and digits. */
  lemma IntTextChars(t: string)
    requires IsIntText(t)
    ensures '.' !in t
    ensures IndexOfAny(Unsigned(t), {'e', 'E'}) < |Unsigned(t)| ==> 'e' in t || 'E' in t
    ensures IndexOfAny(Unsigned(t), {'e', 'E'}) == |Unsigned(t)| ==>
      forall i :: 0 <= i < |t| ==> IsDigit(t[i]) || t[i] in {'+', '-'}
  {
  }

  /** A plain digit string is an integer token and not a real one. */
  lemma DigitsAreInt(t: string)
    ensures IsDigits(t) ==> !IsRealText(t) && IsIntText(t)
  {
  }

  /** Decimal text of a natural number, without sign or leading zeros. */
  function ShowNat(n: nat): (s: string)
    ensures IsDigits(s)
    decreases n
  {
    if n < 10 then [('0' as int + n) as char]
    else ShowNat(n / 10) + [('0' as int + n % 10) as char]
  }

  /** Signed decimal text, as the host prints an integer. */
  function ShowInt(n: int): string {
    if n < 0 then "-" + ShowNat(-n) else ShowNat(n)
  }

  lemma {:induction false} DecimalValueShowNat(n: nat)
    ensures DecimalValue(ShowNat(n)) == n
    decreases n
  {
    var s := ShowNat(n);
    if n >= 10 {
      DecimalValueShowNat(n / 10);
      assert s[..|s| - 1] == ShowNat(n / 10);
    }
  }

  /** A digit string holds no exponent letter and no `.`. */
  lemma DigitsHaveNoMarks(d: string)
    requires IsDigits(d)
    ensures IndexOfAny(d, {'e', 'E'}) == |d| && IndexOfAny(d, {'.'}) == |d|
  {
  }

  /** Every integer printed in decimal is read back as that integer. */
  lemma ScanNumberShowInt(n: int)
    ensures ScanNumber(ShowInt(n)) == IntLiteral(n)
  {
    var t := ShowInt(n);
    var m: nat := if n < 0 then -n else n;
    var digits := ShowNat(m);
    DecimalValueShowNat(m);
    assert Unsigned(t) == digits;
    DigitsHaveNoMarks(digits);
    assert digits[..|digits|] == digits;
    assert !IsRealText(t);
    assert IsIntText(t);
  }
  /** A sign followed by digits, leading zeros allowed, is the signed
      value of the digits. */
  lemma SignedDigits(t: string)
    requires |t| > 1 && t[0] in {'+', '-'} && IsDigits(t[1..])
    ensures ScanNumber(t) == IntLiteral(SignOf(t) * DecimalValue(t[1..]))
  {
    DigitsHaveNoMarks(t[1..]);
    assert t[1..][..|t[1..]|] == t[1..];
  }

  /** A sign and leading zeros are read as the host's `int` reads them. */
  lemma ScanSignedSamples()
    ensures ScanNumber("-007") == IntLiteral(-7)
    ensures ScanNumber("+7") == IntLiteral(7)
  {
    assert "-007"[1..] == "007" && "007"[..2] == "00" && "00"[..1] == "0" && "0"[..0] == [];
    assert DecimalValue("00") == 0;
    assert DecimalValue("007") == 7;
    SignedDigits("-007");
    assert "+7"[1..] == "7" && "7"[..0] == [];
    assert DecimalValue("7") == 7;
    SignedDigits("+7");
  }

  /** An exponent makes an int token fail conversion. */
  lemma ScanExponentIntSample()
    ensures ScanNumber("1e5") == IntConversionError("1e5")
  {
    var t := "1e5";
    assert '.' !in t;
    if IsRealText(t) { RealTextHasDot(t); }
    assert Unsigned(t) == t;
    assert IndexOfAny(t, {'e', 'E'}) == 1;
    assert t[..1] == "1" && t[1..] == "e5" && "e5"[1..] == "5";
    assert IsIntText(t);
  }

  /** A real may carry a signed exponent. */
  lemma ScanRealSample()
    ensures ScanNumber("1.5e-3") == RealLiteral("1.5e-3")
  {
    var t := "1.5e-3";
    assert Unsigned(t) == t;
    assert IndexOfAny(t, {'e', 'E'}) == 3;
    assert t[..3] == "1.5" && t[3..] == "e-3" && "e-3"[2..] == "3";
    assert IndexOfAny("1.5", {'.'}) == 1;
    assert "1.5"[..1] == "1" && "1.5"[2..] == "5";
    assert IsRealText(t);
  }

  /** A negative exponent is allowed only in a real, so `1e-5` is no
      number. */
  lemma ScanNegativeExponentSample()
    ensures ScanNumber("1e-5") == NotANumber
  {
    var t := "1e-5";
    assert '.' !in t;
    if IsRealText(t) { RealTextHasDot(t); }
    assert Unsigned(t) == t;
    assert IndexOfAny(t, {'e', 'E'}) == 1;
    assert t[1..] == "e-5" && "e-5"[1..] == "-5";
    assert "e-5"[1] == '-' && "-5"[0] == '-';
    assert !IsDigit('-');
    assert !IsDigits("-5");
    assert !IsExponent("e-5", {'+'});
    assert !IsIntText(t);
  }



}
