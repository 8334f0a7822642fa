/** The condition text that the where clause builds while it is read: one
    boolean per comparison and one keyword per connective, in the order
    they occur, with nothing for parentheses.  The text is then read as a
    boolean expression of the host language, where `and` binds tighter
    than `or`. */
module Conditions {
  import opened Values
  import opened Syntax

  datatype Atom = Bool(b: bool) | Conn(c: Connective)

  /** Booleans at the even positions, connectives at the odd ones, odd
      length: the shape of every text the where clause produces. */
  predicate Alternating(atoms: seq<Atom>) {
    && |atoms| % 2 == 1
    && forall i :: 0 <= i < |atoms| ==> (atoms[i].Bool? <==> i % 2 == 0)
  }

  /** Connective/boolean pairs: an alternating text without its first
      boolean. */
  predicate Pairs(atoms: seq<Atom>) {
    && |atoms| % 2 == 0
    && forall i :: 0 <= i < |atoms| ==> (atoms[i].Conn? <==> i % 2 == 0)
  }

  /** Left-to-right reading of the pairs after the first boolean: `conj`
      is the and-chain being built, `disj` the or of the chains already
      closed.  Anything out of shape is a syntax error (`None`). */
  function Chain(rest: seq<Atom>, disj: bool, conj: bool): Option<bool>
    decreases |rest|
  {
    if rest == [] then Some(disj || conj)
    else if |rest| >= 2 && rest[0].Conn? && rest[1].Bool? then
      if rest[0].c == AndConn then Chain(rest[2..], disj, conj && rest[1].b)
      else Chain(rest[2..], disj || conj, rest[1].b)
    else None
  }

  /** The truth of a non-empty condition text. */
  function Truth(atoms: seq<Atom>): Option<bool> {
    if |atoms| > 0 && atoms[0].Bool? then Chain(atoms[1..], false, atoms[0].b) else None
  }

  lemma {:induction false} ChainDefined(rest: seq<Atom>, disj: bool, conj: bool)
    ensures Chain(rest, disj, conj).Some? <==> Pairs(rest)
    decreases |rest|
  {
    if |rest| >= 2 && rest[0].Conn? && rest[1].Bool? {
      ChainDefined(rest[2..], disj, rest[1].b);
      ChainDefined(rest[2..], disj || conj, rest[1].b);
      ChainDefined(rest[2..], disj, conj && rest[1].b);
      if Pairs(rest[2..]) {
        forall i | 0 <= i < |rest| ensures (rest[i].Conn? <==> i % 2 == 0) {
          if i >= 2 { assert rest[i] == rest[2..][i - 2]; }
        }
      }
      if Pairs(rest) {
        forall i | 0 <= i < |rest[2..]| ensures (rest[2..][i].Conn? <==> i % 2 == 0) {
          assert rest[2..][i] == rest[i + 2];
        }
      }
    } else if rest != [] {
      if |rest| >= 2 {
        assert !Pairs(rest);
      }
    }
  }

  /** A text has a truth value exactly when it alternates booleans and
      connectives, beginning and ending with a boolean. */
  lemma TruthDefined(atoms: seq<Atom>)
    ensures Truth(atoms).Some? <==> Alternating(atoms)
  {
    if |atoms| > 0 && atoms[0].Bool? {
      ChainDefined(atoms[1..], false, atoms[0].b);
      if Pairs(atoms[1..]) {
        forall i | 0 <= i < |atoms| ensures (atoms[i].Bool? <==> i % 2 == 0) {
          if i > 0 { assert atoms[i] == atoms[1..][i - 1]; }
        }
      }
      if Alternating(atoms) {
        forall i | 0 <= i < |atoms[1..]| ensures (atoms[1..][i].Conn? <==> i % 2 == 0) {
          assert atoms[1..][i] == atoms[i + 1];
        }
      }
    }
  }

  /** The closed chains can be or-ed on afterwards. */
  lemma {:induction false} ChainFactorsDisj(rest: seq<Atom>, disj: bool, conj: bool)
    requires Pairs(rest)
    ensures Chain(rest, disj, conj).Some? && Chain(rest, false, conj).Some?
    ensures Chain(rest, disj, conj).value == (disj || Chain(rest, false, conj).value)
    decreases |rest|
  {
    ChainDefined(rest, disj, conj);
    ChainDefined(rest, false, conj);
    if rest != [] {
      assert Pairs(rest[2..]) by {
        forall i | 0 <= i < |rest[2..]| ensures (rest[2..][i].Conn? <==> i % 2 == 0) {
          assert rest[2..][i] == rest[i + 2];
        }
      }
      if rest[0].c == AndConn {
        ChainFactorsDisj(rest[2..], disj, conj && rest[1].b);
      } else {
        ChainFactorsDisj(rest[2..], disj || conj, rest[1].b);
        ChainFactorsDisj(rest[2..], conj, rest[1].b);
      }
    }
  }

  lemma {:induction false} ChainOrSplit(p: seq<Atom>, y: seq<Atom>, disj: bool, conj: bool)
    requires Pairs(p) && Alternating(y)
    ensures Chain(p + [Conn(OrConn)] + y, disj, conj).Some?
    ensures Chain(p, disj, conj).Some? && Truth(y).Some?
    ensures Chain(p + [Conn(OrConn)] + y, disj, conj).value == (Chain(p, disj, conj).value || Truth(y).value)
    decreases |p|
  {
    TruthDefined(y);
    ChainDefined(p, disj, conj);
    if p == [] {
      var t := [Conn(OrConn)] + y;
      assert p + [Conn(OrConn)] + y == t;
      assert t[2..] == y[1..];
      assert Pairs(y[1..]) by {
        forall i | 0 <= i < |y[1..]| ensures (y[1..][i].Conn? <==> i % 2 == 0) {
          assert y[1..][i] == y[i + 1];
        }
      }
      ChainFactorsDisj(y[1..], disj || conj, y[0].b);
    } else {
      var t := p + [Conn(OrConn)] + y;
      assert t[0] == p[0] && t[1] == p[1];
      assert t[2..] == p[2..] + [Conn(OrConn)] + y;
      assert Pairs(p[2..]) by {
        forall i | 0 <= i < |p[2..]| ensures (p[2..][i].Conn? <==> i % 2 == 0) {
          assert p[2..][i] == p[i + 2];
        }
      }
      if p[0].c == AndConn {
        ChainOrSplit(p[2..], y, disj, conj && p[1].b);
      } else {
        ChainOrSplit(p[2..], y, disj || conj, p[1].b);
      }
    }
  }

  /** `and` binds tighter than `or`: a text splits at any of its `or`s into
      two texts whose truths are or-ed. */
  lemma TruthOrSplit(x: seq<Atom>, y: seq<Atom>)
    requires Alternating(x) && Alternating(y)
    ensures Truth(x).Some? && Truth(y).Some?
    ensures Truth(x + [Conn(OrConn)] + y) == Some(Truth(x).value || Truth(y).value)
  {
    TruthDefined(x);
    var t := x + [Conn(OrConn)] + y;
    assert t[0] == x[0];
    assert t[1..] == x[1..] + [Conn(OrConn)] + y;
    assert Pairs(x[1..]) by {
      forall i | 0 <= i < |x[1..]| ensures (x[1..][i].Conn? <==> i % 2 == 0) {
        assert x[1..][i] == x[i + 1];
      }
    }
    ChainOrSplit(x[1..], y, false, x[0].b);
  }

  /** Every boolean of `atoms` is true. */
  predicate AllTrue(atoms: seq<Atom>) {
    forall i :: 0 <= i < |atoms| && atoms[i].Bool? ==> atoms[i].b
  }

  predicate NoOr(atoms: seq<Atom>) {
    forall i :: 0 <= i < |atoms| ==> atoms[i] != Conn(OrConn)
  }

  lemma {:induction false} ChainAndOnly(rest: seq<Atom>, conj: bool)
    requires Pairs(rest) && NoOr(rest)
    ensures Chain(rest, false, conj) == Some(conj && AllTrue(rest))
    decreases |rest|
  {
    if rest != [] {
      assert rest[0].Conn? && rest[0] != Conn(OrConn);
      assert rest[0].c == AndConn;
      assert Pairs(rest[2..]) && NoOr(rest[2..]) by {
        forall i | 0 <= i < |rest[2..]| ensures (rest[2..][i].Conn? <==> i % 2 == 0) && rest[2..][i] != Conn(OrConn) {
          assert rest[2..][i] == rest[i + 2];
        }
      }
      ChainAndOnly(rest[2..], conj && rest[1].b);
      if AllTrue(rest[2..]) && rest[1].b {
        forall i | 0 <= i < |rest| && rest[i].Bool? ensures rest[i].b {
          if i >= 2 { assert rest[i] == rest[2..][i - 2]; }
        }
      }
      if AllTrue(rest) {
        forall i | 0 <= i < |rest[2..]| && rest[2..][i].Bool? ensures rest[2..][i].b {
          assert rest[2..][i] == rest[i + 2];
        }
      }
    }
  }

  /** A text without `or` is true exactly when all its booleans are. With
      TruthOrSplit this fixes the reading: an or of and-chains. */
  lemma TruthAndChain(x: seq<Atom>)
    requires Alternating(x) && NoOr(x)
    ensures Truth(x) == Some(AllTrue(x))
  {
    assert Pairs(x[1..]) && NoOr(x[1..]) by {
      forall i | 0 <= i < |x[1..]| ensures (x[1..][i].Conn? <==> i % 2 == 0) && x[1..][i] != Conn(OrConn) {
        assert x[1..][i] == x[i + 1];
      }
    }
    ChainAndOnly(x[1..], x[0].b);
    if x[0].b && AllTrue(x[1..]) {
      forall i | 0 <= i < |x| && x[i].Bool? ensures x[i].b {
        if i > 0 { assert x[i] == x[1..][i - 1]; }
      }
    }
  }
}
