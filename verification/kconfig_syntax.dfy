/**
  Expression syntax: the printer and the recursive-descent parser, on tokens.

  The printer drops some parentheses and the parser groups chains to the right,
  so a printed expression comes back with another shape.  It comes back with the
  same value, and it comes back at all exactly when it mentions no choice.
 */
module KconfigSyntax {
  import opened Basics
  import opened KconfigValues

  /** Choices have a printed form that is not a symbol; `TEnd` follows the last token. */
  datatype Token = TSym(i: nat) | TChoice(i: nat) | TAnd | TOr | TNot | TOpen | TClose | TRel(op: RelOp) | TEnd

  // ---------------------------------------------------------------- printing

  function Name(cfg: Config, i: nat): Token { if At(cfg, i).Symbol? then TSym(i) else TChoice(i) }

  /** `expr_str`; operands of the other binary operator go in parentheses. */
  function Print(cfg: Config, e: Expr): seq<Token>
    decreases e, 0
  {
    match e
    case Atom(i) => [Name(cfg, i)]
    case And(l, r) => AndText(cfg, l) + [TAnd] + AndText(cfg, r)
    case Or(l, r) => OrText(cfg, l) + [TOr] + OrText(cfg, r)
    case Not(x) => if x.Atom? then [TNot, Name(cfg, x.item)] else [TNot, TOpen] + Print(cfg, x) + [TClose]
    case Rel(op, a, b) => [Name(cfg, a), TRel(op), Name(cfg, b)]
  }

  /** `_parenthesize` inside an AND. */
  function AndText(cfg: Config, e: Expr): seq<Token>
    decreases e, 1
  {
    if e.Or? then [TOpen] + Print(cfg, e) + [TClose] else Print(cfg, e)
  }

  /** `_parenthesize` inside an OR. */
  function OrText(cfg: Config, e: Expr): seq<Token>
    decreases e, 1
  {
    if e.And? then [TOpen] + Print(cfg, e) + [TClose] else Print(cfg, e)
  }

  // ---------------------------------------------------------------- parsing

  /** An expression and the number of tokens it took. */
  type Parsed = Option<(Expr, nat)>

  function First(ts: seq<Token>): Token { if ts == [] then TEnd else ts[0] }

  /** How to read m in conditions: as m && MODULES. */
  datatype Reading = Reading(transform: bool, m: nat, modules: nat)

  function SymbolExpr(rd: Reading, i: nat): Expr {
    if rd.transform && i == rd.m then And(Atom(rd.m), Atom(rd.modules)) else Atom(i)
  }

  /** `_parse_expr` */
  function ParseExpr(rd: Reading, ts: seq<Token>): (r: Parsed)
    ensures r.Some? ==> 0 < r.value.1 <= |ts|
    decreases |ts|, 2
  {
    var a := ParseAnd(rd, ts);
    if a.None? then None
    else
      var (e, n) := a.value;
      if First(ts[n..]) != TOr then Some((e, n))
      else
        var b := ParseExpr(rd, ts[n + 1..]);
        if b.None? then None else Some((Or(e, b.value.0), n + 1 + b.value.1))
  }

  /** `_parse_and_expr` */
  function ParseAnd(rd: Reading, ts: seq<Token>): (r: Parsed)
    ensures r.Some? ==> 0 < r.value.1 <= |ts|
    decreases |ts|, 1
  {
    var a := ParseFactor(rd, ts);
    if a.None? then None
    else
      var (e, n) := a.value;
      if First(ts[n..]) != TAnd then Some((e, n))
      else
        var b := ParseAnd(rd, ts[n + 1..]);
        if b.None? then None else Some((And(e, b.value.0), n + 1 + b.value.1))
  }

  /** `_parse_factor` */
  function ParseFactor(rd: Reading, ts: seq<Token>): (r: Parsed)
    ensures r.Some? ==> 0 < r.value.1 <= |ts|
    decreases |ts|, 0
  {
    match First(ts)
    case TSym(i) =>
      if !First(ts[1..]).TRel? then Some((SymbolExpr(rd, i), 1))
      else if First(ts[2..]).TSym? then Some((Rel(ts[1].op, i, ts[2].i), 3))
      else None
    case TNot =>
      var x := ParseFactor(rd, ts[1..]);
      if x.None? then None else Some((Not(x.value.0), 1 + x.value.1))
    case TOpen =>
      var x := ParseExpr(rd, ts[1..]);
      if x.None? || First(ts[1 + x.value.1..]) != TClose then None else Some((x.value.0, x.value.1 + 2))
    case _ => None
  }

  /** The parser as it runs: a position in the tokens of a line. */
  class Parser {
    const tokens: seq<Token>
    var i: nat

    ghost predicate Valid()
      reads this
    {
      i <= |tokens|
    }

    constructor (tokens: seq<Token>)
      ensures Valid() && this.tokens == tokens && i == 0
    {
      this.tokens, i := tokens, 0;
    }

    function Peek(): Token
      requires Valid()
      reads this
      ensures Peek() == First(tokens[i..])
    {
      if i < |tokens| then tokens[i] else TEnd
    }

    /** The outcome agrees with what the grammar says about the remaining tokens. */
    ghost predicate Agrees(r: Option<Expr>, p: Parsed, start: nat)
      reads this
    {
      Valid() && (if p.Some? then r == Some(p.value.0) && i == start + p.value.1 else r.None?)
    }

    /** `_check_token` */
    method Check(t: Token) returns (b: bool)
      requires Valid() && t != TEnd
      modifies this
      ensures Valid() && b == (First(tokens[old(i)..]) == t) && i == if b then old(i) + 1 else old(i)
    {
      b := Peek() == t;
      if b { i := i + 1; }
    }

    /** `_parse_expr` */
    method Expression(rd: Reading) returns (r: Option<Expr>)
      requires Valid()
      modifies this
      ensures Agrees(r, ParseExpr(rd, tokens[old(i)..]), old(i))
      decreases |tokens| - i, 2
    {
      hide ParseAnd;
      var start := i;
      var a := Conjunction(rd);
      if a.None? { return None; }
      assert tokens[start..][i - start..] == tokens[i..];
      var n := i;
      var more := Check(TOr);
      if !more { return a; }
      assert tokens[start..][n - start + 1..] == tokens[i..];
      var b := Expression(rd);
      if b.None? { return None; }
      return Some(Or(a.value, b.value));
    }

    /** `_parse_and_expr` */
    method Conjunction(rd: Reading) returns (r: Option<Expr>)
      requires Valid()
      modifies this
      ensures Agrees(r, ParseAnd(rd, tokens[old(i)..]), old(i))
      decreases |tokens| - i, 1
    {
      hide ParseFactor;
      var start := i;
      var a := Factor(rd);
      if a.None? { return None; }
      assert tokens[start..][i - start..] == tokens[i..];
      var n := i;
      var more := Check(TAnd);
      if !more { return a; }
      assert tokens[start..][n - start + 1..] == tokens[i..];
      var b := Conjunction(rd);
      if b.None? { return None; }
      return Some(And(a.value, b.value));
    }

    /** `_parse_factor` */
    method Factor(rd: Reading) returns (r: Option<Expr>)
      requires Valid()
      modifies this
      ensures Agrees(r, ParseFactor(rd, tokens[old(i)..]), old(i))
      decreases |tokens| - i, 0
    {
      hide ParseExpr;
      var start := i;
      var token := Peek();
      if token.TEnd? { return None; }
      i := i + 1;
      assert tokens[start..][1..] == tokens[i..];
      match token
      case TSym(k) =>
        var rel := Peek();
        if !rel.TRel? { return Some(SymbolExpr(rd, k)); }
        i := i + 1;
        assert tokens[start..][2..] == tokens[i..];
        var right := Peek();
        if !right.TSym? { return None; }
        i := i + 1;
        return Some(Rel(rel.op, k, right.i));
      case TNot =>
        var x := Factor(rd);
        if x.None? { return None; }
        return Some(Not(x.value));
      case TOpen =>
        var x := Expression(rd);
        if x.None? { return None; }
        assert tokens[start..][1 + (i - start - 1)..] == tokens[i..];
        var closed := Check(TClose);
        if !closed { return None; }
        return x;
      case _ =>
        return None;
    }
  }

  // ---------------------------------------------------------------- meaning

  /** m read as m && MODULES outside relations. */
  function TransformM(rd: Reading, e: Expr): Expr {
    match e
    case Atom(i) => SymbolExpr(rd, i)
    case And(l, r) => And(TransformM(rd, l), TransformM(rd, r))
    case Or(l, r) => Or(TransformM(rd, l), TransformM(rd, r))
    case Not(x) => Not(TransformM(rd, x))
    case Rel(_, _, _) => e
  }

  predicate ChoiceFree(cfg: Config, e: Expr) {
    match e
    case Atom(i) => At(cfg, i).Symbol?
    case And(l, r) => ChoiceFree(cfg, l) && ChoiceFree(cfg, r)
    case Or(l, r) => ChoiceFree(cfg, l) && ChoiceFree(cfg, r)
    case Not(x) => ChoiceFree(cfg, x)
    case Rel(_, a, b) => At(cfg, a).Symbol? && At(cfg, b).Symbol?
  }

  /** Tristate values are n, m or y. */
  ghost predicate InRange(env: Env) {
    forall i :: 0 <= env.tri(i) <= 2 && 0 <= env.mode(i) <= 2
  }

  ghost predicate SameValue(cfg: Config, d: Expr, e: Expr) {
    forall env: Env :: InRange(env) ==> ExprValue(cfg, d, env) == ExprValue(cfg, e, env)
  }

  lemma {:induction false} ValueInRange(cfg: Config, e: Expr, env: Env)
    requires InRange(env)
    ensures 0 <= ExprValue(cfg, e, env) <= 2
  {
    match e
    case Atom(i) =>
    case And(l, r) => ValueInRange(cfg, l, env); ValueInRange(cfg, r, env);
    case Or(l, r) => ValueInRange(cfg, l, env); ValueInRange(cfg, r, env);
    case Not(x) => ValueInRange(cfg, x, env);
    case Rel(_, _, _) =>
  }

  /** Regrouping a chain of ANDs and rewriting its parts keeps the value. */
  lemma AndRegroups(cfg: Config, l: Expr, r: Expr, d: Expr, e: Expr, g: Expr)
    requires SameValue(cfg, d, And(l, e)) && SameValue(cfg, e, And(r, g))
    ensures SameValue(cfg, d, And(And(l, r), g))
  {
    forall env: Env | InRange(env) ensures ExprValue(cfg, d, env) == ExprValue(cfg, And(And(l, r), g), env) {
      ValueInRange(cfg, l, env);
      ValueInRange(cfg, r, env);
      ValueInRange(cfg, g, env);
    }
  }

  lemma OrRegroups(cfg: Config, l: Expr, r: Expr, d: Expr, e: Expr, g: Expr)
    requires SameValue(cfg, d, Or(l, e)) && SameValue(cfg, e, Or(r, g))
    ensures SameValue(cfg, d, Or(Or(l, r), g))
  {
    forall env: Env | InRange(env) ensures ExprValue(cfg, d, env) == ExprValue(cfg, Or(Or(l, r), g), env) {
      ValueInRange(cfg, l, env);
      ValueInRange(cfg, r, env);
      ValueInRange(cfg, g, env);
    }
  }

  // ---------------------------------------------------------------- what each parser does on printed text

  /** Tokens that may follow an expression. */
  predicate Ends(t: Token) { t == TClose || t == TEnd }

  /** The parser reads the text of `e`, and succeeds exactly if `e` has no choice. */
  ghost predicate Reads(cfg: Config, rd: Reading, r: Parsed, e: Expr, n: nat) {
    if ChoiceFree(cfg, e) then r.Some? && r.value.1 == n && SameValue(cfg, r.value.0, TransformM(rd, e)) else r.None?
  }

  /** As `Reads`, where `op` and a further expression follow, read as `more`. */
  ghost predicate ReadsAnd(cfg: Config, rd: Reading, r: Parsed, e: Expr, n: nat, more: Parsed) {
    if ChoiceFree(cfg, e) && more.Some?
    then r.Some? && r.value.1 == n + 1 + more.value.1 && SameValue(cfg, r.value.0, And(TransformM(rd, e), more.value.0))
    else r.None?
  }

  ghost predicate ReadsOr(cfg: Config, rd: Reading, r: Parsed, e: Expr, n: nat, more: Parsed) {
    if ChoiceFree(cfg, e) && more.Some?
    then r.Some? && r.value.1 == n + 1 + more.value.1 && SameValue(cfg, r.value.0, Or(TransformM(rd, e), more.value.0))
    else r.None?
  }

  lemma Skip(a: seq<Token>, b: seq<Token>)
    ensures (a + b)[|a|..] == b
  {
  }

  /** One step of `_parse_expr` on a text it reads as an AND. */
  lemma ExprStep(rd: Reading, text: seq<Token>, rest: seq<Token>)
    requires var a := ParseAnd(rd, text + rest); a.Some? ==> a.value.1 == |text|
    ensures var a := ParseAnd(rd, text + rest);
            var b := if First(rest) == TOr then ParseExpr(rd, rest[1..]) else None;
            ParseExpr(rd, text + rest) ==
              if a.None? || First(rest) != TOr then a
              else if b.None? then None else Some((Or(a.value.0, b.value.0), |text| + 1 + b.value.1))
  {
    hide ParseExpr, ParseAnd;
    Skip(text, rest);
    ExprStepAt(rd, text + rest, |text|, rest);
  }

  lemma ExprStepAt(rd: Reading, ts: seq<Token>, n: nat, rest: seq<Token>)
    requires n <= |ts| && ts[n..] == rest
    requires ParseAnd(rd, ts).Some? ==> ParseAnd(rd, ts).value.1 == n
    ensures var a := ParseAnd(rd, ts);
            var b := if First(rest) == TOr then ParseExpr(rd, rest[1..]) else None;
            ParseExpr(rd, ts) ==
              if a.None? || First(rest) != TOr then a
              else if b.None? then None else Some((Or(a.value.0, b.value.0), n + 1 + b.value.1))
  {
    hide ParseAnd;
    if First(rest) == TOr { assert ts[n + 1..] == rest[1..]; }
  }

  /** One step of `_parse_and_expr` on a text it reads as a factor. */
  lemma AndStep(rd: Reading, text: seq<Token>, rest: seq<Token>)
    requires var a := ParseFactor(rd, text + rest); a.Some? ==> a.value.1 == |text|
    ensures var a := ParseFactor(rd, text + rest);
            var b := if First(rest) == TAnd then ParseAnd(rd, rest[1..]) else None;
            ParseAnd(rd, text + rest) ==
              if a.None? || First(rest) != TAnd then a
              else if b.None? then None else Some((And(a.value.0, b.value.0), |text| + 1 + b.value.1))
  {
    hide ParseAnd, ParseFactor;
    Skip(text, rest);
    AndStepAt(rd, text + rest, |text|, rest);
  }

  lemma AndStepAt(rd: Reading, ts: seq<Token>, n: nat, rest: seq<Token>)
    requires n <= |ts| && ts[n..] == rest
    requires ParseFactor(rd, ts).Some? ==> ParseFactor(rd, ts).value.1 == n
    ensures var a := ParseFactor(rd, ts);
            var b := if First(rest) == TAnd then ParseAnd(rd, rest[1..]) else None;
            ParseAnd(rd, ts) ==
              if a.None? || First(rest) != TAnd then a
              else if b.None? then None else Some((And(a.value.0, b.value.0), n + 1 + b.value.1))
  {
    hide ParseFactor;
    if First(rest) == TAnd { assert ts[n + 1..] == rest[1..]; }
  }

  /** A parenthesised expression as a factor. */
  lemma ParenReads(cfg: Config, rd: Reading, e: Expr, rest: seq<Token>)
    ensures Reads(cfg, rd, ParseFactor(rd, [TOpen] + Print(cfg, e) + [TClose] + rest), e, |Print(cfg, e)| + 2)
    decreases e, 4
  {
    var p := Print(cfg, e);
    var ts := [TOpen] + p + [TClose] + rest;
    assert ts[1..] == p + ([TClose] + rest);
    ExprReads(cfg, rd, e, [TClose] + rest);
    assert ts[1 + |p|..] == [TClose] + rest;
  }

  /** A factor: a symbol, a relation, a negation, or anything in parentheses. */
  lemma FactorReads(cfg: Config, rd: Reading, e: Expr, rest: seq<Token>)
    requires !e.And? && !e.Or? && !First(rest).TRel?
    ensures Reads(cfg, rd, ParseFactor(rd, Print(cfg, e) + rest), e, |Print(cfg, e)|)
    decreases e, 0
  {
    var ts := Print(cfg, e) + rest;
    match e
    case Atom(i) => assert ts[1..] == rest;
    case Rel(op, a, b) => assert ts[1] == TRel(op) && ts[2] == Name(cfg, b) && ts[2..][0] == ts[2] &&
        ts[1..][0] == ts[1];
    case Not(x) =>
      if x.Atom? {
        assert ts[1..] == Print(cfg, x) + rest;
        FactorReads(cfg, rd, x, rest);
      } else {
        assert ts[1..] == [TOpen] + Print(cfg, x) + [TClose] + rest;
        ParenReads(cfg, rd, x, rest);
      }
      NotReads(cfg, rd, x);
  }

  lemma NotReads(cfg: Config, rd: Reading, x: Expr)
    ensures forall y :: SameValue(cfg, y, TransformM(rd, x)) ==> SameValue(cfg, Not(y), TransformM(rd, Not(x)))
  {
  }

  /** An operand of AND as a factor. */
  lemma AndOperandReads(cfg: Config, rd: Reading, e: Expr, rest: seq<Token>)
    requires !e.And? && !First(rest).TRel?
    ensures Reads(cfg, rd, ParseFactor(rd, AndText(cfg, e) + rest), e, |AndText(cfg, e)|)
    decreases e, 5
  {
    if e.Or? { ParenReads(cfg, rd, e, rest); } else { FactorReads(cfg, rd, e, rest); }
  }

  lemma AndChainText(cfg: Config, e: Expr, rest: seq<Token>)
    requires e.And?
    ensures AndText(cfg, e) == Print(cfg, e)
    ensures AndText(cfg, e) + rest == AndText(cfg, e.l) + ([TAnd] + (AndText(cfg, e.r) + rest))
    ensures |AndText(cfg, e)| == |AndText(cfg, e.l)| + 1 + |AndText(cfg, e.r)|
  {
  }

  lemma OrChainText(cfg: Config, e: Expr, rest: seq<Token>)
    requires e.Or?
    ensures OrText(cfg, e) == Print(cfg, e)
    ensures OrText(cfg, e) + rest == OrText(cfg, e.l) + ([TOr] + (OrText(cfg, e.r) + rest))
    ensures |OrText(cfg, e)| == |OrText(cfg, e.l)| + 1 + |OrText(cfg, e.r)|
  {
  }

  lemma SameUnder(cfg: Config, d: Expr, e: Expr, g: Expr, h: Expr)
    requires SameValue(cfg, d, e) && SameValue(cfg, g, h)
    ensures SameValue(cfg, And(d, g), And(e, h)) && SameValue(cfg, Or(d, g), Or(e, h))
  {
  }

  lemma SameSelf(cfg: Config, e: Expr)
    ensures SameValue(cfg, e, e)
  {
  }

  lemma SameChain(cfg: Config, d: Expr, e: Expr, g: Expr)
    requires SameValue(cfg, d, e) && SameValue(cfg, e, g)
    ensures SameValue(cfg, d, g)
  {
  }

  /** A chain of ANDs that goes on. */
  lemma AndContinues(cfg: Config, rd: Reading, e: Expr, rest: seq<Token>)
    requires First(rest) == TAnd
    ensures ReadsAnd(cfg, rd, ParseAnd(rd, AndText(cfg, e) + rest), e, |AndText(cfg, e)|, ParseAnd(rd, rest[1..]))
    decreases e, 6
  {
    hide SameValue, AndText, Print, ParseAnd, ParseFactor;
    var ts := AndText(cfg, e) + rest;
    var more := ParseAnd(rd, rest[1..]);
    if e.And? {
      var tail := [TAnd] + (AndText(cfg, e.r) + rest);
      AndChainText(cfg, e, rest);
      assert tail[1..] == AndText(cfg, e.r) + rest;
      AndContinues(cfg, rd, e.r, rest);
      AndContinues(cfg, rd, e.l, tail);
      if ChoiceFree(cfg, e) && more.Some? {
        var whole, right := ParseAnd(rd, ts), ParseAnd(rd, tail[1..]);
        AndRegroups(cfg, TransformM(rd, e.l), TransformM(rd, e.r), whole.value.0, right.value.0, more.value.0);
      }
    } else {
      AndOperandReads(cfg, rd, e, rest);
      AndStep(rd, AndText(cfg, e), rest);
      if ChoiceFree(cfg, e) && more.Some? {
        SameSelf(cfg, more.value.0);
        SameUnder(cfg, ParseFactor(rd, ts).value.0, TransformM(rd, e), more.value.0, more.value.0);
      }
    }
  }

  /** Two operands of an AND that ends here. */
  lemma AndChainEnds(cfg: Config, rd: Reading, l: Expr, r: Expr, rest: seq<Token>)
    requires First(rest) != TAnd && !First(rest).TRel?
    ensures Reads(cfg, rd, ParseAnd(rd, AndText(cfg, l) + ([TAnd] + (AndText(cfg, r) + rest))), And(l, r),
                  |AndText(cfg, l)| + 1 + |AndText(cfg, r)|)
    decreases And(l, r), 2
  {
    hide SameValue, AndText, Print, ParseAnd;
    var tail := [TAnd] + (AndText(cfg, r) + rest);
    assert tail[1..] == AndText(cfg, r) + rest;
    AndEnds(cfg, rd, r, rest);
    AndContinues(cfg, rd, l, tail);
    if ChoiceFree(cfg, And(l, r)) {
      var whole, right := ParseAnd(rd, AndText(cfg, l) + tail), ParseAnd(rd, tail[1..]);
      SameSelf(cfg, TransformM(rd, l));
      SameUnder(cfg, TransformM(rd, l), TransformM(rd, l), right.value.0, TransformM(rd, r));
      SameChain(cfg, whole.value.0, And(TransformM(rd, l), right.value.0), TransformM(rd, And(l, r)));
    }
  }

  /** Two operands of an OR that ends here. */
  lemma OrChainEnds(cfg: Config, rd: Reading, l: Expr, r: Expr, rest: seq<Token>)
    requires Ends(First(rest))
    ensures Reads(cfg, rd, ParseExpr(rd, OrText(cfg, l) + ([TOr] + (OrText(cfg, r) + rest))), Or(l, r),
                  |OrText(cfg, l)| + 1 + |OrText(cfg, r)|)
    decreases Or(l, r), 2
  {
    hide SameValue, OrText, Print, ParseExpr;
    var tail := [TOr] + (OrText(cfg, r) + rest);
    assert tail[1..] == OrText(cfg, r) + rest;
    OrTextEnds(cfg, rd, r, rest);
    OrContinues(cfg, rd, l, tail);
    if ChoiceFree(cfg, Or(l, r)) {
      var whole, right := ParseExpr(rd, OrText(cfg, l) + tail), ParseExpr(rd, tail[1..]);
      SameSelf(cfg, TransformM(rd, l));
      SameUnder(cfg, TransformM(rd, l), TransformM(rd, l), right.value.0, TransformM(rd, r));
      SameChain(cfg, whole.value.0, Or(TransformM(rd, l), right.value.0), TransformM(rd, Or(l, r)));
    }
  }

  /** A chain of ANDs that ends here. */
  lemma AndEnds(cfg: Config, rd: Reading, e: Expr, rest: seq<Token>)
    requires First(rest) != TAnd && !First(rest).TRel?
    ensures Reads(cfg, rd, ParseAnd(rd, AndText(cfg, e) + rest), e, |AndText(cfg, e)|)
    decreases e, 6
  {
    hide SameValue, AndText, Print, ParseAnd, ParseFactor;
    var ts := AndText(cfg, e) + rest;
    if e.And? {
      AndChainText(cfg, e, rest);
      AndChainEnds(cfg, rd, e.l, e.r, rest);
    } else {
      AndOperandReads(cfg, rd, e, rest);
      AndStep(rd, AndText(cfg, e), rest);
    }
  }

  /** An operand of OR, which is a chain of ANDs or a parenthesised one. */
  lemma OrOperandReads(cfg: Config, rd: Reading, e: Expr, rest: seq<Token>)
    requires !e.Or? && First(rest) != TAnd && !First(rest).TRel?
    ensures Reads(cfg, rd, ParseAnd(rd, OrText(cfg, e) + rest), e, |OrText(cfg, e)|)
    decreases e, 7
  {
    hide SameValue, ParseAnd, ParseFactor;
    if e.And? {
      ParenReads(cfg, rd, e, rest);
      AndStep(rd, OrText(cfg, e), rest);
    } else {
      AndEnds(cfg, rd, e, rest);
    }
  }

  lemma OrContinues(cfg: Config, rd: Reading, e: Expr, rest: seq<Token>)
    requires First(rest) == TOr
    ensures ReadsOr(cfg, rd, ParseExpr(rd, OrText(cfg, e) + rest), e, |OrText(cfg, e)|, ParseExpr(rd, rest[1..]))
    decreases e, 8
  {
    hide SameValue, OrText, Print, ParseExpr, ParseAnd;
    var ts := OrText(cfg, e) + rest;
    var more := ParseExpr(rd, rest[1..]);
    if e.Or? {
      var tail := [TOr] + (OrText(cfg, e.r) + rest);
      OrChainText(cfg, e, rest);
      assert tail[1..] == OrText(cfg, e.r) + rest;
      OrContinues(cfg, rd, e.r, rest);
      OrContinues(cfg, rd, e.l, tail);
      if ChoiceFree(cfg, e) && more.Some? {
        var whole, right := ParseExpr(rd, ts), ParseExpr(rd, tail[1..]);
        OrRegroups(cfg, TransformM(rd, e.l), TransformM(rd, e.r), whole.value.0, right.value.0, more.value.0);
      }
    } else {
      OrOperandReads(cfg, rd, e, rest);
      ExprStep(rd, OrText(cfg, e), rest);
      if ChoiceFree(cfg, e) && more.Some? {
        SameSelf(cfg, more.value.0);
        SameUnder(cfg, ParseAnd(rd, ts).value.0, TransformM(rd, e), more.value.0, more.value.0);
      }
    }
  }

  /** Printing and parsing any expression, before a closing parenthesis or the end. */
  lemma ExprReads(cfg: Config, rd: Reading, e: Expr, rest: seq<Token>)
    requires Ends(First(rest))
    ensures Reads(cfg, rd, ParseExpr(rd, Print(cfg, e) + rest), e, |Print(cfg, e)|)
    decreases e, 3
  {
    hide SameValue, AndText, OrText, ParseExpr, ParseAnd, ParseFactor;
    match e
    case Or(l, r) =>
      OrChainText(cfg, e, rest);
      OrChainEnds(cfg, rd, l, r, rest);
    case And(l, r) =>
      AndChainText(cfg, e, rest);
      AndChainEnds(cfg, rd, l, r, rest);
      ExprStep(rd, Print(cfg, e), rest);
    case _ =>
      FactorReads(cfg, rd, e, rest);
      AndStep(rd, Print(cfg, e), rest);
      ExprStep(rd, Print(cfg, e), rest);
  }

  lemma OrTextEnds(cfg: Config, rd: Reading, e: Expr, rest: seq<Token>)
    requires Ends(First(rest))
    ensures Reads(cfg, rd, ParseExpr(rd, OrText(cfg, e) + rest), e, |OrText(cfg, e)|)
    decreases e, 8
  {
    hide SameValue, ParseExpr, ParseAnd;
    if e.Or? {
      ExprReads(cfg, rd, e, rest);
    } else {
      OrOperandReads(cfg, rd, e, rest);
      ExprStep(rd, OrText(cfg, e), rest);
    }
  }

  // ---------------------------------------------------------------- the round trip

  /** A printed expression parses back, all of it, exactly when it mentions no choice; the value is kept. */
  lemma PrintParses(cfg: Config, rd: Reading, e: Expr)
    ensures Reads(cfg, rd, ParseExpr(rd, Print(cfg, e)), e, |Print(cfg, e)|)
  {
    ExprReads(cfg, rd, e, []);
    assert Print(cfg, e) + [] == Print(cfg, e);
  }

  /** Reading m as m && MODULES twice changes nothing more. */
  lemma {:induction false} TransformTwice(cfg: Config, rd: Reading, e: Expr)
    ensures SameValue(cfg, TransformM(rd, TransformM(rd, e)), TransformM(rd, e))
  {
    match e
    case Atom(i) =>
      forall env: Env | InRange(env)
        ensures ExprValue(cfg, TransformM(rd, TransformM(rd, e)), env) == ExprValue(cfg, TransformM(rd, e), env)
      {
        ValueInRange(cfg, Atom(rd.m), env);
        ValueInRange(cfg, Atom(rd.modules), env);
      }
    case And(l, r) => TransformTwice(cfg, rd, l); TransformTwice(cfg, rd, r);
    case Or(l, r) => TransformTwice(cfg, rd, l); TransformTwice(cfg, rd, r);
    case Not(x) => TransformTwice(cfg, rd, x);
    case Rel(_, _, _) =>
  }

  /** An expression in the form the parser gives it has the same value after printing and parsing. */
  lemma ParsedFormRoundTrip(cfg: Config, rd: Reading, d: Expr)
    requires ChoiceFree(cfg, TransformM(rd, d))
    ensures var e := TransformM(rd, d);
            var r := ParseExpr(rd, Print(cfg, e));
            r.Some? && r.value.1 == |Print(cfg, e)| && SameValue(cfg, r.value.0, e)
  {
    PrintParses(cfg, rd, TransformM(rd, d));
    TransformTwice(cfg, rd, d);
  }

  /** The running parser reads back what was printed. */
  method PrintAndParse(cfg: Config, rd: Reading, e: Expr) returns (r: Option<Expr>)
    ensures r.Some? <==> ChoiceFree(cfg, e)
    ensures r.Some? ==> SameValue(cfg, r.value, TransformM(rd, e))
  {
    hide SameValue, ParseExpr, Print;
    var parser := new Parser(Print(cfg, e));
    PrintParses(cfg, rd, e);
    assert parser.tokens[0..] == Print(cfg, e);
    r := parser.Expression(rd);
  }

  // ---------------------------------------------------------------- what the syntax looks like

  lemma SymbolReads(rd: Reading, i: nat, rest: seq<Token>)
    requires !rd.transform && !First(rest).TRel?
    ensures ParseFactor(rd, [TSym(i)] + rest) == Some((Atom(i), 1))
    ensures First(rest) != TAnd ==> ParseAnd(rd, [TSym(i)] + rest) == Some((Atom(i), 1))
    ensures First(rest) != TAnd && First(rest) != TOr ==> ParseExpr(rd, [TSym(i)] + rest) == Some((Atom(i), 1))
  {
    assert ([TSym(i)] + rest)[1..] == rest;
  }

  /** In conditions, m stands for m && MODULES; a symbol of any other name stands for itself. */
  lemma MReads(rd: Reading, i: nat, rest: seq<Token>)
    requires rd.transform && !First(rest).TRel?
    ensures ParseFactor(rd, [TSym(rd.m)] + rest) == Some((And(Atom(rd.m), Atom(rd.modules)), 1))
    ensures i != rd.m ==> ParseFactor(rd, [TSym(i)] + rest) == Some((Atom(i), 1))
  {
    assert ([TSym(rd.m)] + rest)[1..] == rest && ([TSym(i)] + rest)[1..] == rest;
  }

  lemma PairReads(rd: Reading, a: nat, b: nat, rest: seq<Token>)
    requires !rd.transform && !First(rest).TRel? && First(rest) != TAnd
    ensures ParseAnd(rd, [TSym(a), TAnd, TSym(b)] + rest) == Some((And(Atom(a), Atom(b)), 3))
  {
    hide ParseFactor;
    var ts := [TSym(a), TAnd, TSym(b)] + rest;
    assert ts == [TSym(a)] + ([TAnd, TSym(b)] + rest) && ts[1..] == [TAnd, TSym(b)] + rest;
    assert ts[2..] == [TSym(b)] + rest;
    SymbolReads(rd, a, [TAnd, TSym(b)] + rest);
    SymbolReads(rd, b, rest);
  }

  /** `&&` binds tighter than `||`, wherever it stands. */
  lemma AndBindsTighter(rd: Reading, a: nat, b: nat, c: nat)
    requires !rd.transform
    ensures ParseExpr(rd, [TSym(a), TAnd, TSym(b), TOr, TSym(c)]) == Some((Or(And(Atom(a), Atom(b)), Atom(c)), 5))
    ensures ParseExpr(rd, [TSym(a), TOr, TSym(b), TAnd, TSym(c)]) == Some((Or(Atom(a), And(Atom(b), Atom(c))), 5))
  {
    hide ParseAnd, ParseFactor;
    var ts := [TSym(a), TAnd, TSym(b), TOr, TSym(c)];
    assert ts == [TSym(a), TAnd, TSym(b)] + [TOr, TSym(c)] && ts[3..] == [TOr, TSym(c)] && ts[4..] == [TSym(c)] + [];
    PairReads(rd, a, b, [TOr, TSym(c)]);
    SymbolReads(rd, c, []);
    var us := [TSym(a), TOr, TSym(b), TAnd, TSym(c)];
    assert us == [TSym(a)] + [TOr, TSym(b), TAnd, TSym(c)] && us[1..] == [TOr, TSym(b), TAnd, TSym(c)];
    assert us[2..] == [TSym(b), TAnd, TSym(c)] + [];
    SymbolReads(rd, a, [TOr, TSym(b), TAnd, TSym(c)]);
    PairReads(rd, b, c, []);
    assert us[2..][3..] == [];
  }

  /** `!` binds tightest, parentheses group, and a relation is between two symbols. */
  lemma OtherForms(rd: Reading, a: nat, b: nat, c: nat, op: RelOp)
    requires !rd.transform
    ensures ParseExpr(rd, [TNot, TSym(a), TOr, TSym(b)]) == Some((Or(Not(Atom(a)), Atom(b)), 4))
    ensures ParseExpr(rd, [TSym(a), TRel(op), TSym(b)]) == Some((Rel(op, a, b), 3))
    ensures ParseAnd(rd, [TOpen, TSym(a), TOr, TSym(b), TClose, TAnd, TSym(c)])
         == Some((And(Or(Atom(a), Atom(b)), Atom(c)), 7))
  {
    var ts := [TNot, TSym(a), TOr, TSym(b)];
    assert ts[1..] == [TSym(a)] + [TOr, TSym(b)] && ts[2..] == [TOr, TSym(b)] && ts[3..] == [TSym(b)] + [];
    SymbolReads(rd, a, [TOr, TSym(b)]);
    SymbolReads(rd, b, []);
    assert ParseFactor(rd, ts) == Some((Not(Atom(a)), 2));
    var rs := [TSym(a), TRel(op), TSym(b)];
    assert rs[1..] == [TRel(op), TSym(b)] && rs[2..] == [TSym(b)] && rs[3..] == [];
    assert ParseFactor(rd, rs) == Some((Rel(op, a, b), 3));
    GroupReads(rd, a, b, [TAnd, TSym(c)]);
    var us := [TOpen, TSym(a), TOr, TSym(b), TClose, TAnd, TSym(c)];
    assert us == [TOpen, TSym(a), TOr, TSym(b), TClose] + [TAnd, TSym(c)];
    assert us[5..] == [TAnd, TSym(c)] && us[6..] == [TSym(c)] + [];
    SymbolReads(rd, c, []);
  }

  lemma GroupReads(rd: Reading, a: nat, b: nat, rest: seq<Token>)
    requires !rd.transform
    ensures ParseFactor(rd, [TOpen, TSym(a), TOr, TSym(b), TClose] + rest) == Some((Or(Atom(a), Atom(b)), 5))
  {
    hide ParseAnd;
    var ts := [TOpen, TSym(a), TOr, TSym(b), TClose] + rest;
    var inner := ts[1..];
    assert inner == [TSym(a)] + ([TOr, TSym(b), TClose] + rest);
    assert inner[1..] == [TOr, TSym(b), TClose] + rest && inner[2..] == [TSym(b)] + ([TClose] + rest);
    SymbolReads(rd, a, [TOr, TSym(b), TClose] + rest);
    SymbolReads(rd, b, [TClose] + rest);
    assert ParseExpr(rd, inner) == Some((Or(Atom(a), Atom(b)), 3));
    assert ts[4..] == [TClose] + rest;
  }

  /** Symbols print as themselves, `!` in front, operators between their operands, groups in parentheses. */
  lemma PrintForms(cfg: Config, l: Expr, r: Expr, a: nat, b: nat, op: RelOp)
    requires At(cfg, a).Symbol? && At(cfg, b).Symbol?
    ensures Print(cfg, Atom(a)) == [TSym(a)] && Print(cfg, Rel(op, a, b)) == [TSym(a), TRel(op), TSym(b)]
    ensures !l.Or? && !r.Or? ==> Print(cfg, And(l, r)) == Print(cfg, l) + [TAnd] + Print(cfg, r)
    ensures !l.And? && !r.And? ==> Print(cfg, Or(l, r)) == Print(cfg, l) + [TOr] + Print(cfg, r)
    ensures Print(cfg, And(Or(l, r), Atom(a))) == [TOpen] + Print(cfg, Or(l, r)) + [TClose] + [TAnd] + [TSym(a)]
    ensures Print(cfg, Or(Atom(a), And(l, r))) == [TSym(a)] + [TOr] + ([TOpen] + Print(cfg, And(l, r)) + [TClose])
    ensures Print(cfg, Not(Atom(a))) == [TNot, TSym(a)]
    ensures !l.Atom? ==> Print(cfg, Not(l)) == [TNot, TOpen] + Print(cfg, l) + [TClose]
  {
  }
}
