/** The parser as it runs, advancing over the tokens of a line, and what reading, printing, splitting and
    joining expressions do to their values. */
module KconfigParser {
  import opened KconfigSyntax
  import opened KconfigValues
  import opened KconfigParsing

  class Parser {
    const tokens: seq<Token>
    const modules: Item
    var tokensI: nat

    predicate Valid()
      reads this
    {
      Line(tokens) && tokensI < |tokens|
    }

    constructor (tokens: seq<Token>, modules: Item)
      requires Line(tokens)
      ensures Valid() && this.tokens == tokens && this.modules == modules && tokensI == 0
    {
      this.tokens := tokens;
      this.modules := modules;
      tokensI := 0;
    }

    function Rewriting(transformM: bool): Option<Item> { if transformM then Some(modules) else None }

    /** A malformed expression raises an error. */
    ghost predicate Did(p: Parse, r: Option<Expr>)
      reads this
    {
      match p
      case Parsed(e, next) => r == Some(e) && tokensI == next && Valid()
      case Malformed => r == None
    }

    method CheckToken(token: Token) returns (r: bool)
      requires Valid() && token != End
      modifies this`tokensI
      ensures Valid() && r == (tokens[old(tokensI)] == token) && tokensI == old(tokensI) + if r then 1 else 0
    {
      r := tokens[tokensI] == token;
      if r {
        tokensI := tokensI + 1;
      }
    }

    method Expression(transformM: bool) returns (r: Option<Expr>)
      requires Valid()
      modifies this`tokensI
      ensures Did(ParseExpr(tokens, old(tokensI), Rewriting(transformM)), r)
      decreases |tokens| - tokensI, 2
    {
      r := AndExpression(transformM);
      if r.Some? {
        var more := CheckToken(OrOp);
        if more {
          var rest := Expression(transformM);
          r := if rest.None? then None else Some(Or(r.value, rest.value));
        }
      }
    }

    method AndExpression(transformM: bool) returns (r: Option<Expr>)
      requires Valid()
      modifies this`tokensI
      ensures Did(ParseAnd(tokens, old(tokensI), Rewriting(transformM)), r)
      decreases |tokens| - tokensI, 1
    {
      r := FactorExpression(transformM);
      if r.Some? {
        var more := CheckToken(AndOp);
        if more {
          var rest := AndExpression(transformM);
          r := if rest.None? then None else Some(And(r.value, rest.value));
        }
      }
    }

    method FactorExpression(transformM: bool) returns (r: Option<Expr>)
      requires Valid()
      modifies this`tokensI
      ensures Did(ParseFactor(tokens, old(tokensI), Rewriting(transformM)), r)
      decreases |tokens| - tokensI, 0
    {
      var token := tokens[tokensI];
      tokensI := tokensI + 1;
      if token.Symbol? {
        if !tokens[tokensI].Relation? {
          if transformM && token.item == TriConst(1) {
            return Some(And(Atom(token.item), Atom(modules)));
          }
          return Some(Atom(token.item));
        }
        tokensI := tokensI + 1;
        var right := tokens[tokensI];
        if !right.Symbol? {
          return None;
        }
        tokensI := tokensI + 1;
        return Some(Rel(tokens[tokensI - 2].op, token.item, right.item));
      }
      if token == NotOp {
        r := FactorExpression(transformM);
        return if r.None? then None else Some(Not(r.value));
      }
      if token == OpenParen {
        r := Expression(transformM);
        if r.Some? {
          var closed := CheckToken(CloseParen);
          if closed {
            return r;
          }
        }
      }
      return None;
    }
  }

  /** Reads a printed expression. */
  method ReadPrinted(e: Expr, modules: Item) returns (r: Option<Expr>)
    requires Readable(e)
    ensures r == Some(RightAssoc(e))
  {
    ReadsPrinted(e, None);
    var parser := new Parser(Print(e) + [End], modules);
    r := parser.Expression(false);
  }

  /* Values */

  lemma {:induction false} JoinAndValue(cfg: Config, u: User, b: nat, x: Expr, y: Expr)
    requires Ok(cfg, u) && ExprBelow(cfg, b, x) && ExprBelow(cfg, b, y)
    ensures ExprBelow(cfg, b, JoinAnd(x, y))
    ensures ExprValue(cfg, u, b, JoinAnd(x, y)) == Min(ExprValue(cfg, u, b, x), ExprValue(cfg, u, b, y))
  {
    if x.And? {
      JoinAndValue(cfg, u, b, x.r, y);
    }
  }

  lemma {:induction false} JoinOrValue(cfg: Config, u: User, b: nat, x: Expr, y: Expr)
    requires Ok(cfg, u) && ExprBelow(cfg, b, x) && ExprBelow(cfg, b, y)
    ensures ExprBelow(cfg, b, JoinOr(x, y))
    ensures ExprValue(cfg, u, b, JoinOr(x, y)) == Max(ExprValue(cfg, u, b, x), ExprValue(cfg, u, b, y))
  {
    if x.Or? {
      JoinOrValue(cfg, u, b, x.r, y);
    }
  }

  /** Association to the right keeps the value of an expression, whatever its symbols are worth. */
  lemma {:induction false} RightAssocValue(cfg: Config, u: User, b: nat, e: Expr)
    requires Ok(cfg, u) && ExprBelow(cfg, b, e)
    ensures ExprBelow(cfg, b, RightAssoc(e))
    ensures ExprValue(cfg, u, b, RightAssoc(e)) == ExprValue(cfg, u, b, e)
  {
    match e
    case Atom(_) =>
    case And(l, r) =>
      RightAssocValue(cfg, u, b, l);
      RightAssocValue(cfg, u, b, r);
      JoinAndValue(cfg, u, b, RightAssoc(l), RightAssoc(r));
    case Or(l, r) =>
      RightAssocValue(cfg, u, b, l);
      RightAssocValue(cfg, u, b, r);
      JoinOrValue(cfg, u, b, RightAssoc(l), RightAssoc(r));
    case Not(f) => RightAssocValue(cfg, u, b, f);
    case Rel(_, _, _) =>
  }

  /** The constant m replaced by n, but not in relations. */
  function MAsN(e: Expr): Expr {
    match e
    case Atom(i) => if i == TriConst(1) then Atom(TriConst(0)) else e
    case And(l, r) => And(MAsN(l), MAsN(r))
    case Or(l, r) => Or(MAsN(l), MAsN(r))
    case Not(f) => Not(MAsN(f))
    case Rel(_, _, _) => e
  }

  /** Reading m as m && MODULES changes nothing unless MODULES is n, and then reads m as n. */
  lemma {:induction false} RewriteValue(cfg: Config, u: User, b: nat, e: Expr)
    requires Ok(cfg, u) && ExprBelow(cfg, b, e) && Below(cfg, b, Sym(cfg.modules))
    ensures ExprBelow(cfg, b, Rewrite(e, Some(Sym(cfg.modules)))) && ExprBelow(cfg, b, MAsN(e))
    ensures ExprValue(cfg, u, b, Rewrite(e, Some(Sym(cfg.modules))))
         == ExprValue(cfg, u, b, if SymTri(cfg, u, cfg.modules).val == 0 then MAsN(e) else e)
  {
    match e
    case Atom(i) =>
      assert ItemTri(cfg, u, b, Sym(cfg.modules)) == SymTri(cfg, u, cfg.modules).val;
      assert i == TriConst(1) ==> ItemTri(cfg, u, b, i) == 1;
    case And(l, r) =>
      RewriteValue(cfg, u, b, l);
      RewriteValue(cfg, u, b, r);
    case Or(l, r) =>
      RewriteValue(cfg, u, b, l);
      RewriteValue(cfg, u, b, r);
    case Not(f) => RewriteValue(cfg, u, b, f);
    case Rel(_, _, _) =>
  }

  /** An expression that was printed and read again has the value it had, and prints the same. */
  lemma ReadBackValue(cfg: Config, u: User, b: nat, e: Expr)
    requires Ok(cfg, u) && ExprBelow(cfg, b, e) && Readable(e)
    ensures Line(Print(e) + [End])
    ensures var p := ParseExpr(Print(e) + [End], 0, None);
            && p.Parsed? && ExprBelow(cfg, b, p.e)
            && ExprValue(cfg, u, b, p.e) == ExprValue(cfg, u, b, e)
            && Print(p.e) == Print(e)
  {
    ReadsPrinted(e, None);
    RightAssocValue(cfg, u, b, e);
    PrintsSame(e);
  }

  /* Splitting */

  /** The top-level operands of && or of ||, from left to right. */
  function SplitExpr(e: Expr, and: bool): seq<Expr> {
    if and && e.And? then SplitExpr(e.l, and) + SplitExpr(e.r, and)
    else if !and && e.Or? then SplitExpr(e.l, and) + SplitExpr(e.r, and)
    else [e]
  }

  /** The smallest or the largest of the values. */
  function Extreme(cfg: Config, u: User, b: nat, es: seq<Expr>, and: bool): Tri
    requires Ok(cfg, u) && forall k :: 0 <= k < |es| ==> ExprBelow(cfg, b, es[k])
  {
    if es == [] then (if and then 2 else 0)
    else if and then Min(ExprValue(cfg, u, b, es[0]), Extreme(cfg, u, b, es[1..], and))
    else Max(ExprValue(cfg, u, b, es[0]), Extreme(cfg, u, b, es[1..], and))
  }

  lemma {:induction false} ExtremeConcat(cfg: Config, u: User, b: nat, es: seq<Expr>, fs: seq<Expr>, and: bool)
    requires Ok(cfg, u) && forall k :: 0 <= k < |es| ==> ExprBelow(cfg, b, es[k])
    requires forall k :: 0 <= k < |fs| ==> ExprBelow(cfg, b, fs[k])
    ensures Extreme(cfg, u, b, es + fs, and)
         == if and then Min(Extreme(cfg, u, b, es, and), Extreme(cfg, u, b, fs, and))
            else Max(Extreme(cfg, u, b, es, and), Extreme(cfg, u, b, fs, and))
  {
    if es == [] {
      assert es + fs == fs;
    } else {
      assert (es + fs)[1..] == es[1..] + fs;
      ExtremeConcat(cfg, u, b, es[1..], fs, and);
    }
  }

  /** The operands are worth together what the expression is worth, none of them is to be split
      further, and association does not matter. */
  lemma {:induction false} SplitValue(cfg: Config, u: User, b: nat, e: Expr, and: bool)
    requires Ok(cfg, u) && ExprBelow(cfg, b, e)
    ensures forall k :: 0 <= k < |SplitExpr(e, and)| ==>
              && ExprBelow(cfg, b, SplitExpr(e, and)[k])
              && !(if and then SplitExpr(e, and)[k].And? else SplitExpr(e, and)[k].Or?)
    ensures Extreme(cfg, u, b, SplitExpr(e, and), and) == ExprValue(cfg, u, b, e)
  {
    if if and then e.And? else e.Or? {
      SplitValue(cfg, u, b, e.l, and);
      SplitValue(cfg, u, b, e.r, and);
      ExtremeConcat(cfg, u, b, SplitExpr(e.l, and), SplitExpr(e.r, and), and);
    }
  }

  lemma {:induction false} SplitJoin(x: Expr, y: Expr, and: bool)
    ensures SplitExpr(if and then JoinAnd(x, y) else JoinOr(x, y), and) == SplitExpr(x, and) + SplitExpr(y, and)
  {
    if if and then x.And? else x.Or? {
      SplitJoin(x.r, y, and);
      var a, b, c := SplitExpr(x.l, and), SplitExpr(x.r, and), SplitExpr(y, and);
      assert a + (b + c) == (a + b) + c;
    }
  }

  /** A chain read back has as many operands as before, each associated to the right. */
  lemma {:induction false} SplitReadBack(e: Expr, and: bool)
    ensures |SplitExpr(RightAssoc(e), and)| == |SplitExpr(e, and)|
    ensures forall k :: 0 <= k < |SplitExpr(e, and)| ==>
        SplitExpr(RightAssoc(e), and)[k] == RightAssoc(SplitExpr(e, and)[k])
  {
    NotJoined(e);
    if if and then e.And? else e.Or? {
      SplitReadBack(e.l, and);
      SplitReadBack(e.r, and);
      SplitJoin(RightAssoc(e.l), RightAssoc(e.r), and);
    }
  }

  /* Joining */

  function MakeAnd(e: Expr, f: Expr): Expr {
    if e == Atom(TriConst(2)) then f
    else if f == Atom(TriConst(2)) then e
    else if e == Atom(TriConst(0)) || f == Atom(TriConst(0)) then Atom(TriConst(0))
    else And(e, f)
  }

  function MakeOr(e: Expr, f: Expr): Expr {
    if e == Atom(TriConst(0)) then f
    else if f == Atom(TriConst(0)) then e
    else if e == Atom(TriConst(2)) || f == Atom(TriConst(2)) then Atom(TriConst(2))
    else Or(e, f)
  }

  lemma ConstBounds(cfg: Config, u: User, b: nat, e: Expr)
    requires Ok(cfg, u) && ExprBelow(cfg, b, e)
    ensures e == Atom(TriConst(0)) ==> ExprValue(cfg, u, b, e) == 0
    ensures e == Atom(TriConst(2)) ==> ExprValue(cfg, u, b, e) == 2
  {
  }

  /** The simplifications keep the value. */
  lemma MakeAndValue(cfg: Config, u: User, b: nat, e: Expr, f: Expr)
    requires Ok(cfg, u) && ExprBelow(cfg, b, e) && ExprBelow(cfg, b, f)
    ensures ExprBelow(cfg, b, MakeAnd(e, f))
    ensures ExprValue(cfg, u, b, MakeAnd(e, f)) == Min(ExprValue(cfg, u, b, e), ExprValue(cfg, u, b, f))
  {
    ConstBounds(cfg, u, b, e);
    ConstBounds(cfg, u, b, f);
    ConstBounds(cfg, u, b, Atom(TriConst(0)));
  }

  lemma MakeOrValue(cfg: Config, u: User, b: nat, e: Expr, f: Expr)
    requires Ok(cfg, u) && ExprBelow(cfg, b, e) && ExprBelow(cfg, b, f)
    ensures ExprBelow(cfg, b, MakeOr(e, f))
    ensures ExprValue(cfg, u, b, MakeOr(e, f)) == Max(ExprValue(cfg, u, b, e), ExprValue(cfg, u, b, f))
  {
    ConstBounds(cfg, u, b, e);
    ConstBounds(cfg, u, b, f);
    ConstBounds(cfg, u, b, Atom(TriConst(2)));
  }

  predicate NorY(e: Expr) { e == Atom(TriConst(0)) || e == Atom(TriConst(2)) }

  /** With a constant n or y as an operand the result is one of the operands, and otherwise both are joined. */
  lemma Simplified(e: Expr, f: Expr)
    ensures NorY(e) || NorY(f) ==> MakeAnd(e, f) in {e, f} && MakeOr(e, f) in {e, f}
    ensures !NorY(e) && !NorY(f) ==> MakeAnd(e, f) == And(e, f) && MakeOr(e, f) == Or(e, f)
  {
  }
}
