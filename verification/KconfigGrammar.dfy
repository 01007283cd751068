/** The grammar of expressions: exactly which tokens are read, as what, and which are malformed. */
module KconfigGrammar {
  import opened KconfigSyntax
  import opened KconfigParsing

  /** How an expression is written, with its parentheses. */
  datatype Form =
    | Name(x: Item)
    | Compare(op: RelOp, x: Item, y: Item)
    | Negated(f: Form)
    | Parens(f: Form)
    | Both(l: Form, r: Form)
    | Either(l: Form, r: Form)

  /** `!` applies to what is closest; && binds stronger than ||, and both group to the right. */
  predicate IsFactor(f: Form)
    decreases f, 0
  {
    match f
    case Name(_) => true
    case Compare(_, _, _) => true
    case Negated(g) => IsFactor(g)
    case Parens(g) => IsExpr(g)
    case _ => false
  }

  predicate IsAnd(f: Form)
    decreases f, 1
  {
    if f.Both? then IsFactor(f.l) && IsAnd(f.r) else IsFactor(f)
  }

  predicate IsExpr(f: Form)
    decreases f, 2
  {
    if f.Either? then IsAnd(f.l) && IsExpr(f.r) else IsAnd(f)
  }

  function Tokens(f: Form): seq<Token> {
    match f
    case Name(x) => [Symbol(x)]
    case Compare(op, x, y) => [Symbol(x), Relation(op), Symbol(y)]
    case Negated(g) => [NotOp] + Tokens(g)
    case Parens(g) => [OpenParen] + Tokens(g) + [CloseParen]
    case Both(l, r) => Tokens(l) + [AndOp] + Tokens(r)
    case Either(l, r) => Tokens(l) + [OrOp] + Tokens(r)
  }

  /** What is written; with `modules`, the constant m stands for m && MODULES, but not in comparisons. */
  function Means(f: Form, modules: Option<Item>): Expr {
    match f
    case Name(x) =>
      if modules.Some? && x == TriConst(1) then And(Atom(TriConst(1)), Atom(modules.value)) else Atom(x)
    case Compare(op, x, y) => Rel(op, x, y)
    case Negated(g) => Not(Means(g, modules))
    case Parens(g) => Means(g, modules)
    case Both(l, r) => And(Means(l, modules), Means(r, modules))
    case Either(l, r) => Or(Means(l, modules), Means(r, modules))
  }

  /** The last token is a name that a comparison could follow. */
  predicate EndsInName(f: Form) {
    match f
    case Name(_) => true
    case Negated(g) => EndsInName(g)
    case Both(_, r) => EndsInName(r)
    case Either(_, r) => EndsInName(r)
    case _ => false
  }

  /** The tokens from `i` up to `k` are those of the form, and it does not go on behind them. */
  predicate Stands(t: seq<Token>, i: nat, k: nat, f: Form) {
    && k == i + |Tokens(f)| && At(t, i, Tokens(f))
    && (EndsInName(f) ==> !t[k].Relation?)
  }

  /* Everything that is written is read */

  lemma NameRead(t: seq<Token>, i: nat, k: nat, f: Form, m: Option<Item>)
    requires Line(t) && (f.Name? || f.Compare?) && Stands(t, i, k, f)
    ensures ParseFactor(t, i, m) == Parsed(Means(f, m), k)
  {
    TokenAt(t, i, Tokens(f), 0);
    if f.Compare? {
      TokenAt(t, i, Tokens(f), 1);
      TokenAt(t, i, Tokens(f), 2);
    }
  }

  lemma NegatedAt(t: seq<Token>, i: nat, k: nat, g: Form)
    requires Stands(t, i, k, Negated(g))
    ensures t[i] == NotOp && Stands(t, i + 1, k, g)
  {
    AtParts(t, i, [NotOp], Tokens(g));
    TokenAt(t, i, [NotOp], 0);
  }

  lemma {:induction false} FactorRead(t: seq<Token>, i: nat, k: nat, f: Form, m: Option<Item>)
    requires Line(t) && IsFactor(f) && Stands(t, i, k, f)
    ensures ParseFactor(t, i, m) == Parsed(Means(f, m), k)
    decreases f, 0
  {
    match f
    case Name(_) => NameRead(t, i, k, f, m);
    case Compare(_, _, _) => NameRead(t, i, k, f, m);
    case Negated(g) =>
      NegatedAt(t, i, k, g);
      FactorRead(t, i + 1, k, g, m);
    case Parens(g) =>
      var j := ParensAt(t, i, k, g);
      ExprRead(t, i + 1, j, g, m);
  }

  lemma ParensAt(t: seq<Token>, i: nat, k: nat, g: Form) returns (j: nat)
    requires Stands(t, i, k, Parens(g))
    ensures k == j + 1 && t[i] == OpenParen && t[j] == CloseParen && Stands(t, i + 1, j, g)
  {
    AtThree'(t, i, OpenParen, Tokens(g), CloseParen);
    j := k - 1;
  }

  /** The tokens of two forms with an operator between them. */
  lemma TwoStand(t: seq<Token>, i: nat, k: nat, l: Form, op: Token, r: Form) returns (j: nat)
    requires At(t, i, Tokens(l) + [op] + Tokens(r)) && k == i + |Tokens(l)| + 1 + |Tokens(r)|
    requires !op.Relation? && (EndsInName(r) ==> !t[k].Relation?)
    ensures j + 1 < k && t[j] == op && Stands(t, i, j, l) && Stands(t, j + 1, k, r)
  {
    AtThree(t, i, Tokens(l), op, Tokens(r));
    j := i + |Tokens(l)|;
    SomeTokens(r);
  }

  lemma {:induction false} SomeTokens(f: Form)
    ensures Tokens(f) != []
  {
  }

  lemma {:induction false} AndRead(t: seq<Token>, i: nat, k: nat, f: Form, m: Option<Item>)
    requires Line(t) && IsAnd(f) && Stands(t, i, k, f) && t[k] != AndOp
    ensures ParseAnd(t, i, m) == Parsed(Means(f, m), k)
    decreases f, 1
  {
    if f.Both? {
      var j := TwoStand(t, i, k, f.l, AndOp, f.r);
      FactorRead(t, i, j, f.l, m);
      AndRead(t, j + 1, k, f.r, m);
      AndMore(t, i, m, Means(f.l, m), j, Means(f.r, m), k);
    } else {
      FactorRead(t, i, k, f, m);
      AndOne(t, i, m, Means(f, m), k);
    }
  }

  lemma {:induction false} ExprRead(t: seq<Token>, i: nat, k: nat, f: Form, m: Option<Item>)
    requires Line(t) && IsExpr(f) && Stands(t, i, k, f) && t[k] != AndOp && t[k] != OrOp
    ensures ParseExpr(t, i, m) == Parsed(Means(f, m), k)
    decreases f, 2
  {
    if f.Either? {
      var j := TwoStand(t, i, k, f.l, OrOp, f.r);
      AndRead(t, i, j, f.l, m);
      ExprRead(t, j + 1, k, f.r, m);
      OrMore(t, i, m, Means(f.l, m), j, Means(f.r, m), k);
    } else {
      AndRead(t, i, k, f, m);
      OrOne(t, i, m, Means(f, m), k);
    }
  }

  /* Only what is written is read */

  lemma Joined(t: seq<Token>, i: nat, j: nat, k: nat, a: seq<Token>, op: Token, b: seq<Token>)
    requires At(t, i, a) && j == i + |a| && j < |t| && t[j] == op && At(t, j + 1, b) && k == j + 1 + |b|
    ensures At(t, i, a + [op] + b)
  {
    assert t[i..k] == t[i..j] + [t[j]] + t[j + 1..k];
  }

  lemma BothStand(t: seq<Token>, i: nat, j: nat, k: nat, l: Form, r: Form)
    requires j < |t| && t[j] == AndOp && Stands(t, i, j, l) && Stands(t, j + 1, k, r)
    ensures Stands(t, i, k, Both(l, r))
  {
    Joined(t, i, j, k, Tokens(l), AndOp, Tokens(r));
  }

  lemma EitherStands(t: seq<Token>, i: nat, j: nat, k: nat, l: Form, r: Form)
    requires j < |t| && t[j] == OrOp && Stands(t, i, j, l) && Stands(t, j + 1, k, r)
    ensures Stands(t, i, k, Either(l, r))
  {
    Joined(t, i, j, k, Tokens(l), OrOp, Tokens(r));
  }

  lemma {:induction false} FactorWritten(t: seq<Token>, i: nat, m: Option<Item>) returns (f: Form)
    requires Line(t) && i < |t| && ParseFactor(t, i, m).Parsed?
    ensures var r := ParseFactor(t, i, m); IsFactor(f) && Stands(t, i, r.next, f) && Means(f, m) == r.e
    decreases |t| - i, 0
  {
    match t[i]
    case Symbol(x) =>
      if t[i + 1].Relation? {
        f := Compare(t[i + 1].op, x, t[i + 2].item);
        assert t[i..i + 3] == Tokens(f);
      } else {
        f := Name(x);
        assert t[i..i + 1] == Tokens(f);
      }
    case NotOp =>
      var g := FactorWritten(t, i + 1, m);
      f := Negated(g);
      NegatedStands(t, i, ParseFactor(t, i, m).next, g);
    case OpenParen =>
      var g := ExprWritten(t, i + 1, m);
      f := Parens(g);
      ParensStand(t, i, ParseFactor(t, i, m).next, g);
  }

  lemma NegatedStands(t: seq<Token>, i: nat, k: nat, g: Form)
    requires i < |t| && t[i] == NotOp && Stands(t, i + 1, k, g)
    ensures Stands(t, i, k, Negated(g))
  {
    assert t[i..k] == [t[i]] + t[i + 1..k];
  }

  lemma ParensStand(t: seq<Token>, i: nat, k: nat, g: Form)
    requires 0 < k < |t| && i < |t| && t[i] == OpenParen && t[k - 1] == CloseParen && Stands(t, i + 1, k - 1, g)
    ensures Stands(t, i, k, Parens(g))
  {
    assert t[i..k] == [t[i]] + t[i + 1..k - 1] + [t[k - 1]];
  }

  lemma {:induction false} AndWritten(t: seq<Token>, i: nat, m: Option<Item>) returns (f: Form)
    requires Line(t) && i < |t| && ParseAnd(t, i, m).Parsed?
    ensures var r := ParseAnd(t, i, m);
            IsAnd(f) && Stands(t, i, r.next, f) && Means(f, m) == r.e && t[r.next] != AndOp
    decreases |t| - i, 1
  {
    var l := FactorWritten(t, i, m);
    var j := ParseFactor(t, i, m).next;
    if t[j] == AndOp {
      var r := AndWritten(t, j + 1, m);
      f := Both(l, r);
      BothStand(t, i, j, ParseAnd(t, i, m).next, l, r);
    } else {
      f := l;
    }
  }

  lemma {:induction false} ExprWritten(t: seq<Token>, i: nat, m: Option<Item>) returns (f: Form)
    requires Line(t) && i < |t| && ParseExpr(t, i, m).Parsed?
    ensures var r := ParseExpr(t, i, m);
            IsExpr(f) && Stands(t, i, r.next, f) && Means(f, m) == r.e && t[r.next] != AndOp && t[r.next] != OrOp
    decreases |t| - i, 2
  {
    var l := AndWritten(t, i, m);
    var j := ParseAnd(t, i, m).next;
    if t[j] == OrOp {
      var r := ExprWritten(t, j + 1, m);
      f := Either(l, r);
      EitherStands(t, i, j, ParseExpr(t, i, m).next, l, r);
    } else {
      f := l;
    }
  }

  /** The tokens from `i` on are a whole expression up to `k`. */
  predicate Written(t: seq<Token>, i: nat, k: nat, f: Form) {
    IsExpr(f) && Stands(t, i, k, f) && t[k] != AndOp && t[k] != OrOp
  }

  /** The parser reads an expression just when one is written there, and reads it as what it means. */
  lemma ParsesExactly(t: seq<Token>, i: nat, m: Option<Item>, e: Expr, k: nat)
    requires Line(t) && i < |t|
    ensures ParseExpr(t, i, m) == Parsed(e, k) <==> exists f :: Written(t, i, k, f) && Means(f, m) == e
  {
    if ParseExpr(t, i, m) == Parsed(e, k) {
      var f := ExprWritten(t, i, m);
      assert Written(t, i, k, f);
    }
    if f :| Written(t, i, k, f) && Means(f, m) == e {
      ExprRead(t, i, k, f, m);
    }
  }

  /** So tokens are malformed just when no expression is written there. */
  lemma MalformedExactly(t: seq<Token>, i: nat, m: Option<Item>)
    requires Line(t) && i < |t|
    ensures ParseExpr(t, i, m) == Malformed <==> forall f, k :: !Written(t, i, k, f)
  {
    if ParseExpr(t, i, m).Parsed? {
      var f := ExprWritten(t, i, m);
      assert Written(t, i, ParseExpr(t, i, m).next, f);
    } else if f, k :| Written(t, i, k, f) {
      ExprRead(t, i, k, f, m);
    }
  }

  /* Printing */

  /** The form shows the expression: operands of ! are in parentheses unless they are names, and operands of
      && and of || if they are chains of the other operator. */
  predicate Shows(f: Form, e: Expr)
    decreases e, 0
  {
    match e
    case Atom(x) => f == Name(x)
    case Rel(op, x, y) => f == Compare(op, x, y)
    case Not(g) => f.Negated? && ShowsOperand(f.f, g, !g.Atom?)
    case And(l, r) => f.Both? && ShowsOperand(f.l, l, l.Or?) && ShowsOperand(f.r, r, r.Or?)
    case Or(l, r) => f.Either? && ShowsOperand(f.l, l, l.And?) && ShowsOperand(f.r, r, r.And?)
  }

  predicate ShowsOperand(f: Form, e: Expr, parens: bool)
    decreases e, 1
  {
    if parens then f.Parens? && Shows(f.f, e) else Shows(f, e)
  }

  /** The printed tokens are those of a form that shows the expression. */
  lemma {:induction false} PrintedForm(e: Expr) returns (f: Form)
    ensures Shows(f, e) && Print(e) == Tokens(f)
    decreases e, 0
  {
    match e
    case Atom(x) => f := Name(x);
    case Rel(op, x, y) => f := Compare(op, x, y);
    case Not(g) =>
      var h := PrintedOperand(g, !g.Atom?);
      f := Negated(h);
    case And(l, r) =>
      var a := PrintedOperand(l, l.Or?);
      var b := PrintedOperand(r, r.Or?);
      f := Both(a, b);
    case Or(l, r) =>
      var a := PrintedOperand(l, l.And?);
      var b := PrintedOperand(r, r.And?);
      f := Either(a, b);
  }

  lemma {:induction false} PrintedOperand(e: Expr, parens: bool) returns (f: Form)
    ensures ShowsOperand(f, e, parens) && Operand(e, parens) == Tokens(f)
    decreases e, 1
  {
    f := PrintedForm(e);
    if parens {
      f := Parens(f);
    }
  }

  /** Only one form shows an expression. */
  lemma {:induction false} OneForm(e: Expr, f: Form, g: Form)
    requires Shows(f, e) && Shows(g, e)
    ensures f == g
    decreases e, 0
  {
    match e
    case Atom(_) =>
    case Rel(_, _, _) =>
    case Not(h) => OneOperand(h, f.f, g.f, !h.Atom?);
    case And(l, r) =>
      OneOperand(l, f.l, g.l, l.Or?);
      OneOperand(r, f.r, g.r, r.Or?);
    case Or(l, r) =>
      OneOperand(l, f.l, g.l, l.And?);
      OneOperand(r, f.r, g.r, r.And?);
  }

  lemma {:induction false} OneOperand(e: Expr, f: Form, g: Form, parens: bool)
    requires ShowsOperand(f, e, parens) && ShowsOperand(g, e, parens)
    ensures f == g
    decreases e, 1
  {
    if parens {
      OneForm(e, f.f, g.f);
    } else {
      OneForm(e, f, g);
    }
  }
}
