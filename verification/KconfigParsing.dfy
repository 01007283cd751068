/** Expressions as tokens: the printer, and the grammar that the parser follows. */
module KconfigParsing {
  import opened KconfigSyntax

  /** `Other` stands for keywords and strings that cannot occur in an expression, `End` for the end of
      the line. */
  datatype Token =
    | Symbol(item: Item)
    | AndOp | OrOp | NotOp | OpenParen | CloseParen
    | Relation(op: RelOp)
    | Other(text: string)
    | End

  /** A line of tokens; its symbols are not choices. */
  predicate Line(t: seq<Token>) {
    t != [] && t[|t| - 1] == End && forall i :: 0 <= i < |t| && t[i].Symbol? ==> IsSymbol(t[i].item)
  }

  datatype Parse = Parsed(e: Expr, next: nat) | Malformed

  /* The parser, from position `i` on. With `modules`, the constant m is read as m && MODULES. */

  function ParseExpr(t: seq<Token>, i: nat, modules: Option<Item>): (r: Parse)
    requires Line(t) && i < |t|
    ensures r.Parsed? ==> i < r.next < |t|
    decreases |t| - i, 2
  {
    match ParseAnd(t, i, modules)
    case Malformed => Malformed
    case Parsed(e, j) =>
      if t[j] != OrOp then Parsed(e, j)
      else
        match ParseExpr(t, j + 1, modules)
        case Malformed => Malformed
        case Parsed(f, k) => Parsed(Or(e, f), k)
  }

  function ParseAnd(t: seq<Token>, i: nat, modules: Option<Item>): (r: Parse)
    requires Line(t) && i < |t|
    ensures r.Parsed? ==> i < r.next < |t|
    decreases |t| - i, 1
  {
    match ParseFactor(t, i, modules)
    case Malformed => Malformed
    case Parsed(e, j) =>
      if t[j] != AndOp then Parsed(e, j)
      else
        match ParseAnd(t, j + 1, modules)
        case Malformed => Malformed
        case Parsed(f, k) => Parsed(And(e, f), k)
  }

  function ParseFactor(t: seq<Token>, i: nat, modules: Option<Item>): (r: Parse)
    requires Line(t) && i < |t|
    ensures r.Parsed? ==> i < r.next < |t|
    decreases |t| - i, 0
  {
    match t[i]
    case Symbol(x) =>
      if !t[i + 1].Relation? then Parsed(AtomOf(x, modules), i + 1)
      else if !t[i + 2].Symbol? then Malformed
      else Parsed(Rel(t[i + 1].op, x, t[i + 2].item), i + 3)
    case NotOp =>
      (match ParseFactor(t, i + 1, modules)
       case Malformed => Malformed
       case Parsed(e, j) => Parsed(Not(e), j))
    case OpenParen =>
      (match ParseExpr(t, i + 1, modules)
       case Malformed => Malformed
       case Parsed(e, j) => if t[j] == CloseParen then Parsed(e, j + 1) else Malformed)
    case _ => Malformed
  }

  function AtomOf(x: Item, modules: Option<Item>): Expr {
    if x == TriConst(1) && modules.Some? then And(Atom(x), Atom(modules.value)) else Atom(x)
  }

  /* The printer */

  function Print(e: Expr): seq<Token>
    decreases e, 0
  {
    match e
    case Atom(i) => [Symbol(i)]
    case And(l, r) => Operand(l, l.Or?) + [AndOp] + Operand(r, r.Or?)
    case Or(l, r) => Operand(l, l.And?) + [OrOp] + Operand(r, r.And?)
    case Not(f) => [NotOp] + Operand(f, !f.Atom?)
    case Rel(op, x, y) => [Symbol(x), Relation(op), Symbol(y)]
  }

  /** An operand, in parentheses or not. */
  function Operand(e: Expr, parens: bool): seq<Token>
    decreases e, 1
  {
    if parens then [OpenParen] + Print(e) + [CloseParen] else Print(e)
  }

  /** A printed choice cannot be read again. */
  predicate Readable(e: Expr) {
    match e
    case Atom(i) => IsSymbol(i)
    case And(l, r) => Readable(l) && Readable(r)
    case Or(l, r) => Readable(l) && Readable(r)
    case Not(f) => Readable(f)
    case Rel(_, x, y) => IsSymbol(x) && IsSymbol(y)
  }

  /* Association to the right */

  function JoinAnd(x: Expr, y: Expr): Expr {
    if x.And? then And(x.l, JoinAnd(x.r, y)) else And(x, y)
  }

  function JoinOr(x: Expr, y: Expr): Expr {
    if x.Or? then Or(x.l, JoinOr(x.r, y)) else Or(x, y)
  }

  /** The expression with its chains of && and of || associated to the right. */
  function RightAssoc(e: Expr): Expr {
    match e
    case Atom(_) => e
    case And(l, r) => JoinAnd(RightAssoc(l), RightAssoc(r))
    case Or(l, r) => JoinOr(RightAssoc(l), RightAssoc(r))
    case Not(f) => Not(RightAssoc(f))
    case Rel(_, _, _) => e
  }

  /** The expression with m read as m && MODULES. */
  function Rewrite(e: Expr, modules: Option<Item>): Expr {
    match e
    case Atom(i) => AtomOf(i, modules)
    case And(l, r) => And(Rewrite(l, modules), Rewrite(r, modules))
    case Or(l, r) => Or(Rewrite(l, modules), Rewrite(r, modules))
    case Not(f) => Not(Rewrite(f, modules))
    case Rel(_, _, _) => e
  }

  lemma {:induction false} JoinAndAssoc(x: Expr, y: Expr, z: Expr)
    ensures JoinAnd(JoinAnd(x, y), z) == JoinAnd(x, JoinAnd(y, z))
  {
    if x.And? {
      JoinAndAssoc(x.r, y, z);
    }
  }

  lemma {:induction false} JoinOrAssoc(x: Expr, y: Expr, z: Expr)
    ensures JoinOr(JoinOr(x, y), z) == JoinOr(x, JoinOr(y, z))
  {
    if x.Or? {
      JoinOrAssoc(x.r, y, z);
    }
  }

  /* Reading what was printed */

  /** The tokens `s` are at position `i`, and more follow. */
  predicate At(t: seq<Token>, i: nat, s: seq<Token>) {
    i + |s| < |t| && t[i..i + |s|] == s
  }

  lemma AtParts(t: seq<Token>, i: nat, a: seq<Token>, b: seq<Token>)
    requires At(t, i, a + b)
    ensures At(t, i, a) && At(t, i + |a|, b)
  {
    assert t[i..i + |a|] == (a + b)[..|a|] == a;
    assert t[i + |a|..i + |a + b|] == (a + b)[|a|..] == b;
  }

  lemma AtThree(t: seq<Token>, i: nat, a: seq<Token>, op: Token, b: seq<Token>)
    requires At(t, i, a + [op] + b)
    ensures At(t, i, a) && t[i + |a|] == op && At(t, i + |a| + 1, b)
  {
    AtParts(t, i, a + [op], b);
    TokenAt(t, i, a + [op], |a|);
    AtParts(t, i, a, [op]);
  }

  /* One step of the grammar */

  lemma AndOne(t: seq<Token>, i: nat, m: Option<Item>, x: Expr, k: nat)
    requires Line(t) && i < |t| && ParseFactor(t, i, m) == Parsed(x, k) && t[k] != AndOp
    ensures ParseAnd(t, i, m) == Parsed(x, k)
  {
  }

  lemma AndMore(t: seq<Token>, i: nat, m: Option<Item>, x: Expr, k: nat, y: Expr, j: nat)
    requires Line(t) && i < |t| && ParseFactor(t, i, m) == Parsed(x, k)
    requires t[k] == AndOp && ParseAnd(t, k + 1, m) == Parsed(y, j)
    ensures ParseAnd(t, i, m) == Parsed(And(x, y), j)
  {
  }

  lemma OrOne(t: seq<Token>, i: nat, m: Option<Item>, x: Expr, k: nat)
    requires Line(t) && i < |t| && ParseAnd(t, i, m) == Parsed(x, k) && t[k] != OrOp
    ensures ParseExpr(t, i, m) == Parsed(x, k)
  {
  }

  lemma OrMore(t: seq<Token>, i: nat, m: Option<Item>, x: Expr, k: nat, y: Expr, j: nat)
    requires Line(t) && i < |t| && ParseAnd(t, i, m) == Parsed(x, k)
    requires t[k] == OrOp && ParseExpr(t, k + 1, m) == Parsed(y, j)
    ensures ParseExpr(t, i, m) == Parsed(Or(x, y), j)
  {
  }

  /** An operand of && that another one follows. */
  lemma {:induction false} AndThen(e: Expr, t: seq<Token>, i: nat, m: Option<Item>, rest: Expr, j: nat)
    requires Line(t) && Readable(e) && At(t, i, Operand(e, e.Or?))
    requires var k := i + |Operand(e, e.Or?)|;
             t[k] == AndOp && ParseAnd(t, k + 1, m) == Parsed(Rewrite(rest, m), j)
    ensures ParseAnd(t, i, m) == Parsed(Rewrite(JoinAnd(RightAssoc(e), rest), m), j)
    decreases |Operand(e, e.Or?)|, 2
  {
    if e.And? {
      var n := |Operand(e.l, e.l.Or?)|;
      AtThree(t, i, Operand(e.l, e.l.Or?), AndOp, Operand(e.r, e.r.Or?));
      assert ParseAnd(t, i + n + 1, m) == Parsed(Rewrite(JoinAnd(RightAssoc(e.r), rest), m), j) by {
        AndThen(e.r, t, i + n + 1, m, rest, j);
      }
      AndThen(e.l, t, i, m, JoinAnd(RightAssoc(e.r), rest), j);
      JoinAndAssoc(RightAssoc(e.l), RightAssoc(e.r), rest);
    } else {
      AndThenFactor(e, t, i, m, rest, j);
    }
  }

  lemma {:induction false} AndThenFactor(e: Expr, t: seq<Token>, i: nat, m: Option<Item>, rest: Expr, j: nat)
    requires Line(t) && Readable(e) && At(t, i, Operand(e, e.Or?)) && !e.And?
    requires var k := i + |Operand(e, e.Or?)|;
             t[k] == AndOp && ParseAnd(t, k + 1, m) == Parsed(Rewrite(rest, m), j)
    ensures ParseAnd(t, i, m) == Parsed(Rewrite(JoinAnd(RightAssoc(e), rest), m), j)
    decreases |Operand(e, e.Or?)|, 1
  {
    Factor(e, e.Or?, t, i, m);
    AndMore(t, i, m, Rewrite(RightAssoc(e), m), i + |Operand(e, e.Or?)|, Rewrite(rest, m), j);
    NotJoined(e);
  }

  /** The last operand of &&. */
  lemma {:induction false} AndEnd(e: Expr, t: seq<Token>, i: nat, m: Option<Item>)
    requires Line(t) && Readable(e) && At(t, i, Operand(e, e.Or?))
    requires !t[i + |Operand(e, e.Or?)|].AndOp? && !t[i + |Operand(e, e.Or?)|].Relation?
    ensures ParseAnd(t, i, m) == Parsed(Rewrite(RightAssoc(e), m), i + |Operand(e, e.Or?)|)
    decreases |Operand(e, e.Or?)|, 3
  {
    if e.And? {
      var n := |Operand(e.l, e.l.Or?)|;
      AtThree(t, i, Operand(e.l, e.l.Or?), AndOp, Operand(e.r, e.r.Or?));
      AndEnd(e.r, t, i + n + 1, m);
      AndThen(e.l, t, i, m, RightAssoc(e.r), i + |Print(e)|);
    } else {
      Factor(e, e.Or?, t, i, m);
      AndOne(t, i, m, Rewrite(RightAssoc(e), m), i + |Operand(e, e.Or?)|);
    }
  }

  lemma {:induction false} OrThen(e: Expr, t: seq<Token>, i: nat, m: Option<Item>, rest: Expr, j: nat)
    requires Line(t) && Readable(e) && At(t, i, Operand(e, e.And?))
    requires var k := i + |Operand(e, e.And?)|;
             t[k] == OrOp && ParseExpr(t, k + 1, m) == Parsed(Rewrite(rest, m), j)
    ensures ParseExpr(t, i, m) == Parsed(Rewrite(JoinOr(RightAssoc(e), rest), m), j)
    decreases |Operand(e, e.And?)|, 2
  {
    if e.Or? {
      var n := |Operand(e.l, e.l.And?)|;
      AtThree(t, i, Operand(e.l, e.l.And?), OrOp, Operand(e.r, e.r.And?));
      OrThen(e.r, t, i + n + 1, m, rest, j);
      OrThen(e.l, t, i, m, JoinOr(RightAssoc(e.r), rest), j);
      JoinOrAssoc(RightAssoc(e.l), RightAssoc(e.r), rest);
    } else {
      OrThenFactor(e, t, i, m, rest, j);
    }
  }

  lemma {:induction false} OrThenFactor(e: Expr, t: seq<Token>, i: nat, m: Option<Item>, rest: Expr, j: nat)
    requires Line(t) && Readable(e) && At(t, i, Operand(e, e.And?)) && !e.Or?
    requires var k := i + |Operand(e, e.And?)|;
             t[k] == OrOp && ParseExpr(t, k + 1, m) == Parsed(Rewrite(rest, m), j)
    ensures ParseExpr(t, i, m) == Parsed(Rewrite(JoinOr(RightAssoc(e), rest), m), j)
    decreases |Operand(e, e.And?)|, 1
  {
    Factor(e, e.And?, t, i, m);
    AndOne(t, i, m, Rewrite(RightAssoc(e), m), i + |Operand(e, e.And?)|);
    OrMore(t, i, m, Rewrite(RightAssoc(e), m), i + |Operand(e, e.And?)|, Rewrite(rest, m), j);
    NotJoined(e);
  }

  lemma {:induction false} OrEnd(e: Expr, t: seq<Token>, i: nat, m: Option<Item>)
    requires Line(t) && Readable(e) && At(t, i, Operand(e, e.And?))
    requires var next := t[i + |Operand(e, e.And?)|]; !next.AndOp? && !next.OrOp? && !next.Relation?
    ensures ParseExpr(t, i, m) == Parsed(Rewrite(RightAssoc(e), m), i + |Operand(e, e.And?)|)
    decreases |Operand(e, e.And?)|, 3
  {
    if e.Or? {
      var n := |Operand(e.l, e.l.And?)|;
      AtThree(t, i, Operand(e.l, e.l.And?), OrOp, Operand(e.r, e.r.And?));
      OrEnd(e.r, t, i + n + 1, m);
      OrThen(e.l, t, i, m, RightAssoc(e.r), i + |Print(e)|);
    } else {
      Factor(e, e.And?, t, i, m);
      AndOne(t, i, m, Rewrite(RightAssoc(e), m), i + |Operand(e, e.And?)|);
      OrOne(t, i, m, Rewrite(RightAssoc(e), m), i + |Operand(e, e.And?)|);
    }
  }

  /** Only chains are associated. */
  lemma NotJoined(e: Expr)
    ensures RightAssoc(e).And? <==> e.And?
    ensures RightAssoc(e).Or? <==> e.Or?
  {
  }

  /** A whole expression, as it is printed. */
  lemma {:induction false} Whole(e: Expr, t: seq<Token>, i: nat, m: Option<Item>)
    requires Line(t) && Readable(e) && At(t, i, Print(e))
    requires var next := t[i + |Print(e)|]; !next.AndOp? && !next.OrOp? && !next.Relation?
    ensures ParseExpr(t, i, m) == Parsed(Rewrite(RightAssoc(e), m), i + |Print(e)|)
    decreases |Print(e)|, 4
  {
    if e.And? {
      AndEnd(e, t, i, m);
    } else {
      OrEnd(e, t, i, m);
    }
  }

  /** A token of a list that is at position `i`. */
  lemma TokenAt(t: seq<Token>, i: nat, s: seq<Token>, k: nat)
    requires At(t, i, s) && k < |s|
    ensures t[i + k] == s[k]
  {
    assert t[i..i + |s|][k] == t[i + k];
  }

  /** An operand that is a factor: in parentheses, or neither && nor ||. */
  lemma {:induction false} Factor(e: Expr, parens: bool, t: seq<Token>, i: nat, m: Option<Item>)
    requires Line(t) && Readable(e) && At(t, i, Operand(e, parens))
    requires parens || (!e.And? && !e.Or?)
    requires !t[i + |Operand(e, parens)|].Relation?
    ensures ParseFactor(t, i, m) == Parsed(Rewrite(RightAssoc(e), m), i + |Operand(e, parens)|)
    decreases |Operand(e, parens)|, 0
  {
    if parens {
      AtThree'(t, i, OpenParen, Print(e), CloseParen);
      Whole(e, t, i + 1, m);
    } else {
      match e
      case Atom(x) => TokenAt(t, i, [Symbol(x)], 0);
      case Rel(op, x, y) =>
        TokenAt(t, i, Print(e), 0);
        TokenAt(t, i, Print(e), 1);
        TokenAt(t, i, Print(e), 2);
      case Not(f) =>
        assert t[i] == NotOp && At(t, i + 1, Operand(f, !f.Atom?)) by {
          AtParts(t, i, [NotOp], Operand(f, !f.Atom?));
          TokenAt(t, i, [NotOp], 0);
        }
        Factor(f, !f.Atom?, t, i + 1, m);
    }
  }

  lemma AtThree'(t: seq<Token>, i: nat, a: Token, s: seq<Token>, b: Token)
    requires At(t, i, [a] + s + [b])
    ensures t[i] == a && At(t, i + 1, s) && t[i + 1 + |s|] == b
  {
    AtParts(t, i, [a] + s, [b]);
    AtParts(t, i, [a], s);
    TokenAt(t, i, [a], 0);
    TokenAt(t, i + 1 + |s|, [b], 0);
  }

  /** Reading the tokens of a printed expression consumes them all, and gives the expression with its
      chains associated to the right and, if asked for, m read as m && MODULES. */
  lemma ReadsPrinted(e: Expr, m: Option<Item>)
    requires Readable(e)
    ensures Line(Print(e) + [End])
    ensures ParseExpr(Print(e) + [End], 0, m) == Parsed(Rewrite(RightAssoc(e), m), |Print(e)|)
    ensures Rewrite(RightAssoc(e), None) == RightAssoc(e)
  {
    PrintsSymbols(e);
    var t := Print(e) + [End];
    assert t[0..|Print(e)|] == Print(e);
    Whole(e, t, 0, m);
    RewriteNothing(RightAssoc(e));
  }

  predicate SymbolsIn(t: seq<Token>) { forall k :: 0 <= k < |t| && t[k].Symbol? ==> IsSymbol(t[k].item) }

  lemma {:induction false} PrintsSymbols(e: Expr)
    requires Readable(e)
    ensures SymbolsIn(Print(e))
  {
    match e
    case Atom(_) =>
    case And(l, r) =>
      PrintsSymbols(l);
      PrintsSymbols(r);
      assert SymbolsIn(Operand(l, l.Or?)) && SymbolsIn(Operand(r, r.Or?));
    case Or(l, r) =>
      PrintsSymbols(l);
      PrintsSymbols(r);
      assert SymbolsIn(Operand(l, l.And?)) && SymbolsIn(Operand(r, r.And?));
    case Not(f) => PrintsSymbols(f);
    case Rel(_, _, _) =>
  }

  lemma {:induction false} RewriteNothing(e: Expr)
    ensures Rewrite(e, None) == e
  {
    match e
    case And(l, r) =>
      RewriteNothing(l);
      RewriteNothing(r);
    case Or(l, r) =>
      RewriteNothing(l);
      RewriteNothing(r);
    case Not(f) => RewriteNothing(f);
    case _ =>
  }

  /* Printing again */

  lemma {:induction false} PrintJoinAnd(x: Expr, y: Expr)
    ensures Print(JoinAnd(x, y)) == Operand(x, x.Or?) + [AndOp] + Operand(y, y.Or?)
  {
    if x.And? {
      PrintJoinAnd(x.r, y);
      var a, b, c := Operand(x.l, x.l.Or?), Operand(x.r, x.r.Or?), Operand(y, y.Or?);
      assert a + [AndOp] + (b + [AndOp] + c) == a + [AndOp] + b + [AndOp] + c;
    }
  }

  lemma {:induction false} PrintJoinOr(x: Expr, y: Expr)
    ensures Print(JoinOr(x, y)) == Operand(x, x.And?) + [OrOp] + Operand(y, y.And?)
  {
    if x.Or? {
      PrintJoinOr(x.r, y);
      var a, b, c := Operand(x.l, x.l.And?), Operand(x.r, x.r.And?), Operand(y, y.And?);
      assert a + [OrOp] + (b + [OrOp] + c) == a + [OrOp] + b + [OrOp] + c;
    }
  }

  /** Association to the right does not change the printed expression. */
  lemma {:induction false} PrintsSame(e: Expr)
    ensures Print(RightAssoc(e)) == Print(e)
  {
    NotJoined(e);
    match e
    case Atom(_) =>
    case And(l, r) =>
      PrintsSame(l);
      PrintsSame(r);
      NotJoined(l);
      NotJoined(r);
      PrintJoinAnd(RightAssoc(l), RightAssoc(r));
    case Or(l, r) =>
      PrintsSame(l);
      PrintsSame(r);
      NotJoined(l);
      NotJoined(r);
      PrintJoinOr(RightAssoc(l), RightAssoc(r));
    case Not(f) =>
      PrintsSame(f);
      assert RightAssoc(f).Atom? <==> f.Atom?;
    case Rel(_, _, _) =>
  }

  /** Two expressions print the same just when they differ in association only. */
  lemma PrintDetermines(e: Expr, f: Expr)
    requires Readable(e) && Readable(f)
    ensures Print(e) == Print(f) <==> RightAssoc(e) == RightAssoc(f)
  {
    ReadsPrinted(e, None);
    ReadsPrinted(f, None);
    PrintsSame(e);
    PrintsSame(f);
  }
}
