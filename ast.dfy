/**
 * The syntax tree of SG programs (sg_interpreter/src/sg/ast/ast.go) and its
 * text rendering, which spells out the structure the parser built.
 *
 * A Go `nil` Expression (left behind by a failed parse) is `Missing`. The
 * assignment statement's declaration is not in ast.go, so its rendering is
 * not modelled: `Printable` excludes it.
 */
module Ast {
  import opened Wrappers
  import opened Tokens

  datatype Identifier = Identifier(token: Token, value: string)

  datatype Expr =
    | Missing
    | IdentExpr(id: Identifier)
    | IntLit(token: Token, num: int)
    | BoolLit(token: Token, truth: bool)
    | PrefixExpr(token: Token, op: string, right: Expr)
    | InfixExpr(token: Token, left: Expr, op: string, right: Expr)
    | IfExpr(token: Token, cond: Expr, cons: Block, alt: Option<Block>)
    | FnLit(token: Token, params: seq<Identifier>, body: Block)
    | CallExpr(token: Token, callee: Expr, args: seq<Expr>)

  datatype Stmt =
    | LetStmt(token: Token, id: Identifier, val: Expr)
    | AssignStmt(token: Token, id: Identifier, val: Expr)
    | ReturnStmt(token: Token, val: Expr)
    | ExprStmt(token: Token, expr: Expr)

  datatype Block = Block(token: Token, stmts: seq<Stmt>)

  datatype Program = Program(stmts: seq<Stmt>)

  /** The literal of the token a node starts with; a missing node has none. */
  function ExprTokenLiteral(e: Expr): string
    requires e != Missing
  {
    match e
    case IdentExpr(id) => id.token.literal
    case IntLit(t, _) => t.literal
    case BoolLit(t, _) => t.literal
    case PrefixExpr(t, _, _) => t.literal
    case InfixExpr(t, _, _, _) => t.literal
    case IfExpr(t, _, _, _) => t.literal
    case FnLit(t, _, _) => t.literal
    case CallExpr(t, _, _) => t.literal
  }

  /** A program's token literal is its first statement's, or empty without statements. */
  function ProgramTokenLiteral(p: Program): (lit: string)
    ensures |p.stmts| == 0 ==> lit == ""
    ensures |p.stmts| > 0 ==> lit == p.stmts[0].token.literal
  {
    if |p.stmts| > 0 then p.stmts[0].token.literal else ""
  }

  /**
   * The nodes whose rendering is defined. Rendering a missing operand,
   * callee, argument or else-branch dereferences nil in the source; the
   * condition of an `if` is never rendered, so it may be missing.
   */
  predicate Printable(e: Expr)
    decreases e, 0
  {
    match e
    case Missing => false
    case IdentExpr(_) => true
    case IntLit(_, _) => true
    case BoolLit(_, _) => true
    case PrefixExpr(_, _, r) => Printable(r)
    case InfixExpr(_, l, _, r) => Printable(l) && Printable(r)
    case IfExpr(_, _, cons, alt) => PrintableBlock(cons) && alt.Some? && PrintableBlock(alt.value)
    case FnLit(_, _, body) => PrintableBlock(body)
    case CallExpr(_, f, args) => Printable(f) && forall a :: a in args ==> Printable(a)
  }

  predicate PrintableStmt(s: Stmt)
    decreases s, 0
  {
    match s
    case LetStmt(_, _, v) => v == Missing || Printable(v)
    case AssignStmt(_, _, _) => false
    case ReturnStmt(_, v) => v == Missing || Printable(v)
    case ExprStmt(_, x) => x == Missing || Printable(x)
  }

  predicate PrintableBlock(b: Block)
    decreases b, 0
  {
    forall s :: s in b.stmts ==> PrintableStmt(s)
  }

  /** The parts, with `sep` between each two. */
  function Join(parts: seq<string>, sep: string): string
  {
    if |parts| == 0 then ""
    else if |parts| == 1 then parts[0]
    else parts[0] + sep + Join(parts[1..], sep)
  }

  function ParamNames(params: seq<Identifier>): (names: seq<string>)
    ensures |names| == |params| && forall i :: 0 <= i < |params| ==> names[i] == params[i].value
  {
    seq(|params|, i requires 0 <= i < |params| => params[i].value)
  }

  function ExprString(e: Expr): string
    requires Printable(e)
    decreases e, 1
  {
    match e
    case IdentExpr(id) => id.value
    case IntLit(t, _) => t.literal
    case BoolLit(t, _) => t.literal
    case PrefixExpr(_, op, r) => "(" + op + ExprString(r) + ")"
    case InfixExpr(_, l, op, r) => "(" + ExprString(l) + " " + op + " " + ExprString(r) + ")"
    case IfExpr(_, _, cons, alt) =>
      "if" + BlockString(cons) + " " + BlockString(cons) + " " + BlockString(alt.value)
    case FnLit(t, params, body) =>
      t.literal + "(" + Join(ParamNames(params), ", ") + ") " + BlockString(body)
    case CallExpr(_, f, args) =>
      ExprString(f) + "(" + Join(seq(|args|, i requires 0 <= i < |args| && Printable(args[i]) => ExprString(args[i])), ", ") + ")"
  }

  function StmtString(s: Stmt): string
    requires PrintableStmt(s)
    decreases s, 1
  {
    match s
    case LetStmt(t, id, v) => t.literal + " " + id.value + " = " + (if v == Missing then "" else ExprString(v)) + ";"
    case ReturnStmt(t, v) => t.literal + " " + (if v == Missing then "" else ExprString(v)) + ";"
    case ExprStmt(_, x) => if x == Missing then "" else ExprString(x)
  }

  /** The statements' renderings, one after another. */
  function StmtsString(stmts: seq<Stmt>): string
    requires forall s :: s in stmts ==> PrintableStmt(s)
    decreases stmts
  {
    if |stmts| == 0 then "" else StmtsString(stmts[..|stmts| - 1]) + StmtString(stmts[|stmts| - 1])
  }

  function BlockString(b: Block): string
    requires PrintableBlock(b)
    decreases b, 1
  {
    StmtsString(b.stmts)
  }

  function ProgramString(p: Program): string
    requires forall s :: s in p.stmts ==> PrintableStmt(s)
  {
    StmtsString(p.stmts)
  }

  /** Adding one statement at the end adds its rendering at the end. */
  lemma StmtsStringSnoc(a: seq<Stmt>, last: Stmt)
    requires forall s :: s in a ==> PrintableStmt(s)
    requires PrintableStmt(last)
    ensures StmtsString(a + [last]) == StmtsString(a) + StmtString(last)
  {
    assert (a + [last])[..|a|] == a;
  }

  /** A program renders as its statements' renderings concatenated, so appending statements appends text. */
  lemma {:induction false} StmtsStringAppend(a: seq<Stmt>, b: seq<Stmt>)
    requires forall s :: s in a ==> PrintableStmt(s)
    requires forall s :: s in b ==> PrintableStmt(s)
    ensures StmtsString(a + b) == StmtsString(a) + StmtsString(b)
    decreases |b|
  {
    if |b| == 0 {
      assert a + b == a;
    } else {
      var b', last := b[..|b| - 1], b[|b| - 1];
      assert b == b' + [last];
      assert a + b == (a + b') + [last];
      StmtsStringAppend(a, b');
      StmtsStringSnoc(a + b', last);
    }
  }

  /** `if` renders its consequence twice and never its condition. */
  lemma IfConditionNotRendered(t: Token, c1: Expr, c2: Expr, cons: Block, alt: Block)
    requires PrintableBlock(cons) && PrintableBlock(alt)
    ensures Printable(IfExpr(t, c1, cons, Some(alt))) && Printable(IfExpr(t, c2, cons, Some(alt)))
    ensures ExprString(IfExpr(t, c1, cons, Some(alt))) == ExprString(IfExpr(t, c2, cons, Some(alt)))
    ensures ExprString(IfExpr(t, c1, cons, Some(alt))) == "if" + BlockString(cons) + " " + BlockString(cons) + " " + BlockString(alt)
  {
  }

  /** The number of occurrences of `c` in `s`. */
  function Count(s: string, c: char): nat
  {
    if |s| == 0 then 0 else Count(s[..|s| - 1], c) + (if s[|s| - 1] == c then 1 else 0)
  }

  lemma {:induction false} CountAppend(a: string, b: string, c: char)
    ensures Count(a + b, c) == Count(a, c) + Count(b, c)
    decreases |b|
  {
    if |b| > 0 {
      assert (a + b)[..|a + b| - 1] == a + b[..|b| - 1];
      CountAppend(a, b[..|b| - 1], c);
    } else {
      assert a + b == a;
    }
  }

  predicate NoParens(s: string)
  {
    Count(s, '(') == 0 && Count(s, ')') == 0
  }

  /** Expressions built from operators over leaves whose texts hold no parentheses. */
  predicate OperatorTree(e: Expr)
  {
    match e
    case IdentExpr(id) => NoParens(id.value)
    case IntLit(t, _) => NoParens(t.literal)
    case BoolLit(t, _) => NoParens(t.literal)
    case PrefixExpr(_, op, r) => NoParens(op) && OperatorTree(r)
    case InfixExpr(_, l, op, r) => NoParens(op) && OperatorTree(l) && OperatorTree(r)
    case _ => false
  }

  /** A parenthesis count over three pieces is the sum of the pieces' counts. */
  lemma CountOfThree(a: string, b: string, d: string, c: char)
    ensures Count(a + b + d, c) == Count(a, c) + Count(b, c) + Count(d, c)
  {
    CountAppend(a, b, c);
    CountAppend(a + b, d, c);
  }

  /** Wrapping a text in parentheses adds one of each. */
  lemma Parenthesised(s: string, c: char)
    requires c == '(' || c == ')'
    ensures Count("(" + s + ")", c) == Count(s, c) + 1
  {
    CountOfThree("(", s, ")", c);
    assert Count("(", c) == (if c == '(' then 1 else 0) by {
      assert "("[..0] == "";
    }
    assert Count(")", c) == (if c == ')' then 1 else 0) by {
      assert ")"[..0] == "";
    }
  }

  /** An operator with a space on either side adds no parentheses. */
  lemma PaddedOperator(op: string, c: char)
    requires NoParens(op) && (c == '(' || c == ')')
    ensures Count(" " + op + " ", c) == 0
  {
    CountOfThree(" ", op, " ", c);
    assert " "[..0] == "";
  }

  /** The rendering of a prefix application has one more of each parenthesis than its operand's. */
  lemma PrefixCounts(op: string, rs: string, c: char)
    requires NoParens(op) && (c == '(' || c == ')')
    ensures Count("(" + op + rs + ")", c) == 1 + Count(rs, c)
  {
    assert "(" + op + rs + ")" == "(" + (op + rs) + ")";
    Parenthesised(op + rs, c);
    CountAppend(op, rs, c);
  }

  /** The rendering of an infix application has one more of each parenthesis than its operands' together. */
  lemma InfixCounts(ls: string, op: string, rs: string, c: char)
    requires NoParens(op) && (c == '(' || c == ')')
    ensures Count("(" + ls + " " + op + " " + rs + ")", c) == 1 + Count(ls, c) + Count(rs, c)
  {
    assert "(" + ls + " " + op + " " + rs + ")" == "(" + (ls + (" " + op + " ") + rs) + ")";
    Parenthesised(ls + (" " + op + " ") + rs, c);
    CountOfThree(ls, " " + op + " ", rs, c);
    PaddedOperator(op, c);
  }

  /**
   * Every operator application is wrapped in its own pair of parentheses,
   * so an operator tree renders with as many opening as closing ones.
   */
  lemma {:induction false} OperatorTreeParensBalance(e: Expr)
    requires OperatorTree(e)
    ensures Printable(e)
    ensures Count(ExprString(e), '(') == Count(ExprString(e), ')')
    ensures e.PrefixExpr? || e.InfixExpr? ==> Count(ExprString(e), '(') > 0
  {
    match e
    case IdentExpr(_) =>
    case IntLit(_, _) =>
    case BoolLit(_, _) =>
    case PrefixExpr(_, op, r) =>
      OperatorTreeParensBalance(r);
      PrefixCounts(op, ExprString(r), '(');
      PrefixCounts(op, ExprString(r), ')');
    case InfixExpr(_, l, op, r) =>
      OperatorTreeParensBalance(l);
      OperatorTreeParensBalance(r);
      InfixCounts(ExprString(l), op, ExprString(r), '(');
      InfixCounts(ExprString(l), op, ExprString(r), ')');
  }
}
