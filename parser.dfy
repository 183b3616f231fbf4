/**
 * The Pratt parser of sg_interpreter/src/sg/parser/parser.go.
 *
 * The parser reads the lexer's tokens one at a time; here it reads them from
 * the list `toks` the lexer produces (`Lexing.Tokenize`), at index `cur`,
 * with the end-of-file token past the end just as the lexer keeps returning
 * it. The functions ending in `S` are the parse functions written on a
 * parser state `PState` (cursor and error list); the class `Parser` carries
 * out the same steps by updating its fields, and each of its methods is
 * proved to end in the state the matching function computes.
 *
 * Termination: every parse function either consumes a token before it
 * calls back into expression parsing, or calls a function of lower rank
 * (the second component of its `decreases` clause) at the same position.
 */
module Parsing {
  import opened Wrappers
  import opened Tokens
  import opened Lexing
  import opened Ast
  import Items

  const Lowest: nat := 1
  const Equals: nat := 2
  const LessGreater: nat := 3
  const Sum: nat := 4
  const Product: nat := 5
  const PrefixPrec: nat := 6
  const CallPrec: nat := 7

  /** The binding power of a token in infix position; tokens without one bind weakest. */
  function PrecedenceOf(t: TokenType): nat
  {
    match t
    case Eq => Equals
    case NotEq => Equals
    case Lt => LessGreater
    case Gt => LessGreater
    case Minus => Sum
    case Plus => Sum
    case Star => Product
    case Slash => Product
    case LParen => CallPrec
    case _ => Lowest
  }

  /** Tokens that can start an expression. */
  predicate HasPrefixFn(t: TokenType)
  {
    t == Ident || t == Int || t == Bang || t == Minus || t == True || t == False
    || t == LParen || t == If || t == Function
  }

  /** Tokens that can continue an expression. */
  predicate HasInfixFn(t: TokenType)
  {
    t == Plus || t == Minus || t == Slash || t == Star || t == Eq || t == NotEq
    || t == Lt || t == Gt || t == LParen
  }

  /** Exactly the tokens with an infix parse function bind tighter than the weakest level. */
  lemma InfixTokensArePrecedenced(t: TokenType)
    ensures HasInfixFn(t) <==> PrecedenceOf(t) > Lowest
    ensures PrecedenceOf(t) <= CallPrec && Lowest <= PrecedenceOf(t)
    ensures Lowest < Equals < LessGreater < Sum < Product < PrefixPrec < CallPrec
  {
  }

  datatype PState = PState(cur: nat, errors: seq<ParseError>)

  /** A parse result and the state after it. */
  datatype Step<T> = Step(val: T, st: PState)

  /** Tokens left before the end of the list; the measure every parse loop decreases. */
  function Remaining(toks: seq<Token>, st: PState): nat
  {
    if st.cur < |toks| then |toks| - st.cur else 0
  }

  function CurTok(toks: seq<Token>, st: PState): Token
  {
    TokAt(toks, st.cur)
  }

  function PeekTok(toks: seq<Token>, st: PState): Token
  {
    TokAt(toks, st.cur + 1)
  }

  function Advance(st: PState): PState
  {
    st.(cur := st.cur + 1)
  }

  function Fail(st: PState, err: ParseError): PState
  {
    st.(errors := st.errors + [err])
  }

  /** `b` is `a` after parsing: the cursor never moves back and errors are only appended. */
  predicate Extends(a: PState, b: PState)
  {
    a.cur <= b.cur && a.errors <= b.errors
  }

  /** The errors the parser records; Message renders each as the text the parser reports. */
  datatype ParseError = PeekError(expected: TokenType, got: TokenType) | NoPrefix(kind: TokenType) | BadInt(literal: string)

  function Message(e: ParseError): (r: string)
    ensures |r| > 0
  {
    match e
    case PeekError(expected, got) => "Expected next token to be " + Spelling(expected) + ", got " + Spelling(got) + "."
    case NoPrefix(t) => "no prefix parse function for " + Spelling(t) + " found"
    case BadInt(lit) => "Couldn't parse \"" + lit + "\" as an Integer"
  }

  /** The messages of a list of errors, in order. */
  function Messages(errs: seq<ParseError>): (r: seq<string>)
    ensures |r| == |errs|
    ensures forall i :: 0 <= i < |errs| ==> r[i] == Message(errs[i])
  {
    seq(|errs|, i requires 0 <= i < |errs| => Message(errs[i]))
  }

  /** ExpectPeek: step onto the next token if it has kind `t`, otherwise record an error and stay. */
  function ExpectPeekS(toks: seq<Token>, t: TokenType, st: PState): (r: Step<bool>)
    ensures Extends(st, r.st)
    ensures r.val <==> PeekTok(toks, st).kind == t
    ensures r.val ==> r.st == Advance(st) && CurTok(toks, r.st).kind == t
    ensures !r.val ==> r.st == Fail(st, PeekError(t, PeekTok(toks, st).kind))
  {
    if PeekTok(toks, st).kind == t then Step(true, Advance(st))
    else Step(false, Fail(st, PeekError(t, PeekTok(toks, st).kind)))
  }

  /**
   * The optional `;` after a statement: the cursor steps onto the next token
   * exactly when it is a `;`, so no `;` is left right after the statement.
   */
  function SkipSemicolonS(toks: seq<Token>, st: PState): (r: PState)
    ensures Extends(st, r)
  {
    if PeekTok(toks, st).kind == Semicolon then Advance(st) else st
  }

  /** The value of the digits of `s` in base `base`. */
  function NumeralValue(s: string, base: nat): nat
  {
    if |s| == 0 then 0
    else NumeralValue(s[..|s| - 1], base) * base + ((s[|s| - 1] as int - '0' as int) % 10)
  }

  predicate AllDigits(s: string)
  {
    forall i :: 0 <= i < |s| ==> IsDigit(s[i])
  }

  /**
   * strconv.ParseInt with base 0 and 64 bits, on a string of decimal digits:
   * a leading zero followed by more digits means octal, and values above
   * the int64 range are an error.
   */
  function ParseIntBase0(lit: string): (r: Option<Items.Int64>)
  {
    if |lit| == 0 || !AllDigits(lit) then None
    else if lit[0] == '0' && |lit| > 1 then
      if forall i :: 1 <= i < |lit| ==> lit[i] <= '7' then
        var v := NumeralValue(lit[1..], 8);
        if v <= Items.MaxInt64 then Some(v) else None
      else None
    else
      var v := NumeralValue(lit, 10);
      if v <= Items.MaxInt64 then Some(v) else None
  }

  /** The digits of `n` written in decimal are worth `n`. */
  lemma {:induction false} DigitsValue(n: nat)
    ensures NumeralValue(Items.Digits(n), 10) == n
    decreases n
  {
    if n >= 10 {
      var s := Items.Digits(n);
      DigitsValue(n / 10);
      assert s[..|s| - 1] == Items.Digits(n / 10);
    }
  }

  /** Rendering a non-negative int64 with %d and reading it back as an integer literal gives it back. */
  lemma ParseIntRoundTrip(n: nat)
    requires n <= Items.MaxInt64
    ensures ParseIntBase0(Items.Digits(n)) == Some(n)
  {
    DigitsValue(n);
  }

  /** A leading zero makes a literal octal, so a following 8 or 9 is an error. */
  lemma ParseIntEdgeCases()
    ensures ParseIntBase0("0") == Some(0)
    ensures ParseIntBase0("010") == Some(8)
    ensures ParseIntBase0("09") == None
    ensures ParseIntBase0("") == None
  {
    assert "010"[1..] == "10";
    assert "10"[..1] == "1" && "1"[..0] == "";
    assert NumeralValue("1", 8) == 1;
    assert "09"[1] == '9';
  }

  /** parseStatement: an assignment when an identifier is followed by `=`, otherwise by the leading keyword. */
  function ParseStatementS(toks: seq<Token>, st: PState): (r: Step<Option<Stmt>>)
    ensures Extends(st, r.st)
    ensures r.val.None? ==> |st.errors| < |r.st.errors|
    decreases Remaining(toks, st), 5
  {
    var k := CurTok(toks, st).kind;
    if k == Ident && PeekTok(toks, st).kind == Assign then ParseSetS(toks, st)
    else if k == Let then ParseLetS(toks, st)
    else if k == Return then ParseReturnS(toks, st)
    else ParseExprStmtS(toks, st)
  }

  /** parseSetStatement: `name = value`, with an optional `;`. */
  function ParseSetS(toks: seq<Token>, st: PState): (r: Step<Option<Stmt>>)
    ensures Extends(st, r.st)
    ensures r.val.None? ==> |st.errors| < |r.st.errors|
    decreases Remaining(toks, st), 4
  {
    var tok := CurTok(toks, st);
    var e := ExpectPeekS(toks, Assign, st);
    if !e.val then Step(None, e.st)
    else
      var x := ParseExpressionS(toks, Lowest, Advance(e.st));
      Step(Some(AssignStmt(tok, Identifier(tok, tok.literal), x.val)), SkipSemicolonS(toks, x.st))
  }

  /** parseLetStatement: `let name = value`, with an optional `;`. */
  function ParseLetS(toks: seq<Token>, st: PState): (r: Step<Option<Stmt>>)
    ensures Extends(st, r.st)
    ensures r.val.None? ==> |st.errors| < |r.st.errors|
    decreases Remaining(toks, st), 4
  {
    var tok := CurTok(toks, st);
    var e1 := ExpectPeekS(toks, Ident, st);
    if !e1.val then Step(None, e1.st)
    else
      var name := CurTok(toks, e1.st);
      var e2 := ExpectPeekS(toks, Assign, e1.st);
      if !e2.val then Step(None, e2.st)
      else
        var x := ParseExpressionS(toks, Lowest, Advance(e2.st));
        Step(Some(LetStmt(tok, Identifier(name, name.literal), x.val)), SkipSemicolonS(toks, x.st))
  }

  /** parseReturnStatement: the keyword and an expression, with an optional `;`. */
  function ParseReturnS(toks: seq<Token>, st: PState): (r: Step<Option<Stmt>>)
    ensures Extends(st, r.st)
    decreases Remaining(toks, st), 4
  {
    var tok := CurTok(toks, st);
    var x := ParseExpressionS(toks, Lowest, Advance(st));
    Step(Some(ReturnStmt(tok, x.val)), SkipSemicolonS(toks, x.st))
  }

  /** parseExpressionStatement: an expression, with an optional `;`. */
  function ParseExprStmtS(toks: seq<Token>, st: PState): (r: Step<Option<Stmt>>)
    ensures Extends(st, r.st)
    decreases Remaining(toks, st), 4
  {
    var tok := CurTok(toks, st);
    var x := ParseExpressionS(toks, Lowest, st);
    Step(Some(ExprStmt(tok, x.val)), SkipSemicolonS(toks, x.st))
  }

  /**
   * parseExpression: a prefix expression, then infix operators for as long
   * as the next one binds tighter than `prec`.
   */
  function ParseExpressionS(toks: seq<Token>, prec: nat, st: PState): (r: Step<Expr>)
    ensures Extends(st, r.st)
    ensures r.val == Missing ==> |st.errors| < |r.st.errors|
    decreases Remaining(toks, st), 3
  {
    var k := CurTok(toks, st).kind;
    if !HasPrefixFn(k) then Step(Missing, Fail(st, NoPrefix(k)))
    else
      var p := ParsePrefixS(toks, st);
      ParseInfixLoopS(toks, prec, p.val, p.st)
  }

  /** The loop of parseExpression, from the expression `left` parsed so far. */
  function ParseInfixLoopS(toks: seq<Token>, prec: nat, left: Expr, st: PState): (r: Step<Expr>)
    ensures Extends(st, r.st)
    ensures r.st == st || prec < PrecedenceOf(PeekTok(toks, st).kind)
    ensures r.val == Missing ==> left == Missing
    decreases Remaining(toks, st), 2
  {
    var k := PeekTok(toks, st).kind;
    if k == Semicolon || prec >= PrecedenceOf(k) || !HasInfixFn(k) then Step(left, st)
    else
      var x := ParseInfixS(toks, left, Advance(st));
      ParseInfixLoopS(toks, prec, x.val, x.st)
  }

  /** The infix loop stops, leaving its operand as it is, at a `;`, a weaker operator or a token with no infix rule. */
  lemma InfixLoopEnds(toks: seq<Token>, prec: nat, left: Expr, st: PState)
    requires var k := PeekTok(toks, st).kind; k == Semicolon || prec >= PrecedenceOf(k) || !HasInfixFn(k)
    ensures ParseInfixLoopS(toks, prec, left, st) == Step(left, st)
  {
  }

  /** The prefix parse function registered for the current token. */
  function ParsePrefixS(toks: seq<Token>, st: PState): (r: Step<Expr>)
    requires HasPrefixFn(CurTok(toks, st).kind)
    ensures Extends(st, r.st)
    ensures r.val == Missing ==> |st.errors| < |r.st.errors|
    decreases Remaining(toks, st), 2
  {
    var k := CurTok(toks, st).kind;
    if k == Ident then ParseIdentifierS(toks, st)
    else if k == Int then ParseIntegerLiteralS(toks, st)
    else if k == True || k == False then ParseBooleanS(toks, st)
    else if k == Bang || k == Minus then ParsePrefixExpressionS(toks, st)
    else if k == LParen then ParseGroupedS(toks, st)
    else if k == If then ParseIfS(toks, st)
    else ParseFunctionLiteralS(toks, st)
  }

  /** parseIdentifier: the current token as a name, without moving. */
  function ParseIdentifierS(toks: seq<Token>, st: PState): (r: Step<Expr>)
  {
    var tok := CurTok(toks, st);
    Step(IdentExpr(Identifier(tok, tok.literal)), st)
  }

  /** parseIntegerLiteral: the literal's value, or an error and no expression. */
  function ParseIntegerLiteralS(toks: seq<Token>, st: PState): (r: Step<Expr>)
    ensures Extends(st, r.st)
    ensures r.val == Missing ==> |st.errors| < |r.st.errors|
  {
    var tok := CurTok(toks, st);
    var v := ParseIntBase0(tok.literal);
    if v.None? then Step(Missing, Fail(st, BadInt(tok.literal))) else Step(IntLit(tok, v.value), st)
  }

  /** parseBoolean: true exactly on a TRUE token, without moving. */
  function ParseBooleanS(toks: seq<Token>, st: PState): (r: Step<Expr>)
  {
    var tok := CurTok(toks, st);
    Step(BoolLit(tok, tok.kind == True), st)
  }

  /** parsePrefixExpression: the operator applies to the expression after it, parsed at prefix precedence. */
  function ParsePrefixExpressionS(toks: seq<Token>, st: PState): (r: Step<Expr>)
    requires CurTok(toks, st).kind == Bang || CurTok(toks, st).kind == Minus
    ensures Extends(st, r.st)
    decreases Remaining(toks, st), 1
  {
    var tok := CurTok(toks, st);
    var x := ParseExpressionS(toks, PrefixPrec, Advance(st));
    Step(PrefixExpr(tok, tok.literal, x.val), x.st)
  }

  /** parseGroupedExpressions: an expression between parentheses; without the `)` there is none. */
  function ParseGroupedS(toks: seq<Token>, st: PState): (r: Step<Expr>)
    requires CurTok(toks, st).kind == LParen
    ensures Extends(st, r.st)
    ensures r.val == Missing ==> |st.errors| < |r.st.errors|
    decreases Remaining(toks, st), 1
  {
    var x := ParseExpressionS(toks, Lowest, Advance(st));
    var e := ExpectPeekS(toks, RParen, x.st);
    Step(if e.val then x.val else Missing, e.st)
  }

  /** The infix parse function registered for the current token. */
  function ParseInfixS(toks: seq<Token>, left: Expr, st: PState): (r: Step<Expr>)
    requires HasInfixFn(CurTok(toks, st).kind)
    ensures Extends(st, r.st)
    ensures r.val != Missing
    decreases Remaining(toks, st), 2
  {
    if CurTok(toks, st).kind == LParen then ParseCallS(toks, left, st)
    else ParseOperatorS(toks, left, st)
  }

  /** parseInfixExpression: the operator takes `left` and the expression after it, parsed at its own precedence. */
  function ParseOperatorS(toks: seq<Token>, left: Expr, st: PState): (r: Step<Expr>)
    requires HasInfixFn(CurTok(toks, st).kind)
    ensures Extends(st, r.st)
    decreases Remaining(toks, st), 1
  {
    var tok := CurTok(toks, st);
    var x := ParseExpressionS(toks, PrecedenceOf(tok.kind), Advance(st));
    Step(InfixExpr(tok, left, tok.literal, x.val), x.st)
  }

  /** parseCallExpression: `left` applied to the arguments that follow. */
  function ParseCallS(toks: seq<Token>, callee: Expr, st: PState): (r: Step<Expr>)
    requires CurTok(toks, st).kind == LParen
    ensures Extends(st, r.st)
    decreases Remaining(toks, st), 1
  {
    var args := ParseCallArgumentsS(toks, st);
    Step(CallExpr(CurTok(toks, st), callee, args.val), args.st)
  }

  /** parseIfExpression: `if (cond)`, then the blocks. */
  function ParseIfS(toks: seq<Token>, st: PState): (r: Step<Expr>)
    requires CurTok(toks, st).kind == If
    ensures Extends(st, r.st)
    ensures r.val == Missing ==> |st.errors| < |r.st.errors|
    decreases Remaining(toks, st), 1
  {
    var tok := CurTok(toks, st);
    var e1 := ExpectPeekS(toks, LParen, st);
    if !e1.val then Step(Missing, e1.st)
    else
      var cond := ParseExpressionS(toks, Lowest, Advance(e1.st));
      var e2 := ExpectPeekS(toks, RParen, cond.st);
      if !e2.val then Step(Missing, e2.st)
      else ParseIfBlocksS(toks, tok, cond.val, e2.st)
  }

  /** The rest of parseIfExpression: `{ ... }`, optionally followed by `else { ... }`. */
  function ParseIfBlocksS(toks: seq<Token>, tok: Token, cond: Expr, st: PState): (r: Step<Expr>)
    ensures Extends(st, r.st)
    ensures r.val == Missing ==> |st.errors| < |r.st.errors|
    decreases Remaining(toks, st), 1
  {
    var e3 := ExpectPeekS(toks, LBrace, st);
    if !e3.val then Step(Missing, e3.st)
    else
      var cons := ParseBlockS(toks, e3.st);
      ParseElseS(toks, tok, cond, cons.val, cons.st)
  }

  /** The optional `else` block of an `if`, from the consequence's closing `}` on. */
  function ParseElseS(toks: seq<Token>, tok: Token, cond: Expr, cons: Block, st: PState): (r: Step<Expr>)
    ensures Extends(st, r.st)
    ensures r.val == Missing ==> |st.errors| < |r.st.errors|
    decreases Remaining(toks, st), 0
  {
    if PeekTok(toks, st).kind != Else then Step(IfExpr(tok, cond, cons, None), st)
    else
      var e4 := ExpectPeekS(toks, LBrace, Advance(st));
      if !e4.val then Step(Missing, e4.st)
      else
        var alt := ParseBlockS(toks, e4.st);
        Step(IfExpr(tok, cond, cons, Some(alt.val)), alt.st)
  }

  /** parseFunctionLiteral: the keyword, a parameter list and a body. */
  function ParseFunctionLiteralS(toks: seq<Token>, st: PState): (r: Step<Expr>)
    requires CurTok(toks, st).kind == Function
    ensures Extends(st, r.st)
    ensures r.val == Missing ==> |st.errors| < |r.st.errors|
    decreases Remaining(toks, st), 1
  {
    var tok := CurTok(toks, st);
    var e1 := ExpectPeekS(toks, LParen, st);
    if !e1.val then Step(Missing, e1.st)
    else
      var ps := ParseParametersS(toks, e1.st);
      var e2 := ExpectPeekS(toks, LBrace, ps.st);
      if !e2.val then Step(Missing, e2.st)
      else
        assert st.cur < e2.st.cur && Extends(st, e2.st);
        var body := ParseBlockS(toks, e2.st);
        Step(FnLit(tok, ps.val, body.val), body.st)
  }

  /**
   * parseFunctionParameters: names separated by commas up to `)`. Any token
   * is taken as a name; a list without its `)` yields no parameters.
   */
  function ParseParametersS(toks: seq<Token>, st: PState): (r: Step<seq<Identifier>>)
    ensures Extends(st, r.st)
  {
    if PeekTok(toks, st).kind == RParen then Step([], Advance(st))
    else
      var st1 := Advance(st);
      var t := CurTok(toks, st1);
      var l := ParseParametersLoopS(toks, [Identifier(t, t.literal)], st1);
      var e := ExpectPeekS(toks, RParen, l.st);
      Step(if e.val then l.val else [], e.st)
  }

  function ParseParametersLoopS(toks: seq<Token>, ids: seq<Identifier>, st: PState): (r: Step<seq<Identifier>>)
    ensures Extends(st, r.st)
    ensures ids <= r.val
    decreases Remaining(toks, st)
  {
    if PeekTok(toks, st).kind != Comma then Step(ids, st)
    else
      var st2 := Advance(Advance(st));
      var t := CurTok(toks, st2);
      ParseParametersLoopS(toks, ids + [Identifier(t, t.literal)], st2)
  }

  /** parseCallArguments: expressions separated by commas up to `)`; a list without its `)` yields no arguments. */
  function ParseCallArgumentsS(toks: seq<Token>, st: PState): (r: Step<seq<Expr>>)
    requires CurTok(toks, st).kind == LParen
    ensures Extends(st, r.st)
    decreases Remaining(toks, st), 0
  {
    if PeekTok(toks, st).kind == RParen then Step([], Advance(st))
    else
      var first := ParseExpressionS(toks, Lowest, Advance(st));
      ParseArgumentsTailS(toks, first.val, first.st)
  }

  /** Past a `(` not followed by `)`, the argument list is the first expression and what follows it. */
  lemma CallArgumentsAfterFirst(toks: seq<Token>, st: PState)
    requires CurTok(toks, st).kind == LParen && PeekTok(toks, st).kind != RParen
    ensures var x := ParseExpressionS(toks, Lowest, Advance(st));
      ParseCallArgumentsS(toks, st) == ParseArgumentsTailS(toks, x.val, x.st)
      && Remaining(toks, x.st) < Remaining(toks, st)
  {
  }

  /** The arguments after the first one, then the closing `)`. */
  function ParseArgumentsTailS(toks: seq<Token>, first: Expr, st: PState): (r: Step<seq<Expr>>)
    ensures Extends(st, r.st)
    decreases Remaining(toks, st), 1
  {
    var l := ParseArgumentsLoopS(toks, [first], st);
    var e := ExpectPeekS(toks, RParen, l.st);
    Step(if e.val then l.val else [], e.st)
  }

  function ParseArgumentsLoopS(toks: seq<Token>, args: seq<Expr>, st: PState): (r: Step<seq<Expr>>)
    ensures Extends(st, r.st)
    ensures args <= r.val
    decreases Remaining(toks, st), 0
  {
    if PeekTok(toks, st).kind != Comma then Step(args, st)
    else
      var x := ParseExpressionS(toks, Lowest, Advance(Advance(st)));
      ParseArgumentsLoopS(toks, args + [x.val], x.st)
  }

  /** parseBlockStatement: statements after `{` up to `}` or the end of input. */
  function ParseBlockS(toks: seq<Token>, st: PState): (r: Step<Block>)
    requires CurTok(toks, st).kind == LBrace
    ensures Extends(st, r.st)
    ensures CurTok(toks, r.st).kind == RBrace || CurTok(toks, r.st).kind == Eof
    decreases Remaining(toks, st), 1
  {
    var tok := CurTok(toks, st);
    var l := ParseStatementsS(toks, [], Advance(st), RBrace);
    Step(Block(tok, l.val), l.st)
  }

  /**
   * The statement loop of a block (`stop` is `}`) and of a program (`stop`
   * is the end-of-file kind): parse a statement, keep it if there is one,
   * step past its last token, until the current token is `stop` or the end.
   */
  function ParseStatementsS(toks: seq<Token>, stmts: seq<Stmt>, st: PState, stop: TokenType): (r: Step<seq<Stmt>>)
    ensures Extends(st, r.st)
    ensures stmts <= r.val
    ensures CurTok(toks, r.st).kind == stop || CurTok(toks, r.st).kind == Eof
    decreases Remaining(toks, st), 6
  {
    var k := CurTok(toks, st).kind;
    if k == stop || k == Eof then Step(stmts, st)
    else
      var s := ParseStatementS(toks, st);
      ParseStatementsS(toks, if s.val.Some? then stmts + [s.val.value] else stmts, Advance(s.st), stop)
  }

  /** ParseProgram: statements until the end of input. */
  function ParseProgramS(toks: seq<Token>, st: PState): (r: Step<Program>)
    ensures Extends(st, r.st)
    ensures CurTok(toks, r.st).kind == Eof
  {
    var l := ParseStatementsS(toks, [], st, Eof);
    Step(Program(l.val), l.st)
  }

  /** A binary operator token: an infix token other than the call parenthesis. */
  predicate IsBinaryOp(t: Token)
  {
    HasInfixFn(t.kind) && t.kind != LParen
  }

  /**
   * Precedence and associativity: in `x op1 y op2 z`, `op1` takes `y` when
   * it binds at least as tightly as `op2` (so equal operators group to the
   * left), and `op2` takes `y` otherwise.
   */
  lemma BinaryGrouping(x: Token, op1: Token, y: Token, op2: Token, z: Token)
    requires x.kind == Ident && y.kind == Ident && z.kind == Ident
    requires IsBinaryOp(op1) && IsBinaryOp(op2)
    ensures var toks := [x, op1, y, op2, z];
      var r := ParseExpressionS(toks, Lowest, PState(0, []));
      var X, Y, Z := IdentExpr(Identifier(x, x.literal)), IdentExpr(Identifier(y, y.literal)), IdentExpr(Identifier(z, z.literal));
      r.st == PState(4, []) &&
      r.val == if PrecedenceOf(op1.kind) >= PrecedenceOf(op2.kind)
        then InfixExpr(op2, InfixExpr(op1, X, op1.literal, Y), op2.literal, Z)
        else InfixExpr(op1, X, op1.literal, InfixExpr(op2, Y, op2.literal, Z))
  {
    if PrecedenceOf(op1.kind) >= PrecedenceOf(op2.kind) {
      GroupsLeft([x, op1, y, op2, z]);
    } else {
      GroupsRight([x, op1, y, op2, z]);
    }
  }

  /** An expression that starts at an identifier continues the infix loop from that name, without moving. */
  lemma ExpressionFromIdentifier(toks: seq<Token>, prec: nat, st: PState)
    requires CurTok(toks, st).kind == Ident
    ensures var t := CurTok(toks, st);
      ParseExpressionS(toks, prec, st) == ParseInfixLoopS(toks, prec, IdentExpr(Identifier(t, t.literal)), st)
  {
    var t := CurTok(toks, st);
    assert ParsePrefixS(toks, st) == Step(IdentExpr(Identifier(t, t.literal)), st);
  }

  /** An identifier followed by nothing that binds tighter than `prec` is an operand on its own. */
  lemma IdentifierOperand(toks: seq<Token>, prec: nat, st: PState)
    requires CurTok(toks, st).kind == Ident
    requires var k := PeekTok(toks, st).kind; k == Semicolon || prec >= PrecedenceOf(k) || !HasInfixFn(k)
    ensures var t := CurTok(toks, st);
      ParseExpressionS(toks, prec, st) == Step(IdentExpr(Identifier(t, t.literal)), st)
  {
    var t := CurTok(toks, st);
    ExpressionFromIdentifier(toks, prec, st);
    InfixLoopEnds(toks, prec, IdentExpr(Identifier(t, t.literal)), st);
  }

  /** One turn of the infix loop: a binary operator tighter than `prec` takes `left` and its right operand. */
  lemma OperatorTurn(toks: seq<Token>, prec: nat, left: Expr, st: PState)
    requires IsBinaryOp(PeekTok(toks, st)) && prec < PrecedenceOf(PeekTok(toks, st).kind)
    ensures var op := PeekTok(toks, st);
      var right := ParseExpressionS(toks, PrecedenceOf(op.kind), Advance(Advance(st)));
      ParseInfixLoopS(toks, prec, left, st) ==
        ParseInfixLoopS(toks, prec, InfixExpr(op, left, op.literal, right.val), right.st)
  {
    var op := PeekTok(toks, st);
    assert ParseInfixS(toks, left, Advance(st)) == ParseOperatorS(toks, left, Advance(st));
  }

  /** The tokens `x op1 y op2 z` of BinaryGrouping. */
  predicate BinaryChain(toks: seq<Token>)
  {
    |toks| == 5 && toks[0].kind == Ident && toks[2].kind == Ident && toks[4].kind == Ident
    && IsBinaryOp(toks[1]) && IsBinaryOp(toks[3])
  }

  /** BinaryGrouping when `op1` binds at least as tightly as `op2`. */
  lemma GroupsLeft(toks: seq<Token>)
    requires BinaryChain(toks) && PrecedenceOf(toks[1].kind) >= PrecedenceOf(toks[3].kind)
    ensures var X, Y, Z := IdentExpr(Identifier(toks[0], toks[0].literal)), IdentExpr(Identifier(toks[2], toks[2].literal)),
        IdentExpr(Identifier(toks[4], toks[4].literal));
      ParseExpressionS(toks, Lowest, PState(0, [])) ==
        Step(InfixExpr(toks[3], InfixExpr(toks[1], X, toks[1].literal, Y), toks[3].literal, Z), PState(4, []))
  {
    var X, Y, Z := IdentExpr(Identifier(toks[0], toks[0].literal)), IdentExpr(Identifier(toks[2], toks[2].literal)),
      IdentExpr(Identifier(toks[4], toks[4].literal));
    var XY := InfixExpr(toks[1], X, toks[1].literal, Y);
    FirstOperatorTakesY(toks);
    InfixTokensArePrecedenced(toks[3].kind);
    IdentifierOperand(toks, PrecedenceOf(toks[3].kind), PState(4, []));
    OperatorTurn(toks, Lowest, XY, PState(2, []));
    InfixLoopEnds(toks, Lowest, InfixExpr(toks[3], XY, toks[3].literal, Z), PState(4, []));
  }

  /** The first half of GroupsLeft: `op1` takes `x` and `y` alone. */
  lemma FirstOperatorTakesY(toks: seq<Token>)
    requires BinaryChain(toks) && PrecedenceOf(toks[1].kind) >= PrecedenceOf(toks[3].kind)
    ensures var X, Y := IdentExpr(Identifier(toks[0], toks[0].literal)), IdentExpr(Identifier(toks[2], toks[2].literal));
      ParseExpressionS(toks, Lowest, PState(0, [])) ==
        ParseInfixLoopS(toks, Lowest, InfixExpr(toks[1], X, toks[1].literal, Y), PState(2, []))
  {
    var X := IdentExpr(Identifier(toks[0], toks[0].literal));
    InfixTokensArePrecedenced(toks[1].kind);
    ExpressionFromIdentifier(toks, Lowest, PState(0, []));
    IdentifierOperand(toks, PrecedenceOf(toks[1].kind), PState(2, []));
    OperatorTurn(toks, Lowest, X, PState(0, []));
  }

  /** BinaryGrouping when `op2` binds more tightly than `op1`. */
  lemma GroupsRight(toks: seq<Token>)
    requires BinaryChain(toks) && PrecedenceOf(toks[1].kind) < PrecedenceOf(toks[3].kind)
    ensures var X, Y, Z := IdentExpr(Identifier(toks[0], toks[0].literal)), IdentExpr(Identifier(toks[2], toks[2].literal)),
        IdentExpr(Identifier(toks[4], toks[4].literal));
      ParseExpressionS(toks, Lowest, PState(0, [])) ==
        Step(InfixExpr(toks[1], X, toks[1].literal, InfixExpr(toks[3], Y, toks[3].literal, Z)), PState(4, []))
  {
    var X, Y, Z := IdentExpr(Identifier(toks[0], toks[0].literal)), IdentExpr(Identifier(toks[2], toks[2].literal)),
      IdentExpr(Identifier(toks[4], toks[4].literal));
    var YZ := InfixExpr(toks[3], Y, toks[3].literal, Z);
    SecondOperatorTakesY(toks);
    InfixTokensArePrecedenced(toks[1].kind);
    ExpressionFromIdentifier(toks, Lowest, PState(0, []));
    OperatorTurn(toks, Lowest, X, PState(0, []));
    InfixLoopEnds(toks, Lowest, InfixExpr(toks[1], X, toks[1].literal, YZ), PState(4, []));
  }

  /** The inner half of GroupsRight: from `y`, at the precedence of `op1`, `op2` takes `y` and `z`. */
  lemma SecondOperatorTakesY(toks: seq<Token>)
    requires BinaryChain(toks) && PrecedenceOf(toks[1].kind) < PrecedenceOf(toks[3].kind)
    ensures var Y, Z := IdentExpr(Identifier(toks[2], toks[2].literal)), IdentExpr(Identifier(toks[4], toks[4].literal));
      ParseExpressionS(toks, PrecedenceOf(toks[1].kind), PState(2, [])) ==
        Step(InfixExpr(toks[3], Y, toks[3].literal, Z), PState(4, []))
  {
    var Y, Z := IdentExpr(Identifier(toks[2], toks[2].literal)), IdentExpr(Identifier(toks[4], toks[4].literal));
    var p1 := PrecedenceOf(toks[1].kind);
    InfixTokensArePrecedenced(toks[3].kind);
    IdentifierOperand(toks, PrecedenceOf(toks[3].kind), PState(4, []));
    ExpressionFromIdentifier(toks, p1, PState(2, []));
    OperatorTurn(toks, p1, Y, PState(2, []));
    InfixLoopEnds(toks, p1, InfixExpr(toks[3], Y, toks[3].literal, Z), PState(4, []));
  }

  /** A prefix operator binds tighter than every binary operator: `-x op y` applies `-` to `x` alone. */
  lemma PrefixBindsTighter(op: Token, x: Token, bop: Token, y: Token)
    requires op.kind == Bang || op.kind == Minus
    requires x.kind == Ident && y.kind == Ident && IsBinaryOp(bop)
    ensures var toks := [op, x, bop, y];
      var r := ParseExpressionS(toks, Lowest, PState(0, []));
      var X, Y := IdentExpr(Identifier(x, x.literal)), IdentExpr(Identifier(y, y.literal));
      r == Step(InfixExpr(bop, PrefixExpr(op, op.literal, X), bop.literal, Y), PState(3, []))
  {
    var toks := [op, x, bop, y];
    var NX := PrefixExpr(op, op.literal, IdentExpr(Identifier(x, x.literal)));
    PrefixTakesOperand(toks);
    assert ParseExpressionS(toks, Lowest, PState(0, [])) == ParseInfixLoopS(toks, Lowest, NX, PState(1, []));
    InfixAfterPrefix(toks, NX);
  }

  /** The second half of PrefixBindsTighter: the binary operator takes the operand before it and `y`. */
  lemma InfixAfterPrefix(toks: seq<Token>, left: Expr)
    requires |toks| == 4 && IsBinaryOp(toks[2]) && toks[3].kind == Ident
    ensures var Y := IdentExpr(Identifier(toks[3], toks[3].literal));
      ParseInfixLoopS(toks, Lowest, left, PState(1, [])) == Step(InfixExpr(toks[2], left, toks[2].literal, Y), PState(3, []))
  {
    var s3 := PState(3, []);
    var Y := IdentExpr(Identifier(toks[3], toks[3].literal));
    InfixTokensArePrecedenced(toks[2].kind);
    IdentifierOperand(toks, PrecedenceOf(toks[2].kind), s3);
    OperatorTurn(toks, Lowest, left, PState(1, []));
    InfixLoopEnds(toks, Lowest, InfixExpr(toks[2], left, toks[2].literal, Y), s3);
  }

  /** The first half of PrefixBindsTighter: the prefix operator takes the identifier after it and stops. */
  lemma PrefixTakesOperand(toks: seq<Token>)
    requires |toks| == 4 && (toks[0].kind == Bang || toks[0].kind == Minus)
    requires toks[1].kind == Ident && IsBinaryOp(toks[2])
    ensures ParsePrefixS(toks, PState(0, [])) ==
      Step(PrefixExpr(toks[0], toks[0].literal, IdentExpr(Identifier(toks[1], toks[1].literal))), PState(1, []))
  {
    var s1 := PState(1, []);
    InfixTokensArePrecedenced(toks[2].kind);
    IdentifierOperand(toks, PrefixPrec, s1);
    assert ParsePrefixS(toks, PState(0, [])) == ParsePrefixExpressionS(toks, PState(0, []));
  }

  /** `a + b * c` parses as `a + (b * c)` and renders as `(a + (b * c))`. */
  lemma ProductInsideSum(toks: seq<Token>)
    requires toks == [Token(Ident, "a"), Token(Plus, "+"), Token(Ident, "b"), Token(Star, "*"), Token(Ident, "c")]
    ensures var r := ParseExpressionS(toks, Lowest, PState(0, []));
      Printable(r.val) && ExprString(r.val) == "(a + (b * c))"
  {
    GroupsRight(toks);
    SumOfProductText(toks[0], toks[1], toks[2], toks[3], toks[4]);
  }

  /** The text of `a + (b * c)`. */
  lemma SumOfProductText(a: Token, plus: Token, b: Token, star: Token, c: Token)
    requires a.literal == "a" && plus.literal == "+" && b.literal == "b" && star.literal == "*" && c.literal == "c"
    ensures var BC := InfixExpr(star, IdentExpr(Identifier(b, b.literal)), star.literal, IdentExpr(Identifier(c, c.literal)));
      var e := InfixExpr(plus, IdentExpr(Identifier(a, a.literal)), plus.literal, BC);
      Printable(e) && ExprString(e) == "(a + (b * c))"
  {
    var A, B, C := IdentExpr(Identifier(a, a.literal)), IdentExpr(Identifier(b, b.literal)), IdentExpr(Identifier(c, c.literal));
    assert Printable(A) && Printable(B) && Printable(C);
    var BC := InfixExpr(star, B, star.literal, C);
    assert Printable(BC);
    assert ExprString(BC) == "(" + "b" + " " + "*" + " " + "c" + ")" == "(b * c)";
    var e := InfixExpr(plus, A, plus.literal, BC);
    assert Printable(e);
    assert ExprString(e) == "(" + "a" + " " + "+" + " " + "(b * c)" + ")";
  }

  /** `a - b - c` parses as `(a - b) - c` and renders as `((a - b) - c)`. */
  lemma DifferenceGroupsLeft(toks: seq<Token>)
    requires toks == [Token(Ident, "a"), Token(Minus, "-"), Token(Ident, "b"), Token(Minus, "-"), Token(Ident, "c")]
    ensures var r := ParseExpressionS(toks, Lowest, PState(0, []));
      Printable(r.val) && ExprString(r.val) == "((a - b) - c)"
  {
    GroupsLeft(toks);
    DifferenceText(toks[0], toks[1], toks[2], toks[3], toks[4]);
  }

  /** The text of `(a - b) - c`. */
  lemma DifferenceText(a: Token, m1: Token, b: Token, m2: Token, c: Token)
    requires a.literal == "a" && m1.literal == "-" && b.literal == "b" && m2.literal == "-" && c.literal == "c"
    ensures var AB := InfixExpr(m1, IdentExpr(Identifier(a, a.literal)), m1.literal, IdentExpr(Identifier(b, b.literal)));
      var e := InfixExpr(m2, AB, m2.literal, IdentExpr(Identifier(c, c.literal)));
      Printable(e) && ExprString(e) == "((a - b) - c)"
  {
    var A, B, C := IdentExpr(Identifier(a, a.literal)), IdentExpr(Identifier(b, b.literal)), IdentExpr(Identifier(c, c.literal));
    assert Printable(A) && Printable(B) && Printable(C);
    var AB := InfixExpr(m1, A, m1.literal, B);
    assert Printable(AB);
    assert ExprString(AB) == "(" + "a" + " " + "-" + " " + "b" + ")" == "(a - b)";
    var e := InfixExpr(m2, AB, m2.literal, C);
    assert Printable(e);
    assert ExprString(e) == "(" + "(a - b)" + " " + "-" + " " + "c" + ")";
  }

  /** Integer tokens from the lexer are non-empty digit strings, the only literals ParseIntBase0 has to read. */
  lemma LexedIntegersAreNumerals(s: string, p: nat, k: nat)
    requires p <= |s| + 1
    ensures var t := TokAt(Stream(s, p), k); t.kind == Int ==> |t.literal| > 0 && AllDigits(t.literal)
  {
    StreamIsLexerOutput(s, p, k);
    ReadIntegersAreNumerals(s, p, k);
  }

  /** The same for the `k`+1-th call of the lexer from `p`. */
  lemma {:induction false} ReadIntegersAreNumerals(s: string, p: nat, k: nat)
    ensures var t := LexFrom(s, p, k); t.kind == Int ==> |t.literal| > 0 && AllDigits(t.literal)
    decreases k
  {
    if k == 0 {
      assert LexFrom(s, p, 0) == Lex(s, p).0;
      WordTokens(s, p);
    } else {
      assert LexFrom(s, p, k) == LexFrom(s, Lex(s, p).1, k - 1);
      ReadIntegersAreNumerals(s, Lex(s, p).1, k - 1);
    }
  }

  /**
   * The parser object: the token list, the index of the current token (the
   * next one is the peek token) and the error messages so far.
   */
  class Parser {
    const toks: seq<Token>
    var cur: nat
    var errors: seq<ParseError>

    function State(): PState
      reads this
    {
      PState(cur, errors)
    }

    /** Errors: the messages recorded so far, in order. */
    function Errors(): (r: seq<string>)
      reads this
      ensures |r| == |errors|
    {
      Messages(errors)
    }

    /** New: a parser whose current token is the first one, with no errors. */
    constructor (toks: seq<Token>)
      ensures this.toks == toks && State() == PState(0, [])
    {
      this.toks := toks;
      cur := 0;
      errors := [];
    }

    method NextToken()
      modifies this
      ensures State() == Advance(old(State()))
    {
      cur := cur + 1;
    }

    function CurToken(): Token
      reads this
    {
      TokAt(toks, cur)
    }

    function PeekToken(): Token
      reads this
    {
      TokAt(toks, cur + 1)
    }

    method ExpectPeek(t: TokenType) returns (ok: bool)
      modifies this
      ensures Step(ok, State()) == ExpectPeekS(toks, t, old(State()))
    {
      if PeekToken().kind == t {
        NextToken();
        ok := true;
      } else {
        errors := errors + [PeekError(t, PeekToken().kind)];
        ok := false;
      }
    }

    method SkipSemicolon()
      modifies this
      ensures State() == SkipSemicolonS(toks, old(State()))
    {
      if PeekToken().kind == Semicolon {
        NextToken();
      }
    }

    method ParseProgram() returns (program: Program)
      modifies this
      ensures Step(program, State()) == ParseProgramS(toks, old(State()))
    {
      var stmts: seq<Stmt> := [];
      while CurToken().kind != Eof
        invariant ParseStatementsS(toks, stmts, State(), Eof) == ParseStatementsS(toks, [], old(State()), Eof)
        decreases Remaining(toks, State())
      {
        var s := ParseStatement();
        if s.Some? {
          stmts := stmts + [s.value];
        }
        NextToken();
      }
      program := Program(stmts);
    }

    method ParseStatement() returns (s: Option<Stmt>)
      modifies this
      ensures Step(s, State()) == ParseStatementS(toks, old(State()))
      decreases Remaining(toks, State()), 5
    {
      ghost var st := State();
      if CurToken().kind == Ident && PeekToken().kind == Assign {
        assert ParseStatementS(toks, st) == ParseSetS(toks, st);
        s := ParseSetStatement();
      } else if CurToken().kind == Let {
        assert ParseStatementS(toks, st) == ParseLetS(toks, st);
        s := ParseLetStatement();
      } else if CurToken().kind == Return {
        assert ParseStatementS(toks, st) == ParseReturnS(toks, st);
        s := ParseReturnStatement();
      } else {
        assert ParseStatementS(toks, st) == ParseExprStmtS(toks, st);
        s := ParseExpressionStatement();
      }
    }

    method ParseSetStatement() returns (s: Option<Stmt>)
      modifies this
      ensures Step(s, State()) == ParseSetS(toks, old(State()))
      decreases Remaining(toks, State()), 4
    {
      var tok := CurToken();
      var ok := ExpectPeek(Assign);
      if !ok {
        return None;
      }
      NextToken();
      var val := ParseExpression(Lowest);
      SkipSemicolon();
      s := Some(AssignStmt(tok, Identifier(tok, tok.literal), val));
    }

    method ParseLetStatement() returns (s: Option<Stmt>)
      modifies this
      ensures Step(s, State()) == ParseLetS(toks, old(State()))
      decreases Remaining(toks, State()), 4
    {
      var tok := CurToken();
      var ok := ExpectPeek(Ident);
      if !ok {
        return None;
      }
      var name := CurToken();
      ok := ExpectPeek(Assign);
      if !ok {
        return None;
      }
      NextToken();
      var val := ParseExpression(Lowest);
      SkipSemicolon();
      s := Some(LetStmt(tok, Identifier(name, name.literal), val));
    }

    method ParseReturnStatement() returns (s: Option<Stmt>)
      modifies this
      ensures Step(s, State()) == ParseReturnS(toks, old(State()))
      decreases Remaining(toks, State()), 4
    {
      var tok := CurToken();
      NextToken();
      var val := ParseExpression(Lowest);
      SkipSemicolon();
      s := Some(ReturnStmt(tok, val));
    }

    method ParseExpressionStatement() returns (s: Option<Stmt>)
      modifies this
      ensures Step(s, State()) == ParseExprStmtS(toks, old(State()))
      decreases Remaining(toks, State()), 4
    {
      var tok := CurToken();
      var x := ParseExpression(Lowest);
      SkipSemicolon();
      s := Some(ExprStmt(tok, x));
    }

    method ParseExpression(prec: nat) returns (left: Expr)
      modifies this
      ensures Step(left, State()) == ParseExpressionS(toks, prec, old(State()))
      decreases Remaining(toks, State()), 3
    {
      var k := CurToken().kind;
      if !HasPrefixFn(k) {
        errors := errors + [NoPrefix(k)];
        return Missing;
      }
      left := ParsePrefix();
      left := ParseInfixLoop(prec, left);
    }

    /** The loop of parseExpression: while the next token binds tighter than `prec`, let it take `left`. */
    method ParseInfixLoop(prec: nat, left0: Expr) returns (left: Expr)
      modifies this
      ensures Step(left, State()) == ParseInfixLoopS(toks, prec, left0, old(State()))
      decreases Remaining(toks, State()), 2
    {
      left := left0;
      while PeekToken().kind != Semicolon && prec < PrecedenceOf(PeekToken().kind)
        invariant ParseInfixLoopS(toks, prec, left, State()) == ParseInfixLoopS(toks, prec, left0, old(State()))
        invariant Remaining(toks, State()) <= Remaining(toks, old(State()))
        decreases Remaining(toks, State())
      {
        if !HasInfixFn(PeekToken().kind) {
          InfixLoopEnds(toks, prec, left, State());
          return;
        }
        left := ParseInfixStep(prec, left);
      }
      InfixLoopEnds(toks, prec, left, State());
    }

    /** One round of the loop of parseExpression: step onto the operator and parse what it applies to. */
    method ParseInfixStep(prec: nat, left: Expr) returns (e: Expr)
      requires HasInfixFn(PeekToken().kind) && PeekToken().kind != Semicolon && prec < PrecedenceOf(PeekToken().kind)
      modifies this
      ensures Extends(old(State()), State()) && Remaining(toks, State()) < Remaining(toks, old(State()))
      ensures ParseInfixLoopS(toks, prec, e, State()) == ParseInfixLoopS(toks, prec, left, old(State()))
      decreases Remaining(toks, State()), 1
    {
      ghost var st0 := State();
      NextToken();
      e := ParseInfix(left);
      assert Step(e, State()) == ParseInfixS(toks, left, Advance(st0));
    }

    /** The prefix parse function registered for the current token. */
    method ParsePrefix() returns (e: Expr)
      requires HasPrefixFn(CurToken().kind)
      modifies this
      ensures Step(e, State()) == ParsePrefixS(toks, old(State()))
      decreases Remaining(toks, State()), 2
    {
      var k := CurToken().kind;
      if k == Ident {
        e := ParseIdentifier();
      } else if k == Int {
        e := ParseIntegerLiteral();
      } else if k == True || k == False {
        e := ParseBoolean();
      } else if k == Bang || k == Minus {
        e := ParsePrefixExpression();
      } else if k == LParen {
        e := ParseGroupedExpression();
      } else if k == If {
        e := ParseIfExpression();
      } else {
        e := ParseFunctionLiteral();
      }
    }

    method ParseIdentifier() returns (e: Expr)
      requires CurToken().kind == Ident
      ensures Step(e, State()) == ParseIdentifierS(toks, State())
    {
      e := IdentExpr(Identifier(CurToken(), CurToken().literal));
    }

    method ParseIntegerLiteral() returns (e: Expr)
      requires CurToken().kind == Int
      modifies this
      ensures Step(e, State()) == ParseIntegerLiteralS(toks, old(State()))
    {
      var tok := CurToken();
      var v := ParseIntBase0(tok.literal);
      if v.None? {
        errors := errors + [BadInt(tok.literal)];
        return Missing;
      }
      e := IntLit(tok, v.value);
    }

    method ParseBoolean() returns (e: Expr)
      requires CurToken().kind == True || CurToken().kind == False
      ensures Step(e, State()) == ParseBooleanS(toks, State())
    {
      e := BoolLit(CurToken(), CurToken().kind == True);
    }

    method ParsePrefixExpression() returns (e: Expr)
      requires CurToken().kind == Bang || CurToken().kind == Minus
      modifies this
      ensures Step(e, State()) == ParsePrefixExpressionS(toks, old(State()))
      decreases Remaining(toks, State()), 1
    {
      var tok := CurToken();
      NextToken();
      var right := ParseExpression(PrefixPrec);
      e := PrefixExpr(tok, tok.literal, right);
    }

    method ParseGroupedExpression() returns (e: Expr)
      requires CurToken().kind == LParen
      modifies this
      ensures Step(e, State()) == ParseGroupedS(toks, old(State()))
      decreases Remaining(toks, State()), 1
    {
      NextToken();
      e := ParseExpression(Lowest);
      var ok := ExpectPeek(RParen);
      if !ok {
        e := Missing;
      }
    }

    /** The infix parse function registered for the current token. */
    method ParseInfix(left: Expr) returns (e: Expr)
      requires HasInfixFn(CurToken().kind)
      modifies this
      ensures Step(e, State()) == ParseInfixS(toks, left, old(State()))
      decreases Remaining(toks, State()), 5
    {
      if CurToken().kind == LParen {
        e := ParseCallExpression(left);
      } else {
        e := ParseInfixExpression(left);
      }
    }

    method ParseInfixExpression(left: Expr) returns (e: Expr)
      requires HasInfixFn(CurToken().kind) && CurToken().kind != LParen
      modifies this
      ensures Step(e, State()) == ParseOperatorS(toks, left, old(State()))
      decreases Remaining(toks, State()), 1
    {
      var tok := CurToken();
      var prec := PrecedenceOf(tok.kind);
      NextToken();
      var right := ParseExpression(prec);
      e := InfixExpr(tok, left, tok.literal, right);
    }

    method ParseCallExpression(callee: Expr) returns (e: Expr)
      requires CurToken().kind == LParen
      modifies this
      ensures Step(e, State()) == ParseCallS(toks, callee, old(State()))
      decreases Remaining(toks, State()), 4
    {
      var tok := CurToken();
      var args := ParseCallArguments();
      e := CallExpr(tok, callee, args);
    }

    method ParseCallArguments() returns (args: seq<Expr>)
      requires CurToken().kind == LParen
      modifies this
      ensures Step(args, State()) == ParseCallArgumentsS(toks, old(State()))
      decreases Remaining(toks, State()), 3
    {
      ghost var st := State();
      if PeekToken().kind == RParen {
        NextToken();
        assert ParseCallArgumentsS(toks, st) == Step([], Advance(st));
        return [];
      }
      CallArgumentsAfterFirst(toks, st);
      ghost var x := ParseExpressionS(toks, Lowest, Advance(st));
      NextToken();
      var arg := ParseExpression(Lowest);
      assert arg == x.val && State() == x.st;
      args := ParseArgumentsTail(arg);
    }

    /** The arguments after the first one, then the closing `)`; a list without its `)` yields no arguments. */
    method ParseArgumentsTail(first: Expr) returns (args: seq<Expr>)
      modifies this
      ensures Step(args, State()) == ParseArgumentsTailS(toks, first, old(State()))
      decreases Remaining(toks, State()), 3
    {
      args := ParseArgumentsLoop([first]);
      var ok := ExpectPeek(RParen);
      if !ok {
        args := [];
      }
    }

    /** The loop of parseCallArguments: while a comma follows, parse the argument after it. */
    method ParseArgumentsLoop(args0: seq<Expr>) returns (args: seq<Expr>)
      modifies this
      ensures Step(args, State()) == ParseArgumentsLoopS(toks, args0, old(State()))
      decreases Remaining(toks, State()), 2
    {
      args := args0;
      while PeekToken().kind == Comma
        invariant ParseArgumentsLoopS(toks, args, State()) == ParseArgumentsLoopS(toks, args0, old(State()))
        invariant Remaining(toks, State()) <= Remaining(toks, old(State()))
        decreases Remaining(toks, State())
      {
        args := ParseArgumentStep(args);
      }
    }

    /** One round of the loop of parseCallArguments: step past the comma and parse the next argument. */
    method ParseArgumentStep(args: seq<Expr>) returns (args': seq<Expr>)
      requires PeekToken().kind == Comma
      modifies this
      ensures Extends(old(State()), State()) && Remaining(toks, State()) < Remaining(toks, old(State()))
      ensures ParseArgumentsLoopS(toks, args', State()) == ParseArgumentsLoopS(toks, args, old(State()))
      decreases Remaining(toks, State()), 1
    {
      ghost var st0 := State();
      NextToken();
      NextToken();
      var arg := ParseExpression(Lowest);
      assert Step(arg, State()) == ParseExpressionS(toks, Lowest, Advance(Advance(st0)));
      args' := args + [arg];
    }

    method ParseIfExpression() returns (e: Expr)
      requires CurToken().kind == If
      modifies this
      ensures Step(e, State()) == ParseIfS(toks, old(State()))
      decreases Remaining(toks, State()), 1
    {
      var tok := CurToken();
      var ok := ExpectPeek(LParen);
      if !ok {
        return Missing;
      }
      ghost var st1 := State();
      NextToken();
      var cond := ParseExpression(Lowest);
      assert Step(cond, State()) == ParseExpressionS(toks, Lowest, Advance(st1));
      ok := ExpectPeek(RParen);
      if !ok {
        return Missing;
      }
      e := ParseIfBlocks(tok, cond);
    }

    /** The blocks of an `if`, from its closing `)` on. */
    method ParseIfBlocks(tok: Token, cond: Expr) returns (e: Expr)
      modifies this
      ensures Step(e, State()) == ParseIfBlocksS(toks, tok, cond, old(State()))
      decreases Remaining(toks, State()), 0
    {
      var ok := ExpectPeek(LBrace);
      if !ok {
        return Missing;
      }
      ghost var st1 := State();
      var cons := ParseBlockStatement();
      assert Step(cons, State()) == ParseBlockS(toks, st1);
      e := ParseElse(tok, cond, cons);
    }

    /** The optional `else` block of an `if`, from the consequence's closing `}` on. */
    method ParseElse(tok: Token, cond: Expr, cons: Block) returns (e: Expr)
      modifies this
      ensures Step(e, State()) == ParseElseS(toks, tok, cond, cons, old(State()))
      decreases Remaining(toks, State()), 2
    {
      ghost var st := State();
      if PeekToken().kind != Else {
        return IfExpr(tok, cond, cons, None);
      }
      NextToken();
      assert State() == Advance(st);
      var ok := ExpectPeek(LBrace);
      if !ok {
        return Missing;
      }
      var alt := ParseBlockStatement();
      e := IfExpr(tok, cond, cons, Some(alt));
    }

    method ParseBlockStatement() returns (b: Block)
      requires CurToken().kind == LBrace
      modifies this
      ensures Step(b, State()) == ParseBlockS(toks, old(State()))
      decreases Remaining(toks, State()), 0
    {
      var tok := CurToken();
      NextToken();
      var stmts: seq<Stmt> := [];
      while CurToken().kind != RBrace && CurToken().kind != Eof
        invariant Extends(old(Advance(State())), State())
        invariant ParseStatementsS(toks, stmts, State(), RBrace) == ParseStatementsS(toks, [], old(Advance(State())), RBrace)
        decreases Remaining(toks, State())
      {
        var s := ParseStatement();
        if s.Some? {
          stmts := stmts + [s.value];
        }
        NextToken();
      }
      b := Block(tok, stmts);
    }

    method ParseFunctionLiteral() returns (e: Expr)
      requires CurToken().kind == Function
      modifies this
      ensures Step(e, State()) == ParseFunctionLiteralS(toks, old(State()))
      decreases Remaining(toks, State()), 1
    {
      var tok := CurToken();
      var ok := ExpectPeek(LParen);
      if !ok {
        return Missing;
      }
      var params := ParseFunctionParameters();
      ok := ExpectPeek(LBrace);
      if !ok {
        return Missing;
      }
      var body := ParseBlockStatement();
      e := FnLit(tok, params, body);
    }

    method ParseFunctionParameters() returns (ids: seq<Identifier>)
      modifies this
      ensures Step(ids, State()) == ParseParametersS(toks, old(State()))
    {
      if PeekToken().kind == RParen {
        NextToken();
        return [];
      }
      NextToken();
      ids := ParseParametersLoop([Identifier(CurToken(), CurToken().literal)]);
      var ok := ExpectPeek(RParen);
      if !ok {
        ids := [];
      }
    }

    /** The loop of parseFunctionParameters: while a comma follows, the token after it is the next name. */
    method ParseParametersLoop(ids0: seq<Identifier>) returns (ids: seq<Identifier>)
      modifies this
      ensures Step(ids, State()) == ParseParametersLoopS(toks, ids0, old(State()))
    {
      ids := ids0;
      while PeekToken().kind == Comma
        invariant ParseParametersLoopS(toks, ids, State()) == ParseParametersLoopS(toks, ids0, old(State()))
        decreases Remaining(toks, State())
      {
        NextToken();
        NextToken();
        ids := ids + [Identifier(CurToken(), CurToken().literal)];
      }
    }
  }
}
