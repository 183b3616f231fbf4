/**
 * Properties of the parser of sg_interpreter/src/sg/parser/parser.go that
 * relate several parse functions: what a program's token literal is, how
 * the parameter loop reads a list, and the trees built for small token
 * lists of each statement and expression form.
 */
module ParserFacts {
  import opened Wrappers
  import opened Tokens
  import opened Ast
  import opened Lexing
  import opened Parsing
  import Items

  /**
   * Program.TokenLiteral after parsing: when the first statement parses,
   * the program's token literal is the literal of the token it started on.
   */
  lemma ProgramTokenIsFirstToken(toks: seq<Token>, st: PState)
    requires CurTok(toks, st).kind != Eof
    requires ParseStatementS(toks, st).val.Some?
    ensures var p := ParseProgramS(toks, st).val;
      |p.stmts| > 0 && p.stmts[0] == ParseStatementS(toks, st).val.value
      && ProgramTokenLiteral(p) == CurTok(toks, st).literal
  {
    var s := ParseStatementS(toks, st);
    assert [] + [s.val.value] == [s.val.value];
    assert ParseStatementsS(toks, [], st, Eof) == ParseStatementsS(toks, [s.val.value], Advance(s.st), Eof);
  }

  /** No `;` is left right after the cursor, unless the cursor is on one. */
  predicate NoSemicolonLeft(toks: seq<Token>, st: PState)
  {
    CurTok(toks, st).kind == Semicolon || PeekTok(toks, st).kind != Semicolon
  }

  /**
   * The optional `;` after a statement: the cursor steps onto the next token
   * exactly when it is a `;`, nothing is recorded, and no `;` is left.
   */
  lemma SemicolonSkipped(toks: seq<Token>, st: PState)
    ensures var r := SkipSemicolonS(toks, st);
      r.errors == st.errors
      && (r == Advance(st) <==> PeekTok(toks, st).kind == Semicolon)
      && (r == st || CurTok(toks, r).kind == Semicolon)
      && NoSemicolonLeft(toks, r)
  {
  }

  /**
   * parseStatement: only a `let` can fail, and then an error is recorded; a
   * parsed statement carries the token it started on and leaves no `;`.
   */
  lemma StatementShape(toks: seq<Token>, st: PState)
    ensures var r := ParseStatementS(toks, st);
      (r.val.None? ==> CurTok(toks, st).kind == Let && |st.errors| < |r.st.errors|)
      && (r.val.Some? ==> r.val.value.token == CurTok(toks, st) && NoSemicolonLeft(toks, r.st))
  {
    var k := CurTok(toks, st).kind;
    if k == Ident && PeekTok(toks, st).kind == Assign {
      AssignmentShape(toks, st);
    } else if k == Let {
      LetShape(toks, st);
    } else if k == Return {
      ReturnShape(toks, st);
    } else {
      ExpressionStatementShape(toks, st);
    }
  }

  /**
   * parseSetStatement: an assignment exactly when `=` follows the name, of
   * that name to the expression after `=`; otherwise the error names the
   * token found instead.
   */
  lemma AssignmentShape(toks: seq<Token>, st: PState)
    ensures var r := ParseSetS(toks, st);
      var tok, x := CurTok(toks, st), ParseExpressionS(toks, Lowest, Advance(Advance(st)));
      (r.val.Some? <==> PeekTok(toks, st).kind == Assign)
      && (r.val.None? ==> r.st == Fail(st, PeekError(Assign, PeekTok(toks, st).kind)))
      && (r.val.Some? ==> r.val.value == AssignStmt(tok, Identifier(tok, tok.literal), x.val) && NoSemicolonLeft(toks, r.st))
  {
    SemicolonSkipped(toks, ParseExpressionS(toks, Lowest, Advance(Advance(st))).st);
  }

  /**
   * parseLetStatement: a let exactly when a name and then `=` follow the
   * keyword, binding that name to the expression after `=`; otherwise the
   * error names the first token that is not the one expected.
   */
  lemma LetShape(toks: seq<Token>, st: PState)
    ensures var r := ParseLetS(toks, st);
      var name, after := PeekTok(toks, st), TokAt(toks, st.cur + 2).kind;
      var x := ParseExpressionS(toks, Lowest, Advance(Advance(Advance(st))));
      (r.val.Some? <==> name.kind == Ident && after == Assign)
      && (name.kind != Ident ==> r == Step(None, Fail(st, PeekError(Ident, name.kind))))
      && (name.kind == Ident && after != Assign ==> r == Step(None, Fail(Advance(st), PeekError(Assign, after))))
      && (r.val.Some? ==> r.val.value == LetStmt(CurTok(toks, st), Identifier(name, name.literal), x.val) && NoSemicolonLeft(toks, r.st))
  {
    var e1 := ExpectPeekS(toks, Ident, st);
    if e1.val {
      assert e1.st == Advance(st) && PeekTok(toks, e1.st) == TokAt(toks, st.cur + 2);
      var e2 := ExpectPeekS(toks, Assign, e1.st);
      if e2.val {
        SemicolonSkipped(toks, ParseExpressionS(toks, Lowest, Advance(e2.st)).st);
      }
    }
  }

  /** parseReturnStatement always yields a statement: the expression after the keyword. */
  lemma ReturnShape(toks: seq<Token>, st: PState)
    ensures var r := ParseReturnS(toks, st);
      r.val == Some(ReturnStmt(CurTok(toks, st), ParseExpressionS(toks, Lowest, Advance(st)).val))
      && NoSemicolonLeft(toks, r.st)
  {
    SemicolonSkipped(toks, ParseExpressionS(toks, Lowest, Advance(st)).st);
  }

  /** parseExpressionStatement always yields a statement: the expression that starts at the current token. */
  lemma ExpressionStatementShape(toks: seq<Token>, st: PState)
    ensures var r := ParseExprStmtS(toks, st);
      r.val == Some(ExprStmt(CurTok(toks, st), ParseExpressionS(toks, Lowest, st).val))
      && NoSemicolonLeft(toks, r.st)
  {
    SemicolonSkipped(toks, ParseExpressionS(toks, Lowest, st).st);
  }

  /** A token with no prefix parse function yields no expression; the error names the token and the cursor stays. */
  lemma NoPrefixReported(toks: seq<Token>, prec: nat, st: PState)
    requires !HasPrefixFn(CurTok(toks, st).kind)
    ensures ParseExpressionS(toks, prec, st) == Step(Missing, Fail(st, NoPrefix(CurTok(toks, st).kind)))
  {
  }

  /** parseBoolean: the node is true exactly on a `true` token, so a `false` token gives false. */
  lemma BooleanTruth(toks: seq<Token>, st: PState)
    requires CurTok(toks, st).kind == True || CurTok(toks, st).kind == False
    ensures var r := ParsePrefixS(toks, st);
      r.st == st && r.val.BoolLit? && r.val.token == CurTok(toks, st)
      && (r.val.truth <==> CurTok(toks, st).kind == True)
  {
  }

  /**
   * Parentheses add no node: a grouped expression is the expression inside,
   * and without its `)` there is none and the parser records the `)` it expected.
   */
  lemma GroupedShape(toks: seq<Token>, st: PState)
    requires CurTok(toks, st).kind == LParen
    ensures var x := ParseExpressionS(toks, Lowest, Advance(st));
      var r := ParseGroupedS(toks, st);
      (PeekTok(toks, x.st).kind == RParen ==> r == Step(x.val, Advance(x.st)))
      && (PeekTok(toks, x.st).kind != RParen ==> r == Step(Missing, Fail(x.st, PeekError(RParen, PeekTok(toks, x.st).kind))))
  {
  }

  /**
   * parseIfExpression: without `(` after the keyword there is no node and
   * the error names the token found; a node starts at the keyword and its
   * condition is the expression after `(`, which a `)` closes.
   */
  lemma IfConditionShape(toks: seq<Token>, st: PState)
    requires CurTok(toks, st).kind == If
    ensures var r := ParseIfS(toks, st);
      var cond := ParseExpressionS(toks, Lowest, Advance(Advance(st)));
      (PeekTok(toks, st).kind != LParen ==> r == Step(Missing, Fail(st, PeekError(LParen, PeekTok(toks, st).kind))))
      && (r.val != Missing ==>
            PeekTok(toks, st).kind == LParen && PeekTok(toks, cond.st).kind == RParen
            && r.val.IfExpr? && r.val.token == CurTok(toks, st) && r.val.cond == cond.val)
  {
    var cond := ParseExpressionS(toks, Lowest, Advance(Advance(st)));
    IfBlocksShape(toks, CurTok(toks, st), cond.val, Advance(cond.st));
  }

  /**
   * The blocks of an `if`: without `{` after the condition there is no node
   * and the error names the token found; the consequence is the block that
   * starts at that `{`.
   */
  lemma IfBlocksShape(toks: seq<Token>, tok: Token, cond: Expr, st: PState)
    ensures var r := ParseIfBlocksS(toks, tok, cond, st);
      (PeekTok(toks, st).kind != LBrace ==> r == Step(Missing, Fail(st, PeekError(LBrace, PeekTok(toks, st).kind))))
      && (r.val != Missing ==>
            PeekTok(toks, st).kind == LBrace && r.val.IfExpr? && r.val.token == tok && r.val.cond == cond
            && r.val.cons == ParseBlockS(toks, Advance(st)).val)
  {
    if PeekTok(toks, st).kind == LBrace {
      var cons := ParseBlockS(toks, Advance(st));
      ElseShape(toks, tok, cond, cons.val, cons.st);
    }
  }

  /**
   * The optional `else`: without it the node has no alternative; with it,
   * the alternative is the block after `else`, and an `else` without `{`
   * leaves no node.
   */
  lemma ElseShape(toks: seq<Token>, tok: Token, cond: Expr, cons: Block, st: PState)
    ensures var r := ParseElseS(toks, tok, cond, cons, st);
      (r.val == Missing <==> PeekTok(toks, st).kind == Else && TokAt(toks, st.cur + 2).kind != LBrace)
      && (r.val != Missing ==> r.val.IfExpr? && r.val.token == tok && r.val.cond == cond && r.val.cons == cons)
      && (r.val != Missing ==> (r.val.alt.Some? <==> PeekTok(toks, st).kind == Else))
      && (r.val != Missing && r.val.alt.Some? ==> r.val.alt.value == ParseBlockS(toks, Advance(Advance(st))).val)
  {
  }

  /**
   * parseFunctionLiteral: without `(` after the keyword there is no node and
   * the error names the token found; otherwise a node exactly when `{`
   * follows the parameter list, holding those parameters and that block.
   */
  lemma FunctionLiteralShape(toks: seq<Token>, st: PState)
    requires CurTok(toks, st).kind == Function
    ensures var ps := ParseParametersS(toks, Advance(st));
      var r := ParseFunctionLiteralS(toks, st);
      (PeekTok(toks, st).kind != LParen ==> r == Step(Missing, Fail(st, PeekError(LParen, PeekTok(toks, st).kind))))
      && (r.val != Missing <==> PeekTok(toks, st).kind == LParen && PeekTok(toks, ps.st).kind == LBrace)
      && (r.val != Missing ==> r.val == FnLit(CurTok(toks, st), ps.val, ParseBlockS(toks, Advance(ps.st)).val))
  {
  }

  /**
   * The TokenLiteral of the node a prefix parse function builds is the
   * literal of the token it starts at, for every kind but `(`, whose node is
   * the inner expression itself (GroupedShape).
   */
  lemma PrefixNodeToken(toks: seq<Token>, st: PState)
    requires HasPrefixFn(CurTok(toks, st).kind) && CurTok(toks, st).kind != LParen
    ensures var r := ParsePrefixS(toks, st);
      r.val != Missing ==> ExprTokenLiteral(r.val) == CurTok(toks, st).literal
  {
    var k := CurTok(toks, st).kind;
    if k == If {
      assert ParsePrefixS(toks, st) == ParseIfS(toks, st);
      IfConditionShape(toks, st);
    } else if k == Function {
      assert ParsePrefixS(toks, st) == ParseFunctionLiteralS(toks, st);
      FunctionLiteralShape(toks, st);
    } else if k == Int {
      IntegerLiteralShape(toks, st);
    }
  }

  /**
   * The names of a comma-separated list that starts at `start`: each one is
   * the token two places after the previous, and a comma sits between them.
   */
  ghost predicate NamesAfterCommas(toks: seq<Token>, start: nat, names: seq<Identifier>)
  {
    forall k :: 0 <= k < |names| ==>
      TokAt(toks, start + 2 * k + 1).kind == Comma
      && names[k] == Identifier(TokAt(toks, start + 2 * k + 2), TokAt(toks, start + 2 * k + 2).literal)
  }

  /**
   * The comma loop of parseFunctionParameters takes the token after each
   * comma as the next name, stops at the first name not followed by a
   * comma, and records no error.
   */
  lemma {:induction false} ParametersFollowCommas(toks: seq<Token>, ids: seq<Identifier>, st: PState)
    ensures var r := ParseParametersLoopS(toks, ids, st);
      |ids| <= |r.val| && r.val[..|ids|] == ids
      && r.st == PState(st.cur + 2 * (|r.val| - |ids|), st.errors) && PeekTok(toks, r.st).kind != Comma
      && NamesAfterCommas(toks, st.cur, r.val[|ids|..])
    decreases Remaining(toks, st)
  {
    var r := ParseParametersLoopS(toks, ids, st);
    if PeekTok(toks, st).kind == Comma {
      var st2 := Advance(Advance(st));
      var t := CurTok(toks, st2);
      var ids' := ids + [Identifier(t, t.literal)];
      ParametersFollowCommas(toks, ids', st2);
      assert r == ParseParametersLoopS(toks, ids', st2);
      assert r.val[..|ids|] == r.val[..|ids'|][..|ids|];
      var rest := r.val[|ids|..];
      assert rest == [r.val[|ids|]] + r.val[|ids'|..];
      forall k | 0 <= k < |rest|
        ensures TokAt(toks, st.cur + 2 * k + 1).kind == Comma
          && rest[k] == Identifier(TokAt(toks, st.cur + 2 * k + 2), TokAt(toks, st.cur + 2 * k + 2).literal)
      {
        if k > 0 {
          assert rest[k] == r.val[|ids'|..][k - 1];
          assert st2.cur + 2 * (k - 1) + 1 == st.cur + 2 * k + 1;
        }
      }
    } else {
      assert r.val == ids;
    }
  }

  /**
   * parseFunctionParameters: `()` is the empty list, and a non-empty list
   * is kept only when it ends on its `)`.
   */
  lemma ParameterListShape(toks: seq<Token>, st: PState)
    ensures var r := ParseParametersS(toks, st);
      (PeekTok(toks, st).kind == RParen ==> r == Step([], Advance(st)))
      && (r.val != [] ==> CurTok(toks, r.st).kind == RParen)
  {
  }

  /**
   * parseCallArguments: `()` is the empty list; a non-empty list starts with
   * the expression right after `(` and is kept only when it ends on its `)`.
   */
  lemma CallArgumentsShape(toks: seq<Token>, st: PState)
    requires CurTok(toks, st).kind == LParen
    ensures var r := ParseCallArgumentsS(toks, st);
      (PeekTok(toks, st).kind == RParen ==> r == Step([], Advance(st)))
      && (r.val != [] ==> CurTok(toks, r.st).kind == RParen)
      && (r.val != [] ==> PeekTok(toks, st).kind != RParen && r.val[0] == ParseExpressionS(toks, Lowest, Advance(st)).val)
  {
  }

  /**
   * parseIntegerLiteral: the node holds the value strconv.ParseInt gives the
   * literal with base 0; when that fails there is no node and the error
   * names the literal.
   */
  lemma IntegerLiteralShape(toks: seq<Token>, st: PState)
    ensures var r := ParseIntegerLiteralS(toks, st);
      var lit := CurTok(toks, st).literal;
      (r.val != Missing <==> ParseIntBase0(lit).Some?)
      && (ParseIntBase0(lit).Some? ==> r == Step(IntLit(CurTok(toks, st), ParseIntBase0(lit).value), st))
      && (ParseIntBase0(lit).None? ==> r == Step(Missing, Fail(st, BadInt(lit))))
  {
  }

  /** A decimal literal above the int64 range is rejected, and the parser records that literal. */
  lemma IntegerOverflowIsRejected(toks: seq<Token>, st: PState, n: nat)
    requires n > Items.MaxInt64
    requires CurTok(toks, st) == Token(Int, Items.Digits(n))
    ensures ParseIntBase0(Items.Digits(n)) == None
    ensures ParseIntegerLiteralS(toks, st) == Step(Missing, Fail(st, BadInt(Items.Digits(n))))
  {
    DigitsValue(n);
  }

  /** A decimal literal in the int64 range becomes an integer node holding its value. */
  lemma IntegerLiteralValue(toks: seq<Token>, st: PState, n: nat)
    requires n <= Items.MaxInt64
    requires CurTok(toks, st) == Token(Int, Items.Digits(n))
    ensures ParseIntegerLiteralS(toks, st) == Step(IntLit(CurTok(toks, st), n), st)
  {
    ParseIntRoundTrip(n);
  }

  /** A statement list holding one statement: it parses, and the token after it ends the list. */
  lemma OneStatement(toks: seq<Token>, st: PState, stop: TokenType)
    requires CurTok(toks, st).kind != stop && CurTok(toks, st).kind != Eof
    requires ParseStatementS(toks, st).val.Some?
    requires CurTok(toks, Advance(ParseStatementS(toks, st).st)).kind == stop
    ensures var s := ParseStatementS(toks, st);
      ParseStatementsS(toks, [], st, stop) == Step([s.val.value], Advance(s.st))
  {
    var s := ParseStatementS(toks, st);
    assert [] + [s.val.value] == [s.val.value];
    assert ParseStatementsS(toks, [s.val.value], Advance(s.st), stop) == Step([s.val.value], Advance(s.st));
  }

  /** A lone identifier, followed by no `=`, `;` or operator, is an expression statement of that name. */
  lemma IdentifierStatement(toks: seq<Token>, st: PState)
    requires CurTok(toks, st).kind == Ident
    requires var k := PeekTok(toks, st).kind; k != Assign && k != Semicolon && !HasInfixFn(k)
    ensures var t := CurTok(toks, st);
      ParseStatementS(toks, st) == Step(Some(ExprStmt(t, IdentExpr(Identifier(t, t.literal)))), st)
  {
    IdentifierOperand(toks, Lowest, st);
    assert SkipSemicolonS(toks, st) == st;
  }

  /** One turn of the infix loop on a `(`: the call takes `left` as its callee and the arguments that follow. */
  lemma CallTurn(toks: seq<Token>, prec: nat, left: Expr, st: PState)
    requires PeekTok(toks, st).kind == LParen && prec < CallPrec
    ensures var args := ParseCallArgumentsS(toks, Advance(st));
      ParseInfixLoopS(toks, prec, left, st) ==
        ParseInfixLoopS(toks, prec, CallExpr(PeekTok(toks, st), left, args.val), args.st)
  {
    assert ParseInfixS(toks, left, Advance(st)) == ParseCallS(toks, left, Advance(st));
  }

  /** `let x = 5;` parses, without errors, to one let statement that renders as the same text. */
  lemma LetProgram(toks: seq<Token>)
    requires toks == [Token(Let, "let"), Token(Ident, "x"), Token(Assign, "="), Token(Int, "5"), Token(Semicolon, ";")]
    ensures var r := ParseProgramS(toks, PState(0, []));
      r == Step(Program([LetStmt(toks[0], Identifier(toks[1], "x"), IntLit(toks[3], 5))]), PState(5, []))
      && ProgramString(r.val) == "let x = 5;"
  {
    var l := LetStmt(toks[0], Identifier(toks[1], "x"), IntLit(toks[3], 5));
    LetProgramTree(toks);
    assert StmtsString([l]) == StmtsString([]) + StmtString(l);
  }

  /** The tree of a program `let name = 5;`. */
  lemma LetProgramTree(toks: seq<Token>)
    requires |toks| == 5 && toks[0].kind == Let && toks[1].kind == Ident && toks[2].kind == Assign
    requires toks[3] == Token(Int, "5") && toks[4].kind == Semicolon
    ensures ParseProgramS(toks, PState(0, [])) ==
      Step(Program([LetStmt(toks[0], Identifier(toks[1], toks[1].literal), IntLit(toks[3], 5))]), PState(5, []))
  {
    LetOfFive(toks);
    OneStatement(toks, PState(0, []), Eof);
  }

  /** The statement `let name = 5;`, which ends on its `;`. */
  lemma LetOfFive(toks: seq<Token>)
    requires |toks| == 5 && toks[0].kind == Let && toks[1].kind == Ident && toks[2].kind == Assign
    requires toks[3] == Token(Int, "5") && toks[4].kind == Semicolon
    ensures ParseStatementS(toks, PState(0, [])) ==
      Step(Some(LetStmt(toks[0], Identifier(toks[1], toks[1].literal), IntLit(toks[3], 5))), PState(4, []))
  {
    FiveOperand(toks, PState(3, []));
  }

  /** The literal `5` followed by a `;` is the operand 5 on its own. */
  lemma FiveOperand(toks: seq<Token>, st: PState)
    requires CurTok(toks, st) == Token(Int, "5") && PeekTok(toks, st).kind == Semicolon
    ensures ParseExpressionS(toks, Lowest, st) == Step(IntLit(CurTok(toks, st), 5), st)
  {
    assert "5"[..0] == "";
    assert ParseIntBase0("5") == Some(5);
    assert ParsePrefixS(toks, st) == Step(IntLit(CurTok(toks, st), 5), st);
    InfixLoopEnds(toks, Lowest, IntLit(CurTok(toks, st), 5), st);
  }

  /** A `)` cannot start an expression: the statement keeps a missing expression and the error names the token. */
  lemma NoPrefixProgram(toks: seq<Token>)
    requires toks == [Token(RParen, ")")]
    ensures var r := ParseProgramS(toks, PState(0, []));
      r == Step(Program([ExprStmt(toks[0], Missing)]), PState(1, [NoPrefix(RParen)]))
      && Message(r.st.errors[0]) == "no prefix parse function for ) found"
  {
    NoPrefixTree(toks);
    NoPrefixMessage();
  }

  /** The tree of NoPrefixProgram, for any single token with no prefix parse function. */
  lemma NoPrefixTree(toks: seq<Token>)
    requires |toks| == 1 && !HasPrefixFn(toks[0].kind) && toks[0].kind != Let && toks[0].kind != Return && toks[0].kind != Eof
    ensures ParseProgramS(toks, PState(0, [])) == Step(Program([ExprStmt(toks[0], Missing)]), PState(1, [NoPrefix(toks[0].kind)]))
  {
    var s0, f0 := PState(0, []), PState(0, [NoPrefix(toks[0].kind)]);
    NoPrefixReported(toks, Lowest, s0);
    assert SkipSemicolonS(toks, f0) == f0;
    assert ParseStatementS(toks, s0) == Step(Some(ExprStmt(toks[0], Missing)), f0);
    OneStatement(toks, s0, Eof);
  }

  /** The message of the error NoPrefixProgram records. */
  lemma NoPrefixMessage()
    ensures Message(NoPrefix(RParen)) == "no prefix parse function for ) found"
  {
  }

  /** Parentheses override precedence: `(a + b) * c` renders as `((a + b) * c)`. */
  lemma GroupingOverridesPrecedence(toks: seq<Token>)
    requires toks == [Token(LParen, "("), Token(Ident, "a"), Token(Plus, "+"), Token(Ident, "b"), Token(RParen, ")"),
                      Token(Star, "*"), Token(Ident, "c")]
    ensures var r := ParseExpressionS(toks, Lowest, PState(0, []));
      r.st == PState(6, []) && Printable(r.val) && ExprString(r.val) == "((a + b) * c)"
  {
    GroupedProduct(toks);
    GroupedProductText(toks[1], toks[2], toks[3], toks[5], toks[6]);
  }

  /** The text of `(a + b) * c`. */
  lemma GroupedProductText(a: Token, plus: Token, b: Token, star: Token, c: Token)
    requires a.literal == "a" && plus.literal == "+" && b.literal == "b" && star.literal == "*" && c.literal == "c"
    ensures var AB := InfixExpr(plus, IdentExpr(Identifier(a, a.literal)), plus.literal, IdentExpr(Identifier(b, b.literal)));
      var e := InfixExpr(star, AB, star.literal, IdentExpr(Identifier(c, c.literal)));
      Printable(e) && ExprString(e) == "((a + b) * c)"
  {
    var A, B, C := IdentExpr(Identifier(a, a.literal)), IdentExpr(Identifier(b, b.literal)), IdentExpr(Identifier(c, c.literal));
    assert Printable(A) && Printable(B) && Printable(C);
    var AB := InfixExpr(plus, A, plus.literal, B);
    assert Printable(AB);
    assert ExprString(AB) == "(" + "a" + " " + "+" + " " + "b" + ")" == "(a + b)";
    var e := InfixExpr(star, AB, star.literal, C);
    assert Printable(e);
    assert ExprString(e) == "(" + "(a + b)" + " " + "*" + " " + "c" + ")";
  }

  /** The tree of `(a + b) * c`: the product takes the whole group as its left operand. */
  lemma GroupedProduct(toks: seq<Token>)
    requires |toks| == 7 && toks[0].kind == LParen && toks[1].kind == Ident && toks[2].kind == Plus
    requires toks[3].kind == Ident && toks[4].kind == RParen && toks[5].kind == Star && toks[6].kind == Ident
    ensures var A, B, C := IdentExpr(Identifier(toks[1], toks[1].literal)), IdentExpr(Identifier(toks[3], toks[3].literal)),
        IdentExpr(Identifier(toks[6], toks[6].literal));
      ParseExpressionS(toks, Lowest, PState(0, [])) ==
        Step(InfixExpr(toks[5], InfixExpr(toks[2], A, toks[2].literal, B), toks[5].literal, C), PState(6, []))
  {
    var A, B := IdentExpr(Identifier(toks[1], toks[1].literal)), IdentExpr(Identifier(toks[3], toks[3].literal));
    GroupedOperand(toks);
    ProductTail(toks, InfixExpr(toks[2], A, toks[2].literal, B));
  }

  /** The `* c` that ends `(a + b) * c` takes whatever operand precedes it. */
  lemma ProductTail(toks: seq<Token>, left: Expr)
    requires |toks| == 7 && toks[5].kind == Star && toks[6].kind == Ident
    ensures var C := IdentExpr(Identifier(toks[6], toks[6].literal));
      ParseInfixLoopS(toks, Lowest, left, PState(4, [])) == Step(InfixExpr(toks[5], left, toks[5].literal, C), PState(6, []))
  {
    var s6 := PState(6, []);
    var C := IdentExpr(Identifier(toks[6], toks[6].literal));
    IdentifierOperand(toks, Product, s6);
    OperatorTurn(toks, Lowest, left, PState(4, []));
    InfixLoopEnds(toks, Lowest, InfixExpr(toks[5], left, toks[5].literal, C), s6);
  }

  /** `(a + b) * c` continues the infix loop from the group, at its `)`. */
  lemma GroupedOperand(toks: seq<Token>)
    requires |toks| == 7 && toks[0].kind == LParen && toks[1].kind == Ident && toks[2].kind == Plus
    requires toks[3].kind == Ident && toks[4].kind == RParen
    ensures var A, B := IdentExpr(Identifier(toks[1], toks[1].literal)), IdentExpr(Identifier(toks[3], toks[3].literal));
      ParseExpressionS(toks, Lowest, PState(0, [])) ==
        ParseInfixLoopS(toks, Lowest, InfixExpr(toks[2], A, toks[2].literal, B), PState(4, []))
  {
    GroupedSum(toks);
  }

  /** The parenthesised part of `(a + b) * c`, up to its `)`. */
  lemma GroupedSum(toks: seq<Token>)
    requires |toks| == 7 && toks[0].kind == LParen && toks[1].kind == Ident && toks[2].kind == Plus
    requires toks[3].kind == Ident && toks[4].kind == RParen
    ensures var A, B := IdentExpr(Identifier(toks[1], toks[1].literal)), IdentExpr(Identifier(toks[3], toks[3].literal));
      ParsePrefixS(toks, PState(0, [])) == Step(InfixExpr(toks[2], A, toks[2].literal, B), PState(4, []))
  {
    GroupInside(toks);
  }

  /** The expression inside the parentheses of `(a + b) * c`, which stops at the `)`. */
  lemma GroupInside(toks: seq<Token>)
    requires |toks| == 7 && toks[1].kind == Ident && toks[2].kind == Plus && toks[3].kind == Ident && toks[4].kind == RParen
    ensures var A, B := IdentExpr(Identifier(toks[1], toks[1].literal)), IdentExpr(Identifier(toks[3], toks[3].literal));
      ParseExpressionS(toks, Lowest, PState(1, [])) == Step(InfixExpr(toks[2], A, toks[2].literal, B), PState(3, []))
  {
    var s1, s3 := PState(1, []), PState(3, []);
    var A, B := IdentExpr(Identifier(toks[1], toks[1].literal)), IdentExpr(Identifier(toks[3], toks[3].literal));
    IdentifierOperand(toks, Sum, s3);
    ExpressionFromIdentifier(toks, Lowest, s1);
    OperatorTurn(toks, Lowest, A, s1);
    InfixLoopEnds(toks, Lowest, InfixExpr(toks[2], A, toks[2].literal, B), s3);
  }

  /** The block `{ name }` holding one expression statement, parsed from its `{` at index `i`. */
  lemma SingletonBlock(toks: seq<Token>, i: nat, errs: seq<ParseError>)
    requires i + 2 < |toks| && toks[i].kind == LBrace && toks[i + 1].kind == Ident && toks[i + 2].kind == RBrace
    ensures var t := toks[i + 1];
      ParseBlockS(toks, PState(i, errs)) ==
        Step(Block(toks[i], [ExprStmt(t, IdentExpr(Identifier(t, t.literal)))]), PState(i + 2, errs))
  {
    IdentifierStatement(toks, PState(i + 1, errs));
    OneStatement(toks, PState(i + 1, errs), RBrace);
  }

  /**
   * `if (x) { y } else { z }`, for any names, builds an if node with the
   * condition, both blocks and no error.
   */
  lemma IfElseExpression(toks: seq<Token>)
    requires IfElseKinds(toks)
    ensures var X, Y, Z := toks[2], toks[5], toks[9];
      ParseIfS(toks, PState(0, [])) ==
        Step(IfExpr(toks[0], IdentExpr(Identifier(X, X.literal)),
                    Block(toks[4], [ExprStmt(Y, IdentExpr(Identifier(Y, Y.literal)))]),
                    Some(Block(toks[8], [ExprStmt(Z, IdentExpr(Identifier(Z, Z.literal)))]))),
             PState(10, []))
  {
    IfElseBlocks(toks);
    IfElseCondition(toks);
  }

  /** The kinds of the tokens of `if (x) { y } else { z }`. */
  predicate IfElseKinds(toks: seq<Token>)
  {
    |toks| == 11 && toks[0].kind == If && toks[1].kind == LParen && toks[2].kind == Ident && toks[3].kind == RParen
    && toks[4].kind == LBrace && toks[5].kind == Ident && toks[6].kind == RBrace && toks[7].kind == Else
    && toks[8].kind == LBrace && toks[9].kind == Ident && toks[10].kind == RBrace
  }

  /** The condition of `if (x) { y } else { z }`: `(x)`, after which the blocks start. */
  lemma IfElseCondition(toks: seq<Token>)
    requires IfElseKinds(toks)
    ensures ParseIfS(toks, PState(0, [])) ==
      ParseIfBlocksS(toks, toks[0], IdentExpr(Identifier(toks[2], toks[2].literal)), PState(3, []))
  {
    IdentifierOperand(toks, Lowest, PState(2, []));
  }

  /** The blocks of `if (x) { y } else { z }`, from the `)` that closes the condition. */
  lemma IfElseBlocks(toks: seq<Token>)
    requires IfElseKinds(toks)
    ensures var Y, Z := toks[5], toks[9];
      var X := IdentExpr(Identifier(toks[2], toks[2].literal));
      ParseIfBlocksS(toks, toks[0], X, PState(3, [])) ==
        Step(IfExpr(toks[0], X,
                    Block(toks[4], [ExprStmt(Y, IdentExpr(Identifier(Y, Y.literal)))]),
                    Some(Block(toks[8], [ExprStmt(Z, IdentExpr(Identifier(Z, Z.literal)))]))),
             PState(10, []))
  {
    SingletonBlock(toks, 4, []);
    SingletonBlock(toks, 8, []);
  }

  /** `fun(x, y) { x }` builds a function node with both parameters, in order, and the body. */
  lemma FunctionLiteralExpression(toks: seq<Token>)
    requires toks == [Token(Function, "fun"), Token(LParen, "("), Token(Ident, "x"), Token(Comma, ","),
                      Token(Ident, "y"), Token(RParen, ")"), Token(LBrace, "{"), Token(Ident, "x"), Token(RBrace, "}")]
    ensures ParseFunctionLiteralS(toks, PState(0, [])) ==
      Step(FnLit(toks[0], [Identifier(toks[2], "x"), Identifier(toks[4], "y")],
                 Block(toks[6], [ExprStmt(toks[7], IdentExpr(Identifier(toks[7], "x")))])),
           PState(8, []))
  {
    FunctionLiteralTree(toks);
  }

  /** The tree of `fun(x, y) { x }`, for any names. */
  lemma FunctionLiteralTree(toks: seq<Token>)
    requires |toks| == 9 && toks[0].kind == Function && toks[1].kind == LParen && toks[2].kind == Ident
    requires toks[3].kind == Comma && toks[4].kind == Ident && toks[5].kind == RParen && toks[6].kind == LBrace
    requires toks[7].kind == Ident && toks[8].kind == RBrace
    ensures ParseFunctionLiteralS(toks, PState(0, [])) ==
      Step(FnLit(toks[0], [Identifier(toks[2], toks[2].literal), Identifier(toks[4], toks[4].literal)],
                 Block(toks[6], [ExprStmt(toks[7], IdentExpr(Identifier(toks[7], toks[7].literal)))])),
           PState(8, []))
  {
    TwoParameters(toks);
    SingletonBlock(toks, 6, []);
  }

  /** The parameter list `(x, y)` of FunctionLiteralTree. */
  lemma TwoParameters(toks: seq<Token>)
    requires |toks| == 9 && toks[2].kind == Ident && toks[3].kind == Comma && toks[4].kind == Ident && toks[5].kind == RParen
    ensures ParseParametersS(toks, PState(1, [])) ==
      Step([Identifier(toks[2], toks[2].literal), Identifier(toks[4], toks[4].literal)], PState(5, []))
  {
    var X, Y := Identifier(toks[2], toks[2].literal), Identifier(toks[4], toks[4].literal);
    assert ParseParametersLoopS(toks, [X, Y], PState(4, [])) == Step([X, Y], PState(4, []));
    assert [X] + [Y] == [X, Y];
  }

  /** `f(a, b)` is a call of `f` with the arguments `a` and `b`, in order. */
  lemma CallExpression(toks: seq<Token>)
    requires toks == [Token(Ident, "f"), Token(LParen, "("), Token(Ident, "a"), Token(Comma, ","),
                      Token(Ident, "b"), Token(RParen, ")")]
    ensures var F, A, B := IdentExpr(Identifier(toks[0], "f")), IdentExpr(Identifier(toks[2], "a")), IdentExpr(Identifier(toks[4], "b"));
      ParseExpressionS(toks, Lowest, PState(0, [])) == Step(CallExpr(toks[1], F, [A, B]), PState(5, []))
  {
    CallTree(toks);
  }

  /** The tree of `f(a, b)`, for any names. */
  lemma CallTree(toks: seq<Token>)
    requires |toks| == 6 && toks[0].kind == Ident && toks[1].kind == LParen && toks[2].kind == Ident
    requires toks[3].kind == Comma && toks[4].kind == Ident && toks[5].kind == RParen
    ensures var F, A, B := IdentExpr(Identifier(toks[0], toks[0].literal)), IdentExpr(Identifier(toks[2], toks[2].literal)),
        IdentExpr(Identifier(toks[4], toks[4].literal));
      ParseExpressionS(toks, Lowest, PState(0, [])) == Step(CallExpr(toks[1], F, [A, B]), PState(5, []))
  {
    var F, A, B := IdentExpr(Identifier(toks[0], toks[0].literal)), IdentExpr(Identifier(toks[2], toks[2].literal)),
      IdentExpr(Identifier(toks[4], toks[4].literal));
    TwoArguments(toks);
    ExpressionFromIdentifier(toks, Lowest, PState(0, []));
    CallTurn(toks, Lowest, F, PState(0, []));
    InfixLoopEnds(toks, Lowest, CallExpr(toks[1], F, [A, B]), PState(5, []));
  }

  /** The argument list of `f(a, b)`, from its `(`. */
  lemma TwoArguments(toks: seq<Token>)
    requires |toks| == 6 && toks[1].kind == LParen && toks[2].kind == Ident
    requires toks[3].kind == Comma && toks[4].kind == Ident && toks[5].kind == RParen
    ensures var A, B := IdentExpr(Identifier(toks[2], toks[2].literal)), IdentExpr(Identifier(toks[4], toks[4].literal));
      ParseCallArgumentsS(toks, PState(1, [])) == Step([A, B], PState(5, []))
  {
    var A, B := IdentExpr(Identifier(toks[2], toks[2].literal)), IdentExpr(Identifier(toks[4], toks[4].literal));
    var s1, s2, s4 := PState(1, []), PState(2, []), PState(4, []);
    IdentifierOperand(toks, Lowest, s2);
    IdentifierOperand(toks, Lowest, s4);
    CallArgumentsAfterFirst(toks, s1);
    assert ParseArgumentsLoopS(toks, [A, B], s4) == Step([A, B], s4);
    assert [A] + [B] == [A, B];
    assert ParseArgumentsLoopS(toks, [A], s2) == Step([A, B], s4);
  }

  /** `f(a` without its `)`: the call keeps no arguments and the parser records the missing `)`. */
  lemma UnclosedCallDropsArguments(toks: seq<Token>)
    requires toks == [Token(Ident, "f"), Token(LParen, "("), Token(Ident, "a")]
    ensures ParseExpressionS(toks, Lowest, PState(0, [])) ==
      Step(CallExpr(toks[1], IdentExpr(Identifier(toks[0], "f")), []), PState(2, [PeekError(RParen, Eof)]))
  {
    UnclosedCallTree(toks);
  }

  /** The tree of `f(a`, for any names. */
  lemma UnclosedCallTree(toks: seq<Token>)
    requires |toks| == 3 && toks[0].kind == Ident && toks[1].kind == LParen && toks[2].kind == Ident
    ensures ParseExpressionS(toks, Lowest, PState(0, [])) ==
      Step(CallExpr(toks[1], IdentExpr(Identifier(toks[0], toks[0].literal)), []), PState(2, [PeekError(RParen, Eof)]))
  {
    var F := IdentExpr(Identifier(toks[0], toks[0].literal));
    var e2 := PState(2, [PeekError(RParen, Eof)]);
    IdentifierOperand(toks, Lowest, PState(2, []));
    CallArgumentsAfterFirst(toks, PState(1, []));
    assert ParseArgumentsLoopS(toks, [IdentExpr(Identifier(toks[2], toks[2].literal))], PState(2, [])).st == PState(2, []);
    assert ParseCallArgumentsS(toks, PState(1, [])) == Step([], e2);
    ExpressionFromIdentifier(toks, Lowest, PState(0, []));
    CallTurn(toks, Lowest, F, PState(0, []));
    InfixLoopEnds(toks, Lowest, CallExpr(toks[1], F, []), e2);
  }
}
