/**
 * What the evaluation relation of module Evaluator implies: where an
 * evaluation may write, and what some small programs evaluate to, for
 * every run the relation admits (hence for every run the evaluator
 * performs without running out of fuel).
 */
module EvaluatorFacts {
  import opened Wrappers
  import Tokens
  import opened Ast
  import opened Items
  import opened Evaluator

  /**
   * `h2` keeps every frame of `h`, and every frame but `cur`'s is unchanged;
   * with `cur == null` no frame of `h` changes.
   */
  ghost predicate KeepsOthers(h: Store, h2: Store, cur: Scope?)
  {
    h.Keys <= h2.Keys && forall s :: s in h && s != cur ==> h2[s] == h[s]
  }

  /*
   * `let` and `=` both write the current frame (an assignment to a name an
   * enclosing scope binds makes a new binding in the current one), and a
   * call runs its body in a new frame. So an evaluation changes no frame
   * but the current one, and a call changes no frame that existed before it.
   */

  lemma {:induction false} ExprKeeps(e: Expr, h: Store, cur: Scope, d: Run)
    requires cur.Valid() && ExprRuns(e, h, cur, d)
    ensures KeepsOthers(h, d.post, cur)
    decreases d, 2
  {
    match e
    case PrefixExpr(_, op, x) => PrefixKeeps(op, x, h, cur, d);
    case InfixExpr(_, l, op, x) => InfixKeeps(l, op, x, h, cur, d);
    case IfExpr(_, c, cons, alt) => IfKeeps(c, cons, alt, h, cur, d);
    case CallExpr(_, f, args) => CallKeeps(f, args, h, cur, d);
    case _ =>
  }

  lemma {:induction false} PrefixKeeps(op: string, x: Expr, h: Store, cur: Scope, d: Run)
    requires cur.Valid() && PrefixRuns(op, x, h, cur, d)
    ensures KeepsOthers(h, d.post, cur)
    decreases d, 0
  {
    ExprKeeps(x, h, cur, d.parts[0]);
  }

  lemma {:induction false} InfixKeeps(l: Expr, op: string, x: Expr, h: Store, cur: Scope, d: Run)
    requires cur.Valid() && InfixRuns(l, op, x, h, cur, d)
    ensures KeepsOthers(h, d.post, cur)
    decreases d, 0
  {
    ExprKeeps(l, h, cur, d.parts[0]);
    if !Stops(d.parts[0].out) {
      ExprKeeps(x, d.parts[0].post, cur, d.parts[1]);
    }
  }

  lemma {:induction false} IfKeeps(c: Expr, cons: Block, alt: Option<Block>, h: Store, cur: Scope, d: Run)
    requires cur.Valid() && IfRuns(c, cons, alt, h, cur, d)
    ensures KeepsOthers(h, d.post, cur)
    decreases d, 0
  {
    ExprKeeps(c, h, cur, d.parts[0]);
    var co := d.parts[0].out;
    if !Stops(co) && (TrueLike(co.v) || alt.Some?) {
      BlockKeeps(if TrueLike(co.v) then cons else alt.value, d.parts[0].post, cur, d.parts[1]);
    }
  }

  lemma {:induction false} CallKeeps(f: Expr, args: seq<Expr>, h: Store, cur: Scope, d: Run)
    requires cur.Valid() && CallRuns(f, args, h, cur, d)
    ensures KeepsOthers(h, d.post, cur)
    decreases d, 1
  {
    ExprKeeps(f, h, cur, d.parts[0]);
    if !Stops(d.parts[0].out) {
      ApplicationKeeps(d.parts[0].out.v, args, d.parts[0].post, cur, d);
    }
  }

  lemma {:induction false} ApplicationKeeps(fv: Value, args: seq<Expr>, h: Store, cur: Scope, d: Run)
    requires cur.Valid() && ApplicationRuns(fv, args, h, cur, d)
    ensures KeepsOthers(h, d.post, cur)
    decreases d, 0
  {
    ArgsKeeps(args, h, cur, d.parts[1]);
    if d.parts[1].out == Normal(Nil) {
      ApplyKeeps(fv, Values(d.parts[1].parts), d.parts[1].post, d.parts[2]);
    }
  }

  lemma {:induction false} ArgsKeeps(args: seq<Expr>, h: Store, cur: Scope, d: Run)
    requires cur.Valid() && ArgsRun(args, h, cur, d)
    ensures KeepsOthers(h, d.post, cur)
    decreases d, 1
  {
    var i := 0;
    while i < |d.parts|
      invariant i <= |d.parts| && KeepsOthers(h, Before(h, d.parts, i), cur)
    {
      ExprKeeps(args[i], Before(h, d.parts, i), cur, d.parts[i]);
      i := i + 1;
    }
  }

  /** A call changes no frame that existed before it: its body's writes go to the new frame. */
  lemma {:induction false} ApplyKeeps(f: Value, args: seq<Value>, h: Store, d: Run)
    requires ApplyRuns(f, args, h, d)
    ensures KeepsOthers(h, d.post, null)
    decreases d, 0
  {
    if f.Func? && |args| >= |f.fn.params| {
      var h1 := h[d.frame := BindParams(f.fn.params, args)];
      BlockKeeps(f.fn.body, h1, d.frame, d.parts[0]);
    }
  }

  lemma {:induction false} StmtKeeps(s: Stmt, h: Store, cur: Scope, d: Run)
    requires cur.Valid() && StmtRuns(s, h, cur, d)
    ensures KeepsOthers(h, d.post, cur)
    decreases d, 0
  {
    ExprKeeps(StmtValue(s), h, cur, d.parts[0]);
  }

  lemma {:induction false} StmtsKeeps(ss: seq<Stmt>, h: Store, cur: Scope, d: Run)
    requires cur.Valid() && StmtsRun(ss, h, cur, d)
    ensures KeepsOthers(h, d.post, cur)
    decreases d, 1
  {
    var i := 0;
    while i < |d.parts|
      invariant i <= |d.parts| && KeepsOthers(h, Before(h, d.parts, i), cur)
    {
      StmtKeeps(ss[i], Before(h, d.parts, i), cur, d.parts[i]);
      i := i + 1;
    }
  }

  lemma {:induction false} BlockKeeps(b: Block, h: Store, cur: Scope, d: Run)
    requires cur.Valid() && BlockRuns(b, h, cur, d)
    ensures KeepsOthers(h, d.post, cur)
    decreases d, 2
  {
    StmtsKeeps(b.stmts, h, cur, d);
  }

  /** A program, too, writes only its own frame. */
  lemma ProgramKeeps(p: Program, h: Store, cur: Scope, d: Run)
    requires cur.Valid() && ProgramRuns(p, h, cur, d)
    ensures KeepsOthers(h, d.post, cur)
  {
    StmtsKeeps(p.stmts, h, cur, d);
  }

  /*
   * Small programs. The tokens play no part in evaluation.
   */

  const Tok := Tokens.Token(Tokens.Illegal, "")

  function Num(n: int): Expr
  {
    IntLit(Tok, n)
  }

  function Name(x: string): Identifier
  {
    Identifier(Tok, x)
  }

  /** `1 + 2` is 3. */
  lemma OnePlusTwo(h: Store, cur: Scope, d: Run)
    requires cur.Valid() && ExprRuns(InfixExpr(Tok, Num(1), "+", Num(2)), h, cur, d)
    ensures d.out == Normal(Int(3)) && d.post == h
  {
    assert InfixRuns(Num(1), "+", Num(2), h, cur, d);
    assert ExprRuns(Num(1), h, cur, d.parts[0]);
    assert ExprRuns(Num(2), h, cur, d.parts[1]);
  }

  /** `1 / 0` panics: Go's integer division by zero. */
  lemma DivisionByZeroPanics(h: Store, cur: Scope, d: Run)
    requires cur.Valid() && ExprRuns(InfixExpr(Tok, Num(1), "/", Num(0)), h, cur, d)
    ensures d.out == Panicked
  {
    assert InfixRuns(Num(1), "/", Num(0), h, cur, d);
    assert ExprRuns(Num(1), h, cur, d.parts[0]);
    assert ExprRuns(Num(0), h, cur, d.parts[1]);
  }

  /** An identifier no scope of the chain binds is an error value, not a panic. */
  lemma UnboundIdentifier(x: string, h: Store, cur: Scope, d: Run)
    requires cur.Valid() && ExprRuns(IdentExpr(Name(x)), h, cur, d) && LookupIn(h, cur, x).None?
    ensures d.out == Normal(Err("identifier not found: " + x))
  {
  }

  /** An error operand stops the operator: `-x` with `x` unbound is that error. */
  lemma ErrorOperandPassesThrough(x: string, h: Store, cur: Scope, d: Run)
    requires cur.Valid() && ExprRuns(PrefixExpr(Tok, "-", IdentExpr(Name(x))), h, cur, d) && LookupIn(h, cur, x).None?
    ensures d.out == Normal(Err("identifier not found: " + x))
  {
    assert PrefixRuns("-", IdentExpr(Name(x)), h, cur, d);
    assert ExprRuns(IdentExpr(Name(x)), h, cur, d.parts[0]);
  }

  /** `if (false) { 1 }` is NULL. */
  lemma IfFalseWithoutElse(h: Store, cur: Scope, d: Run)
    requires cur.Valid()
    requires ExprRuns(IfExpr(Tok, BoolLit(Tok, false), Block(Tok, [ExprStmt(Tok, Num(1))]), None), h, cur, d)
    ensures d.out == Normal(Null)
  {
    assert IfRuns(BoolLit(Tok, false), Block(Tok, [ExprStmt(Tok, Num(1))]), None, h, cur, d);
    assert ExprRuns(BoolLit(Tok, false), h, cur, d.parts[0]);
  }

  /** `fun(a) { a }(7)` is 7. */
  lemma IdentityApplied(h: Store, cur: Scope, d: Run)
    requires cur.Valid()
    requires ExprRuns(CallExpr(Tok, FnLit(Tok, [Name("a")], Block(Tok, [ExprStmt(Tok, IdentExpr(Name("a")))])), [Num(7)]), h, cur, d)
    ensures d.out == Normal(Int(7))
  {
    var body := Block(Tok, [ExprStmt(Tok, IdentExpr(Name("a")))]);
    var fe := FnLit(Tok, [Name("a")], body);
    assert CallRuns(fe, [Num(7)], h, cur, d);
    var df := d.parts[0];
    assert ExprRuns(fe, h, cur, df);
    var fv := df.out.v;
    assert ApplicationRuns(fv, [Num(7)], df.post, cur, d);
    var da := d.parts[1];
    var args := [Num(7)];
    assert ArgsRun(args, df.post, cur, da);
    assert |da.parts| == 1;
    assert ExprRuns(args[0], Before(df.post, da.parts, 0), cur, da.parts[0]);
    assert Values(da.parts) == [Int(7)];
    var dp := d.parts[2];
    assert ApplyRuns(fv, [Int(7)], da.post, dp);
    var frame := dp.frame;
    var h1 := da.post[frame := BindParams([Name("a")], [Int(7)])];
    assert BindParams([Name("a")], [Int(7)]) == map["a" := Int(7)];
    var db := dp.parts[0];
    assert BlockRuns(body, h1, frame, db);
    assert StmtsRun(body.stmts, h1, frame, db);
    assert |db.parts| == 1;
    assert StmtRuns(body.stmts[0], Before(h1, db.parts, 0), frame, db.parts[0]);
    assert ExprRuns(IdentExpr(Name("a")), h1, frame, db.parts[0].parts[0]);
    assert LookupIn(h1, frame, "a") == Some(Int(7));
  }

  /** `let x = 1; return x; 5` is 1: the return ends the program and its wrapper is removed. */
  lemma ReturnEndsProgram(h: Store, cur: Scope, d: Run)
    requires cur.Valid() && "x" !in FrameOf(h, cur)
    requires ProgramRuns(Program([LetStmt(Tok, Name("x"), Num(1)), ReturnStmt(Tok, IdentExpr(Name("x"))), ExprStmt(Tok, Num(5))]), h, cur, d)
    ensures d.out == Normal(Int(1))
  {
    var ss := [LetStmt(Tok, Name("x"), Num(1)), ReturnStmt(Tok, IdentExpr(Name("x"))), ExprStmt(Tok, Num(5))];
    assert StmtsRun(ss, h, cur, d);
    assert |d.parts| >= 1;
    var d0 := d.parts[0];
    assert StmtRuns(ss[0], Before(h, d.parts, 0), cur, d0);
    assert ExprRuns(Num(1), h, cur, d0.parts[0]);
    assert d0.out == Normal(Nil) && d0.post == h[cur := FrameOf(h, cur)["x" := Int(1)]];
    assert |d.parts| >= 2;
    var d1 := d.parts[1];
    assert StmtRuns(ss[1], Before(h, d.parts, 1), cur, d1);
    assert ExprRuns(IdentExpr(Name("x")), d0.post, cur, d1.parts[0]);
    assert LookupIn(d0.post, cur, "x") == Some(Int(1));
    assert d1.out.Normal? && d1.out.v.Ret? && d1.out.v.ret.value == Int(1);
    assert |d.parts| == 2;
  }

  /**
   * `let x = 1; let f = fun() { x = 2; }; f(); x` is 1: the assignment in
   * the closure binds `x` in the call's own frame, so the `x` of the
   * enclosing frame keeps its value.
   */
  lemma AssignmentInClosureShadows(h: Store, cur: Scope, d: Run)
    requires cur.Valid() && "x" !in FrameOf(h, cur) && "f" !in FrameOf(h, cur)
    requires ProgramRuns(Program(ShadowingProgram()), h, cur, d)
    ensures d.out == Normal(Int(1))
  {
    var ss := ShadowingProgram();
    ShadowingLets(h, cur, d);
    var h1 := Before(h, d.parts, 2);
    // f();
    var d2 := d.parts[2];
    assert StmtRuns(ss[2], h1, cur, d2);
    var cd := d2.parts[0];
    CallOfShadowingClosure(h1[cur]["f"], h1, cur, cd);
    assert d2.post == cd.post && d2.out == Normal(Nil);
    // x
    assert |d.parts| >= 4;
    var d3 := d.parts[3];
    assert StmtRuns(ss[3], Before(h, d.parts, 3), cur, d3);
    assert ExprRuns(IdentExpr(Name("x")), cd.post, cur, d3.parts[0]);
    assert LookupIn(cd.post, cur, "x") == Some(Int(1));
  }

  /** The two `let`s of the program above bind `x` to 1 and `f` to a closure over the current frame. */
  lemma ShadowingLets(h: Store, cur: Scope, d: Run)
    requires cur.Valid() && "x" !in FrameOf(h, cur) && "f" !in FrameOf(h, cur)
    requires StmtsRun(ShadowingProgram(), h, cur, d)
    ensures |d.parts| >= 3
    ensures var h1 := Before(h, d.parts, 2);
      cur in h1 && "x" in h1[cur] && h1[cur]["x"] == Int(1) && "f" in h1[cur] &&
      var fv := h1[cur]["f"];
      fv.Func? && fv.fn.params == [] && fv.fn.body == ShadowingBody() && fv.fn.env == cur
  {
    var ss := ShadowingProgram();
    // let x = 1;
    var d0 := d.parts[0];
    assert StmtRuns(ss[0], Before(h, d.parts, 0), cur, d0);
    assert ExprRuns(Num(1), h, cur, d0.parts[0]);
    var h0 := h[cur := FrameOf(h, cur)["x" := Int(1)]];
    assert d0.out == Normal(Nil) && d0.post == h0;
    // let f = fun() { x = 2; };
    assert |d.parts| >= 2;
    var d1 := d.parts[1];
    assert StmtRuns(ss[1], Before(h, d.parts, 1), cur, d1);
    var fd := d1.parts[0];
    assert ExprRuns(ss[1].val, h0, cur, fd);
    assert "f" !in FrameOf(h0, cur);
    assert d1.out == Normal(Nil);
  }

  function ShadowingBody(): Block
  {
    Block(Tok, [AssignStmt(Tok, Name("x"), Num(2))])
  }

  function ShadowingProgram(): seq<Stmt>
  {
    [LetStmt(Tok, Name("x"), Num(1)),
     LetStmt(Tok, Name("f"), FnLit(Tok, [], ShadowingBody())),
     ExprStmt(Tok, CallExpr(Tok, IdentExpr(Name("f")), [])),
     ExprStmt(Tok, IdentExpr(Name("x")))]
  }

  /** The call `f()` of the closure above, from a store where the current frame binds `x` and `f`: nil, and the current frame unchanged. */
  lemma CallOfShadowingClosure(fv: Value, h: Store, cur: Scope, d: Run)
    requires cur.Valid() && cur in h && "x" in h[cur] && "f" in h[cur] && h[cur]["f"] == fv
    requires fv.Func? && fv.fn.params == [] && fv.fn.body == ShadowingBody() && fv.fn.env == cur
    requires ExprRuns(CallExpr(Tok, IdentExpr(Name("f")), []), h, cur, d)
    ensures d.out == Normal(Nil) && cur in d.post && d.post[cur] == h[cur]
  {
    assert CallRuns(IdentExpr(Name("f")), [], h, cur, d);
    assert ExprRuns(IdentExpr(Name("f")), h, cur, d.parts[0]);
    assert d.parts[0].out == Normal(fv) && d.parts[0].post == h;
    assert ApplicationRuns(fv, [], h, cur, d);
    var da := d.parts[1];
    assert ArgsRun([], h, cur, da);
    assert da.parts == [] && da.out == Normal(Nil) && da.post == h;
    assert Values(da.parts) == [];
    var dp := d.parts[2];
    assert ApplyRuns(fv, [], h, dp);
    ApplyKeeps(fv, [], h, dp);
    var frame := dp.frame;
    var hf := h[frame := map[]];
    var db := dp.parts[0];
    assert BlockRuns(ShadowingBody(), hf, frame, db);
    assert StmtsRun(ShadowingBody().stmts, hf, frame, db);
    assert |db.parts| == 1;
    var s0 := db.parts[0];
    assert StmtRuns(ShadowingBody().stmts[0], Before(hf, db.parts, 0), frame, s0);
    assert ExprRuns(Num(2), hf, frame, s0.parts[0]);
    assert LookupIn(hf, frame, "x") == LookupIn(hf, cur, "x");
    assert s0.out == Normal(Nil);
  }
}
