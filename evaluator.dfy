/**
 * The tree-walking evaluator of SG (sg_interpreter/src/sg/evaluator/evaluator.go).
 *
 * The operators on values are functions. Evaluating a node changes the
 * current scope (let and assignment write its frame) and allocates
 * closures, frames and return wrappers, so the evaluation of nodes is a
 * family of methods. Each of them returns an `Outcome`: a value, a Go
 * runtime panic (a nil item used as a value, division by zero, too few
 * call arguments) or the exhaustion of the call budget `fuel`, which stands
 * for the unbounded recursion a program may ask for.
 */
module Evaluator {
  import opened Wrappers
  import opened Ast
  import opened Items

  datatype Outcome<T> = Normal(v: T) | Panicked | OutOfFuel

  /** isError: only error items are errors; Go's nil is not one. */
  predicate IsError(v: Value)
  {
    v.Err?
  }

  /** boolToBoolean: the shared TRUE or FALSE singleton. */
  function BoolToBoolean(b: bool): Value
  {
    if b then Bool(true) else Bool(false)
  }

  /** TrueLike: NULL and FALSE are the falsy values; everything else, nil and 0 included, is truthy. */
  function TrueLike(v: Value): (t: bool)
    ensures !t <==> v.Null? || v == Bool(false)
  {
    match v
    case Null => false
    case Bool(b) => b
    case _ => true
  }

  /** EvalEXC, the `!` operator: the negation of truthiness, as a Boolean singleton. */
  function EvalEXC(v: Value): (r: Value)
    ensures r == BoolToBoolean(!TrueLike(v))
  {
    if v == Bool(true) then Bool(false)
    else if v == Bool(false) then Bool(true)
    else if v == Null then Bool(true)
    else Bool(false)
  }

  /** EvalMINUS, the `-` operator: int64 negation for an Integer, an error for every other item. */
  function EvalMINUS(v: Value): (r: Value)
    requires v != Nil
    ensures r.Int? <==> v.Int?
    ensures !r.Int? ==> r.Err?
  {
    if !v.Int? then Err("unknown operator: -" + TypeText(v))
    else Int(Wrap64(-(v.i as int)))
  }

  /** The prefix operators; `-` and unknown operators ask the operand for its type, which panics on nil. */
  predicate PrefixDefined(op: string, v: Value)
  {
    op == "!" || v != Nil
  }

  function EvalPrefixExpression(op: string, v: Value): (r: Value)
    requires PrefixDefined(op, v)
    ensures op == "!" ==> r == BoolToBoolean(!TrueLike(v))
    ensures op != "!" && op != "-" ==> r.Err?
  {
    if op == "!" then EvalEXC(v)
    else if op == "-" then EvalMINUS(v)
    else Err("unknown operator: " + op + TypeText(v))
  }

  /** Go's integer division, which truncates toward zero. */
  function GoDiv(a: int, b: int): int
    requires b != 0
  {
    var q := Abs(a) / Abs(b);
    if (a < 0) == (b < 0) then q else -q
  }

  function Abs(x: int): nat
  {
    if x < 0 then -x else x
  }

  /** Truncating division: the remainder is smaller than the divisor and has the dividend's sign. */
  lemma GoDivTruncates(a: int, b: int)
    requires b != 0
    ensures var rem := a - GoDiv(a, b) * b;
      Abs(rem) < Abs(b) && (rem == 0 || (rem < 0) == (a < 0))
    ensures Abs(GoDiv(a, b)) == Abs(a) / Abs(b)
  {
    var x: int, y: int := Abs(a), Abs(b);
    var q: int, m: int := x / y, x % y;
    assert x == q * y + m && 0 <= m < y;
    QuotientNonnegative(x, y);
    GoDivTimes(a, b);
    assert a - GoDiv(a, b) * b == (if a < 0 then -m else m);
  }

  /** The quotient times the divisor is the magnitude of the dividend less its remainder, with the dividend's sign. */
  lemma GoDivTimes(a: int, b: int)
    requires b != 0
    ensures var p := (Abs(a) / Abs(b)) * Abs(b);
      GoDiv(a, b) * b == (if a < 0 then -p else p)
  {
    var q: int, y: int := Abs(a) / Abs(b), Abs(b);
    var g := GoDiv(a, b);
    SignedProducts(q, y);
    if b > 0 {
      assert b == y;
      if a < 0 {
        assert g == -q;
      } else {
        assert g == q;
      }
    } else {
      assert b == -y;
      if a < 0 {
        assert g == q;
      } else {
        assert g == -q;
      }
    }
  }

  /** Dividing a magnitude by a positive magnitude gives a magnitude. */
  lemma QuotientNonnegative(x: nat, y: nat)
    requires y > 0
    ensures x / y >= 0
  {
  }

  /** Sign rules for a product, stated once so that the cases of GoDivTimes stay linear. */
  lemma SignedProducts(q: int, y: int)
    ensures (-q) * y == -(q * y) && q * (-y) == -(q * y) && (-q) * (-y) == q * y
  {
  }

  /** EvalIntegerInfixExpr: int64 arithmetic and comparisons; anything else is an unknown operator. */
  function EvalIntegerInfixExpr(a: Int64, op: string, b: Int64): (r: Value)
    requires op == "/" ==> b != 0
    ensures op in {"-", "+", "/", "*"} ==> r.Int?
    ensures op in {"==", "!=", "<", ">"} ==> r.Bool?
  {
    if op == "-" then Int(Wrap64(a - b))
    else if op == "+" then Int(Wrap64(a + b))
    else if op == "/" then Int(Wrap64(GoDiv(a, b)))
    else if op == "*" then Int(Wrap64(a * b))
    else if op == "==" then BoolToBoolean(a == b)
    else if op == "!=" then BoolToBoolean(a != b)
    else if op == "<" then BoolToBoolean(a < b)
    else if op == ">" then BoolToBoolean(a > b)
    else Err("unknown operator: " + TypeName(IntegerItem) + " " + op + " " + TypeName(IntegerItem))
  }

  /**
   * When EvalInfixExpression gets a result rather than a panic: the left
   * operand's type is asked first, the right one's only when the left is an
   * Integer or the operator is not `==`/`!=`, and integer division needs a
   * non-zero divisor.
   */
  predicate InfixDefined(l: Value, op: string, r: Value)
  {
    l != Nil &&
    (l.Int? || (op != "==" && op != "!=") ==> r != Nil) &&
    (l.Int? && r.Int? && op == "/" ==> r.i != 0)
  }

  /** EvalInfixExpression: integers by value, other items by identity for `==`/`!=`, errors otherwise. */
  function EvalInfixExpression(l: Value, op: string, r: Value): (res: Value)
    requires InfixDefined(l, op, r)
    ensures res.Int? || res.Bool? || res.Err?
  {
    if l.Int? && r.Int? then EvalIntegerInfixExpr(l.i, op, r.i)
    else if op == "==" then BoolToBoolean(l == r)
    else if op == "!=" then BoolToBoolean(l != r)
    else if TypeOf(l) != TypeOf(r) then Err("type mismatch: " + TypeText(l) + " " + op + " " + TypeText(r))
    else Err("unknown operator: " + TypeText(l) + " " + op + " " + TypeText(r))
  }

  /** UnrwapReturnValue: the value inside a return wrapper; any other item as it is. */
  function UnwrapReturnValue(v: Value): Value
  {
    if v.Ret? then v.ret.value else v
  }

  /** isError agrees with the item's own type: an item is an error exactly when it reports ERROR. */
  lemma ErrorsByType(v: Value)
    ensures IsError(v) <==> v != Nil && TypeOf(v) == ErrorItem
    ensures IsError(v) ==> TypeText(v) == "ERROR"
  {
  }

  /** boolToBoolean and truthiness are inverse: the singleton's truthiness is the bool, and a Boolean is the singleton of its truthiness. */
  lemma BooleansRoundTrip(b: bool, v: Value)
    ensures TrueLike(BoolToBoolean(b)) == b && BoolToBoolean(b).Bool?
    ensures v.Bool? ==> BoolToBoolean(TrueLike(v)) == v
  {
  }

  /** Unwrapping changes only return wrappers, and a wrapper prints as the value it carries. */
  lemma UnwrapKeepsOutput(v: Value, fuel: nat)
    requires fuel > 0
    ensures !v.Ret? ==> UnwrapReturnValue(v) == v
    ensures v.Ret? ==> Output(v, fuel) == Output(UnwrapReturnValue(v), fuel - 1)
  {
  }

  /** `!` yields the opposite truthiness, so applying it twice yields the truthiness itself. */
  lemma NotNegatesTruthiness(v: Value)
    ensures TrueLike(EvalEXC(v)) == !TrueLike(v)
    ensures EvalEXC(EvalEXC(v)) == BoolToBoolean(TrueLike(v))
  {
  }

  /** Integer 0 and nil are truthy; only NULL and FALSE are not. */
  lemma Truthiness(i: Int64)
    ensures TrueLike(Int(i)) && TrueLike(Nil) && TrueLike(Bool(true))
    ensures !TrueLike(Null) && !TrueLike(Bool(false))
  {
  }

  /** `-` negates an Integer exactly unless it is the smallest one, which is its own negation; other items are an error. */
  lemma NegationWraps(v: Value)
    requires v != Nil
    ensures v.Int? && v.i != MinInt64 ==> EvalMINUS(v) == Int(-(v.i as int))
    ensures EvalMINUS(Int(MinInt64)) == Int(MinInt64)
    ensures !v.Int? ==> EvalMINUS(v) == Err("unknown operator: -" + TypeText(v))
  {
    assert (MaxInt64 + 1) % TwoTo64 == MaxInt64 + 1;
  }

  /** int64 negation undoes itself. */
  lemma {:induction false} NegationInvolutive(i: Int64)
    ensures EvalMINUS(EvalMINUS(Int(i))) == Int(i)
  {
    NegationWraps(Int(i));
    if i != MinInt64 {
      NegationWraps(Int(-(i as int)));
    }
  }

  /** Sums and differences that fit in 64 bits are exact; the others wrap around. */
  lemma AdditionInRange(a: Int64, b: Int64)
    ensures MinInt64 <= a as int + b <= MaxInt64 ==> EvalIntegerInfixExpr(a, "+", b) == Int(a as int + b)
    ensures MinInt64 <= a as int - b <= MaxInt64 ==> EvalIntegerInfixExpr(a, "-", b) == Int(a as int - b)
    ensures EvalIntegerInfixExpr(MaxInt64, "+", 1) == Int(MinInt64)
  {
    assert (MaxInt64 + 1) % TwoTo64 == MaxInt64 + 1;
  }

  lemma ProductInRange(a: Int64, b: Int64)
    ensures MinInt64 <= a as int * b <= MaxInt64 ==> EvalIntegerInfixExpr(a, "*", b) == Int(a as int * b)
  {
  }

  /** Division truncates toward zero; only `MinInt64 / -1` leaves the range, and it wraps back to MinInt64. */
  lemma {:induction false} DivisionInRange(a: Int64, b: Int64)
    requires b != 0
    ensures !(a == MinInt64 && b == -1) ==> EvalIntegerInfixExpr(a, "/", b) == Int(GoDiv(a, b))
    ensures EvalIntegerInfixExpr(MinInt64, "/", -1) == Int(MinInt64)
  {
    GoDivTruncates(a, b);
    if Abs(b) >= 2 {
      DivisionShrinks(Abs(a), Abs(b));
    }
    assert GoDiv(MinInt64, -1) == MaxInt64 + 1;
    assert (MaxInt64 + 1) % TwoTo64 == MaxInt64 + 1;
  }

  lemma DivisionShrinks(x: nat, y: nat)
    requires y >= 2
    ensures x / y <= x / 2
  {
    assert x == (x / y) * y + x % y;
    assert (x / y) * y >= (x / y) * 2;
  }

  /** The comparison operators yield Booleans, and `<` with its operands swapped is `>`. */
  lemma ComparisonsMirror(a: Int64, b: Int64)
    ensures EvalIntegerInfixExpr(a, "<", b) == EvalIntegerInfixExpr(b, ">", a)
    ensures EvalIntegerInfixExpr(a, "==", b) == EvalEXC(EvalIntegerInfixExpr(a, "!=", b))
    ensures EvalIntegerInfixExpr(a, "+", b) == EvalIntegerInfixExpr(b, "+", a)
    ensures EvalIntegerInfixExpr(a, "*", b) == EvalIntegerInfixExpr(b, "*", a)
  {
  }

  /** On every pair of items `==` and `!=` are each other's negation, and every item is `==` to itself. */
  lemma EqualityComplement(l: Value, r: Value)
    requires InfixDefined(l, "==", r)
    ensures InfixDefined(l, "!=", r)
    ensures EvalInfixExpression(l, "==", r) == EvalEXC(EvalInfixExpression(l, "!=", r))
    ensures EvalInfixExpression(l, "==", l) == Bool(true)
  {
  }

  /** Two Integers go to the integer operators; other items of one type have no operator but `==` and `!=`. */
  lemma SameTypeOperands(l: Value, op: string, r: Value)
    requires InfixDefined(l, op, r) && r != Nil && TypeOf(l) == TypeOf(r)
    ensures l.Int? ==> EvalInfixExpression(l, op, r) == EvalIntegerInfixExpr(l.i, op, r.i)
    ensures !l.Int? && op != "==" && op != "!=" ==>
      EvalInfixExpression(l, op, r) == Err("unknown operator: " + TypeText(l) + " " + op + " " + TypeText(r))
  {
  }

  /** Items of different types compare unequal and are otherwise a type mismatch; nothing is an error from `==`. */
  lemma MixedOperands(l: Value, op: string, r: Value)
    requires InfixDefined(l, op, r) && r != Nil && TypeOf(l) != TypeOf(r)
    ensures op == "==" ==> EvalInfixExpression(l, op, r) == Bool(false)
    ensures op == "!=" ==> EvalInfixExpression(l, op, r) == Bool(true)
    ensures op != "==" && op != "!=" ==>
      EvalInfixExpression(l, op, r) == Err("type mismatch: " + TypeText(l) + " " + op + " " + TypeText(r))
  {
  }

  function NotDefinedMsg(name: string): string
  {
    "Variable " + name + " not defined in current scope!"
  }

  function AlreadyDefinedMsg(name: string): string
  {
    "Variable " + name + " already is defined in this function's scope!"
  }

  /** A statement result that ends its block: a return wrapper or an error. */
  predicate EndsBlock(v: Value)
  {
    v.Ret? || v.Err?
  }

  /**
   * A parameter frame: each parameter bound to the argument at its position,
   * in order, so a later parameter of the same name wins.
   */
  function BindParams(params: seq<Identifier>, args: seq<Value>): map<string, Value>
    requires |params| <= |args|
  {
    if params == [] then map[]
    else BindParams(params[..|params| - 1], args)[params[|params| - 1].value := args[|params| - 1]]
  }

  /** The frame binds exactly the parameter names. */
  lemma {:induction false} BindParamsKeys(params: seq<Identifier>, args: seq<Value>, k: string)
    requires |params| <= |args|
    ensures k in BindParams(params, args) <==> exists i :: 0 <= i < |params| && params[i].value == k
  {
    if params != [] {
      var n := |params| - 1;
      BindParamsKeys(params[..n], args, k);
      if k in BindParams(params[..n], args) {
        var i :| 0 <= i < n && params[..n][i].value == k;
        assert params[i].value == k;
      }
      if exists i :: 0 <= i < |params| && params[i].value == k {
        var i :| 0 <= i < |params| && params[i].value == k;
        if i < n {
          assert params[..n][i].value == k;
        }
      }
    }
  }

  /** Each parameter is bound to the argument at its position, unless a later parameter has the same name. */
  lemma {:induction false} BindParamsLastWins(params: seq<Identifier>, args: seq<Value>, i: nat)
    requires |params| <= |args| && i < |params|
    requires forall j :: i < j < |params| ==> params[j].value != params[i].value
    ensures params[i].value in BindParams(params, args)
    ensures BindParams(params, args)[params[i].value] == args[i]
  {
    var n := |params| - 1;
    if i < n {
      BindParamsLastWins(params[..n], args, i);
    }
  }

  /** The frame-local half of a `let`, once the value is known. */
  method DeclareLet(name: string, val: Value, scope: Scope) returns (r: Value)
    requires scope.Valid()
    modifies scope
    ensures name in old(scope.mp) ==> r == Err(AlreadyDefinedMsg(name)) && scope.mp == old(scope.mp)
    ensures name !in old(scope.mp) ==> r == Nil && scope.mp == old(scope.mp)[name := val]
  {
    if name in scope.mp {
      return Err(AlreadyDefinedMsg(name));
    }
    var _ := scope.Set(name, val);
    r := Nil;
  }

  /** The second half of an assignment: the name must be bound somewhere in the chain, and the current frame gets the value. */
  method Assign(name: string, val: Value, scope: Scope) returns (r: Value)
    requires scope.Valid()
    modifies scope
    ensures old(scope.Lookup(name)).None? ==> r == Err(NotDefinedMsg(name)) && scope.mp == old(scope.mp)
    ensures old(scope.Lookup(name)).Some? ==> r == Nil && scope.mp == old(scope.mp)[name := val]
    ensures r == Nil ==> scope.Lookup(name) == Some(val)
    ensures r != Nil ==> scope.Lookup(name).None?
  {
    var _, b := scope.Get(name);
    if !b {
      return Err(NotDefinedMsg(name));
    }
    var _ := scope.Set(name, val);
    r := Nil;
  }

  /** EvalIdentifier: the binding in the scope chain, or an error naming the identifier. */
  method EvalIdentifier(name: string, scope: Scope) returns (r: Value)
    requires scope.Valid()
    ensures scope.Lookup(name).Some? ==> r == scope.Lookup(name).value
    ensures scope.Lookup(name).None? ==> r == Err("identifier not found: " + name)
  {
    var val, ok := scope.Get(name);
    if !ok {
      return Err("identifier not found: " + name);
    }
    r := val;
  }

  /** extendedScope: a new frame enclosed in the closure's scope, binding the parameters to the arguments. */
  method ExtendedScope(f: FunctionObj, args: seq<Value>) returns (s: Scope)
    requires |f.params| <= |args|
    ensures fresh(s) && s.Valid() && s.outer == f.env
    ensures s.mp == BindParams(f.params, args)
  {
    s := new Scope.Enclosed(f.env);
    var i := 0;
    while i < |f.params|
      invariant 0 <= i <= |f.params|
      invariant fresh(s) && s.Valid() && s.outer == f.env
      invariant s.mp == BindParams(f.params[..i], args)
    {
      var _ := s.Set(f.params[i].value, args[i]);
      assert f.params[..i + 1][..i] == f.params[..i];
      i := i + 1;
    }
    assert f.params[..i] == f.params;
  }

  /** The values in a parameter frame are arguments. */
  lemma {:induction false} BindParamsFrom(params: seq<Identifier>, args: seq<Value>)
    requires |params| <= |args|
    ensures forall k :: k in BindParams(params, args) ==> BindParams(params, args)[k] in args
  {
    if params != [] {
      BindParamsFrom(params[..|params| - 1], args);
    }
  }

  /** An outcome after which an expression evaluates none of its remaining parts: an error, a panic or no fuel. */
  predicate Stops(o: Outcome<Value>)
  {
    !o.Normal? || IsError(o.v)
  }

  /** An outcome after which a block runs no further statement. */
  predicate Ends(o: Outcome<Value>)
  {
    !o.Normal? || EndsBlock(o.v)
  }

  /** A prefix operator on the outcome of its operand. */
  function PrefixStep(op: string, o: Outcome<Value>): Outcome<Value>
  {
    if Stops(o) then o
    else if PrefixDefined(op, o.v) then Normal(EvalPrefixExpression(op, o.v))
    else Panicked
  }

  /** An infix operator on the left operand's value and the outcome of the right one. */
  function InfixStep(l: Value, op: string, o: Outcome<Value>): Outcome<Value>
  {
    if Stops(o) then o
    else if InfixDefined(l, op, o.v) then Normal(EvalInfixExpression(l, op, o.v))
    else Panicked
  }

  /** A call's outcome from its body's: a return wrapper is removed. */
  function Unwrapped(o: Outcome<Value>): Outcome<Value>
  {
    if o.Normal? then Normal(UnwrapReturnValue(o.v)) else o
  }

  /** The expression a statement evaluates. */
  function StmtValue(s: Stmt): Expr
  {
    match s
    case LetStmt(_, _, x) => x
    case AssignStmt(_, _, x) => x
    case ReturnStmt(_, x) => x
    case ExprStmt(_, x) => x
  }

  /*
   * The semantics the evaluation methods are proved against. A store holds
   * the frame of every scope evaluation can reach; a run records what one
   * evaluation did. `ExprRuns(e, h, cur, d)` says that `d` is a run of `e`
   * in scope `cur` from store `h`: its parts are the runs of `e`'s parts in
   * the order the evaluator takes them, each from the store the previous
   * one left, and its outcome and final store follow from theirs. Runs that
   * end in `OutOfFuel` are not described: no method promises anything then.
   */

  type Store = map<Scope, map<string, Value>>

  /** The frame of `s` in `h`; a scope the store does not hold binds nothing. */
  function FrameOf(h: Store, s: Scope): map<string, Value>
  {
    if s in h then h[s] else map[]
  }

  /** Scope.Lookup in a store: the innermost frame that binds `k`, outward through the enclosing scopes. */
  function LookupIn(h: Store, s: Scope, k: string): Option<Value>
    requires s.Valid()
    decreases s.depth
  {
    if k in FrameOf(h, s) then Some(FrameOf(h, s)[k])
    else if s.outer == null then None
    else LookupIn(h, s.outer, k)
  }

  /** What an identifier evaluates to: its binding, or the not-found error. */
  function IdentValue(h: Store, s: Scope, name: string): Value
    requires s.Valid()
  {
    match LookupIn(h, s, name)
    case Some(v) => v
    case None => Err("identifier not found: " + name)
  }

  /** The scopes a value refers to are among `d`: a closure's scope, and through return wrappers the wrapped value's. */
  ghost predicate ValueIn(v: Value, d: set<Scope>)
    decreases if v.Ret? then v.ret.depth + 1 else 0
  {
    match v
    case Func(f) => f.env == null || f.env in d
    case Ret(box) => (box.value.Ret? ==> box.value.ret.depth < box.depth) && ValueIn(box.value, d)
    case _ => true
  }

  ghost predicate OutIn(o: Outcome<Value>, d: set<Scope>)
  {
    o.Normal? ==> ValueIn(o.v, d)
  }

  /** Every scope of the store is well formed, and its enclosing scope and the scopes its values refer to are in the store. */
  ghost predicate Closed(h: Store)
  {
    forall s :: s in h ==>
      s.Valid() && (s.outer != null ==> s.outer in h) &&
      forall k :: k in h[s] ==> ValueIn(h[s][k], h.Keys)
  }

  /** The store is a closed snapshot of the frames in the heap. */
  ghost predicate Sound(h: Store)
    reads h.Keys
  {
    Closed(h) && forall s :: s in h ==> s.mp == h[s]
  }

  /**
   * A run of the evaluator on one node: its outcome, the store after it,
   * the runs of the node's parts in evaluation order, and for the call of a
   * function the frame made for its body.
   */
  datatype Run = Run(out: Outcome<Value>, post: Store, parts: seq<Run>, frame: Scope?)

  /** The store before the `i`-th of a sequence of runs that starts from `h`. */
  function Before(h: Store, rs: seq<Run>, i: nat): Store
    requires i <= |rs|
  {
    if i == 0 then h else rs[i - 1].post
  }

  /** The outcome of the last of `rs`; a nil value when there is none. */
  function LastOut(rs: seq<Run>): Outcome<Value>
  {
    if rs == [] then Normal(Nil) else rs[|rs| - 1].out
  }

  /** The values of runs, nil for a run without one. */
  function Values(rs: seq<Run>): seq<Value>
  {
    seq(|rs|, i requires 0 <= i < |rs| => if rs[i].out.Normal? then rs[i].out.v else Nil)
  }

  ghost predicate ExprRuns(e: Expr, h: Store, cur: Scope, d: Run)
    requires cur.Valid()
    decreases d, 2
  {
    match e
    case Missing => d.out == Normal(Nil) && d.post == h
    case IntLit(_, n) => d.out == Normal(Int(Wrap64(n))) && d.post == h
    case BoolLit(_, b) => d.out == Normal(BoolToBoolean(b)) && d.post == h
    case IdentExpr(id) => d.out == Normal(IdentValue(h, cur, id.value)) && d.post == h
    case FnLit(_, ps, body) =>
      d.out.Normal? && d.out.v.Func? && d.post == h &&
      d.out.v.fn.params == ps && d.out.v.fn.body == body && d.out.v.fn.env == cur
    case PrefixExpr(_, op, x) => PrefixRuns(op, x, h, cur, d)
    case InfixExpr(_, l, op, x) => InfixRuns(l, op, x, h, cur, d)
    case IfExpr(_, c, cons, alt) => IfRuns(c, cons, alt, h, cur, d)
    case CallExpr(_, f, args) => CallRuns(f, args, h, cur, d)
  }

  /** The operand, then the operator unless the operand stopped the run. */
  ghost predicate PrefixRuns(op: string, x: Expr, h: Store, cur: Scope, d: Run)
    requires cur.Valid()
    decreases d, 0
  {
    |d.parts| == 1 && ExprRuns(x, h, cur, d.parts[0]) &&
    d.out == PrefixStep(op, d.parts[0].out) && d.post == d.parts[0].post
  }

  /** The left operand, then unless it stopped the run the right one, then the operator. */
  ghost predicate InfixRuns(l: Expr, op: string, x: Expr, h: Store, cur: Scope, d: Run)
    requires cur.Valid()
    decreases d, 0
  {
    |d.parts| >= 1 && ExprRuns(l, h, cur, d.parts[0]) &&
    if Stops(d.parts[0].out) then
      |d.parts| == 1 && d.out == d.parts[0].out && d.post == d.parts[0].post
    else
      |d.parts| == 2 && ExprRuns(x, d.parts[0].post, cur, d.parts[1]) &&
      d.out == InfixStep(d.parts[0].out.v, op, d.parts[1].out) && d.post == d.parts[1].post
  }

  /** The condition, then the block it picks; a false condition without an alternative gives NULL. */
  ghost predicate IfRuns(c: Expr, cons: Block, alt: Option<Block>, h: Store, cur: Scope, d: Run)
    requires cur.Valid()
    decreases d, 0
  {
    |d.parts| >= 1 && ExprRuns(c, h, cur, d.parts[0]) &&
    var co := d.parts[0].out;
    if Stops(co) then
      |d.parts| == 1 && d.out == co && d.post == d.parts[0].post
    else if !TrueLike(co.v) && alt.None? then
      |d.parts| == 1 && d.out == Normal(Null) && d.post == d.parts[0].post
    else
      |d.parts| == 2 && BlockRuns(if TrueLike(co.v) then cons else alt.value, d.parts[0].post, cur, d.parts[1]) &&
      d.out == d.parts[1].out && d.post == d.parts[1].post
  }

  /** The callee, then unless it stopped the run the arguments and the application. */
  ghost predicate CallRuns(f: Expr, args: seq<Expr>, h: Store, cur: Scope, d: Run)
    requires cur.Valid()
    decreases d, 1
  {
    |d.parts| >= 1 && ExprRuns(f, h, cur, d.parts[0]) &&
    if Stops(d.parts[0].out) then
      |d.parts| == 1 && d.out == d.parts[0].out && d.post == d.parts[0].post
    else
      ApplicationRuns(d.parts[0].out.v, args, d.parts[0].post, cur, d)
  }

  /** The arguments of a call to `fv`, then unless one stopped the run the application. */
  ghost predicate ApplicationRuns(fv: Value, args: seq<Expr>, h: Store, cur: Scope, d: Run)
    requires cur.Valid()
    decreases d, 0
  {
    |d.parts| >= 2 && ArgsRun(args, h, cur, d.parts[1]) &&
    if d.parts[1].out != Normal(Nil) then
      |d.parts| == 2 && d.out == d.parts[1].out && d.post == d.parts[1].post
    else
      |d.parts| == 3 && ApplyRuns(fv, Values(d.parts[1].parts), d.parts[1].post, d.parts[2]) &&
      d.out == d.parts[2].out && d.post == d.parts[2].post
  }

  /**
   * The arguments left to right, each from the store the previous one left,
   * stopping at the first that stops. The run's outcome is that one's, or a
   * nil value when every argument has a value.
   */
  ghost predicate ArgsRun(args: seq<Expr>, h: Store, cur: Scope, d: Run)
    requires cur.Valid()
    decreases d, 1
  {
    |d.parts| <= |args| &&
    (forall i {:trigger ExprRuns(args[i], Before(h, d.parts, i), cur, d.parts[i])} ::
      0 <= i < |d.parts| ==> ExprRuns(args[i], Before(h, d.parts, i), cur, d.parts[i])) &&
    (forall i :: 0 <= i < |d.parts| - 1 ==> !Stops(d.parts[i].out)) &&
    (|d.parts| < |args| ==> Stops(LastOut(d.parts))) &&
    d.out == (if Stops(LastOut(d.parts)) then LastOut(d.parts) else Normal(Nil)) &&
    d.post == Before(h, d.parts, |d.parts|)
  }

  /**
   * Applying `f` to `args`: nil panics, another non-function is an error, too
   * few arguments panic, and a function runs its body in a new frame, not in
   * the store, enclosed in the function's scope and binding the parameters.
   */
  ghost predicate ApplyRuns(f: Value, args: seq<Value>, h: Store, d: Run)
    decreases d, 0
  {
    if f == Nil || (f.Func? && |args| < |f.fn.params|) then d.out == Panicked && d.post == h
    else if !f.Func? then d.out == Normal(Err("not a function: " + TypeText(f))) && d.post == h
    else
      d.frame != null && d.frame !in h && d.frame.Valid() && d.frame.outer == f.fn.env &&
      |d.parts| == 1 && BlockRuns(f.fn.body, h[d.frame := BindParams(f.fn.params, args)], d.frame, d.parts[0]) &&
      d.out == Unwrapped(d.parts[0].out) && d.post == d.parts[0].post
  }

  /**
   * A statement: its expression, then `return` wraps the value, `let` binds
   * a name new to the current frame and `=` rebinds, in the current frame, a
   * name bound somewhere in the chain. An error or a panic passes through.
   */
  ghost predicate StmtRuns(s: Stmt, h: Store, cur: Scope, d: Run)
    requires cur.Valid()
    decreases d, 0
  {
    |d.parts| == 1 && ExprRuns(StmtValue(s), h, cur, d.parts[0]) && StmtEffect(s, d.parts[0], cur, d)
  }

  /** What statement `s` does once its expression has run as `x`. */
  ghost predicate StmtEffect(s: Stmt, x: Run, cur: Scope, d: Run)
    requires cur.Valid()
  {
    if Stops(x.out) then d.out == x.out && d.post == x.post
    else match s
      case ExprStmt(_, _) => d.out == x.out && d.post == x.post
      case ReturnStmt(_, _) => d.out.Normal? && d.out.v.Ret? && d.out.v.ret.value == x.out.v && d.post == x.post
      case LetStmt(_, id, _) =>
        if id.value in FrameOf(x.post, cur) then
          d.out == Normal(Err(AlreadyDefinedMsg(id.value))) && d.post == x.post
        else
          d.out == Normal(Nil) && d.post == x.post[cur := FrameOf(x.post, cur)[id.value := x.out.v]]
      case AssignStmt(_, id, _) =>
        if LookupIn(x.post, cur, id.value).None? then
          d.out == Normal(Err(NotDefinedMsg(id.value))) && d.post == x.post
        else
          d.out == Normal(Nil) && d.post == x.post[cur := FrameOf(x.post, cur)[id.value := x.out.v]]
  }

  /** Statements in order, each from the store the previous one left, until one ends the run: a return wrapper, an error or a panic. */
  ghost predicate StmtsRun(ss: seq<Stmt>, h: Store, cur: Scope, d: Run)
    requires cur.Valid()
    decreases d, 1
  {
    |d.parts| <= |ss| &&
    (forall i {:trigger StmtRuns(ss[i], Before(h, d.parts, i), cur, d.parts[i])} ::
      0 <= i < |d.parts| ==> StmtRuns(ss[i], Before(h, d.parts, i), cur, d.parts[i])) &&
    (forall i :: 0 <= i < |d.parts| - 1 ==> !Ends(d.parts[i].out)) &&
    (|d.parts| < |ss| ==> Ends(LastOut(d.parts))) &&
    d.post == Before(h, d.parts, |d.parts|)
  }

  /** A block's outcome is its last statement's, a return wrapper included. */
  ghost predicate BlockRuns(b: Block, h: Store, cur: Scope, d: Run)
    requires cur.Valid()
    decreases d, 2
  {
    StmtsRun(b.stmts, h, cur, d) && d.out == LastOut(d.parts)
  }

  /** A program's outcome is its last statement's, with a return wrapper removed. */
  ghost predicate ProgramRuns(p: Program, h: Store, cur: Scope, d: Run)
    requires cur.Valid()
  {
    StmtsRun(p.stmts, h, cur, d) && d.out == Unwrapped(LastOut(d.parts))
  }

  /** The first `|runs|` statements ran in order, and none but the last of them ended the run. */
  ghost predicate StmtsPrefix(ss: seq<Stmt>, h: Store, cur: Scope, runs: seq<Run>)
    requires cur.Valid()
  {
    |runs| <= |ss| &&
    (forall i {:trigger StmtRuns(ss[i], Before(h, runs, i), cur, runs[i])} ::
      0 <= i < |runs| ==> StmtRuns(ss[i], Before(h, runs, i), cur, runs[i])) &&
    (forall i :: 0 <= i < |runs| - 1 ==> !Ends(runs[i].out))
  }

  lemma StmtsPrefixSnoc(ss: seq<Stmt>, h: Store, cur: Scope, runs: seq<Run>, d: Run)
    requires cur.Valid() && StmtsPrefix(ss, h, cur, runs) && |runs| < |ss| && !Ends(LastOut(runs))
    requires StmtRuns(ss[|runs|], Before(h, runs, |runs|), cur, d)
    ensures StmtsPrefix(ss, h, cur, runs + [d]) && LastOut(runs + [d]) == d.out
    ensures Before(h, runs + [d], |runs| + 1) == d.post
  {
    var rs := runs + [d];
    StmtRunsSnoc(ss, h, cur, runs, d);
    forall i | 0 <= i < |rs| - 1
      ensures !Ends(rs[i].out)
    {
      assert rs[i] == runs[i];
    }
  }

  lemma StmtRunsSnoc(ss: seq<Stmt>, h: Store, cur: Scope, runs: seq<Run>, d: Run)
    requires cur.Valid() && |runs| < |ss|
    requires forall i {:trigger StmtRuns(ss[i], Before(h, runs, i), cur, runs[i])} ::
      0 <= i < |runs| ==> StmtRuns(ss[i], Before(h, runs, i), cur, runs[i])
    requires StmtRuns(ss[|runs|], Before(h, runs, |runs|), cur, d)
    ensures forall i {:trigger StmtRuns(ss[i], Before(h, runs + [d], i), cur, (runs + [d])[i])} ::
      0 <= i < |runs| + 1 ==> StmtRuns(ss[i], Before(h, runs + [d], i), cur, (runs + [d])[i])
  {
    var rs := runs + [d];
    forall i | 0 <= i < |rs|
      ensures StmtRuns(ss[i], Before(h, rs, i), cur, rs[i])
    {
      if i < |runs| {
        assert rs[i] == runs[i] && Before(h, rs, i) == Before(h, runs, i);
      }
    }
  }

  lemma StmtsPrefixRun(ss: seq<Stmt>, h: Store, cur: Scope, d: Run)
    requires cur.Valid() && StmtsPrefix(ss, h, cur, d.parts) && d.post == Before(h, d.parts, |d.parts|)
    requires |d.parts| < |ss| ==> Ends(LastOut(d.parts))
    ensures StmtsRun(ss, h, cur, d)
  {
  }

  /** The first `|runs|` arguments ran in order, and none but the last of them stopped the run. */
  ghost predicate ArgsPrefix(args: seq<Expr>, h: Store, cur: Scope, runs: seq<Run>)
    requires cur.Valid()
  {
    |runs| <= |args| &&
    (forall i {:trigger ExprRuns(args[i], Before(h, runs, i), cur, runs[i])} ::
      0 <= i < |runs| ==> ExprRuns(args[i], Before(h, runs, i), cur, runs[i])) &&
    (forall i :: 0 <= i < |runs| - 1 ==> !Stops(runs[i].out))
  }

  lemma ArgsPrefixSnoc(args: seq<Expr>, h: Store, cur: Scope, runs: seq<Run>, d: Run)
    requires cur.Valid() && ArgsPrefix(args, h, cur, runs) && |runs| < |args| && !Stops(LastOut(runs))
    requires ExprRuns(args[|runs|], Before(h, runs, |runs|), cur, d)
    ensures ArgsPrefix(args, h, cur, runs + [d]) && LastOut(runs + [d]) == d.out
    ensures Before(h, runs + [d], |runs| + 1) == d.post
  {
    var rs := runs + [d];
    ArgRunsSnoc(args, h, cur, runs, d);
    forall i | 0 <= i < |rs| - 1
      ensures !Stops(rs[i].out)
    {
      assert rs[i] == runs[i];
    }
  }

  lemma ArgRunsSnoc(args: seq<Expr>, h: Store, cur: Scope, runs: seq<Run>, d: Run)
    requires cur.Valid() && |runs| < |args|
    requires forall i {:trigger ExprRuns(args[i], Before(h, runs, i), cur, runs[i])} ::
      0 <= i < |runs| ==> ExprRuns(args[i], Before(h, runs, i), cur, runs[i])
    requires ExprRuns(args[|runs|], Before(h, runs, |runs|), cur, d)
    ensures forall i {:trigger ExprRuns(args[i], Before(h, runs + [d], i), cur, (runs + [d])[i])} ::
      0 <= i < |runs| + 1 ==> ExprRuns(args[i], Before(h, runs + [d], i), cur, (runs + [d])[i])
  {
    var rs := runs + [d];
    forall i | 0 <= i < |rs|
      ensures ExprRuns(args[i], Before(h, rs, i), cur, rs[i])
    {
      if i < |runs| {
        assert rs[i] == runs[i] && Before(h, rs, i) == Before(h, runs, i);
      }
    }
  }

  lemma ValuesSnoc(runs: seq<Run>, d: Run)
    ensures Values(runs + [d]) == Values(runs) + [if d.out.Normal? then d.out.v else Nil]
  {
  }

  lemma ArgsPrefixRun(args: seq<Expr>, h: Store, cur: Scope, d: Run)
    requires cur.Valid() && ArgsPrefix(args, h, cur, d.parts) && d.post == Before(h, d.parts, |d.parts|)
    requires |d.parts| < |args| ==> Stops(LastOut(d.parts))
    requires d.out == (if Stops(LastOut(d.parts)) then LastOut(d.parts) else Normal(Nil))
    ensures ArgsRun(args, h, cur, d)
  {
  }

  /** The run leaves a sound store that keeps every scope of `h`, and its value refers only to scopes of that store. */
  ghost predicate Grows(h: Store, d: Run)
    reads d.post.Keys
  {
    h.Keys <= d.post.Keys && Sound(d.post) && OutIn(d.out, d.post.Keys)
  }

  /** A sound store answers every lookup as the heap's scopes do. */
  lemma {:induction false} LookupAgrees(h: Store, s: Scope, k: string)
    requires Sound(h) && s in h
    ensures s.Valid() && s.Lookup(k) == LookupIn(h, s, k)
    decreases s.depth
  {
    if s.outer != null {
      LookupAgrees(h, s.outer, k);
    }
  }

  /** What a closed store binds refers only to its scopes. */
  lemma {:induction false} LookupInClosed(h: Store, s: Scope, k: string)
    requires Closed(h) && s in h
    ensures s.Valid() && ValueIn(IdentValue(h, s, k), h.Keys)
    decreases s.depth
  {
    if k !in h[s] && s.outer != null {
      LookupInClosed(h, s.outer, k);
    }
  }

  lemma {:induction false} ValueInGrows(v: Value, a: set<Scope>, b: set<Scope>)
    requires ValueIn(v, a) && a <= b
    ensures ValueIn(v, b)
    decreases if v.Ret? then v.ret.depth + 1 else 0
  {
    if v.Ret? {
      ValueInGrows(v.ret.value, a, b);
    }
  }

  /** Rebinding a name of a frame to a value that refers only to the store's scopes keeps the store closed. */
  lemma ClosedUpdate(h: Store, s: Scope, k: string, v: Value)
    requires Closed(h) && s in h && ValueIn(v, h.Keys)
    ensures Closed(h[s := h[s][k := v]])
  {
    assert h[s := h[s][k := v]].Keys == h.Keys;
  }

  /** Adding a well-formed frame whose enclosing scope and values are in the store keeps it closed. */
  lemma ClosedExtend(h: Store, s: Scope, m: map<string, Value>)
    requires Closed(h) && s !in h && s.Valid() && (s.outer != null ==> s.outer in h)
    requires forall k :: k in m ==> ValueIn(m[k], h.Keys)
    ensures Closed(h[s := m])
  {
    var h1 := h[s := m];
    assert h1.Keys == h.Keys + {s};
    forall t, k | t in h1 && k in h1[t]
      ensures ValueIn(h1[t][k], h1.Keys)
    {
      ValueInGrows(h1[t][k], h.Keys, h1.Keys);
    }
  }

  /** Eval on an expression, from a store `h` of the heap's frames; `d` is the run it performs. */
  method Eval(e: Expr, scope: Scope, fuel: nat, ghost h: Store) returns (r: Outcome<Value>, ghost d: Run)
    requires Sound(h) && scope in h
    modifies scope
    ensures r != OutOfFuel ==> scope.Valid() && ExprRuns(e, h, scope, d) && d.out == r && Grows(h, d)
    ensures e.FnLit? ==> r.Normal? && r.v.Func? && fresh(r.v.fn)
    decreases fuel, 1, e, 3
  {
    match e
    case Missing =>
      r := Normal(Nil);
      d := Run(r, h, [], null);
    case IntLit(_, n) =>
      r := Normal(Int(Wrap64(n)));
      d := Run(r, h, [], null);
    case BoolLit(_, b) =>
      r := Normal(BoolToBoolean(b));
      d := Run(r, h, [], null);
    case IdentExpr(id) =>
      var v := EvalIdentifier(id.value, scope);
      LookupAgrees(h, scope, id.value);
      LookupInClosed(h, scope, id.value);
      r := Normal(v);
      d := Run(r, h, [], null);
    case FnLit(_, params, body) =>
      var f := new FunctionObj(params, body, scope);
      r := Normal(Func(f));
      d := Run(r, h, [], null);
    case PrefixExpr(_, _, _) =>
      r, d := EvalPrefix(e, scope, fuel, h);
    case InfixExpr(_, _, _, _) =>
      r, d := EvalInfix(e, scope, fuel, h);
    case IfExpr(_, _, _, _) =>
      r, d := EvalIfExpression(e, scope, fuel, h);
    case CallExpr(_, _, _) =>
      r, d := EvalCall(e, scope, fuel, h);
  }

  /** The prefix case of Eval: the operand, then the operator unless the operand is an error. */
  method EvalPrefix(e: Expr, scope: Scope, fuel: nat, ghost h: Store) returns (r: Outcome<Value>, ghost d: Run)
    requires e.PrefixExpr? && Sound(h) && scope in h
    modifies scope
    ensures r != OutOfFuel ==> scope.Valid() && ExprRuns(e, h, scope, d) && d.out == r && Grows(h, d)
    decreases fuel, 1, e, 2
  {
    var right;
    ghost var dx;
    right, dx := Eval(e.right, scope, fuel, h);
    d := Run(PrefixStep(e.op, right), dx.post, [dx], null);
    if Stops(right) {
      return right, d;
    }
    if !PrefixDefined(e.op, right.v) {
      return Panicked, d;
    }
    r := Normal(EvalPrefixExpression(e.op, right.v));
  }

  /** The infix case of Eval: left operand, right operand, each error returned at once, then the operator. */
  method EvalInfix(e: Expr, scope: Scope, fuel: nat, ghost h: Store) returns (r: Outcome<Value>, ghost d: Run)
    requires e.InfixExpr? && Sound(h) && scope in h
    modifies scope
    ensures r != OutOfFuel ==> scope.Valid() && ExprRuns(e, h, scope, d) && d.out == r && Grows(h, d)
    decreases fuel, 1, e, 2
  {
    var left, right;
    ghost var dl, dr;
    left, dl := Eval(e.left, scope, fuel, h);
    if Stops(left) {
      return left, Run(left, dl.post, [dl], null);
    }
    right, dr := Eval(e.right, scope, fuel, dl.post);
    d := Run(InfixStep(left.v, e.op, right), dr.post, [dl, dr], null);
    if Stops(right) {
      return right, d;
    }
    if !InfixDefined(left.v, e.op, right.v) {
      return Panicked, d;
    }
    r := Normal(EvalInfixExpression(left.v, e.op, right.v));
  }

  /** EvalIfExpression: the condition; an error is returned, a truthy value picks the consequence, else the alternative or NULL. */
  method EvalIfExpression(e: Expr, scope: Scope, fuel: nat, ghost h: Store) returns (r: Outcome<Value>, ghost d: Run)
    requires e.IfExpr? && Sound(h) && scope in h
    modifies scope
    ensures r != OutOfFuel ==> scope.Valid() && ExprRuns(e, h, scope, d) && d.out == r && Grows(h, d)
    decreases fuel, 1, e, 2
  {
    var cond;
    ghost var dc, db;
    cond, dc := Eval(e.cond, scope, fuel, h);
    if Stops(cond) {
      return cond, Run(cond, dc.post, [dc], null);
    }
    if TrueLike(cond.v) {
      r, db := EvalBlockStatement(e.cons, scope, fuel, dc.post);
    } else if e.alt.Some? {
      r, db := EvalBlockStatement(e.alt.value, scope, fuel, dc.post);
    } else {
      return Normal(Null), Run(Normal(Null), dc.post, [dc], null);
    }
    d := Run(r, db.post, [dc, db], null);
  }

  /** The call case of Eval: the callee, then the arguments, each error returned at once, then ApplyFunction. */
  method EvalCall(e: Expr, scope: Scope, fuel: nat, ghost h: Store) returns (r: Outcome<Value>, ghost d: Run)
    requires e.CallExpr? && Sound(h) && scope in h
    modifies scope
    ensures r != OutOfFuel ==> scope.Valid() && ExprRuns(e, h, scope, d) && d.out == r && Grows(h, d)
    decreases fuel, 1, e, 2
  {
    var callee;
    ghost var df;
    callee, df := Eval(e.callee, scope, fuel, h);
    if Stops(callee) {
      return callee, Run(callee, df.post, [df], null);
    }
    r, d := EvalApplication(e, callee.v, scope, fuel, df.post, df);
  }

  /** The rest of a call once the callee has given `fv`: the arguments, each error returned at once, then ApplyFunction. */
  method EvalApplication(e: Expr, fv: Value, scope: Scope, fuel: nat, ghost h: Store, ghost df: Run)
    returns (r: Outcome<Value>, ghost d: Run)
    requires e.CallExpr? && Sound(h) && scope in h && ValueIn(fv, h.Keys)
    modifies scope
    ensures r != OutOfFuel ==>
      scope.Valid() && |d.parts| >= 1 && d.parts[0] == df && ApplicationRuns(fv, e.args, h, scope, d) &&
      d.out == r && Grows(h, d)
    decreases fuel, 1, e, 1
  {
    var args;
    ghost var da, dp;
    args, da := EvalExpression(e, scope, fuel, h);
    if args.OutOfFuel? {
      return OutOfFuel, da;
    }
    if args.Panicked? {
      return Panicked, Run(Panicked, da.post, [df, da], null);
    }
    if |args.v| == 1 && IsError(args.v[0]) {
      return Normal(args.v[0]), Run(Normal(args.v[0]), da.post, [df, da], null);
    }
    ValueInGrows(fv, h.Keys, da.post.Keys);
    r, dp := ApplyFunction(fv, args.v, fuel, da.post);
    d := Run(r, dp.post, [df, da, dp], null);
  }

  /** The arguments as EvalExpression returns them: the values, or the one that stopped the run. */
  function ArgsResult(d: Run): Outcome<seq<Value>>
  {
    if d.out == Normal(Nil) then Normal(Values(d.parts))
    else if d.out.Normal? then Normal([d.out.v])
    else if d.out.Panicked? then Panicked
    else OutOfFuel
  }

  /** EvalExpression: the arguments of call `e`, left to right; the first error replaces the whole list. */
  method EvalExpression(e: Expr, scope: Scope, fuel: nat, ghost h: Store) returns (r: Outcome<seq<Value>>, ghost d: Run)
    requires e.CallExpr? && Sound(h) && scope in h
    modifies scope
    ensures r != OutOfFuel ==> scope.Valid() && ArgsRun(e.args, h, scope, d) && r == ArgsResult(d) && Grows(h, d)
    ensures r != OutOfFuel ==> forall v :: v in Values(d.parts) ==> ValueIn(v, d.post.Keys)
    decreases fuel, 1, e, 0
  {
    var res: seq<Value> := [];
    ghost var runs: seq<Run> := [];
    ghost var hc := h;
    var i := 0;
    while i < |e.args|
      invariant 0 <= i <= |e.args| && |runs| == i && hc == Before(h, runs, i)
      invariant ArgsPrefix(e.args, h, scope, runs) && !Stops(LastOut(runs))
      invariant res == Values(runs)
      invariant Sound(hc) && h.Keys <= hc.Keys
      invariant forall v :: v in res ==> ValueIn(v, hc.Keys)
    {
      var a;
      ghost var da;
      a, da := Eval(e.args[i], scope, fuel, hc);
      if a.OutOfFuel? {
        return OutOfFuel, da;
      }
      forall v | v in res
        ensures ValueIn(v, da.post.Keys)
      {
        ValueInGrows(v, hc.Keys, da.post.Keys);
      }
      ArgsPrefixSnoc(e.args, h, scope, runs, da);
      ValuesSnoc(runs, da);
      runs := runs + [da];
      hc := da.post;
      if Stops(a) {
        d := Run(a, hc, runs, null);
        ArgsPrefixRun(e.args, h, scope, d);
        return if a.Panicked? then Panicked else Normal([a.v]), d;
      }
      res := res + [a.v];
      i := i + 1;
    }
    r := Normal(res);
    d := Run(Normal(Nil), hc, runs, null);
    ArgsPrefixRun(e.args, h, scope, d);
  }

  /**
   * ApplyFunction: a function value runs its body in a new frame enclosed in
   * its captured scope, and a return wrapper around the result is removed.
   */
  method ApplyFunction(f: Value, args: seq<Value>, fuel: nat, ghost h: Store) returns (r: Outcome<Value>, ghost d: Run)
    requires Sound(h) && ValueIn(f, h.Keys) && forall a :: a in args ==> ValueIn(a, h.Keys)
    ensures r != OutOfFuel ==> ApplyRuns(f, args, h, d) && d.out == r && Grows(h, d)
    ensures f.Func? && |f.fn.params| <= |args| && fuel == 0 ==> r == OutOfFuel
    decreases fuel, 0
  {
    if f == Nil {
      return Panicked, Run(Panicked, h, [], null);
    }
    if !f.Func? {
      r := Normal(Err("not a function: " + TypeText(f)));
      return r, Run(r, h, [], null);
    }
    if |args| < |f.fn.params| {
      return Panicked, Run(Panicked, h, [], null);
    }
    if fuel == 0 {
      return OutOfFuel, Run(OutOfFuel, h, [], null);
    }
    var frame := ExtendedScope(f.fn, args);
    BindParamsFrom(f.fn.params, args);
    ClosedExtend(h, frame, frame.mp);
    ghost var h1 := h[frame := frame.mp];
    var res;
    ghost var db;
    res, db := EvalBlockStatement(f.fn.body, frame, fuel - 1, h1);
    r := Unwrapped(res);
    d := Run(r, db.post, [db], frame);
  }

  /** Eval on a statement. */
  method EvalStatement(s: Stmt, scope: Scope, fuel: nat, ghost h: Store) returns (r: Outcome<Value>, ghost d: Run)
    requires Sound(h) && scope in h
    modifies scope
    ensures r != OutOfFuel ==> scope.Valid() && StmtRuns(s, h, scope, d) && d.out == r && Grows(h, d)
    ensures s.ReturnStmt? && r.Normal? && r.v.Ret? ==> fresh(r.v.ret)
    decreases fuel, 1, s, 2
  {
    var val;
    ghost var dx;
    match s {
      case ExprStmt(_, x) =>
        val, dx := Eval(x, scope, fuel, h);
      case ReturnStmt(_, x) =>
        val, dx := Eval(x, scope, fuel, h);
      case LetStmt(_, _, x) =>
        val, dx := Eval(x, scope, fuel, h);
      case AssignStmt(_, _, x) =>
        val, dx := Eval(x, scope, fuel, h);
    }
    if Stops(val) || s.ExprStmt? {
      return val, Run(val, dx.post, [dx], null);
    }
    if s.ReturnStmt? {
      var box := new ReturnBox(val.v);
      r := Normal(Ret(box));
      d := Run(r, dx.post, [dx], null);
    } else {
      var v;
      v, d := EvalBinding(s, val.v, scope, h, dx);
      r := Normal(v);
    }
  }

  /** The `let` and `=` cases of Eval on a statement, once the expression has given `val`. */
  method EvalBinding(s: Stmt, val: Value, scope: Scope, ghost h: Store, ghost x: Run) returns (r: Value, ghost d: Run)
    requires s.LetStmt? || s.AssignStmt?
    requires scope.Valid() && x.out == Normal(val) && !IsError(val)
    requires Grows(h, x) && scope in x.post
    modifies scope
    ensures d.parts == [x] && StmtEffect(s, x, scope, d) && d.out == Normal(r) && Grows(h, d)
  {
    ghost var hx := x.post;
    if s.LetStmt? {
      r := DeclareLet(s.id.value, val, scope);
    } else {
      LookupAgrees(hx, scope, s.id.value);
      r := Assign(s.id.value, val, scope);
    }
    if r == Nil {
      ClosedUpdate(hx, scope, s.id.value, val);
      d := Run(Normal(r), hx[scope := scope.mp], [x], null);
    } else {
      d := Run(Normal(r), hx, [x], null);
    }
  }

  /** EvalBlockStatement: the statements in order, stopping at the first return wrapper or error, which is the result. */
  method EvalBlockStatement(b: Block, scope: Scope, fuel: nat, ghost h: Store) returns (r: Outcome<Value>, ghost d: Run)
    requires Sound(h) && scope in h
    modifies scope
    ensures r != OutOfFuel ==> scope.Valid() && BlockRuns(b, h, scope, d) && d.out == r && Grows(h, d)
    decreases fuel, 1, b, 2
  {
    var res := Nil;
    ghost var runs: seq<Run> := [];
    ghost var hc := h;
    var i := 0;
    while i < |b.stmts|
      invariant 0 <= i <= |b.stmts| && |runs| == i && hc == Before(h, runs, i)
      invariant StmtsPrefix(b.stmts, h, scope, runs) && Normal(res) == LastOut(runs) && !EndsBlock(res)
      invariant Sound(hc) && h.Keys <= hc.Keys && ValueIn(res, hc.Keys)
    {
      var o;
      ghost var ds;
      o, ds := EvalStatement(b.stmts[i], scope, fuel, hc);
      if o.OutOfFuel? {
        return o, ds;
      }
      StmtsPrefixSnoc(b.stmts, h, scope, runs, ds);
      runs := runs + [ds];
      hc := ds.post;
      if !o.Normal? || (o.v != Nil && (o.v.Ret? || o.v.Err?)) {
        d := Run(o, hc, runs, null);
        StmtsPrefixRun(b.stmts, h, scope, d);
        return o, d;
      }
      res := o.v;
      i := i + 1;
    }
    r := Normal(res);
    d := Run(r, hc, runs, null);
    StmtsPrefixRun(b.stmts, h, scope, d);
  }

  /** EvalProgram: like a block, but a return wrapper is removed and ends the program. */
  method EvalProgram(p: Program, scope: Scope, fuel: nat, ghost h: Store) returns (r: Outcome<Value>, ghost d: Run)
    requires Sound(h) && scope in h
    modifies scope
    ensures r != OutOfFuel ==> scope.Valid() && ProgramRuns(p, h, scope, d) && d.out == r && Grows(h, d)
  {
    var res := Nil;
    ghost var runs: seq<Run> := [];
    ghost var hc := h;
    var i := 0;
    while i < |p.stmts|
      invariant 0 <= i <= |p.stmts| && |runs| == i && hc == Before(h, runs, i)
      invariant StmtsPrefix(p.stmts, h, scope, runs) && Normal(res) == LastOut(runs) && !EndsBlock(res)
      invariant Sound(hc) && h.Keys <= hc.Keys && ValueIn(res, hc.Keys)
    {
      var o;
      ghost var ds;
      o, ds := EvalStatement(p.stmts[i], scope, fuel, hc);
      if o.OutOfFuel? {
        return o, ds;
      }
      StmtsPrefixSnoc(p.stmts, h, scope, runs, ds);
      runs := runs + [ds];
      hc := ds.post;
      if !o.Normal? {
        d := Run(o, hc, runs, null);
        StmtsPrefixRun(p.stmts, h, scope, d);
        return o, d;
      }
      res := o.v;
      if res.Ret? {
        d := Run(Normal(res.ret.value), hc, runs, null);
        StmtsPrefixRun(p.stmts, h, scope, d);
        return Normal(res.ret.value), d;
      }
      if res.Err? {
        d := Run(Normal(res), hc, runs, null);
        StmtsPrefixRun(p.stmts, h, scope, d);
        return Normal(res), d;
      }
      i := i + 1;
    }
    r := Normal(res);
    d := Run(r, hc, runs, null);
    StmtsPrefixRun(p.stmts, h, scope, d);
  }
}
