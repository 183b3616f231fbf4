/**
 * Runtime values of SG (sg_interpreter/src/sg/Item/Item.go) and the scopes
 * that bind names to them (sg_interpreter/src/sg/Item/Scope.go).
 *
 * Values the source allocates afresh and compares by address (strings,
 * return wrappers, functions, arrays) are class objects, so `==` on `Value`
 * is the source's identity comparison. `Null`, `Bool(true)` and `Bool(false)`
 * are the evaluator's three shared singletons. `Nil` is Go's nil item.
 */
module Items {
  import opened Wrappers
  import opened Runes
  import Tokens
  import opened Ast

  const MinInt64: int := -0x8000_0000_0000_0000
  const MaxInt64: int := 0x7fff_ffff_ffff_ffff
  const TwoTo64: int := 0x1_0000_0000_0000_0000

  type Int64 = i: int | MinInt64 <= i <= MaxInt64

  /** Go's int64 arithmetic: the exact result reduced into range, two's complement. */
  function Wrap64(x: int): (r: Int64)
    ensures (r - x) % TwoTo64 == 0
    ensures MinInt64 <= x <= MaxInt64 ==> r == x
  {
    var m := x % TwoTo64;
    if m > MaxInt64 then m - TwoTo64 else m
  }

  datatype ItemType =
    | NullItem | ErrorItem | IntegerItem | BooleanItem | StringItem
    | FunctionItem | ReturnValueItem | BuiltinItem | ArrayItem | HashItem

  /** The string constants by which the source names item types in messages. */
  function TypeName(t: ItemType): string
  {
    match t
    case NullItem => "NULL"
    case ErrorItem => "ERROR"
    case IntegerItem => "INTEGER"
    case BooleanItem => "BOOLEAN"
    case StringItem => "STRING"
    case FunctionItem => "FUNCTION"
    case ReturnValueItem => "RETURN_VALUE"
    case BuiltinItem => "BUILTIN"
    case ArrayItem => "ARRAY"
    case HashItem => "HASH"
  }

  /** Distinct item types have distinct names, so comparing names compares types. */
  lemma TypeNameInjective(a: ItemType, b: ItemType)
    requires TypeName(a) == TypeName(b)
    ensures a == b
  {
  }

  class StringObj {
    const value: string
    constructor (s: string)
      ensures value == s
    {
      value := s;
    }
  }

  /**
   * A return wrapper. `depth` counts the wrappers nested inside it; it makes
   * a chain of wrappers visibly finite.
   */
  class ReturnBox {
    const value: Value
    const depth: nat
    constructor (v: Value)
      ensures value == v
      ensures v.Ret? ==> v.ret.depth < depth
    {
      value := v;
      depth := if v.Ret? then v.ret.depth + 1 else 0;
    }
  }

  /** A closure: parameters, body and the scope it was created in. */
  class FunctionObj {
    const params: seq<Identifier>
    const body: Block
    const env: ScopeChain
    constructor (params: seq<Identifier>, body: Block, env: ScopeChain)
      ensures this.params == params && this.body == body && this.env == env
    {
      this.params := params;
      this.body := body;
      this.env := env;
    }
  }

  /**
   * A growable array: `elements` is the backing store, the first `len` of
   * its slots are the array's contents, and `capacity` is the store's size.
   */
  class ArrayObj {
    var elements: array<Value>
    var len: int
    var capacity: int

    ghost predicate Valid()
      reads this
    {
      0 <= len <= capacity <= MaxInt64 && capacity == elements.Length
    }

    /** The array's contents as the language sees them. */
    function Contents(): (c: seq<Value>)
      requires Valid()
      reads this, elements
      ensures |c| == len && forall i :: 0 <= i < len ==> c[i] == elements[i]
    {
      elements[..len]
    }

    constructor (vs: seq<Value>)
      requires |vs| <= MaxInt64
      ensures Valid() && fresh(elements)
      ensures len == capacity == |vs| && Contents() == vs
    {
      elements := new Value[|vs|](i requires 0 <= i < |vs| => vs[i]);
      len := |vs|;
      capacity := |vs|;
    }
  }

  datatype Value =
    | Nil
    | Null
    | Bool(b: bool)
    | Int(i: Int64)
    | Str(str: StringObj)
    | Err(msg: string)
    | Ret(ret: ReturnBox)
    | Func(fn: FunctionObj)
    | Builtin(name: string)
    | Arr(arr: ArrayObj)

  /** The type of a value; Go's nil has none (asking for it dereferences nil). */
  function TypeOf(v: Value): (t: ItemType)
    requires v != Nil
  {
    match v
    case Null => NullItem
    case Bool(_) => BooleanItem
    case Int(_) => IntegerItem
    case Str(_) => StringItem
    case Err(_) => ErrorItem
    case Ret(_) => ReturnValueItem
    case Func(_) => FunctionItem
    case Builtin(_) => BuiltinItem
    case Arr(_) => ArrayItem
  }

  /** The name Go prints for the type of a non-nil item, as error messages spell it. */
  function TypeText(v: Value): string
    requires v != Nil
  {
    TypeName(TypeOf(v))
  }

  /** Every constructor has its own type, and no runtime value is a hash. */
  lemma TypeOfSeparates(v: Value, w: Value)
    requires v != Nil && w != Nil
    ensures TypeOf(v) == TypeOf(w) <==>
      (v.Null? == w.Null? && v.Bool? == w.Bool? && v.Int? == w.Int? &&
       v.Str? == w.Str? && v.Err? == w.Err? && v.Ret? == w.Ret? && v.Func? == w.Func? &&
       v.Builtin? == w.Builtin? && v.Arr? == w.Arr?)
    ensures TypeOf(v) != HashItem
  {
  }

  /**
   * A frame of bindings and the frame it is enclosed in. `depth` counts the
   * enclosing frames; it makes the chain of frames visibly finite.
   */
  class Scope {
    var mp: map<string, Value>
    const outer: Scope?
    const depth: nat

    /** Each enclosing frame is shallower, so the chain ends. */
    ghost predicate Valid()
      decreases depth
    {
      outer != null ==> outer.depth < depth && outer.Valid()
    }

    /** This frame and all frames that enclose it. */
    ghost function Chain(): (c: set<Scope>)
      requires Valid()
      ensures this in c && forall s :: s in c ==> s.depth <= depth && s.Valid()
      decreases depth
    {
      {this} + if outer == null then {} else outer.Chain()
    }

    /** The binding of `k`, innermost frame first. */
    function Lookup(k: string): (r: Option<Value>)
      requires Valid()
      reads Chain()
      decreases depth
    {
      if k in mp then Some(mp[k])
      else if outer == null then None
      else outer.Lookup(k)
    }

    /** The frames' maps, innermost first. */
    ghost function Frames(): (fs: seq<map<string, Value>>)
      requires Valid()
      reads Chain()
      ensures |fs| > 0 && fs[0] == mp
      decreases depth
    {
      [mp] + if outer == null then [] else outer.Frames()
    }

    /** NewScope: an empty frame with no enclosing one. */
    constructor ()
      ensures mp == map[] && outer == null && Valid()
      ensures forall k :: Lookup(k) == None
    {
      mp := map[];
      outer := null;
      depth := 0;
    }

    /** NewEnclosedScope: an empty frame in front of `o`'s chain. */
    constructor Enclosed(o: Scope?)
      requires o == null || o.Valid()
      ensures mp == map[] && outer == o && Valid()
      ensures forall k :: Lookup(k) == if o == null then None else o.Lookup(k)
    {
      mp := map[];
      outer := o;
      depth := if o == null then 0 else o.depth + 1;
    }

    /** Get: the binding of `key` in this frame or an enclosing one; `Nil` and false when there is none. */
    method Get(key: string) returns (item: Value, ok: bool)
      requires Valid()
      ensures ok <==> Lookup(key).Some?
      ensures ok ==> item == Lookup(key).value
      ensures !ok ==> item == Nil
      ensures Lookup(key) == old(Lookup(key))
      decreases depth
    {
      if key in mp {
        item, ok := mp[key], true;
      } else {
        item, ok := Nil, false;
        if outer != null {
          item, ok := outer.Get(key);
        }
      }
    }

    /** Set: bind `key` in this frame, shadowing any enclosing binding. */
    method Set(key: string, item: Value) returns (r: Value)
      requires Valid()
      modifies this
      ensures r == item && mp == old(mp)[key := item]
      ensures Lookup(key) == Some(item)
      ensures forall k :: k != key ==> Lookup(k) == old(Lookup(k))
    {
      OuterExcludesThis();
      mp := mp[key := item];
      r := item;
    }

    lemma OuterExcludesThis()
      requires Valid()
      ensures outer != null ==> this !in outer.Chain()
    {
    }
  }

  type ScopeChain = s: Scope? | s == null || s.Valid()

  /** Resolution of a name in a list of frames, innermost first. */
  function Resolve(frames: seq<map<string, Value>>, k: string): (r: Option<Value>)
    ensures r.Some? <==> exists i :: 0 <= i < |frames| && k in frames[i]
    ensures r.Some? ==> exists i :: (0 <= i < |frames| && k in frames[i] && r.value == frames[i][k] &&
      forall j :: 0 <= j < i ==> k !in frames[j])
  {
    if |frames| == 0 then None
    else if k in frames[0] then Some(frames[0][k])
    else
      var r := Resolve(frames[1..], k);
      assert forall i :: 1 <= i < |frames| ==> frames[i] == frames[1..][i - 1];
      if r.Some? then
        var i :| (0 <= i < |frames[1..]| && k in frames[1..][i] && r.value == frames[1..][i][k] &&
          forall j :: 0 <= j < i ==> k !in frames[1..][j]);
        assert k in frames[i + 1] && forall j :: 0 <= j < i + 1 ==> k !in frames[j];
        r
      else r
  }

  /** Looking a name up in a scope is resolving it, innermost frame first, through the frames of its chain. */
  lemma {:induction false} LookupResolves(s: Scope, k: string)
    requires s.Valid()
    ensures s.Lookup(k) == Resolve(s.Frames(), k)
    decreases s.depth
  {
    if s.outer != null {
      LookupResolves(s.outer, k);
      assert s.Frames()[1..] == s.outer.Frames();
    }
  }

  /** A hash key: an item type and a 64-bit unsigned number derived from the value. */
  datatype HashKey = HashKey(kind: ItemType, value: nat)

  const FnvOffset64: nat := 0xcbf29ce484222325
  const FnvPrime64: nat := 0x100000001b3

  /** Bitwise exclusive or of two bytes. */
  function Xor8(a: nat, b: nat): (r: nat)
    requires a < 256 && b < 256
    ensures r < 256
  {
    ((a as bv8) ^ (b as bv8)) as nat
  }

  /**
   * One FNV-1a round on a 64-bit state: xor the byte into the low eight
   * bits, then multiply by the prime modulo 2^64.
   */
  function FnvStep(h: nat, c: char): (r: nat)
    requires h < TwoTo64
    ensures r < TwoTo64
  {
    ((h - h % 256 + Xor8(h % 256, ByteOf(c))) * FnvPrime64) % TwoTo64
  }

  /** The FNV-1a state after writing the bytes of `s` to a hash in state `h`. */
  function FnvFrom(h: nat, s: string): (r: nat)
    requires h < TwoTo64
    ensures r < TwoTo64
    decreases |s|
  {
    if |s| == 0 then h else FnvFrom(FnvStep(h, s[0]), s[1..])
  }

  /** The 64-bit FNV-1a hash of the bytes of `s`. */
  function Fnv1a64(s: string): (r: nat)
    ensures r < TwoTo64
  {
    FnvFrom(FnvOffset64, s)
  }

  /** Writing `a` and then `b` to a hash is writing `a + b`. */
  lemma {:induction false} FnvFromAppend(h: nat, a: string, b: string)
    requires h < TwoTo64
    ensures FnvFrom(h, a + b) == FnvFrom(FnvFrom(h, a), b)
    decreases |a|
  {
    if |a| > 0 {
      assert (a + b)[0] == a[0] && (a + b)[1..] == a[1..] + b;
      FnvFromAppend(FnvStep(h, a[0]), a[1..], b);
    } else {
      assert a + b == b;
    }
  }

  /** The hash of the empty string is the offset basis, and that of "a" is the published FNV-1a test value. */
  lemma FnvTestVectors()
    ensures Fnv1a64("") == FnvOffset64
    ensures Fnv1a64("a") == 0xaf63dc4c8601ec8c
  {
    assert "a"[1..] == "";
    assert FnvOffset64 % 256 == 0x25;
    assert Xor8(0x25, 0x61) == 0x44;
    assert FnvStep(FnvOffset64, 'a') == 0xaf63dc4c8601ec8c;
  }

  /** Go's conversion of an int64 to uint64: the two's complement bit pattern. */
  function Uint64Of(i: Int64): (u: nat)
    ensures u < TwoTo64
    ensures i >= 0 ==> u == i
    ensures i < 0 ==> u == i + TwoTo64
  {
    if i < 0 then i + TwoTo64 else i
  }

  /** HashKey of an integer, a boolean or a string. */
  function HashKeyOf(v: Value): (k: HashKey)
    requires v.Int? || v.Bool? || v.Str?
    ensures k.kind == TypeOf(v) && k.value < TwoTo64
  {
    match v
    case Int(i) => HashKey(IntegerItem, Uint64Of(i))
    case Bool(b) => HashKey(BooleanItem, if b then 1 else 0)
    case Str(s) => HashKey(StringItem, Fnv1a64(s.value))
  }

  /** Integers and booleans have the same key exactly when they are the same value. */
  lemma ScalarKeysIdentify(v: Value, w: Value)
    requires v.Int? || v.Bool?
    requires w.Int? || w.Bool?
    ensures HashKeyOf(v) == HashKeyOf(w) <==> v == w
  {
  }

  /** Strings are keyed by content: two string objects with the same text have the same key. */
  lemma StringKeysFollowContent(s: StringObj, t: StringObj)
    ensures s.value == t.value ==> HashKeyOf(Str(s)) == HashKeyOf(Str(t))
    ensures HashKeyOf(Str(s)) == HashKeyOf(Str(t)) ==> HashKeyOf(Str(s)).value == Fnv1a64(t.value)
    ensures HashKeyOf(Str(s)) != HashKeyOf(Int(0)) && HashKeyOf(Str(s)) != HashKeyOf(Bool(false))
  {
  }

  function DigitChar(d: nat): (c: char)
    requires d < 10
    ensures '0' <= c <= '9' && c as int - '0' as int == d
  {
    ('0' as int + d) as char
  }

  /** The decimal numeral of `n`, without leading zeros. */
  function Digits(n: nat): (s: string)
    ensures |s| > 0 && forall i :: 0 <= i < |s| ==> '0' <= s[i] <= '9'
    ensures s[0] == '0' <==> n == 0
    decreases n
  {
    if n < 10 then [DigitChar(n)] else Digits(n / 10) + [DigitChar(n % 10)]
  }

  /** Go's %d rendering of an integer. */
  function Decimal(i: int): (s: string)
    ensures |s| > 0
    ensures i < 0 <==> s[0] == '-'
    ensures i >= 0 ==> s == Digits(i)
    ensures i < 0 ==> s[1..] == Digits(-i)
  {
    if i < 0 then "-" + Digits(-i) else Digits(i)
  }

  /**
   * Output: the text of a value, or None where the source has no text: Go's
   * nil, a function whose body holds a node without a rendering, or an array
   * whose length exceeds its store. Output recurses into return wrappers and
   * array elements; `fuel` bounds that nesting (a cyclic array recurses without end).
   */
  function Output(v: Value, fuel: nat): (r: Option<string>)
    reads *
    decreases fuel, 0
  {
    match v
    case Nil => None
    case Null => Some("null")
    case Bool(b) => Some(if b then "true" else "false")
    case Int(i) => Some(Decimal(i))
    case Str(s) => Some(s.value)
    case Err(m) => Some("ERROR: " + m)
    case Ret(box) => if fuel == 0 then None else Output(box.value, fuel - 1)
    case Func(f) =>
      if PrintableBlock(f.body) then
        Some("fun(" + Join(ParamNames(f.params), ", ") + ") {\n" + BlockString(f.body) + "\n}")
      else None
    case Builtin(_) => Some("builtin function")
    case Arr(a) =>
      if fuel == 0 || !(0 <= a.len <= a.elements.Length) then None
      else
        var parts := OutputAll(a.elements[..a.len], fuel - 1);
        if parts.None? then None else Some("[" + Join(parts.value, ", ") + "]")
  }

  /** The outputs of all of `vs`, or None if one has none. */
  function OutputAll(vs: seq<Value>, fuel: nat): (r: Option<seq<string>>)
    reads *
    ensures r.Some? ==> |r.value| == |vs|
    decreases fuel, 1, |vs|
  {
    if |vs| == 0 then Some([])
    else
      var first := Output(vs[0], fuel);
      var rest := OutputAll(vs[1..], fuel);
      if first.None? || rest.None? then None else Some([first.value] + rest.value)
  }

  /** A boolean's output is a keyword that lexes back to the same boolean. */
  lemma BooleanOutputRelexes(b: bool, fuel: nat)
    ensures Output(Bool(b), fuel).Some?
    ensures Tokens.FindIdent(Output(Bool(b), fuel).value) == if b then Tokens.True else Tokens.False
  {
  }

  /** Output looks through any number of return wrappers, given fuel for each. */
  lemma {:induction false} ReturnOutputUnwraps(box: ReturnBox, fuel: nat)
    requires fuel > 0
    ensures Output(Ret(box), fuel) == Output(box.value, fuel - 1)
    ensures box.value.Int? ==> Output(Ret(box), fuel) == Some(Decimal(box.value.i))
  {
  }

  /**
   * A function outputs as `fun(`, its parameter names joined by `, `, `) {`,
   * a newline, its body's rendering, a newline and `}`: for `fun(x, y) { x }`
   * that is the text below.
   */
  lemma FunctionOutputOfPair(f: FunctionObj, fuel: nat)
    requires |f.params| == 2 && f.params[0].value == "x" && f.params[1].value == "y"
    requires |f.body.stmts| == 1 && f.body.stmts[0].ExprStmt? && f.body.stmts[0].expr.IdentExpr?
    requires f.body.stmts[0].expr.id.value == "x"
    ensures Output(Func(f), fuel) == Some("fun(x, y) {\nx\n}")
  {
    assert ParamNames(f.params) == ["x", "y"];
    assert Join(["x", "y"], ", ") == "x" + ", " + "y";
    assert PrintableBlock(f.body);
    var st := f.body.stmts[0];
    assert PrintableStmt(st) && StmtString(st) == "x";
    assert f.body.stmts[..0] == [];
    assert BlockString(f.body) == StmtsString([]) + StmtString(st) == "" + "x";
    assert Output(Func(f), fuel) == Some("fun(" + ("x" + ", " + "y") + ") {\n" + ("" + "x") + "\n}");
    assert "fun(" + ("x" + ", " + "y") + ") {\n" + ("" + "x") + "\n}" == "fun(x, y) {\nx\n}";
  }

  /** A function without parameters and with an empty body outputs `fun() {`, a newline and `}`. */
  lemma EmptyFunctionOutput(f: FunctionObj, fuel: nat)
    requires |f.params| == 0 && |f.body.stmts| == 0
    ensures Output(Func(f), fuel) == Some("fun() {\n\n}")
  {
    assert ParamNames(f.params) == [];
    assert PrintableBlock(f.body);
    assert BlockString(f.body) == "";
    assert Join([], ", ") == "";
    assert Output(Func(f), fuel) == Some("fun(" + "" + ") {\n" + "" + "\n}");
    assert "fun(" + "" + ") {\n" + "" + "\n}" == "fun() {\n\n}";
  }

  /**
   * An array outputs as its first `len` elements' outputs, joined by `, `
   * inside brackets: the integers 1 and -2 give `[1, -2]`.
   */
  lemma ArrayOutputOfPair(a: ArrayObj, fuel: nat)
    requires fuel > 0 && 0 <= a.len <= a.elements.Length
    requires a.elements[..a.len] == [Int(1), Int(-2)]
    ensures Output(Arr(a), fuel) == Some("[1, -2]")
  {
    var vs := a.elements[..a.len];
    assert Digits(1) == "1" && Digits(2) == "2";
    assert Decimal(1) == "1";
    assert Decimal(-2) == "-" + "2" == "-2";
    var w := vs[1..];
    assert vs[0] == Int(1) && w == [Int(-2)] && w[1..] == [];
    assert Output(w[0], fuel - 1) == Some("-2");
    assert OutputAll(w[1..], fuel - 1) == Some([]);
    var one, two := Decimal(1), Decimal(-2);
    assert OutputAll(w, fuel - 1) == Some([two] + []);
    assert [two] + [] == [two];
    assert OutputAll(vs, fuel - 1) == Some([one] + [two]);
    assert [one] + [two] == [one, two] == ["1", "-2"];
    assert Join(["1", "-2"], ", ") == "1" + ", " + "-2";
    assert Output(Arr(a), fuel) == Some("[" + ("1" + ", " + "-2") + "]");
    assert "[" + ("1" + ", " + "-2") + "]" == "[1, -2]";
  }

  /** An empty array outputs `[]`; an array whose length exceeds its store has no output (Go indexes out of range). */
  lemma ArrayOutputEdges(a: ArrayObj, fuel: nat)
    requires fuel > 0
    ensures a.len == 0 <= a.elements.Length ==> Output(Arr(a), fuel) == Some("[]")
    ensures a.len > a.elements.Length ==> Output(Arr(a), fuel).None?
  {
    if a.len == 0 {
      assert a.elements[..a.len] == [];
      assert "[" + "" + "]" == "[]";
    }
  }
}
