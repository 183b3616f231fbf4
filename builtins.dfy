/**
 * The built-in functions (sg_interpreter/src/sg/evaluator/builtins.go):
 * len, first, last, push, set, get, reverse and sort with its quicksort and
 * swap. Each takes the evaluated arguments as a sequence and returns an item;
 * push, set, reverse and sort change the array they are given in place.
 * Where Go would panic (a method called on a nil item, an unchecked type
 * assertion) the model has a precondition instead.
 */
module Builtins {
  import opened Runes
  import opened Items

  /** The arity message of len, reverse and sort (spaces around `=`). */
  function SpacedArityMsg(got: int): string
  {
    "Wrong number of arguments! Expected = 1. Received=" + Decimal(got)
  }

  /** The arity message of first, last, push, set and get. */
  function ArityMsg(expected: nat, got: int): string
  {
    "Wrong number of arguments! Expected=" + Decimal(expected) + ". Received=" + Decimal(got)
  }

  const OutOfBoundsMsg: string := "Index Argument is out of bounds!"

  /** `len`: the number of elements of an array, or of bytes of a string. */
  method Len(args: seq<Value>) returns (r: Value)
    requires |args| == 1 ==> args[0] != Nil
    requires |args| == 1 && args[0].Arr? ==> args[0].arr.Valid()
    ensures |args| != 1 ==> r == Err(SpacedArityMsg(|args|))
    ensures |args| == 1 && args[0].Arr? ==> r.Int? && r.i == |args[0].arr.Contents()|
    ensures |args| == 1 && args[0].Str? && |args[0].str.value| <= MaxInt64 ==>
      r.Int? && r.i == |args[0].str.value|
    ensures |args| == 1 && !args[0].Arr? && !args[0].Str? ==>
      r == Err("Argument `len` not supported. Received " + TypeText(args[0]))
  {
    if |args| != 1 {
      return Err(SpacedArityMsg(|args|));
    }
    if args[0].Arr? {
      r := Int(args[0].arr.len);
    } else if args[0].Str? {
      r := Int(Wrap64(|args[0].str.value|));
    } else {
      r := Err("Argument `len` not supported. Received " + TypeText(args[0]));
    }
  }

  /**
   * `first`: the first element of an array, or NULL. The source tests the
   * backing store's size rather than the length, so an empty array with
   * spare capacity yields its first (unused) slot.
   */
  method First(args: seq<Value>) returns (r: Value)
    requires |args| == 1 ==> args[0] != Nil
    requires |args| == 1 && args[0].Arr? ==> args[0].arr.Valid()
    ensures |args| != 1 ==> r == Err(ArityMsg(1, |args|))
    ensures |args| == 1 && !args[0].Arr? ==>
      r == Err("Argument to `first` must be ARRAY. Received " + TypeText(args[0]))
    ensures |args| == 1 && args[0].Arr? ==>
      var a := args[0].arr;
      (a.len > 0 ==> r == a.Contents()[0]) &&
      (a.capacity == 0 ==> r == Null) &&
      (a.len == 0 < a.capacity ==> r == a.elements[0])
  {
    if |args| != 1 {
      return Err(ArityMsg(1, |args|));
    }
    if !args[0].Arr? {
      return Err("Argument to `first` must be ARRAY. Received " + TypeText(args[0]));
    }
    var a := args[0].arr;
    if a.elements.Length > 0 {
      return a.elements[0];
    }
    return Null;
  }

  /** `last`: the last element of an array, or NULL when it is empty. */
  method Last(args: seq<Value>) returns (r: Value)
    requires |args| == 1 ==> args[0] != Nil
    requires |args| == 1 && args[0].Arr? ==> args[0].arr.Valid()
    ensures |args| != 1 ==> r == Err(ArityMsg(1, |args|))
    ensures |args| == 1 && !args[0].Arr? ==>
      r == Err("Argument to `last` must be ARRAY. Received " + TypeText(args[0]))
    ensures |args| == 1 && args[0].Arr? ==>
      var c := args[0].arr.Contents();
      (|c| > 0 ==> r == c[|c| - 1]) && (|c| == 0 ==> r == Null)
  {
    if |args| != 1 {
      return Err(ArityMsg(1, |args|));
    }
    if !args[0].Arr? {
      return Err("Argument to `last` must be ARRAY. Received " + TypeText(args[0]));
    }
    var a := args[0].arr;
    if a.len > 0 {
      return a.elements[a.len - 1];
    }
    return Null;
  }

  /**
   * As written, `get` on a byte from 0x80 on returns two bytes: the first
   * byte of the two-byte text 0xC3 0xA9 comes back as 0xC3 0x83, not as 0xC3.
   */
  lemma GetWidensHighBytes()
    ensures var s := "\U{C3}\U{A9}";
      RuneString(s[0]) == "\U{C3}\U{83}" && RuneString(s[0]) != s[0..1]
  {
  }

  /** The evidently intended result of `get(s, i)`: the one-byte string at `i`. */
  function ByteAt(s: string, i: int): (r: string)
    requires 0 <= i < |s|
    ensures |r| == 1 && r[0] == s[i]
  {
    s[i..i + 1]
  }

  /** The one-byte strings `get` is meant to return, for indices `from` up to the end, joined. */
  function JoinBytes(s: string, from: nat): (r: string)
    requires from <= |s|
    decreases |s| - from
  {
    if from == |s| then "" else ByteAt(s, from) + JoinBytes(s, from + 1)
  }

  /** Joining the intended results of `get` over every index rebuilds the string. */
  lemma {:induction false} ByteAtRebuilds(s: string, from: nat)
    requires from <= |s|
    ensures JoinBytes(s, from) == s[from..]
    decreases |s| - from
  {
    if from < |s| {
      ByteAtRebuilds(s, from + 1);
      assert s[from..] == s[from..from + 1] + s[from + 1..];
    }
  }

  /**
   * `get`: the byte of a string at an index, as a new string. This is the
   * corrected behaviour (`ByteAt`); the conversion as written is `RuneString`.
   */
  method Get(args: seq<Value>) returns (r: Value)
    requires |args| == 2 ==> args[0] != Nil
    requires |args| == 2 && args[0].Str? ==> args[1] != Nil
    ensures |args| != 2 ==> r == Err(ArityMsg(2, |args|) + ".")
    ensures |args| == 2 && !args[0].Str? ==>
      r == Err("Argument to `get` must be STRING. Expected " + TypeText(args[0]))
    ensures |args| == 2 && args[0].Str? && !args[1].Int? ==>
      r == Err("Argument to `get` must be an INTEGER. Received " + TypeText(args[1]))
    ensures |args| == 2 && args[0].Str? && args[1].Int? ==>
      var s, i := args[0].str.value, args[1].i;
      (0 <= i < |s| ==> r.Str? && r.str.value == ByteAt(s, i)) &&
      (!(0 <= i < |s|) ==> r == Err(OutOfBoundsMsg))
  {
    if |args| != 2 {
      return Err(ArityMsg(2, |args|) + ".");
    }
    if !args[0].Str? {
      return Err("Argument to `get` must be STRING. Expected " + TypeText(args[0]));
    }
    var s := args[0].str.value;
    if !args[1].Int? {
      return Err("Argument to `get` must be an INTEGER. Received " + TypeText(args[1]));
    }
    var i := args[1].i;
    if i < 0 || i >= |s| {
      return Err(OutOfBoundsMsg);
    }
    var piece := new StringObj(ByteAt(s, i));
    return Str(piece);
  }

  /** `push`: appends an item to an array in place, doubling its backing store when it is full. */
  method Push(args: seq<Value>) returns (r: Value)
    requires |args| == 2 ==> args[0] != Nil
    requires |args| == 2 && args[0].Arr? ==>
      var a := args[0].arr; a.Valid() && (a.len < a.capacity || 2 * a.capacity <= MaxInt64)
    modifies if |args| == 2 && args[0].Arr? then {args[0].arr, args[0].arr.elements} else {}
    ensures |args| != 2 ==> r == Err(ArityMsg(2, |args|) + ".")
    ensures |args| == 2 && !args[0].Arr? ==>
      r == Err("Argument to `push` must be ARRAY. Expected " + TypeText(args[0]))
    ensures |args| == 2 && args[0].Arr? ==>
      var a := args[0].arr;
      r == args[0] && a.Valid() && a.Contents() == old(a.Contents()) + [args[1]]
    ensures |args| == 2 && args[0].Arr? && old(args[0].arr.len < args[0].arr.capacity) ==>
      var a := args[0].arr;
      a.elements == old(a.elements) && a.capacity == old(a.capacity) &&
      forall k :: a.len <= k < a.capacity ==> a.elements[k] == old(a.elements[k])
    ensures |args| == 2 && args[0].Arr? && old(args[0].arr.len == args[0].arr.capacity) ==>
      var a := args[0].arr;
      fresh(a.elements) &&
      a.capacity == (if old(a.capacity) == 0 then 1 else 2 * old(a.capacity)) &&
      forall k :: a.len <= k < a.capacity ==> a.elements[k] == Nil
  {
    if |args| != 2 {
      return Err(ArityMsg(2, |args|) + ".");
    }
    if !args[0].Arr? {
      return Err("Argument to `push` must be ARRAY. Expected " + TypeText(args[0]));
    }
    var a := args[0].arr;
    if a.len < a.capacity {
      a.elements[a.len] := args[1];
      a.len := a.len + 1;
    } else {
      a.capacity := if a.capacity == 0 then 1 else a.capacity * 2;
      var grown := new Value[a.capacity](_ => Nil);
      forall k | 0 <= k < a.len {
        grown[k] := a.elements[k];
      }
      grown[a.len] := args[1];
      a.len := a.len + 1;
      a.elements := grown;
    }
    return args[0];
  }

  /** `set`: replaces the element of an array at an index, in place. */
  method Set(args: seq<Value>) returns (r: Value)
    requires |args| == 3 ==> args[0] != Nil
    requires |args| == 3 && args[0].Arr? ==> args[0].arr.Valid() && args[1] != Nil
    modifies if |args| == 3 && args[0].Arr? then {args[0].arr.elements} else {}
    ensures |args| != 3 ==> r == Err(ArityMsg(3, |args|) + ".")
    ensures |args| == 3 && !args[0].Arr? ==>
      r == Err("Argument to `set` must be ARRAY. Expected " + TypeText(args[0]))
    ensures |args| == 3 && args[0].Arr? && !args[1].Int? ==>
      r == Err("Argument to `set` must be an INTEGER. Received " + TypeText(args[1])) &&
      unchanged(args[0].arr.elements)
    ensures |args| == 3 && args[0].Arr? && args[1].Int? ==>
      var a, i := args[0].arr, args[1].i;
      (0 <= i < a.len ==>
         r == args[0] && a.Valid() &&
         a.Contents() == old(a.Contents())[i := args[2]] &&
         forall k :: a.len <= k < a.capacity ==> a.elements[k] == old(a.elements[k])) &&
      (!(0 <= i < a.len) ==> r == Err(OutOfBoundsMsg) && unchanged(a.elements))
  {
    if |args| != 3 {
      return Err(ArityMsg(3, |args|) + ".");
    }
    if !args[0].Arr? {
      return Err("Argument to `set` must be ARRAY. Expected " + TypeText(args[0]));
    }
    var a := args[0].arr;
    if !args[1].Int? {
      return Err("Argument to `set` must be an INTEGER. Received " + TypeText(args[1]));
    }
    var i := args[1].i;
    if i < 0 || i >= a.len {
      return Err(OutOfBoundsMsg);
    }
    a.elements[i] := args[2];
    return args[0];
  }

  /** The elements of `s` in the opposite order. */
  function Reversed(s: seq<Value>): (r: seq<Value>)
    ensures |r| == |s|
  {
    if s == [] then [] else Reversed(s[1..]) + [s[0]]
  }

  /** Position `k` of the reversal holds position `|s| - 1 - k` of the original. */
  lemma {:induction false} ReversedAt(s: seq<Value>, k: int)
    requires 0 <= k < |s|
    ensures Reversed(s)[k] == s[|s| - 1 - k]
    decreases |s|
  {
    if k < |s| - 1 {
      ReversedAt(s[1..], k);
    }
  }

  /** Reversing twice gives the sequence back. */
  lemma ReversedInvolutive(s: seq<Value>)
    ensures Reversed(Reversed(s)) == s
  {
    forall k | 0 <= k < |s|
      ensures Reversed(Reversed(s))[k] == s[k]
    {
      ReversedAt(Reversed(s), k);
      ReversedAt(s, |s| - 1 - k);
    }
  }

  /** The loop of `reverse`: swaps mirrored pairs of the first `n` slots of `e`. */
  method ReverseInPlace(e: array<Value>, n: int)
    requires 0 <= n <= e.Length
    modifies e
    ensures e[..n] == Reversed(old(e[..n]))
    ensures e[n..] == old(e[n..])
  {
    ghost var before := e[..n];
    SwapMirrored(e, n);
    assert e[n..] == old(e[n..]);
    assert forall k :: 0 <= k < n ==> e[..n][k] == before[n - 1 - k];
    MirroredIsReversed(before, e[..n]);
  }

  /** Swapping the mirrored pairs puts position `n - 1 - k` at `k` and leaves the slots from `n` on alone. */
  method SwapMirrored(e: array<Value>, n: int)
    requires 0 <= n <= e.Length
    modifies e
    ensures forall k :: 0 <= k < n ==> e[k] == old(e[n - 1 - k])
    ensures forall k :: n <= k < e.Length ==> e[k] == old(e[k])
  {
    var half := n / 2;
    assert 2 * half <= n <= 2 * half + 1;
    var i := 0;
    while i < half
      invariant 0 <= i <= half
      invariant forall k :: 0 <= k < i ==> e[k] == old(e[n - 1 - k])
      invariant forall k :: n - i <= k < n ==> e[k] == old(e[n - 1 - k])
      invariant forall k :: i <= k < n - i ==> e[k] == old(e[k])
      invariant forall k :: n <= k < e.Length ==> e[k] == old(e[k])
    {
      e[i], e[n - 1 - i] := e[n - 1 - i], e[i];
      i := i + 1;
    }
  }

  /** A sequence holding the mirrored positions of another is its reversal. */
  lemma {:induction false} MirroredIsReversed(s: seq<Value>, t: seq<Value>)
    requires |t| == |s| && forall k :: 0 <= k < |s| ==> t[k] == s[|s| - 1 - k]
    ensures t == Reversed(s)
  {
    forall k | 0 <= k < |s|
      ensures t[k] == Reversed(s)[k]
    {
      ReversedAt(s, k);
    }
  }

  /** `reverse`: reverses an array's contents in place by swapping mirrored pairs. */
  method Reverse(args: seq<Value>) returns (r: Value)
    requires |args| == 1 ==> args[0].Arr? && args[0].arr.Valid()
    modifies if |args| == 1 && args[0].Arr? then {args[0].arr.elements} else {}
    ensures |args| != 1 ==> r == Err(SpacedArityMsg(|args|))
    ensures |args| == 1 ==>
      var a := args[0].arr;
      r == args[0] && a.Contents() == Reversed(old(a.Contents())) &&
      forall k :: a.len <= k < a.capacity ==> a.elements[k] == old(a.elements[k])
  {
    if |args| != 1 {
      return Err(SpacedArityMsg(|args|));
    }
    ReverseInPlace(args[0].arr.elements, args[0].arr.len);
    return args[0];
  }

  const SortMsg: string := "We can only sort Integer Arrays!"

  /** `s` holds integers in ascending order. */
  predicate SortedInts(s: seq<Value>)
  {
    forall i, j :: 0 <= i < j < |s| ==> s[i].Int? && s[j].Int? && s[i].i <= s[j].i
  }

  /** Every item of `s` is an integer below `p`. */
  predicate Below(s: seq<Value>, p: int)
  {
    forall v :: v in s ==> v.Int? && v.i < p
  }

  /** Every item of `s` is an integer of at least `p`. */
  predicate AtLeast(s: seq<Value>, p: int)
  {
    forall v :: v in s ==> v.Int? && p <= v.i
  }

  /** `swap`: exchanges two elements of a backing store. */
  method Swap(e: array<Value>, i: int, j: int)
    requires 0 <= i < e.Length && 0 <= j < e.Length
    modifies e
    ensures e[i] == old(e[j]) && e[j] == old(e[i])
    ensures forall k :: 0 <= k < e.Length && k != i && k != j ==> e[k] == old(e[k])
    ensures multiset(e[..]) == multiset(old(e[..]))
  {
    ghost var before := e[..];
    e[i], e[j] := e[j], e[i];
    assert e[..] == before[i := before[j]][j := before[i]];
    SwapPermutes(before, i, j);
  }

  /** Exchanging two elements keeps the same items. */
  lemma SwapPermutes(s: seq<Value>, i: int, j: int)
    requires 0 <= i < |s| && 0 <= j < |s|
    ensures multiset(s[i := s[j]][j := s[i]]) == multiset(s)
  {
  }

  /** Two stores that agree outside `lo..hi` and hold the same items hold the same items inside it. */
  lemma {:induction false} PermutedRange(s: seq<Value>, t: seq<Value>, lo: int, hi: int)
    requires 0 <= lo <= hi <= |s| == |t|
    requires multiset(s) == multiset(t)
    requires s[..lo] == t[..lo] && s[hi..] == t[hi..]
    ensures multiset(s[lo..hi]) == multiset(t[lo..hi])
  {
    assert s == s[..lo] + s[lo..hi] + s[hi..];
    assert t == t[..lo] + t[lo..hi] + t[hi..];
    assert multiset(s) == multiset(s[..lo]) + multiset(s[lo..hi]) + multiset(s[hi..]);
    assert multiset(t) == multiset(t[..lo]) + multiset(t[lo..hi]) + multiset(t[hi..]);
    forall v
      ensures multiset(s[lo..hi])[v] == multiset(t[lo..hi])[v]
    {
      assert multiset(s)[v] == multiset(s[..lo])[v] + multiset(s[lo..hi])[v] + multiset(s[hi..])[v];
      assert multiset(t)[v] == multiset(t[..lo])[v] + multiset(t[lo..hi])[v] + multiset(t[hi..])[v];
    }
  }

  /** Bounds on the items of a range survive any reordering of that range. */
  lemma {:induction false} BoundsCarry(s: seq<Value>, t: seq<Value>, p: int)
    requires multiset(s) == multiset(t)
    ensures Below(s, p) ==> Below(t, p)
    ensures AtLeast(s, p) ==> AtLeast(t, p)
  {
    forall v | v in t
      ensures v in s
    {
      assert v in multiset(t);
    }
  }

  /** A sorted run of smaller items, the pivot, then a sorted run of items at least as big, is sorted. */
  lemma {:induction false} SortedAroundPivot(lo: seq<Value>, x: Value, hi: seq<Value>)
    requires x.Int? && SortedInts(lo) && SortedInts(hi)
    requires Below(lo, x.i) && AtLeast(hi, x.i)
    ensures SortedInts(lo + [x] + hi)
  {
    var s := lo + [x] + hi;
    forall i, j | 0 <= i < j < |s|
      ensures s[i].Int? && s[j].Int? && s[i].i <= s[j].i
    {
      if j < |lo| {
      } else if i < |lo| {
        assert s[i] in lo;
        if j > |lo| {
          assert s[j] == hi[j - |lo| - 1] && s[j] in hi;
        }
      } else if i == |lo| {
        assert s[j] == hi[j - |lo| - 1] && s[j] in hi;
      } else {
        assert s[i] == hi[i - |lo| - 1] && s[j] == hi[j - |lo| - 1];
      }
    }
  }

  /**
   * The loop of `quicksort`: with the last element of `l..r` as pivot, moves
   * the smaller items to the front and then the pivot right after them.
   */
  method Partition(e: array<Value>, l: int, r: int) returns (pos: int)
    requires 0 <= l < r < e.Length
    requires forall k :: l <= k <= r ==> e[k].Int?
    modifies e
    ensures l <= pos <= r && e[pos] == old(e[r])
    ensures forall k :: l <= k < pos ==> e[k].Int? && e[k].i < e[pos].i
    ensures forall k :: pos < k <= r ==> e[k].Int? && e[pos].i <= e[k].i
    ensures multiset(e[..]) == multiset(old(e[..]))
    ensures forall k :: 0 <= k < e.Length && !(l <= k <= r) ==> e[k] == old(e[k])
  {
    var pivot := e[r];
    pos := MoveSmaller(e, l, r);
    Swap(e, pos, r);
  }

  /** The scan of `quicksort`'s loop: every item below the pivot `e[r]` is swapped to the front. */
  method MoveSmaller(e: array<Value>, l: int, r: int) returns (pos: int)
    requires 0 <= l < r < e.Length
    requires forall k :: l <= k <= r ==> e[k].Int?
    modifies e
    ensures l <= pos <= r && e[r] == old(e[r])
    ensures forall k :: l <= k <= r ==> e[k].Int?
    ensures forall k :: l <= k < pos ==> e[k].i < e[r].i
    ensures forall k :: pos <= k <= r ==> e[r].i <= e[k].i
    ensures multiset(e[..]) == multiset(old(e[..]))
    ensures forall k :: 0 <= k < e.Length && !(l <= k <= r) ==> e[k] == old(e[k])
  {
    var pivot := e[r];
    pos := l;
    var i := l;
    while i <= r
      invariant l <= pos <= i <= r + 1 && e[r] == pivot
      invariant forall k :: l <= k <= r ==> e[k].Int?
      invariant forall k :: l <= k < pos ==> e[k].i < pivot.i
      invariant forall k :: pos <= k < i ==> pivot.i <= e[k].i
      invariant multiset(e[..]) == multiset(old(e[..]))
      invariant forall k :: 0 <= k < e.Length && !(l <= k <= r) ==> e[k] == old(e[k])
    {
      if e[i].i < pivot.i {
        Swap(e, i, pos);
        pos := pos + 1;
      }
      i := i + 1;
    }
  }

  /** Every item in positions `lo..hi` of `s` is an integer (a range of at most one item needs no check). */
  predicate IntsIn(s: seq<Value>, lo: int, hi: int)
    requires 0 <= lo && hi < |s|
  {
    forall k :: lo <= k <= hi ==> s[k].Int?
  }

  /** Reordering positions `lo..hi-1` keeps every bound that held for all of them. */
  lemma {:induction false} BoundsSurviveSort(s: seq<Value>, t: seq<Value>, lo: int, hi: int, p: int)
    requires 0 <= lo <= hi <= |s| == |t|
    requires multiset(t) == multiset(s) && t[..lo] == s[..lo] && t[hi..] == s[hi..]
    ensures (forall k :: lo <= k < hi ==> s[k].Int? && s[k].i < p) ==> Below(t[lo..hi], p)
    ensures (forall k :: lo <= k < hi ==> s[k].Int? && p <= s[k].i) ==> AtLeast(t[lo..hi], p)
  {
    PermutedRange(t, s, lo, hi);
    forall v | v in s[lo..hi]
      ensures exists k :: lo <= k < hi && s[k] == v
    {
      var k :| 0 <= k < hi - lo && s[lo..hi][k] == v;
      assert s[lo + k] == v;
    }
    BoundsCarry(s[lo..hi], t[lo..hi], p);
  }

  /**
   * After partitioning `s0` around position `pos`, sorting `l..pos-1` (giving
   * `s1`) and then `pos+1..r` (giving `s2`) leaves `l..r` sorted.
   */
  lemma {:induction false} SortedAfterRecursion(s0: seq<Value>, s1: seq<Value>, s2: seq<Value>, l: int, pos: int, r: int)
    requires 0 <= l <= pos <= r < |s0| == |s1| == |s2|
    requires s0[pos].Int?
    requires forall k :: l <= k < pos ==> s0[k].Int? && s0[k].i < s0[pos].i
    requires forall k :: pos < k <= r ==> s0[k].Int? && s0[pos].i <= s0[k].i
    requires multiset(s1) == multiset(s0) && SortedInts(s1[l..pos])
    requires forall k :: 0 <= k < |s1| && !(l <= k <= pos - 1) ==> s1[k] == s0[k]
    requires multiset(s2) == multiset(s1) && SortedInts(s2[pos + 1..r + 1])
    requires forall k :: 0 <= k < |s2| && !(pos + 1 <= k <= r) ==> s2[k] == s1[k]
    ensures SortedInts(s2[l..r + 1])
  {
    var p := s0[pos].i;
    assert Below(s1[l..pos], p) by {
      assert s1[..l] == s0[..l] && s1[pos..] == s0[pos..];
      BoundsSurviveSort(s0, s1, l, pos, p);
    }
    assert AtLeast(s2[pos + 1..r + 1], p) by {
      assert s2[..pos + 1] == s1[..pos + 1] && s2[r + 1..] == s1[r + 1..];
      assert forall k :: pos < k <= r ==> s1[k] == s0[k];
      BoundsSurviveSort(s1, s2, pos + 1, r + 1, p);
    }
    assert s2[l..pos] == s1[l..pos] && s2[pos] == s0[pos];
    assert s2[l..r + 1] == s2[l..pos] + [s2[pos]] + s2[pos + 1..r + 1];
    SortedAroundPivot(s2[l..pos], s2[pos], s2[pos + 1..r + 1]);
  }

  /** A range of integers stays a range of integers when it is reordered. */
  lemma {:induction false} IntsInPermuted(s: seq<Value>, t: seq<Value>, lo: int, hi: int)
    requires 0 <= lo && hi < |s| == |t| && lo <= hi + 1
    requires multiset(s) == multiset(t) && IntsIn(s, lo, hi)
    requires forall k :: 0 <= k < |t| && !(lo <= k <= hi) ==> t[k] == s[k]
    ensures IntsIn(t, lo, hi)
  {
    assert t[..lo] == s[..lo] && t[hi + 1..] == s[hi + 1..];
    PermutedRange(t, s, lo, hi + 1);
    forall k | lo <= k <= hi
      ensures t[k].Int?
    {
      assert t[k] == t[lo..hi + 1][k - lo];
      assert t[k] in multiset(s[lo..hi + 1]);
      var j :| 0 <= j < hi + 1 - lo && s[lo..hi + 1][j] == t[k];
      assert s[lo + j] == t[k];
    }
  }

  /**
   * `quicksort` over positions `l..r` of a backing store. The source checks
   * only the store's first element for being an integer; the other elements
   * of the range must then be integers too (Go would panic on a failed type
   * assertion). The recursive calls cannot fail, since the first element is
   * an integer by then, so the source's checks of their results are dropped.
   */
  method Quicksort(e: array<Value>, l: int, r: int) returns (err: Value)
    requires 0 <= l <= r + 1 <= e.Length
    requires r - l >= 1 ==> e[0] != Nil && (e[0].Int? ==> IntsIn(e[..], l, r))
    modifies e
    ensures err == Nil || err == Err(SortMsg)
    ensures err != Nil <==> r - l >= 1 && !old(e[0]).Int?
    ensures err != Nil ==> e[..] == old(e[..])
    ensures err == Nil ==> SortedInts(e[l..r + 1])
    ensures multiset(e[..]) == multiset(old(e[..]))
    ensures forall k :: 0 <= k < e.Length && !(l <= k <= r) ==> e[k] == old(e[k])
    decreases r - l
  {
    if r - l + 1 <= 1 {
      return Nil;
    }
    if !e[0].Int? {
      return Err(SortMsg);
    }
    var pos := Partition(e, l, r);
    ghost var s0 := e[..];
    assert IntsIn(s0, l, r);
    err := Quicksort(e, l, pos - 1);
    ghost var s1 := e[..];
    IntsInPermuted(s0, s1, l, r);
    err := Quicksort(e, pos + 1, r);
    SortedAfterRecursion(s0, s1, e[..], l, pos, r);
  }

  /** `sort`: sorts an integer array in place; an array whose first element is no integer is left as it is. */
  method Sort(args: seq<Value>) returns (r: Value)
    requires |args| == 1 ==> args[0].Arr? && args[0].arr.Valid()
    requires |args| == 1 ==>
      var a := args[0].arr;
      a.len >= 2 ==> a.elements[0] != Nil && (a.elements[0].Int? ==> IntsIn(a.elements[..], 0, a.len - 1))
    modifies if |args| == 1 && args[0].Arr? then {args[0].arr.elements} else {}
    ensures |args| != 1 ==> r == Err(SpacedArityMsg(|args|))
    ensures |args| == 1 ==>
      var a := args[0].arr;
      r == args[0] && a.Valid() &&
      multiset(a.Contents()) == multiset(old(a.Contents())) &&
      (a.len < 2 || old(a.elements[0]).Int? ==> SortedInts(a.Contents())) &&
      (a.len >= 2 && !old(a.elements[0]).Int? ==> a.Contents() == old(a.Contents())) &&
      forall k :: a.len <= k < a.capacity ==> a.elements[k] == old(a.elements[k])
  {
    if |args| != 1 {
      return Err(SpacedArityMsg(|args|));
    }
    var a := args[0].arr;
    ghost var before := a.elements[..];
    var _ := Quicksort(a.elements, 0, a.len - 1);
    PermutedRange(a.elements[..], before, 0, a.len);
    return args[0];
  }
}
