/**
  The small value-level helpers that the operator tests feed to the operators:
  `inc`, `even`, the variadic `sum`, `range` and `typeOf`.
  JavaScript numbers are modelled as unbounded integers; the dynamically typed
  values used by the `typeOf` tests are modelled by the `JsValue` datatype.
 */
module TestHelpers {

  /** `inc(x)`: the successor. */
  function Inc(x: int): int
  {
    x + 1
  }

  /**
    JavaScript's `x % 2`: the remainder of truncating division by two, whose
    sign follows the dividend (Dafny's own `%` is Euclidean and never negative,
    whereas `-3 % 2` is `-1` in JavaScript).
   */
  function JsRem2(x: int): (r: int)
    ensures -1 <= r <= 1
    ensures x >= 0 ==> r >= 0
    ensures x < 0 ==> r <= 0
    ensures (x - r) % 2 == 0
  {
    if x >= 0 then x % 2 else -((-x) % 2)
  }

  /** `even(x)`: `x % 2 === 0` with the JavaScript remainder. */
  predicate Even(x: int)
  {
    JsRem2(x) == 0
  }

  /** The truncating remainder agrees with the mathematical notion of parity,
      also for negative numbers. */
  lemma EvenIsParity(x: int)
    ensures Even(x) <==> exists k: int :: x == 2 * k
  {
    if Even(x) {
      assert x == 2 * (x / 2);
    } else {
      forall k: int
        ensures x != 2 * k
      {
        assert (2 * k) % 2 == 0;
      }
    }
  }

  /** The sum of a sequence of numbers, as a reference definition. */
  function Sum(xs: seq<int>): int
  {
    if xs == [] then 0 else xs[0] + Sum(xs[1..])
  }

  /** Summing a sequence one element at a time from the left, as the loop of
      `sum` does, agrees with `Sum`. */
  lemma {:induction false} SumSnoc(xs: seq<int>, x: int)
    ensures Sum(xs + [x]) == Sum(xs) + x
  {
    if xs == [] {
      assert xs + [x] == [x];
    } else {
      assert (xs + [x])[1..] == xs[1..] + [x];
      SumSnoc(xs[1..], x);
    }
  }

  /** Sum distributes over concatenation. */
  lemma {:induction false} SumAppend(xs: seq<int>, ys: seq<int>)
    ensures Sum(xs + ys) == Sum(xs) + Sum(ys)
  {
    if xs == [] {
      assert xs + ys == ys;
    } else {
      assert (xs + ys)[1..] == xs[1..] + ys;
      SumAppend(xs[1..], ys);
    }
  }

  /** `sum(...args)`: the variadic test helper, with its accumulating loop. */
  method SumArgs(args: seq<int>) returns (s: int)
    ensures s == Sum(args)
  {
    s := 0;
    var i := 0;
    while i < |args|
      invariant 0 <= i <= |args|
      invariant s == Sum(args[..i])
    {
      assert args[..i + 1] == args[..i] + [args[i]];
      SumSnoc(args[..i], args[i]);
      s := s + args[i];
      i := i + 1;
    }
    assert args[..i] == args;
  }

  /** `range(n)`: the numbers `0, 1, ..., n - 1` in ascending order. */
  function Range(n: nat): (r: seq<int>)
    ensures |r| == n
    ensures forall i :: 0 <= i < n ==> r[i] == i
  {
    if n == 0 then [] else Range(n - 1) + [n - 1]
  }

  /** `range(n)` as the test writes it: allocate an array of length `n` and
      store each index in its own slot. */
  method RangeArray(n: nat) returns (r: seq<int>)
    ensures r == Range(n)
  {
    var a := new int[n];
    var i := 0;
    while i < n
      invariant 0 <= i <= n
      invariant forall j :: 0 <= j < i ==> a[j] == j
    {
      a[i] := i;
      i := i + 1;
    }
    r := a[..];
  }

  /** The dynamically typed values that appear in the `typeOf` tests. */
  datatype JsValue = Str(s: string) | Num(n: int) | Bool(b: bool) | Undefined

  /** `typeOf(x)`: JavaScript's `typeof`, restricted to the values above. */
  function TypeOf(v: JsValue): string
  {
    match v
    case Str(_) => "string"
    case Num(_) => "number"
    case Bool(_) => "boolean"
    case Undefined => "undefined"
  }

  /** Two values have the same `typeof` exactly when they are built by the same
      constructor, so grouping by `TypeOf` groups by kind of value. */
  lemma TypeOfSeparatesKinds(a: JsValue, b: JsValue)
    ensures TypeOf(a) == TypeOf(b) <==>
      (a.Str? && b.Str?) || (a.Num? && b.Num?) || (a.Bool? && b.Bool?) || (a.Undefined? && b.Undefined?)
  {
  }
}
