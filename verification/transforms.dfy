/**
  The single-stage transforms, on the finite sequence a channel delivers before
  it closes. Each `...From` operator (which allocates its output channel) and
  its `...Into` twin (which writes into a channel the caller supplies) deliver
  the same stream, so each pair is one function here:
  `mapFrom`/`mapInto`, `filterFrom`/`filterInto`, `removeFrom`/`removeInto`,
  `mapcatFrom`/`mapcatInto`; plus `split` and `reduce`.
 */
module Transforms {
  import opened Seqs
  import opened TestHelpers

  /** `mapFrom(f, ch)` / `mapInto(f, ch)`: the element-wise image. */
  function Map<T, U>(f: T -> U, s: seq<T>): (r: seq<U>)
    ensures |r| == |s|
    ensures forall i :: 0 <= i < |s| ==> r[i] == f(s[i])
  {
    if s == [] then [] else [f(s[0])] + Map(f, s[1..])
  }

  /** `filterFrom(p, ch)` / `filterInto(p, ch)`: the elements satisfying `p`,
      in their original order. */
  function Filter<T>(p: T -> bool, s: seq<T>): (r: seq<T>)
    ensures forall i :: 0 <= i < |r| ==> p(r[i])
    ensures |r| <= |s|
  {
    if s == [] then []
    else
      (if p(s[0]) then [s[0]] else []) + Filter(p, s[1..])
  }

  /** The complement of a predicate. */
  function Not<T>(p: T -> bool): T -> bool
  {
    x => !p(x)
  }

  lemma NotMeans<T>(p: T -> bool, x: T)
    ensures Not(p)(x) == !p(x)
  {
  }

  /** `removeFrom(p, ch)` / `removeInto(p, ch)`: filtering by the complement,
      so exactly the elements for which `p` is false survive. */
  function Remove<T>(p: T -> bool, s: seq<T>): (r: seq<T>)
    ensures forall i :: 0 <= i < |r| ==> !p(r[i])
    ensures |r| <= |s|
  {
    Filter(Not(p), s)
  }

  /** `split(p, ch)`: the pair of streams `[true-channel, false-channel]`. */
  function Split<T>(p: T -> bool, s: seq<T>): (r: (seq<T>, seq<T>))
    ensures forall i :: 0 <= i < |r.0| ==> p(r.0[i])
    ensures forall i :: 0 <= i < |r.1| ==> !p(r.1[i])
  {
    (Filter(p, s), Remove(p, s))
  }

  /** Interleaves `a` and `b`, taking the next element of `a` where `mask` is
      true and the next element of `b` where it is false. */
  function Weave<T>(mask: seq<bool>, a: seq<T>, b: seq<T>): seq<T>
    decreases |mask|
  {
    if mask == [] then []
    else if mask[0] then (if a == [] then [] else [a[0]] + Weave(mask[1..], a[1..], b))
    else (if b == [] then [] else [b[0]] + Weave(mask[1..], a, b[1..]))
  }

  lemma MapTail<T, U>(f: T -> U, s: seq<T>)
    requires s != []
    ensures Map(f, s) == [f(s[0])] + Map(f, s[1..])
  {
  }

  lemma FilterCons<T>(p: T -> bool, s: seq<T>)
    requires s != []
    ensures p(s[0]) ==> Filter(p, s) == [s[0]] + Filter(p, s[1..])
    ensures !p(s[0]) ==> Filter(p, s) == Filter(p, s[1..])
    ensures p(s[0]) ==> Remove(p, s) == Remove(p, s[1..])
    ensures !p(s[0]) ==> Remove(p, s) == [s[0]] + Remove(p, s[1..])
  {
  }

  /** Nothing survives a filter that every element fails. */
  lemma {:induction false} FilterNone<T>(p: T -> bool, s: seq<T>)
    requires forall i :: 0 <= i < |s| ==> !p(s[i])
    ensures Filter(p, s) == []
  {
    if s != [] {
      FilterNone(p, s[1..]);
    }
  }

  /** Everything survives a filter that every element passes. */
  lemma {:induction false} FilterAll<T>(p: T -> bool, s: seq<T>)
    requires forall i :: 0 <= i < |s| ==> p(s[i])
    ensures Filter(p, s) == s
  {
    if s != [] {
      FilterAll(p, s[1..]);
      assert [s[0]] + s[1..] == s;
    }
  }

  /** `filter` keeps exactly the elements satisfying the predicate, and
      `remove` exactly the others. */
  lemma {:induction false} FilterMembership<T>(p: T -> bool, s: seq<T>, x: T)
    ensures x in Filter(p, s) <==> x in s && p(x)
    ensures x in Remove(p, s) <==> x in s && !p(x)
  {
    if s != [] {
      FilterMembership(p, s[1..], x);
      FilterCons(p, s);
      assert s == [s[0]] + s[1..];
    }
  }

  /** `split` loses and duplicates nothing: the two outputs together hold
      every input element exactly as often as the input does. */
  lemma {:induction false} SplitKeepsEverything<T>(p: T -> bool, s: seq<T>)
    ensures multiset(Filter(p, s)) + multiset(Remove(p, s)) == multiset(s)
  {
    if s != [] {
      var t, f := Filter(p, s[1..]), Remove(p, s[1..]);
      SplitKeepsEverything(p, s[1..]);
      FilterCons(p, s);
      MultisetCons(s);
      if p(s[0]) {
        assert multiset(Filter(p, s)) == multiset{s[0]} + multiset(t);
        assert multiset(Remove(p, s)) == multiset(f);
      } else {
        assert multiset(Filter(p, s)) == multiset(t);
        assert multiset(Remove(p, s)) == multiset{s[0]} + multiset(f);
      }
    }
  }

  /** `split` is stable: interleaving its two outputs as the predicate
      dictates rebuilds the input, so each output keeps the input order. */
  lemma {:induction false} SplitIsStable<T>(p: T -> bool, s: seq<T>)
    ensures Weave(Map(p, s), Filter(p, s), Remove(p, s)) == s
  {
    if s != [] {
      var x, tl := s[0], s[1..];
      var mask, yes, no := Map(p, s), Filter(p, tl), Remove(p, tl);
      SplitIsStable(p, tl);
      MapTail(p, s);
      FilterCons(p, s);
      assert mask[0] == p(x) && mask[1..] == Map(p, tl);
      if p(x) {
        assert Weave(mask, [x] + yes, no) == [x] + Weave(mask[1..], yes, no);
      } else {
        assert Weave(mask, yes, [x] + no) == [x] + Weave(mask[1..], yes, no);
      }
      assert [x] + tl == s;
    }
  }

  /** Filtering distributes over concatenation: it is a stage that looks at one
      element at a time. */
  lemma {:induction false} FilterAppend<T>(p: T -> bool, a: seq<T>, b: seq<T>)
    ensures Filter(p, a + b) == Filter(p, a) + Filter(p, b)
  {
    if a != [] {
      assert (a + b)[0] == a[0];
      assert (a + b)[1..] == a[1..] + b;
      FilterAppend(p, a[1..], b);
    } else {
      assert a + b == b;
    }
  }

  /** `mapcatFrom(f, ch)` / `mapcatInto(f, ch)`: the in-order concatenation of
      `f(x)` over the stream (flattening one level). */
  function Mapcat<T, U>(f: T -> seq<U>, s: seq<T>): (r: seq<U>)
    ensures r == Flatten(Map(f, s))
  {
    if s == [] then []
    else
      MapTail(f, s);
      f(s[0]) + Mapcat(f, s[1..])
  }

  /** `map` distributes over concatenation. */
  lemma MapAppend<T, U>(f: T -> U, a: seq<T>, b: seq<T>)
    ensures Map(f, a + b) == Map(f, a) + Map(f, b)
  {
    var l, r := Map(f, a + b), Map(f, a) + Map(f, b);
    assert |l| == |r|;
    forall i | 0 <= i < |l|
      ensures l[i] == r[i]
    {
      if i < |a| {
        assert (a + b)[i] == a[i];
      } else {
        assert (a + b)[i] == b[i - |a|];
      }
    }
  }

  /** `mapcat` distributes over concatenation. */
  lemma MapcatAppend<T, U>(f: T -> seq<U>, a: seq<T>, b: seq<T>)
    ensures Mapcat(f, a + b) == Mapcat(f, a) + Mapcat(f, b)
  {
    MapAppend(f, a, b);
    FlattenAppend(Map(f, a), Map(f, b));
  }

  /** `map` and `filter` are the special cases of `mapcat` whose image of each
      element has length one, respectively at most one. */
  lemma {:induction false} MapAndFilterAreMapcat<T, U>(f: T -> U, p: T -> bool, s: seq<T>)
    ensures Map(f, s) == Mapcat(x => [f(x)], s)
    ensures Filter(p, s) == Mapcat(x => if p(x) then [x] else [], s)
  {
    if s != [] {
      MapAndFilterAreMapcat(f, p, s[1..]);
      MapTail(f, s);
    }
  }

  /** With `range` as the image, the output length is the sum of the inputs. */
  lemma {:induction false} MapcatRangeLength(s: seq<nat>)
    ensures |Mapcat(Range, s)| == Sum(s)
  {
    if s != [] {
      MapcatRangeLength(s[1..]);
    }
  }

  /** `reduce(f, init, ch)`: the left fold, delivered as the one value of the
      output channel once the input closes. */
  function Reduce<A, T>(f: (A, T) -> A, init: A, s: seq<T>): A
  {
    if s == [] then init else Reduce(f, f(init, s[0]), s[1..])
  }

  /** Folding a concatenation folds the second part starting from the fold of
      the first. */
  lemma {:induction false} ReduceAppend<A, T>(f: (A, T) -> A, init: A, a: seq<T>, b: seq<T>)
    ensures Reduce(f, init, a + b) == Reduce(f, Reduce(f, init, a), b)
  {
    if a != [] {
      assert (a + b)[0] == a[0];
      assert (a + b)[1..] == a[1..] + b;
      ReduceAppend(f, f(init, a[0]), a[1..], b);
    } else {
      assert a + b == b;
    }
  }

  /** The fold is a left fold: its last step combines the fold of all but the
      last element with that last element. */
  lemma ReduceLastStep<A, T>(f: (A, T) -> A, init: A, s: seq<T>)
    requires s != []
    ensures Reduce(f, init, s) == f(Reduce(f, init, s[..|s| - 1]), s[|s| - 1])
  {
    assert s == s[..|s| - 1] + [s[|s| - 1]];
    ReduceAppend(f, init, s[..|s| - 1], [s[|s| - 1]]);
  }

  /** Reducing with `+` from `acc` adds the sum of the stream to `acc`. */
  lemma {:induction false} ReduceAddIsSum(acc: int, s: seq<int>)
    ensures Reduce((x: int, y: int) => x + y, acc, s) == acc + Sum(s)
    decreases s
  {
    if s != [] {
      ReduceAddIsSum(acc + s[0], s[1..]);
    }
  }
}
