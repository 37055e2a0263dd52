/**
  Stream combinators with state across elements: the n-ary `map` (a lockstep
  zip over several inputs), `take` and `unique`.
 */
module Combinators {
  import Options
  import Channels

  // ---------------------------------------------------------------------
  // n-ary map
  // ---------------------------------------------------------------------

  /** The length of the shortest input (zero when there are no inputs). */
  function MinLen<T>(chs: seq<seq<T>>): (m: nat)
    ensures forall j :: 0 <= j < |chs| ==> m <= |chs[j]|
    ensures |chs| > 0 ==> exists j :: 0 <= j < |chs| && m == |chs[j]|
  {
    if |chs| == 0 then 0
    else if |chs| == 1 then |chs[0]|
    else
      var rest := MinLen(chs[1..]);
      assert forall j :: 1 <= j < |chs| ==> chs[j] == chs[1..][j - 1];
      if |chs[0]| <= rest then |chs[0]| else rest
  }

  /** The values at position `i` of every input, in input order: the
      arguments of one call of the mapped function. */
  function Column<T>(chs: seq<seq<T>>, i: nat): (c: seq<T>)
    requires forall j :: 0 <= j < |chs| ==> i < |chs[j]|
    ensures |c| == |chs|
    ensures forall j :: 0 <= j < |chs| ==> c[j] == chs[j][i]
  {
    seq(|chs|, j requires 0 <= j < |chs| => chs[j][i])
  }

  /** Every input with its first value taken. */
  function Tails<T>(chs: seq<seq<T>>): (t: seq<seq<T>>)
    requires forall j :: 0 <= j < |chs| ==> chs[j] != []
    ensures |t| == |chs|
    ensures forall j :: 0 <= j < |chs| ==> t[j] == chs[j][1..]
  {
    seq(|chs|, j requires 0 <= j < |chs| => chs[j][1..])
  }

  lemma {:induction false} MinLenTails<T>(chs: seq<seq<T>>)
    requires |chs| > 0
    requires forall j :: 0 <= j < |chs| ==> chs[j] != []
    ensures MinLen(Tails(chs)) == MinLen(chs) - 1
  {
    var m := MinLen(chs);
    var mt := MinLen(Tails(chs));
    var j :| 0 <= j < |chs| && m == |chs[j]|;
    var k :| 0 <= k < |chs| && mt == |Tails(chs)[k]|;
    assert mt <= |Tails(chs)[j]| == m - 1;
    assert m <= |chs[k]| == mt + 1;
  }

  lemma ColumnOfTails<T>(chs: seq<seq<T>>, i: nat)
    requires 0 < i && forall j :: 0 <= j < |chs| ==> i < |chs[j]|
    ensures Column(Tails(chs), i - 1) == Column(chs, i)
  {
    var a, b := Column(Tails(chs), i - 1), Column(chs, i);
    assert forall j :: 0 <= j < |chs| ==> a[j] == chs[j][1..][i - 1] == b[j];
  }

  /** `map(f, chs)`: in lockstep, take one value from every input and emit
      `f` applied to them; stop as soon as any input yields `CLOSED`. The
      output has the length of the shortest input, and its `i`-th value is `f`
      of the `i`-th values of all inputs. */
  function MapN<T, U>(f: seq<T> -> U, chs: seq<seq<T>>): (r: seq<U>)
    ensures |r| == MinLen(chs)
    ensures forall i :: 0 <= i < |r| ==> r[i] == f(Column(chs, i))
    decreases if |chs| == 0 then 0 else |chs[0]|
  {
    if |chs| == 0 then []
    else if exists j :: 0 <= j < |chs| && chs[j] == [] then
      assert MinLen(chs) == 0 by {
        var j :| 0 <= j < |chs| && chs[j] == [];
      }
      []
    else
      var rest := MapN(f, Tails(chs));
      MapNCons(f, chs, rest);
      [f(Column(chs, 0))] + rest
  }

  /** One lockstep round of `map`: the first output value, followed by the
      output for the inputs with their heads taken. */
  lemma MapNCons<T, U>(f: seq<T> -> U, chs: seq<seq<T>>, rest: seq<U>)
    requires |chs| > 0 && forall j :: 0 <= j < |chs| ==> chs[j] != []
    requires |rest| == MinLen(Tails(chs))
    requires forall i :: 0 <= i < |rest| ==> rest[i] == f(Column(Tails(chs), i))
    ensures |[f(Column(chs, 0))] + rest| == MinLen(chs)
    ensures forall i :: 0 <= i < MinLen(chs) ==> ([f(Column(chs, 0))] + rest)[i] == f(Column(chs, i))
  {
    MinLenTails(chs);
    var r := [f(Column(chs, 0))] + rest;
    forall i | 0 < i < MinLen(chs)
      ensures r[i] == f(Column(chs, i))
    {
      ColumnOfTails(chs, i);
      assert r[i] == rest[i - 1];
    }
  }

  // ---------------------------------------------------------------------
  // take
  // ---------------------------------------------------------------------

  /** `take(n, ch)`: at most the first `n` values (none when `n` is not
      positive), and simply fewer when the input ends first. */
  function Take<T>(n: int, s: seq<T>): (r: seq<T>)
    ensures |r| == if n <= 0 then 0 else if n < |s| then n else |s|
    ensures r == s[..|r|]
  {
    if n <= 0 || s == [] then [] else [s[0]] + Take(n - 1, s[1..])
  }

  /** Taking `m` from the first `n` is taking the smaller number. */
  lemma TakeTake<T>(m: int, n: int, s: seq<T>)
    ensures Take(m, Take(n, s)) == Take(if m < n then m else n, s)
  {
  }

  /** The output channel of `take(n, src)` once its process has consumed what
      `src` holds: it closes after `n` values even if `src` is still open. */
  function TakeChan<T>(n: int, src: Channels.Chan<T>): Channels.Chan<T>
  {
    if n <= |src.queued| then Channels.Chan(Take(n, src.queued), true)
    else Channels.Chan(src.queued, src.closed)
  }

  /** Draining `take(n, src)` completes, with the first `n` values, exactly
      when `src` is closed or already holds `n` values; no failure arises when
      `src` is shorter than `n`. */
  lemma TakeChanDelivers<T>(n: int, src: Channels.Chan<T>)
    ensures Channels.Into([], TakeChan(n, src)).Some? <==> src.closed || n <= |src.queued|
    ensures Channels.Into([], TakeChan(n, src)).Some? ==>
      Channels.Into([], TakeChan(n, src)).value == Take(n, src.queued)
  {
    if !(n <= |src.queued|) {
      assert Take(n, src.queued) == src.queued;
    }
  }

  // ---------------------------------------------------------------------
  // unique
  // ---------------------------------------------------------------------

  /** No two neighbouring elements are equal. */
  predicate NoAdjacentDup<T(==)>(s: seq<T>)
  {
    forall i :: 0 < i < |s| ==> s[i - 1] != s[i]
  }

  /** The process of `unique` after it has last emitted `last` (`None` stands
      for the initial `CLOSED` marker): a value is dropped exactly when it
      equals the previously emitted one. */
  function UniqueAfter<T(==)>(last: Options.Option<T>, s: seq<T>): (r: seq<T>)
    ensures NoAdjacentDup(r)
    ensures r != [] && last.Some? ==> r[0] != last.value
    ensures |r| <= |s|
    decreases |s|
  {
    if s == [] then []
    else if last == Options.Some(s[0]) then UniqueAfter(last, s[1..])
    else [s[0]] + UniqueAfter(Options.Some(s[0]), s[1..])
  }

  /** `unique(ch)`: distinct-until-changed. */
  function Unique<T(==)>(s: seq<T>): seq<T>
  {
    UniqueAfter(Options.None, s)
  }

  /** Reference definition: collapse each run of equal neighbours to one. */
  function Dedup<T(==)>(s: seq<T>): (r: seq<T>)
    ensures s != [] ==> r != [] && r[0] == s[0]
  {
    if |s| <= 1 then s
    else if s[0] == s[1] then Dedup(s[1..])
    else [s[0]] + Dedup(s[1..])
  }

  lemma {:induction false} UniqueAfterIsDedup<T>(x: T, s: seq<T>)
    ensures UniqueAfter(Options.Some(x), s) == Dedup([x] + s)[1..]
  {
    if s != [] {
      var t := s[1..];
      assert ([x] + s)[1..] == s;
      UniqueAfterIsDedup(s[0], t);
      assert [s[0]] + t == s;
      if s[0] == x {
        UniqueAfterIsDedup(x, t);
      } else {
        assert Dedup(s) == [s[0]] + Dedup(s)[1..];
      }
    }
  }

  /** The value `unique` remembers after reading `s`, having remembered `last`
      before: the last value read, whether or not it was emitted. */
  function LastSeen<T>(last: Options.Option<T>, s: seq<T>): Options.Option<T>
  {
    if s == [] then last else Options.Some(s[|s| - 1])
  }

  /** `unique` is a streaming stage: reading `a` and then `b` emits what `a`
      emits followed by what `b` emits from the remembered value. */
  lemma {:induction false} UniqueAfterAppend<T>(last: Options.Option<T>, a: seq<T>, b: seq<T>)
    ensures UniqueAfter(last, a + b) == UniqueAfter(last, a) + UniqueAfter(LastSeen(last, a), b)
    decreases |a|
  {
    if a == [] {
      assert a + b == b;
    } else {
      assert (a + b)[0] == a[0];
      assert (a + b)[1..] == a[1..] + b;
      var next := if last == Options.Some(a[0]) then last else Options.Some(a[0]);
      UniqueAfterAppend(next, a[1..], b);
      assert LastSeen(next, a[1..]) == LastSeen(last, a);
    }
  }

  /** `unique` removes exactly the consecutive repeats. */
  lemma UniqueIsDedup<T>(s: seq<T>)
    ensures Unique(s) == Dedup(s)
  {
    if s != [] {
      UniqueAfterIsDedup(s[0], s[1..]);
      assert [s[0]] + s[1..] == s;
    }
  }

  lemma {:induction false} DedupFixpoint<T>(s: seq<T>)
    requires NoAdjacentDup(s)
    ensures Dedup(s) == s
  {
    if |s| > 1 {
      assert s[0] != s[1];
      assert NoAdjacentDup(s[1..]) by {
        forall i | 0 < i < |s[1..]|
          ensures s[1..][i - 1] != s[1..][i]
        {
          assert s[1..][i - 1] == s[i] && s[1..][i] == s[i + 1];
        }
      }
      DedupFixpoint(s[1..]);
    }
  }

  /** A stream passes `unique` unchanged exactly when it has no consecutive
      repeats; in particular `unique` is idempotent. */
  lemma UniqueFixpoint<T>(s: seq<T>)
    ensures Unique(s) == s <==> NoAdjacentDup(s)
    ensures Unique(Unique(s)) == Unique(s)
  {
    UniqueIsDedup(s);
    if NoAdjacentDup(s) {
      DedupFixpoint(s);
    }
    UniqueIsDedup(Unique(s));
    DedupFixpoint(Unique(s));
  }

  /** `unique` drops repeats only: every value of the input still appears,
      and nothing else does. */
  lemma UniqueKeepsValues<T>(s: seq<T>, x: T)
    ensures x in Unique(s) <==> x in s
  {
    UniqueIsDedup(s);
    DedupKeepsValues(s, x);
  }

  lemma {:induction false} DedupKeepsValues<T>(s: seq<T>, x: T)
    ensures x in Dedup(s) <==> x in s
  {
    if |s| > 1 {
      DedupKeepsValues(s[1..], x);
      assert s == [s[0]] + s[1..];
      assert s[0] == s[1] ==> s[0] in s[1..];
    }
  }
}
