/**
  The grouping operators `partition` (fixed-size chunks) and `partitionBy`
  (runs of equal key). Each output value is a group; both close after
  flushing a last non-empty group when their input closes.
 */
module Grouping {
  import opened Seqs

  // ---------------------------------------------------------------------
  // partition
  // ---------------------------------------------------------------------

  /** `g` cuts `s` into non-empty chunks of exactly `n`, except that the last
      chunk may be shorter. */
  ghost predicate IsChunking<T>(n: nat, g: seq<seq<T>>, s: seq<T>)
  {
    && Flatten(g) == s
    && (forall i :: 0 <= i < |g| ==> 0 < |g[i]| <= n)
    && (forall i :: 0 <= i < |g| - 1 ==> |g[i]| == n)
  }

  lemma FlattenCons<T>(a: seq<T>, g: seq<seq<T>>)
    ensures Flatten([a] + g) == a + Flatten(g)
  {
    assert ([a] + g)[1..] == g;
  }

  /** `partition(n, ch)`: chunks of `n` values; when the input closes, a
      shorter final chunk is emitted if it is non-empty, and nothing
      otherwise. */
  function Partition<T>(n: nat, s: seq<T>): (r: seq<seq<T>>)
    requires n > 0
    ensures IsChunking(n, r, s)
    decreases |s|
  {
    if s == [] then []
    else if |s| <= n then
      FlattenCons(s, []);
      [s]
    else
      var rest := Partition(n, s[n..]);
      FlattenCons(s[..n], rest);
      assert s[..n] + s[n..] == s;
      [s[..n]] + rest
  }

  /** The chunking is unique: any cut of `s` into chunks of `n` with only the
      last one shorter is the one `partition` produces. */
  lemma {:induction false} PartitionUnique<T>(n: nat, g: seq<seq<T>>, s: seq<T>)
    requires n > 0
    requires IsChunking(n, g, s)
    ensures g == Partition(n, s)
    decreases |g|
  {
    if g != [] {
      FlattenCons(g[0], g[1..]);
      assert [g[0]] + g[1..] == g;
      if |g| == 1 {
        assert Flatten(g[1..]) == [];
        assert s == g[0];
      } else {
        assert |g[0]| == n;
        FlattenCons(g[1], g[2..]);
        assert [g[1]] + g[2..] == g[1..];
        assert |Flatten(g[1..])| > 0;
        assert s[..n] == g[0] && s[n..] == Flatten(g[1..]);
        PartitionUnique(n, g[1..], s[n..]);
      }
    }
  }

  // ---------------------------------------------------------------------
  // partitionBy
  // ---------------------------------------------------------------------

  /** All elements of `g` have the same key. */
  ghost predicate KeyConstant<T, K>(key: T -> K, g: seq<T>)
  {
    forall i :: 0 <= i < |g| ==> key(g[i]) == key(g[0])
  }

  /** `g` cuts `s` into non-empty, key-constant groups, neighbouring groups
      having different keys: the runs of `s` by key. */
  ghost predicate IsKeyRuns<T, K>(key: T -> K, g: seq<seq<T>>, s: seq<T>)
  {
    && Flatten(g) == s
    && (forall i :: 0 <= i < |g| ==> g[i] != [] && KeyConstant(key, g[i]))
    && (forall i :: 0 < i < |g| ==> key(g[i - 1][0]) != key(g[i][0]))
  }

  /** The process of `partitionBy` holding the open group `part`: a value
      whose key equals the key of the last value joins the group, any other
      value emits the group and opens a new one; at the end of the input a
      non-empty open group is emitted. */
  function PartitionByFrom<T, K(==)>(key: T -> K, part: seq<T>, s: seq<T>): (r: seq<seq<T>>)
    requires KeyConstant(key, part)
    ensures IsKeyRuns(key, r, part + s)
    ensures part != [] ==> r != [] && |part| <= |r[0]| && r[0][..|part|] == part
    decreases |s|
  {
    if s == [] then
      if part == [] then [] else FlattenCons(part, []); [part]
    else if part == [] || key(s[0]) == key(part[|part| - 1]) then
      var r := PartitionByFrom(key, part + [s[0]], s[1..]);
      assert (part + [s[0]]) + s[1..] == part + s;
      assert part != [] ==> r[0][..|part|] == (r[0][..|part| + 1])[..|part|];
      r
    else
      var rest := PartitionByFrom(key, [s[0]], s[1..]);
      FlattenCons(part, rest);
      assert [s[0]] + s[1..] == s;
      assert rest[0][0] == rest[0][..1][0];
      [part] + rest
  }

  /** `partitionBy(keyFn, ch)`: a new group whenever the key changes. */
  function PartitionBy<T, K(==)>(key: T -> K, s: seq<T>): (r: seq<seq<T>>)
    ensures IsKeyRuns(key, r, s)
  {
    assert [] + s == s;
    PartitionByFrom(key, [], s)
  }

  /** The grouping into key runs is unique: any cut of the input into
      non-empty key-constant groups whose neighbours differ in key is the one
      `partitionBy` produces. */
  lemma PartitionByUnique<T, K>(key: T -> K, g: seq<seq<T>>, s: seq<T>)
    requires IsKeyRuns(key, g, s)
    ensures g == PartitionBy(key, s)
  {
    assert [] + s == s;
    PartitionByFromUnique(key, [], s, g);
  }

  lemma {:induction false} PartitionByFromUnique<T, K>(key: T -> K, part: seq<T>, s: seq<T>, g: seq<seq<T>>)
    requires KeyConstant(key, part)
    requires IsKeyRuns(key, g, part + s)
    requires g != [] ==> |part| <= |g[0]|
    ensures g == PartitionByFrom(key, part, s)
    decreases |s|
  {
    var w := part + s;
    if g == [] {
      assert part == [] && s == [];
    } else {
      var first, more := g[0], g[1..];
      FlattenCons(first, more);
      assert [first] + more == g;
      assert w == first + Flatten(more);
      assert forall i :: 0 <= i < |first| ==> first[i] == w[i];
      assert forall i :: 0 <= i < |part| ==> part[i] == w[i];
      if s == [] {
        assert first == part;
        assert Flatten(more) == [];
        FlattenIsEmpty(more);
      } else {
        var y := s[0];
        assert w[|part|] == y;
        assert (part + [y]) + s[1..] == w;
        if part == [] || key(y) == key(part[|part| - 1]) {
          assert KeyConstant(key, part + [y]) by {
            if part != [] {
              assert key(part[|part| - 1]) == key(part[0]);
            }
          }
          PartitionByFromUnique(key, part + [y], s[1..], g);
        } else {
          assert first == part;
          assert Flatten(more) == w[|part|..] == s;
          assert more != [];
          assert IsKeyRuns(key, more, [y] + s[1..]) by {
            assert [y] + s[1..] == s;
            forall i | 0 < i < |more|
              ensures key(more[i - 1][0]) != key(more[i][0])
            {
              assert more[i - 1] == g[i] && more[i] == g[i + 1];
            }
          }
          PartitionByFromUnique(key, [y], s[1..], more);
        }
      }
    }
  }

  /** A sequence of non-empty groups flattens to nothing only if it is empty. */
  lemma FlattenIsEmpty<T>(g: seq<seq<T>>)
    requires Flatten(g) == []
    requires forall i :: 0 <= i < |g| ==> g[i] != []
    ensures g == []
  {
  }
}
