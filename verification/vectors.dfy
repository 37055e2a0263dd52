/**
  The concrete expectations of the operator tests, each proved about the
  model: one lemma per `describe` block.
 */
module TestVectors {
  import Options
  import opened TestHelpers
  import opened Seqs
  import Channels
  import opened Transforms
  import opened Combinators
  import opened Grouping
  import opened FanInOut

  /** Four takes from `fromColl([1, 2, 3, 4])` give 1, 2, 3, 4, after which the
      channel is closed. */
  lemma FromCollTest()
    ensures Channels.TakeN(Channels.FromColl([1, 2, 3, 4]), 4) == Options.Some(([1, 2, 3, 4], Channels.Chan([], true)))
  {
    Channels.FromCollDelivers([1, 2, 3, 4]);
  }

  /** `into([1, 2, 3], fromColl([4, 5, 6]))` delivers `[1, 2, 3, 4, 5, 6]`. */
  lemma IntoTest()
    ensures Channels.Into([1, 2, 3], Channels.FromColl([4, 5, 6])) == Options.Some([1, 2, 3, 4, 5, 6])
  {
    assert [1, 2, 3] + [4, 5, 6] == [1, 2, 3, 4, 5, 6];
  }

  /** `onto(chan(), [1, 2, 3, 4])` drained by `into([], ...)` gives the list back. */
  lemma OntoTest()
    ensures Channels.Into([], Channels.Onto(Channels.NewChan(), [1, 2, 3, 4], false)) == Options.Some([1, 2, 3, 4])
  {
    Channels.OntoInto([1, 2, 3, 4]);
  }

  /** `mapFrom(inc, ...)` and `mapInto(inc, ...)` over `[1, 2, 3, 4]`. */
  lemma MapTest()
    ensures Map(Inc, [1, 2, 3, 4]) == [2, 3, 4, 5]
  {
  }

  /** `filterFrom(even, ...)` and `filterInto(even, ...)` over
      `[1, 2, 3, 4, 5, 6]`. */
  lemma FilterTest()
    ensures Filter(Even, [1, 2, 3, 4, 5, 6]) == [2, 4, 6]
  {
  }

  /** `removeFrom(even, ...)` and `removeInto(even, ...)` over
      `[1, 2, 3, 4, 5, 6]`. */
  lemma RemoveTest()
    ensures Remove(Even, [1, 2, 3, 4, 5, 6]) == [1, 3, 5]
  {
    var odd := Not(Even);
    NotMeans(Even, 1);
    NotMeans(Even, 2);
    NotMeans(Even, 3);
    NotMeans(Even, 4);
    NotMeans(Even, 5);
    NotMeans(Even, 6);
    assert Filter(odd, [6]) == [];
    assert Filter(odd, [5, 6]) == [5];
    assert Filter(odd, [4, 5, 6]) == [5];
    assert Filter(odd, [3, 4, 5, 6]) == [3, 5];
    assert Filter(odd, [2, 3, 4, 5, 6]) == [3, 5];
  }

  /** `split(even, ...)` over `[1, 2, 3, 4, 5, 6]`: the even values on the
      first channel, the odd ones on the second. */
  lemma SplitTest()
    ensures Split(Even, [1, 2, 3, 4, 5, 6]) == ([2, 4, 6], [1, 3, 5])
  {
    FilterTest();
    RemoveTest();
  }

  /** `mapcatFrom(range, ...)` and `mapcatInto(range, ...)` over `[1, 2, 3, 4]`. */
  lemma MapcatTest()
    ensures Mapcat(Range, [1, 2, 3, 4]) == [0, 0, 1, 0, 1, 2, 0, 1, 2, 3]
  {
    assert Range(1) == [0];
    assert Range(2) == [0, 1];
    assert Range(3) == [0, 1, 2];
    assert Range(4) == [0, 1, 2, 3];
    MapcatAppend(Range, [1, 2], [3, 4]);
    assert [1, 2] + [3, 4] == [1, 2, 3, 4];
  }

  /** `pipe(fromColl([1, 2, 3, 4, 5]), chan())` drained by `into`. */
  lemma PipeTest()
    ensures Channels.Into([], Channels.Pipe(Channels.FromColl([1, 2, 3, 4, 5]), Channels.NewChan(), false)) ==
      Options.Some([1, 2, 3, 4, 5])
  {
    Channels.PipeForwards([1, 2, 3, 4, 5]);
  }

  /** `reduce(+, 0, fromColl([1, 2, 3, 4, 5]))` delivers 15. */
  lemma ReduceTest()
    ensures Reduce((x: int, y: int) => x + y, 0, [1, 2, 3, 4, 5]) == 15
  {
    ReduceAddIsSum(0, [1, 2, 3, 4, 5]);
  }

  /** `map(sum, [four copies of fromColl([1, 2, 3, 4, 5, 6])])`. */
  lemma MapNTest()
    ensures MapN(Sum, [[1, 2, 3, 4, 5, 6], [1, 2, 3, 4, 5, 6], [1, 2, 3, 4, 5, 6], [1, 2, 3, 4, 5, 6]]) ==
      [4, 8, 12, 16, 20, 24]
  {
    var r: seq<int> := [1, 2, 3, 4, 5, 6];
    SumOfCopies(r);
    var out := MapN(Sum, [r, r, r, r]);
    assert out[0] == 4 && out[1] == 8 && out[2] == 12 && out[3] == 16 && out[4] == 20 && out[5] == 24;
    SixValues(out, 4, 8, 12, 16, 20, 24);
  }

  /** Summing four copies of a stream position by position quadruples it. */
  lemma SumOfCopies(r: seq<int>)
    ensures |MapN(Sum, [r, r, r, r])| == |r|
    ensures forall i :: 0 <= i < |r| ==> MapN(Sum, [r, r, r, r])[i] == 4 * r[i]
  {
    var chs := [r, r, r, r];
    var out := MapN(Sum, chs);
    assert MinLen(chs) == |r| by {
      assert chs[1..] == [r, r, r] && chs[1..][1..] == [r, r] && chs[1..][1..][1..] == [r];
    }
    forall i | 0 <= i < |r|
      ensures out[i] == 4 * r[i]
    {
      SumOfColumn(r, i);
    }
  }

  lemma SixValues(s: seq<int>, a: int, b: int, c: int, d: int, e: int, f: int)
    requires |s| == 6
    requires s[0] == a && s[1] == b && s[2] == c && s[3] == d && s[4] == e && s[5] == f
    ensures s == [a, b, c, d, e, f]
  {
  }

  lemma SumOfColumn(r: seq<int>, i: nat)
    requires i < |r|
    ensures Sum(Column([r, r, r, r], i)) == 4 * r[i]
  {
    assert Column([r, r, r, r], i) == [r[i], r[i], r[i], r[i]];
    SumOfFour(r[i]);
  }

  lemma SumOfFour(x: int)
    ensures Sum([x, x, x, x]) == 4 * x
  {
    var s := [x, x, x, x];
    assert s[1..][1..][1..][1..] == [];
  }

  /** `merge` of three copies of `fromColl([1, 2, 3])`: whatever the
      interleaving, the sorted output is `[1, 1, 1, 2, 2, 2, 3, 3, 3]`. */
  lemma MergeTest(sched: seq<nat>, sorted: seq<int>)
    requires Sorted(sorted) && multiset(sorted) == multiset(Merge(sched, [[1, 2, 3], [1, 2, 3], [1, 2, 3]]))
    ensures sorted == [1, 1, 1, 2, 2, 2, 3, 3, 3]
  {
    MergeTestContents(sched);
    ThreeOfEachSorted();
    SortedUnique(sorted, [1, 1, 1, 2, 2, 2, 3, 3, 3]);
  }

  lemma MergeTestContents(sched: seq<nat>)
    ensures multiset(Merge(sched, [[1, 2, 3], [1, 2, 3], [1, 2, 3]])) == multiset([1, 1, 1, 2, 2, 2, 3, 3, 3])
  {
    var r := [1, 2, 3];
    FlattenThree(r, r, r);
    ThreeOfEach();
  }

  lemma FlattenThree<T>(a: seq<T>, b: seq<T>, c: seq<T>)
    ensures Flatten([a, b, c]) == a + b + c
  {
    var g := [a, b, c];
    assert g[1..] == [b, c] && g[1..][1..] == [c] && g[1..][1..][1..] == [];
    assert Flatten([c]) == c + Flatten([]) == c;
    assert Flatten([b, c]) == b + Flatten([c]);
    assert Flatten(g) == a + Flatten([b, c]);
  }

  lemma ThreeOfEach()
    ensures multiset([1, 1, 1, 2, 2, 2, 3, 3, 3]) == multiset([1, 2, 3] + [1, 2, 3] + [1, 2, 3])
  {
  }

  /** `take(10, ...)` of three values passes all three through, and
      `take(3, ...)` of five values stops after three. */
  lemma TakeTest()
    ensures Take(10, [1, 2, 3]) == [1, 2, 3]
    ensures Take(3, [1, 2, 3, 4, 5]) == [1, 2, 3]
  {
  }

  /** `unique` over `[1, 2, 2, 3, 4, 4, 4, 5, 6, 6, 6]`. */
  lemma UniqueTest()
    ensures Unique([1, 2, 2, 3, 4, 4, 4, 5, 6, 6, 6]) == [1, 2, 3, 4, 5, 6]
  {
    UniqueTestHead();
    UniqueTestTail();
    UniqueOfParts([1, 2, 2, 3, 4, 4, 4, 5, 6, 6, 6], [1, 2, 2, 3], [4, 4, 4, 5, 6, 6, 6]);
  }

  lemma UniqueOfParts(s: seq<int>, a: seq<int>, b: seq<int>)
    requires s == a + b
    requires UniqueAfter(Options.None, a) == [1, 2, 3] && LastSeen(Options.None, a) == Options.Some(3)
    requires UniqueAfter(Options.Some(3), b) == [4, 5, 6]
    ensures Unique(s) == [1, 2, 3, 4, 5, 6]
  {
    UniqueAfterAppend(Options.None, a, b);
  }

  lemma UniqueTestHead()
    ensures UniqueAfter(Options.None, [1, 2, 2, 3]) == [1, 2, 3]
    ensures LastSeen(Options.None, [1, 2, 2, 3]) == Options.Some(3)
  {
  }

  lemma UniqueTestTail()
    ensures UniqueAfter(Options.Some(3), [4, 4, 4, 5, 6, 6, 6]) == [4, 5, 6]
  {
    var a, b := [4, 4, 4], [5, 6, 6, 6];
    assert a + b == [4, 4, 4, 5, 6, 6, 6];
    UniqueAfterAppend(Options.Some(3), a, b);
    assert UniqueAfter(Options.Some(3), a) == [4];
    assert UniqueAfter(Options.Some(4), b) == [5, 6];
  }

  /** `partition(3, fromColl([1, 2, 3, 4, 5, 6, 7]))`. */
  lemma PartitionTest()
    ensures Partition(3, [1, 2, 3, 4, 5, 6, 7]) == [[1, 2, 3], [4, 5, 6], [7]]
  {
    var g := [[1, 2, 3], [4, 5, 6], [7]];
    assert Flatten(g) == [1, 2, 3, 4, 5, 6, 7];
    PartitionUnique(3, g, [1, 2, 3, 4, 5, 6, 7]);
  }

  /** `partitionBy(typeOf, fromColl(["a", "b", 1, 2, "c", true, undefined,
      false]))`: a new group at every change of type. */
  lemma PartitionByTest()
    ensures PartitionBy(TypeOf, [Str("a"), Str("b"), Num(1), Num(2), Str("c"), Bool(true), Undefined, Bool(false)]) ==
      [[Str("a"), Str("b")], [Num(1), Num(2)], [Str("c")], [Bool(true)], [Undefined], [Bool(false)]]
  {
    PartitionByTestRuns();
    PartitionByUnique(TypeOf, [[Str("a"), Str("b")], [Num(1), Num(2)], [Str("c")], [Bool(true)], [Undefined], [Bool(false)]],
      [Str("a"), Str("b"), Num(1), Num(2), Str("c"), Bool(true), Undefined, Bool(false)]);
  }

  lemma PartitionByTestRuns()
    ensures IsKeyRuns(TypeOf, [[Str("a"), Str("b")], [Num(1), Num(2)], [Str("c")], [Bool(true)], [Undefined], [Bool(false)]],
      [Str("a"), Str("b"), Num(1), Num(2), Str("c"), Bool(true), Undefined, Bool(false)])
  {
    var g := [[Str("a"), Str("b")], [Num(1), Num(2)], [Str("c")], [Bool(true)], [Undefined], [Bool(false)]];
    var s := [Str("a"), Str("b"), Num(1), Num(2), Str("c"), Bool(true), Undefined, Bool(false)];
    TypeNamesDiffer();
    assert Flatten(g) == s by {
      assert Flatten(g[5..]) == [Bool(false)];
      assert Flatten(g[4..]) == [Undefined] + Flatten(g[5..]);
      assert Flatten(g[3..]) == [Bool(true)] + Flatten(g[4..]);
      assert Flatten(g[2..]) == [Str("c")] + Flatten(g[3..]);
      assert Flatten(g[1..]) == [Num(1), Num(2)] + Flatten(g[2..]);
      assert Flatten(g) == [Str("a"), Str("b")] + Flatten(g[1..]);
    }
    forall i | 0 <= i < |g|
      ensures g[i] != [] && KeyConstant(TypeOf, g[i])
    {
    }
    forall i | 0 < i < |g|
      ensures TypeOf(g[i - 1][0]) != TypeOf(g[i][0])
    {
    }
  }

  /** The `typeof` names of neighbouring groups differ. */
  lemma TypeNamesDiffer()
    ensures "string" != "number" && "number" != "string" && "string" != "boolean"
    ensures "boolean" != "undefined" && "undefined" != "boolean"
  {
    assert "string"[0] != "number"[0] && "string"[0] != "boolean"[0];
    assert "boolean"[0] != "undefined"[0];
  }

  /** `mult` with taps `a` (0) and `b` (1), fed `[1, 2, 3, 4]` by `pipe`,
      which closes the source afterwards: draining either tap with `into`
      gives all four values in order. */
  lemma MultTest(t: nat)
    requires t < 2
    ensures Channels.Into([], TapChan(MultRun(Mult({0, 1}, NothingReceived(), {}),
      Map(v => Emit(v), [1, 2, 3, 4]) + [SourceClosed]), t)) == Options.Some([1, 2, 3, 4])
  {
    MultBroadcast({0, 1}, [1, 2, 3, 4], t);
  }

  /** The two inputs of the `mix` tests, admixed as `in1` (1) and `in2` (2),
      after the given toggles. */
  function MixInputs(toggles: seq<(nat, ModeUpdate)>): seq<Input<int>>
  {
    var st := Toggle(Admix(Admix(map[], 1), 2), toggles);
    assert 1 in st && 2 in st by {
      ToggleKeepsInputs(Admix(Admix(map[], 1), 2), toggles);
    }
    Attach([1, 2], st, map[1 := [1, 2, 3], 2 := [4, 5, 6]])
  }

  /** The two values `mix` reads are passed on as `Contribution` says. */
  lemma MixOutOfTwo(sched: seq<nat>, ins: seq<Input<int>>)
    requires |ins| == 2
    ensures multiset(MixOut(sched, ins)) ==
      multiset(Contribution(AnySolo(ins), ins[0]) + Contribution(AnySolo(ins), ins[1]))
  {
    var cs := seq(|ins|, i requires 0 <= i < |ins| => Contribution(AnySolo(ins), ins[i]));
    assert cs[1..][1..] == [];
    assert Flatten(cs) == cs[0] + (cs[1] + Flatten(cs[1..][1..]));
  }

  /** `mix` "should work": with both inputs admixed and no toggles, the
      sorted output is all six values, for every interleaving of the reads. */
  lemma MixTest(sched: seq<nat>, sorted: seq<int>)
    requires Sorted(sorted) && multiset(sorted) == multiset(MixOut(sched, MixInputs([])))
    ensures sorted == [1, 2, 3, 4, 5, 6]
  {
    MixTestContents(sched);
    OneToSixSorted();
    SortedUnique(sorted, [1, 2, 3, 4, 5, 6]);
  }

  lemma MixTestContents(sched: seq<nat>)
    ensures multiset(MixOut(sched, MixInputs([]))) == multiset([1, 2, 3, 4, 5, 6])
  {
    var ins := MixInputs([]);
    MixInputsPlain();
    PlainContributions(ins);
    MixOutOfTwo(sched, ins);
  }

  /** With no input soloed or muted, both inputs' values are passed on. */
  lemma PlainContributions(ins: seq<Input<int>>)
    requires ins == [Input([1, 2, 3], Plain), Input([4, 5, 6], Plain)]
    ensures |ins| == 2
    ensures Contribution(AnySolo(ins), ins[0]) + Contribution(AnySolo(ins), ins[1]) == [1, 2, 3, 4, 5, 6]
  {
    assert !AnySolo(ins) by {
      assert !ins[0].mode.solo && !ins[1].mode.solo;
    }
    assert [1, 2, 3] + [4, 5, 6] == [1, 2, 3, 4, 5, 6];
  }

  lemma MixInputsPlain()
    ensures MixInputs([]) == [Input([1, 2, 3], Plain), Input([4, 5, 6], Plain)]
  {
  }

  /** `mix` soloing: after `toggle` sets `solo` on `in1`, only `in1`'s values
      reach the output. */
  lemma MixSoloTest(sched: seq<nat>, sorted: seq<int>)
    requires Sorted(sorted) && multiset(sorted) == multiset(MixOut(sched, MixInputs([(1, SoloOn)])))
    ensures sorted == [1, 2, 3]
  {
    MixSoloTestContents(sched);
    OneToThreeSorted();
    SortedUnique(sorted, [1, 2, 3]);
  }

  lemma MixSoloTestContents(sched: seq<nat>)
    ensures multiset(MixOut(sched, MixInputs([(1, SoloOn)]))) == multiset([1, 2, 3])
  {
    var ins := MixInputs([(1, SoloOn)]);
    MixInputsToggled(SoloOn, Mode(false, false, true));
    assert AnySolo(ins) by { assert ins[0].mode.solo; }
    MixOutOfTwo(sched, ins);
    assert [1, 2, 3] + [] == [1, 2, 3];
  }

  /** `mix` muting: after `toggle` sets `mute` on `in1`, only `in2`'s values
      reach the output. */
  lemma MixMuteTest(sched: seq<nat>, sorted: seq<int>)
    requires Sorted(sorted) && multiset(sorted) == multiset(MixOut(sched, MixInputs([(1, MuteOn)])))
    ensures sorted == [4, 5, 6]
  {
    MixMuteTestContents(sched);
    FourToSixSorted();
    SortedUnique(sorted, [4, 5, 6]);
  }

  lemma MixMuteTestContents(sched: seq<nat>)
    ensures multiset(MixOut(sched, MixInputs([(1, MuteOn)]))) == multiset([4, 5, 6])
  {
    var ins := MixInputs([(1, MuteOn)]);
    MixInputsToggled(MuteOn, Mode(true, false, false));
    assert !AnySolo(ins);
    MixOutOfTwo(sched, ins);
    assert [] + [4, 5, 6] == [4, 5, 6];
  }

  /** The `toggle` entries of the tests: set `solo`, respectively `mute`. */
  const SoloOn := ModeUpdate(Options.None, Options.None, Options.Some(true))
  const MuteOn := ModeUpdate(Options.Some(true), Options.None, Options.None)

  lemma MixInputsToggled(u: ModeUpdate, mode: Mode)
    requires mode == ApplyUpdate(Plain, u)
    ensures MixInputs([(1, u)]) == [Input([1, 2, 3], mode), Input([4, 5, 6], Plain)]
  {
    var st0 := Admix(Admix(map[], 1), 2);
    assert Toggle(st0, [(1, u)]) == st0[1 := mode] by {
      assert [(1, u)][1..] == [];
    }
  }

  /** The sorted literals the tests compare against are sorted. */
  lemma ThreeOfEachSorted()
    ensures Sorted([1, 1, 1, 2, 2, 2, 3, 3, 3])
  {
    SortedByNeighbours([1, 1, 1, 2, 2, 2, 3, 3, 3]);
  }

  lemma OneToSixSorted()
    ensures Sorted([1, 2, 3, 4, 5, 6])
  {
    SortedByNeighbours([1, 2, 3, 4, 5, 6]);
  }

  lemma OneToThreeSorted()
    ensures Sorted([1, 2, 3])
  {
    SortedByNeighbours([1, 2, 3]);
  }

  lemma FourToSixSorted()
    ensures Sorted([4, 5, 6])
  {
    SortedByNeighbours([4, 5, 6]);
  }

  /** The subscriptions of the pub-sub test: `a_strs` (0) and `b_strs` (1) on
      "string", `a_nums` (2) and `b_nums` (3) on "number". */
  function PubSubs(): set<(string, nat)>
  {
    {("string", 0), ("string", 1), ("number", 2), ("number", 3)}
  }

  /** `pub(src, typeOf)` fed `[1, "a", 2, "b", 3, "c"]` by `pipe`, which
      closes the source afterwards: draining either number subscriber with
      `into` gives `[1, 2, 3]`, and either string subscriber `["a", "b", "c"]`. */
  lemma PubSubTest(c: nat)
    requires c < 4
    ensures var src := [Num(1), Str("a"), Num(2), Str("b"), Num(3), Str("c")];
      Channels.Into([], SubChan(PubRun(TypeOf, Pub(PubSubs(), NothingReceived(), {}),
        Map(v => Publish(v), src) + [SourceEnded]), c)) ==
        Options.Some(if c < 2 then [Str("a"), Str("b"), Str("c")] else [Num(1), Num(2), Num(3)])
  {
    var src := [Num(1), Str("a"), Num(2), Str("b"), Num(3), Str("c")];
    var k := if c < 2 then "string" else "number";
    assert TopicsOf(PubSubs(), c) == {k} by {
      assert (k, c) in PubSubs();
    }
    PubRoutesByTopic(TypeOf, PubSubs(), src, c, k);
    PubSubTestStrings();
    PubSubTestNumbers();
  }

  lemma PubSubTestStrings()
    ensures Filter(OnTopic(TypeOf, "string"), [Num(1), Str("a"), Num(2), Str("b"), Num(3), Str("c")]) ==
      [Str("a"), Str("b"), Str("c")]
  {
    TypeNamesDiffer();
    var p := OnTopic(TypeOf, "string");
    OnTopicMeans(TypeOf, "string", Num(1));
    OnTopicMeans(TypeOf, "string", Str("a"));
    OnTopicMeans(TypeOf, "string", Num(2));
    OnTopicMeans(TypeOf, "string", Str("b"));
    OnTopicMeans(TypeOf, "string", Num(3));
    OnTopicMeans(TypeOf, "string", Str("c"));
    assert !p(Num(1)) && p(Str("a")) && !p(Num(2)) && p(Str("b")) && !p(Num(3)) && p(Str("c"));
    assert Filter(p, [Str("c")]) == [Str("c")];
    assert Filter(p, [Num(3), Str("c")]) == [Str("c")];
    assert Filter(p, [Str("b"), Num(3), Str("c")]) == [Str("b"), Str("c")];
    assert Filter(p, [Num(2), Str("b"), Num(3), Str("c")]) == [Str("b"), Str("c")];
    assert Filter(p, [Str("a"), Num(2), Str("b"), Num(3), Str("c")]) == [Str("a"), Str("b"), Str("c")];
    assert Filter(p, [Num(1), Str("a"), Num(2), Str("b"), Num(3), Str("c")]) == [Str("a"), Str("b"), Str("c")];
  }

  lemma PubSubTestNumbers()
    ensures Filter(OnTopic(TypeOf, "number"), [Num(1), Str("a"), Num(2), Str("b"), Num(3), Str("c")]) ==
      [Num(1), Num(2), Num(3)]
  {
    TypeNamesDiffer();
    var p := OnTopic(TypeOf, "number");
    OnTopicMeans(TypeOf, "number", Num(1));
    OnTopicMeans(TypeOf, "number", Str("a"));
    OnTopicMeans(TypeOf, "number", Num(2));
    OnTopicMeans(TypeOf, "number", Str("b"));
    OnTopicMeans(TypeOf, "number", Num(3));
    OnTopicMeans(TypeOf, "number", Str("c"));
    assert p(Num(1)) && !p(Str("a")) && p(Num(2)) && !p(Str("b")) && p(Num(3)) && !p(Str("c"));
    assert Filter(p, [Str("c")]) == [];
    assert Filter(p, [Num(3), Str("c")]) == [Num(3)];
    assert Filter(p, [Str("b"), Num(3), Str("c")]) == [Num(3)];
    assert Filter(p, [Num(2), Str("b"), Num(3), Str("c")]) == [Num(2), Num(3)];
    assert Filter(p, [Str("a"), Num(2), Str("b"), Num(3), Str("c")]) == [Num(2), Num(3)];
    assert Filter(p, [Num(1), Str("a"), Num(2), Str("b"), Num(3), Str("c")]) == [Num(1), Num(2), Num(3)];
  }
}
