# js-csp operations, stream-level model

This project models the operator library of js-csp, a CSP channel library for
JavaScript, as its operator tests pin it down. Each channel is reduced to the
finite sequence of values it delivers before it answers `CLOSED`. Each
operator then becomes a pure function on `seq<T>`:

- `fromColl`, `into`, `onto` and `pipe` bridge collections and channels.
- `mapFrom`/`mapInto`, `filterFrom`/`filterInto`, `removeFrom`/`removeInto`,
  `mapcatFrom`/`mapcatInto`, `split` and `reduce` are single-stage transforms.
- The n-ary `map`, `take` and `unique` are combinators with state across
  elements.
- `partition` and `partitionBy` are grouping operators.
- `merge`, `mult` (`tap`/`untap`), `pub` (`sub`/`unsub`) and `mix`
  (`admix`/`unmix`/`unmixAll`/`toggle`) fan in and fan out.

The helpers the tests pass to the operators are modelled too: `inc`, `even`,
`sum`, `range` and `typeOf`.

Modules follow that structure:

- `TestHelpers` holds the helpers.
- `Options` holds the optional value the other modules share.
- `Channels` holds the channel abstraction and the collection bridges.
- `Seqs` holds flattening and sortedness.
- `Transforms`, `Combinators`, `Grouping` and `FanInOut` hold the operators.
- `TestVectors` holds every concrete expectation of the tests, proved about
  the model.

`merge` and `mix` pick the next input through the scheduler and the random
choice of `alts`. Their order is modelled by an arbitrary schedule, so their
properties hold for every interleaving. The tests sort these outputs before
comparing them. `Seqs.SortedUnique` turns a multiset equality into a sorted
equality; `Seqs.Sorted` is numeric order, which agrees with the string order of
JavaScript's default `sort()` on the single-digit values the tests sort.

## Model

| member | source | states |
|---|---|---|
| TestHelpers.JsRem2 | test/operations.js:24-26 | JavaScript's `x % 2`: the remainder lies in -1..1, has the sign of `x`, and differs from `x` by a multiple of two |
| TestHelpers.EvenIsParity | test/operations.js:24-26 | `even(x)` holds exactly when `x` is twice some integer, for negative `x` as well |
| TestHelpers.SumArgs | test/operations.js:28-36 | the accumulating loop of the variadic `sum` returns the sum of all its arguments |
| TestHelpers.SumAppend | test/operations.js:28-36 | the sum of a concatenation is the sum of the parts |
| TestHelpers.Range | test/operations.js:38-44 | `range(n)` has length `n` and holds `i` at position `i` |
| TestHelpers.RangeArray | test/operations.js:38-44 | filling an array of length `n` slot by slot with its index yields `range(n)` |
| TestHelpers.TypeOfSeparatesKinds | test/operations.js:46-48 | two values have the same `typeof` exactly when they are the same kind of value |
| Channels.CloseSemantics | test/operations.js:53-61 | values accepted before a close are still delivered after it, as the closed `fromColl` channel delivers its values; that closing twice changes nothing and that a put after close is refused are the channel contract the operators rely on |
| Channels.PutAll | test/operations.js:73-81 | putting a list on an open channel appends it in order; on a closed channel nothing changes |
| Channels.FromColl | test/operations.js:53-61 | `fromColl(coll)` holds exactly `coll` and is closed |
| Channels.DrainDelivers | test/operations.js:53-61 | taking until `CLOSED` finishes exactly when the channel is closed, and then yields its values in order |
| Channels.Into | test/operations.js:64-70 | `into(coll, ch)` delivers `coll` followed by everything `ch` delivers, once `ch` closes, and nothing while it stays open |
| Channels.FromCollDelivers | test/operations.js:53-61 | as many takes from `fromColl(s)` as `s` has values yield `s` in order and leave a closed, empty channel whose next take answers `CLOSED` |
| Channels.IntoFromColl | test/operations.js:64-70 | `into(coll, fromColl(s))` delivers `coll ++ s` |
| Channels.OntoInto | test/operations.js:73-81 | `onto(chan(), s)` followed by `into([], ...)` gives back `s` |
| Channels.Pipe | test/operations.js:163-171 | `pipe` appends what the source holds to the destination, and the destination ends up closed exactly when it was closed already or the source is closed and `keepOpen` is not set |
| Channels.PipeForwards | test/operations.js:163-171 | piping `fromColl(s)` into a fresh channel and draining it yields `s` |
| Transforms.Map | test/operations.js:84-101 | `mapFrom`/`mapInto` keep the length, and output `i` is `f` of input `i` |
| Transforms.MapAppend | test/operations.js:84-101 | `map` distributes over concatenation |
| Transforms.Filter | test/operations.js:104-121 | every value `filterFrom`/`filterInto` emits satisfies the predicate, and there are no more of them than inputs |
| Transforms.Remove | test/operations.js:124-141 | no value `removeFrom`/`removeInto` emits satisfies the predicate |
| Transforms.FilterMembership | test/operations.js:104-141 | a value survives `filter` exactly when it is in the input and satisfies the predicate, and survives `remove` exactly when it is in the input and does not |
| Transforms.FilterAppend | test/operations.js:104-121 | `filter` distributes over concatenation |
| Transforms.Split | test/operations.js:174-186 | the first channel of `split` carries only predicate-true values and the second only predicate-false values |
| Transforms.SplitKeepsEverything | test/operations.js:174-186 | together the two outputs of `split` hold every input value exactly as often as the input does |
| Transforms.SplitIsStable | test/operations.js:174-186 | interleaving the outputs of `split` as the predicate dictates rebuilds the input, so both outputs keep the input order |
| Transforms.Mapcat | test/operations.js:144-160 | `mapcatFrom`/`mapcatInto` emit the in-order concatenation of `f(x)` over the input |
| Transforms.MapcatAppend | test/operations.js:144-160 | `mapcat` distributes over concatenation |
| Transforms.MapAndFilterAreMapcat | test/operations.js:84-160 | `map` and `filter` are `mapcat` with one-element and at-most-one-element images |
| Transforms.MapcatRangeLength | test/operations.js:144-160 | with `range` as the image, the output length is the sum of the inputs |
| Transforms.ReduceAppend | test/operations.js:189-196 | reducing a concatenation continues from the reduction of the first part |
| Transforms.ReduceLastStep | test/operations.js:189-196 | `reduce` is a left fold: its last step combines the fold of all but the last value with the last value |
| Transforms.ReduceAddIsSum | test/operations.js:189-196 | reducing with `+` from `acc` gives `acc` plus the sum of the input |
| Combinators.MinLen | test/operations.js:199-211 | the shortest input length: no input is shorter, and some input has exactly this length |
| Combinators.MapN | test/operations.js:199-211 | n-ary `map` stops at the shortest input, and its `i`-th value is `f` of the `i`-th values of all inputs |
| Combinators.Take | test/operations.js:230-247 | `take(n, s)` is the prefix of `s` of length `n`, or all of `s` when it is shorter, or nothing when `n` is not positive |
| Combinators.TakeTake | test/operations.js:230-247 | taking `m` from the first `n` is taking the smaller of the two |
| Combinators.TakeChanDelivers | test/operations.js:230-247 | draining `take(n, src)` completes with the first `n` values exactly when `src` is closed or already holds `n` values, so a short source causes no failure |
| Combinators.UniqueAfter | test/operations.js:250-257 | `unique` never emits two equal neighbours, never repeats the value it emitted last, and emits no more values than it reads |
| Combinators.UniqueAfterAppend | test/operations.js:250-257 | `unique` works as a stream: reading `a` then `b` emits what `a` emits, then what `b` emits from the last value read |
| Combinators.UniqueIsDedup | test/operations.js:250-257 | `unique` equals the input with exactly its consecutive repeats collapsed |
| Combinators.UniqueFixpoint | test/operations.js:250-257 | a stream passes `unique` unchanged exactly when it has no adjacent repeats, so `unique` is idempotent |
| Combinators.UniqueKeepsValues | test/operations.js:250-257 | a value occurs in the output of `unique` exactly when it occurs in its input |
| Grouping.Partition | test/operations.js:260-267 | the groups of `partition(n, s)` are non-empty, concatenate back to `s`, and all have size `n` except a possibly shorter last one |
| Grouping.PartitionUnique | test/operations.js:260-267 | any cut of `s` with those properties is the one `partition` produces |
| Grouping.PartitionByFrom | test/operations.js:270-278 | from an open group, `partitionBy` emits key runs of the open group followed by the input, and the first run extends the open group |
| Grouping.PartitionBy | test/operations.js:270-278 | the groups of `partitionBy(key, s)` are non-empty and key-constant, neighbouring groups differ in key, and they concatenate back to `s` |
| Grouping.PartitionByUnique | test/operations.js:270-278 | any cut of `s` into such key runs is the one `partitionBy` produces |
| Seqs.SortedUnique | test/operations.js:222-226 | two sorted sequences with the same multiset of values are equal, so a sorted result is fixed whatever the interleaving |
| FanInOut.Merge | test/operations.js:214-227 | whatever the schedule, the output of `merge` is a permutation of all input values |
| FanInOut.MergeKeepsInputOrder | test/operations.js:214-227 | picking the values that came from input `k` out of the `merge` output gives back input `k` in order |
| FanInOut.MultPerTap | test/operations.js:281-300 | each tap of a `mult` receives exactly what the events about that tap and the emitted values say, unaffected by other taps |
| FanInOut.MultRunAppend | test/operations.js:281-300 | running two stretches of `mult` events is running the second from where the first left off |
| FanInOut.EmitsKeepTaps | test/operations.js:281-300 | values the source delivers change no tap |
| FanInOut.TappedReceivesAll | test/operations.js:281-300 | a tap that is never untapped receives every emitted value, in order |
| FanInOut.MultBroadcast | test/operations.js:281-300 | every tap made before the source starts receives the whole source, is closed when the source closes, and so drains with `into` to the source |
| FanInOut.PubPerSubscriber | test/operations.js:379-412 | each subscriber of a `pub` receives exactly what its own subscriptions and the published values say |
| FanInOut.PubRunAppend | test/operations.js:379-412 | running two stretches of `pub` events is running the second from where the first left off |
| FanInOut.PublishesKeepSubs | test/operations.js:379-412 | values the source delivers change no subscription |
| FanInOut.PubDropsUnsubscribed | test/operations.js:379-412 | a value whose topic has no subscriber reaches no one |
| FanInOut.PubRoutesByTopic | test/operations.js:379-412 | a subscriber of topic `k` alone receives exactly the source values whose topic is `k`, in source order, is closed when the source closes, and so drains with `into` to those values |
| FanInOut.AdminChangesOneInput | test/operations.js:311-322 | `admix` adds an input with no flags set, `unmix` removes one, every other input is left as it was, and `unmixAll` leaves none |
| FanInOut.ToggleOnlyListed | test/operations.js:338-376 | `toggle` leaves every input it does not name unchanged |
| FanInOut.ToggleKeepsInputs | test/operations.js:338-376 | `toggle` never removes an input |
| FanInOut.ToggleSetsNamedFlags | test/operations.js:338-376 | a one-entry `toggle` sets exactly the flags it names and keeps the others |
| FanInOut.MixPassesForwarded | test/operations.js:303-376 | the output of `mix` is a permutation of the unpaused soloed inputs when any input is soloed, and of the unpaused unmuted inputs otherwise |
| TestVectors.FromCollTest | test/operations.js:54-61 | four takes from `fromColl([1, 2, 3, 4])` give 1, 2, 3, 4 and leave the channel closed |
| TestVectors.IntoTest | test/operations.js:65-70 | `into([1, 2, 3], fromColl([4, 5, 6]))` gives `[1, 2, 3, 4, 5, 6]` |
| TestVectors.OntoTest | test/operations.js:74-81 | `onto` then `into` gives back `[1, 2, 3, 4]` |
| TestVectors.MapTest | test/operations.js:84-101 | mapping `inc` over `[1, 2, 3, 4]` gives `[2, 3, 4, 5]` |
| TestVectors.FilterTest | test/operations.js:104-121 | filtering `even` over `[1..6]` gives `[2, 4, 6]` |
| TestVectors.RemoveTest | test/operations.js:124-141 | removing `even` over `[1..6]` gives `[1, 3, 5]` |
| TestVectors.SplitTest | test/operations.js:174-186 | `split(even, [1..6])` gives `[2, 4, 6]` and `[1, 3, 5]` |
| TestVectors.MapcatTest | test/operations.js:144-160 | `mapcat(range, [1, 2, 3, 4])` gives `[0, 0, 1, 0, 1, 2, 0, 1, 2, 3]` |
| TestVectors.PipeTest | test/operations.js:163-171 | piping `fromColl([1..5])` into a fresh channel delivers `[1..5]` |
| TestVectors.ReduceTest | test/operations.js:189-196 | reducing `[1..5]` with `+` from 0 gives 15 |
| TestVectors.MapNTest | test/operations.js:199-211 | `map(sum, ...)` over four copies of `[1..6]` gives `[4, 8, 12, 16, 20, 24]` |
| TestVectors.MergeTest | test/operations.js:214-227 | for every schedule, the sorted output of merging three copies of `[1, 2, 3]` is `[1, 1, 1, 2, 2, 2, 3, 3, 3]` |
| TestVectors.TakeTest | test/operations.js:230-247 | `take(10, [1, 2, 3])` and `take(3, [1..5])` both give `[1, 2, 3]` |
| TestVectors.UniqueTest | test/operations.js:250-257 | `unique` over `[1, 2, 2, 3, 4, 4, 4, 5, 6, 6, 6]` gives `[1..6]` |
| TestVectors.PartitionTest | test/operations.js:260-267 | `partition(3, [1..7])` gives `[[1, 2, 3], [4, 5, 6], [7]]` |
| TestVectors.PartitionByTest | test/operations.js:270-278 | `partitionBy(typeOf, ...)` groups the mixed values into the six type runs the test expects |
| TestVectors.MultTest | test/operations.js:281-300 | after `pipe` feeds `[1, 2, 3, 4]` and closes the source, draining either tap with `into` gives `[1, 2, 3, 4]` |
| TestVectors.MixTest | test/operations.js:320-336 | for every schedule, the sorted output of mixing `[1, 2, 3]` and `[4, 5, 6]` is `[1..6]` |
| TestVectors.MixSoloTest | test/operations.js:339-356 | after soloing `in1`, the sorted output is `[1, 2, 3]` |
| TestVectors.MixMuteTest | test/operations.js:358-375 | after muting `in1`, the sorted output is `[4, 5, 6]` |
| TestVectors.PubSubTest | test/operations.js:379-412 | after `pipe` feeds the source and closes it, draining either number subscriber with `into` gives `[1, 2, 3]` and either string subscriber `["a", "b", "c"]` |

## Left out

- The operator implementations and the channel runtime (buffers, the rendezvous of parked putters and takers, the `go` scheduler, `alts`, `sleep`) are not part of this model. A channel is the sequence it delivers, and a put on an open channel is a value that will be delivered.
- The chai assertions and `describe`/`it` plumbing of the tests and their generator `yield` mechanics are left out: each expectation a test asserts becomes a lemma about the model.
- `merge` and `mix` interleave their inputs through the scheduler and random `alts` choices. That order is an arbitrary schedule parameter, and only the permutation is asserted, as the tests do by sorting.
- Each `...From` operator and its `...Into` twin deliver the same stream, so one function models both. The `...Into` form's use of a caller-supplied channel is not modelled separately.
- Combinators.MapN: with zero inputs the output is modelled as empty; the tests never call `map` with no inputs.
- Grouping.Partition: requires `n > 0`, because for `n = 0` the process would emit empty groups forever, which no finite sequence models.
- TestHelpers.Range: takes a `nat`; `range` with a negative length, where `new Array(n)` throws, is not modelled.
- TestHelpers.JsRem2: models the remainder for divisor 2 only, the one `even` uses.
- JavaScript numbers are unbounded integers here. NaN, floating point, and the `===` comparison `unique` uses are not modelled beyond Dafny equality.
- `typeOf` is modelled on the four kinds of value the tests use (strings, numbers, booleans, `undefined`), not on every JavaScript value.
- FanInOut.MultPerTap: taps receive values with no backpressure, and the wait of `mult` until every tap has accepted a value is not modelled. The same holds for `pub` subscribers. Every tap and every subscriber is closed when the source closes; the per-tap `close` flag and `sub`'s `keepOpen`, which can keep one open, are not modelled.
- Seqs.Sorted: is numeric order, while the tests sort with JavaScript's default `sort()`, which compares the string forms of the values. The two orders agree on the single-digit numbers the tests sort, so the sorted results proved are the ones the tests compare against; for other values they can differ.
- FanInOut.MixPassesForwarded: the flags are fixed for the whole run, and `mix` changing flags mid-stream and the `soloMode` setting (pause instead of mute for non-soloed inputs) are not modelled.
