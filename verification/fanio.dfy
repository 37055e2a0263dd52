/**
  Fan-in and fan-out: `merge`, `mult` (with `tap`/`untap`), `mix` (with
  `admix`/`unmix`/`toggle`) and `pub` (with `sub`/`unsub`).

  The cross-channel interleaving chosen by `merge` and `mix` depends on the
  scheduler and on the random choice of `alts`; it is modelled by an arbitrary
  schedule, so every property proved here holds for every interleaving.
 */
module FanInOut {
  import Options
  import opened Seqs
  import Transforms
  import Channels

  // ---------------------------------------------------------------------
  // merge
  // ---------------------------------------------------------------------

  lemma FlattenUpdate<T>(ins: seq<seq<T>>, k: nat, tail: seq<T>)
    requires k < |ins| && ins[k] != [] && tail == ins[k][1..]
    ensures multiset(Flatten(ins)) == multiset{ins[k][0]} + multiset(Flatten(ins[k := tail]))
  {
    var ins' := ins[k := tail];
    FlattenAround(ins, k);
    FlattenAround(ins', k);
    assert ins'[..k] == ins[..k];
    assert ins'[k + 1..] == ins[k + 1..];
    assert ins[k] == [ins[k][0]] + tail;
  }

  /** `merge(chs)` under a schedule: each entry of `sched` names the input
      that delivers next (an entry naming a finished or absent input delivers
      nothing); when the schedule runs out, the remaining values follow input
      by input. Whatever the schedule, the output is a permutation of all the
      input values. */
  function Merge<T>(sched: seq<nat>, ins: seq<seq<T>>): (r: seq<T>)
    ensures multiset(r) == multiset(Flatten(ins))
    decreases |sched|
  {
    if sched == [] then Flatten(ins)
    else
      var k := sched[0];
      if k < |ins| && ins[k] != [] then
        FlattenUpdate(ins, k, ins[k][1..]);
        [ins[k][0]] + Merge(sched[1..], ins[k := ins[k][1..]])
      else Merge(sched[1..], ins)
  }

  /** Every value of input `k` is labelled `k`. */
  ghost predicate Labelled<T>(from: T -> nat, ins: seq<seq<T>>)
  {
    forall k, i :: 0 <= k < |ins| && 0 <= i < |ins[k]| ==> from(ins[k][i]) == k
  }

  lemma {:induction false} FlattenElements<T>(g: seq<seq<T>>, q: T -> bool)
    requires forall j, i :: 0 <= j < |g| && 0 <= i < |g[j]| ==> q(g[j][i])
    ensures forall i :: 0 <= i < |Flatten(g)| ==> q(Flatten(g)[i])
  {
    if g != [] {
      FlattenElements(g[1..], q);
      var f := Flatten(g);
      assert f == g[0] + Flatten(g[1..]);
      forall i | 0 <= i < |f|
        ensures q(f[i])
      {
        if i < |g[0]| {
          assert f[i] == g[0][i];
        } else {
          assert f[i] == Flatten(g[1..])[i - |g[0]|];
        }
      }
    }
  }

  /** The values labelled as coming from input `k`. */
  function FromInput<T>(from: T -> nat, k: nat): T -> bool
  {
    x => from(x) == k
  }

  lemma FromInputMeans<T>(from: T -> nat, k: nat, x: T)
    ensures FromInput(from, k)(x) <==> from(x) == k
  {
  }

  /** The values of input `k`, picked out of the flattened inputs. */
  lemma FilterFlatten<T>(from: T -> nat, ins: seq<seq<T>>, k: nat)
    requires Labelled(from, ins) && k < |ins|
    ensures Transforms.Filter(FromInput(from, k), Flatten(ins)) == ins[k]
  {
    var p := FromInput(from, k);
    var pre, post := Flatten(ins[..k]), Flatten(ins[k + 1..]);
    FlattenAround(ins, k);
    FilterBefore(from, ins, k);
    FilterAfter(from, ins, k);
    FilterOwn(from, ins, k);
    Transforms.FilterAppend(p, pre + ins[k], post);
    Transforms.FilterAppend(p, pre, ins[k]);
    assert [] + ins[k] + [] == ins[k];
  }

  lemma FilterBefore<T>(from: T -> nat, ins: seq<seq<T>>, k: nat)
    requires Labelled(from, ins) && k < |ins|
    ensures Transforms.Filter(FromInput(from, k), Flatten(ins[..k])) == []
  {
    var before := ins[..k];
    forall j, i | 0 <= j < |before| && 0 <= i < |before[j]|
      ensures from(before[j][i]) != k
    {
      assert before[j] == ins[j];
    }
    NoneFromInput(from, before, k);
  }

  lemma FilterAfter<T>(from: T -> nat, ins: seq<seq<T>>, k: nat)
    requires Labelled(from, ins) && k < |ins|
    ensures Transforms.Filter(FromInput(from, k), Flatten(ins[k + 1..])) == []
  {
    var after := ins[k + 1..];
    forall j, i | 0 <= j < |after| && 0 <= i < |after[j]|
      ensures from(after[j][i]) != k
    {
      assert after[j] == ins[k + 1 + j];
    }
    NoneFromInput(from, after, k);
  }

  lemma FilterOwn<T>(from: T -> nat, ins: seq<seq<T>>, k: nat)
    requires Labelled(from, ins) && k < |ins|
    ensures Transforms.Filter(FromInput(from, k), ins[k]) == ins[k]
  {
    var p, own := FromInput(from, k), ins[k];
    forall i | 0 <= i < |own|
      ensures p(own[i])
    {
      FromInputMeans(from, k, own[i]);
    }
    Transforms.FilterAll(p, own);
  }

  /** No value of inputs that are not labelled `k` survives the filter. */
  lemma NoneFromInput<T>(from: T -> nat, g: seq<seq<T>>, k: nat)
    requires forall j, i :: 0 <= j < |g| && 0 <= i < |g[j]| ==> from(g[j][i]) != k
    ensures Transforms.Filter(FromInput(from, k), Flatten(g)) == []
  {
    var p, f := FromInput(from, k), Flatten(g);
    FlattenElements(g, x => from(x) != k);
    forall i | 0 <= i < |f|
      ensures !p(f[i])
    {
      FromInputMeans(from, k, f[i]);
    }
    Transforms.FilterNone(p, f);
  }

  /** `merge` keeps the order of each input: picking the values that came from
      input `k` out of the output gives back input `k`. */
  lemma {:induction false} MergeKeepsInputOrder<T>(from: T -> nat, sched: seq<nat>, ins: seq<seq<T>>, k: nat)
    requires Labelled(from, ins) && k < |ins|
    ensures Transforms.Filter(FromInput(from, k), Merge(sched, ins)) == ins[k]
    decreases |sched|
  {
    var p := FromInput(from, k);
    if sched == [] {
      FilterFlatten(from, ins, k);
    } else {
      var j := sched[0];
      if j < |ins| && ins[j] != [] {
        var ins' := ins[j := ins[j][1..]];
        assert Labelled(from, ins') by {
          forall m, i | 0 <= m < |ins'| && 0 <= i < |ins'[m]|
            ensures from(ins'[m][i]) == m
          {
            if m == j {
              assert ins'[m][i] == ins[j][i + 1];
            }
          }
        }
        MergeKeepsInputOrder(from, sched[1..], ins', k);
        var h := ins[j][0];
        assert Merge(sched, ins) == [h] + Merge(sched[1..], ins');
        Transforms.FilterAppend(p, [h], Merge(sched[1..], ins'));
        if j == k {
          assert [h] + ins[j][1..] == ins[k];
        }
      } else {
        MergeKeepsInputOrder(from, sched[1..], ins, k);
      }
    }
  }

  // ---------------------------------------------------------------------
  // mult
  // ---------------------------------------------------------------------

  /** What happens at a `mult` over time: a tap is added or removed, the
      source delivers a value, which is offered to every current tap, or the
      source closes, which closes every current tap. Taps are identified by
      number. */
  datatype MultEvent<T> = Tap(tap: nat) | Untap(tap: nat) | Emit(value: T) | SourceClosed

  /** The current taps, what each tap has received so far, and the taps the
      `mult` has closed. */
  datatype Mult<T> = Mult(taps: set<nat>, received: nat -> seq<T>, closed: set<nat>)

  /** Nobody has received anything yet. */
  function NothingReceived<T>(): nat -> seq<T>
  {
    _ => []
  }

  function MultStep<T>(m: Mult<T>, e: MultEvent<T>): Mult<T>
  {
    match e
    case Tap(t) => Mult(m.taps + {t}, m.received, m.closed)
    case Untap(t) => Mult(m.taps - {t}, m.received, m.closed)
    case Emit(v) => Mult(m.taps, t => m.received(t) + (if t in m.taps then [v] else []), m.closed)
    case SourceClosed => Mult(m.taps, m.received, m.closed + m.taps)
  }

  /** The `mult` after a sequence of events. */
  function MultRun<T>(m: Mult<T>, events: seq<MultEvent<T>>): Mult<T>
    decreases |events|
  {
    if events == [] then m else MultRun(MultStep(m, events[0]), events[1..])
  }

  /** Running two stretches of events is running the second from where the
      first left off. */
  lemma {:induction false} MultRunAppend<T>(m: Mult<T>, a: seq<MultEvent<T>>, b: seq<MultEvent<T>>)
    ensures MultRun(m, a + b) == MultRun(MultRun(m, a), b)
    decreases |a|
  {
    if a == [] {
      assert a + b == b;
    } else {
      assert (a + b)[0] == a[0];
      assert (a + b)[1..] == a[1..] + b;
      MultRunAppend(MultStep(m, a[0]), a[1..], b);
    }
  }

  /** Tap `t` as the channel its consumer sees: what it has received, closed
      once the `mult` has closed it. */
  function TapChan<T>(m: Mult<T>, t: nat): Channels.Chan<T>
  {
    Channels.Chan(m.received(t), t in m.closed)
  }

  /** Reference definition: what one tap receives, judged from the events
      about that tap and the emitted values only, given whether it is tapped
      at the start. */
  function TapReceives<T>(t: nat, tapped: bool, events: seq<MultEvent<T>>): seq<T>
    decreases |events|
  {
    if events == [] then []
    else
      match events[0]
      case Tap(u) => TapReceives(t, tapped || u == t, events[1..])
      case Untap(u) => TapReceives(t, tapped && u != t, events[1..])
      case Emit(v) => (if tapped then [v] else []) + TapReceives(t, tapped, events[1..])
      case SourceClosed => TapReceives(t, tapped, events[1..])
  }

  /** Each tap of a `mult` receives exactly what `TapReceives` says: adding
      and removing other taps never changes what a tap gets. */
  lemma {:induction false} MultPerTap<T>(m: Mult<T>, events: seq<MultEvent<T>>, t: nat)
    ensures MultRun(m, events).received(t) == m.received(t) + TapReceives(t, t in m.taps, events)
    decreases |events|
  {
    if events == [] {
      assert m.received(t) + [] == m.received(t);
    } else {
      var m' := MultStep(m, events[0]);
      MultPerTap(m', events[1..], t);
      match events[0]
      case Tap(u) =>
      case Untap(u) =>
      case Emit(v) =>
        assert m'.received(t) == m.received(t) + (if t in m.taps then [v] else []);
      case SourceClosed =>
    }
  }

  /** The values the source delivers. */
  function Emitted<T>(events: seq<MultEvent<T>>): seq<T>
    decreases |events|
  {
    if events == [] then []
    else if events[0].Emit? then [events[0].value] + Emitted(events[1..])
    else Emitted(events[1..])
  }

  /** A tap that stays tapped receives the whole source, in order. */
  lemma {:induction false} TappedReceivesAll<T>(t: nat, events: seq<MultEvent<T>>)
    requires forall i :: 0 <= i < |events| ==> events[i] != Untap(t)
    ensures TapReceives(t, true, events) == Emitted(events)
    decreases |events|
  {
    if events != [] {
      TappedReceivesAll(t, events[1..]);
    }
  }

  /** `mult(src)` with taps tapped before the source starts and never
      untapped: every such tap receives the entire source and is closed when
      the source closes, so draining it with `into` yields the source. */
  lemma MultBroadcast<T>(taps: set<nat>, src: seq<T>, t: nat)
    requires t in taps
    ensures MultRun(Mult(taps, NothingReceived(), {}), Transforms.Map(v => Emit(v), src)).received(t) == src
    ensures Channels.Into([], TapChan(MultRun(Mult(taps, NothingReceived(), {}),
      Transforms.Map(v => Emit(v), src) + [SourceClosed]), t)) == Options.Some(src)
  {
    var m0 := Mult(taps, NothingReceived(), {});
    var events := Transforms.Map((v: T) => Emit(v), src);
    MultPerTap(m0, events, t);
    TappedReceivesAll(t, events);
    EmittedOfEmits(src);
    var m1 := MultRun(m0, events);
    EmitsKeepTaps(m0, src);
    var close: seq<MultEvent<T>> := [SourceClosed];
    MultRunAppend(m0, events, close);
    assert MultRun(m1, close) == MultStep(m1, SourceClosed) by {
      assert close[1..] == [];
    }
    assert [] + src == src;
  }

  /** Emitting values changes no tap. */
  lemma {:induction false} EmitsKeepTaps<T>(m: Mult<T>, src: seq<T>)
    ensures MultRun(m, Transforms.Map((v: T) => Emit(v), src)).taps == m.taps
    decreases |src|
  {
    if src != [] {
      Transforms.MapTail((v: T) => Emit(v), src);
      EmitsKeepTaps(MultStep(m, Emit(src[0])), src[1..]);
    }
  }

  lemma {:induction false} EmittedOfEmits<T>(src: seq<T>)
    ensures Emitted(Transforms.Map((v: T) => Emit(v), src)) == src
  {
    if src != [] {
      EmittedOfEmits(src[1..]);
      Transforms.MapTail((v: T) => Emit(v), src);
      assert [src[0]] + src[1..] == src;
    }
  }

  // ---------------------------------------------------------------------
  // pub / sub
  // ---------------------------------------------------------------------

  /** What happens at a `pub` over time: a subscriber is added to or removed
      from a topic, the source delivers a value, or the source closes, which
      closes every current subscriber. */
  datatype PubEvent<T, K(==)> = Sub(topic: K, sub: nat) | Unsub(topic: K, sub: nat) | Publish(value: T) | SourceEnded

  /** The current subscriptions (topic, subscriber), what each subscriber has
      received so far, and the subscribers the `pub` has closed. */
  datatype Pub<T, K(==)> = Pub(subs: set<(K, nat)>, received: nat -> seq<T>, closed: set<nat>)

  /** The subscribers with at least one subscription. */
  function Subscribers<K(==)>(subs: set<(K, nat)>): set<nat>
  {
    set q | q in subs :: q.1
  }

  /** A value goes to the subscribers of its topic and to no one else; a value
      whose topic has no subscriber is dropped. */
  function PubStep<T, K(==)>(topicFn: T -> K, p: Pub<T, K>, e: PubEvent<T, K>): Pub<T, K>
  {
    match e
    case Sub(k, c) => Pub(p.subs + {(k, c)}, p.received, p.closed)
    case Unsub(k, c) => Pub(p.subs - {(k, c)}, p.received, p.closed)
    case Publish(v) =>
      Pub(p.subs, c => p.received(c) + (if (topicFn(v), c) in p.subs then [v] else []), p.closed)
    case SourceEnded => Pub(p.subs, p.received, p.closed + Subscribers(p.subs))
  }

  /** The `pub` after a sequence of events. */
  function PubRun<T, K(==)>(topicFn: T -> K, p: Pub<T, K>, events: seq<PubEvent<T, K>>): Pub<T, K>
    decreases |events|
  {
    if events == [] then p else PubRun(topicFn, PubStep(topicFn, p, events[0]), events[1..])
  }

  /** Running two stretches of events is running the second from where the
      first left off. */
  lemma {:induction false} PubRunAppend<T, K>(topicFn: T -> K, p: Pub<T, K>, a: seq<PubEvent<T, K>>, b: seq<PubEvent<T, K>>)
    ensures PubRun(topicFn, p, a + b) == PubRun(topicFn, PubRun(topicFn, p, a), b)
    decreases |a|
  {
    if a == [] {
      assert a + b == b;
    } else {
      assert (a + b)[0] == a[0];
      assert (a + b)[1..] == a[1..] + b;
      PubRunAppend(topicFn, PubStep(topicFn, p, a[0]), a[1..], b);
    }
  }

  /** Subscriber `c` as the channel its consumer sees: what it has received,
      closed once the `pub` has closed it. */
  function SubChan<T, K(==)>(p: Pub<T, K>, c: nat): Channels.Chan<T>
  {
    Channels.Chan(p.received(c), c in p.closed)
  }

  /** Reference definition: what one subscriber receives, judged from the
      events about that subscriber and the published values only, given the
      topics it is subscribed to at the start. */
  function SubReceives<T, K(==)>(topicFn: T -> K, c: nat, topics: set<K>, events: seq<PubEvent<T, K>>): seq<T>
    decreases |events|
  {
    if events == [] then []
    else
      match events[0]
      case Sub(k, d) => SubReceives(topicFn, c, if d == c then topics + {k} else topics, events[1..])
      case Unsub(k, d) => SubReceives(topicFn, c, if d == c then topics - {k} else topics, events[1..])
      case Publish(v) => (if topicFn(v) in topics then [v] else []) + SubReceives(topicFn, c, topics, events[1..])
      case SourceEnded => SubReceives(topicFn, c, topics, events[1..])
  }

  /** The topics subscriber `c` is subscribed to. */
  function TopicsOf<K(==)>(subs: set<(K, nat)>, c: nat): set<K>
  {
    set q | q in subs && q.1 == c :: q.0
  }

  /** The values whose topic is `k`. */
  function OnTopic<T, K(==)>(topicFn: T -> K, k: K): T -> bool
  {
    v => topicFn(v) == k
  }

  lemma OnTopicMeans<T, K>(topicFn: T -> K, k: K, v: T)
    ensures OnTopic(topicFn, k)(v) <==> topicFn(v) == k
  {
  }

  /** Each subscriber of a `pub` receives exactly what `SubReceives` says:
      other subscribers' subscriptions never change what it gets. */
  lemma {:induction false} PubPerSubscriber<T, K>(topicFn: T -> K, p: Pub<T, K>, events: seq<PubEvent<T, K>>, c: nat)
    ensures PubRun(topicFn, p, events).received(c) ==
      p.received(c) + SubReceives(topicFn, c, TopicsOf(p.subs, c), events)
    decreases |events|
  {
    if events == [] {
      assert p.received(c) + [] == p.received(c);
    } else {
      var p' := PubStep(topicFn, p, events[0]);
      PubPerSubscriber(topicFn, p', events[1..], c);
      match events[0]
      case Sub(k, d) =>
        assert TopicsOf(p'.subs, c) == if d == c then TopicsOf(p.subs, c) + {k} else TopicsOf(p.subs, c);
      case Unsub(k, d) =>
        assert TopicsOf(p'.subs, c) == if d == c then TopicsOf(p.subs, c) - {k} else TopicsOf(p.subs, c);
      case Publish(v) =>
        assert (topicFn(v), c) in p.subs <==> topicFn(v) in TopicsOf(p.subs, c);
        assert p'.received(c) == p.received(c) + (if topicFn(v) in TopicsOf(p.subs, c) then [v] else []);
      case SourceEnded =>
    }
  }

  /** A value nobody subscribes to is dropped: no subscriber receives it. */
  lemma PubDropsUnsubscribed<T, K>(topicFn: T -> K, p: Pub<T, K>, v: T, c: nat)
    requires forall q :: q in p.subs ==> q.0 != topicFn(v)
    ensures PubStep(topicFn, p, Publish(v)).received(c) == p.received(c)
  {
    assert (topicFn(v), c) !in p.subs;
  }

  /** `pub(src, topicFn)` with subscriptions made before the source starts:
      every subscriber of topic `k` alone receives the values whose topic is
      `k`, in source order, however many other subscribers there are, and is
      closed when the source closes, so draining it with `into` yields them. */
  lemma PubRoutesByTopic<T, K>(topicFn: T -> K, subs: set<(K, nat)>, src: seq<T>, c: nat, k: K)
    requires TopicsOf(subs, c) == {k}
    ensures PubRun(topicFn, Pub(subs, NothingReceived(), {}), Transforms.Map(v => Publish(v), src)).received(c) ==
      Transforms.Filter(OnTopic(topicFn, k), src)
    ensures Channels.Into([], SubChan(PubRun(topicFn, Pub(subs, NothingReceived(), {}),
      Transforms.Map(v => Publish(v), src) + [SourceEnded]), c)) == Options.Some(Transforms.Filter(OnTopic(topicFn, k), src))
  {
    var p0 := Pub(subs, NothingReceived(), {});
    var events := Transforms.Map((v: T) => Publish(v), src);
    PubPerSubscriber(topicFn, p0, events, c);
    PublishAllRoutes(topicFn, c, k, src);
    var p1 := PubRun(topicFn, p0, events);
    PublishesKeepSubs(topicFn, p0, src);
    assert c in Subscribers(subs) by {
      assert k in TopicsOf(subs, c);
      var q :| q in subs && q.1 == c && q.0 == k;
    }
    var close: seq<PubEvent<T, K>> := [SourceEnded];
    PubRunAppend(topicFn, p0, events, close);
    assert PubRun(topicFn, p1, close) == PubStep(topicFn, p1, SourceEnded) by {
      assert close[1..] == [];
    }
    assert [] + p1.received(c) == p1.received(c);
  }

  /** Publishing values changes no subscription. */
  lemma {:induction false} PublishesKeepSubs<T, K>(topicFn: T -> K, p: Pub<T, K>, src: seq<T>)
    ensures PubRun(topicFn, p, Transforms.Map((v: T) => Publish(v), src)).subs == p.subs
    decreases |src|
  {
    if src != [] {
      Transforms.MapTail<T, PubEvent<T, K>>((v: T) => Publish(v), src);
      PublishesKeepSubs(topicFn, PubStep(topicFn, p, Publish(src[0])), src[1..]);
    }
  }

  lemma {:induction false} PublishAllRoutes<T, K>(topicFn: T -> K, c: nat, k: K, src: seq<T>)
    ensures SubReceives(topicFn, c, {k}, Transforms.Map((v: T) => Publish(v), src)) ==
      Transforms.Filter(OnTopic(topicFn, k), src)
  {
    if src != [] {
      PublishAllRoutes(topicFn, c, k, src[1..]);
      Transforms.MapTail<T, PubEvent<T, K>>((v: T) => Publish(v), src);
      Transforms.FilterCons(OnTopic(topicFn, k), src);
    }
  }

  // ---------------------------------------------------------------------
  // mix
  // ---------------------------------------------------------------------

  /** The per-input flags of a `mix`. */
  datatype Mode = Mode(mute: bool, pause: bool, solo: bool)

  /** The flags of a freshly admixed input: none set. */
  const Plain := Mode(false, false, false)

  /** A `toggle` entry for one input: the flags it sets (absent ones are left
      as they were). */
  datatype ModeUpdate = ModeUpdate(mute: Options.Option<bool>, pause: Options.Option<bool>, solo: Options.Option<bool>)

  function Pick(o: Options.Option<bool>, current: bool): bool
  {
    match o
    case Some(b) => b
    case None => current
  }

  function ApplyUpdate(m: Mode, u: ModeUpdate): (r: Mode)
  {
    Mode(Pick(u.mute, m.mute), Pick(u.pause, m.pause), Pick(u.solo, m.solo))
  }

  /** The admin state of a `mix`: the flags of each admixed input. */
  type MixState = map<nat, Mode>

  /** `admix(ch)`: add an input with no flags set. */
  function Admix(st: MixState, c: nat): MixState
  {
    st[c := Plain]
  }

  /** `unmix(ch)`: remove one input. */
  function Unmix(st: MixState, c: nat): MixState
  {
    st - {c}
  }

  /** `unmixAll()`: remove every input. */
  function UnmixAll(st: MixState): MixState
  {
    map[]
  }

  /** `admix` adds an input with no flags set and `unmix` removes one, both
      leaving every other input as it was; `unmixAll` leaves no input. */
  lemma AdminChangesOneInput(st: MixState, c: nat, d: nat)
    requires d != c
    ensures c in Admix(st, c) && Admix(st, c)[c] == Plain
    ensures c !in Unmix(st, c)
    ensures d in Admix(st, c) <==> d in st
    ensures d in Unmix(st, c) <==> d in st
    ensures d in st ==> Admix(st, c)[d] == st[d] && Unmix(st, c)[d] == st[d]
    ensures UnmixAll(st).Keys == {}
  {
  }

  /** `toggle([[ch, flags], ...])`: apply each entry in turn; an input not yet
      admixed is added with the given flags. */
  function Toggle(st: MixState, updates: seq<(nat, ModeUpdate)>): MixState
    decreases |updates|
  {
    if updates == [] then st
    else
      var (c, u) := updates[0];
      Toggle(st[c := ApplyUpdate(if c in st then st[c] else Plain, u)], updates[1..])
  }

  /** `toggle` changes only the inputs it lists: every other input keeps its
      membership and its flags. */
  lemma {:induction false} ToggleOnlyListed(st: MixState, updates: seq<(nat, ModeUpdate)>, c: nat)
    requires forall i :: 0 <= i < |updates| ==> updates[i].0 != c
    ensures c in Toggle(st, updates) <==> c in st
    ensures c in st ==> Toggle(st, updates)[c] == st[c]
    decreases |updates|
  {
    if updates != [] {
      var (d, u) := updates[0];
      ToggleOnlyListed(st[d := ApplyUpdate(if d in st then st[d] else Plain, u)], updates[1..], c);
    }
  }

  /** `toggle` never removes an input from the mix. */
  lemma {:induction false} ToggleKeepsInputs(st: MixState, updates: seq<(nat, ModeUpdate)>)
    ensures st.Keys <= Toggle(st, updates).Keys
    decreases |updates|
  {
    if updates != [] {
      var (c, u) := updates[0];
      ToggleKeepsInputs(st[c := ApplyUpdate(if c in st then st[c] else Plain, u)], updates[1..]);
    }
  }

  /** A one-entry `toggle` sets exactly the flags it names on that input and
      leaves its other flags as they were. */
  lemma ToggleSetsNamedFlags(st: MixState, c: nat, u: ModeUpdate)
    ensures c in Toggle(st, [(c, u)])
    ensures var m := Toggle(st, [(c, u)])[c];
      var before := if c in st then st[c] else Plain;
      && (u.mute.Some? ==> m.mute == u.mute.value) && (u.mute.None? ==> m.mute == before.mute)
      && (u.pause.Some? ==> m.pause == u.pause.value) && (u.pause.None? ==> m.pause == before.pause)
      && (u.solo.Some? ==> m.solo == u.solo.value) && (u.solo.None? ==> m.solo == before.solo)
  {
  }

  /** One input of a `mix` as it feeds the output: its values and its flags. */
  datatype Input<T> = Input(values: seq<T>, mode: Mode)

  /** Some input is soloed. */
  predicate AnySolo<T>(ins: seq<Input<T>>)
  {
    exists i :: 0 <= i < |ins| && ins[i].mode.solo
  }

  /** Whether values taken from an input reach the output: a paused input is
      not read at all; if any input is soloed only soloed inputs are passed
      on; otherwise every input that is not muted is passed on. */
  predicate Forwards(anySolo: bool, m: Mode)
  {
    !m.pause && (m.solo || (!anySolo && !m.mute))
  }

  /** What an input contributes to the output. */
  function Contribution<T>(anySolo: bool, input: Input<T>): seq<T>
  {
    if Forwards(anySolo, input.mode) then input.values else []
  }

  /** `mix(out)` with fixed flags, under a schedule of reads. */
  function MixOut<T>(sched: seq<nat>, ins: seq<Input<T>>): seq<T>
  {
    var solo := AnySolo(ins);
    Merge(sched, seq(|ins|, i requires 0 <= i < |ins| => Contribution(solo, ins[i])))
  }

  /** The output of a `mix` is a permutation of the values of the soloed,
      unpaused inputs when some input is soloed, and of the values of the
      unmuted, unpaused inputs otherwise. */
  lemma MixPassesForwarded<T>(sched: seq<nat>, ins: seq<Input<T>>)
    ensures AnySolo(ins) ==>
      (multiset(MixOut(sched, ins)) ==
       multiset(Flatten(seq(|ins|, i requires 0 <= i < |ins| =>
         if ins[i].mode.solo && !ins[i].mode.pause then ins[i].values else []))))
    ensures !AnySolo(ins) ==>
      (multiset(MixOut(sched, ins)) ==
       multiset(Flatten(seq(|ins|, i requires 0 <= i < |ins| =>
         if !ins[i].mode.mute && !ins[i].mode.pause then ins[i].values else []))))
  {
    var solo := AnySolo(ins);
    var cs := seq(|ins|, i requires 0 <= i < |ins| => Contribution(solo, ins[i]));
    if solo {
      assert cs == seq(|ins|, i requires 0 <= i < |ins| =>
        if ins[i].mode.solo && !ins[i].mode.pause then ins[i].values else []);
    } else {
      assert cs == seq(|ins|, i requires 0 <= i < |ins| =>
        if !ins[i].mode.mute && !ins[i].mode.pause then ins[i].values else []);
    }
  }

  /** The inputs of a `mix` in a chosen order, with the flags its admin state
      gives them. */
  function Attach<T>(order: seq<nat>, st: MixState, streams: map<nat, seq<T>>): (ins: seq<Input<T>>)
    requires forall i :: 0 <= i < |order| ==> order[i] in st && order[i] in streams
    ensures |ins| == |order|
  {
    seq(|order|, i requires 0 <= i < |order| => Input(streams[order[i]], st[order[i]]))
  }
}
