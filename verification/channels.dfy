/**
  Channels as their consumers observe them, and the collection bridges
  `fromColl`, `into`, `onto` and `pipe`.

  A channel is abstracted to the values it has accepted and not yet delivered
  (in delivery order) plus its closed flag. Buffer capacity and the rendezvous
  of parked putters and takers are abstracted away: a value put on an open
  channel is one that will be delivered, in order, to the next takes.
 */
module Channels {
  import opened Options

  /** A channel: the values still to be delivered, and whether it is closed. */
  datatype Chan<T> = Chan(queued: seq<T>, closed: bool)

  /** The outcome of one `take`. `EndOfStream` is the `CLOSED` sentinel: a
      constructor of its own, so no user value can ever be confused with it.
      `Parked` means the taker would wait for a putter. */
  datatype Took<T> = Delivered(value: T, rest: Chan<T>) | EndOfStream | Parked

  /** The outcome of one `put`: whether it was accepted, and the channel after. */
  datatype Putting<T> = Putting(accepted: bool, after: Chan<T>)

  /** `chan()`: a fresh, open, empty channel. */
  function NewChan<T>(): Chan<T>
  {
    Chan([], false)
  }

  /** `take(ch)`: the oldest value if there is one, otherwise `CLOSED` if the
      channel is closed, otherwise the taker parks. */
  function Take<T>(ch: Chan<T>): Took<T>
  {
    if ch.queued != [] then Delivered(ch.queued[0], Chan(ch.queued[1..], ch.closed))
    else if ch.closed then EndOfStream
    else Parked
  }

  /** `put(ch, v)`: refused (returns false, changes nothing) on a closed
      channel; otherwise the value joins the delivery order. */
  function Put<T>(ch: Chan<T>, v: T): Putting<T>
  {
    if ch.closed then Putting(false, ch) else Putting(true, Chan(ch.queued + [v], false))
  }

  /** `ch.close()`: values already accepted stay deliverable. */
  function Close<T>(ch: Chan<T>): Chan<T>
  {
    Chan(ch.queued, true)
  }

  /** Closing is idempotent, a put after close is refused without effect, and
      values accepted before the close are still delivered after it. */
  lemma CloseSemantics<T>(ch: Chan<T>, v: T)
    ensures Close(Close(ch)) == Close(ch)
    ensures Put(Close(ch), v) == Putting(false, Close(ch))
    ensures Drain(Close(ch)) == Some(ch.queued)
  {
    DrainDelivers(Close(ch));
  }

  /** Puts every value of `s` in order, stopping at nothing: on a closed
      channel each put is refused. */
  function PutAll<T>(ch: Chan<T>, s: seq<T>): (r: Chan<T>)
    ensures ch.closed ==> r == ch
    ensures !ch.closed ==> r == Chan(ch.queued + s, false)
    decreases |s|
  {
    if s == [] then ch
    else
      assert ch.queued + s == (ch.queued + [s[0]]) + s[1..];
      PutAll(Put(ch, s[0]).after, s[1..])
  }

  /** `onto(ch, coll, keepOpen)`: put every element of `coll` in order, then
      close `ch` unless asked to keep it open. */
  function Onto<T>(ch: Chan<T>, coll: seq<T>, keepOpen: bool): Chan<T>
  {
    var filled := PutAll(ch, coll);
    if keepOpen then filled else Close(filled)
  }

  /** `fromColl(coll)`: a new channel preloaded with `coll`, closed after its
      last element. */
  function FromColl<T>(coll: seq<T>): (r: Chan<T>)
    ensures r.queued == coll
    ensures r.closed
  {
    Onto(NewChan(), coll, false)
  }

  /** Every value a channel will deliver, if it reaches `CLOSED` without
      parking: repeated `take` until the sentinel. */
  function Drain<T>(ch: Chan<T>): Option<seq<T>>
    decreases |ch.queued|
  {
    match Take(ch)
    case Delivered(v, rest) =>
      (match Drain(rest)
       case Some(vs) => Some([v] + vs)
       case None => None)
    case EndOfStream => Some([])
    case Parked => None
  }

  /** Draining a channel ends exactly when it is closed, and then yields the
      values it held, in order. */
  lemma {:induction false} DrainDelivers<T>(ch: Chan<T>)
    ensures Drain(ch) == if ch.closed then Some(ch.queued) else None
    decreases |ch.queued|
  {
    if ch.queued != [] {
      DrainDelivers(Chan(ch.queued[1..], ch.closed));
      assert [ch.queued[0]] + ch.queued[1..] == ch.queued;
    }
  }

  /** `into(coll, ch)`: the collection extended with everything `ch` delivers,
      available once `ch` closes (and never, while it stays open). */
  function Into<T>(coll: seq<T>, ch: Chan<T>): (r: Option<seq<T>>)
    ensures r == if ch.closed then Some(coll + ch.queued) else None
  {
    DrainDelivers(ch);
    match Drain(ch)
    case Some(vs) => Some(coll + vs)
    case None => None
  }

  /** Takes `n` values one at a time, returning them and the channel left
      behind, or `None` if a take would park or meet `CLOSED` first. */
  function TakeN<T>(ch: Chan<T>, n: nat): Option<(seq<T>, Chan<T>)>
    decreases n
  {
    if n == 0 then Some(([], ch))
    else
      match Take(ch)
      case Delivered(v, rest) =>
        (match TakeN(rest, n - 1)
         case Some(p) => Some(([v] + p.0, p.1))
         case None => None)
      case EndOfStream => None
      case Parked => None
  }

  /** Taking from `fromColl(s)` yields the elements of `s` one by one, after
      which the channel is closed and the next take answers `CLOSED`. */
  lemma {:induction false} FromCollDelivers<T>(s: seq<T>)
    ensures TakeN(FromColl(s), |s|) == Some((s, Chan([], true)))
    ensures Take<T>(Chan([], true)) == EndOfStream
  {
    TakeNClosed(s);
  }

  lemma {:induction false} TakeNClosed<T>(s: seq<T>)
    ensures TakeN(Chan(s, true), |s|) == Some((s, Chan([], true)))
  {
    if s != [] {
      TakeNClosed(s[1..]);
      assert [s[0]] + s[1..] == s;
    }
  }

  /** Draining `into(coll, fromColl(s))` yields `coll` followed by `s`. */
  lemma IntoFromColl<T>(coll: seq<T>, s: seq<T>)
    ensures Into(coll, FromColl(s)) == Some(coll + s)
  {
  }

  /** `onto(ch, s)` on a fresh channel followed by `into([], ch)` yields `s`. */
  lemma OntoInto<T>(s: seq<T>)
    ensures Into([], Onto(NewChan(), s, false)) == Some(s)
  {
    assert [] + s == s;
  }

  /** `pipe(src, dst, keepOpen)`: forwards everything `src` delivers to `dst`
      in order, and closes `dst` when `src` closes unless asked to keep it
      open. The result is `dst` once every available value has been moved. */
  function Pipe<T>(src: Chan<T>, dst: Chan<T>, keepOpen: bool): (r: Chan<T>)
    ensures !dst.closed ==> r.queued == dst.queued + src.queued
    ensures r.closed <==> dst.closed || (src.closed && !keepOpen)
  {
    Onto(dst, src.queued, keepOpen || !src.closed)
  }

  /** Piping a closed channel into a fresh one and draining the latter yields
      exactly what the source held. */
  lemma PipeForwards<T>(s: seq<T>)
    ensures Into([], Pipe(FromColl(s), NewChan(), false)) == Some(s)
  {
  }
}
