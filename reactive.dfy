/**
 * Reactor streams, reduced to what the server relies on. A finished
 * `Flux` is the finite sequence of items it emitted and the signal that
 * ended it; scheduling, back-pressure and cancellation are not modelled.
 * A `Sink` is the emitter handed to `Flux.create`: once it has been
 * terminated it ignores every further signal.
 */
module Reactive {
  import opened Common
  import opened Exceptions

  datatype Terminal = Completed | Failed(error: Thrown)

  datatype Flux<T> = Flux(items: seq<T>, end: Terminal)

  /** `Flux.just(x)`. */
  function Just<T>(x: T): Flux<T> {
    Flux([x], Completed)
  }

  /** `Flux.concat(a, b)`: `b` is subscribed only after `a` completed; a failure of `a` ends the whole stream. */
  function Concat<T>(a: Flux<T>, b: Flux<T>): (r: Flux<T>)
    ensures a.end.Completed? ==> r.items == a.items + b.items && r.end == b.end
    ensures a.end.Failed? ==> r == a
  {
    if a.end.Completed? then Flux(a.items + b.items, b.end) else a
  }

  /** `flux.map(f)`. */
  function Map<T, U>(a: Flux<T>, f: T -> U): (r: Flux<U>)
    ensures |r.items| == |a.items| && r.end == a.end
    ensures forall i :: 0 <= i < |a.items| ==> r.items[i] == f(a.items[i])
  {
    Flux(seq(|a.items|, i requires 0 <= i < |a.items| => f(a.items[i])), a.end)
  }

  /** `flux.onErrorMap(g)`: items and completion pass through, an error is replaced by `g` of it. */
  function MapError<T>(a: Flux<T>, g: Thrown -> Thrown): (r: Flux<T>)
    ensures r.items == a.items
    ensures a.end.Completed? <==> r.end.Completed?
    ensures a.end.Failed? ==> r.end == Failed(g(a.end.error))
  {
    match a.end
    case Completed => a
    case Failed(e) => Flux(a.items, Failed(g(e)))
  }

  /** Concatenation is associative, so a three-part `Flux.concat` may be read either way. */
  lemma ConcatAssociative<T>(a: Flux<T>, b: Flux<T>, c: Flux<T>)
    ensures Concat(Concat(a, b), c) == Concat(a, Concat(b, c))
  {
    if a.end.Completed? && b.end.Completed? {
      assert (a.items + b.items) + c.items == a.items + (b.items + c.items);
    }
  }

  /** The emitter of `Flux.create`. */
  class Sink<T> {
    var items: seq<T>
    var end: Option<Terminal>

    constructor ()
      ensures items == [] && end == None
    {
      items := [];
      end := None;
    }

    /** `sink.next(x)`: delivered only while the sink is open. */
    method Next(x: T)
      modifies this
      ensures end == old(end)
      ensures items == if old(end).None? then old(items) + [x] else old(items)
    {
      if end.None? {
        items := items + [x];
      }
    }

    /** `sink.error(e)`: terminates an open sink with `e`; ignored once terminated. */
    method Error(e: Thrown)
      modifies this
      ensures items == old(items)
      ensures end == if old(end).None? then Some(Failed(e)) else old(end)
    {
      if end.None? {
        end := Some(Failed(e));
      }
    }

    /** `sink.complete()`: terminates an open sink normally; ignored once terminated. */
    method Complete()
      modifies this
      ensures items == old(items)
      ensures end == if old(end).None? then Some(Completed) else old(end)
    {
      if end.None? {
        end := Some(Completed);
      }
    }

    /** What a subscriber receives from a terminated sink. */
    function Emitted(): Flux<T>
      reads this
      requires end.Some?
    {
      Flux(items, end.value)
    }
  }
}
