/** `debounce(fn, delay)`: every call clears the pending timer and starts a new one, so of a
    burst of calls only the last fires, `delay` time units after it. Time is logical: the
    event loop is modelled by `Tick(now)` events, at which every timer due by `now` fires. */
module Debounce {
  import opened JsValues

  /** A pending `setTimeout`: fire `fn(...args)` once the clock reaches `deadline`. */
  datatype Timer<A> = Timer(deadline: int, args: A)

  datatype Event<A> = Call(at: int, args: A) | Tick(at: int)

  /** One event. A call replaces the timer (`clearTimeout` then `setTimeout`); a tick fires
      the timer, and forgets it, when it is due. The second component is what fired. */
  function Step<A>(delay: nat, timer: Option<Timer<A>>, e: Event<A>): (Option<Timer<A>>, Option<A>) {
    match e
    case Call(at, args) => (Some(Timer(at + delay, args)), None)
    case Tick(at) =>
      if timer.Some? && timer.value.deadline <= at then (None, Some(timer.value.args))
      else (timer, None)
  }

  /** The timer left after a run of events, and the arguments `fn` was called with, in order. */
  function Run<A>(delay: nat, timer: Option<Timer<A>>, events: seq<Event<A>>): (Option<Timer<A>>, seq<A>)
    decreases |events|
  {
    if events == [] then (timer, [])
    else
      var first := Step(delay, timer, events[0]);
      var rest := Run(delay, first.0, events[1..]);
      (rest.0, (if first.1.Some? then [first.1.value] else []) + rest.1)
  }

  predicate AllCalls<A>(events: seq<Event<A>>) {
    forall i :: 0 <= i < |events| ==> events[i].Call?
  }

  /** A burst of calls fires nothing and leaves one timer: the last call's, due `delay` after it. */
  lemma {:induction false} BurstLeavesLastTimer<A>(delay: nat, timer: Option<Timer<A>>, calls: seq<Event<A>>)
    requires calls != [] && AllCalls(calls)
    ensures Run(delay, timer, calls).0 == Some(Timer(calls[|calls| - 1].at + delay, calls[|calls| - 1].args))
    ensures Run(delay, timer, calls).1 == []
    decreases |calls|
  {
    assert calls[0].Call?;
    if |calls| > 1 {
      BurstLeavesLastTimer(delay, Step(delay, timer, calls[0]).0, calls[1..]);
    } else {
      assert calls[1..] == [];
    }
  }

  /** A tick before the deadline changes nothing and fires nothing. */
  lemma EarlyTickIsQuiet<A>(delay: nat, timer: Timer<A>, at: int)
    requires at < timer.deadline
    ensures Step(delay, Some(timer), Tick(at)) == (Some(timer), None)
  {
  }

  /** Coalescing: a burst of calls followed by a tick at least `delay` after the last call
      makes exactly one call of `fn`, with the last call's arguments, and leaves no timer. */
  lemma {:induction false} BurstFiresOnce<A>(delay: nat, timer: Option<Timer<A>>, calls: seq<Event<A>>, at: int)
    requires calls != [] && AllCalls(calls)
    requires at >= calls[|calls| - 1].at + delay
    ensures Run(delay, timer, calls + [Tick(at)]).0 == None
    ensures Run(delay, timer, calls + [Tick(at)]).1 == [calls[|calls| - 1].args]
  {
    var ticks: seq<Event<A>> := [Tick(at)];
    RunAppend(delay, timer, calls, ticks);
    BurstLeavesLastTimer(delay, timer, calls);
    var last := calls[|calls| - 1];
    assert ticks[1..] == [];
    var after := Run(delay, Some(Timer(last.at + delay, last.args)), ticks);
    assert after.0 == None && after.1 == [last.args];
  }

  /** Running two stretches of events one after the other. */
  lemma {:induction false} RunAppend<A>(delay: nat, timer: Option<Timer<A>>, xs: seq<Event<A>>, ys: seq<Event<A>>)
    ensures Run(delay, timer, xs + ys).0 == Run(delay, Run(delay, timer, xs).0, ys).0
    ensures Run(delay, timer, xs + ys).1 == Run(delay, timer, xs).1 + Run(delay, Run(delay, timer, xs).0, ys).1
    decreases |xs|
  {
    if xs == [] {
      assert xs + ys == ys;
    } else {
      assert (xs + ys)[0] == xs[0];
      assert (xs + ys)[1..] == xs[1..] + ys;
      RunAppend(delay, Step(delay, timer, xs[0]).0, xs[1..], ys);
    }
  }

  /** A debounced function: the closure's `timer` variable. */
  class Debouncer<A> {
    const delay: nat
    var timer: Option<Timer<A>>

    constructor (delay: nat)
      ensures this.delay == delay && timer == None
    {
      this.delay := delay;
      timer := None;
    }

    /** Calling the debounced function at time `now`. */
    method Invoke(now: int, args: A)
      modifies this
      ensures (timer, None) == Step(delay, old(timer), Call(now, args))
    {
      timer := Some(Timer(now + delay, args));
    }

    /** The event loop reaching time `now`: returns the arguments `fn` is called with, if it is. */
    method Advance(now: int) returns (fired: Option<A>)
      modifies this
      ensures (timer, fired) == Step(delay, old(timer), Tick(now))
    {
      if timer.Some? && timer.value.deadline <= now {
        fired := Some(timer.value.args);
        timer := None;
      } else {
        fired := None;
      }
    }
  }
}
