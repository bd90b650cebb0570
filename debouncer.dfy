/**
 * `Debouncer`: at most one pending block, held by a non-repeating timer. A new call
 * invalidates the pending timer before scheduling its own block; `invalidate` drops the
 * pending block. The timer expiring is an input (`Fire`).
 */
module Debounce {
  import opened Wrappers

  /** What can happen to a debouncer: a call, the quiet interval elapsing, an invalidation. */
  datatype Event<A> = Call(block: A) | Fire | Invalidate

  /** The block pending after `events`: that of the last event, if it was a call. */
  function Pending<A>(events: seq<Event<A>>): (p: Option<A>)
    ensures p.Some? <==> |events| > 0 && events[|events| - 1].Call?
    ensures p.Some? ==> p.value == events[|events| - 1].block
  {
    if events == [] then None
    else match events[|events| - 1]
      case Call(b) => Some(b)
      case Fire => None
      case Invalidate => None
  }

  /**
   * The positions of the calls whose block has run by the end of `events`, in order:
   * each was followed by the timer firing, and each ran once.
   */
  function RanCalls<A>(events: seq<Event<A>>): (r: seq<nat>)
    ensures forall i :: 0 <= i < |r| ==> r[i] + 1 < |events| && events[r[i]].Call? && events[r[i] + 1].Fire?
    ensures forall i, j :: 0 <= i < j < |r| ==> r[i] < r[j]
    decreases |events|
  {
    if events == [] then []
    else
      var before := events[..|events| - 1];
      var ran := RanCalls(before);
      assert forall k :: 0 <= k < |before| ==> before[k] == events[k];
      if events[|events| - 1].Fire? && Pending(before).Some? then ran + [|events| - 2] else ran
  }

  /** The blocks that have run by the end of `events`, in the order they ran. */
  function Ran<A>(events: seq<Event<A>>): seq<A> {
    var calls := RanCalls(events);
    seq(|calls|, i requires 0 <= i < |calls| => events[calls[i]].block)
  }

  /** Conversely, every call directly followed by the timer firing has run. */
  lemma {:induction false} CallBeforeFireRuns<A>(events: seq<Event<A>>, k: nat)
    requires k + 1 < |events| && events[k].Call? && events[k + 1].Fire?
    ensures k in RanCalls(events)
    decreases |events|
  {
    var n := |events|;
    var before := events[..n - 1];
    if k + 2 < n {
      CallBeforeFireRuns(before, k);
    } else {
      assert before[n - 2] == events[k];
    }
  }

  /** Of any burst of calls only the last can run: a superseded or invalidated call never runs. */
  lemma SupersededCallNeverRuns<A>(events: seq<Event<A>>, k: nat)
    requires k + 1 < |events| && events[k].Call? && !events[k + 1].Fire?
    ensures k !in RanCalls(events)
  {
    var r := RanCalls(events);
    forall i | 0 <= i < |r|
      ensures r[i] != k
    {
      assert events[r[i] + 1].Fire?;
    }
  }

  /** A timer firing with nothing pending runs nothing; otherwise it runs the pending block. */
  lemma RanAfterFire<A>(events: seq<Event<A>>)
    ensures Ran(events + [Fire]) == Ran(events) + (if Pending(events).Some? then [Pending(events).value] else [])
  {
    assert (events + [Fire])[..|events|] == events;
    var e := events + [Fire];
    assert forall k :: 0 <= k < |events| ==> e[k] == events[k];
  }

  /** Calls and invalidations run nothing. */
  lemma RanAfterOther<A>(events: seq<Event<A>>, ev: Event<A>)
    requires !ev.Fire?
    ensures Ran(events + [ev]) == Ran(events)
  {
    assert (events + [ev])[..|events|] == events;
    var e := events + [ev];
    assert forall k :: 0 <= k < |events| ==> e[k] == events[k];
  }

  /** The burst `call(a); call(b)` followed by the timer runs `b` alone. */
  lemma BurstRunsLastOnly<A>(a: A, b: A)
    ensures Ran([Call(a), Call(b), Fire]) == [b]
  {
    RanAfterOther([], Call(a));
    RanAfterOther([Call(a)], Call(b));
    assert [Call(a)] + [Call(b)] == [Call(a), Call(b)];
    RanAfterFire([Call(a), Call(b)]);
    assert [Call(a), Call(b)] + [Fire] == [Call(a), Call(b), Fire];
  }

  /** An invalidation between a call and the timer means the block never runs. */
  lemma InvalidateDiscards<A>(events: seq<Event<A>>, a: A)
    ensures Ran(events + [Call(a), Invalidate, Fire]) == Ran(events)
  {
    RanAfterOther(events, Call(a));
    RanAfterOther(events + [Call(a)], Invalidate);
    assert events + [Call(a)] + [Invalidate] == events + [Call(a), Invalidate];
    RanAfterFire(events + [Call(a), Invalidate]);
    assert events + [Call(a), Invalidate] + [Fire] == events + [Call(a), Invalidate, Fire];
  }

  class Debouncer<A> {
    /** The block of the scheduled timer, if any (`timer` non-nil and valid). */
    var pending: Option<A>
    /** The quiet interval in seconds, fixed at construction. */
    const interval: real
    /** Everything that has happened to this debouncer. */
    ghost var events: seq<Event<A>>

    ghost predicate Valid()
      reads this
    {
      pending == Pending(events)
    }

    constructor (interval: real)
      ensures Valid() && this.interval == interval
      ensures pending == None && events == []
    {
      this.interval := interval;
      pending := None;
      events := [];
    }

    /** `call(block)`: invalidate the pending timer, schedule `block`. */
    method Call(block: A)
      requires Valid()
      modifies this
      ensures Valid() && pending == Some(block)
      ensures events == old(events) + [Event.Call(block)]
      ensures Ran(events) == old(Ran(events))
    {
      pending := Some(block);
      RanAfterOther(events, Event.Call(block));
      events := events + [Event.Call(block)];
    }

    /** The timer expires: its block runs once and the timer is spent. */
    method Fire() returns (block: Option<A>)
      requires Valid()
      modifies this
      ensures Valid() && pending == None
      ensures block == old(pending)
      ensures events == old(events) + [Event.Fire]
      ensures Ran(events) == old(Ran(events)) + (if block.Some? then [block.value] else [])
    {
      block := pending;
      pending := None;
      RanAfterFire(events);
      events := events + [Event.Fire];
    }

    /** `invalidate()`: drop the pending block, if any. */
    method Invalidate()
      requires Valid()
      modifies this
      ensures Valid() && pending == None
      ensures events == old(events) + [Event.Invalidate]
      ensures Ran(events) == old(Ran(events))
    {
      pending := None;
      RanAfterOther(events, Event.Invalidate);
      events := events + [Event.Invalidate];
    }
  }
}
