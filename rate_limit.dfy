/** The two rate limiters: `throttle` runs the wrapped handler at most once
    per window and drops the calls inside it; `debounce` keeps only the
    latest call pending and runs it once the calls stop. Time is the value
    `Date.now()` (resp. the timer queue) would give, passed in. */
module RateLimit {
  import opened Dom

  // ---------------------------------------------------------------------
  // throttle
  // ---------------------------------------------------------------------

  /** `previous` after calls at the given times, starting from `start`. */
  function PreviousAfter(wait: int, start: int, times: seq<int>): int
  {
    if times == [] then start
    else
      var previous := PreviousAfter(wait, start, times[..|times| - 1]);
      var now := times[|times| - 1];
      if now - previous > wait then now else previous
  }

  /** Whether the call at times[i] runs the wrapped handler. */
  predicate FiresAt(wait: int, start: int, times: seq<int>, i: nat)
    requires i < |times|
  {
    times[i] - PreviousAfter(wait, start, times[..i]) > wait
  }

  /** `previous` is always the start value or the time of a call that ran:
      a dropped call leaves no trace and nothing runs later on its behalf. */
  lemma {:induction false} PreviousIsAFiredCall(wait: int, start: int, times: seq<int>)
    ensures PreviousAfter(wait, start, times) == start ||
      exists i :: 0 <= i < |times| && FiresAt(wait, start, times, i) && PreviousAfter(wait, start, times) == times[i]
  {
    if times != [] {
      var n := |times| - 1;
      var prefix := times[..n];
      PreviousIsAFiredCall(wait, start, prefix);
      if !FiresAt(wait, start, times, n) && PreviousAfter(wait, start, prefix) != start {
        var i :| 0 <= i < |prefix| && FiresAt(wait, start, prefix, i) && PreviousAfter(wait, start, prefix) == prefix[i];
        assert prefix[..i] == times[..i];
        assert FiresAt(wait, start, times, i);
      }
    }
  }

  /** With a non-negative window, `previous` never decreases from one call to
      the next: it only moves to a clock reading more than `wait` above it. */
  lemma {:induction false} PreviousAfterPrefix(wait: int, start: int, times: seq<int>, j: nat)
    requires wait >= 0 && j <= |times|
    ensures PreviousAfter(wait, start, times[..j]) <= PreviousAfter(wait, start, times)
    decreases |times| - j
  {
    if j < |times| {
      var n := |times| - 1;
      assert times[..n][..j] == times[..j];
      PreviousAfterPrefix(wait, start, times[..n], j);
      assert times[..n] == times[..|times| - 1];
    } else {
      assert times[..j] == times;
    }
  }

  /** After a call at times[i] that ran, `previous` never falls below times[i]. */
  lemma {:induction false} PreviousAfterFire(wait: int, start: int, times: seq<int>, i: nat, j: nat)
    requires wait >= 0
    requires i < j <= |times| && FiresAt(wait, start, times, i)
    ensures PreviousAfter(wait, start, times[..j]) >= times[i]
  {
    assert times[..i + 1][..i] == times[..i];
    assert PreviousAfter(wait, start, times[..i + 1]) == times[i];
    assert times[..j][..i + 1] == times[..i + 1];
    PreviousAfterPrefix(wait, start, times[..j], i + 1);
  }

  /** Two calls that both run are more than `wait` apart. */
  lemma ThrottleSpacing(wait: int, start: int, times: seq<int>, i: nat, j: nat)
    requires wait >= 0
    requires i < j < |times| && FiresAt(wait, start, times, i) && FiresAt(wait, start, times, j)
    ensures times[j] - times[i] > wait
  {
    PreviousAfterFire(wait, start, times, i, j);
  }

  /** `previous` starts at 0, so the first call runs exactly when its clock
      reading exceeds the window. */
  lemma FirstCallFires(wait: int, times: seq<int>)
    requires |times| > 0
    ensures FiresAt(wait, 0, times, 0) <==> times[0] > wait
  {
  }

  class Throttle {
    /** The window, in milliseconds. */
    const wait: int
    /** The time of the last call that ran; 0 before any. */
    var previous: int
    /** The clock readings of all calls so far. */
    ghost var calls: seq<int>

    ghost predicate Valid()
      reads this
    {
      previous == PreviousAfter(wait, 0, calls)
    }

    constructor (wait: int)
      ensures Valid() && this.wait == wait && previous == 0 && calls == []
    {
      this.wait := wait;
      previous := 0;
      calls := [];
    }

    /** The throttled function, called at `now`: it reports whether the
        wrapped handler runs. */
    method Invoke(now: int) returns (fired: bool)
      requires Valid()
      modifies this
      ensures Valid() && calls == old(calls) + [now]
      ensures fired <==> now - old(previous) > wait
      ensures fired == FiresAt(wait, 0, calls, |calls| - 1)
      ensures previous == if fired then now else old(previous)
    {
      calls := calls + [now];
      if now - previous > wait {
        fired := true;
        previous := now;
      } else {
        fired := false;
      }
      assert calls[..|calls| - 1] == old(calls);
    }
  }

  // ---------------------------------------------------------------------
  // debounce
  // ---------------------------------------------------------------------

  /** A pending `setTimeout`: when it is due and the arguments it will pass. */
  datatype Timer<A> = Timer(due: int, arg: A)

  class Debouncer<A> {
    /** The delay, in milliseconds. */
    const wait: int
    /** The timer the variable `timeout` refers to, while it has not run. */
    var pending: Option<Timer<A>>
    /** The calls so far, each with its time and arguments. */
    ghost var calls: seq<(int, A)>

    /** Only the latest call can be pending, due `wait` after it. */
    ghost predicate Valid()
      reads this
    {
      pending.Some? ==>
        calls != [] && pending.value == Timer(calls[|calls| - 1].0 + wait, calls[|calls| - 1].1)
    }

    constructor (wait: int)
      ensures Valid() && this.wait == wait && pending == None && calls == []
    {
      this.wait := wait;
      pending := None;
      calls := [];
    }

    /** The debounced function, called at `now`: the pending timer, if any,
        is cancelled and replaced by one for this call. */
    method Invoke(now: int, arg: A)
      requires Valid()
      modifies this
      ensures Valid() && calls == old(calls) + [(now, arg)]
      ensures pending == Some(Timer(now + wait, arg))
    {
      calls := calls + [(now, arg)];
      pending := Some(Timer(now + wait, arg));
    }

    /** The timer queue at `now`: a pending timer that is due runs the
        wrapped handler with the latest call's arguments. */
    method Elapse(now: int) returns (ran: Option<A>)
      requires Valid()
      modifies this
      ensures Valid() && calls == old(calls)
      ensures old(pending).Some? && now >= old(pending).value.due ==>
        ran == Some(calls[|calls| - 1].1) && pending == None
      ensures !(old(pending).Some? && now >= old(pending).value.due) ==>
        ran == None && pending == old(pending)
    {
      if pending.Some? && now >= pending.value.due {
        ran := Some(pending.value.arg);
        pending := None;
      } else {
        ran := None;
      }
    }
  }
}
